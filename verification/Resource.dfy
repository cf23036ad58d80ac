/** Requirement programs (resource.py): what a line needs, how it is evaluated
    fragment by fragment, and how a whole program is evaluated or refused. */
module Resource {
  import opened Base
  import opened Splitting

  /** The data of one `Resource` object. */
  type Record = map<string, string>

  /** All the records produced so far, by resource job id. */
  type ResourceMap = map<string, seq<Record>>

  /** One call of an expression's lambda. */
  datatype CallResult = Raises | Value(truth: bool)

  /** The part played by the Python runtime. `names` lists the names that the
      syntax tree of a text mentions, none for a text that is refused; `call` is
      the lambda compiled from it, applied to one record per distinct name. */
  datatype Python = Python(names: string -> seq<string>, call: (string, seq<Record>) -> CallResult)

  /** A requirement line. An empty namespace stands for Python's `None`, the
      imports are pairs of imported resource id and local alias. */
  datatype Expression = Expression(text: string, namespace: string, imports: seq<(string, string)>)

  /** `evaluate` either decides, or an exception escapes it. */
  datatype Evaluation = Truth(holds: bool) | Escapes

  // ----- Names, aliases and resource ids -----

  /** The aliases of a text: its names in order of first appearance. */
  function Aliases(py: Python, text: string): seq<string> {
    Dedup(py.names(text))
  }

  /** The first import with this alias wins over the alias itself. */
  function Imported(imports: seq<(string, string)>, alias: string): string {
    if imports == [] then alias
    else if imports[0].1 == alias then imports[0].0
    else Imported(imports[1..], alias)
  }

  function ResourceId(e: Expression, alias: string): string {
    var id := Imported(e.imports, alias);
    if !Contains(id, "::") && e.namespace != "" then e.namespace + "::" + id else id
  }

  function ResourceIds(py: Python, e: Expression): (ids: seq<string>)
    ensures |ids| == |Aliases(py, e.text)|
    ensures forall i | 0 <= i < |ids| :: ids[i] == ResourceId(e, Aliases(py, e.text)[i])
  {
    var aliases := Aliases(py, e.text);
    seq(|aliases|, i requires 0 <= i < |aliases| => ResourceId(e, aliases[i]))
  }

  /** An alias stands for this name: what the first import under that alias
      imports, or the alias itself where there is none. */
  ghost predicate StandsFor(imports: seq<(string, string)>, alias: string, name: string) {
    if exists i :: 0 <= i < |imports| && imports[i].1 == alias
    then exists i :: && 0 <= i < |imports| && imports[i] == (name, alias)
                     && forall k | 0 <= k < i :: imports[k].1 != alias
    else name == alias
  }

  lemma {:induction false} ImportedStandsFor(imports: seq<(string, string)>, alias: string)
    ensures StandsFor(imports, alias, Imported(imports, alias))
  {
    if imports == [] {
    } else if imports[0].1 == alias {
      assert imports[0] == (Imported(imports, alias), alias);
    } else {
      var rest, name := imports[1..], Imported(imports, alias);
      ImportedStandsFor(rest, alias);
      if i :| 0 <= i < |imports| && imports[i].1 == alias {
        assert rest[i - 1].1 == alias;
        var j :| 0 <= j < |rest| && rest[j] == (name, alias) && forall k | 0 <= k < j :: rest[k].1 != alias;
        assert imports[j + 1] == (name, alias);
        forall k | 0 <= k < j + 1 ensures imports[k].1 != alias { if k > 0 { assert rest[k - 1] == imports[k]; } }
      } else {
        forall j | 0 <= j < |rest| ensures rest[j].1 != alias { assert imports[j + 1] == rest[j]; }
      }
    }
  }

  /** The id that an alias is resolved to: a qualified name stays as it is, any
      other gets the namespace of the line, if that has one. */
  lemma ResourceIdMeaning(e: Expression, alias: string, name: string)
    requires StandsFor(e.imports, alias, name)
    ensures Contains(name, "::") || e.namespace == "" ==> ResourceId(e, alias) == name
    ensures !Contains(name, "::") && e.namespace != "" ==> ResourceId(e, alias) == e.namespace + "::" + name
  {
    ImportedStandsFor(e.imports, alias);
    OneName(e.imports, alias, name, Imported(e.imports, alias));
  }

  lemma OneName(imports: seq<(string, string)>, alias: string, a: string, b: string)
    requires StandsFor(imports, alias, a) && StandsFor(imports, alias, b)
    ensures a == b
  {
    if exists i :: 0 <= i < |imports| && imports[i].1 == alias {
      var i :| && 0 <= i < |imports| && imports[i] == (a, alias) && forall k | 0 <= k < i :: imports[k].1 != alias;
      var j :| && 0 <= j < |imports| && imports[j] == (b, alias) && forall k | 0 <= k < j :: imports[k].1 != alias;
      assert i == j;
    }
  }

  /** The loops of `ResourceExpression.__init__` and `resource_id_list`. */
  method ResolveAliases(py: Python, e: Expression) returns (ids: seq<string>)
    ensures ids == ResourceIds(py, e)
  {
    var aliases := Aliases(py, e.text);
    ids := [];
    for i := 0 to |aliases|
      invariant |ids| == i
      invariant forall k | 0 <= k < i :: ids[k] == ResourceId(e, aliases[k])
    {
      var id := aliases[i];
      var j := 0;
      while j < |e.imports| && e.imports[j].1 != aliases[i]
        invariant j <= |e.imports|
        invariant Imported(e.imports, aliases[i]) == Imported(e.imports[j..], aliases[i])
      {
        j := j + 1;
      }
      if j < |e.imports| {
        id := e.imports[j].0;
      }
      ids := ids + [if !Contains(id, "::") && e.namespace != "" then e.namespace + "::" + id else id];
    }
  }

  // ----- The meaning of a line -----

  function Lookup(resources: ResourceMap, id: string): seq<Record> {
    if id in resources then resources[id] else []
  }

  function ListsFor(e: Expression, aliases: seq<string>, resources: ResourceMap): (lists: seq<seq<Record>>)
    ensures |lists| == |aliases|
    ensures forall i | 0 <= i < |lists| :: lists[i] == Lookup(resources, ResourceId(e, aliases[i]))
  {
    seq(|aliases|, i requires 0 <= i < |aliases| => Lookup(resources, ResourceId(e, aliases[i])))
  }

  /** One element of the Cartesian product: a record from each list. */
  ghost predicate IsPack(pack: seq<Record>, lists: seq<seq<Record>>) {
    |pack| == |lists| && forall i | 0 <= i < |lists| :: pack[i] in lists[i]
  }

  /** Some pack makes the text true. A pack on which the call raises does not. */
  ghost predicate AnyPack(py: Python, text: string, lists: seq<seq<Record>>) {
    exists pack :: IsPack(pack, lists) && py.call(text, pack) == Value(true)
  }

  ghost predicate LeafHolds(py: Python, e: Expression, leaf: string, resources: ResourceMap) {
    AnyPack(py, leaf, ListsFor(e, Dedup(py.names(leaf)), resources))
  }

  ghost predicate GroupHolds(py: Python, e: Expression, group: seq<string>, resources: ResourceMap) {
    forall leaf | leaf in group :: LeafHolds(py, e, leaf, resources)
  }

  /** The reference semantics: some or-group has all its leaves satisfied, each
      leaf by a pack of its own. */
  ghost predicate SplitHolds(py: Python, e: Expression, groups: seq<seq<string>>, resources: ResourceMap) {
    exists i | 0 <= i < |groups| :: GroupHolds(py, e, groups[i], resources)
  }

  predicate IsCut(text: string) {
    '(' !in text && (RFind(text, OR) > 0 || RFind(text, AND) > 0)
  }

  /** The operator at which a text is cut. */
  function Operator(text: string): (op: string)
    requires IsCut(text)
    ensures op != "" && RFind(text, op) > 0
  {
    if RFind(text, OR) > 0 then OR else AND
  }

  /** A text and all the fragments that cutting it, again and again, gives. Each
      of them becomes an expression of its own. */
  function Fragments(text: string): seq<string>
    decreases |text|, 1
  {
    [text] + InnerFragments(text)
  }

  function InnerFragments(text: string): seq<string>
    decreases |text|, 0
  {
    if IsCut(text) then Fragments(Head(text, Operator(text))) + Fragments(Tail(text, Operator(text))) else []
  }

  /** A text names a resource, and all the resources it names are recorded. */
  ghost predicate IsAvailable(py: Python, e: Expression, text: string, resources: ResourceMap) {
    py.names(text) != [] && forall n | n in py.names(text) :: ResourceId(e, n) in resources
  }

  ghost predicate AllAvailable(py: Python, e: Expression, texts: seq<string>, resources: ResourceMap) {
    forall text | text in texts :: IsAvailable(py, e, text, resources)
  }

  ghost function SplitTruth(py: Python, e: Expression, resources: ResourceMap): Evaluation {
    Truth(SplitHolds(py, e, Groups(e.text), resources))
  }

  /** What a fragment evaluates to, its records being looked up. */
  ghost function Meaning(py: Python, e: Expression, resources: ResourceMap): Evaluation {
    if AllAvailable(py, e, Fragments(e.text), resources) then SplitTruth(py, e, resources) else Escapes
  }

  /** What `evaluate` answers: a text that is cut looks its fragments' records
      up, any other text uses the lists it is given. */
  ghost function EvaluationOf(py: Python, e: Expression, lists: seq<seq<Record>>, resources: ResourceMap): Evaluation {
    if !IsCut(e.text) then Truth(AnyPack(py, e.text, lists))
    else if AllAvailable(py, e, InnerFragments(e.text), resources) then SplitTruth(py, e, resources)
    else Escapes
  }

  lemma UncutGroups(text: string)
    requires !IsCut(text)
    ensures Groups(text) == [[text]]
  {
    if '(' !in text {
      assert Pieces(text, OR) == [text] && Pieces(text, AND) == [text];
    }
  }

  /** A text that is not cut holds when its one leaf does. */
  lemma UncutHolds(py: Python, e: Expression, resources: ResourceMap)
    requires !IsCut(e.text)
    ensures SplitHolds(py, e, Groups(e.text), resources)
            <==> AnyPack(py, e.text, ListsFor(e, Aliases(py, e.text), resources))
  {
    UncutGroups(e.text);
    var groups := Groups(e.text);
    assert groups[0] == [e.text];
    assert GroupHolds(py, e, groups[0], resources) <==> LeafHolds(py, e, e.text, resources);
  }

  /** With its lists looked up in the map, a fragment evaluates to its meaning. */
  lemma FragmentMeaning(py: Python, f: Expression, lists: seq<seq<Record>>, resources: ResourceMap)
    requires IsAvailable(py, f, f.text, resources)
    requires lists == ListsFor(f, Aliases(py, f.text), resources)
    ensures EvaluationOf(py, f, lists, resources) == Meaning(py, f, resources)
  {
    FragmentsAvailable(py, f, f.text, resources);
    if !IsCut(f.text) {
      UncutHolds(py, f, resources);
    }
  }

  lemma FragmentsAvailable(py: Python, e: Expression, text: string, resources: ResourceMap)
    ensures AllAvailable(py, e, Fragments(text), resources)
            <==> IsAvailable(py, e, text, resources) && AllAvailable(py, e, InnerFragments(text), resources)
  {
    assert forall x :: x in Fragments(text) <==> x == text || x in InnerFragments(text);
  }

  /** A fragment that names nothing, or a resource not recorded, lets an
      exception escape. */
  lemma FragmentEscapes(py: Python, f: Expression, resources: ResourceMap)
    requires !IsAvailable(py, f, f.text, resources)
    ensures Meaning(py, f, resources) == Escapes
  {
    assert f.text in Fragments(f.text);
  }

  // ----- evaluate and _split_and_evaluate -----

  /** `itertools.product`. */
  function Product(lists: seq<seq<Record>>): seq<seq<Record>> {
    if lists == [] then [[]] else Prefixed(lists[0], Product(lists[1..]))
  }

  function Prefixed(firsts: seq<Record>, rests: seq<seq<Record>>): seq<seq<Record>> {
    if firsts == [] then []
    else seq(|rests|, i requires 0 <= i < |rests| => [firsts[0]] + rests[i]) + Prefixed(firsts[1..], rests)
  }

  lemma {:induction false} InPrefixed(firsts: seq<Record>, rests: seq<seq<Record>>, pack: seq<Record>)
    ensures pack in Prefixed(firsts, rests) <==> pack != [] && pack[0] in firsts && pack[1..] in rests
  {
    if firsts == [] {
    } else {
      var here := seq(|rests|, i requires 0 <= i < |rests| => [firsts[0]] + rests[i]);
      InPrefixed(firsts[1..], rests, pack);
      if pack in here {
        var i :| 0 <= i < |rests| && pack == here[i];
        assert pack[1..] == rests[i];
      }
      if pack != [] && pack[0] == firsts[0] && pack[1..] in rests {
        var i :| 0 <= i < |rests| && pack[1..] == rests[i];
        assert here[i] == [pack[0]] + pack[1..] == pack;
      }
      assert pack in Prefixed(firsts, rests) <==> pack in here || pack in Prefixed(firsts[1..], rests);
    }
  }

  lemma {:induction false} InProduct(lists: seq<seq<Record>>, pack: seq<Record>)
    ensures pack in Product(lists) <==> IsPack(pack, lists)
  {
    if lists == [] {
    } else {
      InPrefixed(lists[0], Product(lists[1..]), pack);
      if pack != [] {
        InProduct(lists[1..], pack[1..]);
        if IsPack(pack[1..], lists[1..]) && pack[0] in lists[0] {
          forall i | 0 <= i < |lists| ensures pack[i] in lists[i] {
            if i > 0 { assert pack[1..][i - 1] in lists[1..][i - 1]; }
          }
        }
        if IsPack(pack, lists) {
          assert forall i | 0 <= i < |lists[1..]| :: pack[1..][i] == pack[i + 1] && lists[1..][i] == lists[i + 1];
        }
      }
    }
  }

  method Evaluate(py: Python, e: Expression, lists: seq<seq<Record>>, resources: ResourceMap) returns (r: Evaluation)
    ensures r == EvaluationOf(py, e, lists, resources)
    decreases |e.text|, 1
  {
    if '(' !in e.text {
      if RFind(e.text, OR) > 0 {
        var lhs, rhs := SplitAndEvaluate(py, e, OR, resources);
        OrMeaning(py, e, lists, resources);
        return if lhs.Truth? && rhs.Truth? then Truth(lhs.holds || rhs.holds) else Escapes;
      }
      if RFind(e.text, AND) > 0 {
        var lhs, rhs := SplitAndEvaluate(py, e, AND, resources);
        AndMeaning(py, e, lists, resources);
        return if lhs.Truth? && rhs.Truth? then Truth(lhs.holds && rhs.holds) else Escapes;
      }
    }
    var packs := Product(lists);
    for i := 0 to |packs|
      invariant forall k | 0 <= k < i :: py.call(e.text, packs[k]) != Value(true)
    {
      if py.call(e.text, packs[i]) == Value(true) {
        InProduct(lists, packs[i]);
        return Truth(true);
      }
    }
    forall pack | IsPack(pack, lists) ensures py.call(e.text, pack) != Value(true) {
      InProduct(lists, pack);
    }
    return Truth(false);
  }

  method SplitAndEvaluate(py: Python, e: Expression, op: string, resources: ResourceMap)
    returns (lhs: Evaluation, rhs: Evaluation)
    requires op != "" && RFind(e.text, op) > 0
    ensures lhs == Meaning(py, e.(text := Head(e.text, op)), resources)
    ensures lhs.Truth? ==> rhs == Meaning(py, e.(text := Tail(e.text, op)), resources)
    decreases |e.text|, 0
  {
    lhs := EvaluateFragment(py, e, Head(e.text, op), resources);
    rhs := Escapes;
    if lhs.Truth? {
      rhs := EvaluateFragment(py, e, Tail(e.text, op), resources);
    }
  }

  method EvaluateFragment(py: Python, e: Expression, text: string, resources: ResourceMap) returns (r: Evaluation)
    requires |text| < |e.text|
    ensures r == Meaning(py, e.(text := text), resources)
    decreases |text|, 2
  {
    var f := e.(text := text);
    var ids := ResolveAliases(py, f);
    var aliases := Aliases(py, text);
    if aliases == [] {
      assert forall n :: n !in py.names(text);
      FragmentEscapes(py, f, resources);
      return Escapes;
    }
    var lists := [];
    for i := 0 to |ids|
      invariant |lists| == i
      invariant forall k | 0 <= k < i :: ids[k] in resources && lists[k] == resources[ids[k]]
    {
      if ids[i] !in resources {
        assert aliases[i] in py.names(text) && ResourceId(f, aliases[i]) == ids[i];
        FragmentEscapes(py, f, resources);
        return Escapes;
      }
      lists := lists + [resources[ids[i]]];
    }
    assert lists == ListsFor(f, aliases, resources);
    r := Evaluate(py, f, lists, resources);
    AllRecorded(py, f, ids, resources);
    FragmentMeaning(py, f, lists, resources);
  }

  lemma AllRecorded(py: Python, f: Expression, ids: seq<string>, resources: ResourceMap)
    requires ids == ResourceIds(py, f) && ids != [] && forall id | id in ids :: id in resources
    ensures IsAvailable(py, f, f.text, resources)
  {
    var aliases := Aliases(py, f.text);
    assert aliases[0] in py.names(f.text);
    forall n | n in py.names(f.text) ensures ResourceId(f, n) in resources {
      NameHasId(py, f, n);
    }
  }

  lemma NameHasId(py: Python, e: Expression, n: string)
    requires n in py.names(e.text)
    ensures ResourceId(e, n) in ResourceIds(py, e)
  {
    var aliases := Aliases(py, e.text);
    var i :| 0 <= i < |aliases| && aliases[i] == n;
    assert ResourceIds(py, e)[i] in ResourceIds(py, e);
  }

  lemma OrMeaning(py: Python, e: Expression, lists: seq<seq<Record>>, resources: ResourceMap)
    requires '(' !in e.text && RFind(e.text, OR) > 0
    ensures var l := Meaning(py, e.(text := Head(e.text, OR)), resources);
            var r := Meaning(py, e.(text := Tail(e.text, OR)), resources);
            EvaluationOf(py, e, lists, resources) == if l.Truth? && r.Truth? then Truth(l.holds || r.holds) else Escapes
  {
    var h, t := e.(text := Head(e.text, OR)), e.(text := Tail(e.text, OR));
    GroupsAtOr(e.text);
    SameTexts(py, e, h, resources);
    SameTexts(py, e, t, resources);
    SameGroups(py, e, h, Groups(h.text), resources);
    SameGroups(py, e, t, Groups(t.text), resources);
    SplitHoldsAppend(py, e, Groups(h.text), Groups(t.text), resources);
  }

  lemma SameGroups(py: Python, e: Expression, f: Expression, groups: seq<seq<string>>, resources: ResourceMap)
    requires e.namespace == f.namespace && e.imports == f.imports
    ensures SplitHolds(py, e, groups, resources) == SplitHolds(py, f, groups, resources)
  {
    SameTexts(py, e, f, resources);
    assert forall i | 0 <= i < |groups| ::
             GroupHolds(py, e, groups[i], resources) == GroupHolds(py, f, groups[i], resources);
  }

  lemma SplitHoldsAppend(py: Python, e: Expression, a: seq<seq<string>>, b: seq<seq<string>>, resources: ResourceMap)
    ensures SplitHolds(py, e, a + b, resources) <==> SplitHolds(py, e, a, resources) || SplitHolds(py, e, b, resources)
  {
    var c := a + b;
    if i :| 0 <= i < |a| && GroupHolds(py, e, a[i], resources) { assert GroupHolds(py, e, c[i], resources); }
    if i :| 0 <= i < |b| && GroupHolds(py, e, b[i], resources) { assert GroupHolds(py, e, c[|a| + i], resources); }
    if i :| 0 <= i < |c| && GroupHolds(py, e, c[i], resources) {
      if i >= |a| { assert GroupHolds(py, e, b[i - |a|], resources); }
    }
  }

  lemma AndMeaning(py: Python, e: Expression, lists: seq<seq<Record>>, resources: ResourceMap)
    requires '(' !in e.text && Whole(e.text, OR) && RFind(e.text, AND) > 0
    ensures var l := Meaning(py, e.(text := Head(e.text, AND)), resources);
            var r := Meaning(py, e.(text := Tail(e.text, AND)), resources);
            EvaluationOf(py, e, lists, resources) == if l.Truth? && r.Truth? then Truth(l.holds && r.holds) else Escapes
  {
    var h, t := e.(text := Head(e.text, AND)), e.(text := Tail(e.text, AND));
    SameTexts(py, e, h, resources);
    SameTexts(py, e, t, resources);
    AndHolds(py, e, h, t, resources);
  }

  lemma AndHolds(py: Python, e: Expression, h: Expression, t: Expression, resources: ResourceMap)
    requires '(' !in e.text && Whole(e.text, OR) && RFind(e.text, AND) > 0
    requires h == e.(text := Head(e.text, AND)) && t == e.(text := Tail(e.text, AND))
    ensures SplitHolds(py, e, Groups(e.text), resources)
            <==> SplitHolds(py, h, Groups(h.text), resources) && SplitHolds(py, t, Groups(t.text), resources)
  {
    GroupsAtAnd(e.text);
    SameGroups(py, e, h, Groups(h.text), resources);
    SameGroups(py, e, t, Groups(t.text), resources);
    OneGroup(py, e, Groups(h.text), resources);
    OneGroup(py, e, Groups(t.text), resources);
    OneGroup(py, e, Groups(e.text), resources);
    GroupHoldsAppend(py, e, Pieces(h.text, AND), [t.text], resources);
  }

  lemma GroupHoldsAppend(py: Python, e: Expression, a: seq<string>, b: seq<string>, resources: ResourceMap)
    ensures GroupHolds(py, e, a + b, resources) <==> GroupHolds(py, e, a, resources) && GroupHolds(py, e, b, resources)
  {
  }

  lemma OneGroup(py: Python, e: Expression, groups: seq<seq<string>>, resources: ResourceMap)
    requires |groups| == 1
    ensures SplitHolds(py, e, groups, resources) <==> GroupHolds(py, e, groups[0], resources)
  {
  }

  /** Fragments of one line share its namespace and imports, so they resolve
      names alike. */
  lemma SameTexts(py: Python, e: Expression, f: Expression, resources: ResourceMap)
    requires e.namespace == f.namespace && e.imports == f.imports
    ensures forall leaf :: LeafHolds(py, e, leaf, resources) == LeafHolds(py, f, leaf, resources)
    ensures forall text :: IsAvailable(py, e, text, resources) == IsAvailable(py, f, text, resources)
  {
    forall leaf ensures LeafHolds(py, e, leaf, resources) == LeafHolds(py, f, leaf, resources) {
      assert ListsFor(e, Dedup(py.names(leaf)), resources) == ListsFor(f, Dedup(py.names(leaf)), resources);
    }
  }

  // ----- Main results about one line -----

  /** " and " binds tighter than " or ": a line written from or-groups of
      and-joined leaves evaluates to the disjunction over its groups of the
      conjunction of its leaves, each satisfied by a pack of its own. */
  lemma SplittingRespectsPrecedence(py: Python, e: Expression, groups: seq<seq<string>>, resources: ResourceMap)
    requires groups != []
    requires forall i | 0 <= i < |groups| :: groups[i] != [] && forall j | 0 <= j < |groups[i]| :: Clean(groups[i][j])
    requires e.text == Render(groups) && AllAvailable(py, e, InnerFragments(e.text), resources)
    ensures EvaluationOf(py, e, ListsFor(e, Aliases(py, e.text), resources), resources)
            == Truth(SplitHolds(py, e, groups, resources))
  {
    GroupsOfRender(groups);
    if !IsCut(e.text) {
      UncutHolds(py, e, resources);
    }
  }

  /** Cutting brings nothing to light: every fragment names a resource, and only
      resources that the line itself names. A line with an operator in a comment
      or a string literal need not be like that. */
  ghost predicate Covers(py: Python, e: Expression) {
    forall text | text in InnerFragments(e.text) ::
      py.names(text) != [] && forall n | n in py.names(text) :: ResourceId(e, n) in ResourceIds(py, e)
  }

  /** Once the line's own resource ids are recorded, no lookup fails at any depth
      of splitting and no fragment is refused, if the line covers its fragments. */
  lemma PreCheckSuffices(py: Python, e: Expression, lists: seq<seq<Record>>, resources: ResourceMap)
    requires Covers(py, e) && forall id | id in ResourceIds(py, e) :: id in resources
    ensures EvaluationOf(py, e, lists, resources).Truth?
  {
    forall text | text in InnerFragments(e.text) ensures IsAvailable(py, e, text, resources) {
    }
  }

  /** And only then: for a line that does not cover its fragments, recording
      exactly what it names passes the first check and lets an exception escape. */
  lemma PreCheckSufficesExactly(py: Python, e: Expression, lists: seq<seq<Record>>)
    ensures Covers(py, e)
            <==> forall resources | RecordsAll(py, e, resources) :: EvaluationOf(py, e, lists, resources).Truth?
  {
    if Covers(py, e) {
      forall resources | RecordsAll(py, e, resources) ensures EvaluationOf(py, e, lists, resources).Truth? {
        PreCheckSuffices(py, e, lists, resources);
      }
    } else {
      var resources: ResourceMap := map id | id in ResourceIds(py, e) :: [];
      assert RecordsAll(py, e, resources);
      var text :| text in InnerFragments(e.text) && !(py.names(text) != []
                  && forall n | n in py.names(text) :: ResourceId(e, n) in ResourceIds(py, e));
      assert !IsAvailable(py, e, text, resources);
      assert !EvaluationOf(py, e, lists, resources).Truth?;
    }
  }

  ghost predicate RecordsAll(py: Python, e: Expression, resources: ResourceMap) {
    forall id | id in ResourceIds(py, e) :: id in resources
  }

  /** What the text after the last " or " names is looked up, whatever Python
      makes of the line as a whole. */
  lemma HiddenOperatorEscapes(py: Python, e: Expression, lists: seq<seq<Record>>, resources: ResourceMap, head: string,
          tail: string)
    requires e.text == head + OR + tail && head != "" && '(' !in head && Solid(tail, OR)
    requires !IsAvailable(py, e, tail, resources)
    ensures EvaluationOf(py, e, lists, resources) == Escapes
  {
    CutWhereJoined(head, OR, tail);
    assert tail in Fragments(tail);
    assert tail in InnerFragments(e.text);
  }

  const COMMENTED: string := "cpu.arch == 'x' #"
  const UNSEEN: string := "net.up == 'True'"

  /** A comparison and a comment to Python, two operands to `rfind`: with the one
      resource recorded that the line names, evaluating it raises. */
  lemma CommentedOperatorEscapes(py: Python, lists: seq<seq<Record>>, cpu: seq<Record>)
    requires py.names(COMMENTED + OR + UNSEEN) == ["cpu"] && py.names(UNSEEN) == ["net"]
    ensures var e, resources := Expression(COMMENTED + OR + UNSEEN, "", []), map["cpu" := cpu];
            RecordsAll(py, e, resources) && EvaluationOf(py, e, lists, resources) == Escapes
  {
    var e, resources := Expression(COMMENTED + OR + UNSEEN, "", []), map["cpu" := cpu];
    NoLetterNoOr(UNSEEN);
    OnlyName(py, e, "cpu");
    assert "net" in py.names(UNSEEN) && ResourceId(e, "net") == "net";
    assert "net"[0] != "cpu"[0];
    HiddenOperatorEscapes(py, e, lists, resources, COMMENTED, UNSEEN);
  }

  lemma OnlyName(py: Python, e: Expression, name: string)
    requires py.names(e.text) == [name] && e.namespace == "" && e.imports == []
    ensures ResourceIds(py, e) == [name]
  {
    var ids := Aliases(py, e.text);
    forall i | 0 <= i < |ids| ensures ids[i] == name { assert ids[i] in py.names(e.text); }
    assert name in ids && (|ids| <= 1 || ids[0] != ids[1]);
  }

  lemma NoLetterNoOr(s: string)
    requires s != "" && '(' !in s && !IsSpace(s[0]) && !IsSpace(s[|s| - 1]) && 'o' !in s
    ensures Solid(s, OR)
  {
    var padded := " " + s + " ";
    assert 'o' !in padded;
    forall p ensures !Within(padded, OR, p) {
      if 0 <= p <= |padded| - |OR| {
        assert padded[p..p + |OR|][1] == padded[p + 1] && OR[1] == 'o';
      }
    }
  }

  ghost predicate MoreRecords(a: ResourceMap, b: ResourceMap) {
    forall id | id in a :: id in b && forall r | r in a[id] :: r in b[id]
  }

  lemma MoreLists(py: Python, text: string, a: seq<seq<Record>>, b: seq<seq<Record>>)
    requires |a| == |b| && forall i, r | 0 <= i < |a| && r in a[i] :: r in b[i]
    ensures AnyPack(py, text, a) ==> AnyPack(py, text, b)
  {
    if AnyPack(py, text, a) {
      var pack :| IsPack(pack, a) && py.call(text, pack) == Value(true);
      assert IsPack(pack, b);
    }
  }

  /** Adding records never makes a satisfied line fail, whether it is cut at
      its operators or, being parenthesised, evaluated in one piece. */
  lemma MoreRecordsKeepTruth(py: Python, e: Expression, a: ResourceMap, b: ResourceMap)
    requires MoreRecords(a, b)
    requires EvaluationOf(py, e, ListsFor(e, Aliases(py, e.text), a), a) == Truth(true)
    ensures EvaluationOf(py, e, ListsFor(e, Aliases(py, e.text), b), b) == Truth(true)
  {
    if IsCut(e.text) {
      var groups := Groups(e.text);
      var i :| 0 <= i < |groups| && GroupHolds(py, e, groups[i], a);
      forall leaf | leaf in groups[i] ensures LeafHolds(py, e, leaf, b) {
        var names := Dedup(py.names(leaf));
        MoreLists(py, leaf, ListsFor(e, names, a), ListsFor(e, names, b));
      }
      assert GroupHolds(py, e, groups[i], b);
      forall text | text in InnerFragments(e.text) ensures IsAvailable(py, e, text, b) {
        assert IsAvailable(py, e, text, a);
      }
    } else {
      MoreLists(py, e.text, ListsFor(e, Aliases(py, e.text), a), ListsFor(e, Aliases(py, e.text), b));
    }
  }

  /** Reordering or repeating records changes nothing. */
  lemma SameRecordsSameAnswer(py: Python, e: Expression, a: ResourceMap, b: ResourceMap)
    requires MoreRecords(a, b) && MoreRecords(b, a)
    ensures EvaluationOf(py, e, ListsFor(e, Aliases(py, e.text), a), a)
            == EvaluationOf(py, e, ListsFor(e, Aliases(py, e.text), b), b)
  {
    var x := EvaluationOf(py, e, ListsFor(e, Aliases(py, e.text), a), a);
    var y := EvaluationOf(py, e, ListsFor(e, Aliases(py, e.text), b), b);
    if x == Truth(true) { MoreRecordsKeepTruth(py, e, a, b); }
    if y == Truth(true) { MoreRecordsKeepTruth(py, e, b, a); }
    assert forall text :: IsAvailable(py, e, text, a) == IsAvailable(py, e, text, b);
  }

  // ----- Programs -----

  /** How `evaluate_or_raise` ends: it returns True, raises one of its two
      errors, or lets some other exception through. */
  datatype Verdict =
    | Satisfied
    | CannotEvaluate(expression: Expression, id: string)
    | Unsatisfied(expression: Expression)
    | Escaped

  function AllIds(py: Python, program: seq<Expression>): set<string> {
    set e, id | e in program && id in ResourceIds(py, e) :: id
  }

  lemma AllIdsGrow(py: Python, program: seq<Expression>, i: nat)
    requires i < |program|
    ensures AllIds(py, program[..i + 1]) == AllIds(py, program[..i]) + set id | id in ResourceIds(py, program[i])
  {
    var e := program[i];
    assert program[..i + 1] == program[..i] + [e];
    forall id | id in ResourceIds(py, e) ensures id in AllIds(py, program[..i + 1]) {
      assert e in program[..i + 1];
    }
  }

  /** The property `required_resources`. */
  method RequiredResources(py: Python, program: seq<Expression>) returns (ids: set<string>)
    ensures ids == AllIds(py, program)
  {
    ids := {};
    for i := 0 to |program|
      invariant ids == AllIds(py, program[..i])
    {
      var list := ResolveAliases(py, program[i]);
      var j := 0;
      while j < |list|
        invariant j <= |list|
        invariant ids == AllIds(py, program[..i]) + set id | id in list[..j]
      {
        assert list[..j + 1] == list[..j] + [list[j]];
        ids := ids + {list[j]};
        j := j + 1;
      }
      assert list[..|list|] == list;
      AllIdsGrow(py, program, i);
    }
    assert program[..|program|] == program;
  }

  function FirstMissingId(ids: seq<string>, resources: ResourceMap): Option<string> {
    if ids == [] then None else if ids[0] !in resources then Some(ids[0]) else FirstMissingId(ids[1..], resources)
  }

  function FirstMissing(py: Python, program: seq<Expression>, resources: ResourceMap): Option<(Expression, string)> {
    if program == [] then None
    else match FirstMissingId(ResourceIds(py, program[0]), resources)
      case Some(id) => Some((program[0], id))
      case None => FirstMissing(py, program[1..], resources)
  }

  ghost function OwnEvaluation(py: Python, e: Expression, resources: ResourceMap): Evaluation {
    EvaluationOf(py, e, ListsFor(e, Aliases(py, e.text), resources), resources)
  }

  /** What every line evaluates to on these records. */
  ghost function Evaluations(py: Python, resources: ResourceMap): Expression -> Evaluation {
    e => OwnEvaluation(py, e, resources)
  }

  ghost function RunLines(own: Expression -> Evaluation, program: seq<Expression>): Verdict {
    if program == [] then Satisfied
    else match own(program[0])
      case Truth(true) => RunLines(own, program[1..])
      case Truth(false) => Unsatisfied(program[0])
      case Escapes => Escaped
  }

  ghost function VerdictOf(py: Python, program: seq<Expression>, resources: ResourceMap): Verdict {
    match FirstMissing(py, program, resources)
    case Some(miss) => CannotEvaluate(miss.0, miss.1)
    case None => RunLines(Evaluations(py, resources), program)
  }

  method EvaluateOrRaise(py: Python, program: seq<Expression>, resources: ResourceMap) returns (r: Verdict)
    ensures r == VerdictOf(py, program, resources)
  {
    for i := 0 to |program|
      invariant FirstMissing(py, program, resources) == FirstMissing(py, program[i..], resources)
    {
      DropMore(program, i);
      var missing := FindMissing(py, program[i], resources);
      if missing.Some? {
        return CannotEvaluate(program[i], missing.value);
      }
    }
    r := EvaluateLines(py, program, resources);
  }

  /** The inner of its first two loops. */
  method FindMissing(py: Python, e: Expression, resources: ResourceMap) returns (missing: Option<string>)
    ensures missing == FirstMissingId(ResourceIds(py, e), resources)
  {
    var ids := ResolveAliases(py, e);
    for j := 0 to |ids|
      invariant FirstMissingId(ids, resources) == FirstMissingId(ids[j..], resources)
    {
      DropMore(ids, j);
      if ids[j] !in resources {
        return Some(ids[j]);
      }
    }
    return None;
  }

  /** Its last loop. */
  method EvaluateLines(py: Python, program: seq<Expression>, resources: ResourceMap) returns (r: Verdict)
    ensures r == RunLines(Evaluations(py, resources), program)
  {
    ghost var own := Evaluations(py, resources);
    for i := 0 to |program|
      invariant RunLines(own, program) == RunLines(own, program[i..])
    {
      DropMore(program, i);
      var e := program[i];
      var result := Evaluate(py, e, ListsFor(e, Aliases(py, e.text), resources), resources);
      if result == Escapes {
        return Escaped;
      }
      if !result.holds {
        return Unsatisfied(e);
      }
    }
    return Satisfied;
  }

  /** Constructing a line that names no resource, or is refused, raises
      ResourceProgramError. */
  predicate Constructible(py: Python, program: seq<Expression>) {
    forall e | e in program :: py.names(e.text) != []
  }

  /** Every line names a resource and covers its fragments. */
  ghost predicate NamesResources(py: Python, program: seq<Expression>) {
    Constructible(py, program) && forall e | e in program :: Covers(py, e)
  }

  lemma {:induction false} FirstMissingIdNone(ids: seq<string>, resources: ResourceMap)
    ensures var m := FirstMissingId(ids, resources);
            match m case Some(id) => id in ids && id !in resources case None => forall id | id in ids :: id in resources
  {
    if ids != [] && ids[0] in resources { FirstMissingIdNone(ids[1..], resources); }
  }

  lemma {:induction false} FirstMissingMeaning(py: Python, program: seq<Expression>, resources: ResourceMap)
    ensures match FirstMissing(py, program, resources)
            case Some(m) => m.0 in program && m.1 in ResourceIds(py, m.0) && m.1 !in resources
            case None => forall e | e in program :: forall id | id in ResourceIds(py, e) :: id in resources
  {
    if program == [] {
    } else {
      FirstMissingIdNone(ResourceIds(py, program[0]), resources);
      FirstMissingMeaning(py, program[1..], resources);
    }
  }

  lemma {:induction false} RunLinesMeaning(own: Expression -> Evaluation, program: seq<Expression>)
    ensures RunLines(own, program) == Satisfied <==> forall e | e in program :: own(e) == Truth(true)
    ensures RunLines(own, program).Unsatisfied? ==> RunLines(own, program).expression in program
    ensures RunLines(own, program) == Escaped ==> exists e :: e in program && own(e) == Escapes
    ensures !RunLines(own, program).CannotEvaluate?
  {
    if program == [] {
    } else {
      RunLinesMeaning(own, program[1..]);
    }
  }

  /** The four ways a program ends, and exactly when. In particular, once the
      first loop has passed, no exception other than the program's own verdict
      is possible while the lines cover their fragments. */
  lemma VerdictMeaning(py: Python, program: seq<Expression>, resources: ResourceMap)
    requires Constructible(py, program)
    ensures var v := VerdictOf(py, program, resources);
            && (v.CannotEvaluate? <==> !(AllIds(py, program) <= resources.Keys))
            && (v.CannotEvaluate? ==>
                  v.expression in program && v.id in ResourceIds(py, v.expression) && v.id !in resources)
            && (v == Satisfied <==> AllIds(py, program) <= resources.Keys
                                    && forall e | e in program :: OwnEvaluation(py, e, resources) == Truth(true))
            && (v.Unsatisfied? ==> v.expression in program && ResourceIds(py, v.expression) != [])
            && (v == Escaped ==> exists e :: e in program && !Covers(py, e))
  {
    FirstMissingMeaning(py, program, resources);
    RunLinesMeaning(Evaluations(py, resources), program);
    var v := VerdictOf(py, program, resources);
    if v.CannotEvaluate? {
      assert v.id in AllIds(py, program);
    } else {
      assert AllIds(py, program) <= resources.Keys;
      forall e | e in program
        ensures ResourceIds(py, e) != [] && (Covers(py, e) ==> OwnEvaluation(py, e, resources).Truth?)
      {
        if Covers(py, e) {
          PreCheckSuffices(py, e, ListsFor(e, Aliases(py, e.text), resources), resources);
        }
        NameHasId(py, e, py.names(e.text)[0]);
      }
    }
  }

  /** The first line that does not evaluate to true is this one, and this is
      how it ends. */
  ghost predicate FirstUntrue(py: Python, program: seq<Expression>, resources: ResourceMap, i: nat, how: Evaluation) {
    && i < |program| && OwnEvaluation(py, program[i], resources) == how != Truth(true)
    && forall k | 0 <= k < i :: OwnEvaluation(py, program[k], resources) == Truth(true)
  }

  /** This is the first id without records of the first line that has one. */
  ghost predicate FirstUnrecorded(py: Python, program: seq<Expression>, resources: ResourceMap, i: nat, j: nat) {
    && i < |program| && j < |ResourceIds(py, program[i])| && ResourceIds(py, program[i])[j] !in resources
    && (forall k | 0 <= k < j :: ResourceIds(py, program[i])[k] in resources)
    && (forall k, id | 0 <= k < i && id in ResourceIds(py, program[k]) :: id in resources)
  }

  lemma {:induction false} RunLinesStops(own: Expression -> Evaluation, program: seq<Expression>) returns (i: nat)
    requires RunLines(own, program) != Satisfied
    ensures i < |program| && forall k | 0 <= k < i :: own(program[k]) == Truth(true)
    ensures match own(program[i])
            case Truth(holds) => !holds && RunLines(own, program) == Unsatisfied(program[i])
            case Escapes => RunLines(own, program) == Escaped
  {
    if own(program[0]) == Truth(true) {
      var rest := RunLinesStops(own, program[1..]);
      i := rest + 1;
    } else {
      i := 0;
    }
  }

  lemma {:induction false} FirstMissingIdAt(ids: seq<string>, resources: ResourceMap) returns (j: nat)
    requires FirstMissingId(ids, resources).Some?
    ensures j < |ids| && FirstMissingId(ids, resources) == Some(ids[j]) && ids[j] !in resources
    ensures forall k | 0 <= k < j :: ids[k] in resources
  {
    if ids[0] in resources {
      var rest := FirstMissingIdAt(ids[1..], resources);
      j := rest + 1;
    } else {
      j := 0;
    }
  }

  lemma {:induction false} FirstMissingAt(py: Python, program: seq<Expression>, resources: ResourceMap)
    returns (i: nat, j: nat)
    requires FirstMissing(py, program, resources).Some?
    ensures FirstUnrecorded(py, program, resources, i, j)
    ensures FirstMissing(py, program, resources).value == (program[i], ResourceIds(py, program[i])[j])
  {
    FirstMissingIdNone(ResourceIds(py, program[0]), resources);
    if FirstMissingId(ResourceIds(py, program[0]), resources).Some? {
      j := FirstMissingIdAt(ResourceIds(py, program[0]), resources);
      i := 0;
    } else {
      var rest;
      rest, j := FirstMissingAt(py, program[1..], resources);
      i := rest + 1;
      forall k, id | 0 <= k < i && id in ResourceIds(py, program[k]) ensures id in resources {
        if k > 0 { assert program[k] == program[1..][k - 1]; }
      }
    }
  }

  /** The blame falls on the first line at fault: the first with an id that has
      no records, named with its first such id, and else the first that does not
      evaluate to true. */
  lemma VerdictBlamesFirst(py: Python, program: seq<Expression>, resources: ResourceMap)
    ensures match VerdictOf(py, program, resources)
            case CannotEvaluate(e, id) =>
              exists i: nat, j: nat :: FirstUnrecorded(py, program, resources, i, j)
                                       && e == program[i] && id == ResourceIds(py, e)[j]
            case Unsatisfied(e) =>
              exists i: nat :: FirstUntrue(py, program, resources, i, Truth(false)) && e == program[i]
            case Escaped => exists i: nat :: FirstUntrue(py, program, resources, i, Escapes)
            case Satisfied => forall e | e in program :: OwnEvaluation(py, e, resources) == Truth(true)
  {
    var v := VerdictOf(py, program, resources);
    if FirstMissing(py, program, resources).Some? {
      var i, j := FirstMissingAt(py, program, resources);
    } else if v != Satisfied {
      var i := RunLinesStops(Evaluations(py, resources), program);
      assert FirstUntrue(py, program, resources, i, OwnEvaluation(py, program[i], resources));
    } else {
      RunLinesMeaning(Evaluations(py, resources), program);
      forall e | e in program ensures OwnEvaluation(py, e, resources) == Truth(true) {
        assert Evaluations(py, resources)(e) == Truth(true);
      }
    }
  }

  /** New records keep a satisfied program satisfied; the order and the
      repetition of records never matter. */
  lemma ProgramMonotone(py: Python, program: seq<Expression>, a: ResourceMap, b: ResourceMap)
    requires Constructible(py, program) && MoreRecords(a, b)
    requires VerdictOf(py, program, a) == Satisfied
    ensures VerdictOf(py, program, b) == Satisfied
  {
    VerdictMeaning(py, program, a);
    VerdictMeaning(py, program, b);
    forall e | e in program ensures OwnEvaluation(py, e, b) == Truth(true) {
      MoreRecordsKeepTruth(py, e, a, b);
    }
  }

  lemma ProgramIgnoresOrder(py: Python, program: seq<Expression>, a: ResourceMap, b: ResourceMap)
    requires MoreRecords(a, b) && MoreRecords(b, a)
    ensures VerdictOf(py, program, a) == VerdictOf(py, program, b)
  {
    SameFirstMissing(py, program, a, b);
    forall e | e in program ensures Evaluations(py, a)(e) == Evaluations(py, b)(e) {
      SameRecordsSameAnswer(py, e, a, b);
    }
    SameRunLines(Evaluations(py, a), Evaluations(py, b), program);
  }

  lemma {:induction false} SameRunLines(a: Expression -> Evaluation, b: Expression -> Evaluation,
          program: seq<Expression>)
    requires forall e | e in program :: a(e) == b(e)
    ensures RunLines(a, program) == RunLines(b, program)
  {
    if program == [] {
    } else {
      SameRunLines(a, b, program[1..]);
    }
  }

  lemma {:induction false} SameFirstMissing(py: Python, program: seq<Expression>, a: ResourceMap, b: ResourceMap)
    requires a.Keys == b.Keys
    ensures FirstMissing(py, program, a) == FirstMissing(py, program, b)
  {
    if program == [] {
    } else {
      SameFirstMissing(py, program[1..], a, b);
      SameMissing(ResourceIds(py, program[0]), a, b);
    }
  }

  lemma {:induction false} SameMissing(ids: seq<string>, a: ResourceMap, b: ResourceMap)
    requires a.Keys == b.Keys
    ensures FirstMissingId(ids, a) == FirstMissingId(ids, b)
  {
    if ids == [] {
    } else {
      SameMissing(ids[1..], a, b);
    }
  }
}
