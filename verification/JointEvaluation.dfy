/** What a requirement line would mean if one choice of records had to satisfy
    the whole line at once, compared with the fragment-wise meaning that
    `evaluate` computes. */
module JointEvaluation {
  import opened Base
  import opened Splitting
  import opened Resource

  /** One record for every alias. */
  type Binding = map<string, Record>

  ghost predicate Binds(py: Python, e: Expression, leaves: seq<string>, resources: ResourceMap, b: Binding) {
    forall leaf, n | leaf in leaves && n in py.names(leaf) :: n in b && b[n] in Lookup(resources, ResourceId(e, n))
  }

  function PackFrom(b: Binding, names: seq<string>): (pack: seq<Record>)
    requires forall n | n in names :: n in b
    ensures |pack| == |names| && forall i | 0 <= i < |names| :: pack[i] == b[names[i]]
  {
    seq(|names|, i requires 0 <= i < |names| => b[names[i]])
  }

  /** The leaf's value with its names bound; an unbound name raises. */
  function LeafUnder(py: Python, b: Binding, leaf: string): CallResult {
    if forall n | n in py.names(leaf) :: n in b then py.call(leaf, PackFrom(b, Dedup(py.names(leaf)))) else Raises
  }

  /** Python's `and` over one group: left to right, stopping at the first leaf
      that is false, giving up at the first that raises. */
  ghost function AndUnder(py: Python, b: Binding, group: seq<string>): CallResult
  {
    if group == [] then Value(true)
    else match LeafUnder(py, b, group[0])
      case Value(true) => AndUnder(py, b, group[1..])
      case other => other
  }

  /** Python's `or` over the groups. */
  ghost function OrUnder(py: Python, b: Binding, groups: seq<seq<string>>): CallResult
  {
    if groups == [] then Value(false)
    else match AndUnder(py, b, groups[0])
      case Value(false) => OrUnder(py, b, groups[1..])
      case other => other
  }

  /** This one choice of records makes the whole line true. */
  ghost predicate JointBy(py: Python, e: Expression, groups: seq<seq<string>>, resources: ResourceMap, b: Binding) {
    && (forall i | 0 <= i < |groups| :: Binds(py, e, groups[i], resources, b))
    && OrUnder(py, b, groups) == Value(true)
  }

  ghost predicate JointHolds(py: Python, e: Expression, groups: seq<seq<string>>, resources: ResourceMap) {
    exists b: Binding :: JointBy(py, e, groups, resources, b)
  }

  lemma {:induction false} AndUnderTrue(py: Python, b: Binding, group: seq<string>)
    ensures AndUnder(py, b, group) == Value(true)
            <==> forall leaf | leaf in group :: LeafUnder(py, b, leaf) == Value(true)
    ensures AndUnder(py, b, group) == Raises ==> exists leaf :: leaf in group && LeafUnder(py, b, leaf) == Raises
  {
    if group == [] {
    } else {
      AndUnderTrue(py, b, group[1..]);
    }
  }

  lemma {:induction false} OrUnderTrue(py: Python, b: Binding, groups: seq<seq<string>>)
    ensures OrUnder(py, b, groups) == Value(true)
            ==> exists i | 0 <= i < |groups| :: AndUnder(py, b, groups[i]) == Value(true)
    ensures (forall i | 0 <= i < |groups| :: AndUnder(py, b, groups[i]) != Raises)
            && (exists i | 0 <= i < |groups| :: AndUnder(py, b, groups[i]) == Value(true))
            ==> OrUnder(py, b, groups) == Value(true)
  {
    if groups == [] {
    } else {
      OrUnderTrue(py, b, groups[1..]);
      assert forall i | 0 <= i < |groups[1..]| :: groups[1..][i] == groups[i + 1];
    }
  }

  lemma LeafFromBinding(py: Python, e: Expression, leaf: string, resources: ResourceMap, b: Binding)
    requires Binds(py, e, [leaf], resources, b)
    requires LeafUnder(py, b, leaf) == Value(true)
    ensures LeafHolds(py, e, leaf, resources)
  {
    var names := Dedup(py.names(leaf));
    var pack := PackFrom(b, names);
    forall i | 0 <= i < |names| ensures pack[i] in ListsFor(e, names, resources)[i] {
      assert leaf in [leaf] && names[i] in py.names(leaf);
    }
    assert IsPack(pack, ListsFor(e, names, resources));
  }

  /** One choice that satisfies the whole line also satisfies it fragment by
      fragment: `evaluate` never rejects what joint evaluation accepts. */
  lemma JointImpliesSplit(py: Python, e: Expression, groups: seq<seq<string>>, resources: ResourceMap)
    requires JointHolds(py, e, groups, resources)
    ensures SplitHolds(py, e, groups, resources)
  {
    var b: Binding :| JointBy(py, e, groups, resources, b);
    OrUnderTrue(py, b, groups);
    var i :| 0 <= i < |groups| && AndUnder(py, b, groups[i]) == Value(true);
    AndUnderTrue(py, b, groups[i]);
    forall leaf | leaf in groups[i] ensures LeafHolds(py, e, leaf, resources) {
      LeafFromBinding(py, e, leaf, resources, b);
    }
    assert GroupHolds(py, e, groups[i], resources);
  }

  type Names = string -> seq<string>

  /** Two different leaves never name the same resource. */
  ghost predicate Separate(names: Names, group: seq<string>) {
    forall x, y, n | x in group && y in group && x != y && n in names(x) :: n !in names(y)
  }

  /** No list is empty and no leaf raises. */
  ghost predicate Tame(py: Python, e: Expression, leaves: seq<string>, resources: ResourceMap) {
    forall leaf | leaf in leaves ::
      && (forall n | n in py.names(leaf) :: Lookup(resources, ResourceId(e, n)) != [])
      && (forall pack | |pack| == |Dedup(py.names(leaf))| :: py.call(leaf, pack) != Raises)
  }

  ghost function Witness(py: Python, e: Expression, leaf: string, resources: ResourceMap): (pack: seq<Record>)
    requires LeafHolds(py, e, leaf, resources)
    ensures IsPack(pack, ListsFor(e, Dedup(py.names(leaf)), resources)) && py.call(leaf, pack) == Value(true)
  {
    var pack :| IsPack(pack, ListsFor(e, Dedup(py.names(leaf)), resources)) && py.call(leaf, pack) == Value(true);
    pack
  }

  ghost function AllNames(names: Names, leaves: seq<string>): set<string> {
    set leaf, n | leaf in leaves && n in names(leaf) :: n
  }

  /** The record that a satisfied group's own witnesses give to a name, and any
      record for a name the group does not use. */
  ghost function Choice(py: Python, e: Expression, group: seq<string>, resources: ResourceMap, n: string): (r: Record)
    requires GroupHolds(py, e, group, resources)
    requires Lookup(resources, ResourceId(e, n)) != []
    ensures r in Lookup(resources, ResourceId(e, n))
    ensures (exists leaf :: leaf in group && n in py.names(leaf)) ==>
              exists leaf :: leaf in group && n in py.names(leaf)
                             && r == Witness(py, e, leaf, resources)[IndexOf(Dedup(py.names(leaf)), n)]
  {
    if exists leaf :: leaf in group && n in py.names(leaf) then
      var leaf :| leaf in group && n in py.names(leaf);
      var names := Dedup(py.names(leaf));
      assert Witness(py, e, leaf, resources)[IndexOf(names, n)] in ListsFor(e, names, resources)[IndexOf(names, n)];
      Witness(py, e, leaf, resources)[IndexOf(names, n)]
    else Lookup(resources, ResourceId(e, n))[0]
  }

  /** Under the binding made of a separate group's witnesses each of its leaves
      sees exactly its own witness. */
  lemma WitnessesCombine(py: Python, e: Expression, group: seq<string>, resources: ResourceMap, b: Binding,
          leaf: string)
    requires GroupHolds(py, e, group, resources) && Separate(py.names, group) && leaf in group
    requires forall n | n in b ::
               Lookup(resources, ResourceId(e, n)) != [] && b[n] == Choice(py, e, group, resources, n)
    requires forall n | n in py.names(leaf) :: n in b
    ensures LeafUnder(py, b, leaf) == Value(true)
  {
    var names := Dedup(py.names(leaf));
    var pack := Witness(py, e, leaf, resources);
    forall i | 0 <= i < |names| ensures b[names[i]] == pack[i] {
      var n := names[i];
      assert n in py.names(leaf);
      var other :| other in group && n in py.names(other)
                   && b[n] == Witness(py, e, other, resources)[IndexOf(Dedup(py.names(other)), n)];
      assert other == leaf;
      assert IndexOf(names, n) == i;
    }
    assert PackFrom(b, names) == pack;
  }

  ghost function Combined(py: Python, e: Expression, groups: seq<seq<string>>, k: nat, resources: ResourceMap)
    : (b: Binding)
    requires k < |groups| && GroupHolds(py, e, groups[k], resources) && Tame(py, e, Flatten(groups), resources)
    ensures forall n | n in b ::
              Lookup(resources, ResourceId(e, n)) != [] && b[n] == Choice(py, e, groups[k], resources, n)
  {
    map n | n in AllNames(py.names, Flatten(groups)) :: Choice(py, e, groups[k], resources, n)
  }

  lemma CombinedBinds(py: Python, e: Expression, groups: seq<seq<string>>, k: nat, resources: ResourceMap, i: nat)
    requires k < |groups| && GroupHolds(py, e, groups[k], resources) && Tame(py, e, Flatten(groups), resources)
    requires i < |groups|
    ensures var b := Combined(py, e, groups, k, resources);
            Binds(py, e, groups[i], resources, b) && AndUnder(py, b, groups[i]) != Raises
  {
    var b := Combined(py, e, groups, k, resources);
    forall leaf | leaf in groups[i] ensures leaf in Flatten(groups) { InFlatten(groups, leaf); }
    forall leaf, n | leaf in groups[i] && n in py.names(leaf)
      ensures n in b && b[n] in Lookup(resources, ResourceId(e, n))
    {
      assert leaf in Flatten(groups);
      assert n in AllNames(py.names, Flatten(groups));
    }
    AndUnderTrue(py, b, groups[i]);
  }

  lemma CombinedSatisfies(py: Python, e: Expression, groups: seq<seq<string>>, k: nat, resources: ResourceMap)
    requires k < |groups| && GroupHolds(py, e, groups[k], resources) && Tame(py, e, Flatten(groups), resources)
    requires Separate(py.names, groups[k])
    ensures var b := Combined(py, e, groups, k, resources);
            AndUnder(py, b, groups[k]) == Value(true)
  {
    var b := Combined(py, e, groups, k, resources);
    CombinedBinds(py, e, groups, k, resources, k);
    forall leaf | leaf in groups[k] ensures LeafUnder(py, b, leaf) == Value(true) {
      WitnessesCombine(py, e, groups[k], resources, b, leaf);
    }
    AndUnderTrue(py, b, groups[k]);
  }

  lemma CombinedIsJoint(py: Python, e: Expression, groups: seq<seq<string>>, k: nat, resources: ResourceMap)
    requires k < |groups| && GroupHolds(py, e, groups[k], resources) && Tame(py, e, Flatten(groups), resources)
    requires Separate(py.names, groups[k])
    ensures JointBy(py, e, groups, resources, Combined(py, e, groups, k, resources))
  {
    var b := Combined(py, e, groups, k, resources);
    forall i | 0 <= i < |groups| ensures Binds(py, e, groups[i], resources, b) && AndUnder(py, b, groups[i]) != Raises {
      CombinedBinds(py, e, groups, k, resources, i);
    }
    CombinedSatisfies(py, e, groups, k, resources);
    OrUnderTrue(py, b, groups);
  }

  // ----- When the two readings agree -----

  /** Every leaf of the one group is a leaf of the other. */
  predicate Inside(a: seq<string>, b: seq<string>) {
    forall leaf | leaf in a :: leaf in b
  }

  /** No group of the line has only some of this group's leaves. */
  predicate Minimal(groups: seq<seq<string>>, i: nat)
    requires i < |groups|
  {
    forall j | 0 <= j < |groups| && Inside(groups[j], groups[i]) :: Inside(groups[i], groups[j])
  }

  ghost predicate MinimalSeparate(names: Names, groups: seq<seq<string>>) {
    forall i | 0 <= i < |groups| && Minimal(groups, i) :: Separate(names, groups[i])
  }

  function LeafSet(group: seq<string>): set<string> {
    set leaf | leaf in group
  }

  lemma SmallerInside(a: seq<string>, b: seq<string>)
    requires Inside(a, b) && !Inside(b, a)
    ensures |LeafSet(a)| < |LeafSet(b)|
  {
    assert LeafSet(a) <= LeafSet(b);
    var leaf :| leaf in b && leaf !in a;
    SubsetSize(LeafSet(a), LeafSet(b) - {leaf});
  }

  /** Inside every group lies a minimal one. */
  lemma {:induction false} MinimalInside(groups: seq<seq<string>>, k: nat) returns (i: nat)
    requires k < |groups|
    ensures i < |groups| && Minimal(groups, i) && Inside(groups[i], groups[k])
    decreases |LeafSet(groups[k])|
  {
    if Minimal(groups, k) {
      i := k;
    } else {
      var j :| 0 <= j < |groups| && Inside(groups[j], groups[k]) && !Inside(groups[k], groups[j]);
      SmallerInside(groups[j], groups[k]);
      i := MinimalInside(groups, j);
    }
  }

  /** When different leaves of each minimal and-group name different resources,
      the two readings agree. Pure " or " lines are the case of groups of one
      leaf. */
  lemma SeparateLinesAgree(py: Python, e: Expression, groups: seq<seq<string>>, resources: ResourceMap)
    requires MinimalSeparate(py.names, groups) && Tame(py, e, Flatten(groups), resources)
    ensures SplitHolds(py, e, groups, resources) <==> JointHolds(py, e, groups, resources)
  {
    if JointHolds(py, e, groups, resources) { JointImpliesSplit(py, e, groups, resources); }
    if k :| 0 <= k < |groups| && GroupHolds(py, e, groups[k], resources) {
      var i := MinimalInside(groups, k);
      assert GroupHolds(py, e, groups[i], resources);
      CombinedIsJoint(py, e, groups, i, resources);
    }
  }

  // ----- When they part -----

  const FIRST: Record := map[]
  const SECOND: Record := map["record" := "second"]

  /** Data on which two leaves of a group that share a name part ways: one
      accepts only the first record under that name, the other only the second.
      The other leaves of the group hold, all leaves outside it fail. */
  function PartingCall(names: Names, group: seq<string>, x: string, y: string, n: string)
    : (string, seq<Record>) -> CallResult
    requires n in names(x) && n in names(y)
  {
    var i, j := IndexOf(Dedup(names(x)), n), IndexOf(Dedup(names(y)), n);
    (text: string, pack: seq<Record>) =>
      if text !in group then Value(false)
      else if text == x && i < |pack| then Value(pack[i] == FIRST)
      else if text == y && j < |pack| then Value(pack[j] == SECOND)
      else Value(true)
  }

  function Parting(names: Names, group: seq<string>, x: string, y: string, n: string): Python
    requires n in names(x) && n in names(y)
  {
    Python(names, PartingCall(names, group, x, y, n))
  }

  ghost function PartingRecords(names: Names, e: Expression, leaves: seq<string>): ResourceMap {
    var ids := set n | n in AllNames(names, leaves) :: ResourceId(e, n);
    map id | id in ids :: [FIRST, SECOND]
  }

  lemma PartingLists(names: Names, e: Expression, leaves: seq<string>, leaf: string, m: string)
    requires leaf in leaves && m in names(leaf)
    ensures Lookup(PartingRecords(names, e, leaves), ResourceId(e, m)) == [FIRST, SECOND]
  {
    assert m in AllNames(names, leaves);
  }

  /** The pack that a leaf accepts: the first record everywhere for the one
      leaf, the second everywhere for all others. */
  function PartingPack(own: seq<string>, first: bool): (pack: seq<Record>)
    ensures |pack| == |own| && forall i | 0 <= i < |own| :: pack[i] == if first then FIRST else SECOND
  {
    seq(|own|, i => if first then FIRST else SECOND)
  }

  lemma PartingPackFits(names: Names, e: Expression, leaves: seq<string>, leaf: string, first: bool)
    requires leaf in leaves
    ensures var own := Dedup(names(leaf));
            IsPack(PartingPack(own, first), ListsFor(e, own, PartingRecords(names, e, leaves)))
  {
    var own := Dedup(names(leaf));
    var lists := ListsFor(e, own, PartingRecords(names, e, leaves));
    forall i | 0 <= i < |own| ensures PartingPack(own, first)[i] in lists[i] {
      assert own[i] in own;
      PartingLists(names, e, leaves, leaf, own[i]);
    }
  }

  lemma PartingAccepts(names: Names, group: seq<string>, x: string, y: string, n: string, leaf: string)
    requires n in names(x) && n in names(y) && x != y && leaf in group
    ensures PartingCall(names, group, x, y, n)(leaf, PartingPack(Dedup(names(leaf)), leaf == x)) == Value(true)
  {
  }

  lemma PartingLeafHolds(names: Names, e: Expression, leaves: seq<string>, group: seq<string>,
          x: string, y: string, n: string, leaf: string)
    requires n in names(x) && n in names(y) && x != y && leaf in group && leaf in leaves
    ensures LeafHolds(Parting(names, group, x, y, n), e, leaf, PartingRecords(names, e, leaves))
  {
    PartingPackFits(names, e, leaves, leaf, leaf == x);
    PartingAccepts(names, group, x, y, n, leaf);
  }

  /** Both leaves cannot hold under one binding. */
  lemma PartingSees(names: Names, group: seq<string>, x: string, y: string, n: string, b: Binding)
    requires n in names(x) && n in names(y) && x != y && x in group && y in group
    ensures var py := Parting(names, group, x, y, n);
            && (LeafUnder(py, b, x) == Value(true) ==> n in b && b[n] == FIRST)
            && (LeafUnder(py, b, y) == Value(true) ==> n in b && b[n] == SECOND)
  {
    var ox, oy := Dedup(names(x)), Dedup(names(y));
    assert (forall m | m in names(x) :: m in b) ==> PackFrom(b, ox)[IndexOf(ox, n)] == b[n];
    assert (forall m | m in names(y) :: m in b) ==> PackFrom(b, oy)[IndexOf(oy, n)] == b[n];
  }

  lemma PartingTame(names: Names, e: Expression, leaves: seq<string>, group: seq<string>, x: string, y: string,
          n: string)
    requires n in names(x) && n in names(y)
    ensures Tame(Parting(names, group, x, y, n), e, leaves, PartingRecords(names, e, leaves))
  {
    var resources := PartingRecords(names, e, leaves);
    forall leaf, m | leaf in leaves && m in names(leaf) ensures Lookup(resources, ResourceId(e, m)) != [] {
      PartingLists(names, e, leaves, leaf, m);
    }
  }

  /** A group that holds under one binding has only leaves of the parting group. */
  lemma HoldsInsideOnly(names: Names, group: seq<string>, x: string, y: string, n: string, b: Binding,
          other: seq<string>)
    requires n in names(x) && n in names(y)
    requires AndUnder(Parting(names, group, x, y, n), b, other) == Value(true)
    ensures Inside(other, group)
  {
    AndUnderTrue(Parting(names, group, x, y, n), b, other);
    forall leaf | leaf in other ensures leaf in group {
      assert LeafUnder(Parting(names, group, x, y, n), b, leaf) == Value(true);
    }
  }

  lemma PartingNotJoint(names: Names, e: Expression, groups: seq<seq<string>>, i: nat, x: string, y: string, n: string,
          resources: ResourceMap, b: Binding)
    requires i < |groups| && Minimal(groups, i)
    requires x in groups[i] && y in groups[i] && x != y && n in names(x) && n in names(y)
    ensures !JointBy(Parting(names, groups[i], x, y, n), e, groups, resources, b)
  {
    var py := Parting(names, groups[i], x, y, n);
    assert "record" in SECOND && "record" !in FIRST;
    if JointBy(py, e, groups, resources, b) {
      OrUnderTrue(py, b, groups);
      var j :| 0 <= j < |groups| && AndUnder(py, b, groups[j]) == Value(true);
      HoldsInsideOnly(names, groups[i], x, y, n, b, groups[j]);
      AndUnderTrue(py, b, groups[j]);
      PartingSees(names, groups[i], x, y, n, b);
      assert false;
    }
  }

  /** Two different leaves of a minimal and-group that share a name: on these
      records the fragments of the group all hold and no single choice satisfies
      the line. */
  lemma SharedNamePartsReadings(names: Names, e: Expression, groups: seq<seq<string>>, i: nat,
          x: string, y: string, n: string)
    requires i < |groups| && Minimal(groups, i)
    requires x in groups[i] && y in groups[i] && x != y && n in names(x) && n in names(y)
    ensures var py, resources := Parting(names, groups[i], x, y, n), PartingRecords(names, e, Flatten(groups));
            && Tame(py, e, Flatten(groups), resources)
            && SplitHolds(py, e, groups, resources) && !JointHolds(py, e, groups, resources)
  {
    var py, resources := Parting(names, groups[i], x, y, n), PartingRecords(names, e, Flatten(groups));
    PartingTame(names, e, Flatten(groups), groups[i], x, y, n);
    forall leaf | leaf in groups[i] ensures LeafHolds(py, e, leaf, resources) {
      InFlatten(groups, leaf);
      PartingLeafHolds(names, e, Flatten(groups), groups[i], x, y, n, leaf);
    }
    assert GroupHolds(py, e, groups[i], resources);
    forall b: Binding ensures !JointBy(py, e, groups, resources, b) {
      PartingNotJoint(names, e, groups, i, x, y, n, resources, b);
    }
  }

  /** The readings agree on all data. */
  ghost predicate AlwaysAgree(names: Names, e: Expression, groups: seq<seq<string>>) {
    forall call, resources | Tame(Python(names, call), e, Flatten(groups), resources) ::
      SplitHolds(Python(names, call), e, groups, resources) <==> JointHolds(Python(names, call), e, groups, resources)
  }

  /** For any line, the two readings agree on all data exactly when no two
      different leaves of a minimal and-group name the same resource. */
  lemma AgreeExactlyWhenSeparate(names: Names, e: Expression, groups: seq<seq<string>>)
    ensures MinimalSeparate(names, groups) <==> AlwaysAgree(names, e, groups)
  {
    if MinimalSeparate(names, groups) {
      forall call, resources | Tame(Python(names, call), e, Flatten(groups), resources)
        ensures SplitHolds(Python(names, call), e, groups, resources)
                <==> JointHolds(Python(names, call), e, groups, resources)
      {
        SeparateLinesAgree(Python(names, call), e, groups, resources);
      }
    } else {
      var i :| 0 <= i < |groups| && Minimal(groups, i) && !Separate(names, groups[i]);
      var x, y, n :| x in groups[i] && y in groups[i] && x != y && n in names(x) && n in names(y);
      SharedNamePartsReadings(names, e, groups, i, x, y, n);
    }
  }

  /** For one and-group: exactly when no two different leaves name the same
      resource. */
  lemma AndAgreesExactlyWhenSeparate(names: Names, e: Expression, group: seq<string>)
    ensures Separate(names, group) <==> AlwaysAgree(names, e, [group])
  {
    AgreeExactlyWhenSeparate(names, e, [group]);
    assert Minimal([group], 0) && [group][0] == group;
  }
}
