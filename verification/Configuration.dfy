/** The configuration store (plainbox/impl/config.py): typed variables in
    sections, each with the origin of its value. */
module Configuration {
  import opened Base

  datatype Kind = StrKind | IntKind | BoolKind | ListKind

  datatype Value = Str(text: string) | Int(number: int) | Bool(truth: bool) | List(items: seq<string>)

  datatype VarSpec = VarSpec(kind: Kind, default: Value)

  datatype SectionSpec =
    | Static(vars: map<string, VarSpec>)
    | Parametric(vars: map<string, VarSpec>)
    | Dynamic

  type Spec = seq<(string, SectionSpec)>

  datatype Problem =
    | UnexpectedVariable(name: string, section: string, origin: string)
    | UnexpectedSection(section: string, origin: string)
    | BadValue(name: string, section: string, raw: string, kind: Kind, origin: string)
    | FileNotFound(path: string)
    | DefaultIgnored(name: string)

  /** A variable: its section and its name. */
  type Variable = (string, string)

  /** The contents of a Configuration object. The two dictionaries of
      dictionaries are kept flat, keyed by section and name, beside the names of
      the sections they have. */
  datatype Settings = Settings(
    sections: set<string>,
    values: map<Variable, Value>,
    origins: map<Variable, string>,
    sources: seq<string>,
    problems: seq<Problem>)

  /** How a `set_value` call ends. An uncaught exception is `Raises`. */
  datatype SetOutcome = Stored | Rejected | Raises

  /** The conversions of the Python runtime: `shlex.split` and `int`, each of
      which may raise ValueError. */
  datatype Converters = Converters(split: string -> Option<seq<string>>, toInt: string -> Option<int>)

  // ----- The specification of sections and variables -----

  function KindOf(v: Value): Kind {
    match v case Str(_) => StrKind case Int(_) => IntKind case Bool(_) => BoolKind case List(_) => ListKind
  }

  predicate IsDynamic(section: string) {
    section == "environment" || section == "manifest"
  }

  function SpecOf(spec: Spec, section: string): Option<SectionSpec> {
    if spec == [] then None else if spec[0].0 == section then Some(spec[0].1) else SpecOf(spec[1..], section)
  }

  /** Section names are distinct and have no colon, the dynamic sections are
      declared as such, defaults have the kind they declare, and there is a
      variable naming the next configuration file. */
  ghost predicate GoodSpec(spec: Spec) {
    && DistinctNames(spec)
    && (forall i | 0 <= i < |spec| :: ':' !in spec[i].0 && (spec[i].1.Dynamic? <==> IsDynamic(spec[i].0)))
    && (forall i | 0 <= i < |spec| && !spec[i].1.Dynamic? ::
          forall n | n in spec[i].1.vars :: KindOf(spec[i].1.vars[n].default) == spec[i].1.vars[n].kind)
    && SpecOf(spec, "environment").Some? && SpecOf(spec, "manifest").Some?
    && NamesNextFile(spec)
  }

  ghost predicate NamesNextFile(spec: Spec) {
    var config := SpecOf(spec, "config");
    config.Some? && config.value.Static? && "config_filename" in config.value.vars
    && config.value.vars["config_filename"].kind == StrKind
  }

  lemma {:induction false} SpecOfMember(spec: Spec, i: nat)
    requires i < |spec| && DistinctNames(spec)
    ensures SpecOf(spec, spec[i].0) == Some(spec[i].1)
  {
    if i == 0 {
    } else {
      assert DistinctNames(spec[1..]);
      SpecOfMember(spec[1..], i - 1);
    }
  }

  lemma {:induction false} SpecOfFound(spec: Spec, section: string)
    ensures match SpecOf(spec, section)
            case Some(x) => exists i | 0 <= i < |spec| :: spec[i] == (section, x)
            case None => forall i | 0 <= i < |spec| :: spec[i].0 != section
  {
    if spec != [] && spec[0].0 != section {
      SpecOfFound(spec[1..], section);
      if SpecOf(spec, section).Some? {
        var i :| 0 <= i < |spec[1..]| && spec[1..][i] == (section, SpecOf(spec, section).value);
        assert spec[i + 1] == spec[1..][i];
      }
    }
  }

  /** The part of a section name before its colon. */
  function Prefix(section: string): string
    requires ':' in section
  {
    section[..IndexOf(section, ':')]
  }

  function Colons(section: string): nat {
    if section == "" then 0 else (if section[0] == ':' then 1 else 0) + Colons(section[1..])
  }

  /** The variables a section may hold: those of its own specification, or, for
      a section with a parameter, those of the parametric section it extends. */
  function VarsOf(spec: Spec, section: string): Option<map<string, VarSpec>> {
    if ':' in section then
      match SpecOf(spec, Prefix(section))
      case Some(Parametric(vars)) => Some(vars)
      case _ => None
    else
      match SpecOf(spec, section)
      case Some(Static(vars)) => Some(vars)
      case Some(Parametric(vars)) => Some(vars)
      case _ => None
  }

  /** A section every configuration has from the start. */
  predicate IsBase(spec: Spec, section: string) {
    SpecOf(spec, section).Some? && !SpecOf(spec, section).value.Parametric?
  }

  // ----- Conversions -----

  function LowerChar(c: char): char {
    if 'A' <= c <= 'Z' then (c as int + 32) as char else c
  }

  function Lower(s: string): string {
    seq(|s|, i requires 0 <= i < |s| => LowerChar(s[i]))
  }

  function CommasToSpaces(s: string): string {
    seq(|s|, i requires 0 <= i < |s| => if s[i] == ',' then ' ' else s[i])
  }

  function Convert(rt: Converters, kind: Kind, raw: string): (v: Option<Value>)
    ensures v.Some? ==> KindOf(v.value) == kind
  {
    match kind
    case ListKind => (match rt.split(CommasToSpaces(raw)) case Some(items) => Some(List(items)) case None => None)
    case BoolKind => Some(Bool(Lower(raw) == "yes" || Lower(raw) == "true"))
    case IntKind => (match rt.toInt(raw) case Some(n) => Some(Int(n)) case None => None)
    case StrKind => Some(Str(raw))
  }

  // ----- What holds of every configuration -----

  /** One stored variable: it is declared, has its declared kind, and is the
      default if nothing gave it an origin. Dynamic sections take any text. */
  ghost predicate GoodEntry(spec: Spec, v: Variable, value: Value, origin: string) {
    if IsDynamic(v.0) then origin != ""
    else
      var vars := VarsOf(spec, v.0);
      && vars.Some? && v.1 in vars.value && KindOf(value) == vars.value[v.1].kind
      && (origin == "" ==> ':' !in v.0 && value == vars.value[v.1].default)
  }

  /** Values and origins cover the same variables, of existing sections; the
      sections without a parameter are the base sections; every entry is good,
      and no declared variable of a base section is missing. */
  ghost predicate Good(spec: Spec, s: Settings) {
    && s.values.Keys == s.origins.Keys
    && (forall v | v in s.values :: v.0 in s.sections && GoodEntry(spec, v, s.values[v], s.origins[v]))
    && (forall sec :: sec in s.sections && ':' !in sec <==> IsBase(spec, sec))
    && (forall sec, n |
          IsBase(spec, sec) && !IsDynamic(sec) && VarsOf(spec, sec).Some? && n in VarsOf(spec, sec).value ::
          (sec, n) in s.values)
  }

  /** The value was set by something, not left at its default. */
  predicate Sets(s: Settings, v: Variable) {
    v in s.values && v in s.origins && s.origins[v] != ""
  }

  /** The variable has this value, from this origin. */
  predicate Holds(s: Settings, v: Variable, value: Value, origin: string) {
    v in s.values && v in s.origins && s.values[v] == value && s.origins[v] == origin
  }

  predicate SameAt(s: Settings, t: Settings, v: Variable) {
    && (v in s.values <==> v in t.values) && (v in s.origins <==> v in t.origins)
    && (v in s.values && v in s.origins ==> Holds(t, v, s.values[v], s.origins[v]))
  }

  // ----- set_value -----

  /** The variable gets the value and the origin, all others stay. */
  function Put(s: Settings, v: Variable, value: Value, origin: string): Settings {
    s.(sections := s.sections + {v.0}, values := s.values[v := value], origins := s.origins[v := origin])
  }

  function Noticed(s: Settings, problem: Problem): Settings {
    s.(problems := s.problems + [problem])
  }

  function SetValueOf(spec: Spec, rt: Converters, s: Settings, sec: string, name: string, raw: string, origin: string)
    : (Settings, SetOutcome)
  {
    if IsDynamic(sec) then
      if sec in s.sections then (Put(s, (sec, name), Str(raw), origin), Stored) else (s, Raises)
    else if Colons(sec) > 1 then (s, Raises)
    else match VarsOf(spec, sec)
      case None => (Noticed(s, UnexpectedSection(sec, origin)), Rejected)
      case Some(vars) =>
        if name !in vars then
          if ':' in sec then (Noticed(s, UnexpectedVariable(name, sec, origin)), Rejected) else (s, Raises)
        else match Convert(rt, vars[name].kind, raw)
          case None => (Noticed(s, BadValue(name, sec, raw, vars[name].kind, origin)), Rejected)
          case Some(v) =>
            if ':' in sec || sec in s.sections then (Put(s, (sec, name), v, origin), Stored) else (s, Raises)
  }

  /** Nothing but this one variable differs. */
  ghost predicate OnlyDiffersAt(before: Settings, after: Settings, v: Variable) {
    && after.sources == before.sources && after.problems == before.problems
    && after.values - {v} == before.values - {v} && after.origins - {v} == before.origins - {v}
  }

  /** How `set_value` may end: storing leaves the variable set, by this origin,
      and all others alone; refusing changes no value and adds one problem; an
      exception changes nothing at all. */
  ghost predicate EndsWell(spec: Spec, s: Settings, after: Settings, how: SetOutcome, v: Variable, origin: string) {
    && Good(spec, after) && s.sections <= after.sections && after.sources == s.sources
    && (how == Stored ==> Sets(after, v) && after.origins[v] == origin && OnlyDiffersAt(s, after, v))
    && (how == Rejected ==> after == s.(problems := after.problems)
                            && |after.problems| == |s.problems| + 1 && s.problems <= after.problems)
    && (how == Raises ==> after == s)
  }

  lemma SetValueKeepsGood(spec: Spec, rt: Converters, s: Settings, sec: string, name: string, raw: string,
          origin: string)
    requires GoodSpec(spec) && Good(spec, s) && origin != ""
    ensures var (after, how) := SetValueOf(spec, rt, s, sec, name, raw, origin);
            EndsWell(spec, s, after, how, (sec, name), origin)
  {
    var (after, how) := SetValueOf(spec, rt, s, sec, name, raw, origin);
    if how == Stored {
      var value := StoredShape(spec, rt, s, sec, name, raw, origin);
      PutKeepsGood(spec, s, (sec, name), value, origin);
    } else if how == Rejected {
      var problem := RejectedShape(spec, rt, s, sec, name, raw, origin);
      NoticedKeepsGood(spec, s, problem, (sec, name), origin);
    }
  }

  lemma RejectedShape(spec: Spec, rt: Converters, s: Settings, sec: string, name: string, raw: string, origin: string)
    returns (problem: Problem)
    requires SetValueOf(spec, rt, s, sec, name, raw, origin).1 == Rejected
    ensures SetValueOf(spec, rt, s, sec, name, raw, origin).0 == Noticed(s, problem)
  {
    problem := SetValueOf(spec, rt, s, sec, name, raw, origin).0.problems[|s.problems|];
  }

  lemma NoticedKeepsGood(spec: Spec, s: Settings, problem: Problem, v: Variable, origin: string)
    requires Good(spec, s)
    ensures EndsWell(spec, s, Noticed(s, problem), Rejected, v, origin)
  {
  }

  lemma StoredShape(spec: Spec, rt: Converters, s: Settings, sec: string, name: string, raw: string, origin: string)
    returns (value: Value)
    requires SetValueOf(spec, rt, s, sec, name, raw, origin).1 == Stored && origin != ""
    ensures SetValueOf(spec, rt, s, sec, name, raw, origin).0 == Put(s, (sec, name), value, origin)
    ensures GoodEntry(spec, (sec, name), value, origin) && (':' in sec || sec in s.sections)
  {
    value := SetValueOf(spec, rt, s, sec, name, raw, origin).0.values[(sec, name)];
  }

  lemma PutKeepsGood(spec: Spec, s: Settings, v: Variable, value: Value, origin: string)
    requires Good(spec, s) && origin != "" && GoodEntry(spec, v, value, origin) && (':' in v.0 || v.0 in s.sections)
    ensures EndsWell(spec, s, Put(s, v, value, origin), Stored, v, origin)
  {
    var r := Put(s, v, value, origin);
    assert r.values - {v} == s.values - {v};
    assert r.origins - {v} == s.origins - {v};
  }

  // ----- A new configuration -----

  function SpecVars(x: SectionSpec): map<string, VarSpec> {
    if x.Dynamic? then map[] else x.vars
  }

  /** The variables that one entry of the specification contributes, with a
      value for each. */
  function Contributed<T>(entry: (string, SectionSpec), what: VarSpec -> T): map<Variable, T> {
    if entry.1.Parametric? then map[]
    else
      var vars := SpecVars(entry.1);
      var keys := set n | n in vars :: (entry.0, n);
      map v | v in keys :: what(vars[v.1])
  }

  function BaseMap<T>(spec: Spec, what: VarSpec -> T): map<Variable, T> {
    if spec == [] then map[] else BaseMap(spec[..|spec| - 1], what) + Contributed(spec[|spec| - 1], what)
  }

  function BaseNames(spec: Spec): set<string> {
    if spec == [] then {}
    else BaseNames(spec[..|spec| - 1]) + if spec[|spec| - 1].1.Parametric? then {} else {spec[|spec| - 1].0}
  }

  const DEFAULT: VarSpec -> Value := (x: VarSpec) => x.default
  const UNSET: VarSpec -> string := (x: VarSpec) => ""

  /** `Configuration(source)`; an empty source stands for none. */
  function Fresh(spec: Spec, source: string): Settings {
    Settings(BaseNames(spec), BaseMap(spec, DEFAULT), BaseMap(spec, UNSET), if source == "" then [] else [source], [])
  }

  lemma BaseGrows(spec: Spec, entry: (string, SectionSpec))
    ensures BaseMap(spec + [entry], DEFAULT) == BaseMap(spec, DEFAULT) + Contributed(entry, DEFAULT)
    ensures BaseMap(spec + [entry], UNSET) == BaseMap(spec, UNSET) + Contributed(entry, UNSET)
    ensures BaseNames(spec + [entry]) == BaseNames(spec) + if entry.1.Parametric? then {} else {entry.0}
  {
    assert (spec + [entry])[..|spec|] == spec;
  }

  lemma {:induction false} BaseNamesMeaning(spec: Spec, sec: string)
    ensures sec in BaseNames(spec) <==> exists i | 0 <= i < |spec| :: spec[i].0 == sec && !spec[i].1.Parametric?
  {
    if spec == [] {
    } else {
      var init, last := spec[..|spec| - 1], spec[|spec| - 1];
      BaseNamesMeaning(init, sec);
      assert spec == init + [last];
      if i :| 0 <= i < |init| && init[i].0 == sec && !init[i].1.Parametric? { assert spec[i] == init[i]; }
    }
  }

  lemma {:induction false} BaseMapMeaning<T>(spec: Spec, what: VarSpec -> T, v: Variable)
    requires DistinctNames(spec)
    ensures v in BaseMap(spec, what)
            <==> exists i | 0 <= i < |spec| :: spec[i].0 == v.0 && !spec[i].1.Parametric? && v.1 in SpecVars(spec[i].1)
    ensures forall i | 0 <= i < |spec| && spec[i].0 == v.0 && v in BaseMap(spec, what) ::
              v.1 in SpecVars(spec[i].1) && BaseMap(spec, what)[v] == what(SpecVars(spec[i].1)[v.1])
  {
    if spec == [] {
    } else {
      var init, last := spec[..|spec| - 1], spec[|spec| - 1];
      assert spec == init + [last];
      assert DistinctNames(init);
      BaseMapMeaning(init, what, v);
      assert forall i | 0 <= i < |init| :: init[i] == spec[i] && spec[i].0 != last.0;
    }
  }

  ghost predicate DistinctNames(spec: Spec) {
    forall i, j | 0 <= i < j < |spec| :: spec[i].0 != spec[j].0
  }

  lemma FreshIsGood(spec: Spec, source: string)
    requires GoodSpec(spec)
    ensures Good(spec, Fresh(spec, source))
    ensures forall v :: !Sets(Fresh(spec, source), v)
  {
    var s := Fresh(spec, source);
    forall sec ensures sec in s.sections <==> IsBase(spec, sec) {
      BaseNamesMeaning(spec, sec);
      SpecOfFound(spec, sec);
      forall i | 0 <= i < |spec| && spec[i].0 == sec { SpecOfMember(spec, i); }
    }
    forall v ensures (v in s.values <==> v in s.origins)
             ensures v in s.values ==>
                       v.0 in s.sections && GoodEntry(spec, v, s.values[v], s.origins[v]) && s.origins[v] == ""
    {
      FreshVariable(spec, source, v);
    }
    forall sec | IsBase(spec, sec) ensures ':' !in sec { SpecOfFound(spec, sec); }
    forall sec, n | IsBase(spec, sec) && !IsDynamic(sec) && VarsOf(spec, sec).Some? && n in VarsOf(spec, sec).value
      ensures (sec, n) in s.values
    {
      SpecOfFound(spec, sec);
      BaseMapMeaning(spec, DEFAULT, (sec, n));
    }
  }

  lemma FreshVariable(spec: Spec, source: string, v: Variable)
    requires GoodSpec(spec)
    ensures var s := Fresh(spec, source);
            && (v in s.values <==> v in s.origins)
            && (v in s.values ==>
                  v.0 in s.sections && GoodEntry(spec, v, s.values[v], s.origins[v]) && s.origins[v] == "")
  {
    BaseMapMeaning(spec, DEFAULT, v);
    BaseMapMeaning(spec, UNSET, v);
    BaseNamesMeaning(spec, v.0);
    if v in BaseMap(spec, DEFAULT) {
      var i :| 0 <= i < |spec| && spec[i].0 == v.0 && !spec[i].1.Parametric? && v.1 in SpecVars(spec[i].1);
      SpecOfMember(spec, i);
    }
  }

  // ----- update_from_another -----

  function NewOrigin(other: Settings, origin: string, v: Variable): string
    requires Sets(other, v)
  {
    if origin != "" then origin else other.origins[v]
  }

  function SetAmong(other: Settings, seen: set<Variable>): set<Variable> {
    set v | v in seen && Sets(other, v)
  }

  function SectionsOf(vs: set<Variable>): set<string> {
    set v: Variable | v in vs :: v.0
  }

  function ValuesAmong(other: Settings, vs: set<Variable>): map<Variable, Value>
    requires vs <= other.values.Keys
  {
    map v | v in vs :: other.values[v]
  }

  function OriginsAmong(other: Settings, origin: string, vs: set<Variable>): map<Variable, string>
    requires forall v | v in vs :: Sets(other, v)
  {
    map v | v in vs :: NewOrigin(other, origin, v)
  }

  /** What `other` sets, among the variables seen, replaces what was there. */
  ghost function Merged(s: Settings, other: Settings, origin: string, seen: set<Variable>): Settings {
    var vs := SetAmong(other, seen);
    s.(sections := s.sections + SectionsOf(vs),
       values := s.values + ValuesAmong(other, vs),
       origins := s.origins + OriginsAmong(other, origin, vs))
  }

  /** Everything `other` sets replaces what was there, under the given origin or,
      if that is empty, its own. Sources and problems are appended. */
  ghost function UpdatedFrom(s: Settings, other: Settings, origin: string): Settings {
    Merged(s, other, origin, other.values.Keys).(sources := s.sources + other.sources,
        problems := s.problems + other.problems)
  }

  /** Looking at one more variable is one more assignment. */
  lemma MergedStep(s: Settings, other: Settings, origin: string, seen: set<Variable>, v: Variable)
    ensures var before, after := Merged(s, other, origin, seen), Merged(s, other, origin, seen + {v});
            after == if Sets(other, v) then Put(before, v, other.values[v], NewOrigin(other, origin, v)) else before
  {
    var vs := SetAmong(other, seen);
    if Sets(other, v) {
      assert SetAmong(other, seen + {v}) == vs + {v};
      assert SectionsOf(vs + {v}) == SectionsOf(vs) + {v.0};
      MapWithOneMore(s.values, ValuesAmong(other, vs), ValuesAmong(other, vs + {v}), v);
      MapWithOneMore(s.origins, OriginsAmong(other, origin, vs), OriginsAmong(other, origin, vs + {v}), v);
      assert s.sections + SectionsOf(vs + {v}) == s.sections + SectionsOf(vs) + {v.0};
    } else {
      assert SetAmong(other, seen + {v}) == vs;
    }
  }

  lemma MapWithOneMore<K, V>(base: map<K, V>, small: map<K, V>, big: map<K, V>, k: K)
    requires big.Keys == small.Keys + {k} && forall x | x in small :: big[x] == small[x]
    ensures base + big == (base + small)[k := big[k]]
  {
  }

  lemma UpdatedVariable(s: Settings, other: Settings, origin: string, v: Variable)
    requires s.values.Keys == s.origins.Keys && other.values.Keys == other.origins.Keys
    ensures var r := UpdatedFrom(s, other, origin);
            && (v in r.values <==> v in r.origins)
            && (v in r.values <==> v in s.values || Sets(other, v))
            && (Sets(other, v) ==>
                  r.values[v] == other.values[v] && r.origins[v] == NewOrigin(other, origin, v) && v.0 in r.sections)
            && (!Sets(other, v) && v in s.values ==> r.values[v] == s.values[v] && r.origins[v] == s.origins[v])
            && s.sections <= r.sections
  {
    assert Sets(other, v) <==> v in SetAmong(other, other.values.Keys);
  }

  lemma UpdatedSections(s: Settings, other: Settings, origin: string, sec: string)
    ensures sec in UpdatedFrom(s, other, origin).sections && sec !in s.sections
            ==> exists v: Variable :: v.0 == sec && Sets(other, v)
  {
  }

  /** Good configurations update to good ones; what the other sets wins, with
      the given origin, and everything else stays. */
  lemma UpdatedMeaning(spec: Spec, s: Settings, other: Settings, origin: string)
    requires Good(spec, s) && Good(spec, other)
    ensures var r := UpdatedFrom(s, other, origin);
            && Good(spec, r)
            && (forall v | Sets(other, v) ::
                  Holds(r, v, other.values[v], if origin != "" then origin else other.origins[v]))
            && (forall v | !Sets(other, v) ::
                  (v in r.values <==> v in s.values)
                  && (v in s.values ==> r.values[v] == s.values[v] && r.origins[v] == s.origins[v]))
            && r.sources == s.sources + other.sources && r.problems == s.problems + other.problems
  {
    var r := UpdatedFrom(s, other, origin);
    forall v { UpdatedVariable(s, other, origin, v); }
    forall sec ensures sec in r.sections && ':' !in sec <==> IsBase(spec, sec) {
      UpdatedSections(s, other, origin, sec);
    }
  }

  // ----- Any sequence of sets and updates -----

  datatype Change =
    | SetTo(section: string, name: string, raw: string, origin: string)
    | UpdateFrom(other: Settings, origin: string)

  ghost predicate GoodChange(spec: Spec, c: Change) {
    match c case SetTo(_, _, _, origin) => origin != "" case UpdateFrom(other, _) => Good(spec, other)
  }

  ghost function Changed(spec: Spec, rt: Converters, s: Settings, c: Change): Settings {
    match c
    case SetTo(section, name, raw, origin) => SetValueOf(spec, rt, s, section, name, raw, origin).0
    case UpdateFrom(other, origin) => UpdatedFrom(s, other, origin)
  }

  ghost function ChangedBy(spec: Spec, rt: Converters, s: Settings, log: seq<Change>): Settings {
    if log == [] then s else Changed(spec, rt, ChangedBy(spec, rt, s, log[..|log| - 1]), log[|log| - 1])
  }

  /** The change gives the variable a value. */
  ghost predicate Touches(spec: Spec, rt: Converters, s: Settings, c: Change, v: Variable) {
    match c
    case SetTo(section, name, raw, origin) =>
      v == (section, name) && SetValueOf(spec, rt, s, section, name, raw, origin).1 == Stored
    case UpdateFrom(other, _) => Sets(other, v)
  }

  lemma ChangeMeaning(spec: Spec, rt: Converters, s: Settings, c: Change, v: Variable)
    requires GoodSpec(spec) && Good(spec, s) && GoodChange(spec, c)
    ensures var r := Changed(spec, rt, s, c);
            && Good(spec, r)
            && (Sets(r, v) <==> Sets(s, v) || Touches(spec, rt, s, c, v))
            && (!Touches(spec, rt, s, c, v) ==>
                  (v in r.values <==> v in s.values)
                  && (v in s.values ==> r.values[v] == s.values[v] && r.origins[v] == s.origins[v]))
            && s.problems <= r.problems
  {
    match c
    case SetTo(section, name, raw, origin) =>
      SetValueKeepsGood(spec, rt, s, section, name, raw, origin);
      var r := Changed(spec, rt, s, c);
      if v != (section, name) {
        assert v in r.values <==> v in r.values - {(section, name)};
        assert v in s.values <==> v in s.values - {(section, name)};
        if v in s.values {
          assert (r.values - {(section, name)})[v] == (s.values - {(section, name)})[v];
          assert (r.origins - {(section, name)})[v] == (s.origins - {(section, name)})[v];
        }
      }
    case UpdateFrom(other, origin) =>
      UpdatedMeaning(spec, s, other, origin);
      UpdatedVariable(s, other, origin, v);
  }

  ghost predicate SetByChanges(spec: Spec, rt: Converters, s: Settings, log: seq<Change>, v: Variable) {
    exists i :: TouchedAt(spec, rt, s, log, i, v)
  }

  /** Whatever is set and merged, in any order: the configuration stays good, so
      its values keep their declared kinds and an empty origin still means the
      default; and a variable counts as set exactly when some change set it. */
  lemma {:induction false} ChangesKeepGood(spec: Spec, rt: Converters, log: seq<Change>, source: string, v: Variable)
    requires GoodSpec(spec) && forall i | 0 <= i < |log| :: GoodChange(spec, log[i])
    ensures var r := ChangedBy(spec, rt, Fresh(spec, source), log);
            Good(spec, r) && (Sets(r, v) <==> SetByChanges(spec, rt, Fresh(spec, source), log, v))
  {
    if log == [] {
      FreshIsGood(spec, source);
    } else {
      var init, last := log[..|log| - 1], log[|log| - 1];
      ChangesKeepGood(spec, rt, init, source, v);
      assert log == init + [last];
      OneMoreChange(spec, rt, Fresh(spec, source), init, last, v);
    }
  }

  lemma OneMoreChange(spec: Spec, rt: Converters, s: Settings, init: seq<Change>, last: Change, v: Variable)
    requires GoodSpec(spec) && Good(spec, ChangedBy(spec, rt, s, init)) && GoodChange(spec, last)
    requires Sets(ChangedBy(spec, rt, s, init), v) <==> SetByChanges(spec, rt, s, init, v)
    ensures var r := ChangedBy(spec, rt, s, init + [last]);
            Good(spec, r) && (Sets(r, v) <==> SetByChanges(spec, rt, s, init + [last], v))
  {
    ChangedOnce(spec, rt, s, init, last);
    ChangeMeaning(spec, rt, ChangedBy(spec, rt, s, init), last, v);
    TouchedLater(spec, rt, s, init, last, v);
  }

  lemma ChangedOnce(spec: Spec, rt: Converters, s: Settings, init: seq<Change>, last: Change)
    ensures ChangedBy(spec, rt, s, init + [last]) == Changed(spec, rt, ChangedBy(spec, rt, s, init), last)
  {
    assert (init + [last])[..|init|] == init;
  }

  lemma TouchedLater(spec: Spec, rt: Converters, s: Settings, init: seq<Change>, last: Change, v: Variable)
    ensures SetByChanges(spec, rt, s, init + [last], v)
            <==> SetByChanges(spec, rt, s, init, v) || Touches(spec, rt, ChangedBy(spec, rt, s, init), last, v)
  {
    var log := init + [last];
    assert log[..|init|] == init;
    forall i | 0 <= i < |init| ensures TouchedAt(spec, rt, s, log, i, v) <==> TouchedAt(spec, rt, s, init, i, v) {
      assert init[..i] == log[..i];
    }
    assert TouchedAt(spec, rt, s, log, |init|, v) <==> Touches(spec, rt, ChangedBy(spec, rt, s, init), last, v);
  }

  lemma ProblemsGrow(spec: Spec, rt: Converters, s: Settings, c: Change)
    ensures s.problems <= Changed(spec, rt, s, c).problems
  {
  }

  /** No reported problem is ever lost. */
  lemma {:induction false} ProblemsStay(spec: Spec, rt: Converters, s: Settings, log: seq<Change>, k: nat)
    requires k <= |log|
    ensures ChangedBy(spec, rt, s, log[..k]).problems <= ChangedBy(spec, rt, s, log).problems
  {
    if k < |log| {
      var init := log[..|log| - 1];
      ProblemsStay(spec, rt, s, init, k);
      ProblemsGrow(spec, rt, ChangedBy(spec, rt, s, init), log[|log| - 1]);
      assert init[..k] == log[..k];
    } else {
      TakeAll(log);
    }
  }

  ghost predicate TouchedAt(spec: Spec, rt: Converters, s: Settings, log: seq<Change>, i: int, v: Variable) {
    0 <= i < |log| && Touches(spec, rt, ChangedBy(spec, rt, s, log[..i]), log[i], v)
  }

  // ----- The object -----

  class Configuration {
    const spec: Spec
    const rt: Converters
    var sections: set<string>
    var values: map<Variable, Value>
    var origins: map<Variable, string>
    var sources: seq<string>
    var problems: seq<Problem>

    function Contents(): Settings
      reads this
    {
      Settings(sections, values, origins, sources, problems)
    }

    ghost predicate Valid()
      reads this
    {
      GoodSpec(spec) && Good(spec, Contents())
    }

    constructor (spec: Spec, rt: Converters, source: string)
      requires GoodSpec(spec)
      ensures Valid() && this.spec == spec && this.rt == rt && Contents() == Fresh(spec, source)
    {
      this.spec := spec;
      this.rt := rt;
      sources := if source == "" then [] else [source];
      problems := [];
      sections, values, origins := {}, map[], map[];
      new;
      FillDefaults();
      FreshIsGood(spec, source);
    }

    /** The loop of the constructor: every section but the parametric ones. */
    method FillDefaults()
      requires sections == {} && values == map[] && origins == map[]
      modifies this`sections, this`values, this`origins
      ensures sections == BaseNames(spec) && values == BaseMap(spec, DEFAULT) && origins == BaseMap(spec, UNSET)
    {
      for i := 0 to |spec|
        invariant sections == BaseNames(spec[..i])
        invariant values == BaseMap(spec[..i], DEFAULT) && origins == BaseMap(spec[..i], UNSET)
      {
        TakeMore(spec, i);
        BaseGrows(spec[..i], spec[i]);
        FillSection(spec[i]);
      }
      TakeAll(spec);
    }

    /** The body of that loop. */
    method FillSection(entry: (string, SectionSpec))
      modifies this`sections, this`values, this`origins
      ensures sections == old(sections) + if entry.1.Parametric? then {} else {entry.0}
      ensures values == old(values) + Contributed(entry, DEFAULT)
      ensures origins == old(origins) + Contributed(entry, UNSET)
    {
      if !entry.1.Parametric? {
        sections := sections + {entry.0};
        values := values + Contributed(entry, DEFAULT);
        origins := origins + Contributed(entry, UNSET);
      }
    }

    function GetValue(section: string, name: string): Value
      requires (section, name) in values
      reads this
    {
      values[(section, name)]
    }

    method NoticeProblem(problem: Problem)
      modifies this`problems
      ensures Contents() == Noticed(old(Contents()), problem)
    {
      problems := problems + [problem];
    }

    method DynSetValue(section: string, name: string, value: string, origin: string)
      requires section in sections
      modifies this`values, this`origins
      ensures Contents() == Put(old(Contents()), (section, name), Str(value), origin)
    {
      values := values[(section, name) := Str(value)];
      origins := origins[(section, name) := origin];
    }

    /** `set_value`. Only the empty origin, which is that of a default, can spoil
        the invariant. */
    method SetValue(section: string, name: string, value: string, origin: string) returns (how: SetOutcome)
      requires Valid()
      modifies this`sections, this`values, this`origins, this`problems
      ensures origin != "" ==> Valid()
      ensures (Contents(), how) == SetValueOf(spec, rt, old(Contents()), section, name, value, origin)
    {
      if origin != "" { SetValueKeepsGood(spec, rt, Contents(), section, name, value, origin); }
      if IsDynamic(section) {
        assert IsBase(spec, section) by { SpecOfDynamic(spec, section); }
        DynSetValue(section, name, value, origin);
        return Stored;
      }
      var parametrized := ':' in section;
      if Colons(section) > 1 {
        return Raises;
      }
      var prefix := if parametrized then Prefix(section) else "";
      var index := -1;
      for i := 0 to |spec|
        invariant Contents() == old(Contents())
        invariant index == -1 || (0 <= index < i && Declares(spec[index], section))
        invariant forall k | 0 <= k < i && k != index :: !Declares(spec[k], section)
        invariant parametrized && index >= 0 ==> name in SpecVars(spec[index].1)
      {
        if spec[i].0 == section {
          index := i;
        }
        if spec[i].1.Parametric? && parametrized && spec[i].0 == prefix {
          if name !in spec[i].1.vars {
            DeclaredVars(spec, section, i);
            NoticeProblem(UnexpectedVariable(name, section, origin));
            return Rejected;
          }
          index := i;
        }
      }
      if index == -1 {
        UndeclaredVars(spec, section);
        NoticeProblem(UnexpectedSection(section, origin));
        return Rejected;
      }
      DeclaredVars(spec, section, index);
      how := StoreConverted(spec[index].1.vars, section, name, value, origin);
    }

    /** The rest of `set_value`, once the specification entry is found. */
    method StoreConverted(vars: map<string, VarSpec>, section: string, name: string, value: string, origin: string)
      returns (how: SetOutcome)
      requires !IsDynamic(section) && Colons(section) <= 1 && VarsOf(spec, section) == Some(vars)
      requires ':' in section ==> name in vars
      modifies this`sections, this`values, this`origins, this`problems
      ensures (Contents(), how) == SetValueOf(spec, rt, old(Contents()), section, name, value, origin)
    {
      if name !in vars {
        return Raises;
      }
      var converted := Convert(rt, vars[name].kind, value);
      if converted.None? {
        NoticeProblem(BadValue(name, section, value, vars[name].kind, origin));
        return Rejected;
      }
      if ':' in section && section !in sections {
        sections := sections + {section};
      }
      if section !in sections {
        return Raises;
      }
      assert sections == sections + {section};
      values := values[(section, name) := converted.value];
      origins := origins[(section, name) := origin];
      return Stored;
    }

    /** `update_from_another`. The other may be this very object. */
    method UpdateFromAnother(other: Configuration, origin: string)
      requires Valid() && other.Valid() && other.spec == spec
      modifies this`sections, this`values, this`origins, this`sources, this`problems
      ensures Contents() == UpdatedFrom(old(Contents()), old(other.Contents()), origin)
      ensures Valid()
    {
      ghost var start, from := Contents(), other.Contents();
      MergeFrom(other, origin);
      sources := sources + other.sources;
      problems := problems + other.problems;
      ghost var updated := UpdatedFrom(start, from, origin);
      assert Contents() == updated;
      assert Good(spec, updated) by { UpdatedMeaning(spec, start, from, origin); }
    }

    /** Its loops over the other's sections and their variables. */
    method MergeFrom(other: Configuration, origin: string)
      requires other.values.Keys == other.origins.Keys
      modifies this`sections, this`values, this`origins
      ensures Contents() == Merged(old(Contents()), old(other.Contents()), origin, old(other.values.Keys))
    {
      ghost var start, from, seen := Contents(), other.Contents(), {};
      MergedNothing(start, from, origin);
      var left := other.values.Keys;
      while left != {}
        invariant left <= from.values.Keys && seen == from.values.Keys - left
        invariant Untouched(from, other.Contents(), left)
        invariant Contents() == Merged(start, from, origin, seen)
        decreases left
      {
        var v :| v in left;
        left := left - {v};
        MergedStep(start, from, origin, seen, v);
        seen := seen + {v};
        TakeOne(other, v, origin);
      }
      assert seen == from.values.Keys;
    }

    /** The body of its loops, for one variable. */
    method TakeOne(other: Configuration, v: Variable, origin: string)
      requires v in other.values && v in other.origins
      modifies this`sections, this`values, this`origins
      ensures Contents() == if Sets(old(other.Contents()), v)
                            then Put(old(Contents()), v, old(other.values[v]),
                                     NewOrigin(old(other.Contents()), origin, v))
                            else old(Contents())
    {
      var newOrigin := other.origins[v];
      if newOrigin != "" {
        sections := sections + {v.0};
        values := values[v := other.values[v]];
        origins := origins[v := if origin != "" then origin else newOrigin];
      }
    }
  }

  /** These variables are still as they were. */
  predicate Untouched(was: Settings, now: Settings, vs: set<Variable>) {
    forall v | v in vs ::
      && v in was.values && v in was.origins && v in now.values && v in now.origins
      && now.values[v] == was.values[v] && now.origins[v] == was.origins[v]
  }

  lemma MergedNothing(s: Settings, other: Settings, origin: string)
    ensures Merged(s, other, origin, {}) == s
  {
    var r := Merged(s, other, origin, {});
    assert r.sections == s.sections && r.values == s.values && r.origins == s.origins;
  }

  lemma SpecOfDynamic(spec: Spec, section: string)
    requires GoodSpec(spec) && IsDynamic(section)
    ensures IsBase(spec, section)
  {
    SpecOfFound(spec, section);
  }

  /** The specification entry that the loop of `set_value` settles on. */
  predicate Declares(entry: (string, SectionSpec), section: string) {
    entry.0 == section || (entry.1.Parametric? && ':' in section && entry.0 == Prefix(section))
  }

  lemma DeclaredVars(spec: Spec, section: string, i: nat)
    requires GoodSpec(spec) && i < |spec| && Declares(spec[i], section) && !IsDynamic(section)
    ensures !spec[i].1.Dynamic? && VarsOf(spec, section) == Some(spec[i].1.vars)
  {
    SpecOfMember(spec, i);
  }

  lemma UndeclaredVars(spec: Spec, section: string)
    requires forall i | 0 <= i < |spec| :: !Declares(spec[i], section)
    ensures VarsOf(spec, section) == None
  {
    SpecOfFound(spec, section);
    if ':' in section { SpecOfFound(spec, Prefix(section)); }
  }
}
