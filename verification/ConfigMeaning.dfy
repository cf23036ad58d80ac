/** What reading a configuration file amounts to, said of the file itself: which
    variables it sets, to what, and which problems it leaves. */
module ConfigMeaning {
  import opened Base
  import opened Configuration
  import opened ConfigFiles

  // ----- One value -----

  /** What a text stands for as a value of this variable, if anything. */
  function Meant(spec: Spec, rt: Converters, v: Variable, raw: string): Option<Value> {
    if IsDynamic(v.0) then Some(Str(raw))
    else if Colons(v.0) > 1 then None
    else match VarsOf(spec, v.0)
      case Some(vars) => if v.1 in vars then Convert(rt, vars[v.1].kind, raw) else None
      case None => None
  }

  lemma SetValueAt(spec: Spec, rt: Converters, s: Settings, sec: string, name: string, raw: string, origin: string,
          v: Variable)
    requires ':' in sec || sec in s.sections
    ensures var r := SetValueOf(spec, rt, s, sec, name, raw, origin).0;
            if v == (sec, name) && Meant(spec, rt, v, raw).Some?
            then Holds(r, v, Meant(spec, rt, v, raw).value, origin)
            else SameAt(r, s, v)
  {
    if IsDynamic(sec) { NoColonWhenDynamic(sec); }
  }

  // ----- What a file sets -----

  /** Sections that are not skipped. */
  predicate Known(spec: Spec, sec: string) {
    ':' in sec || IsBase(spec, sec)
  }

  /** This option of this section gives the variable a value. */
  predicate Gives(spec: Spec, rt: Converters, section: string, option: (string, Option<string>), v: Variable) {
    && section != "DEFAULT" && (CurrentName(section), option.0) == v && Known(spec, v.0)
    && option.1.Some? && Meant(spec, rt, v, option.1.value).Some?
  }

  /** What it gives. */
  function Given(spec: Spec, rt: Converters, section: string, option: (string, Option<string>), v: Variable): Value
    requires Gives(spec, rt, section, option, v)
  {
    Meant(spec, rt, v, option.1.value).value
  }

  ghost predicate SectionGives(spec: Spec, rt: Converters, section: string, vars: Options, v: Variable) {
    exists j :: 0 <= j < |vars| && Gives(spec, rt, section, vars[j], v)
  }

  ghost predicate LastInSection(spec: Spec, rt: Converters, section: string, vars: Options, j: int, v: Variable) {
    && 0 <= j < |vars| && Gives(spec, rt, section, vars[j], v)
    && forall k | j < k < |vars| :: !Gives(spec, rt, section, vars[k], v)
  }

  /** The `j`-th option of the `i`-th section is the last of the file that gives
      the variable a value. */
  ghost predicate LastInFile(spec: Spec, rt: Converters, ini: Ini, i: int, j: int, v: Variable) {
    && 0 <= i < |ini| && LastInSection(spec, rt, ini[i].0, ini[i].1, j, v)
    && forall k | i < k < |ini| :: !SectionGives(spec, rt, ini[k].0, ini[k].1, v)
  }

  /** Some option of the file gives the variable a value. */
  ghost predicate FileGives(spec: Spec, rt: Converters, ini: Ini, v: Variable) {
    exists i :: 0 <= i < |ini| && SectionGives(spec, rt, ini[i].0, ini[i].1, v)
  }

  lemma KnownIsTakenUp(spec: Spec, s: Settings, section: string)
    requires Good(spec, s)
    ensures TakenUp(section, s.sections) <==> section == "DEFAULT" || Known(spec, CurrentName(section))
  {
  }

  lemma ReadVariableAt(spec: Spec, rt: Converters, s: Settings, section: string, option: (string, Option<string>),
          origin: string, v: Variable)
    requires Good(spec, s) && TakenUp(section, s.sections)
    ensures var r := ReadVariable(spec, rt, s, section, option.0, option.1, origin);
            if Gives(spec, rt, section, option, v) then Holds(r, v, Given(spec, rt, section, option, v), origin)
            else SameAt(r, s, v)
  {
    KnownIsTakenUp(spec, s, section);
    if section != "DEFAULT" && option.1.Some? {
      SetValueAt(spec, rt, s, CurrentName(section), option.0, option.1.value, origin, v);
    }
  }

  lemma SameAtBoth(a: Settings, b: Settings, c: Settings, v: Variable)
    requires SameAt(a, b, v) && SameAt(b, c, v)
    ensures SameAt(a, c, v)
  {
  }

  lemma HoldsStill(a: Settings, b: Settings, v: Variable, value: Value, origin: string)
    requires SameAt(a, b, v) && Holds(b, v, value, origin)
    ensures Holds(a, v, value, origin)
  {
  }

  /** The last option of the section that gives the variable a value decides. */
  ghost predicate SectionDecides(spec: Spec, rt: Converters, r: Settings, section: string, vars: Options,
                                 origin: string, v: Variable) {
    forall j | LastInSection(spec, rt, section, vars, j, v) ::
      Holds(r, v, Given(spec, rt, section, vars[j], v), origin)
  }

  lemma {:induction false} ReadVariablesAt(spec: Spec, rt: Converters, s: Settings, section: string, vars: Options,
          origin: string, v: Variable)
    requires GoodSpec(spec) && Good(spec, s) && origin != "" && TakenUp(section, s.sections)
    ensures var r := ReadVariables(spec, rt, s, section, vars, origin);
            && SectionDecides(spec, rt, r, section, vars, origin, v)
            && (!SectionGives(spec, rt, section, vars, v) ==> SameAt(r, s, v))
  {
    if vars == [] {
    } else {
      var init, last := vars[..|vars| - 1], vars[|vars| - 1];
      ReadVariablesAt(spec, rt, s, section, init, origin, v);
      ReadVariablesKeepsGood(spec, rt, s, section, init, origin);
      var before := ReadVariables(spec, rt, s, section, init, origin);
      ReadVariableAt(spec, rt, before, section, last, origin, v);
      OneMoreOption(spec, rt, s, before, ReadVariables(spec, rt, s, section, vars, origin), section, vars, origin, v);
    }
  }

  lemma OneMoreOption(spec: Spec, rt: Converters, s: Settings, before: Settings, r: Settings, section: string,
          vars: Options, origin: string, v: Variable)
    requires vars != []
    requires SectionDecides(spec, rt, before, section, vars[..|vars| - 1], origin, v)
    requires !SectionGives(spec, rt, section, vars[..|vars| - 1], v) ==> SameAt(before, s, v)
    requires var last := vars[|vars| - 1];
             if Gives(spec, rt, section, last, v) then Holds(r, v, Given(spec, rt, section, last, v), origin)
             else SameAt(r, before, v)
    ensures SectionDecides(spec, rt, r, section, vars, origin, v)
    ensures !SectionGives(spec, rt, section, vars, v) ==> SameAt(r, s, v)
  {
    var init, last := vars[..|vars| - 1], vars[|vars| - 1];
    forall j | LastInSection(spec, rt, section, vars, j, v)
      ensures Holds(r, v, Given(spec, rt, section, vars[j], v), origin)
    {
      if j < |init| {
        assert !Gives(spec, rt, section, vars[|vars| - 1], v);
        assert LastInSection(spec, rt, section, init, j, v);
        HoldsStill(r, before, v, Given(spec, rt, section, vars[j], v), origin);
      }
    }
    if !SectionGives(spec, rt, section, vars, v) {
      assert !Gives(spec, rt, section, vars[|vars| - 1], v);
      forall j | 0 <= j < |init| ensures !Gives(spec, rt, section, init[j], v) { assert vars[j] == init[j]; }
      SameAtBoth(r, before, s, v);
    }
  }

  lemma ReadSectionAt(spec: Spec, rt: Converters, s: Settings, section: string, vars: Options, origin: string,
          v: Variable)
    requires GoodSpec(spec) && Good(spec, s) && origin != ""
    ensures var r := ReadSection(spec, rt, s, section, vars, origin);
            && SectionDecides(spec, rt, r, section, vars, origin, v)
            && (!SectionGives(spec, rt, section, vars, v) ==> SameAt(r, s, v))
  {
    KnownIsTakenUp(spec, s, section);
    if TakenUp(section, s.sections) {
      ReadVariablesAt(spec, rt, s, section, vars, origin, v);
    }
  }

  ghost predicate FileDecides(spec: Spec, rt: Converters, r: Settings, ini: Ini, origin: string, v: Variable) {
    forall i, j | LastInFile(spec, rt, ini, i, j, v) ::
      Holds(r, v, Given(spec, rt, ini[i].0, ini[i].1[j], v), origin)
  }

  lemma {:induction false} ReadIniAt(spec: Spec, rt: Converters, ini: Ini, origin: string, v: Variable)
    requires GoodSpec(spec) && origin != ""
    ensures var r := ReadIni(spec, rt, ini, origin);
            && FileDecides(spec, rt, r, ini, origin, v)
            && (!FileGives(spec, rt, ini, v) ==> SameAt(r, Fresh(spec, origin), v))
  {
    if ini == [] {
    } else {
      var init, last := ini[..|ini| - 1], ini[|ini| - 1];
      ReadIniAt(spec, rt, init, origin, v);
      ReadIniIsGood(spec, rt, init, origin);
      var before := ReadIni(spec, rt, init, origin);
      ReadSectionAt(spec, rt, before, last.0, last.1, origin, v);
      OneMoreSection(spec, rt, Fresh(spec, origin), before, ReadIni(spec, rt, ini, origin), ini, origin, v);
    }
  }

  lemma OneMoreSection(spec: Spec, rt: Converters, s: Settings, before: Settings, r: Settings, ini: Ini,
          origin: string, v: Variable)
    requires ini != []
    requires FileDecides(spec, rt, before, ini[..|ini| - 1], origin, v)
    requires !FileGives(spec, rt, ini[..|ini| - 1], v) ==> SameAt(before, s, v)
    requires var last := ini[|ini| - 1];
             && SectionDecides(spec, rt, r, last.0, last.1, origin, v)
             && (!SectionGives(spec, rt, last.0, last.1, v) ==> SameAt(r, before, v))
    ensures FileDecides(spec, rt, r, ini, origin, v)
    ensures !FileGives(spec, rt, ini, v) ==> SameAt(r, s, v)
  {
    var init, last := ini[..|ini| - 1], ini[|ini| - 1];
    forall i, j | LastInFile(spec, rt, ini, i, j, v)
      ensures Holds(r, v, Given(spec, rt, ini[i].0, ini[i].1[j], v), origin)
    {
      if i < |init| {
        LastEarlier(spec, rt, ini, i, j, v);
        HoldsStill(r, before, v, Given(spec, rt, ini[i].0, ini[i].1[j], v), origin);
      }
    }
    if !FileGives(spec, rt, ini, v) {
      NoneGives(spec, rt, ini, v);
      SameAtBoth(r, before, s, v);
    }
  }

  lemma LastEarlier(spec: Spec, rt: Converters, ini: Ini, i: int, j: int, v: Variable)
    requires LastInFile(spec, rt, ini, i, j, v) && i < |ini| - 1
    ensures LastInFile(spec, rt, ini[..|ini| - 1], i, j, v)
    ensures !SectionGives(spec, rt, ini[|ini| - 1].0, ini[|ini| - 1].1, v)
  {
  }

  lemma NoneGives(spec: Spec, rt: Converters, ini: Ini, v: Variable)
    requires ini != [] && !FileGives(spec, rt, ini, v)
    ensures !SectionGives(spec, rt, ini[|ini| - 1].0, ini[|ini| - 1].1, v)
    ensures !FileGives(spec, rt, ini[..|ini| - 1], v)
  {
    var init := ini[..|ini| - 1];
    assert !SectionGives(spec, rt, ini[|ini| - 1].0, ini[|ini| - 1].1, v);
    forall i | 0 <= i < |init| ensures !SectionGives(spec, rt, init[i].0, init[i].1, v) { assert ini[i] == init[i]; }
  }

  lemma {:induction false} LastOption(spec: Spec, rt: Converters, section: string, vars: Options, v: Variable)
    returns (j: nat)
    requires SectionGives(spec, rt, section, vars, v)
    ensures LastInSection(spec, rt, section, vars, j, v)
    decreases |vars|
  {
    var init := vars[..|vars| - 1];
    if Gives(spec, rt, section, vars[|vars| - 1], v) {
      j := |vars| - 1;
    } else {
      var k :| 0 <= k < |vars| && Gives(spec, rt, section, vars[k], v);
      assert init[k] == vars[k];
      j := LastOption(spec, rt, section, init, v);
      assert vars[j] == init[j];
      forall k | j < k < |vars| ensures !Gives(spec, rt, section, vars[k], v) {
        if k < |init| { assert init[k] == vars[k]; }
      }
    }
  }

  lemma {:induction false} LastPlace(spec: Spec, rt: Converters, ini: Ini, v: Variable) returns (i: nat, j: nat)
    requires FileGives(spec, rt, ini, v)
    ensures LastInFile(spec, rt, ini, i, j, v)
    decreases |ini|
  {
    var init, last := ini[..|ini| - 1], ini[|ini| - 1];
    if SectionGives(spec, rt, last.0, last.1, v) {
      i := |ini| - 1;
      j := LastOption(spec, rt, last.0, last.1, v);
    } else {
      var k :| 0 <= k < |ini| && SectionGives(spec, rt, ini[k].0, ini[k].1, v);
      assert init[k] == ini[k];
      i, j := LastPlace(spec, rt, init, v);
      assert ini[i] == init[i];
      forall k | i < k < |ini| ensures !SectionGives(spec, rt, ini[k].0, ini[k].1, v) {
        if k < |init| { assert init[k] == ini[k]; }
      }
    }
  }

  /** The file gives the variable this value last. */
  ghost predicate LastGives(spec: Spec, rt: Converters, ini: Ini, v: Variable, value: Value) {
    exists i, j :: LastInFile(spec, rt, ini, i, j, v) && value == Given(spec, rt, ini[i].0, ini[i].1[j], v)
  }

  lemma LastExists(spec: Spec, rt: Converters, ini: Ini, v: Variable)
    requires FileGives(spec, rt, ini, v)
    ensures exists value :: LastGives(spec, rt, ini, v, value)
  {
    var i, j := LastPlace(spec, rt, ini, v);
    assert LastGives(spec, rt, ini, v, Given(spec, rt, ini[i].0, ini[i].1[j], v));
  }

  /** The value that the last option of the file that gives one gives. */
  ghost function LastGiven(spec: Spec, rt: Converters, ini: Ini, v: Variable): (value: Value)
    requires FileGives(spec, rt, ini, v)
    ensures LastGives(spec, rt, ini, v, value)
  {
    LastExists(spec, rt, ini, v);
    var value :| LastGives(spec, rt, ini, v, value);
    value
  }

  /** A file sets a variable exactly when some option of a known section gives it
      a value. The last such option of the file decides, and the origin is the
      file. Any other variable is as in a fresh configuration. */
  lemma WhatAFileSets(spec: Spec, rt: Converters, ini: Ini, origin: string, v: Variable)
    requires GoodSpec(spec) && origin != ""
    ensures var r := ReadIni(spec, rt, ini, origin);
            && (Sets(r, v) <==> FileGives(spec, rt, ini, v))
            && FileDecides(spec, rt, r, ini, origin, v)
            && (FileGives(spec, rt, ini, v) ==> Holds(r, v, LastGiven(spec, rt, ini, v), origin))
            && (!FileGives(spec, rt, ini, v) ==> SameAt(r, Fresh(spec, origin), v))
  {
    ReadIniAt(spec, rt, ini, origin, v);
    NotSetAtFirst(spec, origin, v);
    if FileGives(spec, rt, ini, v) {
      GivenHolds(spec, rt, ReadIni(spec, rt, ini, origin), ini, origin, v);
    }
  }

  lemma NotSetAtFirst(spec: Spec, origin: string, v: Variable)
    requires GoodSpec(spec)
    ensures !Sets(Fresh(spec, origin), v)
  {
    FreshIsGood(spec, origin);
  }

  lemma GivenHolds(spec: Spec, rt: Converters, r: Settings, ini: Ini, origin: string, v: Variable)
    requires FileDecides(spec, rt, r, ini, origin, v) && FileGives(spec, rt, ini, v)
    ensures Holds(r, v, LastGiven(spec, rt, ini, v), origin)
  {
    LastHolds(spec, rt, r, ini, origin, v, LastGiven(spec, rt, ini, v));
  }

  lemma LastHolds(spec: Spec, rt: Converters, r: Settings, ini: Ini, origin: string, v: Variable, value: Value)
    requires FileDecides(spec, rt, r, ini, origin, v) && LastGives(spec, rt, ini, v, value)
    ensures Holds(r, v, value, origin)
  {
  }

  // ----- The conversions -----

  /** The text spells the word, in capital or small letters. */
  predicate Spells(text: string, small: string, capital: string)
    requires |small| == |capital|
  {
    |text| == |small| && forall i | 0 <= i < |text| :: text[i] == small[i] || text[i] == capital[i]
  }

  lemma LowerSpells(text: string, small: string, capital: string)
    requires |small| == |capital|
    requires forall i | 0 <= i < |small| :: 'a' <= small[i] <= 'z' && capital[i] == (small[i] as int - 32) as char
    ensures Lower(text) == small <==> Spells(text, small, capital)
  {
    if Lower(text) == small {
      forall i | 0 <= i < |text| ensures text[i] == small[i] || text[i] == capital[i] {
        assert LowerChar(text[i]) == Lower(text)[i] == small[i];
      }
    }
    if Spells(text, small, capital) {
      forall i | 0 <= i < |text| ensures Lower(text)[i] == small[i] { assert LowerChar(text[i]) == small[i]; }
    }
  }

  /** A text is kept as written; any text is a truth value, true exactly for yes
      and true in any letters; a number is what `int` reads; and a list is what
      `shlex.split` makes of the text with blanks for commas. */
  lemma ConvertMeaning(rt: Converters, raw: string, spaced: string)
    requires |spaced| == |raw| && forall i | 0 <= i < |raw| :: spaced[i] == if raw[i] == ',' then ' ' else raw[i]
    ensures Convert(rt, StrKind, raw) == Some(Str(raw))
    ensures Convert(rt, BoolKind, raw) == Some(Bool(Spells(raw, "yes", "YES") || Spells(raw, "true", "TRUE")))
    ensures match rt.toInt(raw)
            case Some(n) => Convert(rt, IntKind, raw) == Some(Int(n))
            case None => Convert(rt, IntKind, raw) == None
    ensures match rt.split(spaced)
            case Some(items) => Convert(rt, ListKind, raw) == Some(List(items))
            case None => Convert(rt, ListKind, raw) == None
  {
    LowerSpells(raw, "yes", "YES");
    LowerSpells(raw, "true", "TRUE");
    assert CommasToSpaces(raw) == spaced;
  }

  /** The sections that a specification declares, and the variables they may hold:
      a parametric one lends its variables to every section of its name with a
      parameter, and is not a section itself. */
  lemma DeclaredSections(spec: Spec, i: nat, param: string)
    requires GoodSpec(spec) && i < |spec|
    ensures spec[i].1.Static? ==> VarsOf(spec, spec[i].0) == Some(spec[i].1.vars) && Known(spec, spec[i].0)
    ensures spec[i].1.Dynamic? ==> IsDynamic(spec[i].0) && Known(spec, spec[i].0)
    ensures spec[i].1.Parametric? ==> !Known(spec, spec[i].0)
    ensures var section := spec[i].0 + ":" + param;
            Known(spec, section)
            && (spec[i].1.Parametric? ==> VarsOf(spec, section) == Some(spec[i].1.vars))
            && (!spec[i].1.Parametric? ==> VarsOf(spec, section) == None)
  {
    SpecOfMember(spec, i);
    var section := spec[i].0 + ":" + param;
    assert section[|spec[i].0|] == ':';
    assert IndexOf(section, ':') == |spec[i].0| by {
      assert forall k | 0 <= k < |spec[i].0| :: section[k] == spec[i].0[k];
    }
    assert Prefix(section) == spec[i].0;
  }

  /** A file with one option. */
  lemma OneOptionSets(spec: Spec, rt: Converters, section: string, name: string, raw: string, origin: string)
    requires GoodSpec(spec) && origin != ""
    requires Gives(spec, rt, section, (name, Some(raw)), (CurrentName(section), name))
    ensures var v := (CurrentName(section), name);
            Holds(ReadIni(spec, rt, [(section, [(name, Some(raw))])], origin), v, Meant(spec, rt, v, raw).value, origin)
  {
    var v, vars: Options := (CurrentName(section), name), [(name, Some(raw))];
    var ini: Ini := [(section, vars)];
    assert vars[0] == (name, Some(raw)) && ini[0] == (section, vars);
    assert LastInSection(spec, rt, section, vars, 0, v);
    assert LastInFile(spec, rt, ini, 0, 0, v);
    WhatAFileSets(spec, rt, ini, origin, v);
  }

  /** A text set in a section, and one set under the old name of a section. */
  lemma PlainFilesSet(rt: Converters, raw: string, origin: string)
    requires origin != ""
    ensures Holds(ReadIni(CONFIG_SPEC, rt, [("ui", [("verbosity", Some(raw))])], origin),
                  ("ui", "verbosity"), Str(raw), origin)
    ensures Holds(ReadIni(CONFIG_SPEC, rt, [("daemon", [("normal_user", Some(raw))])], origin),
                  ("agent", "normal_user"), Str(raw), origin)
  {
    StaticTextSet(rt, 4, "ui", "verbosity", raw, origin);
    StaticTextSet(rt, 5, "daemon", "normal_user", raw, origin);
  }

  lemma StaticTextSet(rt: Converters, i: nat, section: string, name: string, raw: string, origin: string)
    requires i < 12 && origin != "" && section != "DEFAULT" && CONFIG_SPEC[i].0 == CurrentName(section)
    requires CONFIG_SPEC[i].1.Static? && name in CONFIG_SPEC[i].1.vars && CONFIG_SPEC[i].1.vars[name].kind == StrKind
    ensures Holds(ReadIni(CONFIG_SPEC, rt, [(section, [(name, Some(raw))])], origin),
                  (CurrentName(section), name), Str(raw), origin)
  {
    ConfigSpecIsGood();
    DeclaredSections(CONFIG_SPEC, i, "");
    NoColons(CurrentName(section));
    OneOptionSets(CONFIG_SPEC, rt, section, name, raw, origin);
  }

  lemma {:induction false} NoColons(s: string)
    requires ':' !in s
    ensures Colons(s) == 0
  {
    if s == "" {
    } else {
      assert forall c | c in s[1..] :: c in s;
      assert s[0] in s;
      NoColons(s[1..]);
    }
  }

  /** A text set in a section with a parameter. */
  lemma ParametricTextSet(rt: Converters, i: nat, param: string, name: string, raw: string, origin: string)
    requires i < 12 && origin != "" && ':' !in param
    requires CONFIG_SPEC[i].1.Parametric? && name in CONFIG_SPEC[i].1.vars
    requires CONFIG_SPEC[i].1.vars[name].kind == StrKind
    ensures var section := CONFIG_SPEC[i].0 + ":" + param;
            Holds(ReadIni(CONFIG_SPEC, rt, [(section, [(name, Some(raw))])], origin), (section, name), Str(raw), origin)
  {
    ConfigSpecIsGood();
    var section := CONFIG_SPEC[i].0 + ":" + param;
    DeclaredSections(CONFIG_SPEC, i, param);
    OneColon(CONFIG_SPEC[i].0, param);
    assert ':' in section by { assert section[|CONFIG_SPEC[i].0|] == ':'; }
    HasColon(section);
    OneOptionSets(CONFIG_SPEC, rt, section, name, raw, origin);
  }

  /** A name with a colon is none of the names that are treated specially. */
  lemma HasColon(section: string)
    requires ':' in section
    ensures section != "DEFAULT" && CurrentName(section) == section && !IsDynamic(section)
  {
    assert ':' !in "daemon" && ':' !in "DEFAULT" && ':' !in "environment" && ':' !in "manifest";
  }

  lemma {:induction false} OneColon(a: string, b: string)
    requires ':' !in a && ':' !in b
    ensures Colons(a + ":" + b) == 1
  {
    var s := a + ":" + b;
    if a == "" {
      assert s[1..] == b;
      NoColons(b);
    } else {
      assert s[1..] == a[1..] + ":" + b && a[0] in a;
      assert forall c | c in a[1..] :: c in a;
      OneColon(a[1..], b);
    }
  }

  // ----- The problems a file leaves -----

  /** Taking up this option leaves this problem. */
  predicate Leaves(spec: Spec, rt: Converters, section: string, option: (string, Option<string>), origin: string,
                   x: Problem) {
    var sec := CurrentName(section);
    match x
    case DefaultIgnored(name) => section == "DEFAULT" && name == option.0
    case UnexpectedVariable(name, s, o) =>
      section != "DEFAULT" && (name, s, o) == (option.0, sec, origin) && option.1.Some? && Refused(spec, sec, name)
    case UnexpectedSection(s, o) =>
      section != "DEFAULT" && (s, o) == (sec, origin) && option.1.Some? && NothingExtended(spec, sec)
    case BadValue(name, s, raw, kind, o) =>
      && section != "DEFAULT" && (name, s, o) == (option.0, sec, origin) && option.1 == Some(raw)
      && Declared(spec, sec, name, kind) && Convert(rt, kind, raw) == None
    case FileNotFound(_) => false
  }

  /** The section has variables, but not this one. */
  predicate Refused(spec: Spec, sec: string, name: string) {
    !IsDynamic(sec) && Colons(sec) <= 1 && VarsOf(spec, sec).Some? && name !in VarsOf(spec, sec).value
  }

  predicate Declared(spec: Spec, sec: string, name: string, kind: Kind) {
    && !IsDynamic(sec) && Colons(sec) <= 1 && VarsOf(spec, sec).Some?
    && name in VarsOf(spec, sec).value && VarsOf(spec, sec).value[name].kind == kind
  }

  /** The section has a parameter, but there is no such parametric section. */
  predicate NothingExtended(spec: Spec, sec: string) {
    !IsDynamic(sec) && Colons(sec) <= 1 && VarsOf(spec, sec).None?
  }

  /** The problems that one option leaves: at most one. */
  function OptionProblems(spec: Spec, rt: Converters, section: string, option: (string, Option<string>),
          origin: string): (problems: seq<Problem>)
    ensures |problems| <= 1 && forall x :: x in problems <==> Leaves(spec, rt, section, option, origin, x)
  {
    var sec := CurrentName(section);
    if section == "DEFAULT" then [DefaultIgnored(option.0)]
    else if option.1.None? || IsDynamic(sec) || Colons(sec) > 1 then []
    else match VarsOf(spec, sec)
      case None => [UnexpectedSection(sec, origin)]
      case Some(vars) =>
        if option.0 !in vars then [UnexpectedVariable(option.0, sec, origin)]
        else if Convert(rt, vars[option.0].kind, option.1.value).Some? then []
        else [BadValue(option.0, sec, option.1.value, vars[option.0].kind, origin)]
  }

  function EachProblem(spec: Spec, rt: Converters, section: string, vars: Options, origin: string): seq<Problem> {
    if vars == [] then []
    else EachProblem(spec, rt, section, vars[..|vars| - 1], origin)
         + OptionProblems(spec, rt, section, vars[|vars| - 1], origin)
  }

  function SectionProblems(spec: Spec, rt: Converters, section: string, vars: Options, origin: string): seq<Problem> {
    if section == "DEFAULT" || Known(spec, CurrentName(section)) then EachProblem(spec, rt, section, vars, origin)
    else [UnexpectedSection(CurrentName(section), origin)]
  }

  function FileProblems(spec: Spec, rt: Converters, ini: Ini, origin: string): seq<Problem> {
    if ini == [] then []
    else FileProblems(spec, rt, ini[..|ini| - 1], origin)
         + SectionProblems(spec, rt, ini[|ini| - 1].0, ini[|ini| - 1].1, origin)
  }

  lemma ReadVariableProblems(spec: Spec, rt: Converters, s: Settings, section: string,
          option: (string, Option<string>), origin: string)
    requires GoodSpec(spec) && Good(spec, s) && TakenUp(section, s.sections)
    ensures ReadVariable(spec, rt, s, section, option.0, option.1, origin).problems
            == s.problems + OptionProblems(spec, rt, section, option, origin)
  {
    var sec := CurrentName(section);
    KnownIsTakenUp(spec, s, section);
    if IsDynamic(sec) { NoColonWhenDynamic(sec); }
    if section != "DEFAULT" && ':' !in sec && !IsDynamic(sec) {
      NoColons(sec);
      StoredExactly(spec, s, sec, option.0);
    }
    assert s.problems + [] == s.problems;
  }

  /** In a base section that is not dynamic exactly the declared variables are
      stored. */
  lemma StoredExactly(spec: Spec, s: Settings, sec: string, name: string)
    requires GoodSpec(spec) && Good(spec, s) && IsBase(spec, sec) && ':' !in sec && !IsDynamic(sec)
    ensures VarsOf(spec, sec).Some?
    ensures (sec, name) in s.values <==> name in VarsOf(spec, sec).value
  {
    SpecOfFound(spec, sec);
    if (sec, name) in s.values { StoredIsDeclared(spec, s, sec, name); }
  }

  lemma {:induction false} ReadVariablesProblems(spec: Spec, rt: Converters, s: Settings, section: string,
          vars: Options, origin: string)
    requires GoodSpec(spec) && Good(spec, s) && origin != "" && TakenUp(section, s.sections)
    ensures ReadVariables(spec, rt, s, section, vars, origin).problems
            == s.problems + EachProblem(spec, rt, section, vars, origin)
  {
    if vars == [] {
    } else {
      var init, last := vars[..|vars| - 1], vars[|vars| - 1];
      ReadVariablesProblems(spec, rt, s, section, init, origin);
      ReadVariablesKeepsGood(spec, rt, s, section, init, origin);
      ReadVariableProblems(spec, rt, ReadVariables(spec, rt, s, section, init, origin), section, last, origin);
      Regroup(s.problems, EachProblem(spec, rt, section, init, origin),
          OptionProblems(spec, rt, section, last, origin));
    }
  }

  /** Reading a file leaves just these problems, in the order of the file. */
  lemma {:induction false} ReadIniProblems(spec: Spec, rt: Converters, ini: Ini, origin: string)
    requires GoodSpec(spec) && origin != ""
    ensures ReadIni(spec, rt, ini, origin).problems == FileProblems(spec, rt, ini, origin)
  {
    if ini == [] {
    } else {
      var init, last := ini[..|ini| - 1], ini[|ini| - 1];
      ReadIniProblems(spec, rt, init, origin);
      ReadIniIsGood(spec, rt, init, origin);
      var before := ReadIni(spec, rt, init, origin);
      KnownIsTakenUp(spec, before, last.0);
      if TakenUp(last.0, before.sections) {
        ReadVariablesProblems(spec, rt, before, last.0, last.1, origin);
      }
    }
  }

  /** The section leaves this problem: it is not known, or one of its options
      leaves it. */
  ghost predicate SectionLeaves(spec: Spec, rt: Converters, section: string, vars: Options, origin: string,
                                x: Problem) {
    if section == "DEFAULT" || Known(spec, CurrentName(section))
    then exists j :: 0 <= j < |vars| && Leaves(spec, rt, section, vars[j], origin, x)
    else x == UnexpectedSection(CurrentName(section), origin)
  }

  lemma {:induction false} InEachProblem(spec: Spec, rt: Converters, section: string, vars: Options, origin: string,
          x: Problem)
    ensures x in EachProblem(spec, rt, section, vars, origin)
            <==> exists j :: 0 <= j < |vars| && Leaves(spec, rt, section, vars[j], origin, x)
  {
    if vars == [] {
    } else {
      var init, last := vars[..|vars| - 1], vars[|vars| - 1];
      InEachProblem(spec, rt, section, init, origin, x);
      if x in EachProblem(spec, rt, section, init, origin) {
        var j :| 0 <= j < |init| && Leaves(spec, rt, section, init[j], origin, x);
        assert vars[j] == init[j];
      } else {
        forall j | 0 <= j < |init| ensures !Leaves(spec, rt, section, vars[j], origin, x) {
          assert init[j] == vars[j];
        }
      }
    }
  }

  /** A problem is reported exactly when some section of the file leaves it. */
  lemma {:induction false} ProblemsOfAFile(spec: Spec, rt: Converters, ini: Ini, origin: string, x: Problem)
    requires GoodSpec(spec) && origin != ""
    ensures x in ReadIni(spec, rt, ini, origin).problems
            <==> exists i :: 0 <= i < |ini| && SectionLeaves(spec, rt, ini[i].0, ini[i].1, origin, x)
  {
    ReadIniProblems(spec, rt, ini, origin);
    if ini == [] {
    } else {
      var init, last := ini[..|ini| - 1], ini[|ini| - 1];
      ReadIniProblems(spec, rt, init, origin);
      ProblemsOfAFile(spec, rt, init, origin, x);
      InEachProblem(spec, rt, last.0, last.1, origin, x);
      assert x in SectionProblems(spec, rt, last.0, last.1, origin)
             <==> SectionLeaves(spec, rt, last.0, last.1, origin, x);
      OneMoreLeaves(spec, rt, ini, origin, x);
    }
  }

  lemma OneMoreLeaves(spec: Spec, rt: Converters, ini: Ini, origin: string, x: Problem)
    requires ini != []
    ensures var init, last := ini[..|ini| - 1], ini[|ini| - 1];
            (exists i :: 0 <= i < |ini| && SectionLeaves(spec, rt, ini[i].0, ini[i].1, origin, x))
            <==> (exists i :: 0 <= i < |init| && SectionLeaves(spec, rt, init[i].0, init[i].1, origin, x))
                 || SectionLeaves(spec, rt, last.0, last.1, origin, x)
  {
    var init, last := ini[..|ini| - 1], ini[|ini| - 1];
    if i :| 0 <= i < |ini| && SectionLeaves(spec, rt, ini[i].0, ini[i].1, origin, x) {
      if i < |init| { assert init[i] == ini[i]; }
    }
    if i :| 0 <= i < |init| && SectionLeaves(spec, rt, init[i].0, init[i].1, origin, x) {
      assert init[i] == ini[i];
    }
    if SectionLeaves(spec, rt, last.0, last.1, origin, x) {
      assert 0 <= |ini| - 1 < |ini| && SectionLeaves(spec, rt, ini[|ini| - 1].0, ini[|ini| - 1].1, origin, x);
    }
  }
}
