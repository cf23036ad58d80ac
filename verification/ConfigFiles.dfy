/** Reading one configuration file (Configuration.from_ini_file and from_path)
    and the declared sections and variables (CONFIG_SPEC). */
module ConfigFiles {
  import opened Base
  import opened Configuration

  /** The options of a section, as its `items()` gives them out. An option has no
      value where reading the value raises, as interpolating `50%` does. */
  type Options = seq<(string, Option<string>)>

  /** A parsed ini file: its sections with their options, in file order. */
  type Ini = seq<(string, Options)>

  /** The deprecated name of the agent section. */
  function CurrentName(section: string): string {
    if section == "daemon" then "agent" else section
  }

  /** Each variable of a section goes through `set_value` unless the section
      already shows that it is unexpected. The variables of the section DEFAULT
      are not read. */
  function ReadVariable(spec: Spec, rt: Converters, s: Settings, section: string, name: string,
          raw: Option<string>, origin: string): Settings
  {
    if section == "DEFAULT" then Noticed(s, DefaultIgnored(name))
    else if raw.None? then s
    else
      var sec := CurrentName(section);
      if ':' !in sec && (sec, name) !in s.values && !IsDynamic(sec)
      then Noticed(s, UnexpectedVariable(name, sec, origin))
      else SetValueOf(spec, rt, s, sec, name, raw.value, origin).0
  }

  function ReadVariables(spec: Spec, rt: Converters, s: Settings, section: string, vars: Options,
          origin: string): Settings
  {
    if vars == [] then s
    else
      var init, last := vars[..|vars| - 1], vars[|vars| - 1];
      ReadVariable(spec, rt, ReadVariables(spec, rt, s, section, init, origin), section, last.0, last.1, origin)
  }

  function ReadSection(spec: Spec, rt: Converters, s: Settings, section: string, vars: Options,
          origin: string): Settings
  {
    var sec := CurrentName(section);
    if section != "DEFAULT" && ':' !in sec && sec !in s.sections then Noticed(s, UnexpectedSection(sec, origin))
    else ReadVariables(spec, rt, s, section, vars, origin)
  }

  function ReadIni(spec: Spec, rt: Converters, ini: Ini, origin: string): Settings {
    if ini == [] then Fresh(spec, origin)
    else
      var init, last := ini[..|ini| - 1], ini[|ini| - 1];
      ReadSection(spec, rt, ReadIni(spec, rt, init, origin), last.0, last.1, origin)
  }

  /** Taking up a variable raises: its value cannot be read, or the section name
      has a second colon, which `set_value` does not expect. */
  predicate RaisesOnVariable(section: string, raw: Option<string>) {
    section != "DEFAULT" && (raw.None? || Colons(CurrentName(section)) > 1)
  }

  predicate RaisesOnSome(section: string, vars: Options) {
    exists i | 0 <= i < |vars| :: RaisesOnVariable(section, vars[i].1)
  }

  /** Reading a section raises. The variables of a plain section are taken up
      only if the section is one of the base sections. */
  predicate RaisesOnSection(spec: Spec, section: string, vars: Options) {
    (':' in CurrentName(section) || IsBase(spec, CurrentName(section))) && RaisesOnSome(section, vars)
  }

  /** Reading a file raises: the parser refuses it, or it has such a section. */
  predicate RaisesOn(spec: Spec, parsed: Option<Ini>) {
    parsed.None? || exists i | 0 <= i < |parsed.value| ::
      RaisesOnSection(spec, parsed.value[i].0, parsed.value[i].1)
  }

  lemma RaisesOnMore(spec: Spec, ini: Ini, entry: (string, Options))
    ensures RaisesOn(spec, Some(ini + [entry]))
            <==> RaisesOn(spec, Some(ini)) || RaisesOnSection(spec, entry.0, entry.1)
  {
    var more := ini + [entry];
    assert more[|ini|] == entry && forall i | 0 <= i < |ini| :: more[i] == ini[i];
  }

  lemma {:induction false} ColonsMeanColon(s: string)
    ensures Colons(s) > 0 ==> ':' in s
  {
    if s == "" {
    } else {
      ColonsMeanColon(s[1..]);
    }
  }

  /** The variables of the section are looked at. */
  predicate TakenUp(section: string, sections: set<string>) {
    section == "DEFAULT" || ':' in CurrentName(section) || CurrentName(section) in sections
  }

  lemma ReadVariableKeepsGood(spec: Spec, rt: Converters, s: Settings, section: string, name: string,
          raw: Option<string>, origin: string)
    requires GoodSpec(spec) && Good(spec, s) && origin != ""
    requires TakenUp(section, s.sections)
    ensures var r := ReadVariable(spec, rt, s, section, name, raw, origin);
            Good(spec, r) && s.sections <= r.sections && r.sources == s.sources
  {
    if raw.Some? { SetValueKeepsGood(spec, rt, s, CurrentName(section), name, raw.value, origin); }
  }

  /** After the checks of `from_ini_file` only a second colon makes `set_value`
      raise. */
  lemma RaisesOnSecondColon(spec: Spec, rt: Converters, s: Settings, sec: string, name: string, raw: string,
          origin: string)
    requires GoodSpec(spec) && Good(spec, s)
    requires ':' in sec || (sec in s.sections && ((sec, name) in s.values || IsDynamic(sec)))
    ensures SetValueOf(spec, rt, s, sec, name, raw, origin).1 == Raises <==> Colons(sec) > 1
  {
    if IsDynamic(sec) {
      NoColonWhenDynamic(sec);
    } else if ':' !in sec {
      StoredIsDeclared(spec, s, sec, name);
    }
    RaisesOnlyThen(spec, rt, s, sec, name, raw, origin);
  }

  lemma RaisesOnlyThen(spec: Spec, rt: Converters, s: Settings, sec: string, name: string, raw: string,
          origin: string)
    requires ':' !in sec ==> sec in s.sections
    requires IsDynamic(sec) ==> ':' !in sec
    requires !IsDynamic(sec) && ':' !in sec ==> VarsOf(spec, sec).Some? && name in VarsOf(spec, sec).value
    ensures SetValueOf(spec, rt, s, sec, name, raw, origin).1 == Raises <==> Colons(sec) > 1
  {
    ColonsMeanColon(sec);
  }

  lemma NoColonWhenDynamic(sec: string)
    requires IsDynamic(sec)
    ensures ':' !in sec
  {
  }

  lemma StoredIsDeclared(spec: Spec, s: Settings, sec: string, name: string)
    requires Good(spec, s) && (sec, name) in s.values && !IsDynamic(sec)
    ensures VarsOf(spec, sec).Some? && name in VarsOf(spec, sec).value
  {
    assert GoodEntry(spec, (sec, name), s.values[(sec, name)], s.origins[(sec, name)]);
  }

  lemma {:induction false} ReadVariablesKeepsGood(spec: Spec, rt: Converters, s: Settings, section: string,
          vars: Options, origin: string)
    requires GoodSpec(spec) && Good(spec, s) && origin != ""
    requires TakenUp(section, s.sections)
    ensures var r := ReadVariables(spec, rt, s, section, vars, origin);
            Good(spec, r) && s.sections <= r.sections && r.sources == s.sources
  {
    if vars == [] {
    } else {
      var init, last := vars[..|vars| - 1], vars[|vars| - 1];
      ReadVariablesKeepsGood(spec, rt, s, section, init, origin);
      var before := ReadVariables(spec, rt, s, section, init, origin);
      ReadVariableKeepsGood(spec, rt, before, section, last.0, last.1, origin);
    }
  }

  /** Whatever a file says, what is read from it is a good configuration. */
  lemma {:induction false} ReadIniIsGood(spec: Spec, rt: Converters, ini: Ini, origin: string)
    requires GoodSpec(spec) && origin != ""
    ensures Good(spec, ReadIni(spec, rt, ini, origin)) && ReadIni(spec, rt, ini, origin).sources == [origin]
  {
    if ini == [] {
      FreshIsGood(spec, origin);
    } else {
      var init, last := ini[..|ini| - 1], ini[|ini| - 1];
      ReadIniIsGood(spec, rt, init, origin);
      var s := ReadIni(spec, rt, init, origin);
      var sec := CurrentName(last.0);
      if TakenUp(last.0, s.sections) {
        ReadVariablesKeepsGood(spec, rt, s, last.0, last.1, origin);
      }
    }
  }

  /** `from_ini_file`, on what the parser makes of the file: None where it refuses
      the file. A result None stands for an uncaught exception. */
  method FromIni(spec: Spec, rt: Converters, parsed: Option<Ini>, origin: string) returns (r: Option<Configuration>)
    requires GoodSpec(spec) && origin != ""
    ensures r.None? <==> RaisesOn(spec, parsed)
    ensures r.Some? ==> fresh(r.value) && r.value.Valid() && r.value.spec == spec
                        && r.value.Contents() == ReadIni(spec, rt, parsed.value, origin)
  {
    if parsed.None? {
      return None;
    }
    var ini := parsed.value;
    var cfg := new Configuration(spec, rt, origin);
    for i := 0 to |ini|
      invariant fresh(cfg) && cfg.Valid() && cfg.spec == spec && cfg.rt == rt
      invariant cfg.Contents() == ReadIni(spec, rt, ini[..i], origin)
      invariant !RaisesOn(spec, Some(ini[..i]))
    {
      TakeMore(ini, i);
      RaisesOnMore(spec, ini[..i], ini[i]);
      assert ini[..i + 1][..i] == ini[..i];
      var raised := ReadOneSection(cfg, ini[i].0, ini[i].1, origin);
      if raised {
        return None;
      }
    }
    TakeAll(ini);
    r := Some(cfg);
  }

  method ReadOneSection(cfg: Configuration, section: string, vars: Options, origin: string)
    returns (raised: bool)
    requires cfg.Valid() && origin != ""
    modifies cfg`sections, cfg`values, cfg`origins, cfg`problems
    ensures raised <==> RaisesOnSection(cfg.spec, section, vars)
    ensures cfg.Valid()
    ensures !raised ==> cfg.Contents() == ReadSection(cfg.spec, cfg.rt, old(cfg.Contents()), section, vars, origin)
  {
    var sec := CurrentName(section);
    ColonsMeanColon(sec);
    if section != "DEFAULT" && ':' !in sec && sec !in cfg.sections {
      cfg.NoticeProblem(UnexpectedSection(sec, origin));
      return false;
    }
    if section == "DEFAULT" {
      DefaultNeverRaises(vars);
    }
    raised := ReadEach(cfg, section, vars, origin);
  }

  lemma DefaultNeverRaises(vars: Options)
    ensures !RaisesOnSome("DEFAULT", vars)
  {
  }

  /** The loops over the variables of a section. */
  method ReadEach(cfg: Configuration, section: string, vars: Options, origin: string) returns (raised: bool)
    requires cfg.Valid() && origin != "" && TakenUp(section, cfg.sections)
    modifies cfg`sections, cfg`values, cfg`origins, cfg`problems
    ensures raised <==> RaisesOnSome(section, vars)
    ensures cfg.Valid()
    ensures !raised ==> cfg.Contents() == ReadVariables(cfg.spec, cfg.rt, old(cfg.Contents()), section, vars, origin)
  {
    ghost var start := cfg.Contents();
    for i := 0 to |vars|
      invariant cfg.Valid() && TakenUp(section, cfg.sections)
      invariant cfg.Contents() == ReadVariables(cfg.spec, cfg.rt, start, section, vars[..i], origin)
      invariant !RaisesOnSome(section, vars[..i])
    {
      OneMoreVariable(cfg.spec, cfg.rt, start, section, vars, i, origin);
      raised := ReadOneVariable(cfg, section, vars[i].0, vars[i].1, origin);
      if raised {
        return;
      }
    }
    TakeAll(vars);
    raised := false;
  }

  lemma OneMoreVariable(spec: Spec, rt: Converters, s: Settings, section: string, vars: Options, i: nat,
          origin: string)
    requires i < |vars|
    ensures ReadVariables(spec, rt, s, section, vars[..i + 1], origin)
            == ReadVariable(spec, rt, ReadVariables(spec, rt, s, section, vars[..i], origin), section,
                            vars[i].0, vars[i].1, origin)
    ensures RaisesOnSome(section, vars[..i + 1])
            <==> RaisesOnSome(section, vars[..i]) || RaisesOnVariable(section, vars[i].1)
    ensures RaisesOnVariable(section, vars[i].1) ==> RaisesOnSome(section, vars)
  {
    TakeMore(vars, i);
    assert vars[..i + 1][..i] == vars[..i];
  }

  method ReadOneVariable(cfg: Configuration, section: string, name: string, raw: Option<string>, origin: string)
    returns (raised: bool)
    requires cfg.Valid() && origin != "" && TakenUp(section, cfg.sections)
    modifies cfg`sections, cfg`values, cfg`origins, cfg`problems
    ensures raised <==> RaisesOnVariable(section, raw)
    ensures cfg.Valid() && TakenUp(section, cfg.sections)
    ensures cfg.Contents() == ReadVariable(cfg.spec, cfg.rt, old(cfg.Contents()), section, name, raw, origin)
  {
    var sec := CurrentName(section);
    ColonsMeanColon(sec);
    raised := false;
    if section == "DEFAULT" {
      cfg.NoticeProblem(DefaultIgnored(name));
    } else if raw.None? {
      raised := true;
    } else if ':' !in sec && (sec, name) !in cfg.values && !IsDynamic(sec) {
      cfg.NoticeProblem(UnexpectedVariable(name, sec, origin));
    } else {
      RaisesOnSecondColon(cfg.spec, cfg.rt, cfg.Contents(), sec, name, raw.value, origin);
      var how := cfg.SetValue(sec, name, raw.value, origin);
      raised := how == Raises;
    }
  }

  // ----- CONFIG_SPEC -----

  const CONFIG: SectionSpec := Static(map["config_filename" := VarSpec(StrKind, Str("checkbox.conf"))])

  const LAUNCHER: SectionSpec := Static(map[
    "launcher_version" := VarSpec(IntKind, Int(1)),
    "app_id" := VarSpec(StrKind, Str("checkbox-cli")),
    "app_version" := VarSpec(StrKind, Str("")),
    "stock_reports" := VarSpec(ListKind, List(["text", "certification", "submission_files"])),
    "local_submission" := VarSpec(BoolKind, Bool(true)),
    "session_title" := VarSpec(StrKind, Str("session title")),
    "session_desc" := VarSpec(StrKind, Str(""))])

  const TEST_PLAN: SectionSpec := Static(map[
    "filter" := VarSpec(ListKind, List(["*"])),
    "unit" := VarSpec(StrKind, Str("")),
    "forced" := VarSpec(BoolKind, Bool(false))])

  const TEST_SELECTION: SectionSpec := Static(map[
    "forced" := VarSpec(BoolKind, Bool(false)),
    "exclude" := VarSpec(ListKind, List([]))])

  const UI: SectionSpec := Static(map[
    "type" := VarSpec(StrKind, Str("interactive")),
    "output" := VarSpec(StrKind, Str("show")),
    "dont_suppress_output" := VarSpec(BoolKind, Bool(false)),
    "verbosity" := VarSpec(StrKind, Str("normal")),
    "auto_retry" := VarSpec(BoolKind, Bool(false)),
    "max_attempts" := VarSpec(IntKind, Int(3)),
    "delay_before_retry" := VarSpec(IntKind, Int(1))])

  const AGENT: SectionSpec := Static(map["normal_user" := VarSpec(StrKind, Str(""))])

  const RESTART: SectionSpec := Static(map["strategy" := VarSpec(StrKind, Str(""))])

  const REPORT: SectionSpec := Parametric(map[
    "exporter" := VarSpec(StrKind, Str("")),
    "transport" := VarSpec(StrKind, Str("")),
    "forced" := VarSpec(BoolKind, Bool(false))])

  const TRANSPORT: SectionSpec := Parametric(map[
    "type" := VarSpec(StrKind, Str("")),
    "stream" := VarSpec(StrKind, Str("stdout")),
    "path" := VarSpec(StrKind, Str("")),
    "secure_id" := VarSpec(StrKind, Str("")),
    "staging" := VarSpec(BoolKind, Bool(false))])

  const EXPORTER: SectionSpec := Parametric(map[
    "unit" := VarSpec(StrKind, Str("")),
    "options" := VarSpec(ListKind, List([]))])

  const SECTION_NAMES: seq<string> := [
    "config", "launcher", "test plan", "test selection", "ui", "agent", "restart",
    "report", "transport", "exporter", "environment", "manifest"]

  const SECTION_SPECS: seq<SectionSpec> := [
    CONFIG, LAUNCHER, TEST_PLAN, TEST_SELECTION, UI, AGENT, RESTART,
    REPORT, TRANSPORT, EXPORTER, Dynamic, Dynamic]

  /** The sections in the order of the source, each with its variables. */
  const CONFIG_SPEC: Spec := seq(12, i requires 0 <= i < 12 => (SECTION_NAMES[i], SECTION_SPECS[i]))

  predicate DefaultsFit(x: SectionSpec) {
    x.Dynamic? || forall n | n in x.vars :: KindOf(x.vars[n].default) == x.vars[n].kind
  }

  lemma LauncherFits()
    ensures DefaultsFit(LAUNCHER)
  {
  }

  lemma UiFits()
    ensures DefaultsFit(UI)
  {
  }

  lemma TestSectionsFit()
    ensures DefaultsFit(TEST_PLAN) && DefaultsFit(TEST_SELECTION)
  {
  }

  lemma SmallSectionsFit()
    ensures DefaultsFit(CONFIG) && DefaultsFit(AGENT) && DefaultsFit(RESTART)
  {
  }

  lemma ParametricFit()
    ensures DefaultsFit(REPORT) && DefaultsFit(EXPORTER)
  {
  }

  lemma TransportFits()
    ensures DefaultsFit(TRANSPORT)
  {
  }

  lemma SectionsFit(i: nat)
    requires i < 12
    ensures DefaultsFit(SECTION_SPECS[i])
  {
    LauncherFits();
    UiFits();
    TestSectionsFit();
    SmallSectionsFit();
    ParametricFit();
    TransportFits();
  }

  lemma NamesDiffer(i: nat, j: nat)
    requires i < j < 12
    ensures SECTION_NAMES[i] != SECTION_NAMES[j]
  {
    assert |"config"| == 6 && |"launcher"| == 8 && |"test plan"| == 9 && |"test selection"| == 14 && |"ui"| == 2;
    assert |"agent"| == 5 && |"restart"| == 7 && |"report"| == 6 && |"transport"| == 9 && |"exporter"| == 8;
    assert |"environment"| == 11 && |"manifest"| == 8;
    assert "config"[0] != "report"[0] && "launcher"[0] != "exporter"[0] && "launcher"[0] != "manifest"[0];
    assert "exporter"[0] != "manifest"[0] && "test plan"[1] != "transport"[1];
  }

  lemma NamesPlain(i: nat)
    requires i < 12
    ensures SECTION_SPECS[i].Dynamic? <==> i >= 10
    ensures ':' !in SECTION_NAMES[i] && (IsDynamic(SECTION_NAMES[i]) <==> i >= 10)
  {
    if i < 10 {
      NamesDiffer(i, 10);
      NamesDiffer(i, 11);
    }
  }

  /** The declared specification is one the configuration store can rely on. */
  lemma ConfigSpecIsGood()
    ensures GoodSpec(CONFIG_SPEC)
  {
    forall i, j | 0 <= i < j < 12 ensures CONFIG_SPEC[i].0 != CONFIG_SPEC[j].0 { NamesDiffer(i, j); }
    forall i | 0 <= i < 12
      ensures ':' !in CONFIG_SPEC[i].0 && (CONFIG_SPEC[i].1.Dynamic? <==> IsDynamic(CONFIG_SPEC[i].0))
      ensures DefaultsFit(CONFIG_SPEC[i].1)
    {
      NamesPlain(i);
      SectionsFit(i);
    }
    SpecOfMember(CONFIG_SPEC, 0);
    SpecOfMember(CONFIG_SPEC, 10);
    SpecOfMember(CONFIG_SPEC, 11);
    assert CONFIG_SPEC[0] == ("config", CONFIG);
    assert CONFIG_SPEC[10].0 == "environment" && CONFIG_SPEC[11].0 == "manifest";
  }

  /** Reading is documented not to raise. A value that cannot be interpolated
      makes it raise, but in a section that is not known it does no harm. */
  lemma UnreadableValueRaises()
    ensures RaisesOn(CONFIG_SPEC, Some([("environment", [("FOO", None)])]))
    ensures !RaisesOn(CONFIG_SPEC, Some([("pasta", [("FOO", None)])]))
  {
    EnvironmentIsBase();
    UnknownIsNotBase();
    OneVariable(CONFIG_SPEC, "environment", "FOO", None);
    OneVariable(CONFIG_SPEC, "pasta", "FOO", None);
  }

  /** So does any section name with a second colon, whatever its variable says. */
  lemma SecondColonRaises(a: string, b: string, c: string, name: string, raw: Option<string>)
    ensures RaisesOn(CONFIG_SPEC, Some([(a + ":" + b + ":" + c, [(name, raw)])]))
  {
    var section := a + ":" + b + ":" + c;
    ColonsJoin(a, b, c);
    assert ':' !in "daemon" && ':' !in "DEFAULT";
    OneVariable(CONFIG_SPEC, section, name, raw);
  }

  lemma ColonsJoin(a: string, b: string, c: string)
    ensures var s := a + ":" + b + ":" + c;
            Colons(s) > 1 && ':' in s
  {
    var s := a + ":" + b + ":" + c;
    assert s[|a|] == ':';
    assert a + ":" + b + ":" + c == a + ":" + (b + ":" + c);
    ColonsAfter(a, b + ":" + c);
    ColonsAfter(b, c);
  }

  lemma {:induction false} ColonsAfter(a: string, b: string)
    ensures Colons(a + ":" + b) >= 1 + Colons(b)
  {
    var s := a + ":" + b;
    if a == "" {
      assert s[1..] == b;
    } else {
      assert s[1..] == a[1..] + ":" + b;
      ColonsAfter(a[1..], b);
    }
  }

  lemma OneVariable(spec: Spec, section: string, name: string, raw: Option<string>)
    requires CurrentName(section) == section
    ensures RaisesOn(spec, Some([(section, [(name, raw)])]))
            <==> (':' in section || IsBase(spec, section)) && RaisesOnVariable(section, raw)
  {
    var vars: Options := [(name, raw)];
    assert vars[0] == (name, raw);
    assert [(section, vars)][0] == (section, vars);
  }

  lemma EnvironmentIsBase()
    ensures IsBase(CONFIG_SPEC, "environment")
  {
    ConfigSpecIsGood();
    SpecOfMember(CONFIG_SPEC, 10);
    assert CONFIG_SPEC[10] == ("environment", Dynamic);
  }

  lemma UnknownIsNotBase()
    ensures !IsBase(CONFIG_SPEC, "pasta")
  {
    SpecOfFound(CONFIG_SPEC, "pasta");
    forall i | 0 <= i < 12 ensures CONFIG_SPEC[i].0 != "pasta" {
      assert |"pasta"| == 5 && |"agent"| == 5 && "pasta"[0] != "agent"[0];
      assert SECTION_NAMES[i] != "pasta";
    }
  }
}
