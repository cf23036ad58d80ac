/** The next release version (tools/release/get_version.py). */
module Version {
  import opened Base
  import opened Debian

  datatype Format = DEB | TAG | SNAP

  datatype Trace = Breaking | New | Bugfix | Infra

  datatype Problem = BadMessage(message: string) | BadVersion(version: string) | NothingToRelease

  /** The text functions of the Python runtime: `str.lower`, and `int`, which may
      raise ValueError. */
  datatype Runtime = Runtime(lower: string -> string, toInt: string -> Option<int>)

  ghost predicate ReadsDecimals(rt: Runtime) {
    forall n: nat :: rt.toInt(Decimal(n)) == Some(n)
  }

  // ----- Categories of commits -----

  function Severity(t: Trace): nat {
    match t case Infra => 0 case Bugfix => 1 case New => 2 case Breaking => 3
  }

  /** Python's `max`, which keeps its first argument unless that is less. */
  function Max(a: Trace, b: Trace): Trace {
    if Severity(a) < Severity(b) then b else a
  }

  function Without(s: string, drop: set<char>): (r: string)
    ensures forall c :: c in r <==> c in s && c !in drop
    ensures (forall c | c in s :: c !in drop) ==> r == s
  {
    if s == "" then "" else (if s[0] in drop then [] else [s[0]]) + Without(s[1..], drop)
  }

  function ParseTrace(rt: Runtime, text: string): Option<Trace> {
    var name := rt.lower(Without(text, {'(', ')'}));
    if name == "breaking" then Some(Breaking)
    else if name == "new" then Some(New)
    else if name == "bugfix" then Some(Bugfix)
    else if name == "infra" then Some(Infra)
    else None
  }

  function LastSpace(s: string): (i: int)
    ensures -1 <= i < |s| && (i >= 0 ==> s[i] == ' ') && ' ' !in s[i + 1..]
  {
    if s == "" then -1
    else if s[|s| - 1] == ' ' then |s| - 1
    else LastSpace(s[..|s| - 1])
  }

  /** The last word but one, for a message that has two. */
  function TraceText(message: string): string
    requires ' ' in message
  {
    var head := message[..LastSpace(message)];
    head[LastSpace(head) + 1..]
  }

  /** A message with no space makes the unpacking raise. */
  predicate Splits(message: string) {
    ' ' in message
  }

  predicate AllSplit(history: seq<string>) {
    forall m | m in history :: Splits(m)
  }

  ghost predicate FirstUnsplit(history: seq<string>, i: int) {
    0 <= i < |history| && !Splits(history[i]) && AllSplit(history[..i])
  }

  /** The category that a message names, if any. */
  function Categories(rt: Runtime): string -> Option<Trace> {
    (message: string) => if Splits(message) then ParseTrace(rt, TraceText(message)) else None
  }

  /** The messages that name no category. */
  function Uncategorized(category: string -> Option<Trace>, history: seq<string>): seq<string> {
    if history == [] then []
    else Uncategorized(category, history[..|history| - 1])
         + if category(history[|history| - 1]).None? then [history[|history| - 1]] else []
  }

  /** The greatest category of the history, infra if there is none. */
  ghost predicate IsNeededBump(category: string -> Option<Trace>, history: seq<string>, bump: Trace) {
    && (forall m | m in history && category(m).Some? :: Severity(category(m).value) <= Severity(bump))
    && (bump == Infra || exists m :: m in history && category(m) == Some(bump))
  }

  method GetNeededBump(rt: Runtime, history: seq<string>) returns (bump: Result<Trace, Problem>, failed: seq<string>)
    ensures bump.Success? <==> AllSplit(history)
    ensures bump.Success? ==> IsNeededBump(Categories(rt), history, bump.value)
                              && failed == Uncategorized(Categories(rt), history)
    ensures bump.Failure? ==>
              bump.error.BadMessage? && exists i :: FirstUnsplit(history, i) && bump.error.message == history[i]
  {
    ghost var category := Categories(rt);
    var needed := Infra;
    failed := [];
    for i := 0 to |history|
      invariant AllSplit(history[..i])
      invariant IsNeededBump(category, history[..i], needed)
      invariant failed == Uncategorized(category, history[..i])
    {
      var message := history[i];
      TakeMore(history, i);
      if !Splits(message) {
        assert FirstUnsplit(history, i);
        return Failure(BadMessage(message)), failed;
      }
      BumpOneMore(category, history[..i], needed, message);
      match ParseTrace(rt, TraceText(message))
      case None =>
        failed := failed + [message];
      case Some(trace) =>
        needed := Max(needed, trace);
    }
    TakeAll(history);
    bump := Success(needed);
  }

  lemma BumpOneMore(category: string -> Option<Trace>, history: seq<string>, bump: Trace, message: string)
    requires IsNeededBump(category, history, bump)
    ensures var trace, more := category(message), history + [message];
            && IsNeededBump(category, more, if trace.None? then bump else Max(bump, trace.value))
            && Uncategorized(category, more) == Uncategorized(category, history) + if trace.None? then [message] else []
  {
    var trace, more := category(message), history + [message];
    assert more[..|more| - 1] == history;
    assert message in more;
    if bump != Infra {
      var m :| m in history && category(m) == Some(bump);
      assert m in more;
    }
  }

  /** There is one needed bump, and it depends neither on the order of the
      commits nor on how often one is listed. */
  lemma BumpIgnoresOrder(category: string -> Option<Trace>, history: seq<string>, other: seq<string>, a: Trace,
          b: Trace)
    requires forall m :: m in history <==> m in other
    requires IsNeededBump(category, history, a) && IsNeededBump(category, other, b)
    ensures a == b
  {
  }

  /** The messages that name no category are reported as often as they occur. */
  lemma {:induction false} UncategorizedMeaning(category: string -> Option<Trace>, history: seq<string>, m: string)
    ensures multiset(Uncategorized(category, history))[m]
            == if category(m).None? then multiset(history)[m] else 0
  {
    if history == [] {
    } else {
      var init, last := history[..|history| - 1], history[|history| - 1];
      assert history == init + [last];
      UncategorizedMeaning(category, init, m);
    }
  }

  lemma {:induction false} LastSpaceAt(a: string, b: string)
    requires ' ' !in b
    ensures LastSpace(a + " " + b) == |a|
  {
    var s := a + " " + b;
    if b == "" {
      assert s[|s| - 1] == ' ';
    } else {
      var init := b[..|b| - 1];
      assert s[..|s| - 1] == a + " " + init && s[|s| - 1] == b[|b| - 1];
      assert b[|b| - 1] in b && forall c | c in init :: c in b;
      LastSpaceAt(a, init);
    }
  }

  /** A message in the documented form, a title and then a category in
      parentheses and a reference, names that category, whatever its letters;
      and so does one without a title. Any other word names none. */
  lemma MessageNamesCategory(rt: Runtime, title: string, word: string, pr: string)
    requires ' ' !in word && '(' !in word && ')' !in word && ' ' !in pr
    ensures var category := Categories(rt)(title + " (" + word + ") " + pr);
            && (rt.lower(word) == "breaking" ==> category == Some(Breaking))
            && (rt.lower(word) == "new" ==> category == Some(New))
            && (rt.lower(word) == "bugfix" ==> category == Some(Bugfix))
            && (rt.lower(word) == "infra" ==> category == Some(Infra))
            && (rt.lower(word) !in {"breaking", "new", "bugfix", "infra"} ==> category == None)
    ensures Categories(rt)("(" + word + ") " + pr) == Categories(rt)(title + " (" + word + ") " + pr)
  {
    MarkedIsText(title, word, pr);
    MarkedAlone(word, pr);
    ParsedWord(rt, word);
  }

  lemma ParsedWord(rt: Runtime, word: string)
    requires '(' !in word && ')' !in word
    ensures var category := ParseTrace(rt, "(" + word + ")");
            && (rt.lower(word) == "breaking" ==> category == Some(Breaking))
            && (rt.lower(word) == "new" ==> category == Some(New))
            && (rt.lower(word) == "bugfix" ==> category == Some(Bugfix))
            && (rt.lower(word) == "infra" ==> category == Some(Infra))
            && (rt.lower(word) !in {"breaking", "new", "bugfix", "infra"} ==> category == None)
  {
    BareWord(word);
    assert "breaking"[0] != "new"[0] && "breaking"[1] != "bugfix"[1];
  }

  lemma MarkedIsText(title: string, word: string, pr: string)
    requires ' ' !in word && ' ' !in pr
    ensures var message := title + " (" + word + ") " + pr;
            Splits(message) && TraceText(message) == "(" + word + ")"
  {
    var message, marked := title + " (" + word + ") " + pr, "(" + word + ")";
    var head := title + " " + marked;
    assert message == head + " " + pr;
    assert message[|head|] == ' ';
    LastSpaceAt(head, pr);
    assert message[..|head|] == head;
    LastSpaceAt(title, marked);
    assert head[|title| + 1..] == marked;
  }

  lemma MarkedAlone(word: string, pr: string)
    requires ' ' !in word && ' ' !in pr
    ensures var message := "(" + word + ") " + pr;
            Splits(message) && TraceText(message) == "(" + word + ")"
  {
    var message, marked := "(" + word + ") " + pr, "(" + word + ")";
    assert message == marked + " " + pr;
    assert message[|marked|] == ' ';
    LastSpaceAt(marked, pr);
    assert message[..|marked|] == marked;
    NoSpaceAtAll(marked);
    assert marked[0..] == marked;
  }

  lemma NoSpaceAtAll(s: string)
    requires ' ' !in s
    ensures LastSpace(s) == -1
  {
  }

  lemma BareWord(word: string)
    requires '(' !in word && ')' !in word
    ensures Without("(" + word + ")", {'(', ')'}) == word
  {
    var s := "(" + word + ")";
    assert s[1..] == word + ")";
    WithoutLast(word);
  }

  lemma {:induction false} WithoutLast(word: string)
    requires '(' !in word && ')' !in word
    ensures Without(word + ")", {'(', ')'}) == word
  {
    var s := word + ")";
    if word == "" {
      assert s[1..] == "";
    } else {
      assert s[1..] == word[1..] + ")" && word[0] in word;
      assert forall c | c in word[1..] :: c in word;
      WithoutLast(word[1..]);
    }
  }

  // ----- Versions -----

  datatype Triple = Triple(major: int, minor: int, patch: int)

  predicate Stable(t: Triple) {
    t.major >= 0 && t.minor >= 0 && t.patch >= 0
  }

  /** Python's `str` on an integer. */
  function Text(n: int): string {
    if n < 0 then "-" + Decimal(-n) else Decimal(n)
  }

  function Show(t: Triple): string {
    Text(t.major) + "." + Text(t.minor) + "." + Text(t.patch)
  }

  function Order(a: Triple, b: Triple): int {
    if a.major != b.major then Sign(a.major, b.major)
    else if a.minor != b.minor then Sign(a.minor, b.minor)
    else Sign(a.patch, b.patch)
  }

  /** `s.split(".")` */
  function SplitDots(s: string): seq<string>
    decreases |s|
  {
    if '.' !in s then [s] else [s[..IndexOf(s, '.')]] + SplitDots(s[IndexOf(s, '.') + 1..])
  }

  /** The three numbers of a version, or None where the code raises. */
  function ReadVersion(rt: Runtime, version: string): Option<Triple> {
    var parts := SplitDots(Without(version, {'v'}));
    if |parts| != 3 then None
    else match (rt.toInt(parts[0]), rt.toInt(parts[1]), rt.toInt(parts[2]))
      case (Some(major), Some(minor), Some(patch)) => Some(Triple(major, minor, patch))
      case _ => None
  }

  function Bumped(t: Triple, bump: Trace): Triple {
    match bump
    case Breaking => Triple(t.major + 1, 0, 0)
    case New => Triple(t.major, t.minor + 1, 0)
    case Bugfix => Triple(t.major, t.minor, t.patch + 1)
    case Infra => t
  }

  method BumpVersion(rt: Runtime, version: string, bump: Trace, format: Format) returns (r: Result<string, Problem>)
    ensures match ReadVersion(rt, version)
            case None => r == Failure(BadVersion(version))
            case Some(t) => r == Success((if format == TAG then "v" else "") + Show(Bumped(t, bump)))
  {
    var read := ReadVersion(rt, version);
    if read == None {
      return Failure(BadVersion(version));
    }
    var major, minor, patch := read.value.major, read.value.minor, read.value.patch;
    match bump {
      case Breaking =>
        major, minor, patch := major + 1, 0, 0;
      case New =>
        minor, patch := minor + 1, 0;
      case Bugfix =>
        patch := patch + 1;
      case Infra =>
    }
    var prefix := if format == TAG then "v" else "";
    r := Success(prefix + Show(Triple(major, minor, patch)));
  }

  function AddDevSuffix(version: string, count: nat, format: Format): string {
    version + (if format == DEB then "~" else "-") + "dev" + Decimal(count)
  }

  /** `get_version`, given the last tag and the history since it. */
  method GetVersion(rt: Runtime, tag: string, history: seq<string>, devSuffix: bool, format: Format)
    returns (r: Result<string, Problem>)
    ensures !AllSplit(history) ==> r.Failure? && r.error.BadMessage?
    ensures AllSplit(history) && IsNeededBump(Categories(rt), history, Infra) ==> r == Failure(NothingToRelease)
    ensures forall bump | AllSplit(history) && bump != Infra && IsNeededBump(Categories(rt), history, bump) ::
              match ReadVersion(rt, tag)
              case None => r == Failure(BadVersion(tag))
              case Some(t) => r == Success(Release(t, bump, if devSuffix then Some(|history|) else None, format))
  {
    var needed, _ := GetNeededBump(rt, history);
    if needed.Failure? {
      return Failure(needed.error);
    }
    forall other | IsNeededBump(Categories(rt), history, other) ensures other == needed.value {
      BumpIgnoresOrder(Categories(rt), history, history, other, needed.value);
    }
    if needed.value == Infra {
      return Failure(NothingToRelease);
    }
    r := BumpVersion(rt, tag, needed.value, format);
    if r.Success? && devSuffix {
      r := Success(AddDevSuffix(r.value, |history|, format));
    }
  }

  /** The version given to a release, or to a snapshot so many commits in. */
  function Release(t: Triple, bump: Trace, commits: Option<nat>, format: Format): string {
    var version := (if format == TAG then "v" else "") + Show(Bumped(t, bump));
    if commits.Some? then AddDevSuffix(version, commits.value, format) else version
  }

  // ----- What a bump means -----

  /** The parts below the bumped one are zero. */
  predicate Fits(t: Triple, bump: Trace) {
    (Severity(bump) >= 2 ==> t.patch == 0) && (Severity(bump) >= 3 ==> t.minor == 0)
  }

  /** A bump goes to the least later version with zeros below the bumped part. */
  lemma BumpedIsLeast(t: Triple, bump: Trace, u: Triple)
    requires bump != Infra && Stable(t) && Stable(u)
    ensures Stable(Bumped(t, bump)) && Fits(Bumped(t, bump), bump) && Order(t, Bumped(t, bump)) < 0
    ensures Fits(u, bump) && Order(t, u) < 0 ==> Order(Bumped(t, bump), u) <= 0
  {
  }

  /** Stable tags and the versions made from them are read back. */
  lemma StableIsRead(rt: Runtime, t: Triple)
    requires ReadsDecimals(rt) && Stable(t)
    ensures ReadVersion(rt, "v" + Show(t)) == Some(t) == ReadVersion(rt, Show(t))
  {
    DecimalIsPlain(t.major);
    DecimalIsPlain(t.minor);
    DecimalIsPlain(t.patch);
    var x, y, z := Decimal(t.major), Decimal(t.minor), Decimal(t.patch);
    SplitThree(x, y, z);
    NoVs(x, y, z);
    WithoutV(x + "." + y + "." + z);
    PartsAreRead(rt, "v" + Show(t), x, y, z);
    PartsAreRead(rt, Show(t), x, y, z);
  }

  lemma PartsAreRead(rt: Runtime, version: string, x: string, y: string, z: string)
    requires SplitDots(Without(version, {'v'})) == [x, y, z]
    requires rt.toInt(x).Some? && rt.toInt(y).Some? && rt.toInt(z).Some?
    ensures ReadVersion(rt, version) == Some(Triple(rt.toInt(x).value, rt.toInt(y).value, rt.toInt(z).value))
  {
  }

  /** These three texts, between dots, are the version. */
  ghost predicate DottedThree(s: string, x: string, y: string, z: string) {
    '.' !in x && '.' !in y && '.' !in z && s == x + "." + y + "." + z
  }

  lemma DotsCut(s: string) returns (x: string, rest: string)
    requires '.' in s
    ensures '.' !in x && s == x + "." + rest && SplitDots(s) == [x] + SplitDots(rest)
  {
    var i := IndexOf(s, '.');
    x, rest := s[..i], s[i + 1..];
  }

  lemma NestDots(x: string, y: string, z: string)
    ensures x + "." + (y + "." + z) == x + "." + y + "." + z
  {
    Regroup(x + ".", y + ".", z);
    Regroup(x + ".", y, ".");
  }

  lemma ThreeParts(s: string) returns (x: string, y: string, z: string)
    requires |SplitDots(s)| == 3
    ensures DottedThree(s, x, y, z) && SplitDots(s) == [x, y, z]
  {
    var rest;
    x, rest := DotsCut(s);
    y, z := DotsCut(rest);
    if '.' in z {
      var u, more := DotsCut(z);
      assert false;
    }
    NestDots(x, y, z);
  }

  lemma SplitThree(x: string, y: string, z: string)
    requires '.' !in x && '.' !in y && '.' !in z
    ensures SplitDots(x + "." + y + "." + z) == [x, y, z]
  {
    var rest := y + "." + z;
    DotAt(y, z);
    DotAt(x, rest);
    NestDots(x, y, z);
    NoDots(z);
  }

  lemma NoDots(s: string)
    requires '.' !in s
    ensures SplitDots(s) == [s]
  {
  }

  /** A version is read exactly when it is, but for any v, three texts between
      dots that `int` reads; and these are its numbers. */
  lemma ReadExactly(rt: Runtime, version: string, t: Triple)
    ensures ReadVersion(rt, version) == Some(t)
            <==> exists x, y, z :: DottedThree(Without(version, {'v'}), x, y, z) && NumbersAre(rt, x, y, z, t)
  {
    if ReadVersion(rt, version) == Some(t) {
      var x, y, z := ThreeParts(Without(version, {'v'}));
      assert NumbersAre(rt, x, y, z, t);
    }
    if x, y, z :| DottedThree(Without(version, {'v'}), x, y, z) && NumbersAre(rt, x, y, z, t) {
      SplitThree(x, y, z);
      PartsAreRead(rt, version, x, y, z);
    }
  }

  predicate NumbersAre(rt: Runtime, x: string, y: string, z: string, t: Triple) {
    rt.toInt(x) == Some(t.major) && rt.toInt(y) == Some(t.minor) && rt.toInt(z) == Some(t.patch)
  }

  lemma NoVs(x: string, y: string, z: string)
    requires Plain(x) && Plain(y) && Plain(z)
    ensures 'v' !in x + "." + y + "." + z
  {
  }

  predicate Plain(s: string) {
    'v' !in s && '.' !in s
  }

  lemma DecimalIsPlain(n: nat)
    ensures Plain(Decimal(n))
  {
    NumberOfDecimal(n);
  }

  lemma WithoutV(s: string)
    requires 'v' !in s
    ensures Without("v" + s, {'v'}) == s == Without(s, {'v'})
  {
    assert ("v" + s)[1..] == s;
  }

  lemma DotAt(a: string, b: string)
    requires '.' !in a
    ensures SplitDots(a + "." + b) == [a] + SplitDots(b)
  {
    var s := a + "." + b;
    assert s[|a|] == '.';
    assert forall i | 0 <= i < |a| :: s[i] == a[i];
    assert IndexOf(s, '.') == |a|;
    assert s[..|a|] == a && s[|a| + 1..] == b;
  }

  // ----- Debian order -----

  /** The minor and patch numbers and what follows, each behind its dot. */
  function Behind(t: Triple, rest: string): string
    requires Stable(t)
  {
    "." + (Decimal(t.minor) + ("." + (Decimal(t.patch) + rest)))
  }

  lemma BehindOrder(a: Triple, b: Triple, ra: string, rb: string)
    requires Stable(a) && Stable(b) && !StartsWithDigit(ra) && !StartsWithDigit(rb)
    ensures Compare(Behind(a, ra), Behind(b, rb))
            == if a.minor != b.minor then Sign(a.minor, b.minor)
               else if a.patch != b.patch then Sign(a.patch, b.patch)
               else Compare(ra, rb)
  {
    CompareNumbers(".", a.minor, b.minor, "." + (Decimal(a.patch) + ra), "." + (Decimal(b.patch) + rb));
    CompareNumbers(".", a.patch, b.patch, ra, rb);
  }

  lemma ShowNested(t: Triple, rest: string)
    requires Stable(t)
    ensures Show(t) + rest == Decimal(t.major) + Behind(t, rest)
  {
    NestParts(Decimal(t.major), Decimal(t.minor), Decimal(t.patch), rest);
  }

  lemma NestedOrder(a: Triple, b: Triple, ra: string, rb: string)
    requires Stable(a) && Stable(b) && !StartsWithDigit(ra) && !StartsWithDigit(rb)
    ensures Compare(Decimal(a.major) + Behind(a, ra), Decimal(b.major) + Behind(b, rb))
            == if Order(a, b) != 0 then Order(a, b) else Compare(ra, rb)
  {
    var whole := Compare(Decimal(a.major) + Behind(a, ra), Decimal(b.major) + Behind(b, rb));
    CompareLeading(a.major, b.major, Behind(a, ra), Behind(b, rb));
    BehindOrder(a, b, ra, rb);
    OrderByParts(a, b, whole, Compare(Behind(a, ra), Behind(b, rb)), Compare(ra, rb));
  }

  lemma OrderByParts(a: Triple, b: Triple, whole: int, behind: int, rest: int)
    requires whole == if a.major != b.major then Sign(a.major, b.major) else behind
    requires behind == if a.minor != b.minor then Sign(a.minor, b.minor)
                       else if a.patch != b.patch then Sign(a.patch, b.patch)
                       else rest
    ensures whole == if Order(a, b) != 0 then Order(a, b) else rest
  {
  }

  /** Versions compare as their numbers do, whatever follows when those differ. */
  lemma ShowOrder(a: Triple, b: Triple, ra: string, rb: string)
    requires Stable(a) && Stable(b) && !StartsWithDigit(ra) && !StartsWithDigit(rb)
    ensures Compare(Show(a) + ra, Show(b) + rb) == if Order(a, b) != 0 then Order(a, b) else Compare(ra, rb)
  {
    NestedOrder(a, b, ra, rb);
    ShowNested(a, ra);
    ShowNested(b, rb);
  }

  lemma NestParts(x: string, y: string, z: string, rest: string)
    ensures (x + "." + y + "." + z) + rest == x + ("." + (y + ("." + (z + rest))))
  {
  }

  lemma SuffixOrder(n: nat, m: nat)
    ensures Compare("~dev" + Decimal(n), "~dev" + Decimal(m)) == Sign(n, m)
    ensures Compare("~dev" + Decimal(n), "") < 0
  {
    CompareNumbers("~dev", n, m, "", "");
    assert Decimal(n) + "" == Decimal(n) && Decimal(m) + "" == Decimal(m);
    NumberParts("~dev", n, "");
  }

  /** A Debian snapshot sorts after the old release and before the new one, and
      the more commits it has, the later it sorts. */
  lemma DevBetweenReleases(t: Triple, bump: Trace, n: nat, m: nat)
    requires Stable(t) && bump != Infra
    ensures Compare(Show(t), Release(t, bump, Some(n), DEB)) < 0
    ensures Compare(Release(t, bump, Some(n), DEB), Release(t, bump, None, DEB)) < 0
    ensures Compare(Release(t, bump, Some(n), DEB), Release(t, bump, Some(m), DEB)) == Sign(n, m)
  {
    DebSnapshot(t, bump, n);
    DebSnapshot(t, bump, m);
    assert "" + Show(Bumped(t, bump)) == Show(Bumped(t, bump));
    BumpedIsLeast(t, bump, t);
    SuffixedOrder(t, Bumped(t, bump), n, m);
  }

  lemma SuffixedOrder(t: Triple, next: Triple, n: nat, m: nat)
    requires Stable(t) && Stable(next) && Order(t, next) < 0
    ensures Compare(Show(t), Show(next) + ("~dev" + Decimal(n))) < 0
    ensures Compare(Show(next) + ("~dev" + Decimal(n)), Show(next)) < 0
    ensures Compare(Show(next) + ("~dev" + Decimal(n)), Show(next) + ("~dev" + Decimal(m))) == Sign(n, m)
  {
    var dn, dm := "~dev" + Decimal(n), "~dev" + Decimal(m);
    SuffixOrder(n, m);
    ShowOrder(t, next, "", dn);
    ShowOrder(next, next, dn, "");
    ShowOrder(next, next, dn, dm);
    assert Show(t) + "" == Show(t) && Show(next) + "" == Show(next);
  }

  lemma DebSnapshot(t: Triple, bump: Trace, n: nat)
    ensures Release(t, bump, Some(n), DEB) == Show(Bumped(t, bump)) + ("~dev" + Decimal(n))
  {
    SuffixJoins(Show(Bumped(t, bump)), Decimal(n));
  }

  lemma SuffixJoins(version: string, count: string)
    ensures ("" + version) + "~" + "dev" + count == version + ("~dev" + count)
  {
  }

  /** How each format writes a release and a snapshot. */
  lemma ReleaseText(t: Triple, bump: Trace, n: nat)
    ensures var next := Show(Bumped(t, bump));
            && Release(t, bump, None, DEB) == Release(t, bump, None, SNAP) == next
            && Release(t, bump, None, TAG) == "v" + next
            && Release(t, bump, Some(n), DEB) == next + "~dev" + Decimal(n)
            && Release(t, bump, Some(n), SNAP) == next + "-dev" + Decimal(n)
            && Release(t, bump, Some(n), TAG) == "v" + next + "-dev" + Decimal(n)
  {
    var next := Show(Bumped(t, bump));
    assert "" + next == next;
    assert "~" + "dev" == "~dev" && "-" + "dev" == "-dev";
    Regroup(next, "~", "dev");
    Regroup(next, "-", "dev");
    Regroup("v" + next, "-", "dev");
  }

  /** A release tag is a stable tag again, so that the next version is counted
      from it. */
  lemma ReleaseIsRead(rt: Runtime, t: Triple, bump: Trace)
    requires ReadsDecimals(rt) && Stable(t)
    ensures ReadVersion(rt, Release(t, bump, None, TAG)) == Some(Bumped(t, bump))
  {
    StableIsRead(rt, Bumped(t, bump));
  }

  lemma DashOrder(n: nat, m: nat)
    ensures Compare("-dev" + Decimal(n), "-dev" + Decimal(m)) == Sign(n, m)
  {
    CompareNumbers("-dev", n, m, "", "");
    assert Decimal(n) + "" == Decimal(n) && Decimal(m) + "" == Decimal(m);
  }

  /** In the other two formats snapshots sort by their number of commits as well,
      but after the release that they lead up to. */
  lemma DashedSnapshots(t: Triple, bump: Trace, n: nat, m: nat)
    requires Stable(t) && bump != Infra
    ensures Compare(Release(t, bump, Some(n), SNAP), Release(t, bump, Some(m), SNAP)) == Sign(n, m)
    ensures Compare(Release(t, bump, Some(n), TAG), Release(t, bump, Some(m), TAG)) == Sign(n, m)
    ensures Compare(Release(t, bump, None, SNAP), Release(t, bump, Some(n), SNAP)) < 0
    ensures Compare(Release(t, bump, None, TAG), Release(t, bump, Some(n), TAG)) < 0
  {
    var next := Bumped(t, bump);
    DashOrder(n, m);
    DashShapes(t, bump, n);
    DashShapes(t, bump, m);
    DashedOrder(next, "-dev" + Decimal(n), "-dev" + Decimal(m));
    AfterRelease(next, n);
    ReleaseText(t, bump, n);
  }

  lemma AfterRelease(next: Triple, n: nat)
    requires Stable(next)
    ensures Compare(Show(next), Show(next) + ("-dev" + Decimal(n))) < 0
    ensures Compare("v" + Show(next), "v" + (Show(next) + ("-dev" + Decimal(n)))) < 0
  {
    DashedOrder(next, "", "-dev" + Decimal(n));
    EndBeforeDash(n);
    assert Show(next) + "" == Show(next);
  }

  lemma EndBeforeDash(n: nat)
    ensures Compare("", "-dev" + Decimal(n)) < 0
  {
    assert Decimal(n) + "" == Decimal(n);
    NumberParts("-dev", n, "");
  }

  lemma DashShapes(t: Triple, bump: Trace, n: nat)
    ensures Release(t, bump, Some(n), SNAP) == Show(Bumped(t, bump)) + ("-dev" + Decimal(n))
    ensures Release(t, bump, Some(n), TAG) == "v" + (Show(Bumped(t, bump)) + ("-dev" + Decimal(n)))
  {
    DashJoins(Show(Bumped(t, bump)), Decimal(n));
  }

  lemma DashJoins(version: string, count: string)
    ensures ("" + version) + "-" + "dev" + count == version + ("-dev" + count)
    ensures ("v" + version) + "-" + "dev" + count == "v" + (version + ("-dev" + count))
  {
    assert "-" + "dev" == "-dev";
    assert (version + "-") + "dev" == version + "-dev";
    Regroup(version, "-dev", count);
    Regroup("v" + version, "-", "dev");
    Regroup("v" + version, "-dev", count);
    Regroup("v", version, "-dev" + count);
  }

  lemma DashedOrder(t: Triple, ra: string, rb: string)
    requires Stable(t) && !StartsWithDigit(ra) && !StartsWithDigit(rb)
    ensures Compare(Show(t) + ra, Show(t) + rb) == Compare(ra, rb)
    ensures Compare("v" + (Show(t) + ra), "v" + (Show(t) + rb)) == Compare(ra, rb)
  {
    ShowOrder(t, t, ra, rb);
    ShowNested(t, ra);
    ShowNested(t, rb);
    CompareNumbers("v", t.major, t.major, Behind(t, ra), Behind(t, rb));
    BehindOrder(t, t, ra, rb);
  }

  /** Every commit added makes the Debian snapshot version strictly later, even
      when it raises the needed bump. */
  lemma SnapshotsGrow(category: string -> Option<Trace>, t: Triple, history: seq<string>, added: seq<string>, a: Trace,
          b: Trace)
    requires Stable(t) && added != [] && a != Infra
    requires IsNeededBump(category, history, a) && IsNeededBump(category, added + history, b)
    ensures Compare(Release(t, a, Some(|history|), DEB), Release(t, b, Some(|added + history|), DEB)) < 0
  {
    var m :| m in history && category(m) == Some(a);
    assert m in added + history;
    var n, k := |history|, |added + history|;
    DebSnapshot(t, a, n);
    DebSnapshot(t, b, k);
    ShowOrder(Bumped(t, a), Bumped(t, b), "~dev" + Decimal(n), "~dev" + Decimal(k));
    SuffixOrder(n, k);
  }
}
