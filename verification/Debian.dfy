/** Comparing upstream version strings by section 5.6.12 of the Debian Policy
    Manual, and decimal numbers as text. */
module Debian {

  predicate IsDigit(c: char) {
    '0' <= c <= '9'
  }

  predicate StartsWithDigit(s: string) {
    s != "" && IsDigit(s[0])
  }

  predicate IsLetter(c: char) {
    'a' <= c <= 'z' || 'A' <= c <= 'Z'
  }

  // ----- Decimal numbers -----

  function Digit(n: nat): char
    requires n < 10
  {
    (n + '0' as int) as char
  }

  function Decimal(n: nat): string {
    if n < 10 then [Digit(n)] else Decimal(n / 10) + [Digit(n % 10)]
  }

  predicate AllDigits(s: string) {
    forall i | 0 <= i < |s| :: IsDigit(s[i])
  }

  function Number(s: string): nat
    requires AllDigits(s)
  {
    if s == "" then 0 else Number(s[..|s| - 1]) * 10 + (s[|s| - 1] as int - '0' as int)
  }

  lemma {:induction false} NumberOfDecimal(n: nat)
    ensures Decimal(n) != "" && AllDigits(Decimal(n)) && Number(Decimal(n)) == n
  {
    if n < 10 {
      assert Number([Digit(n)]) == Number("") * 10 + n;
    } else {
      NumberOfDecimal(n / 10);
      assert Decimal(n)[..|Decimal(n)| - 1] == Decimal(n / 10);
    }
  }

  // ----- The comparison -----

  function TextPart(s: string): (r: string)
    ensures |r| <= |s| && r == s[..|r|]
    ensures s != "" && !IsDigit(s[0]) ==> r != ""
  {
    if s == "" || IsDigit(s[0]) then "" else [s[0]] + TextPart(s[1..])
  }

  function DigitPart(s: string): (r: string)
    ensures |r| <= |s| && r == s[..|r|] && AllDigits(r)
    ensures StartsWithDigit(s) ==> r != ""
  {
    if s == "" || !IsDigit(s[0]) then "" else [s[0]] + DigitPart(s[1..])
  }

  /** Tildes before the end of the part, the end before letters, letters before
      all other characters. */
  const END: int := 1

  function Weight(c: char): int {
    if c == '~' then 0 else if IsLetter(c) then c as int + 2 else c as int + 0x11_0000
  }

  function Sign(a: int, b: int): int {
    if a < b then -1 else if a > b then 1 else 0
  }

  function CompareText(a: string, b: string): int {
    var x, y := if a == "" then END else Weight(a[0]), if b == "" then END else Weight(b[0]);
    if x != y then Sign(x, y) else if a == "" || b == "" then 0 else CompareText(a[1..], b[1..])
  }

  /** A string cut into its leading text, the digits after it, and the rest. */
  datatype Parts = Parts(text: string, number: nat, rest: string)

  function Cut(s: string): (p: Parts)
    ensures s != "" ==> |p.rest| < |s|
    ensures s == "" ==> p.rest == ""
  {
    var text := TextPart(s);
    var digits := DigitPart(s[|text|..]);
    Parts(text, Number(digits), s[|text| + |digits|..])
  }

  function CompareCut(p: Parts, q: Parts): int {
    if CompareText(p.text, q.text) != 0 then CompareText(p.text, q.text) else Sign(p.number, q.number)
  }

  /** Negative, zero or positive as `a` sorts before, with or after `b`. */
  function Compare(a: string, b: string): int
    decreases |a| + |b|
  {
    if a == "" && b == "" then 0
    else if CompareCut(Cut(a), Cut(b)) != 0 then CompareCut(Cut(a), Cut(b))
    else Compare(Cut(a).rest, Cut(b).rest)
  }

  lemma {:induction false} SameText(t: string)
    ensures CompareText(t, t) == 0
  {
    if t == "" {
    } else {
      SameText(t[1..]);
    }
  }

  lemma {:induction false} TextPartOf(t: string, rest: string)
    requires (forall i | 0 <= i < |t| :: !IsDigit(t[i])) && (rest == "" || IsDigit(rest[0]))
    ensures TextPart(t + rest) == t && (t + rest)[|t|..] == rest
  {
    if t == "" {
      assert t + rest == rest;
    } else {
      assert (t + rest)[1..] == t[1..] + rest;
      TextPartOf(t[1..], rest);
    }
  }

  lemma {:induction false} DigitPartOf(d: string, rest: string)
    requires AllDigits(d) && !StartsWithDigit(rest)
    ensures DigitPart(d + rest) == d && (d + rest)[|d|..] == rest
  {
    if d == "" {
      assert d + rest == rest;
    } else {
      assert (d + rest)[1..] == d[1..] + rest;
      DigitPartOf(d[1..], rest);
    }
  }

  /** After the same text, the numbers decide, and then what follows them. */
  lemma CompareNumbers(t: string, n: nat, m: nat, ra: string, rb: string)
    requires (forall i | 0 <= i < |t| :: !IsDigit(t[i])) && !StartsWithDigit(ra) && !StartsWithDigit(rb)
    ensures Compare(t + (Decimal(n) + ra), t + (Decimal(m) + rb)) == if n != m then Sign(n, m) else Compare(ra, rb)
  {
    NumberParts(t, n, ra);
    NumberParts(t, m, rb);
    SameText(t);
  }

  /** The same at the very start. */
  lemma CompareLeading(n: nat, m: nat, ra: string, rb: string)
    requires !StartsWithDigit(ra) && !StartsWithDigit(rb)
    ensures Compare(Decimal(n) + ra, Decimal(m) + rb) == if n != m then Sign(n, m) else Compare(ra, rb)
  {
    CompareNumbers("", n, m, ra, rb);
    assert "" + (Decimal(n) + ra) == Decimal(n) + ra && "" + (Decimal(m) + rb) == Decimal(m) + rb;
  }

  lemma NumberParts(t: string, n: nat, rest: string)
    requires (forall i | 0 <= i < |t| :: !IsDigit(t[i])) && !StartsWithDigit(rest)
    ensures t + (Decimal(n) + rest) != "" && Cut(t + (Decimal(n) + rest)) == Parts(t, n, rest)
  {
    NumberOfDecimal(n);
    assert IsDigit((Decimal(n) + rest)[0]);
    TextPartOf(t, Decimal(n) + rest);
    DigitPartOf(Decimal(n), rest);
    assert (t + (Decimal(n) + rest))[|t| + |Decimal(n)|..] == rest;
  }
}
