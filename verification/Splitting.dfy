/** The character-level half of resource.py: how a requirement line is cut at
    its rightmost " or ", then at its rightmost " and ", with `rfind`,
    `rsplit(operator, 1)` and `strip`. */
module Splitting {
  import opened Base

  const OR: string := " or "
  const AND: string := " and "

  /** Python's `str.rfind`, with -1 for "not found". */
  function RFind(s: string, op: string): (r: int)
    requires op != ""
    ensures -1 <= r <= |s| - |op| || r == -1
    ensures r >= 0 ==> Occurs(s, op, r)
    ensures forall i | 0 <= i <= |s| - |op| && i > r :: !Occurs(s, op, i)
  {
    RFindFrom(s, op, |s| - |op|)
  }

  function RFindFrom(s: string, op: string, i: int): (r: int)
    requires i <= |s| - |op|
    ensures r == -1 || 0 <= r <= i
    ensures r >= 0 ==> Occurs(s, op, r)
    ensures forall k | 0 <= k <= i && k > r :: !Occurs(s, op, k)
    decreases i + 1
  {
    if i < 0 then -1 else if Occurs(s, op, i) then i else RFindFrom(s, op, i - 1)
  }

  /** The characters `str.strip` removes (`str.isspace`). */
  predicate IsSpace(c: char) {
    var n := c as int;
    || 9 <= n <= 13 || 28 <= n <= 32 || n == 133 || n == 160 || n == 5760
    || 8192 <= n <= 8202 || n == 8232 || n == 8233 || n == 8239 || n == 8287 || n == 12288
  }

  function Strip(s: string): (r: string)
    ensures |r| <= |s|
    ensures (s == "" || (!IsSpace(s[0]) && !IsSpace(s[|s| - 1]))) ==> r == s
    decreases |s|
  {
    if s == "" then ""
    else if IsSpace(s[0]) then Strip(s[1..])
    else if IsSpace(s[|s| - 1]) then Strip(s[..|s| - 1])
    else s
  }

  /** `text.rsplit(op, 1)` with the tail stripped. */
  function Head(text: string, op: string): (h: string)
    requires op != "" && RFind(text, op) > 0
    ensures |h| < |text|
  {
    text[..RFind(text, op)]
  }

  function Tail(text: string, op: string): (t: string)
    requires op != "" && RFind(text, op) > 0
    ensures |t| < |text|
  {
    Strip(text[RFind(text, op) + |op|..])
  }

  /** The pieces that repeated splitting of the head leaves, in text order. */
  function Pieces(text: string, op: string): (p: seq<string>)
    requires op != ""
    ensures p != []
    decreases |text|
  {
    if RFind(text, op) > 0 then Pieces(Head(text, op), op) + [Tail(text, op)] else [text]
  }

  function MapPieces(texts: seq<string>, op: string): (r: seq<seq<string>>)
    requires op != ""
    ensures |r| == |texts|
    ensures forall i | 0 <= i < |texts| :: r[i] == Pieces(texts[i], op)
  {
    seq(|texts|, i requires 0 <= i < |texts| => Pieces(texts[i], op))
  }

  /** A line as or-groups of and-joined leaves. A line with an opening
      parenthesis is never cut. */
  function Groups(text: string): (g: seq<seq<string>>)
    ensures g != [] && forall i | 0 <= i < |g| :: g[i] != []
  {
    if '(' in text then [[text]] else MapPieces(Pieces(text, OR), AND)
  }

  function Flatten<T>(gs: seq<seq<T>>): seq<T> {
    if gs == [] then [] else gs[0] + Flatten(gs[1..])
  }

  lemma {:induction false} InFlatten<T>(gs: seq<seq<T>>, x: T)
    ensures x in Flatten(gs) <==> exists i | 0 <= i < |gs| :: x in gs[i]
  {
    if gs == [] {
    } else {
      InFlatten(gs[1..], x);
      if i :| 0 <= i < |gs| && x in gs[i] {
        if i > 0 { assert x in gs[1..][i - 1]; }
      }
      if x in Flatten(gs[1..]) {
        var i :| 0 <= i < |gs[1..]| && x in gs[1..][i];
        assert x in gs[i + 1];
      }
    }
  }

  // ----- Where occurrences can be -----

  predicate Within(s: string, op: string, p: int)
    requires op != ""
  {
    0 <= p <= |s| - |op| && Occurs(s, op, p)
  }

  lemma OccursByCharacters(s: string, op: string, p: nat)
    requires p <= |s| - |op|
    ensures Occurs(s, op, p) <==> forall k | 0 <= k < |op| :: s[p + k] == op[k]
  {
    var t := s[p..p + |op|];
    assert forall k | 0 <= k < |op| :: t[k] == s[p + k];
    assert t == op <==> forall k | 0 <= k < |op| :: t[k] == op[k];
  }

  /** An occurrence found in a slice is an occurrence in the whole. */
  lemma OccursInSlice(s: string, op: string, lo: nat, hi: nat, p: int)
    requires lo <= hi <= |s| && op != "" && Within(s[lo..hi], op, p)
    ensures Within(s, op, lo + p)
  {
    OccursByCharacters(s[lo..hi], op, p);
    OccursByCharacters(s, op, lo + p);
  }

  lemma SliceOfSlice(s: string, a: nat, lo: nat, hi: nat)
    requires a <= |s| && lo <= hi <= |s| - a
    ensures s[a..][lo..hi] == s[a + lo..a + hi]
  {
  }

  lemma SliceLacks(s: string, lo: nat, hi: nat, c: char)
    requires lo <= hi <= |s| && c !in s
    ensures c !in s[lo..hi]
  {
  }

  lemma StripIsSlice(s: string) returns (lo: nat, hi: nat)
    ensures lo <= hi <= |s| && Strip(s) == s[lo..hi]
    decreases |s|
  {
    if s == "" {
      return 0, 0;
    } else if IsSpace(s[0]) {
      lo, hi := StripIsSlice(s[1..]);
      assert s[1..][lo..hi] == s[1 + lo..1 + hi];
      lo, hi := lo + 1, hi + 1;
    } else if IsSpace(s[|s| - 1]) {
      lo, hi := StripIsSlice(s[..|s| - 1]);
      assert s[..|s| - 1][lo..hi] == s[lo..hi];
    } else {
      assert s[0..|s|] == s;
      return 0, |s|;
    }
  }

  /** No operator beyond the first character: the text will not be cut there. */
  ghost predicate Whole(s: string, op: string)
    requires op != ""
  {
    RFind(s, op) <= 0
  }

  lemma SliceStaysWhole(s: string, op: string, lo: nat, hi: nat)
    requires op != "" && lo <= hi <= |s|
    requires forall i | lo < i :: !Within(s, op, i)
    ensures Whole(s[lo..hi], op)
  {
    var r := RFind(s[lo..hi], op);
    if r > 0 {
      OccursInSlice(s, op, lo, hi, r);
      assert false;
    }
  }

  lemma NoneAfterLast(s: string, op: string, lo: nat)
    requires op != "" && RFind(s, op) <= lo
    ensures forall i | lo < i :: !Within(s, op, i)
  {
  }

  /** The stripped tail of a cut, as a part of the text. */
  lemma TailIsSlice(text: string, op: string) returns (lo: nat, hi: nat)
    requires op != "" && RFind(text, op) > 0
    ensures RFind(text, op) + |op| <= lo <= hi <= |text| && Tail(text, op) == text[lo..hi]
  {
    var from := RFind(text, op) + |op|;
    lo, hi := StripIsSlice(text[from..]);
    SliceOfSlice(text, from, lo, hi);
    lo, hi := from + lo, from + hi;
  }

  lemma HeadIsSlice(text: string, op: string)
    requires op != "" && RFind(text, op) > 0
    ensures Head(text, op) == text[0..RFind(text, op)]
  {
  }

  /** Cutting at the rightmost operator leaves a tail that is not cut again. */
  lemma TailIsWhole(text: string, op: string)
    requires op != "" && RFind(text, op) > 0
    ensures Whole(Tail(text, op), op)
  {
    var lo, hi := TailIsSlice(text, op);
    NoneAfterLast(text, op, lo);
    SliceStaysWhole(text, op, lo, hi);
  }

  /** Cutting at one operator never uncovers the other. */
  lemma CutsStayWhole(text: string, cut: string, op: string)
    requires cut != "" && op != "" && RFind(text, cut) > 0 && Whole(text, op)
    ensures Whole(Head(text, cut), op) && Whole(Tail(text, cut), op)
  {
    var lo, hi := TailIsSlice(text, cut);
    NoneAfterLast(text, op, lo);
    SliceStaysWhole(text, op, lo, hi);
    HeadIsSlice(text, cut);
    NoneAfterLast(text, op, 0);
    SliceStaysWhole(text, op, 0, RFind(text, cut));
  }

  /** No parenthesis appears by cutting. */
  lemma CutsLackParentheses(text: string, op: string)
    requires op != "" && RFind(text, op) > 0 && '(' !in text
    ensures '(' !in Head(text, op) && '(' !in Tail(text, op)
  {
    var lo, hi := TailIsSlice(text, op);
    SliceLacks(text, lo, hi, '(');
  }

  // ----- How Groups follows the two cuts -----

  lemma WholeIsOnePiece(text: string, op: string)
    requires op != "" && Whole(text, op)
    ensures Pieces(text, op) == [text]
  {
  }

  lemma MapPiecesAppend(texts: seq<string>, text: string, op: string)
    requires op != ""
    ensures MapPieces(texts + [text], op) == MapPieces(texts, op) + [Pieces(text, op)]
  {
  }

  lemma GroupsAtOr(text: string)
    requires '(' !in text && RFind(text, OR) > 0
    ensures '(' !in Head(text, OR) && '(' !in Tail(text, OR)
    ensures Groups(text) == Groups(Head(text, OR)) + Groups(Tail(text, OR))
  {
    var h, t := Head(text, OR), Tail(text, OR);
    CutsLackParentheses(text, OR);
    TailIsWhole(text, OR);
    WholeIsOnePiece(t, OR);
    MapPiecesAppend(Pieces(h, OR), t, AND);
    MapPiecesAppend([], t, AND);
    assert MapPieces([], AND) == [] && [] + [t] == [t];
  }

  lemma GroupsWhenWhole(text: string)
    requires '(' !in text && Whole(text, OR)
    ensures Groups(text) == [Pieces(text, AND)]
  {
    WholeIsOnePiece(text, OR);
  }

  lemma GroupsAtAnd(text: string)
    requires '(' !in text && Whole(text, OR) && RFind(text, AND) > 0
    ensures '(' !in Head(text, AND) && '(' !in Tail(text, AND)
    ensures Whole(Head(text, AND), OR) && Whole(Tail(text, AND), OR)
    ensures Groups(text) == [Pieces(Head(text, AND), AND) + [Tail(text, AND)]]
    ensures Groups(Head(text, AND)) == [Pieces(Head(text, AND), AND)]
    ensures Groups(Tail(text, AND)) == [[Tail(text, AND)]]
  {
    CutsLackParentheses(text, AND);
    CutsStayWhole(text, AND, OR);
    TailIsWhole(text, AND);
    WholeIsOnePiece(Tail(text, AND), AND);
    GroupsWhenWhole(text);
    GroupsWhenWhole(Head(text, AND));
    GroupsWhenWhole(Tail(text, AND));
  }

  // ----- Texts written from clean leaves are read back exactly -----

  /** A leaf as authors write it: a comparison with no operator word at either
      end and none inside, no surrounding blanks, no parenthesis. */
  ghost predicate Clean(leaf: string) {
    && leaf != "" && '(' !in leaf
    && !IsSpace(leaf[0]) && !IsSpace(leaf[|leaf| - 1])
    && Free(leaf, OR) && Free(leaf, AND)
  }

  /** The text, set between blanks, contains no `op`. */
  ghost predicate Free(s: string, op: string)
    requires op != ""
  {
    forall p :: !Within(" " + s + " ", op, p)
  }

  function Join(parts: seq<string>, op: string): (r: string)
    requires parts != []
  {
    if |parts| == 1 then parts[0] else Join(parts[..|parts| - 1], op) + op + parts[|parts| - 1]
  }

  function RenderGroups(groups: seq<seq<string>>): (r: seq<string>)
    requires forall i | 0 <= i < |groups| :: groups[i] != []
    ensures |r| == |groups|
    ensures forall i | 0 <= i < |groups| :: r[i] == Join(groups[i], AND)
  {
    seq(|groups|, i requires 0 <= i < |groups| => Join(groups[i], AND))
  }

  /** The line an author writes for these or-groups of and-joined leaves. */
  function Render(groups: seq<seq<string>>): string
    requires groups != [] && forall i | 0 <= i < |groups| :: groups[i] != []
  {
    Join(RenderGroups(groups), OR)
  }

  /** An occurrence in `x + word + y` lies in `x`, in `y`, or shares a
      character with `word`. */
  lemma OccurrenceAround(x: string, word: string, y: string, op: string, p: int)
    requires op != "" && word != "" && Within(x + word + y, op, p)
    ensures Within(x, op, p) || Within(y, op, p - |x| - |word|) || exists c :: c in word && c in op
  {
    var s := x + word + y;
    assert s[p..p + |op|] == op;
    if p + |op| <= |x| {
      assert x[p..p + |op|] == s[p..p + |op|];
    } else if p >= |x| + |word| {
      var q := p - |x| - |word|;
      assert y[q..q + |op|] == s[p..p + |op|];
    } else {
      var k := if p < |x| then |x| else p;
      assert op[k - p] == s[k] == word[k - |x|];
      assert op[k - p] in word && op[k - p] in op;
    }
  }

  /** With a word between them that shares no character with `op`, two texts
      free of `op` stay free of it. */
  lemma FreeAcross(a: string, word: string, b: string, op: string)
    requires op != "" && word != ""
    requires forall c | c in word :: c !in op
    requires Free(a, op) && Free(b, op)
    ensures Free(a + " " + word + " " + b, op)
  {
    var left, right := " " + a + " ", " " + b + " ";
    var s := " " + (a + " " + word + " " + b) + " ";
    assert s == left + word + right;
    forall p | Within(s, op, p) ensures false {
      OccurrenceAround(left, word, right, op, p);
    }
  }

  /** What one group of clean leaves looks like from outside. */
  ghost predicate Solid(s: string, op: string)
    requires op != ""
  {
    s != "" && '(' !in s && !IsSpace(s[0]) && !IsSpace(s[|s| - 1]) && Free(s, op)
  }

  lemma NoneInOperand(h: string, op: string, t: string, p: nat)
    requires op == OR || op == AND
    requires Free(t, op) && |h| < p <= |h + op + t| - |op|
    ensures !Occurs(h + op + t, op, p)
  {
    var s, padded := h + op + t, " " + t + " ";
    OccursByCharacters(s, op, p);
    if p < |h| + |op| - 1 {
      assert s[p + 0] == op[p - |h|] != op[0];
    } else {
      var q := p - |h| - |op| + 1;
      assert forall i | p <= i < p + |op| :: s[i] == padded[i - p + q];
      OccursByCharacters(padded, op, q);
      assert !Within(padded, op, q);
    }
  }

  /** The last operator written is the one `rfind` finds. */
  lemma CutWhereJoined(h: string, op: string, t: string)
    requires op == OR || op == AND
    requires h != "" && Solid(t, op)
    ensures RFind(h + op + t, op) == |h| && Head(h + op + t, op) == h && Tail(h + op + t, op) == t
  {
    var s := h + op + t;
    assert s[|h|..|h| + |op|] == op;
    assert Occurs(s, op, |h|);
    forall p | |h| < p <= |s| - |op| ensures !Occurs(s, op, p) { NoneInOperand(h, op, t, p); }
    assert RFind(s, op) == |h|;
    assert s[..|h|] == h && s[|h| + |op|..] == t;
  }

  lemma FreeIsWhole(s: string, op: string)
    requires op != "" && Free(s, op)
    ensures Whole(s, op)
  {
    var r := RFind(s, op);
    if r > 0 {
      var padded := " " + s + " ";
      assert padded[1..|s| + 1] == s;
      OccursInSlice(padded, op, 1, |s| + 1, r);
      assert false;
    }
  }

  /** Appending one more operand appends one more piece. */
  lemma PiecesGrow(h: string, op: string, t: string)
    requires op == OR || op == AND
    requires h != "" && '(' !in h && Solid(t, op)
    ensures h + op + t != "" && '(' !in h + op + t
    ensures Pieces(h + op + t, op) == Pieces(h, op) + [t]
  {
    CutWhereJoined(h, op, t);
  }

  /** Joining solid parts and cutting repeatedly are inverse. */
  lemma {:induction false} PiecesOfJoin(parts: seq<string>, op: string)
    requires op == OR || op == AND
    requires parts != [] && forall i | 0 <= i < |parts| :: Solid(parts[i], op)
    ensures Join(parts, op) != "" && '(' !in Join(parts, op)
    ensures Pieces(Join(parts, op), op) == parts
  {
    var init, last := parts[..|parts| - 1], parts[|parts| - 1];
    assert parts == init + [last];
    if init == [] {
      FreeIsWhole(last, op);
    } else {
      PiecesOfJoin(init, op);
      PiecesGrow(Join(init, op), op, last);
    }
  }

  /** An and-joined group of clean leaves is solid for " or ". */
  lemma {:induction false} GroupIsSolid(group: seq<string>)
    requires group != [] && forall i | 0 <= i < |group| :: Clean(group[i])
    ensures Solid(Join(group, AND), OR)
  {
    var n := |group|;
    if n > 1 {
      var init := group[..n - 1];
      assert forall i | 0 <= i < |init| :: init[i] == group[i];
      GroupIsSolid(init);
      FreeAcross(Join(init, AND), "and", group[n - 1], OR);
      assert Join(group, AND) == Join(init, AND) + " " + "and" + " " + group[n - 1];
    }
  }

  /** Reading a written line gives back its or-groups of leaves: " and " binds
      tighter than " or ", whatever the leaves are. */
  lemma GroupsOfRender(groups: seq<seq<string>>)
    requires groups != []
    requires forall i | 0 <= i < |groups| :: groups[i] != [] && forall j | 0 <= j < |groups[i]| :: Clean(groups[i][j])
    ensures Groups(Render(groups)) == groups
  {
    var parts := RenderGroups(groups);
    forall i | 0 <= i < |parts| ensures Solid(parts[i], OR) && Pieces(parts[i], AND) == groups[i] {
      GroupIsSolid(groups[i]);
      PiecesOfJoin(groups[i], AND);
    }
    PiecesOfJoin(parts, OR);
  }
}
