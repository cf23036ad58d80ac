/** Paths, cycles and dependency orders over job ids. An id that is not a key
    of the relation stands for a job nobody defined. */
module Graph {
  import opened Base

  /** From each known id to the ids it depends on. */
  type Relation = map<string, set<string>>

  predicate Edge(next: Relation, a: string, b: string) {
    a in next && b in next[a]
  }

  /** The `i`-th item of the path depends on the one after it. */
  ghost predicate Step(next: Relation, p: seq<string>, i: int) {
    0 <= i < |p| - 1 && Edge(next, p[i], p[i + 1])
  }

  ghost predicate IsPath(next: Relation, p: seq<string>) {
    p != [] && forall i | 0 <= i < |p| - 1 :: Step(next, p, i)
  }

  ghost predicate PathFromTo(next: Relation, p: seq<string>, a: string, b: string) {
    IsPath(next, p) && p[0] == a && p[|p| - 1] == b
  }

  ghost predicate Reaches(next: Relation, a: string, b: string) {
    exists p :: PathFromTo(next, p, a, b)
  }

  /** `x` is a root or something a root depends on, however indirectly. */
  ghost predicate Needed(next: Relation, roots: set<string>, x: string) {
    exists a :: a in roots && Reaches(next, a, x)
  }

  ghost predicate IsCycle(next: Relation, c: seq<string>) {
    |c| > 1 && IsPath(next, c) && c[0] == c[|c| - 1]
  }

  /** Everything needed is known, and nothing needed depends on itself. */
  ghost predicate Solvable(next: Relation, roots: set<string>) {
    && (forall x | Needed(next, roots, x) :: x in next)
    && (forall c | IsCycle(next, c) :: !Needed(next, roots, c[0]))
  }

  /** Each job once, after everything it depends on. */
  ghost predicate Ordered(next: Relation, s: seq<string>) {
    Distinct(s) && forall i | 0 <= i < |s| :: PlacedRight(next, s, i)
  }

  ghost predicate PlacedRight(next: Relation, s: seq<string>, i: nat)
    requires i < |s|
  {
    s[i] in next && forall d | d in next[s[i]] :: d in s[..i]
  }

  lemma PathAppend(next: Relation, p: seq<string>, x: string)
    requires IsPath(next, p) && Edge(next, p[|p| - 1], x)
    ensures IsPath(next, p + [x])
  {
    var q := p + [x];
    forall i | 0 <= i < |q| - 1 ensures Step(next, q, i) {
      if i < |p| - 1 { assert Step(next, p, i); }
    }
  }

  lemma PathSuffix(next: Relation, p: seq<string>, k: nat)
    requires IsPath(next, p) && k < |p|
    ensures IsPath(next, p[k..])
  {
    var q := p[k..];
    forall i | 0 <= i < |q| - 1 ensures Step(next, q, i) {
      assert Step(next, p, k + i);
    }
  }

  lemma ReachesSelf(next: Relation, a: string)
    ensures Reaches(next, a, a)
  {
    assert PathFromTo(next, [a], a, a);
  }

  lemma ReachesThenEdge(next: Relation, a: string, b: string, c: string)
    requires Reaches(next, a, b) && Edge(next, b, c)
    ensures Reaches(next, a, c)
  {
    var p :| PathFromTo(next, p, a, b);
    PathAppend(next, p, c);
    assert PathFromTo(next, p + [c], a, c);
  }

  lemma NeededThenEdge(next: Relation, roots: set<string>, b: string, c: string)
    requires Needed(next, roots, b) && Edge(next, b, c)
    ensures Needed(next, roots, c)
  {
    var a :| a in roots && Reaches(next, a, b);
    ReachesThenEdge(next, a, b, c);
  }

  lemma RootNeeded(next: Relation, roots: set<string>, a: string)
    requires a in roots
    ensures Needed(next, roots, a)
  {
    ReachesSelf(next, a);
  }

  /** Extending an order by a job whose dependencies are all in it. */
  lemma OrderGrows(next: Relation, s: seq<string>, x: string)
    requires Ordered(next, s) && x !in s && x in next
    requires forall d | d in next[x] :: d in s
    ensures Ordered(next, s + [x])
  {
    var t := s + [x];
    forall i | 0 <= i < |t| ensures PlacedRight(next, t, i) {
      assert t[..i] == s[..i];
      if i < |s| { assert PlacedRight(next, s, i); } else { assert s[..|s|] == s; }
    }
  }

  lemma EarlierInOrder(next: Relation, s: seq<string>, k: nat, d: string) returns (i: nat)
    requires Ordered(next, s) && k < |s| && s[k] in next && d in next[s[k]]
    ensures i < k && s[i] == d
  {
    assert PlacedRight(next, s, k);
    i :| 0 <= i < k && s[i] == d;
  }

  /** A dependency path from a member of an order stays in the order and only
      moves towards its front. */
  lemma {:induction false} PathMovesForward(next: Relation, s: seq<string>, p: seq<string>, i: nat)
    requires Ordered(next, s) && IsPath(next, p)
    requires i < |s| && s[i] == p[0]
    ensures p[|p| - 1] in s[..i + 1]
    ensures |p| > 1 ==> p[|p| - 1] in s[..i]
    decreases |p|
  {
    if |p| > 1 {
      assert Step(next, p, 0) && PlacedRight(next, s, i);
      var j :| 0 <= j < i && s[j] == p[1];
      var rest := p[1..];
      PathSuffix(next, p, 1);
      PathMovesForward(next, s, rest, j);
      assert rest[|rest| - 1] in s[..j + 1];
      assert forall x | x in s[..j + 1] :: x in s[..i];
    } else {
      assert s[i] in s[..i + 1];
    }
  }

  /** An order that contains the roots shows that they can be solved. */
  lemma OrderMeansSolvable(next: Relation, roots: set<string>, s: seq<string>)
    requires Ordered(next, s) && forall a | a in roots :: a in s
    ensures Solvable(next, roots)
    ensures forall x | Needed(next, roots, x) :: x in s
  {
    forall x | Needed(next, roots, x) ensures x in s {
      var a :| a in roots && Reaches(next, a, x);
      var p :| PathFromTo(next, p, a, x);
      var i :| 0 <= i < |s| && s[i] == a;
      PathMovesForward(next, s, p, i);
    }
    forall x | x in s ensures x in next {
      var i :| 0 <= i < |s| && s[i] == x;
      assert PlacedRight(next, s, i);
    }
    forall c | IsCycle(next, c) ensures !Needed(next, roots, c[0]) {
      if Needed(next, roots, c[0]) {
        var i :| 0 <= i < |s| && s[i] == c[0];
        PathMovesForward(next, s, c, i);
        assert false;
      }
    }
  }

  /** Fewer dependencies: whatever was needed before may only shrink. */
  ghost predicate SubRelation(small: Relation, big: Relation) {
    forall a | a in small :: a in big && small[a] <= big[a]
  }

  lemma PathInBigger(small: Relation, big: Relation, p: seq<string>)
    requires SubRelation(small, big) && IsPath(small, p)
    ensures IsPath(big, p)
  {
    forall i | 0 <= i < |p| - 1 ensures Step(big, p, i) {
      assert Step(small, p, i);
    }
  }

  lemma ReachesTransitive(next: Relation, a: string, b: string, c: string)
    requires Reaches(next, a, b) && Reaches(next, b, c)
    ensures Reaches(next, a, c)
  {
    var p :| PathFromTo(next, p, a, b);
    var q :| PathFromTo(next, q, b, c);
    var r := p + q[1..];
    forall i | 0 <= i < |r| - 1 ensures Step(next, r, i) {
      if i < |p| - 1 {
        assert Step(next, p, i);
      } else {
        assert Step(next, q, i - |p| + 1);
      }
    }
    assert PathFromTo(next, r, a, c);
  }

  lemma NeededInBigger(small: Relation, big: Relation, roots: set<string>, id: string)
    requires SubRelation(small, big) && Needed(small, roots, id)
    ensures Needed(big, roots, id)
  {
    var a :| a in roots && Reaches(small, a, id);
    var p :| PathFromTo(small, p, a, id);
    PathInBigger(small, big, p);
    assert PathFromTo(big, p, a, id);
  }

  /** An order depends only on what its own members depend on. */
  lemma SameOrder(small: Relation, big: Relation, s: seq<string>)
    requires Ordered(small, s) && forall id | id in small :: id in big && big[id] == small[id]
    ensures Ordered(big, s)
  {
    forall i | 0 <= i < |s| ensures PlacedRight(big, s, i) {
      assert PlacedRight(small, s, i);
    }
  }
}
