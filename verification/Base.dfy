/** Shared vocabulary: optional values, results, and the few string and list
    operations of the Python runtime that the modelled files rely on. */
module Base {

  datatype Option<+T> = None | Some(value: T)

  datatype Result<+T, +E> = Success(value: T) | Failure(error: E)

  datatype Outcome<+E> = Pass | Fail(error: E)

  /** Python's `needle in hay` on strings. */
  predicate Contains(hay: string, needle: string) {
    exists i | 0 <= i <= |hay| - |needle| :: Occurs(hay, needle, i)
  }

  predicate Occurs(hay: string, needle: string, i: int)
    requires 0 <= i <= |hay| - |needle|
  {
    hay[i..i + |needle|] == needle
  }

  lemma ContainsTransitive(a: string, b: string, c: string)
    requires Contains(a, b) && Contains(b, c)
    ensures Contains(a, c)
  {
    var i :| 0 <= i <= |a| - |b| && Occurs(a, b, i);
    var j :| 0 <= j <= |b| - |c| && Occurs(b, c, j);
    assert |a[i + j..i + j + |c|]| == |c|;
    forall k | 0 <= k < |c| ensures a[i + j..i + j + |c|][k] == c[k] {
      assert a[i..i + |b|][j + k] == b[j + k] && b[j..j + |c|][k] == c[k];
    }
    assert Occurs(a, c, i + j);
  }

  predicate Distinct<T(==)>(s: seq<T>) {
    forall i, j | 0 <= i < j < |s| :: s[i] != s[j]
  }

  lemma TakeMore<T>(s: seq<T>, k: nat)
    requires k < |s|
    ensures s[..k + 1] == s[..k] + [s[k]]
  {
  }

  lemma TakeUpdated<T>(s: seq<T>, k: nat, x: T)
    requires k < |s|
    ensures s[k := x][..k + 1] == s[..k] + [x]
  {
  }

  lemma PrefixesMeet<T>(s: seq<T>, t: seq<T>, k: nat)
    requires k < |s| && k < |t| && s[..k] == t[..k] && s[k] == t[k]
    ensures s[..k + 1] == t[..k + 1]
  {
    TakeMore(s, k);
    TakeMore(t, k);
  }

  lemma TakeAll<T>(s: seq<T>)
    ensures s[..|s|] == s
  {
  }

  lemma DropMore<T>(s: seq<T>, k: nat)
    requires k < |s|
    ensures s[k..] != [] && s[k..][0] == s[k] && s[k..][1..] == s[k + 1..]
  {
  }

  lemma Regroup<T>(a: seq<T>, b: seq<T>, c: seq<T>)
    ensures (a + b) + c == a + (b + c)
  {
  }

  lemma DistinctCons<T>(x: T, s: seq<T>)
    ensures Distinct([x] + s) <==> x !in s && Distinct(s)
  {
    var t := [x] + s;
    if Distinct(t) {
      forall i, j | 0 <= i < j < |s| ensures s[i] != s[j] { assert t[i + 1] != t[j + 1]; }
      forall i | 0 <= i < |s| ensures s[i] != x { assert t[0] != t[i + 1]; }
    }
  }

  lemma DistinctSnoc<T>(s: seq<T>, x: T)
    requires Distinct(s) && x !in s
    ensures Distinct(s + [x])
  {
  }

  /** Python's `list.index`. */
  function IndexOf<T(==)>(s: seq<T>, x: T): (i: nat)
    requires x in s
    ensures i < |s| && s[i] == x && forall k | 0 <= k < i :: s[k] != x
  {
    if s[0] == x then 0 else 1 + IndexOf(s[1..], x)
  }

  /** Python's `list.remove`: the first equal element goes. */
  function RemoveFirst<T(==)>(s: seq<T>, x: T): (r: seq<T>)
  {
    if s == [] then [] else if s[0] == x then s[1..] else [s[0]] + RemoveFirst(s[1..], x)
  }

  lemma {:induction false} RemoveFirstMeaning<T(!new)>(s: seq<T>, x: T)
    ensures var r := RemoveFirst(s, x);
            && (x !in s ==> r == s)
            && (x in s ==> |r| == |s| - 1)
            && (forall y :: y in r ==> y in s)
            && (forall y :: y in s && y != x ==> y in r)
  {
    if s == [] {
    } else {
      assert s == [s[0]] + s[1..];
      RemoveFirstMeaning(s[1..], x);
    }
  }

  lemma {:induction false} RemoveFirstOnce<T>(s: seq<T>, x: T)
    ensures multiset(RemoveFirst(s, x)) == multiset(s) - multiset{x}
  {
    if s == [] {
    } else {
      assert s == [s[0]] + s[1..];
      RemoveFirstOnce(s[1..], x);
    }
  }

  /** A list without its later repetitions, as built by appending unseen items. */
  function Dedup<T(==,!new)>(s: seq<T>): (r: seq<T>)
    ensures Distinct(r)
    ensures forall x :: x in r <==> x in s
  {
    if s == [] then []
    else
      var init := Dedup(s[..|s| - 1]);
      var last := s[|s| - 1];
      assert s == s[..|s| - 1] + [last];
      if last in init then init else init + [last]
  }

  lemma FirstStaysFirst<T>(init: seq<T>, last: T, x: T)
    requires x in init + [last]
    ensures IndexOf(init + [last], x) == if x in init then IndexOf(init, x) else |init|
  {
    var s := init + [last];
    var i := IndexOf(s, x);
    assert forall k | 0 <= k < |init| :: s[k] == init[k];
    if x in init {
      var j := IndexOf(init, x);
      assert s[j] == x && !(i < j) && !(j < i);
    }
  }

  /** What is kept stays in the order of first appearance. */
  lemma {:induction false} DedupInOrder<T(!new)>(s: seq<T>)
    ensures forall i, j | 0 <= i < j < |Dedup(s)| :: IndexOf(s, Dedup(s)[i]) < IndexOf(s, Dedup(s)[j])
  {
    if s == [] {
    } else {
      var init, last := s[..|s| - 1], s[|s| - 1];
      assert s == init + [last];
      DedupInOrder(init);
      var r := Dedup(s);
      forall i, j | 0 <= i < j < |r| ensures IndexOf(s, r[i]) < IndexOf(s, r[j]) {
        FirstStaysFirst(init, last, r[i]);
        FirstStaysFirst(init, last, r[j]);
        assert r[i] in Dedup(init);
        if j < |Dedup(init)| { assert r[j] in Dedup(init); }
      }
    }
  }

  /** Code-point order on strings, the order used by Python's `sorted`. */
  predicate LexLeq(a: string, b: string) {
    a == "" || (b != "" && (a[0] < b[0] || (a[0] == b[0] && LexLeq(a[1..], b[1..]))))
  }

  lemma LexTotal(a: string, b: string)
    ensures LexLeq(a, b) || LexLeq(b, a)
    ensures LexLeq(a, b) && LexLeq(b, a) ==> a == b
  {
    if a != "" && b != "" && a[0] == b[0] {
      LexTotal(a[1..], b[1..]);
      assert a == [a[0]] + a[1..] && b == [b[0]] + b[1..];
    }
  }

  lemma LexTransitive(a: string, b: string, c: string)
    requires LexLeq(a, b) && LexLeq(b, c)
    ensures LexLeq(a, c)
  {
    if a != "" && a[0] == b[0] == c[0] {
      LexTransitive(a[1..], b[1..], c[1..]);
    }
  }

  predicate IsLeast(m: string, s: set<string>) {
    m in s && forall x | x in s :: LexLeq(m, x)
  }

  lemma LeastExists(s: set<string>)
    requires s != {}
    ensures exists m :: IsLeast(m, s)
  {
    var x :| x in s;
    LexTotal(x, x);
    if s == {x} {
      assert IsLeast(x, s);
    } else {
      LeastExists(s - {x});
      var m :| IsLeast(m, s - {x});
      LexTotal(m, x);
      if LexLeq(m, x) {
        assert IsLeast(m, s);
      } else {
        forall y | y in s - {x} ensures LexLeq(x, y) { LexTransitive(x, m, y); }
        assert IsLeast(x, s);
      }
    }
  }

  lemma LeastUnique(a: string, b: string, s: set<string>)
    requires IsLeast(a, s) && IsLeast(b, s)
    ensures a == b
  {
    LexTotal(a, b);
  }

  function Least(s: set<string>): (m: string)
    requires s != {}
    ensures IsLeast(m, s)
  {
    LeastExists(s);
    assert forall a, b | IsLeast(a, s) && IsLeast(b, s) :: a == b by {
      forall a, b | IsLeast(a, s) && IsLeast(b, s) ensures a == b { LeastUnique(a, b, s); }
    }
    var m :| IsLeast(m, s);
    m
  }

  /** Python's `sorted` applied to a set of strings. */
  function Sorted(s: set<string>): (r: seq<string>)
    decreases |s|
  {
    if s == {} then []
    else
      var m := Least(s);
      [m] + Sorted(s - {m})
  }

  lemma {:induction false} InSorted(s: set<string>)
    ensures forall x :: x in Sorted(s) <==> x in s
    decreases |s|
  {
    if s == {} {
    } else {
      InSorted(s - {Least(s)});
    }
  }

  lemma {:induction false} SortedInOrder(s: set<string>)
    ensures Distinct(Sorted(s))
    ensures forall i, j | 0 <= i < j < |Sorted(s)| :: LexLeq(Sorted(s)[i], Sorted(s)[j])
    decreases |s|
  {
    if s == {} {
    } else {
      var m := Least(s);
      SortedInOrder(s - {m});
      InSorted(s - {m});
      DistinctCons(m, Sorted(s - {m}));
      forall i, j | 0 <= i < j < |Sorted(s)| ensures LexLeq(Sorted(s)[i], Sorted(s)[j]) {
        if i == 0 { assert Sorted(s)[j] in Sorted(s - {m}); }
      }
    }
  }

  lemma SubsetSize<T>(a: set<T>, b: set<T>)
    requires a <= b
    ensures |a| <= |b|
  {
    if a != {} {
      var x :| x in a;
      SubsetSize(a - {x}, b - {x});
    }
  }
}
