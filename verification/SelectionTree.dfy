/** The flags of the job selection tree (checkbox_ng/urwid_ui.py): a category is
    flagged when some job in it is, whatever keys are pressed. */
module SelectionTree {

  /** The nodes are numbered from the root, 0, so that a parent comes before its
      children. `inner` tells categories, which can hold children, from jobs. */
  datatype Tree = Tree(parent: seq<nat>, children: seq<seq<nat>>, inner: seq<bool>)

  type Flags = seq<bool>

  datatype Key = Space | All | Nothing | Other

  ghost predicate GoodTree(t: Tree) {
    && |t.parent| > 0 && |t.parent| == |t.children| == |t.inner|
    && (forall c | 0 < c < |t.parent| :: t.parent[c] < c && t.inner[t.parent[c]] && c in t.children[t.parent[c]])
    && (forall n: nat, c: nat {:trigger c in t.children[n]} | n < |t.parent| && c in t.children[n] ::
         0 < c < |t.parent| && t.parent[c] == n)
  }

  /** `m` is `n` or one of its descendants. */
  ghost predicate Under(t: Tree, n: nat, m: nat)
    requires GoodTree(t) && m < |t.parent|
    decreases m
  {
    m == n || (m > 0 && Under(t, n, t.parent[m]))
  }

  ghost predicate Below(t: Tree, n: nat, m: nat)
    requires GoodTree(t) && m < |t.parent|
  {
    m != n && Under(t, n, m)
  }

  predicate AnyChild(t: Tree, f: Flags, n: nat)
    requires GoodTree(t) && |f| == |t.parent| && n < |f|
  {
    exists c | c in t.children[n] :: f[c]
  }

  ghost predicate ConsistentAt(t: Tree, f: Flags, n: nat)
    requires GoodTree(t) && |f| == |t.parent| && n < |f|
  {
    t.inner[n] ==> (f[n] <==> AnyChild(t, f, n))
  }

  /** A category is flagged if and only if some child of it is. */
  ghost predicate Consistent(t: Tree, f: Flags)
    requires GoodTree(t) && |f| == |t.parent|
  {
    forall n | 0 <= n < |f| :: ConsistentAt(t, f, n)
  }

  /** No category is empty. */
  ghost predicate Populated(t: Tree)
    requires GoodTree(t)
  {
    forall n | 0 <= n < |t.parent| && t.inner[n] :: t.children[n] != []
  }

  // ----- What the steps do to the flags -----

  /** Everything below the node gets the value. */
  ghost function Spread(t: Tree, f: Flags, n: nat, b: bool): (r: Flags)
    requires GoodTree(t) && |f| == |t.parent|
    ensures |r| == |f|
  {
    seq(|f|, m requires 0 <= m < |f| => if Below(t, n, m) then b else f[m])
  }

  /** Every ancestor gets the value. */
  function RaiseAll(t: Tree, f: Flags, n: nat, b: bool): (r: Flags)
    requires GoodTree(t) && |f| == |t.parent| && n < |f|
    ensures |r| == |f|
    decreases n
  {
    if n == 0 then f else RaiseAll(t, f[t.parent[n] := b], t.parent[n], b)
  }

  /** Ancestors get the value until one has a flagged child. */
  function ClearEmpty(t: Tree, f: Flags, n: nat, b: bool): (r: Flags)
    requires GoodTree(t) && |f| == |t.parent| && n < |f|
    ensures |r| == |f|
    decreases n
  {
    if n == 0 || AnyChild(t, f, t.parent[n]) then f else ClearEmpty(t, f[t.parent[n] := b], t.parent[n], b)
  }

  function Ancestors(t: Tree, f: Flags, n: nat, b: bool): (r: Flags)
    requires GoodTree(t) && |f| == |t.parent| && n < |f|
    ensures |r| == |f|
  {
    if f[n] then RaiseAll(t, f, n, b) else ClearEmpty(t, f, n, b)
  }

  /** The flags after a key, with the focus on node `n`. */
  ghost function Pressed(t: Tree, f: Flags, n: nat, key: Key): (r: Flags)
    requires GoodTree(t) && |f| == |t.parent| && n < |f|
    ensures |r| == |f|
  {
    match key
    case Space => Ancestors(t, Spread(t, f[n := !f[n]], n, !f[n]), n, !f[n])
    case All => Spread(t, f[0 := true], 0, true)
    case Nothing => Spread(t, f[0 := false], 0, false)
    case Other => f
  }

  // ----- The widgets -----

  class Widgets {
    const tree: Tree
    const flagged: array<bool>

    ghost predicate Valid() {
      GoodTree(tree) && flagged.Length == |tree.parent|
    }

    /** Every widget starts flagged; a browser then spreads its starting value
        from the root. */
    constructor (tree: Tree, start: bool)
      requires GoodTree(tree)
      ensures Valid() && this.tree == tree && fresh(flagged)
      ensures forall n | 0 <= n < flagged.Length :: flagged[n] == start
    {
      this.tree := tree;
      flagged := new bool[|tree.parent|](_ => true);
      new;
      flagged[0] := start;
      SetDescendantsState(0, start);
      forall m | 0 <= m < flagged.Length ensures Under(tree, 0, m) { AllUnderRoot(tree, m); }
    }

    /** `set_descendants_state` */
    method SetDescendantsState(n: nat, newState: bool)
      requires Valid() && n < flagged.Length
      modifies flagged
      ensures flagged[..] == Spread(tree, old(flagged[..]), n, newState)
      decreases flagged.Length - n
    {
      ghost var before := flagged[..];
      if !tree.inner[n] {
        forall m | 0 <= m < flagged.Length ensures !Below(tree, n, m) { BelowIsUnderAChild(tree, n, m); }
        return;
      }
      var keys := tree.children[n];
      for i := 0 to |keys|
        invariant forall m | 0 <= m < flagged.Length ::
                    flagged[m] == if UnderAny(tree, keys[..i], m) then newState else before[m]
      {
        assert keys[i] in tree.children[n];
        flagged[keys[i]] := newState;
        SetDescendantsState(keys[i], newState);
        forall m | 0 <= m < flagged.Length
          ensures UnderAny(tree, keys[..i + 1], m) <==> UnderAny(tree, keys[..i], m) || Under(tree, keys[i], m)
        {
          UnderOneMore(tree, keys, i, m);
        }
      }
      forall m | 0 <= m < flagged.Length ensures UnderAny(tree, keys[..|keys|], m) <==> Below(tree, n, m) {
        BelowIsUnderAChild(tree, n, m);
      }
    }

    /** `set_ancestors_state` */
    method SetAncestorsState(n: nat, newState: bool)
      requires Valid() && n < flagged.Length
      modifies flagged
      ensures flagged[..] == Ancestors(tree, old(flagged[..]), n, newState)
    {
      ghost var before := flagged[..];
      var node: nat := n;
      if flagged[n] {
        while node != 0
          invariant node < flagged.Length
          invariant RaiseAll(tree, flagged[..], node, newState) == RaiseAll(tree, before, n, newState)
        {
          ghost var f := flagged[..];
          node := tree.parent[node];
          flagged[node] := newState;
          assert flagged[..] == f[node := newState];
        }
      } else {
        while node != 0
          invariant node < flagged.Length
          invariant ClearEmpty(tree, flagged[..], node, newState) == ClearEmpty(tree, before, n, newState)
        {
          if AnyChild(tree, flagged[..], tree.parent[node]) {
            break;
          }
          ghost var f := flagged[..];
          node := tree.parent[node];
          flagged[node] := newState;
          assert flagged[..] == f[node := newState];
        }
      }
    }

    /** The branches of `unhandled_keys` that set flags. */
    method Press(n: nat, key: Key)
      requires Valid() && n < flagged.Length
      modifies flagged
      ensures flagged[..] == Pressed(tree, old(flagged[..]), n, key)
    {
      ghost var f := flagged[..];
      match key
      case Space =>
        flagged[n] := !flagged[n];
        assert flagged[..] == f[n := !f[n]];
        SetDescendantsState(n, flagged[n]);
        SetAncestorsState(n, flagged[n]);
      case All =>
        flagged[0] := true;
        assert flagged[..] == f[0 := true];
        SetDescendantsState(0, true);
      case Nothing =>
        flagged[0] := false;
        assert flagged[..] == f[0 := false];
        SetDescendantsState(0, false);
      case Other =>
    }
  }

  // ----- Shape of the tree -----

  ghost predicate UnderAny(t: Tree, nodes: seq<nat>, m: nat)
    requires GoodTree(t) && m < |t.parent|
  {
    exists c | c in nodes :: Under(t, c, m)
  }

  lemma UnderOneMore(t: Tree, nodes: seq<nat>, i: nat, m: nat)
    requires GoodTree(t) && m < |t.parent| && i < |nodes|
    ensures UnderAny(t, nodes[..i + 1], m) <==> UnderAny(t, nodes[..i], m) || Under(t, nodes[i], m)
  {
    assert nodes[..i + 1] == nodes[..i] + [nodes[i]];
  }

  lemma {:induction false} AllUnderRoot(t: Tree, m: nat)
    requires GoodTree(t) && m < |t.parent|
    ensures Under(t, 0, m)
    decreases m
  {
    if m == 0 {
    } else {
      AllUnderRoot(t, t.parent[m]);
    }
  }

  lemma {:induction false} UnderIsLater(t: Tree, n: nat, m: nat)
    requires GoodTree(t) && m < |t.parent| && Under(t, n, m)
    ensures n <= m
    decreases m
  {
    if m != n { UnderIsLater(t, n, t.parent[m]); }
  }

  lemma {:induction false} UnderChild(t: Tree, n: nat, c: nat, m: nat)
    requires GoodTree(t) && m < |t.parent| && 0 < c < |t.parent| && t.parent[c] == n && Under(t, c, m)
    ensures Below(t, n, m)
    decreases m
  {
    UnderIsLater(t, c, m);
    if m != c { UnderChild(t, n, c, t.parent[m]); }
  }

  /** Below a node is exactly under one of its children. */
  lemma {:induction false} BelowIsUnderAChild(t: Tree, n: nat, m: nat)
    requires GoodTree(t) && n < |t.parent| && m < |t.parent|
    ensures Below(t, n, m) <==> UnderAny(t, t.children[n], m)
    decreases m
  {
    if c :| c in t.children[n] && Under(t, c, m) {
      UnderChild(t, n, c, m);
    }
    if Below(t, n, m) {
      if t.parent[m] == n {
        assert Under(t, m, m);
      } else {
        BelowIsUnderAChild(t, n, t.parent[m]);
        var c :| c in t.children[n] && Under(t, c, t.parent[m]);
        assert Under(t, c, m);
      }
    }
  }

  // ----- Consistency is kept -----

  /** Consistent everywhere but, perhaps, at the parent of `n`. */
  ghost predicate ConsistentBut(t: Tree, f: Flags, n: nat)
    requires GoodTree(t) && |f| == |t.parent| && n < |f|
  {
    forall m | 0 <= m < |f| && (n == 0 || m != t.parent[n]) :: ConsistentAt(t, f, m)
  }

  lemma SameChildren(t: Tree, f: Flags, g: Flags, n: nat)
    requires GoodTree(t) && |f| == |g| == |t.parent| && n < |f|
    requires forall c | c in t.children[n] :: f[c] == g[c]
    ensures AnyChild(t, f, n) == AnyChild(t, g, n)
  {
  }

  /** Making the parent agree with its children leaves only its own parent in
      doubt. */
  lemma ParentFixed(t: Tree, f: Flags, n: nat, b: bool)
    requires GoodTree(t) && |f| == |t.parent| && 0 < n < |f| && ConsistentBut(t, f, n)
    requires AnyChild(t, f, t.parent[n]) == b
    ensures ConsistentBut(t, f[t.parent[n] := b], t.parent[n])
  {
    var p, g := t.parent[n], f[t.parent[n] := b];
    forall m | 0 <= m < |f| && (p == 0 || m != t.parent[p]) ensures ConsistentAt(t, g, m) {
      SameChildren(t, f, g, m);
      if m != p { assert ConsistentAt(t, f, m); }
    }
  }

  lemma {:induction false} RaiseAllKeeps(t: Tree, f: Flags, n: nat)
    requires GoodTree(t) && |f| == |t.parent| && n < |f| && ConsistentBut(t, f, n) && f[n]
    ensures Consistent(t, RaiseAll(t, f, n, true))
    ensures forall m | 0 <= m < |f| && !t.inner[m] :: RaiseAll(t, f, n, true)[m] == f[m]
    decreases n
  {
    if n == 0 {
    } else {
      ParentFixed(t, f, n, true);
      RaiseAllKeeps(t, f[t.parent[n] := true], t.parent[n]);
    }
  }

  lemma {:induction false} ClearEmptyKeeps(t: Tree, f: Flags, n: nat)
    requires GoodTree(t) && |f| == |t.parent| && n < |f| && ConsistentBut(t, f, n)
    requires !f[n] && (n > 0 ==> f[t.parent[n]])
    ensures Consistent(t, ClearEmpty(t, f, n, false))
    ensures forall m | 0 <= m < |f| && !t.inner[m] :: ClearEmpty(t, f, n, false)[m] == f[m]
    decreases n
  {
    if n == 0 {
    } else {
      var p := t.parent[n];
      if AnyChild(t, f, p) {
        assert ConsistentAt(t, f, p);
      } else {
        ParentFixed(t, f, n, false);
        if p > 0 {
          assert ConsistentAt(t, f, t.parent[p]) && f[p] && p in t.children[t.parent[p]];
        }
        ClearEmptyKeeps(t, f[p := false], p);
      }
    }
  }

  /** Giving a node and all below it one value leaves only its parent in doubt. */
  lemma SpreadKeeps(t: Tree, f: Flags, n: nat, b: bool)
    requires GoodTree(t) && Populated(t) && |f| == |t.parent| && n < |f|
    requires Consistent(t, f) || n == 0
    ensures var g := Spread(t, f[n := b], n, b);
            ConsistentBut(t, g, n) && forall m | 0 <= m < |f| :: g[m] == if Under(t, n, m) then b else f[m]
  {
    var g := Spread(t, f[n := b], n, b);
    forall m | 0 <= m < |f| && (n == 0 || m != t.parent[n]) ensures ConsistentAt(t, g, m) {
      if n == 0 { AllUnderRoot(t, m); }
      if Under(t, n, m) {
        if t.inner[m] {
          assert t.children[m][0] in t.children[m];
          forall c | c in t.children[m] ensures g[c] == b { assert Under(t, n, c); }
        }
      } else {
        assert ConsistentAt(t, f, m);
        SameChildren(t, f, g, m);
      }
    }
  }

  // ----- What the keys mean -----

  /** The flagged jobs. */
  ghost function Selected(t: Tree, f: Flags): set<nat>
    requires GoodTree(t) && |f| == |t.parent|
  {
    set m | 0 <= m < |f| && !t.inner[m] && f[m]
  }

  ghost function JobsUnder(t: Tree, n: nat): set<nat>
    requires GoodTree(t)
  {
    set m | 0 <= m < |t.parent| && !t.inner[m] && Under(t, n, m)
  }

  /** What a key does to the selection, told without any tree of flags: Space
      takes all jobs under the node out if one of them is in, else puts all in. */
  ghost function Chosen(t: Tree, jobs: set<nat>, n: nat, key: Key): set<nat>
    requires GoodTree(t)
  {
    match key
    case Space => if jobs * JobsUnder(t, n) != {} then jobs - JobsUnder(t, n) else jobs + JobsUnder(t, n)
    case All => JobsUnder(t, 0)
    case Nothing => {}
    case Other => jobs
  }

  /** A node is flagged exactly when some job under it is. */
  lemma {:induction false} FlagMeansJob(t: Tree, f: Flags, n: nat)
    requires GoodTree(t) && |f| == |t.parent| && n < |f| && Consistent(t, f)
    ensures f[n] <==> Selected(t, f) * JobsUnder(t, n) != {}
    decreases |f| - n
  {
    assert ConsistentAt(t, f, n);
    if f[n] {
      if t.inner[n] {
        var c :| c in t.children[n] && f[c];
        FlagMeansJob(t, f, c);
        var m :| m in Selected(t, f) * JobsUnder(t, c);
        UnderChild(t, n, c, m);
        assert m in Selected(t, f) * JobsUnder(t, n);
      } else {
        assert n in Selected(t, f) * JobsUnder(t, n);
      }
    }
    if m :| m in Selected(t, f) * JobsUnder(t, n) {
      if m != n {
        BelowIsUnderAChild(t, n, m);
        var c :| c in t.children[n] && Under(t, c, m);
        assert m in Selected(t, f) * JobsUnder(t, c);
        FlagMeansJob(t, f, c);
      }
    }
  }

  lemma {:induction false} RaiseAllAbove(t: Tree, f: Flags, n: nat, b: bool)
    requires GoodTree(t) && |f| == |t.parent| && n < |f|
    ensures forall m | 0 <= m < |f| :: RaiseAll(t, f, n, b)[m] == if Below(t, m, n) then b else f[m]
    decreases n
  {
    if n == 0 {
      forall m | 0 <= m < |f| ensures !Below(t, m, 0) { }
    } else {
      var p := t.parent[n];
      RaiseAllAbove(t, f[p := b], p, b);
      forall m | 0 <= m < |f| ensures Below(t, m, n) <==> m == p || Below(t, m, p) { BelowParent(t, m, n); }
    }
  }

  lemma BelowParent(t: Tree, m: nat, n: nat)
    requires GoodTree(t) && m < |t.parent| && 0 < n < |t.parent|
    ensures Below(t, m, n) <==> Under(t, m, t.parent[n])
  {
    if Under(t, m, t.parent[n]) { UnderIsLater(t, m, t.parent[n]); }
  }

  lemma {:induction false} ClearEmptyAbove(t: Tree, f: Flags, n: nat, b: bool)
    requires GoodTree(t) && |f| == |t.parent| && n < |f|
    ensures forall m | 0 <= m < |f| && !Below(t, m, n) :: ClearEmpty(t, f, n, b)[m] == f[m]
    ensures forall m | 0 <= m < |f| :: ClearEmpty(t, f, n, b)[m] in {f[m], b}
    decreases n
  {
    if n > 0 && !AnyChild(t, f, t.parent[n]) {
      var p := t.parent[n];
      ClearEmptyAbove(t, f[p := b], p, b);
      forall m | 0 <= m < |f| ensures Below(t, m, n) <==> m == p || Below(t, m, p) { BelowParent(t, m, n); }
    }
  }

  /** On any tree and any flags: Space turns the flag of its node and gives it to
      everything below; it touches nothing else but what is above the node, and
      there it sets every flag, or clears some. The other two keys give all nodes
      one flag. */
  lemma PressTouches(t: Tree, f: Flags, n: nat, m: nat)
    requires GoodTree(t) && |f| == |t.parent| && n < |f| && m < |f|
    ensures Under(t, n, m) ==> Pressed(t, f, n, Space)[m] == !f[n]
    ensures !Under(t, n, m) && !Under(t, m, n) ==> Pressed(t, f, n, Space)[m] == f[m]
    ensures Below(t, m, n) && !f[n] ==> Pressed(t, f, n, Space)[m]
    ensures Below(t, m, n) && f[n] ==> (Pressed(t, f, n, Space)[m] ==> f[m])
    ensures Pressed(t, f, n, All)[m] && !Pressed(t, f, n, Nothing)[m] && Pressed(t, f, n, Other)[m] == f[m]
  {
    var g := Spread(t, f[n := !f[n]], n, !f[n]);
    if Under(t, n, m) { UnderIsLater(t, n, m); }
    if Under(t, m, n) { UnderIsLater(t, m, n); }
    AllUnderRoot(t, m);
    if f[n] { ClearEmptyAbove(t, g, n, false); } else { RaiseAllAbove(t, g, n, true); }
  }

  /** One key keeps the tree consistent and does to the flagged jobs what it
      should: no job elsewhere in the tree changes. */
  lemma PressRefines(t: Tree, f: Flags, n: nat, key: Key)
    requires GoodTree(t) && Populated(t) && |f| == |t.parent| && n < |f| && Consistent(t, f)
    ensures Consistent(t, Pressed(t, f, n, key))
    ensures Selected(t, Pressed(t, f, n, key)) == Chosen(t, Selected(t, f), n, key)
  {
    match key
    case Space =>
      var g := Spread(t, f[n := !f[n]], n, !f[n]);
      SpreadKeeps(t, f, n, !f[n]);
      FlagMeansJob(t, f, n);
      if f[n] {
        if n > 0 {
          assert ConsistentAt(t, f, t.parent[n]) && n in t.children[t.parent[n]];
          if Under(t, n, t.parent[n]) { UnderIsLater(t, n, t.parent[n]); }
        }
        ClearEmptyKeeps(t, g, n);
      } else {
        RaiseAllKeeps(t, g, n);
      }
    case All =>
      SpreadKeeps(t, f, 0, true);
      forall m | 0 <= m < |f| { AllUnderRoot(t, m); }
    case Nothing =>
      SpreadKeeps(t, f, 0, false);
      forall m | 0 <= m < |f| { AllUnderRoot(t, m); }
    case Other =>
  }

  ghost function PressedAll(t: Tree, f: Flags, keys: seq<(nat, Key)>): (r: Flags)
    requires GoodTree(t) && |f| == |t.parent| && forall i | 0 <= i < |keys| :: keys[i].0 < |f|
    ensures |r| == |f|
    decreases |keys|
  {
    if keys == [] then f else PressedAll(t, Pressed(t, f, keys[0].0, keys[0].1), keys[1..])
  }

  ghost function ChosenAll(t: Tree, jobs: set<nat>, keys: seq<(nat, Key)>): set<nat>
    requires GoodTree(t)
    decreases |keys|
  {
    if keys == [] then jobs else ChosenAll(t, Chosen(t, jobs, keys[0].0, keys[0].1), keys[1..])
  }

  /** The same over any sequence of keys, the focus moving at will. */
  lemma {:induction false} KeysRefine(t: Tree, f: Flags, keys: seq<(nat, Key)>)
    requires GoodTree(t) && Populated(t) && |f| == |t.parent| && Consistent(t, f)
    requires forall i | 0 <= i < |keys| :: keys[i].0 < |f|
    ensures Consistent(t, PressedAll(t, f, keys))
    ensures Selected(t, PressedAll(t, f, keys)) == ChosenAll(t, Selected(t, f), keys)
    decreases |keys|
  {
    if keys == [] {
    } else {
      PressRefines(t, f, keys[0].0, keys[0].1);
      KeysRefine(t, Pressed(t, f, keys[0].0, keys[0].1), keys[1..]);
    }
  }

  ghost function Uniform(t: Tree, b: bool): Flags {
    seq(|t.parent|, _ => b)
  }

  /** The browsers stay consistent whatever is pressed if and only if no category
      is empty: an empty one keeps the flag that "select all" gives it. */
  lemma ConsistentExactlyWhenPopulated(t: Tree, start: bool)
    requires GoodTree(t)
    ensures Populated(t)
            <==> forall keys: seq<(nat, Key)> | (forall i | 0 <= i < |keys| :: keys[i].0 < |t.parent|) ::
                   Consistent(t, PressedAll(t, Uniform(t, start), keys))
  {
    if Populated(t) {
      forall keys: seq<(nat, Key)> | forall i | 0 <= i < |keys| :: keys[i].0 < |t.parent|
        ensures Consistent(t, PressedAll(t, Uniform(t, start), keys))
      {
        forall n | 0 <= n < |t.parent| ensures ConsistentAt(t, Uniform(t, start), n) {
          if t.inner[n] { assert t.children[n][0] in t.children[n]; }
        }
        KeysRefine(t, Uniform(t, start), keys);
      }
    } else {
      var n :| 0 <= n < |t.parent| && t.inner[n] && t.children[n] == [];
      AllUnderRoot(t, n);
      var keys := [(0, All)];
      var f := PressedAll(t, Uniform(t, start), keys);
      assert keys[1..] == [] && f == Pressed(t, Uniform(t, start), 0, All);
      assert !ConsistentAt(t, f, n);
    }
  }
}
