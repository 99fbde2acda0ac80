/** How high the finished trees are, and how few of their branches hold no chunk. */
module TreeHeights {
  import opened HashTypes
  import opened TreeShape
  import opened TreeShapeLaws

  // ---------------------------------------------------------------- heights

  ghost predicate WellFormed(t: Tree)
    decreases t
  {
    t.Branch? ==> t.height > 0 && forall k | k in t.kids :: WellFormed(k) && k.Height() == t.height - 1
  }

  /** Every tree on level `i` of `f` is well formed and has height `h + i`. */
  ghost predicate Levelled(h: nat, f: seq<seq<Tree>>) {
    forall i, t | 0 <= i < |f| && t in f[i] :: WellFormed(t) && t.Height() == h + i
  }

  lemma LevelledTail(h: nat, f: seq<seq<Tree>>)
    requires Levelled(h, f) && f != []
    ensures Levelled(h + 1, f[1..])
  {
  }

  lemma LevelledCons(h: nat, f: seq<seq<Tree>>)
    requires Levelled(h + 1, f)
    ensures Levelled(h, [[]] + f)
  {
  }

  lemma {:induction false} PushLevelled(order: nat, h: nat, f: seq<seq<Tree>>, t: Tree)
    requires order >= 2 && Levelled(h, f) && WellFormed(t) && t.Height() == h
    ensures Levelled(h, Push(order, h, f, t))
    decreases |f|
  {
    if f != [] && |f[0]| + 1 == order {
      LevelledTail(h, f);
      PushLevelled(order, h + 1, f[1..], Branch(h + 1, f[0] + [t]));
      LevelledCons(h, Push(order, h + 1, f[1..], Branch(h + 1, f[0] + [t])));
    }
  }

  lemma CollapseLevelled(order: nat, h: nat, f: seq<seq<Tree>>)
    requires order >= 2 && |f| > 0 && Levelled(h, f)
    ensures Levelled(h, Collapse(order, h, f))
  {
    LevelledTail(h, f);
    PushLevelled(order, h + 1, f[1..], Branch(h + 1, f[0]));
    LevelledCons(h, Push(order, h + 1, f[1..], Branch(h + 1, f[0])));
  }

  lemma {:induction false} CollapseUpToLevelled(order: nat, h: nat, f: seq<seq<Tree>>, count: nat)
    requires order >= 2 && count < |f| && Levelled(h, f)
    ensures Levelled(h, CollapseUpTo(order, h, f, count))
    decreases count
  {
    if count > 0 {
      var c := Collapse(order, h, f);
      CollapseLevelled(order, h, f);
      LevelledTail(h, c);
      CollapseUpToLevelled(order, h + 1, c[1..], count - 1);
      LevelledCons(h, CollapseUpTo(order, h + 1, c[1..], count - 1));
    }
  }

  lemma LevelledSplit(f: seq<seq<Tree>>, n: nat, g: seq<seq<Tree>>)
    requires n <= |f| && Levelled(0, f) && Levelled(n, g)
    ensures Levelled(n, f[n..]) && Levelled(0, f[..n] + g)
  {
  }

  lemma LoopedLevelled(order: nat, f: seq<seq<Tree>>)
    requires order >= 2 && Usable(f) && Levelled(0, f)
    ensures Levelled(0, Looped(order, f))
  {
    var first := EmptyPrefix(f);
    LevelledSplit(f, first, []);
    CollapseUpToLevelled(order, first, f[first..], |f| - 1 - first);
    LevelledSplit(f, first, CollapseUpTo(order, first, f[first..], |f| - 1 - first));
  }

  lemma FinishLevelled(order: nat, f: seq<seq<Tree>>, withInfo: bool)
    requires order >= 2 && Usable(f) && Levelled(0, f)
    ensures Levelled(0, Finish(order, f, withInfo))
  {
    LoopedLevelled(order, f);
    var g := Looped(order, f);
    var top := |g| - 1;
    LevelledSplit(g, top, []);
    CollapseLevelled(order, top, g[top..]);
    LevelledSplit(g, top, Collapse(order, top, g[top..]));
  }

  lemma {:induction false} AppendAllLevelled(order: nat, f: seq<seq<Tree>>, chunks: seq<Chunk>)
    requires order >= 2 && Levelled(0, f)
    ensures Levelled(0, AppendAll(order, f, chunks))
    decreases |chunks|
  {
    if chunks != [] {
      AppendAllLevelled(order, f, chunks[..|chunks| - 1]);
      PushLevelled(order, 0, AppendAll(order, f, chunks[..|chunks| - 1]), Leaf(chunks[|chunks| - 1]));
    }
  }

  /** No branch has more than `order` kids. */
  ghost predicate Narrow(order: nat, t: Tree)
    decreases t
  {
    t.Branch? ==> |t.kids| <= order && forall k | k in t.kids :: Narrow(order, k)
  }

  /** No level is full, and all trees are narrow. */
  ghost predicate NarrowForest(order: nat, f: seq<seq<Tree>>) {
    forall i | 0 <= i < |f| :: |f[i]| < order && forall t | t in f[i] :: Narrow(order, t)
  }

  lemma NarrowSplit(order: nat, f: seq<seq<Tree>>, n: nat, g: seq<seq<Tree>>)
    requires n <= |f| && NarrowForest(order, f) && NarrowForest(order, g)
    ensures NarrowForest(order, f[n..]) && NarrowForest(order, f[..n] + g)
  {
  }

  lemma NarrowCons(order: nat, f: seq<seq<Tree>>)
    requires order >= 2 && NarrowForest(order, f)
    ensures NarrowForest(order, [[]] + f)
  {
  }

  lemma {:induction false} PushNarrow(order: nat, h: nat, f: seq<seq<Tree>>, t: Tree)
    requires order >= 2 && NarrowForest(order, f) && Narrow(order, t)
    ensures NarrowForest(order, Push(order, h, f, t))
    decreases |f|
  {
    if f != [] && |f[0]| + 1 == order {
      var b := Branch(h + 1, f[0] + [t]);
      PushNarrow(order, h + 1, f[1..], b);
      NarrowCons(order, Push(order, h + 1, f[1..], b));
    }
  }

  lemma CollapseNarrow(order: nat, h: nat, f: seq<seq<Tree>>)
    requires order >= 2 && |f| > 0 && NarrowForest(order, f)
    ensures NarrowForest(order, Collapse(order, h, f))
  {
    var b := Branch(h + 1, f[0]);
    NarrowSplit(order, f, 1, []);
    PushNarrow(order, h + 1, f[1..], b);
    NarrowCons(order, Push(order, h + 1, f[1..], b));
  }

  lemma {:induction false} CollapseUpToNarrow(order: nat, h: nat, f: seq<seq<Tree>>, count: nat)
    requires order >= 2 && count < |f| && NarrowForest(order, f)
    ensures NarrowForest(order, CollapseUpTo(order, h, f, count))
    decreases count
  {
    if count > 0 {
      var c := Collapse(order, h, f);
      CollapseNarrow(order, h, f);
      NarrowSplit(order, c, 1, []);
      CollapseUpToNarrow(order, h + 1, c[1..], count - 1);
      NarrowCons(order, CollapseUpTo(order, h + 1, c[1..], count - 1));
    }
  }

  lemma FinishNarrow(order: nat, f: seq<seq<Tree>>, withInfo: bool)
    requires order >= 2 && Usable(f) && NarrowForest(order, f)
    ensures NarrowForest(order, Finish(order, f, withInfo))
  {
    var first := EmptyPrefix(f);
    NarrowSplit(order, f, first, []);
    CollapseUpToNarrow(order, first, f[first..], |f| - 1 - first);
    NarrowSplit(order, f, first, CollapseUpTo(order, first, f[first..], |f| - 1 - first));
    var g := Looped(order, f);
    var top := |g| - 1;
    NarrowSplit(order, g, top, []);
    CollapseNarrow(order, top, g[top..]);
    NarrowSplit(order, g, top, Collapse(order, top, g[top..]));
  }

  lemma {:induction false} AppendAllNarrow(order: nat, chunks: seq<Chunk>)
    requires order >= 2
    ensures NarrowForest(order, AppendAll(order, [], chunks))
    decreases |chunks|
  {
    if chunks != [] {
      AppendAllNarrow(order, chunks[..|chunks| - 1]);
      PushNarrow(order, 0, AppendAll(order, [], chunks[..|chunks| - 1]), Leaf(chunks[|chunks| - 1]));
    }
  }

  /** A narrow tree of height `h` holds at most `order^h` chunks. */
  lemma {:induction false} NarrowLeaves(order: nat, t: Tree)
    requires order >= 2 && Narrow(order, t) && WellFormed(t)
    ensures |Leaves(t)| <= Pow(order, t.Height())
    decreases t, 1
  {
    if t.Branch? {
      NarrowLeavesAll(order, t.kids, t.height - 1);
      MulMonotone(|t.kids|, order, Pow(order, t.height - 1));
    }
  }

  lemma {:induction false} NarrowLeavesAll(order: nat, ts: seq<Tree>, h: nat)
    requires order >= 2 && forall k | k in ts :: Narrow(order, k) && WellFormed(k) && k.Height() == h
    ensures |LeavesAll(ts)| <= |ts| * Pow(order, h)
    decreases ts, 0
  {
    if ts != [] {
      NarrowLeaves(order, ts[0]);
      NarrowLeavesAll(order, ts[1..], h);
      assert |ts| * Pow(order, h) == Pow(order, h) + (|ts| - 1) * Pow(order, h);
    }
  }

  lemma MulMonotone(a: nat, b: nat, c: nat)
    requires a <= b
    ensures a * c <= b * c
  {
  }

  lemma PowGrows(b: nat, e: nat)
    requires b >= 2 && e > 0
    ensures Pow(b, e - 1) < Pow(b, e)
  {
    PowMonotone(b, 0, e - 1);
    MulMonotone(2, b, Pow(b, e - 1));
  }

  /** The number of levels after `hash()` and the number `n` of chunks. */
  lemma LevelsBound(order: nat, f: seq<seq<Tree>>, n: nat, withInfo: bool)
    requires order >= 2 && Digits(order, f, n) && n > 0 && Usable(f)
    ensures var h := |Finish(order, f, withInfo)| - 1; var slack := if withInfo then 2 else 1;
      h >= slack ==> Pow(order, h - slack) < n
  {
    hide Finish, Looped, Digits, Pow;
    DigitsBound(order, f, n);
    FinishLevels(order, f, withInfo);
    LoopedShape(order, f);
    var t := |f| - 1;
    if n == Pow(order, t) {
      DigitsOfPow(order, f, n);
      LoopedAlone(order, f);
    }
    if t > 0 { PowGrows(order, t); }
  }

  lemma RootHeight(order: nat, f: seq<seq<Tree>>, n: nat, withInfo: bool)
    requires order >= 2 && Usable(f) && Levelled(0, f) && NarrowForest(order, f) && Digits(order, f, n) && n > 0
    requires Usable(Finish(order, f, withInfo))
    ensures var root := Root(Finish(order, f, withInfo)); var slack := if withInfo then 2 else 1;
      && WellFormed(root) && Narrow(order, root) && (withInfo ==> root.Branch?)
      && (root.Height() >= slack ==> Pow(order, root.Height() - slack) < n)
  {
    hide Finish, Pow, Digits;
    FinishLevelled(order, f, withInfo);
    FinishNarrow(order, f, withInfo);
    FinishLevels(order, f, withInfo);
    LevelsBound(order, f, n, withInfo);
    var r := Finish(order, f, withInfo);
    assert Root(r) in r[|r| - 1];
  }

  lemma AppendUsable(order: nat, chunks: seq<Chunk>)
    requires order >= 2 && chunks != []
    ensures var f := AppendAll(order, [], chunks); Usable(f) && Pow(order, |f| - 1) <= |chunks|
  {
    AppendAllDigits(order, chunks);
    DigitsBound(order, AppendAll(order, [], chunks), |chunks|);
  }

  lemma BuiltUsable(order: nat, chunks: seq<Chunk>, withInfo: bool)
    requires order >= 2 && chunks != []
    ensures var f := AppendAll(order, [], chunks); Usable(f) && Usable(Finish(order, f, withInfo))
  {
    AppendUsable(order, chunks);
    FinishRoot(order, AppendAll(order, [], chunks), withInfo);
  }

  /** The tree `hash()` reports after appending `chunks` to a fresh writer. */
  function Built(order: nat, chunks: seq<Chunk>, withInfo: bool): Tree
    requires order >= 2 && chunks != []
  {
    BuiltUsable(order, chunks, withInfo);
    Root(Finish(order, AppendAll(order, [], chunks), withInfo))
  }

  /** The reported tree holds all chunks in order and is as low as it can be: its height is the least `h` with
      `order^h` at least the number of chunks, or one more when file information forces a branch on top. */
  lemma BuiltHeight(order: nat, chunks: seq<Chunk>, withInfo: bool)
    requires order >= 2 && chunks != []
    ensures var root := Built(order, chunks, withInfo); var h := root.Height(); var slack := if withInfo then 2 else 1;
      && Leaves(root) == chunks && WellFormed(root) && (withInfo ==> root.Branch?)
      && |chunks| <= Pow(order, h) && (h >= slack ==> Pow(order, h - slack) < |chunks|)
  {
    hide Finish, Pow, Digits, Levelled, NarrowForest, Narrow, WellFormed, Leaves, Usable, AppendAll, Root;
    var f := AppendAll(order, [], chunks);
    AppendAllDigits(order, chunks);
    BuiltUsable(order, chunks, withInfo);
    BuiltLeaves(order, chunks, withInfo);
    AppendAllLevelled(order, [], chunks);
    AppendAllNarrow(order, chunks);
    RootHeight(order, f, |chunks|, withInfo);
    NarrowLeaves(order, Built(order, chunks, withInfo));
  }

  lemma BuiltLeaves(order: nat, chunks: seq<Chunk>, withInfo: bool)
    requires order >= 2 && chunks != []
    ensures Leaves(Built(order, chunks, withInfo)) == chunks
  {
    BuiltUsable(order, chunks, withInfo);
    AppendAllLeaves(order, [], chunks);
    FinishRoot(order, AppendAll(order, [], chunks), withInfo);
  }

  lemma {:induction false} PowMonotone(b: nat, e: nat, e': nat)
    requires b >= 1 && e <= e'
    ensures 1 <= Pow(b, e) <= Pow(b, e')
    decreases e'
  {
    if e < e' {
      PowMonotone(b, e, e' - 1);
      MulAtLeast(b, Pow(b, e' - 1));
    } else if e > 0 {
      PowMonotone(b, e - 1, e - 1);
      MulAtLeast(b, Pow(b, e - 1));
    }
  }

  // ---------------------------------------------------------------- leafless branches

  /** How many branches of height `x` inside `t` hold no chunk at all. */
  function Leafless(t: Tree, x: nat): nat
    decreases t, 1
  {
    match t
    case Leaf(_) => 0
    case Branch(ht, kids) => (if ht == x && Leaves(t) == [] then 1 else 0) + LeaflessAll(kids, x)
  }

  function LeaflessAll(ts: seq<Tree>, x: nat): nat
    decreases ts, 0
  {
    if ts == [] then 0 else Leafless(ts[0], x) + LeaflessAll(ts[1..], x)
  }

  function LeaflessForest(f: seq<seq<Tree>>, x: nat): nat {
    if f == [] then 0 else LeaflessAll(f[0], x) + LeaflessForest(f[1..], x)
  }

  lemma {:induction false} LeaflessAllAppend(a: seq<Tree>, b: seq<Tree>, x: nat)
    ensures LeaflessAll(a + b, x) == LeaflessAll(a, x) + LeaflessAll(b, x)
  {
    if a == [] {
      assert a + b == b;
    } else {
      assert (a + b)[1..] == a[1..] + b;
      LeaflessAllAppend(a[1..], b, x);
    }
  }

  lemma LeaflessAllSnoc(a: seq<Tree>, t: Tree, x: nat)
    ensures LeaflessAll(a + [t], x) == LeaflessAll(a, x) + Leafless(t, x)
  {
    LeaflessAllAppend(a, [t], x);
    assert [t][1..] == [];
  }

  lemma LeaflessCons(level: seq<Tree>, f: seq<seq<Tree>>, x: nat)
    ensures LeaflessForest([level] + f, x) == LeaflessAll(level, x) + LeaflessForest(f, x)
  {
  }

  /** A cascade makes no leafless branch, so `Push` only adds what `t` brings along. */
  lemma {:induction false} PushLeafless(order: nat, h: nat, f: seq<seq<Tree>>, t: Tree, x: nat)
    requires order >= 2
    requires Leaves(t) != [] || f == [] || |f[0]| + 1 != order || LeavesAll(f[0]) != []
    ensures LeaflessForest(Push(order, h, f, t), x) == LeaflessForest(f, x) + Leafless(t, x)
    decreases |f|
  {
    if f == [] {
      LeaflessAllSnoc([], t, x);
      assert [] + [t] == [t];
      LeaflessCons([t], [], x);
    } else {
      LeaflessAllSnoc(f[0], t, x);
      if |f[0]| + 1 == order {
        var b := Branch(h + 1, f[0] + [t]);
        LeavesAllSnoc(f[0], t);
        PushLeafless(order, h + 1, f[1..], b, x);
        LeaflessCons([], Push(order, h + 1, f[1..], b), x);
      } else {
        LeaflessCons(f[0] + [t], f[1..], x);
      }
    }
  }

  /** At most one leafless branch per height, and none above height `h`. */
  ghost predicate Sparse(h: nat, f: seq<seq<Tree>>) {
    forall x: nat :: LeaflessForest(f, x) <= 1 && (x > h ==> LeaflessForest(f, x) == 0)
  }

  lemma {:induction false} LeaflessMember(ts: seq<Tree>, t: Tree)
    requires t in ts && Leaves(t) == []
    ensures LeaflessAll(ts, t.Height()) >= 1
  {
    if t != ts[0] {
      assert t in ts[1..];
      LeaflessMember(ts[1..], t);
    }
  }

  lemma LevelNotLeafless(h: nat, f: seq<seq<Tree>>)
    requires |f| > 1 && f[1] != [] && Levelled(h, f) && Sparse(h, f)
    ensures LeavesAll(f[1]) != []
  {
    var t := f[1][0];
    if Leaves(t) == [] {
      LeaflessMember(f[1], t);
    }
    LeaflessLevel(f, 1, h + 1);
  }

  lemma CollapseSparse(order: nat, h: nat, f: seq<seq<Tree>>)
    requires order >= 2 && |f| > 0 && Levelled(h, f) && Sparse(h, f)
    ensures Sparse(h + 1, Collapse(order, h, f)[1..])
  {
    var b := Branch(h + 1, f[0]);
    var c := Collapse(order, h, f);
    if |f| > 1 && f[1] != [] {
      LevelNotLeafless(h, f);
    }
    forall x: nat
      ensures LeaflessForest(c[1..], x) <= 1 && (x > h + 1 ==> LeaflessForest(c[1..], x) == 0)
    {
      PushLeafless(order, h + 1, f[1..], b, x);
      assert c[1..] == Push(order, h + 1, f[1..], b);
      assert LeaflessForest(f, x) == LeaflessAll(f[0], x) + LeaflessForest(f[1..], x);
    }
  }

  lemma {:induction false} CollapseUpToSparse(order: nat, h: nat, f: seq<seq<Tree>>, count: nat)
    requires order >= 2 && count < |f| && Levelled(h, f) && Sparse(h, f)
    ensures Sparse(h + count, CollapseUpTo(order, h, f, count))
    decreases count
  {
    if count > 0 {
      var c := Collapse(order, h, f);
      CollapseSparse(order, h, f);
      CollapseLevelled(order, h, f);
      LevelledTail(h, c);
      CollapseUpToSparse(order, h + 1, c[1..], count - 1);
      var r := CollapseUpTo(order, h + 1, c[1..], count - 1);
      forall x: nat
        ensures LeaflessForest([c[0]] + r, x) == LeaflessForest(r, x)
      {
        LeaflessCons([], r, x);
      }
    }
  }

  lemma {:induction false} LeaflessForestSplit(a: seq<seq<Tree>>, b: seq<seq<Tree>>, x: nat)
    ensures LeaflessForest(a + b, x) == LeaflessForest(a, x) + LeaflessForest(b, x)
  {
    if a == [] {
      assert a + b == b;
    } else {
      assert (a + b)[1..] == a[1..] + b;
      LeaflessForestSplit(a[1..], b, x);
    }
  }

  lemma {:induction false} EmptyLevels(f: seq<seq<Tree>>, x: nat)
    requires forall i :: 0 <= i < |f| ==> f[i] == []
    ensures LeaflessForest(f, x) == 0
  {
    if f != [] { EmptyLevels(f[1..], x); }
  }

  lemma {:induction false} AppendAllLeafless(order: nat, chunks: seq<Chunk>, x: nat)
    requires order >= 2
    ensures LeaflessForest(AppendAll(order, [], chunks), x) == 0
    decreases |chunks|
  {
    if chunks != [] {
      var front := chunks[..|chunks| - 1];
      AppendAllLeafless(order, front, x);
      PushLeafless(order, 0, AppendAll(order, [], front), Leaf(chunks[|chunks| - 1]), x);
    }
  }

  lemma {:induction false} LeaflessLevel(f: seq<seq<Tree>>, i: nat, x: nat)
    requires i < |f|
    ensures LeaflessAll(f[i], x) <= LeaflessForest(f, x)
  {
    if i > 0 { LeaflessLevel(f[1..], i - 1, x); }
  }

  lemma SuffixLeafless(f: seq<seq<Tree>>, n: nat, x: nat)
    requires n <= |f|
    ensures LeaflessForest(f[n..], x) <= LeaflessForest(f, x)
  {
    assert f == f[..n] + f[n..];
    LeaflessForestSplit(f[..n], f[n..], x);
  }

  lemma LoopedLeafless(order: nat, f: seq<seq<Tree>>, x: nat)
    requires order >= 2 && Usable(f) && Levelled(0, f)
    requires forall y: nat :: LeaflessForest(f, y) == 0
    ensures LeaflessForest(Looped(order, f), x) <= 1
  {
    var first := EmptyPrefix(f);
    forall y: nat
      ensures LeaflessForest(f[first..], y) == 0
    {
      SuffixLeafless(f, first, y);
    }
    LevelledSplit(f, first, []);
    CollapseUpToSparse(order, first, f[first..], |f| - 1 - first);
    var r := CollapseUpTo(order, first, f[first..], |f| - 1 - first);
    assert LeaflessForest(r, x) <= 1;
    EmptyLevels(f[..first], x);
    LeaflessForestSplit(f[..first], r, x);
  }

  /** In the tree one `hash()` call builds over any chunks, each height has at most one branch
      without chunks below it. */
  lemma BuiltLeafless(order: nat, chunks: seq<Chunk>, withInfo: bool, x: nat)
    requires order >= 2 && chunks != []
    ensures Leafless(Built(order, chunks, withInfo), x) <= 1
  {
    var f := AppendAll(order, [], chunks);
    BuiltUsable(order, chunks, withInfo);
    BuiltLeaves(order, chunks, withInfo);
    AppendAllLevelled(order, [], chunks);
    forall y: nat
      ensures LeaflessForest(f, y) == 0
    {
      AppendAllLeafless(order, chunks, y);
    }
    LoopedLeafless(order, f, x);
    LoopedShape(order, f);
    RootLeaflessTop(order, Looped(order, f), chunks, withInfo, x);
  }

  lemma RootLeaflessTop(order: nat, g: seq<seq<Tree>>, chunks: seq<Chunk>, withInfo: bool, x: nat)
    requires order >= 2 && LeaflessBelowTop(g) && LeaflessForest(g, x) <= 1
    requires Usable(CollapseTop(order, g, withInfo)) && Leaves(Root(CollapseTop(order, g, withInfo))) == chunks != []
    ensures Leafless(Root(CollapseTop(order, g, withInfo)), x) <= 1
  {
  }
}
