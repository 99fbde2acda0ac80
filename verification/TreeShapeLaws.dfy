/** Structural laws of the trees the streaming writer builds: the root that `hash()` reports, the
    base-`order` digits the levels spell, the height of the root, and leafless branches. */
module TreeShapeLaws {
  import opened HashTypes
  import opened TreeShape

  // ---------------------------------------------------------------- the root of a finished forest

  lemma {:induction false} PushShape(order: nat, h: nat, f: seq<seq<Tree>>, t: Tree)
    requires order >= 2
    requires f != [] ==> f[|f| - 1] != []
    ensures var p := Push(order, h, f, t);
      || (|p| == |f| && f != [] && p[|p| - 1] != [])
      || (|p| == |f| + 1 && |p[|f|]| == 1 && forall i :: 0 <= i < |f| ==> p[i] == [])
    decreases |f|
  {
    if f != [] && |f[0]| + 1 == order {
      PushShape(order, h + 1, f[1..], Branch(h + 1, f[0] + [t]));
    }
  }

  /** Once a cascade has outgrown the old top, the rest of the collapse loop only shuffles at most
      one leafless branch upwards and never touches the new top. */
  lemma {:induction false} CollapseGrown(order: nat, h: nat, f: seq<seq<Tree>>, count: nat)
    requires order >= 2 && |f| == count + 2 && |f[count + 1]| == 1
    requires |f[0]| <= 1 && LeavesAll(f[0]) == []
    requires forall i :: 1 <= i <= count ==> f[i] == []
    ensures var g := CollapseUpTo(order, h, f, count);
      |g| == |f| && g[count + 1] == f[count + 1] && forall i :: 0 <= i <= count ==> LeavesAll(g[i]) == []
    decreases count
  {
    if count > 0 {
      var b := Branch(h + 1, f[0]);
      var c := Collapse(order, h, f);
      assert f[1..][0] == [] && [] + [b] == [b] && f[1..][1..] == f[2..];
      assert Push(order, h + 1, f[1..], b) == [[b]] + f[2..];
      assert c[1..] == [[b]] + f[2..];
      LeavesAllSnoc([], b);
      CollapseGrown(order, h + 1, c[1..], count - 1);
    }
  }

  /** Putting an emptied level below levels without chunks. */
  lemma ConsShape(level: seq<Tree>, r: seq<seq<Tree>>, n: nat)
    requires level == [] && n <= |r|
    ensures (forall i :: 0 <= i < n - 1 ==> LeavesAll(r[i]) == []) ==>
      forall i :: 0 <= i < n ==> LeavesAll(([level] + r)[i]) == []
  {
    forall i | 0 <= i < n && forall j :: 0 <= j < n - 1 ==> LeavesAll(r[j]) == []
      ensures LeavesAll(([level] + r)[i]) == []
    {
      if i > 0 { assert ([level] + r)[i] == r[i - 1]; }
    }
  }

  lemma {:induction false} CollapseShape(order: nat, h: nat, f: seq<seq<Tree>>, count: nat)
    requires order >= 2 && |f| == count + 1 && f[count] != []
    ensures var g := CollapseUpTo(order, h, f, count);
      || (|g| == |f| && g[count] != [] && forall i :: 0 <= i < count ==> LeavesAll(g[i]) == [])
      || (|g| == |f| + 1 && |g[count + 1]| == 1 && forall i :: 0 <= i <= count ==> LeavesAll(g[i]) == [])
    decreases count
  {
    hide Push;
    if count > 0 {
      var c := Collapse(order, h, f);
      PushShape(order, h + 1, f[1..], Branch(h + 1, f[0]));
      assert c[1..] == Push(order, h + 1, f[1..], Branch(h + 1, f[0]));
      if |c[1..]| == count {
        CollapseShape(order, h + 1, c[1..], count - 1);
        ConsShape(c[0], CollapseUpTo(order, h + 1, c[1..], count - 1), count);
      } else {
        CollapseGrown(order, h + 1, c[1..], count - 1);
        ConsShape(c[0], CollapseUpTo(order, h + 1, c[1..], count - 1), count + 1);
      }
    }
  }

  lemma {:induction false} OnlyTopHasLeaves(f: seq<seq<Tree>>)
    requires |f| > 0 && forall i :: 0 <= i < |f| - 1 ==> LeavesAll(f[i]) == []
    ensures ForestLeaves(f) == LeavesAll(f[|f| - 1])
    decreases |f|
  {
    if |f| > 1 {
      OnlyTopHasLeaves(f[1..]);
    } else {
      assert ForestLeaves(f[1..]) == [];
    }
  }

  function Root(f: seq<seq<Tree>>): Tree
    requires Usable(f)
  {
    f[|f| - 1][|f[|f| - 1]| - 1]
  }

  ghost predicate Usable(f: seq<seq<Tree>>) {
    |f| > 0 && f[|f| - 1] != []
  }

  ghost predicate LeaflessBelowTop(g: seq<seq<Tree>>) {
    Usable(g) && forall i :: 0 <= i < |g| - 1 ==> LeavesAll(g[i]) == []
  }

  lemma SameTailLeaves(a: seq<seq<Tree>>, b: seq<seq<Tree>>, c: seq<seq<Tree>>)
    requires ForestLeaves(b) == ForestLeaves(c)
    ensures ForestLeaves(a + b) == ForestLeaves(a + c)
  {
    ForestLeavesSplit(a, b);
    ForestLeavesSplit(a, c);
  }

  lemma LoopedLeaves(order: nat, f: seq<seq<Tree>>)
    requires order >= 2 && Usable(f)
    ensures ForestLeaves(Looped(order, f)) == ForestLeaves(f)
  {
    hide CollapseUpTo, ForestLeaves, LeavesAll;
    var first := EmptyPrefix(f);
    CollapseUpToLeaves(order, first, f[first..], |f| - 1 - first);
    SameTailLeaves(f[..first], CollapseUpTo(order, first, f[first..], |f| - 1 - first), f[first..]);
    assert f == f[..first] + f[first..];
  }

  lemma LoopedShape(order: nat, f: seq<seq<Tree>>)
    requires order >= 2 && Usable(f)
    ensures var g := Looped(order, f);
      LeaflessBelowTop(g) && |f| <= |g| <= |f| + 1 && (|g| > |f| ==> |g[|g| - 1]| == 1)
  {
    var g := Looped(order, f);
    var first := EmptyPrefix(f);
    var r := CollapseUpTo(order, first, f[first..], |f| - 1 - first);
    assert g == f[..first] + r;
    CollapseShape(order, first, f[first..], |f| - 1 - first);
    forall i | 0 <= i < |g| - 1
      ensures LeavesAll(g[i]) == []
    {
      if i >= first { assert g[i] == r[i - first]; } else { assert g[i] == []; }
    }
  }

  lemma CollapseTopRoot(order: nat, g: seq<seq<Tree>>, withInfo: bool)
    requires order >= 2 && LeaflessBelowTop(g)
    ensures var r := CollapseTop(order, g, withInfo);
      LeaflessBelowTop(r) && |r[|r| - 1]| == 1 && Leaves(Root(r)) == LeavesAll(g[|g| - 1])
  {
  }

  /** `hash()` leaves one entry on the top level, that entry holds every chunk in stream order, and
      no chunk is lost from the levels: calling it again reports the same sequence. */
  lemma FinishRoot(order: nat, f: seq<seq<Tree>>, withInfo: bool)
    requires order >= 2 && Usable(f)
    ensures var r := Finish(order, f, withInfo);
      && Usable(r) && |r[|r| - 1]| == 1
      && Leaves(Root(r)) == ForestLeaves(f)
      && ForestLeaves(r) == ForestLeaves(f)
  {
    var g := Looped(order, f);
    var r := Finish(order, f, withInfo);
    LoopedLeaves(order, f);
    LoopedShape(order, f);
    OnlyTopHasLeaves(g);
    CollapseTopRoot(order, g, withInfo);
    OnlyTopHasLeaves(r);
    LeavesAllSnoc([], Root(r));
    assert [] + [Root(r)] == r[|r| - 1];
  }

  /** How many levels `hash()` leaves: a top that holds several entries, or that gets file information, goes
      one level up. */
  lemma FinishLevels(order: nat, f: seq<seq<Tree>>, withInfo: bool)
    requires order >= 2 && Usable(f)
    ensures var g := Looped(order, f); var r := Finish(order, f, withInfo);
      if withInfo || |g[|g| - 1]| > 1 then |r| == |g| + 1 && Usable(r) && Root(r).Branch? else r == g
  {
    LoopedShape(order, f);
    var g := Looped(order, f);
    var top := |g| - 1;
    assert g[top..][1..] == [];
  }

  // ---------------------------------------------------------------- a base-`order` counter

  function Pow(b: nat, e: nat): nat {
    if e == 0 then 1 else b * Pow(b, e - 1)
  }

  /** The level sizes of `f` are the base-`order` digits of `n`, lowest first, without a leading 0. */
  ghost predicate Digits(order: nat, f: seq<seq<Tree>>, n: nat)
    requires order >= 2
  {
    if f == [] then n == 0
    else n > 0 && |f[0]| == n % order && Digits(order, f[1..], n / order)
  }

  /** `t` is the full tree of height `h`: every branch has exactly `order` kids. */
  ghost predicate Perfect(order: nat, h: nat, t: Tree)
    decreases h
  {
    if h == 0 then t.Leaf?
    else t.Branch? && t.height == h && |t.kids| == order && forall k | k in t.kids :: Perfect(order, h - 1, k)
  }

  ghost predicate PerfectForest(order: nat, h: nat, f: seq<seq<Tree>>) {
    forall i, k | 0 <= i < |f| && k in f[i] :: Perfect(order, h + i, k)
  }

  lemma CounterStep(order: nat, n: nat)
    requires order >= 2
    ensures n % order + 1 == order ==> (n + 1) % order == 0 && (n + 1) / order == n / order + 1
    ensures n % order + 1 != order ==> (n + 1) % order == n % order + 1 && (n + 1) / order == n / order
  {
    var q, r := n / order, n % order;
    assert n == q * order + r;
    if r + 1 == order {
      assert n + 1 == (q + 1) * order;
      DivModUnique(order, n + 1, q + 1, 0);
    } else {
      DivModUnique(order, n + 1, q, r + 1);
    }
  }

  lemma DivModUnique(d: nat, x: nat, q: nat, r: nat)
    requires d > 0 && r < d && x == q * d + r
    ensures x / d == q && x % d == r
  {
    var k := q - x / d;
    assert k * d == x % d - r by {
      assert x == (x / d) * d + x % d;
    }
    if k >= 1 {
      MulAtLeast(k, d);
    }
  }

  lemma MulAtLeast(k: int, d: nat)
    requires k >= 1
    ensures k * d >= d
  {
  }

  lemma {:induction false} PushDigits(order: nat, h: nat, f: seq<seq<Tree>>, t: Tree, n: nat)
    requires order >= 2 && Digits(order, f, n)
    ensures Digits(order, Push(order, h, f, t), n + 1)
    decreases |f|
  {
    var p := Push(order, h, f, t);
    CounterStep(order, n);
    if f == [] {
      assert n == 0;
      DivModUnique(order, 1, 0, 1);
      assert p[1..] == [];
    } else if |f[0]| + 1 == order {
      var b := Branch(h + 1, f[0] + [t]);
      PushDigits(order, h + 1, f[1..], b, n / order);
      assert p[1..] == Push(order, h + 1, f[1..], b);
    } else {
      assert p[1..] == f[1..];
    }
  }

  lemma {:induction false} PushPerfect(order: nat, h: nat, f: seq<seq<Tree>>, t: Tree)
    requires order >= 2 && PerfectForest(order, h, f) && Perfect(order, h, t)
    ensures PerfectForest(order, h, Push(order, h, f, t))
    decreases |f|
  {
    var p := Push(order, h, f, t);
    if f != [] && |f[0]| + 1 == order {
      var b := Branch(h + 1, f[0] + [t]);
      assert Perfect(order, h + 1, b);
      assert PerfectForest(order, h + 1, f[1..]) by {
        forall i, k | 0 <= i < |f[1..]| && k in f[1..][i]
          ensures Perfect(order, h + 1 + i, k)
        {
          assert k in f[i + 1];
        }
      }
      PushPerfect(order, h + 1, f[1..], b);
      var q := Push(order, h + 1, f[1..], b);
      forall i, k | 0 <= i < |p| && k in p[i]
        ensures Perfect(order, h + i, k)
      {
        assert i > 0 && p[i] == q[i - 1];
        assert Perfect(order, h + 1 + (i - 1), k);
      }
    }
  }

  /** A perfect tree of height `h` covers exactly `order^h` consecutive chunks. */
  lemma {:induction false} PerfectLeaves(order: nat, h: nat, t: Tree)
    requires Perfect(order, h, t)
    ensures |Leaves(t)| == Pow(order, h)
    decreases h, 1, 0
  {
    if h > 0 {
      PerfectLeavesAll(order, h - 1, t.kids);
    }
  }

  lemma {:induction false} PerfectLeavesAll(order: nat, h: nat, ts: seq<Tree>)
    requires forall k | k in ts :: Perfect(order, h, k)
    ensures |LeavesAll(ts)| == |ts| * Pow(order, h)
    decreases h, 2, |ts|
  {
    if ts != [] {
      PerfectLeaves(order, h, ts[0]);
      PerfectLeavesAll(order, h, ts[1..]);
      assert |ts| * Pow(order, h) == Pow(order, h) + (|ts| - 1) * Pow(order, h);
    }
  }

  lemma {:induction false} AppendAllDigits(order: nat, chunks: seq<Chunk>)
    requires order >= 2
    ensures Digits(order, AppendAll(order, [], chunks), |chunks|)
    decreases |chunks|
  {
    if chunks != [] {
      var front := chunks[..|chunks| - 1];
      AppendAllDigits(order, front);
      PushDigits(order, 0, AppendAll(order, [], front), Leaf(chunks[|chunks| - 1]), |front|);
    }
  }

  lemma {:induction false} AppendAllPerfect(order: nat, chunks: seq<Chunk>)
    requires order >= 2
    ensures PerfectForest(order, 0, AppendAll(order, [], chunks))
    decreases |chunks|
  {
    if chunks != [] {
      var front := chunks[..|chunks| - 1];
      AppendAllPerfect(order, front);
      PushPerfect(order, 0, AppendAll(order, [], front), Leaf(chunks[|chunks| - 1]));
    }
  }

  /** After `n` appends level `i` holds exactly the i-th base-`order` digit of `n` entries, each the
      root of a perfect tree over `order^i` chunks, and together they spell the stream in order. */
  lemma AppendAllCounter(order: nat, chunks: seq<Chunk>)
    requires order >= 2
    ensures var f := AppendAll(order, [], chunks);
      && Digits(order, f, |chunks|) && ForestLeaves(f) == chunks
      && forall i, k | 0 <= i < |f| && k in f[i] :: Perfect(order, i, k) && |Leaves(k)| == Pow(order, i)
  {
    AppendAllLeaves(order, [], chunks);
    AppendAllDigits(order, chunks);
    AppendAllPerfect(order, chunks);
    var f := AppendAll(order, [], chunks);
    forall i, k | 0 <= i < |f| && k in f[i]
      ensures Perfect(order, i, k) && |Leaves(k)| == Pow(order, i)
    {
      PerfectLeaves(order, i, k);
    }
  }

  lemma {:induction false} DigitsBound(order: nat, f: seq<seq<Tree>>, n: nat)
    requires order >= 2 && Digits(order, f, n) && n > 0
    ensures Usable(f) && Pow(order, |f| - 1) <= n
    decreases |f|
  {
    if |f| > 1 {
      assert n / order > 0 by { if n / order == 0 { assert f[1..] != []; } }
      DigitsBound(order, f[1..], n / order);
      assert f[1..][|f| - 2] == f[|f| - 1];
      assert order * Pow(order, |f| - 2) <= order * (n / order) <= n;
    } else {
      assert Digits(order, f[1..], n / order);
      DivModUnique(order, n, 0, n % order);
    }
  }

  lemma PowTimes(order: nat, e: nat)
    requires order >= 2 && e > 0
    ensures Pow(order, e) == order * Pow(order, e - 1) && Pow(order, e) % order == 0
    ensures Pow(order, e) / order == Pow(order, e - 1)
  {
    DivModUnique(order, Pow(order, e), Pow(order, e - 1), 0);
  }

  /** The digits of a power of `order`: a one, and zeros below it. */
  lemma {:induction false} DigitsOfPow(order: nat, f: seq<seq<Tree>>, n: nat)
    requires order >= 2 && Digits(order, f, n) && f != [] && n == Pow(order, |f| - 1)
    ensures |f[|f| - 1]| == 1 && forall i :: 0 <= i < |f| - 1 ==> f[i] == []
    decreases |f|
  {
    if |f| == 1 {
      DivModUnique(order, 1, 0, 1);
    } else {
      PowTimes(order, |f| - 1);
      DigitsOfPow(order, f[1..], n / order);
      forall i | 0 <= i < |f| - 1
        ensures f[i] == []
      {
        if i > 0 { assert f[i] == f[1..][i - 1]; }
      }
    }
  }

  lemma {:induction false} PrefixLength(f: seq<seq<Tree>>, n: nat)
    requires n < |f| && f[n] != [] && forall i :: 0 <= i < n ==> f[i] == []
    ensures EmptyPrefix(f) == n
  {
  }

  /** With data only on top, the collapse loop has nothing to do. */
  lemma LoopedAlone(order: nat, f: seq<seq<Tree>>)
    requires order >= 2 && Usable(f) && forall i :: 0 <= i < |f| - 1 ==> f[i] == []
    ensures Looped(order, f) == f
  {
    PrefixLength(f, |f| - 1);
    assert f == f[..|f| - 1] + f[|f| - 1..];
  }
}
