/**
  The shape of a hash tree under construction, as a pure value.

  A forest is the list of partial levels the streaming writer keeps: `f[0]` is the lowest level
  still being filled, `f[|f|-1]` the top. Nothing here knows about hashes or storage; the writer
  class is proved to keep its levels in step with these functions, and every structural property
  of the trees it builds is proved on them.
*/
module TreeShape {
  import opened HashTypes

  datatype Tree = Leaf(chunk: Chunk) | Branch(height: nat, kids: seq<Tree>)
  {
    function Height(): nat { if Leaf? then 0 else height }
  }

  // ---------------------------------------------------------------- leaves

  function Leaves(t: Tree): seq<Chunk>
    decreases t, 1
  {
    match t
    case Leaf(c) => [c]
    case Branch(_, kids) => LeavesAll(kids)
  }

  function LeavesAll(ts: seq<Tree>): seq<Chunk>
    decreases ts, 0
  {
    if ts == [] then [] else Leaves(ts[0]) + LeavesAll(ts[1..])
  }

  lemma {:induction false} LeavesAllAppend(a: seq<Tree>, b: seq<Tree>)
    ensures LeavesAll(a + b) == LeavesAll(a) + LeavesAll(b)
  {
    if a == [] {
      assert a + b == b;
    } else {
      assert (a + b)[1..] == a[1..] + b;
      LeavesAllAppend(a[1..], b);
    }
  }

  lemma LeavesAllSnoc(a: seq<Tree>, t: Tree)
    ensures LeavesAll(a + [t]) == LeavesAll(a) + Leaves(t)
  {
    LeavesAllAppend(a, [t]);
    assert LeavesAll([t]) == Leaves(t) + LeavesAll([t][1..]);
  }

  /** The chunks a forest holds, in stream order: higher levels were filled first. */
  function ForestLeaves(f: seq<seq<Tree>>): seq<Chunk> {
    if f == [] then [] else ForestLeaves(f[1..]) + LeavesAll(f[0])
  }

  // ---------------------------------------------------------------- the writer's transitions

  /** Add `t` to the lowest level of `f`, which holds trees of height `h`; a full level becomes one
      branch on the level above, which may fill that one in turn. */
  function Push(order: nat, h: nat, f: seq<seq<Tree>>, t: Tree): (r: seq<seq<Tree>>)
    requires order >= 2
    ensures |r| >= |f| && |r| >= 1
    decreases |f|
  {
    if f == [] then [[t]]
    else if |f[0]| + 1 == order then
      [[]] + Push(order, h + 1, f[1..], Branch(h + 1, f[0] + [t]))
    else
      [f[0] + [t]] + f[1..]
  }

  /** Empty the lowest level into one branch on the level above, whatever it holds. */
  function Collapse(order: nat, h: nat, f: seq<seq<Tree>>): (r: seq<seq<Tree>>)
    requires order >= 2 && |f| > 0
    ensures |r| >= |f| && |r| >= 2
  {
    [[]] + Push(order, h + 1, f[1..], Branch(h + 1, f[0]))
  }

  /** Collapse the lowest `count` levels, bottom up. */
  function CollapseUpTo(order: nat, h: nat, f: seq<seq<Tree>>, count: nat): (r: seq<seq<Tree>>)
    requires order >= 2 && count < |f|
    ensures |r| >= |f|
    decreases count
  {
    if count == 0 then f
    else
      var c := Collapse(order, h, f);
      [c[0]] + CollapseUpTo(order, h + 1, c[1..], count - 1)
  }

  function EmptyPrefix(f: seq<seq<Tree>>): (n: nat)
    ensures n <= |f|
    ensures forall i :: 0 <= i < n ==> f[i] == []
    ensures n < |f| ==> f[n] != []
  {
    if f == [] || f[0] != [] then 0 else 1 + EmptyPrefix(f[1..])
  }

  /** Where the collapse loop ends up when it has reached level `l` and stops below level `top`. */
  function Pending(order: nat, f: seq<seq<Tree>>, l: nat, top: nat): (r: seq<seq<Tree>>)
    requires order >= 2 && l <= top < |f|
    ensures |r| >= |f|
  {
    f[..l] + CollapseUpTo(order, l, f[l..], top - l)
  }

  /** The collapse loop of `hash()`: from the first level with data up to, not including, the top. */
  function Looped(order: nat, f: seq<seq<Tree>>): (r: seq<seq<Tree>>)
    requires order >= 2 && |f| > 0 && f[|f| - 1] != []
    ensures |r| >= |f|
  {
    var first := EmptyPrefix(f);
    assert first < |f|;
    Pending(order, f, first, |f| - 1)
  }

  /** The last step of `hash()`: one more collapse of the top unless it already is a single root. */
  function CollapseTop(order: nat, g: seq<seq<Tree>>, withInfo: bool): (r: seq<seq<Tree>>)
    requires order >= 2 && |g| > 0
  {
    var top := |g| - 1;
    if withInfo || |g[top]| > 1 then g[..top] + Collapse(order, top, g[top..]) else g
  }

  function Finish(order: nat, f: seq<seq<Tree>>, withInfo: bool): seq<seq<Tree>>
    requires order >= 2 && |f| > 0 && f[|f| - 1] != []
  {
    CollapseTop(order, Looped(order, f), withInfo)
  }

  function AppendAll(order: nat, f: seq<seq<Tree>>, chunks: seq<Chunk>): seq<seq<Tree>>
    requires order >= 2
    decreases |chunks|
  {
    if chunks == [] then f
    else Push(order, 0, AppendAll(order, f, chunks[..|chunks| - 1]), Leaf(chunks[|chunks| - 1]))
  }

  // ---------------------------------------------------------------- leaf order is kept

  lemma ForestLeavesCons(level: seq<Tree>, rest: seq<seq<Tree>>)
    ensures ForestLeaves([level] + rest) == ForestLeaves(rest) + LeavesAll(level)
  {
  }

  lemma {:induction false} PushLeaves(order: nat, h: nat, f: seq<seq<Tree>>, t: Tree)
    requires order >= 2
    ensures ForestLeaves(Push(order, h, f, t)) == ForestLeaves(f) + Leaves(t)
    decreases |f|
  {
    if f == [] {
      LeavesAllSnoc([], t);
      assert [] + [t] == [t];
      ForestLeavesCons([t], []);
    } else if |f[0]| + 1 == order {
      var b := Branch(h + 1, f[0] + [t]);
      var p := Push(order, h + 1, f[1..], b);
      calc {
        ForestLeaves([[]] + p);
        { ForestLeavesCons([], p); }
        ForestLeaves(p);
        { PushLeaves(order, h + 1, f[1..], b); }
        ForestLeaves(f[1..]) + Leaves(b);
        { LeavesAllSnoc(f[0], t); }
        ForestLeaves(f[1..]) + (LeavesAll(f[0]) + Leaves(t));
        ForestLeaves(f) + Leaves(t);
      }
    } else {
      LeavesAllSnoc(f[0], t);
      ForestLeavesCons(f[0] + [t], f[1..]);
    }
  }

  lemma {:induction false} AppendAllLeaves(order: nat, f: seq<seq<Tree>>, chunks: seq<Chunk>)
    requires order >= 2
    ensures ForestLeaves(AppendAll(order, f, chunks)) == ForestLeaves(f) + chunks
    decreases |chunks|
  {
    if chunks != [] {
      var front := chunks[..|chunks| - 1];
      AppendAllLeaves(order, f, front);
      PushLeaves(order, 0, AppendAll(order, f, front), Leaf(chunks[|chunks| - 1]));
      assert chunks == front + [chunks[|chunks| - 1]];
    }
  }

  lemma CollapseLeaves(order: nat, h: nat, f: seq<seq<Tree>>)
    requires order >= 2 && |f| > 0
    ensures ForestLeaves(Collapse(order, h, f)) == ForestLeaves(f)
    ensures Collapse(order, h, f)[0] == []
  {
    var b := Branch(h + 1, f[0]);
    PushLeaves(order, h + 1, f[1..], b);
    var c := Collapse(order, h, f);
    assert c[1..] == Push(order, h + 1, f[1..], b);
  }

  lemma {:induction false} CollapseUpToLeaves(order: nat, h: nat, f: seq<seq<Tree>>, count: nat)
    requires order >= 2 && count < |f|
    ensures ForestLeaves(CollapseUpTo(order, h, f, count)) == ForestLeaves(f)
    decreases count
  {
    if count > 0 {
      var c := Collapse(order, h, f);
      CollapseLeaves(order, h, f);
      CollapseUpToLeaves(order, h + 1, c[1..], count - 1);
      var r := CollapseUpTo(order, h + 1, c[1..], count - 1);
      assert ([c[0]] + r)[1..] == r;
    }
  }

  lemma {:induction false} ForestLeavesSplit(a: seq<seq<Tree>>, b: seq<seq<Tree>>)
    ensures ForestLeaves(a + b) == ForestLeaves(b) + ForestLeaves(a)
  {
    if a == [] {
      assert a + b == b;
    } else {
      assert (a + b)[1..] == a[1..] + b;
      ForestLeavesSplit(a[1..], b);
    }
  }
}
