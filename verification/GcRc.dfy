/**
  The database index with its volatile and durable state, and the reference-counting collector.

  Everything happens in one open transaction: `mem` is what the process sees, `disk` what a crash
  leaves behind. `trace` records every state that became durable, in order.
*/
module GcRc {
  import opened Common
  import opened Tags
  import opened GcTables

  class Index {
    var mem: Tables
    var disk: Tables
    var autoFlush: bool
    ghost var trace: seq<Tables>

    /** Reopen the database as a crash left it. */
    constructor (disk: Tables)
      ensures mem == this.disk == disk && autoFlush && trace == []
    {
      mem, this.disk, autoFlush, trace := disk, disk, true, [];
    }

    /** Commit the open transaction. */
    method Flush()
      modifies this`disk, this`trace
      ensures disk == mem && trace == old(trace) + [mem]
    {
      disk := mem;
      trace := trace + [mem];
    }

    /** The periodic flush: `fired` says whether the timer has run out. */
    method MaybeFlush(fired: bool)
      modifies this`disk, this`trace
      ensures if autoFlush && fired then disk == mem && trace == old(trace) + [mem]
              else disk == old(disk) && trace == old(trace)
    {
      if autoFlush && fired {
        Flush();
      }
    }

    /** Flush, and let no timer flush again behind our back. */
    method ManualCommit()
      modifies this`disk, this`trace, this`autoFlush
      ensures disk == mem && trace == old(trace) + [mem] && !autoFlush
    {
      Flush();
      autoFlush := false;
    }

    method HashSetTag(target: Option<Id>, tag: Tag)
      modifies this`mem
      ensures mem == old(mem).(hashes :=
        if target.None? then SetAllTags(old(mem.hashes), tag) else SetTag(old(mem.hashes), target.value, tag))
    {
      mem := mem.(hashes :=
        if target.None? then SetAllTags(mem.hashes, tag) else SetTag(mem.hashes, target.value, tag));
    }

    function HashGetTag(id: Id): Option<Tag>
      reads this`mem
    {
      if id in mem.hashes then Some(mem.hashes[id].tag) else None
    }

    /** The ids carrying a tag, highest tree nodes first. */
    method HashListIdsByTag(tag: Tag) returns (ids: seq<Id>)
      ensures TopDown(mem.hashes, ids) && Elems(ids) == Tagged(mem.hashes, tag)
      ensures forall i, j | 0 <= i < j < |ids| :: ids[i] != ids[j]
    {
      var left := Tagged(mem.hashes, tag);
      ids := [];
      while left != {}
        invariant left <= mem.hashes.Keys && Elems(ids) + left == Tagged(mem.hashes, tag)
        invariant Sorting(mem.hashes, ids, left)
        decreases left
      {
        HighestExists(mem.hashes, left);
        var id :| id in left && forall x | x in left :: mem.hashes[x].height <= mem.hashes[id].height;
        SortingStep(mem.hashes, ids, left, id);
        ids := ids + [id];
        left := left - {id};
      }
    }

    method HashUpdateGcData(id: Id, delta: int)
      modifies this`mem
      ensures mem == old(mem).(hashes := Bump(old(mem.hashes), {id}, delta))
    {
      mem := mem.(hashes := map k | k in mem.hashes ::
        if k == id then mem.hashes[k].(count := mem.hashes[k].count + delta) else mem.hashes[k]);
    }

    method HashInsert(id: Id, row: HashRow)
      modifies this`mem
      ensures mem == old(mem).(hashes := old(mem.hashes)[id := row])
    {
      mem := mem.(hashes := mem.hashes[id := row]);
    }

    method SnapshotReserve(s: Sid)
      requires s !in mem.snaps
      modifies this`mem
      ensures mem == old(mem).(snaps := old(mem.snaps)[s := SnapRow(Reserved, None)])
    {
      mem := mem.(snaps := mem.snaps[s := SnapRow(Reserved, None)]);
    }

    method SnapshotUpdate(s: Sid, top: Top)
      modifies this`mem
      ensures mem == SnapTop(old(mem), s, top)
    {
      mem := SnapTop(mem, s, top);
    }

    method SnapshotSetTag(s: Sid, tag: Tag)
      modifies this`mem
      ensures mem == SnapTag(old(mem), s, tag)
    {
      mem := SnapTag(mem, s, tag);
    }

    method SnapshotDelete(s: Sid)
      modifies this`mem
      ensures mem == Removed(old(mem), s)
    {
      mem := Removed(mem, s);
    }

    /** The snapshots that are still committing, deleting or being recovered, in the order of their ids. */
    method SnapshotListNotDone() returns (pending: seq<Sid>)
      ensures forall s :: s in pending <==> s in mem.snaps && mem.snaps[s].tag != Done
      ensures forall i, j | 0 <= i < j < |pending| :: pending[i] < pending[j]
    {
      var left := set s | s in mem.snaps && mem.snaps[s].tag != Done;
      ghost var all := left;
      pending := [];
      while left != {}
        invariant Listing(all, pending, left)
        decreases left
      {
        ghost var lowest := LowestExists(left);
        var s :| s in left && IsLowest(left, s);
        ListingStep(all, pending, left, s);
        pending := pending + [s];
        left := left - {s};
      }
    }

    /** Name a snapshot found by a recovery, unless it is known. */
    method SnapshotRecover(s: Sid, top: Top)
      requires s in mem.snaps ==> mem.snaps[s].top.Some? && mem.snaps[s].top.value.id == top.id
      modifies this`mem
      ensures mem == if s in old(mem.snaps) then old(mem)
                     else old(mem).(snaps := old(mem.snaps)[s := SnapRow(RecoverInProgress, Some(top))])
    {
      if s !in mem.snaps {
        mem := mem.(snaps := mem.snaps[s := SnapRow(RecoverInProgress, Some(top))]);
      }
    }

    method HashDelete(id: Id)
      modifies this`mem
      ensures mem == old(mem).(hashes := Without(old(mem.hashes), {id}))
    {
      mem := mem.(hashes := map k | k in mem.hashes && k != id :: mem.hashes[k]);
    }
  }

  predicate IsLowest(ids: set<Sid>, s: Sid) {
    s in ids && forall k | k in ids :: s <= k
  }

  lemma {:induction false} LowestExists(ids: set<Sid>) returns (s: Sid)
    requires ids != {}
    ensures IsLowest(ids, s)
    decreases |ids|
  {
    s :| s in ids;
    var rest := ids - {s};
    if rest != {} {
      var b := LowestExists(rest);
      LowestOfBoth(ids, s, b);
      s := if s <= b then s else b;
    } else {
      assert ids == {s};
    }
  }

  lemma LowestOfBoth(ids: set<Sid>, a: Sid, b: Sid)
    requires a in ids && IsLowest(ids - {a}, b)
    ensures IsLowest(ids, if a <= b then a else b)
  {
    forall k | k in ids && k != a
      ensures b <= k
    {
      assert k in ids - {a};
    }
  }

  /** `pending` and `left` make up `all`, and `pending` is in order, before all of `left`. */
  ghost predicate Listing(all: set<Sid>, pending: seq<Sid>, left: set<Sid>) {
    && (forall s :: s in all <==> s in pending || s in left)
    && (forall i, s | 0 <= i < |pending| && s in left :: pending[i] < s)
    && (forall i, j | 0 <= i < j < |pending| :: pending[i] < pending[j])
  }

  lemma ListingStep(all: set<Sid>, pending: seq<Sid>, left: set<Sid>, s: Sid)
    requires Listing(all, pending, left) && IsLowest(left, s)
    ensures Listing(all, pending + [s], left - {s})
  {
    assert forall k :: k in pending + [s] <==> k in pending || k == s;
  }

  /** `ids` are in order and none of `left` goes before any of them. */
  ghost predicate Sorting(h: HashRows, ids: seq<Id>, left: set<Id>) {
    && TopDown(h, ids) && left <= h.Keys
    && (forall i, j | 0 <= i < j < |ids| :: ids[i] != ids[j])
    && forall i, x | 0 <= i < |ids| && x in left :: ids[i] != x && h[ids[i]].height >= h[x].height
  }

  lemma SortingStep(h: HashRows, ids: seq<Id>, left: set<Id>, id: Id)
    requires Sorting(h, ids, left) && id in left && forall x | x in left :: h[x].height <= h[id].height
    ensures Sorting(h, ids + [id], left - {id})
  {
  }

  lemma {:induction false} HighestExists(h: HashRows, ids: set<Id>)
    requires ids != {} && ids <= h.Keys
    ensures exists id :: id in ids && forall x | x in ids :: h[x].height <= h[id].height
    decreases |ids|
  {
    var a :| a in ids;
    var rest := ids - {a};
    if rest == {} {
      assert ids == {a};
    } else {
      HighestExists(h, rest);
      var b :| b in rest && forall x | x in rest :: h[x].height <= h[b].height;
      var m := if h[a].height >= h[b].height then a else b;
      assert m in ids;
      forall x | x in ids
        ensures h[x].height <= h[m].height
      {
        if x != a { assert x in rest; }
      }
    }
  }

  datatype GcStatus = StatusInProgress | StatusComplete

  /** How far the collector got with the snapshot whose final row is `final`, read off that row's tag. */
  function StatusOf(h: HashRows, final: Id): Option<GcStatus> {
    if final !in h then None
    else match h[final].tag
      case Complete | ReadyDelete => Some(StatusComplete)
      case InProgress => Some(StatusInProgress)
      case _ => None
  }

  /** Add `d` to the counter of every listed id, once each. */
  method BumpAll(index: Index, ids: seq<Id>, d: int)
    requires forall i, j | 0 <= i < j < |ids| :: ids[i] != ids[j]
    modifies index`mem
    ensures index.mem == old(index.mem).(hashes := Bump(old(index.mem.hashes), Elems(ids), d))
  {
    ghost var h0 := index.mem.hashes;
    assert Bump(h0, Elems(ids[..0]), d) == h0;
    for i := 0 to |ids|
      invariant index.mem == old(index.mem).(hashes := Bump(h0, Elems(ids[..i]), d))
    {
      assert ids[..i + 1] == ids[..i] + [ids[i]];
      assert ids[i] !in Elems(ids[..i]);
      index.HashUpdateGcData(ids[i], d);
      assert Elems(ids[..i + 1]) == Elems(ids[..i]) + {ids[i]};
      BumpOneMore(h0, Elems(ids[..i]), ids[i], d);
    }
    assert ids[..|ids|] == ids;
  }

  lemma BumpOneMore(h: HashRows, ids: set<Id>, id: Id, d: int)
    requires id !in ids
    ensures Bump(Bump(h, ids, d), {id}, d) == Bump(h, ids + {id}, d)
  {
  }

  // ---------------------------------------------------------------- the mark phase

  /** From the rows tagged in `h` to those tagged in `h'`: nothing but tags changed, every new mark is
      reachable from `root` through rows not tagged in `h`, and the new marks together with `root` have
      all their children marked. */
  ghost predicate Marked(h: HashRows, h': HashRows, root: Id, tag: Tag) {
    && h' == TagSet(h, Tagged(h', tag), tag)
    && Tagged(h, tag) + {root} <= Tagged(h', tag)
    && (forall x | x in Tagged(h', tag) && x !in Tagged(h, tag) :: FreshReaches(h, root, x, tag))
    && (forall x, c | x in Tagged(h', tag) && (x == root || x !in Tagged(h, tag)) && c in h[x].childs ::
          c in Tagged(h', tag))
  }

  /** The same in the middle of the loop over the children of `root`. */
  ghost predicate Marking(h: HashRows, h': HashRows, root: Id, tag: Tag, done: seq<Id>) {
    && h' == TagSet(h, Tagged(h', tag), tag)
    && Tagged(h, tag) + {root} <= Tagged(h', tag)
    && (forall x | x in Tagged(h', tag) && x !in Tagged(h, tag) :: FreshReaches(h, root, x, tag))
    && (forall x, c | x in Tagged(h', tag) && x != root && x !in Tagged(h, tag) && c in h[x].childs ::
          c in Tagged(h', tag))
    && (forall c | c in done :: c in Tagged(h', tag))
  }

  lemma MarkingStart(h: HashRows, root: Id, tag: Tag)
    requires root in h
    ensures Marking(h, SetTag(h, root, tag), root, tag, [])
  {
    FreshSelf(h, root, tag);
    assert Tagged(SetTag(h, root, tag), tag) == Tagged(h, tag) + {root};
  }

  lemma FreshSelf(h: HashRows, root: Id, tag: Tag)
    requires root in h
    ensures FreshReaches(h, root, root, tag)
  {
    assert FreshPath(h, [root], tag);
  }

  /** A path that is fresh once more rows are tagged, put behind a fresh child of `root`. */
  lemma FreshCons(h: HashRows, mid: HashRows, root: Id, r: Id, x: Id, tag: Tag)
    requires SameGraph(mid, h) && Tagged(h, tag) <= Tagged(mid, tag) && r !in Tagged(h, tag)
    requires root in h && r in h[root].childs && FreshReaches(mid, r, x, tag)
    ensures FreshReaches(h, root, x, tag)
  {
    var p :| FreshPath(mid, p, tag) && p[0] == r && p[|p| - 1] == x;
    var q := [root] + p;
    forall i | 0 <= i < |q|
      ensures q[i] in h && (i > 0 ==> q[i] !in Tagged(h, tag)) && (i < |q| - 1 ==> q[i + 1] in h[q[i]].childs)
    {
      if i > 0 {
        assert q[i] == p[i - 1];
        if i < |p| { assert p[i] in mid[p[i - 1]].childs; }
      }
    }
    assert FreshPath(h, q, tag);
    assert q[|q| - 1] == x;
  }

  /** The white-path property: the new marks are exactly the rows reachable through rows not tagged before. */
  lemma MarkedExactly(h: HashRows, h': HashRows, root: Id, tag: Tag)
    requires Marked(h, h', root, tag)
    ensures h' == TagSet(h, FreshFrom(h, root, tag), tag)
  {
    forall x | x in FreshFrom(h, root, tag)
      ensures x in Tagged(h', tag)
    {
      var p :| FreshPath(h, p, tag) && p[0] == root && p[|p| - 1] == x;
      MarkedAlong(h, h', root, tag, p, |p| - 1);
    }
  }

  lemma {:induction false} MarkedAlong(h: HashRows, h': HashRows, root: Id, tag: Tag, p: seq<Id>, i: nat)
    requires Marked(h, h', root, tag) && FreshPath(h, p, tag) && p[0] == root && i < |p|
    ensures p[i] in Tagged(h', tag)
  {
    if i > 0 {
      MarkedAlong(h, h', root, tag, p, i - 1);
      assert p[(i - 1) + 1] in h[p[i - 1]].childs;
    }
  }

  /** Descending into an untagged child leaves fewer rows untagged than there were at the start. */
  lemma MarkingDescend(h: HashRows, h1: HashRows, root: Id, tag: Tag, done: seq<Id>, r: Id)
    requires ChildsAreRows(h) && root in h && r in h[root].childs
    requires Marking(h, h1, root, tag, done) && r !in Tagged(h1, tag)
    ensures var mid := SetTag(h1, r, tag);
      && ChildsAreRows(mid) && r in mid
      && mid.Keys - Tagged(mid, tag) < h.Keys - Tagged(h, tag)
  {
    var mid := SetTag(h1, r, tag);
    assert h1.Keys == h.Keys && r in h;
    assert Tagged(mid, tag) == Tagged(h1, tag) + {r};
    assert r in h.Keys - Tagged(h, tag);
  }

  lemma MarkingStep(h: HashRows, h1: HashRows, h2: HashRows, root: Id, tag: Tag, done: seq<Id>, r: Id)
    requires root in h && r in h[root].childs
    requires Marking(h, h1, root, tag, done) && r !in Tagged(h1, tag)
    requires Marked(SetTag(h1, r, tag), h2, r, tag)
    ensures Marking(h, h2, root, tag, done + [r])
  {
    hide FreshReaches;
    var mid := SetTag(h1, r, tag);
    assert Tagged(mid, tag) == Tagged(h1, tag) + {r};
    assert SameGraph(mid, h);
    forall x | x in Tagged(h2, tag) && x !in Tagged(h, tag)
      ensures FreshReaches(h, root, x, tag)
    {
      if x !in Tagged(h1, tag) {
        if x == r { FreshSelf(mid, r, tag); }
        FreshCons(h, mid, root, r, x, tag);
      }
    }
  }

  lemma MarkingChilds(h: HashRows, h1: HashRows, root: Id, tag: Tag, done: seq<Id>)
    requires Marking(h, h1, root, tag, done) && root in h
    ensures root in h1 && h1[root].childs == h[root].childs
  {
  }

  lemma MarkingSkip(h: HashRows, h1: HashRows, root: Id, tag: Tag, done: seq<Id>, r: Id)
    requires Marking(h, h1, root, tag, done) && r in Tagged(h1, tag)
    ensures Marking(h, h1, root, tag, done + [r])
  {
  }

  lemma MarkingEnd(h: HashRows, h1: HashRows, root: Id, tag: Tag)
    requires root in h && Marking(h, h1, root, tag, h[root].childs)
    ensures Marked(h, h1, root, tag)
  {
  }

  /** Tag everything reachable from `root` through rows not tagged yet, each row's subtree once. The
      child graph may have cycles: every call tags a row that was not tagged. */
  method MarkTree(index: Index, root: Id, tag: Tag)
    requires ChildsAreRows(index.mem.hashes) && root in index.mem.hashes
    modifies index`mem
    ensures index.mem.snaps == old(index.mem.snaps)
    ensures index.mem.hashes == TagSet(old(index.mem.hashes), FreshFrom(old(index.mem.hashes), root, tag), tag)
    ensures Marked(old(index.mem.hashes), index.mem.hashes, root, tag)
    decreases index.mem.hashes.Keys - Tagged(index.mem.hashes, tag)
  {
    hide Marking, Marked, FreshReaches, FreshFrom;
    ghost var h := index.mem.hashes;
    index.HashSetTag(Some(root), tag);
    MarkingStart(h, root, tag);
    MarkingChilds(h, index.mem.hashes, root, tag, []);
    var childs := index.mem.hashes[root].childs;
    for i := 0 to |childs|
      invariant index.mem.snaps == old(index.mem.snaps)
      invariant Marking(h, index.mem.hashes, root, tag, childs[..i])
    {
      MarkingChilds(h, index.mem.hashes, root, tag, childs[..i]);
      var r := childs[i];
      ghost var h1 := index.mem.hashes;
      assert childs[..i + 1] == childs[..i] + [r];
      if index.HashGetTag(r) == Some(tag) {
        MarkingSkip(h, h1, root, tag, childs[..i], r);
        continue;
      }
      MarkingDescend(h, h1, root, tag, childs[..i], r);
      index.HashSetTag(Some(r), tag);
      MarkTree(index, r, tag);
      MarkingStep(h, h1, index.mem.hashes, root, tag, childs[..i], r);
    }
    assert childs[..|childs|] == childs;
    MarkingEnd(h, index.mem.hashes, root, tag);
    MarkedExactly(h, index.mem.hashes, root, tag);
  }

  /** Midway through the mark phase: `seen` roots are covered, marks are used rows and closed downwards. */
  ghost predicate MarkPhase(h: HashRows, h': HashRows, seen: seq<Id>) {
    var m := Tagged(h', Reserved);
    && h' == TagSet(SetAllTags(h, Done), m, Reserved)
    && m <= UsedSet(h)
    && (forall x, c | x in m && c in h[x].childs :: c in m)
    && (forall r | r in seen && r in h && h[r].count > 0 :: r in m)
  }

  lemma MarkPhaseStep(h: HashRows, h1: HashRows, h2: HashRows, seen: seq<Id>, r: Id)
    requires MarkPhase(h, h1, seen) && r in h && h[r].count > 0
    requires Marked(h1, h2, r, Reserved)
    ensures MarkPhase(h, h2, seen + [r])
  {
    hide Reaches;
    assert SameGraph(h1, h);
    forall x | x in Tagged(h2, Reserved)
      ensures x in UsedSet(h)
    {
      if x !in Tagged(h1, Reserved) {
        FreshIsReached(h1, h, r, x, Reserved);
      }
    }
  }

  lemma FreshIsReached(h: HashRows, h': HashRows, a: Id, b: Id, tag: Tag)
    requires SameGraph(h, h') && FreshReaches(h, a, b, tag)
    ensures Reaches(h', a, b)
  {
    var p :| FreshPath(h, p, tag) && p[0] == a && p[|p| - 1] == b;
    assert Path(h', p);
  }

  lemma MarkPhaseUsed(h: HashRows, h': HashRows, seen: seq<Id>, x: Id)
    requires MarkPhase(h, h', seen) && Elems(seen) == h.Keys && Used(h, x)
    ensures x in Tagged(h', Reserved)
  {
    var r :| r in h && h[r].count > 0 && Reaches(h, r, x);
    var p :| Path(h, p) && p[0] == r && p[|p| - 1] == x;
    assert r in Elems(seen);
    ClosedSetContains(h, Tagged(h', Reserved), p);
  }

  lemma MarkPhaseEnd(h: HashRows, h': HashRows, seen: seq<Id>)
    requires MarkPhase(h, h', seen) && Elems(seen) == h.Keys
    ensures h' == MarkUsed(h) && Tagged(h', Done) == Unused(h)
  {
    forall x | x in UsedSet(h)
      ensures x in Tagged(h', Reserved)
    {
      MarkPhaseUsed(h, h', seen, x);
    }
    assert Tagged(h', Reserved) == UsedSet(h);
    TaggedDone(h, UsedSet(h));
  }

  lemma TaggedDone(h: HashRows, used: set<Id>)
    ensures Tagged(TagSet(SetAllTags(h, Done), used, Reserved), Done) == h.Keys - used
  {
  }

  lemma MarkPhaseFacts(h: HashRows, h': HashRows, seen: seq<Id>, r: Id)
    requires MarkPhase(h, h', seen) && ChildsAreRows(h) && r in h
    ensures ChildsAreRows(h') && r in h' && h'[r].count == h[r].count
    ensures h[r].count <= 0 ==> MarkPhase(h, h', seen + [r])
  {
  }

  // ---------------------------------------------------------------- register and deregister

  /** The counter transaction of a registration: every reserved row and the final one count once more. */
  function Registered(h: HashRows, final: Id): HashRows {
    var h1 := SetTag(h, final, Reserved);
    SetTag(Bump(h1, Tagged(h1, Reserved), 1), final, InProgress)
  }

  /** The counter transaction of a deregistration. */
  function Deregistered(h: HashRows, final: Id): HashRows {
    SetTag(Bump(h, Tagged(h, Reserved), -1), final, ReadyDelete)
  }

  class GcRc {
    const index: Index

    constructor (index: Index)
      ensures this.index == index
    {
      this.index := index;
    }

    method RegisterFinal(final: Id)
      modifies index
      ensures index.trace == old(index.trace) + [old(index.mem)] && index.disk == old(index.mem)
      ensures index.mem == old(index.mem).(hashes := Registered(old(index.mem.hashes), final))
      ensures !index.autoFlush
    {
      index.ManualCommit();
      index.HashSetTag(Some(final), Reserved);
      var ids := index.HashListIdsByTag(Reserved);
      BumpAll(index, ids, 1);
      index.HashSetTag(Some(final), InProgress);
    }

    method RegisterCleanup()
      modifies index`mem
      ensures index.mem == old(index.mem).(hashes := SetAllTags(old(index.mem.hashes), Done))
    {
      index.HashSetTag(None, Done);
    }

    /** `refs` is what listing the snapshot yields, in any order and with repetitions. */
    method Deregister(final: Id, refs: seq<Id>)
      modifies index
      ensures var marked :=
          old(index.mem).(hashes := TagSet(SetAllTags(old(index.mem.hashes), Done), Elems(refs), Reserved));
        && index.trace == old(index.trace) + [marked] && index.disk == marked
        && index.mem == marked.(hashes := Deregistered(marked.hashes, final))
      ensures !index.autoFlush
    {
      index.HashSetTag(None, Done);
      ghost var h0 := index.mem.hashes;
      assert TagSet(h0, Elems(refs[..0]), Reserved) == h0;
      for i := 0 to |refs|
        invariant index.mem == old(index.mem).(hashes := TagSet(h0, Elems(refs[..i]), Reserved))
        invariant index.trace == old(index.trace)
      {
        index.HashSetTag(Some(refs[i]), Reserved);
        assert Elems(refs[..i + 1]) == Elems(refs[..i]) + {refs[i]};
        TagOneMore(h0, Elems(refs[..i]), refs[i], Reserved);
      }
      assert refs[..|refs|] == refs;
      index.ManualCommit();
      var ids := index.HashListIdsByTag(Reserved);
      BumpAll(index, ids, -1);
      index.HashSetTag(Some(final), ReadyDelete);
    }

    /** Mark from every row with a positive count; what stays `Done` is unused, listed highest first. */
    method ListUnusedIds() returns (unused: seq<Id>)
      requires ChildsAreRows(index.mem.hashes)
      requires forall id | id in index.mem.hashes :: index.mem.hashes[id].count >= 0
      modifies index`mem
      ensures index.mem == old(index.mem).(hashes := MarkUsed(old(index.mem.hashes)))
      ensures TopDown(index.mem.hashes, unused) && Elems(unused) == Unused(old(index.mem.hashes))
      ensures forall i, j | 0 <= i < j < |unused| :: unused[i] != unused[j]
    {
      ghost var h := index.mem.hashes;
      index.HashSetTag(None, Done);
      var ids := index.HashListIdsByTag(Done);
      assert Elems(ids) == h.Keys;
      assert Tagged(index.mem.hashes, Reserved) == {};
      for i := 0 to |ids|
        invariant index.mem.snaps == old(index.mem.snaps)
        invariant MarkPhase(h, index.mem.hashes, ids[..i])
      {
        ghost var h1 := index.mem.hashes;
        assert ids[..i + 1] == ids[..i] + [ids[i]];
        assert ids[i] in Elems(ids);
        MarkPhaseFacts(h, h1, ids[..i], ids[i]);
        if index.mem.hashes[ids[i]].count > 0 {
          MarkTree(index, ids[i], Reserved);
          MarkPhaseStep(h, h1, index.mem.hashes, ids[..i], ids[i]);
        }
      }
      assert ids[..|ids|] == ids;
      MarkPhaseEnd(h, index.mem.hashes, ids);
      unused := index.HashListIdsByTag(Done);
    }

    method Status(final: Id) returns (status: Option<GcStatus>)
      ensures status == StatusOf(index.mem.hashes, final)
    {
      var tag := index.HashGetTag(final);
      if tag == Some(Complete) || tag == Some(ReadyDelete) {
        status := Some(StatusComplete);
      } else if tag == Some(InProgress) {
        status := Some(StatusInProgress);
      } else {
        status := None;
      }
    }
  }

  lemma TagOneMore(h: HashRows, ids: set<Id>, id: Id, t: Tag)
    ensures SetTag(TagSet(h, ids, t), id, t) == TagSet(h, ids + {id}, t)
  {
  }
}
