/**
  The repository object: commit, deregister, recover, resume and gc as they update the tables step by step.

  Each method is proved against the trail of durable states that `SnapshotProtocol` gives for it, so
  every statement about runs is a statement about these methods crashing at any flush.
*/
module Hat {
  import opened Common
  import opened Tags
  import opened GcTables
  import opened GcRc
  import opened SnapshotProtocol
  import opened ProtocolOps
  import opened ProtocolRuns

  /** The names of all blobs some hash row points into. */
  ghost function NamedBlobs(h: HashRows): set<Bytes> {
    set id | id in h && h[id].blob.Some? :: h[id].blob.value
  }

  ghost function WithBlob(h: HashRows): set<Id> {
    set id | id in h && h[id].blob.Some?
  }

  /** The blob table and the external storage behind it. */
  class BlobTable {
    var rows: map<Bytes, Tag>
    var stored: set<Bytes>

    constructor ()
      ensures rows == map[] && stored == {}
    {
      rows, stored := map[], {};
    }

    method TagAll(tag: Tag)
      modifies this`rows
      ensures rows.Keys == old(rows.Keys) && forall n | n in rows :: rows[n] == tag
    {
      rows := map n | n in rows :: tag;
    }

    method SetTag(name: Bytes, tag: Tag)
      modifies this`rows
      ensures rows.Keys == old(rows.Keys)
      ensures forall n | n in rows :: rows[n] == if n == name then tag else old(rows)[n]
    {
      rows := map n | n in rows :: if n == name then tag else rows[n];
    }

    /** Delete every blob carrying `tag` from storage, then forget their rows. */
    method DeleteByTag(tag: Tag)
      modifies this
      ensures rows == map n | n in old(rows) && old(rows)[n] != tag :: old(rows)[n]
      ensures stored == old(stored) - set n | n in old(rows) && old(rows)[n] == tag
    {
      var doomed := set n | n in rows && rows[n] == tag;
      var left := doomed;
      while left != {}
        invariant left <= doomed && rows == old(rows) && stored == old(stored) - (doomed - left)
        decreases left
      {
        var name :| name in left;
        stored := stored - {name};
        left := left - {name};
      }
      rows := map n | n in rows && rows[n] != tag :: rows[n];
    }

    /** Tag every blob a hash row names, counting those rows. */
    method MarkLive(hashes: HashRows) returns (live: nat)
      requires forall n | n in rows :: rows[n] == InProgress
      modifies this`rows
      ensures rows.Keys == old(rows.Keys)
      ensures forall n | n in rows :: rows[n] == if n in NamedBlobs(hashes) then Reserved else InProgress
      ensures live == |WithBlob(hashes)|
    {
      var left := hashes.Keys;
      ghost var seen: HashRows := map[];
      live := 0;
      while left != {}
        invariant left <= hashes.Keys && seen == Without(hashes, left)
        invariant rows.Keys == old(rows.Keys)
        invariant forall n | n in rows :: rows[n] == if n in NamedBlobs(seen) then Reserved else InProgress
        invariant live == |WithBlob(seen)|
        decreases left
      {
        var id :| id in left;
        var entry := hashes[id];
        SeenOneMore(seen, id, entry);
        if entry.blob.Some? {
          live := live + 1;
          SetTag(entry.blob.value, Reserved);
        }
        seen := seen[id := entry];
        left := left - {id};
      }
      assert seen == hashes;
    }

    /** Keep exactly the blobs some hash row names. */
    method Sweep(hashes: HashRows) returns (live: nat)
      modifies this
      ensures rows.Keys == old(rows.Keys) * NamedBlobs(hashes)
      ensures forall n | n in rows :: rows[n] == Done
      ensures stored == old(stored) - (old(rows.Keys) - NamedBlobs(hashes))
      ensures live == |WithBlob(hashes)|
    {
      TagAll(InProgress);
      live := MarkLive(hashes);
      DeleteByTag(InProgress);
      TagAll(Done);
    }
  }

  lemma SeenOneMore(seen: HashRows, id: Id, row: HashRow)
    requires id !in seen
    ensures NamedBlobs(seen[id := row]) == NamedBlobs(seen) + (if row.blob.Some? then {row.blob.value} else {})
    ensures |WithBlob(seen[id := row])| == |WithBlob(seen)| + (if row.blob.Some? then 1 else 0)
  {
    NamedOneMore(seen, id, row);
    hide NamedBlobs;
    assert WithBlob(seen[id := row]) == WithBlob(seen) + (if row.blob.Some? then {id} else {});
  }

  lemma NamedOneMore(seen: HashRows, id: Id, row: HashRow)
    requires id !in seen
    ensures NamedBlobs(seen[id := row]) == NamedBlobs(seen) + (if row.blob.Some? then {row.blob.value} else {})
  {
    var seen' := seen[id := row];
    forall k | k in WithBlob(seen)
      ensures seen[k].blob.value in NamedBlobs(seen')
    {
      assert k in seen' && seen'[k].blob.value == seen[k].blob.value;
    }
    if row.blob.Some? { assert id in seen' && seen'[id].blob.value == row.blob.value; }
  }

  lemma MarkedUnused(h: HashRows, unused: seq<Id>)
    requires Closed(h) && TopDown(MarkUsed(h), unused) && Elems(unused) == Unused(h)
    ensures TopDown(h, unused)
  {
  }

  lemma ClosedHasRows(h: HashRows)
    requires Closed(h)
    ensures ChildsAreRows(h)
  {
  }

  lemma ClosedRetag(h: HashRows, h': HashRows)
    requires Closed(h) && SameGraph(h, h')
    ensures Closed(h')
  {
  }

  lemma SameGraphWithout(h: HashRows, h': HashRows, ids: set<Id>)
    requires SameGraph(h, h')
    ensures SameGraph(Without(h, ids), Without(h', ids))
  {
  }

  lemma MarkedSameGraph(h: HashRows)
    ensures SameGraph(h, MarkUsed(h))
  {
  }

  lemma MarkedDeletionClosed(h: HashRows, unused: seq<Id>, n: nat)
    requires Closed(h) && TopDown(h, unused) && Elems(unused) == Unused(h) && n <= |unused|
    ensures Closed(Without(MarkUsed(h), Elems(unused[..n])))
  {
    hide Closed, SameGraph, Without, MarkUsed, Unused, TopDown;
    TopDownDeletionClosed(h, unused, n);
    MarkedSameGraph(h);
    SameGraphWithout(h, MarkUsed(h), Elems(unused[..n]));
    ClosedRetag(Without(h, Elems(unused[..n])), Without(MarkUsed(h), Elems(unused[..n])));
  }

  lemma SweptIsWithout(h: HashRows, unused: seq<Id>)
    requires Elems(unused) == Unused(h)
    ensures Without(MarkUsed(h), Elems(unused)) == Swept(h)
  {
  }

  lemma SweptKeeps(h: HashRows)
    ensures forall id | id in h ::
      id in Swept(h) <==> exists root :: root in h && h[root].count > 0 && Reaches(h, root, id)
  {
    hide Reaches;
    assert forall id | id in h :: id in Swept(h) <==> Used(h, id);
  }

  lemma WithoutOneMore(m: HashRows, unused: seq<Id>, i: nat)
    requires i < |unused|
    ensures Without(Without(m, Elems(unused[..i])), {unused[i]}) == Without(m, Elems(unused[..i + 1]))
  {
  }

  lemma WithoutNothing(m: HashRows, unused: seq<Id>)
    ensures Without(m, Elems(unused[..0])) == m
  {
  }

  lemma DistinctCount(ids: seq<Id>)
    requires forall i, j | 0 <= i < j < |ids| :: ids[i] != ids[j]
    ensures |Elems(ids)| == |ids|
    decreases |ids|
  {
    if ids != [] {
      var n := |ids| - 1;
      assert ids == ids[..n] + [ids[n]];
      DistinctCount(ids[..n]);
      assert Elems(ids) == Elems(ids[..n]) + {ids[n]};
    }
  }

  class Hat {
    const index: Index
    const gc: GcRc
    const blobs: BlobTable

    constructor (index: Index, blobs: BlobTable)
      ensures this.index == index && this.blobs == blobs && gc.index == index && fresh(gc)
    {
      this.index, this.blobs := index, blobs;
      gc := new GcRc(index);
    }

    ghost predicate Wired() {
      gc.index == index
    }

    /** Write the directory listings: new rows, tags for the hashes they list, flushes on the way. */
    method FamilyCommit(steps: seq<CommitStep>)
      modifies index`mem, index`disk, index`trace
      ensures index.mem == old(index.mem).(hashes := DoSteps(old(index.mem.hashes), steps))
      ensures index.trace == old(index.trace) + StepTrail(old(index.mem), steps, index.autoFlush)
    {
      ghost var t := index.mem;
      for i := 0 to |steps|
        invariant DoSteps(index.mem.hashes, steps[i..]) == DoSteps(t.hashes, steps)
        invariant index.mem.snaps == t.snaps
        invariant index.trace + StepTrail(index.mem, steps[i..], index.autoFlush)
               == old(index.trace) + StepTrail(t, steps, index.autoFlush)
      {
        ghost var m, tr := index.mem, index.trace;
        assert steps[i..][0] == steps[i] && steps[i..][1..] == steps[i + 1..];
        match steps[i]
        case AddRow(id, row) => index.HashInsert(id, row);
        case TagRef(id) => index.HashSetTag(Some(id), Reserved);
        case Timer => index.MaybeFlush(true);
        case BlobStored => index.Flush();
        StepTrailOne(m, index.mem, tr, index.trace, steps[i..], index.autoFlush);
      }
      assert steps[|steps|..] == [];
    }

    method CommitFinalize(s: Sid)
      requires Wired()
      modifies index
      ensures index.trace == old(index.trace) + FinalizeTrail(old(index.mem), s)
      ensures index.mem == index.disk == FinalizeTrail(old(index.mem), s)[2]
      ensures index.autoFlush == old(index.autoFlush)
      ensures forall id | id in index.mem.hashes :: index.mem.hashes[id].tag == Done
    {
      index.SnapshotSetTag(s, Complete);
      index.Flush();
      gc.RegisterCleanup();
      index.Flush();
      index.SnapshotSetTag(s, Done);
      index.Flush();
    }

    /** Commit under a fresh reservation, or again under the one an interrupted commit left. */
    method Commit(s: Sid, plan: Plan)
      requires Wired() && plan.auto == index.autoFlush
      modifies index
      ensures index.trace == old(index.trace) + CommitTrail(old(index.mem), s, plan)
      ensures index.mem == index.disk ==
          CommitTrail(old(index.mem), s, plan)[|CommitTrail(old(index.mem), s, plan)| - 1]
      ensures !index.autoFlush
      ensures forall id | id in index.mem.hashes :: index.mem.hashes[id].tag == Done
    {
      hide StepTrail, DoSteps, Registered, FinalizeTrail;
      ghost var t, tr := index.mem, index.trace;
      if s !in index.mem.snaps {
        index.SnapshotReserve(s);
      }
      ghost var t0 := index.mem;
      assert t0 == Begun(t, s);
      index.Flush();
      FamilyCommit(plan.steps);
      index.SnapshotUpdate(s, plan.top);
      ghost var p := index.mem;
      assert p == Prepared(t0, s, plan);
      index.Flush();
      gc.RegisterFinal(plan.top.id);
      index.Flush();
      assert index.mem == Counted(p, plan.top.id);
      CommitTrailParts(tr, t, s, plan);
      CommitFinalize(s);
    }

    /** All hash rows a snapshot lists, in some order. */
    method ListSnapshot(top: Top) returns (refs: seq<Id>)
      ensures Elems(refs) == top.refs
    {
      var left := top.refs;
      refs := [];
      while left != {}
        invariant Elems(refs) + left == top.refs
        decreases left
      {
        var id :| id in left;
        refs := refs + [id];
        left := left - {id};
      }
    }

    method DeregisterFinalize(s: Sid)
      requires Wired()
      modifies index
      ensures index.trace == old(index.trace) + DropTrail(old(index.mem), s)
      ensures index.mem == index.disk == DropTrail(old(index.mem), s)[4]
      ensures index.autoFlush == old(index.autoFlush)
      ensures forall id | id in index.mem.hashes :: index.mem.hashes[id].tag == Done
    {
      index.SnapshotSetTag(s, ReadyDelete);
      index.Flush();
      gc.RegisterCleanup();
      index.Flush();
      index.SnapshotDelete(s);
      index.Flush();
      index.Flush();
      index.Flush();
    }

    /** Undo a snapshot's registration and forget it. A snapshot that was never completed is refused. */
    method Deregister(s: Sid) returns (ok: bool)
      requires Wired()
      modifies index
      ensures ok == (s in old(index.mem).snaps && old(index.mem).snaps[s].top.Some?)
      ensures !ok ==> index.mem == old(index.mem) && index.disk == old(index.disk) && index.trace == old(index.trace)
      ensures ok ==> var top := old(index.mem).snaps[s].top.value; var d2 := Dropped(old(index.mem), s, top);
        && index.trace == old(index.trace) + [SnapTag(old(index.mem), s, WillDelete), Dropping(old(index.mem), s, top)]
             + ([d2] + DropTrail(d2, s))
        && index.mem == index.disk == DropTrail(d2, s)[4] && !index.autoFlush
      ensures ok ==> forall id | id in index.mem.hashes :: index.mem.hashes[id].tag == Done
    {
      if s !in index.mem.snaps || index.mem.snaps[s].top.None? {
        return false;
      }
      var top := index.mem.snaps[s].top.value;
      index.SnapshotSetTag(s, WillDelete);
      index.Flush();
      var refs := ListSnapshot(top);
      gc.Deregister(top.id, refs);
      index.Flush();
      DeregisterFinalize(s);
      ok := true;
    }

    /** Delete the given rows one by one. `states` are the hash tables before and after each deletion. */
    method DeleteUnused(ghost h: HashRows, unused: seq<Id>) returns (deleted: nat, ghost states: seq<HashRows>)
      requires index.mem.hashes == MarkUsed(h) && Closed(h) && TopDown(h, unused) && Elems(unused) == Unused(h)
      modifies index`mem
      ensures deleted == |unused| == |states| - 1
      ensures states[0] == MarkUsed(h) && states[deleted] == Swept(h)
      ensures forall i | 0 <= i < |states| :: Closed(states[i])
      ensures index.mem == old(index.mem).(hashes := Swept(h))
    {
      hide Closed, Without, MarkUsed, Unused, TopDown, Swept;
      ghost var m := index.mem.hashes;
      states := [m];
      deleted := 0;
      WithoutNothing(m, unused);
      MarkedDeletionClosed(h, unused, 0);
      for i := 0 to |unused|
        invariant deleted == i && |states| == i + 1 && states[0] == m && states[i] == index.mem.hashes
        invariant index.mem == old(index.mem).(hashes := Without(m, Elems(unused[..i])))
        invariant forall j | 0 <= j <= i :: Closed(states[j])
      {
        deleted := deleted + 1;
        index.HashDelete(unused[i]);
        WithoutOneMore(m, unused, i);
        MarkedDeletionClosed(h, unused, i + 1);
        states := states + [index.mem.hashes];
      }
      assert unused[..|unused|] == unused;
      SweptIsWithout(h, unused);
    }

    /**
      Delete the hash rows no snapshot needs, then the blobs no remaining row names. `states` are the
      hash tables after the mark phase and after each single deletion.
    */
    method Gc() returns (deleted: nat, live: nat, ghost states: seq<HashRows>)
      requires Wired() && Closed(index.mem.hashes)
      requires forall id | id in index.mem.hashes :: index.mem.hashes[id].count >= 0
      modifies index, blobs
      ensures index.mem == index.disk == Collected(old(index.mem))
      ensures forall id | id in old(index.mem.hashes) :: id in index.mem.hashes <==>
        exists root :: root in old(index.mem.hashes) && old(index.mem.hashes)[root].count > 0 &&
          Reaches(old(index.mem.hashes), root, id)
      ensures index.trace == old(index.trace) + [index.mem, index.mem]
      ensures deleted == |Unused(old(index.mem.hashes))| == |states| - 1
      ensures states[0] == MarkUsed(old(index.mem.hashes)) && states[deleted] == index.mem.hashes
      ensures forall i | 0 <= i < |states| :: Closed(states[i])
      ensures blobs.rows.Keys == old(blobs.rows.Keys) * NamedBlobs(index.mem.hashes)
      ensures blobs.stored == old(blobs.stored) - (old(blobs.rows.Keys) - NamedBlobs(index.mem.hashes))
      ensures forall n | n in blobs.rows :: blobs.rows[n] == Done
      ensures live == |WithBlob(index.mem.hashes)|
    {
      hide Closed, ChildsAreRows, Without, MarkUsed, Unused, TopDown, Swept, NamedBlobs, WithBlob, Reaches;
      ghost var h := index.mem.hashes;
      ClosedHasRows(h);
      SweptKeeps(h);
      var unused := gc.ListUnusedIds();
      MarkedUnused(h, unused);
      DistinctCount(unused);
      deleted, states := DeleteUnused(h, unused);
      index.Flush();
      live := blobs.Sweep(index.mem.hashes);
      index.Flush();
    }

    /** Put the rows below a snapshot's root back and register it; `plan` is what walking it finds. */
    method RecoverSnapshot(s: Sid, plan: Plan)
      requires Wired() && plan.auto == index.autoFlush
      modifies index
      ensures index.trace == old(index.trace) + RecoverMarkedTrail(old(index.mem), plan)
                             + RecoverCountedTrail(old(index.mem), s, plan)
      ensures index.mem == index.disk == RecoverCountedTrail(old(index.mem), s, plan)[2]
      ensures !index.autoFlush
      ensures forall id | id in index.mem.hashes :: index.mem.hashes[id].tag == Done
    {
      hide StepTrail, DoSteps, Registered, FinalizeTrail;
      ghost var t, tr := index.mem, index.trace;
      FamilyCommit(plan.steps);
      index.HashSetTag(None, Done);
      ghost var h := index.mem.hashes;
      var left := plan.top.refs - {plan.top.id};
      ghost var all := left;
      TagNone(h);
      while left != {}
        invariant left <= all && index.mem == t.(hashes := TagSet(h, all - left, Reserved))
        invariant index.trace == tr + StepTrail(t, plan.steps, plan.auto) && index.autoFlush == plan.auto
        decreases left
      {
        var id :| id in left;
        TagOneMore(h, all - left, id, Reserved);
        assert all - (left - {id}) == all - left + {id};
        index.HashSetTag(Some(id), Reserved);
        left := left - {id};
      }
      assert all - {} == all;
      assert index.mem == Remarked(t, plan);
      gc.RegisterFinal(plan.top.id);
      CommitFinalize(s);
      assert tr + StepTrail(t, plan.steps, plan.auto) + [Remarked(t, plan)] == tr + RecoverMarkedTrail(t, plan);
    }

    /** Name the snapshots a recovery has found, to be recovered by `Resume`. */
    method Recover(found: map<Sid, Top>)
      requires forall k | k in found && k in index.mem.snaps ::
        index.mem.snaps[k].top.Some? && index.mem.snaps[k].top.value.id == found[k].id
      modifies index`mem, index`disk, index`trace
      ensures index.mem == index.disk == WithFound(old(index.mem), found)
      ensures index.trace == old(index.trace) + [index.mem]
    {
      ghost var t := index.mem;
      var left := found.Keys;
      assert t == WithFound(t, found - left);
      while left != {}
        invariant left <= found.Keys && index.mem == WithFound(t, found - left) && index.trace == old(index.trace)
        decreases left
      {
        var k :| k in left;
        FoundOneMore(t, found, left, k);
        index.SnapshotRecover(k, found[k]);
        left := left - {k};
      }
      assert found - {} == found;
      index.Flush();
    }

    /** Finish what the durable tags say is unfinished about one snapshot; `plan` is what walking its
        listings on the way will find. A snapshot to be recovered whose root is flagged is refused. */
    method ResumeOne(s: Sid, plan: Plan, ghost w: World) returns (ok: bool)
      requires Wired() && w.t == index.mem && TodoOk(w, Todo(s, plan)) && plan.auto == index.autoFlush
      modifies index
      ensures ok == !(w.t.snaps[s].tag == RecoverInProgress && CommitWasCounted(w.t, s))
      ensures !ok ==> index.mem == old(index.mem) && index.disk == old(index.disk) && index.trace == old(index.trace)
      ensures ok ==> var ws := ResumeWorlds(w, s, plan);
        ws != [] && index.trace == old(index.trace) + Trail(ws) && index.mem == index.disk == ws[|ws| - 1].t
      ensures ok ==> forall id | id in index.mem.hashes :: index.mem.hashes[id].tag == Done
      ensures ok ==> index.autoFlush == AutoAfter(w, Todo(s, plan), old(index.autoFlush))
    {
      hide Removed, AllDone, TagSet, SetAllTags, Deregistered, CommitWorlds, CommitTrail, PlanOk, RecoverPlanOk;
      hide RecoverMarkedTrail, RecoverCountedTrail, RecoverWorlds, DropTrail, Dropped, Dropping, FinalizeTrail;
      hide DeregisterWorlds, SnapTag;
      FinishTrailsAre(w, s);
      var row := index.mem.snaps[s];
      ok := true;
      match TagToWorkStatus(row.tag)
      case CommitInProgress =>
        var counted := WasCounted(row);
        if counted {
          CommitFinalize(s);
        } else {
          CommitTrailIs(w, s, plan);
          Commit(s, plan);
        }
      case CommitComplete => CommitFinalize(s);
      case DeleteInProgress =>
        var status := gc.Status(row.top.value.id);
        if status == Some(StatusComplete) {
          DeregisterFinalize(s);
        } else {
          DeregisterTrailIs(w, s, row.top.value);
          var done := Deregister(s);
        }
      case DeleteDone => DeregisterFinalize(s);
      case Recovering =>
        var counted := WasCounted(row);
        if counted {
          return false;
        }
        RecoverTrailIs(w, s, plan);
        RecoverSnapshot(s, plan);
    }

    method WasCounted(row: SnapRow) returns (counted: bool)
      requires Wired()
      ensures counted == (row.top.Some? && StatusOf(index.mem.hashes, row.top.value.id).Some?)
    {
      counted := false;
      if row.top.Some? {
        var status := gc.Status(row.top.value.id);
        counted := status.Some?;
      }
    }

    /**
      Run when a repository is opened. From any state a crash can leave, it finishes what is unfinished,
      passing through exactly the durable states of the protocol's `Resume`; it never gives up.
    */
    method Resume(work: seq<Todo>, ghost w: World) returns (ok: bool)
      requires Wired() && w.t == index.mem && Inv(w) && OpOk(w, Op.Resume(work)) && AutosOk(w, work, index.autoFlush)
      modifies index
      ensures ok && index.trace == old(index.trace) + Trail(OpWorlds(w, Op.Resume(work)))
      ensures index.mem == EndOf(w, OpWorlds(w, Op.Resume(work))).t
      ensures work != [] ==> forall id | id in index.mem.hashes :: index.mem.hashes[id].tag == Done
      ensures forall s | s in index.mem.snaps :: index.mem.snaps[s].tag == Done
    {
      hide InPhase, PlanOk, ResumeWorlds, TodoOk, PlansOk, AutosOk, Covers, WorkWorlds;
      ghost var x := w;
      ghost var ph := SomePhase(w);
      ghost var tr := index.trace;
      var need := index.SnapshotListNotDone();
      NeedIsWork(w.t, need, work);
      assert work[0..] == work;
      for i := 0 to |need|
        invariant |need| == |work| && forall j :: 0 <= j < |work| ==> need[j] == work[j].s
        invariant index.mem == x.t && InPhase(x, ph) && Covers(x.t, work[i..]) && PlansOk(x, work[i..])
        invariant i > 0 ==> Untagged(index.mem.hashes)
        invariant AutosOk(x, work[i..], index.autoFlush)
        invariant index.trace + Trail(WorkWorlds(x, work[i..])) == tr + Trail(WorkWorlds(w, work))
        invariant EndOf(x, WorkWorlds(x, work[i..])) == EndOf(w, WorkWorlds(w, work))
      {
        ghost var before := index.trace;
        WorkStep(x, ph, work[i..], index.autoFlush);
        assert work[i..][0] == work[i] && work[i..][1..] == work[i + 1..];
        ok := ResumeOne(need[i], work[i].plan, x);
        ghost var ws := ResumeWorlds(x, work[i].s, work[i].plan);
        TrailConcat(before, ws, WorkWorlds(EndOf(x, ws), work[i + 1..]));
        x, ph := EndOf(x, ws), Restoring;
      }
      assert work[|work|..] == [];
      WorkEnd(x, ph, index.trace);
      QuietDone(x);
      need := index.SnapshotListNotDone();
      FirstOfNeed(need);
      assert need == [];
      ok := true;
    }
  }

  /** Whether the timer may still flush after working on `todo`: registering and deregistering stop it. */
  function AutoAfter(w: World, todo: Todo, auto: bool): bool {
    auto && todo.s in w.t.snaps &&
    match TagToWorkStatus(w.t.snaps[todo.s].tag)
    case CommitInProgress => CommitWasCounted(w.t, todo.s)
    case CommitComplete => true
    case DeleteInProgress =>
      w.t.snaps[todo.s].top.Some? && StatusOf(w.t.hashes, w.t.snaps[todo.s].top.value.id) == Some(StatusComplete)
    case DeleteDone => true
    case Recovering => false
  }

  /** The plans say rightly whether timers flush during their walks. */
  ghost predicate AutosOk(w: World, work: seq<Todo>, auto: bool)
    requires PlansOk(w, work)
    decreases |work|
  {
    work == [] ||
    (work[0].plan.auto == auto &&
     AutosOk(EndOf(w, ResumeWorlds(w, work[0].s, work[0].plan)), work[1..], AutoAfter(w, work[0], auto)))
  }

  lemma SomePhase(w: World) returns (ph: Phase)
    requires Inv(w)
    ensures InPhase(w, ph)
  {
    ph :| InPhase(w, ph);
  }

  /** Both list the unfinished snapshots in order. */
  lemma {:induction false} SameOrder(a: seq<Sid>, b: seq<Sid>)
    requires (forall i, j | 0 <= i < j < |a| :: a[i] < a[j]) && (forall i, j | 0 <= i < j < |b| :: b[i] < b[j])
    requires forall s :: s in a <==> s in b
    ensures a == b
    decreases |a|
  {
    FirstOfNeed(b);
    if a != [] {
      assert a[0] in a && a[0] in b;
      assert b[0] in b && b[0] in a;
      TailWithout(a);
      TailWithout(b);
      SameOrder(a[1..], b[1..]);
      assert a == [a[0]] + a[1..] && b == [b[0]] + b[1..];
    }
  }

  lemma TailWithout(a: seq<Sid>)
    requires a != [] && forall i, j | 0 <= i < j < |a| :: a[i] < a[j]
    ensures forall i, j | 0 <= i < j < |a[1..]| :: a[1..][i] < a[1..][j]
    ensures forall s :: s in a[1..] <==> s in a && s != a[0]
    ensures forall s | s in a :: a[0] <= s
  {
    forall s | s in a && s != a[0]
      ensures s in a[1..]
    {
      var i :| 0 <= i < |a| && a[i] == s;
      assert a[1..][i - 1] == s;
    }
    forall s | s in a[1..]
      ensures s in a && s != a[0]
    {
      var i :| 0 <= i < |a[1..]| && a[1..][i] == s;
      assert a[i + 1] == s;
    }
  }

  lemma NeedIsWork(t: Tables, need: seq<Sid>, work: seq<Todo>)
    requires Covers(t, work)
    requires forall s :: s in need <==> s in t.snaps && t.snaps[s].tag != Done
    requires forall i, j | 0 <= i < j < |need| :: need[i] < need[j]
    ensures |need| == |work| && forall j :: 0 <= j < |work| ==> need[j] == work[j].s
  {
    var sids := seq(|work|, i requires 0 <= i < |work| => work[i].s);
    forall s
      ensures s in sids <==> s in need
    {
      assert s in need <==> s in NotDone(t);
      assert s in NotDone(t) <==> s in Sids(work);
      if s in Sids(work) {
        var i :| 0 <= i < |work| && work[i].s == s;
        assert sids[i] == s;
      }
      if s in sids {
        var i :| 0 <= i < |sids| && sids[i] == s;
        assert work[i] in work;
      }
    }
    SameOrder(need, sids);
  }

  /** What working on the first snapshot leaves to do. */
  lemma WorkStep(x: World, ph: Phase, work: seq<Todo>, auto: bool)
    requires InPhase(x, ph) && Covers(x.t, work) && PlansOk(x, work) && AutosOk(x, work, auto) && work != []
    ensures TodoOk(x, work[0]) && work[0].plan.auto == auto && work[0].s in x.t.snaps
    ensures x.t.snaps[work[0].s].tag != Reserved && x.t.snaps[work[0].s].tag != InProgress ==>
      x.t.snaps[work[0].s].top.Some?
    ensures !(x.t.snaps[work[0].s].tag == RecoverInProgress && CommitWasCounted(x.t, work[0].s))
    ensures var ws := ResumeWorlds(x, work[0].s, work[0].plan); var e := EndOf(x, ws);
      && ws != [] && InPhase(e, Restoring) && Covers(e.t, work[1..]) && PlansOk(e, work[1..])
      && AutosOk(e, work[1..], AutoAfter(x, work[0], auto))
      && WorkWorlds(x, work) == ws + WorkWorlds(e, work[1..])
      && EndOf(x, WorkWorlds(x, work)) == EndOf(e, WorkWorlds(e, work[1..]))
  {
    hide InPhase, TodoOk, AllFine, SlackTracked, Covers, ResumeWorlds, TodoStrays, AutoAfter, EndOf, CommitWasCounted;
    FirstTodo(x, work[0]);
    FirstOf(x.t, work);
    TodoFine(x, ph, work[0]);
    NotRefused(x, work[0]);
    var ws := ResumeWorlds(x, work[0].s, work[0].plan);
    var e := EndOf(x, ws);
    CoversRest(x.t, e.t, work);
    EndConcat(x, ws, WorkWorlds(e, work[1..]));
  }

  lemma FirstTodo(x: World, todo: Todo)
    requires TodoOk(x, todo)
    ensures todo.s in x.t.snaps
    ensures x.t.snaps[todo.s].tag != Reserved && x.t.snaps[todo.s].tag != InProgress ==> x.t.snaps[todo.s].top.Some?
  {
  }

  lemma NotRefused(x: World, todo: Todo)
    requires TodoOk(x, todo) && ResumeWorlds(x, todo.s, todo.plan) != []
    ensures !(x.t.snaps[todo.s].tag == RecoverInProgress && CommitWasCounted(x.t, todo.s))
  {
    hide CommitWasCounted;
  }

  lemma TrailConcat(before: seq<Tables>, a: seq<World>, b: seq<World>)
    ensures before + Trail(a + b) == (before + Trail(a)) + Trail(b)
  {
  }

  lemma WorkEnd(x: World, ph: Phase, trace: seq<Tables>)
    requires InPhase(x, ph) && Covers(x.t, []) && PlansOk(x, [])
    ensures WorkWorlds(x, []) == [] && trace + Trail(WorkWorlds(x, [])) == trace && InPhase(x, Quiet)
  {
    hide InPhase;
    NothingToDo(x, ph);
  }

  lemma QuietDone(x: World)
    requires InPhase(x, Quiet)
    ensures forall s | s in x.t.snaps :: x.t.snaps[s].tag == Done
  {
    ResumeDecides(x, Quiet);
    forall s | s in x.t.snaps
      ensures x.t.snaps[s].tag == Done
    {
      assert s !in NotDone(x.t);
    }
  }

  lemma FirstOfNeed(need: seq<Sid>)
    ensures need != [] ==> need[0] in need
  {
  }

  lemma TagNone(h: HashRows)
    ensures TagSet(h, {}, Reserved) == h
  {
  }

  lemma FoundOneMore(t: Tables, found: map<Sid, Top>, left: set<Sid>, k: Sid)
    requires left <= found.Keys && k in left
    ensures var m := WithFound(t, found - left);
      && WithFound(t, found - (left - {k})) ==
           (if k in m.snaps then m else m.(snaps := m.snaps[k := SnapRow(RecoverInProgress, Some(found[k]))]))
      && (k in m.snaps <==> k in t.snaps) && (k in m.snaps ==> m.snaps[k] == t.snaps[k])
  {
  }

  lemma FinishTrailsAre(w: World, s: Sid)
    ensures Trail(Worlds(FinalizeTrail(w.t, s), w.reg)) == FinalizeTrail(w.t, s) && |FinalizeTrail(w.t, s)| == 3
    ensures Trail(Worlds(DropTrail(w.t, s), w.reg)) == DropTrail(w.t, s) && |DropTrail(w.t, s)| == 5
  {
  }

  lemma DeregisterTrailIs(w: World, s: Sid, top: Top)
    ensures var d2 := Dropped(w.t, s, top); var ws := DeregisterWorlds(w, s, top);
      && Trail(ws) == [SnapTag(w.t, s, WillDelete), Dropping(w.t, s, top)] + ([d2] + DropTrail(d2, s))
      && ws != [] && ws[|ws| - 1].t == DropTrail(d2, s)[4]
  {
    hide Dropped, Dropping, SnapTag, Removed;
  }

  lemma RecoverTrailIs(w: World, s: Sid, plan: Plan)
    ensures Trail(RecoverWorlds(w, s, plan)) == RecoverMarkedTrail(w.t, plan) + RecoverCountedTrail(w.t, s, plan)
    ensures |RecoverCountedTrail(w.t, s, plan)| == 3
  {
    hide StepTrail, DoSteps, Registered;
  }

  lemma CommitTrailParts(tr: seq<Tables>, t: Tables, s: Sid, plan: Plan)
    ensures var t0 := Begun(t, s); var p := Prepared(t0, s, plan); var c := Counted(p, plan.top.id);
      && tr + [t0] + StepTrail(t0, plan.steps, plan.auto) + [p] + [p] + [c] + FinalizeTrail(c, s) ==
        tr + CommitTrail(t, s, plan)
      && CommitTrail(t, s, plan)[|CommitTrail(t, s, plan)| - 1] == FinalizeTrail(c, s)[2]
  {
    hide StepTrail, DoSteps, Registered;
    assert |CountedTrail(t, s, plan)| == 4;
  }

  lemma CommitTrailIs(w: World, s: Sid, plan: Plan)
    ensures Trail(CommitWorlds(w, s, plan)) == CommitTrail(w.t, s, plan) != []
  {
  }

  lemma StepTrailOne(m: Tables, m': Tables, tr: seq<Tables>, tr': seq<Tables>, steps: seq<CommitStep>, auto: bool)
    requires steps != [] && m' == m.(hashes := DoStep(m.hashes, steps[0]))
    requires tr' == tr + (if Flushes(steps[0], auto) then [m'] else [])
    ensures tr' + StepTrail(m', steps[1..], auto) == tr + StepTrail(m, steps, auto)
  {
  }
}
