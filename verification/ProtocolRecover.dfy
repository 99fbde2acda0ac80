/**
  Recovering snapshots exactly once: however often a recovery is interrupted, and the resume after it,
  in the end every snapshot it found is registered, and each row counts it once.
*/
module ProtocolRecover {
  import opened Common
  import opened Tags
  import opened GcTables
  import opened GcRc
  import opened SnapshotProtocol
  import opened ProtocolOps
  import opened ProtocolRuns
  import opened ProtocolOnce

  /** What recovering `found` adds to the registrations: the snapshots not known before. */
  function Added(a: World, found: map<Sid, Top>): map<Sid, set<Id>> {
    map k | k in found && k !in a.t.snaps :: found[k].refs
  }

  predicate OnTheWay(w: World, k: Sid, top: Top)
    requires k in w.t.snaps
  {
    && w.t.snaps[k].top == Some(top)
    && (w.t.snaps[k].tag == RecoverInProgress || w.t.snaps[k].tag == Complete || w.t.snaps[k].tag == Done)
    && (k in w.reg ==> w.reg[k] == top.refs)
  }

  /** `w` lies on the way of recovering `found` from `a`: old snapshots are as they were, new ones were
      found and some of them are registered, no row was lost and none changed its slack. */
  ghost predicate RecoverOnce(a: World, found: map<Sid, Top>, w: World) {
    && a.t.hashes.Keys <= w.t.hashes.Keys
    && (forall id | id in w.t.hashes :: Gained(a, w, id) == 0)
    && (w.t.snaps.Keys == a.t.snaps.Keys || w.t.snaps.Keys == a.t.snaps.Keys + found.Keys)
    && (forall k | k in a.t.snaps ::
          k in w.t.snaps && w.t.snaps[k] == a.t.snaps[k] && w.t.snaps[k].tag == Done
          && k in a.reg && k in w.reg && w.reg[k] == a.reg[k])
    && (forall k | k in w.t.snaps && k !in a.t.snaps :: k in found && OnTheWay(w, k, found[k]))
    && a.reg.Keys <= a.t.snaps.Keys && w.reg.Keys <= w.t.snaps.Keys
  }

  /** From `x` to `y` at most the new snapshot `s` moved on. */
  ghost predicate MovedOn(x: World, y: World, s: Sid, top: Top) {
    && s in x.t.snaps && x.t.snaps[s].top == Some(top)
    && (y.t.snaps == x.t.snaps || y.t.snaps == SnapTag(x.t, s, Complete).snaps
      || y.t.snaps == SnapTag(x.t, s, Done).snaps)
    && (y.reg == x.reg || y.reg == x.reg[s := top.refs])
    && x.t.hashes.Keys <= y.t.hashes.Keys
  }

  lemma RecoverOnceStep(a: World, found: map<Sid, Top>, x: World, y: World, s: Sid)
    requires RecoverOnce(a, found, x) && SlackTracked(x, y, {}) && s in found && s !in a.t.snaps
    requires MovedOn(x, y, s, found[s])
    ensures RecoverOnce(a, found, y)
  {
    hide RefCount, Slack, SlackTracked, Gained;
    NothingGained(a, x, y);
    StillOnTheWay(a, found, x, y, s);
  }

  lemma NothingGained(a: World, x: World, y: World)
    requires (forall id | id in x.t.hashes :: Gained(a, x, id) == 0) && SlackTracked(x, y, {})
    requires a.t.hashes.Keys <= x.t.hashes.Keys
    ensures forall id | id in y.t.hashes :: Gained(a, y, id) == 0
  {
    hide RefCount;
    forall id | id in y.t.hashes
      ensures Gained(a, y, id) == 0
    {
      if id in x.t.hashes { assert Gained(a, x, id) == 0; }
    }
  }

  lemma StillOnTheWay(a: World, found: map<Sid, Top>, x: World, y: World, s: Sid)
    requires s in found && s !in a.t.snaps && MovedOn(x, y, s, found[s])
    requires forall k | k in x.t.snaps && k !in a.t.snaps :: k in found && OnTheWay(x, k, found[k])
    ensures forall k | k in y.t.snaps && k !in a.t.snaps :: k in found && OnTheWay(y, k, found[k])
    ensures y.t.snaps.Keys == x.t.snaps.Keys && y.reg.Keys <= x.reg.Keys + {s}
    ensures forall k | k in x.t.snaps && k != s :: y.t.snaps[k] == x.t.snaps[k]
    ensures forall k | k in x.reg && k != s :: k in y.reg && y.reg[k] == x.reg[k]
  {
  }

  // ---------------------------------------------------------------- what the trails do to snapshots and rows

  lemma {:induction false} StepTrailSnaps(t: Tables, steps: seq<CommitStep>, auto: bool)
    ensures forall t' | t' in StepTrail(t, steps, auto) :: t'.snaps == t.snaps && t.hashes.Keys <= t'.hashes.Keys
    ensures t.hashes.Keys <= DoSteps(t.hashes, steps).Keys
    decreases |steps|
  {
    if steps != [] {
      StepTrailSnaps(t.(hashes := DoStep(t.hashes, steps[0])), steps[1..], auto);
    }
  }

  ghost predicate Finishing(t: Tables, t': Tables, s: Sid) {
    && t.hashes.Keys <= t'.hashes.Keys
    && (t'.snaps == SnapTag(t, s, Complete).snaps || t'.snaps == SnapTag(t, s, Done).snaps)
  }

  lemma FinalizeSnaps(t: Tables, s: Sid)
    ensures forall t' | t' in FinalizeTrail(t, s) :: Finishing(t, t', s)
  {
    assert SnapTag(SnapTag(t, s, Complete), s, Done).snaps == SnapTag(t, s, Done).snaps;
  }

  lemma RecoverSnaps(t: Tables, s: Sid, plan: Plan)
    ensures forall t' | t' in RecoverMarkedTrail(t, plan) :: t'.snaps == t.snaps && t.hashes.Keys <= t'.hashes.Keys
    ensures forall t' | t' in RecoverCountedTrail(t, s, plan) :: Finishing(t, t', s)
  {
    hide StepTrail, DoSteps, Registered, FinalizeTrail;
    StepTrailSnaps(t, plan.steps, plan.auto);
    var m := Remarked(t, plan);
    assert m.snaps == t.snaps && t.hashes.Keys <= m.hashes.Keys;
    var c := Counted(m, plan.top.id);
    RegisteredKeys(m.hashes, plan.top.id);
    FinalizeSnaps(c, s);
    FinishingFrom(t, c, s, FinalizeTrail(c, s));
  }

  lemma FinishingFrom(t: Tables, c: Tables, s: Sid, ts: seq<Tables>)
    requires c.snaps == t.snaps && t.hashes.Keys <= c.hashes.Keys && forall t' | t' in ts :: Finishing(c, t', s)
    ensures forall t' | t' in ts :: Finishing(t, t', s)
  {
  }

  // ---------------------------------------------------------------- one snapshot

  lemma TodoMoves(x: World, todo: Todo, y: World)
    requires TodoOk(x, todo) && y in ResumeWorlds(x, todo.s, todo.plan)
    requires x.t.snaps[todo.s].tag == RecoverInProgress || x.t.snaps[todo.s].tag == Complete
    ensures MovedOn(x, y, todo.s, x.t.snaps[todo.s].top.value)
  {
    hide RecoverMarkedTrail, RecoverCountedTrail, FinalizeTrail, CommitWorlds, DeregisterWorlds, CommitWasCounted;
    hide PlanOk, RecoverPlanOk, SnapTag;
    var s, plan := todo.s, todo.plan;
    var ws := ResumeWorlds(x, s, plan);
    var i :| 0 <= i < |ws| && ws[i] == y;
    FinalizeSnaps(x.t, s);
    RecoverSnaps(x.t, s, plan);
    if x.t.snaps[s].tag == RecoverInProgress {
      var before := Worlds(RecoverMarkedTrail(x.t, plan), x.reg);
      if i < |before| {
        assert y.t in RecoverMarkedTrail(x.t, plan);
      } else {
        assert y == Worlds(RecoverCountedTrail(x.t, s, plan), x.reg[s := plan.top.refs])[i - |before|];
        assert y.t in RecoverCountedTrail(x.t, s, plan);
      }
    } else {
      assert y.t in FinalizeTrail(x.t, s);
    }
  }

  lemma TodoKnown(a: World, found: map<Sid, Top>, x: World, s: Sid)
    requires RecoverOnce(a, found, x) && s in NotDone(x.t)
    ensures s in x.t.snaps && s in found && s !in a.t.snaps && x.t.snaps[s].top == Some(found[s])
    ensures x.t.snaps[s].tag == RecoverInProgress || x.t.snaps[s].tag == Complete
  {
  }

  /** Every durable state of working on the first unfinished snapshot is on the way. */
  lemma TodoOnce(a: World, found: map<Sid, Top>, x: World, ph: Phase, todo: Todo, y: World)
    requires InPhase(x, ph) && TodoOk(x, todo) && RecoverOnce(a, found, x)
    requires forall k | k in NotDone(x.t) :: todo.s <= k
    requires y in ResumeWorlds(x, todo.s, todo.plan)
    ensures RecoverOnce(a, found, y)
  {
    hide InPhase, ResumeWorlds, RecoverOnce, SlackTracked, Inv, MovedOn, PlanOk, RecoverPlanOk, CommitWasCounted;
    assert todo.s in NotDone(x.t);
    TodoKnown(a, found, x, todo.s);
    TodoFine(x, ph, todo);
    TodoMoves(x, todo, y);
    var ws := ResumeWorlds(x, todo.s, todo.plan);
    var i :| 0 <= i < |ws| && ws[i] == y;
    AllFineAt(x, ws, {}, i);
    RecoverOnceStep(a, found, x, y, todo.s);
  }

  // ---------------------------------------------------------------- all of them

  lemma {:induction false} WorkOnce(a: World, found: map<Sid, Top>, x: World, ph: Phase, work: seq<Todo>, y: World)
    requires InPhase(x, ph) && Covers(x.t, work) && PlansOk(x, work) && RecoverOnce(a, found, x)
    requires y in WorkWorlds(x, work)
    ensures RecoverOnce(a, found, y)
    decreases |work|
  {
    hide InPhase, RecoverOnce, ResumeWorlds, TodoStrays, NotDone, Covers, AllFine, SlackTracked, PlanOk;
    hide RecoverPlanOk;
    if work != [] {
      var todo := work[0];
      FirstOf(x.t, work);
      var ws := ResumeWorlds(x, todo.s, todo.plan);
      var e := EndOf(x, ws);
      TodoFine(x, ph, todo);
      if y in ws {
        TodoOnce(a, found, x, ph, todo, y);
      } else {
        TodoOnce(a, found, x, ph, todo, e);
        CoversRest(x.t, e.t, work);
        WorkOnce(a, found, e, Restoring, work[1..], y);
      }
    }
  }

  lemma ResumeRecoverOnce(a: World, found: map<Sid, Top>, x: Repo, op: Op, y: Repo)
    requires Sound(x) && RecoverOnce(a, found, x.w) && op.Resume? && Next(x, op, y)
    ensures RecoverOnce(a, found, y.w)
  {
    hide InPhase, RecoverOnce, PlansOk, Covers, WorkWorlds, Sound;
    var ph := SoundPhase(x);
    if y.w != x.w { WorkOnce(a, found, x.w, ph, op.work, y.w); }
  }

  lemma StartRecover(x: Repo, found: map<Sid, Top>, y: Repo)
    requires Sound(x) && x.open && Next(x, Recover(found), y)
    ensures RecoverOnce(x.w, found, x.w) && RecoverOnce(x.w, found, y.w)
  {
    hide RefCount, CountsCover, Closed;
    forall k | k in x.w.t.snaps
      ensures Finished(x.w, k)
    {
      assert Finished(x.w, k) || Recoverable(x.w, k);
    }
  }

  lemma {:induction false} RecoverRunOnce(xs: seq<Repo>, ops: seq<Op>, found: map<Sid, Top>, i: nat)
    requires Interrupted(xs, ops, Recover(found)) && i < |xs|
    ensures RecoverOnce(xs[0].w, found, xs[i].w)
  {
    hide RecoverOnce, Next, Sound;
    assert Next(xs[0], ops[0], xs[1]);
    StartRecover(xs[0], found, xs[1]);
    if i > 1 {
      RecoverRunOnce(xs, ops, found, i - 1);
      RunSound(xs, ops, i - 1);
      assert Next(xs[i - 1], ops[i - 1], xs[i]);
      ResumeRecoverOnce(xs[0].w, found, xs[i - 1], ops[i - 1], xs[i]);
    }
  }

  // ---------------------------------------------------------------- what it comes to

  lemma RefCountBoth(reg: map<Sid, set<Id>>, more: map<Sid, set<Id>>, id: Id)
    requires reg.Keys !! more.Keys
    ensures RefCount(reg + more, id) == RefCount(reg, id) + RefCount(more, id)
  {
    assert Referrers(reg + more, id) == Referrers(reg, id) + Referrers(more, id);
  }

  /** At rest all snapshots that were found are registered, or none was named. */
  lemma RestingReg(a: World, found: map<Sid, Top>, b: World)
    requires RecoverOnce(a, found, b) && InPhase(b, Quiet)
    ensures (forall k | k in b.t.snaps :: b.t.snaps[k].tag == Done) && a.reg.Keys !! Added(a, found).Keys
    ensures b.t.snaps.Keys == a.t.snaps.Keys ==> b.reg == a.reg
    ensures b.t.snaps.Keys == a.t.snaps.Keys + found.Keys ==> b.reg == a.reg + Added(a, found)
  {
    hide RefCount, CountsCover, Closed, Gained;
    forall k | k in b.t.snaps
      ensures Finished(b, k)
    {
      assert Finished(b, k) || Recoverable(b, k);
    }
  }

  lemma RestingCount(a: World, b: World, id: Id)
    requires InPhase(a, Quiet) && id in b.t.hashes && Gained(a, b, id) == 0
    ensures b.t.hashes[id].count == CountIn(a.t.hashes, id) + RefCount(b.reg, id) - RefCount(a.reg, id)
  {
    hide CountsCover, OthersDone, Calm, RefCount, Closed, NoRecovering;
    if id !in a.t.hashes { RefCountZero(a.reg, id); }
  }

  /**
    A recovery, interrupted anywhere and resumed any number of times, in the end either has named no
    snapshot and counted nothing, or has every snapshot it found registered with its rows, each row
    counting each of them exactly once; snapshots known before are untouched.
  */
  lemma RecoveryAppliedOnce(xs: seq<Repo>, ops: seq<Op>, found: map<Sid, Top>)
    requires Interrupted(xs, ops, Recover(found)) && xs[|xs| - 1].open
    ensures var a, b := xs[0].w, xs[|xs| - 1].w; var added := Added(a, found);
      && a.t.hashes.Keys <= b.t.hashes.Keys && (forall k | k in b.t.snaps :: b.t.snaps[k].tag == Done)
      && (forall k | k in a.t.snaps :: k in b.t.snaps && b.t.snaps[k] == a.t.snaps[k])
      && (|| (b.t.snaps.Keys == a.t.snaps.Keys && b.reg == a.reg
              && forall id | id in b.t.hashes :: b.t.hashes[id].count == CountIn(a.t.hashes, id))
          || (b.t.snaps.Keys == a.t.snaps.Keys + found.Keys && b.reg == a.reg + added
              && forall id | id in b.t.hashes :: b.t.hashes[id].count == CountIn(a.t.hashes, id) + RefCount(added, id)))
  {
    hide Next, RefCount, Sound, InPhase, Gained, Added;
    var a, b := xs[0].w, xs[|xs| - 1].w;
    RecoverRunOnce(xs, ops, found, |xs| - 1);
    RunSound(xs, ops, |xs| - 1);
    OpenIsQuiet(xs[0]);
    OpenIsQuiet(xs[|xs| - 1]);
    RestingReg(a, found, b);
    forall id | id in b.t.hashes
      ensures b.t.hashes[id].count == CountIn(a.t.hashes, id) + RefCount(b.reg, id) - RefCount(a.reg, id)
      ensures RefCount(a.reg + Added(a, found), id) == RefCount(a.reg, id) + RefCount(Added(a, found), id)
    {
      RestingCount(a, b, id);
      RefCountBoth(a.reg, Added(a, found), id);
    }
  }
}
