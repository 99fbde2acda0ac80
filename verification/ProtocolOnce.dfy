/**
  Exactly once: however often a commit or a deregistration is interrupted, and however often the
  resume after it is interrupted again, its change to the counters is applied once in total.
*/
module ProtocolOnce {
  import opened Common
  import opened Tags
  import opened GcTables
  import opened GcRc
  import opened SnapshotProtocol
  import opened ProtocolOps
  import opened ProtocolRuns

  /** Only `s` may be unfinished, and its tag is one of `tags`. */
  ghost predicate OnlyPending(t: Tables, s: Sid, tags: set<Tag>) {
    forall k | k in t.snaps :: if k == s then t.snaps[k].tag in tags else t.snaps[k].tag == Done
  }

  /** Along a trail no row is lost and only `s` is unfinished. */
  ghost predicate Steady(ts: seq<Tables>, s: Sid, keys: set<Id>, tags: set<Tag>) {
    forall t | t in ts :: keys <= t.hashes.Keys && OnlyPending(t, s, tags)
  }

  /** Along a trail no row is added either. */
  ghost predicate SameRows(ts: seq<Tables>, keys: set<Id>) {
    forall t | t in ts :: t.hashes.Keys == keys
  }

  lemma {:induction false} StepTrailSteady(t: Tables, s: Sid, steps: seq<CommitStep>, auto: bool, keys: set<Id>,
                                           tags: set<Tag>)
    requires keys <= t.hashes.Keys && OnlyPending(t, s, tags)
    ensures Steady(StepTrail(t, steps, auto), s, keys, tags)
    ensures keys <= DoSteps(t.hashes, steps).Keys
    decreases |steps|
  {
    if steps != [] {
      StepTrailSteady(t.(hashes := DoStep(t.hashes, steps[0])), s, steps[1..], auto, keys, tags);
    }
  }

  const COMMITTING: set<Tag> := {Reserved, Complete, Done}
  const DELETING: set<Tag> := {WillDelete, ReadyDelete, Done}

  lemma CommitSteady(t: Tables, s: Sid, plan: Plan)
    requires OnlyPending(t, s, {Reserved})
    ensures Steady(TaggingTrail(t, s, plan), s, t.hashes.Keys, COMMITTING)
    ensures Steady(CountedTrail(t, s, plan), s, t.hashes.Keys, COMMITTING)
  {
    hide StepTrail, DoSteps, Registered, FinalizeTrail;
    var t0 := Begun(t, s);
    StepTrailSteady(t0, s, plan.steps, plan.auto, t.hashes.Keys, COMMITTING);
    var p := Prepared(t0, s, plan);
    var c := Counted(p, plan.top.id);
    RegisteredKeys(p.hashes, plan.top.id);
    FinalizeSteady(c, s);
  }

  lemma RegisteredKeys(h: HashRows, final: Id)
    ensures Registered(h, final).Keys == h.Keys
  {
  }

  lemma FinalizeSteady(t: Tables, s: Sid)
    requires OnlyPending(t, s, COMMITTING)
    ensures Steady(FinalizeTrail(t, s), s, t.hashes.Keys, COMMITTING)
  {
  }

  lemma DropSteady(t: Tables, s: Sid)
    requires OnlyPending(t, s, DELETING)
    ensures Steady(DropTrail(t, s), s, t.hashes.Keys, DELETING) && SameRows(DropTrail(t, s), t.hashes.Keys)
  {
  }

  lemma DeregisterSteady(t: Tables, s: Sid, top: Top)
    requires OnlyPending(t, s, DELETING)
    ensures var before := [SnapTag(t, s, WillDelete), Dropping(t, s, top)];
      Steady(before, s, t.hashes.Keys, DELETING) && SameRows(before, t.hashes.Keys)
    ensures var d2 := Dropped(t, s, top); var after := [d2] + DropTrail(d2, s);
      Steady(after, s, t.hashes.Keys, DELETING) && SameRows(after, t.hashes.Keys)
  {
    hide Dropping, Dropped, DropTrail;
    var d2 := Dropped(t, s, top);
    DroppedRows(t, s, top);
    DropSteady(d2, s);
  }

  lemma DroppedRows(t: Tables, s: Sid, top: Top)
    ensures var d1, d2 := Dropping(t, s, top), Dropped(t, s, top);
      && d1.hashes.Keys == d2.hashes.Keys == t.hashes.Keys
      && d1.snaps == d2.snaps == SnapTag(t, s, WillDelete).snaps
  {
  }

  // ---------------------------------------------------------------- commit

  /** `w` lies on the way of committing `s` from `a`: nothing is registered yet and no row changed its
      slack, or `s` is, and only rows it does not list may have been counted once too often. */
  ghost predicate CommitOnce(a: World, s: Sid, w: World) {
    && OnlyPending(w.t, s, COMMITTING)
    && (if s in w.reg then w.reg == a.reg[s := w.reg[s]] else w.reg == a.reg)
    && a.t.hashes.Keys <= w.t.hashes.Keys
    && forall id | id in w.t.hashes :: 0 <= Gained(a, w, id) <= (if s in w.reg && id !in w.reg[s] then 1 else 0)
  }

  /** How much slack a row has gained since `a`; one written since then started with none. */
  function Gained(a: World, w: World, id: Id): int
    requires id in w.t.hashes
  {
    Slack(w, id) - (if id in a.t.hashes then Slack(a, id) else 0)
  }

  lemma CommitOnceStep(a: World, s: Sid, x: World, y: World, strays: set<Id>)
    requires CommitOnce(a, s, x) && SlackTracked(x, y, strays) && x.t.hashes.Keys <= y.t.hashes.Keys
    requires OnlyPending(y.t, s, COMMITTING)
    requires || (y.reg == x.reg && strays == {})
             || (s !in x.reg && s in y.reg && y.reg == x.reg[s := y.reg[s]] && strays !! y.reg[s])
    ensures CommitOnce(a, s, y)
  {
  }

  lemma CommitWorldsOnce(a: World, x: World, s: Sid, plan: Plan, y: World)
    requires InPhase(x, Tagging(s)) || (InPhase(x, Quiet) && s !in x.t.snaps)
    requires PlanOk(x.t.hashes, plan) && CommitOnce(a, s, x) && y in CommitWorlds(x, s, plan)
    requires OnlyPending(x.t, s, {Reserved})
    ensures CommitOnce(a, s, y)
  {
    hide InPhase, CommitOnce, SlackTracked, Inv, TaggingTrail, CountedTrail, PlanOk;
    CommitSteady(x.t, s, plan);
    TaggingFine(x, s, plan, {});
    CommitFine(x, s, plan);
    NotYetRegistered(x, s);
    var tagging := Worlds(TaggingTrail(x.t, s, plan), x.reg);
    var counted := Worlds(CountedTrail(x.t, s, plan), x.reg[s := plan.top.refs]);
    var strays := Tagged(x.t.hashes, Reserved) - plan.top.refs;
    var ws := CommitWorlds(x, s, plan);
    var i :| 0 <= i < |ws| && ws[i] == y;
    if i < |tagging| {
      AllFineAt(x, tagging, {}, i);
      assert y.t in TaggingTrail(x.t, s, plan);
      CommitOnceStep(a, s, x, y, {});
    } else {
      AllFineAt(x, ws, strays, i);
      assert y == counted[i - |tagging|] && y.t in CountedTrail(x.t, s, plan);
      CommitOnceStep(a, s, x, y, strays);
    }
  }

  lemma FinalizeOnce(a: World, x: World, s: Sid, y: World)
    requires InPhase(x, Registering(s)) && CommitOnce(a, s, x) && y in Worlds(FinalizeTrail(x.t, s), x.reg)
    ensures CommitOnce(a, s, y)
  {
    FinalizeSteady(x.t, s);
    SlackSelf(x, {});
    FinalizeFine(x, x, s, {});
    var ws := Worlds(FinalizeTrail(x.t, s), x.reg);
    var i :| 0 <= i < |ws| && ws[i] == y;
    AllFineAt(x, ws, {}, i);
    assert y.t in FinalizeTrail(x.t, s);
    hide InPhase, CommitOnce, SlackTracked, Inv, FinalizeTrail;
    CommitOnceStep(a, s, x, y, {});
  }

  lemma SoundPhase(x: Repo) returns (ph: Phase)
    requires Sound(x)
    ensures InPhase(x.w, ph)
  {
    ph :| InPhase(x.w, ph);
  }

  /** If only `s` can be unfinished, a `resume` that changes anything works on it alone. */
  lemma OneTodo(x: Repo, s: Sid, op: Op, y: Repo, tags: set<Tag>) returns (plan: Plan)
    requires op.Resume? && Next(x, op, y) && y.w != x.w && OnlyPending(x.w.t, s, tags)
    ensures op.work == [Todo(s, plan)] && TodoOk(x.w, op.work[0]) && NotDone(x.w.t) == {s}
    ensures y.w in ResumeWorlds(x.w, s, plan)
  {
    hide CommitWorlds, DeregisterWorlds, RecoverWorlds, FinalizeTrail, DropTrail, PlanOk, RecoverPlanOk;
    hide CommitWasCounted;
    hide StatusOf, NotDone, Sids;
    var work := op.work;
    FirstSid(work);
    assert work != [];
    OnlyThis(x.w.t, s, tags);
    SidsOfRest(work);
    FirstSid(work[1..]);
    assert work == [work[0]] + work[1..];
    plan := work[0].plan;
    var ws := ResumeWorlds(x.w, s, plan);
    assert WorkWorlds(x.w, work) == ws + [] == ws;
  }

  lemma OnlyThis(t: Tables, s: Sid, tags: set<Tag>)
    requires OnlyPending(t, s, tags)
    ensures NotDone(t) <= {s}
  {
  }

  lemma CommitPending(a: World, s: Sid, w: World)
    requires CommitOnce(a, s, w)
    ensures OnlyPending(w.t, s, COMMITTING)
  {
  }

  lemma ResumeCommitOnce(a: World, s: Sid, x: Repo, op: Op, y: Repo)
    requires Sound(x) && CommitOnce(a, s, x.w) && op.Resume? && Next(x, op, y)
    ensures CommitOnce(a, s, y.w)
  {
    hide InPhase, CommitOnce, CommitWorlds, DeregisterWorlds, FinalizeTrail, DropTrail, PlanOk, Sound;
    hide CommitWasCounted;
    var ph := SoundPhase(x);
    ResumeDecides(x.w, ph);
    CommitPending(a, s, x.w);
    if y.w != x.w {
      var plan := OneTodo(x, s, op, y, COMMITTING);
      match ph
      case Tagging(_) =>
        CommitWorldsOnce(a, x.w, s, plan, y.w);
      case Registering(_) =>
        FinalizeOnce(a, x.w, s, y.w);
      case _ => assert false;
    }
  }

  // ---------------------------------------------------------------- deregister

  /** `w` lies on the way of deregistering `s` from `a`: its registration is still in effect or it is
      gone, the rows are the same, and none changed its slack. */
  ghost predicate DeleteOnce(a: World, s: Sid, w: World) {
    && OnlyPending(w.t, s, DELETING)
    && (w.reg == a.reg || w.reg == a.reg - {s})
    && w.t.hashes.Keys == a.t.hashes.Keys
    && forall id | id in a.t.hashes :: Slack(w, id) == Slack(a, id)
  }

  lemma DeleteOnceStep(a: World, s: Sid, x: World, y: World)
    requires DeleteOnce(a, s, x) && SlackTracked(x, y, {}) && y.t.hashes.Keys == x.t.hashes.Keys
    requires OnlyPending(y.t, s, DELETING) && (y.reg == x.reg || y.reg == x.reg - {s})
    ensures DeleteOnce(a, s, y)
  {
  }

  lemma DeregisterWorldsOnce(a: World, x: World, s: Sid, y: World)
    requires InPhase(x, Deleting(s)) || (InPhase(x, Quiet) && s in x.t.snaps)
    requires s in x.t.snaps && x.t.snaps[s].top.Some? && DeleteOnce(a, s, x)
    requires y in DeregisterWorlds(x, s, x.t.snaps[s].top.value)
    ensures DeleteOnce(a, s, y)
  {
    hide InPhase, DeleteOnce, SlackTracked, Inv, Dropping, Dropped, DropTrail;
    var top := x.t.snaps[s].top.value;
    PendingOf(a, s, x);
    DeregisterSteady(x.t, s, top);
    DeregisterFine(x, s);
    var d2 := Dropped(x.t, s, top);
    var before := [SnapTag(x.t, s, WillDelete), Dropping(x.t, s, top)];
    var after := [d2] + DropTrail(d2, s);
    var ws := DeregisterWorlds(x, s, top);
    var i :| 0 <= i < |ws| && ws[i] == y;
    AllFineAt(x, ws, {}, i);
    assert y == if i < 2 then World(before[i], x.reg) else World(after[i - 2], x.reg - {s});
    assert if i < 2 then y.t in before else y.t in after;
    DeleteOnceStep(a, s, x, y);
  }

  lemma PendingOf(a: World, s: Sid, x: World)
    requires DeleteOnce(a, s, x)
    ensures OnlyPending(x.t, s, DELETING)
  {
  }

  lemma DropOnce(a: World, x: World, s: Sid, y: World)
    requires InPhase(x, Forgetting(s)) && DeleteOnce(a, s, x) && y in Worlds(DropTrail(x.t, s), x.reg)
    ensures DeleteOnce(a, s, y)
  {
    DropSteady(x.t, s);
    SlackSelf(x, {});
    DropFine(x, x, s);
    var ws := Worlds(DropTrail(x.t, s), x.reg);
    var i :| 0 <= i < |ws| && ws[i] == y;
    AllFineAt(x, ws, {}, i);
    assert y.t in DropTrail(x.t, s);
    hide InPhase, DeleteOnce, SlackTracked, Inv, DropTrail;
    DeleteOnceStep(a, s, x, y);
  }

  lemma ResumeDeleteOnce(a: World, s: Sid, x: Repo, op: Op, y: Repo)
    requires Sound(x) && DeleteOnce(a, s, x.w) && op.Resume? && Next(x, op, y)
    ensures DeleteOnce(a, s, y.w)
  {
    hide InPhase, DeleteOnce, CommitWorlds, DeregisterWorlds, FinalizeTrail, DropTrail, PlanOk, Sound;
    hide CommitWasCounted;
    var ph := SoundPhase(x);
    ResumeDecides(x.w, ph);
    PendingOf(a, s, x.w);
    if y.w != x.w {
      var plan := OneTodo(x, s, op, y, DELETING);
      match ph
      case Deleting(_) =>
        DeregisterWorldsOnce(a, x.w, s, y.w);
      case Forgetting(_) =>
        DropOnce(a, x.w, s, y.w);
      case _ => assert false;
    }
  }

  // ---------------------------------------------------------------- interrupted runs

  /** A run that starts `first` at rest and from then on only resumes. */
  ghost predicate Interrupted(xs: seq<Repo>, ops: seq<Op>, first: Op) {
    && Run(xs, ops) && |ops| > 0 && ops[0] == first && Sound(xs[0]) && xs[0].open
    && forall j | 1 <= j < |ops| :: ops[j].Resume?
  }

  lemma StartCommit(x: Repo, s: Sid, plan: Plan, y: Repo)
    requires Sound(x) && x.open && Next(x, Commit(s, plan), y)
    ensures CommitOnce(x.w, s, x.w) && CommitOnce(x.w, s, y.w)
  {
    AtRest(x.w, s);
    if y.w != x.w { CommitWorldsOnce(x.w, x.w, s, plan, y.w); }
  }

  lemma StartDelete(x: Repo, s: Sid, y: Repo)
    requires Sound(x) && x.open && Next(x, Deregister(s), y)
    ensures DeleteOnce(x.w, s, x.w) && DeleteOnce(x.w, s, y.w)
  {
    AtRest(x.w, s);
    if y.w != x.w { DeregisterWorldsOnce(x.w, x.w, s, y.w); }
  }

  lemma {:induction false} CommitRunOnce(xs: seq<Repo>, ops: seq<Op>, s: Sid, plan: Plan, i: nat)
    requires Interrupted(xs, ops, Commit(s, plan)) && i < |xs|
    ensures CommitOnce(xs[0].w, s, xs[i].w)
  {
    hide CommitOnce, Next, Sound;
    assert Next(xs[0], ops[0], xs[1]);
    StartCommit(xs[0], s, plan, xs[1]);
    if i > 1 {
      CommitRunOnce(xs, ops, s, plan, i - 1);
      RunSound(xs, ops, i - 1);
      assert Next(xs[i - 1], ops[i - 1], xs[i]);
      ResumeCommitOnce(xs[0].w, s, xs[i - 1], ops[i - 1], xs[i]);
    }
  }

  lemma AtRest(a: World, s: Sid)
    requires InPhase(a, Quiet)
    ensures s !in a.t.snaps ==> s !in a.reg && CommitOnce(a, s, a) && OnlyPending(a.t, s, {Reserved})
    ensures s in a.t.snaps ==> s in a.reg && DeleteOnce(a, s, a)
  {
  }

  lemma {:induction false} DeleteRunOnce(xs: seq<Repo>, ops: seq<Op>, s: Sid, i: nat)
    requires Interrupted(xs, ops, Deregister(s)) && i < |xs|
    ensures DeleteOnce(xs[0].w, s, xs[i].w)
  {
    hide DeleteOnce, Next, Sound;
    assert Next(xs[0], ops[0], xs[1]);
    StartDelete(xs[0], s, xs[1]);
    if i > 1 {
      DeleteRunOnce(xs, ops, s, i - 1);
      RunSound(xs, ops, i - 1);
      assert Next(xs[i - 1], ops[i - 1], xs[i]);
      ResumeDeleteOnce(xs[0].w, s, xs[i - 1], ops[i - 1], xs[i]);
    }
  }

  /** What a row counts, none if it is not there. */
  function CountIn(h: HashRows, id: Id): int {
    if id in h then h[id].count else 0
  }

  lemma CommitCounts(a: World, b: World, s: Sid, id: Id)
    requires InPhase(a, Quiet) && CommitOnce(a, s, b) && s !in a.reg && id in b.t.hashes
    ensures var more := b.t.hashes[id].count - CountIn(a.t.hashes, id);
      if s in b.reg then (if id in b.reg[s] then more == 1 else 0 <= more <= 1) else more == 0
  {
    hide CountsCover, OthersDone, Calm, RefCount, Closed;
    if id !in a.t.hashes { RefCountZero(a.reg, id); }
    if s in b.reg { RefCountAdd(a.reg, s, b.reg[s], id); }
    assert 0 <= Gained(a, b, id) <= (if s in b.reg && id !in b.reg[s] then 1 else 0);
  }

  /**
    A commit, interrupted anywhere and resumed any number of times, in the end either registered no
    snapshot and counted nothing, or registered one whose listed rows, old and new, count exactly once
    more, while any other row counts at most once more.
  */
  lemma CommitAppliedOnce(xs: seq<Repo>, ops: seq<Op>, s: Sid, plan: Plan)
    requires Interrupted(xs, ops, Commit(s, plan)) && xs[|xs| - 1].open
    ensures var a, b := xs[0].w, xs[|xs| - 1].w;
      && a.t.hashes.Keys <= b.t.hashes.Keys
      && if s in b.t.snaps then
           && b.t.snaps[s].tag == Done && b.t.snaps[s].top.Some?
           && var refs := b.t.snaps[s].top.value.refs;
           && b.reg == a.reg[s := refs] && refs <= b.t.hashes.Keys
           && forall id | id in b.t.hashes ::
                var more := b.t.hashes[id].count - CountIn(a.t.hashes, id);
                if id in refs then more == 1 else 0 <= more <= 1
         else
           b.reg == a.reg && forall id | id in b.t.hashes :: b.t.hashes[id].count == CountIn(a.t.hashes, id)
  {
    hide Next, CommitOnce, RefCount, Sound;
    var a, b := xs[0].w, xs[|xs| - 1].w;
    assert Next(xs[0], ops[0], xs[1]);
    CommitRunOnce(xs, ops, s, plan, |xs| - 1);
    RunSound(xs, ops, |xs| - 1);
    CommitStart(xs[0], s, plan, xs[1]);
    OpenIsQuiet(xs[0]);
    OpenIsQuiet(xs[|xs| - 1]);
    QuietReg(b, s);
    OnceReg(a, s, b);
    forall id | id in b.t.hashes
      ensures var more := b.t.hashes[id].count - CountIn(a.t.hashes, id);
        if s in b.reg then (if id in b.reg[s] then more == 1 else 0 <= more <= 1) else more == 0
    {
      CommitCounts(a, b, s, id);
    }
  }

  lemma CommitStart(x: Repo, s: Sid, plan: Plan, y: Repo)
    requires Sound(x) && x.open && Next(x, Commit(s, plan), y)
    ensures s !in x.w.reg
  {
    AtRest(x.w, s);
  }

  lemma OpenIsQuiet(x: Repo)
    requires Sound(x) && x.open
    ensures InPhase(x.w, Quiet)
  {
  }

  lemma OnceReg(a: World, s: Sid, w: World)
    requires CommitOnce(a, s, w)
    ensures a.t.hashes.Keys <= w.t.hashes.Keys
    ensures if s in w.reg then w.reg == a.reg[s := w.reg[s]] else w.reg == a.reg
  {
  }

  /**
    A deregistration, interrupted anywhere and resumed any number of times, in the end either did
    nothing at all, or removed the snapshot and counted each row it had registered exactly once less.
  */
  lemma DeregisterAppliedOnce(xs: seq<Repo>, ops: seq<Op>, s: Sid)
    requires Interrupted(xs, ops, Deregister(s)) && xs[|xs| - 1].open
    ensures var a, b := xs[0].w, xs[|xs| - 1].w;
      && b.t.hashes.Keys == a.t.hashes.Keys && s in a.reg
      && b.reg == (if s in b.t.snaps then a.reg else a.reg - {s})
      && forall id | id in a.t.hashes ::
           b.t.hashes[id].count == a.t.hashes[id].count - (if s !in b.t.snaps && id in a.reg[s] then 1 else 0)
  {
    var a, b := xs[0].w, xs[|xs| - 1].w;
    assert Next(xs[0], ops[0], xs[1]);
    AtRest(a, s);
    DeleteRunOnce(xs, ops, s, |xs| - 1);
    RunSound(xs, ops, |xs| - 1);
    AtRest(b, s);
    QuietReg(b, s);
    forall id | id in a.t.hashes
      ensures RefCount(a.reg, id) == RefCount(a.reg - {s}, id) + (if id in a.reg[s] then 1 else 0)
    {
      RefCountRemove(a.reg, s, id);
    }
  }

  lemma QuietReg(b: World, s: Sid)
    requires InPhase(b, Quiet)
    ensures s in b.reg <==> s in b.t.snaps
    ensures s in b.reg ==>
      && b.t.snaps[s].tag == Done && b.t.snaps[s].top.Some?
      && b.reg[s] == b.t.snaps[s].top.value.refs && b.reg[s] <= b.t.hashes.Keys
  {
  }
}
