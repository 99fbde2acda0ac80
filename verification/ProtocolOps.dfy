/**
  The operations on a repository as trails of durable states, and what every state of every operation
  keeps: the invariant, and how far each count is above the registrations.
*/
module ProtocolOps {
  import opened Common
  import opened Tags
  import opened GcTables
  import opened GcRc
  import opened SnapshotProtocol

  function Worlds(ts: seq<Tables>, reg: map<Sid, set<Id>>): (ws: seq<World>)
    ensures |ws| == |ts| && forall i :: 0 <= i < |ws| ==> ws[i] == World(ts[i], reg)
  {
    seq(|ts|, i requires 0 <= i < |ts| => World(ts[i], reg))
  }

  /** The tables along a trail of worlds. */
  function Trail(ws: seq<World>): (ts: seq<Tables>)
    ensures |ts| == |ws| && forall i :: 0 <= i < |ts| ==> ts[i] == ws[i].t
  {
    seq(|ws|, i requires 0 <= i < |ws| => ws[i].t)
  }

  ghost function Collected(t: Tables): Tables {
    t.(hashes := Swept(t.hashes))
  }

  /** One unfinished snapshot, and what walking its listings on its behalf will find. */
  datatype Todo = Todo(s: Sid, plan: Plan)

  datatype Op =
    | Store(id: Id, row: HashRow)
    | Commit(s: Sid, plan: Plan)
    | Deregister(s: Sid)
    | Collect
    | Recover(found: map<Sid, Top>)
    | Resume(work: seq<Todo>)

  // ---------------------------------------------------------------- trails of worlds

  function CommitWorlds(w: World, s: Sid, plan: Plan): seq<World> {
    Worlds(TaggingTrail(w.t, s, plan), w.reg) + Worlds(CountedTrail(w.t, s, plan), w.reg[s := plan.top.refs])
  }

  function DeregisterWorlds(w: World, s: Sid, top: Top): seq<World> {
    var d2 := Dropped(w.t, s, top);
    Worlds([SnapTag(w.t, s, WillDelete), Dropping(w.t, s, top)], w.reg) + Worlds([d2] + DropTrail(d2, s), w.reg - {s})
  }

  /** Whether the counter transaction of the interrupted commit `s` has become durable, as read off
      the tag of its root by `resume`. */
  function CommitWasCounted(t: Tables, s: Sid): bool {
    s in t.snaps && t.snaps[s].top.Some? && StatusOf(t.hashes, t.snaps[s].top.value.id).Some?
  }

  function RecoverWorlds(w: World, s: Sid, plan: Plan): seq<World> {
    Worlds(RecoverMarkedTrail(w.t, plan), w.reg) +
    Worlds(RecoverCountedTrail(w.t, s, plan), w.reg[s := plan.top.refs])
  }

  /** What `resume` does about one unfinished snapshot. A snapshot to be recovered whose root is flagged is
      none it knows how to handle: it gives up there. */
  function ResumeWorlds(w: World, s: Sid, plan: Plan): seq<World>
    requires s in w.t.snaps
    requires w.t.snaps[s].tag != Reserved && w.t.snaps[s].tag != InProgress ==> w.t.snaps[s].top.Some?
  {
    var row := w.t.snaps[s];
    match TagToWorkStatus(row.tag)
    case CommitInProgress =>
      if CommitWasCounted(w.t, s) then Worlds(FinalizeTrail(w.t, s), w.reg) else CommitWorlds(w, s, plan)
    case CommitComplete => Worlds(FinalizeTrail(w.t, s), w.reg)
    case DeleteInProgress =>
      if StatusOf(w.t.hashes, row.top.value.id) == Some(StatusComplete) then Worlds(DropTrail(w.t, s), w.reg)
      else DeregisterWorlds(w, s, row.top.value)
    case DeleteDone => Worlds(DropTrail(w.t, s), w.reg)
    case Recovering => if CommitWasCounted(w.t, s) then [] else RecoverWorlds(w, s, plan)
  }

  function EndOf(w: World, ws: seq<World>): World {
    if ws == [] then w else ws[|ws| - 1]
  }

  /** The unfinished snapshots, one after the other. */
  ghost function WorkWorlds(w: World, work: seq<Todo>): seq<World>
    requires PlansOk(w, work)
    decreases |work|
  {
    if work == [] then []
    else
      var ws := ResumeWorlds(w, work[0].s, work[0].plan);
      ws + WorkWorlds(EndOf(w, ws), work[1..])
  }

  ghost function OpWorlds(w: World, op: Op): seq<World>
    requires OpOk(w, op)
  {
    match op
    case Store(id, row) => [World(w.t.(hashes := w.t.hashes[id := row]), w.reg)]
    case Commit(s, plan) => CommitWorlds(w, s, plan)
    case Deregister(s) => DeregisterWorlds(w, s, w.t.snaps[s].top.value)
    case Collect => Worlds([Collected(w.t), Collected(w.t)], w.reg)
    case Recover(found) => [World(WithFound(w.t, found), w.reg)]
    case Resume(work) => WorkWorlds(w, work)
  }

  function NotDone(t: Tables): set<Sid> {
    set k | k in t.snaps && t.snaps[k].tag != Done
  }

  function Sids(work: seq<Todo>): set<Sid> {
    set todo | todo in work :: todo.s
  }

  /** The unfinished snapshots are worked on in the order of their row ids. */
  ghost predicate Covers(t: Tables, work: seq<Todo>) {
    Sids(work) == NotDone(t) && forall i, j | 0 <= i < j < |work| :: work[i].s < work[j].s
  }

  ghost predicate TodoOk(w: World, todo: Todo) {
    && todo.s in w.t.snaps && w.t.snaps[todo.s].tag != Done
    && var row := w.t.snaps[todo.s];
    && (row.tag != Reserved && row.tag != InProgress ==> row.top.Some?)
    && if row.tag == RecoverInProgress then RecoverPlanOk(w.t.hashes, todo.plan) && row.top == Some(todo.plan.top)
       else PlanOk(w.t.hashes, todo.plan)
  }

  /** Each walk finds the table as the work before it leaves it. */
  ghost predicate PlansOk(w: World, work: seq<Todo>)
    decreases |work|
  {
    work == [] ||
    (TodoOk(w, work[0]) && PlansOk(EndOf(w, ResumeWorlds(w, work[0].s, work[0].plan)), work[1..]))
  }

  /** What callers guarantee. A recovery does not find other roots for snapshots that are known. */
  ghost predicate OpOk(w: World, op: Op) {
    match op
    case Store(id, row) => StepOk(w.t.hashes, AddRow(id, row), {})
    case Commit(s, plan) => s !in w.t.snaps && PlanOk(w.t.hashes, plan)
    case Deregister(s) => s in w.t.snaps && w.t.snaps[s].top.Some?
    case Collect => true
    case Recover(found) =>
      && (forall k | k in found :: found[k].id in found[k].refs)
      && (forall k | k in found && k in w.t.snaps ::
            w.t.snaps[k].top.Some? && w.t.snaps[k].top.value.id == found[k].id)
    case Resume(work) => Covers(w.t, work) && PlansOk(w, work)
  }

  /** Rows left tagged by something else that working on `todo` would count as well. */
  ghost function TodoStrays(w: World, todo: Todo): set<Id> {
    if todo.s in w.t.snaps && w.t.snaps[todo.s].tag == Reserved && !CommitWasCounted(w.t, todo.s)
    then Tagged(w.t.hashes, Reserved) - todo.plan.top.refs else {}
  }

  /** Rows left tagged by something else that this operation's registration would count as well. */
  ghost function Strays(w: World, op: Op): set<Id> {
    match op
    case Commit(_, plan) => Tagged(w.t.hashes, Reserved) - plan.top.refs
    case Resume(work) => if work == [] then {} else TodoStrays(w, work[0])
    case _ => {}
  }

  // ---------------------------------------------------------------- slack along a trail

  /** The slack of a row if `strays` gain one count too many as the registrations of `w0` change. */
  function SlackAfter(w0: World, reg: map<Sid, set<Id>>, strays: set<Id>, id: Id): int {
    if id in w0.t.hashes then Slack(w0, id) + (if id in strays && reg != w0.reg then 1 else 0) else 0
  }

  /** From `w0` on, exactly the rows in `strays` gained one count too many, in the state in which the
      registrations changed; and no row with slack, nor any stray, was lost. */
  ghost predicate SlackTracked(w0: World, w: World, strays: set<Id>) {
    && (forall id | id in w.t.hashes :: Slack(w, id) == SlackAfter(w0, w.reg, strays, id))
    && forall id | id in w0.t.hashes && (Slack(w0, id) > 0 || id in strays) :: id in w.t.hashes
  }

  lemma SlackSelf(w: World, strays: set<Id>)
    ensures SlackTracked(w, w, strays)
  {
  }

  lemma StraysAreRows(w: World, op: Op)
    ensures Strays(w, op) <= w.t.hashes.Keys
  {
  }

  ghost predicate Fine(w0: World, w: World, strays: set<Id>) {
    Inv(w) && SlackTracked(w0, w, strays)
  }

  ghost predicate AllFine(w0: World, ws: seq<World>, strays: set<Id>) {
    ws == [] || (Fine(w0, ws[0], strays) && AllFine(w0, ws[1..], strays))
  }

  lemma {:induction false} AllFineAt(w0: World, ws: seq<World>, strays: set<Id>, i: nat)
    requires AllFine(w0, ws, strays) && i < |ws|
    ensures Fine(w0, ws[i], strays)
  {
    if i > 0 { AllFineAt(w0, ws[1..], strays, i - 1); }
  }

  lemma StepSlack(w0: World, w: World, step: CommitStep, refs: set<Id>, strays: set<Id>)
    requires SlackTracked(w0, w, strays) && StepOk(w.t.hashes, step, refs)
    requires w0.t.hashes.Keys <= w.t.hashes.Keys && forall k | k in w.reg :: w.reg[k] <= w.t.hashes.Keys
    ensures SlackTracked(w0, World(w.t.(hashes := DoStep(w.t.hashes, step)), w.reg), strays)
  {
  }

  lemma {:induction false} StepsSlack(w0: World, w: World, ph: Phase, steps: seq<CommitStep>, auto: bool, refs: set<Id>,
                                      strays: set<Id>)
    requires Walking(ph) && InPhase(w, ph) && StepsOk(w.t.hashes, steps, refs)
    requires SlackTracked(w0, w, strays) && w0.t.hashes.Keys <= w.t.hashes.Keys
    ensures AllFine(w0, Worlds(StepTrail(w.t, steps, auto), w.reg), strays)
    ensures var w' := World(w.t.(hashes := DoSteps(w.t.hashes, steps)), w.reg);
      InPhase(w', ph) && SlackTracked(w0, w', strays) && w0.t.hashes.Keys <= w'.t.hashes.Keys
    decreases |steps|
  {
    hide InPhase;
    if steps != [] {
      var w1 := OneStepSlack(w0, w, ph, steps[0], refs, strays);
      StepsSlack(w0, w1, ph, steps[1..], auto, refs, strays);
      var rest := StepTrail(w1.t, steps[1..], auto);
      if Flushes(steps[0], auto) {
        FineOne(w0, w1, strays);
        WorldsConcat([w1.t], rest, w.reg);
        FineConcat(w0, Worlds([w1.t], w.reg), Worlds(rest, w.reg), strays);
      } else {
        assert [] + rest == rest;
      }
    }
  }

  lemma OneStepSlack(w0: World, w: World, ph: Phase, step: CommitStep, refs: set<Id>, strays: set<Id>)
    returns (w1: World)
    requires Walking(ph) && InPhase(w, ph) && StepOk(w.t.hashes, step, refs)
    requires SlackTracked(w0, w, strays) && w0.t.hashes.Keys <= w.t.hashes.Keys
    ensures w1 == World(w.t.(hashes := DoStep(w.t.hashes, step)), w.reg)
    ensures InPhase(w1, ph) && Fine(w0, w1, strays) && w0.t.hashes.Keys <= w1.t.hashes.Keys
  {
    w1 := World(w.t.(hashes := DoStep(w.t.hashes, step)), w.reg);
    StepKeepsTagging(w, ph, step, refs);
    InPhaseIsInv(w1, ph);
    StepSlack(w0, w, step, refs, strays);
  }

  lemma InPhaseIsInv(w: World, ph: Phase)
    requires InPhase(w, ph)
    ensures Inv(w)
  {
  }

  lemma BeginFine(w: World, s: Sid, strays: set<Id>)
    requires InPhase(w, Tagging(s)) || (InPhase(w, Quiet) && s !in w.t.snaps)
    ensures var w0 := World(Begun(w.t, s), w.reg); InPhase(w0, Tagging(s)) && Fine(w, w0, strays)
  {
    BeginTagging(w, s);
    InPhaseIsInv(World(Begun(w.t, s), w.reg), Tagging(s));
  }

  /** The state a commit counts from: every listed row is tagged, and besides those only strays. */
  lemma PreparedFine(w: World, s: Sid, plan: Plan, strays: set<Id>)
    requires InPhase(w, Tagging(s)) || (InPhase(w, Quiet) && s !in w.t.snaps)
    requires PlanOk(w.t.hashes, plan)
    ensures var p := World(Prepared(Begun(w.t, s), s, plan), w.reg);
      && InPhase(p, Tagging(s)) && p.t.snaps[s].top == Some(plan.top) && Fine(w, p, strays)
      && w.t.hashes.Keys <= p.t.hashes.Keys
  {
    BeginFine(w, s, strays);
    var w0 := World(Begun(w.t, s), w.reg);
    StepsSlack(w, w0, Tagging(s), plan.steps, plan.auto, plan.top.refs, strays);
    var q := World(w0.t.(hashes := DoSteps(w0.t.hashes, plan.steps)), w.reg);
    NameTop(q, s, plan.top);
    var p := World(Prepared(w0.t, s, plan), w.reg);
    InPhaseIsInv(p, Tagging(s));
    assert p.t.hashes == q.t.hashes && p.reg == q.reg;
  }

  lemma PreparedTags(w: World, s: Sid, plan: Plan)
    requires InPhase(w, Tagging(s)) || InPhase(w, Quiet)
    requires PlanOk(w.t.hashes, plan)
    ensures plan.top.id in plan.top.refs
    ensures var h := Prepared(Begun(w.t, s), s, plan).hashes;
      && plan.top.refs <= h.Keys && plan.top.refs <= ToCount(h, plan.top.id)
      && ToCount(h, plan.top.id) - plan.top.refs == Tagged(w.t.hashes, Reserved) - plan.top.refs
  {
    StepsTagged(w.t.hashes, plan.steps, plan.top.refs);
  }

  lemma {:induction false} FineConcat(w0: World, a: seq<World>, b: seq<World>, strays: set<Id>)
    requires AllFine(w0, a, strays) && AllFine(w0, b, strays)
    ensures AllFine(w0, a + b, strays)
  {
    hide InPhase, Slack, Fine;
    if a == [] {
      assert a + b == b;
    } else {
      assert (a + b)[1..] == a[1..] + b;
      FineConcat(w0, a[1..], b, strays);
    }
  }

  lemma WorldsConcat(a: seq<Tables>, b: seq<Tables>, reg: map<Sid, set<Id>>)
    ensures Worlds(a + b, reg) == Worlds(a, reg) + Worlds(b, reg)
  {
  }

  lemma FineOne(w0: World, w: World, strays: set<Id>)
    requires Fine(w0, w, strays)
    ensures AllFine(w0, Worlds([w.t], w.reg), strays)
  {
  }

  lemma FineCons(w0: World, w: World, rest: seq<Tables>, strays: set<Id>)
    requires Fine(w0, w, strays) && AllFine(w0, Worlds(rest, w.reg), strays)
    ensures AllFine(w0, Worlds([w.t] + rest, w.reg), strays)
  {
    assert Worlds([w.t] + rest, w.reg)[1..] == Worlds(rest, w.reg);
  }

  lemma PlanStepsOk(h: HashRows, plan: Plan)
    requires PlanOk(h, plan)
    ensures StepsOk(h, plan.steps, plan.top.refs)
  {
  }

  /** Everything a commit makes durable before it counts. */
  lemma TaggingFine(w: World, s: Sid, plan: Plan, strays: set<Id>)
    requires InPhase(w, Tagging(s)) || (InPhase(w, Quiet) && s !in w.t.snaps)
    requires PlanOk(w.t.hashes, plan)
    ensures AllFine(w, Worlds(TaggingTrail(w.t, s, plan), w.reg), strays)
  {
    hide InPhase, Prepared, Inv, PlanOk, StepTrail, SlackTracked;
    PlanStepsOk(w.t.hashes, plan);
    BeginFine(w, s, strays);
    PreparedFine(w, s, plan, strays);
    var w0 := World(Begun(w.t, s), w.reg);
    var p := World(Prepared(w0.t, s, plan), w.reg);
    var steps := StepTrail(w0.t, plan.steps, plan.auto);
    StepsSlack(w, w0, Tagging(s), plan.steps, plan.auto, plan.top.refs, strays);
    FineOne(w, p, strays);
    FineCons(w, p, [p.t], strays);
    FineConcat(w, Worlds(steps, w.reg), Worlds([p.t] + [p.t], w.reg), strays);
    WorldsConcat(steps, [p.t] + [p.t], w.reg);
    FineCons(w, w0, steps + ([p.t] + [p.t]), strays);
    assert TaggingTrail(w.t, s, plan) == [w0.t] + (steps + ([p.t] + [p.t]));
  }

  /** No row was lost, and exactly the strays gained one count too many. */
  ghost predicate SlackExactly(w0: World, w: World, strays: set<Id>) {
    w0.t.hashes.Keys <= w.t.hashes.Keys && forall id | id in w.t.hashes ::
      Slack(w, id) == if id in w0.t.hashes then Slack(w0, id) + (if id in strays then 1 else 0) else 0
  }

  lemma FinalizeFine(w0: World, w: World, s: Sid, strays: set<Id>)
    requires InPhase(w, Registering(s)) && SlackTracked(w0, w, strays)
    ensures AllFine(w0, Worlds(FinalizeTrail(w.t, s), w.reg), strays)
    ensures var e := World(FinalizeTrail(w.t, s)[2], w.reg);
      && InPhase(e, Restoring) && (NoRecovering(w) ==> InPhase(e, Quiet))
      && SlackTracked(w0, e, strays) && e.t.hashes.Keys == w.t.hashes.Keys
      && NotDone(e.t) == NotDone(w.t) - {s} && Untagged(e.t.hashes)
  {
    hide InPhase;
    FinalizeStates(w, s);
    var f := FinalizeTrail(w.t, s);
    LikeFine(w0, w, f[0], Registering(s), strays);
    LikeFine(w0, w, f[1], Registering(s), strays);
    LikeFine(w0, w, f[2], Restoring, strays);
    FineOne(w0, World(f[2], w.reg), strays);
    FineCons(w0, World(f[1], w.reg), [f[2]], strays);
    FineCons(w0, World(f[0], w.reg), [f[1]] + [f[2]], strays);
    assert f == [f[0]] + ([f[1]] + [f[2]]);
  }

  lemma LikeFine(w0: World, w: World, t: Tables, ph: Phase, strays: set<Id>)
    requires SlackTracked(w0, w, strays) && SameGraph(w.t.hashes, t.hashes) && InPhase(World(t, w.reg), ph)
    ensures Fine(w0, World(t, w.reg), strays)
  {
  }

  lemma DropFine(w0: World, w: World, s: Sid)
    requires InPhase(w, Forgetting(s)) && SlackTracked(w0, w, {})
    ensures AllFine(w0, Worlds(DropTrail(w.t, s), w.reg), {})
    ensures InPhase(World(DropTrail(w.t, s)[4], w.reg), Quiet) && Untagged(DropTrail(w.t, s)[4].hashes)
  {
    hide InPhase, Fine;
    DropStates(w, s);
    var f := DropTrail(w.t, s);
    LikeFine(w0, w, f[0], Forgetting(s), {});
    LikeFine(w0, w, f[1], Forgetting(s), {});
    LikeFine(w0, w, f[2], Quiet, {});
    var e := World(f[2], w.reg);
    FineOne(w0, e, {});
    FineCons(w0, e, [e.t], {});
    FineCons(w0, e, [e.t] + [e.t], {});
    FineCons(w0, World(f[1], w.reg), [e.t] + ([e.t] + [e.t]), {});
    FineCons(w0, World(f[0], w.reg), [f[1]] + ([e.t] + ([e.t] + [e.t])), {});
    assert f == [f[0]] + ([f[1]] + ([e.t] + ([e.t] + [e.t])));
  }

  /** Recovering one snapshot: every durable state keeps the counts as they are. */
  lemma RecoverFine(w: World, s: Sid, plan: Plan)
    requires InPhase(w, Restoring) && s in w.t.snaps && w.t.snaps[s] == SnapRow(RecoverInProgress, Some(plan.top))
    requires (forall k | k in w.t.snaps && w.t.snaps[k].tag == RecoverInProgress :: s <= k)
    requires RecoverPlanOk(w.t.hashes, plan)
    ensures var ws := RecoverWorlds(w, s, plan); var e := EndOf(w, ws);
      && ws != [] && AllFine(w, ws, {}) && InPhase(e, Restoring) && NotDone(e.t) == NotDone(w.t) - {s}
      && SlackTracked(w, e, {}) && w.t.hashes.Keys <= e.t.hashes.Keys && Untagged(e.t.hashes)
  {
    hide InPhase, Remarked, Counted, StepTrail, DoSteps, StepsOk, SlackTracked, AllFine, Inv, FinalizeTrail;
    RecoverMarkedFine(w, s, plan);
    var m := World(Remarked(w.t, plan), w.reg);
    var c := World(SnapTag(Counted(m.t, plan.top.id), s, Complete), w.reg[s := plan.top.refs]);
    RecoveredRegisters(m, s, plan.top);
    SlackUnmoved(w, m, c);
    FinalizeFine(w, c, s, {});
    FineConcat(w, Worlds(RecoverMarkedTrail(w.t, plan), w.reg), Worlds(RecoverCountedTrail(w.t, s, plan), c.reg), {});
    RecoveredDone(m.t, s, plan.top.id);
    FinalizeLength(c.t, s);
  }

  lemma FinalizeLength(t: Tables, s: Sid)
    ensures |FinalizeTrail(t, s)| == 3
  {
  }

  lemma RecoveredDone(t: Tables, s: Sid, final: Id)
    requires s in t.snaps && t.snaps[s].tag != Done
    ensures NotDone(SnapTag(Counted(t, final), s, Complete)) == NotDone(t)
  {
  }

  lemma SlackUnmoved(w0: World, w: World, w': World)
    requires SlackTracked(w0, w, {}) && MoreSlack(w, w', {})
    ensures SlackTracked(w0, w', {})
  {
    hide RefCount;
    forall id | id in w'.t.hashes
      ensures Slack(w', id) == Slack(w, id)
    {
    }
  }

  lemma RecoverMarkedFine(w: World, s: Sid, plan: Plan)
    requires InPhase(w, Restoring) && RecoverPlanOk(w.t.hashes, plan)
    ensures var m := World(Remarked(w.t, plan), w.reg);
      && AllFine(w, Worlds(RecoverMarkedTrail(w.t, plan), w.reg), {})
      && InPhase(m, Restoring) && Fine(w, m, {}) && w.t.hashes.Keys <= m.t.hashes.Keys && m.t.snaps == w.t.snaps
      && plan.top.refs <= m.t.hashes.Keys && ToCount(m.t.hashes, plan.top.id) == plan.top.refs
  {
    hide InPhase, Remarked, StepTrail, DoSteps, StepsOk, Inv, Slack;
    SlackSelf(w, {});
    StepsSlack(w, w, Restoring, plan.steps, plan.auto, {}, {});
    RemarkedRows(w.t, plan);
    var q := World(w.t.(hashes := DoSteps(w.t.hashes, plan.steps)), w.reg);
    var m := World(Remarked(w.t, plan), w.reg);
    RemarkedPhase(q, m);
    LikeFine(w, q, m.t, Restoring, {});
    FineOne(w, m, {});
    WorldsConcat(StepTrail(w.t, plan.steps, plan.auto), [m.t], w.reg);
    FineConcat(w, Worlds(StepTrail(w.t, plan.steps, plan.auto), w.reg), Worlds([m.t], w.reg), {});
  }

  lemma RemarkedPhase(q: World, m: World)
    requires InPhase(q, Restoring) && SameGraph(q.t.hashes, m.t.hashes) && Calm(m.t.hashes)
    requires m.t == q.t.(hashes := m.t.hashes) && m.reg == q.reg
    ensures InPhase(m, Restoring)
  {
    hide Base;
    RetagKeepsBase(q, None, m.t.hashes);
  }

  lemma TaggingAlone(w: World, s: Sid)
    requires InPhase(w, Tagging(s))
    ensures NoRecovering(w)
  {
  }

  lemma CountedSnaps(t: Tables, final: Id)
    ensures Counted(t, final).snaps == t.snaps
  {
  }

  lemma CountedSlack(w: World, s: Sid, plan: Plan)
    requires InPhase(w, Tagging(s)) || (InPhase(w, Quiet) && s !in w.t.snaps)
    requires PlanOk(w.t.hashes, plan)
    ensures var c := World(Counted(Prepared(Begun(w.t, s), s, plan), plan.top.id), w.reg[s := plan.top.refs]);
      && InPhase(c, Registering(s)) && NoRecovering(c)
      && SlackExactly(w, c, Tagged(w.t.hashes, Reserved) - plan.top.refs)
  {
    hide InPhase, PlanOk, Counted, Prepared;
    PreparedFine(w, s, plan, {});
    PreparedTags(w, s, plan);
    var p := World(Prepared(Begun(w.t, s), s, plan), w.reg);
    var c := World(Counted(p.t, plan.top.id), w.reg[s := plan.top.refs]);
    var strays := Tagged(w.t.hashes, Reserved) - plan.top.refs;
    CountedRegisters(p, s, plan.top);
    TaggingAlone(p, s);
    CountedSnaps(p.t, plan.top.id);
    assert MoreSlack(p, c, strays);
    forall id | id in c.t.hashes
      ensures Slack(c, id) == if id in w.t.hashes then Slack(w, id) + (if id in strays then 1 else 0) else 0
    {
      assert Slack(c, id) == Slack(p, id) + (if id in strays then 1 else 0);
    }
  }

  lemma NotYetRegistered(w: World, s: Sid)
    requires InPhase(w, Tagging(s)) || (InPhase(w, Quiet) && s !in w.t.snaps)
    ensures s !in w.reg
  {
  }

  lemma CountedTracked(w: World, c: World, s: Sid, strays: set<Id>)
    requires InPhase(w, Tagging(s)) || (InPhase(w, Quiet) && s !in w.t.snaps)
    requires SlackExactly(w, c, strays) && s in c.reg
    requires strays <= w.t.hashes.Keys
    ensures SlackTracked(w, c, strays)
  {
    NotYetRegistered(w, s);
    assert c.reg != w.reg;
  }

  /** Everything a commit makes durable from the state in which it counts. */
  lemma CountedFine(w: World, s: Sid, plan: Plan)
    requires InPhase(w, Tagging(s)) || (InPhase(w, Quiet) && s !in w.t.snaps)
    requires PlanOk(w.t.hashes, plan)
    ensures var c := World(Counted(Prepared(Begun(w.t, s), s, plan), plan.top.id), w.reg[s := plan.top.refs]);
      var strays := Tagged(w.t.hashes, Reserved) - plan.top.refs; var e := World(FinalizeTrail(c.t, s)[2], c.reg);
      AllFine(w, Worlds([c.t] + FinalizeTrail(c.t, s), c.reg), strays) && InPhase(e, Quiet)
        && SlackExactly(w, e, strays) && Untagged(e.t.hashes)
  {
    hide InPhase, Prepared, Counted, PlanOk, Inv, NoRecovering;
    var strays := Tagged(w.t.hashes, Reserved) - plan.top.refs;
    var c := World(Counted(Prepared(Begun(w.t, s), s, plan), plan.top.id), w.reg[s := plan.top.refs]);
    CountedSlack(w, s, plan);
    CountedTracked(w, c, s, strays);
    FinalizeFine(w, c, s, strays);
    LikeFine(w, c, c.t, Registering(s), strays);
    FineCons(w, c, FinalizeTrail(c.t, s), strays);
    LastSlack(w, c, World(FinalizeTrail(c.t, s)[2], c.reg), s, strays);
  }

  lemma CommitFine(w: World, s: Sid, plan: Plan)
    requires InPhase(w, Tagging(s)) || (InPhase(w, Quiet) && s !in w.t.snaps)
    requires PlanOk(w.t.hashes, plan)
    ensures var ws := CommitWorlds(w, s, plan); var strays := Tagged(w.t.hashes, Reserved) - plan.top.refs;
      ws != [] && AllFine(w, ws, strays) && InPhase(ws[|ws| - 1], Quiet) && SlackExactly(w, ws[|ws| - 1], strays)
      && Untagged(ws[|ws| - 1].t.hashes)
  {
    hide InPhase, Prepared, Counted, TaggingTrail, PlanOk, Inv, FinalizeTrail, AllFine, SlackExactly, Tagged;
    var strays := Tagged(w.t.hashes, Reserved) - plan.top.refs;
    var t2 := Counted(Prepared(Begun(w.t, s), s, plan), plan.top.id);
    CountedFine(w, s, plan);
    TaggingFine(w, s, plan, strays);
    StraysAreRows(w, Commit(s, plan));
    FinalizeLength(t2, s);
    FineConcat(w, Worlds(TaggingTrail(w.t, s, plan), w.reg),
      Worlds(CountedTrail(w.t, s, plan), w.reg[s := plan.top.refs]), strays);
  }

  lemma LastSlack(w0: World, c: World, e: World, s: Sid, strays: set<Id>)
    requires InPhase(c, Registering(s)) && SlackExactly(w0, c, strays)
    requires e == World(FinalizeTrail(c.t, s)[2], c.reg)
    ensures SlackExactly(w0, e, strays)
  {
    FinalizeStates(c, s);
    forall id | id in e.t.hashes
      ensures Slack(e, id) == Slack(c, id)
    {
    }
  }

  lemma DeletingFine(w: World, s: Sid)
    requires InPhase(w, Deleting(s)) || (InPhase(w, Quiet) && s in w.t.snaps)
    ensures s in w.t.snaps && w.t.snaps[s].top.Some?
    ensures var d0 := World(SnapTag(w.t, s, WillDelete), w.reg);
      && InPhase(d0, Deleting(s)) && Fine(w, d0, {}) && d0.t.snaps[s].top == w.t.snaps[s].top
      && SnapTag(d0.t, s, WillDelete) == d0.t
  {
    StartDeleting(w, s);
    LikeFine(w, w, SnapTag(w.t, s, WillDelete), Deleting(s), {});
  }

  lemma DroppingFine(w: World, d0: World, s: Sid, top: Top)
    requires InPhase(d0, Deleting(s)) && Fine(w, d0, {}) && d0.t.snaps[s].top == Some(top)
    ensures Fine(w, World(Dropping(d0.t, s, top), d0.reg), {})
    ensures var d2 := World(Dropped(d0.t, s, top), d0.reg - {s}); InPhase(d2, Forgetting(s)) && Fine(w, d2, {})
  {
    hide InPhase, Dropping, Dropped, Slack, RefCount, Inv;
    DroppingRows(d0, s, top);
    LikeFine(w, d0, Dropping(d0.t, s, top), Deleting(s), {});
    DroppedDeregisters(d0, s, top);
    InPhaseIsInv(World(Dropped(d0.t, s, top), d0.reg - {s}), Forgetting(s));
  }

  lemma WillDeleteTwice(t: Tables, s: Sid, top: Top)
    requires s in t.snaps
    ensures var d0 := SnapTag(t, s, WillDelete);
      Dropping(d0, s, top) == Dropping(t, s, top) && Dropped(d0, s, top) == Dropped(t, s, top)
  {
  }

  lemma DeregisterFine(w: World, s: Sid)
    requires InPhase(w, Deleting(s)) || (InPhase(w, Quiet) && s in w.t.snaps)
    ensures s in w.t.snaps && w.t.snaps[s].top.Some?
    ensures var ws := DeregisterWorlds(w, s, w.t.snaps[s].top.value);
      ws != [] && AllFine(w, ws, {}) && InPhase(ws[|ws| - 1], Quiet) && Untagged(ws[|ws| - 1].t.hashes)
  {
    hide InPhase, SlackTracked, Inv, Dropped, Dropping, SnapTag;
    DeletingFine(w, s);
    var top := w.t.snaps[s].top.value;
    var d0 := World(SnapTag(w.t, s, WillDelete), w.reg);
    DroppingFine(w, d0, s, top);
    WillDeleteTwice(w.t, s, top);
    var d1 := World(Dropping(w.t, s, top), w.reg);
    var d2 := World(Dropped(w.t, s, top), w.reg - {s});
    DropFine(w, d2, s);
    FineCons(w, d2, DropTrail(d2.t, s), {});
    FineOne(w, d1, {});
    FineCons(w, d0, [d1.t], {});
    FineConcat(w, Worlds([d0.t] + [d1.t], w.reg), Worlds([d2.t] + DropTrail(d2.t, s), d2.reg), {});
    assert [d0.t] + [d1.t] == [d0.t, d1.t];
  }

  lemma StoreFine(w: World, id: Id, row: HashRow)
    requires InPhase(w, Quiet) && StepOk(w.t.hashes, AddRow(id, row), {})
    ensures var w' := World(w.t.(hashes := w.t.hashes[id := row]), w.reg); InPhase(w', Quiet) && Fine(w, w', {})
  {
    hide RefCount, Closed;
    var w' := World(w.t.(hashes := w.t.hashes[id := row]), w.reg);
    StepSlack(w, w, AddRow(id, row), {}, {});
    ClosedAdd(w.t.hashes, id, row);
    assert CountsCover(w') by {
      forall x | x in w'.t.hashes
        ensures Slack(w', x) >= 0
      {
        if x in w.t.hashes { assert Slack(w, x) >= 0; }
      }
    }
    InPhaseIsInv(w', Quiet);
  }

  lemma ClosedAdd(h: HashRows, id: Id, row: HashRow)
    requires Closed(h) && id !in h && forall c | c in row.childs :: c in h && h[c].height < row.height
    ensures Closed(h[id := row])
  {
  }

  /** A row some registered snapshot lists is in use, and so is everything below it. */
  lemma RegisteredIsUsed(w: World, s: Sid, id: Id, below: Id)
    requires CountsCover(w) && s in w.reg && id in w.reg[s] && id in w.t.hashes
    requires Reaches(w.t.hashes, id, below)
    ensures below in UsedSet(w.t.hashes)
  {
    RefCountPositive(w.reg, s, id);
    assert w.t.hashes[id].count > 0;
    UsedIsRow(w.t.hashes, below);
  }

  lemma CountedIsUsed(h: HashRows, id: Id)
    requires id in h && h[id].count > 0
    ensures id in Swept(h) && Swept(h)[id].count == h[id].count
  {
    ReachesSelf(h, id);
  }

  lemma CollectSlack(w: World)
    ensures SlackTracked(w, World(Collected(w.t), w.reg), {})
  {
    hide Used, RefCount;
    forall id | id in w.t.hashes && Slack(w, id) > 0
      ensures id in Swept(w.t.hashes)
    {
      CountedIsUsed(w.t.hashes, id);
    }
  }

  lemma CollectFine(w: World)
    requires InPhase(w, Quiet)
    ensures var w' := World(Collected(w.t), w.reg); InPhase(w', Quiet) && Fine(w, w', {})
  {
    hide Used, RefCount, Reaches, SlackAfter;
    var w' := World(Collected(w.t), w.reg);
    SweptClosed(w.t.hashes);
    CollectSlack(w);
    forall k, id | k in w.reg && id in w.reg[k]
      ensures id in w'.t.hashes
    {
      RefCountPositive(w.reg, k, id);
      CountedIsUsed(w.t.hashes, id);
    }
    assert CountsCover(w') by {
      forall id | id in w'.t.hashes
        ensures w'.t.hashes[id].count >= RefCount(w'.reg, id)
      {
        assert id in w.t.hashes && w'.t.hashes[id].count == w.t.hashes[id].count;
      }
    }
    InPhaseIsInv(w', Quiet);
  }

  // ---------------------------------------------------------------- resume decides correctly

  /** From every state a crash can leave, what `resume` reads off the durable tags tells exactly whether
      the interrupted counter transaction has happened; and if snapshots wait to be recovered, the one
      that was worked on comes before them. */
  lemma ResumeDecides(w: World, ph: Phase)
    requires InPhase(w, ph)
    ensures match ph
      case Quiet => NotDone(w.t) == {}
      case Restoring =>
        forall k | k in NotDone(w.t) ::
          w.t.snaps[k].tag == RecoverInProgress && w.t.snaps[k].top.Some? && !CommitWasCounted(w.t, k)
      case Tagging(s) => NotDone(w.t) == {s} && w.t.snaps[s].tag == Reserved && !CommitWasCounted(w.t, s)
      case Registering(s) =>
        && s in NotDone(w.t) && (forall k | k in NotDone(w.t) :: s <= k) && w.t.snaps[s].top.Some?
        && (|| w.t.snaps[s].tag == Complete
            || (NotDone(w.t) == {s} && w.t.snaps[s].tag == Reserved && CommitWasCounted(w.t, s)))
      case Deleting(s) =>
        && NotDone(w.t) == {s} && w.t.snaps[s].top.Some? && w.t.snaps[s].tag == WillDelete
        && StatusOf(w.t.hashes, w.t.snaps[s].top.value.id) == None
      case Forgetting(s) =>
        && NotDone(w.t) == {s} && w.t.snaps[s].top.Some?
        && (|| w.t.snaps[s].tag == ReadyDelete
            || (w.t.snaps[s].tag == WillDelete
                && StatusOf(w.t.hashes, w.t.snaps[s].top.value.id) == Some(StatusComplete)))
  {
    hide CountsCover, RefCount, Closed;
    var one: Option<Sid> := match ph case Quiet => None case Restoring => None case Tagging(s) => Some(s)
      case Registering(s) => Some(s) case Deleting(s) => Some(s) case Forgetting(s) => Some(s);
    forall k | k in w.t.snaps && Some(k) != one
      ensures Finished(w, k) || Recoverable(w, k)
    {
    }
  }

  /** The order matters: were a snapshot that waits to be recovered looked at while the registration of
      another one with the same root is being finished, `resume` would give up on it. */
  lemma RefusedOutOfOrder(w: World, s: Sid, k: Sid)
    requires InPhase(w, Registering(s)) && k in NotDone(w.t) && k != s && !Calm(w.t.hashes)
    ensures w.t.snaps[k].top.Some? && w.t.snaps[k].tag == RecoverInProgress
    ensures CommitWasCounted(w.t, k) <==> w.t.snaps[k].top.value.id == w.t.snaps[s].top.value.id
    ensures s < k
  {
    hide CountsCover, RefCount, Closed;
    assert Finished(w, k) || Recoverable(w, k);
  }

  lemma TodoFirst(w: World, ph: Phase, todo: Todo)
    requires InPhase(w, ph) && todo.s in NotDone(w.t) && forall k | k in NotDone(w.t) :: todo.s <= k
    ensures match ph
      case Quiet => false
      case Restoring => true
      case Tagging(s) => todo.s == s
      case Registering(s) => todo.s == s
      case Deleting(s) => todo.s == s
      case Forgetting(s) => todo.s == s
    ensures ph.Restoring? || (ph.Registering? && w.t.snaps[todo.s].tag == Complete) || NotDone(w.t) == {todo.s}
    ensures !ph.Restoring? && NotDone(w.t) == {todo.s} ==> w.t.snaps[todo.s].tag != RecoverInProgress
  {
    hide InPhase, CommitWasCounted, StatusOf;
    ResumeDecides(w, ph);
  }

  lemma NothingRecovering(w: World, s: Sid)
    requires NotDone(w.t) <= {s} && (s in w.t.snaps ==> w.t.snaps[s].tag != RecoverInProgress)
    ensures NoRecovering(w)
  {
    forall k | k in w.t.snaps
      ensures w.t.snaps[k].tag != RecoverInProgress
    {
      if k != s { assert k !in NotDone(w.t); }
    }
  }

  /** Working on the first unfinished snapshot. */
  lemma TodoFine(w: World, ph: Phase, todo: Todo)
    requires InPhase(w, ph) && TodoOk(w, todo) && forall k | k in NotDone(w.t) :: todo.s <= k
    ensures var ws := ResumeWorlds(w, todo.s, todo.plan); var e := EndOf(w, ws);
      && ws != [] && AllFine(w, ws, TodoStrays(w, todo)) && InPhase(e, Restoring)
      && NotDone(e.t) == NotDone(w.t) - {todo.s} && Untagged(e.t.hashes)
      && (NotDone(w.t) != {todo.s} ==>
            TodoStrays(w, todo) == {} && SlackTracked(w, e, {}) && w.t.hashes.Keys <= e.t.hashes.Keys)
  {
    hide InPhase, AllFine, SlackExactly, CommitWorlds, DeregisterWorlds, RecoverWorlds, PlanOk, RecoverPlanOk;
    hide SlackTracked, FinalizeTrail, DropTrail, StatusOf;
    ResumeDecides(w, ph);
    TodoFirst(w, ph, todo);
    SlackSelf(w, {});
    var s := todo.s;
    match ph
    case Quiet => assert false;
    case Restoring => RecoverFine(w, s, todo.plan);
    case Tagging(_) =>
      NothingRecovering(w, s);
      CommitFine(w, s, todo.plan);
      QuietRestores(EndOf(w, CommitWorlds(w, s, todo.plan)));
    case Registering(_) =>
      FinalizeLength(w.t, s);
      FinalizeFine(w, w, s, {});
    case Deleting(_) =>
      DeregisterFine(w, s);
      QuietRestores(EndOf(w, DeregisterWorlds(w, s, w.t.snaps[s].top.value)));
    case Forgetting(_) =>
      DropLength(w.t, s);
      DropFine(w, w, s);
      QuietRestores(World(DropTrail(w.t, s)[4], w.reg));
  }

  lemma DropLength(t: Tables, s: Sid)
    ensures |DropTrail(t, s)| == 5
  {
  }

  lemma QuietRestores(w: World)
    requires InPhase(w, Quiet)
    ensures InPhase(w, Restoring) && NotDone(w.t) == {}
  {
    ResumeDecides(w, Quiet);
  }

  lemma RestoredIsQuiet(w: World)
    requires InPhase(w, Restoring) && NotDone(w.t) == {}
    ensures InPhase(w, Quiet)
  {
    forall k | k in w.t.snaps
      ensures w.t.snaps[k].tag != RecoverInProgress
    {
      assert k !in NotDone(w.t);
    }
  }

  lemma TrackedChain(w0: World, w1: World, w: World)
    requires SlackTracked(w0, w1, {}) && w0.t.hashes.Keys <= w1.t.hashes.Keys && SlackTracked(w1, w, {})
    ensures SlackTracked(w0, w, {})
  {
    hide RefCount;
  }

  lemma {:induction false} FineChain(w0: World, w1: World, ws: seq<World>)
    requires SlackTracked(w0, w1, {}) && w0.t.hashes.Keys <= w1.t.hashes.Keys && AllFine(w1, ws, {})
    ensures AllFine(w0, ws, {})
  {
    hide InPhase, SlackTracked, Inv;
    if ws != [] {
      TrackedChain(w0, w1, ws[0]);
      FineChain(w0, w1, ws[1..]);
    }
  }

  lemma RestoringStrays(w: World, work: seq<Todo>)
    requires InPhase(w, Restoring)
    ensures Strays(w, Resume(work)) == {}
  {
    ResumeDecides(w, Restoring);
    if work != [] && work[0].s in w.t.snaps && w.t.snaps[work[0].s].tag != Done {
      assert work[0].s in NotDone(w.t);
    }
  }

  lemma FirstSid(work: seq<Todo>)
    ensures work != [] ==> work[0].s in Sids(work)
    ensures work == [] ==> Sids(work) == {}
  {
    if work != [] { assert work[0] in work; }
  }

  lemma SidsOfRest(work: seq<Todo>)
    requires work != [] && forall i, j | 0 <= i < j < |work| :: work[i].s < work[j].s
    ensures Sids(work[1..]) == Sids(work) - {work[0].s}
  {
    var rest := work[1..];
    forall k | k in Sids(work) && k != work[0].s
      ensures k in Sids(rest)
    {
      var i :| 0 <= i < |work| && work[i].s == k;
      assert rest[i - 1].s == k && rest[i - 1] in rest;
    }
    forall k | k in Sids(rest)
      ensures k in Sids(work) && k != work[0].s
    {
      var i :| 0 <= i < |rest| && rest[i].s == k;
      assert work[i + 1].s == k && work[i + 1] in work;
    }
  }

  lemma CoversRest(t: Tables, t': Tables, work: seq<Todo>)
    requires Covers(t, work) && work != [] && NotDone(t') == NotDone(t) - {work[0].s}
    ensures Covers(t', work[1..])
    ensures NotDone(t) == {work[0].s} ==> work[1..] == []
  {
    hide Sids, NotDone;
    SidsOfRest(work);
    FirstSid(work[1..]);
    forall i, j | 0 <= i < j < |work[1..]|
      ensures work[1..][i].s < work[1..][j].s
    {
      assert work[1..][i] == work[i + 1] && work[1..][j] == work[j + 1];
    }
  }

  /** Working on all of them, in order, ends with none left. */
  lemma {:induction false} WorkFine(w: World, ph: Phase, work: seq<Todo>)
    requires InPhase(w, ph) && Covers(w.t, work) && PlansOk(w, work)
    ensures var ws := WorkWorlds(w, work);
      AllFine(w, ws, Strays(w, Resume(work))) && InPhase(EndOf(w, ws), Quiet)
      && (work != [] ==> Untagged(EndOf(w, ws).t.hashes))
    decreases |work|
  {
    hide InPhase, SlackTracked, ResumeWorlds, NotDone, TodoStrays, AllFine, Covers, PlanOk, RecoverPlanOk;
    if work == [] {
      NothingToDo(w, ph);
    } else {
      var todo, rest := work[0], work[1..];
      FirstOf(w.t, work);
      TodoFine(w, ph, todo);
      var ws := ResumeWorlds(w, todo.s, todo.plan);
      var e := EndOf(w, ws);
      CoversRest(w.t, e.t, work);
      RestoringStrays(e, rest);
      WorkFine(e, Restoring, rest);
      var more := WorkWorlds(e, rest);
      if rest == [] {
        assert ws + more == ws;
      } else {
        FineChain(w, e, more);
        FineConcat(w, ws, more, {});
      }
      EndConcat(w, ws, more);
    }
  }

  lemma EndConcat(w: World, a: seq<World>, b: seq<World>)
    ensures EndOf(w, a + b) == EndOf(EndOf(w, a), b)
  {
  }

  lemma FirstOf(t: Tables, work: seq<Todo>)
    requires Covers(t, work) && work != []
    ensures work[0].s in NotDone(t) && forall k | k in NotDone(t) :: work[0].s <= k
  {
    assert work[0] in work;
    forall k | k in NotDone(t)
      ensures work[0].s <= k
    {
      var todo :| todo in work && todo.s == k;
    }
  }

  lemma NothingToDo(w: World, ph: Phase)
    requires InPhase(w, ph) && Covers(w.t, [])
    ensures InPhase(w, Quiet) && AllFine(w, [], {})
  {
    ResumeDecides(w, ph);
    assert NotDone(w.t) == {};
    if ph.Restoring? { RestoredIsQuiet(w); }
  }

  /** The operations that end by clearing all tags: those that register or deregister a snapshot. */
  predicate ClearsTags(op: Op) {
    op.Commit? || op.Deregister? || (op.Resume? && op.work != [])
  }

  /** Every durable state an operation passes through keeps the invariant and the counts. Unless it is the start
      of a recovery, the operation ends with nothing unfinished; and if it has registered or deregistered
      anything, with no row tagged. */
  lemma OpFine(w: World, op: Op)
    requires Inv(w) && OpOk(w, op) && (op.Resume? || InPhase(w, Quiet))
    ensures var ws := OpWorlds(w, op);
      AllFine(w, ws, Strays(w, op)) && (!op.Recover? ==> InPhase(EndOf(w, ws), Quiet))
      && (ClearsTags(op) ==> Untagged(EndOf(w, ws).t.hashes))
  {
    match op
    case Store(id, row) =>
      StoreFine(w, id, row);
      FineOne(w, World(w.t.(hashes := w.t.hashes[id := row]), w.reg), {});
    case Commit(s, plan) => CommitFine(w, s, plan);
    case Deregister(s) => DeregisterFine(w, s);
    case Collect =>
      CollectFine(w);
      var c := World(Collected(w.t), w.reg);
      FineOne(w, c, {});
      FineCons(w, c, [c.t], {});
      assert [c.t] + [c.t] == [c.t, c.t];
    case Recover(found) =>
      FoundKeeps(w, found);
      SlackSelf(w, {});
      LikeFine(w, w, WithFound(w.t, found), Restoring, {});
      FineOne(w, World(WithFound(w.t, found), w.reg), {});
    case Resume(work) =>
      var ph :| InPhase(w, ph);
      WorkFine(w, ph, work);
  }
}
