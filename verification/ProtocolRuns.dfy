/**
  Every run of commits, deregistrations, collections, recoveries, crashes and resumes.
*/
module ProtocolRuns {
  import opened Common
  import opened Tags
  import opened GcTables
  import opened GcRc
  import opened SnapshotProtocol
  import opened ProtocolOps

  // ---------------------------------------------------------------- runs

  /** A repository at rest: its durable state, and whether the last operation ran to its end. */
  datatype Repo = Repo(w: World, open: bool)

  /** `op` runs to its end, or crashes at any of the durable states it passes through. After a crash, and
      after a recovery has named what it found, only `Resume` can run. */
  ghost predicate Next(x: Repo, op: Op, y: Repo) {
    && OpOk(x.w, op) && (op.Resume? || x.open)
    && var ws := OpWorlds(x.w, op);
       if y.open then !op.Recover? && y.w == EndOf(x.w, ws)
       else y.w == x.w || y.w in ws
  }

  ghost predicate Run(xs: seq<Repo>, ops: seq<Op>) {
    |xs| == |ops| + 1 && forall i | 0 <= i < |ops| :: Next(xs[i], ops[i], xs[i + 1])
  }

  ghost predicate Sound(x: Repo) {
    Inv(x.w) && (x.open ==> InPhase(x.w, Quiet))
  }

  const EMPTY: World := World(Tables(map[], map[]), map[])

  /** A new repository. */
  lemma EmptySound()
    ensures Sound(Repo(EMPTY, true))
  {
    InPhaseIsInv(EMPTY, Quiet);
  }

  lemma NextSound(x: Repo, op: Op, y: Repo)
    requires Sound(x) && Next(x, op, y)
    ensures Sound(y) && SlackTracked(x.w, y.w, Strays(x.w, op))
  {
    hide InPhase, SlackTracked, OpOk, OpWorlds, Strays;
    OpFine(x.w, op);
    SlackSelf(x.w, Strays(x.w, op));
    var ws := OpWorlds(x.w, op);
    if y.w in ws {
      var i :| 0 <= i < |ws| && ws[i] == y.w;
      AllFineAt(x.w, ws, Strays(x.w, op), i);
    }
  }

  /** Over every run, in every state reached: at most one snapshot is unfinished, `resume` can tell how
      far it got, and every row counts at least the registered snapshots that list it. */
  lemma {:induction false} RunSound(xs: seq<Repo>, ops: seq<Op>, i: nat)
    requires Run(xs, ops) && Sound(xs[0]) && i < |xs|
    ensures Sound(xs[i])
  {
    if i > 0 {
      RunSound(xs, ops, i - 1);
      assert Next(xs[i - 1], ops[i - 1], xs[i]);
      NextSound(xs[i - 1], ops[i - 1], xs[i]);
    }
  }

  /** What `Sound` means for the counters: never below the number of registered snapshots listing the
      row, and so never negative. */
  lemma SoundCovers(x: Repo)
    requires Sound(x)
    ensures forall id | id in x.w.t.hashes :: x.w.t.hashes[id].count >= RefCount(x.w.reg, id) >= 0
  {
    InvCovers(x.w);
    forall id | id in x.w.t.hashes
      ensures x.w.t.hashes[id].count >= RefCount(x.w.reg, id)
    {
      assert Slack(x.w, id) >= 0;
    }
  }

  /** And for collections: they keep all that a registered snapshot reaches. */
  lemma SoundCounts(x: Repo, s: Sid, id: Id, below: Id)
    requires Sound(x) && s in x.w.reg && id in x.w.reg[s] && Reaches(x.w.t.hashes, id, below)
    ensures id in x.w.t.hashes && x.w.t.hashes[id].count > 0
    ensures below in Swept(x.w.t.hashes)
  {
    var ph :| InPhase(x.w, ph);
    RefCountPositive(x.w.reg, s, id);
    RegisteredIsUsed(x.w, s, id, below);
  }

  /** Some registered snapshot lists a row from which `id` is reached. */
  ghost predicate Needed(w: World, id: Id) {
    exists s, root :: s in w.reg && root in w.reg[s] && Reaches(w.t.hashes, root, id)
  }

  /** With exact counts a collection keeps what the registered snapshots reach, and nothing else. */
  lemma CollectsExactly(w: World)
    requires Inv(w) && Exact(w)
    ensures forall id | id in w.t.hashes :: id in Collected(w.t).hashes <==> Needed(w, id)
  {
    hide InPhase, Reaches, RefCount;
    InvCovers(w);
    forall id | id in w.t.hashes
      ensures id in Collected(w.t).hashes <==> Needed(w, id)
    {
      if Used(w.t.hashes, id) {
        var root :| root in w.t.hashes && w.t.hashes[root].count > 0 && Reaches(w.t.hashes, root, id);
        assert RefCount(w.reg, root) > 0;
        var s := SomeReferrer(w.reg, root);
      }
      if Needed(w, id) {
        var s, root :| s in w.reg && root in w.reg[s] && Reaches(w.t.hashes, root, id);
        ReachedFromRow(w.t.hashes, root, id);
        RefCountPositive(w.reg, s, root);
      }
    }
  }

  lemma SomeReferrer(reg: map<Sid, set<Id>>, id: Id) returns (s: Sid)
    requires RefCount(reg, id) > 0
    ensures s in reg && id in reg[s]
  {
    assert Referrers(reg, id) != {};
    s :| s in Referrers(reg, id);
  }

  lemma ReachedFromRow(h: HashRows, a: Id, b: Id)
    requires Reaches(h, a, b)
    ensures a in h
  {
  }

  ghost predicate Exact(w: World) {
    forall id | id in w.t.hashes :: w.t.hashes[id].count == RefCount(w.reg, id)
  }

  /** Whether this step of a run counts a row that the snapshot it registers does not list. */
  ghost predicate CountsStray(x: Repo, op: Op, y: Repo) {
    Strays(x.w, op) != {} && y.w.reg != x.w.reg
  }

  lemma InvCovers(w: World)
    requires Inv(w)
    ensures forall id | id in w.t.hashes :: Slack(w, id) >= 0
  {
    var ph :| InPhase(w, ph);
  }

  /** An over-count is permanent: a row that counts too much is never deleted, and whatever follows, it
      goes on counting at least that much too much. */
  lemma {:induction false} SlackForever(xs: seq<Repo>, ops: seq<Op>, i: nat, j: nat, id: Id)
    requires Run(xs, ops) && Sound(xs[0]) && i <= j < |xs|
    requires id in xs[i].w.t.hashes && Slack(xs[i].w, id) > 0
    ensures id in xs[j].w.t.hashes && Slack(xs[j].w, id) >= Slack(xs[i].w, id)
    decreases j - i
  {
    hide Next, Sound, Strays;
    if i < j {
      SlackForever(xs, ops, i, j - 1, id);
      RunSound(xs, ops, j - 1);
      assert Next(xs[j - 1], ops[j - 1], xs[j]);
      NextSound(xs[j - 1], ops[j - 1], xs[j]);
      assert xs[j - 1].w.t.hashes[id].count > 0;
    }
  }

  lemma StepExactIff(x: Repo, op: Op, y: Repo)
    requires Sound(x) && Next(x, op, y)
    ensures Exact(x.w) ==> (Exact(y.w) <==> !CountsStray(x, op, y))
  {
    hide InPhase, OpOk, OpWorlds, Strays, Next;
    NextSound(x, op, y);
    StraysAreRows(x.w, op);
    if Exact(x.w) {
      if CountsStray(x, op, y) {
        var id :| id in Strays(x.w, op);
        assert Slack(x.w, id) == 0;
        assert Slack(y.w, id) == 1;
      } else {
        forall id | id in y.w.t.hashes
          ensures Slack(y.w, id) == 0
        {
          if id in x.w.t.hashes { assert Slack(x.w, id) == 0; }
        }
      }
    }
  }

  lemma {:induction false} InexactForever(xs: seq<Repo>, ops: seq<Op>, i: nat, j: nat)
    requires Run(xs, ops) && Sound(xs[0]) && i <= j < |xs| && !Exact(xs[i].w)
    ensures !Exact(xs[j].w)
  {
    hide Next, Sound;
    RunSound(xs, ops, i);
    SoundCovers(xs[i]);
    var id :| id in xs[i].w.t.hashes && Slack(xs[i].w, id) != 0;
    SlackForever(xs, ops, i, j, id);
  }

  /** Over every run, crashes and resumes included: the counts are exact if and only if they were at the
      start and no step registered a snapshot while a row it does not list was tagged. */
  lemma {:induction false} RunExactIff(xs: seq<Repo>, ops: seq<Op>, i: nat)
    requires Run(xs, ops) && Sound(xs[0]) && i < |xs|
    ensures Exact(xs[i].w) <==>
      Exact(xs[0].w) && forall j: nat | j < i :: !CountsStray(xs[j], ops[j], xs[j + 1])
  {
    hide Next, Sound, Exact, CountsStray;
    if i > 0 {
      RunExactIff(xs, ops, i - 1);
      RunSound(xs, ops, i - 1);
      assert Next(xs[i - 1], ops[i - 1], xs[i]);
      StepExactIff(xs[i - 1], ops[i - 1], xs[i]);
      if !Exact(xs[i - 1].w) { InexactForever(xs, ops, i - 1, i); }
    }
  }

  /** If no attempt at a commit starts with rows tagged that it does not list itself, all counts stay
      exact over the whole run. */
  lemma RunExact(xs: seq<Repo>, ops: seq<Op>, i: nat)
    requires Run(xs, ops) && Sound(xs[0]) && Exact(xs[0].w) && i < |xs|
    requires forall j | 0 <= j < |ops| :: Strays(xs[j].w, ops[j]) == {}
    ensures Exact(xs[i].w)
  {
    RunExactIff(xs, ops, i);
  }

  /** A step that is not interrupted and does not collect; naming what a recovery found is such a step. */
  predicate CleanStep(op: Op, y: Repo) {
    !op.Collect? && (y.open || op.Recover?)
  }

  lemma NoStrays(w: World, op: Op)
    requires Untagged(w.t.hashes)
    ensures Strays(w, op) == {}
  {
    assert Tagged(w.t.hashes, Reserved) == {};
  }

  lemma EndsUntagged(w: World, op: Op)
    requires Inv(w) && OpOk(w, op) && (op.Resume? || InPhase(w, Quiet)) && Untagged(w.t.hashes) && !op.Collect?
    ensures Untagged(EndOf(w, OpWorlds(w, op)).t.hashes)
  {
    hide InPhase, AllFine, Untagged, CommitWorlds, DeregisterWorlds, Strays, PlanOk, StepOk;
    OpFine(w, op);
    match op
    case Store(id, row) => StoredUntagged(w.t.hashes, id, row);
    case _ =>
  }

  lemma StoredUntagged(h: HashRows, id: Id, row: HashRow)
    requires Untagged(h) && StepOk(h, AddRow(id, row), {})
    ensures Untagged(h[id := row])
  {
  }

  lemma CleanStepExact(x: Repo, op: Op, y: Repo)
    requires Sound(x) && Next(x, op, y) && CleanStep(op, y) && Exact(x.w) && Untagged(x.w.t.hashes)
    ensures Exact(y.w) && Untagged(y.w.t.hashes)
  {
    hide InPhase, OpOk, Strays, Exact, CommitWorlds, DeregisterWorlds, WorkWorlds, Untagged;
    NoStrays(x.w, op);
    StepExactIff(x, op, y);
    EndsUntagged(x.w, op);
  }

  /** As long as no operation is interrupted and nothing is collected, every commit, deregistration, recovery
      and resume ends with no row tagged, and all counts stay exact: whatever the snapshots list. */
  lemma {:induction false} CleanRunExact(xs: seq<Repo>, ops: seq<Op>, i: nat)
    requires Run(xs, ops) && Sound(xs[0]) && i < |xs| && Exact(xs[0].w)
    requires forall id | id in xs[0].w.t.hashes :: xs[0].w.t.hashes[id].tag == Done
    requires forall j | 0 <= j < i :: CleanStep(ops[j], xs[j + 1])
    ensures Exact(xs[i].w) && forall id | id in xs[i].w.t.hashes :: xs[i].w.t.hashes[id].tag == Done
  {
    hide Next, Sound, Exact;
    if i > 0 {
      CleanRunExact(xs, ops, i - 1);
      RunSound(xs, ops, i - 1);
      assert Next(xs[i - 1], ops[i - 1], xs[i]);
      CleanStepExact(xs[i - 1], ops[i - 1], xs[i]);
    }
  }

  /** Whatever went before it, a commit, deregistration or resume that runs to its end leaves no row tagged. */
  lemma TagsCleared(x: Repo, op: Op, y: Repo)
    requires Sound(x) && Next(x, op, y) && y.open && ClearsTags(op)
    ensures forall id | id in y.w.t.hashes :: y.w.t.hashes[id].tag == Done
  {
    hide InPhase, AllFine, OpOk, OpWorlds, Strays;
    OpFine(x.w, op);
  }

  /** Exactly when a commit that runs to its end leaves exact counts behind, be it the first attempt or
      one repeated by `resume` over the tags of an interrupted one. */
  lemma CommitExactIff(w: World, s: Sid, plan: Plan)
    requires InPhase(w, Tagging(s)) || (InPhase(w, Quiet) && s !in w.t.snaps)
    requires PlanOk(w.t.hashes, plan)
    ensures var ws := CommitWorlds(w, s, plan);
      ws != [] && (Exact(ws[|ws| - 1]) <==> Exact(w) && Tagged(w.t.hashes, Reserved) <= plan.top.refs)
  {
    hide InPhase, PlanOk, CommitWorlds;
    CommitFine(w, s, plan);
    InPhaseIsInv(w, if InPhase(w, Quiet) then Quiet else Tagging(s));
    InvCovers(w);
    var ws := CommitWorlds(w, s, plan);
    ExactlyIff(w, ws[|ws| - 1], Tagged(w.t.hashes, Reserved) - plan.top.refs);
  }

  lemma ExactlyIff(w: World, e: World, strays: set<Id>)
    requires SlackExactly(w, e, strays) && strays <= w.t.hashes.Keys
    requires forall id | id in w.t.hashes :: Slack(w, id) >= 0
    ensures Exact(e) <==> Exact(w) && strays == {}
  {
    if Exact(e) {
      forall id | id in w.t.hashes
        ensures Slack(w, id) == 0 && id !in strays
      {
        assert Slack(e, id) == 0;
      }
    }
    if Exact(w) && strays == {} {
      forall id | id in e.t.hashes
        ensures Slack(e, id) == 0
      {
        if id in w.t.hashes { assert Slack(w, id) == 0; }
      }
    }
  }

  lemma CollectedExact(w: World)
    requires Exact(w)
    ensures var c := World(Collected(w.t), w.reg); Exact(c) && Tagged(c.t.hashes, Reserved) == UsedSet(w.t.hashes)
  {
  }

  /** A collection leaves every surviving row tagged, so the next commit counts all of them: counts stay
      exact only if that commit happens to list every row the collection kept. */
  lemma CommitAfterCollect(w: World, s: Sid, plan: Plan)
    requires InPhase(w, Quiet) && Exact(w)
    requires OpOk(World(Collected(w.t), w.reg), Commit(s, plan))
    ensures var c := World(Collected(w.t), w.reg); var ws := CommitWorlds(c, s, plan);
      ws != [] && (Exact(ws[|ws| - 1]) <==> UsedSet(w.t.hashes) <= plan.top.refs)
  {
    hide InPhase, Exact, CommitWorlds, Collected, UsedSet, PlanOk;
    var c := World(Collected(w.t), w.reg);
    CollectFine(w);
    CollectedExact(w);
    CommitExactIff(c, s, plan);
  }

  const ROW: HashRow := HashRow(Done, 1, 0, [], None)

  /** One snapshot, 7, whose only row is its root, row 1. */
  const BEFORE: World := World(Tables(map[1 := ROW], map[7 := SnapRow(Done, Some(Top(1, {1})))]), map[7 := {1}])

  /** A commit of one new row. */
  const SECOND: Plan := Plan(Top(2, {2}), [AddRow(2, ROW.(count := 0))], true)

  lemma ExampleCollected()
    ensures UsedSet(BEFORE.t.hashes) == {1} && Collected(BEFORE.t).hashes.Keys == {1}
    ensures Collected(BEFORE.t).snaps == BEFORE.t.snaps
  {
    ReachesSelf(BEFORE.t.hashes, 1);
  }

  lemma ExampleStart()
    ensures InPhase(BEFORE, Quiet) && Exact(BEFORE)
  {
    assert Referrers(BEFORE.reg, 1) == {7};
    assert BEFORE.t.hashes.Keys == {1};
  }

  lemma ExamplePlan(h: HashRows)
    requires h.Keys == {1}
    ensures PlanOk(h, SECOND)
  {
  }

  /** The over-count is real: one registered row, a collection, then a commit of another row. */
  lemma OvercountExample()
    ensures exists w: World, s: Sid, plan: Plan ::
      && InPhase(w, Quiet) && Exact(w) && OpOk(World(Collected(w.t), w.reg), Commit(s, plan))
      && var ws := CommitWorlds(World(Collected(w.t), w.reg), s, plan); ws != [] && !Exact(ws[|ws| - 1])
  {
    hide InPhase, Exact, CommitWorlds, Collected, UsedSet, PlanOk;
    ExampleCollected();
    ExampleStart();
    ExamplePlan(Collected(BEFORE.t).hashes);
    CommitAfterCollect(BEFORE, 8, SECOND);
    assert 1 !in SECOND.top.refs;
  }

  /** A commit of the two new rows 1 and 3, which stores a blob between them. */
  const FIRST: Plan :=
    Plan(Top(3, {1, 3}), [AddRow(1, ROW.(count := 0)), TagRef(1), BlobStored, AddRow(3, ROW.(count := 0))], true)

  /** What a crash at that blob leaves: row 1 is tagged and nothing is counted. */
  const HALFWAY: World := World(Tables(map[1 := HashRow(Reserved, 0, 0, [], None)],
    map[8 := SnapRow(Reserved, None)]), map[])

  lemma StepsCons(t: Tables, step: CommitStep, rest: seq<CommitStep>, auto: bool, refs: set<Id>)
    ensures var t' := t.(hashes := DoStep(t.hashes, step));
      && (StepsOk(t.hashes, [step] + rest, refs) <==> StepOk(t.hashes, step, refs) && StepsOk(t'.hashes, rest, refs))
      && DoSteps(t.hashes, [step] + rest) == DoSteps(t'.hashes, rest)
      && StepTrail(t, [step] + rest, auto) == (if Flushes(step, auto) then [t'] else []) + StepTrail(t', rest, auto)
  {
    assert ([step] + rest)[1..] == rest;
  }

  /** The first commit's steps, one after the other, up to the state `HALFWAY`. */
  lemma ExampleSteps()
    ensures var t0 := Begun(EMPTY.t, 8);
      && StepsOk(t0.hashes, FIRST.steps, {1, 3}) && DoSteps(t0.hashes, FIRST.steps).Keys == {1, 3}
      && StepTrail(t0, FIRST.steps, true) == [HALFWAY.t]
  {
    hide StepsOk, DoSteps, StepTrail;
    var row := ROW.(count := 0);
    var t0 := Begun(EMPTY.t, 8);
    var t1 := t0.(hashes := DoStep(t0.hashes, AddRow(1, row)));
    var t2 := HALFWAY.t;
    var s1, s2, s3: seq<CommitStep> := [AddRow(3, row)], [BlobStored, AddRow(3, row)],
      [TagRef(1), BlobStored, AddRow(3, row)];
    assert t1.(hashes := DoStep(t1.hashes, TagRef(1))) == t2 && t2.(hashes := DoStep(t2.hashes, BlobStored)) == t2;
    ExampleLastStep(t2, row);
    StepsCons(t2, BlobStored, s1, true, {1, 3});
    StepsCons(t1, TagRef(1), s2, true, {1, 3});
    StepsCons(t0, AddRow(1, row), s3, true, {1, 3});
    assert [BlobStored] + s1 == s2 && [TagRef(1)] + s2 == s3 && [AddRow(1, row)] + s3 == FIRST.steps;
  }

  lemma ExampleLastStep(t: Tables, row: HashRow)
    requires t.hashes.Keys == {1} && row == ROW.(count := 0)
    ensures StepsOk(t.hashes, [AddRow(3, row)], {1, 3}) && DoSteps(t.hashes, [AddRow(3, row)]).Keys == {1, 3}
    ensures StepTrail(t, [AddRow(3, row)], true) == []
  {
    StepsCons(t, AddRow(3, row), [], true, {1, 3});
    assert [AddRow(3, row)] + [] == [AddRow(3, row)];
  }

  lemma ExampleFirst()
    ensures PlanOk(map[], FIRST) && HALFWAY in CommitWorlds(EMPTY, 8, FIRST)
  {
    hide StepsOk, DoSteps, StepTrail;
    ExampleSteps();
    assert Begun(EMPTY.t, 8).hashes == map[] && FIRST.steps[1] == TagRef(1);
    assert TaggingTrail(EMPTY.t, 8, FIRST)[1] == HALFWAY.t;
    assert CommitWorlds(EMPTY, 8, FIRST)[1] == HALFWAY;
  }

  lemma ExampleHalfway()
    ensures InPhase(HALFWAY, Tagging(8)) && InPhase(EMPTY, Quiet)
  {
  }

  lemma ExampleResume(ws: seq<World>)
    requires PlanOk(HALFWAY.t.hashes, SECOND) && ws == CommitWorlds(HALFWAY, 8, SECOND)
    ensures var op := Resume([Todo(8, SECOND)]); OpOk(HALFWAY, op) && OpWorlds(HALFWAY, op) == ws
  {
    hide PlanOk, CommitWorlds;
    var work := [Todo(8, SECOND)];
    FirstSid(work);
    SidsOfRest(work);
    FirstSid(work[1..]);
    assert Sids(work) == {8};
    assert NotDone(HALFWAY.t) == {8} && HALFWAY.t.snaps[8].tag == Reserved && !CommitWasCounted(HALFWAY.t, 8);
    assert TodoOk(HALFWAY, work[0]);
    assert ResumeWorlds(HALFWAY, 8, SECOND) == ws && work[1..] == [];
    assert PlansOk(EndOf(HALFWAY, ws), []) && WorkWorlds(EndOf(HALFWAY, ws), []) == [];
    assert ws + [] == ws;
  }

  /** The over-count needs no collection: a first commit crashes after tagging row 1, and by the time
      `resume` repeats it the directory no longer contains that row. */
  lemma ResumeOvercountExample()
    ensures exists xs: seq<Repo>, ops: seq<Op> ::
      && Run(xs, ops) && xs[0] == Repo(EMPTY, true) && |ops| == 2 && ops[0].Commit? && ops[1].Resume?
      && xs[2].open && !Exact(xs[2].w)
  {
    hide InPhase, Exact, CommitWorlds, PlanOk;
    ExampleFirst();
    ExampleHalfway();
    ExamplePlan(HALFWAY.t.hashes);
    CommitExactIff(HALFWAY, 8, SECOND);
    assert 1 in Tagged(HALFWAY.t.hashes, Reserved) && 1 !in SECOND.top.refs;
    var ws := CommitWorlds(HALFWAY, 8, SECOND);
    var xs := [Repo(EMPTY, true), Repo(HALFWAY, false), Repo(ws[|ws| - 1], true)];
    var ops := [Commit(8, FIRST), Resume([Todo(8, SECOND)])];
    assert OpOk(EMPTY, ops[0]) && OpWorlds(EMPTY, ops[0]) == CommitWorlds(EMPTY, 8, FIRST);
    assert Next(xs[0], ops[0], xs[1]);
    ExampleResume(ws);
    assert Next(xs[1], ops[1], xs[2]);
    assert Run(xs, ops);
  }
}
