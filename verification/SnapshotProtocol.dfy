/**
  Commit and deregister as crash-resumable transactions.

  A `World` is a durable database state together with a history variable: for each snapshot whose
  counter transaction has become durable and has not been undone, the set of rows it registered.
  An operation is described by its trail, the durable states it passes through; a crash leaves the
  world at any one of them, and only `Resume` may follow.
*/
module SnapshotProtocol {
  import opened Common
  import opened Tags
  import opened GcTables
  import opened GcRc

  datatype World = World(t: Tables, reg: map<Sid, set<Id>>)

  // ---------------------------------------------------------------- trails

  /** What writing the directory listings of a commit does to the database. */
  datatype CommitStep =
    | AddRow(id: Id, row: HashRow)
    | TagRef(id: Id)
    | Timer       // the periodic flush timer has run out
    | BlobStored  // a full blob went out, which flushes

  /** The outcome of a commit's directory walk: its root, and the steps on the way. */
  datatype Plan = Plan(top: Top, steps: seq<CommitStep>, auto: bool)

  function DoStep(h: HashRows, step: CommitStep): HashRows {
    match step
    case AddRow(id, row) => h[id := row]
    case TagRef(id) => SetTag(h, id, Reserved)
    case _ => h
  }

  function DoSteps(h: HashRows, steps: seq<CommitStep>): HashRows
    decreases |steps|
  {
    if steps == [] then h else DoSteps(DoStep(h, steps[0]), steps[1..])
  }

  predicate Flushes(step: CommitStep, auto: bool) {
    step.BlobStored? || (step.Timer? && auto)
  }

  function StepTrail(t: Tables, steps: seq<CommitStep>, auto: bool): seq<Tables>
    decreases |steps|
  {
    if steps == [] then []
    else
      var t' := t.(hashes := DoStep(t.hashes, steps[0]));
      (if Flushes(steps[0], auto) then [t'] else []) + StepTrail(t', steps[1..], auto)
  }

  /** A fresh reservation, or the row of the interrupted commit that is being resumed. */
  function Begun(t: Tables, s: Sid): Tables {
    if s in t.snaps then t else t.(snaps := t.snaps[s := SnapRow(Reserved, None)])
  }

  /** All data hashes are tagged and the snapshot names its root; nothing has been counted. */
  function Prepared(t: Tables, s: Sid, plan: Plan): Tables {
    SnapTop(t.(hashes := DoSteps(t.hashes, plan.steps)), s, plan.top)
  }

  function Counted(t: Tables, final: Id): Tables {
    t.(hashes := Registered(t.hashes, final))
  }

  function FinalizeTrail(t: Tables, s: Sid): seq<Tables> {
    var a := SnapTag(t, s, Complete);
    [a, AllDone(a), SnapTag(AllDone(a), s, Done)]
  }

  /** The trail of a commit up to and not including the counter transaction. */
  function TaggingTrail(t: Tables, s: Sid, plan: Plan): seq<Tables> {
    var t0 := Begun(t, s);
    [t0] + StepTrail(t0, plan.steps, plan.auto) + [Prepared(t0, s, plan), Prepared(t0, s, plan)]
  }

  function CountedTrail(t: Tables, s: Sid, plan: Plan): seq<Tables> {
    var t2 := Counted(Prepared(Begun(t, s), s, plan), plan.top.id);
    [t2] + FinalizeTrail(t2, s)
  }

  function CommitTrail(t: Tables, s: Sid, plan: Plan): seq<Tables> {
    TaggingTrail(t, s, plan) + CountedTrail(t, s, plan)
  }

  function Dropping(t: Tables, s: Sid, top: Top): Tables {
    var d0 := SnapTag(t, s, WillDelete);
    d0.(hashes := TagSet(SetAllTags(d0.hashes, Done), top.refs, Reserved))
  }

  function Dropped(t: Tables, s: Sid, top: Top): Tables {
    var d1 := Dropping(t, s, top);
    d1.(hashes := Deregistered(d1.hashes, top.id))
  }

  function DropTrail(t: Tables, s: Sid): seq<Tables> {
    var a := SnapTag(t, s, ReadyDelete);
    var b := Removed(AllDone(a), s);
    [a, AllDone(a), b, b, b]
  }

  /** The tables once a snapshot's listings have been walked again and their rows put back; of the rows it
      lists only the root is not tagged. */
  function Remarked(t: Tables, plan: Plan): Tables {
    var h := SetAllTags(DoSteps(t.hashes, plan.steps), Done);
    t.(hashes := TagSet(h, plan.top.refs - {plan.top.id}, Reserved))
  }

  /** Recovering a snapshot: the counters and the state of the snapshot change in one flush. */
  function RecoverCountedTrail(t: Tables, s: Sid, plan: Plan): seq<Tables> {
    FinalizeTrail(Counted(Remarked(t, plan), plan.top.id), s)
  }

  function RecoverMarkedTrail(t: Tables, plan: Plan): seq<Tables> {
    StepTrail(t, plan.steps, plan.auto) + [Remarked(t, plan)]
  }

  /** Name the snapshots a recovery has found; those already known stay as they are. */
  function WithFound(t: Tables, found: map<Sid, Top>): Tables {
    t.(snaps := map k | k in t.snaps.Keys + found.Keys ::
      if k in t.snaps then t.snaps[k] else SnapRow(RecoverInProgress, Some(found[k])))
  }

  // ---------------------------------------------------------------- phases

  predicate Calm(h: HashRows) {
    forall id | id in h :: h[id].tag == Done || h[id].tag == Reserved
  }

  /** All tags are calm except that `final` carries `tag`. */
  predicate Flagged(h: HashRows, final: Id, tag: Tag) {
    && final in h && h[final].tag == tag
    && forall id | id in h && id != final :: h[id].tag == Done || h[id].tag == Reserved
  }

  /** The number of registered snapshots whose reference set contains `id`. */
  function RefCount(reg: map<Sid, set<Id>>, id: Id): nat {
    |Referrers(reg, id)|
  }

  function Referrers(reg: map<Sid, set<Id>>, id: Id): set<Sid> {
    set s | s in reg && id in reg[s]
  }

  /** The snapshot is finished and registered with the rows its root lists. */
  predicate Finished(w: World, k: Sid)
    requires k in w.t.snaps
  {
    && w.t.snaps[k].tag == Done && w.t.snaps[k].top.Some?
    && k in w.reg && w.reg[k] == w.t.snaps[k].top.value.refs
    && w.t.snaps[k].top.value.id in w.reg[k]
  }

  /** The snapshot has been found by a recovery and is still to be recovered. */
  predicate Recoverable(w: World, k: Sid)
    requires k in w.t.snaps
  {
    && w.t.snaps[k].tag == RecoverInProgress && w.t.snaps[k].top.Some? && k !in w.reg
    && w.t.snaps[k].top.value.id in w.t.snaps[k].top.value.refs
  }

  /** Every snapshot other than `s` is finished or waits to be recovered. */
  ghost predicate OthersDone(w: World, s: Option<Sid>) {
    forall k | k in w.t.snaps && Some(k) != s :: Finished(w, k) || Recoverable(w, k)
  }

  predicate NoRecovering(w: World) {
    forall k | k in w.t.snaps :: w.t.snaps[k].tag != RecoverInProgress
  }

  ghost predicate CountsCover(w: World) {
    forall id | id in w.t.hashes :: w.t.hashes[id].count >= RefCount(w.reg, id)
  }

  ghost predicate Base(w: World, s: Option<Sid>) {
    && Closed(w.t.hashes)
    && w.reg.Keys <= w.t.snaps.Keys
    && (forall k | k in w.reg :: w.reg[k] <= w.t.hashes.Keys)
    && OthersDone(w, s)
    && CountsCover(w)
  }

  /** Snapshots are recovered in the order of their row ids. */
  predicate RecoveredBefore(w: World, s: Sid) {
    forall k | k in w.t.snaps && w.t.snaps[k].tag == RecoverInProgress :: s < k
  }

  datatype Phase =
    | Quiet | Restoring | Tagging(s: Sid) | Registering(s: Sid) | Deleting(s: Sid) | Forgetting(s: Sid)

  /** What a durable state can look like, by how far the one unfinished snapshot got. Besides it there can
      be snapshots that wait to be recovered, but only while nothing depends on the tag of a root. */
  ghost predicate InPhase(w: World, ph: Phase) {
    match ph
    case Quiet => Base(w, None) && Calm(w.t.hashes) && NoRecovering(w)
    case Restoring => Base(w, None) && Calm(w.t.hashes)
    case Tagging(s) =>
      && Base(w, Some(s)) && Calm(w.t.hashes) && NoRecovering(w)
      && s in w.t.snaps && w.t.snaps[s].tag == Reserved && s !in w.reg
    case Registering(s) =>
      && Base(w, Some(s)) && s in w.t.snaps && w.t.snaps[s].top.Some? && s in w.reg
      && var top := w.t.snaps[s].top.value;
      && w.reg[s] == top.refs && top.id in top.refs
      && (match w.t.snaps[s].tag
          case Reserved => Flagged(w.t.hashes, top.id, InProgress) && NoRecovering(w)
          case Complete => (Calm(w.t.hashes) || Flagged(w.t.hashes, top.id, InProgress)) && RecoveredBefore(w, s)
          case _ => false)
    case Deleting(s) =>
      && Base(w, Some(s)) && Calm(w.t.hashes) && NoRecovering(w)
      && s in w.t.snaps && w.t.snaps[s].top.Some? && s in w.reg
      && var top := w.t.snaps[s].top.value;
      w.reg[s] == top.refs && top.id in top.refs && w.t.snaps[s].tag == WillDelete
    case Forgetting(s) =>
      && Base(w, Some(s)) && NoRecovering(w) && s in w.t.snaps && w.t.snaps[s].top.Some? && s !in w.reg
      && var top := w.t.snaps[s].top.value;
      && top.id in w.t.hashes
      && (match w.t.snaps[s].tag
          case WillDelete => Flagged(w.t.hashes, top.id, ReadyDelete)
          case ReadyDelete => Calm(w.t.hashes) || Flagged(w.t.hashes, top.id, ReadyDelete)
          case _ => false)
  }

  ghost predicate Inv(w: World) {
    exists ph :: InPhase(w, ph)
  }

  ghost predicate AllIn(ts: seq<Tables>, reg: map<Sid, set<Id>>, ph: Phase) {
    forall i | 0 <= i < |ts| :: InPhase(World(ts[i], reg), ph)
  }

  // ---------------------------------------------------------------- what a plan may do

  ghost predicate StepOk(h: HashRows, step: CommitStep, refs: set<Id>) {
    match step
    case AddRow(id, row) =>
      && id !in h && row.tag == Done && row.count == 0
      && forall c | c in row.childs :: c in h && h[c].height < row.height
    case TagRef(id) => id in h && id in refs
    case _ => true
  }

  ghost predicate StepsOk(h: HashRows, steps: seq<CommitStep>, refs: set<Id>)
    decreases |steps|
  {
    steps == [] || (StepOk(h, steps[0], refs) && StepsOk(DoStep(h, steps[0]), steps[1..], refs))
  }

  /** A directory walk adds rows children first, and by its end every listed hash other than the root
      exists and has been tagged. */
  ghost predicate PlanOk(h: HashRows, plan: Plan) {
    && StepsOk(h, plan.steps, plan.top.refs)
    && plan.top.id in plan.top.refs
    && plan.top.refs <= DoSteps(h, plan.steps).Keys
    && forall id | id in plan.top.refs && id != plan.top.id :: TagRef(id) in plan.steps
  }

  /** Walking a snapshot that is being recovered puts rows back, children first, and by its end all rows
      it lists are there. */
  ghost predicate RecoverPlanOk(h: HashRows, plan: Plan) {
    StepsOk(h, plan.steps, {}) && plan.top.id in plan.top.refs && plan.top.refs <= DoSteps(h, plan.steps).Keys
  }

  // ---------------------------------------------------------------- counting registrations

  lemma RefCountAdd(reg: map<Sid, set<Id>>, s: Sid, refs: set<Id>, id: Id)
    requires s !in reg
    ensures RefCount(reg[s := refs], id) == RefCount(reg, id) + (if id in refs then 1 else 0)
  {
    assert Referrers(reg[s := refs], id) == Referrers(reg, id) + (if id in refs then {s} else {});
  }

  lemma RefCountRemove(reg: map<Sid, set<Id>>, s: Sid, id: Id)
    requires s in reg
    ensures RefCount(reg, id) == RefCount(reg - {s}, id) + (if id in reg[s] then 1 else 0)
  {
    assert (reg - {s})[s := reg[s]] == reg;
    RefCountAdd(reg - {s}, s, reg[s], id);
  }

  lemma RefCountZero(reg: map<Sid, set<Id>>, id: Id)
    requires forall k | k in reg :: id !in reg[k]
    ensures RefCount(reg, id) == 0
  {
  }

  lemma RefCountPositive(reg: map<Sid, set<Id>>, s: Sid, id: Id)
    requires s in reg && id in reg[s]
    ensures RefCount(reg, id) > 0
  {
    assert s in Referrers(reg, id);
  }

  // ---------------------------------------------------------------- the tagging phase

  lemma AddRowKeepsBase(w: World, s: Option<Sid>, id: Id, row: HashRow, refs: set<Id>)
    requires Base(w, s) && Calm(w.t.hashes) && StepOk(w.t.hashes, AddRow(id, row), refs)
    ensures var w' := World(w.t.(hashes := w.t.hashes[id := row]), w.reg); Base(w', s) && Calm(w'.t.hashes)
  {
    RefCountZero(w.reg, id);
    var w' := World(w.t.(hashes := w.t.hashes[id := row]), w.reg);
    forall x, c | x in w'.t.hashes && c in w'.t.hashes[x].childs
      ensures c in w'.t.hashes && w'.t.hashes[c].height < w'.t.hashes[x].height
    {
      if x != id { assert c in w.t.hashes[x].childs; }
    }
    assert Base(w', s);
  }

  lemma RetagKeepsBase(w: World, s: Option<Sid>, h: HashRows)
    requires Base(w, s) && SameGraph(w.t.hashes, h)
    ensures Base(World(w.t.(hashes := h), w.reg), s)
  {
  }

  lemma StepKeepsBase(w: World, s: Option<Sid>, step: CommitStep, refs: set<Id>)
    requires Base(w, s) && Calm(w.t.hashes) && StepOk(w.t.hashes, step, refs)
    ensures var w' := World(w.t.(hashes := DoStep(w.t.hashes, step)), w.reg); Base(w', s) && Calm(w'.t.hashes)
  {
    match step
    case AddRow(id, row) => AddRowKeepsBase(w, s, id, row, refs);
    case TagRef(id) => RetagKeepsBase(w, s, SetTag(w.t.hashes, id, Reserved));
    case _ => assert w.t.(hashes := w.t.hashes) == w.t;
  }

  /** The phases in which listings are walked: to commit them, or to recover what they list. */
  predicate Walking(ph: Phase) {
    ph.Tagging? || ph.Restoring?
  }

  lemma StepKeepsTagging(w: World, ph: Phase, step: CommitStep, refs: set<Id>)
    requires Walking(ph) && InPhase(w, ph) && StepOk(w.t.hashes, step, refs)
    ensures InPhase(World(w.t.(hashes := DoStep(w.t.hashes, step)), w.reg), ph)
  {
    hide Base, Calm;
    StepKeepsBase(w, if ph.Tagging? then Some(ph.s) else None, step, refs);
  }

  lemma {:induction false} StepsKeepTagging(w: World, ph: Phase, steps: seq<CommitStep>, auto: bool, refs: set<Id>)
    requires Walking(ph) && InPhase(w, ph) && StepsOk(w.t.hashes, steps, refs)
    ensures AllIn(StepTrail(w.t, steps, auto), w.reg, ph)
    ensures InPhase(World(w.t.(hashes := DoSteps(w.t.hashes, steps)), w.reg), ph)
    decreases |steps|
  {
    if steps != [] {
      StepKeepsTagging(w, ph, steps[0], refs);
      StepsKeepTagging(World(w.t.(hashes := DoStep(w.t.hashes, steps[0])), w.reg), ph, steps[1..], auto, refs);
    }
  }

  lemma {:induction false} StepsTagged(h: HashRows, steps: seq<CommitStep>, refs: set<Id>)
    requires Calm(h) && StepsOk(h, steps, refs)
    ensures Calm(DoSteps(h, steps))
    ensures forall id :: id in Tagged(DoSteps(h, steps), Reserved) <==> id in Tagged(h, Reserved) || TagRef(id) in steps
    ensures forall id | TagRef(id) in steps :: id in refs
    decreases |steps|
  {
    if steps != [] {
      StepsTagged(DoStep(h, steps[0]), steps[1..], refs);
    }
  }

  /** The rows that were there stay as they are but for their tags, and those added are as they were given. */
  lemma {:induction false} StepsRows(h: HashRows, steps: seq<CommitStep>, refs: set<Id>)
    requires StepsOk(h, steps, refs)
    ensures var d := DoSteps(h, steps);
      && (forall id | id in h :: id in d && d[id].(tag := h[id].tag) == h[id])
      && (forall id, row | AddRow(id, row) in steps :: id in d && d[id].(tag := row.tag) == row)
      && forall id | id in d && id !in h :: exists row :: AddRow(id, row) in steps
    decreases |steps|
  {
    if steps != [] {
      StepsRows(DoStep(h, steps[0]), steps[1..], refs);
      forall id | id in DoSteps(h, steps) && id !in h
        ensures exists row :: AddRow(id, row) in steps
      {
        if id !in DoStep(h, steps[0]) {
          var row :| AddRow(id, row) in steps[1..];
          assert AddRow(id, row) in steps;
        } else {
          assert steps[0] == AddRow(id, steps[0].row);
        }
      }
    }
  }

  /** `u` is what a walk makes durable at its `i`-th step. */
  ghost predicate FlushedAt(t: Tables, steps: seq<CommitStep>, auto: bool, u: Tables, i: int) {
    0 <= i < |steps| && (steps[i] == BlobStored || (steps[i] == Timer && auto))
      && u == t.(hashes := DoSteps(t.hashes, steps[..i + 1]))
  }

  /** A walk makes durable what it has done so far whenever a blob has gone out, and whenever the timer has run
      out while it may still flush; and at no other point. */
  lemma {:induction false} StepsFlushed(t: Tables, steps: seq<CommitStep>, auto: bool, u: Tables)
    ensures u in StepTrail(t, steps, auto) <==> exists i :: FlushedAt(t, steps, auto, u, i)
    decreases |steps|
  {
    if steps != [] {
      var t' := t.(hashes := DoStep(t.hashes, steps[0]));
      StepsFlushed(t', steps[1..], auto, u);
      forall i | 0 < i
        ensures FlushedAt(t, steps, auto, u, i) <==> FlushedAt(t', steps[1..], auto, u, i - 1)
      {
        if i < |steps| { assert steps[..i + 1][1..] == steps[1..][..i]; }
      }
      assert steps[..0 + 1] == [steps[0]] && [steps[0]][1..] == [];
      assert DoSteps(t.hashes, steps[..0 + 1]) == DoSteps(t'.hashes, []);
      assert FlushedAt(t, steps, auto, u, 0) <==> Flushes(steps[0], auto) && u == t';
      if j :| FlushedAt(t', steps[1..], auto, u, j) { assert FlushedAt(t, steps, auto, u, j + 1); }
    }
  }

  lemma BeginTagging(w: World, s: Sid)
    requires InPhase(w, Tagging(s)) || (InPhase(w, Quiet) && s !in w.t.snaps)
    ensures InPhase(World(Begun(w.t, s), w.reg), Tagging(s))
  {
  }

  lemma NameTop(w: World, s: Sid, top: Top)
    requires InPhase(w, Tagging(s))
    ensures InPhase(World(SnapTop(w.t, s, top), w.reg), Tagging(s))
  {
  }

  // ---------------------------------------------------------------- the counter transactions

  /** How much more than the registered snapshots `id` counts. */
  function Slack(w: World, id: Id): int
    requires id in w.t.hashes
  {
    w.t.hashes[id].count - RefCount(w.reg, id)
  }

  /** The rows a registration will count: those tagged so far, and its root. */
  function ToCount(h: HashRows, final: Id): set<Id> {
    Tagged(h, Reserved) + {final}
  }

  lemma RegisteredRows(h: HashRows, final: Id)
    requires final in h && Calm(h)
    ensures var r := Registered(h, final);
      && r.Keys == h.Keys && Flagged(r, final, InProgress)
      && forall id | id in h ::
           r[id].(tag := h[id].tag) == h[id].(count := h[id].count + (if id in ToCount(h, final) then 1 else 0))
  {
    var h1 := SetTag(h, final, Reserved);
    assert Tagged(h1, Reserved) == ToCount(h, final);
  }

  /** The registration becomes durable in one state: the snapshot is in effect from here on, and only
      rows that were tagged without being listed by it gain slack. */
  lemma CountedRegisters(w: World, s: Sid, top: Top)
    requires InPhase(w, Tagging(s)) && w.t.snaps[s].top == Some(top)
    requires top.id in top.refs && top.refs <= w.t.hashes.Keys
    requires top.refs <= ToCount(w.t.hashes, top.id)
    ensures var w' := World(Counted(w.t, top.id), w.reg[s := top.refs]);
      InPhase(w', Registering(s)) && MoreSlack(w, w', ToCount(w.t.hashes, top.id) - top.refs)
  {
    hide Base, RefCount, Registered;
    CountedBase(w, s, top);
  }

  /** From `w` to `w'` the rows stay and exactly those in `ids` gain one count too many. */
  ghost predicate MoreSlack(w: World, w': World, ids: set<Id>) {
    && w'.t.hashes.Keys == w.t.hashes.Keys
    && forall id | id in w.t.hashes :: Slack(w', id) == Slack(w, id) + (if id in ids then 1 else 0)
  }

  lemma CountedBase(w: World, s: Sid, top: Top)
    requires Base(w, Some(s)) && Calm(w.t.hashes) && s in w.t.snaps && s !in w.reg
    requires top.id in top.refs && top.refs <= w.t.hashes.Keys
    requires top.refs <= ToCount(w.t.hashes, top.id)
    ensures var w' := World(Counted(w.t, top.id), w.reg[s := top.refs]);
      && Base(w', Some(s)) && Flagged(w'.t.hashes, top.id, InProgress) && w'.t.snaps == w.t.snaps
      && MoreSlack(w, w', ToCount(w.t.hashes, top.id) - top.refs)
  {
    hide Base, RefCount, Registered;
    var w' := World(Counted(w.t, top.id), w.reg[s := top.refs]);
    RegisteredRows(w.t.hashes, top.id);
    forall id | id in w.t.hashes
      ensures Slack(w', id) == Slack(w, id) + (if id in ToCount(w.t.hashes, top.id) - top.refs then 1 else 0)
    {
      RefCountAdd(w.reg, s, top.refs, id);
    }
    RecountedBase(w, w', s);
  }

  /** Recounting rows while only the registration of `s` changes keeps everything else in order. */
  lemma RecountedBase(w: World, w': World, s: Sid)
    requires Base(w, Some(s)) && w'.t.hashes.Keys == w.t.hashes.Keys && w'.t.snaps == w.t.snaps && s in w.t.snaps
    requires forall id | id in w.t.hashes ::
      && w'.t.hashes[id].childs == w.t.hashes[id].childs && w'.t.hashes[id].height == w.t.hashes[id].height
      && Slack(w', id) >= Slack(w, id)
    requires w'.reg - {s} == w.reg - {s} && (s in w'.reg ==> w'.reg[s] <= w.t.hashes.Keys)
    ensures Base(w', Some(s))
  {
    hide RefCount;
    CountsFromSlack(w, w');
    ClosedLike(w.t.hashes, w'.t.hashes);
    forall k | k != s
      ensures k in w'.reg <==> k in w.reg
      ensures k in w.reg ==> w'.reg[k] == w.reg[k]
    {
      assert k in w'.reg <==> k in w'.reg - {s};
      assert k in w.reg <==> k in w.reg - {s};
      if k in w.reg { assert w'.reg[k] == (w'.reg - {s})[k] == (w.reg - {s})[k]; }
    }
    assert OthersDone(w', Some(s));
  }

  lemma CountsFromSlack(w: World, w': World)
    requires CountsCover(w) && w'.t.hashes.Keys <= w.t.hashes.Keys
    requires forall id | id in w'.t.hashes :: Slack(w', id) >= Slack(w, id)
    ensures CountsCover(w')
  {
  }

  lemma ClosedLike(h: HashRows, h': HashRows)
    requires Closed(h) && h'.Keys == h.Keys
    requires forall id | id in h :: h'[id].childs == h[id].childs && h'[id].height == h[id].height
    ensures Closed(h')
  {
  }

  lemma DeregisteredRows(h: HashRows, final: Id, refs: set<Id>)
    requires Calm(h) && final in refs && refs <= h.Keys && Tagged(h, Reserved) == refs
    ensures var r := Deregistered(h, final);
      && r.Keys == h.Keys && Flagged(r, final, ReadyDelete)
      && forall id | id in h ::
           r[id].(tag := h[id].tag) == h[id].(count := h[id].count - (if id in refs then 1 else 0))
  {
  }

  lemma DroppingRows(w: World, s: Sid, top: Top)
    requires InPhase(w, Deleting(s)) && w.t.snaps[s].top == Some(top)
    ensures InPhase(World(Dropping(w.t, s, top), w.reg), Deleting(s))
    ensures Tagged(Dropping(w.t, s, top).hashes, Reserved) == top.refs <= w.t.hashes.Keys
    ensures SameGraph(w.t.hashes, Dropping(w.t, s, top).hashes) && Dropping(w.t, s, top).snaps == w.t.snaps
  {
    hide RefCount, CountsCover, OthersDone, Closed, Dropping;
    var h := Dropping(w.t, s, top).hashes;
    DroppingTables(w.t, s, top);
    RetagKeepsBase(w, Some(s), h);
  }

  lemma DroppingTables(t: Tables, s: Sid, top: Top)
    requires s in t.snaps && t.snaps[s].tag == WillDelete && top.refs <= t.hashes.Keys
    ensures var d := Dropping(t, s, top);
      && SameGraph(t.hashes, d.hashes) && d.snaps == t.snaps
      && Calm(d.hashes) && Tagged(d.hashes, Reserved) == top.refs && d == t.(hashes := d.hashes)
  {
    assert SnapTag(t, s, WillDelete) == t;
  }

  /** The deregistration becomes durable in one state, and no row gains or loses slack. */
  lemma DroppedDeregisters(w: World, s: Sid, top: Top)
    requires InPhase(w, Deleting(s)) && w.t.snaps[s].top == Some(top)
    ensures var w' := World(Dropped(w.t, s, top), w.reg - {s});
      && InPhase(w', Forgetting(s))
      && w'.t.hashes.Keys == w.t.hashes.Keys
      && forall id | id in w.t.hashes :: Slack(w', id) == Slack(w, id)
  {
    hide Base, RefCount, Deregistered;
    DroppingRows(w, s, top);
    var d1 := World(Dropping(w.t, s, top), w.reg);
    var w' := World(Dropped(w.t, s, top), w.reg - {s});
    assert d1.t.snaps == w.t.snaps && top.refs <= d1.t.hashes.Keys;
    DeregisteredRows(d1.t.hashes, top.id, top.refs);
    forall id | id in w.t.hashes
      ensures Slack(w', id) == Slack(w, id)
    {
      RefCountRemove(w.reg, s, id);
    }
    RecountedBase(d1, w', s);
  }

  // ---------------------------------------------------------------- finishing

  lemma CleanupKeepsBase(w: World, s: Sid)
    requires Base(w, Some(s))
    ensures Base(World(AllDone(w.t), w.reg), Some(s)) && Calm(AllDone(w.t).hashes)
    ensures SameGraph(w.t.hashes, AllDone(w.t).hashes)
  {
  }

  lemma SnapTagKeepsBase(w: World, s: Sid, tag: Tag)
    requires Base(w, Some(s)) && s in w.t.snaps
    ensures Base(World(SnapTag(w.t, s, tag), w.reg), Some(s))
    ensures SnapTag(w.t, s, tag).hashes == w.t.hashes
  {
  }

  /** No row carries a tag. */
  predicate Untagged(h: HashRows) {
    forall id | id in h :: h[id].tag == Done
  }

  lemma FinalizeStates(w: World, s: Sid)
    requires InPhase(w, Registering(s))
    ensures var f := FinalizeTrail(w.t, s);
      && InPhase(World(f[0], w.reg), Registering(s)) && InPhase(World(f[1], w.reg), Registering(s))
      && InPhase(World(f[2], w.reg), Restoring)
      && (NoRecovering(w) ==> InPhase(World(f[2], w.reg), Quiet))
      && f[2].snaps == SnapTag(w.t, s, Done).snaps && Untagged(f[2].hashes)
      && forall i | 0 <= i < 3 :: SameGraph(w.t.hashes, f[i].hashes)
  {
    hide Base, RefCount;
    var f := FinalizeTrail(w.t, s);
    SnapTagKeepsBase(w, s, Complete);
    CleanupKeepsBase(World(f[0], w.reg), s);
    SnapTagKeepsBase(World(f[1], w.reg), s, Done);
    FinishedBase(World(f[2], w.reg), s);
  }

  lemma FinishedBase(w: World, s: Sid)
    requires Base(w, Some(s)) && s in w.t.snaps && w.t.snaps[s].tag == Done && w.t.snaps[s].top.Some? && s in w.reg
    requires w.reg[s] == w.t.snaps[s].top.value.refs && w.t.snaps[s].top.value.id in w.reg[s]
    ensures Base(w, None)
  {
  }

  lemma RemovedBase(w: World, s: Sid)
    requires Base(w, Some(s)) && s !in w.reg
    ensures Base(World(Removed(w.t, s), w.reg), None)
  {
  }

  lemma DropStates(w: World, s: Sid)
    requires InPhase(w, Forgetting(s))
    ensures var f := DropTrail(w.t, s);
      && InPhase(World(f[0], w.reg), Forgetting(s)) && InPhase(World(f[1], w.reg), Forgetting(s))
      && InPhase(World(f[2], w.reg), Quiet) && Untagged(f[2].hashes)
      && forall i | 0 <= i < 3 :: SameGraph(w.t.hashes, f[i].hashes)
  {
    hide Base, RefCount;
    var f := DropTrail(w.t, s);
    SnapTagKeepsBase(w, s, ReadyDelete);
    CleanupKeepsBase(World(f[0], w.reg), s);
    RemovedBase(World(f[1], w.reg), s);
  }

  lemma StartDeleting(w: World, s: Sid)
    requires InPhase(w, Deleting(s)) || (InPhase(w, Quiet) && s in w.t.snaps)
    ensures InPhase(World(SnapTag(w.t, s, WillDelete), w.reg), Deleting(s))
  {
    if InPhase(w, Deleting(s)) {
      assert SnapTag(w.t, s, WillDelete) == w.t;
    }
  }

  // ---------------------------------------------------------------- recovering

  lemma FoundKeeps(w: World, found: map<Sid, Top>)
    requires InPhase(w, Quiet) && forall k | k in found :: found[k].id in found[k].refs
    ensures InPhase(World(WithFound(w.t, found), w.reg), Restoring)
  {
    var w' := World(WithFound(w.t, found), w.reg);
    forall k | k in w'.t.snaps
      ensures Finished(w', k) || Recoverable(w', k)
    {
      if k in w.t.snaps { assert Finished(w, k) || Recoverable(w, k); }
    }
  }

  lemma RecoverableBase(w: World, s: Sid)
    requires Base(w, None) && s in w.t.snaps && w.t.snaps[s].tag == RecoverInProgress
    ensures Recoverable(w, s) && Base(w, Some(s))
  {
    assert Finished(w, s) || Recoverable(w, s);
  }

  lemma RemarkedRows(t: Tables, plan: Plan)
    requires plan.top.refs <= DoSteps(t.hashes, plan.steps).Keys && plan.top.id in plan.top.refs
    ensures var m := Remarked(t, plan);
      && SameGraph(DoSteps(t.hashes, plan.steps), m.hashes) && Calm(m.hashes) && m.snaps == t.snaps
      && ToCount(m.hashes, plan.top.id) == plan.top.refs
  {
    hide DoSteps;
  }

  /** A recovered snapshot takes effect in one durable state, and no row gains or loses a surplus: its
      walk clears the tags before it sets its own. */
  lemma RecoveredRegisters(w: World, s: Sid, top: Top)
    requires InPhase(w, Restoring) && s in w.t.snaps && w.t.snaps[s] == SnapRow(RecoverInProgress, Some(top))
    requires forall k | k in w.t.snaps && w.t.snaps[k].tag == RecoverInProgress :: s <= k
    requires top.refs <= w.t.hashes.Keys && ToCount(w.t.hashes, top.id) == top.refs
    ensures var w' := World(SnapTag(Counted(w.t, top.id), s, Complete), w.reg[s := top.refs]);
      && InPhase(w', Registering(s)) && MoreSlack(w, w', {})
      && FinalizeTrail(w'.t, s) == FinalizeTrail(Counted(w.t, top.id), s)
  {
    hide Base, RefCount, Registered;
    RecoverableBase(w, s);
    CountedBase(w, s, top);
    var c := World(Counted(w.t, top.id), w.reg[s := top.refs]);
    SnapTagKeepsBase(c, s, Complete);
    CompleteTwice(c.t, s);
    assert ToCount(w.t.hashes, top.id) - top.refs == {};
    assert forall id | id in c.t.hashes :: Slack(World(SnapTag(c.t, s, Complete), c.reg), id) == Slack(c, id);
  }

  lemma CompleteTwice(t: Tables, s: Sid)
    ensures FinalizeTrail(SnapTag(t, s, Complete), s) == FinalizeTrail(t, s)
  {
    assert SnapTag(SnapTag(t, s, Complete), s, Complete) == SnapTag(t, s, Complete);
  }
}
