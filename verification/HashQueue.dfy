/**
  The hash index as a state machine: a table of hash rows, its durable copy, and the queue of hashes
  whose blobs have not been stored yet.

  Rows become `ready` strictly in id order. That is what lets a crash keep exactly the ready rows and
  still have every child of every row.
*/
module HashQueue {
  import opened Common
  import opened HashTypes
  import opened OrderedCollection
  import opened UniquePriorityQueue

  datatype Entry = Entry(hash: Bytes, node: nat, leaf: LeafType, childs: Option<seq<nat>>, pref: Option<ChunkRef>)

  datatype QueueEntry = QueueEntry(id: nat, node: nat, leaf: LeafType, childs: Option<seq<nat>>, pref: Option<ChunkRef>)

  datatype IndexRow =
    IndexRow(hash: Bytes, node: nat, leaf: LeafType, childs: Option<seq<nat>>, pref: Option<ChunkRef>, ready: bool)

  type Rows = map<nat, IndexRow>

  type Pending = Items<Bytes, QueueEntry>

  /** `disk` is what a crash leaves of `rows`; the queue and the id counter are volatile. */
  datatype IndexState = IndexState(rows: Rows, disk: Rows, queue: Pending, counter: nat)

  datatype Step =
    | Reserve(entry: Entry, fired: bool)
    | Update(id: nat, entry: Entry)
    | Commit(id: nat, update: Option<Entry>, fired: bool)
    | Flush
    | Crash

  // ---------------------------------------------------------------- what the steps do

  function Flushed(s: IndexState, fired: bool): IndexState {
    if fired then s.(disk := s.rows) else s
  }

  function NewRow(e: Entry): IndexRow {
    IndexRow(e.hash, e.node, e.leaf, e.childs, e.pref, false)
  }

  function NewEntry(id: nat, e: Entry): QueueEntry {
    QueueEntry(id, e.node, e.leaf, e.childs, e.pref)
  }

  function Reserved(s: IndexState, e: Entry): IndexState {
    var id := s.counter + 1;
    s.(rows := s.rows[id := NewRow(e)], queue := s.queue[id := Item(Status.Pending, e.hash, NewEntry(id, e))],
      counter := id)
  }

  function Updated(queue: Pending, id: nat, e: Entry): Pending
    requires id in queue
  {
    queue[id := queue[id].(value := QueueEntry(queue[id].value.id, e.node, e.leaf, e.childs, e.pref))]
  }

  function Readied(queue: Pending, id: nat): Pending
    requires id in queue
  {
    queue[id := queue[id].(status := Ready)]
  }

  /** The entries with nothing unfinished before them: these are published. */
  ghost function Front(queue: Pending): set<nat> {
    set p | p in queue && forall q | q in queue && q <= p :: queue[q].status == Ready
  }

  function Published(row: IndexRow, e: QueueEntry): IndexRow {
    IndexRow(row.hash, e.node, e.leaf, e.childs, e.pref, true)
  }

  ghost function Publish(rows: Rows, queue: Pending): Rows {
    map id | id in rows :: if id in queue && id in Front(queue) then Published(rows[id], queue[id].value) else rows[id]
  }

  ghost function Drained(s: IndexState): IndexState {
    s.(rows := Publish(s.rows, s.queue), queue := s.queue - Front(s.queue))
  }

  function ReadyRows(rows: Rows): Rows {
    map id | id in rows && rows[id].ready :: rows[id]
  }

  /** The largest id in use, 0 if there is none. */
  ghost predicate IsMaxId(rows: Rows, n: nat) {
    (forall id | id in rows :: id <= n) && (n == 0 || n in rows)
  }

  ghost predicate Located(s: IndexState, hash: Bytes) {
    exists id :: id in s.rows && s.rows[id].hash == hash
  }

  /** The assertions the code makes about its callers. */
  ghost predicate Enabled(s: IndexState, step: Step) {
    match step
    case Reserve(e, _) => e.hash != [] && !Located(s, e.hash)
    case Update(id, e) => id in s.queue && s.queue[id].key == e.hash && (s.queue[id].status == Ready ==> e.pref.Some?)
    case Commit(id, Some(e), _) => id in s.queue && s.queue[id].key == e.hash && e.pref.Some?
    case Commit(id, None, _) => id in s.queue && s.queue[id].value.pref.Some?
    case _ => true
  }

  ghost predicate Next(s: IndexState, step: Step, s': IndexState) {
    && Enabled(s, step)
    && match step
       case Reserve(e, fired) => s' == Reserved(Flushed(s, fired), e)
       case Update(id, e) => s' == s.(queue := Updated(s.queue, id, e))
       case Commit(id, update, fired) =>
         var queue := if update.Some? then Updated(s.queue, id, update.value) else s.queue;
         s' == Flushed(Drained(s.(queue := Readied(queue, id))), fired)
       case Flush => s' == Flushed(s, true)
       case Crash => s' == IndexState(ReadyRows(s.disk), s.disk, map[], s'.counter) && IsMaxId(s.disk, s'.counter)
  }

  // ---------------------------------------------------------------- the invariant

  ghost predicate RowsOk(rows: Rows, counter: nat) {
    && (forall a, b | a in rows && b in rows && rows[a].hash == rows[b].hash :: a == b)
    && (forall a, b | a in rows && b in rows && rows[a].ready && !rows[b].ready :: a < b)
    && (forall a | a in rows :: a <= counter && (rows[a].ready ==> rows[a].pref.Some?))
  }

  ghost predicate QueueOk(rows: Rows, queue: Pending) {
    && (forall id :: id in queue <==> id in rows && !rows[id].ready)
    && (forall id | id in queue :: queue[id].key == rows[id].hash && queue[id].value.id == id)
    && (forall id | id in queue && queue[id].status == Ready :: queue[id].value.pref.Some?)
  }

  ghost predicate Inv(s: IndexState) {
    RowsOk(s.rows, s.counter) && RowsOk(s.disk, s.counter) && QueueOk(s.rows, s.queue) && Front(s.queue) == {}
  }

  function Childs(c: Option<seq<nat>>): seq<nat> {
    if c.Some? then c.value else []
  }

  /** All listed children are rows issued earlier. */
  ghost predicate ChildsKnown(rows: Rows) {
    forall id | id in rows :: forall c | c in Childs(rows[id].childs) :: c in rows && c < id
  }

  ghost predicate QueueChildsKnown(rows: Rows, queue: Pending) {
    forall id | id in queue :: forall c | c in Childs(queue[id].value.childs) :: c in rows && c < id
  }

  ghost predicate Nested(s: IndexState) {
    ChildsKnown(s.rows) && ChildsKnown(s.disk) && QueueChildsKnown(s.rows, s.queue)
  }

  /** The step lists only children that were issued before, as a tree writer does. */
  ghost predicate StepNested(s: IndexState, step: Step) {
    match step
    case Reserve(e, _) => forall c | c in Childs(e.childs) :: c in s.rows
    case Update(id, e) => forall c | c in Childs(e.childs) :: c in s.rows && c < id
    case Commit(id, Some(e), _) => forall c | c in Childs(e.childs) :: c in s.rows && c < id
    case _ => true
  }

  // ---------------------------------------------------------------- every step keeps it

  lemma FrontFacts(queue: Pending)
    ensures forall p, q | p in Front(queue) && q in queue && q <= p :: q in Front(queue)
    ensures forall p, q | p in Front(queue) && q in queue && q !in Front(queue) :: p < q
    ensures Front(queue - Front(queue)) == {}
  {
    var rest := queue - Front(queue);
    forall p | p in rest
      ensures p !in Front(rest)
    {
      var q :| q in queue && q <= p && queue[q].status != Ready;
      assert q in rest;
    }
  }

  lemma DrainKeeps(rows: Rows, queue: Pending, counter: nat)
    requires RowsOk(rows, counter) && QueueOk(rows, queue)
    ensures RowsOk(Publish(rows, queue), counter) && QueueOk(Publish(rows, queue), queue - Front(queue))
    ensures Front(queue - Front(queue)) == {}
  {
    hide Front, RowsOk, QueueOk, Publish;
    FrontFacts(queue);
    DrainRows(rows, queue, counter);
    DrainQueue(rows, queue);
  }

  lemma DrainQueue(rows: Rows, queue: Pending)
    requires QueueOk(rows, queue)
    ensures QueueOk(Publish(rows, queue), queue - Front(queue))
  {
    hide Front;
    FrontAreReady(queue);
  }

  lemma DrainRows(rows: Rows, queue: Pending, counter: nat)
    requires RowsOk(rows, counter) && QueueOk(rows, queue)
    ensures RowsOk(Publish(rows, queue), counter)
  {
    hide Front;
    FrontFacts(queue);
    FrontAreReady(queue);
    forall a, b | a in rows && b in rows && Publish(rows, queue)[a].ready && !Publish(rows, queue)[b].ready
      ensures a < b
    {
      assert b in queue && b !in Front(queue);
    }
  }

  lemma FrontAreReady(queue: Pending)
    ensures forall p | p in Front(queue) :: p in queue && queue[p].status == Ready
  {
  }

  lemma DrainNested(rows: Rows, queue: Pending)
    requires ChildsKnown(rows) && QueueChildsKnown(rows, queue)
    ensures ChildsKnown(Publish(rows, queue)) && QueueChildsKnown(Publish(rows, queue), queue - Front(queue))
  {
  }

  lemma NewRowOk(rows: Rows, counter: nat, row: IndexRow)
    requires RowsOk(rows, counter) && !row.ready && forall id | id in rows :: rows[id].hash != row.hash
    ensures RowsOk(rows[counter + 1 := row], counter + 1)
  {
  }

  lemma NewItemOk(rows: Rows, queue: Pending, id: nat, e: Entry)
    requires QueueOk(rows, queue) && id !in rows
    ensures QueueOk(rows[id := NewRow(e)], queue[id := Item(Status.Pending, e.hash, NewEntry(id, e))])
  {
  }

  lemma NewItemFront(queue: Pending, id: nat, item: Item<Bytes, QueueEntry>)
    requires Front(queue) == {} && item.status == Status.Pending && forall q | q in queue :: q < id
    ensures Front(queue[id := item]) == {}
  {
    forall p | p in queue
      ensures p !in Front(queue[id := item])
    {
      assert p !in Front(queue);
      var q :| q in queue && q <= p && queue[q].status != Ready;
      assert q in queue[id := item] && queue[id := item][q] == queue[q];
    }
  }

  lemma NewRowNested(rows: Rows, queue: Pending, id: nat, e: Entry)
    requires ChildsKnown(rows) && QueueChildsKnown(rows, queue) && forall q | q in rows :: q < id
    requires forall c | c in Childs(e.childs) :: c in rows
    ensures ChildsKnown(rows[id := NewRow(e)])
    ensures QueueChildsKnown(rows[id := NewRow(e)], queue[id := Item(Status.Pending, e.hash, NewEntry(id, e))])
  {
  }

  lemma CountersGrow(rows: Rows, n: nat, m: nat)
    requires RowsOk(rows, n) && n <= m
    ensures RowsOk(rows, m)
  {
  }

  lemma AllBelow(rows: Rows, queue: Pending, counter: nat)
    requires RowsOk(rows, counter) && QueueOk(rows, queue)
    ensures forall q | q in rows :: q < counter + 1
    ensures forall q | q in queue :: q < counter + 1
  {
  }

  lemma ReserveKeeps(s: IndexState, e: Entry)
    requires Inv(s) && !Located(s, e.hash)
    ensures Inv(Reserved(s, e))
    ensures Nested(s) && (forall c | c in Childs(e.childs) :: c in s.rows) ==> Nested(Reserved(s, e))
  {
    hide RowsOk, QueueOk, Front, ChildsKnown, QueueChildsKnown;
    var id := s.counter + 1;
    AllBelow(s.rows, s.queue, s.counter);
    NewRowOk(s.rows, s.counter, NewRow(e));
    CountersGrow(s.disk, s.counter, id);
    NewItemOk(s.rows, s.queue, id, e);
    NewItemFront(s.queue, id, Item(Status.Pending, e.hash, NewEntry(id, e)));
    if Nested(s) && forall c | c in Childs(e.childs) :: c in s.rows { NewRowNested(s.rows, s.queue, id, e); }
  }

  lemma UpdateFront(queue: Pending, id: nat, e: Entry)
    requires id in queue
    ensures Front(Updated(queue, id, e)) == Front(queue)
  {
    var queue' := Updated(queue, id, e);
    assert queue'.Keys == queue.Keys;
    assert forall p | p in queue :: queue'[p].status == queue[p].status;
  }

  lemma UpdateNested(rows: Rows, queue: Pending, id: nat, e: Entry)
    requires QueueChildsKnown(rows, queue) && id in queue && forall c | c in Childs(e.childs) :: c in rows && c < id
    ensures QueueChildsKnown(rows, Updated(queue, id, e))
  {
  }

  lemma UpdateKeeps(s: IndexState, id: nat, e: Entry)
    requires QueueOk(s.rows, s.queue)
    requires Enabled(s, Update(id, e))
    ensures QueueOk(s.rows, Updated(s.queue, id, e)) && Front(Updated(s.queue, id, e)) == Front(s.queue)
    ensures QueueChildsKnown(s.rows, s.queue) && StepNested(s, Update(id, e)) ==>
      QueueChildsKnown(s.rows, Updated(s.queue, id, e))
  {
    UpdateFront(s.queue, id, e);
    hide Front;
    if QueueChildsKnown(s.rows, s.queue) && StepNested(s, Update(id, e)) { UpdateNested(s.rows, s.queue, id, e); }
  }

  lemma CommitKeeps(s: IndexState, id: nat, update: Option<Entry>, fired: bool, s': IndexState)
    requires Inv(s) && Next(s, Commit(id, update, fired), s')
    ensures Inv(s')
    ensures Nested(s) && StepNested(s, Commit(id, update, fired)) ==> Nested(s')
  {
    hide RowsOk, Front, ChildsKnown, QueueChildsKnown;
    var queue := if update.Some? then Updated(s.queue, id, update.value) else s.queue;
    if update.Some? { UpdateKeeps(s, id, update.value); }
    ReadyKeeps(s.rows, queue, id);
    DrainKeeps(s.rows, Readied(queue, id), s.counter);
    if Nested(s) && StepNested(s, Commit(id, update, fired)) { DrainNested(s.rows, Readied(queue, id)); }
  }

  lemma ReadyKeeps(rows: Rows, queue: Pending, id: nat)
    requires QueueOk(rows, queue) && id in queue && queue[id].value.pref.Some?
    ensures QueueOk(rows, Readied(queue, id))
    ensures QueueChildsKnown(rows, queue) ==> QueueChildsKnown(rows, Readied(queue, id))
  {
    if QueueChildsKnown(rows, queue) { ReadyNested(rows, queue, id); }
  }

  lemma ReadyNested(rows: Rows, queue: Pending, id: nat)
    requires QueueChildsKnown(rows, queue) && id in queue
    ensures QueueChildsKnown(rows, Readied(queue, id))
  {
  }

  lemma NextInv(s: IndexState, step: Step, s': IndexState)
    requires Inv(s) && Next(s, step, s')
    ensures Inv(s')
    ensures Nested(s) && StepNested(s, step) ==> Nested(s')
  {
    match step
    case Reserve(e, fired) =>
      assert Inv(Flushed(s, fired)) && (Nested(s) ==> Nested(Flushed(s, fired)));
      ReserveKeeps(Flushed(s, fired), e);
    case Update(id, e) => UpdateKeeps(s, id, e);
    case Commit(id, update, fired) => CommitKeeps(s, id, update, fired, s');
    case Flush =>
    case Crash => CrashKeeps(s, s'.counter);
  }

  lemma CrashKeeps(s: IndexState, counter: nat)
    requires Inv(s) && IsMaxId(s.disk, counter)
    ensures Inv(IndexState(ReadyRows(s.disk), s.disk, map[], counter))
    ensures ChildsKnown(s.disk) ==> ChildsKnown(ReadyRows(s.disk))
  {
    if ChildsKnown(s.disk) { ReadyClosed(s.disk, s.counter); }
  }

  /** A ready row's children are ready: they were issued earlier. */
  lemma ReadyClosed(rows: Rows, counter: nat)
    requires RowsOk(rows, counter) && ChildsKnown(rows)
    ensures ChildsKnown(ReadyRows(rows))
  {
  }

  // ---------------------------------------------------------------- every interleaving

  ghost predicate Run(ss: seq<IndexState>, steps: seq<Step>) {
    && |ss| == |steps| + 1
    && ss[0] == IndexState(map[], map[], map[], 0)
    && forall i | 0 <= i < |steps| :: Next(ss[i], steps[i], ss[i + 1])
  }

  /** In every state of every interleaving: each ready row's id is below every queued id, and the queued
      ids are exactly the rows that are not ready. */
  lemma {:induction false} RunInv(ss: seq<IndexState>, steps: seq<Step>, i: nat)
    requires Run(ss, steps) && i < |ss|
    ensures Inv(ss[i])
    ensures (forall j | 0 <= j < i :: StepNested(ss[j], steps[j])) ==> Nested(ss[i])
    ensures forall a, q | a in ss[i].rows && ss[i].rows[a].ready && q in ss[i].queue :: a < q
    ensures ss[i].queue.Keys == set id | id in ss[i].rows && !ss[i].rows[id].ready
  {
    hide Inv, Next, Nested, StepNested;
    if i == 0 {
      EmptyOk();
    } else {
      RunInv(ss, steps, i - 1);
      assert Next(ss[i - 1], steps[i - 1], ss[i]);
      NextInv(ss[i - 1], steps[i - 1], ss[i]);
    }
    QueuedIds(ss[i]);
  }

  lemma EmptyOk()
    ensures Inv(IndexState(map[], map[], map[], 0)) && Nested(IndexState(map[], map[], map[], 0))
  {
  }

  lemma QueuedIds(s: IndexState)
    requires Inv(s)
    ensures forall a, q | a in s.rows && s.rows[a].ready && q in s.queue :: a < q
    ensures s.queue.Keys == set id | id in s.rows && !s.rows[id].ready
  {
  }

  /** After a crash at any point of any interleaving, every surviving row is ready, knows where its data
      is, and lists only surviving rows as children. */
  lemma SurvivorsClosed(ss: seq<IndexState>, steps: seq<Step>, i: nat)
    requires Run(ss, steps) && i < |steps| && steps[i] == Crash
    requires forall j | 0 <= j < |steps| :: StepNested(ss[j], steps[j])
    ensures var rows, disk := ss[i + 1].rows, ss[i].disk;
      && (forall id :: id in rows <==> id in disk && disk[id].ready)
      && forall id | id in rows ::
        && rows[id] == disk[id] && rows[id].pref.Some?
        && forall c | c in Childs(rows[id].childs) :: c in rows
  {
    RunInv(ss, steps, i + 1);
    assert Next(ss[i], steps[i], ss[i + 1]);
  }
}
