/**
  Inserting chunks: several blob stores share one hash index, and the steps of all calls interleave.

  A call reserves the hash, hands the data to its blob store, records where the data will be, and only
  then lets the callback run that publishes the row. Each pending hash is one entry of `work`.
*/
module InsertMachine {
  import opened Common
  import opened HashTypes
  import opened UniquePriorityQueue
  import opened HashQueue

  type StoreId = nat

  /** Where the callback of a stored chunk waits: with its blob, or released to run. */
  datatype Place = InBlob(store: StoreId) | Released

  /** How far the insertion of a pending hash got. While it is not `noted`, its call still holds the
      guard that keeps the callback from running. */
  datatype Work =
    | Storing(entry: Entry, empty: bool)
    | Stored(entry: Entry, empty: bool, pref: ChunkRef, place: Place, noted: bool)

  /** History: what `update_reserved` recorded about a hash. */
  datatype Note = Note(pref: ChunkRef, empty: bool)

  /** `stores` names the blob each store is filling; `accepted` are the blobs in external storage. */
  datatype State =
    State(index: IndexState, stores: map<StoreId, Bytes>, work: map<nat, Work>, accepted: set<Bytes>,
          notes: map<nat, Note>)

  datatype Action =
    | Start(entry: Entry, empty: bool, fired: bool)
    | StoreChunk(id: nat, store: StoreId, full: bool, next: Bytes, offset: nat, length: nat)
    | Record(id: nat)
    | Callback(id: nat, fired: bool)
    | FlushBlob(store: StoreId, next: Bytes)
    | FlushIndex
    | Restart(stores: map<StoreId, Bytes>)

  const EMPTY_NAME: Bytes := [0]

  /** Release every callback that waits with the blob of `store`. */
  function ReleaseAll(work: map<nat, Work>, store: StoreId): map<nat, Work> {
    map id | id in work ::
      if work[id].Stored? && work[id].place == InBlob(store) then work[id].(place := Released) else work[id]
  }

  /** The blob goes out, surrounded by two database flushes, and a new one is begun. */
  function BlobFlushed(s: State, store: StoreId, next: Bytes): State
    requires store in s.stores
  {
    s.(index := Flushed(s.index, true), stores := s.stores[store := next],
       work := ReleaseAll(s.work, store), accepted := s.accepted + {s.stores[store]})
  }

  predicate HasChunks(s: State, store: StoreId) {
    exists id :: id in s.work && s.work[id].Stored? && s.work[id].place == InBlob(store)
  }

  function Placed(s: State, id: nat, store: StoreId, offset: nat, length: nat): State
    requires id in s.work && store in s.stores
  {
    var w := s.work[id];
    var pref := if w.empty then ChunkRef(Some(0), EMPTY_NAME, 0, 0, None)
                else ChunkRef(Some(0), s.stores[store], offset, length, None);
    s.(work := s.work[id := Stored(w.entry, w.empty, pref, if w.empty then Released else InBlob(store), false)])
  }

  /** No two stores fill a blob of the same name. */
  ghost predicate DistinctNames(stores: map<StoreId, Bytes>) {
    forall a, b | a in stores && b in stores && stores[a] == stores[b] :: a == b
  }

  ghost predicate Enabled(s: State, a: Action) {
    match a
    case Start(e, _, _) => e.pref == None && HashQueue.Enabled(s.index, Reserve(e, false))
    case StoreChunk(id, store, full, next, _, length) =>
      && id in s.work && s.work[id].Storing? && store in s.stores
      && (!s.work[id].empty ==> length > 0)
      && (full ==> !s.work[id].empty && HasChunks(s, store) && next !in s.accepted && next !in s.stores.Values)
    case Record(id) => id in s.work && s.work[id].Stored? && !s.work[id].noted
    case Callback(id, _) => id in s.work && s.work[id].Stored? && s.work[id].noted && s.work[id].place == Released
    case FlushBlob(store, next) => store in s.stores && next !in s.accepted && next !in s.stores.Values
    case FlushIndex => true
    case Restart(stores) => stores.Values !! s.accepted && DistinctNames(stores)
  }

  ghost predicate Next(s: State, a: Action, s': State) {
    && Enabled(s, a)
    && match a
       case Start(e, empty, fired) =>
         && HashQueue.Next(s.index, Reserve(e, fired), s'.index)
         && s' == s.(index := s'.index, work := s.work[s'.index.counter := Storing(e, empty)])
       case StoreChunk(id, store, full, next, offset, length) =>
         s' == Placed(if full then BlobFlushed(s, store, next) else s, id, store, offset, length)
       case Record(id) =>
         var w := s.work[id];
         && HashQueue.Next(s.index, Update(id, w.entry.(pref := Some(w.pref))), s'.index)
         && s' == s.(index := s'.index, work := s.work[id := w.(noted := true)],
           notes := s.notes[id := Note(w.pref, w.empty)])
       case Callback(id, fired) =>
         && HashQueue.Next(s.index, Commit(id, None, fired), s'.index)
         && s' == s.(index := s'.index, work := s.work - {id})
       case FlushBlob(store, next) => s' == if HasChunks(s, store) then BlobFlushed(s, store, next) else s
       case FlushIndex => s' == s.(index := Flushed(s.index, true))
       case Restart(stores) =>
         && HashQueue.Next(s.index, Crash, s'.index)
         && s' == State(s'.index, stores, map[], s.accepted, s.notes)
  }

  // ---------------------------------------------------------------- the invariant

  /** `pref` was recorded by `update_reserved`, and the data it names, if any, is in an accepted blob. */
  ghost predicate Safe(s: State, id: nat, pref: Option<ChunkRef>) {
    && id in s.notes && pref == Some(s.notes[id].pref)
    && (s.notes[id].empty <==> s.notes[id].pref.length == 0)
    && (!s.notes[id].empty ==> s.notes[id].pref.blobName in s.accepted)
  }

  ghost predicate PlaceOk(s: State, w: Work) {
    w.Stored? ==>
      && (w.empty <==> w.pref.length == 0)
      && match w.place
         case InBlob(store) => !w.empty && store in s.stores && s.stores[store] == w.pref.blobName
         case Released => !w.empty ==> w.pref.blobName in s.accepted
  }

  ghost predicate WorkOk(s: State, id: nat) {
    && id in s.work && id in s.index.queue
    && var w := s.work[id]; var item := s.index.queue[id];
    && item.status == Status.Pending && item.key == w.entry.hash && item.value.childs == w.entry.childs
    && PlaceOk(s, w)
    && (w.Stored? && w.noted ==>
          item.value.pref == Some(w.pref) && id in s.notes && s.notes[id] == Note(w.pref, w.empty))
  }

  /** Durable ready rows are still there unchanged. */
  ghost predicate DiskBehind(x: IndexState) {
    forall id | id in x.disk && x.disk[id].ready :: id in x.rows && x.rows[id] == x.disk[id]
  }

  ghost predicate RowsSafe(s: State) {
    forall id | id in s.index.rows && s.index.rows[id].ready :: Safe(s, id, s.index.rows[id].pref)
  }

  ghost predicate QueueSafe(s: State) {
    forall id | id in s.index.queue && s.index.queue[id].status == Ready :: Safe(s, id, s.index.queue[id].value.pref)
  }

  ghost predicate AllWorkOk(s: State) {
    && (forall id | id in s.work :: WorkOk(s, id))
    && (forall id | id in s.index.queue && s.index.queue[id].status == Status.Pending :: id in s.work)
  }

  ghost predicate Good(s: State) {
    Inv(s.index) && DiskBehind(s.index) && AllWorkOk(s) && QueueSafe(s) && RowsSafe(s)
  }

  // ---------------------------------------------------------------- every step keeps it

  /** The work on one hash stays in order as long as nothing that concerns it changes. */
  lemma WorkLike(s: State, s': State, id: nat)
    requires WorkOk(s, id) && id in s'.work && s'.work[id] == s.work[id]
    requires id in s'.index.queue && s'.index.queue[id] == s.index.queue[id]
    requires s'.stores == s.stores && s.accepted <= s'.accepted
    requires id in s.notes ==> id in s'.notes && s'.notes[id] == s.notes[id]
    ensures WorkOk(s', id)
  {
  }

  lemma SafeLike(s: State, s': State, id: nat, pref: Option<ChunkRef>)
    requires Safe(s, id, pref) && s.accepted <= s'.accepted && id in s'.notes && s'.notes[id] == s.notes[id]
    ensures Safe(s', id, pref)
  {
  }

  lemma StartFacts(x: IndexState, e: Entry, fired: bool, y: IndexState)
    requires Inv(x) && HashQueue.Next(x, Reserve(e, fired), y)
    ensures Inv(y)
    ensures var id := y.counter;
      && id !in x.rows && id !in x.queue
      && y.rows == x.rows[id := NewRow(e)] && y.queue == x.queue[id := Item(Status.Pending, e.hash, NewEntry(id, e))]
  {
    NextInv(x, Reserve(e, fired), y);
    AllBelow(x.rows, x.queue, x.counter);
  }

  lemma StartWork(s: State, e: Entry, empty: bool, id: nat, s': State)
    requires AllWorkOk(s) && id !in s.index.queue
    requires s'.index.queue == s.index.queue[id := Item(Status.Pending, e.hash, NewEntry(id, e))]
    requires s' == s.(index := s'.index, work := s.work[id := Storing(e, empty)])
    ensures AllWorkOk(s')
  {
  }

  lemma StartSafe(s: State, e: Entry, id: nat, s': State)
    requires QueueSafe(s) && RowsSafe(s) && s'.notes == s.notes && s'.accepted == s.accepted
    requires s'.index.rows == s.index.rows[id := NewRow(e)]
    requires s'.index.queue == s.index.queue[id := Item(Status.Pending, e.hash, NewEntry(id, e))]
    ensures QueueSafe(s') && RowsSafe(s')
  {
  }

  lemma StartKeeps(s: State, e: Entry, empty: bool, fired: bool, s': State)
    requires Good(s) && Next(s, Start(e, empty, fired), s')
    ensures Good(s')
  {
    hide Inv, DiskBehind, AllWorkOk, QueueSafe, RowsSafe, Reserved, HashQueue.Next;
    StartFacts(s.index, e, fired, s'.index);
    StartWork(s, e, empty, s'.index.counter, s');
    StartSafe(s, e, s'.index.counter, s');
    StartDisk(s.index, e, fired, s'.index);
  }

  lemma StartDisk(x: IndexState, e: Entry, fired: bool, y: IndexState)
    requires Inv(x) && DiskBehind(x) && HashQueue.Next(x, Reserve(e, fired), y)
    ensures DiskBehind(y)
  {
  }

  /** More accepted blobs, and the same index, keep all that was safe safe. */
  lemma AcceptKeeps(s: State, s': State)
    requires QueueSafe(s) && RowsSafe(s) && s'.index.rows == s.index.rows && s'.index.queue == s.index.queue
    requires s.accepted <= s'.accepted && s'.notes == s.notes
    ensures QueueSafe(s') && RowsSafe(s')
  {
  }

  lemma FlushedIndex(x: IndexState)
    requires Inv(x) && DiskBehind(x)
    ensures Inv(HashQueue.Flushed(x, true)) && DiskBehind(HashQueue.Flushed(x, true))
  {
  }

  lemma BlobFlushKeeps(s: State, store: StoreId, next: Bytes)
    requires Good(s) && store in s.stores
    ensures Good(BlobFlushed(s, store, next))
  {
    hide Inv, DiskBehind, QueueSafe, RowsSafe;
    var s' := BlobFlushed(s, store, next);
    FlushedIndex(s.index);
    AcceptKeeps(s, s');
    forall id | id in s'.work
      ensures WorkOk(s', id)
    {
      assert WorkOk(s, id);
    }
  }

  lemma PlaceKeeps(s: State, id: nat, store: StoreId, offset: nat, length: nat)
    requires Good(s) && id in s.work && s.work[id].Storing? && store in s.stores && (!s.work[id].empty ==> length > 0)
    ensures Good(Placed(s, id, store, offset, length))
  {
    hide Inv, DiskBehind;
    var s' := Placed(s, id, store, offset, length);
    AcceptKeeps(s, s');
    forall k | k in s'.work
      ensures WorkOk(s', k)
    {
      assert WorkOk(s, k);
    }
  }

  lemma RecordWork(s: State, id: nat, s': State)
    requires AllWorkOk(s) && Next(s, Record(id), s')
    ensures AllWorkOk(s')
  {
    forall k | k in s'.work
      ensures WorkOk(s', k)
    {
      assert WorkOk(s, k);
      if k != id { WorkLike(s, s', k); }
    }
  }

  lemma RecordSafe(s: State, id: nat, s': State)
    requires QueueSafe(s) && RowsSafe(s) && AllWorkOk(s) && Next(s, Record(id), s')
    requires id in s.index.rows && !s.index.rows[id].ready
    ensures QueueSafe(s') && RowsSafe(s')
  {
    assert WorkOk(s, id);
    forall k, pref | Safe(s, k, pref) && k != id
      ensures Safe(s', k, pref)
    {
      SafeLike(s, s', k, pref);
    }
  }

  lemma RecordKeeps(s: State, id: nat, s': State)
    requires Good(s) && Next(s, Record(id), s')
    ensures Good(s')
  {
    var w := s.work[id];
    NextInv(s.index, Update(id, w.entry.(pref := Some(w.pref))), s'.index);
    PendingRow(s, id);
    hide Inv, QueueSafe, RowsSafe, AllWorkOk;
    RecordWork(s, id, s');
    RecordSafe(s, id, s');
  }

  lemma PendingRow(s: State, id: nat)
    requires Good(s) && id in s.work
    ensures id in s.index.rows && !s.index.rows[id].ready && id in s.index.queue
  {
  }

  lemma CallbackWork(s: State, id: nat, s': State)
    requires AllWorkOk(s) && id in s.index.queue && s'.work == s.work - {id}
    requires s' == s.(index := s'.index, work := s'.work)
    requires var q := Readied(s.index.queue, id);
      s'.index.queue == q - Front(q) && forall k | k in s.work && k != id :: k in q && k !in Front(q)
    ensures AllWorkOk(s')
  {
    forall k | k in s'.work
      ensures WorkOk(s', k)
    {
      assert WorkOk(s, k);
      WorkLike(s, s', k);
    }
  }

  lemma CallbackKeeps(s: State, id: nat, fired: bool, s': State)
    requires Good(s) && Next(s, Callback(id, fired), s')
    ensures Good(s')
  {
    hide Inv, DiskBehind, AllWorkOk, QueueSafe, RowsSafe, Publish, Front, HashQueue.Next, Drained;
    PendingRow(s, id);
    var q := Readied(s.index.queue, id);
    CallbackIndex(s.index, id, fired, s'.index);
    CallbackRows(s, id, q);
    CallbackStays(s, id, q);
    CallbackWork(s, id, s');
    CallbackSafe(s, s', q);
  }

  lemma CallbackIndex(x: IndexState, id: nat, fired: bool, y: IndexState)
    requires Inv(x) && DiskBehind(x) && HashQueue.Next(x, Commit(id, None, fired), y)
    ensures id in x.queue && Inv(y) && DiskBehind(y)
    ensures var q := Readied(x.queue, id); y.rows == Publish(x.rows, q) && y.queue == q - Front(q)
  {
    hide Inv, DiskBehind, Publish, Front, Located;
    NextInv(x, Commit(id, None, fired), y);
    CallbackDisk(x, Readied(x.queue, id), fired, y);
  }

  lemma CallbackSafe(s: State, s': State, q: Pending)
    requires s'.notes == s.notes && s'.accepted == s.accepted
    requires s'.index.rows == Publish(s.index.rows, q) && s'.index.queue == q - Front(q)
    requires forall k | k in q && q[k].status == Ready :: Safe(s, k, q[k].value.pref)
    requires forall k | k in s.index.rows && Publish(s.index.rows, q)[k].ready ::
      Safe(s, k, Publish(s.index.rows, q)[k].pref)
    ensures QueueSafe(s') && RowsSafe(s')
  {
  }

  /** Entries still being worked on are not published. */
  lemma CallbackStays(s: State, id: nat, q: Pending)
    requires AllWorkOk(s) && id in s.index.queue && q == Readied(s.index.queue, id)
    ensures forall k | k in s.work && k != id :: k in q && k !in Front(q)
  {
  }

  /** What is ready after the callback, in the queue or published by it, was recorded and accepted. */
  lemma CallbackRows(s: State, id: nat, q: Pending)
    requires Good(s) && id in s.work && s.work[id].Stored? && s.work[id].noted && s.work[id].place == Released
    requires id in s.index.queue && q == Readied(s.index.queue, id)
    ensures forall k | k in q && q[k].status == Ready :: Safe(s, k, q[k].value.pref)
    ensures forall k | k in s.index.rows && Publish(s.index.rows, q)[k].ready ::
      Safe(s, k, Publish(s.index.rows, q)[k].pref)
  {
    hide Inv, DiskBehind, RowsSafe, Publish, Front, Safe;
    CallbackReady(s, id, q);
    PublishedSafe(s, q);
  }

  lemma CallbackReady(s: State, id: nat, q: Pending)
    requires AllWorkOk(s) && QueueSafe(s)
    requires id in s.work && s.work[id].Stored? && s.work[id].noted && s.work[id].place == Released
    requires id in s.index.queue && q == Readied(s.index.queue, id)
    ensures forall k | k in q && q[k].status == Ready :: Safe(s, k, q[k].value.pref)
  {
    assert WorkOk(s, id);
    forall k | k in q && q[k].status == Ready
      ensures Safe(s, k, q[k].value.pref)
    {
      if k != id { assert Safe(s, k, s.index.queue[k].value.pref); }
    }
  }

  lemma PublishedSafe(s: State, q: Pending)
    requires RowsSafe(s) && forall k | k in q && q[k].status == Ready :: Safe(s, k, q[k].value.pref)
    ensures forall k | k in s.index.rows && Publish(s.index.rows, q)[k].ready ::
      Safe(s, k, Publish(s.index.rows, q)[k].pref)
  {
    FrontReady(q);
  }

  lemma FrontReady(q: Pending)
    ensures forall k | k in Front(q) :: k in q && q[k].status == Ready
  {
  }

  lemma CallbackDisk(x: IndexState, q: Pending, fired: bool, y: IndexState)
    requires Inv(x) && DiskBehind(x) && q.Keys == x.queue.Keys
    requires y == Flushed(Drained(x.(queue := q)), fired)
    ensures DiskBehind(y)
  {
  }

  lemma RestartKeeps(s: State, stores: map<StoreId, Bytes>, s': State)
    requires Good(s) && Next(s, Restart(stores), s')
    ensures Good(s')
  {
    NextInv(s.index, Crash, s'.index);
    forall id | id in s'.index.rows && s'.index.rows[id].ready
      ensures Safe(s', id, s'.index.rows[id].pref)
    {
      assert s.index.rows[id] == s.index.disk[id];
      assert Safe(s, id, s.index.rows[id].pref);
    }
  }

  lemma NextGood(s: State, a: Action, s': State)
    requires Good(s) && Next(s, a, s')
    ensures Good(s')
  {
    match a
    case Start(e, empty, fired) => StartKeeps(s, e, empty, fired, s');
    case StoreChunk(id, store, full, next, offset, length) =>
      if full { BlobFlushKeeps(s, store, next); }
      PlaceKeeps(if full then BlobFlushed(s, store, next) else s, id, store, offset, length);
    case Record(id) => RecordKeeps(s, id, s');
    case Callback(id, fired) => CallbackKeeps(s, id, fired, s');
    case FlushBlob(store, next) => if HasChunks(s, store) { BlobFlushKeeps(s, store, next); }
    case FlushIndex => AcceptKeeps(s, s');
      forall id | id in s'.work
        ensures WorkOk(s', id)
      {
        assert WorkOk(s, id);
      }
    case Restart(stores) => RestartKeeps(s, stores, s');
  }

  // ---------------------------------------------------------------- assertions and names

  /** `update_reserved` never meets an id that is not queued under the hash, nor a callback an entry
      without a reference. */
  lemma AssertionsHold(s: State, a: Action)
    requires Good(s) && Enabled(s, a)
    ensures a.Record? ==>
      var w := s.work[a.id]; HashQueue.Enabled(s.index, Update(a.id, w.entry.(pref := Some(w.pref))))
    ensures a.Callback? ==> HashQueue.Enabled(s.index, Commit(a.id, None, a.fired))
  {
    hide Inv, DiskBehind, QueueSafe, RowsSafe;
    if a.Record? || a.Callback? { assert WorkOk(s, a.id); }
  }

  lemma {:induction false} MaxIdExists(rows: Rows) returns (n: nat)
    ensures IsMaxId(rows, n)
    decreases |rows|
  {
    if rows == map[] {
      n := 0;
    } else {
      var id :| id in rows;
      assert |(rows - {id}).Keys| < |rows.Keys| by { assert (rows - {id}).Keys == rows.Keys - {id}; }
      var m := MaxIdExists(rows - {id});
      n := if id > m then id else m;
      forall k | k in rows
        ensures k <= n
      {
        if k != id { assert k in rows - {id}; }
      }
    }
  }

  /** So no assertion ever keeps an enabled step from being taken. */
  lemma NeverBlocked(s: State, a: Action) returns (s': State)
    requires Good(s) && Enabled(s, a)
    ensures Next(s, a, s')
  {
    hide Inv, DiskBehind, QueueSafe, RowsSafe, Located;
    AssertionsHold(s, a);
    match a
    case Start(e, empty, fired) =>
      var x := Reserved(HashQueue.Flushed(s.index, fired), e);
      s' := s.(index := x, work := s.work[x.counter := Storing(e, empty)]);
    case StoreChunk(id, store, full, next, offset, length) =>
      s' := Placed(if full then BlobFlushed(s, store, next) else s, id, store, offset, length);
    case Record(id) =>
      var w := s.work[id];
      var x := s.index.(queue := Updated(s.index.queue, id, w.entry.(pref := Some(w.pref))));
      s' := s.(index := x, work := s.work[id := w.(noted := true)], notes := s.notes[id := Note(w.pref, w.empty)]);
    case Callback(id, fired) =>
      var x := HashQueue.Flushed(Drained(s.index.(queue := Readied(s.index.queue, id))), fired);
      s' := s.(index := x, work := s.work - {id});
    case FlushBlob(store, next) => s' := if HasChunks(s, store) then BlobFlushed(s, store, next) else s;
    case FlushIndex => s' := s.(index := HashQueue.Flushed(s.index, true));
    case Restart(stores) =>
      var n := MaxIdExists(s.index.disk);
      s' := State(IndexState(ReadyRows(s.index.disk), s.index.disk, map[], n), stores, map[], s.accepted, s.notes);
  }

  /** What the stores fill has other names than what was accepted, and different names each. */
  ghost predicate NamesOk(s: State) {
    DistinctNames(s.stores) && s.stores.Values !! s.accepted
  }

  lemma BlobFlushNames(s: State, store: StoreId, next: Bytes)
    requires NamesOk(s) && store in s.stores && next !in s.accepted && next !in s.stores.Values
    ensures NamesOk(BlobFlushed(s, store, next))
  {
  }

  lemma NextNames(s: State, a: Action, s': State)
    requires NamesOk(s) && Next(s, a, s')
    ensures NamesOk(s')
  {
    hide NamesOk, BlobFlushed;
    match a
    case StoreChunk(id, store, full, next, offset, length) =>
      if full { BlobFlushNames(s, store, next); }
      SameNames(if full then BlobFlushed(s, store, next) else s, s');
    case FlushBlob(store, next) => if HasChunks(s, store) { BlobFlushNames(s, store, next); }
    case Restart(_) => FreshNames(s');
    case _ => SameNames(s, s');
  }

  lemma SameNames(s: State, s': State)
    requires NamesOk(s) && s'.stores == s.stores && s'.accepted == s.accepted
    ensures NamesOk(s')
  {
  }

  lemma FreshNames(s: State)
    requires DistinctNames(s.stores) && s.stores.Values !! s.accepted
    ensures NamesOk(s)
  {
  }

  // ---------------------------------------------------------------- every run

  ghost predicate Run(ss: seq<State>, actions: seq<Action>) {
    && |ss| == |actions| + 1
    && ss[0].index == IndexState(map[], map[], map[], 0) && ss[0].work == map[] && ss[0].accepted == {}
    && ss[0].notes == map[] && DistinctNames(ss[0].stores)
    && forall i | 0 <= i < |actions| :: Next(ss[i], actions[i], ss[i + 1])
  }

  lemma {:induction false} RunGood(ss: seq<State>, actions: seq<Action>, i: nat)
    requires Run(ss, actions) && i < |ss|
    ensures Good(ss[i])
  {
    if i == 0 {
      EmptyOk();
    } else {
      RunGood(ss, actions, i - 1);
      assert Next(ss[i - 1], actions[i - 1], ss[i]);
      NextGood(ss[i - 1], actions[i - 1], ss[i]);
    }
  }

  lemma {:induction false} RunNames(ss: seq<State>, actions: seq<Action>, i: nat)
    requires Run(ss, actions) && i < |ss|
    ensures NamesOk(ss[i])
  {
    if i > 0 {
      RunNames(ss, actions, i - 1);
      assert Next(ss[i - 1], actions[i - 1], ss[i]);
      NextNames(ss[i - 1], actions[i - 1], ss[i]);
    }
  }

  /**
    In every state of every interleaving, before and after crashes: each ready row, in the table and in
    its durable copy, carries the reference that `update_reserved` recorded before it was published, and
    if the hash has data, the blob that reference names has been accepted by external storage.
  */
  lemma ReadyRowsStored(ss: seq<State>, actions: seq<Action>, i: nat, id: nat)
    requires Run(ss, actions) && i < |ss|
    ensures id in ss[i].index.rows && ss[i].index.rows[id].ready ==> Safe(ss[i], id, ss[i].index.rows[id].pref)
    ensures id in ss[i].index.disk && ss[i].index.disk[id].ready ==> Safe(ss[i], id, ss[i].index.disk[id].pref)
  {
    RunGood(ss, actions, i);
  }

  /** The `j`-th step handed the data of `id` to a blob store, and `pref` says where in which blob it was put:
      in the one begun by that very step if the data had no room in the one before. */
  predicate PutBy(ss: seq<State>, actions: seq<Action>, j: nat, id: nat, pref: ChunkRef)
    requires j < |actions| && j < |ss|
  {
    && actions[j].StoreChunk? && actions[j].id == id && id in ss[j].work && actions[j].store in ss[j].stores
    && if ss[j].work[id].empty then pref.offset == pref.length == 0
       else
         && pref.offset == actions[j].offset && pref.length == actions[j].length
         && pref.blobName == if actions[j].full then actions[j].next else ss[j].stores[actions[j].store]
  }

  /** Some step before the `i`-th state put the data there. */
  ghost predicate Put(ss: seq<State>, actions: seq<Action>, i: nat, id: nat, pref: ChunkRef)
    requires |ss| == |actions| + 1 && i < |ss|
  {
    exists j: nat :: j < i && PutBy(ss, actions, j, id, pref)
  }

  /** Every place on record is one a blob store gave out. */
  ghost predicate AllPut(ss: seq<State>, actions: seq<Action>, i: nat)
    requires |ss| == |actions| + 1 && i < |ss|
  {
    && (forall id | id in ss[i].work && ss[i].work[id].Stored? :: Put(ss, actions, i, id, ss[i].work[id].pref))
    && forall id | id in ss[i].notes :: Put(ss, actions, i, id, ss[i].notes[id].pref)
  }

  lemma PutStays(ss: seq<State>, actions: seq<Action>, i: nat)
    requires |ss| == |actions| + 1 && i < |actions|
    ensures forall id, pref :: Put(ss, actions, i, id, pref) ==> Put(ss, actions, i + 1, id, pref)
  {
  }

  /** What one step can do to the places on record. */
  lemma NextPlaces(s: State, a: Action, s': State)
    requires Next(s, a, s')
    ensures forall id | id in s'.work && s'.work[id].Stored? && !(a.StoreChunk? && a.id == id) ::
      id in s.work && s.work[id].Stored? && s.work[id].pref == s'.work[id].pref
    ensures forall id | id in s'.notes ::
      || (id in s.notes && s'.notes[id] == s.notes[id])
      || (id in s.work && s.work[id].Stored? && s.work[id].pref == s'.notes[id].pref)
  {
  }

  lemma {:induction false} RunPut(ss: seq<State>, actions: seq<Action>, i: nat)
    requires Run(ss, actions) && i < |ss|
    ensures AllPut(ss, actions, i)
  {
    hide Put;
    if i > 0 {
      RunPut(ss, actions, i - 1);
      var s, a, s' := ss[i - 1], actions[i - 1], ss[i];
      assert Next(s, a, s');
      NextPlaces(s, a, s');
      PutStays(ss, actions, i - 1);
      if a.StoreChunk? { JustPut(ss, actions, i); }
      hide Next;
      forall id | id in s'.work && s'.work[id].Stored?
        ensures Put(ss, actions, i, id, s'.work[id].pref)
      {
        if !(a.StoreChunk? && a.id == id) { assert Put(ss, actions, i - 1, id, s.work[id].pref); }
      }
    }
  }

  lemma JustPut(ss: seq<State>, actions: seq<Action>, i: nat)
    requires |ss| == |actions| + 1 && 0 < i < |ss| && actions[i - 1].StoreChunk?
    requires Next(ss[i - 1], actions[i - 1], ss[i])
    ensures var id := actions[i - 1].id;
      id in ss[i].work && ss[i].work[id].Stored? && Put(ss, actions, i, id, ss[i].work[id].pref)
  {
    var id := actions[i - 1].id;
    assert PutBy(ss, actions, i - 1, id, ss[i].work[id].pref);
  }

  /** And that reference names the very place at which a blob store put the data of the hash. */
  lemma ReadyRowsPut(ss: seq<State>, actions: seq<Action>, i: nat, id: nat)
    requires Run(ss, actions) && i < |ss| && id in ss[i].index.rows && ss[i].index.rows[id].ready
    ensures ss[i].index.rows[id].pref.Some?
    ensures exists j: nat :: j < i && PutBy(ss, actions, j, id, ss[i].index.rows[id].pref.value)
  {
    ReadyRowsStored(ss, actions, i, id);
    RunPut(ss, actions, i);
    assert Put(ss, actions, i, id, ss[i].notes[id].pref);
  }

  /** A call that finds its hash known, and a reference with it, may use that reference: it names an
      accepted blob, or the blob some store is still filling. */
  lemma KnownRefUsable(s: State, id: nat)
    requires Good(s) && id in s.index.queue && s.index.queue[id].value.pref.Some?
    requires id in s.work ==> s.work[id].Stored? && s.work[id].noted
    ensures var pref := s.index.queue[id].value.pref.value;
      id in s.notes && pref == s.notes[id].pref
        && (s.notes[id].empty || pref.blobName in s.accepted || pref.blobName in s.stores.Values)
  {
  }

  /** Once no call is under way and all callbacks have run, nothing is left in the queue: every row is
      ready, and a flush makes all of them survive a crash. */
  lemma IdleQueueEmpty(s: State)
    requires Good(s) && s.work == map[]
    ensures s.index.queue == map[] && ReadyRows(s.index.rows) == s.index.rows
  {
    forall p | p in s.index.queue
      ensures p in Front(s.index.queue)
    {
    }
    assert s.index.queue.Keys == {};
  }

  /** The steps that make the index durable: sending a blob out does, on the way. */
  predicate MakesDurable(s: State, a: Action) {
    a.FlushIndex? || (a.FlushBlob? && HasChunks(s, a.store)) || (a.StoreChunk? && a.full)
  }

  /** What was ready then is there after a crash at any later point before the next step, exactly as it was. */
  lemma DurableRowsSurvive(s: State, a: Action, t: State, stores: map<StoreId, Bytes>, u: State)
    requires Next(s, a, t) && MakesDurable(s, a) && Next(t, Restart(stores), u)
    ensures forall id :: id in u.index.rows <==> id in s.index.rows && s.index.rows[id].ready
    ensures forall id | id in u.index.rows :: u.index.rows[id] == s.index.rows[id]
  {
  }

  /** Children are listed only after they were issued, as tree writers do. */
  ghost predicate Nesting(s: State, a: Action) {
    a.Start? ==> forall c | c in Childs(a.entry.childs) :: c in s.index.rows
  }

  lemma NextNested(s: State, a: Action, s': State)
    requires Good(s) && Next(s, a, s') && Nested(s.index) && Nesting(s, a)
    ensures Nested(s'.index)
  {
    match a
    case Start(e, _, fired) => NextInv(s.index, Reserve(e, fired), s'.index);
    case Record(id) =>
      assert WorkOk(s, id);
      var e := s.work[id].entry.(pref := Some(s.work[id].pref));
      assert Childs(e.childs) == Childs(s.index.queue[id].value.childs);
      NextInv(s.index, Update(id, e), s'.index);
    case Callback(id, fired) => NextInv(s.index, Commit(id, None, fired), s'.index);
    case Restart(_) => NextInv(s.index, Crash, s'.index);
    case _ =>
  }

  lemma {:induction false} RunNested(ss: seq<State>, actions: seq<Action>, i: nat)
    requires Run(ss, actions) && i < |ss| && forall j | 0 <= j < |actions| :: Nesting(ss[j], actions[j])
    ensures Nested(ss[i].index)
  {
    if i > 0 {
      RunNested(ss, actions, i - 1);
      RunGood(ss, actions, i - 1);
      assert Next(ss[i - 1], actions[i - 1], ss[i]);
      NextNested(ss[i - 1], actions[i - 1], ss[i]);
    }
  }

  /** `below` is reached from `id` through child lists. */
  ghost predicate Below(rows: Rows, p: seq<nat>) {
    && p != [] && p[0] in rows
    && forall i | 0 <= i < |p| - 1 :: p[i] in rows && p[i + 1] in Childs(rows[p[i]].childs)
  }

  lemma {:induction false} BelowKnown(rows: Rows, p: seq<nat>, i: nat)
    requires Below(rows, p) && ChildsKnown(rows) && i < |p|
    ensures p[i] in rows
  {
    if i > 0 {
      BelowKnown(rows, p, i - 1);
      assert p[i - 1 + 1] in Childs(rows[p[i - 1]].childs);
    }
  }

  /** Wherever a crash cuts a run short, everything below a surviving row survives, and its data is in
      external storage. */
  lemma SurvivingTreesStored(ss: seq<State>, actions: seq<Action>, i: nat, p: seq<nat>)
    requires Run(ss, actions) && i < |actions| && actions[i].Restart?
    requires forall j | 0 <= j < |actions| :: Nesting(ss[j], actions[j])
    requires Below(ss[i + 1].index.rows, p)
    ensures var s := ss[i + 1]; var last := p[|p| - 1];
      last in s.index.rows && s.index.rows[last].ready && Safe(s, last, s.index.rows[last].pref)
  {
    RunNested(ss, actions, i + 1);
    RunGood(ss, actions, i + 1);
    assert Next(ss[i], actions[i], ss[i + 1]);
    BelowKnown(ss[i + 1].index.rows, p, |p| - 1);
  }
}
