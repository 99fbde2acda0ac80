/**
  Inserting a chunk: reserve its hash, store its data, record where it is, and let the blob's callback
  publish the row. Here one caller works on one blob store; `InsertMachine` has the interleavings.
*/
module StoreBackend {
  import opened Common
  import opened HashTypes
  import opened UniquePriorityQueue
  import opened HashQueue
  import opened HashIndex
  import opened IndexLaws
  import Crypto
  import BlobStore
  import BlobLayout

  type Issue = BlobStore.Issue

  // ---------------------------------------------------------------- index and blob store together

  predicate Describes(href: HashRef, hash: Bytes, node: nat, leaf: LeafType, pref: Option<ChunkRef>) {
    href.hash == hash && href.node == node && href.leaf == leaf && Some(href.pref) == pref && href.info == None
  }

  predicate ForItem(issue: Issue, id: nat, item: Item<Bytes, QueueEntry>) {
    issue.callback == id && Describes(issue.href, item.key, item.value.node, item.value.leaf, item.value.pref)
  }

  predicate ForRow(issue: Issue, id: nat, row: IndexRow) {
    issue.callback == id && Describes(issue.href, row.hash, row.node, row.leaf, row.pref)
  }

  ghost predicate Distinct(ids: seq<nat>) {
    forall i, j | 0 <= i < j < |ids| :: ids[i] != ids[j]
  }

  /** The data of a pending hash, or of a row, is in storage under the reference recorded for it. */
  ghost predicate Backed(done: seq<Issue>, id: nat, item: Item<Bytes, QueueEntry>) {
    exists x :: x in done && ForItem(x, id, item)
  }

  ghost predicate RowBacked(done: seq<Issue>, id: nat, row: IndexRow) {
    exists x :: x in done && ForRow(x, id, row)
  }

  /** Callbacks the blob store has run whose rows are still to be committed: their data is in storage. */
  ghost predicate OwedOk(queue: Pending, done: seq<Issue>, owed: seq<nat>, busy: Option<nat>) {
    forall c | c in owed :: Waiting(queue, c) && (busy != Some(c) ==> Backed(done, c, queue[c]))
  }

  ghost predicate PendingOk(queue: Pending, pending: seq<Issue>, busy: Option<nat>) {
    forall x | x in pending :: Waiting(queue, x.callback)
      && (busy != Some(x.callback) ==> ForItem(x, x.callback, queue[x.callback]))
  }

  /** Every hash still waiting is one whose callback will come, or the one being inserted. */
  ghost predicate Accounted(queue: Pending, pending: seq<Issue>, owed: seq<nat>, busy: Option<nat>) {
    forall c | Waiting(queue, c) :: c in owed || c in BlobStore.Callbacks(pending) || busy == Some(c)
  }

  ghost predicate ReadyOk(queue: Pending, done: seq<Issue>) {
    forall c | c in queue && queue[c].status == Ready :: Backed(done, c, queue[c])
  }

  ghost predicate RowsOk(rows: Rows, done: seq<Issue>) {
    forall id | id in rows && rows[id].ready :: RowBacked(done, id, rows[id])
  }

  ghost predicate Linked(s: IndexState, done: seq<Issue>, pending: seq<Issue>, owed: seq<nat>, busy: Option<nat>) {
    && OwedOk(s.queue, done, owed, busy) && PendingOk(s.queue, pending, busy) && Accounted(s.queue, pending, owed, busy)
    && Distinct(owed + BlobStore.Callbacks(pending))
    && ReadyOk(s.queue, done) && RowsOk(s.rows, done)
  }

  lemma EmptyLinked()
    ensures Linked(IndexState(map[], map[], map[], 0), [], [], [], None)
  {
  }

  lemma NoRows(n: nat)
    requires HashQueue.IsMaxId(map[], n)
    ensures n == 0 && HashQueue.ReadyRows(map[]) == map[]
  {
  }

  lemma CallbackOf(pending: seq<Issue>, c: nat) returns (x: Issue)
    requires c in BlobStore.Callbacks(pending)
    ensures x in pending && x.callback == c
  {
    var i :| 0 <= i < |pending| && BlobStore.Callbacks(pending)[i] == c;
    x := pending[i];
  }

  lemma CallbackIn(pending: seq<Issue>, x: Issue)
    requires x in pending
    ensures x.callback in BlobStore.Callbacks(pending)
  {
  }

  lemma CallbacksSnoc(pending: seq<Issue>, issue: Issue)
    ensures BlobStore.Callbacks(pending + [issue]) == BlobStore.Callbacks(pending) + [issue.callback]
  {
  }

  lemma MoreDone(s: IndexState, done: seq<Issue>, more: seq<Issue>)
    requires ReadyOk(s.queue, done) && RowsOk(s.rows, done)
    ensures ReadyOk(s.queue, done + more) && RowsOk(s.rows, done + more)
  {
  }

  // ---------------------------------------------------------------- reserving

  lemma AddedPending(queue: Pending, id: nat, item: Item<Bytes, QueueEntry>, pending: seq<Issue>)
    requires PendingOk(queue, pending, None) && id !in queue
    ensures PendingOk(queue[id := item], pending, Some(id)) && id !in BlobStore.Callbacks(pending)
  {
  }

  lemma AddedAccounted(queue: Pending, id: nat, item: Item<Bytes, QueueEntry>, pending: seq<Issue>)
    requires Accounted(queue, pending, [], None)
    ensures Accounted(queue[id := item], pending, [], Some(id))
  {
  }

  lemma AddedReady(s: IndexState, id: nat, item: Item<Bytes, QueueEntry>, row: IndexRow, done: seq<Issue>)
    requires ReadyOk(s.queue, done) && RowsOk(s.rows, done) && item.status == Status.Pending && !row.ready
    ensures ReadyOk(s.queue[id := item], done) && RowsOk(s.rows[id := row], done)
  {
  }

  lemma ReservedIs(s: IndexState, e: Entry, fired: bool, s': IndexState)
    requires Inv(s) && Next(s, Reserve(e, fired), s')
    ensures s'.counter !in s.queue
    ensures s'.queue == s.queue[s'.counter := Item(Status.Pending, e.hash, NewEntry(s'.counter, e))]
    ensures s'.rows == s.rows[s'.counter := NewRow(e)]
  {
  }

  /** A new reservation is the one being inserted. */
  lemma ReserveLinked(s: IndexState, done: seq<Issue>, pending: seq<Issue>, e: Entry, fired: bool, s': IndexState)
    requires Linked(s, done, pending, [], None) && Inv(s) && Next(s, Reserve(e, fired), s')
    ensures Linked(s', done, pending, [], Some(s'.counter)) && Waiting(s'.queue, s'.counter)
    ensures s'.counter !in BlobStore.Callbacks(pending)
    ensures s'.queue[s'.counter] == Item(Status.Pending, e.hash, NewEntry(s'.counter, e))
  {
    hide Inv, Next, PendingOk, Accounted, ReadyOk, RowsOk, Distinct;
    ReservedIs(s, e, fired, s');
    var id := s'.counter;
    var item := Item(Status.Pending, e.hash, NewEntry(id, e));
    AddedPending(s.queue, id, item, pending);
    AddedAccounted(s.queue, id, item, pending);
    AddedReady(s, id, item, NewRow(e), done);
  }

  // ---------------------------------------------------------------- storing

  lemma DistinctSnoc(ids: seq<nat>, id: nat)
    requires Distinct(ids) && id !in ids
    ensures Distinct(ids + [id])
  {
  }

  /** The chunk being inserted joins the blob being filled. */
  lemma StoredLinked(s: IndexState, done: seq<Issue>, pending: seq<Issue>, issue: Issue)
    requires Linked(s, done, pending, [], Some(issue.callback)) && Waiting(s.queue, issue.callback)
    requires issue.callback !in BlobStore.Callbacks(pending)
    ensures Linked(s, done, pending + [issue], [], Some(issue.callback))
  {
    hide ReadyOk, RowsOk, Distinct;
    var c := BlobStore.Callbacks(pending);
    CallbacksSnoc(pending, issue);
    assert [] + c == c && [] + (c + [issue.callback]) == c + [issue.callback];
    DistinctSnoc(c, issue.callback);
  }

  /** A flush moves the chunks of the blob to storage and owes their callbacks. */
  lemma FlushLinked(s: IndexState, done: seq<Issue>, pending: seq<Issue>, busy: Option<nat>)
    requires Linked(s, done, pending, [], busy) && (busy.Some? ==> busy.value !in BlobStore.Callbacks(pending))
    ensures Linked(s, done + pending, [], BlobStore.Callbacks(pending), busy)
  {
    var c := BlobStore.Callbacks(pending);
    assert [] + c == c == c + BlobStore.Callbacks([]);
    MoreDone(s, done, pending);
    FlushOwed(s.queue, done, pending, busy);
    hide ReadyOk, RowsOk, Distinct, OwedOk;
    assert PendingOk(s.queue, [], busy);
  }

  lemma FlushOwed(queue: Pending, done: seq<Issue>, pending: seq<Issue>, busy: Option<nat>)
    requires PendingOk(queue, pending, busy)
    ensures OwedOk(queue, done + pending, BlobStore.Callbacks(pending), busy)
  {
  }

  /** The chunk that did not fit is the first of the next blob. */
  lemma StoredAfterFlush(s: IndexState, done: seq<Issue>, owed: seq<nat>, issue: Issue)
    requires Linked(s, done, [], owed, Some(issue.callback)) && Waiting(s.queue, issue.callback)
    requires issue.callback !in owed
    ensures Linked(s, done, [issue], owed, Some(issue.callback))
  {
    hide ReadyOk, RowsOk, Distinct, OwedOk;
    CallbacksSnoc([], issue);
    assert [] + [issue] == [issue] && BlobStore.Callbacks([]) + [issue.callback] == [issue.callback];
    assert owed + BlobStore.Callbacks([]) == owed;
    DistinctSnoc(owed, issue.callback);
  }

  /** An empty chunk is done at once; its callback is owed. */
  lemma EmptyStored(s: IndexState, done: seq<Issue>, pending: seq<Issue>, issue: Issue)
    requires Linked(s, done, pending, [], Some(issue.callback)) && Waiting(s.queue, issue.callback)
    requires issue.callback !in BlobStore.Callbacks(pending)
    ensures Linked(s, done + [issue], pending, [issue.callback], Some(issue.callback))
  {
    var c := BlobStore.Callbacks(pending);
    assert [] + c == c;
    MoreDone(s, done, [issue]);
    DistinctCons(issue.callback, c);
    hide ReadyOk, RowsOk, Distinct;
  }

  lemma DistinctCons(id: nat, ids: seq<nat>)
    requires Distinct(ids) && id !in ids
    ensures Distinct([id] + ids)
  {
  }

  /** Recording where the data is completes the insertion. */
  lemma UpdateLinked(s: IndexState, done: seq<Issue>, pending: seq<Issue>, owed: seq<nat>, id: nat, e: Entry,
                     s': IndexState)
    requires Linked(s, done, pending, owed, Some(id)) && Waiting(s.queue, id) && Next(s, Update(id, e), s')
    requires forall x | x in pending && x.callback == id :: Describes(x.href, e.hash, e.node, e.leaf, e.pref)
    requires id in owed ==>
      exists x :: x in done && x.callback == id && Describes(x.href, e.hash, e.node, e.leaf, e.pref)
    requires id in owed || id in BlobStore.Callbacks(pending)
    ensures Linked(s', done, pending, owed, None)
  {
    var item := s'.queue[id];
    assert item.key == e.hash && item.value.node == e.node && item.value.leaf == e.leaf && item.value.pref == e.pref;
    if id in owed {
      var x :| x in done && x.callback == id && Describes(x.href, e.hash, e.node, e.leaf, e.pref);
      assert ForItem(x, id, item);
    }
  }

  // ---------------------------------------------------------------- committing what is owed

  lemma BackedReady(done: seq<Issue>, queue: Pending, c: nat)
    requires ReadyOk(queue, done) && c in queue && Backed(done, c, queue[c])
    ensures ReadyOk(Readied(queue, c), done)
  {
  }

  lemma PublishedBacked(rows: Rows, q: Pending, done: seq<Issue>)
    requires QueueOk(rows, q) && ReadyOk(q, done) && RowsOk(rows, done)
    ensures RowsOk(Publish(rows, q), done)
  {
    FrontReadyItems(q);
    var rows' := Publish(rows, q);
    hide Front;
    forall id | id in rows' && rows'[id].ready
      ensures RowBacked(done, id, rows'[id])
    {
      if id in q && id in Front(q) {
        assert Backed(done, id, q[id]);
        var x :| x in done && ForItem(x, id, q[id]);
        assert ForRow(x, id, rows'[id]);
      } else {
        assert RowBacked(done, id, rows[id]);
      }
    }
  }

  lemma CommitRows(s: IndexState, done: seq<Issue>, c: nat, s': IndexState)
    requires QueueOk(s.rows, s.queue) && c in s.queue && s.queue[c].value.pref.Some?
    requires ReadyOk(s.queue, done) && RowsOk(s.rows, done) && Backed(done, c, s.queue[c])
    requires s'.queue == Readied(s.queue, c) - Front(Readied(s.queue, c))
    requires s'.rows == Publish(s.rows, Readied(s.queue, c))
    ensures ReadyOk(s'.queue, done) && RowsOk(s'.rows, done)
  {
    hide Front, Publish;
    BackedReady(done, s.queue, c);
    ReadyKeeps(s.rows, s.queue, c);
    PublishedBacked(s.rows, Readied(s.queue, c), done);
  }

  /** Running one callback publishes what is in order, and only what is in storage. */
  lemma CommitLinked(s: IndexState, done: seq<Issue>, pending: seq<Issue>, owed: seq<nat>, busy: Option<nat>,
                     fired: bool, s': IndexState)
    requires Inv(s) && Linked(s, done, pending, owed, busy) && owed != [] && busy != Some(owed[0])
    requires Next(s, Commit(owed[0], None, fired), s')
    ensures Linked(s', done, pending, owed[1..], busy)
    ensures forall k | Waiting(s.queue, k) && k != owed[0] :: Waiting(s'.queue, k) && s'.queue[k] == s.queue[k]
  {
    hide Inv, Next, ReadyOk, RowsOk, Front, Readied, Publish, OwedOk, PendingOk, Accounted, Distinct, Backed;
    var c, rest := owed[0], BlobStore.Callbacks(pending);
    OwedEnabled(s, done, pending, owed, busy);
    CommitIs(s, c, fired, s');
    InvQueueOk(s);
    CommitRows(s, done, c, s');
    CommitQueue(s.queue, c, s'.queue);
    assert owed + rest == [c] + (owed[1..] + rest);
    DistinctTail(c, owed[1..] + rest);
    CommitOthers(s.queue, s'.queue, c, done, pending, owed, busy);
  }

  lemma OwedEnabled(s: IndexState, done: seq<Issue>, pending: seq<Issue>, owed: seq<nat>, busy: Option<nat>)
    requires Linked(s, done, pending, owed, busy) && owed != [] && busy != Some(owed[0])
    ensures Waiting(s.queue, owed[0]) && Backed(done, owed[0], s.queue[owed[0]]) && s.queue[owed[0]].value.pref.Some?
  {
  }

  lemma CommitOthers(queue: Pending, queue': Pending, c: nat, done: seq<Issue>, pending: seq<Issue>, owed: seq<nat>,
                     busy: Option<nat>)
    requires OwedOk(queue, done, owed, busy) && PendingOk(queue, pending, busy) && Accounted(queue, pending, owed, busy)
    requires owed != [] && c == owed[0] && c !in owed[1..] + BlobStore.Callbacks(pending)
    requires forall k :: Waiting(queue', k) <==> Waiting(queue, k) && k != c
    requires forall k | Waiting(queue', k) :: queue'[k] == queue[k]
    ensures OwedOk(queue', done, owed[1..], busy) && PendingOk(queue', pending, busy)
    ensures Accounted(queue', pending, owed[1..], busy)
  {
  }

  lemma DistinctTail(c: nat, rest: seq<nat>)
    requires Distinct([c] + rest)
    ensures c !in rest && Distinct(rest)
  {
    forall i | 0 <= i < |rest|
      ensures rest[i] != c
    {
      assert ([c] + rest)[i + 1] == rest[i] && ([c] + rest)[0] == c;
    }
    forall i, j | 0 <= i < j < |rest|
      ensures rest[i] != rest[j]
    {
      assert ([c] + rest)[i + 1] == rest[i] && ([c] + rest)[j + 1] == rest[j];
    }
  }

  // ---------------------------------------------------------------- the backend

  type DataPrint = (nat, LeafType, Bytes) -> Bytes

  ghost predicate Hashed(fp: DataPrint, issues: seq<Issue>) {
    forall x | x in issues :: x.href.hash == fp(x.href.node, x.href.leaf, x.chunk)
  }

  class HashStoreBackend {
    const index: HashIndex
    const blobs: BlobStore.BlobStore
    const fp: DataPrint

    ghost predicate Parts()
      reads this, index, index.queue, blobs, blobs.blob, blobs.blob.chunks
    {
      index.Valid() && blobs.Valid() && Hashed(fp, blobs.done) && Hashed(fp, blobs.pending)
    }

    ghost predicate Valid()
      reads this, index, index.queue, blobs, blobs.blob, blobs.blob.chunks
    {
      Parts() && Linked(index.State(), blobs.done, blobs.pending, [], None)
    }

    /** A fresh backend over an empty index. */
    constructor (suite: Crypto.Suite, maxLen: nat, fp: DataPrint)
      requires Crypto.Lawful(suite) && maxLen < Crypto.MAX_I64
      ensures Valid() && this.fp == fp && index.State() == IndexState(map[], map[], map[], 0)
    {
      hide Linked, Inv, Crypto.Lawful, BlobStore.PendingOk, BlobStore.AllRetrievable, BlobStore.OldNames;
      hide HashQueue.IsMaxId, HashQueue.ReadyRows, blobs.Valid;
      this.fp := fp;
      index := new HashIndex(map[], 0);
      blobs := new BlobStore.BlobStore(suite, maxLen);
      new;
      NoRows(index.counter);
      assert index.State() == IndexState(map[], map[], map[], 0);
      EmptyLinked();
    }

    /** Run the index side of callbacks the blob store has run. */
    method CommitAll(ids: seq<nat>, ghost busy: Option<nat>)
      requires Parts() && Linked(index.State(), blobs.done, blobs.pending, ids, busy)
      requires busy.Some? ==> busy.value !in ids
      modifies index, index.queue
      ensures Parts() && Linked(index.State(), blobs.done, blobs.pending, [], busy)
      ensures SameKnown(old(index.State()), index.State()) && SameIds(old(index.State()), index.State())
      ensures forall k | k !in ids && Waiting(old(index.queue.priority), k) ::
        Waiting(index.queue.priority, k) && index.queue.priority[k] == old(index.queue.priority)[k]
    {
      hide Linked, Inv, Next, Hashed, SameKnown, blobs.Valid;
      SameKnownSelf(index.State());
      for i := 0 to |ids|
        invariant Parts() && Linked(index.State(), blobs.done, blobs.pending, ids[i..], busy)
        invariant SameKnown(old(index.State()), index.State()) && SameIds(old(index.State()), index.State())
        invariant forall k | k !in ids && Waiting(old(index.queue.priority), k) ::
          Waiting(index.queue.priority, k) && index.queue.priority[k] == old(index.queue.priority)[k]
      {
        ghost var s := index.State();
        assert ids[i..][0] == ids[i] && ids[i..][1..] == ids[i + 1..];
        CommitAllowed(s, blobs.done, blobs.pending, ids[i..], busy);
        var fired: bool := *;
        index.Commit(ids[i], None, fired);
        CommitLinked(s, blobs.done, blobs.pending, ids[i..], busy, fired, index.State());
        CommitKnown(s, ids[i], fired, index.State());
        CommitIds(s, ids[i], fired, index.State());
        SameKnownChain(old(index.State()), s, index.State());
      }
      assert ids[|ids|..] == [];
    }

    /** The reference a chunk starts out with, before it is placed. */
    function Blank(chunk: Bytes, node: nat, leaf: LeafType, info: Option<Bytes>): HashRef {
      HashRef(fp(node, leaf, chunk), node, leaf, ChunkRef(Some(0), [0], 0, 0, None), info)
    }

    ghost predicate Storable(chunk: Bytes, node: nat, leaf: LeafType, info: Option<Bytes>)
      reads blobs
    {
      var href := Blank(chunk, node, leaf, info);
      href.hash != [] && BlobStore.Placeable(blobs.suite, blobs.maxLen, blobs.descId, href, chunk)
    }

    /** Store the data of the freshly reserved hash `id`; `released` are the callbacks this made run. */
    method StoreData(id: nat, chunk: Bytes, node: nat, leaf: LeafType, info: Option<Bytes>)
      returns (stored: HashRef, released: seq<nat>)
      requires Parts() && Linked(index.State(), blobs.done, blobs.pending, [], Some(id))
      requires Storable(chunk, node, leaf, info)
      requires Waiting(index.queue.priority, id) && id !in BlobStore.Callbacks(blobs.pending)
      modifies blobs, blobs.blob, blobs.blob.chunks
      ensures Parts() && (blobs.blob.chunks == old(blobs.blob.chunks) || fresh(blobs.blob.chunks))
      ensures Linked(index.State(), blobs.done, blobs.pending, released, Some(id))
      ensures stored.hash == fp(node, leaf, chunk) && stored.node == node && stored.leaf == leaf && stored.info == None
      ensures chunk != [] ==> blobs.ListedLast(stored, info, chunk)
      ensures forall x | x in blobs.pending && x.callback == id :: x.href == stored
      ensures if chunk == [] then
                released == [id] && exists x :: x in blobs.done && x.callback == id && x.href == stored
              else id !in released && id in BlobStore.Callbacks(blobs.pending)
    {
      hide Linked, Inv, Waiting, BlobStore.Placeable;
      hide Crypto.Lawful, BlobLayout.AllKeyed, BlobLayout.Placed, BlobLayout.Packed, BlobLayout.Chunks;
      hide BlobLayout.Footer, BlobStore.PendingOk, BlobStore.AllRetrievable, BlobStore.OldNames;
      ghost var s, done, pending := index.State(), blobs.done, blobs.pending;
      var before := |blobs.ran|;
      assert before == |done|;
      stored := blobs.Store(chunk, Blank(chunk, node, leaf, info), id);
      released := blobs.ran[before..];
      StoredCases(s, fp, done, pending, blobs.done, blobs.pending, BlobStore.Issue(stored, chunk, id), released);
    }

    /** Store the data of a new hash, record where it is, and only then let its callback publish it. */
    method InsertNew(id: nat, chunk: Bytes, node: nat, leaf: LeafType, childs: Option<seq<nat>>, info: Option<Bytes>)
      returns (href: HashRef)
      requires Parts() && Linked(index.State(), blobs.done, blobs.pending, [], Some(id))
      requires Storable(chunk, node, leaf, info)
      requires Waiting(index.queue.priority, id) && id !in BlobStore.Callbacks(blobs.pending)
      requires index.queue.priority[id].key == fp(node, leaf, chunk)
      modifies index, index.queue, blobs, blobs.blob, blobs.blob.chunks
      ensures Valid() && (blobs.blob.chunks == old(blobs.blob.chunks) || fresh(blobs.blob.chunks))
      ensures href.hash == fp(node, leaf, chunk) && href.node == node && href.leaf == leaf && href.info == None
      ensures chunk != [] ==> blobs.ListedLast(href, info, chunk)
      ensures SameKnownBut(old(index.State()), index.State(), id) && id in index.rows
      ensures SameIds(old(index.State()), index.State())
      ensures Known(index.State(), id) == QueueEntry(id, node, leaf, childs, Some(href.pref))
    {
      hide Linked, Inv, Next, Hashed, SameKnown, SameKnownBut, SameIds, Storable, Known;
      hide Crypto.Lawful, BlobLayout.AllKeyed, BlobLayout.Placed, BlobLayout.Packed, BlobLayout.Chunks;
      hide BlobLayout.Footer, BlobStore.PendingOk, BlobStore.AllRetrievable, BlobStore.OldNames;
      var released;
      href, released := StoreData(id, chunk, node, leaf, info);
      SameKnownSelf(index.State());
      IdsSelf(index.State());
      ghost var s := index.State();
      if chunk != [] {
        CommitAll(released, Some(id));
        released := [];
      }
      ghost var t := index.State();
      Record(id, Entry(fp(node, leaf, chunk), node, leaf, childs, Some(href.pref)), released);
      BeforeButChain(s, t, index.State(), id);
      IdsChain(s, t, index.State());
    }

    /** Record where the data of `id` is; callbacks that wait for that run afterwards. */
    method Record(id: nat, entry: Entry, released: seq<nat>)
      requires Parts() && Linked(index.State(), blobs.done, blobs.pending, released, Some(id))
      requires Waiting(index.queue.priority, id) && index.queue.priority[id].key == entry.hash
      requires forall x | x in blobs.pending && x.callback == id ::
        Describes(x.href, entry.hash, entry.node, entry.leaf, entry.pref)
      requires id in released ==>
        exists x :: x in blobs.done && x.callback == id
          && Describes(x.href, entry.hash, entry.node, entry.leaf, entry.pref)
      requires id in released || id in BlobStore.Callbacks(blobs.pending)
      modifies index, index.queue
      ensures Valid() && SameKnownBut(old(index.State()), index.State(), id)
      ensures SameIds(old(index.State()), index.State())
      ensures id in index.rows && Known(index.State(), id) == NewEntry(id, entry)
    {
      hide Linked, Inv, Next, Hashed, SameKnown, SameKnownBut, SameIds, Known, Describes, blobs.Valid;
      ghost var s := index.State();
      SameKnownSelf(s);
      IdsSelf(s);
      MayUpdate(s, id, entry);
      index.UpdateReserved(id, entry);
      ghost var t := index.State();
      UpdateLinked(s, blobs.done, blobs.pending, released, id, entry, t);
      UpdateKnown(s, s, id, entry, t);
      UpdateIds(s, s, id, entry, t);
      CommitAll(released, None);
      ButChain(s, t, index.State(), id);
      IdsChain(s, t, index.State());
    }

    /** Insert a chunk once: a known hash is answered with the reference it already has. */
    method InsertChunk(chunk: Bytes, node: nat, leaf: LeafType, childs: Option<seq<nat>>, info: Option<Bytes>)
      returns (id: nat, href: HashRef)
      requires Valid() && Storable(chunk, node, leaf, info)
      modifies index, index.queue, blobs, blobs.blob, blobs.blob.chunks
      ensures Valid() && (blobs.blob.chunks == old(blobs.blob.chunks) || fresh(blobs.blob.chunks))
      ensures href.hash == fp(node, leaf, chunk) && href.node == node && href.leaf == leaf && href.info == None
      ensures SameKnown(old(index.State()), index.State())
      ensures id in index.rows && index.rows[id].hash == href.hash && Known(index.State(), id).pref == Some(href.pref)
      ensures old(Located(index.State(), fp(node, leaf, chunk))) ==>
        index.State() == old(index.State()) && blobs.done == old(blobs.done) && blobs.pending == old(blobs.pending)
      ensures !old(Located(index.State(), fp(node, leaf, chunk))) && chunk != [] ==> blobs.ListedLast(href, info, chunk)
      ensures !old(Located(index.State(), fp(node, leaf, chunk))) ==>
        && OneMoreId(old(index.State()), index.State()) && id == index.counter && id !in old(index.rows)
        && Known(index.State(), id) == QueueEntry(id, node, leaf, childs, Some(href.pref))
    {
      hide Linked, Inv, Next, Hashed, SameKnown, SameKnownBut, SameIds, OneMoreId, Located, Waiting;
      hide BlobStore.Placeable;
      ghost var s := index.State();
      var entry := Entry(fp(node, leaf, chunk), node, leaf, childs, None);
      var fired: bool := *;
      var result := index.Reserve(entry, fired);
      match result
      case HashKnown(known) =>
        var pref := FetchPersistentRef(entry.hash);
        SameKnownSelf(s);
        KnownUnique(index.State(), known, entry.hash, pref);
        id, href := known, HashRef(entry.hash, node, leaf, pref.value, None);
      case ReserveOk(newId) =>
        ReserveLinked(s, blobs.done, blobs.pending, entry, fired, index.State());
        ReserveKnown(s, entry, fired, index.State());
        ghost var t := index.State();
        href := InsertNew(newId, chunk, node, leaf, childs, info);
        id := newId;
        ReserveChain(s, t, index.State(), entry, fired);
    }

    /** Where the data of a hash is. No other call is under way, so the first try never asks for another. */
    method FetchPersistentRef(hash: Bytes) returns (pref: Option<ChunkRef>)
      requires Valid()
      ensures pref.Some? <==> Located(index.State(), hash)
      ensures pref.Some? ==>
        exists id :: id in index.rows && index.rows[id].hash == hash && Known(index.State(), id).pref == pref
    {
      AllKnown(index.State(), blobs.done, blobs.pending);
      var r := index.FetchPersistentRef(hash);
      pref := r.value;
    }

    /** Send the current blob out; its callbacks have run in the blob store, and are owed to the index. */
    method FlushBlobs() returns (released: seq<nat>)
      requires Valid()
      modifies blobs, blobs.blob, blobs.blob.chunks
      ensures Parts() && blobs.pending == [] && Linked(index.State(), blobs.done, [], released, None)
      ensures index.State() == old(index.State())
    {
      hide BlobStore.SentAs, BlobLayout.Filled, BlobStore.AllRetrievable, BlobStore.OldNames, BlobStore.PendingOk;
      hide Linked, Inv;
      ghost var done, pending := blobs.done, blobs.pending;
      var before := |blobs.ran|;
      assert before == |done|;
      blobs.Flush();
      released := blobs.ran[before..];
      FlushedCases(index.State(), fp, done, pending, released);
    }

    /** Send everything out: nothing stays queued, and every row is ready and durable. */
    method Flush()
      requires Valid()
      modifies index, index.queue, blobs, blobs.blob, blobs.blob.chunks
      ensures Valid() && index.queue.priority == map[] && index.disk == index.rows
      ensures forall id | id in index.rows :: index.rows[id].ready
      ensures SameKnown(old(index.State()), index.State()) && SameIds(old(index.State()), index.State())
    {
      hide Linked, SameKnown, Inv, HashQueue.Next, Hashed, blobs.Valid;
      ghost var s := index.State();
      var released := FlushBlobs();
      CommitAll(released, None);
      ghost var t := index.State();
      IdleEmpty(t, blobs.done);
      index.Flush();
      DiskFlushed(s, t, index.State(), blobs.done);
    }

    /** Fetch a chunk and check it against its hash. */
    method FetchChunk(href: HashRef) returns (r: BlobStore.Fetch)
      ensures r == Checked(fp, href, BlobStore.RetrieveFrom(blobs.suite, blobs.backend, href))
      ensures r.Got? ==> fp(href.node, href.leaf, r.chunk) == href.hash
    {
      r := blobs.Retrieve(href);
      r := Checked(fp, href, r);
    }

    /** What is known of a hash can be fetched, and yields data with that hash, exactly unless it still
        waits for its blob to go out. */
    lemma KnownFetchable(id: nat)
      requires Valid() && id in index.rows
      ensures Known(index.State(), id).pref.Some?
      ensures var href := RefOf(index.State(), id);
        var r := Checked(fp, href, BlobStore.RetrieveFrom(blobs.suite, blobs.backend, href));
        if Waiting(index.queue.priority, id) then r == BlobStore.Missing
        else r.Got? && fp(href.node, href.leaf, r.chunk) == href.hash
    {
      hide BlobStore.RetrieveFrom, BlobStore.AllRetrievable;
      var s := index.State();
      AllKnown(s, blobs.done, blobs.pending);
      blobs.IssuesAnswer();
      if Waiting(s.queue, id) {
        var x := PendingIssue(s, blobs.done, blobs.pending, id);
        assert BlobStore.RetrieveFrom(blobs.suite, blobs.backend, x.href) == BlobStore.Missing;
      } else {
        var x := DoneIssue(s, blobs.done, blobs.pending, id);
        assert BlobStore.RetrieveFrom(blobs.suite, blobs.backend, x.href) == BlobStore.Got(x.chunk);
      }
    }

    /** Every ready row can be fetched, and yields data with its hash. */
    lemma ReadyFetchable(id: nat)
      requires Valid() && id in index.rows && index.rows[id].ready
      ensures var row := index.rows[id];
        && row.pref.Some?
        && var href := HashRef(row.hash, row.node, row.leaf, row.pref.value, None);
           var r := Checked(fp, href, BlobStore.RetrieveFrom(blobs.suite, blobs.backend, href));
           r.Got? && fp(row.node, row.leaf, r.chunk) == row.hash
    {
      var x :| x in blobs.done && ForRow(x, id, index.rows[id]);
      var i :| 0 <= i < |blobs.done| && blobs.done[i] == x;
      assert BlobStore.RetrieveFrom(blobs.suite, blobs.backend, blobs.done[i].href) == BlobStore.Got(x.chunk);
    }
  }

  /** Data that does not have the expected hash is not handed out. */
  function Checked(fp: DataPrint, href: HashRef, r: BlobStore.Fetch): BlobStore.Fetch {
    if r.Got? && fp(href.node, href.leaf, r.chunk) != href.hash then BlobStore.Missing else r
  }

  /** Between insertions every known hash has a reference. */
  lemma AllKnown(s: IndexState, done: seq<Issue>, pending: seq<Issue>)
    requires Inv(s) && Linked(s, done, pending, [], None)
    ensures forall k | k in s.rows :: Known(s, k).pref.Some?
  {
    forall k | k in s.rows
      ensures Known(s, k).pref.Some?
    {
      if Waiting(s.queue, k) {
        var x := CallbackOf(pending, k);
        assert ForItem(x, k, s.queue[k]);
      }
    }
  }

  /** The reference a reader finds for a hash, as the queue or the table tells it. */
  function RefOf(s: IndexState, id: nat): HashRef
    requires id in s.rows && Known(s, id).pref.Some?
  {
    var e := Known(s, id);
    HashRef(s.rows[id].hash, e.node, e.leaf, e.pref.value, None)
  }

  lemma PendingIssue(s: IndexState, done: seq<Issue>, pending: seq<Issue>, id: nat) returns (x: Issue)
    requires Inv(s) && Linked(s, done, pending, [], None) && id in s.rows && Waiting(s.queue, id)
    requires Known(s, id).pref.Some?
    ensures x in pending && x.href == RefOf(s, id)
  {
    x := CallbackOf(pending, id);
    assert ForItem(x, id, s.queue[id]);
  }

  lemma DoneIssue(s: IndexState, done: seq<Issue>, pending: seq<Issue>, id: nat) returns (x: Issue)
    requires Inv(s) && Linked(s, done, pending, [], None) && id in s.rows && !Waiting(s.queue, id)
    requires Known(s, id).pref.Some?
    ensures x in done && x.href == RefOf(s, id)
  {
    if id in s.queue {
      assert Backed(done, id, s.queue[id]);
      x :| x in done && ForItem(x, id, s.queue[id]);
    } else {
      assert RowBacked(done, id, s.rows[id]);
      x :| x in done && ForRow(x, id, s.rows[id]);
    }
  }

  lemma IdleEmpty(s: IndexState, done: seq<Issue>)
    requires Inv(s) && Linked(s, done, [], [], None)
    ensures s.queue == map[] && forall id | id in s.rows :: s.rows[id].ready
  {
    forall p | p in s.queue
      ensures s.queue[p].status == Ready
    {
      assert !Waiting(s.queue, p);
    }
    forall p | p in s.queue
      ensures p in Front(s.queue)
    {
    }
    assert s.queue.Keys == {};
  }

  lemma DiskFlushed(s: IndexState, t: IndexState, u: IndexState, done: seq<Issue>)
    requires HashQueue.Next(t, HashQueue.Step.Flush, u) && Linked(t, done, [], [], None) && SameKnown(s, t)
    ensures Linked(u, done, [], [], None) && SameKnown(s, u)
    ensures u.rows == t.rows == u.disk && u.queue == t.queue && u.counter == t.counter
  {
  }

  // ---------------------------------------------------------------- what a store can have done

  lemma CallbacksAppend(a: seq<Issue>, b: seq<Issue>)
    ensures BlobStore.Callbacks(a + b) == BlobStore.Callbacks(a) + BlobStore.Callbacks(b)
    ensures BlobStore.Callbacks(a + b)[|a|..] == BlobStore.Callbacks(b)
  {
  }

  lemma StoredCases(s: IndexState, fp: DataPrint, done: seq<Issue>, pending: seq<Issue>, done': seq<Issue>,
                    pending': seq<Issue>,
                    issue: Issue, released: seq<nat>)
    requires Linked(s, done, pending, [], Some(issue.callback)) && Waiting(s.queue, issue.callback)
    requires issue.callback !in BlobStore.Callbacks(pending) && Hashed(fp, done) && Hashed(fp, pending)
    requires Hashed(fp, [issue])
    requires || (issue.chunk == [] && done' == done + [issue] && pending' == pending)
             || (issue.chunk != [] && done' == done && pending' == pending + [issue])
             || (issue.chunk != [] && done' == done + pending && pending' == [issue])
    requires released == BlobStore.Callbacks(done')[|done|..]
    ensures Hashed(fp, done') && Hashed(fp, pending')
    ensures Linked(s, done', pending', released, Some(issue.callback))
    ensures forall x | x in pending' && x.callback == issue.callback :: x == issue
    ensures if issue.chunk == [] then released == [issue.callback] && issue in done'
            else issue.callback !in released && issue.callback in BlobStore.Callbacks(pending')
  {
    hide Linked;
    forall x | x in pending
      ensures x.callback != issue.callback
    {
      CallbackIn(pending, x);
    }
    CallbacksSnoc([], issue);
    assert [] + [issue] == [issue] && BlobStore.Callbacks([]) + [issue.callback] == [issue.callback];
    if issue.chunk == [] {
      EmptyStored(s, done, pending, issue);
      CallbacksAppend(done, [issue]);
    } else if done' == done && pending' == pending + [issue] {
      StoredLinked(s, done, pending, issue);
      assert released == [];
      CallbacksSnoc(pending, issue);
    } else {
      FlushLinked(s, done, pending, Some(issue.callback));
      CallbacksAppend(done, pending);
      StoredAfterFlush(s, done', released, issue);
    }
  }

  lemma FlushedCases(s: IndexState, fp: DataPrint, done: seq<Issue>, pending: seq<Issue>, released: seq<nat>)
    requires Linked(s, done, pending, [], None) && Hashed(fp, done) && Hashed(fp, pending)
    requires released == BlobStore.Callbacks(done + pending)[|done|..]
    ensures Hashed(fp, done + pending) && Linked(s, done + pending, [], released, None)
  {
    FlushLinked(s, done, pending, None);
    CallbacksAppend(done, pending);
  }

  lemma CommitAllowed(s: IndexState, done: seq<Issue>, pending: seq<Issue>, owed: seq<nat>, busy: Option<nat>)
    requires Linked(s, done, pending, owed, busy) && owed != [] && busy != Some(owed[0])
    ensures forall fired :: HashQueue.Enabled(s, Commit(owed[0], None, fired))
  {
  }
}
