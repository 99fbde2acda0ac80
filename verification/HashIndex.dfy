/** The hash index: the table, the queue of pending hashes, and the loop that publishes them in order. */
module HashIndex {
  import opened Common
  import opened HashTypes
  import opened OrderedCollection
  import opened UniquePriorityQueue
  import opened HashQueue

  datatype ReserveResult = HashKnown(id: nat) | ReserveOk(id: nat)

  datatype Fetched<T> = Retry | Fetched(value: Option<T>)

  /** The entry of a row as the table alone tells it. */
  function RowEntry(id: nat, row: IndexRow): QueueEntry {
    QueueEntry(id, row.node, row.leaf, row.childs, row.pref)
  }

  /** What is known about the hash in row `id`: the queue knows more than the table. */
  function Known(s: IndexState, id: nat): QueueEntry
    requires id in s.rows
  {
    if id in s.queue then s.queue[id].value else RowEntry(id, s.rows[id])
  }

  class HashIndex {
    const queue: Queue<Bytes, QueueEntry>
    var rows: Rows
    var disk: Rows
    var counter: nat

    ghost function State(): IndexState
      reads this, queue
    {
      IndexState(rows, disk, queue.priority, counter)
    }

    ghost predicate Valid()
      reads this, queue
    {
      queue.Valid() && Inv(State())
    }

    /** Open the database a crash left behind: ids continue after the largest one in the durable table, and
        rows that never became ready are dropped. */
    constructor (disk: Rows, ghost bound: nat)
      requires RowsOk(disk, bound)
      ensures Valid() && fresh(queue)
      ensures State() == IndexState(ReadyRows(disk), disk, map[], counter) && IsMaxId(disk, counter)
    {
      var id := MaxId(disk);
      this.disk, rows, counter := disk, ReadyRows(disk), id;
      queue := new Queue<Bytes, QueueEntry>();
      new;
      assert Front(queue.priority) == {};
    }

    static method MaxId(rows: Rows) returns (id: nat)
      ensures IsMaxId(rows, id)
    {
      id := 0;
      var left := rows.Keys;
      while left != {}
        invariant left <= rows.Keys && (id == 0 || id in rows)
        invariant forall k | k in rows && k !in left :: k <= id
        decreases left
      {
        var k :| k in left;
        id := if k > id then k else id;
        left := left - {k};
      }
    }

    method MaybeFlush(fired: bool)
      modifies this`disk
      ensures State() == Flushed(old(State()), fired)
    {
      if fired {
        disk := rows;
      }
    }

    method HashLocate(hash: Bytes) returns (found: Option<QueueEntry>)
      ensures found.None? ==> forall id | id in rows :: rows[id].hash != hash
      ensures found.Some? ==>
        found.value.id in rows && rows[found.value.id].hash == hash
          && found.value == RowEntry(found.value.id, rows[found.value.id])
    {
      var left := rows.Keys;
      while left != {}
        invariant left <= rows.Keys && forall id | id in rows && id !in left :: rows[id].hash != hash
        decreases left
      {
        var id :| id in left;
        if rows[id].hash == hash {
          return Some(RowEntry(id, rows[id]));
        }
        left := left - {id};
      }
      found := None;
    }

    method Locate(hash: Bytes) returns (found: Option<QueueEntry>)
      requires Valid()
      ensures found.Some? <==> Located(State(), hash)
      ensures found.Some? ==>
        found.value.id in rows && rows[found.value.id].hash == hash && found.value == Known(State(), found.value.id)
    {
      var key := queue.FindKey(hash);
      found := queue.FindValueOfKey(hash);
      if key.Some? {
        assert queue.priority[key.value].value.id == key.value;
        assert key.value in rows && rows[key.value].hash == hash;
      } else {
        assert found.None?;
        found := HashLocate(hash);
      }
    }

    method Reserve(entry: Entry, fired: bool) returns (result: ReserveResult)
      requires Valid() && entry.hash != []
      modifies this, queue
      ensures Valid()
      ensures if old(Located(State(), entry.hash)) then
          result.HashKnown? && State() == old(State()) && result.id in rows && rows[result.id].hash == entry.hash
        else
          result == ReserveOk(counter) && Next(old(State()), Step.Reserve(entry, fired), State())
      ensures result.ReserveOk? ==>
        rows == old(rows)[counter := IndexRow(entry.hash, entry.node, entry.leaf, entry.childs, entry.pref, false)]
    {
      var found := Locate(entry.hash);
      if found.Some? {
        return HashKnown(found.value.id);
      }
      var id := ReserveNew(entry, fired);
      result := ReserveOk(id);
    }

    method ReserveNew(entry: Entry, fired: bool) returns (id: nat)
      requires Valid() && Enabled(State(), Step.Reserve(entry, fired))
      modifies this, queue
      ensures Valid() && id == counter && Next(old(State()), Step.Reserve(entry, fired), State())
    {
      hide RowsOk, Front, QueueOk, Located;
      MaybeFlush(fired);
      ghost var s := State();
      SameRows(old(State()), s, entry.hash);
      ReserveKeeps(s, entry);
      AllBelow(s.rows, s.queue, s.counter);
      KeysAreHashes(s, entry.hash);
      id := counter + 1;
      counter := id;
      rows := rows[id := NewRow(entry)];
      var ok := queue.PutValue(id, entry.hash, NewEntry(id, entry));
      assert ok;
    }

    /** What is stored where, as soon as that is known. */
    method UpdateReserved(id: nat, entry: Entry)
      requires Valid() && Enabled(State(), Update(id, entry))
      modifies queue
      ensures Valid() && Next(old(State()), Update(id, entry), State())
    {
      NextInv(State(), Update(id, entry), State().(queue := Updated(State().queue, id, entry)));
      assert queue.FindKey(entry.hash) == Some(id);
      queue.UpdateValue(entry.hash, (e: QueueEntry) => QueueEntry(e.id, entry.node, entry.leaf, entry.childs,
        entry.pref));
    }

    /** Publish ready entries until one that is not ready is first in line. */
    method InsertCompletedInOrder(fired: bool)
      requires queue.Valid() && RowsOk(rows, counter) && QueueOk(rows, queue.priority)
      modifies this, queue
      ensures queue.Valid() && State() == Flushed(Drained(old(State())), fired)
    {
      ghost var s := State();
      hide Front, RowsOk, QueueOk, Drained;
      while true
        invariant queue.Valid() && RowsOk(rows, counter) && QueueOk(rows, queue.priority)
        invariant disk == s.disk && counter == s.counter
        invariant Drained(State()) == Drained(s)
        decreases |queue.priority|
      {
        ghost var before := State();
        var popped := queue.PopMinIfComplete();
        if popped.None? {
          NothingReady(before);
          break;
        }
        var (id, _, e) := popped.value;
        DrainOne(before, id);
        assert e.id == id;
        rows := rows[id := Published(rows[id], e)];
      }
      MaybeFlush(fired);
    }

    method Commit(id: nat, update: Option<Entry>, fired: bool)
      requires Valid() && Enabled(State(), Step.Commit(id, update, fired))
      modifies this, queue
      ensures Valid() && Next(old(State()), Step.Commit(id, update, fired), State())
    {
      ghost var s := State();
      if update.Some? {
        UpdateReserved(id, update.value);
      }
      ReadyKeeps(rows, queue.priority, id);
      queue.SetReady(id);
      InsertCompletedInOrder(fired);
      NextInv(s, Step.Commit(id, update, fired), State());
    }

    method Flush()
      requires Valid()
      modifies this`disk
      ensures Valid() && Next(old(State()), Step.Flush, State())
    {
      disk := rows;
    }

    /** Whether the data of a hash can be located already. */
    method FetchPersistentRef(hash: Bytes) returns (r: Fetched<ChunkRef>)
      requires Valid()
      ensures r == Fetched(None) <==> !Located(State(), hash)
      ensures r.Retry? ==> exists id :: id in rows && rows[id].hash == hash && Known(State(), id).pref == None
      ensures r.Fetched? && r.value.Some? ==>
        exists id :: id in rows && rows[id].hash == hash && Known(State(), id).pref == r.value
    {
      var found := Locate(hash);
      r := if found.None? then Fetched(None) else if found.value.pref.None? then Retry else Fetched(found.value.pref);
    }
  }

  lemma SameRows(s: IndexState, s': IndexState, hash: Bytes)
    requires s'.rows == s.rows
    ensures Located(s, hash) <==> Located(s', hash)
  {
  }

  lemma KeysAreHashes(s: IndexState, hash: Bytes)
    requires QueueOk(s.rows, s.queue) && !Located(s, hash)
    ensures forall q | q in s.queue :: s.queue[q].key != hash
  {
  }

  lemma NothingReady(s: IndexState)
    requires forall p | IsMin(s.queue, p) :: s.queue[p].status == Status.Pending
    ensures Drained(s) == s
  {
    if p :| p in Front(s.queue) {
      MinExists(s.queue.Keys);
      var m :| m in s.queue && forall j | j in s.queue :: m <= j;
      assert IsMin(s.queue, m);
      assert false;
    }
    assert Front(s.queue) == {};
  }

  lemma MinExists(ids: set<nat>)
    requires ids != {}
    ensures exists m :: m in ids && forall j | j in ids :: m <= j
  {
    var a :| a in ids;
    if rest :| rest in ids && rest < a {
      MinBelow(ids, a);
    }
  }

  lemma MinBelow(ids: set<nat>, a: nat)
    requires a in ids
    ensures exists m :: m in ids && forall j | j in ids :: m <= j
    decreases a
  {
    if b :| b in ids && b < a { MinBelow(ids, b); }
  }

  /** What comes after the first entry, if that is ready. */
  lemma FrontTail(queue: Pending, id: nat)
    requires IsMin(queue, id) && queue[id].status == Ready
    ensures Front(queue) == Front(queue - {id}) + {id}
  {
    var rest := queue - {id};
    forall p | p in Front(queue) && p != id
      ensures p in Front(rest)
    {
    }
    forall p | p in Front(rest)
      ensures p in Front(queue)
    {
      forall q | q in queue && q <= p
        ensures queue[q].status == Ready
      {
        if q != id { assert q in rest; }
      }
    }
  }

  /** Publishing the first entry and then the front of the rest publishes the front. */
  lemma DrainOne(s: IndexState, id: nat)
    requires IsMin(s.queue, id) && s.queue[id].status == Ready && RowsOk(s.rows, s.counter) && QueueOk(s.rows, s.queue)
    ensures id in s.rows && s.queue[id].value.id == id
    ensures var rows := s.rows[id := Published(s.rows[id], s.queue[id].value)];
      && RowsOk(rows, s.counter) && QueueOk(rows, s.queue - {id})
      && Drained(s.(rows := rows, queue := s.queue - {id})) == Drained(s)
  {
    hide Front, RowsOk, QueueOk, Publish;
    PublishFirst(s.rows, s.queue, s.counter, id);
    FrontTail(s.queue, id);
    var rest := s.queue - {id};
    FrontQueued(rest);
    WithoutFront(s.queue, id, Front(rest));
    PublishRest(s.rows, s.queue, id);
  }

  lemma WithoutFront(queue: Pending, id: nat, front: set<nat>)
    ensures queue - (front + {id}) == queue - {id} - front
  {
  }

  lemma PublishRest(rows: Rows, queue: Pending, id: nat)
    requires id in rows && id in queue && Front(queue) == Front(queue - {id}) + {id}
    requires Front(queue - {id}) <= (queue - {id}).Keys
    ensures Publish(rows[id := Published(rows[id], queue[id].value)], queue - {id}) == Publish(rows, queue)
  {
    hide Front;
  }

  lemma PublishFirst(rows: Rows, queue: Pending, counter: nat, id: nat)
    requires IsMin(queue, id) && queue[id].status == Ready && RowsOk(rows, counter) && QueueOk(rows, queue)
    ensures id in rows && queue[id].value.id == id
    ensures var rows' := rows[id := Published(rows[id], queue[id].value)];
      RowsOk(rows', counter) && QueueOk(rows', queue - {id})
  {
  }

  lemma FrontQueued(queue: Pending)
    ensures Front(queue) <= queue.Keys
  {
  }
}
