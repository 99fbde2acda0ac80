/** What the steps of the hash index leave alone: which hashes wait, and what is known about each of them. */
module IndexLaws {
  import opened Common
  import opened HashTypes
  import opened UniquePriorityQueue
  import opened HashQueue
  import opened HashIndex

  predicate Waiting(queue: Pending, id: nat) {
    id in queue && queue[id].status == Status.Pending
  }

  lemma FrontReadyItems(q: Pending)
    ensures forall k | k in Front(q) :: k in q && q[k].status == Ready
  {
  }

  lemma CommitQueue(queue: Pending, c: nat, queue': Pending)
    requires c in queue && queue' == Readied(queue, c) - Front(Readied(queue, c))
    ensures forall k :: Waiting(queue', k) <==> Waiting(queue, k) && k != c
    ensures forall k | Waiting(queue', k) :: queue'[k] == queue[k]
  {
  }

  lemma CommitIs(s: IndexState, c: nat, fired: bool, s': IndexState)
    requires Next(s, Commit(c, None, fired), s')
    ensures c in s.queue && s.queue[c].value.pref.Some? && s'.queue == Readied(s.queue, c) - Front(Readied(s.queue, c))
    ensures s'.rows == Publish(s.rows, Readied(s.queue, c))
  {
  }

  lemma InvQueueOk(s: IndexState)
    requires Inv(s)
    ensures QueueOk(s.rows, s.queue)
  {
  }

  /** No row came or went. */
  ghost predicate SameIds(s: IndexState, s': IndexState) {
    s'.rows.Keys == s.rows.Keys && s'.counter == s.counter
  }

  lemma CommitIds(s: IndexState, c: nat, fired: bool, s': IndexState)
    requires Next(s, Commit(c, None, fired), s')
    ensures SameIds(s, s')
  {
  }

  lemma IdsSelf(s: IndexState)
    ensures SameIds(s, s)
  {
  }

  lemma IdsChain(a: IndexState, b: IndexState, c: IndexState)
    requires SameIds(a, b) && SameIds(b, c)
    ensures SameIds(a, c)
  {
  }

  lemma UpdateIds(a: IndexState, s: IndexState, id: nat, e: Entry, s': IndexState)
    requires SameIds(a, s) && Next(s, Update(id, e), s')
    ensures SameIds(a, s')
  {
  }

  lemma MayUpdate(s: IndexState, id: nat, e: Entry)
    requires Waiting(s.queue, id) && s.queue[id].key == e.hash
    ensures Enabled(s, Update(id, e))
  {
  }

  // ---------------------------------------------------------------- what is known stays known

  /** What is known about a hash, in the queue or in the table, does not change. */
  ghost predicate SameKnown(s: IndexState, s': IndexState) {
    forall k | k in s.rows :: k in s'.rows && s'.rows[k].hash == s.rows[k].hash && Known(s', k) == Known(s, k)
  }

  ghost predicate SameKnownBut(s: IndexState, s': IndexState, id: nat) {
    forall k | k in s.rows ::
      k in s'.rows && s'.rows[k].hash == s.rows[k].hash && (k != id ==> Known(s', k) == Known(s, k))
  }

  lemma SameKnownSelf(s: IndexState)
    ensures SameKnown(s, s)
  {
  }

  lemma SameKnownChain(a: IndexState, b: IndexState, c: IndexState)
    requires SameKnown(a, b) && SameKnown(b, c)
    ensures SameKnown(a, c)
  {
  }

  lemma ButChain(a: IndexState, b: IndexState, c: IndexState, id: nat)
    requires SameKnownBut(a, b, id) && SameKnown(b, c) && id in b.rows
    ensures SameKnownBut(a, c, id) && id in c.rows && Known(c, id) == Known(b, id)
  {
  }

  lemma BeforeButChain(a: IndexState, b: IndexState, c: IndexState, id: nat)
    requires SameKnown(a, b) && SameKnownBut(b, c, id)
    ensures SameKnownBut(a, c, id)
  {
  }

  /** Publishing a front of the queue moves entries into the table as they are. */
  lemma PublishKnown(rows: Rows, q: Pending, k: nat)
    requires QueueOk(rows, q) && k in rows
    ensures var rows' := Publish(rows, q); var q' := q - Front(q);
      && k in rows' && rows'[k].hash == rows[k].hash
      && (if k in q' then q'[k].value else RowEntry(k, rows'[k])) ==
         (if k in q then q[k].value else RowEntry(k, rows[k]))
  {
    hide Front;
  }

  lemma KnownAfter(s: IndexState, q: Pending, s': IndexState, k: nat)
    requires QueueOk(s.rows, q) && k in s.rows && s'.rows == Publish(s.rows, q) && s'.queue == q - Front(q)
    ensures k in s'.rows && s'.rows[k].hash == s.rows[k].hash && Known(s', k) == Known(s.(queue := q), k)
  {
    PublishKnown(s.rows, q, k);
  }

  lemma KnownReadied(s: IndexState, c: nat, k: nat)
    requires c in s.queue && k in s.rows
    ensures Known(s.(queue := Readied(s.queue, c)), k) == Known(s, k)
  {
  }

  lemma CommitKnown(s: IndexState, c: nat, fired: bool, s': IndexState)
    requires Inv(s) && Next(s, Commit(c, None, fired), s')
    ensures SameKnown(s, s')
  {
    hide Inv, Next, Front, Publish, QueueOk, Readied, Known;
    InvQueueOk(s);
    CommitIs(s, c, fired, s');
    ReadyKeeps(s.rows, s.queue, c);
    forall k | k in s.rows
      ensures k in s'.rows && s'.rows[k].hash == s.rows[k].hash && Known(s', k) == Known(s, k)
    {
      KnownAfter(s, Readied(s.queue, c), s', k);
      KnownReadied(s, c, k);
    }
  }

  lemma UpdateKnown(a: IndexState, s: IndexState, id: nat, e: Entry, s': IndexState)
    requires SameKnown(a, s) && Inv(s) && Next(s, Update(id, e), s')
    ensures SameKnownBut(a, s', id) && id in s'.rows && Known(s', id) == NewEntry(id, e)
  {
  }

  /** The next id was given to a new row. */
  ghost predicate OneMoreId(s: IndexState, s': IndexState) {
    s'.counter == s.counter + 1 && s'.rows.Keys == s.rows.Keys + {s'.counter}
  }

  lemma ReserveKnown(s: IndexState, e: Entry, fired: bool, s': IndexState)
    requires Inv(s) && Next(s, Reserve(e, fired), s')
    ensures SameKnown(s, s') && s'.counter !in s.rows && s'.counter in s'.rows && s'.rows[s'.counter].hash == e.hash
    ensures OneMoreId(s, s')
  {
    AllBelow(s.rows, s.queue, s.counter);
  }

  lemma ReserveChain(s: IndexState, t: IndexState, u: IndexState, e: Entry, fired: bool)
    requires SameKnown(s, t) && t.counter !in s.rows && t.counter in t.rows && t.rows[t.counter].hash == e.hash
    requires SameKnownBut(t, u, t.counter) && OneMoreId(s, t) && SameIds(t, u)
    ensures SameKnown(s, u) && t.counter in u.rows && u.rows[t.counter].hash == e.hash
    ensures OneMoreId(s, u) && u.counter == t.counter
  {
  }

  lemma KnownUnique(s: IndexState, id: nat, hash: Bytes, pref: Option<ChunkRef>)
    requires Inv(s) && id in s.rows && s.rows[id].hash == hash
    requires pref.Some? <==> Located(s, hash)
    requires pref.Some? ==> exists k :: k in s.rows && s.rows[k].hash == hash && Known(s, k).pref == pref
    ensures pref.Some? && Known(s, id).pref == pref
  {
  }
}
