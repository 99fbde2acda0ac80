/**
  Rebuilding the hash index from the nodes a recovery walk finds. Children are reserved as soon as their
  parent is seen, so for a while the queue holds hashes that are only known by name; by the end of the
  walk each of them has been seen itself.
*/
module Recovery {
  import opened Common
  import opened HashTypes
  import opened UniquePriorityQueue
  import opened HashQueue
  import opened HashIndex
  import opened IndexLaws
  import opened RecoverNodes

  // ---------------------------------------------------------------- what recovering a node achieves

  /** The child ids name, in order, rows with the hashes of the node's children. */
  ghost predicate Resolves(rows: Rows, ids: Option<seq<nat>>, childs: Option<seq<HashRef>>) {
    match childs
    case None => ids.None?
    case Some(refs) =>
      ids.Some? && |ids.value| == |refs|
      && forall i | 0 <= i < |refs| :: ids.value[i] in rows && rows[ids.value[i]].hash == refs[i].hash
  }

  /** The entry in row `id` is that of the node, and it has been committed. */
  ghost predicate RecoveredAs(s: IndexState, node: Node, id: nat) {
    && id in s.rows && s.rows[id].hash == node.href.hash && !Waiting(s.queue, id)
    && Known(s, id).node == node.href.node && Known(s, id).leaf == node.href.leaf
    && Resolves(s.rows, Known(s, id).childs, node.childs)
  }

  ghost predicate Recovered(s: IndexState, node: Node) {
    exists id :: RecoveredAs(s, node, id)
  }

  function ChildHashes(node: Node): set<Bytes> {
    if node.childs.None? then {} else set h | h in node.childs.value :: h.hash
  }

  predicate SameHashes(a: seq<HashRef>, b: seq<HashRef>) {
    |a| == |b| && forall i | 0 <= i < |a| :: a[i].hash == b[i].hash
  }

  /** Two nodes of the same hash are the same node, as far as the index cares. */
  ghost predicate Alike(a: Node, b: Node) {
    a.href.hash == b.href.hash ==>
      && a.href.node == b.href.node && a.href.leaf == b.href.leaf
      && a.childs.Some? == b.childs.Some?
      && (a.childs.Some? ==> SameHashes(a.childs.value, b.childs.value))
  }

  /** The nodes of whole trees: named consistently, and with every child among them. */
  ghost predicate WholeTrees(nodes: seq<Node>) {
    && (forall a, b | a in nodes && b in nodes :: Alike(a, b))
    && (forall a | a in nodes ::
          a.href.hash != [] && forall h | h in ChildHashes(a) :: h != [] && exists b :: b in nodes && b.href.hash == h)
  }

  function HashesOf(nodes: seq<Node>): set<Bytes> {
    set n | n in nodes :: n.href.hash
  }

  ghost predicate AllRecovered(s: IndexState, seen: seq<Node>) {
    forall n | n in seen :: Recovered(s, n)
  }

  /** Under which local id each blob is known. */
  type BlobIds = Bytes -> int

  /** `pref` names the very place in the very blob that the reference of `n` does, and the local id of
      that blob; the latter is not part of stored references. */
  predicate PlacedAs(pref: Option<ChunkRef>, n: Node, find: BlobIds) {
    && pref.Some?
    && pref.value.blobId == Some(find(n.href.pref.blobName))
    && pref.value.blobName == n.href.pref.blobName
    && pref.value.offset == n.href.pref.offset
    && pref.value.length == n.href.pref.length
    && pref.value.key == n.href.pref.key
  }

  /** What is known about row `id` points where the reference of some such node does. */
  ghost predicate PlacedBy(s: IndexState, seen: seq<Node>, find: BlobIds, id: nat)
    requires id in s.rows
  {
    exists n :: n in seen && n.href.hash == s.rows[id].hash && PlacedAs(Known(s, id).pref, n, find)
  }

  ghost predicate CommittedSeen(s: IndexState, seen: seq<Node>, find: BlobIds) {
    forall id | id in s.rows && !Waiting(s.queue, id) :: PlacedBy(s, seen, find, id)
  }

  /** A hash that waits is a child of a node seen, but was not seen itself. */
  ghost predicate Expected(seen: seq<Node>, hash: Bytes) {
    hash !in HashesOf(seen) && exists n :: n in seen && hash in ChildHashes(n)
  }

  ghost predicate WaitingExpected(s: IndexState, seen: seq<Node>) {
    forall id | id in s.rows && Waiting(s.queue, id) :: Expected(seen, s.rows[id].hash)
  }

  /** Where the index stands once `seen` has been recovered: those nodes are committed, whatever is
      committed was one of them and points where that node's reference does, and whatever waits is a
      child of one of them, not seen itself yet. */
  ghost predicate Rebuilding(s: IndexState, seen: seq<Node>, find: BlobIds) {
    Inv(s) && AllRecovered(s, seen) && CommittedSeen(s, seen, find) && WaitingExpected(s, seen)
  }

  // ---------------------------------------------------------------- small steps

  /** From `s` to `s'` hashes were only reserved, and only those in `names`. */
  ghost predicate OnlyReserved(s: IndexState, s': IndexState, names: set<Bytes>) {
    && SameKnown(s, s')
    && (forall id | id in s.rows :: Waiting(s'.queue, id) <==> Waiting(s.queue, id))
    && (forall id | id in s.rows :: id in s'.queue <==> id in s.queue)
    && (forall id | id in s'.rows && id !in s.rows :: Waiting(s'.queue, id) && s'.rows[id].hash in names)
  }

  lemma ReservedSelf(s: IndexState, names: set<Bytes>)
    ensures OnlyReserved(s, s, names)
  {
  }

  lemma ReservedChain(a: IndexState, b: IndexState, c: IndexState, names: set<Bytes>)
    requires OnlyReserved(a, b, names) && OnlyReserved(b, c, names)
    ensures OnlyReserved(a, c, names)
  {
    SameKnownChain(a, b, c);
    forall id | id in c.rows && id !in a.rows
      ensures Waiting(c.queue, id) && c.rows[id].hash in names
    {
      if id in b.rows { assert Waiting(b.queue, id); }
    }
  }

  lemma ReservedOne(s: IndexState, e: Entry, fired: bool, s': IndexState, names: set<Bytes>)
    requires Inv(s) && Next(s, Reserve(e, fired), s') && e.hash in names
    ensures OnlyReserved(s, s', names)
  {
    hide Inv, SameKnown, Located, OneMoreId;
    ReserveKnown(s, e, fired, s');
    NewRowIs(s, e, fired, s');
  }

  lemma NewRowIs(s: IndexState, e: Entry, fired: bool, s': IndexState)
    requires Inv(s) && Next(s, Reserve(e, fired), s')
    ensures s'.counter !in s.rows && s'.counter !in s.queue
    ensures s'.rows == s.rows[s'.counter := NewRow(e)]
    ensures s'.queue == s.queue[s'.counter := Item(Status.Pending, e.hash, NewEntry(s'.counter, e))]
  {
    hide Front, Located;
    AllBelow(s.rows, s.queue, s.counter);
  }

  lemma ResolvesGrow(s: IndexState, s': IndexState, ids: Option<seq<nat>>, childs: Option<seq<HashRef>>)
    requires Resolves(s.rows, ids, childs)
    requires forall k | k in s.rows :: k in s'.rows && s'.rows[k].hash == s.rows[k].hash
    ensures Resolves(s'.rows, ids, childs)
  {
  }

  lemma ReservedRecovered(s: IndexState, s': IndexState, names: set<Bytes>, node: Node)
    requires OnlyReserved(s, s', names) && Recovered(s, node)
    ensures Recovered(s', node)
  {
    var id :| RecoveredAs(s, node, id);
    ResolvesGrow(s, s', Known(s, id).childs, node.childs);
    assert RecoveredAs(s', node, id);
  }

  lemma AlikeRecovered(s: IndexState, a: Node, b: Node)
    requires Alike(a, b) && a.href.hash == b.href.hash && Recovered(s, a)
    ensures Recovered(s, b)
  {
    var id :| RecoveredAs(s, a, id);
    assert RecoveredAs(s, b, id);
  }

  lemma UpdateStep(s: IndexState, id: nat, e: Entry)
    requires Inv(s) && HashQueue.Enabled(s, Commit(id, Some(e), false))
    ensures var m := s.(queue := Updated(s.queue, id, e));
      && Inv(m) && SameKnownBut(s, m, id) && id in m.rows && Known(m, id) == NewEntry(id, e)
      && m.rows == s.rows && id in m.queue && m.queue[id].value.pref.Some?
      && forall k :: Waiting(m.queue, k) <==> Waiting(s.queue, k)
  {
    var m := s.(queue := Updated(s.queue, id, e));
    assert Next(s, Update(id, e), m);
    NextInv(s, Update(id, e), m);
    SameKnownSelf(s);
    UpdateKnown(s, s, id, e, m);
  }

  lemma CommitTwoSteps(s: IndexState, id: nat, e: Entry, fired: bool, s': IndexState)
    requires Next(s, Commit(id, Some(e), fired), s')
    ensures HashQueue.Enabled(s, Commit(id, Some(e), false))
    ensures var m := s.(queue := Updated(s.queue, id, e));
      id in m.queue && m.queue[id].value.pref.Some? && Next(m, Commit(id, None, fired), s')
  {
  }

  /** Committing the entry of row `id` changes what is known about that row only. */
  lemma CommitEntry(s: IndexState, id: nat, e: Entry, fired: bool, s': IndexState)
    requires Inv(s) && Next(s, Commit(id, Some(e), fired), s')
    ensures SameKnownBut(s, s', id) && id in s'.rows && Known(s', id) == NewEntry(id, e)
    ensures forall k :: Waiting(s'.queue, k) <==> Waiting(s.queue, k) && k != id
    ensures s'.rows.Keys == s.rows.Keys
  {
    hide Inv, SameKnown, SameKnownBut, Next, Waiting, Readied, Front, HashQueue.Enabled;
    CommitTwoSteps(s, id, e, fired, s');
    var m := s.(queue := Updated(s.queue, id, e));
    UpdateStep(s, id, e);
    CommitKnown(m, id, fired, s');
    ButChain(s, m, s', id);
    CommitIs(m, id, fired, s');
    CommitQueue(m.queue, id, s'.queue);
  }

  // ---------------------------------------------------------------- one node

  method ChildId(index: HashIndex, h: HashRef, ghost names: set<Bytes>) returns (id: nat)
    requires index.Valid() && h.hash != [] && h.hash in names
    modifies index, index.queue
    ensures index.Valid() && id in index.rows && index.rows[id].hash == h.hash
    ensures OnlyReserved(old(index.State()), index.State(), names)
  {
    hide Inv, Next, Located, OnlyReserved;
    ghost var s := index.State();
    var entry := Entry(h.hash, h.node, h.leaf, None, Some(h.pref));
    var fired: bool := *;
    var result := index.Reserve(entry, fired);
    id := result.id;
    if result.ReserveOk? {
      ReservedOne(s, entry, fired, index.State(), names);
      ReserveKnown(s, entry, fired, index.State());
    } else {
      ReservedSelf(s, names);
    }
  }

  /** Each child's id, reserving those that are new. */
  method ChildIds(index: HashIndex, refs: seq<HashRef>) returns (ids: seq<nat>)
    requires index.Valid() && forall h | h in refs :: h.hash != []
    modifies index, index.queue
    ensures index.Valid() && Resolves(index.rows, Some(ids), Some(refs))
    ensures OnlyReserved(old(index.State()), index.State(), set h | h in refs :: h.hash)
  {
    hide Inv, OnlyReserved;
    ids := [];
    ghost var names := set h | h in refs :: h.hash;
    ReservedSelf(index.State(), names);
    for i := 0 to |refs|
      invariant index.Valid() && |ids| == i
      invariant forall j | 0 <= j < i :: ids[j] in index.rows && index.rows[ids[j]].hash == refs[j].hash
      invariant OnlyReserved(old(index.State()), index.State(), names)
    {
      ghost var s := index.State();
      var id := ChildId(index, refs[i], names);
      ReservedChain(old(index.State()), s, index.State(), names);
      ReservedRows(s, index.State(), names);
      ids := ids + [id];
    }
  }

  lemma ReservedRows(s: IndexState, s': IndexState, names: set<Bytes>)
    requires OnlyReserved(s, s', names)
    ensures forall k | k in s.rows :: k in s'.rows && s'.rows[k].hash == s.rows[k].hash
  {
  }

  lemma ReservedMore(s: IndexState, s': IndexState, names: set<Bytes>, more: set<Bytes>)
    requires OnlyReserved(s, s', names) && names <= more
    ensures OnlyReserved(s, s', more)
  {
  }

  /** A hash that was recovered before has its row already. */
  lemma NewRowUnseen(s: IndexState, s': IndexState, names: set<Bytes>, seen: seq<Node>, k: nat)
    requires AllRecovered(s, seen) && Inv(s') && OnlyReserved(s, s', names) && k in s'.rows && k !in s.rows
    ensures s'.rows[k].hash !in HashesOf(seen)
  {
  }

  lemma ExpectedSnoc(seen: seq<Node>, node: Node, hash: Bytes)
    requires Expected(seen, hash) || (hash !in HashesOf(seen) && hash in ChildHashes(node))
    requires hash != node.href.hash
    ensures Expected(seen + [node], hash)
  {
  }

  lemma StillRecovered(s: IndexState, s': IndexState, names: set<Bytes>, seen: seq<Node>)
    requires OnlyReserved(s, s', names) && AllRecovered(s, seen)
    ensures AllRecovered(s', seen)
  {
    forall n | n in seen
      ensures Recovered(s', n)
    {
      ReservedRecovered(s, s', names, n);
    }
  }

  /** Hashes that wait after reserving the children of `node`, other than its own, are expected. */
  lemma StillExpected(s: IndexState, s': IndexState, seen: seq<Node>, node: Node, k: nat, find: BlobIds)
    requires Rebuilding(s, seen, find) && Inv(s') && OnlyReserved(s, s', ChildHashes(node) + {node.href.hash})
    requires k in s'.rows && Waiting(s'.queue, k) && s'.rows[k].hash != node.href.hash
    ensures Expected(seen + [node], s'.rows[k].hash)
  {
    hide Inv, Expected;
    if k !in s.rows { NewRowUnseen(s, s', ChildHashes(node) + {node.href.hash}, seen, k); }
    ExpectedSnoc(seen, node, s'.rows[k].hash);
  }

  lemma RecoveredSnoc(s: IndexState, seen: seq<Node>, node: Node)
    requires AllRecovered(s, seen) && Recovered(s, node)
    ensures AllRecovered(s, seen + [node])
  {
  }

  lemma StillCommitted(s: IndexState, s': IndexState, names: set<Bytes>, seen: seq<Node>, node: Node, find: BlobIds)
    requires CommittedSeen(s, seen, find) && OnlyReserved(s, s', names)
    ensures CommittedSeen(s', seen + [node], find)
  {
    hide Known;
    forall k | k in s'.rows && !Waiting(s'.queue, k)
      ensures PlacedBy(s', seen + [node], find, k)
    {
      assert PlacedBy(s, seen, find, k);
      var n :| n in seen && n.href.hash == s.rows[k].hash && PlacedAs(Known(s, k).pref, n, find);
      assert n in seen + [node];
    }
  }

  lemma TwinOf(s: IndexState, s': IndexState, names: set<Bytes>, seen: seq<Node>, node: Node, id: nat,
               find: BlobIds) returns (twin: Node)
    requires CommittedSeen(s, seen, find) && OnlyReserved(s, s', names)
    requires id in s'.rows && s'.rows[id].hash == node.href.hash && id !in s'.queue
    ensures twin in seen && twin.href.hash == node.href.hash
  {
    assert id in s.rows && !Waiting(s.queue, id);
    assert PlacedBy(s, seen, find, id);
    twin :| twin in seen && twin.href.hash == node.href.hash;
  }

  /** A node whose hash is committed already was recovered before. */
  lemma KnownBefore(s: IndexState, s': IndexState, seen: seq<Node>, node: Node, id: nat, find: BlobIds)
    requires Rebuilding(s, seen, find) && Inv(s') && OnlyReserved(s, s', ChildHashes(node) + {node.href.hash})
    requires forall a | a in seen :: Alike(a, node)
    requires id in s'.rows && s'.rows[id].hash == node.href.hash && id !in s'.queue
    ensures Rebuilding(s', seen + [node], find)
  {
    hide Recovered, Alike, Expected, OnlyReserved, Inv, CommittedSeen, HashesOf;
    var names := ChildHashes(node) + {node.href.hash};
    var twin := TwinOf(s, s', names, seen, node, id, find);
    StillRecovered(s, s', names, seen);
    AlikeRecovered(s', twin, node);
    RecoveredSnoc(s', seen, node);
    StillCommitted(s, s', names, seen, node, find);
    forall k | k in s'.rows && Waiting(s'.queue, k)
      ensures Expected(seen + [node], s'.rows[k].hash)
    {
      if s'.rows[k].hash == node.href.hash { OneRow(s', id, k); }
      StillExpected(s, s', seen, node, k, find);
    }
  }

  /** Two rows never share a hash. */
  lemma OneRow(s: IndexState, id: nat, k: nat)
    requires Inv(s) && id in s.rows && k in s.rows && s.rows[id].hash == s.rows[k].hash
    ensures id == k
  {
  }

  lemma CommitRecovers(s: IndexState, id: nat, e: Entry, s': IndexState, node: Node)
    requires SameKnownBut(s, s', id) && id in s'.rows && Known(s', id) == NewEntry(id, e) && !Waiting(s'.queue, id)
    requires id in s.rows && s.rows[id].hash == e.hash == node.href.hash
    requires e.node == node.href.node && e.leaf == node.href.leaf && Resolves(s.rows, e.childs, node.childs)
    ensures Recovered(s', node)
  {
    ResolvesGrow(s, s', e.childs, node.childs);
    assert RecoveredAs(s', node, id);
  }

  lemma CommitKeepsRecovered(s: IndexState, id: nat, s': IndexState, n: Node)
    requires SameKnownBut(s, s', id) && (forall k :: Waiting(s'.queue, k) <==> Waiting(s.queue, k) && k != id)
    requires Recovered(s, n) && id in s.rows && s.rows[id].hash != n.href.hash
    ensures Recovered(s', n)
  {
    var k :| RecoveredAs(s, n, k);
    ResolvesGrow(s, s', Known(s, k).childs, n.childs);
    assert RecoveredAs(s', n, k);
  }

  lemma CommitAllRecovered(s: IndexState, id: nat, s': IndexState, seen: seq<Node>, node: Node)
    requires SameKnownBut(s, s', id) && (forall k :: Waiting(s'.queue, k) <==> Waiting(s.queue, k) && k != id)
    requires AllRecovered(s, seen) && id in s.rows && s.rows[id].hash == node.href.hash
    requires Recovered(s', node) && forall a | a in seen :: Alike(node, a)
    ensures AllRecovered(s', seen + [node])
  {
    hide Alike, Recovered, SameKnownBut, Waiting;
    forall n | n in seen
      ensures Recovered(s', n)
    {
      if n.href.hash == node.href.hash { AlikeRecovered(s', node, n); } else { CommitKeepsRecovered(s, id, s', n); }
    }
  }

  /** Committing a node's entry recovers it. `s` is where it started, `t` where all it needs is reserved. */
  lemma NewlyCommitted(s: IndexState, t: IndexState, u: IndexState, seen: seq<Node>, node: Node, id: nat, e: Entry,
                       fired: bool, find: BlobIds)
    requires Rebuilding(s, seen, find) && Inv(t) && OnlyReserved(s, t, ChildHashes(node) + {node.href.hash})
    requires forall a | a in seen :: Alike(node, a)
    requires id in t.rows && t.rows[id].hash == e.hash == node.href.hash && e.node == node.href.node
    requires e.leaf == node.href.leaf
    requires PlacedAs(e.pref, node, find)
    requires Resolves(t.rows, e.childs, node.childs) && Next(t, Commit(id, Some(e), fired), u)
    ensures Rebuilding(u, seen + [node], find)
  {
    hide Recovered, Alike, Expected, OnlyReserved, Inv, CommittedSeen, HashesOf, SameKnownBut, Resolves, Next;
    var names := ChildHashes(node) + {node.href.hash};
    CommitEntry(t, id, e, fired, u);
    NextInvOnly(t, Commit(id, Some(e), fired), u);
    CommitRecovers(t, id, e, u, node);
    StillRecovered(s, t, names, seen);
    CommitAllRecovered(t, id, u, seen, node);
    StillCommitted(s, t, names, seen, node, find);
    CommitSeen(t, id, u, seen, node, find);
    forall k | k in u.rows && Waiting(u.queue, k)
      ensures Expected(seen + [node], u.rows[k].hash)
    {
      assert Waiting(t.queue, k) && k != id && k in t.rows;
      SameHash(t, id, u, k);
      if t.rows[k].hash == node.href.hash { OneRow(t, id, k); }
      StillExpected(s, t, seen, node, k, find);
    }
  }

  lemma NextInvOnly(s: IndexState, step: Step, s': IndexState)
    requires Inv(s) && Next(s, step, s')
    ensures Inv(s')
  {
    NextInv(s, step, s');
  }

  lemma SameHash(s: IndexState, id: nat, s': IndexState, k: nat)
    requires SameKnownBut(s, s', id) && k in s.rows
    ensures k in s'.rows && s'.rows[k].hash == s.rows[k].hash
  {
  }

  lemma CommitSeen(s: IndexState, id: nat, s': IndexState, seen: seq<Node>, node: Node, find: BlobIds)
    requires SameKnownBut(s, s', id) && s'.rows.Keys == s.rows.Keys
    requires forall k :: Waiting(s'.queue, k) <==> Waiting(s.queue, k) && k != id
    requires CommittedSeen(s, seen + [node], find) && id in s.rows && s.rows[id].hash == node.href.hash
    requires PlacedAs(Known(s', id).pref, node, find)
    ensures CommittedSeen(s', seen + [node], find)
  {
    hide Known;
    forall k | k in s'.rows && !Waiting(s'.queue, k)
      ensures PlacedBy(s', seen + [node], find, k)
    {
      if k == id {
        assert node in seen + [node];
      } else {
        assert PlacedBy(s, seen + [node], find, k);
      }
    }
  }

  /** Recover one node, found in external storage under `find`'s id for its blob. */
  method RecoverEntry(index: HashIndex, node: Node, find: BlobIds, ghost seen: seq<Node>)
    requires index.Valid() && Rebuilding(index.State(), seen, find)
    requires node.href.hash != [] && forall h | h in ChildHashes(node) :: h != []
    requires forall a | a in seen :: Alike(a, node) && Alike(node, a)
    modifies index, index.queue
    ensures index.Valid() && Rebuilding(index.State(), seen + [node], find)
  {
    hide Rebuilding, Alike, OnlyReserved, Inv, Next, Located;
    ghost var s, names := index.State(), ChildHashes(node) + {node.href.hash};
    var pref := node.href.pref.(blobId := Some(find(node.href.pref.blobName)));
    var childIds := ReserveChilds(index, node);
    var entry := Entry(node.href.hash, node.href.node, node.href.leaf, childIds, Some(pref));
    ghost var m := index.State();
    var id, committed := ReserveNode(index, entry, names);
    ghost var t := index.State();
    ReservedChain(s, m, t, names);
    if committed {
      KnownBefore(s, t, seen, node, id, find);
      return;
    }
    ReservedRows(m, t, names);
    ResolvesGrow(m, t, childIds, node.childs);
    var fired: bool := *;
    index.Commit(id, Some(entry), fired);
    NewlyCommitted(s, t, index.State(), seen, node, id, entry, fired, find);
  }

  /** The row of the node itself; a known hash that is not queued was committed before. */
  method ReserveNode(index: HashIndex, entry: Entry, ghost names: set<Bytes>) returns (id: nat, committed: bool)
    requires index.Valid() && entry.hash != [] && entry.hash in names && entry.pref.Some?
    modifies index, index.queue
    ensures index.Valid() && OnlyReserved(old(index.State()), index.State(), names)
    ensures id in index.rows && index.rows[id].hash == entry.hash
    ensures if committed then id !in index.queue.priority
            else id in index.queue.priority && index.queue.priority[id].key == entry.hash
  {
    hide OnlyReserved, Inv, Next, Located;
    ghost var m := index.State();
    var fired: bool := *;
    var result := index.Reserve(entry, fired);
    id := result.id;
    match result
    case ReserveOk(_) =>
      ReservedOne(m, entry, fired, index.State(), names);
      ReserveKnown(m, entry, fired, index.State());
      NewIsQueued(m, entry, fired, index.State());
      committed := false;
    case HashKnown(_) =>
      ReservedSelf(m, names);
      var reserved := index.queue.FindKey(entry.hash);
      committed := reserved.None?;
      if committed { NotQueued(m, id, entry.hash); } else { QueuedById(m, id, entry.hash, reserved.value); }
  }

  lemma NewIsQueued(m: IndexState, e: Entry, fired: bool, t: IndexState)
    requires Next(m, Reserve(e, fired), t)
    ensures t.counter in t.queue && t.queue[t.counter].key == e.hash
  {
  }

  method ReserveChilds(index: HashIndex, node: Node) returns (ids: Option<seq<nat>>)
    requires index.Valid() && forall h | h in ChildHashes(node) :: h != []
    modifies index, index.queue
    ensures index.Valid() && Resolves(index.rows, ids, node.childs)
    ensures OnlyReserved(old(index.State()), index.State(), ChildHashes(node) + {node.href.hash})
  {
    ghost var s := index.State();
    if node.childs.None? {
      ids := None;
      ReservedSelf(s, ChildHashes(node) + {node.href.hash});
    } else {
      forall h | h in node.childs.value
        ensures h.hash != []
      {
        assert h.hash in ChildHashes(node);
      }
      var list := ChildIds(index, node.childs.value);
      ids := Some(list);
      ReservedMore(s, index.State(), ChildHashes(node), ChildHashes(node) + {node.href.hash});
    }
  }

  lemma NotQueued(s: IndexState, id: nat, hash: Bytes)
    requires Inv(s) && id in s.rows && s.rows[id].hash == hash && forall q | q in s.queue :: s.queue[q].key != hash
    ensures id !in s.queue
  {
  }

  lemma QueuedById(s: IndexState, id: nat, hash: Bytes, p: nat)
    requires Inv(s) && id in s.rows && s.rows[id].hash == hash && p in s.queue && s.queue[p].key == hash
    ensures id in s.queue && s.queue[id].key == hash
  {
  }

  /** Row `id` is ready and says of its hash what the node does. */
  ghost predicate RowFor(rows: Rows, id: nat, n: Node) {
    && id in rows && rows[id].ready
    && rows[id].hash == n.href.hash && rows[id].node == n.href.node && rows[id].leaf == n.href.leaf
    && Resolves(rows, rows[id].childs, n.childs)
  }

  /** Every node has its row. */
  ghost predicate HasRow(rows: Rows, n: Node) {
    exists id :: RowFor(rows, id, n)
  }

  /** Row `id` is that of one of the nodes and points where that node's reference does. */
  ghost predicate RowFrom(rows: Rows, id: nat, nodes: seq<Node>, find: BlobIds)
    requires id in rows
  {
    exists n :: n in nodes && RowFor(rows, id, n) && PlacedAs(rows[id].pref, n, find)
  }

  /** Recover all nodes of whole trees, in any order and with repetitions, into an empty index: every node
      has a ready row whose child ids name its children in order, there is no row besides those, each
      points where a node's reference does, and nothing is left in the queue. */
  method RecoverEntries(index: HashIndex, nodes: seq<Node>, find: BlobIds)
    requires index.Valid() && index.rows == map[] && WholeTrees(nodes)
    modifies index, index.queue
    ensures index.Valid() && index.queue.priority == map[]
    ensures forall n | n in nodes :: HasRow(index.rows, n)
    ensures forall id | id in index.rows :: RowFrom(index.rows, id, nodes, find)
  {
    StartRebuilding(index.State(), find);
    for i := 0 to |nodes|
      invariant index.Valid() && Rebuilding(index.State(), nodes[..i], find)
    {
      assert nodes[..i + 1] == nodes[..i] + [nodes[i]];
      RecoverEntry(index, nodes[i], find, nodes[..i]);
    }
    assert nodes[..|nodes|] == nodes;
    AllRebuilt(index.State(), nodes, find);
  }

  lemma StartRebuilding(s: IndexState, find: BlobIds)
    requires Inv(s) && s.rows == map[]
    ensures Rebuilding(s, [], find)
  {
  }

  lemma AllRebuilt(s: IndexState, nodes: seq<Node>, find: BlobIds)
    requires Rebuilding(s, nodes, find) && WholeTrees(nodes)
    ensures s.queue == map[]
    ensures forall n | n in nodes :: HasRow(s.rows, n)
    ensures forall id | id in s.rows :: RowFrom(s.rows, id, nodes, find)
  {
    hide Expected;
    NothingExpected(nodes);
    NothingWaits(s, nodes);
    forall n | n in nodes
      ensures HasRow(s.rows, n)
    {
      assert Recovered(s, n);
      var id :| RecoveredAs(s, n, id);
      assert RowFor(s.rows, id, n);
    }
    forall id | id in s.rows
      ensures RowFrom(s.rows, id, nodes, find)
    {
      assert PlacedBy(s, nodes, find, id);
      var n :| n in nodes && n.href.hash == s.rows[id].hash && PlacedAs(Known(s, id).pref, n, find);
      RowOfNode(s, nodes, n, id);
    }
  }

  lemma RowOfNode(s: IndexState, nodes: seq<Node>, n: Node, id: nat)
    requires Inv(s) && AllRecovered(s, nodes) && s.queue == map[] && n in nodes
    requires id in s.rows && s.rows[id].hash == n.href.hash && s.rows[id].ready
    ensures RowFor(s.rows, id, n)
  {
    var k :| RecoveredAs(s, n, k);
    OneRow(s, id, k);
  }

  lemma NothingExpected(nodes: seq<Node>)
    requires WholeTrees(nodes)
    ensures forall h :: !Expected(nodes, h)
  {
  }

  lemma NothingWaits(s: IndexState, nodes: seq<Node>)
    requires Inv(s) && WaitingExpected(s, nodes) && forall h :: !Expected(nodes, h)
    ensures s.queue == map[] && forall id | id in s.rows :: s.rows[id].ready
  {
    forall p | p in s.queue
      ensures p in Front(s.queue)
    {
      forall q | q in s.queue
        ensures s.queue[q].status == Ready
      {
        assert q in s.rows && !Expected(nodes, s.rows[q].hash);
      }
    }
    assert s.queue.Keys == {};
  }
}
