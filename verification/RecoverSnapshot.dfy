/** Recovering a snapshot: walk everything below its root, then rebuild the index from what was found. */
module RecoverSnapshot {
  import opened Common
  import opened HashTypes
  import opened TreeShape
  import opened HashTree
  import opened TreeWalker
  import opened Directories
  import opened RecoverNodes
  import RecoverWalk
  import SnapshotLister
  import Recovery
  import HashIndex
  import HashQueue
  import BlobStore
  import Crypto

  // ---------------------------------------------------------------- the nodes found are whole trees

  /** The node is as the store has it. */
  predicate TrueNode(st: Store, n: Node) {
    && n.href.hash in st && st[n.href.hash].node == n.href.node && st[n.href.hash].leaf == n.href.leaf
    && n.childs == if st[n.href.hash].data.Refs? then Some(st[n.href.hash].data.refs) else None
  }

  /** Every node is true and each of its children is a node too. */
  ghost predicate Closed(st: Store, nodes: set<Node>) {
    && (forall n | n in nodes :: TrueNode(st, n))
    && (forall n, r | n in nodes && n.childs.Some? && r in n.childs.value :: Has(nodes, r))
  }

  ghost predicate Has(nodes: set<Node>, r: HashRef) {
    exists b :: b in nodes && b.href == r
  }

  lemma HasWiden(a: set<Node>, b: set<Node>, r: HashRef)
    requires Has(a, r) && a <= b
    ensures Has(b, r)
  {
  }

  lemma ClosedUnion(st: Store, a: set<Node>, b: set<Node>)
    requires Closed(st, a) && Closed(st, b)
    ensures Closed(st, a + b)
  {
    hide Has;
    forall n, r | n in a + b && n.childs.Some? && r in n.childs.value
      ensures Has(a + b, r)
    {
      if n in a {
        assert Has(a, r);
        HasWiden(a, a + b, r);
      } else {
        assert Has(b, r);
        HasWiden(b, a + b, r);
      }
    }
  }

  function SetOf(nodes: seq<Node>): set<Node> {
    set n | n in nodes
  }

  lemma SetOfAppend(a: seq<Node>, b: seq<Node>)
    ensures SetOf(a + b) == SetOf(a) + SetOf(b)
  {
  }

  lemma {:induction false} TreeClosed(st: Store, href: HashRef, t: Tree)
    requires Represents(st, href, t)
    ensures Closed(st, SetOf(TreeNodes(st, href, t))) && Has(SetOf(TreeNodes(st, href, t)), href)
    decreases t, 1
  {
    var root := Node(href, if t.Leaf? then None else Some(RefsOf(st, href)));
    assert root in SetOf(TreeNodes(st, href, t));
    if t.Branch? {
      var refs := RefsOf(st, href);
      ForestClosed(st, refs, t.kids);
      RootClosed(st, root, AllTreeNodes(st, refs, t.kids));
    }
  }

  lemma RootClosed(st: Store, root: Node, below: seq<Node>)
    requires TrueNode(st, root) && root.childs.Some? && Closed(st, SetOf(below))
    requires forall r | r in root.childs.value :: Has(SetOf(below), r)
    ensures Closed(st, SetOf([root] + below))
  {
    SetOfAppend([root], below);
    var all := SetOf([root] + below);
    forall n, r | n in all && n.childs.Some? && r in n.childs.value
      ensures Has(all, r)
    {
      assert Has(SetOf(below), r);
      HasWiden(SetOf(below), all, r);
    }
  }

  lemma {:induction false} ForestClosed(st: Store, refs: seq<HashRef>, ts: seq<Tree>)
    requires RepresentAll(st, refs, ts)
    ensures Closed(st, SetOf(AllTreeNodes(st, refs, ts)))
    ensures forall r | r in refs :: Has(SetOf(AllTreeNodes(st, refs, ts)), r)
    decreases ts, 0
  {
    if ts != [] {
      var a, b := TreeNodes(st, refs[0], ts[0]), AllTreeNodes(st, refs[1..], ts[1..]);
      TreeClosed(st, refs[0], ts[0]);
      ForestClosed(st, refs[1..], ts[1..]);
      SetOfAppend(a, b);
      ClosedUnion(st, SetOf(a), SetOf(b));
      forall r | r in refs
        ensures Has(SetOf(a + b), r)
      {
        if r in refs[1..] {
          HasWiden(SetOf(b), SetOf(a + b), r);
        } else {
          HasWiden(SetOf(a), SetOf(a + b), refs[0]);
        }
      }
    }
  }

  /** The nodes among what was found. */
  ghost function NodeSet(found: multiset<Found>): set<Node> {
    set f | f in found && f.NodeFound? :: f.node
  }

  lemma NodeSetUnion(a: multiset<Found>, b: multiset<Found>)
    ensures NodeSet(a + b) == NodeSet(a) + NodeSet(b)
  {
  }

  lemma {:induction false} NodeSetOf(nodes: seq<Node>)
    ensures NodeSet(NodesFound(nodes)) == SetOf(nodes)
  {
    if nodes != [] {
      NodeSetOf(nodes[1..]);
      var one := multiset{NodeFound(nodes[0])};
      assert NodeSet(one) == {nodes[0]} by { assert NodeFound(nodes[0]) in one; }
      NodeSetUnion(one, NodesFound(nodes[1..]));
      SetOfAppend([nodes[0]], nodes[1..]);
      assert [nodes[0]] + nodes[1..] == nodes;
    }
  }

  lemma {:induction false} NoNodeAmongTops(tops: seq<Bytes>)
    ensures NodeSet(TopsFound(tops)) == {}
  {
    if tops != [] { NoNodeAmongTops(tops[..|tops| - 1]); }
  }

  lemma {:induction false} DirClosed(st: Store, v: DirView)
    requires Resolved(st, v)
    ensures Closed(st, NodeSet(DirFound(st, v)))
    decreases v, 0
  {
    TreeClosed(st, v.href, v.tree);
    NodeSetOf(TreeNodes(st, v.href, v.tree));
    ItemsClosed(st, v.items);
    NodeSetUnion(NodesFound(TreeNodes(st, v.href, v.tree)), AllFound(st, v.items));
    ClosedUnion(st, SetOf(TreeNodes(st, v.href, v.tree)), NodeSet(AllFound(st, v.items)));
  }

  lemma {:induction false} ItemsClosed(st: Store, items: seq<ItemView>)
    requires forall i | 0 <= i < |items| :: ItemResolved(st, items[i])
    ensures Closed(st, NodeSet(AllFound(st, items)))
    decreases items, 0
  {
    if items == [] {
      NoNodes();
    } else {
      hide NodeSet, Closed;
      var here, rest := Inside(st, items[0]), AllFound(st, items[1..]);
      ItemClosed(st, items[0]);
      ItemsClosed(st, items[1..]);
      TopIsNoNode(items[0]);
      NodeSetUnion(TopOf(items[0]), here);
      NodeSetUnion(TopOf(items[0]) + here, rest);
      assert {} + NodeSet(here) == NodeSet(here);
      ClosedUnion(st, NodeSet(here), NodeSet(rest));
    }
  }

  lemma NoNodes()
    ensures NodeSet(multiset{}) == {}
  {
  }

  lemma TopIsNoNode(item: ItemView)
    ensures NodeSet(TopOf(item)) == {}
  {
  }

  lemma {:induction false} ItemClosed(st: Store, item: ItemView)
    requires ItemResolved(st, item)
    ensures Closed(st, NodeSet(Inside(st, item)))
    decreases item, 1
  {
    match item
    case FileView(href, t) =>
      TreeClosed(st, href, t);
      NodeSetOf(TreeNodes(st, href, t));
    case SubView(dir) => DirClosed(st, dir);
    case LinkView(_) =>
  }

  lemma ClosedWhole(st: Store, nodes: seq<Node>)
    requires Closed(st, SetOf(nodes)) && forall h | h in st :: h != []
    ensures Recovery.WholeTrees(nodes)
  {
    forall a, b | a in nodes && b in nodes
      ensures Recovery.Alike(a, b)
    {
      assert a in SetOf(nodes) && b in SetOf(nodes);
    }
    forall a | a in nodes
      ensures a.href.hash != []
      ensures forall h | h in Recovery.ChildHashes(a) :: h != [] && exists b :: b in nodes && b.href.hash == h
    {
      assert a in SetOf(nodes);
      forall h | h in Recovery.ChildHashes(a)
        ensures h != [] && exists b :: b in nodes && b.href.hash == h
      {
        var r :| r in a.childs.value && r.hash == h;
        assert Has(SetOf(nodes), r);
        var b :| b in SetOf(nodes) && b.href == r;
        assert TrueNode(st, b);
      }
    }
  }

  /** Row `id` is that of a node below the root and points where the node's reference does. */
  ghost predicate RowBelow(rows: HashQueue.Rows, id: nat, st: Store, view: DirView, find: Recovery.BlobIds)
    requires id in rows
  {
    exists n ::
      NodeFound(n) in DirFound(st, view) && Recovery.RowFor(rows, id, n) &&
      Recovery.PlacedAs(rows[id].pref, n, find)
  }

  /**
    Recover a snapshot into an empty index. Every node of every hash tree below its root gets a ready
    row whose children are, in order, those of the stored node; there are no other rows, and each points
    where the reference of a node does; the queue ends up empty; and the hashes reported for tagging are
    those of all files and directories below the root.
  */
  method RecoverSnapshot(backend: ChunkStore, index: HashIndex.HashIndex, final: HashRef, find: Recovery.BlobIds,
                         ghost view: DirView)
    returns (tops: seq<Bytes>)
    requires backend.Valid() && Resolved(backend.rows, view) && view.href == final
    requires forall h | h in backend.rows :: h != []
    requires index.Valid() && index.rows == map[]
    modifies index, index.queue
    ensures index.Valid() && index.queue.priority == map[]
    ensures forall n | NodeFound(n) in DirFound(backend.rows, view) :: Recovery.HasRow(index.rows, n)
    ensures forall id | id in index.rows :: RowBelow(index.rows, id, backend.rows, view, find)
    ensures forall hash :: hash in tops <==> hash in TopSet(view.items)
  {
    hide Recovery.RowFor, Recovery.Resolves, DirFound, Resolved;
    var vs := RecoverWalk.RecoverAll(backend, final, view);
    var nodes := vs.fileNodes + vs.dirNodes;
    tops := vs.tops;
    FoundNodes(backend.rows, view, vs.tops, vs.fileNodes, vs.dirNodes);
    Recovery.RecoverEntries(index, nodes, find);
    forall n
      ensures NodeFound(n) in DirFound(backend.rows, view) <==> n in nodes
    {
      assert n in NodeSet(DirFound(backend.rows, view)) <==> n in SetOf(nodes);
    }
    forall id | id in index.rows
      ensures RowBelow(index.rows, id, backend.rows, view, find)
    {
      assert Recovery.RowFrom(index.rows, id, nodes, find);
      var n :| n in nodes && Recovery.RowFor(index.rows, id, n)
        && Recovery.PlacedAs(index.rows[id].pref, n, find);
      assert NodeFound(n) in DirFound(backend.rows, view);
    }
  }

  lemma FoundNodes(st: Store, view: DirView, tops: seq<Bytes>, fileNodes: seq<Node>, dirNodes: seq<Node>)
    requires Resolved(st, view) && forall h | h in st :: h != []
    requires TopsFound(tops) + NodesFound(fileNodes) + NodesFound(dirNodes) == DirFound(st, view)
    ensures SetOf(fileNodes + dirNodes) == NodeSet(DirFound(st, view))
    ensures Recovery.WholeTrees(fileNodes + dirNodes)
    ensures forall hash :: hash in tops <==> hash in TopSet(view.items)
  {
    FoundNodeSet(tops, fileNodes, dirNodes);
    DirClosed(st, view);
    hide NodeSet, Closed, SetOf;
    ClosedWhole(st, fileNodes + dirNodes);
    forall hash
      ensures hash in tops <==> hash in TopSet(view.items)
    {
      FoundTop(st, view, tops, fileNodes, dirNodes, hash);
    }
  }

  lemma FoundNodeSet(tops: seq<Bytes>, fileNodes: seq<Node>, dirNodes: seq<Node>)
    ensures NodeSet(TopsFound(tops) + NodesFound(fileNodes) + NodesFound(dirNodes)) == SetOf(fileNodes + dirNodes)
  {
    NodeSetUnion(TopsFound(tops) + NodesFound(fileNodes), NodesFound(dirNodes));
    NodeSetUnion(TopsFound(tops), NodesFound(fileNodes));
    NoNodeAmongTops(tops);
    NodeSetOf(fileNodes);
    NodeSetOf(dirNodes);
    SetOfAppend(fileNodes, dirNodes);
  }

  lemma FoundTop(st: Store, view: DirView, tops: seq<Bytes>, fileNodes: seq<Node>, dirNodes: seq<Node>, hash: Bytes)
    requires TopsFound(tops) + NodesFound(fileNodes) + NodesFound(dirNodes) == DirFound(st, view)
    ensures hash in tops <==> hash in TopSet(view.items)
  {
    hide TopsFound, NodesFound, DirFound, TopSet;
    DirTops(st, view, hash);
    TopsAmong(tops, hash);
    NoTopAmongNodes(fileNodes, hash);
    NoTopAmongNodes(dirNodes, hash);
  }

  /** What a rebuilt row refers to. */
  function RowRef(row: HashQueue.IndexRow, info: Option<Bytes>): HashRef
    requires row.pref.Some?
  {
    HashRef(row.hash, row.node, row.leaf, row.pref.value, info)
  }

  /** Reading through a rebuilt row yields what reading through the reference of the node found does: in every
      repository of blobs, and whatever the cryptography. */
  lemma RecoveredReads(rows: HashQueue.Rows, id: nat, st: Store, view: DirView, find: Recovery.BlobIds,
                       s: Crypto.Suite, blobs: BlobStore.Backend)
    requires id in rows && RowBelow(rows, id, st, view, find)
    ensures rows[id].pref.Some? && exists n ::
      && NodeFound(n) in DirFound(st, view) && n.href.hash == rows[id].hash
      && BlobStore.RetrieveFrom(s, blobs, RowRef(rows[id], n.href.info)) == BlobStore.RetrieveFrom(s, blobs, n.href)
  {
    hide DirFound;
    var n :| NodeFound(n) in DirFound(st, view) && Recovery.RowFor(rows, id, n) &&
      Recovery.PlacedAs(rows[id].pref, n, find);
    assert NodeFound(n) in DirFound(st, view) && n.href.hash == rows[id].hash;
    assert BlobStore.RetrieveFrom(s, blobs, RowRef(rows[id], n.href.info)) == BlobStore.RetrieveFrom(s, blobs, n.href);
  }

  lemma {:induction false} TopsAmong(tops: seq<Bytes>, hash: Bytes)
    ensures TopFound(hash) in TopsFound(tops) <==> hash in tops
  {
    if tops != [] {
      var n := |tops| - 1;
      TopsAmong(tops[..n], hash);
      assert tops == tops[..n] + [tops[n]];
    }
  }

  /**
    Three ways to the same hashes, for every directory tree: those a commit tags, those listing the
    snapshot yields when it is deregistered, and those a recovery reports, each with the final hash.
  */
  method CommitListRecover(family: Family, dir: Dir, name: Bytes, index: HashIndex.HashIndex, find: Recovery.BlobIds)
    returns (final: HashRef, listed: seq<Content>, tops: seq<Bytes>)
    requires family.Ready() && family.tagged == {} && WellNamed(dir) && FilesStored(family.backend.rows, dir)
    requires index.Valid() && index.rows == map[] && forall n, l, d :: family.backend.fp(n, l, d) != []
    modifies family`tagged, family`log, family.backend, index, index.queue
    ensures SnapshotLister.HashesOf(listed) == family.tagged + {final.hash} == (set h | h in tops) + {final.hash}
    ensures index.queue.priority == map[]
  {
    ghost var view;
    final, view := family.HashDir(dir, name);
    listed := SnapshotLister.ListSnapshot(family.backend, final.ToModel(), view);
    HashesNonEmpty(family.backend);
    tops := RecoverSnapshot(family.backend, index, final.ToModel(), find, view);
    assert (set h | h in tops) == TopSet(view.items);
  }

  lemma HashesNonEmpty(backend: ChunkStore)
    requires backend.Valid() && forall n, l, d :: backend.fp(n, l, d) != []
    ensures forall h | h in backend.rows :: h != []
  {
  }
}
