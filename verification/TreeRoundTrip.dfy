/** What goes into a hash tree comes out of it: any chunks, at any order, with or without file information. */
module TreeRoundTrip {
  import opened Common
  import opened HashTypes
  import opened TreeShape
  import opened TreeShapeLaws
  import opened TreeHeights
  import opened HashTree
  import opened TreeWalker

  lemma ExtendsSelf(st: Store)
    ensures Extends(st, st)
  {
  }

  lemma AppendAllSnoc(order: nat, f: seq<seq<Tree>>, chunks: seq<Chunk>, c: Chunk)
    requires order >= 2
    ensures AppendAll(order, f, chunks + [c]) == Push(order, 0, AppendAll(order, f, chunks), Leaf(c))
  {
  }

  /** An empty stream is stored as one empty chunk. */
  function StoredChunks(chunks: seq<Chunk>): seq<Chunk> {
    if chunks == [] then [EMPTY_CHUNK] else chunks
  }

  lemma SeededIsBuilt(order: nat, chunks: seq<Chunk>, f: seq<seq<Tree>>)
    requires order >= 2 && f == AppendAll(order, [], chunks)
    ensures f == [] <==> chunks == []
    ensures (if f == [] then [[Leaf(EMPTY_CHUNK)]] else f) == AppendAll(order, [], StoredChunks(chunks))
  {
  }

  /** A tree built by one `hash()` call is one that iterators can walk. */
  lemma BuiltReadable(order: nat, chunks: seq<Chunk>, withInfo: bool)
    requires order >= 2 && chunks != []
    ensures var t := Built(order, chunks, withInfo);
      Leaves(t) == chunks && WellFormed(t) && forall x: nat :: Leafless(t, x) <= 1
  {
    BuiltHeight(order, chunks, withInfo);
    BuiltLeaves(order, chunks, withInfo);
    forall x: nat
      ensures Leafless(Built(order, chunks, withInfo), x) <= 1
    {
      BuiltLeafless(order, chunks, withInfo, x);
    }
  }

  /** Append the chunks one by one and report the root. */
  method WriteAll(backend: ChunkStore, order: nat, leaf: LeafType, chunks: seq<Chunk>, info: Option<Bytes>)
    returns (href: HashRef)
    requires order >= 2 && backend.Valid() && Injective(backend.fp)
    modifies backend
    ensures backend.Valid() && Extends(old(backend.rows), backend.rows)
    ensures Represents(backend.rows, href, Built(order, StoredChunks(chunks), info.Some?)) && href.leaf == leaf
  {
    hide Represents, Injective, Built;
    var tree := new SimpleHashTreeWriter(leaf, order, backend);
    ExtendsSelf(backend.rows);
    for i := 0 to |chunks|
      invariant tree.Valid() && Extends(old(backend.rows), backend.rows)
      invariant tree.forest == AppendAll(order, [], chunks[..i])
    {
      ghost var mid := backend.rows;
      AppendAllSnoc(order, [], chunks[..i], chunks[i]);
      assert chunks[..i + 1] == chunks[..i] + [chunks[i]];
      tree.Append(chunks[i]);
      ExtendsTransitive(old(backend.rows), mid, backend.rows);
    }
    assert chunks[..|chunks|] == chunks;
    ghost var mid := backend.rows;
    href := FinishTree(tree, chunks, info);
    ExtendsTransitive(old(backend.rows), mid, backend.rows);
  }

  /** `hash()` after exactly these chunks. */
  method FinishTree(tree: SimpleHashTreeWriter, ghost chunks: seq<Chunk>, info: Option<Bytes>) returns (href: HashRef)
    requires tree.Valid() && tree.forest == AppendAll(tree.order, [], chunks)
    modifies tree, tree.backend
    ensures tree.Valid() && Extends(old(tree.backend.rows), tree.backend.rows)
    ensures Represents(tree.backend.rows, href, Built(tree.order, StoredChunks(chunks), info.Some?))
    ensures href.leaf == tree.leaf
  {
    SeededIsBuilt(tree.order, chunks, tree.forest);
    BuiltUsable(tree.order, StoredChunks(chunks), info.Some?);
    href := tree.Hash(info);
  }

  /** Iterate over a tree that was stored earlier, however much was stored since. */
  method OpenTree(backend: ChunkStore, href: HashRef, ghost before: Store, ghost order: nat, ghost chunks: seq<Chunk>,
                  ghost withInfo: bool)
    returns (iter: LeafIterator)
    requires backend.Valid() && order >= 2 && chunks != [] && Extends(before, backend.rows)
    requires Represents(before, href, Built(order, chunks, withInfo))
    ensures iter.Valid() && iter.Pending() == chunks && iter.walker.backend == backend
    ensures fresh(iter) && fresh(iter.walker)
  {
    ghost var t := Built(order, chunks, withInfo);
    RepresentsMonotone(before, backend.rows, href, t);
    BuiltReadable(order, chunks, withInfo);
    iter := new LeafIterator(backend, href, t);
  }

  /** Take chunks until there are no more. */
  method Drain(iter: LeafIterator) returns (chunks: seq<Chunk>)
    requires iter.Valid()
    modifies iter, iter.walker
    ensures iter.Valid() && chunks == old(iter.Pending()) && iter.Pending() == []
  {
    hide iter.Valid, iter.Pending;
    chunks := [];
    var next := iter.Next();
    ghost var all := old(iter.Pending());
    while next.Some?
      invariant iter.Valid()
      invariant if next.None? then chunks == all && iter.Pending() == []
          else chunks + [next.value] + iter.Pending() == all
      decreases |all| - |chunks|
    {
      chunks := chunks + [next.value];
      ghost var rest := iter.Pending();
      next := iter.Next();
      assert next.Some? ==> rest == [rest[0]] + rest[1..];
    }
  }

  /**
    The round trip of hash trees. Append any chunks to a tree of any order from 2 on, finish it with or
    without file information, store another tree, and iterate over the first: it yields exactly its
    chunks, in order, and one empty chunk if there were none.
  */
  method RoundTrip(backend: ChunkStore, order: nat, leaf: LeafType, chunks: seq<Chunk>, info: Option<Bytes>,
                   order': nat, leaf': LeafType, chunks': seq<Chunk>, info': Option<Bytes>)
    returns (read: seq<Chunk>, read': seq<Chunk>)
    requires order >= 2 && order' >= 2 && backend.Valid() && Injective(backend.fp)
    modifies backend
    ensures read == if chunks == [] then [EMPTY_CHUNK] else chunks
    ensures read' == if chunks' == [] then [EMPTY_CHUNK] else chunks'
  {
    hide Represents, Injective, Built, Extends;
    var href := WriteAll(backend, order, leaf, chunks, info);
    ghost var st := backend.rows;
    var href' := WriteAll(backend, order', leaf', chunks', info');
    var iter := OpenTree(backend, href, st, order, StoredChunks(chunks), info.Some?);
    read := Drain(iter);
    ExtendsSelf(backend.rows);
    var iter' := OpenTree(backend, href', backend.rows, order', StoredChunks(chunks'), info'.Some?);
    read' := Drain(iter');
  }
}
