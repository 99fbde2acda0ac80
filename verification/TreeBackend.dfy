/**
  The tree store as the abstraction of the real backend: the same insertions into both issue the same
  ids, know the same hashes with the same children, and once the backend has been flushed every
  reference it knows is answered as the tree store answers it.
*/
module TreeBackend {
  import opened Common
  import opened HashTypes
  import opened HashTree
  import opened HashQueue
  import opened HashIndex
  import opened IndexLaws
  import opened StoreBackend
  import BlobLayout
  import BlobStore
  import Crypto

  /** How a node's payload is written down as bytes. */
  type Encoder = Payload -> Bytes

  /** Both stores take their fingerprints of the same bytes. */
  ghost predicate SamePrints(enc: Encoder, tree: Fingerprint, data: DataPrint) {
    forall n, l, d :: tree(n, l, d) == data(n, l, enc(d))
  }

  ghost predicate NoCollisions(fp: DataPrint) {
    forall n, l, c, n', l', c' {:trigger fp(n, l, c), fp(n', l', c')} ::
      fp(n, l, c) == fp(n', l', c') ==> n == n' && l == l' && c == c'
  }

  ghost predicate RowStandsFor(row: HashTree.Row, hash: Bytes, s: IndexState) {
    && row.id in s.rows && s.rows[row.id].hash == hash
    && Known(s, row.id).node == row.node && Known(s, row.id).leaf == row.leaf && Known(s, row.id).childs == row.childs
    && Known(s, row.id).pref == Some(row.pref)
  }

  /** The rows of the tree store are those of the index, with the same ids, heights, types, children and
      places. */
  ghost predicate StandsFor(st: Store, nextId: nat, s: IndexState) {
    && nextId == s.counter + 1
    && (forall h | h in st :: RowStandsFor(st[h], h, s))
    && forall id | id in s.rows :: s.rows[id].hash in st
  }

  lemma EmptyStandsFor()
    ensures StandsFor(map[], 1, IndexState(map[], map[], map[], 0))
  {
  }

  /** Two empty stores. */
  method Start(treePrint: Fingerprint, dataPrint: DataPrint, suite: Crypto.Suite, maxLen: nat)
    returns (tree: ChunkStore, back: HashStoreBackend)
    requires Crypto.Lawful(suite) && maxLen < Crypto.MAX_I64
    ensures tree.Valid() && back.Valid() && tree.fp == treePrint && back.fp == dataPrint
    ensures tree.rows == map[] && StandsFor(tree.rows, tree.nextId, back.index.State())
  {
    hide back.Valid;
    tree := new ChunkStore(treePrint);
    back := new HashStoreBackend(suite, maxLen, dataPrint);
    EmptyStandsFor();
  }

  lemma StandsLocated(st: Store, nextId: nat, s: IndexState, hash: Bytes)
    requires StandsFor(st, nextId, s)
    ensures (Located(s, hash) <==> hash in st) && nextId == s.counter + 1
  {
    if hash in st { assert RowStandsFor(st[hash], hash, s); }
  }

  lemma StandsKept(st: Store, nextId: nat, s: IndexState, s': IndexState)
    requires StandsFor(st, nextId, s) && SameKnown(s, s') && SameIds(s, s')
    ensures StandsFor(st, nextId, s')
  {
    hide Known;
    forall h | h in st
      ensures RowStandsFor(st[h], h, s')
    {
      assert RowStandsFor(st[h], h, s);
    }
  }

  lemma StandsGrown(st: Store, nextId: nat, s: IndexState, hash: Bytes, row: HashTree.Row, s': IndexState)
    requires StandsFor(st, nextId, s) && SameKnown(s, s') && OneMoreId(s, s') && row.id == s'.counter
    requires RowStandsFor(row, hash, s')
    ensures StandsFor(st[hash := row], nextId + 1, s')
  {
    hide Known;
    forall h | h in st && h != hash
      ensures RowStandsFor(st[h], h, s')
    {
      assert RowStandsFor(st[h], h, s);
    }
  }

  lemma SameRow(st: Store, nextId: nat, s: IndexState, hash: Bytes, id: nat)
    requires StandsFor(st, nextId, s) && Inv(s) && hash in st && id in s.rows && s.rows[id].hash == hash
    ensures st[hash].id == id && Known(s, id).pref == Some(st[hash].pref)
  {
    assert RowStandsFor(st[hash], hash, s);
  }

  lemma PrintsAgree(enc: Encoder, tree: Fingerprint, data: DataPrint, node: nat, leaf: LeafType, d: Payload)
    requires SamePrints(enc, tree, data)
    ensures tree(node, leaf, d) == data(node, leaf, enc(d))
  {
  }

  lemma ValidInv(back: HashStoreBackend)
    requires back.Valid()
    ensures Inv(back.index.State())
  {
  }

  /** Insert the same node into both stores. */
  method Insert(enc: Encoder, tree: ChunkStore, back: HashStoreBackend,
                data: Payload, node: nat, leaf: LeafType, childs: Option<seq<nat>>, info: Option<Bytes>)
    returns (id: nat, href: HashRef)
    requires tree.Valid() && Injective(tree.fp) && SamePrints(enc, tree.fp, back.fp)
    requires ChildsOf(tree.rows, data, childs, tree.nextId) && ChildsLower(tree.rows, data, node)
    requires back.Valid() && back.Storable(enc(data), node, leaf, info)
    requires StandsFor(tree.rows, tree.nextId, back.index.State())
    modifies tree, back.index, back.index.queue, back.blobs, back.blobs.blob, back.blobs.blob.chunks
    ensures tree.Valid() && back.Valid() && StandsFor(tree.rows, tree.nextId, back.index.State())
    ensures Extends(old(tree.rows), tree.rows) && SameKnown(old(back.index.State()), back.index.State())
    ensures href.hash in tree.rows && tree.rows[href.hash].id == id && tree.rows[href.hash].data == data
    ensures PointsAt(href.ToModel(), tree.rows[href.hash])
    ensures href.hash == back.fp(node, leaf, enc(data)) && href.node == node && href.leaf == leaf
    ensures id in back.index.rows && Known(back.index.State(), id).pref == Some(href.pref)
  {
    hide StandsFor, SameKnown, Known, Inv, Linked, Located, Injective, ChildsOf, ChildsLower, SamePrints;
    hide back.Storable, back.Valid, tree.Valid;
    ghost var st, next, s := tree.rows, tree.nextId, back.index.State();
    PrintsAgree(enc, tree.fp, back.fp, node, leaf, data);
    StandsLocated(st, next, s, back.fp(node, leaf, enc(data)));
    id, href := back.InsertChunk(enc(data), node, leaf, childs, info);
    ghost var s' := back.index.State();
    var treeId, treeRef := tree.InsertChunkAt(data, node, leaf, childs, href.pref);
    if href.hash in st {
      ValidInv(back);
      SameRow(st, next, s, href.hash, id);
    } else {
      StandsGrown(st, next, s, href.hash, tree.rows[href.hash], s');
    }
  }

  lemma StandsAt(st: Store, nextId: nat, s: IndexState, hash: Bytes)
    requires StandsFor(st, nextId, s) && hash in st
    ensures RowStandsFor(st[hash], hash, s)
  {
  }

  /** What the real backend answers for the hash in row `id`. */
  ghost function Answer(back: HashStoreBackend, id: nat): BlobStore.Fetch
    requires id in back.index.rows && Known(back.index.State(), id).pref.Some?
    reads back.index, back.index.queue, back.blobs
  {
    var href := RefOf(back.index.State(), id);
    Checked(back.fp, href, BlobStore.RetrieveFrom(back.blobs.suite, back.blobs.backend, href))
  }

  /** Both stores answer the reference of a known hash with the same data, except that the real one has
      nothing to give while the blob with the data has yet to go out. */
  lemma FetchAgrees(enc: Encoder, tree: ChunkStore, back: HashStoreBackend, hash: Bytes)
    requires tree.Valid() && back.Valid() && SamePrints(enc, tree.fp, back.fp) && NoCollisions(back.fp)
    requires StandsFor(tree.rows, tree.nextId, back.index.State()) && hash in tree.rows
    ensures var id := tree.rows[hash].id;
      && id in back.index.rows && Known(back.index.State(), id).pref.Some?
      && tree.FetchChunk(RefOf(back.index.State(), id)) == Some(tree.rows[hash].data)
      && Answer(back, id) ==
           if Waiting(back.index.queue.priority, id) then BlobStore.Missing
           else BlobStore.Got(enc(tree.rows[hash].data))
  {
    hide StandsFor, Inv, Linked, Waiting, BlobStore.RetrieveFrom;
    var row := tree.rows[hash];
    StandsAt(tree.rows, tree.nextId, back.index.State(), hash);
    back.KnownFetchable(row.id);
    assert hash == tree.fp(row.node, row.leaf, row.data) == back.fp(row.node, row.leaf, enc(row.data));
  }

  ghost predicate AnswersAll(enc: Encoder, tree: ChunkStore, back: HashStoreBackend)
    reads tree, back.index, back.index.queue, back.blobs
  {
    forall hash | hash in tree.rows ::
      var id := tree.rows[hash].id;
      && id in back.index.rows && Known(back.index.State(), id).pref.Some?
      && Answer(back, id) == BlobStore.Got(enc(tree.rows[hash].data))
  }

  /** After a flush the real backend answers every known reference exactly as the tree store does. */
  method Flush(enc: Encoder, tree: ChunkStore, back: HashStoreBackend)
    requires tree.Valid() && back.Valid() && SamePrints(enc, tree.fp, back.fp) && NoCollisions(back.fp)
    requires StandsFor(tree.rows, tree.nextId, back.index.State())
    modifies back.index, back.index.queue, back.blobs, back.blobs.blob, back.blobs.blob.chunks
    ensures tree.rows == old(tree.rows) && tree.Valid() && back.Valid()
    ensures StandsFor(tree.rows, tree.nextId, back.index.State()) && AnswersAll(enc, tree, back)
  {
    hide StandsFor, SameKnown, SameIds, Known, Inv, Linked, BlobStore.RetrieveFrom, SamePrints, NoCollisions;
    ghost var s := back.index.State();
    back.Flush();
    StandsKept(tree.rows, tree.nextId, s, back.index.State());
    forall hash | hash in tree.rows
      ensures var id := tree.rows[hash].id;
        && id in back.index.rows && Known(back.index.State(), id).pref.Some?
        && Answer(back, id) == BlobStore.Got(enc(tree.rows[hash].data))
    {
      FetchAgrees(enc, tree, back, hash);
    }
  }
}
