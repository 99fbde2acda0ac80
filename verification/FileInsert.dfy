/** Cutting a file into chunks while reading it, storing it as a hash tree, and reading it back. */
module FileInsert {
  import opened Common
  import opened HashTypes
  import opened TreeShape
  import opened TreeShapeLaws
  import opened TreeHeights
  import opened HashTree
  import opened TreeWalker
  import opened TreeRoundTrip
  import opened FileReader

  const MAX_CHUNK_LEN: nat := 128 * 1024

  /** What one `read` call reports. `Got(0)` is the end of the file. */
  datatype Outcome = Got(n: nat) | Interrupted | Failed

  /** An open file: any read may be short, and up to `noise` calls are interrupted or, unless the file is
      `reliable`, fail. */
  class ByteSource {
    const content: Bytes
    const reliable: bool
    var pos: nat
    var noise: nat

    constructor (content: Bytes, reliable: bool, noise: nat)
      ensures this.content == content && this.reliable == reliable && pos == 0
    {
      this.content, this.reliable, pos, this.noise := content, reliable, 0, noise;
    }

    method Read(buf: array<Byte>, start: nat) returns (outcome: Outcome)
      requires start < buf.Length && pos <= |content|
      modifies this, buf
      ensures pos <= |content| && (outcome.Failed? ==> !reliable)
      ensures !outcome.Got? ==> pos == old(pos) && buf[..] == old(buf[..]) && noise < old(noise)
      ensures outcome.Got? ==>
        && noise == old(noise) && pos == old(pos) + outcome.n && start + outcome.n <= buf.Length
        && (outcome.n == 0 ==> pos == |content|)
        && buf[..start] == old(buf[..start]) && buf[start..start + outcome.n] == content[old(pos)..pos]
    {
      if noise > 0 {
        var quiet: bool := *;
        if !quiet {
          noise := noise - 1;
          outcome :| outcome == Interrupted || (!reliable && outcome == Failed);
          return;
        }
      }
      var n := if |content| - pos < buf.Length - start then |content| - pos else buf.Length - start;
      if n > 1 {
        n :| 1 <= n <= |content| - pos && start + n <= buf.Length;
      }
      forall i | 0 <= i < n {
        buf[start + i] := content[pos + i];
      }
      pos := pos + n;
      outcome := Got(n);
    }
  }

  /** Chunks are never empty and never too long, and only the last one may be shorter than the maximum. */
  predicate WellCut(chunks: seq<Chunk>) {
    forall i | 0 <= i < |chunks| ::
      chunks[i].Raw? && 0 < |chunks[i].bytes| <= MAX_CHUNK_LEN
        && (i < |chunks| - 1 ==> |chunks[i].bytes| == MAX_CHUNK_LEN)
  }

  predicate Bounded(chunks: seq<Chunk>) {
    forall c | c in chunks :: c.Raw? && 0 < |c.bytes| <= MAX_CHUNK_LEN
  }

  lemma JoinReads(content: Bytes, a: nat, b: nat, c: nat)
    requires a <= b <= c <= |content|
    ensures content[a..b] + content[b..c] == content[a..c]
  {
  }

  /** Fill the chunk buffer as far as the file allows. */
  method FillChunk(source: ByteSource, chunk: array<Byte>) returns (len: nat, ghost failed: bool)
    requires source.pos <= |source.content|
    modifies source, chunk
    ensures source.pos <= |source.content| && source.pos == old(source.pos) + len && len <= chunk.Length
    ensures chunk[..len] == source.content[old(source.pos)..source.pos]
    ensures len < chunk.Length && !failed ==> source.pos == |source.content|
    ensures failed ==> !source.reliable
  {
    len, failed := 0, false;
    ghost var start := source.pos;
    while len < chunk.Length
      invariant source.pos <= |source.content| && source.pos == start + len && len <= chunk.Length
      invariant chunk[..len] == source.content[start..source.pos]
      decreases |source.content| - source.pos + source.noise
    {
      ghost var before := chunk[..];
      var outcome := source.Read(chunk, len);
      if outcome.Interrupted? {
        assert chunk[..len] == before[..len];
        continue;
      }
      if outcome.Failed? {
        assert chunk[..len] == before[..len];
        failed := true;
        break;
      }
      if outcome.n == 0 {
        break;
      }
      JoinReads(source.content, start, start + len, source.pos);
      assert chunk[..len + outcome.n] == chunk[..len] + chunk[len..len + outcome.n];
      len := len + outcome.n;
    }
  }

  lemma ConcatSnoc(chunks: seq<Chunk>, c: Chunk)
    ensures Concat(chunks + [c]) == Concat(chunks) + ChunkBytes(c)
  {
    ConcatAppend(chunks, [c]);
    assert Concat([c]) == ChunkBytes(c) + Concat([c][1..]);
  }

  /** No short chunk so far. */
  predicate Ends(chunks: seq<Chunk>) {
    |chunks| > 0 ==> |ChunkBytes(chunks[|chunks| - 1])| == MAX_CHUNK_LEN
  }

  lemma NothingCut(order: nat, n: nat)
    requires order >= 2
    ensures AppendAll(order, [], []) == [] && Bounded([]) && WellCut([]) && Ends([]) && Concat([]) == []
  {
  }

  /** One more chunk, cut off at the end of what was read. */
  lemma Cut(order: nat, chunks: seq<Chunk>, bytes: Bytes, content: Bytes, at: nat, len: nat, reliable: bool)
    returns (more: seq<Chunk>)
    requires order >= 2 && Bounded(chunks) && 0 < |bytes| <= MAX_CHUNK_LEN
    requires at <= len <= |content| && Concat(chunks) == content[..at] && bytes == content[at..len]
    requires reliable ==> WellCut(chunks) && Ends(chunks) && (len < |content| ==> |bytes| == MAX_CHUNK_LEN)
    ensures more == chunks + [Raw(bytes)] && Bounded(more) && Concat(more) == content[..len]
    ensures AppendAll(order, [], more) == Push(order, 0, AppendAll(order, [], chunks), Leaf(Raw(bytes)))
    ensures reliable ==> WellCut(more) && (len < |content| ==> Ends(more))
  {
    hide Concat, AppendAll;
    more := chunks + [Raw(bytes)];
    AppendAllSnoc(order, [], chunks, Raw(bytes));
    ConcatSnoc(chunks, Raw(bytes));
    JoinReads(content, 0, at, len);
  }

  /** Append the whole file to the tree, chunk by chunk. */
  method AppendFile(source: ByteSource, tree: SimpleHashTreeWriter) returns (len: nat, ghost chunks: seq<Chunk>)
    requires tree.Valid() && tree.forest == [] && source.pos == 0
    modifies source, tree, tree.backend
    ensures tree.Valid() && Extends(old(tree.backend.rows), tree.backend.rows)
    ensures tree.forest == AppendAll(tree.order, [], chunks) && Bounded(chunks)
    ensures source.pos <= |source.content| && len == source.pos && Concat(chunks) == source.content[..len]
    ensures source.reliable ==> len == |source.content| && WellCut(chunks)
  {
    hide WellCut, Bounded, Concat, AppendAll, Extends, Ends;
    var chunk := new Byte[MAX_CHUNK_LEN];
    len, chunks := 0, [];
    ExtendsSelf(tree.backend.rows);
    NothingCut(tree.order, |source.content|);
    while true
      invariant tree.Valid() && Extends(old(tree.backend.rows), tree.backend.rows)
      invariant tree.forest == AppendAll(tree.order, [], chunks) && Bounded(chunks)
      invariant source.pos <= |source.content| && len == source.pos && Concat(chunks) == source.content[..len]
      invariant source.reliable ==> WellCut(chunks) && (len < |source.content| ==> Ends(chunks))
      decreases |source.content| - source.pos
    {
      ghost var at := source.pos;
      var n, failed := FillChunk(source, chunk);
      if n == 0 {
        break;
      }
      len := len + n;
      ghost var rows := tree.backend.rows;
      tree.Append(Raw(chunk[..n]));
      ExtendsTransitive(old(tree.backend.rows), rows, tree.backend.rows);
      chunks := Cut(tree.order, chunks, chunk[..n], source.content, at, len, source.reliable);
    }
  }

  /** An empty file's one empty chunk has no bytes. */
  lemma StoredConcat(chunks: seq<Chunk>)
    ensures Concat(StoredChunks(chunks)) == Concat(chunks)
  {
  }

  /** Store one file; the reference denotes the tree over exactly its chunks. */
  method InsertFile(source: ByteSource, backend: ChunkStore, order: nat, info: Bytes)
    returns (len: nat, href: HashRef, ghost chunks: seq<Chunk>)
    requires order >= 2 && backend.Valid() && Injective(backend.fp) && source.pos == 0
    modifies source, backend
    ensures backend.Valid() && Extends(old(backend.rows), backend.rows)
    ensures Bounded(chunks) && len <= |source.content| && Concat(chunks) == source.content[..len]
    ensures source.reliable ==> len == |source.content| && WellCut(chunks)
    ensures href.leaf == FileChunk
    ensures StoredChunks(chunks) != [] && Represents(backend.rows, href, Built(order, StoredChunks(chunks), true))
  {
    var tree := new SimpleHashTreeWriter(FileChunk, order, backend);
    len, chunks := AppendFile(source, tree);
    ghost var rows := backend.rows;
    href := FinishTree(tree, chunks, Some(info));
    ExtendsTransitive(old(backend.rows), rows, backend.rows);
  }

  /** Open a stored file, however much has been stored since. */
  method OpenFile(backend: ChunkStore, href: HashRef, ghost before: Store, ghost order: nat, ghost chunks: seq<Chunk>)
    returns (file: FileReader)
    requires backend.Valid() && order >= 2 && chunks != [] && Extends(before, backend.rows)
    requires Represents(before, href, Built(order, chunks, true))
    ensures file.Valid() && !file.eof && file.offset == 0 && file.content == Concat(chunks)
    ensures fresh(file) && file.rest != null && fresh(file.rest) && fresh(file.rest.walker)
    ensures file.rest.walker.backend == backend
  {
    var leafs := OpenTree(backend, href, before, order, chunks, true);
    file := new FileReader.FromIter(leafs);
  }

  /** Two reads at forward positions see the same file, wherever the first one ended. */
  method ReadForward(file: FileReader, offset: nat, size: nat, offset': nat, size': nat)
    returns (a: Option<Bytes>, b: Option<Bytes>)
    requires file.Valid() && !file.eof && file.offset <= offset && offset + size <= offset'
    modifies file.Footprint()
    ensures a == Slice(file.content, offset, size) && b == Slice(file.content, offset', size')
  {
    a := file.Read(offset, size);
    b := file.Read(offset', size');
  }

  /**
    End to end: whatever short or interrupted reads the file delivers itself in, storing it and then
    reading at two forward positions gives the bytes of the original file, empty files included.
  */
  method StoreAndRead(source: ByteSource, backend: ChunkStore, order: nat, info: Bytes,
                      offset: nat, size: nat, offset': nat, size': nat)
    returns (a: Option<Bytes>, b: Option<Bytes>)
    requires order >= 2 && backend.Valid() && Injective(backend.fp) && source.pos == 0 && source.reliable
    requires offset + size <= offset'
    modifies source, backend
    ensures a == Slice(source.content, offset, size)
    ensures b == Slice(source.content, offset', size')
  {
    hide Represents, Built, StoredChunks, Concat, WellCut, Bounded, Injective, AppendAll, Extends;
    var len, href, chunks := InsertFile(source, backend, order, info);
    ExtendsSelf(backend.rows);
    assert source.content[..len] == source.content;
    StoredConcat(chunks);
    var file := OpenFile(backend, href, backend.rows, order, StoredChunks(chunks));
    a, b := ReadForward(file, offset, size, offset', size');
  }
}
