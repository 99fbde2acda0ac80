/** Random-access reads over a forward-only stream of file chunks. */
module FileReader {
  import opened Common
  import opened HashTypes
  import opened TreeShape
  import opened TreeWalker

  /** The raw bytes of a file's leaf. */
  function ChunkBytes(c: Chunk): Bytes {
    if c.Raw? then c.bytes else []
  }

  function Concat(chunks: seq<Chunk>): Bytes {
    if chunks == [] then [] else ChunkBytes(chunks[0]) + Concat(chunks[1..])
  }

  lemma {:induction false} ConcatAppend(a: seq<Chunk>, b: seq<Chunk>)
    ensures Concat(a + b) == Concat(a) + Concat(b)
  {
    if a == [] {
      assert a + b == b;
    } else {
      assert (a + b)[1..] == a[1..] + b;
      ConcatAppend(a[1..], b);
    }
  }

  lemma ConcatNothing()
    ensures Concat([]) == []
  {
  }

  /** The part of `data` from `offset` on, at most `size` bytes; nothing at or past the end. */
  function Slice(data: Bytes, offset: nat, size: nat): Option<Bytes> {
    if offset >= |data| then None
    else Some(data[offset..if offset + size <= |data| then offset + size else |data|])
  }

  class FileReader {
    const rest: LeafIterator?
    var offset: nat
    var buf: Bytes
    var eof: bool
    ghost const content: Bytes

    /** What the stream will still deliver. */
    ghost function Left(): Bytes
      reads this, rest, if rest == null then {} else {rest.walker}
    {
      if rest == null then [] else Concat(rest.Pending())
    }

    ghost function Footprint(): set<object>
      reads this
    {
      if rest == null then {this} else {this, rest, rest.walker}
    }

    /** The buffer is the piece of the file at `offset`, and the stream delivers what follows it. */
    ghost predicate Valid()
      reads this, rest, if rest == null then {} else {rest.walker, rest.walker.backend}
    {
      && (rest != null ==> rest.Valid())
      && offset + |buf| <= |content|
      && content[offset..offset + |buf|] == buf && content[offset + |buf|..] == Left()
      && (eof ==> buf == [] && offset == |content| && (rest != null ==> rest.Pending() == []))
      && (rest == null ==> eof)
    }

    constructor FromIter(rest: LeafIterator?)
      requires rest != null ==> rest.Valid()
      ensures Valid() && this.rest == rest && offset == 0 && eof == (rest == null)
      ensures content == if rest == null then [] else Concat(rest.Pending())
    {
      this.rest, offset, buf, eof := rest, 0, [], rest == null;
      content := if rest == null then [] else Concat(rest.Pending());
    }

    /** Replace the buffer by the next chunk of the stream. */
    method Next()
      requires Valid()
      modifies Footprint()
      ensures Valid() && offset == old(offset) + |old(buf)|
      ensures old(eof) ==> eof
      ensures !eof ==> rest != null && |rest.Pending()| < |old(rest.Pending())|
    {
      hide Concat, ChunkBytes, TasksLeaves, SparseTasks, TasksOk;
      if rest != null {
        ghost var pending := rest.Pending();
        offset := offset + |buf|;
        var chunk := rest.Next();
        if chunk.Some? {
          buf := ChunkBytes(chunk.value);
          NextFits(content, offset, pending);
          return;
        }
      }
      ConcatNothing();
      buf := [];
      eof := true;
    }

    /** Skip chunks until the buffer reaches past `offset`. */
    method Advance(offset: nat)
      requires Valid() && (eof || this.offset <= offset)
      modifies Footprint()
      ensures Valid() && this.offset >= old(this.offset)
      ensures eof <==> old(eof) || offset >= |content|
      ensures !eof ==> this.offset <= offset < this.offset + |buf|
    {
      while this.offset + |buf| <= offset || buf == []
        invariant Valid() && this.offset >= old(this.offset)
        invariant eof ==> old(eof) || offset >= |content|
        invariant old(eof) ==> eof
        invariant eof || this.offset <= offset
        decreases !eof, if rest == null then 0 else |rest.Pending()|
      {
        Next();
        if eof {
          break;
        }
      }
    }

    /** The buffered bytes from `offset` on; fails its assertions before or past the buffer. */
    function From(offset: nat): (r: Bytes)
      requires this.offset <= offset <= this.offset + |buf|
      reads this
      ensures Valid() && !eof ==> r == content[offset..this.offset + |buf|]
    {
      buf[offset - this.offset..]
    }

    /**
      Up to `size` bytes from `offset`. Without an earlier end of file that is exactly the slice of the
      file; once the end has been hit, or tried to be read past, every read returns nothing.
    */
    method Read(offset: nat, size: nat) returns (r: Option<Bytes>)
      requires Valid() && (eof || this.offset <= offset)
      modifies Footprint()
      ensures Valid() && r == if old(eof) then None else Slice(content, offset, size)
      ensures r.Some? ==> !old(eof) && offset < |content|
      ensures r.Some? ==> |r.value| == if offset + size <= |content| then size else |content| - offset
      ensures r.Some? ==> forall i :: 0 <= i < |r.value| ==> r.value[i] == content[offset + i]
      ensures eof <==> old(eof) || offset >= |content| || offset + size > |content|
      ensures this.offset >= old(this.offset) && (!eof ==> this.offset <= offset + size)
      decreases size
    {
      hide Slice, Concat, ChunkBytes, TasksLeaves, SparseTasks, TasksOk;
      SliceBytes(content, offset, size);
      Advance(offset);
      if eof || From(offset) == [] {
        SlicePast(content, offset, size);
        return None;
      }
      var avail := |From(offset)|;
      if size <= avail {
        r := Some(From(offset)[..size]);
        TakeOfRange(content, offset, this.offset + |buf|, size);
        SliceInside(content, offset, size);
      } else {
        var head := From(offset)[..avail];
        assert head == content[offset..offset + avail];
        var tail := Read(offset + avail, size - avail);
        JoinSlices(content, offset, avail, size);
        r := Some(if tail.Some? then head + tail.value else head);
      }
    }
  }

  lemma NextFits(content: Bytes, offset: nat, pending: seq<Chunk>)
    requires offset <= |content| && pending != [] && content[offset..] == Concat(pending)
    ensures var buf := ChunkBytes(pending[0]);
      offset + |buf| <= |content| && content[offset..offset + |buf|] == buf
        && content[offset + |buf|..] == Concat(pending[1..])
  {
  }

  lemma SlicePast(content: Bytes, offset: nat, size: nat)
    ensures offset >= |content| ==> Slice(content, offset, size) == None
  {
  }

  /** The slice byte by byte. */
  lemma SliceBytes(content: Bytes, offset: nat, size: nat)
    ensures var r := Slice(content, offset, size);
      && (r.None? <==> offset >= |content|)
      && (r.Some? ==> |r.value| == if offset + size <= |content| then size else |content| - offset)
      && (r.Some? ==> forall i :: 0 <= i < |r.value| ==> r.value[i] == content[offset + i])
  {
  }

  lemma SliceInside(content: Bytes, offset: nat, size: nat)
    ensures offset < |content| && offset + size <= |content| ==>
      Slice(content, offset, size) == Some(content[offset..offset + size])
  {
  }

  lemma TakeOfRange(content: Bytes, lo: nat, hi: nat, size: nat)
    requires lo + size <= hi <= |content|
    ensures content[lo..hi][..size] == content[lo..lo + size]
  {
  }

  lemma JoinSlices(content: Bytes, offset: nat, avail: nat, size: nat)
    requires avail <= size && offset + avail <= |content| && avail > 0
    ensures Slice(content, offset, size) ==
      var tail := Slice(content, offset + avail, size - avail);
      var head := content[offset..offset + avail];
      Some(if tail.Some? then head + tail.value else head)
  {
    var mid := offset + avail;
    var end := if offset + size <= |content| then offset + size else |content|;
    if mid < |content| {
      assert content[offset..end] == content[offset..mid] + content[mid..end];
    } else {
      assert content[offset..mid] + [] == content[offset..mid];
    }
  }
}
