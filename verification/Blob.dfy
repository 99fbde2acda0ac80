/** Filling a blob with chunks, sealing it, and reading a sealed blob back. */
module Blob {
  import opened Common
  import opened HashTypes
  import opened Crypto
  import opened BlobLayout

  /** A buffer of ciphertext pieces that are only joined when they have to be. */
  class CipherText {
    var chunks: seq<Bytes>
    var len: nat

    ghost predicate Valid()
      reads this
    {
      len == |Flatten(chunks)|
    }

    ghost function Contents(): Bytes
      reads this
    {
      Flatten(chunks)
    }

    constructor Empty()
      ensures Valid() && Contents() == [] && chunks == []
    {
      chunks, len := [], 0;
    }

    constructor (ct: Bytes)
      ensures Valid() && Contents() == ct && chunks == [ct]
    {
      chunks, len := [ct], |ct|;
      new;
      FlattenSnoc([], ct);
      assert [] + [ct] == [ct];
    }

    method Append(other: CipherText)
      requires Valid() && other.Valid() && other != this
      modifies this
      ensures Valid() && Contents() == old(Contents()) + other.Contents()
      ensures other.chunks != [] ==> chunks != []
    {
      FlattenAppend(chunks, other.chunks);
      len := len + other.len;
      chunks := chunks + other.chunks;
    }

    /** Join all pieces into one. */
    method Collapse() returns (ct: Bytes)
      requires Valid() && chunks != []
      modifies this
      ensures Valid() && ct == Contents() == old(Contents()) && chunks == [ct]
    {
      if |chunks| > 1 {
        var v := Concatenated();
        chunks := [v];
      }
      ct := chunks[0];
      assert chunks == [ct];
      FlattenSnoc([], ct);
      assert [] + [ct] == [ct];
    }

    method Concatenated() returns (v: Bytes)
      ensures v == Contents()
    {
      v := [];
      assert Flatten(chunks[..0]) == [];
      for i := 0 to |chunks|
        invariant v == Flatten(chunks[..i])
      {
        assert chunks[..i + 1] == chunks[..i] + [chunks[i]];
        FlattenSnoc(chunks[..i], chunks[i]);
        v := v + chunks[i];
      }
      assert chunks[..|chunks|] == chunks;
    }

    /** Fill up with random bytes to `finalLen`; a longer buffer is left alone. */
    method RandomPadUpto(finalLen: nat) returns (ghost pad: Bytes)
      requires Valid()
      modifies this
      ensures Valid() && Contents() == old(Contents()) + pad
      ensures |Contents()| == if finalLen > |old(Contents())| then finalLen else |old(Contents())|
      ensures old(chunks) != [] ==> chunks != []
    {
      pad := [];
      if finalLen > len {
        var noise: Bytes := RandomBytes(finalLen - len);
        pad := noise;
        var padding := new CipherText(noise);
        Append(padding);
      }
    }

    method AppendAuthentication(s: Suite)
      requires Valid() && chunks != []
      modifies this
      ensures Valid() && Contents() == old(Contents()) + s.authentication(old(Contents()))
    {
      var data := Collapse();
      var digest := s.authentication(data);
      chunks := [data + digest];
      len := |chunks[0]|;
      FlattenSnoc([], data + digest);
      assert [] + [data + digest] == [data + digest];
    }
  }

  method RandomBytes(n: nat) returns (b: Bytes)
    ensures |b| == n
  {
    b := [];
    while |b| < n
      invariant |b| <= n
    {
      var x: Byte := *;
      b := b + [x];
    }
  }

  datatype AppendResult = Appended | Full | TooLarge

  class Blob {
    const suite: Suite
    const maxLen: nat
    const overhead: nat
    var accessKey: Bytes
    var chunks: CipherText
    var footer: Bytes
    ghost var items: seq<Item>

    ghost predicate Valid()
      reads this, chunks
    {
      && Lawful(suite) && overhead == suite.Overhead() && maxLen < MAX_I64
      && |accessKey| == suite.keyBytes
      && AllKeyed(suite, items) && Placed(suite, accessKey, items) && Packed(suite, maxLen, items)
      && chunks.Valid() && chunks.Contents() == Chunks(suite, accessKey, items)
        && (chunks.chunks == [] <==> items == [])
      && footer == Footer(suite, items)
    }

    /** The condition under which the blob can be sealed. */
    ghost predicate Sealable()
      reads this
    {
      items != [] ==> Cost(suite, items[0]) + suite.Overhead() <= maxLen
    }

    constructor (suite: Suite, maxLen: nat)
      requires Lawful(suite) && maxLen < MAX_I64
      ensures Valid() && items == [] && fresh(chunks) && this.suite == suite && this.maxLen == maxLen
    {
      var key := RandomBytes(suite.keyBytes);
      this.suite, this.maxLen, accessKey := suite, maxLen, key;
      overhead := suite.SealOverhead() + suite.digestBytes;
      chunks := new CipherText.Empty();
      footer, items := [], [];
    }

    /** The length of the blob if it were sealed now, 0 for an empty one. */
    function UpperboundLen(): (n: nat)
      requires chunks.Valid()
      reads this, chunks
      ensures Valid() ==> n == UpperBound(suite, items)
    {
      assert Valid() && items != [] ==> |Chunks(suite, accessKey, items)| > 0 by {
        if Valid() && items != [] { ChunksNonEmpty(suite, accessKey, items); }
      }
      assert Valid() ==> Size(suite, items) == chunks.len + |footer| by {
        if Valid() { SizeIsLength(suite, accessKey, items); }
      }
      if chunks.len == 0 then 0 else chunks.len + |footer| + overhead
    }

    /** Whatever key and place in the blob the chunk gets, its footer entry is short enough. */
    ghost predicate Encodable(href: HashRef, chunk: Bytes)
      reads this
    {
      |href.hash| >= suite.nonceBytes
      && forall key: Bytes, offset: nat :: |key| == suite.keyBytes && offset <= maxLen ==>
           EncodesShort(suite, href, key, offset, chunk)
    }

    /** Encrypt `chunk` and add it with its footer entry, unless the blob would get too long. */
    method TryAppend(chunk: Bytes, href: HashRef) returns (result: AppendResult, href': HashRef)
      requires Valid() && Encodable(href, chunk)
      modifies this, chunks
      ensures Valid() && chunks == old(chunks) && accessKey == old(accessKey)
      ensures href'.pref.key.Some? && |href'.pref.key.value| == suite.keyBytes
      ensures href' == Addressed(href, href'.pref.key.value, |old(chunks.Contents())|, |chunk| + suite.macBytes)
      ensures result == if Accepts(suite, maxLen, old(items), Item(href', chunk)) then Appended
                        else if old(items) == [] then TooLarge else Full
      ensures items == if result.Appended? then old(items) + [Item(href', chunk)] else old(items)
    {
      hide Lawful, Packed, Placed, Footer, Chunks, FooterEntry, UpperBound;
      var key := RandomBytes(suite.keyBytes);
      PackedBound(suite, maxLen, items);
      SizeIsLength(suite, accessKey, items);
      assert EncodesShort(suite, href, key, chunks.len, chunk);
      href' := Addressed(href, key, chunks.len, |chunk| + suite.macBytes);
      var ct := ChunkCipher(suite, accessKey, href', chunk);
      ghost var item := Item(href', chunk);
      AppendFacts(suite, accessKey, maxLen, items, item);
      var hrefBytes := suite.encode(href');
      if UpperboundLen() + 1 + |hrefBytes| + |ct| >= maxLen {
        result := if chunks.len == 0 then TooLarge else Full;
        return;
      }
      var piece := new CipherText(ct);
      chunks.Append(piece);
      footer := footer + FooterEntry(suite, href');
      items := items + [item];
      result := Appended;
    }

    /** Seal what was appended into a blob of exactly the maximum length, and start over. */
    method ToCiphertext() returns (out: CipherText?, ghost coins: Coins)
      requires Valid() && Sealable()
      modifies this
      ensures Valid() && items == [] && fresh(chunks)
      ensures out == null <==> old(items) == []
      ensures out != null ==>
        && out == old(chunks) && out.Valid() && CoinsOk(suite, coins) && |out.Contents()| == maxLen
        && Filled(suite, old(accessKey), old(items))
        && out.Contents() == BlobBytes(suite, old(accessKey), old(items), coins)
      modifies chunks
    {
      hide Lawful, Packed, Placed, Footer, Chunks, AllKeyed, BlobLayout.Size, BlobBytes, Filled, Cost;
      SealFacts(suite, accessKey, maxLen, items);
      EmptyItems(suite, accessKey, maxLen);
      if chunks.len == 0 {
        out := null;
        coins := Coins([], [], []);
        chunks := new CipherText.Empty();
        return;
      }
      out := chunks;
      var footerOverhead := |footer| + overhead;
      assert chunks.len + footerOverhead <= maxLen;
      coins := Seal(out, footerOverhead);
      var nextKey := RandomBytes(suite.keyBytes);
      accessKey, footer, items := nextKey, [], [];
      chunks := new CipherText.Empty();
      EmptyItems(suite, accessKey, maxLen);
    }

    /** Padding, the sealed footer and the authentication digest. */
    method Seal(out: CipherText, footerOverhead: nat) returns (ghost coins: Coins)
      requires Valid() && items != [] && out == chunks
      requires footerOverhead == |footer| + overhead && out.len + footerOverhead <= maxLen
      modifies chunks
      ensures out.Valid() && CoinsOk(suite, coins) && |out.Contents()| == maxLen
      ensures Filled(suite, accessKey, items) && out.Contents() == BlobBytes(suite, accessKey, items, coins)
    {
      hide Packed, Placed, Footer, Chunks, SymmetricLaw, SealLaw, CodecLaw;
      ghost var body := chunks.Contents();
      var innerKey := RandomBytes(suite.keyBytes);
      var nonce := RandomBytes(suite.nonceBytes);
      var sealed := new CipherText(Sealed(suite, accessKey, footer, nonce, innerKey));
      ghost var pad := out.RandomPadUpto(maxLen - footerOverhead);
      coins := Coins(pad, nonce, innerKey);
      out.Append(sealed);
      out.AppendAuthentication(suite);
      BlobLength(suite, accessKey, items, coins);
      SizeIsLength(suite, accessKey, items);
      assert out.len == maxLen;
    }
  }

  lemma ChunksNonEmpty(s: Suite, accessKey: Bytes, items: seq<Item>)
    requires Lawful(s) && AllKeyed(s, items) && items != []
    ensures |Chunks(s, accessKey, items)| > 0
  {
  }

  /** A sealable blob that is not empty has room for its footer and the overhead. */
  lemma SealFacts(s: Suite, accessKey: Bytes, maxLen: nat, items: seq<Item>)
    requires Lawful(s) && AllKeyed(s, items) && Packed(s, maxLen, items)
    requires items != [] ==> Cost(s, items[0]) + s.Overhead() <= maxLen
    ensures items == [] <==> |Chunks(s, accessKey, items)| == 0
    ensures items != [] ==> |Chunks(s, accessKey, items)| + |Footer(s, items)| + s.Overhead() <= maxLen
  {
    if items != [] {
      SealableIff(s, maxLen, items);
      SizeIsLength(s, accessKey, items);
      ChunksNonEmpty(s, accessKey, items);
    }
  }

  lemma EmptyItems(s: Suite, accessKey: Bytes, maxLen: nat)
    ensures AllKeyed(s, []) && Chunks(s, accessKey, []) == [] && Footer(s, []) == []
    ensures Placed(s, accessKey, []) && Packed(s, maxLen, [])
  {
  }

  lemma AppendFacts(s: Suite, accessKey: Bytes, maxLen: nat, items: seq<Item>, item: Item)
    requires Lawful(s) && AllKeyed(s, items) && Keyed(s, item) && |s.encode(item.href)| < 65535
    requires Placed(s, accessKey, items) && Packed(s, maxLen, items)
    requires item.href.pref.offset == |Chunks(s, accessKey, items)| && item.href.pref.length == |item.text| + s.macBytes
    ensures AllKeyed(s, items + [item])
    ensures |ChunkCipher(s, accessKey, item.href, item.text)| == |item.text| + s.macBytes
    ensures Chunks(s, accessKey, items + [item]) ==
        Chunks(s, accessKey, items) + ChunkCipher(s, accessKey, item.href, item.text)
    ensures Footer(s, items + [item]) == Footer(s, items) + FooterEntry(s, item.href)
    ensures Placed(s, accessKey, items + [item])
    ensures Accepts(s, maxLen, items, item) ==> Packed(s, maxLen, items + [item])
    ensures items == [] <==> |Chunks(s, accessKey, items)| == 0
  {
    ItemSplit(items, item);
    if items != [] { ChunksNonEmpty(s, accessKey, items); }
  }

  function Prepend(a: seq<HashRef>, b: Option<seq<HashRef>>): Option<seq<HashRef>> {
    if b.None? then None else Some(a + b.value)
  }

  lemma PrependNothing(b: Option<seq<HashRef>>)
    ensures Prepend([], b) == b
  {
    if b.Some? { assert [] + b.value == b.value; }
  }

  lemma PrependSnoc(a: seq<HashRef>, h: HashRef, b: Option<seq<HashRef>>)
    ensures Prepend(a, Prepend([h], b)) == Prepend(a + [h], b)
  {
    if b.Some? { assert a + ([h] + b.value) == (a + [h]) + b.value; }
  }

  lemma FooterEnd(s: Suite)
    ensures ParseFooter(s, []) == Some([])
  {
  }

  class BlobReader {
    const suite: Suite
    const accessKey: Bytes
    const footerCt: Bytes
    const blob: CipherText

    constructor (suite: Suite, accessKey: Bytes, footerCt: Bytes, blob: Bytes)
      ensures this.suite == suite && this.accessKey == accessKey && this.footerCt == footerCt
      ensures Valid() && this.blob.Contents() == blob && fresh(this.blob)
    {
      this.suite, this.accessKey, this.footerCt := suite, accessKey, footerCt;
      this.blob := new CipherText(blob);
    }

    ghost predicate Valid()
      reads this, blob
    {
      blob.Valid() && blob.chunks != []
    }

    /** Check the digest and recover the access key; null if the blob is not authentic. */
    static method New(suite: Suite, blob: Bytes) returns (reader: BlobReader?)
      ensures reader == null <==> Open(suite, blob).None?
      ensures reader != null ==> Authentic(suite, blob)
      ensures reader != null ==>
        && reader.Valid() && fresh(reader) && fresh(reader.blob) && reader.suite == suite
        && Open(suite, blob) == Some((reader.accessKey, reader.footerCt, reader.blob.Contents()))
    {
      OpensAuthentic(suite, blob);
      var rest := StripAuthentication(suite, blob);
      if rest.None? {
        return null;
      }
      var access := UnsealAccess(suite, rest.value);
      if access.None? {
        return null;
      }
      var (key, footer, front) := access.value;
      reader := new BlobReader(suite, key, footer, front);
    }

    /** List the references in the footer. */
    method Refs() returns (refs: Option<seq<HashRef>>)
      requires Valid()
      modifies blob
      ensures Valid() && blob.Contents() == old(blob.Contents()) && refs == RefsOf(suite, footerCt, blob.Contents())
    {
      var ct := blob.Collapse();
      var unsealed := Unseal(suite, footerCt, ct);
      if unsealed.None? {
        return None;
      }
      var text := unsealed.value.1;
      refs := ParseRefs(text);
    }

    method ParseRefs(text: Bytes) returns (refs: Option<seq<HashRef>>)
      ensures refs == ParseFooter(suite, text)
    {
      hide ParseFooter;
      var pos, hrefs := text, [];
      PrependNothing(ParseFooter(suite, text));
      while |pos| > 0
        invariant ParseFooter(suite, text) == Prepend(hrefs, ParseFooter(suite, pos))
        decreases |pos|
      {
        var first := NextRef(pos);
        if first.None? {
          return None;
        }
        var (href, rest) := first.value;
        PrependSnoc(hrefs, href, ParseFooter(suite, rest));
        hrefs, pos := hrefs + [href], rest;
      }
      FooterEnd(suite);
      assert hrefs + [] == hrefs;
      refs := Some(hrefs);
    }

    /** One length-prefixed reference, and what follows it. */
    method NextRef(pos: Bytes) returns (first: Option<(HashRef, Bytes)>)
      requires pos != []
      ensures first.None? ==> ParseFooter(suite, pos) == None
      ensures first.Some? ==>
        |first.value.1| < |pos|
          && ParseFooter(suite, pos) == Prepend([first.value.0], ParseFooter(suite, first.value.1))
    {
      if |pos| < 2 {
        return None;
      }
      var n: nat := pos[0] as int + 256 * pos[1] as int;
      if |pos| < 2 + n {
        return None;
      }
      var href := suite.decode(pos[2..2 + n]);
      first := if href.None? then None else Some((href.value, pos[2 + n..]));
    }

    method ReadChunk(href: HashRef) returns (text: Option<Bytes>)
      requires Valid()
      modifies blob
      ensures Valid() && blob.Contents() == old(blob.Contents())
      ensures text == ReadAt(suite, accessKey, href, blob.Contents())
    {
      var ct := blob.Collapse();
      if |ct| <= href.pref.offset + href.pref.length || href.pref.key.None? || |href.hash| < suite.nonceBytes {
        return None;
      }
      var piece := ct[href.pref.offset..href.pref.offset + href.pref.length];
      text := suite.symUnlock(piece, suite.salt(href.node, href.leaf), href.hash[..suite.nonceBytes],
                              suite.mixKeys(accessKey, href.pref.key.value));
    }
  }
}
