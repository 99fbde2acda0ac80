/**
  The layout of a blob: chunk ciphertexts, padding, a sealed footer listing the references of all
  chunks, and an authentication digest.
*/
module BlobLayout {
  import opened Common
  import opened HashTypes
  import opened Crypto

  /** One appended chunk: its plaintext and the reference written to the footer. */
  datatype Item = Item(href: HashRef, text: Bytes)

  /** The reference of a chunk once its key and place are known. */
  function Addressed(href: HashRef, key: Bytes, offset: nat, length: nat): HashRef {
    href.(pref := href.pref.(key := Some(key), offset := offset, length := length))
  }

  function ChunkCipher(s: Suite, accessKey: Bytes, href: HashRef, text: Bytes): Bytes
    requires href.pref.key.Some? && |href.hash| >= s.nonceBytes
  {
    s.symLock(text, s.salt(href.node, href.leaf), href.hash[..s.nonceBytes], s.mixKeys(accessKey, href.pref.key.value))
  }

  predicate Keyed(s: Suite, item: Item) {
    item.href.pref.key.Some? && |item.href.hash| >= s.nonceBytes
  }

  predicate AllKeyed(s: Suite, items: seq<Item>) {
    forall i | 0 <= i < |items| :: Keyed(s, items[i])
  }

  /** The ciphertexts of all chunks, one after the other. */
  function Chunks(s: Suite, accessKey: Bytes, items: seq<Item>): Bytes
    requires AllKeyed(s, items)
  {
    if items == [] then []
    else
      Chunks(s, accessKey, items[..|items| - 1]) +
      ChunkCipher(s, accessKey, items[|items| - 1].href, items[|items| - 1].text)
  }

  function FooterEntry(s: Suite, href: HashRef): Bytes {
    var b := s.encode(href);
    [|b| % 256] + [(|b| / 256) % 256] + b
  }

  function Footer(s: Suite, items: seq<Item>): Bytes {
    if items == [] then [] else Footer(s, items[..|items| - 1]) + FooterEntry(s, items[|items| - 1].href)
  }

  /** Where the references say the chunks are, they are. */
  predicate Placed(s: Suite, accessKey: Bytes, items: seq<Item>)
    requires AllKeyed(s, items)
  {
    items == [] ||
    (var n := |items| - 1;
     && Placed(s, accessKey, items[..n])
     && items[n].href.pref.offset == |Chunks(s, accessKey, items[..n])|
     && items[n].href.pref.length == |ChunkCipher(s, accessKey, items[n].href, items[n].text)|
     && |s.encode(items[n].href)| < 65535)
  }

  // ---------------------------------------------------------------- the size bound

  /** The bytes a chunk adds: its ciphertext and its footer entry. */
  function Cost(s: Suite, item: Item): nat {
    |item.text| + s.macBytes + 2 + |s.encode(item.href)|
  }

  function Size(s: Suite, items: seq<Item>): nat {
    if items == [] then 0 else Size(s, items[..|items| - 1]) + Cost(s, items[|items| - 1])
  }

  function UpperBound(s: Suite, items: seq<Item>): nat {
    if items == [] then 0 else Size(s, items) + s.Overhead()
  }

  /** The test `try_append` makes before it accepts a chunk. */
  predicate Accepts(s: Suite, maxLen: nat, items: seq<Item>, item: Item) {
    UpperBound(s, items) + 1 + |s.encode(item.href)| + |item.text| + s.macBytes < maxLen
  }

  /** A blob filled by accepted appends only. */
  predicate Packed(s: Suite, maxLen: nat, items: seq<Item>) {
    items == [] ||
    (Packed(s, maxLen, items[..|items| - 1]) && Accepts(s, maxLen, items[..|items| - 1], items[|items| - 1]))
  }

  /** Exactly when a filled blob can be sealed: the test leaves out the overhead for the first chunk, so it
      all depends on whether that chunk fits together with the overhead. */
  lemma {:induction false} SealableIff(s: Suite, maxLen: nat, items: seq<Item>)
    requires Packed(s, maxLen, items) && items != []
    ensures Size(s, items) + s.Overhead() <= maxLen <==> Cost(s, items[0]) + s.Overhead() <= maxLen
    decreases |items|
  {
    var front := items[..|items| - 1];
    if front == [] {
      assert Size(s, front) == 0;
    } else {
      SealableIff(s, maxLen, front);
    }
  }

  /** If the first chunk of a blob does not fit together with the overhead, no second chunk is accepted. */
  lemma OversizedAlone(s: Suite, maxLen: nat, items: seq<Item>)
    requires Packed(s, maxLen, items) && items != [] && Cost(s, items[0]) + s.Overhead() > maxLen
    ensures |items| == 1
  {
    if |items| > 1 {
      SealableIff(s, maxLen, items[..|items| - 1]);
    }
  }

  /** The missing overhead is real: for every suite there is a blob size at which a lone chunk is accepted
      that can never be sealed. */
  lemma UnsealableExample(s: Suite, item: Item)
    requires Lawful(s)
    ensures var maxLen := Cost(s, item); Packed(s, maxLen, [item]) && Size(s, [item]) + s.Overhead() > maxLen
  {
    assert [item][..0] == [];
  }

  /** Accepted appends never fill more than the blob. */
  lemma PackedBound(s: Suite, maxLen: nat, items: seq<Item>)
    requires Packed(s, maxLen, items)
    ensures Size(s, items) <= maxLen
  {
  }

  /** The reference of a stored chunk serialises to fewer bytes than a footer entry can hold. */
  predicate EncodesShort(s: Suite, href: HashRef, key: Bytes, offset: nat, chunk: Bytes) {
    |s.encode(Addressed(href, key, offset, |chunk| + s.macBytes))| < 65535
  }

  lemma ItemSplit(items: seq<Item>, item: Item)
    ensures (items + [item])[..|items + [item]| - 1] == items && (items + [item])[|items|] == item
  {
  }

  /** The sizes are those of the actual bytes. */
  lemma {:induction false} SizeIsLength(s: Suite, accessKey: Bytes, items: seq<Item>)
    requires Lawful(s) && AllKeyed(s, items)
    ensures Size(s, items) == |Chunks(s, accessKey, items)| + |Footer(s, items)|
    decreases |items|
  {
    if items != [] { SizeIsLength(s, accessKey, items[..|items| - 1]); }
  }

  /** What the test comes to: it accepts a chunk exactly if all chunks, the footer that lists them and the
      overhead fit together; for a first chunk it leaves out the overhead. */
  lemma AcceptsIff(s: Suite, accessKey: Bytes, maxLen: nat, items: seq<Item>, item: Item)
    requires Lawful(s) && AllKeyed(s, items + [item])
    ensures var all := items + [item];
      Accepts(s, maxLen, items, item) <==>
      |Chunks(s, accessKey, all)| + |Footer(s, all)| + (if items == [] then 0 else s.Overhead()) <= maxLen
  {
    ItemSplit(items, item);
    SizeIsLength(s, accessKey, items + [item]);
  }

  // ---------------------------------------------------------------- the footer

  /** The references listed in a footer; `None` if it is malformed. */
  function ParseFooter(s: Suite, b: Bytes): Option<seq<HashRef>>
    decreases |b|
  {
    if b == [] then Some([])
    else if |b| < 2 then None
    else
      var n: nat := b[0] as int + 256 * b[1] as int;
      if |b| < 2 + n then None
      else
        match s.decode(b[2..2 + n])
        case None => None
        case Some(h) =>
          match ParseFooter(s, b[2 + n..])
          case None => None
          case Some(rest) => Some([h] + rest)
  }

  function Models(items: seq<Item>): (r: seq<HashRef>)
    ensures |r| == |items| && forall i :: 0 <= i < |r| ==> r[i] == items[i].href.ToModel()
  {
    seq(|items|, i requires 0 <= i < |items| => items[i].href.ToModel())
  }

  lemma EntryParses(s: Suite, href: HashRef, rest: Bytes)
    requires Lawful(s) && |s.encode(href)| < 65536
    ensures var b := FooterEntry(s, href) + rest; var n := |s.encode(href)|;
      |b| >= 2 + n && b[0] as int + 256 * b[1] as int == n && b[2..2 + n] == s.encode(href) && b[2 + n..] == rest
  {
  }

  /** Parsing the footer yields the references in the order of the appends, whatever follows. */
  lemma {:induction false} FooterParses(s: Suite, items: seq<Item>, rest: Bytes)
    requires Lawful(s) && forall i | 0 <= i < |items| :: |s.encode(items[i].href)| < 65536
    ensures ParseFooter(s, Footer(s, items) + rest) ==
      match ParseFooter(s, rest) case None => None case Some(hs) => Some(Models(items) + hs)
    decreases |items|
  {
    if items == [] {
      assert Footer(s, items) + rest == rest;
      if ParseFooter(s, rest).Some? { assert Models(items) + ParseFooter(s, rest).value == ParseFooter(s, rest).value; }
    } else {
      var front, last := items[..|items| - 1], items[|items| - 1];
      assert Footer(s, items) + rest == Footer(s, front) + (FooterEntry(s, last.href) + rest);
      FooterParses(s, front, FooterEntry(s, last.href) + rest);
      EntryFirst(s, last.href, rest);
      if ParseFooter(s, rest).Some? { ModelsSnoc(items, ParseFooter(s, rest).value); }
    }
  }

  lemma EntryFirst(s: Suite, href: HashRef, rest: Bytes)
    requires Lawful(s) && |s.encode(href)| < 65536
    ensures ParseFooter(s, FooterEntry(s, href) + rest) ==
      match ParseFooter(s, rest) case None => None case Some(hs) => Some([href.ToModel()] + hs)
  {
    EntryParses(s, href, rest);
    assert s.decode(s.encode(href)) == Some(href.ToModel());
  }

  lemma ModelsSnoc(items: seq<Item>, hs: seq<HashRef>)
    requires items != []
    ensures Models(items[..|items| - 1]) + ([items[|items| - 1].href.ToModel()] + hs) == Models(items) + hs
  {
  }

  // ---------------------------------------------------------------- reading chunks

  function ReadAt(s: Suite, accessKey: Bytes, href: HashRef, blob: Bytes): Option<Bytes> {
    if |blob| <= href.pref.offset + href.pref.length || href.pref.key.None? || |href.hash| < s.nonceBytes then None
    else
      s.symUnlock(blob[href.pref.offset..href.pref.offset + href.pref.length], s.salt(href.node, href.leaf),
                  href.hash[..s.nonceBytes], s.mixKeys(accessKey, href.pref.key.value))
  }

  /** Each reference addresses exactly the ciphertext of its chunk, and stays inside the chunk area. */
  lemma {:induction false} ChunkAt(s: Suite, accessKey: Bytes, items: seq<Item>, i: nat)
    requires Lawful(s) && AllKeyed(s, items) && Placed(s, accessKey, items) && i < |items|
    ensures var p := items[i].href.pref; var c := Chunks(s, accessKey, items);
      p.offset + p.length <= |c|
        && c[p.offset..p.offset + p.length] == ChunkCipher(s, accessKey, items[i].href, items[i].text)
    decreases |items|
  {
    var n := |items| - 1;
    if i < n {
      ChunkAt(s, accessKey, items[..n], i);
    }
  }

  lemma {:induction false} PlacedEncodable(s: Suite, accessKey: Bytes, items: seq<Item>)
    requires AllKeyed(s, items) && Placed(s, accessKey, items)
    ensures forall i | 0 <= i < |items| :: |s.encode(items[i].href)| < 65535
    decreases |items|
  {
    if items != [] {
      PlacedEncodable(s, accessKey, items[..|items| - 1]);
      assert forall i | 0 <= i < |items| - 1 :: items[..|items| - 1][i] == items[i];
    }
  }

  /** Two references that agree on everything but local and informational fields read the same chunk. */
  predicate SameChunk(a: HashRef, b: HashRef) {
    && a.hash == b.hash && a.node == b.node && a.leaf == b.leaf
    && a.pref.offset == b.pref.offset && a.pref.length == b.pref.length && a.pref.key == b.pref.key
  }

  // ---------------------------------------------------------------- the whole blob

  /** The random choices made when a blob is sealed. */
  datatype Coins = Coins(pad: Bytes, nonce: Bytes, innerKey: Bytes)

  predicate CoinsOk(s: Suite, coins: Coins) {
    |coins.nonce| == s.nonceBytes && |coins.innerKey| == s.keyBytes
  }

  function Body(s: Suite, accessKey: Bytes, items: seq<Item>, coins: Coins): Bytes
    requires AllKeyed(s, items)
  {
    (Chunks(s, accessKey, items) + coins.pad) + Sealed(s, accessKey, Footer(s, items), coins.nonce, coins.innerKey)
  }

  function BlobBytes(s: Suite, accessKey: Bytes, items: seq<Item>, coins: Coins): Bytes
    requires AllKeyed(s, items)
  {
    Body(s, accessKey, items, coins) + s.authentication(Body(s, accessKey, items, coins))
  }

  function StripAuthentication(s: Suite, blob: Bytes): Option<Bytes> {
    match SplitFromRight(blob, s.digestBytes)
    case None => None
    case Some((rest, want)) => if s.authentication(rest) == want then Some(rest) else None
  }

  /** What opening a blob finds: the access key, the footer ciphertext, and the blob up to it. */
  function Open(s: Suite, blob: Bytes): Option<(Bytes, Bytes, Bytes)> {
    match StripAuthentication(s, blob)
    case None => None
    case Some(rest) => UnsealAccess(s, rest)
  }

  /** The blob ends with the digest of all that comes before it. */
  predicate Authentic(s: Suite, blob: Bytes) {
    s.digestBytes <= |blob| && blob[|blob| - s.digestBytes..] == s.authentication(blob[..|blob| - s.digestBytes])
  }

  /** A blob that was tampered with does not open: none does whose last bytes are not the digest of the others. */
  lemma OpensAuthentic(s: Suite, blob: Bytes)
    ensures Open(s, blob).Some? ==> Authentic(s, blob)
  {
    var rest := StripAuthentication(s, blob);
    if rest.Some? {
      assert blob[..|blob| - s.digestBytes] == rest.value;
    }
  }

  function RefsOf(s: Suite, footer: Bytes, blob: Bytes): Option<seq<HashRef>> {
    match Unseal(s, footer, blob)
    case None => None
    case Some((_, text)) => ParseFooter(s, text)
  }

  ghost predicate Filled(s: Suite, accessKey: Bytes, items: seq<Item>) {
    && Lawful(s) && AllKeyed(s, items) && Placed(s, accessKey, items) && |accessKey| == s.keyBytes
    && |Footer(s, items)| + s.macBytes + s.nonceBytes < MAX_I64
  }

  /** A blob's length is exactly chunks, padding, footer and overhead. */
  lemma BlobLength(s: Suite, accessKey: Bytes, items: seq<Item>, coins: Coins)
    requires Filled(s, accessKey, items) && CoinsOk(s, coins)
    ensures |BlobBytes(s, accessKey, items, coins)| == Size(s, items) + |coins.pad| + s.Overhead()
  {
    SizeIsLength(s, accessKey, items);
    SealedLength(s, accessKey, Footer(s, items), coins.nonce, coins.innerKey);
  }

  lemma OpenBlob(s: Suite, accessKey: Bytes, items: seq<Item>, coins: Coins)
    requires Filled(s, accessKey, items) && CoinsOk(s, coins)
    ensures var inner := InnerCipher(s, Footer(s, items), coins.nonce, coins.innerKey);
      Open(s, BlobBytes(s, accessKey, items, coins)) ==
        Some((accessKey, FooterCipher(s, |inner|, coins.innerKey), (Chunks(s, accessKey, items) + coins.pad) + inner))
  {
    var body := Body(s, accessKey, items, coins);
    SplitJoined(body, s.authentication(body));
    UnsealAccessSealed(s, Chunks(s, accessKey, items) + coins.pad, accessKey, Footer(s, items), coins.nonce,
      coins.innerKey);
  }

  /** Opening a sealed blob and listing its references gives back those of the appends, in order. */
  lemma RefsRoundTrip(s: Suite, accessKey: Bytes, items: seq<Item>, coins: Coins)
    requires Filled(s, accessKey, items) && CoinsOk(s, coins)
    ensures var found := Open(s, BlobBytes(s, accessKey, items, coins));
      found.Some? && RefsOf(s, found.value.1, found.value.2) == Some(Models(items))
  {
    OpenBlob(s, accessKey, items, coins);
    UnsealSealed(s, Chunks(s, accessKey, items) + coins.pad, Footer(s, items), coins.nonce, coins.innerKey);
    PlacedEncodable(s, accessKey, items);
    FooterParses(s, items, []);
    assert Footer(s, items) + [] == Footer(s, items);
    assert Models(items) + [] == Models(items);
  }

  /** Opening a sealed blob and reading any of its references gives back that chunk. */
  lemma ReadRoundTrip(s: Suite, accessKey: Bytes, items: seq<Item>, coins: Coins, i: nat, href: HashRef)
    requires Filled(s, accessKey, items) && CoinsOk(s, coins) && i < |items| && SameChunk(items[i].href, href)
    ensures var found := Open(s, BlobBytes(s, accessKey, items, coins));
      found.Some? && ReadAt(s, found.value.0, href, found.value.2) == Some(items[i].text)
  {
    OpenBlob(s, accessKey, items, coins);
    ChunkAt(s, accessKey, items, i);
    var c := Chunks(s, accessKey, items);
    var inner := InnerCipher(s, Footer(s, items), coins.nonce, coins.innerKey);
    var p := href.pref;
    assert Keyed(s, items[i]);
    assert ((c + coins.pad) + inner)[p.offset..p.offset + p.length] == c[p.offset..p.offset + p.length];
  }
}
