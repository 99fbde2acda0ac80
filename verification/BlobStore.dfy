/**
  The blob store: chunks are packed into the current blob, full blobs go to external storage, and the
  callback of a chunk runs once the blob that holds it is there.
*/
module BlobStore {
  import opened Common
  import opened HashTypes
  import opened Crypto
  import opened BlobLayout
  import opened Blob

  /** A reference the store handed out, the chunk it stands for, and the callback registered with it. */
  datatype Issue = Issue(href: HashRef, chunk: Bytes, callback: nat)

  datatype Fetch = Corrupt | Missing | Got(chunk: Bytes)

  type Backend = map<Bytes, Bytes>

  /** What retrieving `href` yields when external storage holds `backend`. */
  function RetrieveFrom(s: Suite, backend: Backend, href: HashRef): Fetch {
    if href.pref.offset == 0 && href.pref.length == 0 then Got([])
    else if href.pref.blobName !in backend then Missing
    else
      match Open(s, backend[href.pref.blobName])
      case None => Corrupt
      case Some((key, _, blob)) =>
        match ReadAt(s, key, href, blob)
        case None => Corrupt
        case Some(text) => Got(text)
  }

  lemma RetrieveKeeps(s: Suite, backend: Backend, name: Bytes, blob: Bytes, href: HashRef)
    requires name !in backend && RetrieveFrom(s, backend, href).Got?
    ensures RetrieveFrom(s, backend[name := blob], href) == RetrieveFrom(s, backend, href)
  {
  }

  /** Serialising a reference loses the local blob id and nothing else, so it still reads the same chunk. */
  lemma ModelReads(s: Suite, backend: Backend, href: HashRef)
    ensures var m := href.ToModel(); m.(pref := m.pref.(blobId := href.pref.blobId)) == href && m.pref.blobId == None
    ensures RetrieveFrom(s, backend, href.ToModel()) == RetrieveFrom(s, backend, href)
  {
  }

  function Callbacks(issues: seq<Issue>): (r: seq<nat>)
    ensures |r| == |issues| && forall i :: 0 <= i < |r| ==> r[i] == issues[i].callback
  {
    seq(|issues|, i requires 0 <= i < |issues| => issues[i].callback)
  }

  /** The reference as it is handed to a blob: local id and name filled in. */
  function Named(s: Suite, href: HashRef, id: nat): HashRef {
    href.(pref := href.pref.(blobId := Some(id), blobName := s.blobName(id)))
  }

  /** The reference the chunk gets if it comes first in blob `id`. */
  function FirstRef(s: Suite, href: HashRef, id: nat, key: Bytes, length: nat): HashRef {
    Addressed(Named(s, href, id), key, 0, length)
  }

  predicate FitsAs(s: Suite, maxLen: nat, href: HashRef, chunk: Bytes, id: nat, key: Bytes) {
    Cost(s, Item(FirstRef(s, href, id, key, |chunk| + s.macBytes), chunk)) + s.Overhead() <= maxLen
  }

  /** The chunk, as the next one of the blob, would make it too long: all chunks, the footer and the overhead
      do not fit. `x` is the chunk with its reference, which says where in the blob it would be. */
  predicate Overfull(s: Suite, maxLen: nat, accessKey: Bytes, items: seq<Item>, id: nat, href: HashRef, chunk: Bytes,
                     x: Item)
  {
    && AllKeyed(s, items) && AllKeyed(s, items + [x])
    && x.text == chunk && x.href.(pref := href.pref) == href
    && x.href.pref.blobId == Some(id) && x.href.pref.blobName == s.blobName(id)
    && x.href.pref.offset == |Chunks(s, accessKey, items)| && x.href.pref.length == |chunk| + s.macBytes
    && x.href.pref.key.Some? && |x.href.pref.key.value| == s.keyBytes
    && |Chunks(s, accessKey, items + [x])| + |Footer(s, items + [x])| + s.Overhead() > maxLen
  }

  /** The blob of `items`, known as `id`, has no room for the chunk. */
  ghost predicate NoRoom(s: Suite, maxLen: nat, accessKey: Bytes, items: seq<Item>, id: nat, href: HashRef,
                         chunk: Bytes)
  {
    items != [] && exists x :: Overfull(s, maxLen, accessKey, items, id, href, chunk, x)
  }

  /** Between the two states of external storage one blob was sent there: that of `items`, named `name`. */
  ghost predicate SentAs(s: Suite, before: Backend, after: Backend, name: Bytes, accessKey: Bytes, items: seq<Item>) {
    Filled(s, accessKey, items) && items != [] && exists coins ::
      CoinsOk(s, coins) && after == before[name := BlobBytes(s, accessKey, items, coins)]
  }

  lemma FullIsOverfull(s: Suite, maxLen: nat, accessKey: Bytes, items: seq<Item>, id: nat, href: HashRef, chunk: Bytes,
                       href': HashRef)
    requires Lawful(s) && AllKeyed(s, items) && items != [] && |href.hash| >= s.nonceBytes
    requires href'.pref.key.Some? && |href'.pref.key.value| == s.keyBytes
    requires href' == Addressed(Named(s, href, id), href'.pref.key.value, |Chunks(s, accessKey, items)|,
        |chunk| + s.macBytes)
    requires !Accepts(s, maxLen, items, Item(href', chunk))
    ensures NoRoom(s, maxLen, accessKey, items, id, href, chunk)
  {
    hide Lawful, Chunks, Footer, Accepts;
    var x := Item(href', chunk);
    assert AllKeyed(s, items + [x]);
    AcceptsIff(s, accessKey, maxLen, items, x);
    assert Overfull(s, maxLen, accessKey, items, id, href, chunk, x);
  }

  /** Whatever blob and key it gets, the chunk, its footer entry and the overhead fit together. */
  ghost predicate Fits(s: Suite, maxLen: nat, href: HashRef, chunk: Bytes) {
    forall id: nat, key: Bytes :: id < MAX_I64 && |key| == s.keyBytes ==> FitsAs(s, maxLen, href, chunk, id, key)
  }

  /** Whatever blob, key and place it gets, its footer entry is short enough. */
  ghost predicate CanEncode(s: Suite, maxLen: nat, href: HashRef, chunk: Bytes) {
    && |href.hash| >= s.nonceBytes
    && forall id: nat, key: Bytes, offset: nat :: id < MAX_I64 && |key| == s.keyBytes && offset <= maxLen ==>
         EncodesShort(s, Named(s, href, id), key, offset, chunk)
  }

  /** Blob ids are 64-bit integers. */
  predicate IdsLeft(id: nat, n: nat) {
    id + n < MAX_I64
  }

  /** What placing a chunk takes; an empty one is not placed. */
  ghost predicate Placeable(s: Suite, maxLen: nat, id: nat, href: HashRef, chunk: Bytes) {
    chunk != [] ==> IdsLeft(id, 1) && CanEncode(s, maxLen, href, chunk) && Fits(s, maxLen, href, chunk)
  }

  /** `pending` are the chunks of the blob being filled, in order. */
  ghost predicate PendingOk(items: seq<Item>, name: Bytes, pending: seq<Issue>) {
    && |pending| == |items|
    && forall i | 0 <= i < |items| ::
         && pending[i].href == items[i].href.(info := None) && pending[i].chunk == items[i].text
         && items[i].href.pref.blobName == name && items[i].href.pref.length > 0
  }

  ghost predicate AllRetrievable(s: Suite, backend: Backend, issues: seq<Issue>) {
    forall i | 0 <= i < |issues| :: RetrieveFrom(s, backend, issues[i].href) == Got(issues[i].chunk)
  }

  /** Names in external storage were all issued before `next`. */
  ghost predicate OldNames(s: Suite, backend: Backend, next: nat) {
    forall n | n in backend :: exists id :: 0 <= id < next && s.blobName(id) == n
  }

  lemma FreshName(s: Suite, backend: Backend, next: nat)
    requires Lawful(s) && OldNames(s, backend, next)
    ensures s.blobName(next) !in backend
  {
  }

  lemma NamesGrow(s: Suite, backend: Backend, next: nat, blob: Bytes)
    requires OldNames(s, backend, next)
    ensures OldNames(s, backend[s.blobName(next) := blob], next + 1)
  {
  }

  /** Once the blob is in storage, each of its chunks can be retrieved, and all earlier ones still can. */
  lemma FlushedRetrievable(s: Suite, backend: Backend, name: Bytes, accessKey: Bytes, items: seq<Item>, coins: Coins,
                           done: seq<Issue>, pending: seq<Issue>)
    requires Filled(s, accessKey, items) && CoinsOk(s, coins) && PendingOk(items, name, pending) && name !in backend
    requires AllRetrievable(s, backend, done)
    ensures AllRetrievable(s, backend[name := BlobBytes(s, accessKey, items, coins)], done + pending)
  {
    var blob := BlobBytes(s, accessKey, items, coins);
    forall i | 0 <= i < |done|
      ensures RetrieveFrom(s, backend[name := blob], done[i].href) == Got(done[i].chunk)
    {
      RetrieveKeeps(s, backend, name, blob, done[i].href);
    }
    forall i | 0 <= i < |pending|
      ensures RetrieveFrom(s, backend[name := blob], pending[i].href) == Got(pending[i].chunk)
    {
      ReadRoundTrip(s, accessKey, items, coins, i, pending[i].href);
    }
  }

  lemma NothingPending(items: seq<Item>, name: Bytes, pending: seq<Issue>)
    requires PendingOk(items, name, pending) && items == []
    ensures pending == []
  {
  }

  lemma NothingPends(name: Bytes)
    ensures PendingOk([], name, [])
  {
  }

  lemma PendingSnoc(items: seq<Item>, name: Bytes, pending: seq<Issue>, item: Item, callback: nat)
    requires PendingOk(items, name, pending) && item.href.pref.blobName == name && item.href.pref.length > 0
    ensures PendingOk(items + [item], name, pending + [Issue(item.href.(info := None), item.text, callback)])
  {
  }

  lemma DoneSnoc(s: Suite, backend: Backend, done: seq<Issue>, issue: Issue)
    requires AllRetrievable(s, backend, done) && RetrieveFrom(s, backend, issue.href) == Got(issue.chunk)
    ensures AllRetrievable(s, backend, done + [issue])
  {
  }

  lemma AppendedRetrievable(s: Suite, backend: Backend, a: seq<Issue>, b: seq<Issue>)
    requires AllRetrievable(s, backend, a + b)
    ensures AllRetrievable(s, backend, b)
  {
    forall i | 0 <= i < |b|
      ensures RetrieveFrom(s, backend, b[i].href) == Got(b[i].chunk)
    {
      assert (a + b)[|a| + i] == b[i];
    }
  }

  lemma OneCallback(s: Suite, backend: Backend, issue: Issue)
    requires RetrieveFrom(s, backend, issue.href) == Got(issue.chunk)
    ensures AllRetrievable(s, backend, [issue]) && Callbacks([issue]) == [issue.callback]
  {
  }

  datatype Op = StoreOp(chunk: Bytes, href: HashRef, callback: nat) | FlushOp

  // ---------------------------------------------------------------- when blobs go out

  /** A blob that went out: during which operation, and what was in it. */
  datatype Sending = Sending(at: nat, accessKey: Bytes, items: seq<Item>)

  /** The blob named `name` in external storage is the sealed one of `items`. */
  ghost predicate Stored(s: Suite, backend: Backend, name: Bytes, accessKey: Bytes, items: seq<Item>) {
    Filled(s, accessKey, items) && items != [] && name in backend && exists coins ::
      CoinsOk(s, coins) && backend[name] == BlobBytes(s, accessKey, items, coins)
  }

  /** Why blob `id` went out: a flush asked for it, the last one included, or the chunk to be stored had no
      room in it. */
  ghost predicate Due(s: Suite, maxLen: nat, id: nat, ops: seq<Op>, x: Sending) {
    x.at < |ops| && ops[x.at].StoreOp? ==>
      ops[x.at].chunk != [] && NoRoom(s, maxLen, x.accessKey, x.items, id, ops[x.at].href, ops[x.at].chunk)
  }

  /** The blobs that went out during the first `n` operations, in order, at most one during each. */
  ghost predicate Logged(s: Suite, maxLen: nat, backend: Backend, first: nat, ops: seq<Op>, n: nat,
                         sent: seq<Sending>)
  {
    && (forall k | 0 <= k < |sent| ::
          && sent[k].at < n && Due(s, maxLen, first + k, ops, sent[k])
          && Stored(s, backend, s.blobName(first + k), sent[k].accessKey, sent[k].items))
    && forall j, k | 0 <= j < k < |sent| :: sent[j].at < sent[k].at
  }

  lemma NothingLogged(s: Suite, maxLen: nat, backend: Backend, first: nat, ops: seq<Op>)
    ensures Logged(s, maxLen, backend, first, ops, 0, [])
  {
  }

  lemma StillStored(s: Suite, before: Backend, after: Backend, name: Bytes, accessKey: Bytes, items: seq<Item>)
    requires Stored(s, before, name, accessKey, items) && forall n | n in before :: n in after && after[n] == before[n]
    ensures Stored(s, after, name, accessKey, items)
  {
  }

  lemma IsDue(s: Suite, maxLen: nat, id: nat, ops: seq<Op>, x: Sending)
    requires x.at < |ops| && ops[x.at].StoreOp? ==>
      ops[x.at].chunk != [] && NoRoom(s, maxLen, x.accessKey, x.items, id, ops[x.at].href, ops[x.at].chunk)
    ensures Due(s, maxLen, id, ops, x)
  {
  }

  lemma SentIsStored(s: Suite, before: Backend, after: Backend, name: Bytes, accessKey: Bytes, items: seq<Item>)
    requires SentAs(s, before, after, name, accessKey, items)
    ensures Stored(s, after, name, accessKey, items)
  {
  }

  /** One more operation: the log grows by the blob it sent, if any. */
  lemma LogOne(s: Suite, maxLen: nat, before: Backend, after: Backend, first: nat, ops: seq<Op>, at: nat,
               sent: seq<Sending>, accessKey: Bytes, items: seq<Item>, quiet: bool)
    returns (sent': seq<Sending>)
    requires Logged(s, maxLen, before, first, ops, at, sent)
    requires forall n | n in before :: n in after && after[n] == before[n]
    requires !quiet ==> SentAs(s, before, after, s.blobName(first + |sent|), accessKey, items)
    requires !quiet ==> Due(s, maxLen, first + |sent|, ops, Sending(at, accessKey, items))
    ensures sent' == if quiet then sent else sent + [Sending(at, accessKey, items)]
    ensures Logged(s, maxLen, after, first, ops, at + 1, sent')
  {
    hide Stored, Due, SentAs;
    forall k | 0 <= k < |sent|
      ensures Stored(s, after, s.blobName(first + k), sent[k].accessKey, sent[k].items)
    {
      StillStored(s, before, after, s.blobName(first + k), sent[k].accessKey, sent[k].items);
    }
    if quiet {
      sent' := sent;
    } else {
      sent' := sent + [Sending(at, accessKey, items)];
      SentIsStored(s, before, after, s.blobName(first + |sent|), accessKey, items);
    }
  }

  class BlobStore {
    const suite: Suite
    const maxLen: nat
    const blob: Blob
    var descId: nat
    var descName: Bytes
    var blobRefs: seq<nat>
    var backend: Backend
    /** Every callback run so far, in order. */
    var ran: seq<nat>
    ghost var done: seq<Issue>
    ghost var pending: seq<Issue>

    ghost predicate Valid()
      reads this, blob, blob.chunks
    {
      && blob.Valid() && blob.suite == suite && blob.maxLen == maxLen && blob.Sealable()
      && descName == suite.blobName(descId) && OldNames(suite, backend, descId)
      && PendingOk(blob.items, descName, pending)
      && blobRefs == Callbacks(pending)
      && ran == Callbacks(done)
      && AllRetrievable(suite, backend, done)
    }

    constructor (suite: Suite, maxLen: nat)
      requires Lawful(suite) && maxLen < MAX_I64
      ensures Valid() && fresh(blob) && fresh(blob.chunks) && done == [] && pending == [] && backend == map[]
      ensures this.suite == suite && this.maxLen == maxLen
    {
      this.suite, this.maxLen := suite, maxLen;
      blob := new Blob(suite, maxLen);
      descId, descName := 1, suite.blobName(1);
      blobRefs, backend, ran, done, pending := [], map[], [], [], [];
    }

    method ReserveNewBlob() returns (name: Bytes)
      modifies this`descId, this`descName
      ensures name == old(descName) && descId == old(descId) + 1 && descName == suite.blobName(descId)
    {
      name := descName;
      descId := descId + 1;
      descName := suite.blobName(descId);
    }

    /** Send the current blob out and run the callbacks of its chunks. */
    method Flush()
      requires Valid()
      modifies this, blob, blob.chunks
      ensures Valid() && blob.items == [] && pending == [] && done == old(done) + old(pending)
      ensures blob.chunks == old(blob.chunks) || fresh(blob.chunks)
      ensures old(descId) <= descId <= old(descId) + 1
      ensures old(blob.items) == [] ==> descId == old(descId) && backend == old(backend)
      ensures old(blob.items) != [] ==> descId == old(descId) + 1
      ensures old(blob.items) != [] ==>
        SentAs(suite, old(backend), backend, old(descName), old(blob.accessKey), old(blob.items))
      ensures ran == old(ran) + old(blobRefs)
      ensures forall n | n in old(backend) :: n in backend && backend[n] == old(backend)[n]
    {
      hide Lawful, AllKeyed, Placed, Packed, Chunks, Footer, PendingOk, AllRetrievable, OldNames, BlobBytes, Filled;
      ghost var items, accessKey := blob.items, blob.accessKey;
      var ct, coins := blob.ToCiphertext();
      if ct == null {
        NothingPending(items, descName, pending);
        assert done + pending == done;
        assert ran + blobRefs == ran;
        return;
      }
      var bytes := ct.Concatenated();
      Send(bytes, items, accessKey, coins);
    }

    /** The blob of `items` has been sealed into `bytes`: begin a new one, store this one, run its callbacks. */
    method Send(bytes: Bytes, ghost items: seq<Item>, ghost accessKey: Bytes, ghost coins: Coins)
      requires blob.Valid() && blob.suite == suite && blob.maxLen == maxLen && blob.items == []
      requires descName == suite.blobName(descId) && OldNames(suite, backend, descId)
      requires PendingOk(items, descName, pending) && blobRefs == Callbacks(pending)
      requires ran == Callbacks(done) && AllRetrievable(suite, backend, done)
      requires Filled(suite, accessKey, items) && CoinsOk(suite, coins)
      requires bytes == BlobBytes(suite, accessKey, items, coins)
      modifies this
      ensures Valid() && pending == [] && done == old(done) + old(pending) && ran == old(ran) + old(blobRefs)
      ensures descId == old(descId) + 1
      ensures backend == old(backend)[old(descName) := bytes]
      ensures forall n | n in old(backend) :: n in backend && backend[n] == old(backend)[n]
    {
      hide AllKeyed, Placed, Packed, Chunks, Footer, PendingOk, AllRetrievable, OldNames, BlobBytes;
      var name := ReserveNewBlob();
      var callbacks := blobRefs;
      blobRefs := [];
      FreshName(suite, backend, descId - 1);
      NamesGrow(suite, backend, descId - 1, bytes);
      FlushedRetrievable(suite, backend, name, accessKey, items, coins, done, pending);
      backend := backend[name := bytes];
      AppendedRetrievable(suite, backend, done, pending);
      RunCallbacks(callbacks, pending);
      done, pending := done + pending, [];
      NothingPends(descName);
    }

    /** Run callbacks; only those of chunks that can be retrieved by now. */
    method RunCallbacks(callbacks: seq<nat>, ghost issues: seq<Issue>)
      requires callbacks == Callbacks(issues) && AllRetrievable(suite, backend, issues)
      modifies this`ran
      ensures ran == old(ran) + callbacks
    {
      for i := 0 to |callbacks|
        invariant ran == old(ran) + callbacks[..i]
      {
        ran := ran + [callbacks[i]];
      }
    }

    /** Add a chunk to the current blob if it still fits there. */
    method TryStore(chunk: Bytes, href: HashRef, callback: nat) returns (result: AppendResult, stored: HashRef)
      requires Valid() && chunk != [] && descId < MAX_I64 && CanEncode(suite, maxLen, href, chunk)
      requires Fits(suite, maxLen, href, chunk)
      modifies this`pending, this`blobRefs, blob, blob.chunks
      ensures Valid() && blob.chunks == old(blob.chunks) && !result.TooLarge?
      ensures old(blob.items) == [] ==> result.Appended?
      ensures blob.accessKey == old(blob.accessKey)
      ensures result.Full? ==> pending == old(pending) && blobRefs == old(blobRefs) && blob.items == old(blob.items)
      ensures result.Full? ==> NoRoom(suite, maxLen, blob.accessKey, blob.items, descId, href, chunk)
      ensures result.Appended? ==> blob.items == old(blob.items) + [Item(stored.(info := href.info), chunk)]
      ensures result.Appended? ==>
        && pending == old(pending) + [Issue(stored, chunk, callback)] && blobRefs == old(blobRefs) + [callback]
        && stored.info == None && stored.hash == href.hash && stored.node == href.node && stored.leaf == href.leaf
        && stored.pref.length > 0 && stored.pref.blobId == Some(descId) && stored.pref.blobName == descName
    {
      hide Lawful, AllKeyed, Placed, Packed, Chunks, Footer, PendingOk, AllRetrievable, OldNames, Fits, CanEncode;
      hide Accepts, Cost;
      ghost var items := blob.items;
      NamedEncodable(suite, href, chunk, descId, blob);
      result, stored := blob.TryAppend(chunk, Named(suite, href, descId));
      if result.Full? {
        FullIsOverfull(suite, maxLen, blob.accessKey, items, descId, href, chunk, stored);
      }
      if items == [] { FirstOne(suite, blob.accessKey, maxLen, href, descId, stored, chunk); }
      ghost var item := Item(stored, chunk);
      stored := stored.(info := None);
      if result.Appended? {
        PendingSnoc(items, descName, pending, item, callback);
        blobRefs := blobRefs + [callback];
        pending := pending + [Issue(stored, chunk, callback)];
      }
    }

    /** The footer of the current blob lists the reference last, and with the file information it came with;
        references handed out do not carry that. */
    ghost predicate ListedLast(href: HashRef, info: Option<Bytes>, chunk: Bytes)
      reads blob
    {
      blob.items != [] && blob.items[|blob.items| - 1] == Item(href.(info := info), chunk)
    }

    /** Store a chunk. An empty one is not stored at all, so its callback runs at once. */
    method Store(chunk: Bytes, href: HashRef, callback: nat) returns (stored: HashRef)
      requires Valid() && Placeable(suite, maxLen, descId, href, chunk)
      modifies this, blob, blob.chunks
      ensures Valid() && (blob.chunks == old(blob.chunks) || fresh(blob.chunks))
      ensures descId == old(descId) ==> backend == old(backend) && (chunk != [] ==> ran == old(ran))
      ensures descId != old(descId) ==> descId == old(descId) + 1 && chunk != []
      ensures descId != old(descId) ==>
        && NoRoom(suite, maxLen, old(blob.accessKey), old(blob.items), old(descId), href, chunk)
        && SentAs(suite, old(backend), backend, old(descName), old(blob.accessKey), old(blob.items))
      ensures forall n | n in old(backend) :: n in backend && backend[n] == old(backend)[n]
      ensures stored.hash == href.hash && stored.node == href.node && stored.leaf == href.leaf && stored.info == None
      ensures chunk == [] <==> stored.pref.length == 0
      ensures chunk != [] ==> stored.pref.blobId == Some(descId) && stored.pref.blobName == suite.blobName(descId)
      ensures chunk != [] ==> ListedLast(stored, href.info, chunk)
      ensures var issue := Issue(stored, chunk, callback);
        || (chunk == [] && done == old(done) + [issue] && pending == old(pending))
        || (chunk != [] && done == old(done) && pending == old(pending) + [issue])
        || (chunk != [] && done == old(done) + old(pending) && pending == [issue])
    {
      hide Lawful, AllKeyed, Placed, Packed, Chunks, Footer, PendingOk, AllRetrievable, OldNames, Fits, CanEncode;
      if chunk == [] {
        stored := href.(pref := ChunkRef(Some(0), [0], 0, 0, None), info := None);
        ghost var issue := Issue(stored, chunk, callback);
        OneCallback(suite, backend, issue);
        RunCallbacks([callback], [issue]);
        DoneSnoc(suite, backend, done, issue);
        done := done + [issue];
        return;
      }
      var result;
      result, stored := TryStore(chunk, href, callback);
      if result.Full? {
        Flush();
        result, stored := TryStore(chunk, href, callback);
      }
    }

    /** Every reference handed out is answered, and with its chunk, exactly once the blob that holds the
        chunk has gone out. */
    lemma IssuesAnswer()
      requires Valid()
      ensures forall x | x in done :: RetrieveFrom(suite, backend, x.href) == Got(x.chunk)
      ensures forall x | x in pending :: RetrieveFrom(suite, backend, x.href) == Missing
    {
      hide AllKeyed, Placed, Packed, Chunks, Footer, OldNames, Filled;
      FreshName(suite, backend, descId);
    }

    method Retrieve(href: HashRef) returns (r: Fetch)
      ensures r == RetrieveFrom(suite, backend, href)
    {
      if href.pref.offset == 0 && href.pref.length == 0 {
        return Got([]);
      }
      if href.pref.blobName !in backend {
        return Missing;
      }
      var reader := BlobReader.New(suite, backend[href.pref.blobName]);
      if reader == null {
        return Corrupt;
      }
      var text := reader.ReadChunk(href);
      r := if text.None? then Corrupt else Got(text.value);
    }

    /** Where things stand after the first `n` operations. */
    ghost predicate Playing(ops: seq<Op>, first: nat, n: nat, issued: seq<Issue>, sent: seq<Sending>)
      requires n <= |ops|
      reads this, blob, blob.chunks
    {
      && Valid() && multiset(done) + multiset(pending) == multiset(issued)
      && Answered(StoreOps(ops[..n]), issued) && IdsLeft(descId, |ops| - n)
      && descId == first + |sent| && Logged(suite, maxLen, backend, first, ops, n, sent)
    }

    method PlayOne(ops: seq<Op>, i: nat, ghost first: nat, ghost issued: seq<Issue>, ghost sent: seq<Sending>)
      returns (ghost issued': seq<Issue>, ghost sent': seq<Sending>)
      requires i < |ops| && Playing(ops, first, i, issued, sent)
      requires ops[i].StoreOp? && ops[i].chunk != [] ==>
        CanEncode(suite, maxLen, ops[i].href, ops[i].chunk) && Fits(suite, maxLen, ops[i].href, ops[i].chunk)
      modifies this, blob, blob.chunks
      ensures Playing(ops, first, i + 1, issued', sent')
      ensures blob.chunks == old(blob.chunks) || fresh(blob.chunks)
    {
      hide Answered, StoreOps, Fits, CanEncode, NoRoom, SentAs, Logged, Due, Valid;
      ghost var id, b, key, items := descId, backend, blob.accessKey, blob.items;
      NameOfBlob();
      issued' := issued;
      match ops[i] {
        case FlushOp =>
          var none := Issue(HashRef([], 0, FileChunk, ChunkRef(None, [], 0, 0, None), None), [], 0);
          AnsweredSnoc(ops, i, issued, none);
          Flush();
        case StoreOp(chunk, href, callback) =>
          var stored := Store(chunk, href, callback);
          AnsweredSnoc(ops, i, issued, Issue(stored, chunk, callback));
          issued' := issued + [Issue(stored, chunk, callback)];
      }
      if descId != id { IsDue(suite, maxLen, id, ops, Sending(i, key, items)); }
      sent' := LogOne(suite, maxLen, b, backend, first, ops, i, sent, key, items, descId == id);
    }

    lemma NameOfBlob()
      requires Valid()
      ensures descName == suite.blobName(descId)
    {
    }

    lemma DoneFacts()
      requires Valid()
      ensures ran == Callbacks(done) && AllRetrievable(suite, backend, done)
    {
    }

    lemma StartPlaying(ops: seq<Op>)
      requires Valid() && done == [] && pending == [] && IdsLeft(descId, |ops|)
      ensures Playing(ops, descId, 0, [], [])
    {
      hide Valid;
      NothingAnswered(ops);
      NothingLogged(suite, maxLen, backend, descId, ops);
    }

    method PlayEnd(ops: seq<Op>, ghost first: nat, ghost issued: seq<Issue>, ghost sent: seq<Sending>)
      returns (ghost sent': seq<Sending>)
      requires Playing(ops, first, |ops|, issued, sent)
      modifies this, blob, blob.chunks
      ensures Valid() && pending == [] && AllRetrievable(suite, backend, issued)
      ensures multiset(done) == multiset(issued) && ran == Callbacks(done)
      ensures Answered(StoreOps(ops), issued)
      ensures descId == first + |sent'| && Logged(suite, maxLen, backend, first, ops, |ops| + 1, sent')
    {
      hide AllRetrievable, Answered, StoreOps, NoRoom, SentAs, Logged, Due, Callbacks, Valid;
      NameOfBlob();
      assert ops[..|ops|] == ops;
      ghost var id, b, key, items := descId, backend, blob.accessKey, blob.items;
      Flush();
      IsDue(suite, maxLen, id, ops, Sending(|ops|, key, items));
      sent' := LogOne(suite, maxLen, b, backend, first, ops, |ops|, sent, key, items, descId == id);
      DoneFacts();
      IssuedAreDone(suite, backend, done, issued);
    }

    /** Any sequence of stores and flushes, then a last flush: every reference handed out retrieves its
        chunk, and the callbacks that have run are exactly those of the chunks now in storage. Blobs go out
        only when a flush asks for it, or when the next chunk has no room beside what they hold. */
    method Play(ops: seq<Op>) returns (ghost issued: seq<Issue>, ghost sent: seq<Sending>)
      requires Valid() && done == [] && pending == [] && IdsLeft(descId, |ops|)
      requires forall i | 0 <= i < |ops| && ops[i].StoreOp? && ops[i].chunk != [] ::
        CanEncode(suite, maxLen, ops[i].href, ops[i].chunk) && Fits(suite, maxLen, ops[i].href, ops[i].chunk)
      modifies this, blob, blob.chunks
      ensures Valid() && pending == [] && AllRetrievable(suite, backend, issued)
      ensures multiset(done) == multiset(issued) && ran == Callbacks(done)
      ensures Answered(StoreOps(ops), issued)
      ensures descId == old(descId) + |sent| && Logged(suite, maxLen, backend, old(descId), ops, |ops| + 1, sent)
    {
      hide AllRetrievable, Answered, StoreOps, Logged, Valid, Playing;
      issued, sent := [], [];
      StartPlaying(ops);
      for i := 0 to |ops|
        invariant Playing(ops, old(descId), i, issued, sent)
        invariant blob.chunks == old(blob.chunks) || fresh(blob.chunks)
      {
        issued, sent := PlayOne(ops, i, old(descId), issued, sent);
      }
      sent := PlayEnd(ops, old(descId), issued, sent);
    }
  }

  /** Each store, in order, was given its own chunk's reference. */
  predicate Answered(ops: seq<Op>, issued: seq<Issue>) {
    |issued| == |ops| && forall i | 0 <= i < |ops| ::
      && ops[i].StoreOp? && issued[i].chunk == ops[i].chunk && issued[i].callback == ops[i].callback
      && issued[i].href.hash == ops[i].href.hash
  }

  lemma NothingAnswered(ops: seq<Op>)
    ensures Answered(StoreOps(ops[..0]), [])
  {
  }

  lemma AnsweredSnoc(ops: seq<Op>, i: nat, issued: seq<Issue>, next: Issue)
    requires i < |ops| && Answered(StoreOps(ops[..i]), issued)
    requires ops[i].StoreOp? ==>
      next.chunk == ops[i].chunk && next.callback == ops[i].callback && next.href.hash == ops[i].href.hash
    ensures Answered(StoreOps(ops[..i + 1]), if ops[i].StoreOp? then issued + [next] else issued)
  {
    assert ops[..i + 1][..i] == ops[..i];
  }

  function StoreOps(ops: seq<Op>): seq<Op> {
    if ops == [] then []
    else StoreOps(ops[..|ops| - 1]) + (if ops[|ops| - 1].StoreOp? then [ops[|ops| - 1]] else [])
  }

  lemma IssuedAreDone(s: Suite, backend: Backend, done: seq<Issue>, issued: seq<Issue>)
    requires AllRetrievable(s, backend, done) && multiset(done) == multiset(issued)
    ensures AllRetrievable(s, backend, issued)
  {
    forall i | 0 <= i < |issued|
      ensures RetrieveFrom(s, backend, issued[i].href) == Got(issued[i].chunk)
    {
      assert issued[i] in multiset(issued);
      assert issued[i] in multiset(done);
      assert issued[i] in done;
    }
  }

  lemma NamedEncodable(s: Suite, href: HashRef, chunk: Bytes, id: nat, blob: Blob)
    requires blob.suite == s && CanEncode(s, blob.maxLen, href, chunk) && id < MAX_I64
    ensures blob.Encodable(Named(s, href, id), chunk)
  {
  }

  lemma FirstOne(s: Suite, accessKey: Bytes, maxLen: nat, href: HashRef, id: nat, stored: HashRef, chunk: Bytes)
    requires Fits(s, maxLen, href, chunk) && id < MAX_I64 && stored.pref.key.Some?
    requires |stored.pref.key.value| == s.keyBytes
    requires stored == Addressed(Named(s, href, id), stored.pref.key.value, |Chunks(s, accessKey, [])|,
        |chunk| + s.macBytes)
    ensures Accepts(s, maxLen, [], Item(stored, chunk))
    ensures Cost(s, Item(stored, chunk)) + s.Overhead() <= maxLen
  {
    FirstAccepted(s, maxLen, href, id, stored, chunk);
  }

  lemma FirstAccepted(s: Suite, maxLen: nat, href: HashRef, id: nat, stored: HashRef, chunk: Bytes)
    requires Fits(s, maxLen, href, chunk) && id < MAX_I64 && stored.pref.key.Some?
    requires |stored.pref.key.value| == s.keyBytes
    requires stored == FirstRef(s, href, id, stored.pref.key.value, |chunk| + s.macBytes)
    ensures Accepts(s, maxLen, [], Item(stored, chunk))
    ensures Cost(s, Item(stored, chunk)) + s.Overhead() <= maxLen
  {
    assert FitsAs(s, maxLen, href, chunk, id, stored.pref.key.value);
  }
}
