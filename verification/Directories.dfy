/**
  Directories: written as hash trees of file records by a commit, and listed again from there.

  A `DirView` is a directory as it lies in the store: the tree of its listing and, for every record in
  it, what the record refers to.
*/
module Directories {
  import opened Common
  import opened HashTypes
  import opened TreeShape
  import opened TreeShapeLaws
  import opened TreeHeights
  import opened HashTree
  import opened TreeWalker
  import opened TreeRoundTrip

  datatype Dir = Dir(entries: seq<DirEntry>)

  datatype DirEntry = DirEntry(id: nat, name: Bytes, kind: Kind)

  datatype Kind = File(href: HashRef) | SubDir(dir: Dir) | Symlink(path: Bytes)

  datatype DirView = DirView(href: HashRef, tree: Tree, items: seq<ItemView>)

  datatype ItemView = FileView(href: HashRef, tree: Tree) | SubView(dir: DirView) | LinkView(path: Bytes)

  // ---------------------------------------------------------------- reading records

  /** The records of a batch up to the first one without a name. */
  function Named(files: seq<FileRecord>): seq<FileRecord> {
    if files == [] || files[0].name == [] then [] else [files[0]] + Named(files[1..])
  }

  /** The records listed in one leaf; an empty leaf lists nothing. */
  function ParseDir(c: Chunk): seq<FileRecord> {
    if c.Raw? then [] else Named(c.files)
  }

  /** The records a directory's leaves list, in order. */
  function Listed(chunks: seq<Chunk>): seq<FileRecord> {
    if chunks == [] then [] else ParseDir(chunks[0]) + Listed(chunks[1..])
  }

  function Records(files: seq<FileRecord>): (r: seq<Content>)
    ensures |r| == |files| && forall i :: 0 <= i < |r| ==> r[i] == files[i].content
  {
    seq(|files|, i requires 0 <= i < |files| => files[i].content)
  }

  /** What the records listed refer to. */
  function ParseAll(chunks: seq<Chunk>): seq<Content> {
    Records(Listed(chunks))
  }

  /** Reading a batch gives back all its records exactly when every one of them has a name: reading stops
      at the first record without one. */
  lemma {:induction false} BatchCompleteIff(files: seq<FileRecord>)
    ensures Named(files) == files <==> forall f | f in files :: f.name != []
  {
    if files != [] {
      BatchCompleteIff(files[1..]);
      if files[0].name != [] {
        assert Named(files)[1..] == Named(files[1..]);
        forall f | f in files && f !in files[1..]
          ensures f == files[0]
        {
        }
      }
    }
  }

  lemma {:induction false} ListedAppend(a: seq<Chunk>, b: seq<Chunk>)
    ensures Listed(a + b) == Listed(a) + Listed(b)
  {
    if a == [] {
      assert a + b == b;
    } else {
      assert (a + b)[1..] == a[1..] + b;
      ListedAppend(a[1..], b);
    }
  }

  lemma ParseAllAppend(a: seq<Chunk>, b: seq<Chunk>)
    ensures ParseAll(a + b) == ParseAll(a) + ParseAll(b)
  {
    ListedAppend(a, b);
  }

  lemma ListedSnoc(a: seq<Chunk>, c: Chunk)
    ensures Listed(a + [c]) == Listed(a) + ParseDir(c)
  {
    ListedAppend(a, [c]);
    assert Listed([c]) == ParseDir(c) + Listed([c][1..]);
  }

  // ---------------------------------------------------------------- directories in the store

  function ItemContent(item: ItemView): Content {
    match item
    case FileView(href, _) => Content.Data(href)
    case SubView(dir) => Content.Directory(dir.href)
    case LinkView(path) => Content.SymbolicLink(path)
  }

  function Contents(items: seq<ItemView>): (r: seq<Content>)
    ensures |r| == |items| && forall i :: 0 <= i < |r| ==> r[i] == ItemContent(items[i])
  {
    seq(|items|, i requires 0 <= i < |items| => ItemContent(items[i]))
  }

  ghost predicate Readable(st: Store, href: HashRef, t: Tree) {
    Represents(st, href, t) && WellFormed(t) && forall x: nat :: Leafless(t, x) <= 1
  }

  ghost predicate Resolved(st: Store, v: DirView)
    decreases v, 0
  {
    Readable(st, v.href, v.tree) && ParseAll(Leaves(v.tree)) == Contents(v.items)
    && forall i | 0 <= i < |v.items| :: ItemResolved(st, v.items[i])
  }

  ghost predicate ItemResolved(st: Store, item: ItemView)
    decreases item, 1
  {
    match item
    case FileView(href, t) => Readable(st, href, t)
    case SubView(dir) => Resolved(st, dir)
    case LinkView(_) => true
  }

  ghost predicate AllResolved(st: Store, items: seq<ItemView>) {
    forall item | item in items :: ItemResolved(st, item)
  }

  lemma {:induction false} ResolvedMonotone(st: Store, st': Store, v: DirView)
    requires Extends(st, st') && Resolved(st, v)
    ensures Resolved(st', v)
    decreases v, 0
  {
    RepresentsMonotone(st, st', v.href, v.tree);
    forall i | 0 <= i < |v.items|
      ensures ItemResolved(st', v.items[i])
    {
      ItemMonotone(st, st', v.items[i]);
    }
  }

  lemma {:induction false} ItemMonotone(st: Store, st': Store, item: ItemView)
    requires Extends(st, st') && ItemResolved(st, item)
    ensures ItemResolved(st', item)
    decreases item, 1
  {
    match item
    case FileView(href, t) => RepresentsMonotone(st, st', href, t);
    case SubView(dir) => ResolvedMonotone(st, st', dir);
    case LinkView(_) =>
  }

  lemma AllMonotone(st: Store, st': Store, items: seq<ItemView>)
    requires Extends(st, st') && AllResolved(st, items)
    ensures AllResolved(st', items)
  {
    forall item | item in items
      ensures ItemResolved(st', item)
    {
      ItemMonotone(st, st', item);
    }
  }

  // ---------------------------------------------------------------- the hashes below a directory

  /** The hashes of all files and directories below, at any depth. */
  function TopSet(items: seq<ItemView>): set<Bytes>
    decreases items
  {
    if items == [] then {} else ItemTops(items[0]) + TopSet(items[1..])
  }

  function ItemTops(item: ItemView): set<Bytes>
    decreases item
  {
    match item
    case FileView(href, _) => {href.hash}
    case SubView(dir) => {dir.href.hash} + TopSet(dir.items)
    case LinkView(_) => {}
  }

  lemma {:induction false} TopSetAppend(a: seq<ItemView>, b: seq<ItemView>)
    ensures TopSet(a + b) == TopSet(a) + TopSet(b)
    decreases |a|
  {
    if a == [] {
      assert a + b == b;
    } else {
      assert (a + b)[1..] == a[1..] + b;
      TopSetAppend(a[1..], b);
    }
  }

  lemma TopSetSnoc(a: seq<ItemView>, item: ItemView)
    ensures TopSet(a + [item]) == TopSet(a) + ItemTops(item)
  {
    TopSetAppend(a, [item]);
    assert [item][1..] == [];
  }

  // ---------------------------------------------------------------- committing

  /** Every record will have a name. */
  predicate WellNamed(dir: Dir)
    decreases dir
  {
    forall i | 0 <= i < |dir.entries| :: dir.entries[i].name != [] && EntryNamed(dir.entries[i])
  }

  predicate EntryNamed(e: DirEntry)
    decreases e
  {
    e.kind.SubDir? ==> WellNamed(e.kind.dir)
  }

  /** All files of the directory have been stored. */
  ghost predicate FilesStored(st: Store, dir: Dir)
    decreases dir
  {
    forall i | 0 <= i < |dir.entries| :: EntryStored(st, dir.entries[i])
  }

  ghost predicate EntryStored(st: Store, e: DirEntry)
    decreases e
  {
    match e.kind
    case File(href) => exists t :: Readable(st, href.ToModel(), t)
    case SubDir(sub) => FilesStored(st, sub)
    case Symlink(_) => true
  }

  lemma {:induction false} FilesMonotone(st: Store, st': Store, dir: Dir)
    requires Extends(st, st') && FilesStored(st, dir)
    ensures FilesStored(st', dir)
    decreases dir
  {
    forall i | 0 <= i < |dir.entries|
      ensures EntryStored(st', dir.entries[i])
    {
      assert EntryStored(st, dir.entries[i]);
      match dir.entries[i].kind
      case File(href) =>
        var t :| Readable(st, href.ToModel(), t);
        RepresentsMonotone(st, st', href.ToModel(), t);
        assert Readable(st', href.ToModel(), t);
      case SubDir(sub) => FilesMonotone(st, st', sub);
      case Symlink(_) =>
    }
  }

  /** The listing stored has, at every depth, one record for each entry of the directory, in order: with its
      id, its name, and a content that refers to what the entry is. */
  predicate Mirrors(v: DirView, dir: Dir)
    decreases dir
  {
    var records := Listed(Leaves(v.tree));
    && |records| == |v.items| == |dir.entries|
    && forall i | 0 <= i < |dir.entries| ::
         && records[i].id == dir.entries[i].id && records[i].name == dir.entries[i].name
         && records[i].content == ItemContent(v.items[i]) && MirrorsEntry(v.items[i], dir.entries[i])
  }

  predicate MirrorsEntry(item: ItemView, e: DirEntry)
    decreases e
  {
    match e.kind
    case File(href) => item.FileView? && item.href == href.ToModel()
    case SubDir(sub) => item.SubView? && Mirrors(item.dir, sub)
    case Symlink(path) => item == LinkView(path)
  }

  const FILES_AT_A_TIME: nat := 1024

  predicate AllNamed(files: seq<FileRecord>) {
    forall f | f in files :: f.name != []
  }

  /** Leaves of 1024 records each, but for the last one, which may hold fewer but not none. */
  predicate Batched(chunks: seq<Chunk>) {
    forall i | 0 <= i < |chunks| ::
      && chunks[i].Files? && 1 <= |chunks[i].files| <= FILES_AT_A_TIME
      && (i < |chunks| - 1 ==> |chunks[i].files| == FILES_AT_A_TIME)
  }

  predicate LastFull(chunks: seq<Chunk>) {
    chunks != [] ==> chunks[|chunks| - 1].Files? && |chunks[|chunks| - 1].files| == FILES_AT_A_TIME
  }

  lemma NoBatches()
    ensures Batched([]) && LastFull([])
  {
  }

  lemma BatchedSnoc(chunks: seq<Chunk>, files: seq<FileRecord>)
    requires Batched(chunks) && LastFull(chunks) && 1 <= |files| <= FILES_AT_A_TIME
    ensures Batched(chunks + [Files(files)])
    ensures |files| == FILES_AT_A_TIME ==> LastFull(chunks + [Files(files)])
  {
  }

  /** The records for the first `n` entries, and what they refer to. */
  predicate Written(records: seq<FileRecord>, items: seq<ItemView>, dir: Dir, n: nat)
    requires n <= |dir.entries|
  {
    && |records| == |items| == n
    && forall i | 0 <= i < n :: RecordsEntry(records[i], items[i], dir.entries[i])
  }

  predicate RecordsEntry(record: FileRecord, item: ItemView, e: DirEntry) {
    record.id == e.id && record.name == e.name && record.content == ItemContent(item) && MirrorsEntry(item, e)
  }

  /** How far writing a directory got: `items` are on their way, those in `files` not yet in the tree. */
  ghost predicate Underway(st: Store, order: nat, forest: seq<seq<Tree>>, chunks: seq<Chunk>, files: seq<FileRecord>,
                           items: seq<ItemView>, dir: Dir, n: nat) {
    && order >= 2 && forest == AppendAll(order, [], chunks)
    && AllNamed(files) && AllResolved(st, items)
    && n <= |dir.entries| && Written(Listed(chunks) + files, items, dir, n)
  }

  lemma AddRecord(st: Store, order: nat, forest: seq<seq<Tree>>, chunks: seq<Chunk>, files: seq<FileRecord>,
                  items: seq<ItemView>, dir: Dir, n: nat, record: FileRecord, item: ItemView)
    requires Underway(st, order, forest, chunks, files, items, dir, n) && n < |dir.entries|
    requires record.name != [] && ItemResolved(st, item) && RecordsEntry(record, item, dir.entries[n])
    ensures Underway(st, order, forest, chunks, files + [record], items + [item], dir, n + 1)
  {
    hide ItemResolved, RecordsEntry, Listed, AppendAll;
    assert Listed(chunks) + (files + [record]) == (Listed(chunks) + files) + [record];
  }

  lemma AddBatch(st: Store, order: nat, forest: seq<seq<Tree>>, chunks: seq<Chunk>, files: seq<FileRecord>,
                 items: seq<ItemView>, dir: Dir, n: nat)
    requires Underway(st, order, forest, chunks, files, items, dir, n)
    ensures Underway(st, order, Push(order, 0, forest, Leaf(Files(files))), chunks + [Files(files)], [], items, dir, n)
  {
    AppendAllSnoc(order, [], chunks, Files(files));
    ListedSnoc(chunks, Files(files));
    BatchCompleteIff(files);
    assert Listed(chunks + [Files(files)]) + [] == Listed(chunks) + files;
  }

  lemma UnderwayMonotone(st: Store, st': Store, order: nat, forest: seq<seq<Tree>>, chunks: seq<Chunk>,
                         files: seq<FileRecord>, items: seq<ItemView>, dir: Dir, n: nat)
    requires Underway(st, order, forest, chunks, files, items, dir, n) && Extends(st, st')
    ensures Underway(st', order, forest, chunks, files, items, dir, n)
  {
    AllMonotone(st, st', items);
  }

  /** The view of a finished listing. */
  lemma Finished(st: Store, order: nat, forest: seq<seq<Tree>>, chunks: seq<Chunk>, items: seq<ItemView>, dir: Dir,
                 href: HashRef)
    requires Underway(st, order, forest, chunks, [], items, dir, |dir.entries|)
    requires Represents(st, href, Built(order, StoredChunks(chunks), true))
    ensures var v := DirView(href.ToModel(), Built(order, StoredChunks(chunks), true), items);
      Resolved(st, v) && Mirrors(v, dir)
  {
    var full := StoredChunks(chunks);
    var t := Built(order, full, true);
    BuiltHeight(order, full, true);
    forall x: nat
      ensures Leafless(t, x) <= 1
    {
      BuiltLeafless(order, full, true, x);
    }
    ModelRepresents(st, href, t);
    EmptyLists(chunks);
    assert Listed(chunks) + [] == Listed(chunks);
    assert Records(Listed(chunks)) == Contents(items);
    forall i | 0 <= i < |items|
      ensures ItemResolved(st, items[i])
    {
      assert items[i] in items;
    }
  }

  lemma EmptyLists(chunks: seq<Chunk>)
    ensures Listed(StoredChunks(chunks)) == Listed(chunks)
  {
  }

  lemma ModelRepresents(st: Store, href: HashRef, t: Tree)
    requires Represents(st, href, t)
    ensures Represents(st, href.ToModel(), t)
  {
  }

  lemma WriterStays(st: Store, st': Store, tree: SimpleHashTreeWriter)
    requires Extends(st, st') && tree.backend.rows == st' && tree.backend.Valid() && Injective(tree.backend.fp)
    requires tree.order >= 2 && LevelsOk(st, tree.leaf, tree.levels, tree.forest) && Levelled(0, tree.forest)
    requires forall i | 0 <= i < |tree.forest| :: |tree.forest[i]| < tree.order
    requires tree.forest != [] ==> TreeShapeLaws.Usable(tree.forest)
    ensures tree.Valid()
  {
    LevelsMonotone(st, st', tree.leaf, tree.levels, tree.forest);
  }

  /** History: the rows in the store when a hash was reported, or at the start. */
  datatype Shot = Shot(st: Store, hash: Option<Bytes>)

  /** The store only grew from shot to shot and up to `st`, all shots but the first report a hash, every
      reported hash had its row, and `tagged` are the hashes reported. */
  ghost predicate LogOk(log: seq<Shot>, tagged: set<Bytes>, st: Store) {
    && (forall i | 0 <= i < |log| :: ShotOk(log[i]) && Extends(log[i].st, st))
    && (forall i, j | 0 <= i < j < |log| :: Extends(log[i].st, log[j].st))
    && (forall i | 1 <= i < |log| :: log[i].hash.Some?)
    && (forall h :: h in tagged <==> exists i :: 0 <= i < |log| && log[i].hash == Some(h))
  }

  ghost predicate ShotOk(shot: Shot) {
    SelfContained(shot.st) && (shot.hash.Some? ==> shot.hash.value in shot.st)
  }

  lemma LogMonotone(log: seq<Shot>, tagged: set<Bytes>, st: Store, st': Store)
    requires LogOk(log, tagged, st) && Extends(st, st')
    ensures LogOk(log, tagged, st')
  {
    hide ShotOk;
  }

  lemma LogSnoc(log: seq<Shot>, tagged: set<Bytes>, st: Store, hash: Bytes)
    requires LogOk(log, tagged, st) && SelfContained(st) && hash in st
    ensures LogOk(log + [Shot(st, Some(hash))], tagged + {hash}, st)
  {
    hide SelfContained;
    var log' := log + [Shot(st, Some(hash))];
    forall h
      ensures h in tagged + {hash} <==> exists i :: 0 <= i < |log'| && log'[i].hash == Some(h)
    {
      if h in tagged {
        var i :| 0 <= i < |log| && log[i].hash == Some(h);
        assert log'[i].hash == Some(h);
      }
      assert log'[|log|].hash == Some(hash);
    }
  }

  lemma LogStart(st: Store)
    requires SelfContained(st)
    ensures LogOk([Shot(st, None)], {}, st) && LogOk([], {}, st)
  {
  }

  class Family {
    const backend: ChunkStore
    const order: nat
    /** The hashes reported for tagging. */
    var tagged: set<Bytes>
    ghost var log: seq<Shot>

    constructor (backend: ChunkStore, order: nat)
      ensures this.backend == backend && this.order == order && tagged == {} && log == []
    {
      this.backend, this.order, tagged, log := backend, order, {}, [];
    }

    ghost predicate Ready()
      reads this, backend
    {
      order >= 2 && backend.Valid() && Injective(backend.fp) && LogOk(log, tagged, backend.rows)
    }

    /** Start reporting anew. */
    method Begin()
      requires Ready()
      modifies this`tagged, this`log
      ensures Ready() && tagged == {} && log == [Shot(backend.rows, None)]
    {
      tagged, log := {}, [Shot(backend.rows, None)];
      StoreSelfContained(backend.fp, backend.rows, backend.nextId);
      LogStart(backend.rows);
    }

    /** Report a hash the listing of the snapshot will name. */
    method Report(hash: Bytes)
      requires Ready() && hash in backend.rows
      modifies this`tagged, this`log
      ensures Ready() && tagged == old(tagged) + {hash} && log == old(log) + [Shot(backend.rows, Some(hash))]
    {
      hide LogOk, Injective, SelfContained;
      StoreSelfContained(backend.fp, backend.rows, backend.nextId);
      LogSnoc(log, tagged, backend.rows, hash);
      tagged := tagged + {hash};
      log := log + [Shot(backend.rows, Some(hash))];
    }

    ghost predicate Writing(tree: SimpleHashTreeWriter)
      reads this, tree, tree.backend
    {
      tree.Valid() && tree.backend == backend && tree.order == order
    }

    /** Write one entry's own data, if it is a directory, and report the hash it will be listed with. */
    method CommitEntry(e: DirEntry) returns (content: Content, ghost item: ItemView)
      requires Ready() && EntryStored(backend.rows, e) && EntryNamed(e)
      modifies this`tagged, this`log, backend
      ensures Ready() && Extends(old(backend.rows), backend.rows)
      ensures ItemResolved(backend.rows, item) && MirrorsEntry(item, e) && content == ItemContent(item)
      ensures tagged == old(tagged) + ItemTops(item) && old(log) <= log
      decreases e, 3
    {
      hide LogOk, Injective, Extends;
      ExtendsSelf(backend.rows);
      match e.kind
      case File(href) =>
        ghost var t :| Readable(backend.rows, href.ToModel(), t);
        Report(href.hash);
        content := Content.Data(href.ToModel());
        item := FileView(href.ToModel(), t);
      case SubDir(sub) =>
        var href; ghost var view;
        href, view := HashDir(sub, e.name);
        Report(href.hash);
        content := Content.Directory(href.ToModel());
        item := SubView(view);
      case Symlink(path) =>
        content := Content.SymbolicLink(path);
        item := LinkView(path);
    }

    /** The listing of `dir` as a hash tree of its own. */
    method HashDir(dir: Dir, info: Bytes) returns (href: HashRef, ghost view: DirView)
      requires Ready() && WellNamed(dir) && FilesStored(backend.rows, dir)
      modifies this`tagged, this`log, backend
      ensures Ready() && Extends(old(backend.rows), backend.rows)
      ensures Resolved(backend.rows, view) && Mirrors(view, dir) && view.href == href.ToModel()
      ensures href.leaf == TreeList
      ensures tagged == old(tagged) + TopSet(view.items) && old(log) <= log
      decreases dir, 2
    {
      hide Underway, WellNamed, FilesStored, TopSet, Injective, Extends, Resolved, Mirrors, LogOk;
      var tree := new SimpleHashTreeWriter(TreeList, order, backend);
      ghost var chunks, items;
      chunks, items := CommitToTree(tree, dir);
      ghost var st := backend.rows;
      href, view := FinishDir(tree, dir, info, chunks, items);
      ExtendsTransitive(old(backend.rows), st, backend.rows);
    }

    method FinishDir(tree: SimpleHashTreeWriter, ghost dir: Dir, info: Bytes, ghost chunks: seq<Chunk>,
                     ghost items: seq<ItemView>)
      returns (href: HashRef, ghost view: DirView)
      requires Ready() && Writing(tree)
      requires Underway(backend.rows, order, tree.forest, chunks, [], items, dir, |dir.entries|)
      modifies tree, backend
      ensures Ready() && Extends(old(backend.rows), backend.rows)
      ensures Resolved(backend.rows, view) && Mirrors(view, dir) && view.href == href.ToModel() && view.items == items
      ensures href.leaf == tree.leaf
    {
      hide Underway, Injective, Extends, Resolved, Mirrors, Represents, LogOk;
      ghost var st, forest := backend.rows, tree.forest;
      UnderwayForest(st, order, forest, chunks, items, dir);
      href := FinishTree(tree, chunks, Some(info));
      LogMonotone(log, tagged, st, backend.rows);
      UnderwayMonotone(st, backend.rows, order, forest, chunks, [], items, dir, |dir.entries|);
      Finished(backend.rows, order, forest, chunks, items, dir, href);
      view := DirView(href.ToModel(), Built(order, StoredChunks(chunks), true), items);
    }

    /** The records of the next entries, at most a batch of them. */
    method FillBatch(dir: Dir, start: nat, ghost forest: seq<seq<Tree>>, ghost chunks: seq<Chunk>,
                     ghost before: seq<ItemView>,
                     ghost base: set<Bytes>)
      returns (files: seq<FileRecord>, next: nat, ghost items: seq<ItemView>)
      requires Ready() && WellNamed(dir) && FilesStored(backend.rows, dir)
      requires Underway(backend.rows, order, forest, chunks, [], before, dir, start) && tagged == base + TopSet(before)
      modifies this`tagged, this`log, backend
      ensures Ready() && Extends(old(backend.rows), backend.rows)
      ensures Underway(backend.rows, order, forest, chunks, files, items, dir, next)
      ensures |files| <= FILES_AT_A_TIME && next == start + |files| <= |dir.entries|
      ensures |files| < FILES_AT_A_TIME ==> next == |dir.entries|
      ensures tagged == base + TopSet(items) && old(log) <= log
      decreases dir, 0
    {
      hide LogOk, Injective;
      files, next, items := [], start, before;
      ghost var st := backend.rows;
      while |files| < FILES_AT_A_TIME && next < |dir.entries|
        invariant Ready() && Extends(st, backend.rows)
        invariant Underway(backend.rows, order, forest, chunks, files, items, dir, next)
        invariant |files| <= FILES_AT_A_TIME && next == start + |files|
        invariant tagged == base + TopSet(items) && old(log) <= log
        decreases |dir.entries| - next
      {
        ghost var mid := backend.rows;
        EntryReady(st, mid, dir, next);
        var content; ghost var item;
        content, item := CommitEntry(dir.entries[next]);
        ExtendsTransitive(st, mid, backend.rows);
        UnderwayMonotone(mid, backend.rows, order, forest, chunks, files, items, dir, next);
        var record := FileRecord(dir.entries[next].id, dir.entries[next].name, content);
        AddRecord(backend.rows, order, forest, chunks, files, items, dir, next, record, item);
        TopSetSnoc(items, item);
        files, items, next := files + [record], items + [item], next + 1;
      }
    }

    /** Write the listing of `dir`, in batches of 1024 records; `items` is what it then lists. */
    method CommitToTree(tree: SimpleHashTreeWriter, dir: Dir)
      returns (ghost chunks: seq<Chunk>, ghost items: seq<ItemView>)
      requires Ready() && Writing(tree) && tree.forest == [] && WellNamed(dir) && FilesStored(backend.rows, dir)
      modifies this`tagged, this`log, tree, backend
      ensures Ready() && Writing(tree) && Extends(old(backend.rows), backend.rows)
      ensures Underway(backend.rows, order, tree.forest, chunks, [], items, dir, |dir.entries|)
      ensures Batched(chunks) && tagged == old(tagged) + TopSet(items) && old(log) <= log
      decreases dir, 1
    {
      hide Underway, WellNamed, FilesStored, TopSet, Injective, Extends, Batched, LastFull, LogOk;
      chunks, items := [], [];
      var i := 0;
      ghost var st := backend.rows;
      StartUnderway(st, order, dir);
      NoBatches();
      while true
        invariant Ready() && Writing(tree) && Extends(st, backend.rows)
        invariant Underway(backend.rows, order, tree.forest, chunks, [], items, dir, i) && i <= |dir.entries|
        invariant tagged == old(tagged) + TopSet(items) && old(log) <= log
        invariant Batched(chunks) && (i < |dir.entries| ==> LastFull(chunks))
        decreases |dir.entries| - i
      {
        ghost var mid := backend.rows;
        FilesMonotone(st, mid, dir);
        var files;
        files, i, items := FillBatch(dir, i, tree.forest, chunks, items, old(tagged));
        ExtendsTransitive(st, mid, backend.rows);
        WriterStays(mid, backend.rows, tree);
        if files == [] {
          break;
        }
        mid := backend.rows;
        AppendBatch(tree, files, chunks, items, dir, i);
        ExtendsTransitive(st, mid, backend.rows);
        BatchedSnoc(chunks, files);
        chunks := chunks + [Files(files)];
      }
    }

    method AppendBatch(tree: SimpleHashTreeWriter, files: seq<FileRecord>, ghost chunks: seq<Chunk>,
                       ghost items: seq<ItemView>,
                       ghost dir: Dir, ghost n: nat)
      requires Ready() && Writing(tree) && Underway(backend.rows, order, tree.forest, chunks, files, items, dir, n)
      modifies tree, backend
      ensures Ready() && Writing(tree) && Extends(old(backend.rows), backend.rows)
      ensures Underway(backend.rows, order, tree.forest, chunks + [Files(files)], [], items, dir, n)
    {
      hide Underway, Injective, Extends, LogOk;
      ghost var st := backend.rows;
      AddBatch(st, order, tree.forest, chunks, files, items, dir, n);
      tree.Append(Files(files));
      LogMonotone(log, tagged, st, backend.rows);
      UnderwayMonotone(st, backend.rows, order, tree.forest, chunks + [Files(files)], [], items, dir, n);
    }
  }

  lemma EntryReady(st: Store, st': Store, dir: Dir, n: nat)
    requires Extends(st, st') && FilesStored(st, dir) && WellNamed(dir) && n < |dir.entries|
    ensures EntryStored(st', dir.entries[n]) && EntryNamed(dir.entries[n]) && dir.entries[n].name != []
  {
    FilesMonotone(st, st', dir);
  }

  lemma UnderwayForest(st: Store, order: nat, forest: seq<seq<Tree>>, chunks: seq<Chunk>, items: seq<ItemView>,
                       dir: Dir)
    requires Underway(st, order, forest, chunks, [], items, dir, |dir.entries|)
    ensures order >= 2 && forest == AppendAll(order, [], chunks)
  {
  }

  lemma StartUnderway(st: Store, order: nat, dir: Dir)
    requires order >= 2
    ensures Underway(st, order, [], [], [], [], dir, 0) && Extends(st, st) && TopSet([]) == {}
  {
  }
}
