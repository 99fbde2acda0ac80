/** Listing everything a snapshot refers to, with an explicit stack of contents still to be listed. */
module SnapshotLister {
  import opened Common
  import opened HashTypes
  import opened TreeShape
  import opened HashTree
  import opened TreeWalker
  import opened Directories

  // ---------------------------------------------------------------- the recursive listing

  /** A content followed by everything below it. */
  function Preorder(item: ItemView): seq<Content>
    decreases item, 1
  {
    [ItemContent(item)] + (if item.SubView? then PreorderAll(item.dir.items) else [])
  }

  function PreorderAll(items: seq<ItemView>): seq<Content>
    decreases items, 0
  {
    if items == [] then [] else Preorder(items[0]) + PreorderAll(items[1..])
  }

  function HashOf(c: Content): set<Bytes> {
    match c
    case Data(href) => {href.hash}
    case Directory(href) => {href.hash}
    case SymbolicLink(_) => {}
  }

  function HashesOf(cs: seq<Content>): set<Bytes> {
    if cs == [] then {} else HashOf(cs[0]) + HashesOf(cs[1..])
  }

  lemma {:induction false} HashesAppend(a: seq<Content>, b: seq<Content>)
    ensures HashesOf(a + b) == HashesOf(a) + HashesOf(b)
  {
    if a == [] {
      assert a + b == b;
    } else {
      assert (a + b)[1..] == a[1..] + b;
      HashesAppend(a[1..], b);
    }
  }

  lemma {:induction false} PreorderHashes(item: ItemView)
    ensures HashesOf(Preorder(item)) == ItemTops(item)
    decreases item, 1
  {
    var below := if item.SubView? then PreorderAll(item.dir.items) else [];
    HashesAppend([ItemContent(item)], below);
    assert [ItemContent(item)][1..] == [];
    if item.SubView? { PreorderAllHashes(item.dir.items); }
  }

  lemma {:induction false} PreorderAllHashes(items: seq<ItemView>)
    ensures HashesOf(PreorderAll(items)) == TopSet(items)
    decreases items, 0
  {
    if items != [] {
      PreorderHashes(items[0]);
      PreorderAllHashes(items[1..]);
      HashesAppend(Preorder(items[0]), PreorderAll(items[1..]));
    }
  }

  lemma {:induction false} PreorderAllAppend(a: seq<ItemView>, b: seq<ItemView>)
    ensures PreorderAll(a + b) == PreorderAll(a) + PreorderAll(b)
    decreases |a|
  {
    if a == [] {
      assert a + b == b;
    } else {
      assert (a + b)[1..] == a[1..] + b;
      PreorderAllAppend(a[1..], b);
    }
  }

  /** The entries of a directory are listed in order: each right after all that the ones before it list, and
      before what is below it. */
  lemma ListedInOrder(items: seq<ItemView>, i: nat)
    requires i < |items|
    ensures var all, before := PreorderAll(items), PreorderAll(items[..i]);
      |before| < |all| && all[..|before|] == before && all[|before|] == ItemContent(items[i])
  {
    assert items == items[..i] + items[i..];
    PreorderAllAppend(items[..i], items[i..]);
  }

  /** What a stack will still list, top first. */
  function Listing(stack: seq<ItemView>): seq<Content>
    decreases |stack|
  {
    if stack == [] then [] else Preorder(stack[|stack| - 1]) + Listing(stack[..|stack| - 1])
  }

  function Reversed<T>(s: seq<T>): (r: seq<T>)
    ensures |r| == |s| && forall i :: 0 <= i < |r| ==> r[i] == s[|s| - 1 - i]
  {
    seq(|s|, i requires 0 <= i < |s| => s[|s| - 1 - i])
  }

  lemma {:induction false} ListingPushed(stack: seq<ItemView>, items: seq<ItemView>)
    ensures Listing(stack + Reversed(items)) == PreorderAll(items) + Listing(stack)
    decreases |items|
  {
    if items == [] {
      assert stack + Reversed(items) == stack;
    } else {
      var all := stack + Reversed(items);
      assert all[..|all| - 1] == stack + Reversed(items[1..]);
      ListingPushed(stack, items[1..]);
      assert Preorder(items[0]) + (PreorderAll(items[1..]) + Listing(stack)) == PreorderAll(items) + Listing(stack);
    }
  }

  lemma ListingPopped(front: seq<ItemView>, item: ItemView)
    ensures Listing(front + [item]) == Preorder(item) + Listing(front)
    ensures item.SubView? ==>
      Listing(front + [item]) == [ItemContent(item)] + Listing(front + Reversed(item.dir.items))
  {
    assert (front + [item])[..|front|] == front;
    if item.SubView? {
      ListingPushed(front, item.dir.items);
      assert [ItemContent(item)] + (PreorderAll(item.dir.items) + Listing(front)) == Preorder(item) + Listing(front);
    }
  }

  // ---------------------------------------------------------------- the lister

  /** Reading one leaf moves its contents to the front. */
  lemma ReadOne(out: seq<FileRecord>, pending: seq<Chunk>)
    requires pending != []
    ensures out + Listed(pending) == (out + ParseDir(pending[0])) + Listed(pending[1..])
  {
  }

  lemma ReadNothing(out: seq<FileRecord>)
    ensures out + Listed([]) == out == out + [] && ParseDir(EMPTY_CHUNK) == [] && [] + out == out
  {
  }

  method OpenDir(backend: ChunkStore, href: HashRef, ghost view: DirView) returns (leafs: LeafIterator)
    requires backend.Valid() && Resolved(backend.rows, view) && view.href == href
    ensures leafs.Valid() && fresh(leafs) && fresh(leafs.walker) && leafs.walker.backend == backend
    ensures leafs.Pending() == Leaves(view.tree) && ParseAll(leafs.Pending()) == Contents(view.items)
  {
    leafs := new LeafIterator(backend, href, view.tree);
  }

  /** Everything one directory's own listing names, with the ids and names in it. */
  method FetchDirData(backend: ChunkStore, href: HashRef, ghost view: DirView) returns (out: seq<FileRecord>)
    requires backend.Valid() && Resolved(backend.rows, view) && view.href == href
    ensures out == Listed(Leaves(view.tree)) && Records(out) == Contents(view.items)
  {
    hide Resolved, Listed, ParseDir, SparseTasks, TasksOk, TasksLeaves, StoreOk;
    var leafs := OpenDir(backend, href, view);
    out := [];
    ghost var goal := Listed(Leaves(view.tree));
    assert Records(goal) == Contents(view.items);
    ReadNothing(goal);
    while true
      invariant leafs.Valid() && fresh(leafs) && fresh(leafs.walker)
      invariant out + Listed(leafs.Pending()) == goal
      decreases |leafs.Pending()|
    {
      ghost var pending := leafs.Pending();
      var chunk := leafs.Next();
      if chunk.None? {
        ReadNothing(out);
        break;
      }
      ReadOne(out, pending);
      ReadNothing(out);
      if chunk.value != EMPTY_CHUNK {
        out := out + ParseDir(chunk.value);
      }
    }
  }

  lemma PushedItem(before: seq<ItemView>, items: seq<ItemView>, i: nat)
    requires i < |items|
    ensures var item := (before + Reversed(items))[|before| + i]; var c := Contents(items)[|items| - 1 - i];
      c == ItemContent(item) && (c.Directory? <==> item.SubView?)
  {
  }

  class SnapshotLister {
    const backend: ChunkStore
    var queue: seq<(Content, bool)>
    ghost var todo: seq<ItemView>

    ghost predicate Valid()
      reads this, backend
    {
      && backend.Valid() && AllResolved(backend.rows, todo)
      && |queue| == |todo| && forall i | 0 <= i < |queue| :: queue[i] == (ItemContent(todo[i]), todo[i].SubView?)
    }

    constructor (backend: ChunkStore, dir: HashRef, ghost view: DirView)
      requires backend.Valid() && Resolved(backend.rows, view) && view.href == dir
      ensures Valid() && todo == [SubView(view)] && this.backend == backend
    {
      this.backend := backend;
      queue := [(Content.Directory(dir), true)];
      todo := [SubView(view)];
    }

    method Pop() returns (top: (Content, bool), ghost item: ItemView)
      requires Valid() && queue != []
      modifies this
      ensures Valid() && old(todo) == todo + [item] && ItemResolved(backend.rows, item)
      ensures top == (ItemContent(item), item.SubView?)
    {
      var n := |queue| - 1;
      top, item := queue[n], todo[n];
      assert todo == todo[..n] + [item];
      queue, todo := queue[..n], todo[..n];
    }

    /** Put the contents of a directory on the stack, the first one on top. */
    method Fetch(href: HashRef, ghost view: DirView)
      requires Valid() && Resolved(backend.rows, view) && view.href == href
      modifies this
      ensures Valid() && todo == old(todo) + Reversed(view.items)
    {
      hide Resolved, AllResolved, StoreOk;
      var res := FetchDirData(backend, href, view);
      ReversedResolved(backend.rows, todo, view);
      PushReversed(Records(res), view.items);
    }

    method PushReversed(res: seq<Content>, ghost items: seq<ItemView>)
      requires Valid() && res == Contents(items) && AllResolved(backend.rows, todo + Reversed(items))
      modifies this
      ensures Valid() && todo == old(todo) + Reversed(items)
    {
      hide AllResolved, StoreOk;
      ghost var before := todo;
      todo := todo + Reversed(items);
      for i := 0 to |res|
        invariant todo == before + Reversed(items) && |queue| == |before| + i
        invariant forall k | 0 <= k < |queue| :: queue[k] == (ItemContent(todo[k]), todo[k].SubView?)
      {
        var c := res[|res| - 1 - i];
        PushedItem(before, items, i);
        queue := queue + [(c, c.Directory?)];
      }
    }

    /** The next content: directories come before what they contain. */
    method Next() returns (r: Option<Content>)
      requires Valid()
      modifies this
      ensures Valid()
      ensures if old(Listing(todo)) == [] then r == None && todo == [] && old(todo) == []
              else r == Some(old(Listing(todo))[0]) && Listing(todo) == old(Listing(todo))[1..]
    {
      if queue == [] {
        return None;
      }
      var top; ghost var item;
      top, item := Pop();
      ListingPopped(todo, item);
      if top.1 {
        Fetch(top.0.dir, item.dir);
      }
      r := Some(top.0);
    }
  }

  lemma ReversedResolved(st: Store, before: seq<ItemView>, view: DirView)
    requires AllResolved(st, before) && Resolved(st, view)
    ensures AllResolved(st, before + Reversed(view.items))
  {
  }

  /** Run a lister to its end. */
  method ListSnapshot(backend: ChunkStore, dir: HashRef, ghost view: DirView) returns (all: seq<Content>)
    requires backend.Valid() && Resolved(backend.rows, view) && view.href == dir
    ensures all == Preorder(SubView(view))
    ensures HashesOf(all) == {dir.hash} + TopSet(view.items)
  {
    hide Resolved, AllResolved, StoreOk, Preorder, TopSet;
    var lister := new SnapshotLister(backend, dir, view);
    all := [];
    ghost var goal := Preorder(SubView(view));
    StartListing(view);
    while true
      invariant lister.Valid() && fresh(lister) && lister.backend == backend
      invariant all + Listing(lister.todo) == goal
      decreases |Listing(lister.todo)|
    {
      ghost var rest := Listing(lister.todo);
      var next := lister.Next();
      if next.None? {
        break;
      }
      assert all + rest == (all + [next.value]) + rest[1..];
      all := all + [next.value];
    }
    PreorderHashes(SubView(view));
    RootTops(view);
  }

  lemma StartListing(view: DirView)
    ensures Listing([SubView(view)]) == Preorder(SubView(view))
    ensures [] + Preorder(SubView(view)) == Preorder(SubView(view)) && Listing([]) == []
  {
  }

  lemma RootTops(view: DirView)
    ensures ItemTops(SubView(view)) == {view.href.hash} + TopSet(view.items)
  {
  }

  /**
    What a commit tags, and what listing the snapshot yields when it is deregistered: the same hashes,
    for every directory tree.
  */
  method CommitThenList(family: Family, dir: Dir, name: Bytes) returns (final: HashRef, listed: seq<Content>)
    requires family.Ready() && family.tagged == {} && WellNamed(dir) && FilesStored(family.backend.rows, dir)
    modifies family`tagged, family`log, family.backend
    ensures HashesOf(listed) == family.tagged + {final.hash}
  {
    ghost var view;
    final, view := family.HashDir(dir, name);
    listed := ListSnapshot(family.backend, final.ToModel(), view);
  }

  /** The content of a record says what the entry is. */
  predicate RefersTo(c: Content, kind: Kind) {
    match kind
    case File(href) => c == Content.Data(href.ToModel())
    case SubDir(_) => c.Directory?
    case Symlink(path) => c == Content.SymbolicLink(path)
  }

  /** What a commit writes for a directory and what fetching it again yields: its entries, in order, each under
      its own id and name. */
  method CommitThenFetch(family: Family, dir: Dir, name: Bytes) returns (final: HashRef, out: seq<FileRecord>)
    requires family.Ready() && WellNamed(dir) && FilesStored(family.backend.rows, dir)
    modifies family`tagged, family`log, family.backend
    ensures |out| == |dir.entries| && forall i | 0 <= i < |out| ::
      && out[i].id == dir.entries[i].id && out[i].name == dir.entries[i].name
      && RefersTo(out[i].content, dir.entries[i].kind)
  {
    ghost var view;
    final, view := family.HashDir(dir, name);
    out := FetchDirData(family.backend, final.ToModel(), view);
    forall i | 0 <= i < |dir.entries|
      ensures RefersTo(out[i].content, dir.entries[i].kind)
    {
      assert MirrorsEntry(view.items[i], dir.entries[i]);
    }
  }
}
