/**
  The recovery walker: a hash-tree walker per directory, nested as deep as the directories are, that
  resumes its child first, then starts the next queued file or directory, then reads more of its own
  listing.
*/
module RecoverWalk {
  import opened Common
  import opened HashTypes
  import opened TreeShape
  import opened HashTree
  import opened TreeWalker
  import opened Directories
  import opened RecoverNodes

  /** What the two visitors have collected. */
  class Visitors {
    var tops: seq<Bytes>
    var fileNodes: seq<Node>
    var dirNodes: seq<Node>

    constructor ()
      ensures Found() == multiset{}
    {
      tops, fileNodes, dirNodes := [], [], [];
    }

    ghost function Found(): multiset<Found>
      reads this
    {
      TopsFound(tops) + NodesFound(fileNodes) + NodesFound(dirNodes)
    }

    method AddFileNodes(nodes: seq<Node>)
      modifies this`fileNodes
      ensures Found() == old(Found()) + NodesFound(nodes)
    {
      NodesFoundAppend(fileNodes, nodes);
      fileNodes := fileNodes + nodes;
    }

    method AddDirNodes(nodes: seq<Node>)
      modifies this`dirNodes
      ensures NodesFound(dirNodes) == old(NodesFound(dirNodes)) + NodesFound(nodes)
    {
      NodesFoundAppend(dirNodes, nodes);
      dirNodes := dirNodes + nodes;
    }
  }

  /** Cost of items that already wait in the queue. */
  function QueuedCost(items: seq<ItemView>): nat {
    if items == [] then 0 else ItemCost(items[0]) - 1 + QueuedCost(items[1..])
  }

  lemma {:induction false} QueuedCostSnoc(items: seq<ItemView>, item: ItemView)
    ensures QueuedCost(items + [item]) == QueuedCost(items) + ItemCost(item) - 1
  {
    if items == [] {
      assert [] + [item] == [item] && [item][1..] == [];
    } else {
      assert (items + [item])[1..] == items[1..] + [item];
      QueuedCostSnoc(items[1..], item);
    }
  }

  /** The queue holds what the records refer to, links left out. */
  ghost predicate QueueOk(st: Store, stack: seq<Content>, queued: seq<ItemView>) {
    && AllResolved(st, queued) && stack == Contents(queued)
    && forall item | item in queued :: !item.LinkView?
  }

  /** What the tree walker of a directory has not read yet. */
  ghost predicate ListingOk(st: Store, todo: seq<Task>, upcoming: seq<ItemView>) {
    AllResolved(st, upcoming) && SparseTasks(todo) && ParseAll(TasksLeaves(todo)) == Contents(upcoming)
  }

  ghost function ListingLeft(st: Store, todo: seq<Task>, upcoming: seq<ItemView>,
                             queued: seq<ItemView>): multiset<Found> {
    NodesFound(TasksNodes(st, todo)) + AllFound(st, upcoming) + InsideAll(st, queued)
  }

  ghost function ListingBudget(todo: seq<Task>, upcoming: seq<ItemView>, queued: seq<ItemView>): nat {
    Work(todo) + ItemsCost(upcoming) + QueuedCost(queued)
  }

  class DirWalker {
    const backend: ChunkStore
    const tree: Walker
    var fileChild: Walker?
    var dirChild: DirWalker?
    var stack: seq<Content>
    var dirLog: History
    var fileLog: History
    ghost var upcoming: seq<ItemView>
    ghost var queued: seq<ItemView>
    /** What is still to be found, and a bound on the work left. */
    ghost var left: multiset<Found>
    ghost var budget: nat
    ghost var Repr: set<object>

    ghost predicate Own()
      reads this, tree, backend
    {
      && backend.Valid() && tree.backend == backend && tree.Valid()
      && ListingOk(backend.rows, tree.todo, upcoming) && QueueOk(backend.rows, stack, queued)
    }

    ghost function OwnLeft(): multiset<Found>
      reads this, tree, backend
    {
      ListingLeft(backend.rows, tree.todo, upcoming, queued)
    }

    ghost function OwnBudget(): nat
      reads this, tree
    {
      ListingBudget(tree.todo, upcoming, queued)
    }

    ghost predicate FileOk()
      reads this, fileChild, backend
    {
      fileChild != null ==> fileChild.backend == backend && fileChild.Valid() && |fileChild.todo| <= 1
    }

    ghost function ChildLeft(): multiset<Found>
      reads this, fileChild, dirChild, backend
    {
      if fileChild != null then NodesFound(TasksNodes(backend.rows, fileChild.todo))
      else if dirChild != null then dirChild.left
      else multiset{}
    }

    ghost function ChildBudget(): nat
      reads this, fileChild, dirChild
    {
      if fileChild != null then Work(fileChild.todo) else if dirChild != null then dirChild.budget else 0
    }

    /** `Valid` except for the bookkeeping of `left` and `budget`. */
    ghost predicate Shape()
      reads this, Repr, backend
      decreases Repr, 0
    {
      && this in Repr && tree in Repr && backend !in Repr && Own()
      && (fileChild != null ==> fileChild in Repr && fileChild != tree && dirChild == null && FileOk())
      && (dirChild != null ==>
            && dirChild in Repr && dirChild.Repr <= Repr && this !in dirChild.Repr && tree !in dirChild.Repr
            && dirChild.backend == backend && dirChild.Valid())
    }

    ghost predicate Valid()
      reads this, Repr, backend
      decreases Repr, 1
    {
      Shape() && left == OwnLeft() + ChildLeft() && budget == OwnBudget() + ChildBudget()
    }

    ghost method Settle()
      requires Shape()
      modifies this`left, this`budget
      ensures Valid() && left == OwnLeft() + ChildLeft() && budget == OwnBudget() + ChildBudget()
    {
      hide ListingOk, QueueOk, AllResolved, TasksOk, SparseTasks, StoreOk, NodesFound, TasksNodes, Work, AllFound;
      hide InsideAll, QueuedCost, ItemsCost, ListingLeft, ListingBudget;
      left, budget := OwnLeft() + ChildLeft(), OwnBudget() + ChildBudget();
    }

    constructor (backend: ChunkStore, dir: HashRef, ghost view: DirView)
      requires backend.Valid() && Resolved(backend.rows, view) && view.href == dir
      ensures Valid() && fresh(Repr) && this.backend == backend
      ensures left == DirFound(backend.rows, view) && budget == DirCost(view)
    {
      hide ListingOk, QueueOk, AllResolved, TasksOk, SparseTasks, StoreOk, NodesFound, TasksNodes, Work, AllFound;
      hide InsideAll, QueuedCost, ItemsCost, ListingLeft, ListingBudget, DirFound, DirCost;
      this.backend := backend;
      tree := new Walker(backend, dir, view.tree);
      fileChild, dirChild := null, null;
      stack, dirLog, fileLog := [], [], [];
      upcoming, queued := view.items, [];
      new;
      Repr := {this, tree};
      Opening(backend.rows, view);
      Settle();
    }

    /** Walk the whole tree of the current file; nothing of it is left afterwards. */
    method ResumeFile(vs: Visitors) returns (busy: bool)
      requires Valid() && vs !in Repr && fileChild != null
      modifies fileChild, this`fileLog, this`left, this`budget, vs`fileNodes
      ensures Valid() && ChildLeft() == multiset{} && ChildBudget() == 0
      ensures vs.Found() + left == old(vs.Found() + left)
      ensures if busy then budget < old(budget) else budget <= old(budget)
    {
      hide ListingOk, QueueOk, AllResolved, TasksOk, SparseTasks, StoreOk, NodesFound, TasksNodes, Work, AllFound;
      hide InsideAll, QueuedCost, ItemsCost;
      ghost var own, f, before := OwnLeft(), vs.Found(), ChildLeft();
      var nodes;
      busy, nodes := RunFile();
      vs.AddFileNodes(nodes);
      Settle();
      MovedOut(f, own, before);
    }

    /** Run the walker of the current file to its end. */
    method RunFile() returns (busy: bool, nodes: seq<Node>)
      requires Shape() && fileChild != null
      modifies fileChild, this`fileLog
      ensures Shape() && fileChild.todo == [] && NodesFound(nodes) == old(ChildLeft())
      ensures forall i | |old(fileLog)| <= i < |fileLog| :: !fileLog[i].LeafLeave?
      ensures ChildLeft() == multiset{} && ChildBudget() == 0 && (busy ==> old(ChildBudget()) > 0)
    {
      hide ListingOk, QueueOk, AllResolved, TasksOk, SparseTasks, StoreOk, Orderly, Answered, Genuine;
      ghost var before := fileChild.todo;
      var log', crashed;
      busy, log', crashed := fileChild.Resume(FileVisitor, fileLog);
      FileLeavesUnread(fileLog, log');
      NeverStops(log');
      FileFacts(backend.rows, before, fileLog, log');
      nodes := LogNodes(log'[|fileLog|..]);
      fileLog := log';
    }

    /** Resume the file or directory being walked, if any. */
    method ResumeChild(vs: Visitors) returns (busy: bool)
      requires Valid() && vs !in Repr
      modifies Repr, vs
      ensures Valid() && fresh(Repr - old(Repr)) && vs !in Repr
      ensures vs.Found() + left == old(vs.Found() + left)
      ensures if busy then budget < old(budget) else ChildLeft() == multiset{} && budget <= old(budget)
      decreases budget, Repr, 1
    {
      if fileChild != null {
        busy := ResumeFile(vs);
      } else if dirChild != null {
        busy := ResumeDir(vs);
      } else {
        busy := false;
      }
    }

    method ResumeDir(vs: Visitors) returns (busy: bool)
      requires Valid() && vs !in Repr && dirChild != null
      modifies Repr, vs
      ensures Valid() && fresh(Repr - old(Repr)) && vs !in Repr
      ensures vs.Found() + left == old(vs.Found() + left)
      ensures if busy then budget < old(budget) else ChildLeft() == multiset{} && budget <= old(budget)
      decreases budget, Repr, 0
    {
      hide ListingOk, QueueOk, AllResolved, TasksOk, SparseTasks, StoreOk, NodesFound, TasksNodes, Work, AllFound;
      hide InsideAll, QueuedCost, ItemsCost, ListingLeft, ListingBudget;
      ghost var own, f, c := OwnLeft(), vs.Found(), dirChild.left;
      busy := dirChild.Resume(vs);
      Repr := Repr + dirChild.Repr;
      Settle();
      Through(own, f, c, vs.Found(), dirChild.left);
      assert left == own + dirChild.left;
    }

    /** Start on the first of the queued files and directories. */
    method NextChild()
      requires Valid() && stack != [] && ChildLeft() == multiset{}
      modifies this
      ensures Valid() && fresh(Repr - old(Repr)) && left == old(left) && budget < old(budget)
    {
      hide ListingOk, QueueOk, AllResolved, TasksOk, SparseTasks, StoreOk, NodesFound, TasksNodes, Work, AllFound;
      hide InsideAll, QueuedCost, ItemsCost, Inside, ItemResolved;
      ghost var st, nodes, unread := backend.rows, NodesFound(TasksNodes(backend.rows, tree.todo)),
        AllFound(backend.rows, upcoming);
      QueueFirst(st, stack, queued);
      ghost var item := queued[0];
      var next := stack[0];
      NextMoves(nodes, unread, Inside(st, item), InsideAll(st, queued[1..]));
      stack, queued := stack[1..], queued[1..];
      if next.Data? {
        StartFile(next.href, item);
      } else {
        StartDir(next.dir, item);
      }
    }

    method StartFile(href: HashRef, ghost item: ItemView)
      requires this in Repr && tree in Repr && backend !in Repr && Own()
      requires ItemContent(item) == Content.Data(href) && ItemResolved(backend.rows, item)
      modifies this`fileLog, this`fileChild, this`dirChild, this`Repr, this`left, this`budget
      ensures Valid() && fresh(Repr - old(Repr))
      ensures left == OwnLeft() + Inside(backend.rows, item) && budget + 2 == OwnBudget() + ItemCost(item)
    {
      hide ListingOk, QueueOk, AllResolved, TasksOk, SparseTasks, StoreOk, NodesFound, TasksNodes, Work, AllFound;
      hide InsideAll, QueuedCost, ItemsCost, ListingLeft, ListingBudget;
      fileLog, dirChild := [], null;
      fileChild := new Walker(backend, href, item.tree);
      Repr := Repr + {fileChild};
      OneTask(backend.rows, href, item.tree);
      Settle();
    }

    method StartDir(href: HashRef, ghost item: ItemView)
      requires this in Repr && tree in Repr && backend !in Repr && Own()
      requires ItemContent(item) == Content.Directory(href) && ItemResolved(backend.rows, item)
      modifies this`fileChild, this`dirChild, this`Repr, this`left, this`budget
      ensures Valid() && fresh(Repr - old(Repr))
      ensures left == OwnLeft() + Inside(backend.rows, item) && budget + 2 == OwnBudget() + ItemCost(item)
    {
      hide ListingOk, QueueOk, AllResolved, TasksOk, SparseTasks, StoreOk, NodesFound, TasksNodes, Work, AllFound;
      hide InsideAll, QueuedCost, ItemsCost, ListingLeft, ListingBudget, Resolved, DirFound, DirCost;
      fileChild := null;
      dirChild := new DirWalker(backend, href, item.dir);
      Repr := Repr + dirChild.Repr;
      Settle();
    }

    /** Read the next leaf of the listing; its files and directories are reported and queued. */
    method ReadListing(vs: Visitors) returns (progress: bool)
      requires this in Repr && tree in Repr && backend !in Repr && Own() && vs !in Repr
      requires stack == [] && fileChild == null && dirChild == null
      modifies this, tree, vs
      ensures Valid() && Repr == old(Repr)
      ensures vs.Found() + left == old(vs.Found() + OwnLeft())
      ensures if progress then budget < old(OwnBudget()) else left == multiset{} && budget <= old(OwnBudget())
    {
      hide ListingOk, QueueOk, AllResolved, TasksOk, SparseTasks, StoreOk, NodesFound, TasksNodes, Work, AllFound;
      hide InsideAll, QueuedCost, ItemsCost;
      hide ListingLeft, ListingBudget, TopsFound, LeafVisitor;
      ghost var st, f, todo, unread := backend.rows, vs.Found(), tree.todo, upcoming;
      ghost var tops, dirs := TopsFound(vs.tops), NodesFound(vs.dirNodes);
      var nodes, files; ghost var taken;
      QueueNothing(st, stack, queued, []);
      progress, nodes, files, taken := ReadTree();
      vs.AddDirNodes(nodes);
      Enqueue(files, vs, taken);
      Settle();
      ReadConserves(st, f, tops, dirs, NodesFound(vs.fileNodes), TopsFound(vs.tops), nodes, todo, unread, tree.todo,
        upcoming, taken, queued);
      ReadBudget(todo, unread, tree.todo, upcoming, taken, queued);
      NothingLeft(st);
    }

    /** Run the tree walker until it has read a leaf, and take what that lists. */
    method ReadTree() returns (progress: bool, nodes: seq<Node>, files: seq<Content>, ghost taken: seq<ItemView>)
      requires Own()
      modifies tree, this`dirLog, this`upcoming
      ensures Own()
      ensures files == Contents(taken) && AllResolved(backend.rows, taken)
      ensures NodesFound(TasksNodes(backend.rows, old(tree.todo))) ==
          NodesFound(nodes) + NodesFound(TasksNodes(backend.rows, tree.todo))
      ensures AllFound(backend.rows, old(upcoming)) == AllFound(backend.rows, taken) + AllFound(backend.rows, upcoming)
      ensures ItemsCost(old(upcoming)) == ItemsCost(taken) + ItemsCost(upcoming)
      ensures if progress then Work(tree.todo) < Work(old(tree.todo))
          else taken == [] && nodes == [] && tree.todo == [] && upcoming == []
    {
      hide QueueOk, AllResolved, TasksOk, StoreOk, NodesFound, TasksNodes, AllFound, ItemsCost;
      ghost var before, st := tree.todo, backend.rows;
      var log', crashed;
      NeverStops(dirLog);
      progress, log', crashed := tree.Resume(LeafVisitor, dirLog);
      nodes, files := LogNodes(log'[|dirLog|..]), ParseAll(LogLeaves(log'[|dirLog|..]));
      taken, upcoming := ReadFacts(st, before, tree.todo, dirLog, log', upcoming);
      dirLog := log';
    }

    /** Report every listed file and directory and queue it; links are dropped. */
    method Enqueue(files: seq<Content>, vs: Visitors, ghost taken: seq<ItemView>)
      requires QueueOk(backend.rows, stack, queued) && stack == [] && AllResolved(backend.rows, taken)
      requires files == Contents(taken)
      modifies this`stack, this`queued, vs`tops
      ensures QueueOk(backend.rows, stack, queued)
      ensures TopsFound(vs.tops) + InsideAll(backend.rows, queued) ==
          old(TopsFound(vs.tops)) + AllFound(backend.rows, taken)
      ensures QueuedCost(queued) <= ItemsCost(taken) && (taken == [] ==> queued == [])
    {
      hide QueueOk, AllResolved, TopsFound, InsideAll, AllFound, Inside, QueuedCost, ItemsCost, ItemCost;
      ghost var st := backend.rows;
      QueueNothing(st, stack, queued, taken);
      NothingAdded(TopsFound(vs.tops), AllFound(st, taken));
      for i := 0 to |files|
        invariant QueueOk(st, stack, queued) && (i == 0 ==> queued == [])
        invariant TopsFound(vs.tops) + InsideAll(st, queued) + AllFound(st, taken[i..]) ==
            old(TopsFound(vs.tops)) + AllFound(st, taken)
        invariant QueuedCost(queued) + ItemsCost(taken[i..]) <= ItemsCost(taken)
      {
        ghost var item := taken[i];
        var file := files[i];
        QueueMore(st, stack, queued, taken, i);
        EnqueueMoves(TopsFound(vs.tops), InsideAll(st, queued), TopOf(item), Inside(st, item),
          AllFound(st, taken[i + 1..]));
        match file
        case Data(href) =>
          TopsFoundSnoc(vs.tops, href.hash);
          vs.tops := vs.tops + [href.hash];
          stack, queued := stack + [file], queued + [item];
        case Directory(href) =>
          TopsFoundSnoc(vs.tops, href.hash);
          vs.tops := vs.tops + [href.hash];
          stack, queued := stack + [file], queued + [item];
        case SymbolicLink(_) =>
      }
      QueueEnd(st, taken);
    }

    /** Do some work; false once there is none left. */
    method Resume(vs: Visitors) returns (progress: bool)
      requires Valid() && vs !in Repr
      modifies Repr, vs
      ensures Valid() && fresh(Repr - old(Repr)) && vs !in Repr
      ensures vs.Found() + left == old(vs.Found() + left)
      ensures if progress then budget < old(budget) else left == multiset{} && budget <= old(budget)
      decreases budget, Repr, 2
    {
      hide ListingOk, QueueOk, AllResolved, TasksOk, SparseTasks, StoreOk, NodesFound, TasksNodes, Work, AllFound;
      hide InsideAll, QueuedCost, ItemsCost, ListingLeft, ListingBudget;
      var busy := ResumeChild(vs);
      if busy {
        return true;
      }
      if stack != [] {
        NextChild();
        progress := Resume(vs);
        return;
      }
      fileChild, dirChild := null, null;
      progress := ReadListing(vs);
    }
  }

  // ---------------------------------------------------------------- moving things without losing any

  lemma MovedOut(f: multiset<Found>, own: multiset<Found>, n: multiset<Found>)
    ensures (f + n) + (own + multiset{}) == f + (own + n)
  {
  }

  lemma Through(own: multiset<Found>, f: multiset<Found>, c: multiset<Found>, f': multiset<Found>, c': multiset<Found>)
    requires f' + c' == f + c
    ensures f' + (own + c') == f + (own + c)
  {
    assert f' + (own + c') == own + (f' + c');
    assert f + (own + c) == own + (f + c);
  }

  lemma NextMoves(nodes: multiset<Found>, unread: multiset<Found>, inside: multiset<Found>, rest: multiset<Found>)
    ensures (nodes + unread + rest) + inside == (nodes + unread + (inside + rest)) + multiset{}
  {
  }

  lemma Reporting(f: multiset<Found>, t0: multiset<Found>, files: multiset<Found>, d0: multiset<Found>,
                  n: multiset<Found>, t1: multiset<Found>, taken: multiset<Found>, inside: multiset<Found>,
                  nodes: multiset<Found>, rest: multiset<Found>)
    requires f == t0 + files + d0 && t1 + inside == t0 + taken
    ensures (t1 + files + (d0 + n)) + ((nodes + rest + inside) + multiset{}) ==
        f + ((n + nodes) + (taken + rest) + multiset{})
  {
    assert (t1 + files + (d0 + n)) + ((nodes + rest + inside) + multiset{}) ==
      (t1 + inside) + (files + d0 + n + nodes + rest);
    assert f + ((n + nodes) + (taken + rest) + multiset{}) == (t0 + taken) + (files + d0 + n + nodes + rest);
  }

  lemma NothingAdded(tops: multiset<Found>, all: multiset<Found>)
    ensures tops + multiset{} + all == tops + all
  {
  }

  lemma EnqueueMoves(tops: multiset<Found>, inside: multiset<Found>, top: multiset<Found>, item: multiset<Found>,
                     rest: multiset<Found>)
    ensures (tops + top) + (inside + item) + rest == tops + inside + (top + item + rest)
    ensures top == multiset{} && item == multiset{} ==> tops + inside + rest == tops + inside + (top + item + rest)
  {
  }

  // ---------------------------------------------------------------- small facts

  lemma Opening(st: Store, view: DirView)
    requires Resolved(st, view)
    ensures ListingOk(st, [Visit(view.href, view.tree)], view.items) && QueueOk(st, [], [])
    ensures ListingLeft(st, [Visit(view.href, view.tree)], view.items, []) == DirFound(st, view)
    ensures ListingBudget([Visit(view.href, view.tree)], view.items, []) == DirCost(view)
  {
    SingleTask(view.href, view.tree);
    OneTask(st, view.href, view.tree);
    forall item | item in view.items
      ensures ItemResolved(st, item)
    {
      var i :| 0 <= i < |view.items| && view.items[i] == item;
    }
  }

  lemma OneTask(st: Store, href: HashRef, t: Tree)
    ensures TasksNodes(st, [Visit(href, t)]) == TreeNodes(st, href, t) && Work([Visit(href, t)]) == Size(t)
  {
  }

  /** What one stretch of reading the listing did. */
  lemma ReadFacts(st: Store, before: seq<Task>, after: seq<Task>, log: History, log': History, upcoming: seq<ItemView>)
    returns (taken: seq<ItemView>, rest: seq<ItemView>)
    requires TasksOk(st, before) && TasksOk(st, after) && log <= log' && ListingOk(st, before, upcoming)
    requires SparseTasks(after)
    requires Rest(st, LeafVisitor, after, log') == Rest(st, LeafVisitor, before, log)
    ensures NodesFound(TasksNodes(st, before)) ==
        NodesFound(LogNodes(log'[|log|..])) + NodesFound(TasksNodes(st, after))
    ensures ParseAll(LogLeaves(log'[|log|..])) == Contents(taken) && AllResolved(st, taken)
    ensures ListingOk(st, after, rest)
    ensures AllFound(st, upcoming) == AllFound(st, taken) + AllFound(st, rest)
    ensures ItemsCost(upcoming) == ItemsCost(taken) + ItemsCost(rest)
    ensures before == [] && after == [] ==> LogNodes(log'[|log|..]) == [] && taken == [] && rest == []
  {
    BothOpen();
    StretchNodes(st, LeafVisitor, before, log, after, log');
    StretchLeaves(st, before, log, after, log');
    NodesFoundAppend(LogNodes(log'[|log|..]), TasksNodes(st, after));
    taken, rest := TakeUpcoming(st, before, after, upcoming, LogLeaves(log'[|log|..]));
  }

  /** A file's tree is walked in one go: all its nodes are in the history. */
  lemma FileFacts(st: Store, before: seq<Task>, log: History, log': History)
    requires TasksOk(st, before) && log <= log' && Rest(st, FileVisitor, [], log') == Rest(st, FileVisitor, before, log)
    ensures TasksNodes(st, before) == LogNodes(log'[|log|..]) && TasksNodes(st, []) == []
    ensures NodesFound([]) == multiset{} && Work([]) == 0
  {
    BothOpen();
    StretchNodes(st, FileVisitor, before, log, [], log');
    assert LogNodes(log'[|log|..]) + [] == LogNodes(log'[|log|..]);
  }

  lemma NothingLeft(st: Store)
    ensures ListingLeft(st, [], [], []) == multiset{}
  {
  }

  lemma ReadConserves(st: Store, f: multiset<Found>, tops: multiset<Found>, dirs: multiset<Found>,
                      files: multiset<Found>,
                      tops': multiset<Found>, nodes: seq<Node>, todo: seq<Task>, unread: seq<ItemView>,
                      todo': seq<Task>, rest: seq<ItemView>, taken: seq<ItemView>, queued: seq<ItemView>)
    requires f == tops + files + dirs && tops' + InsideAll(st, queued) == tops + AllFound(st, taken)
    requires NodesFound(TasksNodes(st, todo)) == NodesFound(nodes) + NodesFound(TasksNodes(st, todo'))
    requires AllFound(st, unread) == AllFound(st, taken) + AllFound(st, rest)
    ensures (tops' + files + (dirs + NodesFound(nodes))) + (ListingLeft(st, todo', rest, queued) + multiset{})
         == f + ListingLeft(st, todo, unread, [])
  {
    hide NodesFound, TasksNodes, AllFound;
    Reporting(f, tops, files, dirs, NodesFound(nodes), tops', AllFound(st, taken), InsideAll(st, queued),
              NodesFound(TasksNodes(st, todo')), AllFound(st, rest));
  }

  lemma ReadBudget(todo: seq<Task>, unread: seq<ItemView>, todo': seq<Task>, rest: seq<ItemView>,
                   taken: seq<ItemView>, queued: seq<ItemView>)
    requires ItemsCost(unread) == ItemsCost(taken) + ItemsCost(rest) && QueuedCost(queued) <= ItemsCost(taken)
    ensures Work(todo') < Work(todo) ==> ListingBudget(todo', rest, queued) < ListingBudget(todo, unread, [])
    ensures ListingBudget([], [], []) == 0
  {
  }

  lemma NeverStops(log: History)
    ensures !Stops(FileVisitor, log) && LeafLike(LeafVisitor)
  {
  }

  lemma QueueFirst(st: Store, stack: seq<Content>, queued: seq<ItemView>)
    requires QueueOk(st, stack, queued) && stack != []
    ensures queued != [] && stack[0] == ItemContent(queued[0]) && !queued[0].LinkView? && ItemResolved(st, queued[0])
    ensures QueueOk(st, stack[1..], queued[1..])
    ensures InsideAll(st, queued) == Inside(st, queued[0]) + InsideAll(st, queued[1..])
    ensures QueuedCost(queued) == ItemCost(queued[0]) - 1 + QueuedCost(queued[1..])
  {
  }

  lemma QueueNothing(st: Store, stack: seq<Content>, queued: seq<ItemView>, taken: seq<ItemView>)
    requires QueueOk(st, stack, queued) && stack == []
    ensures queued == [] && InsideAll(st, queued) == multiset{} && QueuedCost(queued) == 0 && taken[0..] == taken
  {
  }

  lemma QueueEnd(st: Store, taken: seq<ItemView>)
    ensures taken[|taken|..] == [] && AllFound(st, []) == multiset{} && ItemsCost([]) == 0
  {
  }

  lemma QueueMore(st: Store, stack: seq<Content>, queued: seq<ItemView>, taken: seq<ItemView>, i: nat)
    requires QueueOk(st, stack, queued) && AllResolved(st, taken) && i < |taken|
    ensures AllFound(st, taken[i..]) == TopOf(taken[i]) + Inside(st, taken[i]) + AllFound(st, taken[i + 1..])
    ensures ItemsCost(taken[i..]) == ItemCost(taken[i]) + ItemsCost(taken[i + 1..])
    ensures InsideAll(st, queued + [taken[i]]) == InsideAll(st, queued) + Inside(st, taken[i])
    ensures QueuedCost(queued + [taken[i]]) == QueuedCost(queued) + ItemCost(taken[i]) - 1
    ensures taken[i].LinkView? ==> TopOf(taken[i]) == multiset{} && Inside(st, taken[i]) == multiset{}
    ensures !taken[i].LinkView? ==> QueueOk(st, stack + [ItemContent(taken[i])], queued + [taken[i]])
  {
    assert taken[i..][0] == taken[i] && taken[i..][1..] == taken[i + 1..];
    InsideAllSnoc(st, queued, taken[i]);
    QueuedCostSnoc(queued, taken[i]);
    assert taken[i] in taken;
  }

  /** The leaves just read list the first of the upcoming items. */
  lemma TakeUpcoming(st: Store, before: seq<Task>, after: seq<Task>, upcoming: seq<ItemView>, read: seq<Chunk>)
    returns (taken: seq<ItemView>, rest: seq<ItemView>)
    requires ListingOk(st, before, upcoming) && TasksLeaves(before) == read + TasksLeaves(after) && SparseTasks(after)
    ensures upcoming == taken + rest && ParseAll(read) == Contents(taken) && AllResolved(st, taken)
    ensures ListingOk(st, after, rest)
    ensures AllFound(st, upcoming) == AllFound(st, taken) + AllFound(st, rest)
    ensures ItemsCost(upcoming) == ItemsCost(taken) + ItemsCost(rest)
    ensures before == [] ==> upcoming == []
  {
    hide ParseAll, TasksLeaves, SparseTasks, AllFound, ItemsCost, ItemResolved;
    ParseAllAppend(read, TasksLeaves(after));
    taken, rest := SplitContents(upcoming, ParseAll(read), ParseAll(TasksLeaves(after)));
    AllFoundAppend(st, taken, rest);
    ItemsCostAppend(taken, rest);
    if before == [] { NothingUpcoming(st, upcoming); }
  }

  lemma NothingUpcoming(st: Store, upcoming: seq<ItemView>)
    requires ListingOk(st, [], upcoming)
    ensures upcoming == []
  {
  }

  lemma SplitContents(upcoming: seq<ItemView>, a: seq<Content>, b: seq<Content>)
    returns (taken: seq<ItemView>, rest: seq<ItemView>)
    requires Contents(upcoming) == a + b
    ensures upcoming == taken + rest && Contents(taken) == a && Contents(rest) == b
  {
    taken, rest := upcoming[..|a|], upcoming[|a|..];
    assert upcoming == taken + rest;
    assert Contents(upcoming)[..|a|] == Contents(taken) && Contents(upcoming)[|a|..] == Contents(rest);
  }

  method RunToEnd(walk: DirWalker, vs: Visitors)
    requires walk.Valid() && vs !in walk.Repr
    modifies walk.Repr, vs
    ensures vs.Found() == old(vs.Found() + walk.left)
  {
    hide ListingOk, QueueOk, AllResolved, TasksOk, SparseTasks, StoreOk, NodesFound, TasksNodes, Work, AllFound;
    hide InsideAll, QueuedCost, ItemsCost, ListingLeft, ListingBudget;
    var more := true;
    ghost var goal := vs.Found() + walk.left;
    while more
      invariant walk.Valid() && fresh(walk.Repr - old(walk.Repr)) && vs !in walk.Repr
      invariant vs.Found() + walk.left == goal
      invariant !more ==> walk.left == multiset{}
      decreases more, walk.budget
    {
      more := walk.Resume(vs);
    }
    assert vs.Found() + multiset{} == vs.Found();
  }

  /**
    Walk everything below a directory. What is found is exactly what there is: every node of every hash
    tree, and for every file and directory its hash.
  */
  method RecoverAll(backend: ChunkStore, dir: HashRef, ghost view: DirView) returns (vs: Visitors)
    requires backend.Valid() && Resolved(backend.rows, view) && view.href == dir
    ensures vs.Found() == DirFound(backend.rows, view)
    ensures forall hash :: TopFound(hash) in vs.Found() <==> hash in TopSet(view.items)
  {
    hide Resolved, DirFound, DirCost, TopSet, StoreOk, TopsFound, NodesFound;
    vs := new Visitors();
    var walk := new DirWalker(backend, dir, view);
    RunToEnd(walk, vs);
    assert multiset{} + DirFound(backend.rows, view) == DirFound(backend.rows, view);
    forall hash
      ensures TopFound(hash) in vs.Found() <==> hash in TopSet(view.items)
    {
      DirTops(backend.rows, view, hash);
    }
  }
}
