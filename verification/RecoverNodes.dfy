/**
  What a recovery has to find: every node of every hash tree below a directory, and the hashes of all
  files and directories. Counted as a multiset, so that finding can be shown to lose and invent nothing.
*/
module RecoverNodes {
  import opened Common
  import opened HashTypes
  import opened TreeShape
  import opened HashTree
  import opened TreeWalker
  import opened Directories

  /** A tree node as recovery records it: its reference and, for a branch, those of its children. */
  datatype Node = Node(href: HashRef, childs: Option<seq<HashRef>>)

  datatype Found = NodeFound(node: Node) | TopFound(hash: Bytes)

  /** Replies of the visitor of file trees: open every branch, do not read leaves, never stop. */
  predicate FileVisitor(log: History) {
    log != [] && log[|log| - 1].BranchEnter?
  }

  ghost predicate Opens(v: Visitor) {
    forall log: History, href, refs :: v(log + [BranchEnter(href, refs)])
  }

  lemma BothOpen()
    ensures Opens(LeafVisitor) && Opens(FileVisitor)
  {
  }

  /** No leaf of a file is ever read: the callback that would be shown its data is never called. */
  lemma FileLeavesUnread(log: History, log': History)
    requires Answered(FileVisitor, log, log')
    ensures forall i | |log| <= i < |log'| :: !log'[i].LeafLeave?
  {
    forall i | |log| <= i < |log'|
      ensures !log'[i].LeafLeave?
    {
      assert AnsweredAt(FileVisitor, |log|, log', i);
    }
  }

  // ---------------------------------------------------------------- the nodes of a tree

  function EventNodes(e: Event): seq<Node> {
    match e
    case BranchEnter(href, childs) => [Node(href, Some(childs))]
    case LeafEnter(href) => [Node(href, None)]
    case _ => []
  }

  function LogNodes(log: History): seq<Node> {
    if log == [] then [] else LogNodes(log[..|log| - 1]) + EventNodes(log[|log| - 1])
  }

  lemma LogNodesSnoc(log: History, e: Event)
    ensures LogNodes(log + [e]) == LogNodes(log) + EventNodes(e)
  {
  }

  lemma {:induction false} LogNodesAppend(a: History, b: History)
    ensures LogNodes(a + b) == LogNodes(a) + LogNodes(b)
  {
    if b == [] {
      assert a + b == a;
    } else {
      assert (a + b)[..|a + b| - 1] == a + b[..|b| - 1];
      LogNodesAppend(a, b[..|b| - 1]);
    }
  }

  function RefsOf(st: Store, href: HashRef): seq<HashRef> {
    if href.hash in st && st[href.hash].data.Refs? then st[href.hash].data.refs else []
  }

  /** The node of `href` and all nodes below it, parents first. */
  function TreeNodes(st: Store, href: HashRef, t: Tree): seq<Node>
    decreases t, 1
  {
    match t
    case Leaf(_) => [Node(href, None)]
    case Branch(_, kids) => [Node(href, Some(RefsOf(st, href)))] + AllTreeNodes(st, RefsOf(st, href), kids)
  }

  function AllTreeNodes(st: Store, refs: seq<HashRef>, ts: seq<Tree>): seq<Node>
    decreases ts, 0
  {
    if ts == [] || refs == [] then [] else TreeNodes(st, refs[0], ts[0]) + AllTreeNodes(st, refs[1..], ts[1..])
  }

  lemma OpensAt(v: Visitor, log: History, href: HashRef, refs: seq<HashRef>)
    requires Opens(v)
    ensures v(log + [BranchEnter(href, refs)])
  {
  }

  lemma VisitedLeafNodes(st: Store, v: Visitor, href: HashRef, t: Tree, log: History)
    requires Represents(st, href, t) && t.Leaf?
    ensures LogNodes(Visited(st, v, href, t, log)) == LogNodes(log) + TreeNodes(st, href, t)
  {
    hide LogNodes;
    LogNodesSnoc(log, LeafEnter(href));
    LogNodesSnoc(log + [LeafEnter(href)], LeafLeave(href, t.chunk));
    assert LogNodes(log) + [Node(href, None)] + [] == LogNodes(log) + [Node(href, None)];
  }

  lemma {:induction false} VisitedNodes(st: Store, v: Visitor, href: HashRef, t: Tree, log: History)
    requires Represents(st, href, t) && Opens(v)
    ensures LogNodes(Visited(st, v, href, t, log)) == LogNodes(log) + TreeNodes(st, href, t)
    decreases t, 1
  {
    hide LogNodes, Opens;
    if t.Leaf? {
      VisitedLeafNodes(st, v, href, t, log);
    } else {
      var refs := st[href.hash].data.refs;
      var entered := log + [BranchEnter(href, refs)];
      OpensAt(v, log, href, refs);
      var inner := VisitedAll(st, v, refs, t.kids, entered);
      calc {
        LogNodes(Visited(st, v, href, t, log));
        LogNodes(inner + [BranchLeave(href)]);
        { LogNodesSnoc(inner, BranchLeave(href)); }
        LogNodes(inner) + [];
        LogNodes(inner);
        { VisitedAllNodes(st, v, refs, t.kids, entered); }
        LogNodes(entered) + AllTreeNodes(st, refs, t.kids);
        { LogNodesSnoc(log, BranchEnter(href, refs)); }
        (LogNodes(log) + [Node(href, Some(refs))]) + AllTreeNodes(st, refs, t.kids);
        LogNodes(log) + ([Node(href, Some(refs))] + AllTreeNodes(st, refs, t.kids));
        LogNodes(log) + TreeNodes(st, href, t);
      }
    }
  }

  lemma {:induction false} VisitedAllNodes(st: Store, v: Visitor, refs: seq<HashRef>, ts: seq<Tree>, log: History)
    requires RepresentAll(st, refs, ts) && Opens(v)
    ensures LogNodes(VisitedAll(st, v, refs, ts, log)) == LogNodes(log) + AllTreeNodes(st, refs, ts)
    decreases ts, 0
  {
    hide LogNodes, Opens;
    if ts != [] {
      var next := Visited(st, v, refs[0], ts[0], log);
      calc {
        LogNodes(VisitedAll(st, v, refs, ts, log));
        LogNodes(VisitedAll(st, v, refs[1..], ts[1..], next));
        { VisitedAllNodes(st, v, refs[1..], ts[1..], next); }
        LogNodes(next) + AllTreeNodes(st, refs[1..], ts[1..]);
        { VisitedNodes(st, v, refs[0], ts[0], log); }
        (LogNodes(log) + TreeNodes(st, refs[0], ts[0])) + AllTreeNodes(st, refs[1..], ts[1..]);
        LogNodes(log) + (TreeNodes(st, refs[0], ts[0]) + AllTreeNodes(st, refs[1..], ts[1..]));
        LogNodes(log) + AllTreeNodes(st, refs, ts);
      }
    }
  }

  function TasksNodes(st: Store, todo: seq<Task>): seq<Node>
    decreases |todo|
  {
    if todo == [] then []
    else
      var d := todo[|todo| - 1];
      (if d.Visit? then TreeNodes(st, d.href, d.tree) else []) + TasksNodes(st, todo[..|todo| - 1])
  }

  lemma {:induction false} RestNodes(st: Store, v: Visitor, todo: seq<Task>, log: History)
    requires TasksOk(st, todo) && Opens(v)
    ensures LogNodes(Rest(st, v, todo, log)) == LogNodes(log) + TasksNodes(st, todo)
    decreases |todo|
  {
    hide LogNodes, Opens;
    if todo != [] {
      var front, d := todo[..|todo| - 1], todo[|todo| - 1];
      assert TaskOk(st, d);
      var here := if d.Visit? then TreeNodes(st, d.href, d.tree) else [];
      var next := if d.Visit? then Visited(st, v, d.href, d.tree, log) else log + [BranchLeave(d.href)];
      assert LogNodes(next) == LogNodes(log) + here by {
        if d.Visit? { VisitedNodes(st, v, d.href, d.tree, log); } else { LogNodesSnoc(log, BranchLeave(d.href)); }
      }
      calc {
        LogNodes(Rest(st, v, todo, log));
        LogNodes(Rest(st, v, front, next));
        { RestNodes(st, v, front, next); }
        LogNodes(next) + TasksNodes(st, front);
        (LogNodes(log) + here) + TasksNodes(st, front);
        LogNodes(log) + (here + TasksNodes(st, front));
        LogNodes(log) + TasksNodes(st, todo);
      }
    }
  }

  /** A stretch of work moves nodes from the stack to the history without losing or repeating any. */
  lemma StretchNodes(st: Store, v: Visitor, before: seq<Task>, log: History, after: seq<Task>, log': History)
    requires TasksOk(st, before) && TasksOk(st, after) && log <= log' && Opens(v)
    requires Rest(st, v, after, log') == Rest(st, v, before, log)
    ensures TasksNodes(st, before) == LogNodes(log'[|log|..]) + TasksNodes(st, after)
  {
    hide LogNodes, Opens, TasksNodes, TasksOk, Rest;
    var l, n, t := LogNodes(log), LogNodes(log'[|log|..]), TasksNodes(st, after);
    RestNodes(st, v, before, log);
    RestNodes(st, v, after, log');
    SplitNodes(log, log');
    Associate(l, n, t);
    Cancel(l, TasksNodes(st, before), n + t);
  }

  lemma SplitNodes(log: History, log': History)
    requires log <= log'
    ensures LogNodes(log') == LogNodes(log) + LogNodes(log'[|log|..])
  {
    hide LogNodes;
    assert log' == log + log'[|log|..];
    LogNodesAppend(log, log'[|log|..]);
  }

  // ---------------------------------------------------------------- what is found below a directory

  function NodesFound(nodes: seq<Node>): multiset<Found> {
    if nodes == [] then multiset{} else multiset{NodeFound(nodes[0])} + NodesFound(nodes[1..])
  }

  lemma {:induction false} NodesFoundAppend(a: seq<Node>, b: seq<Node>)
    ensures NodesFound(a + b) == NodesFound(a) + NodesFound(b)
  {
    if a == [] {
      assert a + b == b;
    } else {
      assert (a + b)[1..] == a[1..] + b;
      NodesFoundAppend(a[1..], b);
    }
  }

  function TopsFound(tops: seq<Bytes>): multiset<Found> {
    if tops == [] then multiset{} else TopsFound(tops[..|tops| - 1]) + multiset{TopFound(tops[|tops| - 1])}
  }

  lemma TopsFoundSnoc(tops: seq<Bytes>, hash: Bytes)
    ensures TopsFound(tops + [hash]) == TopsFound(tops) + multiset{TopFound(hash)}
  {
  }

  /** What a recovery of directory `v` finds. */
  function DirFound(st: Store, v: DirView): multiset<Found>
    decreases v, 0
  {
    NodesFound(TreeNodes(st, v.href, v.tree)) + AllFound(st, v.items)
  }

  /** What it finds for the records of a listing. */
  function AllFound(st: Store, items: seq<ItemView>): multiset<Found>
    decreases items, 0
  {
    if items == [] then multiset{} else TopOf(items[0]) + Inside(st, items[0]) + AllFound(st, items[1..])
  }

  function TopOf(item: ItemView): multiset<Found> {
    match item
    case FileView(href, _) => multiset{TopFound(href.hash)}
    case SubView(dir) => multiset{TopFound(dir.href.hash)}
    case LinkView(_) => multiset{}
  }

  /** What it finds once it opens what a record refers to. */
  function Inside(st: Store, item: ItemView): multiset<Found>
    decreases item, 1
  {
    match item
    case FileView(href, t) => NodesFound(TreeNodes(st, href, t))
    case SubView(dir) => DirFound(st, dir)
    case LinkView(_) => multiset{}
  }

  function InsideAll(st: Store, items: seq<ItemView>): multiset<Found> {
    if items == [] then multiset{} else Inside(st, items[0]) + InsideAll(st, items[1..])
  }

  lemma {:induction false} InsideAllSnoc(st: Store, items: seq<ItemView>, item: ItemView)
    ensures InsideAll(st, items + [item]) == InsideAll(st, items) + Inside(st, item)
  {
    if items == [] {
      assert [] + [item] == [item] && [item][1..] == [];
    } else {
      assert (items + [item])[1..] == items[1..] + [item];
      InsideAllSnoc(st, items[1..], item);
    }
  }

  lemma {:induction false} AllFoundAppend(st: Store, a: seq<ItemView>, b: seq<ItemView>)
    ensures AllFound(st, a + b) == AllFound(st, a) + AllFound(st, b)
  {
    if a == [] {
      assert a + b == b;
    } else {
      assert (a + b)[1..] == a[1..] + b;
      AllFoundAppend(st, a[1..], b);
    }
  }

  /** The hashes found for files and directories are the ones a commit tags. */
  lemma {:induction false} DirTops(st: Store, v: DirView, hash: Bytes)
    ensures TopFound(hash) in DirFound(st, v) <==> hash in TopSet(v.items)
    decreases v, 0
  {
    NoTopAmongNodes(TreeNodes(st, v.href, v.tree), hash);
    ItemsTops(st, v.items, hash);
  }

  lemma {:induction false} ItemsTops(st: Store, items: seq<ItemView>, hash: Bytes)
    ensures TopFound(hash) in AllFound(st, items) <==> hash in TopSet(items)
    decreases items, 0
  {
    if items != [] {
      ItemHasTops(st, items[0], hash);
      ItemsTops(st, items[1..], hash);
    }
  }

  lemma {:induction false} ItemHasTops(st: Store, item: ItemView, hash: Bytes)
    ensures TopFound(hash) in TopOf(item) + Inside(st, item) <==> hash in ItemTops(item)
    decreases item, 1
  {
    match item
    case FileView(href, t) => NoTopAmongNodes(TreeNodes(st, href, t), hash);
    case SubView(dir) => DirTops(st, dir, hash);
    case LinkView(_) =>
  }

  lemma {:induction false} NoTopAmongNodes(nodes: seq<Node>, hash: Bytes)
    ensures TopFound(hash) !in NodesFound(nodes)
  {
    if nodes != [] { NoTopAmongNodes(nodes[1..], hash); }
  }

  // ---------------------------------------------------------------- how much work is left

  function ItemCost(item: ItemView): nat
    decreases item, 1
  {
    match item
    case FileView(_, t) => 2 + Size(t)
    case SubView(dir) => 2 + DirCost(dir)
    case LinkView(_) => 2
  }

  function DirCost(v: DirView): nat
    decreases v, 0
  {
    Size(v.tree) + ItemsCost(v.items)
  }

  function ItemsCost(items: seq<ItemView>): nat
    decreases items, 0
  {
    if items == [] then 0 else ItemCost(items[0]) + ItemsCost(items[1..])
  }

  lemma {:induction false} ItemsCostAppend(a: seq<ItemView>, b: seq<ItemView>)
    ensures ItemsCost(a + b) == ItemsCost(a) + ItemsCost(b)
  {
    if a == [] {
      assert a + b == b;
    } else {
      assert (a + b)[1..] == a[1..] + b;
      ItemsCostAppend(a[1..], b);
    }
  }
}
