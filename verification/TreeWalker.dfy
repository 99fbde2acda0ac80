/**
  The resumable walker over a stored hash tree, and the leaf iterator on top of it.

  A visitor is modelled by the replies it gives: a function of the history of events so far, which
  covers every deterministic visitor whatever state it keeps. `Visited` is the plain recursive
  enter/leave traversal; the walker's explicit stack is proved to produce the same history, cut
  where the visitor asked to stop and continued by the next `Resume`.
  What a history has to look like is also stated without either of them: see `Answered` and `Moved`.
*/
module TreeWalker {
  import opened Common
  import opened HashTypes
  import opened TreeShape
  import opened TreeHeights
  import opened HashTree

  datatype Event =
    | BranchEnter(href: HashRef, childs: seq<HashRef>)
    | BranchLeave(href: HashRef)
    | LeafEnter(href: HashRef)
    | LeafLeave(href: HashRef, chunk: Chunk)

  type History = seq<Event>

  /** The visitor's reply to the last event of a non-empty history. */
  type Visitor = History -> bool

  /** A leave event to which the visitor replied "stop here". */
  predicate Stops(v: Visitor, log: History) {
    log != [] && (log[|log| - 1].BranchLeave? || log[|log| - 1].LeafLeave?) && v(log)
  }

  /** Between `log` and its extension `log'` the visitor never asked to stop. */
  ghost predicate Uninterrupted(v: Visitor, log: History, log': History) {
    log <= log' && forall k :: |log| < k < |log'| ==> !Stops(v, log'[..k])
  }

  lemma UninterruptedChain(v: Visitor, a: History, b: History, c: History)
    requires Uninterrupted(v, a, b) && Uninterrupted(v, b, c)
    requires a == b || !Stops(v, b)
    ensures Uninterrupted(v, a, c)
  {
    forall k | |a| < k < |c|
      ensures !Stops(v, c[..k])
    {
      if k < |b| { assert c[..k] == b[..k]; }
      else if k == |b| { assert c[..k] == b; }
    }
  }

  // ---------------------------------------------------------------- the recursive traversal

  ghost function Visited(st: Store, v: Visitor, href: HashRef, t: Tree, log: History): History
    requires Represents(st, href, t)
    decreases t, 1
  {
    match t
    case Leaf(c) =>
      var entered := log + [LeafEnter(href)];
      if v(entered) then entered + [LeafLeave(href, c)] else entered
    case Branch(_, kids) =>
      var refs := st[href.hash].data.refs;
      var entered := log + [BranchEnter(href, refs)];
      if v(entered) then VisitedAll(st, v, refs, kids, entered) + [BranchLeave(href)] else entered
  }

  ghost predicate RepresentAll(st: Store, refs: seq<HashRef>, ts: seq<Tree>) {
    |refs| == |ts| && forall i | 0 <= i < |ts| :: Represents(st, refs[i], ts[i])
  }

  ghost function VisitedAll(st: Store, v: Visitor, refs: seq<HashRef>, ts: seq<Tree>, log: History): History
    requires RepresentAll(st, refs, ts)
    decreases ts, 0
  {
    if ts == [] then log
    else VisitedAll(st, v, refs[1..], ts[1..], Visited(st, v, refs[0], ts[0], log))
  }

  // ---------------------------------------------------------------- what a stack still has to do

  datatype StackItem = Enter(href: HashRef) | LeaveBranch(href: HashRef)

  /** A stack item together with the tree its reference denotes. */
  datatype Task = Visit(href: HashRef, tree: Tree) | Leave(href: HashRef)
  {
    function Item(): StackItem {
      if Visit? then Enter(href) else LeaveBranch(href)
    }
  }

  ghost predicate TaskOk(st: Store, d: Task) {
    d.Visit? ==> Represents(st, d.href, d.tree) && WellFormed(d.tree)
  }

  ghost predicate TasksOk(st: Store, todo: seq<Task>) {
    forall i | 0 <= i < |todo| :: TaskOk(st, todo[i])
  }

  /** The history once everything on the stack has run, ignoring requests to stop. */
  ghost function Rest(st: Store, v: Visitor, todo: seq<Task>, log: History): History
    requires TasksOk(st, todo)
    decreases |todo|
  {
    if todo == [] then log
    else
      var front, d := todo[..|todo| - 1], todo[|todo| - 1];
      assert TaskOk(st, d);
      Rest(st, v, front, if d.Visit? then Visited(st, v, d.href, d.tree, log) else log + [BranchLeave(d.href)])
  }

  ghost function ChildTasks(refs: seq<HashRef>, ts: seq<Tree>): (r: seq<Task>)
    requires |refs| == |ts|
    ensures |r| == |refs|
  {
    if refs == [] then [] else ChildTasks(refs[1..], ts[1..]) + [Visit(refs[0], ts[0])]
  }

  function EnterReversed(refs: seq<HashRef>): (r: seq<StackItem>)
    ensures |r| == |refs|
  {
    if refs == [] then [] else EnterReversed(refs[1..]) + [Enter(refs[0])]
  }

  lemma {:induction false} ChildTasksItems(refs: seq<HashRef>, ts: seq<Tree>)
    requires |refs| == |ts|
    ensures forall i | 0 <= i < |refs| :: ChildTasks(refs, ts)[i].Item() == EnterReversed(refs)[i]
  {
    if refs != [] { ChildTasksItems(refs[1..], ts[1..]); }
  }

  lemma {:induction false} ChildTasksOk(st: Store, refs: seq<HashRef>, ts: seq<Tree>)
    requires RepresentAll(st, refs, ts) && forall t | t in ts :: WellFormed(t)
    ensures TasksOk(st, ChildTasks(refs, ts))
  {
    if refs != [] { ChildTasksOk(st, refs[1..], ts[1..]); }
  }

  lemma {:induction false} RestOfChildren(st: Store, v: Visitor, base: seq<Task>, refs: seq<HashRef>, ts: seq<Tree>,
                                          log: History)
    requires TasksOk(st, base) && RepresentAll(st, refs, ts) && forall t | t in ts :: WellFormed(t)
    ensures TasksOk(st, base + ChildTasks(refs, ts))
    ensures Rest(st, v, base + ChildTasks(refs, ts), log) == Rest(st, v, base, VisitedAll(st, v, refs, ts, log))
    decreases |refs|
  {
    ChildTasksOk(st, refs, ts);
    if refs == [] {
      assert base + ChildTasks(refs, ts) == base;
    } else {
      var inner := base + ChildTasks(refs[1..], ts[1..]);
      var all := base + ChildTasks(refs, ts);
      assert all == inner + [Visit(refs[0], ts[0])];
      assert all[..|all| - 1] == inner;
      RestOfChildren(st, v, base, refs[1..], ts[1..], Visited(st, v, refs[0], ts[0], log));
    }
  }

  lemma {:induction false} VisitedExtends(st: Store, v: Visitor, href: HashRef, t: Tree, log: History)
    requires Represents(st, href, t)
    ensures log <= Visited(st, v, href, t, log)
    decreases t, 1
  {
    if t.Branch? {
      var refs := st[href.hash].data.refs;
      VisitedAllExtends(st, v, refs, t.kids, log + [BranchEnter(href, refs)]);
    }
  }

  lemma {:induction false} VisitedAllExtends(st: Store, v: Visitor, refs: seq<HashRef>, ts: seq<Tree>, log: History)
    requires RepresentAll(st, refs, ts)
    ensures log <= VisitedAll(st, v, refs, ts, log)
    decreases ts, 0
  {
    if ts != [] {
      VisitedExtends(st, v, refs[0], ts[0], log);
      VisitedAllExtends(st, v, refs[1..], ts[1..], Visited(st, v, refs[0], ts[0], log));
    }
  }

  lemma {:induction false} RestExtends(st: Store, v: Visitor, todo: seq<Task>, log: History)
    requires TasksOk(st, todo)
    ensures log <= Rest(st, v, todo, log)
    decreases |todo|
  {
    if todo != [] {
      var front, d := todo[..|todo| - 1], todo[|todo| - 1];
      assert TaskOk(st, d);
      if d.Visit? { VisitedExtends(st, v, d.href, d.tree, log); }
      RestExtends(st, v, front, if d.Visit? then Visited(st, v, d.href, d.tree, log) else log + [BranchLeave(d.href)]);
    }
  }

  // ---------------------------------------------------------------- measures over a stack

  function Size(t: Tree): nat
    decreases t, 1
  {
    match t
    case Leaf(_) => 1
    case Branch(_, kids) => 2 + SizeAll(kids)
  }

  function SizeAll(ts: seq<Tree>): nat
    decreases ts, 0
  {
    if ts == [] then 0 else Size(ts[0]) + SizeAll(ts[1..])
  }

  function Work(todo: seq<Task>): nat {
    if todo == [] then 0
    else (if todo[|todo| - 1].Visit? then Size(todo[|todo| - 1].tree) else 1) + Work(todo[..|todo| - 1])
  }

  /** The chunks still to come, in the order the stack will reach them. */
  function TasksLeaves(todo: seq<Task>): seq<Chunk> {
    if todo == [] then []
    else (if todo[|todo| - 1].Visit? then Leaves(todo[|todo| - 1].tree) else []) + TasksLeaves(todo[..|todo| - 1])
  }

  function LeaflessTasks(todo: seq<Task>, x: nat): nat {
    if todo == [] then 0
    else
      (if todo[|todo| - 1].Visit? then Leafless(todo[|todo| - 1].tree, x) else 0) +
      LeaflessTasks(todo[..|todo| - 1], x)
  }

  lemma TaskSnoc(front: seq<Task>, d: Task, x: nat)
    ensures var all := front + [d];
      && Work(all) == (if d.Visit? then Size(d.tree) else 1) + Work(front)
      && TasksLeaves(all) == (if d.Visit? then Leaves(d.tree) else []) + TasksLeaves(front)
      && LeaflessTasks(all, x) == (if d.Visit? then Leafless(d.tree, x) else 0) + LeaflessTasks(front, x)
  {
  }

  lemma {:induction false} ChildMeasures(base: seq<Task>, refs: seq<HashRef>, ts: seq<Tree>, x: nat)
    requires |refs| == |ts|
    ensures Work(base + ChildTasks(refs, ts)) == SizeAll(ts) + Work(base)
    ensures TasksLeaves(base + ChildTasks(refs, ts)) == LeavesAll(ts) + TasksLeaves(base)
    ensures LeaflessTasks(base + ChildTasks(refs, ts), x) == LeaflessAll(ts, x) + LeaflessTasks(base, x)
    decreases |refs|
  {
    if refs == [] {
      assert base + ChildTasks(refs, ts) == base;
    } else {
      var inner := base + ChildTasks(refs[1..], ts[1..]);
      ChildMeasures(base, refs[1..], ts[1..], x);
      TaskSnoc(inner, Visit(refs[0], ts[0]), x);
      assert base + ChildTasks(refs, ts) == inner + [Visit(refs[0], ts[0])];
      assert Leaves(ts[0]) + (LeavesAll(ts[1..]) + TasksLeaves(base)) == LeavesAll(ts) + TasksLeaves(base);
    }
  }

  /** The stack after its top visit has been opened into a leave mark and the children. */
  ghost function Opened(st: Store, front: seq<Task>, d: Task): seq<Task>
    requires d.Visit? && d.tree.Branch? && TaskOk(st, d)
  {
    front + [Leave(d.href)] + ChildTasks(st[d.href.hash].data.refs, d.tree.kids)
  }

  lemma OpenedRest(st: Store, v: Visitor, front: seq<Task>, d: Task, log: History)
    requires TasksOk(st, front) && d.Visit? && d.tree.Branch? && TaskOk(st, d)
    requires v(log + [BranchEnter(d.href, st[d.href.hash].data.refs)])
    ensures TasksOk(st, Opened(st, front, d))
    ensures Rest(st, v, Opened(st, front, d), log + [BranchEnter(d.href, st[d.href.hash].data.refs)])
         == Rest(st, v, front, Visited(st, v, d.href, d.tree, log))
  {
    var refs := st[d.href.hash].data.refs;
    var base := front + [Leave(d.href)];
    assert base[..|base| - 1] == front;
    RestOfChildren(st, v, base, refs, d.tree.kids, log + [BranchEnter(d.href, refs)]);
  }

  lemma OpenedOk(st: Store, front: seq<Task>, d: Task)
    requires TasksOk(st, front) && d.Visit? && d.tree.Branch? && TaskOk(st, d)
    ensures TasksOk(st, Opened(st, front, d))
  {
    ChildTasksOk(st, st[d.href.hash].data.refs, d.tree.kids);
  }

  lemma OpenedMeasures(st: Store, front: seq<Task>, d: Task, x: nat)
    requires d.Visit? && d.tree.Branch? && TaskOk(st, d)
    ensures Work(Opened(st, front, d)) + 1 == Work(front + [d])
    ensures TasksLeaves(Opened(st, front, d)) == TasksLeaves(front + [d])
    ensures LeaflessTasks(Opened(st, front, d), x) + (if d.tree.height == x && Leaves(d.tree) == [] then 1 else 0)
         == LeaflessTasks(front + [d], x)
  {
    TaskSnoc(front, d, x);
    TaskSnoc(front, Leave(d.href), x);
    ChildMeasures(front + [Leave(d.href)], st[d.href.hash].data.refs, d.tree.kids, x);
  }

  // ---------------------------------------------------------------- cycle detection

  /** Replies of the visitors that hand out one leaf at a time. */
  predicate LeafVisitor(log: History) {
    log != [] && !log[|log| - 1].BranchLeave?
  }

  ghost predicate SparseTasks(todo: seq<Task>) {
    forall x: nat :: LeaflessTasks(todo, x) <= 1
  }

  /** Every task above position `cut` lies strictly below height `h`. */
  ghost predicate Below(todo: seq<Task>, cut: nat, h: nat) {
    cut <= |todo| && forall i | cut <= i < |todo| && todo[i].Visit? :: todo[i].tree.Height() < h
  }

  /** What one uninterrupted stretch of work knows about the first node it entered:
      either everything left is below it, or the next leaf comes before anything that is not, or it
      was the only leafless branch of its height. */
  ghost predicate Fresh(todo: seq<Task>, first: Task, cut: nat) {
    && first.Visit?
    && (|| (cut == 0 && Below(todo, 0, first.tree.Height()))
        || (Below(todo, cut, first.tree.Height()) && TasksLeaves(todo[cut..]) != [])
        || (first.tree.Branch? && Leaves(first.tree) == [] && LeaflessTasks(todo, first.tree.height) == 0))
  }

  /** The node on top of a fresh stack cannot be the first node again. */
  lemma FreshDiffers(st: Store, front: seq<Task>, d: Task, first: Task, cut: nat)
    requires TaskOk(st, d) && TaskOk(st, first) && d.Visit?
    requires Fresh(front + [d], first, cut)
    ensures d.href.hash != first.href.hash
  {
    var todo := front + [d];
    if d.href.hash == first.href.hash {
      RepresentsUnique(st, d.href, first.href, d.tree, first.tree);
      assert todo[|front|] == d;
      TaskSnoc(front, d, first.tree.Height());
    }
  }

  ghost predicate LeafLike(v: Visitor) {
    forall log :: v(log) == LeafVisitor(log)
  }

  lemma {:induction false} ChildTasksBelow(refs: seq<HashRef>, ts: seq<Tree>, h: nat)
    requires |refs| == |ts| && forall t | t in ts :: t.Height() < h
    ensures Below(ChildTasks(refs, ts), 0, h)
  {
    if refs != [] { ChildTasksBelow(refs[1..], ts[1..], h); }
  }

  lemma OpenedBelow(st: Store, front: seq<Task>, d: Task, cut: nat, h: nat)
    requires TaskOk(st, d) && d.Visit? && d.tree.Branch? && d.tree.height <= h
    requires Below(front, cut, h)
    ensures Below(Opened(st, front, d), cut, h)
    ensures Opened(st, front, d)[cut..] == Opened(st, front[cut..], d)
  {
    var kids := ChildTasks(st[d.href.hash].data.refs, d.tree.kids);
    ChildTasksBelow(st[d.href.hash].data.refs, d.tree.kids, h);
    var all := Opened(st, front, d);
    forall i | cut <= i < |all| && all[i].Visit?
      ensures all[i].tree.Height() < h
    {
      if i > |front| { assert all[i] == kids[i - |front| - 1]; }
    }
  }

  lemma OpenedSparse(st: Store, front: seq<Task>, d: Task)
    requires TaskOk(st, d) && d.Visit? && d.tree.Branch? && SparseTasks(front + [d])
    ensures SparseTasks(Opened(st, front, d))
    ensures Leaves(d.tree) == [] ==> LeaflessTasks(Opened(st, front, d), d.tree.height) == 0
  {
    forall x: nat
      ensures LeaflessTasks(Opened(st, front, d), x) <= 1
    {
      OpenedMeasures(st, front, d, x);
    }
    OpenedMeasures(st, front, d, d.tree.height);
  }

  /** Opening the first node of a stretch makes the stack fresh with respect to it. */
  lemma FreshFirst(st: Store, front: seq<Task>, d: Task)
    requires TaskOk(st, d) && d.Visit? && d.tree.Branch?
    requires front == [] || SparseTasks(front + [d])
    ensures Fresh(Opened(st, front, d), d, |front|)
  {
    OpenedBelow(st, front, d, |front|, d.tree.height);
    OpenedMeasures(st, [], d, 0);
    TaskSnoc([], d, 0);
    assert front[|front|..] == [];
    if front != [] && Leaves(d.tree) == [] {
      OpenedSparse(st, front, d);
    }
  }

  lemma FreshOpened(st: Store, front: seq<Task>, d: Task, first: Task, cut: nat)
    requires TaskOk(st, d) && d.Visit? && d.tree.Branch? && Fresh(front + [d], first, cut)
    ensures Fresh(Opened(st, front, d), first, cut)
  {
    var todo := front + [d];
    assert todo[|front|] == d;
    var h := first.tree.Height();
    OpenedMeasures(st, front, d, h);
    if cut <= |front| && Below(todo, cut, h) {
      assert Below(front, cut, h) by {
        forall i | cut <= i < |front| && front[i].Visit?
          ensures front[i].tree.Height() < h
        {
          assert todo[i] == front[i];
        }
      }
      OpenedBelow(st, front, d, cut, h);
      OpenedMeasures(st, front[cut..], d, 0);
      assert todo[cut..] == front[cut..] + [d];
    }
  }

  lemma FreshLeave(front: seq<Task>, d: Task, first: Task, cut: nat)
    requires d.Leave? && Fresh(front + [d], first, cut)
    ensures Fresh(front, first, cut)
  {
    var todo := front + [d];
    var h := first.tree.Height();
    TaskSnoc(front, d, h);
    forall i | 0 <= i < |front|
      ensures todo[i] == front[i]
    {
    }
    if cut <= |front| {
      assert todo[cut..] == front[cut..] + [d];
      TaskSnoc(front[cut..], d, h);
    }
  }

  /** Bookkeeping for one call of `Resume`: the first node it entered, whether the stack was new, and
      whether the visitor takes one leaf at a time from a sparse tree. */
  datatype Guard = Guard(first: Option<Task>, cut: nat, single: bool, leafy: bool)

  ghost predicate Guarded(st: Store, todo: seq<Task>, g: Guard) {
    && (g.leafy ==> SparseTasks(todo))
    && (g.first.None? && g.single ==> |todo| <= 1)
    && (g.first.Some? ==> g.first.value.Visit? && TaskOk(st, g.first.value))
    && (g.first.Some? && g.single ==> Below(todo, 0, g.first.value.tree.Height()))
    && (g.first.Some? && (g.single || g.leafy) ==> Fresh(todo, g.first.value, if g.single then 0 else g.cut))
  }

  lemma PopSparse(front: seq<Task>, d: Task)
    requires SparseTasks(front + [d])
    ensures SparseTasks(front)
  {
    forall x: nat
      ensures LeaflessTasks(front, x) <= 1
    {
      TaskSnoc(front, d, x);
    }
  }

  lemma GuardLeave(st: Store, front: seq<Task>, d: Task, g: Guard)
    requires d.Leave? && Guarded(st, front + [d], g)
    ensures Guarded(st, front, g)
  {
    assert forall i | 0 <= i < |front| :: (front + [d])[i] == front[i];
    if g.leafy { PopSparse(front, d); }
    if g.first.Some? && (g.single || g.leafy) {
      FreshLeave(front, d, g.first.value, if g.single then 0 else g.cut);
    }
  }

  /** Under a guard that promises it, the first node is never entered a second time. */
  lemma GuardRepeat(st: Store, front: seq<Task>, d: Task, g: Guard)
    requires d.Visit? && TaskOk(st, d) && Guarded(st, front + [d], g)
    requires g.first.Some? && g.first.value.href.hash == d.href.hash
    ensures !g.single && !g.leafy
  {
    if g.single || g.leafy {
      FreshDiffers(st, front, d, g.first.value, if g.single then 0 else g.cut);
    }
  }

  /** The guard after entering `d`; only a visitor that stopped at a leaf may lose freshness. */
  lemma GuardEnter(st: Store, front: seq<Task>, d: Task, g: Guard, todo: seq<Task>) returns (g': Guard)
    requires d.Visit? && TaskOk(st, d) && Guarded(st, front + [d], g)
    requires if d.tree.Branch? then todo == front || todo == Opened(st, front, d) else todo == front
    requires g.leafy && d.tree.Branch? ==> todo == Opened(st, front, d)
    ensures g'.single == g.single && g'.leafy == g.leafy
    ensures g'.first == if g.first.Some? then g.first else Some(d)
    ensures g.leafy ==> SparseTasks(todo)
    ensures (g.leafy && d.tree.Leaf?) || Guarded(st, todo, g')
  {
    g' := g.(first := if g.first.Some? then g.first else Some(d), cut := if g.first.Some? then g.cut else |front|);
    assert (front + [d])[|front|] == d;
    assert forall i | 0 <= i < |front| :: (front + [d])[i] == front[i];
    if g.leafy { PopSparse(front, d); }
    if todo != front {
      if g.leafy { OpenedSparse(st, front, d); }
      if g.single || g.leafy { GuardOpened(st, front, d, g); }
    }
  }

  lemma GuardOpened(st: Store, front: seq<Task>, d: Task, g: Guard)
    requires d.Visit? && TaskOk(st, d) && d.tree.Branch? && Guarded(st, front + [d], g)
    requires g.single || g.leafy
    ensures var todo := Opened(st, front, d);
      if g.first.None? then
        Fresh(todo, d, |front|) && (g.single ==> front == [] && Below(todo, 0, d.tree.Height()))
      else
        && Fresh(todo, g.first.value, if g.single then 0 else g.cut)
        && (g.single ==> Below(todo, 0, g.first.value.tree.Height()))
  {
    assert (front + [d])[|front|] == d;
    assert forall i | 0 <= i < |front| :: (front + [d])[i] == front[i];
    if g.first.None? {
      FreshFirst(st, front, d);
      if g.single { OpenedBelow(st, front, d, 0, d.tree.height); }
    } else {
      FreshOpened(st, front, d, g.first.value, if g.single then 0 else g.cut);
      if g.single { OpenedBelow(st, front, d, 0, g.first.value.tree.Height()); }
    }
  }

  // ---------------------------------------------------------------- what a history shows

  /** Every leaf is read exactly if the visitor said so when it was entered, and at once: between `log` and
      `log'` each `LeafLeave` directly follows the `LeafEnter` of the same leaf that was replied to with true,
      and each such reply is followed by its `LeafLeave`. */
  ghost predicate Answered(v: Visitor, log: History, log': History) {
    forall i | |log| <= i < |log'| :: AnsweredAt(v, |log|, log', i)
  }

  predicate AnsweredAt(v: Visitor, n: nat, log': History, i: nat)
    requires n <= i < |log'|
  {
    && (log'[i].LeafLeave? ==> n < i && log'[i - 1] == LeafEnter(log'[i].href) && v(log'[..i]))
    && (log'[i].LeafEnter? && v(log'[..i + 1]) ==> i + 1 < |log'| && log'[i + 1].LeafLeave?)
  }

  /** The visitor is shown what is stored under the hash. */
  predicate EventOk(st: Store, e: Event) {
    match e
    case BranchEnter(href, childs) => href.hash in st && st[href.hash].data == Refs(childs)
    case LeafLeave(href, chunk) => href.hash in st && st[href.hash].data == ChunkData(chunk)
    case _ => true
  }

  predicate Enters(e: Event) {
    e.BranchEnter? || e.LeafEnter?
  }

  /** The hash of the first node entered from the `n`-th event on. */
  function FirstEntered(log: History, n: nat): Option<Bytes> {
    if |log| <= n then None
    else
      var first := FirstEntered(log[..|log| - 1], n);
      if first.None? && Enters(log[|log| - 1]) then Some(log[|log| - 1].href.hash) else first
  }

  /** From the `n`-th event on, the first node entered is not entered again. */
  predicate NoCycle(log: History, n: nat) {
    |log| <= n ||
    (var before := log[..|log| - 1];
     && NoCycle(before, n)
     && (Enters(log[|log| - 1]) ==> FirstEntered(before, n) != Some(log[|log| - 1].href.hash)))
  }

  lemma CycleStep(log: History, e: Event, n: nat)
    requires n <= |log|
    ensures FirstEntered(log + [e], n) ==
      if FirstEntered(log, n).None? && Enters(e) then Some(e.href.hash) else FirstEntered(log, n)
    ensures NoCycle(log + [e], n) <==>
      NoCycle(log, n) && (Enters(e) ==> FirstEntered(log, n) != Some(e.href.hash))
  {
    assert (log + [e])[..|log|] == log;
  }

  lemma NothingEntered(log: History)
    ensures FirstEntered(log, |log|) == None && NoCycle(log, |log|)
  {
  }

  /** From `log` to `log'` just one node was entered: the one with this hash, or none. */
  ghost predicate EntersOne(log: History, log': History, hash: Option<Bytes>) {
    forall n: nat | n <= |log| ::
      && FirstEntered(log', n) == (if FirstEntered(log, n).None? then hash else FirstEntered(log, n))
      && (NoCycle(log', n) <==> NoCycle(log, n) && (hash.Some? ==> FirstEntered(log, n) != hash))
  }

  lemma OneEntered(log: History, e: Event)
    ensures EntersOne(log, log + [e], if Enters(e) then Some(e.href.hash) else None)
  {
    hide FirstEntered, NoCycle;
    forall n: nat | n <= |log|
      ensures var hash := if Enters(e) then Some(e.href.hash) else None;
        && FirstEntered(log + [e], n) == (if FirstEntered(log, n).None? then hash else FirstEntered(log, n))
        && (NoCycle(log + [e], n) <==> NoCycle(log, n) && (hash.Some? ==> FirstEntered(log, n) != hash))
    {
      CycleStep(log, e, n);
    }
  }

  lemma ReadEntersNone(log: History, mid: History, href: HashRef, chunk: Chunk, hash: Option<Bytes>)
    requires EntersOne(log, mid, hash) && log <= mid
    ensures EntersOne(log, mid + [LeafLeave(href, chunk)], hash)
  {
    hide FirstEntered, NoCycle;
    forall n: nat | n <= |log|
      ensures FirstEntered(mid + [LeafLeave(href, chunk)], n) == FirstEntered(mid, n)
      ensures NoCycle(mid + [LeafLeave(href, chunk)], n) <==> NoCycle(mid, n)
    {
      CycleStep(mid, LeafLeave(href, chunk), n);
    }
  }

  ghost predicate Genuine(st: Store, log: History, log': History) {
    forall i | |log| <= i < |log'| :: EventOk(st, log'[i])
  }

  /** A point in a traversal: the nodes to be entered next on the innermost level, and for each branch that
      was opened and is still to be left, outermost first, the nodes to be entered after it. */
  datatype Place = Place(left: seq<HashRef>, outer: seq<(HashRef, seq<HashRef>)>)

  /** Where a traversal is after one more event, to which the visitor gives `reply`; none if the event does
      not belong there. Only a branch replied to with true is opened, and only after all its children can
      it be left. */
  function Moved(p: Place, e: Event, reply: bool): Option<Place> {
    match e
    case LeafEnter(h) => if p.left != [] && p.left[0] == h then Some(p.(left := p.left[1..])) else None
    case LeafLeave(_, _) => Some(p)
    case BranchEnter(h, childs) =>
      if p.left == [] || p.left[0] != h then None
      else if reply then Some(Place(childs, p.outer + [(h, p.left[1..])]))
      else Some(p.(left := p.left[1..]))
    case BranchLeave(h) =>
      var n := |p.outer| - 1;
      if p.left == [] && p.outer != [] && p.outer[n].0 == h then Some(Place(p.outer[n].1, p.outer[..n])) else None
  }

  /** Where the events of `log` from the `n`-th on lead. */
  function Followed(v: Visitor, p: Place, log: History, n: nat): Option<Place> {
    if |log| <= n then Some(p)
    else
      match Followed(v, p, log[..|log| - 1], n)
      case None => None
      case Some(q) => Moved(q, log[|log| - 1], v(log))
  }

  lemma FollowedSnoc(v: Visitor, p: Place, log: History, n: nat, e: Event)
    requires n <= |log| && Followed(v, p, log, n).Some?
    ensures Followed(v, p, log + [e], n) == Moved(Followed(v, p, log, n).value, e, v(log + [e]))
  {
    assert (log + [e])[..|log|] == log;
  }

  lemma {:induction false} FollowedChain(v: Visitor, p: Place, log: History, n: nat, m: nat)
    requires n <= m <= |log| && Followed(v, p, log[..m], n).Some?
    ensures Followed(v, p, log, n) == Followed(v, Followed(v, p, log[..m], n).value, log, m)
    decreases |log|
  {
    if |log| == m {
      assert log[..m] == log;
    } else {
      assert log[..|log| - 1][..m] == log[..m];
      FollowedChain(v, p, log[..|log| - 1], n, m);
    }
  }

  /** The stack of a walker at that point. */
  function StackOf(p: Place): seq<StackItem>
    decreases |p.outer|
  {
    (if p.outer == [] then []
     else
       var n := |p.outer| - 1;
       StackOf(Place(p.outer[n].1, p.outer[..n])) + [LeaveBranch(p.outer[n].0)]) +
    EnterReversed(p.left)
  }

  /** The history from `log` to `log'` is that of a traversal, from wherever the one stack stands to where
      the other one does. */
  ghost predicate Orderly(v: Visitor, log: History, stack: seq<StackItem>, log': History, stack': seq<StackItem>) {
    forall p | StackOf(p) == stack ::
      Followed(v, p, log', |log|).Some? && StackOf(Followed(v, p, log', |log|).value) == stack'
  }

  lemma TopEnters(p: Place, front: seq<StackItem>, href: HashRef)
    requires StackOf(p) == front + [Enter(href)]
    ensures p.left != [] && p.left[0] == href && StackOf(p.(left := p.left[1..])) == front
  {
    var s := StackOf(p);
    assert s[|s| - 1] == Enter(href);
    if p.left != [] {
      assert s == StackOf(p.(left := p.left[1..])) + [Enter(p.left[0])];
    }
    assert s[..|s| - 1] == front;
  }

  lemma TopLeaves(p: Place, front: seq<StackItem>, href: HashRef)
    requires StackOf(p) == front + [LeaveBranch(href)]
    ensures p.left == [] && p.outer != [] && p.outer[|p.outer| - 1].0 == href
    ensures var n := |p.outer| - 1; StackOf(Place(p.outer[n].1, p.outer[..n])) == front
  {
    var s := StackOf(p);
    assert s[|s| - 1] == LeaveBranch(href);
    assert s[..|s| - 1] == front;
  }

  /** Opening a branch: its leave mark and its children, the first one on top. */
  lemma OpensStack(p: Place, href: HashRef, childs: seq<HashRef>)
    requires p.left != [] && p.left[0] == href
    ensures StackOf(Place(childs, p.outer + [(href, p.left[1..])])) ==
      StackOf(p.(left := p.left[1..])) + [LeaveBranch(href)] + EnterReversed(childs)
  {
    var q := Place(childs, p.outer + [(href, p.left[1..])]);
    assert q.outer[..|q.outer| - 1] == p.outer;
  }

  lemma OrderlySelf(v: Visitor, log: History, stack: seq<StackItem>)
    ensures Orderly(v, log, stack, log, stack)
  {
  }

  lemma OrderlyChain(v: Visitor, a: History, s: seq<StackItem>, b: History, t: seq<StackItem>, c: History,
                     u: seq<StackItem>)
    requires Orderly(v, a, s, b, t) && Orderly(v, b, t, c, u) && a <= b <= c
    ensures Orderly(v, a, s, c, u)
  {
    hide Followed, StackOf;
    forall p | StackOf(p) == s
      ensures Followed(v, p, c, |a|).Some? && StackOf(Followed(v, p, c, |a|).value) == u
    {
      assert c[..|b|] == b;
      FollowedChain(v, p, c, |a|, |b|);
    }
  }

  lemma OrderlyLeave(v: Visitor, log: History, front: seq<StackItem>, href: HashRef)
    ensures Orderly(v, log, front + [LeaveBranch(href)], log + [BranchLeave(href)], front)
  {
    hide StackOf;
    forall p | StackOf(p) == front + [LeaveBranch(href)]
      ensures var q := Followed(v, p, log + [BranchLeave(href)], |log|); q.Some? && StackOf(q.value) == front
    {
      TopLeaves(p, front, href);
      FollowedSnoc(v, p, log, |log|, BranchLeave(href));
    }
  }

  lemma OrderlyLeaf(v: Visitor, log: History, front: seq<StackItem>, href: HashRef)
    ensures Orderly(v, log, front + [Enter(href)], log + [LeafEnter(href)], front)
  {
    hide StackOf;
    forall p | StackOf(p) == front + [Enter(href)]
      ensures var q := Followed(v, p, log + [LeafEnter(href)], |log|); q.Some? && StackOf(q.value) == front
    {
      TopEnters(p, front, href);
      FollowedSnoc(v, p, log, |log|, LeafEnter(href));
    }
  }

  lemma OrderlyRead(v: Visitor, log: History, stack: seq<StackItem>, href: HashRef, chunk: Chunk)
    ensures Orderly(v, log, stack, log + [LeafLeave(href, chunk)], stack)
  {
    hide StackOf;
    forall p | StackOf(p) == stack
      ensures Followed(v, p, log + [LeafLeave(href, chunk)], |log|) == Some(p)
    {
      FollowedSnoc(v, p, log, |log|, LeafLeave(href, chunk));
    }
  }

  lemma OrderlyBranch(v: Visitor, log: History, front: seq<StackItem>, href: HashRef, childs: seq<HashRef>)
    ensures var log' := log + [BranchEnter(href, childs)];
      Orderly(v, log, front + [Enter(href)], log',
        if v(log') then front + [LeaveBranch(href)] + EnterReversed(childs) else front)
  {
    hide StackOf, EnterReversed;
    var log' := log + [BranchEnter(href, childs)];
    var stack' := if v(log') then front + [LeaveBranch(href)] + EnterReversed(childs) else front;
    forall p | StackOf(p) == front + [Enter(href)]
      ensures var q := Followed(v, p, log', |log|); q.Some? && StackOf(q.value) == stack'
    {
      TopEnters(p, front, href);
      OpensStack(p, href, childs);
      FollowedSnoc(v, p, log, |log|, BranchEnter(href, childs));
    }
  }

  lemma AnsweredChain(v: Visitor, a: History, b: History, c: History)
    requires Answered(v, a, b) && Answered(v, b, c) && a <= b <= c
    ensures Answered(v, a, c)
  {
    forall i | |a| <= i < |c|
      ensures AnsweredAt(v, |a|, c, i)
    {
      if i < |b| {
        assert AnsweredAt(v, |a|, b, i);
        assert c[..i] == b[..i] && c[..i + 1] == b[..i + 1];
      } else {
        assert AnsweredAt(v, |b|, c, i);
      }
    }
  }

  lemma NothingShown(v: Visitor, st: Store, log: History)
    ensures Answered(v, log, log) && Genuine(st, log, log)
  {
  }

  lemma BranchShown(v: Visitor, st: Store, log: History, e: Event)
    requires e.BranchEnter? || e.BranchLeave? || (e.LeafEnter? && !v(log + [e]))
    requires EventOk(st, e)
    ensures Answered(v, log, log + [e]) && Genuine(st, log, log + [e])
  {
    assert (log + [e])[..|log| + 1] == log + [e];
  }

  lemma LeafShown(v: Visitor, st: Store, log: History, href: HashRef, chunk: Chunk)
    requires v(log + [LeafEnter(href)]) && EventOk(st, LeafLeave(href, chunk))
    ensures var log' := log + [LeafEnter(href)] + [LeafLeave(href, chunk)];
      Answered(v, log, log') && Genuine(st, log, log')
  {
    var log' := log + [LeafEnter(href)] + [LeafLeave(href, chunk)];
    assert log'[..|log| + 1] == log + [LeafEnter(href)];
    assert AnsweredAt(v, |log|, log', |log|) && AnsweredAt(v, |log|, log', |log| + 1);
  }

  /** The node an event enters, if any. */
  function EnteredBy(e: Event): multiset<HashRef> {
    if e.BranchEnter? || e.LeafEnter? then multiset{e.href} else multiset{}
  }

  function LeftBy(e: Event): multiset<HashRef> {
    if e.BranchLeave? then multiset{e.href} else multiset{}
  }

  /** The branch the visitor said yes to. */
  function AcceptedBy(e: Event, reply: bool): multiset<HashRef> {
    if e.BranchEnter? && reply then multiset{e.href} else multiset{}
  }

  /** The children of that branch. */
  function OfferedBy(e: Event, reply: bool): multiset<HashRef> {
    if e.BranchEnter? && reply then multiset(e.childs) else multiset{}
  }

  /** The nodes entered from the `n`-th event on. */
  function Entered(log: History, n: nat): multiset<HashRef> {
    if |log| <= n then multiset{} else Entered(log[..|log| - 1], n) + EnteredBy(log[|log| - 1])
  }

  /** The branches left. */
  function LeftBranches(log: History, n: nat): multiset<HashRef> {
    if |log| <= n then multiset{} else LeftBranches(log[..|log| - 1], n) + LeftBy(log[|log| - 1])
  }

  /** The branches the visitor said yes to. */
  function Accepted(v: Visitor, log: History, n: nat): multiset<HashRef> {
    if |log| <= n then multiset{} else Accepted(v, log[..|log| - 1], n) + AcceptedBy(log[|log| - 1], v(log))
  }

  /** The children of those branches. */
  function Offered(v: Visitor, log: History, n: nat): multiset<HashRef> {
    if |log| <= n then multiset{} else Offered(v, log[..|log| - 1], n) + OfferedBy(log[|log| - 1], v(log))
  }

  /** The nodes a traversal still has to enter. */
  function Awaited(p: Place): multiset<HashRef>
    decreases |p.outer|
  {
    multiset(p.left) +
    (if p.outer == [] then multiset{} else Awaited(Place(p.outer[|p.outer| - 1].1, p.outer[..|p.outer| - 1])))
  }

  /** The branches it still has to leave. */
  function ToLeave(p: Place): multiset<HashRef>
    decreases |p.outer|
  {
    if p.outer == [] then multiset{}
    else multiset{p.outer[|p.outer| - 1].0} + ToLeave(Place(p.outer[|p.outer| - 1].1, p.outer[..|p.outer| - 1]))
  }

  lemma AwaitedHead(p: Place)
    requires p.left != []
    ensures Awaited(p) == multiset{p.left[0]} + Awaited(p.(left := p.left[1..]))
    ensures ToLeave(p) == ToLeave(p.(left := p.left[1..]))
  {
    assert p.left == [p.left[0]] + p.left[1..];
  }

  lemma AwaitedInside(p: Place, href: HashRef, childs: seq<HashRef>)
    ensures var q := Place(childs, p.outer + [(href, p.left)]);
      Awaited(q) == multiset(childs) + Awaited(p) && ToLeave(q) == multiset{href} + ToLeave(p)
  {
    assert (p.outer + [(href, p.left)])[..|p.outer|] == p.outer;
  }

  /** One event moves nodes between what is awaited and what was entered, and branches between what is to be
      left and what was. */
  lemma MovedConserves(p: Place, e: Event, reply: bool)
    requires Moved(p, e, reply).Some?
    ensures var q := Moved(p, e, reply).value;
      && EnteredBy(e) + Awaited(q) == Awaited(p) + OfferedBy(e, reply)
      && LeftBy(e) + ToLeave(q) == ToLeave(p) + AcceptedBy(e, reply)
  {
    hide Awaited, ToLeave;
    match e
    case LeafEnter(h) => AwaitedHead(p);
    case LeafLeave(_, _) =>
    case BranchEnter(h, childs) =>
      AwaitedHead(p);
      if reply { AwaitedInside(p.(left := p.left[1..]), h, childs); }
    case BranchLeave(h) => AwaitedOutside(p);
  }

  lemma AwaitedOutside(p: Place)
    requires p.left == [] && p.outer != []
    ensures var n := |p.outer| - 1; var q := Place(p.outer[n].1, p.outer[..n]);
      Awaited(p) == Awaited(q) && ToLeave(p) == multiset{p.outer[n].0} + ToLeave(q)
  {
  }

  lemma Balance<T>(e: multiset<T>, a: multiset<T>, p: multiset<T>, o: multiset<T>, e1: multiset<T>, a1: multiset<T>,
                   o1: multiset<T>)
    requires e + a == p + o && e1 + a1 == a + o1
    ensures (e + e1) + a1 == p + (o + o1)
  {
    assert (e + e1) + a1 == e + (e1 + a1);
    assert e + (a + o1) == (e + a) + o1;
  }

  /** Along every history: the nodes entered are those that were awaited and the children of the branches the
      visitor said yes to, and of the others only those still awaited have not been; the branches left are
      those it said yes to, but for those still to be left. */
  lemma {:induction false} HistoryConserves(v: Visitor, p: Place, log: History, n: nat)
    requires Followed(v, p, log, n).Some?
    ensures var q := Followed(v, p, log, n).value;
      && Entered(log, n) + Awaited(q) == Awaited(p) + Offered(v, log, n)
      && LeftBranches(log, n) + ToLeave(q) == ToLeave(p) + Accepted(v, log, n)
    decreases |log|
  {
    hide Moved, Awaited, ToLeave, EnteredBy, LeftBy, AcceptedBy, OfferedBy;
    if |log| <= n {
      assert multiset{} + Awaited(p) == Awaited(p) + multiset{};
      assert multiset{} + ToLeave(p) == ToLeave(p) + multiset{};
    } else {
      var before, e := log[..|log| - 1], log[|log| - 1];
      HistoryConserves(v, p, before, n);
      var m := Followed(v, p, before, n).value;
      MovedConserves(m, e, v(log));
      var q := Moved(m, e, v(log)).value;
      Balance(Entered(before, n), Awaited(m), Awaited(p), Offered(v, before, n), EnteredBy(e), Awaited(q),
        OfferedBy(e, v(log)));
      Balance(LeftBranches(before, n), ToLeave(m), ToLeave(p), Accepted(v, before, n), LeftBy(e), ToLeave(q),
        AcceptedBy(e, v(log)));
    }
  }

  lemma EmptyStack(p: Place)
    requires StackOf(p) == []
    ensures p == Place([], [])
  {
  }

  /** A walk from a root to its end, whatever the visitor and however often it was stopped and resumed: the
      nodes entered are the root and, once for each time, the children of the branches the visitor said yes
      to; and exactly those branches are left. So nothing is entered on account of a branch it declined,
      and such a branch is never left. */
  lemma WalkConserves(v: Visitor, root: HashRef, log: History)
    requires Orderly(v, [], [Enter(root)], log, [])
    ensures Entered(log, 0) == multiset{root} + Offered(v, log, 0)
    ensures LeftBranches(log, 0) == Accepted(v, log, 0)
  {
    hide Followed, Entered, Offered, LeftBranches, Accepted;
    var p := Place([root], []);
    NewPlace(root);
    EmptyStack(Followed(v, p, log, 0).value);
    HistoryConserves(v, p, log, 0);
    assert Entered(log, 0) + multiset{} == Entered(log, 0) && LeftBranches(log, 0) + multiset{} == LeftBranches(log, 0);
    assert multiset{} + Accepted(v, log, 0) == Accepted(v, log, 0);
  }

  lemma NewPlace(root: HashRef)
    ensures var p := Place([root], []); StackOf(p) == [Enter(root)] && Awaited(p) == multiset{root}
    ensures ToLeave(Place([root], [])) == ToLeave(Place([], [])) == Awaited(Place([], [])) == multiset{}
  {
    assert [root][1..] == [];
    assert EnterReversed([root]) == EnterReversed([]) + [Enter(root)];
  }

  lemma GenuineChain(st: Store, a: History, b: History, c: History)
    requires Genuine(st, a, b) && Genuine(st, b, c) && a <= b <= c
    ensures Genuine(st, a, c)
  {
    forall i | |a| <= i < |c|
      ensures EventOk(st, c[i])
    {
      if i < |b| { assert c[i] == b[i]; }
    }
  }

  // ---------------------------------------------------------------- the stack machine

  class Walker {
    const backend: ChunkStore
    var stack: seq<StackItem>
    ghost var todo: seq<Task>

    ghost predicate Valid()
      reads this, backend
    {
      && backend.Valid()
      && TasksOk(backend.rows, todo)
      && |stack| == |todo| && forall i | 0 <= i < |todo| :: stack[i] == todo[i].Item()
    }

    constructor (backend: ChunkStore, root: HashRef, ghost t: Tree)
      requires backend.Valid() && Represents(backend.rows, root, t) && WellFormed(t)
      ensures Valid() && this.backend == backend && todo == [Visit(root, t)]
    {
      this.backend := backend;
      stack := [Enter(root)];
      todo := [Visit(root, t)];
    }

    method Pop() returns (item: StackItem, ghost d: Task)
      requires Valid() && stack != []
      modifies this
      ensures Valid() && old(todo) == todo + [d] && item == d.Item() && TaskOk(backend.rows, d)
      ensures old(stack) == stack + [item]
    {
      item, d := stack[|stack| - 1], todo[|todo| - 1];
      assert TaskOk(backend.rows, d);
      stack, todo := stack[..|stack| - 1], todo[..|todo| - 1];
    }

    /** Put a branch that was entered back on the stack, to be left, and its children above it. */
    method Open(href: HashRef, childs: seq<HashRef>, ghost t: Tree)
      requires Valid() && TaskOk(backend.rows, Visit(href, t)) && t.Branch?
      requires childs == backend.rows[href.hash].data.refs
      modifies this
      ensures Valid() && todo == Opened(backend.rows, old(todo), Visit(href, t))
      ensures stack == old(stack) + [LeaveBranch(href)] + EnterReversed(childs)
    {
      OpenedOk(backend.rows, todo, Visit(href, t));
      ChildTasksItems(childs, t.kids);
      todo := Opened(backend.rows, todo, Visit(href, t));
      stack := stack + [LeaveBranch(href)] + EnterReversed(childs);
    }

    /** Process one node that was just popped: `todo` is what lies below it. */
    method EnterNode(v: Visitor, log: History, href: HashRef, ghost t: Tree) returns (log': History, stop: bool)
      requires Valid() && TaskOk(backend.rows, Visit(href, t))
      modifies this
      ensures Valid() && log < log' && stop == Stops(v, log') && Uninterrupted(v, log, log')
      ensures Answered(v, log, log') && Genuine(backend.rows, log, log')
      ensures Orderly(v, log, old(stack) + [Enter(href)], log', stack)
      ensures EntersOne(log, log', Some(href.hash))
      ensures Rest(backend.rows, v, todo, log') ==
          Rest(backend.rows, v, old(todo), Visited(backend.rows, v, href, t, log))
      ensures todo == old(todo) || (t.Branch? && todo == Opened(backend.rows, old(todo), Visit(href, t)))
      ensures LeafLike(v) ==> if t.Leaf? then stop else !stop && todo == Opened(backend.rows, old(todo), Visit(href, t))
    {
      hide Orderly, Answered, Genuine, EntersOne;
      backend.FetchRepresented(href, t);
      if href.node == 0 {
        log' := log + [LeafEnter(href)];
        stop := false;
        OrderlyLeaf(v, log, stack, href);
        OneEntered(log, LeafEnter(href));
        if v(log') {
          ghost var entered := log';
          var data := backend.FetchChunk(href).value;
          log' := log' + [LeafLeave(href, data.chunk)];
          stop := v(log');
          LeafShown(v, backend.rows, log, href, data.chunk);
          ReadEntersNone(log, entered, href, data.chunk, Some(href.hash));
          OrderlyRead(v, entered, stack, href, data.chunk);
          OrderlyChain(v, log, stack + [Enter(href)], entered, stack, log', stack);
        } else {
          BranchShown(v, backend.rows, log, LeafEnter(href));
        }
      } else {
        var childs := backend.FetchChunk(href).value.refs;
        log' := log + [BranchEnter(href, childs)];
        stop := false;
        BranchShown(v, backend.rows, log, BranchEnter(href, childs));
        OneEntered(log, BranchEnter(href, childs));
        OrderlyBranch(v, log, stack, href, childs);
        if v(log') {
          OpenedRest(backend.rows, v, todo, Visit(href, t), log);
          Open(href, childs, t);
        }
      }
    }

    /** Enter the node `d`, just popped, unless it is the first node of this call again. */
    method TurnVisit(v: Visitor, log: History, href: HashRef, cycleStart: Option<Bytes>, ghost d: Task, ghost g: Guard)
      returns (log': History, stop: bool, crashed: bool, ghost g': Guard)
      requires Valid() && d.Visit? && d.href == href && TaskOk(backend.rows, d) && Guarded(backend.rows, todo + [d], g)
      requires cycleStart == if g.first.None? then None else Some(g.first.value.href.hash)
      requires g.leafy ==> LeafLike(v)
      modifies this
      ensures Valid() && Work(todo) < Work(old(todo) + [d]) && Uninterrupted(v, log, log')
      ensures Answered(v, log, log') && Genuine(backend.rows, log, log')
      ensures !crashed ==> Orderly(v, log, old(stack) + [Enter(href)], log', stack)
      ensures if crashed then log' == log && stack == old(stack) && cycleStart == Some(href.hash)
              else EntersOne(log, log', Some(href.hash)) && cycleStart != Some(href.hash)
      ensures !crashed ==> log < log' && stop == Stops(v, log')
      ensures !crashed ==>
        Rest(backend.rows, v, todo, log') ==
          Rest(backend.rows, v, old(todo), Visited(backend.rows, v, href, d.tree, log))
      ensures crashed ==> !g.single && !g.leafy
      ensures g'.single == g.single && g'.leafy == g.leafy && (g.leafy ==> SparseTasks(todo))
      ensures g'.first == if g.first.Some? then g.first else Some(d)
      ensures crashed || stop || Guarded(backend.rows, todo, g')
    {
      hide Orderly, Answered, Genuine, EntersOne;
      NothingShown(v, backend.rows, log);
      ghost var front := todo;
      TaskSnoc(front, d, 0);
      crashed := cycleStart == Some(href.hash);
      if crashed {
        GuardRepeat(backend.rows, front, d, g);
        log', stop, g' := log, false, g;
      } else {
        log', stop := EnterNode(v, log, href, d.tree);
        if d.tree.Branch? { OpenedMeasures(backend.rows, front, d, 0); }
        g' := GuardEnter(backend.rows, front, d, g, todo);
      }
    }

    /** The node on top of the stack is the first one entered from the `n`-th event on. */
    static ghost predicate Repeats(log: History, n: nat, stack: seq<StackItem>, stack': seq<StackItem>) {
      exists href :: stack == stack' + [Enter(href)] && FirstEntered(log, n) == Some(href.hash)
    }

    /** One turn of the loop: pop an item and act on it. */
    method Turn(v: Visitor, log: History, cycleStart: Option<Bytes>, ghost g: Guard, ghost n: nat)
      returns (log': History, stop: bool, cycleStart': Option<Bytes>, crashed: bool, ghost g': Guard)
      requires Valid() && stack != [] && Guarded(backend.rows, todo, g)
      requires cycleStart == if g.first.None? then None else Some(g.first.value.href.hash)
      requires g.leafy ==> LeafLike(v)
      requires n <= |log| && cycleStart == FirstEntered(log, n) && NoCycle(log, n)
      modifies this
      ensures Valid() && Work(todo) < Work(old(todo)) && Uninterrupted(v, log, log')
      ensures Answered(v, log, log') && Genuine(backend.rows, log, log')
      ensures !crashed ==> Orderly(v, log, old(stack), log', stack)
      ensures if crashed then log' == log && Repeats(log, n, old(stack), stack)
              else cycleStart' == FirstEntered(log', n) && NoCycle(log', n)
      ensures !crashed ==> log < log' && stop == Stops(v, log')
      ensures !crashed ==> Rest(backend.rows, v, todo, log') == Rest(backend.rows, v, old(todo), log)
      ensures crashed ==> !g.single && !g.leafy
      ensures g'.single == g.single && g'.leafy == g.leafy && (g.leafy ==> SparseTasks(todo))
      ensures cycleStart' == if g'.first.None? then None else Some(g'.first.value.href.hash)
      ensures crashed || stop || Guarded(backend.rows, todo, g')
    {
      hide Orderly, Answered, Genuine, FirstEntered, NoCycle;
      var item; ghost var d;
      item, d := Pop();
      if item.LeaveBranch? {
        TaskSnoc(todo, d, 0);
        GuardLeave(backend.rows, todo, d, g);
        log' := log + [BranchLeave(item.href)];
        BranchShown(v, backend.rows, log, BranchLeave(item.href));
        OneEntered(log, BranchLeave(item.href));
        OrderlyLeave(v, log, stack, item.href);
        stop, cycleStart', crashed, g' := v(log'), cycleStart, false, g;
      } else {
        log', stop, crashed, g' := TurnVisit(v, log, item.href, cycleStart, d, g);
        cycleStart' := if cycleStart.None? then Some(item.href.hash) else cycleStart;
      }
    }

    /** When the cycle assertion cannot fire: the first call on a new walker, whatever the visitor,
        and every call for a visitor that stops at each leaf of a sparse tree. */
    ghost predicate CycleFree(v: Visitor)
      reads this
    {
      |todo| <= 1 || (LeafLike(v) && SparseTasks(todo))
    }

    /** The walk stands where the next node to enter is the first one it entered. */
    static ghost predicate CrashedAt(v: Visitor, log: History, stack: seq<StackItem>, log': History,
                                     stack': seq<StackItem>)
    {
      exists s :: Orderly(v, log, stack, log', s) && Repeats(log', |log|, s, stack')
    }

    static lemma CrashesAt(v: Visitor, log: History, stack: seq<StackItem>, log': History, s: seq<StackItem>,
                           stack': seq<StackItem>)
      requires Orderly(v, log, stack, log', s) && Repeats(log', |log|, s, stack')
      ensures CrashedAt(v, log, stack, log', stack')
    {
    }

    /**
      Work until the visitor stops or the stack runs dry. `crashed` reports that the cycle assertion
      fired: a node entered in this call was the same as the first one entered.
    */
    method Resume(v: Visitor, log: History) returns (progress: bool, log': History, crashed: bool)
      requires Valid()
      modifies this
      ensures Valid() && progress == (old(todo) != []) && Uninterrupted(v, log, log')
      ensures Answered(v, log, log') && Genuine(backend.rows, log, log')
      ensures NoCycle(log', |log|)
      ensures if crashed then CrashedAt(v, log, old(stack), log', stack) else Orderly(v, log, old(stack), log', stack)
      ensures !crashed ==> log' <= Rest(backend.rows, v, todo, log') == Rest(backend.rows, v, old(todo), log)
      ensures !crashed && stack != [] ==> log < log' && Stops(v, log')
      ensures if progress then Work(todo) < Work(old(todo)) else todo == []
      ensures old(CycleFree(v)) ==> !crashed
      ensures LeafLike(v) && SparseTasks(old(todo)) ==> SparseTasks(todo)
    {
      hide Orderly, Answered, Genuine, FirstEntered, NoCycle, CrashedAt;
      NothingEntered(log);
      progress, log', crashed := stack != [], log, false;
      OrderlySelf(v, log, stack);
      NothingShown(v, backend.rows, log);
      ghost var g := Guard(None, 0, |todo| <= 1, LeafLike(v) && SparseTasks(todo));
      ghost var start, goal := todo, Rest(backend.rows, v, todo, log);
      var cycleStart: Option<Bytes> := None;
      var stop := false;
      while stack != [] && !stop
        invariant Valid() && Uninterrupted(v, log, log')
        invariant Answered(v, log, log') && Genuine(backend.rows, log, log') && Orderly(v, log, old(stack), log', stack)
        invariant Rest(backend.rows, v, todo, log') == goal
        invariant if stop then log < log' && Stops(v, log') else log == log' || !Stops(v, log')
        invariant if log == log' then todo == start else Work(todo) < Work(start)
        invariant g.single == (|start| <= 1) && g.leafy == (LeafLike(v) && SparseTasks(start))
        invariant g.leafy ==> SparseTasks(todo)
        invariant cycleStart == if g.first.None? then None else Some(g.first.value.href.hash)
        invariant |log| <= |log'| && cycleStart == FirstEntered(log', |log|) && NoCycle(log', |log|)
        invariant stop || Guarded(backend.rows, todo, g)
        decreases Work(todo)
      {
        ghost var mid, was := log', stack;
        log', stop, cycleStart, crashed, g := Turn(v, log', cycleStart, g, |log|);
        UninterruptedChain(v, log, mid, log');
        AnsweredChain(v, log, mid, log');
        GenuineChain(backend.rows, log, mid, log');
        if crashed {
          CrashesAt(v, log, old(stack), log', was, stack);
          return;
        }
        OrderlyChain(v, log, old(stack), mid, was, log', stack);
      }
      RestExtends(backend.rows, v, todo, log');
    }
  }

  // ---------------------------------------------------------------- leaf by leaf

  function LogLeaves(log: History): seq<Chunk> {
    if log == [] then []
    else LogLeaves(log[..|log| - 1]) + (if log[|log| - 1].LeafLeave? then [log[|log| - 1].chunk] else [])
  }

  lemma LogLeavesSnoc(log: History, e: Event)
    ensures LogLeaves(log + [e]) == LogLeaves(log) + (if e.LeafLeave? then [e.chunk] else [])
  {
  }

  lemma {:induction false} LogLeavesAppend(a: History, b: History)
    ensures LogLeaves(a + b) == LogLeaves(a) + LogLeaves(b)
  {
    if b == [] {
      assert a + b == a;
    } else {
      assert (a + b)[..|a + b| - 1] == a + b[..|b| - 1];
      LogLeavesAppend(a, b[..|b| - 1]);
    }
  }

  lemma {:induction false} VisitedLeaves(st: Store, href: HashRef, t: Tree, log: History)
    requires Represents(st, href, t)
    ensures LogLeaves(Visited(st, LeafVisitor, href, t, log)) == LogLeaves(log) + Leaves(t)
    decreases t, 1
  {
    match t
    case Leaf(c) =>
      LogLeavesSnoc(log, LeafEnter(href));
      LogLeavesSnoc(log + [LeafEnter(href)], LeafLeave(href, c));
    case Branch(_, kids) =>
      var refs := st[href.hash].data.refs;
      var entered := log + [BranchEnter(href, refs)];
      var inner := VisitedAll(st, LeafVisitor, refs, kids, entered);
      assert Visited(st, LeafVisitor, href, t, log) == inner + [BranchLeave(href)];
      assert LogLeaves(entered) == LogLeaves(log) by { LogLeavesSnoc(log, BranchEnter(href, refs)); }
      VisitedAllLeaves(st, refs, kids, entered);
      LogLeavesSnoc(inner, BranchLeave(href));
  }

  lemma {:induction false} VisitedAllLeaves(st: Store, refs: seq<HashRef>, ts: seq<Tree>, log: History)
    requires RepresentAll(st, refs, ts)
    ensures LogLeaves(VisitedAll(st, LeafVisitor, refs, ts, log)) == LogLeaves(log) + LeavesAll(ts)
    decreases ts, 0
  {
    if ts != [] {
      var next := Visited(st, LeafVisitor, refs[0], ts[0], log);
      VisitedLeaves(st, refs[0], ts[0], log);
      VisitedAllLeaves(st, refs[1..], ts[1..], next);
      assert VisitedAll(st, LeafVisitor, refs, ts, log) == VisitedAll(st, LeafVisitor, refs[1..], ts[1..], next);
      assert LeavesAll(ts) == Leaves(ts[0]) + LeavesAll(ts[1..]);
    }
  }

  lemma {:induction false} RestLeaves(st: Store, todo: seq<Task>, log: History)
    requires TasksOk(st, todo)
    ensures LogLeaves(Rest(st, LeafVisitor, todo, log)) == LogLeaves(log) + TasksLeaves(todo)
    decreases |todo|
  {
    if todo != [] {
      var front, d := todo[..|todo| - 1], todo[|todo| - 1];
      assert TaskOk(st, d);
      var here := if d.Visit? then Leaves(d.tree) else [];
      var next := if d.Visit? then Visited(st, LeafVisitor, d.href, d.tree, log) else log + [BranchLeave(d.href)];
      if d.Visit? { VisitedLeaves(st, d.href, d.tree, log); } else { LogLeavesSnoc(log, BranchLeave(d.href)); }
      calc {
        LogLeaves(Rest(st, LeafVisitor, todo, log));
        LogLeaves(Rest(st, LeafVisitor, front, next));
        { RestLeaves(st, front, next); }
        LogLeaves(next) + TasksLeaves(front);
        (LogLeaves(log) + here) + TasksLeaves(front);
        LogLeaves(log) + (here + TasksLeaves(front));
        LogLeaves(log) + TasksLeaves(todo);
      }
    }
  }

  lemma Cancel<T>(a: seq<T>, b: seq<T>, c: seq<T>)
    requires a + b == a + c
    ensures b == c
  {
    assert b == (a + b)[|a|..];
    assert c == (a + c)[|a|..];
  }

  /** A stretch of work moves chunks from the stack to the history without losing or reordering any. */
  lemma StretchLeaves(st: Store, before: seq<Task>, log: History, after: seq<Task>, log': History)
    requires TasksOk(st, before) && TasksOk(st, after) && log <= log'
    requires Rest(st, LeafVisitor, after, log') == Rest(st, LeafVisitor, before, log)
    ensures TasksLeaves(before) == LogLeaves(log'[|log|..]) + TasksLeaves(after)
  {
    hide Rest, LogLeaves, TasksLeaves, TasksOk;
    var l, n, t := LogLeaves(log), LogLeaves(log'[|log|..]), TasksLeaves(after);
    RestLeaves(st, before, log);
    RestLeaves(st, after, log');
    SplitLog(log, log');
    Associate(l, n, t);
    Cancel(l, TasksLeaves(before), n + t);
  }

  lemma SplitLog(log: History, log': History)
    requires log <= log'
    ensures LogLeaves(log') == LogLeaves(log) + LogLeaves(log'[|log|..])
  {
    hide LogLeaves;
    assert log' == log + log'[|log|..];
    LogLeavesAppend(log, log'[|log|..]);
  }

  lemma Associate<T>(a: seq<T>, b: seq<T>, c: seq<T>)
    ensures (a + b) + c == a + (b + c)
  {
  }

  lemma SingleTask(root: HashRef, t: Tree)
    requires forall x: nat :: Leafless(t, x) <= 1
    ensures SparseTasks([Visit(root, t)]) && TasksLeaves([Visit(root, t)]) == Leaves(t)
  {
  }

  class LeafIterator {
    const walker: Walker
    var log: History
    var leafs: seq<Chunk>

    ghost predicate Valid()
      reads this, walker, walker.backend
    {
      walker.Valid() && SparseTasks(walker.todo)
    }

    /** The chunks the iterator will still hand out. */
    ghost function Pending(): seq<Chunk>
      reads this, walker
    {
      leafs + TasksLeaves(walker.todo)
    }

    constructor (backend: ChunkStore, root: HashRef, ghost t: Tree)
      requires backend.Valid() && Represents(backend.rows, root, t) && WellFormed(t)
      requires forall x: nat :: Leafless(t, x) <= 1
      ensures Valid() && Pending() == Leaves(t) && fresh(walker) && walker.backend == backend
    {
      walker := new Walker(backend, root, t);
      log, leafs := [], [];
      new;
      SingleTask(root, t);
    }

    /** The next chunk, if any; the walker's cycle assertion never fires on the way. */
    method Next() returns (r: Option<Chunk>)
      requires Valid()
      modifies this, walker
      ensures Valid()
      ensures r == if old(Pending()) == [] then None else Some(old(Pending())[0])
      ensures Pending() == if old(Pending()) == [] then [] else old(Pending())[1..]
    {
      ghost var goal := Pending();
      var more := true;
      while leafs == [] && more
        invariant Valid() && Pending() == goal
        invariant more || walker.todo == []
        decreases more, Work(walker.todo)
      {
        more := Fetch();
      }
      if leafs == [] {
        r := None;
      } else {
        r := Some(leafs[0]);
        leafs := leafs[1..];
      }
    }

    method Fetch() returns (progress: bool)
      requires Valid()
      modifies this, walker
      ensures Valid() && Pending() == old(Pending())
      ensures if progress then Work(walker.todo) < Work(old(walker.todo)) else walker.todo == []
    {
      hide Orderly, Answered, Genuine;
      ghost var before := walker.todo;
      var log', crashed;
      progress, log', crashed := walker.Resume(LeafVisitor, log);
      StretchLeaves(walker.backend.rows, before, log, walker.todo, log');
      leafs := leafs + LogLeaves(log'[|log|..]);
      log := log';
    }
  }
}
