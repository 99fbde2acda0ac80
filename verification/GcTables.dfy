/**
  The database tables the garbage collector works on, as values.

  A hash row is named by its local id and carries its tag, its reference count (the collector's
  metadata of the one constant family), its height and the ids of its children.
*/
module GcTables {
  import opened Common
  import opened Tags

  type Id = nat

  datatype HashRow = HashRow(tag: Tag, count: int, height: nat, childs: seq<Id>, blob: Option<Bytes>)

  type HashRows = map<Id, HashRow>

  type Sid = nat

  /** The root of a committed snapshot: its hash row, and all hash rows a listing of it names. */
  datatype Top = Top(id: Id, refs: set<Id>)

  datatype SnapRow = SnapRow(tag: Tag, top: Option<Top>)

  datatype Tables = Tables(hashes: HashRows, snaps: map<Sid, SnapRow>)

  function SetTag(h: HashRows, id: Id, t: Tag): HashRows {
    if id in h then h[id := h[id].(tag := t)] else h
  }

  function TagSet(h: HashRows, ids: set<Id>, t: Tag): HashRows {
    map id | id in h :: if id in ids then h[id].(tag := t) else h[id]
  }

  function SetAllTags(h: HashRows, t: Tag): HashRows {
    map id | id in h :: h[id].(tag := t)
  }

  function Bump(h: HashRows, ids: set<Id>, d: int): HashRows {
    map id | id in h :: if id in ids then h[id].(count := h[id].count + d) else h[id]
  }

  function Tagged(h: HashRows, t: Tag): set<Id> {
    set id | id in h && h[id].tag == t
  }

  function SnapTag(t: Tables, s: Sid, tag: Tag): Tables {
    if s in t.snaps then t.(snaps := t.snaps[s := t.snaps[s].(tag := tag)]) else t
  }

  function SnapTop(t: Tables, s: Sid, top: Top): Tables {
    if s in t.snaps then t.(snaps := t.snaps[s := t.snaps[s].(top := Some(top))]) else t
  }

  function AllDone(t: Tables): Tables {
    t.(hashes := SetAllTags(t.hashes, Done))
  }

  function Removed(t: Tables, s: Sid): Tables {
    t.(snaps := t.snaps - {s})
  }

  /** Children are known rows. Nothing here keeps the child graph from having cycles. */
  ghost predicate ChildsAreRows(h: HashRows) {
    forall id, c | id in h && c in h[id].childs :: c in h
  }

  /** Children that are rows are lower, as in every table built from hash trees. */
  ghost predicate HeightsFall(h: HashRows) {
    forall id, c | id in h && c in h[id].childs && c in h :: h[c].height < h[id].height
  }

  ghost predicate Closed(h: HashRows) {
    ChildsAreRows(h) && HeightsFall(h)
  }

  /** Same rows up to tags. */
  ghost predicate SameGraph(h: HashRows, h': HashRows) {
    h.Keys == h'.Keys && forall id | id in h :: h'[id] == h[id].(tag := h'[id].tag)
  }

  // ---------------------------------------------------------------- reachability

  ghost predicate Path(h: HashRows, p: seq<Id>) {
    && p != [] && (forall i | 0 <= i < |p| :: p[i] in h)
    && forall i | 0 <= i < |p| - 1 :: p[i + 1] in h[p[i]].childs
  }

  ghost predicate Reaches(h: HashRows, a: Id, b: Id) {
    exists p :: Path(h, p) && p[0] == a && p[|p| - 1] == b
  }

  /** Reachable from some row with a positive count. */
  ghost predicate Used(h: HashRows, id: Id) {
    exists r :: r in h && h[r].count > 0 && Reaches(h, r, id)
  }

  lemma ReachesSelf(h: HashRows, a: Id)
    requires a in h
    ensures Reaches(h, a, a)
  {
    assert Path(h, [a]);
  }

  lemma ReachesStep(h: HashRows, a: Id, b: Id, c: Id)
    requires Reaches(h, a, b) && c in h && c in h[b].childs
    ensures Reaches(h, a, c)
  {
    var p :| Path(h, p) && p[0] == a && p[|p| - 1] == b;
    assert Path(h, p + [c]);
    assert (p + [c])[|p|] == c;
  }

  /** A set closed under children contains everything reachable from its members. */
  lemma {:induction false} ClosedSetContains(h: HashRows, m: set<Id>, p: seq<Id>)
    requires Path(h, p) && p[0] in m
    requires forall x, c | x in m && x in h && c in h[x].childs :: c in m
    ensures p[|p| - 1] in m
    decreases |p|
  {
    if |p| > 1 {
      assert p[1] in h[p[0]].childs;
      forall i | 0 <= i < |p[1..]| - 1
        ensures p[1..][i + 1] in h[p[1..][i]].childs
      {
        assert p[(i + 1) + 1] in h[p[i + 1]].childs;
      }
      ClosedSetContains(h, m, p[1..]);
    }
  }

  /** A path that meets no row carrying `tag` after its start. */
  ghost predicate FreshPath(h: HashRows, p: seq<Id>, tag: Tag) {
    Path(h, p) && forall i | 1 <= i < |p| :: p[i] !in Tagged(h, tag)
  }

  ghost predicate FreshReaches(h: HashRows, a: Id, b: Id, tag: Tag) {
    exists p :: FreshPath(h, p, tag) && p[0] == a && p[|p| - 1] == b
  }

  ghost function FreshFrom(h: HashRows, root: Id, tag: Tag): set<Id> {
    set x | x in h && FreshReaches(h, root, x, tag)
  }

  lemma UsedIsRow(h: HashRows, id: Id)
    requires Used(h, id)
    ensures id in h
  {
  }

  lemma UsedChild(h: HashRows, id: Id, c: Id)
    requires ChildsAreRows(h) && id in h && Used(h, id) && c in h[id].childs
    ensures Used(h, c)
  {
    var r :| r in h && h[r].count > 0 && Reaches(h, r, id);
    ReachesStep(h, r, id, c);
  }

  ghost function UsedSet(h: HashRows): set<Id> {
    set id | id in h && Used(h, id)
  }

  /** The hash table once the mark phase is over: in-use rows are `Reserved`, the rest `Done`. */
  ghost function MarkUsed(h: HashRows): HashRows {
    TagSet(SetAllTags(h, Done), UsedSet(h), Reserved)
  }

  ghost function Unused(h: HashRows): set<Id> {
    h.Keys - UsedSet(h)
  }

  /** The hash table after a collection. */
  ghost function Swept(h: HashRows): HashRows {
    map id | id in UsedSet(h) :: h[id].(tag := Reserved)
  }

  /** Whatever the child graph looks like, what a collection keeps has all its children. */
  lemma SweptClosed(h: HashRows)
    requires ChildsAreRows(h)
    ensures ChildsAreRows(Swept(h)) && (HeightsFall(h) ==> HeightsFall(Swept(h)))
  {
    forall id, c | id in Swept(h) && c in Swept(h)[id].childs
      ensures c in Swept(h)
    {
      UsedChild(h, id, c);
    }
  }

  // ---------------------------------------------------------------- deletion order

  /** Highest first. */
  ghost predicate TopDown(h: HashRows, ids: seq<Id>) {
    && (forall id | id in ids :: id in h)
    && (forall i, j | 0 <= i < j < |ids| :: h[ids[i]].height >= h[ids[j]].height)
  }

  function Elems(ids: seq<Id>): set<Id> {
    set id | id in ids
  }

  lemma UnusedParents(h: HashRows)
    requires ChildsAreRows(h)
    ensures forall id, c | id in h && c in h[id].childs && c in Unused(h) :: id in Unused(h)
  {
    forall id, c | id in h && c in h[id].childs && c in Unused(h)
      ensures id in Unused(h)
    {
      if Used(h, id) { UsedChild(h, id, c); }
    }
  }

  function Without(h: HashRows, ids: set<Id>): HashRows {
    map id | id in h && id !in ids :: h[id]
  }

  lemma DeletedParent(h: HashRows, ids: seq<Id>, n: nat, id: Id, c: Id)
    requires Closed(h) && TopDown(h, ids) && n <= |ids|
    requires id in h && id in ids && c in h[id].childs && c in ids[..n]
    ensures id in ids[..n]
  {
  }

  /** Deleting the unused rows highest first never leaves a row with a missing child on the way. */
  lemma TopDownDeletionClosed(h: HashRows, ids: seq<Id>, n: nat)
    requires Closed(h) && TopDown(h, ids) && Elems(ids) == Unused(h) && n <= |ids|
    ensures Closed(Without(h, Elems(ids[..n])))
  {
    var rest := Without(h, Elems(ids[..n]));
    UnusedParents(h);
    forall id, c | id in rest && c in rest[id].childs
      ensures c in rest && rest[c].height < rest[id].height
    {
      if c in ids[..n] {
        assert c in ids;
        assert c in Unused(h);
        assert id in ids;
        DeletedParent(h, ids, n, id, c);
      }
    }
  }
}
