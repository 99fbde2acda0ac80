/**
  The content-addressed store behind a hash tree, and the streaming writer that fills it.

  Rows are keyed by fingerprint. `Represents` says that a reference denotes a given tree, so every
  statement about what the writer built is a statement about what a reader will find in the rows.
*/
module HashTree {
  import opened Common
  import opened HashTypes
  import opened TreeShape
  import opened TreeShapeLaws
  import opened TreeHeights

  datatype Row = Row(id: nat, node: nat, leaf: LeafType, data: Payload, childs: Option<seq<nat>>, pref: ChunkRef)

  type Store = map<Bytes, Row>

  type Fingerprint = (nat, LeafType, Payload) -> Bytes

  /** No two different (node, leaf, data) triples share a fingerprint. */
  ghost predicate Injective(fp: Fingerprint) {
    forall n, l, d, n', l', d' {:trigger fp(n, l, d), fp(n', l', d')} ::
      fp(n, l, d) == fp(n', l', d') ==> n == n' && l == l' && d == d'
  }

  ghost predicate Extends(before: Store, after: Store) {
    forall h | h in before :: h in after && after[h] == before[h]
  }

  lemma ExtendsTransitive(a: Store, b: Store, c: Store)
    requires Extends(a, b) && Extends(b, c)
    ensures Extends(a, c)
  {
  }

  /** In `st`, `href` denotes the tree `t`: heights, leaf type, chunks and the order of children. */
  ghost predicate Represents(st: Store, href: HashRef, t: Tree)
    decreases t
  {
    && href.hash in st
    && st[href.hash].node == href.node == t.Height()
    && st[href.hash].leaf == href.leaf
    && match t
       case Leaf(c) => st[href.hash].data == ChunkData(c)
       case Branch(_, kids) =>
         && st[href.hash].data.Refs?
         && |st[href.hash].data.refs| == |kids|
         && forall i | 0 <= i < |kids| :: Represents(st, st[href.hash].data.refs[i], kids[i])
  }

  lemma {:induction false} RepresentsMonotone(st: Store, st': Store, href: HashRef, t: Tree)
    requires Extends(st, st') && Represents(st, href, t)
    ensures Represents(st', href, t)
    decreases t
  {
    if t.Branch? {
      forall i | 0 <= i < |t.kids|
        ensures Represents(st', st[href.hash].data.refs[i], t.kids[i])
      {
        RepresentsMonotone(st, st', st[href.hash].data.refs[i], t.kids[i]);
      }
    }
  }

  /** A fingerprint denotes at most one tree. */
  lemma {:induction false} RepresentsUnique(st: Store, a: HashRef, b: HashRef, t: Tree, u: Tree)
    requires a.hash == b.hash && Represents(st, a, t) && Represents(st, b, u)
    ensures t == u
    decreases t
  {
    match t
    case Leaf(_) =>
    case Branch(_, kids) =>
      assert u.Branch? && |u.kids| == |kids|;
      forall i | 0 <= i < |kids|
        ensures kids[i] == u.kids[i]
      {
        var r := st[a.hash].data.refs[i];
        RepresentsUnique(st, r, r, kids[i], u.kids[i]);
      }
      assert kids == u.kids;
  }

  /** The local child ids of a row: those of the referenced rows, in order, all issued earlier. */
  ghost predicate ChildsOf(st: Store, data: Payload, childs: Option<seq<nat>>, below: nat) {
    match data
    case ChunkData(_) => childs.None?
    case Refs(refs) =>
      && childs.Some? && |childs.value| == |refs|
      && forall i | 0 <= i < |refs| ::
           refs[i].hash in st && st[refs[i].hash].id == childs.value[i] < below
  }

  /** A stored reference says of a row what the row says itself: its height, its type, and where its data is. */
  predicate PointsAt(r: HashRef, row: Row) {
    && r.node == row.node && r.leaf == row.leaf
    && r.pref.blobId == None && r.pref.blobName == row.pref.blobName && r.pref.offset == row.pref.offset
    && r.pref.length == row.pref.length && r.pref.key == row.pref.key
  }

  /** The referenced nodes are of smaller height, and described by their references. */
  ghost predicate ChildsLower(st: Store, data: Payload, node: nat) {
    data.Refs? ==> forall i | 0 <= i < |data.refs| ::
      && data.refs[i].hash in st && st[data.refs[i].hash].node < node
      && PointsAt(data.refs[i], st[data.refs[i].hash])
  }

  ghost predicate RowOk(fp: Fingerprint, st: Store, nextId: nat, h: Bytes)
    requires h in st
  {
    && h == fp(st[h].node, st[h].leaf, st[h].data)
    && st[h].id < nextId
    && ChildsOf(st, st[h].data, st[h].childs, st[h].id)
    && ChildsLower(st, st[h].data, st[h].node)
  }

  ghost predicate DistinctIds(st: Store) {
    forall h, k | h in st && k in st && st[h].id == st[k].id :: h == k
  }

  ghost predicate StoreOk(fp: Fingerprint, st: Store, nextId: nat) {
    (forall h | h in st :: RowOk(fp, st, nextId, h)) && DistinctIds(st)
  }

  /** The row of a fingerprint is that of the node. */
  lemma KnownNode(fp: Fingerprint, st: Store, nextId: nat, node: nat, leaf: LeafType, data: Payload)
    requires StoreOk(fp, st, nextId) && Injective(fp) && fp(node, leaf, data) in st
    ensures var row := st[fp(node, leaf, data)];
      row.node == node && row.leaf == leaf && row.data == data && row.id < nextId
  {
    assert RowOk(fp, st, nextId, fp(node, leaf, data));
  }

  /** Rows name only rows that are there, issued earlier and of smaller height; no id is used twice. */
  ghost predicate SelfContained(st: Store) {
    && (forall h | h in st ::
          ChildsOf(st, st[h].data, st[h].childs, st[h].id) && ChildsLower(st, st[h].data, st[h].node))
    && DistinctIds(st)
  }

  lemma StoreSelfContained(fp: Fingerprint, st: Store, nextId: nat)
    requires StoreOk(fp, st, nextId)
    ensures SelfContained(st) && forall h | h in st :: st[h].id < nextId
  {
    forall h | h in st
      ensures ChildsOf(st, st[h].data, st[h].childs, st[h].id) && ChildsLower(st, st[h].data, st[h].node)
      ensures st[h].id < nextId
    {
      assert RowOk(fp, st, nextId, h);
    }
  }

  lemma StoreGrows(fp: Fingerprint, st: Store, nextId: nat, hash: Bytes, row: Row)
    requires StoreOk(fp, st, nextId) && hash !in st && hash == fp(row.node, row.leaf, row.data)
    requires row.id == nextId && ChildsOf(st, row.data, row.childs, nextId) && ChildsLower(st, row.data, row.node)
    ensures StoreOk(fp, st[hash := row], nextId + 1)
  {
    hide ChildsOf, ChildsLower, DistinctIds;
    var st' := st[hash := row];
    forall h | h in st'
      ensures RowOk(fp, st', nextId + 1, h)
    {
      if h != hash { assert RowOk(fp, st, nextId, h); }
      ChildsGrow(st, hash, row, st'[h].data, st'[h].childs, st'[h].id, st'[h].node);
    }
    IdsStayDistinct(fp, st, nextId, hash, row);
  }

  lemma IdsStayDistinct(fp: Fingerprint, st: Store, nextId: nat, hash: Bytes, row: Row)
    requires StoreOk(fp, st, nextId) && hash !in st && row.id == nextId
    ensures DistinctIds(st[hash := row])
  {
    hide ChildsOf, ChildsLower;
    forall h | h in st
      ensures st[h].id < nextId
    {
      assert RowOk(fp, st, nextId, h);
    }
  }

  lemma ChildsGrow(st: Store, hash: Bytes, row: Row, data: Payload, childs: Option<seq<nat>>, below: nat, node: nat)
    requires hash !in st && ChildsOf(st, data, childs, below) && ChildsLower(st, data, node)
    ensures ChildsOf(st[hash := row], data, childs, below) && ChildsLower(st[hash := row], data, node)
  {
  }

  class ChunkStore {
    const fp: Fingerprint
    var rows: Store
    var nextId: nat

    constructor (fp: Fingerprint)
      ensures this.fp == fp && rows == map[] && nextId == 1 && Valid()
    {
      this.fp := fp;
      rows := map[];
      nextId := 1;
    }

    ghost predicate Valid()
      reads this
    {
      StoreOk(fp, rows, nextId)
    }

    /** Fetch what `href` names; the content is checked against the fingerprint. */
    function FetchChunk(href: HashRef): (r: Option<Payload>)
      reads this
      ensures r.Some? ==> href.hash in rows && r.value == rows[href.hash].data
      ensures r.Some? ==> fp(href.node, href.leaf, r.value) == href.hash
    {
      if href.hash in rows && fp(href.node, href.leaf, rows[href.hash].data) == href.hash then
        Some(rows[href.hash].data)
      else
        None
    }

    lemma FetchRepresented(href: HashRef, t: Tree)
      requires Valid() && Represents(rows, href, t)
      ensures FetchChunk(href) == Some(rows[href.hash].data)
    {
    }

    /** Store a node once, its data at `place`: a known fingerprint returns the row that is already there. */
    method InsertChunkAt(data: Payload, node: nat, leaf: LeafType, childs: Option<seq<nat>>, place: ChunkRef)
      returns (id: nat, href: HashRef)
      requires Valid() && Injective(fp) && ChildsOf(rows, data, childs, nextId) && ChildsLower(rows, data, node)
      modifies this
      ensures Valid() && Extends(old(rows), rows)
      ensures href.hash == fp(node, leaf, data) && href.node == node && href.leaf == leaf
      ensures href.hash in rows && rows[href.hash].node == node && rows[href.hash].leaf == leaf
      ensures rows[href.hash].data == data && rows[href.hash].id == id < nextId && rows[href.hash].pref == href.pref
      ensures rows.Keys == old(rows.Keys) + {href.hash}
      ensures href.hash in old(rows) ==> rows == old(rows) && nextId == old(nextId)
      ensures href.hash !in old(rows) ==>
        && id == old(nextId) && nextId == id + 1 && href.pref == place
        && rows == old(rows)[href.hash := Row(id, node, leaf, data, childs, href.pref)]
    {
      hide StoreOk, ChildsOf, ChildsLower, Injective;
      var hash := fp(node, leaf, data);
      if hash in rows {
        KnownNode(fp, rows, nextId, node, leaf, data);
        id := rows[hash].id;
        href := HashRef(hash, node, leaf, rows[hash].pref, None);
      } else {
        id := nextId;
        href := HashRef(hash, node, leaf, place, None);
        StoreGrows(fp, rows, nextId, hash, Row(id, node, leaf, data, childs, place));
        nextId := nextId + 1;
        rows := rows[hash := Row(id, node, leaf, data, childs, place)];
      }
    }

    /** Store a node wherever its data ends up. */
    method InsertChunk(data: Payload, node: nat, leaf: LeafType, childs: Option<seq<nat>>)
      returns (id: nat, href: HashRef)
      requires Valid() && Injective(fp) && ChildsOf(rows, data, childs, nextId) && ChildsLower(rows, data, node)
      modifies this
      ensures Valid() && Extends(old(rows), rows)
      ensures href.hash == fp(node, leaf, data) && href.node == node && href.leaf == leaf
      ensures href.hash in rows && rows[href.hash].node == node && rows[href.hash].leaf == leaf
      ensures rows[href.hash].data == data && rows[href.hash].id == id < nextId && rows[href.hash].pref == href.pref
      ensures rows.Keys == old(rows.Keys) + {href.hash}
      ensures href.hash in old(rows) ==> rows == old(rows) && nextId == old(nextId)
      ensures href.hash !in old(rows) ==>
        && id == old(nextId) && nextId == id + 1
        && rows == old(rows)[href.hash := Row(id, node, leaf, data, childs, href.pref)]
    {
      var place: ChunkRef := *;
      id, href := InsertChunkAt(data, node, leaf, childs, place);
    }
  }

  type Entry = (nat, HashRef)

  ghost predicate EntryOk(st: Store, leaf: LeafType, e: Entry, t: Tree) {
    Represents(st, e.1, t) && st[e.1.hash].id == e.0 && e.1.leaf == leaf && st[e.1.hash].pref == e.1.pref
  }

  ghost predicate LevelOk(st: Store, leaf: LeafType, level: seq<Entry>, ts: seq<Tree>) {
    |level| == |ts| && forall j | 0 <= j < |ts| :: EntryOk(st, leaf, level[j], ts[j])
  }

  ghost predicate LevelsOk(st: Store, leaf: LeafType, levels: seq<seq<Entry>>, f: seq<seq<Tree>>) {
    |levels| == |f| && forall i | 0 <= i < |f| :: LevelOk(st, leaf, levels[i], f[i])
  }

  lemma LevelsMonotone(st: Store, st': Store, leaf: LeafType, levels: seq<seq<Entry>>, f: seq<seq<Tree>>)
    requires Extends(st, st') && LevelsOk(st, leaf, levels, f)
    ensures LevelsOk(st', leaf, levels, f)
  {
    forall i | 0 <= i < |f|
      ensures LevelOk(st', leaf, levels[i], f[i])
    {
      assert LevelOk(st, leaf, levels[i], f[i]);
      forall j | 0 <= j < |f[i]|
        ensures EntryOk(st', leaf, levels[i][j], f[i][j])
      {
        assert EntryOk(st, leaf, levels[i][j], f[i][j]);
        RepresentsMonotone(st, st', levels[i][j].1, f[i][j]);
      }
    }
  }

  function ModelRefs(level: seq<Entry>): (r: seq<HashRef>)
    ensures |r| == |level| && forall j :: 0 <= j < |r| ==> r[j] == level[j].1.ToModel()
  {
    seq(|level|, j requires 0 <= j < |level| => level[j].1.ToModel())
  }

  function Ids(level: seq<Entry>): (r: seq<nat>)
    ensures |r| == |level| && forall j :: 0 <= j < |r| ==> r[j] == level[j].0
  {
    seq(|level|, j requires 0 <= j < |level| => level[j].0)
  }

  /** `data` with child ids `childs` is how a node with tree `t` is written down. */
  ghost predicate Encodes(st: Store, nextId: nat, leaf: LeafType, data: Payload, childs: Option<seq<nat>>, t: Tree) {
    && ChildsOf(st, data, childs, nextId)
    && match t
       case Leaf(c) => data == ChunkData(c)
       case Branch(_, kids) =>
         data.Refs? && |data.refs| == |kids| && forall i | 0 <= i < |kids| ::
           Represents(st, data.refs[i], kids[i]) && PointsAt(data.refs[i], st[data.refs[i].hash])
  }

  lemma EncodedLower(st: Store, nextId: nat, leaf: LeafType, data: Payload, childs: Option<seq<nat>>, t: Tree)
    requires Encodes(st, nextId, leaf, data, childs, t) && WellFormed(t)
    ensures ChildsLower(st, data, t.Height())
  {
    if t.Branch? {
      forall i | 0 <= i < |data.refs|
        ensures data.refs[i].hash in st && st[data.refs[i].hash].node < t.Height()
        ensures PointsAt(data.refs[i], st[data.refs[i].hash])
      {
        assert Represents(st, data.refs[i], t.kids[i]);
      }
    }
  }

  lemma LevelEncodes(fp: Fingerprint, st: Store, nextId: nat, leaf: LeafType, level: seq<Entry>, ts: seq<Tree>, h: nat)
    requires LevelOk(st, leaf, level, ts) && StoreOk(fp, st, nextId)
    ensures Encodes(st, nextId, leaf, Refs(ModelRefs(level)), Some(Ids(level)), Branch(h, ts))
  {
    forall i | 0 <= i < |ts|
      ensures Represents(st, ModelRefs(level)[i], ts[i]) && PointsAt(ModelRefs(level)[i], st[ModelRefs(level)[i].hash])
      ensures st[ModelRefs(level)[i].hash].id == level[i].0 < nextId
    {
      assert EntryOk(st, leaf, level[i], ts[i]);
    }
  }

  function Grown<T>(levels: seq<seq<T>>, level: nat): (r: seq<seq<T>>)
    requires level <= |levels|
    ensures level < |r| && r[..level] == levels[..level]
  {
    if |levels| == level then levels + [[]] else levels
  }

  function Placed<T>(levels: seq<seq<T>>, level: nat, e: T): (r: seq<seq<T>>)
    requires level <= |levels|
    ensures level < |r| && r[..level] == levels[..level]
  {
    var g := Grown(levels, level);
    g[level := g[level] + [e]]
  }

  lemma PlacedIsPush(order: nat, f: seq<seq<Tree>>, level: nat, t: Tree)
    requires order >= 2 && level <= |f|
    ensures var g := Placed(f, level, t);
      f[..level] + Push(order, level, f[level..], t) ==
        if |g[level]| == order then g[..level] + Collapse(order, level, g[level..]) else g
  {
    var g := Placed(f, level, t);
    if level < |f| {
      assert f[level..][0] == f[level] && g[level..][0] == f[level] + [t];
      assert f[level..][1..] == g[level..][1..];
      assert g == f[..level] + [f[level] + [t]] + f[level..][1..];
    } else {
      assert [] + [t] == [t];
      assert g == f[..level] + [[t]];
    }
  }

  lemma PlacedOk(st: Store, leaf: LeafType, levels: seq<seq<Entry>>, f: seq<seq<Tree>>, level: nat, e: Entry, t: Tree)
    requires LevelsOk(st, leaf, levels, f) && level <= |f| && EntryOk(st, leaf, e, t)
    requires Levelled(0, f) && WellFormed(t) && t.Height() == level
    ensures LevelsOk(st, leaf, Placed(levels, level, e), Placed(f, level, t))
    ensures Levelled(0, Placed(f, level, t))
  {
    var ls, g := Placed(levels, level, e), Placed(f, level, t);
    forall i | 0 <= i < |g|
      ensures LevelOk(st, leaf, ls[i], g[i])
    {
      if i < |f| { assert LevelOk(st, leaf, levels[i], f[i]); }
    }
    forall i, u | 0 <= i < |g| && u in g[i]
      ensures WellFormed(u) && u.Height() == i
    {
      if i < |f| && u != t { assert u in f[i]; }
    }
  }

  class SimpleHashTreeWriter {
    const backend: ChunkStore
    const order: nat
    const leaf: LeafType
    var levels: seq<seq<Entry>>
    ghost var forest: seq<seq<Tree>>

    /** Everything `Valid` says except that the top level is in use. */
    ghost predicate Core()
      reads this, backend
    {
      && order >= 2 && backend.Valid() && Injective(backend.fp)
      && LevelsOk(backend.rows, leaf, levels, forest)
      && Levelled(0, forest)
      && forall i | 0 <= i < |forest| :: |forest[i]| < order
    }

    ghost predicate Valid()
      reads this, backend
    {
      Core() && (forest != [] ==> Usable(forest))
    }

    constructor (leaf: LeafType, order: nat, backend: ChunkStore)
      requires order >= 2 && backend.Valid() && Injective(backend.fp)
      ensures Valid() && forest == [] && this.order == order && this.leaf == leaf && this.backend == backend
    {
      this.leaf, this.order, this.backend := leaf, order, backend;
      levels, forest := [], [];
    }

    method Append(chunk: Chunk)
      requires Valid()
      modifies this, backend
      ensures Valid() && Extends(old(backend.rows), backend.rows)
      ensures forest == Push(order, 0, old(forest), Leaf(chunk))
    {
      PushShape(order, 0, forest, Leaf(chunk));
      assert forest[0..] == forest;
      AppendAt(0, ChunkData(chunk), None, Leaf(chunk));
    }

    method AppendAt(level: nat, data: Payload, childs: Option<seq<nat>>, ghost t: Tree)
      requires Core() && level <= |levels|
      requires WellFormed(t) && t.Height() == level
      requires Encodes(backend.rows, backend.nextId, leaf, data, childs, t)
      modifies this, backend
      ensures Core() && Extends(old(backend.rows), backend.rows)
      ensures forest == old(forest)[..level] + Push(order, level, old(forest)[level..], t)
      decreases |levels| - level, 1
    {
      EncodedLower(backend.rows, backend.nextId, leaf, data, childs, t);
      var id, href := backend.InsertChunk(data, level, leaf, childs);
      LevelsMonotone(old(backend.rows), backend.rows, leaf, levels, forest);
      if t.Branch? {
        forall i | 0 <= i < |t.kids|
          ensures Represents(backend.rows, data.refs[i], t.kids[i])
        {
          RepresentsMonotone(old(backend.rows), backend.rows, data.refs[i], t.kids[i]);
        }
      }
      AppendHashRefAt(level, id, href, t);
    }

    method AppendHashRefAt(level: nat, id: nat, href: HashRef, ghost t: Tree)
      requires Core() && level <= |levels|
      requires WellFormed(t) && t.Height() == level && EntryOk(backend.rows, leaf, (id, href), t)
      modifies this, backend
      ensures Core() && Extends(old(backend.rows), backend.rows)
      ensures forest == old(forest)[..level] + Push(order, level, old(forest)[level..], t)
      decreases |levels| - level, 0
    {
      PlacedIsPush(order, forest, level, t);
      PlacedOk(backend.rows, leaf, levels, forest, level, (id, href), t);
      if |levels| == level {
        levels := levels + [[]];
      }
      levels := levels[level := levels[level] + [(id, href)]];
      forest := Placed(forest, level, t);
      if |levels[level]| == order {
        CollapseLevel(level);
      }
    }

    method CollapseLevel(level: nat)
      requires level < |levels|
      requires order >= 2 && backend.Valid() && Injective(backend.fp)
      requires LevelsOk(backend.rows, leaf, levels, forest) && Levelled(0, forest)
      requires forall i | 0 <= i < |forest| && i != level :: |forest[i]| < order
      modifies this, backend
      ensures Core() && Extends(old(backend.rows), backend.rows)
      ensures forest == old(forest)[..level] + Collapse(order, level, old(forest)[level..])
      decreases |levels| - level - 1, 2
    {
      var v := levels[level];
      ghost var ts := forest[level];
      levels := levels[level := []];
      forest := forest[level := []];
      LevelEncodes(backend.fp, backend.rows, backend.nextId, leaf, v, ts, level + 1);
      AppendAt(level + 1, Refs(ModelRefs(v)), Some(Ids(v)), Branch(level + 1, ts));
    }

    /** The levels `hash()` starts from: an empty tree counts as a tree of one empty chunk. */
    ghost function Seeded(): (f: seq<seq<Tree>>)
      reads this
    {
      if forest == [] then [[Leaf(EMPTY_CHUNK)]] else forest
    }

    /** Flush all partial levels and report the reference of the root. */
    method Hash(info: Option<Bytes>) returns (href: HashRef)
      requires Valid()
      modifies this, backend
      ensures Valid() && Extends(old(backend.rows), backend.rows)
      ensures Usable(forest) && Represents(backend.rows, href, Root(forest)) && href.leaf == leaf
      ensures Usable(old(Seeded())) && forest == Finish(order, old(Seeded()), info.Some?)
      ensures Leaves(Root(forest)) == ForestLeaves(old(Seeded())) == ForestLeaves(forest)
    {
      hide Finish, ForestLeaves, Leaves, Represents, Injective, LevelsOk, Levelled;
      ghost var f := Seeded();
      Seed();
      FinishRoot(order, f, info.Some?);
      CollapseLevels(info);
      href := RootRef();
    }

    method Seed()
      requires Valid()
      modifies this, backend
      ensures Valid() && Extends(old(backend.rows), backend.rows)
      ensures forest == old(Seeded()) && Usable(forest)
    {
      if levels == [] {
        assert [] + [Leaf(EMPTY_CHUNK)] == [Leaf(EMPTY_CHUNK)];
        Append(EMPTY_CHUNK);
      }
    }

    method CollapseLevels(info: Option<Bytes>)
      requires Valid() && Usable(forest)
      modifies this, backend
      ensures Core() && Extends(old(backend.rows), backend.rows)
      ensures forest == Finish(order, old(forest), info.Some?)
    {
      CollapseBelowTop();
      ghost var mid := backend.rows;
      CollapseRoot(info);
      ExtendsTransitive(old(backend.rows), mid, backend.rows);
    }

    lemma LevelOkAt(i: nat)
      requires Core() && i < |forest|
      ensures LevelOk(backend.rows, leaf, levels[i], forest[i])
    {
    }

    method FirstNonEmpty() returns (l: nat)
      requires Valid() && Usable(forest)
      ensures l == EmptyPrefix(forest) && l < |forest|
    {
      LevelOkAt(|forest| - 1);
      l := 0;
      while levels[l] == []
        invariant l < |levels|
        invariant forall i :: 0 <= i < l ==> forest[i] == []
        decreases |levels| - l
      {
        LevelOkAt(l);
        l := l + 1;
      }
      LevelOkAt(l);
      PrefixLength(forest, l);
    }

    method CollapseBelowTop()
      requires Valid() && Usable(forest)
      modifies this, backend
      ensures Core() && Extends(old(backend.rows), backend.rows)
      ensures forest == Looped(order, old(forest))
    {
      ghost var goal := Looped(order, forest);
      var l := FirstNonEmpty();
      var top := |levels| - 1;
      while l < top
        invariant l <= top < |forest| && Core() && Extends(old(backend.rows), backend.rows)
        invariant goal == Pending(order, forest, l, top)
      {
        ghost var mid := backend.rows;
        CollapseNext(l, top);
        ExtendsTransitive(old(backend.rows), mid, backend.rows);
        l := l + 1;
      }
      assert goal == forest[..l] + forest[l..];
    }

    method CollapseNext(l: nat, ghost top: nat)
      requires Core() && l < top < |forest|
      modifies this, backend
      ensures Core() && Extends(old(backend.rows), backend.rows) && top < |forest|
      ensures Pending(order, forest, l + 1, top) == Pending(order, old(forest), l, top)
    {
      CollapseLevel(l);
      PendingStep(order, l, old(forest), forest, top);
    }

    method CollapseRoot(info: Option<Bytes>)
      requires Core() && |forest| > 0
      modifies this, backend
      ensures Core() && Extends(old(backend.rows), backend.rows)
      ensures forest == CollapseTop(order, old(forest), info.Some?)
    {
      var top := |levels| - 1;
      LevelOkAt(top);
      if info.Some? || |levels[top]| > 1 {
        CollapseLevel(top);
      }
    }

    method RootRef() returns (href: HashRef)
      requires Core() && Usable(forest) && |forest[|forest| - 1]| == 1
      ensures Represents(backend.rows, href, Root(forest)) && href.leaf == leaf
    {
      var top := |levels| - 1;
      LevelOkAt(top);
      assert EntryOk(backend.rows, leaf, levels[top][0], forest[top][0]);
      href := levels[top][|levels[top]| - 1].1;
    }
  }

  lemma PendingStep(order: nat, l: nat, f: seq<seq<Tree>>, f': seq<seq<Tree>>, top: nat)
    requires order >= 2 && l < top < |f|
    requires f' == f[..l] + Collapse(order, l, f[l..])
    ensures |f'| >= |f| && Pending(order, f, l, top) == Pending(order, f', l + 1, top)
  {
    hide Push;
    var c := Collapse(order, l, f[l..]);
    SplitAfter(f[..l], c, f');
    var rest := CollapseUpTo(order, l + 1, c[1..], top - l - 1);
    assert CollapseUpTo(order, l, f[l..], top - l) == [c[0]] + rest;
    Reassociate(f[..l], c[0], rest);
  }

  lemma SplitAfter<T>(a: seq<T>, c: seq<T>, all: seq<T>)
    requires all == a + c && |c| > 0
    ensures all[..|a| + 1] == a + [c[0]] && all[|a| + 1..] == c[1..]
  {
  }

  lemma Reassociate<T>(a: seq<T>, x: T, rest: seq<T>)
    ensures a + ([x] + rest) == (a + [x]) + rest
  {
  }
}
