/**
  What writing the listings of a directory tree does to the collector's table: the rows the walk adds and
  the hashes it reports, in the order in which they come, are a plan as `SnapshotProtocol` asks for, and
  its references are exactly what a listing of the finished snapshot yields.
*/
module CommitPlan {
  import opened Common
  import opened HashTypes
  import opened HashTree
  import opened Directories
  import opened SnapshotLister
  import opened Tags
  import opened GcTables
  import opened SnapshotProtocol

  // ---------------------------------------------------------------- the tree store as a hash table

  /** The collector's row for a node just stored. */
  function GcRow(row: HashTree.Row): HashRow {
    HashRow(Done, 0, row.node, if row.childs.Some? then row.childs.value else [], Some(row.pref.blobName))
  }

  /** The same node, whatever has been tagged and counted since. */
  predicate SameNode(row: HashTree.Row, r: HashRow) {
    && r.height == row.node && r.blob == Some(row.pref.blobName)
    && match row.childs case None => r.childs == [] case Some(ids) => r.childs == ids
  }

  ghost predicate HasId(st: Store, id: nat) {
    exists k :: k in st && st[k].id == id
  }

  /** `h` has a row for each node of the store, under its id, and no others. */
  ghost predicate TableOf(st: Store, h: HashRows) {
    && (forall k | k in st :: st[k].id in h && SameNode(st[k], h[st[k].id]))
    && forall id | id in h :: HasId(st, id)
  }

  /** The ids of hashes. */
  ghost function IdsOf(st: Store, hashes: set<Bytes>): set<nat> {
    set h | h in hashes && h in st :: st[h].id
  }

  // ---------------------------------------------------------------- the rows added from one state to another

  predicate IsNew(a: Store, b: Store, id: nat, k: Bytes) {
    k in b && k !in a && b[k].id == id
  }

  ghost predicate HasNew(a: Store, b: Store, id: nat) {
    exists k :: IsNew(a, b, id, k)
  }

  ghost function NewKey(a: Store, b: Store, id: nat): (k: Bytes)
    requires HasNew(a, b, id)
    ensures IsNew(a, b, id, k)
  {
    var k :| IsNew(a, b, id, k);
    k
  }

  /** The rows of `b` that `a` does not have, by increasing id below `n`, as the store issued them. */
  ghost function Adds(a: Store, b: Store, n: nat): seq<CommitStep> {
    if n == 0 then []
    else
      Adds(a, b, n - 1) + if HasNew(a, b, n - 1) then [AddRow(n - 1, GcRow(b[NewKey(a, b, n - 1)]))] else []
  }

  function Upto(a: Store, b: Store, n: nat): Store {
    map k | k in b && (k in a || b[k].id < n) :: b[k]
  }

  lemma {:induction false} StepsConcat(h: HashRows, xs: seq<CommitStep>, ys: seq<CommitStep>, refs: set<Id>)
    ensures DoSteps(h, xs + ys) == DoSteps(DoSteps(h, xs), ys)
    ensures StepsOk(h, xs + ys, refs) <==> StepsOk(h, xs, refs) && StepsOk(DoSteps(h, xs), ys, refs)
    decreases |xs|
  {
    if xs == [] {
      assert xs + ys == ys;
    } else {
      assert (xs + ys)[0] == xs[0] && (xs + ys)[1..] == xs[1..] + ys;
      StepsConcat(DoStep(h, xs[0]), xs[1..], ys, refs);
    }
  }

  lemma OneStep(h: HashRows, step: CommitStep, refs: set<Id>)
    ensures DoSteps(h, [step]) == DoStep(h, step) && (StepsOk(h, [step], refs) <==> StepOk(h, step, refs))
  {
    assert [step][1..] == [];
  }

  lemma NewRowFits(a: Store, b: Store, n: nat, k: Bytes, h: HashRows)
    requires Extends(a, b) && SelfContained(b) && IsNew(a, b, n, k) && TableOf(Upto(a, b, n), h)
    ensures StepOk(h, AddRow(n, GcRow(b[k])), {}) && TableOf(Upto(a, b, n + 1), h[n := GcRow(b[k])])
  {
    hide TableOf, SelfContained;
    IdUnused(a, b, n, k, h);
    ChildsThere(a, b, n, k, h);
    TableGrows(a, b, n, k, h);
  }

  lemma IdUnused(a: Store, b: Store, n: nat, k: Bytes, h: HashRows)
    requires Extends(a, b) && SelfContained(b) && IsNew(a, b, n, k) && TableOf(Upto(a, b, n), h)
    ensures n !in h
  {
    hide ChildsOf, ChildsLower;
    var u := Upto(a, b, n);
    forall j | j in u
      ensures u[j].id != n
    {
      assert b[j].id == n ==> j == k;
    }
    assert !HasId(u, n);
  }

  lemma ChildsThere(a: Store, b: Store, n: nat, k: Bytes, h: HashRows)
    requires SelfContained(b) && IsNew(a, b, n, k) && TableOf(Upto(a, b, n), h)
    ensures forall c | c in GcRow(b[k]).childs :: c in h && h[c].height < b[k].node
  {
    var row := b[k];
    forall c | c in GcRow(row).childs
      ensures c in h && h[c].height < row.node
    {
      var i :| 0 <= i < |row.childs.value| && row.childs.value[i] == c;
      var r := row.data.refs[i];
      assert r.hash in b && b[r.hash].id == c < n && b[r.hash].node < row.node;
      assert r.hash in Upto(a, b, n);
    }
  }

  lemma TableGrows(a: Store, b: Store, n: nat, k: Bytes, h: HashRows)
    requires SelfContained(b) && IsNew(a, b, n, k) && TableOf(Upto(a, b, n), h) && n !in h
    ensures TableOf(Upto(a, b, n + 1), h[n := GcRow(b[k])])
  {
    hide ChildsOf, ChildsLower;
    var u, v, h' := Upto(a, b, n), Upto(a, b, n + 1), h[n := GcRow(b[k])];
    forall j | j in v
      ensures v[j].id in h' && SameNode(v[j], h'[v[j].id])
    {
      if j != k {
        assert j in u;
      }
    }
    forall id | id in h'
      ensures HasId(v, id)
    {
      if id == n {
        assert k in v && v[k].id == id;
      } else {
        assert HasId(u, id);
        var j :| j in u && u[j].id == id;
        assert j in v && v[j].id == id;
      }
    }
  }

  lemma NothingNew(a: Store, b: Store, n: nat)
    requires !HasNew(a, b, n)
    ensures Upto(a, b, n + 1) == Upto(a, b, n)
  {
    forall k | k in Upto(a, b, n + 1)
      ensures k in Upto(a, b, n)
    {
      assert !IsNew(a, b, n, k);
    }
  }

  lemma StepOkRefs(h: HashRows, id: Id, row: HashRow, refs: set<Id>)
    requires StepOk(h, AddRow(id, row), {})
    ensures StepOk(h, AddRow(id, row), refs)
  {
  }

  lemma {:induction false} AddsOk(a: Store, b: Store, n: nat, h: HashRows, refs: set<Id>)
    requires Extends(a, b) && SelfContained(b) && TableOf(Upto(a, b, 0), h)
    ensures StepsOk(h, Adds(a, b, n), refs) && TableOf(Upto(a, b, n), DoSteps(h, Adds(a, b, n)))
  {
    hide Extends, SelfContained, TableOf, StepOk, Upto;
    if n > 0 {
      AddsOk(a, b, n - 1, h, refs);
      var before := Adds(a, b, n - 1);
      var g := DoSteps(h, before);
      if HasNew(a, b, n - 1) {
        var k := NewKey(a, b, n - 1);
        NewRowFits(a, b, n - 1, k, g);
        StepOkRefs(g, n - 1, GcRow(b[k]), refs);
        OneStep(g, AddRow(n - 1, GcRow(b[k])), refs);
        StepsConcat(h, before, [AddRow(n - 1, GcRow(b[k]))], refs);
      } else {
        NothingNew(a, b, n - 1);
        assert Adds(a, b, n) == before + [] == before;
      }
    }
  }

  /** From one state of the store to a later one. */
  lemma AddsReach(a: Store, b: Store, n: nat, h: HashRows, refs: set<Id>)
    requires Extends(a, b) && SelfContained(b) && TableOf(a, h) && forall k | k in b :: b[k].id < n
    ensures StepsOk(h, Adds(a, b, n), refs) && TableOf(b, DoSteps(h, Adds(a, b, n)))
  {
    hide SelfContained, TableOf;
    assert Upto(a, b, 0) == a;
    assert Upto(a, b, n) == b;
    AddsOk(a, b, n, h, refs);
  }

  // ---------------------------------------------------------------- the steps of a walk

  /** The steps up to the last shot: rows added, then the tag of the hash reported. `n` bounds all ids. */
  ghost function Walk(log: seq<Shot>, n: nat): seq<CommitStep> {
    if |log| <= 1 then []
    else
      var i := |log| - 1;
      Walk(log[..i], n) + Adds(log[i - 1].st, log[i].st, n) +
      if log[i].hash.Some? && log[i].hash.value in log[i].st then [TagRef(log[i].st[log[i].hash.value].id)] else []
  }

  /** Every shot but the first reports a hash, and only hashes of `tagged`. */
  ghost predicate Reports(log: seq<Shot>, tagged: set<Bytes>) {
    && log != [] && log[0].hash == None
    && forall i | 1 <= i < |log| :: log[i].hash.Some? && log[i].hash.value in tagged
  }

  lemma TagKeeps(st: Store, h: HashRows, id: Id)
    requires TableOf(st, h)
    ensures TableOf(st, SetTag(h, id, Reserved))
  {
  }

  ghost predicate ReportTagged(shot: Shot, st: Store, steps: seq<CommitStep>) {
    shot.hash.Some? && shot.hash.value in st && TagRef(st[shot.hash.value].id) in steps
  }

  lemma NoWalk(log: seq<Shot>, n: nat)
    requires log != []
    ensures Walk(log[..1], n) == []
  {
  }

  lemma WalkOn(log: seq<Shot>, i: nat, n: nat, id: Id)
    requires 1 <= i < |log| && log[i].hash.Some? && log[i].hash.value in log[i].st
    requires id == log[i].st[log[i].hash.value].id
    ensures Walk(log[..i + 1], n) == Walk(log[..i], n) + Adds(log[i - 1].st, log[i].st, n) + [TagRef(id)]
  {
    assert log[..i + 1][..i] == log[..i];
  }

  lemma NoSteps(h: HashRows, refs: set<Id>)
    ensures StepsOk(h, [], refs) && DoSteps(h, []) == h
  {
  }

  /** The steps up to shot `m` can be taken one after the other; they leave the table with the rows of
      that shot, and every hash reported so far has been tagged. */
  lemma {:induction false} WalkShots(log: seq<Shot>, tagged: set<Bytes>, st: Store, m: nat, n: nat, h: HashRows,
                                     refs: set<Id>)
    requires LogOk(log, tagged, st) && Reports(log, tagged) && TableOf(log[0].st, h)
    requires (forall k | k in st :: st[k].id < n) && IdsOf(st, tagged) <= refs && 1 <= m <= |log|
    ensures StepsOk(h, Walk(log[..m], n), refs) && TableOf(log[m - 1].st, DoSteps(h, Walk(log[..m], n)))
    ensures forall i | 1 <= i < m :: ReportTagged(log[i], st, Walk(log[..m], n))
    decreases m
  {
    hide SelfContained, TableOf, StepOk, StepsOk, DoSteps, Adds, Extends, LogOk, ShotOk, IdsOf, Walk, Reports;
    NoWalk(log, n);
    if m == 1 {
      NoSteps(h, refs);
    } else {
      var i := m - 1;
      WalkShots(log, tagged, st, i, n, h, refs);
      var before := Walk(log[..i], n);
      var a, b := log[i - 1].st, log[i].st;
      var id := ShotFacts(log, tagged, st, i, n, refs);
      WalkOn(log, i, n, id);
      var g := DoSteps(h, before);
      AddsReach(a, b, n, g, refs);
      StepsConcat(h, before, Adds(a, b, n), refs);
      var mid := before + Adds(a, b, n);
      var tagging := TagRef(id);
      TagFits(b, DoSteps(h, mid), id, refs);
      OneStep(DoSteps(h, mid), tagging, refs);
      StepsConcat(h, mid, [tagging], refs);
    }
  }

  lemma TagFits(st: Store, h: HashRows, id: Id, refs: set<Id>)
    requires TableOf(st, h) && HasId(st, id) && id in refs
    ensures StepOk(h, TagRef(id), refs) && TableOf(st, DoStep(h, TagRef(id)))
  {
    TagKeeps(st, h, id);
  }

  /** What shot `i` says of the hash it reports. */
  lemma ShotFacts(log: seq<Shot>, tagged: set<Bytes>, st: Store, i: nat, n: nat, refs: set<Id>) returns (id: Id)
    requires LogOk(log, tagged, st) && Reports(log, tagged) && 1 <= i < |log|
    requires (forall k | k in st :: st[k].id < n) && IdsOf(st, tagged) <= refs
    ensures Extends(log[i - 1].st, log[i].st) && SelfContained(log[i].st)
    ensures forall k | k in log[i].st :: log[i].st[k].id < n
    ensures log[i].hash.Some?
    ensures var hash := log[i].hash.value;
      hash in log[i].st && hash in st && id == log[i].st[hash].id == st[hash].id && HasId(log[i].st, id) && id in refs
  {
    var hash := log[i].hash.value;
    assert ShotOk(log[i]) && Extends(log[i].st, st);
    id := st[hash].id;
    assert id in IdsOf(st, tagged);
  }

  // ---------------------------------------------------------------- the plan

  /** The plan of a walk that ended with the store at `st` and its root at `top`. */
  ghost function PlanOf(log: seq<Shot>, tagged: set<Bytes>, st: Store, n: nat, top: Bytes, auto: bool): Plan
    requires log != [] && top in st
  {
    Plan(Top(st[top].id, IdsOf(st, tagged + {top})), Walk(log, n) + Adds(log[|log| - 1].st, st, n), auto)
  }

  lemma PlanOfWalk(log: seq<Shot>, tagged: set<Bytes>, st: Store, n: nat, top: Bytes, auto: bool, h: HashRows)
    requires LogOk(log, tagged, st) && Reports(log, tagged) && SelfContained(st) && TableOf(log[0].st, h)
    requires (forall k | k in st :: st[k].id < n) && top in st
    ensures var plan := PlanOf(log, tagged, st, n, top, auto);
      PlanOk(h, plan) && TableOf(st, DoSteps(h, plan.steps))
  {
    hide SelfContained, TableOf, StepsOk, DoSteps, LogOk, Walk, Adds, IdsOf, Reports, Extends;
    LastShot(log, tagged, st);
    var plan := PlanOf(log, tagged, st, n, top, auto);
    var refs := plan.top.refs;
    var last := log[|log| - 1].st;
    RootAmong(st, tagged, top);
    WalkShots(log, tagged, st, |log|, n, h, refs);
    assert log[..|log|] == log;
    AddsReach(last, st, n, DoSteps(h, Walk(log, n)), refs);
    StepsConcat(h, Walk(log, n), Adds(last, st, n), refs);
    TableHasRefs(st, tagged + {top}, DoSteps(h, plan.steps));
    forall id | id in refs && id != plan.top.id
      ensures TagRef(id) in plan.steps
    {
      TaggedInWalk(log, tagged, st, n, top, id);
    }
  }

  lemma LastShot(log: seq<Shot>, tagged: set<Bytes>, st: Store)
    requires LogOk(log, tagged, st) && Reports(log, tagged)
    ensures log != [] && Extends(log[|log| - 1].st, st)
  {
  }

  lemma RootAmong(st: Store, tagged: set<Bytes>, top: Bytes)
    requires top in st
    ensures st[top].id in IdsOf(st, tagged + {top}) && IdsOf(st, tagged) <= IdsOf(st, tagged + {top})
  {
    assert top in tagged + {top};
  }

  lemma TableHasRefs(st: Store, hashes: set<Bytes>, h: HashRows)
    requires TableOf(st, h)
    ensures IdsOf(st, hashes) <= h.Keys
  {
  }

  lemma TaggedInWalk(log: seq<Shot>, tagged: set<Bytes>, st: Store, n: nat, top: Bytes, id: Id)
    requires LogOk(log, tagged, st) && Reports(log, tagged) && top in st
    requires id in IdsOf(st, tagged + {top}) && id != st[top].id
    requires forall i | 1 <= i < |log| :: ReportTagged(log[i], st, Walk(log, n))
    ensures TagRef(id) in Walk(log, n)
  {
    var hash :| hash in tagged + {top} && hash in st && st[hash].id == id;
    var i :| 0 <= i < |log| && log[i].hash == Some(hash);
    assert ReportTagged(log[i], st, Walk(log, n));
  }

  // ---------------------------------------------------------------- flushes in between

  /** What a walk does apart from the flushes on the way. */
  function Effects(steps: seq<CommitStep>): seq<CommitStep> {
    if steps == [] then []
    else (if steps[0].AddRow? || steps[0].TagRef? then [steps[0]] else []) + Effects(steps[1..])
  }

  lemma {:induction false} FlushesDoNothing(h: HashRows, steps: seq<CommitStep>, refs: set<Id>)
    ensures DoSteps(h, Effects(steps)) == DoSteps(h, steps)
    ensures StepsOk(h, Effects(steps), refs) <==> StepsOk(h, steps, refs)
    ensures forall id :: TagRef(id) in Effects(steps) <==> TagRef(id) in steps
    decreases |steps|
  {
    if steps != [] {
      FlushesDoNothing(DoStep(h, steps[0]), steps[1..], refs);
      var rest := Effects(steps[1..]);
      if steps[0].AddRow? || steps[0].TagRef? {
        assert Effects(steps) == [steps[0]] + rest && Effects(steps)[1..] == rest;
      } else {
        assert Effects(steps) == [] + rest == rest;
      }
      forall id
        ensures TagRef(id) in Effects(steps) <==> TagRef(id) in steps
      {
        assert TagRef(id) in steps <==> TagRef(id) == steps[0] || TagRef(id) in steps[1..];
      }
    }
  }

  /** Timers and full blobs may flush anywhere on the way: a plan stays a plan. */
  lemma FlushesAnywhere(h: HashRows, plan: Plan, steps: seq<CommitStep>, auto: bool)
    requires PlanOk(h, plan) && Effects(steps) == plan.steps
    ensures PlanOk(h, Plan(plan.top, steps, auto))
  {
    FlushesDoNothing(h, steps, plan.top.refs);
  }

  // ---------------------------------------------------------------- a commit and the listing after it

  lemma AllReported(log: seq<Shot>, tagged: set<Bytes>, st: Store)
    requires LogOk(log, tagged, st) && log != [] && log[0].hash == None
    ensures Reports(log, tagged) && tagged <= st.Keys
  {
    forall h | h in tagged
      ensures h in st
    {
      var i :| 0 <= i < |log| && log[i].hash == Some(h);
      assert ShotOk(log[i]) && Extends(log[i].st, st);
    }
    forall i | 1 <= i < |log|
      ensures log[i].hash.value in tagged
    {
      assert log[i].hash == Some(log[i].hash.value);
    }
  }

  /**
    Write the listings of a directory tree and list the snapshot. Whatever the collector's table held
    besides, if it had the rows of the store before, then what the walk does to it is a plan the protocol
    accepts, with flushes anywhere in between; the table then has the rows of the store after; and the
    rows registered with the root are exactly those of the hashes the listing yields.
  */
  method CommitFollowsPlan(family: Family, dir: Dir, name: Bytes, ghost h: HashRows)
    returns (final: HashRef, listed: seq<Content>, ghost plan: Plan)
    requires family.Ready() && WellNamed(dir) && FilesStored(family.backend.rows, dir)
    requires TableOf(family.backend.rows, h)
    modifies family`tagged, family`log, family.backend
    ensures forall steps, auto | Effects(steps) == plan.steps :: PlanOk(h, Plan(plan.top, steps, auto))
    ensures TableOf(family.backend.rows, DoSteps(h, plan.steps))
    ensures final.hash in family.backend.rows && plan.top.id == family.backend.rows[final.hash].id
    ensures HashesOf(listed) <= family.backend.rows.Keys
    ensures plan.top.refs == IdsOf(family.backend.rows, HashesOf(listed))
  {
    hide Resolved, Mirrors, TopSet, WellNamed, FilesStored, Injective, Extends, LogOk, Reports, TableOf, PlanOk;
    hide DoSteps;
    hide SelfContained, StoreOk;
    ghost var st0 := family.backend.rows;
    family.Begin();
    ghost var view;
    final, view := family.HashDir(dir, name);
    ghost var st, n, log, tagged := family.backend.rows, family.backend.nextId, family.log, family.tagged;
    listed := ListSnapshot(family.backend, final.ToModel(), view);
    ResolvedRoot(st, view);
    assert log[0] == [Shot(st0, None)][0] && {} + TopSet(view.items) == TopSet(view.items);
    plan := PlanOf(log, tagged, st, n, final.hash, true);
    StoreSelfContained(family.backend.fp, st, n);
    AllReported(log, tagged, st);
    PlanOfWalk(log, tagged, st, n, final.hash, true, h);
    forall steps, auto | Effects(steps) == plan.steps
      ensures PlanOk(h, Plan(plan.top, steps, auto))
    {
      FlushesAnywhere(h, plan, steps, auto);
    }
  }

  lemma ResolvedRoot(st: Store, view: DirView)
    requires Resolved(st, view)
    ensures view.href.hash in st
  {
  }
}
