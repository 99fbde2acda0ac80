/** Ordered maps, and the queue of pending entries that are unique both by priority and by key. */
module OrderedCollection {
  import opened Common

  ghost predicate IsMin<V>(m: map<nat, V>, k: nat) {
    k in m && forall j | j in m :: k <= j
  }

  method FindMin<V>(m: map<nat, V>) returns (least: Option<nat>)
    ensures least.None? <==> m.Keys == {}
    ensures least.Some? ==> IsMin(m, least.value)
  {
    least := None;
    var left := m.Keys;
    while left != {}
      invariant left <= m.Keys && (least.None? <==> left == m.Keys)
      invariant least.Some? ==> least.value in m && forall j | j in m && j !in left :: least.value <= j
      decreases left
    {
      var k :| k in left;
      if least.None? || k < least.value {
        least := Some(k);
      }
      left := left - {k};
    }
  }

  method InsertUnique<V>(m: map<nat, V>, k: nat, v: V) returns (m': map<nat, V>)
    requires k !in m
    ensures m' == m[k := v]
  {
    m' := m[k := v];
  }

  /** Remove the entry with the smallest key, if there is one and `ready` holds of it. */
  method PopMinWhen<V>(m: map<nat, V>, ready: (nat, V) -> bool) returns (m': map<nat, V>, popped: Option<(nat, V)>)
    ensures popped.None? ==> m' == m && forall k | IsMin(m, k) :: !ready(k, m[k])
    ensures popped.Some? ==>
      var (k, v) := popped.value; IsMin(m, k) && m[k] == v && ready(k, v) && m' == m - {k}
  {
    var least := FindMin(m);
    if least.Some? && ready(least.value, m[least.value]) {
      popped := Some((least.value, m[least.value]));
      m' := m - {least.value};
    } else {
      popped, m' := None, m;
    }
  }
}

module UniquePriorityQueue {
  import opened Common
  import opened OrderedCollection

  datatype Status = Pending | Ready

  datatype Item<K, V> = Item(status: Status, key: K, value: V)

  type Items<K, V> = map<nat, Item<K, V>>

  /** Each key is the index of exactly the priority that holds it. */
  ghost predicate Inverse<K, V>(priority: Items<K, V>, keyToPriority: map<K, nat>) {
    && (forall p | p in priority :: priority[p].key in keyToPriority && keyToPriority[priority[p].key] == p)
    && (forall k | k in keyToPriority :: keyToPriority[k] in priority && priority[keyToPriority[k]].key == k)
  }

  lemma RemoveInverse<K, V>(priority: Items<K, V>, keyToPriority: map<K, nat>, p: nat)
    requires Inverse(priority, keyToPriority) && p in priority
    ensures Inverse(priority - {p}, keyToPriority - {priority[p].key})
  {
  }

  class Queue<K(==), V> {
    var priority: Items<K, V>
    var keyToPriority: map<K, nat>

    ghost predicate Valid()
      reads this
    {
      Inverse(priority, keyToPriority)
    }

    constructor ()
      ensures Valid() && priority == map[]
    {
      priority, keyToPriority := map[], map[];
    }

    function FindKey(k: K): (p: Option<nat>)
      requires Valid()
      reads this
      ensures p.Some? ==> p.value in priority && priority[p.value].key == k
      ensures p.None? ==> forall q | q in priority :: priority[q].key != k
    {
      if k in keyToPriority then Some(keyToPriority[k]) else None
    }

    function FindValueOfKey(k: K): (v: Option<V>)
      requires Valid()
      reads this
      ensures v.Some? <==> exists q :: q in priority && priority[q].key == k
      ensures v.Some? ==> forall q | q in priority && priority[q].key == k :: v.value == priority[q].value
    {
      if k in keyToPriority then
        assert keyToPriority[k] in priority;
        Some(priority[keyToPriority[k]].value)
      else None
    }

    /** Refuses a priority or a key that is already queued. */
    method PutValue(p: nat, k: K, v: V) returns (ok: bool)
      requires Valid()
      modifies this
      ensures Valid()
      ensures ok <==> p !in old(priority) && forall q | q in old(priority) :: old(priority)[q].key != k
      ensures priority == if ok then old(priority)[p := Item(Pending, k, v)] else old(priority)
    {
      if p in priority || k in keyToPriority {
        assert k in keyToPriority ==> keyToPriority[k] in priority;
        return false;
      }
      priority := InsertUnique(priority, p, Item(Pending, k, v));
      keyToPriority := keyToPriority[k := p];
      ok := true;
    }

    method UpdateValue(k: K, f: V -> V)
      requires Valid() && FindKey(k).Some?
      modifies this
      ensures Valid()
      ensures var p := old(FindKey(k)).value;
        priority == old(priority)[p := old(priority)[p].(value := f(old(priority)[p].value))]
    {
      var p := keyToPriority[k];
      priority := priority[p := priority[p].(value := f(priority[p].value))];
    }

    method SetReady(p: nat)
      requires Valid() && p in priority
      modifies this
      ensures Valid()
      ensures priority == old(priority)[p := old(priority)[p].(status := Ready)]
    {
      priority := priority[p := priority[p].(status := Ready)];
    }

    /** Take the entry of smallest priority, but only once it is ready. */
    method PopMinIfComplete() returns (popped: Option<(nat, K, V)>)
      requires Valid()
      modifies this
      ensures Valid()
      ensures popped.None? ==>
        priority == old(priority) && forall p | IsMin(priority, p) :: priority[p].status == Pending
      ensures popped.Some? ==>
        var (p, k, v) := popped.value;
        IsMin(old(priority), p) && old(priority)[p] == Item(Ready, k, v) && priority == old(priority) - {p}
    {
      var rest, least := PopMinWhen(priority, (p, item: Item<K, V>) => item.status == Ready);
      if least.None? {
        return None;
      }
      var (p, item) := least.value;
      RemoveInverse(priority, keyToPriority, p);
      priority := rest;
      keyToPriority := keyToPriority - {item.key};
      popped := Some((p, item.key, item.value));
    }
  }
}
