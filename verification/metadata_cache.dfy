/**
 The authenticated-metadata cache: four entries stamped by a use clock. It behaves as a
 list of keys from the least to the most recently used.
 */
module MetadataCache {
  import opened Wrappers

  datatype Key = Key(text: string)

  datatype Entry<T> = Entry(value: T, used: nat)

  const MAX_ENTRIES := 4

  /** `order` lists the cached keys by the time of their last use. */
  ghost predicate Orders<T>(order: seq<Key>, entries: map<Key, Entry<T>>, clock: nat) {
    && (forall k :: k in order <==> k in entries)
    && (forall i :: 0 <= i < |order| ==> entries[order[i]].used <= clock)
    && (forall i, j :: 0 <= i < j < |order| ==> entries[order[i]].used < entries[order[j]].used)
  }

  function Removed(order: seq<Key>, key: Key): seq<Key> {
    if order == [] then []
    else
      var last, init := order[|order| - 1], Removed(order[..|order| - 1], key);
      if last == key then init else init + [last]
  }

  /** A use moves a key to the end. */
  function Touched(order: seq<Key>, key: Key): seq<Key> {
    Removed(order, key) + [key]
  }

  /** An insertion into a full cache first drops the least recently used key. */
  function Inserted(order: seq<Key>, key: Key): seq<Key> {
    Touched(if |order| >= MAX_ENTRIES then order[1..] else order, key)
  }

  class GenerationCache<T> {
    var entries: map<Key, Entry<T>>
    var clock: nat

    ghost predicate Valid(order: seq<Key>)
      reads this
    {
      Orders(order, entries, clock) && |entries| <= MAX_ENTRIES
    }

    constructor ()
      ensures entries == map[] && Valid([])
    {
      entries, clock := map[], 0;
    }

    /** Returns a cached value and marks it as just used. */
    method Lookup(key: Key, ghost order: seq<Key>) returns (r: Option<T>)
      requires Valid(order)
      modifies this
      ensures r == if key in old(entries) then Some(old(entries)[key].value) else None
      ensures Valid(if key in old(entries) then Touched(order, key) else order)
      ensures entries.Keys == old(entries).Keys && forall k :: k in entries ==> entries[k].value == old(entries)[k].value
    {
      hide Orders, Removed;
      if key !in entries {
        return None;
      }
      r := Some(entries[key].value);
      SameSize(entries, key, Entry(entries[key].value, clock + 1));
      Stamped(order, entries, clock, key, entries[key].value);
      clock := clock + 1;
      entries := entries[key := Entry(entries[key].value, clock)];
    }

    /** Drops the least recently used entry of a full cache. */
    method MakeRoom(ghost order: seq<Key>)
      requires Valid(order)
      modifies this`entries
      ensures Orders(if |order| >= MAX_ENTRIES then order[1..] else order, entries, clock) && |entries| < MAX_ENTRIES
      ensures forall k :: k in entries ==> k in old(entries) && entries[k] == old(entries)[k]
    {
      hide Orders;
      OrderSize(order, entries, clock);
      if |entries| >= MAX_ENTRIES {
        var oldest := LeastRecent();
        OldestIsFirst(order, entries, clock, oldest);
        EvictFirst(order, entries, clock);
        SizeDrops(entries, oldest);
        entries := entries - {oldest};
      }
    }

    /** Stores a prepared value; a full cache makes room first. */
    method Insert(key: Key, value: T, ghost order: seq<Key>)
      requires Valid(order)
      modifies this
      ensures Valid(Inserted(order, key)) && key in entries && entries[key].value == value
      ensures forall k :: k in entries && k != key ==> k in old(entries) && entries[k] == old(entries)[k]
    {
      hide Orders, Removed;
      MakeRoom(order);
      Stamped(if |order| >= MAX_ENTRIES then order[1..] else order, entries, clock, key, value);
      SizeGrows(entries, key, Entry(value, clock + 1));
      clock := clock + 1;
      entries := entries[key := Entry(value, clock)];
    }

    method LeastRecent() returns (oldest: Key)
      requires entries != map[]
      ensures oldest in entries && forall k :: k in entries ==> entries[oldest].used <= entries[k].used
    {
      var todo := entries.Keys;
      oldest :| oldest in todo;
      todo := todo - {oldest};
      while todo != {}
        invariant todo <= entries.Keys && oldest in entries
        invariant forall k :: k in entries && k !in todo ==> entries[oldest].used <= entries[k].used
        decreases todo
      {
        var k :| k in todo;
        if entries[k].used < entries[oldest].used {
          oldest := k;
        }
        todo := todo - {k};
      }
    }
  }

  lemma {:induction false} RemovedFacts(order: seq<Key>, key: Key)
    ensures |Removed(order, key)| <= |order|
    ensures forall k :: k in Removed(order, key) <==> k in order && k != key
    decreases |order|
  {
    if order != [] {
      RemovedFacts(order[..|order| - 1], key);
      assert order == order[..|order| - 1] + [order[|order| - 1]];
    }
  }

  /** Removing a key keeps the order of the others. */
  lemma {:induction false} RemovedOrders<T>(order: seq<Key>, entries: map<Key, Entry<T>>, key: Key)
    requires forall k :: k in order ==> k in entries
    requires forall i, j :: 0 <= i < j < |order| ==> entries[order[i]].used < entries[order[j]].used
    ensures forall k :: k in Removed(order, key) ==> k in order
    ensures forall i, j :: 0 <= i < j < |Removed(order, key)| ==> entries[Removed(order, key)[i]].used < entries[Removed(order, key)[j]].used
    decreases |order|
  {
    RemovedFacts(order, key);
    if order != [] {
      var n := |order| - 1;
      var init, rest := order[..n], Removed(order[..n], key);
      RemovedFacts(init, key);
      RemovedOrders(init, entries, key);
      assert forall i :: 0 <= i < |rest| ==> rest[i] in init;
      assert forall k :: k in init ==> entries[k].used < entries[order[n]].used;
    }
  }

  /** A fresh stamp makes a key the most recent one. */
  lemma Stamped<T>(order: seq<Key>, entries: map<Key, Entry<T>>, clock: nat, key: Key, value: T)
    requires Orders(order, entries, clock)
    ensures Orders(Touched(order, key), entries[key := Entry(value, clock + 1)], clock + 1)
  {
    hide Removed;
    RemovedFacts(order, key);
    RemovedOrders(order, entries, key);
    var rest, next, all := Removed(order, key), entries[key := Entry(value, clock + 1)], Touched(order, key);
    forall i | 0 <= i < |rest|
      ensures rest[i] in entries && rest[i] != key && next[rest[i]] == entries[rest[i]] && next[rest[i]].used <= clock
    {
      assert rest[i] in order;
      var j :| 0 <= j < |order| && order[j] == rest[i];
    }
    forall i, j | 0 <= i < j < |all|
      ensures next[all[i]].used < next[all[j]].used
    {
      assert all[i] == rest[i];
      if j < |rest| {
        assert all[j] == rest[j];
      }
    }
    assert forall k :: k in all <==> k in rest || k == key;
  }

  lemma OldestIsFirst<T>(order: seq<Key>, entries: map<Key, Entry<T>>, clock: nat, oldest: Key)
    requires Orders(order, entries, clock) && oldest in entries && forall k :: k in entries ==> entries[oldest].used <= entries[k].used
    ensures order != [] && order[0] == oldest
  {
    var i :| 0 <= i < |order| && order[i] == oldest;
    assert order[0] in entries;
  }

  lemma EvictFirst<T>(order: seq<Key>, entries: map<Key, Entry<T>>, clock: nat)
    requires Orders(order, entries, clock) && order != []
    ensures Orders(order[1..], entries - {order[0]}, clock)
  {
    var rest, next := order[1..], entries - {order[0]};
    forall i | 0 <= i < |rest|
      ensures rest[i] != order[0] && rest[i] in next && next[rest[i]] == entries[order[i + 1]] && next[rest[i]].used <= clock
    {
      assert entries[order[0]].used < entries[order[i + 1]].used;
    }
    forall k | k in next
      ensures k in rest
    {
      var i :| 0 <= i < |order| && order[i] == k;
      assert rest[i - 1] == k;
    }
    forall i, j | 0 <= i < j < |rest|
      ensures next[rest[i]].used < next[rest[j]].used
    {
      assert entries[order[i + 1]].used < entries[order[j + 1]].used;
    }
  }

  lemma {:induction false} OrderSize<T>(order: seq<Key>, entries: map<Key, Entry<T>>, clock: nat)
    requires Orders(order, entries, clock)
    ensures |order| == |entries|
    decreases |order|
  {
    if order == [] {
      assert entries == map[];
    } else {
      EvictFirst(order, entries, clock);
      OrderSize(order[1..], entries - {order[0]}, clock);
      SizeDrops(entries, order[0]);
      assert order[0] in order;
    }
  }

  lemma SizeDrops<T>(entries: map<Key, Entry<T>>, key: Key)
    requires key in entries
    ensures |entries - {key}| == |entries| - 1
  {
    var next := entries - {key};
    assert next.Keys == entries.Keys - {key};
    assert |next| == |next.Keys| && |entries| == |entries.Keys|;
  }

  lemma SizeGrows<T>(entries: map<Key, Entry<T>>, key: Key, e: Entry<T>)
    ensures |entries[key := e]| <= |entries| + 1
  {
    var next := entries[key := e];
    assert next.Keys == entries.Keys + {key};
    assert |next| == |next.Keys| && |entries| == |entries.Keys|;
  }

  lemma SameSize<T>(entries: map<Key, Entry<T>>, key: Key, e: Entry<T>)
    requires key in entries
    ensures |entries[key := e]| == |entries|
  {
    var next := entries[key := e];
    assert next.Keys == entries.Keys;
    assert |next| == |next.Keys| && |entries| == |entries.Keys|;
  }

  /** What an insertion keeps: everything while there is room, and everything but the least recent key of a full cache. */
  lemma InsertedKeeps(order: seq<Key>, key: Key, k: Key)
    requires forall i, j :: 0 <= i < j < |order| ==> order[i] != order[j]
    ensures k in Inserted(order, key) <==> k == key || (k in order && !(|order| >= 4 && k == order[0]))
    ensures Inserted(order, key)[|Inserted(order, key)| - 1] == key
  {
    hide Removed;
    var rest := if |order| >= MAX_ENTRIES then order[1..] else order;
    RemovedFacts(rest, key);
    if |order| >= MAX_ENTRIES {
      assert order == [order[0]] + rest;
    }
  }
}
