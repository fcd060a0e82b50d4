/**
 The maintenance cursor over stored proofs: each pass visits at most 32 keys after the
 cursor, and a pass that finds none starts the next cycle from the beginning.
 */
module Cleanup {
  import opened Wrappers

  const MAX_PER_PASS := 32

  /** Keys in the order of the bucket; only the order matters. */
  type Key = int

  ghost predicate Sorted(bucket: seq<Key>) {
    forall i, j :: 0 <= i < j < |bucket| ==> bucket[i] < bucket[j]
  }

  predicate Beyond(after: Option<Key>, key: Key) {
    after == None || after.value < key
  }

  predicate UpTo(after: Option<Key>, key: Key) {
    after.Some? && key <= after.value
  }

  ghost predicate NoneBeyond(bucket: seq<Key>, after: Option<Key>) {
    forall k :: k in bucket ==> !Beyond(after, k)
  }

  /** A pass visits, in order, stored keys beyond the old cursor up to the new one, and misses none between. */
  ghost predicate Visits(bucket: seq<Key>, after: Option<Key>, visited: seq<Key>, next: Option<Key>) {
    && |visited| <= MAX_PER_PASS && Sorted(visited)
    && next == (if visited == [] then after else Some(visited[|visited| - 1]))
    && (forall k :: k in visited <==> k in bucket && Beyond(after, k) && UpTo(next, k))
  }

  /** The first stored key beyond the cursor, as a position. */
  method Seek(bucket: seq<Key>, after: Option<Key>) returns (at: nat)
    requires Sorted(bucket)
    ensures at <= |bucket| && forall i :: 0 <= i < |bucket| ==> (i < at <==> !Beyond(after, bucket[i]))
  {
    if after == None {
      return 0;
    }
    at := 0;
    while at < |bucket| && bucket[at] < after.value
      invariant at <= |bucket| && forall i :: 0 <= i < at ==> bucket[i] < after.value
    {
      at := at + 1;
    }
    if at < |bucket| && bucket[at] == after.value {
      at := at + 1;
    }
  }

  /** One pass; `stop` is how many keys it handles before its context ends. */
  method CleanupPass(bucket: seq<Key>, after: Option<Key>, stop: nat) returns (visited: seq<Key>, next: Option<Key>)
    requires Sorted(bucket)
    ensures NoneBeyond(bucket, after) ==> visited == [] && next == None
    ensures !NoneBeyond(bucket, after) ==> Visits(bucket, after, visited, next) && (stop > 0 ==> visited != [])
    ensures |visited| <= stop && (stop >= 32 && |visited| < 32 ==> next == None || NoneBeyond(bucket, next))
  {
    var at := Seek(bucket, after);
    var end := at;
    while end < |bucket| && end - at < MAX_PER_PASS
      invariant at <= end <= |bucket| && end - at <= MAX_PER_PASS
    {
      end := end + 1;
    }
    var keys := bucket[at..end];
    if keys == [] {
      return [], None;
    }
    assert bucket[at] in bucket && Beyond(after, bucket[at]);
    visited, next := [], after;
    var i := 0;
    while i < |keys| && i < stop
      invariant i <= |keys| && i <= stop && visited == bucket[at..at + i] && next == if i == 0 then after else Some(bucket[at + i - 1])
    {
      visited, next := visited + [keys[i]], Some(keys[i]);
      i := i + 1;
    }
    WindowVisits(bucket, after, at, i, visited, next);
    if at + i == |bucket| && i > 0 {
      assert forall k :: k in bucket ==> k <= bucket[at + i - 1];
    }
  }

  lemma WindowVisits(bucket: seq<Key>, after: Option<Key>, at: nat, n: nat, visited: seq<Key>, next: Option<Key>)
    requires Sorted(bucket) && at + n <= |bucket| && n <= MAX_PER_PASS && visited == bucket[at..at + n]
    requires forall i :: 0 <= i < |bucket| ==> (i < at <==> !Beyond(after, bucket[i]))
    requires next == if n == 0 then after else Some(bucket[at + n - 1])
    ensures Visits(bucket, after, visited, next)
  {
    forall k | k in bucket && Beyond(after, k) && UpTo(next, k)
      ensures k in visited
    {
      var i :| 0 <= i < |bucket| && bucket[i] == k;
      assert n > 0 && at <= i < at + n;
      assert visited[i - at] == k;
    }
    forall k | k in visited
      ensures k in bucket && Beyond(after, k) && UpTo(next, k)
    {
      var i :| 0 <= i < n && visited[i] == k;
      assert bucket[at + i] == k;
    }
  }

  // Whole cycles.

  /** One pass of a cycle: what was stored then, what it visited, and where it left the cursor. */
  datatype Pass = Pass(bucket: seq<Key>, visited: seq<Key>, next: Option<Key>)

  ghost predicate Chain(after: Option<Key>, passes: seq<Pass>)
    decreases |passes|
  {
    passes == [] || (Visits(passes[0].bucket, after, passes[0].visited, passes[0].next) && Chain(passes[0].next, passes[1..]))
  }

  ghost function Cursor(after: Option<Key>, passes: seq<Pass>): Option<Key> {
    if passes == [] then after else passes[|passes| - 1].next
  }

  /** How many passes visit a key. */
  ghost function Times(passes: seq<Pass>, k: Key): nat
    decreases |passes|
  {
    if passes == [] then 0 else (if k in passes[0].visited then 1 else 0) + Times(passes[1..], k)
  }

  lemma {:induction false} TimesBetween(after: Option<Key>, passes: seq<Pass>, k: Key)
    requires Chain(after, passes) && forall i :: 0 <= i < |passes| ==> k in passes[i].bucket
    ensures Times(passes, k) == if Beyond(after, k) && UpTo(Cursor(after, passes), k) then 1 else 0
    ensures UpTo(after, k) ==> UpTo(Cursor(after, passes), k)
    decreases |passes|
  {
    if passes != [] {
      var p := passes[0];
      assert k in p.visited <==> Beyond(after, k) && UpTo(p.next, k);
      CursorRises(p.bucket, after, p.visited, p.next, k);
      assert forall i :: 0 <= i < |passes[1..]| ==> passes[1..][i] == passes[i + 1];
      TimesBetween(p.next, passes[1..], k);
      assert Cursor(p.next, passes[1..]) == Cursor(after, passes);
    }
  }

  lemma CursorRises(bucket: seq<Key>, after: Option<Key>, visited: seq<Key>, next: Option<Key>, k: Key)
    requires Visits(bucket, after, visited, next)
    ensures UpTo(after, k) ==> UpTo(next, k)
  {
    if visited != [] {
      assert visited[|visited| - 1] in visited;
    }
  }

  /** From one start to the next, every key that stays stored is visited exactly once, whatever else comes and goes. */
  lemma CycleIsFair(passes: seq<Pass>, bucket: seq<Key>, k: Key)
    requires Chain(None, passes) && NoneBeyond(bucket, Cursor(None, passes))
    requires k in bucket && forall i :: 0 <= i < |passes| ==> k in passes[i].bucket
    ensures Times(passes, k) == 1
  {
    TimesBetween(None, passes, k);
    assert !Beyond(Cursor(None, passes), k);
  }
}
