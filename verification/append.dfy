/**
 Appending a file to a Mode 2 generation. User MDUs sit behind the witness MDUs, so when
 the number of witness MDUs grows every existing stripe moves to a new index, and the
 witness stream and the roots are rebuilt around it.
 */
module Append {
  import opened Wrappers
  import opened Codec

  /** `live` is false for a tombstone. */
  datatype Record = Record(live: bool, start: nat, len: nat)

  /** What erasure coding makes of one user MDU: its commitments and one shard per slot. */
  datatype Stripe = Stripe(flat: Bytes, shards: seq<Bytes>)

  datatype Root = Root(bytes: Bytes)

  datatype Key = Key(index: nat, slot: nat)

  /** The coding of one deal: commitments per user MDU, slots, and the foreign functions. */
  datatype Kit = Kit(commitments: nat, slots: nat, expand: Bytes -> Stripe, root: Bytes -> Root, mduRoot: Bytes -> Root,
                     table: (seq<Record>, map<nat, Root>) -> Bytes)

  /** A generation directory: its file table and roots, which MDU 0 holds, whole MDUs, and shards. */
  datatype Generation = Generation(records: seq<Record>, roots: map<nat, Root>, mdus: map<nat, Bytes>, shards: map<Key, Bytes>)

  function Span(kit: Kit): nat {
    kit.commitments * 48
  }

  /** Witness MDUs for `n` user MDUs. */
  function Witnesses(kit: Kit, n: nat): nat {
    if n * Span(kit) == 0 then 0 else 1 + (n * Span(kit) - 1) / CAPACITY
  }

  function Mdus(end: nat): nat {
    if end == 0 then 0 else 1 + (end - 1) / CAPACITY
  }

  /** User MDUs a file of `len` bytes gets; an empty file still gets one. */
  function FileMdus(len: nat): (n: nat)
    ensures n > 0
  {
    if len == 0 then 1 else Mdus(len)
  }

  function Part(s: Bytes, i: nat): (r: Bytes)
    ensures |r| <= CAPACITY
  {
    if i * CAPACITY >= |s| then [] else s[i * CAPACITY..if (i + 1) * CAPACITY < |s| then (i + 1) * CAPACITY else |s|]
  }

  function Stripes(kit: Kit, data: Bytes): seq<Stripe> {
    seq(FileMdus(|data|), i requires 0 <= i => kit.expand(Part(data, i)))
  }

  function Stream(users: seq<Stripe>): Bytes {
    if users == [] then [] else Stream(users[..|users| - 1]) + users[|users| - 1].flat
  }

  predicate Shaped(kit: Kit, users: seq<Stripe>) {
    forall u :: 0 <= u < |users| ==> |users[u].flat| == Span(kit) && |users[u].shards| >= kit.slots
  }

  function EndOf(r: Record): nat {
    r.start + r.len
  }

  /** The largest end of the records, of the live ones only if `liveOnly`. */
  function MaxEnd(records: seq<Record>, liveOnly: bool): nat {
    if records == [] then 0
    else
      var last, rest := records[|records| - 1], MaxEnd(records[..|records| - 1], liveOnly);
      if (liveOnly && !last.live) || EndOf(last) <= rest then rest else EndOf(last)
  }

  /** Files follow each other on MDU boundaries and take `n` user MDUs in all. */
  predicate Laid(records: seq<Record>, n: nat) {
    if records == [] then n == 0
    else
      var last := records[|records| - 1];
      && n >= FileMdus(last.len) && last.start == (n - FileMdus(last.len)) * CAPACITY
      && Laid(records[..|records| - 1], n - FileMdus(last.len))
  }

  ghost predicate SlotAt(shards: map<Key, Bytes>, index: nat, slot: nat, shard: Bytes) {
    Key(index, slot) in shards && shards[Key(index, slot)] == shard
  }

  ghost predicate ShardAt(shards: map<Key, Bytes>, base: nat, users: seq<Stripe>, u: nat, slot: nat)
    requires u < |users| && slot < |users[u].shards|
  {
    SlotAt(shards, base + u, slot, users[u].shards[slot])
  }

  ghost predicate ShardsHold(kit: Kit, shards: map<Key, Bytes>, base: nat, users: seq<Stripe>)
    requires Shaped(kit, users)
  {
    forall u, slot :: 0 <= u < |users| && 0 <= slot < kit.slots ==> ShardAt(shards, base, users, u, slot)
  }

  ghost predicate WitnessAt(mdus: map<nat, Bytes>, stream: Bytes, i: nat) {
    1 + i in mdus && mdus[1 + i] == Encoded(Part(stream, i))
  }

  ghost predicate WitnessHolds(mdus: map<nat, Bytes>, w: nat, stream: Bytes) {
    forall i :: 0 <= i < w ==> WitnessAt(mdus, stream, i)
  }

  ghost predicate RootAt(roots: map<nat, Root>, index: nat, root: Root) {
    index in roots && roots[index] == root
  }

  ghost predicate RootsHold(kit: Kit, roots: map<nat, Root>, w: nat, users: seq<Stripe>) {
    forall u :: 0 <= u < |users| ==> RootAt(roots, w + u, kit.root(users[u].flat))
  }

  ghost predicate WitnessRootsHold(kit: Kit, roots: map<nat, Root>, w: nat, stream: Bytes) {
    forall i :: 0 <= i < w ==> RootAt(roots, i, kit.mduRoot(Encoded(Part(stream, i))))
  }

  /** The directory is exactly the layout of `users`: stripes, witness stream and user roots at their indices. */
  ghost predicate Represents(kit: Kit, g: Generation, users: seq<Stripe>) {
    var w := Witnesses(kit, |users|);
    && Shaped(kit, users)
    && ShardsHold(kit, g.shards, 1 + w, users)
    && WitnessHolds(g.mdus, w, Stream(users))
    && RootsHold(kit, g.roots, w, users)
    && WitnessRootsHold(kit, g.roots, w, Stream(users))
    && (forall k :: k in g.shards ==> k.index <= w + |users|)
    && (forall k :: k in g.mdus ==> k <= w + |users|)
    && 0 in g.mdus && g.mdus[0] == kit.table(g.records, g.roots)
  }

  // The witness stream.

  lemma {:induction false} StreamLength(kit: Kit, users: seq<Stripe>)
    requires Shaped(kit, users)
    ensures |Stream(users)| == |users| * Span(kit)
  {
    if users != [] {
      StreamLength(kit, users[..|users| - 1]);
      assert |users| * Span(kit) == (|users| - 1) * Span(kit) + Span(kit);
    }
  }

  lemma {:induction false} StreamJoin(a: seq<Stripe>, b: seq<Stripe>)
    ensures Stream(a + b) == Stream(a) + Stream(b)
    decreases |b|
  {
    if b == [] {
      assert a + b == a;
    } else {
      assert (a + b)[..|a + b| - 1] == a + b[..|b| - 1];
      StreamJoin(a, b[..|b| - 1]);
    }
  }

  /** The stream holds each user MDU's commitments in its own span. */
  lemma {:induction false} StreamAt(kit: Kit, users: seq<Stripe>, u: nat)
    requires Shaped(kit, users) && u < |users|
    ensures Offset(kit, u) + Span(kit) <= |Stream(users)|
    ensures SpanAt(kit, Stream(users), u) == users[u].flat
    decreases |users|
  {
    var init := users[..|users| - 1];
    if u == |users| - 1 {
      StreamLength(kit, init);
    } else {
      StreamAt(kit, init, u);
      hide Offset, Span;
      SliceOfPrefix(Stream(init), users[|users| - 1].flat, Offset(kit, u), Offset(kit, u) + Span(kit));
    }
  }

  /** The parts of a stream, one per witness MDU, are the stream. */
  function Parts(s: Bytes, n: nat): Bytes {
    if n == 0 then [] else Parts(s, n - 1) + Part(s, n - 1)
  }

  lemma {:induction false} PartsPrefix(s: Bytes, n: nat)
    ensures Parts(s, n) == if n * CAPACITY < |s| then s[..n * CAPACITY] else s
  {
    if n > 0 {
      PartsPrefix(s, n - 1);
    }
  }

  lemma EnoughWitnesses(kit: Kit, n: nat)
    ensures Witnesses(kit, n) * CAPACITY >= n * Span(kit)
    ensures n * Span(kit) > 0 ==> (Witnesses(kit, n) - 1) * CAPACITY < n * Span(kit)
  {
  }

  lemma PartLength(s: Bytes, i: nat)
    ensures |Part(s, i)| == if i * CAPACITY >= |s| then 0 else if |s| - i * CAPACITY > CAPACITY then CAPACITY else |s| - i * CAPACITY
  {
  }

  /** Reads the witness MDUs back into the commitment stream. */
  method DecodeWitness(mdus: map<nat, Bytes>, w: nat, total: nat, ghost stream: Bytes) returns (r: Result<Bytes>)
    requires w * CAPACITY >= total
    ensures r.Ok? ==> |r.value| == total
    ensures WitnessHolds(mdus, w, stream) && |stream| == total ==> r == Ok(stream)
  {
    hide Encoded, Decoded, Part;
    var out: Bytes := [];
    ghost var good := WitnessHolds(mdus, w, stream) && |stream| == total;
    for i := 0 to w
      invariant good ==> out == Parts(stream, i)
    {
      assert good ==> WitnessAt(mdus, stream, i);
      if 1 + i !in mdus {
        return Err;
      }
      var start := i * CAPACITY;
      var segLen := 0;
      if start < total {
        segLen := if total - start > CAPACITY then CAPACITY else total - start;
      }
      var decoded := DecodePayloadFromMdu(mdus[1 + i], segLen);
      if good {
        PartLength(stream, i);
        RoundTrip(Part(stream, i));
      }
      if decoded.Err? {
        return Err;
      }
      out := out + decoded.value;
    }
    PartsPrefix(stream, w);
    if |out| > total {
      out := out[..total];
    }
    if |out| != total {
      return Err;
    }
    return Ok(out);
  }

  // Moving and making stripes.

  /** Everything of `before` is still there, and only the stripe at `index` is new. */
  ghost predicate Adds(before: map<Key, Bytes>, after: map<Key, Bytes>, index: nat) {
    && (forall k :: k in before && k.index < index ==> k in after && after[k] == before[k])
    && (forall k :: k in after ==> k in before || k.index == index)
  }

  ghost predicate StripeAt(kit: Kit, shards: map<Key, Bytes>, index: nat, stripe: Stripe)
    requires |stripe.shards| >= kit.slots
  {
    forall slot :: 0 <= slot < kit.slots ==> SlotAt(shards, index, slot, stripe.shards[slot])
  }

  lemma ShardsGrow(kit: Kit, before: map<Key, Bytes>, after: map<Key, Bytes>, base: nat, users: seq<Stripe>, stripe: Stripe)
    requires Shaped(kit, users) && |stripe.shards| >= kit.slots && |stripe.flat| == Span(kit)
    requires ShardsHold(kit, before, base, users) && Adds(before, after, base + |users|) && StripeAt(kit, after, base + |users|, stripe)
    ensures Shaped(kit, users + [stripe]) && ShardsHold(kit, after, base, users + [stripe])
  {
    var more := users + [stripe];
    forall u, slot | 0 <= u < |more| && 0 <= slot < kit.slots
      ensures ShardAt(after, base, more, u, slot)
    {
      if u < |users| {
        assert ShardAt(before, base, users, u, slot);
      }
    }
  }

  /** Copies every slot of one stripe. */
  method CopyStripe(kit: Kit, shards: map<Key, Bytes>, from: nat, to: nat, before: map<Key, Bytes>)
    returns (ok: bool, after: map<Key, Bytes>)
    ensures ok <==> forall slot :: 0 <= slot < kit.slots ==> Key(from, slot) in shards
    ensures ok ==> Adds(before, after, to)
    ensures ok ==> forall slot :: 0 <= slot < kit.slots ==> SlotAt(after, to, slot, shards[Key(from, slot)])
  {
    after := before;
    for slot := 0 to kit.slots
      invariant Adds(before, after, to)
      invariant forall t :: 0 <= t < slot ==> Key(from, t) in shards && SlotAt(after, to, t, shards[Key(from, t)])
    {
      if Key(from, slot) !in shards {
        return false, before;
      }
      after := after[Key(to, slot) := shards[Key(from, slot)]];
    }
    ok := true;
  }

  /** Copies `n` stripes from one index to another. */
  method CopyShards(kit: Kit, shards: map<Key, Bytes>, from: nat, to: nat, n: nat, ghost users: seq<Stripe>)
    returns (ok: bool, copied: map<Key, Bytes>)
    requires Shaped(kit, users) && |users| == n
    ensures ShardsHold(kit, shards, from, users) ==> ok && ShardsHold(kit, copied, to, users)
    ensures forall k :: k in copied ==> k.index < to + n
  {
    hide Adds;
    copied := map[];
    ghost var good := ShardsHold(kit, shards, from, users);
    for u := 0 to n
      invariant forall k :: k in copied ==> k.index < to + u
      invariant good ==> ShardsHold(kit, copied, to, users[..u])
    {
      if good {
        StripeHeld(kit, shards, from, users, u);
        ghost var index := from + u;
        forall slot | 0 <= slot < kit.slots
          ensures Key(index, slot) in shards
        {
          assert SlotAt(shards, index, slot, users[u].shards[slot]);
        }
      }
      var found, more := CopyStripe(kit, shards, from + u, to + u, copied);
      if !found {
        return false, map[];
      }
      AddsBound(copied, more, to + u);
      assert users[..u + 1] == users[..u] + [users[u]];
      if good {
        assert StripeAt(kit, more, to + u, users[u]);
        ShardsGrow(kit, copied, more, to, users[..u], users[u]);
      }
      copied := more;
    }
    assert users[..n] == users;
    ok := true;
  }

  lemma StripeHeld(kit: Kit, shards: map<Key, Bytes>, base: nat, users: seq<Stripe>, u: nat)
    requires Shaped(kit, users) && ShardsHold(kit, shards, base, users) && u < |users|
    ensures StripeAt(kit, shards, base + u, users[u])
  {
    forall slot | 0 <= slot < kit.slots
      ensures SlotAt(shards, base + u, slot, users[u].shards[slot])
    {
      assert ShardAt(shards, base, users, u, slot);
    }
  }

  lemma AddsBound(before: map<Key, Bytes>, after: map<Key, Bytes>, index: nat)
    requires Adds(before, after, index) && forall k :: k in before ==> k.index < index
    ensures forall k :: k in after ==> k.index < index + 1
    ensures forall k :: k in before ==> k in after && after[k] == before[k]
  {
  }

  /** Codes a file MDU by MDU and stores its shards from index `base` on. */
  method EncodeFile(kit: Kit, data: Bytes, base: nat, existing: map<Key, Bytes>)
    returns (ok: bool, stripes: seq<Stripe>, shards: map<Key, Bytes>)
    requires forall k :: k in existing ==> k.index < base
    ensures ok <==> Shaped(kit, Stripes(kit, data))
    ensures ok ==> stripes == Stripes(kit, data) && ShardsHold(kit, shards, base, stripes)
    ensures ok ==> forall k :: k in existing ==> k in shards && shards[k] == existing[k]
    ensures ok ==> forall k :: k in shards ==> k.index < base + |stripes|
  {
    hide Adds, StripeAt;
    stripes, shards := [], existing;
    ghost var all := Stripes(kit, data);
    for i := 0 to FileMdus(|data|)
      invariant stripes == all[..i] && Shaped(kit, stripes) && ShardsHold(kit, shards, base, stripes)
      invariant forall k :: k in existing ==> k in shards && shards[k] == existing[k]
      invariant forall k :: k in shards ==> k.index < base + i
    {
      var stripe := kit.expand(Part(data, i));
      assert stripe == all[i];
      if |stripe.flat| != Span(kit) || |stripe.shards| < kit.slots {
        return false, [], map[];
      }
      var more := StoreStripe(kit, shards, base + i, stripe);
      AddsBound(shards, more, base + i);
      ShardsGrow(kit, shards, more, base, stripes, stripe);
      shards, stripes := more, stripes + [stripe];
    }
    assert all[..FileMdus(|data|)] == all;
    ok := true;
  }

  method StoreStripe(kit: Kit, before: map<Key, Bytes>, index: nat, stripe: Stripe) returns (after: map<Key, Bytes>)
    requires |stripe.shards| >= kit.slots
    ensures Adds(before, after, index) && StripeAt(kit, after, index, stripe)
  {
    after := before;
    for slot := 0 to kit.slots
      invariant Adds(before, after, index)
      invariant forall t :: 0 <= t < slot ==> SlotAt(after, index, t, stripe.shards[t])
    {
      after := after[Key(index, slot) := stripe.shards[slot]];
    }
  }

  /** Packs the commitment stream into its witness MDUs. */
  method RebuildWitness(kit: Kit, stream: Bytes, w: nat) returns (mdus: map<nat, Bytes>, roots: seq<Root>)
    ensures WitnessHolds(mdus, w, stream) && forall k :: k in mdus ==> k <= w
    ensures |roots| == w && forall i :: 0 <= i < w ==> roots[i] == kit.mduRoot(Encoded(Part(stream, i)))
  {
    hide Encoded;
    mdus, roots := map[], [];
    for i := 0 to w
      invariant forall j :: 0 <= j < i ==> WitnessAt(mdus, stream, j)
      invariant forall k :: k in mdus ==> k <= i
      invariant |roots| == i && forall j :: 0 <= j < i ==> roots[j] == kit.mduRoot(Encoded(Part(stream, j)))
    {
      var start, end := i * CAPACITY, i * CAPACITY + CAPACITY;
      var chunk: Bytes := [];
      if start < |stream| {
        if end > |stream| {
          end := |stream|;
        }
        chunk := stream[start..end];
      }
      assert chunk == Part(stream, i);
      var out := new bv8[MDU];
      var ok := EncodePayloadToMdu(chunk, out);
      ghost var was := mdus;
      mdus := mdus[1 + i := out[..]];
      roots := roots + [kit.mduRoot(out[..])];
      forall j | 0 <= j < i
        ensures WitnessAt(mdus, stream, j)
      {
        assert WitnessAt(was, stream, j);
      }
    }
  }

  /** Where the commitments of user MDU `u` begin in the stream. */
  function Offset(kit: Kit, u: nat): nat {
    u * Span(kit)
  }

  function SpanAt(kit: Kit, stream: Bytes, u: nat): Bytes {
    if Offset(kit, u) + Span(kit) <= |stream| then stream[Offset(kit, u)..Offset(kit, u) + Span(kit)] else []
  }

  lemma {:induction false} SpanInside(kit: Kit, n: nat, u: nat)
    requires u < n
    ensures u * Span(kit) + Span(kit) <= n * Span(kit)
  {
    if u + 1 < n {
      SpanInside(kit, n - 1, u);
    }
    assert n * Span(kit) == (n - 1) * Span(kit) + Span(kit);
  }

  /** Roots of the first user MDUs, recomputed from their commitments in the stream. */
  method UserRoots(kit: Kit, stream: Bytes, n: nat) returns (roots: seq<Root>)
    requires n * Span(kit) <= |stream|
    ensures |roots| == n && forall u :: 0 <= u < n ==> roots[u] == kit.root(SpanAt(kit, stream, u))
  {
    roots := [];
    for u := 0 to n
      invariant |roots| == u && forall v :: 0 <= v < u ==> roots[v] == kit.root(SpanAt(kit, stream, v))
    {
      SpanInside(kit, n, u);
      var start := u * Span(kit);
      roots := roots + [kit.root(stream[start..start + Span(kit)])];
    }
  }

  /** Joins the commitments of new stripes and takes their roots. */
  method NewWitness(kit: Kit, stripes: seq<Stripe>) returns (stream: Bytes, roots: seq<Root>)
    ensures stream == Stream(stripes)
    ensures |roots| == |stripes| && forall i :: 0 <= i < |stripes| ==> roots[i] == kit.root(stripes[i].flat)
  {
    stream, roots := [], [];
    for i := 0 to |stripes|
      invariant stream == Stream(stripes[..i])
      invariant |roots| == i && forall j :: 0 <= j < i ==> roots[j] == kit.root(stripes[j].flat)
    {
      assert stripes[..i + 1][..i] == stripes[..i];
      stream, roots := stream + stripes[i].flat, roots + [kit.root(stripes[i].flat)];
    }
    assert stripes[..|stripes|] == stripes;
  }

  method SetRoots(before: map<nat, Root>, w: nat, roots: seq<Root>) returns (after: map<nat, Root>)
    ensures forall u :: 0 <= u < |roots| ==> RootAt(after, w + u, roots[u])
    ensures forall k :: k in before && k < w ==> k in after && after[k] == before[k]
  {
    after := before;
    for i := 0 to |roots|
      invariant forall u :: 0 <= u < i ==> RootAt(after, w + u, roots[u])
      invariant forall k :: k in before && k < w ==> k in after && after[k] == before[k]
    {
      ghost var was := after;
      after := after[w + i := roots[i]];
      forall u | 0 <= u < i
        ensures RootAt(after, w + u, roots[u])
      {
        assert RootAt(was, w + u, roots[u]);
      }
    }
  }

  // The file table.

  /** The end of the allocation as append sees it: tombstones are skipped. */
  method LiveEnd(records: seq<Record>) returns (maxEnd: nat)
    ensures maxEnd == MaxEnd(records, true)
  {
    maxEnd := 0;
    for i := 0 to |records|
      invariant maxEnd == MaxEnd(records[..i], true)
    {
      assert records[..i + 1][..i] == records[..i];
      if records[i].live && EndOf(records[i]) > maxEnd {
        maxEnd := EndOf(records[i]);
      }
    }
    assert records[..|records|] == records;
  }

  const UINT64: nat := 0x1_0000_0000_0000_0000

  /** No record ends past the 64-bit range. */
  ghost predicate Fits(records: seq<Record>) {
    forall i :: 0 <= i < |records| ==> EndOf(records[i]) < UINT64
  }

  /** User MDUs of the whole table, tombstones included; refused if an extent overflows. */
  method FileTableUserMduCount(records: seq<Record>) returns (r: Result<nat>)
    ensures r.Ok? <==> Fits(records)
    ensures r.Ok? ==> r.value == Mdus(MaxEnd(records, false))
  {
    var maxEnd := 0;
    for i := 0 to |records|
      invariant maxEnd == MaxEnd(records[..i], false) && forall k :: 0 <= k < i ==> EndOf(records[k]) < UINT64
    {
      assert records[..i + 1][..i] == records[..i];
      if EndOf(records[i]) >= UINT64 {
        return Err;
      }
      if EndOf(records[i]) > maxEnd {
        maxEnd := EndOf(records[i]);
      }
    }
    assert records[..|records|] == records;
    return Ok(Mdus(maxEnd));
  }

  lemma {:induction false} LaidBound(records: seq<Record>, n: nat, liveOnly: bool)
    requires Laid(records, n)
    ensures MaxEnd(records, liveOnly) <= n * CAPACITY
  {
    if records != [] {
      LaidBound(records[..|records| - 1], n - FileMdus(records[|records| - 1].len), liveOnly);
    }
  }

  predicate Reaches(records: seq<Record>, liveOnly: bool) {
    records == [] || (records[|records| - 1].len > 0 && (liveOnly ==> records[|records| - 1].live))
  }

  /** The table gives the number of user MDUs exactly when its last record is not empty (and, for append, not a tombstone). */
  lemma CountIsExact(records: seq<Record>, n: nat, liveOnly: bool)
    requires Laid(records, n)
    ensures Mdus(MaxEnd(records, liveOnly)) == n <==> Reaches(records, liveOnly)
    ensures Mdus(MaxEnd(records, liveOnly)) <= n
  {
    LaidBound(records, n, liveOnly);
    if records != [] {
      LaidBound(records[..|records| - 1], n - FileMdus(records[|records| - 1].len), liveOnly);
    }
  }

  lemma LaidAppend(records: seq<Record>, n: nat, len: nat)
    requires Laid(records, n)
    ensures Laid(records + [Record(true, n * CAPACITY, len)], n + FileMdus(len))
  {
    var more := records + [Record(true, n * CAPACITY, len)];
    assert more[..|more| - 1] == records;
  }

  /** Files start on MDU boundaries and never share an MDU. */
  lemma {:induction false} LaidApart(records: seq<Record>, n: nat, i: nat, j: nat)
    requires Laid(records, n) && i < j < |records|
    ensures records[i].start % CAPACITY == 0 && records[j].start % CAPACITY == 0
    ensures records[i].start + FileMdus(records[i].len) * CAPACITY <= records[j].start
  {
    var init, m := records[..|records| - 1], n - FileMdus(records[|records| - 1].len);
    if j < |records| - 1 {
      LaidApart(init, m, i, j);
    } else {
      LaidInside(init, m, i);
    }
  }

  lemma {:induction false} LaidInside(records: seq<Record>, n: nat, i: nat)
    requires Laid(records, n) && i < |records|
    ensures records[i].start % CAPACITY == 0 && records[i].start + FileMdus(records[i].len) * CAPACITY <= n * CAPACITY
  {
    if i < |records| - 1 {
      LaidInside(records[..|records| - 1], n - FileMdus(records[|records| - 1].len), i);
    }
  }

  // Files and their stripes.

  /** Stripe `base + j` codes the bytes of the file from `j * CAPACITY` up to `CAPACITY` further or the end. */
  ghost predicate ChunkAt(kit: Kit, users: seq<Stripe>, base: nat, file: Bytes, j: nat) {
    j * CAPACITY < |file| ==>
      && base + j < |users|
      && users[base + j] == kit.expand(file[j * CAPACITY..if j * CAPACITY + CAPACITY < |file| then j * CAPACITY + CAPACITY else |file|])
  }

  /** A record says where the stripes of its file are. */
  ghost predicate FileAt(kit: Kit, users: seq<Stripe>, record: Record, file: Bytes) {
    && record.live && record.len == |file| && record.start % CAPACITY == 0 && record.start / CAPACITY <= |users|
    && forall j: nat :: ChunkAt(kit, users, record.start / CAPACITY, file, j)
  }

  /** A file gets as many stripes as it needs, and stripe `j` codes its chunk `j`. */
  lemma StripeOfFile(kit: Kit, file: Bytes, j: nat)
    ensures ChunkAt(kit, Stripes(kit, file), 0, file, j)
    ensures file != [] ==> (|Stripes(kit, file)| - 1) * CAPACITY < |file| <= |Stripes(kit, file)| * CAPACITY
    ensures file == [] ==> Stripes(kit, file) == [kit.expand([])]
  {
    if j * CAPACITY < |file| {
      InChunks(|file|, j);
      PartIs(file, j);
    }
    assert Part([], 0) == [];
    assert |Stripes(kit, [])| == 1 && Stripes(kit, [])[0] == kit.expand(Part([], 0));
  }

  lemma PartIs(file: Bytes, j: nat)
    requires j * CAPACITY < |file|
    ensures Part(file, j) == file[j * CAPACITY..if j * CAPACITY + CAPACITY < |file| then j * CAPACITY + CAPACITY else |file|]
  {
    assert (j + 1) * CAPACITY == j * CAPACITY + CAPACITY;
  }

  lemma InChunks(len: nat, j: nat)
    requires j * CAPACITY < len
    ensures j < FileMdus(len)
  {
  }

  lemma FileStored(kit: Kit, users: seq<Stripe>, file: Bytes)
    ensures FileAt(kit, users + Stripes(kit, file), Record(true, |users| * CAPACITY, |file|), file)
  {
    hide Stripes;
    var base := |users| * CAPACITY / CAPACITY;
    assert base == |users|;
    forall j: nat
      ensures ChunkAt(kit, users + Stripes(kit, file), base, file, j)
    {
      StripeOfFile(kit, file, j);
    }
  }

  lemma FileStays(kit: Kit, users: seq<Stripe>, more: seq<Stripe>, record: Record, file: Bytes)
    requires FileAt(kit, users, record, file)
    ensures FileAt(kit, users + more, record, file)
  {
    var base := record.start / CAPACITY;
    forall j: nat
      ensures ChunkAt(kit, users + more, base, file, j)
    {
      assert ChunkAt(kit, users, base, file, j);
    }
  }

  /** The bytes that the stripes of a record decode to, one after another. */
  function Decoded(decode: Stripe -> Bytes, users: seq<Stripe>, base: nat, n: nat): Bytes
    requires base + n <= |users|
  {
    if n == 0 then [] else Decoded(decode, users, base, n - 1) + decode(users[base + n - 1])
  }

  lemma {:induction false} DecodedPrefix(kit: Kit, decode: Stripe -> Bytes, users: seq<Stripe>, base: nat, file: Bytes, n: nat)
    requires forall j: nat :: ChunkAt(kit, users, base, file, j)
    requires forall b: Bytes :: |b| <= CAPACITY ==> decode(kit.expand(b)) == b
    requires n == 0 || (n - 1) * CAPACITY < |file|
    requires base + n <= |users|
    ensures Decoded(decode, users, base, n) == file[..if n * CAPACITY < |file| then n * CAPACITY else |file|]
  {
    if n > 0 {
      DecodedPrefix(kit, decode, users, base, file, n - 1);
      assert ChunkAt(kit, users, base, file, n - 1);
      var from := (n - 1) * CAPACITY;
      var to := if from + CAPACITY < |file| then from + CAPACITY else |file|;
      assert file[..from] + file[from..to] == file[..to];
    }
  }

  /** With any decoder of single stripes, the stripes of a record give its file back. */
  lemma FileReadBack(kit: Kit, decode: Stripe -> Bytes, users: seq<Stripe>, record: Record, file: Bytes)
    requires FileAt(kit, users, record, file)
    requires forall b: Bytes :: |b| <= CAPACITY ==> decode(kit.expand(b)) == b
    ensures record.start / CAPACITY + Mdus(record.len) <= |users|
    ensures Decoded(decode, users, record.start / CAPACITY, Mdus(record.len)) == file
  {
    var base, n := record.start / CAPACITY, Mdus(|file|);
    if file != [] {
      assert ChunkAt(kit, users, base, file, n - 1);
      MduBounds(|file|);
      DecodedPrefix(kit, decode, users, base, file, n);
      assert file[..|file|] == file;
    }
  }

  lemma MduBounds(len: nat)
    requires len > 0
    ensures (Mdus(len) - 1) * CAPACITY < len <= Mdus(len) * CAPACITY
  {
  }

  // The append operation.

  /** What the old generation must be for its files to survive: it represents `users`, and append counts them right. */
  ghost predicate Appendable(kit: Kit, g: Generation, users: seq<Stripe>) {
    Represents(kit, g, users) && users != [] && Mdus(MaxEnd(g.records, true)) == |users|
  }

  /** The witness MDUs, roots and file table of the new generation. */
  method Rebuild(kit: Kit, g: Generation, data: Bytes, n: nat, stripes: seq<Stripe>, earlier: Bytes, shards: map<Key, Bytes>)
    returns (next: Generation)
    requires |earlier| == n * Span(kit)
    ensures next.records == g.records + [Record(true, n * CAPACITY, |data|)] && next.shards == shards
    ensures var stream, w := earlier + Stream(stripes), Witnesses(kit, n + |stripes|);
            && WitnessHolds(next.mdus, w, stream) && (forall k :: k in next.mdus ==> k <= w)
            && 0 in next.mdus && next.mdus[0] == kit.table(next.records, next.roots)
            && WitnessRootsHold(kit, next.roots, w, stream)
            && (forall u :: 0 <= u < n ==> RootAt(next.roots, w + u, kit.root(SpanAt(kit, stream, u))))
            && (forall i :: 0 <= i < |stripes| ==> RootAt(next.roots, w + (n + i), kit.root(stripes[i].flat)))
  {
    hide Encoded, Part, SpanAt, WitnessAt, Stream, Witnesses;
    var w := Witnesses(kit, n + |stripes|);
    var added, newRoots := NewWitness(kit, stripes);
    var stream := earlier + added;
    var oldRoots := UserRoots(kit, stream, n);
    var userRoots := oldRoots + newRoots;
    var mdus, witnessRoots := RebuildWitness(kit, stream, w);
    var first := SetRoots(g.roots, 0, witnessRoots);
    var roots := SetRoots(first, w, userRoots);
    forall i | 0 <= i < w
      ensures RootAt(roots, i, witnessRoots[i])
    {
      assert RootAt(first, 0 + i, witnessRoots[i]);
    }
    forall u | 0 <= u < n
      ensures RootAt(roots, w + u, oldRoots[u])
    {
      assert userRoots[u] == oldRoots[u];
      assert RootAt(roots, w + u, userRoots[u]);
    }
    forall i | 0 <= i < |stripes|
      ensures RootAt(roots, w + (n + i), newRoots[i])
    {
      assert userRoots[n + i] == newRoots[i];
      assert RootAt(roots, w + (n + i), userRoots[n + i]);
    }
    var records := g.records + [Record(true, n * CAPACITY, |data|)];
    TableKeepsWitness(mdus, w, stream, kit.table(records, roots));
    next := Generation(records, roots, mdus[0 := kit.table(records, roots)], shards);
  }

  lemma TableKeepsWitness(mdus: map<nat, Bytes>, w: nat, stream: Bytes, table: Bytes)
    requires WitnessHolds(mdus, w, stream)
    ensures WitnessHolds(mdus[0 := table], w, stream)
  {
    hide Encoded, Part;
    var with := mdus[0 := table];
    forall i | 0 <= i < w
      ensures WitnessAt(with, stream, i)
    {
      assert WitnessAt(mdus, stream, i);
    }
  }

  lemma ShardsJoin(kit: Kit, before: map<Key, Bytes>, after: map<Key, Bytes>, base: nat, a: seq<Stripe>, b: seq<Stripe>)
    requires Shaped(kit, a) && Shaped(kit, b) && ShardsHold(kit, before, base, a) && ShardsHold(kit, after, base + |a|, b)
    requires forall k :: k in before ==> k in after && after[k] == before[k]
    ensures Shaped(kit, a + b) && ShardsHold(kit, after, base, a + b)
  {
    forall u, slot | 0 <= u < |a + b| && 0 <= slot < kit.slots
      ensures ShardAt(after, base, a + b, u, slot)
    {
      if u < |a| {
        assert ShardAt(before, base, a, u, slot);
      } else {
        assert ShardAt(after, base + |a|, b, u - |a|, slot);
      }
    }
  }

  lemma RootsJoin(kit: Kit, roots: map<nat, Root>, w: nat, a: seq<Stripe>, b: seq<Stripe>, stream: Bytes)
    requires Shaped(kit, a) && stream == Stream(a) + Stream(b)
    requires forall u :: 0 <= u < |a| ==> RootAt(roots, w + u, kit.root(SpanAt(kit, stream, u)))
    requires forall i :: 0 <= i < |b| ==> RootAt(roots, w + (|a| + i), kit.root(b[i].flat))
    ensures RootsHold(kit, roots, w, a + b)
  {
    hide RootAt, Stream, SpanAt, Shaped;
    forall u | 0 <= u < |a + b|
      ensures RootAt(roots, w + u, kit.root((a + b)[u].flat))
    {
      if u < |a| {
        SpanOfStream(kit, a, b, u);
        assert RootAt(roots, w + u, kit.root(SpanAt(kit, stream, u)));
      } else {
        var i := u - |a|;
        assert RootAt(roots, w + (|a| + i), kit.root(b[i].flat));
      }
    }
  }

  lemma SpanOfStream(kit: Kit, a: seq<Stripe>, b: seq<Stripe>, u: nat)
    requires Shaped(kit, a) && u < |a|
    ensures SpanAt(kit, Stream(a) + Stream(b), u) == a[u].flat
  {
    hide Stream, Span, Offset, Shaped;
    StreamAt(kit, a, u);
    SliceOfPrefix(Stream(a), Stream(b), Offset(kit, u), Offset(kit, u) + Span(kit));
  }

  lemma SliceOfPrefix(a: Bytes, b: Bytes, from: nat, to: nat)
    requires from <= to <= |a|
    ensures (a + b)[from..to] == a[from..to]
  {
  }

  /** A represented generation, and one that append counts right, is appendable. */
  lemma Represented(kit: Kit, g: Generation, users: seq<Stripe>)
    requires Represents(kit, g, users)
    ensures Shaped(kit, users)
    ensures var w := Witnesses(kit, |users|); ShardsHold(kit, g.shards, 1 + w, users) && WitnessHolds(g.mdus, w, Stream(users))
  {
  }

  /**
   Appends a file. `users` is what the old directory represents, if it represents
   anything: then every old stripe, its commitments and its root are in the new
   directory at their new indices, followed by the stripes of the new file.
   */
  method AppendFile(kit: Kit, g: Generation, data: Bytes, ghost users: seq<Stripe>) returns (r: Result<Generation>)
    requires Shaped(kit, users) && |users| == Mdus(MaxEnd(g.records, true))
    ensures users == [] ==> r.Err?
    ensures Appendable(kit, g, users) && Shaped(kit, Stripes(kit, data)) ==>
              r.Ok? && Represents(kit, r.value, users + Stripes(kit, data))
    ensures r.Ok? ==> r.value.records == g.records + [Record(true, |users| * CAPACITY, |data|)]
  {
    hide Represents, ShardsHold, WitnessHolds, Shaped, Stripes, Mdus, Witnesses, Stream, RootAt, SpanAt, WitnessRootsHold, RootsHold, Span;
    var maxEnd := LiveEnd(g.records);
    var oldUserMdus := Mdus(maxEnd);
    if oldUserMdus == 0 {
      return Err;
    }
    var total := oldUserMdus + FileMdus(|data|);
    var oldW, w := Witnesses(kit, oldUserMdus), Witnesses(kit, total);
    ghost var good := Appendable(kit, g, users) && Shaped(kit, Stripes(kit, data));
    if good {
      Represented(kit, g, users);
    }
    var copied, shards := CopyShards(kit, g.shards, 1 + oldW, 1 + w, oldUserMdus, users);
    if !copied {
      return Err;
    }
    EnoughWitnesses(kit, oldUserMdus);
    StreamLength(kit, users);
    var earlier := DecodeWitness(g.mdus, oldW, oldUserMdus * Span(kit), Stream(users));
    if earlier.Err? {
      return Err;
    }
    var encoded, stripes, allShards := EncodeFile(kit, data, 1 + w + oldUserMdus, shards);
    if !encoded {
      return Err;
    }
    StripesCount(kit, data);
    var next := Rebuild(kit, g, data, oldUserMdus, stripes, earlier.value, allShards);
    if good {
      ShardsJoin(kit, shards, next.shards, 1 + w, users, stripes);
      RootsJoin(kit, next.roots, w, users, stripes, Stream(users) + Stream(stripes));
      Assembled(kit, next, users, stripes);
    }
    r := Ok(next);
  }

  lemma StripesCount(kit: Kit, data: Bytes)
    ensures |Stripes(kit, data)| == FileMdus(|data|)
  {
  }

  lemma Assembled(kit: Kit, next: Generation, users: seq<Stripe>, stripes: seq<Stripe>)
    requires Shaped(kit, users + stripes)
    requires var w := Witnesses(kit, |users| + |stripes|);
             && ShardsHold(kit, next.shards, 1 + w, users + stripes)
             && (forall k :: k in next.shards ==> k.index < 1 + w + |users| + |stripes|)
             && WitnessHolds(next.mdus, w, Stream(users) + Stream(stripes)) && (forall k :: k in next.mdus ==> k <= w)
             && WitnessRootsHold(kit, next.roots, w, Stream(users) + Stream(stripes))
             && RootsHold(kit, next.roots, w, users + stripes)
             && 0 in next.mdus && next.mdus[0] == kit.table(next.records, next.roots)
    ensures Represents(kit, next, users + stripes)
  {
    hide ShardsHold, WitnessHolds, Shaped, Witnesses, Stream, WitnessRootsHold, RootsHold;
    StreamJoin(users, stripes);
  }

  // Runs of appends.

  function AllStripes(kit: Kit, files: seq<Bytes>): seq<Stripe> {
    if files == [] then [] else AllStripes(kit, files[..|files| - 1]) + Stripes(kit, files[|files| - 1])
  }

  /**
   Appends any number of non-empty files one after another, each to the generation the
   last one made: every stripe ever stored is still represented, in order, and the files
   stay on their own MDUs.
   */
  method AppendAll(kit: Kit, g: Generation, files: seq<Bytes>, ghost users: seq<Stripe>) returns (r: Result<Generation>)
    requires Represents(kit, g, users) && users != [] && Laid(g.records, |users|) && Reaches(g.records, true)
    requires forall i :: 0 <= i < |files| ==> files[i] != [] && Shaped(kit, Stripes(kit, files[i]))
    ensures r.Ok? && Represents(kit, r.value, users + AllStripes(kit, files))
    ensures Laid(r.value.records, |users + AllStripes(kit, files)|) && Reaches(r.value.records, true)
    ensures |r.value.records| == |g.records| + |files| && r.value.records[..|g.records|] == g.records
    ensures forall i :: 0 <= i < |files| ==> FileAt(kit, users + AllStripes(kit, files), r.value.records[|g.records| + i], files[i])
  {
    hide Represents, Stripes, Laid, Shaped, AllStripes, Reaches, MaxEnd, Mdus, FileAt;
    var next := g;
    ghost var stored := users;
    NoStripes(kit, files, users);
    for i := 0 to |files|
      invariant stored == users + AllStripes(kit, files[..i]) && stored != []
      invariant Represents(kit, next, stored) && Laid(next.records, |stored|) && Reaches(next.records, true)
      invariant |next.records| == |g.records| + i && next.records[..|g.records|] == g.records
      invariant forall k :: 0 <= k < i ==> FileAt(kit, stored, next.records[|g.records| + k], files[k])
    {
      CountIsExact(next.records, |stored|, true);
      Represented(kit, next, stored);
      r := AppendFile(kit, next, files[i], stored);
      Appended(kit, files, i, users, stored, next.records);
      FilesStay(kit, stored, Stripes(kit, files[i]), next.records, |g.records|, files, i);
      FileStored(kit, stored, files[i]);
      stored := stored + Stripes(kit, files[i]);
      next := r.value;
    }
    assert files[..|files|] == files;
    r := Ok(next);
  }

  lemma FilesStay(kit: Kit, users: seq<Stripe>, more: seq<Stripe>, records: seq<Record>, from: nat, files: seq<Bytes>, n: nat)
    requires n <= |files| && |records| == from + n
    requires forall k :: 0 <= k < n ==> FileAt(kit, users, records[from + k], files[k])
    ensures forall k :: 0 <= k < n ==> FileAt(kit, users + more, records[from + k], files[k])
  {
    hide FileAt;
    forall k | 0 <= k < n
      ensures FileAt(kit, users + more, records[from + k], files[k])
    {
      FileStays(kit, users, more, records[from + k], files[k]);
    }
  }

  lemma NoStripes(kit: Kit, files: seq<Bytes>, users: seq<Stripe>)
    ensures users + AllStripes(kit, files[..0]) == users
  {
  }

  /** One more file: its stripes follow, its record is laid behind the others and ends the table. */
  lemma Appended(kit: Kit, files: seq<Bytes>, i: nat, users: seq<Stripe>, stored: seq<Stripe>, records: seq<Record>)
    requires i < |files| && files[i] != [] && stored == users + AllStripes(kit, files[..i]) && Laid(records, |stored|)
    ensures stored + Stripes(kit, files[i]) == users + AllStripes(kit, files[..i + 1])
    ensures var more := records + [Record(true, |stored| * CAPACITY, |files[i]|)];
            Laid(more, |stored + Stripes(kit, files[i])|) && Reaches(more, true)
  {
    hide Laid, Stripes;
    assert files[..i + 1][..i] == files[..i];
    StripesCount(kit, files[i]);
    LaidAppend(records, |stored|, |files[i]|);
  }

  /** Where a stripe was and is: an append moves it by as much as the witness MDUs grow, and nothing else about it changes. */
  lemma StripeSurvives(kit: Kit, g: Generation, next: Generation, users: seq<Stripe>, more: seq<Stripe>, u: nat, slot: nat)
    requires Represents(kit, g, users) && Represents(kit, next, users + more) && u < |users| && slot < kit.slots
    ensures var from, to := Witnesses(kit, |users|), Witnesses(kit, |users| + |more|);
            && Key(1 + from + u, slot) in g.shards && Key(1 + to + u, slot) in next.shards
            && next.shards[Key(1 + to + u, slot)] == g.shards[Key(1 + from + u, slot)]
            && from + u in g.roots && to + u in next.roots && next.roots[to + u] == g.roots[from + u]
  {
    hide Witnesses, Stream, WitnessHolds, WitnessRootsHold;
    var from, to := Witnesses(kit, |users|), Witnesses(kit, |users| + |more|);
    assert ShardAt(g.shards, 1 + from, users, u, slot) && ShardAt(next.shards, 1 + to, users + more, u, slot);
    assert RootAt(g.roots, from + u, kit.root(users[u].flat)) && RootAt(next.roots, to + u, kit.root((users + more)[u].flat));
  }

  /** The highest index among the MDU and shard files. */
  ghost predicate IsTop(g: Generation, t: nat) {
    && (forall k :: k in g.mdus ==> k <= t) && (forall k :: k in g.shards ==> k.index <= t)
    && (t in g.mdus || exists k :: k in g.shards && k.index == t)
  }

  method HighestIndex(g: Generation) returns (top: Option<nat>)
    ensures top.None? <==> g.mdus == map[] && g.shards == map[]
    ensures top.Some? ==> IsTop(g, top.value)
  {
    top := None;
    var todo := g.mdus.Keys;
    while todo != {}
      invariant todo <= g.mdus.Keys && (top.None? ==> todo == g.mdus.Keys) && (top.Some? ==> top.value in g.mdus)
      invariant top.Some? ==> forall k :: k in g.mdus && k !in todo ==> k <= top.value
      decreases todo
    {
      var k :| k in todo;
      if top.None? || k > top.value {
        top := Some(k);
      }
      todo := todo - {k};
    }
    var keys := g.shards.Keys;
    while keys != {}
      invariant keys <= g.shards.Keys && (top.None? ==> keys == g.shards.Keys && g.mdus == map[])
      invariant top.Some? ==> (forall k :: k in g.mdus ==> k <= top.value) && forall k :: k in g.shards && k !in keys ==> k.index <= top.value
      invariant top.Some? ==> top.value in g.mdus || exists k :: k in g.shards && k.index == top.value
      decreases keys
    {
      var k :| k in keys;
      if top.None? || k.index > top.value {
        top := Some(k.index);
      }
      keys := keys - {k};
    }
  }

  function InferredFrom(top: nat, userCount: nat): Result<nat> {
    if top < userCount then Err else Ok(top - userCount)
  }

  /** Derives the number of witness MDUs from the directory and the file table. */
  method InferWitnessCount(g: Generation) returns (r: Result<nat>)
    ensures !Fits(g.records) || (g.mdus == map[] && g.shards == map[]) ==> r.Err?
    ensures Fits(g.records) ==> forall t :: IsTop(g, t) ==> r == InferredFrom(t, Mdus(MaxEnd(g.records, false)))
  {
    var userCount := FileTableUserMduCount(g.records);
    if userCount.Err? {
      return Err;
    }
    var top := HighestIndex(g);
    if top.None? {
      return Err;
    }
    assert forall t :: IsTop(g, t) ==> t == top.value;
    r := if top.value < userCount.value then Err else Ok(top.value - userCount.value);
  }

  /** The inferred count is the builder's exactly when the last file of the table is not empty. */
  lemma InferenceIsExact(kit: Kit, g: Generation, users: seq<Stripe>)
    requires Represents(kit, g, users) && Laid(g.records, |users|) && kit.slots > 0
    ensures var w := Witnesses(kit, |users|);
            && IsTop(g, w + |users|)
            && (InferredFrom(w + |users|, Mdus(MaxEnd(g.records, false))) == Ok(w) <==> Reaches(g.records, false))
  {
    hide Represents, Laid, MaxEnd, Mdus, Witnesses, IsTop, Reaches;
    CountIsExact(g.records, |users|, false);
    TopIndex(kit, g, users);
  }

  lemma TopIndex(kit: Kit, g: Generation, users: seq<Stripe>)
    requires Represents(kit, g, users) && kit.slots > 0
    ensures IsTop(g, Witnesses(kit, |users|) + |users|)
  {
    hide WitnessHolds, WitnessRootsHold, RootsHold, Stream, Witnesses;
    var t := Witnesses(kit, |users|) + |users|;
    if users != [] {
      assert ShardAt(g.shards, 1 + Witnesses(kit, |users|), users, |users| - 1, 0);
      assert Key(t, 0) in g.shards && Key(t, 0).index == t;
    } else {
      NoUsers(kit);
    }
  }

  lemma NoUsers(kit: Kit)
    ensures Witnesses(kit, 0) == 0
  {
  }

  /** After an empty file or a tombstoned tail, append reuses MDUs that belong to an earlier record. */
  lemma AppendOverlaps(records: seq<Record>, n: nat)
    requires Laid(records, n) && records != []
    ensures var last := records[|records| - 1];
            Mdus(MaxEnd(records, true)) * CAPACITY < last.start + FileMdus(last.len) * CAPACITY <==> !Reaches(records, true)
  {
    CountIsExact(records, n, true);
  }
}
