/**
 The PolyFS packing of payload bytes into an MDU: 31 payload bytes per 32-byte scalar,
 right-aligned, so that the last scalar of a payload may be short.
 */
module Codec {
  import opened Wrappers

  const SCALAR := 32
  const PAYLOAD := 31
  const SCALARS := 262144
  const MDU := 8388608
  const CAPACITY := 8126464

  type Bytes = seq<bv8>

  lemma SubSlice(s: Bytes, a: nat, b: nat, c: nat, d: nat)
    requires a <= c <= d <= b <= |s|
    ensures s[a..b][c - a..d - a] == s[c..d]
  {
    var inner, outer := s[a..b][c - a..d - a], s[c..d];
    assert forall k :: 0 <= k < |outer| ==> inner[k] == outer[k];
  }

  /** Payload bytes in chunk `c` of a payload of `len` bytes. */
  function ChunkLen(len: nat, c: nat): (n: nat)
    ensures n <= PAYLOAD
  {
    if PAYLOAD * c >= len then 0 else if len - PAYLOAD * c < PAYLOAD then len - PAYLOAD * c else PAYLOAD
  }

  /** Where byte `j` of a payload of `len` bytes lies in its MDU. */
  function Slot(len: nat, j: nat): (x: nat)
    requires j < len
    ensures SCALAR * (j / PAYLOAD) < x < SCALAR * (j / PAYLOAD) + SCALAR
  {
    SCALAR * (j / PAYLOAD) + SCALAR - ChunkLen(len, j / PAYLOAD) + j % PAYLOAD
  }

  function EncodedByte(payload: Bytes, x: nat): bv8 {
    var c, o := x / SCALAR, x % SCALAR;
    var pad := SCALAR - ChunkLen(|payload|, c);
    if o >= pad && PAYLOAD * c + o - pad < |payload| then payload[PAYLOAD * c + o - pad] else 0
  }

  function Encoded(payload: Bytes): (mdu: Bytes)
    ensures |mdu| == MDU
  {
    seq(MDU, x requires 0 <= x < MDU => EncodedByte(payload, x))
  }

  predicate Holds(mdu: Bytes, len: nat) {
    |mdu| == MDU && len <= CAPACITY
  }

  lemma SlotInside(len: nat, j: nat)
    requires j < len <= CAPACITY
    ensures Slot(len, j) < MDU
  {
  }

  function Decoded(mdu: Bytes, len: nat): (payload: Bytes)
    requires Holds(mdu, len)
    ensures |payload| == len
  {
    seq(len, j requires 0 <= j < len => SlotInside(len, j); mdu[Slot(len, j)])
  }

  /** Slots are distinct and their inverse is the encoder's own arithmetic. */
  lemma SlotInverse(len: nat, j: nat)
    requires j < len
    ensures var x := Slot(len, j);
            var c, o := x / SCALAR, x % SCALAR;
            c == j / PAYLOAD && o >= SCALAR - ChunkLen(len, c) && PAYLOAD * c + o - (SCALAR - ChunkLen(len, c)) == j
  {
  }

  /** What is packed comes back. */
  lemma RoundTrip(payload: Bytes)
    requires |payload| <= CAPACITY
    ensures Decoded(Encoded(payload), |payload|) == payload
  {
    forall j | 0 <= j < |payload|
      ensures Decoded(Encoded(payload), |payload|)[j] == payload[j]
    {
      SlotInside(|payload|, j);
      SlotInverse(|payload|, j);
    }
  }

  /** A scalar is the big-endian number of its chunk: its last byte is the chunk's last byte, its first is zero. */
  lemma RightAligned(payload: Bytes, c: nat)
    requires |payload| <= CAPACITY && PAYLOAD * c < |payload|
    ensures SCALAR * c + 31 < MDU
    ensures Encoded(payload)[SCALAR * c + 31] == payload[if PAYLOAD * c + 31 <= |payload| then PAYLOAD * c + 30 else |payload| - 1]
    ensures Encoded(payload)[SCALAR * c] == 0
  {
  }

  predicate Padding(len: nat, x: nat) {
    x % SCALAR < SCALAR - ChunkLen(len, x / SCALAR)
  }

  /** Every byte that carries no payload is zero. */
  predicate Canonical(mdu: Bytes, len: nat) {
    forall x :: 0 <= x < |mdu| ==> Padding(len, x) ==> mdu[x] == 0
  }

  lemma SlotOf(len: nat, x: nat) returns (j: nat)
    requires x < MDU && !Padding(len, x)
    ensures j < len && Slot(len, j) == x
    ensures j == PAYLOAD * (x / SCALAR) + x % SCALAR - (SCALAR - ChunkLen(len, x / SCALAR))
  {
    j := PAYLOAD * (x / SCALAR) + x % SCALAR - (SCALAR - ChunkLen(len, x / SCALAR));
    assert j / PAYLOAD == x / SCALAR;
  }

  /** An MDU is what packing its own payload gives exactly when its padding is zero. */
  lemma RepackIsCanonical(mdu: Bytes, len: nat)
    requires Holds(mdu, len)
    ensures Encoded(Decoded(mdu, len)) == mdu <==> Canonical(mdu, len)
  {
    var again := Encoded(Decoded(mdu, len));
    forall x | 0 <= x < MDU
      ensures if Padding(len, x) then again[x] == 0 else again[x] == mdu[x]
    {
      if !Padding(len, x) {
        var j := SlotOf(len, x);
        SlotInside(len, j);
      }
    }
  }

  /** Packs a payload of at most one MDU into a zeroed buffer, chunk by chunk. */
  method EncodePayloadToMdu(payload: Bytes, out: array<bv8>) returns (ok: bool)
    modifies out
    ensures ok <==> out.Length == MDU && |payload| <= CAPACITY
    ensures ok ==> out[..] == Encoded(payload)
    ensures !ok ==> out[..] == old(out[..])
  {
    if out.Length != MDU || |payload| > CAPACITY {
      return false;
    }
    forall x | 0 <= x < out.Length {
      out[x] := 0;
    }
    var c := 0;
    while PAYLOAD * c < |payload|
      invariant 0 <= c <= SCALARS && PAYLOAD * c < |payload| + PAYLOAD
      invariant forall x :: 0 <= x < MDU ==> out[x] == if x < SCALAR * c then EncodedByte(payload, x) else 0
      decreases |payload| - PAYLOAD * c
    {
      var chunk := payload[PAYLOAD * c..PAYLOAD * c + ChunkLen(|payload|, c)];
      CopyChunk(payload, c, chunk, out);
      c := c + 1;
    }
    forall x | 0 <= x < MDU
      ensures out[x] == EncodedByte(payload, x)
    {
      if x >= SCALAR * c {
        BeyondPayload(payload, c, x);
      }
    }
    ok := true;
  }

  lemma BeyondPayload(payload: Bytes, c: nat, x: nat)
    requires PAYLOAD * c >= |payload| && x >= SCALAR * c
    ensures EncodedByte(payload, x) == 0
  {
  }

  method CopyChunk(payload: Bytes, c: nat, chunk: Bytes, out: array<bv8>)
    requires out.Length == MDU && c < SCALARS && PAYLOAD * c < |payload|
    requires chunk == payload[PAYLOAD * c..PAYLOAD * c + ChunkLen(|payload|, c)]
    requires forall x :: 0 <= x < MDU ==> out[x] == if x < SCALAR * c then EncodedByte(payload, x) else 0
    modifies out
    ensures forall x :: 0 <= x < MDU ==> out[x] == if x < SCALAR * (c + 1) then EncodedByte(payload, x) else 0
  {
    var base, pad := c * SCALAR, SCALAR - |chunk|;
    for i := 0 to |chunk|
      invariant forall x :: 0 <= x < MDU ==>
        out[x] == if x < base then EncodedByte(payload, x) else if base + pad <= x < base + pad + i then chunk[x - base - pad] else 0
    {
      out[base + pad + i] := chunk[i];
    }
    forall x | base <= x < base + SCALAR
      ensures out[x] == EncodedByte(payload, x)
    {
      assert x / SCALAR == c && x % SCALAR == x - base;
    }
  }

  /** Unpacks the first `len` payload bytes of an MDU. */
  method DecodePayloadFromMdu(mdu: Bytes, len: nat) returns (r: Result<Bytes>)
    ensures r.Ok? <==> Holds(mdu, len)
    ensures r.Ok? ==> r.value == Decoded(mdu, len)
  {
    if |mdu| != MDU || len > CAPACITY {
      return Err;
    }
    var out: Bytes := [];
    var used := (len + PAYLOAD - 1) / PAYLOAD;
    for c := 0 to used
      invariant |out| == if PAYLOAD * c < len then PAYLOAD * c else len
      invariant forall j :: 0 <= j < |out| ==> out[j] == Decoded(mdu, len)[j]
    {
      var n := ChunkLen(len, c);
      var from := c * SCALAR + (SCALAR - n);
      var chunk := mdu[from..from + n];
      forall j | PAYLOAD * c <= j < PAYLOAD * c + n
        ensures chunk[j - PAYLOAD * c] == Decoded(mdu, len)[j]
      {
        assert j / PAYLOAD == c && j % PAYLOAD == j - PAYLOAD * c;
      }
      out := out + chunk;
    }
    assert out == Decoded(mdu, len);
    return Ok(out);
  }
}
