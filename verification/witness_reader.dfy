/**
 The range reader of the witness MDUs: the commitments of all user MDUs are one logical
 stream packed from MDU 1 on, and a reader takes the commitments of one user MDU.
 */
module WitnessReader {
  import opened Wrappers
  import opened Codec
  import opened DecodedReader

  const COMMITMENT := 48
  const MAX_LEAVES := 16384

  predicate Geometry(metadata: nat, users: nat, mduIndex: nat, leaves: nat) {
    && 0 < leaves <= MAX_LEAVES && 2 <= metadata <= mduIndex && mduIndex - metadata < users
    && users * (leaves * COMMITMENT) <= (metadata - 1) * CAPACITY
  }

  /** Scalar `q` of the stream lies in an MDU of the exact size and everything before its payload is zero. */
  predicate CleanScalar(disk: Disk, total: nat, q: nat) {
    && 1 + q / SCALARS in disk && |disk[1 + q / SCALARS]| == MDU
    && forall o :: 0 <= o < SCALAR - ChunkLen(total, q) ==> ScalarByte(disk, 1, q, o) == 0
  }

  function Stream(total: nat): File {
    File(0, total)
  }

  method ZeroPrefix(prefix: Bytes) returns (zero: bool)
    ensures zero <==> forall o :: 0 <= o < |prefix| ==> prefix[o] == 0
  {
    for i := 0 to |prefix|
      invariant forall o :: 0 <= o < i ==> prefix[o] == 0
    {
      if prefix[i] != 0 {
        return false;
      }
    }
    return true;
  }

  /** One scalar's share of the bytes from `pos` to `end`. */
  method ReadScalar(disk: Disk, total: nat, q: nat, scalar: Bytes, pos: nat, end: nat) returns (r: Result<Bytes>)
    requires pos < end <= total && pos < PAYLOAD * q + PAYLOAD && PAYLOAD * q < end
    requires 1 + q / SCALARS in disk && |disk[1 + q / SCALARS]| == MDU
    requires |scalar| == SCALAR && forall o :: 0 <= o < SCALAR ==> scalar[o] == ScalarByte(disk, 1, q, o)
    ensures r.Ok? <==> CleanScalar(disk, total, q)
    ensures r.Ok? ==> |r.value| == Min(end, PAYLOAD * q + PAYLOAD) - Max(pos, PAYLOAD * q)
    ensures r.Ok? ==> Delivers(disk, 1, Stream(total), Max(pos, PAYLOAD * q), r.value)
  {
    var logical := PAYLOAD * q;
    var payloadLen := Min(PAYLOAD, total - logical);
    var base := SCALAR - payloadLen;
    var zero := ZeroPrefix(scalar[..base]);
    if !zero {
      return Err;
    }
    var lo, hi := Max(pos, logical) - logical, Min(end, logical + payloadLen) - logical;
    ShareDelivered(disk, total, q, scalar, lo, hi);
    return Ok(scalar[base + lo..base + hi]);
  }

  function Max(a: nat, b: nat): nat {
    if a < b then b else a
  }

  lemma ShareDelivered(disk: Disk, total: nat, q: nat, scalar: Bytes, lo: nat, hi: nat)
    requires PAYLOAD * q < total && lo <= hi <= ChunkLen(total, q) && Present(disk, 1, q)
    requires |scalar| == SCALAR && forall o :: 0 <= o < SCALAR ==> scalar[o] == ScalarByte(disk, 1, q, o)
    ensures var base := SCALAR - ChunkLen(total, q);
            Delivers(disk, 1, Stream(total), PAYLOAD * q + lo, scalar[base + lo..base + hi])
  {
    var base, f := SCALAR - ChunkLen(total, q), Stream(total);
    var share := scalar[base + lo..base + hi];
    forall i | 0 <= i < |share|
      ensures Reads(disk, 1, f, PAYLOAD * q + lo + i, share[i])
    {
      var j := PAYLOAD * q + lo + i;
      assert j / PAYLOAD == q && j % PAYLOAD == lo + i;
    }
  }

  ghost predicate CleanFrom(disk: Disk, total: nat, first: nat, last: nat) {
    forall q :: first <= q < last ==> CleanScalar(disk, total, q)
  }

  /** The bytes from `pos` on that the scalars from `first` up to `q` hold. */
  ghost predicate Progress(disk: Disk, total: nat, first: nat, q: nat, pos: nat, end: nat, out: Bytes) {
    && CleanFrom(disk, total, first, q) && Delivers(disk, 1, Stream(total), pos, out)
    && |out| == (if q == first then pos else Min(end, PAYLOAD * q)) - pos
  }

  /** Appends one scalar's share. */
  method AppendShare(disk: Disk, total: nat, ghost first: nat, q: nat, scalar: Bytes, pos: nat, end: nat, out: Bytes) returns (r: Result<Bytes>)
    requires pos < end <= total && first == pos / PAYLOAD && first <= q <= (end - 1) / PAYLOAD
    requires 1 + q / SCALARS in disk && |disk[1 + q / SCALARS]| == MDU
    requires |scalar| == SCALAR && forall o :: 0 <= o < SCALAR ==> scalar[o] == ScalarByte(disk, 1, q, o)
    requires Progress(disk, total, first, q, pos, end, out)
    ensures r.Ok? <==> CleanScalar(disk, total, q)
    ensures r.Ok? ==> Progress(disk, total, first, q + 1, pos, end, r.value)
  {
    hide Delivers, CleanScalar, ScalarByte, Present, ChunkLen;
    var share := ReadScalar(disk, total, q, scalar, pos, end);
    if share.Err? {
      return Err;
    }
    assert Max(pos, PAYLOAD * q) == pos + |out|;
    DeliversJoin(disk, 1, Stream(total), pos, out, share.value);
    return Ok(out + share.value);
  }

  /** The bytes from `pos` to `end`, all in the MDU that holds `pos`. */
  method ReadMdu(disk: Disk, total: nat, pos: nat, end: nat) returns (r: Result<Bytes>)
    requires pos < end <= total && end <= (pos / CAPACITY + 1) * CAPACITY
    ensures r.Ok? <==> CleanFrom(disk, total, pos / PAYLOAD, (end - 1) / PAYLOAD + 1)
    ensures r.Ok? ==> |r.value| == end - pos && Delivers(disk, 1, Stream(total), pos, r.value)
  {
    hide Delivers, CleanScalar, ScalarByte, Present, ChunkLen, Progress, CleanFrom;
    var index, offset := pos / CAPACITY, pos % CAPACITY;
    var firstScalar, lastScalar := offset / PAYLOAD, (end - index * CAPACITY - 1) / PAYLOAD;
    ghost var first, last := pos / PAYLOAD, (end - 1) / PAYLOAD;
    ScalarRange(pos, end);
    if index + 1 !in disk || |disk[index + 1]| != MDU {
      NoMdu(disk, total, first, last);
      return Err;
    }
    var encoded := disk[index + 1][firstScalar * SCALAR..(lastScalar + 1) * SCALAR];
    var out: Bytes := [];
    NoProgress(disk, total, first, pos, end);
    var i := firstScalar;
    while i <= lastScalar
      invariant firstScalar <= i <= lastScalar + 1
      invariant Progress(disk, total, first, index * SCALARS + i, pos, end, out)
    {
      var scalar := encoded[(i - firstScalar) * SCALAR..(i - firstScalar + 1) * SCALAR];
      ScalarOf(disk, index, i);
      SubSlice(disk[index + 1], firstScalar * SCALAR, (lastScalar + 1) * SCALAR, SCALAR * i, SCALAR * i + SCALAR);
      var more := AppendShare(disk, total, first, index * SCALARS + i, scalar, pos, end, out);
      if more.Err? {
        NotClean(disk, total, first, last, index * SCALARS + i);
        return Err;
      }
      out := more.value;
      i := i + 1;
    }
    Finished(disk, total, first, pos, end, out);
    return Ok(out);
  }

  lemma NoProgress(disk: Disk, total: nat, first: nat, pos: nat, end: nat)
    ensures Progress(disk, total, first, first, pos, end, [])
  {
  }

  lemma Finished(disk: Disk, total: nat, first: nat, pos: nat, end: nat, out: Bytes)
    requires pos < end && first == pos / PAYLOAD && Progress(disk, total, first, (end - 1) / PAYLOAD + 1, pos, end, out)
    ensures CleanFrom(disk, total, first, (end - 1) / PAYLOAD + 1) && |out| == end - pos && Delivers(disk, 1, Stream(total), pos, out)
  {
    hide Delivers, CleanFrom;
  }

  lemma NotClean(disk: Disk, total: nat, first: nat, last: nat, q: nat)
    requires first <= q <= last && !CleanScalar(disk, total, q)
    ensures !CleanFrom(disk, total, first, last + 1)
  {
    hide CleanScalar;
  }

  lemma ScalarOf(disk: Disk, index: nat, i: nat)
    requires i < SCALARS && index + 1 in disk && |disk[index + 1]| == MDU
    ensures var q := index * SCALARS + i;
            && 1 + q / SCALARS == index + 1 && Present(disk, 1, q)
            && forall o :: 0 <= o < SCALAR ==> disk[index + 1][SCALAR * i..SCALAR * i + SCALAR][o] == ScalarByte(disk, 1, q, o)
  {
    NextScalar(index, i);
  }

  lemma ScalarRange(pos: nat, end: nat)
    requires pos < end <= (pos / CAPACITY + 1) * CAPACITY
    ensures var index := pos / CAPACITY;
            var first, last := pos % CAPACITY / PAYLOAD, (end - index * CAPACITY - 1) / PAYLOAD;
            && 0 <= first <= last < SCALARS
            && index * SCALARS + first == pos / PAYLOAD && index * SCALARS + last == (end - 1) / PAYLOAD
            && PAYLOAD * (index * SCALARS + first) <= pos < PAYLOAD * (index * SCALARS + first) + PAYLOAD
            && PAYLOAD * (index * SCALARS + last) < end <= PAYLOAD * (index * SCALARS + last) + PAYLOAD
  {
  }

  lemma NoMdu(disk: Disk, total: nat, first: nat, last: nat)
    requires first <= last && (1 + first / SCALARS !in disk || |disk[1 + first / SCALARS]| != MDU)
    ensures !CleanFrom(disk, total, first, last + 1)
  {
    assert !CleanScalar(disk, total, first);
  }

  /**
   Reads the commitments of one user MDU: it succeeds exactly when the request fits the
   generation and every scalar it visits is clean, and then returns its slice of the stream.
   */
  method ReadFrozenWitnessCommitments(disk: Disk, metadata: nat, users: nat, mduIndex: nat, leaves: nat) returns (r: Result<Bytes>)
    ensures r.Ok? <==>
              && Geometry(metadata, users, mduIndex, leaves)
              && var span := leaves * COMMITMENT;
              var start := (mduIndex - metadata) * span;
              CleanFrom(disk, users * span, start / PAYLOAD, (start + span - 1) / PAYLOAD + 1)
    ensures r.Ok? ==>
              var span := leaves * COMMITMENT;
              |r.value| == span && Delivers(disk, 1, Stream(users * span), (mduIndex - metadata) * span, r.value)
  {
    hide Delivers, CleanFrom;
    if leaves == 0 || leaves > MAX_LEAVES || metadata < 2 || mduIndex < metadata || mduIndex - metadata >= users {
      return Err;
    }
    var span := leaves * COMMITMENT;
    var total := users * span;
    if total > (metadata - 1) * CAPACITY {
      return Err;
    }
    SpanFits(users, mduIndex - metadata, span);
    r := ReadSpan(disk, total, (mduIndex - metadata) * span, span);
  }

  /** The bytes of one span, MDU by MDU. */
  method ReadSpan(disk: Disk, total: nat, start: nat, span: nat) returns (r: Result<Bytes>)
    requires span > 0 && start + span <= total
    ensures r.Ok? <==> CleanFrom(disk, total, start / PAYLOAD, (start + span - 1) / PAYLOAD + 1)
    ensures r.Ok? ==> |r.value| == span && Delivers(disk, 1, Stream(total), start, r.value)
  {
    hide Delivers, CleanFrom;
    var out: Bytes := [];
    NothingDelivered(disk, 1, Stream(total), start, out);
    var pos := start;
    while pos < start + span
      invariant start <= pos <= start + span && |out| == pos - start
      invariant pos == start || pos == start + span || pos % CAPACITY == 0
      invariant pos > start ==> CleanFrom(disk, total, start / PAYLOAD, (pos - 1) / PAYLOAD + 1)
      invariant Delivers(disk, 1, Stream(total), start, out)
      decreases start + span - pos
    {
      var end := Min(start + span, (pos / CAPACITY + 1) * CAPACITY);
      var part := ReadMdu(disk, total, pos, end);
      CleanParts(disk, total, start, pos, end, start + span);
      if part.Err? {
        return Err;
      }
      DeliversJoin(disk, 1, Stream(total), start, out, part.value);
      out := out + part.value;
      pos := end;
    }
    return Ok(out);
  }

  lemma {:induction false} SpanFits(users: nat, k: nat, span: nat)
    requires k < users
    ensures k * span + span <= users * span
  {
    if users > k + 1 {
      SpanFits(users - 1, k, span);
    }
    assert users * span == (users - 1) * span + span;
  }

  /** What a part visits belongs to the whole range, and two parts that meet make one. */
  lemma CleanParts(disk: Disk, total: nat, start: nat, pos: nat, end: nat, stop: nat)
    requires start <= pos < end <= stop && (pos == start || pos % CAPACITY == 0)
    ensures CleanFrom(disk, total, start / PAYLOAD, (stop - 1) / PAYLOAD + 1) ==>
              CleanFrom(disk, total, pos / PAYLOAD, (end - 1) / PAYLOAD + 1)
    ensures CleanFrom(disk, total, pos / PAYLOAD, (end - 1) / PAYLOAD + 1)
            && (pos > start ==> CleanFrom(disk, total, start / PAYLOAD, (pos - 1) / PAYLOAD + 1)) ==>
              CleanFrom(disk, total, start / PAYLOAD, (end - 1) / PAYLOAD + 1)
  {
    hide CleanScalar;
    assert pos > start ==> (pos - 1) / PAYLOAD + 1 == pos / PAYLOAD;
  }

  /** A packed commitment stream is clean everywhere, so every request that fits it gets its exact slice. */
  lemma PackedWitness(disk: Disk, users: nat, k: nat, span: nat, data: Bytes, out: Bytes)
    requires k < users && span > 0 && |data| == users * span
    requires forall u: nat :: u * CAPACITY < |data| ==> PackedMdu(disk, 1, Stream(|data|), data, u)
    ensures k * span + span <= |data|
    ensures CleanFrom(disk, |data|, k * span / PAYLOAD, (k * span + span - 1) / PAYLOAD + 1)
    ensures |out| == span && Delivers(disk, 1, Stream(|data|), k * span, out) ==> out == data[k * span..k * span + span]
  {
    hide Delivers, CleanFrom, Stored;
    var start := k * span;
    SpanFits(users, k, span);
    PackedIsClean(disk, data, start, start + span);
    PackedIsStored(disk, 1, Stream(|data|), data);
    if |out| == span && Delivers(disk, 1, Stream(|data|), start, out) {
      StoredSlice(disk, 1, Stream(|data|), data, start, out);
    }
  }

  lemma PackedIsClean(disk: Disk, data: Bytes, start: nat, stop: nat)
    requires start < stop <= |data|
    requires forall u: nat :: u * CAPACITY < |data| ==> PackedMdu(disk, 1, Stream(|data|), data, u)
    ensures CleanFrom(disk, |data|, start / PAYLOAD, (stop - 1) / PAYLOAD + 1)
  {
    hide CleanScalar, PackedMdu;
    forall q | start / PAYLOAD <= q < (stop - 1) / PAYLOAD + 1
      ensures CleanScalar(disk, |data|, q)
    {
      var u := q / SCALARS;
      assert PAYLOAD * q < |data| && u * CAPACITY < |data|;
      assert PackedMdu(disk, 1, Stream(|data|), data, u);
      PackedScalar(disk, data, u, q % SCALARS);
    }
  }

  lemma PackedScalar(disk: Disk, data: Bytes, u: nat, i: nat)
    requires i < SCALARS && PAYLOAD * (u * SCALARS + i) < |data| && PackedMdu(disk, 1, Stream(|data|), data, u)
    ensures CleanScalar(disk, |data|, u * SCALARS + i)
  {
    var q, total := u * SCALARS + i, |data|;
    var part := data[u * CAPACITY..if (u + 1) * CAPACITY < total then (u + 1) * CAPACITY else total];
    NextScalar(u, i);
    assert ChunkLen(total, q) == ChunkLen(|part|, i);
    forall o | 0 <= o < SCALAR - ChunkLen(total, q)
      ensures ScalarByte(disk, 1, q, o) == 0
    {
      PackedPrefix(part, i, o);
    }
  }

  lemma PackedPrefix(part: Bytes, i: nat, o: nat)
    requires i < SCALARS && o < SCALAR - ChunkLen(|part|, i)
    ensures |Encoded(part)| == MDU && Encoded(part)[SCALAR * i + o] == 0
  {
    assert (SCALAR * i + o) / SCALAR == i && (SCALAR * i + o) % SCALAR == o;
  }
}
