/**
 Two independent readers of a file stored in user MDUs: the streaming scalar reader and
 the reader that unpacks whole MDUs. Both are measured against one logical byte stream.
 */
module DecodedReader {
  import opened Wrappers
  import opened Codec

  /** MDU files by index; a file may be missing or short. */
  type Disk = map<nat, Bytes>

  datatype File = File(start: nat, len: nat)

  /** Scalar `q` of the user area whose first MDU is `slab`. */
  predicate Present(disk: Disk, slab: nat, q: nat) {
    slab + q / SCALARS in disk && SCALAR * (q % SCALARS) + SCALAR <= |disk[slab + q / SCALARS]|
  }

  function ScalarByte(disk: Disk, slab: nat, q: nat, o: nat): bv8
    requires Present(disk, slab, q) && o < SCALAR
  {
    disk[slab + q / SCALARS][SCALAR * (q % SCALARS) + o]
  }

  /** The scalar that holds byte `j` of a file. */
  function Home(f: File, j: nat): nat {
    f.start / PAYLOAD + j / PAYLOAD
  }

  /** Byte `j` of a file, as the packing places it. */
  function FileByte(disk: Disk, slab: nat, f: File, j: nat): bv8
    requires j < f.len && Present(disk, slab, Home(f, j))
  {
    ScalarByte(disk, slab, Home(f, j), SCALAR - ChunkLen(f.len, j / PAYLOAD) + j % PAYLOAD)
  }

  predicate Reads(disk: Disk, slab: nat, f: File, j: nat, b: bv8) {
    j < f.len && Present(disk, slab, Home(f, j)) && FileByte(disk, slab, f, j) == b
  }

  /** `out` is the file's bytes from `from` on. */
  ghost predicate Delivers(disk: Disk, slab: nat, f: File, from: nat, out: Bytes) {
    forall i :: 0 <= i < |out| ==> Reads(disk, slab, f, from + i, out[i])
  }

  ghost predicate Complete(disk: Disk, slab: nat, f: File, from: nat, to: nat) {
    forall j :: from <= j < to && j < f.len ==> Present(disk, slab, Home(f, j))
  }

  datatype Status = Continue | EndOfFile | Failed

  class PolyfsDecodedReader {
    const disk: Disk
    const slab: nat
    const f: File
    const length: nat
    ghost const first: int
    var remaining: nat
    var currentUserMdu: nat
    var currentScalar: nat
    var open: bool
    var payloadOffset: nat
    var payloadBuf: Bytes
    var payloadBufIndex: nat

    /** The segment lies in the file, and the file begins with a scalar: the case the layout guarantees. */
    ghost predicate Inside() {
      f.start % PAYLOAD == 0 && 0 <= first && first + length <= f.len
    }

    /** The next byte of the file to deliver. */
    ghost function Cursor(): int
      reads this
    {
      first + length - remaining
    }

    ghost function Next(): nat
      reads this
    {
      currentUserMdu * SCALARS + currentScalar
    }

    /** `out` is what the segment holds from `from` on. */
    ghost predicate Serves(from: int, out: Bytes) {
      Inside() ==> 0 <= from && Delivers(disk, slab, f, from, out)
    }

    ghost predicate Valid()
      reads this
    {
      && remaining <= length && currentScalar <= SCALARS && payloadOffset < PAYLOAD
      && (payloadOffset > 0 ==> currentScalar < SCALARS)
      && (Inside() && remaining > 0 ==> Buffered())
    }

    /** Either bytes are buffered, and the next scalar follows theirs, or the next scalar holds the cursor. */
    ghost predicate Buffered()
      reads this
    {
      if payloadBufIndex < |payloadBuf| then
        && Serves(Cursor(), payloadBuf[payloadBufIndex..])
        && AtBoundary(Cursor() + |payloadBuf| - payloadBufIndex, 0)
        && payloadOffset == 0
      else AtBoundary(Cursor() - payloadOffset, payloadOffset)
    }

    /** Byte `j` begins the next scalar to read, or the file ends with the scalar before it. */
    ghost predicate AtBoundary(j: int, offset: nat)
      reads this
    {
      && 0 <= j <= f.len && offset < PAYLOAD
      && (j < f.len ==> j % PAYLOAD == 0 && Next() == Home(f, j) && offset < ChunkLen(f.len, j / PAYLOAD))
      && (j == f.len ==> offset == 0)
    }

    /** A reader of `length` bytes from place `start` of the user area. */
    constructor (disk: Disk, slab: nat, f: File, start: nat, length: nat)
      ensures Valid() && remaining == this.length == length && first == start - f.start
      ensures this.disk == disk && this.slab == slab && this.f == f
      ensures open <==> length > 0 && slab + start / CAPACITY in disk
    {
      this.disk, this.slab, this.f, this.length, this.first := disk, slab, f, length, start - f.start;
      remaining := length;
      payloadBuf, payloadBufIndex := [], 0;
      if length == 0 {
        currentUserMdu, currentScalar, payloadOffset, open := 0, 0, 0, false;
      } else {
        currentUserMdu := start / CAPACITY;
        currentScalar := start % CAPACITY / PAYLOAD;
        payloadOffset := start % CAPACITY % PAYLOAD;
        open := slab + start / CAPACITY in disk;
      }
      new;
      StartScalar(start);
      if length > 0 && Inside() {
        StartsAt(f, start);
      }
    }

    method OpenCurrent()
      modifies this`open, this`payloadBuf, this`payloadBufIndex
      ensures open <==> slab + currentUserMdu in disk
      ensures if open then payloadBuf == [] && payloadBufIndex == 0
              else payloadBuf == old(payloadBuf) && payloadBufIndex == old(payloadBufIndex)
    {
      open := slab + currentUserMdu in disk;
      if open {
        payloadBuf, payloadBufIndex := [], 0;
      }
    }

    /** Where the payload of the current scalar lies in it: the last chunk of the file may be short. */
    method ChunkBounds() returns (base: nat, chunkLen: nat)
      requires Valid() && remaining > 0 && payloadBufIndex >= |payloadBuf|
      ensures 0 < chunkLen <= PAYLOAD && base == SCALAR - chunkLen
      ensures Inside() ==> 0 <= Cursor() - payloadOffset && chunkLen == ChunkLen(f.len, (Cursor() - payloadOffset) / PAYLOAD)
    {
      hide ChunkLen, Delivers, Home;
      chunkLen, base := PAYLOAD, 1;
      if f.len > 0 {
        var finalChunk := (f.len - 1) / PAYLOAD;
        var start := currentUserMdu * CAPACITY + currentScalar * PAYLOAD;
        if Inside() {
          ChunkAt(f, currentUserMdu, currentScalar, Cursor() - payloadOffset);
        }
        if start >= f.start && (start - f.start) / PAYLOAD == finalChunk {
          var rem := if f.len % PAYLOAD == 0 then PAYLOAD else f.len % PAYLOAD;
          chunkLen := rem;
          if chunkLen < PAYLOAD {
            base := SCALAR - chunkLen;
          }
        }
      }
    }

    /** Reads the scalar at the cursor and buffers its payload. */
    method FetchScalar() returns (ok: bool)
      requires Valid() && remaining > 0 && payloadBufIndex >= |payloadBuf| && open && currentScalar < SCALARS
      modifies this`payloadOffset, this`payloadBuf, this`payloadBufIndex, this`currentScalar
      ensures Valid()
      ensures Inside() ==> Cursor() >= 0 && (ok <==> Present(disk, slab, Home(f, Cursor())))
      ensures ok ==> payloadOffset == 0 && payloadBufIndex == old(payloadOffset) && |payloadBuf| > 0
      ensures ok && Inside() ==> payloadBufIndex < |payloadBuf|
    {
      hide ChunkLen, Delivers, Home;
      ghost var q, from := Next(), Cursor() - payloadOffset;
      NextScalar(currentUserMdu, currentScalar);
      if Inside() {
        CursorHome(f, Cursor(), payloadOffset);
      }
      var mdu := slab + currentUserMdu;
      if mdu !in disk || |disk[mdu]| < SCALAR * currentScalar + SCALAR {
        return false;
      }
      var scalar := disk[mdu][SCALAR * currentScalar..SCALAR * currentScalar + SCALAR];
      var base, chunkLen := ChunkBounds();
      if Inside() {
        ChunkDelivered(disk, slab, f, q, from, scalar, scalar[base..base + chunkLen], payloadOffset);
      }
      payloadBuf := scalar[base..base + chunkLen];
      payloadBufIndex := payloadOffset;
      payloadOffset := 0;
      currentScalar := currentScalar + 1;
      assert Next() == q + 1;
      ok := true;
    }

    /** Moves to the first scalar of the next MDU. */
    method Advance()
      requires Valid() && remaining > 0 && payloadBufIndex >= |payloadBuf| && currentScalar == SCALARS
      modifies this`currentUserMdu, this`currentScalar, this`payloadOffset, this`open, this`payloadBuf, this`payloadBufIndex
      ensures Valid() && payloadBufIndex >= |payloadBuf| && currentScalar == 0 && payloadOffset == 0
      ensures Inside() && Cursor() >= 0 && Present(disk, slab, Home(f, Cursor())) ==> open
    {
      hide ChunkLen, Delivers, Home;
      ghost var q := Next();
      currentUserMdu := currentUserMdu + 1;
      currentScalar := 0;
      payloadOffset := 0;
      NextScalar(currentUserMdu, 0);
      assert Next() == q;
      OpenCurrent();
    }

    lemma InRange()
      requires Valid()
      ensures remaining <= length && currentScalar <= SCALARS && (payloadOffset > 0 ==> currentScalar < SCALARS)
      ensures Inside() ==> 0 <= Cursor() <= first + length <= f.len
    {
    }

    lemma ServesJoin(from: int, a: Bytes, b: Bytes)
      requires Serves(from, a) && Serves(from + |a|, b)
      ensures Serves(from, a + b)
    {
      if Inside() {
        DeliversJoin(disk, slab, f, from, a, b);
      }
    }

    lemma ServesNothing(from: int, out: Bytes)
      requires out == [] && (Inside() ==> 0 <= from)
      ensures Serves(from, out)
    {
    }

    /** Copies buffered bytes to `p` at `written`. */
    method TakeBuffered(p: array<bv8>, written: nat) returns (n: nat)
      requires Valid() && remaining > 0 && payloadBufIndex < |payloadBuf| && written < p.Length
      modifies this`payloadBufIndex, this`remaining, p
      ensures Valid() && 0 < n <= p.Length - written && n <= old(remaining) && remaining == old(remaining) - n
      ensures Serves(old(Cursor()), p[written..written + n]) && p[..written] == old(p[..written])
    {
      hide ChunkLen, Home, Delivers;
      n := p.Length - written;
      if n > |payloadBuf| - payloadBufIndex {
        n := |payloadBuf| - payloadBufIndex;
      }
      if n > remaining {
        n := remaining;
      }
      ghost var rest, from := payloadBuf[payloadBufIndex..], Cursor();
      SplitRest(payloadBuf, payloadBufIndex, n);
      if Inside() {
        DeliversPart(disk, slab, f, from, rest, n);
      }
      CopyBytes(p, written, payloadBuf[payloadBufIndex..payloadBufIndex + n]);
      payloadBufIndex := payloadBufIndex + n;
      remaining := remaining - n;
    }

    /** Every scalar the rest of the segment needs is stored. */
    ghost predicate Stocked()
      reads this
    {
      open && (Inside() && Cursor() >= 0 ==> Complete(disk, slab, f, Cursor(), first + length))
    }

    /** Fills `p` from the stream; zero bytes and an error if the stream breaks before the first byte. */
    method Read(p: array<bv8>) returns (n: nat, status: Status)
      requires Valid()
      modifies this, p
      ensures Valid() && n <= p.Length && n <= old(remaining) && remaining == old(remaining) - n
      ensures Serves(old(Cursor()), p[..n])
      ensures status == EndOfFile <==> old(remaining) == 0
      ensures Inside() && old(Stocked()) ==>
                status != Failed && n == (if p.Length < old(remaining) then p.Length else old(remaining)) && open
    {
      hide Valid, Serves, Home, Present;
      InRange();
      ServesNothing(Cursor(), p[..0]);
      if remaining == 0 {
        return 0, EndOfFile;
      }
      n := 0;
      if p.Length == 0 {
        return 0, Continue;
      }
      ghost var start, whole := Cursor(), Inside() && Stocked();
      while n < p.Length && remaining > 0
        invariant Valid() && n <= p.Length && n <= old(remaining) && remaining == old(remaining) - n
        invariant Serves(start, p[..n])
        invariant whole ==> open
        decreases remaining, payloadOffset > 0, payloadBufIndex >= |payloadBuf|, currentScalar == SCALARS
      {
        InRange();
        if payloadBufIndex < |payloadBuf| {
          ghost var head := p[..n];
          var taken := TakeBuffered(p, n);
          ServesJoin(start, head, p[n..n + taken]);
          assert p[..n + taken] == head + p[n..n + taken];
          n := n + taken;
          continue;
        }
        if !open {
          return n, Failed;
        }
        assert whole ==> Present(disk, slab, Home(f, Cursor()));
        if currentScalar >= SCALARS {
          Advance();
          if !open {
            return n, if n > 0 then Continue else Failed;
          }
          continue;
        }
        var ok := FetchScalar();
        if !ok {
          return n, if n > 0 then Continue else Failed;
        }
      }
      status := Continue;
    }
  }

  lemma SplitRest(s: Bytes, i: nat, n: nat)
    requires i + n <= |s|
    ensures s[i..][..n] == s[i..i + n] && s[i..][n..] == s[i + n..]
  {
  }

  lemma StartScalar(start: nat)
    ensures start % CAPACITY / PAYLOAD < SCALARS && start % CAPACITY % PAYLOAD < PAYLOAD
  {
  }

  method CopyBytes(p: array<bv8>, at: nat, bytes: Bytes)
    requires at + |bytes| <= p.Length
    modifies p
    ensures p[at..at + |bytes|] == bytes && p[..at] == old(p[..at])
  {
    for i := 0 to |bytes|
      invariant p[at..at + i] == bytes[..i] && p[..at] == old(p[..at])
    {
      p[at + i] := bytes[i];
    }
  }

  lemma NothingDelivered(disk: Disk, slab: nat, f: File, from: nat, out: Bytes)
    requires out == []
    ensures Delivers(disk, slab, f, from, out)
  {
  }

  lemma StartsAt(f: File, start: nat)
    requires f.start % PAYLOAD == 0 && f.start <= start < f.start + f.len
    ensures var j := start - f.start - start % CAPACITY % PAYLOAD;
            && 0 <= j < f.len && j % PAYLOAD == 0 && start % CAPACITY / PAYLOAD < SCALARS
            && start / CAPACITY * SCALARS + start % CAPACITY / PAYLOAD == Home(f, j)
            && start % CAPACITY % PAYLOAD < ChunkLen(f.len, j / PAYLOAD)
  {
    assert start % CAPACITY % PAYLOAD == start % PAYLOAD;
  }

  lemma NextScalar(mdu: nat, scalar: nat)
    requires scalar < SCALARS
    ensures (mdu * SCALARS + scalar) / SCALARS == mdu && (mdu * SCALARS + scalar) % SCALARS == scalar
  {
  }

  /** The reader's own arithmetic finds the length of the chunk that begins at byte `from`. */
  lemma ChunkAt(f: File, mdu: nat, scalar: nat, from: nat)
    requires f.start % PAYLOAD == 0 && from < f.len && from % PAYLOAD == 0 && mdu * SCALARS + scalar == Home(f, from)
    ensures var start := mdu * CAPACITY + scalar * PAYLOAD;
            && start == f.start + from && (start - f.start) / PAYLOAD == from / PAYLOAD
            && ChunkLen(f.len, from / PAYLOAD) ==
                 if from / PAYLOAD == (f.len - 1) / PAYLOAD then (if f.len % PAYLOAD == 0 then PAYLOAD else f.len % PAYLOAD) else PAYLOAD
  {
  }

  lemma ChunkDelivered(disk: Disk, slab: nat, f: File, q: nat, from: nat, scalar: Bytes, chunk: Bytes, offset: nat)
    requires from < f.len && from % PAYLOAD == 0 && q == Home(f, from) && Present(disk, slab, q)
    requires |scalar| == SCALAR && forall o :: 0 <= o < SCALAR ==> scalar[o] == ScalarByte(disk, slab, q, o)
    requires var n := ChunkLen(f.len, from / PAYLOAD); chunk == scalar[SCALAR - n..] && offset < n
    ensures Delivers(disk, slab, f, from + offset, chunk[offset..])
    ensures var end := from + |chunk|;
            end <= f.len && (end < f.len ==> end % PAYLOAD == 0 && Home(f, end) == q + 1 && 0 < ChunkLen(f.len, end / PAYLOAD))
  {
    forall i | offset <= i < |chunk|
      ensures Reads(disk, slab, f, from + i, chunk[i])
    {
      assert (from + i) / PAYLOAD == from / PAYLOAD && (from + i) % PAYLOAD == i;
    }
  }

  lemma DeliversPart(disk: Disk, slab: nat, f: File, from: nat, out: Bytes, n: nat)
    requires Delivers(disk, slab, f, from, out) && n <= |out|
    ensures Delivers(disk, slab, f, from, out[..n]) && Delivers(disk, slab, f, from + n, out[n..])
  {
    forall i | 0 <= i < |out[n..]|
      ensures Reads(disk, slab, f, from + n + i, out[n..][i])
    {
      assert out[n..][i] == out[n + i];
    }
  }

  lemma DeliversJoin(disk: Disk, slab: nat, f: File, from: nat, a: Bytes, b: Bytes)
    requires Delivers(disk, slab, f, from, a) && Delivers(disk, slab, f, from + |a|, b)
    ensures Delivers(disk, slab, f, from, a + b)
  {
    forall i | 0 <= i < |a + b|
      ensures Reads(disk, slab, f, from + i, (a + b)[i])
    {
      if i >= |a| {
        assert (a + b)[i] == b[i - |a|];
      }
    }
  }

  /** The cursor lies in the scalar its chunk begins with. */
  lemma CursorHome(f: File, at: nat, offset: nat)
    requires offset <= at < f.len && (at - offset) % PAYLOAD == 0 && offset < PAYLOAD
    ensures Home(f, at) == Home(f, at - offset)
  {
  }

  lemma DeliveryIsUnique(disk: Disk, slab: nat, f: File, from: nat, a: Bytes, b: Bytes)
    requires Delivers(disk, slab, f, from, a) && Delivers(disk, slab, f, from, b) && |a| == |b|
    ensures a == b
  {
    forall i | 0 <= i < |a|
      ensures a[i] == b[i]
    {
      assert Reads(disk, slab, f, from + i, a[i]) && Reads(disk, slab, f, from + i, b[i]);
    }
  }

  /** The file's contents are `data`. */
  ghost predicate Stored(disk: Disk, slab: nat, f: File, data: Bytes) {
    |data| == f.len && Delivers(disk, slab, f, 0, data)
  }

  lemma StoredSlice(disk: Disk, slab: nat, f: File, data: Bytes, from: nat, out: Bytes)
    requires Stored(disk, slab, f, data) && Delivers(disk, slab, f, from, out) && from + |out| <= f.len
    ensures out == data[from..from + |out|]
  {
    DeliversPart(disk, slab, f, 0, data, from);
    DeliversPart(disk, slab, f, from, data[from..], |out|);
    assert data[from..][..|out|] == data[from..from + |out|];
    DeliveryIsUnique(disk, slab, f, from, out, data[from..from + |out|]);
  }

  lemma StoredComplete(disk: Disk, slab: nat, f: File, data: Bytes, from: nat, to: nat)
    requires Stored(disk, slab, f, data)
    ensures Complete(disk, slab, f, from, to)
  {
    forall j | from <= j < to && j < f.len
      ensures Present(disk, slab, Home(f, j))
    {
      assert Reads(disk, slab, f, 0 + j, data[j]);
    }
  }

  /** MDU `u` of the file is the packing of its part of the data. */
  ghost predicate PackedMdu(disk: Disk, slab: nat, f: File, data: Bytes, u: nat)
    requires |data| == f.len && u * CAPACITY < f.len
  {
    var m := slab + f.start / CAPACITY + u;
    m in disk && disk[m] == Encoded(data[u * CAPACITY..if (u + 1) * CAPACITY < f.len then (u + 1) * CAPACITY else f.len])
  }

  /** Packing a file MDU by MDU from an MDU boundary stores it. */
  lemma PackedIsStored(disk: Disk, slab: nat, f: File, data: Bytes)
    requires |data| == f.len && f.start % CAPACITY == 0
    requires forall u: nat :: u * CAPACITY < f.len ==> PackedMdu(disk, slab, f, data, u)
    ensures Stored(disk, slab, f, data)
  {
    forall j | 0 <= j < f.len
      ensures Reads(disk, slab, f, j, data[j])
    {
      PackedByte(disk, slab, f, data, j / CAPACITY, j % CAPACITY);
    }
  }

  lemma PackedByte(disk: Disk, slab: nat, f: File, data: Bytes, u: nat, k: nat)
    requires |data| == f.len && f.start % CAPACITY == 0 && k < CAPACITY && u * CAPACITY + k < f.len
    requires PackedMdu(disk, slab, f, data, u)
    ensures Reads(disk, slab, f, u * CAPACITY + k, data[u * CAPACITY + k])
  {
    hide Encoded, EncodedByte;
    var j := u * CAPACITY + k;
    var part := data[u * CAPACITY..if (u + 1) * CAPACITY < f.len then (u + 1) * CAPACITY else f.len];
    PackedHome(f, u, k);
    PackedSlot(part, k);
    assert part[k] == data[j];
    assert ChunkLen(f.len, j / PAYLOAD) == ChunkLen(|part|, k / PAYLOAD);
  }

  lemma PackedHome(f: File, u: nat, k: nat)
    requires f.start % CAPACITY == 0 && k < CAPACITY
    ensures var j := u * CAPACITY + k;
            && Home(f, j) / SCALARS == f.start / CAPACITY + u && Home(f, j) % SCALARS == k / PAYLOAD
            && j / PAYLOAD == u * SCALARS + k / PAYLOAD && j % PAYLOAD == k % PAYLOAD
  {
    assert f.start == f.start / CAPACITY * CAPACITY;
    assert f.start / PAYLOAD == f.start / CAPACITY * SCALARS;
    NextScalar(f.start / CAPACITY + u, k / PAYLOAD);
  }

  lemma PackedSlot(part: Bytes, k: nat)
    requires k < |part| <= CAPACITY
    ensures |Encoded(part)| == MDU && Slot(|part|, k) < MDU && Encoded(part)[Slot(|part|, k)] == part[k]
  {
    SlotInside(|part|, k);
    SlotInverse(|part|, k);
  }

  function Sum(sizes: seq<nat>): nat {
    if sizes == [] then 0 else Sum(sizes[..|sizes| - 1]) + sizes[|sizes| - 1]
  }

  function Min(a: nat, b: nat): nat {
    if a < b then a else b
  }

  /** Any schedule of buffer sizes reads the segment in order, without gaps or repeats. */
  method Drain(r: PolyfsDecodedReader, sizes: seq<nat>) returns (out: Bytes)
    requires r.Valid() && r.Inside() && r.remaining == r.length && (r.length > 0 ==> r.open)
    requires Complete(r.disk, r.slab, r.f, r.first, r.first + r.length)
    modifies r
    ensures r.Valid() && |out| == Min(Sum(sizes), r.length) && r.remaining == r.length - |out|
    ensures Delivers(r.disk, r.slab, r.f, r.first, out)
  {
    hide Delivers, PolyfsDecodedReader.Valid, Complete;
    out := [];
    NothingDelivered(r.disk, r.slab, r.f, r.first, out);
    for i := 0 to |sizes|
      invariant r.Valid() && |out| == Min(Sum(sizes[..i]), r.length) && r.remaining == r.length - |out|
      invariant Delivers(r.disk, r.slab, r.f, r.first, out)
      invariant r.remaining > 0 ==> r.open
    {
      assert sizes[..i + 1][..i] == sizes[..i];
      CompleteFrom(r.disk, r.slab, r.f, r.first, r.first + |out|, r.first + r.length);
      var p := new bv8[sizes[i]];
      var n, status := r.Read(p);
      DeliversJoin(r.disk, r.slab, r.f, r.first, out, p[..n]);
      out := out + p[..n];
    }
    assert sizes[..|sizes|] == sizes;
  }

  lemma CompleteFrom(disk: Disk, slab: nat, f: File, from: nat, later: nat, to: nat)
    requires Complete(disk, slab, f, from, to) && from <= later
    ensures Complete(disk, slab, f, later, to)
  {
  }

  /** Copying until end of file, with any buffer sizes, ends and yields the whole segment. */
  method CopySegment(disk: Disk, slab: nat, f: File, data: Bytes, start: nat, length: nat, size: nat -> nat) returns (out: Bytes)
    requires f.start % PAYLOAD == 0 && f.start <= start && start + length <= f.start + f.len
    requires Stored(disk, slab, f, data) && forall i :: size(i) > 0
    ensures out == data[start - f.start..start - f.start + length]
  {
    hide Delivers, PolyfsDecodedReader.Valid, Complete, Home;
    var r := new PolyfsDecodedReader(disk, slab, f, start, length);
    StoredComplete(disk, slab, f, data, r.first, r.first + length);
    OpensWhenStored(disk, slab, f, data, start, length);
    out := [];
    NothingDelivered(disk, slab, f, r.first, out);
    var i := 0;
    while true
      invariant fresh(r) && r.Valid() && |out| <= length == r.length && r.remaining == length - |out|
      invariant Delivers(disk, slab, f, r.first, out)
      invariant r.remaining > 0 ==> r.open
      decreases r.remaining
    {
      CompleteFrom(disk, slab, f, r.first, r.first + |out|, r.first + length);
      var p := new bv8[size(i)];
      var n, status := r.Read(p);
      DeliversJoin(disk, slab, f, r.first, out, p[..n]);
      out := out + p[..n];
      i := i + 1;
      if status == EndOfFile {
        break;
      }
    }
    StoredSlice(disk, slab, f, data, r.first, out);
  }

  lemma OpensWhenStored(disk: Disk, slab: nat, f: File, data: Bytes, start: nat, length: nat)
    requires f.start % PAYLOAD == 0 && f.start <= start && start + length <= f.start + f.len && Stored(disk, slab, f, data)
    ensures length > 0 ==> slab + start / CAPACITY in disk
  {
    if length > 0 {
      var j := start - f.start;
      assert Reads(disk, slab, f, 0 + j, data[j]);
      assert Home(f, j) / SCALARS == start / CAPACITY;
    }
  }

  // The reader that unpacks whole MDUs.

  predicate WholeMdu(disk: Disk, slab: nat, f: File, j: nat) {
    var m := slab + (f.start + j) / CAPACITY;
    m in disk && |disk[m]| == MDU
  }

  /** Serves as much of a range as one MDU holds. */
  method ResolveSegmentDecoded(disk: Disk, slab: nat, f: File, rangeStart: nat, rangeLen: nat) returns (r: Result<Bytes>)
    ensures r.Ok? <==> rangeStart < f.len && WholeMdu(disk, slab, f, rangeStart)
    ensures r.Ok? && f.start % PAYLOAD == 0 ==> Delivers(disk, slab, f, rangeStart, r.value)
    ensures r.Ok? ==> |r.value| == Min(if rangeLen == 0 then f.len - rangeStart else Min(rangeLen, f.len - rangeStart),
                                       CAPACITY - (f.start + rangeStart) % CAPACITY)
  {
    hide Decoded, Delivers, Home, ChunkLen;
    if rangeStart >= f.len {
      return Err;
    }
    var segmentLen := f.len - rangeStart;
    if rangeLen != 0 && rangeLen < segmentLen {
      segmentLen := rangeLen;
    }
    var absolute := f.start + rangeStart;
    var mdu := slab + absolute / CAPACITY;
    if mdu !in disk {
      return Err;
    }
    var mduBase := absolute / CAPACITY * CAPACITY;
    var payloadLen := CAPACITY;
    if f.start + f.len < mduBase + CAPACITY {
      payloadLen := f.start + f.len - mduBase;
      if payloadLen == 0 {
        return Err;
      }
    }
    var decoded := DecodePayloadFromMdu(disk[mdu], payloadLen);
    if decoded.Err? {
      return Err;
    }
    var payload := decoded.value;
    var offset := absolute % CAPACITY;
    if offset >= |payload| {
      return Err;
    }
    var end := offset + segmentLen;
    if end > |payload| {
      end := |payload|;
    }
    if f.start % PAYLOAD == 0 {
      UnpackedSegment(disk, slab, f, absolute / CAPACITY, payloadLen, rangeStart, end);
    }
    return Ok(payload[offset..end]);
  }

  lemma UnpackedSegment(disk: Disk, slab: nat, f: File, u: nat, payloadLen: nat, from: nat, end: nat)
    requires f.start % PAYLOAD == 0 && from < f.len && (f.start + from) / CAPACITY == u
    requires slab + u in disk && |disk[slab + u]| == MDU
    requires payloadLen == if f.start + f.len < u * CAPACITY + CAPACITY then f.start + f.len - u * CAPACITY else CAPACITY
    requires (f.start + from) % CAPACITY <= end <= payloadLen
    ensures Delivers(disk, slab, f, from, Decoded(disk[slab + u], payloadLen)[(f.start + from) % CAPACITY..end])
  {
    hide Decoded, Reads, Home, ChunkLen;
    var offset := (f.start + from) % CAPACITY;
    var segment := Decoded(disk[slab + u], payloadLen)[offset..end];
    forall i | 0 <= i < |segment|
      ensures Reads(disk, slab, f, from + i, segment[i])
    {
      Within(f.start + from, i);
      UnpackedByte(disk, slab, f, u, payloadLen, from + i);
      assert segment[i] == Decoded(disk[slab + u], payloadLen)[offset + i];
    }
  }

  lemma Within(a: nat, i: nat)
    requires a % CAPACITY + i < CAPACITY
    ensures (a + i) / CAPACITY == a / CAPACITY && (a + i) % CAPACITY == a % CAPACITY + i
  {
  }

  /** Unpacking the whole MDU up to the end of the file finds the file's bytes, whatever lies before the file in it. */
  lemma UnpackedByte(disk: Disk, slab: nat, f: File, u: nat, payloadLen: nat, j: nat)
    requires f.start % PAYLOAD == 0 && j < f.len && (f.start + j) / CAPACITY == u
    requires slab + u in disk && |disk[slab + u]| == MDU
    requires payloadLen == if f.start + f.len < u * CAPACITY + CAPACITY then f.start + f.len - u * CAPACITY else CAPACITY
    ensures (f.start + j) % CAPACITY < payloadLen <= CAPACITY
    ensures Reads(disk, slab, f, j, Decoded(disk[slab + u], payloadLen)[(f.start + j) % CAPACITY])
  {
    var k := (f.start + j) % CAPACITY;
    SlotInside(payloadLen, k);
    UnpackedHome(f, u, j);
    UnpackedChunk(f, u, payloadLen, j);
  }

  lemma UnpackedHome(f: File, u: nat, j: nat)
    requires f.start % PAYLOAD == 0 && (f.start + j) / CAPACITY == u
    ensures var k := (f.start + j) % CAPACITY;
            && Home(f, j) / SCALARS == u && Home(f, j) % SCALARS == k / PAYLOAD && j % PAYLOAD == k % PAYLOAD
            && f.start / PAYLOAD + j / PAYLOAD == u * SCALARS + k / PAYLOAD
  {
  }

  lemma UnpackedChunk(f: File, u: nat, payloadLen: nat, j: nat)
    requires f.start % PAYLOAD == 0 && j < f.len && (f.start + j) / CAPACITY == u
    requires payloadLen == if f.start + f.len < u * CAPACITY + CAPACITY then f.start + f.len - u * CAPACITY else CAPACITY
    ensures ChunkLen(f.len, j / PAYLOAD) == ChunkLen(payloadLen, (f.start + j) % CAPACITY / PAYLOAD)
  {
    UnpackedHome(f, u, j);
  }

  /** The download loop: one MDU's worth of the range at a time; it stops at the first MDU it cannot unpack. */
  method Download(disk: Disk, slab: nat, f: File, rangeStart: nat, rangeLen: nat) returns (out: Bytes)
    ensures f.start % PAYLOAD == 0 ==> Delivers(disk, slab, f, rangeStart, out)
    ensures |out| <= rangeLen
    ensures |out| == rangeLen <==> forall j :: rangeStart <= j < rangeStart + rangeLen ==> Unpackable(disk, slab, f, j)
  {
    hide Delivers, WholeMdu;
    out := [];
    NothingDelivered(disk, slab, f, rangeStart, out);
    while |out| < rangeLen
      invariant |out| <= rangeLen && (f.start % PAYLOAD == 0 ==> Delivers(disk, slab, f, rangeStart, out))
      invariant forall j :: rangeStart <= j < rangeStart + |out| ==> Unpackable(disk, slab, f, j)
      decreases rangeLen - |out|
    {
      var chunkStart := rangeStart + |out|;
      var mduRemaining := CAPACITY - (f.start + chunkStart) % CAPACITY;
      var chunkLen := rangeLen - |out|;
      if chunkLen > mduRemaining {
        chunkLen := mduRemaining;
      }
      var r := ResolveSegmentDecoded(disk, slab, f, chunkStart, chunkLen);
      if r.Err? {
        assert !Unpackable(disk, slab, f, chunkStart);
        return;
      }
      SameMdu(disk, slab, f, chunkStart, |r.value|);
      if f.start % PAYLOAD == 0 {
        DeliversJoin(disk, slab, f, rangeStart, out, r.value);
      }
      out := out + r.value;
    }
  }

  /** Byte `j` of the file can be unpacked from its MDU. */
  predicate Unpackable(disk: Disk, slab: nat, f: File, j: nat) {
    j < f.len && WholeMdu(disk, slab, f, j)
  }

  lemma SameMdu(disk: Disk, slab: nat, f: File, from: nat, n: nat)
    requires WholeMdu(disk, slab, f, from) && n <= CAPACITY - (f.start + from) % CAPACITY
    ensures forall j :: from <= j < from + n ==> WholeMdu(disk, slab, f, j)
  {
    forall j | from <= j < from + n
      ensures WholeMdu(disk, slab, f, j)
    {
      Within(f.start + from, j - from);
    }
  }

  /** Where both readers finish, they serve the same bytes. */
  lemma ReadersAgree(disk: Disk, slab: nat, f: File, data: Bytes, start: nat, streamed: Bytes, unpacked: Bytes)
    requires Stored(disk, slab, f, data) && start + |streamed| <= f.len && |streamed| == |unpacked|
    requires Delivers(disk, slab, f, start, streamed) && Delivers(disk, slab, f, start, unpacked)
    ensures streamed == unpacked == data[start..start + |streamed|]
  {
    hide Delivers;
    StoredSlice(disk, slab, f, data, start, streamed);
    StoredSlice(disk, slab, f, data, start, unpacked);
  }
}
