/**
 Data shards and MDUs hold the same blobs in transposed order: shard `slot` is the column
 of blobs `row * k + slot` of the MDU.
 */
module Stripe {
  import opened Wrappers
  import opened Codec

  const BLOB := 131072
  const BLOBS := 64

  function BlobAt(s: Bytes, b: nat): Bytes {
    if (b + 1) * BLOB <= |s| then s[b * BLOB..(b + 1) * BLOB] else []
  }

  /** The MDU whose blob `row * k + slot` is blob `row` of shard `slot`; what is left over is zero. */
  ghost predicate Rebuilt(mdu: Bytes, shards: seq<Bytes>, k: nat, rows: nat)
    requires k <= |shards|
  {
    && |mdu| == MDU
    && (forall row, slot :: 0 <= row < rows && 0 <= slot < k ==> BlobAt(mdu, Index(k, row, slot)) == BlobAt(shards[slot], row))
    && (forall x :: k * rows * BLOB <= x < MDU ==> mdu[x] == 0)
  }

  function Index(k: nat, row: nat, slot: nat): nat {
    row * k + slot
  }

  /** `count` blobs of a slot's column from row `first`. */
  ghost predicate Window(out: Bytes, mdu: Bytes, k: nat, slot: nat, first: nat, count: nat) {
    |out| == count * BLOB && forall i :: 0 <= i < count ==> BlobAt(out, i) == BlobAt(mdu, Index(k, first + i, slot))
  }

  lemma {:induction false} IndexInside(k: nat, rows: nat, row: nat, slot: nat)
    requires row < rows && slot < k
    ensures Index(k, row, slot) < k * rows
  {
    if row + 1 < rows {
      IndexInside(k, rows - 1, row, slot);
    }
    assert k * rows == k * (rows - 1) + k;
  }

  lemma IndexDistinct(k: nat, row: nat, slot: nat, r: nat, s: nat)
    requires slot < k && s < k && Index(k, row, slot) == Index(k, r, s)
    ensures row == r && slot == s
  {
    if row < r {
      IndexInside(k, r, row, slot);
    } else if r < row {
      IndexInside(k, row, r, s);
    }
  }

  method CopyBlob(src: Bytes, from: nat, dst: array<bv8>, to: nat)
    requires (from + 1) * BLOB <= |src| && (to + 1) * BLOB <= dst.Length
    modifies dst
    ensures dst[to * BLOB..(to + 1) * BLOB] == src[from * BLOB..(from + 1) * BLOB]
    ensures forall x :: 0 <= x < dst.Length && !(to * BLOB <= x < (to + 1) * BLOB) ==> dst[x] == old(dst[x])
  {
    for i := 0 to BLOB
      invariant forall x :: to * BLOB <= x < to * BLOB + i ==> dst[x] == src[from * BLOB + (x - to * BLOB)]
      invariant forall x :: 0 <= x < dst.Length && !(to * BLOB <= x < to * BLOB + i) ==> dst[x] == old(dst[x])
    {
      dst[to * BLOB + i] := src[from * BLOB + i];
    }
  }

  method ReconstructMduFromDataShards(shards: seq<Bytes>, k: nat, rows: nat) returns (r: Result<Bytes>)
    requires k <= |shards| && k * rows <= BLOBS
    ensures r.Ok? <==> k > 0 && rows > 0 && forall i :: 0 <= i < |shards| ==> |shards[i]| == rows * BLOB
    ensures r.Ok? ==> Rebuilt(r.value, shards, k, rows)
  {
    if k == 0 || rows == 0 {
      return Err;
    }
    for i := 0 to |shards|
      invariant forall j :: 0 <= j < i ==> |shards[j]| == rows * BLOB
    {
      if |shards[i]| != rows * BLOB {
        return Err;
      }
    }
    var mdu := new bv8[MDU](_ => 0);
    for row := 0 to rows
      invariant Placed(mdu[..], shards, k, rows, row, 0)
    {
      for slot := 0 to k
        invariant Placed(mdu[..], shards, k, rows, row, slot)
      {
        PlaceBlob(mdu, shards, k, rows, row, slot);
      }
      NextRow(mdu[..], shards, k, rows, row);
    }
    AllPlaced(mdu[..], shards, k, rows);
    return Ok(mdu[..]);
  }

  predicate Before(row: nat, slot: nat, toRow: nat, toSlot: nat) {
    row < toRow || (row == toRow && slot < toSlot)
  }

  /** The blobs of all rows before `toRow`, and of `toRow` up to `toSlot`, are in place. */
  ghost predicate Placed(mdu: Bytes, shards: seq<Bytes>, k: nat, rows: nat, toRow: nat, toSlot: nat)
    requires k <= |shards|
  {
    && |mdu| == MDU
    && (forall row, slot :: 0 <= row < rows && 0 <= slot < k && Before(row, slot, toRow, toSlot) ==>
          BlobAt(mdu, Index(k, row, slot)) == BlobAt(shards[slot], row))
    && (forall x :: k * rows * BLOB <= x < MDU ==> mdu[x] == 0)
  }

  lemma NextRow(mdu: Bytes, shards: seq<Bytes>, k: nat, rows: nat, row: nat)
    requires k <= |shards| && Placed(mdu, shards, k, rows, row, k)
    ensures Placed(mdu, shards, k, rows, row + 1, 0)
  {
  }

  lemma AllPlaced(mdu: Bytes, shards: seq<Bytes>, k: nat, rows: nat)
    requires k <= |shards| && Placed(mdu, shards, k, rows, rows, 0)
    ensures Rebuilt(mdu, shards, k, rows)
  {
  }

  method PlaceBlob(mdu: array<bv8>, shards: seq<Bytes>, k: nat, rows: nat, row: nat, slot: nat)
    requires k <= |shards| && row < rows && slot < k && k * rows <= BLOBS && |shards[slot]| == rows * BLOB
    requires Placed(mdu[..], shards, k, rows, row, slot)
    modifies mdu
    ensures Placed(mdu[..], shards, k, rows, row, slot + 1)
  {
    IndexInside(k, rows, row, slot);
    ghost var was := mdu[..];
    var b := row * k + slot;
    CopyBlob(shards[slot], row, mdu, b);
    ghost var now := mdu[..];
    assert BlobAt(now, b) == BlobAt(shards[slot], row);
    forall r, s | 0 <= r < rows && 0 <= s < k && Before(r, s, row, slot + 1)
      ensures BlobAt(now, Index(k, r, s)) == BlobAt(shards[s], r)
    {
      if Before(r, s, row, slot) {
        if Index(k, r, s) == b {
          IndexDistinct(k, row, slot, r, s);
        }
        OtherBlob(was, now, b, Index(k, r, s));
      }
    }
  }

  lemma OtherBlob(was: Bytes, now: Bytes, b: nat, c: nat)
    requires |was| == |now| && c != b
    requires forall x :: 0 <= x < |now| && !(b * BLOB <= x < (b + 1) * BLOB) ==> now[x] == was[x]
    ensures BlobAt(now, c) == BlobAt(was, c)
  {
  }

  method SynthesizeSlotWindow(mdu: Bytes, k: nat, rows: nat, slot: nat, rowStart: nat, blobCount: nat) returns (r: Result<Bytes>)
    requires k * rows <= BLOBS
    ensures r.Ok? <==> k > 0 && rows > 0 && slot < k && rowStart + blobCount <= rows && |mdu| >= MDU
    ensures r.Ok? ==> Window(r.value, mdu, k, slot, rowStart, blobCount)
  {
    if k == 0 || rows == 0 || slot >= k || rowStart + blobCount > rows || |mdu| < MDU {
      return Err;
    }
    var out := new bv8[blobCount * BLOB](_ => 0);
    for i := 0 to blobCount
      invariant forall j :: 0 <= j < i ==> BlobAt(out[..], j) == BlobAt(mdu, Index(k, rowStart + j, slot))
    {
      IndexInside(k, rows, rowStart + i, slot);
      var b := (rowStart + i) * k + slot;
      ghost var was := out[..];
      CopyBlob(mdu, b, out, i);
      ghost var now := out[..];
      assert BlobAt(now, i) == BlobAt(mdu, b);
      forall j | 0 <= j < i
        ensures BlobAt(now, j) == BlobAt(mdu, Index(k, rowStart + j, slot))
      {
        OtherBlob(was, now, i, j);
      }
    }
    return Ok(out[..]);
  }

  // The two are inverse to each other.

  lemma SameBlobs(a: Bytes, b: Bytes, n: nat)
    requires |a| == |b| == n * BLOB && forall i :: 0 <= i < n ==> BlobAt(a, i) == BlobAt(b, i)
    ensures a == b
  {
    forall x | 0 <= x < |a|
      ensures a[x] == b[x]
    {
      var i := x / BLOB;
      assert BlobAt(a, i)[x - i * BLOB] == BlobAt(b, i)[x - i * BLOB];
    }
  }

  lemma SliceBlob(s: Bytes, first: nat, count: nat, i: nat)
    requires (first + count) * BLOB <= |s| && i < count
    ensures BlobAt(s[first * BLOB..(first + count) * BLOB], i) == BlobAt(s, first + i)
  {
    SubSlice(s, first * BLOB, (first + count) * BLOB, (first + i) * BLOB, (first + i + 1) * BLOB);
  }

  /** Any window of a rebuilt MDU is that window of the shard it came from. */
  lemma WindowOfRebuilt(mdu: Bytes, shards: seq<Bytes>, k: nat, rows: nat, slot: nat, first: nat, count: nat, out: Bytes)
    requires slot < k <= |shards| && |shards[slot]| == rows * BLOB && first + count <= rows
    requires Rebuilt(mdu, shards, k, rows) && Window(out, mdu, k, slot, first, count)
    ensures out == shards[slot][first * BLOB..(first + count) * BLOB]
  {
    var window := shards[slot][first * BLOB..(first + count) * BLOB];
    forall i | 0 <= i < count
      ensures BlobAt(out, i) == BlobAt(window, i)
    {
      SliceBlob(shards[slot], first, count, i);
      assert BlobAt(out, i) == BlobAt(mdu, Index(k, first + i, slot));
    }
    SameBlobs(out, window, count);
  }

  lemma Divide(k: nat, b: nat)
    requires k > 0
    ensures b % k < k && b == Index(k, b / k, b % k)
  {
  }

  /** Extracting every full slot and rebuilding gives the MDU back, when the slots cover it. */
  lemma RebuiltOfWindows(mdu: Bytes, shards: seq<Bytes>, k: nat, rows: nat, out: Bytes)
    requires k > 0 && k <= |shards| && k * rows == BLOBS && |mdu| == MDU
    requires forall slot :: 0 <= slot < k ==> Window(shards[slot], mdu, k, slot, 0, rows)
    requires Rebuilt(out, shards, k, rows)
    ensures out == mdu
  {
    forall b | 0 <= b < BLOBS
      ensures BlobAt(out, b) == BlobAt(mdu, b)
    {
      var row, slot := b / k, b % k;
      Divide(k, b);
      RowInside(k, rows, row, slot);
      assert Window(shards[slot], mdu, k, slot, 0, rows);
      assert BlobAt(out, Index(k, row, slot)) == BlobAt(shards[slot], row);
      assert BlobAt(shards[slot], row) == BlobAt(mdu, Index(k, 0 + row, slot));
    }
    SameBlobs(out, mdu, BLOBS);
  }

  lemma RowInside(k: nat, rows: nat, row: nat, slot: nat)
    requires slot < k && Index(k, row, slot) < k * rows
    ensures row < rows
  {
    RowsAbove(k, rows, row);
  }

  lemma {:induction false} RowsAbove(k: nat, rows: nat, row: nat)
    ensures row >= rows ==> row * k >= k * rows
  {
    if row > rows {
      RowsAbove(k, rows, row - 1);
      assert row * k == (row - 1) * k + k;
    }
  }
}
