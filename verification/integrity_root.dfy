/**
 Two ways the integrity root is computed: halving a copy of the leaves in place, and
 streaming the leaves once while keeping one peak per set bit of their count.
 */
module IntegrityRoot {
  import opened Wrappers
  import opened Codec
  import opened HashTree

  const MAX_LEAVES := 6291456
  const PEAKS := 24
  const HASH := 32

  type Bytes32 = b: Bytes | |b| == HASH witness seq(HASH, _ => 0)

  datatype Hash = Hash(bytes: Bytes32)

  function Zero(): Hash {
    Hash(seq(HASH, _ => 0))
  }

  function Cell(file: Bytes, i: nat): Hash
    requires HASH * (i + 1) <= |file|
  {
    Hash(file[HASH * i..HASH * (i + 1)])
  }

  function Cells(file: Bytes): seq<Hash> {
    seq(|file| / HASH, i requires 0 <= i < |file| / HASH => Cell(file, i))
  }

  /** Halves the level in its own storage until one node is left. */
  method IntegrityRootInPlace(parent: Parent<Hash>, leaves: seq<Hash>) returns (r: Result<Hash>)
    ensures r.Ok? <==> 0 < |leaves| <= MAX_LEAVES
    ensures r.Ok? ==> r.value == Root(parent, leaves)
  {
    if |leaves| == 0 || |leaves| > MAX_LEAVES {
      return Err;
    }
    var level := new Hash[|leaves|](i requires 0 <= i < |leaves| => leaves[i]);
    var len := |leaves|;
    assert level[..len] == leaves;
    while len > 1
      invariant 0 < len <= level.Length && Root(parent, level[..len]) == Root(parent, leaves)
      decreases len
    {
      HalveInPlace(parent, level, len);
      len := (len + 1) / 2;
    }
    return Ok(level[0]);
  }

  method HalveInPlace(parent: Parent<Hash>, level: array<Hash>, len: nat)
    requires 1 < len <= level.Length
    modifies level
    ensures level[..(len + 1) / 2] == Up(parent, old(level[..len]))
  {
    hide Up;
    ghost var was := level[..len];
    var read, write := 0, 0;
    while read < len
      invariant read == 2 * write && write <= (len + 1) / 2
      invariant forall i :: 0 <= i < write ==> IsPair(parent, was, i, level[i])
      invariant forall i :: read <= i < len ==> level[i] == was[i]
      decreases len - read
    {
      var right := level[read];
      if read + 1 < len {
        right := level[read + 1];
      }
      level[write] := parent(level[read], right);
      read, write := read + 2, write + 1;
    }
    AllHalved(parent, was, level[..write]);
  }

  /** `node` is the parent of the `i`-th pair of a level. */
  ghost predicate IsPair(parent: Parent<Hash>, level: seq<Hash>, i: nat, node: Hash) {
    2 * i < |level| && node == parent(level[2 * i], Right(level, i))
  }

  lemma AllHalved(parent: Parent<Hash>, level: seq<Hash>, next: seq<Hash>)
    requires |next| == (|level| + 1) / 2 && forall i :: 0 <= i < |next| ==> IsPair(parent, level, i, next[i])
    ensures next == Up(parent, level)
  {
    forall i | 0 <= i < |next|
      ensures next[i] == Up(parent, level)[i]
    {
      assert IsPair(parent, level, i, next[i]);
    }
  }

  // Binary counting.

  function Shift(i: nat, l: nat): nat {
    if l == 0 then i else Shift(i, l - 1) / 2
  }

  predicate Bit(i: nat, l: nat) {
    Shift(i, l) % 2 == 1
  }

  lemma {:induction false} ShiftBounds(i: nat, l: nat)
    ensures Shift(i, l) * Pow2(l) <= i < (Shift(i, l) + 1) * Pow2(l)
  {
    if l > 0 {
      ShiftBounds(i, l - 1);
      var s, p := Shift(i, l - 1), Pow2(l - 1);
      Halved(s, p);
    }
  }

  lemma Halved(s: nat, p: nat)
    ensures s / 2 * (2 * p) <= s * p && (s + 1) * p <= (s / 2 + 1) * (2 * p)
    ensures s % 2 == 0 ==> s / 2 * (2 * p) == s * p
    ensures s % 2 == 1 ==> s / 2 * (2 * p) == s * p - p
  {
    var k := s / 2;
    if s % 2 == 0 {
      assert s == 2 * k;
      assert s * p == k * (2 * p) && (s + 1) * p == s * p + p && (k + 1) * (2 * p) == k * (2 * p) + 2 * p;
    } else {
      assert s == 2 * k + 1;
      assert s * p == k * (2 * p) + p && (s + 1) * p == s * p + p && (k + 1) * (2 * p) == k * (2 * p) + 2 * p;
    }
  }

  lemma {:induction false} ShiftSame(i: nat, j: nat, l: nat, h: nat)
    requires Shift(i, l) == Shift(j, l) && l <= h
    ensures Shift(i, h) == Shift(j, h)
  {
    if l < h {
      ShiftSame(i, j, l, h - 1);
    }
  }

  /** The first leaf of the full subtree that bit `l` of a count stands for. */
  function Low(i: nat, l: nat): nat {
    Shift(i, l + 1) * Pow2(l + 1)
  }

  lemma LowIs(i: nat, l: nat)
    ensures Low(i, l) == if Bit(i, l) then Shift(i, l) * Pow2(l) - Pow2(l) else Shift(i, l) * Pow2(l)
    ensures Bit(i, l) ==> Low(i, l) + Pow2(l) <= i
  {
    Halved(Shift(i, l), Pow2(l));
    ShiftBounds(i, l);
  }

  /** The peak of level `l` after `i` leaves. */
  ghost predicate PeakOk(parent: Parent<Hash>, leaves: seq<Hash>, i: nat, l: nat, occupied: bool, peak: Hash) {
    && (occupied <==> Bit(i, l))
    && (occupied ==> Low(i, l) < |leaves| && peak == Sub(parent, leaves, Low(i, l), l))
  }

  ghost predicate PeaksFrom(parent: Parent<Hash>, leaves: seq<Hash>, i: nat, from: nat, occupied: seq<bool>, peaks: seq<Hash>)
    requires |occupied| == |peaks| == PEAKS
  {
    forall l :: from <= l < PEAKS ==> PeakOk(parent, leaves, i, l, occupied[l], peaks[l])
  }

  lemma {:induction false} ShiftZero(l: nat)
    ensures Shift(0, l) == 0
  {
    if l > 0 {
      ShiftZero(l - 1);
    }
  }

  lemma NoPeaks(parent: Parent<Hash>, leaves: seq<Hash>, occupied: seq<bool>, peaks: seq<Hash>)
    requires |occupied| == |peaks| == PEAKS && forall l :: 0 <= l < PEAKS ==> !occupied[l]
    ensures PeaksFrom(parent, leaves, 0, 0, occupied, peaks)
  {
    forall l | 0 <= l < PEAKS
      ensures PeakOk(parent, leaves, 0, l, occupied[l], peaks[l])
    {
      ShiftZero(l);
    }
  }

  /** Every bit of `i` below `l` is set, so adding one carries into bit `l`. */
  ghost predicate Carries(i: nat, l: nat) {
    Shift(i + 1, l) == Shift(i, l) + 1 && i + 1 == Shift(i + 1, l) * Pow2(l)
  }

  lemma CarryOn(i: nat, l: nat)
    requires Carries(i, l) && Bit(i, l)
    ensures Carries(i, l + 1) && !Bit(i + 1, l) && Low(i, l) == i + 1 - Pow2(l + 1)
  {
    var s, p := Shift(i, l), Pow2(l);
    assert Shift(i, l + 1) == s / 2 && Shift(i + 1, l + 1) == (s + 1) / 2 && Pow2(l + 1) == 2 * p;
    hide Shift, Pow2;
    Halved(s, p);
    Halved(s + 1, p);
    OneMoreTime(s, p);
  }

  lemma OneMoreTime(s: nat, p: nat)
    ensures (s + 1) * p == s * p + p
  {
  }

  lemma CarryStops(i: nat, l: nat, h: nat)
    requires Carries(i, l) && !Bit(i, l) && l < h
    ensures Bit(i + 1, l) && Low(i + 1, l) == i + 1 - Pow2(l)
    ensures Shift(i + 1, h) == Shift(i, h) && Shift(i + 1, h + 1) == Shift(i, h + 1)
  {
    LowIs(i + 1, l);
    ShiftSame(i + 1, i, l + 1, h);
    ShiftSame(i + 1, i, l + 1, h + 1);
  }

  /** A carry that long needs more leaves than are allowed. */
  lemma CarryEnds(i: nat, l: nat)
    requires Carries(i, l) && i < MAX_LEAVES
    ensures Pow2(l) <= i + 1 && l < PEAKS - 1
  {
    assert i + 1 >= Pow2(l) by {
      Positive(Shift(i + 1, l), Pow2(l), i + 1);
    }
    Pow23();
    PowGrows(23, l);
  }

  lemma Pow23()
    ensures Pow2(23) == 8388608
  {
    assert Pow2(2) == 4 && Pow2(4) == 16;
    assert Pow2(6) == 64 && Pow2(8) == 256;
    assert Pow2(10) == 1024 && Pow2(12) == 4096;
    assert Pow2(14) == 16384 && Pow2(16) == 65536;
    assert Pow2(18) == 262144 && Pow2(20) == 1048576;
    assert Pow2(22) == 4194304;
  }

  lemma Positive(a: nat, p: nat, n: nat)
    requires n == a * p && n > 0
    ensures p <= n
  {
    if a == 0 {
      assert false;
    }
    assert a * p == (a - 1) * p + p;
  }

  lemma {:induction false} PowGrows(a: nat, b: nat)
    ensures a <= b ==> Pow2(a) <= Pow2(b)
  {
    if a < b {
      PowGrows(a, b - 1);
    }
  }

  /** Adds one leaf: full subtrees of equal height merge until a level is free. */
  method AddLeaf(parent: Parent<Hash>, leaf: Hash, peaks: array<Hash>, occupied: array<bool>, ghost leaves: seq<Hash>, ghost i: nat)
    requires peaks.Length == occupied.Length == PEAKS && i < |leaves| <= MAX_LEAVES && leaf == leaves[i]
    requires PeaksFrom(parent, leaves, i, 0, occupied[..], peaks[..])
    modifies peaks, occupied
    ensures PeaksFrom(parent, leaves, i + 1, 0, occupied[..], peaks[..])
  {
    hide PeaksFrom, Cleared, PeakOk, Carries, Pow2, Sub;
    var node, level := leaf, 0;
    CarryStart(parent, leaves, i, occupied[..]);
    while occupied[level]
      invariant level < PEAKS - 1 && Carries(i, level) && Pow2(level) <= i + 1
      invariant node == Sub(parent, leaves, i + 1 - Pow2(level), level)
      invariant Cleared(occupied[..], i, level) && PeaksFrom(parent, leaves, i, level, occupied[..], peaks[..])
      decreases PEAKS - level
    {
      ghost var was := occupied[..];
      PeakAt(parent, leaves, i, level, was, peaks[..]);
      MergePeak(parent, leaves, i, level, peaks[level], node);
      node := parent(peaks[level], node);
      occupied[level] := false;
      assert occupied[..] == was[level := false];
      ClearNext(parent, leaves, i, level, was, peaks[..]);
      level := level + 1;
    }
    ghost var wasOccupied, wasPeaks := occupied[..], peaks[..];
    peaks[level] := node;
    assert peaks[..] == wasPeaks[level := node];
    occupied[level] := true;
    assert occupied[..] == wasOccupied[level := true];
    PeaksSettled(parent, leaves, i, level, wasOccupied, wasPeaks, node, occupied[..], peaks[..]);
  }

  /** The levels a carry has passed are empty, and so are their bits in the new count. */
  ghost predicate Cleared(occupied: seq<bool>, i: nat, level: nat) {
    level <= |occupied| && forall j :: 0 <= j < level ==> Empty(occupied[j], i, j)
  }

  ghost predicate Empty(occupied: bool, i: nat, j: nat) {
    !occupied && !Bit(i + 1, j)
  }

  lemma PeakAt(parent: Parent<Hash>, leaves: seq<Hash>, i: nat, l: nat, occupied: seq<bool>, peaks: seq<Hash>)
    requires |occupied| == |peaks| == PEAKS && l < PEAKS && PeaksFrom(parent, leaves, i, l, occupied, peaks)
    ensures PeakOk(parent, leaves, i, l, occupied[l], peaks[l])
  {
  }

  lemma ClearNext(parent: Parent<Hash>, leaves: seq<Hash>, i: nat, l: nat, occupied: seq<bool>, peaks: seq<Hash>)
    requires |occupied| == |peaks| == PEAKS && l < PEAKS && PeaksFrom(parent, leaves, i, l, occupied, peaks)
    requires Cleared(occupied, i, l) && !Bit(i + 1, l)
    ensures Cleared(occupied[l := false], i, l + 1) && PeaksFrom(parent, leaves, i, l + 1, occupied[l := false], peaks)
  {
    hide PeakOk, Bit;
    var next := occupied[l := false];
    forall j | 0 <= j < l + 1
      ensures Empty(next[j], i, j)
    {
      if j < l {
        assert Empty(occupied[j], i, j);
      }
    }
    forall k | l + 1 <= k < PEAKS
      ensures PeakOk(parent, leaves, i, k, next[k], peaks[k])
    {
      assert PeakOk(parent, leaves, i, k, occupied[k], peaks[k]);
    }
  }

  lemma CarryStart(parent: Parent<Hash>, leaves: seq<Hash>, i: nat, occupied: seq<bool>)
    requires i < |leaves|
    ensures Carries(i, 0) && Pow2(0) == 1 && Sub(parent, leaves, i, 0) == leaves[i] && Cleared(occupied, i, 0)
  {
  }

  lemma MergePeak(parent: Parent<Hash>, leaves: seq<Hash>, i: nat, l: nat, peak: Hash, node: Hash)
    requires i < |leaves| <= MAX_LEAVES && Carries(i, l) && Pow2(l) <= i + 1 && PeakOk(parent, leaves, i, l, true, peak)
    requires node == Sub(parent, leaves, i + 1 - Pow2(l), l)
    ensures Carries(i, l + 1) && !Bit(i + 1, l) && Pow2(l + 1) <= i + 1 && l + 1 < PEAKS - 1
    ensures parent(peak, node) == Sub(parent, leaves, i + 1 - Pow2(l + 1), l + 1)
  {
    hide Shift, Bit;
    CarryOn(i, l);
    CarryEnds(i, l + 1);
    hide Carries;
    assert Pow2(l + 1) == 2 * Pow2(l);
  }

  lemma PeaksSettled(parent: Parent<Hash>, leaves: seq<Hash>, i: nat, level: nat, wasOccupied: seq<bool>, wasPeaks: seq<Hash>,
                     node: Hash, occupied: seq<bool>, peaks: seq<Hash>)
    requires i < |leaves| && level < PEAKS && |wasOccupied| == |wasPeaks| == PEAKS && Carries(i, level) && Pow2(level) <= i + 1
    requires PeaksFrom(parent, leaves, i, level, wasOccupied, wasPeaks) && !wasOccupied[level]
    requires Cleared(wasOccupied, i, level)
    requires node == Sub(parent, leaves, i + 1 - Pow2(level), level)
    requires occupied == wasOccupied[level := true] && peaks == wasPeaks[level := node]
    ensures PeaksFrom(parent, leaves, i + 1, 0, occupied, peaks)
  {
    hide Shift, Pow2, Sub, Carries;
    assert PeakOk(parent, leaves, i, level, wasOccupied[level], wasPeaks[level]);
    forall l | 0 <= l < PEAKS
      ensures PeakOk(parent, leaves, i + 1, l, occupied[l], peaks[l])
    {
      if l == level {
        CarryStops(i, level, level + 1);
      } else if l > level {
        CarryStops(i, level, l);
        assert PeakOk(parent, leaves, i, l, wasOccupied[l], wasPeaks[l]);
      } else {
        assert Empty(wasOccupied[l], i, l);
      }
    }
  }

  // The end of the stream.

  /** The first leaf of the last node of a level. */
  function Last(n: nat, l: nat): nat
    requires n > 0
  {
    Shift(n - 1, l) * Pow2(l)
  }

  ghost predicate LastNode(parent: Parent<Hash>, leaves: seq<Hash>, l: nat, node: Hash)
    requires leaves != []
  {
    Last(|leaves|, l) < |leaves| && node == Sub(parent, leaves, Last(|leaves|, l), l)
  }

  lemma LastInside(n: nat, l: nat)
    requires n > 0
    ensures Last(n, l) < n <= Last(n, l) + Pow2(l)
  {
    ShiftBounds(n - 1, l);
    assert (Shift(n - 1, l) + 1) * Pow2(l) == Shift(n - 1, l) * Pow2(l) + Pow2(l);
  }

  /** The bits of `n` below `l` are zero: counting back borrows up to bit `l`. */
  ghost predicate Borrows(n: nat, l: nat)
    requires n > 0
  {
    Shift(n, l) == Shift(n - 1, l) + 1 && n == Shift(n, l) * Pow2(l)
  }

  lemma BorrowOn(n: nat, l: nat)
    requires n > 0 && Borrows(n, l) && !Bit(n, l)
    ensures Borrows(n, l + 1)
  {
    Halved(Shift(n, l), Pow2(l));
  }

  lemma BorrowStops(n: nat, l: nat, h: nat)
    requires n > 0 && Borrows(n, l) && Bit(n, l) && l < h
    ensures Shift(n - 1, h) == Shift(n, h)
  {
    ShiftSame(n - 1, n, l + 1, h);
  }

  /** A last node without a left sibling is paired with itself. */
  lemma Lonely(parent: Parent<Hash>, leaves: seq<Hash>, l: nat, node: Hash)
    requires leaves != [] && LastNode(parent, leaves, l, node) && !Bit(|leaves| - 1, l)
    ensures LastNode(parent, leaves, l + 1, parent(node, node))
  {
    var n := |leaves|;
    Halved(Shift(n - 1, l), Pow2(l));
    LastInside(n, l);
    assert Last(n, l + 1) == Last(n, l);
  }

  /** A last node with a left sibling, which is a full peak, is paired with it. */
  lemma Paired(parent: Parent<Hash>, leaves: seq<Hash>, l: nat, peak: Hash, node: Hash)
    requires leaves != [] && LastNode(parent, leaves, l, node) && PeakOk(parent, leaves, |leaves|, l, true, peak)
    requires Shift(|leaves| - 1, l) == Shift(|leaves|, l)
    ensures LastNode(parent, leaves, l + 1, parent(peak, node))
  {
    var n := |leaves|;
    LowIs(n, l);
    LastInside(n, l);
    assert Last(n, l + 1) == Low(n, l);
    assert Last(n, l) == Low(n, l) + Pow2(l);
  }

  lemma FirstNode(parent: Parent<Hash>, leaves: seq<Hash>, l: nat, peak: Hash)
    requires leaves != [] && Borrows(|leaves|, l) && PeakOk(parent, leaves, |leaves|, l, true, peak)
    ensures LastNode(parent, leaves, l, peak) && !Bit(|leaves| - 1, l)
  {
    LowIs(|leaves|, l);
    assert Shift(|leaves|, l) * Pow2(l) - Pow2(l) == Shift(|leaves| - 1, l) * Pow2(l);
  }

  lemma {:induction false} ShiftFirst(i: nat, l: nat)
    ensures Shift(i, l + 1) == Shift(i / 2, l)
  {
    if l > 0 {
      ShiftFirst(i, l - 1);
    }
  }

  /** The height of the tree is the level at which one node is left for the first time. */
  lemma {:induction false} TopLevel(n: nat, l: nat)
    requires n > 0 && Shift(n - 1, l) == 0 && (l > 0 ==> Shift(n - 1, l - 1) > 0)
    ensures l == Height(n)
    decreases l
  {
    if l == 0 {
      assert n == 1;
    } else {
      assert n > 1 by {
        ShiftZero(l - 1);
      }
      assert ((n + 1) / 2) - 1 == (n - 1) / 2;
      ShiftFirst(n - 1, l - 1);
      if l > 1 {
        ShiftFirst(n - 1, l - 2);
      }
      TopLevel((n + 1) / 2, l - 1);
    }
  }

  lemma TopIsRoot(parent: Parent<Hash>, leaves: seq<Hash>, l: nat, node: Hash)
    requires leaves != [] && LastNode(parent, leaves, l, node)
    requires Shift(|leaves| - 1, l) == 0 && (l > 0 ==> Shift(|leaves| - 1, l - 1) > 0)
    ensures node == Root(parent, leaves)
  {
    TopLevel(|leaves|, l);
    RootIsTree(parent, leaves);
  }

  lemma ShiftSmall(n: nat, l: nat)
    requires n < Pow2(l)
    ensures Shift(n, l) == 0
  {
    ShiftBounds(n, l);
    if Shift(n, l) > 0 {
      Positive(Shift(n, l), Pow2(l), Shift(n, l) * Pow2(l));
    }
  }

  /** The level of the highest peak. */
  method HighestPeak(occupied: array<bool>, ghost n: nat) returns (highest: nat)
    requires occupied.Length == PEAKS && 0 < n <= MAX_LEAVES && forall l :: 0 <= l < PEAKS ==> (occupied[l] <==> Bit(n, l))
    ensures highest < PEAKS && occupied[highest] && Shift(n, highest) == 1 && Shift(n, highest + 1) == 0
  {
    highest := PEAKS - 1;
    Pow23();
    assert Pow2(PEAKS) == 2 * Pow2(23);
    ShiftSmall(n, PEAKS);
    while !occupied[highest]
      invariant highest < PEAKS && Shift(n, highest + 1) == 0
      decreases highest
    {
      assert Shift(n, highest) == 0;
      highest := highest - 1;
    }
  }

  /** The level of the lowest peak. */
  method LowestPeak(occupied: array<bool>, highest: nat, ghost n: nat) returns (lowest: nat)
    requires occupied.Length == PEAKS && n > 0 && forall l :: 0 <= l < PEAKS ==> (occupied[l] <==> Bit(n, l))
    requires highest < PEAKS && occupied[highest]
    ensures lowest <= highest && occupied[lowest] && Borrows(n, lowest)
  {
    hide Bit;
    lowest := 0;
    BorrowStart(n);
    while !occupied[lowest]
      invariant lowest <= highest && Borrows(n, lowest)
      decreases highest - lowest
    {
      BorrowOn(n, lowest);
      lowest := lowest + 1;
    }
  }

  lemma BorrowStart(n: nat)
    requires n > 0
    ensures Borrows(n, 0)
  {
  }

  lemma PeakBits(parent: Parent<Hash>, leaves: seq<Hash>, n: nat, occupied: seq<bool>, peaks: seq<Hash>)
    requires |occupied| == |peaks| == PEAKS && PeaksFrom(parent, leaves, n, 0, occupied, peaks)
    ensures forall l :: 0 <= l < PEAKS ==> (occupied[l] <==> Bit(n, l))
  {
    hide Bit, Low, Sub;
    forall l | 0 <= l < PEAKS
      ensures occupied[l] <==> Bit(n, l)
    {
      assert PeakOk(parent, leaves, n, l, occupied[l], peaks[l]);
    }
  }

  /** Folds the peaks from the smallest to the largest into the root. */
  method FoldPeaks(parent: Parent<Hash>, peaks: array<Hash>, occupied: array<bool>, ghost leaves: seq<Hash>) returns (root: Hash)
    requires peaks.Length == occupied.Length == PEAKS && 0 < |leaves| <= MAX_LEAVES
    requires PeaksFrom(parent, leaves, |leaves|, 0, occupied[..], peaks[..])
    ensures root == Root(parent, leaves)
  {
    hide Bit, Low, Sub, Root, Shift, Pow2, Borrows, PeakOk, LastNode;
    ghost var n := |leaves|;
    PeakBits(parent, leaves, n, occupied[..], peaks[..]);
    assert forall l :: 0 <= l < PEAKS ==> (occupied[l] <==> Bit(n, l));
    var highest := HighestPeak(occupied, n);
    var lowest := LowestPeak(occupied, highest, n);
    assert forall l :: 0 <= l < PEAKS ==> PeakOk(parent, leaves, n, l, occupied[..][l], peaks[..][l]);
    root := peaks[lowest];
    var rootLevel := lowest;
    assert PeakOk(parent, leaves, n, lowest, occupied[..][lowest], peaks[..][lowest]);
    FirstNode(parent, leaves, lowest, root);
    var level := lowest + 1;
    while level <= highest
      invariant lowest < level <= highest + 1
      invariant rootLevel == level || (rootLevel == level - 1 && !Bit(n - 1, rootLevel))
      invariant LastNode(parent, leaves, rootLevel, root)
      invariant if level == lowest + 1 then rootLevel == lowest else occupied[level - 1] ==> rootLevel == level
    {
      BitsAbove(n, lowest, level);
      if !occupied[level] {
        Lonely(parent, leaves, rootLevel, root);
        root := parent(root, root);
        rootLevel := rootLevel + 1;
      } else {
        while rootLevel < level
          invariant rootLevel == level || (rootLevel == level - 1 && !Bit(n - 1, rootLevel))
          invariant LastNode(parent, leaves, rootLevel, root)
        {
          Lonely(parent, leaves, rootLevel, root);
          root := parent(root, root);
          rootLevel := rootLevel + 1;
        }
        assert PeakOk(parent, leaves, n, level, occupied[..][level], peaks[..][level]);
        Paired(parent, leaves, level, peaks[level], root);
        root := parent(peaks[level], root);
        rootLevel := rootLevel + 1;
      }
      level := level + 1;
    }
    TopOfFold(n, lowest, highest);
    TopIsRoot(parent, leaves, rootLevel, root);
  }

  lemma BitsAbove(n: nat, lowest: nat, level: nat)
    requires n > 0 && Borrows(n, lowest) && Bit(n, lowest) && lowest < level
    ensures Shift(n - 1, level) == Shift(n, level) && (Bit(n - 1, level) <==> Bit(n, level))
  {
    BorrowStops(n, lowest, level);
  }

  lemma TopOfFold(n: nat, lowest: nat, highest: nat)
    requires n > 0 && Borrows(n, lowest) && Bit(n, lowest) && lowest <= highest && Shift(n, highest) == 1 && Shift(n, highest + 1) == 0
    ensures var top := if lowest == highest then lowest else highest + 1;
            Shift(n - 1, top) == 0 && (top > 0 ==> Shift(n - 1, top - 1) > 0)
  {
    if lowest < highest {
      BorrowStops(n, lowest, highest);
      BorrowStops(n, lowest, highest + 1);
    } else if lowest > 0 {
      ShiftBounds(n - 1, lowest - 1);
    }
  }

  /** Computes the root of a leaf file in one pass; the file must hold exactly `leafCount` hashes. */
  method IntegrityRootReader(parent: Parent<Hash>, file: Bytes, leafCount: nat) returns (r: Result<Hash>)
    ensures r.Ok? <==> 0 < leafCount <= MAX_LEAVES && |file| == HASH * leafCount
    ensures r.Ok? ==> r.value == Root(parent, Cells(file))
  {
    hide PeaksFrom, Root;
    if leafCount == 0 || leafCount > MAX_LEAVES {
      return Err;
    }
    var peaks := new Hash[PEAKS](_ => Zero());
    var occupied := new bool[PEAKS](_ => false);
    ghost var leaves := FirstCells(file, leafCount);
    NoPeaks(parent, leaves, occupied[..], peaks[..]);
    for i := 0 to leafCount
      invariant HASH * i <= |file| && PeaksFrom(parent, leaves, i, 0, occupied[..], peaks[..])
    {
      if |file| < HASH * (i + 1) {
        return Err;
      }
      AddLeaf(parent, Hash(file[HASH * i..HASH * (i + 1)]), peaks, occupied, leaves, i);
    }
    if |file| != HASH * leafCount {
      return Err;
    }
    assert leaves == Cells(file);
    var root := FoldPeaks(parent, peaks, occupied, leaves);
    return Ok(root);
  }

  /** The first hashes of a file, whatever its length. */
  ghost function FirstCells(file: Bytes, n: nat): seq<Hash> {
    seq(n, i requires 0 <= i => if HASH * (i + 1) <= |file| then Cell(file, i) else Zero())
  }
}
