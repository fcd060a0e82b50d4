/**
 The integrity index file: a header and then every level of the integrity tree above the
 leaves, written in one pass per level and read back by offset.
 */
module IntegrityIndex {
  import opened Wrappers
  import opened Codec
  import opened HashTree
  import opened IntegrityRoot

  const HEADER := 16

  function Byte(n: nat): bv8 {
    if n == 0 then 0 else Byte(n - 1) + 1
  }

  function BigEndian(n: nat, k: nat): (b: Bytes)
    ensures |b| == k
  {
    if k == 0 then [] else BigEndian(n / 256, k - 1) + [Byte(n % 256)]
  }

  function Power(k: nat): nat {
    if k == 0 then 1 else 256 * Power(k - 1)
  }

  /** The number that bytes stand for in base 256, the first one the most significant. */
  function Number(b: Bytes): nat {
    if b == [] then 0 else 256 * Number(b[..|b| - 1]) + b[|b| - 1] as nat
  }

  lemma {:induction false} ByteNumber(n: nat)
    requires n < 256
    ensures Byte(n) as nat == n
  {
    if n > 0 {
      ByteNumber(n - 1);
    }
  }

  /** The bytes written for a number that fits stand for it. */
  lemma {:induction false} BigEndianNumber(n: nat, k: nat)
    requires n < Power(k)
    ensures Number(BigEndian(n, k)) == n
    decreases k
  {
    if k > 0 {
      BigEndianNumber(n / 256, k - 1);
      ByteNumber(n % 256);
      assert BigEndian(n, k)[..k - 1] == BigEndian(n / 256, k - 1);
    }
  }

  /** The header of an index spells the name of the format and then its own leaf count. */
  lemma HeaderNumber(leaves: nat)
    requires leaves <= MAX_LEAVES
    ensures forall i :: 0 <= i < 8 ==> Header(leaves)[i] as int == "NILIV3I1"[i] as int
    ensures Number(Header(leaves)[8..]) == leaves
  {
    hide Number, BigEndian;
    assert Power(2) == 0x1_0000;
    assert Power(4) == 0x1_0000_0000;
    assert Power(8) == 0x1_0000_0000_0000_0000;
    BigEndianNumber(leaves, 8);
    assert Header(leaves)[8..] == BigEndian(leaves, 8);
  }

  function Magic(): (b: Bytes)
    ensures |b| == 8
  {
    [0x4e, 0x49, 0x4c, 0x49, 0x56, 0x33, 0x49, 0x31]
  }

  function Header(leaves: nat): (b: Bytes)
    ensures |b| == HEADER
  {
    Magic() + BigEndian(leaves, 8)
  }

  function Flat(level: seq<Hash>): (b: Bytes)
    ensures |b| == HASH * |level|
  {
    if level == [] then [] else Flat(level[..|level| - 1]) + level[|level| - 1].bytes
  }

  /** Nodes above a level of `width` nodes. */
  function NodeCount(width: nat): nat {
    if width <= 1 then 0 else (width + 1) / 2 + NodeCount((width + 1) / 2)
  }

  /** All levels above a level, from the widest to the root. */
  function Body(parent: Parent<Hash>, level: seq<Hash>): (b: Bytes)
    ensures |b| == HASH * NodeCount(|level|)
    decreases |level|
  {
    if |level| <= 1 then [] else Flat(Up(parent, level)) + Body(parent, Up(parent, level))
  }

  function IndexFile(parent: Parent<Hash>, leaves: seq<Hash>): (b: Bytes)
    ensures |b| == HEADER + HASH * NodeCount(|leaves|)
  {
    Header(|leaves|) + Body(parent, leaves)
  }

  /** The tree has one internal node per leaf but one, and at most one more for each level. */
  lemma {:induction false} NodeCountBounds(n: nat)
    requires n > 0
    ensures n - 1 <= NodeCount(n) <= n - 1 + Height(n)
    decreases n
  {
    if n > 1 {
      NodeCountBounds((n + 1) / 2);
    }
  }

  method IndexSize(leaves: nat) returns (r: Result<nat>)
    ensures r.Ok? <==> 0 < leaves <= MAX_LEAVES
    ensures r.Ok? ==> r.value == HEADER + HASH * NodeCount(leaves)
  {
    if leaves == 0 || leaves > MAX_LEAVES {
      return Err;
    }
    var nodes, width := 0, leaves;
    while width > 1
      invariant width > 0 && nodes + NodeCount(width) == NodeCount(leaves)
      decreases width
    {
      width := (width + 1) / 2;
      nodes := nodes + width;
    }
    return Ok(HEADER + HASH * nodes);
  }

  /** Node `i` of a level stored at an offset. */
  ghost predicate Stored(source: Bytes, offset: nat, level: seq<Hash>) {
    offset + HASH * |level| <= |source| && source[offset..offset + HASH * |level|] == Flat(level)
  }

  lemma {:induction false} FlatAt(level: seq<Hash>, i: nat)
    requires i < |level|
    ensures Flat(level)[HASH * i..HASH * i + HASH] == level[i].bytes
    decreases |level|
  {
    if i < |level| - 1 {
      FlatAt(level[..|level| - 1], i);
      assert Flat(level)[HASH * i..HASH * i + HASH] == Flat(level[..|level| - 1])[HASH * i..HASH * i + HASH];
    }
  }

  lemma StoredAt(source: Bytes, offset: nat, level: seq<Hash>, i: nat)
    requires Stored(source, offset, level) && i < |level|
    ensures offset + HASH * i + HASH <= |source| && source[offset + HASH * i..offset + HASH * i + HASH] == level[i].bytes
  {
    hide Flat;
    FlatAt(level, i);
    SubSlice(source, offset, offset + HASH * |level|, offset + HASH * i, offset + HASH * i + HASH);
  }

  lemma {:induction false} FlatCells(file: Bytes)
    requires |file| % HASH == 0
    ensures Flat(Cells(file)) == file
    decreases |file|
  {
    if file != [] {
      var cells, init := Cells(file), file[..|file| - HASH];
      assert forall i :: 0 <= i < |cells| - 1 ==> cells[i] == Cells(init)[i];
      assert cells[..|cells| - 1] == Cells(init);
      FlatCells(init);
    }
  }

  /** Writes the level above `width` nodes read in order from `source`. */
  method BuildLevel(parent: Parent<Hash>, source: Bytes, offset: nat, width: nat, ghost level: seq<Hash>)
    returns (out: Bytes, last: Hash)
    requires Stored(source, offset, level) && |level| == width > 0
    ensures out == Flat(Up(parent, level)) && last == Up(parent, level)[|Up(parent, level)| - 1]
  {
    hide Stored, Up;
    out, last := [], Zero();
    ghost var up := Up(parent, level);
    assert up[..0] == [];
    for i := 0 to (width + 1) / 2
      invariant out == Flat(up[..i]) && (i > 0 ==> last == up[i - 1])
    {
      StoredAt(source, offset, level, 2 * i);
      var left := Hash(source[offset + HASH * (2 * i)..offset + HASH * (2 * i) + HASH]);
      var right := left;
      if 2 * i + 1 < width {
        StoredAt(source, offset, level, 2 * i + 1);
        right := Hash(source[offset + HASH * (2 * i + 1)..offset + HASH * (2 * i + 1) + HASH]);
      }
      last := parent(left, right);
      assert last == up[i];
      assert up[..i + 1][..i] == up[..i];
      out := out + last.bytes;
    }
    assert up[..|up|] == up;
  }

  /** The root the builder compares: it never hashes a single leaf. */
  function BuiltRoot(parent: Parent<Hash>, leaves: seq<Hash>): Hash
    requires leaves != []
  {
    if |leaves| == 1 then Zero() else Root(parent, leaves)
  }

  /** Builds the index of a leaf file level by level, reading each level back from the file it is writing. */
  method BuildIntegrityIndex(parent: Parent<Hash>, leafFile: Bytes, leaves: nat, integrity: Hash) returns (r: Result<Bytes>)
    ensures r.Ok? <==>
              0 < leaves <= MAX_LEAVES && |leafFile| == HASH * leaves && BuiltRoot(parent, Cells(leafFile)) == integrity
    ensures r.Ok? ==> r.value == IndexFile(parent, Cells(leafFile))
  {
    hide Header, Flat, Stored;
    var size := IndexSize(leaves);
    if size.Err? || |leafFile| != HASH * leaves {
      return Err;
    }
    ghost var all := Cells(leafFile);
    LeavesStored(leafFile);
    var tmp := Header(leaves);
    var source, offset: nat, width := leafFile, 0, leaves;
    var root := Zero();
    ghost var level := all;
    while width > 1
      invariant width == |level| > 0 && Stored(source, offset, level)
      invariant tmp + Body(parent, level) == IndexFile(parent, all)
      invariant Root(parent, level) == Root(parent, all)
      invariant if level == all then root == Zero() else |level| < |all| && (width == 1 ==> root == level[0])
      decreases width
    {
      var levelOffset := |tmp|;
      var out, last := BuildLevel(parent, source, offset, width, level);
      LevelWritten(parent, tmp, level);
      tmp := tmp + out;
      level := Up(parent, level);
      root := last;
      source, offset, width := tmp, levelOffset, (width + 1) / 2;
    }
    if root != integrity {
      return Err;
    }
    return Ok(tmp);
  }

  lemma LeavesStored(leafFile: Bytes)
    requires |leafFile| % HASH == 0
    ensures Stored(leafFile, 0, Cells(leafFile))
  {
    FlatCells(leafFile);
    assert leafFile[0..|leafFile|] == leafFile;
  }

  lemma LevelWritten(parent: Parent<Hash>, tmp: Bytes, level: seq<Hash>)
    requires |level| > 1
    ensures var up := Up(parent, level);
            && Stored(tmp + Flat(up), |tmp|, up) && tmp + Flat(up) + Body(parent, up) == tmp + Body(parent, level)
            && Root(parent, level) == Root(parent, up)
  {
    hide Flat, Up, Body, Root;
    var up := Up(parent, level);
    BodyStep(parent, level);
    assert (tmp + Flat(up))[|tmp|..] == Flat(up);
    assert tmp + Flat(up) + Body(parent, up) == tmp + (Flat(up) + Body(parent, up));
  }

  lemma BodyStep(parent: Parent<Hash>, level: seq<Hash>)
    requires |level| > 1
    ensures var up := Up(parent, level);
            Body(parent, level) == Flat(up) + Body(parent, up) && Root(parent, level) == Root(parent, up)
  {
    hide Flat;
  }

  /** An index file is taken for the leaves when its size and header fit; its nodes are not trusted. */
  predicate ValidIndex(index: Bytes, leaves: nat) {
    0 < leaves <= MAX_LEAVES && |index| == HEADER + HASH * NodeCount(leaves) && index[..HEADER] == Header(leaves)
  }

  /** The index of every leaf file of an allowed size is taken for its leaves, and for no other count. */
  lemma BuiltIsValid(parent: Parent<Hash>, leafFile: Bytes, leaves: nat)
    requires 0 < |leafFile| <= HASH * MAX_LEAVES && |leafFile| % HASH == 0
    ensures ValidIndex(IndexFile(parent, Cells(leafFile)), leaves) <==> leaves == |leafFile| / HASH
  {
    hide Body, NodeCount;
    var all := Cells(leafFile);
    var index := IndexFile(parent, all);
    assert index[..HEADER] == Header(|all|);
    if ValidIndex(index, leaves) {
      HeaderNumber(leaves);
      HeaderNumber(|all|);
    }
  }

  method ValidateIntegrityIndex(index: Bytes, leaves: nat) returns (ok: bool)
    ensures ok <==> ValidIndex(index, leaves)
  {
    var size := IndexSize(leaves);
    if size.Err? || |index| != size.value {
      return false;
    }
    ok := index[..8] == Magic() && index[8..HEADER] == BigEndian(leaves, 8);
    assert index[..HEADER] == index[..8] + index[8..HEADER];
    assert Header(leaves)[..8] == Magic() && Header(leaves)[8..] == BigEndian(leaves, 8);
    assert index[..HEADER][..8] == index[..8] && index[..HEADER][8..] == index[8..HEADER];
  }

  /** Where a level and everything above it lie in an index file. */
  ghost predicate LevelAt(parent: Parent<Hash>, index: Bytes, offset: nat, level: seq<Hash>) {
    offset <= |index| && index[offset..] == Flat(level) + Body(parent, level)
  }

  /** Reads the siblings of a position by offset. */
  method ReadIntegrityPath(parent: Parent<Hash>, index: Bytes, leafFile: Bytes, position: nat, leafCount: nat)
    returns (r: Result<seq<Hash>>)
    ensures r.Ok? <==> position < leafCount && ValidIndex(index, leafCount) && |leafFile| == HASH * leafCount
    ensures r.Ok? && index == IndexFile(parent, Cells(leafFile)) ==> r.value == Path(parent, Cells(leafFile), position)
  {
    hide Flat, Body, Header, Up, Path, Stored, LevelAt, NodeCount, Sibling;
    if position >= leafCount {
      return Err;
    }
    var valid := ValidateIntegrityIndex(index, leafCount);
    if !valid || |leafFile| != HASH * leafCount {
      return Err;
    }
    var path := ReadSiblings(parent, index, leafFile, position, leafCount, Cells(leafFile));
    return Ok(path);
  }

  /** Reads one node: of the leaf file, or of the level at an offset of the index. */
  method ReadNode(index: Bytes, leafFile: Bytes, leaf: bool, offset: nat, position: nat) returns (node: Hash)
    requires if leaf then position * HASH + HASH <= |leafFile| && |leafFile| % HASH == 0 else offset + position * HASH + HASH <= |index|
    ensures leaf ==> position < |Cells(leafFile)| && node == Cells(leafFile)[position]
    ensures !leaf ==> node == Hash(index[offset + position * HASH..offset + position * HASH + HASH])
  {
    if leaf {
      LeafAt(leafFile, position);
      node := Hash(leafFile[position * HASH..position * HASH + HASH]);
    } else {
      node := Hash(index[offset + position * HASH..offset + position * HASH + HASH]);
    }
  }

  /** Reads one sibling per level: from the leaf file first, and then from the index at the offset of each level. */
  method ReadSiblings(parent: Parent<Hash>, index: Bytes, leafFile: Bytes, position: nat, leafCount: nat, ghost all: seq<Hash>)
    returns (path: seq<Hash>)
    requires position < leafCount == |all| && |leafFile| == HASH * leafCount && all == Cells(leafFile)
    requires |index| == HEADER + HASH * NodeCount(leafCount)
    ensures index == IndexFile(parent, all) ==> path == Path(parent, all, position)
  {
    hide Flat, Body, Header, Up, Path, Stored, LevelAt, NodeCount, Sibling, Cells, IndexFile;
    ghost var good := index == IndexFile(parent, all);
    path := [];
    var width, pos, levelOffset: nat, level := leafCount, position, HEADER, 0;
    ghost var nodes := all;
    while width > 1
      invariant 0 <= pos < width == |nodes| && levelOffset <= |index|
      invariant if level == 0 then nodes == all && levelOffset == HEADER && HASH * NodeCount(width) == |index| - HEADER
                else levelOffset + HASH * width + HASH * NodeCount(width) == |index|
      invariant good && level > 0 ==> LevelAt(parent, index, levelOffset, nodes)
      invariant good ==> path + Path(parent, nodes, pos) == Path(parent, all, position)
      decreases width
    {
      var sibling := if pos % 2 == 0 then pos + 1 else pos - 1;
      if sibling >= width {
        sibling := pos;
      }
      SiblingIs(width, pos, sibling);
      var node := ReadNode(index, leafFile, level == 0, levelOffset, sibling);
      if good {
        PathStep(parent, nodes, pos, path, Path(parent, all, position));
        if level == 0 {
          FirstLevel(parent, index, all);
        } else {
          NextLevel(parent, index, levelOffset, nodes, sibling);
        }
      }
      Counted(width);
      path := path + [node];
      levelOffset := if level > 0 then levelOffset + width * HASH else levelOffset;
      pos, width, level := pos / 2, (width + 1) / 2, level + 1;
      nodes := Up(parent, nodes);
    }
    if good {
      PathEnds(parent, nodes, pos);
    }
  }

  lemma LeafAt(leafFile: Bytes, i: nat)
    requires |leafFile| % HASH == 0 && i < |leafFile| / HASH
    ensures Cells(leafFile)[i] == Hash(leafFile[HASH * i..HASH * i + HASH])
  {
  }

  lemma SiblingIs(width: nat, pos: nat, sibling: nat)
    requires pos < width
    requires sibling == (var x := if pos % 2 == 0 then pos + 1 else pos - 1; if x >= width then pos else x)
    ensures sibling == Sibling(width, pos)
  {
  }

  lemma Counted(width: nat)
    requires width > 1
    ensures NodeCount(width) == (width + 1) / 2 + NodeCount((width + 1) / 2)
  {
  }

  lemma PathEnds(parent: Parent<Hash>, nodes: seq<Hash>, pos: nat)
    requires |nodes| == 1 && pos == 0
    ensures Path(parent, nodes, pos) == []
  {
  }

  lemma PathStep(parent: Parent<Hash>, nodes: seq<Hash>, pos: nat, path: seq<Hash>, whole: seq<Hash>)
    requires pos < |nodes| && |nodes| > 1 && path + Path(parent, nodes, pos) == whole
    ensures path + [nodes[Sibling(|nodes|, pos)]] + Path(parent, Up(parent, nodes), pos / 2) == whole
  {
    var rest := Path(parent, Up(parent, nodes), pos / 2);
    assert path + [nodes[Sibling(|nodes|, pos)]] + rest == path + ([nodes[Sibling(|nodes|, pos)]] + rest);
  }

  lemma FirstLevel(parent: Parent<Hash>, index: Bytes, all: seq<Hash>)
    requires |all| > 1 && index == IndexFile(parent, all)
    ensures LevelAt(parent, index, HEADER, Up(parent, all))
  {
    hide Header, Flat, Up, Body;
    BodyStep(parent, all);
    assert index[HEADER..] == Body(parent, all);
  }

  /** A level read by offset, and the offset of the next one. */
  lemma NextLevel(parent: Parent<Hash>, index: Bytes, offset: nat, nodes: seq<Hash>, i: nat)
    requires |nodes| > 1 && LevelAt(parent, index, offset, nodes) && i < |nodes|
    ensures offset + HASH * i + HASH <= |index| && index[offset + HASH * i..offset + HASH * i + HASH] == nodes[i].bytes
    ensures LevelAt(parent, index, offset + HASH * |nodes|, Up(parent, nodes))
  {
    hide Flat, Up, Body;
    BodyStep(parent, nodes);
    var rest := index[offset..];
    assert index[offset..offset + HASH * |nodes|] == rest[..HASH * |nodes|] == Flat(nodes);
    assert index[offset + HASH * |nodes|..] == rest[HASH * |nodes|..] == Body(parent, nodes);
    StoredAt(index, offset, nodes, i);
  }

  /** Folds a path from the value to the root, as every verifier does. */
  method VerifyIntegrityPath(parent: Parent<Hash>, value: Hash, position: nat, leafCount: nat, siblings: seq<Hash>, expected: Hash)
    returns (ok: bool)
    ensures ok <==> position < leafCount <= MAX_LEAVES && Accepts(parent, value, position, leafCount, siblings, expected)
  {
    if leafCount == 0 || leafCount > MAX_LEAVES || position >= leafCount {
      return false;
    }
    var current, pos, width, used := value, position, leafCount, 0;
    assert siblings[0..] == siblings;
    while width > 1
      invariant pos < width && used <= |siblings|
      invariant Accepts(parent, value, position, leafCount, siblings, expected) <==>
                Accepts(parent, current, pos, width, siblings[used..], expected)
      decreases width
    {
      if used >= |siblings| {
        return false;
      }
      var s := siblings[used];
      assert siblings[used..][0] == s && siblings[used..][1..] == siblings[used + 1..];
      if width % 2 == 1 && pos == width - 1 && s != current {
        return false;
      }
      current := if pos % 2 == 1 then parent(s, current) else parent(current, s);
      pos, width, used := pos / 2, (width + 1) / 2, used + 1;
    }
    ok := used == |siblings| && current == expected;
  }

  /**
   What is read from a built index is accepted for the leaf it was read for. Anything else
   accepted at that position, another value or another path, hands over a collision of the
   parent hash at a known level.
   */
  lemma IndexServesItsLeaves(parent: Parent<Hash>, leaves: seq<Hash>, position: nat, value: Hash, siblings: seq<Hash>)
    requires position < |leaves|
    ensures Accepts(parent, leaves[position], position, |leaves|, Path(parent, leaves, position), Root(parent, leaves))
    ensures Accepts(parent, value, position, |leaves|, siblings, Root(parent, leaves)) ==>
              || (value == leaves[position] && siblings == Path(parent, leaves, position))
              || var tree, path, k := TreePairs(parent, leaves, position), PathPairs(parent, value, position, siblings),
                                      ClashLevel(parent, leaves, value, position, siblings);
                 k < |tree| && k < |path| && Clash(parent, tree[k], path[k])
  {
    hide Accepts, Root, Path, TreePairs, PathPairs, ClashLevel;
    Complete(parent, leaves, position);
    if Accepts(parent, value, position, |leaves|, siblings, Root(parent, leaves))
       && (value != leaves[position] || siblings != Path(parent, leaves, position)) {
      Sound(parent, leaves, value, position, siblings);
    }
  }
}
