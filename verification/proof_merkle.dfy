/**
 The two in-memory Merkle builders of the proof path. Session trees duplicate the last
 node of an odd level and pair a single leaf with itself; MDU proof trees let an odd node
 rise unchanged and leave its sibling out of the path.
 */
module ProofMerkle {
  import opened HashTree

  datatype Hash = Hash(bytes: seq<bv8>)

  /** What a path verifier computes: no width, one sibling per step. */
  function Fold(parent: Parent<Hash>, value: Hash, pos: nat, path: seq<Hash>): Hash
    decreases |path|
  {
    if path == [] then value else Fold(parent, Join(parent, value, pos, path[0]), pos / 2, path[1..])
  }

  /** The session root: a single leaf is hashed with itself. */
  function SessionRoot(parent: Parent<Hash>, leaves: seq<Hash>): Hash
    requires leaves != []
  {
    if |leaves| == 1 then parent(leaves[0], leaves[0]) else Root(parent, leaves)
  }

  function SessionPath(parent: Parent<Hash>, leaves: seq<Hash>, i: nat): seq<Hash>
    requires i < |leaves|
  {
    if |leaves| == 1 then [leaves[0]] else Path(parent, leaves, i)
  }

  lemma {:induction false} FoldPath(parent: Parent<Hash>, level: seq<Hash>, pos: nat)
    requires pos < |level|
    ensures Fold(parent, level[pos], pos, Path(parent, level, pos)) == Root(parent, level)
    ensures |Path(parent, level, pos)| == Height(|level|)
    decreases |level|
  {
    if |level| > 1 {
      var path, up := Path(parent, level, pos), Up(parent, level);
      JoinIsUp(parent, level, pos);
      FoldPath(parent, up, pos / 2);
      assert path[1..] == Path(parent, up, pos / 2);
    }
  }

  /** Every session path folds to the session root, and all paths are equally long. */
  lemma SessionPathsFold(parent: Parent<Hash>, leaves: seq<Hash>, i: nat)
    requires i < |leaves|
    ensures Fold(parent, leaves[i], i, SessionPath(parent, leaves, i)) == SessionRoot(parent, leaves)
    ensures |SessionPath(parent, leaves, i)| == if |leaves| == 1 then 1 else Height(|leaves|)
  {
    FoldPath(parent, leaves, i);
    if |leaves| == 1 {
      var path := SessionPath(parent, leaves, i);
      assert path[1..] == [];
      assert Fold(parent, Join(parent, leaves[0], 0, path[0]), 0, []) == parent(leaves[0], leaves[0]);
    }
  }

  /** One step of the session builder: what each leaf's path still lacks is its path in the current level. */
  ghost predicate Underway(parent: Parent<Hash>, leaves: seq<Hash>, level: seq<Hash>, i: nat, index: nat, path: seq<Hash>)
    requires i < |leaves|
  {
    index < |level| && path + Path(parent, level, index) == Path(parent, leaves, i)
  }

  method KeccakMerkleRootAndPaths(parent: Parent<Hash>, leaves: seq<Hash>) returns (root: Hash, paths: seq<seq<Hash>>)
    ensures leaves == [] ==> paths == []
    ensures leaves != [] ==> root == SessionRoot(parent, leaves) && |paths| == |leaves|
    ensures leaves != [] ==> forall i :: 0 <= i < |leaves| ==> paths[i] == SessionPath(parent, leaves, i)
  {
    hide Up, Path, Root;
    if |leaves| == 0 {
      return Hash([]), [];
    }
    if |leaves| == 1 {
      return parent(leaves[0], leaves[0]), [[leaves[0]]];
    }
    paths := seq(|leaves|, _ => []);
    var indices: seq<nat> := seq(|leaves|, i requires 0 <= i => i);
    var level := leaves;
    assert forall i :: 0 <= i < |leaves| ==> Underway(parent, leaves, level, i, indices[i], paths[i]);
    while |level| > 1
      invariant level != [] && |paths| == |indices| == |leaves| && Root(parent, level) == Root(parent, leaves)
      invariant forall i :: 0 <= i < |leaves| ==> Underway(parent, leaves, level, i, indices[i], paths[i])
      decreases |level|
    {
      ghost var narrow := level;
      if |level| % 2 == 1 {
        level := level + [level[|level| - 1]];
      }
      paths, indices := ExtendPaths(parent, leaves, narrow, level, paths, indices);
      level := HashPairs(parent, narrow, level);
      RootStep(parent, narrow);
    }
    OneNode(parent, level);
    forall i | 0 <= i < |leaves|
      ensures paths[i] == Path(parent, leaves, i)
    {
      assert Underway(parent, leaves, level, i, indices[i], paths[i]);
      assert paths[i] + [] == paths[i];
    }
    root := level[0];
  }

  /** A level, padded to even width by repeating its last node. */
  ghost predicate Padded(narrow: seq<Hash>, level: seq<Hash>) {
    narrow != [] && level == if |narrow| % 2 == 1 then narrow + [narrow[|narrow| - 1]] else narrow
  }

  method ExtendPaths(parent: Parent<Hash>, ghost leaves: seq<Hash>, ghost narrow: seq<Hash>, level: seq<Hash>,
                     paths: seq<seq<Hash>>, indices: seq<nat>)
    returns (morePaths: seq<seq<Hash>>, moreIndices: seq<nat>)
    requires |paths| == |indices| == |leaves| && |narrow| > 1 && Padded(narrow, level)
    requires forall i :: 0 <= i < |leaves| ==> Underway(parent, leaves, narrow, i, indices[i], paths[i])
    ensures |morePaths| == |moreIndices| == |leaves|
    ensures forall i :: 0 <= i < |leaves| ==> Underway(parent, leaves, Up(parent, narrow), i, moreIndices[i], morePaths[i])
  {
    hide Up, Path;
    morePaths, moreIndices := paths, indices;
    for i := 0 to |paths|
      invariant |morePaths| == |moreIndices| == |leaves|
      invariant forall k :: 0 <= k < i ==> Underway(parent, leaves, Up(parent, narrow), k, moreIndices[k], morePaths[k])
      invariant forall k :: i <= k < |leaves| ==> morePaths[k] == paths[k] && moreIndices[k] == indices[k]
    {
      assert Underway(parent, leaves, narrow, i, indices[i], paths[i]);
      var idx := moreIndices[i];
      var sibling := level[if idx % 2 == 0 then idx + 1 else idx - 1];
      Underneath(parent, leaves, narrow, level, i, idx, paths[i]);
      morePaths := morePaths[i := morePaths[i] + [sibling]];
      moreIndices := moreIndices[i := idx / 2];
    }
  }

  lemma Underneath(parent: Parent<Hash>, leaves: seq<Hash>, narrow: seq<Hash>, level: seq<Hash>, i: nat, idx: nat, path: seq<Hash>)
    requires i < |leaves| && |narrow| > 1 && Padded(narrow, level) && Underway(parent, leaves, narrow, i, idx, path)
    ensures var sibling := level[if idx % 2 == 0 then idx + 1 else idx - 1];
            Underway(parent, leaves, Up(parent, narrow), i, idx / 2, path + [sibling])
  {
    var sibling := level[if idx % 2 == 0 then idx + 1 else idx - 1];
    assert sibling == narrow[Sibling(|narrow|, idx)];
    var rest := Path(parent, Up(parent, narrow), idx / 2);
    assert path + [sibling] + rest == path + ([sibling] + rest);
  }

  method HashPairs(parent: Parent<Hash>, ghost narrow: seq<Hash>, level: seq<Hash>) returns (next: seq<Hash>)
    requires Padded(narrow, level)
    ensures next == Up(parent, narrow)
  {
    next := [];
    var i := 0;
    while i < |level|
      invariant i <= |level| && i == 2 * |next| && next == Up(parent, narrow)[..|next|]
    {
      next := next + [parent(level[i], level[i + 1])];
      i := i + 2;
    }
  }

  lemma RootStep(parent: Parent<Hash>, level: seq<Hash>)
    requires |level| > 1
    ensures Root(parent, level) == Root(parent, Up(parent, level))
  {
  }

  lemma OneNode(parent: Parent<Hash>, level: seq<Hash>)
    requires |level| == 1
    ensures Root(parent, level) == level[0] && Path(parent, level, 0) == []
  {
  }

  // The tree whose odd nodes rise unchanged.

  function Rise(parent: Parent<Hash>, level: seq<Hash>): (next: seq<Hash>)
    ensures |next| == (|level| + 1) / 2
  {
    seq((|level| + 1) / 2, i requires 0 <= i < (|level| + 1) / 2 =>
      if 2 * i + 1 < |level| then parent(level[2 * i], level[2 * i + 1]) else level[2 * i])
  }

  function RiseRoot(parent: Parent<Hash>, level: seq<Hash>): Hash
    requires level != []
    decreases |level|
  {
    if |level| == 1 then level[0] else RiseRoot(parent, Rise(parent, level))
  }

  /** All levels of the tree, leaves first. */
  function Levels(parent: Parent<Hash>, level: seq<Hash>): (tree: seq<seq<Hash>>)
    ensures tree != [] && tree[0] == level
    decreases |level|
  {
    if |level| <= 1 then [level] else [level] + Levels(parent, Rise(parent, level))
  }

  function Other(pos: nat): nat {
    if pos % 2 == 0 then pos + 1 else pos - 1
  }

  predicate HasSibling(width: nat, pos: nat) {
    pos % 2 == 1 || pos + 1 < width
  }

  /** The siblings that exist, from a position to the root. */
  function RisePath(parent: Parent<Hash>, level: seq<Hash>, pos: nat): seq<Hash>
    requires pos < |level|
    decreases |level|
  {
    if |level| == 1 then []
    else
      (if HasSibling(|level|, pos) then [level[Other(pos)]] else []) + RisePath(parent, Rise(parent, level), pos / 2)
  }

  /** A verifier that knows the leaf count: it skips a level exactly where the node has no sibling. */
  function RiseFold(parent: Parent<Hash>, value: Hash, pos: nat, width: nat, path: seq<Hash>): (Hash, seq<Hash>)
    requires pos < width
    decreases width
  {
    if width == 1 then (value, path)
    else if !HasSibling(width, pos) || path == [] then RiseFold(parent, value, pos / 2, (width + 1) / 2, path)
    else RiseFold(parent, Join(parent, value, pos, path[0]), pos / 2, (width + 1) / 2, path[1..])
  }

  lemma RiseStep(parent: Parent<Hash>, level: seq<Hash>, pos: nat)
    requires pos < |level|
    ensures pos / 2 < |Rise(parent, level)|
    ensures Rise(parent, level)[pos / 2] ==
              if HasSibling(|level|, pos) then Join(parent, level[pos], pos, level[Other(pos)]) else level[pos]
  {
  }

  lemma RisePathStep(parent: Parent<Hash>, level: seq<Hash>, pos: nat, rest: seq<Hash>)
    requires pos < |level| && |level| > 1 && rest == RisePath(parent, Rise(parent, level), pos / 2)
    ensures var path := RisePath(parent, level, pos);
            if HasSibling(|level|, pos) then path == [level[Other(pos)]] + rest && path[1..] == rest else path == rest
  {
    hide Rise;
  }

  /** Every path folds to the root and is used up. */
  lemma {:induction false} RisePathFolds(parent: Parent<Hash>, level: seq<Hash>, pos: nat)
    requires pos < |level|
    ensures RiseFold(parent, level[pos], pos, |level|, RisePath(parent, level, pos)) == (RiseRoot(parent, level), [])
    decreases |level|
  {
    hide Rise, RisePath, Join;
    if |level| > 1 {
      var up := Rise(parent, level);
      RiseStep(parent, level, pos);
      RisePathStep(parent, level, pos, RisePath(parent, up, pos / 2));
      RisePathFolds(parent, up, pos / 2);
    } else {
      RisePathEnds(parent, level);
    }
  }

  lemma RisePathEnds(parent: Parent<Hash>, level: seq<Hash>)
    requires |level| == 1
    ensures RisePath(parent, level, 0) == []
  {
  }

  method BuildProofMerkleTree(parent: Parent<Hash>, leaves: seq<Hash>) returns (tree: seq<seq<Hash>>)
    ensures tree == Levels(parent, leaves)
  {
    tree := [leaves];
    var level := leaves;
    ghost var below: seq<seq<Hash>> := [];
    while |level| > 1
      invariant tree == below + [level] && below + Levels(parent, level) == Levels(parent, leaves)
      decreases |level|
    {
      var next := RiseLevel(parent, level);
      assert Levels(parent, level) == [level] + Levels(parent, next);
      assert below + ([level] + Levels(parent, next)) == below + [level] + Levels(parent, next);
      below := below + [level];
      tree := tree + [next];
      level := next;
    }
  }

  method RiseLevel(parent: Parent<Hash>, level: seq<Hash>) returns (next: seq<Hash>)
    ensures next == Rise(parent, level)
  {
    next := [];
    for i := 0 to (|level| + 1) / 2
      invariant next == Rise(parent, level)[..i]
    {
      var node := level[2 * i];
      if 2 * i + 1 < |level| {
        node := parent(level[2 * i], level[2 * i + 1]);
      }
      next := next + [node];
    }
  }

  /** Collects the siblings of a leaf from the stored levels. */
  method ProofMerklePath(parent: Parent<Hash>, tree: seq<seq<Hash>>, index: nat, ghost leaves: seq<Hash>) returns (path: seq<Hash>)
    requires tree == Levels(parent, leaves) && index < |leaves|
    ensures path == RisePath(parent, leaves, index)
  {
    hide Rise, RisePath, Levels;
    path := [];
    var pos: nat := index;
    ghost var level := leaves;
    for i := 0 to |tree| - 1
      invariant pos < |level| && tree[i..] == Levels(parent, level)
      invariant path + RisePath(parent, level, pos) == RisePath(parent, leaves, index)
    {
      LevelStep(parent, level, tree[i..]);
      ghost var rest := RisePath(parent, Rise(parent, level), pos / 2);
      RisePathStep(parent, level, pos, rest);
      var sibling := if pos % 2 == 0 then pos + 1 else pos - 1;
      if sibling < |tree[i]| {
        assert path + ([level[sibling]] + rest) == path + [level[sibling]] + rest;
        path := path + [tree[i][sibling]];
      }
      pos := pos / 2;
      level := Rise(parent, level);
      assert tree[i..][1..] == tree[i + 1..];
    }
    LevelStep(parent, level, tree[|tree| - 1..]);
    RisePathEnds(parent, level);
    assert path + [] == path;
  }

  lemma LevelStep(parent: Parent<Hash>, level: seq<Hash>, tree: seq<seq<Hash>>)
    requires tree == Levels(parent, level) && level != []
    ensures if |tree| == 1 then |level| == 1 else |level| > 1 && tree[1..] == Levels(parent, Rise(parent, level))
    ensures tree[0] == level
  {
  }
}
