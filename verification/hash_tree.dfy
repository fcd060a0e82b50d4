/**
 The integrity tree: a level is halved by hashing neighbours, and an odd last node is
 paired with itself. `Sub` is the same tree defined from the top down.
 */
module HashTree {

  type Parent<!T> = (T, T) -> T

  /** The right child of node `i` of the next level. */
  function Right<T>(level: seq<T>, i: nat): T
    requires 2 * i < |level|
  {
    if 2 * i + 1 < |level| then level[2 * i + 1] else level[2 * i]
  }

  function Up<T>(parent: Parent<T>, level: seq<T>): (next: seq<T>)
    ensures |next| == (|level| + 1) / 2
    ensures forall i :: 0 <= i < |next| ==> next[i] == parent(level[2 * i], Right(level, i))
  {
    seq((|level| + 1) / 2, i requires 0 <= i < (|level| + 1) / 2 => parent(level[2 * i], Right(level, i)))
  }

  function Root<T>(parent: Parent<T>, level: seq<T>): T
    requires level != []
    decreases |level|
  {
    if |level| == 1 then level[0] else Root(parent, Up(parent, level))
  }

  function Sibling(width: nat, pos: nat): (s: nat)
    requires pos < width
    ensures s < width
  {
    if pos % 2 == 1 then pos - 1 else if pos + 1 < width then pos + 1 else pos
  }

  /** The siblings from a position to the root. */
  function Path<T>(parent: Parent<T>, level: seq<T>, pos: nat): seq<T>
    requires pos < |level|
    decreases |level|
  {
    if |level| == 1 then [] else [level[Sibling(|level|, pos)]] + Path(parent, Up(parent, level), pos / 2)
  }

  function Join<T>(parent: Parent<T>, value: T, pos: nat, sibling: T): T {
    if pos % 2 == 1 then parent(sibling, value) else parent(value, sibling)
  }

  /** A path is accepted when it has one sibling per level, repeats the value where there is no sibling, and folds to the root. */
  predicate Accepts<T(==)>(parent: Parent<T>, value: T, pos: nat, width: nat, siblings: seq<T>, root: T)
    requires pos < width
    decreases width
  {
    if width == 1 then siblings == [] && value == root
    else
      && siblings != []
      && !(width % 2 == 1 && pos == width - 1 && siblings[0] != value)
      && Accepts(parent, Join(parent, value, pos, siblings[0]), pos / 2, (width + 1) / 2, siblings[1..], root)
  }

  /** Joining a node with its sibling gives its parent in the next level. */
  lemma JoinIsUp<T>(parent: Parent<T>, level: seq<T>, pos: nat)
    requires pos < |level|
    ensures pos / 2 < |Up(parent, level)|
    ensures Join(parent, level[pos], pos, level[Sibling(|level|, pos)]) == Up(parent, level)[pos / 2]
  {
  }

  /** Every leaf's own path is accepted. */
  lemma {:induction false} Complete<T>(parent: Parent<T>, level: seq<T>, pos: nat)
    requires pos < |level|
    ensures Accepts(parent, level[pos], pos, |level|, Path(parent, level, pos), Root(parent, level))
    decreases |level|
  {
    if |level| > 1 {
      var path := Path(parent, level, pos);
      JoinIsUp(parent, level, pos);
      assert path[1..] == Path(parent, Up(parent, level), pos / 2);
      Complete(parent, Up(parent, level), pos / 2);
    }
  }

  // Soundness. A hash on strings of one length has collisions, so what is proved is that a
  // forged path hands one over: two different pairs, one of the tree and one of the path.

  datatype Pair<T> = Pair(left: T, right: T)

  /** The pair of nodes above which a position lies in the next level. */
  function TreePair<T>(level: seq<T>, pos: nat): Pair<T>
    requires pos < |level|
  {
    Pair(level[2 * (pos / 2)], Right(level, pos / 2))
  }

  function PathPair<T>(value: T, pos: nat, sibling: T): Pair<T> {
    if pos % 2 == 1 then Pair(sibling, value) else Pair(value, sibling)
  }

  /** The pairs hashed from a position to the root. */
  function TreePairs<T>(parent: Parent<T>, level: seq<T>, pos: nat): seq<Pair<T>>
    requires pos < |level|
    decreases |level|
  {
    if |level| == 1 then [] else [TreePair(level, pos)] + TreePairs(parent, Up(parent, level), pos / 2)
  }

  /** The pairs a verifier hashes when it folds a path. */
  function PathPairs<T>(parent: Parent<T>, value: T, pos: nat, siblings: seq<T>): seq<Pair<T>>
    decreases |siblings|
  {
    if siblings == [] then []
    else [PathPair(value, pos, siblings[0])] + PathPairs(parent, Join(parent, value, pos, siblings[0]), pos / 2, siblings[1..])
  }

  /** The first level at which the path and the tree hash different pairs to the same parent. */
  function ClashLevel<T(==)>(parent: Parent<T>, level: seq<T>, value: T, pos: nat, siblings: seq<T>): nat
    requires pos < |level|
    decreases |level|
  {
    if |level| == 1 || siblings == [] then 0
    else if TreePair(level, pos) != PathPair(value, pos, siblings[0])
            && Join(parent, value, pos, siblings[0]) == Up(parent, level)[pos / 2] then 0
    else 1 + ClashLevel(parent, Up(parent, level), Join(parent, value, pos, siblings[0]), pos / 2, siblings[1..])
  }

  predicate Clash<T(==)>(parent: Parent<T>, a: Pair<T>, b: Pair<T>) {
    a != b && parent(a.left, a.right) == parent(b.left, b.right)
  }

  lemma PairsJoin<T>(parent: Parent<T>, level: seq<T>, value: T, pos: nat, sibling: T)
    requires pos < |level|
    ensures var a, b := TreePair(level, pos), PathPair(value, pos, sibling);
            && parent(a.left, a.right) == Up(parent, level)[pos / 2] && parent(b.left, b.right) == Join(parent, value, pos, sibling)
  {
  }

  lemma ClashStep<T>(parent: Parent<T>, level: seq<T>, value: T, pos: nat, siblings: seq<T>)
    requires pos < |level| && |level| > 1 && siblings != []
    ensures var up, joined, rest := Up(parent, level), Join(parent, value, pos, siblings[0]), siblings[1..];
            var a, b := TreePair(level, pos), PathPair(value, pos, siblings[0]);
            && TreePairs(parent, level, pos) == [a] + TreePairs(parent, up, pos / 2)
            && PathPairs(parent, value, pos, siblings) == [b] + PathPairs(parent, joined, pos / 2, rest)
            && ClashLevel(parent, level, value, pos, siblings) ==
                 if a != b && joined == up[pos / 2] then 0 else 1 + ClashLevel(parent, up, joined, pos / 2, rest)
  {
  }

  lemma AcceptsStep<T>(parent: Parent<T>, level: seq<T>, value: T, pos: nat, siblings: seq<T>)
    requires pos < |level| && |level| > 1 && Accepts(parent, value, pos, |level|, siblings, Root(parent, level))
    ensures siblings != [] && !(|level| % 2 == 1 && pos == |level| - 1 && siblings[0] != value)
    ensures Accepts(parent, Join(parent, value, pos, siblings[0]), pos / 2, (|level| + 1) / 2, siblings[1..], Root(parent, Up(parent, level)))
  {
  }

  /** An accepted path that is not the leaf's own exhibits a collision between a pair of the tree and a pair of the path. */
  lemma {:induction false} Sound<T>(parent: Parent<T>, level: seq<T>, value: T, pos: nat, siblings: seq<T>)
    requires pos < |level| && Accepts(parent, value, pos, |level|, siblings, Root(parent, level))
    requires value != level[pos] || siblings != Path(parent, level, pos)
    ensures var tree, path, k := TreePairs(parent, level, pos), PathPairs(parent, value, pos, siblings),
                                 ClashLevel(parent, level, value, pos, siblings);
            k < |tree| && k < |path| && Clash(parent, tree[k], path[k])
    decreases |level|
  {
    if |level| == 1 {
      assert false;
    } else {
      hide Up, Join, TreePair, PathPair, TreePairs, PathPairs, ClashLevel, Accepts, Root, Path;
      AcceptsStep(parent, level, value, pos, siblings);
      ClashStep(parent, level, value, pos, siblings);
      PairsJoin(parent, level, value, pos, siblings[0]);
      var up, joined := Up(parent, level), Join(parent, value, pos, siblings[0]);
      if TreePair(level, pos) == PathPair(value, pos, siblings[0]) || joined != up[pos / 2] {
        OwnStep(parent, level, value, pos, siblings);
        Sound(parent, up, joined, pos / 2, siblings[1..]);
      }
    }
  }

  /** Where a step of the path is the leaf's own, what differs is above it. */
  lemma OwnStep<T>(parent: Parent<T>, level: seq<T>, value: T, pos: nat, siblings: seq<T>)
    requires pos < |level| && |level| > 1 && siblings != [] && (value != level[pos] || siblings != Path(parent, level, pos))
    requires !(|level| % 2 == 1 && pos == |level| - 1 && siblings[0] != value)
    requires TreePair(level, pos) == PathPair(value, pos, siblings[0]) || Join(parent, value, pos, siblings[0]) != Up(parent, level)[pos / 2]
    ensures Join(parent, value, pos, siblings[0]) != Up(parent, level)[pos / 2] || siblings[1..] != Path(parent, Up(parent, level), pos / 2)
  {
    hide Up, Join, TreePair, PathPair, Sibling, Path;
    PathFromParts(parent, level, pos, siblings);
    if TreePair(level, pos) == PathPair(value, pos, siblings[0]) {
      SamePair(level, value, pos, siblings[0]);
    }
  }

  lemma PathFromParts<T>(parent: Parent<T>, level: seq<T>, pos: nat, siblings: seq<T>)
    requires pos < |level| && |level| > 1 && siblings != []
    ensures siblings[0] == level[Sibling(|level|, pos)] && siblings[1..] == Path(parent, Up(parent, level), pos / 2) ==>
              siblings == Path(parent, level, pos)
  {
    hide Up;
    assert siblings == [siblings[0]] + siblings[1..];
  }

  lemma SamePair<T>(level: seq<T>, value: T, pos: nat, sibling: T)
    requires pos < |level| && TreePair(level, pos) == PathPair(value, pos, sibling)
    requires !(|level| % 2 == 1 && pos == |level| - 1 && sibling != value)
    ensures value == level[pos] && sibling == level[Sibling(|level|, pos)]
  {
  }

  /** Where no pair of the tree clashes with a pair of the path at its level, only the leaf itself, with its own path, is accepted. */
  lemma SoundWithoutClash<T>(parent: Parent<T>, level: seq<T>, value: T, pos: nat, siblings: seq<T>)
    requires pos < |level| && Accepts(parent, value, pos, |level|, siblings, Root(parent, level))
    requires var tree, path := TreePairs(parent, level, pos), PathPairs(parent, value, pos, siblings);
             forall k :: 0 <= k < |tree| && k < |path| ==> !Clash(parent, tree[k], path[k])
    ensures value == level[pos] && siblings == Path(parent, level, pos)
  {
    if value != level[pos] || siblings != Path(parent, level, pos) {
      Sound(parent, level, value, pos, siblings);
    }
  }

  /** The leaf's own path hashes exactly the tree's pairs, so it never clashes. */
  lemma {:induction false} OwnPairs<T>(parent: Parent<T>, level: seq<T>, pos: nat)
    requires pos < |level|
    ensures PathPairs(parent, level[pos], pos, Path(parent, level, pos)) == TreePairs(parent, level, pos)
    decreases |level|
  {
    if |level| > 1 {
      hide Up, Join, TreePair, PathPair, TreePairs, PathPairs, ClashLevel;
      var path := Path(parent, level, pos);
      JoinIsUp(parent, level, pos);
      assert path[0] == level[Sibling(|level|, pos)] && path[1..] == Path(parent, Up(parent, level), pos / 2);
      ClashStep(parent, level, level[pos], pos, path);
      OwnPair(level, pos);
      OwnPairs(parent, Up(parent, level), pos / 2);
    }
  }

  lemma OwnPair<T>(level: seq<T>, pos: nat)
    requires pos < |level|
    ensures PathPair(level[pos], pos, level[Sibling(|level|, pos)]) == TreePair(level, pos)
  {
  }

  // The tree from the top down.

  function Pow2(h: nat): (p: nat)
    ensures p > 0
  {
    if h == 0 then 1 else 2 * Pow2(h - 1)
  }

  /** The node of height `h` over the leaves from `lo` on. */
  function Sub<T>(parent: Parent<T>, leaves: seq<T>, lo: nat, h: nat): T
    requires lo < |leaves|
    decreases h
  {
    if h == 0 then leaves[lo]
    else
      var left := Sub(parent, leaves, lo, h - 1);
      parent(left, if lo + Pow2(h - 1) < |leaves| then Sub(parent, leaves, lo + Pow2(h - 1), h - 1) else left)
  }

  /** A subtree is one level of hashing below a smaller subtree of the next level. */
  lemma {:induction false} SubUp<T>(parent: Parent<T>, leaves: seq<T>, lo: nat, h: nat)
    requires 2 * lo < |leaves|
    ensures Sub(parent, leaves, 2 * lo, h + 1) == Sub(parent, Up(parent, leaves), lo, h)
    decreases h
  {
    if h == 0 {
      assert Sub(parent, leaves, 2 * lo, 1) == parent(leaves[2 * lo], Right(leaves, lo)) by {
        assert Pow2(0) == 1;
        assert Sub(parent, leaves, 2 * lo, 0) == leaves[2 * lo];
      }
    } else {
      SubUp(parent, leaves, lo, h - 1);
      assert 2 * (lo + Pow2(h - 1)) == 2 * lo + Pow2(h);
      if 2 * lo + Pow2(h) < |leaves| {
        SubUp(parent, leaves, lo + Pow2(h - 1), h - 1);
      }
    }
  }

  function Height(width: nat): nat
    requires width > 0
    decreases width
  {
    if width == 1 then 0 else 1 + Height((width + 1) / 2)
  }

  /** Hashing level by level computes the recursive tree. */
  lemma {:induction false} RootIsTree<T>(parent: Parent<T>, leaves: seq<T>)
    requires leaves != []
    ensures Root(parent, leaves) == Sub(parent, leaves, 0, Height(|leaves|))
    decreases |leaves|
  {
    if |leaves| > 1 {
      RootIsTree(parent, Up(parent, leaves));
      SubUp(parent, leaves, 0, Height((|leaves| + 1) / 2));
    }
  }

  /** The height is the least one whose tree covers the leaves. */
  lemma {:induction false} HeightIsLog(n: nat)
    requires n > 0
    ensures n <= Pow2(Height(n)) && (n > 1 ==> Pow2(Height(n) - 1) < n)
    decreases n
  {
    if n > 1 {
      HeightIsLog((n + 1) / 2);
    }
  }
}
