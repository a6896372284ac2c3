/**
 Merkle trees of transaction hashes: the flat array that is built, the branches read from it,
 and what a root says about the list it was computed from.
 */
module Merkle {
  import opened Numbers

  type Digest = nat

  /** Hashing of two concatenated digests. */
  type Pairing = (Digest, Digest) -> Digest

  /** The level above: an odd last digest is paired with itself. */
  function Parents(h: Pairing, level: seq<Digest>): (up: seq<Digest>)
    ensures |up| == (|level| + 1) / 2
  {
    seq((|level| + 1) / 2, i requires 0 <= i < (|level| + 1) / 2 => ParentAt(h, level, i))
  }

  function ParentAt(h: Pairing, level: seq<Digest>, i: nat): Digest
    requires 2 * i < |level|
  {
    h(level[2 * i], level[Min(2 * i + 1, |level| - 1)])
  }

  function Root(h: Pairing, level: seq<Digest>): Digest
    decreases |level|
  {
    if |level| == 0 then 0 else if |level| == 1 then level[0] else Root(h, Parents(h, level))
  }

  /** All levels, leaves first. */
  function Flat(h: Pairing, level: seq<Digest>): (all: seq<Digest>)
    ensures |level| <= |all| && all[..|level|] == level
    decreases |level|
  {
    if |level| <= 1 then level else level + Flat(h, Parents(h, level))
  }

  lemma {:induction false} FlatEndsInRoot(h: Pairing, level: seq<Digest>)
    ensures level != [] ==> Flat(h, level) != [] && Flat(h, level)[|Flat(h, level)| - 1] == Root(h, level)
    ensures level == [] <==> Flat(h, level) == []
    decreases |level|
  {
    hide Parents, Flat, Root;
    if |level| > 1 {
      FlatEndsInRoot(h, Parents(h, level));
      FlatOfParents(h, level);
      RootOfParents(h, level);
    } else {
      FlatOfOne(h, level);
    }
  }

  lemma FlatOfOne(h: Pairing, level: seq<Digest>)
    requires |level| <= 1
    ensures Flat(h, level) == level && (level != [] ==> Root(h, level) == level[0])
  {
  }

  // ---------- branches ----------

  function Sibling(i: nat): nat {
    if i % 2 == 0 then i + 1 else i - 1
  }

  function Branch(h: Pairing, level: seq<Digest>, i: nat): seq<Digest>
    requires i < |level|
    decreases |level|
  {
    if |level| <= 1 then [] else [level[Min(Sibling(i), |level| - 1)]] + Branch(h, Parents(h, level), i / 2)
  }

  function Fold(h: Pairing, x: Digest, branch: seq<Digest>, i: int): Digest
    decreases |branch|
  {
    if branch == [] then x
    else Fold(h, if i % 2 == 1 then h(branch[0], x) else h(x, branch[0]), branch[1..], i / 2)
  }

  /** Folding a leaf's branch gives the root, whatever the number of leaves. */
  lemma {:induction false} BranchLeadsToRoot(h: Pairing, level: seq<Digest>, i: nat)
    requires i < |level|
    ensures Fold(h, level[i], Branch(h, level, i), i) == Root(h, level)
    decreases |level|
  {
    if |level| > 1 {
      var up := Parents(h, level);
      var side := level[Min(Sibling(i), |level| - 1)];
      assert up[i / 2] == ParentAt(h, level, i / 2);
      assert (if i % 2 == 1 then h(side, level[i]) else h(level[i], side)) == up[i / 2];
      BranchLeadsToRoot(h, up, i / 2);
      assert Branch(h, level, i) == [side] + Branch(h, up, i / 2);
    }
  }

  // ---------- the operations ----------

  /** The transaction hashes of a block with its cached tree. */
  class BlockHashes {
    const hash: Pairing
    const vtx: seq<Digest>
    var vMerkleTree: seq<Digest>

    ghost predicate Valid()
      reads this
    {
      vMerkleTree == [] || vMerkleTree == Flat(hash, vtx)
    }

    constructor (hash: Pairing, vtx: seq<Digest>)
      ensures Valid() && this.hash == hash && this.vtx == vtx
    {
      this.hash, this.vtx, vMerkleTree := hash, vtx, [];
    }

    /** Appends the parents of the last level. */
    method AppendParents(j: nat, nSize: nat)
      requires nSize > 1 && j + nSize == |vMerkleTree|
      modifies this
      ensures vMerkleTree == old(vMerkleTree) + Parents(hash, old(vMerkleTree)[j..])
    {
      ghost var done, level := vMerkleTree, vMerkleTree[j..];
      ghost var up := Parents(hash, level);
      ParentsAre(hash, level);
      hide Parents;
      var i := 0;
      while i < nSize
        invariant i % 2 == 0 && 0 <= i <= nSize + 1
        invariant vMerkleTree == done + up[..i / 2]
      {
        var i2 := Min(i + 1, nSize - 1);
        assert vMerkleTree[j + i] == level[i] && vMerkleTree[j + i2] == level[i2];
        assert 2 * (i / 2) == i;
        assert up[i / 2] == ParentAt(hash, level, i / 2);
        assert up[..i / 2 + 1] == up[..i / 2] + [up[i / 2]];
        vMerkleTree := vMerkleTree + [hash(vMerkleTree[j + i], vMerkleTree[j + i2])];
        i := i + 2;
      }
      assert up[..i / 2] == up;
    }

    /** Builds the flat tree and returns its root. */
    method BuildMerkleTree() returns (root: Digest)
      modifies this
      ensures Valid() && vMerkleTree == Flat(hash, vtx) && root == Root(hash, vtx)
    {
      hide Parents, Root, Flat;
      vMerkleTree := vtx;
      FlatShort(hash, vtx);
      var j: nat, nSize := 0, |vtx|;
      ghost var level := vtx;
      while nSize > 1
        invariant nSize == |level| && j + nSize == |vMerkleTree| && vMerkleTree[j..] == level
        invariant Flat(hash, vtx) == vMerkleTree[..j] + Flat(hash, level)
        decreases nSize
      {
        ghost var done := vMerkleTree;
        FlatStep(hash, vtx, done, j, level);
        AppendParents(j, nSize);
        j := j + nSize;
        nSize := (nSize + 1) / 2;
        level := Parents(hash, level);
        assert vMerkleTree[..j] == done;
      }
      FlatShort(hash, level);
      assert vMerkleTree == vMerkleTree[..j] + vMerkleTree[j..];
      FlatEndsInRoot(hash, vtx);
      RootOfNone(hash);
      root := if vMerkleTree == [] then 0 else vMerkleTree[|vMerkleTree| - 1];
    }

    /** Reads the siblings on the way from a transaction to the root. */
    method GetMerkleBranch(nIndex: nat) returns (branch: seq<Digest>)
      requires Valid() && nIndex < |vtx|
      modifies this
      ensures Valid() && branch == Branch(hash, vtx, nIndex)
    {
      hide Parents, Flat, Branch, Min, Sibling;
      if vMerkleTree == [] {
        var root := BuildMerkleTree();
      }
      branch := [];
      var j: nat, nSize, index: nat := 0, |vtx|, nIndex;
      ghost var level := vtx;
      while nSize > 1
        invariant nSize == |level| && index < nSize && j <= |vMerkleTree| && vMerkleTree[j..] == Flat(hash, level)
        invariant Valid() && vMerkleTree == Flat(hash, vtx)
        invariant Branch(hash, vtx, nIndex) == branch + Branch(hash, level, index)
        decreases nSize
      {
        var i := Min(Sibling(index), nSize - 1);
        LevelRead(hash, vMerkleTree, j, level, index);
        branch := branch + [vMerkleTree[j + i]];
        index := index / 2;
        j := j + nSize;
        nSize := (nSize + 1) / 2;
        level := Parents(hash, level);
      }
      BranchShort(hash, level, index);
    }
  }

  lemma LevelRead(h: Pairing, tree: seq<Digest>, j: nat, level: seq<Digest>, index: nat)
    requires j <= |tree| && tree[j..] == Flat(h, level) && |level| > 1 && index < |level|
    ensures var i := Min(Sibling(index), |level| - 1);
            && 0 <= i < |level| && j + |level| <= |tree| && tree[j + |level|..] == Flat(h, Parents(h, level))
            && tree[j + i] == level[i]
            && Branch(h, level, index) == [tree[j + i]] + Branch(h, Parents(h, level), index / 2)
  {
    hide Flat, Branch, Parents, Min;
    var i := Min(Sibling(index), |level| - 1);
    FlatOfParents(h, level);
    BranchOfParents(h, level, index);
    Behind(tree, j, level, Flat(h, Parents(h, level)), i);
  }

  lemma BranchOfParents(h: Pairing, level: seq<Digest>, index: nat)
    requires |level| > 1 && index < |level|
    ensures var i := Min(Sibling(index), |level| - 1);
            0 <= i < |level| && Branch(h, level, index) == [level[i]] + Branch(h, Parents(h, level), index / 2)
  {
    hide Parents;
  }

  lemma Behind(tree: seq<Digest>, j: nat, level: seq<Digest>, rest: seq<Digest>, i: nat)
    requires j <= |tree| && tree[j..] == level + rest && i < |level|
    ensures j + |level| <= |tree| && tree[j + |level|..] == rest && tree[j + i] == level[i]
  {
    assert |tree[j..]| == |level| + |rest|;
    assert tree[j..][|level|..] == rest;
    assert tree[j..][i] == level[i];
  }

  lemma BranchShort(h: Pairing, level: seq<Digest>, index: nat)
    requires |level| <= 1 && index < |level|
    ensures Branch(h, level, index) == []
  {
  }

  lemma FlatShort(h: Pairing, level: seq<Digest>)
    ensures |level| <= 1 ==> Flat(h, level) == level
  {
  }

  lemma RootOfNone(h: Pairing)
    ensures Root(h, []) == 0
  {
  }

  lemma ParentsAre(h: Pairing, level: seq<Digest>)
    ensures forall i :: 0 <= i < (|level| + 1) / 2 ==> Parents(h, level)[i] == ParentAt(h, level, i)
  {
  }

  lemma FlatStep(h: Pairing, vtx: seq<Digest>, done: seq<Digest>, j: nat, level: seq<Digest>)
    requires |level| > 1 && j + |level| == |done| && done[j..] == level && Flat(h, vtx) == done[..j] + Flat(h, level)
    ensures Flat(h, vtx) == done + Flat(h, Parents(h, level))
  {
    hide Flat, Parents;
    var rest := Flat(h, Parents(h, level));
    FlatOfParents(h, level);
    Regroup(done[..j], level, rest);
    assert done == done[..j] + level;
  }

  lemma FlatOfParents(h: Pairing, level: seq<Digest>)
    requires |level| > 1
    ensures Flat(h, level) == level + Flat(h, Parents(h, level))
  {
  }

  lemma Regroup(a: seq<Digest>, b: seq<Digest>, c: seq<Digest>)
    ensures a + (b + c) == a + b + c
  {
  }

  /** Folds a branch over a hash; index -1 means "no branch". */
  method CheckMerkleBranch(h: Pairing, hash: Digest, branch: seq<Digest>, nIndex: int) returns (r: Digest)
    ensures r == if nIndex == -1 then 0 else Fold(h, hash, branch, nIndex)
  {
    if nIndex == -1 {
      return 0;
    }
    r := hash;
    var index := nIndex;
    for k := 0 to |branch|
      invariant Fold(h, hash, branch, nIndex) == Fold(h, r, branch[k..], index)
    {
      var otherside := branch[k];
      assert branch[k..][1..] == branch[k + 1..];
      r := if index % 2 == 1 then h(otherside, r) else h(r, otherside);
      index := index / 2;
    }
  }

  /** A block's own branch always checks out against its own root. */
  method BranchOfBlock(b: BlockHashes, i: nat) returns (root: Digest, folded: Digest)
    requires b.Valid() && i < |b.vtx|
    modifies b
    ensures folded == root == Root(b.hash, b.vtx)
  {
    root := b.BuildMerkleTree();
    var branch := b.GetMerkleBranch(i);
    folded := CheckMerkleBranch(b.hash, b.vtx[i], branch, i);
    BranchLeadsToRoot(b.hash, b.vtx, i);
  }

  // ---------- what a root determines ----------

  ghost predicate Injective(h: Pairing) {
    forall a, b, c, d :: h(a, b) == h(c, d) ==> a == c && b == d
  }

  function SetOf(s: seq<Digest>): set<Digest> {
    set x | x in s
  }

  /** The test for duplicate transactions. */
  predicate NoDuplicates(leaves: seq<Digest>) {
    |SetOf(leaves)| == |leaves|
  }

  lemma {:induction false} ElementCount(s: seq<Digest>)
    ensures |SetOf(s)| <= |s|
    ensures |SetOf(s)| == |s| ==> forall i, j :: 0 <= i < j < |s| ==> s[i] != s[j]
  {
    if s != [] {
      var l := |s| - 1;
      var front, last := s[..l], s[l];
      ElementCount(front);
      assert s == front + [last];
      assert SetOf(s) == SetOf(front) + {last};
      if last in front {
        assert SetOf(s) == SetOf(front);
      }
    }
  }

  function Levels(n: nat): nat {
    if n <= 1 then 0 else 1 + Levels((n + 1) / 2)
  }

  /** A digest `d` hashings above transaction hashes. */
  ghost predicate AtDepth(h: Pairing, isTx: Digest -> bool, x: Digest, d: nat)
    decreases d
  {
    if d == 0 then isTx(x)
    else exists a, b :: x == h(a, b) && AtDepth(h, isTx, a, d - 1) && AtDepth(h, isTx, b, d - 1)
  }

  lemma {:induction false} DepthIsUnique(h: Pairing, isTx: Digest -> bool, x: Digest, d: nat, e: nat)
    requires Injective(h) && (forall a, b :: !isTx(h(a, b)))
    requires AtDepth(h, isTx, x, d) && AtDepth(h, isTx, x, e)
    ensures d == e
    decreases d
  {
    if d > 0 && e > 0 {
      var a, b :| x == h(a, b) && AtDepth(h, isTx, a, d - 1) && AtDepth(h, isTx, b, d - 1);
      var a', b' :| x == h(a', b') && AtDepth(h, isTx, a', e - 1) && AtDepth(h, isTx, b', e - 1);
      DepthIsUnique(h, isTx, a, d - 1, e - 1);
    }
  }

  lemma {:induction false} RootDepth(h: Pairing, isTx: Digest -> bool, level: seq<Digest>, d: nat)
    requires level != [] && forall i :: 0 <= i < |level| ==> AtDepth(h, isTx, level[i], d)
    ensures AtDepth(h, isTx, Root(h, level), d + Levels(|level|))
    decreases |level|
  {
    if |level| > 1 {
      var up := Parents(h, level);
      var above := d + 1;
      forall i | 0 <= i < |up| ensures AtDepth(h, isTx, up[i], above) {
        assert up[i] == ParentAt(h, level, i);
      }
      RootDepth(h, isTx, up, above);
    }
  }

  /** Lists of the same depth with the same root agree as far as both go, and where one goes on it repeats itself. */
  lemma {:induction false} SameRootAgree(h: Pairing, l: seq<Digest>, m: seq<Digest>)
    requires Injective(h) && l != [] && |l| <= |m| && Levels(|l|) == Levels(|m|) && Root(h, l) == Root(h, m)
    ensures m[..|l|] == l && (|l| < |m| ==> m[|l|] in l)
    decreases |l|
  {
    if |l| > 1 {
      SameRootAgree(h, Parents(h, l), Parents(h, m));
      hide Parents, Root, Levels;
      AgreeAbove(h, l, m);
    }
  }

  /** If the levels above agree in this way, so do the lists. */
  lemma AgreeAbove(h: Pairing, l: seq<Digest>, m: seq<Digest>)
    requires Injective(h) && |l| <= |m| && |l| > 0 && |Parents(h, l)| <= |Parents(h, m)|
    requires Parents(h, m)[..|Parents(h, l)|] == Parents(h, l)
    requires |Parents(h, l)| < |Parents(h, m)| ==> Parents(h, m)[|Parents(h, l)|] in Parents(h, l)
    ensures m[..|l|] == l && (|l| < |m| ==> m[|l|] in l)
  {
    var pl, pm := Parents(h, l), Parents(h, m);
    ParentsAre(h, l);
    ParentsAre(h, m);
    hide Parents, Injective, ParentAt;
    forall i | 0 <= i < |pl| ensures PairsAgree(l, m, i, i) {
      assert pl[i] == pm[..|pl|][i] == pm[i];
      SameParent(h, l, m, i, i);
    }
    AgreeBelow(l, m);
    if |l| < |m| && |l| % 2 == 0 {
      var k :| 0 <= k < |pl| && pl[k] == pm[|pl|];
      SameParent(h, l, m, k, |pl|);
    } else if |l| < |m| {
      assert PairsAgree(l, m, |pl| - 1, |pl| - 1);
    }
  }

  /** The pair of digests that parent `i` of one level and parent `j` of another one hash. */
  ghost predicate PairsAgree(l: seq<Digest>, m: seq<Digest>, i: nat, j: nat) {
    2 * i < |l| && 2 * j < |m| && l[2 * i] == m[2 * j] && l[Min(2 * i + 1, |l| - 1)] == m[Min(2 * j + 1, |m| - 1)]
  }

  lemma SameParent(h: Pairing, l: seq<Digest>, m: seq<Digest>, i: nat, j: nat)
    requires Injective(h) && 2 * i < |l| && 2 * j < |m| && ParentAt(h, l, i) == ParentAt(h, m, j)
    ensures PairsAgree(l, m, i, j)
  {
  }

  lemma AgreeBelow(l: seq<Digest>, m: seq<Digest>)
    requires |l| <= |m| && forall i :: 0 <= i < (|l| + 1) / 2 ==> PairsAgree(l, m, i, i)
    ensures m[..|l|] == l
  {
    forall i | 0 <= i < |l| ensures m[i] == l[i] {
      assert PairsAgree(l, m, i / 2, i / 2);
      assert i == 2 * (i / 2) || i == 2 * (i / 2) + 1;
    }
  }

  /** Two transaction lists that pass the duplicate test and have the same root are the same list. */
  lemma RootDeterminesList(h: Pairing, isTx: Digest -> bool, l: seq<Digest>, m: seq<Digest>)
    requires Injective(h) && (forall a, b :: !isTx(h(a, b)))
    requires (forall i :: 0 <= i < |l| ==> isTx(l[i])) && (forall i :: 0 <= i < |m| ==> isTx(m[i]))
    requires l != [] && m != [] && NoDuplicates(l) && NoDuplicates(m)
    requires Root(h, l) == Root(h, m)
    ensures l == m
  {
    hide Root, AtDepth, Levels, Injective;
    LeavesAreDeepest(h, isTx, l);
    LeavesAreDeepest(h, isTx, m);
    DepthIsUnique(h, isTx, Root(h, l), Levels(|l|), Levels(|m|));
    if |l| <= |m| {
      SameRootAgree(h, l, m);
      NotRepeated(l, m);
    } else {
      SameRootAgree(h, m, l);
      NotRepeated(m, l);
    }
  }

  lemma LeavesAreDeepest(h: Pairing, isTx: Digest -> bool, l: seq<Digest>)
    requires l != [] && forall i :: 0 <= i < |l| ==> isTx(l[i])
    ensures AtDepth(h, isTx, Root(h, l), Levels(|l|))
  {
    RootDepth(h, isTx, l, 0);
  }

  /** A list without duplicates does not repeat what is in its beginning. */
  lemma NotRepeated(l: seq<Digest>, m: seq<Digest>)
    requires |l| <= |m| && m[..|l|] == l && NoDuplicates(m)
    ensures |l| < |m| ==> m[|l|] !in l
    ensures |l| == |m| ==> l == m
  {
    ElementCount(m);
    if |l| < |m| {
      forall k | 0 <= k < |l| ensures l[k] != m[|l|] {
        assert l[k] == m[..|l|][k] == m[k];
      }
    }
  }

  /** Without the duplicate test, every list of odd length above one shares its root with a longer list. */
  lemma RepeatingLastKeepsRoot(h: Pairing, l: seq<Digest>)
    requires |l| > 1 && |l| % 2 == 1
    ensures Root(h, l + [l[|l| - 1]]) == Root(h, l)
  {
    var m := l + [l[|l| - 1]];
    hide Parents, Root;
    SameParents(h, l);
    RootOfParents(h, l);
    RootOfParents(h, m);
  }

  /** The first levels: pairs are hashed left to right, an odd last one with itself. */
  lemma SmallRoots(h: Pairing, a: Digest, b: Digest, c: Digest, d: Digest)
    ensures Root(h, [a]) == a && Root(h, [a, b]) == h(a, b)
    ensures Root(h, [a, b, c]) == h(h(a, b), h(c, c)) && Root(h, [a, b, c, d]) == h(h(a, b), h(c, d))
  {
    assert Parents(h, [a, b]) == [h(a, b)];
    assert Parents(h, [a, b, c]) == [h(a, b), h(c, c)] && Parents(h, [a, b, c, d]) == [h(a, b), h(c, d)];
    assert Parents(h, [h(a, b), h(c, c)]) == [h(h(a, b), h(c, c))];
    assert Parents(h, [h(a, b), h(c, d)]) == [h(h(a, b), h(c, d))];
    RootOfParents(h, [a, b, c]);
    RootOfParents(h, [a, b, c, d]);
    RootOfParents(h, [h(a, b), h(c, c)]);
    RootOfParents(h, [h(a, b), h(c, d)]);
  }

  lemma RootOfParents(h: Pairing, l: seq<Digest>)
    requires |l| > 1
    ensures Root(h, l) == Root(h, Parents(h, l))
  {
  }

  lemma SameParents(h: Pairing, l: seq<Digest>)
    requires |l| % 2 == 1
    ensures Parents(h, l + [l[|l| - 1]]) == Parents(h, l)
  {
    var m := l + [l[|l| - 1]];
    var n := (|l| + 1) / 2;
    assert |l| == 2 * n - 1 && (|m| + 1) / 2 == n;
    forall i | 0 <= i < n ensures ParentAt(h, m, i) == ParentAt(h, l, i) {
    }
  }
}
