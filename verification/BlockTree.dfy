/**
 The tree of block index entries: every entry but genesis points to its parent, one
 lower. Paths from genesis, ancestors, and the search for the fork of two branches.
 */
module BlockTree {
  import opened Ledger
  import opened Replay

  /** The fields of a block index entry that never change once the block is accepted. */
  datatype BlockIndex = BlockIndex(prev: Option<Hash>, height: nat, trust: nat, at: BlockPos, block: Block)

  type Nodes = map<Hash, BlockIndex>

  ghost predicate Tree(nodes: Nodes, genesis: Hash) {
    && genesis in nodes
    && nodes[genesis].prev == None && nodes[genesis].height == 0
    && forall h {:trigger HasParent(nodes, genesis, h)} :: h in nodes ==> HasParent(nodes, genesis, h)
  }

  ghost predicate HasParent(nodes: Nodes, genesis: Hash, h: Hash)
    requires h in nodes
  {
    && nodes[h].block.hash == h
    && (h != genesis ==>
      && nodes[h].prev == Some(nodes[h].block.hashPrev)
      && nodes[h].prev.value in nodes
      && nodes[h].height == nodes[nodes[h].prev.value].height + 1)
  }

  /** The blocks from genesis to `h`; the block at position `i` has height `i`. */
  ghost function PathTo(nodes: Nodes, genesis: Hash, h: Hash): (path: seq<Hash>)
    requires Tree(nodes, genesis) && h in nodes
    ensures |path| == nodes[h].height + 1 && path[|path| - 1] == h && path[0] == genesis
    ensures forall i :: 0 <= i < |path| ==> path[i] in nodes && nodes[path[i]].height == i
    decreases nodes[h].height
  {
    assert HasParent(nodes, genesis, h);
    if h == genesis then [h] else PathTo(nodes, genesis, nodes[h].prev.value) + [h]
  }

  ghost predicate IsAncestor(nodes: Nodes, genesis: Hash, a: Hash, h: Hash)
    requires Tree(nodes, genesis) && h in nodes
  {
    a in PathTo(nodes, genesis, h)
  }

  /** The path to a block on a path is the beginning of that path. */
  lemma {:induction false} PathPrefix(nodes: Nodes, genesis: Hash, h: Hash, i: nat)
    requires Tree(nodes, genesis) && h in nodes && i <= nodes[h].height
    ensures PathTo(nodes, genesis, PathTo(nodes, genesis, h)[i]) == PathTo(nodes, genesis, h)[..i + 1]
    decreases nodes[h].height
  {
    assert HasParent(nodes, genesis, h);
    var path := PathTo(nodes, genesis, h);
    if i < nodes[h].height {
      var prev := nodes[h].prev.value;
      PathPrefix(nodes, genesis, prev, i);
      assert PathTo(nodes, genesis, prev)[..i + 1] == path[..i + 1];
    } else {
      assert path[..i + 1] == path;
    }
  }

  lemma AncestorAt(nodes: Nodes, genesis: Hash, a: Hash, h: Hash)
    requires Tree(nodes, genesis) && h in nodes && IsAncestor(nodes, genesis, a, h)
    ensures a in nodes && nodes[a].height <= nodes[h].height
    ensures PathTo(nodes, genesis, h)[nodes[a].height] == a
    ensures PathTo(nodes, genesis, a) == PathTo(nodes, genesis, h)[..nodes[a].height + 1]
  {
    var path := PathTo(nodes, genesis, h);
    var i :| 0 <= i < |path| && path[i] == a;
    PathPrefix(nodes, genesis, h, i);
  }

  lemma PathParent(nodes: Nodes, genesis: Hash, h: Hash, i: nat)
    requires Tree(nodes, genesis) && h in nodes && i < nodes[h].height
    ensures nodes[PathTo(nodes, genesis, h)[i + 1]].prev == Some(PathTo(nodes, genesis, h)[i])
  {
    var path := PathTo(nodes, genesis, h);
    var c := path[i + 1];
    PathPrefix(nodes, genesis, h, i + 1);
    assert HasParent(nodes, genesis, c);
    var up := PathTo(nodes, genesis, nodes[c].prev.value);
    assert path[..i + 2] == up + [c];
    assert path[i] == path[..i + 2][i] == up[|up| - 1];
  }

  lemma SelfAncestor(nodes: Nodes, genesis: Hash, h: Hash)
    requires Tree(nodes, genesis) && h in nodes
    ensures IsAncestor(nodes, genesis, h, h) && IsAncestor(nodes, genesis, genesis, h)
  {
    var path := PathTo(nodes, genesis, h);
    assert path[|path| - 1] == h && path[0] == genesis;
  }

  lemma AncestorTransitive(nodes: Nodes, genesis: Hash, a: Hash, b: Hash, c: Hash)
    requires Tree(nodes, genesis) && b in nodes && c in nodes
    requires IsAncestor(nodes, genesis, a, b) && IsAncestor(nodes, genesis, b, c)
    ensures IsAncestor(nodes, genesis, a, c)
  {
    AncestorAt(nodes, genesis, b, c);
    AncestorAt(nodes, genesis, a, b);
  }

  /** A proper ancestor of a block is an ancestor of its parent. */
  lemma AncestorOfParent(nodes: Nodes, genesis: Hash, a: Hash, h: Hash)
    requires Tree(nodes, genesis) && h in nodes && h != genesis && a != h
    requires IsAncestor(nodes, genesis, a, h)
    ensures nodes[h].prev.Some? && nodes[h].prev.value in nodes
            && nodes[nodes[h].prev.value].height + 1 == nodes[h].height
    ensures IsAncestor(nodes, genesis, a, nodes[h].prev.value)
  {
    assert HasParent(nodes, genesis, h);
  }

  /** Adding a block does not change the paths that were there. */
  lemma {:induction false} PathStable(nodes: Nodes, more: Nodes, genesis: Hash, h: Hash)
    requires Tree(nodes, genesis) && Tree(more, genesis) && h in nodes
    requires forall g :: g in nodes ==> g in more && more[g] == nodes[g]
    ensures PathTo(more, genesis, h) == PathTo(nodes, genesis, h)
    decreases nodes[h].height
  {
    assert HasParent(nodes, genesis, h);
    if h != genesis {
      PathStable(nodes, more, genesis, nodes[h].prev.value);
    }
  }

  ghost function Chain(nodes: Nodes, path: seq<Hash>): (chain: seq<Placed>)
    requires forall i :: 0 <= i < |path| ==> path[i] in nodes
    ensures |chain| == |path|
    ensures forall i :: 0 <= i < |path| ==> chain[i] == Placed(nodes[path[i]].block, nodes[path[i]].at)
  {
    seq(|path|, i requires 0 <= i < |path| => Placed(nodes[path[i]].block, nodes[path[i]].at))
  }

  /** The chain of blocks from genesis to `h`. */
  ghost function ChainTo(nodes: Nodes, genesis: Hash, h: Hash): (chain: seq<Placed>)
    requires Tree(nodes, genesis) && h in nodes
    ensures |chain| == nodes[h].height + 1
  {
    Chain(nodes, PathTo(nodes, genesis, h))
  }

  lemma ChainPrefix(nodes: Nodes, genesis: Hash, h: Hash, i: nat)
    requires Tree(nodes, genesis) && h in nodes && i <= nodes[h].height
    ensures ChainTo(nodes, genesis, PathTo(nodes, genesis, h)[i]) == ChainTo(nodes, genesis, h)[..i + 1]
  {
    PathPrefix(nodes, genesis, h, i);
  }

  // ---------- the fork of two branches ----------

  ghost predicate CommonAncestor(nodes: Nodes, genesis: Hash, c: Hash, a: Hash, b: Hash)
    requires Tree(nodes, genesis) && a in nodes && b in nodes
  {
    IsAncestor(nodes, genesis, c, a) && IsAncestor(nodes, genesis, c, b)
  }

  /** Every common ancestor of `a` and `b` lies at or below both `x` and `y`. */
  ghost predicate Covers(nodes: Nodes, genesis: Hash, a: Hash, b: Hash, x: Hash, y: Hash) {
    && Tree(nodes, genesis) && a in nodes && b in nodes && x in nodes && y in nodes
    && IsAncestor(nodes, genesis, x, a) && IsAncestor(nodes, genesis, y, b)
    && forall c :: CommonAncestor(nodes, genesis, c, a, b) ==> CommonAncestor(nodes, genesis, c, x, y)
  }

  lemma StepBack(nodes: Nodes, genesis: Hash, a: Hash, h: Hash)
    requires Tree(nodes, genesis) && a in nodes && IsAncestor(nodes, genesis, h, a) && h != genesis
    ensures h in nodes && HasParent(nodes, genesis, h) && IsAncestor(nodes, genesis, nodes[h].prev.value, a)
  {
    AncestorAt(nodes, genesis, h, a);
    assert HasParent(nodes, genesis, h);
    var prev := nodes[h].prev.value;
    assert PathTo(nodes, genesis, h) == PathTo(nodes, genesis, prev) + [h];
    assert PathTo(nodes, genesis, h)[nodes[prev].height] == prev;
    AncestorTransitive(nodes, genesis, prev, h, a);
  }

  lemma CoversBackSecond(nodes: Nodes, genesis: Hash, a: Hash, b: Hash, x: Hash, y: Hash)
    requires Covers(nodes, genesis, a, b, x, y) && nodes[y].height > nodes[x].height
    ensures HasParent(nodes, genesis, y) && nodes[y].prev.Some? && Covers(nodes, genesis, a, b, x, nodes[y].prev.value)
  {
    StepBack(nodes, genesis, b, y);
    forall c | CommonAncestor(nodes, genesis, c, a, b)
      ensures CommonAncestor(nodes, genesis, c, x, nodes[y].prev.value)
    {
      AncestorAt(nodes, genesis, c, x);
      AncestorOfParent(nodes, genesis, c, y);
    }
  }

  lemma CoversBackFirst(nodes: Nodes, genesis: Hash, a: Hash, b: Hash, x: Hash, y: Hash)
    requires Covers(nodes, genesis, a, b, x, y) && nodes[y].height <= nodes[x].height && x != y
    ensures HasParent(nodes, genesis, x) && nodes[x].prev.Some? && Covers(nodes, genesis, a, b, nodes[x].prev.value, y)
  {
    assert CommonAncestor(nodes, genesis, genesis, a, b);
    assert HasParent(nodes, genesis, x) && HasParent(nodes, genesis, y);
    StepBack(nodes, genesis, a, x);
    forall c | CommonAncestor(nodes, genesis, c, a, b)
      ensures CommonAncestor(nodes, genesis, c, nodes[x].prev.value, y)
    {
      AncestorAt(nodes, genesis, c, y);
      AncestorOfParent(nodes, genesis, c, x);
    }
  }

  /** Walks back from both tips; stops at their highest common ancestor and never falls off the tree. */
  method FindFork(nodes: Nodes, ghost genesis: Hash, a: Hash, b: Hash) returns (fork: Hash)
    requires Tree(nodes, genesis) && a in nodes && b in nodes
    ensures fork in nodes && CommonAncestor(nodes, genesis, fork, a, b)
    ensures forall c :: CommonAncestor(nodes, genesis, c, a, b) ==> IsAncestor(nodes, genesis, c, fork)
  {
    fork := a;
    var longer := b;
    while fork != longer
      invariant Covers(nodes, genesis, a, b, fork, longer)
      decreases nodes[fork].height + nodes[longer].height
    {
      ghost var before := nodes[fork].height + nodes[longer].height;
      while nodes[longer].height > nodes[fork].height
        invariant Covers(nodes, genesis, a, b, fork, longer)
        invariant nodes[fork].height + nodes[longer].height <= before
        decreases nodes[longer].height
      {
        CoversBackSecond(nodes, genesis, a, b, fork, longer);
        longer := nodes[longer].prev.value;
      }
      if fork == longer {
        break;
      }
      CoversBackFirst(nodes, genesis, a, b, fork, longer);
      fork := nodes[fork].prev.value;
    }
  }

  /** The fork is where the two paths part. */
  lemma ForkSplits(nodes: Nodes, genesis: Hash, a: Hash, b: Hash, fork: Hash)
    requires Tree(nodes, genesis) && a in nodes && b in nodes && fork in nodes
    requires CommonAncestor(nodes, genesis, fork, a, b)
    requires forall c :: CommonAncestor(nodes, genesis, c, a, b) ==> IsAncestor(nodes, genesis, c, fork)
    ensures var p := PathTo(nodes, genesis, a); var q := PathTo(nodes, genesis, b); var k := nodes[fork].height + 1;
      && k <= |p| && k <= |q| && p[..k] == q[..k]
      && forall i, j :: k <= i < |p| && 0 <= j < |q| ==> p[i] != q[j]
  {
    AncestorAt(nodes, genesis, fork, a);
    AncestorAt(nodes, genesis, fork, b);
    var p, q, k := PathTo(nodes, genesis, a), PathTo(nodes, genesis, b), nodes[fork].height + 1;
    forall i, j | k <= i < |p| && 0 <= j < |q| ensures p[i] != q[j] {
      if p[i] == q[j] {
        assert CommonAncestor(nodes, genesis, p[i], a, b);
        AncestorAt(nodes, genesis, p[i], fork);
      }
    }
  }
}
