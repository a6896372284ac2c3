/**
 What it means that links, money supply and committed index describe a chain, as a
 property of plain values, and how it carries over from one tip to another.
 */
module ChainView {
  import opened Ledger
  import opened LedgerValue
  import opened Replay
  import opened Reorganization
  import opened BlockTree

  /** The parts of the node's state that follow the active chain. */
  datatype View = View(nodes: Nodes, genesis: Hash, pnext: map<Hash, Hash>, supply: map<Hash, int>, store: Index,
      hashBest: Hash)

  /** Every block of the tree can be read back from disk. */
  ghost predicate TreeStored(read: Reader, nodes: Nodes) {
    forall h :: h in nodes ==> Stored(read, nodes[h].block.vtx, nodes[h].at)
  }

  /** No chain of the tree that can be replayed repeats a transaction id. */
  ghost predicate TreeWithoutRepeats(r: Rules, read: Reader, nodes: Nodes, genesis: Hash)
    requires Tree(nodes, genesis)
  {
    forall h :: h in nodes && ReplayChain(r, read, ChainTo(nodes, genesis, h)).Some? ==>
        NoRepeats(ChainTo(nodes, genesis, h))
  }

  /** Forward links lie on the path to `tip` and undo the backward links. */
  ghost predicate LinksOnPath(nodes: Nodes, genesis: Hash, pnext: map<Hash, Hash>, tip: Hash)
    requires Tree(nodes, genesis) && tip in nodes
  {
    forall h :: h in pnext ==>
      pnext[h] in nodes && nodes[pnext[h]].prev == Some(h) && IsAncestor(nodes, genesis, pnext[h], tip)
  }

  /** Every block on a path but the last has its forward link. */
  ghost predicate PathLinked(path: seq<Hash>, pnext: map<Hash, Hash>) {
    forall j :: 0 < j < |path| ==> LinkedAt(path, pnext, j)
  }

  ghost predicate LinkedAt(path: seq<Hash>, pnext: map<Hash, Hash>, j: nat) {
    0 < j < |path| && path[j - 1] in pnext && pnext[path[j - 1]] == path[j]
  }

  /** The recorded money supply of every block of a chain is the one its replay gives. */
  ghost predicate SupplyMatches(r: Rules, read: Reader, path: seq<Hash>, chain: seq<Placed>, supply: map<Hash, int>)
    requires |path| == |chain|
  {
    forall i :: 0 <= i < |path| ==> path[i] in supply && SupplyAt(r, read, chain, i, supply[path[i]])
  }

  ghost predicate SupplyAt(r: Rules, read: Reader, chain: seq<Placed>, i: nat, amount: int)
    requires i < |chain|
  {
    ReplayChain(r, read, chain[..i + 1]).Some? && ReplayChain(r, read, chain[..i + 1]).value.supply == amount
  }

  /** The committed index is the replay of the chain, up to fully spent entries, or exactly. */
  ghost predicate IndexMatches(r: Rules, read: Reader, chain: seq<Placed>, store: Index, exact: bool) {
    && ReplayChain(r, read, chain).Some?
    && UpToSpent(store, ReplayChain(r, read, chain).value.idx)
    && (exact ==> store == ReplayChain(r, read, chain).value.idx)
  }

  /** Links, money supply and committed index describe exactly the chain up to `tip`. */
  ghost predicate Describes(r: Rules, read: Reader, v: View, tip: Hash) {
    && Tree(v.nodes, v.genesis) && tip in v.nodes
    && v.hashBest == tip
    && LinksOnPath(v.nodes, v.genesis, v.pnext, tip)
    && PathLinked(PathTo(v.nodes, v.genesis, tip), v.pnext)
    && SupplyMatches(r, read, PathTo(v.nodes, v.genesis, tip), ChainTo(v.nodes, v.genesis, tip), v.supply)
    && IndexMatches(r, read, ChainTo(v.nodes, v.genesis, tip), v.store, TreeWithoutRepeats(r, read, v.nodes, v.genesis))
  }

  /** With links on a path, a block has a forward link or is the tip exactly when it is on the path. */
  lemma MainChainIsPath(v: View, tip: Hash, h: Hash)
    requires Tree(v.nodes, v.genesis) && tip in v.nodes && LinksOnPath(v.nodes, v.genesis, v.pnext, tip)
    ensures h in v.pnext || h == tip ==> IsAncestor(v.nodes, v.genesis, h, tip)
    ensures PathLinked(PathTo(v.nodes, v.genesis, tip), v.pnext) ==>
            (h in v.pnext || h == tip <==> IsAncestor(v.nodes, v.genesis, h, tip))
  {
    hide PathTo;
    SelfAncestor(v.nodes, v.genesis, tip);
    var path := PathTo(v.nodes, v.genesis, tip);
    if h in v.pnext {
      assert v.pnext[h] != v.genesis;
      StepBack(v.nodes, v.genesis, tip, v.pnext[h]);
    }
    if PathLinked(path, v.pnext) && IsAncestor(v.nodes, v.genesis, h, tip) && h != tip {
      AncestorAt(v.nodes, v.genesis, h, tip);
      assert LinkedAt(path, v.pnext, v.nodes[h].height + 1);
    }
  }

  // ---------- moving from one tip to another ----------

  /** The paths to `a` and `h` share their first `k` blocks. */
  ghost predicate ForkAt(nodes: Nodes, genesis: Hash, a: Hash, h: Hash, k: nat)
    requires Tree(nodes, genesis) && a in nodes && h in nodes
  {
    var p, q := PathTo(nodes, genesis, a), PathTo(nodes, genesis, h);
    1 <= k <= |p| && k <= |q| && p[..k] == q[..k]
  }

  /** What the branch switch from `a` to `h` has computed when it reached block `j` of the new branch. */
  ghost function Switched(r: Rules, read: Reader, v: View, a: Hash, h: Hash, k: nat, j: nat): Option<Outcome>
    requires Tree(v.nodes, v.genesis) && a in v.nodes && h in v.nodes && ForkAt(v.nodes, v.genesis, a, h, k)
    requires v.supply.Keys == v.nodes.Keys && k <= j <= |PathTo(v.nodes, v.genesis, h)|
  {
    match DisconnectDown(v.store, ChainTo(v.nodes, v.genesis, a), k)
    case None => None
    case Some(idx) =>
      ConnectOnto(r, read, ChainTo(v.nodes, v.genesis, h), k, j,
          Outcome(idx, v.supply[PathTo(v.nodes, v.genesis, h)[k - 1]], 0))
  }

  lemma ChainStored(read: Reader, nodes: Nodes, genesis: Hash, h: Hash)
    requires Tree(nodes, genesis) && h in nodes && TreeStored(read, nodes)
    ensures AllStored(read, ChainTo(nodes, genesis, h))
  {
    hide PathTo;
  }

  lemma ForkChains(nodes: Nodes, genesis: Hash, a: Hash, h: Hash, k: nat)
    requires Tree(nodes, genesis) && a in nodes && h in nodes && ForkAt(nodes, genesis, a, h, k)
    ensures ChainTo(nodes, genesis, a)[..k] == ChainTo(nodes, genesis, h)[..k]
  {
    hide PathTo;
    var p, q := PathTo(nodes, genesis, a), PathTo(nodes, genesis, h);
    assert forall i :: 0 <= i < k ==> p[i] == p[..k][i] && q[i] == q[..k][i];
  }

  lemma DescribesIndex(r: Rules, read: Reader, v: View, tip: Hash)
    requires Describes(r, read, v, tip)
    ensures ReplayChain(r, read, ChainTo(v.nodes, v.genesis, tip)).Some?
    ensures UpToSpent(v.store, ReplayChain(r, read, ChainTo(v.nodes, v.genesis, tip)).value.idx)
    ensures TreeWithoutRepeats(r, read, v.nodes, v.genesis) ==>
            && NoRepeats(ChainTo(v.nodes, v.genesis, tip))
            && v.store == ReplayChain(r, read, ChainTo(v.nodes, v.genesis, tip)).value.idx
  {
    hide PathTo, ReplayChain, UpToSpent, NoRepeats, SupplyMatches, LinksOnPath, PathLinked;
  }

  lemma DescribesSupply(r: Rules, read: Reader, v: View, tip: Hash, i: nat)
    requires Describes(r, read, v, tip) && i <= v.nodes[tip].height
    ensures PathTo(v.nodes, v.genesis, tip)[i] in v.supply
    ensures SupplyAt(r, read, ChainTo(v.nodes, v.genesis, tip), i, v.supply[PathTo(v.nodes, v.genesis, tip)[i]])
  {
    hide PathTo, SupplyAt, LinksOnPath, PathLinked, IndexMatches;
  }

  lemma SamePrefix(p: seq<Hash>, q: seq<Hash>, k: nat)
    requires 1 <= k <= |p| && k <= |q| && p[..k] == q[..k]
    ensures p[k - 1] == q[k - 1]
  {
    assert p[k - 1] == p[..k][k - 1] && q[k - 1] == q[..k][k - 1];
  }

  lemma ForkSupply(r: Rules, read: Reader, v: View, a: Hash, h: Hash, k: nat)
    requires Describes(r, read, v, a) && Tree(v.nodes, v.genesis) && a in v.nodes
    requires h in v.nodes && ForkAt(v.nodes, v.genesis, a, h, k)
    ensures ReplayChain(r, read, ChainTo(v.nodes, v.genesis, a)[..k]).Some?
    ensures PathTo(v.nodes, v.genesis, h)[k - 1] in v.supply
    ensures ReplayChain(r, read, ChainTo(v.nodes, v.genesis, a)[..k]).value.supply
            == v.supply[PathTo(v.nodes, v.genesis, h)[k - 1]]
  {
    hide PathTo, ReplayChain, Describes, Tree, Chain;
    var p, q := PathTo(v.nodes, v.genesis, a), PathTo(v.nodes, v.genesis, h);
    SamePrefix(p, q, k);
    DescribesSupply(r, read, v, a, k - 1);
  }

  /** The switch follows the replay of the new branch, and without repeated ids it cannot fail to disconnect. */
  lemma SwitchFollows(r: Rules, read: Reader, v: View, a: Hash, h: Hash, k: nat, j: nat)
    requires Describes(r, read, v, a) && TreeStored(read, v.nodes) && v.supply.Keys == v.nodes.Keys
    requires Tree(v.nodes, v.genesis) && a in v.nodes
    requires h in v.nodes && ForkAt(v.nodes, v.genesis, a, h, k) && k <= j <= |PathTo(v.nodes, v.genesis, h)|
    ensures TreeWithoutRepeats(r, read, v.nodes, v.genesis) ==>
              DisconnectDown(v.store, ChainTo(v.nodes, v.genesis, a), k).Some?
    ensures var o := Switched(r, read, v, a, h, k, j);
            var f := ReplayChain(r, read, ChainTo(v.nodes, v.genesis, h)[..j]);
      && (o.Some? ==> f.Some? && StandsFor(o.value, f.value, TreeWithoutRepeats(r, read, v.nodes, v.genesis)))
      && (f.Some? && DisconnectDown(v.store, ChainTo(v.nodes, v.genesis, a), k).Some? ==> o.Some?)
  {
    hide PathTo, ReplayChain, DisconnectDown, ConnectOnto, NoRepeats, UpToSpent, StandsFor, Describes, TreeStored;
    hide Tree, TreeWithoutRepeats, Chain, Stored, Readable;
    var prior, next := ChainTo(v.nodes, v.genesis, a), ChainTo(v.nodes, v.genesis, h);
    ChainStored(read, v.nodes, v.genesis, h);
    ForkChains(v.nodes, v.genesis, a, h, k);
    DescribesIndex(r, read, v, a);
    ForkSupply(r, read, v, a, h, k);
    ReorganizeFollows(r, read, v.store, prior, next, k, j, v.supply[PathTo(v.nodes, v.genesis, h)[k - 1]],
                      TreeWithoutRepeats(r, read, v.nodes, v.genesis));
  }

  /** Money supplies after a switch has reached block `j`: set along the new branch, kept everywhere else. */
  ghost predicate SupplyTracks(r: Rules, read: Reader, v: View, a: Hash, h: Hash, k: nat, j: nat,
                               supply: map<Hash, int>)
    requires Tree(v.nodes, v.genesis) && a in v.nodes && h in v.nodes && ForkAt(v.nodes, v.genesis, a, h, k)
    requires v.supply.Keys == v.nodes.Keys && k <= j <= |PathTo(v.nodes, v.genesis, h)|
  {
    var path := PathTo(v.nodes, v.genesis, h);
    && supply.Keys == v.nodes.Keys
    && (forall i :: k <= i < j ==> path[i] in supply && TrackedAt(r, read, v, a, h, k, i, supply[path[i]]))
    && (forall g :: g in v.nodes && g !in path[k..j] ==> supply[g] == v.supply[g])
  }

  ghost predicate TrackedAt(r: Rules, read: Reader, v: View, a: Hash, h: Hash, k: nat, i: nat, amount: int)
    requires Tree(v.nodes, v.genesis) && a in v.nodes && h in v.nodes && ForkAt(v.nodes, v.genesis, a, h, k)
    requires v.supply.Keys == v.nodes.Keys && k <= i < |PathTo(v.nodes, v.genesis, h)|
  {
    var o := Switched(r, read, v, a, h, k, i + 1);
    o.Some? && o.value.supply == amount
  }

  /** Below the fork the two paths and chains are the same. */
  lemma BelowFork(nodes: Nodes, genesis: Hash, a: Hash, h: Hash, k: nat, i: nat)
    requires Tree(nodes, genesis) && a in nodes && h in nodes && ForkAt(nodes, genesis, a, h, k) && i < k
    ensures PathTo(nodes, genesis, a)[i] == PathTo(nodes, genesis, h)[i]
    ensures PathTo(nodes, genesis, h)[i] !in PathTo(nodes, genesis, h)[k..]
    ensures ChainTo(nodes, genesis, a)[..i + 1] == ChainTo(nodes, genesis, h)[..i + 1]
  {
    hide PathTo;
    var p, q := PathTo(nodes, genesis, a), PathTo(nodes, genesis, h);
    var c, d := ChainTo(nodes, genesis, a), ChainTo(nodes, genesis, h);
    ForkChains(nodes, genesis, a, h, k);
    assert p[i] == p[..k][i] && q[i] == q[..k][i];
    assert c[..i + 1] == c[..k][..i + 1] && d[..i + 1] == d[..k][..i + 1];
    forall j | k <= j < |q| ensures q[j] != q[i] {
      assert nodes[q[j]].height == j && nodes[q[i]].height == i;
    }
  }

  lemma SupplyBelow(r: Rules, read: Reader, c: seq<Placed>, d: seq<Placed>, i: nat, amount: int)
    requires i < |c| && i < |d| && c[..i + 1] == d[..i + 1] && SupplyAt(r, read, c, i, amount)
    ensures SupplyAt(r, read, d, i, amount)
  {
  }

  lemma TracksBelow(r: Rules, read: Reader, v: View, a: Hash, h: Hash, k: nat, supply: map<Hash, int>, i: nat)
    requires Tree(v.nodes, v.genesis) && a in v.nodes && h in v.nodes && ForkAt(v.nodes, v.genesis, a, h, k)
    requires v.supply.Keys == v.nodes.Keys && i < k
    requires SupplyTracks(r, read, v, a, h, k, |PathTo(v.nodes, v.genesis, h)|, supply)
    ensures var g := PathTo(v.nodes, v.genesis, h)[i]; g in v.nodes && g in supply && supply[g] == v.supply[g]
  {
    hide PathTo, Switched;
    var path := PathTo(v.nodes, v.genesis, h);
    BelowFork(v.nodes, v.genesis, a, h, k, i);
    assert path[k..|path|] == path[k..];
  }

  lemma TracksAbove(r: Rules, read: Reader, v: View, a: Hash, h: Hash, k: nat, supply: map<Hash, int>, i: nat)
    requires Tree(v.nodes, v.genesis) && a in v.nodes && h in v.nodes && ForkAt(v.nodes, v.genesis, a, h, k)
    requires v.supply.Keys == v.nodes.Keys && k <= i < |PathTo(v.nodes, v.genesis, h)|
    requires SupplyTracks(r, read, v, a, h, k, |PathTo(v.nodes, v.genesis, h)|, supply)
    ensures PathTo(v.nodes, v.genesis, h)[i] in supply && Switched(r, read, v, a, h, k, i + 1).Some?
    ensures supply[PathTo(v.nodes, v.genesis, h)[i]] == Switched(r, read, v, a, h, k, i + 1).value.supply
  {
    hide PathTo, Switched;
  }

  lemma SwitchSupply(r: Rules, read: Reader, v: View, a: Hash, h: Hash, k: nat, supply: map<Hash, int>, i: nat)
    requires Describes(r, read, v, a) && TreeStored(read, v.nodes) && v.supply.Keys == v.nodes.Keys
    requires Tree(v.nodes, v.genesis) && a in v.nodes
    requires h in v.nodes && ForkAt(v.nodes, v.genesis, a, h, k) && i < |PathTo(v.nodes, v.genesis, h)|
    requires SupplyTracks(r, read, v, a, h, k, |PathTo(v.nodes, v.genesis, h)|, supply)
    ensures var path := PathTo(v.nodes, v.genesis, h);
      path[i] in supply && SupplyAt(r, read, ChainTo(v.nodes, v.genesis, h), i, supply[path[i]])
  {
    hide PathTo, ChainTo, Describes, SupplyAt, Switched, TreeStored, SupplyTracks;
    var path, p := PathTo(v.nodes, v.genesis, h), PathTo(v.nodes, v.genesis, a);
    if i < k {
      BelowFork(v.nodes, v.genesis, a, h, k, i);
      DescribesSupply(r, read, v, a, i);
      TracksBelow(r, read, v, a, h, k, supply, i);
      SupplyBelow(r, read, ChainTo(v.nodes, v.genesis, a), ChainTo(v.nodes, v.genesis, h), i, supply[path[i]]);
    } else {
      TracksAbove(r, read, v, a, h, k, supply, i);
      SwitchedSupply(r, read, v, a, h, k, i);
    }
  }

  lemma SwitchedSupply(r: Rules, read: Reader, v: View, a: Hash, h: Hash, k: nat, i: nat)
    requires Describes(r, read, v, a) && TreeStored(read, v.nodes) && v.supply.Keys == v.nodes.Keys
    requires Tree(v.nodes, v.genesis) && a in v.nodes
    requires h in v.nodes && ForkAt(v.nodes, v.genesis, a, h, k) && k <= i < |PathTo(v.nodes, v.genesis, h)|
    requires Switched(r, read, v, a, h, k, i + 1).Some?
    ensures SupplyAt(r, read, ChainTo(v.nodes, v.genesis, h), i, Switched(r, read, v, a, h, k, i + 1).value.supply)
  {
    hide PathTo, ChainTo, Describes, Switched, ReplayChain, TreeStored;
    SwitchFollows(r, read, v, a, h, k, i + 1);
  }

  lemma SwitchIndex(r: Rules, read: Reader, v: View, a: Hash, h: Hash, k: nat)
    requires Describes(r, read, v, a) && TreeStored(read, v.nodes) && v.supply.Keys == v.nodes.Keys
    requires Tree(v.nodes, v.genesis) && a in v.nodes
    requires h in v.nodes && ForkAt(v.nodes, v.genesis, a, h, k)
    requires Switched(r, read, v, a, h, k, |PathTo(v.nodes, v.genesis, h)|).Some?
    ensures IndexMatches(r, read, ChainTo(v.nodes, v.genesis, h),
                         Switched(r, read, v, a, h, k, |PathTo(v.nodes, v.genesis, h)|).value.idx,
                         TreeWithoutRepeats(r, read, v.nodes, v.genesis))
  {
    hide PathTo, Switched, ReplayChain, TreeStored, TreeWithoutRepeats, UpToSpent, SupplyMatches;
    SwitchFollows(r, read, v, a, h, k, |PathTo(v.nodes, v.genesis, h)|);
    var chain := ChainTo(v.nodes, v.genesis, h);
    assert chain[..|chain|] == chain;
  }

  /** A completed switch describes the new tip. */
  lemma SwitchDescribes(r: Rules, read: Reader, v: View, u: View, a: Hash, h: Hash, k: nat)
    requires Describes(r, read, v, a) && TreeStored(read, v.nodes) && v.supply.Keys == v.nodes.Keys
    requires Tree(v.nodes, v.genesis) && a in v.nodes
    requires h in v.nodes && ForkAt(v.nodes, v.genesis, a, h, k)
    requires Switched(r, read, v, a, h, k, |PathTo(v.nodes, v.genesis, h)|).Some?
    requires u.nodes == v.nodes && u.genesis == v.genesis && u.hashBest == h
    requires u.store == Switched(r, read, v, a, h, k, |PathTo(v.nodes, v.genesis, h)|).value.idx
    requires SupplyTracks(r, read, v, a, h, k, |PathTo(v.nodes, v.genesis, h)|, u.supply)
    requires LinksOnPath(v.nodes, v.genesis, u.pnext, h) && PathLinked(PathTo(v.nodes, v.genesis, h), u.pnext)
    ensures Describes(r, read, u, h)
  {
    hide PathTo, Switched, IndexMatches, LinksOnPath, PathLinked, TreeStored, SupplyTracks, SupplyAt, ForkAt,
      TreeWithoutRepeats;
    var path := PathTo(v.nodes, v.genesis, h);
    SwitchIndex(r, read, v, a, h, k);
    forall i | 0 <= i < |path|
      ensures path[i] in u.supply && SupplyAt(r, read, ChainTo(v.nodes, v.genesis, h), i, u.supply[path[i]])
    {
      SwitchSupply(r, read, v, a, h, k, u.supply, i);
    }
  }

  /** Changing the recorded supply of blocks off the path makes no difference. */
  lemma OffPathSupply(r: Rules, read: Reader, v: View, supply: map<Hash, int>, tip: Hash)
    requires Describes(r, read, v, tip) && supply.Keys == v.supply.Keys
    requires forall g :: g in PathTo(v.nodes, v.genesis, tip) && g in supply ==> supply[g] == v.supply[g]
    ensures Describes(r, read, v.(supply := supply), tip)
  {
    hide PathTo, SupplyAt, LinksOnPath, PathLinked, IndexMatches, Tree, TreeWithoutRepeats;
  }

  // ---------- links ----------

  /** Forward links after switching from path `p` to path `q`, which part after `k` blocks. */
  ghost predicate Relinked(before: map<Hash, Hash>, after: map<Hash, Hash>, p: seq<Hash>, q: seq<Hash>, k: nat)
    requires 1 <= k <= |p| && k <= |q|
  {
    && (forall j :: k <= j < |q| ==> LinkedAt(q, after, j))
    && (forall h :: h in after ==>
      h in q[k - 1..|q| - 1] || (h in before && after[h] == before[h] && h !in p[k - 1..|p| - 1]))
    && (forall h :: h in before && h !in p[k - 1..|p| - 1] && h !in q[k - 1..|q| - 1] ==>
      h in after && after[h] == before[h])
  }

  lemma RelinkedLink(nodes: Nodes, genesis: Hash, before: map<Hash, Hash>, after: map<Hash, Hash>, a: Hash, h: Hash,
                     k: nat, g: Hash)
    requires Tree(nodes, genesis) && a in nodes && h in nodes && ForkAt(nodes, genesis, a, h, k)
    requires LinksOnPath(nodes, genesis, before, a) && g in before
             && g !in PathTo(nodes, genesis, a)[k - 1..nodes[a].height]
    ensures before[g] in nodes && nodes[before[g]].prev == Some(g) && IsAncestor(nodes, genesis, before[g], h)
  {
    hide PathTo;
    var p, x := PathTo(nodes, genesis, a), before[g];
    AncestorAt(nodes, genesis, x, a);
    assert HasParent(nodes, genesis, x);
    var i := nodes[x].height;
    PathParent(nodes, genesis, a, i - 1);
    assert i < k;
    BelowFork(nodes, genesis, a, h, k, i);
  }

  lemma NewLink(nodes: Nodes, genesis: Hash, after: map<Hash, Hash>, h: Hash, k: nat, g: Hash)
    requires Tree(nodes, genesis) && h in nodes && 1 <= k <= |PathTo(nodes, genesis, h)|
    requires g in PathTo(nodes, genesis, h)[k - 1..|PathTo(nodes, genesis, h)| - 1]
    requires forall j :: k <= j < |PathTo(nodes, genesis, h)| ==> LinkedAt(PathTo(nodes, genesis, h), after, j)
    ensures g in after && after[g] in nodes && nodes[after[g]].prev == Some(g)
            && IsAncestor(nodes, genesis, after[g], h)
  {
    hide PathTo, Tree, LinkedAt;
    var q := PathTo(nodes, genesis, h);
    var i := InSlice(q, k - 1, |q| - 1, g);
    LinkIs(q, after, i + 1);
    PathParent(nodes, genesis, h, i);
  }

  lemma InSlice(path: seq<Hash>, from: nat, to: nat, g: Hash) returns (i: nat)
    requires from <= to <= |path| && g in path[from..to]
    ensures from <= i < to && path[i] == g
  {
    var n :| 0 <= n < |path[from..to]| && path[from..to][n] == g;
    i := from + n;
  }

  lemma LinkIs(path: seq<Hash>, pnext: map<Hash, Hash>, j: nat)
    requires LinkedAt(path, pnext, j)
    ensures 0 < j < |path| && path[j - 1] in pnext && pnext[path[j - 1]] == path[j]
  {
  }

  lemma RelinkedLinks(nodes: Nodes, genesis: Hash, before: map<Hash, Hash>, after: map<Hash, Hash>, a: Hash, h: Hash,
                      k: nat)
    requires Tree(nodes, genesis) && a in nodes && h in nodes && ForkAt(nodes, genesis, a, h, k)
    requires LinksOnPath(nodes, genesis, before, a)
    requires Relinked(before, after, PathTo(nodes, genesis, a), PathTo(nodes, genesis, h), k)
    ensures LinksOnPath(nodes, genesis, after, h)
  {
    hide PathTo, IsAncestor, LinkedAt;
    var p, q := PathTo(nodes, genesis, a), PathTo(nodes, genesis, h);
    forall g | g in after
      ensures after[g] in nodes && nodes[after[g]].prev == Some(g) && IsAncestor(nodes, genesis, after[g], h)
    {
      if g in q[k - 1..|q| - 1] {
        NewLink(nodes, genesis, after, h, k, g);
      } else {
        RelinkedLink(nodes, genesis, before, after, a, h, k, g);
      }
    }
  }

  lemma RelinkedPath(nodes: Nodes, genesis: Hash, before: map<Hash, Hash>, after: map<Hash, Hash>, a: Hash, h: Hash,
                     k: nat)
    requires Tree(nodes, genesis) && a in nodes && h in nodes && ForkAt(nodes, genesis, a, h, k)
    requires PathLinked(PathTo(nodes, genesis, a), before)
    requires Relinked(before, after, PathTo(nodes, genesis, a), PathTo(nodes, genesis, h), k)
    ensures PathLinked(PathTo(nodes, genesis, h), after)
  {
    hide PathTo;
    var p, q := PathTo(nodes, genesis, a), PathTo(nodes, genesis, h);
    forall j | 0 < j < k ensures LinkedAt(q, after, j) {
      var i := j - 1;
      BelowFork(nodes, genesis, a, h, k, i);
      BelowFork(nodes, genesis, a, h, k, i + 1);
      assert LinkedAt(p, before, j);
      assert p[i] !in p[k - 1..|p| - 1] && q[i] !in q[k - 1..|q| - 1] by {
        hide Relinked, PathLinked;
        assert forall j :: k - 1 <= j < |p| ==> nodes[p[j]].height == j;
        assert forall j :: k - 1 <= j < |q| ==> nodes[q[j]].height == j;
      }
    }
  }

  // ---------- one block more ----------

  /** What connecting the child `h` of the tip `a` computes. */
  ghost function Extended(r: Rules, read: Reader, v: View, a: Hash, h: Hash): Option<Outcome>
    requires Tree(v.nodes, v.genesis) && a in v.nodes && h in v.nodes && a in v.supply
  {
    Advance(r, read, Outcome(v.store, v.supply[a], 0), v.nodes[h].block, TipWhere(ChainTo(v.nodes, v.genesis, h)))
  }

  ghost predicate IsChild(nodes: Nodes, genesis: Hash, a: Hash, h: Hash) {
    && Tree(nodes, genesis) && a in nodes && h in nodes
    && h != genesis && nodes[h].prev == Some(a)
  }

  lemma ChildPath(nodes: Nodes, genesis: Hash, a: Hash, h: Hash)
    requires IsChild(nodes, genesis, a, h)
    ensures PathTo(nodes, genesis, h) == PathTo(nodes, genesis, a) + [h]
    ensures ForkAt(nodes, genesis, a, h, |PathTo(nodes, genesis, a)|)
  {
    assert HasParent(nodes, genesis, h);
  }

  lemma ExtendIsSwitch(r: Rules, read: Reader, v: View, a: Hash, h: Hash)
    requires IsChild(v.nodes, v.genesis, a, h) && v.supply.Keys == v.nodes.Keys
    ensures ForkAt(v.nodes, v.genesis, a, h, |PathTo(v.nodes, v.genesis, a)|)
    ensures |PathTo(v.nodes, v.genesis, h)| == |PathTo(v.nodes, v.genesis, a)| + 1
    ensures Switched(r, read, v, a, h, |PathTo(v.nodes, v.genesis, a)|, |PathTo(v.nodes, v.genesis, h)|)
            == Extended(r, read, v, a, h)
  {
    hide PathTo, Advance, TipWhere, DisconnectTxs, ConnectOnto;
    ChildPath(v.nodes, v.genesis, a, h);
    var p, q, chain := PathTo(v.nodes, v.genesis, a), PathTo(v.nodes, v.genesis, h), ChainTo(v.nodes, v.genesis, h);
    assert q[|p| - 1] == a && q[|p|] == h && chain[..|q|] == chain;
    ConnectOne(r, read, chain, |p|, Outcome(v.store, v.supply[a], 0));
  }

  /** Connecting a child of the described tip succeeds exactly when the replay goes on. */
  lemma ExtendReplays(r: Rules, read: Reader, v: View, a: Hash, h: Hash)
    requires Describes(r, read, v, a) && TreeStored(read, v.nodes) && v.supply.Keys == v.nodes.Keys
    requires IsChild(v.nodes, v.genesis, a, h)
    ensures Extended(r, read, v, a, h).Some? <==> ReplayChain(r, read, ChainTo(v.nodes, v.genesis, h)).Some?
  {
    hide PathTo, ChainTo, Extended, ReplayChain, Switched, TreeStored, Describes, StandsFor, DisconnectDown, ForkAt,
      TreeWithoutRepeats;
    ExtendIsSwitch(r, read, v, a, h);
    DisconnectNone(v.store, ChainTo(v.nodes, v.genesis, a));
    var n, chain := |PathTo(v.nodes, v.genesis, h)|, ChainTo(v.nodes, v.genesis, h);
    SwitchFollows(r, read, v, a, h, |PathTo(v.nodes, v.genesis, a)|, n);
    assert chain[..n] == chain;
  }

  /** Connecting a child of the described tip describes the child. */
  lemma ExtendDescribes(r: Rules, read: Reader, v: View, u: View, a: Hash, h: Hash)
    requires Describes(r, read, v, a) && TreeStored(read, v.nodes) && v.supply.Keys == v.nodes.Keys
    requires IsChild(v.nodes, v.genesis, a, h) && Extended(r, read, v, a, h).Some?
    requires var o := Extended(r, read, v, a, h).value;
      u == View(v.nodes, v.genesis, v.pnext[a := h], v.supply[h := o.supply], o.idx, h)
    ensures Describes(r, read, u, h)
  {
    hide PathTo, Extended, Switched, TreeStored, Describes, LinksOnPath, PathLinked, SupplyTracks, ForkAt;
    ExtendIsSwitch(r, read, v, a, h);
    DescribesLinks(r, read, v, a);
    ExtendLinks(v.nodes, v.genesis, v.pnext, a, h);
    ExtendSupply(r, read, v, a, h);
    SwitchDescribes(r, read, v, u, a, h, |PathTo(v.nodes, v.genesis, a)|);
  }

  lemma DescribesLinks(r: Rules, read: Reader, v: View, tip: Hash)
    requires Describes(r, read, v, tip)
    ensures LinksOnPath(v.nodes, v.genesis, v.pnext, tip) && PathLinked(PathTo(v.nodes, v.genesis, tip), v.pnext)
  {
  }

  lemma ExtendSupply(r: Rules, read: Reader, v: View, a: Hash, h: Hash)
    requires IsChild(v.nodes, v.genesis, a, h) && v.supply.Keys == v.nodes.Keys && Extended(r, read, v, a, h).Some?
    ensures ForkAt(v.nodes, v.genesis, a, h, |PathTo(v.nodes, v.genesis, a)|)
    ensures |PathTo(v.nodes, v.genesis, a)| <= |PathTo(v.nodes, v.genesis, h)|
    ensures SupplyTracks(r, read, v, a, h, |PathTo(v.nodes, v.genesis, a)|, |PathTo(v.nodes, v.genesis, h)|,
                         v.supply[h := Extended(r, read, v, a, h).value.supply])
  {
    hide PathTo, Extended, Switched;
    ExtendIsSwitch(r, read, v, a, h);
    ChildPath(v.nodes, v.genesis, a, h);
    var p, q := PathTo(v.nodes, v.genesis, a), PathTo(v.nodes, v.genesis, h);
    assert q[|p|..|q|] == [h];
  }

  lemma ExtendLinks(nodes: Nodes, genesis: Hash, pnext: map<Hash, Hash>, a: Hash, h: Hash)
    requires IsChild(nodes, genesis, a, h) && LinksOnPath(nodes, genesis, pnext, a)
    ensures LinksOnPath(nodes, genesis, pnext[a := h], h)
    ensures PathLinked(PathTo(nodes, genesis, a), pnext) ==> PathLinked(PathTo(nodes, genesis, h), pnext[a := h])
  {
    hide PathTo;
    ChildPath(nodes, genesis, a, h);
    var p, q := PathTo(nodes, genesis, a), PathTo(nodes, genesis, h);
    var after := pnext[a := h];
    if PathLinked(p, pnext) {
      forall j | 0 < j < |q| ensures LinkedAt(q, after, j) {
        if j < |p| {
          assert LinkedAt(p, pnext, j) && nodes[p[j - 1]].height == j - 1;
        }
      }
    }
  }

  // ---------- more blocks and more disk ----------

  ghost predicate Grown(nodes: Nodes, more: Nodes) {
    forall h :: h in nodes ==> h in more && more[h] == nodes[h]
  }

  lemma ChainStable(nodes: Nodes, more: Nodes, genesis: Hash, h: Hash)
    requires Tree(nodes, genesis) && Tree(more, genesis) && Grown(nodes, more) && h in nodes
    ensures PathTo(more, genesis, h) == PathTo(nodes, genesis, h)
    ensures ChainTo(more, genesis, h) == ChainTo(nodes, genesis, h)
  {
    hide PathTo;
    PathStable(nodes, more, genesis, h);
  }

  lemma RepeatsStay(r: Rules, read: Reader, wide: Reader, nodes: Nodes, more: Nodes, genesis: Hash)
    requires Tree(nodes, genesis) && Tree(more, genesis) && Grown(nodes, more)
    requires TreeStored(read, nodes) && Extends(read, wide) && TreeWithoutRepeats(r, wide, more, genesis)
    ensures TreeWithoutRepeats(r, read, nodes, genesis)
  {
    hide PathTo, NoRepeats, ReplayChain, TreeStored, Tree;
    forall h | h in nodes && ReplayChain(r, read, ChainTo(nodes, genesis, h)).Some?
      ensures NoRepeats(ChainTo(nodes, genesis, h))
    {
      ChainStable(nodes, more, genesis, h);
      ChainStored(read, nodes, genesis, h);
      ReplayMoreDisk(r, read, wide, ChainTo(nodes, genesis, h));
    }
  }

  lemma GrownSupply(r: Rules, read: Reader, more: Reader, path: seq<Hash>, chain: seq<Placed>, supply: map<Hash, int>,
                    supply': map<Hash, int>)
    requires Extends(read, more) && AllStored(read, chain) && |path| == |chain|
             && SupplyMatches(r, read, path, chain, supply)
    requires forall h :: h in supply ==> h in supply' && supply'[h] == supply[h]
    ensures SupplyMatches(r, more, path, chain, supply')
  {
    hide ReplayChain;
    forall i | 0 <= i < |path| ensures path[i] in supply' && SupplyAt(r, more, chain, i, supply'[path[i]]) {
      assert SupplyAt(r, read, chain, i, supply[path[i]]);
      ReplayMoreDisk(r, read, more, chain[..i + 1]);
    }
  }

  /** Accepting a block and writing it to disk leaves a described tip described. */
  lemma GrownDescribes(r: Rules, read: Reader, more: Reader, v: View, u: View, tip: Hash)
    requires Describes(r, read, v, tip) && TreeStored(read, v.nodes) && Extends(read, more)
    requires Tree(u.nodes, v.genesis) && Grown(v.nodes, u.nodes)
    requires u == v.(nodes := u.nodes, supply := u.supply)
    requires forall h :: h in v.supply ==> h in u.supply && u.supply[h] == v.supply[h]
    ensures Describes(r, more, u, tip)
  {
    hide PathTo, ReplayChain, SupplyMatches, PathLinked, TreeWithoutRepeats, AllStored, TreeStored, UpToSpent;
    var chain := ChainTo(v.nodes, v.genesis, tip);
    ChainStable(v.nodes, u.nodes, v.genesis, tip);
    ChainStored(read, v.nodes, v.genesis, tip);
    GrownSupply(r, read, more, PathTo(v.nodes, v.genesis, tip), chain, v.supply, u.supply);
    ReplayMoreDisk(r, read, more, chain);
    if TreeWithoutRepeats(r, more, u.nodes, u.genesis) {
      RepeatsStay(r, read, more, v.nodes, u.nodes, v.genesis);
    }
    GrownLinks(v.nodes, u.nodes, v.genesis, v.pnext, tip);
  }

  lemma GrownLinks(nodes: Nodes, more: Nodes, genesis: Hash, pnext: map<Hash, Hash>, tip: Hash)
    requires Tree(nodes, genesis) && Tree(more, genesis) && Grown(nodes, more) && tip in nodes
    requires LinksOnPath(nodes, genesis, pnext, tip)
    ensures LinksOnPath(more, genesis, pnext, tip)
  {
    hide PathTo;
    ChainStable(nodes, more, genesis, tip);
  }

  // ---------- conservation ----------

  /**
   Conservation in a state that describes its tip: the outputs marked unspent in the committed index are worth
   the money supply recorded for the tip plus everything burned on the active chain.
   */
  lemma Conservation(r: Rules, read: Reader, v: View, tip: Hash)
    requires Describes(r, read, v, tip) && TreeStored(read, v.nodes)
    ensures Readable(read, v.store) && tip in v.supply
    ensures Total(read, v.store) == v.supply[tip] + BurnedOn(ChainTo(v.nodes, v.genesis, tip))
  {
    hide PathTo, ReplayChain, TreeStored, AllStored, Describes, Total, UpToSpent, Readable, NoRepeats,
      TreeWithoutRepeats;
    TreeOf(r, read, v, tip);
    var chain := ChainTo(v.nodes, v.genesis, tip);
    ChainStored(read, v.nodes, v.genesis, tip);
    DescribesIndex(r, read, v, tip);
    ReplayConserves(r, read, chain);
    ReplayBurned(r, read, chain);
    UpToSpentTotal(read, v.store, ReplayChain(r, read, chain).value.idx);
    DescribesSupply(r, read, v, tip, v.nodes[tip].height);
    assert chain[..|chain|] == chain;
  }

  lemma TreeOf(r: Rules, read: Reader, v: View, tip: Hash)
    requires Describes(r, read, v, tip)
    ensures Tree(v.nodes, v.genesis) && tip in v.nodes
  {
  }
}
