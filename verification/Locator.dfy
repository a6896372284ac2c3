/**
 Block locators: a short list of hashes on the way back from a tip, dense near it and
 exponentially sparse further down, from which a peer finds where two chains part.
 */
module Locator {
  import opened Ledger
  import opened BlockTree
  import opened Numbers
  import opened ChainView

  /** How far back the entry at index `k` is. */
  function Distance(k: nat): (d: nat)
    ensures d >= k
  {
    if k <= 10 then k else DoublingBound(k - 10); 9 + Pow2(k - 10)
  }

  lemma {:induction false} DoublingBound(k: nat)
    ensures Pow2(k) >= k + 1
  {
    if k > 0 {
      DoublingBound(k - 1);
    }
  }

  /** The gap after the entry at index `k`. */
  function Gap(k: nat): (g: nat)
    ensures g >= 1
  {
    if k <= 10 then 1 else Pow2(k - 10)
  }

  /** Gaps separate the distances and double after ten; counting distance and counting entries agree on when. */
  lemma GapStep(k: nat)
    ensures Distance(k + 1) == Distance(k) + Gap(k)
    ensures Gap(k + 1) == if k + 1 > 10 then 2 * Gap(k) else Gap(k)
    ensures Distance(k + 1) > 10 <==> k + 1 > 10
  {
  }

  // ---------- writing a locator ----------

  /** The first `n` entries for a path, tip first. */
  ghost predicate Entries(path: seq<Hash>, have: seq<Hash>, n: nat) {
    && |have| == n && path != []
    && forall k :: 0 <= k < n ==> EntryAt(path, have, k)
  }

  ghost predicate EntryAt(path: seq<Hash>, have: seq<Hash>, k: nat) {
    k < |have| && Distance(k) < |path| && have[k] == path[|path| - 1 - Distance(k)]
  }

  /** A locator: as many entries as the path has room for, then genesis. */
  ghost predicate IsLocator(path: seq<Hash>, have: seq<Hash>) {
    && path != [] && |have| >= 2 && have[|have| - 1] == path[0]
    && Entries(path, have[..|have| - 1], |have| - 1) && Distance(|have| - 1) >= |path|
  }

  /** The block `d` before the tip, nothing if the path is shorter. */
  ghost predicate Back(path: seq<Hash>, at: Option<Hash>, d: nat) {
    at == if d < |path| then Some(path[|path| - 1 - d]) else None
  }

  lemma BackStep(nodes: Nodes, genesis: Hash, tip: Hash, at: Option<Hash>, d: nat)
    requires Tree(nodes, genesis) && tip in nodes && Back(PathTo(nodes, genesis, tip), at, d) && at.Some?
    ensures at.value in nodes && Back(PathTo(nodes, genesis, tip), nodes[at.value].prev, d + 1)
  {
    hide PathTo, Tree;
    ParentAt(nodes, genesis, tip, |PathTo(nodes, genesis, tip)| - 1 - d);
  }

  lemma ParentAt(nodes: Nodes, genesis: Hash, tip: Hash, i: nat)
    requires Tree(nodes, genesis) && tip in nodes && i <= nodes[tip].height
    ensures var path := PathTo(nodes, genesis, tip); nodes[path[i]].prev == if i > 0 then Some(path[i - 1]) else None
  {
    hide PathTo, Tree;
    GenesisIsFirst(nodes, genesis);
    if i > 0 {
      PathParent(nodes, genesis, tip, i - 1);
    }
  }

  lemma GenesisIsFirst(nodes: Nodes, genesis: Hash)
    requires Tree(nodes, genesis)
    ensures nodes[genesis].prev == None
  {
  }

  method Set(nodes: Nodes, genesis: Hash, tip: Hash) returns (vHave: seq<Hash>)
    requires Tree(nodes, genesis) && tip in nodes
    ensures IsLocator(PathTo(nodes, genesis, tip), vHave)
  {
    hide PathTo, Distance, Gap, Tree, Entries;
    NoEntries(PathTo(nodes, genesis, tip));
    ghost var path := PathTo(nodes, genesis, tip);
    vHave := [];
    var nStep := 1;
    var pindex: Option<Hash> := Some(tip);
    NearEntries();
    while pindex.Some?
      invariant nStep == Gap(|vHave|) && Back(path, pindex, Distance(|vHave|)) && Entries(path, vHave, |vHave|)
      invariant vHave == [] ==> pindex.Some?
      decreases |path| - Distance(|vHave|)
    {
      ghost var k := |vHave|;
      EntriesStep(path, vHave, pindex.value);
      GapStep(k);
      vHave := vHave + [pindex.value];
      var i := 0;
      while pindex.Some? && i < nStep
        invariant 0 <= i <= nStep
        invariant if pindex.Some? then Back(path, pindex, Distance(k) + i) else Distance(k) + nStep >= |path|
      {
        BackStep(nodes, genesis, tip, pindex, Distance(k) + i);
        pindex := nodes[pindex.value].prev;
        i := i + 1;
      }
      if |vHave| > 10 {
        nStep := 2 * nStep;
      }
    }
    assert (vHave + [genesis])[..|vHave|] == vHave;
    vHave := vHave + [genesis];
  }

  lemma NoEntries(path: seq<Hash>)
    requires path != []
    ensures Entries(path, [], 0)
  {
  }

  lemma NearEntries()
    ensures Distance(0) == 0 && Gap(0) == 1
  {
  }

  lemma EntriesStep(path: seq<Hash>, have: seq<Hash>, h: Hash)
    requires Entries(path, have, |have|) && Back(path, Some(h), Distance(|have|))
    ensures Entries(path, have + [h], |have| + 1)
  {
    hide Distance;
    var all := have + [h];
    forall k | 0 <= k < |all| ensures EntryAt(path, all, k) {
      if k < |have| {
        assert EntryAt(path, have, k);
      }
    }
  }

  // ---------- reading a locator ----------

  predicate InMainChain(known: Nodes, pnext: map<Hash, Hash>, best: Hash, h: Hash) {
    h in known && (h in pnext || h == best)
  }

  /** The index of the first entry in the main chain, or the length. */
  function FirstMatch(known: Nodes, pnext: map<Hash, Hash>, best: Hash, have: seq<Hash>): (k: nat)
    ensures k <= |have| && (forall i :: 0 <= i < k ==> !InMainChain(known, pnext, best, have[i]))
    ensures k < |have| ==> InMainChain(known, pnext, best, have[k])
  {
    if have == [] || InMainChain(known, pnext, best, have[0]) then 0
    else 1 + FirstMatch(known, pnext, best, have[1..])
  }

  method GetDistanceBack(known: Nodes, pnext: map<Hash, Hash>, best: Hash, vHave: seq<Hash>) returns (nDistance: nat)
    ensures nDistance == Distance(FirstMatch(known, pnext, best, vHave))
  {
    hide Distance, Gap, InMainChain;
    nDistance := 0;
    var nStep := 1;
    NearEntries();
    for k := 0 to |vHave|
      invariant nDistance == Distance(k) && nStep == Gap(k)
      invariant forall i :: 0 <= i < k ==> !InMainChain(known, pnext, best, vHave[i])
    {
      if InMainChain(known, pnext, best, vHave[k]) {
        return;
      }
      nDistance := nDistance + nStep;
      GapStep(k);
      if nDistance > 10 {
        nStep := 2 * nStep;
      }
    }
  }

  method GetBlockIndex(known: Nodes, pnext: map<Hash, Hash>, best: Hash, genesis: Hash, vHave: seq<Hash>)
    returns (h: Hash)
    ensures var k := FirstMatch(known, pnext, best, vHave);
            h == if k < |vHave| then vHave[k] else genesis
  {
    hide FirstMatch;
    for k := 0 to |vHave|
      invariant forall i :: 0 <= i < k ==> !InMainChain(known, pnext, best, vHave[i])
    {
      if InMainChain(known, pnext, best, vHave[k]) {
        return vHave[k];
      }
    }
    h := genesis;
  }

  // ---------- where two chains part ----------

  /** Two block maps that agree on the parents of the blocks both know. */
  ghost predicate SameParents(nodes: Nodes, known: Nodes) {
    forall h :: h in nodes && h in known ==> nodes[h].prev == known[h].prev
  }

  /** Up to height `c` two paths are the same; above it the first one has no block of the second. */
  ghost predicate PartAt(ours: seq<Hash>, theirs: seq<Hash>, c: nat) {
    && c < |ours| && c < |theirs| && ours[..c + 1] == theirs[..c + 1]
    && forall i :: c < i < |ours| ==> ours[i] !in theirs
  }

  /** A block on both paths is at the same height on both, and so are all before it. */
  lemma {:induction false} SharedBelow(nodes: Nodes, known: Nodes, genesis: Hash, tip: Hash, best: Hash, i: nat, j: nat)
    requires Tree(nodes, genesis) && Tree(known, genesis) && SameParents(nodes, known) && tip in nodes && best in known
    requires i <= nodes[tip].height && j <= known[best].height
    requires PathTo(nodes, genesis, tip)[i] == PathTo(known, genesis, best)[j]
    ensures i == j && PathTo(nodes, genesis, tip)[..i + 1] == PathTo(known, genesis, best)[..j + 1]
    decreases i
  {
    hide PathTo, Tree;
    GenesisIsFirst(nodes, genesis);
    GenesisIsFirst(known, genesis);
    var ours, theirs := PathTo(nodes, genesis, tip), PathTo(known, genesis, best);
    if i > 0 {
      PathParent(nodes, genesis, tip, i - 1);
    }
    if j > 0 {
      PathParent(known, genesis, best, j - 1);
    }
    if i > 0 && j > 0 {
      SharedBelow(nodes, known, genesis, tip, best, i - 1, j - 1);
      assert ours[..i + 1] == ours[..i] + [ours[i]];
      assert theirs[..j + 1] == theirs[..j] + [theirs[j]];
    }
  }

  /** Two paths from the same genesis part at exactly one height. */
  lemma PathsPart(nodes: Nodes, known: Nodes, genesis: Hash, tip: Hash, best: Hash) returns (c: nat)
    requires Tree(nodes, genesis) && Tree(known, genesis) && SameParents(nodes, known) && tip in nodes && best in known
    ensures PartAt(PathTo(nodes, genesis, tip), PathTo(known, genesis, best), c)
  {
    hide PathTo, Tree;
    var ours, theirs := PathTo(nodes, genesis, tip), PathTo(known, genesis, best);
    c := |ours| - 1;
    assert ours[0] == theirs[0] && ours[0] in theirs;
    while ours[c] !in theirs
      invariant c < |ours| && forall i :: c < i < |ours| ==> ours[i] !in theirs
      decreases c
    {
      c := c - 1;
    }
    var j :| 0 <= j < |theirs| && theirs[j] == ours[c];
    SharedBelow(nodes, known, genesis, tip, best, c, j);
  }

  /** Whatever depth is asked for, the next entry is less than twice as deep. */
  lemma NextIsClose(k: nat, d: nat)
    requires k > 0 && Distance(k - 1) < d
    ensures Distance(k) <= 2 * d
  {
    GapStep(k - 1);
    if k > 11 {
      assert Pow2(k - 10) == 2 * Pow2(k - 11);
    }
  }

  /** What is in the main chain of a peer whose links follow its path to `best`. */
  ghost predicate MainIsPath(known: Nodes, genesis: Hash, pnext: map<Hash, Hash>, best: Hash)
    requires Tree(known, genesis) && best in known
  {
    forall h :: InMainChain(known, pnext, best, h) <==> h in PathTo(known, genesis, best)
  }

  /** Links that describe the path make it so. */
  lemma LinksGiveMain(v: View, best: Hash)
    requires Tree(v.nodes, v.genesis) && best in v.nodes
    requires LinksOnPath(v.nodes, v.genesis, v.pnext, best) && PathLinked(PathTo(v.nodes, v.genesis, best), v.pnext)
    ensures MainIsPath(v.nodes, v.genesis, v.pnext, best)
  {
    hide PathTo, LinksOnPath, PathLinked, Tree;
    var path := PathTo(v.nodes, v.genesis, best);
    forall h ensures InMainChain(v.nodes, v.pnext, best, h) <==> h in path {
      MainChainIsPath(v, best, h);
      if h in path {
        var i :| 0 <= i < |path| && path[i] == h;
        assert path[i] in v.nodes;
      }
    }
  }

  /** Resolved against a main chain that parts from the locator's path at height `c`: the first match is a block of
      both chains, at most twice as far from the tip as where they part; the distance is exact unless only the
      appended genesis matched; and a locator is logarithmic in the height. */
  lemma LocatorResolves(ours: seq<Hash>, theirs: seq<Hash>, c: nat, have: seq<Hash>, k: nat)
    requires IsLocator(ours, have) && PartAt(ours, theirs, c) && theirs != [] && ours[0] == theirs[0]
    requires k <= |have| && (forall i :: 0 <= i < k ==> have[i] !in theirs) && (k < |have| ==> have[k] in theirs)
    ensures k < |have|
    ensures exists p :: 0 <= p <= c && ours[p] == theirs[p] == have[k] && |ours| - 1 - p <= 2 * (|ours| - 1 - c)
                        && (k < |have| - 1 ==> Distance(k) == |ours| - 1 - p)
  {
    hide Distance;
    var n, tip := |have| - 1, |ours| - 1;
    assert have[n] == ours[0] && ours[0] in theirs;
    forall i | 0 <= i < n ensures Distance(i) <= tip && have[i] == ours[tip - Distance(i)] {
      assert EntryAt(ours, have[..n], i);
    }
    Matches(ours, theirs, c);
    var p := if k < n then tip - Distance(k) else 0;
    NearEntries();
    if k > 0 {
      NextIsClose(k, tip - c);
    }
    assert 0 <= p <= c && ours[p] == theirs[p] == have[k] && tip - p <= 2 * (tip - c);
  }

  lemma Matches(ours: seq<Hash>, theirs: seq<Hash>, c: nat)
    requires PartAt(ours, theirs, c)
    ensures forall i :: 0 <= i < |ours| ==> (ours[i] in theirs <==> i <= c)
    ensures forall i :: 0 <= i <= c ==> ours[i] == theirs[i]
  {
    forall i | 0 <= i <= c ensures ours[i] == theirs[i] && ours[i] in theirs {
      assert ours[i] == ours[..c + 1][i] == theirs[..c + 1][i];
    }
  }

  /** A locator's length is logarithmic in the height of the tip. */
  lemma LocatorIsShort(path: seq<Hash>, have: seq<Hash>)
    requires IsLocator(path, have) && |have| > 12
    ensures Pow2(|have| - 12) + 9 <= |path| - 1
  {
    assert EntryAt(path, have[..|have| - 1], |have| - 2);
  }

  /** Sends a locator for `tip` to a peer and resolves it there. */
  method Resolve(nodes: Nodes, genesis: Hash, tip: Hash, theirs: View, best: Hash)
    returns (found: Hash, nDistance: nat, ghost c: nat)
    requires Tree(nodes, genesis) && tip in nodes && Tree(theirs.nodes, theirs.genesis) && best in theirs.nodes
    requires theirs.genesis == genesis && SameParents(nodes, theirs.nodes)
    requires LinksOnPath(theirs.nodes, genesis, theirs.pnext, best)
             && PathLinked(PathTo(theirs.nodes, genesis, best), theirs.pnext)
    ensures PartAt(PathTo(nodes, genesis, tip), PathTo(theirs.nodes, genesis, best), c)
    ensures found in nodes && IsAncestor(nodes, genesis, found, tip) && IsAncestor(theirs.nodes, genesis, found, best)
    ensures var depth := nodes[tip].height - nodes[found].height;
            depth <= 2 * (nodes[tip].height - c) && depth <= nDistance && (found != genesis ==> nDistance == depth)
  {
    hide PathTo, Tree, LinksOnPath, PathLinked, IsLocator, MainIsPath, PartAt, FirstMatch, Distance, SameParents;
    var vHave := Set(nodes, genesis, tip);
    c := PathsPart(nodes, theirs.nodes, genesis, tip, best);
    LinksGiveMain(theirs, best);
    found := GetBlockIndex(theirs.nodes, theirs.pnext, best, genesis, vHave);
    nDistance := GetDistanceBack(theirs.nodes, theirs.pnext, best, vHave);
    ghost var k := FirstMatch(theirs.nodes, theirs.pnext, best, vHave);
    ghost var p := ResolvedAt(nodes, genesis, tip, theirs, best, vHave, k, c);
  }

  lemma ResolvedAt(nodes: Nodes, genesis: Hash, tip: Hash, theirs: View, best: Hash, have: seq<Hash>, k: nat, c: nat)
    returns (p: nat)
    requires Tree(nodes, genesis) && tip in nodes && Tree(theirs.nodes, genesis) && best in theirs.nodes
    requires IsLocator(PathTo(nodes, genesis, tip), have) && MainIsPath(theirs.nodes, genesis, theirs.pnext, best)
    requires PartAt(PathTo(nodes, genesis, tip), PathTo(theirs.nodes, genesis, best), c)
    requires k <= |have| && (forall i :: 0 <= i < k ==> !InMainChain(theirs.nodes, theirs.pnext, best, have[i]))
    requires k < |have| ==> InMainChain(theirs.nodes, theirs.pnext, best, have[k])
    ensures k < |have| && p <= c && have[k] in nodes && nodes[have[k]].height == p
    ensures IsAncestor(nodes, genesis, have[k], tip) && IsAncestor(theirs.nodes, genesis, have[k], best)
    ensures nodes[tip].height - p <= 2 * (nodes[tip].height - c)
    ensures nodes[tip].height - p <= Distance(k) && (have[k] != genesis ==> Distance(k) == nodes[tip].height - p)
  {
    hide PathTo, Tree, InMainChain, Distance, Entries;
    var ours, main := PathTo(nodes, genesis, tip), PathTo(theirs.nodes, genesis, best);
    LocatorResolves(ours, main, c, have, k);
    var q :| 0 <= q <= c && ours[q] == main[q] == have[k] && |ours| - 1 - q <= 2 * (|ours| - 1 - c)
             && (k < |have| - 1 ==> Distance(k) == |ours| - 1 - q);
    p := q;
  }
}
