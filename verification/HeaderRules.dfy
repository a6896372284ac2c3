/**
 The tests of a block's header against the chain below it, target bits and time, as properties of
 the whole block tree.
 */
module HeaderRules {
  import opened Ledger
  import opened BlockTree
  import opened ChainView
  import Targets
  import MedianTime

  function HeaderOf(b: Block): Targets.Header {
    Targets.Header(b.nTime, b.nBits, b.IsProofOfStake())
  }

  ghost function Headers(nodes: Nodes, path: seq<Hash>): (hs: seq<Targets.Header>)
    requires forall i :: 0 <= i < |path| ==> path[i] in nodes
    ensures |hs| == |path| && forall i :: 0 <= i < |path| ==> hs[i] == HeaderOf(nodes[path[i]].block)
  {
    seq(|path|, i requires 0 <= i < |path| => HeaderOf(nodes[path[i]].block))
  }

  function Times(hs: seq<Targets.Header>): (times: seq<int>)
    ensures |times| == |hs| && forall i :: 0 <= i < |hs| ==> times[i] == hs[i].nTime
  {
    seq(|hs|, i requires 0 <= i < |hs| => hs[i].nTime)
  }

  /** A header passes the tests of its bits and its time on top of the headers below it. */
  ghost predicate HeaderPasses(below: seq<Targets.Header>, h: Targets.Header) {
    && below != []
    && h.nBits == Targets.NextTargetRequired(below, |below| - 1, h.stake)
    && MedianTime.TimeAccepted(Times(below + [h]), |below|)
  }

  /** Every block but genesis passed the tests on top of the chain below it. */
  ghost predicate HeadersOk(nodes: Nodes, genesis: Hash)
    requires Tree(nodes, genesis)
  {
    forall h {:trigger HeaderOkAt(nodes, genesis, h)} :: h in nodes && h != genesis ==> HeaderOkAt(nodes, genesis, h)
  }

  ghost predicate HeaderOkAt(nodes: Nodes, genesis: Hash, h: Hash)
    requires Tree(nodes, genesis) && h in nodes
  {
    var path := PathTo(nodes, genesis, h);
    |path| > 1 && HeaderPasses(Headers(nodes, path[..|path| - 1]), HeaderOf(nodes[h].block))
  }

  /** Trust adds up along the tree. */
  ghost predicate TrustSums(nodes: Nodes, genesis: Hash) {
    forall h {:trigger TrustAt(nodes, h)} :: h in nodes && h != genesis ==> TrustAt(nodes, h)
  }

  ghost predicate TrustAt(nodes: Nodes, h: Hash) {
    && h in nodes && nodes[h].prev.Some? && nodes[h].prev.value in nodes
    && nodes[h].trust == nodes[nodes[h].prev.value].trust + Targets.BlockTrust(nodes[h].block.nBits)
  }

  // ---------- the tree grows ----------

  lemma HeadersStable(nodes: Nodes, more: Nodes, genesis: Hash, h: Hash)
    requires Tree(nodes, genesis) && Tree(more, genesis) && Grown(nodes, more) && h in nodes
             && HeaderOkAt(nodes, genesis, h)
    ensures HeaderOkAt(more, genesis, h)
  {
    hide PathTo, Tree, HeaderPasses;
    PathStable(nodes, more, genesis, h);
    var path := PathTo(nodes, genesis, h);
    assert Headers(more, path[..|path| - 1]) == Headers(nodes, path[..|path| - 1]);
  }

  /** A block whose header passes on top of its parent's chain may join the tree. */
  lemma HeadersGrow(nodes: Nodes, more: Nodes, genesis: Hash, h: Hash)
    requires Tree(nodes, genesis) && Tree(more, genesis) && h !in nodes && h in more && more == nodes[h := more[h]]
    requires HeadersOk(nodes, genesis) && more[h].prev.Some? && more[h].prev.value in nodes
    requires HeaderPasses(Headers(nodes, PathTo(nodes, genesis, more[h].prev.value)), HeaderOf(more[h].block))
    ensures HeadersOk(more, genesis)
  {
    hide PathTo, Tree, HeaderPasses;
    forall g | g in more && g != genesis ensures HeaderOkAt(more, genesis, g) {
      if g == h {
        NewHeader(nodes, more, genesis, h);
      } else {
        assert HeaderOkAt(nodes, genesis, g);
        HeadersStable(nodes, more, genesis, g);
      }
    }
  }

  lemma NewHeader(nodes: Nodes, more: Nodes, genesis: Hash, h: Hash)
    requires Tree(nodes, genesis) && Tree(more, genesis) && h !in nodes && h in more && more == nodes[h := more[h]]
    requires more[h].prev.Some? && more[h].prev.value in nodes
    requires HeaderPasses(Headers(nodes, PathTo(nodes, genesis, more[h].prev.value)), HeaderOf(more[h].block))
    ensures HeaderOkAt(more, genesis, h)
  {
    hide HeaderPasses;
    assert HasParent(more, genesis, h);
    var prev := more[h].prev.value;
    var below, path := PathTo(nodes, genesis, prev), PathTo(more, genesis, h);
    PathStable(nodes, more, genesis, prev);
    assert path == below + [h];
    hide PathTo;
    assert path[..|path| - 1] == below;
    assert Headers(more, below) == Headers(nodes, below);
  }

  lemma TrustGrow(nodes: Nodes, more: Nodes, genesis: Hash, h: Hash)
    requires TrustSums(nodes, genesis) && h !in nodes && h in more && more == nodes[h := more[h]] && TrustAt(more, h)
    ensures TrustSums(more, genesis)
  {
    forall g | g in more && g != genesis ensures TrustAt(more, g) {
      if g != h {
        assert TrustAt(nodes, g);
      }
    }
  }

  // ---------- what the tests give ----------

  /** Trust grows strictly from every block to its children. */
  lemma TrustGrowsInTree(nodes: Nodes, genesis: Hash, h: Hash)
    requires Tree(nodes, genesis) && HeadersOk(nodes, genesis) && TrustSums(nodes, genesis) && h in nodes
             && h != genesis
    ensures TrustAt(nodes, h) && nodes[h].trust >= nodes[nodes[h].prev.value].trust + 0x10_0000
  {
    hide PathTo, Tree, Targets.NextTargetRequired, Targets.BlockTrust, MedianTime.TimeAccepted, Times;
    assert TrustAt(nodes, h) && HeaderOkAt(nodes, genesis, h);
    var path := PathTo(nodes, genesis, h);
    var below, b := Headers(nodes, path[..|path| - 1]), nodes[h].block;
    Targets.RequiredIsUsable(below, |below| - 1, b.IsProofOfStake());
    Targets.UsableTrust(b.nBits);
  }

  lemma TimePrefix(times: seq<int>, height: nat)
    requires 0 < height < |times| && MedianTime.TimeAccepted(times[..height + 1], height)
    ensures MedianTime.TimeAccepted(times, height)
  {
    assert MedianTime.Window(times[..height + 1], height - 1) == MedianTime.Window(times, height - 1);
  }

  /** Along every path the past time limit never decreases, and every block is later than the limits of all below it. */
  lemma LimitsGrowInTree(nodes: Nodes, genesis: Hash, h: Hash, a: nat, b: nat)
    requires Tree(nodes, genesis) && HeadersOk(nodes, genesis) && h in nodes && a <= b <= nodes[h].height
    ensures var times := Times(Headers(nodes, PathTo(nodes, genesis, h)));
            && MedianTime.PastTimeLimit(times, a) <= MedianTime.PastTimeLimit(times, b)
            && (a < b ==> times[b] > MedianTime.PastTimeLimit(times, a))
  {
    hide PathTo, Tree, MedianTime.TimeAccepted, MedianTime.PastTimeLimit;
    var path := PathTo(nodes, genesis, h);
    var hs := Headers(nodes, path);
    var times := Times(hs);
    forall i | 0 < i < |times| ensures MedianTime.TimeAccepted(times, i) {
      AcceptedAt(nodes, genesis, h, i);
      TimePrefix(times, i);
    }
    MedianTime.LimitNeverDecreases(times, a, b);
  }

  lemma AcceptedAt(nodes: Nodes, genesis: Hash, h: Hash, i: nat)
    requires Tree(nodes, genesis) && HeadersOk(nodes, genesis) && h in nodes && 0 < i <= nodes[h].height
    ensures var times := Times(Headers(nodes, PathTo(nodes, genesis, h))); MedianTime.TimeAccepted(times[..i + 1], i)
  {
    hide PathTo, Tree, MedianTime.TimeAccepted, Targets.NextTargetRequired, HeaderOf;
    var path := PathTo(nodes, genesis, h);
    var g := path[i];
    PathPrefix(nodes, genesis, h, i);
    HeightsDiffer(nodes, genesis, h, i);
    assert HeaderOkAt(nodes, genesis, g);
    var up := path[..i + 1];
    assert up[..|up| - 1] == path[..i];
    var times := Times(Headers(nodes, path));
    assert Times(Headers(nodes, path[..i]) + [HeaderOf(nodes[g].block)]) == times[..i + 1];
  }

  lemma HeightsDiffer(nodes: Nodes, genesis: Hash, h: Hash, i: nat)
    requires Tree(nodes, genesis) && h in nodes && 0 < i <= nodes[h].height
    ensures PathTo(nodes, genesis, h)[i] != genesis
  {
    hide PathTo;
    var path := PathTo(nodes, genesis, h);
    assert nodes[path[i]].height == i;
  }

  // ---------- the operation ----------

  /** The headers from genesis to a block, collected by walking back. */
  method CollectHeaders(nodes: Nodes, ghost genesis: Hash, h: Hash) returns (hs: seq<Targets.Header>)
    requires Tree(nodes, genesis) && h in nodes
    ensures hs == Headers(nodes, PathTo(nodes, genesis, h))
  {
    hide PathTo;
    ghost var path := PathTo(nodes, genesis, h);
    var p := h;
    hs := [HeaderOf(nodes[h].block)];
    while nodes[p].height > 0
      invariant p in nodes && path[nodes[p].height] == p && nodes[p].height < |path|
      invariant hs == Headers(nodes, path)[nodes[p].height..]
      decreases nodes[p].height
    {
      PathParent(nodes, genesis, h, nodes[p].height - 1);
      p := nodes[p].prev.value;
      hs := [HeaderOf(nodes[p].block)] + hs;
    }
  }

  /** The tests of a new header on top of a block. */
  method CheckHeader(nodes: Nodes, ghost genesis: Hash, prev: Hash, b: Block) returns (ok: bool)
    requires Tree(nodes, genesis) && prev in nodes
    ensures ok <==> HeaderPasses(Headers(nodes, PathTo(nodes, genesis, prev)), HeaderOf(b))
  {
    hide PathTo, Tree, Targets.NextTargetRequired, MedianTime.TimeAccepted, Times;
    var below := CollectHeaders(nodes, genesis, prev);
    var required := Targets.GetNextTargetRequired(below, |below| - 1, b.IsProofOfStake());
    if b.nBits != required {
      return false;
    }
    ok := CheckTime(below, HeaderOf(b));
  }

  method CheckTime(below: seq<Targets.Header>, h: Targets.Header) returns (ok: bool)
    requires below != []
    ensures ok <==> MedianTime.TimeAccepted(Times(below + [h]), |below|)
  {
    hide MedianTime.PastTimeLimit;
    var times, height := Times(below), |below|;
    var limit := MedianTime.GetPastTimeLimit(times, height - 1);
    SameLimit(times, Times(below + [h]), height - 1);
    ok := h.nTime > limit && MedianTime.FutureDrift(h.nTime, height) >= times[height - 1];
  }

  lemma SameLimit(times: seq<int>, all: seq<int>, height: nat)
    requires height < |times| <= |all| && forall i :: 0 <= i < |times| ==> all[i] == times[i]
    ensures MedianTime.PastTimeLimit(times, height) == MedianTime.PastTimeLimit(all, height)
  {
    hide MedianTime.Median;
    assert MedianTime.Window(times, height) == MedianTime.Window(all, height);
  }
}
