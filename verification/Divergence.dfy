/**
 A run of the node, from genesis and through its own message handlers, after which the best block is
 not connected: a checkpoint brings back a shorter branch, and the next block on that branch makes
 the node reorganize to its parent, which connects, while the block itself does not.
 */
module Divergence {
  import opened Ledger
  import opened Examples
  import opened LedgerUndo
  import opened LedgerValue
  import opened Replay
  import opened BlockTree
  import opened ChainView
  import opened HeaderRules
  import opened CoinbaseHeight
  import opened UniqueIds
  import opened ActiveChain
  import opened Checkpoints
  import Targets
  import MedianTime

  /** The last block of the run pays itself a coin more than it may. */
  const OVERPAID := 6

  function Pays(h: Hash): int {
    if h == OVERPAID then 3285 * COIN else 0
  }

  /** Blocks 2, 3 and 4, 5, 6 are two branches on block 1. */
  function HeightOf(h: Hash): nat {
    if h == 2 || h == 4 then 1 else if h == 3 || h == 5 then 2 else if h == OVERPAID then 3 else 0
  }

  function Coinbase(h: Hash): Tx {
    Tx(100 + h, 0, 100, [OutPoint(0, 0xFFFF_FFFF)], [TxOut(Pays(h), "51")], PushInt(HeightOf(h)))
  }

  /** A proof-of-work block that holds nothing but its coinbase. */
  function Mined(h: Hash, prev: Hash, nTime: nat, nBits: Targets.Compact): Block {
    Block(h, prev, nTime, nBits, [Coinbase(h)])
  }

  function Place(h: Hash): BlockPos {
    BlockPos(h, 0)
  }

  /** All blocks are of this kind, ten seconds apart, and stored in files of their own. */
  ghost predicate Scene(nodes: Nodes, disk: Disk) {
    && (forall h :: h in nodes ==> PlayedBy(nodes, h))
    && forall p :: p in disk ==> p.nFile in nodes
  }

  ghost predicate PlayedBy(nodes: Nodes, h: Hash) {
    && h in nodes && nodes[h].block.vtx == [Coinbase(h)] && nodes[h].block.nTime == 10 * nodes[h].height
    && nodes[h].height == HeightOf(h)
  }

  // ---------- which chains connect ----------

  lemma CoinbaseOnly(h: Hash)
    ensures Txids([Coinbase(h)]) == {100 + h}
  {
    assert [Coinbase(h)][0].txid == 100 + h;
  }

  lemma CoinbasePays(h: Hash)
    ensures var tx := Coinbase(h);
            && tx.IsCoinBase() && !tx.IsCoinStake() && ValueOut(tx.vout) == Pays(h) && CheckTransaction(tx)
  {
    var tx := Coinbase(h);
    assert tx.vout[..0] == [];
  }

  lemma BlockPasses(h: Hash, b: Block, height: nat)
    requires b.vtx == [Coinbase(h)]
    ensures CheckBlock(Lenient(), b, height) && !b.IsProofOfStake()
  {
    CoinbasePays(h);
    assert b.vtx[0] == Coinbase(h);
  }

  /** A block of this kind connects to an index without its id exactly if it does not overpay. */
  lemma BlockConnects(h: Hash, b: Block, read: Reader, base: Index, w: Where)
    requires b.vtx == [Coinbase(h)] && 100 + h !in base && w.height < 4551
    ensures Ledger.ConnectBlock(Lenient(), read, base, b, w).Some? <==> h != OVERPAID
  {
    CoinbasePays(h);
    BlockPasses(h, b, w.height);
    var tx := Coinbase(h);
    assert b.vtx[0] == tx;
    assert ConnectTxs(Lenient(), read, base, b.vtx, w, 0) == Some(Start(base));
    assert ConnectTxs(Lenient(), read, base, b.vtx, w, 1)
        == ConnectTx(Lenient(), read, base, Start(base), tx, TxPos(w.at, b.vtx, 0), w);
  }

  /** A chain of blocks of this kind with distinct hashes. */
  ghost predicate PlayedChain(chain: seq<Placed>, hs: seq<Hash>) {
    && |hs| == |chain| <= 4551
    && (forall i :: 0 <= i < |chain| ==> chain[i].block.vtx == [Coinbase(hs[i])])
    && (forall i, j :: 0 <= i < j < |hs| ==> hs[i] != hs[j])
  }

  lemma {:induction false} ChainConnects(chain: seq<Placed>, hs: seq<Hash>, read: Reader)
    requires PlayedChain(chain, hs) && chain != []
    ensures ReplayChain(Lenient(), read, chain).Some? <==> forall i :: 1 <= i < |hs| ==> hs[i] != OVERPAID
    decreases |chain|
  {
    hide ReplayChain, Ledger.ConnectBlock, Pays, Coinbase;
    ReplayStep(chain, read);
    if |chain| > 1 {
      var l := |chain| - 1;
      var rest, front := chain[..l], hs[..l];
      ChainConnects(rest, front, read);
      assert forall i :: 1 <= i < l ==> front[i] == hs[i];
      if ReplayChain(Lenient(), read, rest).Some? {
        assert forall i :: 0 <= i < l ==> front[i] != hs[l];
        IdIsNew(rest, front, read, hs[l]);
        BlockConnects(hs[l], chain[l].block, read, ReplayChain(Lenient(), read, rest).value.idx, TipWhere(chain));
      }
    }
  }

  lemma ReplayStep(chain: seq<Placed>, read: Reader)
    requires chain != []
    ensures |chain| == 1 ==> ReplayChain(Lenient(), read, chain).Some?
    ensures TipWhere(chain).height == |chain| - 1
    ensures |chain| > 1 ==>
              var rest := ReplayChain(Lenient(), read, chain[..|chain| - 1]);
              ReplayChain(Lenient(), read, chain).Some? <==>
                rest.Some?
                  && Ledger.ConnectBlock(Lenient(), read, rest.value.idx, chain[|chain| - 1].block,
                       TipWhere(chain)).Some?
  {
    hide Ledger.ConnectBlock;
  }

  lemma IdIsNew(chain: seq<Placed>, hs: seq<Hash>, read: Reader, h: Hash)
    requires PlayedChain(chain, hs) && ReplayChain(Lenient(), read, chain).Some? && h !in hs
    ensures 100 + h !in ReplayChain(Lenient(), read, chain).value.idx
  {
    hide ReplayChain, Txids;
    forall i | 0 <= i < |chain| ensures 100 + h !in Txids(chain[i].block.vtx) {
      CoinbaseOnly(hs[i]);
    }
    if 100 + h in ReplayChain(Lenient(), read, chain).value.idx {
      ReplayKeys(Lenient(), read, chain, 100 + h);
    }
  }

  lemma PathDistinct(nodes: Nodes, path: seq<Hash>)
    requires forall i :: 0 <= i < |path| ==> path[i] in nodes && nodes[path[i]].height == i
    ensures forall i, j :: 0 <= i < j < |path| ==> path[i] != path[j]
  {
    forall i, j | 0 <= i < j < |path| ensures path[i] != path[j] {
      assert nodes[path[i]].height == i && nodes[path[j]].height == j;
    }
  }

  lemma ScenePath(nodes: Nodes, genesis: Hash, disk: Disk, h: Hash)
    requires Tree(nodes, genesis) && Scene(nodes, disk) && h in nodes && nodes[h].height < 4551
    ensures PlayedChain(ChainTo(nodes, genesis, h), PathTo(nodes, genesis, h))
  {
    hide PathTo, Tree;
    var path := PathTo(nodes, genesis, h);
    forall i | 0 <= i < |path| ensures nodes[path[i]].block.vtx == [Coinbase(path[i])] {
      assert PlayedBy(nodes, path[i]);
    }
    PathDistinct(nodes, path);
  }

  /** Blocks up to height two connect; the overpaid one does not. */
  lemma SceneConnects(nodes: Nodes, genesis: Hash, disk: Disk, read: Reader, h: Hash)
    requires Tree(nodes, genesis) && Scene(nodes, disk) && h in nodes
    ensures nodes[h].height <= 2 ==> Connects(Lenient(), read, nodes, genesis, h)
    ensures h == OVERPAID ==> !Connects(Lenient(), read, nodes, genesis, h)
  {
    hide PathTo, Tree, ReplayChain;
    assert PlayedBy(nodes, h);
    if nodes[h].height <= 3 {
      var path := PathTo(nodes, genesis, h);
      ScenePath(nodes, genesis, disk, h);
      ChainConnects(ChainTo(nodes, genesis, h), path, read);
      forall i | 1 <= i < |path| && nodes[h].height <= 2 ensures path[i] != OVERPAID {
        assert nodes[path[i]].height == i && PlayedBy(nodes, path[i]);
      }
      assert path[|path| - 1] == h;
    }
  }

  lemma SceneWithoutRepeats(nodes: Nodes, genesis: Hash, disk: Disk, read: Reader)
    requires Tree(nodes, genesis) && Scene(nodes, disk)
    ensures TreeWithoutRepeats(Lenient(), read, nodes, genesis) && NoCollisions(nodes)
  {
    hide PathTo, Tree, NoRepeats, Scene, ReplayChain;
    forall h | h in nodes ensures NoRepeats(ChainTo(nodes, genesis, h)) {
      PathWithoutRepeats(nodes, genesis, disk, h);
    }
    SceneAgrees(nodes, disk);
  }

  lemma SceneAgrees(nodes: Nodes, disk: Disk)
    requires Scene(nodes, disk)
    ensures NoCollisions(nodes)
  {
    forall g, h | g in nodes && h in nodes ensures Agree(nodes[g].block, nodes[h].block) {
      assert PlayedBy(nodes, g) && PlayedBy(nodes, h);
    }
  }

  lemma PathWithoutRepeats(nodes: Nodes, genesis: Hash, disk: Disk, h: Hash)
    requires Tree(nodes, genesis) && Scene(nodes, disk) && h in nodes
    ensures NoRepeats(ChainTo(nodes, genesis, h))
  {
    hide PathTo, Tree, Txids, Coinbase;
    var path, chain := PathTo(nodes, genesis, h), ChainTo(nodes, genesis, h);
    forall i | 0 <= i < |chain| ensures Txids(chain[i].block.vtx) == {100 + path[i]} {
      assert PlayedBy(nodes, path[i]);
      CoinbaseOnly(path[i]);
    }
    PathDistinct(nodes, path);
  }

  // ---------- headers ----------

  lemma EarlyBits(below: seq<Targets.Header>, stake: bool)
    requires 1 <= |below| <= 2
    ensures Targets.NextTargetRequired(below, |below| - 1, stake) == Targets.GetCompact(Targets.TARGET_LIMIT)
  {
    hide Targets.GetCompact, Targets.Retarget;
    assert Targets.SameKind(below, 0, stake) == [];
  }

  /** Block ten seconds after the last one has a late enough time. */
  lemma NextPasses(nodes: Nodes, genesis: Hash, disk: Disk, prev: Hash, b: Block)
    requires Tree(nodes, genesis) && Scene(nodes, disk) && prev in nodes && b.nTime == 10 * (nodes[prev].height + 1)
    requires var below := Headers(nodes, PathTo(nodes, genesis, prev));
             b.nBits == Targets.NextTargetRequired(below, |below| - 1, b.IsProofOfStake())
    ensures HeaderPasses(Headers(nodes, PathTo(nodes, genesis, prev)), HeaderOf(b))
  {
    hide PathTo, Tree, Targets.NextTargetRequired, MedianTime.TimeAccepted;
    var path := PathTo(nodes, genesis, prev);
    var below := Headers(nodes, path);
    var times := Times(below + [HeaderOf(b)]);
    forall i | 0 <= i < |below| ensures times[i] == 10 * i {
      assert PlayedBy(nodes, path[i]);
    }
    MedianTime.LaterPasses(times, |below|);
  }

  lemma CoinbaseHasHeight(b: Block)
    requires b.vtx == [Coinbase(b.hash)]
    ensures HasHeight(b, HeightOf(b.hash))
  {
    hide PushInt;
  }

  lemma SceneGrows(nodes: Nodes, disk: Disk, more: Disk, b: Block, at: BlockPos)
    requires Scene(nodes, disk) && b.hashPrev in nodes && AppendedAt(disk, more, at) && at == Place(b.hash)
    requires b.vtx == [Coinbase(b.hash)] && b.nTime == 10 * (nodes[b.hashPrev].height + 1)
    requires HeightOf(b.hash) == nodes[b.hashPrev].height + 1
    ensures Scene(Joined(nodes, b, at), more)
  {
    hide Coinbase;
    forall h | h in Joined(nodes, b, at) ensures PlayedBy(Joined(nodes, b, at), h) {
      if h != b.hash {
        assert PlayedBy(nodes, h);
      }
    }
  }

  // ---------- the run ----------

  /** The network offers a block of this kind. */
  method Offer(sc: SyncCheckpoints, id: Hash, prev: Hash) returns (b: Block)
    requires sc.Valid() && sc.chain.Coherent() && sc.chain.rules == Lenient() && sc.hashPending == 0
    requires Scene(sc.chain.nodes, sc.chain.disk)
    requires id !in sc.chain.nodes && prev in sc.chain.nodes
             && IsAncestor(sc.chain.nodes, sc.chain.genesis, sc.hashSync, prev)
    requires HeightOf(id) == sc.chain.nodes[prev].height + 1
    modifies sc, sc.chain, sc.chain.db
    ensures sc.Valid() && sc.hashPending == 0 && sc.hashSync == old(sc.hashSync)
    ensures Scene(sc.chain.nodes, sc.chain.disk)
    ensures b.hash == id && b.hashPrev == prev && sc.chain.nodes == Joined(old(sc.chain.nodes), b, Place(id))
    ensures Targets.Usable(b.nBits)
    ensures old(sc.chain.nodes)[prev].height <= 1 ==> b.nBits == Targets.GetCompact(Targets.TARGET_LIMIT)
    ensures sc.chain.best in sc.chain.nodes && old(sc.chain.best) in sc.chain.nodes
    ensures AddOutcome(Lenient(), ReadFrom(sc.chain.disk), sc.chain.Snapshot(), old(sc.chain.db.store),
              old(sc.chain.best), sc.chain.best, id)
  {
    hide PathTo, Tree, IsAncestor, ChainState.Valid, ChainState.Coherent, SyncCheckpoints.Valid, AddOutcome, Scene,
      HeaderPasses, Joined, HasHeight, Targets.NextTargetRequired, Targets.GetCompact, Targets.Usable, Coinbase, Pays;
    ghost var nodes, disk := sc.chain.nodes, sc.chain.disk;
    ValidParts(sc);
    var below := CollectHeaders(sc.chain.nodes, sc.chain.genesis, prev);
    var bits := Targets.NextTargetRequired(below, |below| - 1, false);
    Targets.RequiredIsUsable(below, |below| - 1, false);
    if |below| <= 2 {
      EarlyBits(below, false);
    }
    b := Mined(id, prev, 10 * (sc.chain.nodes[prev].height + 1), bits);
    NextPasses(nodes, sc.chain.genesis, disk, prev, b);
    CoinbaseHasHeight(b);
    FreeFile(nodes, disk, b);
    ghost var mid, tip;
    var ok;
    ok, mid, tip := sc.AcceptBlock(b, Place(id), true);
    ValidParts(sc);
    SceneGrows(nodes, disk, sc.chain.disk, b, Place(id));
    JoinedGrows(nodes, b, Place(id));
  }

  lemma ValidParts(sc: SyncCheckpoints)
    requires sc.Valid()
    ensures sc.chain.Valid() && Tree(sc.chain.nodes, sc.chain.genesis) && sc.chain.best in sc.chain.nodes
            && sc.hashSync in sc.chain.nodes
  {
  }

  lemma FreeFile(nodes: Nodes, disk: Disk, b: Block)
    requires Scene(nodes, disk) && b.hash !in nodes
    ensures forall i :: 0 <= i < |b.vtx| ==> TxPos(Place(b.hash), b.vtx, i) !in disk
  {
  }

  lemma TargetConnects(nodes: Nodes, genesis: Hash, disk: Disk, read: Reader, best: Hash, h: Hash)
    requires Tree(nodes, genesis) && Scene(nodes, disk) && best in nodes && h in nodes && nodes[h].height <= 2
    ensures Connects(Lenient(), read, nodes, genesis, TargetOf(nodes, genesis, best, h))
  {
    hide PathTo, Tree, Connects, Scene;
    SceneConnects(nodes, genesis, disk, read, TargetOf(nodes, genesis, best, h));
  }

  /** A block up to height two with more trust becomes the best one; one without does not. */
  lemma LowOutcome(nodes: Nodes, genesis: Hash, disk: Disk, v: View, store: Index, was: Hash, best: Hash, h: Hash)
    requires v.nodes == nodes && v.genesis == genesis
    requires Tree(nodes, genesis) && Scene(nodes, disk) && was in nodes && best in nodes && h in nodes
             && nodes[h].height <= 2
    requires AddOutcome(Lenient(), ReadFrom(disk), v, store, was, best, h)
    ensures best == if nodes[h].trust > nodes[was].trust then h else was
    ensures Describes(Lenient(), ReadFrom(disk), v, best)
  {
    hide PathTo, Tree, Connects, Scene, Describes, TargetOf, StoppedAt, TreeWithoutRepeats, MaySwitch;
    TargetConnects(nodes, genesis, disk, ReadFrom(disk), was, h);
    SceneWithoutRepeats(nodes, genesis, disk, ReadFrom(disk));
    SceneConnects(nodes, genesis, disk, ReadFrom(disk), h);
  }

  /** The tree of the run before its last block: genesis 1, the branch 2, 3, and beside it the branch 4, 5. */
  ghost predicate Stage(nodes: Nodes) {
    && nodes.Keys == {1, 2, 3, 4, 5}
    && nodes[2].prev == Some(1) && nodes[3].prev == Some(2) && nodes[4].prev == Some(1) && nodes[5].prev == Some(4)
    && nodes[1].height == 0 && nodes[2].height == nodes[4].height == 1 && nodes[3].height == nodes[5].height == 2
    && nodes[1].trust < nodes[2].trust == nodes[4].trust < nodes[3].trust == nodes[5].trust
  }

  lemma NotOnOtherBranch(nodes: Nodes)
    requires Tree(nodes, 1) && Stage(nodes)
    ensures !IsAncestor(nodes, 1, 4, 3) && IsAncestor(nodes, 1, 1, 4) && IsAncestor(nodes, 1, 4, 5)
  {
    hide PathTo, Tree;
    PathParent(nodes, 1, 3, 1);
    var path := PathTo(nodes, 1, 3);
    assert path[2] == 3 && path[1] == 2;
    forall i | 0 <= i < |path| ensures path[i] != 4 {
      assert nodes[path[i]].height == i;
    }
    SelfAncestor(nodes, 1, 4);
    PathParent(nodes, 1, 5, 1);
    var other := PathTo(nodes, 1, 5);
    assert other[2] == 5 && other[1] == 4;
  }

  /** When the overpaid block arrives, the switch target is its parent or below. */
  lemma LastTarget(nodes: Nodes, disk: Disk, read: Reader, h: Hash)
    requires Tree(nodes, 1) && Scene(nodes, disk) && 4 in nodes && 5 in nodes && h in nodes && nodes[h].prev == Some(5)
    requires nodes[h].height == 3 && nodes[5].height == 2 && nodes[5].trust > nodes[4].trust
    ensures PathTo(nodes, 1, h)[2] == 5
    ensures Connects(Lenient(), read, nodes, 1, TargetOf(nodes, 1, 4, h))
  {
    hide PathTo, Tree, Connects, Scene;
    PathParent(nodes, 1, h, 2);
    var path := PathTo(nodes, 1, h);
    assert path[3] == h && path[2] == 5;
    var i := Intermediate(nodes, path, 3, nodes[4].trust);
    assert i <= 2;
    SceneConnects(nodes, 1, disk, read, path[i]);
  }

  /** The overpaid block becomes the best one, and the index is left at its parent. */
  lemma LeftBehind(disk: Disk, v: View, store: Index, best: Hash)
    requires Tree(v.nodes, 1) && v.genesis == 1 && Scene(v.nodes, disk) && 4 in v.nodes && 5 in v.nodes
             && OVERPAID in v.nodes && best in v.nodes
    requires v.nodes[OVERPAID].prev == Some(5) && v.nodes[OVERPAID].height == 3 && v.nodes[5].height == 2
    requires v.nodes[OVERPAID].trust > v.nodes[5].trust > v.nodes[4].trust
    requires AddOutcome(Lenient(), ReadFrom(disk), v, store, 4, best, OVERPAID)
    ensures best == OVERPAID && v.hashBest == 5 && !Describes(Lenient(), ReadFrom(disk), v, best)
    ensures Describes(Lenient(), ReadFrom(disk), v, 5)
  {
    hide PathTo, Tree, Connects, Scene, Describes, TargetOf, TreeWithoutRepeats, IsAncestor, MaySwitch;
    var read, path := ReadFrom(disk), PathTo(v.nodes, 1, OVERPAID);
    LastTarget(v.nodes, disk, read, OVERPAID);
    SceneWithoutRepeats(v.nodes, 1, disk, read);
    SceneConnects(v.nodes, 1, disk, read, OVERPAID);
    AncestorAt(v.nodes, 1, v.hashBest, OVERPAID);
    var n := v.nodes[v.hashBest].height + 1;
    if v.hashBest != OVERPAID {
      assert v.nodes[path[n]].height == n;
      SceneConnects(v.nodes, 1, disk, read, path[n]);
    }
  }

  /** The node at genesis. */
  method AtGenesis() returns (sc: SyncCheckpoints)
    ensures fresh(sc) && fresh(sc.chain) && fresh(sc.chain.db)
    ensures sc.Valid() && sc.chain.Coherent() && sc.chain.rules == Lenient() && sc.hashPending == 0
    ensures Scene(sc.chain.nodes, sc.chain.disk)
    ensures sc.chain.genesis == sc.chain.best == sc.hashSync == 1
    ensures sc.chain.nodes.Keys == {1} && sc.chain.nodes[1].height == 0
  {
    hide Targets.GetCompact, Targets.BlockTrust, ChainState.Valid, ChainState.Coherent, SyncCheckpoints.Valid, Scene,
      HeadersOk, TxPos, Coinbase;
    var g := Mined(1, 0, 0, Targets.GetCompact(Targets.TARGET_LIMIT));
    var disk: Disk := map[TxPos(Place(1), g.vtx, 0) := g.vtx[0]];
    var chain := new ChainState(Lenient(), g, Place(1), disk);
    AloneIsFine(chain, g);
    sc := new SyncCheckpoints(chain);
  }

  lemma AloneIsFine(c: ChainState, g: Block)
    requires c.Valid() && c.genesis == 1 && c.nodes.Keys == {1} && c.nodes[1].height == 0 && c.nodes[1].block == g
    requires g.vtx == [Coinbase(1)] && g.nTime == 0 && c.disk.Keys == {TxPos(Place(1), g.vtx, 0)}
    ensures Tree(c.nodes, 1) && HeadersOk(c.nodes, 1) && CoinbasesOk(c.nodes, 1) && Scene(c.nodes, c.disk)
  {
    hide Describes, TreeStored, LinksOnPath, IsAncestor;
    assert PlayedBy(c.nodes, 1);
  }

  /** A block of height one or two: it becomes the best one exactly if it has more trust, and the state stays
      coherent. */
  method OfferLow(sc: SyncCheckpoints, id: Hash, prev: Hash)
    requires sc.Valid() && sc.chain.Coherent() && sc.chain.rules == Lenient() && sc.hashPending == 0
    requires Scene(sc.chain.nodes, sc.chain.disk) && id != OVERPAID
    requires id !in sc.chain.nodes && prev in sc.chain.nodes && sc.chain.nodes[prev].height <= 1
    requires HeightOf(id) == sc.chain.nodes[prev].height + 1
    requires sc.hashSync == sc.chain.genesis && sc.chain.best in sc.chain.nodes
    modifies sc, sc.chain, sc.chain.db
    ensures sc.Valid() && sc.chain.Coherent() && sc.hashPending == 0 && sc.hashSync == old(sc.hashSync)
    ensures Scene(sc.chain.nodes, sc.chain.disk) && Grown(old(sc.chain.nodes), sc.chain.nodes)
    ensures sc.chain.nodes.Keys == old(sc.chain.nodes).Keys + {id} && sc.chain.best in sc.chain.nodes
    ensures var n, p := sc.chain.nodes[id], sc.chain.nodes[prev];
            n.prev == Some(prev) && n.height == p.height + 1 && n.trust == p.trust + LimitTrust()
    ensures sc.chain.best == if sc.chain.nodes[id].trust > sc.chain.nodes[old(sc.chain.best)].trust then id
            else old(sc.chain.best)
  {
    hide PathTo, Tree, IsAncestor, ChainState.Valid, SyncCheckpoints.Valid, AddOutcome, Scene, Describes, LimitTrust;
    ValidParts(sc);
    SelfAncestor(sc.chain.nodes, sc.chain.genesis, prev);
    ghost var was, nodes, store := sc.chain.best, sc.chain.nodes, sc.chain.db.store;
    var b := Offer(sc, id, prev);
    ValidParts(sc);
    JoinedGrows(nodes, b, Place(id));
    hide Grown;
    LowOutcome(sc.chain.nodes, sc.chain.genesis, sc.chain.disk, sc.chain.Snapshot(), store, was, sc.chain.best, id);
    LimitTrustIs(b.nBits);
  }

  /** What a block with the easiest target adds. */
  ghost function LimitTrust(): (t: nat) {
    Targets.BlockTrust(Targets.GetCompact(Targets.TARGET_LIMIT))
  }

  lemma LimitTrustIs(bits: Targets.Compact)
    ensures bits == Targets.GetCompact(Targets.TARGET_LIMIT) ==> Targets.BlockTrust(bits) == LimitTrust()
  {
  }

  lemma LimitTrustPositive()
    ensures LimitTrust() > 0
  {
    var below := [Targets.Header(0, 0, false)];
    EarlyBits(below, false);
    hide Targets.GetCompact, Targets.BlockTrust, Targets.NextTargetRequired;
    Targets.RequiredIsUsable(below, 0, false);
    Targets.UsableTrust(Targets.GetCompact(Targets.TARGET_LIMIT));
  }

  /** Two branches of two blocks each; the one that came first is active. */
  method TwoBranches() returns (sc: SyncCheckpoints)
    ensures fresh(sc) && fresh(sc.chain) && fresh(sc.chain.db)
    ensures sc.Valid() && sc.chain.Coherent() && sc.chain.rules == Lenient() && sc.hashPending == 0
    ensures Scene(sc.chain.nodes, sc.chain.disk) && Stage(sc.chain.nodes)
    ensures sc.chain.genesis == sc.hashSync == 1 && sc.chain.best == 3
  {
    hide ChainState.Valid, ChainState.Coherent, SyncCheckpoints.Valid, Scene, LimitTrust;
    LimitTrustPositive();
    sc := AtGenesis();
    OfferLow(sc, 2, 1);
    OfferLow(sc, 3, 2);
    OfferLow(sc, 4, 1);
    OfferLow(sc, 5, 4);
  }

  /** A checkpoint at block 4 makes the other branch active up to there. */
  method BackToFour(sc: SyncCheckpoints)
    requires sc.Valid() && sc.chain.Coherent() && sc.chain.rules == Lenient() && sc.hashPending == 0
    requires Scene(sc.chain.nodes, sc.chain.disk) && Stage(sc.chain.nodes)
    requires sc.chain.genesis == sc.hashSync == 1 && sc.chain.best == 3
    modifies sc, sc.chain`pnext, sc.chain`supply, sc.chain`best, sc.chain`cache, sc.chain`tips, sc.chain.db
    ensures sc.Valid() && sc.chain.Coherent() && sc.hashPending == 0 && sc.hashSync == sc.chain.best == 4
  {
    hide PathTo, Tree, IsAncestor, ChainState.Valid, ChainState.Coherent, SyncCheckpoints.Valid, Scene, Connects,
      TreeWithoutRepeats, TargetOf, NoCollisions, MoveOutcome;
    ValidParts(sc);
    NotOnOtherBranch(sc.chain.nodes);
    if sc.chain.IsInMainChain(4) {
      InMainIsAncestor(sc.chain, 4);
    }
    SceneWithoutRepeats(sc.chain.nodes, 1, sc.chain.disk, ReadFrom(sc.chain.disk));
    TargetConnects(sc.chain.nodes, 1, sc.chain.disk, ReadFrom(sc.chain.disk), 3, 4);
    SceneConnects(sc.chain.nodes, 1, sc.chain.disk, ReadFrom(sc.chain.disk), 4);
    var ok := sc.ProcessSyncCheckpoint(4, true);
  }

  /**
   The run: blocks 2, 3 and 4, 5 on two branches, a checkpoint at 4, and block 6 on 5, which pays itself too much.
   Every block passed the tests before it entered the tree. At the end block 6 is the best block, while links,
   supply and index are those of block 5.
   */
  method Diverge() returns (sc: SyncCheckpoints)
    ensures fresh(sc) && sc.Valid()
    ensures sc.chain.best == OVERPAID && sc.chain.db.hashBest == 5 && !sc.chain.Coherent()
    ensures Describes(sc.chain.rules, ReadFrom(sc.chain.disk), sc.chain.Snapshot(), 5)
  {
    hide PathTo, Tree, IsAncestor, ChainState.Valid, SyncCheckpoints.Valid, Scene, Describes, AddOutcome;
    sc := TwoBranches();
    BackToFour(sc);
    ValidParts(sc);
    NotOnOtherBranch(sc.chain.nodes);
    ghost var store := sc.chain.db.store;
    var b := Offer(sc, OVERPAID, 5);
    Targets.UsableTrust(b.nBits);
    ValidParts(sc);
    LeftBehind(sc.chain.disk, sc.chain.Snapshot(), store, sc.chain.best);
  }
}
