/**
 Block assembly on top of the chain state: what the transaction index of a connected chain
 guarantees to the miner, and why a transaction is not in the finished block.
 */
module Mining {
  import opened Ledger
  import opened LedgerUndo
  import opened LedgerValue
  import opened LedgerOps
  import opened Replay
  import opened ChainSpends
  import opened BlockTree
  import opened ChainView
  import opened ActiveChain
  import opened UniqueIds
  import opened Checkpoints
  import opened Assembly
  import opened MinerQueue
  import opened Miner
  import opened Numbers

  // ---------- refusals last ----------

  lemma {:induction false} TotalsGrow(p: Policy, vtx: seq<Tx>, fetched: seq<Inputs>, k: nat)
    requires |fetched| == |vtx| && k <= |vtx|
    ensures SizeOf(vtx[..k]) <= SizeOf(vtx) && SigOps(p, vtx[..k], fetched[..k]) <= SigOps(p, vtx, fetched)
    decreases |vtx|
  {
    if k == |vtx| {
      assert vtx[..k] == vtx && fetched[..k] == fetched;
    } else {
      var l := |vtx| - 1;
      TotalsGrow(p, vtx[..l], fetched[..l], k);
      assert vtx[..l][..k] == vtx[..k] && fetched[..l][..k] == fetched[..k];
    }
  }

  /** The fee was too low for the block of the first `k` transactions. */
  ghost predicate PaysTooLittle(read: Reader, pool: Pool, base: Index, p: Policy, vtx: seq<Tx>, tx: Tx, k: nat) {
    k <= |vtx| && InputsWorth(read, base, pool, tx.vin) - ValueOut(tx.vout) < p.minFee(tx, 1000 + SizeOf(vtx[..k]))
  }

  /** With what was fetched after the first `k` transactions, the finished block would have too many signature
      operations. */
  ghost predicate TooManySigOps(r: Rules, read: Reader, pool: Pool, base: Index, p: Policy, w: Where,
                                vtx: seq<Tx>, fetched: seq<Inputs>, tx: Tx, k: nat, f: Inputs)
  {
    && |fetched| == |vtx| && k <= |vtx|
    && (var d := Assemble(r, PoolReader(read, pool), base, vtx[..k], w);
        d.Some? && InputsMatch(PoolReader(read, pool), d.value.idx, tx.vin, f))
    && 100 + SigOps(p, vtx, fetched) + p.legacySigOps(tx) + p.p2shSigOps(tx, f) >= MAX_BLOCK_SIGOPS
  }

  /** Why a transaction is not in a finished block: with it the block would be too large or have too many signature
      operations, it is too young, it was free or paid too little when there was no more room for such transactions,
      or it does not connect on top of the block. */
  ghost predicate LeftOut(r: Rules, read: Reader, pool: Pool, base: Index, p: Policy, w: Where, s: Progress,
                          fetched: seq<Inputs>, h: Hash)
  {
    && h in pool && |fetched| == |s.vtx|
    && var tx := pool[h]; var size := 1000 + SizeOf(s.vtx) + tx.nSize;
       || size >= BlockMaxSize(p)
       || 100 + SigOps(p, s.vtx, fetched) + p.legacySigOps(tx) >= MAX_BLOCK_SIGOPS
       || tx.nTime > p.now || (p.fProofOfStake && tx.nTime > p.coinbaseTime)
       || (RankOf(read, base, pool, p, tx).1 < p.minTxFee as real && size >= Min(BlockMaxSize(p), p.minSize)
           && FeesRank(read, base, pool, p, s.vtx, |s.vtx|))
       || AssembleOne(r, PoolReader(read, pool), Draft(base + s.mapTestPool, s.nFees), tx, w).None?
       || (exists k :: PaysTooLittle(read, pool, base, p, s.vtx, tx, k))
       || (exists k, f :: TooManySigOps(r, read, pool, base, p, w, s.vtx, fetched, tx, k, f))
  }

  /** Inputs of a transaction whose parents are included are all known. */
  lemma InputsAreKnown(r: Rules, read: Reader, pool: Pool, base: Index, p: Policy, w: Where, vtx: seq<Tx>, k: nat,
                       h: Hash)
    requires InputsKnown(read, base, pool, p) && ReleasedAt(read, base, pool, p, vtx, k, h)
    requires Assemble(r, PoolReader(read, pool), base, vtx[..k], w).Some?
    ensures forall o :: o in pool[h].vin ==> o.hash in Assemble(r, PoolReader(read, pool), base, vtx[..k], w).value.idx
  {
    hide Assemble, PoolReader, Txids;
    AssembledKeys(r, PoolReader(read, pool), base, vtx[..k], w);
    var vin := pool[h].vin;
    forall o | o in vin ensures o.hash in Assemble(r, PoolReader(read, pool), base, vtx[..k], w).value.idx {
      if !OnChain(read, base, o) {
        var i :| 0 <= i < |vin| && vin[i] == o;
        assert o.hash in ParentsOf(read, base, vin);
      }
    }
  }

  lemma FeesRankLater(read: Reader, base: Index, pool: Pool, p: Policy, vtx: seq<Tx>, k: nat)
    requires FeesRank(read, base, pool, p, vtx, k) && k <= |vtx|
    ensures FeesRank(read, base, pool, p, vtx, |vtx|)
  {
    hide SwitchesAt;
  }

  /** A refusal for lack of room or by a limit lasts, and what does not connect never does again. */
  lemma RefusalLasts(r: Rules, read: Reader, pool: Pool, base: Index, p: Policy, w: Where, s: Progress,
                     fetched: seq<Inputs>, h: Hash, v: Verdict)
    requires Sound(r, read, pool, base, p, w, s, fetched) && TurnedAway(r, read, pool, base, p, w, s.vtx, fetched, h, v)
    requires InputsKnown(read, base, pool, p) && OnDisk(base) && ConfirmedAreSpent(pool, base, p)
    ensures LeftOut(r, read, pool, base, p, w, s, fetched, h)
  {
    hide Assemble, PoolReader, PassedAt, InputsKnown, ConfirmedAreSpent, AssembleOne, RankOf, SigOps, SizeOf, Released,
      FeesRank, ParentMap, InputsWorth, ValueIn, InputsMatch, AllFetched;
    var vtx, tx, k := s.vtx, pool[h], v.k;
    TotalsGrow(p, vtx, fetched, k);
    if v.byFee {
      FeesRankLater(read, base, pool, p, vtx, k);
    }
    var size, sigOps := 1000 + SizeOf(vtx[..k]), 100 + SigOps(p, vtx[..k], fetched[..k]);
    if WithinLimits(p, tx, RankEntry(read, base, pool, p, h), size, sigOps, v.byFee) {
      CannotLasts(r, read, pool, base, p, w, s, fetched, h, v);
    }
  }

  lemma CannotLasts(r: Rules, read: Reader, pool: Pool, base: Index, p: Policy, w: Where, s: Progress,
                    fetched: seq<Inputs>, h: Hash, v: Verdict)
    requires Sound(r, read, pool, base, p, w, s, fetched) && |fetched| == |s.vtx|
             && ReleasedAt(read, base, pool, p, s.vtx, v.k, h)
    requires InputsKnown(read, base, pool, p) && OnDisk(base) && ConfirmedAreSpent(pool, base, p)
    requires var d := Assemble(r, PoolReader(read, pool), base, s.vtx[..v.k], w);
             d.Some? && CannotAdd(r, PoolReader(read, pool), d.value, p, w, pool[h], v.f, 1000 + SizeOf(s.vtx[..v.k]),
                                  100 + SigOps(p, s.vtx[..v.k], fetched[..v.k]))
    ensures || AssembleOne(r, PoolReader(read, pool), Draft(base + s.mapTestPool, s.nFees), pool[h], w).None?
            || PaysTooLittle(read, pool, base, p, s.vtx, pool[h], v.k)
            || TooManySigOps(r, read, pool, base, p, w, s.vtx, fetched, pool[h], v.k, v.f)
  {
    hide Assemble, PoolReader, PassedAt, InputsKnown, ConfirmedAreSpent, AssembleOne, SigOps, SizeOf, InputsWorth,
      ValueIn, InputsMatch, AllFetched, ParentMap, OnDisk;
    var vtx, tx, k, rd := s.vtx, pool[h], v.k, PoolReader(read, pool);
    var d := Assemble(r, rd, base, vtx[..k], w).value;
    TotalsGrow(p, vtx, fetched, k);
    if AssembleOne(r, rd, d, tx, w).None? {
      InputsAreKnown(r, read, pool, base, p, w, vtx, k, h);
      StaysUnconnectable(r, rd, base, vtx, w, k, tx);
    } else {
      PrefixIds(vtx, base, k);
      NothingShared(read, base, pool, vtx[..k]);
      InputsValue(r, read, pool, base, vtx[..k], w, tx.vin);
    }
  }

  /** What is in the block paid enough for it. */
  lemma IncludedPay(r: Rules, read: Reader, pool: Pool, base: Index, p: Policy, w: Where, s: Progress,
                    fetched: seq<Inputs>, k: nat)
    requires Sound(r, read, pool, base, p, w, s, fetched) && k < |s.vtx|
    requires OnDisk(base) && ConfirmedAreSpent(pool, base, p)
    ensures !PaysTooLittle(read, pool, base, p, s.vtx, s.vtx[k], k)
  {
    hide Assemble, PoolReader, ConfirmedAreSpent, SigOps, SizeOf, InputsWorth, ValueIn, InputsMatch, AllFetched, OnDisk;
    var vtx, rd := s.vtx, PoolReader(read, pool);
    assert PassedAt(r, rd, base, p, w, vtx, fetched, k);
    PrefixIds(vtx, base, k);
    NothingShared(read, base, pool, vtx[..k]);
    InputsValue(r, read, pool, base, vtx[..k], w, vtx[k].vin);
  }

  lemma NothingShared(read: Reader, base: Index, pool: Pool, vtx: seq<Tx>)
    requires Txids(vtx) !! base.Keys
    ensures SameTransactions(read, base, pool, Txids(vtx))
  {
    hide Txids;
  }

  // ---------- what a connected chain guarantees ----------

  /** In a state that describes its tip and without repeated ids, every indexed transaction is recorded as spending its
      inputs, and no index entry has the miner's placeholder for a place. */
  lemma IndexGuarantees(r: Rules, read: Reader, v: View, tip: Hash, pool: Pool, p: Policy)
    requires Describes(r, read, v, tip) && TreeStored(read, v.nodes) && Tree(v.nodes, v.genesis)
             && TreeWithoutRepeats(r, read, v.nodes, v.genesis)
    requires SameTransactions(read, v.store, pool, pool.Keys)
    ensures ConfirmedAreSpent(pool, v.store, p) && OnDisk(v.store)
  {
    hide PathTo, Describes, TreeStored, ReplayChain, NoRepeats, UpToSpent, TreeWithoutRepeats, Tree, MayInclude,
      AllStored;
    TipKnown(r, read, v, tip);
    var chain := ChainTo(v.nodes, v.genesis, tip);
    ChainStored(read, v.nodes, v.genesis, tip);
    DescribesIndex(r, read, v, tip);
    hide ChainTo;
    forall h | h in v.store
      ensures v.store[h].pos != MINER_POS
      ensures h in pool && MayInclude(p, pool[h]) ==> exists o :: o in pool[h].vin && SpentIn(v.store, o)
    {
      IndexedSpends(r, read, chain, h, pool, p);
    }
  }

  lemma TipKnown(r: Rules, read: Reader, v: View, tip: Hash)
    requires Describes(r, read, v, tip)
    ensures tip in v.nodes
  {
  }

  lemma IndexedSpends(r: Rules, read: Reader, chain: seq<Placed>, h: Hash, pool: Pool, p: Policy)
    requires ReplayChain(r, read, chain).Some? && NoRepeats(chain) && AllStored(read, chain)
    requires h in ReplayChain(r, read, chain).value.idx
    requires h in pool ==> read(h, ReplayChain(r, read, chain).value.idx[h].pos) == Some(pool[h])
    ensures ReplayChain(r, read, chain).value.idx[h].pos != MINER_POS
    ensures h in pool && MayInclude(p, pool[h]) ==>
              exists o :: o in pool[h].vin && SpentIn(ReplayChain(r, read, chain).value.idx, o)
  {
    hide ReplayChain, NoRepeats;
    var i, a := IndexedIsOnChain(r, read, chain, h);
    var tx := chain[i].block.vtx[a];
    assert read(tx.txid, TxPos(chain[i].at, chain[i].block.vtx, a)) == Some(tx) by {
      assert Stored(read, chain[i].block.vtx, chain[i].at);
    }
    if h in pool && MayInclude(p, pool[h]) {
      var o := tx.vin[0];
      assert o in tx.vin;
      InputsAreSpent(r, read, chain, i, a, o);
    }
  }

  /** The index describes the best block, no two transactions of the tree share an id, and a pool transaction with the
      id of a stored one is that transaction. */
  ghost predicate Settled(c: ChainState, pool: Pool)
    requires c.Valid()
    reads c, c.db
  {
    c.Coherent() && NoCollisions(c.nodes) && SameTransactions(ReadFrom(c.disk), c.db.store, pool, pool.Keys)
  }

  /**
   A new block on top of the best block, in every state of the node and for every pool whose transactions spend outputs
   on the chain or in the pool: each transaction at most once and after its parents, size and signature operations below
   the limits. In a settled state no output is spent twice or again, fees equal inputs less outputs, and there is a
   lasting reason for every transaction that could have been in the block and is not.
   */
  method CreateNewBlockOn(node: SyncCheckpoints, pool: Pool, p: Policy)
    returns (s: Progress, ghost fetched: seq<Inputs>, ghost w: Where, ghost steps: seq<Step>)
    requires node.Valid() && PoolOk(pool) && InputsKnown(ReadFrom(node.chain.disk), node.chain.db.store, pool, p)
    ensures var c := node.chain; var read, base := ReadFrom(c.disk), c.db.store;
            && w == TipWhere(ChainTo(c.nodes, c.genesis, c.best))
            && Filled(c.rules, read, pool, base, p, w, s, fetched) && Sound(c.rules, read, pool, base, p, w, s, fetched)
            && FromPool(pool, s.vtx) && DistinctTxids(s.vtx) && InOrder(base, s.vtx)
            && Ordered(read, base, pool, p, s.vtx, fetched, steps) && AllConsidered(read, base, pool, p, s.vtx, steps)
    ensures s.vtx != [] ==> 1000 + SizeOf(s.vtx) < BlockMaxSize(p) <= MAX_BLOCK_SIZE - 1000
    ensures |fetched| == |s.vtx| && (s.vtx != [] ==> 100 + SigOps(p, s.vtx, fetched) < MAX_BLOCK_SIGOPS)
    ensures Settled(node.chain, pool) ==>
              var c := node.chain; var read, base := ReadFrom(c.disk), c.db.store;
              && SpendsOnce(s.vtx) && SpendsUnspent(base, s.vtx)
              && s.nFees == TotalIn(read, base, pool, s.vtx) - TotalOut(s.vtx)
              && (forall k :: 0 <= k < |s.vtx| ==>
                    InputsWorth(read, base, pool, s.vtx[k].vin) - ValueOut(s.vtx[k].vout)
                    >= p.minFee(s.vtx[k], 1000 + SizeOf(s.vtx[..k])))
              && forall h ::
                   Released(ParentMap(read, base, pool, p, pool.Keys), Txids(s.vtx), h) && h !in Txids(s.vtx) ==>
                               LeftOut(c.rules, read, pool, base, p, w, s, fetched, h)
  {
    hide PathTo, Describes, TreeStored, LinksOnPath, IsAncestor, TreeWithoutRepeats, Tree, ConfirmedAreSpent, OnDisk,
      InputsKnown, SameTransactions, Filled, ParentMap, LeftOut, TurnedAway, InOrder, SpendsOnce, SpendsUnspent,
          TotalIn,
      TotalOut, Sound, Released, Txids, AllConnect, TipsKnown, NoCollisions, CoinbasesOk, Ordered,
      AllConsidered, InputsWorth, ValueOut, SizeOf;
    var c := node.chain;
    var read := ReadFrom(c.disk);
    ghost var base := c.db.store;
    ViewIsStore(c);
    var recent := RecentPositions(c.nodes, c.genesis, c.best);
    var here := Where(c.nodes[c.best].at, c.nodes[c.best].height, recent);
    w := here;
    s, fetched, steps := CreateNewBlock(c.db, c.rules, read, pool, p, here);
    FilledIsSound(c.rules, read, pool, base, p, w, s, fetched);
    if Settled(c, pool) {
      TreeIdsUnique(c.rules, read, c.nodes, c.genesis);
      IndexGuarantees(c.rules, read, c.Snapshot(), c.best, pool, p);
      EveryRefusalLasts(c.rules, read, pool, base, p, w, s, fetched);
      AllPay(c.rules, read, pool, base, p, w, s, fetched);
    }
  }

  lemma AllPay(r: Rules, read: Reader, pool: Pool, base: Index, p: Policy, w: Where, s: Progress, fetched: seq<Inputs>)
    requires Sound(r, read, pool, base, p, w, s, fetched) && OnDisk(base) && ConfirmedAreSpent(pool, base, p)
    ensures forall k :: 0 <= k < |s.vtx| ==>
              InputsWorth(read, base, pool, s.vtx[k].vin) - ValueOut(s.vtx[k].vout)
              >= p.minFee(s.vtx[k], 1000 + SizeOf(s.vtx[..k]))
  {
    hide Sound, OnDisk, ConfirmedAreSpent, InputsWorth, ValueOut, SizeOf;
    forall k | 0 <= k < |s.vtx|
      ensures InputsWorth(read, base, pool, s.vtx[k].vin) - ValueOut(s.vtx[k].vout)
              >= p.minFee(s.vtx[k], 1000 + SizeOf(s.vtx[..k]))
    {
      IncludedPay(r, read, pool, base, p, w, s, fetched, k);
    }
  }

  lemma FilledIsSound(r: Rules, read: Reader, pool: Pool, base: Index, p: Policy, w: Where, s: Progress,
                      fetched: seq<Inputs>)
    requires Filled(r, read, pool, base, p, w, s, fetched)
    ensures Sound(r, read, pool, base, p, w, s, fetched)
  {
  }

  lemma ViewIsStore(c: ChainState)
    requires c.Valid()
    ensures c.db.View() == c.db.store
  {
  }

  lemma EveryRefusalLasts(r: Rules, read: Reader, pool: Pool, base: Index, p: Policy, w: Where, s: Progress,
                          fetched: seq<Inputs>)
    requires Filled(r, read, pool, base, p, w, s, fetched)
    requires InputsKnown(read, base, pool, p) && OnDisk(base) && ConfirmedAreSpent(pool, base, p)
    ensures Sound(r, read, pool, base, p, w, s, fetched)
    ensures forall h :: Released(ParentMap(read, base, pool, p, pool.Keys), Txids(s.vtx), h) && h !in Txids(s.vtx) ==>
                          LeftOut(r, read, pool, base, p, w, s, fetched, h)
  {
    hide Sound, ParentMap, TurnedAway, LeftOut, InputsKnown, OnDisk, ConfirmedAreSpent, Released, Txids;
    forall h | Released(ParentMap(read, base, pool, p, pool.Keys), Txids(s.vtx), h) && h !in Txids(s.vtx)
      ensures LeftOut(r, read, pool, base, p, w, s, fetched, h)
    {
      var v :| TurnedAway(r, read, pool, base, p, w, s.vtx, fetched, h, v);
      RefusalLasts(r, read, pool, base, p, w, s, fetched, h, v);
    }
  }
}
