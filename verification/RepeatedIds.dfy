/**
 What block connecting alone does not prevent: a coinbase may be issued again once all its outputs are
 spent, and its outputs can then be spent again. On the chains below this happens every 501 blocks, as
 soon as the coinbase is mature. Block acceptance refuses the blocks that repeat the coinbase, and only
 these, because the coinbase must start with the height of its block.
 */
module RepeatedIds {
  import opened Ledger
  import opened LedgerUndo
  import opened LedgerValue
  import opened Replay
  import opened CoinbaseHeight
  import opened Examples

  const REPEATED: Hash := 7
  const PERIOD := COINBASE_MATURITY + 1

  /** The coinbase of height `n` has the id `10 + 2 * n`, except for the repeated one, which is that of height one. */
  function Coinbase(id: Hash): Tx {
    Tx(id, 0, 100, [OutPoint(0, 0xFFFF_FFFF)], [TxOut(0, "51")], PushInt(if id < 10 then 1 else (id - 10) / 2))
  }

  function Spend(id: Hash): Tx {
    Tx(id, 0, 100, [OutPoint(REPEATED, 0)], [TxOut(0, "51")], [])
  }

  /** The repeated coinbase one block after each multiple of the period, and a transaction that spends it at each
      multiple. */
  function TxsAt(n: nat): (vtx: seq<Tx>)
    ensures vtx != []
  {
    if n > 0 && n % PERIOD == 0 then [Coinbase(10 + 2 * n), Spend(11 + 2 * n)]
    else if n % PERIOD == 1 then [Coinbase(REPEATED)]
    else [Coinbase(10 + 2 * n)]
  }

  function PlacedAt(n: nat): Placed {
    Placed(Block(n + 1, n, 0, 0, TxsAt(n)), BlockPos(n, 0))
  }

  function ChainOf(n: nat): (chain: seq<Placed>)
    ensures |chain| == n && forall i :: 0 <= i < n ==> chain[i] == PlacedAt(i)
  {
    seq(n, (i: nat) => PlacedAt(i))
  }

  /** Every transaction can be read back by its id. */
  function Archive(): Reader {
    (h: Hash, pos: DiskTxPos) => Some(if h != REPEATED && h % 2 == 1 then Spend(h) else Coinbase(h))
  }

  lemma AllArchived(n: nat)
    ensures AllStored(Archive(), ChainOf(n))
  {
    hide Stored;
    forall i | 0 <= i < n ensures Stored(Archive(), TxsAt(i), BlockPos(i, 0)) {
      BlockArchived(i);
    }
  }

  lemma BlockArchived(n: nat)
    ensures Stored(Archive(), TxsAt(n), BlockPos(n, 0))
  {
    hide TxPos, PushInt;
  }

  /** What the index holds when `n` blocks are connected. */
  ghost predicate IndexAfter(idx: Index, n: nat) {
    && (forall h :: h in idx ==> h == REPEATED || h < 10 + 2 * n)
    && (n <= 1 ==> REPEATED !in idx)
    && (n > 1 ==>
          && REPEATED in idx && |idx[REPEATED].vSpent| == 1
          && BlockPos(idx[REPEATED].pos.nFile, idx[REPEATED].pos.nBlockPos) == BlockPos(n - 1 - (n - 2) % PERIOD, 0)
          && (idx[REPEATED].vSpent[0].Some? <==> (n - 1) % PERIOD == 0))
  }

  lemma CoinbaseIs(id: Hash)
    ensures var tx := Coinbase(id);
            tx.IsCoinBase() && !tx.IsCoinStake() && ValueOut(tx.vout) == 0 && Burned(tx.vout) == 0
              && CheckTransaction(tx)
  {
    assert Coinbase(id).vout[..0] == [];
  }

  lemma SpendIs(id: Hash)
    ensures var tx := Spend(id);
            !tx.IsCoinBase() && !tx.IsCoinStake() && ValueOut(tx.vout) == 0 && Burned(tx.vout) == 0
              && CheckTransaction(tx)
  {
    assert Spend(id).vout[..0] == [];
  }

  lemma BlockPasses(n: nat)
    ensures CheckBlock(Lenient(), PlacedAt(n).block, n) && !PlacedAt(n).block.IsProofOfStake()
  {
    hide CheckTransaction;
    CoinbaseIs(REPEATED);
    CoinbaseIs(10 + 2 * n);
    SpendIs(11 + 2 * n);
  }

  lemma AddCoinbase(base: Index, t: Tally, id: Hash, pos: DiskTxPos, w: Where)
    requires MayOverwrite(base, id)
    ensures ConnectTx(Lenient(), Archive(), base, t, Coinbase(id), pos, w)
         == Some(t.(idx := t.idx[id := FreshEntry(pos, 1)]))
  {
    CoinbaseIs(id);
  }

  lemma AddSpend(base: Index, t: Tally, id: Hash, pos: DiskTxPos, w: Where)
    requires id !in base && REPEATED in t.idx && |t.idx[REPEATED].vSpent| == 1 && t.idx[REPEATED].vSpent[0].None?
    requires BlockPos(t.idx[REPEATED].pos.nFile, t.idx[REPEATED].pos.nBlockPos) !in w.recent
    ensures ConnectTx(Lenient(), Archive(), base, t, Spend(id), pos, w)
         == Some(t.(idx := Mark(t.idx, OutPoint(REPEATED, 0), Some(pos))[id := FreshEntry(pos, 1)]))
  {
    SpendIs(id);
    var tx, o := Spend(id), OutPoint(REPEATED, 0);
    assert tx.vin[..0] == [] && tx.vin[0] == o;
    assert Fetched(Archive(), t.idx, o) && PrevTx(Archive(), t.idx, o) == Coinbase(REPEATED);
    assert ValueIn(Archive(), t.idx, tx.vin) == 0;
    assert InputSane(Archive(), t.idx, tx, 0, w) && InputSigned(Lenient(), Archive(), t.idx, tx, 0, w);
    assert SpendAll(t.idx, [], pos) == Some(t.idx);
    assert SpendAll(t.idx, tx.vin, pos) == Some(Mark(t.idx, o, Some(pos)));
  }

  /** Height `n` is more than the maturity above the last coinbase when it is spent. */
  lemma Ripe(n: nat)
    requires n > 0 && n % PERIOD == 0
    ensures (n - 2) % PERIOD == PERIOD - 2 && (n - 1) % PERIOD != 0 && n >= PERIOD
    ensures BlockPos(n - 1 - (n - 2) % PERIOD, 0) !in TipWhere(ChainOf(n + 1)).recent
  {
    Before(n);
  }

  lemma Before(n: nat)
    requires n > 0 && n % PERIOD == 0
    ensures (n - 2) % PERIOD == PERIOD - 2 && (n - 1) % PERIOD == PERIOD - 1 && n >= PERIOD
  {
  }

  lemma BetweenMultiples(n: nat)
    requires n % PERIOD != 0
    ensures n % PERIOD == 1 ==> (n - 1) % PERIOD == 0
    ensures n % PERIOD != 1 ==> n > 1 && (n - 1) % PERIOD != 0 && (n - 2) % PERIOD == (n - 1) % PERIOD - 1
  {
    if n % PERIOD != 1 {
      assert n == n / PERIOD * PERIOD + n % PERIOD;
    }
  }

  lemma OnlyCoinbase(base: Index, id: Hash, w: Where)
    requires MayOverwrite(base, id)
    ensures var vtx := [Coinbase(id)];
            ConnectTxs(Lenient(), Archive(), base, vtx, w, 1)
                == Some(Start(base[id := FreshEntry(TxPos(w.at, vtx, 0), 1)]))
  {
    hide ConnectTx;
    var vtx := [Coinbase(id)];
    assert ConnectTxs(Lenient(), Archive(), base, vtx, w, 0) == Some(Start(base));
    AddCoinbase(base, Start(base), id, TxPos(w.at, vtx, 0), w);
  }

  /** The index after a coinbase and a transaction that spends the repeated one. */
  ghost function SpentAt(base: Index, id: Hash, vtx: seq<Tx>, w: Where): (idx: Index)
    requires REPEATED in base && |base[REPEATED].vSpent| == 1 && id > REPEATED && |vtx| == 2
  {
    var pos := TxPos(w.at, vtx, 1);
    Mark(base[id := FreshEntry(TxPos(w.at, vtx, 0), 1)], OutPoint(REPEATED, 0), Some(pos))[id + 1 := FreshEntry(pos, 1)]
  }

  lemma CoinbaseAndSpend(base: Index, id: Hash, w: Where)
    requires id !in base && id + 1 !in base && id > REPEATED
    requires REPEATED in base && |base[REPEATED].vSpent| == 1 && base[REPEATED].vSpent[0].None?
    requires BlockPos(base[REPEATED].pos.nFile, base[REPEATED].pos.nBlockPos) !in w.recent
    ensures var vtx := [Coinbase(id), Spend(id + 1)];
            ConnectTxs(Lenient(), Archive(), base, vtx, w, 2) == Some(Start(SpentAt(base, id, vtx, w)))
  {
    hide ConnectTx, TxPos;
    var vtx := [Coinbase(id), Spend(id + 1)];
    assert ConnectTxs(Lenient(), Archive(), base, vtx, w, 0) == Some(Start(base));
    AddCoinbase(base, Start(base), id, TxPos(w.at, vtx, 0), w);
    AddSpend(base, Start(base[id := FreshEntry(TxPos(w.at, vtx, 0), 1)]), id + 1, TxPos(w.at, vtx, 1), w);
  }

  /** A block whose transactions connect without fees is connected. */
  lemma BlockAdvances(base: Index, n: nat, w: Where, idx: Index)
    requires w.height == n && ConnectTxs(Lenient(), Archive(), base, TxsAt(n), w, |TxsAt(n)|) == Some(Start(idx))
    ensures Advance(Lenient(), Archive(), Outcome(base, 0, 0), PlacedAt(n).block, w) == Some(Outcome(idx, 0, 0))
  {
    hide CheckBlock, ConnectTxs;
    BlockPasses(n);
    CoinbaseIs(TxsAt(n)[0].txid);
  }

  lemma CoinbaseNext(base: Index, n: nat, w: Where) returns (idx: Index)
    requires n > 0 && IndexAfter(base, n) && n % PERIOD != 0 && w.at == BlockPos(n, 0)
    ensures ConnectTxs(Lenient(), Archive(), base, TxsAt(n), w, |TxsAt(n)|) == Some(Start(idx))
            && IndexAfter(idx, n + 1)
  {
    hide ConnectTxs, IndexAfter;
    var id := TxsAt(n)[0].txid;
    var entry := FreshEntry(TxPos(w.at, TxsAt(n), 0), 1);
    idx := base[id := entry];
    if n % PERIOD == 1 {
      RepeatIndexed(base, n, entry);
    } else {
      OtherIndexed(base, n, entry);
    }
    OnlyCoinbase(base, id, w);
  }

  lemma RepeatIndexed(base: Index, n: nat, entry: TxIndex)
    requires IndexAfter(base, n) && n % PERIOD == 1 && BlockPos(entry.pos.nFile, entry.pos.nBlockPos) == BlockPos(n, 0)
             && entry.vSpent == [None]
    ensures MayOverwrite(base, REPEATED) && IndexAfter(base[REPEATED := entry], n + 1)
  {
    BetweenMultiples(n);
  }

  lemma OtherIndexed(base: Index, n: nat, entry: TxIndex)
    requires n > 0 && IndexAfter(base, n) && n % PERIOD > 1
    ensures 10 + 2 * n !in base && IndexAfter(base[10 + 2 * n := entry], n + 1)
  {
    BetweenMultiples(n);
  }

  lemma SpendNext(base: Index, n: nat, w: Where) returns (idx: Index)
    requires n > 0 && IndexAfter(base, n) && n % PERIOD == 0 && w == TipWhere(ChainOf(n + 1))
    ensures ConnectTxs(Lenient(), Archive(), base, TxsAt(n), w, |TxsAt(n)|) == Some(Start(idx))
            && IndexAfter(idx, n + 1)
  {
    hide ConnectTxs, TipWhere, SpentAt, Coinbase, Spend;
    Ripe(n);
    CoinbaseAndSpend(base, 10 + 2 * n, w);
    idx := SpentAt(base, 10 + 2 * n, TxsAt(n), w);
    SpendIndexed(base, n, TxsAt(n), w);
  }

  lemma SpendIndexed(base: Index, n: nat, vtx: seq<Tx>, w: Where)
    requires n > 0 && IndexAfter(base, n) && n % PERIOD == 0 && n > 1 && |vtx| == 2
    ensures IndexAfter(SpentAt(base, 10 + 2 * n, vtx, w), n + 1)
  {
    hide TxPos;
    Before(n);
  }

  /** The next block connects. */
  lemma NextConnects(base: Index, n: nat)
    requires n > 0 && IndexAfter(base, n)
    ensures var done := Advance(Lenient(), Archive(), Outcome(base, 0, 0), PlacedAt(n).block, TipWhere(ChainOf(n + 1)));
            done.Some? && done.value.supply == done.value.burned == 0 && IndexAfter(done.value.idx, n + 1)
  {
    hide ConnectTxs, TipWhere, Advance, IndexAfter;
    TipIs(n);
    var w, idx := TipWhere(ChainOf(n + 1)), base;
    if n % PERIOD == 0 {
      idx := SpendNext(base, n, w);
    } else {
      idx := CoinbaseNext(base, n, w);
    }
    BlockAdvances(base, n, w, idx);
  }

  lemma TipIs(n: nat)
    ensures TipWhere(ChainOf(n + 1)).at == BlockPos(n, 0) && TipWhere(ChainOf(n + 1)).height == n
  {
  }

  /** A chain of this kind connects, however long it is. */
  lemma {:induction false} ChainReplays(n: nat)
    ensures var done := ReplayChain(Lenient(), Archive(), ChainOf(n));
            done.Some? && done.value.supply == done.value.burned == 0 && IndexAfter(done.value.idx, n)
  {
    hide Advance, TipWhere;
    if n > 1 {
      ChainReplays(n - 1);
      var chain := ChainOf(n);
      assert chain[..n - 1] == ChainOf(n - 1);
      NextConnects(ReplayChain(Lenient(), Archive(), ChainOf(n - 1)).value.idx, n - 1);
    }
  }

  /** On the chain of 1003 blocks an output is spent at height 501 and again at height 1002. */
  lemma SpentAgain() returns (chain: seq<Placed>)
    ensures ReplayChain(Lenient(), Archive(), chain).Some? && AllStored(Archive(), chain) && |chain| == 1003
    ensures |chain[501].block.vtx| == 2 && !chain[501].block.vtx[1].IsCoinBase()
    ensures |chain[1002].block.vtx| == 2 && !chain[1002].block.vtx[1].IsCoinBase()
    ensures chain[501].block.vtx[1].vin == chain[1002].block.vtx[1].vin == [OutPoint(REPEATED, 0)]
  {
    hide ReplayChain;
    chain := ChainOf(1003);
    ChainReplays(1003);
    AllArchived(1003);
  }

  /** Exactly the blocks that repeat the coinbase fail the test of the height in the coinbase. */
  lemma AcceptanceRefuses(n: nat)
    ensures HasHeight(PlacedAt(n).block, n) <==> n == 1 || n % PERIOD != 1
  {
    hide PushInt;
    var script := TxsAt(n)[0].scriptSig;
    assert script == PushInt(if n % PERIOD == 1 then 1 else n);
    if PushInt(n) <= script && n % PERIOD == 1 {
      HeightsDiffer(n, 1, script);
    }
  }
}
