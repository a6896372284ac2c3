/**
 The index, money supply and burned value obtained by connecting a whole chain of
 blocks from the one after genesis, and how an index that lost some fully spent
 entries follows it through further connects and disconnects.
 */
module Replay {
  import opened Ledger
  import opened LedgerUndo
  import opened LedgerValue
  import opened Numbers

  datatype Placed = Placed(block: Block, at: BlockPos)

  datatype Outcome = Outcome(idx: Index, supply: int, burned: int)

  /** Connects one more block. */
  function Advance(r: Rules, read: Reader, s: Outcome, b: Block, w: Where): Option<Outcome> {
    match ConnectBlock(r, read, s.idx, b, w)
    case None => None
    case Some(t) => Some(Outcome(t.idx, s.supply + t.valueOut - t.valueIn - t.burned, s.burned + t.burned))
  }

  function Positions(chain: seq<Placed>): (places: seq<BlockPos>)
    ensures |places| == |chain| && forall i :: 0 <= i < |chain| ==> places[i] == chain[i].at
  {
    seq(|chain|, i requires 0 <= i < |chain| => chain[i].at)
  }

  /** Where the last block of a chain is connected; block `i` of a chain has height `i`. */
  function TipWhere(chain: seq<Placed>): Where
    requires chain != []
  {
    Where(chain[|chain| - 1].at, |chain| - 1, Positions(chain)[Max(0, |chain| - COINBASE_MATURITY)..])
  }

  /** Connects a chain that starts with genesis; genesis itself leaves nothing in the index. */
  function ReplayChain(r: Rules, read: Reader, chain: seq<Placed>): Option<Outcome> {
    if |chain| <= 1 then Some(Outcome(map[], 0, 0))
    else
      match ReplayChain(r, read, chain[..|chain| - 1])
      case None => None
      case Some(s) => Advance(r, read, s, chain[|chain| - 1].block, TipWhere(chain))
  }

  ghost predicate AllStored(read: Reader, chain: seq<Placed>) {
    forall i :: 0 <= i < |chain| ==> Stored(read, chain[i].block.vtx, chain[i].at)
  }

  lemma {:induction false} ReplayPrefix(r: Rules, read: Reader, chain: seq<Placed>, k: nat)
    requires k <= |chain| && ReplayChain(r, read, chain).Some?
    ensures ReplayChain(r, read, chain[..k]).Some?
  {
    if k < |chain| {
      ReplayPrefix(r, read, chain[..|chain| - 1], k);
      assert chain[..|chain| - 1][..k] == chain[..k];
    } else {
      assert chain[..k] == chain;
    }
  }

  // ---------- conservation and issuance over a chain ----------

  /** Conservation: what is unspent equals the money supply plus everything burned. */
  lemma {:induction false} ReplayConserves(r: Rules, read: Reader, chain: seq<Placed>)
    requires AllStored(read, chain) && ReplayChain(r, read, chain).Some?
    ensures var s := ReplayChain(r, read, chain).value;
      Readable(read, s.idx) && Total(read, s.idx) == s.supply + s.burned
  {
    if |chain| > 1 {
      var rest := chain[..|chain| - 1];
      ReplayConserves(r, read, rest);
      BlockConserves(r, read, ReplayChain(r, read, rest).value.idx, chain[|chain| - 1].block, TipWhere(chain));
    }
  }

  /** Value sent to the burn script by the transactions of a block. */
  function BurnedBy(vtx: seq<Tx>): int {
    if vtx == [] then 0 else BurnedBy(vtx[..|vtx| - 1]) + Burned(vtx[|vtx| - 1].vout)
  }

  /** Value sent to the burn script by the blocks of a chain after genesis. */
  function BurnedOn(chain: seq<Placed>): int {
    if |chain| <= 1 then 0 else BurnedOn(chain[..|chain| - 1]) + BurnedBy(chain[|chain| - 1].block.vtx)
  }

  lemma {:induction false} TallyBurned(r: Rules, read: Reader, base: Index, vtx: seq<Tx>, w: Where, k: nat)
    requires k <= |vtx| && ConnectTxs(r, read, base, vtx, w, k).Some?
    ensures ConnectTxs(r, read, base, vtx, w, k).value.burned == BurnedBy(vtx[..k])
  {
    hide SpendTx, InputsAllowed;
    if k != 0 {
      TallyBurned(r, read, base, vtx, w, k - 1);
      assert vtx[..k][..k - 1] == vtx[..k - 1] && vtx[..k][k - 1] == vtx[k - 1];
    }
  }

  lemma AdvanceBurned(r: Rules, read: Reader, s: Outcome, b: Block, w: Where)
    requires Advance(r, read, s, b, w).Some?
    ensures Advance(r, read, s, b, w).value.burned == s.burned + BurnedBy(b.vtx)
  {
    hide ConnectTxs, CheckBlock, RewardAllowed;
    TallyBurned(r, read, s.idx, b.vtx, w, |b.vtx|);
    assert b.vtx[..|b.vtx|] == b.vtx;
  }

  lemma {:induction false} ReplayBurned(r: Rules, read: Reader, chain: seq<Placed>)
    requires ReplayChain(r, read, chain).Some?
    ensures ReplayChain(r, read, chain).value.burned == BurnedOn(chain)
  {
    hide Advance, TipWhere;
    if |chain| > 1 {
      var rest := chain[..|chain| - 1];
      ReplayBurned(r, read, rest);
      AdvanceBurned(r, read, ReplayChain(r, read, rest).value, chain[|chain| - 1].block, TipWhere(chain));
    }
  }

  ghost predicate Replays(r: Rules, read: Reader, chain: seq<Placed>) {
    && AllStored(read, chain)
    && ReplayChain(r, read, chain).Some?
    && Readable(read, ReplayChain(r, read, chain).value.idx)
  }

  ghost function UnspentAfter(r: Rules, read: Reader, chain: seq<Placed>): int
    requires Replays(r, read, chain)
  {
    Total(read, ReplayChain(r, read, chain).value.idx)
  }

  lemma IssuanceStep(r: Rules, read: Reader, chain: seq<Placed>)
    requires Replays(r, read, chain)
    requires |chain| > LOTTERY_END + 2 && chain[|chain| - 1].block.IsProofOfStake()
    ensures Replays(r, read, chain[..|chain| - 1])
    ensures UnspentAfter(r, read, chain) <= UnspentAfter(r, read, chain[..|chain| - 1]) + COIN
  {
    var rest := chain[..|chain| - 1];
    ReplayConserves(r, read, rest);
    StakeIssuance(r, read, ReplayChain(r, read, rest).value.idx, chain[|chain| - 1].block, TipWhere(chain));
  }

  /** Issuance: consecutive proof-of-stake blocks with parents above height 170000 add at most a coin each. */
  lemma {:induction false} IssuanceBound(r: Rules, read: Reader, chain: seq<Placed>, stakes: seq<Placed>)
    requires Replays(r, read, chain + stakes)
    requires |chain| > LOTTERY_END + 1
    requires forall i :: 0 <= i < |stakes| ==> stakes[i].block.IsProofOfStake()
    ensures Replays(r, read, chain)
    ensures UnspentAfter(r, read, chain + stakes) <= UnspentAfter(r, read, chain) + |stakes| * COIN
  {
    if stakes == [] {
      assert chain + stakes == chain;
    } else {
      var all, rest := chain + stakes, stakes[..|stakes| - 1];
      assert all[..|all| - 1] == chain + rest;
      IssuanceStep(r, read, all);
      IssuanceBound(r, read, chain, rest);
      assert |stakes| * COIN == |rest| * COIN + COIN;
    }
  }

  // ---------- the disk only grows ----------

  ghost predicate Extends(read: Reader, more: Reader) {
    forall h, p :: read(h, p).Some? ==> more(h, p) == read(h, p)
  }

  lemma ConnectTxMoreDisk(r: Rules, read: Reader, more: Reader, base: Index, t: Tally, tx: Tx, pos: DiskTxPos, w: Where)
    requires Extends(read, more) && Readable(read, t.idx)
    ensures ConnectTx(r, more, base, t, tx, pos, w) == ConnectTx(r, read, base, t, tx, pos, w)
  {
    forall o | InIndex(t.idx, o)
      ensures Fetched(read, t.idx, o) && Fetched(more, t.idx, o) && PrevTx(more, t.idx, o) == PrevTx(read, t.idx, o)
    {
      assert ReadableEntry(read, o.hash, t.idx[o.hash]);
    }
    if AllFetched(read, t.idx, tx.vin) {
      ValueInSame(read, t.idx, more, t.idx, tx.vin);
      assert forall i :: 0 <= i < |tx.vin| ==>
        && (InputSane(more, t.idx, tx, i, w) <==> InputSane(read, t.idx, tx, i, w))
        && (InputSigned(r, more, t.idx, tx, i, w) <==> InputSigned(r, read, t.idx, tx, i, w));
    } else {
      assert !AllFetched(more, t.idx, tx.vin);
    }
  }

  lemma {:induction false} ConnectTxsMoreDisk(r: Rules, read: Reader, more: Reader, base: Index, vtx: seq<Tx>, w: Where,
                                              k: nat)
    requires Extends(read, more) && Readable(read, base) && Stored(read, vtx, w.at) && DistinctTxids(vtx) && k <= |vtx|
    ensures ConnectTxs(r, more, base, vtx, w, k) == ConnectTxs(r, read, base, vtx, w, k)
  {
    if k != 0 {
      ConnectTxsMoreDisk(r, read, more, base, vtx, w, k - 1);
      if ConnectTxs(r, read, base, vtx, w, k - 1).Some? {
        ConnectTxsValue(r, read, base, vtx, w, k - 1);
        var t := ConnectTxs(r, read, base, vtx, w, k - 1).value;
        ConnectTxMoreDisk(r, read, more, base, t, vtx[k - 1], TxPos(w.at, vtx, k - 1), w);
      }
    }
  }

  lemma AdvanceMoreDisk(r: Rules, read: Reader, more: Reader, s: Outcome, b: Block, w: Where)
    requires Extends(read, more) && Readable(read, s.idx) && Stored(read, b.vtx, w.at)
    ensures Advance(r, more, s, b, w) == Advance(r, read, s, b, w)
  {
    hide ConnectTxs, RewardAllowed;
    if CheckBlock(r, b, w.height) {
      ConnectTxsMoreDisk(r, read, more, s.idx, b.vtx, w, |b.vtx|);
    }
  }

  /** Appending to the block files does not change what replaying a stored chain gives. */
  lemma {:induction false} ReplayMoreDisk(r: Rules, read: Reader, more: Reader, chain: seq<Placed>)
    requires Extends(read, more) && AllStored(read, chain)
    ensures ReplayChain(r, more, chain) == ReplayChain(r, read, chain)
  {
    hide Advance;
    if |chain| > 1 {
      var rest := chain[..|chain| - 1];
      ReplayMoreDisk(r, read, more, rest);
      if ReplayChain(r, read, rest).Some? {
        ReplayConserves(r, read, rest);
        AdvanceMoreDisk(r, read, more, ReplayChain(r, read, rest).value, chain[|chain| - 1].block, TipWhere(chain));
      }
    }
  }

  // ---------- indexes that lost fully spent entries ----------

  /** `idx` is `full` without some of its fully spent entries. */
  ghost predicate UpToSpent(idx: Index, full: Index) {
    && idx.Keys <= full.Keys
    && (forall h :: h in idx ==> idx[h] == full[h])
    && (forall h :: h in full && h !in idx ==> AllSpent(full[h]))
  }

  lemma UpToSpentTotal(read: Reader, idx: Index, full: Index)
    requires UpToSpent(idx, full) && Readable(read, full)
    ensures Readable(read, idx) && Total(read, idx) == Total(read, full)
  {
    hide Total;
    TotalWithoutSpent(read, full, full.Keys - idx.Keys);
    assert full - (full.Keys - idx.Keys) == idx;
  }

  /** A transaction that spends none of the lost entries cannot tell the two indexes apart. */
  lemma SpendUpToSpent(idx: Index, full: Index, vin: seq<OutPoint>, pos: DiskTxPos)
    requires UpToSpent(idx, full)
    ensures SpendAll(idx, vin, pos).Some? <==> SpendAll(full, vin, pos).Some?
    ensures SpendAll(full, vin, pos).Some? ==>
            && (forall o :: o in vin ==> o.hash in idx)
            && UpToSpent(SpendAll(idx, vin, pos).value, SpendAll(full, vin, pos).value)
  {
    SpendAllMeaning(idx, vin, pos);
    SpendAllMeaning(full, vin, pos);
    forall o ensures Unspent(idx, o) <==> Unspent(full, o) {
    }
    if SpendAll(full, vin, pos).Some? {
      var i, f := SpendAll(idx, vin, pos).value, SpendAll(full, vin, pos).value;
      forall o | o in vin ensures o.hash in idx {
        assert Unspent(idx, o);
      }
      forall h | h in i ensures i[h] == f[h] {
        forall n | 0 <= n < |i[h].vSpent| ensures Spender(i, OutPoint(h, n)) == Spender(f, OutPoint(h, n)) {
          assert InIndex(idx, OutPoint(h, n)) && InIndex(full, OutPoint(h, n));
        }
        SameEntry(i, f, h);
      }
      forall h | h in f && h !in i ensures AllSpent(f[h]) {
        SpendKeeps(full, vin, pos, h);
      }
    }
  }

  ghost predicate SameTotals(t: Tally, u: Tally) {
    u == t.(idx := u.idx)
  }

  lemma InputsUpToSpent(r: Rules, read: Reader, idx: Index, full: Index, tx: Tx, w: Where)
    requires UpToSpent(idx, full) && forall o :: o in tx.vin ==> o.hash in idx
    ensures InputsAllowed(r, read, idx, tx, w) <==> InputsAllowed(r, read, full, tx, w)
    ensures InputsAllowed(r, read, full, tx, w) ==> AllFetched(read, full, tx.vin)
    ensures AllFetched(read, idx, tx.vin) <==> AllFetched(read, full, tx.vin)
    ensures AllFetched(read, full, tx.vin) ==> ValueIn(read, idx, tx.vin) == ValueIn(read, full, tx.vin)
  {
    forall i | 0 <= i < |tx.vin|
      ensures tx.vin[i].hash in idx && idx[tx.vin[i].hash] == full[tx.vin[i].hash]
    {
      assert tx.vin[i] in tx.vin;
    }
    if AllFetched(read, full, tx.vin) {
      ValueInSame(read, full, read, idx, tx.vin);
      assert forall i :: 0 <= i < |tx.vin| ==>
        && (InputSane(read, idx, tx, i, w) <==> InputSane(read, full, tx, i, w))
        && (InputSigned(r, read, idx, tx, i, w) <==> InputSigned(r, read, full, tx, i, w));
    }
  }

  /** Connecting a transaction has the same verdict and totals on both indexes. */
  lemma ConnectTxUpToSpent(r: Rules, read: Reader, b: Index, base: Index, u: Tally, t: Tally, tx: Tx, pos: DiskTxPos,
                           w: Where)
    requires UpToSpent(b, base) && UpToSpent(u.idx, t.idx) && SameTotals(t, u)
    ensures var x := ConnectTx(r, read, b, u, tx, pos, w); var y := ConnectTx(r, read, base, t, tx, pos, w);
      && (x.Some? <==> y.Some?)
      && (y.Some? ==> SameTotals(y.value, x.value) && UpToSpent(x.value.idx, y.value.idx))
  {
    hide SpendAll, InputsAllowed, ValueIn;
    if !tx.IsCoinBase() {
      SpendUpToSpent(u.idx, t.idx, tx.vin, pos);
      if SpendAll(t.idx, tx.vin, pos).Some? {
        InputsUpToSpent(r, read, u.idx, t.idx, tx, w);
      }
    }
  }

  lemma {:induction false} ConnectTxsUpToSpent(r: Rules, read: Reader, idx: Index, full: Index, vtx: seq<Tx>, w: Where,
                                               k: nat)
    requires UpToSpent(idx, full) && k <= |vtx|
    ensures var x := ConnectTxs(r, read, idx, vtx, w, k); var y := ConnectTxs(r, read, full, vtx, w, k);
      && (x.Some? <==> y.Some?)
      && (y.Some? ==> SameTotals(y.value, x.value) && UpToSpent(x.value.idx, y.value.idx))
  {
    if k != 0 {
      ConnectTxsUpToSpent(r, read, idx, full, vtx, w, k - 1);
      if ConnectTxs(r, read, full, vtx, w, k - 1).Some? {
        ConnectTxUpToSpent(r, read, idx, full, ConnectTxs(r, read, idx, vtx, w, k - 1).value,
                           ConnectTxs(r, read, full, vtx, w, k - 1).value, vtx[k - 1], TxPos(w.at, vtx, k - 1), w);
      }
    }
  }

  /** The coinstake does not spend from the coinbase of its own block, so it finds the same entries in both indexes. */
  lemma StakeEntriesUpToSpent(r: Rules, read: Reader, idx: Index, full: Index, b: Block, w: Where)
    requires UpToSpent(idx, full) && Stored(read, b.vtx, w.at) && w.at in w.recent
    requires b.IsProofOfStake() && b.vtx[0].IsCoinBase() && ConnectTxs(r, read, full, b.vtx, w, |b.vtx|).Some?
    ensures InputEntries(idx, b.vtx[1].vin) == InputEntries(full, b.vtx[1].vin)
  {
    var vtx, stake := b.vtx, b.vtx[1];
    ConnectTxsPrefix(r, read, full, vtx, w, 2, |vtx|);
    var t := ConnectTxs(r, read, full, vtx, w, 1).value;
    assert t == ConnectTx(r, read, full, ConnectTxs(r, read, full, vtx, w, 0).value, vtx[0], TxPos(w.at, vtx, 0),
             w).value;
    assert t.idx == full[vtx[0].txid := FreshEntry(TxPos(w.at, vtx, 0), |vtx[0].vout|)];
    SpendAllMeaning(t.idx, stake.vin, TxPos(w.at, vtx, 1));
    forall i | 0 <= i < |stake.vin| ensures stake.vin[i].hash in idx {
      var o := stake.vin[i];
      assert o in stake.vin && Unspent(t.idx, o);
      assert InputSane(read, t.idx, stake, i, w);
      assert o.hash != vtx[0].txid;
    }
  }

  /** Connecting a block has the same verdict and totals on both indexes. */
  lemma ConnectBlockUpToSpent(r: Rules, read: Reader, idx: Index, full: Index, b: Block, w: Where)
    requires UpToSpent(idx, full) && Stored(read, b.vtx, w.at) && w.at in w.recent
    ensures var x := ConnectBlock(r, read, idx, b, w); var y := ConnectBlock(r, read, full, b, w);
      && (x.Some? <==> y.Some?)
      && (y.Some? ==> SameTotals(y.value, x.value) && UpToSpent(x.value.idx, y.value.idx))
  {
    ConnectTxsUpToSpent(r, read, idx, full, b.vtx, w, |b.vtx|);
    if CheckBlock(r, b, w.height) && b.IsProofOfStake() && ConnectTxs(r, read, full, b.vtx, w, |b.vtx|).Some? {
      StakeEntriesUpToSpent(r, read, idx, full, b, w);
    }
  }

  /** An entry that a block neither creates nor spends from is the same after it. */
  lemma NoneSpendsBefore(vtx: seq<Tx>, k: nat, gone: set<Hash>)
    requires 0 < k <= |vtx| && NoneSpendsFrom(vtx[..k], gone)
    ensures NoneSpendsFrom(vtx[..k - 1], gone) && SpendsNoneOf(vtx[k - 1], gone)
  {
    hide SpendsNoneOf;
    assert forall i :: 0 <= i < k - 1 ==> vtx[..k][i] == vtx[..k - 1][i];
    assert vtx[..k][k - 1] == vtx[k - 1];
  }

  lemma {:induction false} ConnectTxsUntouched(r: Rules, read: Reader, base: Index, vtx: seq<Tx>, w: Where, k: nat,
                                               h: Hash)
    requires k <= |vtx| && ConnectTxs(r, read, base, vtx, w, k).Some?
    requires h in base && h !in Txids(vtx[..k]) && NoneSpendsFrom(vtx[..k], {h})
    ensures h in ConnectTxs(r, read, base, vtx, w, k).value.idx
    ensures ConnectTxs(r, read, base, vtx, w, k).value.idx[h] == base[h]
  {
    hide SpendTx, InputsAllowed, FeeAllowed, Txids, SpendsNoneOf, NoneSpendsFrom, TxPos, ValueIn, ValueOut, Burned;
    if k != 0 {
      var tx := vtx[k - 1];
      TxidsSnoc(vtx, k - 1);
      NoneSpendsBefore(vtx, k, {h});
      ConnectTxsUntouched(r, read, base, vtx, w, k - 1, h);
      var idx := ConnectTxs(r, read, base, vtx, w, k - 1).value.idx;
      SpendTxKeeps(idx, tx, TxPos(w.at, vtx, k - 1), h);
    }
  }

  lemma OverwrittenWasSpent(r: Rules, read: Reader, full: Index, b: Block, w: Where, h: Hash)
    requires ConnectBlock(r, read, full, b, w).Some? && h in full && h in Txids(b.vtx)
    ensures AllSpent(full[h])
  {
    var i :| 0 <= i < |b.vtx| && b.vtx[i].txid == h;
    ConnectTxsPrefix(r, read, full, b.vtx, w, i + 1, |b.vtx|);
  }

  /** If disconnecting a block succeeds at all, it leads back to the index before it, up to fully spent entries. */
  lemma DisconnectUpToSpent(r: Rules, read: Reader, idx: Index, full: Index, b: Block, w: Where)
    requires ConnectBlock(r, read, full, b, w).Some?
    requires UpToSpent(idx, ConnectBlock(r, read, full, b, w).value.idx)
    requires DisconnectTxs(idx, b.vtx).Some?
    ensures UpToSpent(DisconnectTxs(idx, b.vtx).value, full)
  {
    var after, n := ConnectBlock(r, read, full, b, w).value.idx, |b.vtx|;
    var gone := after.Keys - idx.Keys;
    assert after - gone == idx && b.vtx[..n] == b.vtx;
    UndoTxs(r, read, full, b.vtx, w, n, gone);
    var back := full - gone - Txids(b.vtx);
    forall h | h in full && h !in back ensures AllSpent(full[h]) {
      if h in Txids(b.vtx) {
        OverwrittenWasSpent(r, read, full, b, w, h);
      } else {
        assert NoneSpendsFrom(b.vtx, {h}) by {
          assert forall i :: 0 <= i < n && SpendsNoneOf(b.vtx[i], gone) ==> SpendsNoneOf(b.vtx[i], {h});
        }
        ConnectTxsUntouched(r, read, full, b.vtx, w, n, h);
      }
    }
  }

  /** Without repeated transaction ids the way back is exact. */
  lemma DisconnectExactly(r: Rules, read: Reader, full: Index, b: Block, w: Where)
    requires ConnectBlock(r, read, full, b, w).Some? && Txids(b.vtx) !! full.Keys
    ensures DisconnectTxs(ConnectBlock(r, read, full, b, w).value.idx, b.vtx) == Some(full)
  {
    DisconnectUndoesConnect(r, read, full, b, w);
  }

  // ---------- transaction ids of a chain ----------

  /** No transaction id occurs in two blocks of the chain. */
  ghost predicate NoRepeats(chain: seq<Placed>) {
    forall i, j :: 0 <= i < j < |chain| ==> Txids(chain[i].block.vtx) !! Txids(chain[j].block.vtx)
  }

  /** The index of a replayed chain holds only transactions of the chain. */
  lemma {:induction false} ReplayKeys(r: Rules, read: Reader, chain: seq<Placed>, h: Hash)
    requires ReplayChain(r, read, chain).Some? && h in ReplayChain(r, read, chain).value.idx
    ensures exists i :: 0 <= i < |chain| && h in Txids(chain[i].block.vtx)
  {
    var rest, vtx := chain[..|chain| - 1], chain[|chain| - 1].block.vtx;
    if h !in Txids(vtx) {
      ConnectTxsKeeps(r, read, ReplayChain(r, read, rest).value.idx, vtx, TipWhere(chain), |vtx|, h);
      assert vtx[..|vtx|] == vtx;
      ReplayKeys(r, read, rest, h);
      var i :| 0 <= i < |rest| && h in Txids(rest[i].block.vtx);
      assert rest[i] == chain[i];
    }
  }

  /** The tip of a chain without repeats can be disconnected exactly. */
  lemma TipDisconnects(r: Rules, read: Reader, chain: seq<Placed>)
    requires |chain| > 1 && ReplayChain(r, read, chain).Some? && NoRepeats(chain)
    ensures ReplayChain(r, read, chain[..|chain| - 1]).Some?
    ensures DisconnectTxs(ReplayChain(r, read, chain).value.idx, chain[|chain| - 1].block.vtx)
            == Some(ReplayChain(r, read, chain[..|chain| - 1]).value.idx)
  {
    var rest, vtx := chain[..|chain| - 1], chain[|chain| - 1].block.vtx;
    var before := ReplayChain(r, read, rest).value.idx;
    forall h | h in before ensures h !in Txids(vtx) {
      ReplayKeys(r, read, rest, h);
      var i :| 0 <= i < |rest| && h in Txids(rest[i].block.vtx);
      assert rest[i] == chain[i];
    }
    DisconnectExactly(r, read, before, chain[|chain| - 1].block, TipWhere(chain));
  }
}
