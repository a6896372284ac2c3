/**
 What it means for a list of pool transactions to make up a block: each connects to the
 index that the ones before it leave behind.
 */
module Assembly {
  import opened Ledger
  import opened LedgerUndo

  /** Stands for the place of a transaction that is not on disk yet. */
  const MINER_POS := DiskTxPos(1, 1, 1)

  type Pool = map<Hash, Tx>

  ghost predicate PoolOk(pool: Pool) {
    forall h :: h in pool ==> pool[h].txid == h
  }

  /** Reads transactions from disk, and those not on disk yet from the pool. */
  function PoolReader(read: Reader, pool: Pool): Reader {
    (h: Hash, pos: DiskTxPos) => if pos == MINER_POS then if h in pool then Some(pool[h]) else None else read(h, pos)
  }

  /** The index and the fees after some transactions. */
  datatype Draft = Draft(idx: Index, fees: int)

  function AssembleOne(r: Rules, rd: Reader, d: Draft, tx: Tx, w: Where): Option<Draft> {
    if tx.IsCoinBase() || !InputsAllowed(r, rd, d.idx, tx, w) then None
    else
      match SpendTx(d.idx, tx, MINER_POS)
      case None => None
      case Some(i) => Some(Draft(i, d.fees + ValueIn(rd, d.idx, tx.vin) - ValueOut(tx.vout)))
  }

  function Assemble(r: Rules, rd: Reader, base: Index, vtx: seq<Tx>, w: Where): Option<Draft> {
    if vtx == [] then Some(Draft(base, 0))
    else
      match Assemble(r, rd, base, vtx[..|vtx| - 1], w)
      case None => None
      case Some(d) => AssembleOne(r, rd, d, vtx[|vtx| - 1], w)
  }

  lemma AssembleSnoc(r: Rules, rd: Reader, base: Index, vtx: seq<Tx>, tx: Tx, w: Where)
    requires Assemble(r, rd, base, vtx, w).Some?
    ensures Assemble(r, rd, base, vtx + [tx], w) == AssembleOne(r, rd, Assemble(r, rd, base, vtx, w).value, tx, w)
  {
    assert (vtx + [tx])[..|vtx|] == vtx;
  }

  lemma {:induction false} AssemblePrefix(r: Rules, rd: Reader, base: Index, vtx: seq<Tx>, w: Where, k: nat)
    requires Assemble(r, rd, base, vtx, w).Some? && k <= |vtx|
    ensures Assemble(r, rd, base, vtx[..k], w).Some?
    ensures k < |vtx| ==> AssembleOne(r, rd, Assemble(r, rd, base, vtx[..k], w).value, vtx[k], w).Some?
    decreases |vtx|
  {
    if k < |vtx| {
      var front := vtx[..|vtx| - 1];
      AssemblePrefix(r, rd, base, front, w, k);
      assert front[..k] == vtx[..k];
      if k == |vtx| - 1 {
        assert vtx[..k] == front;
      }
    } else {
      assert vtx[..k] == vtx;
    }
  }

  // ---------- what is in the index ----------

  lemma {:induction false} AssembledKeys(r: Rules, rd: Reader, base: Index, vtx: seq<Tx>, w: Where)
    requires Assemble(r, rd, base, vtx, w).Some?
    ensures Assemble(r, rd, base, vtx, w).value.idx.Keys == base.Keys + Txids(vtx)
  {
    if vtx != [] {
      var l := |vtx| - 1;
      AssembledKeys(r, rd, base, vtx[..l], w);
      SpendTxKeeps(Assemble(r, rd, base, vtx[..l], w).value.idx, vtx[l], MINER_POS, 0);
      TxidsSnoc(vtx, l);
      assert vtx[..l + 1] == vtx;
    }
  }

  /** Every input comes from the chain or from a transaction earlier in the block. */
  lemma ParentsFirst(r: Rules, rd: Reader, base: Index, vtx: seq<Tx>, w: Where, a: nat, o: OutPoint)
    requires Assemble(r, rd, base, vtx, w).Some? && a < |vtx| && o in vtx[a].vin
    ensures o.hash in base || exists b :: 0 <= b < a && vtx[b].txid == o.hash
  {
    AssemblePrefix(r, rd, base, vtx, w, a);
    var d := Assemble(r, rd, base, vtx[..a], w).value;
    AssembledKeys(r, rd, base, vtx[..a], w);
    assert Fetched(rd, d.idx, o);
    if o.hash !in base {
      assert o.hash in Txids(vtx[..a]);
      var b :| 0 <= b < a && vtx[..a][b].txid == o.hash;
      assert vtx[b].txid == o.hash;
    }
  }

  lemma {:induction false} EarlierSpent(r: Rules, rd: Reader, base: Index, vtx: seq<Tx>, w: Where, b: nat, o: OutPoint)
    requires Assemble(r, rd, base, vtx, w).Some? && DistinctTxids(vtx) && Txids(vtx) !! base.Keys
    requires b < |vtx| && o in vtx[b].vin
    ensures SpentIn(Assemble(r, rd, base, vtx, w).value.idx, o)
    decreases |vtx|
  {
    var l := |vtx| - 1;
    var d := Assemble(r, rd, base, vtx[..l], w).value;
    SpendTxSpends(d.idx, vtx[l], MINER_POS, o);
    NotOwn(r, rd, base, vtx, w, b, o);
    if b < l {
      PrefixIds(vtx, base, l);
      hide Assemble, Txids;
      EarlierSpent(r, rd, base, vtx[..l], w, b, o);
    }
  }

  /** No transaction of the list spends the last one. */
  lemma NotOwn(r: Rules, rd: Reader, base: Index, vtx: seq<Tx>, w: Where, b: nat, o: OutPoint)
    requires Assemble(r, rd, base, vtx, w).Some? && DistinctTxids(vtx) && Txids(vtx) !! base.Keys
    requires b < |vtx| && o in vtx[b].vin
    ensures o.hash != vtx[|vtx| - 1].txid
  {
    ParentsFirst(r, rd, base, vtx, w, b, o);
    assert vtx[|vtx| - 1].txid in Txids(vtx);
  }

  /** No output is spent twice in the block. */
  lemma NoDoubleSpend(r: Rules, rd: Reader, base: Index, vtx: seq<Tx>, w: Where, a: nat, i: nat, b: nat, j: nat)
    requires Assemble(r, rd, base, vtx, w).Some? && DistinctTxids(vtx) && Txids(vtx) !! base.Keys
    requires a < |vtx| && i < |vtx[a].vin| && b < |vtx| && j < |vtx[b].vin| && (b < a || (b == a && j < i))
    ensures vtx[b].vin[j] != vtx[a].vin[i]
  {
    AssemblePrefix(r, rd, base, vtx, w, a);
    var d := Assemble(r, rd, base, vtx[..a], w).value;
    SpendAllMeaning(d.idx, vtx[a].vin, MINER_POS);
    PrefixIds(vtx, base, a);
    if b < a {
      assert vtx[..a][b] == vtx[b];
      EarlierSpent(r, rd, base, vtx[..a], w, b, vtx[b].vin[j]);
    }
  }

  /** Nor is one spent that the chain has spent. */
  lemma NotSpentOnChain(r: Rules, rd: Reader, base: Index, vtx: seq<Tx>, w: Where, a: nat, i: nat)
    requires Assemble(r, rd, base, vtx, w).Some? && DistinctTxids(vtx) && Txids(vtx) !! base.Keys
    requires a < |vtx| && i < |vtx[a].vin| && vtx[a].vin[i].hash in base
    ensures Unspent(base, vtx[a].vin[i])
  {
    AssemblePrefix(r, rd, base, vtx, w, a);
    var d := Assemble(r, rd, base, vtx[..a], w).value;
    SpendAllMeaning(d.idx, vtx[a].vin, MINER_POS);
    PrefixIds(vtx, base, a);
    assert vtx[a].vin[i] in vtx[a].vin;
    StillUnspent(r, rd, base, vtx[..a], w, vtx[a].vin[i]);
  }

  lemma PrefixIds(vtx: seq<Tx>, base: Index, a: nat)
    requires DistinctTxids(vtx) && Txids(vtx) !! base.Keys && a <= |vtx|
    ensures DistinctTxids(vtx[..a]) && Txids(vtx[..a]) !! base.Keys
  {
    forall i | 0 <= i < a ensures vtx[..a][i].txid in Txids(vtx) {
      assert vtx[..a][i] == vtx[i];
    }
  }

  /** What is unspent after the block's transactions was unspent before them. */
  lemma {:induction false} StillUnspent(r: Rules, rd: Reader, base: Index, vtx: seq<Tx>, w: Where, o: OutPoint)
    requires Assemble(r, rd, base, vtx, w).Some? && DistinctTxids(vtx) && Txids(vtx) !! base.Keys
    requires o.hash in base && Unspent(Assemble(r, rd, base, vtx, w).value.idx, o)
    ensures Unspent(base, o)
    decreases |vtx|
  {
    if vtx != [] {
      var l := |vtx| - 1;
      var d := Assemble(r, rd, base, vtx[..l], w).value;
      assert vtx[l].txid in Txids(vtx);
      SpendAllMeaning(d.idx, vtx[l].vin, MINER_POS);
      PrefixIds(vtx, base, l);
      StillUnspent(r, rd, base, vtx[..l], w, o);
    }
  }

  // ---------- values ----------

  /** The value of an output on the chain or, if it is not there, in the pool. */
  ghost function SourceValue(read: Reader, base: Index, pool: Pool, o: OutPoint): int {
    if o.hash in base then
      var tx := read(o.hash, base[o.hash].pos);
      if tx.Some? && o.n < |tx.value.vout| then tx.value.vout[o.n].nValue else 0
    else if o.hash in pool && o.n < |pool[o.hash].vout| then pool[o.hash].vout[o.n].nValue
    else 0
  }

  ghost function InputsWorth(read: Reader, base: Index, pool: Pool, vin: seq<OutPoint>): int {
    if vin == [] then 0
    else InputsWorth(read, base, pool, vin[..|vin| - 1]) + SourceValue(read, base, pool, vin[|vin| - 1])
  }

  ghost function TotalIn(read: Reader, base: Index, pool: Pool, vtx: seq<Tx>): int {
    if vtx == [] then 0
    else TotalIn(read, base, pool, vtx[..|vtx| - 1]) + InputsWorth(read, base, pool, vtx[|vtx| - 1].vin)
  }

  ghost function TotalOut(vtx: seq<Tx>): int {
    if vtx == [] then 0 else TotalOut(vtx[..|vtx| - 1]) + ValueOut(vtx[|vtx| - 1].vout)
  }

  /** Disk positions are never the miner's placeholder. */
  ghost predicate OnDisk(base: Index) {
    forall h :: h in base ==> base[h].pos != MINER_POS
  }

  /** Every listed transaction is the one the pool has under its id. */
  ghost predicate FromPool(pool: Pool, vtx: seq<Tx>) {
    forall i :: 0 <= i < |vtx| ==> vtx[i].txid in pool && pool[vtx[i].txid] == vtx[i]
  }

  /** A pool transaction with the id of one on disk is that transaction, as ids are hashes. */
  ghost predicate SameTransactions(read: Reader, base: Index, pool: Pool, ids: set<Hash>) {
    forall h :: h in ids && h in base ==> h in pool && read(h, base[h].pos) == Some(pool[h])
  }

  lemma {:induction false} Positions(r: Rules, rd: Reader, base: Index, vtx: seq<Tx>, w: Where, h: Hash)
    requires Assemble(r, rd, base, vtx, w).Some? && h in Assemble(r, rd, base, vtx, w).value.idx
    ensures h in base || h in Txids(vtx)
    ensures Assemble(r, rd, base, vtx, w).value.idx[h].pos == if h in Txids(vtx) then MINER_POS else base[h].pos
    decreases |vtx|
  {
    if vtx != [] {
      var l := |vtx| - 1;
      var d := Assemble(r, rd, base, vtx[..l], w).value;
      TxidsSnoc(vtx, l);
      assert vtx[..l + 1] == vtx;
      SpendAllMeaning(d.idx, vtx[l].vin, MINER_POS);
      if h != vtx[l].txid {
        Positions(r, rd, base, vtx[..l], w, h);
      }
    }
  }

  /** What the running index says an input is worth is what its source says. */
  lemma InputValue(r: Rules, read: Reader, pool: Pool, base: Index, vtx: seq<Tx>, w: Where, o: OutPoint)
    requires Assemble(r, PoolReader(read, pool), base, vtx, w).Some? && OnDisk(base)
             && SameTransactions(read, base, pool, Txids(vtx))
    requires Fetched(PoolReader(read, pool), Assemble(r, PoolReader(read, pool), base, vtx, w).value.idx, o)
    ensures PrevValue(PoolReader(read, pool), Assemble(r, PoolReader(read, pool), base, vtx, w).value.idx, o)
            == SourceValue(read, base, pool, o)
  {
    hide Txids;
    Positions(r, PoolReader(read, pool), base, vtx, w, o.hash);
  }

  lemma {:induction false} InputsValue(r: Rules, read: Reader, pool: Pool, base: Index, vtx: seq<Tx>, w: Where,
                                       vin: seq<OutPoint>)
    requires Assemble(r, PoolReader(read, pool), base, vtx, w).Some? && OnDisk(base)
             && SameTransactions(read, base, pool, Txids(vtx))
    requires AllFetched(PoolReader(read, pool), Assemble(r, PoolReader(read, pool), base, vtx, w).value.idx, vin)
    ensures ValueIn(PoolReader(read, pool), Assemble(r, PoolReader(read, pool), base, vtx, w).value.idx, vin)
            == InputsWorth(read, base, pool, vin)
    decreases |vin|
  {
    hide Assemble, PoolReader, Fetched, SourceValue, SameTransactions;
    if vin != [] {
      var l := |vin| - 1;
      InputsValue(r, read, pool, base, vtx, w, vin[..l]);
      InputValue(r, read, pool, base, vtx, w, vin[l]);
    }
  }

  /** The fees are what all inputs together are worth, less all outputs. */
  lemma {:induction false} FeesAreInMinusOut(r: Rules, read: Reader, pool: Pool, base: Index, vtx: seq<Tx>, w: Where)
    requires Assemble(r, PoolReader(read, pool), base, vtx, w).Some? && OnDisk(base)
             && SameTransactions(read, base, pool, Txids(vtx))
    ensures Assemble(r, PoolReader(read, pool), base, vtx, w).value.fees
              == TotalIn(read, base, pool, vtx) - TotalOut(vtx)
    decreases |vtx|
  {
    if vtx != [] {
      var l := |vtx| - 1;
      TxidsSnoc(vtx, l);
      assert vtx[..l + 1] == vtx;
      hide Txids;
      FeesAreInMinusOut(r, read, pool, base, vtx[..l], w);
      InputsValue(r, read, pool, base, vtx[..l], w, vtx[l].vin);
    }
  }

  // ---------- what cannot be added stays out ----------

  /** As far as a transaction's inputs are concerned, `after` is `before` with possibly more outputs spent. */
  ghost predicate OnlyMoreSpent(before: Index, after: Index, vin: seq<OutPoint>) {
    forall o :: o in vin ==>
      && o.hash in before && o.hash in after && after[o.hash].pos == before[o.hash].pos
      && |after[o.hash].vSpent| == |before[o.hash].vSpent|
      && (Unspent(after, o) ==> Unspent(before, o))
  }

  lemma SpendTxOnlySpends(idx: Index, t: Tx, vin: seq<OutPoint>)
    requires !t.IsCoinBase() && SpendTx(idx, t, MINER_POS).Some? && t.txid !in idx
    requires forall o :: o in vin ==> o.hash in idx
    ensures OnlyMoreSpent(idx, SpendTx(idx, t, MINER_POS).value, vin)
  {
    SpendAllMeaning(idx, t.vin, MINER_POS);
  }

  lemma MoreSpentAllows(r: Rules, rd: Reader, before: Index, after: Index, tx: Tx, w: Where)
    requires OnlyMoreSpent(before, after, tx.vin) && InputsAllowed(r, rd, after, tx, w)
    ensures InputsAllowed(r, rd, before, tx, w)
  {
    hide Mature, FeeAllowed;
    forall i | 0 <= i < |tx.vin|
      ensures Fetched(rd, before, tx.vin[i]) && Fetched(rd, after, tx.vin[i])
              && PrevTx(rd, before, tx.vin[i]) == PrevTx(rd, after, tx.vin[i])
                 && before[tx.vin[i].hash].pos == after[tx.vin[i].hash].pos
    {
      assert tx.vin[i] in tx.vin;
    }
    ValueInSame(rd, after, rd, before, tx.vin);
    forall i | 0 <= i < |tx.vin| ensures InputSane(rd, before, tx, i, w) && InputSigned(r, rd, before, tx, i, w) {
      assert InputSane(rd, after, tx, i, w) && InputSigned(r, rd, after, tx, i, w);
    }
  }

  /** What connects after more transactions also connects before them. */
  lemma ConnectsEarlier(r: Rules, rd: Reader, d: Draft, after: Draft, tx: Tx, w: Where)
    requires OnlyMoreSpent(d.idx, after.idx, tx.vin) && AssembleOne(r, rd, after, tx, w).Some?
    ensures AssembleOne(r, rd, d, tx, w).Some?
  {
    hide InputsAllowed;
    MoreSpentAllows(r, rd, d.idx, after.idx, tx, w);
    SpendAllMeaning(d.idx, tx.vin, MINER_POS);
    SpendAllMeaning(after.idx, tx.vin, MINER_POS);
  }

  /** A transaction whose inputs are all known after `k` transactions of a block, and which does not connect there,
      does not connect to the whole block either. */
  lemma {:induction false} StaysUnconnectable(r: Rules, rd: Reader, base: Index, vtx: seq<Tx>, w: Where, k: nat, tx: Tx)
    requires Assemble(r, rd, base, vtx, w).Some? && DistinctTxids(vtx) && Txids(vtx) !! base.Keys && k <= |vtx|
    requires Assemble(r, rd, base, vtx[..k], w).Some?
    requires forall o :: o in tx.vin ==> o.hash in Assemble(r, rd, base, vtx[..k], w).value.idx
    requires AssembleOne(r, rd, Assemble(r, rd, base, vtx[..k], w).value, tx, w).None?
    ensures AssembleOne(r, rd, Assemble(r, rd, base, vtx, w).value, tx, w).None?
    decreases |vtx|
  {
    if k == |vtx| {
      assert vtx[..k] == vtx;
    } else {
      var l := |vtx| - 1;
      var front := vtx[..l];
      assert front[..k] == vtx[..k];
      PrefixIds(vtx, base, l);
      StaysUnconnectable(r, rd, base, front, w, k, tx);
      var d, after := Assemble(r, rd, base, front, w).value, Assemble(r, rd, base, vtx, w).value;
      LastIsNew(r, rd, base, vtx, w);
      KnownStays(r, rd, base, front, w, k, tx.vin);
      hide Assemble, InputsAllowed;
      SpendTxOnlySpends(d.idx, vtx[l], tx.vin);
      if AssembleOne(r, rd, after, tx, w).Some? {
        ConnectsEarlier(r, rd, d, after, tx, w);
      }
    }
  }

  lemma LastIsNew(r: Rules, rd: Reader, base: Index, vtx: seq<Tx>, w: Where)
    requires vtx != [] && Assemble(r, rd, base, vtx, w).Some? && DistinctTxids(vtx) && Txids(vtx) !! base.Keys
    ensures var l := |vtx| - 1; var d := Assemble(r, rd, base, vtx[..l], w);
            && d.Some? && vtx[l].txid !in d.value.idx
               && AssembleOne(r, rd, d.value, vtx[l], w) == Assemble(r, rd, base, vtx, w)
  {
    var l := |vtx| - 1;
    AssembledKeys(r, rd, base, vtx[..l], w);
    assert vtx[l].txid in Txids(vtx);
    forall i | 0 <= i < l ensures vtx[..l][i].txid != vtx[l].txid {
      assert vtx[..l][i] == vtx[i];
    }
  }

  lemma KnownStays(r: Rules, rd: Reader, base: Index, vtx: seq<Tx>, w: Where, k: nat, vin: seq<OutPoint>)
    requires Assemble(r, rd, base, vtx, w).Some? && k <= |vtx| && Assemble(r, rd, base, vtx[..k], w).Some?
    requires forall o :: o in vin ==> o.hash in Assemble(r, rd, base, vtx[..k], w).value.idx
    ensures forall o :: o in vin ==> o.hash in Assemble(r, rd, base, vtx, w).value.idx
  {
    hide Assemble;
    AssembledKeys(r, rd, base, vtx, w);
    AssembledKeys(r, rd, base, vtx[..k], w);
    forall h | h in Txids(vtx[..k]) ensures h in Txids(vtx) {
      var i :| 0 <= i < k && vtx[..k][i].txid == h;
      assert vtx[i].txid == h;
    }
  }

  /** A transaction one of whose inputs the chain has spent cannot be added. */
  lemma SpentStaysOut(r: Rules, rd: Reader, base: Index, vtx: seq<Tx>, w: Where, tx: Tx, o: OutPoint)
    requires Assemble(r, rd, base, vtx, w).Some? && DistinctTxids(vtx) && Txids(vtx) !! base.Keys
    requires o in tx.vin && SpentIn(base, o)
    ensures AssembleOne(r, rd, Assemble(r, rd, base, vtx, w).value, tx, w).None?
  {
    var d := Assemble(r, rd, base, vtx, w).value;
    if AssembleOne(r, rd, d, tx, w).Some? {
      SpendAllMeaning(d.idx, tx.vin, MINER_POS);
      assert Unspent(d.idx, o);
      StillUnspent(r, rd, base, vtx, w, o);
    }
  }
}
