/**
 Value in the transaction index: connecting a block changes the unspent total by exactly
 the value its transactions create minus the value they consume, and a proof-of-stake
 block after the lottery era creates at most one coin.
 */
module LedgerValue {
  import opened Ledger
  import opened LedgerUndo

  /** Every entry can be read back and has one marker per output. */
  ghost predicate Readable(read: Reader, idx: Index) {
    forall h :: h in idx ==> ReadableEntry(read, h, idx[h])
  }

  ghost predicate ReadableEntry(read: Reader, h: Hash, e: TxIndex) {
    read(h, e.pos).Some? && |read(h, e.pos).value.vout| == |e.vSpent|
  }

  /** The transactions of a block stored at `at` are read back from their positions. */
  ghost predicate Stored(read: Reader, vtx: seq<Tx>, at: BlockPos) {
    forall i :: 0 <= i < |vtx| ==> read(vtx[i].txid, TxPos(at, vtx, i)) == Some(vtx[i])
  }

  ghost function UnspentValue(vout: seq<TxOut>, vSpent: seq<Option<DiskTxPos>>): int
    requires |vout| == |vSpent|
    decreases |vout|
  {
    if vout == [] then 0
    else
      var k := |vout| - 1;
      UnspentValue(vout[..k], vSpent[..k]) + if vSpent[k].None? then vout[k].nValue else 0
  }

  ghost function EntryValue(read: Reader, h: Hash, e: TxIndex): int
    requires ReadableEntry(read, h, e)
  {
    UnspentValue(read(h, e.pos).value.vout, e.vSpent)
  }

  ghost function AnyKey(idx: Index): (h: Hash)
    requires idx != map[]
    ensures h in idx
  {
    var h :| h in idx;
    h
  }

  /** Total value of the outputs marked unspent. */
  ghost function Total(read: Reader, idx: Index): int
    requires Readable(read, idx)
    decreases |idx|
  {
    if idx == map[] then 0
    else
      var h := AnyKey(idx);
      EntryValue(read, h, idx[h]) + Total(read, idx - {h})
  }

  /** The total does not depend on the order in which entries are added up. */
  lemma {:induction false} TotalSplit(read: Reader, idx: Index, h: Hash)
    requires Readable(read, idx) && h in idx
    ensures Total(read, idx) == EntryValue(read, h, idx[h]) + Total(read, idx - {h})
    decreases |idx|
  {
    var g := AnyKey(idx);
    if g != h {
      var a, b := idx - {g}, idx - {h};
      assert a.Keys == idx.Keys - {g} && b.Keys == idx.Keys - {h};
      assert a - {h} == b - {g};
      TotalSplit(read, a, h);
      TotalSplit(read, b, g);
    }
  }

  lemma TotalUpdate(read: Reader, idx: Index, h: Hash, e: TxIndex)
    requires Readable(read, idx) && ReadableEntry(read, h, e)
    ensures Readable(read, idx[h := e])
    ensures Total(read, idx[h := e])
            == Total(read, idx) + EntryValue(read, h, e) - if h in idx then EntryValue(read, h, idx[h]) else 0
  {
    TotalSplit(read, idx[h := e], h);
    assert idx[h := e] - {h} == idx - {h};
    if h in idx {
      TotalSplit(read, idx, h);
    } else {
      assert idx - {h} == idx;
    }
  }

  lemma {:induction false} UnspentValueMark(vout: seq<TxOut>, vSpent: seq<Option<DiskTxPos>>, n: nat, pos: DiskTxPos)
    requires |vout| == |vSpent| && n < |vSpent| && vSpent[n].None?
    ensures UnspentValue(vout, vSpent[n := Some(pos)]) == UnspentValue(vout, vSpent) - vout[n].nValue
    decreases |vout|
  {
    var k := |vout| - 1;
    if n < k {
      UnspentValueMark(vout[..k], vSpent[..k], n, pos);
      assert vSpent[n := Some(pos)][..k] == vSpent[..k][n := Some(pos)];
    } else {
      assert vSpent[n := Some(pos)][..k] == vSpent[..k];
    }
  }

  lemma {:induction false} UnspentValueFresh(vout: seq<TxOut>, vSpent: seq<Option<DiskTxPos>>)
    requires |vout| == |vSpent| && forall n :: 0 <= n < |vSpent| ==> vSpent[n].None?
    ensures UnspentValue(vout, vSpent) == ValueOut(vout)
    decreases |vout|
  {
    if vout != [] {
      UnspentValueFresh(vout[..|vout| - 1], vSpent[..|vout| - 1]);
    }
  }

  lemma {:induction false} UnspentValueSpent(vout: seq<TxOut>, vSpent: seq<Option<DiskTxPos>>)
    requires |vout| == |vSpent| && forall n :: 0 <= n < |vSpent| ==> vSpent[n].Some?
    ensures UnspentValue(vout, vSpent) == 0
    decreases |vout|
  {
    if vout != [] {
      UnspentValueSpent(vout[..|vout| - 1], vSpent[..|vout| - 1]);
    }
  }

  lemma {:induction false} SpendAllValue(read: Reader, idx: Index, vin: seq<OutPoint>, pos: DiskTxPos)
    requires Readable(read, idx) && AllFetched(read, idx, vin) && SpendAll(idx, vin, pos).Some?
    ensures Readable(read, SpendAll(idx, vin, pos).value)
    ensures Total(read, SpendAll(idx, vin, pos).value) == Total(read, idx) - ValueIn(read, idx, vin)
  {
    if vin != [] {
      var rest, o := vin[..|vin| - 1], vin[|vin| - 1];
      assert forall i :: 0 <= i < |rest| ==> rest[i] == vin[i];
      SpendAllValue(read, idx, rest, pos);
      SpendAllMeaning(idx, rest, pos);
      var i := SpendAll(idx, rest, pos).value;
      assert Fetched(read, idx, o) && i[o.hash].pos == idx[o.hash].pos;
      UnspentValueMark(read(o.hash, i[o.hash].pos).value.vout, i[o.hash].vSpent, o.n, pos);
      TotalUpdate(read, i, o.hash, i[o.hash].(vSpent := i[o.hash].vSpent[o.n := Some(pos)]));
    }
  }

  /** One transaction moves the total by what it creates minus what it consumes. */
  lemma ConnectTxValue(r: Rules, read: Reader, base: Index, t: Tally, tx: Tx, pos: DiskTxPos, w: Where)
    requires Readable(read, t.idx) && read(tx.txid, pos) == Some(tx)
    requires tx.txid in t.idx ==> AllSpent(t.idx[tx.txid])
    requires ConnectTx(r, read, base, t, tx, pos, w).Some?
    ensures var t' := ConnectTx(r, read, base, t, tx, pos, w).value;
      && Readable(read, t'.idx)
      && Total(read, t'.idx) - t'.valueOut + t'.valueIn == Total(read, t.idx) - t.valueOut + t.valueIn
  {
    var e := FreshEntry(pos, |tx.vout|);
    UnspentValueFresh(tx.vout, e.vSpent);
    var idx := t.idx;
    if !tx.IsCoinBase() {
      SpendAllValue(read, t.idx, tx.vin, pos);
      idx := SpendAll(t.idx, tx.vin, pos).value;
      if tx.txid in t.idx {
        SpendKeeps(t.idx, tx.vin, pos, tx.txid);
      }
      SpendAllMeaning(t.idx, tx.vin, pos);
    }
    if tx.txid in idx {
      UnspentValueSpent(read(tx.txid, idx[tx.txid].pos).value.vout, idx[tx.txid].vSpent);
    }
    TotalUpdate(read, idx, tx.txid, e);
  }

  lemma {:induction false} ConnectTxsValue(r: Rules, read: Reader, base: Index, vtx: seq<Tx>, w: Where, k: nat)
    requires Readable(read, base) && Stored(read, vtx, w.at) && DistinctTxids(vtx)
    requires k <= |vtx| && ConnectTxs(r, read, base, vtx, w, k).Some?
    ensures var t := ConnectTxs(r, read, base, vtx, w, k).value;
      Readable(read, t.idx) && Total(read, t.idx) == Total(read, base) + t.valueOut - t.valueIn
  {
    hide SpendTx, InputsAllowed;
    if k != 0 {
      ConnectTxsValue(r, read, base, vtx, w, k - 1);
      ConnectTxsKeeps(r, read, base, vtx, w, k - 1, vtx[k - 1].txid);
      var t := ConnectTxs(r, read, base, vtx, w, k - 1).value;
      ConnectTxValue(r, read, base, t, vtx[k - 1], TxPos(w.at, vtx, k - 1), w);
    }
  }

  /** Conservation for one block, also when it overwrites fully spent transactions. */
  lemma BlockConserves(r: Rules, read: Reader, base: Index, b: Block, w: Where)
    requires Readable(read, base) && Stored(read, b.vtx, w.at)
    requires ConnectBlock(r, read, base, b, w).Some?
    ensures var t := ConnectBlock(r, read, base, b, w).value;
      Readable(read, t.idx) && Total(read, t.idx) == Total(read, base) + t.valueOut - t.valueIn
  {
    ConnectTxsValue(r, read, base, b.vtx, w, |b.vtx|);
  }

  /** Entries that are fully spent carry no value, so losing them does not change the total. */
  lemma {:induction false} TotalWithoutSpent(read: Reader, idx: Index, gone: set<Hash>)
    requires Readable(read, idx)
    requires forall h :: h in gone && h in idx ==> AllSpent(idx[h])
    ensures Readable(read, idx - gone) && Total(read, idx - gone) == Total(read, idx)
    decreases |gone|
  {
    if gone != {} {
      var h :| h in gone;
      TotalWithoutSpent(read, idx, gone - {h});
      var mid := idx - (gone - {h});
      assert idx - gone == mid - {h};
      if h in idx {
        TotalSplit(read, mid, h);
        UnspentValueSpent(read(h, idx[h].pos).value.vout, idx[h].vSpent);
      } else {
        assert mid - {h} == mid;
      }
    } else {
      assert idx - gone == idx;
    }
  }

  /** What is sent to the burn address, and nothing else, counts as burned. */
  lemma {:induction false} BurnedMeans(a: seq<TxOut>, b: seq<TxOut>, out: TxOut)
    ensures Burned([out]) == if out.script == "76a9142c2a57256197df6a1c7d6f14daccf4c3dcf4de4288ac" then out.nValue
            else 0
    ensures Burned(a + b) == Burned(a) + Burned(b) && ValueOut(a + b) == ValueOut(a) + ValueOut(b)
    ensures ValueOut([out]) == out.nValue
    decreases |b|
  {
    assert [out][..0] == [];
    if b == [] {
      assert a + b == a;
    } else {
      var l := |b| - 1;
      BurnedMeans(a, b[..l], out);
      assert (a + b)[..|a| + l] == a + b[..l];
    }
  }

  /** Transactions lie behind one another, the first one after the 80 bytes of the header and the length of the list. */
  lemma PlacesFollow(at: BlockPos, vtx: seq<Tx>, i: nat)
    requires i < |vtx|
    ensures TxPos(at, vtx, 0) == DiskTxPos(at.nFile, at.nBlockPos, at.nBlockPos + 80 + CompactSizeLength(|vtx|))
    ensures i + 1 < |vtx| ==>
              TxPos(at, vtx, i + 1) == TxPos(at, vtx, i).(nTxPos := TxPos(at, vtx, i).nTxPos + vtx[i].nSize)
  {
    assert vtx[..i + 1][..i] == vtx[..i] && vtx[..0] == [];
  }

  // ---------- issuance ----------

  /** A transaction that is no coinbase creates, beyond its inputs, its stake reward or minus its fee. */
  lemma StakeTallyStep(r: Rules, read: Reader, base: Index, t: Tally, tx: Tx, pos: DiskTxPos, w: Where)
    requires ConnectTx(r, read, base, t, tx, pos, w).Some?
    requires tx.IsCoinBase() ==> ValueOut(tx.vout) == 0
    requires tx.IsCoinStake() ==> t.stakeReward == 0
    requires t.valueOut - t.valueIn == t.stakeReward - t.fees
    ensures var t' := ConnectTx(r, read, base, t, tx, pos, w).value;
      t'.valueOut - t'.valueIn == t'.stakeReward - t'.fees && (!tx.IsCoinStake() ==> t'.stakeReward == t.stakeReward)
  {
  }

  lemma EmptyOutput(vout: seq<TxOut>)
    requires |vout| == 1 && vout[0].IsEmpty()
    ensures ValueOut(vout) == 0
  {
    assert vout[..0] == [];
  }

  /** In a proof-of-stake block everything created beyond the inputs is the stake reward minus the fees. */
  lemma {:induction false} StakeTally(r: Rules, read: Reader, base: Index, b: Block, w: Where, k: nat)
    requires CheckBlock(r, b, w.height) && b.IsProofOfStake()
    requires k <= |b.vtx| && ConnectTxs(r, read, base, b.vtx, w, k).Some?
    ensures var t := ConnectTxs(r, read, base, b.vtx, w, k).value;
      t.valueOut - t.valueIn == t.stakeReward - t.fees && (k <= 1 ==> t.stakeReward == 0)
  {
    hide ConnectTx;
    if k != 0 {
      StakeTally(r, read, base, b, w, k - 1);
      EmptyOutput(b.vtx[0].vout);
      var t := ConnectTxs(r, read, base, b.vtx, w, k - 1).value;
      StakeTallyStep(r, read, base, t, b.vtx[k - 1], TxPos(w.at, b.vtx, k - 1), w);
    }
  }

  /** A proof-of-stake block whose parent is above height 170000 raises the total by at most one coin. */
  lemma StakeIssuance(r: Rules, read: Reader, base: Index, b: Block, w: Where)
    requires Readable(read, base) && Stored(read, b.vtx, w.at)
    requires ConnectBlock(r, read, base, b, w).Some?
    requires b.IsProofOfStake() && w.height - 1 > LOTTERY_END
    ensures var t := ConnectBlock(r, read, base, b, w).value;
      Readable(read, t.idx) && Total(read, t.idx) <= Total(read, base) + COIN
  {
    BlockConserves(r, read, base, b, w);
    StakeTally(r, read, base, b, w, |b.vtx|);
  }

  /** What a proof-of-stake block may create at most: by coin age up to parent height 33999, what the lottery gives up
      to 170000, one coin above. */
  lemma StakeIssuanceByEra(r: Rules, read: Reader, base: Index, b: Block, w: Where)
    requires Readable(read, base) && Stored(read, b.vtx, w.at)
    requires ConnectBlock(r, read, base, b, w).Some? && b.IsProofOfStake()
    ensures var t := ConnectBlock(r, read, base, b, w).value; var parent := w.height - 1;
            var age := r.coinAge(b.vtx[1], InputEntries(base, b.vtx[1].vin));
            && age.Some? && Readable(read, t.idx)
            && Total(read, t.idx) - Total(read, base)
               <= (if parent < 34000 then age.value * 1_000_000 * 33 / (365 * 33 + 8)
                   else if parent <= 170000 then r.lottery(b.hashPrev) else 100_000_000)
  {
    hide InputEntries, ConnectTxs, Total, Readable;
    BlockConserves(r, read, base, b, w);
    StakeTally(r, read, base, b, w, |b.vtx|);
  }

  /** In a block without coinstakes everything created beyond the inputs is the coinbase's outputs minus the fees. */
  lemma {:induction false} WorkTally(r: Rules, read: Reader, base: Index, b: Block, w: Where, k: nat)
    requires CheckBlock(r, b, w.height) && forall i :: 0 <= i < |b.vtx| ==> !b.vtx[i].IsCoinStake()
    requires k <= |b.vtx| && ConnectTxs(r, read, base, b.vtx, w, k).Some?
    ensures var t := ConnectTxs(r, read, base, b.vtx, w, k).value;
      t.valueOut - t.valueIn == (if k == 0 then 0 else ValueOut(b.vtx[0].vout)) - t.fees
  {
    hide SpendTx, InputsAllowed, ValueOut, ValueIn, Burned;
    if k != 0 {
      WorkTally(r, read, base, b, w, k - 1);
    }
  }

  /** A proof-of-work block without coinstakes creates at most 3284 coins below height 4551 and 2.15652173 from there
      on. */
  lemma WorkIssuance(r: Rules, read: Reader, base: Index, b: Block, w: Where)
    requires Readable(read, base) && Stored(read, b.vtx, w.at)
    requires ConnectBlock(r, read, base, b, w).Some?
    requires forall i :: 0 <= i < |b.vtx| ==> !b.vtx[i].IsCoinStake()
    ensures var t := ConnectBlock(r, read, base, b, w).value;
            && Readable(read, t.idx)
            && Total(read, t.idx) - Total(read, base) <= (if w.height < 4551 then 328_400_000_000 else 215_652_173)
  {
    hide ConnectTxs, Total, Readable;
    BlockConserves(r, read, base, b, w);
    WorkTally(r, read, base, b, w, |b.vtx|);
  }
}
