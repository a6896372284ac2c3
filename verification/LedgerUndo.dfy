/**
 Disconnecting a block undoes connecting it: exactly, except that a fully spent
 transaction which the block overwrote is not brought back.
 */
module LedgerUndo {
  import opened Ledger

  ghost function Spender(idx: Index, o: OutPoint): Option<DiskTxPos>
    requires InIndex(idx, o)
  {
    idx[o.hash].vSpent[o.n]
  }

  ghost predicate Unspent(idx: Index, o: OutPoint) {
    InIndex(idx, o) && Spender(idx, o).None?
  }

  /** The same transactions, stored at the same places, with the same numbers of outputs. */
  ghost predicate SameShape(before: Index, after: Index) {
    && after.Keys == before.Keys
    && forall h :: h in before ==> after[h].pos == before[h].pos && |after[h].vSpent| == |before[h].vSpent|
  }

  /** `after` is `before` with the spent marker of exactly the outpoints in `vin` set to `s`. */
  ghost predicate Marked(before: Index, after: Index, vin: seq<OutPoint>, s: Option<DiskTxPos>) {
    && SameShape(before, after)
    && forall o :: InIndex(before, o) ==> Spender(after, o) == if o in vin then s else Spender(before, o)
  }

  lemma MarkStep(before: Index, after: Index, vin: seq<OutPoint>, o: OutPoint, s: Option<DiskTxPos>)
    requires Marked(before, after, vin, s) && InIndex(after, o)
    ensures Marked(before, Mark(after, o, s), vin + [o], s)
  {
    var next := Mark(after, o, s);
    forall p | InIndex(before, p)
      ensures Spender(next, p) == if p in vin + [o] then s else Spender(before, p)
    {
      assert InIndex(after, p);
    }
  }

  lemma SameEntry(x: Index, y: Index, h: Hash)
    requires h in x && h in y && x[h].pos == y[h].pos && |x[h].vSpent| == |y[h].vSpent|
    requires forall n :: 0 <= n < |x[h].vSpent| ==> Spender(x, OutPoint(h, n)) == Spender(y, OutPoint(h, n))
    ensures x[h] == y[h]
  {
    assert forall n :: 0 <= n < |x[h].vSpent| ==>
      x[h].vSpent[n] == Spender(x, OutPoint(h, n)) && y[h].vSpent[n] == Spender(y, OutPoint(h, n));
    assert x[h].vSpent == y[h].vSpent;
  }

  ghost predicate Distinct(vin: seq<OutPoint>) {
    forall i, j :: 0 <= i < j < |vin| ==> vin[i] != vin[j]
  }

  ghost predicate Spendable(idx: Index, vin: seq<OutPoint>) {
    Distinct(vin) && forall o :: o in vin ==> Unspent(idx, o)
  }

  lemma SpendableSnoc(idx: Index, vin: seq<OutPoint>, o: OutPoint)
    ensures Spendable(idx, vin + [o]) <==> Spendable(idx, vin) && Unspent(idx, o) && o !in vin
  {
    var all := vin + [o];
    assert all[|vin|] == o && forall i :: 0 <= i < |vin| ==> all[i] == vin[i];
    if Spendable(idx, all) {
      assert o in all && forall p :: p in vin ==> p in all;
    }
  }

  /** Spending succeeds exactly on distinct unspent outpoints, and changes their markers only. */
  lemma {:induction false} SpendAllMeaning(idx: Index, vin: seq<OutPoint>, pos: DiskTxPos)
    ensures SpendAll(idx, vin, pos).Some? <==> Spendable(idx, vin)
    ensures SpendAll(idx, vin, pos).Some? ==> Marked(idx, SpendAll(idx, vin, pos).value, vin, Some(pos))
  {
    if vin != [] {
      var rest, o := vin[..|vin| - 1], vin[|vin| - 1];
      SpendAllMeaning(idx, rest, pos);
      SpendableSnoc(idx, rest, o);
      assert vin == rest + [o];
      if SpendAll(idx, rest, pos).Some? {
        var i := SpendAll(idx, rest, pos).value;
        assert InIndex(i, o) <==> InIndex(idx, o);
        if InIndex(i, o) {
          MarkStep(idx, i, rest, o, Some(pos));
        }
      }
    }
  }

  /** Unspending succeeds exactly on known outpoints, and clears their markers only. */
  lemma {:induction false} UnspendAllMeaning(idx: Index, vin: seq<OutPoint>)
    ensures UnspendAll(idx, vin).Some? <==> forall o :: o in vin ==> InIndex(idx, o)
    ensures UnspendAll(idx, vin).Some? ==> Marked(idx, UnspendAll(idx, vin).value, vin, None)
  {
    if vin != [] {
      var rest, o := vin[..|vin| - 1], vin[|vin| - 1];
      UnspendAllMeaning(idx, rest);
      assert vin == rest + [o];
      assert forall p :: p in vin <==> p in rest || p == o;
      if UnspendAll(idx, rest).Some? {
        var i := UnspendAll(idx, rest).value;
        assert InIndex(i, o) <==> InIndex(idx, o);
        if InIndex(i, o) {
          MarkStep(idx, i, rest, o, None);
        }
      }
    }
  }

  ghost predicate SpendsNoneOf(tx: Tx, gone: set<Hash>) {
    tx.IsCoinBase() || forall o :: o in tx.vin ==> o.hash !in gone
  }

  /** Marking distinct unspent outpoints as spent and then clearing them leaves every entry as it was. */
  lemma MarkRoundTrip(idx: Index, spent: Index, cut: Index, back: Index, vin: seq<OutPoint>, pos: DiskTxPos, h: Hash)
    requires Marked(idx, spent, vin, Some(pos)) && Marked(cut, back, vin, None) && Spendable(idx, vin)
    requires h in cut && h in spent && cut[h] == spent[h]
    ensures h in back && back[h] == idx[h]
  {
    forall n | 0 <= n < |idx[h].vSpent| ensures Spender(back, OutPoint(h, n)) == Spender(idx, OutPoint(h, n)) {
      var o := OutPoint(h, n);
      assert InIndex(idx, o) && InIndex(cut, o) && Spender(cut, o) == Spender(spent, o);
      if o in vin {
        assert Unspent(idx, o);
      }
    }
    SameEntry(back, idx, h);
  }

  /** Undoing one transaction on an index that lost the entries `gone`. */
  lemma UndoTx(idx: Index, tx: Tx, pos: DiskTxPos, gone: set<Hash>)
    requires SpendTx(idx, tx, pos).Some?
    requires SpendsNoneOf(tx, {tx.txid})
    ensures DisconnectTx(SpendTx(idx, tx, pos).value - gone, tx).Some? <==> SpendsNoneOf(tx, gone)
    ensures SpendsNoneOf(tx, gone) ==>
            DisconnectTx(SpendTx(idx, tx, pos).value - gone, tx).value == idx - gone - {tx.txid}
  {
    var after := SpendTx(idx, tx, pos).value;
    var cut := after - gone;
    if !tx.IsCoinBase() {
      SpendAllMeaning(idx, tx.vin, pos);
      UnspendAllMeaning(cut, tx.vin);
      var spent := SpendAll(idx, tx.vin, pos).value;
      forall o | o in tx.vin ensures InIndex(cut, o) <==> o.hash !in gone {
        assert Unspent(idx, o) && o.hash != tx.txid;
      }
      if SpendsNoneOf(tx, gone) {
        var back := UnspendAll(cut, tx.vin).value;
        var goal := idx - gone - {tx.txid};
        assert back.Keys - {tx.txid} == goal.Keys;
        forall h | h in goal ensures back[h] == idx[h] {
          MarkRoundTrip(idx, spent, cut, back, tx.vin, pos, h);
        }
        assert back - {tx.txid} == goal;
      }
    } else {
      assert cut - {tx.txid} == idx - gone - {tx.txid};
    }
  }

  /** A fully spent entry is not changed by spending, nor is one that is not spent from. */
  lemma SpendKeeps(idx: Index, vin: seq<OutPoint>, pos: DiskTxPos, h: Hash)
    requires SpendAll(idx, vin, pos).Some? && h in idx
    requires AllSpent(idx[h]) || forall o :: o in vin ==> o.hash != h
    ensures SpendAll(idx, vin, pos).value.Keys == idx.Keys
    ensures SpendAll(idx, vin, pos).value[h] == idx[h]
  {
    SpendAllMeaning(idx, vin, pos);
    var after := SpendAll(idx, vin, pos).value;
    forall n | 0 <= n < |idx[h].vSpent| ensures Spender(after, OutPoint(h, n)) == Spender(idx, OutPoint(h, n)) {
      var o := OutPoint(h, n);
      assert InIndex(idx, o) && (o in vin ==> Unspent(idx, o));
    }
    SameEntry(after, idx, h);
  }

  lemma SpendTxKeeps(idx: Index, tx: Tx, pos: DiskTxPos, h: Hash)
    requires SpendTx(idx, tx, pos).Some?
    ensures SpendTx(idx, tx, pos).value.Keys == idx.Keys + {tx.txid}
    ensures h in idx && h != tx.txid && (AllSpent(idx[h]) || SpendsNoneOf(tx, {h})) ==>
            SpendTx(idx, tx, pos).value[h] == idx[h]
  {
    if !tx.IsCoinBase() {
      SpendAllMeaning(idx, tx.vin, pos);
      if h in idx && (AllSpent(idx[h]) || SpendsNoneOf(tx, {h})) {
        SpendKeeps(idx, tx.vin, pos, h);
      }
    }
  }

  /** The same transactions behind the inputs give the same value. */
  lemma {:induction false} ValueInSame(read: Reader, idx: Index, more: Reader, jdx: Index, vin: seq<OutPoint>)
    requires AllFetched(read, idx, vin)
    requires forall i :: 0 <= i < |vin| ==>
               Fetched(more, jdx, vin[i]) && PrevTx(more, jdx, vin[i]) == PrevTx(read, idx, vin[i])
    ensures ValueIn(more, jdx, vin) == ValueIn(read, idx, vin)
  {
    if vin != [] {
      var rest := vin[..|vin| - 1];
      assert forall i :: 0 <= i < |rest| ==> rest[i] == vin[i];
      ValueInSame(read, idx, more, jdx, rest);
    }
  }

  /** An output that the index records as spent. */
  ghost predicate SpentIn(idx: Index, o: OutPoint) {
    InIndex(idx, o) && Spender(idx, o).Some?
  }

  /** A transaction spends its inputs, and nothing spent becomes unspent unless it is overwritten. */
  lemma SpendTxSpends(idx: Index, tx: Tx, pos: DiskTxPos, o: OutPoint)
    requires SpendTx(idx, tx, pos).Some?
    ensures !tx.IsCoinBase() && o in tx.vin ==> Unspent(idx, o)
    ensures ((!tx.IsCoinBase() && o in tx.vin) || SpentIn(idx, o)) && o.hash != tx.txid ==>
              SpentIn(SpendTx(idx, tx, pos).value, o)
  {
    if !tx.IsCoinBase() {
      SpendAllMeaning(idx, tx.vin, pos);
    }
  }

  lemma TxidsSnoc(vtx: seq<Tx>, k: nat)
    requires k < |vtx|
    ensures Txids(vtx[..k + 1]) == Txids(vtx[..k]) + {vtx[k].txid}
  {
    assert vtx[..k + 1] == vtx[..k] + [vtx[k]];
  }

  /** Inside a block, entries that were fully spent before it change only by being overwritten. */
  lemma {:induction false} ConnectTxsKeeps(r: Rules, read: Reader, base: Index, vtx: seq<Tx>, w: Where, k: nat, h: Hash)
    requires k <= |vtx| && ConnectTxs(r, read, base, vtx, w, k).Some?
    ensures ConnectTxs(r, read, base, vtx, w, k).value.idx.Keys == base.Keys + Txids(vtx[..k])
    ensures h in base && h !in Txids(vtx[..k]) && AllSpent(base[h]) ==>
            ConnectTxs(r, read, base, vtx, w, k).value.idx[h] == base[h]
  {
    if k != 0 {
      ConnectTxsKeeps(r, read, base, vtx, w, k - 1, h);
      var idx := ConnectTxs(r, read, base, vtx, w, k - 1).value.idx;
      TxidsSnoc(vtx, k - 1);
      SpendTxKeeps(idx, vtx[k - 1], TxPos(w.at, vtx, k - 1), h);
    }
  }

  /** A transaction of a block does not spend from itself or from a later one. */
  lemma NoForwardSpend(r: Rules, read: Reader, base: Index, vtx: seq<Tx>, w: Where, j: nat, k: nat)
    requires j <= k < |vtx| && DistinctTxids(vtx)
    requires ConnectTxs(r, read, base, vtx, w, j + 1).Some? && MayOverwrite(base, vtx[k].txid)
    ensures SpendsNoneOf(vtx[j], {vtx[k].txid})
  {
    ConnectTxsKeeps(r, read, base, vtx, w, j, vtx[k].txid);
    var idx := ConnectTxs(r, read, base, vtx, w, j).value.idx;
    if !vtx[j].IsCoinBase() {
      SpendAllMeaning(idx, vtx[j].vin, TxPos(w.at, vtx, j));
      forall o | o in vtx[j].vin ensures o.hash != vtx[k].txid {
        assert Unspent(idx, o);
      }
    }
  }

  /** Losing the entry of a later transaction as well makes no difference to earlier ones. */
  lemma EarlierSpendsUnaffected(r: Rules, read: Reader, base: Index, vtx: seq<Tx>, w: Where, k: nat, gone: set<Hash>)
    requires k < |vtx| && DistinctTxids(vtx) && MayOverwrite(base, vtx[k].txid)
    requires ConnectTxs(r, read, base, vtx, w, k).Some?
    ensures forall i :: 0 <= i < k ==> (SpendsNoneOf(vtx[i], gone + {vtx[k].txid}) <==> SpendsNoneOf(vtx[i], gone))
  {
    hide ConnectTxs, DistinctTxids;
    forall i | 0 <= i < k
      ensures SpendsNoneOf(vtx[i], gone + {vtx[k].txid}) <==> SpendsNoneOf(vtx[i], gone)
    {
      ConnectTxsPrefix(r, read, base, vtx, w, i + 1, k);
      NoForwardSpend(r, read, base, vtx, w, i, k);
    }
  }

  lemma MinusMinus(base: Index, gone: set<Hash>, h: Hash, ids: set<Hash>)
    ensures base - gone - {h} == base - (gone + {h})
    ensures base - (gone + {h}) - ids == base - gone - (ids + {h})
  {
  }

  ghost predicate NoneSpendsFrom(vtx: seq<Tx>, gone: set<Hash>) {
    forall i :: 0 <= i < |vtx| ==> SpendsNoneOf(vtx[i], gone)
  }

  /** Undoing the first `k` transactions of a block, in reverse, on an index that lost the entries `gone`. */
  lemma {:induction false} UndoTxs(r: Rules, read: Reader, base: Index, vtx: seq<Tx>, w: Where, k: nat, gone: set<Hash>)
    requires k <= |vtx| && DistinctTxids(vtx) && ConnectTxs(r, read, base, vtx, w, k).Some?
    ensures var idx := ConnectTxs(r, read, base, vtx, w, k).value.idx;
            DisconnectTxs(idx - gone, vtx[..k])
            == if NoneSpendsFrom(vtx[..k], gone) then Some(base - gone - Txids(vtx[..k])) else None
  {
    hide InputsAllowed, FeeAllowed, ValueIn, AllFetched;
    if k == 0 {
      assert base - gone - Txids(vtx[..k]) == base - gone;
    } else {
      var tx, rest := vtx[k - 1], vtx[..k - 1];
      assert vtx[..k] == rest + [tx] && vtx[..k][..k - 1] == rest;
      NoForwardSpend(r, read, base, vtx, w, k - 1, k - 1);
      UndoTx(ConnectTxs(r, read, base, vtx, w, k - 1).value.idx, tx, TxPos(w.at, vtx, k - 1), gone);
      if SpendsNoneOf(tx, gone) {
        UndoTxs(r, read, base, vtx, w, k - 1, gone + {tx.txid});
        EarlierSpendsUnaffected(r, read, base, vtx, w, k - 1, gone);
        assert NoneSpendsFrom(rest, gone + {tx.txid}) <==> NoneSpendsFrom(vtx[..k], gone);
        TxidsSnoc(vtx, k - 1);
        MinusMinus(base, gone, tx.txid, Txids(rest));
        MinusMinus(ConnectTxs(r, read, base, vtx, w, k - 1).value.idx, gone, tx.txid, {});
      }
    }
  }

  lemma {:induction false} ConnectTxsPrefix(r: Rules, read: Reader, base: Index, vtx: seq<Tx>, w: Where, j: nat, k: nat)
    requires j <= k <= |vtx| && ConnectTxs(r, read, base, vtx, w, k).Some?
    ensures ConnectTxs(r, read, base, vtx, w, j).Some?
  {
    if j < k {
      ConnectTxsPrefix(r, read, base, vtx, w, j, k - 1);
    }
  }

  /**
   Disconnecting a block that was just connected succeeds and leaves the index as it was,
   minus the entries the block overwrote; so it restores the index exactly when the block
   repeats no transaction id of the index.
   */
  lemma DisconnectUndoesConnect(r: Rules, read: Reader, base: Index, b: Block, w: Where)
    requires ConnectBlock(r, read, base, b, w).Some?
    ensures DisconnectTxs(ConnectBlock(r, read, base, b, w).value.idx, b.vtx) == Some(base - Txids(b.vtx))
    ensures DisconnectTxs(ConnectBlock(r, read, base, b, w).value.idx, b.vtx) == Some(base)
            <==> Txids(b.vtx) !! base.Keys
  {
    hide ConnectTxs, DisconnectTxs, RewardAllowed;
    var idx := ConnectBlock(r, read, base, b, w).value.idx;
    UndoTxs(r, read, base, b.vtx, w, |b.vtx|, {});
    assert b.vtx[..|b.vtx|] == b.vtx && idx - {} == idx && base - {} == base;
    assert NoneSpendsFrom(b.vtx, {});
    assert base - Txids(b.vtx) == base <==> Txids(b.vtx) !! base.Keys by {
      if base - Txids(b.vtx) == base {
        assert base.Keys - Txids(b.vtx) == base.Keys;
      }
    }
  }
}
