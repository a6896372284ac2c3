/**
 An output is spent twice on a chain only if its transaction was issued again in between. On a chain whose
 transaction ids do not repeat none is, and the index of its replay says so: every input of every transaction
 of the chain is recorded as spent.
 */
module ChainSpends {
  import opened Ledger
  import opened LedgerUndo
  import opened LedgerValue
  import opened Replay

  // ---------- one block ----------

  lemma {:induction false} SpentStays(r: Rules, read: Reader, base: Index, vtx: seq<Tx>, w: Where, k: nat, o: OutPoint)
    requires k <= |vtx| && ConnectTxs(r, read, base, vtx, w, k).Some? && o.hash !in Txids(vtx) && SpentIn(base, o)
    ensures SpentIn(ConnectTxs(r, read, base, vtx, w, k).value.idx, o)
    decreases k
  {
    if k > 0 {
      SpentStays(r, read, base, vtx, w, k - 1, o);
      assert vtx[k - 1].txid in Txids(vtx);
      SpendTxSpends(ConnectTxs(r, read, base, vtx, w, k - 1).value.idx, vtx[k - 1], TxPos(w.at, vtx, k - 1), o);
    }
  }

  /** An input of an earlier transaction of the block is spent when `k` transactions are connected. */
  lemma {:induction false} InputStaysSpent(r: Rules, read: Reader, base: Index, vtx: seq<Tx>, w: Where, k: nat, a: nat,
                                           o: OutPoint)
    requires a < k <= |vtx| && ConnectTxs(r, read, base, vtx, w, k).Some? && DistinctTxids(vtx)
    requires !vtx[a].IsCoinBase() && o in vtx[a].vin
    ensures SpentIn(ConnectTxs(r, read, base, vtx, w, k).value.idx, o)
    decreases k
  {
    hide SpendTx, InputsAllowed, FeeAllowed;
    var l := k - 1;
    SpendTxSpends(ConnectTxs(r, read, base, vtx, w, l).value.idx, vtx[l], TxPos(w.at, vtx, l), o);
    ConnectTxsPrefix(r, read, base, vtx, w, a + 1, k);
    NoForwardSpend(r, read, base, vtx, w, a, l);
    if a < l {
      InputStaysSpent(r, read, base, vtx, w, l, a, o);
    }
  }

  /** What transaction `b` of a block spends was unspent before it. */
  lemma FindsUnspent(r: Rules, read: Reader, base: Index, vtx: seq<Tx>, w: Where, b: nat, o: OutPoint)
    requires ConnectTxs(r, read, base, vtx, w, |vtx|).Some? && b < |vtx| && !vtx[b].IsCoinBase() && o in vtx[b].vin
    ensures ConnectTxs(r, read, base, vtx, w, b).Some? && Unspent(ConnectTxs(r, read, base, vtx, w, b).value.idx, o)
    ensures Distinct(vtx[b].vin)
  {
    hide InputsAllowed, FeeAllowed;
    ConnectTxsPrefix(r, read, base, vtx, w, b + 1, |vtx|);
    var idx := ConnectTxs(r, read, base, vtx, w, b).value.idx;
    SpendAllMeaning(idx, vtx[b].vin, TxPos(w.at, vtx, b));
  }

  // ---------- chains ----------

  /** What connecting the last block of a chain means. */
  lemma LastConnects(r: Rules, read: Reader, chain: seq<Placed>)
    requires |chain| > 1 && ReplayChain(r, read, chain).Some?
    ensures ReplayChain(r, read, chain[..|chain| - 1]).Some?
    ensures var b := chain[|chain| - 1].block; var base := ReplayChain(r, read, chain[..|chain| - 1]).value.idx;
            var done := ConnectTxs(r, read, base, b.vtx, TipWhere(chain), |b.vtx|);
            && CheckBlock(r, b, |chain| - 1) && DistinctTxids(b.vtx)
            && done.Some? && done.value.idx == ReplayChain(r, read, chain).value.idx
  {
    hide ConnectTxs;
  }

  /** Transaction `a` of block `i` spends an output. */
  ghost predicate SpendsAt(chain: seq<Placed>, i: nat, a: nat, o: OutPoint) {
    && 1 <= i < |chain| && a < |chain[i].block.vtx|
    && !chain[i].block.vtx[a].IsCoinBase() && o in chain[i].block.vtx[a].vin
  }

  /** A block after `i` and up to `j` has a transaction with this id. */
  ghost predicate IssuedIn(chain: seq<Placed>, i: int, j: int, h: Hash) {
    exists m :: i < m <= j && 0 <= m < |chain| && h in Txids(chain[m].block.vtx)
  }

  lemma IssuedPrefix(chain: seq<Placed>, n: nat, i: int, j: int, h: Hash)
    requires n <= |chain| && IssuedIn(chain[..n], i, j, h)
    ensures IssuedIn(chain, i, j, h)
  {
    hide Txids;
    var m :| i < m <= j && 0 <= m < n && h in Txids(chain[..n][m].block.vtx);
    assert chain[m] == chain[..n][m];
  }

  /** On every chain, repeated ids or not: an input stays recorded as spent until its transaction is issued again. */
  lemma {:induction false} SpentUntilReissued(r: Rules, read: Reader, chain: seq<Placed>, i: nat, a: nat, o: OutPoint)
    requires ReplayChain(r, read, chain).Some? && SpendsAt(chain, i, a, o) && !IssuedIn(chain, i, |chain| - 1, o.hash)
    ensures SpentIn(ReplayChain(r, read, chain).value.idx, o)
    decreases |chain|
  {
    hide ReplayChain, ConnectTxs, Txids;
    var l := |chain| - 1;
    var vtx, rest := chain[l].block.vtx, chain[..l];
    LastConnects(r, read, chain);
    if i < l {
      assert o.hash !in Txids(vtx);
      assert rest[i] == chain[i];
      if IssuedIn(rest, i, l - 1, o.hash) {
        IssuedPrefix(chain, l, i, l - 1, o.hash);
      }
      SpentUntilReissued(r, read, rest, i, a, o);
      SpentStays(r, read, ReplayChain(r, read, rest).value.idx, vtx, TipWhere(chain), |vtx|, o);
    } else {
      InputStaysSpent(r, read, ReplayChain(r, read, rest).value.idx, vtx, TipWhere(chain), |vtx|, a, o);
    }
  }

  /** What a block spends was issued by it or by an earlier block. */
  lemma SpentWasIssued(r: Rules, read: Reader, chain: seq<Placed>, i: nat, a: nat, o: OutPoint)
    requires ReplayChain(r, read, chain).Some? && SpendsAt(chain, i, a, o)
    ensures IssuedIn(chain, -1, i, o.hash)
  {
    hide ReplayChain, ConnectTxs;
    var upTo := chain[..i + 1];
    var vtx, rest := upTo[i].block.vtx, upTo[..i];
    ReplayPrefix(r, read, chain, i + 1);
    LastConnects(r, read, upTo);
    var base := ReplayChain(r, read, rest).value.idx;
    FindsUnspent(r, read, base, vtx, TipWhere(upTo), a, o);
    ConnectTxsKeeps(r, read, base, vtx, TipWhere(upTo), a, o.hash);
    assert chain[i] == upTo[i];
    if o.hash in Txids(vtx[..a]) {
      var c :| 0 <= c < a && vtx[..a][c].txid == o.hash;
      assert vtx[c].txid in Txids(vtx);
    } else {
      ReplayKeys(r, read, rest, o.hash);
      var m :| 0 <= m < |rest| && o.hash in Txids(rest[m].block.vtx);
      assert rest[m] == chain[m];
    }
  }

  /** On every chain: if an output is spent by block `i` and again later, its transaction was issued again in
      between. */
  lemma {:induction false} RespentWasReissued(r: Rules, read: Reader, chain: seq<Placed>, i: nat, a: nat, j: nat,
                                              b: nat, o: OutPoint)
    requires ReplayChain(r, read, chain).Some? && SpendsAt(chain, i, a, o) && SpendsAt(chain, j, b, o)
    requires i < j || (i == j && a < b)
    ensures i < j && IssuedIn(chain, i, j, o.hash)
  {
    hide ReplayChain, ConnectTxs, Txids;
    var upTo := chain[..j + 1];
    var vtx, rest := upTo[j].block.vtx, upTo[..j];
    ReplayPrefix(r, read, chain, j + 1);
    LastConnects(r, read, upTo);
    var base, w := ReplayChain(r, read, rest).value.idx, TipWhere(upTo);
    FindsUnspent(r, read, base, vtx, w, b, o);
    if i == j {
      InputStaysSpent(r, read, base, vtx, w, b, a, o);
    } else if o.hash in Txids(vtx) {
      assert upTo[j] == chain[j];
    } else if IssuedIn(rest, i, j - 1, o.hash) {
      IssuedPrefix(upTo, j, i, j - 1, o.hash);
      IssuedPrefix(chain, j + 1, i, j - 1, o.hash);
    } else {
      assert rest[i] == chain[i];
      SpentUntilReissued(r, read, rest, i, a, o);
      SpentStays(r, read, base, vtx, w, b, o);
    }
  }

  // ---------- chains without repeated ids ----------

  lemma IssuedOnce(chain: seq<Placed>, i: nat, j: int, h: Hash)
    requires NoRepeats(chain) && IssuedIn(chain, -1, i, h)
    ensures !IssuedIn(chain, i, j, h)
  {
    hide Txids;
    var m :| -1 < m <= i && m < |chain| && h in Txids(chain[m].block.vtx);
    forall n | i < n <= j && 0 <= n < |chain| ensures h !in Txids(chain[n].block.vtx) {
      assert Txids(chain[m].block.vtx) !! Txids(chain[n].block.vtx);
    }
  }

  /** Every input of every transaction of a chain without repeated ids is recorded as spent. */
  lemma InputsAreSpent(r: Rules, read: Reader, chain: seq<Placed>, i: nat, a: nat, o: OutPoint)
    requires ReplayChain(r, read, chain).Some? && NoRepeats(chain) && SpendsAt(chain, i, a, o)
    ensures SpentIn(ReplayChain(r, read, chain).value.idx, o)
  {
    hide ReplayChain, NoRepeats, IssuedIn;
    SpentWasIssued(r, read, chain, i, a, o);
    IssuedOnce(chain, i, |chain| - 1, o.hash);
    SpentUntilReissued(r, read, chain, i, a, o);
  }

  /** No output is spent twice on a chain without repeated ids: not by two blocks, two transactions or two inputs. */
  lemma ChainSpendsOnce(r: Rules, read: Reader, chain: seq<Placed>, i: nat, a: nat, x: nat, j: nat, b: nat, y: nat)
    requires ReplayChain(r, read, chain).Some? && NoRepeats(chain)
    requires 1 <= i <= j < |chain| && (i < j || a < b || (a == b && x < y))
    requires a < |chain[i].block.vtx| && !chain[i].block.vtx[a].IsCoinBase() && x < |chain[i].block.vtx[a].vin|
    requires b < |chain[j].block.vtx| && !chain[j].block.vtx[b].IsCoinBase() && y < |chain[j].block.vtx[b].vin|
    ensures chain[i].block.vtx[a].vin[x] != chain[j].block.vtx[b].vin[y]
  {
    hide ReplayChain, NoRepeats, IssuedIn, Txids;
    var o := chain[i].block.vtx[a].vin[x];
    if o == chain[j].block.vtx[b].vin[y] {
      if i < j || a < b {
        assert SpendsAt(chain, i, a, o) && SpendsAt(chain, j, b, o);
        SpentWasIssued(r, read, chain, i, a, o);
        IssuedOnce(chain, i, j, o.hash);
        RespentWasReissued(r, read, chain, i, a, j, b, o);
      } else {
        InputsDiffer(r, read, chain, i, a, x, y);
      }
    }
  }

  lemma InputsDiffer(r: Rules, read: Reader, chain: seq<Placed>, i: nat, a: nat, x: nat, y: nat)
    requires ReplayChain(r, read, chain).Some? && 1 <= i < |chain| && a < |chain[i].block.vtx|
             && x < y < |chain[i].block.vtx[a].vin|
    ensures chain[i].block.vtx[a].vin[x] != chain[i].block.vtx[a].vin[y]
  {
    hide ReplayChain, ConnectTxs;
    var upTo := chain[..i + 1];
    ReplayPrefix(r, read, chain, i + 1);
    LastConnects(r, read, upTo);
    assert upTo[i] == chain[i] && CheckTransaction(chain[i].block.vtx[a]);
  }

  // ---------- where indexed transactions are ----------

  lemma {:induction false} BlockPositions(r: Rules, read: Reader, base: Index, vtx: seq<Tx>, w: Where, k: nat, h: Hash)
    requires k <= |vtx| && ConnectTxs(r, read, base, vtx, w, k).Some?
             && h in ConnectTxs(r, read, base, vtx, w, k).value.idx
    ensures var pos := ConnectTxs(r, read, base, vtx, w, k).value.idx[h].pos;
            || (h in base && pos == base[h].pos)
            || exists a :: 0 <= a < k && vtx[a].txid == h && pos == TxPos(w.at, vtx, a)
    decreases k
  {
    hide InputsAllowed, FeeAllowed, TxPos;
    if k > 0 {
      var idx := ConnectTxs(r, read, base, vtx, w, k - 1).value.idx;
      if h == vtx[k - 1].txid {
        assert ConnectTxs(r, read, base, vtx, w, k).value.idx[h].pos == TxPos(w.at, vtx, k - 1);
      } else {
        SpendAllMeaning(idx, vtx[k - 1].vin, TxPos(w.at, vtx, k - 1));
        BlockPositions(r, read, base, vtx, w, k - 1, h);
      }
    }
  }

  /** Every indexed transaction is one of the chain, recorded where it is stored. */
  lemma {:induction false} IndexedIsOnChain(r: Rules, read: Reader, chain: seq<Placed>, h: Hash)
    returns (i: nat, a: nat)
    requires ReplayChain(r, read, chain).Some? && h in ReplayChain(r, read, chain).value.idx
    ensures 1 <= i < |chain| && a < |chain[i].block.vtx| && chain[i].block.vtx[a].txid == h
    ensures ReplayChain(r, read, chain).value.idx[h].pos == TxPos(chain[i].at, chain[i].block.vtx, a)
    ensures chain[i].block.vtx[a].vin != []
    decreases |chain|
  {
    var l := |chain| - 1;
    assert |chain| > 1;
    hide ReplayChain, ConnectTxs, TxPos;
    var vtx, rest := chain[l].block.vtx, chain[..l];
    LastConnects(r, read, chain);
    var base := ReplayChain(r, read, rest).value.idx;
    BlockPositions(r, read, base, vtx, TipWhere(chain), |vtx|, h);
    var pos := ReplayChain(r, read, chain).value.idx[h].pos;
    if c :| 0 <= c < |vtx| && vtx[c].txid == h && pos == TxPos(TipWhere(chain).at, vtx, c) {
      i, a := l, c;
      assert CheckTransaction(vtx[c]);
    } else {
      i, a := IndexedIsOnChain(r, read, rest, h);
      assert rest[i] == chain[i];
    }
  }
}
