/**
 The rules of spending in terms of the chain alone. The index of a connected chain whose transaction ids do not repeat
 says where every transaction was issued and which outputs were spent; so a transaction connects exactly if every
 output it spends was issued before, not spent since, and may be spent at this height.
 */
module History {
  import opened Ledger
  import opened LedgerUndo
  import opened LedgerValue
  import opened Replay
  import opened ChainSpends
  import opened Numbers

  // ---------- what the chain says ----------

  /** Transaction `c` of block `m` comes before transaction `b` of block `n`. */
  predicate Precedes(m: nat, c: nat, n: nat, b: nat) {
    m < n || (m == n && c < b)
  }

  /** It has the id `h`. Genesis issues nothing. */
  ghost predicate Issues(chain: seq<Placed>, n: nat, b: nat, m: nat, c: nat, h: Hash) {
    && 1 <= m <= n < |chain| && c < |chain[m].block.vtx| && Precedes(m, c, n, b)
    && chain[m].block.vtx[c].txid == h
  }

  ghost predicate Issued(chain: seq<Placed>, n: nat, b: nat, h: Hash) {
    exists m: nat, c: nat :: Issues(chain, n, b, m, c, h)
  }

  /** An output was spent before transaction `b` of block `n`. */
  ghost predicate SpentBefore(chain: seq<Placed>, n: nat, b: nat, o: OutPoint) {
    exists j: nat, a: nat :: Precedes(j, a, n, b) && SpendsAt(chain, j, a, o)
  }

  // ---------- what the index says ----------

  /** The entry of transaction `c` of block `m`: its place, and for every output whether it was spent. */
  ghost predicate EntryIs(chain: seq<Placed>, n: nat, b: nat, idx: Index, m: nat, c: nat) {
    && m < |chain| && c < |chain[m].block.vtx|
    && var tx := chain[m].block.vtx[c];
       && tx.txid in idx && idx[tx.txid].pos == TxPos(chain[m].at, chain[m].block.vtx, c)
       && |idx[tx.txid].vSpent| == |tx.vout|
       && forall x :: 0 <= x < |tx.vout| ==>
            (idx[tx.txid].vSpent[x].Some? <==> SpentBefore(chain, n, b, OutPoint(tx.txid, x)))
  }

  /** The index tells the history up to transaction `b` of block `n`. */
  ghost predicate Tells(chain: seq<Placed>, n: nat, b: nat, idx: Index) {
    && (forall h :: h in idx <==> Issued(chain, n, b, h))
    && (forall m: nat, c: nat, h :: Issues(chain, n, b, m, c, h) ==> EntryIs(chain, n, b, idx, m, c))
    && (forall o :: SpentBefore(chain, n, b, o) ==> o.hash in idx)
  }

  /** Up to block `n` no two blocks share an id, and no two transactions of a block do. */
  ghost predicate IdsUnique(chain: seq<Placed>, n: nat) {
    && n < |chain|
    && (forall i :: 1 <= i <= n ==> DistinctTxids(chain[i].block.vtx))
    && NoRepeats(chain[..n + 1])
  }

  lemma SameId(chain: seq<Placed>, n: nat, m: nat, c: nat, i: nat, a: nat)
    requires IdsUnique(chain, n) && 1 <= m <= n && 1 <= i <= n && c < |chain[m].block.vtx| && a < |chain[i].block.vtx|
    requires chain[m].block.vtx[c].txid == chain[i].block.vtx[a].txid
    ensures m == i && c == a
  {
    var h, upTo := chain[m].block.vtx[c].txid, chain[..n + 1];
    assert h in Txids(chain[m].block.vtx) && h in Txids(chain[i].block.vtx);
    assert upTo[m] == chain[m] && upTo[i] == chain[i];
  }

  // ---------- one transaction more ----------

  /** What transaction `b` of block `n` adds to the history. */
  lemma OneMore(chain: seq<Placed>, n: nat, b: nat)
    requires 1 <= n < |chain| && b < |chain[n].block.vtx|
    ensures forall m: nat, c: nat, h :: Issues(chain, n, b + 1, m, c, h) <==>
              Issues(chain, n, b, m, c, h) || (m == n && c == b && h == chain[n].block.vtx[b].txid)
    ensures forall o :: SpentBefore(chain, n, b + 1, o) <==> SpentBefore(chain, n, b, o) || SpendsAt(chain, n, b, o)
  {
    hide SpendsAt;
    forall o | SpendsAt(chain, n, b, o) ensures SpentBefore(chain, n, b + 1, o) {
      assert Precedes(n, b, n, b + 1);
    }
    forall o | SpentBefore(chain, n, b, o) ensures SpentBefore(chain, n, b + 1, o) {
      var j: nat, a: nat :| Precedes(j, a, n, b) && SpendsAt(chain, j, a, o);
      assert Precedes(j, a, n, b + 1);
    }
    forall o | SpentBefore(chain, n, b + 1, o) ensures SpentBefore(chain, n, b, o) || SpendsAt(chain, n, b, o) {
      var j: nat, a: nat :| Precedes(j, a, n, b + 1) && SpendsAt(chain, j, a, o);
      assert Precedes(j, a, n, b) || (j == n && a == b);
    }
  }

  lemma IssuedMore(chain: seq<Placed>, n: nat, b: nat, h: Hash)
    requires 1 <= n < |chain| && b < |chain[n].block.vtx|
    ensures Issued(chain, n, b + 1, h) <==> Issued(chain, n, b, h) || h == chain[n].block.vtx[b].txid
  {
    OneMore(chain, n, b);
    var b' := b + 1;
    if h == chain[n].block.vtx[b].txid {
      assert Issues(chain, n, b', n, b, h);
    }
    if Issued(chain, n, b, h) {
      var m: nat, c: nat :| Issues(chain, n, b, m, c, h);
      assert Issues(chain, n, b', m, c, h);
    }
    if Issued(chain, n, b', h) {
      var m: nat, c: nat :| Issues(chain, n, b', m, c, h);
      assert Issues(chain, n, b, m, c, h) || (m == n && c == b);
    }
  }

  /** What connecting one transaction does to the index. */
  ghost predicate Steps(idx: Index, idx': Index, tx: Tx, pos: DiskTxPos) {
    && SpendTx(idx, tx, pos) == Some(idx')
    && tx.txid !in idx
  }

  lemma StepEntry(idx: Index, idx': Index, tx: Tx, pos: DiskTxPos, h: Hash)
    requires Steps(idx, idx', tx, pos)
    ensures h in idx' <==> h in idx || h == tx.txid
    ensures h == tx.txid ==> idx'[h] == FreshEntry(pos, |tx.vout|)
    ensures h in idx && h != tx.txid ==>
              && h in idx' && idx'[h].pos == idx[h].pos && |idx'[h].vSpent| == |idx[h].vSpent|
              && forall x :: 0 <= x < |idx[h].vSpent| ==>
                   (idx'[h].vSpent[x].Some? <==>
                      idx[h].vSpent[x].Some? || (!tx.IsCoinBase() && OutPoint(h, x) in tx.vin))
    ensures !tx.IsCoinBase() ==> forall o :: o in tx.vin ==> InIndex(idx, o) && idx[o.hash].vSpent[o.n].None?
  {
    if !tx.IsCoinBase() {
      SpendAllMeaning(idx, tx.vin, pos);
      var i := SpendAll(idx, tx.vin, pos).value;
      if h in idx && h != tx.txid {
        forall x | 0 <= x < |idx[h].vSpent|
          ensures x < |i[h].vSpent|
          ensures i[h].vSpent[x].Some? <==> idx[h].vSpent[x].Some? || OutPoint(h, x) in tx.vin
        {
          assert InIndex(idx, OutPoint(h, x));
        }
      }
    }
  }

  lemma TellsStep(chain: seq<Placed>, n: nat, b: nat, idx: Index, idx': Index)
    requires 1 <= n < |chain| && b < |chain[n].block.vtx| && IdsUnique(chain, n) && Tells(chain, n, b, idx)
    requires SpendTx(idx, chain[n].block.vtx[b], TxPos(chain[n].at, chain[n].block.vtx, b)) == Some(idx')
    ensures Tells(chain, n, b + 1, idx')
  {
    hide SpendTx, SpendsAt, SpentBefore, IdsUnique, TxPos, EntryIs;
    var tx, pos := chain[n].block.vtx[b], TxPos(chain[n].at, chain[n].block.vtx, b);
    OneMore(chain, n, b);
    NewId(chain, n, b, idx);
    forall h ensures h in idx' <==> Issued(chain, n, b + 1, h) {
      IssuedMore(chain, n, b, h);
      StepEntry(idx, idx', tx, pos, h);
    }
    var b' := b + 1;
    forall m: nat, c: nat, h | Issues(chain, n, b', m, c, h) ensures EntryIs(chain, n, b', idx', m, c) {
      if Issues(chain, n, b, m, c, h) {
        assert EntryIs(chain, n, b, idx, m, c);
        EntryKept(chain, n, b, idx, idx', m, c);
      } else {
        EntryNew(chain, n, b, idx, idx');
      }
    }
    forall o | SpentBefore(chain, n, b + 1, o) ensures o.hash in idx' {
      SpendsKnown(chain, n, b, idx, idx', o);
      StepEntry(idx, idx', tx, pos, o.hash);
    }
  }

  /** The next transaction's id is new to the index. */
  lemma NewId(chain: seq<Placed>, n: nat, b: nat, idx: Index)
    requires 1 <= n < |chain| && b < |chain[n].block.vtx| && IdsUnique(chain, n) && Tells(chain, n, b, idx)
    ensures chain[n].block.vtx[b].txid !in idx
  {
    hide IdsUnique, EntryIs, SpentBefore;
    var h := chain[n].block.vtx[b].txid;
    if h in idx {
      var m: nat, c: nat :| Issues(chain, n, b, m, c, h);
      SameId(chain, n, m, c, n, b);
    }
  }

  lemma SpendsKnown(chain: seq<Placed>, n: nat, b: nat, idx: Index, idx': Index, o: OutPoint)
    requires 1 <= n < |chain| && b < |chain[n].block.vtx| && Tells(chain, n, b, idx)
    requires SpendTx(idx, chain[n].block.vtx[b], TxPos(chain[n].at, chain[n].block.vtx, b)) == Some(idx')
    requires chain[n].block.vtx[b].txid !in idx
    requires SpentBefore(chain, n, b, o) || SpendsAt(chain, n, b, o)
    ensures o.hash in idx
  {
    hide SpendTx, TxPos, EntryIs;
    if SpendsAt(chain, n, b, o) {
      StepEntry(idx, idx', chain[n].block.vtx[b], TxPos(chain[n].at, chain[n].block.vtx, b), o.hash);
    }
  }

  lemma EntryKept(chain: seq<Placed>, n: nat, b: nat, idx: Index, idx': Index, m: nat, c: nat)
    requires 1 <= n < |chain| && b < |chain[n].block.vtx| && EntryIs(chain, n, b, idx, m, c)
    requires SpendTx(idx, chain[n].block.vtx[b], TxPos(chain[n].at, chain[n].block.vtx, b)) == Some(idx')
    requires chain[n].block.vtx[b].txid !in idx
    ensures EntryIs(chain, n, b + 1, idx', m, c)
  {
    hide SpendTx, SpentBefore, TxPos;
    var tx, h := chain[n].block.vtx[b], chain[m].block.vtx[c].txid;
    StepEntry(idx, idx', tx, TxPos(chain[n].at, chain[n].block.vtx, b), h);
    OneMore(chain, n, b);
    forall x | 0 <= x < |chain[m].block.vtx[c].vout|
      ensures idx'[h].vSpent[x].Some? <==> SpentBefore(chain, n, b + 1, OutPoint(h, x))
    {
      assert SpendsAt(chain, n, b, OutPoint(h, x)) <==> !tx.IsCoinBase() && OutPoint(h, x) in tx.vin;
    }
  }

  lemma EntryNew(chain: seq<Placed>, n: nat, b: nat, idx: Index, idx': Index)
    requires 1 <= n < |chain| && b < |chain[n].block.vtx| && Tells(chain, n, b, idx)
    requires SpendTx(idx, chain[n].block.vtx[b], TxPos(chain[n].at, chain[n].block.vtx, b)) == Some(idx')
    requires chain[n].block.vtx[b].txid !in idx
    ensures EntryIs(chain, n, b + 1, idx', n, b)
  {
    hide SpendTx, SpentBefore, TxPos, SpendsAt;
    var tx := chain[n].block.vtx[b];
    StepEntry(idx, idx', tx, TxPos(chain[n].at, chain[n].block.vtx, b), tx.txid);
    OneMore(chain, n, b);
    forall x | 0 <= x < |tx.vout| ensures !SpentBefore(chain, n, b + 1, OutPoint(tx.txid, x)) {
      if SpentBefore(chain, n, b + 1, OutPoint(tx.txid, x)) {
        SpendsKnown(chain, n, b, idx, idx', OutPoint(tx.txid, x));
      }
    }
  }

  // ---------- chains ----------

  /** The end of a block is the beginning of the next one. */
  lemma NextBlock(chain: seq<Placed>, n: nat, idx: Index)
    requires 1 <= n < |chain| - 1 && Tells(chain, n, |chain[n].block.vtx|, idx)
    ensures Tells(chain, n + 1, 0, idx)
  {
    hide SpendsAt;
    var b, n' := |chain[n].block.vtx|, n + 1;
    forall o ensures SpentBefore(chain, n', 0, o) <==> SpentBefore(chain, n, b, o) {
      SpentSame(chain, n, o);
    }
    forall h ensures Issued(chain, n', 0, h) <==> Issued(chain, n, b, h) {
      if Issued(chain, n, b, h) {
        var m: nat, c: nat :| Issues(chain, n, b, m, c, h);
        assert Issues(chain, n', 0, m, c, h);
      }
      if Issued(chain, n', 0, h) {
        var m: nat, c: nat :| Issues(chain, n', 0, m, c, h);
        assert Issues(chain, n, b, m, c, h);
      }
    }
    forall m: nat, c: nat, h | Issues(chain, n', 0, m, c, h) ensures EntryIs(chain, n', 0, idx, m, c) {
      assert Issues(chain, n, b, m, c, h);
      assert EntryIs(chain, n, b, idx, m, c);
    }
  }

  lemma SpentSame(chain: seq<Placed>, n: nat, o: OutPoint)
    requires 1 <= n < |chain| - 1
    ensures SpentBefore(chain, n + 1, 0, o) <==> SpentBefore(chain, n, |chain[n].block.vtx|, o)
  {
    var b := |chain[n].block.vtx|;
    if SpentBefore(chain, n, b, o) {
      var j: nat, a: nat :| Precedes(j, a, n, b) && SpendsAt(chain, j, a, o);
      assert Precedes(j, a, n + 1, 0);
    }
    if SpentBefore(chain, n + 1, 0, o) {
      var j: nat, a: nat :| Precedes(j, a, n + 1, 0) && SpendsAt(chain, j, a, o);
      assert Precedes(j, a, n, b);
    }
  }

  lemma NothingYet(chain: seq<Placed>)
    requires |chain| > 1
    ensures Tells(chain, 1, 0, map[])
  {
  }

  lemma FirstIndex(r: Rules, read: Reader, chain: seq<Placed>)
    requires |chain| > 1
    ensures IndexAt(r, read, chain, 1, 0) == Some(Start(map[]))
  {
  }

  /** The index when the first `b` transactions of block `n` are connected. */
  ghost function IndexAt(r: Rules, read: Reader, chain: seq<Placed>, n: nat, b: nat): Option<Tally>
    requires 1 <= n < |chain| && b <= |chain[n].block.vtx|
  {
    match ReplayChain(r, read, chain[..n])
    case None => None
    case Some(s) => ConnectTxs(r, read, s.idx, chain[n].block.vtx, TipWhere(chain[..n + 1]), b)
  }

  /** At every point of a connected chain without repeated ids the index tells the history. */
  lemma {:induction false} IndexTells(r: Rules, read: Reader, chain: seq<Placed>, n: nat, b: nat)
    requires 1 <= n < |chain| && b <= |chain[n].block.vtx| && IdsUnique(chain, n)
    requires IndexAt(r, read, chain, n, b).Some?
    ensures Tells(chain, n, b, IndexAt(r, read, chain, n, b).value.idx)
    decreases n, b
  {
    hide Tells, IdsUnique, SpendTx, IndexAt;
    if b > 0 {
      OneConnected(r, read, chain, n, b - 1);
      IndexTells(r, read, chain, n, b - 1);
      TellsStep(chain, n, b - 1, IndexAt(r, read, chain, n, b - 1).value.idx, IndexAt(r, read, chain, n, b).value.idx);
    } else if n == 1 {
      NothingYet(chain);
      FirstIndex(r, read, chain);
    } else {
      UniqueBelow(chain, n);
      LastBlock(r, read, chain, n);
      IndexTells(r, read, chain, n - 1, |chain[n - 1].block.vtx|);
      NextBlock(chain, n - 1, IndexAt(r, read, chain, n, 0).value.idx);
    }
  }

  /** What connecting transaction `b` did. */
  lemma OneConnected(r: Rules, read: Reader, chain: seq<Placed>, n: nat, b: nat)
    requires 1 <= n < |chain| && b < |chain[n].block.vtx| && IndexAt(r, read, chain, n, b + 1).Some?
    ensures IndexAt(r, read, chain, n, b).Some?
    ensures SpendTx(IndexAt(r, read, chain, n, b).value.idx, chain[n].block.vtx[b],
                    TxPos(chain[n].at, chain[n].block.vtx, b))
            == Some(IndexAt(r, read, chain, n, b + 1).value.idx)
  {
    hide SpendTx, InputsAllowed, FeeAllowed, ReplayChain;
    assert chain[..n + 1][n] == chain[n];
  }

  lemma UniqueBelow(chain: seq<Placed>, n: nat)
    requires IdsUnique(chain, n) && n > 0
    ensures IdsUnique(chain, n - 1)
  {
    hide Txids;
    assert forall i :: 0 <= i < n ==> chain[..n][i] == chain[..n + 1][i];
    assert chain[..n - 1 + 1] == chain[..n];
  }

  /** The index before a block is that after the last transaction of the block below. */
  lemma LastBlock(r: Rules, read: Reader, chain: seq<Placed>, n: nat)
    requires 1 < n < |chain| && IndexAt(r, read, chain, n, 0).Some?
    ensures var last := IndexAt(r, read, chain, n - 1, |chain[n - 1].block.vtx|);
            last.Some? && last.value.idx == IndexAt(r, read, chain, n, 0).value.idx
  {
    hide ConnectTxs;
    var upTo := chain[..n];
    assert upTo[..n - 1] == chain[..n - 1] && chain[..n - 1 + 1] == upTo && upTo[n - 1] == chain[n - 1];
    StartIs(r, read, ReplayChain(r, read, upTo).value.idx, chain[n].block.vtx, TipWhere(chain[..n + 1]));
    LastConnects(r, read, upTo);
  }

  lemma StartIs(r: Rules, read: Reader, base: Index, vtx: seq<Tx>, w: Where)
    ensures ConnectTxs(r, read, base, vtx, w, 0) == Some(Start(base))
  {
  }
}
