/**
 Why a miner needs the index of a connected chain: if the index lists a transaction of the pool
 without recording its inputs as spent, the transaction can be included again, its outputs become
 unspent again, and one of them is spent twice.
 */
module MinerExample {
  import opened Ledger
  import opened Examples
  import opened LedgerUndo
  import opened Assembly
  import opened Miner

  function Pay(id: Hash, from: Hash, value: int): Tx {
    Tx(id, 0, 100, [OutPoint(from, 0)], [TxOut(value, "51")], [])
  }

  function Place(id: Hash): DiskTxPos {
    DiskTxPos(1, 0, 1000 * id)
  }

  /** On the chain: 10, which pays 11, which pays nobody yet; neither is recorded as spent. */
  function OddIndex(): Index {
    map[10 := FreshEntry(Place(10), 1), 11 := FreshEntry(Place(11), 1)]
  }

  function Disk(): Reader {
    (h: Hash, pos: DiskTxPos) =>
      if h == 10 && pos == Place(10) then Some(Pay(10, 9, 5)) else if h == 11 && pos == Place(11)
        then Some(Pay(11, 10, 4)) else None
  }

  /** In the pool: 11 again, and two transactions that spend its output. */
  function OddPool(): Pool {
    map[11 := Pay(11, 10, 4), 12 := Pay(12, 11, 3), 13 := Pay(13, 11, 2)]
  }

  const NOWHERE := Where(BlockPos(0, 0), 0, [])

  lemma AddPay(rd: Reader, d: Draft, id: Hash, from: Hash, value: int, worth: int)
    requires from in d.idx && |d.idx[from].vSpent| == 1 && d.idx[from].vSpent[0].None?
    requires rd(from, d.idx[from].pos).Some? && rd(from, d.idx[from].pos).value.vout == [TxOut(worth, "51")]
    requires rd(from, d.idx[from].pos).value.nTime == 0 && 0 <= value <= worth <= 10
    ensures var e := d.idx[from];
            AssembleOne(Lenient(), rd, d, Pay(id, from, value), NOWHERE)
            == Some(Draft(d.idx[from := e.(vSpent := [Some(MINER_POS)])][id := FreshEntry(MINER_POS, 1)],
                d.fees + worth - value))
  {
    var tx, o := Pay(id, from, value), OutPoint(from, 0);
    assert tx.vin[..0] == [] && tx.vin[0] == o && tx.vout[..0] == [];
    assert ValueOut(tx.vout) == value;
    assert Fetched(rd, d.idx, o) && PrevValue(rd, d.idx, o) == worth;
    assert ValueIn(rd, d.idx, tx.vin) == worth;
    assert InputSane(rd, d.idx, tx, 0, NOWHERE) && InputSigned(Lenient(), rd, d.idx, tx, 0, NOWHERE);
    assert SpendAll(d.idx, [], MINER_POS) == Some(d.idx);
    assert SpendAll(d.idx, tx.vin, MINER_POS) == Some(Mark(d.idx, o, Some(MINER_POS)));
    assert d.idx[from].vSpent[0 := Some(MINER_POS)] == [Some(MINER_POS)];
  }

  /** From this index the block 12, 11, 13 connects transaction by transaction, and spends output 0 of 11 twice. */
  lemma SpendsTwice()
    ensures Assemble(Lenient(), PoolReader(Disk(), OddPool()), OddIndex(),
              [Pay(12, 11, 3), Pay(11, 10, 4), Pay(13, 11, 2)], NOWHERE).Some?
    ensures Pay(12, 11, 3).vin[0] == Pay(13, 11, 2).vin[0]
    ensures !SpendsOnce([Pay(12, 11, 3), Pay(11, 10, 4), Pay(13, 11, 2)])
    ensures OnDisk(OddIndex()) && SameTransactions(Disk(), OddIndex(), OddPool(), OddPool().Keys)
  {
    hide AssembleOne, PoolReader, Disk, OddPool, Assemble;
    var rd, u, t, v := PoolReader(Disk(), OddPool()), Pay(12, 11, 3), Pay(11, 10, 4), Pay(13, 11, 2);
    ReadBack();
    var d0 := Draft(OddIndex(), 0);
    AddPay(rd, d0, 12, 11, 3, 4);
    var d1 := AssembleOne(Lenient(), rd, d0, u, NOWHERE).value;
    assert d1.idx[10] == FreshEntry(Place(10), 1);
    AddPay(rd, d1, 11, 10, 4, 5);
    var d2 := AssembleOne(Lenient(), rd, d1, t, NOWHERE).value;
    assert d2.idx[11] == FreshEntry(MINER_POS, 1);
    AddPay(rd, d2, 13, 11, 2, 4);
    InThreeSteps(rd, u, t, v);
    var vtx := [u, t, v];
    assert vtx[0].vin[0] == vtx[2].vin[0];
  }

  lemma ReadBack()
    ensures var rd := PoolReader(Disk(), OddPool());
            && rd(10, Place(10)) == Some(Pay(10, 9, 5)) && rd(11, Place(11)) == Some(Pay(11, 10, 4))
            && rd(11, MINER_POS) == Some(Pay(11, 10, 4))
    ensures OnDisk(OddIndex()) && SameTransactions(Disk(), OddIndex(), OddPool(), OddPool().Keys)
  {
  }

  lemma InThreeSteps(rd: Reader, u: Tx, t: Tx, v: Tx)
    requires AssembleOne(Lenient(), rd, Draft(OddIndex(), 0), u, NOWHERE).Some?
    requires var d1 := AssembleOne(Lenient(), rd, Draft(OddIndex(), 0), u, NOWHERE).value;
             && AssembleOne(Lenient(), rd, d1, t, NOWHERE).Some?
             && AssembleOne(Lenient(), rd, AssembleOne(Lenient(), rd, d1, t, NOWHERE).value, v, NOWHERE).Some?
    ensures Assemble(Lenient(), rd, OddIndex(), [u, t, v], NOWHERE).Some?
  {
    hide AssembleOne, OddIndex;
    assert [] + [u] == [u] && [u] + [t] == [u, t] && [u, t] + [v] == [u, t, v];
    AssembleSnoc(Lenient(), rd, OddIndex(), [], u, NOWHERE);
    AssembleSnoc(Lenient(), rd, OddIndex(), [u], t, NOWHERE);
    AssembleSnoc(Lenient(), rd, OddIndex(), [u, t], v, NOWHERE);
  }
}
