/**
 The node's own way of connecting and disconnecting blocks: inputs fetched into a
 map, spends written to a map of queued changes that later transactions of the block
 read first, and one write-back at the end. Each operation is proved to do what the
 plain definitions of `Ledger` say.
 */
module LedgerOps {
  import opened Ledger
  import opened LedgerUndo
  import opened Database

  type Inputs = map<Hash, (TxIndex, Tx)>

  ghost predicate SpendsFrom(vin: seq<OutPoint>, h: Hash) {
    exists i :: 0 <= i < |vin| && vin[i].hash == h
  }

  /** `inputs` holds the entry and the stored transaction behind every outpoint of `vin`, and nothing else. */
  ghost predicate InputsMatch(read: Reader, view: Index, vin: seq<OutPoint>, inputs: Inputs) {
    && (forall i :: 0 <= i < |vin| ==> vin[i].hash in inputs)
    && (forall h :: h in inputs ==>
      SpendsFrom(vin, h) && h in view && inputs[h].0 == view[h] && read(h, view[h].pos) == Some(inputs[h].1))
  }

  lemma OneMoreInput(read: Reader, view: Index, vin: seq<OutPoint>, i: nat, inputs: Inputs)
    requires i < |vin| && InputsMatch(read, view, vin[..i], inputs)
    ensures vin[i].hash in inputs ==> InputsMatch(read, view, vin[..i + 1], inputs)
    ensures forall e, tx :: vin[i].hash in view && e == view[vin[i].hash] && read(vin[i].hash, e.pos) == Some(tx) ==>
                              InputsMatch(read, view, vin[..i + 1], inputs[vin[i].hash := (e, tx)])
  {
    var less, more := vin[..i], vin[..i + 1];
    assert more == less + [vin[i]] && more[i] == vin[i];
    forall h | SpendsFrom(less, h) ensures SpendsFrom(more, h) {
      var j :| 0 <= j < |less| && less[j].hash == h;
      assert more[j].hash == h;
    }
    assert SpendsFrom(more, vin[i].hash);
  }

  /** Fetches what the inputs of a transaction spend, queued changes first. */
  method FetchInputs(db: TxDB, read: Reader, pool: Index, tx: Tx) returns (ok: bool, inputs: Inputs)
    requires db.Valid()
    ensures ok <==> tx.IsCoinBase() || AllFetched(read, db.View() + pool, tx.vin)
    ensures ok && !tx.IsCoinBase() ==> InputsMatch(read, db.View() + pool, tx.vin, inputs)
  {
    ghost var view := db.View() + pool;
    inputs := map[];
    if tx.IsCoinBase() {
      return true, inputs;
    }
    for i := 0 to |tx.vin|
      invariant InputsMatch(read, view, tx.vin[..i], inputs)
    {
      var h := tx.vin[i].hash;
      OneMoreInput(read, view, tx.vin, i, inputs);
      if h !in inputs {
        var e: Option<TxIndex>;
        if h in pool {
          e := Some(pool[h]);
        } else {
          e := db.ReadTxIndex(h);
        }
        if e.None? || read(h, e.value.pos).None? {
          assert !Fetched(read, view, tx.vin[i]);
          return false, inputs;
        }
        inputs := inputs[h := (e.value, read(h, e.value.pos).value)];
      }
    }
    assert tx.vin[..|tx.vin|] == tx.vin;
    for i := 0 to |tx.vin|
      invariant AllFetched(read, view, tx.vin[..i])
    {
      var o := tx.vin[i];
      assert o in tx.vin && tx.vin[..i + 1] == tx.vin[..i] + [o];
      if o.n >= |inputs[o.hash].1.vout| || o.n >= |inputs[o.hash].0.vSpent| {
        assert !Fetched(read, view, tx.vin[i]);
        return false, inputs;
      }
    }
    return true, inputs;
  }

  /** Adds up the outputs that a transaction spends. */
  method GetValueIn(ghost read: Reader, ghost view: Index, vin: seq<OutPoint>, inputs: Inputs) returns (v: int)
    requires AllFetched(read, view, vin) && InputsMatch(read, view, vin, inputs)
    ensures v == ValueIn(read, view, vin)
  {
    v := 0;
    for i := 0 to |vin|
      invariant AllFetched(read, view, vin[..i]) && v == ValueIn(read, view, vin[..i])
    {
      var o := vin[i];
      assert o in vin && vin[..i + 1][..i] == vin[..i] && vin[..i + 1][i] == o;
      v := v + inputs[o.hash].1.vout[o.n].nValue;
    }
    assert vin[..|vin|] == vin;
  }

  lemma {:induction false} SpendPrefix(idx: Index, vin: seq<OutPoint>, k: nat, pos: DiskTxPos)
    requires k <= |vin| && SpendAll(idx, vin, pos).Some?
    ensures SpendAll(idx, vin[..k], pos).Some?
    decreases |vin|
  {
    if k < |vin| {
      SpendPrefix(idx, vin[..|vin| - 1], k, pos);
      assert vin[..|vin| - 1][..k] == vin[..k];
    } else {
      assert vin[..k] == vin;
    }
  }

  lemma SpendNothing(idx: Index, vin: seq<OutPoint>, pos: DiskTxPos)
    ensures SpendAll(idx, vin[..0], pos) == Some(idx)
  {
  }

  lemma SpendSnoc(idx: Index, vin: seq<OutPoint>, i: nat, pos: DiskTxPos)
    requires i < |vin| && SpendAll(idx, vin[..i], pos).Some? && InIndex(idx, vin[i])
    ensures var cur := SpendAll(idx, vin[..i], pos).value;
      && InIndex(cur, vin[i])
      && SpendAll(idx, vin[..i + 1], pos)
         == if cur[vin[i].hash].vSpent[vin[i].n].None? then Some(Mark(cur, vin[i], Some(pos))) else None
  {
    SpendAllMeaning(idx, vin[..i], pos);
    assert vin[..i + 1][..i] == vin[..i] && vin[..i + 1][i] == vin[i];
  }

  lemma SpendConflict(idx: Index, vin: seq<OutPoint>, i: nat, pos: DiskTxPos)
    requires i < |vin| && SpendAll(idx, vin[..i + 1], pos).None?
    ensures SpendAll(idx, vin, pos).None?
  {
    if SpendAll(idx, vin, pos).Some? {
      SpendPrefix(idx, vin, i + 1, pos);
    }
  }

  lemma {:induction false} ValueInMonotone(read: Reader, idx: Index, vin: seq<OutPoint>, k: nat)
    requires k <= |vin| && AllFetched(read, idx, vin)
    requires forall i :: 0 <= i < |vin| ==> PrevValue(read, idx, vin[i]) >= 0
    ensures AllFetched(read, idx, vin[..k]) && ValueIn(read, idx, vin[..k]) <= ValueIn(read, idx, vin)
    decreases |vin|
  {
    if k < |vin| {
      var rest := vin[..|vin| - 1];
      assert forall i :: 0 <= i < |rest| ==> rest[i] == vin[i];
      ValueInMonotone(read, idx, rest, k);
      assert rest[..k] == vin[..k];
    } else {
      assert vin[..k] == vin;
    }
  }

  /** A running total past the limit stays past it. */
  lemma TooMuch(read: Reader, view: Index, tx: Tx, w: Where, k: nat)
    requires k <= |tx.vin| && AllFetched(read, view, tx.vin) && AllFetched(read, view, tx.vin[..k])
    requires ValueIn(read, view, tx.vin[..k]) > MAX_MONEY
    requires forall i :: 0 <= i < |tx.vin| ==> InputSane(read, view, tx, i, w)
    ensures ValueIn(read, view, tx.vin) > MAX_MONEY
  {
    forall i | 0 <= i < |tx.vin| ensures PrevValue(read, view, tx.vin[i]) >= 0 {
      assert InputSane(read, view, tx, i, w);
    }
    ValueInMonotone(read, view, tx.vin, k);
  }

  /** The inexpensive tests on every input, before any signature is checked. */
  method CheckInputs(tx: Tx, inputs: Inputs, w: Where, ghost read: Reader, ghost view: Index)
    returns (ok: bool, valueIn: int)
    requires AllFetched(read, view, tx.vin) && InputsMatch(read, view, tx.vin, inputs)
    ensures ok <==> ValueIn(read, view, tx.vin) <= MAX_MONEY
                    && forall i :: 0 <= i < |tx.vin| ==> InputSane(read, view, tx, i, w)
    ensures ok ==> valueIn == ValueIn(read, view, tx.vin)
  {
    hide ValueIn, MoneyRange;
    NoValue(read, view, tx.vin);
    valueIn := 0;
    for i := 0 to |tx.vin|
      invariant AllFetched(read, view, tx.vin[..i])
      invariant valueIn == ValueIn(read, view, tx.vin[..i]) && MoneyRange(valueIn)
      invariant forall j :: 0 <= j < i ==> InputSane(read, view, tx, j, w)
    {
      var o := tx.vin[i];
      assert o in tx.vin;
      OneMoreValue(read, view, tx.vin, i);
      var (txindex, prev) := inputs[o.hash];
      assert prev == PrevTx(read, view, o);
      if (prev.IsCoinBase() || prev.IsCoinStake()) && BlockPos(txindex.pos.nFile, txindex.pos.nBlockPos) in w.recent {
        assert !InputSane(read, view, tx, i, w);
        return false, valueIn;
      }
      if prev.nTime > tx.nTime {
        assert !InputSane(read, view, tx, i, w);
        return false, valueIn;
      }
      valueIn := valueIn + prev.vout[o.n].nValue;
      if !MoneyRange(prev.vout[o.n].nValue) || !MoneyRange(valueIn) {
        if forall j :: 0 <= j < |tx.vin| ==> InputSane(read, view, tx, j, w) {
          assert InputSane(read, view, tx, i, w);
          OutOfRange(valueIn - prev.vout[o.n].nValue, prev.vout[o.n].nValue);
          TooMuch(read, view, tx, w, i + 1);
        }
        return false, valueIn;
      }
    }
    assert tx.vin[..|tx.vin|] == tx.vin;
    InRange(valueIn);
    return true, valueIn;
  }

  lemma NoValue(read: Reader, view: Index, vin: seq<OutPoint>)
    ensures vin[..0] == [] && ValueIn(read, view, []) == 0 && MoneyRange(0)
  {
  }

  lemma InRange(value: int)
    ensures MoneyRange(value) <==> 0 <= value <= MAX_MONEY
  {
  }

  lemma OutOfRange(value: int, more: int)
    requires MoneyRange(value) && MoneyRange(more) && !MoneyRange(value + more)
    ensures value + more > MAX_MONEY
  {
  }

  lemma OneMoreValue(read: Reader, view: Index, vin: seq<OutPoint>, i: nat)
    requires i < |vin| && AllFetched(read, view, vin)
    ensures AllFetched(read, view, vin[..i]) && AllFetched(read, view, vin[..i + 1])
    ensures ValueIn(read, view, vin[..i + 1]) == ValueIn(read, view, vin[..i]) + PrevValue(read, view, vin[i])
  {
    assert vin[..i + 1][..i] == vin[..i] && vin[..i + 1][i] == vin[i];
  }

  /** The inputs and the queued changes agree with the index `cur`. */
  ghost predicate Following(base: Index, pool: Index, inputs: Inputs, fetched: Inputs, cur: Index) {
    && base + pool == cur
    && inputs.Keys == fetched.Keys
    && forall h :: h in inputs ==> h in cur && inputs[h] == (cur[h], fetched[h].1)
  }

  lemma FollowStep(base: Index, pool: Index, inputs: Inputs, fetched: Inputs, cur: Index, o: OutPoint, pos: DiskTxPos)
    requires Following(base, pool, inputs, fetched, cur) && o.hash in inputs && InIndex(cur, o)
    ensures var e := cur[o.hash].(vSpent := cur[o.hash].vSpent[o.n := Some(pos)]);
      Following(base, pool[o.hash := e], inputs[o.hash := (e, inputs[o.hash].1)], fetched, Mark(cur, o, Some(pos)))
  {
    var e := cur[o.hash].(vSpent := cur[o.hash].vSpent[o.n := Some(pos)]);
    assert base + pool[o.hash := e] == Mark(cur, o, Some(pos));
  }

  ghost predicate SignedBy(r: Rules, tx: Tx, i: nat, inputs: Inputs, w: Where) {
    i < |tx.vin| && tx.vin[i].hash in inputs && r.spend(tx, i, inputs[tx.vin[i].hash].1, w.height)
  }

  lemma SignedMeans(r: Rules, tx: Tx, i: nat, inputs: Inputs, w: Where)
    requires i < |tx.vin| && tx.vin[i].hash in inputs
    ensures SignedBy(r, tx, i, inputs, w) <==> r.spend(tx, i, inputs[tx.vin[i].hash].1, w.height)
  {
  }

  lemma SignedByFetched(r: Rules, tx: Tx, fetched: Inputs, w: Where, read: Reader, view: Index)
    requires AllFetched(read, view, tx.vin) && InputsMatch(read, view, tx.vin, fetched)
    ensures forall i :: 0 <= i < |tx.vin| ==> (InputSigned(r, read, view, tx, i, w) <==> SignedBy(r, tx, i, fetched, w))
  {
  }

  /** Checks conflicts and signatures and marks the inputs as spent in the queued changes. */
  method SpendInputs(r: Rules, tx: Tx, fetched: Inputs, queued: Index, pos: DiskTxPos, w: Where, ghost base: Index)
    returns (ok: bool, pool: Index)
    requires forall i :: 0 <= i < |tx.vin| ==> tx.vin[i].hash in fetched && InIndex(base + queued, tx.vin[i])
    requires Following(base, queued, fetched, fetched, base + queued)
    ensures ok ==> SpendAll(base + queued, tx.vin, pos) == Some(base + pool)
    ensures ok ==> forall i :: 0 <= i < |tx.vin| ==> SignedBy(r, tx, i, fetched, w)
    ensures !ok ==> SpendAll(base + queued, tx.vin, pos).None?
                    || exists i :: 0 <= i < |tx.vin| && !SignedBy(r, tx, i, fetched, w)
  {
    hide SpendAll, SignedBy;
    var inputs: Inputs := fetched;
    pool := queued;
    SpendNothing(base + queued, tx.vin, pos);
    ghost var view, cur := base + queued, base + queued;
    for i := 0 to |tx.vin|
      invariant SpendAll(view, tx.vin[..i], pos) == Some(cur)
      invariant Following(base, pool, inputs, fetched, cur)
      invariant forall j :: 0 <= j < i ==> SignedBy(r, tx, j, fetched, w)
    {
      var o := tx.vin[i];
      SpendSnoc(view, tx.vin, i, pos);
      var (txindex, prev) := inputs[o.hash];
      if txindex.vSpent[o.n].Some? {
        SpendConflict(view, tx.vin, i, pos);
        return false, pool;
      }
      if !r.spend(tx, i, prev, w.height) {
        SignedMeans(r, tx, i, fetched, w);
        return false, pool;
      }
      SignedMeans(r, tx, i, fetched, w);
      FollowStep(base, pool, inputs, fetched, cur, o, pos);
      txindex := txindex.(vSpent := txindex.vSpent[o.n := Some(pos)]);
      inputs := inputs[o.hash := (txindex, prev)];
      pool := pool[o.hash := txindex];
      cur := Mark(cur, o, Some(pos));
    }
    assert tx.vin[..|tx.vin|] == tx.vin;
    return true, pool;
  }

  /** All tests on the inputs of a transaction, and their spending in the queued changes. */
  method ConnectInputs(r: Rules, tx: Tx, inputs: Inputs, queued: Index, pos: DiskTxPos, w: Where,
                       ghost read: Reader, ghost base: Index)
    returns (ok: bool, pool: Index)
    requires !tx.IsCoinBase()
    requires AllFetched(read, base + queued, tx.vin) && InputsMatch(read, base + queued, tx.vin, inputs)
    ensures ok <==> InputsAllowed(r, read, base + queued, tx, w) && SpendAll(base + queued, tx.vin, pos).Some?
    ensures ok ==> base + pool == SpendAll(base + queued, tx.vin, pos).value
  {
    ghost var view := base + queued;
    var sane, valueIn := CheckInputs(tx, inputs, w, read, view);
    if !sane {
      return false, queued;
    }
    SignedByFetched(r, tx, inputs, w, read, view);
    assert forall i :: 0 <= i < |tx.vin| ==> Fetched(read, view, tx.vin[i]);
    var spent;
    spent, pool := SpendInputs(r, tx, inputs, queued, pos, w, base);
    if !spent {
      return false, pool;
    }
    if !tx.IsCoinStake() {
      var valueOut := ValueOut(tx.vout);
      if valueIn < valueOut || valueIn - valueOut < r.minFee(tx) || !MoneyRange(valueIn - valueOut) {
        return false, pool;
      }
    }
    return true, pool;
  }

  // ---------- blocks ----------

  datatype Totals = Totals(fees: int, valueIn: int, valueOut: int, burned: int, stakeReward: int)

  ghost function AsTally(idx: Index, t: Totals): Tally {
    Tally(idx, t.fees, t.valueIn, t.valueOut, t.burned, t.stakeReward)
  }

  lemma PutOnTop(base: Index, pool: Index, h: Hash, e: TxIndex)
    ensures base + pool[h := e] == (base + pool)[h := e]
  {
  }

  function AddTx(t: Totals, tx: Tx, vIn: int): Totals {
    var vOut := ValueOut(tx.vout);
    Totals(t.fees + (if tx.IsCoinBase() || tx.IsCoinStake() then 0 else vIn - vOut),
           t.valueIn + vIn, t.valueOut + vOut, t.burned + Burned(tx.vout),
           if tx.IsCoinStake() then vOut - vIn else t.stakeReward)
  }

  lemma ConnectTxDone(r: Rules, read: Reader, base: Index, view: Index, t: Totals, tx: Tx, pos: DiskTxPos, w: Where,
                      vIn: int)
    requires MayOverwrite(base, tx.txid)
    requires if tx.IsCoinBase() then vIn == 0
             else InputsAllowed(r, read, view, tx, w) && vIn == ValueIn(read, view, tx.vin)
    requires SpendTx(view, tx, pos).Some?
    ensures ConnectTx(r, read, base, AsTally(view, t), tx, pos, w)
            == Some(AsTally(SpendTx(view, tx, pos).value, AddTx(t, tx, vIn)))
  {
  }

  /** One transaction of a block, against the database and the changes queued so far. */
  method ConnectTransaction(db: TxDB, r: Rules, read: Reader, queued: Index, t: Totals, tx: Tx, pos: DiskTxPos,
                            w: Where)
    returns (ok: bool, pool: Index, u: Totals)
    requires db.Valid()
    ensures var done := ConnectTx(r, read, db.View(), AsTally(db.View() + queued, t), tx, pos, w);
      if ok then done == Some(AsTally(db.View() + pool, u)) else done.None?
  {
    ghost var base := db.View();
    ghost var view := base + queued;
    pool, u := queued, t;
    var txindexOld := db.ReadTxIndex(tx.txid);
    if txindexOld.Some? && !AllSpent(txindexOld.value) {
      return false, pool, u;
    }
    assert MayOverwrite(base, tx.txid);
    var vIn := 0;
    if !tx.IsCoinBase() {
      var fetched, inputs := FetchInputs(db, read, pool, tx);
      if !fetched {
        return false, pool, u;
      }
      vIn := GetValueIn(read, view, tx.vin, inputs);
      var connected;
      connected, pool := ConnectInputs(r, tx, inputs, queued, pos, w, read, base);
      if !connected {
        return false, pool, u;
      }
    }
    PutOnTop(base, pool, tx.txid, FreshEntry(pos, |tx.vout|));
    ConnectTxDone(r, read, base, view, t, tx, pos, w, vIn);
    pool := pool[tx.txid := FreshEntry(pos, |tx.vout|)];
    u := AddTx(t, tx, vIn);
    return true, pool, u;
  }

  lemma ConnectTxsFails(r: Rules, read: Reader, base: Index, vtx: seq<Tx>, w: Where, k: nat)
    requires k <= |vtx| && ConnectTxs(r, read, base, vtx, w, k).None?
    ensures ConnectTxs(r, read, base, vtx, w, |vtx|).None?
  {
    if ConnectTxs(r, read, base, vtx, w, |vtx|).Some? {
      ConnectTxsPrefix(r, read, base, vtx, w, k, |vtx|);
    }
  }

  lemma NextTxPos(at: BlockPos, vtx: seq<Tx>, k: nat)
    requires k < |vtx|
    ensures TxPos(at, vtx, k + 1).nTxPos == TxPos(at, vtx, k).nTxPos + vtx[k].nSize
  {
    assert vtx[..k + 1][..k] == vtx[..k] && vtx[..k + 1][k] == vtx[k];
  }

  /** All transactions of a block, through the queued changes. */
  method ConnectTransactions(db: TxDB, r: Rules, read: Reader, vtx: seq<Tx>, w: Where)
    returns (ok: bool, pool: Index, t: Totals)
    requires db.Valid()
    ensures var done := ConnectTxs(r, read, db.View(), vtx, w, |vtx|);
      if ok then done == Some(AsTally(db.View() + pool, t)) else done.None?
  {
    ghost var base := db.View();
    pool, t := map[], Totals(0, 0, 0, 0, 0);
    var nTxPos: nat := w.at.nBlockPos + 80 + CompactSizeLength(|vtx|);
    assert vtx[..0] == [] && base + pool == base;
    for k := 0 to |vtx|
      invariant ConnectTxs(r, read, base, vtx, w, k) == Some(AsTally(base + pool, t))
      invariant DiskTxPos(w.at.nFile, w.at.nBlockPos, nTxPos) == TxPos(w.at, vtx, k)
    {
      var pos := DiskTxPos(w.at.nFile, w.at.nBlockPos, nTxPos);
      NextTxPos(w.at, vtx, k);
      nTxPos := nTxPos + vtx[k].nSize;
      var connected;
      connected, pool, t := ConnectTransaction(db, r, read, pool, t, vtx[k], pos, w);
      if !connected {
        ConnectTxsFails(r, read, base, vtx, w, k + 1);
        return false, pool, t;
      }
    }
    return true, pool, t;
  }

  /** Writes the queued changes to the database. */
  method WriteQueued(db: TxDB, pool: Index)
    requires db.Valid() && db.active
    modifies db`batch
    ensures db.Valid() && db.View() == old(db.View()) + pool
  {
    hide Overlay;
    var todo := pool.Keys;
    ghost var base := db.View();
    assert base + (pool - todo) == base;
    while todo != {}
      invariant todo <= pool.Keys && db.Valid()
      invariant db.View() == base + (pool - todo)
      decreases |todo|
    {
      var h :| h in todo;
      db.UpdateTxIndex(h, pool[h]);
      OneWritten(base, pool, todo, h);
      todo := todo - {h};
    }
    assert pool - {} == pool;
  }

  lemma OneWritten(base: Index, pool: Index, todo: set<Hash>, h: Hash)
    requires h in todo && h in pool
    ensures (base + (pool - todo))[h := pool[h]] == base + (pool - (todo - {h}))
  {
  }

  /** Connects a block inside an open database transaction; a refused block leaves the database alone. */
  method ConnectBlockOps(db: TxDB, r: Rules, read: Reader, b: Block, w: Where) returns (ok: bool, t: Totals)
    requires db.Valid() && db.active
    modifies db`batch
    ensures db.Valid()
    ensures var done := ConnectBlock(r, read, old(db.View()), b, w);
      if ok then done == Some(AsTally(db.View(), t)) else done.None? && db.View() == old(db.View())
  {
    hide ConnectTxs, ProofOfStakeReward, ProofOfWorkReward, ValueOut, InputEntries;
    t := Totals(0, 0, 0, 0, 0);
    if !CheckBlock(r, b, w.height) {
      return false, t;
    }
    var pool;
    ok, pool, t := ConnectTransactions(db, r, read, b.vtx, w);
    if !ok {
      return false, t;
    }
    if b.IsProofOfStake() {
      var entries := FindEntries(db, b.vtx[1].vin);
      var coinAge := r.coinAge(b.vtx[1], entries);
      if coinAge.None? || t.stakeReward > ProofOfStakeReward(r, b.hashPrev, w.height - 1, coinAge.value, t.fees) {
        return false, t;
      }
    } else if ValueOut(b.vtx[0].vout) > ProofOfWorkReward(w.height, t.fees) {
      return false, t;
    }
    WriteQueued(db, pool);
  }

  /** The entries in the database, not in the queued changes, of what the inputs spend. */
  method FindEntries(db: TxDB, vin: seq<OutPoint>) returns (entries: seq<Option<TxIndex>>)
    requires db.Valid()
    ensures entries == InputEntries(db.View(), vin)
  {
    entries := [];
    for i := 0 to |vin|
      invariant entries == InputEntries(db.View(), vin)[..i]
    {
      var e := db.ReadTxIndex(vin[i].hash);
      entries := entries + [e];
    }
  }

  lemma {:induction false} UnspendPrefix(idx: Index, vin: seq<OutPoint>, k: nat)
    requires k <= |vin| && UnspendAll(idx, vin).Some?
    ensures UnspendAll(idx, vin[..k]).Some?
    decreases |vin|
  {
    if k < |vin| {
      UnspendPrefix(idx, vin[..|vin| - 1], k);
      assert vin[..|vin| - 1][..k] == vin[..k];
    } else {
      assert vin[..k] == vin;
    }
  }

  /** Disconnects one transaction straight in the database. A failure may leave some inputs already unmarked. */
  method DisconnectInputs(db: TxDB, tx: Tx) returns (ok: bool)
    requires db.Valid() && db.active
    modifies db`batch
    ensures db.Valid()
    ensures var done := DisconnectTx(old(db.View()), tx);
      if ok then done == Some(db.View()) else done.None?
  {
    ghost var before := db.View();
    if !tx.IsCoinBase() {
      for i := 0 to |tx.vin|
        invariant db.Valid() && UnspendAll(before, tx.vin[..i]) == Some(db.View())
      {
        var o := tx.vin[i];
        assert tx.vin[..i + 1][..i] == tx.vin[..i] && tx.vin[..i + 1][i] == o;
        var txindex := db.ReadTxIndex(o.hash);
        if txindex.None? || o.n >= |txindex.value.vSpent| {
          if UnspendAll(before, tx.vin).Some? {
            UnspendPrefix(before, tx.vin, i + 1);
          }
          return false;
        }
        db.UpdateTxIndex(o.hash, txindex.value.(vSpent := txindex.value.vSpent[o.n := None]));
      }
      assert tx.vin[..|tx.vin|] == tx.vin;
    }
    db.EraseTxIndex(tx.txid);
    return true;
  }

  /** Disconnects the transactions of a block in reverse order. */
  method DisconnectBlockOps(db: TxDB, vtx: seq<Tx>) returns (ok: bool)
    requires db.Valid() && db.active
    modifies db`batch
    ensures db.Valid()
    ensures var done := DisconnectTxs(old(db.View()), vtx);
      if ok then done == Some(db.View()) else done.None?
  {
    var i := |vtx|;
    assert vtx[..i] == vtx;
    while i > 0
      invariant 0 <= i <= |vtx| && db.Valid()
      invariant DisconnectTxs(db.View(), vtx[..i]) == DisconnectTxs(old(db.View()), vtx)
    {
      i := i - 1;
      assert vtx[..i + 1][i] == vtx[i] && vtx[..i + 1][..i] == vtx[..i];
      var done := DisconnectInputs(db, vtx[i]);
      if !done {
        return false;
      }
    }
    return true;
  }
}
