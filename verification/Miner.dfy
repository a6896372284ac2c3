/**
 Block assembly: pool transactions are taken in order of rank, each after its parents,
 as long as they connect and the block stays within its limits.
 */
module Miner {
  import opened Ledger
  import opened LedgerUndo
  import opened LedgerOps
  import opened Database
  import opened Ordering
  import opened Assembly
  import opened MinerQueue
  import opened Numbers

  const MAX_BLOCK_SIZE := 1_000_000
  const MAX_BLOCK_SIGOPS := MAX_BLOCK_SIZE / 50

  /** Settings, and the verdicts of code outside this model. */
  datatype Policy = Policy(
    maxSize: int, prioritySize: int, minSize: int, minTxFee: int, // as configured
    now: int, fProofOfStake: bool, coinbaseTime: int,
    isFinal: Tx -> bool,
    legacySigOps: Tx -> nat,
    p2shSigOps: (Tx, Inputs) -> nat,
    minFee: (Tx, nat) -> int,
    depth: TxIndex -> int)

  function BlockMaxSize(p: Policy): (size: int)
    ensures 1000 <= size <= 999_000 && (1000 <= p.maxSize <= 999_000 ==> size == p.maxSize)
    ensures (p.maxSize < 1000 ==> size == 1000) && (p.maxSize > 999_000 ==> size == 999_000)
  {
    Max(1000, Min(MAX_BLOCK_SIZE - 1000, p.maxSize))
  }

  // ---------- which transactions wait ----------

  /** The output can be read from a transaction on the chain. */
  predicate OnChain(read: Reader, base: Index, o: OutPoint) {
    && o.hash in base && read(o.hash, base[o.hash].pos).Some?
    && o.n < |read(o.hash, base[o.hash].pos).value.vout|
  }

  predicate InPool(pool: Pool, o: OutPoint) {
    o.hash in pool && o.n < |pool[o.hash].vout|
  }

  predicate MayInclude(p: Policy, tx: Tx) {
    !tx.IsCoinBase() && !tx.IsCoinStake() && p.isFinal(tx)
  }

  /** Every transaction that may be included spends outputs on the chain or in the pool. */
  ghost predicate InputsKnown(read: Reader, base: Index, pool: Pool, p: Policy) {
    forall h, i :: h in pool && MayInclude(p, pool[h]) && 0 <= i < |pool[h].vin| ==>
      OnChain(read, base, pool[h].vin[i]) || InPool(pool, pool[h].vin[i])
  }

  ghost function ParentsOf(read: Reader, base: Index, vin: seq<OutPoint>): set<Hash> {
    set i | 0 <= i < |vin| && !OnChain(read, base, vin[i]) :: vin[i].hash
  }

  /** The parents of the transactions among `ids` that may be included. */
  ghost function ParentMap(read: Reader, base: Index, pool: Pool, p: Policy, ids: set<Hash>): Parents {
    map h | h in pool && h in ids && MayInclude(p, pool[h]) :: ParentsOf(read, base, pool[h].vin)
  }

  // ---------- ranks ----------

  ghost function InputOf(read: Reader, base: Index, pool: Pool, o: OutPoint): int {
    if OnChain(read, base, o) then read(o.hash, base[o.hash].pos).value.vout[o.n].nValue
    else if InPool(pool, o) then pool[o.hash].vout[o.n].nValue
    else 0
  }

  ghost function AllInputs(read: Reader, base: Index, pool: Pool, vin: seq<OutPoint>): int {
    if vin == [] then 0 else AllInputs(read, base, pool, vin[..|vin| - 1]) + InputOf(read, base, pool, vin[|vin| - 1])
  }

  /** Value times age of the inputs on the chain. */
  ghost function Age(read: Reader, base: Index, p: Policy, vin: seq<OutPoint>): int {
    if vin == [] then 0
    else
      var o := vin[|vin| - 1];
      Age(read, base, p, vin[..|vin| - 1])
      + if OnChain(read, base, o) then read(o.hash, base[o.hash].pos).value.vout[o.n].nValue * p.depth(base[o.hash])
        else 0
  }

  ghost function RankOf(read: Reader, base: Index, pool: Pool, p: Policy, tx: Tx): (real, real) {
    (Age(read, base, p, tx.vin) as real / tx.nSize as real,
     (AllInputs(read, base, pool, tx.vin) - ValueOut(tx.vout)) as real / (tx.nSize as real / 1000.0))
  }

  /** A transaction with one input, which is on the chain: priority is value times age by size, and the other rank what
      it pays for a thousand bytes. */
  lemma RankOfOneInput(read: Reader, base: Index, pool: Pool, p: Policy, tx: Tx, o: OutPoint)
    requires tx.vin == [o] && OnChain(read, base, o)
    ensures var value, age := read(o.hash, base[o.hash].pos).value.vout[o.n].nValue, p.depth(base[o.hash]);
            var (priority, feePerKb) := RankOf(read, base, pool, p, tx);
            && priority == (value * age) as real / tx.nSize as real
            && feePerKb * tx.nSize as real == (value - ValueOut(tx.vout)) as real * 1000.0
  {
    var value, age := read(o.hash, base[o.hash].pos).value.vout[o.n].nValue, p.depth(base[o.hash]);
    assert tx.vin[..0] == [] && tx.vin[0] == o;
    assert Age(read, base, p, []) == 0 && AllInputs(read, base, pool, []) == 0;
    assert Age(read, base, p, tx.vin) == value * age;
    assert AllInputs(read, base, pool, tx.vin) == value;
    var paid, size := (AllInputs(read, base, pool, tx.vin) - ValueOut(tx.vout)) as real, tx.nSize as real;
    PerThousand(paid, size);
  }

  lemma PerThousand(paid: real, size: real)
    requires size > 0.0
    ensures paid / (size / 1000.0) * size == paid * 1000.0
  {
    var x := paid / (size / 1000.0);
    assert x * (size / 1000.0) == paid;
  }

  /** Every input counts for itself; one that is still in the pool has its value but no age. */
  lemma {:induction false} InputsCount(read: Reader, base: Index, pool: Pool, p: Policy, a: seq<OutPoint>,
                                       b: seq<OutPoint>)
    ensures Age(read, base, p, a + b) == Age(read, base, p, a) + Age(read, base, p, b)
    ensures AllInputs(read, base, pool, a + b) == AllInputs(read, base, pool, a) + AllInputs(read, base, pool, b)
    ensures forall o :: !OnChain(read, base, o) && InPool(pool, o) ==>
              Age(read, base, p, [o]) == 0 && AllInputs(read, base, pool, [o]) == pool[o.hash].vout[o.n].nValue
    decreases |b|
  {
    hide OnChain, InPool;
    forall o: OutPoint ensures [o][..0] == [] {
    }
    if b == [] {
      assert a + b == a;
    } else {
      var l := |b| - 1;
      InputsCount(read, base, pool, p, a, b[..l]);
      assert (a + b)[..|a| + l] == a + b[..l];
    }
  }

  /** Every queued or waiting transaction carries its own ranks. */
  ghost predicate Ranked(read: Reader, base: Index, pool: Pool, p: Policy, ready: seq<Ready>, orphans: Orphans) {
    && (forall i :: 0 <= i < |ready| ==>
          RankedAs(read, base, pool, p, ready[i].id, ready[i].priority, ready[i].feePerKb))
    && (forall h :: h in orphans ==> RankedAs(read, base, pool, p, h, orphans[h].priority, orphans[h].feePerKb))
  }

  /** A pool transaction as it stands in the queue. */
  ghost function RankEntry(read: Reader, base: Index, pool: Pool, p: Policy, h: Hash): Ready
    requires h in pool
  {
    var rank := RankOf(read, base, pool, p, pool[h]);
    Ready(rank.0, rank.1, h)
  }

  ghost predicate RankedAs(read: Reader, base: Index, pool: Pool, p: Policy, h: Hash, priority: real, feePerKb: real) {
    h in pool && (priority, feePerKb) == RankOf(read, base, pool, p, pool[h])
  }

  // ---------- building the queue ----------

  /** The dependers after some parents of `id` were noted. */
  ghost predicate Noted(before: Dependers, after: Dependers, id: Hash, parents: set<Hash>) {
    forall p, h :: Lists(after, p, h) <==> Lists(before, p, h) || (h == id && p in parents)
  }

  function Note(d: Dependers, p: Hash, id: Hash): Dependers {
    d[p := (if p in d then d[p] else []) + [id]]
  }

  lemma NoteStep(before: Dependers, after: Dependers, id: Hash, parents: set<Hash>, p: Hash)
    requires Noted(before, after, id, parents)
    ensures Noted(before, Note(after, p, id), id, parents + {p})
  {
    forall q, h ensures Lists(Note(after, p, id), q, h) <==> Lists(before, q, h) || (h == id && q in parents + {p}) {
      assert Lists(after, q, h) <==> Lists(before, q, h) || (h == id && q in parents);
      assert Lists(Note(after, p, id), q, h) <==> Lists(after, q, h) || (q == p && h == id);
    }
  }

  lemma ParentsStep(read: Reader, base: Index, vin: seq<OutPoint>, i: nat)
    requires i < |vin|
    ensures ParentsOf(read, base, vin[..i + 1])
            == ParentsOf(read, base, vin[..i]) + if OnChain(read, base, vin[i]) then {} else {vin[i].hash}
  {
    var more, less := vin[..i + 1], vin[..i];
    assert forall j :: 0 <= j < i ==> more[j] == less[j];
    assert more[i] == vin[i];
    forall h | h in ParentsOf(read, base, less) ensures h in ParentsOf(read, base, more) {
      var j :| 0 <= j < |less| && !OnChain(read, base, less[j]) && less[j].hash == h;
      assert more[j].hash == h;
    }
  }

  /** Looks up the inputs of a transaction; those not on the chain are parents to wait for. */
  method ScanInputs(db: TxDB, read: Reader, pool: Pool, p: Policy, tx: Tx, dependers: Dependers)
    returns (dependsOn: set<Hash>, after: Dependers, totalIn: int, age: int)
    requires db.Valid()
    requires forall i :: 0 <= i < |tx.vin| ==> OnChain(read, db.View(), tx.vin[i]) || InPool(pool, tx.vin[i])
    ensures dependsOn == ParentsOf(read, db.View(), tx.vin) && Noted(dependers, after, tx.txid, dependsOn)
    ensures totalIn == AllInputs(read, db.View(), pool, tx.vin) && age == Age(read, db.View(), p, tx.vin)
  {
    hide Noted, ParentsOf;
    ghost var base := db.View();
    dependsOn, after, totalIn, age := {}, dependers, 0, 0;
    ScanNone(read, base, dependers, tx.txid);
    assert tx.vin[..0] == [];
    for i := 0 to |tx.vin|
      invariant dependsOn == ParentsOf(read, base, tx.vin[..i]) && Noted(dependers, after, tx.txid, dependsOn)
      invariant totalIn == AllInputs(read, base, pool, tx.vin[..i]) && age == Age(read, base, p, tx.vin[..i])
    {
      var o := tx.vin[i];
      assert tx.vin[..i + 1][..i] == tx.vin[..i] && tx.vin[..i + 1][i] == o;
      ParentsStep(read, base, tx.vin, i);
      var e := db.ReadTxIndex(o.hash);
      if e.None? || read(o.hash, e.value.pos).None? || o.n >= |read(o.hash, e.value.pos).value.vout| {
        assert !OnChain(read, base, o);
        NoteStep(dependers, after, tx.txid, dependsOn, o.hash);
        after := Note(after, o.hash, tx.txid);
        dependsOn := dependsOn + {o.hash};
        totalIn := totalIn + pool[o.hash].vout[o.n].nValue;
      } else {
        assert OnChain(read, base, o);
        var value := read(o.hash, e.value.pos).value.vout[o.n].nValue;
        totalIn := totalIn + value;
        age := age + value * p.depth(e.value);
      }
    }
    assert tx.vin[..|tx.vin|] == tx.vin;
  }

  lemma ScanNone(read: Reader, base: Index, dependers: Dependers, id: Hash)
    ensures ParentsOf(read, base, []) == {} && Noted(dependers, dependers, id, {})
  {
  }

  lemma AddWaiting(parents: Parents, ready: seq<Ready>, orphans: Orphans, h: Hash, deps: set<Hash>, e: Ready, o: Orphan)
    requires Bookkeeping(parents, {}, {}, ready, orphans) && h !in parents && e.id == h && o.dependsOn == deps
    ensures deps == {} ==> Bookkeeping(parents[h := deps], {}, {}, ready + [e], orphans)
    ensures deps != {} ==> Bookkeeping(parents[h := deps], {}, {}, ready, orphans[h := o])
  {
    var more := parents[h := deps];
    assert !Released(parents, {}, h);
    forall x ensures Released(more, {}, x) <==> Released(parents, {}, x) || (x == h && deps == {}) {
    }
    if deps == {} {
      forall x ensures Queued(ready + [e], x) <==> Queued(ready, x) || x == h {
        QueuedPush(ready, e, x);
      }
      NoneTwicePush(ready, e);
    }
  }

  lemma AddDepender(parents: Parents, before: Dependers, after: Dependers, h: Hash, deps: set<Hash>)
    requires DependersOk(parents, before) && Noted(before, after, h, deps) && h !in parents
    ensures DependersOk(parents[h := deps], after)
  {
    var more := parents[h := deps];
    forall q, x ensures Lists(after, q, x) <==> x in more && q in more[x] {
      assert Lists(after, q, x) <==> Lists(before, q, x) || (x == h && q in deps);
      assert Lists(before, q, x) <==> x in parents && q in parents[x];
    }
  }

  ghost function FirstIds(order: seq<Hash>, i: nat): set<Hash> {
    set x | x in order[..Min(i, |order|)]
  }

  lemma ParentMapStep(read: Reader, base: Index, pool: Pool, p: Policy, order: seq<Hash>, i: nat)
    requires i < |order| && order[i] in pool && Increasing(order)
    ensures var h := order[i]; var less := ParentMap(read, base, pool, p, FirstIds(order, i));
            && h !in less
            && ParentMap(read, base, pool, p, FirstIds(order, i + 1))
               == if MayInclude(p, pool[h]) then less[h := ParentsOf(read, base, pool[h].vin)] else less
  {
    hide MayInclude, ParentsOf;
    assert order[..i + 1] == order[..i] + [order[i]];
    assert order[i] !in order[..i];
  }

  lemma ParentMapAll(read: Reader, base: Index, pool: Pool, p: Policy, order: seq<Hash>)
    requires forall x :: x in pool.Keys <==> x in order
    ensures ParentMap(read, base, pool, p, FirstIds(order, |order|)) == ParentMap(read, base, pool, p, pool.Keys)
    ensures ParentMap(read, base, pool, p, FirstIds(order, 0)) == map[]
  {
    hide MayInclude, ParentsOf;
    assert order[..|order|] == order;
  }

  lemma NothingQueued(read: Reader, base: Index, pool: Pool, p: Policy)
    ensures Bookkeeping(map[], {}, {}, [], map[]) && DependersOk(map[], map[]) && Ranked(read, base, pool, p, [], map[])
  {
  }

  lemma RankedMore(read: Reader, base: Index, pool: Pool, p: Policy, ready: seq<Ready>, orphans: Orphans, h: Hash,
                   e: Ready, o: Orphan)
    requires Ranked(read, base, pool, p, ready, orphans) && e.id == h
    requires RankedAs(read, base, pool, p, h, e.priority, e.feePerKb) && o.priority == e.priority
             && o.feePerKb == e.feePerKb
    ensures Ranked(read, base, pool, p, ready + [e], orphans) && Ranked(read, base, pool, p, ready, orphans[h := o])
  {
    hide RankedAs;
  }

  /** Sorts the pool into transactions to consider now and transactions that wait for parents. */
  method BuildQueue(db: TxDB, read: Reader, pool: Pool, p: Policy)
    returns (ready: seq<Ready>, orphans: Orphans, dependers: Dependers)
    requires db.Valid() && PoolOk(pool) && InputsKnown(read, db.View(), pool, p)
    ensures Bookkeeping(ParentMap(read, db.View(), pool, p, pool.Keys), {}, {}, ready, orphans)
    ensures DependersOk(ParentMap(read, db.View(), pool, p, pool.Keys), dependers)
    ensures Ranked(read, db.View(), pool, p, ready, orphans)
  {
    hide ParentMap, Bookkeeping, DependersOk, Ranked, Noted, MayInclude, ParentsOf, OnChain, InPool, RankOf, Increasing;
    ghost var base := db.View();
    ready, orphans, dependers := [], map[], map[];
    var order := Ascending(pool.Keys);
    ParentMapAll(read, base, pool, p, order);
    NothingQueued(read, base, pool, p);
    for i := 0 to |order|
      invariant Bookkeeping(ParentMap(read, base, pool, p, FirstIds(order, i)), {}, {}, ready, orphans)
      invariant DependersOk(ParentMap(read, base, pool, p, FirstIds(order, i)), dependers)
      invariant Ranked(read, base, pool, p, ready, orphans)
    {
      var h := order[i];
      var tx := pool[h];
      ParentMapStep(read, base, pool, p, order, i);
      ghost var parents := ParentMap(read, base, pool, p, FirstIds(order, i));
      if !MayInclude(p, tx) {
        continue;
      }
      var dependsOn, after, totalIn, age := ScanInputs(db, read, pool, p, tx, dependers);
      AddDepender(parents, dependers, after, h, dependsOn);
      dependers := after;
      var priority := age as real / tx.nSize as real;
      var feePerKb := (totalIn - ValueOut(tx.vout)) as real / (tx.nSize as real / 1000.0);
      var e, o := Ready(priority, feePerKb, h), Orphan(dependsOn, priority, feePerKb);
      AddWaiting(parents, ready, orphans, h, dependsOn, e, o);
      RankIs(read, base, pool, p, h, totalIn, age);
      RankedMore(read, base, pool, p, ready, orphans, h, e, o);
      if dependsOn != {} {
        orphans := orphans[h := o];
      } else {
        ready := ready + [e];
      }
    }
  }

  lemma RankIs(read: Reader, base: Index, pool: Pool, p: Policy, h: Hash, totalIn: int, age: int)
    requires h in pool && totalIn == AllInputs(read, base, pool, pool[h].vin) && age == Age(read, base, p, pool[h].vin)
    ensures RankedAs(read, base, pool, p, h, age as real / pool[h].nSize as real,
                     (totalIn - ValueOut(pool[h].vout)) as real / (pool[h].nSize as real / 1000.0))
  {
  }

  // ---------- filling the block ----------

  /** Signature operations of the listed transactions, given what was fetched for their inputs. */
  ghost function SigOps(p: Policy, vtx: seq<Tx>, fetched: seq<Inputs>): nat
    requires |fetched| == |vtx|
  {
    if vtx == [] then 0
    else
      var l := |vtx| - 1;
      SigOps(p, vtx[..l], fetched[..l]) + p.legacySigOps(vtx[l]) + p.p2shSigOps(vtx[l], fetched[l])
  }

  /** A transaction passed the tests of the policy when the ones before it were in the block. */
  ghost predicate PassedAt(r: Rules, rd: Reader, base: Index, p: Policy, w: Where, vtx: seq<Tx>, fetched: seq<Inputs>,
                           i: nat)
  {
    && i < |vtx| && i < |fetched|
    && MayInclude(p, vtx[i])
    && vtx[i].nTime <= p.now && (p.fProofOfStake ==> vtx[i].nTime <= p.coinbaseTime)
    && var d := Assemble(r, rd, base, vtx[..i], w);
       && d.Some? && InputsMatch(rd, d.value.idx, vtx[i].vin, fetched[i])
       && AllFetched(rd, d.value.idx, vtx[i].vin)
       && ValueIn(rd, d.value.idx, vtx[i].vin) - ValueOut(vtx[i].vout) >= p.minFee(vtx[i], 1000 + SizeOf(vtx[..i]))
  }

  /** The block so far, with its totals; `test` holds the index entries that differ from the chain's. */
  ghost predicate Template(r: Rules, read: Reader, pool: Pool, base: Index, p: Policy, w: Where,
                           vtx: seq<Tx>, fetched: seq<Inputs>, test: Index, fees: int, size: int, sigOps: int)
  {
    && |fetched| == |vtx|
    && Assemble(r, PoolReader(read, pool), base, vtx, w) == Some(Draft(base + test, fees))
    && FromPool(pool, vtx) && DistinctTxids(vtx) && (ConfirmedAreSpent(pool, base, p) ==> Txids(vtx) !! base.Keys)
    && size == 1000 + SizeOf(vtx) && (vtx != [] ==> size < BlockMaxSize(p))
    && sigOps == 100 + SigOps(p, vtx, fetched) && (vtx != [] ==> sigOps < MAX_BLOCK_SIGOPS)
    && forall i :: 0 <= i < |vtx| ==> PassedAt(r, PoolReader(read, pool), base, p, w, vtx, fetched, i)
  }

  /** Pool transactions that the chain already has are recorded as spending their inputs. */
  ghost predicate ConfirmedAreSpent(pool: Pool, base: Index, p: Policy) {
    forall h :: h in pool && h in base && MayInclude(p, pool[h]) ==> exists o :: o in pool[h].vin && SpentIn(base, o)
  }

  lemma PassedBefore(r: Rules, rd: Reader, base: Index, p: Policy, w: Where, vtx: seq<Tx>, fetched: seq<Inputs>, tx: Tx,
                     f: Inputs, i: nat)
    requires PassedAt(r, rd, base, p, w, vtx, fetched, i)
    ensures PassedAt(r, rd, base, p, w, vtx + [tx], fetched + [f], i)
  {
    assert (vtx + [tx])[..i] == vtx[..i];
  }

  /** The tests a transaction passes on its way into the block. */
  ghost predicate Fits(r: Rules, rd: Reader, view: Index, p: Policy, tx: Tx, f: Inputs, size: int, sigOps: int) {
    && MayInclude(p, tx) && tx.nTime <= p.now && (p.fProofOfStake ==> tx.nTime <= p.coinbaseTime)
    && InputsMatch(rd, view, tx.vin, f) && AllFetched(rd, view, tx.vin)
    && size >= 0 && ValueIn(rd, view, tx.vin) - ValueOut(tx.vout) >= p.minFee(tx, size)
    && size + tx.nSize < BlockMaxSize(p)
    && sigOps + p.legacySigOps(tx) + p.p2shSigOps(tx, f) < MAX_BLOCK_SIGOPS
  }

  lemma TemplateStep(r: Rules, read: Reader, pool: Pool, base: Index, p: Policy, w: Where, vtx: seq<Tx>,
                     fetched: seq<Inputs>, test: Index, fees: int, size: int, sigOps: int, tx: Tx, f: Inputs,
                         test': Index, txFees: int)
    requires Template(r, read, pool, base, p, w, vtx, fetched, test, fees, size, sigOps)
    requires Fits(r, PoolReader(read, pool), base + test, p, tx, f, size, sigOps)
    requires tx.txid in pool && pool[tx.txid] == tx && tx.txid !in Txids(vtx)
    requires AssembleOne(r, PoolReader(read, pool), Draft(base + test, fees), tx, w)
               == Some(Draft(base + test', fees + txFees))
    ensures Template(r, read, pool, base, p, w, vtx + [tx], fetched + [f], test', fees + txFees, size + tx.nSize,
                     sigOps + p.legacySigOps(tx) + p.p2shSigOps(tx, f))
    ensures Txids(vtx + [tx]) == Txids(vtx) + {tx.txid}
  {
    hide Assemble, PoolReader, BlockMaxSize, AssembleOne, PassedAt, SigOps, SizeOf, Txids, DistinctTxids,
      ConfirmedAreSpent, ValueIn, InputsMatch, AllFetched;
    var rd := PoolReader(read, pool);
    AssembleSnoc(r, rd, base, vtx, tx, w);
    if ConfirmedAreSpent(pool, base, p) {
      StaysOut(r, rd, pool, base, p, vtx, w, tx);
    }
    var all, fs := vtx + [tx], fetched + [f];
    TotalsSnoc(p, vtx, fetched, tx, f);
    forall i | 0 <= i < |all| ensures PassedAt(r, rd, base, p, w, all, fs, i) {
      if i < |vtx| {
        PassedBefore(r, rd, base, p, w, vtx, fetched, tx, f, i);
      } else {
        PassedLast(r, rd, base, p, w, vtx, fetched, base + test, size, sigOps, tx, f);
      }
    }
    DistinctSnoc(vtx, tx);
  }

  lemma TotalsSnoc(p: Policy, vtx: seq<Tx>, fetched: seq<Inputs>, tx: Tx, f: Inputs)
    requires |fetched| == |vtx|
    ensures SizeOf(vtx + [tx]) == SizeOf(vtx) + tx.nSize && Txids(vtx + [tx]) == Txids(vtx) + {tx.txid}
    ensures SigOps(p, vtx + [tx], fetched + [f]) == SigOps(p, vtx, fetched) + p.legacySigOps(tx) + p.p2shSigOps(tx, f)
  {
    var all, fs := vtx + [tx], fetched + [f];
    assert all[..|vtx|] == vtx && fs[..|vtx|] == fetched && all[..|all|] == all;
    TxidsSnoc(all, |vtx|);
  }

  lemma PassedLast(r: Rules, rd: Reader, base: Index, p: Policy, w: Where, vtx: seq<Tx>, fetched: seq<Inputs>,
                   view: Index, size: int, sigOps: int, tx: Tx, f: Inputs)
    requires |fetched| == |vtx| && Fits(r, rd, view, p, tx, f, size, sigOps) && size == 1000 + SizeOf(vtx)
    requires Assemble(r, rd, base, vtx, w).Some? && Assemble(r, rd, base, vtx, w).value.idx == view
    ensures PassedAt(r, rd, base, p, w, vtx + [tx], fetched + [f], |vtx|)
  {
    hide Assemble, ValueIn, InputsMatch, AllFetched, MayInclude, BlockMaxSize, SizeOf;
    assert (vtx + [tx])[..|vtx|] == vtx;
  }

  lemma DistinctSnoc(vtx: seq<Tx>, tx: Tx)
    requires DistinctTxids(vtx) && tx.txid !in Txids(vtx)
    ensures DistinctTxids(vtx + [tx])
  {
    assert forall i :: 0 <= i < |vtx| ==> vtx[i].txid in Txids(vtx);
  }

  lemma StaysOut(r: Rules, rd: Reader, pool: Pool, base: Index, p: Policy, vtx: seq<Tx>, w: Where, tx: Tx)
    requires Assemble(r, rd, base, vtx, w).Some? && DistinctTxids(vtx) && Txids(vtx) !! base.Keys
    requires ConfirmedAreSpent(pool, base, p) && tx.txid in pool && pool[tx.txid] == tx && MayInclude(p, tx)
    requires AssembleOne(r, rd, Assemble(r, rd, base, vtx, w).value, tx, w).Some?
    ensures tx.txid !in base
  {
    hide Assemble, AssembleOne;
    if tx.txid in base {
      var o :| o in tx.vin && SpentIn(base, o);
      SpentStaysOut(r, rd, base, vtx, w, tx, o);
    }
  }

  /** A transaction does not connect, pays too little, or has too many signature operations. */
  ghost predicate CannotAdd(r: Rules, rd: Reader, d: Draft, p: Policy, w: Where, tx: Tx, f: Inputs, size: nat,
                            sigOps: nat)
  {
    || AssembleOne(r, rd, d, tx, w).None?
    || (AllFetched(rd, d.idx, tx.vin) && InputsMatch(rd, d.idx, tx.vin, f)
        && (ValueIn(rd, d.idx, tx.vin) - ValueOut(tx.vout) < p.minFee(tx, size)
            || sigOps + p.legacySigOps(tx) + p.p2shSigOps(tx, f) >= MAX_BLOCK_SIGOPS))
  }

  /** Tests one transaction against the block so far and connects its inputs in a copy of the changed entries. */
  method TryAdd(db: TxDB, r: Rules, read: Reader, pool: Pool, p: Policy, w: Where, tx: Tx, test: Index, size: nat,
                sigOps: nat, ghost fees: int)
    returns (ok: bool, test': Index, txFees: int, txSigOps: nat, ghost f: Inputs)
    requires db.Valid() && MayInclude(p, tx) && tx.nTime <= p.now && (p.fProofOfStake ==> tx.nTime <= p.coinbaseTime)
    requires size + tx.nSize < BlockMaxSize(p)
    ensures ok <==> !CannotAdd(r, PoolReader(read, pool), Draft(db.View() + test, fees), p, w, tx, f, size, sigOps)
    ensures ok ==> Fits(r, PoolReader(read, pool), db.View() + test, p, tx, f, size, sigOps)
    ensures ok ==> txSigOps == p.legacySigOps(tx) + p.p2shSigOps(tx, f)
    ensures ok ==> AssembleOne(r, PoolReader(read, pool), Draft(db.View() + test, fees), tx, w)
                   == Some(Draft(db.View() + test', fees + txFees))
  {
    hide InputsAllowed, BlockMaxSize, InputsMatch, AllFetched, PoolReader, AssembleOne;
    var rd := PoolReader(read, pool);
    ghost var base := db.View();
    ghost var d := Draft(base + test, fees);
    ok, test', txFees, txSigOps, f := false, test, 0, p.legacySigOps(tx), map[];
    var nMinFee := p.minFee(tx, size);
    var fetched, inputs := FetchInputs(db, rd, test, tx);
    AddsExactly(r, rd, d, tx, w);
    if !fetched {
      return;
    }
    f := inputs;
    var valueIn := GetValueIn(rd, d.idx, tx.vin, inputs);
    txFees := valueIn - ValueOut(tx.vout);
    if txFees < nMinFee {
      return;
    }
    txSigOps := txSigOps + p.p2shSigOps(tx, inputs);
    if sigOps + txSigOps >= MAX_BLOCK_SIGOPS {
      return;
    }
    ok, test' := ConnectInputs(r, tx, inputs, test, MINER_POS, w, rd, base);
    if !ok {
      return;
    }
    PutOnTop(base, test', tx.txid, FreshEntry(MINER_POS, |tx.vout|));
    test' := test'[tx.txid := FreshEntry(MINER_POS, |tx.vout|)];
  }

  /** When a transaction connects to a draft, and what it leaves. */
  lemma AddsExactly(r: Rules, rd: Reader, d: Draft, tx: Tx, w: Where)
    requires !tx.IsCoinBase()
    ensures AssembleOne(r, rd, d, tx, w).Some? <==>
              InputsAllowed(r, rd, d.idx, tx, w) && SpendAll(d.idx, tx.vin, MINER_POS).Some?
    ensures AssembleOne(r, rd, d, tx, w).Some? ==>
              && AllFetched(rd, d.idx, tx.vin)
              && AssembleOne(r, rd, d, tx, w).value
                 == Draft(SpendAll(d.idx, tx.vin, MINER_POS).value[tx.txid := FreshEntry(MINER_POS, |tx.vout|)],
                          d.fees + ValueIn(rd, d.idx, tx.vin) - ValueOut(tx.vout))
  {
  }

  lemma PoppedFewer(parents: Parents, popped: set<Hash>, id: Hash)
    requires id in parents && id !in popped
    ensures |parents.Keys - (popped + {id})| < |parents.Keys - popped|
  {
    assert parents.Keys - popped == parents.Keys - (popped + {id}) + {id};
  }

  lemma DependersWait(parents: Parents, included: set<Hash>, popped: set<Hash>, ready: seq<Ready>, orphans: Orphans,
                      dependers: Dependers, hash: Hash)
    requires Bookkeeping(parents, included, popped, ready, orphans) && DependersOk(parents, dependers)
    ensures hash in dependers ==> forall i :: 0 <= i < |dependers[hash]| ==> dependers[hash][i] in orphans
  {
    if hash in dependers {
      forall i | 0 <= i < |dependers[hash]| ensures dependers[hash][i] in orphans {
        assert Lists(dependers, hash, dependers[hash][i]);
      }
    }
  }

  /** The queue after the transactions that waited for `hash` are told, as the block-filling loop needs it. */
  method Include(ghost parents: Parents, ghost included: set<Hash>, ghost popped: set<Hash>, ready: seq<Ready>,
                 orphans: Orphans, dependers: Dependers, hash: Hash) returns (ready': seq<Ready>, orphans': Orphans)
    requires Bookkeeping(parents, included, popped, ready, orphans) && DependersOk(parents, dependers)
             && hash !in included
    ensures Bookkeeping(parents, included + {hash}, popped, ready', orphans')
    ensures Told(ready, orphans, ready', orphans', if hash in dependers then dependers[hash] else [], hash)
  {
    FreeInBooks(parents, included, popped, ready, orphans);
    DependersWait(parents, included, popped, ready, orphans, dependers, hash);
    hide Bookkeeping, DependersOk, NoneTwice, QueuedAreFree, Told;
    var list := if hash in dependers then dependers[hash] else [];
    ready', orphans' := Release(ready, orphans, list, hash);
    IncludeKeeps(parents, included, popped, ready, orphans, dependers, hash, ready', orphans');
  }

  lemma ToldKeepsRanks(read: Reader, base: Index, pool: Pool, p: Policy, ready: seq<Ready>, orphans: Orphans,
                       ready': seq<Ready>, orphans': Orphans, list: seq<Hash>, hash: Hash)
    requires Ranked(read, base, pool, p, ready, orphans) && Told(ready, orphans, ready', orphans', list, hash)
    ensures Ranked(read, base, pool, p, ready', orphans')
  {
    hide RankedAs;
    forall i | 0 <= i < |ready'|
      ensures RankedAs(read, base, pool, p, ready'[i].id, ready'[i].priority, ready'[i].feePerKb)
    {
      if ready'[i] in ready {
        var j :| 0 <= j < |ready| && ready[j] == ready'[i];
      } else {
        assert RankOfOrphan(orphans, ready'[i]);
      }
    }
  }

  lemma PopKeepsRanks(read: Reader, base: Index, pool: Pool, p: Policy, ready: seq<Ready>, orphans: Orphans, at: nat)
    requires Ranked(read, base, pool, p, ready, orphans) && at < |ready|
    ensures Ranked(read, base, pool, p, ready[..at] + ready[at + 1..], orphans)
    ensures ready[at].id in pool && ready[at] == RankEntry(read, base, pool, p, ready[at].id)
  {
    assert RankedAs(read, base, pool, p, ready[at].id, ready[at].priority, ready[at].feePerKb);
  }

  /** The limits a transaction must keep before its inputs are even fetched. */
  predicate WithinLimits(p: Policy, tx: Tx, e: Ready, size: nat, sigOps: nat, byFee: bool) {
    && size + tx.nSize < BlockMaxSize(p)
    && sigOps + p.legacySigOps(tx) < MAX_BLOCK_SIGOPS
    && tx.nTime <= p.now && (p.fProofOfStake ==> tx.nTime <= p.coinbaseTime)
    && !(byFee && e.feePerKb < p.minTxFee as real && size + tx.nSize >= Min(BlockMaxSize(p), p.minSize))
  }

  /** Ranking goes by fee once the block has its share of high-priority transactions or runs out of them. */
  predicate SwitchToFee(p: Policy, tx: Tx, e: Ready, size: nat) {
    size + tx.nSize >= Min(BlockMaxSize(p), p.prioritySize) || e.priority < (COIN * 144 / 250) as real
  }

  /** The block so far and its running totals. */
  datatype Progress = Progress(vtx: seq<Tx>, mapTestPool: Index, nFees: int, nBlockSize: nat, nBlockSigOps: nat)

  ghost predicate Sound(r: Rules, read: Reader, pool: Pool, base: Index, p: Policy, w: Where, s: Progress,
                        fetched: seq<Inputs>)
  {
    Template(r, read, pool, base, p, w, s.vtx, fetched, s.mapTestPool, s.nFees, s.nBlockSize, s.nBlockSigOps)
  }

  lemma EmptyBlock(r: Rules, read: Reader, pool: Pool, base: Index, p: Policy, w: Where)
    ensures Sound(r, read, pool, base, p, w, Progress([], map[], 0, 1000, 100), [])
    ensures Txids([]) == {}
  {
    assert base + map[] == base;
  }

  // ---------- why a transaction is left out ----------

  /** The decision on a transaction that was not included: after how many included ones it was considered, what was
      fetched for it, and whether fees ranked then. */
  datatype Verdict = Verdict(k: nat, f: Inputs, byFee: bool)

  /** All its parents are among the first `k` transactions of the block. */
  ghost predicate ReleasedAt(read: Reader, base: Index, pool: Pool, p: Policy, vtx: seq<Tx>, k: nat, h: Hash) {
    k <= |vtx| && h in pool && Released(ParentMap(read, base, pool, p, pool.Keys), Txids(vtx[..k]), h)
  }

  /** A transaction may be taken if it is final, neither coinbase nor coinstake, and each of its inputs is on the chain
      or from one of the first `k` transactions. */
  lemma ReleasedMeans(read: Reader, base: Index, pool: Pool, p: Policy, vtx: seq<Tx>, k: nat, h: Hash)
    requires k <= |vtx|
    ensures ReleasedAt(read, base, pool, p, vtx, k, h) <==>
              && h in pool && !pool[h].IsCoinBase() && !pool[h].IsCoinStake() && p.isFinal(pool[h])
              && forall i :: 0 <= i < |pool[h].vin| ==>
                   OnChain(read, base, pool[h].vin[i]) || MadeBefore(vtx, k, pool[h].vin[i].hash)
  {
    hide OnChain;
    if h in pool {
      var vin, ids := pool[h].vin, Txids(vtx[..k]);
      assert forall i :: 0 <= i < k ==> vtx[..k][i] == vtx[i];
      assert forall x :: MadeBefore(vtx, k, x) <==> x in ids;
      if forall i :: 0 <= i < |vin| ==> OnChain(read, base, vin[i]) || vin[i].hash in ids {
        assert ParentsOf(read, base, vin) <= ids;
      }
      if ParentsOf(read, base, vin) <= ids {
        forall i | 0 <= i < |vin| && !OnChain(read, base, vin[i]) ensures vin[i].hash in ids {
          assert vin[i].hash in ParentsOf(read, base, vin);
        }
      }
    }
  }

  /** Fees rank from the start, or since a transaction that was considered after at most `k` others made them rank. */
  ghost predicate FeesRank(read: Reader, base: Index, pool: Pool, p: Policy, vtx: seq<Tx>, k: nat) {
    || Min(BlockMaxSize(p), p.prioritySize) <= 0
    || exists j: nat, g :: j <= k && SwitchesAt(read, base, pool, p, vtx, j, g)
  }

  ghost predicate SwitchesAt(read: Reader, base: Index, pool: Pool, p: Policy, vtx: seq<Tx>, j: nat, g: Hash) {
    && ReleasedAt(read, base, pool, p, vtx, j, g)
    && SwitchToFee(p, pool[g], RankEntry(read, base, pool, p, g), 1000 + SizeOf(vtx[..j]))
  }

  /** When the first `v.k` transactions were in the block, all parents of `h` were, and `h` failed a test. */
  ghost predicate TurnedAway(r: Rules, read: Reader, pool: Pool, base: Index, p: Policy, w: Where,
                             vtx: seq<Tx>, fetched: seq<Inputs>, h: Hash, v: Verdict)
  {
    && |fetched| == |vtx| && ReleasedAt(read, base, pool, p, vtx, v.k, h)
    && (v.byFee ==> FeesRank(read, base, pool, p, vtx, v.k))
    && var size := 1000 + SizeOf(vtx[..v.k]); var sigOps := 100 + SigOps(p, vtx[..v.k], fetched[..v.k]);
       var d := Assemble(r, PoolReader(read, pool), base, vtx[..v.k], w);
       && d.Some?
       && (|| !WithinLimits(p, pool[h], RankEntry(read, base, pool, p, h), size, sigOps, v.byFee)
           || CannotAdd(r, PoolReader(read, pool), d.value, p, w, pool[h], v.f, size, sigOps))
  }

  lemma TurnedAwayStays(r: Rules, read: Reader, pool: Pool, base: Index, p: Policy, w: Where,
                        vtx: seq<Tx>, fetched: seq<Inputs>, h: Hash, v: Verdict, tx: Tx, f: Inputs)
    requires TurnedAway(r, read, pool, base, p, w, vtx, fetched, h, v)
    ensures TurnedAway(r, read, pool, base, p, w, vtx + [tx], fetched + [f], h, v)
  {
    hide SigOps, SizeOf, Assemble, PoolReader, WithinLimits, CannotAdd, ParentMap, Txids, FeesRank, RankOf;
    assert (vtx + [tx])[..v.k] == vtx[..v.k] && (fetched + [f])[..v.k] == fetched[..v.k];
    if v.byFee {
      FeesStillRank(read, base, pool, p, vtx, v.k, tx);
    }
  }

  lemma FeesStillRank(read: Reader, base: Index, pool: Pool, p: Policy, vtx: seq<Tx>, k: nat, tx: Tx)
    requires FeesRank(read, base, pool, p, vtx, k)
    ensures FeesRank(read, base, pool, p, vtx + [tx], k)
  {
    hide SwitchToFee, ParentMap, Txids, SizeOf, RankOf;
    if Min(BlockMaxSize(p), p.prioritySize) > 0 {
      var j: nat, g :| j <= k && SwitchesAt(read, base, pool, p, vtx, j, g);
      assert (vtx + [tx])[..j] == vtx[..j];
      assert SwitchesAt(read, base, pool, p, vtx + [tx], j, g);
    }
  }

  /** Every transaction that was taken off the queue is in the block or was turned away. */
  ghost predicate Decided(r: Rules, read: Reader, pool: Pool, base: Index, p: Policy, w: Where,
                          vtx: seq<Tx>, fetched: seq<Inputs>, popped: set<Hash>, verdicts: map<Hash, Verdict>)
  {
    forall h :: h in popped && h !in Txids(vtx) ==>
        h in verdicts && TurnedAway(r, read, pool, base, p, w, vtx, fetched, h, verdicts[h])
  }

  lemma DecidedIn(r: Rules, read: Reader, pool: Pool, base: Index, p: Policy, w: Where, vtx: seq<Tx>,
                  fetched: seq<Inputs>, popped: set<Hash>, verdicts: map<Hash, Verdict>, tx: Tx, f: Inputs)
    requires Decided(r, read, pool, base, p, w, vtx, fetched, popped, verdicts)
             && Txids(vtx + [tx]) == Txids(vtx) + {tx.txid}
    ensures Decided(r, read, pool, base, p, w, vtx + [tx], fetched + [f], popped + {tx.txid}, verdicts)
  {
    hide TurnedAway, Txids;
    forall h | h in popped && h !in Txids(vtx + [tx])
      ensures h in verdicts && TurnedAway(r, read, pool, base, p, w, vtx + [tx], fetched + [f], h, verdicts[h])
    {
      TurnedAwayStays(r, read, pool, base, p, w, vtx, fetched, h, verdicts[h], tx, f);
    }
  }

  lemma DecidedOut(r: Rules, read: Reader, pool: Pool, base: Index, p: Policy, w: Where, vtx: seq<Tx>,
                   fetched: seq<Inputs>, popped: set<Hash>, verdicts: map<Hash, Verdict>, h: Hash, v: Verdict)
    requires Decided(r, read, pool, base, p, w, vtx, fetched, popped, verdicts)
    requires TurnedAway(r, read, pool, base, p, w, vtx, fetched, h, v)
    ensures Decided(r, read, pool, base, p, w, vtx, fetched, popped + {h}, verdicts[h := v])
  {
    hide TurnedAway, Txids;
  }

  /** The verdict on the transaction that is refused now. */
  lemma TurnedAwayNow(r: Rules, read: Reader, pool: Pool, base: Index, p: Policy, w: Where, s: Progress,
                      fetched: seq<Inputs>, h: Hash, f: Inputs, byFee: bool)
    requires Sound(r, read, pool, base, p, w, s, fetched) && ReleasedAt(read, base, pool, p, s.vtx, |s.vtx|, h)
    requires byFee ==> FeesRank(read, base, pool, p, s.vtx, |s.vtx|)
    requires || !WithinLimits(p, pool[h], RankEntry(read, base, pool, p, h), s.nBlockSize, s.nBlockSigOps, byFee)
             || CannotAdd(r, PoolReader(read, pool), Draft(base + s.mapTestPool, s.nFees), p, w, pool[h], f,
                  s.nBlockSize, s.nBlockSigOps)
    ensures TurnedAway(r, read, pool, base, p, w, s.vtx, fetched, h, Verdict(|s.vtx|, f, byFee))
  {
    hide SigOps, SizeOf, Assemble, PoolReader, WithinLimits, CannotAdd, ParentMap, Txids, FeesRank, PassedAt, RankOf;
    assert s.vtx[..|s.vtx|] == s.vtx && fetched[..|s.vtx|] == fetched;
  }

  /** The whole outcome: the block with its totals; and every transaction whose parents are all in the block is in it
      itself or was turned away. */
  ghost predicate Filled(r: Rules, read: Reader, pool: Pool, base: Index, p: Policy, w: Where, s: Progress,
                         fetched: seq<Inputs>)
  {
    && Sound(r, read, pool, base, p, w, s, fetched)
    && forall h :: Released(ParentMap(read, base, pool, p, pool.Keys), Txids(s.vtx), h) && h !in Txids(s.vtx) ==>
         exists v :: TurnedAway(r, read, pool, base, p, w, s.vtx, fetched, h, v)
  }

  // ---------- the order of consideration ----------

  /** Transaction `h` was considered when `k` transactions were in the block, with fees or priorities ranking. */
  datatype Step = Step(h: Hash, k: nat, byFee: bool)

  ghost predicate Considered(steps: seq<Step>, n: nat, h: Hash) {
    exists i :: 0 <= i < n && i < |steps| && steps[i].h == h
  }

  /** Transaction `g` comes before `h`: by fee rate and then priority, or by priority and then fee rate. */
  ghost predicate Outranks(read: Reader, base: Index, pool: Pool, p: Policy, byFee: bool, g: Hash, h: Hash) {
    && g in pool && h in pool
    && var (a, b) := (RankOf(read, base, pool, p, pool[g]), RankOf(read, base, pool, p, pool[h]));
       if byFee then a.1 > b.1 || (a.1 == b.1 && a.0 > b.0) else a.0 > b.0 || (a.0 == b.0 && a.1 > b.1)
  }

  /** No transaction whose parents were all in the block, and which was not considered before, outranks this one. */
  ghost predicate StepOk(read: Reader, base: Index, pool: Pool, p: Policy, vtx: seq<Tx>, steps: seq<Step>, i: nat) {
    && i < |steps| && ReleasedAt(read, base, pool, p, vtx, steps[i].k, steps[i].h) && !Considered(steps, i, steps[i].h)
    && forall g :: ReleasedAt(read, base, pool, p, vtx, steps[i].k, g) && !Considered(steps, i, g) ==>
         !Outranks(read, base, pool, p, steps[i].byFee, g, steps[i].h)
  }

  /** The transaction kept the limits and filled the share of high-priority ones or had too low a priority for it. */
  ghost predicate EndsPriority(read: Reader, base: Index, pool: Pool, p: Policy, vtx: seq<Tx>, fetched: seq<Inputs>,
                               s: Step)
  {
    && s.h in pool && s.k <= |vtx| == |fetched|
    && var size, sigOps := 1000 + SizeOf(vtx[..s.k]), 100 + SigOps(p, vtx[..s.k], fetched[..s.k]);
       && WithinLimits(p, pool[s.h], RankEntry(read, base, pool, p, s.h), size, sigOps, s.byFee)
       && (|| size + pool[s.h].nSize >= Min(BlockMaxSize(p), p.prioritySize)
           || RankOf(read, base, pool, p, pool[s.h]).0 < (COIN * 144 / 250) as real)
  }

  /** Fees rank after `n` steps exactly if they do from the start or one of the steps ended the share of priority. */
  ghost predicate FlagOk(read: Reader, base: Index, pool: Pool, p: Policy, vtx: seq<Tx>, fetched: seq<Inputs>,
                         steps: seq<Step>, n: nat, byFee: bool)
  {
    byFee <==> || Min(BlockMaxSize(p), p.prioritySize) <= 0
               || exists i :: 0 <= i < n && i < |steps| && EndsPriority(read, base, pool, p, vtx, fetched, steps[i])
  }

  ghost predicate PlacedBy(vtx: seq<Tx>, steps: seq<Step>, a: nat) {
    a < |vtx| && exists i :: 0 <= i < |steps| && steps[i].h == vtx[a].txid && steps[i].k == a
  }

  /** A transaction that pays less than the least fee rate is left out once fees rank and the block has its least
      size. */
  ghost predicate NotFree(read: Reader, base: Index, pool: Pool, p: Policy, vtx: seq<Tx>, s: Step) {
    s.k < |vtx| && s.h == vtx[s.k].txid && s.byFee && RankOf(read, base, pool, p, vtx[s.k]).1 < p.minTxFee as real ==>
      1000 + SizeOf(vtx[..s.k]) + vtx[s.k].nSize < Min(BlockMaxSize(p), p.minSize)
  }

  /** The transactions of the block, and those left out, were considered in the order of their ranks. */
  ghost predicate Ordered(read: Reader, base: Index, pool: Pool, p: Policy, vtx: seq<Tx>, fetched: seq<Inputs>,
                          steps: seq<Step>)
  {
    && (forall i :: 0 <= i < |steps| ==> StepOk(read, base, pool, p, vtx, steps, i))
    && (forall i :: 0 <= i < |steps| ==> FlagOk(read, base, pool, p, vtx, fetched, steps, i, steps[i].byFee))
    && (forall a :: 0 <= a < |vtx| ==> PlacedBy(vtx, steps, a))
    && (forall i :: 0 <= i < |steps| ==> NotFree(read, base, pool, p, vtx, steps[i]))
    && (forall i, j :: 0 <= i < j < |steps| ==> steps[i].k <= steps[j].k)
  }

  /** Every transaction whose parents are all in the block was considered. */
  ghost predicate AllConsidered(read: Reader, base: Index, pool: Pool, p: Policy, vtx: seq<Tx>, steps: seq<Step>) {
    forall h :: ReleasedAt(read, base, pool, p, vtx, |vtx|, h) ==> Considered(steps, |steps|, h)
  }

  /** Of two transactions of the block, the later one does not outrank the earlier one if it could have been taken
      then. */
  lemma EarlierRanksHigher(read: Reader, base: Index, pool: Pool, p: Policy, vtx: seq<Tx>, fetched: seq<Inputs>,
                           steps: seq<Step>, a: nat, b: nat) returns (i: nat)
    requires Ordered(read, base, pool, p, vtx, fetched, steps) && a < b < |vtx|
    requires ReleasedAt(read, base, pool, p, vtx, a, vtx[b].txid)
    ensures i < |steps| && steps[i].h == vtx[a].txid && steps[i].k == a
    ensures FlagOk(read, base, pool, p, vtx, fetched, steps, i, steps[i].byFee)
    ensures !Outranks(read, base, pool, p, steps[i].byFee, vtx[b].txid, vtx[a].txid)
  {
    hide Outranks, ReleasedAt, FlagOk;
    assert PlacedBy(vtx, steps, a) && PlacedBy(vtx, steps, b);
    i :| 0 <= i < |steps| && steps[i].h == vtx[a].txid && steps[i].k == a;
    var j :| 0 <= j < |steps| && steps[j].h == vtx[b].txid && steps[j].k == b;
    assert StepOk(read, base, pool, p, vtx, steps, i) && StepOk(read, base, pool, p, vtx, steps, j);
    assert i < j;
    if Considered(steps, i, vtx[b].txid) {
      ConsideredLater(steps, i, j, vtx[b].txid);
    }
  }

  lemma ConsideredLater(steps: seq<Step>, i: nat, j: nat, h: Hash)
    requires i <= j && Considered(steps, i, h)
    ensures Considered(steps, j, h)
  {
  }

  lemma ConsideredMore(steps: seq<Step>, s: Step, n: nat, h: Hash)
    ensures n <= |steps| ==> (Considered(steps + [s], n, h) <==> Considered(steps, n, h))
    ensures Considered(steps + [s], |steps| + 1, h) <==> Considered(steps, |steps|, h) || h == s.h
  {
    var all := steps + [s];
    assert all[|steps|] == s && forall i :: 0 <= i < |steps| ==> all[i] == steps[i];
  }

  /** One more transaction is considered. */
  lemma OrderedStep(read: Reader, base: Index, pool: Pool, p: Policy, vtx: seq<Tx>, fetched: seq<Inputs>,
                    steps: seq<Step>, s: Step)
    requires Ordered(read, base, pool, p, vtx, fetched, steps) && s.k == |vtx|
    requires forall i :: 0 <= i < |steps| ==> steps[i].k <= |vtx|
    requires ReleasedAt(read, base, pool, p, vtx, |vtx|, s.h) && !Considered(steps, |steps|, s.h)
    requires FlagOk(read, base, pool, p, vtx, fetched, steps, |steps|, s.byFee)
    requires forall g :: ReleasedAt(read, base, pool, p, vtx, |vtx|, g) && !Considered(steps, |steps|, g) ==>
               !Outranks(read, base, pool, p, s.byFee, g, s.h)
    ensures Ordered(read, base, pool, p, vtx, fetched, steps + [s])
    ensures forall byFee :: FlagOk(read, base, pool, p, vtx, fetched, steps, |steps|, byFee) ==>
              FlagOk(read, base, pool, p, vtx, fetched, steps + [s], |steps| + 1,
                     byFee || EndsPriority(read, base, pool, p, vtx, fetched, s))
  {
    hide Outranks, ReleasedAt, EndsPriority, Considered, RankOf, SizeOf;
    var all := steps + [s];
    forall n: nat, h | n <= |steps| ensures Considered(all, n, h) <==> Considered(steps, n, h) {
      ConsideredMore(steps, s, n, h);
    }
    forall i | 0 <= i < |all| ensures StepOk(read, base, pool, p, vtx, all, i) {
      if i < |steps| {
        assert StepOk(read, base, pool, p, vtx, steps, i);
      }
    }
    forall i | 0 <= i < |all| ensures FlagOk(read, base, pool, p, vtx, fetched, all, i, all[i].byFee) {
      FlagPrefix(read, base, pool, p, vtx, fetched, steps, s, i, all[i].byFee);
    }
    assert NotFree(read, base, pool, p, vtx, s);
    forall i | 0 <= i < |all| ensures NotFree(read, base, pool, p, vtx, all[i]) {
      if i < |steps| {
        assert NotFree(read, base, pool, p, vtx, steps[i]);
      }
    }
    forall a | 0 <= a < |vtx| ensures PlacedBy(vtx, all, a) {
      assert PlacedBy(vtx, steps, a);
      var i :| 0 <= i < |steps| && steps[i].h == vtx[a].txid && steps[i].k == a;
      assert all[i] == steps[i];
    }
    forall byFee | FlagOk(read, base, pool, p, vtx, fetched, steps, |steps|, byFee)
      ensures FlagOk(read, base, pool, p, vtx, fetched, all, |steps| + 1,
                     byFee || EndsPriority(read, base, pool, p, vtx, fetched, s))
    {
      FlagNext(read, base, pool, p, vtx, fetched, steps, s, byFee);
    }
  }

  lemma FlagPrefix(read: Reader, base: Index, pool: Pool, p: Policy, vtx: seq<Tx>, fetched: seq<Inputs>,
                   steps: seq<Step>, s: Step, n: nat, byFee: bool)
    requires n <= |steps|
    ensures FlagOk(read, base, pool, p, vtx, fetched, steps + [s], n, byFee) <==>
              FlagOk(read, base, pool, p, vtx, fetched, steps, n, byFee)
  {
    hide EndsPriority;
    assert forall i :: 0 <= i < |steps| ==> (steps + [s])[i] == steps[i];
  }

  lemma FlagNext(read: Reader, base: Index, pool: Pool, p: Policy, vtx: seq<Tx>, fetched: seq<Inputs>,
                 steps: seq<Step>, s: Step, byFee: bool)
    requires FlagOk(read, base, pool, p, vtx, fetched, steps, |steps|, byFee)
    ensures FlagOk(read, base, pool, p, vtx, fetched, steps + [s], |steps| + 1,
                   byFee || EndsPriority(read, base, pool, p, vtx, fetched, s))
  {
    hide EndsPriority;
    var all := steps + [s];
    assert all[|steps|] == s && forall i :: 0 <= i < |steps| ==> all[i] == steps[i];
  }

  /** The block grows; what was considered before keeps its place. */
  lemma OrderedMore(read: Reader, base: Index, pool: Pool, p: Policy, vtx: seq<Tx>, fetched: seq<Inputs>,
                    steps: seq<Step>, tx: Tx, f: Inputs, byFee: bool)
    requires Ordered(read, base, pool, p, vtx, fetched, steps) && |fetched| == |vtx|
    requires forall i :: 0 <= i < |steps| ==> steps[i].k <= |vtx|
    requires steps != [] && steps[|steps| - 1].h == tx.txid && steps[|steps| - 1].k == |vtx|
    requires FlagOk(read, base, pool, p, vtx, fetched, steps, |steps|, byFee)
    requires NotFree(read, base, pool, p, vtx + [tx], steps[|steps| - 1])
    ensures Ordered(read, base, pool, p, vtx + [tx], fetched + [f], steps)
    ensures FlagOk(read, base, pool, p, vtx + [tx], fetched + [f], steps, |steps|, byFee)
  {
    hide Outranks, ReleasedAt, EndsPriority, Considered, NotFree;
    var all, fs := vtx + [tx], fetched + [f];
    forall i | 0 <= i < |steps|
      ensures EndsPriority(read, base, pool, p, all, fs, steps[i]) <==>
                EndsPriority(read, base, pool, p, vtx, fetched, steps[i])
    {
      EndsSame(read, base, pool, p, vtx, fetched, steps[i], tx, f);
    }
    forall i | 0 <= i < |steps| ensures StepOk(read, base, pool, p, all, steps, i) {
      assert StepOk(read, base, pool, p, vtx, steps, i);
      forall g ensures ReleasedAt(read, base, pool, p, all, steps[i].k, g) <==>
                         ReleasedAt(read, base, pool, p, vtx, steps[i].k, g)
      {
        ReleasedSame(read, base, pool, p, vtx, steps[i].k, g, tx);
      }
    }
    forall i | 0 <= i < |steps| ensures NotFree(read, base, pool, p, all, steps[i]) {
      if i < |steps| - 1 {
        assert NotFree(read, base, pool, p, vtx, steps[i]);
        assert StepOk(read, base, pool, p, vtx, steps, |steps| - 1);
        EarlierDiffers(steps, i);
        NotFreeSame(read, base, pool, p, vtx, steps[i], tx);
      }
    }
    forall a | 0 <= a < |all| ensures PlacedBy(all, steps, a) {
      if a < |vtx| {
        assert PlacedBy(vtx, steps, a);
        assert all[a] == vtx[a];
      } else {
        assert steps[|steps| - 1].h == all[a].txid;
      }
    }
  }

  lemma EarlierDiffers(steps: seq<Step>, i: nat)
    requires i < |steps| - 1 && !Considered(steps, |steps| - 1, steps[|steps| - 1].h)
    ensures steps[i].h != steps[|steps| - 1].h
  {
  }

  lemma NotFreeSame(read: Reader, base: Index, pool: Pool, p: Policy, vtx: seq<Tx>, s: Step, tx: Tx)
    requires NotFree(read, base, pool, p, vtx, s) && s.k <= |vtx| && s.h != tx.txid
    ensures NotFree(read, base, pool, p, vtx + [tx], s)
  {
    hide RankOf, SizeOf;
    assert (vtx + [tx])[..s.k] == vtx[..s.k];
  }

  /** What kept the limits was not free. */
  lemma WithinIsNotFree(r: Rules, read: Reader, base: Index, pool: Pool, p: Policy, w: Where, s: Progress,
                        fetched: seq<Inputs>, tx: Tx, byFee: bool)
    requires Sound(r, read, pool, base, p, w, s, fetched) && tx.txid in pool && pool[tx.txid] == tx
    requires WithinLimits(p, tx, RankEntry(read, base, pool, p, tx.txid), s.nBlockSize, s.nBlockSigOps, byFee)
    ensures NotFree(read, base, pool, p, s.vtx + [tx], Step(tx.txid, |s.vtx|, byFee))
  {
    hide RankOf, SizeOf, SigOps, Assemble, PassedAt, PoolReader;
    assert (s.vtx + [tx])[..|s.vtx|] == s.vtx;
  }

  lemma EndsSame(read: Reader, base: Index, pool: Pool, p: Policy, vtx: seq<Tx>, fetched: seq<Inputs>, s: Step, tx: Tx,
                 f: Inputs)
    requires |fetched| == |vtx| && s.k <= |vtx|
    ensures EndsPriority(read, base, pool, p, vtx + [tx], fetched + [f], s) <==>
              EndsPriority(read, base, pool, p, vtx, fetched, s)
  {
    hide WithinLimits, SizeOf, SigOps, RankOf;
    assert (vtx + [tx])[..s.k] == vtx[..s.k] && (fetched + [f])[..s.k] == fetched[..s.k];
  }

  lemma ReleasedSame(read: Reader, base: Index, pool: Pool, p: Policy, vtx: seq<Tx>, k: nat, g: Hash, tx: Tx)
    requires k <= |vtx|
    ensures ReleasedAt(read, base, pool, p, vtx + [tx], k, g) <==> ReleasedAt(read, base, pool, p, vtx, k, g)
  {
    hide ParentMap, Txids;
    assert (vtx + [tx])[..k] == vtx[..k];
  }

  /** What is taken off the queue is not outranked by anything that could have been. */
  lemma TopRank(read: Reader, base: Index, pool: Pool, p: Policy, vtx: seq<Tx>, popped: set<Hash>, ready: seq<Ready>,
                orphans: Orphans, at: nat, byFee: bool)
    requires Bookkeeping(ParentMap(read, base, pool, p, pool.Keys), Txids(vtx), popped, ready, orphans)
    requires Ranked(read, base, pool, p, ready, orphans) && at < |ready|
    requires forall i :: 0 <= i < |ready| ==> !Less(byFee, ready[at], ready[i])
    ensures forall g :: ReleasedAt(read, base, pool, p, vtx, |vtx|, g) && g !in popped ==>
              !Outranks(read, base, pool, p, byFee, g, ready[at].id)
  {
    hide ParentMap, Txids, RankOf;
    assert vtx[..|vtx|] == vtx;
    forall g | ReleasedAt(read, base, pool, p, vtx, |vtx|, g) && g !in popped
      ensures !Outranks(read, base, pool, p, byFee, g, ready[at].id)
    {
      assert Queued(ready, g);
      var i :| 0 <= i < |ready| && ready[i].id == g;
      assert RankedAs(read, base, pool, p, g, ready[i].priority, ready[i].feePerKb);
      assert RankedAs(read, base, pool, p, ready[at].id, ready[at].priority, ready[at].feePerKb);
      assert !Less(byFee, ready[at], ready[i]);
    }
  }

  lemma NothingConsidered(read: Reader, base: Index, pool: Pool, p: Policy)
    ensures Ordered(read, base, pool, p, [], [], [])
    ensures FlagOk(read, base, pool, p, [], [], [], 0, Min(BlockMaxSize(p), p.prioritySize) <= 0)
  {
  }

  /** Adds one transaction if it keeps the limits and connects. */
  method Consider(db: TxDB, r: Rules, read: Reader, pool: Pool, p: Policy, w: Where, tx: Tx, e: Ready, byFee: bool,
                  s: Progress, ghost fetched: seq<Inputs>)
    returns (ok: bool, s': Progress, ghost f: Inputs)
    requires db.Valid() && Sound(r, read, pool, db.View(), p, w, s, fetched)
    requires tx.txid in pool && pool[tx.txid] == tx && tx.txid !in Txids(s.vtx) && MayInclude(p, tx)
    ensures !ok ==> s' == s
    ensures !ok ==> || !WithinLimits(p, tx, e, s.nBlockSize, s.nBlockSigOps, byFee)
                    || CannotAdd(r, PoolReader(read, pool), Draft(db.View() + s.mapTestPool, s.nFees), p, w, tx, f,
                         s.nBlockSize, s.nBlockSigOps)
    ensures ok ==> WithinLimits(p, tx, e, s.nBlockSize, s.nBlockSigOps, byFee)
    ensures ok ==> s'.vtx == s.vtx + [tx] && Txids(s'.vtx) == Txids(s.vtx) + {tx.txid}
    ensures ok ==> Sound(r, read, pool, db.View(), p, w, s', fetched + [f])
  {
    hide Template, Fits, AssembleOne, Txids, MayInclude, CannotAdd;
    ok, s', f := false, s, map[];
    if !WithinLimits(p, tx, e, s.nBlockSize, s.nBlockSigOps, byFee) {
      return;
    }
    var test', txFees, txSigOps;
    ok, test', txFees, txSigOps, f :=
        TryAdd(db, r, read, pool, p, w, tx, s.mapTestPool, s.nBlockSize, s.nBlockSigOps, s.nFees);
    if ok {
      TemplateStep(r, read, pool, db.View(), p, w, s.vtx, fetched, s.mapTestPool, s.nFees, s.nBlockSize, s.nBlockSigOps,
                   tx, f, test', txFees);
      s' := Progress(s.vtx + [tx], test', s.nFees + txFees, s.nBlockSize + tx.nSize, s.nBlockSigOps + txSigOps);
    }
  }

  /** Takes transactions off the queue until it is empty. */
  method FillBlock(db: TxDB, r: Rules, read: Reader, pool: Pool, p: Policy, w: Where,
                   queue: seq<Ready>, waiting: Orphans, dependers: Dependers)
    returns (s: Progress, ghost fetched: seq<Inputs>, ghost steps: seq<Step>)
    requires db.Valid() && PoolOk(pool) && Ranked(read, db.View(), pool, p, queue, waiting)
    requires Bookkeeping(ParentMap(read, db.View(), pool, p, pool.Keys), {}, {}, queue, waiting)
    requires DependersOk(ParentMap(read, db.View(), pool, p, pool.Keys), dependers)
    ensures Filled(r, read, pool, db.View(), p, w, s, fetched)
    ensures Ordered(read, db.View(), pool, p, s.vtx, fetched, steps)
            && AllConsidered(read, db.View(), pool, p, s.vtx, steps)
  {
    hide Bookkeeping, DependersOk, Sound, ParentMap, Txids, MayInclude, Less, SwitchToFee, PoolOk, WithinLimits, Filled;
    hide Ranked, Decided, FeesRank, TurnedAway, CannotAdd, Told, RankEntry, ReleasedAt, Ordered, FlagOk, EndsPriority,
      Outranks, Considered, AllConsidered, NotFree;
    ghost var base := db.View();
    ghost var parents := ParentMap(read, base, pool, p, pool.Keys);
    ghost var popped: set<Hash>, verdicts: map<Hash, Verdict> := {}, map[];
    var fSortedByFee := Min(BlockMaxSize(p), p.prioritySize) <= 0;
    s, fetched := Progress([], map[], 0, 1000, 100), [];
    EmptyBlock(r, read, pool, base, p, w);
    NothingDecided(r, read, pool, base, p, w);
    steps := [];
    NothingConsidered(read, base, pool, p);
    NoneYet();
    var ready, orphans := queue, waiting;
    while ready != []
      invariant Sound(r, read, pool, base, p, w, s, fetched) && Ranked(read, base, pool, p, ready, orphans)
      invariant Bookkeeping(parents, Txids(s.vtx), popped, ready, orphans) && Txids(s.vtx) <= popped
      invariant Decided(r, read, pool, base, p, w, s.vtx, fetched, popped, verdicts)
      invariant fSortedByFee ==> FeesRank(read, base, pool, p, s.vtx, |s.vtx|)
      invariant Ordered(read, base, pool, p, s.vtx, fetched, steps) && |fetched| == |s.vtx|
      invariant FlagOk(read, base, pool, p, s.vtx, fetched, steps, |steps|, fSortedByFee)
      invariant forall i :: 0 <= i < |steps| ==> steps[i].k <= |s.vtx|
      invariant forall h :: h in popped <==> Considered(steps, |steps|, h)
      decreases |parents.Keys - popped|
    {
      ghost var before := popped;
      var best, rest, at := PopBest(ready, fSortedByFee);
      Popped(read, base, pool, p, s.vtx, popped, ready, orphans, at);
      PopKeepsRanks(read, base, pool, p, ready, orphans, at);
      StepTaken(r, read, base, pool, p, w, s, fetched, steps, popped, ready, orphans, at, fSortedByFee);
      ghost var step := Step(best.id, |s.vtx|, fSortedByFee);
      steps := steps + [step];
      var tx := pool[best.id];
      var ok, s', f := Consider(db, r, read, pool, p, w, tx, best, fSortedByFee, s, fetched);
      if !ok {
        TurnedAwayNow(r, read, pool, base, p, w, s, fetched, best.id, f, fSortedByFee);
        DecidedOut(r, read, pool, base, p, w, s.vtx, fetched, popped, verdicts, best.id,
            Verdict(|s.vtx|, f, fSortedByFee));
        verdicts := verdicts[best.id := Verdict(|s.vtx|, f, fSortedByFee)];
      }
      if WithinLimits(p, tx, best, s.nBlockSize, s.nBlockSigOps, fSortedByFee)
        && SwitchToFee(p, tx, best, s.nBlockSize)
      {
        NowFeesRank(r, read, pool, base, p, w, s, fetched, best.id);
        fSortedByFee := true;
      }
      ready, popped := rest, popped + {best.id};
      if ok {
        ready, orphans := Included(read, base, pool, p, Txids(s.vtx), popped, rest, orphans, dependers, tx.txid);
        DecidedIn(r, read, pool, base, p, w, s.vtx, fetched, before, verdicts, tx, f);
        if fSortedByFee {
          RanksFeesLater(read, base, pool, p, s.vtx, tx);
        }
        WithinIsNotFree(r, read, base, pool, p, w, s, fetched, tx, step.byFee);
        OrderedMore(read, base, pool, p, s.vtx, fetched, steps, tx, f, fSortedByFee);
        fetched := fetched + [f];
      }
      s := s';
    }
    QueueIsEmpty(r, read, pool, base, p, w, s, fetched, popped, orphans, verdicts);
    AllWereConsidered(read, base, pool, p, s.vtx, popped, orphans, steps);
  }

  lemma NoneYet()
    ensures forall h :: !Considered([], 0, h)
  {
  }

  lemma OneMoreConsidered(steps: seq<Step>, s: Step)
    ensures forall h :: Considered(steps + [s], |steps + [s]|, h) <==> Considered(steps, |steps|, h) || h == s.h
  {
    hide Considered;
    forall h ensures Considered(steps + [s], |steps + [s]|, h) <==> Considered(steps, |steps|, h) || h == s.h {
      ConsideredMore(steps, s, |steps|, h);
    }
  }

  /** When the step that is taken now ends the share of priority. */
  lemma EndsMeans(r: Rules, read: Reader, base: Index, pool: Pool, p: Policy, w: Where, s: Progress,
                  fetched: seq<Inputs>, step: Step)
    requires Sound(r, read, pool, base, p, w, s, fetched) && step.h in pool && step.k == |s.vtx|
    ensures |fetched| == |s.vtx|
    ensures EndsPriority(read, base, pool, p, s.vtx, fetched, step) <==>
              && WithinLimits(p, pool[step.h], RankEntry(read, base, pool, p, step.h), s.nBlockSize, s.nBlockSigOps,
                              step.byFee)
              && SwitchToFee(p, pool[step.h], RankEntry(read, base, pool, p, step.h), s.nBlockSize)
  {
    hide WithinLimits, SizeOf, SigOps, RankOf, Assemble, PassedAt, PoolReader;
    assert s.vtx[..|s.vtx|] == s.vtx && fetched[..|fetched|] == fetched;
  }

  /** The records after a transaction was taken off the queue. */
  lemma StepTaken(r: Rules, read: Reader, base: Index, pool: Pool, p: Policy, w: Where, s: Progress,
                  fetched: seq<Inputs>, steps: seq<Step>, popped: set<Hash>, ready: seq<Ready>, orphans: Orphans,
                  at: nat, byFee: bool)
    requires Sound(r, read, pool, base, p, w, s, fetched) && Ranked(read, base, pool, p, ready, orphans)
    requires Bookkeeping(ParentMap(read, base, pool, p, pool.Keys), Txids(s.vtx), popped, ready, orphans)
    requires at < |ready| && forall i :: 0 <= i < |ready| ==> !Less(byFee, ready[at], ready[i])
    requires ready[at].id in pool && ready[at].id !in popped
             && ReleasedAt(read, base, pool, p, s.vtx, |s.vtx|, ready[at].id)
    requires Ordered(read, base, pool, p, s.vtx, fetched, steps)
    requires FlagOk(read, base, pool, p, s.vtx, fetched, steps, |steps|, byFee)
    requires forall i :: 0 <= i < |steps| ==> steps[i].k <= |s.vtx|
    requires forall h :: h in popped <==> Considered(steps, |steps|, h)
    ensures var all := steps + [Step(ready[at].id, |s.vtx|, byFee)];
            var e, tx := RankEntry(read, base, pool, p, ready[at].id), pool[ready[at].id];
            && Ordered(read, base, pool, p, s.vtx, fetched, all)
            && FlagOk(read, base, pool, p, s.vtx, fetched, all, |all|,
                      byFee || (WithinLimits(p, tx, e, s.nBlockSize, s.nBlockSigOps, byFee)
                                && SwitchToFee(p, tx, e, s.nBlockSize)))
            && (forall h :: h in popped + {ready[at].id} <==> Considered(all, |all|, h))
            && (forall i :: 0 <= i < |all| ==> all[i].k <= |s.vtx|)
  {
    hide Bookkeeping, Sound, ParentMap, Txids, Less, SwitchToFee, WithinLimits, Ranked, RankEntry, ReleasedAt, Ordered,
      FlagOk, EndsPriority, Outranks, Considered, NotFree;
    TopRank(read, base, pool, p, s.vtx, popped, ready, orphans, at, byFee);
    var step := Step(ready[at].id, |s.vtx|, byFee);
    OrderedStep(read, base, pool, p, s.vtx, fetched, steps, step);
    OneMoreConsidered(steps, step);
    EndsMeans(r, read, base, pool, p, w, s, fetched, step);
  }

  lemma AllWereConsidered(read: Reader, base: Index, pool: Pool, p: Policy, vtx: seq<Tx>, popped: set<Hash>,
                          orphans: Orphans, steps: seq<Step>)
    requires Bookkeeping(ParentMap(read, base, pool, p, pool.Keys), Txids(vtx), popped, [], orphans)
    requires forall h :: h in popped <==> Considered(steps, |steps|, h)
    ensures AllConsidered(read, base, pool, p, vtx, steps)
  {
    hide ParentMap, Txids, Considered;
    assert vtx[..|vtx|] == vtx;
    forall h | ReleasedAt(read, base, pool, p, vtx, |vtx|, h) ensures Considered(steps, |steps|, h) {
      assert !Queued([], h);
    }
  }

  lemma NothingDecided(r: Rules, read: Reader, pool: Pool, base: Index, p: Policy, w: Where)
    ensures Decided(r, read, pool, base, p, w, [], [], {}, map[])
    ensures Min(BlockMaxSize(p), p.prioritySize) <= 0 ==> FeesRank(read, base, pool, p, [], 0)
  {
  }

  lemma NowFeesRank(r: Rules, read: Reader, pool: Pool, base: Index, p: Policy, w: Where, s: Progress,
                    fetched: seq<Inputs>, g: Hash)
    requires Sound(r, read, pool, base, p, w, s, fetched) && ReleasedAt(read, base, pool, p, s.vtx, |s.vtx|, g)
    requires SwitchToFee(p, pool[g], RankEntry(read, base, pool, p, g), s.nBlockSize)
    ensures FeesRank(read, base, pool, p, s.vtx, |s.vtx|)
  {
    hide SwitchToFee, ParentMap, Txids, RankOf, Assemble, PassedAt;
    assert s.vtx[..|s.vtx|] == s.vtx;
    assert SwitchesAt(read, base, pool, p, s.vtx, |s.vtx|, g);
  }

  lemma RanksFeesLater(read: Reader, base: Index, pool: Pool, p: Policy, vtx: seq<Tx>, tx: Tx)
    requires FeesRank(read, base, pool, p, vtx, |vtx|)
    ensures FeesRank(read, base, pool, p, vtx + [tx], |vtx| + 1)
  {
    hide SwitchesAt;
    FeesStillRank(read, base, pool, p, vtx, |vtx|, tx);
  }

  /** The books and the ranks after an inclusion. */
  method Included(ghost read: Reader, ghost base: Index, ghost pool: Pool, ghost p: Policy, ghost included: set<Hash>,
                  ghost popped: set<Hash>, ready: seq<Ready>, orphans: Orphans, dependers: Dependers,
                      hash: Hash) returns (ready': seq<Ready>, orphans': Orphans)
    requires Ranked(read, base, pool, p, ready, orphans) && hash !in included
    requires Bookkeeping(ParentMap(read, base, pool, p, pool.Keys), included, popped, ready, orphans)
    requires DependersOk(ParentMap(read, base, pool, p, pool.Keys), dependers)
    ensures Ranked(read, base, pool, p, ready', orphans')
    ensures Bookkeeping(ParentMap(read, base, pool, p, pool.Keys), included + {hash}, popped, ready', orphans')
  {
    hide Bookkeeping, DependersOk, Ranked, Told, ParentMap;
    ready', orphans' :=
        Include(ParentMap(read, base, pool, p, pool.Keys), included, popped, ready, orphans, dependers, hash);
    ToldKeepsRanks(read, base, pool, p, ready, orphans, ready', orphans', if hash in dependers then dependers[hash]
      else [], hash);
  }

  /** What is known of the transaction that was taken off the queue. */
  lemma Popped(read: Reader, base: Index, pool: Pool, p: Policy, vtx: seq<Tx>, popped: set<Hash>,
               ready: seq<Ready>, orphans: Orphans, at: nat)
    requires PoolOk(pool) && Bookkeeping(ParentMap(read, base, pool, p, pool.Keys), Txids(vtx), popped, ready, orphans)
             && at < |ready|
    ensures var parents := ParentMap(read, base, pool, p, pool.Keys); var id := ready[at].id;
            && id in pool && pool[id].txid == id && MayInclude(p, pool[id]) && id !in popped
            && ReleasedAt(read, base, pool, p, vtx, |vtx|, id)
            && Bookkeeping(parents, Txids(vtx), popped + {id}, ready[..at] + ready[at + 1..], orphans)
            && |parents.Keys - (popped + {id})| < |parents.Keys - popped|
  {
    hide Bookkeeping, MayInclude, Txids;
    var parents := ParentMap(read, base, pool, p, pool.Keys);
    PopKeeps(parents, Txids(vtx), popped, ready, orphans, at);
    PoppedFewer(parents, popped, ready[at].id);
    InPoolMap(read, base, pool, p, ready[at].id);
    assert vtx[..|vtx|] == vtx;
  }

  lemma InPoolMap(read: Reader, base: Index, pool: Pool, p: Policy, h: Hash)
    requires PoolOk(pool) && h in ParentMap(read, base, pool, p, pool.Keys)
    ensures h in pool && pool[h].txid == h && MayInclude(p, pool[h])
  {
  }

  lemma QueueIsEmpty(r: Rules, read: Reader, pool: Pool, base: Index, p: Policy, w: Where,
                     s: Progress, fetched: seq<Inputs>, popped: set<Hash>, orphans: Orphans,
                     verdicts: map<Hash, Verdict>)
    requires Sound(r, read, pool, base, p, w, s, fetched)
             && Decided(r, read, pool, base, p, w, s.vtx, fetched, popped, verdicts)
    requires Bookkeeping(ParentMap(read, base, pool, p, pool.Keys), Txids(s.vtx), popped, [], orphans)
    ensures Filled(r, read, pool, base, p, w, s, fetched)
  {
    hide Sound, ParentMap, Txids, TurnedAway;
    forall h | Released(ParentMap(read, base, pool, p, pool.Keys), Txids(s.vtx), h) && h !in Txids(s.vtx)
      ensures exists v :: TurnedAway(r, read, pool, base, p, w, s.vtx, fetched, h, v)
    {
      assert !Queued([], h);
      assert h in popped;
      assert TurnedAway(r, read, pool, base, p, w, s.vtx, fetched, h, verdicts[h]);
    }
  }

  // ---------- the block ----------

  /** Each transaction comes after its parents: every input is on the chain or from an earlier transaction. */
  ghost predicate InOrder(base: Index, vtx: seq<Tx>) {
    forall a, i :: 0 <= a < |vtx| && 0 <= i < |vtx[a].vin| ==>
        vtx[a].vin[i].hash in base || MadeBefore(vtx, a, vtx[a].vin[i].hash)
  }

  ghost predicate MadeBefore(vtx: seq<Tx>, a: nat, h: Hash) {
    exists b :: 0 <= b < a && b < |vtx| && vtx[b].txid == h
  }

  /** No output is spent twice, by two transactions or by one. */
  ghost predicate SpendsOnce(vtx: seq<Tx>) {
    forall a, i, b, j ::
        0 <= a < |vtx| && 0 <= i < |vtx[a].vin| && 0 <= b <= a && 0 <= j < |vtx[b].vin| && (b < a || j < i) ==>
      vtx[b].vin[j] != vtx[a].vin[i]
  }

  /** Nothing is spent that the chain has spent. */
  ghost predicate SpendsUnspent(base: Index, vtx: seq<Tx>) {
    forall a, i :: 0 <= a < |vtx| && 0 <= i < |vtx[a].vin| && vtx[a].vin[i].hash in base ==>
        Unspent(base, vtx[a].vin[i])
  }

  /** Collects the transactions of a new block: each at most once and after its parents, within the limits, with the
      fees that inputs leave over outputs; in the order of their ranks; and every transaction whose parents are all
      included is included or was turned away. None spends what another one or the chain spends if pool transactions
      that the index already has are recorded as spending their inputs, which holds on top of every chain without
      repeated ids. */
  method CreateNewBlock(db: TxDB, r: Rules, read: Reader, pool: Pool, p: Policy, w: Where)
    returns (s: Progress, ghost fetched: seq<Inputs>, ghost steps: seq<Step>)
    requires db.Valid() && PoolOk(pool) && InputsKnown(read, db.View(), pool, p)
    ensures Filled(r, read, pool, db.View(), p, w, s, fetched)
    ensures Ordered(read, db.View(), pool, p, s.vtx, fetched, steps)
            && AllConsidered(read, db.View(), pool, p, s.vtx, steps)
    ensures FromPool(pool, s.vtx) && DistinctTxids(s.vtx) && InOrder(db.View(), s.vtx)
    ensures forall i :: 0 <= i < |s.vtx| ==>
              && !s.vtx[i].IsCoinBase() && !s.vtx[i].IsCoinStake() && p.isFinal(s.vtx[i])
              && s.vtx[i].nTime <= p.now && (p.fProofOfStake ==> s.vtx[i].nTime <= p.coinbaseTime)
    ensures s.vtx != [] ==> 1000 + SizeOf(s.vtx) < BlockMaxSize(p) <= MAX_BLOCK_SIZE - 1000
    ensures |fetched| == |s.vtx| && (s.vtx != [] ==> 100 + SigOps(p, s.vtx, fetched) < MAX_BLOCK_SIGOPS)
    ensures OnDisk(db.View())
            && (SameTransactions(read, db.View(), pool, pool.Keys) || ConfirmedAreSpent(pool, db.View(), p)) ==>
              s.nFees == TotalIn(read, db.View(), pool, s.vtx) - TotalOut(s.vtx)
    ensures ConfirmedAreSpent(pool, db.View(), p) ==> SpendsOnce(s.vtx) && SpendsUnspent(db.View(), s.vtx)
  {
    hide Bookkeeping, DependersOk, ParentMap, Ranked, Filled, InOrder, SpendsOnce, SpendsUnspent, TotalIn, TotalOut,
      ConfirmedAreSpent, InputsKnown, SameTransactions, OnDisk, Ordered, AllConsidered;
    var ready, orphans, dependers := BuildQueue(db, read, pool, p);
    s, fetched, steps := FillBlock(db, r, read, pool, p, w, ready, orphans, dependers);
    FilledIsGood(r, read, pool, db.View(), p, w, s, fetched);
  }

  lemma IncludedPass(r: Rules, read: Reader, pool: Pool, base: Index, p: Policy, w: Where, s: Progress,
                     fetched: seq<Inputs>)
    requires Filled(r, read, pool, base, p, w, s, fetched)
    ensures forall i :: 0 <= i < |s.vtx| ==>
              && !s.vtx[i].IsCoinBase() && !s.vtx[i].IsCoinStake() && p.isFinal(s.vtx[i])
              && s.vtx[i].nTime <= p.now && (p.fProofOfStake ==> s.vtx[i].nTime <= p.coinbaseTime)
  {
    hide Assemble, PoolReader, ParentMap, TurnedAway, InputsMatch, AllFetched, ValueIn, SizeOf;
    forall i | 0 <= i < |s.vtx|
      ensures MayInclude(p, s.vtx[i]) && s.vtx[i].nTime <= p.now
      ensures p.fProofOfStake ==> s.vtx[i].nTime <= p.coinbaseTime
    {
      assert PassedAt(r, PoolReader(read, pool), base, p, w, s.vtx, fetched, i);
    }
  }

  lemma FilledIsGood(r: Rules, read: Reader, pool: Pool, base: Index, p: Policy, w: Where, s: Progress,
                     fetched: seq<Inputs>)
    requires Filled(r, read, pool, base, p, w, s, fetched)
    ensures FromPool(pool, s.vtx) && DistinctTxids(s.vtx) && InOrder(base, s.vtx)
    ensures forall i :: 0 <= i < |s.vtx| ==>
              && !s.vtx[i].IsCoinBase() && !s.vtx[i].IsCoinStake() && p.isFinal(s.vtx[i])
              && s.vtx[i].nTime <= p.now && (p.fProofOfStake ==> s.vtx[i].nTime <= p.coinbaseTime)
    ensures s.vtx != [] ==> 1000 + SizeOf(s.vtx) < BlockMaxSize(p)
    ensures |fetched| == |s.vtx| && (s.vtx != [] ==> 100 + SigOps(p, s.vtx, fetched) < MAX_BLOCK_SIGOPS)
    ensures OnDisk(base) && (SameTransactions(read, base, pool, pool.Keys) || ConfirmedAreSpent(pool, base, p)) ==>
              s.nFees == TotalIn(read, base, pool, s.vtx) - TotalOut(s.vtx)
    ensures ConfirmedAreSpent(pool, base, p) ==> SpendsOnce(s.vtx) && SpendsUnspent(base, s.vtx)
  {
    hide Assemble, PoolReader, ParentMap, PassedAt, TurnedAway, ConfirmedAreSpent;
    var rd, vtx := PoolReader(read, pool), s.vtx;
    IncludedPass(r, read, pool, base, p, w, s, fetched);
    if OnDisk(base) && (SameTransactions(read, base, pool, pool.Keys) || ConfirmedAreSpent(pool, base, p)) {
      FeesAreInMinusOut(r, read, pool, base, vtx, w);
    }
    forall a, i | 0 <= a < |vtx| && 0 <= i < |vtx[a].vin|
      ensures vtx[a].vin[i].hash in base || MadeBefore(vtx, a, vtx[a].vin[i].hash)
    {
      ParentsFirst(r, rd, base, vtx, w, a, vtx[a].vin[i]);
    }
    if ConfirmedAreSpent(pool, base, p) {
      forall a, i, b, j | 0 <= a < |vtx| && 0 <= i < |vtx[a].vin| && 0 <= b <= a && 0 <= j < |vtx[b].vin|
        && (b < a || j < i)
        ensures vtx[b].vin[j] != vtx[a].vin[i]
      {
        NoDoubleSpend(r, rd, base, vtx, w, a, i, b, j);
      }
      forall a, i | 0 <= a < |vtx| && 0 <= i < |vtx[a].vin| && vtx[a].vin[i].hash in base
        ensures Unspent(base, vtx[a].vin[i])
      {
        NotSpentOnChain(r, rd, base, vtx, w, a, i);
      }
    }
  }
}
