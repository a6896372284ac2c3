/**
 When a transaction connects, in terms of the chain below it: every output it spends was issued by an earlier
 transaction, was not spent since, is not younger, is mature, and is signed for; and the values leave a fee.
 */
module SpendRules {
  import opened Ledger
  import opened LedgerUndo
  import opened LedgerValue
  import opened Replay
  import opened ChainSpends
  import opened History
  import opened Numbers

  /** The block and the position in it that issued an output. */
  datatype Source = Source(m: nat, c: nat)

  ghost predicate IsTx(chain: seq<Placed>, n: nat, b: nat) {
    1 <= n < |chain| && b < |chain[n].block.vtx|
  }

  /** Input `x` of transaction `b` of block `n` may spend an output that transaction `s.c` of block `s.m` issued. The
      output of a coinbase or coinstake has to be 500 blocks old. */
  ghost predicate MaySpend(r: Rules, chain: seq<Placed>, n: nat, b: nat, x: nat, s: Source) {
    && IsTx(chain, n, b) && x < |chain[n].block.vtx[b].vin|
    && var tx := chain[n].block.vtx[b]; var o := tx.vin[x];
       && Issues(chain, n, b, s.m, s.c, o.hash)
       && var prev := chain[s.m].block.vtx[s.c];
          && o.n < |prev.vout| && !SpentBefore(chain, n, b, o)
          && prev.nTime <= tx.nTime && 0 <= prev.vout[o.n].nValue <= MAX_MONEY
          && (prev.IsCoinBase() || prev.IsCoinStake() ==> n - s.m >= 500)
          && r.spend(tx, x, prev, n)
  }

  ghost function OutputWorth(chain: seq<Placed>, o: OutPoint, s: Source): int {
    if s.m < |chain| && s.c < |chain[s.m].block.vtx| && o.n < |chain[s.m].block.vtx[s.c].vout|
    then chain[s.m].block.vtx[s.c].vout[o.n].nValue else 0
  }

  /** The values of the outputs spent together. */
  ghost function Worth(chain: seq<Placed>, vin: seq<OutPoint>, from: seq<Source>): int
    requires |from| == |vin|
  {
    if vin == [] then 0
    else
      var l := |vin| - 1;
      Worth(chain, vin[..l], from[..l]) + OutputWorth(chain, vin[l], from[l])
  }

  /** Transaction `b` of block `n` keeps the rules, its inputs being issued at `from`. */
  ghost predicate Follows(r: Rules, chain: seq<Placed>, n: nat, b: nat, from: seq<Source>) {
    && IsTx(chain, n, b) && |from| == |chain[n].block.vtx[b].vin|
    && var tx := chain[n].block.vtx[b];
       && (forall x :: 0 <= x < |from| ==> MaySpend(r, chain, n, b, x, from[x]))
       && (forall x, y :: 0 <= x < y < |tx.vin| ==> tx.vin[x] != tx.vin[y])
       && var worth := Worth(chain, tx.vin, from);
          && worth <= MAX_MONEY
          && (|| tx.IsCoinStake()
              || (r.minFee(tx) <= worth - ValueOut(tx.vout) && 0 <= worth - ValueOut(tx.vout) <= MAX_MONEY))
  }

  ghost predicate DistinctPlaces(chain: seq<Placed>) {
    forall i, j :: 0 <= i < j < |chain| ==> chain[i].at != chain[j].at
  }

  // ---------- maturity by places and by heights ----------

  /** The recent places at height `n` are those of the last 500 blocks, this one included. */
  lemma RecentHeights(chain: seq<Placed>, n: nat, m: nat)
    requires m <= n < |chain|
    ensures chain[m].at !in TipWhere(chain[..n + 1]).recent ==> n - m >= 500
    ensures DistinctPlaces(chain) && n - m >= 500 ==> chain[m].at !in TipWhere(chain[..n + 1]).recent
  {
    var upTo := chain[..n + 1];
    var from := Max(0, |upTo| - 500);
    var places, recent := Positions(upTo), TipWhere(upTo).recent;
    assert recent == places[from..];
    if n - m < 500 {
      assert recent[m - from] == places[m] == chain[m].at;
    } else if DistinctPlaces(chain) {
      forall i | 0 <= i < |recent| ensures recent[i] != chain[m].at {
        assert recent[i] == places[from + i] == chain[from + i].at;
      }
    }
  }

  // ---------- one input ----------

  /** What the index finds for an output that the chain issued. */
  lemma FoundAt(read: Reader, chain: seq<Placed>, n: nat, b: nat, idx: Index, o: OutPoint, s: Source)
    requires Tells(chain, n, b, idx) && AllStored(read, chain) && Issues(chain, n, b, s.m, s.c, o.hash)
    ensures o.hash in idx
    ensures var prev := chain[s.m].block.vtx[s.c]; var e := idx[o.hash];
            && BlockPos(e.pos.nFile, e.pos.nBlockPos) == chain[s.m].at
            && (Fetched(read, idx, o) <==> o.n < |prev.vout|)
            && (o.n < |prev.vout| ==>
                  PrevTx(read, idx, o) == prev && (Unspent(idx, o) <==> !SpentBefore(chain, n, b, o)))
  {
    hide Tells, SpentBefore;
    EntryOf(chain, n, b, idx, o.hash, s);
    var vtx, at := chain[s.m].block.vtx, chain[s.m].at;
    assert Stored(read, vtx, at);
    assert read(vtx[s.c].txid, TxPos(at, vtx, s.c)) == Some(vtx[s.c]);
    assert o == OutPoint(o.hash, o.n);
  }

  lemma EntryOf(chain: seq<Placed>, n: nat, b: nat, idx: Index, h: Hash, s: Source)
    requires Tells(chain, n, b, idx) && Issues(chain, n, b, s.m, s.c, h)
    ensures EntryIs(chain, n, b, idx, s.m, s.c)
  {
    hide EntryIs, SpentBefore;
  }

  lemma IssuerOf(chain: seq<Placed>, n: nat, b: nat, idx: Index, h: Hash) returns (s: Source)
    requires Tells(chain, n, b, idx) && h in idx
    ensures Issues(chain, n, b, s.m, s.c, h)
  {
    hide EntryIs, SpentBefore;
    var m: nat, c: nat :| Issues(chain, n, b, m, c, h);
    s := Source(m, c);
  }

  /** The tests on an input say what the chain does. */
  lemma InputRules(r: Rules, read: Reader, chain: seq<Placed>, n: nat, b: nat, idx: Index, x: nat, s: Source)
    requires IsTx(chain, n, b) && x < |chain[n].block.vtx[b].vin| && Tells(chain, n, b, idx) && AllStored(read, chain)
    requires Issues(chain, n, b, s.m, s.c, chain[n].block.vtx[b].vin[x].hash)
    requires Fetched(read, idx, chain[n].block.vtx[b].vin[x])
    ensures var tx, w := chain[n].block.vtx[b], TipWhere(chain[..n + 1]);
            var fine := InputSane(read, idx, tx, x, w) && InputSigned(r, read, idx, tx, x, w)
              && Unspent(idx, tx.vin[x]);
            && (fine ==> MaySpend(r, chain, n, b, x, s))
            && (DistinctPlaces(chain) && MaySpend(r, chain, n, b, x, s) ==> fine)
            && PrevValue(read, idx, tx.vin[x]) == OutputWorth(chain, tx.vin[x], s)
  {
    hide Tells, SpentBefore, DistinctPlaces, AllStored, Unspent, TipWhere;
    FoundAt(read, chain, n, b, idx, chain[n].block.vtx[b].vin[x], s);
    RecentHeights(chain, n, s.m);
    TipIs(chain, n);
  }

  lemma TipIs(chain: seq<Placed>, n: nat)
    requires n < |chain|
    ensures TipWhere(chain[..n + 1]).height == n && TipWhere(chain[..n + 1]).at == chain[n].at
  {
  }

  // ---------- all inputs ----------

  lemma {:induction false} WorthIs(read: Reader, chain: seq<Placed>, idx: Index, vin: seq<OutPoint>, from: seq<Source>)
    requires |from| == |vin| && AllFetched(read, idx, vin)
    requires forall x :: 0 <= x < |vin| ==> PrevValue(read, idx, vin[x]) == OutputWorth(chain, vin[x], from[x])
    ensures ValueIn(read, idx, vin) == Worth(chain, vin, from)
  {
    hide OutputWorth, PrevValue, Fetched;
    if vin != [] {
      var l := |vin| - 1;
      var rest, less := vin[..l], from[..l];
      assert forall x :: 0 <= x < l ==> rest[x] == vin[x] && less[x] == from[x];
      WorthIs(read, chain, idx, rest, less);
    }
  }

  /** A source for every input that the index finds. */
  lemma FindSources(read: Reader, chain: seq<Placed>, n: nat, b: nat, idx: Index, vin: seq<OutPoint>)
    returns (from: seq<Source>)
    requires Tells(chain, n, b, idx) && AllFetched(read, idx, vin)
    ensures |from| == |vin|
    ensures forall x :: 0 <= x < |vin| ==> Issues(chain, n, b, from[x].m, from[x].c, vin[x].hash)
  {
    hide Tells, Issues;
    from := [];
    for i := 0 to |vin|
      invariant |from| == i
      invariant forall x :: 0 <= x < i ==> Issues(chain, n, b, from[x].m, from[x].c, vin[x].hash)
    {
      assert Fetched(read, idx, vin[i]);
      var s := IssuerOf(chain, n, b, idx, vin[i].hash);
      from := from + [s];
    }
  }

  /** What the tests on the inputs and the spending of them ask for together. */
  ghost predicate Accepts(r: Rules, read: Reader, idx: Index, tx: Tx, w: Where) {
    InputsAllowed(r, read, idx, tx, w) && Spendable(idx, tx.vin)
  }

  lemma AcceptedFollows(r: Rules, read: Reader, chain: seq<Placed>, n: nat, b: nat, idx: Index)
    returns (from: seq<Source>)
    requires IsTx(chain, n, b) && Tells(chain, n, b, idx) && AllStored(read, chain)
    requires Accepts(r, read, idx, chain[n].block.vtx[b], TipWhere(chain[..n + 1]))
    ensures Follows(r, chain, n, b, from)
  {
    hide Tells, AllStored, MaySpend, InputSane, InputSigned, Fetched, Issues, Worth, ValueIn, TipWhere, ValueOut;
    var tx := chain[n].block.vtx[b];
    from := FindSources(read, chain, n, b, idx, tx.vin);
    forall x | 0 <= x < |tx.vin|
      ensures MaySpend(r, chain, n, b, x, from[x])
      ensures PrevValue(read, idx, tx.vin[x]) == OutputWorth(chain, tx.vin[x], from[x])
    {
      assert tx.vin[x] in tx.vin;
      InputRules(r, read, chain, n, b, idx, x, from[x]);
    }
    WorthIs(read, chain, idx, tx.vin, from);
  }

  lemma FollowsAccepted(r: Rules, read: Reader, chain: seq<Placed>, n: nat, b: nat, idx: Index, from: seq<Source>)
    requires IsTx(chain, n, b) && Tells(chain, n, b, idx) && AllStored(read, chain) && DistinctPlaces(chain)
    requires Follows(r, chain, n, b, from)
    ensures Accepts(r, read, idx, chain[n].block.vtx[b], TipWhere(chain[..n + 1]))
  {
    hide Tells, AllStored, MaySpend, InputSane, InputSigned, Fetched, Worth, ValueIn, TipWhere, DistinctPlaces,
      ValueOut, Unspent, Issues;
    var tx, w := chain[n].block.vtx[b], TipWhere(chain[..n + 1]);
    forall x | 0 <= x < |tx.vin|
      ensures Fetched(read, idx, tx.vin[x])
    {
      SourceOf(r, chain, n, b, x, from[x]);
      FoundAt(read, chain, n, b, idx, tx.vin[x], from[x]);
    }
    forall x | 0 <= x < |tx.vin|
      ensures InputSane(read, idx, tx, x, w) && InputSigned(r, read, idx, tx, x, w) && Unspent(idx, tx.vin[x])
      ensures PrevValue(read, idx, tx.vin[x]) == OutputWorth(chain, tx.vin[x], from[x])
    {
      SourceOf(r, chain, n, b, x, from[x]);
      InputRules(r, read, chain, n, b, idx, x, from[x]);
    }
    WorthIs(read, chain, idx, tx.vin, from);
  }

  lemma SourceOf(r: Rules, chain: seq<Placed>, n: nat, b: nat, x: nat, s: Source)
    requires MaySpend(r, chain, n, b, x, s)
    ensures var o := chain[n].block.vtx[b].vin[x];
            Issues(chain, n, b, s.m, s.c, o.hash) && o.n < |chain[s.m].block.vtx[s.c].vout|
  {
  }

  // ---------- the rule ----------

  /**
   A transaction other than a coinbase connects, on top of the transactions before it, if and only if it keeps the rules
   of spending. Places of blocks are distinct, as the block files are appended to; for the first half they need not be.
   */
  lemma ConnectsExactly(r: Rules, read: Reader, chain: seq<Placed>, n: nat, b: nat)
    requires IsTx(chain, n, b) && IdsUnique(chain, n) && AllStored(read, chain)
    requires IndexAt(r, read, chain, n, b).Some? && !chain[n].block.vtx[b].IsCoinBase()
    ensures IndexAt(r, read, chain, n, b + 1).Some? ==> exists from :: Follows(r, chain, n, b, from)
    ensures DistinctPlaces(chain) && (exists from :: Follows(r, chain, n, b, from)) ==>
              IndexAt(r, read, chain, n, b + 1).Some?
  {
    hide IndexAt, Tells, Follows, Accepts, IdsUnique, AllStored, DistinctPlaces, TipWhere;
    IndexTells(r, read, chain, n, b);
    var idx := IndexAt(r, read, chain, n, b).value.idx;
    NextIs(r, read, chain, n, b);
    if IndexAt(r, read, chain, n, b + 1).Some? {
      var from := AcceptedFollows(r, read, chain, n, b, idx);
    }
    if from: seq<Source> :| Follows(r, chain, n, b, from) {
      if DistinctPlaces(chain) {
        FollowsAccepted(r, read, chain, n, b, idx, from);
      }
    }
  }

  /** The next transaction connects if and only if its inputs are accepted: its id is new. */
  lemma NextIs(r: Rules, read: Reader, chain: seq<Placed>, n: nat, b: nat)
    requires IsTx(chain, n, b) && IdsUnique(chain, n)
    requires IndexAt(r, read, chain, n, b).Some? && !chain[n].block.vtx[b].IsCoinBase()
    ensures IndexAt(r, read, chain, n, b + 1).Some? <==>
              Accepts(r, read, IndexAt(r, read, chain, n, b).value.idx, chain[n].block.vtx[b], TipWhere(chain[..n + 1]))
  {
    hide InputsAllowed, FeeAllowed, ReplayChain, TipWhere, IdsUnique;
    var tx, w := chain[n].block.vtx[b], TipWhere(chain[..n + 1]);
    var base, pos := ReplayChain(r, read, chain[..n]).value.idx, TxPos(w.at, chain[n].block.vtx, b);
    NotInBase(r, read, chain, n, b);
    SpendAllMeaning(IndexAt(r, read, chain, n, b).value.idx, tx.vin, pos);
  }

  lemma NotInBase(r: Rules, read: Reader, chain: seq<Placed>, n: nat, b: nat)
    requires IsTx(chain, n, b) && IdsUnique(chain, n) && ReplayChain(r, read, chain[..n]).Some?
    ensures chain[n].block.vtx[b].txid !in ReplayChain(r, read, chain[..n]).value.idx
  {
    hide IdsUnique, ReplayChain, Tells, ConnectTxs;
    var base, h := ReplayChain(r, read, chain[..n]).value.idx, chain[n].block.vtx[b].txid;
    StartIs(r, read, base, chain[n].block.vtx, TipWhere(chain[..n + 1]));
    IndexTells(r, read, chain, n, 0);
    if h in base {
      var s := IssuerOf(chain, n, 0, base, h);
      SameId(chain, n, s.m, s.c, n, b);
    }
  }

  // ---------- blocks ----------

  /** What a transaction may look like: values from 0 to 2^63 - 1, each and together; empty outputs in coinbases and
      coinstakes only; no input twice; and the null input in coinbases only. */
  ghost predicate WellShaped(tx: Tx) {
    && |tx.vin| > 0 && |tx.vout| > 0 && 0 <= ValueOut(tx.vout) < 0x8000_0000_0000_0000
    && (forall i :: 0 <= i < |tx.vout| ==> 0 <= tx.vout[i].nValue < 0x8000_0000_0000_0000)
    && (forall i :: 0 <= i < |tx.vout| && tx.vout[i].nValue == 0 && tx.vout[i].script == "" ==>
          tx.IsCoinBase() || tx.IsCoinStake())
    && (forall i, j :: 0 <= i < j < |tx.vin| ==> tx.vin[i] != tx.vin[j])
    && (forall i :: 0 <= i < |tx.vin| && tx.vin[i] == OutPoint(0, 0xFFFF_FFFF) ==> tx.IsCoinBase())
  }

  /** What a block may look like: one coinbase, in front, which in a proof-of-stake block has a single empty output and
      is followed by the only coinstake; no transaction younger than the block, and no id twice. */
  ghost predicate BlockShaped(b: Block) {
    && |b.vtx| > 0
    && (forall i :: 0 <= i < |b.vtx| ==> (b.vtx[i].IsCoinBase() <==> i == 0))
    && (forall i :: 0 <= i < |b.vtx| ==> WellShaped(b.vtx[i]) && b.vtx[i].nTime <= b.nTime)
    && (forall i, j :: 0 <= i < j < |b.vtx| ==> b.vtx[i].txid != b.vtx[j].txid)
    && (|b.vtx| > 1 && b.vtx[1].IsCoinStake() ==>
          && |b.vtx[0].vout| == 1 && b.vtx[0].vout[0] == TxOut(0, "")
          && forall i :: 0 <= i < |b.vtx| && b.vtx[i].IsCoinStake() ==> i <= 1)
  }

  lemma ShapeIs(tx: Tx)
    ensures CheckTransaction(tx) <==> WellShaped(tx)
  {
    hide ValueOut;
    if WellShaped(tx) && !tx.IsCoinBase() {
      forall i | 0 <= i < |tx.vin| ensures !tx.vin[i].IsNull() {
        assert tx.vin[i] == OutPoint(tx.vin[i].hash, tx.vin[i].n);
      }
    }
  }

  /** A block connects if and only if it has this shape, passes the tests outside the model, all its transactions
      connect, and its reward is allowed. */
  lemma BlockConnectsExactly(r: Rules, read: Reader, base: Index, b: Block, w: Where)
    ensures ConnectBlock(r, read, base, b, w).Some? <==>
              && BlockShaped(b) && r.context(b, w.height)
              && var t := ConnectTxs(r, read, base, b.vtx, w, |b.vtx|);
                 t.Some? && RewardAllowed(r, base, b, w.height, t.value)
  {
    hide ConnectTxs, RewardAllowed, CheckTransaction, WellShaped;
    forall tx ensures CheckTransaction(tx) <==> WellShaped(tx) {
      ShapeIs(tx);
    }
    if b.vtx != [] {
      ShapedIsChecked(r, b, w.height);
    }
  }

  lemma ShapedIsChecked(r: Rules, b: Block, height: nat)
    requires b.vtx != [] && forall tx :: CheckTransaction(tx) <==> WellShaped(tx)
    ensures CheckBlock(r, b, height) <==> BlockShaped(b) && r.context(b, height)
  {
    hide CheckTransaction, WellShaped;
    if CheckBlock(r, b, height) {
      forall i | 0 <= i < |b.vtx| && b.IsProofOfStake() && b.vtx[i].IsCoinStake() ensures i <= 1 {
      }
    }
    if |b.vtx[0].vout| == 1 {
      assert b.vtx[0].vout[0] == TxOut(b.vtx[0].vout[0].nValue, b.vtx[0].vout[0].script);
    }
  }

  /** The reward a connected block may take: a proof-of-stake block needs a coin age, and its coinstake gives at most
      the fees and what the parent's height allows beyond its inputs; the coinbase of another block has at most the fees
      and the subsidy of the height. */
  lemma RewardExactly(r: Rules, base: Index, b: Block, height: nat, t: Tally)
    requires b.vtx != []
    ensures RewardAllowed(r, base, b, height, t) <==>
              if |b.vtx| > 1 && b.vtx[1].IsCoinStake() then
                var age := r.coinAge(b.vtx[1], InputEntries(base, b.vtx[1].vin));
                && age.Some?
                && t.stakeReward - t.fees
                   <= (if height <= 34000 then age.value * 1_000_000 * 33 / 12053
                       else if height <= 170001 then r.lottery(b.hashPrev) else 100_000_000)
              else
                ValueOut(b.vtx[0].vout) - t.fees <= (if height < 4551 then 328_400_000_000 else 215_652_173)
  {
    hide InputEntries, ValueOut;
  }

  // ---------- maturity ----------

  /** The output of a coinbase or coinstake is spent at least 500 blocks later, on every connected chain without
      repeated ids. */
  lemma Maturity(r: Rules, read: Reader, chain: seq<Placed>, n: nat, b: nat, o: OutPoint, m: nat, c: nat)
    requires ReplayChain(r, read, chain).Some? && NoRepeats(chain) && AllStored(read, chain) && SpendsAt(chain, n, b, o)
    requires m < |chain| && c < |chain[m].block.vtx| && chain[m].block.vtx[c].txid == o.hash
    requires chain[m].block.vtx[c].IsCoinBase() || chain[m].block.vtx[c].IsCoinStake()
    ensures n - m >= 500
  {
    hide ReplayChain, NoRepeats, AllStored, IndexAt, IdsUnique, SpentBefore;
    Connected(r, read, chain, n, b);
    ConnectsExactly(r, read, chain, n, b);
    var from: seq<Source> :| Follows(r, chain, n, b, from);
    var vin := chain[n].block.vtx[b].vin;
    var x :| 0 <= x < |vin| && vin[x] == o;
    assert MaySpend(r, chain, n, b, x, from[x]);
    SameBlock(chain, from[x].m, from[x].c, m, c);
    SameId(chain, n, from[x].m, from[x].c, m, c);
  }

  lemma SameBlock(chain: seq<Placed>, i: nat, a: nat, m: nat, c: nat)
    requires NoRepeats(chain) && i < |chain| && a < |chain[i].block.vtx| && m < |chain| && c < |chain[m].block.vtx|
    requires chain[i].block.vtx[a].txid == chain[m].block.vtx[c].txid
    ensures i == m
  {
    var h := chain[i].block.vtx[a].txid;
    assert h in Txids(chain[i].block.vtx) && h in Txids(chain[m].block.vtx);
  }

  lemma Connected(r: Rules, read: Reader, chain: seq<Placed>, n: nat, b: nat)
    requires ReplayChain(r, read, chain).Some? && NoRepeats(chain) && IsTx(chain, n, b)
    ensures IdsUnique(chain, n) && IndexAt(r, read, chain, n, b).Some? && IndexAt(r, read, chain, n, b + 1).Some?
  {
    hide ReplayChain, ConnectTxs, Txids;
    var upTo := chain[..n + 1];
    ReplayPrefix(r, read, chain, n + 1);
    LastConnects(r, read, upTo);
    assert upTo[..n] == chain[..n] && upTo[n] == chain[n];
    var base, w, vtx := ReplayChain(r, read, chain[..n]).value.idx, TipWhere(upTo), chain[n].block.vtx;
    ConnectTxsPrefix(r, read, base, vtx, w, b, |vtx|);
    ConnectTxsPrefix(r, read, base, vtx, w, b + 1, |vtx|);
    forall i | 1 <= i <= n ensures DistinctTxids(chain[i].block.vtx) {
      ReplayPrefix(r, read, chain, i + 1);
      LastConnects(r, read, chain[..i + 1]);
      assert chain[..i + 1][i] == chain[i];
    }
    assert forall i :: 0 <= i < n + 1 ==> upTo[i] == chain[i];
  }
}
