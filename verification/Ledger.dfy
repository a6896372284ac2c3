/**
 Transactions, the transaction index, and the plain meaning of connecting and
 disconnecting them: what the node computes if every change went straight to the
 index, without the overlay of queued changes and without a database transaction.
 */
module Ledger {
  import Targets

  datatype Option<+T> = None | Some(value: T)

  /** A 256-bit hash; 0 is the null hash. */
  type Hash = nat

  type Size = n: nat | 0 < n witness 1

  const CENT := 1_000_000
  const COIN := 100_000_000
  const MAX_MONEY := 0x7FFF_FFFF_FFFF_FFFF
  const BURN_SCRIPT := "76a9142c2a57256197df6a1c7d6f14daccf4c3dcf4de4288ac"

  const LOTTERY_START := 34000
  const LOTTERY_END := 170000

  predicate MoneyRange(v: int) {
    0 <= v <= MAX_MONEY
  }

  datatype OutPoint = OutPoint(hash: Hash, n: nat) {
    predicate IsNull() {
      hash == 0 && n == 0xFFFF_FFFF
    }
  }

  /** The script is its hexadecimal text. */
  datatype TxOut = TxOut(nValue: int, script: string) {
    predicate IsEmpty() {
      nValue == 0 && script == ""
    }
  }

  /** `txid` is the hash of the serialized transaction, `nSize` its length in bytes and `scriptSig` the bytes of
      the first input's script. */
  datatype Tx = Tx(txid: Hash, nTime: nat, nSize: Size, vin: seq<OutPoint>, vout: seq<TxOut>, scriptSig: seq<nat>) {
    predicate IsCoinBase() {
      |vin| == 1 && vin[0].IsNull() && |vout| >= 1
    }

    predicate IsCoinStake() {
      |vin| > 0 && !vin[0].IsNull() && |vout| >= 2 && vout[0].IsEmpty()
    }
  }

  datatype DiskTxPos = DiskTxPos(nFile: nat, nBlockPos: nat, nTxPos: nat)

  /** Where a transaction is stored and, per output, where it was spent. */
  datatype TxIndex = TxIndex(pos: DiskTxPos, vSpent: seq<Option<DiskTxPos>>)

  type Index = map<Hash, TxIndex>

  /** Reads back the transaction recorded under an id at a position. */
  type Reader = (Hash, DiskTxPos) -> Option<Tx>

  datatype Block = Block(hash: Hash, hashPrev: Hash, nTime: nat, nBits: Targets.Compact, vtx: seq<Tx>) {
    predicate IsProofOfStake() {
      |vtx| > 1 && vtx[1].IsCoinStake()
    }
  }

  /** The verdicts of code outside this model, for any implementation of it. */
  datatype Rules = Rules(
    spend: (Tx, nat, Tx, nat) -> bool, // signature of one input against the transaction it spends, at a height
    minFee: Tx -> int,
    context: (Block, nat) -> bool, // clock, size, proof-of-work, signature and sigop tests of a block
    coinAge: (Tx, seq<Option<TxIndex>>) -> Option<nat>, // from the entries found for the inputs
    lottery: Hash -> int)

  datatype BlockPos = BlockPos(nFile: nat, nBlockPos: nat)

  /** A block being connected: its place on disk, its height, and the places of the last 500 blocks up to it. */
  datatype Where = Where(at: BlockPos, height: nat, recent: seq<BlockPos>)

  const COINBASE_MATURITY := 500

  // ---------- values ----------

  function ValueOut(vout: seq<TxOut>): int {
    if vout == [] then 0 else ValueOut(vout[..|vout| - 1]) + vout[|vout| - 1].nValue
  }

  function Burned(vout: seq<TxOut>): int {
    if vout == [] then 0
    else
      var last := vout[|vout| - 1];
      Burned(vout[..|vout| - 1]) + (if last.script == BURN_SCRIPT then last.nValue else 0)
  }

  /** Every output a transaction names exists, with its index entry and its stored transaction. */
  predicate Fetched(read: Reader, idx: Index, o: OutPoint) {
    && o.hash in idx
    && o.n < |idx[o.hash].vSpent|
    && read(o.hash, idx[o.hash].pos).Some?
    && o.n < |read(o.hash, idx[o.hash].pos).value.vout|
  }

  predicate AllFetched(read: Reader, idx: Index, vin: seq<OutPoint>) {
    forall i :: 0 <= i < |vin| ==> Fetched(read, idx, vin[i])
  }

  function PrevTx(read: Reader, idx: Index, o: OutPoint): Tx
    requires Fetched(read, idx, o)
  {
    read(o.hash, idx[o.hash].pos).value
  }

  function PrevValue(read: Reader, idx: Index, o: OutPoint): int
    requires Fetched(read, idx, o)
  {
    PrevTx(read, idx, o).vout[o.n].nValue
  }

  function ValueIn(read: Reader, idx: Index, vin: seq<OutPoint>): int
    requires AllFetched(read, idx, vin)
  {
    if vin == [] then 0
    else ValueIn(read, idx, vin[..|vin| - 1]) + PrevValue(read, idx, vin[|vin| - 1])
  }

  // ---------- spending and unspending ----------

  predicate AllSpent(e: TxIndex) {
    forall n :: 0 <= n < |e.vSpent| ==> e.vSpent[n].Some?
  }

  function FreshEntry(pos: DiskTxPos, outputs: nat): TxIndex {
    TxIndex(pos, seq(outputs, _ => None))
  }

  predicate InIndex(idx: Index, o: OutPoint) {
    o.hash in idx && o.n < |idx[o.hash].vSpent|
  }

  function Mark(idx: Index, o: OutPoint, spender: Option<DiskTxPos>): Index
    requires InIndex(idx, o)
  {
    var e := idx[o.hash];
    idx[o.hash := e.(vSpent := e.vSpent[o.n := spender])]
  }

  /** Marks every outpoint as spent at `pos`, refusing one that is missing or already spent. */
  function SpendAll(idx: Index, vin: seq<OutPoint>, pos: DiskTxPos): Option<Index> {
    if vin == [] then Some(idx)
    else
      var o := vin[|vin| - 1];
      match SpendAll(idx, vin[..|vin| - 1], pos)
      case None => None
      case Some(i) =>
        if InIndex(i, o) && i[o.hash].vSpent[o.n].None? then Some(Mark(i, o, Some(pos))) else None
  }

  /** Marks every outpoint as not spent, whatever it was, refusing one that is missing. */
  function UnspendAll(idx: Index, vin: seq<OutPoint>): Option<Index> {
    if vin == [] then Some(idx)
    else
      var o := vin[|vin| - 1];
      match UnspendAll(idx, vin[..|vin| - 1])
      case None => None
      case Some(i) => if InIndex(i, o) then Some(Mark(i, o, None)) else None
  }

  // ---------- one transaction ----------

  /** Running totals of a block, with the index as changed so far. */
  datatype Tally = Tally(idx: Index, fees: int, valueIn: int, valueOut: int, burned: int, stakeReward: int)

  function Start(idx: Index): Tally {
    Tally(idx, 0, 0, 0, 0, 0)
  }

  predicate Mature(prev: Tx, pos: DiskTxPos, w: Where) {
    prev.IsCoinBase() || prev.IsCoinStake() ==> BlockPos(pos.nFile, pos.nBlockPos) !in w.recent
  }

  /** The tests on one input other than its signature. */
  predicate InputSane(read: Reader, idx: Index, tx: Tx, i: nat, w: Where)
    requires i < |tx.vin| && Fetched(read, idx, tx.vin[i])
  {
    var prev := PrevTx(read, idx, tx.vin[i]);
    && Mature(prev, idx[tx.vin[i].hash].pos, w)
    && prev.nTime <= tx.nTime
    && MoneyRange(PrevValue(read, idx, tx.vin[i]))
  }

  predicate InputSigned(r: Rules, read: Reader, idx: Index, tx: Tx, i: nat, w: Where)
    requires i < |tx.vin| && Fetched(read, idx, tx.vin[i])
  {
    r.spend(tx, i, PrevTx(read, idx, tx.vin[i]), w.height)
  }

  predicate FeeAllowed(r: Rules, tx: Tx, valueIn: int) {
    tx.IsCoinStake() || (r.minFee(tx) <= valueIn - ValueOut(tx.vout) && MoneyRange(valueIn - ValueOut(tx.vout)))
  }

  predicate InputsAllowed(r: Rules, read: Reader, idx: Index, tx: Tx, w: Where) {
    && AllFetched(read, idx, tx.vin)
    && (forall i :: 0 <= i < |tx.vin| ==> InputSane(read, idx, tx, i, w))
    && (forall i :: 0 <= i < |tx.vin| ==> InputSigned(r, read, idx, tx, i, w))
    && ValueIn(read, idx, tx.vin) <= MAX_MONEY
    && FeeAllowed(r, tx, ValueIn(read, idx, tx.vin))
  }

  /** Overwriting an older transaction is refused unless `base` records it as fully spent. */
  predicate MayOverwrite(base: Index, txid: Hash) {
    txid in base ==> AllSpent(base[txid])
  }

  /** The index entries a transaction leaves behind: its inputs spent, its own outputs fresh. */
  function SpendTx(idx: Index, tx: Tx, pos: DiskTxPos): Option<Index> {
    match (if tx.IsCoinBase() then Some(idx) else SpendAll(idx, tx.vin, pos))
    case None => None
    case Some(i) => Some(i[tx.txid := FreshEntry(pos, |tx.vout|)])
  }

  function ConnectTx(r: Rules, read: Reader, base: Index, t: Tally, tx: Tx, pos: DiskTxPos, w: Where): Option<Tally>
  {
    if !MayOverwrite(base, tx.txid) || !(tx.IsCoinBase() || InputsAllowed(r, read, t.idx, tx, w)) then None
    else
      match SpendTx(t.idx, tx, pos)
      case None => None
      case Some(i) =>
        var vIn := if tx.IsCoinBase() then 0 else ValueIn(read, t.idx, tx.vin);
        var vOut := ValueOut(tx.vout);
        Some(Tally(i,
                   t.fees + (if tx.IsCoinBase() || tx.IsCoinStake() then 0 else vIn - vOut),
                   t.valueIn + vIn,
                   t.valueOut + vOut,
                   t.burned + Burned(tx.vout),
                   if tx.IsCoinStake() then vOut - vIn else t.stakeReward))
  }

  /** Unmarks the inputs of a transaction and erases its own entry. */
  function DisconnectTx(idx: Index, tx: Tx): Option<Index> {
    match (if tx.IsCoinBase() then Some(idx) else UnspendAll(idx, tx.vin))
    case None => None
    case Some(i) => Some(i - {tx.txid})
  }

  // ---------- one block ----------

  function CompactSizeLength(n: nat): nat {
    if n < 253 then 1 else if n <= 0xFFFF then 3 else if n <= 0xFFFF_FFFF then 5 else 9
  }

  function SizeOf(txs: seq<Tx>): nat {
    if txs == [] then 0 else SizeOf(txs[..|txs| - 1]) + txs[|txs| - 1].nSize
  }

  /** Byte position of transaction `i` of a block stored at `at`: header, length prefix, earlier transactions. */
  function TxPos(at: BlockPos, vtx: seq<Tx>, i: nat): DiskTxPos
    requires i <= |vtx|
  {
    DiskTxPos(at.nFile, at.nBlockPos, at.nBlockPos + 80 + CompactSizeLength(|vtx|) + SizeOf(vtx[..i]))
  }

  function ConnectTxs(r: Rules, read: Reader, base: Index, vtx: seq<Tx>, w: Where, k: nat): Option<Tally>
    requires k <= |vtx|
  {
    if k == 0 then Some(Start(base))
    else
      match ConnectTxs(r, read, base, vtx, w, k - 1)
      case None => None
      case Some(t) => ConnectTx(r, read, base, t, vtx[k - 1], TxPos(w.at, vtx, k - 1), w)
  }

  predicate CheckTransaction(tx: Tx) {
    && tx.vin != [] && tx.vout != []
    && (forall i :: 0 <= i < |tx.vout| ==>
      && MoneyRange(tx.vout[i].nValue)
      && (tx.vout[i].IsEmpty() ==> tx.IsCoinBase() || tx.IsCoinStake()))
    && MoneyRange(ValueOut(tx.vout))
    && (forall i, j :: 0 <= i < j < |tx.vin| ==> tx.vin[i] != tx.vin[j])
    && (tx.IsCoinBase() || forall i :: 0 <= i < |tx.vin| ==> !tx.vin[i].IsNull())
  }

  predicate DistinctTxids(vtx: seq<Tx>) {
    forall i, j :: 0 <= i < j < |vtx| ==> vtx[i].txid != vtx[j].txid
  }

  predicate CheckBlock(r: Rules, b: Block, height: nat) {
    && b.vtx != []
    && r.context(b, height)
    && b.vtx[0].IsCoinBase()
    && (forall i :: 1 <= i < |b.vtx| ==> !b.vtx[i].IsCoinBase())
    && (b.IsProofOfStake() ==>
      && |b.vtx[0].vout| == 1 && b.vtx[0].vout[0].IsEmpty()
      && forall i :: 2 <= i < |b.vtx| ==> !b.vtx[i].IsCoinStake())
    && (forall i :: 0 <= i < |b.vtx| ==> CheckTransaction(b.vtx[i]) && b.vtx[i].nTime <= b.nTime)
    && DistinctTxids(b.vtx)
  }

  /** On the main network, whose subsidies of 2.15652173 coins are written in the smallest unit. */
  function ProofOfWorkReward(height: nat, fees: int): int {
    (if height < 4551 then 3284 * COIN else 215652173) + fees
  }

  function ProofOfStakeReward(r: Rules, prevHash: Hash, prevHeight: int, coinAge: nat, fees: int): int {
    if prevHeight < LOTTERY_START then coinAge * CENT * 33 / (365 * 33 + 8) + fees
    else if prevHeight > LOTTERY_END then COIN + fees
    else r.lottery(prevHash) + fees
  }

  function InputEntries(idx: Index, vin: seq<OutPoint>): seq<Option<TxIndex>> {
    seq(|vin|, i requires 0 <= i < |vin| => if vin[i].hash in idx then Some(idx[vin[i].hash]) else None)
  }

  predicate RewardAllowed(r: Rules, base: Index, b: Block, height: nat, t: Tally)
    requires b.vtx != []
  {
    if b.IsProofOfStake() then
      var coinAge := r.coinAge(b.vtx[1], InputEntries(base, b.vtx[1].vin));
      && coinAge.Some?
      && t.stakeReward <= ProofOfStakeReward(r, b.hashPrev, height - 1, coinAge.value, t.fees)
    else
      ValueOut(b.vtx[0].vout) <= ProofOfWorkReward(height, t.fees)
  }

  function ConnectBlock(r: Rules, read: Reader, base: Index, b: Block, w: Where): Option<Tally>
  {
    if !CheckBlock(r, b, w.height) then None
    else
      match ConnectTxs(r, read, base, b.vtx, w, |b.vtx|)
      case None => None
      case Some(t) => if RewardAllowed(r, base, b, w.height, t) then Some(t) else None
  }

  /** Disconnects the transactions in reverse order. */
  function DisconnectTxs(idx: Index, vtx: seq<Tx>): Option<Index>
    decreases |vtx|
  {
    if vtx == [] then Some(idx)
    else
      match DisconnectTx(idx, vtx[|vtx| - 1])
      case None => None
      case Some(i) => DisconnectTxs(i, vtx[..|vtx| - 1])
  }

  function Txids(vtx: seq<Tx>): set<Hash> {
    set i | 0 <= i < |vtx| :: vtx[i].txid
  }
}
