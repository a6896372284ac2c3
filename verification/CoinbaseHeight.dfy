/**
 The rule that a block's coinbase starts with the height of the block, and why the same coinbase
 cannot pass it at two heights: no push of a number is the beginning of the push of another one.
 */
module CoinbaseHeight {
  import opened Ledger
  import opened Mpi

  const OP_PUSHDATA1 := 0x4C
  const OP_1 := 0x51

  /** The script that pushes some bytes. A length above 255 would take an opcode of its own; no height needs that. */
  function PushBytes(vch: seq<nat>): seq<nat> {
    (if |vch| < OP_PUSHDATA1 then [|vch|] else [OP_PUSHDATA1, |vch|]) + vch
  }

  /** The script that pushes a number. */
  function PushInt(n: nat): seq<nat> {
    if 1 <= n <= 16 then [n + OP_1 - 1] else PushBytes(GetVch(n))
  }

  /** The coinbase starts with the height. */
  predicate HasHeight(b: Block, height: nat) {
    b.vtx != [] && PushInt(height) <= b.vtx[0].scriptSig
  }

  /** Every number above 16 is pushed as its length and its little-endian bytes, which read back as the number. */
  lemma PushReadsBack(n: nat)
    requires n > 16 && |GetVch(n)| < OP_PUSHDATA1
    ensures PushInt(n) == [|GetVch(n)|] + GetVch(n) && SetVch(GetVch(n)) == n
    ensures PushInt(1) == [0x51] && PushInt(16) == [0x60]
  {
    VchRoundTrip(n);
  }

  /** Pushes of bytes tell where they end. */
  lemma BytesDiffer(u: seq<nat>, v: seq<nat>, script: seq<nat>)
    requires PushBytes(u) <= script && PushBytes(v) <= script
    ensures u == v
  {
    var p, q := PushBytes(u), PushBytes(v);
    assert p[0] == script[0] == q[0];
    assert |p| > 1 && |q| > 1 ==> p[1] == script[1] == q[1];
    assert |u| == |v|;
    var n := |p| - |u|;
    assert p == script[..|p|] && q == script[..|q|];
    assert u == p[n..] && v == q[n..];
  }

  /** A script starts with the push of at most one number. */
  lemma HeightsDiffer(a: nat, b: nat, script: seq<nat>)
    requires PushInt(a) <= script && PushInt(b) <= script
    ensures a == b
  {
    hide GetVch;
    assert PushInt(a)[0] == script[0] == PushInt(b)[0];
    if !(1 <= a <= 16) && !(1 <= b <= 16) {
      BytesDiffer(GetVch(a), GetVch(b), script);
      VchRoundTrip(a);
      VchRoundTrip(b);
    }
  }
}
