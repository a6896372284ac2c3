/**
 The signed big-endian byte format of multi-precision integers: minimal magnitude
 bytes, with the top bit of the first byte as the sign and a padding byte when the
 magnitude needs that bit.
 */
module Mpi {
  import opened Sequences

  type Byte = n: nat | n < 256

  function Pow256(k: nat): (p: nat)
    ensures p > 0
  {
    if k == 0 then 1 else 256 * Pow256(k - 1)
  }

  function ToNat(bytes: seq<Byte>): nat {
    if bytes == [] then 0 else ToNat(bytes[..|bytes| - 1]) * 256 + bytes[|bytes| - 1]
  }

  /** The minimal bytes of a number; none for zero. */
  function ToBytes(n: nat): (bytes: seq<Byte>)
    ensures n == 0 <==> bytes == []
    ensures bytes != [] ==> bytes[0] != 0
  {
    if n == 0 then [] else ToBytes(n / 256) + [n % 256]
  }

  function FromMpi(bytes: seq<Byte>): int {
    if bytes == [] then 0
    else
      var magnitude: int := ToNat([bytes[0] % 128] + bytes[1..]);
      if bytes[0] >= 128 then -magnitude else magnitude
  }

  function ToMpi(n: int): seq<Byte> {
    var magnitude := ToBytes(if n < 0 then -n else n);
    var sign := if n < 0 then 128 else 0;
    if magnitude == [] then []
    else if magnitude[0] >= 128 then [sign] + magnitude
    else [magnitude[0] + sign] + magnitude[1..]
  }

  lemma {:induction false} ToNatAppend(a: seq<Byte>, b: seq<Byte>)
    ensures ToNat(a + b) == ToNat(a) * Pow256(|b|) + ToNat(b)
  {
    if b == [] {
      assert a + b == a;
    } else {
      var c, last := b[..|b| - 1], b[|b| - 1];
      ToNatAppend(a, c);
      assert (a + b)[..|a + b| - 1] == a + c && (a + b)[|a + b| - 1] == last;
      calc {
        ToNat(a + b);
        (ToNat(a) * Pow256(|c|) + ToNat(c)) * 256 + last;
        ToNat(a) * (256 * Pow256(|c|)) + ToNat(b);
        ToNat(a) * Pow256(|b|) + ToNat(b);
      }
    }
  }

  lemma {:induction false} ToNatBound(bytes: seq<Byte>)
    ensures ToNat(bytes) < Pow256(|bytes|)
  {
    if bytes != [] {
      ToNatBound(bytes[..|bytes| - 1]);
    }
  }

  lemma ToNatOne(b: Byte)
    ensures ToNat([b]) == b
  {
    assert [b][..0] == [];
  }

  lemma {:induction false} BytesRoundTrip(n: nat)
    ensures ToNat(ToBytes(n)) == n
  {
    if n != 0 {
      BytesRoundTrip(n / 256);
      var bytes := ToBytes(n);
      assert bytes[..|bytes| - 1] == ToBytes(n / 256);
    }
  }

  /** Bytes without a leading zero are the minimal bytes of their value. */
  lemma {:induction false} MinimalBytes(bytes: seq<Byte>)
    requires bytes != [] ==> bytes[0] != 0
    ensures ToBytes(ToNat(bytes)) == bytes
  {
    if bytes != [] {
      var rest, last := bytes[..|bytes| - 1], bytes[|bytes| - 1];
      MinimalBytes(rest);
      assert ToNat(bytes) / 256 == ToNat(rest) && ToNat(bytes) % 256 == last;
      if rest == [] {
        assert bytes == [last];
      } else {
        assert ToNat(rest) != 0;
      }
    }
  }

  lemma SplitFirst(bytes: seq<Byte>)
    requires bytes != []
    ensures ToNat(bytes) == bytes[0] * Pow256(|bytes| - 1) + ToNat(bytes[1..])
  {
    assert bytes == [bytes[0]] + bytes[1..];
    ToNatOne(bytes[0]);
    ToNatAppend([bytes[0]], bytes[1..]);
  }

  lemma PadWithZero(bytes: seq<Byte>)
    ensures ToNat([0] + bytes) == ToNat(bytes)
  {
    ToNatOne(0);
    ToNatAppend([0], bytes);
  }

  /** The signed bytes of a positive number are its bytes, padded so that the first one stays below 128. */
  lemma PositiveMpi(n: nat)
    requires n > 0
    ensures var bytes := ToMpi(n);
      && bytes != [] && bytes[0] < 128 && ToNat(bytes) == n
      && (bytes[0] == 0 ==> |bytes| >= 2 && bytes[1] >= 128)
  {
    hide ToNat;
    var magnitude := ToBytes(n);
    BytesRoundTrip(n);
    PadWithZero(magnitude);
    assert [magnitude[0]] + magnitude[1..] == magnitude;
  }

  /** A negative number has the signed bytes of its opposite, with the sign bit set. */
  lemma NegativeMpi(n: int)
    requires n > 0
    ensures var bytes := ToMpi(n); bytes != [] && ToMpi(-n) == [bytes[0] + 128] + bytes[1..]
  {
    hide ToNat;
    PositiveMpi(n);
  }

  /** Every integer is read back from its signed bytes. */
  lemma MpiRoundTrip(n: int)
    ensures FromMpi(ToMpi(n)) == n
  {
    hide ToNat, ToMpi;
    if n != 0 {
      var m := if n < 0 then -n else n;
      var bytes := ToMpi(m);
      PositiveMpi(m);
      NegativeMpi(m);
      assert [bytes[0]] + bytes[1..] == bytes;
      assert ([bytes[0] + 128] + bytes[1..])[1..] == bytes[1..];
    } else {
      assert ToMpi(0) == [] by { ZeroMpi(); }
    }
  }

  lemma ZeroMpi()
    ensures ToMpi(0) == []
  {
  }

  // ---------- little-endian bytes ----------

  /** A number from little-endian bytes with a sign bit. */
  function SetVch(vch: seq<Byte>): int {
    FromMpi(Reversed(vch))
  }

  function GetVch(n: int): seq<Byte> {
    Reversed(ToMpi(n))
  }

  lemma VchRoundTrip(n: int)
    ensures SetVch(GetVch(n)) == n
  {
    hide FromMpi, ToMpi, Reversed;
    ReversedTwice(ToMpi(n));
    MpiRoundTrip(n);
  }
}
