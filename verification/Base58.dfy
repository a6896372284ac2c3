/**
 Base58 text for byte strings, by way of multi-precision integers with a sign bit, and
 the variant with a four-byte checksum.
 */
module Base58 {
  import opened Ledger
  import opened Mpi
  import opened Sequences

  // ---------- the alphabet ----------

  type Digit = n: nat | n < 58

  /** 123456789ABCDEFGHJKLMNPQRSTUVWXYZabcdefghijkmnopqrstuvwxyz */
  function CharOf(d: Digit): char {
    if d < 9 then '1' + d as char
    else if d < 17 then 'A' + (d - 9) as char
    else if d < 22 then 'J' + (d - 17) as char
    else if d < 33 then 'P' + (d - 22) as char
    else if d < 44 then 'a' + (d - 33) as char
    else 'm' + (d - 44) as char
  }

  function DigitOf(c: char): Option<Digit> {
    if '1' <= c <= '9' then Some((c - '1') as int)
    else if 'A' <= c <= 'H' then Some((c - 'A') as int + 9)
    else if 'J' <= c <= 'N' then Some((c - 'J') as int + 17)
    else if 'P' <= c <= 'Z' then Some((c - 'P') as int + 22)
    else if 'a' <= c <= 'k' then Some((c - 'a') as int + 33)
    else if 'm' <= c <= 'z' then Some((c - 'm') as int + 44)
    else None
  }

  predicate IsSpace(c: char) {
    c == ' ' || '\t' <= c <= '\r'
  }

  lemma AlphabetRoundTrip(d: Digit, c: char)
    ensures DigitOf(CharOf(d)) == Some(d)
    ensures DigitOf(c).Some? ==> CharOf(DigitOf(c).value) == c && !IsSpace(c) && c != '\0'
  {
  }

  // ---------- numbers in base 58 ----------

  function FromDigits(ds: seq<Digit>): nat {
    if ds == [] then 0 else FromDigits(ds[..|ds| - 1]) * 58 + ds[|ds| - 1]
  }

  function ToDigits(n: nat): (ds: seq<Digit>)
    ensures n == 0 <==> ds == []
    ensures ds != [] ==> ds[0] != 0
  {
    if n == 0 then [] else ToDigits(n / 58) + [n % 58]
  }

  lemma {:induction false} DigitsRoundTrip(n: nat)
    ensures FromDigits(ToDigits(n)) == n
  {
    if n != 0 {
      DigitsRoundTrip(n / 58);
      var ds := ToDigits(n);
      assert ds[..|ds| - 1] == ToDigits(n / 58);
    }
  }

  lemma {:induction false} MinimalDigits(ds: seq<Digit>)
    requires ds != [] ==> ds[0] != 0
    ensures ToDigits(FromDigits(ds)) == ds
  {
    if ds != [] {
      var rest, last := ds[..|ds| - 1], ds[|ds| - 1];
      MinimalDigits(rest);
      assert FromDigits(ds) / 58 == FromDigits(rest) && FromDigits(ds) % 58 == last;
      if rest == [] {
        assert ds == [last];
      } else {
        assert FromDigits(rest) != 0;
      }
    }
  }

  lemma {:induction false} LeadingZeroDigits(k: nat, ds: seq<Digit>)
    ensures FromDigits(Repeat(0, k) + ds) == FromDigits(ds)
    decreases |ds|, k
  {
    var all: seq<Digit> := Repeat(0, k) + ds;
    if ds != [] {
      LeadingZeroDigits(k, ds[..|ds| - 1]);
      assert all[..|all| - 1] == Repeat(0, k) + ds[..|ds| - 1];
    } else if k > 0 {
      LeadingZeroDigits(k - 1, ds);
      assert all[..|all| - 1] == Repeat(0, k - 1) + ds;
      assert FromDigits(ds) == 0;
    } else {
      assert all == [];
    }
  }

  lemma {:induction false} LeadingZeroBytes(k: nat, bytes: seq<Byte>)
    ensures ToNat(Repeat(0, k) + bytes) == ToNat(bytes)
  {
    if k == 0 {
      assert Repeat(0, 0) + bytes == bytes;
    } else {
      LeadingZeroBytes(k - 1, bytes);
      var less: seq<Byte> := Repeat(0, k - 1) + bytes;
      assert Repeat(0, k) + bytes == [0] + less;
      PadWithZero(less);
    }
  }

  // ---------- what encoding and decoding compute ----------

  function Chars(ds: seq<Digit>): (s: string)
    ensures |s| == |ds| && forall i :: 0 <= i < |ds| ==> s[i] == CharOf(ds[i])
  {
    seq(|ds|, i requires 0 <= i < |ds| => CharOf(ds[i]))
  }

  /** The digits of a text that consists of digits. */
  function Values(s: string): (ds: seq<Digit>)
    requires AllDigits(s)
    ensures |ds| == |s| && forall i :: 0 <= i < |s| ==> Some(ds[i]) == DigitOf(s[i])
  {
    seq(|s|, i requires 0 <= i < |s| => DigitOf(s[i]).value)
  }

  predicate AllDigits(s: string) {
    forall i :: 0 <= i < |s| ==> DigitOf(s[i]).Some?
  }

  function Encoding(b: seq<Byte>): string {
    Chars(Repeat(0, Leading(0, b)) + ToDigits(ToNat(b)))
  }

  /** Some texts: zero bytes in front give ones, and digits count from the right in base 58. */
  lemma KnownTexts()
    ensures Encoding([]) == "" && Encoding([0]) == "1" && Encoding([57]) == "z" && Encoding([0, 58]) == "121"
  {
    hide ToNat, ToDigits, Chars;
    KnownNumbers();
    KnownChars();
    assert Repeat<Digit>(0, 0) == [] && Repeat<Digit>(0, 1) == [0];
    assert Leading(0, [0, 58]) == 1 && Leading(0, [57]) == 0;
    assert [0] + [1, 0] == [0, 1, 0];
  }

  lemma KnownNumbers()
    ensures ToDigits(ToNat([])) == [] == ToDigits(ToNat([0]))
    ensures ToDigits(ToNat([57])) == [57] && ToDigits(ToNat([0, 58])) == [1, 0]
  {
    assert [0][..0] == [] && [57][..0] == [] && [0, 58][..1] == [0];
    assert ToNat([0]) == 0 && ToNat([57]) == 57 && ToNat([0, 58]) == 58;
  }

  lemma KnownChars()
    ensures Chars([]) == "" && Chars([0]) == "1" && Chars([57]) == "z" && Chars([0, 1, 0]) == "121"
  {
  }

  function Decoding(ds: seq<Digit>): seq<Byte> {
    Repeat(0, Leading(0, ds)) + ToBytes(FromDigits(ds))
  }

  /** Bytes are zeros followed by the minimal bytes of their value. */
  lemma SplitBytes(b: seq<Byte>)
    ensures b == Repeat(0, Leading(0, b)) + ToBytes(ToNat(b))
  {
    var k := Leading(0, b);
    var rest := b[k..];
    assert b == b[..k] + rest;
    LeadingZeroBytes(k, rest);
    MinimalBytes(rest);
  }

  lemma SplitDigits(ds: seq<Digit>)
    ensures ds == Repeat(0, Leading(0, ds)) + ToDigits(FromDigits(ds))
  {
    var k := Leading(0, ds);
    var rest := ds[k..];
    assert ds == ds[..k] + rest;
    LeadingZeroDigits(k, rest);
    MinimalDigits(rest);
  }

  /** Decoding inverts encoding, for all bytes. */
  lemma DecodeEncode(b: seq<Byte>)
    ensures AllDigits(Encoding(b)) && Decoding(Values(Encoding(b))) == b
  {
    var k, n := Leading(0, b), ToNat(b);
    var ds: seq<Digit> := Repeat(0, k) + ToDigits(n);
    CharsRoundTrip(ds);
    LeadingOf<Digit>(0, k, ToDigits(n));
    LeadingZeroDigits(k, ToDigits(n));
    DigitsRoundTrip(n);
    SplitBytes(b);
  }

  /** Encoding inverts decoding, for all texts of digits. */
  lemma EncodeDecode(s: string)
    requires AllDigits(s)
    ensures Encoding(Decoding(Values(s))) == s
  {
    var ds := Values(s);
    var k, n := Leading(0, ds), FromDigits(ds);
    var b: seq<Byte> := Repeat(0, k) + ToBytes(n);
    LeadingOf<Byte>(0, k, ToBytes(n));
    LeadingZeroBytes(k, ToBytes(n));
    BytesRoundTrip(n);
    SplitDigits(ds);
    ValuesRoundTrip(s);
  }

  lemma CharsRoundTrip(ds: seq<Digit>)
    ensures AllDigits(Chars(ds)) && Values(Chars(ds)) == ds
  {
    forall i | 0 <= i < |ds| ensures DigitOf(Chars(ds)[i]) == Some(ds[i]) {
      AlphabetRoundTrip(ds[i], '1');
    }
  }

  lemma ValuesRoundTrip(s: string)
    requires AllDigits(s)
    ensures Chars(Values(s)) == s
  {
    forall i | 0 <= i < |s| ensures Chars(Values(s))[i] == s[i] {
      AlphabetRoundTrip(0, s[i]);
    }
  }

  // ---------- texts with white space ----------

  /** The character at a position of a null-terminated string. */
  function At(s: string, i: nat): char {
    if i < |s| then s[i] else '\0'
  }

  function SkipSpaces(s: string, i: nat): (j: nat)
    requires i <= |s|
    ensures i <= j <= |s| && !IsSpace(At(s, j)) && forall k :: i <= k < j ==> IsSpace(s[k])
    decreases |s| - i
  {
    if IsSpace(At(s, i)) then SkipSpaces(s, i + 1) else i
  }

  function SkipDigits(s: string, i: nat): (j: nat)
    requires i <= |s|
    ensures i <= j <= |s| && DigitOf(At(s, j)).None? && AllDigits(s[i..j])
    decreases |s| - i
  {
    if DigitOf(At(s, i)).Some? then
      var j := SkipDigits(s, i + 1);
      assert s[i..j] == [s[i]] + s[i + 1..j];
      j
    else i
  }

  /** The digits of a text, which may have white space around them and nothing else. */
  function Core(s: string): (t: Option<string>)
    ensures t.Some? ==> AllDigits(t.value)
  {
    var start := SkipSpaces(s, 0);
    var stop := SkipDigits(s, start);
    if At(s, SkipSpaces(s, stop)) == '\0' then Some(s[start..stop]) else None
  }

  lemma {:induction false} DigitsEnd(s: string, i: nat)
    requires AllDigits(s) && i <= |s|
    ensures SkipDigits(s, i) == |s|
    decreases |s| - i
  {
    if i < |s| {
      DigitsEnd(s, i + 1);
    }
  }

  lemma DigitsAreCore(s: string)
    requires AllDigits(s)
    ensures Core(s) == Some(s)
  {
    if s != [] {
      AlphabetRoundTrip(0, s[0]);
    }
    DigitsEnd(s, 0);
    assert SkipSpaces(s, 0) == 0 && SkipSpaces(s, |s|) == |s|;
    assert s[0..|s|] == s;
  }

  function Decoded(s: string): Option<seq<Byte>> {
    match Core(s) case None => None case Some(t) => Some(Decoding(Values(t)))
  }

  // ---------- the operations ----------

  /** The extra zero byte at the end makes any bytes a non-negative number. */
  lemma SetVchPadded(b: seq<Byte>)
    ensures SetVch(Reversed(b) + [0]) == ToNat(b)
  {
    hide Reversed, FromMpi, ToNat;
    ReversedAppend<Byte>(Reversed(b), 0);
    ReversedTwice(b);
    FromMpiPadded(b);
  }

  lemma FromMpiPadded(b: seq<Byte>)
    ensures FromMpi([0] + b) == ToNat(b)
  {
    hide ToNat;
    var padded: seq<Byte> := [0] + b;
    assert [padded[0] % 128] + padded[1..] == padded;
    PadWithZero(b);
  }

  method EncodeBase58(b: seq<Byte>) returns (s: string)
    ensures s == Encoding(b)
  {
    hide ToNat, SetVch, ToDigits, Reversed, Chars, CharOf, Leading;
    var vchTmp: seq<Byte> := Reversed(b) + [0];
    SetVchPadded(b);
    var bn := SetVch(vchTmp);
    ghost var low: seq<Digit> := [];
    var str := "";
    NoChars();
    while bn > 0
      invariant bn >= 0 && ToDigits(ToNat(b)) == ToDigits(bn) + low && Reversed(str) == Chars(low)
    {
      DigitsStep(bn);
      PrependDigit(str, low, bn % 58);
      str := str + [CharOf(bn % 58)];
      low := [bn % 58] + low;
      bn := bn / 58;
    }
    DigitsStep(0);
    assert low == ToDigits(ToNat(b));
    var p := 0;
    assert Repeat(0, 0) + low == low;
    while p < |b| && b[p] == 0
      invariant p <= Leading(0, b) && Reversed(str) == Chars(Repeat(0, p) + low)
    {
      LeadingMore(b, p, 0);
      PrependDigit(str, Repeat(0, p) + low, 0);
      RepeatMore(p, low);
      str := str + [CharOf(0)];
      p := p + 1;
    }
    LeadingMore(b, p, 0);
    s := Reversed(str);
  }

  lemma RepeatMore(p: nat, low: seq<Digit>)
    ensures Repeat(0, p + 1) + low == [0] + (Repeat(0, p) + low)
  {
  }

  lemma NoChars()
    ensures Reversed("") == Chars([]) == ""
  {
  }

  lemma PrependDigit(str: string, low: seq<Digit>, d: Digit)
    requires Reversed(str) == Chars(low)
    ensures Reversed(str + [CharOf(d)]) == Chars([d] + low)
  {
    ReversedAppend(str, CharOf(d));
    assert Chars([d] + low) == [CharOf(d)] + Chars(low);
  }

  lemma DigitsStep(n: nat)
    ensures ToDigits(n) == if n == 0 then [] else ToDigits(n / 58) + [n % 58]
  {
  }

  /** A position before the end of the leading zeros, or at it. */
  lemma LeadingMore<T>(b: seq<T>, p: nat, x: T)
    requires p <= Leading(x, b)
    ensures p < |b| && b[p] == x ==> p + 1 <= Leading(x, b)
    ensures p >= |b| || b[p] != x ==> p == Leading(x, b)
  {
    var k := Leading(x, b);
    if p < k {
      assert b[..k][p] == x;
    }
  }

  /** Without the sign byte, the little-endian bytes of a number are its minimal bytes. */
  lemma GetVchTrimmed(n: nat)
    ensures var v := GetVch(n);
            (if |v| >= 2 && v[|v| - 1] == 0 && v[|v| - 2] >= 0x80 then v[..|v| - 1] else v) == Reversed(ToBytes(n))
  {
    var m := ToBytes(n);
    if m != [] {
      assert ToMpi(n) == if m[0] >= 128 then [0] + m else m;
      assert m == [m[0]] + m[1..];
      assert ([0] + m)[1..] == m;
      assert Reversed(m) == Reversed(m[1..]) + [m[0]];
      assert Reversed([0] + m) == Reversed(m) + [0];
    }
  }

  lemma FromDigitsStep(ds: seq<Digit>, i: nat)
    requires i < |ds|
    ensures FromDigits(ds[..i + 1]) == FromDigits(ds[..i]) * 58 + ds[i]
  {
    assert ds[..i + 1][..i] == ds[..i];
  }

  /** Reads the digits from `psz` on; fails if anything but white space follows them. */
  method ParseDigits(s: string, psz: nat) returns (bn: Option<nat>)
    requires psz <= |s|
    ensures var stop := SkipDigits(s, psz);
            bn == if At(s, SkipSpaces(s, stop)) == '\0' then Some(FromDigits(Values(s[psz..stop]))) else None
  {
    hide FromDigits, AllDigits;
    ghost var stop := SkipDigits(s, psz);
    ghost var ds := Values(s[psz..stop]);
    var n: nat, p := 0, psz;
    NoDigits(ds);
    while At(s, p) != '\0'
      invariant psz <= p <= stop == SkipDigits(s, p) && n == FromDigits(ds[..p - psz])
      decreases |s| - p
    {
      var d := DigitOf(At(s, p));
      if d.None? {
        assert p == stop && ds[..p - psz] == ds;
        while IsSpace(At(s, p))
          invariant stop <= p <= |s| && SkipSpaces(s, stop) == SkipSpaces(s, p)
          decreases |s| - p
        {
          p := p + 1;
        }
        return if At(s, p) != '\0' then None else Some(n);
      }
      FromDigitsStep(ds, p - psz);
      assert s[psz..stop][p - psz] == s[p];
      n := n * 58 + d.value;
      p := p + 1;
    }
    AlphabetRoundTrip(0, '\0');
    assert p == stop && ds[..p - psz] == ds;
    bn := Some(n);
  }

  lemma NoDigits(ds: seq<Digit>)
    ensures FromDigits(ds[..0]) == 0
  {
  }

  /** Counts the zero digits at `psz`. */
  method CountOnes(s: string, psz: nat) returns (n: nat)
    requires psz <= |s|
    ensures n == Leading(0, Values(s[psz..SkipDigits(s, psz)]))
  {
    ghost var stop := SkipDigits(s, psz);
    ghost var ds := Values(s[psz..stop]);
    n := 0;
    while At(s, psz + n) == CharOf(0)
      invariant n <= Leading(0, ds) && psz + n <= stop
      decreases |s| - n
    {
      OneIsDigit(s, psz, n);
      LeadingMore(ds, n, 0);
      n := n + 1;
    }
    OneIsDigit(s, psz, n);
    LeadingMore(ds, n, 0);
  }

  lemma OneIsDigit(s: string, psz: nat, n: nat)
    requires psz <= |s| && psz + n <= SkipDigits(s, psz)
    ensures var ds := Values(s[psz..SkipDigits(s, psz)]);
            At(s, psz + n) == CharOf(0) <==> n < |ds| && ds[n] == 0
  {
    var stop := SkipDigits(s, psz);
    AlphabetRoundTrip(0, At(s, psz + n));
    if psz + n < stop {
      assert s[psz..stop][n] == s[psz + n];
    }
  }

  method DecodeBase58(s: string) returns (r: Option<seq<Byte>>)
    ensures r == Decoded(s)
  {
    hide ToMpi, ToBytes, SkipDigits, FromDigits, AllDigits;
    var psz := 0;
    while IsSpace(At(s, psz))
      invariant psz <= |s| && SkipSpaces(s, 0) == SkipSpaces(s, psz)
      decreases |s| - psz
    {
      psz := psz + 1;
    }
    var parsed := ParseDigits(s, psz);
    if parsed.None? {
      return None;
    }
    var bn := parsed.value;
    var vchTmp := GetVch(bn);
    GetVchTrimmed(bn);
    if |vchTmp| >= 2 && vchTmp[|vchTmp| - 1] == 0 && vchTmp[|vchTmp| - 2] >= 0x80 {
      vchTmp := vchTmp[..|vchTmp| - 1];
    }
    ReversedTwice(ToBytes(bn));
    var nLeadingZeros := CountOnes(s, psz);
    r := Some(Repeat(0, nLeadingZeros) + Reversed(vchTmp));
  }

  /** Text that was encoded decodes to the bytes it came from, also with white space around it. */
  lemma DecodedEncoding(b: seq<Byte>)
    ensures Decoded(Encoding(b)) == Some(b)
  {
    DecodeEncode(b);
    DigitsAreCore(Encoding(b));
  }

  /** A text decodes exactly if it is digits within white space, and then its digits are the encoding of the bytes. */
  lemma DecodedText(s: string)
    ensures Decoded(s).Some? <==> Core(s).Some?
    ensures Decoded(s).Some? ==> Encoding(Decoded(s).value) == Core(s).value
    ensures AllDigits(s) ==> Decoded(s).Some? && Encoding(Decoded(s).value) == s
  {
    if Core(s).Some? {
      EncodeDecode(Core(s).value);
    }
    if AllDigits(s) {
      DigitsAreCore(s);
    }
  }

  // ---------- with a checksum ----------

  /** The first four bytes of a hash in memory order. */
  function First4(h: nat): (r: seq<Byte>)
    ensures |r| == 4
  {
    [h % 256, h / 256 % 256, h / 0x1_0000 % 256, h / 0x100_0000 % 256]
  }

  method EncodeBase58Check(hash: seq<Byte> -> nat, vchIn: seq<Byte>) returns (s: string)
    ensures s == Encoding(vchIn + First4(hash(vchIn)))
  {
    var vch := vchIn;
    vch := vch + First4(hash(vch));
    s := EncodeBase58(vch);
  }

  /** The payload of bytes that end in the checksum of the rest. */
  function Payload(hash: seq<Byte> -> nat, vch: seq<Byte>): Option<seq<Byte>> {
    if |vch| < 4 || First4(hash(vch[..|vch| - 4])) != vch[|vch| - 4..] then None else Some(vch[..|vch| - 4])
  }

  method DecodeBase58Check(hash: seq<Byte> -> nat, s: string) returns (r: Option<seq<Byte>>)
    ensures r == match Decoded(s) case None => None case Some(vch) => Payload(hash, vch)
  {
    r := DecodeBase58(s);
    if r.None? {
      return;
    }
    var vch := r.value;
    if |vch| < 4 {
      return None;
    }
    if First4(hash(vch[..|vch| - 4])) != vch[|vch| - 4..] {
      return None;
    }
    r := Some(vch[..|vch| - 4]);
  }

  /** Whatever the hash: checked text decodes to its payload, and a text of digits that decodes is the payload's
      encoding, so that no other text of digits stands for it. */
  lemma CheckRoundTrip(hash: seq<Byte> -> nat, v: seq<Byte>, s: string)
    ensures Decoded(Encoding(v + First4(hash(v)))) == Some(v + First4(hash(v)))
    ensures Payload(hash, v + First4(hash(v))) == Some(v)
    ensures AllDigits(s) && Payload(hash, Decoded(s).value) == Some(v) ==> s == Encoding(v + First4(hash(v)))
  {
    hide Decoded, Encoding, AllDigits, First4;
    var all := v + First4(hash(v));
    DecodedEncoding(all);
    assert all[..|all| - 4] == v && all[|all| - 4..] == First4(hash(v));
    DecodedText(s);
    if AllDigits(s) && Payload(hash, Decoded(s).value) == Some(v) {
      var vch := Decoded(s).value;
      assert vch == vch[..|vch| - 4] + vch[|vch| - 4..];
    }
  }

  /** Encoding and decoding in sequence. */
  method SendAndReceive(hash: seq<Byte> -> nat, v: seq<Byte>) returns (r: Option<seq<Byte>>)
    ensures r == Some(v)
  {
    var s := EncodeBase58Check(hash, v);
    CheckRoundTrip(hash, v, s);
    r := DecodeBase58Check(hash, s);
  }
}
