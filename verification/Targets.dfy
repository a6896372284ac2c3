/**
 Compact targets, the three retargeting rules of the main network, and block trust.
 */
module Targets {
  import opened Mpi
  import opened Numbers

  const TARGET_LIMIT := 0xFFFFFFFFFFFFFFFFFFFFFFFFFFFFFFFFFFFFFFFFFFFFFFFFFFFFFFFFFFF
  const TWO256 := 0x10000000000000000000000000000000000000000000000000000000000000000

  const TARGET_TIMESPAN := 16 * 60
  const TARGET_SPACING := 5
  const TARGET_STAKE_SPACING := 60
  const DISTRIBUTION_END := 10000
  const PROTOCOL_V2_HEIGHT := 203500

  type Compact = n: nat | n < 0x1_0000_0000

  /** Expands a compact target: a size byte and up to three leading bytes, then zeros. */
  function SetCompact(c: Compact): int {
    var size := c / 0x100_0000;
    FromMpi(seq(size, i requires 0 <= i < size =>
      if i == 0 then c / 0x1_0000 % 256 else if i == 1 then c / 0x100 % 256 else if i == 2 then c % 256 else 0))
  }

  function ByteAt(bytes: seq<Byte>, i: nat): Byte {
    if i < |bytes| then bytes[i] else 0
  }

  /** Keeps the size and the three leading bytes; the size is shifted in an unsigned 32-bit word. */
  function GetCompact(n: int): Compact {
    var bytes := ToMpi(n);
    |bytes| % 256 * 0x100_0000 + ByteAt(bytes, 0) * 0x1_0000 + ByteAt(bytes, 1) * 0x100 + ByteAt(bytes, 2)
  }

  // ---------- compact encoding only rounds down ----------

  /** The bytes that survive compact encoding: the first three, then zeros. */
  function Leading(bytes: seq<Byte>): (kept: seq<Byte>)
    ensures |kept| == |bytes|
  {
    seq(|bytes|, i requires 0 <= i < |bytes| => if i < 3 then bytes[i] else 0)
  }

  lemma CompactFields(size: nat, b0: Byte, b1: Byte, b2: Byte)
    requires size < 256
    ensures var c := size % 256 * 0x100_0000 + b0 * 0x1_0000 + b1 * 0x100 + b2;
            c / 0x100_0000 == size && c / 0x1_0000 % 256 == b0 && c / 0x100 % 256 == b1 && c % 256 == b2
  {
    var c := size % 256 * 0x100_0000 + b0 * 0x1_0000 + b1 * 0x100 + b2;
    assert c / 0x1_0000 == size * 256 + b0;
    assert c / 0x100 == (size * 256 + b0) * 256 + b1;
  }

  lemma CompactKeepsLeading(n: nat)
    requires |ToMpi(n)| < 256
    ensures SetCompact(GetCompact(n)) == FromMpi(Leading(ToMpi(n)))
  {
    hide FromMpi, ToMpi;
    var bytes, c := ToMpi(n), GetCompact(n);
    CompactFields(|bytes|, ByteAt(bytes, 0), ByteAt(bytes, 1), ByteAt(bytes, 2));
    var size := c / 0x100_0000;
    var expanded: seq<Byte> := seq(size, i requires 0 <= i < size =>
      if i == 0 then c / 0x1_0000 % 256 else if i == 1 then c / 0x100 % 256 else if i == 2 then c % 256 else 0);
    assert expanded == Leading(bytes);
  }

  lemma {:induction false} ZerosAreZero(k: nat)
    ensures ToNat(seq(k, _ => 0)) == 0
  {
    if k != 0 {
      ZerosAreZero(k - 1);
      var zeros: seq<Byte> := seq(k, _ => 0);
      var fewer: seq<Byte> := seq(k - 1, _ => 0);
      assert zeros[..k - 1] == fewer;
    }
  }

  /** Cutting a number to its first three bytes loses less than the place value of the third. */
  lemma LeadingLoss(bytes: seq<Byte>)
    requires |bytes| >= 3
    ensures ToNat(Leading(bytes)) <= ToNat(bytes) < ToNat(Leading(bytes)) + Pow256(|bytes| - 3)
  {
    hide ToNat, Pow256;
    var head, tail := bytes[..3], bytes[3..];
    var zeros: seq<Byte> := seq(|tail|, _ => 0);
    assert bytes == head + tail && Leading(bytes) == head + zeros;
    ToNatAppend(head, tail);
    ToNatAppend(head, zeros);
    ZerosAreZero(|tail|);
    ToNatBound(tail);
  }

  lemma AtLeast(x: nat, y: nat, q: nat)
    requires x >= y
    ensures x * q >= y * q
  {
    assert x * q == y * q + (x - y) * q;
  }

  lemma LeadingWeight(b0: nat, b1: nat, p: nat)
    requires b0 > 0 || b1 >= 128
    ensures b0 * (256 * (256 * p)) + b1 * (256 * p) >= 0x8000 * p
  {
    AtLeast(b0, if b0 > 0 then 1 else 0, 256 * (256 * p));
    AtLeast(b1, if b0 > 0 then 0 else 128, 256 * p);
  }

  /** A positive number is at least 2^15 times the place value of its third signed byte. */
  lemma MpiSize(n: nat)
    requires n > 0
    ensures var bytes := ToMpi(n);
      && bytes != [] && bytes[0] < 128 && ToNat(bytes) == n
      && (|bytes| >= 3 ==> n >= 0x8000 * Pow256(|bytes| - 3))
  {
    hide ToNat, ToMpi;
    var bytes := ToMpi(n);
    PositiveMpi(n);
    if |bytes| >= 3 {
      SplitFirst(bytes);
      SplitFirst(bytes[1..]);
      var p := Pow256(|bytes| - 3);
      assert Pow256(|bytes| - 2) == 256 * p && Pow256(|bytes| - 1) == 256 * (256 * p);
      LeadingWeight(bytes[0], bytes[1], p);
    }
  }

  /** A compact target with a size byte of at least three and the sign bit clear: its lower three bytes, shifted. */
  lemma CompactValue(size: nat, b0: Byte, b1: Byte, b2: Byte)
    requires 3 <= size < 256 && b0 < 128
    ensures SetCompact(size % 256 * 0x100_0000 + b0 * 0x1_0000 + b1 * 0x100 + b2)
            == (b0 * 0x1_0000 + b1 * 0x100 + b2) * Pow256(size - 3)
  {
    hide ToNat, Pow256;
    var c := size % 256 * 0x100_0000 + b0 * 0x1_0000 + b1 * 0x100 + b2;
    CompactFields(size, b0, b1, b2);
    var expanded: seq<Byte> := seq(size, i requires 0 <= i < size =>
      if i == 0 then c / 0x1_0000 % 256 else if i == 1 then c / 0x100 % 256 else if i == 2 then c % 256 else 0);
    var head: seq<Byte> := [b0, b1, b2];
    var zeros: seq<Byte> := seq(size - 3, _ => 0);
    assert expanded == head + zeros;
    assert [expanded[0] % 128] + expanded[1..] == expanded;
    ToNatAppend(head, zeros);
    ZerosAreZero(size - 3);
    ThreeBytes(b0, b1, b2);
  }

  lemma ThreeBytes(b0: Byte, b1: Byte, b2: Byte)
    ensures ToNat([b0, b1, b2]) == b0 * 0x1_0000 + b1 * 0x100 + b2
  {
    var w: seq<Byte> := [b0, b1, b2];
    assert w[..2] == [b0, b1] && w[..2][..1] == [b0];
    ToNatOne(b0);
    var n: nat := b0;
    assert ToNat(w[..2]) == n * 256 + b1;
    assert ToNat(w) == (n * 256 + b1) * 256 + b2;
  }

  lemma ShortIsExact(bytes: seq<Byte>)
    requires |bytes| < 3
    ensures Leading(bytes) == bytes
  {
  }

  lemma LeadingIsPositive(bytes: seq<Byte>)
    requires bytes != [] && bytes[0] < 128
    ensures FromMpi(Leading(bytes)) == ToNat(Leading(bytes))
  {
    var kept := Leading(bytes);
    assert [kept[0] % 128] + kept[1..] == kept;
  }

  /** Compact encoding of a target keeps it positive, never raises it, and loses less than one part in 2^15. */
  lemma CompactRoundsDown(n: nat)
    requires n > 0 && |ToMpi(n)| < 256
    ensures var d := SetCompact(GetCompact(n)); 0 < d <= n && (n - d) * 0x8000 < n
  {
    hide ToMpi, FromMpi, ToNat, Pow256, GetCompact, SetCompact, Leading;
    var bytes := ToMpi(n);
    CompactKeepsLeading(n);
    MpiSize(n);
    LeadingIsPositive(bytes);
    if |bytes| < 3 {
      ShortIsExact(bytes);
    } else {
      LeadingLoss(bytes);
    }
  }

  lemma {:induction false} ToBytesLength(n: nat, k: nat)
    requires n < Pow256(k)
    ensures |ToBytes(n)| <= k
  {
    if n != 0 {
      assert n / 256 < Pow256(k - 1);
      ToBytesLength(n / 256, k - 1);
    }
  }

  lemma LimitFits()
    ensures TARGET_LIMIT < Pow256(32) == TWO256
  {
    assert Pow256(4) == 0x1_0000_0000;
    assert Pow256(8) == Pow256(4) * 0x1_0000_0000;
    assert Pow256(12) == Pow256(8) * 0x1_0000_0000;
    assert Pow256(16) == Pow256(12) * 0x1_0000_0000;
    assert Pow256(20) == Pow256(16) * 0x1_0000_0000;
    assert Pow256(24) == Pow256(20) * 0x1_0000_0000;
    assert Pow256(28) == Pow256(24) * 0x1_0000_0000;
    assert Pow256(32) == Pow256(28) * 0x1_0000_0000;
  }

  // ---------- retargeting ----------

  /** What retargeting reads of a block; a chain starts with genesis at position 0. */
  datatype Header = Header(nTime: nat, nBits: Compact, stake: bool)

  /** Division of the source language: the quotient is cut towards zero. */
  function Quotient(a: int, b: int): int
    requires b != 0
  {
    var q := (if a < 0 then -a else a) / (if b < 0 then -b else b);
    if (a < 0) == (b < 0) then q else -q
  }

  /** Positions after genesis, up to `i` and going back, of the blocks of one kind. */
  function SameKind(chain: seq<Header>, i: nat, stake: bool): (list: seq<nat>)
    requires i < |chain|
    ensures forall j :: 0 <= j < |list| ==> 0 < list[j] <= i && chain[list[j]].stake == stake
    ensures forall j :: 0 < j < |list| ==> list[j] < list[j - 1]
  {
    if i == 0 then []
    else if chain[i].stake == stake then [i] + SameKind(chain, i - 1, stake)
    else SameKind(chain, i - 1, stake)
  }

  /** All of them are listed. */
  lemma {:induction false} SameKindComplete(chain: seq<Header>, i: nat, stake: bool, k: nat)
    requires i < |chain| && 0 < k <= i
    ensures k in SameKind(chain, i, stake) <==> chain[k].stake == stake
  {
    if k == i {
      assert chain[i].stake == stake ==> SameKind(chain, i, stake)[0] == i;
    } else {
      SameKindComplete(chain, i - 1, stake, k);
    }
  }

  function HeadOrGenesis(list: seq<nat>): nat {
    if list == [] then 0 else list[0]
  }

  method GetLastBlockIndex(chain: seq<Header>, from: nat, stake: bool) returns (i: nat)
    requires from < |chain|
    ensures i <= from && i == HeadOrGenesis(SameKind(chain, from, stake))
    ensures SameKind(chain, i, stake) == SameKind(chain, from, stake)
  {
    i := from;
    while i > 0 && chain[i].stake != stake
      invariant i <= from && SameKind(chain, i, stake) == SameKind(chain, from, stake)
    {
      i := i - 1;
    }
  }

  /** Moves a target towards the wanted spacing, inside the limit, and encodes it. */
  function Retarget(bits: Compact, interval: int, spacing: int, actual: int): Compact
    requires interval > 0 && spacing > 0
  {
    var divisor := (interval + 1) * spacing;
    assert divisor >= spacing;
    var next := Quotient(SetCompact(bits) * ((interval - 1) * spacing + 2 * actual), divisor);
    GetCompact(if next <= 0 || next > TARGET_LIMIT then TARGET_LIMIT else next)
  }

  /** The first two rules look at the last two blocks of the kind. */
  function RequiredByPair(chain: seq<Header>, last: nat, stake: bool, spacing: int): Compact
    requires last < |chain| && 0 < spacing <= TARGET_TIMESPAN
  {
    var list := SameKind(chain, last, stake);
    if |list| < 2 then GetCompact(TARGET_LIMIT)
    else
      var actual := chain[list[0]].nTime - chain[list[1]].nTime;
      Retarget(chain[list[0]].nBits, TARGET_TIMESPAN / spacing, spacing, if actual < 0 then spacing else actual)
  }

  const WINDOW := TARGET_TIMESPAN / TARGET_STAKE_SPACING * 4

  /** The third rule averages over up to 64 blocks of the kind; a window that reaches back to genesis counts one gap
      less. */
  function RequiredByWindow(chain: seq<Header>, last: nat, stake: bool): Compact
    requires last < |chain|
  {
    var list := SameKind(chain, last, stake);
    var seen := Min(|list|, WINDOW);
    var count := seen - 1 - (if |list| <= WINDOW then 1 else 0);
    if count < 1 then GetCompact(TARGET_LIMIT)
    else
      var actual := Quotient(chain[list[0]].nTime - chain[list[seen - 1]].nTime, count);
      Retarget(chain[list[0]].nBits, WINDOW, TARGET_STAKE_SPACING, if actual < 0 then TARGET_STAKE_SPACING else actual)
  }

  function NextTargetRequired(chain: seq<Header>, last: nat, stake: bool): Compact
    requires last < |chain|
  {
    if last < DISTRIBUTION_END then RequiredByPair(chain, last, stake, TARGET_SPACING)
    else if last <= PROTOCOL_V2_HEIGHT then RequiredByPair(chain, last, stake, TARGET_STAKE_SPACING)
    else RequiredByWindow(chain, last, stake)
  }

  method GetNextTargetRequiredByPair(chain: seq<Header>, last: nat, stake: bool, spacing: int) returns (bits: Compact)
    requires last < |chain| && 0 < spacing <= TARGET_TIMESPAN
    ensures bits == RequiredByPair(chain, last, stake, spacing)
  {
    hide Retarget, GetCompact, SameKind, Quotient, SetCompact;
    var prev := GetLastBlockIndex(chain, last, stake);
    if prev == 0 {
      return GetCompact(TARGET_LIMIT);
    }
    KindStep(chain, prev, stake);
    var prevPrev := GetLastBlockIndex(chain, prev - 1, stake);
    if prevPrev == 0 {
      return GetCompact(TARGET_LIMIT);
    }
    var actual := chain[prev].nTime - chain[prevPrev].nTime;
    if actual < 0 {
      actual := spacing;
    }
    bits := Retarget(chain[prev].nBits, TARGET_TIMESPAN / spacing, spacing, actual);
  }

  lemma KindStep(chain: seq<Header>, i: nat, stake: bool)
    requires 0 < i < |chain| && i == HeadOrGenesis(SameKind(chain, i, stake))
    ensures SameKind(chain, i, stake) == [i] + SameKind(chain, i - 1, stake)
  {
  }

  lemma WindowStep(chain: seq<Header>, list: seq<nat>, count: nat, p: nat, stake: bool)
    requires p < |chain| && count <= |list| && SameKind(chain, p, stake) == list[count..]
    requires p == HeadOrGenesis(list[count..]) && p != 0
    ensures count < |list| && list[count] == p && SameKind(chain, p - 1, stake) == list[count + 1..]
  {
    assert list[count..] == [p] + list[count + 1..];
  }

  /** The walk back over the window: the last block it visits, how many it visited, and where it stopped. */
  method WalkWindow(chain: seq<Header>, prev: nat, stake: bool) returns (prevPrev: nat, count: nat, p: nat)
    requires prev < |chain| && prev == HeadOrGenesis(SameKind(chain, prev, stake))
    ensures var list := SameKind(chain, prev, stake);
      && count == Min(|list|, WINDOW) && (p == 0 <==> |list| <= WINDOW)
      && prevPrev < |chain| && (count > 0 ==> prevPrev == list[count - 1])
  {
    hide SameKind;
    ghost var list := SameKind(chain, prev, stake);
    p, prevPrev, count := prev, 0, 0;
    while p != 0 && count < WINDOW
      invariant p < |chain| && prevPrev < |chain| && count <= WINDOW && count <= |list|
      invariant SameKind(chain, p, stake) == list[count..] && p == HeadOrGenesis(list[count..])
      invariant count > 0 ==> prevPrev == list[count - 1]
      decreases WINDOW - count
    {
      WindowStep(chain, list, count, p, stake);
      prevPrev := p;
      count := count + 1;
      p := GetLastBlockIndex(chain, p - 1, stake);
      p := GetLastBlockIndex(chain, p, stake);
    }
  }

  /** The third rule stays inside the chain and divides by a positive count. */
  method GetNextTargetRequiredByWindow(chain: seq<Header>, last: nat, stake: bool) returns (bits: Compact)
    requires last < |chain|
    ensures bits == RequiredByWindow(chain, last, stake)
  {
    hide Retarget, GetCompact, Quotient, SameKind;
    var prev := GetLastBlockIndex(chain, last, stake);
    var prevPrev, visited, p := WalkWindow(chain, prev, stake);
    var count: int := visited;
    if p == 0 {
      count := count - 1;
    }
    count := count - 1;
    if count < 1 {
      return GetCompact(TARGET_LIMIT);
    }
    var actual := Quotient(chain[prev].nTime - chain[prevPrev].nTime, count);
    if actual < 0 {
      actual := TARGET_STAKE_SPACING;
    }
    bits := Retarget(chain[prev].nBits, WINDOW, TARGET_STAKE_SPACING, actual);
  }

  /** The rule in force at the height of the last block. */
  method GetNextTargetRequired(chain: seq<Header>, last: nat, stake: bool) returns (bits: Compact)
    requires last < |chain|
    ensures bits == NextTargetRequired(chain, last, stake)
  {
    hide RequiredByPair, RequiredByWindow;
    if last < DISTRIBUTION_END {
      bits := GetNextTargetRequiredByPair(chain, last, stake, TARGET_SPACING);
    } else if last <= PROTOCOL_V2_HEIGHT {
      bits := GetNextTargetRequiredByPair(chain, last, stake, TARGET_STAKE_SPACING);
    } else {
      bits := GetNextTargetRequiredByWindow(chain, last, stake);
    }
  }

  /** The first two rules: with two blocks of the kind, the last one's target is adjusted to the time between them,
      which counts as on schedule if it is negative. */
  lemma PairMeans(chain: seq<Header>, last: nat, stake: bool, spacing: int, i: nat, j: nat)
    requires last < |chain| && 0 < spacing <= TARGET_TIMESPAN
    requires 0 < j < i <= last && chain[i].stake == stake && chain[j].stake == stake
    requires forall k :: j < k <= last && k != i ==> chain[k].stake != stake
    ensures var took := chain[i].nTime - chain[j].nTime;
            RequiredByPair(chain, last, stake, spacing)
            == Retarget(chain[i].nBits, 960 / spacing, spacing, if took < 0 then spacing else took)
  {
    hide Retarget, GetCompact;
    KindFrom(chain, last, stake, i);
    KindStep(chain, i, stake);
    KindFrom(chain, i - 1, stake, j);
    KindStep(chain, j, stake);
  }

  lemma {:induction false} KindFrom(chain: seq<Header>, last: nat, stake: bool, i: nat)
    requires i <= last < |chain| && forall k :: i < k <= last ==> chain[k].stake != stake
    ensures SameKind(chain, last, stake) == SameKind(chain, i, stake)
  {
    if i < last {
      KindFrom(chain, last - 1, stake, i);
    }
  }

  /** The third rule: with over 64 blocks of the kind the average of the last 63 gaps counts; with fewer the time since
      the first one divided by two less than their number; and up to two give the limit. */
  lemma WindowMeans(chain: seq<Header>, last: nat, stake: bool)
    requires last < |chain|
    ensures var list := SameKind(chain, last, stake);
            && (|list| <= 2 ==> RequiredByWindow(chain, last, stake) == GetCompact(TARGET_LIMIT))
            && (|list| > 2 ==>
                  var gaps := if |list| > 64 then 63 else |list| - 2;
                  var took := Quotient(chain[list[0]].nTime - chain[list[if |list| > 64 then 63 else |list| - 1]].nTime,
                      gaps);
                  RequiredByWindow(chain, last, stake)
                  == Retarget(chain[list[0]].nBits, 64, 60, if took < 0 then 60 else took))
  {
    hide Retarget, GetCompact, SameKind, Quotient;
  }

  // ---------- every required target is usable ----------

  ghost predicate Usable(bits: Compact) {
    0 < SetCompact(bits) <= TARGET_LIMIT
  }

  lemma EncodedIsUsable(target: int)
    requires 0 < target <= TARGET_LIMIT
    ensures Usable(GetCompact(target))
  {
    LimitFits();
    ToBytesLength(target, 32);
    CompactRoundsDown(target);
  }

  /** Whatever the chain, the required bits decode to a positive target within the limit. */
  lemma RequiredIsUsable(chain: seq<Header>, last: nat, stake: bool)
    requires last < |chain|
    ensures Usable(NextTargetRequired(chain, last, stake))
  {
    hide Usable, GetCompact, SetCompact;
    forall target | 0 < target <= TARGET_LIMIT ensures Usable(GetCompact(target)) {
      EncodedIsUsable(target);
    }
  }

  // ---------- where retargeting goes ----------

  /**
   The new target is the old one weighted by (interval - 1) blocks on schedule and two that took as long as the last one
   did: never above that average, less than one part in 2^15 and one unit below it, and not above the limit.
   An average below one or above the limit gives the limit.
   */
  lemma RetargetAverage(bits: Compact, interval: int, spacing: int, actual: int)
    requires Usable(bits) && interval > 0 && spacing > 0 && actual >= 0
    ensures var old', new' := SetCompact(bits), SetCompact(Retarget(bits, interval, spacing, actual));
            var weighted, whole := old' * ((interval - 1) * spacing + 2 * actual), (interval + 1) * spacing;
            && whole > 0 && 0 < new' <= TARGET_LIMIT
            && (whole <= weighted < whole * (TARGET_LIMIT + 1) ==>
                  new' * whole <= weighted && weighted * 0x7FFF < (new' + 1) * whole * 0x8000)
            && (weighted < whole || weighted >= whole * (TARGET_LIMIT + 1) ==>
                  new' == SetCompact(GetCompact(TARGET_LIMIT)))
  {
    hide SetCompact, GetCompact, Quotient;
    var old', whole := SetCompact(bits), (interval + 1) * spacing;
    var weights := (interval - 1) * spacing + 2 * actual;
    Scaled(1, interval, spacing);
    Scaled(1, interval + 1, spacing);
    Scaled(0, weights, old');
    EncodedAverage(old' * weights, whole);
  }

  /** What encoding a quotient inside the limit gives. */
  lemma EncodedAverage(weighted: int, whole: int)
    requires weighted >= 0 && whole > 0
    ensures var next := Quotient(weighted, whole);
            var new' := SetCompact(GetCompact(if next <= 0 || next > TARGET_LIMIT then TARGET_LIMIT else next));
            && 0 < new' <= TARGET_LIMIT
            && (whole <= weighted < whole * (TARGET_LIMIT + 1) ==>
                  new' * whole <= weighted && weighted * 0x7FFF < (new' + 1) * whole * 0x8000)
            && (weighted < whole || weighted >= whole * (TARGET_LIMIT + 1) ==>
                  new' == SetCompact(GetCompact(TARGET_LIMIT)))
  {
    hide SetCompact, GetCompact, Quotient;
    var next := Quotient(weighted, whole);
    CutQuotient(weighted, whole, TARGET_LIMIT);
    var target := if next <= 0 || next > TARGET_LIMIT then TARGET_LIMIT else next;
    LimitFits();
    ToBytesLength(target, 32);
    MpiLength(target);
    CompactRoundsDown(target);
    if whole <= weighted < whole * (TARGET_LIMIT + 1) {
      Average(weighted, whole, next, SetCompact(GetCompact(next)));
    }
  }

  lemma MpiLength(n: int)
    requires 0 < n && |ToBytes(n)| <= 32
    ensures |ToMpi(n)| < 256
  {
  }

  /** Cutting a quotient of numbers that are not negative is rounding it down. */
  lemma CutQuotient(a: nat, b: nat, limit: nat)
    requires b > 0
    ensures var q := Quotient(a, b);
            q * b <= a < (q + 1) * b && (a < b <==> q == 0) && (a < b * (limit + 1) <==> q <= limit) && q >= 0
  {
    var q := a / b;
    assert a == b * q + a % b;
    QuotientBelow(a, b, q, 0);
    QuotientBelow(a, b, q, limit);
  }

  lemma QuotientBelow(a: nat, b: nat, q: nat, limit: nat)
    requires b > 0 && b * q <= a < b * q + b
    ensures a < b * (limit + 1) <==> q <= limit
  {
    if q <= limit {
      AtLeast(limit, q, b);
    } else {
      AtLeast(q, limit + 1, b);
    }
  }

  lemma Average(weighted: int, whole: int, next: int, new': int)
    requires whole > 0 && next * whole <= weighted < (next + 1) * whole
    requires 0 < new' <= next && (next - new') * 0x8000 < next
    ensures new' * whole <= weighted && weighted * 0x7FFF < (new' + 1) * whole * 0x8000
  {
    Scaled(new', next, whole);
    Scaled((next + 1) * 0x7FFF, (new' + 1) * 0x8000, whole);
    assert (next + 1) * 0x7FFF * whole == (next + 1) * whole * 0x7FFF;
    assert (new' + 1) * 0x8000 * whole == (new' + 1) * whole * 0x8000;
  }

  /** A block that took no longer than it should does not raise the target, unless the average is below one, which
      gives the limit; and one that took no less lowers it by rounding alone. */
  lemma RetargetDirection(bits: Compact, interval: int, spacing: int, actual: int)
    requires Usable(bits) && interval > 0 && spacing > 0 && actual >= 0
    ensures var old', new' := SetCompact(bits), SetCompact(Retarget(bits, interval, spacing, actual));
            && (actual <= spacing && old' * ((interval - 1) * spacing + 2 * actual) >= (interval + 1) * spacing ==>
                  new' <= old')
            && (actual >= spacing ==> old' * 0x7FFF < (new' + 1) * 0x8000)
  {
    hide SetCompact, GetCompact, Retarget;
    RetargetAverage(bits, interval, spacing, actual);
    var old', new' := SetCompact(bits), SetCompact(Retarget(bits, interval, spacing, actual));
    var weights, whole := (interval - 1) * spacing + 2 * actual, (interval + 1) * spacing;
    assert weights - whole == 2 * (actual - spacing);
    Scaled(1, interval + 1, spacing);
    if actual <= spacing && old' * weights >= whole {
      Scaled(weights, whole, old');
      Scaled(old', TARGET_LIMIT, whole);
      Faster(old', new', weights, whole);
    }
    if actual >= spacing {
      Scaled(whole, weights, old');
      Scaled(1, old', whole);
      if old' * weights < whole * (TARGET_LIMIT + 1) {
        Slower(old', new', weights, whole);
      }
      LimitFits();
      ToBytesLength(TARGET_LIMIT, 32);
      MpiLength(TARGET_LIMIT);
      CompactRoundsDown(TARGET_LIMIT);
    }
  }

  lemma Slower(old': int, new': int, weights: int, whole: int)
    requires 0 < whole <= weights && 0 < old' && 0 < new'
    requires old' * weights * 0x7FFF < (new' + 1) * whole * 0x8000
    ensures old' * 0x7FFF < (new' + 1) * 0x8000
  {
    Scaled(whole, weights, old');
    var x, y := old' * 0x7FFF, (new' + 1) * 0x8000;
    assert x * whole == old' * whole * 0x7FFF;
    assert y * whole == (new' + 1) * whole * 0x8000;
    Unscaled(x, y, whole);
  }

  lemma Faster(old': int, new': int, weights: int, whole: int)
    requires weights <= whole && 0 < whole && 0 < old' && new' * whole <= old' * weights
    ensures new' <= old'
  {
    Scaled(weights, whole, old');
    Unscaled(new', old' + 1, whole);
  }

  lemma Unscaled(x: int, y: int, q: int)
    requires q > 0 && x * q < y * q
    ensures x < y
  {
    if x >= y {
      Scaled(y, x, q);
    }
  }

  lemma Scaled(x: int, y: int, q: int)
    requires x <= y && q >= 0
    ensures x * q <= y * q && q * x <= q * y && (x + 1) * q == x * q + q
  {
    assert y * q == x * q + (y - x) * q;
  }

  // ---------- trust ----------

  /** Trust that a block adds: the expected number of hashes to meet its target. */
  function BlockTrust(bits: Compact): nat {
    var target := SetCompact(bits);
    if target <= 0 then 0 else TWO256 / (target + 1)
  }

  /** The trust is how often the target, and one more, fits into 2^256. */
  lemma TrustMeaning(bits: Compact)
    requires Usable(bits)
    ensures var target, trust := SetCompact(bits), BlockTrust(bits);
            trust * (target + 1) <= TWO256 < (trust + 1) * (target + 1)
  {
    hide SetCompact;
    var target, trust := SetCompact(bits), BlockTrust(bits);
    assert TWO256 == (target + 1) * trust + TWO256 % (target + 1);
  }

  /** Trust of the chain up to position `i`. */
  function ChainTrust(chain: seq<Header>, i: nat): nat
    requires i < |chain|
  {
    (if i == 0 then 0 else ChainTrust(chain, i - 1)) + BlockTrust(chain[i].nBits)
  }

  /** Every block after genesis carries the bits required after its parent. */
  ghost predicate BitsChecked(chain: seq<Header>) {
    forall i :: 0 < i < |chain| ==> chain[i].nBits == NextTargetRequired(chain[..i], i - 1, chain[i].stake)
  }

  lemma UsableTrust(bits: Compact)
    requires Usable(bits)
    ensures BlockTrust(bits) >= 0x10_0000
  {
    hide SetCompact;
    QuotientAtLeast(TWO256, SetCompact(bits) + 1, 0x10_0000);
  }

  lemma QuotientAtLeast(a: nat, b: nat, q: nat)
    requires 0 < b && b * q <= a
    ensures a / b >= q
  {
    var d := a / b;
    assert a == b * d + a % b;
    assert d < q ==> b * (d + 1) <= b * q;
  }

  /** On a chain that passes the bits check, trust grows by at least 2^20 with every block. */
  lemma TrustGrows(chain: seq<Header>, i: nat)
    requires BitsChecked(chain) && 0 < i < |chain|
    ensures Usable(chain[i].nBits)
    ensures ChainTrust(chain, i) >= ChainTrust(chain, i - 1) + 0x10_0000
  {
    RequiredIsUsable(chain[..i], i - 1, chain[i].stake);
    UsableTrust(chain[i].nBits);
  }
}
