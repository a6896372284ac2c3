/**
 The timestamp rule: a block must be later than its parent's past time limit, which is a
 sliding median of the last eleven times at first and the parent's own time later on.
 */
module MedianTime {
  import opened Ordering

  const MEDIAN_TIME_SPAN := 11
  const LAST_MEDIAN_HEIGHT := 203500

  predicate IsProtocolV2(nHeight: nat) {
    nHeight > LAST_MEDIAN_HEIGHT
  }

  function FutureDrift(nTime: int, nHeight: nat): int {
    if IsProtocolV2(nHeight) then nTime + 15 else nTime + 10 * 60
  }

  predicate AtMost(a: int, b: int) {
    a <= b
  }

  lemma AtMostIsTotal()
    ensures TotalOrder(AtMost)
  {
  }

  /** The times of the block at `height` and up to ten before it. */
  function Window(times: seq<int>, height: nat): (w: seq<int>)
    requires height < |times|
    ensures 1 <= |w| <= MEDIAN_TIME_SPAN
  {
    times[(if height + 1 > MEDIAN_TIME_SPAN then height + 1 - MEDIAN_TIME_SPAN else 0)..height + 1]
  }

  function Median(w: seq<int>): int
    requires w != []
  {
    AtMostIsTotal();
    SortBy(w, AtMost)[|w| / 2]
  }

  function PastTimeLimit(times: seq<int>, height: nat): int
    requires height < |times|
  {
    if IsProtocolV2(height) then times[height] else Median(Window(times, height))
  }

  // ---------- the operations ----------

  method GetMedianTimePast(times: seq<int>, height: nat) returns (r: int)
    requires height < |times|
    ensures r == Median(Window(times, height))
  {
    var pmedian := new int[MEDIAN_TIME_SPAN];
    var begin, index := MEDIAN_TIME_SPAN, height as int;
    for i := 0 to MEDIAN_TIME_SPAN
      invariant begin == MEDIAN_TIME_SPAN - i && index == height - i >= -1
      invariant pmedian[begin..] == times[index + 1..height + 1]
    {
      if index < 0 {
        break;
      }
      begin := begin - 1;
      pmedian[begin] := times[index];
      assert pmedian[begin..] == [times[index]] + pmedian[begin + 1..];
      index := index - 1;
    }
    AtMostIsTotal();
    var sorted := SortBy(pmedian[begin..], AtMost);
    r := sorted[|sorted| / 2];
  }

  method GetPastTimeLimit(times: seq<int>, height: nat) returns (r: int)
    requires height < |times|
    ensures r == PastTimeLimit(times, height)
  {
    if IsProtocolV2(height) {
      r := times[height];
    } else {
      r := GetMedianTimePast(times, height);
    }
  }

  /** The test that a new block's time passes on top of its parent. */
  predicate TimeAccepted(times: seq<int>, height: nat)
    requires 0 < height < |times|
  {
    times[height] > PastTimeLimit(times, height - 1) && FutureDrift(times[height], height) >= times[height - 1]
  }

  /** A time is accepted if it is above the limit at the block below, and not over ten minutes, or 15 seconds above
      height 203500, before the block below. */
  lemma AcceptedMeans(times: seq<int>, height: nat)
    requires 0 < height < |times|
    ensures TimeAccepted(times, height) <==>
              && times[height] > PastTimeLimit(times, height - 1)
              && times[height] + (if height > 203500 then 15 else 600) >= times[height - 1]
  {
  }

  ghost predicate AllAccepted(times: seq<int>) {
    forall h :: 0 < h < |times| ==> TimeAccepted(times, h)
  }

  /** The median is one of the times. */
  lemma MedianIsMember(w: seq<int>)
    requires w != []
    ensures Median(w) in w
  {
    AtMostIsTotal();
    var sorted := SortBy(w, AtMost);
    assert sorted[|w| / 2] in multiset(sorted);
  }

  /** A block later than all blocks before it passes the test. */
  lemma LaterPasses(times: seq<int>, height: nat)
    requires 0 < height < |times| && forall i :: 0 <= i < height ==> times[i] < times[height]
    ensures TimeAccepted(times, height)
  {
    hide Median;
    var w := Window(times, height - 1);
    MedianIsMember(w);
    var i :| 0 <= i < |w| && w[i] == Median(w);
  }

  // ---------- the limit never decreases ----------

  /** How many elements are below `m`. */
  function Below(s: seq<int>, m: int): (n: nat)
    ensures n <= |s|
  {
    if s == [] then 0 else Below(s[1..], m) + if s[0] < m then 1 else 0
  }

  lemma {:induction false} BelowAppend(a: seq<int>, b: seq<int>, m: int)
    ensures Below(a + b, m) == Below(a, m) + Below(b, m)
  {
    if a == [] {
      assert a + b == b;
    } else {
      BelowAppend(a[1..], b, m);
      assert (a + b)[1..] == a[1..] + b;
    }
  }

  lemma {:induction false} BelowInsert(x: int, s: seq<int>, m: int)
    requires TotalOrder(AtMost) && SortedBy(s, AtMost)
    ensures Below(InsertBy(x, s, AtMost), m) == Below(s, m) + if x < m then 1 else 0
  {
    if s == [] || AtMost(x, s[0]) {
      assert ([x] + s)[1..] == s;
      assert InsertBy(x, s, AtMost) == [x] + s;
    } else {
      BelowInsert(x, s[1..], m);
      var rest := InsertBy(x, s[1..], AtMost);
      assert ([s[0]] + rest)[1..] == rest;
      assert InsertBy(x, s, AtMost) == [s[0]] + rest;
    }
  }

  lemma {:induction false} BelowSort(s: seq<int>, m: int)
    requires TotalOrder(AtMost)
    ensures Below(SortBy(s, AtMost), m) == Below(s, m)
  {
    if s != [] {
      BelowSort(s[1..], m);
      BelowInsert(s[0], SortBy(s[1..], AtMost), m);
    }
  }

  /** In a sorted sequence the element at `j` is at least `m` exactly if at most `j` elements are below `m`. */
  lemma {:induction false} SortedBelow(s: seq<int>, m: int, j: nat)
    requires SortedBy(s, AtMost) && j < |s|
    ensures s[j] >= m <==> Below(s, m) <= j
  {
    if s[0] < m {
      if j > 0 {
        SortedBelow(s[1..], m, j - 1);
      }
    } else {
      NoneBelow(s, m);
      assert j > 0 ==> AtMost(s[0], s[j]);
    }
  }

  lemma {:induction false} NoneBelow(s: seq<int>, m: int)
    requires forall i :: 0 <= i < |s| ==> s[i] >= m
    ensures Below(s, m) == 0
  {
    if s != [] {
      NoneBelow(s[1..], m);
    }
  }

  /** The median is at least `m` exactly if at most half of the window is below `m`. */
  lemma MedianAtLeast(w: seq<int>, m: int)
    requires w != []
    ensures Median(w) >= m <==> Below(w, m) <= |w| / 2
  {
    AtMostIsTotal();
    BelowSort(w, m);
    SortedBelow(SortBy(w, AtMost), m, |w| / 2);
  }

  /** A window that slides over a later time keeps its median or raises it. */
  lemma MedianSlides(times: seq<int>, height: nat)
    requires height + 1 < |times| && times[height + 1] > Median(Window(times, height))
    ensures Median(Window(times, height + 1)) >= Median(Window(times, height))
  {
    hide Median, Below, Window;
    var w, w', x := Window(times, height), Window(times, height + 1), times[height + 1];
    var m := Median(w);
    MedianAtLeast(w, m);
    MedianAtLeast(w', m);
    WindowSlides(times, height);
    NoneBelow([x], m);
    BelowTail(w, m);
    BelowAppend(w, [x], m);
    BelowAppend(w[1..], [x], m);
  }

  lemma WindowSlides(times: seq<int>, height: nat)
    requires height + 1 < |times|
    ensures var w := Window(times, height);
            Window(times, height + 1) == (if |w| < MEDIAN_TIME_SPAN then w else w[1..]) + [times[height + 1]]
  {
  }

  lemma BelowTail(w: seq<int>, m: int)
    requires w != []
    ensures Below(w[1..], m) <= Below(w, m)
  {
  }

  /** On a chain of accepted blocks the past time limit never decreases from parent to child. */
  lemma LimitStep(times: seq<int>, height: nat)
    requires height + 1 < |times| && TimeAccepted(times, height + 1)
    ensures PastTimeLimit(times, height + 1) >= PastTimeLimit(times, height)
  {
    if !IsProtocolV2(height + 1) {
      hide Median;
      MedianSlides(times, height);
    }
  }

  /** Hence it never decreases along the chain, and every block is later than the limits of all its ancestors. */
  lemma {:induction false} LimitNeverDecreases(times: seq<int>, a: nat, b: nat)
    requires AllAccepted(times) && a <= b < |times|
    ensures PastTimeLimit(times, a) <= PastTimeLimit(times, b)
    ensures a < b ==> times[b] > PastTimeLimit(times, a)
    decreases b
  {
    hide PastTimeLimit;
    if a < b {
      LimitNeverDecreases(times, a, b - 1);
      assert TimeAccepted(times, b);
      LimitStep(times, b - 1);
    }
  }
}
