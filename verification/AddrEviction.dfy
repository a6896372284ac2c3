/**
 Choosing the tried entry that makes room for another one. A few entries are shuffled to the front of
 their bucket, and the least recently successful one of these is meant to go; but the position returned
 is the one where it was found before it was moved, which names it only if it did not have to move.
 */
module AddrEviction {
  import opened AddrTables

  /** A run of selection: the draw of each round, the round of the least recently successful entry, the order of the
      bucket afterwards and the position returned. */
  datatype Pick = Pick(draws: seq<nat>, winner: nat, order: seq<nat>, pos: int)

  /** Round `i` draws from what is left of a bucket of `size` entries. */
  ghost predicate Drawn(size: nat, draws: seq<nat>) {
    |draws| <= size && forall i :: 0 <= i < |draws| ==> draws[i] < size - i
  }

  /** The bucket after the rounds: round `i` exchanges position `i` with the one `draws[i]` places further on. */
  ghost function Shuffled(v: seq<nat>, draws: seq<nat>): (s: seq<nat>)
    requires Drawn(|v|, draws)
    ensures |s| == |v|
  {
    if draws == [] then v
    else
      var i := |draws| - 1;
      Traded(Shuffled(v, draws[..i]), i, i + draws[i])
  }

  /** A bucket with two positions exchanged. */
  ghost function Traded(s: seq<nat>, i: nat, p: nat): (s': seq<nat>)
    requires i < |s| && p < |s|
    ensures |s'| == |s|
  {
    s[p := s[i]][i := s[p]]
  }

  lemma TradedMeans(s: seq<nat>, i: nat, p: nat)
    requires i < |s| && p < |s|
    ensures Traded(s, i, p) == s[p := s[i]][i := s[p]]
  {
  }

  lemma TradedMultiset(s: seq<nat>, i: nat, p: nat)
    requires i < |s| && p < |s|
    ensures multiset(Traded(s, i, p)) == multiset(s)
  {
    SwapMultiset(s, p, i);
  }

  /** The entry at position `w` is the first least recently successful one of the first `n`. */
  ghost predicate LeastOf(m: Infos, s: seq<nat>, n: nat, w: nat) {
    && w < n <= |s| && s[w] in m
    && forall i :: 0 <= i < n ==>
                     && s[i] in m && m[s[w]].nLastSuccess <= m[s[i]].nLastSuccess
                     && (i < w ==> m[s[w]].nLastSuccess < m[s[i]].nLastSuccess)
  }

  /** At most four entries are inspected; the position named is the one where the winner was before its exchange. */
  ghost predicate Selected(m: Infos, v: seq<nat>, pick: Pick) {
    && |pick.draws| == (if |v| < TRIED_ENTRIES_INSPECT_ON_EVICT then |v| else TRIED_ENTRIES_INSPECT_ON_EVICT)
    && Drawn(|v|, pick.draws) && pick.order == Shuffled(v, pick.draws)
    && LeastOf(m, pick.order, |pick.draws|, pick.winner)
    && pick.pos == pick.winner + pick.draws[pick.winner]
  }

  lemma NoDraws(v: seq<nat>)
    ensures Drawn(|v|, []) && Shuffled(v, []) == v
  {
  }

  lemma {:induction false} OneMoreDraw(v: seq<nat>, draws: seq<nat>, draw: nat)
    requires Drawn(|v|, draws) && |draws| + draw < |v|
    ensures Drawn(|v|, draws + [draw])
    ensures Shuffled(v, draws + [draw]) == Traded(Shuffled(v, draws), |draws|, |draws| + draw)
  {
    hide Traded;
    assert (draws + [draw])[..|draws|] == draws;
  }

  /** One more inspected entry is the least recently successful one exactly if it beats the one so far. */
  lemma OneMoreInspected(m: Infos, s: seq<nat>, i: nat, p: nat, w: nat)
    requires i <= p < |s| && s[p] in m && (i > 0 ==> LeastOf(m, s, i, w))
    ensures var s' := Traded(s, i, p);
            && s'[i] == s[p] && (i > 0 ==> s'[w] == s[w])
            && if i == 0 || m[s[p]].nLastSuccess < m[s[w]].nLastSuccess then LeastOf(m, s', i + 1, i)
               else LeastOf(m, s', i + 1, w)
  {
  }

  lemma SelectedSame(m: Infos, m': Infos, v: seq<nat>, pick: Pick)
    requires Selected(m, v, pick) && m'.Keys == m.Keys && forall n :: n in m ==> m'[n].nLastSuccess == m[n].nLastSuccess
    ensures Selected(m', v, pick)
  {
    hide Shuffled;
  }

  lemma {:induction false} ShuffledMultiset(v: seq<nat>, draws: seq<nat>)
    requires Drawn(|v|, draws)
    ensures multiset(Shuffled(v, draws)) == multiset(v)
    decreases |draws|
  {
    hide Traded;
    if draws != [] {
      var l := |draws| - 1;
      ShuffledMultiset(v, draws[..l]);
      TradedMultiset(Shuffled(v, draws[..l]), l, l + draws[l]);
    }
  }

  lemma StillThere(v: seq<nat>, draws: seq<nat>, p: nat)
    requires Drawn(|v|, draws) && p < |v|
    ensures Shuffled(v, draws)[p] in v
  {
    hide Shuffled;
    ShuffledMultiset(v, draws);
    ShuffledKnown(v, Shuffled(v, draws), p);
  }

  /** Which entry the position names: the least recently successful one of those inspected exactly if its round
      drew zero, and otherwise another one; that one is as good a choice exactly if it succeeded no later. */
  lemma {:induction false} PickIsLeast(m: Infos, v: seq<nat>, pick: Pick)
    requires Selected(m, v, pick) && forall i, j :: 0 <= i < j < |v| ==> v[i] != v[j]
    ensures 0 <= pick.pos < |pick.order|
    ensures pick.order[pick.pos] == pick.order[pick.winner] <==> pick.draws[pick.winner] == 0
    ensures pick.order[pick.pos] in m ==>
              ((forall i :: 0 <= i < |pick.draws| ==>
                 m[pick.order[pick.pos]].nLastSuccess <= m[pick.order[i]].nLastSuccess) <==>
               m[pick.order[pick.pos]].nLastSuccess <= m[pick.order[pick.winner]].nLastSuccess)
  {
    hide Shuffled;
    ShuffledMultiset(v, pick.draws);
    ShuffledDistinct(v, pick.order);
  }

  /** The entry that the winner displaced: unless a later round moves it again, it is the one that the position names.
      So the named entry is the least recently successful one exactly if the winner was drawn in place or displaced
      an entry that succeeded no later. */
  lemma {:induction false} NamesDisplaced(m: Infos, v: seq<nat>, pick: Pick)
    requires Selected(m, v, pick)
    requires forall i :: pick.winner < i < |pick.draws| ==> Misses(pick.draws, i, pick.pos)
    ensures Drawn(|v|, pick.draws[..pick.winner]) && 0 <= pick.pos < |v|
    ensures pick.order[pick.pos] == Shuffled(v, pick.draws[..pick.winner])[pick.winner]
  {
    hide Shuffled;
    var w := pick.winner;
    DrawnPrefix(|v|, pick.draws, w);
    DrawnPrefix(|v|, pick.draws, w + 1);
    OneMoreDraw(v, pick.draws[..w], pick.draws[w]);
    assert pick.draws[..w] + [pick.draws[w]] == pick.draws[..w + 1];
    TradedAt(Shuffled(v, pick.draws[..w]), w, w + pick.draws[w]);
    Untouched(v, pick.draws, w + 1, w + pick.draws[w]);
  }

  lemma DrawnPrefix(size: nat, draws: seq<nat>, n: nat)
    requires Drawn(size, draws) && n <= |draws|
    ensures Drawn(size, draws[..n])
  {
  }

  /** Round `i` does not touch a position. */
  ghost predicate Misses(draws: seq<nat>, i: nat, p: int) {
    i < |draws| && i != p && i + draws[i] != p
  }

  lemma LastRound(v: seq<nat>, draws: seq<nat>)
    requires Drawn(|v|, draws) && draws != []
    ensures var l := |draws| - 1;
            && Drawn(|v|, draws[..l]) && l + draws[l] < |v|
            && forall p :: 0 <= p < |v| && p != l && p != l + draws[l] ==>
                             Shuffled(v, draws)[p] == Shuffled(v, draws[..l])[p]
  {
    var l := |draws| - 1;
    DrawnPrefix(|v|, draws, l);
    TradedAt(Shuffled(v, draws[..l]), l, l + draws[l]);
  }

  /** Rounds that do not touch a position leave it as it was. */
  lemma {:induction false} Untouched(v: seq<nat>, draws: seq<nat>, n: nat, p: nat)
    requires Drawn(|v|, draws) && n <= |draws| && Drawn(|v|, draws[..n]) && p < |v|
    requires forall i :: n <= i < |draws| ==> Misses(draws, i, p)
    ensures Shuffled(v, draws)[p] == Shuffled(v, draws[..n])[p]
    decreases |draws|
  {
    hide Traded, Drawn;
    if n < |draws| {
      var l := |draws| - 1;
      DrawnPrefix(|v|, draws, l);
      assert draws[..l][..n] == draws[..n];
      assert Misses(draws, l, p);
      forall i | n <= i < l ensures Misses(draws[..l], i, p) {
        assert Misses(draws, i, p);
      }
      Untouched(v, draws[..l], n, p);
      LastRound(v, draws);
    } else {
      assert draws[..n] == draws;
    }
  }

  lemma ShuffledDistinct(v: seq<nat>, s: seq<nat>)
    requires multiset(s) == multiset(v) && forall i, j :: 0 <= i < j < |v| ==> v[i] != v[j]
    ensures forall i, j :: 0 <= i < j < |s| ==> s[i] != s[j]
  {
    DistinctOnce(v);
    forall i, j | 0 <= i < j < |s| ensures s[i] != s[j] {
      TwiceCounts(s, i, j);
    }
  }

  lemma TradedAt(s: seq<nat>, i: nat, p: nat)
    requires i < |s| && p < |s|
    ensures var s' := Traded(s, i, p);
            && s'[i] == s[p] && s'[p] == s[i] && (forall j :: 0 <= j < |s| && j != i && j != p ==> s'[j] == s[j])
               && (i == p ==> s' == s)
  {
  }

  /**
   In every bucket whose last entry is less recently successful than all others, the draws that find this entry first
   and then leave everything in place name the last position, where the former first entry is by then.
   */
  lemma {:induction false} LastIsSpared(m: Infos, v: seq<nat>) returns (pick: Pick)
    requires |v| > TRIED_ENTRIES_INSPECT_ON_EVICT && forall i :: 0 <= i < |v| ==> v[i] in m
    requires forall i :: 0 <= i < |v| - 1 ==> m[v[|v| - 1]].nLastSuccess < m[v[i]].nLastSuccess
    ensures Selected(m, v, pick) && pick.draws == [|v| - 1, 0, 0, 0]
    ensures pick.order[pick.winner] == v[|v| - 1] && pick.pos == |v| - 1 && pick.order[pick.pos] == v[0]
    ensures m[pick.order[pick.pos]].nLastSuccess > m[pick.order[pick.winner]].nLastSuccess
  {
    hide Shuffled, Traded;
    var l := |v| - 1;
    var s := Traded(v, 0, l);
    TradedAt(v, 0, l);
    TradedAt(s, 1, 1);
    TradedAt(s, 2, 2);
    TradedAt(s, 3, 3);
    NoDraws(v);
    OneMoreDraw(v, [], l);
    OneMoreDraw(v, [l], 0);
    OneMoreDraw(v, [l, 0], 0);
    OneMoreDraw(v, [l, 0, 0], 0);
    var draws: seq<nat> := [l, 0, 0, 0];
    assert [] + [l] == [l] && [l] + [0] == [l, 0] && [l, 0] + [0] == [l, 0, 0] && [l, 0, 0] + [0] == draws;
    pick := Pick(draws, 0, s, l);
  }

  /** There is such a bucket: 64 entries of which the last one is the least recently successful. */
  lemma SparesLeast() returns (m: Infos, v: seq<nat>, pick: Pick)
    ensures |v| == TRIED_BUCKET_SIZE && (forall i, j :: 0 <= i < j < |v| ==> v[i] != v[j])
    ensures Selected(m, v, pick) && 0 <= pick.pos < |pick.order|
    ensures forall i :: 0 <= i < |pick.order| ==> pick.order[i] in m
    ensures m[pick.order[pick.pos]].nLastSuccess > m[pick.order[pick.winner]].nLastSuccess
  {
    hide Shuffled;
    v := seq(TRIED_BUCKET_SIZE, i => i);
    m := map n | 0 <= n < TRIED_BUCKET_SIZE :: Info(Address(n, 0, 0, 0), 0, 100 - n, 0, 0, 0, true, n);
    pick := LastIsSpared(m, v);
    ShuffledMultiset(v, pick.draws);
    forall i | 0 <= i < |pick.order| ensures pick.order[i] in m {
      ShuffledKnown(v, pick.order, i);
    }
  }

  lemma ShuffledKnown(before: seq<nat>, s: seq<nat>, i: nat)
    requires multiset(s) == multiset(before) && i < |s|
    ensures s[i] in before
  {
    assert s[i] in multiset(s);
  }
}
