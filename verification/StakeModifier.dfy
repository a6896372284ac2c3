/**
 The stake modifier: every interval it is recomputed from one entropy bit of each of up to
 64 blocks, selected one a round from the recent past.
 */
module StakeModifier {
  import opened Ledger
  import opened Ordering
  import opened Numbers
  import opened Sequences

  const MODIFIER_INTERVAL := 10 * 60
  const MODIFIER_INTERVAL_RATIO := 3
  const ROUNDS := 64

  /** What the selection reads of a block; `bit` is its entropy bit. */
  datatype StakeBlock = StakeBlock(hash: Hash, nTime: nat, hashProof: Hash, fStake: bool, bit: nat,
                                   nStakeModifier: nat, fGenerated: bool)

  type BlockMap = map<Hash, StakeBlock>

  // ---------- intervals ----------

  function Section(nSection: nat): (r: nat)
    requires nSection < ROUNDS
    ensures 200 <= r <= MODIFIER_INTERVAL
  {
    MODIFIER_INTERVAL * 63 / (63 + (63 - nSection) * (MODIFIER_INTERVAL_RATIO - 1))
  }

  /** The first `n` sections together. */
  function Sections(n: nat): nat
    requires n <= ROUNDS
  {
    if n == 0 then 0 else Sections(n - 1) + Section(n - 1)
  }

  method GetSelectionInterval() returns (r: nat)
    ensures r == Sections(ROUNDS)
  {
    r := 0;
    for n := 0 to ROUNDS
      invariant r == Sections(n)
    {
      r := r + Section(n);
    }
  }

  // ---------- one selection ----------

  /** Candidates in order of time, then hash. */
  type Candidate = (nat, Hash)

  predicate Earlier(a: Candidate, b: Candidate) {
    a.0 < b.0 || (a.0 == b.0 && a.1 <= b.1)
  }

  /** The number a candidate competes with; that of proof-of-stake blocks is divided by 2^32. */
  function SelectionHash(hasher: (Hash, nat) -> nat, b: StakeBlock, prev: nat): nat {
    var h := hasher(b.hashProof, prev);
    if b.fStake then h / 0x1_0000_0000 else h
  }

  datatype Choice = Chosen(block: StakeBlock) | NoneLeft | Unindexed

  ghost predicate AllIndexed(cs: seq<Candidate>, index: BlockMap) {
    forall i :: 0 <= i < |cs| ==> IndexedAt(cs[i], index)
  }

  ghost predicate IndexedAt(c: Candidate, index: BlockMap) {
    c.1 in index && index[c.1].nTime == c.0 && index[c.1].hash == c.1
  }

  /** A candidate may be selected if it was not before and is early enough, or if nothing unselected is. */
  ghost predicate Open(cs: seq<Candidate>, taken: set<Hash>, i: int) {
    0 <= i < |cs| && cs[i].1 !in taken
  }

  /** Position `p` is the selection: of the open candidates up to the stop, the first with the least selection hash;
      if no open candidate is that early, the first open one. */
  ghost predicate Selects(cs: seq<Candidate>, taken: set<Hash>, stop: int, prev: nat,
                          index: BlockMap, hasher: (Hash, nat) -> nat, p: nat)
  {
    && Open(cs, taken, p) && AllIndexed(cs, index)
    && if exists i :: Open(cs, taken, i) && cs[i].0 <= stop then
         && cs[p].0 <= stop
         && (forall i :: Open(cs, taken, i) && cs[i].0 <= stop ==> Beats(cs, prev, index, hasher, p, i))
       else forall i :: Open(cs, taken, i) ==> p <= i
  }

  ghost predicate Beats(cs: seq<Candidate>, prev: nat, index: BlockMap, hasher: (Hash, nat) -> nat, p: int, i: int) {
    && 0 <= p < |cs| && 0 <= i < |cs| && cs[p].1 in index && cs[i].1 in index
    && var hp, hi := SelectionHash(hasher, index[cs[p].1], prev), SelectionHash(hasher, index[cs[i].1], prev);
       hp < hi || (hp == hi && p <= i)
  }

  /** Scanning the candidates below `n`: either none was open, or `p` leads. */
  ghost predicate Leads(cs: seq<Candidate>, taken: set<Hash>, stop: int, prev: nat, index: BlockMap,
                        hasher: (Hash, nat) -> nat, n: nat, p: Option<nat>)
  {
    match p
    case None => forall i :: 0 <= i < n ==> !Open(cs, taken, i)
    case Some(p) =>
      && Open(cs, taken, p) && p < n
      && (cs[p].0 <= stop || forall i :: Open(cs, taken, i) ==> p <= i)
      && (forall i :: Open(cs, taken, i) && i < n ==> Beats(cs, prev, index, hasher, p, i))
  }

  method SelectBlockFromCandidates(cs: seq<Candidate>, taken: set<Hash>, stop: int, prev: nat,
                                   index: BlockMap, hasher: (Hash, nat) -> nat) returns (r: Choice, ghost p: nat)
    requires SortedBy(cs, Earlier)
    ensures AllIndexed(cs, index) ==> !r.Unindexed?
    ensures AllIndexed(cs, index) ==> (r.NoneLeft? <==> forall i :: 0 <= i < |cs| ==> !Open(cs, taken, i))
    ensures AllIndexed(cs, index) && r.Chosen? ==> Selects(cs, taken, stop, prev, index, hasher, p)
    ensures AllIndexed(cs, index) && r.Chosen? ==>
              p < |cs| && cs[p].1 == r.block.hash && cs[p].1 in index && index[cs[p].1] == r.block
  {
    hide SelectionHash, Selects, Leads, Earlier;
    ghost var fit := AllIndexed(cs, index);
    var hashBest := 0;
    ghost var lead: Option<nat> := None;
    r, p := NoneLeft, 0;
    LeadsNone(cs, taken, stop, prev, index, hasher);
    var n := 0;
    while n < |cs|
      invariant 0 <= n <= |cs|
      invariant fit ==> Leads(cs, taken, stop, prev, index, hasher, n, lead)
      invariant r.Chosen? || r.NoneLeft?
      invariant r.Chosen? <==> lead.Some?
      invariant r.Chosen? ==> lead.value < |cs| && cs[lead.value].1 in index && r.block == index[cs[lead.value].1]
                              && hashBest == SelectionHash(hasher, r.block, prev)
    {
      assert fit ==> IndexedAt(cs[n], index);
      if cs[n].1 !in index {
        return Unindexed, 0;
      }
      var block := index[cs[n].1];
      if r.Chosen? && block.nTime > stop {
        break;
      }
      if block.hash in taken {
        if fit {
          LeadsSkip(cs, taken, stop, prev, index, hasher, n, lead);
        }
        n := n + 1;
        continue;
      }
      var h := SelectionHash(hasher, block, prev);
      if fit {
        LeadsStep(cs, taken, stop, prev, index, hasher, n, lead);
      }
      if r.NoneLeft? || h < hashBest {
        hashBest := h;
        r := Chosen(block);
        lead := Some(n);
      }
      n := n + 1;
    }
    if fit {
      LeadsDone(cs, taken, stop, prev, index, hasher, n, lead);
      assert lead.Some? ==> IndexedAt(cs[lead.value], index);
      p := if lead.Some? then lead.value else 0;
    }
  }

  lemma LeadsNone(cs: seq<Candidate>, taken: set<Hash>, stop: int, prev: nat, index: BlockMap, hasher: (Hash,
                  nat) -> nat)
    ensures Leads(cs, taken, stop, prev, index, hasher, 0, None)
  {
  }

  lemma LeadsSkip(cs: seq<Candidate>, taken: set<Hash>, stop: int, prev: nat, index: BlockMap,
                  hasher: (Hash, nat) -> nat, n: nat, p: Option<nat>)
    requires Leads(cs, taken, stop, prev, index, hasher, n, p) && n < |cs| && !Open(cs, taken, n)
    ensures Leads(cs, taken, stop, prev, index, hasher, n + 1, p)
  {
    hide Beats;
  }

  lemma LeadsStep(cs: seq<Candidate>, taken: set<Hash>, stop: int, prev: nat, index: BlockMap,
                  hasher: (Hash, nat) -> nat, n: nat, p: Option<nat>)
    requires Leads(cs, taken, stop, prev, index, hasher, n, p) && AllIndexed(cs, index) && SortedBy(cs, Earlier)
    requires Open(cs, taken, n) && (p.Some? ==> cs[n].0 <= stop)
    ensures cs[n].1 in index && (p.Some? ==> p.value < |cs| && cs[p.value].1 in index)
    ensures var better := p.None?
            || SelectionHash(hasher, index[cs[n].1], prev) < SelectionHash(hasher, index[cs[p.value].1], prev);
            Leads(cs, taken, stop, prev, index, hasher, n + 1, if better then Some(n) else p)
  {
    hide SelectionHash;
    assert IndexedAt(cs[n], index);
    if p.Some? {
      assert IndexedAt(cs[p.value], index);
    }
  }

  lemma LeadsDone(cs: seq<Candidate>, taken: set<Hash>, stop: int, prev: nat, index: BlockMap,
                  hasher: (Hash, nat) -> nat, n: nat, p: Option<nat>)
    requires Leads(cs, taken, stop, prev, index, hasher, n, p) && AllIndexed(cs, index) && SortedBy(cs, Earlier)
             && n <= |cs|
    requires n < |cs| ==> p.Some? && cs[n].0 > stop
    ensures p.Some? ==> Open(cs, taken, p.value) && Selects(cs, taken, stop, prev, index, hasher, p.value)
    ensures p.None? ==> forall i :: 0 <= i < |cs| ==> !Open(cs, taken, i)
  {
    hide Beats, SelectionHash;
    forall i | n <= i < |cs| ensures cs[i].0 > stop {
      assert i == n || Earlier(cs[n], cs[i]);
    }
    if p.Some? && cs[p.value].0 > stop {
      forall i | Open(cs, taken, i) ensures cs[i].0 > stop {
        assert i == p.value || Earlier(cs[p.value], cs[i]);
      }
    }
  }

  // ---------- what the selection favours ----------

  const TWO32 := 0x1_0000_0000
  const TWO224 := 0x1_0000_0000_0000_0000_0000_0000_0000_0000_0000_0000_0000_0000_0000_0000

  /** How the selected block stands to any other one that could have been selected: among blocks of the same kind the
      smaller hash wins, proof-of-stake hashes counting in steps of 2^32, and a proof-of-stake block wins against a
      proof-of-work block unless its hash is 2^32 times as large. */
  lemma SelectedAgainst(cs: seq<Candidate>, taken: set<Hash>, stop: int, prev: nat,
                        index: BlockMap, hasher: (Hash, nat) -> nat, p: nat, i: nat)
    requires Selects(cs, taken, stop, prev, index, hasher, p) && Open(cs, taken, i) && cs[i].0 <= stop
    ensures p < |cs| && cs[p].0 <= stop && cs[p].1 in index && cs[i].1 in index
    ensures var (a, b) := (index[cs[p].1], index[cs[i].1]);
            var (ha, hb) := (hasher(a.hashProof, prev), hasher(b.hashProof, prev));
            && (!a.fStake && !b.fStake ==> ha <= hb && (ha == hb ==> p <= i))
            && (a.fStake && b.fStake ==> ha < hb + TWO32)
            && (!a.fStake && b.fStake ==> ha * TWO32 <= hb)
            && (a.fStake && !b.fStake ==> ha < (hb + 1) * TWO32)
  {
    assert Beats(cs, prev, index, hasher, p, i);
  }

  /** With hashes of 256 bits, a proof-of-work block whose hash has any of its upper 32 bits set is selected only if no
      proof-of-stake block could have been. */
  lemma StakeFavoured(cs: seq<Candidate>, taken: set<Hash>, stop: int, prev: nat,
                      index: BlockMap, hasher: (Hash, nat) -> nat, p: nat, i: nat)
    requires Selects(cs, taken, stop, prev, index, hasher, p) && Open(cs, taken, i) && cs[i].0 <= stop
    requires cs[i].1 in index && hasher(index[cs[i].1].hashProof, prev) < TWO224 * TWO32
    requires cs[p].1 in index && !index[cs[p].1].fStake && hasher(index[cs[p].1].hashProof, prev) >= TWO224
    ensures !index[cs[i].1].fStake
  {
    SelectedAgainst(cs, taken, stop, prev, index, hasher, p, i);
  }

  /** Later sections are longer, from a third of the interval to all of it. */
  lemma SectionsLengthen(m: nat, n: nat)
    requires m <= n < ROUNDS
    ensures Section(m) <= Section(n) && Section(0) == MODIFIER_INTERVAL / 3 && Section(ROUNDS - 1) == MODIFIER_INTERVAL
  {
    QuotientShrinks(MODIFIER_INTERVAL * 63, 63 + (63 - n) * 2, 63 + (63 - m) * 2);
  }

  lemma QuotientShrinks(a: nat, b: nat, c: nat)
    requires 0 < b <= c
    ensures a / c <= a / b
  {
    var q := a / c;
    assert q * b <= q * c <= a;
    AtLeast(a, b, q);
  }

  lemma AtLeast(a: nat, b: nat, q: nat)
    requires b > 0 && q * b <= a
    ensures q <= a / b
  {
    var r := a / b + 1;
    assert a < r * b;
    Less(q, r, b);
  }

  lemma Less(q: nat, r: nat, b: nat)
    requires b > 0 && q * b < r * b
    ensures q < r
  {
    var d := q - r;
    assert q * b == r * b + d * b;
    assert d >= 0 ==> d * b >= 0;
  }

  // ---------- the last modifier ----------

  /** Modifier and time of the last block that generated one. */
  function LastModifier(chain: seq<StakeBlock>): Option<(nat, nat)> {
    if chain == [] then None
    else
      var last := chain[|chain| - 1];
      if last.fGenerated then Some((last.nStakeModifier, last.nTime)) else LastModifier(chain[..|chain| - 1])
  }

  ghost predicate GeneratedLast(chain: seq<StakeBlock>, i: int, m: (nat, nat)) {
    && 0 <= i < |chain| && chain[i].fGenerated && m == (chain[i].nStakeModifier, chain[i].nTime)
    && forall j :: i < j < |chain| ==> !chain[j].fGenerated
  }

  /** It is found exactly if some block generated a modifier, and no later block did. */
  lemma {:induction false} LastModifierIsLast(chain: seq<StakeBlock>)
    ensures LastModifier(chain).None? <==> forall i :: 0 <= i < |chain| ==> !chain[i].fGenerated
    ensures LastModifier(chain).Some? ==> exists i :: GeneratedLast(chain, i, LastModifier(chain).value)
  {
    if chain != [] && chain[|chain| - 1].fGenerated {
      assert GeneratedLast(chain, |chain| - 1, LastModifier(chain).value);
    } else if chain != [] {
      var front := chain[..|chain| - 1];
      LastModifierIsLast(front);
      if LastModifier(front).Some? {
        var i :| GeneratedLast(front, i, LastModifier(front).value);
        assert GeneratedLast(chain, i, LastModifier(chain).value);
      } else {
        assert forall i :: 0 <= i < |front| ==> front[i] == chain[i];
      }
    }
  }

  method GetLastStakeModifier(chain: seq<StakeBlock>) returns (r: Option<(nat, nat)>)
    ensures r == LastModifier(chain)
  {
    if chain == [] {
      return None;
    }
    var i := |chain| - 1;
    assert chain[..i + 1] == chain;
    while i > 0 && !chain[i].fGenerated
      invariant 0 <= i < |chain| && LastModifier(chain) == LastModifier(chain[..i + 1])
    {
      assert chain[..i + 1][..i] == chain[..i];
      i := i - 1;
    }
    assert i == 0 ==> chain[..i + 1][..0] == [];
    if !chain[i].fGenerated {
      return None;
    }
    r := Some((chain[i].nStakeModifier, chain[i].nTime));
  }

  // ---------- candidates ----------

  function CandidateOf(b: StakeBlock): Candidate {
    (b.nTime, b.hash)
  }

  /** The blocks at the end of the chain none of which is older than `start`. */
  function Recent(chain: seq<StakeBlock>, start: int): (r: seq<Candidate>)
    ensures |r| <= |chain|
    ensures forall i :: 0 <= i < |r| ==> r[i] == CandidateOf(chain[|chain| - |r| + i]) && r[i].0 >= start
    ensures |r| < |chain| ==> chain[|chain| - |r| - 1].nTime < start
  {
    if chain == [] || chain[|chain| - 1].nTime < start then []
    else Recent(chain[..|chain| - 1], start) + [CandidateOf(chain[|chain| - 1])]
  }

  method GatherCandidates(chain: seq<StakeBlock>, start: int) returns (cs: seq<Candidate>)
    ensures SortedBy(cs, Earlier) && multiset(cs) == multiset(Recent(chain, start)) && |cs| == |Recent(chain, start)|
  {
    var v := [];
    hide Recent, Earlier;
    var i := |chain|;
    assert chain[..i] == chain;
    while i > 0 && chain[i - 1].nTime >= start
      invariant 0 <= i <= |chain| && Recent(chain, start) == Recent(chain[..i], start) + Reversed(v)
    {
      RecentStep(chain, i, start);
      ReversedAppend(v, CandidateOf(chain[i - 1]));
      v := v + [CandidateOf(chain[i - 1])];
      i := i - 1;
    }
    RecentEnd(chain[..i], start);
    EarlierIsTotal();
    cs := SortBy(Reversed(v), Earlier);
  }

  lemma RecentStep(chain: seq<StakeBlock>, i: nat, start: int)
    requires 0 < i <= |chain| && chain[i - 1].nTime >= start
    ensures Recent(chain[..i], start) == Recent(chain[..i - 1], start) + [CandidateOf(chain[i - 1])]
  {
    assert chain[..i][..i - 1] == chain[..i - 1];
  }

  lemma RecentEnd(chain: seq<StakeBlock>, start: int)
    requires chain == [] || chain[|chain| - 1].nTime < start
    ensures Recent(chain, start) == []
  {
  }

  lemma EarlierIsTotal()
    ensures TotalOrder(Earlier)
  {
  }

  // ---------- rounds ----------

  /** The hashes of candidates. */
  ghost function HashesOf(cs: seq<Candidate>): set<Hash> {
    set c | c in cs :: c.1
  }

  /** The hashes at the picked positions. */
  ghost function TakenBy(cs: seq<Candidate>, picks: seq<nat>): set<Hash> {
    set i | 0 <= i < |picks| && picks[i] < |cs| :: cs[picks[i]].1
  }

  /** Round `r` picks what the selection rule says, given the picks before and the stop of this round. */
  ghost predicate RoundOk(cs: seq<Candidate>, picks: seq<nat>, r: nat, start: int, prev: nat,
                          index: BlockMap, hasher: (Hash, nat) -> nat)
  {
    r < |picks| && r < ROUNDS
      && Selects(cs, TakenBy(cs, picks[..r]), start + Sections(r + 1), prev, index, hasher, picks[r])
  }

  ghost predicate RoundsOk(cs: seq<Candidate>, picks: seq<nat>, start: int, prev: nat,
                           index: BlockMap, hasher: (Hash, nat) -> nat)
  {
    forall r :: 0 <= r < |picks| ==> RoundOk(cs, picks, r, start, prev, index, hasher)
  }

  /** The number with these bits, lowest first. */
  function Value(bits: seq<nat>): nat {
    if bits == [] then 0 else bits[0] + 2 * Value(bits[1..])
  }

  /** The lowest `n` bits of a number. */
  function Bits(v: nat, n: nat): seq<nat> {
    if n == 0 then [] else [v % 2] + Bits(v / 2, n - 1)
  }

  /** Each bit can be read back from the number. */
  lemma {:induction false} BitsOfValue(bits: seq<nat>)
    requires forall i :: 0 <= i < |bits| ==> bits[i] < 2
    ensures Bits(Value(bits), |bits|) == bits && Value(bits) < Pow2(|bits|)
  {
    if bits != [] {
      BitsOfValue(bits[1..]);
      assert bits == [bits[0]] + bits[1..];
    }
  }

  lemma {:induction false} ValueAppend(bits: seq<nat>, b: nat)
    ensures Value(bits + [b]) == Value(bits) + b * Pow2(|bits|)
  {
    if bits != [] {
      ValueAppend(bits[1..], b);
      assert (bits + [b])[1..] == bits[1..] + [b];
      assert b * Pow2(|bits|) == 2 * (b * Pow2(|bits| - 1));
    } else {
      assert ([b])[1..] == [];
    }
  }

  ghost function BitAt(cs: seq<Candidate>, p: nat, index: BlockMap): nat {
    if p < |cs| && cs[p].1 in index then index[cs[p].1].bit else 0
  }

  /** The entropy bits of the picks, first pick lowest. */
  ghost function PickedBits(cs: seq<Candidate>, picks: seq<nat>, index: BlockMap): (bits: seq<nat>)
    ensures |bits| == |picks|
  {
    seq(|picks|, i requires 0 <= i < |picks| => BitAt(cs, picks[i], index))
  }

  /** As long as fewer blocks were picked than there are candidates with distinct hashes, one is open. */
  lemma SomeOpen(cs: seq<Candidate>, picks: seq<nat>)
    requires |HashesOf(cs)| == |cs| && |picks| < |cs|
    ensures exists i :: Open(cs, TakenBy(cs, picks), i)
  {
    TakenFew(cs, picks);
    if HashesOf(cs) <= TakenBy(cs, picks) {
      SubsetSize(HashesOf(cs), TakenBy(cs, picks));
    } else {
      var h :| h in HashesOf(cs) && h !in TakenBy(cs, picks);
      var i :| 0 <= i < |cs| && cs[i].1 == h;
      assert Open(cs, TakenBy(cs, picks), i);
    }
  }

  lemma {:induction false} TakenFew(cs: seq<Candidate>, picks: seq<nat>)
    ensures |TakenBy(cs, picks)| <= |picks|
  {
    if picks == [] {
      assert TakenBy(cs, picks) == {};
    } else {
      var l := |picks| - 1;
      TakenFew(cs, picks[..l]);
      TakenStep(cs, picks[..l], picks[l]);
      assert picks[..l] + [picks[l]] == picks;
    }
  }

  lemma TakenStep(cs: seq<Candidate>, picks: seq<nat>, p: nat)
    ensures TakenBy(cs, picks + [p]) == TakenBy(cs, picks) + if p < |cs| then {cs[p].1} else {}
  {
    var all := picks + [p];
    forall h | h in TakenBy(cs, picks) ensures h in TakenBy(cs, all) {
      var i :| 0 <= i < |picks| && picks[i] < |cs| && cs[picks[i]].1 == h;
      assert all[i] == picks[i];
    }
    if p < |cs| {
      assert all[|picks|] == p;
    }
  }

  // ---------- the next modifier ----------

  datatype Outcome = Modifier(value: nat, generated: bool) | Failed

  /** All blocks of the chain are indexed under distinct hashes, with entropy bits 0 or 1. */
  ghost predicate OnChain(chain: seq<StakeBlock>, index: BlockMap) {
    && (forall i :: 0 <= i < |chain| ==> chain[i].hash in index && index[chain[i].hash] == chain[i] && chain[i].bit < 2)
    && (forall i, j :: 0 <= i < j < |chain| ==> chain[i].hash != chain[j].hash)
  }

  lemma {:induction false} DistinctHashes(cs: seq<Candidate>)
    requires forall i, j :: 0 <= i < j < |cs| ==> cs[i].1 != cs[j].1
    ensures |HashesOf(cs)| == |cs|
  {
    if cs == [] {
      assert HashesOf(cs) == {};
    } else {
      var l := |cs| - 1;
      var front, last := cs[..l], cs[l];
      DistinctHashes(front);
      assert cs == front + [last];
      assert HashesOf(cs) == HashesOf(front) + {last.1};
    }
  }

  lemma SameMembers(a: seq<Candidate>, b: seq<Candidate>)
    requires multiset(a) == multiset(b)
    ensures HashesOf(a) == HashesOf(b) && forall c :: c in a <==> c in b
  {
    forall c ensures c in a <==> c in b {
      assert c in multiset(a) <==> c in multiset(b);
    }
  }

  lemma CandidatesIndexed(chain: seq<StakeBlock>, index: BlockMap, start: int, cs: seq<Candidate>)
    requires OnChain(chain, index) && multiset(cs) == multiset(Recent(chain, start)) && |cs| == |Recent(chain, start)|
    ensures AllIndexed(cs, index) && |HashesOf(cs)| == |cs|
  {
    var recent := Recent(chain, start);
    hide Recent;
    SameMembers(cs, recent);
    forall i | 0 <= i < |cs| ensures IndexedAt(cs[i], index) {
      assert cs[i] in cs;
      var j :| 0 <= j < |recent| && recent[j] == cs[i];
      assert recent[j] == CandidateOf(chain[|chain| - |recent| + j]);
    }
    forall i, j | 0 <= i < j < |recent| ensures recent[i].1 != recent[j].1 {
      assert recent[i] == CandidateOf(chain[|chain| - |recent| + i])
             && recent[j] == CandidateOf(chain[|chain| - |recent| + j]);
    }
    DistinctHashes(recent);
  }

  lemma SelectsOpen(cs: seq<Candidate>, taken: set<Hash>, stop: int, prev: nat,
                    index: BlockMap, hasher: (Hash, nat) -> nat, p: nat)
    requires Selects(cs, taken, stop, prev, index, hasher, p)
    ensures Open(cs, taken, p)
  {
  }

  lemma RoundAppended(cs: seq<Candidate>, picks: seq<nat>, start: int, prev: nat,
                      index: BlockMap, hasher: (Hash, nat) -> nat, p: nat)
    requires RoundsOk(cs, picks, start, prev, index, hasher) && |picks| < ROUNDS
    requires Selects(cs, TakenBy(cs, picks), start + Sections(|picks| + 1), prev, index, hasher, p)
    ensures RoundsOk(cs, picks + [p], start, prev, index, hasher)
    ensures p < |cs| && TakenBy(cs, picks + [p]) == TakenBy(cs, picks) + {cs[p].1}
    ensures PickedBits(cs, picks + [p], index) == PickedBits(cs, picks, index) + [BitAt(cs, p, index)]
  {
    hide Selects, TakenBy, Sections, BitAt, RoundOk;
    TakenStep(cs, picks, p);
    SelectsOpen(cs, TakenBy(cs, picks), start + Sections(|picks| + 1), prev, index, hasher, p);
    var all := picks + [p];
    forall r | 0 <= r < |all| ensures RoundOk(cs, all, r, start, prev, index, hasher) {
      if r < |picks| {
        RoundStays(cs, picks, p, r, start, prev, index, hasher);
      } else {
        RoundIsNew(cs, picks, p, start, prev, index, hasher);
      }
    }
  }

  lemma RoundStays(cs: seq<Candidate>, picks: seq<nat>, p: nat, r: nat, start: int, prev: nat,
                   index: BlockMap, hasher: (Hash, nat) -> nat)
    requires RoundOk(cs, picks, r, start, prev, index, hasher)
    ensures RoundOk(cs, picks + [p], r, start, prev, index, hasher)
  {
    hide Selects, TakenBy, Sections;
    assert (picks + [p])[..r] == picks[..r];
  }

  lemma RoundIsNew(cs: seq<Candidate>, picks: seq<nat>, p: nat, start: int, prev: nat,
                   index: BlockMap, hasher: (Hash, nat) -> nat)
    requires |picks| < ROUNDS && Selects(cs, TakenBy(cs, picks), start + Sections(|picks| + 1), prev, index, hasher, p)
    ensures RoundOk(cs, picks + [p], |picks|, start, prev, index, hasher)
  {
    hide Selects, TakenBy, Sections;
    assert (picks + [p])[..|picks|] == picks;
  }

  /** Selects one block a round; never short of a block on a chain with distinct hashes. */
  method SelectRounds(cs: seq<Candidate>, start: int, prev: nat, index: BlockMap, hasher: (Hash, nat) -> nat)
    returns (r: Option<nat>, ghost picks: seq<nat>)
    requires SortedBy(cs, Earlier)
    ensures AllIndexed(cs, index) && |HashesOf(cs)| == |cs| ==>
              && r.Some? && |picks| == (if |cs| < ROUNDS then |cs| else ROUNDS)
              && RoundsOk(cs, picks, start, prev, index, hasher) && r.value == Value(PickedBits(cs, picks, index))
  {
    hide AllIndexed, HashesOf, TakenBy, Selects, RoundsOk, SortedBy, Value, PickedBits, Open, Sections;
    ghost var fit := AllIndexed(cs, index) && |HashesOf(cs)| == |cs|;
    var modifier: nat, stop, taken: set<Hash> := 0, start, {};
    picks := [];
    NoRounds(cs, start, prev, index, hasher);
    var rounds := if |cs| < ROUNDS then |cs| else ROUNDS;
    var nRound := 0;
    while nRound < rounds
      invariant 0 <= nRound <= rounds && |picks| == nRound && stop == start + Sections(nRound)
      invariant fit ==> taken == TakenBy(cs, picks) && RoundsOk(cs, picks, start, prev, index, hasher)
      invariant fit ==> modifier == Value(PickedBits(cs, picks, index))
    {
      SectionsStep(nRound);
      stop := stop + Section(nRound);
      var choice, p := SelectBlockFromCandidates(cs, taken, stop, prev, index, hasher);
      if fit {
        SomeOpen(cs, picks);
      }
      if !choice.Chosen? {
        NotShort(cs, taken);
        return None, picks;
      }
      if fit {
        RoundAppended(cs, picks, start, prev, index, hasher, p);
        ValueAppend(PickedBits(cs, picks, index), BitAt(cs, p, index));
      }
      modifier := modifier + choice.block.bit * Pow2(nRound);
      taken := taken + {choice.block.hash};
      picks := picks + [p];
      nRound := nRound + 1;
    }
    r := Some(modifier);
  }

  lemma NotShort(cs: seq<Candidate>, taken: set<Hash>)
    ensures (forall i :: 0 <= i < |cs| ==> !Open(cs, taken, i)) ==> !exists i :: Open(cs, taken, i)
  {
  }

  lemma SectionsStep(n: nat)
    requires n < ROUNDS
    ensures Sections(n + 1) == Sections(n) + Section(n)
  {
  }

  lemma NoRounds(cs: seq<Candidate>, start: int, prev: nat, index: BlockMap, hasher: (Hash, nat) -> nat)
    ensures RoundsOk(cs, [], start, prev, index, hasher) && TakenBy(cs, []) == {}
            && Value(PickedBits(cs, [], index)) == 0
    ensures Sections(0) == 0
  {
  }

  /** The start of the period from which the modifier is selected. */
  function SelectionStart(nTime: nat): int {
    nTime / MODIFIER_INTERVAL * MODIFIER_INTERVAL - Sections(ROUNDS)
  }

  /** All sections together end with the last whole interval before `nTime`. */
  lemma StartMeans(nTime: nat)
    ensures var end := SelectionStart(nTime) + Sections(ROUNDS);
            end % MODIFIER_INTERVAL == 0 && end <= nTime < end + MODIFIER_INTERVAL
  {
    hide Sections;
  }

  /** A modifier put together from one pick a round among the recent blocks of the chain. */
  ghost predicate NewModifier(chain: seq<StakeBlock>, index: BlockMap, hasher: (Hash, nat) -> nat, prev: nat,
                              start: int, cs: seq<Candidate>, picks: seq<nat>, r: Outcome)
  {
    && SortedBy(cs, Earlier) && multiset(cs) == multiset(Recent(chain, start)) && cs != []
    && (forall i, j :: 0 <= i < j < |cs| ==> cs[i].0 < cs[j].0 || (cs[i].0 == cs[j].0 && cs[i].1 <= cs[j].1))
    && |picks| == (if |cs| < ROUNDS then |cs| else ROUNDS)
    && RoundsOk(cs, picks, start, prev, index, hasher)
    && r == Modifier(Value(PickedBits(cs, picks, index)), true)
    && Bits(r.value, |picks|) == PickedBits(cs, picks, index)
  }

  /** The stake modifier of the block after `chain`. It fails only if no block of the chain generated a modifier;
      within an interval it is inherited; otherwise it is put together from the rounds' picks. */
  method ComputeNextStakeModifier(chain: seq<StakeBlock>, index: BlockMap, hasher: (Hash, nat) -> nat)
    returns (r: Outcome, ghost cs: seq<Candidate>, ghost picks: seq<nat>)
    ensures chain == [] ==> r == Modifier(0, true)
    ensures chain != [] && LastModifier(chain).None? ==> r == Failed
    ensures chain != [] && LastModifier(chain).Some? ==>
              var (prev, time) := LastModifier(chain).value;
              var now := chain[|chain| - 1].nTime;
              if time / MODIFIER_INTERVAL >= now / MODIFIER_INTERVAL then r == Modifier(prev, false)
              else OnChain(chain, index) ==> NewModifier(chain, index, hasher, prev, SelectionStart(now), cs, picks, r)
  {
    hide OnChain, Recent, RoundsOk, SortedBy, Value, PickedBits, AllIndexed, HashesOf, LastModifier, Bits, Sections;
    cs, picks := [], [];
    if chain == [] {
      return Modifier(0, true), cs, picks;
    }
    var last := GetLastStakeModifier(chain);
    if last.None? {
      return Failed, cs, picks;
    }
    var (prev, time) := last.value;
    var now := chain[|chain| - 1].nTime;
    if time / MODIFIER_INTERVAL >= now / MODIFIER_INTERVAL {
      return Modifier(prev, false), cs, picks;
    }
    var interval := GetSelectionInterval();
    var start := now / MODIFIER_INTERVAL * MODIFIER_INTERVAL - interval;
    var candidates := GatherCandidates(chain, start);
    cs := candidates;
    EarliestFirst(cs);
    if OnChain(chain, index) {
      CandidatesIndexed(chain, index, start, cs);
      TipIsRecent(chain, start);
    }
    var value;
    value, picks := SelectRounds(candidates, start, prev, index, hasher);
    if value.None? {
      return Failed, cs, picks;
    }
    if OnChain(chain, index) {
      PickedAreBits(chain, index, start, cs, picks);
      BitsOfValue(PickedBits(cs, picks, index));
    }
    r := Modifier(value.value, true);
  }

  lemma EarliestFirst(cs: seq<Candidate>)
    requires SortedBy(cs, Earlier)
    ensures forall i, j :: 0 <= i < j < |cs| ==> cs[i].0 < cs[j].0 || (cs[i].0 == cs[j].0 && cs[i].1 <= cs[j].1)
  {
    forall i, j | 0 <= i < j < |cs| ensures cs[i].0 < cs[j].0 || (cs[i].0 == cs[j].0 && cs[i].1 <= cs[j].1) {
      assert Earlier(cs[i], cs[j]);
    }
  }

  lemma TipIsRecent(chain: seq<StakeBlock>, start: int)
    requires chain != [] && start <= chain[|chain| - 1].nTime
    ensures Recent(chain, start) != []
  {
  }

  lemma PickedAreBits(chain: seq<StakeBlock>, index: BlockMap, start: int, cs: seq<Candidate>, picks: seq<nat>)
    requires OnChain(chain, index) && multiset(cs) == multiset(Recent(chain, start))
    ensures forall i :: 0 <= i < |picks| ==> PickedBits(cs, picks, index)[i] < 2
  {
    var recent := Recent(chain, start);
    hide Recent;
    SameMembers(cs, recent);
    forall p: nat | p < |cs| ensures BitAt(cs, p, index) < 2 {
      assert cs[p] in cs;
      var j :| 0 <= j < |recent| && recent[j] == cs[p];
      assert recent[j] == CandidateOf(chain[|chain| - |recent| + j]);
    }
  }
}
