/**
 The tables of the address manager and the consistency that its own debug check
 tests: addresses and ids are inverse, random positions agree, reference counts are
 the numbers of "new" buckets, every "tried" entry is in its one bucket, counters are exact.
 */
module AddrTables {
  import opened Ledger
  import opened Numbers

  const TRIED_BUCKET_COUNT := 64
  const TRIED_BUCKET_SIZE := 64
  const NEW_BUCKET_COUNT := 256
  const NEW_BUCKET_SIZE := 64
  const NEW_BUCKETS_PER_ADDRESS := 4
  const TRIED_ENTRIES_INSPECT_ON_EVICT := 4
  const HORIZON_DAYS := 30
  const RETRIES := 3
  const MAX_FAILURES := 10
  const MIN_FAIL_DAYS := 7
  const GETADDR_MAX_PCT := 23
  const GETADDR_MAX := 2500

  type NetAddr = nat

  /** A peer's address with what it announces; two addresses are the same entry if they share the ip. */
  datatype Address = Address(ip: NetAddr, port: nat, nServices: bv64, nTime: int)

  datatype Info = Info(addr: Address, source: NetAddr, nLastSuccess: int, nLastTry: int, nAttempts: int,
                       nRefCount: int, fInTried: bool, nRandomPos: int)

  type Infos = map<nat, Info>

  /** Bucket choices of a given secret key: hashes of the entry's address, port and source. */
  datatype Hashing = Hashing(toTried: (NetAddr, nat) -> nat, toNew: (NetAddr, NetAddr) -> nat)

  function TriedBucket(k: Hashing, i: Info): (b: nat)
    ensures b < TRIED_BUCKET_COUNT
  {
    k.toTried(i.addr.ip, i.addr.port) % TRIED_BUCKET_COUNT
  }

  function NewBucket(k: Hashing, i: Info, source: NetAddr): (b: nat)
    ensures b < NEW_BUCKET_COUNT
  {
    k.toNew(i.addr.ip, source) % NEW_BUCKET_COUNT
  }

  predicate IsTerrible(i: Info, now: int) {
    if i.nLastTry != 0 && i.nLastTry >= now - 60 then false
    else if i.addr.nTime > now + 10 * 60 then true
    else if i.addr.nTime == 0 || now - i.addr.nTime > HORIZON_DAYS * 24 * 60 * 60 then true
    else if i.nLastSuccess == 0 && i.nAttempts >= RETRIES then true
    else now - i.nLastSuccess > MIN_FAIL_DAYS * 24 * 60 * 60 && i.nAttempts >= MAX_FAILURES
  }

  /** When an entry is not worth keeping: never within a minute of the last try; otherwise if its time is over ten
      minutes ahead, unknown or over a month back, if it never succeeded in three attempts, or not for a week in ten. */
  lemma TerribleMeans(i: Info, now: int)
    ensures i.nLastTry != 0 && now - i.nLastTry <= 60 ==> !IsTerrible(i, now)
    ensures i.nLastTry == 0 || now - i.nLastTry > 60 ==>
              (IsTerrible(i, now) <==>
                 || i.addr.nTime - now > 600 || i.addr.nTime == 0 || now - i.addr.nTime > 2_592_000
                 || (i.nLastSuccess == 0 && i.nAttempts >= 3)
                 || (now - i.nLastSuccess > 604_800 && i.nAttempts >= 10))
  {
  }

  // ---------- consistency ----------

  ghost predicate AddrsMatch(m: Infos, a: map<NetAddr, nat>) {
    && (forall n :: n in m ==> m[n].addr.ip in a && a[m[n].addr.ip] == n)
    && (forall ip :: ip in a ==> a[ip] in m && m[a[ip]].addr.ip == ip)
  }

  ghost predicate RandomMatches(m: Infos, v: seq<nat>) {
    && (forall n :: n in m ==> 0 <= m[n].nRandomPos < |v| && v[m[n].nRandomPos] == n)
    && (forall i :: 0 <= i < |v| ==> v[i] in m && m[v[i]].nRandomPos == i)
  }

  /** The "new" buckets that hold an id. */
  ghost function Holding(vvNew: seq<set<nat>>, n: nat): set<nat> {
    set b | 0 <= b < |vvNew| && n in vvNew[b]
  }

  /** Reference count of one entry; that of a pending id runs one ahead. */
  ghost predicate RefOk(i: Info, held: nat) {
    if i.fInTried then i.nRefCount == 0 && held == 0
    else i.nRefCount == held && 1 <= held <= NEW_BUCKETS_PER_ADDRESS
  }

  ghost predicate RefsMatch(m: Infos, vvNew: seq<set<nat>>, pending: Option<nat>) {
    && (forall n :: n in m ==> RefOk(m[n], |Holding(vvNew, n)| + if pending == Some(n) then 1 else 0))
    && (forall b, n :: 0 <= b < |vvNew| && n in vvNew[b] ==> n in m)
  }

  ghost predicate TriedMatches(k: Hashing, m: Infos, vvTried: seq<seq<nat>>) {
    && (forall b, i :: 0 <= b < |vvTried| && 0 <= i < |vvTried[b]| ==> TriedAt(k, m, vvTried[b][i], b))
    && (forall b, i, j :: 0 <= b < |vvTried| && 0 <= i < j < |vvTried[b]| ==> vvTried[b][i] != vvTried[b][j])
    && (forall n :: n in m && m[n].fInTried && TriedBucket(k, m[n]) < |vvTried| ==> n in vvTried[TriedBucket(k, m[n])])
  }

  ghost predicate TriedAt(k: Hashing, m: Infos, n: nat, b: nat) {
    n in m && m[n].fInTried && TriedBucket(k, m[n]) == b
  }

  ghost function TriedIds(m: Infos): set<nat> {
    set n | n in m && m[n].fInTried
  }

  ghost function NewIds(m: Infos): set<nat> {
    set n | n in m && !m[n].fInTried
  }

  ghost predicate SizesOk(vvTried: seq<seq<nat>>, vvNew: seq<set<nat>>) {
    && |vvTried| == TRIED_BUCKET_COUNT && |vvNew| == NEW_BUCKET_COUNT
    && (forall b :: 0 <= b < |vvTried| ==> |vvTried[b]| <= TRIED_BUCKET_SIZE)
    && (forall b :: 0 <= b < |vvNew| ==> |vvNew[b]| <= NEW_BUCKET_SIZE)
  }

  // ---------- entries that changed in ways the tables do not see ----------

  /** The same entries apart from times, services, attempts and random positions. */
  ghost predicate SameCore(m: Infos, m': Infos) {
    m'.Keys == m.Keys && forall n :: n in m ==> CoreOf(m'[n]) == CoreOf(m[n])
  }

  ghost function CoreOf(i: Info): (NetAddr, nat, NetAddr, int, bool) {
    (i.addr.ip, i.addr.port, i.source, i.nRefCount, i.fInTried)
  }

  lemma SameCoreAddrs(m: Infos, m': Infos, a: map<NetAddr, nat>)
    requires SameCore(m, m') && AddrsMatch(m, a)
    ensures AddrsMatch(m', a)
  {
    forall n | n in m' ensures m'[n].addr.ip in a && a[m'[n].addr.ip] == n {
      assert CoreOf(m'[n]) == CoreOf(m[n]);
    }
    forall ip | ip in a ensures a[ip] in m' && m'[a[ip]].addr.ip == ip {
      assert CoreOf(m'[a[ip]]) == CoreOf(m[a[ip]]);
    }
  }

  lemma SameCoreRefs(m: Infos, m': Infos, vvNew: seq<set<nat>>, pending: Option<nat>)
    requires SameCore(m, m') && RefsMatch(m, vvNew, pending)
    ensures RefsMatch(m', vvNew, pending)
  {
    forall n | n in m' ensures RefOk(m'[n], |Holding(vvNew, n)| + if pending == Some(n) then 1 else 0) {
      assert CoreOf(m'[n]) == CoreOf(m[n]);
    }
  }

  lemma SameCoreTried(k: Hashing, m: Infos, m': Infos, vvTried: seq<seq<nat>>)
    requires SameCore(m, m') && TriedMatches(k, m, vvTried)
    ensures TriedMatches(k, m', vvTried)
  {
    forall n, b | TriedAt(k, m, n, b) ensures TriedAt(k, m', n, b) {
      assert CoreOf(m'[n]) == CoreOf(m[n]);
    }
    forall n | n in m' && m'[n].fInTried && TriedBucket(k, m'[n]) < |vvTried|
      ensures n in vvTried[TriedBucket(k, m'[n])]
    {
      assert CoreOf(m'[n]) == CoreOf(m[n]);
    }
  }

  lemma SameCoreCounts(m: Infos, m': Infos)
    requires SameCore(m, m')
    ensures TriedIds(m') == TriedIds(m) && NewIds(m') == NewIds(m)
  {
    forall n | n in m ensures m'[n].fInTried == m[n].fInTried {
      assert CoreOf(m'[n]) == CoreOf(m[n]);
    }
  }

  /** All tables together. */
  datatype Tables = Tables(nIdCount: nat, mapInfo: Infos, mapAddr: map<NetAddr, nat>, vRandom: seq<nat>,
                           nTried: int, vvTried: seq<seq<nat>>, nNew: int, vvNew: seq<set<nat>>)

  ghost predicate Consistent(k: Hashing, t: Tables, pending: Option<nat>) {
    && (forall n :: n in t.mapInfo ==> n < t.nIdCount)
    && AddrsMatch(t.mapInfo, t.mapAddr)
    && RandomMatches(t.mapInfo, t.vRandom)
    && RefsMatch(t.mapInfo, t.vvNew, pending)
    && TriedMatches(k, t.mapInfo, t.vvTried)
    && SizesOk(t.vvTried, t.vvNew)
    && t.nTried == |TriedIds(t.mapInfo)| && t.nNew == |NewIds(t.mapInfo)|
  }

  /** Changes that the tables do not see keep them consistent. */
  lemma SameCoreConsistent(k: Hashing, t: Tables, m: Infos, pending: Option<nat>)
    requires Consistent(k, t, pending) && SameCore(t.mapInfo, m) && RandomMatches(m, t.vRandom)
    ensures Consistent(k, t.(mapInfo := m), pending)
  {
    hide AddrsMatch, RandomMatches, RefsMatch, TriedMatches, SizesOk, TriedIds, NewIds;
    SameCoreAddrs(t.mapInfo, m, t.mapAddr);
    SameCoreRefs(t.mapInfo, m, t.vvNew, pending);
    SameCoreTried(k, t.mapInfo, m, t.vvTried);
    SameCoreCounts(t.mapInfo, m);
  }

  /** An update of one entry that the tables do not see. */
  lemma UpdateConsistent(k: Hashing, t: Tables, n: nat, i: Info, pending: Option<nat>)
    requires Consistent(k, t, pending) && n in t.mapInfo
    requires CoreOf(i) == CoreOf(t.mapInfo[n]) && i.nRandomPos == t.mapInfo[n].nRandomPos
    ensures Consistent(k, t.(mapInfo := t.mapInfo[n := i]), pending)
  {
    hide AddrsMatch, RefsMatch, TriedMatches, SizesOk;
    SameCoreConsistent(k, t, t.mapInfo[n := i], pending);
  }

  // ---------- random positions ----------

  /** Two positions of the random order exchanged, and the entries told so. */
  ghost function Swapped(m: Infos, v: seq<nat>, p: nat, q: nat): (Infos, seq<nat>)
    requires p < |v| && q < |v| && v[p] in m && v[q] in m
  {
    (m[v[p] := m[v[p]].(nRandomPos := q)][v[q] := m[v[q]].(nRandomPos := p)], v[p := v[q]][q := v[p]])
  }

  lemma SwappedMatches(m: Infos, v: seq<nat>, p: nat, q: nat)
    requires RandomMatches(m, v) && p < |v| && q < |v| && p != q
    ensures RandomMatches(Swapped(m, v, p, q).0, Swapped(m, v, p, q).1) && SameCore(m, Swapped(m, v, p, q).0)
    ensures multiset(Swapped(m, v, p, q).1) == multiset(v)
  {
    var (m', v') := Swapped(m, v, p, q);
    assert v[p] != v[q];
    forall n | n in m' ensures 0 <= m'[n].nRandomPos < |v'| && v'[m'[n].nRandomPos] == n {
      assert m[n].nRandomPos < |v|;
    }
    SwapMultiset(v, p, q);
  }

  lemma SwapMultiset(v: seq<nat>, p: nat, q: nat)
    requires p < |v| && q < |v|
    ensures multiset(v[p := v[q]][q := v[p]]) == multiset(v)
  {
  }

  // ---------- removing an entry ----------

  /** Drops the entry at the last random position from maps and random order. */
  lemma RemoveLast(m: Infos, v: seq<nat>, a: map<NetAddr, nat>, n: nat)
    requires RandomMatches(m, v) && AddrsMatch(m, a) && n in m && v != [] && v[|v| - 1] == n
    ensures RandomMatches(m - {n}, v[..|v| - 1]) && AddrsMatch(m - {n}, a - {m[n].addr.ip})
  {
  }

  lemma HoldingChange(vvNew: seq<set<nat>>, b: nat, s: set<nat>, n: nat)
    requires b < |vvNew|
    ensures n in s <==> b in Holding(vvNew[b := s], n)
    ensures Holding(vvNew[b := s], n) - {b} == Holding(vvNew, n) - {b}
    ensures (n in s <==> n in vvNew[b]) ==> Holding(vvNew[b := s], n) == Holding(vvNew, n)
    ensures n in s && n !in vvNew[b] ==> |Holding(vvNew[b := s], n)| == |Holding(vvNew, n)| + 1
    ensures n !in s && n in vvNew[b] ==> |Holding(vvNew[b := s], n)| == |Holding(vvNew, n)| - 1
  {
    HoldingElsewhere(vvNew, b, s, n);
    hide Holding;
    var h, h' := Holding(vvNew, n), Holding(vvNew[b := s], n);
    if n in s && n !in vvNew[b] {
      assert h' == h + {b};
    } else if n !in s && n in vvNew[b] {
      assert h == h' + {b};
    } else {
      assert h == h';
    }
  }

  lemma HoldingElsewhere(vvNew: seq<set<nat>>, b: nat, s: set<nat>, n: nat)
    requires b < |vvNew|
    ensures (n in s <==> b in Holding(vvNew[b := s], n)) && (n in vvNew[b] <==> b in Holding(vvNew, n))
    ensures Holding(vvNew[b := s], n) - {b} == Holding(vvNew, n) - {b}
  {
  }

  // ---------- new buckets ----------

  /** A reference count that changes along with the bucket holding the entry. */
  lemma RefsAfterDrop(m: Infos, vvNew: seq<set<nat>>, pending: Option<nat>, b: nat, n: nat)
    requires RefsMatch(m, vvNew, pending) && b < |vvNew| && n in vvNew[b] && pending != Some(n)
    ensures n in m && !m[n].fInTried && m[n].nRefCount >= 1
    ensures m[n].nRefCount > 1 ==>
            RefsMatch(m[n := m[n].(nRefCount := m[n].nRefCount - 1)], vvNew[b := vvNew[b] - {n}], pending)
    ensures m[n].nRefCount == 1 ==> RefsMatch(m - {n}, vvNew[b := vvNew[b] - {n}], pending)
  {
    var after := vvNew[b := vvNew[b] - {n}];
    HoldingChange(vvNew, b, vvNew[b] - {n}, n);
    assert b in Holding(vvNew, n);
    forall x | x in m && x != n ensures RefOk(m[x], |Holding(after, x)| + if pending == Some(x) then 1 else 0) {
      HoldingChange(vvNew, b, vvNew[b] - {n}, x);
    }
    if m[n].nRefCount == 1 {
      assert Holding(after, n) == {};
      forall c, x | 0 <= c < |after| && x in after[c] ensures x in m - {n} {
        assert c in Holding(after, x);
      }
    }
  }

  /** The pending entry arrives in its bucket. */
  lemma RefsAfterInsert(m: Infos, vvNew: seq<set<nat>>, b: nat, n: nat)
    requires RefsMatch(m, vvNew, Some(n)) && b < |vvNew| && n !in vvNew[b] && n in m
    ensures RefsMatch(m, vvNew[b := vvNew[b] + {n}], None)
  {
    var after := vvNew[b := vvNew[b] + {n}];
    forall x | x in m ensures RefOk(m[x], |Holding(after, x)|) {
      HoldingChange(vvNew, b, vvNew[b] + {n}, x);
    }
  }

  /** An entry becomes pending for one more bucket. */
  lemma RefsAfterIncrement(m: Infos, vvNew: seq<set<nat>>, n: nat)
    requires RefsMatch(m, vvNew, None) && n in m && !m[n].fInTried && m[n].nRefCount < NEW_BUCKETS_PER_ADDRESS
    ensures RefsMatch(m[n := m[n].(nRefCount := m[n].nRefCount + 1)], vvNew, Some(n))
  {
  }

  lemma UnheldIsUnknown(m: Infos, vvNew: seq<set<nat>>, n: nat)
    requires RefsMatch(m, vvNew, None) && n !in m
    ensures Holding(vvNew, n) == {}
  {
  }

  /** A created entry is pending for its first bucket. */
  lemma RefsAfterCreate(m: Infos, vvNew: seq<set<nat>>, n: nat, i: Info)
    requires RefsMatch(m, vvNew, None) && n !in m && i.nRefCount == 1 && !i.fInTried
    ensures RefsMatch(m[n := i], vvNew, Some(n))
  {
    UnheldIsUnknown(m, vvNew, n);
  }

  lemma CreateMatches(m: Infos, a: map<NetAddr, nat>, v: seq<nat>, n: nat, i: Info)
    requires AddrsMatch(m, a) && RandomMatches(m, v) && n !in m && i.addr.ip !in a && i.nRandomPos == |v|
    ensures AddrsMatch(m[n := i], a[i.addr.ip := n]) && RandomMatches(m[n := i], v + [n])
  {
  }

  lemma CreateTried(k: Hashing, m: Infos, vvTried: seq<seq<nat>>, n: nat, i: Info)
    requires TriedMatches(k, m, vvTried) && n !in m && !i.fInTried
    ensures TriedMatches(k, m[n := i], vvTried)
    ensures TriedIds(m[n := i]) == TriedIds(m) && NewIds(m[n := i]) == NewIds(m) + {n} && n !in NewIds(m)
  {
    forall x, b | TriedAt(k, m, x, b) ensures TriedAt(k, m[n := i], x, b) {
    }
  }

  lemma RemoveTried(k: Hashing, m: Infos, vvTried: seq<seq<nat>>, n: nat)
    requires TriedMatches(k, m, vvTried) && n in m && !m[n].fInTried
    ensures TriedMatches(k, m - {n}, vvTried)
    ensures TriedIds(m - {n}) == TriedIds(m) && NewIds(m - {n}) == NewIds(m) - {n} && n in NewIds(m)
  {
    forall x, b | TriedAt(k, m, x, b) ensures TriedAt(k, m - {n}, x, b) {
    }
  }

  lemma RecountTried(k: Hashing, m: Infos, vvTried: seq<seq<nat>>, n: nat, i: Info)
    requires TriedMatches(k, m, vvTried) && n in m && i.fInTried == m[n].fInTried && i.addr == m[n].addr
    ensures TriedMatches(k, m[n := i], vvTried)
    ensures TriedIds(m[n := i]) == TriedIds(m) && NewIds(m[n := i]) == NewIds(m)
  {
    forall x, b | TriedAt(k, m, x, b) ensures TriedAt(k, m[n := i], x, b) {
    }
  }

  lemma BucketSizes(vvTried: seq<seq<nat>>, vvNew: seq<set<nat>>, b: nat, n: nat)
    requires SizesOk(vvTried, vvNew) && b < |vvNew|
    ensures SizesOk(vvTried, vvNew[b := vvNew[b] - {n}])
    ensures n in vvNew[b] ==> |vvNew[b] - {n}| < NEW_BUCKET_SIZE
    ensures |vvNew[b]| < NEW_BUCKET_SIZE ==> SizesOk(vvTried, vvNew[b := vvNew[b] + {n}])
  {
    assert vvNew[b] - {n} <= vvNew[b];
    SubsetSize(vvNew[b] - {n}, vvNew[b]);
    if n in vvNew[b] {
      assert vvNew[b] == vvNew[b] - {n} + {n};
    }
  }

  // ---------- tried buckets ----------

  /** Every bucket without one id. */
  ghost function TakenOut(vvNew: seq<set<nat>>, n: nat): (out: seq<set<nat>>)
    ensures |out| == |vvNew| && forall b :: 0 <= b < |vvNew| ==> out[b] == vvNew[b] - {n}
  {
    seq(|vvNew|, b requires 0 <= b < |vvNew| => vvNew[b] - {n})
  }

  lemma RefsAfterTakeOut(m: Infos, vvNew: seq<set<nat>>, n: nat, i: Info)
    requires RefsMatch(m, vvNew, None) && n in m && !m[n].fInTried && i.fInTried && i.nRefCount == 0
    ensures RefsMatch(m[n := i], TakenOut(vvNew, n), None)
  {
    var out := TakenOut(vvNew, n);
    assert Holding(out, n) == {};
    forall x | x in m && x != n ensures Holding(out, x) == Holding(vvNew, x) {
    }
  }

  /** A tried entry goes back to one new bucket. */
  lemma RefsAfterEvict(m: Infos, vvNew: seq<set<nat>>, o: nat, i: Info, b: nat)
    requires RefsMatch(m, vvNew, None) && o in m && m[o].fInTried && !i.fInTried && i.nRefCount == 1 && b < |vvNew|
    ensures o !in vvNew[b] && RefsMatch(m[o := i], vvNew[b := vvNew[b] + {o}], None)
  {
    var after := vvNew[b := vvNew[b] + {o}];
    assert |Holding(vvNew, o)| == 0 && b !in Holding(vvNew, o);
    forall x | x in m ensures x != o ==> Holding(after, x) == Holding(vvNew, x) {
      HoldingChange(vvNew, b, vvNew[b] + {o}, x);
    }
    HoldingChange(vvNew, b, vvNew[b] + {o}, o);
  }

  /** A bucket shuffled in place. */
  lemma PermutedTried(k: Hashing, m: Infos, vvTried: seq<seq<nat>>, b: nat, s: seq<nat>)
    requires TriedMatches(k, m, vvTried) && b < |vvTried| && multiset(s) == multiset(vvTried[b])
    ensures TriedMatches(k, m, vvTried[b := s]) && |s| == |vvTried[b]|
  {
    var old' := vvTried[b];
    assert |multiset(s)| == |s| && |multiset(old')| == |old'|;
    forall x ensures x in s <==> x in old' {
      assert x in multiset(s) <==> x in multiset(old');
    }
    forall i | 0 <= i < |s| ensures TriedAt(k, m, s[i], b) {
      assert s[i] in old';
    }
    DistinctOnce(old');
    forall i, j | 0 <= i < j < |s| ensures s[i] != s[j] {
      TwiceCounts(s, i, j);
    }
  }

  lemma TwiceCounts(s: seq<nat>, i: nat, j: nat)
    requires i < j < |s|
    ensures s[i] == s[j] ==> multiset(s)[s[i]] >= 2
  {
    assert s == s[..i] + [s[i]] + s[i + 1..j] + [s[j]] + s[j + 1..];
  }

  lemma {:induction false} DistinctOnce(s: seq<nat>)
    requires forall i, j :: 0 <= i < j < |s| ==> s[i] != s[j]
    ensures forall x :: multiset(s)[x] <= 1
  {
    if s != [] {
      var l := |s| - 1;
      assert s == s[..l] + [s[l]];
      DistinctOnce(s[..l]);
      assert s[l] !in s[..l];
    }
  }

  lemma TriedAppend(k: Hashing, m: Infos, vvTried: seq<seq<nat>>, n: nat, i: Info)
    requires TriedMatches(k, m, vvTried) && n in m && !m[n].fInTried && i.fInTried && TriedBucket(k, i) < |vvTried|
    ensures TriedMatches(k, m[n := i], vvTried[TriedBucket(k, i) := vvTried[TriedBucket(k, i)] + [n]])
    ensures TriedIds(m[n := i]) == TriedIds(m) + {n} && NewIds(m[n := i]) == NewIds(m) - {n}
  {
    var b := TriedBucket(k, i);
    var after := vvTried[b := vvTried[b] + [n]];
    forall x, c | TriedAt(k, m, x, c) ensures TriedAt(k, m[n := i], x, c) && x != n {
    }
    assert TriedAt(k, m[n := i], n, b);
    var m' := m[n := i];
    forall x | x in m' && m'[x].fInTried && TriedBucket(k, m'[x]) < |after| ensures x in after[TriedBucket(k, m'[x])] {
      if x == n {
        assert after[b][|after[b]| - 1] == n;
      }
    }
  }

  /** One entry takes the place of another that leaves. */
  lemma TriedReplace(k: Hashing, m: Infos, vvTried: seq<seq<nat>>, n: nat, i: Info, b: nat, p: nat, j: Info)
    requires TriedMatches(k, m, vvTried) && n in m && !m[n].fInTried && i.fInTried
    requires b == TriedBucket(k, i) < |vvTried| && p < |vvTried[b]| && !j.fInTried
    ensures vvTried[b][p] in m && vvTried[b][p] != n
    ensures var o := vvTried[b][p]; var m' := m[n := i][o := j]; var s: seq<nat> := vvTried[b][p := n];
            && TriedMatches(k, m', vvTried[b := s])
            && TriedIds(m') == TriedIds(m) + {n} - {o} && NewIds(m') == NewIds(m) - {n} + {o}
            && o in TriedIds(m) && n in NewIds(m)
  {
    var o := vvTried[b][p];
    var m' := m[n := i][o := j];
    var s: seq<nat> := vvTried[b][p := n];
    var after := vvTried[b := s];
    assert TriedAt(k, m, o, b);
    forall x, c | TriedAt(k, m, x, c) && x != o ensures TriedAt(k, m', x, c) && x != n {
    }
    assert TriedAt(k, m', n, b);
    forall c, q | 0 <= c < |after| && 0 <= q < |after[c]| ensures TriedAt(k, m', after[c][q], c) {
      assert TriedAt(k, m, vvTried[c][q], c);
    }
    forall x | x in m' && m'[x].fInTried && TriedBucket(k, m'[x]) < |after| ensures x in after[TriedBucket(k, m'[x])] {
      if x == n {
        assert s[p] == n;
      } else {
        ReplaceKeeps(vvTried[TriedBucket(k, m[x])], vvTried[b], p, n, x);
      }
    }
  }

  lemma ReplaceKeeps(in_: seq<nat>, s: seq<nat>, p: nat, n: nat, x: nat)
    requires x in in_ && p < |s| && x != s[p]
    ensures in_ == s ==> x in s[p := n]
  {
    var q :| 0 <= q < |in_| && in_[q] == x;
    if in_ == s {
      assert s[p := n][q] == x;
    }
  }

  // ---------- whole-table steps ----------

  /** Maps and random order do not see changes of counts and flags. */
  lemma MarkMatches(m: Infos, a: map<NetAddr, nat>, v: seq<nat>, n: nat, i: Info)
    requires AddrsMatch(m, a) && RandomMatches(m, v) && n in m
    requires i.addr == m[n].addr && i.nRandomPos == m[n].nRandomPos
    ensures AddrsMatch(m[n := i], a) && RandomMatches(m[n := i], v)
  {
  }

  lemma SwappedConsistent(k: Hashing, t: Tables, p: nat, q: nat, pending: Option<nat>)
    requires Consistent(k, t, pending) && p < |t.vRandom| && q < |t.vRandom| && p != q
    ensures t.vRandom[p] in t.mapInfo && t.vRandom[q] in t.mapInfo
    ensures var (m, v) := Swapped(t.mapInfo, t.vRandom, p, q);
            Consistent(k, t.(mapInfo := m, vRandom := v), pending) && SameCore(t.mapInfo, m)
  {
    SwappedMatches(t.mapInfo, t.vRandom, p, q);
    var (m, v) := Swapped(t.mapInfo, t.vRandom, p, q);
    hide AddrsMatch, RandomMatches, RefsMatch, TriedMatches, SizesOk, TriedIds, NewIds;
    SameCoreAddrs(t.mapInfo, m, t.mapAddr);
    SameCoreRefs(t.mapInfo, m, t.vvNew, pending);
    SameCoreTried(k, t.mapInfo, m, t.vvTried);
    SameCoreCounts(t.mapInfo, m);
  }

  /** One more reference fewer to an entry that keeps others. */
  lemma UnrefConsistent(k: Hashing, t: Tables, b: nat, x: nat, pending: Option<nat>)
    requires Consistent(k, t, pending) && b < |t.vvNew| && x in t.vvNew[b] && pending != Some(x)
    ensures x in t.mapInfo && !t.mapInfo[x].fInTried && t.mapInfo[x].nRefCount >= 1
    ensures t.mapInfo[x].nRefCount > 1 ==>
            Consistent(k, t.(mapInfo := t.mapInfo[x := t.mapInfo[x].(nRefCount := t.mapInfo[x].nRefCount - 1)],
                             vvNew := t.vvNew[b := t.vvNew[b] - {x}]), pending)
  {
    hide TriedMatches, TriedIds, NewIds, AddrsMatch, RandomMatches, RefsMatch;
    RefsAfterDrop(t.mapInfo, t.vvNew, pending, b, x);
    BucketSizes(t.vvTried, t.vvNew, b, x);
    hide SizesOk;
    var i := t.mapInfo[x].(nRefCount := t.mapInfo[x].nRefCount - 1);
    RecountTried(k, t.mapInfo, t.vvTried, x, i);
    MarkMatches(t.mapInfo, t.mapAddr, t.vRandom, x, i);
  }

  /** An entry that loses its only reference is forgotten; it sits at the end of the random order. */
  lemma ForgetConsistent(k: Hashing, t: Tables, b: nat, x: nat, pending: Option<nat>)
    requires Consistent(k, t, pending) && b < |t.vvNew| && x in t.vvNew[b] && pending != Some(x)
    requires x in t.mapInfo && t.mapInfo[x].nRefCount == 1
    requires t.vRandom != [] && t.vRandom[|t.vRandom| - 1] == x
    ensures Consistent(k, t.(mapInfo := t.mapInfo - {x}, mapAddr := t.mapAddr - {t.mapInfo[x].addr.ip},
                             vRandom := t.vRandom[..|t.vRandom| - 1], nNew := t.nNew - 1,
                             vvNew := t.vvNew[b := t.vvNew[b] - {x}]), pending)
  {
    hide TriedMatches, SizesOk, AddrsMatch, RandomMatches;
    RefsAfterDrop(t.mapInfo, t.vvNew, pending, b, x);
    hide RefsMatch;
    BucketSizes(t.vvTried, t.vvNew, b, x);
    RemoveTried(k, t.mapInfo, t.vvTried, x);
    RemoveLast(t.mapInfo, t.vRandom, t.mapAddr, x);
  }

  lemma InsertConsistent(k: Hashing, t: Tables, b: nat, n: nat)
    requires Consistent(k, t, Some(n)) && n in t.mapInfo && b < |t.vvNew|
    requires n !in t.vvNew[b] && |t.vvNew[b]| < NEW_BUCKET_SIZE
    ensures Consistent(k, t.(vvNew := t.vvNew[b := t.vvNew[b] + {n}]), None)
  {
    hide TriedMatches, SizesOk, AddrsMatch, RandomMatches, RefsMatch;
    RefsAfterInsert(t.mapInfo, t.vvNew, b, n);
    BucketSizes(t.vvTried, t.vvNew, b, n);
  }

  lemma IncrementConsistent(k: Hashing, t: Tables, n: nat)
    requires Consistent(k, t, None) && n in t.mapInfo && !t.mapInfo[n].fInTried
    requires t.mapInfo[n].nRefCount < NEW_BUCKETS_PER_ADDRESS
    ensures Consistent(k, t.(mapInfo := t.mapInfo[n := t.mapInfo[n].(nRefCount := t.mapInfo[n].nRefCount + 1)]),
              Some(n))
  {
    hide TriedMatches, SizesOk, RefsMatch, TriedIds, NewIds, AddrsMatch, RandomMatches;
    var i := t.mapInfo[n].(nRefCount := t.mapInfo[n].nRefCount + 1);
    RefsAfterIncrement(t.mapInfo, t.vvNew, n);
    RecountTried(k, t.mapInfo, t.vvTried, n, i);
    MarkMatches(t.mapInfo, t.mapAddr, t.vRandom, n, i);
  }

  lemma CreateConsistent(k: Hashing, t: Tables, i: Info)
    requires Consistent(k, t, None) && i.addr.ip !in t.mapAddr && i.nRandomPos == |t.vRandom|
    requires i.nRefCount == 1 && !i.fInTried
    ensures Consistent(k, t.(nIdCount := t.nIdCount + 1, mapInfo := t.mapInfo[t.nIdCount := i],
                             mapAddr := t.mapAddr[i.addr.ip := t.nIdCount], vRandom := t.vRandom + [t.nIdCount],
                             nNew := t.nNew + 1), Some(t.nIdCount))
  {
    var n := t.nIdCount;
    assert n !in t.mapInfo;
    hide TriedMatches, SizesOk, RefsMatch, AddrsMatch, RandomMatches;
    RefsAfterCreate(t.mapInfo, t.vvNew, n, i);
    CreateMatches(t.mapInfo, t.mapAddr, t.vRandom, n, i);
    CreateTried(k, t.mapInfo, t.vvTried, n, i);
  }

  // ---------- promotion to a tried bucket ----------

  ghost function Promoted(i: Info): Info {
    i.(nRefCount := 0, fInTried := true)
  }

  ghost function Demoted(i: Info): Info {
    i.(nRefCount := 1, fInTried := false)
  }

  /** The tables after an entry moved to a tried bucket that has room. */
  ghost function PromotedInto(k: Hashing, t: Tables, n: nat): Tables
    requires n in t.mapInfo && |t.vvTried| == TRIED_BUCKET_COUNT
  {
    var b := TriedBucket(k, t.mapInfo[n]);
    t.(mapInfo := t.mapInfo[n := Promoted(t.mapInfo[n])], vvNew := TakenOut(t.vvNew, n),
       vvTried := t.vvTried[b := t.vvTried[b] + [n]], nTried := t.nTried + 1, nNew := t.nNew - 1)
  }

  lemma PromoteConsistent(k: Hashing, t: Tables, n: nat)
    requires Consistent(k, t, None) && n in t.mapInfo && !t.mapInfo[n].fInTried
    requires |t.vvTried[TriedBucket(k, t.mapInfo[n])]| < TRIED_BUCKET_SIZE
    ensures Consistent(k, PromotedInto(k, t, n), None)
  {
    hide RefsMatch, AddrsMatch, RandomMatches, TriedMatches, TakenOut;
    var i := Promoted(t.mapInfo[n]);
    RefsAfterTakeOut(t.mapInfo, t.vvNew, n, i);
    TriedAppend(k, t.mapInfo, t.vvTried, n, i);
    TakenOutSizes(t.vvTried, t.vvNew, n);
    MarkMatches(t.mapInfo, t.mapAddr, t.vRandom, n, i);
    assert n in NewIds(t.mapInfo) && n !in TriedIds(t.mapInfo);
  }

  lemma TakenOutSizes(vvTried: seq<seq<nat>>, vvNew: seq<set<nat>>, n: nat)
    requires SizesOk(vvTried, vvNew)
    ensures SizesOk(vvTried, TakenOut(vvNew, n))
    ensures forall b :: 0 <= b < |vvNew| && n in vvNew[b] ==> |TakenOut(vvNew, n)[b]| < NEW_BUCKET_SIZE
  {
    forall b | 0 <= b < |vvNew|
      ensures |TakenOut(vvNew, n)[b]| <= |vvNew[b]| && (n in vvNew[b] ==> |TakenOut(vvNew, n)[b]| < |vvNew[b]|)
    {
      assert TakenOut(vvNew, n)[b] == vvNew[b] - {n};
    }
  }

  /** The tables after an entry took the place of the one at position `p` of its full, shuffled bucket `s`. */
  ghost function Exchanged(k: Hashing, t: Tables, n: nat, s: seq<nat>, p: nat, c: nat): Tables
    requires n in t.mapInfo && |t.vvTried| == TRIED_BUCKET_COUNT
    requires p < |s| && s[p] in t.mapInfo && c < |t.vvNew|
  {
    var b := TriedBucket(k, t.mapInfo[n]);
    var s': seq<nat> := s[p := n];
    t.(mapInfo := t.mapInfo[n := Promoted(t.mapInfo[n])][s[p] := Demoted(t.mapInfo[s[p]])],
       vvNew := TakenOut(t.vvNew, n)[c := TakenOut(t.vvNew, n)[c] + {s[p]}],
       vvTried := t.vvTried[b := s'])
  }

  lemma ExchangeConsistent(k: Hashing, t: Tables, n: nat, s: seq<nat>, p: nat, c: nat)
    requires Consistent(k, t, None) && n in t.mapInfo && !t.mapInfo[n].fInTried
    requires multiset(s) == multiset(t.vvTried[TriedBucket(k, t.mapInfo[n])])
    requires p < |s| && s[p] in t.mapInfo && c < |t.vvNew| && |TakenOut(t.vvNew, n)[c]| < NEW_BUCKET_SIZE
    ensures Consistent(k, Exchanged(k, t, n, s, p, c), None)
  {
    hide RefsMatch, AddrsMatch, RandomMatches, TriedMatches, TakenOut;
    var b := TriedBucket(k, t.mapInfo[n]);
    var o, i := s[p], Promoted(t.mapInfo[n]);
    var j := Demoted(t.mapInfo[o]);
    var shuffled := t.vvTried[b := s];
    PermutedTried(k, t.mapInfo, t.vvTried, b, s);
    TriedReplace(k, t.mapInfo, shuffled, n, i, b, p, j);
    var t' := Exchanged(k, t, n, s, p, c);
    var s': seq<nat> := shuffled[b][p := n];
    assert shuffled[b := s'] == t'.vvTried;
    RefsAfterTakeOut(t.mapInfo, t.vvNew, n, i);
    RefsAfterEvict(t.mapInfo[n := i], TakenOut(t.vvNew, n), o, j, c);
    TakenOutSizes(t.vvTried, t.vvNew, n);
    BucketSizes(t.vvTried, TakenOut(t.vvNew, n), c, o);
    MarkMatches(t.mapInfo, t.mapAddr, t.vRandom, n, i);
    MarkMatches(t.mapInfo[n := i], t.mapAddr, t.vRandom, o, j);
    assert TriedIds(t'.mapInfo) == TriedIds(t.mapInfo) + {n} - {o};
    assert NewIds(t'.mapInfo) == NewIds(t.mapInfo) - {n} + {o};
    assert n !in TriedIds(t.mapInfo) && o !in NewIds(t.mapInfo);
  }

  // ---------- what a caller reads off consistent tables ----------

  lemma PositionOf(k: Hashing, t: Tables, n: nat, pending: Option<nat>)
    requires Consistent(k, t, pending) && n in t.mapInfo
    ensures 0 <= t.mapInfo[n].nRandomPos < |t.vRandom| && t.vRandom[t.mapInfo[n].nRandomPos] == n
    ensures t.vRandom[|t.vRandom| - 1] in t.mapInfo
  {
  }

  lemma HeldKnown(k: Hashing, t: Tables, b: nat, pending: Option<nat>)
    requires Consistent(k, t, pending) && b < |t.vvNew|
    ensures forall n :: n in t.vvNew[b] ==> n in t.mapInfo && !t.mapInfo[n].fInTried
    ensures |t.vvNew[b]| <= NEW_BUCKET_SIZE
  {
    forall n | n in t.vvNew[b] ensures n in t.mapInfo && !t.mapInfo[n].fInTried {
      assert b in Holding(t.vvNew, n);
      assert RefOk(t.mapInfo[n], |Holding(t.vvNew, n)| + if pending == Some(n) then 1 else 0);
    }
  }

  lemma AddressKnown(k: Hashing, t: Tables, ip: NetAddr, pending: Option<nat>)
    requires Consistent(k, t, pending)
    ensures ip in t.mapAddr ==> t.mapAddr[ip] in t.mapInfo && t.mapInfo[t.mapAddr[ip]].addr.ip == ip
    ensures |t.vvTried| == TRIED_BUCKET_COUNT && |t.vvNew| == NEW_BUCKET_COUNT
  {
  }

  lemma TriedKnown(k: Hashing, t: Tables, b: nat)
    requires Consistent(k, t, None) && b < |t.vvTried|
    ensures forall x :: x in t.vvTried[b] ==> x in t.mapInfo && t.mapInfo[x].fInTried
    ensures |t.vvTried[b]| <= TRIED_BUCKET_SIZE
  {
    forall x | x in t.vvTried[b] ensures x in t.mapInfo && t.mapInfo[x].fInTried {
      var i :| 0 <= i < |t.vvTried[b]| && t.vvTried[b][i] == x;
      assert TriedAt(k, t.mapInfo, t.vvTried[b][i], b);
    }
  }

  lemma TakenOutRoom(k: Hashing, t: Tables, n: nat, b: nat)
    requires Consistent(k, t, None) && b < |t.vvNew| && n in t.vvNew[b]
    ensures |TakenOut(t.vvNew, n)[b]| < NEW_BUCKET_SIZE
  {
    TakenOutSizes(t.vvTried, t.vvNew, n);
  }

  /** How many buckets from `b` on hold an id. */
  ghost function HeldFrom(vvNew: seq<set<nat>>, n: nat, b: nat): nat
    decreases |vvNew| - b
  {
    if b >= |vvNew| then 0 else HeldFrom(vvNew, n, b + 1) + if n in vvNew[b] then 1 else 0
  }

  lemma HeldStep(vvNew: seq<set<nat>>, n: nat, b: nat)
    ensures b < |vvNew| ==> HeldFrom(vvNew, n, b + 1) == HeldFrom(vvNew, n, b) - if n in vvNew[b] then 1 else 0
    ensures b >= |vvNew| ==> HeldFrom(vvNew, n, b) == 0
  {
  }

  lemma {:induction false} HeldFromCounts(vvNew: seq<set<nat>>, n: nat, b: nat)
    ensures HeldFrom(vvNew, n, b) == |set c | b <= c < |vvNew| && n in vvNew[c]|
    decreases |vvNew| - b
  {
    var all := set c | b <= c < |vvNew| && n in vvNew[c];
    if b >= |vvNew| {
      assert all == {};
    } else {
      HeldFromCounts(vvNew, n, b + 1);
      var rest := set c | b + 1 <= c < |vvNew| && n in vvNew[c];
      assert all == rest + if n in vvNew[b] then {b} else {};
    }
  }

  lemma CountOf(k: Hashing, t: Tables, n: nat)
    requires Consistent(k, t, None) && n in t.mapInfo && !t.mapInfo[n].fInTried
    ensures t.mapInfo[n].nRefCount == HeldFrom(t.vvNew, n, 0)
  {
    HeldFromCounts(t.vvNew, n, 0);
    assert Holding(t.vvNew, n) == set c | 0 <= c < |t.vvNew| && n in t.vvNew[c];
  }
}
