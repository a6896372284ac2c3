/** Rebuilding the address manager from a stream. */
module AddrRestore {
  import opened Ledger
  import opened AddrTables
  import opened Ordering
  import opened AddrStore
  import opened Numbers
  import AddrMan

  /** The stream holds as many items as it announces, and no more buckets than the manager has. */
  predicate WellFormed(s: Stream) {
    s.nNew == |s.news| && s.nTried == |s.trieds| && s.nUBuckets == |s.buckets| <= NEW_BUCKET_COUNT
  }

  // ---------- the tables up to renumbering ----------

  /** An entry as it comes back: memory-only fields are rebuilt, the last try is forgotten. */
  ghost predicate SameStored(i: Info, i': Info) {
    && i'.addr == i.addr && i'.source == i.source && i'.nLastSuccess == i.nLastSuccess && i'.nAttempts == i.nAttempts
    && i'.nLastTry == 0
  }

  /** `t'` is `t` with id `ids[i]` renamed to `i`: every entry, address, flag, count and bucket membership is there. */
  ghost predicate Renumbered(t: Tables, t': Tables, ids: seq<nat>) {
    && (forall x :: x in t.mapInfo <==> x in ids) && (forall i, j :: 0 <= i < j < |ids| ==> ids[i] != ids[j])
    && t'.nIdCount == |ids| && (forall i: nat :: i in t'.mapInfo <==> i < |ids|)
    && t'.nNew == t.nNew && t'.nTried == t.nTried
    && (forall i :: 0 <= i < |ids| ==> SameMember(t.mapInfo[ids[i]], t'.mapInfo[i]))
    && t'.mapAddr.Keys == t.mapAddr.Keys
    && (forall ip :: ip in t'.mapAddr ==> t'.mapAddr[ip] < |ids| && ids[t'.mapAddr[ip]] == t.mapAddr[ip])
    && |t'.vvNew| == |t.vvNew| && |t'.vvTried| == |t.vvTried|
    && (forall b, i :: 0 <= b < |t.vvNew| && 0 <= i < |ids| ==> (i in t'.vvNew[b] <==> ids[i] in t.vvNew[b]))
    && (forall b, i :: 0 <= b < |t.vvTried| && 0 <= i < |ids| ==> (i in t'.vvTried[b] <==> ids[i] in t.vvTried[b]))
  }

  ghost predicate SameMember(i: Info, i': Info) {
    SameStored(i, i') && i'.fInTried == i.fInTried && i'.nRefCount == i.nRefCount
  }

  // ---------- entries ----------

  /** The first `n` entries are loaded under their new ids. */
  ghost predicate Loaded(t: Tables, ids: seq<nat>, n: nat, m: Infos, a: map<NetAddr, nat>, v: seq<nat>) {
    && n <= |ids| && |v| == n && (forall i: nat :: i in m <==> i < n)
    && (forall i :: 0 <= i < n ==> v[i] == i && LoadedAt(t, ids, m, i))
    && AddrsMatch(m, a)
  }

  ghost predicate LoadedAt(t: Tables, ids: seq<nat>, m: Infos, i: nat) {
    i < |ids| && ids[i] in t.mapInfo && i in m && SameStored(t.mapInfo[ids[i]], m[i]) && m[i].nRandomPos == i
  }

  lemma LoadStep(t: Tables, ids: seq<nat>, n: nat, cut: nat, m: Infos, a: map<NetAddr, nat>, v: seq<nat>, i: Info)
    requires Loaded(t, ids, n, m, a, v) && n < |ids| && ids[n] in t.mapInfo && AddrsMatch(t.mapInfo, t.mapAddr)
    requires forall j :: 0 <= j < n ==> ids[j] != ids[n]
    requires SameStored(t.mapInfo[ids[n]], i) && i.nRandomPos == n
    requires Flagged(m, n, cut) && i.fInTried == (cut <= n) && i.nRefCount == 0
    ensures Loaded(t, ids, n + 1, m[n := i], a[i.addr.ip := n], v + [n])
    ensures Flagged(m[n := i], n + 1, cut)
  {
    forall ip | ip in a ensures a[ip] < n && ids[a[ip]] in t.mapInfo && ip == t.mapInfo[ids[a[ip]]].addr.ip {
      assert LoadedAt(t, ids, m, a[ip]);
    }
    LoadAddr(m, a, n, i);
    var m', v' := m[n := i], v + [n];
    forall j | 0 <= j < n + 1 ensures v'[j] == j && LoadedAt(t, ids, m', j) {
      assert j < n ==> v[j] == j && LoadedAt(t, ids, m, j);
    }
  }

  lemma LoadAddr(m: Infos, a: map<NetAddr, nat>, n: nat, i: Info)
    requires AddrsMatch(m, a) && n !in m && i.addr.ip !in a
    ensures AddrsMatch(m[n := i], a[i.addr.ip := n])
  {
  }

  /** Entries from `cut` on are tried, those before are new, and none has references yet. */
  ghost predicate Flagged(m: Infos, n: nat, cut: nat) {
    forall i :: i in m && i < n ==> m[i].fInTried == (cut <= i) && m[i].nRefCount == 0
  }

  /** The stream was written from consistent tables. */
  ghost predicate Fits(k: Hashing, t: Tables, s: Stream, newIds: seq<nat>, triedIds: seq<nat>) {
    Consistent(k, t, None) && Written(k, t, s, newIds, triedIds)
  }

  lemma FitIds(k: Hashing, t: Tables, s: Stream, newIds: seq<nat>, triedIds: seq<nat>)
    requires Fits(k, t, s, newIds, triedIds)
    ensures var ids := newIds + triedIds;
            && (forall i, j :: 0 <= i < j < |ids| ==> ids[i] != ids[j])
            && (forall x :: x in t.mapInfo <==> x in ids)
            && (forall i :: 0 <= i < |ids| ==> ids[i] in t.mapInfo && t.mapInfo[ids[i]].fInTried == (|newIds| <= i))
            && |s.news| == |newIds| && |s.trieds| == |triedIds| && s.nUBuckets == NEW_BUCKET_COUNT
               && AddrsMatch(t.mapInfo, t.mapAddr)
  {
    hide RandomMatches, RefsMatch, TriedMatches, SizesOk;
    var ids := newIds + triedIds;
    forall i | 0 <= i < |ids| ensures ids[i] in t.mapInfo && t.mapInfo[ids[i]].fInTried == (|newIds| <= i) {
      if i < |newIds| {
        assert newIds[i] in NewIds(t.mapInfo);
      } else {
        assert triedIds[i - |newIds|] in TriedIds(t.mapInfo);
      }
    }
    forall x | x in t.mapInfo ensures x in ids {
      assert x in NewIds(t.mapInfo) || x in TriedIds(t.mapInfo);
    }
  }

  lemma FitSizes(k: Hashing, t: Tables, s: Stream, newIds: seq<nat>, triedIds: seq<nat>)
    requires Fits(k, t, s, newIds, triedIds)
    ensures |s.news| == |newIds| && |s.trieds| == |triedIds| && s.nUBuckets == NEW_BUCKET_COUNT
  {
    hide Consistent, Enumerates, Indexes;
  }

  lemma NewStored(k: Hashing, t: Tables, s: Stream, newIds: seq<nat>, triedIds: seq<nat>, n: nat)
    requires Fits(k, t, s, newIds, triedIds) && n < |s.news|
    ensures n < |newIds| && newIds[n] in t.mapInfo && s.news[n] == EntryOf(t.mapInfo[newIds[n]])
  {
    hide Consistent, Enumerates, Indexes;
  }

  lemma TriedStored(k: Hashing, t: Tables, s: Stream, newIds: seq<nat>, triedIds: seq<nat>, n: nat)
    requires Fits(k, t, s, newIds, triedIds) && n < |s.trieds|
    ensures n < |triedIds| && triedIds[n] in t.mapInfo && s.trieds[n] == EntryOf(t.mapInfo[triedIds[n]])
  {
    hide Consistent, Enumerates, Indexes;
  }

  /** Reads the new entries; streams with another bucket count have them put into their own source's bucket. */
  method ReadNew(s: Stream, ghost t: Tables, ghost newIds: seq<nat>, ghost triedIds: seq<nat>)
    returns (m: Infos, a: map<NetAddr, nat>, v: seq<nat>, vvNew: seq<set<nat>>)
    requires WellFormed(s)
    ensures |vvNew| == NEW_BUCKET_COUNT
    ensures s.nUBuckets == NEW_BUCKET_COUNT ==> forall b :: 0 <= b < |vvNew| ==> vvNew[b] == {}
    ensures Fits(s.nKey, t, s, newIds, triedIds) ==>
              Loaded(t, newIds + triedIds, |newIds|, m, a, v) && Flagged(m, |newIds|, |newIds|)
  {
    hide Fits, Loaded, Flagged, AddrsMatch;
    m, a, v := map[], map[], [];
    vvNew := seq(NEW_BUCKET_COUNT, _ => {});
    ghost var fit := Fits(s.nKey, t, s, newIds, triedIds);
    ghost var ids := newIds + triedIds;
    if fit {
      FitIds(s.nKey, t, s, newIds, triedIds);
    }
    LoadNone(t, ids, |newIds|);
    for n := 0 to |s.news|
      invariant |vvNew| == NEW_BUCKET_COUNT && |v| == n
      invariant s.nUBuckets == NEW_BUCKET_COUNT ==> forall b :: 0 <= b < |vvNew| ==> vvNew[b] == {}
      invariant fit ==> Loaded(t, ids, n, m, a, v) && Flagged(m, n, |newIds|)
    {
      var i := Blank(s.news[n]).(nRandomPos := |v|);
      if fit {
        NewStored(s.nKey, t, s, newIds, triedIds, n);
        LoadStep(t, ids, n, |newIds|, m, a, v, i);
      }
      m := m[n := i];
      a := a[i.addr.ip := n];
      v := v + [n];
      if s.nUBuckets != NEW_BUCKET_COUNT {
        var b := NewBucket(s.nKey, i, i.source);
        vvNew := vvNew[b := vvNew[b] + {n}];
        m := m[n := i.(nRefCount := i.nRefCount + 1)];
      }
    }
  }

  lemma LoadNone(t: Tables, ids: seq<nat>, cut: nat)
    ensures Loaded(t, ids, 0, map[], map[], []) && Flagged(map[], 0, cut)
  {
  }

  // ---------- tried buckets ----------

  /** Bucket `b` lists, in ascending order, the tried ids below `n` that belong to it. */
  ghost predicate BucketLoaded(k: Hashing, m: Infos, cut: nat, n: nat, bucket: seq<nat>, b: nat) {
    && Increasing(bucket)
    && (forall x :: x in bucket ==> cut <= x < n && x in m && TriedBucket(k, m[x]) == b)
    && (forall x :: cut <= x < n && x in m && TriedBucket(k, m[x]) == b ==> x in bucket)
  }

  ghost predicate TriedLoaded(k: Hashing, m: Infos, cut: nat, n: nat, vvTried: seq<seq<nat>>) {
    |vvTried| == TRIED_BUCKET_COUNT && forall b :: 0 <= b < |vvTried| ==> BucketLoaded(k, m, cut, n, vvTried[b], b)
  }

  lemma TriedStep(k: Hashing, m: Infos, cut: nat, n: nat, vvTried: seq<seq<nat>>, i: Info)
    requires TriedLoaded(k, m, cut, n, vvTried) && cut <= n && n !in m
    ensures var b := TriedBucket(k, i);
            TriedLoaded(k, m[n := i], cut, n + 1, vvTried[b := vvTried[b] + [n]])
  {
    var c := TriedBucket(k, i);
    var after := vvTried[c := vvTried[c] + [n]];
    forall b | 0 <= b < |after| ensures BucketLoaded(k, m[n := i], cut, n + 1, after[b], b) {
      assert BucketLoaded(k, m, cut, n, vvTried[b], b);
      BucketStep(k, m, cut, n, vvTried[b], b, i);
    }
  }

  lemma BucketStep(k: Hashing, m: Infos, cut: nat, n: nat, bucket: seq<nat>, b: nat, i: Info)
    requires BucketLoaded(k, m, cut, n, bucket, b) && cut <= n && n !in m
    ensures BucketLoaded(k, m[n := i], cut, n + 1, if TriedBucket(k, i) == b then bucket + [n] else bucket, b)
  {
    hide TriedBucket;
    assert forall j :: 0 <= j < |bucket| ==> bucket[j] in bucket;
    assert forall x :: x in bucket + [n] <==> x in bucket || x == n;
  }

  /** Distinct members of a list are no more than the list is long. */
  lemma DistinctInto(s: seq<nat>, target: seq<nat>)
    requires (forall i, j :: 0 <= i < j < |s| ==> s[i] != s[j]) && forall i :: 0 <= i < |s| ==> s[i] in target
    ensures |s| <= |target|
  {
    DistinctCount(s);
    ElementsCount(target);
    SubsetSize(Elements(s), Elements(target));
  }

  lemma {:induction false} ElementsCount(s: seq<nat>)
    ensures |Elements(s)| <= |s|
  {
    if s != [] {
      var l := |s| - 1;
      var front, last := s[..l], s[l];
      ElementsCount(front);
      assert s == front + [last];
      assert Elements(s) == Elements(front) + {last};
    }
  }

  /** The bucket of the next tried entry has room: what it holds so far came from the same bucket of before. */
  lemma RoomLeft(k: Hashing, t: Tables, ids: seq<nat>, cut: nat, n: nat, m: Infos, bucket: seq<nat>, b: nat)
    requires TriedMatches(k, t.mapInfo, t.vvTried) && b < |t.vvTried| && cut <= n < |ids|
    requires forall i, j :: 0 <= i < j < |ids| ==> ids[i] != ids[j]
    requires forall i :: 0 <= i < n ==> LoadedAt(t, ids, m, i)
    requires forall i :: cut <= i < |ids| ==> ids[i] in t.mapInfo && t.mapInfo[ids[i]].fInTried
    requires BucketLoaded(k, m, cut, n, bucket, b) && TriedBucket(k, t.mapInfo[ids[n]]) == b
    ensures |bucket| < |t.vvTried[b]|
  {
    var old' := seq(|bucket| + 1, j requires 0 <= j <= |bucket| => if j < |bucket| then IdAt(ids, bucket[j])
      else ids[n]);
    forall j | 0 <= j < |old'| ensures old'[j] in t.vvTried[b] {
      if j < |bucket| {
        assert bucket[j] in bucket;
        assert LoadedAt(t, ids, m, bucket[j]);
      }
    }
    forall i, j | 0 <= i < j < |old'| ensures old'[i] != old'[j] {
      assert bucket[i] in bucket && (j < |bucket| ==> bucket[j] in bucket);
    }
    DistinctInto(old', t.vvTried[b]);
  }

  ghost function IdAt(ids: seq<nat>, i: nat): nat {
    if i < |ids| then ids[i] else 0
  }

  /** Entries below `n` are loaded and the tried ones among them are in their buckets. */
  ghost predicate Stage(k: Hashing, t: Tables, newIds: seq<nat>, triedIds: seq<nat>, n: nat,
                        m: Infos, a: map<NetAddr, nat>, v: seq<nat>, vvTried: seq<seq<nat>>)
  {
    Loaded(t, newIds + triedIds, n, m, a, v) && Flagged(m, n, |newIds|) && TriedLoaded(k, m, |newIds|, n, vvTried)
  }

  /** One tried entry read from a stream that fits is kept and loaded. */
  lemma TriedRead(k: Hashing, t: Tables, s: Stream, newIds: seq<nat>, triedIds: seq<nat>, n: nat,
                  m: Infos, a: map<NetAddr, nat>, v: seq<nat>, vvTried: seq<seq<nat>>)
    requires Fits(k, t, s, newIds, triedIds) && n < |s.trieds|
    requires |vvTried| == TRIED_BUCKET_COUNT
    requires Stage(k, t, newIds, triedIds, |newIds| + n, m, a, v, vvTried)
    ensures var at := |newIds| + n; var i := Blank(s.trieds[n]).(nRandomPos := |v|, fInTried := true);
            var b := TriedBucket(k, i);
            && |vvTried[b]| < TRIED_BUCKET_SIZE
            && Stage(k, t, newIds, triedIds, at + 1, m[at := i], a[i.addr.ip := at], v + [at],
                 vvTried[b := vvTried[b] + [at]])
  {
    hide Enumerates, Written, RefsMatch, RandomMatches, AddrsMatch, TriedMatches, NewIds, TriedIds, Flagged;
    var ids, at := newIds + triedIds, |newIds| + n;
    var i := Blank(s.trieds[n]).(nRandomPos := |v|, fInTried := true);
    var b := TriedBucket(k, i);
    FitIds(k, t, s, newIds, triedIds);
    TriedStored(k, t, s, newIds, triedIds, n);
    assert |t.vvTried| == TRIED_BUCKET_COUNT && |t.vvTried[b]| <= TRIED_BUCKET_SIZE;
    assert TriedMatches(k, t.mapInfo, t.vvTried);
    hide Consistent;
    assert ids[at] == triedIds[n];
    LoadStep(t, ids, at, |newIds|, m, a, v, i);
    RoomLeft(k, t, ids, |newIds|, at, m, vvTried[b], b);
    hide BucketLoaded;
    TriedStep(k, m, |newIds|, at, vvTried, i);
  }

  /** Reads the tried entries into the buckets that have room for them. */
  method ReadTried(s: Stream, m0: Infos, a0: map<NetAddr, nat>, v0: seq<nat>,
                   ghost t: Tables, ghost newIds: seq<nat>, ghost triedIds: seq<nat>)
    returns (m: Infos, a: map<NetAddr, nat>, v: seq<nat>, vvTried: seq<seq<nat>>, nIdCount: nat, nLost: nat)
    requires WellFormed(s)
    requires Fits(s.nKey, t, s, newIds, triedIds) ==>
               Loaded(t, newIds + triedIds, |newIds|, m0, a0, v0) && Flagged(m0, |newIds|, |newIds|)
    ensures |vvTried| == TRIED_BUCKET_COUNT && forall b :: 0 <= b < |vvTried| ==> |vvTried[b]| <= TRIED_BUCKET_SIZE
    ensures Fits(s.nKey, t, s, newIds, triedIds) ==>
              && Stage(s.nKey, t, newIds, triedIds, |newIds| + |triedIds|, m, a, v, vvTried)
              && nIdCount == |newIds| + |triedIds| && nLost == 0
  {
    hide Fits, Loaded, Flagged, TriedLoaded, AddrsMatch;
    m, a, v := m0, a0, v0;
    vvTried := seq(TRIED_BUCKET_COUNT, _ => []);
    nIdCount, nLost := |s.news|, 0;
    ghost var fit := Fits(s.nKey, t, s, newIds, triedIds);
    TriedNone(s.nKey, m, |newIds|, vvTried);
    if fit {
      FitSizes(s.nKey, t, s, newIds, triedIds);
    }
    assert fit ==> Stage(s.nKey, t, newIds, triedIds, |newIds|, m, a, v, vvTried);
    hide Stage;
    for n := 0 to |s.trieds|
      invariant |vvTried| == TRIED_BUCKET_COUNT && forall b :: 0 <= b < |vvTried| ==> |vvTried[b]| <= TRIED_BUCKET_SIZE
      invariant fit ==> nIdCount == |newIds| + n && nLost == 0
      invariant fit ==> Stage(s.nKey, t, newIds, triedIds, |newIds| + n, m, a, v, vvTried)
    {
      if fit {
        TriedRead(s.nKey, t, s, newIds, triedIds, n, m, a, v, vvTried);
      }
      var i := Blank(s.trieds[n]);
      var b := TriedBucket(s.nKey, i);
      if |vvTried[b]| < TRIED_BUCKET_SIZE {
        i := i.(nRandomPos := |v|, fInTried := true);
        v := v + [nIdCount];
        m := m[nIdCount := i];
        a := a[i.addr.ip := nIdCount];
        vvTried := vvTried[b := vvTried[b] + [nIdCount]];
        nIdCount := nIdCount + 1;
      } else {
        nLost := nLost + 1;
      }
    }
  }

  lemma TriedNone(k: Hashing, m: Infos, cut: nat, vvTried: seq<seq<nat>>)
    requires |vvTried| == TRIED_BUCKET_COUNT && forall b :: 0 <= b < |vvTried| ==> vvTried[b] == []
    ensures TriedLoaded(k, m, cut, cut, vvTried)
  {
  }

  // ---------- new buckets ----------

  /** Entries listed among the first `j` indexes have one reference more. */
  ghost predicate Bumped(m: Infos, m': Infos, ixs: seq<nat>, j: nat) {
    && j <= |ixs| && m'.Keys == m.Keys
    && forall i :: i in m ==> m'[i] == if i in ixs[..j] then m[i].(nRefCount := m[i].nRefCount + 1) else m[i]
  }

  /** The listed entries are distinct, known and not at their limit. */
  ghost predicate Room(m: Infos, ixs: seq<nat>) {
    && (forall i, j :: 0 <= i < j < |ixs| ==> ixs[i] != ixs[j])
    && (forall j :: 0 <= j < |ixs| ==> ixs[j] in m && m[ixs[j]].nRefCount < NEW_BUCKETS_PER_ADDRESS)
  }

  lemma BumpStep(m: Infos, m': Infos, ixs: seq<nat>, j: nat)
    requires Bumped(m, m', ixs, j) && Room(m, ixs) && j < |ixs|
    ensures var x := ixs[j];
            && x in m' && m'[x].nRefCount < NEW_BUCKETS_PER_ADDRESS
            && Bumped(m, m'[x := m'[x].(nRefCount := m'[x].nRefCount + 1)], ixs, j + 1)
            && Elements(ixs[..j + 1]) == Elements(ixs[..j]) + {x}
  {
    assert ixs[..j + 1] == ixs[..j] + [ixs[j]];
    assert ixs[j] !in ixs[..j];
  }

  /** Reads one bucket's indexes; an index nobody has makes a blank entry. */
  method ReadBucket(ixs: seq<nat>, keep: bool, m0: Infos, vNew0: set<nat>) returns (m: Infos, vNew: set<nat>)
    ensures !keep ==> vNew == vNew0
    ensures keep && vNew0 == {} && Room(m0, ixs) ==> Bumped(m0, m, ixs, |ixs|) && vNew == Elements(ixs)
  {
    m, vNew := m0, vNew0;
    ghost var fit := keep && vNew0 == {} && Room(m0, ixs);
    hide Bumped, Room, Elements;
    BumpNone(m0, ixs);
    for n := 0 to |ixs|
      invariant !keep ==> vNew == vNew0
      invariant fit ==> Bumped(m0, m, ixs, n) && vNew == Elements(ixs[..n])
    {
      if fit {
        BumpStep(m0, m, ixs, n);
      }
      var nIndex := ixs[n];
      if nIndex !in m {
        m := m[nIndex := Blank(Entry(Address(0, 0, 1, 100000000), 0, 0, 0))];
      }
      if keep && m[nIndex].nRefCount < NEW_BUCKETS_PER_ADDRESS {
        m := m[nIndex := m[nIndex].(nRefCount := m[nIndex].nRefCount + 1)];
        vNew := vNew + {nIndex};
      }
    }
    assert ixs[..|ixs|] == ixs;
  }

  lemma BumpNone(m: Infos, ixs: seq<nat>)
    ensures Bumped(m, m, ixs, 0) && Elements(ixs[..0]) == {}
  {
  }

  /** References from the buckets below `b` are counted and those buckets are filled. */
  ghost predicate Counting(t: Tables, ids: seq<nat>, m0: Infos, m: Infos, vvNew: seq<set<nat>>, b: nat) {
    && |vvNew| == |t.vvNew| && b <= |vvNew| && m.Keys == m0.Keys && (forall i: nat :: i in m0 <==> i < |ids|)
    && (forall i :: 0 <= i < |ids| ==> CountedAt(t, ids, m0, m, i, b))
    && (forall c :: b <= c < |vvNew| ==> vvNew[c] == {})
    && (forall c :: 0 <= c < b ==> FilledAt(t, ids, vvNew[c], c))
  }

  ghost predicate CountedAt(t: Tables, ids: seq<nat>, m0: Infos, m: Infos, i: nat, b: nat) {
    && i < |ids| && i in m && i in m0
    && m[i] == m0[i].(nRefCount := HeldFrom(t.vvNew, ids[i], 0) - HeldFrom(t.vvNew, ids[i], b))
  }

  ghost predicate FilledAt(t: Tables, ids: seq<nat>, bucket: set<nat>, c: nat) {
    && c < |t.vvNew| && (forall i :: i in bucket ==> i < |ids|)
    && (forall i :: 0 <= i < |ids| ==> (i in bucket <==> ids[i] in t.vvNew[c]))
  }

  /** No id is held by more than four buckets. */
  ghost predicate HeldFew(t: Tables, ids: seq<nat>) {
    forall i :: 0 <= i < |ids| ==> HeldFrom(t.vvNew, ids[i], 0) <= NEW_BUCKETS_PER_ADDRESS
  }

  /** The listed indexes are exactly those of a bucket's ids, among all ids. */
  ghost predicate ListsBucket(t: Tables, ids: seq<nat>, ixs: seq<nat>, b: nat) {
    b < |t.vvNew| && Indexes(ids, ixs, t.vvNew[b])
  }

  lemma CountingRoom(t: Tables, ids: seq<nat>, m0: Infos, m: Infos, vvNew: seq<set<nat>>, b: nat, ixs: seq<nat>)
    requires Counting(t, ids, m0, m, vvNew, b) && b < |t.vvNew| && ListsBucket(t, ids, ixs, b) && HeldFew(t, ids)
    ensures Room(m, ixs)
  {
    hide HeldFrom;
    forall j | 0 <= j < |ixs| ensures ixs[j] in m && m[ixs[j]].nRefCount < NEW_BUCKETS_PER_ADDRESS {
      assert CountedAt(t, ids, m0, m, ixs[j], b);
      HeldStep(t.vvNew, ids[ixs[j]], b);
    }
  }

  lemma CountingStep(t: Tables, ids: seq<nat>, m0: Infos, m: Infos, m': Infos, vvNew: seq<set<nat>>, b: nat,
                     ixs: seq<nat>)
    requires Counting(t, ids, m0, m, vvNew, b) && b < |t.vvNew| && ListsBucket(t, ids, ixs, b)
             && Bumped(m, m', ixs, |ixs|)
    ensures Counting(t, ids, m0, m', vvNew[b := Elements(ixs)], b + 1)
  {
    hide HeldFrom;
    assert ixs[..|ixs|] == ixs;
    var next := b + 1;
    forall i | 0 <= i < |ids| ensures CountedAt(t, ids, m0, m', i, next) {
      assert CountedAt(t, ids, m0, m, i, b);
      HeldStep(t.vvNew, ids[i], b);
      ListedMember(t, ids, ixs, b, i);
    }
    forall i | 0 <= i < |ids| ensures i in Elements(ixs) <==> ids[i] in t.vvNew[b] {
      ListedMember(t, ids, ixs, b, i);
    }
    var after := vvNew[b := Elements(ixs)];
    forall c | 0 <= c < b + 1 ensures FilledAt(t, ids, after[c], c) {
      assert c < b ==> FilledAt(t, ids, vvNew[c], c);
    }
  }

  lemma ListedMember(t: Tables, ids: seq<nat>, ixs: seq<nat>, b: nat, i: nat)
    requires ListsBucket(t, ids, ixs, b) && i < |ids|
    ensures i in ixs <==> ids[i] in t.vvNew[b]
  {
  }

  /** Reads all buckets. */
  method ReadBuckets(s: Stream, m0: Infos, vvNew0: seq<set<nat>>,
                     ghost t: Tables, ghost newIds: seq<nat>, ghost triedIds: seq<nat>)
    returns (m: Infos, vvNew: seq<set<nat>>)
    requires WellFormed(s) && |vvNew0| == NEW_BUCKET_COUNT
    ensures Fits(s.nKey, t, s, newIds, triedIds) && Counting(t, newIds + triedIds, m0, m0, vvNew0, 0) ==>
              Counting(t, newIds + triedIds, m0, m, vvNew, |t.vvNew|)
  {
    hide Fits, Counting, Bumped, Room, ListsBucket, HeldFew, Elements;
    m, vvNew := m0, vvNew0;
    ghost var ids := newIds + triedIds;
    ghost var fit := Fits(s.nKey, t, s, newIds, triedIds) && Counting(t, ids, m0, m0, vvNew0, 0);
    if fit {
      FitBuckets(s.nKey, t, s, newIds, triedIds);
    }
    for b := 0 to |s.buckets|
      invariant |vvNew| == NEW_BUCKET_COUNT && (fit ==> Counting(t, ids, m0, m, vvNew, b))
    {
      if fit {
        BeforeBucket(s.nKey, t, s, newIds, triedIds, m0, m, vvNew, b);
      }
      var m', vNew := ReadBucket(s.buckets[b], s.nUBuckets == NEW_BUCKET_COUNT, m, vvNew[b]);
      if fit {
        CountingStep(t, ids, m0, m, m', vvNew, b, s.buckets[b]);
      }
      m := m';
      vvNew := vvNew[b := vNew];
    }
  }

  lemma BeforeBucket(k: Hashing, t: Tables, s: Stream, newIds: seq<nat>, triedIds: seq<nat>,
                     m0: Infos, m: Infos, vvNew: seq<set<nat>>, b: nat)
    requires Fits(k, t, s, newIds, triedIds) && b < |s.buckets| && b < |vvNew| && b < |t.vvNew|
    requires Counting(t, newIds + triedIds, m0, m, vvNew, b)
    ensures vvNew[b] == {} && Room(m, s.buckets[b]) && ListsBucket(t, newIds + triedIds, s.buckets[b], b)
  {
    hide Fits, Counting, Room, ListsBucket, HeldFew;
    FitBuckets(k, t, s, newIds, triedIds);
    FitListed(k, t, s, newIds, triedIds, b);
    FitFew(k, t, s, newIds, triedIds);
    CountingEmpty(t, newIds + triedIds, m0, m, vvNew, b);
    CountingRoom(t, newIds + triedIds, m0, m, vvNew, b, s.buckets[b]);
  }

  lemma CountingEmpty(t: Tables, ids: seq<nat>, m0: Infos, m: Infos, vvNew: seq<set<nat>>, b: nat)
    requires Counting(t, ids, m0, m, vvNew, b) && b < |vvNew|
    ensures vvNew[b] == {}
  {
  }

  lemma FitBuckets(k: Hashing, t: Tables, s: Stream, newIds: seq<nat>, triedIds: seq<nat>)
    requires Fits(k, t, s, newIds, triedIds)
    ensures |s.buckets| == |t.vvNew| == s.nUBuckets == NEW_BUCKET_COUNT
  {
    hide Enumerates, Indexes;
    AddressKnown(k, t, 0, None);
  }

  lemma FitListed(k: Hashing, t: Tables, s: Stream, newIds: seq<nat>, triedIds: seq<nat>, b: nat)
    requires Fits(k, t, s, newIds, triedIds) && b < |s.buckets|
    ensures ListsBucket(t, newIds + triedIds, s.buckets[b], b)
  {
    hide Enumerates, Indexes, Consistent;
    FitBuckets(k, t, s, newIds, triedIds);
    HeldKnown(k, t, b, None);
    FitIds(k, t, s, newIds, triedIds);
    assert Indexes(newIds, s.buckets[b], t.vvNew[b]);
    WiderIndexes(newIds, triedIds, s.buckets[b], t.vvNew[b]);
  }

  lemma WiderIndexes(newIds: seq<nat>, triedIds: seq<nat>, ixs: seq<nat>, bucket: set<nat>)
    requires Indexes(newIds, ixs, bucket)
    requires forall i :: |newIds| <= i < |newIds + triedIds| ==> (newIds + triedIds)[i] !in bucket
    ensures Indexes(newIds + triedIds, ixs, bucket)
  {
  }

  lemma FitFew(k: Hashing, t: Tables, s: Stream, newIds: seq<nat>, triedIds: seq<nat>)
    requires Fits(k, t, s, newIds, triedIds)
    ensures HeldFew(t, newIds + triedIds)
  {
    var ids := newIds + triedIds;
    FitIds(k, t, s, newIds, triedIds);
    hide Written;
    forall i | 0 <= i < |ids| ensures HeldFrom(t.vvNew, ids[i], 0) <= NEW_BUCKETS_PER_ADDRESS {
      CountHeld(k, t, ids[i]);
    }
  }

  lemma CountHeld(k: Hashing, t: Tables, n: nat)
    requires Consistent(k, t, None) && n in t.mapInfo
    ensures t.mapInfo[n].nRefCount == HeldFrom(t.vvNew, n, 0) <= NEW_BUCKETS_PER_ADDRESS
  {
    HeldFromCounts(t.vvNew, n, 0);
    assert Holding(t.vvNew, n) == set c | 0 <= c < |t.vvNew| && n in t.vvNew[c];
  }

  // ---------- the whole manager ----------

  /** A manager read from a stream. If the stream was written from a consistent manager, then the result is
      consistent, and it is that manager up to renumbering. */
  method Unserialize(s: Stream, ghost t: Tables, ghost newIds: seq<nat>, ghost triedIds: seq<nat>)
    returns (r: AddrMan.AddrMan)
    requires WellFormed(s)
    ensures fresh(r) && r.key == s.nKey
    ensures Fits(s.nKey, t, s, newIds, triedIds) ==> r.Valid() && Renumbered(t, r.Snapshot(), newIds + triedIds)
  {
    hide Fits, Loaded, Flagged, Stage, Counting, Renumbered, Consistent;
    r := new AddrMan.AddrMan(s.nKey);
    var m, a, v, vvNew := ReadNew(s, t, newIds, triedIds);
    var m1, a1, v1, vvTried, nIdCount, nLost := ReadTried(s, m, a, v, t, newIds, triedIds);
    var m2, vvNew2 := ReadBuckets(s, m1, vvNew, t, newIds, triedIds);
    r.nIdCount, r.mapInfo, r.mapAddr, r.vRandom := nIdCount, m2, a1, v1;
    r.nNew, r.nTried, r.vvTried, r.vvNew := s.nNew, s.nTried - nLost, vvTried, vvNew2;
    ghost var t' := r.Snapshot();
    if Fits(s.nKey, t, s, newIds, triedIds) {
      StartCounting(s.nKey, t, s, newIds, triedIds, m1, a1, v1, vvTried, vvNew);
      Restores(s.nKey, t, s, newIds, triedIds, m1, t');
    }
  }

  lemma StartCounting(k: Hashing, t: Tables, s: Stream, newIds: seq<nat>, triedIds: seq<nat>,
                      m: Infos, a: map<NetAddr, nat>, v: seq<nat>, vvTried: seq<seq<nat>>, vvNew: seq<set<nat>>)
    requires Fits(k, t, s, newIds, triedIds) && Stage(k, t, newIds, triedIds, |newIds| + |triedIds|, m, a, v, vvTried)
    requires |vvNew| == NEW_BUCKET_COUNT
    requires s.nUBuckets == NEW_BUCKET_COUNT ==> forall b :: 0 <= b < |vvNew| ==> vvNew[b] == {}
    ensures Counting(t, newIds + triedIds, m, m, vvNew, 0)
  {
    hide Fits, TriedLoaded, AddrsMatch, HeldFrom;
    FitBuckets(k, t, s, newIds, triedIds);
    var ids := newIds + triedIds;
    forall i | 0 <= i < |ids| ensures CountedAt(t, ids, m, m, i, 0) {
      assert m[i].nRefCount == 0;
      assert m[i] == m[i].(nRefCount := 0);
    }
  }

  /** The tables as they stand when everything is read. */
  ghost predicate ReadIn(k: Hashing, t: Tables, s: Stream, newIds: seq<nat>, triedIds: seq<nat>, m1: Infos,
                         t': Tables)
  {
    && Stage(k, t, newIds, triedIds, |newIds| + |triedIds|, m1, t'.mapAddr, t'.vRandom, t'.vvTried)
    && Counting(t, newIds + triedIds, m1, t'.mapInfo, t'.vvNew, |t.vvNew|)
    && t'.nIdCount == |newIds| + |triedIds| && t'.nNew == s.nNew && t'.nTried == s.nTried
  }

  /** Every entry is back under its new id, at the random position of the same number. */
  ghost predicate Back(t: Tables, m: Infos, ids: seq<nat>) {
    && (forall i: nat :: i in m <==> i < |ids|)
    && (forall i :: 0 <= i < |ids| ==> BackAt(t, m, ids, i))
  }

  ghost predicate BackAt(t: Tables, m: Infos, ids: seq<nat>, i: nat) {
    i < |ids| && i in m && ids[i] in t.mapInfo && SameMember(t.mapInfo[ids[i]], m[i]) && m[i].nRandomPos == i
  }

  ghost predicate DistinctIds(ids: seq<nat>) {
    forall i, j :: 0 <= i < j < |ids| ==> ids[i] != ids[j]
  }

  lemma EntriesBack(k: Hashing, t: Tables, s: Stream, newIds: seq<nat>, triedIds: seq<nat>, m1: Infos, t': Tables)
    requires Fits(k, t, s, newIds, triedIds) && ReadIn(k, t, s, newIds, triedIds, m1, t')
    ensures Back(t, t'.mapInfo, newIds + triedIds)
  {
    hide Fits, TriedLoaded, AddrsMatch, HeldFrom, FilledAt;
    var ids := newIds + triedIds;
    FitIds(k, t, s, newIds, triedIds);
    forall i | 0 <= i < |ids| ensures BackAt(t, t'.mapInfo, ids, i) {
      assert LoadedAt(t, ids, m1, i) && CountedAt(t, ids, m1, t'.mapInfo, i, |t.vvNew|);
      HeldStep(t.vvNew, ids[i], |t.vvNew|);
      FitCount(k, t, s, newIds, triedIds, ids[i]);
    }
  }

  lemma FitCount(k: Hashing, t: Tables, s: Stream, newIds: seq<nat>, triedIds: seq<nat>, n: nat)
    requires Fits(k, t, s, newIds, triedIds) && n in t.mapInfo
    ensures t.mapInfo[n].nRefCount == HeldFrom(t.vvNew, n, 0)
  {
    CountHeld(k, t, n);
  }

  lemma AddressesBack(t: Tables, ids: seq<nat>, m1: Infos, m: Infos, a: map<NetAddr, nat>)
    requires AddrsMatch(t.mapInfo, t.mapAddr) && AddrsMatch(m1, a) && Back(t, m, ids) && m.Keys == m1.Keys
    requires forall i :: i in m ==> m[i].addr == m1[i].addr
    requires forall x :: x in t.mapInfo ==> x in ids
    ensures AddrsMatch(m, a) && a.Keys == t.mapAddr.Keys
    ensures forall ip :: ip in a ==> a[ip] < |ids| && ids[a[ip]] == t.mapAddr[ip]
  {
    forall ip | ip in a ensures ip in t.mapAddr && a[ip] < |ids| && ids[a[ip]] == t.mapAddr[ip] {
      assert BackAt(t, m, ids, a[ip]);
    }
    forall ip | ip in t.mapAddr ensures ip in a {
      var i :| 0 <= i < |ids| && ids[i] == t.mapAddr[ip];
      assert BackAt(t, m, ids, i);
    }
  }

  /** New buckets hold the renumbered ids. */
  ghost predicate NewBack(t: Tables, ids: seq<nat>, vvNew: seq<set<nat>>) {
    |vvNew| == |t.vvNew| && forall b :: 0 <= b < |vvNew| ==> FilledAt(t, ids, vvNew[b], b)
  }

  lemma RefsBack(t: Tables, ids: seq<nat>, m: Infos, vvNew: seq<set<nat>>)
    requires RefsMatch(t.mapInfo, t.vvNew, None) && Back(t, m, ids) && NewBack(t, ids, vvNew)
    ensures RefsMatch(m, vvNew, None)
  {
    forall i | i in m ensures RefOk(m[i], |Holding(vvNew, i)|) {
      assert BackAt(t, m, ids, i);
      assert Holding(vvNew, i) == Holding(t.vvNew, ids[i]) by {
        forall b | 0 <= b < |vvNew| ensures i in vvNew[b] <==> ids[i] in t.vvNew[b] {
          assert FilledAt(t, ids, vvNew[b], b);
        }
      }
    }
    forall b, n | 0 <= b < |vvNew| && n in vvNew[b] ensures n in m {
      assert FilledAt(t, ids, vvNew[b], b);
    }
  }

  lemma NewSizesBack(t: Tables, ids: seq<nat>, bucket: set<nat>, b: nat)
    requires FilledAt(t, ids, bucket, b) && DistinctIds(ids)
    ensures |bucket| <= |t.vvNew[b]|
  {
    var order, before := Ascending(bucket), Ascending(t.vvNew[b]);
    var named := seq(|order|, j requires 0 <= j < |order| => IdAt(ids, order[j]));
    forall j | 0 <= j < |named| ensures named[j] in before {
      assert order[j] in bucket;
    }
    forall i, j | 0 <= i < j < |named| ensures named[i] != named[j] {
      assert order[i] in bucket && order[j] in bucket;
    }
    DistinctInto(named, before);
  }

  lemma SizesBack(t: Tables, ids: seq<nat>, vvNew: seq<set<nat>>, vvTried: seq<seq<nat>>)
    requires SizesOk(t.vvTried, t.vvNew) && NewBack(t, ids, vvNew) && DistinctIds(ids)
    requires |vvTried| == TRIED_BUCKET_COUNT && forall b :: 0 <= b < |vvTried| ==> |vvTried[b]| <= TRIED_BUCKET_SIZE
    ensures SizesOk(vvTried, vvNew)
  {
    forall b | 0 <= b < |vvNew| ensures |vvNew[b]| <= NEW_BUCKET_SIZE {
      assert FilledAt(t, ids, vvNew[b], b);
      NewSizesBack(t, ids, vvNew[b], b);
    }
  }

  lemma CountsBack(m: Infos, newIds: seq<nat>, triedIds: seq<nat>, t: Tables)
    requires Back(t, m, newIds + triedIds)
    requires forall i :: 0 <= i < |newIds + triedIds| ==>
                           (newIds + triedIds)[i] in t.mapInfo
                            && t.mapInfo[(newIds + triedIds)[i]].fInTried == (|newIds| <= i)
    ensures |NewIds(m)| == |newIds| && |TriedIds(m)| == |triedIds|
  {
    var ids := newIds + triedIds;
    forall i | i in m ensures m[i].fInTried == (|newIds| <= i) {
      assert BackAt(t, m, ids, i);
    }
    assert NewIds(m) == Range(0, |newIds|);
    assert TriedIds(m) == Range(|newIds|, |ids|);
  }

  ghost function Range(lo: nat, hi: nat): (r: set<nat>)
    ensures forall i :: i in r <==> lo <= i < hi
    ensures |r| == if lo <= hi then hi - lo else 0
    decreases hi
  {
    if lo < hi then Range(lo, hi - 1) + {hi - 1} else {}
  }

  lemma TriedBack(k: Hashing, m1: Infos, m: Infos, cut: nat, n: nat, vvTried: seq<seq<nat>>)
    requires TriedLoaded(k, m1, cut, n, vvTried) && m.Keys == m1.Keys && (forall i: nat :: i in m <==> i < n)
    requires forall i :: i in m ==> m[i].addr == m1[i].addr && m[i].fInTried == (cut <= i)
    ensures TriedMatches(k, m, vvTried)
  {
    forall b, i | 0 <= b < |vvTried| && 0 <= i < |vvTried[b]| ensures TriedAt(k, m, vvTried[b][i], b) {
      assert BucketLoaded(k, m1, cut, n, vvTried[b], b);
      assert vvTried[b][i] in vvTried[b];
    }
    forall b, i, j | 0 <= b < |vvTried| && 0 <= i < j < |vvTried[b]| ensures vvTried[b][i] != vvTried[b][j] {
      assert BucketLoaded(k, m1, cut, n, vvTried[b], b);
    }
    forall x | x in m && m[x].fInTried && TriedBucket(k, m[x]) < |vvTried| ensures x in vvTried[TriedBucket(k, m[x])] {
      assert BucketLoaded(k, m1, cut, n, vvTried[TriedBucket(k, m[x])], TriedBucket(k, m[x]));
    }
  }

  /** In consistent tables an id is listed in a tried bucket exactly if it is tried and belongs there. */
  lemma TriedListed(k: Hashing, m: Infos, vvTried: seq<seq<nat>>, b: nat, x: nat)
    requires TriedMatches(k, m, vvTried) && b < |vvTried|
    ensures x in vvTried[b] <==> TriedAt(k, m, x, b)
  {
    if x in vvTried[b] {
      var i :| 0 <= i < |vvTried[b]| && vvTried[b][i] == x;
      assert TriedAt(k, m, vvTried[b][i], b);
    }
  }

  lemma SameTriedBucket(k: Hashing, t: Tables, t': Tables, ids: seq<nat>, b: nat, i: nat)
    requires TriedMatches(k, t.mapInfo, t.vvTried) && TriedMatches(k, t'.mapInfo, t'.vvTried)
    requires BackAt(t, t'.mapInfo, ids, i) && b < |t.vvTried| && b < |t'.vvTried|
    ensures i in t'.vvTried[b] <==> ids[i] in t.vvTried[b]
  {
    TriedListed(k, t.mapInfo, t.vvTried, b, ids[i]);
    TriedListed(k, t'.mapInfo, t'.vvTried, b, i);
  }

  lemma BucketSize(k: Hashing, t: Tables, t': Tables, ids: seq<nat>, b: nat)
    requires TriedMatches(k, t.mapInfo, t.vvTried) && TriedMatches(k, t'.mapInfo, t'.vvTried)
    requires Back(t, t'.mapInfo, ids) && DistinctIds(ids) && b < |t.vvTried| && b < |t'.vvTried|
    ensures |t'.vvTried[b]| <= |t.vvTried[b]|
  {
    hide TriedMatches;
    var bucket := t'.vvTried[b];
    DistinctBucket(k, t'.mapInfo, t'.vvTried, b);
    var named := seq(|bucket|, j requires 0 <= j < |bucket| => IdAt(ids, bucket[j]));
    forall j | 0 <= j < |bucket| ensures bucket[j] < |ids| && named[j] in t.vvTried[b] {
      assert bucket[j] in bucket;
      TriedListed(k, t'.mapInfo, t'.vvTried, b, bucket[j]);
      assert BackAt(t, t'.mapInfo, ids, bucket[j]);
      SameTriedBucket(k, t, t', ids, b, bucket[j]);
    }
    DistinctInto(named, t.vvTried[b]);
  }

  lemma DistinctBucket(k: Hashing, m: Infos, vvTried: seq<seq<nat>>, b: nat)
    requires TriedMatches(k, m, vvTried) && b < |vvTried|
    ensures DistinctIds(vvTried[b])
  {
  }

  /** What the reading loops leave, in terms of the entries before and after. */
  lemma ReadFacts(k: Hashing, t: Tables, s: Stream, newIds: seq<nat>, triedIds: seq<nat>, m1: Infos, t': Tables)
    requires Fits(k, t, s, newIds, triedIds) && ReadIn(k, t, s, newIds, triedIds, m1, t')
    ensures NewBack(t, newIds + triedIds, t'.vvNew) && AddrsMatch(m1, t'.mapAddr)
    ensures m1.Keys == t'.mapInfo.Keys && (forall i :: i in t'.mapInfo ==> t'.mapInfo[i].addr == m1[i].addr)
    ensures |t'.vRandom| == |newIds + triedIds| && forall i :: 0 <= i < |t'.vRandom| ==> t'.vRandom[i] == i
    ensures TriedLoaded(k, m1, |newIds|, |newIds + triedIds|, t'.vvTried)
  {
    hide Fits, AddrsMatch, HeldFrom, LoadedAt, TriedLoaded, FilledAt;
    var ids := newIds + triedIds;
    forall i | i in t'.mapInfo ensures t'.mapInfo[i].addr == m1[i].addr {
      assert CountedAt(t, ids, m1, t'.mapInfo, i, |t.vvNew|);
    }
  }

  lemma FitTables(k: Hashing, t: Tables, s: Stream, newIds: seq<nat>, triedIds: seq<nat>)
    requires Fits(k, t, s, newIds, triedIds)
    ensures AddrsMatch(t.mapInfo, t.mapAddr) && RefsMatch(t.mapInfo, t.vvNew, None)
    ensures TriedMatches(k, t.mapInfo, t.vvTried) && SizesOk(t.vvTried, t.vvNew)
    ensures |newIds| == t.nNew == s.nNew && |triedIds| == t.nTried == s.nTried
  {
    hide AddrsMatch, RefsMatch, TriedMatches, SizesOk, RandomMatches, Indexes;
  }

  lemma RestoresTried(k: Hashing, t: Tables, s: Stream, newIds: seq<nat>, triedIds: seq<nat>, m1: Infos, t': Tables)
    requires Fits(k, t, s, newIds, triedIds) && ReadIn(k, t, s, newIds, triedIds, m1, t')
    ensures TriedMatches(k, t'.mapInfo, t'.vvTried) && |t'.vvTried| == TRIED_BUCKET_COUNT == |t.vvTried|
    ensures forall b :: 0 <= b < |t'.vvTried| ==> |t'.vvTried[b]| <= TRIED_BUCKET_SIZE
    ensures forall b, i :: 0 <= b < |t.vvTried| && 0 <= i < |newIds + triedIds| ==>
                             (i in t'.vvTried[b] <==> (newIds + triedIds)[i] in t.vvTried[b])
  {
    hide Fits, ReadIn, AddrsMatch, RefsMatch, TriedMatches;
    var ids := newIds + triedIds;
    EntriesBack(k, t, s, newIds, triedIds, m1, t');
    ReadFacts(k, t, s, newIds, triedIds, m1, t');
    FitTables(k, t, s, newIds, triedIds);
    FitIds(k, t, s, newIds, triedIds);
    forall i | i in t'.mapInfo ensures t'.mapInfo[i].fInTried == (|newIds| <= i) {
      assert BackAt(t, t'.mapInfo, ids, i);
    }
    TriedBack(k, m1, t'.mapInfo, |newIds|, |ids|, t'.vvTried);
    forall b | 0 <= b < |t'.vvTried| ensures |t'.vvTried[b]| <= TRIED_BUCKET_SIZE {
      BucketSize(k, t, t', ids, b);
    }
    forall b, i | 0 <= b < |t.vvTried| && 0 <= i < |ids| ensures i in t'.vvTried[b] <==> ids[i] in t.vvTried[b] {
      assert BackAt(t, t'.mapInfo, ids, i);
      SameTriedBucket(k, t, t', ids, b, i);
    }
  }

  lemma RandomBack(t: Tables, m: Infos, ids: seq<nat>, v: seq<nat>)
    requires Back(t, m, ids) && |v| == |ids| && forall i :: 0 <= i < |v| ==> v[i] == i
    ensures RandomMatches(m, v)
  {
    forall i | i in m ensures m[i].nRandomPos == i {
      assert BackAt(t, m, ids, i);
    }
  }

  lemma RestoresConsistent(k: Hashing, t: Tables, s: Stream, newIds: seq<nat>, triedIds: seq<nat>, m1: Infos,
                           t': Tables)
    requires Fits(k, t, s, newIds, triedIds) && ReadIn(k, t, s, newIds, triedIds, m1, t')
    ensures Consistent(k, t', None)
  {
    hide Fits, Stage, Counting, AddrsMatch, RefsMatch, TriedMatches, RandomMatches, SizesOk, TriedLoaded, BackAt;
    hide NewIds, TriedIds, NewBack;
    var ids := newIds + triedIds;
    EntriesBack(k, t, s, newIds, triedIds, m1, t');
    ReadFacts(k, t, s, newIds, triedIds, m1, t');
    FitTables(k, t, s, newIds, triedIds);
    RestoresTried(k, t, s, newIds, triedIds, m1, t');
    FitIds(k, t, s, newIds, triedIds);
    AddressesBack(t, ids, m1, t'.mapInfo, t'.mapAddr);
    RefsBack(t, ids, t'.mapInfo, t'.vvNew);
    SizesBack(t, ids, t'.vvNew, t'.vvTried);
    CountsBack(t'.mapInfo, newIds, triedIds, t);
    RandomBack(t, t'.mapInfo, ids, t'.vRandom);
  }

  /** Reading back what was written from consistent tables gives consistent tables, the same up to renumbering. */
  lemma Restores(k: Hashing, t: Tables, s: Stream, newIds: seq<nat>, triedIds: seq<nat>, m1: Infos, t': Tables)
    requires Fits(k, t, s, newIds, triedIds) && ReadIn(k, t, s, newIds, triedIds, m1, t')
    ensures Consistent(k, t', None) && Renumbered(t, t', newIds + triedIds)
  {
    hide Fits, Stage, Counting, AddrsMatch, RefsMatch, TriedMatches, RandomMatches, SizesOk, TriedLoaded, BackAt,
      SameMember;
    hide FilledAt, Consistent, Back, NewBack, Renumbered;
    var ids := newIds + triedIds;
    RestoresConsistent(k, t, s, newIds, triedIds, m1, t');
    EntriesBack(k, t, s, newIds, triedIds, m1, t');
    ReadFacts(k, t, s, newIds, triedIds, m1, t');
    FitTables(k, t, s, newIds, triedIds);
    RestoresTried(k, t, s, newIds, triedIds, m1, t');
    FitIds(k, t, s, newIds, triedIds);
    AddressesBack(t, ids, m1, t'.mapInfo, t'.mapAddr);
    RenumberedTables(t, t', ids);
  }

  lemma RenumberedTables(t: Tables, t': Tables, ids: seq<nat>)
    requires Back(t, t'.mapInfo, ids) && NewBack(t, ids, t'.vvNew) && DistinctIds(ids)
             && (forall x :: x in t.mapInfo <==> x in ids)
    requires t'.nIdCount == |ids| && t'.nNew == t.nNew && t'.nTried == t.nTried && t'.mapAddr.Keys == t.mapAddr.Keys
    requires forall ip :: ip in t'.mapAddr ==> t'.mapAddr[ip] < |ids| && ids[t'.mapAddr[ip]] == t.mapAddr[ip]
    requires |t'.vvTried| == |t.vvTried|
    requires forall b, i :: 0 <= b < |t.vvTried| && 0 <= i < |ids| ==> (i in t'.vvTried[b] <==> ids[i] in t.vvTried[b])
    ensures Renumbered(t, t', ids)
  {
    hide SameMember, FilledAt;
    RenumberedMembers(t, t', ids);
    hide Back, NewBack;
  }

  lemma RenumberedMembers(t: Tables, t': Tables, ids: seq<nat>)
    requires Back(t, t'.mapInfo, ids) && NewBack(t, ids, t'.vvNew)
    ensures (forall i: nat :: i in t'.mapInfo <==> i < |ids|) && |t'.vvNew| == |t.vvNew|
    ensures forall i :: 0 <= i < |ids| ==>
              i in t'.mapInfo && ids[i] in t.mapInfo && SameMember(t.mapInfo[ids[i]], t'.mapInfo[i])
    ensures forall b, i :: 0 <= b < |t.vvNew| && 0 <= i < |ids| ==> (i in t'.vvNew[b] <==> ids[i] in t.vvNew[b])
  {
    forall i | 0 <= i < |ids|
      ensures i in t'.mapInfo && ids[i] in t.mapInfo && SameMember(t.mapInfo[ids[i]], t'.mapInfo[i])
    {
      assert BackAt(t, t'.mapInfo, ids, i);
    }
    forall b, i | 0 <= b < |t.vvNew| && 0 <= i < |ids| ensures i in t'.vvNew[b] <==> ids[i] in t.vvNew[b] {
      assert FilledAt(t, ids, t'.vvNew[b], b);
    }
  }

  /** Saving and loading a consistent manager loses nothing. */
  method SaveAndLoad(a: AddrMan.AddrMan) returns (r: AddrMan.AddrMan, ghost ids: seq<nat>)
    requires a.Valid()
    ensures fresh(r) && r.Valid() && r.key == a.key
    ensures Renumbered(a.Snapshot(), r.Snapshot(), ids)
  {
    var s, newIds, triedIds := Serialize(a);
    assert Fits(a.key, a.Snapshot(), s, newIds, triedIds);
    ghost var t := a.Snapshot();
    FitTables(a.key, t, s, newIds, triedIds);
    FitSizes(a.key, t, s, newIds, triedIds);
    FitBuckets(a.key, t, s, newIds, triedIds);
    hide Fits, Renumbered, Consistent;
    r := Unserialize(s, t, newIds, triedIds);
    ids := newIds + triedIds;
  }
}
