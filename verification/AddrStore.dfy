/**
 Saving and restoring the address manager: ids are renumbered, the redundant
 structures are left out of the stream and rebuilt from the rest.
 */
module AddrStore {
  import opened Ledger
  import opened AddrTables
  import opened Ordering
  import AddrMan

  /** What is stored of an entry; the last try, counts, flags and positions are memory-only. */
  datatype Entry = Entry(addr: Address, source: NetAddr, nLastSuccess: int, nAttempts: int)

  datatype Stream = Stream(nKey: Hashing, nNew: int, nTried: int, nUBuckets: int,
                           news: seq<Entry>, trieds: seq<Entry>, buckets: seq<seq<nat>>)

  function EntryOf(i: Info): (e: Entry)
    ensures e.addr == i.addr && e.source == i.source && e.nLastSuccess == i.nLastSuccess && e.nAttempts == i.nAttempts
  {
    Entry(i.addr, i.source, i.nLastSuccess, i.nAttempts)
  }

  function Blank(e: Entry): Info {
    Info(e.addr, e.source, e.nLastSuccess, 0, e.nAttempts, 0, false, -1)
  }

  // ---------- what a written stream holds ----------

  /** An increasing enumeration of a set of ids. */
  ghost predicate Enumerates(ids: seq<nat>, s: set<nat>) {
    Increasing(ids) && |ids| == |s| && forall x :: x in s <==> x in ids
  }

  ghost predicate EntriesOf(m: Infos, ids: seq<nat>, es: seq<Entry>) {
    |es| == |ids| && forall i :: 0 <= i < |ids| ==> ids[i] in m && es[i] == EntryOf(m[ids[i]])
  }

  /** The listed indexes are those of a bucket's ids, each once. */
  ghost predicate Indexes(ids: seq<nat>, ixs: seq<nat>, bucket: set<nat>) {
    && (forall j :: 0 <= j < |ixs| ==> ixs[j] < |ids| && ids[ixs[j]] in bucket)
    && (forall i, j :: 0 <= i < j < |ixs| ==> ixs[i] != ixs[j])
    && (forall i :: 0 <= i < |ids| && ids[i] in bucket ==> i in ixs)
  }

  ghost predicate Written(k: Hashing, t: Tables, s: Stream, newIds: seq<nat>, triedIds: seq<nat>) {
    && s.nKey == k && s.nNew == t.nNew && s.nTried == t.nTried && s.nUBuckets == NEW_BUCKET_COUNT
    && Enumerates(newIds, NewIds(t.mapInfo)) && Enumerates(triedIds, TriedIds(t.mapInfo))
    && EntriesOf(t.mapInfo, newIds, s.news) && EntriesOf(t.mapInfo, triedIds, s.trieds)
    && |s.buckets| == |t.vvNew| && (forall b :: 0 <= b < |t.vvNew| ==> Indexes(newIds, s.buckets[b], t.vvNew[b]))
  }

  // ---------- writing ----------

  /** The ids found among the first `i` of an order are those of a class, as far as the order goes. */
  ghost predicate Collected(order: seq<nat>, i: nat, ids: seq<nat>, class_: set<nat>) {
    && i <= |order| && Increasing(ids)
    && (forall x :: x in ids <==> x in class_ && x in order[..i])
  }

  lemma CollectNone(order: seq<nat>, class_: set<nat>)
    ensures Collected(order, 0, [], class_)
  {
  }

  lemma CollectStep(order: seq<nat>, i: nat, ids: seq<nat>, class_: set<nat>)
    requires Collected(order, i, ids, class_) && i < |order| && Increasing(order)
    ensures Collected(order, i + 1, if order[i] in class_ then ids + [order[i]] else ids, class_)
    ensures order[i] !in ids
  {
    assert order[..i + 1] == order[..i] + [order[i]];
    var ids' := ids + [order[i]];
    assert forall j :: 0 <= j < |ids| ==> ids[j] in order[..i];
    assert forall x :: x in ids' <==> x in ids || x == order[i];
  }

  /** Iteration may stop early once as many ids as the class has are found. */
  lemma CollectedAll(order: seq<nat>, i: nat, ids: seq<nat>, class_: set<nat>)
    requires Collected(order, i, ids, class_) && (forall x :: x in class_ ==> x in order)
    requires i == |order| || |ids| == |class_|
    ensures Enumerates(ids, class_)
  {
    DistinctCount(ids);
    if i == |order| {
      assert order[..i] == order;
      assert Elements(ids) == class_;
    } else {
      SubsetEqual(Elements(ids), class_);
    }
  }

  ghost function Elements(s: seq<nat>): set<nat> {
    set x | x in s
  }

  lemma {:induction false} DistinctCount(s: seq<nat>)
    requires forall i, j :: 0 <= i < j < |s| ==> s[i] != s[j]
    ensures |Elements(s)| == |s|
  {
    if s != [] {
      var l := |s| - 1;
      var front, last := s[..l], s[l];
      DistinctCount(front);
      assert s == front + [last];
      assert Elements(s) == Elements(front) + {last};
    }
  }

  lemma SubsetEqual(a: set<nat>, b: set<nat>)
    requires a <= b && |a| == |b|
    ensures a == b
  {
    var rest := b - a;
    assert b == a + rest;
  }

  /** Numbers given to ids while the new entries are written. */
  ghost predicate Numbered(ids: seq<nat>, mapUnkIds: map<nat, nat>) {
    forall j :: 0 <= j < |ids| ==> ids[j] in mapUnkIds && mapUnkIds[ids[j]] == j
  }

  /** Writes the new entries in id order and numbers them. */
  method WriteNew(t: Tables, ghost k: Hashing) returns (news: seq<Entry>, mapUnkIds: map<nat, nat>, ghost ids: seq<nat>)
    requires Consistent(k, t, None)
    ensures Enumerates(ids, NewIds(t.mapInfo)) && EntriesOf(t.mapInfo, ids, news) && Numbered(ids, mapUnkIds)
  {
    hide Consistent, Collected, Numbered, EntriesOf, Enumerates, NewIds, TriedIds, Increasing;
    Counters(k, t);
    var order := Ascending(t.mapInfo.Keys);
    news, mapUnkIds, ids := [], map[], [];
    ghost var class_ := NewIds(t.mapInfo);
    CollectNone(order, class_);
    EntriesNone(t.mapInfo, mapUnkIds);
    var i := 0;
    while i < |order|
      invariant i <= |order| && |news| == |ids|
      invariant Collected(order, i, ids, class_) && EntriesOf(t.mapInfo, ids, news) && Numbered(ids, mapUnkIds)
    {
      if |news| == t.nNew {
        break;
      }
      CollectStep(order, i, ids, class_);
      Referenced(k, t, order[i]);
      NumberStep(ids, mapUnkIds, order[i]);
      mapUnkIds := mapUnkIds[order[i] := |news|];
      if t.mapInfo[order[i]].nRefCount != 0 {
        EntriesStep(t.mapInfo, ids, news, order[i]);
        news := news + [EntryOf(t.mapInfo[order[i]])];
        ids := ids + [order[i]];
      }
      i := i + 1;
    }
    CollectedAll(order, i, ids, class_);
  }

  /** Writes the tried entries in id order. */
  method WriteTried(t: Tables, ghost k: Hashing) returns (trieds: seq<Entry>, ghost ids: seq<nat>)
    requires Consistent(k, t, None)
    ensures Enumerates(ids, TriedIds(t.mapInfo)) && EntriesOf(t.mapInfo, ids, trieds)
  {
    hide Consistent, Collected, EntriesOf, Enumerates, NewIds, TriedIds, Increasing;
    Counters(k, t);
    var order := Ascending(t.mapInfo.Keys);
    trieds, ids := [], [];
    ghost var class_ := TriedIds(t.mapInfo);
    CollectNone(order, class_);
    EntriesNone(t.mapInfo, map[]);
    var i := 0;
    while i < |order|
      invariant i <= |order| && |trieds| == |ids|
      invariant Collected(order, i, ids, class_) && EntriesOf(t.mapInfo, ids, trieds)
    {
      if |trieds| == t.nTried {
        break;
      }
      CollectStep(order, i, ids, class_);
      Referenced(k, t, order[i]);
      if t.mapInfo[order[i]].fInTried {
        EntriesStep(t.mapInfo, ids, trieds, order[i]);
        trieds := trieds + [EntryOf(t.mapInfo[order[i]])];
        ids := ids + [order[i]];
      }
      i := i + 1;
    }
    CollectedAll(order, i, ids, class_);
  }

  /** The new entries are those with references. */
  lemma Referenced(k: Hashing, t: Tables, n: nat)
    requires Consistent(k, t, None) && n in t.mapInfo
    ensures t.mapInfo[n].nRefCount != 0 <==> n in NewIds(t.mapInfo)
    ensures t.mapInfo[n].fInTried <==> n in TriedIds(t.mapInfo)
  {
  }

  lemma Counters(k: Hashing, t: Tables)
    requires Consistent(k, t, None)
    ensures NewIds(t.mapInfo) <= t.mapInfo.Keys && TriedIds(t.mapInfo) <= t.mapInfo.Keys
    ensures t.nNew == |NewIds(t.mapInfo)| && t.nTried == |TriedIds(t.mapInfo)|
  {
  }

  lemma EntriesNone(m: Infos, unk: map<nat, nat>)
    ensures EntriesOf(m, [], []) && Numbered([], unk)
  {
  }

  lemma EntriesStep(m: Infos, ids: seq<nat>, es: seq<Entry>, n: nat)
    requires EntriesOf(m, ids, es) && n in m
    ensures EntriesOf(m, ids + [n], es + [EntryOf(m[n])])
  {
  }

  lemma NumberStep(ids: seq<nat>, unk: map<nat, nat>, n: nat)
    requires Numbered(ids, unk) && n !in ids
    ensures Numbered(ids, unk[n := |ids|]) && Numbered(ids + [n], unk[n := |ids|])
  {
  }

  method WriteBucket(bucket: set<nat>, mapUnkIds: map<nat, nat>, ghost ids: seq<nat>) returns (ixs: seq<nat>)
    requires Numbered(ids, mapUnkIds) && (forall x :: x in bucket ==> x in ids)
    ensures Indexes(ids, ixs, bucket)
  {
    hide Numbered, Indexes, Increasing;
    var order := Ascending(bucket);
    ixs := [];
    for j := 0 to |order|
      invariant |ixs| == j
      invariant forall i :: 0 <= i < j ==> ixs[i] < |ids| && ids[ixs[i]] == order[i]
    {
      NumberOf(ids, mapUnkIds, order[j]);
      ixs := ixs + [mapUnkIds[order[j]]];
    }
    NumbersListed(ids, mapUnkIds, ixs, order, bucket);
  }

  lemma NumberOf(ids: seq<nat>, unk: map<nat, nat>, x: nat)
    requires Numbered(ids, unk) && x in ids
    ensures x in unk && unk[x] < |ids| && ids[unk[x]] == x
  {
    var at :| 0 <= at < |ids| && ids[at] == x;
    assert unk[ids[at]] == at;
  }

  lemma NumbersListed(ids: seq<nat>, unk: map<nat, nat>, ixs: seq<nat>, order: seq<nat>, bucket: set<nat>)
    requires Numbered(ids, unk) && |ixs| == |order| && (forall x :: x in bucket <==> x in order) && Increasing(order)
    requires forall i :: 0 <= i < |ixs| ==> ixs[i] < |ids| && ids[ixs[i]] == order[i]
    ensures Indexes(ids, ixs, bucket)
  {
    forall j | 0 <= j < |ixs| ensures ids[ixs[j]] in bucket {
      assert order[j] in order;
    }
    forall i | 0 <= i < |ids| && ids[i] in bucket ensures i in ixs {
      var j :| 0 <= j < |order| && order[j] == ids[i];
      assert unk[ids[ixs[j]]] == ixs[j];
    }
  }

  /** Writes all tables to a stream. */
  method Serialize(a: AddrMan.AddrMan) returns (s: Stream, ghost newIds: seq<nat>, ghost triedIds: seq<nat>)
    requires a.Valid()
    ensures Written(a.key, a.Snapshot(), s, newIds, triedIds)
  {
    hide Consistent, Enumerates, EntriesOf, Numbered, Indexes, NewIds, TriedIds;
    var t := Tables(a.nIdCount, a.mapInfo, a.mapAddr, a.vRandom, a.nTried, a.vvTried, a.nNew, a.vvNew);
    BucketsListed(a.key, t);
    var news, mapUnkIds, trieds;
    news, mapUnkIds, newIds := WriteNew(t, a.key);
    trieds, triedIds := WriteTried(t, a.key);
    EnumeratedBuckets(t, newIds);
    var buckets := [];
    for b := 0 to |t.vvNew|
      invariant |buckets| == b
      invariant forall c :: 0 <= c < b ==> Indexes(newIds, buckets[c], t.vvNew[c])
    {
      var ixs := WriteBucket(t.vvNew[b], mapUnkIds, newIds);
      buckets := buckets + [ixs];
    }
    s := Stream(a.key, a.nNew, a.nTried, NEW_BUCKET_COUNT, news, trieds, buckets);
  }

  lemma BucketsListed(k: Hashing, t: Tables)
    requires Consistent(k, t, None)
    ensures forall b, x :: 0 <= b < |t.vvNew| && x in t.vvNew[b] ==> x in NewIds(t.mapInfo)
    ensures |t.vvNew| == NEW_BUCKET_COUNT
  {
    forall b, x | 0 <= b < |t.vvNew| && x in t.vvNew[b] ensures x in NewIds(t.mapInfo) {
      HeldKnown(k, t, b, None);
    }
  }

  lemma EnumeratedBuckets(t: Tables, ids: seq<nat>)
    requires forall b, x :: 0 <= b < |t.vvNew| && x in t.vvNew[b] ==> x in NewIds(t.mapInfo)
    requires Enumerates(ids, NewIds(t.mapInfo))
    ensures forall b, x :: 0 <= b < |t.vvNew| && x in t.vvNew[b] ==> x in ids
  {
  }
}
