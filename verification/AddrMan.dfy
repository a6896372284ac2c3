/**
 The stochastic address manager: an object whose five redundant structures stay
 consistent under every operation.
 */
module AddrMan {
  import opened Ledger
  import opened AddrTables
  import opened AddrEviction
  import opened Ordering
  import opened Numbers

  /** A non-negative random number below `nMax`. */
  method GetRandInt(nMax: int) returns (r: nat)
    ensures if nMax > 0 then r < nMax else r == 0
  {
    if nMax <= 0 {
      return 0;
    }
    assert 0 < nMax;
    r :| 0 <= r < nMax;
  }

  /** Every bucket an entry is in already doubles the number that a draw of zero must come from to give it one more. */
  method BucketFactor(nRefCount: nat) returns (nFactor: nat)
    ensures nFactor == Pow2(nRefCount)
  {
    nFactor := 1;
    for n := 0 to nRefCount
      invariant nFactor == Pow2(n)
    {
      nFactor := nFactor * 2;
    }
  }

  /** The entry as far as table maintenance does not touch it. */
  ghost function Record(i: Info): (Address, NetAddr, int, int, int, bool) {
    (i.addr, i.source, i.nLastSuccess, i.nLastTry, i.nAttempts, i.fInTried)
  }

  /** Every entry but at most one keeps its record. */
  ghost predicate RecordsKept(m: Infos, m': Infos, but: nat) {
    forall n :: n in m && n != but ==> n in m' && Record(m'[n]) == Record(m[n]) && m'[n].nRefCount == m[n].nRefCount
  }

  /** The tables after one reference from a new bucket is dropped. */
  ghost predicate Dropped(t: Tables, t': Tables, b: nat, x: nat) {
    && b < |t.vvNew| && x in t.vvNew[b] && x in t.mapInfo
    && t'.vvNew == t.vvNew[b := t.vvNew[b] - {x}]
    && t'.vvTried == t.vvTried && t'.nTried == t.nTried && t'.nIdCount == t.nIdCount
    && RecordsKept(t.mapInfo, t'.mapInfo, x)
    && if t.mapInfo[x].nRefCount == 1
       then t'.mapInfo.Keys == t.mapInfo.Keys - {x} && t'.mapAddr == t.mapAddr - {t.mapInfo[x].addr.ip}
       else
         t'.mapInfo == t.mapInfo[x := t.mapInfo[x].(nRefCount := t.mapInfo[x].nRefCount - 1)] && t'.mapAddr == t.mapAddr
  }

  /** Once iteration passed a picked position, nothing found so far is younger than what is there. */
  ghost predicate NoOlder(m: Infos, order: seq<nat>, i: nat, pick: nat, oldest: Option<nat>) {
    pick < i && pick < |order| ==>
      oldest.Some? && oldest.value in m && order[pick] in m && m[oldest.value].addr.nTime <= m[order[pick]].addr.nTime
  }

  /** An entry moved to its tried bucket: appended if there is room, otherwise exchanged for the one selection names,
      which goes back to the new bucket of its own source, or to the promoted entry's former bucket if that one is
      full. */
  ghost predicate PromotionOf(k: Hashing, t: Tables, t': Tables, n: nat, origin: nat, pick: Pick, c: nat) {
    && n in t.mapInfo && |t.vvTried| == TRIED_BUCKET_COUNT && |t.vvNew| == NEW_BUCKET_COUNT
    && var b := TriedBucket(k, t.mapInfo[n]);
       if |t.vvTried[b]| < TRIED_BUCKET_SIZE then t' == PromotedInto(k, t, n)
       else
         && Selected(t.mapInfo, t.vvTried[b], pick)
         && var s, pos := pick.order, pick.pos;
            && multiset(s) == multiset(t.vvTried[b]) && 0 <= pos < |s| && s[pos] in t.mapInfo && s[pos] != n
               && c < |t.vvNew|
            && t' == Exchanged(k, t, n, s, pos, c)
            && var own := NewBucket(k, t.mapInfo[s[pos]], t.mapInfo[s[pos]].source);
               c == if |TakenOut(t.vvNew, n)[own]| < NEW_BUCKET_SIZE then own else origin
  }

  lemma ExchangeIsPromotion(k: Hashing, t: Tables, t': Tables, n: nat, origin: nat, pick: Pick, c: nat)
    requires n in t.mapInfo && |t.vvTried| == TRIED_BUCKET_COUNT && |t.vvNew| == NEW_BUCKET_COUNT && c < |t.vvNew|
    requires |t.vvTried[TriedBucket(k, t.mapInfo[n])]| == TRIED_BUCKET_SIZE
    requires var v, s := t.vvTried[TriedBucket(k, t.mapInfo[n])], pick.order;
             && Selected(t.mapInfo, v, pick) && multiset(s) == multiset(v)
             && 0 <= pick.pos < |s| && s[pick.pos] in t.mapInfo && s[pick.pos] != n
    requires var o := t.mapInfo[pick.order[pick.pos]]; var own := NewBucket(k, o, o.source);
             c == if |TakenOut(t.vvNew, n)[own]| < NEW_BUCKET_SIZE then own else origin
    requires t' == Exchanged(k, t, n, pick.order, pick.pos, c)
    ensures PromotionOf(k, t, t', n, origin, pick, c)
  {
    hide Selected, TakenOut;
  }

  /** The buckets below `b` have let go of an id. */
  ghost predicate OutBelow(before: seq<set<nat>>, now: seq<set<nat>>, n: nat, b: nat) {
    && b <= |now| == |before|
    && forall c :: 0 <= c < |now| ==> now[c] == if c < b then before[c] - {n} else before[c]
  }

  /** The same entries but for the reference count of one. */
  ghost predicate Counted(m: Infos, m': Infos, n: nat, count: int) {
    n in m && m' == m[n := m[n].(nRefCount := count)]
  }

  /** The tables after an entry left the new buckets and before it arrives anywhere. */
  ghost function LeftNew(t: Tables, n: nat): Tables
    requires n in t.mapInfo
  {
    t.(mapInfo := t.mapInfo[n := t.mapInfo[n].(nRefCount := 0)], vvNew := TakenOut(t.vvNew, n), nNew := t.nNew - 1)
  }

  class AddrMan {
    const key: Hashing
    var nIdCount: nat
    var mapInfo: Infos
    var mapAddr: map<NetAddr, nat>
    var vRandom: seq<nat>
    var nTried: int
    var vvTried: seq<seq<nat>>
    var nNew: int
    var vvNew: seq<set<nat>>

    ghost function Snapshot(): Tables
      reads this
    {
      Tables(nIdCount, mapInfo, mapAddr, vRandom, nTried, vvTried, nNew, vvNew)
    }

    ghost predicate Valid()
      reads this
    {
      Consistent(key, Snapshot(), None)
    }

    constructor (key: Hashing)
      ensures Valid() && this.key == key && mapInfo == map[]
    {
      this.key := key;
      nIdCount, mapInfo, mapAddr, vRandom := 0, map[], map[], [];
      nTried, nNew := 0, 0;
      vvTried := seq(TRIED_BUCKET_COUNT, _ => []);
      vvNew := seq(NEW_BUCKET_COUNT, _ => {});
    }

    method Find(ip: NetAddr) returns (id: Option<nat>)
      ensures id == if ip in mapAddr && mapAddr[ip] in mapInfo then Some(mapAddr[ip]) else None
    {
      if ip !in mapAddr {
        return None;
      }
      id := if mapAddr[ip] in mapInfo then Some(mapAddr[ip]) else None;
    }

    method Create(addr: Address, source: NetAddr) returns (id: nat)
      modifies this
      ensures id == old(nIdCount) && nIdCount == id + 1
      ensures mapInfo == old(mapInfo)[id := Info(addr, source, 0, 0, 0, 0, false, |old(vRandom)|)]
      ensures mapAddr == old(mapAddr)[addr.ip := id] && vRandom == old(vRandom) + [id]
      ensures nTried == old(nTried) && vvTried == old(vvTried) && nNew == old(nNew) && vvNew == old(vvNew)
    {
      id := nIdCount;
      nIdCount := nIdCount + 1;
      mapInfo := mapInfo[id := Info(addr, source, 0, 0, 0, 0, false, -1)];
      mapAddr := mapAddr[addr.ip := id];
      mapInfo := mapInfo[id := mapInfo[id].(nRandomPos := |vRandom|)];
      vRandom := vRandom + [id];
    }

    method SwapRandom(p: nat, q: nat, ghost pending: Option<nat>)
      requires Consistent(key, Snapshot(), pending) && p < |vRandom| && q < |vRandom|
      modifies this`mapInfo, this`vRandom
      ensures Consistent(key, Snapshot(), pending)
      ensures p == q ==> Snapshot() == old(Snapshot())
      ensures SameButOrder(old(mapInfo), mapInfo)
      ensures p != q ==> (mapInfo, vRandom) == Swapped(old(mapInfo), old(vRandom), p, q)
    {
      hide Consistent;
      if p == q {
        return;
      }
      SwappedConsistent(key, Snapshot(), p, q, pending);
      var id1, id2 := vRandom[p], vRandom[q];
      mapInfo := mapInfo[id1 := mapInfo[id1].(nRandomPos := q)];
      mapInfo := mapInfo[id2 := mapInfo[id2].(nRandomPos := p)];
      vRandom := vRandom[p := id2];
      vRandom := vRandom[q := id1];
    }

    /** Takes one reference away and forgets the entry when it was the last one. */
    method DropReference(b: nat, x: nat, ghost pending: Option<nat>)
      requires Consistent(key, Snapshot(), pending)
      requires b < |vvNew| && x in vvNew[b] && pending != Some(x)
      modifies this
      ensures Consistent(key, Snapshot(), pending) && Dropped(old(Snapshot()), Snapshot(), b, x)
    {
      hide Consistent;
      UnrefConsistent(key, Snapshot(), b, x, pending);
      PositionOf(key, Snapshot(), x, pending);
      var count := mapInfo[x].nRefCount - 1;
      if count == 0 {
        Forget(b, x, pending);
      } else {
        mapInfo := mapInfo[x := mapInfo[x].(nRefCount := count)];
        vvNew := vvNew[b := vvNew[b] - {x}];
      }
    }

    /** Forgets an entry along with its last reference. */
    method Forget(b: nat, x: nat, ghost pending: Option<nat>)
      requires Consistent(key, Snapshot(), pending)
      requires b < |vvNew| && x in vvNew[b] && pending != Some(x) && x in mapInfo && mapInfo[x].nRefCount == 1
      requires 0 <= mapInfo[x].nRandomPos < |vRandom| && vRandom[mapInfo[x].nRandomPos] == x
               && vRandom[|vRandom| - 1] in mapInfo
      modifies this
      ensures Consistent(key, Snapshot(), pending) && Dropped(old(Snapshot()), Snapshot(), b, x)
    {
      hide Consistent, Dropped;
      ghost var t := Snapshot();
      SwapRandom(mapInfo[x].nRandomPos, |vRandom| - 1, pending);
      ForgetConsistent(key, Snapshot(), b, x, pending);
      ghost var swapped := Snapshot();
      vRandom := vRandom[..|vRandom| - 1];
      mapAddr := mapAddr - {mapInfo[x].addr.ip};
      mapInfo := mapInfo - {x};
      nNew := nNew - 1;
      vvNew := vvNew[b := vvNew[b] - {x}];
      ForgottenIsDropped(t, swapped, Snapshot(), b, x);
    }

    /** The first terrible entry of a bucket in id order. */
    method FindTerrible(b: nat, now: int) returns (x: Option<nat>)
      requires b < |vvNew| && forall n :: n in vvNew[b] ==> n in mapInfo
      ensures x.Some? ==> x.value in vvNew[b] && IsTerrible(mapInfo[x.value], now)
      ensures x.Some? ==> forall n :: n in vvNew[b] && IsTerrible(mapInfo[n], now) ==> x.value <= n
      ensures x.None? ==> forall n :: n in vvNew[b] ==> !IsTerrible(mapInfo[n], now)
    {
      var order := Ascending(vvNew[b]);
      for i := 0 to |order|
        invariant forall j :: 0 <= j < i ==> order[j] in vvNew[b] && !IsTerrible(mapInfo[order[j]], now)
      {
        assert order[i] in vvNew[b];
        if IsTerrible(mapInfo[order[i]], now) {
          return Some(order[i]);
        }
      }
      return None;
    }

    /** The oldest of four entries picked at random from a bucket. */
    method PickOldest(b: nat) returns (x: nat, ghost picks: seq<nat>)
      requires b < |vvNew| && vvNew[b] != {} && forall n :: n in vvNew[b] ==> n in mapInfo
      ensures |picks| == 4 && x in vvNew[b] && x in picks
      ensures forall n :: n in picks ==> n in vvNew[b] && mapInfo[x].addr.nTime <= mapInfo[n].addr.nTime
    {
      var order := Ascending(vvNew[b]);
      var n0, n1, n2, n3;
      n0 := GetRandInt(|order|);
      n1 := GetRandInt(|order|);
      n2 := GetRandInt(|order|);
      n3 := GetRandInt(|order|);
      picks := [order[n0], order[n1], order[n2], order[n3]];
      var oldest: Option<nat> := None;
      for i := 0 to |order|
        invariant oldest.Some? ==> oldest.value in vvNew[b] && oldest.value in picks
        invariant NoOlder(mapInfo, order, i, n0, oldest) && NoOlder(mapInfo, order, i, n1, oldest)
        invariant NoOlder(mapInfo, order, i, n2, oldest) && NoOlder(mapInfo, order, i, n3, oldest)
      {
        assert order[i] in vvNew[b];
        if i == n0 || i == n1 || i == n2 || i == n3 {
          if oldest.None? || mapInfo[order[i]].addr.nTime < mapInfo[oldest.value].addr.nTime {
            oldest := Some(order[i]);
          }
        }
      }
      x := oldest.value;
    }

    /** Makes room in a new bucket: drops its first terrible entry, or else the oldest of four random ones. */
    method ShrinkNew(b: nat, now: int, ghost pending: Option<nat>) returns (r: int, ghost x: nat, ghost picks: seq<nat>)
      requires Consistent(key, Snapshot(), pending)
      requires b < |vvNew| && vvNew[b] != {} && (pending.Some? ==> pending.value !in vvNew[b])
      modifies this
      ensures Consistent(key, Snapshot(), pending) && Dropped(old(Snapshot()), Snapshot(), b, x)
      ensures r == 0 || r == 1
      ensures forall n :: n in old(vvNew[b]) ==> n in old(mapInfo)
      ensures r == 0 ==> IsTerrible(old(mapInfo)[x], now)
      ensures r == 0 ==> forall n :: n in old(vvNew[b]) && IsTerrible(old(mapInfo)[n], now) ==> x <= n
      ensures r == 1 ==> forall n :: n in old(vvNew[b]) ==> !IsTerrible(old(mapInfo)[n], now)
      ensures r == 1 ==> |picks| == 4 && x in picks && forall n :: n in picks ==>
                           n in old(vvNew[b]) && old(mapInfo)[x].addr.nTime <= old(mapInfo)[n].addr.nTime
    {
      hide Consistent, Dropped;
      HeldKnown(key, Snapshot(), b, pending);
      var bad := FindTerrible(b, now);
      if bad.Some? {
        DropReference(b, bad.value, pending);
        return 0, bad.value, [];
      }
      var oldest;
      oldest, picks := PickOldest(b);
      DropReference(b, oldest, pending);
      r, x := 1, oldest;
    }

    // ---------- promotion ----------

    /**
     Shuffles the front of a tried bucket, one random exchange a round, and looks for the least recently successful
     entry among those. The position returned is the one where that entry was found, before the exchange.
     */
    method SelectTried(b: nat) returns (pos: int, ghost pick: Pick)
      requires b < |vvTried| && forall x :: x in vvTried[b] ==> x in mapInfo
      modifies this`vvTried
      ensures |vvTried| == |old(vvTried)| && vvTried == old(vvTried)[b := vvTried[b]]
      ensures multiset(vvTried[b]) == multiset(old(vvTried[b])) && |vvTried[b]| == |old(vvTried[b])|
      ensures pick.order == vvTried[b] && pick.pos == pos
      ensures if old(vvTried[b]) == [] then pos == -1
              else 0 <= pos < |vvTried[b]| && Selected(mapInfo, old(vvTried[b]), pick)
    {
      hide Shuffled, Drawn, LeastOf, Traded;
      ghost var before := vvTried[b];
      var vTried := vvTried[b];
      var oldest: Option<nat> := None;
      ghost var draws: seq<nat>, winner: nat := [], 0;
      NoDraws(before);
      pos := -1;
      var i := 0;
      while i < TRIED_ENTRIES_INSPECT_ON_EVICT && i < |vTried|
        invariant vvTried == old(vvTried)
        invariant 0 <= i <= |vTried| && |draws| == i <= TRIED_ENTRIES_INSPECT_ON_EVICT
        invariant Drawn(|before|, draws) && vTried == Shuffled(before, draws)
        invariant if i == 0 then pos == -1 && oldest.None?
                  else winner < i && pos == winner + draws[winner] < |vTried| && oldest == Some(vTried[winner])
        invariant i > 0 ==> LeastOf(mapInfo, vTried, i, winner)
      {
        var draw := GetRandInt(|vTried| - i);
        var nPos: nat := draw + i;
        var temp := vTried[nPos];
        StillThere(before, draws, nPos);
        OneMoreDraw(before, draws, draw);
        OneMoreInspected(mapInfo, vTried, i, nPos, winner);
        ghost var trade := Traded(vTried, i, nPos);
        TradedMeans(vTried, i, nPos);
        vTried := vTried[nPos := vTried[i]];
        vTried := vTried[i := temp];
        assert vTried == trade;
        draws := draws + [draw];
        if oldest.None? || mapInfo[temp].nLastSuccess < mapInfo[oldest.value].nLastSuccess {
          oldest := Some(temp);
          pos := nPos;
          winner := i;
        }
        i := i + 1;
      }
      ShuffledMultiset(before, draws);
      vvTried := vvTried[b := vTried];
      pick := Pick(draws, winner, vTried, pos);
    }

    /** Takes an entry out of every new bucket, counting its references down. */
    method LeaveNewBuckets(id: nat, ghost before: Tables)
      requires before == Snapshot() && Consistent(key, before, None) && id in mapInfo && !mapInfo[id].fInTried
      modifies this`vvNew, this`mapInfo, this`nNew
      ensures Snapshot() == LeftNew(before, id)
    {
      hide Consistent, HeldFrom, OutBelow, Counted, TakenOut;
      CountOf(key, before, id);
      OutNone(before.vvNew, before.mapInfo, id);
      var b := 0;
      while b < |vvNew|
        invariant nNew == before.nNew
        invariant b <= |vvNew| && OutBelow(before.vvNew, vvNew, id, b)
        invariant id in mapInfo && Counted(before.mapInfo, mapInfo, id, HeldFrom(before.vvNew, id, b))
      {
        OutStep(before.vvNew, vvNew, id, b);
        CountStep(before.mapInfo, mapInfo, id, HeldFrom(before.vvNew, id, b));
        HeldStep(before.vvNew, id, b);
        if id in vvNew[b] {
          vvNew := vvNew[b := vvNew[b] - {id}];
          mapInfo := mapInfo[id := mapInfo[id].(nRefCount := mapInfo[id].nRefCount - 1)];
        }
        b := b + 1;
      }
      OutAll(before.vvNew, vvNew, before.mapInfo, mapInfo, id);
      nNew := nNew - 1;
    }

    /** Puts an entry in the place of one from its full tried bucket, which goes back to a new bucket. */
    method Replace(id: nat, origin: nat, ghost before: Tables) returns (ghost pick: Pick, ghost c: nat)
      requires id in before.mapInfo && Snapshot() == LeftNew(before, id) && Consistent(key, before, None)
      requires |vvTried| == TRIED_BUCKET_COUNT && |vvNew| == NEW_BUCKET_COUNT && !before.mapInfo[id].fInTried
      requires |vvTried[TriedBucket(key, mapInfo[id])]| == TRIED_BUCKET_SIZE
      requires origin < |before.vvNew| && id in before.vvNew[origin]
      modifies this
      ensures Valid() && PromotionOf(key, before, Snapshot(), id, origin, pick, c)
    {
      hide Consistent, TakenOut, Selected, PromotionOf;
      var b := TriedBucket(key, mapInfo[id]);
      TriedKnown(key, before, b);
      var nPos;
      nPos, pick := SelectTried(b);
      ghost var s := vvTried[b];
      SelectedSame(mapInfo, before.mapInfo, before.vvTried[b], pick);
      ShuffledKnown(before.vvTried[b], s, nPos);
      assert before.mapInfo[s[nPos]].fInTried;
      var o := vvTried[b][nPos];
      var nUBucket := NewBucket(key, mapInfo[o], mapInfo[o].source);
      mapInfo := mapInfo[o := mapInfo[o].(fInTried := false)];
      mapInfo := mapInfo[o := mapInfo[o].(nRefCount := 1)];
      var back := if |vvNew[nUBucket]| < NEW_BUCKET_SIZE then nUBucket else origin;
      vvNew := vvNew[back := vvNew[back] + {o}];
      nNew := nNew + 1;
      var replaced: seq<nat> := vvTried[b][nPos := id];
      vvTried := vvTried[b := replaced];
      mapInfo := mapInfo[id := mapInfo[id].(fInTried := true)];
      c := back;
      TakenOutRoom(key, before, id, origin);
      ExchangeConsistent(key, before, id, s, nPos, c);
      ExchangeEntries(before.mapInfo, mapInfo, id, o);
      assert Snapshot() == Exchanged(key, before, id, s, nPos, c);
      ExchangeIsPromotion(key, before, Snapshot(), id, origin, pick, c);
    }

    /** Moves an entry from the new buckets to its tried bucket, if need be in exchange for another one. */
    method MakeTried(id: nat, origin: nat) returns (ghost pick: Pick, ghost c: nat)
      requires Valid() && origin < |vvNew| && id in vvNew[origin]
      modifies this
      ensures Valid()
      ensures PromotionOf(key, old(Snapshot()), Snapshot(), id, origin, pick, c)
    {
      hide Consistent, TakenOut, Selected;
      ghost var before := Snapshot();
      HeldKnown(key, before, origin, None);
      AddressKnown(key, before, 0, None);
      TriedKnown(key, before, TriedBucket(key, mapInfo[id]));
      LeaveNewBuckets(id, before);
      assert mapInfo[id].nRefCount == 0;
      var b := TriedBucket(key, mapInfo[id]);
      if |vvTried[b]| < TRIED_BUCKET_SIZE {
        PromoteConsistent(key, before, id);
        vvTried := vvTried[b := vvTried[b] + [id]];
        nTried := nTried + 1;
        mapInfo := mapInfo[id := mapInfo[id].(fInTried := true)];
        assert Snapshot() == PromotedInto(key, before, id);
        pick, c := Pick([], 0, [], -1), origin;
      } else {
        pick, c := Replace(id, origin, before);
      }
    }

    // ---------- operations ----------

    /** A bucket that holds an id, searched from a random start. */
    method FindBucket(id: nat) returns (b: int)
      ensures -1 <= b < |vvNew| && (b >= 0 ==> id in vvNew[b])
      ensures b == -1 ==> forall c :: 0 <= c < |vvNew| ==> id !in vvNew[c]
    {
      var start := GetRandInt(|vvNew|);
      b := -1;
      for n := 0 to |vvNew|
        invariant forall j :: 0 <= j < n ==> id !in vvNew[Around(j, start, |vvNew|)]
      {
        var nB := Around(n, start, |vvNew|);
        if id in vvNew[nB] {
          return nB;
        }
      }
      forall c | 0 <= c < |vvNew| ensures id !in vvNew[c] {
        AroundReaches(c, start, |vvNew|);
      }
    }

    /** Records a successful connection; a new entry moves to its tried bucket. */
    method Good(ip: NetAddr, port: nat, nTime: int) returns (ghost pick: Pick, ghost c: nat, ghost origin: nat)
      requires Valid()
      modifies this
      ensures Valid()
      ensures GoodStep(key, old(Snapshot()), Snapshot(), ip, port, nTime, origin, pick, c)
    {
      hide Consistent, PromotionOf;
      pick, c, origin := Pick([], 0, [], -1), 0, 0;
      AddressKnown(key, Snapshot(), ip, None);
      var found := Find(ip);
      if found.None? || mapInfo[found.value].addr.port != port {
        return;
      }
      var id := found.value;
      var i := Seen(mapInfo[id], nTime);
      UpdateConsistent(key, Snapshot(), id, i, None);
      mapInfo := mapInfo[id := i];
      if i.fInTried {
        return;
      }
      var nUBucket := FindBucket(id);
      SomewhereHeld(key, Snapshot(), id);
      if nUBucket == -1 {
        assert false;
        return;
      }
      origin := nUBucket;
      pick, c := MakeTried(id, nUBucket);
    }

    /** Records a connection attempt. */
    method Attempt(ip: NetAddr, port: nat, nTime: int)
      requires Valid()
      modifies this
      ensures Valid()
      ensures Snapshot() == old(Snapshot()).(mapInfo := mapInfo)
      ensures mapInfo == if KnownAs(old(Snapshot()), ip, port)
                         then var id := old(mapAddr)[ip];
                              old(mapInfo)[id :=
                                  old(mapInfo)[id].(nLastTry := nTime, nAttempts := old(mapInfo)[id].nAttempts + 1)]
                         else old(mapInfo)
    {
      hide Consistent;
      AddressKnown(key, Snapshot(), ip, None);
      var found := Find(ip);
      if found.None? || mapInfo[found.value].addr.port != port {
        return;
      }
      var i := mapInfo[found.value];
      var i' := i.(nLastTry := nTime, nAttempts := i.nAttempts + 1);
      UpdateConsistent(key, Snapshot(), found.value, i', None);
      mapInfo := mapInfo[found.value := i'];
    }

    /** Refreshes the time of a connected peer, at most every twenty minutes. */
    method Connected(ip: NetAddr, port: nat, nTime: int)
      requires Valid()
      modifies this
      ensures Valid()
      ensures Snapshot() == old(Snapshot()).(mapInfo := mapInfo)
      ensures mapInfo == if KnownAs(old(Snapshot()), ip, port)
              && nTime - old(mapInfo)[old(mapAddr)[ip]].addr.nTime > 20 * 60
                         then var id := old(mapAddr)[ip];
                              old(mapInfo)[id := old(mapInfo)[id].(addr := old(mapInfo)[id].addr.(nTime := nTime))]
                         else old(mapInfo)
    {
      hide Consistent;
      AddressKnown(key, Snapshot(), ip, None);
      var found := Find(ip);
      if found.None? || mapInfo[found.value].addr.port != port {
        return;
      }
      var i := mapInfo[found.value];
      if nTime - i.addr.nTime > 20 * 60 {
        var i' := i.(addr := i.addr.(nTime := nTime));
        UpdateConsistent(key, Snapshot(), found.value, i', None);
        mapInfo := mapInfo[found.value := i'];
      }
    }

    /** Adds a reference from bucket `b`, making room there if need be. */
    method Refer(id: nat, b: nat, now: int) returns (ghost x: Option<nat>)
      requires id in mapInfo && !mapInfo[id].fInTried && b < |vvNew| && id !in vvNew[b]
      requires Consistent(key, Referred(Snapshot(), id), Some(id))
      modifies this
      ensures Valid() && ReferredIn(old(Snapshot()), Snapshot(), id, b, x)
    {
      hide Consistent, Dropped;
      mapInfo := mapInfo[id := mapInfo[id].(nRefCount := mapInfo[id].nRefCount + 1)];
      ghost var t := Snapshot();
      HeldKnown(key, t, b, Some(id));
      x := None;
      if |vvNew[b]| == NEW_BUCKET_SIZE {
        ghost var v, picks;
        var r;
        r, v, picks := ShrinkNew(b, now, Some(id));
        DroppedRoom(t, Snapshot(), b, v, id);
        x := Some(v);
      }
      ghost var m := Snapshot();
      InsertConsistent(key, m, b, id);
      vvNew := vvNew[b := vvNew[b] + {id}];
      ReferredAfterDrop(old(Snapshot()), t, m, Snapshot(), id, b, x);
    }

    /** Adds an address heard from `source`. */
    method Add(addr: Address, source: NetAddr, nTimePenalty: int, routable: bool, now: int)
      returns (fNew: bool, ghost x: Option<nat>, ghost draw: nat)
      requires Valid()
      modifies this
      ensures Valid()
      ensures fNew <==> routable && addr.ip !in old(mapAddr)
      ensures !routable ==> Snapshot() == old(Snapshot())
      ensures routable ==> AddStep(key, old(Snapshot()), Snapshot(), addr, source, nTimePenalty, now, x, draw)
    {
      hide Consistent, ReferredIn;
      x, draw := None, 0;
      if !routable {
        return false, None, 0;
      }
      fNew := false;
      ghost var t := Snapshot();
      AddressKnown(key, t, addr.ip, None);
      var found := Find(addr.ip);
      var id: nat;
      if found.Some? {
        id := found.value;
        var i := Refreshed(mapInfo[id], addr, nTimePenalty, now);
        UpdateConsistent(key, Snapshot(), id, i, None);
        mapInfo := mapInfo[id := i];
        if addr.nTime == 0 || (i.addr.nTime != 0 && addr.nTime <= i.addr.nTime) {
          return;
        }
        if i.fInTried {
          return;
        }
        if i.nRefCount == NEW_BUCKETS_PER_ADDRESS {
          return;
        }
        CountBound(key, Snapshot(), id);
        var nFactor := BucketFactor(i.nRefCount);
        var r := GetRandInt(nFactor);
        draw := r;
        if nFactor > 1 && r != 0 {
          return;
        }
        IncrementConsistent(key, Snapshot(), id);
      } else {
        id := Create(addr, source);
        var nTime := if mapInfo[id].addr.nTime - nTimePenalty > 0 then mapInfo[id].addr.nTime - nTimePenalty else 0;
        mapInfo := mapInfo[id := mapInfo[id].(addr := addr.(nTime := nTime))];
        nNew := nNew + 1;
        fNew := true;
        Fresh(key, t);
        CreateConsistent(key, t, Newcomer(t, addr, source, nTimePenalty).(nRefCount := 1));
        assert Referred(Snapshot(), id).mapInfo
            == t.mapInfo[id := Newcomer(t, addr, source, nTimePenalty).(nRefCount := 1)];
      }
      ghost var mid := Snapshot();
      assert mid == Noted(t, addr, source, nTimePenalty, now);
      var nUBucket := NewBucket(key, mapInfo[id], source);
      if id !in vvNew[nUBucket] {
        x := Refer(id, nUBucket, now);
        ReferredBasics(mid, Snapshot(), id, nUBucket, x);
      }
    }

    /** Gathers addresses worth sending to a peer, in random order. */
    method GetAddr(now: int) returns (vAddr: seq<Address>, ghost ids: seq<nat>)
      requires Valid()
      modifies this`mapInfo, this`vRandom
      ensures Valid() && SameButOrder(old(mapInfo), mapInfo)
      ensures |vAddr| <= GETADDR_MAX && |vAddr| * 100 <= GETADDR_MAX_PCT * |vRandom| && |vRandom| == |old(vRandom)|
      ensures Gathered(mapInfo, ids, vAddr, now)
      ensures |vAddr| < (if GETADDR_MAX_PCT * |vRandom| / 100 > GETADDR_MAX then GETADDR_MAX
              else GETADDR_MAX_PCT * |vRandom| / 100)
              ==> forall n :: n in mapInfo && !IsTerrible(mapInfo[n], now) ==> n in ids
    {
      hide Consistent, SameButOrder, Scanned, Gathered, IsTerrible;
      var nNodes := GETADDR_MAX_PCT * |vRandom| / 100;
      if nNodes > GETADDR_MAX {
        nNodes := GETADDR_MAX;
      }
      vAddr, ids := [], [];
      SameOrderReflexive(mapInfo);
      ScanNone(mapInfo, vRandom, now);
      var n := 0;
      while n < |vRandom|
        invariant n <= |vRandom| == |old(vRandom)| && |vAddr| <= nNodes
        invariant Valid() && SameButOrder(old(mapInfo), mapInfo)
        invariant Scanned(mapInfo, vRandom, n, ids, vAddr, now)
      {
        if |vAddr| >= nNodes {
          break;
        }
        var draw := GetRandInt(|vRandom| - n);
        SwapKeeps(key, Snapshot(), n, draw + n, old(mapInfo), ids, vAddr, now);
        SwapRandom(n, draw + n, None);
        PositionKnown(key, Snapshot(), n);
        var ai := mapInfo[vRandom[n]];
        ScanStep(key, Snapshot(), n, ids, vAddr, now);
        if !IsTerrible(ai, now) {
          vAddr := vAddr + [ai.addr];
          ids := ids + [vRandom[n]];
        }
        n := n + 1;
      }
      ScanDone(key, Snapshot(), n, ids, vAddr, now);
    }
  }

  // ---------- adding ----------

  ghost function Referred(t: Tables, n: nat): Tables
    requires n in t.mapInfo
  {
    t.(mapInfo := t.mapInfo[n := t.mapInfo[n].(nRefCount := t.mapInfo[n].nRefCount + 1)])
  }

  /** Bucket `b` gained an entry; a full bucket lost another one for it, forgotten if that was its last reference. */
  ghost predicate ReferredIn(t: Tables, t': Tables, n: nat, b: nat, x: Option<nat>) {
    && n in t.mapInfo && !t.mapInfo[n].fInTried && b < |t.vvNew| && n !in t.vvNew[b]
    && t'.vvTried == t.vvTried && t'.nTried == t.nTried && t'.nIdCount == t.nIdCount
    && n in t'.mapInfo && Record(t'.mapInfo[n]) == Record(t.mapInfo[n])
       && t'.mapInfo[n].nRefCount == t.mapInfo[n].nRefCount + 1
    && (x.Some? <==> |t.vvNew[b]| == NEW_BUCKET_SIZE)
    && match x
       case None =>
         t'.vvNew == t.vvNew[b := t.vvNew[b] + {n}] && t'.mapAddr == t.mapAddr && t'.mapInfo == Referred(t, n).mapInfo
       case Some(v) =>
         && v in t.vvNew[b] && v in t.mapInfo && v != n && !t.mapInfo[v].fInTried
         && t'.vvNew == t.vvNew[b := t.vvNew[b] - {v} + {n}]
         && t'.mapInfo.Keys == t.mapInfo.Keys - (if t.mapInfo[v].nRefCount == 1 then {v} else {})
         && t'.mapAddr == t.mapAddr - (if t.mapInfo[v].nRefCount == 1 then {t.mapInfo[v].addr.ip} else {})
         && (forall i :: i in t.mapInfo && i != n && i != v ==>
              i in t'.mapInfo && Record(t'.mapInfo[i]) == Record(t.mapInfo[i])
                && t'.mapInfo[i].nRefCount == t.mapInfo[i].nRefCount)
  }

  lemma ForgottenIsDropped(t: Tables, swapped: Tables, t': Tables, b: nat, x: nat)
    requires b < |t.vvNew| && x in t.vvNew[b] && x in t.mapInfo && t.mapInfo[x].nRefCount == 1
    requires SameButOrder(t.mapInfo, swapped.mapInfo)
             && swapped == t.(mapInfo := swapped.mapInfo, vRandom := swapped.vRandom)
    requires t'.mapInfo == swapped.mapInfo - {x} && t'.mapAddr == t.mapAddr - {t.mapInfo[x].addr.ip}
             && t'.nIdCount == t.nIdCount
    requires t'.vvNew == t.vvNew[b := t.vvNew[b] - {x}] && t'.vvTried == t.vvTried && t'.nTried == t.nTried
    ensures Dropped(t, t', b, x)
  {
    forall n | n in t.mapInfo && n != x
      ensures n in t'.mapInfo && Record(t'.mapInfo[n]) == Record(t.mapInfo[n])
              && t'.mapInfo[n].nRefCount == t.mapInfo[n].nRefCount
    {
      assert Anywhere(swapped.mapInfo[n]) == Anywhere(t.mapInfo[n]);
    }
  }

  lemma DroppedRoom(t: Tables, t': Tables, b: nat, v: nat, n: nat)
    requires Dropped(t, t', b, v) && |t.vvNew[b]| == NEW_BUCKET_SIZE && n in t.mapInfo && n !in t.vvNew[b]
    ensures b < |t'.vvNew| && |t'.vvNew[b]| < NEW_BUCKET_SIZE && n in t'.mapInfo && n !in t'.vvNew[b]
  {
  }

  lemma ReferredAfterDrop(t: Tables, t1: Tables, m: Tables, t': Tables, n: nat, b: nat, x: Option<nat>)
    requires n in t.mapInfo && !t.mapInfo[n].fInTried && b < |t.vvNew| && n !in t.vvNew[b] && t1 == Referred(t, n)
             && b < |m.vvNew|
    requires t' == m.(vvNew := m.vvNew[b := m.vvNew[b] + {n}])
    requires forall i :: i in t.vvNew[b] ==> i in t.mapInfo && !t1.mapInfo[i].fInTried
    requires x.Some? <==> |t.vvNew[b]| == NEW_BUCKET_SIZE
    requires if x.None? then m == t1 else Dropped(t1, m, b, x.value)
    ensures ReferredIn(t, t', n, b, x)
  {
  }

  /** The record of an address the manager had not heard of. */
  ghost function Newcomer(t: Tables, addr: Address, source: NetAddr, penalty: int): Info {
    Info(addr.(nTime := if addr.nTime - penalty > 0 then addr.nTime - penalty else 0), source, 0, 0, 0, 0, false,
        |t.vRandom|)
  }

  /** A known entry told of a new announcement: a newer time counts only if it is newer by an interval. */
  function Refreshed(i: Info, addr: Address, penalty: int, now: int): Info {
    var interval := if now - addr.nTime < 24 * 60 * 60 then 60 * 60 else 24 * 60 * 60;
    var nTime := if addr.nTime != 0 && (i.addr.nTime == 0 || i.addr.nTime < addr.nTime - interval - penalty)
                 then if addr.nTime - penalty > 0 then addr.nTime - penalty else 0
                 else i.addr.nTime;
    i.(addr := i.addr.(nTime := nTime, nServices := i.addr.nServices | addr.nServices))
  }

  /** The tables once the announcement itself is taken note of, before any bucket changes. */
  ghost function Noted(t: Tables, addr: Address, source: NetAddr, penalty: int, now: int): Tables {
    if addr.ip in t.mapAddr && t.mapAddr[addr.ip] in t.mapInfo then
      var id := t.mapAddr[addr.ip];
      t.(mapInfo := t.mapInfo[id := Refreshed(t.mapInfo[id], addr, penalty, now)])
    else
      t.(nIdCount := t.nIdCount + 1, mapInfo := t.mapInfo[t.nIdCount := Newcomer(t, addr, source, penalty)],
         mapAddr := t.mapAddr[addr.ip := t.nIdCount], vRandom := t.vRandom + [t.nIdCount], nNew := t.nNew + 1)
  }

  /** Only news about an untried entry in fewer than four buckets can give it another bucket. */
  ghost predicate Eligible(i: Info, addr: Address) {
    && addr.nTime != 0 && (i.addr.nTime == 0 || addr.nTime > i.addr.nTime)
    && !i.fInTried && i.nRefCount < NEW_BUCKETS_PER_ADDRESS
  }

  /** What adding an address does: the announcement is noted, and the entry gains its bucket for this source if it is
      new, or if it is eligible and the draw among two to the number of its buckets was zero, unless the bucket has
      it. */
  ghost predicate AddStep(k: Hashing, t: Tables, t': Tables, addr: Address, source: NetAddr, penalty: int, now: int,
                          x: Option<nat>, draw: nat)
  {
    var mid := Noted(t, addr, source, penalty, now);
    && addr.ip in mid.mapAddr && mid.mapAddr[addr.ip] in mid.mapInfo
    && var id := mid.mapAddr[addr.ip];
       var b, entry := NewBucket(k, mid.mapInfo[id], source), mid.mapInfo[id];
       && b < |mid.vvNew|
       && (addr.ip in t.mapAddr && Eligible(entry, addr) ==> entry.nRefCount >= 0 && draw < Pow2(entry.nRefCount))
       && if (addr.ip in t.mapAddr ==> Eligible(entry, addr) && draw == 0) && id !in mid.vvNew[b]
          then ReferredIn(mid, t', id, b, x)
          else t' == mid && x == None
  }

  /** Adding touches no tried entry; it forgets at most one address, a new entry of a full bucket whose only
      reference that was; and the address itself is known afterwards. */
  lemma AddLosesAtMostOne(k: Hashing, t: Tables, t': Tables, addr: Address, source: NetAddr, penalty: int, now: int,
                          x: Option<nat>, draw: nat)
    requires Consistent(k, t, None) && AddStep(k, t, t', addr, source, penalty, now, x, draw)
    ensures addr.ip in t'.mapAddr && t'.vvTried == t.vvTried && t'.nTried == t.nTried
    ensures forall n :: n in t.mapInfo && t.mapInfo[n].fInTried ==>
              n in t'.mapInfo && CoreOf(t'.mapInfo[n]) == CoreOf(t.mapInfo[n])
    ensures t'.mapAddr.Keys <= t.mapAddr.Keys + {addr.ip}
    ensures forall ip :: ip in t.mapAddr && ip !in t'.mapAddr ==>
                           && x.Some? && x.value in t.mapInfo && ip == t.mapInfo[x.value].addr.ip
                           && !t.mapInfo[x.value].fInTried && t.mapInfo[x.value].nRefCount == 1
                           && (exists b ::
                                 0 <= b < |t.vvNew| && x.value in t.vvNew[b] && |t.vvNew[b]| == NEW_BUCKET_SIZE)
  {
    hide Consistent, ReferredIn, Noted;
    var mid := Noted(t, addr, source, penalty, now);
    NotedKeeps(k, t, addr, source, penalty, now);
    if t' != mid {
      var id := mid.mapAddr[addr.ip];
      ReferLoses(mid, t', id, NewBucket(k, mid.mapInfo[id], source), x);
      AddressKnown(k, t, addr.ip, None);
      forall n | n in t.mapInfo && t.mapInfo[n].fInTried
        ensures n in t'.mapInfo && CoreOf(t'.mapInfo[n]) == CoreOf(t.mapInfo[n])
      {
        assert CoreOf(mid.mapInfo[n]) == CoreOf(t.mapInfo[n]);
      }
    }
  }

  lemma NotedKeeps(k: Hashing, t: Tables, addr: Address, source: NetAddr, penalty: int, now: int)
    requires Consistent(k, t, None)
    ensures var mid := Noted(t, addr, source, penalty, now);
            && mid.vvTried == t.vvTried && mid.nTried == t.nTried && mid.vvNew == t.vvNew
            && mid.mapAddr.Keys == t.mapAddr.Keys + {addr.ip}
            && mid.mapAddr[addr.ip] in mid.mapInfo && mid.mapInfo[mid.mapAddr[addr.ip]].addr.ip == addr.ip
            && (forall n :: n in t.mapInfo ==> n in mid.mapInfo && CoreOf(mid.mapInfo[n]) == CoreOf(t.mapInfo[n]))
            && (forall n, b :: 0 <= b < |t.vvNew| && n in t.vvNew[b] ==> n in t.mapInfo && n in mid.mapInfo)
            && (forall n :: n in mid.mapInfo ==>
                  mid.mapInfo[n].addr.ip in mid.mapAddr && mid.mapAddr[mid.mapInfo[n].addr.ip] == n)
  {
    hide RandomMatches, TriedMatches;
    Fresh(k, t);
    AddressKnown(k, t, addr.ip, None);
  }

  /** When adding an address gives its entry a bucket, after the announcement is noted: always the first one; another
      one for news with a time above the noted one, of an entry that is not tried and in fewer than four buckets, when
      the draw is zero. */
  lemma AddGains(k: Hashing, t: Tables, t': Tables, addr: Address, source: NetAddr, penalty: int, now: int,
                 x: Option<nat>, draw: nat)
    requires Consistent(k, t, None) && AddStep(k, t, t', addr, source, penalty, now, x, draw)
    ensures var mid := Noted(t, addr, source, penalty, now); var id := mid.mapAddr[addr.ip]; var i := mid.mapInfo[id];
            var b := NewBucket(k, i, source);
            && b < |mid.vvNew| == |t'.vvNew| && b == k.toNew(addr.ip, source) % 256
            && (addr.ip !in t.mapAddr ==> id in t'.vvNew[b])
            && (addr.ip in t.mapAddr ==>
                  if addr.nTime != 0 && (i.addr.nTime == 0 || addr.nTime > i.addr.nTime) && !i.fInTried
                    && i.nRefCount <= 3
                     && draw == 0
                  then id in t'.vvNew[b] else t' == mid && x == None)
  {
    NotedIp(k, t, addr, source, penalty, now);
    hide Consistent, Noted;
  }

  lemma NotedIp(k: Hashing, t: Tables, addr: Address, source: NetAddr, penalty: int, now: int)
    requires Consistent(k, t, None)
    ensures var mid := Noted(t, addr, source, penalty, now);
            addr.ip in mid.mapAddr && mid.mapAddr[addr.ip] in mid.mapInfo
            && mid.mapInfo[mid.mapAddr[addr.ip]].addr.ip == addr.ip
  {
    AddressKnown(k, t, addr.ip, None);
  }

  lemma ReferLoses(t: Tables, t': Tables, n: nat, b: nat, x: Option<nat>)
    requires ReferredIn(t, t', n, b, x)
    ensures t'.vvTried == t.vvTried && t'.nTried == t.nTried && t'.mapAddr.Keys <= t.mapAddr.Keys
    ensures forall i :: i in t.mapInfo && t.mapInfo[i].fInTried ==>
                          i in t'.mapInfo && CoreOf(t'.mapInfo[i]) == CoreOf(t.mapInfo[i])
    ensures forall ip :: ip in t.mapAddr && ip !in t'.mapAddr ==>
                           && x.Some? && x.value in t.mapInfo && x.value in t.vvNew[b] && x.value != n
                           && ip == t.mapInfo[x.value].addr.ip
                           && !t.mapInfo[x.value].fInTried && t.mapInfo[x.value].nRefCount == 1
                              && |t.vvNew[b]| == NEW_BUCKET_SIZE
  {
    forall i | i in t.mapInfo && t.mapInfo[i].fInTried
      ensures i in t'.mapInfo && CoreOf(t'.mapInfo[i]) == CoreOf(t.mapInfo[i])
    {
      assert x.Some? ==> Record(t'.mapInfo[i]) == Record(t.mapInfo[i]);
    }
  }

  lemma Fresh(k: Hashing, t: Tables)
    requires Consistent(k, t, None)
    ensures t.nIdCount !in t.mapInfo && forall b :: 0 <= b < |t.vvNew| ==> t.nIdCount !in t.vvNew[b]
  {
  }

  lemma CountBound(k: Hashing, t: Tables, n: nat)
    requires Consistent(k, t, None) && n in t.mapInfo
    ensures 0 <= t.mapInfo[n].nRefCount <= NEW_BUCKETS_PER_ADDRESS
  {
  }

  lemma ReferredBasics(t: Tables, t': Tables, n: nat, b: nat, x: Option<nat>)
    requires ReferredIn(t, t', n, b, x)
    ensures t' != t
  {
  }

  /** What noting an announcement does: a new address gets an entry of its own, its time set back by the penalty but not
      below zero; a known one gains services, and its time moves on only by more than the interval, which is an hour for
      news of the last day and a day otherwise. */
  lemma NotedMeans(k: Hashing, t: Tables, addr: Address, source: NetAddr, penalty: int, now: int)
    requires Consistent(k, t, None) && penalty >= 0
    ensures var mid := Noted(t, addr, source, penalty, now);
            addr.ip in mid.mapAddr && mid.mapAddr[addr.ip] in mid.mapInfo
    ensures var mid := Noted(t, addr, source, penalty, now); var e := mid.mapInfo[mid.mapAddr[addr.ip]];
            var time := if addr.nTime > penalty then addr.nTime - penalty else 0;
            var interval := if now - addr.nTime < 86400 then 3600 else 86400;
            if addr.ip in t.mapAddr then
              var i := t.mapInfo[t.mapAddr[addr.ip]];
              && mid.mapAddr == t.mapAddr && mid.vRandom == t.vRandom && e == i.(addr := e.addr)
              && e.addr.ip == i.addr.ip && e.addr.port == i.addr.port
              && e.addr.nServices == i.addr.nServices | addr.nServices
              && (if addr.nTime != 0 && (i.addr.nTime == 0 || addr.nTime - penalty > i.addr.nTime + interval)
                  then e.addr.nTime == time && (i.addr.nTime > 0 ==> e.addr.nTime > i.addr.nTime + interval)
                  else e.addr.nTime == i.addr.nTime)
            else
              && mid.mapAddr[addr.ip] == t.nIdCount && mid.vRandom == t.vRandom + [t.nIdCount]
              && e.addr == addr.(nTime := time) && e.source == source
              && e.nLastSuccess == e.nLastTry == e.nAttempts == e.nRefCount == 0 && !e.fInTried
  {
    AddressKnown(k, t, addr.ip, None);
    hide Consistent;
  }

  // ---------- gathering ----------

  /** The same entries at possibly other random positions. */
  ghost predicate SameButOrder(m: Infos, m': Infos) {
    m'.Keys == m.Keys && forall n :: n in m ==> Anywhere(m'[n]) == Anywhere(m[n])
  }

  ghost function Anywhere(i: Info): Info {
    i.(nRandomPos := 0)
  }

  /** Distinct ids of entries that are not terrible, with their addresses. */
  ghost predicate Gathered(m: Infos, ids: seq<nat>, vAddr: seq<Address>, now: int) {
    && |ids| == |vAddr|
    && (forall i :: 0 <= i < |ids| ==> ids[i] in m && !IsTerrible(m[ids[i]], now) && vAddr[i] == m[ids[i]].addr)
    && (forall i, j :: 0 <= i < j < |ids| ==> ids[i] != ids[j])
  }

  /** The gathered ids are those worth sending among the first `n` of the random order. */
  ghost predicate Scanned(m: Infos, v: seq<nat>, n: nat, ids: seq<nat>, vAddr: seq<Address>, now: int) {
    && Gathered(m, ids, vAddr, now)
    && n <= |v| && (forall i :: 0 <= i < |ids| ==> ids[i] in v[..n])
    && (forall i :: 0 <= i < n ==> v[i] in m && (IsTerrible(m[v[i]], now) || v[i] in ids))
  }

  lemma SameOrderReflexive(m: Infos)
    ensures SameButOrder(m, m)
  {
  }

  lemma ScanNone(m: Infos, v: seq<nat>, now: int)
    ensures Scanned(m, v, 0, [], [], now)
  {
  }

  lemma PositionKnown(k: Hashing, t: Tables, n: nat)
    requires Consistent(k, t, None) && n < |t.vRandom|
    ensures t.vRandom[n] in t.mapInfo
  {
  }

  /** Exchanging two positions that were not scanned yet disturbs nothing. */
  lemma SwapKeeps(k: Hashing, t: Tables, p: nat, q: nat, first: Infos, ids: seq<nat>, vAddr: seq<Address>, now: int)
    requires Consistent(k, t, None) && p <= q < |t.vRandom| && SameButOrder(first, t.mapInfo)
    requires Scanned(t.mapInfo, t.vRandom, p, ids, vAddr, now)
    ensures t.vRandom[p] in t.mapInfo && t.vRandom[q] in t.mapInfo
    ensures p != q ==> var (m, v) := Swapped(t.mapInfo, t.vRandom, p, q);
                       SameButOrder(first, m) && Scanned(m, v, p, ids, vAddr, now)
  {
    hide Consistent, IsTerrible, Gathered;
    PositionKnown(k, t, p);
    PositionKnown(k, t, q);
    if p != q {
      var (m, v) := Swapped(t.mapInfo, t.vRandom, p, q);
      assert v[..p] == t.vRandom[..p];
      AnywhereScanned(t.mapInfo, m, ids, vAddr, now);
      forall i | 0 <= i < p ensures v[i] in m && (IsTerrible(m[v[i]], now) || v[i] in ids) {
        assert v[i] == t.vRandom[i];
        SameQuality(t.mapInfo[v[i]], m[v[i]], now);
      }
    }
  }

  lemma SameQuality(i: Info, i': Info, now: int)
    requires Anywhere(i) == Anywhere(i')
    ensures i.addr == i'.addr && IsTerrible(i, now) == IsTerrible(i', now)
  {
  }

  lemma AnywhereScanned(m: Infos, m': Infos, ids: seq<nat>, vAddr: seq<Address>, now: int)
    requires Gathered(m, ids, vAddr, now) && SameButOrder(m, m')
    ensures Gathered(m', ids, vAddr, now)
  {
    hide IsTerrible;
    forall i | 0 <= i < |ids| ensures !IsTerrible(m'[ids[i]], now) && vAddr[i] == m'[ids[i]].addr {
      SameQuality(m[ids[i]], m'[ids[i]], now);
    }
  }

  lemma ScanStep(k: Hashing, t: Tables, n: nat, ids: seq<nat>, vAddr: seq<Address>, now: int)
    requires Consistent(k, t, None) && n < |t.vRandom| && t.vRandom[n] in t.mapInfo
    requires Scanned(t.mapInfo, t.vRandom, n, ids, vAddr, now)
    ensures IsTerrible(t.mapInfo[t.vRandom[n]], now) ==> Scanned(t.mapInfo, t.vRandom, n + 1, ids, vAddr, now)
    ensures !IsTerrible(t.mapInfo[t.vRandom[n]], now) ==>
            Scanned(t.mapInfo, t.vRandom, n + 1, ids + [t.vRandom[n]], vAddr + [t.mapInfo[t.vRandom[n]].addr], now)
  {
    hide Consistent, IsTerrible, Gathered;
    var v, x := t.vRandom, t.vRandom[n];
    PositionsDistinct(k, t);
    assert v[..n + 1] == v[..n] + [x];
    assert x !in v[..n];
    assert x !in ids;
    if !IsTerrible(t.mapInfo[x], now) {
      GatherOne(t.mapInfo, ids, vAddr, x, now);
      assert (ids + [x])[|ids|] == x;
    }
  }

  lemma GatherOne(m: Infos, ids: seq<nat>, vAddr: seq<Address>, x: nat, now: int)
    requires Gathered(m, ids, vAddr, now) && x in m && !IsTerrible(m[x], now) && x !in ids
    ensures Gathered(m, ids + [x], vAddr + [m[x].addr], now)
  {
    hide IsTerrible;
  }

  lemma PositionsDistinct(k: Hashing, t: Tables)
    requires Consistent(k, t, None)
    ensures forall i, j :: 0 <= i < j < |t.vRandom| ==> t.vRandom[i] != t.vRandom[j]
    ensures forall n :: n in t.mapInfo ==> n in t.vRandom
  {
  }

  lemma ScanDone(k: Hashing, t: Tables, n: nat, ids: seq<nat>, vAddr: seq<Address>, now: int)
    requires Consistent(k, t, None) && Scanned(t.mapInfo, t.vRandom, n, ids, vAddr, now)
    ensures |ids| == |vAddr| && Gathered(t.mapInfo, ids, vAddr, now)
    ensures n == |t.vRandom| ==> forall x :: x in t.mapInfo && !IsTerrible(t.mapInfo[x], now) ==> x in ids
  {
    PositionsDistinct(k, t);
  }

  // ---------- recording success ----------

  function Around(n: nat, start: nat, size: nat): (b: nat)
    requires size > 0
    ensures b < size
  {
    (n + start) % size
  }

  lemma AroundReaches(c: nat, start: nat, size: nat)
    requires c < size && start < size
    ensures exists n :: 0 <= n < size && Around(n, start, size) == c
  {
    var n := if c >= start then c - start else c + size - start;
    Wraps(n + start, size);
    assert Around(n, start, size) == c;
  }

  lemma Wraps(x: nat, size: nat)
    requires x < 2 * size
    ensures x % size == if x < size then x else x - size
  {
    var q := x / size;
    assert x == q * size + x % size;
    assert q >= 2 ==> q * size >= 2 * size;
    assert q < 1 ==> x < size;
  }

  function Seen(i: Info, nTime: int): Info {
    i.(nLastSuccess := nTime, nLastTry := nTime, addr := i.addr.(nTime := nTime), nAttempts := 0)
  }

  /** An entry with this very ip and port exists. */
  ghost predicate KnownAs(t: Tables, ip: NetAddr, port: nat) {
    ip in t.mapAddr && t.mapAddr[ip] in t.mapInfo && t.mapInfo[t.mapAddr[ip]].addr.port == port
  }

  /** What recording a success does: nothing for unknown endpoints, otherwise the times, and a promotion for new
      entries. */
  ghost predicate GoodStep(k: Hashing, t: Tables, t': Tables, ip: NetAddr, port: nat, nTime: int,
                           origin: nat, pick: Pick, c: nat)
  {
    if !KnownAs(t, ip, port) then t' == t
    else
      var id := t.mapAddr[ip];
      var seen := t.(mapInfo := t.mapInfo[id := Seen(t.mapInfo[id], nTime)]);
      if t.mapInfo[id].fInTried then t' == seen
      else origin < |t.vvNew| && id in t.vvNew[origin] && PromotionOf(k, seen, t', id, origin, pick, c)
  }

  ghost predicate EntriesKept(m: Infos, m': Infos, but: set<nat>) {
    forall n :: n in m && n !in but ==> n in m' && m'[n] == m[n]
  }

  lemma SomewhereHeld(k: Hashing, t: Tables, n: nat)
    requires Consistent(k, t, None) && n in t.mapInfo && !t.mapInfo[n].fInTried
    ensures exists b :: 0 <= b < |t.vvNew| && n in t.vvNew[b]
  {
    assert Holding(t.vvNew, n) != {};
    var b :| b in Holding(t.vvNew, n);
  }

  /** Recording a success loses no entry: addresses and random order stay, the entry ends up tried,
      at most one other entry changes, and that one is what selection named and goes back to a new bucket. */
  lemma GoodLosesNothing(k: Hashing, t: Tables, t': Tables, ip: NetAddr, port: nat, nTime: int,
                         origin: nat, pick: Pick, c: nat)
    requires Consistent(k, t, None) && Consistent(k, t', None) && GoodStep(k, t, t', ip, port, nTime, origin, pick, c)
    ensures t'.mapAddr == t.mapAddr && t'.vRandom == t.vRandom && t'.mapInfo.Keys == t.mapInfo.Keys
    ensures t'.nTried + t'.nNew == t.nTried + t.nNew && t'.nTried >= t.nTried
    ensures KnownAs(t, ip, port) ==>
              var i, i' := t.mapInfo[t.mapAddr[ip]], t'.mapInfo[t.mapAddr[ip]];
              && i'.fInTried && i'.nLastSuccess == i'.nLastTry == i'.addr.nTime == nTime && i'.nAttempts == 0
              && i'.addr.(nTime := 0) == i.addr.(nTime := 0) && i'.source == i.source
    ensures exists o :: EntriesKept(t.mapInfo, t'.mapInfo, {o} + if KnownAs(t, ip, port) then {t.mapAddr[ip]} else {})
    ensures forall n :: n in t.mapInfo && t.mapInfo[n].fInTried && !t'.mapInfo[n].fInTried ==>
                          && t'.mapInfo[n] == t.mapInfo[n].(fInTried := false, nRefCount := 1)
                          && 0 <= pick.pos < |pick.order| && n == pick.order[pick.pos]
  {
    hide Consistent, TakenOut, Selected;
    var o: nat := if 0 <= pick.pos < |pick.order| then pick.order[pick.pos] else 0;
    assert EntriesKept(t.mapInfo, t'.mapInfo, {o} + if KnownAs(t, ip, port) then {t.mapAddr[ip]} else {});
  }

  lemma OutNone(before: seq<set<nat>>, m: Infos, n: nat)
    requires n in m
    ensures OutBelow(before, before, n, 0) && Counted(m, m, n, m[n].nRefCount)
  {
  }

  lemma OutStep(before: seq<set<nat>>, now: seq<set<nat>>, n: nat, b: nat)
    requires OutBelow(before, now, n, b) && b < |now|
    ensures b < |before| && now[b] == before[b]
    ensures OutBelow(before, if n in now[b] then now[b := now[b] - {n}] else now, n, b + 1)
  {
  }

  lemma CountStep(m: Infos, m': Infos, n: nat, count: int)
    requires Counted(m, m', n, count)
    ensures n in m' && Counted(m, m'[n := m'[n].(nRefCount := m'[n].nRefCount - 1)], n, count - 1)
  {
  }

  lemma OutAll(before: seq<set<nat>>, now: seq<set<nat>>, m: Infos, m': Infos, n: nat)
    requires OutBelow(before, now, n, |now|) && Counted(m, m', n, HeldFrom(before, n, |now|))
    ensures now == TakenOut(before, n) && n in m && m' == m[n := m[n].(nRefCount := 0)]
  {
  }

  lemma ExchangeEntries(m: Infos, m': Infos, n: nat, o: nat)
    requires n in m && o in m && n != o
    requires m' == (var cleared := m[n := m[n].(nRefCount := 0)];
                    var freed := cleared[o := cleared[o].(fInTried := false)];
                    var demoted := freed[o := freed[o].(nRefCount := 1)];
                    demoted[n := demoted[n].(fInTried := true)])
    ensures m' == m[n := Promoted(m[n])][o := Demoted(m[o])]
  {
  }

  /** Which entry a promotion into a full bucket sends back: the one at the named position, tried before and not after.
      It is the least recently successful one of those inspected exactly if the round that found that one drew zero. */
  lemma EvictsLeast(k: Hashing, t: Tables, t': Tables, n: nat, origin: nat, pick: Pick, c: nat)
    requires Consistent(k, t, None) && PromotionOf(k, t, t', n, origin, pick, c) && !t.mapInfo[n].fInTried
    requires |t.vvTried[TriedBucket(k, t.mapInfo[n])]| == TRIED_BUCKET_SIZE
    ensures |pick.draws| == TRIED_ENTRIES_INSPECT_ON_EVICT && LeastOf(t.mapInfo, pick.order, |pick.draws|, pick.winner)
    ensures 0 <= pick.pos < |pick.order| && pick.order[pick.pos] in t'.mapInfo
    ensures t.mapInfo[pick.order[pick.pos]].fInTried && !t'.mapInfo[pick.order[pick.pos]].fInTried
    ensures pick.order[pick.pos] == pick.order[pick.winner] <==> pick.draws[pick.winner] == 0
    ensures var o := t.mapInfo[pick.order[pick.pos]]; var own := k.toNew(o.addr.ip, o.source) % 256;
            && TriedBucket(k, o) == TriedBucket(k, t.mapInfo[n])
               == k.toTried(t.mapInfo[n].addr.ip, t.mapInfo[n].addr.port) % 64
            && own < |t.vvNew| && c < |t'.vvNew| && pick.order[pick.pos] in t'.vvNew[c]
            && c == if |t.vvNew[own] - {n}| < NEW_BUCKET_SIZE then own else origin
  {
    var v := t.vvTried[TriedBucket(k, t.mapInfo[n])];
    TriedKnown(k, t, TriedBucket(k, t.mapInfo[n]));
    TriedOnce(k, t, TriedBucket(k, t.mapInfo[n]));
    hide Consistent, Shuffled, TakenOut, LeastOf, Drawn;
    PickIsLeast(t.mapInfo, v, pick);
    ShuffledKnown(v, pick.order, pick.pos);
  }

  lemma TriedOnce(k: Hashing, t: Tables, b: nat)
    requires Consistent(k, t, None) && b < |t.vvTried|
    ensures forall i, j :: 0 <= i < j < |t.vvTried[b]| ==> t.vvTried[b][i] != t.vvTried[b][j]
  {
  }
}
