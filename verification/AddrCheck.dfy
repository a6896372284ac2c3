/**
 The address manager's own consistency check, as an executable walk over all structures,
 and the proof that it never reports a structural fault.
 */
module AddrCheck {
  import opened Ledger
  import opened AddrTables
  import opened Ordering
  import opened AddrStore

  /** What the check demands of an entry's times. */
  predicate TimesOk(i: Info) {
    (i.fInTried ==> i.nLastSuccess != 0) && i.nLastTry >= 0 && i.nLastSuccess >= 0
  }

  /** The code for one entry, zero if it passes. */
  function EntryError(t: Tables, n: nat, i: Info): int {
    var flags :=
      if i.fInTried then if i.nLastSuccess == 0 then -1 else if i.nRefCount != 0 then -2 else 0
      else if i.nRefCount < 0 || i.nRefCount > NEW_BUCKETS_PER_ADDRESS then -3 else if i.nRefCount == 0 then -4 else 0;
    if flags != 0 then flags
    else if (if i.addr.ip in t.mapAddr then t.mapAddr[i.addr.ip] else 0) != n then -5
    else if i.nRandomPos < 0 || i.nRandomPos >= |t.vRandom| || t.vRandom[i.nRandomPos] != n then -14
    else if i.nLastTry < 0 then -6
    else if i.nLastSuccess < 0 then -8
    else 0
  }

  lemma EntryPasses(k: Hashing, t: Tables, n: nat)
    requires Consistent(k, t, None) && n in t.mapInfo
    ensures EntryError(t, n, t.mapInfo[n]) in {0, -1, -6, -8}
    ensures EntryError(t, n, t.mapInfo[n]) == 0 <==> TimesOk(t.mapInfo[n])
  {
  }

  /** The reference counts of the new entries. */
  ghost predicate CountsOf(m: Infos, mapNew: map<nat, int>, done: seq<nat>) {
    && (forall n :: n in mapNew <==> n in done && n in m && !m[n].fInTried)
    && (forall n :: n in mapNew && n in m ==> mapNew[n] == m[n].nRefCount)
  }

  ghost predicate TriedOf(m: Infos, setTried: set<nat>, done: seq<nat>) {
    forall n :: n in setTried <==> n in done && n in m && m[n].fInTried
  }

  /** Walks the entries. */
  method CheckEntries(t: Tables, ghost k: Hashing) returns (err: int, setTried: set<nat>, mapNew: map<nat, int>)
    ensures err == 0 ==>
              TriedOf(t.mapInfo, setTried, Ascending(t.mapInfo.Keys))
                && CountsOf(t.mapInfo, mapNew, Ascending(t.mapInfo.Keys))
    ensures Consistent(k, t, None) ==>
              err in {0, -1, -6, -8} && (err == 0 <==> forall n :: n in t.mapInfo ==> TimesOk(t.mapInfo[n]))
  {
    hide Consistent, EntryError, TimesOk, TriedOf, CountsOf;
    setTried, mapNew := {}, map[];
    var order := Ascending(t.mapInfo.Keys);
    WalkNone(t.mapInfo, order);
    for i := 0 to |order|
      invariant TriedOf(t.mapInfo, setTried, order[..i]) && CountsOf(t.mapInfo, mapNew, order[..i])
      invariant Consistent(k, t, None) ==> forall j :: 0 <= j < i ==>
                  order[j] in t.mapInfo && TimesOk(t.mapInfo[order[j]])
    {
      var n := order[i];
      var info := t.mapInfo[n];
      if Consistent(k, t, None) {
        EntryPasses(k, t, n);
      }
      WalkStep(t.mapInfo, order, i, setTried, mapNew);
      err := EntryError(t, n, info);
      if err != 0 {
        return;
      }
      if info.fInTried {
        setTried := setTried + {n};
      } else {
        mapNew := mapNew[n := info.nRefCount];
      }
    }
    assert order[..|order|] == order;
    err := 0;
  }

  lemma WalkNone(m: Infos, order: seq<nat>)
    ensures TriedOf(m, {}, order[..0]) && CountsOf(m, map[], order[..0])
  {
  }

  lemma WalkStep(m: Infos, order: seq<nat>, i: nat, setTried: set<nat>, mapNew: map<nat, int>)
    requires i < |order| && order[i] in m && TriedOf(m, setTried, order[..i]) && CountsOf(m, mapNew, order[..i])
    ensures var n := order[i];
            && TriedOf(m, if m[n].fInTried then setTried + {n} else setTried, order[..i + 1])
            && CountsOf(m, if m[n].fInTried then mapNew else mapNew[n := m[n].nRefCount], order[..i + 1])
  {
    assert order[..i + 1] == order[..i] + [order[i]];
  }

  // ---------- tried buckets ----------

  /** The tried ids that belong to buckets from `b` on, less those already seen of bucket `b`. */
  ghost predicate TriedLeft(k: Hashing, m: Infos, setTried: set<nat>, b: nat, seen: seq<nat>) {
    forall n :: n in setTried <==> n in m && m[n].fInTried && TriedBucket(k, m[n]) >= b && n !in seen
  }

  method CheckTried(vvTried: seq<seq<nat>>, setTried: set<nat>, ghost k: Hashing, ghost m: Infos)
    returns (err: int, rest: set<nat>)
    ensures err == 0 || err == -11
    ensures TriedMatches(k, m, vvTried) && |vvTried| == TRIED_BUCKET_COUNT && TriedLeft(k, m, setTried, 0, []) ==>
              err == 0 && rest == {}
  {
    hide TriedMatches, TriedLeft;
    ghost var fit := TriedMatches(k, m, vvTried) && |vvTried| == TRIED_BUCKET_COUNT && TriedLeft(k, m, setTried, 0, []);
    rest := setTried;
    for b := 0 to |vvTried|
      invariant fit ==> TriedLeft(k, m, rest, b, [])
    {
      var vTried := vvTried[b];
      for i := 0 to |vTried|
        invariant fit ==> TriedLeft(k, m, rest, b, vTried[..i])
      {
        if fit {
          TriedSeen(k, m, vvTried, b, i, rest);
        }
        if vTried[i] !in rest {
          return -11, rest;
        }
        rest := rest - {vTried[i]};
      }
      assert vTried[..|vTried|] == vTried;
      if fit {
        TriedPassed(k, m, vvTried, b, rest);
      }
    }
    if fit {
      TriedGone(k, m, rest);
    }
    err := 0;
  }

  lemma TriedSeen(k: Hashing, m: Infos, vvTried: seq<seq<nat>>, b: nat, i: nat, rest: set<nat>)
    requires TriedMatches(k, m, vvTried) && b < |vvTried| && i < |vvTried[b]|
             && TriedLeft(k, m, rest, b, vvTried[b][..i])
    ensures vvTried[b][i] in rest && TriedLeft(k, m, rest - {vvTried[b][i]}, b, vvTried[b][..i + 1])
  {
    var s := vvTried[b];
    assert TriedAt(k, m, s[i], b);
    assert s[..i + 1] == s[..i] + [s[i]];
    assert s[i] !in s[..i];
  }

  lemma TriedPassed(k: Hashing, m: Infos, vvTried: seq<seq<nat>>, b: nat, rest: set<nat>)
    requires TriedMatches(k, m, vvTried) && b < |vvTried| && TriedLeft(k, m, rest, b, vvTried[b])
    ensures TriedLeft(k, m, rest, b + 1, [])
  {
    forall n ensures n in rest <==> n in m && m[n].fInTried && TriedBucket(k, m[n]) >= b + 1 {
      if n in vvTried[b] {
        var i :| 0 <= i < |vvTried[b]| && vvTried[b][i] == n;
        assert TriedAt(k, m, vvTried[b][i], b);
      }
    }
  }

  lemma TriedGone(k: Hashing, m: Infos, rest: set<nat>)
    requires TriedLeft(k, m, rest, TRIED_BUCKET_COUNT, [])
    ensures rest == {}
  {
  }

  // ---------- new buckets ----------

  /** References still expected from buckets after `b`, and from bucket `b` for ids not yet seen there. */
  ghost function Expected(vvNew: seq<set<nat>>, n: nat, b: nat, seen: seq<nat>): int {
    HeldFrom(vvNew, n, b) - if n in seen then 1 else 0
  }

  ghost predicate NewLeft(vvNew: seq<set<nat>>, mapNew: map<nat, int>, b: nat, seen: seq<nat>) {
    forall n :: LeftAt(vvNew, mapNew, b, seen, n)
  }

  ghost predicate LeftAt(vvNew: seq<set<nat>>, mapNew: map<nat, int>, b: nat, seen: seq<nat>, n: nat) {
    (n in mapNew <==> Expected(vvNew, n, b, seen) > 0) && (n in mapNew ==> mapNew[n] == Expected(vvNew, n, b, seen))
  }

  method CheckNew(vvNew: seq<set<nat>>, mapNew: map<nat, int>) returns (err: int, rest: map<nat, int>)
    ensures err == 0 || err == -12
    ensures NewLeft(vvNew, mapNew, 0, []) ==> err == 0 && rest == map[]
  {
    hide NewLeft;
    ghost var fit := NewLeft(vvNew, mapNew, 0, []);
    rest := mapNew;
    for b := 0 to |vvNew|
      invariant fit ==> NewLeft(vvNew, rest, b, [])
    {
      var vNew := Ascending(vvNew[b]);
      for i := 0 to |vNew|
        invariant fit ==> NewLeft(vvNew, rest, b, vNew[..i])
      {
        if fit {
          NewSeen(vvNew, b, i, vNew, rest);
        }
        var x := vNew[i];
        if x !in rest {
          return -12, rest;
        }
        rest := rest[x := rest[x] - 1];
        if rest[x] == 0 {
          rest := rest - {x};
        }
      }
      assert vNew[..|vNew|] == vNew;
      if fit {
        NewPassed(vvNew, b, vNew, rest);
      }
    }
    if fit {
      NewGone(vvNew, rest);
    }
    err := 0;
  }

  function CountedDown(rest: map<nat, int>, x: nat): map<nat, int>
    requires x in rest
  {
    if rest[x] - 1 == 0 then rest[x := rest[x] - 1] - {x} else rest[x := rest[x] - 1]
  }

  lemma NewSeen(vvNew: seq<set<nat>>, b: nat, i: nat, vNew: seq<nat>, rest: map<nat, int>)
    requires b < |vvNew| && Increasing(vNew) && (forall x :: x in vvNew[b] <==> x in vNew) && i < |vNew|
    requires NewLeft(vvNew, rest, b, vNew[..i])
    ensures vNew[i] in rest && NewLeft(vvNew, CountedDown(rest, vNew[i]), b, vNew[..i + 1])
  {
    hide HeldFrom;
    var x, seen := vNew[i], vNew[..i];
    assert vNew[..i + 1] == seen + [x];
    assert x !in seen;
    HeldStep(vvNew, x, b);
    assert LeftAt(vvNew, rest, b, seen, x);
    var seen' := vNew[..i + 1];
    forall n ensures LeftAt(vvNew, CountedDown(rest, x), b, seen', n) {
      assert LeftAt(vvNew, rest, b, seen, n);
    }
  }

  lemma NewPassed(vvNew: seq<set<nat>>, b: nat, vNew: seq<nat>, rest: map<nat, int>)
    requires b < |vvNew| && (forall x :: x in vvNew[b] <==> x in vNew) && NewLeft(vvNew, rest, b, vNew)
    ensures NewLeft(vvNew, rest, b + 1, [])
  {
    hide HeldFrom;
    var next := b + 1;
    forall n ensures LeftAt(vvNew, rest, next, [], n) {
      assert LeftAt(vvNew, rest, b, vNew, n);
      HeldStep(vvNew, n, b);
    }
  }

  lemma NewGone(vvNew: seq<set<nat>>, rest: map<nat, int>)
    requires NewLeft(vvNew, rest, |vvNew|, [])
    ensures rest == map[]
  {
    forall n ensures n !in rest {
      assert LeftAt(vvNew, rest, |vvNew|, [], n);
    }
  }

  // ---------- the whole check ----------

  /** The check passes on consistent tables exactly if the entries' times make sense; the only codes it can
      report are those about times. */
  method Check(t: Tables, ghost k: Hashing) returns (err: int)
    ensures Consistent(k, t, None) ==> err in {0, -1, -6, -8}
    ensures Consistent(k, t, None) ==> (err == 0 <==> forall n :: n in t.mapInfo ==> TimesOk(t.mapInfo[n]))
  {
    hide Consistent, TriedOf, CountsOf, TriedLeft, NewLeft, TriedMatches, TimesOk;
    ghost var fit := Consistent(k, t, None);
    if fit {
      CheckSizes(k, t);
    }
    if |t.vRandom| != t.nTried + t.nNew {
      return -7;
    }
    var setTried, mapNew;
    err, setTried, mapNew := CheckEntries(t, k);
    if err != 0 {
      return;
    }
    if fit {
      CheckParts(k, t, setTried, mapNew);
    }
    if |setTried| != t.nTried {
      return -9;
    }
    if |mapNew| != t.nNew {
      return -10;
    }
    err, setTried := CheckTried(t.vvTried, setTried, k, t.mapInfo);
    if err != 0 {
      return;
    }
    err, mapNew := CheckNew(t.vvNew, mapNew);
    if err != 0 {
      return;
    }
    if setTried != {} {
      return -13;
    }
    if mapNew != map[] {
      return -15;
    }
    err := 0;
  }

  lemma CheckSizes(k: Hashing, t: Tables)
    requires Consistent(k, t, None)
    ensures |t.vRandom| == t.nTried + t.nNew
  {
    hide AddrsMatch, RefsMatch, TriedMatches, SizesOk;
    assert Elements(t.vRandom) == TriedIds(t.mapInfo) + NewIds(t.mapInfo);
    DistinctCount(t.vRandom);
  }

  lemma CheckParts(k: Hashing, t: Tables, setTried: set<nat>, mapNew: map<nat, int>)
    requires Consistent(k, t, None) && TriedOf(t.mapInfo, setTried, Ascending(t.mapInfo.Keys))
    requires CountsOf(t.mapInfo, mapNew, Ascending(t.mapInfo.Keys))
    ensures |setTried| == t.nTried && |mapNew| == t.nNew
    ensures TriedLeft(k, t.mapInfo, setTried, 0, []) && NewLeft(t.vvNew, mapNew, 0, [])
    ensures TriedMatches(k, t.mapInfo, t.vvTried) && |t.vvTried| == TRIED_BUCKET_COUNT
  {
    hide AddrsMatch, RandomMatches, TriedMatches, RefsMatch, NewLeft, TriedOf, CountsOf, TriedLeft, TriedIds, NewIds;
    TriedCounted(k, t.mapInfo, setTried);
    NewCounted(t.mapInfo, mapNew);
    CheckCounts(k, t, mapNew);
  }

  lemma TriedCounted(k: Hashing, m: Infos, setTried: set<nat>)
    requires TriedOf(m, setTried, Ascending(m.Keys))
    ensures setTried == TriedIds(m) && TriedLeft(k, m, setTried, 0, [])
  {
  }

  lemma NewCounted(m: Infos, mapNew: map<nat, int>)
    requires CountsOf(m, mapNew, Ascending(m.Keys))
    ensures |mapNew| == |NewIds(m)|
  {
    assert mapNew.Keys == NewIds(m);
  }

  lemma CheckCounts(k: Hashing, t: Tables, mapNew: map<nat, int>)
    requires Consistent(k, t, None) && CountsOf(t.mapInfo, mapNew, Ascending(t.mapInfo.Keys))
    ensures NewLeft(t.vvNew, mapNew, 0, [])
  {
    hide Consistent, HeldFrom;
    forall n ensures LeftAt(t.vvNew, mapNew, 0, [], n) {
      HeldTotal(k, t, n);
    }
  }

  lemma HeldTotal(k: Hashing, t: Tables, n: nat)
    requires Consistent(k, t, None)
    ensures n in t.mapInfo && !t.mapInfo[n].fInTried ==> HeldFrom(t.vvNew, n, 0) == t.mapInfo[n].nRefCount >= 1
    ensures !(n in t.mapInfo && !t.mapInfo[n].fInTried) ==> HeldFrom(t.vvNew, n, 0) == 0
  {
    HeldFromCounts(t.vvNew, n, 0);
    assert Holding(t.vvNew, n) == set c | 0 <= c < |t.vvNew| && n in t.vvNew[c];
    if n !in t.mapInfo {
      UnheldIsUnknown(t.mapInfo, t.vvNew, n);
    }
  }
}
