/**
 The order in which pool transactions are considered for a block: those whose inputs are
 on the chain wait in a priority queue; the others wait for their parents in the pool.
 */
module MinerQueue {
  import opened Ledger
  import opened Assembly

  /** A transaction that may be considered, with its ranks. */
  datatype Ready = Ready(priority: real, feePerKb: real, id: Hash)

  /** A transaction that waits for the parents in `dependsOn`. */
  datatype Orphan = Orphan(dependsOn: set<Hash>, priority: real, feePerKb: real)

  type Orphans = map<Hash, Orphan>
  type Dependers = map<Hash, seq<Hash>>

  predicate Less(byFee: bool, a: Ready, b: Ready) {
    if byFee then if a.feePerKb == b.feePerKb then a.priority < b.priority else a.feePerKb < b.feePerKb
    else if a.priority == b.priority then a.feePerKb < b.feePerKb else a.priority < b.priority
  }

  ghost predicate Queued(ready: seq<Ready>, h: Hash) {
    exists i :: 0 <= i < |ready| && ready[i].id == h
  }

  ghost predicate NoneTwice(ready: seq<Ready>) {
    forall i, j :: 0 <= i < j < |ready| ==> ready[i].id != ready[j].id
  }

  /** Takes a transaction of the highest rank off the queue. */
  method PopBest(ready: seq<Ready>, byFee: bool) returns (best: Ready, rest: seq<Ready>, ghost at: nat)
    requires ready != []
    ensures at < |ready| && best == ready[at] && rest == ready[..at] + ready[at + 1..]
    ensures forall i :: 0 <= i < |ready| ==> !Less(byFee, best, ready[i])
  {
    var k := 0;
    for i := 1 to |ready|
      invariant 0 <= k < i && forall j :: 0 <= j < i ==> !Less(byFee, ready[k], ready[j])
    {
      if Less(byFee, ready[k], ready[i]) {
        k := i;
      }
    }
    best, rest, at := ready[k], ready[..k] + ready[k + 1..], k;
  }

  // ---------- who waits for whom ----------

  /** The transactions that may go into a block, with their parents that are not on the chain. */
  type Parents = map<Hash, set<Hash>>

  /** Exactly the transactions all of whose parents are included were ever queued; the others wait for the rest. */
  ghost predicate Bookkeeping(parents: Parents, included: set<Hash>, popped: set<Hash>, ready: seq<Ready>,
                              orphans: Orphans)
  {
    && NoneTwice(ready)
    && (forall h :: Queued(ready, h) ==> h !in popped)
    && (forall h :: Queued(ready, h) || h in popped <==> Released(parents, included, h))
    && (forall h :: h in orphans <==> h in parents && parents[h] != {})
    && (forall h :: h in orphans ==> orphans[h].dependsOn == parents[h] - included)
  }

  ghost predicate Released(parents: Parents, included: set<Hash>, h: Hash) {
    h in parents && parents[h] <= included
  }

  ghost predicate Lists(dependers: Dependers, p: Hash, h: Hash) {
    p in dependers && h in dependers[p]
  }

  ghost predicate DependersOk(parents: Parents, dependers: Dependers) {
    forall p, h :: Lists(dependers, p, h) <==> h in parents && p in parents[h]
  }

  lemma PopKeeps(parents: Parents, included: set<Hash>, popped: set<Hash>, ready: seq<Ready>, orphans: Orphans, at: nat)
    requires Bookkeeping(parents, included, popped, ready, orphans) && at < |ready|
    ensures var id := ready[at].id;
            && id in parents && id !in popped && parents[id] <= included
            && Bookkeeping(parents, included, popped + {id}, ready[..at] + ready[at + 1..], orphans)
  {
    var id, rest := ready[at].id, ready[..at] + ready[at + 1..];
    assert Queued(ready, id);
    assert Released(parents, included, id);
    forall h ensures Queued(rest, h) <==> Queued(ready, h) && h != id {
      RemovedOne(ready, at, h);
    }
  }

  lemma RemovedOne(ready: seq<Ready>, at: nat, h: Hash)
    requires NoneTwice(ready) && at < |ready|
    ensures Queued(ready[..at] + ready[at + 1..], h) <==> Queued(ready, h) && h != ready[at].id
  {
    var rest := ready[..at] + ready[at + 1..];
    if Queued(ready, h) && h != ready[at].id {
      var i :| 0 <= i < |ready| && ready[i].id == h;
      assert rest[if i < at then i else i - 1].id == h;
    }
    if Queued(rest, h) {
      var i :| 0 <= i < |rest| && rest[i].id == h;
      assert ready[if i < at then i else i + 1].id == h;
    }
  }

  // ---------- releasing ----------

  /** A transaction that waits for `hash` and nothing else. */
  ghost predicate Freed(orphans: Orphans, list: seq<Hash>, hash: Hash, h: Hash) {
    h in list && h in orphans && orphans[h].dependsOn != {} && orphans[h].dependsOn - {hash} == {}
  }

  /** The queue and the orphans after the listed ones were told that `hash` is included. */
  ghost predicate Told(ready: seq<Ready>, orphans: Orphans, ready': seq<Ready>, orphans': Orphans, list: seq<Hash>,
                       hash: Hash)
  {
    && NoneTwice(ready') && orphans'.Keys == orphans.Keys && RanksKept(ready, orphans, ready')
    && (forall h :: Queued(ready', h) <==> Queued(ready, h) || Freed(orphans, list, hash, h))
    && (forall h :: h in orphans ==>
         orphans'[h] == orphans[h].(dependsOn := orphans[h].dependsOn - if h in list then {hash} else {}))
  }

  /** Queued transactions carry the ranks they had, in the queue or as orphans. */
  ghost predicate RanksKept(ready: seq<Ready>, orphans: Orphans, ready': seq<Ready>) {
    forall i :: 0 <= i < |ready'| ==> ready'[i] in ready || RankOfOrphan(orphans, ready'[i])
  }

  ghost predicate RankOfOrphan(orphans: Orphans, e: Ready) {
    e.id in orphans && e.priority == orphans[e.id].priority && e.feePerKb == orphans[e.id].feePerKb
  }

  lemma ToldNone(ready: seq<Ready>, orphans: Orphans, hash: Hash)
    requires NoneTwice(ready)
    ensures Told(ready, orphans, ready, orphans, [], hash)
  {
  }

  /** Nothing queued waits for anything. */
  ghost predicate QueuedAreFree(ready: seq<Ready>, orphans: Orphans) {
    forall h :: Queued(ready, h) && h in orphans ==> orphans[h].dependsOn == {}
  }

  lemma QueuedPush(ready: seq<Ready>, e: Ready, h: Hash)
    ensures Queued(ready + [e], h) <==> Queued(ready, h) || h == e.id
  {
    var all := ready + [e];
    assert all[|ready|] == e;
    if Queued(ready, h) {
      var i :| 0 <= i < |ready| && ready[i].id == h;
      assert all[i].id == h;
    }
  }

  lemma NoneTwicePush(ready: seq<Ready>, e: Ready)
    requires NoneTwice(ready) && !Queued(ready, e.id)
    ensures NoneTwice(ready + [e])
  {
  }

  lemma ToldStep(ready: seq<Ready>, orphans: Orphans, ready': seq<Ready>, orphans': Orphans, list: seq<Hash>,
                 hash: Hash, x: Hash)
    requires Told(ready, orphans, ready', orphans', list, hash) && QueuedAreFree(ready, orphans) && x in orphans
    ensures x in orphans'
    ensures var dep := orphans'[x].dependsOn;
            && (dep == {} ==> Told(ready, orphans, ready', orphans', list + [x], hash))
            && (dep != {} ==>
                 var o := orphans'[x].(dependsOn := dep - {hash});
                 var r := if dep - {hash} == {} then ready' + [Ready(o.priority, o.feePerKb, x)] else ready';
                 Told(ready, orphans, r, orphans'[x := o], list + [x], hash))
  {
    var all := list + [x];
    assert forall h :: h in all <==> h in list || h == x;
    var dep := orphans'[x].dependsOn;
    assert orphans'[x] == orphans[x].(dependsOn := orphans[x].dependsOn - if x in list then {hash} else {});
    if dep != {} && dep - {hash} == {} {
      var e := Ready(orphans'[x].priority, orphans'[x].feePerKb, x);
      forall h ensures Queued(ready' + [e], h) <==> Queued(ready', h) || h == x {
        QueuedPush(ready', e, h);
      }
      assert !Freed(orphans, list, hash, x);
      NoneTwicePush(ready', e);
    }
  }

  /** Tells the listed orphans that `hash` is included and queues those that waited for nothing else. */
  method Release(ready: seq<Ready>, orphans: Orphans, list: seq<Hash>, hash: Hash)
    returns (ready': seq<Ready>, orphans': Orphans)
    requires NoneTwice(ready) && QueuedAreFree(ready, orphans) && forall i :: 0 <= i < |list| ==> list[i] in orphans
    ensures Told(ready, orphans, ready', orphans', list, hash)
  {
    hide Told, QueuedAreFree, NoneTwice;
    ready', orphans' := ready, orphans;
    ToldNone(ready, orphans, hash);
    for k := 0 to |list|
      invariant Told(ready, orphans, ready', orphans', list[..k], hash)
    {
      var x := list[k];
      ToldStep(ready, orphans, ready', orphans', list[..k], hash, x);
      assert list[..k] + [x] == list[..k + 1];
      if orphans'[x].dependsOn != {} {
        orphans' := orphans'[x := orphans'[x].(dependsOn := orphans'[x].dependsOn - {hash})];
        if orphans'[x].dependsOn == {} {
          ready' := ready' + [Ready(orphans'[x].priority, orphans'[x].feePerKb, x)];
        }
      }
    }
    assert list[..|list|] == list;
  }

  /** After a transaction is included and its dependers are told, the books are right again. */
  lemma IncludeKeeps(parents: Parents, included: set<Hash>, popped: set<Hash>, ready: seq<Ready>, orphans: Orphans,
                     dependers: Dependers, hash: Hash, ready': seq<Ready>, orphans': Orphans)
    requires Bookkeeping(parents, included, popped, ready, orphans) && DependersOk(parents, dependers)
             && hash !in included
    requires Told(ready, orphans, ready', orphans', if hash in dependers then dependers[hash] else [], hash)
    ensures Bookkeeping(parents, included + {hash}, popped, ready', orphans')
  {
    var list := if hash in dependers then dependers[hash] else [];
    forall h ensures Queued(ready', h) || h in popped <==> Released(parents, included + {hash}, h) {
      assert Queued(ready, h) || h in popped <==> Released(parents, included, h);
      assert h in list <==> Lists(dependers, hash, h);
      FreedIs(parents, included, orphans, list, hash, h);
    }
    forall h | Queued(ready', h) ensures h !in popped {
      assert h in popped ==> Released(parents, included, h);
    }
    forall h | h in orphans' ensures orphans'[h].dependsOn == parents[h] - (included + {hash}) {
      assert h in list <==> Lists(dependers, hash, h);
    }
  }

  lemma FreedIs(parents: Parents, included: set<Hash>, orphans: Orphans, list: seq<Hash>, hash: Hash, h: Hash)
    requires h in orphans <==> h in parents && parents[h] != {}
    requires h in orphans ==> orphans[h].dependsOn == parents[h] - included
    requires hash !in included && (h in list <==> h in parents && hash in parents[h])
    ensures Freed(orphans, list, hash, h) <==>
              Released(parents, included + {hash}, h) && !Released(parents, included, h)
  {
  }

  lemma FreeInBooks(parents: Parents, included: set<Hash>, popped: set<Hash>, ready: seq<Ready>, orphans: Orphans)
    requires Bookkeeping(parents, included, popped, ready, orphans)
    ensures NoneTwice(ready) && QueuedAreFree(ready, orphans)
  {
    forall h | Queued(ready, h) && h in orphans ensures orphans[h].dependsOn == {} {
      assert Released(parents, included, h);
    }
  }
}
