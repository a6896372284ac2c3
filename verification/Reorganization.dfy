/**
 Disconnecting one branch and connecting another: the index that results is the replay
 of the new branch.
 */
module Reorganization {
  import opened Ledger
  import opened LedgerUndo
  import opened LedgerValue
  import opened Replay

  /** Disconnects the blocks of `chain` from position `k` on, the last one first. */
  function DisconnectDown(idx: Index, chain: seq<Placed>, k: nat): Option<Index>
    requires k <= |chain|
    decreases |chain|
  {
    if |chain| == k then Some(idx)
    else
      match DisconnectTxs(idx, chain[|chain| - 1].block.vtx)
      case None => None
      case Some(i) => DisconnectDown(i, chain[..|chain| - 1], k)
  }

  /** Connects blocks `k` to `j` of `chain` onto `s`. */
  function ConnectOnto(r: Rules, read: Reader, chain: seq<Placed>, k: nat, j: nat, s: Outcome): Option<Outcome>
    requires 1 <= k <= j <= |chain|
    decreases j
  {
    if j == k then Some(s)
    else
      match ConnectOnto(r, read, chain, k, j - 1, s)
      case None => None
      case Some(o) => Advance(r, read, o, chain[j - 1].block, TipWhere(chain[..j]))
  }

  lemma DisconnectNone(idx: Index, chain: seq<Placed>)
    ensures DisconnectDown(idx, chain, |chain|) == Some(idx)
  {
  }

  lemma ConnectOne(r: Rules, read: Reader, chain: seq<Placed>, k: nat, s: Outcome)
    requires 1 <= k < |chain|
    ensures ConnectOnto(r, read, chain, k, k + 1, s) == Advance(r, read, s, chain[k].block, TipWhere(chain[..k + 1]))
  {
    hide Advance;
    assert ConnectOnto(r, read, chain, k, k, s) == Some(s);
  }

  lemma {:induction false} ConnectOntoFails(r: Rules, read: Reader, chain: seq<Placed>, k: nat, i: nat, j: nat,
                                            s: Outcome)
    requires 1 <= k <= i <= j <= |chain| && ConnectOnto(r, read, chain, k, i, s).None?
    ensures ConnectOnto(r, read, chain, k, j, s).None?
    decreases j
  {
    hide Advance;
    if i < j {
      ConnectOntoFails(r, read, chain, k, i, j - 1, s);
    }
  }

  /** `s` stands for the replay `f`: same supply, same index up to fully spent entries, or exactly. */
  ghost predicate StandsFor(s: Outcome, f: Outcome, exact: bool) {
    s.supply == f.supply && UpToSpent(s.idx, f.idx) && (exact ==> s.idx == f.idx)
  }

  lemma {:induction false} DownFollows(r: Rules, read: Reader, idx: Index, chain: seq<Placed>, k: nat)
    requires 1 <= k <= |chain| && ReplayChain(r, read, chain).Some?
    requires UpToSpent(idx, ReplayChain(r, read, chain).value.idx) && DisconnectDown(idx, chain, k).Some?
    ensures ReplayChain(r, read, chain[..k]).Some?
    ensures UpToSpent(DisconnectDown(idx, chain, k).value, ReplayChain(r, read, chain[..k]).value.idx)
    decreases |chain|
  {
    if k < |chain| {
      var rest, last := chain[..|chain| - 1], chain[|chain| - 1].block;
      DisconnectUpToSpent(r, read, idx, ReplayChain(r, read, rest).value.idx, last, TipWhere(chain));
      DownFollows(r, read, DisconnectTxs(idx, last.vtx).value, rest, k);
      assert rest[..k] == chain[..k];
    } else {
      assert chain[..k] == chain;
    }
  }

  lemma {:induction false} DownExact(r: Rules, read: Reader, chain: seq<Placed>, k: nat)
    requires 1 <= k <= |chain| && ReplayChain(r, read, chain).Some? && NoRepeats(chain)
    ensures ReplayChain(r, read, chain[..k]).Some?
    ensures DisconnectDown(ReplayChain(r, read, chain).value.idx, chain, k)
              == Some(ReplayChain(r, read, chain[..k]).value.idx)
    decreases |chain|
  {
    hide Advance, DisconnectTxs;
    if k < |chain| {
      var rest := chain[..|chain| - 1];
      TipDisconnects(r, read, chain);
      DownExact(r, read, rest, k);
      assert rest[..k] == chain[..k];
    } else {
      assert chain[..k] == chain;
    }
  }

  // ---------- exactly when a branch can be disconnected ----------

  /** The ids of the blocks of a chain from position `j` on. */
  ghost function IdsFrom(chain: seq<Placed>, j: nat): set<Hash>
    decreases |chain|
  {
    if j >= |chain| then {} else IdsFrom(chain[..|chain| - 1], j) + Txids(chain[|chain| - 1].block.vtx)
  }

  /** No block of the branch from `k` on spends from an id that is `gone` or that a later block of the branch has
      again. */
  ghost predicate Undoable(chain: seq<Placed>, k: nat, gone: set<Hash>) {
    forall j :: k <= j < |chain| ==> UndoableAt(chain, j, gone)
  }

  ghost predicate UndoableAt(chain: seq<Placed>, j: nat, gone: set<Hash>) {
    j < |chain| && NoneSpendsFrom(chain[j].block.vtx, gone + IdsFrom(chain, j + 1))
  }

  lemma UndoableStep(chain: seq<Placed>, k: nat, gone: set<Hash>)
    requires k < |chain|
    ensures var rest, vtx := chain[..|chain| - 1], chain[|chain| - 1].block.vtx;
            Undoable(chain, k, gone) <==> NoneSpendsFrom(vtx, gone) && Undoable(rest, k, gone + Txids(vtx))
  {
    hide NoneSpendsFrom, Txids;
    var l := |chain| - 1;
    var rest, vtx := chain[..l], chain[l].block.vtx;
    var more := gone + Txids(vtx);
    assert gone + IdsFrom(chain, l + 1) == gone;
    assert UndoableAt(chain, l, gone) <==> NoneSpendsFrom(vtx, gone);
    forall j | k <= j < l ensures UndoableAt(chain, j, gone) <==> UndoableAt(rest, j, more) {
      assert rest[j] == chain[j];
      assert gone + IdsFrom(chain, j + 1) == more + IdsFrom(rest, j + 1);
    }
    if Undoable(rest, k, more) && NoneSpendsFrom(vtx, gone) {
      forall j | k <= j < |chain| ensures UndoableAt(chain, j, gone) {
        assert j < l ==> UndoableAt(rest, j, more);
      }
    }
    if Undoable(chain, k, gone) {
      assert UndoableAt(chain, l, gone);
      forall j | k <= j < |rest| ensures UndoableAt(rest, j, more) {
        assert UndoableAt(chain, j, gone);
      }
    }
  }

  /** Disconnecting a branch from an index that lacks the ids `gone`: succeeds exactly if the branch is undoable, and
      leaves the replay up to the fork without these ids and without those of the branch. */
  lemma {:induction false} DownExactly(r: Rules, read: Reader, chain: seq<Placed>, k: nat, gone: set<Hash>)
    requires 1 <= k <= |chain| && ReplayChain(r, read, chain).Some?
    ensures ReplayChain(r, read, chain[..k]).Some?
    ensures DisconnectDown(ReplayChain(r, read, chain).value.idx - gone, chain, k)
            == if Undoable(chain, k, gone)
              then Some(ReplayChain(r, read, chain[..k]).value.idx - (gone + IdsFrom(chain, k))) else None
    decreases |chain|
  {
    hide DisconnectTxs, NoneSpendsFrom, Txids, ConnectTxs, Undoable;
    if k < |chain| {
      var l := |chain| - 1;
      var rest, b := chain[..l], chain[l].block;
      var base, n := ReplayChain(r, read, rest).value.idx, |b.vtx|;
      UndoableStep(chain, k, gone);
      assert b.vtx[..n] == b.vtx;
      UndoTxs(r, read, base, b.vtx, TipWhere(chain), n, gone);
      assert base - gone - Txids(b.vtx) == base - (gone + Txids(b.vtx));
      DownExactly(r, read, rest, k, gone + Txids(b.vtx));
      assert rest[..k] == chain[..k];
      assert gone + IdsFrom(chain, k) == gone + Txids(b.vtx) + IdsFrom(rest, k);
    } else {
      UndoableNone(chain, k, gone);
      assert chain[..k] == chain && gone + IdsFrom(chain, k) == gone;
    }
  }

  lemma UndoableNone(chain: seq<Placed>, k: nat, gone: set<Hash>)
    requires k >= |chain|
    ensures Undoable(chain, k, gone)
  {
  }

  /** The ids that a replay has and an index lacks. */
  ghost function Missing(idx: Index, full: Index): set<Hash> {
    full.Keys - idx.Keys
  }

  /** For an index that lacks some fully spent entries of the replay. */
  lemma DisconnectsExactly(r: Rules, read: Reader, idx: Index, chain: seq<Placed>, k: nat)
    requires 1 <= k <= |chain| && ReplayChain(r, read, chain).Some?
             && UpToSpent(idx, ReplayChain(r, read, chain).value.idx)
    ensures DisconnectDown(idx, chain, k).Some? <==>
              Undoable(chain, k, Missing(idx, ReplayChain(r, read, chain).value.idx))
  {
    hide ReplayChain, DisconnectDown, Undoable;
    var full := ReplayChain(r, read, chain).value.idx;
    assert full - Missing(idx, full) == idx;
    DownExactly(r, read, chain, k, Missing(idx, full));
  }

  lemma TipIsRecent(chain: seq<Placed>)
    requires chain != []
    ensures TipWhere(chain).at in TipWhere(chain).recent && TipWhere(chain).at == chain[|chain| - 1].at
  {
    var w := TipWhere(chain);
    assert w.recent[|w.recent| - 1] == chain[|chain| - 1].at;
  }

  lemma AdvanceFollows(r: Rules, read: Reader, s: Outcome, f: Outcome, exact: bool, b: Block, w: Where)
    requires StandsFor(s, f, exact) && Stored(read, b.vtx, w.at) && w.at in w.recent
    ensures var x := Advance(r, read, s, b, w); var y := Advance(r, read, f, b, w);
      (x.Some? <==> y.Some?) && (y.Some? ==> StandsFor(x.value, y.value, exact))
  {
    ConnectBlockUpToSpent(r, read, s.idx, f.idx, b, w);
  }

  /** Connecting onto an index that stands for a replay succeeds exactly when the replay goes on, and stands for it. */
  lemma {:induction false} OntoFollows(r: Rules, read: Reader, chain: seq<Placed>, k: nat, j: nat, s: Outcome,
                                       exact: bool)
    requires 1 <= k <= j <= |chain| && AllStored(read, chain)
    requires ReplayChain(r, read, chain[..k]).Some? && StandsFor(s, ReplayChain(r, read, chain[..k]).value, exact)
    ensures var o := ConnectOnto(r, read, chain, k, j, s); var f := ReplayChain(r, read, chain[..j]);
      && (o.Some? <==> f.Some?)
      && (f.Some? ==> StandsFor(o.value, f.value, exact))
    decreases j
  {
    hide Advance, StandsFor, ReplayChain, ConnectOnto, TipWhere, Stored;
    if j > k {
      OntoFollows(r, read, chain, k, j - 1, s, exact);
      OneMore(r, read, chain, k, j, s);
      var o := ConnectOnto(r, read, chain, k, j - 1, s);
      if o.Some? {
        TipIsRecent(chain[..j]);
        var f := ReplayChain(r, read, chain[..j - 1]).value;
        AdvanceFollows(r, read, o.value, f, exact, chain[j - 1].block, TipWhere(chain[..j]));
      }
    } else {
      ConnectNone(r, read, chain, k, s);
    }
  }

  lemma ConnectNone(r: Rules, read: Reader, chain: seq<Placed>, k: nat, s: Outcome)
    requires 1 <= k <= |chain|
    ensures ConnectOnto(r, read, chain, k, k, s) == Some(s)
  {
  }

  /** What one more block does to a replay and to a branch being connected. */
  lemma OneMore(r: Rules, read: Reader, chain: seq<Placed>, k: nat, j: nat, s: Outcome)
    requires 1 <= k < j <= |chain|
    ensures ReplayChain(r, read, chain[..j]) == match ReplayChain(r, read, chain[..j - 1])
                                                case None => None
                                                case Some(f) => Advance(r, read, f, chain[j - 1].block,
                                                    TipWhere(chain[..j]))
    ensures ConnectOnto(r, read, chain, k, j, s) == match ConnectOnto(r, read, chain, k, j - 1, s)
                                                    case None => None
                                                    case Some(o) => Advance(r, read, o, chain[j - 1].block,
                                                        TipWhere(chain[..j]))
  {
    hide Advance, TipWhere;
    assert chain[..j][..j - 1] == chain[..j - 1] && chain[..j][j - 1] == chain[j - 1];
  }

  /** A reorganization from the branch `prior` to the branch `next`, which share their first `k` blocks, up to block
      `j`. */
  lemma ReorganizeFollows(r: Rules, read: Reader, idx: Index, prior: seq<Placed>, next: seq<Placed>, k: nat, j: nat,
                          supply: int, exact: bool)
    requires 1 <= k <= |prior| && k <= j <= |next| && prior[..k] == next[..k] && AllStored(read, next)
    requires ReplayChain(r, read, prior).Some? && UpToSpent(idx, ReplayChain(r, read, prior).value.idx)
    requires ReplayChain(r, read, prior[..k]).Some? ==> supply == ReplayChain(r, read, prior[..k]).value.supply
    requires exact ==> NoRepeats(prior) && idx == ReplayChain(r, read, prior).value.idx
    ensures exact ==> DisconnectDown(idx, prior, k).Some?
    ensures DisconnectDown(idx, prior, k).Some? ==>
              var o := ConnectOnto(r, read, next, k, j, Outcome(DisconnectDown(idx, prior, k).value, supply, 0));
              var f := ReplayChain(r, read, next[..j]);
              (o.Some? <==> f.Some?) && (f.Some? ==> StandsFor(o.value, f.value, exact))
  {
    hide ReplayChain, DisconnectDown, ConnectOnto, NoRepeats, AllStored, UpToSpent;
    if exact {
      DownExact(r, read, prior, k);
    }
    if DisconnectDown(idx, prior, k).Some? {
      DownFollows(r, read, idx, prior, k);
      OntoFollows(r, read, next, k, j, Outcome(DisconnectDown(idx, prior, k).value, supply, 0), exact);
    }
  }
}
