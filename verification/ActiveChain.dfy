/**
 The chain state machine: block index, links of the active chain, best tip, money
 supply per block, and the transaction database; connecting, reorganizing and
 switching to a new best chain.
 */
module ActiveChain {
  import opened Ledger
  import opened LedgerValue
  import opened LedgerOps
  import opened Replay
  import opened Reorganization
  import opened BlockTree
  import opened ChainView
  import opened HeaderRules
  import opened Database
  import opened Numbers
  import opened Sequences
  import Targets

  type Disk = map<DiskTxPos, Tx>

  function ReadFrom(disk: Disk): Reader {
    (h: Hash, p: DiskTxPos) => if p in disk then Some(disk[p]) else None
  }

  // ---------- walking the block index ----------

  /** The block `p` is the next one to visit after `visited` steps back from `h`. */
  ghost predicate WalkedBack(nodes: Nodes, genesis: Hash, h: Hash, p: Option<Hash>, visited: nat)
    requires Tree(nodes, genesis) && h in nodes
  {
    if p.None? then visited == nodes[h].height + 1
    else
      p.value in nodes && IsAncestor(nodes, genesis, p.value, h) && visited + nodes[p.value].height == nodes[h].height
  }

  lemma WalkBack(nodes: Nodes, genesis: Hash, h: Hash, p: Hash, visited: nat)
    requires Tree(nodes, genesis) && h in nodes && WalkedBack(nodes, genesis, h, Some(p), visited)
    ensures p in nodes && WalkedBack(nodes, genesis, h, nodes[p].prev, visited + 1)
    ensures nodes[p].height < |ChainTo(nodes, genesis, h)|
    ensures Positions(ChainTo(nodes, genesis, h))[nodes[p].height] == nodes[p].at
  {
    hide PathTo;
    AncestorAt(nodes, genesis, p, h);
    if p != genesis {
      StepBack(nodes, genesis, h, p);
    }
  }

  lemma TipWhereOf(nodes: Nodes, genesis: Hash, h: Hash)
    requires Tree(nodes, genesis) && h in nodes
    ensures var places := Positions(ChainTo(nodes, genesis, h));
      TipWhere(ChainTo(nodes, genesis, h))
      == Where(nodes[h].at, nodes[h].height, places[Max(0, |places| - COINBASE_MATURITY)..])
  {
    hide PathTo;
  }

  /** Places of the last 500 blocks up to `h`, found by walking back. */
  method RecentPositions(nodes: Nodes, ghost genesis: Hash, h: Hash) returns (recent: seq<BlockPos>)
    requires Tree(nodes, genesis) && h in nodes
    ensures TipWhere(ChainTo(nodes, genesis, h)) == Where(nodes[h].at, nodes[h].height, recent)
  {
    hide PathTo, ChainTo, Positions, TipWhere, IsAncestor, HasParent;
    ghost var places := Positions(ChainTo(nodes, genesis, h));
    ghost var k := |places|;
    assert IsAncestor(nodes, genesis, h, h) by { SelfAncestor(nodes, genesis, h); }
    recent := [];
    var p := Some(h);
    while p.Some? && nodes[h].height - nodes[p.value].height < COINBASE_MATURITY
      invariant WalkedBack(nodes, genesis, h, p, |recent|)
      invariant 0 <= k && |recent| + k == |places| && |recent| <= COINBASE_MATURITY
      invariant recent == places[k..]
      decreases k
    {
      WalkBack(nodes, genesis, h, p.value, |recent|);
      recent := [nodes[p.value].at] + recent;
      p := nodes[p.value].prev;
      k := k - 1;
      assert places[k..] == [places[k]] + places[k + 1..];
    }
    TipWhereOf(nodes, genesis, h);
    assert k == Max(0, |places| - COINBASE_MATURITY);
  }

  /** The blocks from `tip` back to, and without, `fork`. */
  method BranchDown(nodes: Nodes, ghost genesis: Hash, tip: Hash, fork: Hash) returns (list: seq<Hash>)
    requires Tree(nodes, genesis) && tip in nodes && fork in nodes && IsAncestor(nodes, genesis, fork, tip)
    ensures |list| == nodes[tip].height - nodes[fork].height
    ensures forall i :: 0 <= i < |list| ==> list[i] == PathTo(nodes, genesis, tip)[nodes[tip].height - i]
  {
    hide PathTo, IsAncestor;
    ghost var path := PathTo(nodes, genesis, tip);
    AncestorAt(nodes, genesis, fork, tip);
    list := [];
    var p := tip;
    while p != fork
      invariant p in nodes && nodes[p].height == nodes[tip].height - |list| >= nodes[fork].height
      invariant path[nodes[p].height] == p
      invariant forall i :: 0 <= i < |list| ==> list[i] == path[nodes[tip].height - i]
      decreases nodes[p].height
    {
      PathParent(nodes, genesis, tip, nodes[p].height - 1);
      list := list + [p];
      p := nodes[p].prev.value;
    }
  }

  // ---------- connecting and disconnecting branches ----------

  /** Disconnects a branch, tip first, inside the open database transaction. */
  method DisconnectBranch(db: TxDB, nodes: Nodes, list: seq<Hash>, ghost chain: seq<Placed>, ghost k: nat)
    returns (ok: bool)
    requires db.Valid() && db.active && k + |list| == |chain|
    requires forall i :: 0 <= i < |list| ==> list[i] in nodes && nodes[list[i]].block == chain[|chain| - 1 - i].block
    modifies db`batch
    ensures db.Valid()
    ensures var done := DisconnectDown(old(db.View()), chain, k);
      if ok then done == Some(db.View()) else done.None?
  {
    hide DisconnectTxs;
    ghost var rest := chain;
    for i := 0 to |list|
      invariant db.Valid() && rest == chain[..|chain| - i]
      invariant DisconnectDown(db.View(), rest, k) == DisconnectDown(old(db.View()), chain, k)
    {
      ghost var last := rest[|rest| - 1];
      rest := rest[..|rest| - 1];
      var done := DisconnectBlockOps(db, nodes[list[i]].block.vtx);
      if !done {
        return false;
      }
    }
    return true;
  }

  lemma AdvanceIgnoresBurned(r: Rules, read: Reader, s: Outcome, t: Outcome, b: Block, w: Where)
    requires s.idx == t.idx && s.supply == t.supply
    ensures var x := Advance(r, read, s, b, w); var y := Advance(r, read, t, b, w);
      && (x.Some? <==> y.Some?)
      && (x.Some? ==> x.value.idx == y.value.idx && x.value.supply == y.value.supply)
  {
    hide Ledger.ConnectBlock;
  }

  /** Connects a block and adds up the money supply after it. */
  method ConnectAdvance(db: TxDB, r: Rules, read: Reader, b: Block, w: Where, supply: int)
    returns (ok: bool, total: int)
    requires db.Valid() && db.active
    modifies db`batch
    ensures db.Valid()
    ensures var done := Advance(r, read, Outcome(old(db.View()), supply, 0), b, w);
      if ok then done.Some? && done.value.idx == db.View() && done.value.supply == total
      else done.None? && db.View() == old(db.View())
  {
    hide Ledger.ConnectBlock;
    var t;
    ok, t := ConnectBlockOps(db, r, read, b, w);
    total := supply + t.valueOut - t.valueIn - t.burned;
  }

  /** Connects the block at `h` inside the open database transaction and records the money supply after it. */
  method ConnectIndexed(db: TxDB, r: Rules, read: Reader, nodes: Nodes, ghost genesis: Hash, before: map<Hash, int>,
                        prev: Hash, h: Hash)
    returns (ok: bool, after: map<Hash, int>)
    requires db.Valid() && db.active && IsChild(nodes, genesis, prev, h) && prev in before
    modifies db`batch
    ensures db.Valid()
    ensures var done :=
              Advance(r, read, Outcome(old(db.View()), before[prev], 0), nodes[h].block,
                  TipWhere(ChainTo(nodes, genesis, h)));
      if ok then done.Some? && db.View() == done.value.idx && after == before[h := done.value.supply]
      else done.None? && db.View() == old(db.View()) && after == before
  {
    hide TipWhere, Advance;
    after := before;
    var recent := RecentPositions(nodes, genesis, h);
    var total;
    ok, total := ConnectAdvance(db, r, read, nodes[h].block, Where(nodes[h].at, nodes[h].height, recent),
        before[nodes[h].prev.value]);
    if ok {
      after := before[h := total];
    }
  }

  /** Recorded supplies follow the connecting of blocks `k` to `j` of a path, and are kept elsewhere. */
  ghost predicate Recorded(r: Rules, read: Reader, path: seq<Hash>, chain: seq<Placed>, k: nat, j: nat, s: Outcome,
                           before: map<Hash, int>, after: map<Hash, int>)
  {
    && 1 <= k <= j <= |path| == |chain|
    && after.Keys == before.Keys
    && (forall i :: k <= i < j ==> path[i] in after && RecordedAt(r, read, chain, k, i, s, after[path[i]]))
    && (forall g :: g in before && g !in path[k..j] ==> after[g] == before[g])
  }

  ghost predicate RecordedAt(r: Rules, read: Reader, chain: seq<Placed>, k: nat, i: nat, s: Outcome, amount: int) {
    && 1 <= k <= i < |chain|
    && ConnectOnto(r, read, chain, k, i + 1, s).Some?
    && ConnectOnto(r, read, chain, k, i + 1, s).value.supply == amount
  }

  lemma RecordOne(r: Rules, read: Reader, path: seq<Hash>, chain: seq<Placed>, k: nat, j: nat, s: Outcome,
                  before: map<Hash, int>, mid: map<Hash, int>, amount: int)
    requires Recorded(r, read, path, chain, k, j, s, before, mid) && j < |path| && path[j] in before
    requires forall i :: 0 <= i < j ==> path[i] != path[j]
    requires RecordedAt(r, read, chain, k, j, s, amount)
    ensures Recorded(r, read, path, chain, k, j + 1, s, before, mid[path[j] := amount])
  {
    hide RecordedAt;
    assert path[k..j + 1] == path[k..j] + [path[j]];
  }

  /** One more block of the branch, `j` of them being connected. */
  lemma OntoOneMore(r: Rules, read: Reader, nodes: Nodes, genesis: Hash, h: Hash, k: nat, j: nat, s: Outcome)
    requires Tree(nodes, genesis) && h in nodes && 1 <= k <= j <= nodes[h].height
    requires ConnectOnto(r, read, ChainTo(nodes, genesis, h), k, j, s).Some?
    ensures var path := PathTo(nodes, genesis, h);
            var o := ConnectOnto(r, read, ChainTo(nodes, genesis, h), k, j, s).value;
      && IsChild(nodes, genesis, path[j - 1], path[j])
      && ConnectOnto(r, read, ChainTo(nodes, genesis, h), k, j + 1, s)
         == Advance(r, read, o, nodes[path[j]].block, TipWhere(ChainTo(nodes, genesis, path[j])))
  {
    hide PathTo, Advance, TipWhere;
    PathParent(nodes, genesis, h, j - 1);
    ChainPrefix(nodes, genesis, h, j);
  }

  /** Connects a branch above block `k - 1` of the path to `h`, lowest block first. */
  method ConnectBranch(db: TxDB, r: Rules, read: Reader, nodes: Nodes, ghost genesis: Hash, before: map<Hash, int>,
                       list: seq<Hash>, ghost h: Hash, ghost k: nat)
    returns (ok: bool, after: map<Hash, int>)
    requires db.Valid() && db.active && Tree(nodes, genesis) && h in nodes && before.Keys == nodes.Keys
    requires 1 <= k && k + |list| == nodes[h].height + 1
    requires forall i :: 0 <= i < |list| ==> list[i] == PathTo(nodes, genesis, h)[k + i]
    modifies db`batch
    ensures db.Valid()
    ensures var path := PathTo(nodes, genesis, h); var chain := ChainTo(nodes, genesis, h);
      var s := Outcome(old(db.View()), before[path[k - 1]], 0); var done := ConnectOnto(r, read, chain, k, |path|, s);
      if ok then
        done.Some? && done.value.idx == db.View() && Recorded(r, read, path, chain, k, |path|, s, before, after)
      else
        done.None? && after.Keys == before.Keys && forall g :: g in before && g !in path[k..] ==> after[g] == before[g]
  {
    hide PathTo, Advance, TipWhere, Recorded, RecordedAt, Tree, Chain, ConnectOnto;
    ghost var path, chain := PathTo(nodes, genesis, h), ChainTo(nodes, genesis, h);
    ghost var s := Outcome(db.View(), before[path[k - 1]], 0);
    after := before;
    StartRecording(r, read, path, chain, k, s, before);
    for i := 0 to |list|
      invariant db.Valid() && ConnectOnto(r, read, chain, k, k + i, s).Some?
      invariant ConnectOnto(r, read, chain, k, k + i, s).value.idx == db.View()
      invariant after.Keys == before.Keys
                && ConnectOnto(r, read, chain, k, k + i, s).value.supply == after[path[k + i - 1]]
      invariant Recorded(r, read, path, chain, k, k + i, s, before, after)
    {
      ghost var j := k + i;
      ghost var o := ConnectOnto(r, read, chain, k, j, s).value;
      OntoOneMore(r, read, nodes, genesis, h, k, j, s);
      ghost var view, w := db.View(), TipWhere(ChainTo(nodes, genesis, path[j]));
      AdvanceIgnoresBurned(r, read, o, Outcome(view, after[path[j - 1]], 0), nodes[path[j]].block, w);
      ghost var mid := after;
      var connected;
      connected, after := ConnectIndexed(db, r, read, nodes, genesis, after, nodes[list[i]].prev.value, list[i]);
      if !connected {
        ConnectOntoFails(r, read, chain, k, j + 1, |path|, s);
        KeepsOffPath(r, read, path, chain, k, j, s, before, after);
        return false, after;
      }
      RecordPath(r, read, nodes, genesis, h, k, j, s, before, mid, after[path[j]]);
    }
    return true, after;
  }

  lemma StartRecording(r: Rules, read: Reader, path: seq<Hash>, chain: seq<Placed>, k: nat, s: Outcome,
                       before: map<Hash, int>)
    requires 1 <= k <= |path| == |chain|
    ensures Recorded(r, read, path, chain, k, k, s, before, before) && ConnectOnto(r, read, chain, k, k, s) == Some(s)
  {
  }

  lemma KeepsOffPath(r: Rules, read: Reader, path: seq<Hash>, chain: seq<Placed>, k: nat, j: nat, s: Outcome,
                     before: map<Hash, int>, after: map<Hash, int>)
    requires Recorded(r, read, path, chain, k, j, s, before, after)
    ensures after.Keys == before.Keys && forall g :: g in before && g !in path[k..] ==> after[g] == before[g]
  {
    assert forall g :: g in path[k..j] ==> g in path[k..];
  }

  lemma RecordPath(r: Rules, read: Reader, nodes: Nodes, genesis: Hash, h: Hash, k: nat, j: nat, s: Outcome,
                   before: map<Hash, int>, mid: map<Hash, int>, amount: int)
    requires Tree(nodes, genesis) && h in nodes && before.Keys == nodes.Keys && 1 <= k <= j <= nodes[h].height
    requires Recorded(r, read, PathTo(nodes, genesis, h), ChainTo(nodes, genesis, h), k, j, s, before, mid)
    requires ConnectOnto(r, read, ChainTo(nodes, genesis, h), k, j + 1, s).Some?
    requires ConnectOnto(r, read, ChainTo(nodes, genesis, h), k, j + 1, s).value.supply == amount
    ensures Recorded(r, read, PathTo(nodes, genesis, h), ChainTo(nodes, genesis, h), k, j + 1, s, before,
                     mid[PathTo(nodes, genesis, h)[j] := amount])
  {
    hide PathTo, ConnectOnto;
    var path := PathTo(nodes, genesis, h);
    assert forall i :: 0 <= i <= j ==> nodes[path[i]].height == i;
    RecordOne(r, read, path, ChainTo(nodes, genesis, h), k, j, s, before, mid, amount);
  }

  // ---------- links ----------

  /** Consecutive blocks of a path are parent and child. */
  ghost predicate Descends(nodes: Nodes, path: seq<Hash>) {
    forall j :: 0 < j < |path| ==> ChildAt(nodes, path, j)
  }

  ghost predicate ChildAt(nodes: Nodes, path: seq<Hash>, j: nat) {
    0 < j < |path| && path[j] in nodes && nodes[path[j]].prev == Some(path[j - 1])
  }

  lemma PathDescends(nodes: Nodes, genesis: Hash, h: Hash)
    requires Tree(nodes, genesis) && h in nodes
    ensures Descends(nodes, PathTo(nodes, genesis, h))
    ensures forall i, j :: 0 <= i < j <= nodes[h].height ==>
              PathTo(nodes, genesis, h)[i] != PathTo(nodes, genesis, h)[j]
  {
    hide PathTo;
    var path := PathTo(nodes, genesis, h);
    forall j | 0 < j < |path| ensures ChildAt(nodes, path, j) {
      PathParent(nodes, genesis, h, j - 1);
    }
    forall i, j | 0 <= i < j < |path| ensures path[i] != path[j] {
      assert nodes[path[i]].height == i && nodes[path[j]].height == j;
    }
  }

  /** Cuts the links to the blocks of a branch, which is the end of the path `p`, tip first. */
  method CutLinks(nodes: Nodes, pnext: map<Hash, Hash>, down: seq<Hash>, ghost p: seq<Hash>)
    returns (links: map<Hash, Hash>)
    requires Descends(nodes, p) && |down| < |p|
    requires forall i :: 0 <= i < |down| ==> down[i] == p[|p| - 1 - i]
    ensures forall g :: g in links <==> g in pnext && g !in p[|p| - 1 - |down|..|p| - 1]
    ensures forall g :: g in links ==> links[g] == pnext[g]
  {
    links := pnext;
    ghost var cut := [];
    for i := 0 to |down|
      invariant cut == p[|p| - 1 - i..|p| - 1]
      invariant forall g :: g in links <==> g in pnext && g !in cut
      invariant forall g :: g in links ==> links[g] == pnext[g]
    {
      assert ChildAt(nodes, p, |p| - 1 - i);
      links := links - {nodes[down[i]].prev.value};
      cut := [p[|p| - 2 - i]] + cut;
    }
  }

  /** Sets the links to the blocks of a branch, which is the end of the path `q`, lowest first. */
  method SetLinks(nodes: Nodes, pnext: map<Hash, Hash>, up: seq<Hash>, ghost q: seq<Hash>, ghost k: nat)
    returns (links: map<Hash, Hash>)
    requires Descends(nodes, q) && 1 <= k && k + |up| == |q| && forall i, j :: 0 <= i < j < |q| ==> q[i] != q[j]
    requires forall i :: 0 <= i < |up| ==> up[i] == q[k + i]
    ensures forall j :: k <= j < |q| ==> LinkedAt(q, links, j)
    ensures forall g :: g in links ==> g in q[k - 1..|q| - 1] || (g in pnext && links[g] == pnext[g])
    ensures forall g :: g in pnext && g !in q[k - 1..|q| - 1] ==> g in links && links[g] == pnext[g]
  {
    links := pnext;
    for i := 0 to |up|
      invariant forall j :: k <= j < k + i ==> LinkedAt(q, links, j)
      invariant forall g :: g in links ==> g in q[k - 1..k - 1 + i] || (g in pnext && links[g] == pnext[g])
      invariant forall g :: g in pnext && g !in q[k - 1..k - 1 + i] ==> g in links && links[g] == pnext[g]
    {
      assert ChildAt(nodes, q, k + i) && q[k - 1..k + i] == q[k - 1..k - 1 + i] + [q[k - 1 + i]];
      ghost var before := links;
      links := links[nodes[up[i]].prev.value := up[i]];
      forall j | k <= j <= k + i ensures LinkedAt(q, links, j) {
        assert j < k + i ==> LinkedAt(q, before, j);
      }
    }
    assert k - 1 + |up| == |q| - 1;
  }

  /** Cuts the links of one branch and sets those of another. */
  method Relink(nodes: Nodes, pnext: map<Hash, Hash>, down: seq<Hash>, up: seq<Hash>,
                ghost p: seq<Hash>, ghost q: seq<Hash>, ghost k: nat)
    returns (links: map<Hash, Hash>)
    requires Descends(nodes, p) && Descends(nodes, q) && forall i, j :: 0 <= i < j < |q| ==> q[i] != q[j]
    requires 1 <= k && k + |down| == |p| && k + |up| == |q|
    requires forall i :: 0 <= i < |down| ==> down[i] == p[|p| - 1 - i]
    requires forall i :: 0 <= i < |up| ==> up[i] == q[k + i]
    ensures Relinked(pnext, links, p, q, k)
  {
    var cut := CutLinks(nodes, pnext, down, p);
    links := SetLinks(nodes, cut, up, q, k);
  }

  // ---------- reorganizing ----------

  /** A completed switch of branches, as a relation between the states before and after. */
  ghost predicate SwitchDone(r: Rules, read: Reader, v: View, u: View, a: Hash, h: Hash, k: nat)
    requires Tree(v.nodes, v.genesis) && a in v.nodes && h in v.nodes && ForkAt(v.nodes, v.genesis, a, h, k)
    requires v.supply.Keys == v.nodes.Keys
  {
    var p, q := PathTo(v.nodes, v.genesis, a), PathTo(v.nodes, v.genesis, h);
    && Switched(r, read, v, a, h, k, |q|).Some?
    && u.nodes == v.nodes && u.genesis == v.genesis && u.hashBest == h
    && u.store == Switched(r, read, v, a, h, k, |q|).value.idx
    && SupplyTracks(r, read, v, a, h, k, |q|, u.supply)
    && Relinked(v.pnext, u.pnext, p, q, k)
  }

  /** Blocks above the fork are not on the other path. */
  ghost predicate Apart(nodes: Nodes, genesis: Hash, a: Hash, h: Hash, k: nat)
    requires Tree(nodes, genesis) && a in nodes && h in nodes
  {
    var p, q := PathTo(nodes, genesis, a), PathTo(nodes, genesis, h);
    k <= |q| && forall g :: g in p ==> g !in q[k..]
  }

  lemma ForkIsApart(nodes: Nodes, genesis: Hash, a: Hash, h: Hash, fork: Hash)
    requires Tree(nodes, genesis) && a in nodes && h in nodes && fork in nodes
    requires CommonAncestor(nodes, genesis, fork, a, h)
    requires forall c :: CommonAncestor(nodes, genesis, c, a, h) ==> IsAncestor(nodes, genesis, c, fork)
    ensures ForkAt(nodes, genesis, a, h, nodes[fork].height + 1)
    ensures Apart(nodes, genesis, a, h, nodes[fork].height + 1)
  {
    hide PathTo;
    ForkSplits(nodes, genesis, h, a, fork);
    var q, k := PathTo(nodes, genesis, h), nodes[fork].height + 1;
    forall g | g in q[k..] ensures g !in PathTo(nodes, genesis, a) {
      var i :| k <= i < |q| && q[i] == g;
    }
  }

  lemma RecordedTracks(r: Rules, read: Reader, v: View, a: Hash, h: Hash, k: nat, idx: Index, after: map<Hash, int>)
    requires Tree(v.nodes, v.genesis) && a in v.nodes && h in v.nodes && ForkAt(v.nodes, v.genesis, a, h, k)
    requires v.supply.Keys == v.nodes.Keys && DisconnectDown(v.store, ChainTo(v.nodes, v.genesis, a), k) == Some(idx)
    requires var path := PathTo(v.nodes, v.genesis, h);
      Recorded(r, read, path, ChainTo(v.nodes, v.genesis, h), k, |path|, Outcome(idx, v.supply[path[k - 1]], 0),
          v.supply, after)
    ensures SupplyTracks(r, read, v, a, h, k, |PathTo(v.nodes, v.genesis, h)|, after)
  {
    hide PathTo, ConnectOnto, DisconnectDown, RecordedAt, TrackedAt, Tree, Chain;
    var path := PathTo(v.nodes, v.genesis, h);
    forall i | k <= i < |path| ensures path[i] in after && TrackedAt(r, read, v, a, h, k, i, after[path[i]]) {
      RecordedIsSwitched(r, read, v, a, h, k, idx, i, after[path[i]]);
    }
  }

  lemma RecordedIsSwitched(r: Rules, read: Reader, v: View, a: Hash, h: Hash, k: nat, idx: Index, i: nat, amount: int)
    requires Tree(v.nodes, v.genesis) && a in v.nodes && h in v.nodes && ForkAt(v.nodes, v.genesis, a, h, k)
    requires v.supply.Keys == v.nodes.Keys && DisconnectDown(v.store, ChainTo(v.nodes, v.genesis, a), k) == Some(idx)
    requires k <= i < |PathTo(v.nodes, v.genesis, h)|
    requires RecordedAt(r, read, ChainTo(v.nodes, v.genesis, h), k, i,
                        Outcome(idx, v.supply[PathTo(v.nodes, v.genesis, h)[k - 1]], 0), amount)
    ensures TrackedAt(r, read, v, a, h, k, i, amount)
  {
    hide PathTo, ChainTo, Tree, ConnectOnto, DisconnectDown;
  }

  lemma PathApart(nodes: Nodes, genesis: Hash, h: Hash)
    requires Tree(nodes, genesis) && h in nodes
    ensures var q := PathTo(nodes, genesis, h); forall i, j :: 0 <= i < j < |q| ==> q[i] != q[j]
  {
    hide PathTo, Tree;
    var q := PathTo(nodes, genesis, h);
    forall i, j | 0 <= i < j < |q| ensures q[i] != q[j] {
      assert nodes[q[i]].height == i && nodes[q[j]].height == j;
    }
  }

  /** Disconnects and connects the blocks of two branches and commits, or stops at the first block that fails. */
  method SwitchStore(db: TxDB, r: Rules, read: Reader, v: View, best: Hash, h: Hash, down: seq<Hash>, up: seq<Hash>,
                     ghost k: nat)
    returns (ok: bool, supply: map<Hash, int>)
    requires db.Valid() && db.active && db.View() == db.store == v.store && db.hashBest == v.hashBest
    requires Tree(v.nodes, v.genesis) && best in v.nodes && h in v.nodes && v.supply.Keys == v.nodes.Keys
    requires ForkAt(v.nodes, v.genesis, best, h, k)
    requires 1 <= k && k + |down| == v.nodes[best].height + 1 && k + |up| == v.nodes[h].height + 1
    requires forall i :: 0 <= i < |down| ==> down[i] == PathTo(v.nodes, v.genesis, best)[v.nodes[best].height - i]
    requires forall i :: 0 <= i < |up| ==> up[i] == PathTo(v.nodes, v.genesis, h)[k + i]
    modifies db
    ensures db.Valid() && k <= |PathTo(v.nodes, v.genesis, h)|
    ensures var done := Switched(r, read, v, best, h, k, |PathTo(v.nodes, v.genesis, h)|);
      if ok then
        && !db.active && done.Some? && db.store == done.value.idx && db.hashBest == h
        && SupplyTracks(r, read, v, best, h, k, |PathTo(v.nodes, v.genesis, h)|, supply)
      else
        && done.None? && db.active && db.store == v.store && db.hashBest == v.hashBest && supply.Keys == v.supply.Keys
        && forall g :: g in v.supply && g !in PathTo(v.nodes, v.genesis, h)[k..] ==> supply[g] == v.supply[g]
  {
    hide PathTo, DisconnectDown, ConnectOnto, SupplyTracks, Recorded, ForkAt, Tree;
    supply := v.supply;
    var disconnected := DisconnectBranch(db, v.nodes, down, ChainTo(v.nodes, v.genesis, best), k);
    if !disconnected {
      return false, supply;
    }
    ghost var idx := db.View();
    ok, supply := ConnectBranch(db, r, read, v.nodes, v.genesis, v.supply, up, h, k);
    if !ok {
      return;
    }
    db.WriteHashBestChain(h);
    db.TxnCommit();
    RecordedTracks(r, read, v, best, h, k, idx, supply);
  }

  /** Switches the database and the links from the branch of `best` to that of `h`, in one database transaction. */
  method SwitchBranch(db: TxDB, r: Rules, read: Reader, v: View, best: Hash, h: Hash)
    returns (ok: bool, u: View, ghost k: nat)
    requires db.Valid() && db.active && db.View() == db.store == v.store && db.hashBest == v.hashBest
    requires Tree(v.nodes, v.genesis) && best in v.nodes && h in v.nodes && v.supply.Keys == v.nodes.Keys
    modifies db
    ensures db.Valid() && ForkAt(v.nodes, v.genesis, best, h, k) && Apart(v.nodes, v.genesis, best, h, k)
    ensures ok ==>
              !db.active && u.store == db.store && u.hashBest == db.hashBest && SwitchDone(r, read, v, u, best, h, k)
    ensures !ok ==>
              && Switched(r, read, v, best, h, k, |PathTo(v.nodes, v.genesis, h)|).None?
              && db.active && db.store == v.store && db.hashBest == v.hashBest && u == v.(supply := u.supply)
              && u.supply.Keys == v.supply.Keys
              && forall g :: g in v.supply && g !in PathTo(v.nodes, v.genesis, h)[k..] ==> u.supply[g] == v.supply[g]
  {
    hide PathTo, Switched, IsAncestor, SupplyTracks, Relinked, Descends, Apart, ForkAt, Tree;
    var down, up;
    down, up, k := FindBranches(v.nodes, v.genesis, best, h);
    var supply;
    ok, supply := SwitchStore(db, r, read, v, best, h, down, up, k);
    u := v.(supply := supply);
    if !ok {
      return;
    }
    PathDescends(v.nodes, v.genesis, best);
    PathDescends(v.nodes, v.genesis, h);
    PathApart(v.nodes, v.genesis, h);
    var links := Relink(v.nodes, v.pnext, down, up, PathTo(v.nodes, v.genesis, best), PathTo(v.nodes, v.genesis, h), k);
    u := View(v.nodes, v.genesis, links, supply, db.store, h);
  }

  /** The blocks to disconnect, tip first, and the blocks to connect, lowest first. */
  method FindBranches(nodes: Nodes, ghost genesis: Hash, a: Hash, h: Hash)
    returns (down: seq<Hash>, up: seq<Hash>, ghost k: nat)
    requires Tree(nodes, genesis) && a in nodes && h in nodes
    ensures ForkAt(nodes, genesis, a, h, k) && Apart(nodes, genesis, a, h, k)
    ensures 1 <= k && k + |down| == nodes[a].height + 1 && k + |up| == nodes[h].height + 1
    ensures forall i :: 0 <= i < |down| ==> down[i] == PathTo(nodes, genesis, a)[nodes[a].height - i]
    ensures forall i :: 0 <= i < |up| ==> up[i] == PathTo(nodes, genesis, h)[k + i]
  {
    hide PathTo, IsAncestor, ForkAt, Apart;
    var fork := FindFork(nodes, genesis, a, h);
    ForkIsApart(nodes, genesis, a, h, fork);
    k := nodes[fork].height + 1;
    down := BranchDown(nodes, genesis, a, fork);
    up := BranchDown(nodes, genesis, h, fork);
    up := Reversed(up);
  }

  /** Position on a path of the first block that gives more trust than `trust`, searched back from position `m`. */
  ghost function Intermediate(nodes: Nodes, path: seq<Hash>, m: nat, trust: nat): (i: nat)
    requires m < |path| && forall j :: 0 <= j < |path| ==> path[j] in nodes
    ensures i <= m
  {
    if m > 0 && nodes[path[m - 1]].trust > trust then Intermediate(nodes, path, m - 1, trust) else m
  }

  /** Position `i` is where walking back from the end of a path stops: every block passed on the way, from `i` up to the
      parent of the last block, has more trust than `trust`, and the parent of block `i`, if any, does not. */
  ghost predicate StopsAt(nodes: Nodes, path: seq<Hash>, i: int, trust: nat) {
    && 0 <= i < |path| && (forall j :: 0 <= j < |path| ==> path[j] in nodes)
    && (forall j :: i <= j < |path| - 1 ==> nodes[path[j]].trust > trust)
    && (i > 0 ==> nodes[path[i - 1]].trust <= trust)
  }

  /** The walk stops at one position only, and that is the one found. */
  lemma {:induction false} IntermediateStops(nodes: Nodes, path: seq<Hash>, m: nat, trust: nat)
    requires m < |path| && forall j :: 0 <= j < |path| ==> path[j] in nodes
    requires forall j :: m <= j < |path| - 1 ==> nodes[path[j]].trust > trust
    ensures StopsAt(nodes, path, Intermediate(nodes, path, m, trust), trust)
  {
    if m > 0 && nodes[path[m - 1]].trust > trust {
      IntermediateStops(nodes, path, m - 1, trust);
    }
  }

  lemma StopsOnce(nodes: Nodes, path: seq<Hash>, i: int, k: int, trust: nat)
    requires StopsAt(nodes, path, i, trust) && StopsAt(nodes, path, k, trust)
    ensures i == k
  {
  }

  /** Splits the way to `h` into the block to reorganize to and the blocks to connect afterwards, last one first. */
  method FindIntermediate(nodes: Nodes, ghost genesis: Hash, trust: nat, h: Hash)
    returns (i: Hash, postponed: seq<Hash>)
    requires Tree(nodes, genesis) && h in nodes
    ensures var path := PathTo(nodes, genesis, h); var m := Intermediate(nodes, path, |path| - 1, trust);
      && i == path[m] && |postponed| == |path| - 1 - m
      && forall x :: 0 <= x < |postponed| ==> postponed[x] == path[|path| - 1 - x]
    ensures |postponed| < |PathTo(nodes, genesis, h)|
            && StopsAt(nodes, PathTo(nodes, genesis, h), nodes[h].height - |postponed|, trust)
            && i == PathTo(nodes, genesis, h)[nodes[h].height - |postponed|]
  {
    hide PathTo;
    ghost var path := PathTo(nodes, genesis, h);
    IntermediateStops(nodes, path, |path| - 1, trust);
    ghost var m := |path| - 1;
    i, postponed := h, [];
    assert HasParent(nodes, genesis, i);
    while nodes[i].prev.Some? && nodes[nodes[i].prev.value].trust > trust
      invariant i in nodes && (nodes[i].prev.Some? ==> nodes[i].prev.value in nodes)
      invariant 0 <= m < |path| && path[m] == i && m + |postponed| == |path| - 1
      invariant Intermediate(nodes, path, |path| - 1, trust) == Intermediate(nodes, path, m, trust)
      invariant forall x :: 0 <= x < |postponed| ==> postponed[x] == path[|path| - 1 - x]
      decreases m
    {
      if m > 0 {
        PathParent(nodes, genesis, h, m - 1);
      }
      postponed := postponed + [i];
      i := nodes[i].prev.value;
      m := m - 1;
      assert HasParent(nodes, genesis, i);
    }
    if m > 0 {
      PathParent(nodes, genesis, h, m - 1);
    }
  }

  // ---------- what a switch means for the active chain ----------

  lemma SwitchDoneDescribes(r: Rules, read: Reader, v: View, u: View, a: Hash, h: Hash, k: nat)
    requires Tree(v.nodes, v.genesis) && a in v.nodes && h in v.nodes && ForkAt(v.nodes, v.genesis, a, h, k)
    requires v.supply.Keys == v.nodes.Keys && TreeStored(read, v.nodes)
    requires LinksOnPath(v.nodes, v.genesis, v.pnext, a) && SwitchDone(r, read, v, u, a, h, k)
    ensures LinksOnPath(v.nodes, v.genesis, u.pnext, h) && u.supply.Keys == v.nodes.Keys
    ensures Describes(r, read, v, a) ==> Describes(r, read, u, h)
  {
    hide PathTo, Describes, Switched, TreeStored, LinksOnPath, PathLinked, Relinked, ForkAt;
    RelinkedLinks(v.nodes, v.genesis, v.pnext, u.pnext, a, h, k);
    if Describes(r, read, v, a) {
      DescribesLinks(r, read, v, a);
      RelinkedPath(v.nodes, v.genesis, v.pnext, u.pnext, a, h, k);
      SwitchDescribes(r, read, v, u, a, h, k);
    }
  }

  /** The chain up to `h` can be replayed. */
  ghost predicate Connects(r: Rules, read: Reader, nodes: Nodes, genesis: Hash, h: Hash)
    requires Tree(nodes, genesis) && h in nodes
  {
    ReplayChain(r, read, ChainTo(nodes, genesis, h)).Some?
  }

  lemma ConnectsPrefix(r: Rules, read: Reader, nodes: Nodes, genesis: Hash, h: Hash, i: nat)
    requires Tree(nodes, genesis) && h in nodes && i <= nodes[h].height && Connects(r, read, nodes, genesis, h)
    ensures Connects(r, read, nodes, genesis, PathTo(nodes, genesis, h)[i])
  {
    hide PathTo, ReplayChain;
    ChainPrefix(nodes, genesis, h, i);
    ReplayPrefix(r, read, ChainTo(nodes, genesis, h), i + 1);
  }

  /** A switch away from a described tip succeeds only if the new branch can be replayed, and fails only if it
      cannot or if a transaction id was repeated. */
  lemma SwitchConnects(r: Rules, read: Reader, v: View, a: Hash, h: Hash, k: nat)
    requires Describes(r, read, v, a) && TreeStored(read, v.nodes) && v.supply.Keys == v.nodes.Keys
    requires Tree(v.nodes, v.genesis) && a in v.nodes && h in v.nodes && ForkAt(v.nodes, v.genesis, a, h, k)
    ensures var done := Switched(r, read, v, a, h, k, |PathTo(v.nodes, v.genesis, h)|);
      && (done.Some? ==> Connects(r, read, v.nodes, v.genesis, h))
      && (TreeWithoutRepeats(r, read, v.nodes, v.genesis) && Connects(r, read, v.nodes, v.genesis, h) ==> done.Some?)
  {
    hide PathTo, Describes, Switched, TreeStored, ReplayChain, DisconnectDown, TreeWithoutRepeats, StandsFor;
    var chain := ChainTo(v.nodes, v.genesis, h);
    SwitchFollows(r, read, v, a, h, k, |PathTo(v.nodes, v.genesis, h)|);
    assert chain[..|chain|] == chain;
  }

  /** Exactly when a switch away from a described tip succeeds: the new branch can be replayed, and no transaction of
      the old branch, above the block where the branches part, spends from an id that the index has lost or that a later
      block of the old branch has again. */
  ghost predicate MaySwitch(r: Rules, read: Reader, nodes: Nodes, genesis: Hash, store: Index, a: Hash, h: Hash)
    requires Tree(nodes, genesis) && a in nodes && h in nodes
  {
    exists k ::
        ForkAt(nodes, genesis, a, h, k) && Apart(nodes, genesis, a, h, k)
          && MaySwitchAt(r, read, nodes, genesis, store, a, h, k)
  }

  ghost predicate MaySwitchAt(r: Rules, read: Reader, nodes: Nodes, genesis: Hash, store: Index, a: Hash, h: Hash,
                              k: nat)
    requires Tree(nodes, genesis) && a in nodes && h in nodes
  {
    && Connects(r, read, nodes, genesis, h) && Connects(r, read, nodes, genesis, a)
    && var chain := ChainTo(nodes, genesis, a);
       Undoable(chain, k, Missing(store, ReplayChain(r, read, chain).value.idx))
  }

  /** Two paths part at one block only. */
  lemma PartOnce(nodes: Nodes, genesis: Hash, a: Hash, h: Hash, k: nat, k': nat)
    requires Tree(nodes, genesis) && a in nodes && h in nodes
    requires ForkAt(nodes, genesis, a, h, k) && Apart(nodes, genesis, a, h, k)
    requires ForkAt(nodes, genesis, a, h, k') && Apart(nodes, genesis, a, h, k')
    ensures k == k'
  {
    hide PathTo, Tree;
    var p, q := PathTo(nodes, genesis, a), PathTo(nodes, genesis, h);
    SharedAtMost(p, q, k, k');
    SharedAtMost(p, q, k', k);
  }

  lemma SharedAtMost(p: seq<Hash>, q: seq<Hash>, k: nat, k': nat)
    requires k <= |q| && k' <= |p| && k' <= |q| && p[..k'] == q[..k'] && forall g :: g in p ==> g !in q[k..]
    ensures k' <= k
  {
    forall i | 0 <= i < k' ensures q[i] in p {
      assert p[..k'][i] == q[..k'][i];
    }
    assert k < |q| ==> q[k] == q[k..][0] && q[k] in q[k..];
  }

  lemma MaySwitchMeans(r: Rules, read: Reader, nodes: Nodes, genesis: Hash, store: Index, a: Hash, h: Hash, k: nat)
    requires Tree(nodes, genesis) && a in nodes && h in nodes && ForkAt(nodes, genesis, a, h, k)
             && Apart(nodes, genesis, a, h, k)
    ensures MaySwitch(r, read, nodes, genesis, store, a, h) <==> MaySwitchAt(r, read, nodes, genesis, store, a, h, k)
  {
    hide PathTo, Tree, ForkAt, Apart, MaySwitchAt;
    forall k' | ForkAt(nodes, genesis, a, h, k') && Apart(nodes, genesis, a, h, k') ensures k' == k {
      PartOnce(nodes, genesis, a, h, k, k');
    }
  }

  lemma SwitchExactly(r: Rules, read: Reader, v: View, a: Hash, h: Hash, k: nat)
    requires Describes(r, read, v, a) && TreeStored(read, v.nodes) && v.supply.Keys == v.nodes.Keys
    requires Tree(v.nodes, v.genesis) && a in v.nodes && h in v.nodes && ForkAt(v.nodes, v.genesis, a, h, k)
    ensures Switched(r, read, v, a, h, k, |PathTo(v.nodes, v.genesis, h)|).Some? <==>
              MaySwitchAt(r, read, v.nodes, v.genesis, v.store, a, h, k)
  {
    hide PathTo, Describes, TreeStored, ReplayChain, DisconnectDown, ConnectOnto, TreeWithoutRepeats, StandsFor,
      Undoable, UpToSpent, Chain, Tree, NoRepeats;
    var chain := ChainTo(v.nodes, v.genesis, h);
    SwitchFollows(r, read, v, a, h, k, |PathTo(v.nodes, v.genesis, h)|);
    assert chain[..|chain|] == chain;
    DescribesIndex(r, read, v, a);
    DisconnectsExactly(r, read, v.store, ChainTo(v.nodes, v.genesis, a), k);
  }

  /** To a child of the described tip nothing is disconnected, so all depends on whether it connects. */
  lemma ChildSwitch(r: Rules, read: Reader, v: View, a: Hash, h: Hash)
    requires Describes(r, read, v, a) && Tree(v.nodes, v.genesis) && IsChild(v.nodes, v.genesis, a, h)
    ensures MaySwitch(r, read, v.nodes, v.genesis, v.store, a, h) <==> Connects(r, read, v.nodes, v.genesis, h)
  {
    hide PathTo, Describes, ReplayChain, UndoableAt, Tree;
    var k := |PathTo(v.nodes, v.genesis, a)|;
    ChildPath(v.nodes, v.genesis, a, h);
    ChildApart(v.nodes, v.genesis, a, h);
    DescribesIndex(r, read, v, a);
    MaySwitchMeans(r, read, v.nodes, v.genesis, v.store, a, h, k);
  }

  lemma ChildApart(nodes: Nodes, genesis: Hash, a: Hash, h: Hash)
    requires Tree(nodes, genesis) && IsChild(nodes, genesis, a, h)
    ensures Apart(nodes, genesis, a, h, |PathTo(nodes, genesis, a)|)
  {
    hide PathTo, Tree;
    var p, q := PathTo(nodes, genesis, a), PathTo(nodes, genesis, h);
    ChildPath(nodes, genesis, a, h);
    assert forall i :: 0 <= i < |p| ==> nodes[p[i]].height == i;
    assert q[|p|..] == [h];
  }

  /** A failed switch leaves the described tip described. */
  lemma FailedSwitchDescribes(r: Rules, read: Reader, v: View, u: View, a: Hash, h: Hash, k: nat)
    requires Describes(r, read, v, a) && Tree(v.nodes, v.genesis) && a in v.nodes && h in v.nodes
    requires Apart(v.nodes, v.genesis, a, h, k) && u == v.(supply := u.supply) && u.supply.Keys == v.supply.Keys
    requires forall g :: g in v.supply && g !in PathTo(v.nodes, v.genesis, h)[k..] ==> u.supply[g] == v.supply[g]
    ensures Describes(r, read, u, a)
  {
    hide PathTo, Describes;
    OffPathSupply(r, read, v, u.supply, a);
  }

  /** Links on the path to an ancestor are links on the path. */
  lemma LinksUp(nodes: Nodes, genesis: Hash, pnext: map<Hash, Hash>, h: Hash, i: nat)
    requires Tree(nodes, genesis) && h in nodes && i <= nodes[h].height
    requires LinksOnPath(nodes, genesis, pnext, PathTo(nodes, genesis, h)[i])
    ensures LinksOnPath(nodes, genesis, pnext, h)
  {
    hide PathTo;
    var a := PathTo(nodes, genesis, h)[i];
    forall g | g in pnext ensures IsAncestor(nodes, genesis, pnext[g], h) {
      AncestorTransitive(nodes, genesis, pnext[g], a, h);
    }
  }

  lemma PathChild(nodes: Nodes, genesis: Hash, h: Hash, i: nat)
    requires Tree(nodes, genesis) && h in nodes && i < nodes[h].height
    ensures IsChild(nodes, genesis, PathTo(nodes, genesis, h)[i], PathTo(nodes, genesis, h)[i + 1])
  {
    hide PathTo;
    PathParent(nodes, genesis, h, i);
  }

  // ---------- the block files ----------

  lemma {:induction false} SizeOfGrows(vtx: seq<Tx>, i: nat, j: nat)
    requires i < j <= |vtx|
    ensures SizeOf(vtx[..i]) < SizeOf(vtx[..j])
  {
    assert vtx[..j][..j - 1] == vtx[..j - 1];
    if i < j - 1 {
      SizeOfGrows(vtx, i, j - 1);
    }
  }

  /** What is new on disk belongs to the block stored at `at`. */
  ghost predicate AppendedAt(disk: Disk, more: Disk, at: BlockPos) {
    forall p :: p in more ==> p in disk || BlockPos(p.nFile, p.nBlockPos) == at
  }

  /** Appends a block; nothing that was on disk changes, and its transactions are read back. */
  method WriteToDisk(disk: Disk, vtx: seq<Tx>, at: BlockPos) returns (more: Disk)
    requires forall i :: 0 <= i < |vtx| ==> TxPos(at, vtx, i) !in disk
    ensures Extends(ReadFrom(disk), ReadFrom(more)) && Stored(ReadFrom(more), vtx, at) && AppendedAt(disk, more, at)
  {
    more := disk;
    for i := 0 to |vtx|
      invariant AppendedAt(disk, more, at)
      invariant forall p :: p in disk ==> p in more && more[p] == disk[p]
      invariant forall j :: 0 <= j < i ==> TxPos(at, vtx, j) in more && more[TxPos(at, vtx, j)] == vtx[j]
    {
      forall j | 0 <= j < i ensures TxPos(at, vtx, j) != TxPos(at, vtx, i) {
        SizeOfGrows(vtx, j, i);
      }
      more := more[TxPos(at, vtx, i) := vtx[i]];
    }
  }

  /** The block that a switch from `best` to `h` reorganizes to before any postponed block. */
  ghost function TargetOf(nodes: Nodes, genesis: Hash, best: Hash, h: Hash): (i: Hash)
    requires Tree(nodes, genesis) && h in nodes && best in nodes
    ensures i in nodes && nodes[i].height <= nodes[h].height
    ensures PathTo(nodes, genesis, h)[nodes[i].height] == i
    ensures StopsAt(nodes, PathTo(nodes, genesis, h), nodes[i].height, nodes[best].trust)
  {
    IntermediateStops(nodes, PathTo(nodes, genesis, h), nodes[h].height, nodes[best].trust);
    var path := PathTo(nodes, genesis, h);
    path[Intermediate(nodes, path, nodes[h].height, nodes[best].trust)]
  }

  /** A block from which on all blocks of the path to `h` have more trust than `best`, and whose parent, if it has one,
      does not. */
  ghost predicate FirstAbove(nodes: Nodes, genesis: Hash, best: Hash, h: Hash, i: Hash)
    requires Tree(nodes, genesis) && h in nodes && best in nodes
  {
    && i in nodes && IsAncestor(nodes, genesis, i, h)
    && (forall g :: g in nodes && IsAncestor(nodes, genesis, g, h) && nodes[g].height >= nodes[i].height ==>
          nodes[g].trust > nodes[best].trust)
    && (i != genesis ==> nodes[i].block.hashPrev in nodes
                         && nodes[nodes[i].block.hashPrev].trust <= nodes[best].trust)
  }

  /** To a block with more trust than the best one, a switch reorganizes to the block where more trust begins. */
  lemma TargetIs(nodes: Nodes, genesis: Hash, best: Hash, h: Hash, i: Hash)
    requires Tree(nodes, genesis) && h in nodes && best in nodes && nodes[h].trust > nodes[best].trust
    ensures i == TargetOf(nodes, genesis, best, h) <==> FirstAbove(nodes, genesis, best, h, i)
  {
    hide PathTo, TargetOf, StopsAt;
    var path, t, trust := PathTo(nodes, genesis, h), TargetOf(nodes, genesis, best, h), nodes[best].trust;
    if FirstAbove(nodes, genesis, best, h, i) {
      AncestorAt(nodes, genesis, i, h);
      AboveStops(nodes, genesis, best, h, i);
      StopsOnce(nodes, path, nodes[i].height, nodes[t].height, trust);
    }
    if i == t {
      StopsAbove(nodes, genesis, best, h, i);
    }
  }

  lemma AboveStops(nodes: Nodes, genesis: Hash, best: Hash, h: Hash, i: Hash)
    requires Tree(nodes, genesis) && h in nodes && best in nodes && FirstAbove(nodes, genesis, best, h, i)
    ensures StopsAt(nodes, PathTo(nodes, genesis, h), nodes[i].height, nodes[best].trust)
  {
    hide PathTo;
    var path := PathTo(nodes, genesis, h);
    AncestorAt(nodes, genesis, i, h);
    assert HasParent(nodes, genesis, i);
    forall j | nodes[i].height <= j < |path| - 1 ensures nodes[path[j]].trust > nodes[best].trust {
      assert IsAncestor(nodes, genesis, path[j], h);
    }
    if nodes[i].height > 0 {
      PathParent(nodes, genesis, h, nodes[i].height - 1);
    }
  }

  lemma StopsAbove(nodes: Nodes, genesis: Hash, best: Hash, h: Hash, i: Hash)
    requires Tree(nodes, genesis) && h in nodes && best in nodes && nodes[h].trust > nodes[best].trust
    requires i in nodes && nodes[i].height <= nodes[h].height && PathTo(nodes, genesis, h)[nodes[i].height] == i
    requires StopsAt(nodes, PathTo(nodes, genesis, h), nodes[i].height, nodes[best].trust)
    ensures FirstAbove(nodes, genesis, best, h, i)
  {
    hide PathTo;
    var path := PathTo(nodes, genesis, h);
    forall g | g in nodes && IsAncestor(nodes, genesis, g, h) && nodes[g].height >= nodes[i].height
      ensures nodes[g].trust > nodes[best].trust
    {
      AncestorAt(nodes, genesis, g, h);
    }
    assert HasParent(nodes, genesis, i);
    if nodes[i].height > 0 {
      PathParent(nodes, genesis, h, nodes[i].height - 1);
    }
  }

  /** The state describes a block on the path to `h` after which the path cannot be replayed further. */
  ghost predicate StoppedAt(r: Rules, read: Reader, v: View, h: Hash)
    requires Tree(v.nodes, v.genesis) && h in v.nodes
  {
    && Describes(r, read, v, v.hashBest) && IsAncestor(v.nodes, v.genesis, v.hashBest, h)
    && (v.hashBest == h || NextFails(r, read, v, h))
  }

  /** The block after the described one on the path to `h` cannot be connected. */
  ghost predicate NextFails(r: Rules, read: Reader, v: View, h: Hash)
    requires Tree(v.nodes, v.genesis) && h in v.nodes && v.hashBest in v.nodes
  {
    var path, n := PathTo(v.nodes, v.genesis, h), v.nodes[v.hashBest].height + 1;
    n < |path| && !Connects(r, read, v.nodes, v.genesis, path[n])
  }

  /** What adding block `h` to a coherent state with best block `was` and index `store` leads to: the new block becomes
      the best one if and only if it has more trust and the switch to its target succeeds, which without repeated ids
      means that the target connects; the state describes the best block if and only if that one's chain can be
      replayed, and otherwise the last block that can. */
  ghost predicate AddOutcome(r: Rules, read: Reader, v: View, store: Index, was: Hash, best: Hash, h: Hash) {
    && Tree(v.nodes, v.genesis) && was in v.nodes && best in v.nodes && h in v.nodes
    && var target := TargetOf(v.nodes, v.genesis, was, h);
    && (best == was || best == h)
    && (best == h <==> && v.nodes[h].trust > v.nodes[was].trust
                       && MaySwitch(r, read, v.nodes, v.genesis, store, was, target))
    && (Describes(r, read, v, best) <==> best == was || Connects(r, read, v.nodes, v.genesis, best))
    && (best == h ==> StoppedAt(r, read, v, best))
    && (v.nodes[h].trust > v.nodes[was].trust && TreeWithoutRepeats(r, read, v.nodes, v.genesis) ==>
          (best == h <==> Connects(r, read, v.nodes, v.genesis, target)))
  }

  ghost predicate TipsKnown(nodes: Nodes, tips: seq<Hash>, best: Hash) {
    tips != [] && tips[|tips| - 1] == best && forall i :: 0 <= i < |tips| ==> tips[i] in nodes
  }

  /** The chain up to every one of these blocks can be replayed. */
  ghost predicate AllConnect(r: Rules, read: Reader, nodes: Nodes, genesis: Hash, tips: seq<Hash>)
    requires Tree(nodes, genesis)
  {
    forall i :: 0 <= i < |tips| ==> tips[i] in nodes && Connects(r, read, nodes, genesis, tips[i])
  }

  lemma OneMoreTip(r: Rules, read: Reader, nodes: Nodes, genesis: Hash, tips: seq<Hash>, h: Hash)
    requires Tree(nodes, genesis) && h in nodes
    ensures AllConnect(r, read, nodes, genesis, tips + [h]) <==>
              AllConnect(r, read, nodes, genesis, tips) && Connects(r, read, nodes, genesis, h)
    ensures (forall i :: 0 <= i < |tips| ==> tips[i] in nodes) ==> TipsKnown(nodes, tips + [h], h)
  {
    hide Connects, Tree;
    var all := tips + [h];
    assert all[|tips|] == h && forall i :: 0 <= i < |tips| ==> all[i] == tips[i];
  }

  lemma GrownTips(r: Rules, read: Reader, wide: Reader, nodes: Nodes, more: Nodes, genesis: Hash, tips: seq<Hash>,
                  best: Hash)
    requires Tree(nodes, genesis) && Tree(more, genesis) && Grown(nodes, more) && TreeStored(read, nodes)
             && Extends(read, wide)
    requires TipsKnown(nodes, tips, best)
    ensures TipsKnown(more, tips, best)
    ensures AllConnect(r, wide, more, genesis, tips) <==> AllConnect(r, read, nodes, genesis, tips)
  {
    hide Tree, PathTo, ReplayChain, TreeStored;
    forall i | 0 <= i < |tips|
      ensures Connects(r, wide, more, genesis, tips[i]) <==> Connects(r, read, nodes, genesis, tips[i])
    {
      ChainStable(nodes, more, genesis, tips[i]);
      ChainStored(read, nodes, genesis, tips[i]);
      ReplayMoreDisk(r, read, wide, ChainTo(nodes, genesis, tips[i]));
    }
  }

  /** Genesis alone is described by an empty index. */
  lemma OnlyGenesis(r: Rules, read: Reader, v: View, b: BlockIndex)
    requires b.prev == None && b.height == 0 && b.block.hash == v.genesis && Stored(read, b.block.vtx, b.at)
    requires v == View(map[v.genesis := b], v.genesis, map[], map[v.genesis := 0], map[], v.genesis)
    ensures Tree(v.nodes, v.genesis) && TreeStored(read, v.nodes) && TrustSums(v.nodes, v.genesis)
    ensures LinksOnPath(v.nodes, v.genesis, v.pnext, v.genesis) && Describes(r, read, v, v.genesis)
  {
    assert PathTo(v.nodes, v.genesis, v.genesis) == [v.genesis];
  }

  class ChainState {
    const rules: Rules
    const genesis: Hash
    const db: TxDB
    var disk: Disk
    var nodes: Nodes
    var pnext: map<Hash, Hash>
    var supply: map<Hash, int>
    var best: Hash
    var cache: Option<Hash>

    /** Every block that was the best one, first to last. */
    ghost var tips: seq<Hash>

    /** The state after the genesis block: it is the best block, and leaves nothing in the index. */
    constructor (rules: Rules, block: Block, at: BlockPos, disk: Disk)
      requires Stored(ReadFrom(disk), block.vtx, at)
      ensures Valid() && Coherent() && tips == [block.hash] && fresh(db)
      ensures genesis == best == block.hash
              && nodes == map[block.hash := BlockIndex(None, 0, Targets.BlockTrust(block.nBits), at, block)]
      ensures this.rules == rules && this.disk == disk
    {
      hide TreeStored, Describes, AllConnect, LinksOnPath, TrustSums, PathTo, Stored;
      this.rules, this.disk := rules, disk;
      genesis, best := block.hash, block.hash;
      nodes := map[block.hash := BlockIndex(None, 0, Targets.BlockTrust(block.nBits), at, block)];
      pnext, supply, cache, tips := map[], map[block.hash := 0], None, [block.hash];
      db := new TxDB(block.hash);
      new;
      OnlyGenesis(rules, ReadFrom(disk), Snapshot(), BlockIndex(None, 0, Targets.BlockTrust(block.nBits), at, block));
    }

    ghost function Snapshot(): View
      reads this, db
    {
      View(nodes, genesis, pnext, supply, db.store, db.hashBest)
    }

    ghost predicate Base()
      reads this, db
    {
      && db.Valid()
      && Tree(nodes, genesis) && best in nodes
      && supply.Keys == nodes.Keys
      && TreeStored(ReadFrom(disk), nodes)
      && TrustSums(nodes, genesis)
    }

    /** What holds in every state; links, supply and index are exact as long as every block that became best
        connects. */
    ghost predicate Valid()
      reads this, db
    {
      && Base() && !db.active
      && LinksOnPath(nodes, genesis, pnext, best)
      && (cache.Some? ==> IsAncestor(nodes, genesis, cache.value, best))
      && TipsKnown(nodes, tips, best)
      && (AllConnect(rules, ReadFrom(disk), nodes, genesis, tips) ==> Coherent())
    }

    /** The connected tip is the best tip. */
    ghost predicate Coherent()
      reads this, db
    {
      Describes(rules, ReadFrom(disk), Snapshot(), best)
    }

    predicate IsInMainChain(h: Hash)
      reads this
    {
      h in pnext || h == best
    }

    /** Connects a child of `prev` in the open database transaction; ends the transaction either way. */
    method SetBestChainInner(prev: Hash, h: Hash) returns (ok: bool)
      requires Base() && db.active && db.View() == db.store && db.Best() == db.hashBest
      requires IsChild(nodes, genesis, prev, h)
      modifies this`pnext, this`supply, db
      ensures Base() && !db.active
      ensures var done := Extended(rules, ReadFrom(disk), old(Snapshot()), prev, h);
        if ok then
          done.Some?
            && Snapshot()
                 == View(nodes, genesis, old(pnext)[prev := h], old(supply)[h := done.value.supply], done.value.idx, h)
        else
          done.None? && Snapshot() == old(Snapshot())
    {
      hide PathTo, Advance, TipWhere, ChainTo, TreeStored;
      var connected, after := ConnectIndexed(db, rules, ReadFrom(disk), nodes, genesis, supply, prev, h);
      if !connected {
        db.TxnAbort();
        return false;
      }
      db.WriteHashBestChain(h);
      db.TxnCommit();
      supply := after;
      pnext := pnext[nodes[h].prev.value := h];
      return true;
    }

    /** Connects block `t + 1` of the path to `h` in a database transaction of its own. */
    method ConnectNext(ghost h: Hash, next: Hash, ghost t: nat) returns (ok: bool)
      requires Base() && !db.active && h in nodes && t < nodes[h].height && next == PathTo(nodes, genesis, h)[t + 1]
      requires LinksOnPath(nodes, genesis, pnext, PathTo(nodes, genesis, h)[t])
      modifies this`pnext, this`supply, db
      ensures Base() && !db.active
      ensures ok ==> LinksOnPath(nodes, genesis, pnext, next)
      ensures !ok ==> Snapshot() == old(Snapshot())
      ensures old(Describes(rules, ReadFrom(disk), Snapshot(), PathTo(nodes, genesis, h)[t])) ==>
                if ok then Describes(rules, ReadFrom(disk), Snapshot(), next)
                else
                  !Connects(rules, ReadFrom(disk), nodes, genesis, next)
                    && !Connects(rules, ReadFrom(disk), nodes, genesis, h)
    {
      hide PathTo, Describes, TreeStored, Connects, Extended, LinksOnPath;
      ghost var v, prev, read := Snapshot(), PathTo(nodes, genesis, h)[t], ReadFrom(disk);
      PathChild(nodes, genesis, h, t);
      db.TxnBegin();
      ok := SetBestChainInner(nodes[next].prev.value, next);
      if ok {
        ExtendLinks(nodes, genesis, v.pnext, prev, next);
      }
      if Describes(rules, read, v, prev) {
        if ok {
          ExtendDescribes(rules, read, v, Snapshot(), prev, next);
        } else {
          ExtendReplays(rules, read, v, prev, next);
          ConnectsMeans(rules, read, nodes, genesis, next);
          if Connects(rules, read, nodes, genesis, h) {
            ConnectsPrefix(rules, read, nodes, genesis, h, t + 1);
          }
        }
      }
    }

    /** Connects the postponed blocks of the path to `h` one database transaction each, giving up at the first
        failure. */
    method ConnectPostponed(h: Hash, postponed: seq<Hash>, ghost m: nat) returns (ghost t: nat)
      requires Base() && !db.active && h in nodes
      requires m + |postponed| == nodes[h].height && LinksOnPath(nodes, genesis, pnext, PathTo(nodes, genesis, h)[m])
      requires forall x :: 0 <= x < |postponed| ==> postponed[x] == PathTo(nodes, genesis, h)[nodes[h].height - x]
      modifies this`pnext, this`supply, db
      ensures Base() && !db.active && m <= t <= nodes[h].height
      ensures LinksOnPath(nodes, genesis, pnext, PathTo(nodes, genesis, h)[t])
      ensures old(Describes(rules, ReadFrom(disk), Snapshot(), PathTo(nodes, genesis, h)[m])) ==>
                && Describes(rules, ReadFrom(disk), Snapshot(), PathTo(nodes, genesis, h)[t])
                && (t == nodes[h].height <==> Connects(rules, ReadFrom(disk), nodes, genesis, h))
                && (t < nodes[h].height ==>
                      !Connects(rules, ReadFrom(disk), nodes, genesis, PathTo(nodes, genesis, h)[t + 1]))
    {
      hide PathTo, Describes, TreeStored, Connects, LinksOnPath;
      ghost var path, read := PathTo(nodes, genesis, h), ReadFrom(disk);
      ghost var described := Describes(rules, read, Snapshot(), path[m]);
      t := m;
      var j := |postponed|;
      while j > 0
        invariant 0 <= j && t + j == nodes[h].height && m <= t && Base() && !db.active
        invariant LinksOnPath(nodes, genesis, pnext, path[t])
        invariant described ==> Describes(rules, read, Snapshot(), path[t])
      {
        var connected := ConnectNext(h, postponed[j - 1], t);
        if !connected {
          return;
        }
        t := t + 1;
        j := j - 1;
      }
      if described {
        DescribesIndex(rules, read, Snapshot(), h);
        ConnectsMeans(rules, read, nodes, genesis, h);
      }
    }

    /** Reorganizes to the branch of `i` in one database transaction, which is aborted if a block fails. */
    method Reorganize(i: Hash) returns (ok: bool)
      requires Valid() && i in nodes
      modifies this`pnext, this`supply, db
      ensures Base() && !db.active
      ensures ok ==> LinksOnPath(nodes, genesis, pnext, i)
      ensures !ok ==> Snapshot() == old(Snapshot()).(supply := supply)
      ensures old(Coherent()) ==>
                if ok then
                  Connects(rules, ReadFrom(disk), nodes, genesis, i) && Describes(rules, ReadFrom(disk), Snapshot(), i)
                else Coherent()
      ensures old(Coherent()) && TreeWithoutRepeats(rules, ReadFrom(disk), nodes, genesis)
              && Connects(rules, ReadFrom(disk), nodes, genesis, i) ==>
                ok
      ensures old(Coherent()) ==> (ok <==> MaySwitch(rules, ReadFrom(disk), nodes, genesis, old(db.store), best, i))
    {
      hide PathTo, Describes, TreeStored, Connects, LinksOnPath, IsAncestor, TreeWithoutRepeats, SupplyTracks,
        Relinked, ForkAt, Apart, Switched;
      hide MaySwitch, MaySwitchAt, AllConnect;
      ghost var v := Snapshot();
      var read := ReadFrom(disk);
      db.TxnBegin();
      var u;
      ghost var k;
      ok, u, k := SwitchBranch(db, rules, read, View(nodes, genesis, pnext, supply, db.store, db.hashBest), best, i);
      if Describes(rules, read, v, best) {
        SwitchConnects(rules, read, v, best, i, k);
        SwitchExactly(rules, read, v, best, i, k);
        MaySwitchMeans(rules, read, nodes, genesis, v.store, best, i, k);
      }
      supply := u.supply;
      if ok {
        SwitchDoneDescribes(rules, read, v, u, best, i, k);
        pnext := u.pnext;
      } else {
        db.TxnAbort();
        if Describes(rules, read, v, best) {
          FailedSwitchDescribes(rules, read, v, u, best, i, k);
        }
      }
    }

    /** The block that the switch to `h` reorganizes to before any postponed block. */
    ghost function SwitchTarget(h: Hash): (i: Hash)
      requires Tree(nodes, genesis) && h in nodes && best in nodes
      ensures i in nodes
      reads this`nodes, this`best
    {
      TargetOf(nodes, genesis, best, h)
    }

    /** Moves the database and the links towards `h`, as far as block `t` of its path. */
    method MoveTowards(h: Hash) returns (ok: bool, ghost t: nat)
      requires Valid() && h in nodes && h != genesis
      modifies this`pnext, this`supply, db
      ensures Base() && !db.active && t <= nodes[h].height
      ensures ok ==> LinksOnPath(nodes, genesis, pnext, PathTo(nodes, genesis, h)[t])
      ensures !ok ==> Snapshot() == old(Snapshot()).(supply := supply)
      ensures old(Coherent()) && !ok ==> Coherent()
      ensures old(Coherent()) && ok ==>
                && Describes(rules, ReadFrom(disk), Snapshot(), PathTo(nodes, genesis, h)[t])
                && (t == nodes[h].height <==> Connects(rules, ReadFrom(disk), nodes, genesis, h))
                && (t < nodes[h].height ==>
                      !Connects(rules, ReadFrom(disk), nodes, genesis, PathTo(nodes, genesis, h)[t + 1]))
                && Connects(rules, ReadFrom(disk), nodes, genesis, SwitchTarget(h))
      ensures old(Coherent()) && TreeWithoutRepeats(rules, ReadFrom(disk), nodes, genesis)
              && Connects(rules, ReadFrom(disk), nodes, genesis, SwitchTarget(h)) ==>
                ok
      ensures old(Coherent()) ==>
                (ok <==> MaySwitch(rules, ReadFrom(disk), nodes, genesis, old(db.store), best, SwitchTarget(h)))
    {
      hide PathTo, Describes, TreeStored, Connects, LinksOnPath, IsAncestor, TreeWithoutRepeats, MaySwitch, AllConnect;
      t := nodes[h].height;
      assert HasParent(nodes, genesis, h);
      if nodes[h].block.hashPrev == best {
        PathChild(nodes, genesis, h, t - 1);
        if Coherent() {
          ChildSwitch(rules, ReadFrom(disk), Snapshot(), best, h);
        }
        ok := ConnectNext(h, h, t - 1);
        if ok && old(Coherent()) {
          DescribesIndex(rules, ReadFrom(disk), Snapshot(), h);
          ConnectsMeans(rules, ReadFrom(disk), nodes, genesis, h);
        }
      } else {
        var i, postponed := FindIntermediate(nodes, genesis, nodes[best].trust, h);
        ok := Reorganize(i);
        if ok {
          t := ConnectPostponed(h, postponed, Intermediate(nodes, PathTo(nodes, genesis, h), t, nodes[best].trust));
        }
      }
    }

    /**
     Makes `h` the best block. From a coherent state the call succeeds exactly if the old branch can be undone
     and the chain up to the switch target can be replayed; if no branch repeats a transaction id the first
     always holds. But the state is coherent afterwards exactly when the whole chain up to `h` can be replayed, and
     otherwise describes the last block before the first one that cannot. A failed call
     changes nothing but recorded supplies off the active chain.
     */
    method SetBestChain(h: Hash) returns (ok: bool)
      requires Valid() && h in nodes && h != genesis
      modifies this`pnext, this`supply, this`best, this`cache, this`tips, db
      ensures Valid()
      ensures tips == if ok then old(tips) + [h] else old(tips)
      ensures ok ==> best == h && cache == None
      ensures !ok ==> best == old(best) && cache == old(cache) && Snapshot() == old(Snapshot()).(supply := supply)
      ensures old(Coherent()) && !ok ==> Coherent()
      ensures old(Coherent()) && ok ==> (Coherent() <==> Connects(rules, ReadFrom(disk), nodes, genesis, h))
      ensures old(Coherent()) && ok ==>
                && Connects(rules, ReadFrom(disk), nodes, genesis, old(SwitchTarget(h)))
                && StoppedAt(rules, ReadFrom(disk), Snapshot(), h)
      ensures old(Coherent()) && TreeWithoutRepeats(rules, ReadFrom(disk), nodes, genesis)
              && Connects(rules, ReadFrom(disk), nodes, genesis, old(SwitchTarget(h))) ==>
                ok
      ensures old(Coherent()) ==>
                (ok <==>
                   MaySwitch(rules, ReadFrom(disk), nodes, genesis, old(db.store), old(best), old(SwitchTarget(h))))
    {
      hide PathTo, Describes, TreeStored, Connects, LinksOnPath, IsAncestor, TreeWithoutRepeats, SwitchTarget,
        MaySwitch, AllConnect;
      ghost var t;
      ok, t := MoveTowards(h);
      if !ok {
        return false;
      }
      LinksUp(nodes, genesis, pnext, h, t);
      best := h;
      cache := None;
      OneMoreTip(rules, ReadFrom(disk), nodes, genesis, tips, h);
      tips := tips + [h];
      DescribedTip(rules, ReadFrom(disk), Snapshot(), h, t);
      return true;
    }

    /** Finds the block of the active chain at a height, starting from the nearest of genesis, tip and the cached
        block. */
    method FindBlockByHeight(n: nat) returns (b: Hash)
      requires Valid() && PathLinked(PathTo(nodes, genesis, best), pnext) && n <= nodes[best].height
      modifies this`cache
      ensures Valid() && b == PathTo(nodes, genesis, best)[n] && cache == Some(b)
    {
      hide PathTo, TreeStored, LinksOnPath, Describes, AllConnect, TipsKnown, TrustSums;
      ghost var path := PathTo(nodes, genesis, best);
      SelfAncestor(nodes, genesis, best);
      b := if n < nodes[best].height / 2 then genesis else best;
      if cache.Some? {
        AncestorAt(nodes, genesis, cache.value, best);
        if Abs(n - nodes[b].height) > Abs(n - nodes[cache.value].height) {
          b := cache.value;
        }
      }
      while nodes[b].height > n
        invariant b in nodes && nodes[b].height < |path| && path[nodes[b].height] == b
        decreases nodes[b].height
      {
        PathParent(nodes, genesis, best, nodes[b].height - 1);
        b := nodes[b].prev.value;
      }
      while nodes[b].height < n
        invariant b in nodes && nodes[b].height <= n && path[nodes[b].height] == b
        decreases n - nodes[b].height
      {
        assert LinkedAt(path, pnext, nodes[b].height + 1);
        b := pnext[b];
      }
      cache := Some(b);
    }

    /**
     Adds a new block below a known parent and makes it the best block if it has more trust.
     From a coherent state, the state stays coherent unless the block became best although
     its chain cannot be replayed.
     */
    method AddToBlockIndex(b: Block, at: BlockPos) returns (ok: bool)
      requires Valid() && b.hashPrev in nodes
      requires forall i :: 0 <= i < |b.vtx| ==> TxPos(at, b.vtx, i) !in disk
      modifies this, db
      ensures Valid()
      ensures b.hash in old(nodes) ==>
                !ok && nodes == old(nodes) && best == old(best) && Snapshot() == old(Snapshot()) && disk == old(disk)
      ensures b.hash !in old(nodes) ==>
                nodes == old(nodes)[b.hash := BlockIndex(Some(b.hashPrev), old(nodes)[b.hashPrev].height + 1,
                                                         old(nodes)[b.hashPrev].trust + Targets.BlockTrust(b.nBits),
                                                         at, b)]
      ensures b.hash !in old(nodes) ==> (ok <==> best == b.hash || nodes[b.hash].trust <= nodes[old(best)].trust)
      ensures AppendedAt(old(disk), disk, at)
      ensures b.hash !in old(nodes) && old(Coherent()) ==>
                AddOutcome(rules, ReadFrom(disk), Snapshot(), old(db.store), old(best), best, b.hash)
      ensures best == old(best) ==> pnext == old(pnext) && db.store == old(db.store) && db.hashBest == old(db.hashBest)
      ensures Extends(old(ReadFrom(disk)), ReadFrom(disk))
      ensures tips == if best != old(best) then old(tips) + [best] else old(tips)
      ensures best == old(best) || (best == b.hash && nodes[best].trust > nodes[old(best)].trust)
      ensures old(Coherent()) ==>
                (Coherent() <==> best == old(best) || Connects(rules, ReadFrom(disk), nodes, genesis, best))
    {
      hide PathTo, Describes, TreeStored, Connects, LinksOnPath, TreeWithoutRepeats, IsAncestor, MaySwitch, AllConnect,
        TipsKnown, TrustSums, StoppedAt, TargetOf;
      if b.hash in nodes {
        return false;
      }
      ghost var v, read := Snapshot(), ReadFrom(disk);
      disk := WriteToDisk(disk, b.vtx, at);
      var prev := nodes[b.hashPrev];
      nodes := nodes[b.hash :=
          BlockIndex(Some(b.hashPrev), prev.height + 1, prev.trust + Targets.BlockTrust(b.nBits), at, b)];
      supply := supply[b.hash := 0];
      TreeGrows(v.nodes, genesis, nodes, b.hash);
      TrustGrow(v.nodes, nodes, genesis, b.hash);
      StoredGrows(read, ReadFrom(disk), v.nodes, nodes, b.hash);
      GrownLinks(v.nodes, nodes, genesis, pnext, best);
      if cache.Some? {
        AncestorStable(v.nodes, nodes, genesis, cache.value, best);
      }
      if Describes(rules, read, v, best) {
        GrownDescribes(rules, read, ReadFrom(disk), v, Snapshot(), best);
      }
      GrownTips(rules, read, ReadFrom(disk), v.nodes, nodes, genesis, tips, best);
      if nodes[b.hash].trust > nodes[best].trust {
        ok := SetBestChain(b.hash);
      } else {
        ok := true;
      }
    }
  }

  lemma TreeGrows(nodes: Nodes, genesis: Hash, more: Nodes, h: Hash)
    requires Tree(nodes, genesis) && h !in nodes && h in more && more == nodes[h := more[h]]
    requires more[h].block.hash == h && more[h].prev == Some(more[h].block.hashPrev)
    requires more[h].prev.value in nodes && more[h].height == nodes[more[h].prev.value].height + 1
    ensures Tree(more, genesis) && Grown(nodes, more)
  {
    forall g | g in more ensures HasParent(more, genesis, g) {
      if g != h {
        assert HasParent(nodes, genesis, g);
      }
    }
  }

  lemma StoredGrows(read: Reader, wide: Reader, nodes: Nodes, more: Nodes, h: Hash)
    requires TreeStored(read, nodes) && Extends(read, wide) && h in more && more == nodes[h := more[h]]
    requires Stored(wide, more[h].block.vtx, more[h].at)
    ensures TreeStored(wide, more)
  {
  }

  lemma AncestorStable(nodes: Nodes, more: Nodes, genesis: Hash, a: Hash, h: Hash)
    requires Tree(nodes, genesis) && Tree(more, genesis) && Grown(nodes, more) && h in nodes
             && IsAncestor(nodes, genesis, a, h)
    ensures IsAncestor(more, genesis, a, h)
  {
    PathStable(nodes, more, genesis, h);
  }

  /** A state that describes block `t` of the path to `h` describes `h` only if that is the last block. */
  lemma DescribedTip(r: Rules, read: Reader, v: View, h: Hash, t: nat)
    requires Tree(v.nodes, v.genesis) && h in v.nodes && t <= v.nodes[h].height
    ensures var a := PathTo(v.nodes, v.genesis, h)[t];
      && IsAncestor(v.nodes, v.genesis, a, h)
      && (Describes(r, read, v, a) ==> v.hashBest == a && Connects(r, read, v.nodes, v.genesis, a)
                                       && (Describes(r, read, v, h) <==> t == v.nodes[h].height)
                                       && v.nodes[v.hashBest].height == t)
  {
    hide PathTo, SupplyMatches, LinksOnPath, PathLinked, ReplayChain;
  }

  lemma ConnectsMeans(r: Rules, read: Reader, nodes: Nodes, genesis: Hash, h: Hash)
    requires Tree(nodes, genesis) && h in nodes
    ensures Connects(r, read, nodes, genesis, h) <==> ReplayChain(r, read, ChainTo(nodes, genesis, h)).Some?
  {
  }
}
