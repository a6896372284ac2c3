/**
 Synchronized checkpoints on top of the chain state machine, in strict mode on the
 main network: the current checkpoint never leaves the active chain, and checkpoints
 only ever move forward along it.
 */
module Checkpoints {
  import opened Ledger
  import opened Replay
  import opened BlockTree
  import opened ChainView
  import opened ActiveChain
  import opened HeaderRules
  import opened CoinbaseHeight
  import opened UniqueIds
  import Targets

  /** Walks back from a block to an ancestor of a given height. */
  method TraceBack(nodes: Nodes, ghost genesis: Hash, from: Hash, height: nat) returns (h: Hash)
    requires Tree(nodes, genesis) && from in nodes && height <= nodes[from].height
    ensures h == PathTo(nodes, genesis, from)[height]
  {
    hide PathTo;
    h := from;
    while nodes[h].height > height
      invariant h in nodes && height <= nodes[h].height <= nodes[from].height
      invariant PathTo(nodes, genesis, from)[nodes[h].height] == h
      decreases nodes[h].height
    {
      PathParent(nodes, genesis, from, nodes[h].height - 1);
      h := nodes[h].prev.value;
    }
  }

  /** A block is an ancestor exactly if it is what tracing back to its height finds. */
  lemma TracedIsAncestor(nodes: Nodes, genesis: Hash, a: Hash, h: Hash)
    requires Tree(nodes, genesis) && a in nodes && h in nodes && nodes[a].height <= nodes[h].height
    ensures IsAncestor(nodes, genesis, a, h) <==> PathTo(nodes, genesis, h)[nodes[a].height] == a
  {
    hide PathTo;
    if IsAncestor(nodes, genesis, a, h) {
      AncestorAt(nodes, genesis, a, h);
    }
  }

  lemma ValidChain(chain: ChainState)
    requires chain.Valid()
    ensures Tree(chain.nodes, chain.genesis) && chain.best in chain.nodes && TrustSums(chain.nodes, chain.genesis)
    ensures chain.Base()
  {
  }

  lemma ValidTips(chain: ChainState)
    requires chain.Valid()
    ensures chain.tips != [] && chain.tips[|chain.tips| - 1] == chain.best
    ensures AllConnect(chain.rules, ReadFrom(chain.disk), chain.nodes, chain.genesis, chain.tips) ==> chain.Coherent()
  {
    hide AllConnect, Describes, TreeStored, LinksOnPath;
  }

  /** The tree with a new block on a known parent. */
  function Joined(nodes: Nodes, b: Block, at: BlockPos): Nodes
    requires b.hashPrev in nodes
  {
    var prev := nodes[b.hashPrev];
    nodes[b.hash := BlockIndex(Some(b.hashPrev), prev.height + 1, prev.trust + Targets.BlockTrust(b.nBits), at, b)]
  }

  lemma JoinedGrows(nodes: Nodes, b: Block, at: BlockPos)
    requires b.hashPrev in nodes && b.hash !in nodes
    ensures Grown(nodes, Joined(nodes, b, at)) && b.hash in Joined(nodes, b, at)
  {
  }

  lemma NewAboveCheckpoint(nodes: Nodes, genesis: Hash, sync: Hash, prev: Hash)
    requires Tree(nodes, genesis) && sync in nodes && prev in nodes
    ensures IsAncestor(nodes, genesis, sync, prev) ==> nodes[prev].height + 1 > nodes[sync].height
  {
    hide PathTo, Tree, IsAncestor;
    if IsAncestor(nodes, genesis, sync, prev) {
      AncestorAt(nodes, genesis, sync, prev);
    }
  }

  /** A known block above the checkpoint that descends from it. */
  ghost predicate Higher(nodes: Nodes, genesis: Hash, sync: Hash, h: Hash) {
    Tree(nodes, genesis) && h in nodes && sync in nodes && nodes[h].height > nodes[sync].height
      && IsAncestor(nodes, genesis, sync, h)
  }

  /** A block has more trust than its parent. */
  ghost predicate Outweighs(nodes: Nodes, h: Hash) {
    && h in nodes && nodes[h].prev.Some? && nodes[h].prev.value in nodes
    && nodes[h].trust > nodes[nodes[h].prev.value].trust
  }

  /** A new block on a known parent at or above the checkpoint, with the right bits, a late enough time and its height
      in its coinbase. */
  ghost predicate Acceptable(nodes: Nodes, genesis: Hash, sync: Hash, b: Block) {
    && Tree(nodes, genesis) && b.hash !in nodes && b.hashPrev in nodes && IsAncestor(nodes, genesis, sync, b.hashPrev)
    && HeaderPasses(Headers(nodes, PathTo(nodes, genesis, b.hashPrev)), HeaderOf(b))
    && HasHeight(b, nodes[b.hashPrev].height + 1)
  }

  lemma ParentKnown(nodes: Nodes, genesis: Hash, sync: Hash, b: Block)
    requires Acceptable(nodes, genesis, sync, b)
    ensures b.hash !in nodes && b.hashPrev in nodes
  {
  }

  lemma SameDisk(disk: Disk, at: BlockPos)
    ensures AppendedAt(disk, disk, at)
  {
  }

  lemma InMainIsAncestor(chain: ChainState, h: Hash)
    requires chain.Valid() && chain.IsInMainChain(h)
    ensures IsAncestor(chain.nodes, chain.genesis, h, chain.best)
  {
    hide PathTo, IsAncestor, Describes, TreeStored, LinksOnPath;
    MainChainIsPath(chain.Snapshot(), chain.best, h);
  }

  lemma TrustAbove(nodes: Nodes, genesis: Hash, h: Hash)
    requires Tree(nodes, genesis) && HeadersOk(nodes, genesis) && TrustSums(nodes, genesis) && h in nodes
             && h != genesis
    ensures Outweighs(nodes, h)
  {
    hide Tree, HeadersOk;
    TrustGrowsInTree(nodes, genesis, h);
  }

  /** The index is the replay of the active chain, on which no transaction id repeats. */
  ghost predicate Exact(chain: ChainState)
    reads chain, chain.db
  {
    && Tree(chain.nodes, chain.genesis) && chain.best in chain.nodes
    && var active := ChainTo(chain.nodes, chain.genesis, chain.best);
    && ReplayChain(chain.rules, ReadFrom(chain.disk), active).Some? && NoRepeats(active)
    && chain.db.store == ReplayChain(chain.rules, ReadFrom(chain.disk), active).value.idx
  }

  /** The chain up to the block that a switch to `h` reorganizes to can be replayed. */
  ghost predicate TargetReplays(chain: ChainState, h: Hash)
    reads chain, chain.db
  {
    && Tree(chain.nodes, chain.genesis) && chain.best in chain.nodes && h in chain.nodes
    && Connects(chain.rules, ReadFrom(chain.disk), chain.nodes, chain.genesis,
         TargetOf(chain.nodes, chain.genesis, chain.best, h))
  }

  /** The whole chain up to `h` can be replayed. */
  ghost predicate TipReplays(chain: ChainState, h: Hash)
    reads chain, chain.db
  {
    && Tree(chain.nodes, chain.genesis) && chain.best in chain.nodes && h in chain.nodes
    && Connects(chain.rules, ReadFrom(chain.disk), chain.nodes, chain.genesis, h)
  }

  /** What moving the checkpoint to block `h` does to a state with best block `tip`: nothing if `h` is on the active
      chain. Otherwise `h` becomes the best block if the switch succeeds, and from a described state it succeeds if and
      only if `MaySwitch` says so; the state then describes `h` if and only if its chain can be replayed. */
  ghost predicate MoveOutcome(r: Rules, read: Reader, v: View, tip: Hash, u: View, best: Hash, h: Hash, moved: bool)
  {
    && Tree(v.nodes, v.genesis) && tip in v.nodes && h in v.nodes && u.nodes == v.nodes && u.genesis == v.genesis
    && if h in v.pnext || h == tip then moved && u == v && best == tip
    else
      && best == (if moved then h else tip)
      && (!moved ==> u == v.(supply := u.supply))
      && (Describes(r, read, v, tip) ==>
            && (moved <==> MaySwitch(r, read, v.nodes, v.genesis, v.store, tip, TargetOf(v.nodes, v.genesis, tip, h)))
            && (Describes(r, read, u, best) <==> !moved || Connects(r, read, v.nodes, v.genesis, h))
            && (moved ==> StoppedAt(r, read, u, h)))
  }

  /** A block arriving from the network, or a checkpoint message. */
  datatype Event =
    | NewBlock(block: Block, at: BlockPos, contextOk: bool)
    | Message(hashCheckpoint: Hash, signed: bool)

  class SyncCheckpoints {
    const chain: ChainState
    var hashSync: Hash
    var hashPending: Hash
    var hashInvalid: Hash

    /** Every block that was the checkpoint, first to last. */
    ghost var log: seq<Hash>

    ghost predicate Valid()
      reads this, chain, chain.db
    {
      && chain.Valid()
      && hashSync in chain.nodes
      && IsAncestor(chain.nodes, chain.genesis, hashSync, chain.best)
      && HeadersOk(chain.nodes, chain.genesis) && CoinbasesOk(chain.nodes, chain.genesis)
      && Lineage(chain.nodes, chain.genesis, log) && log != [] && log[|log| - 1] == hashSync
    }

    constructor (chain: ChainState)
      requires chain.Valid() && HeadersOk(chain.nodes, chain.genesis) && CoinbasesOk(chain.nodes, chain.genesis)
      ensures Valid() && this.chain == chain && hashSync == chain.genesis && log == [chain.genesis]
              && hashPending == hashInvalid == 0
    {
      hide ChainState.Valid, HeadersOk, CoinbasesOk, PathTo, IsAncestor;
      this.chain := chain;
      hashSync, hashPending, hashInvalid := chain.genesis, 0, 0;
      log := [chain.genesis];
      new;
      ValidChain(chain);
      SelfAncestor(chain.nodes, chain.genesis, chain.best);
      GenesisBelow(chain.nodes, chain.genesis, chain.best);
    }

    /** Only a descendant above the current checkpoint is accepted; a conflicting one is remembered as invalid. */
    method ValidateSyncCheckpoint(h: Hash) returns (ok: bool)
      requires Valid()
      modifies this`hashInvalid
      ensures ok <==> h in chain.nodes && chain.nodes[h].height > chain.nodes[hashSync].height
                      && IsAncestor(chain.nodes, chain.genesis, hashSync, h)
      ensures hashInvalid ==
              if h !in chain.nodes || IsAncestor(chain.nodes, chain.genesis, hashSync, h)
                || IsAncestor(chain.nodes, chain.genesis, h, hashSync)
              then old(hashInvalid) else h
    {
      hide PathTo, ChainState.Valid, HeadersOk, CoinbasesOk, Lineage;
      var nodes := chain.nodes;
      ValidChain(chain);
      if h !in nodes {
        return false;
      }
      if nodes[h].height <= nodes[hashSync].height {
        var traced := TraceBack(nodes, chain.genesis, hashSync, nodes[h].height);
        TracedIsAncestor(nodes, chain.genesis, h, hashSync);
        HigherIsNoAncestor(nodes, chain.genesis, hashSync, h);
        if traced != h {
          hashInvalid := h;
        }
        return false;
      }
      var traced := TraceBack(nodes, chain.genesis, h, nodes[hashSync].height);
      TracedIsAncestor(nodes, chain.genesis, hashSync, h);
      HigherIsNoAncestor(nodes, chain.genesis, h, hashSync);
      if traced != hashSync {
        hashInvalid := h;
        return false;
      }
      return true;
    }

    /** A new block must descend from the checkpoint if it is above it, be it if at its height, or be known if below. */
    method CheckSync(hashBlock: Hash, prev: Hash) returns (ok: bool)
      requires Valid() && prev in chain.nodes
      ensures var height := chain.nodes[prev].height + 1; var syncHeight := chain.nodes[hashSync].height;
        ok <==> if height > syncHeight then IsAncestor(chain.nodes, chain.genesis, hashSync, prev)
                else if height == syncHeight then hashBlock == hashSync
                else hashBlock in chain.nodes
    {
      hide PathTo, ChainState.Valid, HeadersOk, CoinbasesOk, Lineage;
      var nodes := chain.nodes;
      ValidChain(chain);
      var height, syncHeight := nodes[prev].height + 1, nodes[hashSync].height;
      if height > syncHeight {
        var traced := TraceBack(nodes, chain.genesis, prev, syncHeight);
        TracedIsAncestor(nodes, chain.genesis, hashSync, prev);
        if traced != hashSync {
          return false;
        }
      }
      if height == syncHeight && hashBlock != hashSync {
        return false;
      }
      if height < syncHeight && hashBlock !in nodes {
        return false;
      }
      return true;
    }

    /** Moves the checkpoint to a known block, making it part of the active chain first if it is not. */
    method MoveTo(h: Hash) returns (ok: bool)
      requires Valid() && h in chain.nodes && hashSync != h && IsAncestor(chain.nodes, chain.genesis, hashSync, h)
      modifies this`hashSync, this`hashInvalid, this`log, chain`pnext, chain`supply, chain`best, chain`cache,
               chain`tips, chain.db
      ensures Valid()
      ensures hashSync == if ok then h else old(hashSync)
      ensures log == if ok then old(log) + [h] else old(log)
      ensures chain.best == (if ok && !old(chain.IsInMainChain(h)) then h else old(chain.best))
      ensures !ok ==> !old(chain.IsInMainChain(h)) && hashInvalid == h
      ensures chain.tips == if ok && !old(chain.IsInMainChain(h)) then old(chain.tips) + [h] else old(chain.tips)
      ensures MoveOutcome(chain.rules, ReadFrom(chain.disk), old(chain.Snapshot()), old(chain.best),
                          chain.Snapshot(), chain.best, h, ok)
      ensures old(chain.Coherent()) && NoCollisions(chain.nodes) && old(TargetReplays(chain, h)) ==> ok
      ensures old(chain.Coherent()) && old(TipReplays(chain, h)) ==> chain.Coherent()
    {
      hide PathTo, IsAncestor, ChainState.Valid, Describes, Lineage, HeadersOk, CoinbasesOk, NoCollisions, Tree,
        TreeWithoutRepeats, Connects, TargetOf, StoppedAt, MaySwitch;
      ValidChain(chain);
      if NoCollisions(chain.nodes) {
        TreeIdsUnique(chain.rules, ReadFrom(chain.disk), chain.nodes, chain.genesis);
      }
      ExtendLineage(chain.nodes, chain.genesis, log, h);
      AncestorGenesis(chain.nodes, chain.genesis, hashSync, h);
      if !chain.IsInMainChain(h) {
        ok := chain.SetBestChain(h);
        if !ok {
          hashInvalid := h;
          return false;
        }
        SelfAncestor(chain.nodes, chain.genesis, h);
      } else {
        InMainIsAncestor(chain, h);
      }
      hashSync := h;
      log := log + [h];
      return true;
    }

    /** After a block was accepted: the pending checkpoint, if it is known now. */
    method AcceptPendingSyncCheckpoint() returns (ok: bool)
      requires Valid()
      modifies this`hashSync, this`hashPending, this`hashInvalid, this`log, chain`pnext, chain`supply, chain`best,
               chain`cache, chain`tips, chain.db
      ensures Valid()
      ensures IsAncestor(chain.nodes, chain.genesis, old(hashSync), hashSync)
      ensures ok ==> hashSync == old(hashPending) != old(hashSync) && hashPending == 0
      ensures !ok ==> hashSync == old(hashSync)
      ensures log == if ok then old(log) + [hashSync] else old(log)
      ensures chain.tips == old(chain.tips) || (ok && chain.tips == old(chain.tips) + [hashSync])
      ensures if old(hashPending) != 0 && Higher(chain.nodes, chain.genesis, old(hashSync), old(hashPending)) then
                && hashPending == (if ok then 0 else old(hashPending))
                && MoveOutcome(chain.rules, ReadFrom(chain.disk), old(chain.Snapshot()), old(chain.best),
                               chain.Snapshot(), chain.best, old(hashPending), ok)
              else
                && !ok && chain.best == old(chain.best) && chain.Snapshot() == old(chain.Snapshot())
                && hashPending == if old(hashPending) in chain.nodes then 0 else old(hashPending)
    {
      hide PathTo, IsAncestor, ChainState.Valid, ChainState.Coherent, Lineage, HeadersOk, CoinbasesOk, Tree,
        NoCollisions, TargetReplays, TipReplays, MoveOutcome;
      ValidChain(chain);
      SelfAncestor(chain.nodes, chain.genesis, hashSync);
      if hashPending != 0 && hashPending in chain.nodes {
        var valid := ValidateSyncCheckpoint(hashPending);
        if !valid {
          hashPending := 0;
          return false;
        }
        ok := MoveTo(hashPending);
        if ok {
          hashPending := 0;
        }
        return ok;
      }
      return false;
    }

    /** A signed checkpoint message; an unknown block is kept as pending. */
    method ProcessSyncCheckpoint(h: Hash, signed: bool) returns (ok: bool)
      requires Valid()
      modifies this`hashSync, this`hashPending, this`hashInvalid, this`log, chain`pnext, chain`supply, chain`best,
               chain`cache, chain`tips, chain.db
      ensures Valid()
      ensures IsAncestor(chain.nodes, chain.genesis, old(hashSync), hashSync)
      ensures log == if ok then old(log) + [hashSync] else old(log)
      ensures chain.tips == if ok && !old(chain.IsInMainChain(h)) then old(chain.tips) + [h] else old(chain.tips)
      ensures ok ==> signed && hashSync == h != old(hashSync) && hashPending == 0
      ensures signed && h in chain.nodes && old(Higher(chain.nodes, chain.genesis, hashSync, h))
              && old(chain.Coherent())
              && NoCollisions(chain.nodes) && old(TargetReplays(chain, h)) ==>
                ok && chain.best == if old(chain.IsInMainChain(h)) then old(chain.best) else h
      ensures h in chain.nodes && old(chain.Coherent()) && old(TipReplays(chain, h)) ==> chain.Coherent()
      ensures if signed && Higher(chain.nodes, chain.genesis, old(hashSync), h) then
                MoveOutcome(chain.rules, ReadFrom(chain.disk), old(chain.Snapshot()), old(chain.best),
                            chain.Snapshot(), chain.best, h, ok)
              else
                !ok && chain.best == old(chain.best) && chain.Snapshot() == old(chain.Snapshot())
      ensures !ok ==>
                hashSync == old(hashSync) && hashPending == if signed && h !in chain.nodes then h else old(hashPending)
    {
      hide PathTo, IsAncestor, ChainState.Valid, ChainState.Coherent, Lineage, HeadersOk, CoinbasesOk, Tree,
        NoCollisions, TargetReplays, TipReplays, MoveOutcome;
      ValidChain(chain);
      SelfAncestor(chain.nodes, chain.genesis, hashSync);
      if !signed {
        return false;
      }
      if h !in chain.nodes {
        hashPending := h;
        return false;
      }
      var valid := ValidateSyncCheckpoint(h);
      if !valid {
        return false;
      }
      ok := MoveTo(h);
      if ok {
        hashPending := 0;
      }
    }

    /** The tests that make a block acceptable. */
    method CheckBlockOnTop(b: Block) returns (ok: bool)
      requires Valid()
      ensures ok <==> Acceptable(chain.nodes, chain.genesis, hashSync, b)
    {
      hide PathTo, IsAncestor, ChainState.Valid, ChainState.Coherent, Lineage, HeadersOk, HeaderPasses, Tree,
        CoinbasesOk, HasHeight;
      ValidChain(chain);
      if b.hash in chain.nodes || b.hashPrev !in chain.nodes {
        return false;
      }
      var satisfied := CheckSync(b.hash, b.hashPrev);
      NewAboveCheckpoint(chain.nodes, chain.genesis, hashSync, b.hashPrev);
      if !satisfied {
        return false;
      }
      var passes := CheckHeader(chain.nodes, chain.genesis, b.hashPrev, b);
      ok := passes && HasHeight(b, chain.nodes[b.hashPrev].height + 1);
    }

    /** Adds a block that passed all tests to the chain. */
    method AddBlock(b: Block, at: BlockPos) returns (ok: bool)
      requires Valid() && Acceptable(chain.nodes, chain.genesis, hashSync, b)
      requires forall i :: 0 <= i < |b.vtx| ==> TxPos(at, b.vtx, i) !in chain.disk
      modifies chain, chain.db
      ensures Valid() && AppendedAt(old(chain.disk), chain.disk, at)
      ensures chain.nodes == Joined(old(chain.nodes), b, at) && IsAncestor(chain.nodes, chain.genesis, hashSync, b.hash)
      ensures chain.best == old(chain.best)
              || (chain.best == b.hash && chain.nodes[b.hash].trust > chain.nodes[old(chain.best)].trust)
      ensures chain.tips == if chain.best != old(chain.best) then old(chain.tips) + [b.hash] else old(chain.tips)
      ensures ok <==> chain.best == b.hash || chain.nodes[b.hash].trust <= chain.nodes[old(chain.best)].trust
      ensures old(chain.Coherent()) ==>
                AddOutcome(chain.rules, ReadFrom(chain.disk), chain.Snapshot(), old(chain.db.store), old(chain.best),
                    chain.best, b.hash)
    {
      hide PathTo, IsAncestor, ChainState.Valid, ChainState.Coherent, Lineage, HeadersOk, HeaderPasses, Tree,
        AddOutcome, CoinbasesOk, HasHeight;
      ValidChain(chain);
      ghost var before, tip := chain.nodes, chain.best;
      ok := chain.AddToBlockIndex(b, at);
      ValidChain(chain);
      HeadersGrow(before, chain.nodes, chain.genesis, b.hash);
      CoinbasesGrow(before, chain.nodes, chain.genesis, b.hash);
      NewBlockDescends(before, chain.nodes, b.hash, hashSync, tip);
      JoinedGrows(before, b, at);
      LineageStable(before, chain.nodes, chain.genesis, log);
      assert Valid() by { BestDescends(tip, b.hash); }
    }

    /**
     Accepts a block whose bits and time pass on top of its parent and whose other tests gave `contextOk`. A block that
     does not descend from the checkpoint is never added, so the best block always descends from it. The state `mid`
     with best block `tip` is the one after the block was added and before the pending checkpoint is looked at.
     */
    method AcceptBlock(b: Block, at: BlockPos, contextOk: bool) returns (ok: bool, ghost mid: View, ghost tip: Hash)
      requires Valid()
      requires forall i :: 0 <= i < |b.vtx| ==> TxPos(at, b.vtx, i) !in chain.disk
      modifies this`hashSync, this`hashPending, this`hashInvalid, this`log, chain, chain.db
      ensures Valid()
      ensures IsAncestor(chain.nodes, chain.genesis, old(hashSync), hashSync)
      ensures log == if hashSync != old(hashSync) then old(log) + [hashSync] else old(log)
      ensures Grown(old(chain.nodes), chain.nodes) && AppendedAt(old(chain.disk), chain.disk, at)
      ensures old(chain.tips) <= chain.tips && |chain.tips| <= |old(chain.tips)| + 2
      ensures forall i :: |old(chain.tips)| <= i < |chain.tips| ==>
                chain.tips[i] == b.hash || chain.tips[i] == hashSync != old(hashSync)
      ensures if contextOk && old(Acceptable(chain.nodes, chain.genesis, hashSync, b))
              then chain.nodes == Joined(old(chain.nodes), b, at)
                && IsAncestor(chain.nodes, chain.genesis, old(hashSync), b.hash)
              else
                !ok && chain.nodes == old(chain.nodes) && chain.best == old(chain.best)
                  && chain.Snapshot() == old(chain.Snapshot())
      ensures contextOk && old(Acceptable(chain.nodes, chain.genesis, hashSync, b)) ==>
                && mid.nodes == chain.nodes && mid.genesis == chain.genesis && tip in mid.nodes
                && (tip == old(chain.best)
                    || (tip == b.hash && mid.nodes[tip].trust > mid.nodes[old(chain.best)].trust))
                && (ok <==> tip == b.hash || mid.nodes[b.hash].trust <= mid.nodes[old(chain.best)].trust)
                && (old(chain.Coherent()) ==>
                      AddOutcome(chain.rules, ReadFrom(chain.disk), mid, old(chain.db.store), old(chain.best), tip,
                          b.hash))
      ensures contextOk && old(Acceptable(chain.nodes, chain.genesis, hashSync, b)) ==>
                if ok && old(hashPending) != 0
                  && Higher(chain.nodes, chain.genesis, old(hashSync), old(hashPending)) then
                  MoveOutcome(chain.rules, ReadFrom(chain.disk), mid, tip, chain.Snapshot(), chain.best,
                      old(hashPending),
                              hashSync != old(hashSync))
                else
                  && hashSync == old(hashSync) && chain.best == tip && chain.Snapshot() == mid
                  && (old(hashPending) == 0 ==> hashPending == 0)
    {
      hide PathTo, IsAncestor, ChainState.Valid, ChainState.Coherent, Lineage, HeadersOk, Tree, AddOutcome, Joined,
        CoinbasesOk, MoveOutcome, Acceptable, Higher, AppendedAt;
      mid, tip := chain.Snapshot(), chain.best;
      ValidChain(chain);
      SelfAncestor(chain.nodes, chain.genesis, hashSync);
      SameDisk(chain.disk, at);
      var passes := CheckBlockOnTop(b);
      if !passes || !contextOk {
        return false, mid, tip;
      }
      ParentKnown(chain.nodes, chain.genesis, hashSync, b);
      JoinedGrows(chain.nodes, b, at);
      ok := AddBlock(b, at);
      mid, tip := chain.Snapshot(), chain.best;
      ValidChain(chain);
      SelfAncestor(chain.nodes, chain.genesis, hashSync);
      if ok {
        var moved := AcceptPendingSyncCheckpoint();
      }
    }

    /**
     Every run of blocks and checkpoint messages. Each block that ever was the checkpoint, before the run or in it,
     is an ancestor of the best block and a proper ancestor of every later checkpoint. If every block that ever became
     the best one is at the end of a chain that can be replayed, index, links and supply are those of the best block,
     and the index is exactly its replay, without a repeated transaction id.
     */
    method Run(events: seq<Event>)
      requires Valid()
      modifies this, chain, chain.db
      ensures Valid() && Grown(old(chain.nodes), chain.nodes)
      ensures old(log) <= log && old(chain.tips) <= chain.tips && chain.tips[|chain.tips| - 1] == chain.best
      ensures AllConnect(chain.rules, ReadFrom(chain.disk), chain.nodes, chain.genesis, chain.tips) ==> chain.Coherent()
      ensures forall i :: 0 <= i < |log| ==> IsAncestor(chain.nodes, chain.genesis, log[i], chain.best)
      ensures forall i, j :: 0 <= i < j < |log| ==>
                log[i] != log[j] && IsAncestor(chain.nodes, chain.genesis, log[i], log[j])
      ensures forall h :: h in chain.nodes && h != chain.genesis ==> Outweighs(chain.nodes, h)
      ensures NoCollisions(chain.nodes) && chain.Coherent() ==> Exact(chain)
    {
      hide PathTo, IsAncestor, ChainState.Valid, Lineage, HeadersOk, CoinbasesOk, TrustAt, Acceptable, Outweighs, Tree,
        MoveOutcome, AddOutcome, NoCollisions, Exact;
      for n := 0 to |events|
        invariant Valid() && Grown(old(chain.nodes), chain.nodes) && old(log) <= log && old(chain.tips) <= chain.tips
      {
        match events[n] {
          case NewBlock(b, at, contextOk) =>
            // A block file is appended to, so a block never lands on bytes that are in use.
            if forall i :: 0 <= i < |b.vtx| ==> TxPos(at, b.vtx, i) !in chain.disk {
              ghost var mid, tip;
              var accepted;
              accepted, mid, tip := AcceptBlock(b, at, contextOk);
            }
          case Message(h, signed) =>
            var processed := ProcessSyncCheckpoint(h, signed);
        }
      }
      ValidChain(chain);
      ValidTips(chain);
      IndexIsExact();
      LineageAncestors(chain.nodes, chain.genesis, log, chain.best);
      LineageKnown(chain.nodes, chain.genesis, log);
      forall i, j | 0 <= i < j < |log|
        ensures log[i] != log[j] && IsAncestor(chain.nodes, chain.genesis, log[i], log[j])
      {
        LineageOrder(chain.nodes, chain.genesis, log, i, j);
      }
      forall h | h in chain.nodes && h != chain.genesis
        ensures Outweighs(chain.nodes, h)
      {
        TrustAbove(chain.nodes, chain.genesis, h);
      }
    }

    /** In every valid state that describes its best block the index is exact, unless two transactions share an id. */
    lemma IndexIsExact()
      requires Valid()
      ensures NoCollisions(chain.nodes) && chain.Coherent() ==> Exact(chain)
    {
      hide PathTo, IsAncestor, ChainState.Valid, Describes, Lineage, HeadersOk, CoinbasesOk, Tree, NoCollisions,
        TreeWithoutRepeats, ReplayChain, NoRepeats;
      ValidChain(chain);
      if NoCollisions(chain.nodes) && chain.Coherent() {
        TreeIdsUnique(chain.rules, ReadFrom(chain.disk), chain.nodes, chain.genesis);
        DescribesIndex(chain.rules, ReadFrom(chain.disk), chain.Snapshot(), chain.best);
      }
    }

    lemma NewBlockDescends(before: Nodes, nodes: Nodes, h: Hash, sync: Hash, tip: Hash)
      requires Tree(before, chain.genesis) && h !in before && sync in before && tip in before
      requires Tree(nodes, chain.genesis) && h in nodes && nodes == before[h := nodes[h]]
      requires nodes[h].prev.Some? && nodes[h].prev.value in before
      requires IsAncestor(before, chain.genesis, sync, nodes[h].prev.value)
               && IsAncestor(before, chain.genesis, sync, tip)
      ensures IsAncestor(nodes, chain.genesis, sync, h) && IsAncestor(nodes, chain.genesis, sync, tip)
      ensures IsAncestor(nodes, chain.genesis, sync, sync)
    {
      hide PathTo;
      var prev := nodes[h].prev.value;
      AncestorStable(before, nodes, chain.genesis, sync, prev);
      AncestorStable(before, nodes, chain.genesis, sync, tip);
      SelfAncestor(nodes, chain.genesis, h);
      SelfAncestor(nodes, chain.genesis, sync);
      StepBack(nodes, chain.genesis, h, h);
      AncestorTransitive(nodes, chain.genesis, sync, prev, h);
    }

    lemma BestDescends(tip: Hash, h: Hash)
      requires chain.Valid() && hashSync in chain.nodes && (chain.best == tip || chain.best == h)
      requires tip in chain.nodes && h in chain.nodes
      requires HeadersOk(chain.nodes, chain.genesis) && CoinbasesOk(chain.nodes, chain.genesis)
      requires Lineage(chain.nodes, chain.genesis, log) && log != [] && log[|log| - 1] == hashSync
      requires IsAncestor(chain.nodes, chain.genesis, hashSync, tip)
               && IsAncestor(chain.nodes, chain.genesis, hashSync, h)
      ensures Valid()
    {
      hide PathTo, IsAncestor, ChainState.Valid, Lineage, HeadersOk;
    }
  }

  /** Every block of a sequence is a proper ancestor of the next one. */
  ghost predicate Lineage(nodes: Nodes, genesis: Hash, log: seq<Hash>)
    requires Tree(nodes, genesis)
  {
    && (forall i :: 0 <= i < |log| ==> log[i] in nodes)
    && forall i :: 0 < i < |log| ==> log[i - 1] != log[i] && IsAncestor(nodes, genesis, log[i - 1], log[i])
  }

  lemma ExtendLineage(nodes: Nodes, genesis: Hash, log: seq<Hash>, h: Hash)
    requires Tree(nodes, genesis) && Lineage(nodes, genesis, log) && log != [] && h in nodes
    requires log[|log| - 1] != h && IsAncestor(nodes, genesis, log[|log| - 1], h)
    ensures Lineage(nodes, genesis, log + [h])
  {
    hide IsAncestor, Tree;
  }

  lemma LineageStable(before: Nodes, nodes: Nodes, genesis: Hash, log: seq<Hash>)
    requires Tree(before, genesis) && Tree(nodes, genesis) && Grown(before, nodes) && Lineage(before, genesis, log)
    ensures Lineage(nodes, genesis, log)
  {
    hide PathTo, IsAncestor, Tree;
    forall i | 0 < i < |log| ensures IsAncestor(nodes, genesis, log[i - 1], log[i]) {
      AncestorStable(before, nodes, genesis, log[i - 1], log[i]);
    }
  }

  /** Along a lineage heights grow and every block is an ancestor of all later ones. */
  lemma {:induction false} LineageOrder(nodes: Nodes, genesis: Hash, log: seq<Hash>, i: nat, j: nat)
    requires Tree(nodes, genesis) && Lineage(nodes, genesis, log) && i < j < |log|
    ensures IsAncestor(nodes, genesis, log[i], log[j]) && nodes[log[i]].height < nodes[log[j]].height
    decreases j
  {
    hide PathTo, IsAncestor, Tree;
    var last, prev := log[j], log[j - 1];
    assert prev != last && IsAncestor(nodes, genesis, prev, last);
    ProperlyBelow(nodes, genesis, prev, last);
    if i < j - 1 {
      LineageOrder(nodes, genesis, log, i, j - 1);
      AncestorTransitive(nodes, genesis, log[i], prev, last);
    }
  }

  lemma LineageKnown(nodes: Nodes, genesis: Hash, log: seq<Hash>)
    requires Tree(nodes, genesis) && Lineage(nodes, genesis, log)
    ensures forall i :: 0 <= i < |log| ==> log[i] in nodes
  {
  }

  lemma ProperlyBelow(nodes: Nodes, genesis: Hash, a: Hash, h: Hash)
    requires Tree(nodes, genesis) && a in nodes && h in nodes && a != h && IsAncestor(nodes, genesis, a, h)
    ensures nodes[a].height < nodes[h].height
  {
    hide PathTo, IsAncestor, Tree;
    AncestorAt(nodes, genesis, a, h);
    var path := PathTo(nodes, genesis, h);
    assert path[|path| - 1] == h;
  }

  lemma {:induction false} LineageAncestors(nodes: Nodes, genesis: Hash, log: seq<Hash>, tip: Hash)
    requires Tree(nodes, genesis) && tip in nodes && log != [] && Lineage(nodes, genesis, log)
    requires IsAncestor(nodes, genesis, log[|log| - 1], tip)
    ensures forall i :: 0 <= i < |log| ==> IsAncestor(nodes, genesis, log[i], tip)
  {
    hide PathTo, IsAncestor, Tree;
    forall i | 0 <= i < |log| - 1 ensures IsAncestor(nodes, genesis, log[i], tip) {
      LineageOrder(nodes, genesis, log, i, |log| - 1);
      AncestorTransitive(nodes, genesis, log[i], log[|log| - 1], tip);
    }
  }

  lemma HigherIsNoAncestor(nodes: Nodes, genesis: Hash, a: Hash, h: Hash)
    requires Tree(nodes, genesis) && a in nodes && h in nodes && nodes[h].height <= nodes[a].height
    ensures IsAncestor(nodes, genesis, a, h) ==> a == h && IsAncestor(nodes, genesis, h, a)
  {
    hide PathTo;
    SelfAncestor(nodes, genesis, a);
    if IsAncestor(nodes, genesis, a, h) {
      AncestorAt(nodes, genesis, a, h);
      SelfAncestor(nodes, genesis, h);
    }
  }

  lemma GenesisBelow(nodes: Nodes, genesis: Hash, h: Hash)
    requires Tree(nodes, genesis) && h in nodes
    ensures genesis in nodes && IsAncestor(nodes, genesis, genesis, h)
  {
    hide PathTo;
    assert PathTo(nodes, genesis, h)[0] == genesis;
  }

  /** A block with another block below it is not genesis. */
  lemma AncestorGenesis(nodes: Nodes, genesis: Hash, a: Hash, h: Hash)
    requires Tree(nodes, genesis) && h in nodes && IsAncestor(nodes, genesis, a, h) && a != h
    ensures h != genesis
  {
  }
}
