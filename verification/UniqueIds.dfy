/**
 Transaction ids never repeat on a chain that connects and whose coinbases carry their heights, as long as
 different transactions have different ids. A repeated transaction would have to spend outputs that were issued
 again before it, and following these back ends at a coinbase, which cannot be at two heights.
 */
module UniqueIds {
  import opened Ledger
  import opened LedgerUndo
  import opened Replay
  import opened ChainSpends
  import opened BlockTree
  import opened ChainView
  import opened CoinbaseHeight

  // ---------- chains ----------

  /** Every coinbase starts with the height of its block, and genesis holds nothing else. */
  ghost predicate HeightsOn(chain: seq<Placed>) {
    && (chain != [] ==> GenesisLike(chain[0].block))
    && forall i :: 0 <= i < |chain| ==> HasHeight(chain[i].block, i)
  }

  predicate GenesisLike(b: Block) {
    |b.vtx| == 1 && b.vtx[0].IsCoinBase() && HasHeight(b, 0)
  }

  /** Two blocks have the same transaction under the same id. */
  ghost predicate Agree(b: Block, c: Block) {
    forall x, y :: 0 <= x < |b.vtx| && 0 <= y < |c.vtx| && b.vtx[x].txid == c.vtx[y].txid ==> b.vtx[x] == c.vtx[y]
  }

  ghost predicate AgreeOn(chain: seq<Placed>) {
    forall i, j :: 0 <= i < |chain| && 0 <= j < |chain| ==> Agree(chain[i].block, chain[j].block)
  }

  /** What a connected block is like. */
  lemma ConnectedBlock(r: Rules, read: Reader, chain: seq<Placed>, i: nat)
    requires ReplayChain(r, read, chain).Some? && 1 <= i < |chain|
    ensures CheckBlock(r, chain[i].block, i)
  {
    hide ReplayChain, ConnectTxs;
    var upTo := chain[..i + 1];
    ReplayPrefix(r, read, chain, i + 1);
    LastConnects(r, read, upTo);
    assert upTo[i] == chain[i];
  }

  lemma ConnectedTx(r: Rules, b: Block, height: nat, a: nat)
    requires CheckBlock(r, b, height) && a < |b.vtx|
    ensures b.vtx[a].IsCoinBase() <==> a == 0
    ensures b.vtx[a].vin != []
  {
    assert CheckTransaction(b.vtx[a]);
  }

  /** A repeated transaction is no coinbase. */
  lemma RepeatedSpends(r: Rules, read: Reader, chain: seq<Placed>, i: nat, a: nat, j: nat, b: nat)
    requires ReplayChain(r, read, chain).Some? && HeightsOn(chain) && i < j < |chain|
    requires a < |chain[i].block.vtx| && b < |chain[j].block.vtx| && chain[i].block.vtx[a] == chain[j].block.vtx[b]
    ensures i >= 1 && !chain[i].block.vtx[a].IsCoinBase() && chain[i].block.vtx[a].vin != []
  {
    hide ReplayChain, CheckBlock;
    var tx := chain[i].block.vtx[a];
    ConnectedBlock(r, read, chain, j);
    ConnectedTx(r, chain[j].block, j, b);
    if i >= 1 {
      ConnectedBlock(r, read, chain, i);
      ConnectedTx(r, chain[i].block, i, a);
    }
    if tx.IsCoinBase() {
      assert HasHeight(chain[i].block, i) && HasHeight(chain[j].block, j);
      HeightsDiffer(i, j, tx.scriptSig);
    }
  }

  /** What a transaction spends from its own block comes before it there. */
  lemma SpendsEarlier(r: Rules, read: Reader, chain: seq<Placed>, j: nat, b: nat, o: OutPoint, c: nat)
    requires ReplayChain(r, read, chain).Some? && SpendsAt(chain, j, b, o)
    requires c < |chain[j].block.vtx| && chain[j].block.vtx[c].txid == o.hash
    ensures c < b
  {
    hide ReplayChain, ConnectTxs;
    var upTo := chain[..j + 1];
    var vtx, rest := upTo[j].block.vtx, upTo[..j];
    assert upTo[j] == chain[j];
    ReplayPrefix(r, read, chain, j + 1);
    LastConnects(r, read, upTo);
    var base, w := ReplayChain(r, read, rest).value.idx, TipWhere(upTo);
    if b <= c {
      ConnectTxsPrefix(r, read, base, vtx, w, b + 1, |vtx|);
      OverwriteAllowed(r, read, base, vtx, w, c);
      NoForwardSpend(r, read, base, vtx, w, b, c);
    }
  }

  lemma OverwriteAllowed(r: Rules, read: Reader, base: Index, vtx: seq<Tx>, w: Where, c: nat)
    requires c < |vtx| && ConnectTxs(r, read, base, vtx, w, |vtx|).Some?
    ensures MayOverwrite(base, vtx[c].txid)
  {
    hide SpendTx, InputsAllowed;
    ConnectTxsPrefix(r, read, base, vtx, w, c + 1, |vtx|);
  }

  /** No id is used again by a later block. */
  lemma {:induction false} NeverAgain(r: Rules, read: Reader, chain: seq<Placed>, i: nat, a: nat, j: nat, b: nat)
    requires ReplayChain(r, read, chain).Some? && HeightsOn(chain) && AgreeOn(chain) && i < j < |chain|
    requires a < |chain[i].block.vtx| && b < |chain[j].block.vtx|
    ensures chain[i].block.vtx[a].txid != chain[j].block.vtx[b].txid
    decreases j, b
  {
    hide ReplayChain, HeightsOn;
    if chain[i].block.vtx[a].txid == chain[j].block.vtx[b].txid {
      assert Agree(chain[i].block, chain[j].block);
      RepeatedSpends(r, read, chain, i, a, j, b);
      var o := chain[j].block.vtx[b].vin[0];
      SpentWasIssued(r, read, chain, i, a, o);
      RespentWasReissued(r, read, chain, i, a, j, b, o);
      var m0, c0 := IssuedAt(chain, -1, i, o.hash);
      var m, c := IssuedAt(chain, i, j, o.hash);
      if m == j {
        SpendsEarlier(r, read, chain, j, b, o, c);
      }
      NeverAgain(r, read, chain, m0, c0, m, c);
    }
  }

  lemma IssuedAt(chain: seq<Placed>, i: int, j: int, h: Hash) returns (m: nat, c: nat)
    requires i >= -1 && IssuedIn(chain, i, j, h)
    ensures i < m <= j && m < |chain| && c < |chain[m].block.vtx| && chain[m].block.vtx[c].txid == h
  {
    m :| i < m <= j && 0 <= m < |chain| && h in Txids(chain[m].block.vtx);
    c :| 0 <= c < |chain[m].block.vtx| && chain[m].block.vtx[c].txid == h;
  }

  /** Ids do not repeat on a connected chain whose coinbases carry their heights. */
  lemma IdsAreUnique(r: Rules, read: Reader, chain: seq<Placed>)
    requires ReplayChain(r, read, chain).Some? && HeightsOn(chain) && AgreeOn(chain)
    ensures NoRepeats(chain)
  {
    hide ReplayChain, HeightsOn, AgreeOn;
    forall i, j | 0 <= i < j < |chain| ensures Txids(chain[i].block.vtx) !! Txids(chain[j].block.vtx) {
      forall a, b | 0 <= a < |chain[i].block.vtx| && 0 <= b < |chain[j].block.vtx|
        ensures chain[i].block.vtx[a].txid != chain[j].block.vtx[b].txid
      {
        NeverAgain(r, read, chain, i, a, j, b);
      }
    }
  }

  /** No output is spent twice on a connected chain whose coinbases carry their heights. */
  lemma SpendsOnceOn(r: Rules, read: Reader, chain: seq<Placed>, i: nat, a: nat, x: nat, j: nat, b: nat, y: nat)
    requires ReplayChain(r, read, chain).Some? && HeightsOn(chain) && AgreeOn(chain)
    requires 1 <= i <= j < |chain| && (i < j || a < b || (a == b && x < y))
    requires a < |chain[i].block.vtx| && !chain[i].block.vtx[a].IsCoinBase() && x < |chain[i].block.vtx[a].vin|
    requires b < |chain[j].block.vtx| && !chain[j].block.vtx[b].IsCoinBase() && y < |chain[j].block.vtx[b].vin|
    ensures chain[i].block.vtx[a].vin[x] != chain[j].block.vtx[b].vin[y]
  {
    hide ReplayChain, HeightsOn, AgreeOn, NoRepeats;
    IdsAreUnique(r, read, chain);
    ChainSpendsOnce(r, read, chain, i, a, x, j, b, y);
  }

  // ---------- the block tree ----------

  /** Every block of the tree has its height in its coinbase, and genesis holds nothing else. */
  ghost predicate CoinbasesOk(nodes: Nodes, genesis: Hash) {
    && genesis in nodes && GenesisLike(nodes[genesis].block)
    && forall h :: h in nodes ==> HasHeight(nodes[h].block, nodes[h].height)
  }

  /** No two transactions of the tree share an id. */
  ghost predicate NoCollisions(nodes: Nodes) {
    forall g, h :: g in nodes && h in nodes ==> Agree(nodes[g].block, nodes[h].block)
  }

  lemma CoinbasesGrow(nodes: Nodes, more: Nodes, genesis: Hash, h: Hash)
    requires CoinbasesOk(nodes, genesis) && h !in nodes && h in more && more == nodes[h := more[h]]
    requires HasHeight(more[h].block, more[h].height)
    ensures CoinbasesOk(more, genesis)
  {
    hide HasHeight;
  }

  /** No chain of the tree that can be replayed repeats a transaction id. */
  lemma TreeIdsUnique(r: Rules, read: Reader, nodes: Nodes, genesis: Hash)
    requires Tree(nodes, genesis) && CoinbasesOk(nodes, genesis) && NoCollisions(nodes)
    ensures TreeWithoutRepeats(r, read, nodes, genesis)
  {
    hide PathTo, Tree, ReplayChain, NoRepeats, NoCollisions, CoinbasesOk;
    forall h | h in nodes && ReplayChain(r, read, ChainTo(nodes, genesis, h)).Some?
      ensures NoRepeats(ChainTo(nodes, genesis, h))
    {
      ChainHasHeights(nodes, genesis, h);
      IdsAreUnique(r, read, ChainTo(nodes, genesis, h));
    }
  }

  lemma ChainHasHeights(nodes: Nodes, genesis: Hash, h: Hash)
    requires Tree(nodes, genesis) && CoinbasesOk(nodes, genesis) && NoCollisions(nodes) && h in nodes
    ensures HeightsOn(ChainTo(nodes, genesis, h)) && AgreeOn(ChainTo(nodes, genesis, h))
  {
    hide PathTo, Tree, HasHeight, Agree;
    var path, chain := PathTo(nodes, genesis, h), ChainTo(nodes, genesis, h);
    assert path[0] == genesis;
    assert forall i :: 0 <= i < |path| ==> chain[i].block == nodes[path[i]].block && nodes[path[i]].height == i;
  }
}
