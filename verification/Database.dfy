/**
 The transaction database: a store, and the batch of puts and deletes of an open
 database transaction, which reads must look through.
 */
module Database {
  import opened Ledger

  /** What reads see: the store with the pending changes on top; `None` is a pending delete. */
  function Overlay(store: Index, batch: map<Hash, Option<TxIndex>>): Index {
    map h | h in store.Keys + batch.Keys && (h in batch ==> batch[h].Some?) ::
      if h in batch then batch[h].value else store[h]
  }

  class TxDB {
    var store: Index
    var hashBest: Hash
    var active: bool
    var batch: map<Hash, Option<TxIndex>>
    var batchBest: Option<Hash>

    ghost predicate Valid()
      reads this
    {
      !active ==> batch == map[] && batchBest == None
    }

    ghost function View(): Index
      reads this
    {
      Overlay(store, batch)
    }

    ghost function Best(): Hash
      reads this
    {
      if batchBest.Some? then batchBest.value else hashBest
    }

    constructor (genesis: Hash)
      ensures Valid() && !active && View() == map[] && Best() == genesis
    {
      store, hashBest, active, batch, batchBest := map[], genesis, false, map[], None;
    }

    method TxnBegin()
      requires Valid() && !active
      modifies this
      ensures Valid() && active && store == old(store) && hashBest == old(hashBest)
      ensures View() == store == old(View()) && Best() == hashBest
    {
      active := true;
    }

    method TxnCommit()
      requires Valid() && active
      modifies this
      ensures Valid() && !active
      ensures View() == store == old(View()) && Best() == hashBest == old(Best())
    {
      store, hashBest := Overlay(store, batch), if batchBest.Some? then batchBest.value else hashBest;
      active, batch, batchBest := false, map[], None;
    }

    method TxnAbort()
      requires Valid()
      modifies this
      ensures Valid() && !active && store == old(store) && hashBest == old(hashBest)
      ensures View() == store && Best() == hashBest
    {
      active, batch, batchBest := false, map[], None;
    }

    method ReadTxIndex(h: Hash) returns (e: Option<TxIndex>)
      requires Valid()
      ensures e == if h in View() then Some(View()[h]) else None
    {
      if h in batch {
        e := batch[h];
      } else {
        e := if h in store then Some(store[h]) else None;
      }
    }

    method UpdateTxIndex(h: Hash, e: TxIndex)
      requires Valid() && active
      modifies this`batch
      ensures Valid() && View() == old(View())[h := e]
    {
      batch := batch[h := Some(e)];
    }

    method EraseTxIndex(h: Hash)
      requires Valid() && active
      modifies this`batch
      ensures Valid() && View() == old(View()) - {h}
    {
      batch := batch[h := None];
    }

    method WriteHashBestChain(h: Hash)
      requires Valid() && active
      modifies this`batchBest
      ensures Valid() && Best() == h
    {
      batchBest := Some(h);
    }
  }
}
