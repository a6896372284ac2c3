# Verification of the node's chain state and of the indexes around it

A model, in Dafny, of the parts of a proof-of-stake node where state is redundant or where several
functions must agree: the chain state machine, synchronized checkpoints, the address manager, and the
consensus computations, block assembly and codecs next to them. `dafny verify dfyconfig.toml` checks all of it.

**Chain state.** `Ledger` says what connecting and disconnecting transactions and blocks means for the
transaction index. `LedgerUndo` and `LedgerValue` prove undoing and conservation for one block, `Replay` and
`Reorganization` for whole chains; `History` and `SpendRules` say the same rules in terms of the chain alone.
`LedgerOps` and `Database` hold the node's own loops, with the queued overlay and the database transaction,
proved to do the same. `BlockTree`, `ChainView` and `ActiveChain` add the block tree, links, supplies and best
tip; the class `ChainState` keeps, in every reachable state, that index, supplies and links are exactly those of
the path to the tip as long as every block that became best does connect. `Divergence` shows that the
reservation is needed: the node moves its best tip even if a postponed block fails, and a run from genesis gets
there. Repeated ids are covered: the index is the replay of the active chain up to fully spent transactions that
were overwritten, and exactly the replay if ids do not repeat on chains that connect. `ChainSpends` proves that
an output is spent twice on a chain only if its transaction was issued again in between. Block connecting lets
that happen, as `RepeatedIds` shows; block acceptance does not: coinbases start with their heights
(`CoinbaseHeight`), and then ids are unique on every chain that connects, as long as an id determines its
transaction (`UniqueIds`).

**Checkpoints.** `HeaderRules` ties the tests of bits and time to the block tree, and `UniqueIds` that of the
height. `Checkpoints` runs block acceptances and checkpoint messages over that state machine. Its safety needs
only that links lie on the path to the best tip, which holds in every run.

**Address manager.** `AddrTables` states the consistency of the five structures and proves every kind of
change; `AddrMan` has the operations, `AddrEviction` the choice of the tried entry that makes room for another,
`AddrCheck` the node's own debug check, `AddrStore` and `AddrRestore` saving and loading.

**Consensus computations.** `Targets` (with `Mpi`): compact targets, retargeting, trust. `StakeModifier`, `MedianTime`,
`Merkle`, `Locator`.

**Block assembly.** `Assembly` says what a list of pool transactions does to the index; `MinerQueue` and `Miner`
have the queue, the dependency books and the filling loop; `Mining` puts them on top of the chain state, and
`MinerExample` shows what goes wrong on an index that no connected chain leaves.

**Codecs.** `Framing`: messages from a byte stream. `Base58`: text for byte strings.

`Ordering`, `Sequences`, `Numbers` and `Examples` are shared helpers.

Where documentation and code differ, the model follows the code: the comment that a failed postponed block is
harmless (src/main.cpp:2071-2073) does not hold for the best tip, and the position that tried-entry selection
returns (src/addrman.cpp:136-144) is that of the least recently successful entry only if this entry was drawn
where it already was (`AddrEviction.PickIsLeast`, with `AddrEviction.LastIsSpared` for the other case).

## Model

| member | source | states |
|---|---|---|
| `LedgerUndo.SpendAllMeaning` | src/main.cpp:1577-1627 | Marking the inputs of a transaction as spent succeeds exactly when they are distinct, known and unspent, and then changes the spent markers of exactly these outputs. |
| `LedgerUndo.UnspendAllMeaning` | src/main.cpp:1368-1393 | Clearing spent markers succeeds exactly when every named output is indexed, and clears exactly these markers. |
| `LedgerUndo.UndoTx` | src/main.cpp:1368-1401 | Disconnecting a transaction restores every entry it spent from and removes its own, also when later entries are already gone. |
| `LedgerUndo.NoForwardSpend` | src/main.cpp:1737-1807 | No transaction of a connected block spends an output of a later one. |
| `LedgerUndo.DisconnectUndoesConnect` | src/main.cpp:1653-1700 | Disconnecting a connected block in reverse order gives back the index from before it without the block's own ids; it is exactly the index from before if and only if none of these ids was there, the overwriting of fully spent transactions being the only loss. |
| `LedgerValue.SpendAllValue` | src/main.cpp:1577-1627 | Spending lowers the total of unspent outputs by what the inputs are worth. |
| `LedgerValue.BlockConserves` | src/main.cpp:1728-1835 | A connected block changes the total of all outputs marked unspent by value out less value in, also when it overwrites fully spent transactions. |
| `LedgerValue.StakeTally` | src/main.cpp:1785-1793 | With an empty coinbase and one coinstake at position 1, what a block issues is the stake reward less the fees. |
| `LedgerValue.StakeIssuance` | src/main.cpp:1818-1830 | A connected proof-of-stake block whose parent is above height 170000 raises the unspent total by at most one coin. |
| `LedgerValue.StakeIssuanceByEra` | src/main.cpp:1060-1105 | What a proof-of-stake block may create at most in each era: by coin age, by lottery, one coin. |
| `LedgerValue.WorkIssuance` | src/main.cpp:1037-1059 | A proof-of-work block without coinstakes creates at most 3284 coins below height 4551 and 2.15652173 from there on. |
| `LedgerValue.BurnedMeans` | src/main.cpp:1801-1806 | What is sent to the burn address, and nothing else, counts as burned, output by output. |
| `LedgerValue.PlacesFollow` | src/main.cpp:1728-1766 | Transactions of a block lie behind one another on disk, after the header and the length of the list. |
| `Replay.ReplayConserves` | src/main.cpp:1833-1835 | For every chain that connects from genesis, the unspent total equals the accumulated money supply plus everything burned. |
| `Replay.ReplayBurned` | src/main.cpp:1737-1807 | The burned total of a replay is the value of all outputs to the burn script on the chain. |
| `Replay.IssuanceBound` | src/main.cpp:1064-1080 | Any k consecutive connected proof-of-stake blocks with parents above height 170000 raise the unspent total by at most k coins. |
| `Replay.ReplayMoreDisk` | src/main.cpp:1404-1469 | Appending to the block files does not change what an already stored chain replays to. |
| `Replay.ConnectBlockUpToSpent` | src/main.cpp:1702-1850 | Two indexes that differ only in fully spent transactions accept the same blocks with the same totals and stay that close. |
| `Replay.DisconnectUpToSpent` | src/main.cpp:1653-1700 | Disconnecting the tip from an index that lacks only fully spent transactions leads to one that lacks only such transactions of the shorter chain. |
| `Replay.TipDisconnects` | src/main.cpp:1653-1700 | If no transaction id repeats on the chain, the tip disconnects and leaves exactly the replay of the chain below. |
| `History.IndexTells` | src/main.cpp:1473-1511 | At every point of a connected chain without repeated ids the index holds exactly the transactions issued so far, each at its place, and records as spent exactly the outputs that an earlier transaction spent. |
| `SpendRules.ConnectsExactly` | src/main.cpp:1533-1650 | In terms of the chain alone: a transaction connects if and only if every output it spends was issued before and not spent since, by a transaction not younger, at least 500 blocks ago if by a coinbase or coinstake, with a value in range and a valid signature, no input twice, and the values together are in range and leave the fee. |
| `SpendRules.Maturity` | src/main.cpp:1557-1562 | On every connected chain without repeated ids the output of a coinbase or coinstake is spent at least 500 blocks later. |
| `SpendRules.BlockConnectsExactly` | src/main.cpp:2267-2370 | A block connects if and only if it has the shape written out there, one coinbase in front, at most one coinstake and where, values in range, distinct ids and inputs, times, and its transactions and reward pass. |
| `SpendRules.RewardExactly` | src/main.cpp:1808-1835 | The reward test in numbers: what coinstake or coinbase may take beyond fees and inputs at each height. |
| `ChainSpends.InputsAreSpent` | src/main.cpp:1584-1626 | Every input of every transaction of a connected chain without repeated ids is recorded as spent. |
| `ChainSpends.SpentUntilReissued` | src/main.cpp:1584-1626 | On every connected chain an input stays recorded as spent until a later block issues its transaction again. |
| `ChainSpends.RespentWasReissued` | src/main.cpp:1584-1588 | On every connected chain, an output spent by two transactions was issued again by a block after the first one and up to the second. |
| `CoinbaseHeight.HeightsDiffer` | src/main.cpp:2446-2450 | A script starts with the push of at most one number, so that no coinbase passes the height test at two heights. |
| `CoinbaseHeight.PushReadsBack` | src/script.h:271-283 | A number above 16 is pushed as its length and its little-endian bytes, which read back. |
| `UniqueIds.NeverAgain` | src/main.cpp:1741-1757 | On every connected chain whose coinbases carry their heights and on which an id determines its transaction, no transaction has the id of one of an earlier block. |
| `UniqueIds.IdsAreUnique` | src/main.cpp:2446-2450 | On such a chain no two blocks share a transaction id: the test that lets fully spent transactions be overwritten is never used. |
| `UniqueIds.SpendsOnceOn` | src/main.cpp:1584-1588 | No output is spent twice on such a chain, not by two blocks, two transactions or two inputs. |
| `UniqueIds.TreeIdsUnique` | src/main.cpp:2446-2450 | In every block tree whose blocks passed the height test, no chain that can be replayed repeats an id, whatever blocks that do not connect hold. |
| `RepeatedIds.SpentAgain` | src/main.cpp:1741-1757 | What block connecting alone lets through: a chain on which a coinbase is issued again once it is fully spent, and its output is spent a second time. |
| `RepeatedIds.ChainReplays` | src/main.cpp:1741-1757 | Chains of every length on which this happens every 501 blocks connect. |
| `RepeatedIds.AcceptanceRefuses` | src/main.cpp:2446-2450 | Of these chains block acceptance refuses exactly the blocks that repeat the coinbase. |
| `ChainSpends.IndexedIsOnChain` | src/main.cpp:1798-1799 | Every index entry is that of a transaction of the chain, at the place where it is stored. |
| `Reorganization.DownExact` | src/main.cpp:1918-1934 | Without repeated ids, disconnecting a branch of any length succeeds and gives the replay of the chain up to the fork. |
| `Reorganization.DownExactly` | src/main.cpp:1918-1934 | Repeated ids included: disconnecting a branch succeeds if and only if none of its transactions spends from an id that is missing or that a later block of the branch has again, and leaves the replay up to the fork without the missing ids and those of the branch. |
| `Reorganization.OntoFollows` | src/main.cpp:1936-1953 | Connecting a branch onto an index that stands for a replay succeeds exactly when the longer chain replays, and then stands for it. |
| `Reorganization.ReorganizeFollows` | src/main.cpp:1886-1969 | Disconnecting down to the fork and connecting the other branch succeeds exactly when the new chain replays from genesis, and the index is the replay's, up to fully spent overwritten transactions and exactly if ids do not repeat. |
| `Database.TxDB.TxnCommit` | src/txdb-leveldb.cpp:165-176 | A commit makes what reads saw the store, batch and best hash together. |
| `Database.TxDB.TxnAbort` | src/txdb-leveldb.h:168-173 | An abort drops every pending change. |
| `Database.TxDB.ReadTxIndex` | src/txdb-leveldb.h:60-92 | A read sees pending puts and deletes before the store. |
| `LedgerOps.FetchInputs` | src/main.cpp:1404-1469 | Succeeds exactly when every input's transaction is found, queued changes first, with the output in range, and returns entry and transaction of each. |
| `LedgerOps.GetValueIn` | src/main.cpp:1519-1531 | The loop adds up exactly the values of the outputs spent. |
| `LedgerOps.ConnectInputs` | src/main.cpp:1533-1651 | Through the queued overlay: accepts exactly the transactions whose inputs are allowed and unspent, and leaves the overlay so that reads see them spent. |
| `LedgerOps.ConnectTransaction` | src/main.cpp:1737-1807 | One transaction against database and overlay does what connecting it directly to the index does, totals included, and fails exactly when that fails. |
| `LedgerOps.ConnectBlockOps` | src/main.cpp:1702-1850 | Connecting a block through the queued overlay and one write-back equals the plain meaning of connecting it, spends inside the block included; a failing block leaves the database as it was. |
| `LedgerOps.DisconnectInputs` | src/main.cpp:1368-1401 | Entry by entry in the database, equals the plain disconnecting of a transaction. |
| `LedgerOps.DisconnectBlockOps` | src/main.cpp:1670-1673 | Reverse-order disconnecting in the database equals its plain meaning. |
| `BlockTree.FindFork` | src/main.cpp:1890-1903 | The two nested walks terminate without falling off the tree, at the common ancestor of which every common ancestor is an ancestor. |
| `BlockTree.ForkSplits` | src/main.cpp:1905-1913 | Up to the fork the two paths are the same; above it they share no block. |
| `ChainView.MainChainIsPath` | src/main.h:1054-1057 | When forward links lie on the path to the tip and cover it, a block counts as in the main chain exactly if it is the tip or an ancestor of it. |
| `ChainView.SwitchDescribes` | src/main.cpp:1886-1969 | After a switch that reached the new tip, index, supplies and links describe exactly the path to it. |
| `ChainView.ExtendDescribes` | src/main.cpp:1988-2009 | Connecting a child of a described tip gives a state that describes the child. |
| `ChainView.Conservation` | src/main.cpp:1833-1835 | In every state that describes its tip, outputs marked unspent in the committed index are worth the tip's recorded money supply plus all burns on the active chain. |
| `ActiveChain.RecentPositions` | src/main.cpp:1558-1562 | The walk over the last 500 blocks collects exactly the disk places that the maturity test compares with. |
| `ActiveChain.ConnectBranch` | src/main.cpp:1936-1953 | Connects a branch block by block; succeeds exactly if the plain definition does, and records every block's money supply. |
| `ActiveChain.DisconnectBranch` | src/main.cpp:1918-1934 | Disconnects a branch tip first, as the plain definition does. |
| `ActiveChain.Relink` | src/main.cpp:1961-1969 | Cutting the old branch's links and setting the new one's leaves exactly the links of the new path and those below the fork. |
| `ActiveChain.FindIntermediate` | src/main.cpp:2033-2045 | Walks back from the block to the position where it stops: all blocks passed on the way have more trust than the best tip, and the parent of the block found does not; the blocks passed are returned, last first. |
| `ActiveChain.TargetIs` | src/main.cpp:2033-2045 | To a block with more trust than the best tip a switch reorganizes to the one ancestor from which on all blocks have more trust than the best tip and whose parent does not. |
| `ActiveChain.ChainState.SetBestChainInner` | src/main.cpp:1988-2009 | Connects a child in one database transaction: on success index, supply, link and best hash change together, on failure nothing does. |
| `ActiveChain.ChainState.Reorganize` | src/main.cpp:1886-1969 | From a described state it succeeds if and only if the new chain replays and no transaction of the old branch spends from an id that the index has lost or that a later block of the old branch has again; then the state describes the new tip, and an aborted attempt leaves index and links untouched. |
| `ActiveChain.ChainState.ConnectPostponed` | src/main.cpp:2058-2074 | Postponed blocks are connected one transaction each up to the first failure; all of them connect exactly if the whole chain replays. |
| `ActiveChain.ChainState.SetBestChain` | src/main.cpp:2012-2090 | From a described state it succeeds if and only if the old branch can be undone and the chain up to the block to reorganize to replays; the result describes the new tip if and only if the new tip's chain replays from genesis, and otherwise the last block before the first one that does not, although the best tip has moved on. |
| `Divergence.Diverge` | src/main.cpp:2071-2073 | A run from genesis through block and checkpoint handling, every block passing its tests, after which the best block does not connect and index, links and supply are those of its parent: the tolerated failure leaves the index behind the best tip. |
| `ActiveChain.ChainState.FindBlockByHeight` | src/main.cpp:946-962 | Whatever block the cache holds, walking back and forward over the links ends at the block of that height on the path to the tip. |
| `ActiveChain.ChainState.AddToBlockIndex` | src/main.cpp:2196-2261 | The tree stays a tree whose trust adds up, the best tip changes if and only if the new block has more trust and the switch to the block to reorganize to succeeds, and the state keeps describing its tip exactly unless a switch left postponed blocks unconnected. |
| `Checkpoints.TraceBack` | src/checkpoints.cpp:123-134 | Walking back reaches the ancestor at the requested height. |
| `Checkpoints.SyncCheckpoints.ValidateSyncCheckpoint` | src/checkpoints.cpp:96-136 | Accepts exactly the known blocks above the current checkpoint that descend from it, and remembers a conflicting one as invalid. |
| `Checkpoints.SyncCheckpoints.CheckSync` | src/checkpoints.cpp:208-233 | Accepts a block exactly if it descends from the checkpoint, is the checkpoint, or is already known below it. |
| `Checkpoints.SyncCheckpoints.AcceptPendingSyncCheckpoint` | src/checkpoints.cpp:154-195 | A pending checkpoint that became known replaces the current one only if it descends from it and is in the active chain afterwards; when the switch to it succeeds and what the state then describes is stated exactly. |
| `Checkpoints.SyncCheckpoints.ProcessSyncCheckpoint` | src/checkpoints.cpp:367-415 | A signed message moves the checkpoint to a descendant or remembers an unknown block as pending; nothing else changes it, and when a switch to it succeeds and what the state then describes is stated exactly. |
| `Checkpoints.SyncCheckpoints.AcceptBlock` | src/main.cpp:2404-2477 | A block joins the tree if and only if it is new, its parent is known and descends from the checkpoint, its bits and time pass on top of that parent, its coinbase starts with its height and the other tests pass; the best block then changes as adding it says, and after that as moving to a pending checkpoint says; the checkpoint stays on the active chain and moves only to descendants. |
| `Checkpoints.SyncCheckpoints.Run` | src/checkpoints.cpp:138-195 | Over every run of block acceptances and checkpoint messages, every block that ever was the checkpoint is an ancestor of the final best tip and a proper ancestor of every later checkpoint, and every block has more trust than its parent; also in runs in which postponed blocks failed. If every block that ever became best ends a chain that replays, index, links and supply are those of the best block, and the index is exactly the replay of the active chain, on which no transaction id repeats. |
| `Mpi.MpiRoundTrip` | src/bignum.h:294-319 | Every integer is read back from its signed multi-precision bytes. |
| `Targets.CompactRoundsDown` | src/bignum.h:321-344 | Compact encoding keeps a positive number positive, never raises it and loses less than one part in 2^15. |
| `Targets.CompactValue` | src/bignum.h:321-332 | A compact target is its lower three bytes shifted by its size byte. |
| `Targets.GetLastBlockIndex` | src/main.cpp:1156-1161 | The walk back stops at the last block of the wanted kind, or at genesis. |
| `Targets.GetNextTargetRequiredByPair` | src/main.cpp:1163-1228 | The loops and branches of the first two rules compute the retarget over the last two blocks of the kind. |
| `Targets.WalkWindow` | src/main.cpp:1243-1252 | The walk over the averaging window visits the last 64 blocks of the kind or all there are, and never leaves the chain. |
| `Targets.GetNextTargetRequiredByWindow` | src/main.cpp:1230-1287 | The third rule with its window walk; the divisor is never zero. |
| `Targets.GetNextTargetRequired` | src/main.cpp:1289-1297 | The rule in force at the last block's height gives the required bits, computed by the loops of the three rules. |
| `Targets.RequiredIsUsable` | src/main.cpp:1289-1297 | On every chain, the required bits of every rule decode to a target above zero and within the limit. |
| `Targets.RetargetAverage` | src/main.cpp:1181-1193 | The new target is the old one averaged over interval - 1 blocks on schedule and two like the last: never above that average, less than one part in 2^15 and one unit below it; averages below one or above the limit give the limit. |
| `Targets.RetargetDirection` | src/main.cpp:1181-1193 | A block that took no longer than it should does not raise the target unless the average is below one; one that took no less lowers it by rounding alone. |
| `Targets.PairMeans` | src/main.cpp:1171-1193 | The first two rules adjust the target of the last block of the kind to its time since the one before. |
| `Targets.WindowMeans` | src/main.cpp:1240-1287 | The third rule uses the average of the last 63 gaps of the kind, and with up to 64 blocks the time since the first divided by two less than their number. |
| `Targets.TrustMeaning` | src/main.cpp:2481-2490 | The trust of a block is how often its target, and one more, fits into 2^256. |
| `Targets.TrustGrows` | src/main.cpp:2478-2487 | On every chain that passes the bits check, chain trust grows strictly, by at least 2^20 with every block. |
| `HeaderRules.CheckHeader` | src/main.cpp:2404-2410 | The walk over the chain below a block and the two tests accept exactly the required bits and a time past the limit. |
| `HeaderRules.TrustGrowsInTree` | src/main.cpp:2217-2218 | In every tree whose blocks passed the tests, each block has at least 2^20 more trust than its parent. |
| `HeaderRules.LimitsGrowInTree` | src/main.cpp:2408-2410 | In every such tree the past time limit never decreases along a path. |
| `AddrTables.ExchangeConsistent` | src/addrman.cpp:231-259 | Exchanging a new entry for a tried one, the latter going to a new bucket with room, keeps all tables consistent. |
| `AddrTables.PromoteConsistent` | src/addrman.cpp:218-229 | Moving a new entry to a tried bucket with room keeps all tables consistent. |
| `AddrTables.ForgetConsistent` | src/addrman.cpp:160-171 | Forgetting an entry with its last reference keeps all tables consistent, one pending id included. |
| `AddrTables.TerribleMeans` | src/addrman.cpp:38-56 | When an entry is terrible: not within a minute of a try, and for a time ahead, unknown or a month old, three failures without success, or ten in a week. |
| `AddrMan.AddrMan.Create` | src/addrman.cpp:94-104 | A new id is entered in all three indexes. |
| `AddrMan.AddrMan.SwapRandom` | src/addrman.cpp:106-124 | Exchanging two random positions keeps the tables consistent and changes nothing else. |
| `AddrMan.AddrMan.SelectTried` | src/addrman.cpp:126-148 | Given the draws of the rounds, fixes the order of the bucket afterwards, the round that found the least recently successful of the inspected entries, and the position returned: the one where that entry was before its exchange. |
| `AddrEviction.PickIsLeast` | src/addrman.cpp:130-147 | The returned position names the least recently successful of the inspected entries if and only if the round that found it drew zero; another entry succeeded as early as all inspected ones if and only if it succeeded no later than that one. |
| `AddrEviction.NamesDisplaced` | src/addrman.cpp:136-144 | Unless a later round moves it again, the named entry is the one that the least recently successful one displaced. |
| `AddrEviction.LastIsSpared` | src/addrman.cpp:136-144 | In every bucket whose last entry is the least recently successful, drawing it first and leaving the rest in place names the last position, which by then holds the former first, more recent entry. |
| `AddrEviction.SparesLeast` | src/addrman.cpp:136-144 | There is a full bucket for which the entry found to be least recently successful stays and a more recent one is named. |
| `AddrMan.AddrMan.ShrinkNew` | src/addrman.cpp:150-202 | With one id pending: drops the first terrible entry of the bucket, or else the oldest of four picks, forgets it if that was its last reference, and keeps the tables consistent; none of its asserts can fail. |
| `AddrMan.AddrMan.MakeTried` | src/addrman.cpp:204-260 | The entry leaves every new bucket and ends in its tried bucket; a full bucket gives up the entry that selection names, which goes to the new bucket of its own source or, if that is full, to the promoted entry's former one, which has room. |
| `AddrMan.AddrMan.Good` | src/addrman.cpp:262-309 | Keeps all tables consistent; unknown endpoints change nothing, known ones get their times and a promotion if they were new. |
| `AddrMan.GoodLosesNothing` | src/addrman.cpp:262-309 | Recording a success sets time, last try and last success of the entry, clears its attempts and makes it tried; it loses no entry, leaves addresses and random order alone, and sends back to new at most the one entry that selection names, otherwise as it was. |
| `AddrMan.EvictsLeast` | src/addrman.cpp:231-259 | What a promotion into a full bucket sends back is the least recently successful of four inspected entries if and only if the round that found that one drew zero; it goes to the new bucket of its own source, or if that is full to the promoted entry's. |
| `AddrMan.AddrMan.Add` | src/addrman.cpp:311-366 | Returns true exactly for new routable addresses; the entry gains its bucket for the source exactly if it is new, or eligible with a draw of zero; keeps all tables consistent. |
| `AddrMan.NotedMeans` | src/addrman.cpp:318-357 | What an announcement does to an entry: a new one starts with the time set back by the penalty; a known one gains services, and its time moves on only by more than an hour or a day. |
| `AddrMan.AddGains` | src/addrman.cpp:331-365 | A new entry always gets a bucket; a known one only for news with a newer time, if not tried and in fewer than four, and then exactly when the draw is zero. |
| `AddrMan.BucketFactor` | src/addrman.cpp:343-348 | The number to draw from doubles with every bucket an entry is in. |
| `AddrMan.AddLosesAtMostOne` | src/addrman.cpp:311-366 | Adding makes the address known, touches no tried entry and forgets at most one address, a new entry of a full bucket with no other reference. |
| `AddrMan.AddrMan.Attempt` | src/addrman.cpp:368-385 | Counts an attempt for exactly the entry with this address and port and keeps the tables consistent. |
| `AddrMan.AddrMan.Connected` | src/addrman.cpp:513-531 | Refreshes the time of exactly that entry, at most every twenty minutes. |
| `AddrMan.AddrMan.GetAddr` | src/addrman.cpp:491-511 | Returns distinct entries that are not terrible, at most 23 percent and 2500, all of them if fewer were found; only the random order changes. |
| `AddrCheck.Check` | src/addrman.cpp:432-488 | On consistent tables the node's own check reports no structural code, and passes exactly if every entry's times make sense. |
| `AddrStore.Serialize` | src/addrman.h:271-313 | The stream holds the new and the tried entries in id order and, for every bucket, the new numbers of exactly its ids. |
| `AddrRestore.Unserialize` | src/addrman.h:315-378 | A stream written from consistent tables is read back without loss into consistent tables that are the same up to renumbering. |
| `AddrRestore.Restores` | src/addrman.h:315-378 | Once everything is read, every entry, address, count, flag and bucket membership is there under its new id, and all structures agree again. |
| `AddrRestore.RoomLeft` | src/addrman.h:347-362 | While tried entries are read back, their bucket always has room, so that none is lost. |
| `AddrRestore.SaveAndLoad` | src/addrman.h:271-378 | Saving and loading loses nothing: every address with its source, last success and attempts, every flag, count and bucket membership comes back under new ids, and the last tries are zero. |
| `Merkle.BlockHashes.BuildMerkleTree` | src/main.h:736-753 | The flat array holds all levels in order and ends in the root. |
| `Merkle.SmallRoots` | src/main.h:736-753 | Pairs are hashed left to right and an odd last digest with itself. |
| `Merkle.BlockHashes.GetMerkleBranch` | src/main.h:755-769 | Reads from the flat array exactly the siblings on the way up. |
| `Merkle.CheckMerkleBranch` | src/main.h:771-784 | Folds the branch by the bits of the index; index -1 gives zero. |
| `Merkle.BranchLeadsToRoot` | src/main.h:755-784 | For every number of leaves and every index, folding the branch over the leaf gives the root, odd levels included. |
| `Merkle.BranchOfBlock` | src/main.h:736-784 | Build, branch and check together give the root. |
| `Merkle.RootDeterminesList` | src/main.cpp:2339-2359 | If pair hashing is injective and never gives a transaction hash, two non-empty lists that pass the duplicate test and have the same root are equal, whatever their lengths. |
| `Merkle.RepeatingLastKeepsRoot` | src/main.h:742-751 | Without the duplicate test every list of odd length above one shares its root with a longer one. |
| `StakeModifier.GetLastStakeModifier` | src/kernel.cpp:24-35 | The walk finds the modifier and time of the last generating block. |
| `StakeModifier.LastModifierIsLast` | src/kernel.cpp:24-35 | It is found exactly if some block generated one, and no later block did. |
| `StakeModifier.SelectBlockFromCandidates` | src/kernel.cpp:56-95 | Selects the first unselected candidate with the least selection hash up to the stop, or the earliest unselected one if none is that early; fails exactly if all are selected. |
| `StakeModifier.SelectedAgainst` | src/kernel.cpp:72-96 | The selected block against any other that could be: the smaller hash wins among work blocks, in steps of 2^32 among stake blocks, and a stake block against a work block unless its hash is 2^32 times as large. |
| `StakeModifier.StakeFavoured` | src/kernel.cpp:77-82 | With hashes of 256 bits a work block with a hash of at least 2^224 is selected only if no stake block could be. |
| `StakeModifier.SectionsLengthen` | src/kernel.cpp:37-42 | Later rounds get longer sections, from a third of the interval to all of it. |
| `StakeModifier.StartMeans` | src/kernel.cpp:131-132 | The selection sections together end with the last whole interval. |
| `StakeModifier.SelectRounds` | src/kernel.cpp:143-159 | With distinct hashes no round fails: each of the min(64, candidates) rounds selects by the rule among those not selected before. |
| `StakeModifier.ComputeNextStakeModifier` | src/kernel.cpp:110-188 | Fails only if no block generated a modifier; inherits it within an interval; otherwise bit r of the new modifier is the entropy bit of the block selected in round r. |
| `MinerQueue.PopBest` | src/miner.cpp:260-266 | Takes a transaction that no other one outranks in the current order. |
| `MinerQueue.Release` | src/miner.cpp:336-351 | Tells every listed depender, repeated or not, and queues each one that waited for nothing else exactly once, with its own ranks. |
| `MinerQueue.IncludeKeeps` | src/miner.cpp:336-351 | After an inclusion, exactly the transactions all of whose parents are in the block have been queued. |
| `Miner.BuildQueue` | src/miner.cpp:173-246 | Sorts the pool by whether inputs are on the chain; every entry carries its own priority and fee rate. |
| `Miner.TryAdd` | src/miner.cpp:299-321 | Adds a transaction if and only if it connects to what the block leaves so far, pays the minimum fee and keeps the sigop limit. |
| `Assembly.ParentsFirst` | src/miner.cpp:299-321 | Every input of a transaction in the block is on the chain or from an earlier transaction. |
| `Assembly.NoDoubleSpend` | src/miner.cpp:299-321 | No output is spent twice in a block whose ids are new to the index. |
| `Assembly.NotSpentOnChain` | src/miner.cpp:299-321 | Nor is one spent that the chain has spent. |
| `Assembly.StaysUnconnectable` | src/miner.cpp:299-321 | A transaction with known inputs that does not connect to a part of the block does not connect to the whole. |
| `Assembly.FeesAreInMinusOut` | src/miner.cpp:307-328 | The fees are the value of all inputs less all outputs. |
| `Miner.CreateNewBlock` | src/miner.cpp:173-353 | For every index and pool: each transaction at most once and after its parents, final, none a coinbase or coinstake, size and sigops below the limits; considered in the order of their ranks, by priority and then fee rate until the share of priority ends and by fee rate and then priority from there on; and each transaction whose parents are all included is included or failed a named test when it was considered; fees equal inputs less outputs if ids determine transactions; no output is spent twice or again if indexed pool transactions are recorded as spending their inputs. |
| `Miner.EarlierRanksHigher` | src/miner.cpp:251-301 | Of two transactions of the block the later one does not outrank the earlier one if its parents were in the block by then. |
| `Miner.ReleasedMeans` | src/miner.cpp:178-225 | A transaction may be taken exactly if it is final, neither coinbase nor coinstake, and each input is on the chain or from the block so far. |
| `Miner.RankOfOneInput` | src/miner.cpp:190-240 | With one input the ranks are value times age by size, and what is paid for a thousand bytes. |
| `Miner.InputsCount` | src/miner.cpp:190-240 | Every input counts for itself, one in the pool with its value but no age. |
| `Mining.IndexGuarantees` | src/miner.cpp:299-321 | On top of every connected chain of a tree whose replayable chains do not repeat ids that last condition holds: indexed transactions are recorded as spending their inputs, and no entry has the miner's placeholder for a place. |
| `Mining.CreateNewBlockOn` | src/miner.cpp:173-353 | In every state of the node, for every pool whose inputs are on chain or in the pool: each transaction at most once, after its parents and in order of rank, size and sigops below the limits. If the index describes the best block and ids determine transactions: no output spent twice or again, fees equal to inputs less outputs and enough for each transaction, and a lasting reason for every transaction that could have been in the block and is not. |
| `Mining.RefusalLasts` | src/miner.cpp:268-319 | A transaction refused for lack of room, by a limit or because it does not connect would be refused by the finished block too. |
| `MinerExample.SpendsTwice` | src/miner.cpp:320-321 | On an index that lists a pool transaction without recording its inputs as spent, three pool transactions connect in one order and spend an output twice; that the ranking yields this order is not stated. |
| `MedianTime.GetMedianTimePast` | src/main.h:1074-1086 | The buffer filled backwards and sorted gives the median of the last up to eleven times. |
| `MedianTime.GetPastTimeLimit` | src/main.h:1064-1070 | The median up to height 203500, the block's own time above. |
| `MedianTime.AcceptedMeans` | src/main.cpp:2408-2410 | A time is accepted exactly if it is above the limit and at most ten minutes, 15 seconds above height 203500, before the parent's. |
| `MedianTime.MedianAtLeast` | src/main.h:1084-1085 | The median is at least m exactly if at most half of the window is below m. |
| `MedianTime.LimitNeverDecreases` | src/main.cpp:2408-2410 | On every chain that passes the timestamp test the limit never decreases, through short windows, sliding medians and the switch of rules, and every block is later than the limits of all its ancestors. |
| `Framing.ReadHeader` | src/net.cpp:567-596 | Takes header bytes up to the 24th and rejects exactly the headers that announce more than the maximum. |
| `Framing.HeaderRoundTrip` | src/protocol.h:25-60 | A header written field by field, numbers lowest byte first, is read back. |
| `Framing.OversizeRejected` | src/net.cpp:567-593 | A header ends the stream if and only if it announces more than 32 megabytes. |
| `Framing.ReadData` | src/net.cpp:598-612 | Takes payload bytes up to the announced size, whatever room was allocated ahead. |
| `Framing.Node.ReceiveMsgBytes` | src/net.cpp:536-565 | Terminates, and has the outcome of feeding its bytes one by one. |
| `Framing.FeedSplit` | src/net.cpp:536-565 | Feeding a stream in two parts is feeding it whole. |
| `Framing.CutTwoWays` | src/net.cpp:536-612 | Any two ways of cutting a stream give the same headers, payload bytes and outcome. |
| `Framing.FeedMessages` | src/net.cpp:567-612 | A stream of well-formed messages is cut into exactly these messages. |
| `Framing.WrittenIsWellFormed` | src/protocol.h:25-60 | A header that announces the size of the payload after it makes a well-formed message. |
| `Framing.CompletePayload` | src/net.h:157-162 | A complete message's buffer is its payload, with no room left over. |
| `Base58.EncodeBase58` | src/base58.h:31-69 | The bignum loop, the leading zeros and the reversal compute the encoding. |
| `Base58.DecodeBase58` | src/base58.h:79-123 | White space, digits, sign byte, leading zeros and reversal compute the decoding, or fail exactly on other text. |
| `Base58.DecodeEncode` | src/base58.h:31-123 | Decoding inverts encoding for every byte string. |
| `Base58.EncodeDecode` | src/base58.h:31-123 | Encoding inverts decoding for every text of alphabet characters. |
| `Base58.DecodedText` | src/base58.h:79-123 | A text decodes exactly if it is digits within white space, and re-encoding gives these digits. |
| `Base58.KnownTexts` | src/base58.h:24-69 | Zero bytes in front give ones, and digits count from the right in base 58. |
| `Base58.GetVchTrimmed` | src/base58.h:107-112 | Without the sign byte, the little-endian bytes of a number are its minimal bytes. |
| `Base58.CheckRoundTrip` | src/base58.h:136-164 | For every hash function, checked text decodes to its payload, and no other text of digits decodes to it. |
| `Base58.SendAndReceive` | src/base58.h:136-164 | Checked encoding and decoding in sequence return the payload. |
| `Locator.Set` | src/main.h:1300-1315 | The entries are at distances 0 to 10, then 9 + 2^k, as far as the path goes, and genesis is appended. |
| `Locator.GetDistanceBack` | src/main.h:1317-1336 | Returns the nominal distance of the first entry in the main chain; its doubling keeps step with the writer's. |
| `Locator.GetBlockIndex` | src/main.h:1338-1352 | Returns the first entry in the main chain, or genesis. |
| `Locator.PathsPart` | src/main.h:1338-1352 | Two paths from the same genesis over agreeing parents part at one height. |
| `Locator.LocatorResolves` | src/main.h:1300-1352 | The match is a block of both chains at most twice as deep as where they part, and its nominal distance is exact unless only the appended genesis matched. |
| `Locator.LocatorIsShort` | src/main.h:1300-1315 | A locator of more than 12 entries needs a chain higher than 2 to the number of further entries. |
| `Locator.Resolve` | src/main.h:1300-1352 | Writing and resolving together, for every tip and every peer's main chain with the same genesis: the distance is exact unless genesis was found, and never too small. |

## Left out

- Scripts, signatures, sigop counting, coin age, lottery rewards, fees required, finality, proof of work and the clock: these are functions or inputs that the model takes as given, for any implementation.
- The verdict on a signature depends on transaction, input and height; the original also skips signature checks while its best height is below the last hardened checkpoint.
- Block index entries are values in a map by hash and links are a map between hashes: object identity and aliasing are not modelled, nor the copies of block index entries written to disk.
- `nMint`, `nDigsupply`, `nStakeSupply`, clamour petitions, wallet callbacks, the resurrection of disconnected transactions into the pool and their removal after connecting.
- `fJustCheck` runs of block connecting, disk and database failures, shutdown requests, logging, locks and ban scores.
- 64-bit and 256-bit overflow of amounts, totals and trust: integers are unbounded, except where a width decides the outcome (compact sizes, money range).
- Test network rules; hardened checkpoints; the reset, signing and relaying of synchronized checkpoints. A checkpoint message's signature is an input.
- Block files: the position at which a block is appended is an input, required to be unused.
- ActiveChain.ChainState.SetBestChain: genesis is put in place by the constructor, so that the branch for it is not taken.
- ActiveChain.ChainState.AddToBlockIndex: blocks with a known parent, as its caller makes sure.
- ActiveChain.ChainState.FindBlockByHeight: heights up to the tip's on a linked chain; the original walks off the end for others.
- Checkpoints.SyncCheckpoints.AcceptBlock: the tests other than those of checkpoint, bits, time and height in the coinbase are one input.
- CoinbaseHeight.HeightsDiffer: heights are unbounded, and a push of more than 255 bytes, which no 32-bit height needs, is not written as the original would; of input scripts only that of the first input is kept.
- `Select_` and `GetChance` of the address manager, which sample with floating point; the bucket hashes and the routability test are given functions and inputs, and random choices are arbitrary.
- AddrRestore.Unserialize: streams that announce what they hold and at most 256 new buckets; the state after a stream that no consistent manager wrote is not specified, and the byte encoding of the stream is not modelled.
- AddrStore.Serialize: the stream is a record of lists in the order in which the original writes them.
- StakeModifier.ComputeNextStakeModifier: or-ing a bit in at a fresh position is written as addition; the log of the selection map is left out.
- Miner.CreateNewBlock: transactions with an input neither on chain nor in the pool are excluded, as the original says they never occur; its heap is a queue from which a highest-ranked element is taken; ranks are real numbers; coinbase and header fields are left out.
- Mining.CreateNewBlockOn: what it says of double spends and fees is for a pool in which a transaction with the id of one on disk is that transaction, and for trees in which no two transactions share an id, since ids are hashes.
- MinerExample.SpendsTwice: a list of transactions that connects, not a run of the ranking loop that emits it.
- Framing.ReadHeader: messages are values in a sequence that the node's method replaces, and receipt times are left out.
- Base58.DecodeBase58: white space is that of the C locale; the four-byte length prefix of the multi-precision format is left out.
- Locator.GetDistanceBack: overflow of the step for locators longer than any real chain needs.
- Hash functions of Merkle trees and stake selection are given functions; transactions of a Merkle tree are their hashes.
- RPC, user interface, sockets, wallet, script interpreter, mempool acceptance, alerts: easy or foreign to the properties here.
