# Idena indexer: a verified model

The Idena indexer follows a node of the Idena blockchain and stores, for every block, what happened: which
accounts changed their balance and why, who was rewarded and through which pool, which contracts moved coins and
tokens. Much of this is not in the block. It is rebuilt in memory by a collector that is told of events while the
block is applied, and the result has to agree with the chain's state. This project models that collector, the
indexer's steps around it and some smaller data structures, and proves in Dafny what they promise.

`dafny verify dfyconfig.toml` checks the whole project.

## The parts

| file | models |
|---|---|
| Common.dfy, RewardTypes.dfy | shared types |
| BalanceLedger.dfy | the balance-update ledger as a value: records, index, links, and the operations on them |
| BalanceChains.dfy | gap-free chains of records, and the nine shapes the epoch-reward records of an address can have |
| EpochRewardChain.dfy | exactly when recording a reward, a receipt or a hand-over keeps the chain, and what the records then say |
| EpochRewardPhase.dfy | all runs of the epoch-reward phase |
| StatsCollector.dfy | the collector with its mutable records, index and link maps; it refines the value ledger |
| KeptRecords.dfy | what any completed updates leave recorded, and what penalty payments the records carry |
| CollectorUpdates.dfy | the collector over any operations of a block |
| BlockRuns.dfy | whole blocks: updates of other reasons before and after the phase |
| CollectorRuns.dfy | the collector over any sequence of epoch-reward payments |
| ContractFrames.dfy | contract balance caches per call frame, and all call trees |
| EpochRewards.dfy | rewards merged in place, totals by address, and the summary by type |
| DelegateeRewards.dfy | what pools earn through delegators, by type and by delegator |
| TokenBalances.dfy | the token balance cache |
| CoinTotals.dfy, Indexer.dfy | coin totals; reorganisation, reset and genesis handling with a failing database |
| Delegation.dfy | delegation switches and pool sizes |
| MemPoolTxs.dfy, ContractTxs.dfy | two mempool indexes |
| TimestampQueues.dfy | taking, saving and putting back timestamps while listeners add more |
| Sampling.dfy | even sampling and averages |
| LogFormat.dfy | the escaping of log values and the reading of log lines |

Code that changes objects in place is modelled with classes and methods; these are proved against functions on
values, and the properties are proved of the functions. Amounts (`*big.Int`, `decimal`) are integers, addresses and
hashes are numbers, and an absent amount is zero, except for a penalty payment.

## What is assumed

- Epoch-reward phase: only epoch-reward updates are recorded between its first and its last step; penalties stand
  still; a payment changes only the two addresses it names, and one through a pool does change the pool's balance (of
  the two, the collector takes the one whose balance stands still for the delegator); nobody hands over and receives
  in one block. The last one is needed: see below.
- Token balances: a pair's balance changes only in a receipt that names it; questions may fail and be answered later
  as they like.
- Coin totals: every account that changed is among the touched ones.
- Indexer: a block is higher than the genesis block of its chain, whose height is at least 1; a database call succeeds
  or changes nothing; a run of blocks begins with a fresh start. Nothing is assumed about how the blocks follow one
  another.
- Mempool: a hash determines its transaction.
- Pool sizes: the size of a pool counts its validated delegators, and its owner if validated; an address without
  validated delegators is no pool and has size 0; all changed identities are among the inputs.

## What the proofs show beyond the promises

- The ledger keeps an address's records free of gaps in every shape with at most one role. An address that hands a
  reward over and is then paid as a pool, in the same block, gets a gap unless what it handed over nets to nothing
  (`DelegatorThenPool`, `DelegatorThenPoolExample`). The exact condition of every shape is stated, and so are the amounts booked in the wrong
  place; one shape (received, then rewarded, then handed over) keeps the chain but forgets what was handed over
  before (`ForgetsFirstHandOver`).
- Merging committee rewards or stake transfers into an earlier record of the block leaves a gap whenever something
  else of the address came in between and anything changed (`MergeKeepsChain`; `PostingKeepsChainExactly` for runs;
  `MergeLeavesGap` has such blocks).
- A contract frame that sets a balance again after a committed call did rewrites its first update in place, under
  the call's (`ResetLeavesGap`; the exact condition for all call trees is `ThroughoutExactly`).
- A new chain whose genesis block lies above the last indexed block takes over the coin totals of the old chain, since
  they are counted anew only after a reset or a fresh start (`StaleTotals`; the exact condition is `TotalsAreRight`).
- The first block after a new genesis is indexed without its genesis block if its height is the one expected anyway
  (`GenesisSaved`).
- Delegatees are compared as pointers, so a delegator that keeps its pool may still be reported as having switched to
  it (`SwitchReported`); replaying the switches is right all the same (`DetectDelegationSwitches`).
- A contract transaction that is removed under another sender, or whose hash was not in lower case, stays in the
  index when it is removed (`RemoveKeepsAgreement`, `AddKeepsAgreement`).

## Model

| member | source | states |
|---|---|---|
| BalanceLedger.HandleWF | core/stats/collector.go:1092-1162 | Recording an update, merged or new, keeps the ledger sound: each record is listed once, the index leads to a record of the wanted reason and address, links join two records of one address and different reasons; a record is added exactly when none is kept for its reason and address |
| BalanceLedger.StartWF | core/stats/collector.go:1122-1159 | A first record of its reason and address is found under exactly these, and is linked both ways to the record of the address that it continues, or to none |
| BalanceLedger.RelinkWF | core/stats/collector.go:1164-1180 | Rewriting linked records changes amounts only, never owners, reasons, links or order, and touches no record of another address |
| BalanceLedger.CompleteWF | core/stats/collector.go:1005-1078 | A whole completion, split into reward, hand-over and receipt or not, keeps the ledger sound and lists only old records, begun ones and the two new ones |
| BalanceChains.ChainMeaning | db/postgres_balances.go:41-50 | No gap between consecutive updates of an address: the first starts at the start, each starts where the one before ends, the last ends at the end |
| BalanceChains.HandleRecords | core/stats/collector.go:1048-1076 | The list of every address is as before, with the new record at its end if nothing was merged |
| BalanceChains.HandleOthers | core/stats/collector.go:1092-1180 | What is kept for other addresses (records, index, links) does not change |
| BalanceChains.KnownGroup | core/stats/collector.go:1101-1121 | Merging keeps the shape of the epoch-reward records of an address: the index holds exactly its members and the two link maps say who continues whom |
| BalanceChains.NewGroup | core/stats/collector.go:1122-1161 | A new epoch-reward record extends that shape by one member, continuing the record the code looks up |
| BalanceChains.HandleGroup | core/stats/collector.go:1092-1180 | Following pointers through index and link maps refines a function on the at most three epoch-reward records of the address |
| BalanceChains.AppendKeepsChain | core/stats/collector.go:1063-1077 | An update that is only appended, and starts where the address stood, keeps the chain of the address |
| BalanceChains.MergeKeepsChain | core/stats/collector.go:1070-1074 | A committee reward or verified stake transfer merged into an earlier record keeps the chain if and only if that record is the latest of the address, or nothing has changed |
| BalanceChains.MergeInChain | core/stats/collector.go:1101-1105 | Moving the end of one record of a chain keeps it if and only if the record is the last one or the end stays |
| EpochRewardChain.OwnRewardKeepsChain | core/stats/collector.go:1092-1180 | In every shape of the epoch-reward records of an address, recording a reward of its own keeps the chain if and only if a stated condition on the records holds; only shapes with all three records have one |
| EpochRewardChain.ReceiptKeepsChainOf | core/stats/collector.go:1056-1059 | The same for what a pool receives: the condition fails exactly for an address that has handed over something itself |
| EpochRewardChain.HandOverKeepsChainOf | core/stats/collector.go:1018-1055 | The same for a reward and its hand-over to the pool |
| EpochRewardChain.OwnAddsUp | core/stats/collector.go:1164-1180 | After an own reward the reward record has grown by it, the other two records by nothing; with all three records present, by an exactly stated amount more |
| EpochRewardChain.ReceiptAddsUp | core/stats/collector.go:1164-1180 | After a receipt the receipt record has grown by it, and by the net of what the pool has itself handed over; the others by nothing |
| EpochRewardChain.HandOverAddsUp | core/stats/collector.go:1018-1055 | After a hand-over the reward record has grown by the whole reward |
| EpochRewardChain.HandOverAddsUpAsHandedOver | core/stats/collector.go:1112-1118 | After a hand-over the hand-over record has grown by what was passed on, up to an exactly stated amount in three of the shapes |
| EpochRewardChain.ForgetsFirstHandOver | core/stats/collector.go:1101-1121 | An address that has received, was rewarded, and hands over twice keeps the chain, but its hand-over record says no more than the second hand-over |
| EpochRewardPhase.GroupUnique | core/stats/collector.go:1122-1159 | Index and links determine the order in which the epoch-reward records of an address were made |
| EpochRewardPhase.StepHolds | core/stats/collector.go:1005-1078 | One step of the phase keeps, for every address, the chain and the three running totals |
| EpochRewardPhase.EveryRun | core/stats/collector.go:1005-1180 | In every run of the phase in which nobody both hands over and receives, the records of every address lead without a gap from its state at the start to its state now, and the three records say what the steps gave |
| EpochRewardPhase.WhatHolds | indexer/check_balances.go:102-112 | What the invariant of the runs says about the index: kept rewards, hand-overs and receipts equal the three totals, and the last new balance is the state's |
| EpochRewardPhase.DelegatorThenPool | core/stats/collector.go:1148-1160 | Who hands a first reward over and then receives as a pool has a gap in its records if and only if something was handed over |
| EpochRewardPhase.DelegatorThenPoolExample | core/stats/collector.go:1148-1160 | From an empty ledger, a reward of 1 handed over and a receipt of 1 by the same address leave a gap |
| EpochRewardPhase.StepKeepsOld | core/stats/collector.go:1080-1180 | A step of the phase leaves every record made before the phase as it was, in its place, and links records of the phase only to one another |
| BlockRuns.PostKeepsChain | core/stats/collector.go:1063-1077 | An update of any reason that is not an epoch reward keeps the chain of its address if and only if it is unchanged, appended, or merged into the latest record of the address, or changes nothing |
| BlockRuns.PostKeepsOthers | core/stats/collector.go:1063-1077 | It keeps the chains of all other addresses |
| BlockRuns.PostingKeepsChainExactly | core/stats/collector.go:1063-1077 | Over any run of updates of other reasons, the records of an address never have a gap if and only if every merged update of the address is merged safely |
| BlockRuns.BlockKeepsChains | core/stats/collector.go:1005-1180 | Over a whole block, updates of other reasons before and after the epoch-reward phase: the records of an address never have a gap outside the phase, from its state before the block on, if and only if every merged update of the address is merged safely; and the phase records what it gave |
| BlockRuns.MergeLeavesGap | core/stats/collector.go:1070-1076 | A committee reward, a transaction and another committee reward of one address, each changing its balance, leave a gap |
| StatsCollector.BalanceUpdate.StartAt | core/stats/collector.go:1169-1171 | In place, the record starts where the given one ends; the rest stays |
| StatsCollector.BalanceUpdate.MakeWayFor | core/stats/collector.go:1172-1179 | In place, the record ends earlier by what its successor changes, and the successor starts there and keeps its change |
| StatsCollector.BalanceUpdate.Absorb | core/stats/collector.go:1102-1118 | In place, the record takes up a later one of its reason and address; penalty payments add up, and an absent one adds nothing |
| StatsCollector.Collector.UpdateLinkedBalanceUpdates | core/stats/collector.go:1164-1180 | The mutable records and link maps refine the value ledger's relinking |
| StatsCollector.Collector.HandleMultipleBalanceUpdate | core/stats/collector.go:1092-1162 | The same for recording one update; true is returned exactly if a record was already kept |
| StatsCollector.Collector.KeepBalanceUpdate | core/stats/collector.go:1122-1159 | The same for a record without an earlier one |
| StatsCollector.Collector.Collect | core/stats/collector.go:1048-1051 | Merged or appended; exactly the addresses of listed updates are marked as touched, besides those marked elsewhere |
| StatsCollector.Collector.AddPendingBalanceUpdate | core/stats/collector.go:1201-1223 | A fresh record of what the account is before, field by field as in the state; a killed identity counts without stake and penalty; the penalty payment is kept only if there is a penalty to serve |
| StatsCollector.Collector.BeginEpochRewardBalanceUpdate | core/stats/collector.go:971-976 | One pending record for a reward kept, two for one paid through a pool, the pool first |
| StatsCollector.Collector.CompleteBalanceUpdates | core/stats/collector.go:1225-1235 | Each pending record now also says what its account has become, field by field as in the state; nothing is pending and the ledger is as before |
| StatsCollector.Collector.CollectHandOver | core/stats/collector.go:1010-1060 | Two fresh records and the pool's are recorded as reward, hand-over and receipt, in this order |
| StatsCollector.Collector.CompleteBalanceUpdate | core/stats/collector.go:1005-1078 | The whole completion on mutable objects refines the value ledger's, and makes only fresh objects |
| KeptRecords.PaymentNext | core/stats/collector.go:1106-1111 | Payments add up over updates, and there is none if and only if none of the updates had one |
| KeptRecords.PostRecorded | core/stats/collector.go:1063-1077 | One more update: one that changes nothing and pays nothing leaves no record; a committee reward or stake transfer is taken up by the one record of its address, from the first to the last with all payments; one of another reason is listed as it is; an epoch reward adds its payment |
| KeptRecords.HandOverRecorded | core/stats/collector.go:1010-1060 | A hand-over leaves all records of other reasons alone; the receipt adds its payment, the other two parts have none |
| KeptRecords.CompleteRecorded | core/stats/collector.go:1005-1077 | Both for any updates completed together: what is recorded of all updates before and these is said without the merging itself |
| CollectorUpdates.RecordOperation | core/stats/collector.go:925-1078 | The mutable collector, for any updates begun with any reason, transaction and potential payment and completed together |
| CollectorUpdates.RecordAll | core/stats/collector.go:925-1078 | Over any operations from an empty collector: for each address and each reason but the epoch rewards the records are, in order, exactly the updates that change or pay something, except that of committee rewards and stake transfers there is one record from the first to the last of them, with the sum of their payments and none if and only if none had one; records of epoch rewards carry the sum of their payments |
| CollectorRuns.RecordPayment | core/stats/collector.go:971-1078 | Begin, pay, complete is one step of the phase |
| CollectorRuns.StepIsDue | core/stats/collector.go:1008-1047 | If the pool's balance changes, the split takes each address for what it is and books what each is due |
| CollectorRuns.RecordPhase | core/stats/collector.go:971-1180 | For every sequence of payments, in every order, the mutable collector ends with gap-free records of every address, and its reward, hand-over and receipt records equal what the payments are worth to it; what was recorded before the phase is still there, in the same order and unchanged |
| ContractFrames.ResetInChain | core/stats/collector.go:1483 | Changing what an update sets keeps the chain of its address if and only if no later update of the address exists or nothing changes |
| ContractFrames.TouchKeepsChains | core/stats/collector.go:78-91 | A frame setting a balance keeps all chains if and only if it has no update of the address yet, or that one is the latest, or nothing changes |
| ContractFrames.ImportChains | core/stats/collector.go:93-95 | Appending a committed child's updates joins the chains |
| ContractFrames.RunChains | core/stats/collector.go:1442-1498 | For every call tree in which no committed frame sets an address again after a committed child did, the committed updates of every address lead without a gap from its balance before the call to its balance after it; calls that are not committed leave nothing |
| ContractFrames.ThroughoutExactly | core/stats/collector.go:1442-1498 | For every call tree, no gap shows at any moment in any committed frame if and only if every balance is set safely |
| ContractFrames.ResetLeavesGap | core/stats/collector.go:1462-1488 | A frame that sets a balance, lets a committed call set it and sets it again leaves a gap, unless all three values are the same |
| ContractFrames.RunSets | core/stats/collector.go:1490-1508 | For every call tree, the balances afterwards are those set in frames committed up to the outermost one, in order |
| ContractFrames.ChangedKeepsChain | core/stats/collector.go:1894-1898 | Dropping the updates that change nothing keeps the chain |
| ContractFrames.ChangedIsSelection | core/stats/collector.go:1894-1898 | What is kept is found at increasing positions, and these are exactly the positions of the updates that change something |
| ContractFrames.TxCollector.AddContractBalanceUpdate | core/stats/collector.go:1442-1445 | Changes the cache of the given frame only, to the cache touched by the new balance |
| ContractFrames.TxCollector.ApplyContractBalanceUpdates | core/stats/collector.go:1490-1498 | The frame's cache is gone; its updates are behind those of the parent, or applied when there is no parent |
| ContractFrames.TxCollector.AddTxReceipt | core/stats/collector.go:1883-1911 | A successful receipt keeps exactly the updates that change something, in order and as often as they occur, a failed one nothing |
| ContractFrames.TxCollector.Execute | core/stats/collector.go:1442-1508 | The caches by frame refine the recursive run of the call tree |
| ContractFrames.TxCollector.RecordTransaction | core/stats/collector.go:1872-1911 | The balances are those set in committed frames, in order; what is kept grows by exactly the updates of the run that change something, in order and as often as they occur (success), or not at all (failure), and the new updates are gap-free if no frame resets |
| EpochRewards.MergeAdds | core/stats/collector.go:608-630 | One more reward adds its balance to the balances and its stake to the stakes of its address and type, and nothing to any other |
| EpochRewards.MergeLists | core/stats/collector.go:608-630 | Rewards of the seven types that do not come in parts are listed one by one |
| EpochRewards.MergeKeepsUnique | core/stats/collector.go:608-630 | The nine merged types have at most one entry per address |
| EpochRewards.Collector.IncreaseEpochRewardIfExists | core/stats/collector.go:608-630 | In place: an entry found by type and address has the balance more in its balance and the stake more in its stake, otherwise the index gets the new one |
| EpochRewards.Collector.AddReward | core/stats/collector.go:557-579 | The mutable entries refine merging on the list; the balances and the stakes of the address and type grow by those of the reward; nothing is recorded for an empty reward |
| EpochRewards.Collector.AddAddrTotalReward | core/stats/collector.go:589-606 | The total of one address grows by balance and stake |
| EpochRewards.Collector.Add | core/stats/collector.go:326-340 | Every kind of reward keeps totals by address equal to the sums over the entries, payouts excepted; balances and stakes grow each by their own |
| EpochRewards.Summarize | indexer/validation_summary.go:61-71 | The figure of an address and type is that of its last entry, and there is none without an entry |
| EpochRewards.SummaryIsComplete | indexer/validation_summary.go:61-71 | For the merged types the overwriting loses nothing: the figure is all that was credited |
| EpochRewards.RecordRewards | core/stats/collector.go:326-630 | After any rewards, in any order: balances and stakes of the entries are, by address and type and each on its own, what was credited; the nine types that come in parts have one entry each and the others are listed one by one; totals by address and summary figures are what was credited, and there is a figure if and only if there was a reward |
| DelegateeRewards.Exchange | core/stats/collector.go:632-681 | If each type's total is the sum over the delegators, the overall total is the sum of the delegators' totals |
| DelegateeRewards.AddKeepsBalance | core/stats/collector.go:654-680 | One more reward keeps each type's total equal to the sum over the delegators |
| DelegateeRewards.Collector.AddDelegateeReward | core/stats/collector.go:632-681 | Credits one amount to one pool, delegator and type, in totals and row alike, in all and by type, and leaves everything else |
| DelegateeRewards.CollectRewards | core/stats/collector.go:632-681 | After any payments, each pool and each of its delegators has exactly what was paid to the pool, or through that delegator, in all and of each type |
| DelegateeRewards.ConvertRewards | indexer/delegatee_epoch_rewards.go:18-26 | Each type once, with its amount, and the same sum |
| DelegateeRewards.ConvertDelegators | indexer/delegatee_epoch_rewards.go:27-44 | Each delegator once, with its amounts, and the same sum |
| DelegateeRewards.ConvertPool | indexer/delegatee_epoch_rewards.go:15-45 | The lists of a pool say what it and its delegators have; its sum is the sum of theirs |
| DelegateeRewards.ConvertDelegateesEpochRewards | indexer/delegatee_epoch_rewards.go:9-48 | Each pool once, converted |
| DelegateeRewards.Wrapper.Append | indexer/context.go:63-66 | The item is last and the index leads to it, whatever was there; a new consistent pool keeps the wrapper sound |
| DelegateeRewards.Wrapper.IncPenalizedDelegators | indexer/context.go:68-77 | Only the pool's count grows by one; a missing pool is appended with no rewards and the count one |
| DelegateeRewards.ConvertDelegationEpochRewards | db/postgres_types.go:1202-1244 | The total counts every item, also of the types that have no column; each column holds the last item of its type |
| DelegateeRewards.StorePool | db/postgres_types.go:1389-1405 | The stored totals of a pool and of each of its delegators are the sums of their items, and the stored figures those of the last item of each type shown |
| DelegateeRewards.StorePools | core/stats/collector.go:632-681 | From the payments to what is stored: each pool once and none missing, with what was paid to it in all and of each type shown; each of its delegators once and none missing, with what was paid through it in all and of each type shown; their totals add up to the pool's; its count is how often it was penalized |
| TokenBalances.Collector.Add | core/stats/collector_contract.go:144-165 | Exactly the named pair is put in doubt, through the shared pointer if it is known; each pair is listed once |
| TokenBalances.Collector.AddNamed | core/stats/collector_contract.go:167-177 | Exactly the pairs the receipt names are put in doubt, where naming is said over its events and their data |
| TokenBalances.DetectedExactly | core/stats/collector_contract.go:201-259 | The pairs detected are exactly those of a non-zero address that is the first or second holder of a transfer in three parts, the holder of an airdrop in two, or the sender of a burn without events |
| TokenBalances.Collector.Ask | core/stats/collector_contract.go:179-198 | Known balances are believed, unknown ones asked for; a failed question leaves the pair unlisted and unknown |
| TokenBalances.Collector.ApplyTxReceipt | core/stats/collector_contract.go:143-199 | The new cache, pair by pair, in terms of the old one, the events of the receipt and the answers |
| TokenBalances.ListedAnswers | core/stats/collector_contract.go:179-198 | A cache that agrees with the contracts lists what asking all of them would |
| TokenBalances.FollowReceipt | core/stats/collector_contract.go:143-199 | If only named pairs change their balance, the cache holds exactly the known balances after the receipt, as the contracts hold them, whichever questions fail; known balances survive failures unless named, and a failed question is asked again with the next receipt |
| TokenBalances.FollowReceipts | core/stats/collector_contract.go:143-199 | Over any receipts, balances that change only where named, and any failures: each list has the balances of that moment, of all pairs named so far whose balance is known (`KnownExactly` says which, `ListsAreTrue` what the list shows) |
| TokenBalances.KnownExactly | core/stats/collector_contract.go:143-199 | A balance is known if and only if its question was answered at one of the receipts since its pair was last named |
| TokenBalances.ShownAreTrue | core/stats/collector_contract.go:179-198 | Exactly the known balances of the named pairs are shown, as the contracts hold them |
| TokenBalances.ListsAreTrue | core/stats/collector_contract.go:143-199 | A list shows exactly the true balances of the pairs whose question was answered since they were last named; a named pair is missing only if its question failed just now |
| TokenBalances.NamedOnce | core/stats/collector_contract.go:159-164 | No pair is listed twice |
| TokenBalances.NamedInExactly | core/stats/collector_contract.go:143-177 | The pairs listed are exactly those that one of the receipts names, and later ones are behind earlier ones |
| CoinTotals.ChangeIsAll | indexer/balance.go:43-61 | The change over the touched accounts is the change over all, if every changed account is touched |
| CoinTotals.DetermineBalanceUpdates | indexer/balance.go:18-63 | Each touched account once with its new balance and stake, and the change over exactly these; all accounts in the first block |
| CoinTotals.ScanAccounts | indexer/indexer.go:376-386 | The full scan gives the sum over all accounts |
| Indexer.Indexer.LoadState | indexer/indexer.go:345-366 | However often the database fails, the state is that of the highest saved height |
| Indexer.Indexer.ResetTo | indexer/indexer.go:327-336 | All or nothing: the heights above are dropped and the state is loaded again, or nothing changes |
| Indexer.Indexer.InitializeStateIfNeeded | indexer/indexer.go:368-390 | Totals that are missing are those of a full scan of the state before the block |
| Indexer.Indexer.ConvertTotals | indexer/indexer.go:563-586 | The totals move by the change of the full sums |
| Indexer.Indexer.Prepare | indexer/indexer.go:189-228 | The retry loop decides as a plan made from the saved heights says, whatever calls fail; it tries one reset more than there are failures at most; the totals at hand are dropped exactly if it resets |
| Indexer.Indexer.AddBlock | indexer/indexer.go:230-275 | Only the block, and the genesis block just before it if wanted, are saved, with the totals at hand, or a full scan if there are none, moved by what all accounts change |
| Indexer.Indexer.IndexBlock | indexer/indexer.go:177-301 | On return the last indexed height is the block's, the saved heights are what the plan keeps and the block; the totals are moved on from those at hand, or from a full scan after a reset or a fresh start; the panic happens exactly where the plan is impossible; apart from two for each failure at most six calls are made |
| Indexer.IndexRun | indexer/indexer.go:177-301 | For any run of blocks, with reorganisations and new chains as they come: it ends without the panic if and only if every block is the first of its chain or has its predecessor saved; the saved heights and the totals are then given by the blocks alone, and what was saved for a height stays until a block comes that is not above it or is the first of its chain right above it |
| Indexer.SparedStays | indexer/indexer.go:177-301 | The totals saved below a block stay, except those of a genesis block right below it |
| Indexer.TotalsAreRight | indexer/indexer.go:368-390 | The totals are the full sums after every block of a run if and only if every block that is not below the one before starts from as many coins as that left |
| Indexer.StaleTotals | indexer/indexer.go:189-199 | A new chain above the last indexed block takes over the totals of the old one: a run in which they are wrong |
| Indexer.PlanHeights | indexer/indexer.go:189-228 | The panic happens exactly if the block is not the first of its chain and its predecessor is not saved; else the lower heights stay, and the predecessor and the block are saved |
| Indexer.PlanKeepsUp | indexer/indexer.go:189-244 | After a block the block before it is saved too, nothing above it is, and the heights stay contiguous if and only if what is kept ends right below |
| Indexer.GenesisSaved | indexer/indexer.go:194-218 | Exactly when the genesis block is saved before the block |
| Delegation.DetectDelegationSwitches | indexer/delegation.go:10-83 | Replaying the switches over the old delegations gives none for the killed, the new delegatee for everyone else the block names and the old one elsewhere, in any order of the killed and for any repeated transactions; a switch to a delegatee tells exactly the birthday in the new state; how often each address is reported, as switched or as failed, is given exactly; the history tells the same starts and ends, each with its reason, and a failure is reported only for those who asked and only if nothing changed |
| Delegation.SwitchReported | indexer/delegation.go:85-123 | A switch is reported exactly if the delegatee changes, or if it stays but is held by another pointer |
| Delegation.SwitchOfKilled | indexer/delegation.go:25-40 | The switches of the killed alone end exactly their delegations |
| Delegation.SwitchDelegations | indexer/delegation.go:42-62 | The pending delegations are looked at once for all later transactions of the same sender |
| Delegation.HandleDelegator | indexer/delegation.go:131-142 | Adds the old and the new delegatee, with their new sizes |
| Delegation.HandlePool | indexer/delegation.go:144-150 | Adds the address itself if it is or was a pool |
| Delegation.DetectPoolSizeUpdates | indexer/delegation.go:125-182 | Exactly the touched pools, each once, each with its new size |
| Delegation.SizeChangesForAReason | indexer/delegation.go:125-182 | A size that counts validated delegators and owner changes only with the status of the owner, or the status or delegatee of a delegator |
| Delegation.NoPoolIsMissed | indexer/delegation.go:125-182 | If the inputs name every identity that changed, writing the result over the old sizes gives the new size of every address |
| MemPoolTxs.AddKeepsConsistent | core/holder/transaction/mempool_txs.go:244-247 | A transaction is in an address's bucket exactly when the pool holds it and it names the address, and no bucket is empty: kept by adding, also again, also to oneself |
| MemPoolTxs.RemoveKeepsConsistent | core/holder/transaction/mempool_txs.go:249-255 | The same, kept by removing |
| MemPoolTxs.TxsByHash.All | core/holder/transaction/mempool_txs.go:101-121 | As many transactions as asked for or all there are, each once |
| MemPoolTxs.MemPool.AddAddressTx | core/holder/transaction/mempool_txs.go:148-161 | One bucket gets the transaction, made if needed; the others stay |
| MemPoolTxs.MemPool.RemoveByAddressAndHash | core/holder/transaction/mempool_txs.go:172-185 | One bucket loses the hash, and is dropped when empty; the others stay |
| MemPoolTxs.MemPool.AddTransaction | core/holder/transaction/mempool_txs.go:197-202 | The two maps stay consistent and the pool has the transaction more |
| MemPoolTxs.MemPool.RemoveTransaction | core/holder/transaction/mempool_txs.go:204-209 | The two maps stay consistent and the pool has the transaction no more |
| MemPoolTxs.MemPool.GetAddressTransactions | core/holder/transaction/mempool_txs.go:229-233 | Only pool transactions naming the address, each once, no more than asked for, and all of them if fewer |
| MemPoolTxs.Run | core/holder/transaction/mempool_txs.go:197-255 | After any additions and removals the pool is what was added and not removed since, and consistent |
| ContractTxs.AddKeepsAgreement | core/mempool/contracts_pool.go:81-99 | Adding keeps index and reverse map in agreement if and only if the hash is in lower case and was not known at another sender or contract |
| ContractTxs.RemoveKeepsAgreement | core/mempool/contracts_pool.go:101-134 | Removing a known hash keeps the agreement if and only if its own sender is named; otherwise the transaction stays in the index and nothing leads to it |
| ContractTxs.WithoutIs | core/mempool/contracts_pool.go:121-133 | Exactly one hash leaves one bucket, and no empty inner or outer map remains |
| ContractTxs.LowerExactly | core/mempool/contracts_pool.go:81-99 | Keys are the same exactly if the texts differ only in the case of letters |
| ContractTxs.AddressContractTxs.Add | core/mempool/contracts_pool.go:81-99 | The nested maps after an addition, and exactly when they agree |
| ContractTxs.AddressContractTxs.Remove | core/mempool/contracts_pool.go:101-134 | The nested maps after a removal, and exactly when they agree |
| ContractTxs.AddressContractTxs.Get | core/mempool/contracts_pool.go:136-158 | Exactly the transactions added last with the hashes whose sender and contract are asked for, in whatever case they are written |
| ContractTxs.Run | core/mempool/contracts_pool.go:81-134 | After any additions and removals of lower-case hashes that determine sender and contract, the two maps agree on exactly the hashes added and not removed since, each with the transaction added last |
| TimestampQueues.RoundIs | core/mempool/mempool.go:289-331 | What a round makes of a queue, for every interleaving: it receives all that arrives; one that succeeds saves what was cached and what came before the queue was taken; one that fails saves nothing and puts this behind what came meanwhile |
| TimestampQueues.RoundConserves | core/mempool/mempool.go:289-331 | A round conserves the multiset: received = saved + cached |
| TimestampQueues.RoundsConserve | core/mempool/mempool.go:282-331 | Over any rounds, saved and cached are together exactly what the listeners sent, and a round that succeeds leaves nothing of the rounds before it unsaved |
| TimestampQueues.OnlyReceives | core/mempool/mempool.go:301-306 | With nothing in the saver's hands, the rest of a round only receives |
| TimestampQueues.Queue.Listen | core/mempool/mempool.go:186-192 | The timestamps are received and cached, in order |
| TimestampQueues.Queue.Take | core/mempool/mempool.go:201-208 | All that is cached is in hand and nothing is cached |
| TimestampQueues.Queue.AddAll | core/mempool/mempool.go:194-199 | What was in hand is behind what is cached |
| TimestampQueues.Indexer.TakeAll | core/mempool/mempool.go:293-298 | With listeners adding before every step, each queue goes through exactly its steps up to the saving |
| TimestampQueues.Indexer.PutBack | core/mempool/mempool.go:309-312 | With listeners adding before every step, each queue goes through exactly its steps after the saving |
| TimestampQueues.Indexer.SaveData | core/mempool/mempool.go:289-331 | The steps taken, followed by receiving in the others, make exactly the round of each queue, also when it ends early |
| TimestampQueues.Indexer.DoRound | core/mempool/mempool.go:282-331 | A call and the pause after it make exactly one round of each queue |
| TimestampQueues.Run | core/mempool/mempool.go:282-331 | For any rounds of saving, each of which may fail, and any interleaving: what is saved and what is cached is together exactly what the listeners sent |
| Sampling.StepsAreEven | indexer/upgrade_voting.go:94-112 | Every step between sampled positions is at least one and is the quotient of the last position by the number of steps, rounded down or up |
| Sampling.IndexesIncrease | indexer/upgrade_voting.go:101-112 | The sampled positions increase strictly |
| Sampling.IndexesSpan | indexer/upgrade_voting.go:94-112 | The sample takes the first item and, from two items on, the last |
| Sampling.IndexIsNearest | indexer/upgrade_voting.go:94-112 | Every item is taken from the position nearest to its share of the way, halves up |
| Sampling.SampleHistory | indexer/upgrade_voting.go:94-112 | No sample if there are not more items than wanted; otherwise that many, each from the position nearest to its share of the way, and the last step is the last gap |
| Sampling.AddToSorted | core/holder/online/online.go:341-347 | The list stays sorted and has exactly the new value more |
| Sampling.SortWeights | core/holder/online/online.go:241 | Adding weight by weight gives a sorted permutation of them |
| Sampling.SampleIndexesDoNotDecrease | core/holder/online/online.go:354-358 | The averaged values are read from left to right |
| Sampling.SampleIndexIsNearest | core/holder/online/online.go:353-358 | Every sample is read at the position nearest to its share of the length, halves up, and at the last one if that is behind the end |
| Sampling.EveryValueIsSampled | core/holder/online/online.go:353-360 | As many samples as values read each value once |
| Sampling.CalculateAverage | core/holder/online/online.go:349-363 | The mean of the samples, each read at the nearest position, within the smallest and the largest; zero for no values |
| LogFormat.EscapeString | log/format.go:364-405 | The two passes give the escaped form; it is in quotes if and only if a blank, an equals sign or a quote occurs, and a value without these and without a backslash is written as it is |
| LogFormat.EscapedExactly | log/format.go:364-405 | Exactly when an escaped value is in quotes, and when it is the value itself |
| LogFormat.ReadEscaped | log/format.go:364-405 | A reader finds the end of an escaped value and gets back the value, whatever follows a blank |
| LogFormat.EscapingIsInjective | log/format.go:364-405 | Different values have different escaped forms |
| LogFormat.EscapedStaysOnTheLine | log/format.go:364-405 | No raw newline, carriage return or tab in an escaped value; a blank or an equals sign only inside quotes |
| LogFormat.ReadsChunk | log/format.go:186-195 | A key, its value and the padding before it read back as one field |
| LogFormat.Logfmt | log/format.go:160-199 | Each field is one blank behind the column of the one before it, as wide as the greatest value of its key so far, and these widths are kept; a line of readable keys is one line, and reads back as exactly the fields written |

## Left out

- CollectorRuns.RecordPhase: runs the mutable collector over epoch-reward payments; whole blocks are covered on the value ledger that it refines (`BlockKeepsChains`).
- BlockRuns.BlockKeepsChains: a transaction that changes several addresses is several updates, one address after the other; epoch rewards come in one phase.
- StatsCollector.Collector.CompleteBalanceUpdate: does not model the burnt coins recorded for dust clearing.
- CollectorUpdates.RecordAll: which addresses and reasons each begin operation of the node takes is an input; only epoch rewards have one of their own (`BeginEpochRewardBalanceUpdate`).
- ContractFrames.TxCollector.AddTxReceipt: does not model burnt coins, deployed contracts and the per-transaction list of balances; stake and penalty of a contract update never change and are left out.
- ContractFrames.TxCollector.AddContractBalanceUpdate: an update is a position in its frame's list, not an object; a committed frame's cache is gone, so no two caches can change the same update.
- EpochRewards.Collector.Add: the crediting of the pool is in `DelegateeRewards`; ages and staked amounts are not modelled.
- EpochRewards.Collector.AddReward: the source adds into the amounts of the first caller, who must not use them afterwards; here amounts are values.
- DelegateeRewards.Collector.AddDelegateeReward: does not model the stakes, for which every caller passes nothing.
- DelegateeRewards.ConvertDelegationEpochRewards: amounts stay integers; the conversion to decimals is not modelled.
- TokenBalances.Collector.Add: event and method names are compared after lower-casing, which is done before the model starts.
- Indexer.Indexer.IndexBlock: does not model waiting, the disabled state, restoring, flips, votings and events; a node that cannot deliver its genesis block while the first height is initialised is not modelled.
- Indexer.Indexer.AddBlock: minted and burnt coins are not modelled.
- Delegation.DetectDelegationSwitches: whether two delegatees are the same pointer is one answer per address, which may be yes only for equal addresses.
- Delegation.DetectPoolSizeUpdates: the validators cache is part of the node; its pool sizes are data, and what they count is a hypothesis of `NoPoolIsMissed`.
- TimestampQueues.Indexer.SaveData: saving itself is one step that works or does nothing.
- MemPoolTxs.MemPool.GetAddressTransactions: runs at one moment; in the source a reader may see one map updated and the other not yet.
- Sampling.SampleHistory: whether the history is due for a new sample is decided before; positions are computed with exact quotients; the source rounds the step to 32 bits first.
- Sampling.CalculateAverage: works on real numbers, and computes positions with exact quotients, where the source uses 64-bit floating point.
- LogFormat.EscapeString: a string is a sequence of characters; bytes that are no characters, which the source replaces, do not occur.
- LogFormat.Logfmt: keys are text and output is not coloured; the widths are passed in and out instead of being shared by all lines.
- SQL and stored procedures: the database is a set of saved heights with the totals saved for each.
- The node, the virtual machine, cryptography and files: states, answers and blocks are inputs.
- Setters for the contract kinds, epoch results, flips, peers, votes, the HTTP interface and configuration: no property beyond copying.
- Reward formulas with floating point: the amounts are inputs.
