# Staking, reserve balance and header oracle: a verified model

This project models three state machines of the repository in Dafny 4.11 and
proves what they keep over all their runs.

## The staking precompile

`Ledger.dfy` holds the part of the storage that belongs to one validator (a
*pool*: validator record, delegator records, withdrawal requests and
reference-counted accumulator snapshots) and every step on it as a function
with the source's branches, order of checks and errors. `Staking.dfy` puts the
pools, the id maps, the three validator sets and the two linked lists into one
state and gives one operation per handler; an operation that fails leaves the
state as it was. `StakingContract.dfy` is the same contract as the handlers run
it: a class whose methods read, change and write back storage step by step,
each proved to compute the state machine's step, with the rollback of a failed
frame in `Execute`. The snapshot loops are in `ValidatorSetStorage.dfy`, the
pointer surgery of the shared list nodes in `TwinListStorage.dfy`, the paged
readers in `StakingPaging.dfy`.

Below that lies flat storage: `StorageLayout.dfy` and `StorageKeys.dfy` hold the
keys and the packed words, `StorageRefinement.dfy` says when words of 32 bytes
represent the typed storage, and `WordStore.dfy` proves of every write helper
that its stores re-establish this for the updated state. `StorageMirror.dfy`
pairs the typed writes of the contract with those stores.

Two kinds of run are told apart. The *unrestricted* ones take whatever the
handlers accept. The *lifecycle* ones follow the documented order: a snapshot
before every epoch change, and each change to the next epoch.

- Every run (`StakingInvariant.RunSound`): window discipline, exact refcounts,
  stake sums, flag meaning, lists and sets, and conservation of value; and
  (`StakingOrder.RunOrdered`) snapshots that never fall from one epoch to a
  later one.
- Every lifecycle run (`StakingLifecycle.LifecycleRunAccrues`): the stake that
  earns is the stake rewards are divided by, and every pool is solvent. From
  this, `StakingProgress.CallsSucceed`: a call fails only for a condition its
  caller can check beforehand, or because the contract has received more than
  `U256_MAX / UNIT_BIAS`; no solvency check, subtraction, division or transfer
  fails in any call. And `StakingSettlement.ExtraPullsRound`: how often a
  delegator is settled matters by at most one unit for each settlement.
- Call by call: `StakingRewards.dfy` says what a reward is worth to those who
  earn, from both sides and down to one delegator's part in one reward,
  `StakingMoves.dfy` what each call takes and leaves and where every payout
  comes from, `StakingIds.dfy` how validators are found and what of them the
  rewards go by, `StakingRefusals.dfy` with which error a call is refused. They
  speak of what can be read before and after a call, not of the steps between.
- Outside the lifecycle (`StakingStranded.dfy`): the code accepts any strictly
  larger epoch, with or without a snapshot before it (write.rs:1708-1712),
  where the documentation describes the snapshot as the step before
  (README.md:64-68). Following the code, it is proved that an epoch change
  leaves a delegator behind for ever, failing in a subtraction at each
  settlement, if and only if its earlier window is due at the change and the
  snapshot of that window, as the change leaves it, is behind the cursor; and
  that four ordinary calls bring this about for any active delegator of an
  active validator, from any state of a lifecycle run.

## The reserve-balance tracker and the journal wrapper

`ReserveBalance.dfy` states the rule from scratch and the cache as a function;
`EvmJournal.dfy` is the journal with its undoable entries and every hooked
operation; `ReserveTracker.dfy` and `MonadJournal.dfy` are the two classes as
they run. The failed set is proved to be exactly the set of violating accounts
after any operations and reverts, in every fork. The policy of a transaction is
derived from the fork: each of them follows the code hashes of the present
state, because the tracker does so from the first fork there is (tracker.rs:64,
spec.rs:14). `JournalBalances.dfy` says where the balances go.

## The validator registry and the header oracle

`ValidatorRegistry.dfy` is the multisig and timelock over timed events,
`RegistryContract.dfy` the contract with its loops, `HeaderOracle.dfy` the
header submission and quorum intersection. `RegistryHistory.dfy` tells the
registry a second time, without a state: which calls go through follows from
the calls that went through before, and the two accounts agree on every run.

## Conventions

Numbers are unbounded naturals; every checked 256-bit operation has an explicit
overflow error. An address or a validator id stands for the integer its
big-endian bytes spell. The source reports each failed checked operation as one
"internal error"; the model keeps the causes apart so that each can be ruled
out. A map key that is absent stands for zeroed storage. `Times` and `Sum` in
`Sums.dfy` are the product and the sum over a map, written as recursive
functions so that the prover unfolds them only where a lemma asks for it.
Where a comment and the code disagree about the layout (the snapshot refcount
is described as left-aligned and the bitset bucket as 31 bytes wide), the model
follows the code.

## Model

| member | source | states |
|---|---|---|
| `StakingInvariant.RunSound` | crates/suwappu-revm/src/staking/write.rs:866-1757 | Over every run from genesis, whatever its epochs: window discipline, exact refcounts, validator stake = sum of delegator totals, flag meaning, lists = who has stake, set and view agreement, and value in minus value out = exactly what the contract owes |
| `StakingInvariant.RunKeepsSound` | crates/suwappu-revm/src/staking/write.rs:866-1757 | The same from any sound state: one call at a time nothing of it is lost, and the surplus never moves |
| `StakingInvariant.StepSound` | crates/suwappu-revm/src/staking/write.rs:866-1757 | One call, successful or rolled back, keeps the whole invariant and the surplus of the contract |
| `StakingLifecycle.LifecycleRunAccrues` | crates/suwappu-revm/src/staking/write.rs:444-591 | Over every lifecycle run and for every validator: the earning stake equals the stored view the rewards are divided by (and, in the boundary, already the next one), snapshots in force are bounded and ordered, and UNIT_BIAS x unclaimed rewards covers everything still owed |
| `StakingLifecycle.StepAccrues` | crates/suwappu-revm/src/staking/write.rs:866-1757 | One call inside the lifecycle keeps solvency, divisors and cursors of every validator |
| `StakingProgress.LifecycleRunInOrder` | crates/suwappu-revm/src/staking/write.rs:866-1757 | Every state of a lifecycle run is in order: it keeps the unrestricted invariant, accrual, the order of snapshots and the bound on accumulators, and the contract holds exactly what it owes |
| `StakingProgress.CallsSucceed` | crates/suwappu-revm/src/staking/write.rs:866-1757 | After any lifecycle run a call goes through exactly when the documented conditions hold, up to a word overflow that needs more value than U256_MAX / UNIT_BIAS; and in no call, accepted or refused, does a solvency check, a subtraction, a division or a transfer fail |
| `StakingProgress.DueWithdrawalIsPaid` | crates/suwappu-revm/src/staking/write.rs:1217-1288 | A withdrawal request whose time has come is always paid: its amount plus the floor of what it earned up to its frozen snapshot, and the request is gone |
| `StakingProgress.PulledStakeEarns` | crates/suwappu-revm/src/staking/write.rs:521-591 | After settling, the active stake of a delegator is exactly the stake that earns in the present epoch |
| `StakingRefusals.RefusedForAReason` | crates/suwappu-revm/src/staking/write.rs:866-1757 | After any lifecycle run a call that is not acceptable fails with the error for the first thing that is wrong with it, told by what its caller can see beforehand |
| `StakingHistory.SnapshotsNeverChange` | crates/suwappu-revm/src/staking/write.rs:457-493 | A snapshot in force keeps its value while anyone refers to it and never comes back once nobody does, over every continuation of every run |
| `StakingHistory.NewEpochIsFrozen` | crates/suwappu-revm/src/staking/write.rs:1724-1757 | When an epoch begins on a lifecycle run, every referenced snapshot of it holds the accumulator of that moment, also for validators outside the snapshot set, and no reference is lost |
| `StakingHistory.RunBounded` | crates/suwappu-revm/src/staking/write.rs:1045-1055 | No accumulator ever exceeds UNIT_BIAS times all value received |
| `StakingOrder.RunOrdered` | crates/suwappu-revm/src/staking/write.rs:444-493 | Over every run, whatever its epochs: of two referenced snapshots the one of the later epoch is never behind, no snapshot or cursor is ahead of the accumulator, and whoever has stake or rewards can be listed |
| `StakingSettlement.ExtraPullsRound` | crates/suwappu-revm/src/staking/write.rs:444-591 | Over lifecycle runs and any number of epochs: k extra settlements of a delegator, put anywhere among calls that move none of its stake and bring none of its windows due, all go through, and once it is settled at the end it has been credited less by at most k units and never more, which stay in the unclaimed rewards; nothing else differs |
| `StakingSettlement.HandleAlike` | crates/suwappu-revm/src/staking/write.rs:866-1757 | Two states that differ only in the record of one delegator, the unclaimed rewards and the value paid out move alike under every call of anybody else |
| `StakingRewards.ExternalRewardShares` | crates/suwappu-revm/src/staking/write.rs:1035-1060 | An external reward raises the accumulator by the share of one unit of active stake, rounded down once and to neither side, adds its whole value to the unclaimed rewards, and changes nothing else |
| `StakingRewards.SyscallRewardShares` | crates/suwappu-revm/src/staking/write.rs:1503-1556 | A block reward credits the auth address with the floor of the reward times the rate in view, shares out exactly the rest, names the proposer, and changes nothing else |
| `StakingRewards.RewardIsOwed` | crates/suwappu-revm/src/staking/write.rs:1045-1055 | On lifecycle runs what is owed rises by the shared part of a reward, less than one scaled unit for each unit of active stake below it and never above it |
| `StakingRewards.SettlementPaysUp` | crates/suwappu-revm/src/staking/write.rs:521-591 | A settlement pays, out of the unclaimed rewards, everything a delegator is owed but for less than three units, and leaves it owed nothing |
| `StakingRewards.RewardIsProRata` | crates/suwappu-revm/src/staking/write.rs:1045-1055 | In every state of a lifecycle run a delegator settled before and after a reward is credited for it the part its earning stake has in the active stake, bounded from both sides |
| `StakingMoves.UndelegateTakes` | crates/suwappu-revm/src/staking/write.rs:1138-1198 | What an undelegation takes and leaves: at least the amount, more only if the rest is dust and then everything, so that nothing or at least the dust threshold stays active; a new request of that amount at the present accumulator and the right epoch; every other record and request as it was |
| `StakingMoves.DelegateEarns` | crates/suwappu-revm/src/staking/write.rs:866-926 | A delegation earns in full from its activation epoch on and not before, and beyond the settlement nothing else of the pool moves |
| `StakingMoves.CompoundEarnsRewards` | crates/suwappu-revm/src/staking/write.rs:1292-1331 | Compounding turns exactly the settled rewards into stake that earns from its activation epoch on |
| `StakingMoves.ClaimPaysOut` | crates/suwappu-revm/src/staking/write.rs:971-1010 | A claim pays out exactly the settled rewards and moves no stake |
| `StakingMoves.WithdrawPays` | crates/suwappu-revm/src/staking/write.rs:1217-1288 | A withdrawal pays the amount of its request and the floored accrual up to the frozen snapshot, not before the epoch after that of the request, and removes this request only |
| `StakingMoves.PayoutWasRequested` | crates/suwappu-revm/src/staking/write.rs:1113-1288 | Over every run a payout goes back to an undelegation of the same delegator that took that amount, two epochs earlier or three if made inside the boundary |
| `StakingMoves.CommissionSet` | crates/suwappu-revm/src/staking/write.rs:930-968 | Only the auth address sets the commission, to at most the whole reward, and to what it asked for |
| `StakingIds.AddedIsFound` | crates/suwappu-revm/src/staking/write.rs:1378-1400 | A new validator takes two unused keys; both lead to the next id afterwards, and every other lookup gives what it gave |
| `StakingIds.AddedStarts` | crates/suwappu-revm/src/staking/write.rs:1402-1427 | A new validator starts with its commission, no accumulator, and the value it brought as stake of its auth address from the activation epoch on |
| `StakingIds.AddedStaysFound` | crates/suwappu-revm/src/staking/write.rs:1378-1400 | Over every run each validator that was added is found under its auth address and its BLS key in every later state |
| `StakingIds.KeysIdentify` | crates/suwappu-revm/src/staking/write.rs:1378-1400 | No two validators ever share an auth address, a BLS key or an id |
| `StakingIds.UsedKeyIsRefused` | crates/suwappu-revm/src/staking/write.rs:1382-1390 | A key in use is refused as such after any continuation, whatever the other key is |
| `StakingIds.FoundWasAdded` | crates/suwappu-revm/src/staking/write.rs:1378-1400 | Whatever a lookup finds was added by a call with that key |
| `StakingIds.AuthorIsRewarded` | crates/suwappu-revm/src/staking/write.rs:1503-1562 | A block reward lands, whole, with the validator that was added with the auth address of its author, and with no other |
| `StakingIds.ViewsInForce` | crates/suwappu-revm/src/staking/write.rs:1598-1660 | Over every run the stake and commission that rewards go by are those of the last snapshot, and inside the boundary those of the one before it |
| `StakingStranded.EpochChangeStrands` | crates/suwappu-revm/src/staking/write.rs:1692-1757 | Exactly whom an epoch change leaves behind, over every run and for every later epoch: afterwards settling fails in a subtraction if and only if, before it, the earlier window of the delegator had its epoch reached and its snapshot, as the change leaves it, behind the cursor |
| `StakingStranded.StrandedIff` | crates/suwappu-revm/src/staking/write.rs:521-591 | In every state of every run, settling or reading a delegator fails in a subtraction exactly for the stranded |
| `StakingStranded.LifecycleStrandsNobody` | crates/suwappu-revm/src/staking/write.rs:1692-1757 | On lifecycle runs no delegator is ever stranded, by either window |
| `StakingStranded.StrandedForever` | crates/suwappu-revm/src/staking/write.rs:495-591 | A stranded delegator stays so over every continuation, whatever is called and whatever the epochs: claim, compound, settle, delegate and undelegate fail for ever |
| `StakingStranded.SkippedSnapshotStrands` | crates/suwappu-revm/src/staking/write.rs:1708-1712 | From every state of a lifecycle run, inside the boundary or not, four calls strand any active delegator of an active validator: delegate, reward, settle, and an epoch change that passes the new window, without a snapshot or beyond it |
| `StakingInvariant.SnapshotRebuilds` | crates/suwappu-revm/src/staking/write.rs:1598-1660 | After a snapshot the snapshot array and views are the old consensus ones, the consensus array is the elected one with views of this moment, and a view is nonzero iff its validator is in the array |
| `StakingInvariant.UndelegateSound` | crates/suwappu-revm/src/staking/write.rs:1113-1214 | Undelegating keeps the whole invariant and the surplus; a delegator without stake leaves both lists |
| `StakingInvariant.CompoundSound` | crates/suwappu-revm/src/staking/write.rs:1292-1331 | Compounding turns credited rewards into stake of the same value |
| `StakingInvariant.AddValidatorSound` | crates/suwappu-revm/src/staking/write.rs:1335-1431 | Adding a validator keeps the whole invariant, and its value becomes a liability |
| `StakingInvariant.EpochChangeSound` | crates/suwappu-revm/src/staking/write.rs:1692-1757 | Any later epoch keeps the unrestricted invariant |
| `StakingInvariant.SnapshotSound` | crates/suwappu-revm/src/staking/write.rs:1574-1688 | A snapshot keeps the unrestricted invariant |
| `LedgerInvariant.PullKeepsBooks` | crates/suwappu-revm/src/staking/write.rs:521-591 | Settling keeps the books and the pool value, preserves stake + delta + next delta, touches no other delegator, and leaves only windows that open next epoch or the one after |
| `LedgerInvariant.PromotedWindows` | crates/suwappu-revm/src/staking/write.rs:528-547 | Promotion never overwrites a live window, and both windows are due only if the first is |
| `LedgerInvariant.WindowReferenced` | crates/suwappu-revm/src/staking/write.rs:474-515 | A live window has a positive refcount, so the refcount-zero fallback is unreachable when it is folded |
| `LedgerInvariant.RequestReferenced` | crates/suwappu-revm/src/staking/write.rs:1253-1255 | An open request has a positive refcount, so the fallback is unreachable when it is paid |
| `LedgerOrder.PullUnderflowsIff` | crates/suwappu-revm/src/staking/write.rs:521-591 | On a pool with books and order a pull meets an underflow exactly when the earlier window of the delegator is due and its snapshot is behind the cursor, so the second window and the accrual never cause one |
| `LedgerInvariant.CompoundKeepsBooks` | crates/suwappu-revm/src/staking/write.rs:495-515 | Folding a window moves one reference out of its snapshot and no value out of the pool |
| `LedgerInvariant.JoinedKeepsBooks` | crates/suwappu-revm/src/staking/write.rs:866-898 | A delegation adds exactly its amount to the pool and a reference only if its window was empty |
| `LedgerInvariant.OpenedKeepsBooks` | crates/suwappu-revm/src/staking/write.rs:1147-1194 | Opening a request moves value inside the pool and takes one reference |
| `LedgerInvariant.CloseWithdrawalKeepsBooks` | crates/suwappu-revm/src/staking/write.rs:1253-1276 | Paying a request removes its amount and rewards from the pool and drops one reference |
| `LedgerInvariant.BlockRewardKeepsBooks` | crates/suwappu-revm/src/staking/write.rs:1519-1553 | The whole block reward, commission and rest, lands in the pool |
| `LedgerAccrual.PullKeepsAccrual` | crates/suwappu-revm/src/staking/write.rs:521-591 | Settling keeps solvency, divisors and cursors and moves the cursor of an active stake to the present accumulator |
| `LedgerAccrual.CompoundKeepsAccrual` | crates/suwappu-revm/src/staking/write.rs:495-515 | Folding a window pays no more than its accrual up to the frozen snapshot |
| `LedgerAccrual.OpenedKeepsAccrual` | crates/suwappu-revm/src/staking/write.rs:1147-1194 | A withdrawn stake goes on earning in its place until its epoch |
| `LedgerAccrual.CloseWithdrawalKeepsAccrual` | crates/suwappu-revm/src/staking/write.rs:1253-1266 | A paid request takes no more than it was owed |
| `LedgerAccrual.DistributeKeepsAccrual` | crates/suwappu-revm/src/staking/write.rs:1045-1060 | A distribution owes at most its amount, because the divisor is the stake that earns |
| `LedgerAccrual.RiseIsOwed` | crates/suwappu-revm/src/staking/write.rs:1045-1055 | A rise of the accumulator is owed on exactly the stake that earns now |
| `LedgerAccrual.NextEpochEarnsAll` | crates/suwappu-revm/src/staking/write.rs:1648-1659 | Outside the boundary the stake of a validator is what will earn in the next epoch |
| `LedgerAccrual.TurnFreezes` | crates/suwappu-revm/src/staking/write.rs:1724-1752 | At the change to the next epoch every later snapshot becomes the present accumulator and every older one stays |
| `LedgerAccrual.FrozenKeepsAccrual` | crates/suwappu-revm/src/staking/write.rs:1724-1757 | The change of epoch hands the divisor over to the next view and owes nothing more |
| `LedgerProgress.PullSucceeds` | crates/suwappu-revm/src/staking/write.rs:521-591 | On a pool with the invariants settling fails only by overflow beyond the value bound |
| `LedgerProgress.CloseWithdrawalSucceeds` | crates/suwappu-revm/src/staking/write.rs:1253-1266 | Paying a due request fails only by overflow beyond the value bound |
| `LedgerProgress.BlockRewardSucceeds` | crates/suwappu-revm/src/staking/write.rs:1519-1553 | A block reward for an active validator fails only by overflow beyond the value bound |
| `LedgerSettlement.PullIdempotent` | crates/suwappu-revm/src/staking/write.rs:521-591 | Settling a settled delegator changes nothing |
| `LedgerSettlement.PullPays` | crates/suwappu-revm/src/staking/write.rs:521-591 | With no window due, settling pays the floor of the stake times the rise of the accumulator, takes it out of the unclaimed rewards, and changes nothing else |
| `LedgerStanding.GrewFlags` | crates/suwappu-revm/src/staking/write.rs:805-831 | After a delegation STAKE_TOO_LOW holds iff the stake is below the threshold and WITHDRAWN iff the auth address is below its minimum |
| `LedgerStanding.ShrankFlags` | crates/suwappu-revm/src/staking/write.rs:834-859 | The same after an undelegation |
| `LedgerStanding.SaturationHarmless` | crates/suwappu-revm/src/staking/types.rs:208-212 | The saturating total crosses the threshold exactly when the true total does |
| `ValidatorSets.ElectedByRank` | crates/suwappu-revm/src/staking/write.rs:1625-1660 | Position i of the consensus set holds the flag-free validator that exactly i others outrank by (stake descending, id ascending), and a flag-free validator is elected iff fewer than 200 outrank it |
| `ValidatorSets.RankingIsUnique` | crates/suwappu-revm/src/staking/write.rs:1642-1643 | The order is total, so the ranking does not depend on the sorting algorithm |
| `ValidatorSets.SweepKeepsEligible` | crates/suwappu-revm/src/staking/write.rs:1662-1686 | Reverse pop-and-swap leaves exactly the flag-free ids, each once |
| `ValidatorSetStorage.ValidatorSetStore.AddToValset` | crates/suwappu-revm/src/staking/write.rs:760-776 | Sets the bit and appends iff it was clear; bitset and array keep agreeing |
| `ValidatorSetStorage.ValidatorSetStore.TakeSnapshotOf` | crates/suwappu-revm/src/staking/write.rs:1594-1686 | The five loops of the snapshot compute the specified sets and keep bitset and array in agreement |
| `ValidatorSetStorage.ValidatorSetStore.RunRemovals` | crates/suwappu-revm/src/staking/write.rs:1674-1685 | The reverse removal loop is the sweep, and clears exactly the removed bits |
| `ValidatorSetStorage.CompactedValid` | crates/suwappu-revm/src/staking/write.rs:1674-1686 | After compaction a bit is set iff its id is in the array, and the array has no duplicates |
| `TwinLists.ChainInsert` | crates/suwappu-revm/src/staking/write.rs:614-645 | Hanging a node at the head keeps the chain doubly linked, sentinel-headed and duplicate-free |
| `TwinLists.ChainRemove` | crates/suwappu-revm/src/staking/write.rs:693-722 | Closing the gap around a node keeps the chain |
| `TwinListStorage.TwinListStore.InsertBoth` | crates/suwappu-revm/src/staking/write.rs:601-678 | Inserting into both lists prepends unless present, keeps both chains although they share nodes, and rejects zero and sentinel |
| `TwinListStorage.TwinListStore.RemoveBoth` | crates/suwappu-revm/src/staking/write.rs:682-753 | Removing from both lists takes out the one entry and keeps the order of the rest |
| `StakingContract.StakingContract.PullUpToDate` | crates/suwappu-revm/src/staking/write.rs:521-591 | The settlement with its local record, storage decrements and final writes equals the ledger pull, errors included |
| `StakingContract.StakingContract.ApplyCompound` | crates/suwappu-revm/src/staking/write.rs:495-515 | The local record and the snapshot slot change as the ledger says |
| `StakingContract.StakingContract.InternalDelegate` | crates/suwappu-revm/src/staking/write.rs:866-926 | Storage, execution set and lists end up as the state machine says |
| `StakingContract.StakingContract.HandleUndelegate` | crates/suwappu-revm/src/staking/write.rs:1113-1214 | The handler computes the state machine step |
| `StakingContract.StakingContract.HandleWithdraw` | crates/suwappu-revm/src/staking/write.rs:1217-1288 | The handler computes the state machine step |
| `StakingContract.StakingContract.HandleCompound` | crates/suwappu-revm/src/staking/write.rs:1292-1331 | The handler computes the state machine step |
| `StakingContract.StakingContract.HandleClaimRewards` | crates/suwappu-revm/src/staking/write.rs:971-1010 | The handler computes the state machine step |
| `StakingContract.StakingContract.HandleAddValidator` | crates/suwappu-revm/src/staking/write.rs:1335-1431 | The handler computes the state machine step |
| `StakingContract.StakingContract.HandleSyscallReward` | crates/suwappu-revm/src/staking/write.rs:1477-1570 | The handler computes the state machine step |
| `StakingContract.StakingContract.HandleSyscallSnapshot` | crates/suwappu-revm/src/staking/write.rs:1574-1688 | The handler computes the state machine step |
| `StakingContract.StakingContract.HandleSyscallOnEpochChange` | crates/suwappu-revm/src/staking/write.rs:1692-1757 | The handler, loop included, computes the state machine step |
| `StakingContract.StakingContract.Execute` | crates/suwappu-revm/src/staking/write.rs:1838-1908 | A call in its frame is one step of the state machine: a failed handler leaves every word as it was |
| `StakingPaging.TraverseValidators` | crates/suwappu-revm/src/staking/mod.rs:466-510 | The pointer walk returns the page of the list that starts at the cursor |
| `StakingPaging.TraverseDelegators` | crates/suwappu-revm/src/staking/mod.rs:516-560 | The pointer walk returns the page of the list that starts at the cursor |
| `StakingPaging.GetValidatorSet` | crates/suwappu-revm/src/staking/mod.rs:326-370 | The paged array reader returns at most 100 cells from the start index |
| `StakingPaging.ListWalkComplete` | crates/suwappu-revm/src/staking/mod.rs:466-560 | Starting at zero and following the cursor until done yields the whole list once, in order, for any length and any positive limit |
| `StakingPaging.SetWalkComplete` | crates/suwappu-revm/src/staking/mod.rs:326-370 | Following the index until done yields the whole validator set |
| `StorageLayout.KeysDistinct` | crates/suwappu-revm/src/staking/storage.rs:36-233 | Distinct logical fields never share a storage key |
| `StorageLayout.KeySpelled` | crates/suwappu-revm/src/staking/storage.rs:130-233 | Adding the slot to the filled buffer never carries into the fields before it |
| `StorageLayout.ListNodeRoundTrip` | crates/suwappu-revm/src/staking/types.rs:111-141 | Decoding an encoded list node gives it back |
| `StorageLayout.EpochsRoundTrip` | crates/suwappu-revm/src/staking/write.rs:170-195 | The packed window epochs decode to what was encoded |
| `StorageLayout.AuthRoundTrip` | crates/suwappu-revm/src/staking/write.rs:262-277 | The packed auth address and flags decode to what was encoded |
| `StorageLayout.KeysRoundTrip` | crates/suwappu-revm/src/staking/write.rs:279-315 | The public keys packed in three words decode to what was encoded |
| `StorageLayout.U64RoundTrip` | crates/suwappu-revm/src/staking/write.rs:94-116 | A left-aligned u64 decodes to what was encoded |
| `StorageRefinement.StoreCleans` | crates/suwappu-revm/src/staking/write.rs:85-103 | Storing the word of one field at its key puts that field right and disturbs no other field, for every field of the contract |
| `StorageRefinement.EmptyRepresents` | crates/suwappu-revm/src/staking/storage.rs:36-233 | Empty storage represents the contract at genesis: the zero word is the zero value of every field |
| `StorageRefinement.ValidatorLoads` | crates/suwappu-revm/src/staking/write.rs:127-168 | From words that represent a state, the reader of a validator record returns that record, flags and address included |
| `StorageRefinement.KeysLoad` | crates/suwappu-revm/src/staking/write.rs:279-315 | The three key words of a validator give back the stored public keys |
| `StorageRefinement.DelegatorLoads` | crates/suwappu-revm/src/staking/write.rs:170-196 | From words that represent a state, the reader of a delegator returns that record, both packed windows included |
| `StorageRefinement.NodeLoads` | crates/suwappu-revm/src/staking/write.rs:198-208 | From words that represent a state, the reader of a list node returns its four links |
| `StorageRefinement.SnapshotLoads` | crates/suwappu-revm/src/staking/write.rs:210-220 | From words that represent a state, the reader of an accumulator snapshot returns its value and refcount |
| `StorageRefinement.RequestLoads` | crates/suwappu-revm/src/staking/write.rs:1231-1246 | From words that represent a state, the reader of a withdrawal request returns that request |
| `StorageRefinement.ArrayLoads` | crates/suwappu-revm/src/staking/mod.rs:326-370 | From words that represent a state, the length word and the cells of a set array are the set array |
| `StorageRefinement.BitLoads` | crates/suwappu-revm/src/staking/write.rs:760-776 | From words that represent a state, the digit read from its bucket tells whether a validator is in the bitset |
| `WordStore.WordStore.WriteValidatorRecord` | crates/suwappu-revm/src/staking/write.rs:226-277 | The stores of each validator write establish the words of the updated record, and no other field moves |
| `WordStore.WordStore.WriteValidatorFlags` | crates/suwappu-revm/src/staking/write.rs:262-277 | The one packed store of address and flags establishes both |
| `WordStore.WordStore.WriteValidatorFull` | crates/suwappu-revm/src/staking/write.rs:279-315 | The stores of a whole new validator, keys included, establish the words of the state with that validator |
| `WordStore.WordStore.WriteDelegator` | crates/suwappu-revm/src/staking/write.rs:317-350 | The stores of a delegator establish the words of the state with that record |
| `WordStore.WordStore.WriteListNode` | crates/suwappu-revm/src/staking/write.rs:352-370 | The two stores of a list node establish the words of the state with that node |
| `WordStore.WordStore.WriteAccumulator` | crates/suwappu-revm/src/staking/write.rs:411-421 | The two stores of a snapshot establish the words of the state with that snapshot |
| `WordStore.WordStore.ClearAccumulator` | crates/suwappu-revm/src/staking/write.rs:474-493 | Zeroing both words of a snapshot removes it |
| `WordStore.WordStore.WriteWithdrawalRequest` | crates/suwappu-revm/src/staking/write.rs:372-385 | The three stores of a request establish the words of the state with that request |
| `WordStore.WordStore.ClearWithdrawalRequest` | crates/suwappu-revm/src/staking/write.rs:387-409 | Zeroing the three words of a request removes it |
| `WordStore.WordStore.AddToValset` | crates/suwappu-revm/src/staking/write.rs:760-776 | Setting a bit in its bucket word and, if it was clear, storing the cell and the length appends the validator and nothing else |
| `WordStore.WordStore.RemoveFromValset` | crates/suwappu-revm/src/staking/write.rs:779-786 | Clearing a bit in its bucket word removes that validator from the bitset and no other |
| `StorageMirror.Mirror.WriteDelegator` | crates/suwappu-revm/src/staking/write.rs:317-350 | The typed write of the contract and the stores of the words keep in step |
| `StorageMirror.Mirror.AddToValset` | crates/suwappu-revm/src/staking/write.rs:760-776 | The typed set operation of the contract and the stores of the words keep in step |
| `StorageKeys.DelegatorKey` | crates/suwappu-revm/src/staking/storage.rs:142-150 | The buffer filled in place gives the key of the field |
| `StorageKeys.WithdrawalKey` | crates/suwappu-revm/src/staking/storage.rs:155-164 | The buffer filled in place gives the key of the field |
| `StorageKeys.AccumulatorKey` | crates/suwappu-revm/src/staking/storage.rs:193-199 | The buffer filled in place gives the key of the field |
| `StorageKeys.ValidatorKey` | crates/suwappu-revm/src/staking/storage.rs:130-136 | The buffer filled in place gives the key of the field |
| `StorageKeys.BitsetBucketKey` | crates/suwappu-revm/src/staking/storage.rs:225-233 | The key of the bucket that holds the bit of a validator |
| `EvmJournal.FailedSetExact` | crates/suwappu-revm/src/reserve_balance/tracker.rs:60-196 | After any hooked operations and reverts to any checkpoints, the failed set is exactly the set of loaded accounts a from-scratch evaluation finds violating, although thresholds are cached and credits skip accounts that are not failing |
| `EvmJournal.StepInStep` | crates/suwappu-revm/src/journal.rs:54-71 | Every hooked operation keeps cache and rule in agreement |
| `EvmJournal.RevertRestores` | crates/suwappu-revm/src/journal.rs:60-71 | Checkpoint, anything nested within it, and revert: every account, and what the tracker says of it, is as before |
| `ReserveBalance.ViolatingMeans` | crates/suwappu-revm/src/reserve_balance/tracker.rs:156-196 | The rule in full, account kinds and exemption included: another account violates iff its balance is below the reserve and below what it had before; a sender that may not dip iff its fees exceed either bound or its balance with the fees added back is below both |
| `ReserveBalance.CreditExact` | crates/suwappu-revm/src/reserve_balance/tracker.rs:78-82 | Skipping credits to accounts that are not failing is safe |
| `ReserveBalance.RevertExact` | crates/suwappu-revm/src/journal.rs:60-71 | Whatever a revert did to the accounts its entries name, the cache follows |
| `JournalBalances.StepMoves` | crates/suwappu-revm/src/journal.rs:169-321 | Every wrapped operation but a revert moves exactly the balances it names by exactly the amounts it names |
| `JournalBalances.StepConserves` | crates/suwappu-revm/src/journal.rs:169-321 | The sum of all balances changes only by what is brought in; only a contract of this transaction that names itself on its destruction burns anything |
| `JournalBalances.RunKeepsOriginal` | crates/suwappu-revm/src/reserve_balance/tracker.rs:156-158 | What the reserve of an account is measured against is fixed when it is loaded: no operation and no revert of the transaction moves it |
| `ReserveTracker.SenderCanDip` | crates/suwappu-revm/src/chain.rs:48-73 | The scan answers iff the sender appears nowhere in the last three blocks before this transaction |
| `ReserveTracker.ReserveBalanceTracker.UpdateLoadedAccount` | crates/suwappu-revm/src/reserve_balance/tracker.rs:115-154 | The in-place update is the cache update, which keeps the cache at the rule as `ReserveBalance.ViolatingMeans` spells it out |
| `ReserveTracker.ReserveBalanceTracker.Init` | crates/suwappu-revm/src/reserve_balance/tracker.rs:60-71 | The policy of the transaction and the first evaluation of the sender |
| `ReserveTracker.ReserveBalanceTracker.OnCheckpointRevert` | crates/suwappu-revm/src/reserve_balance/tracker.rs:101-113 | The loop over the reverted addresses is the specified re-evaluation |
| `MonadJournal.Journal.TransferLoaded` | crates/suwappu-revm/src/journal.rs:218-229 | The wrapped transfer is the journal step: move, entry, debit hook, credit hook |
| `MonadJournal.Journal.SelfDestructAccount` | crates/suwappu-revm/src/journal.rs:169-179 | The wrapped self-destruction is the journal step |
| `MonadJournal.Journal.CreateAccountCheckpoint` | crates/suwappu-revm/src/journal.rs:311-321 | The wrapped creation is the journal step; a collision changes nothing |
| `MonadJournal.Journal.CheckpointRevert` | crates/suwappu-revm/src/journal.rs:60-71 | The wrapped revert undoes the entries and re-evaluates their addresses |
| `ValidatorRegistry.RunSound` | contracts/src/SuwappuDagValidatorRegistry.sol:94-180 | Over every run the approval count is the number of distinct approving signers, the timelock runs exactly while it suffices, and recorded stakes never exceed the total |
| `ValidatorRegistry.ExecuteWaited` | contracts/src/SuwappuDagValidatorRegistry.sol:148-180 | Before an execution there was an unbroken interval of at least the delay with enough signers in the approving set, which `RegistryHistory.ApprovedByHistory` reads off the calls |
| `ValidatorRegistry.EpochsInOrder` | contracts/src/SuwappuDagValidatorRegistry.sol:148-169 | Epochs are executed in order, each at most once |
| `ValidatorRegistry.EveryEpochExecuted` | contracts/src/SuwappuDagValidatorRegistry.sol:148-169 | Every epoch up to the current one has its execution |
| `ValidatorRegistry.ExecutedStakesFrozen` | contracts/src/SuwappuDagValidatorRegistry.sol:148-169 | The stakes of an executed epoch never change |
| `ValidatorRegistry.ListedWithinTotal` | contracts/src/SuwappuDagValidatorRegistry.sol:158-163 | With a key listed twice the recorded stakes still add up to no more than the total |
| `RegistryHistory.CallsByHistory` | contracts/src/SuwappuDagValidatorRegistry.sol:94-180 | Over every run which calls go through, and with which error the others revert, is decided by the calls that went through before: votes in force, proposals made and executed, and an unbroken quorum of at least the delay |
| `RegistryHistory.ApprovedByHistory` | contracts/src/SuwappuDagValidatorRegistry.sol:118-142 | A signer approves a proposal iff the last vote of its that went through was not a revocation |
| `RegistryHistory.RevocationRevokes` | contracts/src/SuwappuDagValidatorRegistry.sol:130-142 | A revocation takes back the approval of its sender and no other approval of any proposal |
| `RegistryHistory.ExecutionWaited` | contracts/src/SuwappuDagValidatorRegistry.sol:148-156 | An execution comes after an interval of at least the delay throughout which enough last votes were approvals |
| `RegistryHistory.ExecutedIsRecorded` | contracts/src/SuwappuDagValidatorRegistry.sol:158-164 | Whatever was executed is on record for ever as it was listed: the last entry of each key, nothing for other keys, and the sum of all entries |
| `RegistryContract.CheckSigners` | contracts/src/SuwappuDagValidatorRegistry.sol:76-89 | Deployment accepts exactly the duplicate-free, zero-free signer lists with a threshold in range |
| `RegistryContract.ValidatorRegistryContract.ProposeEpochTransition` | contracts/src/SuwappuDagValidatorRegistry.sol:94-114 | The call computes the state machine step or reverts |
| `RegistryContract.ValidatorRegistryContract.ApproveEpochTransition` | contracts/src/SuwappuDagValidatorRegistry.sol:118-124 | The call computes the state machine step or reverts |
| `RegistryContract.ValidatorRegistryContract.RevokeApproval` | contracts/src/SuwappuDagValidatorRegistry.sol:130-142 | The call computes the state machine step or reverts |
| `RegistryContract.ValidatorRegistryContract.ExecuteEpochTransition` | contracts/src/SuwappuDagValidatorRegistry.sol:148-170 | The call, loop included, computes the state machine step or reverts with nothing written |
| `HeaderOracle.QuorumHeaderOracle.SubmitHeader` | contracts/src/SuwappuDagQuorumHeaderOracle.sol:57-90 | A header is stored iff the submission is sorted, answered and signed by enough stake, the stakes adding up within a word; otherwise it is refused with the error of the first failing check |
| `HeaderOracle.AcceptedByTwoThirds` | contracts/src/SuwappuDagQuorumHeaderOracle.sol:68-88 | Acceptance stated without the quorum function: the valid signers hold strictly more than two thirds of the total, and the sums fit in a word |
| `HeaderOracle.QuorumsIntersect` | contracts/src/SuwappuDagQuorumHeaderOracle.sol:68-88 | The keys that validly signed both of two accepted submissions of one epoch hold more than a third of its total stake |
| `HeaderOracle.QuorumsIntersectOverRuns` | contracts/src/SuwappuDagQuorumHeaderOracle.sol:68-88 | The same for submissions accepted at different times of a registry run |
| `HeaderOracle.AcceptedEpochExecuted` | contracts/src/SuwappuDagQuorumHeaderOracle.sol:85-89 | No header is accepted for an epoch that was never executed |
| `HeaderOracle.SignersAre` | contracts/src/SuwappuDagQuorumHeaderOracle.sol:70-83 | A key counts iff it is listed with a valid signature |

## Left out

- ABI decoding, selector dispatch, payability, gas costs and event logs: handlers start from decoded arguments.
- The `_reader` copies of the read handlers in mod.rs: they repeat the paths that are modelled.
- Wrap-around of 64-bit epochs, ids, refcounts and list lengths, the 8-bit range of withdrawal ids and the 32-bit page index: modelled as naturals; that a stored value fits its word is asked for where it is loaded again.
- The derivation of the lookup keys from the public keys in `addValidator`: the lookup keys are parameters; the public keys themselves are only stored, by `WordStore.WordStore.WriteValidatorFull`.
- Minting of a block reward by the host: the reward counts as value received when `syscallReward` is called, and direct donations to the contract address are not part of this model.
- The handlers run on typed records, one record for each validator: the words come in below the writes, where each write helper is proved to represent the updated record in flat storage, and each reader to return it.
- Host failures of storage reads and writes: loads and stores always succeed.
- revm's inner journal, account loading and warmth: `EvmJournal.Undo` and the operations beside it restate what the wrapper relies on; undoing a code change clears the code, a balance never exceeds a word, and balances change only through the hooked operations once the tracker has started.
- Code that is not loaded yet: the code of a loaded account is always known, as none, an EIP-7702 delegation or a contract.
- Rules before Prague: every Monad fork stands on Prague or a later one.
- EvmJournal.RevertRestores: asks that an account is created, and given code, at most once, which the collision check of account creation ensures in execution.
- StakingProgress.CallsSucceed: the bound on value is stated for all value ever received, not for what the contract holds.
- StakingLifecycle.LifecycleRunAccrues: says nothing about runs that change the epoch without a snapshot or by more than one; `StakingStranded` shows what can happen there.
- StakingSettlement.ExtraPullsRound: asks that all value ever offered stays within the value bound, that the delegator moves none of its stake at that validator, and that none of its windows comes due during the calls.
- StakingRewards.RewardIsProRata: asks that the value ever received stays within the value bound, under which the settlements around the reward go through.
- KECCAK-256, BLAKE3 and ML-DSA (FIPS 204): a proposal is named by its content, and key hash, header digest and signature verdict are functions of which nothing is assumed.
- The `chainId` and `networkId` of the oracle and the registry: constants that no property depends on.
- Precompiles for curves, opcode tables, memory pricing, node, RPC and command line.
