/**
 * The per-validator ledger of the staking precompile.  Every storage namespace
 * that carries stake or rewards is keyed by a validator id, so a `Pool` is the
 * part of that storage that belongs to one validator.  A key that is absent
 * from a map stands for zeroed storage slots.
 */
module Ledger {
  import opened Checked

  const UNIT_BIAS: nat := 1_000_000_000_000_000_000_000_000_000_000_000_000
  const MON: nat := 1_000_000_000_000_000_000
  const DUST_THRESHOLD: nat := 1_000_000_000
  const MAX_COMMISSION: nat := MON
  const MIN_AUTH_ADDRESS_STAKE: nat := 100_000 * MON
  const ACTIVE_VALIDATOR_STAKE: nat := 10_000_000 * MON
  const MIN_EXTERNAL_REWARD: nat := DUST_THRESHOLD
  const MAX_EXTERNAL_REWARD: nat := 10_000_000 * MON
  const WITHDRAWAL_DELAY: nat := 1

  /** Validator ids and addresses stand for the integers their big-endian bytes spell. */
  type ValId = nat
  type Address = nat
  type Epoch = nat

  const ZERO_ADDRESS: Address := 0
  const SENTINEL_ADDRESS: Address := 0xFFFF_FFFF_FFFF_FFFF_FFFF_FFFF_FFFF_FFFF_FFFF_FFFF
  const SENTINEL_VAL_ID: ValId := 0xFFFF_FFFF_FFFF_FFFF

  /** The three bits of the flag word; `OK` is the word with no bit set. */
  datatype Flags = Flags(stakeTooLow: bool, withdrawn: bool, doubleSign: bool)

  const OK: Flags := Flags(false, false, false)

  datatype Validator = Validator(
    stake: nat, acc: nat, commission: nat, auth: Address, flags: Flags, unclaimed: nat)

  datatype Delegator = Delegator(
    stake: nat, acc: nat, rewards: nat,
    deltaStake: nat, nextDeltaStake: nat,
    deltaEpoch: Epoch, nextDeltaEpoch: Epoch)
  {
    function Total(): nat {
      stake + deltaStake + nextDeltaStake
    }

    /** `total_stake`: the source's sum saturates. */
    function TotalStake(): nat {
      SaturatingAdd(SaturatingAdd(stake, deltaStake), nextDeltaStake)
    }

    predicate Exists() {
      stake != 0 || deltaStake != 0 || nextDeltaStake != 0
    }
  }

  datatype Withdrawal = Withdrawal(amount: nat, acc: nat, epoch: Epoch)

  /** An accumulator snapshot shared by all who refer to one (epoch, validator). */
  datatype Snapshot = Snapshot(value: nat, refcount: nat)

  type Delegators = map<Address, Delegator>
  type Withdrawals = map<(Address, nat), Withdrawal>
  type Snapshots = map<Epoch, Snapshot>

  datatype Pool = Pool(val: Validator, dels: Delegators, wds: Withdrawals, snaps: Snapshots)

  const NO_DELEGATOR: Delegator := Delegator(0, 0, 0, 0, 0, 0, 0)
  const NO_VALIDATOR: Validator := Validator(0, 0, 0, ZERO_ADDRESS, OK, 0)
  const EMPTY_POOL: Pool := Pool(NO_VALIDATOR, map[], map[], map[])

  // ----- reads ------------------------------------------------------------

  /** Everything `a` has with this validator, active or about to be. */
  function TotalOf(p: Pool, a: Address): nat {
    if a in p.dels then p.dels[a].Total() else 0
  }

  /** A zeroed record and an absent one are the same storage. */
  function Touch(p: Pool, a: Address): Pool {
    if a in p.dels then p else p.(dels := p.dels[a := NO_DELEGATOR])
  }

  predicate HasRequest(p: Pool, k: (Address, nat)) {
    k in p.wds && p.wds[k].amount != 0
  }

  function Value(snaps: Snapshots, e: Epoch): nat {
    if e in snaps then snaps[e].value else 0
  }

  function Ref(snaps: Snapshots, e: Epoch): nat {
    if e in snaps then snaps[e].refcount else 0
  }

  predicate Exists(v: Validator) {
    v.auth != ZERO_ADDRESS
  }

  /** The epoch in which a change made now takes effect. */
  function ActivationEpoch(epoch: Epoch, inBoundary: bool): Epoch {
    if inBoundary then epoch + 2 else epoch + 1
  }

  predicate IsEpochActive(current: Epoch, activation: Epoch) {
    activation != 0 && activation <= current
  }

  // ----- accumulator snapshots --------------------------------------------

  /** Records the present accumulator at epoch `e` and takes one reference. */
  function IncrementRef(p: Pool, e: Epoch): Pool {
    p.(snaps := p.snaps[e := Snapshot(p.val.acc, Ref(p.snaps, e) + 1)])
  }

  /** Drops one reference; the last one clears the snapshot. */
  function DecrementRef(snaps: Snapshots, e: Epoch): Snapshots {
    if Ref(snaps, e) == 0 then snaps
    else if Ref(snaps, e) == 1 then snaps - {e}
    else snaps[e := Snapshot(Value(snaps, e), Ref(snaps, e) - 1)]
  }

  /** What the decrement returns: zero once nothing is referenced. */
  function DecrementedValue(snaps: Snapshots, e: Epoch): nat {
    if Ref(snaps, e) == 0 then 0 else Value(snaps, e)
  }

  function CalculateRewards(stake: nat, epochAcc: nat, lastAcc: nat): Result<nat> {
    var diff :- CheckedSub(epochAcc, lastAcc);
    CheckedMulDiv(diff, stake, UNIT_BIAS)
  }

  // ----- settling a delegator ---------------------------------------------

  function PromoteWindow(d: Delegator, epoch: Epoch): Delegator {
    if d.deltaEpoch == 0 && d.nextDeltaEpoch <= epoch + 1 && d.nextDeltaEpoch != 0 then
      d.(deltaStake := d.nextDeltaStake, nextDeltaStake := 0,
      deltaEpoch := d.nextDeltaEpoch, nextDeltaEpoch := 0)
    else d
  }

  function Promote(p: Pool, epoch: Epoch, a: Address): Pool
    requires a in p.dels
  {
    p.(dels := p.dels[a := PromoteWindow(p.dels[a], epoch)])
  }

  /** Moves `rewards` from the pool to delegator `a`, whose record becomes `d` plus them. */
  function Credit(p: Pool, a: Address, d: Delegator, rewards: nat): (r: Result<Pool>)
    ensures r.Ok? ==> a in r.value.dels
  {
    if p.val.unclaimed < rewards then Err(SolvencyError)
    else
      var total :- CheckedAdd(d.rewards, rewards);
      Ok(p.(val := p.val.(unclaimed := p.val.unclaimed - rewards),
         dels := p.dels[a := d.(rewards := total)]))
  }

  /** Folds the first window of `a` into its active stake. */
  function CompoundStep(p: Pool, a: Address): (r: Result<Pool>)
    requires a in p.dels
    ensures r.Ok? ==> a in r.value.dels
  {
    var d := p.dels[a];
    var epochAcc := DecrementedValue(p.snaps, d.deltaEpoch);
    var rewards :- CalculateRewards(d.stake, epochAcc, d.acc);
    var stake :- CheckedAdd(d.stake, d.deltaStake);
    var folded := d.(stake := stake, acc := epochAcc,
                     deltaStake := d.nextDeltaStake, nextDeltaStake := 0,
                     deltaEpoch := d.nextDeltaEpoch, nextDeltaEpoch := 0);
    Credit(p.(snaps := DecrementRef(p.snaps, d.deltaEpoch)), a, folded, rewards)
  }

  /** Pays the active stake of `a` up to the present accumulator. */
  function AccrueStep(p: Pool, a: Address): (r: Result<Pool>)
    requires a in p.dels
    ensures r.Ok? ==> a in r.value.dels
  {
    var d := p.dels[a];
    if d.stake == 0 then Ok(p)
    else
      var rewards :- CalculateRewards(d.stake, p.val.acc, d.acc);
      Credit(p, a, d.(acc := p.val.acc), rewards)
  }

  /** `pull_delegator_up_to_date`. */
  function Pull(p: Pool, epoch: Epoch, a: Address): (r: Result<Pool>)
    ensures r.Ok? ==> a in r.value.dels
  {
    var p0 := Promote(Touch(p, a), epoch, a);
    var d := p0.dels[a];
    var p1 :- if IsEpochActive(epoch, d.nextDeltaEpoch) then CompoundStep(p0, a) else Ok(p0);
    var p2 :- if IsEpochActive(epoch, d.deltaEpoch) then CompoundStep(p1, a) else Ok(p1);
    AccrueStep(p2, a)
  }

  // ----- flags ------------------------------------------------------------

  function FlagsAfterDelegate(val: Validator, d: Delegator, caller: Address): Flags {
    Flags(
      val.flags.stakeTooLow && val.stake < ACTIVE_VALIDATOR_STAKE,
      val.flags.withdrawn && !(caller == val.auth && d.TotalStake() >= MIN_AUTH_ADDRESS_STAKE),
      val.flags.doubleSign)
  }

  function FlagsAfterUndelegate(val: Validator, d: Delegator, caller: Address): Flags {
    Flags(
      val.flags.stakeTooLow || val.stake < ACTIVE_VALIDATOR_STAKE,
      val.flags.withdrawn || (caller == val.auth && d.TotalStake() < MIN_AUTH_ADDRESS_STAKE),
      val.flags.doubleSign)
  }

  // ----- delegating -------------------------------------------------------

  /** The delegator record after `amount` joins the window open at this moment. */
  function JoinWindow(d: Delegator, epoch: Epoch, inBoundary: bool, amount: nat): Result<Delegator> {
    var activation := ActivationEpoch(epoch, inBoundary);
    if inBoundary then
      var sum :- CheckedAdd(d.nextDeltaStake, amount);
      Ok(d.(nextDeltaStake := sum, nextDeltaEpoch := activation))
    else
      var sum :- CheckedAdd(d.deltaStake, amount);
      Ok(d.(deltaStake := sum, deltaEpoch := activation))
  }

  predicate NeedsSnapshot(d: Delegator, inBoundary: bool) {
    if inBoundary then d.nextDeltaEpoch == 0 else d.deltaEpoch == 0
  }

  /** `internal_delegate` after the pull, without the validator sets and the lists. */
  function AddToWindow(p: Pool, epoch: Epoch, inBoundary: bool, a: Address, amount: nat): Result<Pool>
    requires a in p.dels
  {
    var d := p.dels[a];
    var d' :- JoinWindow(d, epoch, inBoundary, amount);
    var p1 := p.(dels := p.dels[a := d']);
    var p2 := if NeedsSnapshot(d, inBoundary)
              then IncrementRef(p1, ActivationEpoch(epoch, inBoundary)) else p1;
    var stake :- CheckedAdd(p.val.stake, amount);
    var val := p.val.(stake := stake);
    Ok(p2.(val := val.(flags := FlagsAfterDelegate(val, d', a))))
  }

  function Delegate(p: Pool, epoch: Epoch, inBoundary: bool, a: Address, amount: nat): Result<Pool> {
    var p1 :- Pull(p, epoch, a);
    AddToWindow(p1, epoch, inBoundary, a, amount)
  }

  // ----- withdrawing ------------------------------------------------------

  /** What an undelegation really takes: a remainder below the dust threshold goes along. */
  function CollectDust(stake: nat, amount: nat): nat
    requires amount <= stake
  {
    if stake != amount && stake - amount < DUST_THRESHOLD then stake else amount
  }

  /** Turns `amount` of the active stake of `a` into withdrawal request `wid`. */
  function OpenWithdrawal(p: Pool, epoch: Epoch, inBoundary: bool, a: Address, wid: nat, amount: nat)
    : Result<Pool>
    requires a in p.dels && amount <= p.dels[a].stake
  {
    var d := p.dels[a];
    var d' := d.(stake := d.stake - amount, acc := if d.stake == amount then 0 else d.acc);
    var stake :- CheckedSub(p.val.stake, amount);
    var val := p.val.(stake := stake);
    var activation := ActivationEpoch(epoch, inBoundary);
    Ok(IncrementRef(
         p.(val := val.(flags := FlagsAfterUndelegate(val, d', a)),
         wds := p.wds[(a, wid) := Withdrawal(amount, d.acc, activation)],
         dels := p.dels[a := d']),
         activation))
  }

  function Undelegate(p: Pool, epoch: Epoch, inBoundary: bool, a: Address, amount: nat, wid: nat)
    : Result<Pool>
  {
    if HasRequest(p, (a, wid)) then Err(WithdrawalIdExists)
    else
      var p1 :- Pull(p, epoch, a);
      var d := p1.dels[a];
      if d.stake < amount then Err(InsufficientStake)
      else OpenWithdrawal(p1, epoch, inBoundary, a, wid, CollectDust(d.stake, amount))
  }

  /** Settles request `k`: the pool afterwards and the rewards it earned. */
  function CloseWithdrawal(p: Pool, k: (Address, nat)): Result<(Pool, nat)>
    requires k in p.wds
  {
    var w := p.wds[k];
    var epochAcc := DecrementedValue(p.snaps, w.epoch);
    var rewards :- CalculateRewards(w.amount, epochAcc, w.acc);
    if p.val.unclaimed < rewards then Err(SolvencyError)
    else
      Ok((p.(val := p.val.(unclaimed := p.val.unclaimed - rewards),
          wds := p.wds - {k},
          snaps := DecrementRef(p.snaps, w.epoch)), rewards))
  }

  /** The pool after `withdraw`, and the payout. */
  function Withdraw(p: Pool, epoch: Epoch, a: Address, wid: nat): Result<(Pool, nat)> {
    if !HasRequest(p, (a, wid)) then Err(UnknownWithdrawalId)
    else
      var w := p.wds[(a, wid)];
      if !IsEpochActive(epoch, w.epoch) || w.epoch + WITHDRAWAL_DELAY > epoch then
        Err(WithdrawalNotReady)
      else
        var (p1, rewards) :- CloseWithdrawal(p, (a, wid));
        var payout :- CheckedAdd(w.amount, rewards);
        Ok((p1, payout))
  }

  // ----- rewards ----------------------------------------------------------

  function ClearRewards(p: Pool, a: Address): Pool
    requires a in p.dels
  {
    p.(dels := p.dels[a := p.dels[a].(rewards := 0)])
  }

  /** Shares `amount` among the stake that earns now, `active` of it. */
  function Distribute(p: Pool, amount: nat, active: nat): Result<Pool> {
    var share :- CheckedMulDiv(amount, UNIT_BIAS, active);
    var acc :- CheckedAdd(p.val.acc, share);
    var unclaimed :- CheckedAdd(p.val.unclaimed, amount);
    Ok(p.(val := p.val.(acc := acc, unclaimed := unclaimed)))
  }

  /** The commission on a block reward goes straight to the auth address. */
  function PayCommission(p: Pool, commission: nat): Result<Pool>
    requires p.val.auth in p.dels
  {
    var d := p.dels[p.val.auth];
    var rewards :- CheckedAdd(d.rewards, commission);
    Ok(p.(dels := p.dels[p.val.auth := d.(rewards := rewards)]))
  }

  function BlockReward(p: Pool, reward: nat, rate: nat, active: nat): Result<Pool> {
    var commission :- CheckedMulDiv(reward, rate, MON);
    var shared :- CheckedSub(reward, commission);
    var p1 :- PayCommission(Touch(p, p.val.auth), commission);
    if shared == 0 then Ok(p1) else Distribute(p1, shared, active)
  }

  // ----- epoch change -----------------------------------------------------

  function Refresh(snaps: Snapshots, e: Epoch, acc: nat): Snapshots {
    if Ref(snaps, e) > 0 then snaps[e := Snapshot(acc, Ref(snaps, e))] else snaps
  }

  /** What the change to epoch `next` does to the pool of a snapshot validator. */
  function Freeze(p: Pool, next: Epoch): Pool {
    p.(snaps := Refresh(Refresh(p.snaps, next, p.val.acc), next + 1, p.val.acc))
  }
}
