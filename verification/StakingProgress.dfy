/**
 * On lifecycle runs a call fails only for a reason its caller can see
 * beforehand: the checks inside the handlers never fire, up to an amount of
 * value that no word can count.
 */
module StakingProgress {
  import opened Checked
  import opened Sums
  import opened Ledger
  import opened LedgerInvariant
  import opened LedgerAccrual
  import opened LedgerOrder
  import opened LedgerProgress
  import opened ValidatorSets
  import opened TwinLists
  import opened Staking
  import opened StakingInvariant
  import opened StakingLifecycle
  import opened StakingOrder
  import opened StakingHistory

  // ----- what a settled delegator has ---------------------------------------

  /** The stake of `a` that earns during epoch `e`. */
  ghost function EarningAt(p: Pool, a: Address, e: Epoch): nat {
    if a in p.dels then Earning(p.dels[a], e) else 0
  }

  lemma TouchEarns(p: Pool, a: Address, e: Epoch)
    ensures Earning(Touch(p, a).dels[a], e) == EarningAt(p, a, e)
  {}

  /** Folding a due window moves no stake into or out of the earning part. */
  lemma CompoundEarns(p: Pool, epoch: Epoch, inBoundary: bool, a: Address, p': Pool)
    requires a in p.dels && AllWindowsOk(p, epoch, inBoundary)
    requires IsEpochActive(epoch, p.dels[a].deltaEpoch) && CompoundStep(p, a) == Ok(p')
    ensures Earning(p'.dels[a], epoch) == Earning(p.dels[a], epoch)
  {
    assert WindowsOk(p.dels[a], epoch, inBoundary);
  }

  lemma AccrueEarns(p: Pool, epoch: Epoch, a: Address, p': Pool)
    requires a in p.dels && AccrueStep(p, a) == Ok(p')
    ensures Earning(p'.dels[a], epoch) == Earning(p.dels[a], epoch)
  {}

  /** After a pull the active stake is exactly what earns in the present epoch. */
  lemma PulledStakeEarns(p: Pool, epoch: Epoch, inBoundary: bool, a: Address, p': Pool)
    requires Books(p, epoch, inBoundary) && Pull(p, epoch, a) == Ok(p')
    ensures p'.dels[a].stake == EarningAt(p, a, epoch)
  {
    PullKeepsBooks(p, epoch, inBoundary, a, p');
    var p0, p1, p2 := PullSteps(p, epoch, a, p');
    var t := Touch(p, a);
    TouchKeepsBooks(p, epoch, inBoundary, a);
    TouchEarns(p, a, epoch);
    PromoteKeepsBooks(t, epoch, inBoundary, a);
    PromotedOwesTheSame(t.dels[a], epoch, inBoundary, p.val.acc, p.snaps, epoch);
    PromotedWindows(t.dels[a], epoch, inBoundary);
    if IsEpochActive(epoch, p0.dels[a].nextDeltaEpoch) {
      CompoundKeepsBooks(p0, epoch, inBoundary, a, p1);
      CompoundEarns(p0, epoch, inBoundary, a, p1);
      CompoundOnlySettles(p0, a, p1);
    }
    if IsEpochActive(epoch, p0.dels[a].deltaEpoch) {
      CompoundEarns(p1, epoch, inBoundary, a, p2);
    }
    AccrueEarns(p2, epoch, a, p');
  }

  // ----- when a call is accepted --------------------------------------------

  /** The conditions under which an operation is meant to go through. */
  ghost predicate Accepts(s: State, op: Op) {
    match op
    case AddValidator(auth, blsKey, signedStake, commission, value) =>
      && value == signedStake && value >= MIN_AUTH_ADDRESS_STAKE && commission <= MAX_COMMISSION
      && IdAt(s.secp, auth) == 0 && IdAt(s.bls, blsKey) == 0
      && Listable(s.lastValId + 1, auth)
    case Delegate(v, caller, value) =>
      Exists(PoolOf(s, v).val) && (value == 0 || (value >= DUST_THRESHOLD && Listable(v, caller)))
    case Undelegate(v, caller, amount, wid) =>
      || amount == 0
      || (&& Exists(PoolOf(s, v).val) && !HasRequest(PoolOf(s, v), (caller, wid))
          && amount <= EarningAt(PoolOf(s, v), caller, s.epoch))
    case Withdraw(v, caller, wid) =>
      && HasRequest(PoolOf(s, v), (caller, wid))
      && PoolOf(s, v).wds[(caller, wid)].epoch + WITHDRAWAL_DELAY <= s.epoch
    case Compound(_, _) => true
    case ClaimRewards(_, _) => true
    case ChangeCommission(v, caller, commission) =>
      Exists(PoolOf(s, v).val) && caller == PoolOf(s, v).val.auth && commission <= MAX_COMMISSION
    case ExternalReward(v, value) =>
      && Exists(PoolOf(s, v).val) && ActiveStake(s, v) > 0
      && MIN_EXTERNAL_REWARD <= value <= MAX_EXTERNAL_REWARD
    case GetDelegator(_, _) => true
    case SyscallReward(caller, author, _) =>
      caller == SYSTEM_ADDRESS && IdAt(s.secp, author) != 0 && ActiveStake(s, IdAt(s.secp, author)) > 0
    case SyscallSnapshot(caller) => caller == SYSTEM_ADDRESS && !s.inBoundary
    case SyscallOnEpochChange(caller, next) => caller == SYSTEM_ADDRESS && next > s.epoch
  }

  // ----- bounds --------------------------------------------------------------

  predicate TooMuchValue(value: nat) {
    UNIT_BIAS * value > U256_MAX
  }

  lemma PoolWithinCredit(s: State, v: ValId)
    ensures Liabilities(PoolOf(s, v)) + Surplus(s) <= s.credited - s.paid
  {
    forall u | u in s.pools
      ensures Liabilities(s.pools[u]) >= 0
    {
      LiabilitiesNonNegative(s.pools[u]);
    }
    if v in s.pools {
      SumMember(LiabilitiesOf(s.pools), v);
    } else {
      EmptyPoolBooks(s.epoch, s.inBoundary);
      SumNonNegative(LiabilitiesOf(s.pools));
    }
  }

  /** The errors of the checks a handler makes on its own arithmetic and funds, an overflow aside. */
  predicate Internal(e: Error) {
    e == SolvencyError || e == Underflow || e == DivisionByZero || e == TransferFailed
  }

  /** What a failed call inside a sound pool comes down to. */
  predicate OverflowOf<T>(r: Result<T>, value: int) {
    r.Err? ==> r.error == Overflow && UNIT_BIAS * value > U256_MAX
  }

  /**
   * `r` is a success whenever the call is acceptable and only then, up to a
   * word overflow; and whether it is or not, no check inside the handler fails.
   */
  predicate Faultless<T>(r: Result<T>, accepted: bool, value: int) {
    && (r.Ok? ==> accepted)
    && (accepted ==> OverflowOf(r, value))
    && (r.Err? ==> !Internal(r.error))
  }

  lemma PullOverflows(p: Pool, epoch: Epoch, inBoundary: bool, active: nat, next: nat, a: Address)
    requires Books(p, epoch, inBoundary) && Accrual(p, epoch, inBoundary, active, next)
    ensures OverflowOf(Pull(p, epoch, a), Liabilities(p))
  {
    if Pull(p, epoch, a).Err? {
      PullSucceeds(p, epoch, inBoundary, active, next, a);
    }
  }

  lemma DelegateOverflows(
    p: Pool, epoch: Epoch, inBoundary: bool, active: nat, next: nat, a: Address, amount: nat)
    requires Books(p, epoch, inBoundary) && Accrual(p, epoch, inBoundary, active, next)
    ensures OverflowOf(Ledger.Delegate(p, epoch, inBoundary, a, amount), Liabilities(p) + amount)
  {
    PullOverflows(p, epoch, inBoundary, active, next, a);
    if Pull(p, epoch, a).Ok? {
      var p1 := Pull(p, epoch, a).value;
      PullKeepsBooks(p, epoch, inBoundary, a, p1);
      if AddToWindow(p1, epoch, inBoundary, a, amount).Err? {
        AddToWindowSucceeds(p1, epoch, inBoundary, a, amount);
      }
    }
  }

  /** Past the pull, an undelegation fails only for the two checks it makes. */
  lemma UndelegatePulled(
    p: Pool, epoch: Epoch, inBoundary: bool, a: Address, amount: nat, wid: nat, p1: Pool)
    requires Pull(p, epoch, a) == Ok(p1) && a in p1.dels && StakeExact(p1)
    ensures var r := Ledger.Undelegate(p, epoch, inBoundary, a, amount, wid);
            && (r.Ok? <==> !HasRequest(p, (a, wid)) && amount <= p1.dels[a].stake)
            && (r.Err? ==> r.error == WithdrawalIdExists || r.error == InsufficientStake)
  {
    var stake := p1.dels[a].stake;
    if amount <= stake {
      OpenWithdrawalSucceeds(p1, epoch, inBoundary, a, wid, CollectDust(stake, amount));
    }
  }

  lemma UndelegateUnpulled(
    p: Pool, epoch: Epoch, inBoundary: bool, a: Address, amount: nat, wid: nat, accepted: bool, value: int)
    requires Pull(p, epoch, a).Err? && OverflowOf(Pull(p, epoch, a), value)
    requires accepted ==> !HasRequest(p, (a, wid))
    ensures Faultless(Ledger.Undelegate(p, epoch, inBoundary, a, amount, wid), accepted, value)
  {}

  lemma PulledForUndelegation(p: Pool, epoch: Epoch, inBoundary: bool, a: Address, p1: Pool)
    requires Books(p, epoch, inBoundary) && Pull(p, epoch, a) == Ok(p1)
    ensures a in p1.dels && StakeExact(p1) && p1.dels[a].stake == EarningAt(p, a, epoch)
  {
    PullKeepsBooks(p, epoch, inBoundary, a, p1);
    PulledStakeEarns(p, epoch, inBoundary, a, p1);
  }

  lemma UndelegateOverflows(
    p: Pool, epoch: Epoch, inBoundary: bool, active: nat, next: nat, a: Address, amount: nat, wid: nat)
    requires Books(p, epoch, inBoundary) && Accrual(p, epoch, inBoundary, active, next)
    ensures Faultless(Ledger.Undelegate(p, epoch, inBoundary, a, amount, wid),
                      !HasRequest(p, (a, wid)) && amount <= EarningAt(p, a, epoch), Liabilities(p))
  {
    var pulled := Pull(p, epoch, a);
    PullOverflows(p, epoch, inBoundary, active, next, a);
    if pulled.Ok? {
      PulledForUndelegation(p, epoch, inBoundary, a, pulled.value);
      UndelegatePulled(p, epoch, inBoundary, a, amount, wid, pulled.value);
    } else {
      UndelegateUnpulled(p, epoch, inBoundary, a, amount, wid,
                         !HasRequest(p, (a, wid)) && amount <= EarningAt(p, a, epoch), Liabilities(p));
    }
  }

  // ----- handlers ------------------------------------------------------------

  lemma PullWithinCredit(s: State, v: ValId, a: Address)
    requires Sound(s) && AllAccrue(s) && Surplus(s) >= 0
    ensures OverflowOf(Pull(PoolOf(s, v), s.epoch, a), s.credited)
  {
    assert Books(PoolOf(s, v), s.epoch, s.inBoundary) && Accrues(s, v);
    PoolWithinCredit(s, v);
    PullOverflows(PoolOf(s, v), s.epoch, s.inBoundary, ActiveStake(s, v), NextStake(s, v), a);
  }

  lemma DelegateWithinCredit(s: State, v: ValId, a: Address, amount: nat)
    requires Books(PoolOf(s, v), s.epoch, s.inBoundary) && Accrues(s, v) && Surplus(s) >= amount
    ensures OverflowOf(Ledger.Delegate(PoolOf(s, v), s.epoch, s.inBoundary, a, amount), s.credited)
  {
    PoolWithinCredit(s, v);
    DelegateOverflows(PoolOf(s, v), s.epoch, s.inBoundary, ActiveStake(s, v), NextStake(s, v), a, amount);
  }

  lemma InternalDelegateResult(s: State, v: ValId, a: Address, amount: nat)
    ensures var r := InternalDelegate(s, v, a, amount);
            var p := Ledger.Delegate(PoolOf(s, v), s.epoch, s.inBoundary, a, amount);
            if p.Err? then r == Err(p.error) else if Listable(v, a) then r.Ok? else r == Err(InvalidInput)
  {}

  lemma InternalDelegateProgress(s: State, v: ValId, a: Address, amount: nat)
    requires Books(PoolOf(s, v), s.epoch, s.inBoundary) && Accrues(s, v) && Surplus(s) >= amount
    ensures Faultless(InternalDelegate(s, v, a, amount), Listable(v, a), s.credited)
  {
    DelegateWithinCredit(s, v, a, amount);
    InternalDelegateResult(s, v, a, amount);
  }

  lemma HandleDelegateProgress(s: State, v: ValId, caller: Address, value: nat)
    requires Sound(s) && AllAccrue(s) && Surplus(s) >= value
    ensures Faultless(HandleDelegate(s, v, caller, value), Accepts(s, Delegate(v, caller, value)), s.credited)
  {
    assert Books(PoolOf(s, v), s.epoch, s.inBoundary) && Accrues(s, v);
    InternalDelegateProgress(s, v, caller, value);
  }

  lemma HandleUndelegateResult(s: State, v: ValId, caller: Address, amount: nat, wid: nat)
    requires amount != 0 && Exists(PoolOf(s, v).val)
    ensures var r := HandleUndelegate(s, v, caller, amount, wid);
            var p := Ledger.Undelegate(PoolOf(s, v), s.epoch, s.inBoundary, caller, amount, wid);
            if p.Ok? then r.Ok? else r == Err(p.error)
  {}

  lemma HandleUndelegateProgress(s: State, v: ValId, caller: Address, amount: nat, wid: nat)
    requires Sound(s) && AllAccrue(s) && Surplus(s) >= 0
    ensures Faultless(HandleUndelegate(s, v, caller, amount, wid),
                      Accepts(s, Undelegate(v, caller, amount, wid)), s.credited)
  {
    if amount != 0 && Exists(PoolOf(s, v).val) {
      assert Books(PoolOf(s, v), s.epoch, s.inBoundary) && Accrues(s, v);
      PoolWithinCredit(s, v);
      UndelegateOverflows(PoolOf(s, v), s.epoch, s.inBoundary, ActiveStake(s, v), NextStake(s, v),
                          caller, amount, wid);
      HandleUndelegateResult(s, v, caller, amount, wid);
    }
  }

  lemma WithdrawOverflows(
    p: Pool, epoch: Epoch, inBoundary: bool, active: nat, next: nat, a: Address, wid: nat)
    requires Books(p, epoch, inBoundary) && Accrual(p, epoch, inBoundary, active, next)
    ensures var r := Ledger.Withdraw(p, epoch, a, wid);
            var due := HasRequest(p, (a, wid)) && p.wds[(a, wid)].epoch + WITHDRAWAL_DELAY <= epoch;
            Faultless(r, due, Liabilities(p)) && (r.Ok? ==> r.value.1 <= Liabilities(p))
  {
    var k := (a, wid);
    if HasRequest(p, k) && p.wds[k].epoch + WITHDRAWAL_DELAY <= epoch {
      if Ledger.Withdraw(p, epoch, a, wid).Err? {
        WithdrawSucceeds(p, epoch, inBoundary, active, next, a, wid);
      } else {
        var (p', rewards) := CloseWithdrawal(p, k).value;
        CloseWithdrawalPays(p, k, p', rewards);
      }
    }
  }

  lemma HandleWithdrawResult(s: State, v: ValId, caller: Address, wid: nat)
    ensures var r := HandleWithdraw(s, v, caller, wid);
            var p := Ledger.Withdraw(PoolOf(s, v), s.epoch, caller, wid);
            if p.Ok? then (s.paid + p.value.1 <= s.credited ==> r.Ok?) else r == Err(p.error)
  {}

  lemma HandleWithdrawProgress(s: State, v: ValId, caller: Address, wid: nat)
    requires Sound(s) && AllAccrue(s) && Surplus(s) >= 0
    ensures Faultless(HandleWithdraw(s, v, caller, wid), Accepts(s, Withdraw(v, caller, wid)), s.credited)
  {
    assert Books(PoolOf(s, v), s.epoch, s.inBoundary) && Accrues(s, v);
    PoolWithinCredit(s, v);
    WithdrawOverflows(PoolOf(s, v), s.epoch, s.inBoundary, ActiveStake(s, v), NextStake(s, v), caller, wid);
    HandleWithdrawResult(s, v, caller, wid);
  }

  lemma RewardsWithin(p: Pool, a: Address)
    requires a in p.dels
    ensures p.dels[a].rewards <= Liabilities(p)
  {
    SumMember(RewardsOf(p.dels), a);
    SumNonNegative(Amounts(p.wds));
  }

  lemma HandleClaimRewardsResult(s: State, v: ValId, caller: Address)
    ensures var r := HandleClaimRewards(s, v, caller);
            var p := Pull(PoolOf(s, v), s.epoch, caller);
            if p.Ok? then (s.paid + p.value.dels[caller].rewards <= s.credited ==> r.Ok?) else r == Err(p.error)
  {}

  /** What a settled delegator is credited with can be paid. */
  lemma RewardsPayable(s: State, v: ValId, a: Address, p: Pool)
    requires Sound(s) && Surplus(s) >= 0 && Pull(PoolOf(s, v), s.epoch, a) == Ok(p)
    ensures a in p.dels && s.paid + p.dels[a].rewards <= s.credited
  {
    assert Books(PoolOf(s, v), s.epoch, s.inBoundary);
    PoolWithinCredit(s, v);
    PullKeepsBooks(PoolOf(s, v), s.epoch, s.inBoundary, a, p);
    RewardsWithin(p, a);
  }

  lemma HandleClaimRewardsProgress(s: State, v: ValId, caller: Address)
    requires Sound(s) && AllAccrue(s) && Surplus(s) >= 0
    ensures Faultless(HandleClaimRewards(s, v, caller), true, s.credited)
  {
    PullWithinCredit(s, v, caller);
    HandleClaimRewardsResult(s, v, caller);
    var p := Pull(PoolOf(s, v), s.epoch, caller);
    if p.Ok? {
      RewardsPayable(s, v, caller, p.value);
    }
  }

  lemma HandleGetDelegatorResult(s: State, v: ValId, delegator: Address)
    ensures var r := HandleGetDelegator(s, v, delegator);
            var p := Pull(PoolOf(s, v), s.epoch, delegator);
            if p.Ok? then r.Ok? else r == Err(p.error)
  {}

  lemma HandleGetDelegatorProgress(s: State, v: ValId, delegator: Address)
    requires Sound(s) && AllAccrue(s) && Surplus(s) >= 0
    ensures Faultless(HandleGetDelegator(s, v, delegator), true, s.credited)
  {
    PullWithinCredit(s, v, delegator);
    HandleGetDelegatorResult(s, v, delegator);
  }

  lemma HandleCompoundResult(s: State, v: ValId, caller: Address)
    ensures var r := HandleCompound(s, v, caller);
            var p := Pull(PoolOf(s, v), s.epoch, caller);
            && (p.Err? ==> r == Err(p.error))
            && (p.Ok? && p.value.dels[caller].rewards == 0 ==> r.Ok?)
            && (p.Ok? && p.value.dels[caller].rewards > 0 ==>
                  r == InternalDelegate(WithPool(s, v, ClearRewards(p.value, caller)), v, caller,
                                        p.value.dels[caller].rewards))
  {}

  /** The cleared rewards are value the contract holds for nobody, until they are delegated. */
  lemma CompoundedDelegation(s: State, v: ValId, a: Address, p: Pool, s1: State)
    requires Sound(s) && AllAccrue(s) && Surplus(s) >= 0
    requires Pull(PoolOf(s, v), s.epoch, a) == Ok(p) && a in p.dels && p.dels[a].rewards > 0
    requires s1 == WithPool(s, v, ClearRewards(p, a))
    ensures Faultless(InternalDelegate(s1, v, a, p.dels[a].rewards), Listable(v, a), s.credited)
  {
    PulledAndCleared(s, v, a, p, s1);
    ClearedAccrues(s, v, a, p, s1);
    assert Books(PoolOf(s1, v), s1.epoch, s1.inBoundary) && Accrues(s1, v);
    InternalDelegateProgress(s1, v, a, p.dels[a].rewards);
  }

  /** Whoever has rewards to compound may be listed. */
  lemma RewardedListable(s: State, v: ValId, a: Address, p: Pool)
    requires Sound(s) && AllOrdered(s) && Pull(PoolOf(s, v), s.epoch, a) == Ok(p)
    requires a in p.dels && p.dels[a].rewards > 0
    ensures Listable(v, a)
  {
    PulledOrdered(s, v, a, p);
    assert OrderedAt(WithPool(s, v, p), v);
    assert HasAnything(p.dels[a]);
  }

  lemma HandleCompoundPulled(s: State, v: ValId, caller: Address, p: Pool)
    requires Sound(s) && AllAccrue(s) && AllOrdered(s) && Surplus(s) >= 0
    requires Pull(PoolOf(s, v), s.epoch, caller) == Ok(p) && caller in p.dels
    ensures Faultless(HandleCompound(s, v, caller), true, s.credited)
  {
    HandleCompoundResult(s, v, caller);
    if p.dels[caller].rewards > 0 {
      RewardedListable(s, v, caller, p);
      CompoundedDelegation(s, v, caller, p, WithPool(s, v, ClearRewards(p, caller)));
    }
  }

  lemma HandleCompoundUnpulled(s: State, v: ValId, caller: Address)
    requires Sound(s) && AllAccrue(s) && Surplus(s) >= 0 && Pull(PoolOf(s, v), s.epoch, caller).Err?
    ensures Faultless(HandleCompound(s, v, caller), true, s.credited)
  {
    PullWithinCredit(s, v, caller);
    HandleCompoundResult(s, v, caller);
  }

  lemma HandleCompoundProgress(s: State, v: ValId, caller: Address)
    requires Sound(s) && AllAccrue(s) && AllOrdered(s) && Surplus(s) >= 0
    ensures Faultless(HandleCompound(s, v, caller), true, s.credited)
  {
    var p := Pull(PoolOf(s, v), s.epoch, caller);
    if p.Ok? {
      HandleCompoundPulled(s, v, caller, p.value);
    } else {
      HandleCompoundUnpulled(s, v, caller);
    }
  }

  lemma HandleChangeCommissionProgress(s: State, v: ValId, caller: Address, commission: nat)
    ensures Faultless(HandleChangeCommission(s, v, caller, commission),
                      Accepts(s, ChangeCommission(v, caller, commission)), s.credited)
  {}

  // ----- rewards, validators, epochs -----------------------------------------

  /** The accumulator after a reward of `value` that is already counted as credited. */
  predicate RoomFor(s: State, v: ValId, value: nat) {
    PoolOf(s, v).val.acc + UNIT_BIAS * value <= UNIT_BIAS * s.credited
  }

  lemma DistributeOverflows(p: Pool, amount: nat, active: nat, credited: nat)
    requires StakeExact(p) && active > 0
    requires p.val.acc + UNIT_BIAS * amount <= UNIT_BIAS * credited && Liabilities(p) + amount <= credited
    ensures OverflowOf(Distribute(p, amount, active), credited)
  {
    UnclaimedWithinLiabilities(p);
    if Distribute(p, amount, active).Err? {
      DistributeSucceeds(p, amount, active);
    }
  }

  lemma HandleExternalRewardResult(s: State, v: ValId, value: nat)
    requires Accepts(s, ExternalReward(v, value))
    ensures var r := HandleExternalReward(s, v, value);
            var p := Distribute(PoolOf(s, v), value, ActiveStake(s, v));
            if p.Ok? then r.Ok? else r == Err(p.error)
  {}

  lemma HandleExternalRewardProgress(s: State, v: ValId, value: nat)
    requires Sound(s) && Surplus(s) >= value && RoomFor(s, v, value)
    ensures Faultless(HandleExternalReward(s, v, value), Accepts(s, ExternalReward(v, value)), s.credited)
  {
    if Accepts(s, ExternalReward(v, value)) {
      assert Books(PoolOf(s, v), s.epoch, s.inBoundary);
      PoolWithinCredit(s, v);
      DistributeOverflows(PoolOf(s, v), value, ActiveStake(s, v), s.credited);
      HandleExternalRewardResult(s, v, value);
    }
  }

  lemma BlockRewardOverflows(
    p: Pool, epoch: Epoch, inBoundary: bool, reward: nat, rate: nat, active: nat, credited: nat)
    requires Books(p, epoch, inBoundary) && active > 0 && rate <= MAX_COMMISSION
    requires p.val.acc + UNIT_BIAS * reward <= UNIT_BIAS * credited && Liabilities(p) + reward <= credited
    ensures OverflowOf(BlockReward(p, reward, rate, active), credited)
  {
    if BlockReward(p, reward, rate, active).Err? {
      BlockRewardSucceeds(p, epoch, inBoundary, reward, rate, active);
    }
  }

  lemma ActiveCommission(s: State, v: ValId)
    requires SetsOk(s.sets) && ActiveStake(s, v) > 0
    ensures ActiveView(s, v).commission <= MAX_COMMISSION
  {
    var views := if s.inBoundary then s.sets.snapshotView else s.sets.consensusView;
    assert v in views;
  }

  lemma HandleSyscallRewardResult(s: State, caller: Address, author: Address, reward: nat)
    requires Accepts(s, SyscallReward(caller, author, reward))
    ensures var r := HandleSyscallReward(s, caller, author, reward);
            var v := IdAt(s.secp, author);
            var p := BlockReward(PoolOf(s, v), reward, ActiveView(s, v).commission, ActiveStake(s, v));
            if p.Ok? then r.Ok? else r == Err(p.error)
  {}

  lemma HandleSyscallRewardRefused(s: State, caller: Address, author: Address, reward: nat)
    requires !Accepts(s, SyscallReward(caller, author, reward))
    ensures Faultless(HandleSyscallReward(s, caller, author, reward), false, s.credited)
  {}

  lemma BlockRewardWithinCredit(s: State, v: ValId, reward: nat)
    requires Sound(s) && Surplus(s) >= reward && RoomFor(s, v, reward) && ActiveStake(s, v) > 0
    ensures OverflowOf(BlockReward(PoolOf(s, v), reward, ActiveView(s, v).commission, ActiveStake(s, v)), s.credited)
  {
    assert Books(PoolOf(s, v), s.epoch, s.inBoundary);
    PoolWithinCredit(s, v);
    ActiveCommission(s, v);
    BlockRewardOverflows(PoolOf(s, v), s.epoch, s.inBoundary, reward, ActiveView(s, v).commission,
                         ActiveStake(s, v), s.credited);
  }

  lemma HandleSyscallRewardProgress(s: State, caller: Address, author: Address, reward: nat)
    requires Sound(s) && Surplus(s) >= reward && RoomFor(s, IdAt(s.secp, author), reward)
    ensures Faultless(HandleSyscallReward(s, caller, author, reward),
                      Accepts(s, SyscallReward(caller, author, reward)), s.credited)
  {
    if Accepts(s, SyscallReward(caller, author, reward)) {
      BlockRewardWithinCredit(s, IdAt(s.secp, author), reward);
      HandleSyscallRewardResult(s, caller, author, reward);
    } else {
      HandleSyscallRewardRefused(s, caller, author, reward);
    }
  }

  lemma HandleAddValidatorResult(
    s: State, auth: Address, blsKey: Address, signedStake: nat, commission: nat, value: nat)
    requires NewValidatorId(s, auth, blsKey, signedStake, commission, value).Ok?
    ensures HandleAddValidator(s, auth, blsKey, signedStake, commission, value)
            == InternalDelegate(Registered(s, auth, blsKey, commission), s.lastValId + 1, auth, value)
  {}

  lemma NewValidatorAccepted(
    s: State, auth: Address, blsKey: Address, signedStake: nat, commission: nat, value: nat)
    ensures NewValidatorId(s, auth, blsKey, signedStake, commission, value).Ok?
            && Listable(s.lastValId + 1, auth)
            <==> Accepts(s, AddValidator(auth, blsKey, signedStake, commission, value))
  {}

  lemma FirstDelegationProgress(
    s: State, auth: Address, blsKey: Address, commission: nat, value: nat, s1: State)
    requires Sound(s) && AllAccrue(s) && Surplus(s) >= value && s1 == Registered(s, auth, blsKey, commission)
    ensures Faultless(InternalDelegate(s1, s.lastValId + 1, auth, value), Listable(s.lastValId + 1, auth), s.credited)
  {
    var v := s.lastValId + 1;
    RegisteredSound(s, auth, blsKey, commission, s1);
    RegisteredAccrues(s, auth, blsKey, commission, s1);
    assert Books(PoolOf(s1, v), s1.epoch, s1.inBoundary) && Accrues(s1, v);
    InternalDelegateProgress(s1, v, auth, value);
  }

  lemma HandleAddValidatorProgress(
    s: State, auth: Address, blsKey: Address, signedStake: nat, commission: nat, value: nat)
    requires Sound(s) && AllAccrue(s) && Surplus(s) >= value
    ensures Faultless(HandleAddValidator(s, auth, blsKey, signedStake, commission, value),
                      Accepts(s, AddValidator(auth, blsKey, signedStake, commission, value)), s.credited)
  {
    NewValidatorAccepted(s, auth, blsKey, signedStake, commission, value);
    if NewValidatorId(s, auth, blsKey, signedStake, commission, value).Ok? {
      HandleAddValidatorResult(s, auth, blsKey, signedStake, commission, value);
      FirstDelegationProgress(s, auth, blsKey, commission, value, Registered(s, auth, blsKey, commission));
    }
  }

  // ----- every reachable call ------------------------------------------------

  lemma CreditedAccepts(s: State, op: Op)
    ensures Accepts(Credited(s, op), op) <==> Accepts(s, op)
  {
    assert forall v: ValId :: PoolOf(Credited(s, op), v) == PoolOf(s, v);
  }

  lemma HandleProgress(s: State, op: Op)
    requires Sound(s) && AllAccrue(s) && AllOrdered(s) && Surplus(s) >= ValueOf(op)
    requires forall v: ValId :: RoomFor(s, v, ValueOf(op))
    ensures Faultless(Handle(s, op), Accepts(s, op), s.credited)
  {
    match op
    case AddValidator(auth, blsKey, signedStake, commission, value) =>
      HandleAddValidatorProgress(s, auth, blsKey, signedStake, commission, value);
    case Delegate(v, caller, value) => HandleDelegateProgress(s, v, caller, value);
    case Undelegate(v, caller, amount, wid) => HandleUndelegateProgress(s, v, caller, amount, wid);
    case Withdraw(v, caller, wid) => HandleWithdrawProgress(s, v, caller, wid);
    case Compound(v, caller) => HandleCompoundProgress(s, v, caller);
    case ClaimRewards(v, caller) => HandleClaimRewardsProgress(s, v, caller);
    case ChangeCommission(v, caller, commission) => HandleChangeCommissionProgress(s, v, caller, commission);
    case ExternalReward(v, value) => HandleExternalRewardProgress(s, v, value);
    case GetDelegator(v, delegator) => HandleGetDelegatorProgress(s, v, delegator);
    case SyscallReward(caller, author, reward) => HandleSyscallRewardProgress(s, caller, author, reward);
    case SyscallSnapshot(_) =>
    case SyscallOnEpochChange(_, _) =>
  }

  /** What every state of a lifecycle run satisfies. */
  ghost predicate InOrder(s: State) {
    Sound(s) && AllAccrue(s) && AllOrdered(s) && AccBounded(s) && Surplus(s) == 0
  }

  lemma OutcomeProgress(s: State, op: Op)
    requires InOrder(s)
    ensures Faultless(Outcome(s, op), Accepts(s, op), s.credited + ValueOf(op))
  {
    var c := Credited(s, op);
    CreditSound(s, op);
    AccrualSamePools(s, c);
    SamePoolsOrdered(s, c);
    CreditedAccepts(s, op);
    forall v: ValId
      ensures RoomFor(c, v, ValueOf(op))
    {
      assert PoolOf(c, v) == PoolOf(s, v);
    }
    HandleProgress(c, op);
  }

  lemma LifecycleRunInOrder(ops: seq<Op>)
    requires LifecycleRun(GENESIS, ops)
    ensures InOrder(Run(GENESIS, ops))
  {
    RunSound(ops);
    LifecycleRunAccrues(ops);
    RunOrdered(ops);
    RunBounded(ops);
  }

  lemma InOrderStep(s: State, op: Op, s': State)
    requires InOrder(s) && InLifecycle(s, op) && s' == Step(s, op)
    ensures InOrder(s')
  {
    StepSound(s, op, s');
    StepAccrues(s, op, s');
    StepOrdered(s, op, s');
    StepFollows(s, op, s');
  }

  /**
   * After any lifecycle run a call goes through exactly when `Accepts` says it
   * should.  The only other way to fail is a word overflow, and that takes more
   * value than `U256_MAX / UNIT_BIAS`.  In no call, acceptable or refused, does
   * a solvency check, a subtraction, a division or a transfer fail.
   */
  lemma CallsSucceed(ops: seq<Op>, s: State, op: Op)
    requires LifecycleRun(GENESIS, ops) && s == Run(GENESIS, ops)
    ensures Faultless(Outcome(s, op), Accepts(s, op), s.credited + ValueOf(op))
  {
    LifecycleRunInOrder(ops);
    OutcomeProgress(s, op);
  }

  lemma DueRequest(p: Pool, epoch: Epoch, inBoundary: bool, k: (Address, nat))
    requires Books(p, epoch, inBoundary) && k in p.wds
    ensures HasRequest(p, k) && Ref(p.snaps, p.wds[k].epoch) > 0
  {
    assert RequestOk(p.wds[k], epoch, inBoundary);
    RequestReferenced(p, k, p.wds[k].epoch);
  }

  /** What the payment of request `k` at validator `v` changes. */
  predicate PaidOut(s: State, s': State, v: ValId, k: (Address, nat)) {
    && k in PoolOf(s, v).wds
    && var w := PoolOf(s, v).wds[k];
    && var frozen := Value(PoolOf(s, v).snaps, w.epoch);
    && w.acc <= frozen
    && s'.paid == s.paid + w.amount + (frozen - w.acc) * w.amount / UNIT_BIAS
    && k !in PoolOf(s', v).wds
  }

  lemma WithdrawPaysOut(s: State, v: ValId, a: Address, wid: nat, s': State)
    requires HandleWithdraw(s, v, a, wid) == Ok(s')
    requires (a, wid) in PoolOf(s, v).wds && Ref(PoolOf(s, v).snaps, PoolOf(s, v).wds[(a, wid)].epoch) > 0
    ensures PaidOut(s, s', v, (a, wid))
  {
    var p, rewards := WithdrawSteps(s, v, a, wid, s');
    CloseWithdrawalCloses(PoolOf(s, v), (a, wid), p, rewards);
  }

  lemma DueRequestAccepted(s: State, v: ValId, a: Address, wid: nat)
    requires AllBooks(s) && (a, wid) in PoolOf(s, v).wds && PoolOf(s, v).wds[(a, wid)].epoch < s.epoch
    ensures Accepts(s, Withdraw(v, a, wid))
    ensures Ref(PoolOf(s, v).snaps, PoolOf(s, v).wds[(a, wid)].epoch) > 0
  {
    assert Books(PoolOf(s, v), s.epoch, s.inBoundary);
    DueRequest(PoolOf(s, v), s.epoch, s.inBoundary, (a, wid));
  }

  lemma WithdrawGoesThrough(s: State, v: ValId, a: Address, wid: nat)
    requires Faultless(Outcome(s, Withdraw(v, a, wid)), true, s.credited) && !TooMuchValue(s.credited)
    ensures HandleWithdraw(s, v, a, wid) == Ok(Step(s, Withdraw(v, a, wid)))
  {
    assert Credited(s, Withdraw(v, a, wid)) == s;
  }

  /** A withdrawal request that is due is paid: its amount, and what it earned until its epoch. */
  lemma DueWithdrawalIsPaid(ops: seq<Op>, s: State, v: ValId, a: Address, wid: nat)
    requires LifecycleRun(GENESIS, ops) && s == Run(GENESIS, ops) && !TooMuchValue(s.credited)
    requires (a, wid) in PoolOf(s, v).wds && PoolOf(s, v).wds[(a, wid)].epoch < s.epoch
    ensures PaidOut(s, Step(s, Withdraw(v, a, wid)), v, (a, wid))
  {
    LifecycleRunInOrder(ops);
    DueRequestAccepted(s, v, a, wid);
    OutcomeProgress(s, Withdraw(v, a, wid));
    WithdrawGoesThrough(s, v, a, wid);
    WithdrawPaysOut(s, v, a, wid, Step(s, Withdraw(v, a, wid)));
  }
}
