/** Why a call is refused: on lifecycle runs the error names the first thing that is wrong with the call. */
module StakingRefusals {
  import opened Checked
  import opened Ledger
  import opened LedgerInvariant
  import opened TwinLists
  import opened Staking
  import opened StakingInvariant
  import opened StakingLifecycle
  import opened StakingProgress

  /** What is wrong with a call that is not acceptable, by what its caller can see. */
  ghost function Objection(s: State, op: Op): Error {
    match op
    case AddValidator(auth, blsKey, signedStake, commission, value) =>
      if value != signedStake then InvalidInput
      else if value < 100_000 * MON then InsufficientStake
      else if commission > MON then CommissionTooHigh
      else if IdAt(s.secp, auth) != 0 || IdAt(s.bls, blsKey) != 0 then ValidatorExists
      else InvalidInput
    case Delegate(v, _, value) =>
      if !Exists(PoolOf(s, v).val) then UnknownValidator
      else if value < 1_000_000_000 then DelegationTooSmall
      else InvalidInput
    case Undelegate(v, caller, _, wid) =>
      if !Exists(PoolOf(s, v).val) then UnknownValidator
      else if (caller, wid) in PoolOf(s, v).wds then WithdrawalIdExists
      else InsufficientStake
    case Withdraw(v, caller, wid) =>
      if (caller, wid) !in PoolOf(s, v).wds then UnknownWithdrawalId else WithdrawalNotReady
    case ChangeCommission(v, caller, _) =>
      if !Exists(PoolOf(s, v).val) then UnknownValidator
      else if caller != PoolOf(s, v).val.auth then RequiresAuthAddress
      else CommissionTooHigh
    case ExternalReward(v, value) =>
      if !Exists(PoolOf(s, v).val) then UnknownValidator
      else if ActiveStake(s, v) == 0 then NotInValidatorSet
      else if value < 1_000_000_000 then ExternalRewardTooSmall
      else ExternalRewardTooLarge
    case SyscallReward(caller, _, _) => if caller != SYSTEM_ADDRESS then Unauthorized else NotInValidatorSet
    case SyscallSnapshot(caller) => if caller != SYSTEM_ADDRESS then Unauthorized else SnapshotInBoundary
    case SyscallOnEpochChange(caller, _) => if caller != SYSTEM_ADDRESS then Unauthorized else InvalidEpochChange
    case _ => Overflow
  }

  /** The call failed with `e`, unless more value has come in than a word can count. */
  predicate RefusedWith<T>(r: Result<T>, e: Error, value: nat) {
    r.Err? && (r.error == e || (r.error == Overflow && TooMuchValue(value)))
  }

  lemma RequestPresent(s: State, v: ValId, k: (Address, nat))
    requires AllBooks(s)
    ensures HasRequest(PoolOf(s, v), k) <==> k in PoolOf(s, v).wds
  {
    assert Books(PoolOf(s, v), s.epoch, s.inBoundary);
    if k in PoolOf(s, v).wds {
      assert RequestOk(PoolOf(s, v).wds[k], s.epoch, s.inBoundary);
    }
  }

  lemma DelegationRefused(s: State, v: ValId, a: Address, amount: nat)
    requires Books(PoolOf(s, v), s.epoch, s.inBoundary) && Accrues(s, v) && Surplus(s) >= amount
    requires !Listable(v, a)
    ensures RefusedWith(InternalDelegate(s, v, a, amount), InvalidInput, s.credited)
  {
    DelegateWithinCredit(s, v, a, amount);
    InternalDelegateResult(s, v, a, amount);
  }

  lemma AddValidatorRefused(
    s: State, auth: Address, blsKey: Address, signedStake: nat, commission: nat, value: nat)
    requires Sound(s) && AllAccrue(s) && Surplus(s) >= value
    requires !Accepts(s, AddValidator(auth, blsKey, signedStake, commission, value))
    ensures RefusedWith(HandleAddValidator(s, auth, blsKey, signedStake, commission, value),
                        Objection(s, AddValidator(auth, blsKey, signedStake, commission, value)), s.credited)
  {
    if NewValidatorId(s, auth, blsKey, signedStake, commission, value).Ok? {
      var s1 := Registered(s, auth, blsKey, commission);
      RegisteredSound(s, auth, blsKey, commission, s1);
      RegisteredAccrues(s, auth, blsKey, commission, s1);
      assert Books(PoolOf(s1, s1.lastValId), s1.epoch, s1.inBoundary) && Accrues(s1, s1.lastValId);
      DelegationRefused(s1, s1.lastValId, auth, value);
    }
  }

  lemma DelegateRefused(s: State, v: ValId, caller: Address, value: nat)
    requires Sound(s) && AllAccrue(s) && Surplus(s) >= value && !Accepts(s, Delegate(v, caller, value))
    ensures RefusedWith(HandleDelegate(s, v, caller, value), Objection(s, Delegate(v, caller, value)), s.credited)
  {
    if Exists(PoolOf(s, v).val) && value >= DUST_THRESHOLD {
      assert Books(PoolOf(s, v), s.epoch, s.inBoundary) && Accrues(s, v);
      DelegationRefused(s, v, caller, value);
    }
  }

  lemma UndelegatePoolRefused(
    p: Pool, epoch: Epoch, inBoundary: bool, a: Address, amount: nat, wid: nat)
    requires Books(p, epoch, inBoundary)
    requires HasRequest(p, (a, wid)) || amount > EarningAt(p, a, epoch)
    ensures var r := Ledger.Undelegate(p, epoch, inBoundary, a, amount, wid);
            && r.Err?
            && (r.error == (if HasRequest(p, (a, wid)) then WithdrawalIdExists else InsufficientStake)
                || (Pull(p, epoch, a).Err? && r.error == Pull(p, epoch, a).error))
  {
    if Pull(p, epoch, a).Ok? {
      PulledForUndelegation(p, epoch, inBoundary, a, Pull(p, epoch, a).value);
    }
  }

  lemma UndelegateRefused(s: State, v: ValId, caller: Address, amount: nat, wid: nat)
    requires Sound(s) && AllAccrue(s) && Surplus(s) >= 0 && !Accepts(s, Undelegate(v, caller, amount, wid))
    ensures RefusedWith(HandleUndelegate(s, v, caller, amount, wid),
                        Objection(s, Undelegate(v, caller, amount, wid)), s.credited)
  {
    if Exists(PoolOf(s, v).val) {
      assert Books(PoolOf(s, v), s.epoch, s.inBoundary);
      RequestPresent(s, v, (caller, wid));
      PullWithinCredit(s, v, caller);
      UndelegatePoolRefused(PoolOf(s, v), s.epoch, s.inBoundary, caller, amount, wid);
      HandleUndelegateResult(s, v, caller, amount, wid);
    }
  }

  lemma WithdrawRefused(s: State, v: ValId, caller: Address, wid: nat)
    requires Sound(s) && !Accepts(s, Withdraw(v, caller, wid))
    ensures RefusedWith(HandleWithdraw(s, v, caller, wid), Objection(s, Withdraw(v, caller, wid)), s.credited)
  {
    RequestPresent(s, v, (caller, wid));
    HandleWithdrawResult(s, v, caller, wid);
  }

  lemma HandleRefused(s: State, op: Op)
    requires Sound(s) && AllAccrue(s) && Surplus(s) >= ValueOf(op) && !Accepts(s, op)
    ensures RefusedWith(Handle(s, op), Objection(s, op), s.credited)
  {
    match op
    case AddValidator(auth, blsKey, signedStake, commission, value) =>
      AddValidatorRefused(s, auth, blsKey, signedStake, commission, value);
    case Delegate(v, caller, value) => DelegateRefused(s, v, caller, value);
    case Undelegate(v, caller, amount, wid) => UndelegateRefused(s, v, caller, amount, wid);
    case Withdraw(v, caller, wid) => WithdrawRefused(s, v, caller, wid);
    case _ =>
  }

  lemma CreditedObjection(s: State, op: Op)
    ensures Objection(Credited(s, op), op) == Objection(s, op)
    ensures Accepts(Credited(s, op), op) <==> Accepts(s, op)
  {
    CreditedAccepts(s, op);
    assert forall v: ValId :: PoolOf(Credited(s, op), v) == PoolOf(s, v);
  }

  lemma CreditedInOrder(s: State, op: Op)
    requires InOrder(s)
    ensures Sound(Credited(s, op)) && AllAccrue(Credited(s, op)) && Surplus(Credited(s, op)) >= ValueOf(op)
  {
    CreditSound(s, op);
    AccrualSamePools(s, Credited(s, op));
  }

  lemma OutcomeRefused(s: State, op: Op) returns (e: Error)
    requires InOrder(s) && !Accepts(s, op)
    ensures e == Objection(s, op) && RefusedWith(Outcome(s, op), e, s.credited + ValueOf(op))
  {
    CreditedInOrder(s, op);
    CreditedObjection(s, op);
    HandleRefused(Credited(s, op), op);
    e := Objection(s, op);
  }

  /** After any lifecycle run a call that is not acceptable fails with the error for what is wrong with it. */
  lemma RefusedForAReason(ops: seq<Op>, s: State, op: Op) returns (e: Error)
    requires LifecycleRun(GENESIS, ops) && s == Run(GENESIS, ops) && !Accepts(s, op)
    ensures e == Objection(s, op) && RefusedWith(Outcome(s, op), e, s.credited + ValueOf(op))
  {
    LifecycleRunInOrder(ops);
    e := OutcomeRefused(s, op);
  }
}
