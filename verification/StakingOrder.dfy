/**
 * Over every run, whatever its epochs, each pool keeps its snapshots in epoch
 * order and its reward cursors behind the accumulator, and nobody who may not
 * be listed has stake or rewards.
 */
module StakingOrder {
  import opened Checked
  import opened Ledger
  import opened LedgerInvariant
  import opened LedgerOrder
  import opened TwinLists
  import opened Staking
  import opened StakingInvariant
  import opened StakingLifecycle

  ghost predicate OrderedAt(s: State, v: ValId) {
    Ordered(PoolOf(s, v)) && Entitled(PoolOf(s, v), v)
  }

  ghost predicate AllOrdered(s: State) {
    forall v: ValId :: OrderedAt(s, v)
  }

  lemma GenesisOrdered()
    ensures AllOrdered(GENESIS)
  {
    assert forall v: ValId :: PoolOf(GENESIS, v) == EMPTY_POOL;
  }

  lemma OnePoolOrdered(s: State, v: ValId, p: Pool, s': State)
    requires AllOrdered(s) && s'.pools == s.pools[v := p]
    requires Ordered(p) && Entitled(p, v)
    ensures AllOrdered(s')
  {
    forall u: ValId
      ensures OrderedAt(s', u)
    {
      assert OrderedAt(s, u);
      assert u != v ==> PoolOf(s', u) == PoolOf(s, u);
    }
  }

  lemma SamePoolsOrdered(s: State, s': State)
    requires AllOrdered(s) && s'.pools == s.pools
    ensures AllOrdered(s')
  {
    forall u: ValId
      ensures OrderedAt(s', u)
    {
      assert OrderedAt(s, u) && PoolOf(s', u) == PoolOf(s, u);
    }
  }

  // ----- handlers -----------------------------------------------------------------

  lemma DelegatePoolOrdered(
    p: Pool, epoch: Epoch, inBoundary: bool, v: ValId, a: Address, amount: nat, p': Pool)
    requires Books(p, epoch, inBoundary) && Ordered(p) && Entitled(p, v) && Listable(v, a) && amount > 0
    requires Ledger.Delegate(p, epoch, inBoundary, a, amount) == Ok(p')
    ensures Ordered(p') && Entitled(p', v)
  {
    var p1 := DelegatePool(p, epoch, inBoundary, a, amount, p');
    PullKeepsOrder(p, epoch, inBoundary, v, a, p1);
    AddToWindowJoins(p1, epoch, inBoundary, a, amount, p');
    JoinedKeepsOrder(p1, epoch, inBoundary, v, a, amount, p');
  }

  lemma InternalDelegateOrdered(s: State, v: ValId, a: Address, amount: nat, s': State)
    requires AllBooks(s) && AllOrdered(s) && amount > 0 && InternalDelegate(s, v, a, amount) == Ok(s')
    ensures AllOrdered(s') && Listable(v, a)
  {
    var p := InternalDelegateSteps(s, v, a, amount, s');
    assert Books(PoolOf(s, v), s.epoch, s.inBoundary) && OrderedAt(s, v);
    DelegatePoolOrdered(PoolOf(s, v), s.epoch, s.inBoundary, v, a, amount, p);
    OnePoolOrdered(s, v, p, s');
  }

  lemma UndelegatePoolOrdered(
    p: Pool, epoch: Epoch, inBoundary: bool, v: ValId, a: Address, amount: nat, wid: nat, p': Pool)
    requires Books(p, epoch, inBoundary) && Ordered(p) && Entitled(p, v) && amount > 0
    requires Ledger.Undelegate(p, epoch, inBoundary, a, amount, wid) == Ok(p')
    ensures Ordered(p') && Entitled(p', v)
  {
    var p1, taken := UndelegatePool(p, epoch, inBoundary, a, amount, wid, p');
    PullKeepsOrder(p, epoch, inBoundary, v, a, p1);
    OpenWithdrawalOpens(p1, epoch, inBoundary, a, wid, taken, p');
    OpenedKeepsOrder(p1, epoch, inBoundary, v, (a, wid), taken, p');
  }

  lemma UndelegateOrdered(s: State, v: ValId, caller: Address, amount: nat, wid: nat, s': State)
    requires AllBooks(s) && AllOrdered(s) && HandleUndelegate(s, v, caller, amount, wid) == Ok(s')
    ensures AllOrdered(s')
  {
    if amount != 0 {
      var p := HandleUndelegateSteps(s, v, caller, amount, wid, s');
      assert Books(PoolOf(s, v), s.epoch, s.inBoundary) && OrderedAt(s, v);
      UndelegatePoolOrdered(PoolOf(s, v), s.epoch, s.inBoundary, v, caller, amount, wid, p);
      OnePoolOrdered(s, v, p, s');
    }
  }

  lemma WithdrawOrdered(s: State, v: ValId, caller: Address, wid: nat, s': State)
    requires AllOrdered(s) && HandleWithdraw(s, v, caller, wid) == Ok(s')
    ensures AllOrdered(s')
  {
    var p, rewards := WithdrawSteps(s, v, caller, wid, s');
    assert OrderedAt(s, v);
    CloseKeepsOrder(PoolOf(s, v), v, (caller, wid), p, rewards);
    OnePoolOrdered(s, v, p, s');
  }

  lemma PulledOrdered(s: State, v: ValId, a: Address, p: Pool)
    requires AllBooks(s) && AllOrdered(s) && Pull(PoolOf(s, v), s.epoch, a) == Ok(p) && a in p.dels
    ensures AllOrdered(WithPool(s, v, p)) && AllOrdered(WithPool(s, v, ClearRewards(p, a)))
  {
    assert Books(PoolOf(s, v), s.epoch, s.inBoundary) && OrderedAt(s, v);
    PullKeepsOrder(PoolOf(s, v), s.epoch, s.inBoundary, v, a, p);
    OnePoolOrdered(s, v, p, WithPool(s, v, p));
    ClearRewardsKeepsOrder(p, v, a);
    OnePoolOrdered(s, v, ClearRewards(p, a), WithPool(s, v, ClearRewards(p, a)));
  }

  lemma ClaimRewardsOrdered(s: State, v: ValId, caller: Address, s': State)
    requires AllBooks(s) && AllOrdered(s) && HandleClaimRewards(s, v, caller) == Ok(s')
    ensures AllOrdered(s')
  {
    var p := Pull(PoolOf(s, v), s.epoch, caller).value;
    PulledOrdered(s, v, caller, p);
    if p.dels[caller].rewards > 0 {
      SamePoolsOrdered(WithPool(s, v, ClearRewards(p, caller)), s');
    }
  }

  lemma CompoundOrdered(s: State, v: ValId, caller: Address, s': State)
    requires Sound(s) && AllOrdered(s) && HandleCompound(s, v, caller) == Ok(s')
    ensures AllOrdered(s')
  {
    var p := Pull(PoolOf(s, v), s.epoch, caller).value;
    PulledOrdered(s, v, caller, p);
    if p.dels[caller].rewards > 0 {
      var s1 := WithPool(s, v, ClearRewards(p, caller));
      PulledAndCleared(s, v, caller, p, s1);
      InternalDelegateOrdered(s1, v, caller, p.dels[caller].rewards, s');
    }
  }

  lemma ChangeCommissionOrdered(s: State, v: ValId, caller: Address, commission: nat, s': State)
    requires AllOrdered(s) && HandleChangeCommission(s, v, caller, commission) == Ok(s')
    ensures AllOrdered(s')
  {
    assert OrderedAt(s, v);
    SameRecords(PoolOf(s, v), PoolOf(s', v), v);
    OnePoolOrdered(s, v, PoolOf(s', v), s');
  }

  lemma ExternalRewardOrdered(s: State, v: ValId, value: nat, s': State)
    requires AllOrdered(s) && HandleExternalReward(s, v, value) == Ok(s')
    ensures AllOrdered(s')
  {
    assert OrderedAt(s, v);
    DistributeKeepsOrder(PoolOf(s, v), v, value, ActiveStake(s, v), PoolOf(s', v));
    OnePoolOrdered(s, v, PoolOf(s', v), s');
  }

  lemma SyscallRewardOrdered(s: State, caller: Address, author: Address, reward: nat, s': State)
    requires Sound(s) && AllOrdered(s) && HandleSyscallReward(s, caller, author, reward) == Ok(s')
    ensures AllOrdered(s')
  {
    var v, p := SyscallRewardSteps(s, caller, author, reward, s');
    var view := ActiveView(s, v);
    assert OrderedAt(s, v) && ValidatorOk(s, v);
    var commission, shared, p1 := BlockRewardSteps(PoolOf(s, v), reward, view.commission, view.stake, p);
    BlockRewardKeepsOrder(PoolOf(s, v), v, commission, shared, view.stake, p1, p);
    OnePoolOrdered(s, v, p, s');
  }

  /** Nothing at an unborn validator is ahead of its new accumulator. */
  lemma BornOrdered(p: Pool, v: ValId, auth: Address, commission: nat, p': Pool)
    requires Ordered(p) && Entitled(p, v) && Unborn(p) && Listable(v, auth)
    requires p' == p.(val := NewValidator(auth, commission))
    ensures Ordered(p') && Entitled(p', v)
  {
    OnTopAscends(p, p');
  }

  lemma RegisteredOrdered(s: State, auth: Address, blsKey: Address, commission: nat, s': State)
    requires Sound(s) && AllOrdered(s) && s' == Registered(s, auth, blsKey, commission)
    requires Listable(s'.lastValId, auth)
    ensures AllOrdered(s')
  {
    var v := s'.lastValId;
    assert ValidatorOk(s, v) && OrderedAt(s, v);
    BornOrdered(PoolOf(s, v), v, auth, commission, PoolOf(s', v));
    OnePoolOrdered(s, v, PoolOf(s', v), s');
  }

  lemma InternalDelegateListable(s: State, v: ValId, a: Address, amount: nat)
    requires InternalDelegate(s, v, a, amount).Ok?
    ensures Listable(v, a)
  {}

  lemma AddValidatorOrdered(
    s: State, auth: Address, blsKey: Address, signedStake: nat, commission: nat, value: nat, s': State)
    requires Sound(s) && AllOrdered(s)
    requires HandleAddValidator(s, auth, blsKey, signedStake, commission, value) == Ok(s')
    ensures AllOrdered(s')
  {
    var s1 := Registered(s, auth, blsKey, commission);
    AddValidatorSteps(s, auth, blsKey, signedStake, commission, value, s');
    InternalDelegateListable(s1, s1.lastValId, auth, value);
    RegisteredSound(s, auth, blsKey, commission, s1);
    RegisteredOrdered(s, auth, blsKey, commission, s1);
    InternalDelegateOrdered(s1, s1.lastValId, auth, value, s');
  }

  lemma EpochChangeOrdered(s: State, caller: Address, next: Epoch, s': State)
    requires AllBooks(s) && AllOrdered(s) && HandleSyscallOnEpochChange(s, caller, next) == Ok(s')
    ensures AllOrdered(s')
  {
    forall v: ValId
      ensures OrderedAt(s', v)
    {
      assert Books(PoolOf(s, v), s.epoch, s.inBoundary) && OrderedAt(s, v);
      FrozenPool(s, next, v);
      FreezeKeepsOrder(PoolOf(s, v), s.epoch, s.inBoundary, v, next);
    }
  }

  // ----- every run ------------------------------------------------------------------

  lemma UserCallOrdered(s: State, op: Op, s': State)
    requires Sound(s) && AllOrdered(s) && Handle(s, op) == Ok(s')
    requires op.AddValidator? || op.Delegate? || op.Undelegate? || op.Withdraw? || op.Compound?
    ensures AllOrdered(s')
  {
    match op
    case AddValidator(auth, blsKey, signedStake, commission, value) =>
      AddValidatorOrdered(s, auth, blsKey, signedStake, commission, value, s');
    case Delegate(v, caller, value) =>
      if value != 0 {
        InternalDelegateOrdered(s, v, caller, value, s');
      }
    case Undelegate(v, caller, amount, wid) => UndelegateOrdered(s, v, caller, amount, wid, s');
    case Withdraw(v, caller, wid) => WithdrawOrdered(s, v, caller, wid, s');
    case Compound(v, caller) => CompoundOrdered(s, v, caller, s');
  }

  lemma HandleOrdered(s: State, op: Op, s': State)
    requires Sound(s) && AllOrdered(s) && Handle(s, op) == Ok(s')
    ensures AllOrdered(s')
  {
    match op
    case ClaimRewards(v, caller) => ClaimRewardsOrdered(s, v, caller, s');
    case ChangeCommission(v, caller, commission) => ChangeCommissionOrdered(s, v, caller, commission, s');
    case ExternalReward(v, value) => ExternalRewardOrdered(s, v, value, s');
    case GetDelegator(v, delegator) =>
      PulledOrdered(s, v, delegator, Pull(PoolOf(s, v), s.epoch, delegator).value);
    case SyscallReward(caller, author, reward) => SyscallRewardOrdered(s, caller, author, reward, s');
    case SyscallSnapshot(_) => SamePoolsOrdered(s, s');
    case SyscallOnEpochChange(caller, next) => EpochChangeOrdered(s, caller, next, s');
    case _ => UserCallOrdered(s, op, s');
  }

  lemma StepOrdered(s: State, op: Op, s': State)
    requires Sound(s) && AllOrdered(s) && s' == Step(s, op)
    ensures AllOrdered(s')
  {
    if Outcome(s, op) == Ok(s') {
      CreditSound(s, op);
      SamePoolsOrdered(s, Credited(s, op));
      HandleOrdered(Credited(s, op), op, s');
    }
  }

  /**
   * Over every run from genesis, whatever its epochs: of two referenced
   * snapshots of one validator the one of the later epoch is never behind, no
   * snapshot and no reward cursor is ahead of the accumulator, and whoever has
   * stake or rewards may be listed.
   */
  lemma {:induction false} RunOrdered(ops: seq<Op>)
    ensures AllOrdered(Run(GENESIS, ops))
  {
    if ops == [] {
      GenesisOrdered();
    } else {
      RunOrdered(ops[..|ops| - 1]);
      RunSound(ops[..|ops| - 1]);
      StepOrdered(Run(GENESIS, ops[..|ops| - 1]), ops[|ops| - 1], Run(GENESIS, ops));
    }
  }
}
