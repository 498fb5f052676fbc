/**
 * Runs that follow the documented epoch lifecycle: the stake that earns is the
 * stake rewards are divided by, every pool stays solvent, and no handler fails
 * from within.
 */
module StakingLifecycle {
  import opened Checked
  import opened Sums
  import opened Ledger
  import opened LedgerInvariant
  import opened LedgerAccrual
  import opened ValidatorSets
  import opened Staking
  import opened StakingInvariant

  function ActiveStake(s: State, v: ValId): nat {
    ActiveView(s, v).stake
  }

  /** Inside the boundary the consensus view is already that of the next epoch. */
  function NextStake(s: State, v: ValId): nat {
    if s.inBoundary then ViewOf(s.sets.consensusView, v).stake else 0
  }

  ghost predicate Accrues(s: State, v: ValId) {
    Accrual(PoolOf(s, v), s.epoch, s.inBoundary, ActiveStake(s, v), NextStake(s, v))
  }

  ghost predicate AllAccrue(s: State) {
    forall v: ValId :: Accrues(s, v)
  }

  /** The two states are at the same moment and divide rewards by the same views. */
  predicate SameMoment(s: State, s': State) {
    && s'.epoch == s.epoch && s'.inBoundary == s.inBoundary
    && s'.sets.consensusView == s.sets.consensusView && s'.sets.snapshotView == s.sets.snapshotView
  }

  lemma AccrualAfterPool(s: State, v: ValId, p: Pool, s': State)
    requires AllAccrue(s) && SameMoment(s, s') && s'.pools == s.pools[v := p]
    requires Accrual(p, s.epoch, s.inBoundary, ActiveStake(s, v), NextStake(s, v))
    ensures AllAccrue(s')
  {
    forall u: ValId
      ensures Accrues(s', u)
    {
      assert Accrues(s, u);
      assert u != v ==> PoolOf(s', u) == PoolOf(s, u);
    }
  }

  lemma AccrualSamePools(s: State, s': State)
    requires AllAccrue(s) && SameMoment(s, s') && s'.pools == s.pools
    ensures AllAccrue(s')
  {
    forall u: ValId
      ensures Accrues(s', u)
    {
      assert Accrues(s, u) && PoolOf(s', u) == PoolOf(s, u);
    }
  }

  lemma EmptyPoolAccrues(epoch: Epoch, inBoundary: bool)
    ensures Accrual(EMPTY_POOL, epoch, inBoundary, 0, 0)
  {
    var p := EMPTY_POOL;
    SumEmpty(OwedOf(p.dels, epoch, p.val.acc, p.snaps));
    SumEmpty(RequestOwedOf(p.wds, epoch, p.val.acc, p.snaps));
  }

  lemma GenesisAccrues()
    ensures AllAccrue(GENESIS)
  {
    EmptyPoolAccrues(0, false);
    forall v: ValId
      ensures Accrues(GENESIS, v)
    {
      assert PoolOf(GENESIS, v) == EMPTY_POOL;
    }
  }

  // ----- handlers ---------------------------------------------------------

  lemma PullAccrues(s: State, v: ValId, a: Address, p: Pool)
    requires Sound(s) && AllAccrue(s) && Pull(PoolOf(s, v), s.epoch, a) == Ok(p)
    ensures AllAccrue(WithPool(s, v, p))
  {
    assert Books(PoolOf(s, v), s.epoch, s.inBoundary) && Accrues(s, v);
    PullKeepsAccrual(PoolOf(s, v), s.epoch, s.inBoundary, ActiveStake(s, v), NextStake(s, v), a, p);
    AccrualAfterPool(s, v, p, WithPool(s, v, p));
  }

  lemma DelegatePoolAccrues(
    p: Pool, epoch: Epoch, inBoundary: bool, active: nat, next: nat, a: Address, amount: nat, p': Pool)
    requires Books(p, epoch, inBoundary) && Accrual(p, epoch, inBoundary, active, next) && amount > 0
    requires Ledger.Delegate(p, epoch, inBoundary, a, amount) == Ok(p')
    ensures Accrual(p', epoch, inBoundary, active, next)
  {
    var p1 := DelegatePool(p, epoch, inBoundary, a, amount, p');
    PullKeepsAccrual(p, epoch, inBoundary, active, next, a, p1);
    AddToWindowJoins(p1, epoch, inBoundary, a, amount, p');
    JoinedKeepsAccrual(p1, epoch, inBoundary, active, next, a, amount, p');
  }

  lemma InternalDelegateSteps(s: State, v: ValId, a: Address, amount: nat, s': State) returns (p: Pool)
    requires InternalDelegate(s, v, a, amount) == Ok(s')
    ensures Ledger.Delegate(PoolOf(s, v), s.epoch, s.inBoundary, a, amount) == Ok(p)
    ensures s'.pools == s.pools[v := p] && SameMoment(s, s')
  {
    p := Ledger.Delegate(PoolOf(s, v), s.epoch, s.inBoundary, a, amount).value;
  }

  lemma InternalDelegateAccrues(s: State, v: ValId, a: Address, amount: nat, s': State)
    requires AllBooks(s) && AllAccrue(s) && amount > 0 && InternalDelegate(s, v, a, amount) == Ok(s')
    ensures AllAccrue(s')
  {
    var p := InternalDelegateSteps(s, v, a, amount, s');
    assert Books(PoolOf(s, v), s.epoch, s.inBoundary) && Accrues(s, v);
    DelegatePoolAccrues(PoolOf(s, v), s.epoch, s.inBoundary, ActiveStake(s, v), NextStake(s, v), a, amount, p);
    AccrualAfterPool(s, v, p, s');
  }

  lemma UndelegatePoolAccrues(
    p: Pool, epoch: Epoch, inBoundary: bool, active: nat, next: nat, a: Address, amount: nat, wid: nat, p': Pool)
    requires Books(p, epoch, inBoundary) && Accrual(p, epoch, inBoundary, active, next) && amount > 0
    requires Ledger.Undelegate(p, epoch, inBoundary, a, amount, wid) == Ok(p')
    ensures Accrual(p', epoch, inBoundary, active, next)
  {
    var p1, taken := UndelegatePool(p, epoch, inBoundary, a, amount, wid, p');
    PullKeepsAccrual(p, epoch, inBoundary, active, next, a, p1);
    OpenWithdrawalOpens(p1, epoch, inBoundary, a, wid, taken, p');
    OpenedKeepsBooks(p1, epoch, inBoundary, (a, wid), taken, p');
    OpenedKeepsAccrual(p1, epoch, inBoundary, active, next, (a, wid), taken, p');
  }

  lemma UndelegateAccrues(s: State, v: ValId, caller: Address, amount: nat, wid: nat, s': State)
    requires Sound(s) && AllAccrue(s) && HandleUndelegate(s, v, caller, amount, wid) == Ok(s')
    ensures AllAccrue(s')
  {
    if amount != 0 {
      var p := HandleUndelegateSteps(s, v, caller, amount, wid, s');
      assert Books(PoolOf(s, v), s.epoch, s.inBoundary) && Accrues(s, v);
      UndelegatePoolAccrues(PoolOf(s, v), s.epoch, s.inBoundary, ActiveStake(s, v), NextStake(s, v),
                            caller, amount, wid, p);
      AccrualAfterPool(s, v, p, s');
    }
  }

  lemma WithdrawSteps(s: State, v: ValId, caller: Address, wid: nat, s': State)
    returns (p: Pool, rewards: nat)
    requires HandleWithdraw(s, v, caller, wid) == Ok(s')
    ensures var k, q := (caller, wid), PoolOf(s, v);
            && k in q.wds && IsEpochActive(s.epoch, q.wds[k].epoch)
            && CloseWithdrawal(q, k) == Ok((p, rewards))
            && s' == WithPool(s, v, p).(paid := s.paid + q.wds[k].amount + rewards)
  {
    var r := CloseWithdrawal(PoolOf(s, v), (caller, wid)).value;
    p, rewards := r.0, r.1;
  }

  lemma WithdrawAccrues(s: State, v: ValId, caller: Address, wid: nat, s': State)
    requires Sound(s) && AllAccrue(s) && HandleWithdraw(s, v, caller, wid) == Ok(s')
    ensures AllAccrue(s')
  {
    var p, rewards := WithdrawSteps(s, v, caller, wid, s');
    assert Books(PoolOf(s, v), s.epoch, s.inBoundary) && Accrues(s, v);
    CloseWithdrawalKeepsAccrual(PoolOf(s, v), s.epoch, s.inBoundary, ActiveStake(s, v), NextStake(s, v),
                                (caller, wid), p, rewards);
    AccrualAfterPool(s, v, p, s');
  }

  /** Taking the credited rewards away changes nothing that accrues. */
  lemma ClearedPoolAccrues(
    p: Pool, epoch: Epoch, inBoundary: bool, active: nat, next: nat, a: Address, p1: Pool, p': Pool)
    requires Books(p, epoch, inBoundary) && Accrual(p, epoch, inBoundary, active, next)
    requires Pull(p, epoch, a) == Ok(p1) && a in p1.dels && p' == ClearRewards(p1, a)
    ensures Accrual(p', epoch, inBoundary, active, next)
  {
    PullKeepsBooks(p, epoch, inBoundary, a, p1);
    PullKeepsAccrual(p, epoch, inBoundary, active, next, a, p1);
    ClearRewardsKeepsBooks(p1, epoch, inBoundary, a);
    RewardsChangeKeepsAccrual(p1, epoch, inBoundary, active, next, a, p'.dels[a], p');
  }

  lemma ClearedAccrues(s: State, v: ValId, a: Address, p: Pool, s': State)
    requires Sound(s) && AllAccrue(s) && Pull(PoolOf(s, v), s.epoch, a) == Ok(p)
    requires a in p.dels && s' == WithPool(s, v, ClearRewards(p, a))
    ensures AllAccrue(s')
  {
    assert Books(PoolOf(s, v), s.epoch, s.inBoundary) && Accrues(s, v);
    ClearedPoolAccrues(PoolOf(s, v), s.epoch, s.inBoundary, ActiveStake(s, v), NextStake(s, v),
                       a, p, PoolOf(s', v));
    AccrualAfterPool(s, v, PoolOf(s', v), s');
  }

  lemma ClaimRewardsAccrues(s: State, v: ValId, caller: Address, s': State)
    requires Sound(s) && AllAccrue(s) && HandleClaimRewards(s, v, caller) == Ok(s')
    ensures AllAccrue(s')
  {
    var p := Pull(PoolOf(s, v), s.epoch, caller).value;
    if p.dels[caller].rewards == 0 {
      PullAccrues(s, v, caller, p);
    } else {
      var s1 := WithPool(s, v, ClearRewards(p, caller));
      ClearedAccrues(s, v, caller, p, s1);
      AccrualSamePools(s1, s');
    }
  }

  lemma CompoundAccrues(s: State, v: ValId, caller: Address, s': State)
    requires Sound(s) && AllAccrue(s) && HandleCompound(s, v, caller) == Ok(s')
    ensures AllAccrue(s')
  {
    var p := Pull(PoolOf(s, v), s.epoch, caller).value;
    if p.dels[caller].rewards == 0 {
      PullAccrues(s, v, caller, p);
    } else {
      var s1 := WithPool(s, v, ClearRewards(p, caller));
      ClearedAccrues(s, v, caller, p, s1);
      PulledAndCleared(s, v, caller, p, s1);
      InternalDelegateAccrues(s1, v, caller, p.dels[caller].rewards, s');
    }
  }

  lemma CommissionPoolAccrues(
    p: Pool, epoch: Epoch, inBoundary: bool, active: nat, next: nat, commission: nat, p': Pool)
    requires Accrual(p, epoch, inBoundary, active, next)
    requires p'.dels == p.dels && p'.wds == p.wds && p'.snaps == p.snaps
    requires p'.val.acc == p.val.acc && p'.val.unclaimed == p.val.unclaimed
    ensures Accrual(p', epoch, inBoundary, active, next)
  {
    SameSnapshotsOk(p, p', epoch, active);
    SameRequestsOk(p, p', epoch);
    assert AllCursorsOk(p', epoch);
    SameHoldersEarn(p, p', epoch, inBoundary, active, next);
  }

  lemma ChangeCommissionAccrues(s: State, v: ValId, caller: Address, commission: nat, s': State)
    requires Sound(s) && AllAccrue(s) && HandleChangeCommission(s, v, caller, commission) == Ok(s')
    ensures AllAccrue(s')
  {
    assert Accrues(s, v);
    CommissionPoolAccrues(PoolOf(s, v), s.epoch, s.inBoundary, ActiveStake(s, v), NextStake(s, v),
                          commission, PoolOf(s', v));
    AccrualAfterPool(s, v, PoolOf(s', v), s');
  }

  lemma ExternalRewardAccrues(s: State, v: ValId, value: nat, s': State)
    requires Sound(s) && AllAccrue(s) && HandleExternalReward(s, v, value) == Ok(s')
    ensures AllAccrue(s')
  {
    var p' := Distribute(PoolOf(s, v), value, ActiveStake(s, v)).value;
    assert Books(PoolOf(s, v), s.epoch, s.inBoundary) && Accrues(s, v);
    DistributeKeepsAccrual(PoolOf(s, v), s.epoch, s.inBoundary, ActiveStake(s, v), NextStake(s, v), value, p');
    AccrualAfterPool(s, v, p', s');
  }

  lemma SyscallRewardAccrues(s: State, caller: Address, author: Address, reward: nat, s': State)
    requires Sound(s) && AllAccrue(s) && HandleSyscallReward(s, caller, author, reward) == Ok(s')
    ensures AllAccrue(s')
  {
    var v, p' := SyscallRewardSteps(s, caller, author, reward, s');
    var view := ActiveView(s, v);
    assert Books(PoolOf(s, v), s.epoch, s.inBoundary) && Accrues(s, v);
    var commission, shared, p1 := BlockRewardSteps(PoolOf(s, v), reward, view.commission, view.stake, p');
    BlockRewardKeepsAccrual(PoolOf(s, v), s.epoch, s.inBoundary, ActiveStake(s, v), NextStake(s, v),
                            commission, shared, p1, p');
    AccrualAfterPool(s, v, p', s');
  }

  lemma RegisteredAccrues(s: State, auth: Address, blsKey: Address, commission: nat, s': State)
    requires Sound(s) && AllAccrue(s) && s' == Registered(s, auth, blsKey, commission)
    ensures AllAccrue(s')
  {
    var v := s'.lastValId;
    assert ValidatorOk(s, v) && Accrues(s, v);
    CommissionPoolAccrues(PoolOf(s, v), s.epoch, s.inBoundary, ActiveStake(s, v), NextStake(s, v),
                          commission, PoolOf(s', v));
    AccrualAfterPool(s, v, PoolOf(s', v), s');
  }

  lemma AddValidatorAccrues(
    s: State, auth: Address, blsKey: Address, signedStake: nat, commission: nat, value: nat, s1: State, s': State)
    requires AllBooks(s1) && AllAccrue(s1) && s1 == Registered(s, auth, blsKey, commission)
    requires HandleAddValidator(s, auth, blsKey, signedStake, commission, value) == Ok(s')
    ensures AllAccrue(s')
  {
    AddValidatorSteps(s, auth, blsKey, signedStake, commission, value, s');
    InternalDelegateAccrues(s1, s1.lastValId, auth, value, s');
  }

  // ----- the boundary -----------------------------------------------------

  lemma SnapshotStakes(s: State, s': State, v: ValId)
    requires Sound(s) && !s.inBoundary && s'.inBoundary && s'.sets == TakeSnapshot(s.sets, s.pools)
    ensures ActiveStake(s', v) == ActiveStake(s, v)
    ensures NextStake(s', v) > 0 ==> NextStake(s', v) == PoolOf(s, v).val.stake
  {
    ClearedViews(s.sets.consensus, s.sets.consensusView, ViewsOf(s.pools, s'.sets.consensus));
    ClearedViews(s.sets.snapshot, s.sets.snapshotView, s.sets.consensusView);
    assert v in s'.sets.consensusView ==> v in s'.sets.consensus;
    if v in s'.sets.consensus {
      SnapshotSets(s, s'.sets);
      assert ValidatorOk(s, v);
      assert ValOf(s.pools, v) == PoolOf(s, v).val;
    }
  }

  /** At the snapshot the new views are the stakes that will earn in the next epoch. */
  lemma SnapshotAccrues(s: State, caller: Address, s': State)
    requires Sound(s) && AllAccrue(s) && HandleSyscallSnapshot(s, caller) == Ok(s')
    ensures AllAccrue(s')
  {
    forall v: ValId
      ensures Accrues(s', v)
    {
      var p := PoolOf(s, v);
      assert Books(p, s.epoch, false) && Accrues(s, v);
      SnapshotStakes(s, s', v);
      BoundaryKeepsAccrual(p, s.epoch, ActiveStake(s, v), NextStake(s', v));
    }
  }

  lemma EpochChangeStakes(s: State, s': State, v: ValId)
    requires SetsOk(s.sets) && s.inBoundary && !s'.inBoundary && s'.sets == s.sets
    ensures ActiveStake(s', v) == NextStake(s, v)
    ensures ActiveStake(s, v) > 0 <==> v in s.sets.snapshot
  {
    assert v in s.sets.snapshotView <==> v in Elements(s.sets.snapshot);
  }

  lemma ActiveInBoundary(s: State, v: ValId)
    requires SetsOk(s.sets) && s.inBoundary
    ensures ActiveStake(s, v) > 0 <==> v in s.sets.snapshot
  {
    assert v in s.sets.snapshotView <==> v in Elements(s.sets.snapshot);
  }

  /** The epoch change turns every pool. */
  lemma EpochChangeTurns(s: State, s': State, v: ValId)
    requires ActiveStake(s, v) > 0 <==> v in s.sets.snapshot
    requires s'.pools == FreezeAll(s.pools, s.sets.snapshot, s.epoch + 1)
    ensures PoolOf(s', v) == Turned(PoolOf(s, v), s.epoch, ActiveStake(s, v))
  {
    FrozenPool(s, s.epoch + 1, v);
    assert PoolOf(s', v) == PoolOf(s.(pools := FreezeAll(s.pools, s.sets.snapshot, s.epoch + 1)), v);
  }

  /** The boundary hands a pool over to the next epoch with its snapshots frozen. */
  ghost predicate HandedOver(p: Pool, p': Pool, epoch: Epoch) {
    p'.val == p.val && p'.dels == p.dels && p'.wds == p.wds && Froze(p, p', epoch)
  }

  lemma TurnHandsOver(p: Pool, epoch: Epoch, active: nat, next: nat, p': Pool)
    requires Books(p, epoch, true) && Accrual(p, epoch, true, active, next)
    requires p' == Turned(p, epoch, active)
    ensures HandedOver(p, p', epoch)
  {
    TurnedFroze(p, epoch, true, active);
  }

  lemma HandedOverAccrues(p: Pool, p': Pool, epoch: Epoch, active: nat, next: nat)
    requires Books(p, epoch, true) && Accrual(p, epoch, true, active, next)
    requires HandedOver(p, p', epoch)
    ensures Accrual(p', epoch + 1, false, next, 0)
  {
    FrozenKeepsAccrual(p, p', epoch, active, next);
  }

  lemma HandOver(s: State, v: ValId, p: Pool, p': Pool)
    requires Accrues(s, v) && s.inBoundary && p == PoolOf(s, v)
    requires Books(p, s.epoch, true) && HandedOver(p, p', s.epoch)
    ensures Accrual(p', s.epoch + 1, false, NextStake(s, v), 0)
  {
    var active, next := ActiveStake(s, v), NextStake(s, v);
    HandedOverAccrues(p, p', s.epoch, active, next);
  }

  lemma EpochChangeHandsOver(s: State, s': State, v: ValId)
    requires Books(PoolOf(s, v), s.epoch, true) && Accrues(s, v) && s.inBoundary && SetsOk(s.sets)
    requires s'.pools == FreezeAll(s.pools, s.sets.snapshot, s.epoch + 1)
    ensures HandedOver(PoolOf(s, v), PoolOf(s', v), s.epoch)
  {
    ActiveInBoundary(s, v);
    EpochChangeTurns(s, s', v);
    TurnHandsOver(PoolOf(s, v), s.epoch, ActiveStake(s, v), NextStake(s, v), PoolOf(s', v));
  }

  lemma NewEpochAccrues(s: State, v: ValId, epoch: Epoch, active: nat)
    requires Accrual(PoolOf(s, v), epoch, false, active, 0)
    requires s.epoch == epoch && !s.inBoundary && active == ActiveStake(s, v)
    ensures Accrues(s, v)
  {}

  lemma EpochChangeAccruesOne(s: State, s': State, v: ValId)
    requires Books(PoolOf(s, v), s.epoch, true) && SetsOk(s.sets) && Accrues(s, v) && s.inBoundary
    requires s'.pools == FreezeAll(s.pools, s.sets.snapshot, s.epoch + 1)
    requires s'.sets == s.sets && !s'.inBoundary && s'.epoch == s.epoch + 1
    ensures Accrues(s', v)
  {
    EpochChangeHandsOver(s, s', v);
    HandOver(s, v, PoolOf(s, v), PoolOf(s', v));
    EpochChangeStakes(s, s', v);
    NewEpochAccrues(s', v, s.epoch + 1, NextStake(s, v));
  }

  lemma EpochChangeAccrues(s: State, caller: Address, s': State)
    requires Sound(s) && AllAccrue(s) && s.inBoundary
    requires HandleSyscallOnEpochChange(s, caller, s.epoch + 1) == Ok(s')
    ensures AllAccrue(s')
  {
    forall v: ValId
      ensures Accrues(s', v)
    {
      assert Accrues(s, v) && Books(PoolOf(s, v), s.epoch, s.inBoundary);
      EpochChangeAccruesOne(s, s', v);
    }
  }

  // ----- lifecycle runs ---------------------------------------------------

  lemma UserCallAccrues(s: State, op: Op, s': State)
    requires Sound(s) && AllAccrue(s) && Handle(s, op) == Ok(s')
    requires op.AddValidator? || op.Delegate? || op.Undelegate? || op.Withdraw? || op.Compound?
    ensures AllAccrue(s')
  {
    match op
    case AddValidator(auth, blsKey, signedStake, commission, value) =>
      var s1 := Registered(s, auth, blsKey, commission);
      RegisteredSound(s, auth, blsKey, commission, s1);
      RegisteredAccrues(s, auth, blsKey, commission, s1);
      AddValidatorAccrues(s, auth, blsKey, signedStake, commission, value, s1, s');
    case Delegate(v, caller, value) =>
      if value != 0 {
        InternalDelegateAccrues(s, v, caller, value, s');
      }
    case Undelegate(v, caller, amount, wid) => UndelegateAccrues(s, v, caller, amount, wid, s');
    case Withdraw(v, caller, wid) => WithdrawAccrues(s, v, caller, wid, s');
    case Compound(v, caller) => CompoundAccrues(s, v, caller, s');
  }

  lemma HandleAccrues(s: State, op: Op, s': State)
    requires Sound(s) && AllAccrue(s) && Handle(s, op) == Ok(s')
    requires op.SyscallOnEpochChange? ==> s.inBoundary && op.next == s.epoch + 1
    ensures AllAccrue(s')
  {
    match op
    case ClaimRewards(v, caller) => ClaimRewardsAccrues(s, v, caller, s');
    case ChangeCommission(v, caller, commission) => ChangeCommissionAccrues(s, v, caller, commission, s');
    case ExternalReward(v, value) => ExternalRewardAccrues(s, v, value, s');
    case GetDelegator(v, delegator) =>
      PullAccrues(s, v, delegator, Pull(PoolOf(s, v), s.epoch, delegator).value);
    case SyscallReward(caller, author, reward) => SyscallRewardAccrues(s, caller, author, reward, s');
    case SyscallSnapshot(caller) => SnapshotAccrues(s, caller, s');
    case SyscallOnEpochChange(caller, next) => EpochChangeAccrues(s, caller, s');
    case _ => UserCallAccrues(s, op, s');
  }

  lemma StepAccrues(s: State, op: Op, s': State)
    requires Sound(s) && AllAccrue(s) && InLifecycle(s, op) && s' == Step(s, op)
    ensures AllAccrue(s')
  {
    if Outcome(s, op) == Ok(s') {
      CreditSound(s, op);
      AccrualSamePools(s, Credited(s, op));
      HandleAccrues(Credited(s, op), op, s');
    }
  }

  /**
   * Over every lifecycle run: each active validator's rewards are divided by
   * exactly the stake that earns them, every snapshot in force is frozen, and
   * the unclaimed rewards of every pool cover all it owes.
   */
  lemma {:induction false} LifecycleRunAccrues(ops: seq<Op>)
    requires LifecycleRun(GENESIS, ops)
    ensures AllAccrue(Run(GENESIS, ops))
  {
    if ops == [] {
      GenesisAccrues();
    } else {
      var init := ops[..|ops| - 1];
      LifecycleRunAccrues(init);
      RunSound(init);
      StepAccrues(Run(GENESIS, init), ops[|ops| - 1], Run(GENESIS, ops));
    }
  }
}
