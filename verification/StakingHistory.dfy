/**
 * What no run ever does: let an accumulator outgrow the value that came in,
 * or touch a snapshot that is in force.
 */
module StakingHistory {
  import opened Checked
  import opened Ledger
  import opened LedgerInvariant
  import opened LedgerAccrual
  import opened LedgerProgress
  import opened Staking
  import opened StakingInvariant
  import opened StakingLifecycle

  // ----- one pool --------------------------------------------------------------

  /** Whoever still refers to a snapshot in force finds the value it had. */
  ghost predicate SnapshotsKept(snaps: Snapshots, snaps': Snapshots, epoch: Epoch) {
    forall e: Epoch :: 0 < e <= epoch && Ref(snaps', e) > 0 ==>
      Ref(snaps, e) > 0 && Value(snaps', e) == Value(snaps, e)
  }

  lemma DecrementKeepsSnapshots(snaps: Snapshots, e: Epoch, epoch: Epoch)
    ensures SnapshotsKept(snaps, DecrementRef(snaps, e), epoch)
  {}

  lemma FollowingSnapshotsKept(p: Pool, p': Pool, epoch: Epoch)
    requires SnapshotsFollow(p, p', epoch)
    ensures SnapshotsKept(p.snaps, p'.snaps, epoch)
  {}

  lemma SnapshotsKeptTransitive(s0: Snapshots, s1: Snapshots, s2: Snapshots, epoch: Epoch)
    requires SnapshotsKept(s0, s1, epoch) && SnapshotsKept(s1, s2, epoch)
    ensures SnapshotsKept(s0, s2, epoch)
  {}

  lemma CompoundSnapshots(p: Pool, a: Address, p': Pool)
    requires a in p.dels && CompoundStep(p, a) == Ok(p')
    ensures p'.snaps == DecrementRef(p.snaps, p.dels[a].deltaEpoch)
  {}

  lemma AccrueSnapshots(p: Pool, a: Address, p': Pool)
    requires a in p.dels && AccrueStep(p, a) == Ok(p')
    ensures p'.snaps == p.snaps
  {}

  lemma PullKeepsSnapshots(p: Pool, epoch: Epoch, a: Address, p': Pool)
    requires Pull(p, epoch, a) == Ok(p')
    ensures SnapshotsKept(p.snaps, p'.snaps, epoch)
  {
    var p0, p1, p2 := PullSteps(p, epoch, a, p');
    if IsEpochActive(epoch, p0.dels[a].nextDeltaEpoch) {
      CompoundSnapshots(p0, a, p1);
      DecrementKeepsSnapshots(p0.snaps, p0.dels[a].deltaEpoch, epoch);
    }
    if IsEpochActive(epoch, p0.dels[a].deltaEpoch) {
      CompoundSnapshots(p1, a, p2);
      DecrementKeepsSnapshots(p1.snaps, p1.dels[a].deltaEpoch, epoch);
    }
    SnapshotsKeptTransitive(p.snaps, p1.snaps, p2.snaps, epoch);
    AccrueSnapshots(p2, a, p');
  }

  lemma PullFollows(p: Pool, epoch: Epoch, inBoundary: bool, a: Address, p': Pool)
    requires Books(p, epoch, inBoundary) && Pull(p, epoch, a) == Ok(p')
    ensures p'.val.acc == p.val.acc && SnapshotsKept(p.snaps, p'.snaps, epoch)
  {
    PullKeepsBooks(p, epoch, inBoundary, a, p');
    PullKeepsSnapshots(p, epoch, a, p');
  }

  lemma DelegateFollows(p: Pool, epoch: Epoch, inBoundary: bool, a: Address, amount: nat, p': Pool)
    requires Books(p, epoch, inBoundary) && amount > 0
    requires Ledger.Delegate(p, epoch, inBoundary, a, amount) == Ok(p')
    ensures p'.val.acc == p.val.acc && SnapshotsKept(p.snaps, p'.snaps, epoch)
  {
    var p1 := DelegatePool(p, epoch, inBoundary, a, amount, p');
    PullFollows(p, epoch, inBoundary, a, p1);
    AddToWindowJoins(p1, epoch, inBoundary, a, amount, p');
    JoinedFollows(p1, p', a, amount, epoch, inBoundary);
    FollowingSnapshotsKept(p1, p', epoch);
    SnapshotsKeptTransitive(p.snaps, p1.snaps, p'.snaps, epoch);
  }

  lemma UndelegateFollows(
    p: Pool, epoch: Epoch, inBoundary: bool, a: Address, amount: nat, wid: nat, p': Pool)
    requires Books(p, epoch, inBoundary) && amount > 0
    requires Ledger.Undelegate(p, epoch, inBoundary, a, amount, wid) == Ok(p')
    ensures p'.val.acc == p.val.acc && SnapshotsKept(p.snaps, p'.snaps, epoch)
  {
    var p1, taken := UndelegatePool(p, epoch, inBoundary, a, amount, wid, p');
    PullFollows(p, epoch, inBoundary, a, p1);
    OpenWithdrawalOpens(p1, epoch, inBoundary, a, wid, taken, p');
    OpenedFollows(p1, p', (a, wid), taken, ActivationEpoch(epoch, inBoundary), epoch);
    FollowingSnapshotsKept(p1, p', epoch);
    SnapshotsKeptTransitive(p.snaps, p1.snaps, p'.snaps, epoch);
  }

  lemma DistributeFollows(p: Pool, amount: nat, active: nat, p': Pool)
    requires Distribute(p, amount, active) == Ok(p')
    ensures p'.val.acc <= p.val.acc + UNIT_BIAS * amount && p'.snaps == p.snaps
  {
    ShareAtMost(amount, active);
  }

  lemma BlockRewardFollows(p: Pool, reward: nat, rate: nat, active: nat, p': Pool)
    requires BlockReward(p, reward, rate, active) == Ok(p')
    ensures p'.val.acc <= p.val.acc + UNIT_BIAS * reward && p'.snaps == p.snaps
  {
    var commission, shared, p1 := BlockRewardSteps(p, reward, rate, active, p');
    if shared != 0 {
      DistributeFollows(p1, shared, active, p');
    }
  }

  lemma FreezeKeepsSnapshots(p: Pool, epoch: Epoch, next: Epoch)
    requires epoch < next
    ensures SnapshotsKept(p.snaps, Freeze(p, next).snaps, epoch)
  {
    forall e: Epoch | 0 < e <= epoch && Ref(Freeze(p, next).snaps, e) > 0
      ensures Ref(p.snaps, e) > 0 && Value(Freeze(p, next).snaps, e) == Value(p.snaps, e)
    {
      RefreshKeepsRefs(p.snaps, next, p.val.acc, e);
      RefreshKeepsRefs(Refresh(p.snaps, next, p.val.acc), next + 1, p.val.acc, e);
    }
  }

  // ----- one call --------------------------------------------------------------

  ghost predicate PoolFollows(p: Pool, p': Pool, epoch: Epoch, gain: nat) {
    p'.val.acc <= p.val.acc + UNIT_BIAS * gain && SnapshotsKept(p.snaps, p'.snaps, epoch)
  }

  /** `s'` may follow `s` when `gain` came in. */
  ghost predicate Follows(s: State, s': State, gain: nat) {
    && s'.credited == s.credited && s.epoch <= s'.epoch
    && forall v: ValId :: PoolFollows(PoolOf(s, v), PoolOf(s', v), s.epoch, gain)
  }

  lemma OnePoolFollows(s: State, v: ValId, p: Pool, s': State, gain: nat)
    requires s'.pools == s.pools[v := p] && s'.credited == s.credited && s'.epoch == s.epoch
    requires PoolFollows(PoolOf(s, v), p, s.epoch, gain)
    ensures Follows(s, s', gain)
  {
    forall u: ValId
      ensures PoolFollows(PoolOf(s, u), PoolOf(s', u), s.epoch, gain)
    {
      assert u != v ==> PoolOf(s', u) == PoolOf(s, u);
    }
  }

  lemma InternalDelegateFollows(s: State, v: ValId, a: Address, amount: nat, s': State)
    requires AllBooks(s) && amount > 0 && InternalDelegate(s, v, a, amount) == Ok(s')
    ensures Follows(s, s', 0)
  {
    var p := InternalDelegateSteps(s, v, a, amount, s');
    assert Books(PoolOf(s, v), s.epoch, s.inBoundary);
    DelegateFollows(PoolOf(s, v), s.epoch, s.inBoundary, a, amount, p);
    OnePoolFollows(s, v, p, s', 0);
  }

  lemma HandleUndelegateFollows(s: State, v: ValId, caller: Address, amount: nat, wid: nat, s': State)
    requires AllBooks(s) && HandleUndelegate(s, v, caller, amount, wid) == Ok(s')
    ensures Follows(s, s', 0)
  {
    if amount != 0 {
      var p := HandleUndelegateSteps(s, v, caller, amount, wid, s');
      assert Books(PoolOf(s, v), s.epoch, s.inBoundary);
      UndelegateFollows(PoolOf(s, v), s.epoch, s.inBoundary, caller, amount, wid, p);
      OnePoolFollows(s, v, p, s', 0);
    }
  }

  lemma CloseFollows(p: Pool, k: (Address, nat), p': Pool, rewards: nat, epoch: Epoch)
    requires k in p.wds && CloseWithdrawal(p, k) == Ok((p', rewards))
    ensures PoolFollows(p, p', epoch, 0)
  {
    DecrementKeepsSnapshots(p.snaps, p.wds[k].epoch, epoch);
  }

  lemma HandleWithdrawFollows(s: State, v: ValId, caller: Address, wid: nat, s': State)
    requires HandleWithdraw(s, v, caller, wid) == Ok(s')
    ensures Follows(s, s', 0)
  {
    var p, rewards := WithdrawSteps(s, v, caller, wid, s');
    CloseFollows(PoolOf(s, v), (caller, wid), p, rewards, s.epoch);
    OnePoolFollows(s, v, p, s', 0);
  }

  lemma PulledFollows(s: State, v: ValId, a: Address, p: Pool)
    requires AllBooks(s) && Pull(PoolOf(s, v), s.epoch, a) == Ok(p) && a in p.dels
    ensures PoolFollows(PoolOf(s, v), p, s.epoch, 0)
    ensures PoolFollows(PoolOf(s, v), ClearRewards(p, a), s.epoch, 0)
  {
    assert Books(PoolOf(s, v), s.epoch, s.inBoundary);
    PullFollows(PoolOf(s, v), s.epoch, s.inBoundary, a, p);
  }

  lemma HandleClaimRewardsFollows(s: State, v: ValId, caller: Address, s': State)
    requires AllBooks(s) && HandleClaimRewards(s, v, caller) == Ok(s')
    ensures Follows(s, s', 0)
  {
    var p := Pull(PoolOf(s, v), s.epoch, caller).value;
    PulledFollows(s, v, caller, p);
    if p.dels[caller].rewards == 0 {
      OnePoolFollows(s, v, p, s', 0);
    } else {
      OnePoolFollows(s, v, ClearRewards(p, caller), s', 0);
    }
  }

  lemma FollowsTransitive(s0: State, s1: State, s2: State)
    requires Follows(s0, s1, 0) && Follows(s1, s2, 0) && s1.epoch == s0.epoch
    ensures Follows(s0, s2, 0)
  {
    forall v: ValId
      ensures PoolFollows(PoolOf(s0, v), PoolOf(s2, v), s0.epoch, 0)
    {
      SnapshotsKeptTransitive(PoolOf(s0, v).snaps, PoolOf(s1, v).snaps, PoolOf(s2, v).snaps, s0.epoch);
    }
  }

  lemma HandleCompoundFollows(s: State, v: ValId, caller: Address, s': State)
    requires Sound(s) && HandleCompound(s, v, caller) == Ok(s')
    ensures Follows(s, s', 0)
  {
    var p := Pull(PoolOf(s, v), s.epoch, caller).value;
    PulledFollows(s, v, caller, p);
    if p.dels[caller].rewards == 0 {
      OnePoolFollows(s, v, p, s', 0);
    } else {
      var s1 := WithPool(s, v, ClearRewards(p, caller));
      PulledAndCleared(s, v, caller, p, s1);
      OnePoolFollows(s, v, ClearRewards(p, caller), s1, 0);
      InternalDelegateFollows(s1, v, caller, p.dels[caller].rewards, s');
      FollowsTransitive(s, s1, s');
    }
  }

  lemma HandleExternalRewardFollows(s: State, v: ValId, value: nat, s': State)
    requires HandleExternalReward(s, v, value) == Ok(s')
    ensures Follows(s, s', value)
  {
    var p := Distribute(PoolOf(s, v), value, ActiveStake(s, v)).value;
    DistributeFollows(PoolOf(s, v), value, ActiveStake(s, v), p);
    OnePoolFollows(s, v, p, s', value);
  }

  lemma HandleSyscallRewardFollows(s: State, caller: Address, author: Address, reward: nat, s': State)
    requires IdsKnown(s) && HandleSyscallReward(s, caller, author, reward) == Ok(s')
    ensures Follows(s, s', reward)
  {
    var v, p := SyscallRewardSteps(s, caller, author, reward, s');
    BlockRewardFollows(PoolOf(s, v), reward, ActiveView(s, v).commission, ActiveStake(s, v), p);
    OnePoolFollows(s, v, p, s', reward);
  }

  /** A registered validator has its record, no stake, and no one who refers to its accumulator. */
  lemma RegisteredFollows(s: State, auth: Address, blsKey: Address, commission: nat, s': State)
    requires s' == Registered(s, auth, blsKey, commission)
    ensures Follows(s, s', 0)
  {
    OnePoolFollows(s, s'.lastValId, PoolOf(s', s'.lastValId), s', 0);
  }

  lemma HandleAddValidatorFollows(
    s: State, auth: Address, blsKey: Address, signedStake: nat, commission: nat, value: nat, s1: State, s': State)
    requires AllBooks(s1) && s1 == Registered(s, auth, blsKey, commission)
    requires HandleAddValidator(s, auth, blsKey, signedStake, commission, value) == Ok(s')
    ensures Follows(s, s', 0)
  {
    AddValidatorSteps(s, auth, blsKey, signedStake, commission, value, s');
    RegisteredFollows(s, auth, blsKey, commission, s1);
    InternalDelegateFollows(s1, s1.lastValId, auth, value, s');
    FollowsTransitive(s, s1, s');
  }

  lemma HandleGetDelegatorFollows(s: State, v: ValId, delegator: Address, s': State)
    requires AllBooks(s) && HandleGetDelegator(s, v, delegator) == Ok(s')
    ensures Follows(s, s', 0)
  {
    PulledFollows(s, v, delegator, PoolOf(s', v));
    OnePoolFollows(s, v, PoolOf(s', v), s', 0);
  }

  lemma HandleEpochChangeFollows(s: State, caller: Address, next: Epoch, s': State)
    requires HandleSyscallOnEpochChange(s, caller, next) == Ok(s')
    ensures Follows(s, s', 0)
  {
    forall v: ValId
      ensures PoolFollows(PoolOf(s, v), PoolOf(s', v), s.epoch, 0)
    {
      FrozenPool(s, next, v);
      FreezeKeepsSnapshots(PoolOf(s, v), s.epoch, next);
    }
  }

  lemma UserCallFollows(s: State, op: Op, s': State)
    requires Sound(s) && Handle(s, op) == Ok(s')
    requires op.AddValidator? || op.Delegate? || op.Undelegate? || op.Withdraw? || op.Compound?
    ensures Follows(s, s', ValueOf(op))
  {
    match op
    case AddValidator(auth, blsKey, signedStake, commission, value) =>
      var s1 := Registered(s, auth, blsKey, commission);
      RegisteredSound(s, auth, blsKey, commission, s1);
      HandleAddValidatorFollows(s, auth, blsKey, signedStake, commission, value, s1, s');
    case Delegate(v, caller, value) =>
      if value != 0 {
        InternalDelegateFollows(s, v, caller, value, s');
      }
    case Undelegate(v, caller, amount, wid) => HandleUndelegateFollows(s, v, caller, amount, wid, s');
    case Withdraw(v, caller, wid) => HandleWithdrawFollows(s, v, caller, wid, s');
    case Compound(v, caller) => HandleCompoundFollows(s, v, caller, s');
  }

  lemma HandleFollows(s: State, op: Op, s': State)
    requires Sound(s) && Handle(s, op) == Ok(s')
    ensures Follows(s, s', ValueOf(op))
  {
    match op
    case ClaimRewards(v, caller) => HandleClaimRewardsFollows(s, v, caller, s');
    case ChangeCommission(v, _, _) => OnePoolFollows(s, v, PoolOf(s', v), s', 0);
    case ExternalReward(v, value) => HandleExternalRewardFollows(s, v, value, s');
    case GetDelegator(v, delegator) => HandleGetDelegatorFollows(s, v, delegator, s');
    case SyscallReward(caller, author, reward) => HandleSyscallRewardFollows(s, caller, author, reward, s');
    case SyscallSnapshot(_) => assert forall v: ValId :: PoolOf(s', v) == PoolOf(s, v);
    case SyscallOnEpochChange(caller, next) => HandleEpochChangeFollows(s, caller, next, s');
    case _ => UserCallFollows(s, op, s');
  }

  // ----- every run -------------------------------------------------------------

  /** No accumulator outgrows the value that has come in. */
  ghost predicate AccBounded(s: State) {
    forall v: ValId :: PoolOf(s, v).val.acc <= UNIT_BIAS * s.credited
  }

  lemma FollowsCredited(s: State, c: State, s': State, gain: nat)
    requires c.pools == s.pools && c.epoch == s.epoch && c.credited == s.credited + gain && Follows(c, s', gain)
    ensures s.epoch <= s'.epoch
    ensures forall v: ValId :: SnapshotsKept(PoolOf(s, v).snaps, PoolOf(s', v).snaps, s.epoch)
    ensures AccBounded(s) ==> AccBounded(s')
  {
    forall v: ValId
      ensures PoolFollows(PoolOf(s, v), PoolOf(s', v), s.epoch, gain)
    {
      assert PoolOf(c, v) == PoolOf(s, v);
    }
  }

  lemma StepFollows(s: State, op: Op, s': State)
    requires Sound(s) && s' == Step(s, op)
    ensures s.epoch <= s'.epoch
    ensures forall v: ValId :: SnapshotsKept(PoolOf(s, v).snaps, PoolOf(s', v).snaps, s.epoch)
    ensures AccBounded(s) ==> AccBounded(s')
  {
    if Outcome(s, op) == Ok(s') {
      CreditSound(s, op);
      HandleFollows(Credited(s, op), op, s');
      FollowsCredited(s, Credited(s, op), s', ValueOf(op));
    }
  }

  lemma {:induction false} RunBounded(ops: seq<Op>)
    ensures AccBounded(Run(GENESIS, ops))
  {
    if ops == [] {
      assert forall v: ValId :: PoolOf(GENESIS, v).val.acc == 0;
    } else {
      RunBounded(ops[..|ops| - 1]);
      RunSound(ops[..|ops| - 1]);
      StepFollows(Run(GENESIS, ops[..|ops| - 1]), ops[|ops| - 1], Run(GENESIS, ops));
    }
  }

  lemma SnapshotsKeptByStep(s: State, s1: State, op: Op, s2: State, v: ValId)
    requires Sound(s1) && s2 == Step(s1, op)
    requires s.epoch <= s1.epoch && SnapshotsKept(PoolOf(s, v).snaps, PoolOf(s1, v).snaps, s.epoch)
    ensures s.epoch <= s2.epoch && SnapshotsKept(PoolOf(s, v).snaps, PoolOf(s2, v).snaps, s.epoch)
  {
    StepFollows(s1, op, s2);
    SnapshotsKeptTransitive(PoolOf(s, v).snaps, PoolOf(s1, v).snaps, PoolOf(s2, v).snaps, s.epoch);
  }

  /**
   * A snapshot that is in force never changes while anyone refers to it, and
   * once nobody does it never comes back: over every continuation of every
   * run, whatever its epochs.
   */
  lemma {:induction false} SnapshotsNeverChange(s: State, more: seq<Op>, v: ValId)
    requires Sound(s)
    ensures var s' := Run(s, more);
            s.epoch <= s'.epoch && SnapshotsKept(PoolOf(s, v).snaps, PoolOf(s', v).snaps, s.epoch)
  {
    if more != [] {
      var init := more[..|more| - 1];
      SnapshotsNeverChange(s, init, v);
      RunKeepsSound(s, init);
      SnapshotsKeptByStep(s, Run(s, init), more[|more| - 1], Run(s, more), v);
    }
  }

  /**
   * Accumulator freeze, over lifecycle runs: when an epoch begins, every
   * snapshot of it that anyone refers to holds the accumulator of that moment,
   * even for a validator outside the snapshot set.
   */
  lemma NewEpochIsFrozen(ops: seq<Op>, s: State, s': State, caller: Address, v: ValId)
    requires LifecycleRun(GENESIS, ops) && s == Run(GENESIS, ops) && s.inBoundary
    requires Outcome(s, SyscallOnEpochChange(caller, s.epoch + 1)) == Ok(s')
    ensures PoolOf(s', v).val == PoolOf(s, v).val
    ensures Ref(PoolOf(s', v).snaps, s'.epoch) == Ref(PoolOf(s, v).snaps, s'.epoch)
    ensures Ref(PoolOf(s', v).snaps, s'.epoch) > 0 ==>
              Value(PoolOf(s', v).snaps, s'.epoch) == PoolOf(s', v).val.acc
  {
    RunSound(ops);
    LifecycleRunAccrues(ops);
    EpochChangeOutcome(s, caller, s.epoch + 1, s');
    NewEpochFreezes(s, caller, v, s');
  }

  lemma EpochChangeOutcome(s: State, caller: Address, next: Epoch, s': State)
    requires Outcome(s, SyscallOnEpochChange(caller, next)) == Ok(s')
    ensures HandleSyscallOnEpochChange(s, caller, next) == Ok(s')
  {
    assert Credited(s, SyscallOnEpochChange(caller, next)) == s;
  }

  lemma NewEpochFreezes(s: State, caller: Address, v: ValId, s': State)
    requires Sound(s) && AllAccrue(s) && s.inBoundary
    requires HandleSyscallOnEpochChange(s, caller, s.epoch + 1) == Ok(s')
    ensures s'.epoch == s.epoch + 1 && HandedOver(PoolOf(s, v), PoolOf(s', v), s.epoch)
  {
    assert Accrues(s, v) && Books(PoolOf(s, v), s.epoch, s.inBoundary);
    EpochChangeHandsOver(s, s', v);
  }
}
