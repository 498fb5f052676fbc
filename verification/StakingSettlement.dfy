/**
 * How often a delegator is settled hardly matters: over lifecycle runs, any
 * number of extra settlements changes nothing but the units that rounding
 * moves between the delegator and the unclaimed rewards of its validator.
 */
module StakingSettlement {
  import opened Checked
  import opened Ledger
  import opened LedgerSettlement
  import opened ValidatorSets
  import opened Staking
  import opened StakingInvariant
  import opened StakingLifecycle
  import opened StakingOrder
  import opened StakingHistory
  import opened StakingProgress

  // ----- states that differ in one record ----------------------------------------

  /** `t` is `s` but for the record of `a` at `v`, the unclaimed rewards there, and what has been paid out. */
  predicate Diverged(s: State, t: State, v: ValId, a: Address) {
    && v in s.pools && v in t.pools && Apart(s.pools[v], t.pools[v], a)
    && t == s.(pools := s.pools[v := t.pools[v]], paid := t.paid)
  }

  /** The two states move alike. */
  predicate StepAlike(s: State, t: State, s': State, t': State, v: ValId, a: Address) {
    && Diverged(s, t, v, a) && Diverged(s', t', v, a)
    && MoveAlike(s.pools[v], t.pools[v], s'.pools[v], t'.pools[v], a)
    && t'.paid - t.paid == s'.paid - s.paid
  }

  /** What becomes of pool `u` of either state. */
  predicate PoolsAlike(s: State, t: State, v: ValId, a: Address, u: ValId, p: Pool, q: Pool) {
    if u == v then v in s.pools && v in t.pools && MoveAlike(s.pools[v], t.pools[v], p, q, a) else p == q
  }

  lemma OtherPoolSame(s: State, t: State, v: ValId, a: Address, u: ValId)
    requires Diverged(s, t, v, a)
    ensures u != v ==> PoolOf(t, u) == PoolOf(s, u)
    ensures u == v ==> PoolOf(s, u) == s.pools[v] && PoolOf(t, u) == t.pools[v]
    ensures PoolOf(t, u).val == PoolOf(s, u).val.(unclaimed := PoolOf(t, u).val.unclaimed)
    ensures PoolOf(t, u).wds == PoolOf(s, u).wds
  {}

  lemma WithPoolAlike(s: State, t: State, v: ValId, a: Address, u: ValId, p: Pool, q: Pool)
    requires Diverged(s, t, v, a) && PoolsAlike(s, t, v, a, u, p, q)
    ensures StepAlike(s, t, WithPool(s, u, p), WithPool(t, u, q), v, a)
  {
    var s', t' := WithPool(s, u, p), WithPool(t, u, q);
    assert t'.pools == s'.pools[v := t'.pools[v]];
    if u != v {
      StayAlike(s.pools[v], t.pools[v], a);
    }
  }

  lemma StepAlikeTransitive(s: State, t: State, s1: State, t1: State, s2: State, t2: State, v: ValId, a: Address)
    requires StepAlike(s, t, s1, t1, v, a) && StepAlike(s1, t1, s2, t2, v, a)
    ensures StepAlike(s, t, s2, t2, v, a)
  {
    AlikeTransitive(s.pools[v], t.pools[v], s1.pools[v], t1.pools[v], s2.pools[v], t2.pools[v], a);
  }

  lemma StandAlike(s: State, t: State, v: ValId, a: Address)
    requires Diverged(s, t, v, a)
    ensures StepAlike(s, t, s, t, v, a)
  {
    StayAlike(s.pools[v], t.pools[v], a);
  }

  /** Changing the rest of two states in the same way. */
  lemma RestAlike(s: State, t: State, s': State, t': State, v: ValId, a: Address)
    requires Diverged(s, t, v, a) && s'.pools == s.pools && t'.pools == t.pools
    requires t' == s'.(pools := t'.pools, paid := t'.paid)
    requires t'.paid - t.paid == s'.paid - s.paid
    ensures StepAlike(s, t, s', t', v, a)
  {
    StayAlike(s.pools[v], t.pools[v], a);
  }

  // ----- one handler at a time -------------------------------------------------------

  lemma EnlistAlike(s: State, t: State, u: ValId, b: Address, s': State, t': State, v: ValId, a: Address)
    requires Diverged(s, t, v, a) && Enlist(s, u, b) == Ok(s') && Enlist(t, u, b) == Ok(t')
    ensures StepAlike(s, t, s', t', v, a)
  {
    OtherPoolSame(s, t, v, a, u);
    RestAlike(s, t, s', t', v, a);
  }

  lemma DelegatedPoolsAlike(
    s: State, t: State, u: ValId, b: Address, amount: nat, p: Pool, q: Pool, v: ValId, a: Address)
    requires Diverged(s, t, v, a) && (u != v || b != a)
    requires Ledger.Delegate(PoolOf(s, u), s.epoch, s.inBoundary, b, amount) == Ok(p)
    requires Ledger.Delegate(PoolOf(t, u), t.epoch, t.inBoundary, b, amount) == Ok(q)
    ensures PoolsAlike(s, t, v, a, u, p, q)
  {
    OtherPoolSame(s, t, v, a, u);
    if u == v {
      DelegateAlike(s.pools[v], t.pools[v], s.epoch, s.inBoundary, a, b, amount, p, q);
    }
  }

  lemma DelegatedThenEnlisted(s: State, u: ValId, b: Address, amount: nat, s': State) returns (p: Pool)
    requires InternalDelegate(s, u, b, amount) == Ok(s')
    ensures Ledger.Delegate(PoolOf(s, u), s.epoch, s.inBoundary, b, amount) == Ok(p)
    ensures Enlist(WithPool(s, u, p), u, b) == Ok(s')
  {
    p := Ledger.Delegate(PoolOf(s, u), s.epoch, s.inBoundary, b, amount).value;
  }

  lemma InternalDelegateAlike(
    s: State, t: State, u: ValId, b: Address, amount: nat, s': State, t': State, v: ValId, a: Address)
    requires Diverged(s, t, v, a) && (u != v || b != a)
    requires InternalDelegate(s, u, b, amount) == Ok(s') && InternalDelegate(t, u, b, amount) == Ok(t')
    ensures StepAlike(s, t, s', t', v, a)
  {
    var p := DelegatedThenEnlisted(s, u, b, amount, s');
    var q := DelegatedThenEnlisted(t, u, b, amount, t');
    DelegatedPoolsAlike(s, t, u, b, amount, p, q, v, a);
    WithPoolAlike(s, t, v, a, u, p, q);
    EnlistAlike(WithPool(s, u, p), WithPool(t, u, q), u, b, s', t', v, a);
    StepAlikeTransitive(s, t, WithPool(s, u, p), WithPool(t, u, q), s', t', v, a);
  }

  lemma UndelegatedPoolsAlike(
    s: State, t: State, u: ValId, b: Address, amount: nat, wid: nat, p: Pool, q: Pool, v: ValId, a: Address)
    requires Diverged(s, t, v, a) && (u != v || b != a)
    requires Ledger.Undelegate(PoolOf(s, u), s.epoch, s.inBoundary, b, amount, wid) == Ok(p)
    requires Ledger.Undelegate(PoolOf(t, u), t.epoch, t.inBoundary, b, amount, wid) == Ok(q)
    ensures PoolsAlike(s, t, v, a, u, p, q) && TotalOf(q, b) == TotalOf(p, b)
  {
    OtherPoolSame(s, t, v, a, u);
    if u == v {
      UndelegateAlike(s.pools[v], t.pools[v], s.epoch, s.inBoundary, a, b, amount, wid, p, q);
    }
  }

  lemma HandleUndelegateAlike(
    s: State, t: State, u: ValId, b: Address, amount: nat, wid: nat, s': State, t': State, v: ValId, a: Address)
    requires Diverged(s, t, v, a) && (u != v || b != a || amount == 0)
    requires HandleUndelegate(s, u, b, amount, wid) == Ok(s') && HandleUndelegate(t, u, b, amount, wid) == Ok(t')
    ensures StepAlike(s, t, s', t', v, a)
  {
    if amount == 0 {
      StandAlike(s, t, v, a);
    } else {
      var p := HandleUndelegateSteps(s, u, b, amount, wid, s');
      var q := HandleUndelegateSteps(t, u, b, amount, wid, t');
      UndelegatedPoolsAlike(s, t, u, b, amount, wid, p, q, v, a);
      WithPoolAlike(s, t, v, a, u, p, q);
      RestAlike(WithPool(s, u, p), WithPool(t, u, q), s', t', v, a);
      StepAlikeTransitive(s, t, WithPool(s, u, p), WithPool(t, u, q), s', t', v, a);
    }
  }

  lemma WithdrawnPool(s: State, u: ValId, b: Address, wid: nat, s': State) returns (p: Pool, payout: nat)
    requires HandleWithdraw(s, u, b, wid) == Ok(s')
    ensures Ledger.Withdraw(PoolOf(s, u), s.epoch, b, wid) == Ok((p, payout))
    ensures s' == WithPool(s, u, p).(paid := s.paid + payout)
  {
    var r := Ledger.Withdraw(PoolOf(s, u), s.epoch, b, wid).value;
    p, payout := r.0, r.1;
  }

  lemma HandleWithdrawAlike(
    s: State, t: State, u: ValId, b: Address, wid: nat, s': State, t': State, v: ValId, a: Address)
    requires Diverged(s, t, v, a)
    requires HandleWithdraw(s, u, b, wid) == Ok(s') && HandleWithdraw(t, u, b, wid) == Ok(t')
    ensures StepAlike(s, t, s', t', v, a)
  {
    var p, paidP := WithdrawnPool(s, u, b, wid, s');
    var q, paidQ := WithdrawnPool(t, u, b, wid, t');
    OtherPoolSame(s, t, v, a, u);
    if u == v {
      WithdrawAlike(s.pools[v], t.pools[v], s.epoch, a, b, wid, p, paidP, q, paidQ);
    }
    WithPoolAlike(s, t, v, a, u, p, q);
    RestAlike(WithPool(s, u, p), WithPool(t, u, q), s', t', v, a);
    StepAlikeTransitive(s, t, WithPool(s, u, p), WithPool(t, u, q), s', t', v, a);
  }

  lemma PulledPoolsAlike(s: State, t: State, u: ValId, b: Address, p: Pool, q: Pool, v: ValId, a: Address)
    requires Diverged(s, t, v, a) && (u != v || b != a)
    requires Pull(PoolOf(s, u), s.epoch, b) == Ok(p) && Pull(PoolOf(t, u), t.epoch, b) == Ok(q)
    requires b in p.dels && b in q.dels
    ensures StepAlike(s, t, WithPool(s, u, p), WithPool(t, u, q), v, a)
    ensures q.dels[b] == p.dels[b]
    ensures StepAlike(s, t, WithPool(s, u, ClearRewards(p, b)), WithPool(t, u, ClearRewards(q, b)), v, a)
  {
    OtherPoolSame(s, t, v, a, u);
    if u == v {
      PullAlike(s.pools[v], t.pools[v], s.epoch, a, b, p, q);
      ClearRewardsAlike(p, q, a, b);
      AlikeTransitive(s.pools[v], t.pools[v], p, q, ClearRewards(p, b), ClearRewards(q, b), a);
    }
    WithPoolAlike(s, t, v, a, u, p, q);
    WithPoolAlike(s, t, v, a, u, ClearRewards(p, b), ClearRewards(q, b));
  }

  lemma ClaimedPool(s: State, u: ValId, b: Address, s': State) returns (p: Pool)
    requires HandleClaimRewards(s, u, b) == Ok(s')
    ensures Pull(PoolOf(s, u), s.epoch, b) == Ok(p) && b in p.dels
    ensures if p.dels[b].rewards == 0 then s' == WithPool(s, u, p)
            else s' == WithPool(s, u, ClearRewards(p, b)).(paid := s.paid + p.dels[b].rewards)
  {
    p := Pull(PoolOf(s, u), s.epoch, b).value;
  }

  lemma HandleClaimRewardsAlike(
    s: State, t: State, u: ValId, b: Address, s': State, t': State, v: ValId, a: Address)
    requires Diverged(s, t, v, a) && (u != v || b != a)
    requires HandleClaimRewards(s, u, b) == Ok(s') && HandleClaimRewards(t, u, b) == Ok(t')
    ensures StepAlike(s, t, s', t', v, a)
  {
    var p := ClaimedPool(s, u, b, s');
    var q := ClaimedPool(t, u, b, t');
    PulledPoolsAlike(s, t, u, b, p, q, v, a);
    if p.dels[b].rewards != 0 {
      var s1, t1 := WithPool(s, u, ClearRewards(p, b)), WithPool(t, u, ClearRewards(q, b));
      RestAlike(s1, t1, s', t', v, a);
      StepAlikeTransitive(s, t, s1, t1, s', t', v, a);
    }
  }

  lemma CompoundedPool(s: State, u: ValId, b: Address, s': State) returns (p: Pool)
    requires HandleCompound(s, u, b) == Ok(s')
    ensures Pull(PoolOf(s, u), s.epoch, b) == Ok(p) && b in p.dels
    ensures if p.dels[b].rewards == 0 then s' == WithPool(s, u, p)
            else InternalDelegate(WithPool(s, u, ClearRewards(p, b)), u, b, p.dels[b].rewards) == Ok(s')
  {
    p := Pull(PoolOf(s, u), s.epoch, b).value;
  }

  lemma HandleCompoundAlike(
    s: State, t: State, u: ValId, b: Address, s': State, t': State, v: ValId, a: Address)
    requires Diverged(s, t, v, a) && (u != v || b != a)
    requires HandleCompound(s, u, b) == Ok(s') && HandleCompound(t, u, b) == Ok(t')
    ensures StepAlike(s, t, s', t', v, a)
  {
    var p := CompoundedPool(s, u, b, s');
    var q := CompoundedPool(t, u, b, t');
    PulledPoolsAlike(s, t, u, b, p, q, v, a);
    if p.dels[b].rewards != 0 {
      var s1, t1 := WithPool(s, u, ClearRewards(p, b)), WithPool(t, u, ClearRewards(q, b));
      InternalDelegateAlike(s1, t1, u, b, p.dels[b].rewards, s', t', v, a);
      StepAlikeTransitive(s, t, s1, t1, s', t', v, a);
    }
  }

  lemma HandleGetDelegatorAlike(
    s: State, t: State, u: ValId, b: Address, s': State, t': State, v: ValId, a: Address)
    requires Diverged(s, t, v, a) && (u != v || b != a)
    requires HandleGetDelegator(s, u, b) == Ok(s') && HandleGetDelegator(t, u, b) == Ok(t')
    ensures StepAlike(s, t, s', t', v, a)
  {
    var p, q := Pull(PoolOf(s, u), s.epoch, b).value, Pull(PoolOf(t, u), t.epoch, b).value;
    PulledPoolsAlike(s, t, u, b, p, q, v, a);
  }

  lemma ChangeCommissionAlike(
    s: State, t: State, u: ValId, b: Address, commission: nat, s': State, t': State, v: ValId, a: Address)
    requires Diverged(s, t, v, a)
    requires HandleChangeCommission(s, u, b, commission) == Ok(s')
    requires HandleChangeCommission(t, u, b, commission) == Ok(t')
    ensures StepAlike(s, t, s', t', v, a)
  {
    OtherPoolSame(s, t, v, a, u);
    if u == v {
      CommissionAlike(s.pools[v], t.pools[v], a, commission);
    }
    WithPoolAlike(s, t, v, a, u, PoolOf(s', u), PoolOf(t', u));
  }

  lemma ExternalRewardAlike(
    s: State, t: State, u: ValId, value: nat, s': State, t': State, v: ValId, a: Address)
    requires Diverged(s, t, v, a)
    requires HandleExternalReward(s, u, value) == Ok(s') && HandleExternalReward(t, u, value) == Ok(t')
    ensures StepAlike(s, t, s', t', v, a)
  {
    OtherPoolSame(s, t, v, a, u);
    if u == v {
      DistributeAlike(s.pools[v], t.pools[v], a, value, ActiveStake(s, v), PoolOf(s', v), PoolOf(t', v));
    }
    WithPoolAlike(s, t, v, a, u, PoolOf(s', u), PoolOf(t', u));
  }

  lemma SyscallRewardAlike(
    s: State, t: State, caller: Address, author: Address, reward: nat, s': State, t': State, v: ValId, a: Address)
    requires Diverged(s, t, v, a) && IdsKnown(s) && IdsKnown(t)
    requires HandleSyscallReward(s, caller, author, reward) == Ok(s')
    requires HandleSyscallReward(t, caller, author, reward) == Ok(t')
    ensures StepAlike(s, t, s', t', v, a)
  {
    var u, p := SyscallRewardSteps(s, caller, author, reward, s');
    var w, q := SyscallRewardSteps(t, caller, author, reward, t');
    OtherPoolSame(s, t, v, a, u);
    if u == v {
      BlockRewardAlike(s.pools[v], t.pools[v], a, reward, ActiveView(s, v).commission, ActiveStake(s, v), p, q);
    }
    WithPoolAlike(s, t, v, a, u, p, q);
    RestAlike(WithPool(s, u, p), WithPool(t, u, q), s', t', v, a);
    StepAlikeTransitive(s, t, WithPool(s, u, p), WithPool(t, u, q), s', t', v, a);
  }

  lemma RegisteredAlike(
    s: State, t: State, auth: Address, blsKey: Address, commission: nat, s': State, t': State, v: ValId, a: Address)
    requires Diverged(s, t, v, a) && s.lastValId + 1 != v
    requires s' == Registered(s, auth, blsKey, commission) && t' == Registered(t, auth, blsKey, commission)
    ensures StepAlike(s, t, s', t', v, a)
  {
    var u := s.lastValId + 1;
    OtherPoolSame(s, t, v, a, u);
    WithPoolAlike(s, t, v, a, u, PoolOf(s', u), PoolOf(t', u));
    RestAlike(WithPool(s, u, PoolOf(s', u)), WithPool(t, u, PoolOf(t', u)), s', t', v, a);
    StepAlikeTransitive(s, t, WithPool(s, u, PoolOf(s', u)), WithPool(t, u, PoolOf(t', u)), s', t', v, a);
  }

  lemma ThenDelegateAlike(
    s: State, t: State, s1: State, t1: State, u: ValId, b: Address, amount: nat, s': State, t': State,
    v: ValId, a: Address)
    requires StepAlike(s, t, s1, t1, v, a) && u != v
    requires InternalDelegate(s1, u, b, amount) == Ok(s') && InternalDelegate(t1, u, b, amount) == Ok(t')
    ensures StepAlike(s, t, s', t', v, a)
  {
    InternalDelegateAlike(s1, t1, u, b, amount, s', t', v, a);
    StepAlikeTransitive(s, t, s1, t1, s', t', v, a);
  }

  lemma AddValidatorAlike(
    s: State, t: State, auth: Address, blsKey: Address, commission: nat, value: nat, u: ValId,
    s': State, t': State, v: ValId, a: Address)
    requires Diverged(s, t, v, a) && u == s.lastValId + 1 && u != v
    requires InternalDelegate(Registered(s, auth, blsKey, commission), u, auth, value) == Ok(s')
    requires InternalDelegate(Registered(t, auth, blsKey, commission), u, auth, value) == Ok(t')
    ensures StepAlike(s, t, s', t', v, a)
  {
    var s1, t1 := Registered(s, auth, blsKey, commission), Registered(t, auth, blsKey, commission);
    RegisteredAlike(s, t, auth, blsKey, commission, s1, t1, v, a);
    ThenDelegateAlike(s, t, s1, t1, u, auth, value, s', t', v, a);
  }

  lemma RegisteredThenDelegated(
    s: State, auth: Address, blsKey: Address, signedStake: nat, commission: nat, value: nat, u: ValId, s': State)
    requires u == s.lastValId + 1
    requires HandleAddValidator(s, auth, blsKey, signedStake, commission, value) == Ok(s')
    ensures InternalDelegate(Registered(s, auth, blsKey, commission), u, auth, value) == Ok(s')
  {
    AddValidatorSteps(s, auth, blsKey, signedStake, commission, value, s');
  }

  lemma HandleAddValidatorAlike(
    s: State, t: State, auth: Address, blsKey: Address, signedStake: nat, commission: nat, value: nat,
    s': State, t': State, v: ValId, a: Address)
    requires Diverged(s, t, v, a) && s.lastValId + 1 != v
    requires HandleAddValidator(s, auth, blsKey, signedStake, commission, value) == Ok(s')
    requires HandleAddValidator(t, auth, blsKey, signedStake, commission, value) == Ok(t')
    ensures StepAlike(s, t, s', t', v, a)
  {
    var u := s.lastValId + 1;
    RegisteredThenDelegated(s, auth, blsKey, signedStake, commission, value, u, s');
    RegisteredThenDelegated(t, auth, blsKey, signedStake, commission, value, u, t');
    AddValidatorAlike(s, t, auth, blsKey, commission, value, u, s', t', v, a);
  }

  lemma SnapshotAlike(s: State, t: State, caller: Address, s': State, t': State, v: ValId, a: Address)
    requires Diverged(s, t, v, a)
    requires HandleSyscallSnapshot(s, caller) == Ok(s') && HandleSyscallSnapshot(t, caller) == Ok(t')
    ensures StepAlike(s, t, s', t', v, a)
  {
    forall u: ValId
      ensures ValOf(t.pools, u) == ValOf(s.pools, u).(unclaimed := ValOf(t.pools, u).unclaimed)
    {
      OtherPoolSame(s, t, v, a, u);
    }
    SameSnapshot(s.sets, s.pools, t.pools);
    RestAlike(s, t, s', t', v, a);
  }

  lemma FrozenPoolsAlike(s: State, t: State, next: Epoch, v: ValId, a: Address)
    requires Diverged(s, t, v, a)
    ensures var frozen, frozen' := FreezeAll(s.pools, s.sets.snapshot, next), FreezeAll(t.pools, t.sets.snapshot, next);
            && v in frozen && v in frozen'
            && MoveAlike(s.pools[v], t.pools[v], frozen[v], frozen'[v], a)
            && frozen' == frozen[v := frozen'[v]]
  {
    StayAlike(s.pools[v], t.pools[v], a);
    FreezeAlike(s.pools[v], t.pools[v], a, next);
  }

  lemma EpochChangeAlike(
    s: State, t: State, caller: Address, next: Epoch, s': State, t': State, v: ValId, a: Address)
    requires Diverged(s, t, v, a)
    requires HandleSyscallOnEpochChange(s, caller, next) == Ok(s')
    requires HandleSyscallOnEpochChange(t, caller, next) == Ok(t')
    ensures StepAlike(s, t, s', t', v, a)
  {
    FrozenPoolsAlike(s, t, next, v, a);
  }

  // ----- any call that does not settle `a` ------------------------------------------------

  /** `op` settles `a` at `v` and moves none of its stake. */
  predicate OnlySettling(op: Op, v: ValId, a: Address) {
    op == GetDelegator(v, a) || op == ClaimRewards(v, a)
  }

  /** `op` moves none of the stake `a` has with `v`. */
  predicate MovesNoStake(op: Op, v: ValId, a: Address) {
    match op
    case Delegate(u, b, value) => u != v || b != a || value == 0
    case Undelegate(u, b, amount, _) => u != v || b != a || amount == 0
    case Compound(u, b) => u != v || b != a
    case _ => true
  }

  lemma StakeCallAlike(s: State, t: State, op: Op, s': State, t': State, v: ValId, a: Address)
    requires Diverged(s, t, v, a) && Known(s, v) && MovesNoStake(op, v, a)
    requires Handle(s, op) == Ok(s') && Handle(t, op) == Ok(t')
    requires op.AddValidator? || op.Delegate? || op.Undelegate? || op.Withdraw? || op.Compound?
    ensures StepAlike(s, t, s', t', v, a)
  {
    match op
    case AddValidator(auth, blsKey, signedStake, commission, value) =>
      HandleAddValidatorAlike(s, t, auth, blsKey, signedStake, commission, value, s', t', v, a);
    case Delegate(u, b, value) =>
      if value == 0 {
        StandAlike(s, t, v, a);
      } else {
        InternalDelegateAlike(s, t, u, b, value, s', t', v, a);
      }
    case Undelegate(u, b, amount, wid) => HandleUndelegateAlike(s, t, u, b, amount, wid, s', t', v, a);
    case Withdraw(u, b, wid) => HandleWithdrawAlike(s, t, u, b, wid, s', t', v, a);
    case Compound(u, b) => HandleCompoundAlike(s, t, u, b, s', t', v, a);
  }

  lemma HandleAlike(s: State, t: State, op: Op, s': State, t': State, v: ValId, a: Address)
    requires Diverged(s, t, v, a) && Known(s, v) && IdsKnown(s) && IdsKnown(t)
    requires MovesNoStake(op, v, a) && !OnlySettling(op, v, a)
    requires Handle(s, op) == Ok(s') && Handle(t, op) == Ok(t')
    ensures StepAlike(s, t, s', t', v, a)
  {
    match op
    case ClaimRewards(u, b) => HandleClaimRewardsAlike(s, t, u, b, s', t', v, a);
    case ChangeCommission(u, b, commission) => ChangeCommissionAlike(s, t, u, b, commission, s', t', v, a);
    case ExternalReward(u, value) => ExternalRewardAlike(s, t, u, value, s', t', v, a);
    case GetDelegator(u, b) => HandleGetDelegatorAlike(s, t, u, b, s', t', v, a);
    case SyscallReward(caller, author, reward) => SyscallRewardAlike(s, t, caller, author, reward, s', t', v, a);
    case SyscallSnapshot(caller) => SnapshotAlike(s, t, caller, s', t', v, a);
    case SyscallOnEpochChange(caller, next) => EpochChangeAlike(s, t, caller, next, s', t', v, a);
    case _ => StakeCallAlike(s, t, op, s', t', v, a);
  }

  // ----- whether a call goes through does not depend on it ----------------------------------

  lemma EarningAlike(s: State, t: State, u: ValId, b: Address, v: ValId, a: Address)
    requires Diverged(s, t, v, a) && (u != v || b != a)
    ensures EarningAt(PoolOf(t, u), b, t.epoch) == EarningAt(PoolOf(s, u), b, s.epoch)
  {
    OtherPoolSame(s, t, v, a, u);
  }

  lemma AcceptsAlike(s: State, t: State, op: Op, v: ValId, a: Address)
    requires Diverged(s, t, v, a) && MovesNoStake(op, v, a)
    ensures Accepts(t, op) <==> Accepts(s, op)
  {
    match op
    case Delegate(u, _, _) => OtherPoolSame(s, t, v, a, u);
    case Undelegate(u, b, amount, _) =>
      OtherPoolSame(s, t, v, a, u);
      if amount != 0 {
        EarningAlike(s, t, u, b, v, a);
      }
    case Withdraw(u, _, _) => OtherPoolSame(s, t, v, a, u);
    case ChangeCommission(u, _, _) => OtherPoolSame(s, t, v, a, u);
    case ExternalReward(u, _) => OtherPoolSame(s, t, v, a, u);
    case _ =>
  }

  /** A call goes through exactly if it is acceptable, as long as its value can be counted. */
  lemma GoesThrough(s: State, op: Op)
    requires InOrder(s) && !TooMuchValue(s.credited + ValueOf(op))
    ensures Outcome(s, op).Ok? <==> Accepts(s, op)
  {
    OutcomeProgress(s, op);
  }

  // ----- how far the second state is ahead ---------------------------------------------------

  /** What `a` has been credited with at `v`, or been paid by anyone, more in `t` than in `s`. */
  function Lead(s: State, t: State, v: ValId, a: Address): int
    requires Diverged(s, t, v, a)
  {
    t.pools[v].dels[a].rewards + t.paid - s.pools[v].dels[a].rewards - s.paid
  }

  /**
   * `t` is where `s` is, except that `a` was settled `k` more times at `v`.
   * Record `d` has the windows that `a` started with.
   */
  predicate Trails(s: State, t: State, v: ValId, a: Address, d: Delegator, k: nat) {
    && Diverged(s, t, v, a)
    && var mine, other := s.pools[v].dels[a], t.pools[v].dels[a];
    && SameWindows(d, mine, s.epoch) && SameWindows(d, other, s.epoch)
    && mine.stake == other.stake == d.stake
    && (d.stake == 0 ==> mine.acc == other.acc)
    && Behind(d.stake, mine.acc, other.acc, Lead(s, t, v, a), k)
    && t.pools[v].val.unclaimed == s.pools[v].val.unclaimed - Lead(s, t, v, a)
  }

  lemma TrailsItself(s: State, v: ValId, a: Address)
    requires v in s.pools && a in s.pools[v].dels
    ensures Trails(s, s, v, a, s.pools[v].dels[a], 0)
  {
    var p := s.pools[v];
    assert p.dels == p.dels[a := p.dels[a]] && s.pools == s.pools[v := p];
  }

  lemma CreditedTrails(s: State, t: State, op: Op, v: ValId, a: Address, d: Delegator, k: nat)
    requires Trails(s, t, v, a, d, k)
    ensures Trails(Credited(s, op), Credited(t, op), v, a, d, k)
  {
    assert Credited(t, op).pools == Credited(s, op).pools[v := t.pools[v]];
  }

  /** A call that moves both alike. */
  lemma AlikeTrails(s: State, t: State, s': State, t': State, v: ValId, a: Address, d: Delegator, k: nat)
    requires Trails(s, t, v, a, d, k) && StepAlike(s, t, s', t', v, a) && s.epoch <= s'.epoch
    ensures Trails(s', t', v, a, d, k)
  {
    SameWindowsLater(d, s.pools[v].dels[a], s.epoch, s'.epoch);
    SameWindowsLater(d, t.pools[v].dels[a], s.epoch, s'.epoch);
  }

  // ----- settling `a` itself -----------------------------------------------------------------

  /** `s'` is `s` after `a` was settled at `v`. */
  predicate SettledIn(s: State, s': State, v: ValId, a: Address) {
    && v in s.pools && a in s.pools[v].dels && s.pools[v].dels[a].acc <= s.pools[v].val.acc
    && var p, d := s.pools[v], s.pools[v].dels[a];
    && var paid := Earned(d.stake, d.acc, p.val.acc);
    && paid <= p.val.unclaimed
    && s' == WithPool(s, v, p.(val := p.val.(unclaimed := p.val.unclaimed - paid),
                               dels := p.dels[a := SettledTo(d, s.epoch, p.val.acc)]))
  }

  lemma SettlesIn(s: State, v: ValId, a: Address, p: Pool)
    requires v in s.pools && a in s.pools[v].dels && NothingDue(s.pools[v].dels[a], s.epoch)
    requires AllOrdered(s) && Pull(PoolOf(s, v), s.epoch, a) == Ok(p)
    ensures SettledIn(s, WithPool(s, v, p), v, a)
  {
    assert OrderedAt(s, v);
    PullPays(s.pools[v], s.epoch, a, p);
  }

  /** Settling `a` in the second state alone. */
  lemma ExtraTrails(s: State, t: State, t': State, v: ValId, a: Address, d: Delegator, k: nat)
    requires Trails(s, t, v, a, d, k) && SettledIn(t, t', v, a)
    ensures Trails(s, t', v, a, d, k + 1)
  {
    var other := t.pools[v].dels[a];
    var acc := t.pools[v].val.acc;
    SettledWindows(d, other, s.epoch, acc);
    ExtraSettles(d.stake, s.pools[v].dels[a].acc, other.acc, acc, Lead(s, t, v, a), k);
    assert t'.pools == s.pools[v := t'.pools[v]];
    assert t'.pools[v].dels == s.pools[v].dels[a := t'.pools[v].dels[a]];
  }

  /** Settling `a` in both. */
  lemma BothTrail(s: State, t: State, s': State, t': State, v: ValId, a: Address, d: Delegator, k: nat)
    requires Trails(s, t, v, a, d, k) && SettledIn(s, s', v, a) && SettledIn(t, t', v, a)
    ensures Trails(s', t', v, a, d, k)
    ensures d.stake != 0 ==> s'.pools[v].dels[a].acc == t'.pools[v].dels[a].acc
  {
    var mine, other := s.pools[v].dels[a], t.pools[v].dels[a];
    var acc := s.pools[v].val.acc;
    SettledWindows(d, mine, s.epoch, acc);
    SettledWindows(d, other, s.epoch, acc);
    BothSettle(d.stake, mine.acc, other.acc, acc, Lead(s, t, v, a), k);
    assert t'.pools == s'.pools[v := t'.pools[v]];
    assert t'.pools[v].dels == s'.pools[v].dels[a := t'.pools[v].dels[a]];
  }

  // ----- one call ----------------------------------------------------------------------------

  /** `s'` is `s` after `a` took the rewards credited at `v`. */
  predicate CashedIn(s: State, s': State, v: ValId, a: Address) {
    && v in s.pools && a in s.pools[v].dels
    && var p, d := s.pools[v], s.pools[v].dels[a];
    && s' == WithPool(s, v, p.(dels := p.dels[a := d.(rewards := 0)])).(paid := s.paid + d.rewards)
  }

  lemma BothCash(s: State, t: State, s': State, t': State, v: ValId, a: Address, d: Delegator, k: nat)
    requires Trails(s, t, v, a, d, k) && CashedIn(s, s', v, a) && CashedIn(t, t', v, a)
    ensures Trails(s', t', v, a, d, k)
  {
    assert t'.pools == s'.pools[v := t'.pools[v]];
    assert t'.pools[v].dels == s'.pools[v].dels[a := t'.pools[v].dels[a]];
  }

  lemma GetDelegatorSettles(s: State, v: ValId, a: Address, s': State)
    requires v in s.pools && a in s.pools[v].dels && NothingDue(s.pools[v].dels[a], s.epoch)
    requires AllOrdered(s) && HandleGetDelegator(s, v, a) == Ok(s')
    ensures SettledIn(s, s', v, a)
  {
    SettlesIn(s, v, a, Pull(PoolOf(s, v), s.epoch, a).value);
  }

  lemma ClaimSettlesAndCashes(s: State, v: ValId, a: Address, s': State) returns (s1: State)
    requires v in s.pools && a in s.pools[v].dels && NothingDue(s.pools[v].dels[a], s.epoch)
    requires AllOrdered(s) && HandleClaimRewards(s, v, a) == Ok(s')
    ensures SettledIn(s, s1, v, a) && CashedIn(s1, s', v, a)
  {
    var p := ClaimedPool(s, v, a, s');
    s1 := WithPool(s, v, p);
    SettlesIn(s, v, a, p);
    if p.dels[a].rewards == 0 {
      assert p.dels == p.dels[a := p.dels[a].(rewards := 0)];
      assert s1.pools[v := p] == s1.pools;
    } else {
      assert s1.pools[v := ClearRewards(p, a)] == s.pools[v := ClearRewards(p, a)];
    }
  }

  lemma SettlingTrails(
    s: State, t: State, op: Op, s': State, t': State, v: ValId, a: Address, d: Delegator, k: nat)
    requires Trails(s, t, v, a, d, k) && NothingDue(d, s.epoch) && AllOrdered(s) && AllOrdered(t)
    requires OnlySettling(op, v, a) && Handle(s, op) == Ok(s') && Handle(t, op) == Ok(t')
    ensures Trails(s', t', v, a, d, k)
    ensures op.GetDelegator? ==> s'.paid == s.paid && t'.paid == t.paid
  {
    SameWindowsDue(d, s.pools[v].dels[a], s.epoch);
    SameWindowsDue(d, t.pools[v].dels[a], s.epoch);
    if op.GetDelegator? {
      GetDelegatorSettles(s, v, a, s');
      GetDelegatorSettles(t, v, a, t');
      BothTrail(s, t, s', t', v, a, d, k);
    } else {
      var s1 := ClaimSettlesAndCashes(s, v, a, s');
      var t1 := ClaimSettlesAndCashes(t, v, a, t');
      BothTrail(s, t, s1, t1, v, a, d, k);
      BothCash(s1, t1, s', t', v, a, d, k);
    }
  }

  lemma HandleTrails(
    s: State, t: State, op: Op, s': State, t': State, v: ValId, a: Address, d: Delegator, k: nat)
    requires Trails(s, t, v, a, d, k) && NothingDue(d, s.epoch) && Known(s, v)
    requires AllOrdered(s) && AllOrdered(t) && IdsKnown(s) && IdsKnown(t)
    requires MovesNoStake(op, v, a) && Handle(s, op) == Ok(s') && Handle(t, op) == Ok(t') && s.epoch <= s'.epoch
    ensures Trails(s', t', v, a, d, k)
    ensures op != ClaimRewards(v, a) ==> t'.paid - t.paid == s'.paid - s.paid
  {
    if OnlySettling(op, v, a) {
      SettlingTrails(s, t, op, s', t', v, a, d, k);
    } else {
      HandleAlike(s, t, op, s', t', v, a);
      AlikeTrails(s, t, s', t', v, a, d, k);
    }
  }

  lemma CreditedTrailsInOrder(
    s: State, t: State, op: Op, c: State, e: State, v: ValId, a: Address, d: Delegator, k: nat)
    requires InOrder(s) && InOrder(t) && Trails(s, t, v, a, d, k)
    requires c == Credited(s, op) && e == Credited(t, op)
    ensures Trails(c, e, v, a, d, k) && AllOrdered(c) && AllOrdered(e) && IdsKnown(c) && IdsKnown(e)
    ensures c.epoch == s.epoch && c.paid == s.paid && e.paid == t.paid && c.lastValId == s.lastValId
  {
    CreditedTrails(s, t, op, v, a, d, k);
    SamePoolsOrdered(s, c);
    SamePoolsOrdered(t, e);
  }

  lemma SameOutcome(s: State, t: State, op: Op, v: ValId, a: Address)
    requires InOrder(s) && InOrder(t) && Diverged(s, t, v, a)
    requires MovesNoStake(op, v, a) && !TooMuchValue(s.credited + ValueOf(op))
    ensures Outcome(t, op).Ok? <==> Outcome(s, op).Ok?
  {
    GoesThrough(s, op);
    GoesThrough(t, op);
    AcceptsAlike(s, t, op, v, a);
  }

  /** The same call made in both: it goes through in both or in neither. */
  lemma CommonTrails(
    s: State, t: State, op: Op, s': State, t': State, v: ValId, a: Address, d: Delegator, k: nat)
    requires InOrder(s) && InOrder(t) && Trails(s, t, v, a, d, k) && NothingDue(d, s.epoch) && Known(s, v)
    requires MovesNoStake(op, v, a) && (Outcome(t, op).Ok? <==> Outcome(s, op).Ok?)
    requires s' == Step(s, op) && t' == Step(t, op)
    ensures Trails(s', t', v, a, d, k)
    ensures op != ClaimRewards(v, a) ==> t'.paid - t.paid == s'.paid - s.paid
  {
    if Outcome(s, op).Ok? {
      var c, e := Credited(s, op), Credited(t, op);
      StepFollows(s, op, s');
      CreditedTrailsInOrder(s, t, op, c, e, v, a, d, k);
      HandleTrails(c, e, op, s', t', v, a, d, k);
    }
  }

  lemma SettlementSettles(s: State, v: ValId, a: Address, d: Delegator, s': State)
    requires InOrder(s) && !TooMuchValue(s.credited) && s' == Step(s, GetDelegator(v, a))
    requires v in s.pools && a in s.pools[v].dels
    requires SameWindows(d, s.pools[v].dels[a], s.epoch) && NothingDue(d, s.epoch)
    ensures SettledIn(s, s', v, a)
  {
    GoesThrough(s, GetDelegator(v, a));
    SameWindowsDue(d, s.pools[v].dels[a], s.epoch);
    assert Credited(s, GetDelegator(v, a)) == s;
    GetDelegatorSettles(s, v, a, s');
  }

  /** The call made in the second state alone. */
  lemma ExtraStepTrails(s: State, t: State, t': State, v: ValId, a: Address, d: Delegator, k: nat)
    requires InOrder(t) && Trails(s, t, v, a, d, k) && NothingDue(d, s.epoch) && !TooMuchValue(t.credited)
    requires t' == Step(t, GetDelegator(v, a))
    ensures Trails(s, t', v, a, d, k + 1) && t'.paid == t.paid
  {
    SettlementSettles(t, v, a, d, t');
    ExtraTrails(s, t, t', v, a, d, k);
  }

  // ----- every run -----------------------------------------------------------------------------

  /** `more` is `ops` with `extra` put in `k` times, anywhere. */
  ghost predicate Inserts(ops: seq<Op>, more: seq<Op>, extra: Op, k: nat) {
    if more == [] then ops == [] && k == 0
    else
      var init, last := more[..|more| - 1], more[|more| - 1];
      || (last == extra && k > 0 && Inserts(ops, init, extra, k - 1))
      || (ops != [] && last == ops[|ops| - 1] && Inserts(ops[..|ops| - 1], init, extra, k))
  }

  /** All value the calls offer. */
  function TotalValue(ops: seq<Op>): nat {
    if ops == [] then 0 else TotalValue(ops[..|ops| - 1]) + ValueOf(ops[|ops| - 1])
  }

  lemma StepCredits(s: State, op: Op, s': State)
    requires Sound(s) && s' == Step(s, op)
    ensures s'.credited <= s.credited + ValueOf(op) && s.epoch <= s'.epoch
  {
    StepFollows(s, op, s');
    if Outcome(s, op) == Ok(s') {
      CreditSound(s, op);
      HandleFollows(Credited(s, op), op, s');
    }
  }

  lemma DelegationKeepsIds(s: State, v: ValId, a: Address, amount: nat, s': State)
    requires InternalDelegate(s, v, a, amount) == Ok(s')
    ensures s'.lastValId == s.lastValId
  {
    var p := DelegatedThenEnlisted(s, v, a, amount, s');
  }

  lemma StakeCallKeepsIds(s: State, op: Op, s': State)
    requires Handle(s, op) == Ok(s')
    requires op.AddValidator? || op.Delegate? || op.Undelegate? || op.Withdraw? || op.Compound?
    ensures s.lastValId <= s'.lastValId
  {
    match op
    case AddValidator(auth, blsKey, signedStake, commission, value) =>
      RegisteredThenDelegated(s, auth, blsKey, signedStake, commission, value, s.lastValId + 1, s');
      DelegationKeepsIds(Registered(s, auth, blsKey, commission), s.lastValId + 1, auth, value, s');
    case Delegate(u, b, value) =>
      if value != 0 {
        DelegationKeepsIds(s, u, b, value, s');
      }
    case Undelegate(u, b, amount, wid) =>
      if amount != 0 {
        var p := HandleUndelegateSteps(s, u, b, amount, wid, s');
      }
    case Withdraw(u, b, wid) =>
      var p, payout := WithdrawnPool(s, u, b, wid, s');
    case Compound(u, b) =>
      var p := CompoundedPool(s, u, b, s');
      if p.dels[b].rewards != 0 {
        DelegationKeepsIds(WithPool(s, u, ClearRewards(p, b)), u, b, p.dels[b].rewards, s');
      }
  }

  lemma HandleKeepsIds(s: State, op: Op, s': State)
    requires Handle(s, op) == Ok(s')
    ensures s.lastValId <= s'.lastValId
  {
    match op
    case ClaimRewards(u, b) =>
      var p := ClaimedPool(s, u, b, s');
    case ChangeCommission(_, _, _) =>
    case ExternalReward(_, _) =>
    case GetDelegator(_, _) =>
    case SyscallReward(_, _, _) =>
    case SyscallSnapshot(_) =>
    case SyscallOnEpochChange(_, _) =>
    case _ => StakeCallKeepsIds(s, op, s');
  }

  lemma StepKeepsKnown(s: State, op: Op, s': State, v: ValId)
    requires s' == Step(s, op) && Known(s, v)
    ensures Known(s', v)
  {
    if Outcome(s, op).Ok? {
      HandleKeepsIds(Credited(s, op), op, s');
    }
  }

  lemma SameLifecycle(s: State, t: State, op: Op)
    requires t.epoch == s.epoch && t.inBoundary == s.inBoundary
    requires Outcome(t, op).Ok? <==> Outcome(s, op).Ok?
    ensures InLifecycle(t, op) <==> InLifecycle(s, op)
  {}

  /** What is known of the two states after the same calls, with `k` more settlements in the second. */
  ghost predicate OnTheWay(
    s: State, t: State, v: ValId, a: Address, d: Delegator, k: nat, value: nat, claims: bool)
  {
    && InOrder(s) && InOrder(t) && Known(s, v)
    && Trails(s, t, v, a, d, k)
    && s.credited <= value
    && (!claims ==> t.paid == s.paid)
  }

  lemma ExtraOnTheWay(
    s: State, t: State, t': State, v: ValId, a: Address, d: Delegator, k: nat, value: nat, claims: bool)
    requires OnTheWay(s, t, v, a, d, k, value, claims) && NothingDue(d, s.epoch) && !TooMuchValue(value)
    requires t' == Step(t, GetDelegator(v, a))
    ensures OnTheWay(s, t', v, a, d, k + 1, value, claims) && InLifecycle(t, GetDelegator(v, a))
  {
    ExtraStepTrails(s, t, t', v, a, d, k);
    InOrderStep(t, GetDelegator(v, a), t');
  }

  lemma CommonOnTheWay(
    s: State, t: State, op: Op, s': State, t': State, v: ValId, a: Address, d: Delegator, k: nat,
    value: nat, claims: bool)
    requires OnTheWay(s, t, v, a, d, k, value, claims) && NothingDue(d, s.epoch)
    requires InLifecycle(s, op) && MovesNoStake(op, v, a) && !TooMuchValue(value + ValueOf(op))
    requires s' == Step(s, op) && t' == Step(t, op)
    ensures OnTheWay(s', t', v, a, d, k, value + ValueOf(op), claims || op == ClaimRewards(v, a))
    ensures InLifecycle(t, op)
  {
    SameOutcome(s, t, op, v, a);
    CommonTrails(s, t, op, s', t', v, a, d, k);
    SameLifecycle(s, t, op);
    InOrderStep(s, op, s');
    InOrderStep(t, op, t');
    StepCredits(s, op, s');
    StepKeepsKnown(s, op, s', v);
  }

  lemma NothingDueEarlier(d: Delegator, epoch: Epoch, later: Epoch)
    requires NothingDue(d, later) && epoch <= later
    ensures NothingDue(d, epoch)
  {}

  predicate AllMoveNoStake(ops: seq<Op>, v: ValId, a: Address) {
    forall op :: op in ops ==> MovesNoStake(op, v, a)
  }

  /** Calls of a lifecycle run from `s` that leave the stake of `a` at `v` alone and its windows not yet due. */
  ghost predicate CalmRun(s: State, ops: seq<Op>, v: ValId, a: Address) {
    && Known(s, v) && v in s.pools && a in s.pools[v].dels
    && LifecycleRun(s, ops) && AllMoveNoStake(ops, v, a)
    && NothingDue(s.pools[v].dels[a], Run(s, ops).epoch)
    && !TooMuchValue(s.credited + TotalValue(ops))
  }

  /** The calls `ops` from `s` in the one, `more` in the other. */
  ghost predicate Parallel(s: State, ops: seq<Op>, more: seq<Op>, k: nat, v: ValId, a: Address) {
    && v in s.pools && a in s.pools[v].dels
    && LifecycleRun(s, more)
    && OnTheWay(Run(s, ops), Run(s, more), v, a, s.pools[v].dels[a], k,
                s.credited + TotalValue(ops), ClaimRewards(v, a) in ops)
  }

  lemma CalmRunBegins(s: State, ops: seq<Op>, v: ValId, a: Address)
    requires InOrder(s) && CalmRun(s, ops, v, a) && ops != []
    ensures CalmRun(s, ops[..|ops| - 1], v, a)
    ensures NothingDue(s.pools[v].dels[a], Run(s, ops[..|ops| - 1]).epoch)
    ensures MovesNoStake(ops[|ops| - 1], v, a) && InLifecycle(Run(s, ops[..|ops| - 1]), ops[|ops| - 1])
  {
    var init := ops[..|ops| - 1];
    LifecycleRunFrom(s, init);
    StepCredits(Run(s, init), ops[|ops| - 1], Run(s, ops));
    NothingDueEarlier(s.pools[v].dels[a], Run(s, init).epoch, Run(s, ops).epoch);
  }

  lemma ParallelExtra(s: State, ops: seq<Op>, more: seq<Op>, k: nat, v: ValId, a: Address)
    requires CalmRun(s, ops, v, a) && more != [] && more[|more| - 1] == GetDelegator(v, a)
    requires Parallel(s, ops, more[..|more| - 1], k, v, a)
    ensures Parallel(s, ops, more, k + 1, v, a)
  {
    ExtraOnTheWay(Run(s, ops), Run(s, more[..|more| - 1]), Run(s, more), v, a, s.pools[v].dels[a], k,
                  s.credited + TotalValue(ops), ClaimRewards(v, a) in ops);
  }

  lemma LastCall(s: State, ops: seq<Op>, op: Op)
    requires ops != []
    ensures TotalValue(ops) == TotalValue(ops[..|ops| - 1]) + ValueOf(ops[|ops| - 1])
    ensures op in ops <==> op in ops[..|ops| - 1] || ops[|ops| - 1] == op
    ensures Run(s, ops) == Step(Run(s, ops[..|ops| - 1]), ops[|ops| - 1])
  {
    assert ops == ops[..|ops| - 1] + [ops[|ops| - 1]];
  }

  lemma LifecycleRunExtends(s: State, more: seq<Op>)
    requires more != [] && LifecycleRun(s, more[..|more| - 1])
    requires InLifecycle(Run(s, more[..|more| - 1]), more[|more| - 1])
    ensures LifecycleRun(s, more)
  {}

  lemma ParallelCommon(s: State, ops: seq<Op>, more: seq<Op>, k: nat, v: ValId, a: Address)
    requires InOrder(s) && CalmRun(s, ops, v, a) && ops != [] && more != []
    requires more[|more| - 1] == ops[|ops| - 1]
    requires Parallel(s, ops[..|ops| - 1], more[..|more| - 1], k, v, a)
    ensures Parallel(s, ops, more, k, v, a)
  {
    var init, op := ops[..|ops| - 1], ops[|ops| - 1];
    CalmRunBegins(s, ops, v, a);
    LastCall(s, ops, ClaimRewards(v, a));
    LastCall(s, more, op);
    CommonOnTheWay(Run(s, init), Run(s, more[..|more| - 1]), op, Run(s, ops), Run(s, more), v, a,
                   s.pools[v].dels[a], k, s.credited + TotalValue(init), ClaimRewards(v, a) in init);
    LifecycleRunExtends(s, more);
  }

  lemma {:induction false} RunsParallel(s: State, ops: seq<Op>, more: seq<Op>, k: nat, v: ValId, a: Address)
    requires InOrder(s) && CalmRun(s, ops, v, a) && Inserts(ops, more, GetDelegator(v, a), k)
    ensures Parallel(s, ops, more, k, v, a)
    decreases |more|
  {
    if more == [] {
      TrailsItself(s, v, a);
    } else {
      var init := more[..|more| - 1];
      if more[|more| - 1] == GetDelegator(v, a) && k > 0 && Inserts(ops, init, GetDelegator(v, a), k - 1) {
        RunsParallel(s, ops, init, k - 1, v, a);
        ParallelExtra(s, ops, more, k - 1, v, a);
      } else {
        CalmRunBegins(s, ops, v, a);
        RunsParallel(s, ops[..|ops| - 1], init, k, v, a);
        ParallelCommon(s, ops, more, k, v, a);
      }
    }
  }

  lemma {:induction false} LifecycleRunFrom(s: State, ops: seq<Op>)
    requires InOrder(s) && LifecycleRun(s, ops)
    ensures InOrder(Run(s, ops))
  {
    if ops != [] {
      LifecycleRunFrom(s, ops[..|ops| - 1]);
      InOrderStep(Run(s, ops[..|ops| - 1]), ops[|ops| - 1], Run(s, ops));
    }
  }

  /** `t` is `s` except that `lost` units of what `a` has earned at `v` stay in the unclaimed rewards. */
  predicate RoundedDown(s: State, t: State, v: ValId, a: Address, lost: nat) {
    && v in s.pools && v in t.pools && a in s.pools[v].dels && a in t.pools[v].dels
    && t.pools[v].dels[a].rewards + t.paid + lost == s.pools[v].dels[a].rewards + s.paid
    && var p := s.pools[v];
    && var d := p.dels[a].(rewards := t.pools[v].dels[a].rewards);
    && t == s.(pools := s.pools[v := p.(val := p.val.(unclaimed := p.val.unclaimed + lost),
                                        dels := p.dels[a := d])],
               paid := t.paid)
  }

  /** Once both are settled nothing is left but what rounding took. */
  lemma LevelAgain(s: State, t: State, s': State, t': State, v: ValId, a: Address, d: Delegator, k: nat)
    returns (lost: nat)
    requires Trails(s, t, v, a, d, k) && SettledIn(s, s', v, a) && SettledIn(t, t', v, a)
    ensures lost <= k && RoundedDown(s', t', v, a, lost)
  {
    BothTrail(s, t, s', t', v, a, d, k);
    lost := -Lead(s', t', v, a);
    var mine, other := s'.pools[v].dels[a], t'.pools[v].dels[a];
    assert other == mine.(rewards := other.rewards);
    assert t'.pools[v].val.unclaimed == s'.pools[v].val.unclaimed + lost;
  }

  /**
   * Settlement rounding: from any state of a lifecycle run, let calls follow
   * that move none of the stake `a` has with `v` and bring none of its windows
   * due, over any number of epochs; and put `k` extra settlements of `a`
   * anywhere among them.  The extra ones all go through, every other call goes
   * through or fails as before, and once `a` is settled at the end the only
   * difference is that it has been credited less by at most `k` units, which
   * are still in the unclaimed rewards of `v`.
   */
  lemma ExtraPullsRound(
    before: seq<Op>, s: State, ops: seq<Op>, more: seq<Op>, k: nat, v: ValId, a: Address, s': State, t': State)
    returns (lost: nat)
    requires LifecycleRun(GENESIS, before) && s == Run(GENESIS, before)
    requires CalmRun(s, ops, v, a) && Inserts(ops, more, GetDelegator(v, a), k)
    requires s' == Step(Run(s, ops), GetDelegator(v, a)) && t' == Step(Run(s, more), GetDelegator(v, a))
    ensures LifecycleRun(s, more)
    ensures lost <= k && RoundedDown(s', t', v, a, lost)
    ensures ClaimRewards(v, a) !in ops ==> t'.paid == s'.paid
  {
    LifecycleRunInOrder(before);
    RunsParallel(s, ops, more, k, v, a);
    lost := SettledAtTheEnd(Run(s, ops), Run(s, more), v, a, s.pools[v].dels[a], k,
                            s.credited + TotalValue(ops), ClaimRewards(v, a) in ops, s', t');
  }

  lemma SettledAtTheEnd(
    s: State, t: State, v: ValId, a: Address, d: Delegator, k: nat, value: nat, claims: bool, s': State, t': State)
    returns (lost: nat)
    requires OnTheWay(s, t, v, a, d, k, value, claims) && NothingDue(d, s.epoch) && !TooMuchValue(value)
    requires s' == Step(s, GetDelegator(v, a)) && t' == Step(t, GetDelegator(v, a))
    ensures lost <= k && RoundedDown(s', t', v, a, lost)
    ensures !claims ==> t'.paid == s'.paid
  {
    SettlementSettles(s, v, a, d, s');
    SettlementSettles(t, v, a, d, t');
    lost := LevelAgain(s, t, s', t', v, a, d, k);
  }
}
