/**
 * What the lifecycle is needed for.  The epoch change itself accepts any later
 * epoch, with or without a snapshot before it; without one it can leave a
 * delegator behind who can never be settled again.
 */
module StakingStranded {
  import opened Checked
  import opened Sums
  import opened Ledger
  import opened LedgerInvariant
  import opened LedgerAccrual
  import opened LedgerOrder
  import opened LedgerSettlement
  import opened Staking
  import opened StakingInvariant
  import opened StakingLifecycle
  import opened StakingOrder
  import opened StakingHistory
  import opened StakingProgress

  predicate Stranded(s: State, v: ValId, a: Address) {
    Stale(PoolOf(s, v), s.epoch, a)
  }

  /** In every state of every run, settling fails in a subtraction exactly for the stranded. */
  lemma StrandedIff(ops: seq<Op>, s: State, v: ValId, a: Address)
    requires s == Run(GENESIS, ops)
    ensures Stranded(s, v, a) <==> Pull(PoolOf(s, v), s.epoch, a) == Err(Underflow)
    ensures Stranded(s, v, a) <==> Outcome(s, GetDelegator(v, a)) == Err(Underflow)
  {
    RunSound(ops);
    RunOrdered(ops);
    SettlingUnderflowsIff(s, v, a);
    SettlingOutcome(s, v, a);
  }

  lemma SettlingUnderflowsIff(s: State, v: ValId, a: Address)
    requires AllBooks(s) && AllOrdered(s)
    ensures Stranded(s, v, a) <==> Pull(PoolOf(s, v), s.epoch, a) == Err(Underflow)
  {
    assert Books(PoolOf(s, v), s.epoch, s.inBoundary) && OrderedAt(s, v);
    PullUnderflowsIff(PoolOf(s, v), s.epoch, s.inBoundary, v, a);
  }

  lemma SettlingOutcome(s: State, v: ValId, a: Address)
    ensures Outcome(s, GetDelegator(v, a)) == Err(Underflow) <==> Pull(PoolOf(s, v), s.epoch, a) == Err(Underflow)
  {
    assert PoolOf(Credited(s, GetDelegator(v, a)), v) == PoolOf(s, v);
  }

  // ----- how a delegator is left behind ---------------------------------------

  /** The value the snapshot of epoch `e` has after the change to `next`. */
  function ValueAfterChange(s: State, v: ValId, next: Epoch, e: Epoch): nat {
    var p := PoolOf(s, v);
    if v in s.sets.snapshot && (e == next || e == next + 1) && Ref(p.snaps, e) > 0 then p.val.acc
    else Value(p.snaps, e)
  }

  /** The window of `a` that comes due first comes due at the change, with its snapshot behind the cursor. */
  predicate LeftBehind(s: State, v: ValId, next: Epoch, a: Address) {
    && a in PoolOf(s, v).dels
    && var d := PoolOf(s, v).dels[a];
    && 0 < FirstWindow(d) <= next
    && ValueAfterChange(s, v, next, FirstWindow(d)) < d.acc
  }

  lemma StaleAfterChange(s: State, caller: Address, next: Epoch, s': State, v: ValId, a: Address)
    requires HandleSyscallOnEpochChange(s, caller, next) == Ok(s')
    ensures Stranded(s', v, a) <==> LeftBehind(s, v, next, a)
  {
    var p := PoolOf(s, v);
    FrozenPool(s, next, v);
    if a in p.dels {
      FrozenSnapshot(p, next, FirstWindow(p.dels[a]));
    }
  }

  /**
   * Exactly whom an epoch change leaves behind, over every run and every later
   * epoch: afterwards a pull of `a` fails in a subtraction if and only if the
   * condition on its earlier window held before.
   */
  lemma EpochChangeStrands(ops: seq<Op>, s: State, caller: Address, next: Epoch, s': State, v: ValId, a: Address)
    requires s == Run(GENESIS, ops) && Outcome(s, SyscallOnEpochChange(caller, next)) == Ok(s')
    ensures Pull(PoolOf(s', v), s'.epoch, a) == Err(Underflow) <==> LeftBehind(s, v, next, a)
    ensures Stranded(s', v, a) <==> LeftBehind(s, v, next, a)
  {
    var op := SyscallOnEpochChange(caller, next);
    assert PoolOf(Credited(s, op), v) == PoolOf(s, v);
    StaleAfterChange(Credited(s, op), caller, next, s', v, a);
    RunOneMore(GENESIS, ops, op);
    StrandedIff(ops + [op], s', v, a);
  }

  lemma RunOneMore(s: State, ops: seq<Op>, op: Op)
    ensures Run(s, ops + [op]) == Step(Run(s, ops), op)
  {
    assert (ops + [op])[..|ops|] == ops;
  }

  /** On lifecycle runs nobody ever is. */
  lemma LifecycleStrandsNobody(ops: seq<Op>, v: ValId, a: Address)
    requires LifecycleRun(GENESIS, ops)
    ensures !Stranded(Run(GENESIS, ops), v, a)
  {
    var s := Run(GENESIS, ops);
    LifecycleRunAccrues(ops);
    assert Accrues(s, v);
    if a in PoolOf(s, v).dels {
      assert CursorOk(PoolOf(s, v), PoolOf(s, v).dels[a], s.epoch);
    }
  }

  // ----- nothing brings a stranded delegator back ---------------------------------

  /** The record of `a` is as it was, but for rewards credited from outside. */
  predicate RecordKept(p: Pool, p': Pool, a: Address) {
    a in p.dels ==> a in p'.dels && p'.dels[a] == p.dels[a].(rewards := p'.dels[a].rewards)
  }

  lemma JoinedKeepsRecord(
    p: Pool, p1: Pool, p': Pool, epoch: Epoch, inBoundary: bool, b: Address, amount: nat, a: Address)
    requires OnlySettles(p, p1, b) && Joined(p1, p', b, amount, epoch, inBoundary) && b != a
    ensures RecordKept(p, p', a)
  {}

  lemma DelegateKeepsRecord(
    p: Pool, epoch: Epoch, inBoundary: bool, b: Address, amount: nat, p': Pool, a: Address)
    requires Books(p, epoch, inBoundary) && amount > 0 && Stale(p, epoch, a)
    requires Ledger.Delegate(p, epoch, inBoundary, b, amount) == Ok(p')
    ensures RecordKept(p, p', a)
  {
    var p1 := DelegatePool(p, epoch, inBoundary, b, amount, p');
    if b == a {
      StalePullFails(p, epoch, inBoundary, a);
    }
    AddToWindowJoins(p1, epoch, inBoundary, b, amount, p');
    JoinedKeepsRecord(p, p1, p', epoch, inBoundary, b, amount, a);
  }

  lemma UndelegateKeepsRecord(
    p: Pool, epoch: Epoch, inBoundary: bool, b: Address, amount: nat, wid: nat, p': Pool, a: Address)
    requires Books(p, epoch, inBoundary) && amount > 0 && Stale(p, epoch, a)
    requires Ledger.Undelegate(p, epoch, inBoundary, b, amount, wid) == Ok(p')
    ensures RecordKept(p, p', a)
  {
    var p1, taken := UndelegatePool(p, epoch, inBoundary, b, amount, wid, p');
    if b == a {
      StalePullFails(p, epoch, inBoundary, a);
    }
    OpenWithdrawalOpens(p1, epoch, inBoundary, b, wid, taken, p');
  }

  lemma OthersKept(p: Pool, p': Pool, b: Address, a: Address)
    requires OnlySettles(p, p', b) && b != a
    ensures RecordKept(p, p', a)
  {}

  lemma PullKeepsRecord(p: Pool, epoch: Epoch, inBoundary: bool, b: Address, p': Pool, a: Address)
    requires Books(p, epoch, inBoundary) && Stale(p, epoch, a) && Pull(p, epoch, b) == Ok(p')
    ensures b != a && b in p'.dels && RecordKept(p, p', a)
  {
    if b == a {
      StalePullFails(p, epoch, inBoundary, a);
    }
    PullKeepsBooks(p, epoch, inBoundary, b, p');
    OthersKept(p, p', b, a);
  }

  /** A kept record with its snapshot in force stays stale. */
  lemma StaleKept(p: Pool, epoch: Epoch, p': Pool, epoch': Epoch, inBoundary: bool, a: Address)
    requires Stale(p, epoch, a) && RecordKept(p, p', a) && epoch <= epoch'
    requires Books(p', epoch', inBoundary) && SnapshotsKept(p.snaps, p'.snaps, epoch)
    ensures Stale(p', epoch', a)
  {
    WindowReferenced(p', a, FirstWindow(p.dels[a]));
  }

  lemma ClearedKeepsRecord(s: State, v: ValId, b: Address, p: Pool, s1: State, a: Address)
    requires Sound(s) && Stranded(s, v, a) && Pull(PoolOf(s, v), s.epoch, b) == Ok(p)
    requires b in p.dels && p.dels[b].rewards > 0 && s1 == WithPool(s, v, ClearRewards(p, b))
    ensures RecordKept(PoolOf(s, v), PoolOf(s1, v), a) && Stranded(s1, v, a)
  {
    assert Books(PoolOf(s, v), s.epoch, s.inBoundary);
    PullKeepsRecord(PoolOf(s, v), s.epoch, s.inBoundary, b, p, a);
    PullKeepsSnapshots(PoolOf(s, v), s.epoch, b, p);
    PulledAndCleared(s, v, b, p, s1);
    assert Books(PoolOf(s1, v), s1.epoch, s1.inBoundary);
    StaleKept(PoolOf(s, v), s.epoch, PoolOf(s1, v), s1.epoch, s1.inBoundary, a);
  }

  // One handler at a time: whatever succeeds at validator `u` keeps the record of `a` at `v`.

  lemma InternalDelegateKeeps(s: State, u: ValId, b: Address, amount: nat, s': State, v: ValId, a: Address)
    requires AllBooks(s) && Stranded(s, v, a) && amount > 0 && InternalDelegate(s, u, b, amount) == Ok(s')
    ensures RecordKept(PoolOf(s, v), PoolOf(s', v), a)
  {
    var p := InternalDelegateSteps(s, u, b, amount, s');
    if u == v {
      assert Books(PoolOf(s, v), s.epoch, s.inBoundary);
      DelegateKeepsRecord(PoolOf(s, v), s.epoch, s.inBoundary, b, amount, p, a);
    }
  }

  lemma UndelegateKeeps(s: State, u: ValId, b: Address, amount: nat, wid: nat, s': State, v: ValId, a: Address)
    requires AllBooks(s) && Stranded(s, v, a) && HandleUndelegate(s, u, b, amount, wid) == Ok(s')
    ensures RecordKept(PoolOf(s, v), PoolOf(s', v), a)
  {
    if amount != 0 {
      var p := HandleUndelegateSteps(s, u, b, amount, wid, s');
      if u == v {
        assert Books(PoolOf(s, v), s.epoch, s.inBoundary);
        UndelegateKeepsRecord(PoolOf(s, v), s.epoch, s.inBoundary, b, amount, wid, p, a);
      }
    }
  }

  lemma WithdrawKeeps(s: State, u: ValId, b: Address, wid: nat, s': State, v: ValId, a: Address)
    requires HandleWithdraw(s, u, b, wid) == Ok(s')
    ensures RecordKept(PoolOf(s, v), PoolOf(s', v), a)
  {
    var p, rewards := WithdrawSteps(s, u, b, wid, s');
  }

  lemma ClaimSteps(s: State, u: ValId, b: Address, s': State) returns (p: Pool)
    requires HandleClaimRewards(s, u, b) == Ok(s')
    ensures Pull(PoolOf(s, u), s.epoch, b) == Ok(p) && b in p.dels
    ensures s'.pools == s.pools[u := p] || s'.pools == s.pools[u := ClearRewards(p, b)]
  {
    p := Pull(PoolOf(s, u), s.epoch, b).value;
  }

  lemma ClearedOtherKept(p: Pool, p1: Pool, b: Address, a: Address)
    requires RecordKept(p, p1, a) && b != a && b in p1.dels
    ensures RecordKept(p, ClearRewards(p1, b), a)
  {}

  lemma ClaimKeeps(s: State, u: ValId, b: Address, s': State, v: ValId, a: Address)
    requires Sound(s) && Stranded(s, v, a) && HandleClaimRewards(s, u, b) == Ok(s')
    ensures RecordKept(PoolOf(s, v), PoolOf(s', v), a)
  {
    var p := ClaimSteps(s, u, b, s');
    if u == v {
      assert Books(PoolOf(s, v), s.epoch, s.inBoundary);
      PullKeepsRecord(PoolOf(s, v), s.epoch, s.inBoundary, b, p, a);
      ClearedOtherKept(PoolOf(s, v), p, b, a);
    }
  }

  lemma ClearedStays(s: State, u: ValId, b: Address, p: Pool, s1: State, v: ValId, a: Address)
    requires Sound(s) && Stranded(s, v, a) && Pull(PoolOf(s, u), s.epoch, b) == Ok(p)
    requires b in p.dels && p.dels[b].rewards > 0 && s1 == WithPool(s, u, ClearRewards(p, b))
    ensures AllBooks(s1) && Stranded(s1, v, a) && RecordKept(PoolOf(s, v), PoolOf(s1, v), a)
  {
    PulledAndCleared(s, u, b, p, s1);
    if u == v {
      ClearedKeepsRecord(s, v, b, p, s1, a);
    }
  }

  lemma RecordKeptTransitive(p: Pool, q: Pool, r: Pool, a: Address)
    requires RecordKept(p, q, a) && RecordKept(q, r, a)
    ensures RecordKept(p, r, a)
  {}

  lemma RedelegationKeeps(
    s: State, u: ValId, b: Address, amount: nat, s1: State, s': State, v: ValId, a: Address)
    requires AllBooks(s1) && Stranded(s1, v, a) && RecordKept(PoolOf(s, v), PoolOf(s1, v), a)
    requires amount > 0 && InternalDelegate(s1, u, b, amount) == Ok(s')
    ensures RecordKept(PoolOf(s, v), PoolOf(s', v), a)
  {
    InternalDelegateKeeps(s1, u, b, amount, s', v, a);
    RecordKeptTransitive(PoolOf(s, v), PoolOf(s1, v), PoolOf(s', v), a);
  }

  lemma CompoundKeeps(s: State, u: ValId, b: Address, s': State, v: ValId, a: Address)
    requires Sound(s) && Stranded(s, v, a) && HandleCompound(s, u, b) == Ok(s')
    ensures RecordKept(PoolOf(s, v), PoolOf(s', v), a)
  {
    var p := Pull(PoolOf(s, u), s.epoch, b).value;
    if p.dels[b].rewards == 0 {
      GetDelegatorKeeps(s, u, b, s', v, a);
    } else {
      var s1 := WithPool(s, u, ClearRewards(p, b));
      ClearedStays(s, u, b, p, s1, v, a);
      RedelegationKeeps(s, u, b, p.dels[b].rewards, s1, s', v, a);
    }
  }

  lemma GetDelegatorKeeps(s: State, u: ValId, b: Address, s': State, v: ValId, a: Address)
    requires Sound(s) && Stranded(s, v, a) && HandleGetDelegator(s, u, b) == Ok(s')
    ensures RecordKept(PoolOf(s, v), PoolOf(s', v), a)
  {
    if u == v {
      assert Books(PoolOf(s, v), s.epoch, s.inBoundary);
      PullKeepsRecord(PoolOf(s, v), s.epoch, s.inBoundary, b, PoolOf(s', v), a);
    }
  }

  lemma BlockRewardKeepsRecord(p: Pool, reward: nat, rate: nat, active: nat, p': Pool, a: Address)
    requires BlockReward(p, reward, rate, active) == Ok(p')
    ensures RecordKept(p, p', a)
  {
    var commission, shared, p1 := BlockRewardSteps(p, reward, rate, active, p');
    if shared != 0 {
      DistributeOnlyRises(p1, shared, active, p');
    }
  }

  lemma SyscallRewardKeeps(s: State, caller: Address, author: Address, reward: nat, s': State, v: ValId, a: Address)
    requires IdsKnown(s) && HandleSyscallReward(s, caller, author, reward) == Ok(s')
    ensures RecordKept(PoolOf(s, v), PoolOf(s', v), a)
  {
    var u, p := SyscallRewardSteps(s, caller, author, reward, s');
    if u == v {
      BlockRewardKeepsRecord(PoolOf(s, v), reward, ActiveView(s, v).commission, ActiveStake(s, v), p, a);
    }
  }

  lemma ExternalRewardKeeps(s: State, u: ValId, value: nat, s': State, v: ValId, a: Address)
    requires HandleExternalReward(s, u, value) == Ok(s')
    ensures RecordKept(PoolOf(s, v), PoolOf(s', v), a)
  {
    if u == v {
      DistributeOnlyRises(PoolOf(s, v), value, ActiveStake(s, v), PoolOf(s', v));
    }
  }

  lemma AddValidatorKeeps(
    s: State, auth: Address, blsKey: Address, signedStake: nat, commission: nat, value: nat,
    s1: State, s': State, v: ValId, a: Address)
    requires AllBooks(s1) && s1 == Registered(s, auth, blsKey, commission) && Stranded(s, v, a)
    requires HandleAddValidator(s, auth, blsKey, signedStake, commission, value) == Ok(s')
    ensures RecordKept(PoolOf(s, v), PoolOf(s', v), a)
  {
    AddValidatorSteps(s, auth, blsKey, signedStake, commission, value, s');
    assert PoolOf(s1, v).dels == PoolOf(s, v).dels && PoolOf(s1, v).snaps == PoolOf(s, v).snaps;
    InternalDelegateKeeps(s1, s1.lastValId, auth, value, s', v, a);
  }

  lemma EpochChangeKeeps(s: State, caller: Address, next: Epoch, s': State, v: ValId, a: Address)
    requires HandleSyscallOnEpochChange(s, caller, next) == Ok(s')
    ensures RecordKept(PoolOf(s, v), PoolOf(s', v), a)
  {
    FrozenPool(s, next, v);
  }

  lemma StakeCallKeeps(s: State, op: Op, s': State, v: ValId, a: Address)
    requires Sound(s) && Stranded(s, v, a) && Handle(s, op) == Ok(s')
    requires op.AddValidator? || op.Delegate? || op.Undelegate? || op.Withdraw? || op.Compound?
    ensures RecordKept(PoolOf(s, v), PoolOf(s', v), a)
  {
    match op
    case AddValidator(auth, blsKey, signedStake, commission, value) =>
      var s1 := Registered(s, auth, blsKey, commission);
      RegisteredSound(s, auth, blsKey, commission, s1);
      AddValidatorKeeps(s, auth, blsKey, signedStake, commission, value, s1, s', v, a);
    case Delegate(u, caller, value) =>
      if value != 0 {
        InternalDelegateKeeps(s, u, caller, value, s', v, a);
      }
    case Undelegate(u, caller, amount, wid) => UndelegateKeeps(s, u, caller, amount, wid, s', v, a);
    case Withdraw(u, caller, wid) => WithdrawKeeps(s, u, caller, wid, s', v, a);
    case Compound(u, caller) => CompoundKeeps(s, u, caller, s', v, a);
  }

  lemma HandleKeeps(s: State, op: Op, s': State, v: ValId, a: Address)
    requires Sound(s) && Stranded(s, v, a) && Handle(s, op) == Ok(s')
    ensures RecordKept(PoolOf(s, v), PoolOf(s', v), a)
  {
    match op
    case ClaimRewards(u, caller) => ClaimKeeps(s, u, caller, s', v, a);
    case ChangeCommission(u, _, _) => assert PoolOf(s', v).dels == PoolOf(s, v).dels;
    case ExternalReward(u, value) => ExternalRewardKeeps(s, u, value, s', v, a);
    case GetDelegator(u, delegator) => GetDelegatorKeeps(s, u, delegator, s', v, a);
    case SyscallReward(caller, author, reward) => SyscallRewardKeeps(s, caller, author, reward, s', v, a);
    case SyscallSnapshot(_) => assert PoolOf(s', v) == PoolOf(s, v);
    case SyscallOnEpochChange(caller, next) => EpochChangeKeeps(s, caller, next, s', v, a);
    case _ => StakeCallKeeps(s, op, s', v, a);
  }

  lemma StepKeeps(s: State, op: Op, s': State, v: ValId, a: Address)
    requires Sound(s) && Stranded(s, v, a) && s' == Step(s, op)
    ensures RecordKept(PoolOf(s, v), PoolOf(s', v), a)
  {
    if Outcome(s, op) == Ok(s') {
      CreditSound(s, op);
      assert PoolOf(Credited(s, op), v) == PoolOf(s, v);
      HandleKeeps(Credited(s, op), op, s', v, a);
    }
  }

  lemma StepStaysStranded(s: State, op: Op, s': State, v: ValId, a: Address)
    requires Sound(s) && Stranded(s, v, a) && s' == Step(s, op)
    ensures Stranded(s', v, a)
  {
    StepSound(s, op, s');
    StepKeeps(s, op, s', v, a);
    StepFollows(s, op, s');
    assert Books(PoolOf(s', v), s'.epoch, s'.inBoundary);
    StaleKept(PoolOf(s, v), s.epoch, PoolOf(s', v), s'.epoch, s'.inBoundary, a);
  }

  /**
   * Once stranded, always stranded: over every continuation, whatever its
   * epochs, the stake of the delegator stays where it is and every call that
   * would settle it fails with the same underflow.
   */
  lemma {:induction false} StrandedForever(s: State, more: seq<Op>, v: ValId, a: Address)
    requires Sound(s) && Stranded(s, v, a)
    ensures Stranded(Run(s, more), v, a)
    ensures Outcome(Run(s, more), GetDelegator(v, a)) == Err(Underflow)
    ensures Outcome(Run(s, more), ClaimRewards(v, a)) == Err(Underflow)
    ensures Outcome(Run(s, more), Compound(v, a)) == Err(Underflow)
    ensures forall amount: nat, wid: nat :: amount > 0 ==> Outcome(Run(s, more), Undelegate(v, a, amount, wid)).Err?
    ensures forall amount: nat :: amount > 0 ==> Outcome(Run(s, more), Delegate(v, a, amount)).Err?
  {
    if more != [] {
      var init := more[..|more| - 1];
      StrandedForever(s, init, v, a);
      RunKeepsSound(s, init);
      StepStaysStranded(Run(s, init), more[|more| - 1], Run(s, more), v, a);
    }
    RunKeepsSound(s, more);
    StrandedCallsFail(Run(s, more), v, a);
  }

  lemma StrandedCallsFail(s: State, v: ValId, a: Address)
    requires Sound(s) && Stranded(s, v, a)
    ensures Outcome(s, GetDelegator(v, a)) == Err(Underflow)
    ensures Outcome(s, ClaimRewards(v, a)) == Err(Underflow)
    ensures Outcome(s, Compound(v, a)) == Err(Underflow)
    ensures forall amount: nat, wid: nat :: amount > 0 ==> Outcome(s, Undelegate(v, a, amount, wid)).Err?
    ensures forall amount: nat :: amount > 0 ==> Outcome(s, Delegate(v, a, amount)).Err?
  {
    assert Books(PoolOf(s, v), s.epoch, s.inBoundary);
    StalePullFails(PoolOf(s, v), s.epoch, s.inBoundary, a);
  }

  // ----- a way to get there -------------------------------------------------------

  /** An active stake of `a` next to a window that opens at epoch `w`, and none before it. */
  predicate Waiting(p: Pool, epoch: Epoch, w: Epoch, a: Address) {
    && a in p.dels && p.dels[a].stake > 0
    && NothingDue(p.dels[a], epoch)
    && FirstWindow(p.dels[a]) == w > epoch
  }

  /** No window of `a` opens at epoch `e`. */
  predicate NoWindowAt(p: Pool, a: Address, e: Epoch) {
    a in p.dels ==> p.dels[a].deltaEpoch != e && p.dels[a].nextDeltaEpoch != e
  }

  lemma CompoundOpensNone(p: Pool, a: Address, e: Epoch, p': Pool)
    requires a in p.dels && NoWindowAt(p, a, e) && e > 0 && CompoundStep(p, a) == Ok(p')
    ensures NoWindowAt(p', a, e)
  {
    CompoundOnlySettles(p, a, p');
  }

  /** Settling opens no window. */
  lemma PullOpensNone(p: Pool, epoch: Epoch, a: Address, e: Epoch, p': Pool)
    requires NoWindowAt(p, a, e) && e > 0 && Pull(p, epoch, a) == Ok(p')
    ensures NoWindowAt(p', a, e)
  {
    var p0, p1, p2 := PullSteps(p, epoch, a, p');
    if IsEpochActive(epoch, p0.dels[a].nextDeltaEpoch) {
      CompoundOpensNone(p0, a, e, p1);
    }
    if IsEpochActive(epoch, p0.dels[a].deltaEpoch) {
      CompoundOpensNone(p1, a, e, p2);
    }
    AccrueOnlySettles(p2, a, p');
  }

  /** An active delegator delegates more: its window waits for the epoch the delegation activates in. */
  lemma DelegateWaits(p: Pool, epoch: Epoch, inBoundary: bool, a: Address, amount: nat, p': Pool)
    requires Books(p, epoch, inBoundary) && EarningAt(p, a, epoch) > 0 && amount > 0
    requires inBoundary ==> NoWindowAt(p, a, epoch + 1)
    requires Ledger.Delegate(p, epoch, inBoundary, a, amount) == Ok(p')
    ensures Waiting(p', epoch, ActivationEpoch(epoch, inBoundary), a)
  {
    var p1 := DelegatePool(p, epoch, inBoundary, a, amount, p');
    PulledStakeEarns(p, epoch, inBoundary, a, p1);
    if inBoundary {
      PullOpensNone(p, epoch, a, epoch + 1, p1);
    }
    AddToWindowJoins(p1, epoch, inBoundary, a, amount, p');
  }

  /** Settling moves the cursor of a waiting delegator to the present accumulator, past its snapshot. */
  lemma SettledPastSnapshot(p: Pool, epoch: Epoch, w: Epoch, a: Address, p': Pool)
    requires Waiting(p, epoch, w, a) && Value(p.snaps, w) < p.val.acc && CursorsReached(p)
    requires Pull(p, epoch, a) == Ok(p')
    ensures a in p'.dels && FirstWindow(p'.dels[a]) == w
    ensures p'.dels[a].acc == p.val.acc && p'.snaps == p.snaps
  {
    PullPays(p, epoch, a, p');
  }

  /** No divisor is so large that the smallest external reward would round to nothing. */
  lemma ShareIsPositive(amount: nat, active: nat)
    requires amount >= MIN_EXTERNAL_REWARD && active > 0 && UNIT_BIAS * active <= U256_MAX
    ensures amount * UNIT_BIAS / active > 0
  {
    assert active <= U256_MAX / UNIT_BIAS <= MIN_EXTERNAL_REWARD * UNIT_BIAS;
    assert MIN_EXTERNAL_REWARD * UNIT_BIAS <= amount * UNIT_BIAS;
    PositiveQuotient(amount * UNIT_BIAS, active);
  }

  lemma PositiveQuotient(x: nat, y: nat)
    requires 0 < y <= x
    ensures x / y > 0
  {}

  lemma RewardRaises(p: Pool, amount: nat, active: nat, p': Pool)
    requires amount >= MIN_EXTERNAL_REWARD && active > 0 && UNIT_BIAS * active <= U256_MAX
    requires Distribute(p, amount, active) == Ok(p')
    ensures p'.val.acc > p.val.acc && p'.dels == p.dels && p'.snaps == p.snaps
  {
    ShareIsPositive(amount, active);
  }

  lemma ActiveWithinCredit(s: State, v: ValId)
    requires InOrder(s) && ActiveStake(s, v) > 0
    ensures ActiveStake(s, v) <= s.credited
  {
    var p := PoolOf(s, v);
    assert Books(p, s.epoch, s.inBoundary) && Accrues(s, v);
    PoolWithinCredit(s, v);
    EarningWithinLiabilities(p, s.epoch);
  }

  lemma {:induction false} SumAtMost<K>(m: map<K, int>, n: map<K, int>)
    requires m.Keys == n.Keys && forall k :: k in m ==> m[k] <= n[k]
    ensures Sum(m) <= Sum(n)
    decreases |m|
  {
    if m.Keys == {} {
      SumEmpty(m);
      SumEmpty(n);
    } else {
      var k :| k in m;
      SumRemove(m, k);
      SumRemove(n, k);
      SumAtMost(m - {k}, n - {k});
    }
  }

  lemma EarningWithinLiabilities(p: Pool, epoch: Epoch)
    requires StakeExact(p)
    ensures EarningStake(p, epoch) <= Liabilities(p)
  {
    SumAtMost(EarningOf(p.dels, epoch), Totals(p.dels));
    SumAtMost(RequestEarningOf(p.wds, epoch), Amounts(p.wds));
    SumNonNegative(RewardsOf(p.dels));
  }

  /** The two states are in the same epoch and have the same sets. */
  predicate SameEpoch(s: State, s': State) {
    && SameMoment(s, s') && s'.sets.snapshot == s.sets.snapshot
  }

  /** An acceptable call goes through as long as its value can be counted. */
  lemma CallGoesThrough(s: State, op: Op, s': State)
    requires InOrder(s) && InLifecycle(s, op) && Accepts(s, op) && !TooMuchValue(s.credited + ValueOf(op))
    requires s' == Step(s, op)
    ensures Handle(Credited(s, op), op) == Ok(s') && InOrder(s')
  {
    OutcomeProgress(s, op);
    InOrderStep(s, op, s');
  }

  lemma DelegatedWaits(c: State, v: ValId, a: Address, amount: nat, s': State)
    requires AllBooks(c) && amount > 0 && EarningAt(PoolOf(c, v), a, c.epoch) > 0
    requires c.inBoundary ==> NoWindowAt(PoolOf(c, v), a, c.epoch + 1)
    requires InternalDelegate(c, v, a, amount) == Ok(s')
    ensures Waiting(PoolOf(s', v), c.epoch, ActivationEpoch(c.epoch, c.inBoundary), a) && SameEpoch(c, s')
    ensures s'.credited == c.credited && PoolOf(s', v).val.auth == PoolOf(c, v).val.auth
  {
    var p := InternalDelegateSteps(c, v, a, amount, s');
    assert Books(PoolOf(c, v), c.epoch, c.inBoundary);
    DelegateWaits(PoolOf(c, v), c.epoch, c.inBoundary, a, amount, p);
    GrownPool(PoolOf(c, v), c.epoch, c.inBoundary, a, amount, p);
  }

  lemma DelegateStage(s: State, v: ValId, a: Address, amount: nat, s': State)
    requires InOrder(s) && EarningAt(PoolOf(s, v), a, s.epoch) > 0
    requires s.inBoundary ==> NoWindowAt(PoolOf(s, v), a, s.epoch + 1)
    requires amount > 0 && Accepts(s, Delegate(v, a, amount)) && !TooMuchValue(s.credited + amount)
    requires s' == Step(s, Delegate(v, a, amount))
    ensures InOrder(s') && SameEpoch(s, s') && s'.credited == s.credited + amount
    ensures Waiting(PoolOf(s', v), s.epoch, ActivationEpoch(s.epoch, s.inBoundary), a)
    ensures Exists(PoolOf(s', v).val)
  {
    var op := Delegate(v, a, amount);
    var c := Credited(s, op);
    CallGoesThrough(s, op, s');
    CreditSound(s, op);
    assert PoolOf(c, v) == PoolOf(s, v);
    DelegatedWaits(c, v, a, amount, s');
  }

  lemma ExternalRewardChanges(c: State, v: ValId, value: nat, s': State)
    requires HandleExternalReward(c, v, value) == Ok(s')
    ensures SameEpoch(c, s') && s'.credited == c.credited
    ensures Distribute(PoolOf(c, v), value, ActiveStake(c, v)) == Ok(PoolOf(s', v))
  {}

  /** A reward takes the accumulator past the snapshot a window waits for. */
  lemma RewardedWaits(
    p: Pool, epoch: Epoch, inBoundary: bool, w: Epoch, a: Address, amount: nat, active: nat, p': Pool)
    requires Books(p, epoch, inBoundary) && Ordered(p) && Waiting(p, epoch, w, a)
    requires amount >= MIN_EXTERNAL_REWARD && active > 0 && UNIT_BIAS * active <= U256_MAX
    requires Distribute(p, amount, active) == Ok(p')
    ensures Waiting(p', epoch, w, a) && Value(p'.snaps, w) < p'.val.acc
  {
    WindowReferenced(p, a, w);
    RewardRaises(p, amount, active, p');
  }

  lemma RewardStage(s: State, v: ValId, w: Epoch, a: Address, value: nat, s': State)
    requires InOrder(s) && Waiting(PoolOf(s, v), s.epoch, w, a)
    requires Accepts(s, ExternalReward(v, value)) && !TooMuchValue(s.credited + value)
    requires s' == Step(s, ExternalReward(v, value))
    ensures InOrder(s') && SameEpoch(s, s') && s'.credited == s.credited + value
    ensures Waiting(PoolOf(s', v), s.epoch, w, a) && Value(PoolOf(s', v).snaps, w) < PoolOf(s', v).val.acc
  {
    var c := Credited(s, ExternalReward(v, value));
    CallGoesThrough(s, ExternalReward(v, value), s');
    ExternalRewardChanges(c, v, value, s');
    ActiveWithinCredit(s, v);
    assert PoolOf(c, v) == PoolOf(s, v) && ActiveStake(c, v) == ActiveStake(s, v);
    assert Books(PoolOf(s, v), s.epoch, s.inBoundary) && OrderedAt(s, v);
    RewardedWaits(PoolOf(s, v), s.epoch, s.inBoundary, w, a, value, ActiveStake(s, v), PoolOf(s', v));
  }

  lemma GetDelegatorChanges(c: State, v: ValId, a: Address, s': State)
    requires HandleGetDelegator(c, v, a) == Ok(s')
    ensures SameEpoch(c, s') && Pull(PoolOf(c, v), c.epoch, a) == Ok(PoolOf(s', v))
  {}

  /** The delegator is past the snapshot of the window that waits for epoch `w`. */
  predicate Overtaken(s: State, v: ValId, w: Epoch, a: Address) {
    var p := PoolOf(s, v);
    && a in p.dels && FirstWindow(p.dels[a]) == w > s.epoch
    && Value(p.snaps, w) < p.dels[a].acc
  }

  lemma SettleStage(s: State, v: ValId, w: Epoch, a: Address, s': State)
    requires InOrder(s) && Waiting(PoolOf(s, v), s.epoch, w, a) && !TooMuchValue(s.credited)
    requires Value(PoolOf(s, v).snaps, w) < PoolOf(s, v).val.acc
    requires s' == Step(s, GetDelegator(v, a))
    ensures SameEpoch(s, s') && Overtaken(s', v, w, a)
  {
    var c := Credited(s, GetDelegator(v, a));
    CallGoesThrough(s, GetDelegator(v, a), s');
    GetDelegatorChanges(c, v, a, s');
    assert PoolOf(c, v) == PoolOf(s, v) && OrderedAt(s, v);
    SettledPastSnapshot(PoolOf(s, v), s.epoch, w, a, PoolOf(s', v));
  }

  /** The change to `next` leaves the snapshot of epoch `w` as it is, and the window of `w` due. */
  predicate Passes(s: State, v: ValId, w: Epoch, next: Epoch) {
    w <= next && (v !in s.sets.snapshot || w < next)
  }

  lemma SkipStage(s: State, v: ValId, w: Epoch, a: Address, next: Epoch, s': State)
    requires Overtaken(s, v, w, a) && Passes(s, v, w, next)
    requires s' == Step(s, SyscallOnEpochChange(SYSTEM_ADDRESS, next))
    ensures Stranded(s', v, a)
  {
    var op := SyscallOnEpochChange(SYSTEM_ADDRESS, next);
    assert PoolOf(Credited(s, op), v) == PoolOf(s, v);
    StaleAfterChange(Credited(s, op), SYSTEM_ADDRESS, next, s', v, a);
  }

  /**
   * Without the lifecycle delegators are lost: from every state of a lifecycle
   * run, inside the boundary or not, an active delegator of an active validator
   * that delegates once more, is settled after a reward, and then sees the
   * epoch change pass its new window, is stranded.  The change passes the window
   * if it goes beyond the epoch of the window, even after a snapshot, or to that
   * epoch while the validator is not in the snapshot set.
   */
  lemma SkippedSnapshotStrands(
    ops: seq<Op>, s: State, v: ValId, a: Address, amount: nat, next: Epoch,
    s1: State, s2: State, s3: State, s4: State)
    requires LifecycleRun(GENESIS, ops) && s == Run(GENESIS, ops)
    requires ActiveStake(s, v) > 0 && EarningAt(PoolOf(s, v), a, s.epoch) > 0
    requires s.inBoundary ==> NoWindowAt(PoolOf(s, v), a, s.epoch + 1)
    requires amount > 0 && Accepts(s, Delegate(v, a, amount))
    requires !TooMuchValue(s.credited + amount + MIN_EXTERNAL_REWARD)
    requires Passes(s, v, ActivationEpoch(s.epoch, s.inBoundary), next)
    requires s1 == Step(s, Delegate(v, a, amount)) && s2 == Step(s1, ExternalReward(v, MIN_EXTERNAL_REWARD))
    requires s3 == Step(s2, GetDelegator(v, a)) && s4 == Step(s3, SyscallOnEpochChange(SYSTEM_ADDRESS, next))
    ensures Stranded(s4, v, a)
  {
    var w := ActivationEpoch(s.epoch, s.inBoundary);
    LifecycleRunInOrder(ops);
    DelegateStage(s, v, a, amount, s1);
    RewardStage(s1, v, w, a, MIN_EXTERNAL_REWARD, s2);
    SettleStage(s2, v, w, a, s3);
    SkipStage(s3, v, w, a, next, s4);
  }
}
