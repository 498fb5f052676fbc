/**
 * What each call of a user does to the stake and the requests it is about, in
 * terms of what can be read before and after it, and what that means for the
 * requests over whole runs.
 */
module StakingMoves {
  import opened Checked
  import opened Ledger
  import opened LedgerInvariant
  import opened LedgerAccrual
  import opened LedgerSettlement
  import opened Staking
  import opened StakingInvariant
  import opened StakingLifecycle
  import opened StakingProgress
  import opened StakingSettlement
  import opened StakingRewards

  // ----- settling moves no stake ------------------------------------------------

  lemma MaybeCompoundEarns(p: Pool, epoch: Epoch, inBoundary: bool, a: Address, due: bool, p': Pool, e: Epoch)
    requires a in p.dels && Books(p, epoch, inBoundary) && epoch <= e
    requires due ==> IsEpochActive(epoch, p.dels[a].deltaEpoch)
    requires Ok(p') == if due then CompoundStep(p, a) else Ok(p)
    ensures Books(p', epoch, inBoundary) && a in p'.dels
    ensures Earning(p'.dels[a], e) == Earning(p.dels[a], e)
    ensures due ==> p'.dels[a].deltaEpoch == p.dels[a].nextDeltaEpoch && p'.dels[a].nextDeltaEpoch == 0
  {
    if due {
      CompoundKeepsBooks(p, epoch, inBoundary, a, p');
      CompoundOnlySettles(p, a, p');
      assert WindowsOk(p.dels[a], epoch, inBoundary);
      CompoundedEarns(p.dels[a], p'.dels[a], epoch, inBoundary, e);
    }
  }

  lemma PullKeepsEarning(p: Pool, epoch: Epoch, inBoundary: bool, a: Address, p': Pool, e: Epoch)
    requires Books(p, epoch, inBoundary) && Pull(p, epoch, a) == Ok(p') && epoch <= e
    ensures EarningAt(p', a, e) == EarningAt(p, a, e)
  {
    var p0, p1, p2 := PullSteps(p, epoch, a, p');
    var t := Touch(p, a);
    TouchKeepsBooks(p, epoch, inBoundary, a);
    TouchEarns(p, a, e);
    PromoteKeepsBooks(t, epoch, inBoundary, a);
    PromotedOwesTheSame(t.dels[a], epoch, inBoundary, p.val.acc, p.snaps, e);
    PromotedWindows(t.dels[a], epoch, inBoundary);
    MaybeCompoundEarns(p0, epoch, inBoundary, a, IsEpochActive(epoch, p0.dels[a].nextDeltaEpoch), p1, e);
    MaybeCompoundEarns(p1, epoch, inBoundary, a, IsEpochActive(epoch, p0.dels[a].deltaEpoch), p2, e);
    AccrueEarns(p2, e, a, p');
  }

  /** No record but that of `a` changes. */
  predicate OnlyRecord(p: Pool, p': Pool, a: Address) {
    p'.dels.Keys == p.dels.Keys + {a} && forall b :: b in p.dels && b != a ==> p'.dels[b] == p.dels[b]
  }

  /** The stake of `a` that earns in epoch `e`, from epoch `from` on, is `more` than it was. */
  ghost predicate EarnsMore(p: Pool, p': Pool, a: Address, epoch: Epoch, from: Epoch, more: int) {
    forall e: Epoch :: epoch <= e ==> EarningAt(p', a, e) == EarningAt(p, a, e) + if from <= e then more else 0
  }

  // ----- undelegating ------------------------------------------------------------

  /** What an undelegation of `amount` takes from the earning stake `e`. */
  predicate Takes(taken: nat, amount: nat, e: nat) {
    && amount <= taken <= e
    && (e - taken == 0 || e - taken >= DUST_THRESHOLD)
    && (taken > amount ==> taken == e && e - amount < DUST_THRESHOLD)
  }

  /** The request an undelegation leaves. */
  predicate RequestMade(p: Pool, p': Pool, k: (Address, nat), taken: nat, epoch: Epoch, inBoundary: bool) {
    && k !in p.wds
    && p'.wds == p.wds[k := Withdrawal(taken, p.val.acc, if inBoundary then epoch + 2 else epoch + 1)]
  }

  lemma TakesFrom(stake: nat, amount: nat, taken: nat)
    requires amount <= stake && taken == CollectDust(stake, amount)
    ensures Takes(taken, amount, stake)
  {}

  /** The settled cursor of an active stake is the accumulator. */
  lemma PulledCursor(p: Pool, epoch: Epoch, inBoundary: bool, a: Address, p': Pool)
    requires Books(p, epoch, inBoundary) && Pull(p, epoch, a) == Ok(p')
    ensures p'.dels[a].stake != 0 ==> p'.dels[a].acc == p.val.acc
  {
    PullKeepsBooks(p, epoch, inBoundary, a, p');
    var p0, p1, p2 := PullSteps(p, epoch, a, p');
    AccrueLeavesCurrent(p2, a, p');
  }

  /** What an undelegation does to the pool, given the pool `g` with `a` settled. */
  ghost predicate Undelegated(
    p: Pool, g: Pool, p': Pool, epoch: Epoch, inBoundary: bool, k: (Address, nat), amount: nat, taken: nat)
  {
    && Takes(taken, amount, EarningAt(p, k.0, epoch))
    && RequestMade(p, p', k, taken, epoch, inBoundary)
    && EarnsMore(p, p', k.0, epoch, epoch, 0 - taken)
    && OnlyRecord(p, p', k.0) && RecordOf(p', k.0).rewards == RecordOf(g, k.0).rewards
    && RecordOf(p', k.0).acc == (if taken == EarningAt(p, k.0, epoch) then 0 else p.val.acc)
    && p'.val.stake == p.val.stake - taken && p'.val.acc == p.val.acc && p'.val.unclaimed == g.val.unclaimed
  }

  lemma OpenedEarnsLess(p: Pool, p': Pool, k: (Address, nat), taken: nat, opens: Epoch, epoch: Epoch)
    requires Opened(p, p', k, taken, opens)
    ensures EarnsMore(p, p', k.0, epoch, epoch, 0 - taken)
  {}

  lemma PullThenEarns(p: Pool, epoch: Epoch, inBoundary: bool, a: Address, p1: Pool, p': Pool, from: Epoch, more: int)
    requires Books(p, epoch, inBoundary) && Pull(p, epoch, a) == Ok(p1)
    requires EarnsMore(p1, p', a, epoch, from, more)
    ensures EarnsMore(p, p', a, epoch, from, more)
  {
    forall e: Epoch | epoch <= e
      ensures EarningAt(p', a, e) == EarningAt(p, a, e) + if from <= e then more else 0
    {
      PullKeepsEarning(p, epoch, inBoundary, a, p1, e);
    }
  }

  lemma OpenedUndelegates(
    p: Pool, g: Pool, p': Pool, epoch: Epoch, inBoundary: bool, k: (Address, nat), amount: nat, taken: nat)
    requires OnlySettles(p, g, k.0) && g.dels[k.0].acc == p.val.acc && k !in p.wds
    requires g.dels[k.0].stake == EarningAt(p, k.0, epoch)
    requires k.0 in p'.dels && p'.dels[k.0].acc == (if p'.dels[k.0].stake == 0 then 0 else g.dels[k.0].acc)
    requires Opened(g, p', k, taken, ActivationEpoch(epoch, inBoundary))
    requires Takes(taken, amount, EarningAt(p, k.0, epoch)) && EarnsMore(p, p', k.0, epoch, epoch, 0 - taken)
    ensures Undelegated(p, g, p', epoch, inBoundary, k, amount, taken)
  {}

  lemma UndelegationOpens(
    p: Pool, epoch: Epoch, inBoundary: bool, a: Address, amount: nat, wid: nat, p': Pool)
    returns (g: Pool, taken: nat)
    requires AllRequestsOk(p, epoch, inBoundary)
    requires amount > 0 && Ledger.Undelegate(p, epoch, inBoundary, a, amount, wid) == Ok(p')
    ensures (a, wid) !in p.wds
    ensures Pull(p, epoch, a) == Ok(g) && a in g.dels && Takes(taken, amount, g.dels[a].stake)
    ensures Opened(g, p', (a, wid), taken, ActivationEpoch(epoch, inBoundary))
    ensures p'.dels[a].acc == (if p'.dels[a].stake == 0 then 0 else g.dels[a].acc)
  {
    g := Pull(p, epoch, a).value;
    taken := CollectDust(g.dels[a].stake, amount);
    NoRequest(p, epoch, inBoundary, (a, wid));
    TakesFrom(g.dels[a].stake, amount, taken);
    OpenWithdrawalOpens(g, epoch, inBoundary, a, wid, taken, p');
  }

  lemma PoolUndelegated(
    p: Pool, epoch: Epoch, inBoundary: bool, a: Address, amount: nat, wid: nat, p': Pool)
    returns (g: Pool, taken: nat)
    requires Books(p, epoch, inBoundary) && amount > 0
    requires Ledger.Undelegate(p, epoch, inBoundary, a, amount, wid) == Ok(p')
    ensures Pull(p, epoch, a) == Ok(g) && Undelegated(p, g, p', epoch, inBoundary, (a, wid), amount, taken)
  {
    g, taken := UndelegationOpens(p, epoch, inBoundary, a, amount, wid, p');
    PulledStake(p, epoch, inBoundary, a, g);
    OpenedEarnsLess(g, p', (a, wid), taken, ActivationEpoch(epoch, inBoundary), epoch);
    PullThenEarns(p, epoch, inBoundary, a, g, p', epoch, 0 - taken);
    OpenedUndelegates(p, g, p', epoch, inBoundary, (a, wid), amount, taken);
  }

  lemma PulledStake(p: Pool, epoch: Epoch, inBoundary: bool, a: Address, g: Pool)
    requires Books(p, epoch, inBoundary) && Pull(p, epoch, a) == Ok(g)
    ensures OnlySettles(p, g, a) && g.dels[a].stake == EarningAt(p, a, epoch)
    ensures g.dels[a].stake != 0 ==> g.dels[a].acc == p.val.acc
  {
    PullKeepsBooks(p, epoch, inBoundary, a, g);
    PulledStakeEarns(p, epoch, inBoundary, a, g);
    PulledCursor(p, epoch, inBoundary, a, g);
  }

  /** Nothing changes but the pool of `v` and the two lists. */
  predicate OnlyPool(s: State, s': State, v: ValId) {
    s' == s.(pools := s.pools[v := PoolOf(s', v)], lists := s'.lists, sets := s'.sets)
  }

  lemma SettlementOutcome(s: State, v: ValId, a: Address, g: Pool)
    requires Pull(PoolOf(s, v), s.epoch, a) == Ok(g)
    ensures Outcome(s, GetDelegator(v, a)) == Ok(WithPool(s, v, g))
  {
    assert Credited(s, GetDelegator(v, a)) == s;
  }

  /**
   * Undelegating: of the stake that earns now the amount asked for moves into
   * a new request, which starts from the present accumulator and earns until
   * the next change of epoch that is still to come; a remainder too small to
   * stand alone goes with it, and only such a remainder does.
   */
  lemma UndelegateTakes(s: State, v: ValId, a: Address, amount: nat, wid: nat, s': State)
    returns (g: Pool, taken: nat)
    requires Sound(s) && amount > 0 && Outcome(s, Undelegate(v, a, amount, wid)) == Ok(s')
    ensures Outcome(s, GetDelegator(v, a)) == Ok(WithPool(s, v, g))
    ensures Undelegated(PoolOf(s, v), g, PoolOf(s', v), s.epoch, s.inBoundary, (a, wid), amount, taken)
    ensures OnlyPool(s, s', v) && s'.sets == s.sets
  {
    assert Books(PoolOf(s, v), s.epoch, s.inBoundary);
    assert Credited(s, Undelegate(v, a, amount, wid)) == s;
    var p := HandleUndelegateSteps(s, v, a, amount, wid, s');
    g, taken := PoolUndelegated(PoolOf(s, v), s.epoch, s.inBoundary, a, amount, wid, p);
    SettlementOutcome(s, v, a, g);
  }

  // ----- delegating ----------------------------------------------------------------

  /** What a delegation of `amount` does to the pool, given the pool `g` with `a` settled. */
  ghost predicate Delegated(
    p: Pool, g: Pool, p': Pool, epoch: Epoch, inBoundary: bool, a: Address, amount: nat)
  {
    && EarnsMore(p, p', a, epoch, if inBoundary then epoch + 2 else epoch + 1, amount)
    && OnlyRecord(p, p', a) && RecordOf(p', a).rewards == RecordOf(g, a).rewards
    && p'.wds == p.wds
    && p'.val.stake == p.val.stake + amount && p'.val.acc == p.val.acc && p'.val.unclaimed == g.val.unclaimed
  }

  lemma JoinedEarnsMore(p: Pool, p': Pool, a: Address, amount: nat, epoch: Epoch, inBoundary: bool)
    requires Joined(p, p', a, amount, epoch, inBoundary) && Settled(p.dels[a], epoch)
    requires WindowsOk(p.dels[a], epoch, inBoundary)
    ensures EarnsMore(p, p', a, epoch, if inBoundary then epoch + 2 else epoch + 1, amount)
  {}

  lemma JoinedDelegates(
    p: Pool, g: Pool, p': Pool, epoch: Epoch, inBoundary: bool, a: Address, amount: nat)
    requires OnlySettles(p, g, a) && Joined(g, p', a, amount, epoch, inBoundary)
    requires EarnsMore(p, p', a, epoch, if inBoundary then epoch + 2 else epoch + 1, amount)
    ensures Delegated(p, g, p', epoch, inBoundary, a, amount)
  {}

  lemma PoolDelegated(p: Pool, epoch: Epoch, inBoundary: bool, a: Address, amount: nat, p': Pool) returns (g: Pool)
    requires Books(p, epoch, inBoundary) && amount > 0
    requires Ledger.Delegate(p, epoch, inBoundary, a, amount) == Ok(p')
    ensures Pull(p, epoch, a) == Ok(g) && Delegated(p, g, p', epoch, inBoundary, a, amount)
  {
    g := DelegatePool(p, epoch, inBoundary, a, amount, p');
    AddToWindowJoins(g, epoch, inBoundary, a, amount, p');
    assert WindowsOk(g.dels[a], epoch, inBoundary);
    JoinedEarnsMore(g, p', a, amount, epoch, inBoundary);
    PullThenEarns(p, epoch, inBoundary, a, g, p', if inBoundary then epoch + 2 else epoch + 1, amount);
    JoinedDelegates(p, g, p', epoch, inBoundary, a, amount);
  }

  lemma StateDelegated(s: State, v: ValId, a: Address, amount: nat, s': State) returns (g: Pool)
    requires AllBooks(s) && amount > 0 && InternalDelegate(s, v, a, amount) == Ok(s')
    ensures Pull(PoolOf(s, v), s.epoch, a) == Ok(g)
    ensures Delegated(PoolOf(s, v), g, PoolOf(s', v), s.epoch, s.inBoundary, a, amount)
    ensures OnlyPool(s, s', v)
  {
    var p := InternalDelegateSteps(s, v, a, amount, s');
    assert Books(PoolOf(s, v), s.epoch, s.inBoundary);
    g := PoolDelegated(PoolOf(s, v), s.epoch, s.inBoundary, a, amount, p);
    assert PoolOf(s', v) == p;
  }

  /**
   * Delegating: the whole value earns from the next epoch on or, inside the
   * boundary, from the one after, and not before; beyond the settlement that
   * comes first it changes nothing else.
   */
  lemma DelegateEarns(s: State, v: ValId, a: Address, value: nat, s': State) returns (g: Pool)
    requires Sound(s) && value > 0 && Outcome(s, Delegate(v, a, value)) == Ok(s')
    ensures Outcome(s, GetDelegator(v, a)) == Ok(WithPool(s, v, g))
    ensures Delegated(PoolOf(s, v), g, PoolOf(s', v), s.epoch, s.inBoundary, a, value)
    ensures OnlyPool(s.(credited := s.credited + value), s', v)
  {
    var c := Credited(s, Delegate(v, a, value));
    CreditSound(s, Delegate(v, a, value));
    assert PoolOf(c, v) == PoolOf(s, v);
    g := StateDelegated(c, v, a, value, s');
    SettlementOutcome(s, v, a, g);
  }

  // ----- rewards -------------------------------------------------------------------

  /** `a` has its settled rewards taken out, and nothing earns more or less for it. */
  ghost predicate Claimed(p: Pool, g: Pool, p': Pool, epoch: Epoch, a: Address) {
    && EarnsMore(p, p', a, epoch, epoch, 0)
    && OnlyRecord(p, p', a) && RecordOf(p', a).rewards == 0
    && p'.wds == p.wds
    && p'.val == p.val.(unclaimed := g.val.unclaimed)
  }

  lemma ClearedEarns(g: Pool, a: Address, p': Pool, epoch: Epoch)
    requires a in g.dels && p' == ClearRewards(g, a)
    ensures EarnsMore(g, p', a, epoch, epoch, 0)
  {}

  lemma SettledAndCleared(p: Pool, g: Pool, a: Address, p': Pool, epoch: Epoch)
    requires OnlySettles(p, g, a) && p' == ClearRewards(g, a)
    requires EarnsMore(p, p', a, epoch, epoch, 0)
    ensures Claimed(p, g, p', epoch, a)
  {}

  lemma ClearedClaims(p: Pool, epoch: Epoch, inBoundary: bool, a: Address, g: Pool, p': Pool)
    requires Books(p, epoch, inBoundary) && Pull(p, epoch, a) == Ok(g)
    requires p' == ClearRewards(g, a)
    ensures Claimed(p, g, p', epoch, a)
  {
    PullKeepsBooks(p, epoch, inBoundary, a, g);
    ClearedEarns(g, a, p', epoch);
    PullThenEarns(p, epoch, inBoundary, a, g, p', epoch, 0);
    SettledAndCleared(p, g, a, p', epoch);
  }

  /** Without rewards there is nothing to clear. */
  lemma NothingToClear(g: Pool, a: Address)
    requires a in g.dels && g.dels[a].rewards == 0
    ensures ClearRewards(g, a) == g
  {
    assert g.dels[a := g.dels[a]] == g.dels;
  }

  lemma ClaimSettles(s: State, v: ValId, a: Address, s': State) returns (g: Pool)
    requires HandleClaimRewards(s, v, a) == Ok(s')
    ensures Pull(PoolOf(s, v), s.epoch, a) == Ok(g)
    ensures s' == WithPool(s, v, ClearRewards(g, a)).(paid := s.paid + RecordOf(g, a).rewards)
  {
    g := Pull(PoolOf(s, v), s.epoch, a).value;
    if g.dels[a].rewards == 0 {
      NothingToClear(g, a);
    }
  }

  lemma ClaimClaims(s: State, v: ValId, a: Address, s': State) returns (g: Pool)
    requires AllBooks(s) && HandleClaimRewards(s, v, a) == Ok(s')
    ensures Pull(PoolOf(s, v), s.epoch, a) == Ok(g) && Claimed(PoolOf(s, v), g, PoolOf(s', v), s.epoch, a)
    ensures OnlyPool(s.(paid := s.paid + RecordOf(g, a).rewards), s', v)
    ensures s'.lists == s.lists && s'.sets == s.sets
  {
    assert Books(PoolOf(s, v), s.epoch, s.inBoundary);
    g := ClaimSettles(s, v, a, s');
    ClearedClaims(PoolOf(s, v), s.epoch, s.inBoundary, a, g, PoolOf(s', v));
  }

  /** Claiming pays out exactly what a settlement at this moment leaves credited. */
  lemma ClaimPaysOut(s: State, v: ValId, a: Address, s': State) returns (g: Pool)
    requires Sound(s) && Outcome(s, ClaimRewards(v, a)) == Ok(s')
    ensures Outcome(s, GetDelegator(v, a)) == Ok(WithPool(s, v, g))
    ensures Claimed(PoolOf(s, v), g, PoolOf(s', v), s.epoch, a)
    ensures OnlyPool(s.(paid := s.paid + RecordOf(g, a).rewards), s', v)
    ensures s'.lists == s.lists && s'.sets == s.sets
  {
    assert Credited(s, ClaimRewards(v, a)) == s;
    g := ClaimClaims(s, v, a, s');
    SettlementOutcome(s, v, a, g);
  }

  /** Compounding: the settled rewards are no longer credited, and earn as a delegation of theirs would. */
  ghost predicate Compounds(p: Pool, g: Pool, p': Pool, epoch: Epoch, inBoundary: bool, a: Address) {
    && EarnsMore(p, p', a, epoch, if inBoundary then epoch + 2 else epoch + 1, RecordOf(g, a).rewards)
    && OnlyRecord(p, p', a) && RecordOf(p', a).rewards == 0
    && p'.wds == p.wds
    && p'.val.stake == p.val.stake + RecordOf(g, a).rewards
    && p'.val.acc == p.val.acc && p'.val.unclaimed == g.val.unclaimed
  }

  lemma ClearedIsSettled(p: Pool, epoch: Epoch, inBoundary: bool, a: Address, g: Pool, q: Pool, q': Pool)
    requires Books(p, epoch, inBoundary) && Books(q, epoch, inBoundary) && Pull(p, epoch, a) == Ok(g)
    requires q == ClearRewards(g, a) && Pull(q, epoch, a) == Ok(q')
    ensures RecordOf(q', a).rewards == 0 && q'.val.unclaimed == g.val.unclaimed
  {
    PullKeepsBooks(p, epoch, inBoundary, a, g);
    PulledCursor(p, epoch, inBoundary, a, g);
    PullOfSettled(q, epoch, a);
    if q.dels[a].stake != 0 {
      AccrueOfCurrent(q, a);
    }
  }

  lemma ClearedThenDelegated(
    p: Pool, g: Pool, q: Pool, q': Pool, p': Pool, epoch: Epoch, inBoundary: bool, a: Address)
    requires Claimed(p, g, q, epoch, a) && Delegated(q, q', p', epoch, inBoundary, a, RecordOf(g, a).rewards)
    requires RecordOf(q', a).rewards == 0 && q'.val.unclaimed == g.val.unclaimed
    ensures Compounds(p, g, p', epoch, inBoundary, a)
  {}

  lemma RewardsRedelegated(s: State, v: ValId, a: Address, g: Pool, s1: State, s': State)
    requires AllBooks(s) && AllBooks(s1) && Pull(PoolOf(s, v), s.epoch, a) == Ok(g) && g.dels[a].rewards > 0
    requires s1 == WithPool(s, v, ClearRewards(g, a))
    requires InternalDelegate(s1, v, a, g.dels[a].rewards) == Ok(s')
    ensures Compounds(PoolOf(s, v), g, PoolOf(s', v), s.epoch, s.inBoundary, a)
    ensures OnlyPool(s1, s', v)
  {
    assert Books(PoolOf(s, v), s.epoch, s.inBoundary) && Books(PoolOf(s1, v), s.epoch, s.inBoundary);
    var q' := StateDelegated(s1, v, a, g.dels[a].rewards, s');
    ClearedClaims(PoolOf(s, v), s.epoch, s.inBoundary, a, g, PoolOf(s1, v));
    ClearedIsSettled(PoolOf(s, v), s.epoch, s.inBoundary, a, g, PoolOf(s1, v), q');
    ClearedThenDelegated(PoolOf(s, v), g, PoolOf(s1, v), q', PoolOf(s', v), s.epoch, s.inBoundary, a);
  }

  lemma OnlyPoolTwice(s: State, v: ValId, p: Pool, s': State)
    requires OnlyPool(WithPool(s, v, p), s', v)
    ensures OnlyPool(s, s', v)
  {
    assert s.pools[v := p][v := PoolOf(s', v)] == s.pools[v := PoolOf(s', v)];
  }

  lemma SettledCompounds(p: Pool, epoch: Epoch, inBoundary: bool, a: Address, g: Pool)
    requires Books(p, epoch, inBoundary) && Pull(p, epoch, a) == Ok(g) && g.dels[a].rewards == 0
    ensures Compounds(p, g, g, epoch, inBoundary, a)
  {
    PullKeepsBooks(p, epoch, inBoundary, a, g);
    assert EarnsMore(g, g, a, epoch, if inBoundary then epoch + 2 else epoch + 1, 0);
    PullThenEarns(p, epoch, inBoundary, a, g, g, if inBoundary then epoch + 2 else epoch + 1, 0);
  }

  lemma RewardsCompound(s: State, v: ValId, a: Address, g: Pool, s': State)
    requires Sound(s) && Pull(PoolOf(s, v), s.epoch, a) == Ok(g) && g.dels[a].rewards > 0
    requires InternalDelegate(WithPool(s, v, ClearRewards(g, a)), v, a, g.dels[a].rewards) == Ok(s')
    ensures Compounds(PoolOf(s, v), g, PoolOf(s', v), s.epoch, s.inBoundary, a)
    ensures OnlyPool(s, s', v)
  {
    var s1 := WithPool(s, v, ClearRewards(g, a));
    PulledAndCleared(s, v, a, g, s1);
    RewardsRedelegated(s, v, a, g, s1, s');
    OnlyPoolTwice(s, v, ClearRewards(g, a), s');
  }

  lemma CompoundCompounds(s: State, v: ValId, a: Address, s': State) returns (g: Pool)
    requires Sound(s) && HandleCompound(s, v, a) == Ok(s')
    ensures Pull(PoolOf(s, v), s.epoch, a) == Ok(g)
    ensures Compounds(PoolOf(s, v), g, PoolOf(s', v), s.epoch, s.inBoundary, a)
    ensures OnlyPool(s, s', v)
  {
    g := CompoundedPool(s, v, a, s');
    if g.dels[a].rewards == 0 {
      assert Books(PoolOf(s, v), s.epoch, s.inBoundary);
      SettledCompounds(PoolOf(s, v), s.epoch, s.inBoundary, a, g);
    } else {
      RewardsCompound(s, v, a, g, s');
    }
  }

  /** Compounding turns exactly what a settlement at this moment leaves credited into stake, and pays out nothing. */
  lemma CompoundEarnsRewards(s: State, v: ValId, a: Address, s': State) returns (g: Pool)
    requires Sound(s) && Outcome(s, Compound(v, a)) == Ok(s')
    ensures Outcome(s, GetDelegator(v, a)) == Ok(WithPool(s, v, g))
    ensures Compounds(PoolOf(s, v), g, PoolOf(s', v), s.epoch, s.inBoundary, a)
    ensures OnlyPool(s, s', v)
  {
    assert Credited(s, Compound(v, a)) == s;
    g := CompoundCompounds(s, v, a, s');
    SettlementOutcome(s, v, a, g);
  }

  /** The auth address sets the commission, to no more than the whole reward, and nothing else. */
  lemma CommissionSet(s: State, v: ValId, caller: Address, commission: nat, s': State)
    requires Outcome(s, ChangeCommission(v, caller, commission)) == Ok(s')
    ensures var p := PoolOf(s, v);
            && caller == p.val.auth != 0 && commission <= MON
            && s' == s.(pools := s.pools[v := p.(val := p.val.(commission := commission))])
  {
    assert Credited(s, ChangeCommission(v, caller, commission)) == s;
  }

  // ----- withdrawing ------------------------------------------------------------------

  /**
   * Withdrawing: the request is one full epoch past its own, it is paid its
   * amount and what that earned until its epoch, and it is the only one to go.
   */
  lemma WithdrawPays(s: State, v: ValId, a: Address, wid: nat, s': State)
    requires Sound(s) && Outcome(s, Withdraw(v, a, wid)) == Ok(s')
    ensures PaidOut(s, s', v, (a, wid))
    ensures var p, p' := PoolOf(s, v), PoolOf(s', v);
            && p.wds[(a, wid)].epoch < s.epoch
            && p'.wds == p.wds - {(a, wid)} && p'.dels == p.dels
            && s'.paid - s.paid == p.wds[(a, wid)].amount + p.val.unclaimed - p'.val.unclaimed
    ensures OnlyPool(s.(paid := s'.paid), s', v)
  {
    assert Credited(s, Withdraw(v, a, wid)) == s;
    assert Books(PoolOf(s, v), s.epoch, s.inBoundary);
    var p, rewards := WithdrawSteps(s, v, a, wid, s');
    DueRequest(PoolOf(s, v), s.epoch, s.inBoundary, (a, wid));
    WithdrawPaysOut(s, v, a, wid, s');
  }

  // ----- requests over runs ---------------------------------------------------------------

  /** The requests of `v`. */
  function RequestsOf(s: State, v: ValId): Withdrawals {
    PoolOf(s, v).wds
  }

  /** Requests come only with an undelegation of theirs, and go only with a withdrawal of theirs. */
  predicate RequestKept(s: State, s': State, op: Op, v: ValId, k: (Address, nat)) {
    && (k in RequestsOf(s', v) && (k !in RequestsOf(s, v) || RequestsOf(s, v)[k] != RequestsOf(s', v)[k]) ==>
          op.Undelegate? && op.v == v && op.caller == k.0 && op.wid == k.1 && op.amount > 0)
    && (k in RequestsOf(s, v) && k !in RequestsOf(s', v) ==> op == Withdraw(v, k.0, k.1))
  }

  /** The requests of every validator are as they were. */
  ghost predicate SameRequests(s: State, s': State) {
    forall v: ValId :: RequestsOf(s', v) == RequestsOf(s, v)
  }

  lemma OnePoolRequests(s: State, u: ValId, p: Pool, s': State)
    requires s'.pools == s.pools[u := p] && p.wds == RequestsOf(s, u)
    ensures SameRequests(s, s')
  {}

  lemma PulledRequests(s: State, v: ValId, a: Address, g: Pool)
    requires AllBooks(s) && Pull(PoolOf(s, v), s.epoch, a) == Ok(g)
    ensures g.wds == RequestsOf(s, v)
  {
    assert Books(PoolOf(s, v), s.epoch, s.inBoundary);
    PullKeepsBooks(PoolOf(s, v), s.epoch, s.inBoundary, a, g);
  }

  lemma SettlementRequests(s: State, v: ValId, a: Address, s': State)
    requires AllBooks(s) && HandleGetDelegator(s, v, a) == Ok(s')
    ensures SameRequests(s, s')
  {
    PulledRequests(s, v, a, PoolOf(s', v));
    OnePoolRequests(s, v, PoolOf(s', v), s');
  }

  lemma DelegatedRequests(s: State, v: ValId, a: Address, amount: nat, s': State)
    requires AllBooks(s) && amount > 0 && InternalDelegate(s, v, a, amount) == Ok(s')
    ensures SameRequests(s, s')
  {
    var g := StateDelegated(s, v, a, amount, s');
  }

  lemma CompoundRequests(s: State, v: ValId, a: Address, s': State)
    requires Sound(s) && HandleCompound(s, v, a) == Ok(s')
    ensures SameRequests(s, s')
  {
    var g := CompoundedPool(s, v, a, s');
    PulledRequests(s, v, a, g);
    if g.dels[a].rewards == 0 {
      OnePoolRequests(s, v, g, s');
    } else {
      var s1 := WithPool(s, v, ClearRewards(g, a));
      PulledAndCleared(s, v, a, g, s1);
      OnePoolRequests(s, v, ClearRewards(g, a), s1);
      DelegatedRequests(s1, v, a, g.dels[a].rewards, s');
    }
  }

  lemma ClaimRequests(s: State, v: ValId, a: Address, s': State)
    requires AllBooks(s) && HandleClaimRewards(s, v, a) == Ok(s')
    ensures SameRequests(s, s')
  {
    var g := ClaimSettles(s, v, a, s');
    PulledRequests(s, v, a, g);
    OnePoolRequests(s, v, ClearRewards(g, a), s');
  }

  lemma RegisteredRequests(s: State, auth: Address, blsKey: Address, commission: nat, s': State)
    requires s' == Registered(s, auth, blsKey, commission)
    ensures SameRequests(s, s')
  {
    OnePoolRequests(s, s'.lastValId, PoolOf(s', s'.lastValId), s');
  }

  lemma RegisteredThenDelegatedRequests(
    s: State, s1: State, auth: Address, blsKey: Address, commission: nat, value: nat, s': State)
    requires AllBooks(s1) && s1 == Registered(s, auth, blsKey, commission) && value > 0
    requires InternalDelegate(s1, s.lastValId + 1, auth, value) == Ok(s')
    ensures SameRequests(s, s')
  {
    RegisteredRequests(s, auth, blsKey, commission, s1);
    DelegatedRequests(s1, s.lastValId + 1, auth, value, s');
  }

  lemma AddValidatorRequests(
    s: State, auth: Address, blsKey: Address, signedStake: nat, commission: nat, value: nat, s': State)
    requires Sound(s) && HandleAddValidator(s, auth, blsKey, signedStake, commission, value) == Ok(s')
    ensures SameRequests(s, s')
  {
    var s1 := Registered(s, auth, blsKey, commission);
    AddValidatorSteps(s, auth, blsKey, signedStake, commission, value, s');
    RegisteredSound(s, auth, blsKey, commission, s1);
    RegisteredThenDelegatedRequests(s, s1, auth, blsKey, commission, value, s');
  }

  lemma RewardRequests(s: State, caller: Address, author: Address, reward: nat, s': State)
    requires IdsKnown(s) && HandleSyscallReward(s, caller, author, reward) == Ok(s')
    ensures SameRequests(s, s')
  {
    var v, p := SyscallRewardSteps(s, caller, author, reward, s');
    var commission, shared, p1 :=
      BlockRewardSteps(PoolOf(s, v), reward, ActiveView(s, v).commission, ActiveView(s, v).stake, p);
    OnePoolRequests(s, v, p, s');
  }

  lemma EpochChangeRequests(s: State, caller: Address, next: Epoch, s': State)
    requires HandleSyscallOnEpochChange(s, caller, next) == Ok(s')
    ensures SameRequests(s, s')
  {
    forall v: ValId
      ensures RequestsOf(s', v) == RequestsOf(s, v)
    {
      FrozenPool(s, next, v);
    }
  }

  lemma StakeCallRequests(s: State, op: Op, s': State)
    requires Sound(s) && Handle(s, op) == Ok(s')
    requires op.AddValidator? || op.Delegate? || op.Compound? || op.ClaimRewards?
    ensures SameRequests(s, s')
  {
    match op
    case AddValidator(auth, blsKey, signedStake, commission, value) =>
      AddValidatorRequests(s, auth, blsKey, signedStake, commission, value, s');
    case Delegate(v, a, value) =>
      if value != 0 {
        DelegatedRequests(s, v, a, value, s');
      }
    case Compound(v, a) => CompoundRequests(s, v, a, s');
    case ClaimRewards(v, a) => ClaimRequests(s, v, a, s');
  }

  lemma SystemCallRequests(s: State, op: Op, s': State)
    requires Sound(s) && Handle(s, op) == Ok(s')
    requires op.SyscallReward? || op.SyscallSnapshot? || op.SyscallOnEpochChange?
    ensures SameRequests(s, s')
  {
    match op
    case SyscallReward(caller, author, reward) => RewardRequests(s, caller, author, reward, s');
    case SyscallSnapshot(_) =>
    case SyscallOnEpochChange(caller, next) => EpochChangeRequests(s, caller, next, s');
  }

  /** Every call but an undelegation and a withdrawal. */
  lemma OtherCallRequests(s: State, op: Op, s': State)
    requires Sound(s) && Handle(s, op) == Ok(s') && !op.Undelegate? && !op.Withdraw?
    ensures SameRequests(s, s')
  {
    match op
    case ChangeCommission(v, _, _) => OnePoolRequests(s, v, PoolOf(s', v), s');
    case ExternalReward(v, _) => OnePoolRequests(s, v, PoolOf(s', v), s');
    case GetDelegator(v, a) => SettlementRequests(s, v, a, s');
    case SyscallReward(_, _, _) => SystemCallRequests(s, op, s');
    case SyscallSnapshot(_) => SystemCallRequests(s, op, s');
    case SyscallOnEpochChange(_, _) => SystemCallRequests(s, op, s');
    case _ => StakeCallRequests(s, op, s');
  }

  /** Exactly one validator's requests change, by the request `k`. */
  ghost predicate OneRequestChanges(s: State, s': State, u: ValId, k: (Address, nat)) {
    && (forall v: ValId :: v != u ==> RequestsOf(s', v) == RequestsOf(s, v))
    && RequestsOf(s', u) - {k} == RequestsOf(s, u) - {k}
  }

  lemma OneRequestKept(s: State, s': State, u: ValId, j: (Address, nat), v: ValId, k: (Address, nat))
    requires OneRequestChanges(s, s', u, j) && (v != u || k != j)
    ensures k in RequestsOf(s', v) <==> k in RequestsOf(s, v)
    ensures k in RequestsOf(s, v) ==> RequestsOf(s', v)[k] == RequestsOf(s, v)[k]
  {
    if v == u {
      assert k in RequestsOf(s, u) <==> k in RequestsOf(s, u) - {j};
      assert k in RequestsOf(s', u) <==> k in RequestsOf(s', u) - {j};
      if k in RequestsOf(s, u) {
        assert (RequestsOf(s, u) - {j})[k] == RequestsOf(s, u)[k];
      }
    }
  }

  lemma UndelegatedWds(p: Pool, epoch: Epoch, inBoundary: bool, a: Address, amount: nat, wid: nat, p': Pool)
    requires Books(p, epoch, inBoundary) && amount > 0
    requires Ledger.Undelegate(p, epoch, inBoundary, a, amount, wid) == Ok(p')
    ensures (a, wid) !in p.wds && (a, wid) in p'.wds && p'.wds - {(a, wid)} == p.wds - {(a, wid)}
  {
    var g, taken := PoolUndelegated(p, epoch, inBoundary, a, amount, wid, p');
  }

  lemma OneRequestPool(s: State, u: ValId, p: Pool, s': State, k: (Address, nat))
    requires s'.pools == s.pools[u := p] && p.wds - {k} == RequestsOf(s, u) - {k}
    ensures OneRequestChanges(s, s', u, k) && RequestsOf(s', u) == p.wds
  {}

  lemma UndelegateRequests(s: State, u: ValId, a: Address, amount: nat, wid: nat, s': State)
    requires AllBooks(s) && amount > 0 && HandleUndelegate(s, u, a, amount, wid) == Ok(s')
    ensures OneRequestChanges(s, s', u, (a, wid))
    ensures (a, wid) !in RequestsOf(s, u) && (a, wid) in RequestsOf(s', u)
  {
    assert Books(PoolOf(s, u), s.epoch, s.inBoundary);
    var p := HandleUndelegateSteps(s, u, a, amount, wid, s');
    UndelegatedWds(PoolOf(s, u), s.epoch, s.inBoundary, a, amount, wid, p);
    OneRequestPool(s, u, p, s', (a, wid));
  }

  lemma WithdrawRequests(s: State, u: ValId, a: Address, wid: nat, s': State)
    requires HandleWithdraw(s, u, a, wid) == Ok(s')
    ensures OneRequestChanges(s, s', u, (a, wid))
    ensures (a, wid) in RequestsOf(s, u) && (a, wid) !in RequestsOf(s', u)
  {
    var p, rewards := WithdrawSteps(s, u, a, wid, s');
    assert PoolOf(s', u) == p && p.wds == RequestsOf(s, u) - {(a, wid)};
  }

  lemma HandleKeepsRequest(s: State, op: Op, s': State, v: ValId, k: (Address, nat))
    requires Sound(s) && Handle(s, op) == Ok(s')
    ensures RequestKept(s, s', op, v, k)
  {
    if op.Undelegate? {
      if op.amount > 0 {
        UndelegateRequests(s, op.v, op.caller, op.amount, op.wid, s');
        if v != op.v || k != (op.caller, op.wid) {
          OneRequestKept(s, s', op.v, (op.caller, op.wid), v, k);
        }
      }
    } else if op.Withdraw? {
      WithdrawRequests(s, op.v, op.caller, op.wid, s');
      if v != op.v || k != (op.caller, op.wid) {
        OneRequestKept(s, s', op.v, (op.caller, op.wid), v, k);
      }
    } else {
      OtherCallRequests(s, op, s');
    }
  }

  lemma StepKeepsRequest(s: State, op: Op, s': State, v: ValId, k: (Address, nat))
    requires Sound(s) && s' == Step(s, op)
    ensures RequestKept(s, s', op, v, k)
    ensures RequestsOf(s', v) != RequestsOf(s, v) ==> Outcome(s, op) == Ok(s')
  {
    if Outcome(s, op) == Ok(s') {
      CreditSound(s, op);
      HandleKeepsRequest(Credited(s, op), op, s', v, k);
      assert RequestsOf(Credited(s, op), v) == RequestsOf(s, v);
    }
  }

  /** The call at position `j` went through. */
  predicate WentThrough(ops: seq<Op>, j: nat)
    requires j < |ops|
  {
    Outcome(Run(GENESIS, ops[..j]), ops[j]).Ok?
  }

  /** Every request there is was made by an undelegation, and has not changed since. */
  lemma {:induction false} RequestWasMade(ops: seq<Op>, v: ValId, k: (Address, nat)) returns (j: nat, taken: nat)
    requires k in RequestsOf(Run(GENESIS, ops), v)
    ensures j < |ops| && ops[j].Undelegate? && ops[j].amount > 0
    ensures ops[j] == Undelegate(v, k.0, ops[j].amount, k.1) && WentThrough(ops, j)
    ensures var b := Run(GENESIS, ops[..j]);
            && Takes(taken, ops[j].amount, EarningAt(PoolOf(b, v), k.0, b.epoch))
            && RequestMade(PoolOf(b, v), PoolOf(Step(b, ops[j]), v), k, taken, b.epoch, b.inBoundary)
            && RequestsOf(Run(GENESIS, ops), v)[k] == RequestsOf(Step(b, ops[j]), v)[k]
  {
    if ops == [] {
      assert false;
    } else {
      var n := |ops| - 1;
      var before, after := Run(GENESIS, ops[..n]), Run(GENESIS, ops);
      RunSound(ops[..n]);
      StepKeepsRequest(before, ops[n], after, v, k);
      if k in RequestsOf(before, v) && RequestsOf(before, v)[k] == RequestsOf(after, v)[k] {
        j, taken := RequestWasMade(ops[..n], v, k);
        assert ops[..n][..j] == ops[..j];
      } else {
        j := n;
        var g, t := UndelegateTakes(before, v, k.0, ops[n].amount, k.1, after);
        taken := t;
      }
    }
  }

  /**
   * Every payout goes back to an undelegation of the same delegator: it pays
   * what that took, and at least one whole epoch lies between the epoch in
   * which the undelegation was made, or the one after inside the boundary, and
   * the epoch in which it is paid.
   */
  lemma PayoutWasRequested(ops: seq<Op>, s: State, v: ValId, a: Address, wid: nat, s': State)
    returns (j: nat, taken: nat)
    requires s == Run(GENESIS, ops) && Outcome(s, Withdraw(v, a, wid)) == Ok(s')
    ensures j < |ops| && ops[j].Undelegate? && ops[j].amount > 0
    ensures ops[j] == Undelegate(v, a, ops[j].amount, wid) && WentThrough(ops, j)
    ensures var b := Run(GENESIS, ops[..j]);
            && Takes(taken, ops[j].amount, EarningAt(PoolOf(b, v), a, b.epoch))
            && b.epoch + (if b.inBoundary then 3 else 2) <= s.epoch
    ensures s'.paid - s.paid == taken + PoolOf(s, v).val.unclaimed - PoolOf(s', v).val.unclaimed
  {
    RunSound(ops);
    WithdrawPays(s, v, a, wid, s');
    j, taken := RequestWasMade(ops, v, (a, wid));
  }
}
