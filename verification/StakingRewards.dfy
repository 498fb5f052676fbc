/**
 * What rewards are worth to those they are for: how a reward is shared out,
 * what a settlement pays of it, and what one delegator gets of one reward.
 */
module StakingRewards {
  import opened Checked
  import opened Sums
  import opened Ledger
  import opened LedgerInvariant
  import opened LedgerAccrual
  import opened LedgerSettlement
  import opened Staking
  import opened StakingInvariant
  import opened StakingLifecycle
  import opened StakingProgress

  // ----- a reward is shared out ------------------------------------------------

  /** The record of `a`; an absent one is all zero. */
  function RecordOf(p: Pool, a: Address): Delegator {
    if a in p.dels then p.dels[a] else Delegator(0, 0, 0, 0, 0, 0, 0)
  }

  /** The pool has received `x` for the stake, `active` of which earns; its records are another matter. */
  ghost predicate Raised(p: Pool, p': Pool, x: int, active: nat) {
    && x >= 0 && active > 0
    && p.val.acc <= p'.val.acc && SharedOut(p'.val.acc - p.val.acc, x, active)
    && p' == p.(val := p.val.(acc := p'.val.acc, unclaimed := p.val.unclaimed + x), dels := p'.dels)
  }

  /** The record of `a` has `amount` more rewards, and no other record changes. */
  predicate GotRewards(p: Pool, p': Pool, a: Address, amount: nat) {
    var d := RecordOf(p, a);
    p'.dels == p.dels[a := d.(rewards := d.rewards + amount)]
  }

  lemma DistributeRaises(p: Pool, amount: nat, active: nat, p': Pool)
    requires Distribute(p, amount, active) == Ok(p')
    ensures Raised(p, p', amount, active) && p'.dels == p.dels
  {
    RoundedShare(amount, active, p'.val.acc - p.val.acc);
  }

  /**
   * An external reward: the accumulator rises by the share of one unit of the
   * active stake, the whole value waits to be claimed, and nothing else changes.
   */
  lemma ExternalRewardShares(s: State, v: ValId, value: nat, s': State)
    requires Outcome(s, ExternalReward(v, value)) == Ok(s')
    ensures Raised(PoolOf(s, v), PoolOf(s', v), value, ActiveStake(s, v))
    ensures PoolOf(s', v).dels == PoolOf(s, v).dels
    ensures s' == s.(pools := s.pools[v := PoolOf(s', v)], credited := s.credited + value)
  {
    var c := Credited(s, ExternalReward(v, value));
    assert PoolOf(c, v) == PoolOf(s, v) && ActiveStake(c, v) == ActiveStake(s, v);
    DistributeRaises(PoolOf(s, v), value, ActiveStake(s, v), PoolOf(s', v));
  }

  /** What is left of a block reward after the commission. */
  function AfterCommission(reward: nat, rate: nat): int {
    reward - reward * rate / MON
  }

  lemma BlockRewardRaises(p: Pool, reward: nat, rate: nat, active: nat, p': Pool)
    requires BlockReward(p, reward, rate, active) == Ok(p') && active > 0
    ensures Raised(p, p', AfterCommission(reward, rate), active)
    ensures GotRewards(p, p', p.val.auth, reward * rate / MON)
  {
    var commission, shared, p1 := BlockRewardSteps(p, reward, rate, active, p');
    var t := Touch(p, p.val.auth);
    assert t.dels[p.val.auth := p1.dels[p.val.auth]] == p.dels[p.val.auth := p1.dels[p.val.auth]];
    if shared == 0 {
      RoundedShare(0, active, 0);
    } else {
      DistributeRaises(p1, shared, active, p');
    }
  }

  /**
   * A block reward: the auth address of the author's validator is credited the
   * floor of the reward times the rate in force, the rest is shared out like an
   * external reward, the validator becomes the proposer, and nothing else
   * changes.
   */
  lemma SyscallRewardShares(s: State, caller: Address, author: Address, reward: nat, s': State)
    requires Outcome(s, SyscallReward(caller, author, reward)) == Ok(s')
    ensures var v := IdAt(s.secp, author);
            var p, p', view := PoolOf(s, v), PoolOf(s', v), ActiveView(s, v);
            && v != 0
            && Raised(p, p', AfterCommission(reward, view.commission), view.stake)
            && GotRewards(p, p', p.val.auth, reward * view.commission / MON)
            && s' == s.(pools := s.pools[v := p'], credited := s.credited + reward, proposer := v)
  {
    var v := IdAt(s.secp, author);
    var c := Credited(s, SyscallReward(caller, author, reward));
    assert PoolOf(c, v) == PoolOf(s, v) && ActiveView(c, v) == ActiveView(s, v);
    BlockRewardRaises(PoolOf(s, v), reward, ActiveView(s, v).commission, ActiveView(s, v).stake, PoolOf(s', v));
  }

  // ----- what is shared out is owed ------------------------------------------------

  /** The validator a reward is for. */
  function RewardedId(s: State, op: Op): ValId
    requires op.ExternalReward? || op.SyscallReward?
  {
    if op.ExternalReward? then op.v else IdAt(s.secp, op.author)
  }

  /** The part of a reward that is for the stake. */
  function StakePart(s: State, op: Op): int
    requires op.ExternalReward? || op.SyscallReward?
  {
    if op.ExternalReward? then op.value
    else AfterCommission(op.reward, ActiveView(s, RewardedId(s, op)).commission)
  }

  /** The part that is credited to the auth address at once. */
  function CommissionPart(s: State, op: Op): nat
    requires op.ExternalReward? || op.SyscallReward?
  {
    if op.ExternalReward? then 0 else op.reward * ActiveView(s, RewardedId(s, op)).commission / MON
  }

  /** Records that differ in nothing but credited rewards. */
  predicate RewardsApart(p: Pool, p': Pool, a: Address) {
    RecordOf(p', a) == RecordOf(p, a).(rewards := RecordOf(p', a).rewards)
  }

  lemma RewardRaises(s: State, op: Op, s': State)
    requires op.ExternalReward? || op.SyscallReward?
    requires Outcome(s, op) == Ok(s')
    ensures var v := RewardedId(s, op);
            && Raised(PoolOf(s, v), PoolOf(s', v), StakePart(s, op), ActiveStake(s, v))
            && (PoolOf(s', v).dels == PoolOf(s, v).dels
                || GotRewards(PoolOf(s, v), PoolOf(s', v), PoolOf(s, v).val.auth, CommissionPart(s, op)))
            && s'.epoch == s.epoch && s'.inBoundary == s.inBoundary
  {
    if op.ExternalReward? {
      ExternalRewardShares(s, op.v, op.value, s');
    } else {
      SyscallRewardShares(s, op.caller, op.author, op.reward, s');
    }
  }

  /** Credited rewards are owed no more. */
  lemma OwedWithRewards(p: Pool, a: Address, d: Delegator, epoch: Epoch, acc: nat)
    requires d == RecordOf(p, a).(rewards := d.rewards)
    ensures Sum(OwedOf(p.dels[a := d], epoch, acc, p.snaps)) == Sum(OwedOf(p.dels, epoch, acc, p.snaps))
  {
    if a in p.dels {
      OwedSum(p, a, d, epoch, acc, p.snaps);
    } else {
      var owed := OwedOf(p.dels, epoch, acc, p.snaps);
      assert OwedOf(p.dels[a := d], epoch, acc, p.snaps) == owed[a := 0];
      SumUpdate(owed, a, 0);
    }
  }

  /** `owed` more is due to a stake of `active` for `x`: all of it, but for less than one unit each. */
  predicate OwesShare(owed: int, x: int, active: nat) {
    UNIT_BIAS * x - active < owed <= UNIT_BIAS * x
  }

  lemma RaisedOwes(p: Pool, p': Pool, a: Address, amount: nat, x: int, active: nat, epoch: Epoch)
    requires Raised(p, p', x, active) && EarningStake(p, epoch) == active
    requires p'.dels == p.dels || GotRewards(p, p', a, amount)
    ensures OwesShare(PoolOwed(p', epoch) - PoolOwed(p, epoch), x, active)
  {
    var rise := p'.val.acc - p.val.acc;
    RiseIsOwed(p, epoch, rise);
    if p'.dels != p.dels {
      OwedWithRewards(p, a, p'.dels[a], epoch, p'.val.acc);
    }
    TimesPlus(active, rise, 1);
    TimesSwap(active, rise);
    TimesIsProduct(active, 1);
  }

  /**
   * On lifecycle runs the part of a reward that is for the stake is owed to
   * those who earn, to within one scaled unit for each unit of their stake.
   */
  lemma RewardIsOwed(ops: seq<Op>, s: State, op: Op, s': State)
    requires LifecycleRun(GENESIS, ops) && s == Run(GENESIS, ops)
    requires op.ExternalReward? || op.SyscallReward?
    requires Outcome(s, op) == Ok(s')
    ensures var v := RewardedId(s, op);
            OwesShare(PoolOwed(PoolOf(s', v), s'.epoch) - PoolOwed(PoolOf(s, v), s.epoch),
                      StakePart(s, op), ActiveStake(s, v))
  {
    var v := RewardedId(s, op);
    LifecycleRunAccrues(ops);
    assert Accrues(s, v);
    RewardRaises(s, op, s');
    RaisedOwes(PoolOf(s, v), PoolOf(s', v), PoolOf(s, v).val.auth, CommissionPart(s, op),
               StakePart(s, op), ActiveStake(s, v), s.epoch);
  }

  // ----- a settlement pays what is owed ---------------------------------------------

  ghost function OwedTo(p: Pool, a: Address, epoch: Epoch): int {
    Owed(RecordOf(p, a), epoch, p.val.acc, p.snaps)
  }

  /** `a` has been paid, out of the unclaimed rewards, what it is owed less, in `k` roundings. */
  ghost predicate PaidUp(p: Pool, p': Pool, a: Address, epoch: Epoch, k: nat) {
    var paid := RecordOf(p', a).rewards - RecordOf(p, a).rewards;
    && 0 <= OwedTo(p, a, epoch) - OwedTo(p', a, epoch) - UNIT_BIAS * paid <= k * (UNIT_BIAS - 1)
    && p'.val.unclaimed == p.val.unclaimed - paid
  }

  lemma PaidUpTwice(p: Pool, q: Pool, r: Pool, a: Address, epoch: Epoch, j: nat, k: nat)
    requires PaidUp(p, q, a, epoch, j) && PaidUp(q, r, a, epoch, k)
    ensures PaidUp(p, r, a, epoch, j + k)
  {
    assert (j + k) * (UNIT_BIAS - 1) == j * (UNIT_BIAS - 1) + k * (UNIT_BIAS - 1);
  }

  lemma NothingPaid(p: Pool, p': Pool, a: Address, epoch: Epoch)
    requires OwedTo(p', a, epoch) == OwedTo(p, a, epoch) && RecordOf(p', a).rewards == RecordOf(p, a).rewards
    requires p'.val.unclaimed == p.val.unclaimed
    ensures PaidUp(p, p', a, epoch, 0)
  {}

  /** What is paid is what has accrued, rounded down once. */
  lemma PaidOnce(diff: nat, stake: nat, rewards: nat)
    requires CheckedMulDiv(diff, stake, UNIT_BIAS) == Ok(rewards)
    ensures 0 <= Times(stake, diff) - UNIT_BIAS * rewards <= UNIT_BIAS - 1
  {
    TimesIsProduct(stake, diff);
    assert diff * stake == stake * diff;
  }

  lemma CompoundedPays(p: Pool, epoch: Epoch, a: Address, p': Pool, rewards: nat)
    requires a in p.dels && IsEpochActive(epoch, p.dels[a].deltaEpoch) && Compounded(p, p', a, rewards)
    requires RefcountsExact(p') && SnapshotsFollow(p, p', epoch)
    ensures PaidUp(p, p', a, epoch, 1)
  {
    var d := p.dels[a];
    OwedKeepsValue(p, p', epoch, a);
    CompoundedOwes(d, p'.dels[a], epoch, p.val.acc, p.snaps);
    PaidOnce(Value(p.snaps, d.deltaEpoch) - d.acc, d.stake, rewards);
  }

  lemma CompoundPays(p: Pool, epoch: Epoch, inBoundary: bool, a: Address, p': Pool)
    requires a in p.dels && Books(p, epoch, inBoundary)
    requires IsEpochActive(epoch, p.dels[a].deltaEpoch) && CompoundStep(p, a) == Ok(p')
    ensures PaidUp(p, p', a, epoch, 1)
  {
    var d := p.dels[a];
    WindowReferenced(p, a, d.deltaEpoch);
    var rewards := CompoundStepCompounds(p, a, p');
    CompoundKeepsBooks(p, epoch, inBoundary, a, p');
    DecrementFollows(p, p', d.deltaEpoch, epoch);
    CompoundedPays(p, epoch, a, p', rewards);
  }

  lemma AccruePaysUp(p: Pool, epoch: Epoch, a: Address, p': Pool)
    requires a in p.dels && NothingDue(p.dels[a], epoch) && AccrueStep(p, a) == Ok(p')
    ensures PaidUp(p, p', a, epoch, 1) && OwedTo(p', a, epoch) == 0
  {
    var d := p.dels[a];
    if d.stake == 0 {
      NothingPaid(p, p', a, epoch);
    } else {
      var rewards := AccrueStepAccrues(p, a, p');
      PaidOnce(p.val.acc - d.acc, d.stake, rewards);
      TimesZero(d.stake);
    }
  }

  lemma MaybeCompoundPays(p: Pool, epoch: Epoch, inBoundary: bool, a: Address, due: bool, p': Pool)
    requires a in p.dels && Books(p, epoch, inBoundary)
    requires due ==> IsEpochActive(epoch, p.dels[a].deltaEpoch)
    requires Ok(p') == if due then CompoundStep(p, a) else Ok(p)
    ensures Books(p', epoch, inBoundary) && PaidUp(p, p', a, epoch, 1) && a in p'.dels
    ensures due ==> p'.dels[a].deltaEpoch == p.dels[a].nextDeltaEpoch && p'.dels[a].nextDeltaEpoch == 0
  {
    if due {
      CompoundKeepsBooks(p, epoch, inBoundary, a, p');
      CompoundPays(p, epoch, inBoundary, a, p');
      CompoundOnlySettles(p, a, p');
    } else {
      NothingPaid(p, p', a, epoch);
    }
  }

  lemma PromotePays(p: Pool, epoch: Epoch, inBoundary: bool, a: Address, p0: Pool)
    requires Books(p, epoch, inBoundary) && p0 == Promote(Touch(p, a), epoch, a)
    ensures Books(p0, epoch, inBoundary) && PaidUp(p, p0, a, epoch, 0)
  {
    var t := Touch(p, a);
    TouchKeepsBooks(p, epoch, inBoundary, a);
    PromoteKeepsBooks(t, epoch, inBoundary, a);
    PromotedOwesTheSame(t.dels[a], epoch, inBoundary, p.val.acc, p.snaps, epoch);
    NothingPaid(p, p0, a, epoch);
  }

  /**
   * A settlement pays a delegator everything it is owed, less than three units
   * of rounding aside: one for each window that may fold and one for the present.
   */
  lemma PullPaysUp(p: Pool, epoch: Epoch, inBoundary: bool, a: Address, p': Pool)
    requires Books(p, epoch, inBoundary) && Pull(p, epoch, a) == Ok(p')
    ensures PaidUp(p, p', a, epoch, 3) && OwedTo(p', a, epoch) == 0
  {
    var p0, p1, p2 := PullSteps(p, epoch, a, p');
    TouchKeepsBooks(p, epoch, inBoundary, a);
    PromotedWindows(Touch(p, a).dels[a], epoch, inBoundary);
    PromotePays(p, epoch, inBoundary, a, p0);
    MaybeCompoundPays(p0, epoch, inBoundary, a, IsEpochActive(epoch, p0.dels[a].nextDeltaEpoch), p1);
    MaybeCompoundPays(p1, epoch, inBoundary, a, IsEpochActive(epoch, p0.dels[a].deltaEpoch), p2);
    AccruePaysUp(p2, epoch, a, p');
    PaidUpTwice(p, p0, p1, a, epoch, 0, 1);
    PaidUpTwice(p, p1, p2, a, epoch, 1, 1);
    PaidUpTwice(p, p2, p', a, epoch, 2, 1);
  }

  /** The same for the call, in every state that a run may reach. */
  lemma SettlementPaysUp(s: State, v: ValId, a: Address, s': State)
    requires Sound(s) && Outcome(s, GetDelegator(v, a)) == Ok(s')
    ensures PaidUp(PoolOf(s, v), PoolOf(s', v), a, s.epoch, 3)
    ensures OwedTo(PoolOf(s', v), a, s'.epoch) == 0
  {
    assert Books(PoolOf(s, v), s.epoch, s.inBoundary);
    assert PoolOf(Credited(s, GetDelegator(v, a)), v) == PoolOf(s, v);
    PullPaysUp(PoolOf(s, v), s.epoch, s.inBoundary, a, PoolOf(s', v));
  }

  // ----- one delegator and one reward ------------------------------------------------

  /** `s'` is `s` with `a` settled at `v`: what earns is active, and paid up to the present. */
  ghost predicate UpToDate(s: State, s': State, v: ValId, a: Address) {
    && s' == WithPool(s, v, PoolOf(s', v)) && InOrder(s')
    && a in PoolOf(s', v).dels
    && var d := PoolOf(s', v).dels[a];
    && NothingDue(d, s'.epoch) && d.acc <= PoolOf(s', v).val.acc
    && d.stake == EarningAt(PoolOf(s, v), a, s.epoch)
    && (d.stake != 0 ==> d.acc == PoolOf(s', v).val.acc)
  }

  lemma SettlementGoesThrough(s: State, v: ValId, a: Address, s': State)
    requires InOrder(s) && !TooMuchValue(s.credited) && s' == Step(s, GetDelegator(v, a))
    ensures Pull(PoolOf(s, v), s.epoch, a) == Ok(PoolOf(s', v)) && s' == WithPool(s, v, PoolOf(s', v))
    ensures InOrder(s')
  {
    OutcomeProgress(s, GetDelegator(v, a));
    InOrderStep(s, GetDelegator(v, a), s');
    assert Credited(s, GetDelegator(v, a)) == s;
  }

  lemma SettlementUpToDate(s: State, v: ValId, a: Address, s': State)
    requires InOrder(s) && !TooMuchValue(s.credited) && s' == Step(s, GetDelegator(v, a))
    ensures UpToDate(s, s', v, a)
  {
    SettlementGoesThrough(s, v, a, s');
    var p, p' := PoolOf(s, v), PoolOf(s', v);
    assert Books(p, s.epoch, s.inBoundary) && Accrues(s, v) && Accrues(s', v);
    PulledStakeEarns(p, s.epoch, s.inBoundary, a, p');
    PullKeepsBooks(p, s.epoch, s.inBoundary, a, p');
    PullKeepsAccrual(p, s.epoch, s.inBoundary, ActiveStake(s, v), NextStake(s, v), a, p');
    assert CursorOk(p', p'.dels[a], s.epoch);
  }

  /** A settlement right after a reward pays the rise of the accumulator. */
  lemma GainAfterRaise(p1: Pool, p2: Pool, epoch: Epoch, a: Address, x: int, active: nat, p3: Pool)
    requires a in p1.dels && NothingDue(p1.dels[a], epoch) && p1.dels[a].acc <= p1.val.acc
    requires p1.dels[a].stake != 0 ==> p1.dels[a].acc == p1.val.acc
    requires Raised(p1, p2, x, active) && a in p2.dels
    requires p2.dels[a] == p1.dels[a].(rewards := p2.dels[a].rewards)
    requires Pull(p2, epoch, a) == Ok(p3)
    ensures RecordOf(p2, a).rewards <= RecordOf(p3, a).rewards
    ensures ProRata(RecordOf(p3, a).rewards - RecordOf(p2, a).rewards, x, RecordOf(p1, a).stake, active)
  {
    PullPays(p2, epoch, a, p3);
    var stake, rise := p1.dels[a].stake, p2.val.acc - p1.val.acc;
    var gain := p3.dels[a].rewards - p2.dels[a].rewards;
    ShareOfShare(rise, x, stake, active, gain);
  }

  lemma SameRewardTerms(s: State, s': State, op: Op)
    requires op.ExternalReward? || op.SyscallReward?
    requires s'.secp == s.secp && s'.sets == s.sets && s'.inBoundary == s.inBoundary
    ensures RewardedId(s', op) == RewardedId(s, op) && StakePart(s', op) == StakePart(s, op)
    ensures ActiveStake(s', RewardedId(s, op)) == ActiveStake(s, RewardedId(s, op))
  {}

  /** What a reward at `v` leaves of the record of `a`. */
  lemma RewardKeepsRecord(s: State, op: Op, s': State, v: ValId, a: Address)
    requires (op.ExternalReward? || op.SyscallReward?) && Outcome(s, op) == Ok(s')
    requires v == RewardedId(s, op) && a in PoolOf(s, v).dels
    ensures a in PoolOf(s', v).dels
    ensures PoolOf(s', v).dels[a] == PoolOf(s, v).dels[a].(rewards := PoolOf(s', v).dels[a].rewards)
  {
    RewardRaises(s, op, s');
  }

  /** A settlement after a reward goes through as well. */
  lemma SettlementAfterReward(s: State, op: Op, s2: State, v: ValId, a: Address, s3: State)
    requires InOrder(s) && (op.ExternalReward? || op.SyscallReward?) && Outcome(s, op) == Ok(s2)
    requires !TooMuchValue(s.credited + ValueOf(op)) && s3 == Step(s2, GetDelegator(v, a))
    ensures Pull(PoolOf(s2, v), s.epoch, a) == Ok(PoolOf(s3, v))
  {
    RewardCredits(s, op, s2);
    InOrderStep(s, op, s2);
    SettlementGoesThrough(s2, v, a, s3);
  }

  lemma RewardCredits(s: State, op: Op, s': State)
    requires (op.ExternalReward? || op.SyscallReward?) && Outcome(s, op) == Ok(s')
    ensures s'.credited == s.credited + ValueOf(op) && s'.epoch == s.epoch
  {}

  /** The pools of the three moments. */
  ghost predicate PaidAround(p1: Pool, p2: Pool, p3: Pool, epoch: Epoch, a: Address, x: int, active: nat) {
    && a in p1.dels && a in p2.dels
    && Raised(p1, p2, x, active) && p2.dels[a] == p1.dels[a].(rewards := p2.dels[a].rewards)
    && Pull(p2, epoch, a) == Ok(p3)
  }

  lemma RewardPaidAround(s: State, op: Op, s2: State, v: ValId, a: Address, s3: State)
    requires InOrder(s) && (op.ExternalReward? || op.SyscallReward?) && Outcome(s, op) == Ok(s2)
    requires v == RewardedId(s, op) && a in PoolOf(s, v).dels
    requires !TooMuchValue(s.credited + ValueOf(op)) && s3 == Step(s2, GetDelegator(v, a))
    ensures PaidAround(PoolOf(s, v), PoolOf(s2, v), PoolOf(s3, v), s.epoch, a, StakePart(s, op), ActiveStake(s, v))
  {
    RewardRaises(s, op, s2);
    RewardKeepsRecord(s, op, s2, v, a);
    SettlementAfterReward(s, op, s2, v, a, s3);
  }

  lemma GainOnceSettled(
    s: State, op: Op, v: ValId, a: Address, p1: Pool, p2: Pool, p3: Pool, s1: State)
    returns (gain: nat, x: nat, stake: nat, active: nat)
    requires UpToDate(s, s1, v, a) && p1 == PoolOf(s1, v)
    requires op.ExternalReward? || op.SyscallReward?
    requires PaidAround(p1, p2, p3, s1.epoch, a, StakePart(s, op), ActiveStake(s, v))
    ensures x == StakePart(s, op) && stake == EarningAt(PoolOf(s, v), a, s.epoch) && active == ActiveStake(s, v)
    ensures RecordOf(p3, a).rewards == RecordOf(p2, a).rewards + gain
    ensures ProRata(gain, x, stake, active)
  {
    GainAfterRaise(p1, p2, s1.epoch, a, StakePart(s, op), ActiveStake(s, v), p3);
    gain, x := RecordOf(p3, a).rewards - RecordOf(p2, a).rewards, StakePart(s, op);
    stake, active := RecordOf(p1, a).stake, ActiveStake(s, v);
  }

  lemma PaidAroundReward(s: State, op: Op, v: ValId, a: Address, s1: State, s2: State, s3: State)
    requires InOrder(s) && (op.ExternalReward? || op.SyscallReward?)
    requires v == RewardedId(s, op) && !TooMuchValue(s.credited + ValueOf(op))
    requires s1 == Step(s, GetDelegator(v, a)) && Outcome(s1, op) == Ok(s2) && s3 == Step(s2, GetDelegator(v, a))
    ensures UpToDate(s, s1, v, a)
    ensures PaidAround(PoolOf(s1, v), PoolOf(s2, v), PoolOf(s3, v), s1.epoch, a, StakePart(s, op), ActiveStake(s, v))
  {
    SettlementUpToDate(s, v, a, s1);
    SameRewardTerms(s, s1, op);
    RewardPaidAround(s1, op, s2, v, a, s3);
  }

  /**
   * Rewards are pro rata: in every state that a lifecycle run reaches, which is
   * in order, a delegator who is settled before a reward and after it has been
   * credited for it the part its earning stake has in the active stake, rounded
   * down.
   */
  lemma RewardIsProRata(s: State, op: Op, v: ValId, a: Address, s1: State, s2: State, s3: State)
    returns (gain: nat, x: nat, stake: nat, active: nat)
    requires InOrder(s) && (op.ExternalReward? || op.SyscallReward?)
    requires v == RewardedId(s, op) && !TooMuchValue(s.credited + ValueOf(op))
    requires s1 == Step(s, GetDelegator(v, a)) && Outcome(s1, op) == Ok(s2) && s3 == Step(s2, GetDelegator(v, a))
    ensures x == StakePart(s, op) && stake == EarningAt(PoolOf(s, v), a, s.epoch) && active == ActiveStake(s, v)
    ensures RecordOf(PoolOf(s3, v), a).rewards == RecordOf(PoolOf(s2, v), a).rewards + gain
    ensures ProRata(gain, x, stake, active)
  {
    PaidAroundReward(s, op, v, a, s1, s2, s3);
    gain, x, stake, active := GainOnceSettled(s, op, v, a, PoolOf(s1, v), PoolOf(s2, v), PoolOf(s3, v), s1);
  }
}
