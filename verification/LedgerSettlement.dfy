/**
 * What settling does to the amounts credited: once is enough, rounding is
 * bounded, and nothing else in a pool sees how often it was done.
 */
module LedgerSettlement {
  import opened Checked
  import opened Sums
  import opened Ledger
  import opened LedgerInvariant

  // ----- settled records -------------------------------------------------------

  /** On a settled record a pull only pays the active stake. */
  lemma PullOfSettled(p: Pool, epoch: Epoch, a: Address)
    requires a in p.dels && Settled(p.dels[a], epoch)
    ensures Pull(p, epoch, a) == AccrueStep(p, a)
  {
    assert Promote(Touch(p, a), epoch, a) == p by {
      assert p.dels[a := p.dels[a]] == p.dels;
    }
  }

  lemma AccrueLeavesCurrent(p: Pool, a: Address, p': Pool)
    requires a in p.dels && AccrueStep(p, a) == Ok(p')
    ensures p'.dels[a].stake != 0 ==> p'.dels[a].acc == p'.val.acc && p'.dels[a].rewards <= U256_MAX
  {}

  lemma AccrueOfCurrent(p: Pool, a: Address)
    requires a in p.dels && p.dels[a].rewards <= U256_MAX
    requires p.dels[a].stake != 0 ==> p.dels[a].acc == p.val.acc
    ensures AccrueStep(p, a) == Ok(p)
  {
    assert p.dels[a := p.dels[a]] == p.dels;
  }

  /** A pull is idempotent: settling a settled delegator changes nothing. */
  lemma PullIdempotent(p: Pool, epoch: Epoch, inBoundary: bool, a: Address, p': Pool)
    requires Books(p, epoch, inBoundary) && Pull(p, epoch, a) == Ok(p')
    ensures Pull(p', epoch, a) == Ok(p')
  {
    PullKeepsBooks(p, epoch, inBoundary, a, p');
    PullOfSettled(p', epoch, a);
    var p0, p1, p2 := PullSteps(p, epoch, a, p');
    AccrueLeavesCurrent(p2, a, p');
    if p'.dels[a].stake != 0 {
      AccrueOfCurrent(p', a);
    }
  }

  // ----- rounding ----------------------------------------------------------------

  /** What `stake` earns while the accumulator goes from `from` to `to`. */
  function Earned(stake: nat, from: nat, to: nat): nat
    requires from <= to
  {
    (to - from) * stake / UNIT_BIAS
  }

  /** Rounding down twice loses at most one unit against rounding down once. */
  lemma SplitRounds(x: nat, y: nat)
    ensures x / UNIT_BIAS + y / UNIT_BIAS <= (x + y) / UNIT_BIAS <= x / UNIT_BIAS + y / UNIT_BIAS + 1
  {}

  lemma SplitEarned(stake: nat, from: nat, mid: nat, to: nat)
    requires from <= mid <= to
    ensures Earned(stake, from, mid) + Earned(stake, mid, to)
            <= Earned(stake, from, to)
            <= Earned(stake, from, mid) + Earned(stake, mid, to) + 1
  {
    var x, y := (mid - from) * stake, (to - mid) * stake;
    assert x + y == (to - from) * stake;
    SplitRounds(x, y);
  }

  /**
   * One delegator was settled up to `from`; another with the same stake was
   * settled more often, `k` times in all, up to `to`, and has been credited
   * `lead` more than the first.
   */
  predicate Behind(stake: nat, from: nat, to: nat, lead: int, k: nat) {
    && from <= to
    && lead <= Earned(stake, from, to) <= lead + k - (if from == to then 0 else 1)
  }

  /** One more settlement, of the second alone, costs it at most one unit. */
  lemma ExtraSettles(stake: nat, from: nat, mid: nat, to: nat, lead: int, k: nat)
    requires Behind(stake, from, mid, lead, k) && mid <= to
    ensures Behind(stake, from, to, lead + Earned(stake, mid, to), k + 1)
  {
    SplitEarned(stake, from, mid, to);
  }

  /** A settlement of both brings them level, but for the units lost on the way. */
  lemma BothSettle(stake: nat, from: nat, mid: nat, to: nat, lead: int, k: nat)
    requires Behind(stake, from, mid, lead, k) && mid <= to
    ensures Behind(stake, to, to, lead + Earned(stake, mid, to) - Earned(stake, from, to), k)
  {
    SplitEarned(stake, from, mid, to);
  }

  // ----- a delegator with no window due ----------------------------------------------

  predicate NothingDue(d: Delegator, epoch: Epoch) {
    !IsEpochActive(epoch, d.deltaEpoch) && !IsEpochActive(epoch, d.nextDeltaEpoch)
  }

  /** What settling makes of a record none of whose windows is due. */
  function SettledTo(d: Delegator, epoch: Epoch, acc: nat): Delegator
    requires d.acc <= acc
  {
    PromoteWindow(d, epoch).(
      rewards := d.rewards + Earned(d.stake, d.acc, acc), acc := if d.stake == 0 then d.acc else acc)
  }

  lemma PullOfWaiting(p: Pool, epoch: Epoch, a: Address)
    requires a in p.dels && NothingDue(p.dels[a], epoch)
    ensures Pull(p, epoch, a) == AccrueStep(Promote(p, epoch, a), a)
  {}

  lemma AccruePays(p: Pool, a: Address, p': Pool)
    requires a in p.dels && p.dels[a].acc <= p.val.acc && AccrueStep(p, a) == Ok(p')
    ensures var d := p.dels[a];
            var paid := Earned(d.stake, d.acc, p.val.acc);
            && paid <= p.val.unclaimed
            && p' == p.(val := p.val.(unclaimed := p.val.unclaimed - paid),
                        dels := p.dels[a := d.(rewards := d.rewards + paid,
                                               acc := if d.stake == 0 then d.acc else p.val.acc)])
  {
    if p.dels[a].stake == 0 {
      assert p.dels == p.dels[a := p.dels[a]];
    }
  }

  /** Settling such a delegator pays its active stake up to the present, and nothing else. */
  lemma PullPays(p: Pool, epoch: Epoch, a: Address, p': Pool)
    requires a in p.dels && NothingDue(p.dels[a], epoch) && p.dels[a].acc <= p.val.acc
    requires Pull(p, epoch, a) == Ok(p')
    ensures var d := p.dels[a];
            var paid := Earned(d.stake, d.acc, p.val.acc);
            && paid <= p.val.unclaimed
            && p' == p.(val := p.val.(unclaimed := p.val.unclaimed - paid),
                        dels := p.dels[a := SettledTo(d, epoch, p.val.acc)])
  {
    PullOfWaiting(p, epoch, a);
    var p0 := Promote(p, epoch, a);
    AccruePays(p0, a, p');
    assert p0.dels[a := p'.dels[a]] == p.dels[a := p'.dels[a]];
  }

  /** The windows of a record as the next settlement will see them. */
  predicate SameWindows(d: Delegator, f: Delegator, epoch: Epoch) {
    var d', f' := PromoteWindow(d, epoch), PromoteWindow(f, epoch);
    && f'.stake == d'.stake
    && f'.deltaStake == d'.deltaStake && f'.nextDeltaStake == d'.nextDeltaStake
    && f'.deltaEpoch == d'.deltaEpoch && f'.nextDeltaEpoch == d'.nextDeltaEpoch
  }

  lemma SameWindowsLater(d: Delegator, f: Delegator, epoch: Epoch, later: Epoch)
    requires SameWindows(d, f, epoch) && epoch <= later
    ensures SameWindows(d, f, later)
  {}

  lemma SameWindowsDue(d: Delegator, f: Delegator, epoch: Epoch)
    requires SameWindows(d, f, epoch) && NothingDue(d, epoch)
    ensures NothingDue(f, epoch)
  {}

  lemma SettledWindows(d: Delegator, f: Delegator, epoch: Epoch, acc: nat)
    requires SameWindows(d, f, epoch) && f.acc <= acc
    ensures SameWindows(d, SettledTo(f, epoch, acc), epoch)
  {}

  // ----- pools that differ in one record -------------------------------------------------

  /** `q` is `p` but for the record of `a` and the unclaimed rewards. */
  predicate Apart(p: Pool, q: Pool, a: Address) {
    && a in p.dels && a in q.dels
    && q == p.(val := p.val.(unclaimed := q.val.unclaimed), dels := p.dels[a := q.dels[a]])
  }

  /** The two pools move alike: the same credit to `a`, the same change of the unclaimed rewards. */
  predicate MoveAlike(p: Pool, q: Pool, p': Pool, q': Pool, a: Address) {
    && Apart(p, q, a) && Apart(p', q', a)
    && p'.dels[a] == p.dels[a].(rewards := p'.dels[a].rewards)
    && q'.dels[a] == q.dels[a].(rewards := q'.dels[a].rewards)
    && q'.dels[a].rewards - q.dels[a].rewards == p'.dels[a].rewards - p.dels[a].rewards
    && q'.val.unclaimed - q.val.unclaimed == p'.val.unclaimed - p.val.unclaimed
  }

  lemma StayAlike(p: Pool, q: Pool, a: Address)
    requires Apart(p, q, a)
    ensures MoveAlike(p, q, p, q, a)
  {}

  lemma AlikeTransitive(p: Pool, q: Pool, p1: Pool, q1: Pool, p2: Pool, q2: Pool, a: Address)
    requires MoveAlike(p, q, p1, q1, a) && MoveAlike(p1, q1, p2, q2, a)
    ensures MoveAlike(p, q, p2, q2, a)
  {}

  /** A record that is written over the same way in both. */
  lemma WriteAlike(p: Pool, q: Pool, a: Address, b: Address, d: Delegator)
    requires Apart(p, q, a) && b != a
    ensures q.dels[b := d] == p.dels[b := d][a := q.dels[a]]
    ensures b in p.dels <==> b in q.dels
    ensures b in p.dels ==> q.dels[b] == p.dels[b]
  {}

  lemma TouchAlike(p: Pool, q: Pool, a: Address, b: Address)
    requires Apart(p, q, a)
    ensures MoveAlike(p, q, Touch(p, b), Touch(q, b), a)
  {
    if b != a {
      WriteAlike(p, q, a, b, NO_DELEGATOR);
    }
  }

  lemma PromoteAlike(p: Pool, q: Pool, epoch: Epoch, a: Address, b: Address)
    requires Apart(p, q, a) && b != a && b in p.dels
    ensures b in q.dels && MoveAlike(p, q, Promote(p, epoch, b), Promote(q, epoch, b), a)
  {
    WriteAlike(p, q, a, b, PromoteWindow(p.dels[b], epoch));
  }

  lemma CompoundAlike(p: Pool, q: Pool, a: Address, b: Address, p': Pool, q': Pool)
    requires Apart(p, q, a) && b != a && b in p.dels && b in q.dels
    requires CompoundStep(p, b) == Ok(p') && CompoundStep(q, b) == Ok(q')
    ensures MoveAlike(p, q, p', q', a)
  {
    WriteAlike(p, q, a, b, p'.dels[b]);
  }

  lemma AccrueAlike(p: Pool, q: Pool, a: Address, b: Address, p': Pool, q': Pool)
    requires Apart(p, q, a) && b != a && b in p.dels && b in q.dels
    requires AccrueStep(p, b) == Ok(p') && AccrueStep(q, b) == Ok(q')
    ensures MoveAlike(p, q, p', q', a)
  {
    if p.dels[b].stake != 0 {
      WriteAlike(p, q, a, b, p'.dels[b]);
    }
  }

  /** Settling anyone else. */
  lemma PullAlike(p: Pool, q: Pool, epoch: Epoch, a: Address, b: Address, p': Pool, q': Pool)
    requires Apart(p, q, a) && b != a && Pull(p, epoch, b) == Ok(p') && Pull(q, epoch, b) == Ok(q')
    ensures MoveAlike(p, q, p', q', a) && b in p'.dels && b in q'.dels
  {
    var p0, p1, p2 := PullSteps(p, epoch, b, p');
    var q0, q1, q2 := PullSteps(q, epoch, b, q');
    TouchAlike(p, q, a, b);
    PromoteAlike(Touch(p, b), Touch(q, b), epoch, a, b);
    AlikeTransitive(p, q, Touch(p, b), Touch(q, b), p0, q0, a);
    if IsEpochActive(epoch, p0.dels[b].nextDeltaEpoch) {
      CompoundAlike(p0, q0, a, b, p1, q1);
      AlikeTransitive(p, q, p0, q0, p1, q1, a);
    }
    if IsEpochActive(epoch, p0.dels[b].deltaEpoch) {
      CompoundAlike(p1, q1, a, b, p2, q2);
      AlikeTransitive(p, q, p1, q1, p2, q2, a);
    }
    AccrueAlike(p2, q2, a, b, p', q');
    AlikeTransitive(p, q, p2, q2, p', q', a);
  }

  lemma AddToWindowAlike(
    p: Pool, q: Pool, epoch: Epoch, inBoundary: bool, a: Address, b: Address, amount: nat, p': Pool, q': Pool)
    requires Apart(p, q, a) && b != a && b in p.dels && b in q.dels
    requires AddToWindow(p, epoch, inBoundary, b, amount) == Ok(p')
    requires AddToWindow(q, epoch, inBoundary, b, amount) == Ok(q')
    ensures MoveAlike(p, q, p', q', a)
  {
    WriteAlike(p, q, a, b, p'.dels[b]);
  }

  lemma DelegateAlike(
    p: Pool, q: Pool, epoch: Epoch, inBoundary: bool, a: Address, b: Address, amount: nat, p': Pool, q': Pool)
    requires Apart(p, q, a) && b != a
    requires Ledger.Delegate(p, epoch, inBoundary, b, amount) == Ok(p')
    requires Ledger.Delegate(q, epoch, inBoundary, b, amount) == Ok(q')
    ensures MoveAlike(p, q, p', q', a)
  {
    var p1, q1 := Pull(p, epoch, b).value, Pull(q, epoch, b).value;
    PullAlike(p, q, epoch, a, b, p1, q1);
    AddToWindowAlike(p1, q1, epoch, inBoundary, a, b, amount, p', q');
    AlikeTransitive(p, q, p1, q1, p', q', a);
  }

  lemma OpenAlike(
    p: Pool, q: Pool, epoch: Epoch, inBoundary: bool, a: Address, b: Address, wid: nat, amount: nat,
    p': Pool, q': Pool)
    requires Apart(p, q, a) && b != a && b in p.dels && b in q.dels
    requires amount <= p.dels[b].stake && amount <= q.dels[b].stake
    requires OpenWithdrawal(p, epoch, inBoundary, b, wid, amount) == Ok(p')
    requires OpenWithdrawal(q, epoch, inBoundary, b, wid, amount) == Ok(q')
    ensures MoveAlike(p, q, p', q', a)
  {
    WriteAlike(p, q, a, b, p'.dels[b]);
  }

  lemma UndelegateAlike(
    p: Pool, q: Pool, epoch: Epoch, inBoundary: bool, a: Address, b: Address, amount: nat, wid: nat,
    p': Pool, q': Pool)
    requires Apart(p, q, a) && b != a
    requires Ledger.Undelegate(p, epoch, inBoundary, b, amount, wid) == Ok(p')
    requires Ledger.Undelegate(q, epoch, inBoundary, b, amount, wid) == Ok(q')
    ensures MoveAlike(p, q, p', q', a) && TotalOf(q', b) == TotalOf(p', b)
  {
    var p1, q1 := Pull(p, epoch, b).value, Pull(q, epoch, b).value;
    PullAlike(p, q, epoch, a, b, p1, q1);
    var taken := CollectDust(p1.dels[b].stake, amount);
    OpenAlike(p1, q1, epoch, inBoundary, a, b, wid, taken, p', q');
    AlikeTransitive(p, q, p1, q1, p', q', a);
  }

  /** Paying a request, whoever made it. */
  lemma WithdrawAlike(
    p: Pool, q: Pool, epoch: Epoch, a: Address, b: Address, wid: nat,
    p': Pool, paidP: nat, q': Pool, paidQ: nat)
    requires Apart(p, q, a)
    requires Ledger.Withdraw(p, epoch, b, wid) == Ok((p', paidP))
    requires Ledger.Withdraw(q, epoch, b, wid) == Ok((q', paidQ))
    ensures MoveAlike(p, q, p', q', a) && paidQ == paidP
  {}

  lemma ClearRewardsAlike(p: Pool, q: Pool, a: Address, b: Address)
    requires Apart(p, q, a) && b != a && b in p.dels && b in q.dels
    ensures MoveAlike(p, q, ClearRewards(p, b), ClearRewards(q, b), a) && q.dels[b] == p.dels[b]
  {
    WriteAlike(p, q, a, b, p.dels[b].(rewards := 0));
  }

  lemma DistributeAlike(p: Pool, q: Pool, a: Address, amount: nat, active: nat, p': Pool, q': Pool)
    requires Apart(p, q, a)
    requires Distribute(p, amount, active) == Ok(p') && Distribute(q, amount, active) == Ok(q')
    ensures MoveAlike(p, q, p', q', a)
  {}

  lemma PayCommissionAlike(p: Pool, q: Pool, a: Address, commission: nat, p': Pool, q': Pool)
    requires Apart(p, q, a) && p.val.auth in p.dels && q.val.auth in q.dels
    requires PayCommission(p, commission) == Ok(p') && PayCommission(q, commission) == Ok(q')
    ensures MoveAlike(p, q, p', q', a)
  {
    if p.val.auth != a {
      WriteAlike(p, q, a, p.val.auth, p'.dels[p.val.auth]);
    }
  }

  lemma BlockRewardAlike(
    p: Pool, q: Pool, a: Address, reward: nat, rate: nat, active: nat, p': Pool, q': Pool)
    requires Apart(p, q, a)
    requires BlockReward(p, reward, rate, active) == Ok(p') && BlockReward(q, reward, rate, active) == Ok(q')
    ensures MoveAlike(p, q, p', q', a)
  {
    var commission, shared, p1 := BlockRewardSteps(p, reward, rate, active, p');
    var commissionQ, sharedQ, q1 := BlockRewardSteps(q, reward, rate, active, q');
    BlockRewardChainAlike(p, q, a, commission, shared, active, p1, q1, p', q');
  }

  lemma BlockRewardChainAlike(
    p: Pool, q: Pool, a: Address, commission: nat, shared: nat, active: nat, p1: Pool, q1: Pool, p': Pool, q': Pool)
    requires Apart(p, q, a)
    requires BlockRewardChain(p, commission, shared, active, p1, p')
    requires BlockRewardChain(q, commission, shared, active, q1, q')
    ensures MoveAlike(p, q, p', q', a)
  {
    var auth := p.val.auth;
    TouchAlike(p, q, a, auth);
    PayCommissionAlike(Touch(p, auth), Touch(q, auth), a, commission, p1, q1);
    AlikeTransitive(p, q, Touch(p, auth), Touch(q, auth), p1, q1, a);
    if shared != 0 {
      DistributeAlike(p1, q1, a, shared, active, p', q');
      AlikeTransitive(p, q, p1, q1, p', q', a);
    }
  }

  lemma FreezeAlike(p: Pool, q: Pool, a: Address, next: Epoch)
    requires Apart(p, q, a)
    ensures MoveAlike(p, q, Freeze(p, next), Freeze(q, next), a)
  {}

  lemma CommissionAlike(p: Pool, q: Pool, a: Address, commission: nat)
    requires Apart(p, q, a)
    ensures MoveAlike(p, q, p.(val := p.val.(commission := commission)),
                      q.(val := q.val.(commission := commission)), a)
  {}

  // ----- shares --------------------------------------------------------------------

  /** `rise` is what one unit of `active` gets of `x`, scaled by `UNIT_BIAS` and rounded down once. */
  ghost predicate SharedOut(rise: int, x: int, active: nat) {
    Times(active, rise) <= UNIT_BIAS * x < Times(active, rise + 1)
  }

  lemma QuotientRounds(x: nat, d: nat)
    requires d > 0
    ensures x / d * d <= x < (x / d + 1) * d
  {
    assert x == x / d * d + x % d;
  }

  /** Rounding down once. */
  lemma RoundedShare(x: nat, active: nat, rise: nat)
    requires active > 0 && rise == x * UNIT_BIAS / active
    ensures SharedOut(rise, x, active)
  {
    QuotientRounds(x * UNIT_BIAS, active);
    TimesIsProduct(active, rise);
    TimesIsProduct(active, rise + 1);
  }

  /** `gain` is the part of `x` that `stake` has in `active`, rounded down twice. */
  ghost predicate ProRata(gain: int, x: int, stake: nat, active: nat) {
    && Times(active, gain) <= Times(stake, x)
    && UNIT_BIAS * Times(stake, x) < UNIT_BIAS * Times(active, gain + 1) + Times(stake, active)
  }

  lemma AtMostPart(rise: nat, x: nat, stake: nat, active: nat, gain: nat)
    requires rise * active <= UNIT_BIAS * x && gain * UNIT_BIAS <= rise * stake
    ensures gain * active <= stake * x
  {
    calc {
      UNIT_BIAS * (gain * active);
      (gain * UNIT_BIAS) * active;
    <= { assert (rise * stake - gain * UNIT_BIAS) * active >= 0; }
      (rise * stake) * active;
      (rise * active) * stake;
    <= { assert (UNIT_BIAS * x - rise * active) * stake >= 0; }
      (UNIT_BIAS * x) * stake;
      UNIT_BIAS * (stake * x);
    }
  }

  lemma AlmostPart(rise: nat, x: nat, stake: nat, active: nat, gain: nat)
    requires UNIT_BIAS * x < (rise + 1) * active && rise * stake < (gain + 1) * UNIT_BIAS && active > 0
    ensures UNIT_BIAS * (stake * x) < UNIT_BIAS * ((gain + 1) * active) + stake * active
  {
    calc {
      UNIT_BIAS * ((gain + 1) * active);
      ((gain + 1) * UNIT_BIAS) * active;
    > { assert ((gain + 1) * UNIT_BIAS - rise * stake) * active > 0; }
      (rise * stake) * active;
      ((rise + 1) * active) * stake - stake * active;
    >= { assert ((rise + 1) * active - UNIT_BIAS * x) * stake >= 0; }
      (UNIT_BIAS * x) * stake - stake * active;
      UNIT_BIAS * (stake * x) - stake * active;
    }
  }

  lemma ShareOfShare(rise: nat, x: nat, stake: nat, active: nat, gain: nat)
    requires SharedOut(rise, x, active) && active > 0 && gain == rise * stake / UNIT_BIAS
    ensures ProRata(gain, x, stake, active)
  {
    TimesIsProduct(active, rise);
    TimesIsProduct(active, rise + 1);
    QuotientRounds(rise * stake, UNIT_BIAS);
    AtMostPart(rise, x, stake, active, gain);
    AlmostPart(rise, x, stake, active, gain);
    TimesIsProduct(active, gain);
    TimesIsProduct(active, gain + 1);
    TimesIsProduct(stake, x);
    TimesIsProduct(stake, active);
  }
}
