/**
 * On a pool that keeps the invariants no ledger operation fails from within:
 * the only failed checked operation left is a word overflow, and that needs
 * more value in the pool than `Bounded` allows.
 */
module LedgerProgress {
  import opened Checked
  import opened Sums
  import opened Ledger
  import opened LedgerInvariant
  import opened LedgerAccrual

  // ----- what is owed is covered -------------------------------------------

  lemma OwedNonNegative(p: Pool, epoch: Epoch, active: nat, a: Address)
    requires RefcountsExact(p) && SnapshotsBounded(p, epoch, active)
    requires a in p.dels && p.dels[a].acc <= p.val.acc
    ensures Owed(p.dels[a], epoch, p.val.acc, p.snaps) >= Times(p.dels[a].stake, p.val.acc - p.dels[a].acc) >= 0
  {
    var d := p.dels[a];
    TimesNonNegative(d.stake, p.val.acc - d.acc);
    if IsEpochActive(epoch, d.deltaEpoch) {
      WindowReferenced(p, a, d.deltaEpoch);
      assert SnapshotOk(p, d.deltaEpoch, epoch, active);
      TimesNonNegative(d.deltaStake, p.val.acc - Value(p.snaps, d.deltaEpoch));
    }
    if IsEpochActive(epoch, d.nextDeltaEpoch) {
      WindowReferenced(p, a, d.nextDeltaEpoch);
      assert SnapshotOk(p, d.nextDeltaEpoch, epoch, active);
      TimesNonNegative(d.nextDeltaStake, p.val.acc - Value(p.snaps, d.nextDeltaEpoch));
    }
  }

  lemma RequestOwedNonNegative(p: Pool, epoch: Epoch, k: (Address, nat))
    requires k in p.wds && RequestCursorOk(p, p.wds[k], epoch)
    ensures RequestOwed(p.wds[k], epoch, p.val.acc, p.snaps) >= 0
  {
    var w := p.wds[k];
    TimesNonNegative(w.amount, (if w.epoch <= epoch then Value(p.snaps, w.epoch) else p.val.acc) - w.acc);
  }

  lemma AllOwedNonNegative(p: Pool, epoch: Epoch, active: nat)
    requires RefcountsExact(p) && SnapshotsBounded(p, epoch, active)
    requires AllCursorsOk(p, epoch) && AllRequestCursorsOk(p, epoch)
    ensures var owed := OwedOf(p.dels, epoch, p.val.acc, p.snaps);
            forall a :: a in owed ==> owed[a] >= 0
    ensures var owed := RequestOwedOf(p.wds, epoch, p.val.acc, p.snaps);
            forall k :: k in owed ==> owed[k] >= 0
  {
    forall a | a in p.dels
      ensures Owed(p.dels[a], epoch, p.val.acc, p.snaps) >= 0
    {
      assert CursorOk(p, p.dels[a], epoch);
      OwedNonNegative(p, epoch, active, a);
    }
    forall k | k in p.wds
      ensures RequestOwed(p.wds[k], epoch, p.val.acc, p.snaps) >= 0
    {
      RequestOwedNonNegative(p, epoch, k);
    }
  }

  /** The unclaimed rewards cover each delegator on its own. */
  lemma DelegatorCovered(p: Pool, epoch: Epoch, inBoundary: bool, active: nat, next: nat, a: Address)
    requires Books(p, epoch, inBoundary) && Accrual(p, epoch, inBoundary, active, next) && a in p.dels
    ensures Owed(p.dels[a], epoch, p.val.acc, p.snaps) <= UNIT_BIAS * p.val.unclaimed
  {
    AllOwedNonNegative(p, epoch, active);
    SumMember(OwedOf(p.dels, epoch, p.val.acc, p.snaps), a);
    SumNonNegative(RequestOwedOf(p.wds, epoch, p.val.acc, p.snaps));
  }

  lemma RequestCovered(p: Pool, epoch: Epoch, inBoundary: bool, active: nat, next: nat, k: (Address, nat))
    requires Books(p, epoch, inBoundary) && Accrual(p, epoch, inBoundary, active, next) && k in p.wds
    ensures RequestOwed(p.wds[k], epoch, p.val.acc, p.snaps) <= UNIT_BIAS * p.val.unclaimed
  {
    AllOwedNonNegative(p, epoch, active);
    SumMember(RequestOwedOf(p.wds, epoch, p.val.acc, p.snaps), k);
    SumNonNegative(OwedOf(p.dels, epoch, p.val.acc, p.snaps));
  }

  // ----- what a pool holds is bounded --------------------------------------

  lemma PartsWithinLiabilities(p: Pool, a: Address)
    requires StakeExact(p) && a in p.dels
    ensures p.dels[a].Total() <= p.val.stake
    ensures p.val.stake + p.val.unclaimed + p.dels[a].rewards <= Liabilities(p)
  {
    SumMember(Totals(p.dels), a);
    SumMember(RewardsOf(p.dels), a);
    SumNonNegative(Amounts(p.wds));
  }

  lemma RequestWithinLiabilities(p: Pool, k: (Address, nat))
    requires k in p.wds
    ensures p.val.unclaimed + p.wds[k].amount <= Liabilities(p)
  {
    SumMember(Amounts(p.wds), k);
    SumNonNegative(RewardsOf(p.dels));
  }

  /** A product that stays within the cover neither overflows nor outgrows the unclaimed rewards. */
  lemma CoveredRewards(diff: nat, stake: nat, unclaimed: nat)
    requires Times(stake, diff) <= UNIT_BIAS * unclaimed
    ensures CheckedMulDiv(diff, stake, UNIT_BIAS).Err? ==>
              CheckedMulDiv(diff, stake, UNIT_BIAS).error == Overflow && UNIT_BIAS * unclaimed > U256_MAX
    ensures CheckedMulDiv(diff, stake, UNIT_BIAS).Ok? ==>
              CheckedMulDiv(diff, stake, UNIT_BIAS).value <= unclaimed
  {
    TimesIsProduct(stake, diff);
    assert diff * stake == stake * diff;
  }

  // ----- settling cannot fail ----------------------------------------------

  /** The accrual of the folded segment is part of what the delegator is owed. */
  lemma SegmentOwed(p: Pool, epoch: Epoch, active: nat, a: Address)
    requires RefcountsExact(p) && SnapshotsBounded(p, epoch, active) && AllCursorsOk(p, epoch)
    requires a in p.dels && IsEpochActive(epoch, p.dels[a].deltaEpoch)
    ensures p.dels[a].acc <= Value(p.snaps, p.dels[a].deltaEpoch)
    ensures Times(p.dels[a].stake, Value(p.snaps, p.dels[a].deltaEpoch) - p.dels[a].acc)
            <= Owed(p.dels[a], epoch, p.val.acc, p.snaps)
  {
    var d := p.dels[a];
    var v := Value(p.snaps, d.deltaEpoch);
    assert CursorOk(p, d, epoch);
    OwedNonNegative(p, epoch, active, a);
    WindowReferenced(p, a, d.deltaEpoch);
    assert SnapshotOk(p, d.deltaEpoch, epoch, active);
    TimesPlus(d.stake, v - d.acc, p.val.acc - v);
    TimesNonNegative(d.stake, p.val.acc - v);
  }

  lemma CompoundSucceeds(p: Pool, epoch: Epoch, inBoundary: bool, active: nat, next: nat, a: Address)
    requires Books(p, epoch, inBoundary) && Accrual(p, epoch, inBoundary, active, next)
    requires a in p.dels && IsEpochActive(epoch, p.dels[a].deltaEpoch)
    requires CompoundStep(p, a).Err?
    ensures CompoundStep(p, a).error == Overflow && !Bounded(p)
  {
    var d := p.dels[a];
    WindowReferenced(p, a, d.deltaEpoch);
    SegmentOwed(p, epoch, active, a);
    DelegatorCovered(p, epoch, inBoundary, active, next, a);
    CoveredRewards(Value(p.snaps, d.deltaEpoch) - d.acc, d.stake, p.val.unclaimed);
    PartsWithinLiabilities(p, a);
  }

  lemma AccrueSucceeds(p: Pool, epoch: Epoch, inBoundary: bool, active: nat, next: nat, a: Address)
    requires Books(p, epoch, inBoundary) && Accrual(p, epoch, inBoundary, active, next)
    requires a in p.dels && AccrueStep(p, a).Err?
    ensures AccrueStep(p, a).error == Overflow && !Bounded(p)
  {
    var d := p.dels[a];
    assert CursorOk(p, d, epoch);
    OwedNonNegative(p, epoch, active, a);
    DelegatorCovered(p, epoch, inBoundary, active, next, a);
    CoveredRewards(p.val.acc - d.acc, d.stake, p.val.unclaimed);
    PartsWithinLiabilities(p, a);
  }

  /** A pull never meets the solvency error, a subtraction below zero or a lost snapshot. */
  lemma PullSucceeds(p: Pool, epoch: Epoch, inBoundary: bool, active: nat, next: nat, a: Address)
    requires Books(p, epoch, inBoundary) && Accrual(p, epoch, inBoundary, active, next)
    requires Pull(p, epoch, a).Err?
    ensures Pull(p, epoch, a).error == Overflow && !Bounded(p)
  {
    var t := Touch(p, a);
    var p0 := Promote(t, epoch, a);
    TouchKeepsBooks(p, epoch, inBoundary, a);
    TouchKeepsAccrual(p, epoch, inBoundary, active, next, a);
    PromoteKeepsBooks(t, epoch, inBoundary, a);
    PromoteKeepsAccrual(t, epoch, inBoundary, active, next, a, p0);
    PromotedWindows(t.dels[a], epoch, inBoundary);
    var p1 := p0;
    if IsEpochActive(epoch, p0.dels[a].nextDeltaEpoch) {
      if CompoundStep(p0, a).Err? {
        CompoundSucceeds(p0, epoch, inBoundary, active, next, a);
        return;
      }
      p1 := CompoundStep(p0, a).value;
      CompoundKeepsBooks(p0, epoch, inBoundary, a, p1);
      CompoundKeepsAccrual(p0, epoch, inBoundary, active, next, a, p1);
      CompoundOnlySettles(p0, a, p1);
    }
    var p2 := p1;
    if IsEpochActive(epoch, p0.dels[a].deltaEpoch) {
      if CompoundStep(p1, a).Err? {
        CompoundSucceeds(p1, epoch, inBoundary, active, next, a);
        return;
      }
      p2 := CompoundStep(p1, a).value;
      CompoundKeepsBooks(p1, epoch, inBoundary, a, p2);
      CompoundKeepsAccrual(p1, epoch, inBoundary, active, next, a, p2);
    }
    AccrueSucceeds(p2, epoch, inBoundary, active, next, a);
  }

  // ----- the other operations ----------------------------------------------

  lemma AddToWindowSucceeds(p: Pool, epoch: Epoch, inBoundary: bool, a: Address, amount: nat)
    requires StakeExact(p) && a in p.dels
    requires AddToWindow(p, epoch, inBoundary, a, amount).Err?
    ensures AddToWindow(p, epoch, inBoundary, a, amount).error == Overflow
    ensures Liabilities(p) + amount > U256_MAX
  {
    PartsWithinLiabilities(p, a);
  }

  lemma OpenWithdrawalSucceeds(p: Pool, epoch: Epoch, inBoundary: bool, a: Address, wid: nat, amount: nat)
    requires StakeExact(p) && a in p.dels && amount <= p.dels[a].stake
    ensures OpenWithdrawal(p, epoch, inBoundary, a, wid, amount).Ok?
  {
    PartsWithinLiabilities(p, a);
  }

  lemma CloseWithdrawalSucceeds(
    p: Pool, epoch: Epoch, inBoundary: bool, active: nat, next: nat, k: (Address, nat))
    requires Books(p, epoch, inBoundary) && Accrual(p, epoch, inBoundary, active, next)
    requires k in p.wds && IsEpochActive(epoch, p.wds[k].epoch)
    requires CloseWithdrawal(p, k).Err?
    ensures CloseWithdrawal(p, k).error == Overflow && !Bounded(p)
  {
    var w := p.wds[k];
    assert RequestCursorOk(p, w, epoch);
    RequestReferenced(p, k, w.epoch);
    RequestCovered(p, epoch, inBoundary, active, next, k);
    CoveredRewards(Value(p.snaps, w.epoch) - w.acc, w.amount, p.val.unclaimed);
    RequestWithinLiabilities(p, k);
    SumNonNegative(Totals(p.dels));
  }

  lemma CloseWithdrawalPays(p: Pool, k: (Address, nat), p': Pool, rewards: nat)
    requires k in p.wds && CloseWithdrawal(p, k) == Ok((p', rewards))
    ensures p.wds[k].amount + rewards <= Liabilities(p)
  {
    RequestWithinLiabilities(p, k);
  }

  /** A withdrawal whose time has come is paid. */
  lemma WithdrawSucceeds(
    p: Pool, epoch: Epoch, inBoundary: bool, active: nat, next: nat, a: Address, wid: nat)
    requires Books(p, epoch, inBoundary) && Accrual(p, epoch, inBoundary, active, next)
    requires (a, wid) in p.wds && p.wds[(a, wid)].epoch + WITHDRAWAL_DELAY <= epoch
    requires Withdraw(p, epoch, a, wid).Err?
    ensures Withdraw(p, epoch, a, wid).error == Overflow && !Bounded(p)
  {
    var k := (a, wid);
    assert RequestOk(p.wds[k], epoch, inBoundary);
    if CloseWithdrawal(p, k).Err? {
      CloseWithdrawalSucceeds(p, epoch, inBoundary, active, next, k);
    } else {
      var (p', rewards) := CloseWithdrawal(p, k).value;
      CloseWithdrawalPays(p, k, p', rewards);
    }
  }

  lemma DistributeSucceeds(p: Pool, amount: nat, active: nat)
    requires active > 0 && Distribute(p, amount, active).Err?
    ensures Distribute(p, amount, active).error == Overflow
    ensures p.val.acc + UNIT_BIAS * amount > U256_MAX || p.val.unclaimed + amount > U256_MAX
  {
    ShareAtMost(amount, active);
  }

  lemma ShareAtMost(amount: nat, active: nat)
    requires active > 0
    ensures amount * UNIT_BIAS / active <= UNIT_BIAS * amount
  {
    var x := amount * UNIT_BIAS;
    assert x / active * active <= x;
    assert x / active <= x / active * active;
  }

  lemma CommissionAtMost(reward: nat, rate: nat)
    requires rate <= MON
    ensures reward * rate <= UNIT_BIAS * reward
    ensures reward * rate / MON <= reward
  {
    assert reward * rate <= reward * MON;
  }

  lemma PayCommissionSucceeds(p: Pool, commission: nat)
    requires StakeExact(p) && p.val.auth in p.dels && PayCommission(p, commission).Err?
    ensures PayCommission(p, commission).error == Overflow && Liabilities(p) + commission > U256_MAX
  {
    PartsWithinLiabilities(p, p.val.auth);
  }

  lemma UnclaimedWithinLiabilities(p: Pool)
    requires StakeExact(p)
    ensures p.val.stake + p.val.unclaimed <= Liabilities(p)
  {
    SumNonNegative(RewardsOf(p.dels));
    SumNonNegative(Amounts(p.wds));
  }

  /** A block reward is shared out whenever its validator is in the active set. */
  lemma BlockRewardSucceeds(
    p: Pool, epoch: Epoch, inBoundary: bool, reward: nat, rate: nat, active: nat)
    requires Books(p, epoch, inBoundary) && active > 0 && rate <= MAX_COMMISSION
    requires BlockReward(p, reward, rate, active).Err?
    ensures BlockReward(p, reward, rate, active).error == Overflow
    ensures p.val.acc + UNIT_BIAS * reward > U256_MAX || UNIT_BIAS * (Liabilities(p) + reward) > U256_MAX
  {
    CommissionAtMost(reward, rate);
    UnclaimedWithinLiabilities(p);
    var t := Touch(p, p.val.auth);
    TouchKeepsBooks(p, epoch, inBoundary, p.val.auth);
    if CheckedMulDiv(reward, rate, MON).Ok? {
      var commission := CheckedMulDiv(reward, rate, MON).value;
      if PayCommission(t, commission).Err? {
        PayCommissionSucceeds(t, commission);
      } else {
        DistributeSucceeds(PayCommission(t, commission).value, reward - commission, active);
      }
    }
  }
}
