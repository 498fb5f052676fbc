/**
 * Lifecycle runs: every small step of the ledger keeps `Accrual`, and on a pool
 * that has it no step can fail for a reason other than a word overflowing.
 */
module LedgerAccrual {
  import opened Checked
  import opened Sums
  import opened Ledger
  import opened LedgerInvariant

  // ----- what the holders of snapshots see --------------------------------

  /** Every snapshot of `p'` is one of `p`, or a later one taken at the present accumulator. */
  ghost predicate SnapshotsFollow(p: Pool, p': Pool, epoch: Epoch) {
    forall e: Epoch :: e > 0 && Ref(p'.snaps, e) > 0 ==>
      || (Ref(p.snaps, e) > 0 && Value(p'.snaps, e) == Value(p.snaps, e))
      || (e > epoch && Value(p'.snaps, e) == p.val.acc)
  }

  lemma FollowingSnapshotsOk(p: Pool, p': Pool, epoch: Epoch, active: nat)
    requires SnapshotsBounded(p, epoch, active) && SnapshotsOrdered(p, epoch)
    requires SnapshotsFollow(p, p', epoch) && p'.val.acc == p.val.acc
    ensures SnapshotsBounded(p', epoch, active) && SnapshotsOrdered(p', epoch)
  {}

  lemma SameSnapshotsOk(p: Pool, p': Pool, epoch: Epoch, active: nat)
    requires p'.snaps == p.snaps && p'.val.acc == p.val.acc
    requires SnapshotsBounded(p, epoch, active) && SnapshotsOrdered(p, epoch)
    ensures SnapshotsBounded(p', epoch, active) && SnapshotsOrdered(p', epoch)
  {}

  lemma SameRequestsOk(p: Pool, p': Pool, epoch: Epoch)
    requires p'.snaps == p.snaps && p'.val.acc == p.val.acc && p'.wds == p.wds
    requires AllRequestCursorsOk(p, epoch)
    ensures AllRequestCursorsOk(p', epoch)
  {}

  /** Windows and requests of `p'` that are due see the values that `p` had. */
  lemma DueWindowKeepsValue(p: Pool, p': Pool, epoch: Epoch, a: Address, e: Epoch)
    requires RefcountsExact(p') && SnapshotsFollow(p, p', epoch)
    requires a in p'.dels && IsEpochActive(epoch, e) && WindowRefs(p'.dels[a], e) > 0
    ensures Value(p'.snaps, e) == Value(p.snaps, e)
  {
    WindowReferenced(p', a, e);
  }

  lemma DueRequestKeepsValue(p: Pool, p': Pool, epoch: Epoch, k: (Address, nat))
    requires RefcountsExact(p') && SnapshotsFollow(p, p', epoch)
    requires k in p'.wds && IsEpochActive(epoch, p'.wds[k].epoch)
    ensures Value(p'.snaps, p'.wds[k].epoch) == Value(p.snaps, p'.wds[k].epoch)
  {
    RequestReferenced(p', k, p'.wds[k].epoch);
  }

  lemma OwedKeepsValue(p: Pool, p': Pool, epoch: Epoch, a: Address)
    requires RefcountsExact(p') && SnapshotsFollow(p, p', epoch) && a in p'.dels
    ensures Owed(p'.dels[a], epoch, p.val.acc, p'.snaps) == Owed(p'.dels[a], epoch, p.val.acc, p.snaps)
  {
    var d := p'.dels[a];
    if IsEpochActive(epoch, d.deltaEpoch) {
      DueWindowKeepsValue(p, p', epoch, a, d.deltaEpoch);
    }
    if IsEpochActive(epoch, d.nextDeltaEpoch) {
      DueWindowKeepsValue(p, p', epoch, a, d.nextDeltaEpoch);
    }
  }

  lemma OwedSumKeepsValue(p: Pool, p': Pool, epoch: Epoch)
    requires RefcountsExact(p') && SnapshotsFollow(p, p', epoch)
    ensures Sum(OwedOf(p'.dels, epoch, p.val.acc, p'.snaps)) == Sum(OwedOf(p'.dels, epoch, p.val.acc, p.snaps))
  {
    forall a | a in p'.dels {
      OwedKeepsValue(p, p', epoch, a);
    }
    assert OwedOf(p'.dels, epoch, p.val.acc, p'.snaps) == OwedOf(p'.dels, epoch, p.val.acc, p.snaps);
  }

  lemma RequestOwedKeepsValue(p: Pool, p': Pool, epoch: Epoch, k: (Address, nat), inBoundary: bool)
    requires RefcountsExact(p') && SnapshotsFollow(p, p', epoch)
    requires k in p'.wds && RequestOk(p'.wds[k], epoch, inBoundary)
    ensures RequestOwed(p'.wds[k], epoch, p.val.acc, p'.snaps) == RequestOwed(p'.wds[k], epoch, p.val.acc, p.snaps)
  {
    if p'.wds[k].epoch <= epoch {
      DueRequestKeepsValue(p, p', epoch, k);
    }
  }

  lemma RequestOwedSumKeepsValue(p: Pool, p': Pool, epoch: Epoch, inBoundary: bool)
    requires RefcountsExact(p') && SnapshotsFollow(p, p', epoch) && AllRequestsOk(p', epoch, inBoundary)
    ensures Sum(RequestOwedOf(p'.wds, epoch, p.val.acc, p'.snaps))
            == Sum(RequestOwedOf(p'.wds, epoch, p.val.acc, p.snaps))
  {
    forall k | k in p'.wds {
      RequestOwedKeepsValue(p, p', epoch, k, inBoundary);
    }
    assert RequestOwedOf(p'.wds, epoch, p.val.acc, p'.snaps) == RequestOwedOf(p'.wds, epoch, p.val.acc, p.snaps);
  }

  lemma CursorKept(p: Pool, p': Pool, epoch: Epoch, a: Address)
    requires RefcountsExact(p') && SnapshotsFollow(p, p', epoch) && p'.val.acc == p.val.acc
    requires a in p'.dels && CursorOk(p, p'.dels[a], epoch)
    ensures CursorOk(p', p'.dels[a], epoch)
  {
    var d := p'.dels[a];
    if IsEpochActive(epoch, d.deltaEpoch) {
      DueWindowKeepsValue(p, p', epoch, a, d.deltaEpoch);
    }
    if IsEpochActive(epoch, d.nextDeltaEpoch) {
      DueWindowKeepsValue(p, p', epoch, a, d.nextDeltaEpoch);
    }
  }

  lemma CursorsKept(p: Pool, p': Pool, epoch: Epoch)
    requires RefcountsExact(p') && SnapshotsFollow(p, p', epoch) && p'.val.acc == p.val.acc
    requires forall b :: b in p'.dels ==> CursorOk(p, p'.dels[b], epoch)
    ensures AllCursorsOk(p', epoch)
  {
    forall b | b in p'.dels
      ensures CursorOk(p', p'.dels[b], epoch)
    {
      CursorKept(p, p', epoch, b);
    }
  }

  lemma RequestCursorsKept(p: Pool, p': Pool, epoch: Epoch, inBoundary: bool)
    requires RefcountsExact(p') && SnapshotsFollow(p, p', epoch) && p'.val.acc == p.val.acc
    requires AllRequestsOk(p', epoch, inBoundary)
    requires forall k :: k in p'.wds ==> RequestCursorOk(p, p'.wds[k], epoch)
    ensures AllRequestCursorsOk(p', epoch)
  {
    forall k | k in p'.wds
      ensures RequestCursorOk(p', p'.wds[k], epoch)
    {
      assert RequestOk(p'.wds[k], epoch, inBoundary);
      if p'.wds[k].epoch <= epoch {
        DueRequestKeepsValue(p, p', epoch, k);
      }
    }
  }

  // ----- one delegator record changes --------------------------------------

  /** The owed sum moves by what the new record owes more, at the old snapshots. */
  lemma OwedAfter(p: Pool, p': Pool, a: Address, d: Delegator, epoch: Epoch, inBoundary: bool)
    requires a in p.dels && p'.dels == p.dels[a := d] && p'.wds == p.wds
    requires p'.val.acc == p.val.acc
    requires RefcountsExact(p') && AllRequestsOk(p', epoch, inBoundary) && SnapshotsFollow(p, p', epoch)
    ensures PoolOwed(p', epoch)
            == PoolOwed(p, epoch)
               - Owed(p.dels[a], epoch, p.val.acc, p.snaps) + Owed(d, epoch, p.val.acc, p.snaps)
  {
    OwedSumKeepsValue(p, p', epoch);
    RequestOwedSumKeepsValue(p, p', epoch, inBoundary);
    OwedSum(p, a, d, epoch, p.val.acc, p.snaps);
  }

  lemma DivisorsAfter(
    p: Pool, p': Pool, a: Address, d: Delegator, epoch: Epoch, inBoundary: bool, active: nat, next: nat)
    requires a in p.dels && p'.dels == p.dels[a := d] && p'.wds == p.wds
    requires DivisorsExact(p, epoch, inBoundary, active, next)
    requires Earning(d, epoch) == Earning(p.dels[a], epoch)
    requires inBoundary ==> Earning(d, epoch + 1) == Earning(p.dels[a], epoch + 1)
    ensures DivisorsExact(p', epoch, inBoundary, active, next)
  {
    EarningSum(p, a, d, epoch);
    EarningSum(p, a, d, epoch + 1);
  }

  lemma AccrualAfter(
    p: Pool, p': Pool, a: Address, d: Delegator, epoch: Epoch, inBoundary: bool, active: nat, next: nat)
    requires a in p.dels && p'.dels == p.dels[a := d] && p'.wds == p.wds
    requires p'.val.acc == p.val.acc
    requires Books(p', epoch, inBoundary) && Accrual(p, epoch, inBoundary, active, next)
    requires SnapshotsFollow(p, p', epoch) && CursorOk(p, d, epoch)
    requires Earning(d, epoch) == Earning(p.dels[a], epoch)
    requires inBoundary ==> Earning(d, epoch + 1) == Earning(p.dels[a], epoch + 1)
    requires Owed(d, epoch, p.val.acc, p.snaps) - Owed(p.dels[a], epoch, p.val.acc, p.snaps)
             <= UNIT_BIAS * (p'.val.unclaimed - p.val.unclaimed)
    ensures Accrual(p', epoch, inBoundary, active, next)
  {
    FollowingSnapshotsOk(p, p', epoch, active);
    CursorsKept(p, p', epoch);
    RequestCursorsKept(p, p', epoch, inBoundary);
    DivisorsAfter(p, p', a, d, epoch, inBoundary, active, next);
    OwedAfter(p, p', a, d, epoch, inBoundary);
  }

  // ----- settling ----------------------------------------------------------

  /** What integer division keeps: the paid units never exceed the scaled accrual. */
  lemma PaidWithinAccrual(diff: nat, stake: nat, rewards: nat)
    requires CheckedMulDiv(diff, stake, UNIT_BIAS) == Ok(rewards)
    ensures UNIT_BIAS * rewards <= Times(stake, diff)
  {
    TimesIsProduct(stake, diff);
    assert diff * stake == stake * diff;
  }

  lemma BlankEarnsNothing(dels: Delegators, a: Address, d: Delegator, e: Epoch)
    requires a !in dels && Blank(d)
    ensures Sum(EarningOf(dels[a := d], e)) == Sum(EarningOf(dels, e))
  {
    assert EarningOf(dels[a := d], e) == EarningOf(dels, e)[a := 0];
    SumUpdate(EarningOf(dels, e), a, 0);
  }

  lemma BlankIsOwedNothing(
    dels: Delegators, a: Address, d: Delegator, epoch: Epoch, acc: nat, snaps: Snapshots)
    requires a !in dels && Blank(d)
    ensures Sum(OwedOf(dels[a := d], epoch, acc, snaps)) == Sum(OwedOf(dels, epoch, acc, snaps))
  {
    assert OwedOf(dels[a := d], epoch, acc, snaps) == OwedOf(dels, epoch, acc, snaps)[a := 0];
    SumUpdate(OwedOf(dels, epoch, acc, snaps), a, 0);
  }

  lemma BlankCursorOk(p: Pool, epoch: Epoch, a: Address, d: Delegator, p': Pool)
    requires Blank(d) && d.acc == 0 && p' == p.(dels := p.dels[a := d])
    requires AllCursorsOk(p, epoch)
    ensures AllCursorsOk(p', epoch)
  {}

  lemma InsertBlankKeepsAccrual(
    p: Pool, epoch: Epoch, inBoundary: bool, active: nat, next: nat, a: Address, d: Delegator, p': Pool)
    requires a !in p.dels && Blank(d) && d.acc == 0
    requires p' == p.(dels := p.dels[a := d])
    requires Accrual(p, epoch, inBoundary, active, next)
    ensures Accrual(p', epoch, inBoundary, active, next)
  {
    BlankCursorOk(p, epoch, a, d, p');
    SameRequestsOk(p, p', epoch);
    SameSnapshotsOk(p, p', epoch, active);
    BlankEarnsNothing(p.dels, a, d, epoch);
    BlankEarnsNothing(p.dels, a, d, epoch + 1);
    BlankIsOwedNothing(p.dels, a, d, epoch, p.val.acc, p.snaps);
  }

  lemma TouchKeepsAccrual(p: Pool, epoch: Epoch, inBoundary: bool, active: nat, next: nat, a: Address)
    requires Accrual(p, epoch, inBoundary, active, next)
    ensures Accrual(Touch(p, a), epoch, inBoundary, active, next)
  {
    if a !in p.dels {
      InsertBlankKeepsAccrual(p, epoch, inBoundary, active, next, a, NO_DELEGATOR, Touch(p, a));
    }
  }

  lemma PromotedOwesTheSame(d: Delegator, epoch: Epoch, inBoundary: bool, acc: nat, snaps: Snapshots, e: Epoch)
    requires WindowsOk(d, epoch, inBoundary)
    ensures Owed(PromoteWindow(d, epoch), epoch, acc, snaps) == Owed(d, epoch, acc, snaps)
    ensures Earning(PromoteWindow(d, epoch), e) == Earning(d, e)
  {}

  lemma PromoteKeepsAccrual(
    p: Pool, epoch: Epoch, inBoundary: bool, active: nat, next: nat, a: Address, p': Pool)
    requires a in p.dels && Books(p, epoch, inBoundary) && Accrual(p, epoch, inBoundary, active, next)
    requires p' == Promote(p, epoch, a)
    ensures Accrual(p', epoch, inBoundary, active, next)
  {
    PromoteKeepsBooks(p, epoch, inBoundary, a);
    PromotedOwesTheSame(p.dels[a], epoch, inBoundary, p.val.acc, p.snaps, epoch);
    PromotedOwesTheSame(p.dels[a], epoch, inBoundary, p.val.acc, p.snaps, epoch + 1);
    AccrualAfter(p, p', a, p'.dels[a], epoch, inBoundary, active, next);
  }

  /** Folding a due window pays the stake up to its snapshot and adds nothing else to the debt. */
  lemma CompoundedOwes(d: Delegator, d': Delegator, epoch: Epoch, acc: nat, snaps: Snapshots)
    requires IsEpochActive(epoch, d.deltaEpoch)
    requires d'.stake == d.stake + d.deltaStake && d'.acc == Value(snaps, d.deltaEpoch)
    requires d'.deltaStake == d.nextDeltaStake && d'.deltaEpoch == d.nextDeltaEpoch && d'.nextDeltaEpoch == 0
    ensures Owed(d', epoch, acc, snaps)
            == Owed(d, epoch, acc, snaps) - Times(d.stake, Value(snaps, d.deltaEpoch) - d.acc)
  {
    var v := Value(snaps, d.deltaEpoch);
    TimesAcross(d.stake, d.deltaStake, acc - v);
    TimesPlus(d.stake, acc - v, v - d.acc);
  }

  /** What a successful compound step changes. */
  predicate Compounded(p: Pool, p': Pool, a: Address, rewards: nat) {
    && a in p.dels && a in p'.dels
    && var d := p.dels[a];
    && var v := Value(p.snaps, d.deltaEpoch);
    && d.acc <= v
    && CheckedMulDiv(v - d.acc, d.stake, UNIT_BIAS) == Ok(rewards)
    && var d' := p'.dels[a];
    && d'.stake == d.stake + d.deltaStake && d'.acc == v && d'.rewards == d.rewards + rewards
    && d'.deltaStake == d.nextDeltaStake && d'.deltaEpoch == d.nextDeltaEpoch
    && d'.nextDeltaStake == d'.nextDeltaEpoch == 0
    && p'.dels == p.dels[a := d']
    && p'.wds == p.wds
    && p'.snaps == DecrementRef(p.snaps, d.deltaEpoch)
    && p'.val.acc == p.val.acc
    && p'.val.unclaimed == p.val.unclaimed - rewards
  }

  lemma CompoundStepCompounds(p: Pool, a: Address, p': Pool) returns (rewards: nat)
    requires a in p.dels && Ref(p.snaps, p.dels[a].deltaEpoch) > 0
    requires CompoundStep(p, a) == Ok(p')
    ensures Compounded(p, p', a, rewards)
  {
    rewards := p.val.unclaimed - p'.val.unclaimed;
  }

  lemma DecrementFollows(p: Pool, p': Pool, e: Epoch, epoch: Epoch)
    requires p'.snaps == DecrementRef(p.snaps, e)
    ensures SnapshotsFollow(p, p', epoch)
  {
    forall f: Epoch {
      DecrementRefAt(p.snaps, e, f);
    }
  }

  /** The two due windows of a delegator are in order. */
  lemma CompoundedCursorOk(p: Pool, a: Address, d: Delegator, epoch: Epoch, active: nat)
    requires a in p.dels && RefcountsExact(p) && SnapshotsOrdered(p, epoch)
    requires SnapshotsBounded(p, epoch, active)
    requires IsEpochActive(epoch, p.dels[a].deltaEpoch)
    requires p.dels[a].nextDeltaEpoch != 0 ==> p.dels[a].deltaEpoch < p.dels[a].nextDeltaEpoch
    requires d.acc == Value(p.snaps, p.dels[a].deltaEpoch)
    requires d.deltaEpoch == p.dels[a].nextDeltaEpoch && d.nextDeltaEpoch == 0
    ensures CursorOk(p, d, epoch)
  {
    WindowReferenced(p, a, p.dels[a].deltaEpoch);
    assert SnapshotOk(p, p.dels[a].deltaEpoch, epoch, active);
    if IsEpochActive(epoch, d.deltaEpoch) {
      WindowReferenced(p, a, d.deltaEpoch);
    }
  }

  lemma CompoundedEarns(d: Delegator, d': Delegator, epoch: Epoch, inBoundary: bool, e: Epoch)
    requires WindowsOk(d, epoch, inBoundary) && IsEpochActive(epoch, d.deltaEpoch) && epoch <= e
    requires d'.stake == d.stake + d.deltaStake
    requires d'.deltaStake == d.nextDeltaStake && d'.deltaEpoch == d.nextDeltaEpoch && d'.nextDeltaEpoch == 0
    ensures Earning(d', e) == Earning(d, e)
  {}

  lemma CompoundedDebt(p: Pool, epoch: Epoch, a: Address, p': Pool, rewards: nat)
    requires a in p.dels && IsEpochActive(epoch, p.dels[a].deltaEpoch) && Compounded(p, p', a, rewards)
    ensures Owed(p'.dels[a], epoch, p.val.acc, p.snaps) - Owed(p.dels[a], epoch, p.val.acc, p.snaps)
            <= UNIT_BIAS * (p'.val.unclaimed - p.val.unclaimed)
  {
    var d := p.dels[a];
    CompoundedOwes(d, p'.dels[a], epoch, p.val.acc, p.snaps);
    PaidWithinAccrual(Value(p.snaps, d.deltaEpoch) - d.acc, d.stake, rewards);
  }

  lemma CompoundedKeepsAccrual(
    p: Pool, epoch: Epoch, inBoundary: bool, active: nat, next: nat, a: Address, p': Pool, rewards: nat)
    requires a in p.dels && Books(p, epoch, inBoundary) && Books(p', epoch, inBoundary)
    requires Accrual(p, epoch, inBoundary, active, next)
    requires IsEpochActive(epoch, p.dels[a].deltaEpoch) && Compounded(p, p', a, rewards)
    ensures Accrual(p', epoch, inBoundary, active, next)
  {
    var d, d' := p.dels[a], p'.dels[a];
    assert WindowsOk(d, epoch, inBoundary);
    DecrementFollows(p, p', d.deltaEpoch, epoch);
    CompoundedCursorOk(p, a, d', epoch, active);
    CompoundedEarns(d, d', epoch, inBoundary, epoch);
    CompoundedEarns(d, d', epoch, inBoundary, epoch + 1);
    CompoundedDebt(p, epoch, a, p', rewards);
    AccrualAfter(p, p', a, d', epoch, inBoundary, active, next);
  }

  lemma CompoundKeepsAccrual(
    p: Pool, epoch: Epoch, inBoundary: bool, active: nat, next: nat, a: Address, p': Pool)
    requires a in p.dels && Books(p, epoch, inBoundary) && Accrual(p, epoch, inBoundary, active, next)
    requires IsEpochActive(epoch, p.dels[a].deltaEpoch) && CompoundStep(p, a) == Ok(p')
    ensures Accrual(p', epoch, inBoundary, active, next)
  {
    WindowReferenced(p, a, p.dels[a].deltaEpoch);
    var rewards := CompoundStepCompounds(p, a, p');
    CompoundKeepsBooks(p, epoch, inBoundary, a, p');
    CompoundedKeepsAccrual(p, epoch, inBoundary, active, next, a, p', rewards);
  }

  /** What a successful accrual changes. */
  predicate Accrued(p: Pool, p': Pool, a: Address, rewards: nat) {
    && a in p.dels && a in p'.dels
    && var d := p.dels[a];
    && d.acc <= p.val.acc
    && CheckedMulDiv(p.val.acc - d.acc, d.stake, UNIT_BIAS) == Ok(rewards)
    && p'.dels[a] == d.(acc := p.val.acc, rewards := d.rewards + rewards)
    && p'.dels == p.dels[a := p'.dels[a]]
    && p'.wds == p.wds
    && p'.snaps == p.snaps
    && p'.val.acc == p.val.acc
    && p'.val.unclaimed == p.val.unclaimed - rewards
  }

  lemma AccrueStepAccrues(p: Pool, a: Address, p': Pool) returns (rewards: nat)
    requires a in p.dels && p.dels[a].stake != 0
    requires AccrueStep(p, a) == Ok(p')
    ensures Accrued(p, p', a, rewards)
  {
    rewards := p.val.unclaimed - p'.val.unclaimed;
  }

  /** Once nothing is due, an accrual up to the present leaves a delegator owed nothing. */
  lemma AccruedKeepsAccrual(
    p: Pool, epoch: Epoch, inBoundary: bool, active: nat, next: nat, a: Address, p': Pool, rewards: nat)
    requires Books(p', epoch, inBoundary) && Accrual(p, epoch, inBoundary, active, next)
    requires Accrued(p, p', a, rewards)
    requires !IsEpochActive(epoch, p.dels[a].deltaEpoch) && !IsEpochActive(epoch, p.dels[a].nextDeltaEpoch)
    ensures Accrual(p', epoch, inBoundary, active, next)
  {
    var d, d' := p.dels[a], p'.dels[a];
    assert Owed(d', epoch, p.val.acc, p.snaps) - Owed(d, epoch, p.val.acc, p.snaps)
        <= UNIT_BIAS * (p'.val.unclaimed - p.val.unclaimed) by {
      PaidWithinAccrual(p.val.acc - d.acc, d.stake, rewards);
      TimesZero(d.stake);
    }
    AccrualAfter(p, p', a, d', epoch, inBoundary, active, next);
  }

  lemma AccrueKeepsAccrual(
    p: Pool, epoch: Epoch, inBoundary: bool, active: nat, next: nat, a: Address, p': Pool)
    requires a in p.dels && Books(p, epoch, inBoundary) && Accrual(p, epoch, inBoundary, active, next)
    requires !IsEpochActive(epoch, p.dels[a].deltaEpoch) && !IsEpochActive(epoch, p.dels[a].nextDeltaEpoch)
    requires AccrueStep(p, a) == Ok(p')
    ensures Accrual(p', epoch, inBoundary, active, next)
    ensures p'.dels[a].stake != 0 ==> p'.dels[a].acc == p'.val.acc
  {
    if p.dels[a].stake != 0 {
      var rewards := AccrueStepAccrues(p, a, p');
      AccrueKeepsBooks(p, epoch, inBoundary, a, p');
      AccruedKeepsAccrual(p, epoch, inBoundary, active, next, a, p', rewards);
    }
  }

  /** Settling keeps `Accrual` and leaves an active stake at the present accumulator. */
  lemma PullKeepsAccrual(
    p: Pool, epoch: Epoch, inBoundary: bool, active: nat, next: nat, a: Address, p': Pool)
    requires Books(p, epoch, inBoundary) && Accrual(p, epoch, inBoundary, active, next)
    requires Pull(p, epoch, a) == Ok(p')
    ensures Accrual(p', epoch, inBoundary, active, next)
    ensures p'.dels[a].stake != 0 ==> p'.dels[a].acc == p'.val.acc
  {
    var p0, p1, p2 := PullSteps(p, epoch, a, p');
    var t := Touch(p, a);
    TouchKeepsBooks(p, epoch, inBoundary, a);
    TouchKeepsAccrual(p, epoch, inBoundary, active, next, a);
    PromoteKeepsBooks(t, epoch, inBoundary, a);
    PromoteKeepsAccrual(t, epoch, inBoundary, active, next, a, p0);
    PromotedWindows(t.dels[a], epoch, inBoundary);
    if IsEpochActive(epoch, p0.dels[a].nextDeltaEpoch) {
      CompoundKeepsBooks(p0, epoch, inBoundary, a, p1);
      CompoundKeepsAccrual(p0, epoch, inBoundary, active, next, a, p1);
      CompoundOnlySettles(p0, a, p1);
    }
    if IsEpochActive(epoch, p0.dels[a].deltaEpoch) {
      CompoundKeepsBooks(p1, epoch, inBoundary, a, p2);
      CompoundKeepsAccrual(p1, epoch, inBoundary, active, next, a, p2);
      CompoundOnlySettles(p1, a, p2);
    }
    AccrueKeepsAccrual(p2, epoch, inBoundary, active, next, a, p');
  }

  // ----- delegating and withdrawing ----------------------------------------

  /** Stake that joins a window earns nothing before the window opens. */
  lemma JoinedEarns(d: Delegator, d': Delegator, epoch: Epoch, inBoundary: bool, amount: nat)
    requires WindowsOk(d, epoch, inBoundary) && Settled(d, epoch)
    requires JoinWindow(d, epoch, inBoundary, amount) == Ok(d')
    ensures Earning(d', epoch) == Earning(d, epoch)
    ensures inBoundary ==> Earning(d', epoch + 1) == Earning(d, epoch + 1)
    ensures forall acc: nat, snaps :: Owed(d', epoch, acc, snaps) == Owed(d, epoch, acc, snaps)
  {}

  lemma JoinedFollows(p: Pool, p': Pool, a: Address, amount: nat, epoch: Epoch, inBoundary: bool)
    requires Joined(p, p', a, amount, epoch, inBoundary)
    ensures SnapshotsFollow(p, p', epoch)
  {}

  lemma JoinedKeepsAccrual(
    p: Pool, epoch: Epoch, inBoundary: bool, active: nat, next: nat, a: Address, amount: nat, p': Pool)
    requires Books(p, epoch, inBoundary) && Books(p', epoch, inBoundary)
    requires Accrual(p, epoch, inBoundary, active, next)
    requires Joined(p, p', a, amount, epoch, inBoundary) && Settled(p.dels[a], epoch)
    ensures Accrual(p', epoch, inBoundary, active, next)
  {
    assert WindowsOk(p.dels[a], epoch, inBoundary) && CursorOk(p, p.dels[a], epoch);
    JoinedEarns(p.dels[a], p'.dels[a], epoch, inBoundary, amount);
    JoinedFollows(p, p', a, amount, epoch, inBoundary);
    AccrualAfter(p, p', a, p'.dels[a], epoch, inBoundary, active, next);
  }

  lemma RequestOwedAdded(
    wds: Withdrawals, k: (Address, nat), w: Withdrawal, epoch: Epoch, acc: nat, snaps: Snapshots)
    requires k !in wds
    ensures Sum(RequestOwedOf(wds[k := w], epoch, acc, snaps))
            == Sum(RequestOwedOf(wds, epoch, acc, snaps)) + RequestOwed(w, epoch, acc, snaps)
  {
    var owed := RequestOwed(w, epoch, acc, snaps);
    assert RequestOwedOf(wds[k := w], epoch, acc, snaps) == RequestOwedOf(wds, epoch, acc, snaps)[k := owed];
    SumUpdate(RequestOwedOf(wds, epoch, acc, snaps), k, owed);
  }

  /** A withdrawal goes on earning in the place of the stake it came from. */
  lemma OpenedEarns(p: Pool, p': Pool, k: (Address, nat), amount: nat, opens: Epoch, e: Epoch)
    requires k !in p.wds && Opened(p, p', k, amount, opens) && e < opens
    ensures EarningStake(p', e) == EarningStake(p, e)
  {
    EarningSum(p, k.0, p'.dels[k.0], e);
    RequestEarningAdded(p.wds, k, Withdrawal(amount, p.dels[k.0].acc, opens), e);
  }

  /** At the present accumulator a delegator is owed nothing for its active stake. */
  lemma OpenedDelegatorOwes(d: Delegator, d': Delegator, epoch: Epoch, acc: nat, snaps: Snapshots)
    requires d' == d.(stake := d'.stake, acc := d'.acc)
    requires d.acc == acc && (d'.stake != 0 ==> d'.acc == acc)
    ensures Owed(d', epoch, acc, snaps) == Owed(d, epoch, acc, snaps)
  {
    TimesZero(d.stake);
    TimesZero(d'.stake);
  }

  /** Opening a withdrawal at the present accumulator owes nothing more than before. */
  lemma OpenedOwes(
    p: Pool, p': Pool, epoch: Epoch, inBoundary: bool, k: (Address, nat), amount: nat, opens: Epoch)
    requires RefcountsExact(p') && AllRequestsOk(p', epoch, inBoundary) && SnapshotsFollow(p, p', epoch)
    requires k !in p.wds && Opened(p, p', k, amount, opens) && epoch < opens
    requires p.dels[k.0].acc == p.val.acc
    requires p'.dels[k.0].stake != 0 ==> p'.dels[k.0].acc == p.val.acc
    ensures PoolOwed(p', epoch) == PoolOwed(p, epoch)
  {
    var acc := p.val.acc;
    OwedSumKeepsValue(p, p', epoch);
    RequestOwedSumKeepsValue(p, p', epoch, inBoundary);
    OwedSum(p, k.0, p'.dels[k.0], epoch, acc, p.snaps);
    OpenedDelegatorOwes(p.dels[k.0], p'.dels[k.0], epoch, acc, p.snaps);
    OpenedRequestOwes(p, p', epoch, k, amount, opens);
  }

  lemma OpenedRequestOwes(p: Pool, p': Pool, epoch: Epoch, k: (Address, nat), amount: nat, opens: Epoch)
    requires k !in p.wds && Opened(p, p', k, amount, opens) && epoch < opens
    requires p.dels[k.0].acc == p.val.acc
    ensures Sum(RequestOwedOf(p'.wds, epoch, p.val.acc, p.snaps))
            == Sum(RequestOwedOf(p.wds, epoch, p.val.acc, p.snaps))
  {
    var w := Withdrawal(amount, p.dels[k.0].acc, opens);
    RequestOwedAdded(p.wds, k, w, epoch, p.val.acc, p.snaps);
    TimesZero(amount);
  }

  lemma OpenedFollows(p: Pool, p': Pool, k: (Address, nat), amount: nat, opens: Epoch, epoch: Epoch)
    requires Opened(p, p', k, amount, opens) && epoch < opens
    ensures SnapshotsFollow(p, p', epoch)
  {}

  lemma OpenedCursors(
    p: Pool, p': Pool, epoch: Epoch, inBoundary: bool, k: (Address, nat), amount: nat, opens: Epoch)
    requires RefcountsExact(p') && AllRequestsOk(p', epoch, inBoundary) && SnapshotsFollow(p, p', epoch)
    requires Opened(p, p', k, amount, opens) && epoch < opens
    requires p'.dels[k.0].acc <= p.dels[k.0].acc
    requires AllCursorsOk(p, epoch) && AllRequestCursorsOk(p, epoch)
    ensures AllCursorsOk(p', epoch) && AllRequestCursorsOk(p', epoch)
  {
    assert CursorOk(p, p.dels[k.0], epoch);
    CursorsKept(p, p', epoch);
    RequestCursorsKept(p, p', epoch, inBoundary);
  }

  lemma OpenedDivisors(
    p: Pool, p': Pool, epoch: Epoch, inBoundary: bool, active: nat, next: nat,
    k: (Address, nat), amount: nat, opens: Epoch)
    requires DivisorsExact(p, epoch, inBoundary, active, next)
    requires k !in p.wds && Opened(p, p', k, amount, opens)
    requires epoch < opens && (inBoundary ==> epoch + 1 < opens)
    ensures DivisorsExact(p', epoch, inBoundary, active, next)
  {
    OpenedEarns(p, p', k, amount, opens, epoch);
    if inBoundary {
      OpenedEarns(p, p', k, amount, opens, epoch + 1);
    }
  }

  lemma OpenedKeepsAccrual(
    p: Pool, epoch: Epoch, inBoundary: bool, active: nat, next: nat, k: (Address, nat), amount: nat, p': Pool)
    requires Books(p', epoch, inBoundary) && Accrual(p, epoch, inBoundary, active, next)
    requires k !in p.wds && Opened(p, p', k, amount, ActivationEpoch(epoch, inBoundary))
    requires p.dels[k.0].acc == p.val.acc
    requires p'.dels[k.0].acc == if p'.dels[k.0].stake == 0 then 0 else p.dels[k.0].acc
    ensures Accrual(p', epoch, inBoundary, active, next)
  {
    var opens := ActivationEpoch(epoch, inBoundary);
    OpenedFollows(p, p', k, amount, opens, epoch);
    FollowingSnapshotsOk(p, p', epoch, active);
    OpenedCursors(p, p', epoch, inBoundary, k, amount, opens);
    OpenedDivisors(p, p', epoch, inBoundary, active, next, k, amount, opens);
    OpenedOwes(p, p', epoch, inBoundary, k, amount, opens);
  }

  /** What closing a due request changes. */
  predicate Closed(p: Pool, p': Pool, k: (Address, nat), rewards: nat) {
    && k in p.wds && k !in p'.wds
    && var w := p.wds[k];
    && w.acc <= Value(p.snaps, w.epoch)
    && CheckedMulDiv(Value(p.snaps, w.epoch) - w.acc, w.amount, UNIT_BIAS) == Ok(rewards)
    && p.wds == p'.wds[k := w]
    && p'.dels == p.dels
    && p'.snaps == DecrementRef(p.snaps, w.epoch)
    && p'.val == p.val.(unclaimed := p'.val.unclaimed)
    && p'.val.unclaimed == p.val.unclaimed - rewards
  }

  lemma CloseWithdrawalCloses(p: Pool, k: (Address, nat), p': Pool, rewards: nat)
    requires k in p.wds && Ref(p.snaps, p.wds[k].epoch) > 0
    requires CloseWithdrawal(p, k) == Ok((p', rewards))
    ensures Closed(p, p', k, rewards)
  {
    assert p.wds == p'.wds[k := p.wds[k]];
  }

  lemma ClosedCursors(p: Pool, p': Pool, epoch: Epoch, inBoundary: bool, k: (Address, nat), rewards: nat)
    requires RefcountsExact(p') && AllRequestsOk(p', epoch, inBoundary) && SnapshotsFollow(p, p', epoch)
    requires Closed(p, p', k, rewards)
    requires AllCursorsOk(p, epoch) && AllRequestCursorsOk(p, epoch)
    ensures AllCursorsOk(p', epoch) && AllRequestCursorsOk(p', epoch)
  {
    CursorsKept(p, p', epoch);
    forall j | j in p'.wds
      ensures RequestCursorOk(p, p'.wds[j], epoch)
    {
      assert j in p.wds && p.wds[j] == p'.wds[j];
    }
    RequestCursorsKept(p, p', epoch, inBoundary);
  }

  lemma ClosedOwes(p: Pool, p': Pool, epoch: Epoch, inBoundary: bool, k: (Address, nat), rewards: nat)
    requires RefcountsExact(p') && AllRequestsOk(p', epoch, inBoundary) && SnapshotsFollow(p, p', epoch)
    requires Closed(p, p', k, rewards) && p.wds[k].epoch <= epoch
    ensures PoolOwed(p', epoch) <= PoolOwed(p, epoch) - UNIT_BIAS * rewards
  {
    var w := p.wds[k];
    OwedSumKeepsValue(p, p', epoch);
    RequestOwedSumKeepsValue(p, p', epoch, inBoundary);
    RequestOwedAdded(p'.wds, k, w, epoch, p.val.acc, p.snaps);
    PaidWithinAccrual(Value(p.snaps, w.epoch) - w.acc, w.amount, rewards);
  }

  lemma ClosedEarns(p: Pool, p': Pool, k: (Address, nat), rewards: nat, e: Epoch)
    requires Closed(p, p', k, rewards) && p.wds[k].epoch <= e
    ensures EarningStake(p', e) == EarningStake(p, e)
  {
    RequestEarningAdded(p'.wds, k, p.wds[k], e);
  }

  lemma ClosedKeepsAccrual(
    p: Pool, epoch: Epoch, inBoundary: bool, active: nat, next: nat, k: (Address, nat), p': Pool, rewards: nat)
    requires Books(p', epoch, inBoundary) && Accrual(p, epoch, inBoundary, active, next)
    requires Closed(p, p', k, rewards) && p.wds[k].epoch <= epoch
    ensures Accrual(p', epoch, inBoundary, active, next)
  {
    DecrementFollows(p, p', p.wds[k].epoch, epoch);
    FollowingSnapshotsOk(p, p', epoch, active);
    ClosedCursors(p, p', epoch, inBoundary, k, rewards);
    ClosedEarns(p, p', k, rewards, epoch);
    ClosedEarns(p, p', k, rewards, epoch + 1);
    ClosedOwes(p, p', epoch, inBoundary, k, rewards);
  }

  lemma CloseWithdrawalKeepsAccrual(
    p: Pool, epoch: Epoch, inBoundary: bool, active: nat, next: nat, k: (Address, nat), p': Pool, rewards: nat)
    requires Books(p, epoch, inBoundary) && Accrual(p, epoch, inBoundary, active, next)
    requires k in p.wds && IsEpochActive(epoch, p.wds[k].epoch)
    requires CloseWithdrawal(p, k) == Ok((p', rewards))
    ensures Accrual(p', epoch, inBoundary, active, next)
  {
    RequestReferenced(p, k, p.wds[k].epoch);
    CloseWithdrawalCloses(p, k, p', rewards);
    CloseWithdrawalKeepsBooks(p, epoch, inBoundary, k, p', rewards);
    ClosedKeepsAccrual(p, epoch, inBoundary, active, next, k, p', rewards);
  }

  // ----- rewards -----------------------------------------------------------

  lemma RewardsEarnNothing(d: Delegator, d': Delegator, epoch: Epoch, acc: nat, snaps: Snapshots)
    requires d' == d.(rewards := d'.rewards)
    ensures Owed(d', epoch, acc, snaps) == Owed(d, epoch, acc, snaps)
    ensures Earning(d', epoch) == Earning(d, epoch) && Earning(d', epoch + 1) == Earning(d, epoch + 1)
  {}

  /** The credited rewards of a delegator earn nothing and are owed nothing. */
  lemma RewardsChangeKeepsAccrual(
    p: Pool, epoch: Epoch, inBoundary: bool, active: nat, next: nat, a: Address, d: Delegator, p': Pool)
    requires Books(p', epoch, inBoundary) && Accrual(p, epoch, inBoundary, active, next)
    requires a in p.dels && d == p.dels[a].(rewards := d.rewards)
    requires p'.dels == p.dels[a := d] && p'.wds == p.wds && p'.snaps == p.snaps && p'.val == p.val
    ensures Accrual(p', epoch, inBoundary, active, next)
  {
    assert CursorOk(p, p.dels[a], epoch);
    RewardsEarnNothing(p.dels[a], d, epoch, p.val.acc, p.snaps);
    AccrualAfter(p, p', a, d, epoch, inBoundary, active, next);
  }

  lemma RiseOwedToDelegators(dels: Delegators, epoch: Epoch, acc: nat, snaps: Snapshots, rise: nat)
    ensures Sum(OwedOf(dels, epoch, acc + rise, snaps))
            == Sum(OwedOf(dels, epoch, acc, snaps)) + Times(rise, Sum(EarningOf(dels, epoch)))
  {
    forall a | a in dels
      ensures Owed(dels[a], epoch, acc + rise, snaps)
              == Owed(dels[a], epoch, acc, snaps) + Times(rise, Earning(dels[a], epoch))
    {
      RiseOwedToOne(dels[a], epoch, acc, snaps, rise);
    }
    SumLinear(OwedOf(dels, epoch, acc + rise, snaps), OwedOf(dels, epoch, acc, snaps),
              EarningOf(dels, epoch), rise);
  }

  lemma RiseOwedToRequests(wds: Withdrawals, epoch: Epoch, acc: nat, snaps: Snapshots, rise: nat)
    ensures Sum(RequestOwedOf(wds, epoch, acc + rise, snaps))
            == Sum(RequestOwedOf(wds, epoch, acc, snaps)) + Times(rise, Sum(RequestEarningOf(wds, epoch)))
  {
    forall k | k in wds
      ensures RequestOwed(wds[k], epoch, acc + rise, snaps)
              == RequestOwed(wds[k], epoch, acc, snaps) + Times(rise, RequestEarningOf(wds, epoch)[k])
    {
      RiseOwedToRequest(wds[k], epoch, acc, snaps, rise);
    }
    SumLinear(RequestOwedOf(wds, epoch, acc + rise, snaps), RequestOwedOf(wds, epoch, acc, snaps),
              RequestEarningOf(wds, epoch), rise);
  }

  /** A rise of the accumulator is owed on exactly the stake that earns now. */
  lemma RiseIsOwed(p: Pool, epoch: Epoch, rise: nat)
    ensures Sum(OwedOf(p.dels, epoch, p.val.acc + rise, p.snaps))
            + Sum(RequestOwedOf(p.wds, epoch, p.val.acc + rise, p.snaps))
            == PoolOwed(p, epoch) + Times(rise, EarningStake(p, epoch))
  {
    RiseOwedToDelegators(p.dels, epoch, p.val.acc, p.snaps, rise);
    RiseOwedToRequests(p.wds, epoch, p.val.acc, p.snaps, rise);
    TimesPlus(rise, Sum(EarningOf(p.dels, epoch)), Sum(RequestEarningOf(p.wds, epoch)));
  }

  /** One more unit of accumulator is one more scaled unit on every earning unit of stake. */
  lemma TimesRise(stake: nat, y: int, rise: nat)
    ensures Times(stake, y + rise) == Times(stake, y) + Times(rise, stake)
  {
    TimesPlus(stake, y, rise);
    TimesSwap(stake, rise);
  }

  lemma RiseOwedToOne(d: Delegator, epoch: Epoch, acc: nat, snaps: Snapshots, rise: nat)
    ensures Owed(d, epoch, acc + rise, snaps) == Owed(d, epoch, acc, snaps) + Times(rise, Earning(d, epoch))
  {
    var delta := if IsEpochActive(epoch, d.deltaEpoch) then d.deltaStake else 0;
    var nextDelta := if IsEpochActive(epoch, d.nextDeltaEpoch) then d.nextDeltaStake else 0;
    TimesRise(d.stake, acc - d.acc, rise);
    TimesRise(delta, acc - Value(snaps, d.deltaEpoch), rise);
    TimesRise(nextDelta, acc - Value(snaps, d.nextDeltaEpoch), rise);
    TimesPlus(rise, d.stake, delta);
    TimesPlus(rise, d.stake + delta, nextDelta);
    TimesZero(rise);
  }

  lemma RiseOwedToRequest(w: Withdrawal, epoch: Epoch, acc: nat, snaps: Snapshots, rise: nat)
    ensures RequestOwed(w, epoch, acc + rise, snaps)
            == RequestOwed(w, epoch, acc, snaps) + Times(rise, if w.epoch > epoch then w.amount else 0)
  {
    TimesRise(w.amount, acc - w.acc, rise);
    TimesZero(rise);
  }

  /** The rounded share never hands out more than the reward. */
  lemma ShareWithinReward(amount: nat, active: nat, share: nat)
    requires CheckedMulDiv(amount, UNIT_BIAS, active) == Ok(share)
    ensures Times(share, active) <= UNIT_BIAS * amount
  {
    TimesIsProduct(share, active);
  }

  lemma RisenSnapshotsOk(p: Pool, p': Pool, epoch: Epoch, active: nat)
    requires p'.snaps == p.snaps && p.val.acc <= p'.val.acc && active > 0
    requires SnapshotsBounded(p, epoch, active) && SnapshotsOrdered(p, epoch)
    ensures SnapshotsBounded(p', epoch, active) && SnapshotsOrdered(p', epoch)
  {
    forall e: Epoch | e > 0 && Ref(p'.snaps, e) > 0
      ensures SnapshotOk(p', e, epoch, active)
    {
      assert SnapshotOk(p, e, epoch, active);
    }
  }

  lemma RisenCursorsOk(p: Pool, p': Pool, epoch: Epoch)
    requires p'.snaps == p.snaps && p.val.acc <= p'.val.acc && p'.dels == p.dels && p'.wds == p.wds
    requires AllCursorsOk(p, epoch) && AllRequestCursorsOk(p, epoch)
    ensures AllCursorsOk(p', epoch) && AllRequestCursorsOk(p', epoch)
  {}

  lemma DistributedSolvent(p: Pool, p': Pool, epoch: Epoch, active: nat, amount: nat)
    requires Solvent(p, epoch)
    requires active > 0 && EarningStake(p, epoch) == active && Distribute(p, amount, active) == Ok(p')
    ensures Solvent(p', epoch)
  {
    var share := p'.val.acc - p.val.acc;
    RiseIsOwed(p, epoch, share);
    ShareWithinReward(amount, active, share);
  }

  lemma SameHoldersEarn(p: Pool, p': Pool, epoch: Epoch, inBoundary: bool, active: nat, next: nat)
    requires p'.dels == p.dels && p'.wds == p.wds && DivisorsExact(p, epoch, inBoundary, active, next)
    ensures DivisorsExact(p', epoch, inBoundary, active, next)
  {}

  /** What a distribution leaves alone. */
  predicate OnlyRises(p: Pool, p': Pool) {
    && p'.dels == p.dels && p'.wds == p.wds && p'.snaps == p.snaps
    && p.val.acc <= p'.val.acc
  }

  lemma DistributeOnlyRises(p: Pool, amount: nat, active: nat, p': Pool)
    requires Distribute(p, amount, active) == Ok(p')
    ensures OnlyRises(p, p')
  {}

  lemma RisenKeepsAccrual(p: Pool, epoch: Epoch, inBoundary: bool, active: nat, next: nat, p': Pool)
    requires Accrual(p, epoch, inBoundary, active, next)
    requires active > 0 && OnlyRises(p, p') && Solvent(p', epoch)
    ensures Accrual(p', epoch, inBoundary, active, next)
  {
    RisenSnapshotsOk(p, p', epoch, active);
    RisenCursorsOk(p, p', epoch);
    SameHoldersEarn(p, p', epoch, inBoundary, active, next);
  }

  /** The divisor is the stake that earns, so a distribution stays covered. */
  lemma DistributeKeepsAccrual(
    p: Pool, epoch: Epoch, inBoundary: bool, active: nat, next: nat, amount: nat, p': Pool)
    requires Books(p, epoch, inBoundary) && Accrual(p, epoch, inBoundary, active, next)
    requires active > 0 && Distribute(p, amount, active) == Ok(p')
    ensures Accrual(p', epoch, inBoundary, active, next)
  {
    DistributedSolvent(p, p', epoch, active, amount);
    DistributeOnlyRises(p, amount, active, p');
    RisenKeepsAccrual(p, epoch, inBoundary, active, next, p');
  }

  lemma BlockRewardKeepsAccrual(
    p: Pool, epoch: Epoch, inBoundary: bool, active: nat, next: nat,
    commission: nat, shared: nat, p1: Pool, p': Pool)
    requires Books(p, epoch, inBoundary) && Accrual(p, epoch, inBoundary, active, next) && active > 0
    requires BlockRewardChain(p, commission, shared, active, p1, p')
    ensures Accrual(p', epoch, inBoundary, active, next)
  {
    var t := Touch(p, p.val.auth);
    TouchKeepsBooks(p, epoch, inBoundary, p.val.auth);
    TouchKeepsAccrual(p, epoch, inBoundary, active, next, p.val.auth);
    PayCommissionKeepsBooks(t, epoch, inBoundary, commission, p1);
    RewardsChangeKeepsAccrual(t, epoch, inBoundary, active, next, p.val.auth, p1.dels[p.val.auth], p1);
    if shared != 0 {
      DistributeKeepsAccrual(p1, epoch, inBoundary, active, next, shared, p');
    }
  }

  // ----- epochs ------------------------------------------------------------

  /** At the boundary everything still to open opens by the next epoch. */
  lemma NextEpochEarnsAll(p: Pool, epoch: Epoch)
    requires Books(p, epoch, false)
    ensures EarningStake(p, epoch + 1) == p.val.stake
  {
    forall a | a in p.dels
      ensures Earning(p.dels[a], epoch + 1) == p.dels[a].Total()
    {
      assert WindowsOk(p.dels[a], epoch, false);
    }
    assert EarningOf(p.dels, epoch + 1) == Totals(p.dels);
    var requests := RequestEarningOf(p.wds, epoch + 1);
    forall k | k in p.wds
      ensures requests[k] == 0
    {
      assert RequestOk(p.wds[k], epoch, false);
    }
    SumAdd(requests, requests, requests);
  }

  /** Entering the boundary: the new view of a validator is the stake that earns next. */
  lemma BoundaryKeepsAccrual(p: Pool, epoch: Epoch, active: nat, next: nat)
    requires Books(p, epoch, false) && Accrual(p, epoch, false, active, 0)
    requires next > 0 ==> next == p.val.stake
    ensures Accrual(p, epoch, true, active, next)
  {
    NextEpochEarnsAll(p, epoch);
  }

  /** Nothing refers to an epoch later than any activation. */
  lemma NoLaterReferences(p: Pool, epoch: Epoch, inBoundary: bool, e: Epoch)
    requires Books(p, epoch, inBoundary) && e > ActivationEpoch(epoch, inBoundary)
    ensures Ref(p.snaps, e) == 0
  {
    var windows, requests := WindowRefsOf(p.dels, e), RequestRefsOf(p.wds, e);
    forall a | a in p.dels
      ensures windows[a] == 0
    {
      assert WindowsOk(p.dels[a], epoch, inBoundary);
    }
    forall k | k in p.wds
      ensures requests[k] == 0
    {
      assert RequestOk(p.wds[k], epoch, inBoundary);
    }
    SumAdd(windows, windows, windows);
    SumAdd(requests, requests, requests);
  }

  /** The pool after the change to epoch `epoch + 1`: refreshed if it was in the active set. */
  function Turned(p: Pool, epoch: Epoch, active: nat): Pool {
    if active > 0 then Freeze(p, epoch + 1) else p
  }

  lemma TurnKeepsRefs(p: Pool, epoch: Epoch, active: nat, e: Epoch)
    ensures Ref(Turned(p, epoch, active).snaps, e) == Ref(p.snaps, e)
    ensures Ref(p.snaps, e) > 0 ==>
              Value(Turned(p, epoch, active).snaps, e)
              == if active > 0 && (e == epoch + 1 || e == epoch + 2) then p.val.acc else Value(p.snaps, e)
  {
    RefreshKeepsRefs(p.snaps, epoch + 1, p.val.acc, e);
    RefreshKeepsRefs(Refresh(p.snaps, epoch + 1, p.val.acc), epoch + 2, p.val.acc, e);
  }

  /**
   * Accumulator freeze: when the epoch changes, every snapshot that is still
   * to come into force holds the accumulator of that moment, whether or not
   * the validator was in the active set, and every older one keeps its value.
   */
  lemma TurnFreezes(p: Pool, epoch: Epoch, inBoundary: bool, active: nat, e: Epoch)
    requires Books(p, epoch, inBoundary) && SnapshotsBounded(p, epoch, active)
    requires e > 0 && Ref(p.snaps, e) > 0
    ensures Ref(Turned(p, epoch, active).snaps, e) == Ref(p.snaps, e)
    ensures Value(Turned(p, epoch, active).snaps, e) == if e > epoch then p.val.acc else Value(p.snaps, e)
  {
    assert SnapshotOk(p, e, epoch, active);
    TurnKeepsRefs(p, epoch, active, e);
    if e > epoch + 2 {
      NoLaterReferences(p, epoch, inBoundary, e);
    }
  }

  ghost predicate Froze(p: Pool, p': Pool, epoch: Epoch) {
    forall e: Epoch :: e > 0 ==>
      && Ref(p'.snaps, e) == Ref(p.snaps, e)
      && (Ref(p.snaps, e) > 0 ==> Value(p'.snaps, e) == if e > epoch then p.val.acc else Value(p.snaps, e))
  }

  lemma TurnedFroze(p: Pool, epoch: Epoch, inBoundary: bool, active: nat)
    requires Books(p, epoch, inBoundary) && SnapshotsBounded(p, epoch, active)
    ensures Froze(p, Turned(p, epoch, active), epoch)
  {
    forall e: Epoch | e > 0
      ensures Ref(Turned(p, epoch, active).snaps, e) == Ref(p.snaps, e)
      ensures Ref(p.snaps, e) > 0 ==>
                Value(Turned(p, epoch, active).snaps, e) == if e > epoch then p.val.acc else Value(p.snaps, e)
    {
      TurnKeepsRefs(p, epoch, active, e);
      if Ref(p.snaps, e) > 0 {
        TurnFreezes(p, epoch, inBoundary, active, e);
      }
    }
  }

  lemma FrozenSnapshots(p: Pool, p': Pool, epoch: Epoch, active: nat, next: nat)
    requires Froze(p, p', epoch) && p'.val == p.val
    requires SnapshotsBounded(p, epoch, active) && SnapshotsOrdered(p, epoch)
    ensures SnapshotsBounded(p', epoch + 1, next) && SnapshotsOrdered(p', epoch + 1)
  {
    forall e: Epoch | e > 0 && Ref(p'.snaps, e) > 0
      ensures SnapshotOk(p', e, epoch + 1, next)
    {
      assert Ref(p.snaps, e) > 0 && SnapshotOk(p, e, epoch, active);
    }
    forall e: Epoch, f: Epoch | 0 < e < f <= epoch + 1 && Ref(p'.snaps, e) > 0 && Ref(p'.snaps, f) > 0
      ensures Value(p'.snaps, e) <= Value(p'.snaps, f)
    {
      assert Ref(p.snaps, e) > 0 && Ref(p.snaps, f) > 0 && SnapshotOk(p, e, epoch, active);
    }
  }

  lemma FrozenWindow(p: Pool, p': Pool, epoch: Epoch, a: Address, e: Epoch)
    requires Froze(p, p', epoch) && RefcountsExact(p)
    requires a in p.dels && e > 0 && WindowRefs(p.dels[a], e) > 0
    ensures Value(p'.snaps, e) == if e > epoch then p.val.acc else Value(p.snaps, e)
  {
    WindowReferenced(p, a, e);
  }

  lemma FrozenCursor(p: Pool, p': Pool, epoch: Epoch, a: Address)
    requires Froze(p, p', epoch) && p'.val == p.val && RefcountsExact(p)
    requires a in p.dels && CursorOk(p, p.dels[a], epoch)
    ensures CursorOk(p', p.dels[a], epoch + 1)
  {
    var d := p.dels[a];
    if d.deltaEpoch != 0 {
      FrozenWindow(p, p', epoch, a, d.deltaEpoch);
    }
    if d.nextDeltaEpoch != 0 {
      FrozenWindow(p, p', epoch, a, d.nextDeltaEpoch);
    }
  }

  lemma FrozenOwes(p: Pool, p': Pool, epoch: Epoch, a: Address)
    requires Froze(p, p', epoch) && RefcountsExact(p) && a in p.dels
    ensures Owed(p.dels[a], epoch + 1, p.val.acc, p'.snaps) == Owed(p.dels[a], epoch, p.val.acc, p.snaps)
  {
    var d := p.dels[a];
    TimesZero(d.deltaStake);
    TimesZero(d.nextDeltaStake);
    if IsEpochActive(epoch + 1, d.deltaEpoch) {
      FrozenWindow(p, p', epoch, a, d.deltaEpoch);
    }
    if IsEpochActive(epoch + 1, d.nextDeltaEpoch) {
      FrozenWindow(p, p', epoch, a, d.nextDeltaEpoch);
    }
  }

  lemma FrozenRequest(p: Pool, p': Pool, epoch: Epoch, k: (Address, nat))
    requires Froze(p, p', epoch) && p'.val == p.val && RefcountsExact(p)
    requires k in p.wds && p.wds[k].epoch > 0 && RequestCursorOk(p, p.wds[k], epoch)
    ensures RequestCursorOk(p', p.wds[k], epoch + 1)
    ensures RequestOwed(p.wds[k], epoch + 1, p.val.acc, p'.snaps)
            == RequestOwed(p.wds[k], epoch, p.val.acc, p.snaps)
  {
    RequestReferenced(p, k, p.wds[k].epoch);
  }

  lemma FrozenDelegators(p: Pool, p': Pool, epoch: Epoch)
    requires Froze(p, p', epoch) && p'.val == p.val && p'.dels == p.dels && RefcountsExact(p)
    requires AllCursorsOk(p, epoch)
    ensures AllCursorsOk(p', epoch + 1)
    ensures OwedOf(p'.dels, epoch + 1, p'.val.acc, p'.snaps) == OwedOf(p.dels, epoch, p.val.acc, p.snaps)
  {
    forall a | a in p.dels
      ensures CursorOk(p', p.dels[a], epoch + 1)
      ensures Owed(p.dels[a], epoch + 1, p.val.acc, p'.snaps) == Owed(p.dels[a], epoch, p.val.acc, p.snaps)
    {
      FrozenCursor(p, p', epoch, a);
      FrozenOwes(p, p', epoch, a);
    }
  }

  lemma FrozenRequests(p: Pool, p': Pool, epoch: Epoch, inBoundary: bool)
    requires Froze(p, p', epoch) && p'.val == p.val && p'.wds == p.wds && RefcountsExact(p)
    requires AllRequestsOk(p, epoch, inBoundary) && AllRequestCursorsOk(p, epoch)
    ensures AllRequestCursorsOk(p', epoch + 1)
    ensures RequestOwedOf(p'.wds, epoch + 1, p'.val.acc, p'.snaps)
            == RequestOwedOf(p.wds, epoch, p.val.acc, p.snaps)
  {
    forall k | k in p.wds
      ensures RequestCursorOk(p', p.wds[k], epoch + 1)
      ensures RequestOwed(p.wds[k], epoch + 1, p.val.acc, p'.snaps)
              == RequestOwed(p.wds[k], epoch, p.val.acc, p.snaps)
    {
      assert RequestOk(p.wds[k], epoch, inBoundary);
      FrozenRequest(p, p', epoch, k);
    }
  }

  lemma FrozenDivisors(p: Pool, p': Pool, epoch: Epoch, active: nat, next: nat)
    requires p'.dels == p.dels && p'.wds == p.wds && DivisorsExact(p, epoch, true, active, next)
    ensures DivisorsExact(p', epoch + 1, false, next, 0)
  {}

  lemma FrozenKeepsAccrual(p: Pool, p': Pool, epoch: Epoch, active: nat, next: nat)
    requires Books(p, epoch, true) && Accrual(p, epoch, true, active, next)
    requires Froze(p, p', epoch) && p'.val == p.val && p'.dels == p.dels && p'.wds == p.wds
    ensures Accrual(p', epoch + 1, false, next, 0)
  {
    FrozenSnapshots(p, p', epoch, active, next);
    FrozenDelegators(p, p', epoch);
    FrozenRequests(p, p', epoch, true);
    FrozenDivisors(p, p', epoch, active, next);
  }
}
