/**
 * What every pool keeps.  `Books` holds over every run; `Accrual` needs the
 * documented epoch lifecycle.  Each handler is a chain of small steps and each
 * step keeps both.
 */
module LedgerInvariant {
  import opened Checked
  import opened Sums
  import opened Ledger

  // ----- measures ---------------------------------------------------------

  ghost function Totals(dels: Delegators): map<Address, int> {
    map a | a in dels :: dels[a].Total()
  }

  ghost function RewardsOf(dels: Delegators): map<Address, int> {
    map a | a in dels :: dels[a].rewards
  }

  ghost function Amounts(wds: Withdrawals): map<(Address, nat), int> {
    map k | k in wds :: wds[k].amount
  }

  /** How many of the windows of `d` open at epoch `e`. */
  ghost function WindowRefs(d: Delegator, e: Epoch): nat {
    if e == 0 then 0
    else (if d.deltaEpoch == e then 1 else 0) + (if d.nextDeltaEpoch == e then 1 else 0)
  }

  ghost function WindowRefsOf(dels: Delegators, e: Epoch): map<Address, int> {
    map a | a in dels :: WindowRefs(dels[a], e)
  }

  ghost function RequestRefsOf(wds: Withdrawals, e: Epoch): map<(Address, nat), int> {
    map k | k in wds :: if wds[k].epoch == e then 1 else 0
  }

  /** The stake of `d` that earns during epoch `e`. */
  ghost function Earning(d: Delegator, e: Epoch): nat {
    d.stake
    + (if IsEpochActive(e, d.deltaEpoch) then d.deltaStake else 0)
    + (if IsEpochActive(e, d.nextDeltaEpoch) then d.nextDeltaStake else 0)
  }

  ghost function EarningOf(dels: Delegators, e: Epoch): map<Address, int> {
    map a | a in dels :: Earning(dels[a], e)
  }

  /** A withdrawal earns until its epoch arrives. */
  ghost function RequestEarningOf(wds: Withdrawals, e: Epoch): map<(Address, nat), int> {
    map k | k in wds :: if wds[k].epoch > e then wds[k].amount else 0
  }

  /** Everything that earns during epoch `e`. */
  ghost function EarningStake(p: Pool, e: Epoch): int {
    Sum(EarningOf(p.dels, e)) + Sum(RequestEarningOf(p.wds, e))
  }

  /** The accrual, scaled by `UNIT_BIAS`, that `d` has not been credited with. */
  ghost function Owed(d: Delegator, epoch: Epoch, acc: nat, snaps: Snapshots): int {
    Times(d.stake, acc - d.acc)
    + (if IsEpochActive(epoch, d.deltaEpoch)
       then Times(d.deltaStake, acc - Value(snaps, d.deltaEpoch)) else 0)
    + (if IsEpochActive(epoch, d.nextDeltaEpoch)
       then Times(d.nextDeltaStake, acc - Value(snaps, d.nextDeltaEpoch)) else 0)
  }

  ghost function OwedOf(dels: Delegators, epoch: Epoch, acc: nat, snaps: Snapshots): map<Address, int> {
    map a | a in dels :: Owed(dels[a], epoch, acc, snaps)
  }

  ghost function RequestOwed(w: Withdrawal, epoch: Epoch, acc: nat, snaps: Snapshots): int {
    Times(w.amount, (if w.epoch <= epoch then Value(snaps, w.epoch) else acc) - w.acc)
  }

  ghost function RequestOwedOf(wds: Withdrawals, epoch: Epoch, acc: nat, snaps: Snapshots)
    : map<(Address, nat), int>
  {
    map k | k in wds :: RequestOwed(wds[k], epoch, acc, snaps)
  }

  /** All scaled accrual a pool still owes. */
  ghost function PoolOwed(p: Pool, epoch: Epoch): int {
    Sum(OwedOf(p.dels, epoch, p.val.acc, p.snaps)) + Sum(RequestOwedOf(p.wds, epoch, p.val.acc, p.snaps))
  }

  /** All value the contract holds on behalf of one validator. */
  ghost function Liabilities(p: Pool): int {
    p.val.stake + p.val.unclaimed + Sum(RewardsOf(p.dels)) + Sum(Amounts(p.wds))
  }

  // ----- invariants -------------------------------------------------------

  /** Window discipline of one delegator. */
  predicate WindowsOk(d: Delegator, epoch: Epoch, inBoundary: bool) {
    && (d.deltaEpoch == 0 <==> d.deltaStake == 0)
    && (d.nextDeltaEpoch == 0 <==> d.nextDeltaStake == 0)
    && d.deltaEpoch <= epoch + 1
    && d.nextDeltaEpoch <= ActivationEpoch(epoch, inBoundary)
    && (d.deltaEpoch != 0 && d.nextDeltaEpoch != 0 ==> d.deltaEpoch + 1 == d.nextDeltaEpoch)
  }

  predicate RequestOk(w: Withdrawal, epoch: Epoch, inBoundary: bool) {
    w.amount > 0 && 0 < w.epoch <= ActivationEpoch(epoch, inBoundary)
  }

  /** Who refers to the snapshot of epoch `e`. */
  ghost function References(p: Pool, e: Epoch): int {
    Sum(WindowRefsOf(p.dels, e)) + Sum(RequestRefsOf(p.wds, e))
  }

  ghost predicate RefcountsExact(p: Pool) {
    forall e: Epoch :: e > 0 ==> Ref(p.snaps, e) == References(p, e)
  }

  predicate AllWindowsOk(p: Pool, epoch: Epoch, inBoundary: bool) {
    forall a :: a in p.dels ==> WindowsOk(p.dels[a], epoch, inBoundary)
  }

  predicate AllRequestsOk(p: Pool, epoch: Epoch, inBoundary: bool) {
    forall k :: k in p.wds ==> RequestOk(p.wds[k], epoch, inBoundary)
  }

  /** The validator stake is what its delegators have with it. */
  ghost predicate StakeExact(p: Pool) {
    p.val.stake == Sum(Totals(p.dels))
  }

  /** The part of the pool invariant that every run keeps. */
  ghost predicate Books(p: Pool, epoch: Epoch, inBoundary: bool) {
    && AllWindowsOk(p, epoch, inBoundary)
    && AllRequestsOk(p, epoch, inBoundary)
    && RefcountsExact(p)
    && StakeExact(p)
  }

  /** Snapshots are bounded by the accumulator and frozen ones are in epoch order. */
  predicate SnapshotOk(p: Pool, e: Epoch, epoch: Epoch, active: nat) {
    && Value(p.snaps, e) <= p.val.acc
    && (e > epoch && active == 0 ==> Value(p.snaps, e) == p.val.acc)
  }

  ghost predicate SnapshotsBounded(p: Pool, epoch: Epoch, active: nat) {
    forall e: Epoch :: e > 0 && Ref(p.snaps, e) > 0 ==> SnapshotOk(p, e, epoch, active)
  }

  ghost predicate SnapshotsOrdered(p: Pool, epoch: Epoch) {
    forall e: Epoch, f: Epoch :: 0 < e < f <= epoch && Ref(p.snaps, e) > 0 && Ref(p.snaps, f) > 0 ==>
      Value(p.snaps, e) <= Value(p.snaps, f)
  }

  /** The reward cursor of a delegator never passes what it will be compared with. */
  predicate CursorOk(p: Pool, d: Delegator, epoch: Epoch) {
    && d.acc <= p.val.acc
    && (IsEpochActive(epoch, d.deltaEpoch) ==> d.acc <= Value(p.snaps, d.deltaEpoch))
    && (IsEpochActive(epoch, d.nextDeltaEpoch) ==> d.acc <= Value(p.snaps, d.nextDeltaEpoch))
  }

  predicate RequestCursorOk(p: Pool, w: Withdrawal, epoch: Epoch) {
    && w.acc <= p.val.acc
    && (w.epoch <= epoch ==> w.acc <= Value(p.snaps, w.epoch))
  }

  predicate AllCursorsOk(p: Pool, epoch: Epoch) {
    forall a :: a in p.dels ==> CursorOk(p, p.dels[a], epoch)
  }

  predicate AllRequestCursorsOk(p: Pool, epoch: Epoch) {
    forall k :: k in p.wds ==> RequestCursorOk(p, p.wds[k], epoch)
  }

  /** The divisors of the rewards: `active` now, `next` after the boundary. */
  ghost predicate DivisorsExact(p: Pool, epoch: Epoch, inBoundary: bool, active: nat, next: nat) {
    && (active > 0 ==> EarningStake(p, epoch) == active)
    && (inBoundary && next > 0 ==> EarningStake(p, epoch + 1) == next)
  }

  /** The unclaimed rewards cover everything the pool owes. */
  ghost predicate Solvent(p: Pool, epoch: Epoch) {
    UNIT_BIAS * p.val.unclaimed >= PoolOwed(p, epoch)
  }

  /** The part of the pool invariant that lifecycle runs keep. */
  ghost predicate Accrual(p: Pool, epoch: Epoch, inBoundary: bool, active: nat, next: nat) {
    && SnapshotsBounded(p, epoch, active)
    && SnapshotsOrdered(p, epoch)
    && AllCursorsOk(p, epoch)
    && AllRequestCursorsOk(p, epoch)
    && DivisorsExact(p, epoch, inBoundary, active, next)
    && Solvent(p, epoch)
  }

  /** Every product and sum the handlers compute on this pool fits in a word. */
  ghost predicate Bounded(p: Pool) {
    UNIT_BIAS * Liabilities(p) <= U256_MAX
  }

  // ----- references -------------------------------------------------------

  lemma WindowReferenced(p: Pool, a: Address, e: Epoch)
    requires RefcountsExact(p) && a in p.dels && WindowRefs(p.dels[a], e) > 0
    ensures Ref(p.snaps, e) > 0
  {
    SumMember(WindowRefsOf(p.dels, e), a);
    SumNonNegative(RequestRefsOf(p.wds, e));
  }

  lemma RequestReferenced(p: Pool, k: (Address, nat), e: Epoch)
    requires RefcountsExact(p) && k in p.wds && p.wds[k].epoch == e && e > 0
    ensures Ref(p.snaps, e) > 0
  {
    SumMember(RequestRefsOf(p.wds, e), k);
    SumNonNegative(WindowRefsOf(p.dels, e));
  }

  lemma DecrementRefAt(snaps: Snapshots, e: Epoch, f: Epoch)
    ensures Ref(snaps, e) > 0 ==>
              Ref(DecrementRef(snaps, e), f) == Ref(snaps, f) - (if e == f then 1 else 0)
    ensures Ref(DecrementRef(snaps, e), f) > 0 ==>
              Value(DecrementRef(snaps, e), f) == Value(snaps, f)
  {}

  // ----- small steps keep the books ---------------------------------------

  /** Replacing one delegator record moves each sum by the difference. */
  lemma TotalSum(p: Pool, a: Address, d: Delegator)
    requires a in p.dels
    ensures Sum(Totals(p.dels[a := d])) == Sum(Totals(p.dels)) - p.dels[a].Total() + d.Total()
  {
    assert Totals(p.dels[a := d]) == Totals(p.dels)[a := d.Total()];
    SumUpdate(Totals(p.dels), a, d.Total());
  }

  lemma RewardsSum(p: Pool, a: Address, d: Delegator)
    requires a in p.dels
    ensures Sum(RewardsOf(p.dels[a := d])) == Sum(RewardsOf(p.dels)) - p.dels[a].rewards + d.rewards
  {
    assert RewardsOf(p.dels[a := d]) == RewardsOf(p.dels)[a := d.rewards];
    SumUpdate(RewardsOf(p.dels), a, d.rewards);
  }

  lemma WindowRefsSum(p: Pool, a: Address, d: Delegator, e: Epoch)
    requires a in p.dels
    ensures Sum(WindowRefsOf(p.dels[a := d], e))
            == Sum(WindowRefsOf(p.dels, e)) - WindowRefs(p.dels[a], e) + WindowRefs(d, e)
  {
    assert WindowRefsOf(p.dels[a := d], e) == WindowRefsOf(p.dels, e)[a := WindowRefs(d, e)];
    SumUpdate(WindowRefsOf(p.dels, e), a, WindowRefs(d, e));
  }

  lemma EarningSum(p: Pool, a: Address, d: Delegator, e: Epoch)
    requires a in p.dels
    ensures Sum(EarningOf(p.dels[a := d], e))
            == Sum(EarningOf(p.dels, e)) - Earning(p.dels[a], e) + Earning(d, e)
  {
    assert EarningOf(p.dels[a := d], e) == EarningOf(p.dels, e)[a := Earning(d, e)];
    SumUpdate(EarningOf(p.dels, e), a, Earning(d, e));
  }

  lemma OwedSum(p: Pool, a: Address, d: Delegator, epoch: Epoch, acc: nat, snaps: Snapshots)
    requires a in p.dels
    ensures Sum(OwedOf(p.dels[a := d], epoch, acc, snaps))
            == Sum(OwedOf(p.dels, epoch, acc, snaps))
               - Owed(p.dels[a], epoch, acc, snaps) + Owed(d, epoch, acc, snaps)
  {
    var owed := OwedOf(p.dels, epoch, acc, snaps);
    assert OwedOf(p.dels[a := d], epoch, acc, snaps) == owed[a := Owed(d, epoch, acc, snaps)];
    SumUpdate(owed, a, Owed(d, epoch, acc, snaps));
  }

  /** One delegator record becomes `d`: the books stay exact if the snapshots and the stake follow. */
  lemma BooksAfter(p: Pool, p': Pool, a: Address, d: Delegator, epoch: Epoch, inBoundary: bool)
    requires a in p.dels
    requires Books(p, epoch, inBoundary)
    requires p'.dels == p.dels[a := d] && p'.wds == p.wds
    requires WindowsOk(d, epoch, inBoundary)
    requires forall e: Epoch :: e > 0 ==>
               Ref(p'.snaps, e) == Ref(p.snaps, e) - WindowRefs(p.dels[a], e) + WindowRefs(d, e)
    requires p'.val.stake == p.val.stake - p.dels[a].Total() + d.Total()
    ensures Books(p', epoch, inBoundary)
  {
    TotalSum(p, a, d);
    forall e: Epoch | e > 0
      ensures Ref(p'.snaps, e) == References(p', e)
    {
      WindowRefsSum(p, a, d, e);
    }
  }

  lemma LiabilitiesAfter(p: Pool, p': Pool, a: Address, d: Delegator)
    requires a in p.dels
    requires p'.dels == p.dels[a := d] && p'.wds == p.wds
    ensures Liabilities(p') - Liabilities(p)
            == p'.val.stake - p.val.stake + p'.val.unclaimed - p.val.unclaimed + d.rewards - p.dels[a].rewards
  {
    RewardsSum(p, a, d);
  }

  lemma PromoteKeepsBooks(p: Pool, epoch: Epoch, inBoundary: bool, a: Address)
    requires a in p.dels && Books(p, epoch, inBoundary)
    ensures Books(Promote(p, epoch, a), epoch, inBoundary)
    ensures Liabilities(Promote(p, epoch, a)) == Liabilities(p)
  {
    var d := PromoteWindow(p.dels[a], epoch);
    BooksAfter(p, Promote(p, epoch, a), a, d, epoch, inBoundary);
    LiabilitiesAfter(p, Promote(p, epoch, a), a, d);
  }

  predicate Blank(d: Delegator) {
    && d.stake == 0 && d.rewards == 0
    && d.deltaStake == 0 && d.nextDeltaStake == 0
    && d.deltaEpoch == 0 && d.nextDeltaEpoch == 0
  }

  /** A blank record adds nothing to any sum. */
  lemma BlankAddsNothing(dels: Delegators, a: Address, d: Delegator)
    requires a !in dels && Blank(d)
    ensures Sum(Totals(dels[a := d])) == Sum(Totals(dels))
    ensures Sum(RewardsOf(dels[a := d])) == Sum(RewardsOf(dels))
  {
    assert Totals(dels[a := d]) == Totals(dels)[a := 0];
    SumUpdate(Totals(dels), a, 0);
    assert RewardsOf(dels[a := d]) == RewardsOf(dels)[a := 0];
    SumUpdate(RewardsOf(dels), a, 0);
  }

  lemma BlankRefersToNothing(dels: Delegators, a: Address, d: Delegator, e: Epoch)
    requires a !in dels && Blank(d)
    ensures Sum(WindowRefsOf(dels[a := d], e)) == Sum(WindowRefsOf(dels, e))
  {
    assert WindowRefsOf(dels[a := d], e) == WindowRefsOf(dels, e)[a := 0];
    SumUpdate(WindowRefsOf(dels, e), a, 0);
  }

  lemma InsertBlankKeepsBooks(p: Pool, epoch: Epoch, inBoundary: bool, a: Address, d: Delegator, p': Pool)
    requires a !in p.dels && Blank(d) && Books(p, epoch, inBoundary)
    requires p' == p.(dels := p.dels[a := d])
    ensures Books(p', epoch, inBoundary)
    ensures Liabilities(p') == Liabilities(p)
  {
    BlankAddsNothing(p.dels, a, d);
    forall e: Epoch | e > 0
      ensures Ref(p'.snaps, e) == References(p', e)
    {
      BlankRefersToNothing(p.dels, a, d, e);
    }
  }

  lemma TouchKeepsBooks(p: Pool, epoch: Epoch, inBoundary: bool, a: Address)
    requires Books(p, epoch, inBoundary)
    ensures Books(Touch(p, a), epoch, inBoundary)
    ensures Liabilities(Touch(p, a)) == Liabilities(p)
  {
    if a !in p.dels {
      InsertBlankKeepsBooks(p, epoch, inBoundary, a, NO_DELEGATOR, Touch(p, a));
    }
  }

  /** Folding a window moves one reference out of the snapshot of its epoch. */
  lemma CompoundMovesReference(p: Pool, a: Address, d: Delegator, e: Epoch)
    requires a in p.dels && RefcountsExact(p)
    requires p.dels[a].deltaEpoch > 0
    requires d.deltaEpoch == p.dels[a].nextDeltaEpoch && d.nextDeltaEpoch == 0
    ensures Ref(DecrementRef(p.snaps, p.dels[a].deltaEpoch), e)
            == Ref(p.snaps, e) - (if e > 0 then WindowRefs(p.dels[a], e) - WindowRefs(d, e) else 0)
  {
    WindowReferenced(p, a, p.dels[a].deltaEpoch);
    DecrementRefAt(p.snaps, p.dels[a].deltaEpoch, e);
  }

  lemma CompoundKeepsBooks(p: Pool, epoch: Epoch, inBoundary: bool, a: Address, p': Pool)
    requires a in p.dels && Books(p, epoch, inBoundary)
    requires IsEpochActive(epoch, p.dels[a].deltaEpoch)
    requires CompoundStep(p, a) == Ok(p')
    ensures Books(p', epoch, inBoundary)
    ensures Liabilities(p') == Liabilities(p)
  {
    var d := p'.dels[a];
    forall e: Epoch {
      CompoundMovesReference(p, a, d, e);
    }
    BooksAfter(p, p', a, d, epoch, inBoundary);
    LiabilitiesAfter(p, p', a, d);
  }

  lemma AccrueKeepsBooks(p: Pool, epoch: Epoch, inBoundary: bool, a: Address, p': Pool)
    requires a in p.dels && Books(p, epoch, inBoundary)
    requires AccrueStep(p, a) == Ok(p')
    ensures Books(p', epoch, inBoundary)
    ensures Liabilities(p') == Liabilities(p)
  {
    if p.dels[a].stake != 0 {
      BooksAfter(p, p', a, p'.dels[a], epoch, inBoundary);
      LiabilitiesAfter(p, p', a, p'.dels[a]);
    }
  }

  /** The settled form of a delegator record. */
  predicate Settled(d: Delegator, epoch: Epoch) {
    && (d.deltaEpoch == 0 || d.deltaEpoch == epoch + 1)
    && (d.nextDeltaEpoch == 0 || d.nextDeltaEpoch == epoch + 2)
  }

  /** What every step of a pull of `a` leaves alone. */
  predicate OnlySettles(p: Pool, p': Pool, a: Address) {
    && p'.val == p.val.(unclaimed := p'.val.unclaimed)
    && p'.val.unclaimed <= p.val.unclaimed
    && p'.wds == p.wds
    && p'.dels.Keys == p.dels.Keys + {a}
    && (forall b :: b in p.dels && b != a ==> p'.dels[b] == p.dels[b])
    && TotalOf(p', a) == TotalOf(p, a)
  }

  lemma CompoundOnlySettles(p: Pool, a: Address, p': Pool)
    requires a in p.dels && CompoundStep(p, a) == Ok(p')
    ensures OnlySettles(p, p', a)
    ensures p'.dels[a].deltaEpoch == p.dels[a].nextDeltaEpoch && p'.dels[a].nextDeltaEpoch == 0
  {}

  lemma AccrueOnlySettles(p: Pool, a: Address, p': Pool)
    requires a in p.dels && AccrueStep(p, a) == Ok(p')
    ensures OnlySettles(p, p', a)
    ensures p'.dels[a].deltaEpoch == p.dels[a].deltaEpoch
    ensures p'.dels[a].nextDeltaEpoch == p.dels[a].nextDeltaEpoch
  {}

  /** The chain of pools a pull goes through: promoted, folded as often as due, accrued. */
  predicate PullChain(p: Pool, epoch: Epoch, a: Address, p0: Pool, p1: Pool, p2: Pool, p': Pool) {
    && p0 == Promote(Touch(p, a), epoch, a)
    && a in p1.dels && a in p2.dels
    && Ok(p1) == (if IsEpochActive(epoch, p0.dels[a].nextDeltaEpoch) then CompoundStep(p0, a) else Ok(p0))
    && Ok(p2) == (if IsEpochActive(epoch, p0.dels[a].deltaEpoch) then CompoundStep(p1, a) else Ok(p1))
    && Ok(p') == AccrueStep(p2, a)
  }

  lemma PullSteps(p: Pool, epoch: Epoch, a: Address, p': Pool) returns (p0: Pool, p1: Pool, p2: Pool)
    requires Pull(p, epoch, a) == Ok(p')
    ensures PullChain(p, epoch, a, p0, p1, p2, p')
  {
    p0 := Promote(Touch(p, a), epoch, a);
    p1 := if IsEpochActive(epoch, p0.dels[a].nextDeltaEpoch) then CompoundStep(p0, a).value else p0;
    p2 := if IsEpochActive(epoch, p0.dels[a].deltaEpoch) then CompoundStep(p1, a).value else p1;
  }

  lemma BlankOnlySettles(p: Pool, a: Address, d: Delegator, p': Pool)
    requires a !in p.dels && Blank(d) && p' == p.(dels := p.dels[a := d])
    ensures OnlySettles(p, p', a)
  {}

  lemma TouchOnlySettles(p: Pool, a: Address)
    ensures OnlySettles(p, Touch(p, a), a)
    ensures Touch(p, a).snaps == p.snaps
  {
    if a !in p.dels {
      BlankOnlySettles(p, a, NO_DELEGATOR, Touch(p, a));
    }
  }

  lemma PromoteOnlySettles(p: Pool, epoch: Epoch, inBoundary: bool, a: Address)
    requires a in p.dels && WindowsOk(p.dels[a], epoch, inBoundary)
    ensures OnlySettles(p, Promote(p, epoch, a), a)
  {}

  /** Both windows are due only if the first one is, and it comes due first. */
  lemma PromotedWindows(d: Delegator, epoch: Epoch, inBoundary: bool)
    requires WindowsOk(d, epoch, inBoundary)
    ensures var d' := PromoteWindow(d, epoch);
            && (IsEpochActive(epoch, d'.nextDeltaEpoch) ==> IsEpochActive(epoch, d'.deltaEpoch))
            && (!IsEpochActive(epoch, d'.deltaEpoch) ==> Settled(d', epoch))
            && (!IsEpochActive(epoch, d'.nextDeltaEpoch) && IsEpochActive(epoch, d'.deltaEpoch) ==>
                  d'.nextDeltaEpoch == 0 || d'.nextDeltaEpoch == epoch + 1)
  {}

  /**
   * Settling keeps the books, moves value only inside the pool, preserves the
   * total stake of the delegator, and leaves nothing but windows that are
   * still to open: at the next epoch, or the one after.
   */
  lemma PullKeepsBooks(p: Pool, epoch: Epoch, inBoundary: bool, a: Address, p': Pool)
    requires Books(p, epoch, inBoundary)
    requires Pull(p, epoch, a) == Ok(p')
    ensures Books(p', epoch, inBoundary)
    ensures Liabilities(p') == Liabilities(p)
    ensures OnlySettles(p, p', a)
    ensures Settled(p'.dels[a], epoch)
  {
    var p0, p1, p2 := PullSteps(p, epoch, a, p');
    var t := Touch(p, a);
    TouchKeepsBooks(p, epoch, inBoundary, a);
    TouchOnlySettles(p, a);
    PromoteKeepsBooks(t, epoch, inBoundary, a);
    PromoteOnlySettles(t, epoch, inBoundary, a);
    PromotedWindows(t.dels[a], epoch, inBoundary);
    if IsEpochActive(epoch, p0.dels[a].nextDeltaEpoch) {
      CompoundKeepsBooks(p0, epoch, inBoundary, a, p1);
      CompoundOnlySettles(p0, a, p1);
    }
    if IsEpochActive(epoch, p0.dels[a].deltaEpoch) {
      CompoundKeepsBooks(p1, epoch, inBoundary, a, p2);
      CompoundOnlySettles(p1, a, p2);
    }
    AccrueKeepsBooks(p2, epoch, inBoundary, a, p');
    AccrueOnlySettles(p2, a, p');
  }

  /** What joining a window changes, apart from the flags. */
  predicate Joined(p: Pool, p': Pool, a: Address, amount: nat, epoch: Epoch, inBoundary: bool) {
    var e := ActivationEpoch(epoch, inBoundary);
    && a in p.dels && a in p'.dels
    && Ok(p'.dels[a]) == JoinWindow(p.dels[a], epoch, inBoundary, amount)
    && p'.dels == p.dels[a := p'.dels[a]]
    && p'.wds == p.wds
    && p'.val.stake == p.val.stake + amount
    && p'.val.unclaimed == p.val.unclaimed
    && p'.val.acc == p.val.acc
    && p'.snaps == if NeedsSnapshot(p.dels[a], inBoundary)
                   then p.snaps[e := Snapshot(p.val.acc, Ref(p.snaps, e) + 1)] else p.snaps
  }

  lemma AddToWindowJoins(p: Pool, epoch: Epoch, inBoundary: bool, a: Address, amount: nat, p': Pool)
    requires a in p.dels && AddToWindow(p, epoch, inBoundary, a, amount) == Ok(p')
    ensures Joined(p, p', a, amount, epoch, inBoundary)
  {}

  lemma JoinedKeepsBooks(p: Pool, epoch: Epoch, inBoundary: bool, a: Address, amount: nat, p': Pool)
    requires amount > 0 && Books(p, epoch, inBoundary)
    requires Joined(p, p', a, amount, epoch, inBoundary) && Settled(p.dels[a], epoch)
    ensures Books(p', epoch, inBoundary)
    ensures Liabilities(p') == Liabilities(p) + amount
  {
    assert WindowsOk(p.dels[a], epoch, inBoundary);
    BooksAfter(p, p', a, p'.dels[a], epoch, inBoundary);
    LiabilitiesAfter(p, p', a, p'.dels[a]);
  }

  // ----- withdrawal requests ----------------------------------------------

  lemma AmountAdded(wds: Withdrawals, k: (Address, nat), w: Withdrawal)
    requires k !in wds
    ensures Sum(Amounts(wds[k := w])) == Sum(Amounts(wds)) + w.amount
  {
    assert Amounts(wds[k := w]) == Amounts(wds)[k := w.amount];
    SumUpdate(Amounts(wds), k, w.amount);
  }

  lemma RequestRefAdded(wds: Withdrawals, k: (Address, nat), w: Withdrawal, e: Epoch)
    requires k !in wds
    ensures Sum(RequestRefsOf(wds[k := w], e)) == Sum(RequestRefsOf(wds, e)) + (if w.epoch == e then 1 else 0)
  {
    var refs := if w.epoch == e then 1 else 0;
    assert RequestRefsOf(wds[k := w], e) == RequestRefsOf(wds, e)[k := refs];
    SumUpdate(RequestRefsOf(wds, e), k, refs);
  }

  lemma RequestEarningAdded(wds: Withdrawals, k: (Address, nat), w: Withdrawal, e: Epoch)
    requires k !in wds
    ensures Sum(RequestEarningOf(wds[k := w], e))
            == Sum(RequestEarningOf(wds, e)) + (if w.epoch > e then w.amount else 0)
  {
    var earning := if w.epoch > e then w.amount else 0;
    assert RequestEarningOf(wds[k := w], e) == RequestEarningOf(wds, e)[k := earning];
    SumUpdate(RequestEarningOf(wds, e), k, earning);
  }

  /** What opening a withdrawal changes, apart from the flags. */
  predicate Opened(p: Pool, p': Pool, k: (Address, nat), amount: nat, e: Epoch) {
    && k.0 in p.dels && k.0 in p'.dels
    && p'.dels[k.0] == p.dels[k.0].(stake := p'.dels[k.0].stake, acc := p'.dels[k.0].acc)
    && p'.dels[k.0].stake == p.dels[k.0].stake - amount
    && p'.dels == p.dels[k.0 := p'.dels[k.0]]
    && p'.wds == p.wds[k := Withdrawal(amount, p.dels[k.0].acc, e)]
    && p'.val.stake == p.val.stake - amount
    && p'.val.unclaimed == p.val.unclaimed
    && p'.val.acc == p.val.acc
    && p'.snaps == p.snaps[e := Snapshot(p.val.acc, Ref(p.snaps, e) + 1)]
  }

  lemma OpenWithdrawalOpens(
    p: Pool, epoch: Epoch, inBoundary: bool, a: Address, wid: nat, amount: nat, p': Pool)
    requires a in p.dels && amount <= p.dels[a].stake
    requires OpenWithdrawal(p, epoch, inBoundary, a, wid, amount) == Ok(p')
    ensures Opened(p, p', (a, wid), amount, ActivationEpoch(epoch, inBoundary))
    ensures p'.dels[a].acc == (if p'.dels[a].stake == 0 then 0 else p.dels[a].acc)
  {}

  lemma OpenedRefs(p: Pool, p': Pool, k: (Address, nat), amount: nat, opens: Epoch, e: Epoch)
    requires RefcountsExact(p) && k !in p.wds && e > 0
    requires Opened(p, p', k, amount, opens)
    ensures Ref(p'.snaps, e) == References(p', e)
  {
    var w := Withdrawal(amount, p.dels[k.0].acc, opens);
    WindowRefsSum(p, k.0, p'.dels[k.0], e);
    RequestRefAdded(p.wds, k, w, e);
    assert WindowRefs(p'.dels[k.0], e) == WindowRefs(p.dels[k.0], e);
    assert Ref(p'.snaps, e) == Ref(p.snaps, e) + (if opens == e then 1 else 0);
  }

  lemma OpenedSums(p: Pool, p': Pool, k: (Address, nat), amount: nat, opens: Epoch)
    requires k !in p.wds && Opened(p, p', k, amount, opens)
    ensures Sum(Totals(p'.dels)) == Sum(Totals(p.dels)) - amount
    ensures Liabilities(p') == Liabilities(p)
  {
    TotalSum(p, k.0, p'.dels[k.0]);
    RewardsSum(p, k.0, p'.dels[k.0]);
    AmountAdded(p.wds, k, Withdrawal(amount, p.dels[k.0].acc, opens));
  }

  lemma OpenedRecords(p: Pool, epoch: Epoch, inBoundary: bool, k: (Address, nat), amount: nat, p': Pool)
    requires amount > 0 && AllWindowsOk(p, epoch, inBoundary) && AllRequestsOk(p, epoch, inBoundary)
    requires Opened(p, p', k, amount, ActivationEpoch(epoch, inBoundary))
    ensures AllWindowsOk(p', epoch, inBoundary) && AllRequestsOk(p', epoch, inBoundary)
  {
    assert WindowsOk(p.dels[k.0], epoch, inBoundary);
  }

  lemma OpenedRefcounts(p: Pool, p': Pool, k: (Address, nat), amount: nat, opens: Epoch)
    requires RefcountsExact(p) && k !in p.wds && Opened(p, p', k, amount, opens)
    ensures RefcountsExact(p')
  {
    forall e: Epoch | e > 0
      ensures Ref(p'.snaps, e) == References(p', e)
    {
      OpenedRefs(p, p', k, amount, opens, e);
    }
  }

  lemma OpenedKeepsBooks(p: Pool, epoch: Epoch, inBoundary: bool, k: (Address, nat), amount: nat, p': Pool)
    requires amount > 0 && Books(p, epoch, inBoundary) && k !in p.wds
    requires Opened(p, p', k, amount, ActivationEpoch(epoch, inBoundary))
    ensures Books(p', epoch, inBoundary)
    ensures Liabilities(p') == Liabilities(p)
  {
    var opens := ActivationEpoch(epoch, inBoundary);
    OpenedRecords(p, epoch, inBoundary, k, amount, p');
    OpenedSums(p, p', k, amount, opens);
    OpenedRefcounts(p, p', k, amount, opens);
  }

  lemma CloseWithdrawalKeepsBooks(
    p: Pool, epoch: Epoch, inBoundary: bool, k: (Address, nat), p': Pool, rewards: nat)
    requires k in p.wds && Books(p, epoch, inBoundary)
    requires CloseWithdrawal(p, k) == Ok((p', rewards))
    ensures Books(p', epoch, inBoundary)
    ensures Liabilities(p') == Liabilities(p) - p.wds[k].amount - rewards
  {
    var w := p.wds[k];
    assert p'.wds[k := w] == p.wds;
    AmountAdded(p'.wds, k, w);
    RequestReferenced(p, k, w.epoch);
    forall e: Epoch | e > 0
      ensures Ref(p'.snaps, e) == References(p', e)
    {
      RequestRefAdded(p'.wds, k, w, e);
      DecrementRefAt(p.snaps, w.epoch, e);
    }
  }

  // ----- rewards and epochs -----------------------------------------------

  lemma ClearRewardsKeepsBooks(p: Pool, epoch: Epoch, inBoundary: bool, a: Address)
    requires a in p.dels && Books(p, epoch, inBoundary)
    ensures Books(ClearRewards(p, a), epoch, inBoundary)
    ensures Liabilities(ClearRewards(p, a)) == Liabilities(p) - p.dels[a].rewards
  {
    var p' := ClearRewards(p, a);
    BooksAfter(p, p', a, p'.dels[a], epoch, inBoundary);
    LiabilitiesAfter(p, p', a, p'.dels[a]);
  }

  lemma PayCommissionKeepsBooks(p: Pool, epoch: Epoch, inBoundary: bool, commission: nat, p': Pool)
    requires p.val.auth in p.dels && Books(p, epoch, inBoundary)
    requires PayCommission(p, commission) == Ok(p')
    ensures Books(p', epoch, inBoundary)
    ensures Liabilities(p') == Liabilities(p) + commission
  {
    BooksAfter(p, p', p.val.auth, p'.dels[p.val.auth], epoch, inBoundary);
    LiabilitiesAfter(p, p', p.val.auth, p'.dels[p.val.auth]);
  }

  lemma DistributeKeepsBooks(p: Pool, epoch: Epoch, inBoundary: bool, amount: nat, active: nat, p': Pool)
    requires Books(p, epoch, inBoundary) && Distribute(p, amount, active) == Ok(p')
    ensures Books(p', epoch, inBoundary)
    ensures Liabilities(p') == Liabilities(p) + amount
  {}

  /** A block reward is a commission followed, unless nothing is left, by a distribution. */
  predicate BlockRewardChain(p: Pool, commission: nat, shared: nat, active: nat, p1: Pool, p': Pool) {
    var t := Touch(p, p.val.auth);
    && t.val == p.val && t.val.auth in t.dels
    && PayCommission(t, commission) == Ok(p1)
    && (if shared == 0 then p' == p1 else Distribute(p1, shared, active) == Ok(p'))
  }

  lemma BlockRewardSteps(p: Pool, reward: nat, rate: nat, active: nat, p': Pool)
    returns (commission: nat, shared: nat, p1: Pool)
    requires BlockReward(p, reward, rate, active) == Ok(p')
    ensures commission + shared == reward && CheckedMulDiv(reward, rate, MON) == Ok(commission)
    ensures BlockRewardChain(p, commission, shared, active, p1, p')
  {
    commission := CheckedMulDiv(reward, rate, MON).value;
    shared := reward - commission;
    p1 := PayCommission(Touch(p, p.val.auth), commission).value;
  }

  /** The whole block reward lands in the pool. */
  lemma BlockRewardKeepsBooks(
    p: Pool, epoch: Epoch, inBoundary: bool, commission: nat, shared: nat, active: nat, p1: Pool, p': Pool)
    requires Books(p, epoch, inBoundary) && BlockRewardChain(p, commission, shared, active, p1, p')
    ensures Books(p', epoch, inBoundary)
    ensures Liabilities(p') == Liabilities(p) + commission + shared
  {
    TouchKeepsBooks(p, epoch, inBoundary, p.val.auth);
    PayCommissionKeepsBooks(Touch(p, p.val.auth), epoch, inBoundary, commission, p1);
    if shared != 0 {
      DistributeKeepsBooks(p1, epoch, inBoundary, shared, active, p');
    }
  }

  lemma RefreshKeepsRefs(snaps: Snapshots, e: Epoch, acc: nat, f: Epoch)
    ensures Ref(Refresh(snaps, e, acc), f) == Ref(snaps, f)
    ensures Ref(snaps, f) > 0 ==>
              Value(Refresh(snaps, e, acc), f) == if e == f then acc else Value(snaps, f)
  {}

  lemma FreezeKeepsBooks(p: Pool, epoch: Epoch, inBoundary: bool, next: Epoch)
    requires Books(p, epoch, inBoundary)
    ensures Books(Freeze(p, next), epoch, inBoundary)
    ensures Liabilities(Freeze(p, next)) == Liabilities(p)
  {
    var p' := Freeze(p, next);
    forall e: Epoch | e > 0
      ensures Ref(p'.snaps, e) == References(p', e)
    {
      RefreshKeepsRefs(p.snaps, next, p.val.acc, e);
      RefreshKeepsRefs(Refresh(p.snaps, next, p.val.acc), next + 1, p.val.acc, e);
    }
  }

  /** Time may jump to any later epoch: the books do not depend on the lifecycle. */
  lemma LaterEpochKeepsBooks(p: Pool, epoch: Epoch, inBoundary: bool, later: Epoch)
    requires Books(p, epoch, inBoundary) && epoch < later
    ensures Books(p, later, false)
  {}

  lemma BoundaryKeepsBooks(p: Pool, epoch: Epoch)
    requires Books(p, epoch, false)
    ensures Books(p, epoch, true)
  {}
}
