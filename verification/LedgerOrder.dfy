/**
 * What every pool keeps on every run, in the lifecycle or out of it: its
 * snapshots follow the order of their epochs and none is ahead of the
 * accumulator, no reward cursor is either, and only a delegator that may be
 * listed ever has stake or rewards.
 */
module LedgerOrder {
  import opened Checked
  import opened Ledger
  import opened LedgerInvariant
  import opened LedgerAccrual
  import opened TwinLists

  ghost predicate SnapshotsAscend(p: Pool) {
    forall e: Epoch, f: Epoch :: 0 < e < f && Ref(p.snaps, e) > 0 && Ref(p.snaps, f) > 0 ==>
      Value(p.snaps, e) <= Value(p.snaps, f)
  }

  ghost predicate SnapshotsReached(p: Pool) {
    forall e: Epoch :: e > 0 && Ref(p.snaps, e) > 0 ==> Value(p.snaps, e) <= p.val.acc
  }

  predicate CursorsReached(p: Pool) {
    forall a :: a in p.dels ==> p.dels[a].acc <= p.val.acc
  }

  ghost predicate Ordered(p: Pool) {
    SnapshotsAscend(p) && SnapshotsReached(p) && CursorsReached(p)
  }

  /** Whoever has anything with `v` may be in its list; so may the auth address. */
  predicate Entitled(p: Pool, v: ValId) {
    && (forall a :: a in p.dels && HasAnything(p.dels[a]) ==> Listable(v, a))
    && (Exists(p.val) ==> Listable(v, p.val.auth))
  }

  predicate HasAnything(d: Delegator) {
    d.rewards > 0 || d.Total() > 0
  }

  // ----- snapshots ------------------------------------------------------------

  /** Every snapshot that is referenced at a later epoch than `e` has value `x`. */
  ghost predicate LevelAbove(p: Pool, e: Epoch, x: nat) {
    forall f: Epoch :: f > e && Ref(p.snaps, f) > 0 ==> Value(p.snaps, f) == x
  }

  /** Every snapshot of `p'` is one of `p`, or one of the latest, taken at the present accumulator. */
  ghost predicate TakenOnTop(p: Pool, p': Pool) {
    forall e: Epoch :: e > 0 && Ref(p'.snaps, e) > 0 ==>
      || (Ref(p.snaps, e) > 0 && Value(p'.snaps, e) == Value(p.snaps, e))
      || (Value(p'.snaps, e) == p.val.acc && LevelAbove(p', e, p.val.acc))
  }

  lemma OnTopAscends(p: Pool, p': Pool)
    requires SnapshotsAscend(p) && SnapshotsReached(p) && TakenOnTop(p, p') && p.val.acc <= p'.val.acc
    ensures SnapshotsAscend(p') && SnapshotsReached(p')
  {}

  lemma DecrementOnTop(p: Pool, p': Pool, e: Epoch)
    requires p'.snaps == DecrementRef(p.snaps, e)
    ensures TakenOnTop(p, p')
  {
    forall f: Epoch {
      DecrementRefAt(p.snaps, e, f);
    }
  }

  /** The epoch in which a change takes effect is the latest one anyone refers to. */
  lemma IncrementOnTop(p: Pool, epoch: Epoch, inBoundary: bool, p': Pool)
    requires Books(p, epoch, inBoundary)
    requires var e := ActivationEpoch(epoch, inBoundary);
             p'.snaps == p.snaps[e := Snapshot(p.val.acc, Ref(p.snaps, e) + 1)]
    ensures TakenOnTop(p, p')
  {
    var e := ActivationEpoch(epoch, inBoundary);
    forall f: Epoch | f > e
      ensures Ref(p'.snaps, f) == 0
    {
      NoLaterReferences(p, epoch, inBoundary, f);
    }
    assert LevelAbove(p', e, p.val.acc);
  }

  /** What the change to epoch `next` does to the snapshot of epoch `e`. */
  lemma FrozenSnapshot(p: Pool, next: Epoch, e: Epoch)
    ensures Ref(Freeze(p, next).snaps, e) == Ref(p.snaps, e)
    ensures Value(Freeze(p, next).snaps, e)
            == if (e == next || e == next + 1) && Ref(p.snaps, e) > 0 then p.val.acc else Value(p.snaps, e)
  {}

  lemma FreezeLevels(p: Pool, epoch: Epoch, inBoundary: bool, next: Epoch, e: Epoch)
    requires Books(p, epoch, inBoundary) && epoch < next <= e
    ensures LevelAbove(Freeze(p, next), e, p.val.acc)
  {
    forall f: Epoch | f > e && Ref(Freeze(p, next).snaps, f) > 0
      ensures Value(Freeze(p, next).snaps, f) == p.val.acc
    {
      FrozenSnapshot(p, next, f);
      if f > next + 1 {
        NoLaterReferences(p, epoch, inBoundary, f);
      }
    }
  }

  lemma FreezeOnTop(p: Pool, epoch: Epoch, inBoundary: bool, next: Epoch)
    requires Books(p, epoch, inBoundary) && epoch < next
    ensures TakenOnTop(p, Freeze(p, next))
  {
    FreezeLevels(p, epoch, inBoundary, next, next);
    FreezeLevels(p, epoch, inBoundary, next, next + 1);
    forall e: Epoch | e > 0 && Ref(Freeze(p, next).snaps, e) > 0
      ensures || (Ref(p.snaps, e) > 0 && Value(Freeze(p, next).snaps, e) == Value(p.snaps, e))
              || (Value(Freeze(p, next).snaps, e) == p.val.acc && LevelAbove(Freeze(p, next), e, p.val.acc))
    {
      FrozenSnapshot(p, next, e);
    }
  }

  // ----- one record changes -----------------------------------------------------

  /** Record `a` becomes `d`, with the accumulator where it was or higher. */
  predicate OneRecord(p: Pool, p': Pool, a: Address, d: Delegator) {
    p'.dels == p.dels[a := d] && p.val.acc <= p'.val.acc && p'.val.auth == p.val.auth
  }

  lemma OneRecordOrdered(p: Pool, p': Pool, a: Address, d: Delegator)
    requires Ordered(p) && OneRecord(p, p', a, d) && TakenOnTop(p, p') && d.acc <= p.val.acc
    ensures Ordered(p')
  {
    OnTopAscends(p, p');
  }

  lemma OneRecordEntitled(p: Pool, p': Pool, a: Address, d: Delegator, v: ValId)
    requires Entitled(p, v) && OneRecord(p, p', a, d)
    requires HasAnything(d) ==> Listable(v, a) || (a in p.dels && HasAnything(p.dels[a]))
    ensures Entitled(p', v)
  {}

  lemma SameRecords(p: Pool, p': Pool, v: ValId)
    requires Ordered(p) && Entitled(p, v) && TakenOnTop(p, p')
    requires p'.dels == p.dels && p.val.acc <= p'.val.acc && p'.val.auth == p.val.auth
    ensures Ordered(p') && Entitled(p', v)
  {
    OnTopAscends(p, p');
  }

  // ----- settling -----------------------------------------------------------------

  lemma TouchKeepsOrder(p: Pool, v: ValId, a: Address)
    requires Ordered(p) && Entitled(p, v)
    ensures Ordered(Touch(p, a)) && Entitled(Touch(p, a), v)
  {
    if a !in p.dels {
      OneRecordOrdered(p, Touch(p, a), a, NO_DELEGATOR);
      OneRecordEntitled(p, Touch(p, a), a, NO_DELEGATOR, v);
    }
  }

  lemma PromoteKeepsOrder(p: Pool, epoch: Epoch, v: ValId, a: Address)
    requires a in p.dels && Ordered(p) && Entitled(p, v)
    ensures Ordered(Promote(p, epoch, a)) && Entitled(Promote(p, epoch, a), v)
  {
    var d := PromoteWindow(p.dels[a], epoch);
    OneRecordOrdered(p, Promote(p, epoch, a), a, d);
    OneRecordEntitled(p, Promote(p, epoch, a), a, d, v);
  }

  lemma NothingEarned(diff: nat, rewards: nat)
    requires CheckedMulDiv(diff, 0, UNIT_BIAS) == Ok(rewards)
    ensures rewards == 0
  {}

  lemma CompoundKeepsOrder(p: Pool, v: ValId, a: Address, p': Pool)
    requires a in p.dels && Ref(p.snaps, p.dels[a].deltaEpoch) > 0 && p.dels[a].deltaEpoch > 0
    requires Ordered(p) && Entitled(p, v) && CompoundStep(p, a) == Ok(p')
    ensures Ordered(p') && Entitled(p', v)
  {
    var rewards := CompoundStepCompounds(p, a, p');
    if p.dels[a].stake == 0 {
      NothingEarned(Value(p.snaps, p.dels[a].deltaEpoch) - p.dels[a].acc, rewards);
    }
    DecrementOnTop(p, p', p.dels[a].deltaEpoch);
    assert p'.val.auth == p.val.auth;
    OneRecordOrdered(p, p', a, p'.dels[a]);
    OneRecordEntitled(p, p', a, p'.dels[a], v);
  }

  lemma AccrueKeepsOrder(p: Pool, v: ValId, a: Address, p': Pool)
    requires a in p.dels && Ordered(p) && Entitled(p, v) && AccrueStep(p, a) == Ok(p')
    ensures Ordered(p') && Entitled(p', v)
  {
    if p.dels[a].stake != 0 {
      OneRecordOrdered(p, p', a, p'.dels[a]);
      OneRecordEntitled(p, p', a, p'.dels[a], v);
    }
  }

  lemma PullKeepsOrder(p: Pool, epoch: Epoch, inBoundary: bool, v: ValId, a: Address, p': Pool)
    requires Books(p, epoch, inBoundary) && Ordered(p) && Entitled(p, v) && Pull(p, epoch, a) == Ok(p')
    ensures Ordered(p') && Entitled(p', v)
  {
    var p0, p1, p2 := PullSteps(p, epoch, a, p');
    var t := Touch(p, a);
    TouchKeepsBooks(p, epoch, inBoundary, a);
    TouchKeepsOrder(p, v, a);
    PromoteKeepsBooks(t, epoch, inBoundary, a);
    PromoteKeepsOrder(t, epoch, v, a);
    PromotedWindows(t.dels[a], epoch, inBoundary);
    if IsEpochActive(epoch, p0.dels[a].nextDeltaEpoch) {
      WindowReferenced(p0, a, p0.dels[a].deltaEpoch);
      CompoundKeepsBooks(p0, epoch, inBoundary, a, p1);
      CompoundKeepsOrder(p0, v, a, p1);
      CompoundOnlySettles(p0, a, p1);
    }
    if IsEpochActive(epoch, p0.dels[a].deltaEpoch) {
      WindowReferenced(p1, a, p1.dels[a].deltaEpoch);
      CompoundKeepsOrder(p1, v, a, p2);
    }
    AccrueKeepsOrder(p2, v, a, p');
  }

  // ----- the other operations -------------------------------------------------------

  lemma JoinedKeepsOrder(p: Pool, epoch: Epoch, inBoundary: bool, v: ValId, a: Address, amount: nat, p': Pool)
    requires Books(p, epoch, inBoundary) && Ordered(p) && Entitled(p, v) && Listable(v, a)
    requires Joined(p, p', a, amount, epoch, inBoundary) && p'.val.auth == p.val.auth
    ensures Ordered(p') && Entitled(p', v)
  {
    if NeedsSnapshot(p.dels[a], inBoundary) {
      IncrementOnTop(p, epoch, inBoundary, p');
    }
    OneRecordOrdered(p, p', a, p'.dels[a]);
    OneRecordEntitled(p, p', a, p'.dels[a], v);
  }

  lemma OpenedKeepsOrder(
    p: Pool, epoch: Epoch, inBoundary: bool, v: ValId, k: (Address, nat), amount: nat, p': Pool)
    requires Books(p, epoch, inBoundary) && Ordered(p) && Entitled(p, v)
    requires Opened(p, p', k, amount, ActivationEpoch(epoch, inBoundary)) && p'.val.auth == p.val.auth
    requires p'.dels[k.0].acc <= p.dels[k.0].acc
    ensures Ordered(p') && Entitled(p', v)
  {
    IncrementOnTop(p, epoch, inBoundary, p');
    OneRecordOrdered(p, p', k.0, p'.dels[k.0]);
    OneRecordEntitled(p, p', k.0, p'.dels[k.0], v);
  }

  lemma CloseKeepsOrder(p: Pool, v: ValId, k: (Address, nat), p': Pool, rewards: nat)
    requires Ordered(p) && Entitled(p, v) && k in p.wds && CloseWithdrawal(p, k) == Ok((p', rewards))
    ensures Ordered(p') && Entitled(p', v)
  {
    DecrementOnTop(p, p', p.wds[k].epoch);
    SameRecords(p, p', v);
  }

  lemma ClearRewardsKeepsOrder(p: Pool, v: ValId, a: Address)
    requires a in p.dels && Ordered(p) && Entitled(p, v)
    ensures Ordered(ClearRewards(p, a)) && Entitled(ClearRewards(p, a), v)
  {
    OneRecordOrdered(p, ClearRewards(p, a), a, p.dels[a].(rewards := 0));
    OneRecordEntitled(p, ClearRewards(p, a), a, p.dels[a].(rewards := 0), v);
  }

  lemma DistributeKeepsOrder(p: Pool, v: ValId, amount: nat, active: nat, p': Pool)
    requires Ordered(p) && Entitled(p, v) && Distribute(p, amount, active) == Ok(p')
    ensures Ordered(p') && Entitled(p', v)
  {
    DistributeOnlyRises(p, amount, active, p');
    SameRecords(p, p', v);
  }

  lemma PayCommissionKeepsOrder(p: Pool, v: ValId, commission: nat, p': Pool)
    requires Ordered(p) && Entitled(p, v) && Exists(p.val)
    requires p.val.auth in p.dels && PayCommission(p, commission) == Ok(p')
    ensures Ordered(p') && Entitled(p', v)
  {
    OneRecordOrdered(p, p', p.val.auth, p'.dels[p.val.auth]);
    OneRecordEntitled(p, p', p.val.auth, p'.dels[p.val.auth], v);
  }

  lemma BlockRewardKeepsOrder(
    p: Pool, v: ValId, commission: nat, shared: nat, active: nat, p1: Pool, p': Pool)
    requires Ordered(p) && Entitled(p, v) && Exists(p.val)
    requires BlockRewardChain(p, commission, shared, active, p1, p')
    ensures Ordered(p') && Entitled(p', v)
  {
    TouchKeepsOrder(p, v, p.val.auth);
    PayCommissionKeepsOrder(Touch(p, p.val.auth), v, commission, p1);
    if shared != 0 {
      DistributeKeepsOrder(p1, v, shared, active, p');
    }
  }

  lemma FreezeKeepsOrder(p: Pool, epoch: Epoch, inBoundary: bool, v: ValId, next: Epoch)
    requires Books(p, epoch, inBoundary) && epoch < next && Ordered(p) && Entitled(p, v)
    ensures Ordered(Freeze(p, next)) && Entitled(Freeze(p, next), v)
  {
    FreezeOnTop(p, epoch, inBoundary, next);
    SameRecords(p, Freeze(p, next), v);
  }

  // ----- when a pull cannot succeed ---------------------------------------------------

  /** The epoch of the earlier window, or zero if there is none. */
  function FirstWindow(d: Delegator): Epoch {
    if d.deltaEpoch != 0 then d.deltaEpoch else d.nextDeltaEpoch
  }

  /** A due window whose snapshot is behind the reward cursor of its delegator. */
  predicate Stale(p: Pool, epoch: Epoch, a: Address) {
    && a in p.dels
    && IsEpochActive(epoch, FirstWindow(p.dels[a]))
    && Value(p.snaps, FirstWindow(p.dels[a])) < p.dels[a].acc
  }

  lemma StaleCompoundFails(p: Pool, a: Address)
    requires a in p.dels && Value(p.snaps, p.dels[a].deltaEpoch) < p.dels[a].acc
    ensures CompoundStep(p, a) == Err(Underflow)
  {}

  /** Promotion brings the earlier window of a record to the front once it is due. */
  lemma PromotedFirst(d: Delegator, epoch: Epoch, inBoundary: bool)
    requires WindowsOk(d, epoch, inBoundary)
    ensures var d' := PromoteWindow(d, epoch);
            && d'.acc == d.acc
            && (IsEpochActive(epoch, FirstWindow(d)) ==> d'.deltaEpoch == FirstWindow(d))
            && (IsEpochActive(epoch, d'.deltaEpoch) ==> d'.deltaEpoch == FirstWindow(d))
            && (IsEpochActive(epoch, d'.nextDeltaEpoch) ==> d'.deltaEpoch < d'.nextDeltaEpoch)
  {}

  lemma StalePullFails(p: Pool, epoch: Epoch, inBoundary: bool, a: Address)
    requires AllWindowsOk(p, epoch, inBoundary) && Stale(p, epoch, a)
    ensures Pull(p, epoch, a) == Err(Underflow)
  {
    var p0 := Promote(Touch(p, a), epoch, a);
    assert WindowsOk(p.dels[a], epoch, inBoundary);
    PromotedFirst(p.dels[a], epoch, inBoundary);
    PromotedWindows(p.dels[a], epoch, inBoundary);
    StaleCompoundFails(p0, a);
  }

  /** A fold whose snapshot is not behind the cursor does not underflow, and leaves the cursor there. */
  lemma CompoundKeepsAbove(p: Pool, a: Address)
    requires a in p.dels && Ref(p.snaps, p.dels[a].deltaEpoch) > 0
    requires p.dels[a].acc <= Value(p.snaps, p.dels[a].deltaEpoch)
    ensures CompoundStep(p, a) != Err(Underflow)
  {}

  lemma AccrueKeepsAbove(p: Pool, a: Address)
    requires a in p.dels && p.dels[a].acc <= p.val.acc
    ensures AccrueStep(p, a) != Err(Underflow)
  {}

  /** After the first fold the cursor is at a snapshot no later one is behind. */
  lemma SecondWindowAhead(p: Pool, a: Address, p': Pool, e: Epoch)
    requires a in p.dels && Ordered(p) && RefcountsExact(p) && RefcountsExact(p')
    requires p.dels[a].deltaEpoch > 0 && e == p.dels[a].nextDeltaEpoch && p.dels[a].deltaEpoch < e
    requires CompoundStep(p, a) == Ok(p')
    ensures Ref(p'.snaps, e) > 0 && p'.dels[a].deltaEpoch == e && p'.dels[a].acc <= Value(p'.snaps, e)
  {
    var d := p.dels[a];
    WindowReferenced(p, a, d.deltaEpoch);
    WindowReferenced(p, a, e);
    var rewards := CompoundStepCompounds(p, a, p');
    WindowReferenced(p', a, e);
    DecrementRefAt(p.snaps, d.deltaEpoch, e);
  }

  lemma FreshPullUnderflowsNot(p: Pool, epoch: Epoch, inBoundary: bool, v: ValId, a: Address)
    requires Books(p, epoch, inBoundary) && Ordered(p) && Entitled(p, v) && a in p.dels && !Stale(p, epoch, a)
    ensures Pull(p, epoch, a) != Err(Underflow)
  {
    var p0 := Promote(p, epoch, a);
    assert WindowsOk(p.dels[a], epoch, inBoundary);
    PromoteKeepsBooks(p, epoch, inBoundary, a);
    PromoteKeepsOrder(p, epoch, v, a);
    PromotedFirst(p.dels[a], epoch, inBoundary);
    PromotedWindows(p.dels[a], epoch, inBoundary);
    var d := p0.dels[a];
    var p1 := p0;
    if IsEpochActive(epoch, d.deltaEpoch) {
      WindowReferenced(p0, a, d.deltaEpoch);
      CompoundKeepsAbove(p0, a);
    }
    if IsEpochActive(epoch, d.nextDeltaEpoch) {
      if CompoundStep(p0, a).Err? {
        return;
      }
      p1 := CompoundStep(p0, a).value;
      CompoundKeepsBooks(p0, epoch, inBoundary, a, p1);
      CompoundKeepsOrder(p0, v, a, p1);
      SecondWindowAhead(p0, a, p1, d.nextDeltaEpoch);
      CompoundKeepsAbove(p1, a);
    }
    var p2 := p1;
    if IsEpochActive(epoch, d.deltaEpoch) {
      if CompoundStep(p1, a).Err? {
        return;
      }
      p2 := CompoundStep(p1, a).value;
      WindowReferenced(p1, a, p1.dels[a].deltaEpoch);
      CompoundKeepsOrder(p1, v, a, p2);
    }
    AccrueKeepsAbove(p2, a);
  }

  /** A pull meets the underflow exactly for a stale delegator. */
  lemma PullUnderflowsIff(p: Pool, epoch: Epoch, inBoundary: bool, v: ValId, a: Address)
    requires Books(p, epoch, inBoundary) && Ordered(p) && Entitled(p, v)
    ensures Pull(p, epoch, a) == Err(Underflow) <==> Stale(p, epoch, a)
  {
    if Stale(p, epoch, a) {
      StalePullFails(p, epoch, inBoundary, a);
    } else {
      var t := Touch(p, a);
      TouchKeepsBooks(p, epoch, inBoundary, a);
      TouchKeepsOrder(p, v, a);
      FreshPullUnderflowsNot(t, epoch, inBoundary, v, a);
      assert Pull(t, epoch, a) == Pull(p, epoch, a);
    }
  }
}
