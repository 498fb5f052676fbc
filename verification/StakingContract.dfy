/**
 * The staking contract as the handlers run it: storage words are read, changed
 * and written back one at a time, and an error leaves the writes so far for
 * the frame to roll back.  Every method is proved against the state machine.
 */
module StakingContract {
  import opened Checked
  import opened Ledger
  import opened ValidatorSets
  import opened ValidatorSetStorage
  import opened TwinLists
  import opened TwinListStorage
  import opened Staking

  // ----- working copies -----------------------------------------------------

  /** The pool as a pull sees it: the record and the unclaimed rewards are still in locals. */
  function Working(p: Pool, a: Address, d: Delegator, unclaimed: nat): (r: Pool)
    ensures a in r.dels && r.dels[a] == d
  {
    p.(dels := p.dels[a := d], val := p.val.(unclaimed := unclaimed))
  }

  /** A record once its first window has joined the active stake. */
  function Folded(d: Delegator, stake: nat, acc: nat): Delegator {
    d.(stake := stake, acc := acc,
    deltaStake := d.nextDeltaStake, nextDeltaStake := 0,
    deltaEpoch := d.nextDeltaEpoch, nextDeltaEpoch := 0)
  }

  /** `apply_compound` on a record, given the snapshot value it was handed. */
  function Fold(d: Delegator, epochAcc: nat): Result<(Delegator, nat)> {
    var rewards :- CalculateRewards(d.stake, epochAcc, d.acc);
    var stake :- CheckedAdd(d.stake, d.deltaStake);
    Ok((Folded(d, stake, epochAcc), rewards))
  }

  /** Takes `rewards` out of the unclaimed ones and adds them to the record. */
  function TakeRewards(d: Delegator, unclaimed: nat, rewards: nat): Result<(Delegator, nat)> {
    if unclaimed < rewards then Err(SolvencyError)
    else
      var total :- CheckedAdd(d.rewards, rewards);
      Ok((d.(rewards := total), unclaimed - rewards))
  }

  /** Folding a working copy is the compound step of the ledger. */
  lemma FoldIsCompoundStep(p: Pool, a: Address, d: Delegator, unclaimed: nat)
    ensures var w := Working(p, a, d, unclaimed);
            var f := Fold(d, DecrementedValue(p.snaps, d.deltaEpoch));
            && (f.Err? ==> CompoundStep(w, a) == Err(f.error))
            && (f.Ok? ==>
                  var t := TakeRewards(f.value.0, unclaimed, f.value.1);
                  && (t.Err? ==> CompoundStep(w, a) == Err(t.error))
                  && (t.Ok? ==>
                        var p' := p.(snaps := DecrementRef(p.snaps, d.deltaEpoch));
                        CompoundStep(w, a) == Ok(Working(p', a, t.value.0, t.value.1))))
  {
    var w := Working(p, a, d, unclaimed);
    var f := Fold(d, DecrementedValue(p.snaps, d.deltaEpoch));
    if f.Ok? {
      var t := TakeRewards(f.value.0, unclaimed, f.value.1);
      if t.Ok? {
        var p' := p.(snaps := DecrementRef(p.snaps, d.deltaEpoch));
        assert CompoundStep(w, a).value.dels == Working(p', a, t.value.0, t.value.1).dels;
      }
    }
  }

  /** Paying a working copy up to the present is the accrual step of the ledger. */
  lemma TakeRewardsIsAccrueStep(p: Pool, a: Address, d: Delegator, unclaimed: nat, rewards: nat)
    requires d.stake != 0 && CalculateRewards(d.stake, p.val.acc, d.acc) == Ok(rewards)
    ensures var w := Working(p, a, d, unclaimed);
            var t := TakeRewards(d.(acc := p.val.acc), unclaimed, rewards);
            && (t.Err? ==> AccrueStep(w, a) == Err(t.error))
            && (t.Ok? ==> AccrueStep(w, a) == Ok(Working(p, a, t.value.0, t.value.1)))
  {
    var w := Working(p, a, d, unclaimed);
    var t := TakeRewards(d.(acc := p.val.acc), unclaimed, rewards);
    if t.Ok? {
      assert AccrueStep(w, a).value.dels == Working(p, a, t.value.0, t.value.1).dels;
    }
  }

  lemma AccrueStepFails(p: Pool, a: Address, d: Delegator, unclaimed: nat)
    requires d.stake != 0 && CalculateRewards(d.stake, p.val.acc, d.acc).Err?
    ensures AccrueStep(Working(p, a, d, unclaimed), a) == Err(CalculateRewards(d.stake, p.val.acc, d.acc).error)
  {}

  /** The record that `read_delegator` returns: zeroed slots if there is none. */
  function RecordOf(p: Pool, a: Address): Delegator {
    if a in p.dels then p.dels[a] else NO_DELEGATOR
  }

  lemma PromotedWorking(p: Pool, epoch: Epoch, a: Address)
    ensures Promote(Touch(p, a), epoch, a)
            == Working(p, a, PromoteWindow(RecordOf(p, a), epoch), p.val.unclaimed)
  {
    var q := Promote(Touch(p, a), epoch, a);
    assert q.dels == p.dels[a := PromoteWindow(RecordOf(p, a), epoch)];
  }

  /** Storage that differs at most in what belongs to `v`. */
  predicate OnlyAt(pools: Pools, pools': Pools, v: ValId) {
    pools' - {v} == pools - {v}
  }

  lemma WrittenAt(pools: Pools, pools1: Pools, v: ValId, p: Pool)
    requires OnlyAt(pools, pools1, v)
    ensures pools1[v := p] == pools[v := p]
  {
    assert pools1[v := p] == (pools1 - {v})[v := p];
    assert pools[v := p] == (pools - {v})[v := p];
  }

  /** Refreshing a pool twice is refreshing it once, so repeated ids do no harm. */
  lemma FreezeOneMore(pools: Pools, done: seq<ValId>, next: Epoch, v: ValId)
    ensures var q := FreezeAll(pools, done, next);
            FreezeAll(pools, done + [v], next) == if v in q then q[v := Freeze(q[v], next)] else q
  {
    if v in pools {
      RefreezesTheSame(pools[v], next);
    }
  }

  lemma RefreezesTheSame(p: Pool, next: Epoch)
    ensures Freeze(Freeze(p, next), next) == Freeze(p, next)
  {}

  datatype SetWords = SetWords(
    execution: seq<ValId>, bits: Buckets, consensus: seq<ValId>, snapshot: seq<ValId>,
    consensusView: Views, snapshotView: Views)

  /** All storage words of the contract. */
  datatype Words = Words(
    epoch: Epoch, inBoundary: bool, lastValId: nat, proposer: ValId,
    pools: Pools, secp: map<Address, ValId>, bls: map<Address, ValId>, credited: nat, paid: nat,
    sets: SetWords, nodes: Nodes)

  /** A handler came out as the state machine says: the same error, or the same state. */
  ghost predicate Agrees(r: Result<()>, expected: Result<State>, now: State) {
    expected == if r.Err? then Err(r.error) else Ok(now)
  }

  class StakingContract {
    var epoch: Epoch
    var inBoundary: bool
    var lastValId: nat
    var proposer: ValId
    var pools: Pools
    var secp: map<Address, ValId>
    var bls: map<Address, ValId>
    var credited: nat
    var paid: nat
    const sets: ValidatorSetStore
    const lists: TwinListStore

    ghost predicate Valid()
      reads this, sets, lists
    {
      sets.Valid() && lists.Valid()
    }

    /** The state of the contract as the state machine sees it. */
    ghost function Contents(): State
      reads this, sets, lists
    {
      State(epoch, inBoundary, lastValId, proposer, pools, secp, bls,
            sets.Contents(), lists.lists, credited, paid)
    }

    constructor ()
      ensures Valid() && fresh(sets) && fresh(lists)
      ensures Contents() == GENESIS && sets.bits == map[] && lists.nodes == map[]
    {
      epoch, inBoundary, lastValId, proposer := 0, false, 0, 0;
      pools, secp, bls := map[], map[], map[];
      credited, paid := 0, 0;
      sets := new ValidatorSetStore();
      lists := new TwinListStore();
    }

    // ----- storage words ------------------------------------------------------

    function ReadPool(v: ValId): Pool
      reads this
    {
      if v in pools then pools[v] else EMPTY_POOL
    }

    method WriteValidator(v: ValId, val: Validator)
      modifies `pools
      ensures pools == old(pools)[v := old(ReadPool(v)).(val := val)]
    {
      pools := pools[v := ReadPool(v).(val := val)];
    }

    method WriteDelegator(v: ValId, a: Address, d: Delegator)
      modifies `pools
      ensures pools == old(pools)[v := old(ReadPool(v)).(dels := old(ReadPool(v)).dels[a := d])]
    {
      var p := ReadPool(v);
      pools := pools[v := p.(dels := p.dels[a := d])];
    }

    method WriteAccumulator(e: Epoch, v: ValId, snap: Snapshot)
      modifies `pools
      ensures pools == old(pools)[v := old(ReadPool(v)).(snaps := old(ReadPool(v)).snaps[e := snap])]
    {
      var p := ReadPool(v);
      pools := pools[v := p.(snaps := p.snaps[e := snap])];
    }

    method ClearAccumulator(e: Epoch, v: ValId)
      modifies `pools
      ensures pools == old(pools)[v := old(ReadPool(v)).(snaps := old(ReadPool(v)).snaps - {e})]
    {
      var p := ReadPool(v);
      pools := pools[v := p.(snaps := p.snaps - {e})];
    }

    // ----- accumulator snapshots ----------------------------------------------

    method IncrementAccumulatorRefcount(v: ValId)
      modifies `pools
      ensures pools == old(pools)[v := IncrementRef(old(ReadPool(v)), ActivationEpoch(epoch, inBoundary))]
    {
      var activation := ActivationEpoch(epoch, inBoundary);
      var p := ReadPool(v);
      WriteAccumulator(activation, v, Snapshot(p.val.acc, Ref(p.snaps, activation) + 1));
    }

    /** Returns the snapshot value; the last reference clears the slot. */
    method DecrementAccumulatorRefcount(e: Epoch, v: ValId) returns (value: nat)
      modifies `pools
      ensures value == DecrementedValue(old(ReadPool(v)).snaps, e)
      ensures OnlyAt(old(pools), pools, v)
      ensures ReadPool(v) == old(ReadPool(v)).(snaps := DecrementRef(old(ReadPool(v)).snaps, e))
    {
      var p := ReadPool(v);
      value := Value(p.snaps, e);
      var refcount := Ref(p.snaps, e);
      if refcount == 0 {
        return 0;
      }
      if refcount - 1 == 0 {
        ClearAccumulator(e, v);
      } else {
        WriteAccumulator(e, v, Snapshot(value, refcount - 1));
      }
    }

    // ----- settling -------------------------------------------------------------

    /** Folds the first window of the local record `del` into its active stake. */
    method ApplyCompound(v: ValId, del: Delegator) returns (r: Result<(Delegator, nat)>)
      modifies `pools
      ensures OnlyAt(old(pools), pools, v)
      ensures ReadPool(v) == old(ReadPool(v)).(snaps := DecrementRef(old(ReadPool(v)).snaps, del.deltaEpoch))
      ensures r == Fold(del, DecrementedValue(old(ReadPool(v)).snaps, del.deltaEpoch))
    {
      var epochAcc := DecrementAccumulatorRefcount(del.deltaEpoch, v);
      var rewards :- CalculateRewards(del.stake, epochAcc, del.acc);
      var d := del.(acc := epochAcc);
      var stake :- CheckedAdd(d.stake, d.deltaStake);
      d := d.(stake := stake);
      d := d.(deltaStake := d.nextDeltaStake, nextDeltaStake := 0);
      d := d.(deltaEpoch := d.nextDeltaEpoch, nextDeltaEpoch := 0);
      r := Ok((d, rewards));
    }

    /** One due window: folded, checked against the unclaimed rewards and credited. */
    method CompoundTrack(v: ValId, ghost a: Address, del: Delegator, unclaimed: nat)
      returns (r: Result<(Delegator, nat)>)
      modifies `pools
      ensures OnlyAt(old(pools), pools, v)
      ensures r.Err? ==> CompoundStep(Working(old(ReadPool(v)), a, del, unclaimed), a) == Err(r.error)
      ensures r.Ok? ==> CompoundStep(Working(old(ReadPool(v)), a, del, unclaimed), a)
                        == Ok(Working(ReadPool(v), a, r.value.0, r.value.1))
    {
      FoldIsCompoundStep(ReadPool(v), a, del, unclaimed);
      var folded := ApplyCompound(v, del);
      if folded.Err? {
        return folded;
      }
      var (d, rewards) := folded.value;
      if unclaimed < rewards {
        return Err(SolvencyError);
      }
      var total :- CheckedAdd(d.rewards, rewards);
      r := Ok((d.(rewards := total), unclaimed - rewards));
    }

    /** Pays the active stake of the local record up to the present accumulator. */
    method AccrueTrack(v: ValId, ghost a: Address, del: Delegator, unclaimed: nat)
      returns (r: Result<(Delegator, nat)>)
      ensures r.Err? ==> AccrueStep(Working(ReadPool(v), a, del, unclaimed), a) == Err(r.error)
      ensures r.Ok? ==> AccrueStep(Working(ReadPool(v), a, del, unclaimed), a)
                        == Ok(Working(ReadPool(v), a, r.value.0, r.value.1))
    {
      if del.stake == 0 {
        return Ok((del, unclaimed));
      }
      var valAcc := ReadPool(v).val.acc;
      var calculated := CalculateRewards(del.stake, valAcc, del.acc);
      if calculated.Err? {
        AccrueStepFails(ReadPool(v), a, del, unclaimed);
        return Err(calculated.error);
      }
      var rewards := calculated.value;
      TakeRewardsIsAccrueStep(ReadPool(v), a, del, unclaimed, rewards);
      if unclaimed < rewards {
        return Err(SolvencyError);
      }
      var total :- CheckedAdd(del.rewards, rewards);
      r := Ok((del.(acc := valAcc, rewards := total), unclaimed - rewards));
    }

    /** `pull_delegator_up_to_date`. */
    method PullUpToDate(v: ValId, a: Address) returns (r: Result<Delegator>)
      modifies `pools
      ensures r.Err? ==> Pull(old(ReadPool(v)), epoch, a) == Err(r.error)
      ensures r.Ok? ==> Pull(old(ReadPool(v)), epoch, a) == Ok(ReadPool(v))
      ensures r.Ok? ==> a in ReadPool(v).dels && r.value == ReadPool(v).dels[a]
      ensures r.Ok? ==> pools == old(pools)[v := ReadPool(v)]
    {
      var del := RecordOf(ReadPool(v), a);
      PromotedWorking(ReadPool(v), epoch, a);
      var canPromote := del.deltaEpoch == 0 && del.nextDeltaEpoch <= epoch + 1;
      if canPromote && del.nextDeltaEpoch != 0 {
        del := del.(deltaStake := del.nextDeltaStake, nextDeltaStake := 0);
        del := del.(deltaEpoch := del.nextDeltaEpoch, nextDeltaEpoch := 0);
      }
      var unclaimed := ReadPool(v).val.unclaimed;
      var canCompound := IsEpochActive(epoch, del.deltaEpoch);
      var canCompoundBoundary := IsEpochActive(epoch, del.nextDeltaEpoch);
      ghost var p0 := Working(ReadPool(v), a, del, unclaimed);
      assert p0 == Promote(Touch(old(ReadPool(v)), a), epoch, a);
      if canCompoundBoundary {
        var track := CompoundTrack(v, a, del, unclaimed);
        if track.Err? {
          return Err(track.error);
        }
        del, unclaimed := track.value.0, track.value.1;
      }
      ghost var p1 := Working(ReadPool(v), a, del, unclaimed);
      if canCompound {
        var track := CompoundTrack(v, a, del, unclaimed);
        if track.Err? {
          return Err(track.error);
        }
        del, unclaimed := track.value.0, track.value.1;
      }
      ghost var p2 := Working(ReadPool(v), a, del, unclaimed);
      var accrued := AccrueTrack(v, a, del, unclaimed);
      if accrued.Err? {
        return Err(accrued.error);
      }
      del, unclaimed := accrued.value.0, accrued.value.1;
      WrittenAt(old(pools), pools, v, Working(ReadPool(v), a, del, unclaimed));
      WriteValidator(v, ReadPool(v).val.(unclaimed := unclaimed));
      WriteDelegator(v, a, del);
      r := Ok(del);
    }

    // ----- flags ----------------------------------------------------------------

    method UpdateFlagsAfterDelegate(v: ValId, val: Validator, d: Delegator, caller: Address)
      requires v in pools && pools[v].val == val
      modifies `pools
      ensures pools == old(pools)[v := old(pools)[v].(val := val.(flags := FlagsAfterDelegate(val, d, caller)))]
    {
      var flags := val.flags;
      if val.stake >= ACTIVE_VALIDATOR_STAKE {
        flags := flags.(stakeTooLow := false);
      }
      if caller == val.auth && d.TotalStake() >= MIN_AUTH_ADDRESS_STAKE {
        flags := flags.(withdrawn := false);
      }
      if flags != val.flags {
        WriteValidator(v, val.(flags := flags));
      }
    }

    method UpdateFlagsAfterUndelegate(v: ValId, val: Validator, d: Delegator, caller: Address)
      requires v in pools && pools[v].val == val
      modifies `pools
      ensures pools == old(pools)[v := old(pools)[v].(val := val.(flags := FlagsAfterUndelegate(val, d, caller)))]
    {
      var flags := val.flags;
      if val.stake < ACTIVE_VALIDATOR_STAKE {
        flags := flags.(stakeTooLow := true);
      }
      if caller == val.auth && d.TotalStake() < MIN_AUTH_ADDRESS_STAKE {
        flags := flags.(withdrawn := true);
      }
      if flags != val.flags {
        WriteValidator(v, val.(flags := flags));
      }
    }

    // ----- delegating -----------------------------------------------------------

    /** The part of `internal_delegate` that moves stake. */
    method MoveStakeIn(v: ValId, caller: Address, amount: nat) returns (r: Result<()>)
      modifies `pools
      ensures r.Err? ==> Ledger.Delegate(old(ReadPool(v)), epoch, inBoundary, caller, amount) == Err(r.error)
      ensures r.Ok? ==> Ledger.Delegate(old(ReadPool(v)), epoch, inBoundary, caller, amount) == Ok(ReadPool(v))
      ensures r.Ok? ==> pools == old(pools)[v := ReadPool(v)]
    {
      var del :- PullUpToDate(v, caller);
      r := JoinOpenWindow(v, caller, del, amount);
    }

    /** What follows the pull: the window, its snapshot, the validator stake and the flags. */
    method JoinOpenWindow(v: ValId, caller: Address, del: Delegator, amount: nat) returns (r: Result<()>)
      requires caller in ReadPool(v).dels && del == ReadPool(v).dels[caller]
      modifies `pools
      ensures r.Err? ==> AddToWindow(old(ReadPool(v)), epoch, inBoundary, caller, amount) == Err(r.error)
      ensures r.Ok? ==> AddToWindow(old(ReadPool(v)), epoch, inBoundary, caller, amount) == Ok(ReadPool(v))
      ensures r.Ok? ==> pools == old(pools)[v := ReadPool(v)]
    {
      var activation := ActivationEpoch(epoch, inBoundary);
      var d := del;
      if inBoundary {
        var needAcc := d.nextDeltaEpoch == 0;
        var sum :- CheckedAdd(d.nextDeltaStake, amount);
        d := d.(nextDeltaStake := sum, nextDeltaEpoch := activation);
        WriteDelegator(v, caller, d);
        if needAcc {
          IncrementAccumulatorRefcount(v);
        }
      } else {
        var needAcc := d.deltaEpoch == 0;
        var sum :- CheckedAdd(d.deltaStake, amount);
        d := d.(deltaStake := sum, deltaEpoch := activation);
        WriteDelegator(v, caller, d);
        if needAcc {
          IncrementAccumulatorRefcount(v);
        }
      }
      var val := ReadPool(v).val;
      var stake :- CheckedAdd(val.stake, amount);
      val := val.(stake := stake);
      WriteValidator(v, val);
      UpdateFlagsAfterDelegate(v, val, d, caller);
      r := Ok(());
    }

    /** Brings the execution set and the lists up to date with a delegation. */
    method EnlistDelegation(v: ValId, caller: Address) returns (r: Result<()>)
      requires Valid()
      modifies sets, lists
      ensures Valid()
      ensures Agrees(r, Enlist(old(Contents()), v, caller), Contents())
    {
      if ReadPool(v).val.flags == OK {
        var inserted := sets.AddToValset(v);
      }
      r := lists.InsertBoth(v, caller);
    }

    /** `internal_delegate`. */
    method InternalDelegate(v: ValId, caller: Address, amount: nat) returns (r: Result<()>)
      requires Valid()
      modifies `pools, sets, lists
      ensures Valid()
      ensures Agrees(r, Staking.InternalDelegate(old(Contents()), v, caller, amount), Contents())
    {
      r := MoveStakeIn(v, caller, amount);
      if r.Ok? {
        assert Contents() == WithPool(old(Contents()), v, ReadPool(v));
        r := EnlistDelegation(v, caller);
      }
    }

    method HandleDelegate(v: ValId, caller: Address, value: nat) returns (r: Result<()>)
      requires Valid()
      modifies `pools, sets, lists
      ensures Valid()
      ensures Agrees(r, Staking.HandleDelegate(old(Contents()), v, caller, value), Contents())
    {
      var val := ReadPool(v).val;
      if !Exists(val) {
        return Err(UnknownValidator);
      }
      if value == 0 {
        return Ok(());
      }
      if value < DUST_THRESHOLD {
        return Err(DelegationTooSmall);
      }
      r := InternalDelegate(v, caller, value);
    }

    // ----- withdrawing ----------------------------------------------------------

    /** The part of `undelegate` that turns stake into a withdrawal request. */
    method MoveStakeOut(v: ValId, caller: Address, amount: nat, wid: nat) returns (r: Result<Delegator>)
      modifies `pools
      ensures r.Err? ==> Ledger.Undelegate(old(ReadPool(v)), epoch, inBoundary, caller, amount, wid) == Err(r.error)
      ensures r.Ok? ==> Ledger.Undelegate(old(ReadPool(v)), epoch, inBoundary, caller, amount, wid) == Ok(ReadPool(v))
      ensures r.Ok? ==> caller in ReadPool(v).dels && r.value == ReadPool(v).dels[caller]
      ensures r.Ok? ==> pools == old(pools)[v := ReadPool(v)]
    {
      if HasRequest(ReadPool(v), (caller, wid)) {
        return Err(WithdrawalIdExists);
      }
      var del :- PullUpToDate(v, caller);
      if del.stake < amount {
        return Err(InsufficientStake);
      }
      var taken := amount;
      var remaining := del.stake - amount;
      if remaining != 0 && remaining < DUST_THRESHOLD {
        taken := del.stake;
      }
      r := OpenRequest(v, caller, del, wid, taken);
    }

    method OpenRequest(v: ValId, caller: Address, del: Delegator, wid: nat, amount: nat)
      returns (r: Result<Delegator>)
      requires caller in ReadPool(v).dels && del == ReadPool(v).dels[caller] && amount <= del.stake
      modifies `pools
      ensures r.Err? ==> OpenWithdrawal(old(ReadPool(v)), epoch, inBoundary, caller, wid, amount) == Err(r.error)
      ensures r.Ok? ==> OpenWithdrawal(old(ReadPool(v)), epoch, inBoundary, caller, wid, amount) == Ok(ReadPool(v))
      ensures r.Ok? ==> caller in ReadPool(v).dels && r.value == ReadPool(v).dels[caller]
      ensures r.Ok? ==> pools == old(pools)[v := ReadPool(v)]
    {
      var requestAcc := del.acc;
      var d := del.(stake := del.stake - amount);
      if d.stake == 0 {
        d := d.(acc := 0);
      }
      r := LowerStake(v, caller, d, amount);
      if r.Ok? {
        WriteWithdrawal(v, (caller, wid), Withdrawal(amount, requestAcc, ActivationEpoch(epoch, inBoundary)));
        IncrementAccumulatorRefcount(v);
        WriteDelegator(v, caller, d);
      }
    }

    /** The validator stake and flags once `caller` is left with record `d`. */
    method LowerStake(v: ValId, caller: Address, d: Delegator, amount: nat) returns (r: Result<Delegator>)
      modifies `pools
      ensures r.Err? ==> CheckedSub(old(ReadPool(v)).val.stake, amount) == Err(r.error)
      ensures r.Ok? ==>
                && r.value == d
                && CheckedSub(old(ReadPool(v)).val.stake, amount).Ok?
                && var val := old(ReadPool(v)).val.(stake := old(ReadPool(v)).val.stake - amount);
                   var flags := FlagsAfterUndelegate(val, d, caller);
                   pools == old(pools)[v := old(ReadPool(v)).(val := val.(flags := flags))]
    {
      var val := ReadPool(v).val;
      var stake :- CheckedSub(val.stake, amount);
      val := val.(stake := stake);
      WriteValidator(v, val);
      UpdateFlagsAfterUndelegate(v, val, d, caller);
      r := Ok(d);
    }

    method WriteWithdrawal(v: ValId, k: (Address, nat), w: Withdrawal)
      modifies `pools
      ensures pools == old(pools)[v := old(ReadPool(v)).(wds := old(ReadPool(v)).wds[k := w])]
    {
      var p := ReadPool(v);
      pools := pools[v := p.(wds := p.wds[k := w])];
    }

    method ClearWithdrawal(v: ValId, k: (Address, nat))
      modifies `pools
      ensures pools == old(pools)[v := old(ReadPool(v)).(wds := old(ReadPool(v)).wds - {k})]
    {
      var p := ReadPool(v);
      pools := pools[v := p.(wds := p.wds - {k})];
    }

    method HandleUndelegate(v: ValId, caller: Address, amount: nat, wid: nat) returns (r: Result<()>)
      requires Valid()
      modifies `pools, lists
      ensures Valid()
      ensures Agrees(r, Staking.HandleUndelegate(old(Contents()), v, caller, amount, wid), Contents())
    {
      if amount == 0 {
        return Ok(());
      }
      var val := ReadPool(v).val;
      if !Exists(val) {
        return Err(UnknownValidator);
      }
      var moved := MoveStakeOut(v, caller, amount, wid);
      if moved.Err? {
        return Err(moved.error);
      }
      assert Contents() == WithPool(old(Contents()), v, ReadPool(v));
      if !moved.value.Exists() {
        lists.RemoveBoth(v, caller);
      }
      r := Ok(());
    }

    method TransferOut(amount: nat) returns (r: Result<()>)
      modifies `paid
      ensures Agrees(r, Transfer(old(Contents()), amount), Contents())
    {
      if credited < paid + amount {
        return Err(TransferFailed);
      }
      paid := paid + amount;
      r := Ok(());
    }

    /** The part of `withdraw` before the transfer: the request is settled. */
    method SettleRequest(v: ValId, caller: Address, wid: nat) returns (r: Result<nat>)
      modifies `pools
      ensures r.Err? ==> Ledger.Withdraw(old(ReadPool(v)), epoch, caller, wid) == Err(r.error)
      ensures r.Ok? ==>
                var p := ReadPool(v);
                && pools == old(pools)[v := p]
                && Ledger.Withdraw(old(ReadPool(v)), epoch, caller, wid)
                   == Ok((p.(wds := p.wds - {(caller, wid)}), r.value))
    {
      if !HasRequest(ReadPool(v), (caller, wid)) {
        return Err(UnknownWithdrawalId);
      }
      var w := ReadPool(v).wds[(caller, wid)];
      if !IsEpochActive(epoch, w.epoch) || w.epoch + WITHDRAWAL_DELAY > epoch {
        return Err(WithdrawalNotReady);
      }
      var epochAcc := DecrementAccumulatorRefcount(w.epoch, v);
      var rewards :- CalculateRewards(w.amount, epochAcc, w.acc);
      var val := ReadPool(v).val;
      if val.unclaimed < rewards {
        return Err(SolvencyError);
      }
      ghost var p := ReadPool(v).(val := val.(unclaimed := val.unclaimed - rewards));
      WrittenAt(old(pools), pools, v, p);
      WriteValidator(v, val.(unclaimed := val.unclaimed - rewards));
      var payout :- CheckedAdd(w.amount, rewards);
      r := Ok(payout);
    }

    method HandleWithdraw(v: ValId, caller: Address, wid: nat) returns (r: Result<()>)
      requires Valid()
      modifies `pools, `paid
      ensures Valid()
      ensures Agrees(r, Staking.HandleWithdraw(old(Contents()), v, caller, wid), Contents())
    {
      var payout :- SettleRequest(v, caller, wid);
      ghost var settled := pools[v := ReadPool(v).(wds := ReadPool(v).wds - {(caller, wid)})];
      assert settled == old(pools)[v := settled[v]];
      r := TransferOut(payout);
      if r.Ok? {
        ClearWithdrawal(v, (caller, wid));
        assert pools == settled;
      }
    }

    // ----- rewards --------------------------------------------------------------

    /** Sends the credited rewards of `caller` out and clears them. */
    method PayRewards(v: ValId, caller: Address, del: Delegator) returns (r: Result<()>)
      requires caller in ReadPool(v).dels && del == ReadPool(v).dels[caller]
      modifies `pools, `paid
      ensures r.Err? <==> old(credited) < old(paid) + del.rewards
      ensures r.Err? ==> r.error == TransferFailed
      ensures r.Ok? ==> paid == old(paid) + del.rewards
      ensures r.Ok? ==> pools == old(pools)[v := ReadPool(v)] && ReadPool(v) == ClearRewards(old(ReadPool(v)), caller)
    {
      r := TransferOut(del.rewards);
      if r.Ok? {
        WriteDelegator(v, caller, del.(rewards := 0));
      }
    }

    /** A claim past its pull; `s` is the state the call began in. */
    method ClaimPulled(v: ValId, caller: Address, del: Delegator, ghost s: State) returns (r: Result<()>)
      requires Valid() && Contents() == WithPool(s, v, ReadPool(v))
      requires caller in ReadPool(v).dels && del == ReadPool(v).dels[caller]
      modifies `pools, `paid
      ensures Valid()
      ensures Agrees(r, if del.rewards == 0 then Ok(old(Contents()))
                        else Transfer(WithPool(s, v, ClearRewards(old(ReadPool(v)), caller)), del.rewards),
                     Contents())
    {
      if del.rewards == 0 {
        return Ok(());
      }
      r := PayRewards(v, caller, del);
      assert r.Ok? ==> pools == s.pools[v := ReadPool(v)];
    }

    method HandleClaimRewards(v: ValId, caller: Address) returns (r: Result<()>)
      requires Valid()
      modifies `pools, `paid
      ensures Valid()
      ensures Agrees(r, Staking.HandleClaimRewards(old(Contents()), v, caller), Contents())
    {
      var del :- PullUpToDate(v, caller);
      r := ClaimPulled(v, caller, del, old(Contents()));
    }

    method HandleCompound(v: ValId, caller: Address) returns (r: Result<()>)
      requires Valid()
      modifies `pools, sets, lists
      ensures Valid()
      ensures Agrees(r, Staking.HandleCompound(old(Contents()), v, caller), Contents())
    {
      var del :- PullUpToDate(v, caller);
      var rewards := del.rewards;
      if rewards == 0 {
        return Ok(());
      }
      ghost var p := ReadPool(v);
      WriteDelegator(v, caller, del.(rewards := 0));
      assert Contents() == WithPool(old(Contents()), v, ClearRewards(p, caller));
      r := InternalDelegate(v, caller, rewards);
    }

    method HandleChangeCommission(v: ValId, caller: Address, commission: nat) returns (r: Result<()>)
      requires Valid()
      modifies `pools
      ensures Valid()
      ensures Agrees(r, Staking.HandleChangeCommission(old(Contents()), v, caller, commission), Contents())
    {
      var val := ReadPool(v).val;
      if !Exists(val) {
        return Err(UnknownValidator);
      }
      if caller != val.auth {
        return Err(RequiresAuthAddress);
      }
      if commission > MAX_COMMISSION {
        return Err(CommissionTooHigh);
      }
      WriteValidator(v, val.(commission := commission));
      r := Ok(());
    }

    /** Raises the accumulator by the share of `amount` that falls on one unit of stake. */
    method ApplyReward(v: ValId, amount: nat, active: nat) returns (r: Result<()>)
      modifies `pools
      ensures r.Err? ==> Distribute(old(ReadPool(v)), amount, active) == Err(r.error)
      ensures r.Ok? ==> Distribute(old(ReadPool(v)), amount, active) == Ok(ReadPool(v))
      ensures r.Ok? ==> pools == old(pools)[v := ReadPool(v)]
    {
      var val := ReadPool(v).val;
      var rewardAcc :- CheckedMulDiv(amount, UNIT_BIAS, active);
      var newAcc :- CheckedAdd(val.acc, rewardAcc);
      WriteValidator(v, val.(acc := newAcc));
      var unclaimed :- CheckedAdd(val.unclaimed, amount);
      WriteValidator(v, ReadPool(v).val.(unclaimed := unclaimed));
      r := Ok(());
    }

    function ActiveViewNow(v: ValId): View
      reads this, sets
    {
      ViewOf(if inBoundary then sets.snapshotView else sets.consensusView, v)
    }

    method HandleExternalReward(v: ValId, value: nat) returns (r: Result<()>)
      requires Valid()
      modifies `pools
      ensures Valid()
      ensures Agrees(r, Staking.HandleExternalReward(old(Contents()), v, value), Contents())
    {
      if !Exists(ReadPool(v).val) {
        return Err(UnknownValidator);
      }
      var activeStake := ActiveViewNow(v).stake;
      if activeStake == 0 {
        return Err(NotInValidatorSet);
      }
      if value < MIN_EXTERNAL_REWARD {
        return Err(ExternalRewardTooSmall);
      }
      if value > MAX_EXTERNAL_REWARD {
        return Err(ExternalRewardTooLarge);
      }
      r := ApplyReward(v, value, activeStake);
    }

    method HandleGetDelegator(v: ValId, delegator: Address) returns (r: Result<()>)
      requires Valid()
      modifies `pools
      ensures Valid()
      ensures Agrees(r, Staking.HandleGetDelegator(old(Contents()), v, delegator), Contents())
    {
      var del :- PullUpToDate(v, delegator);
      r := Ok(());
    }

    method CreditCommission(v: ValId, commission: nat) returns (r: Result<()>)
      modifies `pools
      ensures var t := Touch(old(ReadPool(v)), old(ReadPool(v)).val.auth);
              && t.val.auth in t.dels
              && (r.Err? ==> PayCommission(t, commission) == Err(r.error))
              && (r.Ok? ==> PayCommission(t, commission) == Ok(ReadPool(v)) && pools == old(pools)[v := ReadPool(v)])
    {
      var auth := ReadPool(v).val.auth;
      var authDel := RecordOf(ReadPool(v), auth);
      var rewards :- CheckedAdd(authDel.rewards, commission);
      ghost var t := Touch(ReadPool(v), auth);
      assert t.dels[auth := authDel.(rewards := rewards)] == ReadPool(v).dels[auth := authDel.(rewards := rewards)];
      WriteDelegator(v, auth, authDel.(rewards := rewards));
      r := Ok(());
    }

    method ShareBlockReward(v: ValId, reward: nat, view: View) returns (r: Result<()>)
      modifies `pools
      ensures r.Err? ==> BlockReward(old(ReadPool(v)), reward, view.commission, view.stake) == Err(r.error)
      ensures r.Ok? ==> BlockReward(old(ReadPool(v)), reward, view.commission, view.stake) == Ok(ReadPool(v))
      ensures r.Ok? ==> pools == old(pools)[v := ReadPool(v)]
    {
      var commission :- CheckedMulDiv(reward, view.commission, MON);
      var delReward :- CheckedSub(reward, commission);
      r := CreditCommission(v, commission);
      if r.Ok? && delReward != 0 {
        r := ApplyReward(v, delReward, view.stake);
      }
    }

    method HandleSyscallReward(caller: Address, author: Address, reward: nat) returns (r: Result<()>)
      requires Valid()
      modifies `pools, `proposer
      ensures Valid()
      ensures Agrees(r, Staking.HandleSyscallReward(old(Contents()), caller, author, reward), Contents())
    {
      if caller != SYSTEM_ADDRESS {
        return Err(Unauthorized);
      }
      var v := IdAt(secp, author);
      if v == 0 {
        return Err(NotInValidatorSet);
      }
      var view := ActiveViewNow(v);
      if view.stake == 0 {
        return Err(NotInValidatorSet);
      }
      r := ShareBlockReward(v, reward, view);
      if r.Ok? {
        proposer := v;
      }
    }

    // ----- validators -----------------------------------------------------------

    method CheckNewValidator(
      auth: Address, blsKey: Address, signedStake: nat, commission: nat, value: nat) returns (r: Result<ValId>)
      ensures r == NewValidatorId(Contents(), auth, blsKey, signedStake, commission, value)
    {
      if value != signedStake {
        return Err(InvalidInput);
      }
      if value < MIN_AUTH_ADDRESS_STAKE {
        return Err(InsufficientStake);
      }
      if commission > MAX_COMMISSION {
        return Err(CommissionTooHigh);
      }
      if IdAt(secp, auth) != 0 {
        return Err(ValidatorExists);
      }
      if IdAt(bls, blsKey) != 0 {
        return Err(ValidatorExists);
      }
      r := Ok(lastValId + 1);
    }

    method HandleAddValidator(
      auth: Address, blsKey: Address, signedStake: nat, commission: nat, value: nat) returns (r: Result<()>)
      requires Valid()
      modifies `pools, `lastValId, `secp, `bls, sets, lists
      ensures Valid()
      ensures Agrees(r, Staking.HandleAddValidator(old(Contents()), auth, blsKey, signedStake, commission, value),
                     Contents())
    {
      var v :- CheckNewValidator(auth, blsKey, signedStake, commission, value);
      CreateValidator(v, auth, blsKey, commission);
      r := InternalDelegate(v, auth, value);
    }

    /** The id, the id mappings and the record of a new validator. */
    method CreateValidator(v: ValId, auth: Address, blsKey: Address, commission: nat)
      requires v == lastValId + 1
      modifies `pools, `lastValId, `secp, `bls
      ensures Contents() == Registered(old(Contents()), auth, blsKey, commission)
    {
      lastValId := v;
      secp := secp[auth := v];
      bls := bls[blsKey := v];
      WriteValidator(v, NewValidator(auth, commission));
    }

    // ----- epochs ---------------------------------------------------------------

    method HandleSyscallSnapshot(caller: Address) returns (r: Result<()>)
      requires Valid()
      modifies `inBoundary, sets
      ensures Valid()
      ensures Agrees(r, Staking.HandleSyscallSnapshot(old(Contents()), caller), Contents())
    {
      if caller != SYSTEM_ADDRESS {
        return Err(Unauthorized);
      }
      if inBoundary {
        return Err(SnapshotInBoundary);
      }
      inBoundary := true;
      sets.TakeSnapshotOf(pools);
      r := Ok(());
    }

    /** Brings snapshot (e, v) to the present accumulator, if anyone refers to it. */
    method RefreshAccumulator(e: Epoch, v: ValId)
      modifies `pools
      ensures pools == if v !in old(pools) then old(pools)
                       else var p := old(pools)[v];
                            old(pools)[v := p.(snaps := Refresh(p.snaps, e, p.val.acc))]
    {
      var p := ReadPool(v);
      if Ref(p.snaps, e) > 0 {
        WriteAccumulator(e, v, Snapshot(p.val.acc, Ref(p.snaps, e)));
      } else if v in pools {
        assert pools == pools[v := pools[v]];
      }
    }

    /** The loop over the snapshot set at an epoch change. */
    method RefreshAccumulators(next: Epoch)
      modifies `pools
      ensures pools == FreezeAll(old(pools), sets.snapshot, next)
    {
      var nextNext := next + 1;
      assert FreezeAll(pools, sets.snapshot[..0], next) == pools;
      for i := 0 to |sets.snapshot|
        modifies `pools
        invariant pools == FreezeAll(old(pools), sets.snapshot[..i], next)
      {
        var v := sets.snapshot[i];
        FreezeOneMore(old(pools), sets.snapshot[..i], next, v);
        assert sets.snapshot[..i + 1] == sets.snapshot[..i] + [v];
        RefreshAccumulator(next, v);
        RefreshAccumulator(nextNext, v);
      }
      assert sets.snapshot[..|sets.snapshot|] == sets.snapshot;
    }

    method HandleSyscallOnEpochChange(caller: Address, next: Epoch) returns (r: Result<()>)
      requires Valid()
      modifies `pools, `inBoundary, `epoch
      ensures Valid()
      ensures Agrees(r, Staking.HandleSyscallOnEpochChange(old(Contents()), caller, next), Contents())
    {
      if caller != SYSTEM_ADDRESS {
        return Err(Unauthorized);
      }
      if next <= epoch {
        return Err(InvalidEpochChange);
      }
      RefreshAccumulators(next);
      inBoundary := false;
      epoch := next;
      r := Ok(());
    }

    // ----- calls ----------------------------------------------------------------

    /** The calls that move stake. */
    method DispatchStakeCall(op: Op) returns (r: Result<()>)
      requires Valid()
      requires op.AddValidator? || op.Delegate? || op.Undelegate? || op.Withdraw? || op.Compound?
      modifies `lastValId, `pools, `secp, `bls, `paid, sets, lists
      ensures Valid()
      ensures Agrees(r, Handle(old(Contents()), op), Contents())
    {
      match op
      case AddValidator(auth, blsKey, signedStake, commission, value) =>
        r := HandleAddValidator(auth, blsKey, signedStake, commission, value);
      case Delegate(v, caller, value) => r := HandleDelegate(v, caller, value);
      case Undelegate(v, caller, amount, wid) => r := HandleUndelegate(v, caller, amount, wid);
      case Withdraw(v, caller, wid) => r := HandleWithdraw(v, caller, wid);
      case Compound(v, caller) => r := HandleCompound(v, caller);
    }

    method Dispatch(op: Op) returns (r: Result<()>)
      requires Valid()
      modifies `epoch, `inBoundary, `lastValId, `proposer, `pools, `secp, `bls, `paid, sets, lists
      ensures Valid()
      ensures Agrees(r, Handle(old(Contents()), op), Contents())
    {
      match op
      case ClaimRewards(v, caller) => r := HandleClaimRewards(v, caller);
      case ChangeCommission(v, caller, commission) => r := HandleChangeCommission(v, caller, commission);
      case ExternalReward(v, value) => r := HandleExternalReward(v, value);
      case GetDelegator(v, delegator) => r := HandleGetDelegator(v, delegator);
      case SyscallReward(caller, author, reward) => r := HandleSyscallReward(caller, author, reward);
      case SyscallSnapshot(caller) => r := HandleSyscallSnapshot(caller);
      case SyscallOnEpochChange(caller, next) => r := HandleSyscallOnEpochChange(caller, next);
      case _ => r := DispatchStakeCall(op);
    }

    /** The value arrives and the handler runs. */
    method CallWithValue(op: Op) returns (r: Result<()>)
      requires Valid()
      modifies this, sets, lists
      ensures Valid()
      ensures Agrees(r, Outcome(old(Contents()), op), Contents())
    {
      credited := credited + ValueOf(op);
      assert Contents() == Credited(old(Contents()), op);
      r := Dispatch(op);
    }

    /** The words a frame would have to put back. */
    function Saved(): Words
      reads this, sets, lists
    {
      Words(epoch, inBoundary, lastValId, proposer, pools, secp, bls, credited, paid,
            SetWords(sets.execution, sets.bits, sets.consensus, sets.snapshot,
                     sets.consensusView, sets.snapshotView),
            lists.nodes)
    }

    method RestoreSets(w: SetWords)
      modifies sets
      ensures SetWords(sets.execution, sets.bits, sets.consensus, sets.snapshot,
                       sets.consensusView, sets.snapshotView) == w
    {
      sets.Restore(w.execution, w.bits, w.consensus, w.snapshot, w.consensusView, w.snapshotView);
    }

    method Rollback(w: Words, ghost l: Lists)
      modifies this, sets, lists
      ensures Saved() == w && lists.lists == l
    {
      epoch, inBoundary, lastValId, proposer := w.epoch, w.inBoundary, w.lastValId, w.proposer;
      pools, secp, bls, credited, paid := w.pools, w.secp, w.bls, w.credited, w.paid;
      RestoreSets(w.sets);
      lists.Restore(w.nodes, l);
    }

    /** The same words are the same contract. */
    twostate lemma SameWords()
      requires old(Valid()) && Saved() == old(Saved()) && lists.lists == old(lists.lists)
      ensures Valid() && Contents() == old(Contents())
    {}

    /**
     * One call in its frame: the value arrives, the handler runs, and if it
     * fails everything it wrote is rolled back.
     */
    method Execute(op: Op) returns (r: Result<()>)
      requires Valid()
      modifies this, sets, lists
      ensures Valid()
      ensures Contents() == Step(old(Contents()), op)
      ensures if r.Err? then Outcome(old(Contents()), op) == Err(r.error)
              else Outcome(old(Contents()), op) == Ok(Contents())
    {
      var saved := Saved();
      ghost var l := lists.lists;
      r := CallWithValue(op);
      if r.Err? {
        Rollback(saved, l);
        SameWords();
      }
    }
  }
}
