/**
 * How validators are found: by their auth address and their BLS key, from the
 * call that adds them on and for ever; and what of them the rewards go by, from
 * one snapshot to the next.
 */
module StakingIds {
  import opened Checked
  import opened Ledger
  import opened LedgerInvariant
  import opened ValidatorSets
  import opened Staking
  import opened StakingInvariant
  import opened StakingLifecycle
  import opened StakingProgress
  import opened StakingSettlement
  import opened StakingRewards
  import opened StakingMoves

  // ----- what only two calls change -----------------------------------------------

  /** The lookups, the views and the auth addresses are as they were. */
  ghost predicate SameIds(s: State, s': State) {
    && s'.secp == s.secp && s'.bls == s.bls && s'.lastValId == s.lastValId
    && s'.sets.consensusView == s.sets.consensusView && s'.sets.snapshotView == s.sets.snapshotView
    && forall v: ValId :: PoolOf(s', v).val.auth == PoolOf(s, v).val.auth
  }

  /** As before, except that one pool has been replaced. */
  lemma OnePoolIds(s: State, v: ValId, p: Pool, s': State)
    requires s'.pools == s.pools[v := p] && p.val.auth == PoolOf(s, v).val.auth
    requires s'.secp == s.secp && s'.bls == s.bls && s'.lastValId == s.lastValId
    requires s'.sets.consensusView == s.sets.consensusView && s'.sets.snapshotView == s.sets.snapshotView
    ensures SameIds(s, s')
  {}

  lemma PulledIds(s: State, v: ValId, a: Address, g: Pool)
    requires AllBooks(s) && Pull(PoolOf(s, v), s.epoch, a) == Ok(g)
    ensures g.val.auth == PoolOf(s, v).val.auth
  {
    assert Books(PoolOf(s, v), s.epoch, s.inBoundary);
    PullKeepsBooks(PoolOf(s, v), s.epoch, s.inBoundary, a, g);
  }

  lemma EnlistedIds(s: State, v: ValId, a: Address, amount: nat, s': State) returns (p: Pool)
    requires InternalDelegate(s, v, a, amount) == Ok(s')
    ensures Ledger.Delegate(PoolOf(s, v), s.epoch, s.inBoundary, a, amount) == Ok(p)
    ensures s'.pools == s.pools[v := p]
    ensures s'.secp == s.secp && s'.bls == s.bls && s'.lastValId == s.lastValId
    ensures s'.sets.consensusView == s.sets.consensusView && s'.sets.snapshotView == s.sets.snapshotView
  {
    p := Ledger.Delegate(PoolOf(s, v), s.epoch, s.inBoundary, a, amount).value;
  }

  lemma DelegatedAuth(p: Pool, epoch: Epoch, inBoundary: bool, a: Address, amount: nat, p': Pool)
    requires Books(p, epoch, inBoundary) && amount > 0
    requires Ledger.Delegate(p, epoch, inBoundary, a, amount) == Ok(p')
    ensures p'.val.auth == p.val.auth
  {
    GrownPool(p, epoch, inBoundary, a, amount, p');
  }

  lemma DelegatedIds(s: State, v: ValId, a: Address, amount: nat, s': State)
    requires AllBooks(s) && amount > 0 && InternalDelegate(s, v, a, amount) == Ok(s')
    ensures SameIds(s, s')
  {
    assert Books(PoolOf(s, v), s.epoch, s.inBoundary);
    var p := EnlistedIds(s, v, a, amount, s');
    DelegatedAuth(PoolOf(s, v), s.epoch, s.inBoundary, a, amount, p);
    OnePoolIds(s, v, p, s');
  }

  lemma UndelegatedIds(s: State, v: ValId, a: Address, amount: nat, wid: nat, s': State)
    requires AllBooks(s) && HandleUndelegate(s, v, a, amount, wid) == Ok(s')
    ensures SameIds(s, s')
  {
    if amount != 0 {
      assert Books(PoolOf(s, v), s.epoch, s.inBoundary);
      var p := HandleUndelegateSteps(s, v, a, amount, wid, s');
      var taken := ShrunkPool(PoolOf(s, v), s.epoch, s.inBoundary, a, amount, wid, p);
      OnePoolIds(s, v, p, s');
    }
  }

  lemma CompoundedIds(s: State, v: ValId, a: Address, s': State)
    requires Sound(s) && HandleCompound(s, v, a) == Ok(s')
    ensures SameIds(s, s')
  {
    var g := CompoundedPool(s, v, a, s');
    PulledIds(s, v, a, g);
    if g.dels[a].rewards == 0 {
      OnePoolIds(s, v, g, s');
    } else {
      var s1 := WithPool(s, v, ClearRewards(g, a));
      PulledAndCleared(s, v, a, g, s1);
      OnePoolIds(s, v, ClearRewards(g, a), s1);
      DelegatedIds(s1, v, a, g.dels[a].rewards, s');
    }
  }

  lemma ClaimedIds(s: State, v: ValId, a: Address, s': State)
    requires AllBooks(s) && HandleClaimRewards(s, v, a) == Ok(s')
    ensures SameIds(s, s')
  {
    var g := ClaimSettles(s, v, a, s');
    PulledIds(s, v, a, g);
    OnePoolIds(s, v, ClearRewards(g, a), s');
  }

  lemma WithdrawnIds(s: State, v: ValId, a: Address, wid: nat, s': State)
    requires HandleWithdraw(s, v, a, wid) == Ok(s')
    ensures SameIds(s, s')
  {
    var p, rewards := WithdrawSteps(s, v, a, wid, s');
    OnePoolIds(s, v, p, s');
  }

  lemma EpochChangeIds(s: State, caller: Address, next: Epoch, s': State)
    requires HandleSyscallOnEpochChange(s, caller, next) == Ok(s')
    ensures SameIds(s, s')
  {
    forall v: ValId
      ensures PoolOf(s', v).val.auth == PoolOf(s, v).val.auth
    {
      FrozenPool(s, next, v);
    }
  }

  lemma BlockRewardIds(s: State, caller: Address, author: Address, reward: nat, s': State)
    requires IdsKnown(s) && HandleSyscallReward(s, caller, author, reward) == Ok(s')
    ensures SameIds(s, s')
  {
    var v, p := SyscallRewardSteps(s, caller, author, reward, s');
    var commission, shared, p1 :=
      BlockRewardSteps(PoolOf(s, v), reward, ActiveView(s, v).commission, ActiveView(s, v).stake, p);
    OnePoolIds(s, v, p, s');
  }

  lemma StakeCallIds(s: State, op: Op, s': State)
    requires Sound(s) && Handle(s, op) == Ok(s')
    requires op.Delegate? || op.Undelegate? || op.Withdraw? || op.Compound? || op.ClaimRewards?
    ensures SameIds(s, s')
  {
    match op
    case Delegate(v, a, value) =>
      if value != 0 {
        DelegatedIds(s, v, a, value, s');
      }
    case Undelegate(v, a, amount, wid) => UndelegatedIds(s, v, a, amount, wid, s');
    case Withdraw(v, a, wid) => WithdrawnIds(s, v, a, wid, s');
    case Compound(v, a) => CompoundedIds(s, v, a, s');
    case ClaimRewards(v, a) => ClaimedIds(s, v, a, s');
  }

  lemma OtherCallIds(s: State, op: Op, s': State)
    requires Sound(s) && Handle(s, op) == Ok(s') && !op.AddValidator? && !op.SyscallSnapshot?
    ensures SameIds(s, s')
  {
    match op
    case ChangeCommission(v, _, _) => OnePoolIds(s, v, PoolOf(s', v), s');
    case ExternalReward(v, _) => OnePoolIds(s, v, PoolOf(s', v), s');
    case GetDelegator(v, a) =>
      PulledIds(s, v, a, PoolOf(s', v));
      OnePoolIds(s, v, PoolOf(s', v), s');
    case SyscallReward(caller, author, reward) => BlockRewardIds(s, caller, author, reward, s');
    case SyscallOnEpochChange(caller, next) => EpochChangeIds(s, caller, next, s');
    case _ => StakeCallIds(s, op, s');
  }

  lemma StepKeepsIds(s: State, op: Op, s': State)
    requires Sound(s) && s' == Step(s, op)
    requires (op.AddValidator? || op.SyscallSnapshot?) ==> Outcome(s, op).Err?
    ensures SameIds(s, s')
  {
    if Outcome(s, op) == Ok(s') {
      CreditSound(s, op);
      OtherCallIds(Credited(s, op), op, s');
      assert forall v: ValId :: PoolOf(Credited(s, op), v) == PoolOf(s, v);
    }
  }

  // ----- a validator is added --------------------------------------------------------

  /** Validator `v` is the one to be found under `auth` and `blsKey`, and `auth` is who runs it. */
  predicate FoundAt(s: State, v: ValId, auth: Address, blsKey: Address) {
    && v != 0 && Known(s, v)
    && IdAt(s.secp, auth) == v && IdAt(s.bls, blsKey) == v
    && PoolOf(s, v).val.auth == auth
  }

  /** Every lookup but those of the two keys gives what it gave. */
  ghost predicate OtherLookupsSame(s: State, s': State, auth: Address, blsKey: Address) {
    && (forall a: Address :: a != auth ==> IdAt(s'.secp, a) == IdAt(s.secp, a))
    && (forall b: Address :: b != blsKey ==> IdAt(s'.bls, b) == IdAt(s.bls, b))
  }

  /** What the call that adds a validator does to the lookups. */
  ghost predicate NewlyFound(s: State, s': State, auth: Address, blsKey: Address) {
    && IdAt(s.secp, auth) == 0 && IdAt(s.bls, blsKey) == 0
    && s'.lastValId == s.lastValId + 1 && FoundAt(s', s'.lastValId, auth, blsKey)
    && OtherLookupsSame(s, s', auth, blsKey)
    && (forall v: ValId :: v != s'.lastValId ==> PoolOf(s', v).val.auth == PoolOf(s, v).val.auth)
    && s'.sets.consensusView == s.sets.consensusView && s'.sets.snapshotView == s.sets.snapshotView
  }

  lemma RegisteredIsFound(s: State, auth: Address, blsKey: Address, commission: nat, s': State)
    requires IdAt(s.secp, auth) == 0 && IdAt(s.bls, blsKey) == 0
    requires s' == Registered(s, auth, blsKey, commission)
    ensures NewlyFound(s, s', auth, blsKey)
  {}

  lemma ThenSameIds(s: State, s1: State, s': State, auth: Address, blsKey: Address)
    requires NewlyFound(s, s1, auth, blsKey) && SameIds(s1, s')
    ensures NewlyFound(s, s', auth, blsKey)
  {}

  lemma AddValidatorFinds(
    s: State, auth: Address, blsKey: Address, signedStake: nat, commission: nat, value: nat, s': State)
    requires Sound(s) && HandleAddValidator(s, auth, blsKey, signedStake, commission, value) == Ok(s')
    ensures NewlyFound(s, s', auth, blsKey)
  {
    var s1 := Registered(s, auth, blsKey, commission);
    AddValidatorSteps(s, auth, blsKey, signedStake, commission, value, s');
    RegisteredSound(s, auth, blsKey, commission, s1);
    RegisteredIsFound(s, auth, blsKey, commission, s1);
    DelegatedIds(s1, s1.lastValId, auth, value, s');
    ThenSameIds(s, s1, s', auth, blsKey);
  }

  lemma ValueFindsNothing(s: State, c: State, s': State, auth: Address, blsKey: Address)
    requires c == s.(credited := c.credited) && NewlyFound(c, s', auth, blsKey)
    ensures NewlyFound(s, s', auth, blsKey)
  {
    assert forall v: ValId :: PoolOf(c, v) == PoolOf(s, v);
  }

  /**
   * Adding a validator: neither key was in use, both now lead to the next id,
   * and everything that could be found before still can.
   */
  lemma AddedIsFound(s: State, op: Op, s': State)
    requires Sound(s) && op.AddValidator? && Outcome(s, op) == Ok(s')
    ensures NewlyFound(s, s', op.auth, op.blsKey)
  {
    var c := Credited(s, op);
    CreditSound(s, op);
    AddValidatorFinds(c, op.auth, op.blsKey, op.signedStake, op.commission, op.value, s');
    ValueFindsNothing(s, c, s', op.auth, op.blsKey);
  }

  /** A new validator starts with its commission and with the value it brought, which is stake of its auth address. */
  ghost predicate Started(p: Pool, p': Pool, epoch: Epoch, inBoundary: bool, auth: Address, commission: nat, value: nat)
  {
    && p'.val.auth == auth && p'.val.commission == commission && p'.val.stake == value
    && p'.val.acc == 0 && p'.val.unclaimed == 0
    && EarnsMore(p, p', auth, epoch, if inBoundary then epoch + 2 else epoch + 1, value)
    && OnlyRecord(p, p', auth) && p'.wds == p.wds
  }

  lemma DelegatedStarts(
    p: Pool, p1: Pool, g: Pool, p': Pool, epoch: Epoch, inBoundary: bool, auth: Address, commission: nat, value: nat)
    requires p1 == p.(val := NewValidator(auth, commission))
    requires Delegated(p1, g, p', epoch, inBoundary, auth, value) && g.val.unclaimed <= p1.val.unclaimed
    requires p'.val.auth == p1.val.auth && p'.val.commission == p1.val.commission
    ensures Started(p, p', epoch, inBoundary, auth, commission, value)
  {
    assert forall e: Epoch :: EarningAt(p1, auth, e) == EarningAt(p, auth, e);
  }

  lemma PoolStarts(
    p: Pool, p1: Pool, epoch: Epoch, inBoundary: bool, auth: Address, commission: nat, value: nat, p': Pool)
    requires p1 == p.(val := NewValidator(auth, commission)) && Books(p1, epoch, inBoundary) && value > 0
    requires Ledger.Delegate(p1, epoch, inBoundary, auth, value) == Ok(p')
    ensures Started(p, p', epoch, inBoundary, auth, commission, value)
  {
    var g := PoolDelegated(p1, epoch, inBoundary, auth, value, p');
    PulledUnclaimed(p1, epoch, inBoundary, auth, g);
    GrownPool(p1, epoch, inBoundary, auth, value, p');
    DelegatedStarts(p, p1, g, p', epoch, inBoundary, auth, commission, value);
  }

  lemma PulledUnclaimed(p: Pool, epoch: Epoch, inBoundary: bool, a: Address, g: Pool)
    requires Books(p, epoch, inBoundary) && Pull(p, epoch, a) == Ok(g)
    ensures g.val.unclaimed <= p.val.unclaimed
  {
    PullKeepsBooks(p, epoch, inBoundary, a, g);
  }

  /** The pool of a new validator before and after its first delegation. */
  ghost predicate AddedPools(
    s: State, p: Pool, p1: Pool, p': Pool, auth: Address, commission: nat, value: nat)
  {
    && p1 == p.(val := NewValidator(auth, commission)) && Books(p1, s.epoch, s.inBoundary) && value > 0
    && Ledger.Delegate(p1, s.epoch, s.inBoundary, auth, value) == Ok(p')
  }

  lemma FirstDelegation(s1: State, v: ValId, auth: Address, value: nat, s': State)
    requires InternalDelegate(s1, v, auth, value) == Ok(s')
    ensures Ledger.Delegate(PoolOf(s1, v), s1.epoch, s1.inBoundary, auth, value) == Ok(PoolOf(s', v))
  {
    var p := EnlistedIds(s1, v, auth, value, s');
  }

  lemma RegisteredPool(s: State, auth: Address, blsKey: Address, commission: nat, s1: State, v: ValId)
    requires Sound(s) && s1 == Registered(s, auth, blsKey, commission) && v == s.lastValId + 1
    ensures PoolOf(s1, v) == PoolOf(s, v).(val := NewValidator(auth, commission))
    ensures Books(PoolOf(s1, v), s.epoch, s.inBoundary) && s1.epoch == s.epoch && s1.inBoundary == s.inBoundary
  {
    RegisteredSound(s, auth, blsKey, commission, s1);
    assert Books(PoolOf(s1, v), s1.epoch, s1.inBoundary);
  }

  lemma AddedPoolsOf(
    s: State, s1: State, v: ValId, auth: Address, commission: nat, value: nat, s': State)
    requires PoolOf(s1, v) == PoolOf(s, v).(val := NewValidator(auth, commission)) && value > 0
    requires Books(PoolOf(s1, v), s.epoch, s.inBoundary) && s1.epoch == s.epoch && s1.inBoundary == s.inBoundary
    requires InternalDelegate(s1, v, auth, value) == Ok(s')
    ensures AddedPools(s, PoolOf(s, v), PoolOf(s1, v), PoolOf(s', v), auth, commission, value)
  {
    FirstDelegation(s1, v, auth, value, s');
  }

  lemma AddValidatorPools(
    s: State, auth: Address, blsKey: Address, signedStake: nat, commission: nat, value: nat, s': State)
    returns (p1: Pool)
    requires Sound(s) && HandleAddValidator(s, auth, blsKey, signedStake, commission, value) == Ok(s')
    ensures AddedPools(s, PoolOf(s, s.lastValId + 1), p1, PoolOf(s', s.lastValId + 1), auth, commission, value)
  {
    var s1, v := Registered(s, auth, blsKey, commission), s.lastValId + 1;
    AddValidatorSteps(s, auth, blsKey, signedStake, commission, value, s');
    RegisteredPool(s, auth, blsKey, commission, s1, v);
    AddedPoolsOf(s, s1, v, auth, commission, value, s');
    p1 := PoolOf(s1, v);
  }

  lemma AddedStartsIn(c: State, op: Op, v: ValId, p: Pool, p': Pool, s': State)
    requires Sound(c) && op.AddValidator? && v == c.lastValId + 1 && p == PoolOf(c, v) && p' == PoolOf(s', v)
    requires HandleAddValidator(c, op.auth, op.blsKey, op.signedStake, op.commission, op.value) == Ok(s')
    ensures Started(p, p', c.epoch, c.inBoundary, op.auth, op.commission, op.value)
  {
    var p1 := AddValidatorPools(c, op.auth, op.blsKey, op.signedStake, op.commission, op.value, s');
    PoolStarts(p, p1, c.epoch, c.inBoundary, op.auth, op.commission, op.value, p');
  }

  /** What a validator starts with. */
  lemma AddedStarts(s: State, op: Op, s': State, v: ValId)
    requires Sound(s) && op.AddValidator? && Outcome(s, op) == Ok(s') && v == s.lastValId + 1
    ensures Started(PoolOf(s, v), PoolOf(s', v), s.epoch, s.inBoundary, op.auth, op.commission, op.value)
  {
    CreditSound(s, op);
    assert PoolOf(Credited(s, op), v) == PoolOf(s, v);
    AddedStartsIn(Credited(s, op), op, v, PoolOf(s, v), PoolOf(s', v), s');
  }

  lemma StepKeepsFound(s: State, op: Op, s': State, v: ValId, auth: Address, blsKey: Address)
    requires Sound(s) && s' == Step(s, op) && FoundAt(s, v, auth, blsKey)
    ensures FoundAt(s', v, auth, blsKey)
  {
    if op.AddValidator? && Outcome(s, op).Ok? {
      AddedIsFound(s, op, s');
    } else if op.SyscallSnapshot? {
      assert forall u: ValId :: PoolOf(s', u) == PoolOf(s, u);
    } else {
      StepKeepsIds(s, op, s');
    }
  }

  lemma {:induction false} FoundForEver(s: State, more: seq<Op>, v: ValId, auth: Address, blsKey: Address)
    requires Sound(s) && FoundAt(s, v, auth, blsKey)
    ensures FoundAt(Run(s, more), v, auth, blsKey)
  {
    if more != [] {
      var n := |more| - 1;
      FoundForEver(s, more[..n], v, auth, blsKey);
      RunKeepsSound(s, more[..n]);
      StepKeepsFound(Run(s, more[..n]), more[n], Run(s, more), v, auth, blsKey);
    }
  }

  // ----- over runs -----------------------------------------------------------------------

  /** The call at position `j` added a validator. */
  predicate Added(ops: seq<Op>, j: nat) {
    j < |ops| && ops[j].AddValidator? && WentThrough(ops, j)
  }

  /** The id that the call at position `j` gives, if it adds a validator. */
  function IdGiven(ops: seq<Op>, j: nat): ValId
    requires j < |ops|
  {
    Run(GENESIS, ops[..j]).lastValId + 1
  }

  lemma {:induction false} RunInTwo(s: State, ops: seq<Op>, j: nat)
    requires j <= |ops|
    ensures Run(Run(s, ops[..j]), ops[j..]) == Run(s, ops)
  {
    if j == |ops| {
      assert ops[..j] == ops && ops[j..] == [];
    } else {
      var n := |ops| - 1;
      RunInTwo(s, ops[..n], j);
      assert ops[..n][..j] == ops[..j] && ops[j..][..n - j] == ops[..n][j..];
    }
  }

  lemma FoundOnceAdded(ops: seq<Op>, j: nat)
    requires Added(ops, j)
    ensures FoundAt(Run(GENESIS, ops[..j + 1]), IdGiven(ops, j), ops[j].auth, ops[j].blsKey)
  {
    assert ops[..j + 1][..j] == ops[..j];
    RunSound(ops[..j]);
    AddedIsFound(Run(GENESIS, ops[..j]), ops[j], Run(GENESIS, ops[..j + 1]));
  }

  /**
   * A validator that was added is found under its auth address and under its
   * BLS key in every later state.
   */
  lemma AddedStaysFound(ops: seq<Op>, j: nat)
    requires Added(ops, j)
    ensures FoundAt(Run(GENESIS, ops), IdGiven(ops, j), ops[j].auth, ops[j].blsKey)
  {
    FoundOnceAdded(ops, j);
    RunSound(ops[..j + 1]);
    FoundForEver(Run(GENESIS, ops[..j + 1]), ops[j + 1..], IdGiven(ops, j), ops[j].auth, ops[j].blsKey);
    RunInTwo(GENESIS, ops, j + 1);
  }

  /** No two validators share a key, or an id. */
  lemma KeysIdentify(ops: seq<Op>, i: nat, j: nat)
    requires i < j && Added(ops, i) && Added(ops, j)
    ensures ops[i].auth != ops[j].auth && ops[i].blsKey != ops[j].blsKey
    ensures IdGiven(ops, i) < IdGiven(ops, j)
  {
    assert ops[..j][..i] == ops[..i] && Added(ops[..j], i);
    AddedStaysFound(ops[..j], i);
    AddedStaysFound(ops, i);
    AddedStaysFound(ops, j);
  }

  /** A key in use is refused, whatever happened since it was registered and whatever the other key is. */
  lemma UsedKeyIsRefused(ops: seq<Op>, j: nat, op: Op)
    requires Added(ops, j) && op.AddValidator?
    requires op.auth == ops[j].auth || op.blsKey == ops[j].blsKey
    requires op.value == op.signedStake && op.value >= MIN_AUTH_ADDRESS_STAKE && op.commission <= MAX_COMMISSION
    ensures Outcome(Run(GENESIS, ops), op) == Err(ValidatorExists)
  {
    AddedStaysFound(ops, j);
  }

  /** The lookup by auth address, or by BLS key. */
  function LookUp(s: State, key: Address, byAuth: bool): ValId {
    IdAt(if byAuth then s.secp else s.bls, key)
  }

  function KeyOf(op: Op, byAuth: bool): Address
    requires op.AddValidator?
  {
    if byAuth then op.auth else op.blsKey
  }

  /** One call: a lookup gives what it gave, or the validator that the call added under that key. */
  lemma LookUpStep(s: State, op: Op, s': State, key: Address, byAuth: bool)
    requires Sound(s) && s' == Step(s, op)
    ensures || LookUp(s', key, byAuth) == LookUp(s, key, byAuth)
            || (&& op.AddValidator? && Outcome(s, op).Ok? && key == KeyOf(op, byAuth)
                && LookUp(s', key, byAuth) == s.lastValId + 1)
  {
    if op.AddValidator? && Outcome(s, op).Ok? {
      AddedIsFound(s, op, s');
    } else if !op.SyscallSnapshot? {
      StepKeepsIds(s, op, s');
    }
  }

  lemma AddedInPrefix(ops: seq<Op>, n: nat, j: nat)
    requires n <= |ops| && Added(ops[..n], j)
    ensures Added(ops, j) && ops[..n][j] == ops[j] && IdGiven(ops, j) == IdGiven(ops[..n], j)
  {
    assert ops[..n][..j] == ops[..j];
  }

  lemma LookUpChanged(ops: seq<Op>, n: nat, key: Address, byAuth: bool)
    requires |ops| == n + 1
    requires LookUp(Run(GENESIS, ops), key, byAuth) != LookUp(Run(GENESIS, ops[..n]), key, byAuth)
    ensures Added(ops, n) && key == KeyOf(ops[n], byAuth)
    ensures LookUp(Run(GENESIS, ops), key, byAuth) == IdGiven(ops, n)
  {
    RunSound(ops[..n]);
    LookUpStep(Run(GENESIS, ops[..n]), ops[n], Run(GENESIS, ops), key, byAuth);
  }

  /** Whatever a lookup finds was added by a call with that key. */
  lemma {:induction false} FoundWasAdded(ops: seq<Op>, key: Address, byAuth: bool) returns (j: nat)
    requires LookUp(Run(GENESIS, ops), key, byAuth) != 0
    ensures Added(ops, j) && key == KeyOf(ops[j], byAuth)
    ensures LookUp(Run(GENESIS, ops), key, byAuth) == IdGiven(ops, j)
  {
    if ops == [] {
      assert false;
    } else {
      var n := |ops| - 1;
      if LookUp(Run(GENESIS, ops), key, byAuth) == LookUp(Run(GENESIS, ops[..n]), key, byAuth) {
        j := FoundWasAdded(ops[..n], key, byAuth);
        AddedInPrefix(ops, n, j);
      } else {
        j := n;
        LookUpChanged(ops, n, key, byAuth);
      }
    }
  }

  /** The whole of a block reward is with validator `v`, the commission with the author who runs it. */
  ghost predicate RewardLands(s: State, s': State, v: ValId, author: Address, reward: nat) {
    var p, p', view := PoolOf(s, v), PoolOf(s', v), ActiveView(s, v);
    && s'.proposer == v && p.val.auth == author
    && Raised(p, p', AfterCommission(reward, view.commission), view.stake)
    && GotRewards(p, p', author, reward * view.commission / MON)
    && forall u: ValId :: u != v ==> PoolOf(s', u) == PoolOf(s, u)
  }

  /**
   * A block reward for an author lands with the validator that was added with
   * that auth address, and with no other.
   */
  lemma AuthorIsRewarded(ops: seq<Op>, s: State, caller: Address, author: Address, reward: nat, s': State)
    returns (j: nat, v: ValId)
    requires s == Run(GENESIS, ops) && Outcome(s, SyscallReward(caller, author, reward)) == Ok(s')
    ensures Added(ops, j) && ops[j].auth == author && v == IdGiven(ops, j)
    ensures RewardLands(s, s', v, author, reward)
  {
    SyscallRewardShares(s, caller, author, reward, s');
    j := FoundWasAdded(ops, author, true);
    AddedStaysFound(ops, j);
    v := IdGiven(ops, j);
  }

  // ----- what rewards go by ------------------------------------------------------------

  /** A snapshot took place: each elected validator is in view with its stake and commission of that moment. */
  ghost predicate InView(b: State, s: State, v: ValId) {
    && ViewOf(s.sets.consensusView, v) == View(PoolOf(b, v).val.stake, PoolOf(b, v).val.commission)
    && s.sets.snapshotView == b.sets.consensusView
  }

  lemma SnapshotTakesViews(s: State, caller: Address, s': State, v: ValId)
    requires Sound(s) && Outcome(s, SyscallSnapshot(caller)) == Ok(s')
    ensures v in s'.sets.consensus ==> InView(s, s', v)
    ensures v !in s'.sets.consensus ==> ViewOf(s'.sets.consensusView, v) == View(0, 0)
    ensures s'.sets.snapshotView == s.sets.consensusView
  {
    assert Credited(s, SyscallSnapshot(caller)) == s;
    SnapshotRebuilds(s, caller, s');
    assert ValOf(s.pools, v) == PoolOf(s, v).val;
  }

  /** The call at position `j` was a snapshot. */
  predicate Snapped(ops: seq<Op>, j: nat) {
    j < |ops| && ops[j].SyscallSnapshot? && WentThrough(ops, j)
  }

  /** The call at position `j` was a snapshot, and none after it was. */
  predicate LastSnapshot(ops: seq<Op>, j: nat)
    decreases |ops|
  {
    j < |ops|
    && var n := |ops| - 1;
       if j == n then Snapped(ops, n) else !Snapped(ops, n) && LastSnapshot(ops[..n], j)
  }

  lemma ViewsKept(ops: seq<Op>, n: nat)
    requires |ops| == n + 1 && !Snapped(ops, n)
    ensures Run(GENESIS, ops).sets.consensusView == Run(GENESIS, ops[..n]).sets.consensusView
    ensures Run(GENESIS, ops).sets.snapshotView == Run(GENESIS, ops[..n]).sets.snapshotView
  {
    RunSound(ops[..n]);
    if Added(ops, n) {
      AddedIsFound(Run(GENESIS, ops[..n]), ops[n], Run(GENESIS, ops));
    } else {
      StepKeepsIds(Run(GENESIS, ops[..n]), ops[n], Run(GENESIS, ops));
    }
  }

  lemma ViewsTaken(ops: seq<Op>, n: nat, v: ValId)
    requires |ops| == n + 1 && Snapped(ops, n) && ViewOf(Run(GENESIS, ops).sets.consensusView, v) != View(0, 0)
    ensures LastSnapshot(ops, n) && InView(Run(GENESIS, ops[..n]), Run(GENESIS, ops), v)
  {
    RunSound(ops[..n]);
    SnapshotTakesViews(Run(GENESIS, ops[..n]), ops[n].caller, Run(GENESIS, ops), v);
  }

  /**
   * What rewards go by, over every run: the stake and the commission in view
   * are those the validator had at the last snapshot, and the other view is
   * the one from before it.  No call between two snapshots moves either.
   */
  lemma {:induction false} ViewsInForce(ops: seq<Op>, v: ValId) returns (j: nat)
    requires ViewOf(Run(GENESIS, ops).sets.consensusView, v) != View(0, 0)
    ensures LastSnapshot(ops, j) && InView(Run(GENESIS, ops[..j]), Run(GENESIS, ops), v)
  {
    if ops == [] {
      assert false;
    } else {
      var n := |ops| - 1;
      if Snapped(ops, n) {
        j := n;
        ViewsTaken(ops, n, v);
      } else {
        ViewsKept(ops, n);
        j := ViewsInForce(ops[..n], v);
        assert ops[..n][..j] == ops[..j];
      }
    }
  }
}
