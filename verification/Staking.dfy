/**
 * The staking contract as a state machine: one operation per handler.  An
 * operation that returns an error leaves the state as it was, because the
 * frame that made the call is rolled back.
 */
module Staking {
  import opened Checked
  import opened Ledger
  import opened ValidatorSets
  import opened TwinLists

  const SYSTEM_ADDRESS: Address := 0x6f49_a8F6_2135_3f12_378d_0046_E7d7_e4b9_B249_Dc9e

  /** `credited` and `paid` are all value ever received or minted, and all value ever sent. */
  datatype State = State(
    epoch: Epoch, inBoundary: bool, lastValId: nat, proposer: ValId,
    pools: Pools, secp: map<Address, ValId>, bls: map<Address, ValId>,
    sets: Sets, lists: Lists, credited: nat, paid: nat)

  const GENESIS: State := State(0, false, 0, 0, map[], map[], map[], NO_SETS, NO_LISTS, 0, 0)

  datatype Op =
    | AddValidator(auth: Address, blsKey: Address, signedStake: nat, commission: nat, value: nat)
    | Delegate(v: ValId, caller: Address, value: nat)
    | Undelegate(v: ValId, caller: Address, amount: nat, wid: nat)
    | Withdraw(v: ValId, caller: Address, wid: nat)
    | Compound(v: ValId, caller: Address)
    | ClaimRewards(v: ValId, caller: Address)
    | ChangeCommission(v: ValId, caller: Address, commission: nat)
    | ExternalReward(v: ValId, value: nat)
    | GetDelegator(v: ValId, delegator: Address)
    | SyscallReward(caller: Address, author: Address, reward: nat)
    | SyscallSnapshot(caller: Address)
    | SyscallOnEpochChange(caller: Address, next: Epoch)

  /** The value an operation brings: sent with the call, or minted for a block reward. */
  function ValueOf(op: Op): nat {
    match op
    case AddValidator(_, _, _, _, value) => value
    case Delegate(_, _, value) => value
    case ExternalReward(_, value) => value
    case SyscallReward(_, _, reward) => reward
    case _ => 0
  }

  // ----- reads ------------------------------------------------------------

  function PoolOf(s: State, v: ValId): Pool {
    if v in s.pools then s.pools[v] else EMPTY_POOL
  }

  function WithPool(s: State, v: ValId, p: Pool): State {
    s.(pools := s.pools[v := p])
  }

  function IdAt(m: map<Address, ValId>, a: Address): ValId {
    if a in m then m[a] else 0
  }

  /** The view the rewards of this moment are divided by. */
  function ActiveView(s: State, v: ValId): View {
    ViewOf(if s.inBoundary then s.sets.snapshotView else s.sets.consensusView, v)
  }

  /** Sends `amount` out of the contract. */
  function Transfer(s: State, amount: nat): Result<State> {
    if s.credited < s.paid + amount then Err(TransferFailed)
    else Ok(s.(paid := s.paid + amount))
  }

  // ----- handlers ---------------------------------------------------------

  /** `internal_delegate` past its ledger part: the sets, then the lists. */
  function Enlist(s: State, v: ValId, a: Address): Result<State> {
    var sets := if PoolOf(s, v).val.flags == OK then AddToExecution(s.sets, v) else s.sets;
    var lists :- Insert(s.lists, v, a);
    Ok(s.(sets := sets, lists := lists))
  }

  function InternalDelegate(s: State, v: ValId, a: Address, amount: nat): Result<State> {
    var p :- Ledger.Delegate(PoolOf(s, v), s.epoch, s.inBoundary, a, amount);
    Enlist(WithPool(s, v, p), v, a)
  }

  function HandleDelegate(s: State, v: ValId, caller: Address, value: nat): Result<State> {
    if !Exists(PoolOf(s, v).val) then Err(UnknownValidator)
    else if value == 0 then Ok(s)
    else if value < DUST_THRESHOLD then Err(DelegationTooSmall)
    else InternalDelegate(s, v, caller, value)
  }

  function HandleUndelegate(s: State, v: ValId, caller: Address, amount: nat, wid: nat): Result<State> {
    if amount == 0 then Ok(s)
    else if !Exists(PoolOf(s, v).val) then Err(UnknownValidator)
    else
      var p :- Ledger.Undelegate(PoolOf(s, v), s.epoch, s.inBoundary, caller, amount, wid);
      var s1 := WithPool(s, v, p);
      if caller in p.dels && p.dels[caller].Exists() then Ok(s1)
      else Ok(s1.(lists := Remove(s1.lists, v, caller)))
  }

  function HandleWithdraw(s: State, v: ValId, caller: Address, wid: nat): Result<State> {
    var (p, payout) :- Ledger.Withdraw(PoolOf(s, v), s.epoch, caller, wid);
    Transfer(WithPool(s, v, p), payout)
  }

  function HandleClaimRewards(s: State, v: ValId, caller: Address): Result<State> {
    var p :- Pull(PoolOf(s, v), s.epoch, caller);
    var rewards := p.dels[caller].rewards;
    if rewards == 0 then Ok(WithPool(s, v, p))
    else Transfer(WithPool(s, v, ClearRewards(p, caller)), rewards)
  }

  function HandleCompound(s: State, v: ValId, caller: Address): Result<State> {
    var p :- Pull(PoolOf(s, v), s.epoch, caller);
    var rewards := p.dels[caller].rewards;
    if rewards == 0 then Ok(WithPool(s, v, p))
    else InternalDelegate(WithPool(s, v, ClearRewards(p, caller)), v, caller, rewards)
  }

  function HandleChangeCommission(s: State, v: ValId, caller: Address, commission: nat): Result<State> {
    var p := PoolOf(s, v);
    if !Exists(p.val) then Err(UnknownValidator)
    else if caller != p.val.auth then Err(RequiresAuthAddress)
    else if commission > MAX_COMMISSION then Err(CommissionTooHigh)
    else Ok(WithPool(s, v, p.(val := p.val.(commission := commission))))
  }

  function HandleExternalReward(s: State, v: ValId, value: nat): Result<State> {
    var p := PoolOf(s, v);
    var active := ActiveView(s, v).stake;
    if !Exists(p.val) then Err(UnknownValidator)
    else if active == 0 then Err(NotInValidatorSet)
    else if value < MIN_EXTERNAL_REWARD then Err(ExternalRewardTooSmall)
    else if value > MAX_EXTERNAL_REWARD then Err(ExternalRewardTooLarge)
    else
      var p1 :- Distribute(p, value, active);
      Ok(WithPool(s, v, p1))
  }

  function HandleGetDelegator(s: State, v: ValId, delegator: Address): Result<State> {
    var p :- Pull(PoolOf(s, v), s.epoch, delegator);
    Ok(WithPool(s, v, p))
  }

  /** A new validator starts without stake and flagged for it. */
  function NewValidator(auth: Address, commission: nat): Validator {
    Validator(0, 0, commission, auth, Flags(true, false, false), 0)
  }

  /** The state in which a new validator has its id and its record, but no stake yet. */
  function Registered(s: State, auth: Address, blsKey: Address, commission: nat): State {
    var v := s.lastValId + 1;
    WithPool(s.(lastValId := v, secp := s.secp[auth := v], bls := s.bls[blsKey := v]), v,
             PoolOf(s, v).(val := NewValidator(auth, commission)))
  }

  /** The id of a new validator, if it may be added. */
  function NewValidatorId(
    s: State, auth: Address, blsKey: Address, signedStake: nat, commission: nat, value: nat): Result<ValId>
  {
    if value != signedStake then Err(InvalidInput)
    else if value < MIN_AUTH_ADDRESS_STAKE then Err(InsufficientStake)
    else if commission > MAX_COMMISSION then Err(CommissionTooHigh)
    else if IdAt(s.secp, auth) != 0 then Err(ValidatorExists)
    else if IdAt(s.bls, blsKey) != 0 then Err(ValidatorExists)
    else Ok(s.lastValId + 1)
  }

  function HandleAddValidator(
    s: State, auth: Address, blsKey: Address, signedStake: nat, commission: nat, value: nat): Result<State>
  {
    var v :- NewValidatorId(s, auth, blsKey, signedStake, commission, value);
    InternalDelegate(Registered(s, auth, blsKey, commission), v, auth, value)
  }

  function HandleSyscallReward(s: State, caller: Address, author: Address, reward: nat): Result<State> {
    if caller != SYSTEM_ADDRESS then Err(Unauthorized)
    else
      var v := IdAt(s.secp, author);
      var view := ActiveView(s, v);
      if v == 0 then Err(NotInValidatorSet)
      else if view.stake == 0 then Err(NotInValidatorSet)
      else
        var p :- BlockReward(PoolOf(s, v), reward, view.commission, view.stake);
        Ok(WithPool(s, v, p).(proposer := v))
  }

  function HandleSyscallSnapshot(s: State, caller: Address): Result<State> {
    if caller != SYSTEM_ADDRESS then Err(Unauthorized)
    else if s.inBoundary then Err(SnapshotInBoundary)
    else Ok(s.(inBoundary := true, sets := TakeSnapshot(s.sets, s.pools)))
  }

  /** The snapshot validators' accumulators are written into the snapshots about to come into force. */
  function FreezeAll(pools: Pools, snapshot: seq<ValId>, next: Epoch): Pools {
    map v | v in pools :: if v in snapshot then Freeze(pools[v], next) else pools[v]
  }

  function HandleSyscallOnEpochChange(s: State, caller: Address, next: Epoch): Result<State> {
    if caller != SYSTEM_ADDRESS then Err(Unauthorized)
    else if next <= s.epoch then Err(InvalidEpochChange)
    else Ok(s.(pools := FreezeAll(s.pools, s.sets.snapshot, next), inBoundary := false, epoch := next))
  }

  function Handle(s: State, op: Op): Result<State> {
    match op
    case AddValidator(auth, blsKey, signedStake, commission, value) =>
      HandleAddValidator(s, auth, blsKey, signedStake, commission, value)
    case Delegate(v, caller, value) => HandleDelegate(s, v, caller, value)
    case Undelegate(v, caller, amount, wid) => HandleUndelegate(s, v, caller, amount, wid)
    case Withdraw(v, caller, wid) => HandleWithdraw(s, v, caller, wid)
    case Compound(v, caller) => HandleCompound(s, v, caller)
    case ClaimRewards(v, caller) => HandleClaimRewards(s, v, caller)
    case ChangeCommission(v, caller, commission) => HandleChangeCommission(s, v, caller, commission)
    case ExternalReward(v, value) => HandleExternalReward(s, v, value)
    case GetDelegator(v, delegator) => HandleGetDelegator(s, v, delegator)
    case SyscallReward(caller, author, reward) => HandleSyscallReward(s, caller, author, reward)
    case SyscallSnapshot(caller) => HandleSyscallSnapshot(s, caller)
    case SyscallOnEpochChange(caller, next) => HandleSyscallOnEpochChange(s, caller, next)
  }

  /** The state once the value of a call has arrived. */
  function Credited(s: State, op: Op): State {
    s.(credited := s.credited + ValueOf(op))
  }

  /** The outcome of a call: its value arrives first, and goes back if the handler fails. */
  function Outcome(s: State, op: Op): Result<State> {
    Handle(Credited(s, op), op)
  }

  function Step(s: State, op: Op): State {
    var r := Outcome(s, op);
    if r.Ok? then r.value else s
  }

  /** The state after a run. */
  function Run(s: State, ops: seq<Op>): State {
    if ops == [] then s else Step(Run(s, ops[..|ops| - 1]), ops[|ops| - 1])
  }

  /** The documented lifecycle: the epoch, when it changes, does so inside a boundary, to the next one. */
  predicate InLifecycle(s: State, op: Op) {
    op.SyscallOnEpochChange? && Outcome(s, op).Ok? ==> s.inBoundary && op.next == s.epoch + 1
  }

  predicate LifecycleRun(s: State, ops: seq<Op>) {
    ops == []
    || (LifecycleRun(s, ops[..|ops| - 1]) && InLifecycle(Run(s, ops[..|ops| - 1]), ops[|ops| - 1]))
  }
}
