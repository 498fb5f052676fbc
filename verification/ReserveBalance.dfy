/**
 * The reserve-balance rule of a transaction, evaluated from scratch, and the
 * cache that is meant to agree with it.
 */
module ReserveBalance {
  import opened Ledger

  const STAKING_ADDRESS: Address := 0x1000

  datatype Option<T> = None | Some(value: T)

  /** The code of an account: none, an EIP-7702 delegation, or a contract. */
  datatype Code = Empty | Delegated | Contract

  /** What the tracker reads of an account; `original` is as of the start of the transaction. */
  datatype Account = Account(
    balance: nat, nonce: nat, code: Code, created: bool, destroyed: bool,
    original: nat, originalCode: Code)

  type EvmState = map<Address, Account>

  /** The forks in order of activation. */
  datatype Fork = MonadEight | MonadNine | MonadNext {
    function Number(): nat {
      match this
      case MonadEight => 100
      case MonadNine => 101
      case MonadNext => 102
    }

    predicate IsEnabledIn(active: Fork) {
      Number() <= active.Number()
    }
  }

  /** What `init` fixes for the transaction. */
  datatype Policy = Policy(fork: Fork, maxReserve: nat, sender: Address, gasFees: nat, senderCanDip: bool) {
    /** `use_recent_code_hash`: so it is in every fork there is. */
    predicate RecentCode() {
      MonadEight.IsEnabledIn(fork)
    }

    /** `allow_init_selfdestruct_exemption`. */
    predicate Exemption() {
      MonadNine.IsEnabledIn(fork)
    }
  }

  // ----- the rule -------------------------------------------------------------

  predicate Subject(policy: Policy, acc: Account, a: Address) {
    && a != STAKING_ADDRESS
    && var effective := if policy.RecentCode() then acc.code else acc.originalCode;
       effective == Empty || acc.code == Delegated
  }

  function PretxReserve(policy: Policy, acc: Account): nat {
    if policy.maxReserve <= acc.original then policy.maxReserve else acc.original
  }

  /** The balance a subject account must keep; none at all if even that cannot save it. */
  function ReserveOf(policy: Policy, acc: Account, a: Address): Option<nat> {
    var reserve := PretxReserve(policy, acc);
    if a == policy.sender then
      if policy.senderCanDip then Some(0)
      else if reserve < policy.gasFees then None
      else Some(reserve - policy.gasFees)
    else Some(reserve)
  }

  /** `compute_violation_threshold`. */
  function Threshold(policy: Policy, acc: Account, a: Address): Option<nat> {
    if Subject(policy, acc, a) then ReserveOf(policy, acc, a) else Some(0)
  }

  predicate Below(balance: nat, threshold: Option<nat>) {
    threshold.Some? ==> threshold.value != 0 && balance < threshold.value
  }

  /** A contract that is created and destroyed in one transaction owes no reserve. */
  predicate Exempt(policy: Policy, acc: Account) {
    policy.Exemption() && acc.destroyed && acc.created
  }

  predicate Violating(policy: Policy, acc: Account, a: Address) {
    !Exempt(policy, acc) && Below(acc.balance, Threshold(policy, acc, a))
  }

  /**
   * The rule in the words of its documentation.  Whoever has no code, or a
   * delegation for code, must not fall below what it had at the start or below
   * the reserve, whichever is less; a sender that may not dip must not do so
   * even with its gas fees added back, and fees beyond either violate at once.
   */
  lemma ViolatingMeans(policy: Policy, acc: Account, a: Address)
    ensures Violating(policy, acc, a) <==>
            && a != 0x1000 && (acc.code == Empty || acc.code == Delegated)
            && !(policy.fork != MonadEight && acc.created && acc.destroyed)
            && (if a != policy.sender then acc.balance < policy.maxReserve && acc.balance < acc.original
                else
                  && !policy.senderCanDip
                  && (|| policy.gasFees > policy.maxReserve || policy.gasFees > acc.original
                      || (acc.balance + policy.gasFees < policy.maxReserve
                          && acc.balance + policy.gasFees < acc.original)))
  {}

  lemma FreshComplies(policy: Policy, acc: Account, a: Address)
    requires acc.original <= acc.balance && a != policy.sender
    ensures !Violating(policy, acc, a)
  {}

  // ----- the cache ------------------------------------------------------------

  datatype Cache = Cache(thresholds: map<Address, Option<nat>>, failed: set<Address>)

  const NO_CACHE: Cache := Cache(map[], {})

  /** `update_loaded_account`. */
  function Update(policy: Policy, c: Cache, account: Option<Account>, a: Address): Cache {
    match account
    case None => Cache(c.thresholds - {a}, c.failed - {a})
    case Some(acc) =>
      if Exempt(policy, acc) then Cache(c.thresholds[a := Some(0)], c.failed - {a})
      else
        var threshold := if a in c.thresholds then c.thresholds[a] else Threshold(policy, acc, a);
        Cache(c.thresholds[a := threshold],
              if Below(acc.balance, threshold) then c.failed + {a} else c.failed - {a})
  }

  function OnCredit(policy: Policy, c: Cache, account: Option<Account>, a: Address): Cache {
    if a in c.failed then Update(policy, c, account, a) else c
  }

  function OnSetCode(policy: Policy, c: Cache, account: Option<Account>, a: Address, code: Code): Cache {
    if !policy.RecentCode() then c
    else if code == Contract then Cache(c.thresholds[a := Some(0)], c.failed - {a})
    else Update(policy, Cache(c.thresholds - {a}, c.failed), account, a)
  }

  function Lookup(state: EvmState, a: Address): Option<Account> {
    if a in state then Some(state[a]) else None
  }

  /** Every address that a reverted entry names is evaluated again. */
  function OnRevert(policy: Policy, c: Cache, addresses: seq<Address>, state: EvmState): Cache {
    if addresses == [] then c
    else
      var a := addresses[|addresses| - 1];
      var before := OnRevert(policy, c, addresses[..|addresses| - 1], state);
      Update(policy, Cache(before.thresholds - {a}, before.failed), Lookup(state, a), a)
  }

  // ----- agreement ------------------------------------------------------------

  predicate FailedAt(policy: Policy, state: EvmState, c: Cache, a: Address) {
    a in c.failed <==> a in state && Violating(policy, state[a], a)
  }

  predicate ThresholdAt(policy: Policy, state: EvmState, c: Cache, a: Address) {
    a in c.thresholds ==>
      a in state && (Exempt(policy, state[a]) || c.thresholds[a] == Threshold(policy, state[a], a))
  }

  /** What the cache says about `a` is what the rule says. */
  predicate ExactAt(policy: Policy, state: EvmState, c: Cache, a: Address) {
    FailedAt(policy, state, c, a) && ThresholdAt(policy, state, c, a)
  }

  ghost predicate Exact(policy: Policy, state: EvmState, c: Cache) {
    forall a: Address :: ExactAt(policy, state, c, a)
  }

  lemma UpdateExact(policy: Policy, state: EvmState, c: Cache, a: Address)
    requires ThresholdAt(policy, state, c, a)
    ensures ExactAt(policy, state, Update(policy, c, Lookup(state, a), a), a)
  {}

  lemma UpdateElsewhere(policy: Policy, state: EvmState, c: Cache, account: Option<Account>, a: Address, b: Address)
    requires a != b && ExactAt(policy, state, c, b)
    ensures ExactAt(policy, state, Update(policy, c, account, a), b)
  {}

  /** A change of state that the cache need not hear about. */
  predicate Unnoticed(policy: Policy, state: EvmState, state': EvmState, a: Address) {
    && (a in state' && Violating(policy, state'[a], a) <==> a in state && Violating(policy, state[a], a))
    && (a in state ==>
          && a in state'
          && Threshold(policy, state'[a], a) == Threshold(policy, state[a], a)
          && (Exempt(policy, state[a]) ==> Exempt(policy, state'[a])))
  }

  lemma UnnoticedExact(policy: Policy, state: EvmState, state': EvmState, c: Cache, a: Address)
    requires ExactAt(policy, state, c, a) && Unnoticed(policy, state, state', a)
    ensures ExactAt(policy, state', c, a)
  {}

  /** A debit is always evaluated; the threshold it uses is cached but still right. */
  lemma DebitExact(policy: Policy, state: EvmState, state': EvmState, c: Cache, a: Address)
    requires ExactAt(policy, state, c, a) && a in state && a in state'
    requires Threshold(policy, state'[a], a) == Threshold(policy, state[a], a)
    requires Exempt(policy, state[a]) ==> Exempt(policy, state'[a])
    ensures ExactAt(policy, state', Update(policy, c, Lookup(state', a), a), a)
  {
    UpdateExact(policy, state', c, a);
  }

  /** The fast path: a credit to an account that is not failing may be skipped. */
  lemma CreditExact(policy: Policy, state: EvmState, state': EvmState, c: Cache, a: Address)
    requires ExactAt(policy, state, c, a) && a in state && a in state'
    requires Threshold(policy, state'[a], a) == Threshold(policy, state[a], a)
    requires Exempt(policy, state[a]) ==> Exempt(policy, state'[a])
    requires state[a].balance <= state'[a].balance
    ensures ExactAt(policy, state', OnCredit(policy, c, Lookup(state', a), a), a)
  {}

  lemma SetCodeExact(policy: Policy, state: EvmState, state': EvmState, c: Cache, a: Address, code: Code)
    requires ExactAt(policy, state, c, a) && a in state && state' == state[a := state[a].(code := code)]
    ensures ExactAt(policy, state', OnSetCode(policy, c, Lookup(state', a), a, code), a)
  {}

  /** Whatever a revert did to the accounts it names, the cache follows. */
  lemma {:induction false} RevertExact(
    policy: Policy, state: EvmState, c: Cache, addresses: seq<Address>, a: Address)
    requires a !in addresses ==> ExactAt(policy, state, c, a)
    ensures ExactAt(policy, state, OnRevert(policy, c, addresses, state), a)
  {
    if addresses != [] {
      var init, b := addresses[..|addresses| - 1], addresses[|addresses| - 1];
      var before := OnRevert(policy, c, init, state);
      assert addresses == init + [b];
      if a == b {
        UpdateExact(policy, state, Cache(before.thresholds - {a}, before.failed), a);
      } else {
        RevertExact(policy, state, c, init, a);
        UpdateElsewhere(policy, state, Cache(before.thresholds - {b}, before.failed), Lookup(state, b), b, a);
      }
    }
  }
}
