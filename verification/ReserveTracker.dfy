/** The reserve-balance tracker as it runs, and the chain metadata it starts from. */
module ReserveTracker {
  import opened Ledger
  import opened ReserveBalance

  /** The metadata of the current block and its two predecessors. */
  datatype ChainContext = ChainContext(
    parents: set<Address>, grandparents: set<Address>,
    blockSenders: seq<Address>, blockAuthorities: seq<seq<Address>>,
    txIndex: nat, maxReserve: nat)

  /** A sender may dip if it did nothing else in the last three blocks, this transaction aside. */
  predicate MayDip(chain: ChainContext, sender: Address, delegated: bool) {
    && !delegated
    && sender !in chain.parents && sender !in chain.grandparents
    && (forall i :: 0 <= i < |chain.blockSenders| && i < chain.txIndex ==> chain.blockSenders[i] != sender)
    && (forall i :: 0 <= i < |chain.blockAuthorities| && i <= chain.txIndex ==>
          sender !in chain.blockAuthorities[i])
  }

  /** Everyone who sent or authorized something in the last three blocks, up to this transaction. */
  function SeenBefore(chain: ChainContext): set<Address> {
    chain.parents + chain.grandparents
    + (set i | 0 <= i < |chain.blockSenders| && i < chain.txIndex :: chain.blockSenders[i])
    + (set i, a | 0 <= i < |chain.blockAuthorities| && i <= chain.txIndex && a in chain.blockAuthorities[i] :: a)
  }

  lemma MayDipIfUnseen(chain: ChainContext, sender: Address, delegated: bool)
    ensures MayDip(chain, sender, delegated) <==> !delegated && sender !in SeenBefore(chain)
  {}

  method SenderCanDip(chain: ChainContext, sender: Address, delegated: bool) returns (r: bool)
    ensures r <==> MayDip(chain, sender, delegated)
  {
    if delegated {
      return false;
    }
    if sender in chain.grandparents || sender in chain.parents {
      return false;
    }
    for index := 0 to |chain.blockSenders|
      invariant forall i :: 0 <= i < index && i < chain.txIndex ==> chain.blockSenders[i] != sender
    {
      if index < chain.txIndex && chain.blockSenders[index] == sender {
        return false;
      }
    }
    for index := 0 to |chain.blockAuthorities|
      invariant forall i :: 0 <= i < index && i <= chain.txIndex ==> sender !in chain.blockAuthorities[i]
    {
      if index <= chain.txIndex && sender in chain.blockAuthorities[index] {
        return false;
      }
    }
    return true;
  }

  /** The policy of a tracker that is not tracking. */
  const NO_POLICY: Policy := Policy(MonadNine, 0, 0, 0, false)

  class ReserveBalanceTracker {
    var trackingEnabled: bool
    var policy: Policy
    var thresholds: map<Address, Option<nat>>
    var failed: set<Address>

    function Contents(): Cache
      reads this
    {
      Cache(thresholds, failed)
    }

    constructor ()
      ensures !trackingEnabled && Contents() == NO_CACHE
    {
      trackingEnabled := false;
      policy := NO_POLICY;
      thresholds, failed := map[], {};
    }

    method Clear()
      modifies this
      ensures !trackingEnabled && Contents() == NO_CACHE
    {
      trackingEnabled := false;
      policy := NO_POLICY;
      thresholds, failed := map[], {};
    }

    method Init(
      chain: ChainContext, fork: Fork, sender: Address,
      gasPrice: nat, gasLimit: nat, senderIsDelegated: bool, senderAccount: Option<Account>)
      modifies this
      ensures trackingEnabled
      ensures policy == Policy(fork, chain.maxReserve, sender, gasPrice * gasLimit,
                               MayDip(chain, sender, senderIsDelegated))
      ensures Contents() == Update(policy, NO_CACHE, senderAccount, sender)
    {
      Clear();
      var canDip := SenderCanDip(chain, sender, senderIsDelegated);
      trackingEnabled := true;
      policy := Policy(fork, chain.maxReserve, sender, gasPrice * gasLimit, canDip);
      UpdateLoadedAccount(senderAccount, sender);
    }

    method OnDebit(account: Option<Account>, a: Address)
      modifies `thresholds, `failed
      ensures Contents() == if trackingEnabled then Update(policy, old(Contents()), account, a) else old(Contents())
    {
      UpdateLoadedAccount(account, a);
    }

    method OnCredit(account: Option<Account>, a: Address)
      modifies `thresholds, `failed
      ensures Contents() == if trackingEnabled then ReserveBalance.OnCredit(policy, old(Contents()), account, a)
                            else old(Contents())
    {
      if a in failed {
        UpdateLoadedAccount(account, a);
      }
    }

    method OnSetCode(account: Option<Account>, a: Address, code: Code)
      modifies `thresholds, `failed
      ensures Contents() == if trackingEnabled then ReserveBalance.OnSetCode(policy, old(Contents()), account, a, code)
                            else old(Contents())
    {
      if !trackingEnabled || !policy.RecentCode() {
        return;
      }
      if code == Contract {
        thresholds := thresholds[a := Some(0)];
        failed := failed - {a};
        return;
      }
      thresholds := thresholds - {a};
      UpdateLoadedAccount(account, a);
    }

    method OnCheckpointRevert(addresses: seq<Address>, state: EvmState)
      modifies `thresholds, `failed
      ensures Contents() == if trackingEnabled then OnRevert(policy, old(Contents()), addresses, state)
                            else old(Contents())
    {
      if !trackingEnabled {
        return;
      }
      for i := 0 to |addresses|
        modifies `thresholds, `failed
        invariant Contents() == OnRevert(policy, old(Contents()), addresses[..i], state)
      {
        assert addresses[..i + 1][..i] == addresses[..i];
        thresholds := thresholds - {addresses[i]};
        UpdateLoadedAccount(Lookup(state, addresses[i]), addresses[i]);
      }
      assert addresses[..|addresses|] == addresses;
    }

    method UpdateLoadedAccount(account: Option<Account>, a: Address)
      modifies `thresholds, `failed
      ensures Contents() == if trackingEnabled then Update(policy, old(Contents()), account, a) else old(Contents())
    {
      if !trackingEnabled {
        return;
      }
      if account.None? {
        failed := failed - {a};
        thresholds := thresholds - {a};
        return;
      }
      var acc := account.value;
      if policy.Exemption() && acc.destroyed && acc.created {
        failed := failed - {a};
        thresholds := thresholds[a := Some(0)];
        return;
      }
      var threshold;
      if a in thresholds {
        threshold := thresholds[a];
        assert thresholds[a := threshold] == thresholds;
      } else {
        threshold := ComputeViolationThreshold(acc, a);
        thresholds := thresholds[a := threshold];
      }
      if threshold.None? {
        failed := failed + {a};
        return;
      }
      if threshold.value == 0 || acc.balance >= threshold.value {
        failed := failed - {a};
      } else {
        failed := failed + {a};
      }
    }

    method ComputeViolationThreshold(acc: Account, a: Address) returns (r: Option<nat>)
      ensures r == Threshold(policy, acc, a)
    {
      if !Subject(policy, acc, a) {
        return Some(0);
      }
      var reserve := PretxReserve(policy, acc);
      if a == policy.sender {
        if policy.senderCanDip {
          return Some(0);
        }
        if reserve < policy.gasFees {
          return None;
        }
        reserve := reserve - policy.gasFees;
      }
      return Some(reserve);
    }
  }
}
