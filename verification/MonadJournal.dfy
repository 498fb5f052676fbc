/** The journal wrapper: every operation runs on the inner journal and then tells the tracker. */
module MonadJournal {
  import opened Ledger
  import opened ReserveBalance
  import opened ReserveTracker
  import opened EvmJournal

  class Journal {
    var state: EvmState
    var journal: seq<Entry>
    const tracker: ReserveBalanceTracker

    ghost predicate Tracking()
      reads this, tracker
    {
      tracker.trackingEnabled
    }

    function Contents(): World
      reads this, tracker
    {
      World(state, journal, tracker.Contents())
    }

    constructor ()
      ensures fresh(tracker)
      ensures state == map[] && journal == [] && !Tracking()
    {
      state, journal := map[], [];
      tracker := new ReserveBalanceTracker();
    }

    // ----- the inner journal ------------------------------------------------------

    method Push(e: Entry)
      modifies `journal
      ensures journal == old(journal) + [e]
    {
      journal := journal + [e];
    }

    method SetAccount(a: Address, acc: Account)
      modifies `state
      ensures state == old(state)[a := acc]
    {
      state := state[a := acc];
    }

    method InnerTransfer(from: Address, to: Address, amount: nat)
      requires from in state && to in state && amount <= state[from].balance
      modifies `state, `journal
      ensures state == MoveBalance(old(state), from, to, amount)
      ensures journal == old(journal) + [BalanceTransfer(from, to, amount)]
    {
      SetAccount(from, state[from].(balance := state[from].balance - amount));
      SetAccount(to, state[to].(balance := state[to].balance + amount));
      Push(BalanceTransfer(from, to, amount));
    }

    method InnerSelfDestruct(a: Address, target: Address)
      requires a in state && target in state
      modifies `state, `journal
      ensures Contents() == Destroy(old(Contents()), a, target)
    {
      var had := state[a].balance;
      var destroyedBefore := state[a].destroyed;
      if a != target {
        SetAccount(target, state[target].(balance := state[target].balance + had));
      }
      if state[a].created {
        SetAccount(a, state[a].(balance := 0, destroyed := true));
        Push(AccountDestroyed(a, target, had, destroyedBefore));
      } else if a != target {
        SetAccount(a, state[a].(balance := 0));
        Push(BalanceTransfer(a, target, had));
      }
    }

    /** Undoes entries from the end of the journal down to position `i`. */
    method InnerRevert(i: nat)
      requires i <= |journal|
      modifies `state, `journal
      ensures state == UndoTo(old(state), old(journal), i)
      ensures journal == old(journal)[..i]
    {
      var n := |journal|;
      assert journal[..n] == journal;
      while n > i
        modifies `state
        invariant i <= n <= |journal|
        invariant UndoTo(state, journal[..n], i) == UndoTo(old(state), old(journal), i)
      {
        n := n - 1;
        assert journal[..n + 1][..n] == journal[..n];
        state := Undo(state, journal[n]);
      }
      journal := journal[..i];
    }

    // ----- hooks --------------------------------------------------------------------

    method OnTransferHook(from: Address, to: Address)
      requires Tracking()
      modifies tracker`thresholds, tracker`failed
      ensures tracker.Contents() == OnTransfer(tracker.policy, old(tracker.Contents()), state, from, to)
    {
      tracker.OnDebit(Lookup(state, from), from);
      tracker.OnCredit(Lookup(state, to), to);
    }

    /** `reverted_addresses_from_entry` over a stretch of the journal. */
    method RevertedAddresses(i: nat) returns (r: seq<Address>)
      requires i <= |journal|
      ensures r == AllAddresses(journal[i..])
    {
      r := [];
      var rest := journal[i..];
      for k := 0 to |rest|
        invariant r == AllAddresses(rest[..k])
      {
        assert rest[..k + 1][..k] == rest[..k];
        r := r + Addresses(rest[k]);
      }
      assert rest[..|rest|] == rest;
    }

    // ----- the wrapped operations -----------------------------------------------------

    method LoadAccount(a: Address, balance: nat, nonce: nat, code: Code)
      requires Tracking()
      modifies `state, `journal
      ensures Contents() == Step(tracker.policy, old(Contents()), Load(a, balance, nonce, code))
    {
      if a !in state {
        SetAccount(a, Loaded(balance, nonce, code));
      }
      Push(AccountWarmed(a));
    }

    method NonceBumpEntry(a: Address)
      requires Tracking() && a in state
      modifies `state, `journal
      ensures Contents() == Step(tracker.policy, old(Contents()), BumpNonce(a))
    {
      SetAccount(a, state[a].(nonce := state[a].nonce + 1));
      Push(NonceBump(a));
    }

    /** Returns whether the transfer went through. */
    method TransferLoaded(from: Address, to: Address, amount: nat) returns (ok: bool)
      requires Tracking() && from in state && to in state
      modifies `state, `journal, tracker`thresholds, tracker`failed
      ensures ok <==> amount <= old(state)[from].balance
      ensures Contents() == Step(tracker.policy, old(Contents()), Transfer(from, to, amount))
    {
      ok := amount <= state[from].balance;
      if ok {
        InnerTransfer(from, to, amount);
        OnTransferHook(from, to);
      }
    }

    method IncreaseBalance(a: Address, amount: nat)
      requires Tracking() && a in state
      modifies `state, `journal, tracker`thresholds, tracker`failed
      ensures Contents() == Step(tracker.policy, old(Contents()), BalanceIncr(a, amount))
    {
      var oldBalance := state[a].balance;
      SetAccount(a, state[a].(balance := oldBalance + amount));
      Push(BalanceChange(a, oldBalance));
      tracker.OnCredit(Lookup(state, a), a);
    }

    method SelfDestructAccount(a: Address, target: Address)
      requires Tracking() && a in state && target in state
      modifies `state, `journal, tracker`thresholds, tracker`failed
      ensures Contents() == Step(tracker.policy, old(Contents()), SelfDestruct(a, target))
    {
      InnerSelfDestruct(a, target);
      OnTransferHook(a, target);
    }

    method SetCodeWithHash(a: Address, code: Code)
      requires Tracking() && a in state
      modifies `state, `journal, tracker`thresholds, tracker`failed
      ensures Contents() == Step(tracker.policy, old(Contents()), SetCode(a, code))
    {
      SetAccount(a, state[a].(code := code));
      Push(CodeChange(a));
      tracker.OnSetCode(Lookup(state, a), a, code);
    }

    /** Returns whether the account was created; a used address is a collision. */
    method CreateAccountCheckpoint(caller: Address, a: Address, amount: nat) returns (ok: bool)
      requires Tracking() && caller in state && a in state && amount <= state[caller].balance
      modifies `state, `journal, tracker`thresholds, tracker`failed
      ensures ok <==> old(state)[a].code == Empty && old(state)[a].nonce == 0
      ensures Contents() == Step(tracker.policy, old(Contents()), CreateAccount(caller, a, amount))
    {
      ok := state[a].code == Empty && state[a].nonce == 0;
      if ok {
        SetAccount(a, state[a].(created := true, nonce := 1));
        Push(AccountCreated(a));
        InnerTransfer(caller, a, amount);
        OnTransferHook(caller, a);
      }
    }

    /** A checkpoint is a position in the journal. */
    method Checkpoint() returns (i: nat)
      ensures i == |journal|
    {
      i := |journal|;
    }

    method CheckpointRevert(i: nat)
      requires Tracking()
      modifies `state, `journal, tracker`thresholds, tracker`failed
      ensures Contents() == Step(tracker.policy, old(Contents()), Revert(i))
    {
      if i < |journal| {
        var addresses := RevertedAddresses(i);
        InnerRevert(i);
        tracker.OnCheckpointRevert(addresses, state);
      }
    }

    method CommitTx()
      modifies `journal, tracker
      ensures !Tracking() && journal == [] && tracker.Contents() == NO_CACHE
    {
      journal := [];
      tracker.Clear();
    }
  }
}
