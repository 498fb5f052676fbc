/** Where the balances of a transaction go: what each operation moves, and that none gets lost on the way. */
module JournalBalances {
  import opened Sums
  import opened Ledger
  import opened ReserveBalance
  import opened EvmJournal

  function BalanceOf(state: EvmState, a: Address): nat {
    if a in state then state[a].balance else 0
  }

  ghost function Balances(state: EvmState): map<Address, int> {
    map a | a in state :: state[a].balance
  }

  /** All that the loaded accounts have. */
  ghost function AllBalances(state: EvmState): int {
    Sum(Balances(state))
  }

  // ----- one account --------------------------------------------------------------

  lemma OneBalance(state: EvmState, a: Address, acc: Account)
    ensures AllBalances(state[a := acc]) == AllBalances(state) - BalanceOf(state, a) + acc.balance
  {
    assert Balances(state[a := acc]) == Balances(state)[a := acc.balance];
    SumUpdate(Balances(state), a, acc.balance);
  }

  lemma GiveAdds(state: EvmState, a: Address, amount: nat)
    requires a in state
    ensures AllBalances(Give(state, a, amount)) == AllBalances(state) + amount
  {
    OneBalance(state, a, Give(state, a, amount)[a]);
  }

  lemma MoveConserves(state: EvmState, from: Address, to: Address, amount: nat)
    requires from in state && to in state && amount <= state[from].balance
    ensures AllBalances(MoveBalance(state, from, to, amount)) == AllBalances(state)
  {
    var taken := Take(state, from, amount);
    OneBalance(state, from, taken[from]);
    GiveAdds(taken, to, amount);
  }

  // ----- one operation --------------------------------------------------------------

  /** What an operation adds to the balance of `b`, as its caller would put it. */
  function Gain(w: World, op: Op, b: Address): int {
    match op
    case Load(a, balance, _, _) => if b == a && a !in w.state then balance else 0
    case Transfer(from, to, amount) => (if b == to then amount else 0) - (if b == from then amount else 0)
    case BalanceIncr(a, amount) => if b == a then amount else 0
    case SelfDestruct(a, target) =>
      if a != target then
        (if b == target then BalanceOf(w.state, a) else 0) - (if b == a then BalanceOf(w.state, a) else 0)
      else if b == a && a in w.state && w.state[a].created then 0 - BalanceOf(w.state, a) else 0
    case CreateAccount(caller, a, amount) => (if b == a then amount else 0) - (if b == caller then amount else 0)
    case _ => 0
  }

  lemma MovedBalance(state: EvmState, from: Address, to: Address, amount: nat, b: Address)
    requires from in state && to in state && amount <= state[from].balance
    ensures BalanceOf(MoveBalance(state, from, to, amount), b)
            == BalanceOf(state, b) + (if b == to then amount else 0) - (if b == from then amount else 0)
  {}

  lemma DestroyedBalance(w: World, a: Address, target: Address, b: Address)
    requires a in w.state && target in w.state
    ensures BalanceOf(Destroy(w, a, target).state, b) == BalanceOf(w.state, b) + Gain(w, SelfDestruct(a, target), b)
  {}

  /** Every operation but a revert moves exactly the balances it names, by exactly the amounts it names. */
  lemma StepMoves(policy: Policy, w: World, op: Op, b: Address)
    requires Possible(w, op) && !op.Revert?
    ensures BalanceOf(Step(policy, w, op).state, b) == BalanceOf(w.state, b) + Gain(w, op, b)
  {
    match op
    case Transfer(from, to, amount) => MovedBalance(w.state, from, to, amount, b);
    case SelfDestruct(a, target) => DestroyedBalance(w, a, target, b);
    case CreateAccount(caller, a, amount) =>
      MovedBalance(w.state[a := w.state[a].(created := true, nonce := 1)], caller, a, amount, b);
    case _ =>
  }

  /** What an operation brings into the accounts, or takes out of them. */
  function Minted(w: World, op: Op): int {
    match op
    case Load(a, balance, _, _) => if a in w.state then 0 else balance
    case BalanceIncr(_, amount) => amount
    case SelfDestruct(a, target) =>
      if a == target && a in w.state && w.state[a].created then 0 - w.state[a].balance else 0
    case _ => 0
  }

  lemma DestroyConserves(w: World, a: Address, target: Address)
    requires a in w.state && target in w.state
    ensures AllBalances(Destroy(w, a, target).state) == AllBalances(w.state) + Minted(w, SelfDestruct(a, target))
  {
    if w.state[a].created || a != target {
      var paid := if a == target then w.state else Give(w.state, target, w.state[a].balance);
      if a != target {
        GiveAdds(w.state, target, w.state[a].balance);
      }
      OneBalance(paid, a, Destroy(w, a, target).state[a]);
    }
  }

  /**
   * Nothing is lost: an operation other than a revert changes the sum of all
   * balances only by what it brings in, and a contract created in this
   * transaction that names itself on its destruction is all that is burned.
   */
  lemma StepConserves(policy: Policy, w: World, op: Op)
    requires Possible(w, op) && !op.Revert?
    ensures AllBalances(Step(policy, w, op).state) == AllBalances(w.state) + Minted(w, op)
  {
    match op
    case Load(a, balance, nonce, code) =>
      if a !in w.state {
        OneBalance(w.state, a, Loaded(balance, nonce, code));
      }
    case BumpNonce(a) => OneBalance(w.state, a, Step(policy, w, op).state[a]);
    case Transfer(from, to, amount) => MoveConserves(w.state, from, to, amount);
    case BalanceIncr(a, amount) => GiveAdds(w.state, a, amount);
    case SelfDestruct(a, target) => DestroyConserves(w, a, target);
    case SetCode(a, _) => OneBalance(w.state, a, Step(policy, w, op).state[a]);
    case CreateAccount(caller, a, amount) =>
      var marked := w.state[a].(created := true, nonce := 1);
      OneBalance(w.state, a, marked);
      MoveConserves(w.state[a := marked], caller, a, amount);
    case _ =>
  }

  // ----- what the reserve goes by -----------------------------------------------------

  /** The account is still loaded, and what it was at the start of the transaction has not changed. */
  predicate OriginalKept(state: EvmState, state': EvmState, a: Address) {
    a in state ==>
      a in state' && state'[a].original == state[a].original && state'[a].originalCode == state[a].originalCode
  }

  lemma UndoKeepsOriginal(state: EvmState, e: Entry, a: Address)
    ensures OriginalKept(state, Undo(state, e), a)
  {}

  lemma {:induction false} UndoToKeepsOriginal(state: EvmState, journal: seq<Entry>, i: nat, a: Address)
    requires i <= |journal|
    ensures OriginalKept(state, UndoTo(state, journal, i), a)
    decreases |journal|
  {
    if i < |journal| {
      var n := |journal| - 1;
      UndoKeepsOriginal(state, journal[n], a);
      UndoToKeepsOriginal(Undo(state, journal[n]), journal[..n], i, a);
    }
  }

  lemma StepKeepsOriginal(policy: Policy, w: World, op: Op, a: Address)
    ensures OriginalKept(w.state, Step(policy, w, op).state, a)
    ensures op.Load? && op.address == a && a !in w.state ==>
              Step(policy, w, op).state[a].original == Step(policy, w, op).state[a].balance == op.balance
  {
    if op.Revert? && op.checkpoint < |w.journal| {
      UndoToKeepsOriginal(w.state, w.journal, op.checkpoint, a);
    }
  }

  /**
   * What the reserve of an account is measured against is fixed when the
   * account is loaded: no operation of the transaction and no revert moves it.
   */
  lemma {:induction false} RunKeepsOriginal(policy: Policy, w: World, ops: seq<Op>, a: Address)
    ensures OriginalKept(w.state, Run(policy, w, ops).state, a)
  {
    if ops != [] {
      var n := |ops| - 1;
      RunKeepsOriginal(policy, w, ops[..n], a);
      StepKeepsOriginal(policy, Run(policy, w, ops[..n]), ops[n], a);
    }
  }
}
