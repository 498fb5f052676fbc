/**
 * The journaled accounts of one transaction together with the reserve-balance
 * cache: every hooked operation, nested checkpoints and reverts.
 */
module EvmJournal {
  import opened Ledger
  import opened ReserveBalance

  // ----- entries --------------------------------------------------------------

  datatype Entry =
    | AccountWarmed(address: Address)
    | AccountTouched(address: Address)
    | BalanceChange(address: Address, oldBalance: nat)
    | NonceBump(address: Address)
    | AccountCreated(address: Address)
    | StorageChanged(address: Address)
    | CodeChange(address: Address)
    | BalanceTransfer(from: Address, to: Address, amount: nat)
    | AccountDestroyed(address: Address, target: Address, hadBalance: nat, repeated: bool)

  /** `reverted_addresses_from_entry`. */
  function Addresses(e: Entry): seq<Address> {
    match e
    case BalanceTransfer(from, to, _) => [from, to]
    case AccountDestroyed(address, target, _, _) => [address, target]
    case _ => [e.address]
  }

  function AllAddresses(journal: seq<Entry>): seq<Address> {
    if journal == [] then []
    else AllAddresses(journal[..|journal| - 1]) + Addresses(journal[|journal| - 1])
  }

  function Minus(x: nat, y: nat): nat {
    if y <= x then x - y else 0
  }

  function Give(state: EvmState, a: Address, amount: nat): EvmState {
    if a in state then state[a := state[a].(balance := state[a].balance + amount)] else state
  }

  function Take(state: EvmState, a: Address, amount: nat): EvmState {
    if a in state then state[a := state[a].(balance := Minus(state[a].balance, amount))] else state
  }

  /** Undoes one entry. */
  function Undo(state: EvmState, e: Entry): EvmState {
    match e
    case BalanceTransfer(from, to, amount) => Take(Give(state, from, amount), to, amount)
    case AccountDestroyed(a, target, hadBalance, repeated) =>
      var unmarked :=
        if a in state && !repeated then state[a := state[a].(destroyed := false)] else state;
      var returned := Give(unmarked, a, hadBalance);
      if a != target then Take(returned, target, hadBalance) else returned
    case BalanceChange(a, oldBalance) =>
      if a in state then state[a := state[a].(balance := oldBalance)] else state
    case NonceBump(a) =>
      if a in state then state[a := state[a].(nonce := Minus(state[a].nonce, 1))] else state
    case AccountCreated(a) =>
      if a in state then state[a := state[a].(created := false, nonce := 0)] else state
    case CodeChange(a) =>
      if a in state then state[a := state[a].(code := Empty)] else state
    case _ => state
  }

  /** Undoes the entries from position `i` on, the latest first. */
  function UndoTo(state: EvmState, journal: seq<Entry>, i: nat): EvmState
    requires i <= |journal|
    decreases |journal|
  {
    if i == |journal| then state
    else UndoTo(Undo(state, journal[|journal| - 1]), journal[..|journal| - 1], i)
  }

  // ----- operations -----------------------------------------------------------

  datatype World = World(state: EvmState, journal: seq<Entry>, cache: Cache)

  datatype Op =
    | Load(address: Address, balance: nat, nonce: nat, code: Code)
    | Touch(address: Address)
    | WriteStorage(address: Address)
    | BumpNonce(address: Address)
    | Transfer(from: Address, to: Address, amount: nat)
    | BalanceIncr(address: Address, amount: nat)
    | SelfDestruct(address: Address, target: Address)
    | SetCode(address: Address, code: Code)
    | CreateAccount(caller: Address, address: Address, amount: nat)
    | Commit
    | Revert(checkpoint: nat)

  function Loaded(balance: nat, nonce: nat, code: Code): Account {
    Account(balance, nonce, code, false, false, balance, code)
  }

  function Log(w: World, state: EvmState, e: Entry): World {
    w.(state := state, journal := w.journal + [e])
  }

  /** The tracker's hook for a movement of balance. */
  function OnTransfer(policy: Policy, c: Cache, state: EvmState, from: Address, to: Address): Cache {
    OnCredit(policy, Update(policy, c, Lookup(state, from), from), Lookup(state, to), to)
  }

  function Hooked(policy: Policy, w: World, from: Address, to: Address): World {
    w.(cache := OnTransfer(policy, w.cache, w.state, from, to))
  }

  function MoveBalance(state: EvmState, from: Address, to: Address, amount: nat): EvmState
    requires from in state && to in state && amount <= state[from].balance
  {
    Give(Take(state, from, amount), to, amount)
  }

  /**
   * The journal's own part of a self-destruction.  Every fork stands on Prague
   * or later, so only a contract created in this transaction is deleted.
   */
  function Destroy(w: World, a: Address, target: Address): World
    requires a in w.state && target in w.state
  {
    var had := w.state[a].balance;
    var paid := if a == target then w.state else Give(w.state, target, had);
    if w.state[a].created then
      Log(w, paid[a := paid[a].(balance := 0, destroyed := true)],
          AccountDestroyed(a, target, had, w.state[a].destroyed))
    else if a != target then
      Log(w, paid[a := paid[a].(balance := 0)], BalanceTransfer(a, target, had))
    else w
  }

  /** What a caller must provide; an operation outside it does not happen. */
  predicate Possible(w: World, op: Op) {
    match op
    case Load(_, _, _, _) => true
    case Touch(a) => a in w.state
    case WriteStorage(a) => a in w.state
    case BumpNonce(a) => a in w.state
    case Transfer(from, to, amount) => from in w.state && to in w.state && amount <= w.state[from].balance
    case BalanceIncr(a, _) => a in w.state
    case SelfDestruct(a, target) => a in w.state && target in w.state
    case SetCode(a, _) => a in w.state
    case CreateAccount(caller, a, amount) =>
      && caller in w.state && a in w.state && amount <= w.state[caller].balance
      && w.state[a].code == Empty && w.state[a].nonce == 0
    case Commit => true
    case Revert(_) => true
  }

  function Step(policy: Policy, w: World, op: Op): World {
    if !Possible(w, op) then w
    else
      match op
      case Load(a, balance, nonce, code) =>
        Log(w, if a in w.state then w.state else w.state[a := Loaded(balance, nonce, code)], AccountWarmed(a))
      case Touch(a) => Log(w, w.state, AccountTouched(a))
      case WriteStorage(a) => Log(w, w.state, StorageChanged(a))
      case BumpNonce(a) =>
        Log(w, w.state[a := w.state[a].(nonce := w.state[a].nonce + 1)], NonceBump(a))
      case Transfer(from, to, amount) =>
        Hooked(policy, Log(w, MoveBalance(w.state, from, to, amount), BalanceTransfer(from, to, amount)),
               from, to)
      case BalanceIncr(a, amount) =>
        var w1 := Log(w, Give(w.state, a, amount), BalanceChange(a, w.state[a].balance));
        w1.(cache := OnCredit(policy, w1.cache, Lookup(w1.state, a), a))
      case SelfDestruct(a, target) => Hooked(policy, Destroy(w, a, target), a, target)
      case SetCode(a, code) =>
        var w1 := Log(w, w.state[a := w.state[a].(code := code)], CodeChange(a));
        w1.(cache := OnSetCode(policy, w1.cache, Lookup(w1.state, a), a, code))
      case CreateAccount(caller, a, amount) =>
        var w1 := Log(w, w.state[a := w.state[a].(created := true, nonce := 1)], AccountCreated(a));
        var w2 := Log(w1, MoveBalance(w1.state, caller, a, amount), BalanceTransfer(caller, a, amount));
        Hooked(policy, w2, caller, a)
      case Commit => w
      case Revert(i) =>
        if i >= |w.journal| then w
        else
          var state := UndoTo(w.state, w.journal, i);
          World(state, w.journal[..i], OnRevert(policy, w.cache, AllAddresses(w.journal[i..]), state))
  }

  function Run(policy: Policy, w: World, ops: seq<Op>): World {
    if ops == [] then w else Step(policy, Run(policy, w, ops[..|ops| - 1]), ops[|ops| - 1])
  }

  // ----- the cache stays exact --------------------------------------------------

  ghost predicate InStep(policy: Policy, w: World) {
    policy.sender in w.state && Exact(policy, w.state, w.cache)
  }

  /** An account that changes at most in its balance and, one way, in its marks. */
  predicate SameRules(acc: Account, acc': Account) {
    && acc'.code == acc.code && acc'.original == acc.original && acc'.originalCode == acc.originalCode
    && (acc.created ==> acc'.created) && (acc.destroyed ==> acc'.destroyed)
  }

  lemma SameThreshold(policy: Policy, acc: Account, acc': Account, a: Address)
    requires SameRules(acc, acc')
    ensures Threshold(policy, acc', a) == Threshold(policy, acc, a)
    ensures Exempt(policy, acc) ==> Exempt(policy, acc')
  {}

  /** What a hooked movement of balance from `from` to `to` may do to the accounts. */
  ghost predicate Moves(state: EvmState, state': EvmState, from: Address, to: Address) {
    && from in state && to in state && state'.Keys == state.Keys
    && (forall a: Address :: a in state ==> SameRules(state[a], state'[a]))
    && (forall a: Address :: a in state && a != from ==> state[a].balance <= state'[a].balance)
    && (forall a: Address :: a in state && a != from && a != to ==> state'[a] == state[a])
  }

  lemma MovedExact(policy: Policy, state: EvmState, state': EvmState, c: Cache, from: Address, to: Address, a: Address)
    requires Exact(policy, state, c) && Moves(state, state', from, to)
    ensures ExactAt(policy, state', OnTransfer(policy, c, state', from, to), a)
  {
    var c1 := Update(policy, c, Lookup(state', from), from);
    assert ExactAt(policy, state, c, a);
    if a in state {
      SameThreshold(policy, state[a], state'[a], a);
    }
    if a == from {
      DebitExact(policy, state, state', c, from);
      if to == from {
        UpdateExact(policy, state', c1, from);
      } else {
        UpdateElsewhere(policy, state', c1, Lookup(state', to), to, from);
      }
    } else {
      UpdateElsewhere(policy, state, c, Lookup(state', from), from, a);
      if a == to {
        CreditExact(policy, state, state', c1, to);
      } else {
        UpdateElsewhere(policy, state, c1, Lookup(state', to), to, a);
        UnnoticedExact(policy, state, state', OnTransfer(policy, c, state', from, to), a);
      }
    }
  }

  lemma HookedInStep(policy: Policy, w: World, w': World, from: Address, to: Address)
    requires InStep(policy, w) && w'.cache == w.cache && Moves(w.state, w'.state, from, to)
    ensures InStep(policy, Hooked(policy, w', from, to))
  {
    forall a: Address
      ensures ExactAt(policy, w'.state, Hooked(policy, w', from, to).cache, a)
    {
      MovedExact(policy, w.state, w'.state, w.cache, from, to, a);
    }
  }

  lemma QuietInStep(policy: Policy, w: World, w': World)
    requires InStep(policy, w) && w'.cache == w.cache
    requires forall a: Address :: Unnoticed(policy, w.state, w'.state, a)
    ensures InStep(policy, w')
  {
    assert Unnoticed(policy, w.state, w'.state, policy.sender);
    forall a: Address
      ensures ExactAt(policy, w'.state, w'.cache, a)
    {
      UnnoticedExact(policy, w.state, w'.state, w.cache, a);
    }
  }

  lemma LoadInStep(policy: Policy, w: World, op: Op)
    requires InStep(policy, w) && op.Load?
    ensures InStep(policy, Step(policy, w, op))
  {
    var w' := Step(policy, w, op);
    if op.address !in w.state {
      FreshComplies(policy, w'.state[op.address], op.address);
    }
    QuietInStep(policy, w, w');
  }

  lemma TransferMoves(state: EvmState, from: Address, to: Address, amount: nat)
    requires from in state && to in state && amount <= state[from].balance
    ensures Moves(state, MoveBalance(state, from, to, amount), from, to)
  {}

  lemma DestroyMoves(w: World, a: Address, target: Address)
    requires a in w.state && target in w.state
    ensures Moves(w.state, Destroy(w, a, target).state, a, target)
  {}

  lemma CreateMoves(state: EvmState, caller: Address, a: Address, amount: nat, state': EvmState)
    requires caller in state && a in state && amount <= state[caller].balance
    requires state' == MoveBalance(state[a := state[a].(created := true, nonce := 1)], caller, a, amount)
    ensures Moves(state, state', caller, a)
  {
    var marked := state[a := state[a].(created := true, nonce := 1)];
    TransferMoves(marked, caller, a, amount);
    forall b: Address | b in state
      ensures SameRules(state[b], state'[b])
    {
      assert SameRules(marked[b], state'[b]);
    }
  }

  lemma TransferInStep(policy: Policy, w: World, op: Op)
    requires InStep(policy, w) && op.Transfer? && Possible(w, op)
    ensures InStep(policy, Step(policy, w, op))
  {
    var w1 := Log(w, MoveBalance(w.state, op.from, op.to, op.amount), BalanceTransfer(op.from, op.to, op.amount));
    TransferMoves(w.state, op.from, op.to, op.amount);
    HookedInStep(policy, w, w1, op.from, op.to);
  }

  lemma SelfDestructInStep(policy: Policy, w: World, op: Op)
    requires InStep(policy, w) && op.SelfDestruct? && Possible(w, op)
    ensures InStep(policy, Step(policy, w, op))
  {
    DestroyMoves(w, op.address, op.target);
    HookedInStep(policy, w, Destroy(w, op.address, op.target), op.address, op.target);
  }

  lemma CreateInStep(policy: Policy, w: World, op: Op)
    requires InStep(policy, w) && op.CreateAccount? && Possible(w, op)
    ensures InStep(policy, Step(policy, w, op))
  {
    var a := op.address;
    var w1 := Log(w, w.state[a := w.state[a].(created := true, nonce := 1)], AccountCreated(a));
    var w2 := Log(w1, MoveBalance(w1.state, op.caller, a, op.amount), BalanceTransfer(op.caller, a, op.amount));
    CreateMoves(w.state, op.caller, a, op.amount, w2.state);
    HookedInStep(policy, w, w2, op.caller, a);
  }

  lemma CreditInStep(policy: Policy, w: World, op: Op)
    requires InStep(policy, w) && op.BalanceIncr? && Possible(w, op)
    ensures InStep(policy, Step(policy, w, op))
  {
    var w' := Step(policy, w, op);
    forall a: Address
      ensures ExactAt(policy, w'.state, w'.cache, a)
    {
      assert ExactAt(policy, w.state, w.cache, a);
      if a == op.address {
        CreditExact(policy, w.state, w'.state, w.cache, a);
      } else {
        UpdateElsewhere(policy, w.state, w.cache, Lookup(w'.state, op.address), op.address, a);
        UnnoticedExact(policy, w.state, w'.state, w'.cache, a);
      }
    }
  }

  lemma SetCodeInStep(policy: Policy, w: World, op: Op)
    requires InStep(policy, w) && op.SetCode? && Possible(w, op)
    ensures InStep(policy, Step(policy, w, op))
  {
    var w' := Step(policy, w, op);
    forall a: Address
      ensures ExactAt(policy, w'.state, w'.cache, a)
    {
      assert ExactAt(policy, w.state, w.cache, a);
      if a == op.address {
        SetCodeExact(policy, w.state, w'.state, w.cache, a, op.code);
      } else {
        SetCodeElsewhere(policy, w.state, w.cache, Lookup(w'.state, op.address), op.address, op.code, a);
        UnnoticedExact(policy, w.state, w'.state, w'.cache, a);
      }
    }
  }

  lemma SetCodeElsewhere(
    policy: Policy, state: EvmState, c: Cache, account: Option<Account>, a: Address, code: Code, b: Address)
    requires a != b && ExactAt(policy, state, c, b)
    ensures ExactAt(policy, state, OnSetCode(policy, c, account, a, code), b)
  {}

  /** A revert touches no account but those its entries name. */
  lemma UndoElsewhere(state: EvmState, e: Entry, a: Address)
    ensures Undo(state, e).Keys == state.Keys
    ensures a in state && a !in Addresses(e) ==> Undo(state, e)[a] == state[a]
  {}

  lemma {:induction false} UndoToElsewhere(state: EvmState, journal: seq<Entry>, i: nat, a: Address)
    requires i <= |journal|
    ensures UndoTo(state, journal, i).Keys == state.Keys
    ensures a in state && a !in AllAddresses(journal[i..]) ==> UndoTo(state, journal, i)[a] == state[a]
    decreases |journal|
  {
    if i < |journal| {
      var n := |journal| - 1;
      var rest := journal[i..];
      assert rest[..|rest| - 1] == journal[..n][i..] && rest[|rest| - 1] == journal[n];
      UndoElsewhere(state, journal[n], a);
      UndoToElsewhere(Undo(state, journal[n]), journal[..n], i, a);
    }
  }

  lemma RevertInStep(policy: Policy, w: World, op: Op)
    requires InStep(policy, w) && op.Revert?
    ensures InStep(policy, Step(policy, w, op))
  {
    var w' := Step(policy, w, op);
    if op.checkpoint < |w.journal| {
      var addresses := AllAddresses(w.journal[op.checkpoint..]);
      forall a: Address
        ensures a in w'.state <==> a in w.state
        ensures ExactAt(policy, w'.state, w'.cache, a)
      {
        UndoToElsewhere(w.state, w.journal, op.checkpoint, a);
        if a !in addresses {
          assert ExactAt(policy, w.state, w.cache, a);
          UnnoticedExact(policy, w.state, w'.state, w.cache, a);
        }
        RevertExact(policy, w'.state, w.cache, addresses, a);
      }
    }
  }

  lemma StepInStep(policy: Policy, w: World, op: Op)
    requires InStep(policy, w)
    ensures InStep(policy, Step(policy, w, op))
  {
    if Possible(w, op) {
      match op
      case Load(_, _, _, _) => LoadInStep(policy, w, op);
      case Transfer(_, _, _) => TransferInStep(policy, w, op);
      case BalanceIncr(_, _) => CreditInStep(policy, w, op);
      case SelfDestruct(_, _) => SelfDestructInStep(policy, w, op);
      case SetCode(_, _) => SetCodeInStep(policy, w, op);
      case CreateAccount(_, _, _) => CreateInStep(policy, w, op);
      case Revert(_) => RevertInStep(policy, w, op);
      case _ => QuietInStep(policy, w, Step(policy, w, op));
    }
  }

  // ----- every transaction --------------------------------------------------------

  /** The accounts when the tracker starts: only the sender may have been charged. */
  ghost predicate BeforeExecution(policy: Policy, state: EvmState) {
    && policy.sender in state
    && forall a: Address :: a in state && a != policy.sender ==> state[a].original <= state[a].balance
  }

  /** `init`. */
  function Begin(policy: Policy, state: EvmState, journal: seq<Entry>): World {
    World(state, journal, Update(policy, NO_CACHE, Lookup(state, policy.sender), policy.sender))
  }

  lemma BeginInStep(policy: Policy, state: EvmState, journal: seq<Entry>)
    requires BeforeExecution(policy, state)
    ensures InStep(policy, Begin(policy, state, journal))
  {
    var w := Begin(policy, state, journal);
    forall a: Address
      ensures ExactAt(policy, state, w.cache, a)
    {
      if a != policy.sender && a in state {
        FreshComplies(policy, state[a], a);
      }
    }
  }

  lemma {:induction false} RunInStep(policy: Policy, w: World, ops: seq<Op>)
    requires InStep(policy, w)
    ensures InStep(policy, Run(policy, w, ops))
  {
    if ops != [] {
      RunInStep(policy, w, ops[..|ops| - 1]);
      StepInStep(policy, Run(policy, w, ops[..|ops| - 1]), ops[|ops| - 1]);
    }
  }

  /**
   * Tracker exactness: after any sequence of hooked operations, with reverts
   * to any checkpoints, the failed set is exactly the set of loaded accounts
   * that a from-scratch evaluation finds violating.
   */
  lemma FailedSetExact(policy: Policy, state: EvmState, journal: seq<Entry>, ops: seq<Op>)
    requires BeforeExecution(policy, state)
    ensures var w := Run(policy, Begin(policy, state, journal), ops);
            w.cache.failed == set a | a in w.state && Violating(policy, w.state[a], a)
  {
    BeginInStep(policy, state, journal);
    RunInStep(policy, Begin(policy, state, journal), ops);
    var w := Run(policy, Begin(policy, state, journal), ops);
    forall a: Address
      ensures a in w.cache.failed <==> a in w.state && Violating(policy, w.state[a], a)
    {
      assert ExactAt(policy, w.state, w.cache, a);
    }
  }

  // ----- what a revert restores ---------------------------------------------------

  /** Every account of `t`, unchanged, and perhaps accounts loaded since. */
  ghost predicate Extends(s: EvmState, t: EvmState) {
    forall a: Address :: a in t ==> a in s && s[a] == t[a]
  }

  lemma GiveMonotone(s: EvmState, t: EvmState, a: Address, amount: nat)
    requires Extends(s, t)
    ensures Extends(Give(s, a, amount), Give(t, a, amount))
    ensures Extends(Take(s, a, amount), Take(t, a, amount))
  {}

  lemma UndoDestroyMonotone(s: EvmState, t: EvmState, e: Entry)
    requires Extends(s, t) && e.AccountDestroyed?
    ensures Extends(Undo(s, e), Undo(t, e))
  {
    var a := e.address;
    var s1 := if a in s && !e.repeated then s[a := s[a].(destroyed := false)] else s;
    var t1 := if a in t && !e.repeated then t[a := t[a].(destroyed := false)] else t;
    GiveMonotone(s1, t1, a, e.hadBalance);
    GiveMonotone(Give(s1, a, e.hadBalance), Give(t1, a, e.hadBalance), e.target, e.hadBalance);
  }

  lemma UndoMonotone(s: EvmState, t: EvmState, e: Entry)
    requires Extends(s, t)
    ensures Extends(Undo(s, e), Undo(t, e))
  {
    match e
    case BalanceTransfer(from, to, amount) =>
      GiveMonotone(s, t, from, amount);
      GiveMonotone(Give(s, from, amount), Give(t, from, amount), to, amount);
    case AccountDestroyed(_, _, _, _) => UndoDestroyMonotone(s, t, e);
    case _ =>
  }

  lemma {:induction false} UndoToMonotone(s: EvmState, t: EvmState, journal: seq<Entry>, i: nat)
    requires Extends(s, t) && i <= |journal|
    ensures Extends(UndoTo(s, journal, i), UndoTo(t, journal, i))
    decreases |journal|
  {
    if i < |journal| {
      var n := |journal| - 1;
      UndoMonotone(s, t, journal[n]);
      UndoToMonotone(Undo(s, journal[n]), Undo(t, journal[n]), journal[..n], i);
    }
  }

  lemma UndoLast(state: EvmState, journal: seq<Entry>, e: Entry, i: nat)
    requires i <= |journal|
    ensures UndoTo(state, journal + [e], i) == UndoTo(Undo(state, e), journal, i)
  {
    assert (journal + [e])[..|journal|] == journal;
  }

  lemma {:induction false} UndoToTwice(state: EvmState, journal: seq<Entry>, j: nat, i: nat)
    requires i <= j <= |journal|
    ensures UndoTo(UndoTo(state, journal, j), journal[..j], i) == UndoTo(state, journal, i)
    decreases |journal|
  {
    if j == |journal| {
      assert journal[..j] == journal;
    } else {
      var n := |journal| - 1;
      assert journal[..n][..j] == journal[..j];
      UndoToTwice(Undo(state, journal[n]), journal[..n], j, i);
    }
  }

  /** An account is created, and given code, at most once. */
  predicate FirstTime(w: World, op: Op) {
    && (op.SetCode? && op.address in w.state ==> w.state[op.address].code == Empty)
    && (op.CreateAccount? && op.address in w.state ==> !w.state[op.address].created)
  }

  predicate Within(i: nat, op: Op) {
    op.Revert? ==> op.checkpoint >= i
  }

  predicate NestedRun(policy: Policy, w: World, ops: seq<Op>, i: nat) {
    ops == []
    || (var init, op := ops[..|ops| - 1], ops[|ops| - 1];
        NestedRun(policy, w, init, i) && FirstTime(Run(policy, w, init), op) && Within(i, op))
  }

  /** The accounts of `state` can be had back by undoing to position `i`. */
  ghost predicate Restorable(w: World, i: nat, state: EvmState, journal: seq<Entry>) {
    && i == |journal| <= |w.journal| && w.journal[..i] == journal
    && Extends(UndoTo(w.state, w.journal, i), state)
  }

  lemma LoggedRestorable(w: World, w': World, e: Entry, i: nat, state: EvmState, journal: seq<Entry>)
    requires Restorable(w, i, state, journal)
    requires w'.journal == w.journal + [e] && Extends(Undo(w'.state, e), w.state)
    ensures Restorable(w', i, state, journal)
  {
    UndoLast(w'.state, w.journal, e, i);
    UndoToMonotone(Undo(w'.state, e), w.state, w.journal, i);
  }

  lemma UndoMove(state: EvmState, from: Address, to: Address, amount: nat)
    requires from in state && to in state && amount <= state[from].balance
    ensures Undo(MoveBalance(state, from, to, amount), BalanceTransfer(from, to, amount)) == state
  {
    var moved := MoveBalance(state, from, to, amount);
    var undone := Undo(moved, BalanceTransfer(from, to, amount));
    forall a | a in state
      ensures undone[a] == state[a]
    {
      assert moved[a].balance + (if a == from then amount else 0) - (if a == to then amount else 0)
          == state[a].balance;
    }
  }

  lemma UndoDestroy(w: World, a: Address, target: Address)
    requires a in w.state && target in w.state
    ensures var w' := Destroy(w, a, target);
            w' == w || (w'.journal != [] && w'.journal[..|w'.journal| - 1] == w.journal
                        && Undo(w'.state, w'.journal[|w'.journal| - 1]) == w.state)
  {
    var w' := Destroy(w, a, target);
    if w'.journal != w.journal {
      var e := w'.journal[|w'.journal| - 1];
      var undone := Undo(w'.state, e);
      forall b | b in w.state
        ensures undone[b] == w.state[b]
      {
      }
      assert undone == w.state;
    }
  }

  lemma CreateRestorable(policy: Policy, w: World, op: Op, i: nat, state: EvmState, journal: seq<Entry>)
    requires Restorable(w, i, state, journal) && op.CreateAccount? && Possible(w, op) && FirstTime(w, op)
    ensures Restorable(Step(policy, w, op), i, state, journal)
  {
    var a := op.address;
    var w1 := Log(w, w.state[a := w.state[a].(created := true, nonce := 1)], AccountCreated(a));
    var w2 := Log(w1, MoveBalance(w1.state, op.caller, a, op.amount), BalanceTransfer(op.caller, a, op.amount));
    LoggedRestorable(w, w1, AccountCreated(a), i, state, journal);
    UndoMove(w1.state, op.caller, a, op.amount);
    LoggedRestorable(w1, w2, BalanceTransfer(op.caller, a, op.amount), i, state, journal);
  }

  lemma RevertRestorable(policy: Policy, w: World, op: Op, i: nat, state: EvmState, journal: seq<Entry>)
    requires Restorable(w, i, state, journal) && op.Revert? && i <= op.checkpoint
    ensures Restorable(Step(policy, w, op), i, state, journal)
  {
    var j := op.checkpoint;
    if j < |w.journal| {
      UndoToTwice(w.state, w.journal, j, i);
      assert w.journal[..j][..i] == w.journal[..i];
    }
  }

  /** The operations that add one entry. */
  lemma EntryRestorable(policy: Policy, w: World, op: Op, i: nat, state: EvmState, journal: seq<Entry>)
    requires Restorable(w, i, state, journal) && Possible(w, op) && FirstTime(w, op)
    requires !op.SelfDestruct? && !op.CreateAccount? && !op.Commit? && !op.Revert?
    ensures Restorable(Step(policy, w, op), i, state, journal)
  {
    var w' := Step(policy, w, op);
    var e := w'.journal[|w.journal|];
    if op.Transfer? {
      UndoMove(w.state, op.from, op.to, op.amount);
    }
    LoggedRestorable(w, w', e, i, state, journal);
  }

  lemma StepRestorable(policy: Policy, w: World, op: Op, i: nat, state: EvmState, journal: seq<Entry>)
    requires Restorable(w, i, state, journal) && FirstTime(w, op) && Within(i, op)
    ensures Restorable(Step(policy, w, op), i, state, journal)
  {
    if Possible(w, op) {
      match op
      case SelfDestruct(a, target) =>
        var w' := Destroy(w, a, target);
        UndoDestroy(w, a, target);
        if w' != w {
          LoggedRestorable(w, w', w'.journal[|w'.journal| - 1], i, state, journal);
        }
      case CreateAccount(_, _, _) => CreateRestorable(policy, w, op, i, state, journal);
      case Commit =>
      case Revert(_) => RevertRestorable(policy, w, op, i, state, journal);
      case _ => EntryRestorable(policy, w, op, i, state, journal);
    }
  }

  lemma {:induction false} RunRestorable(policy: Policy, w: World, ops: seq<Op>)
    requires NestedRun(policy, w, ops, |w.journal|)
    ensures Restorable(Run(policy, w, ops), |w.journal|, w.state, w.journal)
  {
    if ops == [] {
      assert w.journal[..|w.journal|] == w.journal;
    } else {
      RunRestorable(policy, w, ops[..|ops| - 1]);
      StepRestorable(policy, Run(policy, w, ops[..|ops| - 1]), ops[|ops| - 1], |w.journal|, w.state, w.journal);
    }
  }

  /**
   * A checkpoint taken, anything done within it, inner checkpoints reverted or
   * committed, and the checkpoint reverted: every account is as it was, and so
   * is what the tracker says about it.
   */
  lemma RevertRestores(policy: Policy, w: World, ops: seq<Op>)
    requires InStep(policy, w) && NestedRun(policy, w, ops, |w.journal|)
    ensures var w' := Step(policy, Run(policy, w, ops), Revert(|w.journal|));
            && w'.journal == w.journal
            && Extends(w'.state, w.state)
            && forall a :: a in w.state ==> (a in w'.cache.failed <==> a in w.cache.failed)
  {
    var w1 := Run(policy, w, ops);
    var w' := Step(policy, w1, Revert(|w.journal|));
    RunRestorable(policy, w, ops);
    RunInStep(policy, w, ops);
    RevertInStep(policy, w1, Revert(|w.journal|));
    forall a | a in w.state
      ensures a in w'.cache.failed <==> a in w.cache.failed
    {
      assert ExactAt(policy, w.state, w.cache, a) && ExactAt(policy, w'.state, w'.cache, a);
    }
  }
}
