/** What every run of the staking contract keeps, whatever the epochs do. */
module StakingInvariant {
  import opened Checked
  import opened Sums
  import opened Ledger
  import opened LedgerInvariant
  import opened LedgerStanding
  import opened ValidatorSets
  import opened TwinLists
  import opened Staking

  // ----- the parts of the invariant ---------------------------------------

  ghost predicate AllBooks(s: State) {
    forall v: ValId :: Books(PoolOf(s, v), s.epoch, s.inBoundary)
  }

  predicate Known(s: State, v: ValId) {
    0 < v <= s.lastValId
  }

  /** The pool of a validator nobody has added holds nothing. */
  ghost predicate Unborn(p: Pool) {
    && p.val.stake == 0 && p.val.acc == 0 && p.val.commission == 0 && p.val.unclaimed == 0
    && p.val.auth == ZERO_ADDRESS
    && Liabilities(p) == 0
  }

  /** A known validator has meaningful flags and, without any, is in the execution set. */
  ghost predicate ValidatorOk(s: State, v: ValId) {
    var p := PoolOf(s, v);
    if Known(s, v) then
      && Exists(p.val) && p.val.commission <= MAX_COMMISSION && FlagsMean(p)
      && (p.val.flags == OK ==> v in s.sets.execution)
    else
      Unborn(p)
  }

  ghost predicate AllValidatorsOk(s: State) {
    forall v: ValId :: ValidatorOk(s, v)
  }

  ghost function LiabilitiesOf(pools: Pools): map<ValId, int> {
    map v | v in pools :: Liabilities(pools[v])
  }

  /** Value the contract holds beyond what it owes to anyone. */
  ghost function Surplus(s: State): int {
    s.credited - s.paid - Sum(LiabilitiesOf(s.pools))
  }

  /** A delegation is in both lists exactly while it has stake. */
  predicate Listed(s: State, v: ValId, a: Address) {
    && (a in ListOf(s.lists.delegatorsOf, v) <==> TotalOf(PoolOf(s, v), a) > 0)
    && (v in ListOf(s.lists.validatorsOf, a) <==> TotalOf(PoolOf(s, v), a) > 0)
  }

  ghost predicate AllListed(s: State) {
    forall v: ValId, a: Address :: Listed(s, v, a)
  }

  predicate Duplicates(m: map<nat, seq<nat>>) {
    exists k :: k in m && !Distinct(m[k])
  }

  ghost predicate ListsDistinct(s: State) {
    !Duplicates(s.lists.delegatorsOf) && !Duplicates(s.lists.validatorsOf)
  }

  predicate IdsKnown(s: State) {
    && (forall v :: v in s.sets.execution ==> Known(s, v))
    && (forall v :: v in s.sets.consensus ==> Known(s, v))
    && (forall v :: v in s.sets.snapshot ==> Known(s, v))
    && (forall a :: a in s.secp ==> s.secp[a] <= s.lastValId)
  }

  ghost predicate Sound(s: State) {
    && AllBooks(s)
    && AllValidatorsOk(s)
    && AllListed(s)
    && ListsDistinct(s)
    && SetsOk(s.sets)
    && IdsKnown(s)
  }

  lemma EmptyPoolBooks(epoch: Epoch, inBoundary: bool)
    ensures Books(EMPTY_POOL, epoch, inBoundary)
    ensures Liabilities(EMPTY_POOL) == 0
  {
    var p := EMPTY_POOL;
    SumEmpty(Totals(p.dels));
    SumEmpty(RewardsOf(p.dels));
    SumEmpty(Amounts(p.wds));
    forall e: Epoch
      ensures References(p, e) == 0
    {
      SumEmpty(WindowRefsOf(p.dels, e));
      SumEmpty(RequestRefsOf(p.wds, e));
    }
  }

  lemma GenesisSound()
    ensures Sound(GENESIS) && Surplus(GENESIS) == 0
  {
    EmptyPoolBooks(0, false);
    assert AllValidatorsOk(GENESIS);
    SumEmpty(LiabilitiesOf(GENESIS.pools));
  }

  // ----- one pool is replaced ---------------------------------------------

  lemma SurplusAfter(s: State, v: ValId, p: Pool)
    ensures Surplus(WithPool(s, v, p)) == Surplus(s) - Liabilities(p) + Liabilities(PoolOf(s, v))
  {
    EmptyPoolBooks(s.epoch, s.inBoundary);
    var m := LiabilitiesOf(s.pools);
    assert LiabilitiesOf(s.pools[v := p]) == m[v := Liabilities(p)];
    SumUpdate(m, v, Liabilities(p));
  }

  lemma BooksAfterPool(s: State, v: ValId, p: Pool)
    requires AllBooks(s) && Books(p, s.epoch, s.inBoundary)
    ensures AllBooks(WithPool(s, v, p))
  {
    var s' := WithPool(s, v, p);
    forall u: ValId
      ensures Books(PoolOf(s', u), s'.epoch, s'.inBoundary)
    {
      assert u != v ==> PoolOf(s', u) == PoolOf(s, u);
    }
  }

  /** Moving no stake disturbs neither the flags nor the lists. */
  lemma SameStandingSound(s: State, v: ValId, p: Pool)
    requires Sound(s) && Books(p, s.epoch, s.inBoundary)
    requires SameStanding(PoolOf(s, v), p)
    requires Known(s, v) || Unborn(p)
    ensures Sound(WithPool(s, v, p))
  {
    var s' := WithPool(s, v, p);
    BooksAfterPool(s, v, p);
    SameStandingValidators(s, v, p);
    SameStandingLists(s, v, p);
  }

  lemma SameStandingValidators(s: State, v: ValId, p: Pool)
    requires AllValidatorsOk(s) && SameStanding(PoolOf(s, v), p)
    requires Known(s, v) || Unborn(p)
    ensures AllValidatorsOk(WithPool(s, v, p))
  {
    var s' := WithPool(s, v, p);
    forall u: ValId
      ensures ValidatorOk(s', u)
    {
      assert ValidatorOk(s, u);
      if u == v && Known(s, v) {
        SameStandingFlags(PoolOf(s, v), p);
      }
    }
  }

  lemma SameStandingLists(s: State, v: ValId, p: Pool)
    requires AllListed(s) && SameStanding(PoolOf(s, v), p)
    ensures AllListed(WithPool(s, v, p))
  {
    var s' := WithPool(s, v, p);
    forall u: ValId, a: Address
      ensures Listed(s', u, a)
    {
      assert Listed(s, u, a);
    }
  }

  // ----- settling ----------------------------------------------------------

  /** A pool that trades places with a settled one. */
  lemma SettlingSound(s: State, v: ValId, a: Address, p: Pool)
    requires Sound(s) && Books(p, s.epoch, s.inBoundary)
    requires OnlySettles(PoolOf(s, v), p, a) && Liabilities(p) == Liabilities(PoolOf(s, v))
    ensures Sound(WithPool(s, v, p)) && Surplus(WithPool(s, v, p)) == Surplus(s)
    ensures SameStanding(PoolOf(s, v), p)
  {
    assert ValidatorOk(s, v);
    SettledStanding(PoolOf(s, v), p, a);
    SameStandingSound(s, v, p);
    SurplusAfter(s, v, p);
  }

  lemma PullSound(s: State, v: ValId, a: Address, p: Pool)
    requires Sound(s) && Pull(PoolOf(s, v), s.epoch, a) == Ok(p)
    ensures Sound(WithPool(s, v, p)) && Surplus(WithPool(s, v, p)) == Surplus(s)
    ensures a in p.dels && Settled(p.dels[a], s.epoch)
    ensures SameStanding(PoolOf(s, v), p)
  {
    assert Books(PoolOf(s, v), s.epoch, s.inBoundary);
    PullKeepsBooks(PoolOf(s, v), s.epoch, s.inBoundary, a, p);
    SettlingSound(s, v, a, p);
  }

  // ----- transfers ----------------------------------------------------------

  lemma TransferSound(s: State, amount: nat, s': State)
    requires Sound(s) && Transfer(s, amount) == Ok(s')
    ensures Sound(s') && Surplus(s') == Surplus(s) - amount
  {
    assert forall v: ValId :: PoolOf(s', v) == PoolOf(s, v);
    forall v: ValId
      ensures ValidatorOk(s', v)
    {
      assert ValidatorOk(s, v);
    }
    forall v: ValId, a: Address
      ensures Listed(s', v, a)
    {
      assert Listed(s, v, a);
    }
  }

  // ----- delegating ---------------------------------------------------------

  /** Everything `Sound` says, except about the record of validator `v`. */
  ghost predicate SoundBut(s: State, v: ValId) {
    && AllBooks(s)
    && (forall u: ValId :: u != v ==> ValidatorOk(s, u))
    && AllListed(s)
    && ListsDistinct(s)
    && SetsOk(s.sets)
    && IdsKnown(s)
  }

  lemma ListOfDistinct(m: map<nat, seq<nat>>, k: nat)
    requires !Duplicates(m)
    ensures Distinct(ListOf(m, k))
  {}

  lemma NoNewDuplicates(m: map<nat, seq<nat>>, k: nat, l: seq<nat>)
    requires !Duplicates(m) && Distinct(l)
    ensures !Duplicates(m[k := l])
  {
    var m' := m[k := l];
    forall j | j in m'
      ensures Distinct(m'[j])
    {
      ListOfDistinct(m, j);
    }
  }

  lemma PrependKeeps(l: seq<nat>, x: nat)
    requires Distinct(l)
    ensures Distinct(Prepend(l, x))
    ensures forall y :: y in Prepend(l, x) <==> y == x || y in l
  {}

  lemma EnlistedLists(s: State, v: ValId, a: Address, amount: nat, p: Pool, s': State)
    requires AllListed(s) && ListsDistinct(s) && amount > 0
    requires OneTotalMoves(PoolOf(s, v), p, a, TotalOf(PoolOf(s, v), a) + amount)
    requires s'.pools == s.pools[v := p] && Insert(s.lists, v, a) == Ok(s'.lists)
    ensures AllListed(s') && ListsDistinct(s')
  {
    ListOfDistinct(s.lists.delegatorsOf, v);
    ListOfDistinct(s.lists.validatorsOf, a);
    PrependKeeps(ListOf(s.lists.delegatorsOf, v), a);
    PrependKeeps(ListOf(s.lists.validatorsOf, a), v);
    NoNewDuplicates(s.lists.delegatorsOf, v, Prepend(ListOf(s.lists.delegatorsOf, v), a));
    NoNewDuplicates(s.lists.validatorsOf, a, Prepend(ListOf(s.lists.validatorsOf, a), v));
    forall u: ValId, b: Address
      ensures Listed(s', u, b)
    {
      assert Listed(s, u, b);
    }
  }

  lemma EnlistedSets(s: State, v: ValId, sets: Sets)
    requires SetsOk(s.sets) && IdsKnown(s) && Known(s, v)
    requires sets == s.sets || sets == AddToExecution(s.sets, v)
    ensures SetsOk(sets)
    ensures forall u :: u in s.sets.execution ==> u in sets.execution
    ensures forall u :: u in sets.execution ==> Known(s, u)
  {}

  /** Stake that joins a known validator brings the lists and the execution set up to date. */
  lemma EnlistSound(s: State, v: ValId, a: Address, amount: nat, p: Pool, s': State)
    requires SoundBut(s, v) && Known(s, v) && amount > 0
    requires Books(p, s.epoch, s.inBoundary)
    requires OneTotalMoves(PoolOf(s, v), p, a, TotalOf(PoolOf(s, v), a) + amount)
    requires Exists(p.val) && p.val.commission <= MAX_COMMISSION && FlagsMean(p)
    requires Enlist(WithPool(s, v, p), v, a) == Ok(s')
    ensures Sound(s')
  {
    EnlistedLists(s, v, a, amount, p, s');
    EnlistedSets(s, v, s'.sets);
    BooksAfterPool(s, v, p);
    SamePoolsBooks(WithPool(s, v, p), s');
    EnlistedValidators(s, v, a, p, s');
  }

  lemma EnlistedValidators(s: State, v: ValId, a: Address, p: Pool, s': State)
    requires forall u: ValId :: u != v ==> ValidatorOk(s, u)
    requires Known(s, v) && Exists(p.val) && p.val.commission <= MAX_COMMISSION && FlagsMean(p)
    requires Enlist(WithPool(s, v, p), v, a) == Ok(s')
    ensures AllValidatorsOk(s')
  {
    forall u: ValId
      ensures ValidatorOk(s', u)
    {
      if u != v {
        assert ValidatorOk(s, u);
      }
    }
  }

  /** The ledger part of a delegation. */
  lemma DelegatePool(
    p: Pool, epoch: Epoch, inBoundary: bool, a: Address, amount: nat, p': Pool) returns (p1: Pool)
    requires Books(p, epoch, inBoundary) && amount > 0
    requires Ledger.Delegate(p, epoch, inBoundary, a, amount) == Ok(p')
    ensures Pull(p, epoch, a) == Ok(p1) && a in p1.dels
    ensures Books(p1, epoch, inBoundary) && OnlySettles(p, p1, a) && Settled(p1.dels[a], epoch)
    ensures AddToWindow(p1, epoch, inBoundary, a, amount) == Ok(p')
    ensures Grew(p1, p', a, amount)
    ensures Books(p', epoch, inBoundary) && Liabilities(p') == Liabilities(p) + amount
  {
    p1 := Pull(p, epoch, a).value;
    PullKeepsBooks(p, epoch, inBoundary, a, p1);
    AddToWindowJoins(p1, epoch, inBoundary, a, amount, p');
    AddToWindowGrew(p1, epoch, inBoundary, a, amount, p');
    JoinedKeepsBooks(p1, epoch, inBoundary, a, amount, p');
  }

  lemma GrewFrom(p: Pool, p1: Pool, p': Pool, a: Address, amount: nat)
    requires SameStanding(p, p1) && Grew(p1, p', a, amount)
    ensures Grew(p, p', a, amount)
  {}

  lemma GrownPool(
    p: Pool, epoch: Epoch, inBoundary: bool, a: Address, amount: nat, p': Pool)
    requires Books(p, epoch, inBoundary) && amount > 0
    requires Ledger.Delegate(p, epoch, inBoundary, a, amount) == Ok(p')
    ensures Grew(p, p', a, amount)
    ensures Books(p', epoch, inBoundary) && Liabilities(p') == Liabilities(p) + amount
  {
    var p1 := DelegatePool(p, epoch, inBoundary, a, amount, p');
    SettledStanding(p, p1, a);
    GrewFrom(p, p1, p', a, amount);
  }

  lemma EnlistSurplus(s: State, v: ValId, a: Address, s': State)
    requires Enlist(s, v, a) == Ok(s')
    ensures Surplus(s') == Surplus(s)
  {}

  lemma InternalDelegateSound(s: State, v: ValId, a: Address, amount: nat, s': State)
    requires Sound(s) && Known(s, v) && amount > 0
    requires InternalDelegate(s, v, a, amount) == Ok(s')
    ensures Sound(s') && Surplus(s') == Surplus(s) - amount
  {
    var p := PoolOf(s, v);
    var p' := Ledger.Delegate(p, s.epoch, s.inBoundary, a, amount).value;
    assert Books(p, s.epoch, s.inBoundary) && ValidatorOk(s, v);
    GrownPool(p, s.epoch, s.inBoundary, a, amount, p');
    GrewFlags(p, p', a, amount);
    EnlistSound(s, v, a, amount, p', s');
    SurplusAfter(s, v, p');
    EnlistSurplus(WithPool(s, v, p'), v, a, s');
  }

  // ----- undelegating -------------------------------------------------------

  /** The ledger part of an undelegation; `taken` includes collected dust. */
  lemma UndelegateSteps(
    p: Pool, epoch: Epoch, inBoundary: bool, a: Address, amount: nat, wid: nat, p': Pool)
    returns (p1: Pool, taken: nat)
    requires amount > 0 && Ledger.Undelegate(p, epoch, inBoundary, a, amount, wid) == Ok(p')
    ensures !HasRequest(p, (a, wid))
    ensures Pull(p, epoch, a) == Ok(p1) && a in p1.dels
    ensures taken > 0 && amount <= taken <= p1.dels[a].stake
    ensures OpenWithdrawal(p1, epoch, inBoundary, a, wid, taken) == Ok(p')
  {
    p1 := Pull(p, epoch, a).value;
    taken := CollectDust(p1.dels[a].stake, amount);
  }

  lemma NoRequest(p: Pool, epoch: Epoch, inBoundary: bool, k: (Address, nat))
    requires AllRequestsOk(p, epoch, inBoundary) && !HasRequest(p, k)
    ensures k !in p.wds
  {
    assert k in p.wds ==> RequestOk(p.wds[k], epoch, inBoundary);
  }

  lemma UndelegatePool(
    p: Pool, epoch: Epoch, inBoundary: bool, a: Address, amount: nat, wid: nat, p': Pool)
    returns (p1: Pool, taken: nat)
    requires Books(p, epoch, inBoundary) && amount > 0
    requires Ledger.Undelegate(p, epoch, inBoundary, a, amount, wid) == Ok(p')
    ensures Pull(p, epoch, a) == Ok(p1) && a in p1.dels
    ensures Books(p1, epoch, inBoundary) && OnlySettles(p, p1, a)
    ensures taken > 0 && amount <= taken <= p1.dels[a].stake && (a, wid) !in p1.wds
    ensures OpenWithdrawal(p1, epoch, inBoundary, a, wid, taken) == Ok(p')
    ensures Liabilities(p1) == Liabilities(p)
  {
    p1, taken := UndelegateSteps(p, epoch, inBoundary, a, amount, wid, p');
    PullKeepsBooks(p, epoch, inBoundary, a, p1);
    NoRequest(p, epoch, inBoundary, (a, wid));
  }

  lemma ShrankFrom(p: Pool, p1: Pool, p': Pool, a: Address, amount: nat)
    requires SameStanding(p, p1) && Shrank(p1, p', a, amount)
    ensures Shrank(p, p', a, amount)
  {}

  lemma ShrunkPool(p: Pool, epoch: Epoch, inBoundary: bool, a: Address, amount: nat, wid: nat, p': Pool)
    returns (taken: nat)
    requires Books(p, epoch, inBoundary) && amount > 0
    requires Ledger.Undelegate(p, epoch, inBoundary, a, amount, wid) == Ok(p')
    ensures amount <= taken && Shrank(p, p', a, taken) && a in p'.dels
    ensures Books(p', epoch, inBoundary) && Liabilities(p') == Liabilities(p)
  {
    var p1, t := UndelegatePool(p, epoch, inBoundary, a, amount, wid, p');
    taken := t;
    SettledStanding(p, p1, a);
    OpenWithdrawalOpens(p1, epoch, inBoundary, a, wid, taken, p');
    OpenedKeepsBooks(p1, epoch, inBoundary, (a, wid), taken, p');
    OpenWithdrawalShrank(p1, epoch, inBoundary, a, wid, taken, p');
    ShrankFrom(p, p1, p', a, taken);
  }

  lemma DelistedLists(s: State, v: ValId, a: Address, taken: nat, p: Pool, s': State)
    requires AllListed(s) && ListsDistinct(s) && taken > 0
    requires OneTotalMoves(PoolOf(s, v), p, a, TotalOf(PoolOf(s, v), a) - taken)
    requires s'.pools == s.pools[v := p]
    requires s'.lists == if TotalOf(p, a) > 0 then s.lists else Remove(s.lists, v, a)
    ensures AllListed(s') && ListsDistinct(s')
  {
    ListOfDistinct(s.lists.delegatorsOf, v);
    ListOfDistinct(s.lists.validatorsOf, a);
    WithoutKeeps(ListOf(s.lists.delegatorsOf, v), a);
    WithoutKeeps(ListOf(s.lists.validatorsOf, a), v);
    NoNewDuplicates(s.lists.delegatorsOf, v, Without(ListOf(s.lists.delegatorsOf, v), a));
    NoNewDuplicates(s.lists.validatorsOf, a, Without(ListOf(s.lists.validatorsOf, a), v));
    forall u: ValId, b: Address
      ensures Listed(s', u, b)
    {
      assert Listed(s, u, b) && Listed(s, v, a);
    }
  }

  lemma ShrunkValidators(s: State, v: ValId, a: Address, taken: nat, p: Pool, s': State)
    requires AllValidatorsOk(s) && Known(s, v) && Shrank(PoolOf(s, v), p, a, taken)
    requires s' == WithPool(s, v, p).(lists := s'.lists)
    ensures AllValidatorsOk(s')
  {
    assert ValidatorOk(s, v);
    ShrankFlags(PoolOf(s, v), p, a, taken);
    forall u: ValId
      ensures ValidatorOk(s', u)
    {
      assert ValidatorOk(s, u);
    }
  }

  lemma SamePoolsBooks(s: State, s': State)
    requires AllBooks(s) && s'.pools == s.pools && s'.epoch == s.epoch && s'.inBoundary == s.inBoundary
    ensures AllBooks(s')
  {
    forall u: ValId
      ensures Books(PoolOf(s', u), s'.epoch, s'.inBoundary)
    {
      assert PoolOf(s', u) == PoolOf(s, u);
    }
  }

  lemma ShrunkSound(s: State, v: ValId, a: Address, taken: nat, p: Pool, s': State)
    requires Sound(s) && Known(s, v) && taken > 0
    requires Books(p, s.epoch, s.inBoundary) && Shrank(PoolOf(s, v), p, a, taken)
    requires s' == WithPool(s, v, p).(lists := s'.lists)
    requires s'.lists == if TotalOf(p, a) > 0 then s.lists else Remove(s.lists, v, a)
    ensures Sound(s')
  {
    BooksAfterPool(s, v, p);
    SamePoolsBooks(WithPool(s, v, p), s');
    ShrunkValidators(s, v, a, taken, p, s');
    DelistedLists(s, v, a, taken, p, s');
  }

  lemma ListsHoldNoValue(s: State, v: ValId, p: Pool, s': State)
    requires s' == WithPool(s, v, p).(lists := s'.lists)
    ensures Surplus(s') == Surplus(s) - Liabilities(p) + Liabilities(PoolOf(s, v))
  {
    SurplusAfter(s, v, p);
  }

  lemma HandleUndelegateSteps(
    s: State, v: ValId, caller: Address, amount: nat, wid: nat, s': State) returns (p: Pool)
    requires amount != 0 && HandleUndelegate(s, v, caller, amount, wid) == Ok(s')
    ensures Exists(PoolOf(s, v).val)
    ensures Ledger.Undelegate(PoolOf(s, v), s.epoch, s.inBoundary, caller, amount, wid) == Ok(p)
    ensures s' == WithPool(s, v, p).(lists := s'.lists)
    ensures s'.lists == if TotalOf(p, caller) > 0 then s.lists else Remove(s.lists, v, caller)
  {
    p := Ledger.Undelegate(PoolOf(s, v), s.epoch, s.inBoundary, caller, amount, wid).value;
  }

  lemma UndelegateSound(s: State, v: ValId, caller: Address, amount: nat, wid: nat, s': State)
    requires Sound(s) && HandleUndelegate(s, v, caller, amount, wid) == Ok(s')
    ensures Sound(s') && Surplus(s') == Surplus(s)
  {
    if amount != 0 {
      var p := HandleUndelegateSteps(s, v, caller, amount, wid, s');
      assert Books(PoolOf(s, v), s.epoch, s.inBoundary) && ValidatorOk(s, v);
      var taken := ShrunkPool(PoolOf(s, v), s.epoch, s.inBoundary, caller, amount, wid, p);
      ShrunkSound(s, v, caller, taken, p, s');
      ListsHoldNoValue(s, v, p, s');
    }
  }

  // ----- withdrawing and claiming --------------------------------------------

  lemma LiabilitiesNonNegative(p: Pool)
    ensures Liabilities(p) >= p.val.unclaimed + p.val.stake
  {
    SumNonNegative(RewardsOf(p.dels));
    SumNonNegative(Amounts(p.wds));
  }

  lemma WithdrawPool(p: Pool, epoch: Epoch, inBoundary: bool, a: Address, wid: nat, p': Pool, payout: nat)
    requires Books(p, epoch, inBoundary) && Ledger.Withdraw(p, epoch, a, wid) == Ok((p', payout))
    ensures SameStanding(p, p') && payout > 0
    ensures Books(p', epoch, inBoundary) && Liabilities(p') == Liabilities(p) - payout
  {
    var k := (a, wid);
    var rewards := CloseWithdrawal(p, k).value.1;
    CloseWithdrawalKeepsBooks(p, epoch, inBoundary, k, p', rewards);
    CloseWithdrawalStanding(p, k, p', rewards);
  }

  lemma WithdrawSound(s: State, v: ValId, caller: Address, wid: nat, s': State)
    requires Sound(s) && HandleWithdraw(s, v, caller, wid) == Ok(s')
    ensures Sound(s') && Surplus(s') == Surplus(s)
  {
    var p := PoolOf(s, v);
    var (p', payout) := Ledger.Withdraw(p, s.epoch, caller, wid).value;
    assert Books(p, s.epoch, s.inBoundary) && ValidatorOk(s, v);
    WithdrawPool(p, s.epoch, s.inBoundary, caller, wid, p', payout);
    LiabilitiesNonNegative(p');
    SameStandingSound(s, v, p');
    SurplusAfter(s, v, p');
    TransferSound(WithPool(s, v, p'), payout, s');
  }

  /** Credited rewards exist only at a known validator. */
  lemma RewardsKnown(s: State, v: ValId, a: Address)
    requires Sound(s) && v in s.pools && a in s.pools[v].dels && s.pools[v].dels[a].rewards > 0
    ensures Known(s, v)
  {
    var p := s.pools[v];
    assert Books(PoolOf(s, v), s.epoch, s.inBoundary) && ValidatorOk(s, v);
    SumMember(RewardsOf(p.dels), a);
    SumNonNegative(Amounts(p.wds));
  }

  /** The state between taking the credited rewards and handing them on. */
  lemma ClearedSound(s: State, v: ValId, a: Address, s': State)
    requires Sound(s) && v in s.pools && a in s.pools[v].dels && s.pools[v].dels[a].rewards > 0
    requires s' == WithPool(s, v, ClearRewards(s.pools[v], a))
    ensures Sound(s') && Surplus(s') == Surplus(s) + s.pools[v].dels[a].rewards
    ensures Known(s', v)
  {
    var p := s.pools[v];
    assert Books(PoolOf(s, v), s.epoch, s.inBoundary);
    RewardsKnown(s, v, a);
    ClearRewardsKeepsBooks(p, s.epoch, s.inBoundary, a);
    ClearRewardsStanding(p, a);
    SameStandingSound(s, v, ClearRewards(p, a));
    SurplusAfter(s, v, ClearRewards(p, a));
  }

  lemma PulledAndCleared(s: State, v: ValId, a: Address, p: Pool, s': State)
    requires Sound(s) && Pull(PoolOf(s, v), s.epoch, a) == Ok(p)
    requires a in p.dels && p.dels[a].rewards > 0
    requires s' == WithPool(s, v, ClearRewards(p, a))
    ensures Sound(s') && Surplus(s') == Surplus(s) + p.dels[a].rewards
    ensures Known(s', v)
  {
    PullSound(s, v, a, p);
    var s1 := WithPool(s, v, p);
    assert s' == WithPool(s1, v, ClearRewards(s1.pools[v], a));
    ClearedSound(s1, v, a, s');
  }

  lemma ClaimRewardsSound(s: State, v: ValId, caller: Address, s': State)
    requires Sound(s) && HandleClaimRewards(s, v, caller) == Ok(s')
    ensures Sound(s') && Surplus(s') == Surplus(s)
  {
    var p := Pull(PoolOf(s, v), s.epoch, caller).value;
    if p.dels[caller].rewards == 0 {
      PullSound(s, v, caller, p);
    } else {
      var s1 := WithPool(s, v, ClearRewards(p, caller));
      PulledAndCleared(s, v, caller, p, s1);
      TransferSound(s1, p.dels[caller].rewards, s');
    }
  }

  lemma CompoundSound(s: State, v: ValId, caller: Address, s': State)
    requires Sound(s) && HandleCompound(s, v, caller) == Ok(s')
    ensures Sound(s') && Surplus(s') == Surplus(s)
  {
    var p := Pull(PoolOf(s, v), s.epoch, caller).value;
    if p.dels[caller].rewards == 0 {
      PullSound(s, v, caller, p);
    } else {
      var s1 := WithPool(s, v, ClearRewards(p, caller));
      PulledAndCleared(s, v, caller, p, s1);
      InternalDelegateSound(s1, v, caller, p.dels[caller].rewards, s');
    }
  }

  // ----- validators and rewards ----------------------------------------------

  lemma CommissionPool(p: Pool, epoch: Epoch, inBoundary: bool, commission: nat, p': Pool)
    requires Books(p, epoch, inBoundary) && p' == p.(val := p.val.(commission := commission))
    ensures Books(p', epoch, inBoundary) && Liabilities(p') == Liabilities(p)
    ensures FlagsMean(p) ==> FlagsMean(p')
  {}

  lemma CommissionValidators(s: State, v: ValId, commission: nat, s': State)
    requires AllValidatorsOk(s) && AllBooks(s) && Known(s, v) && commission <= MAX_COMMISSION
    requires var p := PoolOf(s, v); s' == WithPool(s, v, p.(val := p.val.(commission := commission)))
    ensures AllValidatorsOk(s')
  {
    var p := PoolOf(s, v);
    assert Books(p, s.epoch, s.inBoundary) && ValidatorOk(s, v);
    CommissionPool(p, s.epoch, s.inBoundary, commission, PoolOf(s', v));
    forall u: ValId
      ensures ValidatorOk(s', u)
    {
      assert ValidatorOk(s, u);
    }
  }

  lemma SameDelegatorsListed(s: State, s': State)
    requires AllListed(s) && s'.lists == s.lists
    requires forall u: ValId :: PoolOf(s', u).dels == PoolOf(s, u).dels
    ensures AllListed(s')
  {
    forall u: ValId, a: Address
      ensures Listed(s', u, a)
    {
      assert Listed(s, u, a);
    }
  }

  lemma CommissionBooks(s: State, v: ValId, commission: nat, p': Pool)
    requires AllBooks(s) && p' == PoolOf(s, v).(val := PoolOf(s, v).val.(commission := commission))
    ensures AllBooks(WithPool(s, v, p')) && Surplus(WithPool(s, v, p')) == Surplus(s)
  {
    assert Books(PoolOf(s, v), s.epoch, s.inBoundary);
    CommissionPool(PoolOf(s, v), s.epoch, s.inBoundary, commission, p');
    BooksAfterPool(s, v, p');
    SurplusAfter(s, v, p');
  }

  lemma CommissionSound(s: State, v: ValId, commission: nat, p': Pool)
    requires Sound(s) && Known(s, v) && commission <= MAX_COMMISSION
    requires p' == PoolOf(s, v).(val := PoolOf(s, v).val.(commission := commission))
    ensures Sound(WithPool(s, v, p')) && Surplus(WithPool(s, v, p')) == Surplus(s)
  {
    CommissionBooks(s, v, commission, p');
    CommissionValidators(s, v, commission, WithPool(s, v, p'));
    SameDelegatorsListed(s, WithPool(s, v, p'));
  }

  lemma ChangeCommissionSound(s: State, v: ValId, caller: Address, commission: nat, s': State)
    requires Sound(s) && HandleChangeCommission(s, v, caller, commission) == Ok(s')
    ensures Sound(s') && Surplus(s') == Surplus(s)
  {
    assert ValidatorOk(s, v);
    CommissionSound(s, v, commission, PoolOf(s, v).(val := PoolOf(s, v).val.(commission := commission)));
  }

  lemma ExternalRewardSound(s: State, v: ValId, value: nat, s': State)
    requires Sound(s) && HandleExternalReward(s, v, value) == Ok(s')
    ensures Sound(s') && Surplus(s') == Surplus(s) - value
  {
    var p, active := PoolOf(s, v), ActiveView(s, v).stake;
    var p' := Distribute(p, value, active).value;
    assert Books(p, s.epoch, s.inBoundary) && ValidatorOk(s, v);
    DistributeKeepsBooks(p, s.epoch, s.inBoundary, value, active, p');
    DistributeStanding(p, value, active, p');
    SameStandingSound(s, v, p');
    SurplusAfter(s, v, p');
  }

  lemma ProposerSound(s: State, v: ValId)
    requires Sound(s)
    ensures Sound(s.(proposer := v)) && Surplus(s.(proposer := v)) == Surplus(s)
  {
    var s' := s.(proposer := v);
    assert forall u: ValId :: PoolOf(s', u) == PoolOf(s, u);
    forall u: ValId
      ensures ValidatorOk(s', u)
    {
      assert ValidatorOk(s, u);
    }
    forall u: ValId, a: Address
      ensures Listed(s', u, a)
    {
      assert Listed(s, u, a);
    }
  }

  lemma BlockRewardPool(p: Pool, epoch: Epoch, inBoundary: bool, reward: nat, rate: nat, active: nat, p': Pool)
    requires Books(p, epoch, inBoundary) && BlockReward(p, reward, rate, active) == Ok(p')
    ensures Books(p', epoch, inBoundary) && Liabilities(p') == Liabilities(p) + reward
    ensures SameStanding(p, p')
  {
    var commission, shared, p1 := BlockRewardSteps(p, reward, rate, active, p');
    BlockRewardKeepsBooks(p, epoch, inBoundary, commission, shared, active, p1, p');
    BlockRewardStanding(p, commission, shared, active, p1, p');
  }

  lemma SyscallRewardSteps(s: State, caller: Address, author: Address, reward: nat, s': State)
    returns (v: ValId, p: Pool)
    requires IdsKnown(s) && HandleSyscallReward(s, caller, author, reward) == Ok(s')
    ensures Known(s, v) && v == IdAt(s.secp, author) && ActiveView(s, v).stake > 0
    ensures BlockReward(PoolOf(s, v), reward, ActiveView(s, v).commission, ActiveView(s, v).stake) == Ok(p)
    ensures s' == WithPool(s, v, p).(proposer := v)
  {
    v := IdAt(s.secp, author);
    p := BlockReward(PoolOf(s, v), reward, ActiveView(s, v).commission, ActiveView(s, v).stake).value;
  }

  lemma SyscallRewardSound(s: State, caller: Address, author: Address, reward: nat, s': State)
    requires Sound(s) && HandleSyscallReward(s, caller, author, reward) == Ok(s')
    ensures Sound(s') && Surplus(s') == Surplus(s) - reward
  {
    var v, p := SyscallRewardSteps(s, caller, author, reward, s');
    var view := ActiveView(s, v);
    assert Books(PoolOf(s, v), s.epoch, s.inBoundary);
    BlockRewardPool(PoolOf(s, v), s.epoch, s.inBoundary, reward, view.commission, view.stake, p);
    SameStandingSound(s, v, p);
    SurplusAfter(s, v, p);
    ProposerSound(WithPool(s, v, p), v);
  }

  // ----- a new validator ------------------------------------------------------

  lemma BornPool(p: Pool, epoch: Epoch, inBoundary: bool, auth: Address, commission: nat, p': Pool)
    requires Books(p, epoch, inBoundary) && Unborn(p)
    requires p' == p.(val := NewValidator(auth, commission))
    ensures Books(p', epoch, inBoundary) && Liabilities(p') == Liabilities(p)
    ensures forall a: Address :: TotalOf(p', a) == TotalOf(p, a)
    ensures p'.val.auth == auth && p'.val.flags == Flags(true, false, false)
    ensures p'.val.commission == commission && p'.val.acc == p.val.acc && p'.val.unclaimed == p.val.unclaimed
  {}

  lemma RegisteredValidators(s: State, v: ValId, s': State)
    requires AllValidatorsOk(s) && v == s.lastValId + 1 == s'.lastValId && s'.sets == s.sets
    requires forall u: ValId :: u != v ==> PoolOf(s', u) == PoolOf(s, u)
    ensures forall u: ValId :: u != v ==> ValidatorOk(s', u)
  {
    forall u: ValId | u != v
      ensures ValidatorOk(s', u)
    {
      assert ValidatorOk(s, u);
    }
  }

  lemma RegisteredBooks(s: State, v: ValId, auth: Address, commission: nat, p': Pool, s': State)
    requires AllBooks(s) && Unborn(PoolOf(s, v)) && p' == PoolOf(s, v).(val := NewValidator(auth, commission))
    requires s'.pools == s.pools[v := p'] && s'.epoch == s.epoch && s'.inBoundary == s.inBoundary
    requires s'.credited == s.credited && s'.paid == s.paid
    ensures AllBooks(s') && Surplus(s') == Surplus(s)
    ensures p'.val.auth == auth && p'.val.commission == commission && p'.val.flags == Flags(true, false, false)
    ensures forall u: ValId :: PoolOf(s', u).dels == PoolOf(s, u).dels
  {
    assert Books(PoolOf(s, v), s.epoch, s.inBoundary);
    BornPool(PoolOf(s, v), s.epoch, s.inBoundary, auth, commission, p');
    BooksAfterPool(s, v, p');
    SamePoolsBooks(WithPool(s, v, p'), s');
    SurplusAfter(s, v, p');
  }

  lemma RegisteredSound(s: State, auth: Address, blsKey: Address, commission: nat, s': State)
    requires Sound(s) && s' == Registered(s, auth, blsKey, commission)
    ensures SoundBut(s', s'.lastValId) && Surplus(s') == Surplus(s) && s'.lastValId == s.lastValId + 1
    ensures var p := PoolOf(s', s'.lastValId);
            p.val.auth == auth && p.val.commission == commission && p.val.flags == Flags(true, false, false)
  {
    var v := s'.lastValId;
    var p, p' := PoolOf(s, v), PoolOf(s', v);
    assert ValidatorOk(s, v);
    RegisteredBooks(s, v, auth, commission, p', s');
    RegisteredValidators(s, v, s');
    SameDelegatorsListed(s, s');
  }

  lemma AddValidatorSteps(
    s: State, auth: Address, blsKey: Address, signedStake: nat, commission: nat, value: nat, s': State)
    requires HandleAddValidator(s, auth, blsKey, signedStake, commission, value) == Ok(s')
    ensures value >= MIN_AUTH_ADDRESS_STAKE && commission <= MAX_COMMISSION
    ensures auth != ZERO_ADDRESS
    ensures InternalDelegate(Registered(s, auth, blsKey, commission), s.lastValId + 1, auth, value) == Ok(s')
  {}

  /** The first delegation of a new validator puts its record in order. */
  lemma FirstDelegationSound(s: State, v: ValId, a: Address, amount: nat, s': State)
    requires SoundBut(s, v) && Known(s, v) && amount >= MIN_AUTH_ADDRESS_STAKE
    requires var p := PoolOf(s, v);
             p.val.auth == a && p.val.commission <= MAX_COMMISSION && p.val.flags == Flags(true, false, false)
    requires a != ZERO_ADDRESS && InternalDelegate(s, v, a, amount) == Ok(s')
    ensures Sound(s') && Surplus(s') == Surplus(s) - amount
  {
    var p := PoolOf(s, v);
    var p' := Ledger.Delegate(p, s.epoch, s.inBoundary, a, amount).value;
    assert Books(p, s.epoch, s.inBoundary);
    GrownPool(p, s.epoch, s.inBoundary, a, amount, p');
    BornFlags(p, p', amount);
    EnlistSound(s, v, a, amount, p', s');
    SurplusAfter(s, v, p');
    EnlistSurplus(WithPool(s, v, p'), v, a, s');
  }

  lemma AddValidatorSound(
    s: State, auth: Address, blsKey: Address, signedStake: nat, commission: nat, value: nat, s': State)
    requires Sound(s) && HandleAddValidator(s, auth, blsKey, signedStake, commission, value) == Ok(s')
    ensures Sound(s') && Surplus(s') == Surplus(s) - value
  {
    AddValidatorSteps(s, auth, blsKey, signedStake, commission, value, s');
    var s1 := Registered(s, auth, blsKey, commission);
    RegisteredSound(s, auth, blsKey, commission, s1);
    FirstDelegationSound(s1, s1.lastValId, auth, value, s');
  }

  // ----- snapshot and epoch change --------------------------------------------

  lemma ElectedView(s: State, v: ValId)
    requires AllValidatorsOk(s) && IdsKnown(s) && v in s.sets.execution && Eligible(s.pools, v)
    ensures ValOf(s.pools, v).stake >= ACTIVE_VALIDATOR_STAKE && ValOf(s.pools, v).commission <= MAX_COMMISSION
  {
    assert Known(s, v) && ValidatorOk(s, v);
    assert ValOf(s.pools, v) == PoolOf(s, v).val;
  }

  lemma ElectedViewsMatch(s: State, elected: seq<ValId>)
    requires AllValidatorsOk(s) && IdsKnown(s)
    requires forall v :: v in elected ==> v in s.sets.execution && Eligible(s.pools, v)
    ensures ViewsMatch(elected, ViewsOf(s.pools, elected))
  {
    forall v | v in elected {
      ElectedView(s, v);
    }
  }

  lemma ClearedViews(s: seq<ValId>, views: Views, more: Views)
    requires ViewsMatch(s, views)
    ensures (views - Elements(s)) + more == more
    ensures CopiedViews(views, s) == views
  {}

  lemma SnapshotViews(s: State, sets: Sets)
    requires AllValidatorsOk(s) && SetsOk(s.sets) && IdsKnown(s) && sets == TakeSnapshot(s.sets, s.pools)
    ensures ViewsMatch(sets.consensus, sets.consensusView)
    ensures ViewsMatch(sets.snapshot, sets.snapshotView)
  {
    ElectedByRank(s.pools, s.sets.execution);
    ElectedViewsMatch(s, sets.consensus);
    ClearedViews(s.sets.consensus, s.sets.consensusView, ViewsOf(s.pools, sets.consensus));
    ClearedViews(s.sets.snapshot, s.sets.snapshotView, s.sets.consensusView);
  }

  lemma SnapshotSets(s: State, sets: Sets)
    requires AllValidatorsOk(s) && SetsOk(s.sets) && IdsKnown(s) && sets == TakeSnapshot(s.sets, s.pools)
    ensures SetsOk(sets)
    ensures forall v :: v in sets.execution <==> v in s.sets.execution && Eligible(s.pools, v)
    ensures forall v :: v in sets.consensus ==> v in s.sets.execution
  {
    ElectedByRank(s.pools, s.sets.execution);
    SweepKeepsEligible(s.pools, s.sets.execution);
    SnapshotViews(s, sets);
  }

  /**
   * The snapshot set becomes the old consensus set, views and all; the new
   * consensus set is the elected one, with the stakes of this moment; and a
   * view is empty exactly if its validator is not in the set.
   */
  lemma SnapshotRebuilds(s: State, caller: Address, s': State)
    requires Sound(s) && HandleSyscallSnapshot(s, caller) == Ok(s')
    ensures s'.sets.snapshot == s.sets.consensus && s'.sets.snapshotView == s.sets.consensusView
    ensures s'.sets.consensus == Elected(s.pools, s.sets.execution)
    ensures s'.sets.consensusView == ViewsOf(s.pools, s'.sets.consensus)
    ensures forall v: ValId :: ViewOf(s'.sets.consensusView, v).stake > 0 <==> v in s'.sets.consensus
    ensures forall v: ValId :: ViewOf(s'.sets.snapshotView, v).stake > 0 <==> v in s'.sets.snapshot
  {
    ClearedViews(s.sets.consensus, s.sets.consensusView, ViewsOf(s.pools, s'.sets.consensus));
    ClearedViews(s.sets.snapshot, s.sets.snapshotView, s.sets.consensusView);
    SnapshotViews(s, s'.sets);
    ViewsTellMembers(s'.sets.consensus, s'.sets.consensusView);
    ViewsTellMembers(s'.sets.snapshot, s'.sets.snapshotView);
  }

  lemma ViewsTellMembers(s: seq<ValId>, views: Views)
    requires ViewsMatch(s, views)
    ensures forall v: ValId :: ViewOf(views, v).stake > 0 <==> v in s
  {
    forall v: ValId
      ensures ViewOf(views, v).stake > 0 <==> v in s
    {
      assert v in views <==> v in Elements(s);
    }
  }

  lemma SnapshotBooks(s: State, s': State)
    requires AllBooks(s) && !s.inBoundary
    requires s'.pools == s.pools && s'.epoch == s.epoch && s'.inBoundary
    ensures AllBooks(s')
  {
    forall v: ValId
      ensures Books(PoolOf(s', v), s'.epoch, s'.inBoundary)
    {
      assert Books(PoolOf(s, v), s.epoch, s.inBoundary);
      BoundaryKeepsBooks(PoolOf(s, v), s.epoch);
    }
  }

  lemma SnapshotValidators(s: State, s': State)
    requires AllValidatorsOk(s) && s'.pools == s.pools && s'.lastValId == s.lastValId
    requires forall v :: v in s'.sets.execution <==> v in s.sets.execution && Eligible(s.pools, v)
    ensures AllValidatorsOk(s')
  {
    forall v: ValId
      ensures ValidatorOk(s', v)
    {
      assert ValidatorOk(s, v);
    }
  }

  lemma SnapshotSound(s: State, caller: Address, s': State)
    requires Sound(s) && HandleSyscallSnapshot(s, caller) == Ok(s')
    ensures Sound(s') && Surplus(s') == Surplus(s)
  {
    SnapshotSets(s, s'.sets);
    SnapshotBooks(s, s');
    SnapshotValidators(s, s');
    SameDelegatorsListed(s, s');
  }

  /** What the epoch change does to one pool. */
  lemma FrozenPool(s: State, next: Epoch, v: ValId)
    ensures PoolOf(s.(pools := FreezeAll(s.pools, s.sets.snapshot, next)), v)
            == if v in s.sets.snapshot then Freeze(PoolOf(s, v), next) else PoolOf(s, v)
  {}

  lemma EpochChangeBooks(s: State, next: Epoch, s': State)
    requires AllBooks(s) && s.epoch < next
    requires s'.pools == FreezeAll(s.pools, s.sets.snapshot, next) && s'.epoch == next && !s'.inBoundary
    ensures AllBooks(s')
  {
    forall v: ValId
      ensures Books(PoolOf(s', v), s'.epoch, s'.inBoundary)
    {
      var p := PoolOf(s, v);
      assert Books(p, s.epoch, s.inBoundary);
      FrozenPool(s, next, v);
      FreezeKeepsBooks(p, s.epoch, s.inBoundary, next);
      LaterEpochKeepsBooks(PoolOf(s', v), s.epoch, s.inBoundary, next);
    }
  }

  lemma EpochChangeValidators(s: State, next: Epoch, s': State)
    requires AllValidatorsOk(s) && s'.lastValId == s.lastValId && s'.sets == s.sets
    requires s'.pools == FreezeAll(s.pools, s.sets.snapshot, next)
    ensures AllValidatorsOk(s')
    ensures forall v: ValId :: PoolOf(s', v).dels == PoolOf(s, v).dels
  {
    forall v: ValId
      ensures ValidatorOk(s', v)
      ensures PoolOf(s', v).dels == PoolOf(s, v).dels
    {
      assert ValidatorOk(s, v);
      FrozenPool(s, next, v);
    }
  }

  lemma EpochChangeSurplus(s: State, next: Epoch, s': State)
    requires AllBooks(s)
    requires s' == s.(pools := FreezeAll(s.pools, s.sets.snapshot, next), inBoundary := false, epoch := next)
    ensures Surplus(s') == Surplus(s)
  {
    assert s'.pools.Keys == s.pools.Keys;
    forall v | v in s.pools
      ensures Liabilities(s'.pools[v]) == Liabilities(s.pools[v])
    {
      assert Books(PoolOf(s, v), s.epoch, s.inBoundary);
      FrozenPool(s, next, v);
      FreezeKeepsBooks(PoolOf(s, v), s.epoch, s.inBoundary, next);
    }
    assert LiabilitiesOf(s'.pools) == LiabilitiesOf(s.pools);
  }

  lemma EpochChangeSound(s: State, caller: Address, next: Epoch, s': State)
    requires Sound(s) && HandleSyscallOnEpochChange(s, caller, next) == Ok(s')
    ensures Sound(s') && Surplus(s') == Surplus(s)
  {
    EpochChangeBooks(s, next, s');
    EpochChangeValidators(s, next, s');
    SameDelegatorsListed(s, s');
    EpochChangeSurplus(s, next, s');
  }

  // ----- every run ------------------------------------------------------------

  lemma UserCallSound(s: State, op: Op, s': State)
    requires Sound(s) && Handle(s, op) == Ok(s')
    requires op.AddValidator? || op.Delegate? || op.Undelegate? || op.Withdraw? || op.Compound?
    ensures Sound(s') && Surplus(s') == Surplus(s) - ValueOf(op)
  {
    match op
    case AddValidator(auth, blsKey, signedStake, commission, value) =>
      AddValidatorSound(s, auth, blsKey, signedStake, commission, value, s');
    case Delegate(v, caller, value) => DelegateSound(s, v, caller, value, s');
    case Undelegate(v, caller, amount, wid) => UndelegateSound(s, v, caller, amount, wid, s');
    case Withdraw(v, caller, wid) => WithdrawSound(s, v, caller, wid, s');
    case Compound(v, caller) => CompoundSound(s, v, caller, s');
  }

  lemma DelegateSound(s: State, v: ValId, caller: Address, value: nat, s': State)
    requires Sound(s) && HandleDelegate(s, v, caller, value) == Ok(s')
    ensures Sound(s') && Surplus(s') == Surplus(s) - value
  {
    if value != 0 {
      assert ValidatorOk(s, v);
      InternalDelegateSound(s, v, caller, value, s');
    }
  }

  lemma GetDelegatorSound(s: State, v: ValId, delegator: Address, s': State)
    requires Sound(s) && HandleGetDelegator(s, v, delegator) == Ok(s')
    ensures Sound(s') && Surplus(s') == Surplus(s)
  {
    PullSound(s, v, delegator, Pull(PoolOf(s, v), s.epoch, delegator).value);
  }

  lemma HandleSound(s: State, op: Op, s': State)
    requires Sound(s) && Handle(s, op) == Ok(s')
    ensures Sound(s') && Surplus(s') == Surplus(s) - ValueOf(op)
  {
    match op
    case ClaimRewards(v, caller) => ClaimRewardsSound(s, v, caller, s');
    case ChangeCommission(v, caller, commission) => ChangeCommissionSound(s, v, caller, commission, s');
    case ExternalReward(v, value) => ExternalRewardSound(s, v, value, s');
    case GetDelegator(v, delegator) => GetDelegatorSound(s, v, delegator, s');
    case SyscallReward(caller, author, reward) => SyscallRewardSound(s, caller, author, reward, s');
    case SyscallSnapshot(caller) => SnapshotSound(s, caller, s');
    case SyscallOnEpochChange(caller, next) => EpochChangeSound(s, caller, next, s');
    case _ => UserCallSound(s, op, s');
  }

  lemma CreditSound(s: State, op: Op)
    requires Sound(s)
    ensures Sound(Credited(s, op))
    ensures Surplus(Credited(s, op)) == Surplus(s) + ValueOf(op)
  {
    var s' := Credited(s, op);
    SamePoolsBooks(s, s');
    forall v: ValId
      ensures ValidatorOk(s', v)
    {
      assert ValidatorOk(s, v);
    }
    SameDelegatorsListed(s, s');
  }

  lemma CreditedHandleSound(s: State, c: State, op: Op, s': State)
    requires Sound(c) && Surplus(c) == Surplus(s) + ValueOf(op) && Handle(c, op) == Ok(s')
    ensures Sound(s') && Surplus(s') == Surplus(s)
  {
    HandleSound(c, op, s');
  }

  lemma OutcomeSound(s: State, op: Op, s': State)
    requires Sound(s) && Outcome(s, op) == Ok(s')
    ensures Sound(s') && Surplus(s') == Surplus(s)
  {
    CreditSound(s, op);
    CreditedHandleSound(s, Credited(s, op), op, s');
  }

  lemma StepSound(s: State, op: Op, s': State)
    requires Sound(s) && s' == Step(s, op)
    ensures Sound(s') && Surplus(s') == Surplus(s)
  {
    if Outcome(s, op) == Ok(s') {
      OutcomeSound(s, op, s');
    }
  }

  lemma {:induction false} RunKeepsSound(s: State, ops: seq<Op>)
    requires Sound(s)
    ensures Sound(Run(s, ops)) && Surplus(Run(s, ops)) == Surplus(s)
  {
    if ops != [] {
      RunKeepsSound(s, ops[..|ops| - 1]);
      StepSound(Run(s, ops[..|ops| - 1]), ops[|ops| - 1], Run(s, ops));
    }
  }

  /**
   * Over every run from genesis, whatever its epochs: the books of every pool
   * are exact, the flags mean what they say, the lists hold whoever has stake,
   * and the contract holds exactly what it owes.
   */
  lemma RunSound(ops: seq<Op>)
    ensures Sound(Run(GENESIS, ops)) && Surplus(Run(GENESIS, ops)) == 0
  {
    GenesisSound();
    RunKeepsSound(GENESIS, ops);
  }
}
