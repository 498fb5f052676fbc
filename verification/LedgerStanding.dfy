/** How the operations move stake: who has how much, and what the flags then say. */
module LedgerStanding {
  import opened Checked
  import opened Ledger
  import opened LedgerInvariant

  /** The flags say what they are documented to say. */
  predicate FlagsMean(p: Pool) {
    && (p.val.flags.stakeTooLow <==> p.val.stake < ACTIVE_VALIDATOR_STAKE)
    && (p.val.flags.withdrawn <==> TotalOf(p, p.val.auth) < MIN_AUTH_ADDRESS_STAKE)
    && !p.val.flags.doubleSign
  }

  ghost predicate SameTotals(p: Pool, p': Pool) {
    forall a: Address :: TotalOf(p', a) == TotalOf(p, a)
  }

  /** Every total stays except that of `a`, which becomes `total`. */
  ghost predicate OneTotalMoves(p: Pool, p': Pool, a: Address, total: int) {
    && TotalOf(p', a) == total
    && forall b: Address :: b != a ==> TotalOf(p', b) == TotalOf(p, b)
  }

  /** An operation that moves no stake. */
  ghost predicate SameStanding(p: Pool, p': Pool) {
    && p'.val.stake == p.val.stake && p'.val.auth == p.val.auth
    && p'.val.commission == p.val.commission && p'.val.flags == p.val.flags
    && SameTotals(p, p')
  }

  ghost predicate Grew(p: Pool, p': Pool, a: Address, amount: nat) {
    && p'.val.auth == p.val.auth && p'.val.commission == p.val.commission
    && p'.val.stake == p.val.stake + amount
    && OneTotalMoves(p, p', a, TotalOf(p, a) + amount)
    && p'.val.flags.stakeTooLow == (p.val.flags.stakeTooLow && p'.val.stake < ACTIVE_VALIDATOR_STAKE)
    && p'.val.flags.withdrawn
       == (p.val.flags.withdrawn && !(a == p.val.auth && TotalOf(p', a) >= MIN_AUTH_ADDRESS_STAKE))
    && p'.val.flags.doubleSign == p.val.flags.doubleSign
  }

  ghost predicate Shrank(p: Pool, p': Pool, a: Address, amount: nat) {
    && p'.val.auth == p.val.auth && p'.val.commission == p.val.commission
    && p'.val.stake == p.val.stake - amount
    && OneTotalMoves(p, p', a, TotalOf(p, a) - amount)
    && p'.val.flags.stakeTooLow == (p.val.flags.stakeTooLow || p'.val.stake < ACTIVE_VALIDATOR_STAKE)
    && p'.val.flags.withdrawn
       == (p.val.flags.withdrawn || (a == p.val.auth && TotalOf(p', a) < MIN_AUTH_ADDRESS_STAKE))
    && p'.val.flags.doubleSign == p.val.flags.doubleSign
  }

  lemma SettledStanding(p: Pool, p': Pool, a: Address)
    requires OnlySettles(p, p', a)
    ensures SameStanding(p, p')
  {
    forall b: Address
      ensures TotalOf(p', b) == TotalOf(p, b)
    {
      if b != a {
        assert b in p'.dels <==> b in p.dels;
      }
    }
  }

  lemma ClearRewardsStanding(p: Pool, a: Address)
    requires a in p.dels
    ensures SameStanding(p, ClearRewards(p, a))
  {}

  lemma CloseWithdrawalStanding(p: Pool, k: (Address, nat), p': Pool, rewards: nat)
    requires k in p.wds && CloseWithdrawal(p, k) == Ok((p', rewards))
    ensures SameStanding(p, p')
  {}

  lemma DistributeStanding(p: Pool, amount: nat, active: nat, p': Pool)
    requires Distribute(p, amount, active) == Ok(p')
    ensures SameStanding(p, p')
  {}

  lemma PayCommissionStanding(p: Pool, commission: nat, p': Pool)
    requires p.val.auth in p.dels && PayCommission(p, commission) == Ok(p')
    ensures SameStanding(p, p')
  {}

  lemma SameStandingTransitive(p: Pool, q: Pool, r: Pool)
    requires SameStanding(p, q) && SameStanding(q, r)
    ensures SameStanding(p, r)
  {}

  lemma BlockRewardStanding(p: Pool, commission: nat, shared: nat, active: nat, p1: Pool, p': Pool)
    requires BlockRewardChain(p, commission, shared, active, p1, p')
    ensures SameStanding(p, p')
  {
    var t := Touch(p, p.val.auth);
    TouchOnlySettles(p, p.val.auth);
    SettledStanding(p, t, p.val.auth);
    PayCommissionStanding(t, commission, p1);
    SameStandingTransitive(p, t, p1);
    if shared != 0 {
      DistributeStanding(p1, shared, active, p');
      SameStandingTransitive(p, p1, p');
    }
  }

  /** The saturating sum crosses the threshold exactly when the true one does. */
  lemma SaturationHarmless(d: Delegator)
    ensures d.TotalStake() >= MIN_AUTH_ADDRESS_STAKE <==> d.Total() >= MIN_AUTH_ADDRESS_STAKE
  {}

  lemma AddToWindowFlags(p: Pool, epoch: Epoch, inBoundary: bool, a: Address, amount: nat, p': Pool)
    requires a in p.dels && AddToWindow(p, epoch, inBoundary, a, amount) == Ok(p')
    ensures a in p'.dels && p'.val.auth == p.val.auth && p'.val.commission == p.val.commission
    ensures p'.val.flags == FlagsAfterDelegate(p.val.(stake := p'.val.stake), p'.dels[a], a)
  {}

  lemma AddToWindowGrew(p: Pool, epoch: Epoch, inBoundary: bool, a: Address, amount: nat, p': Pool)
    requires a in p.dels && AddToWindow(p, epoch, inBoundary, a, amount) == Ok(p')
    ensures Grew(p, p', a, amount)
  {
    AddToWindowFlags(p, epoch, inBoundary, a, amount, p');
    AddToWindowJoins(p, epoch, inBoundary, a, amount, p');
    SaturationHarmless(p'.dels[a]);
  }

  lemma OpenWithdrawalFlags(
    p: Pool, epoch: Epoch, inBoundary: bool, a: Address, wid: nat, amount: nat, p': Pool)
    requires a in p.dels && amount <= p.dels[a].stake
    requires OpenWithdrawal(p, epoch, inBoundary, a, wid, amount) == Ok(p')
    ensures a in p'.dels && p'.val.auth == p.val.auth && p'.val.commission == p.val.commission
    ensures p'.val.flags == FlagsAfterUndelegate(p.val.(stake := p'.val.stake), p'.dels[a], a)
  {}

  lemma OpenWithdrawalShrank(
    p: Pool, epoch: Epoch, inBoundary: bool, a: Address, wid: nat, amount: nat, p': Pool)
    requires a in p.dels && amount <= p.dels[a].stake
    requires OpenWithdrawal(p, epoch, inBoundary, a, wid, amount) == Ok(p')
    ensures Shrank(p, p', a, amount)
  {
    OpenWithdrawalFlags(p, epoch, inBoundary, a, wid, amount, p');
    OpenWithdrawalOpens(p, epoch, inBoundary, a, wid, amount, p');
    SaturationHarmless(p'.dels[a]);
  }

  /** The flags keep their meaning through every change of standing. */
  lemma SameStandingFlags(p: Pool, p': Pool)
    requires SameStanding(p, p') && FlagsMean(p)
    ensures FlagsMean(p')
  {}

  lemma GrewFlags(p: Pool, p': Pool, a: Address, amount: nat)
    requires Grew(p, p', a, amount) && FlagsMean(p)
    ensures FlagsMean(p')
  {
    var auth := p.val.auth;
    var before, after := TotalOf(p, auth), TotalOf(p', auth);
    assert after == before + (if a == auth then amount else 0);
    assert p'.val.flags.withdrawn <==> after < MIN_AUTH_ADDRESS_STAKE;
  }

  lemma ShrankFlags(p: Pool, p': Pool, a: Address, amount: nat)
    requires Shrank(p, p', a, amount) && FlagsMean(p)
    ensures FlagsMean(p')
  {}

  /** A validator is born with its flags in order, although its first record is not. */
  lemma BornFlags(p: Pool, p': Pool, amount: nat)
    requires Grew(p, p', p.val.auth, amount) && amount >= MIN_AUTH_ADDRESS_STAKE
    requires p.val.flags == Flags(true, false, false)
    ensures FlagsMean(p')
  {}
}
