/** The multisig and timelock that set the validator stakes of each epoch. */
module ValidatorRegistry {
  import opened Checked
  import opened Sums

  type Address = nat
  type Hash = nat
  type Epoch = nat

  datatype Failure =
    | InvalidThreshold
    | ZeroSigner
    | DuplicateSigner
    | NotSigner
    | LengthMismatch
    | EpochOutOfSequence
    | ProposalNotFound
    | ProposalAlreadyExists
    | AlreadyApproved
    | NotApproved
    | AlreadyExecuted
    | TimelockNotElapsed
    | QuorumNotReached
    | Panic

  datatype Reply<+T> = Done(value: T) | Reverted(reason: Failure) {
    predicate IsFailure() {
      Reverted?
    }

    function PropagateFailure<U>(): (r: Reply<U>)
      requires Reverted?
    {
      Reverted(reason)
    }

    function Extract(): T
      requires Done?
    {
      value
    }
  }

  /** A proposal is named by its content, which is what its hash commits to. */
  datatype Id = Id(epoch: Epoch, pkHashes: seq<Hash>, stakes: seq<nat>)

  datatype Proposal = Proposal(approvalCount: nat, readyAt: nat, executed: bool, approved: set<Address>)

  datatype Registry = Registry(
    signers: set<Address>, threshold: nat, delay: nat,
    genesisSet: bool, currentEpoch: Epoch,
    stakes: map<Epoch, map<Hash, nat>>, totals: map<Epoch, nat>,
    proposals: map<Id, Proposal>)

  datatype Op =
    | Propose(id: Id)
    | Approve(id: Id)
    | Revoke(id: Id)
    | Execute(id: Id)

  /** A call, its sender and the timestamp of its block. */
  datatype Event = Event(time: nat, sender: Address, op: Op)

  // ----- reads ------------------------------------------------------------------

  function ExpectedEpoch(r: Registry): Epoch {
    if r.genesisSet then r.currentEpoch + 1 else 0
  }

  function StakeAt(r: Registry, e: Epoch, h: Hash): nat {
    if e in r.stakes && h in r.stakes[e] then r.stakes[e][h] else 0
  }

  function TotalAt(r: Registry, e: Epoch): nat {
    if e in r.totals then r.totals[e] else 0
  }

  /** Strictly more than two thirds; the doubling is checked. */
  function QuorumThreshold(r: Registry, e: Epoch): Reply<nat> {
    if TotalAt(r, e) * 2 > U256_MAX then Reverted(Panic)
    else Done(TotalAt(r, e) * 2 / 3 + 1)
  }

  // ----- calls ------------------------------------------------------------------

  /** `_approve`. */
  function Approved(r: Registry, now: nat, sender: Address, p: Proposal): Reply<Proposal> {
    var p1 := p.(approved := p.approved + {sender}, approvalCount := p.approvalCount + 1);
    if p1.approvalCount == r.threshold && p1.readyAt == 0 then
      if now + r.delay > U256_MAX then Reverted(Panic)
      else Done(p1.(readyAt := now + r.delay))
    else Done(p1)
  }

  const NEW_PROPOSAL: Proposal := Proposal(0, 0, false, {})

  function DoPropose(r: Registry, now: nat, sender: Address, id: Id): Reply<Registry> {
    if sender !in r.signers then Reverted(NotSigner)
    else if id.epoch != ExpectedEpoch(r) then Reverted(EpochOutOfSequence)
    else if |id.pkHashes| != |id.stakes| then Reverted(LengthMismatch)
    else if id in r.proposals then Reverted(ProposalAlreadyExists)
    else
      var p :- Approved(r, now, sender, NEW_PROPOSAL);
      Done(r.(proposals := r.proposals[id := p]))
  }

  function DoApprove(r: Registry, now: nat, sender: Address, id: Id): Reply<Registry> {
    if sender !in r.signers then Reverted(NotSigner)
    else if id !in r.proposals then Reverted(ProposalNotFound)
    else if r.proposals[id].executed then Reverted(AlreadyExecuted)
    else if sender in r.proposals[id].approved then Reverted(AlreadyApproved)
    else
      var p :- Approved(r, now, sender, r.proposals[id]);
      Done(r.(proposals := r.proposals[id := p]))
  }

  /** An approval withdrawn; below the threshold the timelock is reset. */
  function Withdrawn(r: Registry, sender: Address, p: Proposal): Reply<Proposal> {
    if p.approvalCount == 0 then Reverted(Panic)
    else
      var count := p.approvalCount - 1;
      Done(p.(approved := p.approved - {sender}, approvalCount := count,
      readyAt := if count < r.threshold then 0 else p.readyAt))
  }

  function DoRevoke(r: Registry, sender: Address, id: Id): Reply<Registry> {
    if sender !in r.signers then Reverted(NotSigner)
    else if id !in r.proposals then Reverted(ProposalNotFound)
    else if r.proposals[id].executed then Reverted(AlreadyExecuted)
    else if sender !in r.proposals[id].approved then Reverted(NotApproved)
    else
      var p :- Withdrawn(r, sender, r.proposals[id]);
      Done(r.(proposals := r.proposals[id := p]))
  }

  /** The stakes as the loop leaves them: a key that is listed twice keeps its last stake. */
  function Listed(pkHashes: seq<Hash>, stakes: seq<nat>): map<Hash, nat>
    requires |pkHashes| == |stakes|
  {
    if pkHashes == [] then map[]
    else
      var n := |pkHashes| - 1;
      Listed(pkHashes[..n], stakes[..n])[pkHashes[n] := stakes[n]]
  }

  /** The total as the loop accumulates it: every entry counts. */
  function Total(stakes: seq<nat>): nat {
    if stakes == [] then 0 else Total(stakes[..|stakes| - 1]) + stakes[|stakes| - 1]
  }

  function DoExecute(r: Registry, now: nat, id: Id): Reply<Registry> {
    if id !in r.proposals then Reverted(ProposalNotFound)
    else if r.proposals[id].executed then Reverted(AlreadyExecuted)
    else if r.proposals[id].readyAt == 0 then Reverted(QuorumNotReached)
    else if now < r.proposals[id].readyAt then Reverted(TimelockNotElapsed)
    else if id.epoch != ExpectedEpoch(r) then Reverted(EpochOutOfSequence)
    else if |id.pkHashes| != |id.stakes| then Reverted(Panic)
    else if Total(id.stakes) > U256_MAX then Reverted(Panic)
    else
      Done(r.(stakes := r.stakes[id.epoch := Listed(id.pkHashes, id.stakes)],
           totals := r.totals[id.epoch := Total(id.stakes)],
           currentEpoch := id.epoch,
           genesisSet := true,
           proposals := r.proposals[id := r.proposals[id].(executed := true)]))
  }

  function Outcome(r: Registry, e: Event): Reply<Registry> {
    match e.op
    case Propose(id) => DoPropose(r, e.time, e.sender, id)
    case Approve(id) => DoApprove(r, e.time, e.sender, id)
    case Revoke(id) => DoRevoke(r, e.sender, id)
    case Execute(id) => DoExecute(r, e.time, id)
  }

  function Step(r: Registry, e: Event): Registry {
    var out := Outcome(r, e);
    if out.Done? then out.value else r
  }

  function Run(r: Registry, events: seq<Event>): Registry {
    if events == [] then r else Step(Run(r, events[..|events| - 1]), events[|events| - 1])
  }

  /** A registry as deployed. */
  predicate Deployed(r: Registry) {
    && 1 <= r.threshold <= |r.signers|
    && !r.genesisSet && r.currentEpoch == 0
    && r.stakes == map[] && r.totals == map[] && r.proposals == map[]
  }

  // ----- what every run keeps -----------------------------------------------------

  /** The count is that of the distinct approving signers, and the timelock runs while it suffices. */
  predicate ProposalOk(r: Registry, p: Proposal) {
    && p.approved <= r.signers && p.approvalCount == |p.approved|
    && (p.readyAt != 0 <==> p.approvalCount >= r.threshold)
  }

  ghost predicate AllProposalsOk(r: Registry) {
    forall id: Id :: id in r.proposals ==> ProposalOk(r, r.proposals[id])
  }

  predicate Executed(r: Registry, e: Epoch) {
    r.genesisSet && e <= r.currentEpoch
  }

  /** Stakes are recorded for exactly the executed epochs, and the total covers them. */
  ghost predicate StakesOk(r: Registry) {
    && (forall e: Epoch :: e in r.stakes <==> Executed(r, e))
    && (forall e: Epoch :: e in r.totals <==> Executed(r, e))
    && (forall e: Epoch :: e in r.stakes && e in r.totals ==> Sum(r.stakes[e]) <= r.totals[e])
  }

  ghost predicate Sound(r: Registry) {
    r.threshold >= 1 && AllProposalsOk(r) && StakesOk(r)
  }

  predicate SameBoard(r: Registry, r': Registry) {
    r'.signers == r.signers && r'.threshold == r.threshold && r'.delay == r.delay
  }

  lemma {:induction false} ListedWithinTotal(pkHashes: seq<Hash>, stakes: seq<nat>)
    requires |pkHashes| == |stakes|
    ensures 0 <= Sum(Listed(pkHashes, stakes)) <= Total(stakes)
  {
    if pkHashes == [] {
      SumEmpty(Listed(pkHashes, stakes));
    } else {
      var n := |pkHashes| - 1;
      var init := Listed(pkHashes[..n], stakes[..n]);
      ListedWithinTotal(pkHashes[..n], stakes[..n]);
      SumUpdate(init, pkHashes[n], stakes[n]);
      SumNonNegative(Listed(pkHashes, stakes));
    }
  }

  lemma ApprovedOk(r: Registry, now: nat, sender: Address, p: Proposal, p': Proposal)
    requires r.threshold >= 1 && now > 0
    requires ProposalOk(r, p) && sender in r.signers && sender !in p.approved
    requires Approved(r, now, sender, p) == Done(p')
    ensures ProposalOk(r, p')
  {}

  lemma WithdrawnOk(r: Registry, sender: Address, p: Proposal, p': Proposal)
    requires r.threshold >= 1 && ProposalOk(r, p) && sender in p.approved
    requires Withdrawn(r, sender, p) == Done(p')
    ensures ProposalOk(r, p')
  {}

  lemma ExecuteStakes(r: Registry, now: nat, id: Id, r': Registry)
    requires StakesOk(r) && DoExecute(r, now, id) == Done(r')
    ensures StakesOk(r')
  {
    ListedWithinTotal(id.pkHashes, id.stakes);
    forall e: Epoch
      ensures e in r'.stakes <==> Executed(r', e)
      ensures e in r'.totals <==> Executed(r', e)
    {
      assert e in r.stakes <==> Executed(r, e);
      assert e in r.totals <==> Executed(r, e);
    }
  }

  lemma StepSound(r: Registry, e: Event)
    requires Sound(r) && e.time > 0
    ensures Sound(Step(r, e)) && SameBoard(r, Step(r, e))
  {
    var out := Outcome(r, e);
    if out.Done? {
      match e.op
      case Propose(id) =>
        ApprovedOk(r, e.time, e.sender, NEW_PROPOSAL, out.value.proposals[id]);
      case Approve(id) =>
        ApprovedOk(r, e.time, e.sender, r.proposals[id], out.value.proposals[id]);
      case Revoke(id) =>
        WithdrawnOk(r, e.sender, r.proposals[id], out.value.proposals[id]);
      case Execute(id) =>
        ExecuteStakes(r, e.time, id, out.value);
    }
  }

  /** Block timestamps are positive and never go back. */
  predicate Timed(events: seq<Event>) {
    && (forall i :: 0 <= i < |events| ==> events[i].time > 0)
    && (forall i, j :: 0 <= i <= j < |events| ==> events[i].time <= events[j].time)
  }

  /** Over every run the approval count is the number of distinct signers approving now. */
  lemma {:induction false} RunSound(r: Registry, events: seq<Event>)
    requires Deployed(r) && Timed(events)
    ensures Sound(Run(r, events)) && SameBoard(r, Run(r, events))
  {
    if events != [] {
      RunSound(r, events[..|events| - 1]);
      StepSound(Run(r, events[..|events| - 1]), events[|events| - 1]);
    }
  }

  // ----- the timelock ---------------------------------------------------------------

  predicate Quorum(r: Registry, id: Id) {
    id in r.proposals && |r.proposals[id].approved| >= r.threshold
  }

  function ReadyAt(r: Registry, id: Id): nat {
    if id in r.proposals then r.proposals[id].readyAt else 0
  }

  lemma StepReadyAt(r: Registry, e: Event, id: Id)
    ensures var before, after := ReadyAt(r, id), ReadyAt(Step(r, e), id);
            after == before || after == 0 || after == e.time + r.delay
  {}

  lemma ReadyMeansQuorum(r: Registry, id: Id)
    requires Sound(r)
    ensures ReadyAt(r, id) != 0 <==> Quorum(r, id)
  {
    if id in r.proposals {
      assert ProposalOk(r, r.proposals[id]);
    }
  }

  /** From just after event `j` on, up to `n` events, the quorum held without a break. */
  ghost predicate Unbroken(r: Registry, events: seq<Event>, id: Id, j: nat, n: nat)
    requires n <= |events|
  {
    forall i :: j < i <= n ==> Quorum(Run(r, events[..i]), id)
  }

  /** One event: the proposal is ready as before, or as of now; and while it is, the quorum holds. */
  lemma StepReadySince(r: Registry, events: seq<Event>, id: Id, n: nat)
    requires Deployed(r) && Timed(events) && 0 < n <= |events|
    requires ReadyAt(Run(r, events[..n]), id) != 0
    ensures Quorum(Run(r, events[..n]), id)
    ensures var before := ReadyAt(Run(r, events[..n - 1]), id);
            var now := ReadyAt(Run(r, events[..n]), id);
            now == before || now == events[n - 1].time + r.delay
  {
    assert events[..n][..n - 1] == events[..n - 1];
    TimedPrefix(events, n - 1);
    TimedPrefix(events, n);
    RunSound(r, events[..n - 1]);
    RunSound(r, events[..n]);
    StepReadyAt(Run(r, events[..n - 1]), events[n - 1], id);
    ReadyMeansQuorum(Run(r, events[..n]), id);
  }

  lemma TimedPrefix(events: seq<Event>, n: nat)
    requires Timed(events) && n <= |events|
    ensures Timed(events[..n])
  {}

  lemma {:induction false} ReadySince(r: Registry, events: seq<Event>, id: Id, n: nat) returns (j: nat)
    requires Deployed(r) && Timed(events) && n <= |events|
    requires ReadyAt(Run(r, events[..n]), id) != 0
    ensures j < n && ReadyAt(Run(r, events[..n]), id) == events[j].time + r.delay
    ensures Unbroken(r, events, id, j, n)
    decreases n
  {
    if n == 0 {
      assert false;
    } else {
      StepReadySince(r, events, id, n);
      if ReadyAt(Run(r, events[..n]), id) == ReadyAt(Run(r, events[..n - 1]), id) {
        j := ReadySince(r, events, id, n - 1);
      } else {
        j := n - 1;
      }
    }
  }

  /**
   * The timelock over runs: before a proposal is executed there was an
   * unbroken interval of at least the delay in which as many distinct signers
   * as the threshold asks for approved it.
   */
  lemma ExecuteWaited(r: Registry, events: seq<Event>, k: nat) returns (j: nat)
    requires Deployed(r) && Timed(events) && k < |events| && events[k].op.Execute?
    requires Outcome(Run(r, events[..k]), events[k]).Done?
    ensures j < k && events[j].time + r.delay <= events[k].time
    ensures Unbroken(r, events, events[k].op.id, j, k)
  {
    j := ReadySince(r, events, events[k].op.id, k);
  }

  // ----- epochs ---------------------------------------------------------------------

  lemma StepEpochs(r: Registry, e: Event)
    ensures var r' := Step(r, e);
            if e.op.Execute? && Outcome(r, e).Done?
            then e.op.id.epoch == ExpectedEpoch(r) && r'.genesisSet && r'.currentEpoch == ExpectedEpoch(r)
            else r'.genesisSet == r.genesisSet && r'.currentEpoch == r.currentEpoch
    ensures ExpectedEpoch(r) <= ExpectedEpoch(Step(r, e)) <= ExpectedEpoch(r) + 1
  {}

  lemma StepFreezes(r: Registry, e: Event, epoch: Epoch)
    requires Sound(r) && Executed(r, epoch)
    ensures var r' := Step(r, e);
            && Executed(r', epoch)
            && TotalAt(r', epoch) == TotalAt(r, epoch)
            && forall h: Hash :: StakeAt(r', epoch, h) == StakeAt(r, epoch, h)
  {
    StepEpochs(r, e);
  }

  /** The stakes of an executed epoch never change, whatever is called afterwards. */
  lemma {:induction false} ExecutedStakesFrozen(r: Registry, events: seq<Event>, more: seq<Event>, epoch: Epoch)
    requires Deployed(r) && Timed(events + more) && Executed(Run(r, events), epoch)
    ensures var r0, r1 := Run(r, events), Run(r, events + more);
            && Executed(r1, epoch)
            && TotalAt(r1, epoch) == TotalAt(r0, epoch)
            && forall h: Hash :: StakeAt(r1, epoch, h) == StakeAt(r0, epoch, h)
    decreases |more|
  {
    if more == [] {
      assert events + more == events;
    } else {
      var init, all := more[..|more| - 1], events + more;
      assert all[..|all| - 1] == events + init;
      ExecutedStakesFrozen(r, events, init, epoch);
      RunSound(r, events + init);
      StepFreezes(Run(r, events + init), all[|all| - 1], epoch);
    }
  }

  lemma {:induction false} ExpectedEpochGrows(r: Registry, events: seq<Event>, j: nat, k: nat)
    requires j <= k <= |events|
    ensures ExpectedEpoch(Run(r, events[..j])) <= ExpectedEpoch(Run(r, events[..k]))
    decreases k - j
  {
    if j < k {
      assert events[..k][..k - 1] == events[..k - 1];
      StepEpochs(Run(r, events[..k - 1]), events[k - 1]);
      ExpectedEpochGrows(r, events, j, k - 1);
    }
  }

  /** Epochs are executed in order, each at most once, starting with epoch zero. */
  lemma EpochsInOrder(r: Registry, events: seq<Event>, j: nat, k: nat)
    requires Deployed(r) && j < k < |events| && events[j].op.Execute? && events[k].op.Execute?
    requires Outcome(Run(r, events[..j]), events[j]).Done?
    requires Outcome(Run(r, events[..k]), events[k]).Done?
    ensures events[j].op.id.epoch < events[k].op.id.epoch
  {
    assert events[..j + 1][..j] == events[..j];
    StepEpochs(Run(r, events[..j]), events[j]);
    StepEpochs(Run(r, events[..k]), events[k]);
    ExpectedEpochGrows(r, events, j + 1, k);
  }

  /** The executed epochs have no gap: there is an execution for each. */
  lemma {:induction false} EveryEpochExecuted(r: Registry, events: seq<Event>, epoch: Epoch) returns (k: nat)
    requires Deployed(r) && Executed(Run(r, events), epoch)
    ensures k < |events| && events[k].op.Execute? && events[k].op.id.epoch == epoch
    ensures Outcome(Run(r, events[..k]), events[k]).Done?
  {
    if events == [] {
      assert false;
    } else {
      var n := |events| - 1;
      StepEpochs(Run(r, events[..n]), events[n]);
      if Executed(Run(r, events[..n]), epoch) {
        k := EveryEpochExecuted(r, events[..n], epoch);
        assert events[..n][..k] == events[..k];
      } else {
        k := n;
      }
    }
  }
}
