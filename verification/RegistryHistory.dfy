/**
 * The registry told by its history alone: which calls go through follows from
 * the calls that went through before, and the state is what they say.
 */
module RegistryHistory {
  import opened Checked
  import opened Sums
  import opened ValidatorRegistry

  // ----- what a history says ------------------------------------------------------

  predicate VotesOn(e: Event, id: Id, a: Address) {
    e.sender == a && e.op.id == id && !e.op.Execute?
  }

  /** The last vote of `a` on the proposal, if there is one, is not a revocation. */
  predicate Approves(h: seq<Event>, id: Id, a: Address) {
    h != []
    && var e := h[|h| - 1];
       if VotesOn(e, id, a) then !e.op.Revoke? else Approves(h[..|h| - 1], id, a)
  }

  function Approvers(r: Registry, h: seq<Event>, id: Id): set<Address> {
    set a | a in r.signers && Approves(h, id, a)
  }

  predicate QuorumIn(r: Registry, h: seq<Event>, id: Id) {
    |Approvers(r, h, id)| >= r.threshold
  }

  predicate ProposedIn(h: seq<Event>, id: Id) {
    exists i :: 0 <= i < |h| && h[i].op == Propose(id)
  }

  predicate ExecutedIn(h: seq<Event>, id: Id) {
    exists i :: 0 <= i < |h| && h[i].op == Execute(id)
  }

  function Executions(h: seq<Event>): nat {
    if h == [] then 0
    else Executions(h[..|h| - 1]) + if h[|h| - 1].op.Execute? then 1 else 0
  }

  /** From just after position `j` on, to the end, the quorum has held without a break. */
  ghost predicate QuorumSince(r: Registry, h: seq<Event>, id: Id, j: nat) {
    forall i {:trigger h[..i]} :: j < i <= |h| ==> QuorumIn(r, h[..i], id)
  }

  /** The quorum has held for the whole delay. */
  ghost predicate Waited(r: Registry, h: seq<Event>, id: Id, now: nat) {
    exists j :: 0 <= j < |h| && h[j].time + r.delay <= now && QuorumSince(r, h, id, j)
  }

  /** The entries of a proposal by position; a key may have more than one. */
  ghost function Entries(stakes: seq<nat>): map<nat, int> {
    map i: nat | i < |stakes| :: stakes[i]
  }

  /** The timestamp at which the timelock ends fits in a word, should this vote complete the quorum. */
  predicate ClockFits(r: Registry, h: seq<Event>, id: Id, now: nat) {
    |Approvers(r, h, id)| + 1 == r.threshold ==> now + r.delay <= U256_MAX
  }

  /** Whether call `e` goes through after history `h`. */
  ghost predicate Admissible(r: Registry, h: seq<Event>, e: Event) {
    match e.op
    case Propose(id) =>
      && e.sender in r.signers && id.epoch == Executions(h) && |id.pkHashes| == |id.stakes|
      && !ProposedIn(h, id) && ClockFits(r, h, id, e.time)
    case Approve(id) =>
      && e.sender in r.signers && ProposedIn(h, id) && !ExecutedIn(h, id)
      && !Approves(h, id, e.sender) && ClockFits(r, h, id, e.time)
    case Revoke(id) =>
      e.sender in r.signers && ProposedIn(h, id) && !ExecutedIn(h, id) && Approves(h, id, e.sender)
    case Execute(id) =>
      && ProposedIn(h, id) && !ExecutedIn(h, id) && Waited(r, h, id, e.time)
      && id.epoch == Executions(h) && Sum(Entries(id.stakes)) <= U256_MAX
  }

  /** The calls that go through, of all that are made. */
  ghost function History(r: Registry, events: seq<Event>): seq<Event> {
    if events == [] then []
    else
      var h := History(r, events[..|events| - 1]);
      if Admissible(r, h, events[|events| - 1]) then h + [events[|events| - 1]] else h
  }

  lemma {:induction false} TotalIsSum(stakes: seq<nat>)
    ensures Total(stakes) == Sum(Entries(stakes))
  {
    if stakes == [] {
      SumEmpty(Entries(stakes));
    } else {
      var n := |stakes| - 1;
      TotalIsSum(stakes[..n]);
      assert Entries(stakes) == Entries(stakes[..n])[n := stakes[n]];
      SumUpdate<nat>(Entries(stakes[..n]), n, stakes[n]);
    }
  }

  // ----- one more call ---------------------------------------------------------------

  lemma OneMore(h: seq<Event>, e: Event)
    ensures (h + [e])[..|h|] == h
  {}

  lemma ApprovesMore(h: seq<Event>, e: Event, id: Id, a: Address)
    ensures Approves(h + [e], id, a) <==> if VotesOn(e, id, a) then !e.op.Revoke? else Approves(h, id, a)
  {
    OneMore(h, e);
  }

  lemma ApproversMore(r: Registry, h: seq<Event>, e: Event, id: Id)
    requires e.op.Execute? || e.sender in r.signers
    ensures Approvers(r, h + [e], id)
            == if e.op.Execute? || e.op.id != id then Approvers(r, h, id)
               else if e.op.Revoke? then Approvers(r, h, id) - {e.sender}
               else Approvers(r, h, id) + {e.sender}
  {
    forall a: Address {
      ApprovesMore(h, e, id, a);
    }
  }

  lemma ProposedMore(h: seq<Event>, e: Event, id: Id)
    ensures ProposedIn(h + [e], id) <==> ProposedIn(h, id) || e.op == Propose(id)
    ensures ExecutedIn(h + [e], id) <==> ExecutedIn(h, id) || e.op == Execute(id)
    ensures Executions(h + [e]) == Executions(h) + if e.op.Execute? then 1 else 0
  {
    var g := h + [e];
    OneMore(h, e);
    assert g[|h|] == e;
    assert forall i :: 0 <= i < |h| ==> g[i] == h[i];
  }

  lemma QuorumSinceMore(r: Registry, h: seq<Event>, e: Event, id: Id, j: nat)
    requires j <= |h|
    ensures QuorumSince(r, h + [e], id, j) <==>
            QuorumIn(r, h + [e], id) && (j < |h| ==> QuorumSince(r, h, id, j))
  {
    var g := h + [e];
    assert g[..|g|] == g;
    assert forall i :: 0 <= i <= |h| ==> g[..i] == h[..i];
  }

  // ----- the timelock ------------------------------------------------------------------

  /** `t` is when the timelock ends: the delay after the call that completed the quorum for the last time. */
  ghost predicate ReadyOk(r: Registry, h: seq<Event>, id: Id, t: nat) {
    if QuorumIn(r, h, id) then
      exists j :: 0 <= j < |h| && t == h[j].time + r.delay > 0 && !QuorumIn(r, h[..j], id) && QuorumSince(r, h, id, j)
    else t == 0
  }

  lemma WaitedIff(r: Registry, h: seq<Event>, id: Id, t: nat, now: nat)
    requires Timed(h) && ReadyOk(r, h, id, t)
    ensures t != 0 && t <= now <==> Waited(r, h, id, now)
  {
    assert h[..|h|] == h;
    if Waited(r, h, id, now) {
      var k :| 0 <= k < |h| && h[k].time + r.delay <= now && QuorumSince(r, h, id, k);
      assert QuorumIn(r, h[..|h|], id);
      var j :| 0 <= j < |h| && t == h[j].time + r.delay > 0 && !QuorumIn(r, h[..j], id) && QuorumSince(r, h, id, j);
      assert j <= k;
    }
  }

  lemma ReadyKept(r: Registry, h: seq<Event>, e: Event, id: Id, t: nat)
    requires ReadyOk(r, h, id, t) && (QuorumIn(r, h + [e], id) <==> QuorumIn(r, h, id))
    ensures ReadyOk(r, h + [e], id, t)
  {
    if QuorumIn(r, h, id) {
      var j :| 0 <= j < |h| && t == h[j].time + r.delay > 0 && !QuorumIn(r, h[..j], id) && QuorumSince(r, h, id, j);
      QuorumSinceMore(r, h, e, id, j);
      assert (h + [e])[..j] == h[..j] && (h + [e])[j] == h[j];
    }
  }

  lemma ReadyNow(r: Registry, h: seq<Event>, e: Event, id: Id)
    requires !QuorumIn(r, h, id) && QuorumIn(r, h + [e], id) && e.time > 0
    ensures ReadyOk(r, h + [e], id, e.time + r.delay)
  {
    QuorumSinceMore(r, h, e, id, |h|);
    OneMore(h, e);
    assert (h + [e])[|h|] == e;
  }

  // ----- the state is what the history says ---------------------------------------------

  /** What state `s` knows of one proposal is what the history says. */
  ghost predicate Reflected(r: Registry, h: seq<Event>, s: Registry, id: Id) {
    && (id in s.proposals <==> ProposedIn(h, id))
    && (id !in s.proposals ==> Approvers(r, h, id) == {} && !ExecutedIn(h, id))
    && (id in s.proposals ==>
          && var p := s.proposals[id];
          && |id.pkHashes| == |id.stakes|
          && p.approved == Approvers(r, h, id) && p.approvalCount == |p.approved|
          && (p.executed <==> ExecutedIn(h, id))
          && ReadyOk(r, h, id, p.readyAt))
  }

  ghost predicate Reflects(r: Registry, h: seq<Event>, s: Registry) {
    && r.threshold >= 1 && SameBoard(r, s) && Timed(h)
    && ExpectedEpoch(s) == Executions(h)
    && forall id: Id :: Reflected(r, h, s, id)
  }

  predicate NotBefore(h: seq<Event>, e: Event) {
    e.time > 0 && forall i :: 0 <= i < |h| ==> h[i].time <= e.time
  }

  /** A call goes through exactly if the history admits it. */
  lemma OutcomeAdmissible(r: Registry, h: seq<Event>, s: Registry, e: Event)
    requires Reflects(r, h, s) && NotBefore(h, e)
    ensures Outcome(s, e).Done? <==> Admissible(r, h, e)
  {
    var id := e.op.id;
    assert Reflected(r, h, s, id);
    if e.op.Approve? || e.op.Revoke? {
      assert e.sender in r.signers ==> (e.sender in Approvers(r, h, id) <==> Approves(h, id, e.sender));
    }
    if e.op.Execute? && id in s.proposals {
      TotalIsSum(id.stakes);
      WaitedIff(r, h, id, s.proposals[id].readyAt, e.time);
    }
  }

  /** Why a call that is not admitted reverts: the first thing that is wrong with it. */
  ghost function Objection(r: Registry, h: seq<Event>, e: Event): Failure {
    var id := e.op.id;
    if !e.op.Execute? && e.sender !in r.signers then NotSigner
    else if e.op.Propose? then
      if id.epoch != Executions(h) then EpochOutOfSequence
      else if |id.pkHashes| != |id.stakes| then LengthMismatch
      else if ProposedIn(h, id) then ProposalAlreadyExists
      else Panic
    else if !ProposedIn(h, id) then ProposalNotFound
    else if ExecutedIn(h, id) then AlreadyExecuted
    else if e.op.Approve? then
      if Approves(h, id, e.sender) then AlreadyApproved else Panic
    else if e.op.Revoke? then NotApproved
    else if !QuorumIn(r, h, id) then QuorumNotReached
    else if !Waited(r, h, id, e.time) then TimelockNotElapsed
    else if id.epoch != Executions(h) then EpochOutOfSequence
    else Panic
  }

  lemma RevertReason(r: Registry, h: seq<Event>, s: Registry, e: Event)
    requires Reflects(r, h, s) && NotBefore(h, e) && !Admissible(r, h, e)
    ensures Outcome(s, e) == Reverted(Objection(r, h, e))
  {
    var id := e.op.id;
    assert Reflected(r, h, s, id);
    OutcomeAdmissible(r, h, s, e);
    if e.op.Approve? || e.op.Revoke? {
      assert e.sender in r.signers ==> (e.sender in Approvers(r, h, id) <==> Approves(h, id, e.sender));
    }
    if e.op.Execute? && id in s.proposals {
      TotalIsSum(id.stakes);
      WaitedIff(r, h, id, s.proposals[id].readyAt, e.time);
    }
  }

  /** Another call leaves what is known of the proposal. */
  lemma OtherReflected(r: Registry, h: seq<Event>, s: Registry, e: Event, s': Registry, id: Id)
    requires Reflected(r, h, s, id) && e.op.id != id && (e.op.Execute? || e.sender in r.signers)
    requires id in s'.proposals <==> id in s.proposals
    requires id in s.proposals ==> s'.proposals[id] == s.proposals[id]
    ensures Reflected(r, h + [e], s', id)
  {
    ApproversMore(r, h, e, id);
    ProposedMore(h, e, id);
    if id in s.proposals {
      ReadyKept(r, h, e, id, s.proposals[id].readyAt);
    }
  }

  /** An approval counts, and starts the timelock if it completes the quorum. */
  lemma ApprovalReflected(r: Registry, h: seq<Event>, s: Registry, e: Event, p: Proposal, p': Proposal)
    requires SameBoard(r, s) && e.time > 0 && r.threshold >= 1 && e.sender in r.signers
    requires e.op.Propose? || e.op.Approve?
    requires p.approved == Approvers(r, h, e.op.id) && p.approvalCount == |p.approved|
    requires ReadyOk(r, h, e.op.id, p.readyAt) && e.sender !in p.approved
    requires ValidatorRegistry.Approved(s, e.time, e.sender, p) == Done(p')
    ensures p'.approved == Approvers(r, h + [e], e.op.id) && p'.approvalCount == |p'.approved|
    ensures ReadyOk(r, h + [e], e.op.id, p'.readyAt) && p'.executed == p.executed
  {
    ApproversMore(r, h, e, e.op.id);
    if p.approvalCount + 1 == r.threshold {
      ReadyNow(r, h, e, e.op.id);
    } else {
      ReadyKept(r, h, e, e.op.id, p.readyAt);
    }
  }

  /** A revocation takes the approval back, and ends the timelock if it breaks the quorum. */
  lemma RevocationReflected(r: Registry, h: seq<Event>, s: Registry, e: Event, p: Proposal, p': Proposal)
    requires SameBoard(r, s) && r.threshold >= 1 && e.sender in r.signers && e.op.Revoke?
    requires p.approved == Approvers(r, h, e.op.id) && p.approvalCount == |p.approved|
    requires ReadyOk(r, h, e.op.id, p.readyAt) && e.sender in p.approved
    requires Withdrawn(s, e.sender, p) == Done(p')
    ensures p'.approved == Approvers(r, h + [e], e.op.id) && p'.approvalCount == |p'.approved|
    ensures ReadyOk(r, h + [e], e.op.id, p'.readyAt) && p'.executed == p.executed
  {
    ApproversMore(r, h, e, e.op.id);
    if p.approvalCount - 1 >= r.threshold || p.approvalCount < r.threshold {
      ReadyKept(r, h, e, e.op.id, p.readyAt);
    }
  }

  lemma ExecutionReflected(r: Registry, h: seq<Event>, e: Event, p: Proposal)
    requires e.op.Execute? && p.approved == Approvers(r, h, e.op.id) && ReadyOk(r, h, e.op.id, p.readyAt)
    ensures p.approved == Approvers(r, h + [e], e.op.id) && ReadyOk(r, h + [e], e.op.id, p.readyAt)
  {
    ApproversMore(r, h, e, e.op.id);
    ReadyKept(r, h, e, e.op.id, p.readyAt);
  }

  lemma EmptyCalm(r: Registry, h: seq<Event>, id: Id)
    requires r.threshold >= 1 && Approvers(r, h, id) == {}
    ensures ReadyOk(r, h, id, 0)
  {}

  /** The proposal the call is about. */
  lemma OwnReflected(r: Registry, h: seq<Event>, s: Registry, e: Event, s': Registry)
    requires Reflected(r, h, s, e.op.id) && SameBoard(r, s) && r.threshold >= 1 && e.time > 0
    requires Outcome(s, e) == Done(s')
    ensures Reflected(r, h + [e], s', e.op.id)
  {
    var id := e.op.id;
    ProposedMore(h, e, id);
    match e.op
    case Propose(_) =>
      EmptyCalm(r, h, id);
      ApprovalReflected(r, h, s, e, NEW_PROPOSAL, s'.proposals[id]);
    case Approve(_) => ApprovalReflected(r, h, s, e, s.proposals[id], s'.proposals[id]);
    case Revoke(_) => RevocationReflected(r, h, s, e, s.proposals[id], s'.proposals[id]);
    case Execute(_) => ExecutionReflected(r, h, e, s.proposals[id]);
  }

  lemma SucceededChanges(s: Registry, e: Event, s': Registry, id: Id)
    requires Outcome(s, e) == Done(s') && e.op.id != id
    ensures SameBoard(s, s') && (e.op.Execute? || e.sender in s.signers)
    ensures id in s'.proposals <==> id in s.proposals
    ensures id in s.proposals ==> s'.proposals[id] == s.proposals[id]
  {}

  lemma TimedMore(h: seq<Event>, e: Event)
    requires Timed(h) && NotBefore(h, e)
    ensures Timed(h + [e])
  {
    var g := h + [e];
    assert g[|h|] == e;
    forall i | 0 <= i < |g|
      ensures g[i].time > 0 && g[i].time <= e.time
    {
      assert i < |h| ==> g[i] == h[i];
    }
  }

  lemma StepReflects(r: Registry, h: seq<Event>, s: Registry, e: Event, s': Registry)
    requires Reflects(r, h, s) && NotBefore(h, e) && Outcome(s, e) == Done(s')
    ensures Reflects(r, h + [e], s')
  {
    TimedMore(h, e);
    ProposedMore(h, e, e.op.id);
    StepEpochs(s, e);
    forall id: Id
      ensures Reflected(r, h + [e], s', id)
    {
      assert Reflected(r, h, s, id);
      if id == e.op.id {
        OwnReflected(r, h, s, e, s');
      } else {
        SucceededChanges(s, e, s', id);
        OtherReflected(r, h, s, e, s', id);
      }
    }
  }

  // ----- over runs ------------------------------------------------------------------------

  lemma DeployedReflects(r: Registry)
    requires Deployed(r)
    ensures Reflects(r, [], r)
  {
    forall id: Id
      ensures Reflected(r, [], r, id)
    {
      assert Approvers(r, [], id) == {};
    }
  }

  lemma TimedEnd(events: seq<Event>, n: nat)
    requires Timed(events) && |events| == n + 1
    ensures Timed(events[..n]) && NotBefore(events[..n], events[n])
  {
    TimedPrefix(events, n);
  }

  lemma {:induction false} HistoryNotBefore(r: Registry, events: seq<Event>, e: Event)
    requires NotBefore(events, e)
    ensures NotBefore(History(r, events), e)
  {
    if events != [] {
      HistoryNotBefore(r, events[..|events| - 1], e);
    }
  }

  /** After every run the state is what the history says. */
  lemma {:induction false} RunReflects(r: Registry, events: seq<Event>)
    requires Deployed(r) && Timed(events)
    ensures Reflects(r, History(r, events), Run(r, events))
  {
    if events == [] {
      DeployedReflects(r);
    } else {
      var n := |events| - 1;
      TimedEnd(events, n);
      RunReflects(r, events[..n]);
      HistoryNotBefore(r, events[..n], events[n]);
      OutcomeAdmissible(r, History(r, events[..n]), Run(r, events[..n]), events[n]);
      if Outcome(Run(r, events[..n]), events[n]).Done? {
        StepReflects(r, History(r, events[..n]), Run(r, events[..n]), events[n], Run(r, events));
      }
    }
  }

  /**
   * Which calls go through, over every run, and why the others do not, told by
   * the calls that went through before and by nothing else.
   */
  lemma CallsByHistory(r: Registry, events: seq<Event>, e: Event)
    requires Deployed(r) && Timed(events + [e])
    ensures Outcome(Run(r, events), e).Done? <==> Admissible(r, History(r, events), e)
    ensures !Admissible(r, History(r, events), e) ==>
              Outcome(Run(r, events), e) == Reverted(Objection(r, History(r, events), e))
  {
    var all := events + [e];
    TimedEnd(all, |events|);
    OneMore(events, e);
    RunReflects(r, events);
    HistoryNotBefore(r, events, e);
    OutcomeAdmissible(r, History(r, events), Run(r, events), e);
    if !Admissible(r, History(r, events), e) {
      RevertReason(r, History(r, events), Run(r, events), e);
    }
  }

  /**
   * Who approves, over every run: the signers whose last vote on the proposal
   * is not a revocation.
   */
  lemma ApprovedByHistory(r: Registry, events: seq<Event>, id: Id, a: Address)
    requires Deployed(r) && Timed(events)
    ensures a in r.signers && Approves(History(r, events), id, a) <==>
            id in Run(r, events).proposals && a in Run(r, events).proposals[id].approved
  {
    RunReflects(r, events);
    assert Reflected(r, History(r, events), Run(r, events), id);
    assert a in Approvers(r, History(r, events), id) <==> a in r.signers && Approves(History(r, events), id, a);
  }

  /** A revocation that goes through takes back the approval of its sender, and no other of any proposal. */
  lemma RevocationRevokes(r: Registry, events: seq<Event>, e: Event, id: Id)
    requires Deployed(r) && Timed(events + [e]) && e.op.Revoke? && Outcome(Run(r, events), e).Done?
    ensures History(r, events + [e]) == History(r, events) + [e]
    ensures Approves(History(r, events), e.op.id, e.sender)
    ensures Approvers(r, History(r, events + [e]), id)
            == Approvers(r, History(r, events), id) - if id == e.op.id then {e.sender} else {}
  {
    OneMore(events, e);
    CallsByHistory(r, events, e);
    ApproversMore(r, History(r, events), e, id);
  }

  /**
   * The timelock by history: an execution goes through only after an interval
   * of at least the delay throughout which enough signers' last votes were
   * approvals.
   */
  lemma ExecutionWaited(r: Registry, events: seq<Event>, e: Event) returns (j: nat)
    requires Deployed(r) && Timed(events + [e]) && e.op.Execute? && Outcome(Run(r, events), e).Done?
    ensures var h := History(r, events);
            j < |h| && h[j].time + r.delay <= e.time && QuorumSince(r, h, e.op.id, j)
  {
    CallsByHistory(r, events, e);
    var h := History(r, events);
    j :| 0 <= j < |h| && h[j].time + r.delay <= e.time && QuorumSince(r, h, e.op.id, j);
  }

  // ----- what an execution records ----------------------------------------------------------

  /** Position `i` is the last that lists its key. */
  predicate LastListing(id: Id, i: nat) {
    i < |id.pkHashes| && forall j :: i < j < |id.pkHashes| ==> id.pkHashes[j] != id.pkHashes[i]
  }

  lemma {:induction false} ListedAt(pkHashes: seq<Hash>, stakes: seq<nat>, i: nat)
    requires |pkHashes| == |stakes| && i < |pkHashes|
    requires forall j :: i < j < |pkHashes| ==> pkHashes[j] != pkHashes[i]
    ensures pkHashes[i] in Listed(pkHashes, stakes) && Listed(pkHashes, stakes)[pkHashes[i]] == stakes[i]
  {
    var n := |pkHashes| - 1;
    if i < n {
      assert pkHashes[n] != pkHashes[i];
      ListedAt(pkHashes[..n], stakes[..n], i);
    }
  }

  lemma {:induction false} OnlyListed(pkHashes: seq<Hash>, stakes: seq<nat>, h: Hash)
    requires |pkHashes| == |stakes| && h !in pkHashes
    ensures h !in Listed(pkHashes, stakes)
  {
    if pkHashes != [] {
      OnlyListed(pkHashes[..|pkHashes| - 1], stakes[..|pkHashes| - 1], h);
    }
  }

  /** The registry records what the proposal lists: the last entry of each key, and the sum of all entries. */
  ghost predicate Records(r: Registry, id: Id) {
    && |id.pkHashes| == |id.stakes|
    && (forall i: nat :: LastListing(id, i) ==> StakeAt(r, id.epoch, id.pkHashes[i]) == id.stakes[i])
    && (forall h: Hash :: h !in id.pkHashes ==> StakeAt(r, id.epoch, h) == 0)
    && TotalAt(r, id.epoch) == Sum(Entries(id.stakes))
  }

  lemma ExecuteRecords(s: Registry, e: Event, s': Registry)
    requires e.op.Execute? && Outcome(s, e) == Done(s')
    ensures Executed(s', e.op.id.epoch) && Records(s', e.op.id)
  {
    var id := e.op.id;
    TotalIsSum(id.stakes);
    forall i: nat | LastListing(id, i)
      ensures StakeAt(s', id.epoch, id.pkHashes[i]) == id.stakes[i]
    {
      ListedAt(id.pkHashes, id.stakes, i);
    }
    forall h: Hash | h !in id.pkHashes
      ensures StakeAt(s', id.epoch, h) == 0
    {
      OnlyListed(id.pkHashes, id.stakes, h);
    }
  }

  lemma {:induction false} ExecutionIn(r: Registry, events: seq<Event>, id: Id) returns (k: nat)
    requires Deployed(r) && Timed(events) && ExecutedIn(History(r, events), id)
    ensures k < |events| && events[k].op == Execute(id) && Outcome(Run(r, events[..k]), events[k]).Done?
  {
    if events == [] {
      assert false;
    } else {
      var n := |events| - 1;
      TimedEnd(events, n);
      var h := History(r, events[..n]);
      assert events[..n] + [events[n]] == events;
      CallsByHistory(r, events[..n], events[n]);
      ProposedMore(h, events[n], id);
      if ExecutedIn(h, id) {
        k := ExecutionIn(r, events[..n], id);
        assert events[..n][..k] == events[..k];
      } else {
        k := n;
      }
    }
  }

  lemma RecordsKept(s: Registry, s': Registry, id: Id)
    requires Records(s, id) && TotalAt(s', id.epoch) == TotalAt(s, id.epoch)
    requires forall h: Hash :: StakeAt(s', id.epoch, h) == StakeAt(s, id.epoch, h)
    ensures Records(s', id)
  {}

  /** Whatever was executed is on record for ever, as it was listed. */
  lemma ExecutedIsRecorded(r: Registry, events: seq<Event>, id: Id)
    requires Deployed(r) && Timed(events) && ExecutedIn(History(r, events), id)
    ensures Records(Run(r, events), id)
  {
    var k := ExecutionIn(r, events, id);
    assert events[..k + 1][..k] == events[..k] && events[..k + 1] + events[k + 1..] == events;
    ExecuteRecords(Run(r, events[..k]), events[k], Run(r, events[..k + 1]));
    ExecutedStakesFrozen(r, events[..k + 1], events[k + 1..], id.epoch);
    RecordsKept(Run(r, events[..k + 1]), Run(r, events), id);
  }
}
