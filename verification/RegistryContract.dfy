/** The registry contract as it runs: fields, storage updates and the loops over a proposal. */
module RegistryContract {
  import opened Checked
  import opened ValidatorRegistry

  predicate NoRepeats(s: seq<Address>) {
    forall i, j :: 0 <= i < j < |s| ==> s[i] != s[j]
  }

  /** The checks of the deployment: the signer set, or the reason there is none. */
  method CheckSigners(signers: seq<Address>, threshold: nat) returns (r: Reply<set<Address>>)
    ensures r.Done? <==> 1 <= threshold <= |signers| && 0 !in signers && NoRepeats(signers)
    ensures r.Done? ==> r.value == (set s | s in signers) && |r.value| == |signers|
  {
    if threshold == 0 || threshold > |signers| {
      return Reverted(InvalidThreshold);
    }
    var isSigner := {};
    for i := 0 to |signers|
      invariant isSigner == set s | s in signers[..i]
      invariant |isSigner| == i && 0 !in signers[..i] && NoRepeats(signers[..i])
    {
      var s := signers[i];
      assert signers[..i + 1] == signers[..i] + [s];
      if s == 0 {
        assert signers[i] in signers;
        return Reverted(ZeroSigner);
      }
      if s in isSigner {
        var k :| 0 <= k < i && signers[k] == s;
        return Reverted(DuplicateSigner);
      }
      isSigner := isSigner + {s};
    }
    assert signers[..|signers|] == signers;
    return Done(isSigner);
  }

  /** A call came out as the state machine says; a revert leaves everything as it was. */
  ghost predicate Agrees(r: Reply<()>, expected: Reply<Registry>, before: Registry, now: Registry) {
    if r.Reverted? then expected == Reverted(r.reason) && now == before else expected == Done(now)
  }

  lemma ListedNext(id: Id, i: nat)
    requires i < |id.pkHashes| == |id.stakes|
    ensures Listed(id.pkHashes[..i + 1], id.stakes[..i + 1])
            == Listed(id.pkHashes[..i], id.stakes[..i])[id.pkHashes[i] := id.stakes[i]]
    ensures Total(id.stakes[..i + 1]) == Total(id.stakes[..i]) + id.stakes[i]
  {
    assert id.pkHashes[..i + 1][..i] == id.pkHashes[..i] && id.stakes[..i + 1][..i] == id.stakes[..i];
  }

  class ValidatorRegistryContract {
    const signers: set<Address>
    const threshold: nat
    const timelockDelay: nat
    var genesisSet: bool
    var currentEpoch: Epoch
    var stakeByEpoch: map<Epoch, map<Hash, nat>>
    var totalStakeByEpoch: map<Epoch, nat>
    var proposals: map<Id, Proposal>

    function Contents(): Registry
      reads this
    {
      Registry(signers, threshold, timelockDelay, genesisSet, currentEpoch,
               stakeByEpoch, totalStakeByEpoch, proposals)
    }

    constructor (signers: set<Address>, threshold: nat, timelockDelay: nat)
      requires 1 <= threshold <= |signers|
      ensures Deployed(Contents())
      ensures this.signers == signers && this.threshold == threshold && this.timelockDelay == timelockDelay
    {
      this.signers, this.threshold, this.timelockDelay := signers, threshold, timelockDelay;
      genesisSet, currentEpoch := false, 0;
      stakeByEpoch, totalStakeByEpoch, proposals := map[], map[], map[];
    }

    /** `_approve`: the sender's mark, the count, and the timelock once the count is reached. */
    method ApproveProposal(now: nat, sender: Address, id: Id, p: Proposal) returns (r: Reply<()>)
      modifies `proposals
      ensures r.Reverted? ==> Approved(Contents(), now, sender, p) == Reverted(r.reason)
      ensures r.Reverted? ==> proposals == old(proposals)
      ensures r.Done? ==> id in proposals && Approved(Contents(), now, sender, p) == Done(proposals[id])
      ensures r.Done? ==> proposals == old(proposals)[id := proposals[id]]
    {
      var p1 := p.(approved := p.approved + {sender});
      p1 := p1.(approvalCount := p1.approvalCount + 1);
      if p1.approvalCount == threshold && p1.readyAt == 0 {
        if now + timelockDelay > U256_MAX {
          return Reverted(Panic);
        }
        p1 := p1.(readyAt := now + timelockDelay);
      }
      proposals := proposals[id := p1];
      r := Done(());
    }

    method ProposeEpochTransition(now: nat, sender: Address, id: Id) returns (r: Reply<()>)
      modifies `proposals
      ensures Agrees(r, DoPropose(old(Contents()), now, sender, id), old(Contents()), Contents())
    {
      if sender !in signers {
        return Reverted(NotSigner);
      }
      var expected := if genesisSet then currentEpoch + 1 else 0;
      if id.epoch != expected {
        return Reverted(EpochOutOfSequence);
      }
      if |id.pkHashes| != |id.stakes| {
        return Reverted(LengthMismatch);
      }
      if id in proposals {
        return Reverted(ProposalAlreadyExists);
      }
      r := ApproveProposal(now, sender, id, NEW_PROPOSAL);
    }

    method ApproveEpochTransition(now: nat, sender: Address, id: Id) returns (r: Reply<()>)
      modifies `proposals
      ensures Agrees(r, DoApprove(old(Contents()), now, sender, id), old(Contents()), Contents())
    {
      if sender !in signers {
        return Reverted(NotSigner);
      }
      if id !in proposals {
        return Reverted(ProposalNotFound);
      }
      var p := proposals[id];
      if p.executed {
        return Reverted(AlreadyExecuted);
      }
      if sender in p.approved {
        return Reverted(AlreadyApproved);
      }
      r := ApproveProposal(now, sender, id, p);
    }

    method RevokeApproval(sender: Address, id: Id) returns (r: Reply<()>)
      modifies `proposals
      ensures Agrees(r, DoRevoke(old(Contents()), sender, id), old(Contents()), Contents())
    {
      if sender !in signers {
        return Reverted(NotSigner);
      }
      if id !in proposals {
        return Reverted(ProposalNotFound);
      }
      var p := proposals[id];
      if p.executed {
        return Reverted(AlreadyExecuted);
      }
      if sender !in p.approved {
        return Reverted(NotApproved);
      }
      if p.approvalCount == 0 {
        return Reverted(Panic);
      }
      p := p.(approved := p.approved - {sender}, approvalCount := p.approvalCount - 1);
      if p.approvalCount < threshold {
        p := p.(readyAt := 0);
      }
      proposals := proposals[id := p];
      r := Done(());
    }

    /** The loop over a proposal: stakes are written one by one while the total accumulates. */
    method WriteStakes(id: Id) returns (total: Reply<nat>)
      requires |id.pkHashes| == |id.stakes| && id.epoch !in stakeByEpoch
      modifies `stakeByEpoch
      ensures total.Done? <==> Total(id.stakes) <= U256_MAX
      ensures total.Done? ==> total.value == Total(id.stakes)
      ensures total.Done? ==> stakeByEpoch == old(stakeByEpoch)[id.epoch := Listed(id.pkHashes, id.stakes)]
      ensures total.Reverted? ==> total.reason == Panic && stakeByEpoch == old(stakeByEpoch)
    {
      var saved := stakeByEpoch;
      var sum := 0;
      stakeByEpoch := stakeByEpoch[id.epoch := map[]];
      for i := 0 to |id.pkHashes|
        modifies `stakeByEpoch
        invariant sum == Total(id.stakes[..i]) <= U256_MAX
        invariant stakeByEpoch == saved[id.epoch := Listed(id.pkHashes[..i], id.stakes[..i])]
      {
        ListedNext(id, i);
        stakeByEpoch := stakeByEpoch[id.epoch := stakeByEpoch[id.epoch][id.pkHashes[i] := id.stakes[i]]];
        if sum + id.stakes[i] > U256_MAX {
          TotalGrows(id.stakes, i + 1);
          stakeByEpoch := saved;
          return Reverted(Panic);
        }
        sum := sum + id.stakes[i];
      }
      assert id.pkHashes[..|id.pkHashes|] == id.pkHashes && id.stakes[..|id.stakes|] == id.stakes;
      total := Done(sum);
    }

    method ExecuteEpochTransition(now: nat, id: Id) returns (r: Reply<()>)
      requires StakesOk(Contents())
      modifies this
      ensures Agrees(r, DoExecute(old(Contents()), now, id), old(Contents()), Contents())
    {
      if id !in proposals {
        return Reverted(ProposalNotFound);
      }
      var p := proposals[id];
      if p.executed {
        return Reverted(AlreadyExecuted);
      }
      if p.readyAt == 0 {
        return Reverted(QuorumNotReached);
      }
      if now < p.readyAt {
        return Reverted(TimelockNotElapsed);
      }
      var expected := if genesisSet then currentEpoch + 1 else 0;
      if id.epoch != expected {
        return Reverted(EpochOutOfSequence);
      }
      if |id.pkHashes| != |id.stakes| {
        return Reverted(Panic);
      }
      var total :- WriteStakes(id);
      totalStakeByEpoch := totalStakeByEpoch[id.epoch := total];
      currentEpoch := id.epoch;
      genesisSet := true;
      proposals := proposals[id := p.(executed := true)];
      r := Done(());
    }
  }

  lemma {:induction false} TotalGrows(stakes: seq<nat>, n: nat)
    requires n <= |stakes|
    ensures Total(stakes[..n]) <= Total(stakes)
    decreases |stakes| - n
  {
    if n == |stakes| {
      assert stakes[..n] == stakes;
    } else {
      assert stakes[..n + 1][..n] == stakes[..n];
      TotalGrows(stakes, n + 1);
    }
  }
}
