/** Headers finalized by the signatures of more than two thirds of an epoch's stake. */
module HeaderOracle {
  import opened Checked
  import opened Sums
  import opened ValidatorRegistry

  type Key = nat
  type Signature = nat

  /** What the verification precompile answers: no proper answer, or a verdict. */
  datatype Verdict = NoAnswer | Valid | Invalid

  /**
   * The cryptography, as functions nothing is known about: the hash of a key,
   * the digest of a header (absent if the precompile fails) and the verdict on
   * a signature.
   */
  datatype Crypto = Crypto(
    hash: Key -> Hash,
    digest: (nat, nat) -> Reply<nat>,
    verify: (Key, Signature, nat) -> Verdict)

  datatype Rejection = Mismatch | NotSorted | PrecompileFailed | BelowQuorum | Fault

  datatype Answer<+T> = Fine(value: T) | Refused(why: Rejection)

  /** A submission for one epoch. */
  datatype Submission = Submission(blockNumber: nat, stateRoot: nat, epoch: Epoch, keys: seq<Key>, sigs: seq<Signature>)

  // ----- what a submission says -----------------------------------------------------

  predicate Sorted(c: Crypto, keys: seq<Key>) {
    && (forall i :: 0 <= i < |keys| ==> c.hash(keys[i]) > 0)
    && (forall i, j :: 0 <= i < j < |keys| ==> c.hash(keys[i]) < c.hash(keys[j]))
  }

  predicate Answered(c: Crypto, keys: seq<Key>, sigs: seq<Signature>, digest: nat)
    requires |keys| == |sigs|
  {
    forall i :: 0 <= i < |keys| ==> c.verify(keys[i], sigs[i], digest) != NoAnswer
  }

  /** The hashes of the keys with a valid signature. */
  function Signers(c: Crypto, keys: seq<Key>, sigs: seq<Signature>, digest: nat): set<Hash>
    requires |keys| == |sigs|
  {
    if keys == [] then {}
    else
      var n := |keys| - 1;
      Signers(c, keys[..n], sigs[..n], digest)
      + (if c.verify(keys[n], sigs[n], digest) == Valid then {c.hash(keys[n])} else {})
  }

  ghost function Stakes(r: Registry, epoch: Epoch, s: set<Hash>): map<Hash, int> {
    map h | h in s :: StakeAt(r, epoch, h)
  }

  /** The stake of a set of keys in an epoch. */
  ghost function StakeOf(r: Registry, epoch: Epoch, s: set<Hash>): int {
    Sum(Stakes(r, epoch, s))
  }

  /** When a submission is accepted. */
  ghost predicate Accepts(c: Crypto, r: Registry, sub: Submission) {
    && |sub.keys| == |sub.sigs|
    && c.digest(sub.blockNumber, sub.stateRoot).Done?
    && Sorted(c, sub.keys)
    && var digest := c.digest(sub.blockNumber, sub.stateRoot).value;
    && Answered(c, sub.keys, sub.sigs, digest)
    && QuorumThreshold(r, sub.epoch).Done?
    && QuorumThreshold(r, sub.epoch).value
       <= StakeOf(r, sub.epoch, Signers(c, sub.keys, sub.sigs, digest))
       <= U256_MAX
  }

  lemma MoreThanTwoThirds(total: nat, stake: int)
    ensures total * 2 / 3 + 1 <= stake <==> 3 * stake > 2 * total
  {}

  /**
   * Acceptance without the quorum function: the signers weigh more than two
   * thirds of the total, the doubling of which fits in a word.
   */
  lemma AcceptedByTwoThirds(c: Crypto, r: Registry, sub: Submission)
    ensures Accepts(c, r, sub) <==>
            && |sub.keys| == |sub.sigs|
            && c.digest(sub.blockNumber, sub.stateRoot).Done?
            && Sorted(c, sub.keys)
            && var digest := c.digest(sub.blockNumber, sub.stateRoot).value;
            && Answered(c, sub.keys, sub.sigs, digest)
            && 2 * TotalAt(r, sub.epoch) <= U256_MAX
            && var stake := StakeOf(r, sub.epoch, Signers(c, sub.keys, sub.sigs, digest));
               3 * stake > 2 * TotalAt(r, sub.epoch) && stake <= U256_MAX
  {
    if |sub.keys| == |sub.sigs| && c.digest(sub.blockNumber, sub.stateRoot).Done? {
      var digest := c.digest(sub.blockNumber, sub.stateRoot).value;
      MoreThanTwoThirds(TotalAt(r, sub.epoch), StakeOf(r, sub.epoch, Signers(c, sub.keys, sub.sigs, digest)));
    }
  }

  /** A key signed if it is listed with a valid signature, and only then. */
  lemma {:induction false} SignersAre(c: Crypto, keys: seq<Key>, sigs: seq<Signature>, digest: nat, h: Hash)
    requires |keys| == |sigs|
    ensures h in Signers(c, keys, sigs, digest) <==>
            exists i :: 0 <= i < |keys| && c.verify(keys[i], sigs[i], digest) == Valid && c.hash(keys[i]) == h
  {
    if keys != [] {
      var n := |keys| - 1;
      SignersAre(c, keys[..n], sigs[..n], digest, h);
      assert forall i :: 0 <= i < n ==> keys[..n][i] == keys[i] && sigs[..n][i] == sigs[i];
    }
  }

  lemma StakeOfNone(r: Registry, epoch: Epoch)
    ensures StakeOf(r, epoch, {}) == 0
  {
    SumEmpty(Stakes(r, epoch, {}));
  }

  lemma StakeOfOneMore(r: Registry, epoch: Epoch, s: set<Hash>, h: Hash)
    requires h !in s
    ensures StakeOf(r, epoch, s + {h}) == StakeOf(r, epoch, s) + StakeAt(r, epoch, h)
  {
    assert Stakes(r, epoch, s + {h}) == Stakes(r, epoch, s)[h := StakeAt(r, epoch, h)];
    SumUpdate(Stakes(r, epoch, s), h, StakeAt(r, epoch, h));
  }

  /** A larger set of keys weighs no less. */
  lemma {:induction false} StakeOfMore(r: Registry, epoch: Epoch, s: set<Hash>, t: set<Hash>)
    requires s <= t
    ensures 0 <= StakeOf(r, epoch, s) <= StakeOf(r, epoch, t)
    decreases |t|
  {
    if t == {} {
      StakeOfNone(r, epoch);
    } else {
      var h :| h in t;
      StakeOfOneMore(r, epoch, t - {h}, h);
      assert t - {h} + {h} == t;
      StakeOfMore(r, epoch, s - {h}, t - {h});
      if h in s {
        StakeOfOneMore(r, epoch, s - {h}, h);
        assert s - {h} + {h} == s;
      } else {
        assert s - {h} == s;
      }
    }
  }

  /** Those who sign with the first keys sign with all of them. */
  lemma {:induction false} PrefixSigners(c: Crypto, keys: seq<Key>, sigs: seq<Signature>, digest: nat, i: nat)
    requires |keys| == |sigs| && i <= |keys|
    ensures Signers(c, keys[..i], sigs[..i], digest) <= Signers(c, keys, sigs, digest)
  {
    if i == |keys| {
      assert keys[..i] == keys && sigs[..i] == sigs;
    } else {
      var n := |keys| - 1;
      PrefixSigners(c, keys[..n], sigs[..n], digest, i);
      assert keys[..n][..i] == keys[..i] && sigs[..n][..i] == sigs[..i];
    }
  }

  // ----- the loop ---------------------------------------------------------------------

  /** The keys are sorted, so the next one has not signed before. */
  lemma NotYetSigned(c: Crypto, keys: seq<Key>, sigs: seq<Signature>, digest: nat, h: Hash)
    requires |keys| == |sigs| && forall k :: k in keys ==> c.hash(k) < h
    ensures h !in Signers(c, keys, sigs, digest)
  {
    SignersAre(c, keys, sigs, digest, h);
  }

  lemma SortedNext(c: Crypto, keys: seq<Key>, i: nat, last: Hash)
    requires i < |keys| && Sorted(c, keys[..i])
    requires last == if i == 0 then 0 else c.hash(keys[i - 1])
    ensures Sorted(c, keys[..i + 1]) <==> c.hash(keys[i]) > last
    ensures c.hash(keys[i]) > last ==> forall k :: k in keys[..i] ==> c.hash(k) < c.hash(keys[i])
  {
    var now := keys[..i + 1];
    assert now[i] == keys[i] && forall k :: 0 <= k < i ==> now[k] == keys[..i][k];
    if i > 0 {
      assert keys[..i][i - 1] == keys[i - 1] == now[i - 1];
    }
  }

  lemma SignersNext(
    c: Crypto, r: Registry, epoch: Epoch, keys: seq<Key>, sigs: seq<Signature>, digest: nat, i: nat)
    requires |keys| == |sigs| && i < |keys|
    requires forall k :: k in keys[..i] ==> c.hash(k) < c.hash(keys[i])
    ensures StakeOf(r, epoch, Signers(c, keys[..i + 1], sigs[..i + 1], digest))
            == StakeOf(r, epoch, Signers(c, keys[..i], sigs[..i], digest))
               + if c.verify(keys[i], sigs[i], digest) == Valid then StakeAt(r, epoch, c.hash(keys[i])) else 0
  {
    assert keys[..i + 1][..i] == keys[..i] && sigs[..i + 1][..i] == sigs[..i];
    NotYetSigned(c, keys[..i], sigs[..i], digest, c.hash(keys[i]));
    StakeOfOneMore(r, epoch, Signers(c, keys[..i], sigs[..i], digest), c.hash(keys[i]));
    assert Signers(c, keys[..i], sigs[..i], digest) + {} == Signers(c, keys[..i], sigs[..i], digest);
  }

  lemma UnsortedPrefix(c: Crypto, keys: seq<Key>, i: nat)
    requires i <= |keys| && !Sorted(c, keys[..i])
    ensures !Sorted(c, keys)
  {}

  /** The first `i` keys are in order and answered, and weigh `stake`. */
  ghost predicate Counted(c: Crypto, r: Registry, sub: Submission, digest: nat, i: nat, last: Hash, stake: nat)
    requires |sub.keys| == |sub.sigs|
  {
    && i <= |sub.keys| && Sorted(c, sub.keys[..i])
    && (forall k :: 0 <= k < i ==> c.verify(sub.keys[k], sub.sigs[k], digest) != NoAnswer)
    && last == (if i == 0 then 0 else c.hash(sub.keys[i - 1]))
    && stake == StakeOf(r, sub.epoch, Signers(c, sub.keys[..i], sub.sigs[..i], digest))
  }

  lemma NothingCounted(c: Crypto, r: Registry, sub: Submission, digest: nat)
    requires |sub.keys| == |sub.sigs|
    ensures Counted(c, r, sub, digest, 0, 0, 0)
  {
    StakeOfNone(r, sub.epoch);
  }

  lemma OneMoreCounted(c: Crypto, r: Registry, sub: Submission, digest: nat, i: nat, last: Hash, stake: nat)
    requires |sub.keys| == |sub.sigs| && Counted(c, r, sub, digest, i, last, stake) && i < |sub.keys|
    requires c.hash(sub.keys[i]) > last && c.verify(sub.keys[i], sub.sigs[i], digest) != NoAnswer
    ensures var h := c.hash(sub.keys[i]);
            var more := if c.verify(sub.keys[i], sub.sigs[i], digest) == Valid then StakeAt(r, sub.epoch, h) else 0;
            Counted(c, r, sub, digest, i + 1, h, stake + more)
  {
    SortedNext(c, sub.keys, i, last);
    SignersNext(c, r, sub.epoch, sub.keys, sub.sigs, digest, i);
  }

  lemma OutOfOrder(c: Crypto, r: Registry, sub: Submission, digest: nat, i: nat, last: Hash, stake: nat)
    requires |sub.keys| == |sub.sigs| && Counted(c, r, sub, digest, i, last, stake) && i < |sub.keys|
    requires c.hash(sub.keys[i]) <= last
    ensures !Sorted(c, sub.keys)
  {
    SortedNext(c, sub.keys, i, last);
    UnsortedPrefix(c, sub.keys, i + 1);
  }

  /** If the sum has outgrown a word, the stake of all signers does. */
  lemma OverflowCounted(c: Crypto, r: Registry, sub: Submission, digest: nat, i: nat, last: Hash, stake: nat)
    requires |sub.keys| == |sub.sigs| && Counted(c, r, sub, digest, i, last, stake) && stake > U256_MAX
    ensures StakeOf(r, sub.epoch, Signers(c, sub.keys, sub.sigs, digest)) > U256_MAX
  {
    PrefixSigners(c, sub.keys, sub.sigs, digest, i);
    StakeOfMore(r, sub.epoch, Signers(c, sub.keys[..i], sub.sigs[..i], digest),
                Signers(c, sub.keys, sub.sigs, digest));
  }

  lemma AllCounted(c: Crypto, r: Registry, sub: Submission, digest: nat, last: Hash, stake: nat)
    requires |sub.keys| == |sub.sigs| && Counted(c, r, sub, digest, |sub.keys|, last, stake)
    ensures Sorted(c, sub.keys) && Answered(c, sub.keys, sub.sigs, digest)
    ensures stake == StakeOf(r, sub.epoch, Signers(c, sub.keys, sub.sigs, digest))
  {
    assert sub.keys[..|sub.keys|] == sub.keys && sub.sigs[..|sub.sigs|] == sub.sigs;
  }

  class QuorumHeaderOracle {
    const crypto: Crypto
    var headerStateRoot: map<nat, nat>

    constructor (crypto: Crypto)
      ensures this.crypto == crypto && headerStateRoot == map[]
    {
      this.crypto := crypto;
      headerStateRoot := map[];
    }

    /** The signed stake of a submission, key by key; the registry is read, not changed. */
    method SignedStake(r: Registry, sub: Submission, digest: nat) returns (a: Answer<nat>)
      requires |sub.keys| == |sub.sigs|
      ensures a.Fine? <==>
              && Sorted(crypto, sub.keys) && Answered(crypto, sub.keys, sub.sigs, digest)
              && StakeOf(r, sub.epoch, Signers(crypto, sub.keys, sub.sigs, digest)) <= U256_MAX
      ensures a.Fine? ==> a.value == StakeOf(r, sub.epoch, Signers(crypto, sub.keys, sub.sigs, digest))
    {
      var sigStake: nat := 0;
      var lastHash: Hash := 0;
      NothingCounted(crypto, r, sub, digest);
      for i := 0 to |sub.keys|
        invariant Counted(crypto, r, sub, digest, i, lastHash, sigStake) && sigStake <= U256_MAX
      {
        var pkHash := crypto.hash(sub.keys[i]);
        if pkHash <= lastHash {
          OutOfOrder(crypto, r, sub, digest, i, lastHash, sigStake);
          return Refused(NotSorted);
        }
        var verdict := crypto.verify(sub.keys[i], sub.sigs[i], digest);
        if verdict == NoAnswer {
          return Refused(PrecompileFailed);
        }
        OneMoreCounted(crypto, r, sub, digest, i, lastHash, sigStake);
        lastHash := pkHash;
        if verdict == Valid {
          var stake := StakeAt(r, sub.epoch, pkHash);
          if sigStake + stake > U256_MAX {
            OverflowCounted(crypto, r, sub, digest, i + 1, lastHash, sigStake + stake);
            return Refused(Fault);
          }
          sigStake := sigStake + stake;
        }
      }
      AllCounted(crypto, r, sub, digest, lastHash, sigStake);
      a := Fine(sigStake);
    }

    method SubmitHeader(r: Registry, sub: Submission) returns (a: Answer<()>)
      modifies `headerStateRoot
      ensures a.Fine? <==> Accepts(crypto, r, sub)
      ensures headerStateRoot == if a.Fine? then old(headerStateRoot)[sub.blockNumber := sub.stateRoot]
                                 else old(headerStateRoot)
    {
      if |sub.keys| != |sub.sigs| {
        return Refused(Mismatch);
      }
      var digest := crypto.digest(sub.blockNumber, sub.stateRoot);
      if digest.Reverted? {
        return Refused(PrecompileFailed);
      }
      var sigStake := SignedStake(r, sub, digest.value);
      if sigStake.Refused? {
        return Refused(sigStake.why);
      }
      var needed := QuorumThreshold(r, sub.epoch);
      if needed.Reverted? {
        return Refused(Fault);
      }
      if sigStake.value < needed.value {
        return Refused(BelowQuorum);
      }
      headerStateRoot := headerStateRoot[sub.blockNumber := sub.stateRoot];
      return Fine(());
    }
  }

  // ----- quorum intersection --------------------------------------------------------

  ghost function DigestOf(c: Crypto, sub: Submission): nat
    requires c.digest(sub.blockNumber, sub.stateRoot).Done?
  {
    c.digest(sub.blockNumber, sub.stateRoot).value
  }

  /** The valid signers of an accepted submission. */
  ghost function SignersOf(c: Crypto, r: Registry, sub: Submission): set<Hash>
    requires Accepts(c, r, sub)
  {
    Signers(c, sub.keys, sub.sigs, DigestOf(c, sub))
  }

  lemma {:induction false} InclusionExclusion(r: Registry, epoch: Epoch, s: set<Hash>, t: set<Hash>)
    ensures StakeOf(r, epoch, s) + StakeOf(r, epoch, t) == StakeOf(r, epoch, s + t) + StakeOf(r, epoch, s * t)
    decreases |s|
  {
    if s == {} {
      StakeOfNone(r, epoch);
      assert s + t == t && s * t == {};
    } else {
      var h :| h in s;
      var rest := s - {h};
      InclusionExclusion(r, epoch, rest, t);
      StakeOfOneMore(r, epoch, rest, h);
      assert rest + {h} == s;
      if h in t {
        assert rest + t == s + t && rest * t + {h} == s * t;
        StakeOfOneMore(r, epoch, rest * t, h);
      } else {
        assert (rest + t) + {h} == s + t && rest * t == s * t;
        StakeOfOneMore(r, epoch, rest + t, h);
      }
    }
  }

  /** Keys the registry does not know weigh nothing; those it knows weigh no more than it records. */
  lemma {:induction false} StakeOfRegistered(r: Registry, epoch: Epoch, s: set<Hash>, registered: map<Hash, nat>)
    requires forall h :: h in s ==> StakeAt(r, epoch, h) == if h in registered then registered[h] else 0
    ensures 0 <= StakeOf(r, epoch, s) <= Sum(registered)
    decreases |s|
  {
    if s == {} {
      StakeOfNone(r, epoch);
      SumNonNegative(registered);
    } else {
      var h :| h in s;
      var rest := s - {h};
      StakeOfOneMore(r, epoch, rest, h);
      assert rest + {h} == s;
      if h in registered {
        SumRemove(registered, h);
        StakeOfRegistered(r, epoch, rest, registered - {h});
      } else {
        StakeOfRegistered(r, epoch, rest, registered);
      }
    }
  }

  /** No set of keys has more stake in an epoch than its total. */
  lemma StakeWithinTotal(r: Registry, epoch: Epoch, s: set<Hash>)
    requires StakesOk(r)
    ensures 0 <= StakeOf(r, epoch, s) <= TotalAt(r, epoch)
  {
    if epoch in r.stakes {
      StakeOfRegistered(r, epoch, s, r.stakes[epoch]);
      assert epoch in r.totals;
    } else {
      var nothing: map<Hash, nat> := map[];
      StakeOfRegistered(r, epoch, s, nothing);
      SumEmpty(nothing);
    }
  }

  /** No header is accepted for an epoch whose stakes were never set. */
  lemma AcceptedEpochExecuted(c: Crypto, r: Registry, sub: Submission)
    requires StakesOk(r) && Accepts(c, r, sub)
    ensures Executed(r, sub.epoch)
  {
    StakeWithinTotal(r, sub.epoch, SignersOf(c, r, sub));
    if sub.epoch in r.totals {
      assert Executed(r, sub.epoch);
    }
  }

  /**
   * Quorum intersection: the keys that validly signed both of two accepted
   * submissions for one epoch hold more than a third of its total stake, even
   * if the proposal listed a key twice.
   */
  lemma QuorumsIntersect(c: Crypto, r: Registry, a: Submission, b: Submission)
    requires StakesOk(r) && Accepts(c, r, a) && Accepts(c, r, b) && a.epoch == b.epoch
    ensures 3 * StakeOf(r, a.epoch, SignersOf(c, r, a) * SignersOf(c, r, b)) > TotalAt(r, a.epoch)
  {
    var s, t := SignersOf(c, r, a), SignersOf(c, r, b);
    InclusionExclusion(r, a.epoch, s, t);
    StakeWithinTotal(r, a.epoch, s + t);
    TwiceTheQuorum(TotalAt(r, a.epoch));
  }

  lemma TwiceTheQuorum(total: nat)
    ensures 3 * (2 * (total * 2 / 3 + 1) - total) > total
  {}

  /** Acceptance depends on the registry only through the stakes of the epoch. */
  lemma AcceptsLater(c: Crypto, r: Registry, r': Registry, sub: Submission)
    requires Accepts(c, r, sub)
    requires TotalAt(r', sub.epoch) == TotalAt(r, sub.epoch)
    requires forall h: Hash :: StakeAt(r', sub.epoch, h) == StakeAt(r, sub.epoch, h)
    ensures Accepts(c, r', sub)
  {
    var s := SignersOf(c, r, sub);
    assert Stakes(r', sub.epoch, s) == Stakes(r, sub.epoch, s);
  }

  /**
   * The same over time: a header accepted after some run of the registry and
   * one accepted after any continuation of it, under the same epoch.
   */
  lemma QuorumsIntersectOverRuns(
    c: Crypto, r0: Registry, events: seq<Event>, more: seq<Event>, a: Submission, b: Submission)
    requires Deployed(r0) && Timed(events + more) && a.epoch == b.epoch
    requires Accepts(c, Run(r0, events), a) && Accepts(c, Run(r0, events + more), b)
    ensures var r := Run(r0, events + more);
            && Executed(Run(r0, events), a.epoch)
            && Accepts(c, r, a)
            && 3 * StakeOf(r, a.epoch, SignersOf(c, r, a) * SignersOf(c, r, b)) > TotalAt(r, a.epoch)
  {
    var r, r' := Run(r0, events), Run(r0, events + more);
    assert Timed(events) by {
      assert forall i :: 0 <= i < |events| ==> events[i] == (events + more)[i];
    }
    RunSound(r0, events);
    RunSound(r0, events + more);
    AcceptedEpochExecuted(c, r, a);
    ExecutedStakesFrozen(r0, events, more, a.epoch);
    AcceptsLater(c, r, r', a);
    QuorumsIntersect(c, r', a, b);
  }
}
