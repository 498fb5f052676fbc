/**
 * The three validator sets: the execution set, kept both as an array and as a
 * bitset, the consensus set and the snapshot set with their views.
 */
module ValidatorSets {
  import opened Ledger

  const ACTIVE_VALSET_SIZE: nat := 200

  datatype View = View(stake: nat, commission: nat)

  type Views = map<ValId, View>

  datatype Sets = Sets(
    execution: seq<ValId>, consensus: seq<ValId>, snapshot: seq<ValId>,
    consensusView: Views, snapshotView: Views)

  const NO_SETS: Sets := Sets([], [], [], map[], map[])

  function ViewOf(views: Views, v: ValId): View {
    if v in views then views[v] else View(0, 0)
  }

  type Pools = map<ValId, Pool>

  function ValOf(pools: Pools, v: ValId): Validator {
    if v in pools then pools[v].val else NO_VALIDATOR
  }

  predicate NoDuplicates<T(==)>(s: seq<T>) {
    forall i, j :: 0 <= i < j < |s| ==> s[i] != s[j]
  }

  // ----- ranking ----------------------------------------------------------

  /** Larger stake first, then the smaller id. */
  predicate Before(pools: Pools, u: ValId, v: ValId) {
    ValOf(pools, u).stake > ValOf(pools, v).stake
    || (ValOf(pools, u).stake == ValOf(pools, v).stake && u < v)
  }

  function InsertRanked(pools: Pools, v: ValId, s: seq<ValId>): (r: seq<ValId>) {
    if s == [] || !Before(pools, s[0], v) then [v] + s
    else [s[0]] + InsertRanked(pools, v, s[1..])
  }

  function Ranked(pools: Pools, s: seq<ValId>): (r: seq<ValId>) {
    if s == [] then [] else InsertRanked(pools, s[0], Ranked(pools, s[1..]))
  }

  predicate IsRanked(pools: Pools, s: seq<ValId>) {
    forall i, j :: 0 <= i < j < |s| ==> !Before(pools, s[j], s[i])
  }

  lemma {:induction false} InsertRankedAdds(pools: Pools, v: ValId, s: seq<ValId>)
    ensures multiset(InsertRanked(pools, v, s)) == multiset(s) + multiset{v}
  {
    if s != [] && Before(pools, s[0], v) {
      InsertRankedAdds(pools, v, s[1..]);
      assert s == [s[0]] + s[1..];
    }
  }

  lemma RankedCons(pools: Pools, x: ValId, t: seq<ValId>)
    requires IsRanked(pools, t) && forall y :: y in t ==> !Before(pools, y, x)
    ensures IsRanked(pools, [x] + t)
  {}

  lemma RankedTail(pools: Pools, s: seq<ValId>)
    requires IsRanked(pools, s) && s != []
    ensures IsRanked(pools, s[1..])
    ensures forall y :: y in s[1..] ==> !Before(pools, y, s[0])
  {}

  lemma NotBeforeTransitive(pools: Pools, x: ValId, y: ValId, z: ValId)
    requires !Before(pools, y, x) && !Before(pools, z, y)
    ensures !Before(pools, z, x)
  {}

  lemma {:induction false} InsertRankedKeeps(pools: Pools, v: ValId, s: seq<ValId>)
    requires IsRanked(pools, s)
    ensures IsRanked(pools, InsertRanked(pools, v, s))
  {
    if s == [] {
    } else if !Before(pools, s[0], v) {
      RankedTail(pools, s);
      forall y | y in s
        ensures !Before(pools, y, v)
      {
        if y != s[0] {
          assert y in s[1..];
          NotBeforeTransitive(pools, v, s[0], y);
        }
      }
      RankedCons(pools, v, s);
    } else {
      var t := InsertRanked(pools, v, s[1..]);
      RankedTail(pools, s);
      InsertRankedKeeps(pools, v, s[1..]);
      InsertRankedAdds(pools, v, s[1..]);
      forall y | y in t
        ensures !Before(pools, y, s[0])
      {
        assert y in multiset(t);
        assert y == v || y in s[1..];
      }
      RankedCons(pools, s[0], t);
    }
  }

  /** Ranking permutes, and puts the list in order. */
  lemma {:induction false} RankedSorts(pools: Pools, s: seq<ValId>)
    ensures IsRanked(pools, Ranked(pools, s))
    ensures multiset(Ranked(pools, s)) == multiset(s)
  {
    if s != [] {
      RankedSorts(pools, s[1..]);
      InsertRankedKeeps(pools, s[0], Ranked(pools, s[1..]));
      InsertRankedAdds(pools, s[0], Ranked(pools, s[1..]));
      assert s == [s[0]] + s[1..];
    }
  }

  lemma SameMultiset<T>(s: seq<T>, t: seq<T>)
    requires multiset(s) == multiset(t)
    ensures |s| == |t|
    ensures forall x :: x in s <==> x in t
  {
    assert |multiset(s)| == |multiset(t)|;
    forall x
      ensures x in s <==> x in t
    {
      assert x in multiset(s) <==> x in multiset(t);
    }
  }

  lemma RankedHeadsAgree(pools: Pools, s: seq<ValId>, t: seq<ValId>)
    requires IsRanked(pools, s) && IsRanked(pools, t) && s != [] && t != []
    requires s[0] in t && t[0] in s
    ensures s[0] == t[0]
  {
    RankedTail(pools, s);
    RankedTail(pools, t);
    assert s == [s[0]] + s[1..] && t == [t[0]] + t[1..];
    assert !Before(pools, s[0], t[0]) && !Before(pools, t[0], s[0]);
  }

  lemma TailsAgree<T>(s: seq<T>, t: seq<T>)
    requires s != [] && t != [] && s[0] == t[0] && multiset(s) == multiset(t)
    ensures multiset(s[1..]) == multiset(t[1..])
  {
    assert s == [s[0]] + s[1..] && t == [t[0]] + t[1..];
    assert multiset(s) == multiset{s[0]} + multiset(s[1..]);
    assert multiset(t) == multiset{s[0]} + multiset(t[1..]);
    assert multiset(s[1..]) == multiset(s) - multiset{s[0]};
  }

  /** The order is total, so there is only one way to sort: the sorting algorithm does not matter. */
  lemma {:induction false} RankingIsUnique(pools: Pools, s: seq<ValId>, t: seq<ValId>)
    requires IsRanked(pools, s) && IsRanked(pools, t) && multiset(s) == multiset(t)
    ensures s == t
  {
    SameMultiset(s, t);
    if s != [] {
      RankedHeadsAgree(pools, s, t);
      TailsAgree(s, t);
      RankedTail(pools, s);
      RankedTail(pools, t);
      RankingIsUnique(pools, s[1..], t[1..]);
      assert s == [s[0]] + s[1..] && t == [t[0]] + t[1..];
    }
  }

  // ----- candidates -------------------------------------------------------

  predicate Eligible(pools: Pools, v: ValId) {
    ValOf(pools, v).flags == OK
  }

  function Candidates(pools: Pools, execution: seq<ValId>): (r: seq<ValId>) {
    if execution == [] then []
    else
      var rest := Candidates(pools, execution[..|execution| - 1]);
      var v := execution[|execution| - 1];
      if Eligible(pools, v) then rest + [v] else rest
  }

  lemma {:induction false} CandidatesAre(pools: Pools, s: seq<ValId>)
    ensures forall v :: v in Candidates(pools, s) <==> v in s && Eligible(pools, v)
    ensures NoDuplicates(s) ==> NoDuplicates(Candidates(pools, s))
  {
    if s != [] {
      var init := s[..|s| - 1];
      CandidatesAre(pools, init);
      assert s == init + [s[|s| - 1]];
    }
  }

  function Top(s: seq<ValId>): (r: seq<ValId>) {
    if |s| <= ACTIVE_VALSET_SIZE then s else s[..ACTIVE_VALSET_SIZE]
  }

  /** The set elected at a snapshot. */
  function Elected(pools: Pools, execution: seq<ValId>): seq<ValId> {
    Top(Ranked(pools, Candidates(pools, execution)))
  }

  function ViewsOf(pools: Pools, s: seq<ValId>): Views {
    map v | v in s :: View(ValOf(pools, v).stake, ValOf(pools, v).commission)
  }

  // ----- compaction -------------------------------------------------------

  /** Drops position `i` by moving the last entry into it. */
  function PopAndSwap(s: seq<ValId>, i: nat): (r: seq<ValId>)
    requires i < |s|
    ensures |r| == |s| - 1
  {
    var last := |s| - 1;
    if i < last then s[..last][i := s[last]] else s[..last]
  }

  /** Sweeps positions `n - 1` down to 0, dropping whoever is no longer eligible. */
  function Sweep(pools: Pools, s: seq<ValId>, n: nat): (r: seq<ValId>)
    requires n <= |s|
    decreases n
  {
    if n == 0 then s
    else if Eligible(pools, s[n - 1]) then Sweep(pools, s, n - 1)
    else Sweep(pools, PopAndSwap(s, n - 1), n - 1)
  }

  lemma PopAndSwapDrops(s: seq<ValId>, i: nat)
    requires i < |s|
    ensures multiset(PopAndSwap(s, i)) + multiset{s[i]} == multiset(s)
  {
    var last := |s| - 1;
    assert s == s[..last] + [s[last]];
    if i < last {
      assert multiset(s[..last][i := s[last]]) == multiset(s[..last]) - multiset{s[i]} + multiset{s[last]};
    }
  }

  /** Counting each id: a sweep keeps the eligible ones and drops the others from the swept part. */
  lemma {:induction false} SweepCounts(pools: Pools, s: seq<ValId>, n: nat, v: ValId)
    requires n <= |s|
    requires forall i :: n <= i < |s| ==> Eligible(pools, s[i])
    ensures multiset(Sweep(pools, s, n))[v] == if Eligible(pools, v) then multiset(s)[v] else 0
    decreases n
  {
    if n == 0 {
      if !Eligible(pools, v) {
        assert v !in s;
      }
    } else if Eligible(pools, s[n - 1]) {
      SweepCounts(pools, s, n - 1, v);
    } else {
      var t := PopAndSwap(s, n - 1);
      PopAndSwapDrops(s, n - 1);
      forall i | n - 1 <= i < |t|
        ensures Eligible(pools, t[i])
      {
        assert t[i] == s[i] || t[i] == s[|s| - 1];
      }
      SweepCounts(pools, t, n - 1, v);
      assert multiset(s)[v] == multiset(t)[v] + multiset{s[n - 1]}[v];
    }
  }

  lemma DuplicateFreeCounts<T>(s: seq<T>)
    ensures NoDuplicates(s) <==> forall x :: multiset(s)[x] <= 1
  {
    if NoDuplicates(s) {
      forall x
        ensures multiset(s)[x] <= 1
      {
        CountAtMostOnce(s, x);
      }
    } else {
      var i, j :| 0 <= i < j < |s| && s[i] == s[j];
      assert s == s[..i] + [s[i]] + s[i + 1..j] + [s[j]] + s[j + 1..];
      assert multiset(s)[s[i]] >= 2;
    }
  }

  lemma {:induction false} CountAtMostOnce<T>(s: seq<T>, x: T)
    requires NoDuplicates(s)
    ensures multiset(s)[x] <= 1
  {
    if s != [] {
      CountAtMostOnce(s[1..], x);
      assert s == [s[0]] + s[1..];
      if x == s[0] {
        assert x !in s[1..];
      }
    }
  }

  /** Compaction leaves exactly the eligible ids, each as often as before. */
  lemma SweepKeepsEligible(pools: Pools, s: seq<ValId>)
    ensures var r := Sweep(pools, s, |s|);
            && (forall v :: v in r <==> v in s && Eligible(pools, v))
            && (NoDuplicates(s) ==> NoDuplicates(r))
  {
    var r := Sweep(pools, s, |s|);
    forall v
      ensures multiset(r)[v] == if Eligible(pools, v) then multiset(s)[v] else 0
    {
      SweepCounts(pools, s, |s|, v);
    }
    forall v
      ensures v in r <==> v in s && Eligible(pools, v)
    {
      assert v in r <==> multiset(r)[v] > 0;
      assert v in s <==> multiset(s)[v] > 0;
    }
    DuplicateFreeCounts(s);
    DuplicateFreeCounts(r);
  }

  // ----- the snapshot -----------------------------------------------------

  /** What `syscallSnapshot` makes of the sets. */
  function TakeSnapshot(sets: Sets, pools: Pools): Sets {
    var elected := Elected(pools, sets.execution);
    Sets(
      Sweep(pools, sets.execution, |sets.execution|),
      elected,
      sets.consensus,
      (sets.consensusView - Elements(sets.consensus)) + ViewsOf(pools, elected),
      (sets.snapshotView - Elements(sets.snapshot)) + CopiedViews(sets.consensusView, sets.consensus))
  }

  function CopiedViews(views: Views, s: seq<ValId>): Views {
    map v | v in s :: ViewOf(views, v)
  }

  function Elements(s: seq<ValId>): set<ValId> {
    set v | v in s
  }

  function AddToExecution(sets: Sets, v: ValId): Sets {
    if v in sets.execution then sets else sets.(execution := sets.execution + [v])
  }

  /** The views are exactly those of the listed ids, and all entered with enough stake. */
  predicate ViewsMatch(s: seq<ValId>, views: Views) {
    && views.Keys == Elements(s)
    && forall v :: v in views ==>
         views[v].stake >= ACTIVE_VALIDATOR_STAKE && views[v].commission <= MAX_COMMISSION
  }

  predicate SetsOk(sets: Sets) {
    && NoDuplicates(sets.execution) && NoDuplicates(sets.consensus) && NoDuplicates(sets.snapshot)
    && ViewsMatch(sets.consensus, sets.consensusView)
    && ViewsMatch(sets.snapshot, sets.snapshotView)
  }

  /** Those that outrank `v` among `s`. */
  function Outranking(pools: Pools, s: seq<ValId>, v: ValId): set<ValId> {
    set u | u in s && Before(pools, u, v)
  }

  lemma PrefixOutranks(pools: Pools, s: seq<ValId>, i: nat)
    requires IsRanked(pools, s) && NoDuplicates(s) && i < |s|
    ensures Outranking(pools, s, s[i]) == Elements(s[..i])
  {
    forall u
      ensures u in Outranking(pools, s, s[i]) <==> u in s[..i]
    {
      if u in s {
        var j :| 0 <= j < |s| && s[j] == u;
        if j < i {
          assert !Before(pools, s[i], s[j]) && s[i] != s[j];
          assert s[..i][j] == u;
        } else if j > i {
          assert !Before(pools, s[j], s[i]);
        }
      }
    }
  }

  lemma {:induction false} ElementsSize(s: seq<ValId>)
    requires NoDuplicates(s)
    ensures |Elements(s)| == |s|
  {
    if s == [] {
      assert Elements(s) == {};
    } else {
      ElementsSize(s[1..]);
      assert s == [s[0]] + s[1..];
      assert Elements(s) == Elements(s[1..]) + {s[0]};
      assert s[0] !in s[1..];
    }
  }

  /**
   * The elected set by rank: position `i` holds the candidate outranked by
   * exactly `i` others, and a candidate is elected iff fewer than
   * `ACTIVE_VALSET_SIZE` outrank it.
   */
  lemma ElectedByRank(pools: Pools, execution: seq<ValId>)
    requires NoDuplicates(execution)
    ensures var c, e := Candidates(pools, execution), Elected(pools, execution);
            && NoDuplicates(e)
            && (forall i :: 0 <= i < |e| ==> |Outranking(pools, c, e[i])| == i)
            && (forall v :: v in e <==>
                  v in execution && Eligible(pools, v) && |Outranking(pools, c, v)| < ACTIVE_VALSET_SIZE)
  {
    var c := Candidates(pools, execution);
    var r := Ranked(pools, c);
    CandidatesAre(pools, execution);
    RankedSorts(pools, c);
    SameMultiset(c, r);
    DuplicateFreeCounts(c);
    DuplicateFreeCounts(r);
    forall i | 0 <= i < |r|
      ensures |Outranking(pools, c, r[i])| == i
    {
      RankIsPosition(pools, c, r, i);
    }
    forall v
      ensures v in Top(r) <==>
              v in execution && Eligible(pools, v) && |Outranking(pools, c, v)| < ACTIVE_VALSET_SIZE
    {
      TopByRank(pools, c, r, v);
    }
  }

  lemma TopByRank(pools: Pools, c: seq<ValId>, r: seq<ValId>, v: ValId)
    requires forall u :: u in c <==> u in r
    requires forall i :: 0 <= i < |r| ==> |Outranking(pools, c, r[i])| == i
    ensures v in Top(r) <==> v in c && |Outranking(pools, c, v)| < ACTIVE_VALSET_SIZE
  {
    if v in r {
      var i :| 0 <= i < |r| && r[i] == v;
      assert |Outranking(pools, c, r[i])| == i;
      if i < |Top(r)| {
        assert Top(r)[i] == v;
      }
    }
  }

  lemma RankIsPosition(pools: Pools, c: seq<ValId>, r: seq<ValId>, i: nat)
    requires IsRanked(pools, r) && NoDuplicates(r) && i < |r|
    requires forall v :: v in c <==> v in r
    ensures |Outranking(pools, c, r[i])| == i
  {
    PrefixOutranks(pools, r, i);
    assert Outranking(pools, c, r[i]) == Outranking(pools, r, r[i]);
    ElementsSize(r[..i]);
  }

  // ----- what a snapshot depends on ------------------------------------------

  /** The records agree on everything a snapshot reads. */
  ghost predicate SameElectorate(pools: Pools, pools': Pools) {
    forall v: ValId ::
      && ValOf(pools', v).stake == ValOf(pools, v).stake
      && ValOf(pools', v).commission == ValOf(pools, v).commission
      && ValOf(pools', v).flags == ValOf(pools, v).flags
  }

  lemma {:induction false} SameInsertRanked(pools: Pools, pools': Pools, v: ValId, s: seq<ValId>)
    requires SameElectorate(pools, pools')
    ensures InsertRanked(pools', v, s) == InsertRanked(pools, v, s)
  {
    if s != [] {
      assert Before(pools', s[0], v) <==> Before(pools, s[0], v);
      SameInsertRanked(pools, pools', v, s[1..]);
    }
  }

  lemma {:induction false} SameRanked(pools: Pools, pools': Pools, s: seq<ValId>)
    requires SameElectorate(pools, pools')
    ensures Ranked(pools', s) == Ranked(pools, s)
  {
    if s != [] {
      SameRanked(pools, pools', s[1..]);
      SameInsertRanked(pools, pools', s[0], Ranked(pools, s[1..]));
    }
  }

  lemma {:induction false} SameCandidates(pools: Pools, pools': Pools, s: seq<ValId>)
    requires SameElectorate(pools, pools')
    ensures Candidates(pools', s) == Candidates(pools, s)
  {
    if s != [] {
      SameCandidates(pools, pools', s[..|s| - 1]);
      assert Eligible(pools', s[|s| - 1]) <==> Eligible(pools, s[|s| - 1]);
    }
  }

  lemma {:induction false} SameSweep(pools: Pools, pools': Pools, s: seq<ValId>, n: nat)
    requires SameElectorate(pools, pools') && n <= |s|
    ensures Sweep(pools', s, n) == Sweep(pools, s, n)
    decreases n
  {
    if n > 0 {
      assert Eligible(pools', s[n - 1]) <==> Eligible(pools, s[n - 1]);
      if Eligible(pools, s[n - 1]) {
        SameSweep(pools, pools', s, n - 1);
      } else {
        SameSweep(pools, pools', PopAndSwap(s, n - 1), n - 1);
      }
    }
  }

  /** Two states of the records that agree on stakes, commissions and flags elect the same sets. */
  lemma SameSnapshot(sets: Sets, pools: Pools, pools': Pools)
    requires SameElectorate(pools, pools')
    ensures TakeSnapshot(sets, pools') == TakeSnapshot(sets, pools)
  {
    SameSweep(pools, pools', sets.execution, |sets.execution|);
    SameCandidates(pools, pools', sets.execution);
    SameRanked(pools, pools', Candidates(pools, sets.execution));
    var elected := Elected(pools, sets.execution);
    assert ViewsOf(pools', elected) == ViewsOf(pools, elected);
  }
}
