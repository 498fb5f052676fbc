/** The stored validator sets and the loops that rewrite them. */
module ValidatorSetStorage {
  import opened Ledger
  import opened ValidatorSets

  /** A bucket word holds 256 flags; it is modelled as the set of its set bits. */
  type Buckets = map<nat, set<nat>>

  predicate BitSet(bits: Buckets, v: ValId) {
    v / 256 in bits && v % 256 in bits[v / 256]
  }

  function WithBit(bits: Buckets, v: ValId): Buckets {
    bits[v / 256 := (if v / 256 in bits then bits[v / 256] else {}) + {v % 256}]
  }

  function WithoutBit(bits: Buckets, v: ValId): Buckets {
    bits[v / 256 := (if v / 256 in bits then bits[v / 256] else {}) - {v % 256}]
  }

  /** Bucket and bit position together determine the id. */
  lemma BitPosition(u: ValId, v: ValId)
    ensures u / 256 == v / 256 && u % 256 == v % 256 <==> u == v
  {}

  lemma BitsChange(bits: Buckets, v: ValId, u: ValId)
    ensures BitSet(WithBit(bits, v), u) <==> u == v || BitSet(bits, u)
    ensures BitSet(WithoutBit(bits, v), u) <==> u != v && BitSet(bits, u)
  {
    BitPosition(u, v);
  }

  /** Eligible entries are passed over by the sweep. */
  lemma {:induction false} SweepSkips(pools: Pools, s: seq<ValId>, m: nat, n: nat)
    requires m <= n <= |s|
    requires forall i :: m <= i < n ==> Eligible(pools, s[i])
    ensures Sweep(pools, s, n) == Sweep(pools, s, m)
    decreases n
  {
    if m < n {
      SweepSkips(pools, s, m, n - 1);
    }
  }

  /** `removals` lists, in order, exactly the positions of `s` whose validator is flagged. */
  predicate ListsFlagged(pools: Pools, s: seq<ValId>, removals: seq<nat>) {
    && (forall j :: 0 <= j < |removals| ==> removals[j] < |s| && !Eligible(pools, s[removals[j]]))
    && (forall i, j :: 0 <= i < j < |removals| ==> removals[i] < removals[j])
    && (forall i :: 0 <= i < |s| && !Eligible(pools, s[i]) ==> i in removals)
  }

  /** The cells in use are what the sweep of `original` has made of it down to position `swept`. */
  predicate SweptTo(pools: Pools, original: seq<ValId>, cells: seq<ValId>, used: nat, swept: nat) {
    && swept <= used <= |cells| && swept <= |original|
    && cells[..swept] == original[..swept]
    && Sweep(pools, cells[..used], swept) == Sweep(pools, original, |original|)
  }

  predicate NextRemovals(removals: seq<nat>, j: nat, swept: nat) {
    && j <= |removals|
    && (forall i :: 0 <= i < j ==> removals[i] < swept)
    && (forall i :: j <= i < |removals| ==> swept <= removals[i])
  }

  /** Between two removals every entry is eligible, so the sweep goes straight to the next one. */
  lemma SkipToRemoval(
    pools: Pools, original: seq<ValId>, removals: seq<nat>, j: nat, cells: seq<ValId>, used: nat, swept: nat)
    requires ListsFlagged(pools, original, removals) && NextRemovals(removals, j + 1, swept)
    requires SweptTo(pools, original, cells, used, swept)
    ensures cells[removals[j]] == original[removals[j]]
    ensures Sweep(pools, PopAndSwap(cells[..used], removals[j]), removals[j])
            == Sweep(pools, original, |original|)
  {
    var idx := removals[j];
    assert forall i :: 0 <= i < swept ==> cells[..swept][i] == original[..swept][i];
    forall i | idx < i < swept
      ensures Eligible(pools, cells[..used][i])
    {
    }
    SweepSkips(pools, cells[..used], idx + 1, swept);
  }

  /** One removal brings the sweep down to its position. */
  lemma OneRemoval(
    pools: Pools, original: seq<ValId>, removals: seq<nat>, j: nat,
    cells: seq<ValId>, used: nat, swept: nat, next: seq<ValId>)
    requires ListsFlagged(pools, original, removals) && NextRemovals(removals, j + 1, swept)
    requires SweptTo(pools, original, cells, used, swept)
    requires |next| == |cells| && next[..removals[j]] == cells[..removals[j]]
    requires next[..used - 1] == PopAndSwap(cells[..used], removals[j])
    ensures cells[removals[j]] == original[removals[j]]
    ensures SweptTo(pools, original, next, used - 1, removals[j])
    ensures NextRemovals(removals, j, removals[j])
  {
    var idx := removals[j];
    SkipToRemoval(pools, original, removals, j, cells, used, swept);
    assert cells[..idx] == cells[..swept][..idx] == original[..swept][..idx] == original[..idx];
  }

  lemma NothingLeft(pools: Pools, original: seq<ValId>, removals: seq<nat>, cells: seq<ValId>, used: nat, swept: nat)
    requires ListsFlagged(pools, original, removals) && NextRemovals(removals, 0, swept)
    requires SweptTo(pools, original, cells, used, swept)
    ensures cells[..used] == Sweep(pools, original, |original|)
  {
    assert forall i :: 0 <= i < swept ==> cells[..swept][i] == original[..swept][i];
    forall i | 0 <= i < swept
      ensures Eligible(pools, cells[..used][i])
    {
      assert i !in removals;
    }
    SweepSkips(pools, cells[..used], 0, swept);
  }

  /** The bitset once the removals from position `j` on have been cleared. */
  ghost function BitsAfter(bits: Buckets, s: seq<ValId>, removals: seq<nat>, j: nat): Buckets
    requires j <= |removals| && forall i :: 0 <= i < |removals| ==> removals[i] < |s|
    decreases |removals| - j
  {
    if j == |removals| then bits
    else WithoutBit(BitsAfter(bits, s, removals, j + 1), s[removals[j]])
  }

  lemma {:induction false} BitsAfterMeans(bits: Buckets, s: seq<ValId>, removals: seq<nat>, j: nat, v: ValId)
    requires j <= |removals| && forall i :: 0 <= i < |removals| ==> removals[i] < |s|
    ensures BitSet(BitsAfter(bits, s, removals, j), v)
            <==> BitSet(bits, v) && forall i :: j <= i < |removals| ==> s[removals[i]] != v
    decreases |removals| - j
  {
    if j < |removals| {
      BitsAfterMeans(bits, s, removals, j + 1, v);
      BitsChange(BitsAfter(bits, s, removals, j + 1), s[removals[j]], v);
    }
  }

  /** Once all removals are cleared, exactly the bits of the eligible ids are left. */
  lemma BitsMatchSweep(pools: Pools, bits: Buckets, s: seq<ValId>, removals: seq<nat>, v: ValId)
    requires ListsFlagged(pools, s, removals) && (BitSet(bits, v) <==> v in s)
    ensures BitSet(BitsAfter(bits, s, removals, 0), v) <==> v in Sweep(pools, s, |s|)
  {
    BitsAfterMeans(bits, s, removals, 0, v);
    SweepKeepsEligible(pools, s);
    if v in s && !Eligible(pools, v) {
      var i :| 0 <= i < |s| && s[i] == v;
      var k :| 0 <= k < |removals| && removals[k] == i;
      assert s[removals[k]] == v;
    }
  }

  lemma CompactedValid(pools: Pools, bits: Buckets, s: seq<ValId>, removals: seq<nat>)
    requires ListsFlagged(pools, s, removals)
    requires NoDuplicates(s) && forall v: ValId :: BitSet(bits, v) <==> v in s
    ensures NoDuplicates(Sweep(pools, s, |s|))
    ensures forall v: ValId :: BitSet(BitsAfter(bits, s, removals, 0), v) <==> v in Sweep(pools, s, |s|)
  {
    SweepKeepsEligible(pools, s);
    forall v: ValId {
      BitsMatchSweep(pools, bits, s, removals, v);
    }
  }

  lemma CopiedViewsNext(base: Views, views: Views, s: seq<ValId>, v: ValId)
    ensures (base + CopiedViews(views, s))[v := ViewOf(views, v)] == base + CopiedViews(views, s + [v])
  {}

  lemma ViewsOfNext(base: Views, pools: Pools, s: seq<ValId>, v: ValId)
    ensures (base + ViewsOf(pools, s))[v := View(ValOf(pools, v).stake, ValOf(pools, v).commission)]
            == base + ViewsOf(pools, s + [v])
  {}

  class ValidatorSetStore {
    var execution: seq<ValId>
    var bits: Buckets
    var consensus: seq<ValId>
    var snapshot: seq<ValId>
    var consensusView: Views
    var snapshotView: Views

    /** The bitset and the array hold the same ids, and the array holds each once. */
    ghost predicate Valid()
      reads this
    {
      && NoDuplicates(execution)
      && forall v: ValId :: BitSet(bits, v) <==> v in execution
    }

    ghost function Contents(): Sets
      reads this
    {
      Sets(execution, consensus, snapshot, consensusView, snapshotView)
    }

    constructor ()
      ensures Valid() && Contents() == NO_SETS && bits == map[]
    {
      execution, consensus, snapshot := [], [], [];
      bits, consensusView, snapshotView := map[], map[], map[];
    }

    method AddToValset(v: ValId) returns (inserted: bool)
      requires Valid()
      modifies this
      ensures Valid()
      ensures inserted <==> v !in old(execution)
      ensures Contents() == AddToExecution(old(Contents()), v) && bits == WithBit(old(bits), v)
    {
      forall u: ValId {
        BitsChange(bits, v, u);
      }
      inserted := !BitSet(bits, v);
      bits := WithBit(bits, v);
      if inserted {
        execution := execution + [v];
      }
    }

    method RemoveFromValset(v: ValId)
      modifies `bits
      ensures bits == WithoutBit(old(bits), v)
    {
      bits := WithoutBit(bits, v);
    }

    /** Step 1: the old snapshot set goes, views and all. */
    method ClearSnapshot()
      modifies `snapshot, `snapshotView
      ensures snapshot == []
      ensures snapshotView == old(snapshotView) - Elements(old(snapshot))
    {
      var old_set := snapshot;
      for i := 0 to |old_set|
        modifies `snapshotView
        invariant snapshotView == old(snapshotView) - Elements(old_set[..i])
      {
        snapshotView := snapshotView - {old_set[i]};
        assert Elements(old_set[..i + 1]) == Elements(old_set[..i]) + {old_set[i]};
      }
      assert old_set[..|old_set|] == old_set;
      snapshot := [];
    }

    /** Step 2: the consensus set is copied, array and views. */
    method CopyConsensus()
      requires snapshot == []
      modifies `snapshot, `snapshotView
      ensures snapshot == consensus
      ensures snapshotView == old(snapshotView) + CopiedViews(consensusView, consensus)
    {
      for i := 0 to |consensus|
        modifies `snapshot, `snapshotView
        invariant snapshot == consensus[..i]
        invariant snapshotView == old(snapshotView) + CopiedViews(consensusView, consensus[..i])
      {
        var v := consensus[i];
        CopiedViewsNext(old(snapshotView), consensusView, consensus[..i], v);
        assert consensus[..i + 1] == consensus[..i] + [v];
        snapshot := snapshot + [v];
        snapshotView := snapshotView[v := ViewOf(consensusView, v)];
      }
      assert consensus[..|consensus|] == consensus;
    }

    /** Step 3: the consensus set goes, views and all. */
    method ClearConsensus()
      modifies `consensus, `consensusView
      ensures consensus == []
      ensures consensusView == old(consensusView) - Elements(old(consensus))
    {
      var old_set := consensus;
      for i := 0 to |old_set|
        modifies `consensusView
        invariant consensusView == old(consensusView) - Elements(old_set[..i])
      {
        consensusView := consensusView - {old_set[i]};
        assert Elements(old_set[..i + 1]) == Elements(old_set[..i]) + {old_set[i]};
      }
      assert old_set[..|old_set|] == old_set;
      consensus := [];
    }

    /** Step 4: the flag-free part of the execution set, best first, cut to size. */
    method Elect(pools: Pools) returns (elected: seq<ValId>)
      ensures elected == Elected(pools, execution)
    {
      var validators := [];
      for i := 0 to |execution|
        invariant validators == Candidates(pools, execution[..i])
      {
        assert execution[..i + 1][..i] == execution[..i];
        if Eligible(pools, execution[i]) {
          validators := validators + [execution[i]];
        }
      }
      assert execution[..|execution|] == execution;
      elected := Top(Ranked(pools, validators));
    }

    /** Step 5: the new consensus set with its views. */
    method PublishConsensus(pools: Pools, elected: seq<ValId>)
      requires consensus == []
      modifies `consensus, `consensusView
      ensures consensus == elected
      ensures consensusView == old(consensusView) + ViewsOf(pools, elected)
    {
      for i := 0 to |elected|
        modifies `consensus, `consensusView
        invariant consensus == elected[..i]
        invariant consensusView == old(consensusView) + ViewsOf(pools, elected[..i])
      {
        var v := elected[i];
        ViewsOfNext(old(consensusView), pools, elected[..i], v);
        assert elected[..i + 1] == elected[..i] + [v];
        consensus := consensus + [v];
        consensusView := consensusView[v := View(ValOf(pools, v).stake, ValOf(pools, v).commission)];
      }
      assert elected[..|elected|] == elected;
    }

    /** The positions of the execution array that hold a flagged validator, in order. */
    method Flagged(pools: Pools) returns (removals: seq<nat>)
      ensures ListsFlagged(pools, execution, removals)
    {
      removals := [];
      for i := 0 to |execution|
        invariant forall j :: 0 <= j < |removals| ==>
                    removals[j] < i && !Eligible(pools, execution[removals[j]])
        invariant forall j, k :: 0 <= j < k < |removals| ==> removals[j] < removals[k]
        invariant forall j :: 0 <= j < i && !Eligible(pools, execution[j]) ==> j in removals
      {
        if !Eligible(pools, execution[i]) {
          removals := removals + [i];
        }
      }
    }

    /** Removes the id at `idx`: its bit goes, and the last cell in use takes its place. */
    method RemoveAt(cells: seq<ValId>, currentLen: nat, idx: nat) returns (r: seq<ValId>)
      requires idx < currentLen <= |cells|
      modifies `bits
      ensures bits == WithoutBit(old(bits), cells[idx])
      ensures |r| == |cells| && r[..idx] == cells[..idx]
      ensures r[..currentLen - 1] == PopAndSwap(cells[..currentLen], idx)
    {
      RemoveFromValset(cells[idx]);
      r := cells;
      if idx < currentLen - 1 {
        r := r[idx := r[currentLen - 1]];
      }
      r := r[currentLen - 1 := 0];
    }

    /** One round of the reverse loop: removal `j` brings the sweep down to its position. */
    method RunRemoval(
      pools: Pools, removals: seq<nat>, j: nat, cells: seq<ValId>, currentLen: nat, ghost swept: nat)
      returns (r: seq<ValId>)
      requires ListsFlagged(pools, execution, removals) && NextRemovals(removals, j + 1, swept)
      requires SweptTo(pools, execution, cells, currentLen, swept)
      modifies `bits
      ensures bits == WithoutBit(old(bits), execution[removals[j]])
      ensures SweptTo(pools, execution, r, currentLen - 1, removals[j])
      ensures NextRemovals(removals, j, removals[j])
    {
      r := RemoveAt(cells, currentLen, removals[j]);
      OneRemoval(pools, execution, removals, j, cells, currentLen, swept, r);
    }

    /** The reverse loop of pop-and-swap removals; `rest` is what remains of the array. */
    method RunRemovals(pools: Pools, removals: seq<nat>) returns (rest: seq<ValId>)
      requires ListsFlagged(pools, execution, removals)
      modifies `bits
      ensures rest == Sweep(pools, execution, |execution|)
      ensures bits == BitsAfter(old(bits), execution, removals, 0)
    {
      var cells := execution;
      var currentLen: nat := |execution|;
      ghost var swept: nat := |execution|;
      var j: nat := |removals|;
      assert cells[..currentLen] == execution;
      while j > 0
        modifies `bits
        invariant NextRemovals(removals, j, swept)
        invariant SweptTo(pools, execution, cells, currentLen, swept)
        invariant bits == BitsAfter(old(bits), execution, removals, j)
      {
        j := j - 1;
        cells := RunRemoval(pools, removals, j, cells, currentLen, swept);
        currentLen := currentLen - 1;
        swept := removals[j];
      }
      NothingLeft(pools, execution, removals, cells, currentLen, swept);
      rest := cells[..currentLen];
    }

    /** Compaction: flagged validators leave the array and the bitset. */
    method Compact(pools: Pools)
      requires Valid()
      modifies `execution, `bits
      ensures Valid()
      ensures execution == Sweep(pools, old(execution), |old(execution)|)
    {
      var removals := Flagged(pools);
      CompactedValid(pools, bits, execution, removals);
      var rest := RunRemovals(pools, removals);
      execution := rest;
    }

    /** `syscallSnapshot`, as far as the sets go. */
    method TakeSnapshotOf(pools: Pools)
      requires Valid()
      modifies this
      ensures Valid()
      ensures Contents() == TakeSnapshot(old(Contents()), pools)
    {
      ClearSnapshot();
      CopyConsensus();
      ClearConsensus();
      var elected := Elect(pools);
      PublishConsensus(pools, elected);
      Compact(pools);
    }

    /** Puts saved words back, as a rolled-back frame does. */
    method Restore(
      execution: seq<ValId>, bits: Buckets, consensus: seq<ValId>, snapshot: seq<ValId>,
      consensusView: Views, snapshotView: Views)
      modifies this
      ensures this.execution == execution && this.bits == bits
      ensures this.consensus == consensus && this.snapshot == snapshot
      ensures this.consensusView == consensusView && this.snapshotView == snapshotView
    {
      this.execution, this.bits, this.consensus, this.snapshot := execution, bits, consensus, snapshot;
      this.consensusView, this.snapshotView := consensusView, snapshotView;
    }
  }
}
