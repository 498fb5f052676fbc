/**
 * The storage of the contract word by word: every write of the handlers is a
 * few stores, and after them the words represent the updated typed state.
 */
module WordStore {
  import opened Ledger
  import opened ValidatorSets
  import opened ValidatorSetStorage
  import opened TwinLists
  import opened StakingContract
  import opened StorageLayout
  import opened StorageKeys
  import opened StorageRefinement

  // ----- the typed writes -----------------------------------------------------------

  function WithPoolAt(w: Words, v: ValId, p: Pool): Words {
    w.(pools := w.pools[v := p])
  }

  function WithValidator(w: Words, v: ValId, val: Validator): Words {
    WithPoolAt(w, v, PoolAt(w, v).(val := val))
  }

  function WithDelegator(w: Words, v: ValId, a: Address, d: Delegator): Words {
    WithPoolAt(w, v, PoolAt(w, v).(dels := PoolAt(w, v).dels[a := d]))
  }

  function WithSnapshot(w: Words, e: Epoch, v: ValId, snap: Snapshot): Words {
    WithPoolAt(w, v, PoolAt(w, v).(snaps := PoolAt(w, v).snaps[e := snap]))
  }

  function WithoutSnapshot(w: Words, e: Epoch, v: ValId): Words {
    WithPoolAt(w, v, PoolAt(w, v).(snaps := PoolAt(w, v).snaps - {e}))
  }

  function WithRequest(w: Words, v: ValId, k: (Address, nat), r: Withdrawal): Words {
    WithPoolAt(w, v, PoolAt(w, v).(wds := PoolAt(w, v).wds[k := r]))
  }

  function WithoutRequest(w: Words, v: ValId, k: (Address, nat)): Words {
    WithPoolAt(w, v, PoolAt(w, v).(wds := PoolAt(w, v).wds - {k}))
  }

  function WithNode(w: Words, v: ValId, a: Address, n: ListNode): Words {
    w.(nodes := w.nodes[(v, a) := n])
  }

  function WithBits(w: Words, bits: Buckets): Words {
    w.(sets := w.sets.(bits := bits))
  }

  function WithArray(w: Words, which: SetArray, s: seq<ValId>): Words {
    match which
    case Execution => w.(sets := w.sets.(execution := s))
    case Consensus => w.(sets := w.sets.(consensus := s))
    case SnapshotSet => w.(sets := w.sets.(snapshot := s))
  }

  function WithConsensusViews(w: Words, views: Views): Words {
    w.(sets := w.sets.(consensusView := views))
  }

  function WithSnapshotViews(w: Words, views: Views): Words {
    w.(sets := w.sets.(snapshotView := views))
  }

  // ----- which fields a typed write changes --------------------------------------------

  lemma ValidatorSameAt(w: Words, keys: PublicKeys, v: ValId, val: Validator, f: Field)
    requires f.ValidatorField? && f.v == v ==>
               SameSlot(PoolAt(w, v).val, KeyOf(keys, v), val, KeyOf(keys, v), f.slot)
    ensures SameField(w, keys, WithValidator(w, v, val), keys, f)
  {}

  /** A change of the record of `v` that shows in one slot only. */
  lemma ValidatorDiffers(w: Words, keys: PublicKeys, v: ValId, val: Validator, slot: nat)
    requires forall k: nat :: k < 8 && k != slot ==>
               SameSlot(PoolAt(w, v).val, KeyOf(keys, v), val, KeyOf(keys, v), k)
    ensures OnlyDiffersAt(w, keys, WithValidator(w, v, val), keys, {} + {ValidatorField(v, slot)})
  {
    forall f: Field | Used(f) && f !in {} + {ValidatorField(v, slot)}
      ensures SameField(w, keys, WithValidator(w, v, val), keys, f)
    {
      ValidatorSameAt(w, keys, v, val, f);
    }
  }

  /** What `write_validator_full` stores, the last first. */
  function LastValidatorFields(v: ValId): set<Field> {
    {} + {ValidatorField(v, 7)} + {ValidatorField(v, 6)}
  }

  function KeyFields(v: ValId): set<Field> {
    LastValidatorFields(v) + {ValidatorField(v, 5)} + {ValidatorField(v, 4)} + {ValidatorField(v, 3)}
  }

  function ValidatorFields(v: ValId): set<Field> {
    KeyFields(v) + {ValidatorField(v, 2)} + {ValidatorField(v, 1)} + {ValidatorField(v, 0)}
  }

  lemma NewValidatorSameAt(w: Words, keys: PublicKeys, v: ValId, val: Validator, key: PublicKey, f: Field)
    requires f.ValidatorField? ==> f.v != v
    ensures SameField(w, keys, WithValidator(w, v, val), keys[v := key], f)
  {}

  lemma WithValidatorAgain(w: Words, v: ValId, val: Validator, val': Validator)
    ensures PoolAt(WithValidator(w, v, val), v).val == val
    ensures WithValidator(WithValidator(w, v, val), v, val') == WithValidator(w, v, val')
  {
    var w1 := WithValidator(w, v, val);
    assert w1.pools[v := PoolAt(w1, v).(val := val')] == w.pools[v := PoolAt(w, v).(val := val')];
  }

  lemma ValidatorFieldsAre(v: ValId, slot: nat)
    requires slot < 8
    ensures ValidatorField(v, slot) in ValidatorFields(v)
  {}

  lemma NewValidatorDiffers(w: Words, keys: PublicKeys, v: ValId, val: Validator, key: PublicKey)
    ensures OnlyDiffersAt(w, keys, WithValidator(w, v, val), keys[v := key], ValidatorFields(v))
  {
    forall f: Field | Used(f) && f !in ValidatorFields(v)
      ensures SameField(w, keys, WithValidator(w, v, val), keys[v := key], f)
    {
      if f.ValidatorField? && f.v == v {
        ValidatorFieldsAre(v, f.slot);
      }
      NewValidatorSameAt(w, keys, v, val, key, f);
    }
  }

  function WindowFields(v: ValId, a: Address): set<Field> {
    {} + {DelegatorField(v, a, 5)} + {DelegatorField(v, a, 4)} + {DelegatorField(v, a, 3)}
  }

  function DelegatorFields(v: ValId, a: Address): set<Field> {
    WindowFields(v, a) + {DelegatorField(v, a, 2)} + {DelegatorField(v, a, 1)} + {DelegatorField(v, a, 0)}
  }

  lemma DelegatorFieldsAre(v: ValId, a: Address, slot: nat)
    requires slot < 6
    ensures DelegatorField(v, a, slot) in DelegatorFields(v, a)
  {}

  lemma DelegatorSameAt(w: Words, keys: PublicKeys, v: ValId, a: Address, d: Delegator, f: Field)
    requires f.DelegatorField? ==> f.v != v || f.a != a || f.slot >= 6
    ensures SameField(w, keys, WithDelegator(w, v, a, d), keys, f)
  {}

  lemma DelegatorDiffers(w: Words, keys: PublicKeys, v: ValId, a: Address, d: Delegator)
    ensures OnlyDiffersAt(w, keys, WithDelegator(w, v, a, d), keys, DelegatorFields(v, a))
  {
    forall f: Field | Used(f) && f !in DelegatorFields(v, a)
      ensures SameField(w, keys, WithDelegator(w, v, a, d), keys, f)
    {
      if f.DelegatorField? && f.v == v && f.a == a && f.slot < 6 {
        DelegatorFieldsAre(v, a, f.slot);
      }
      DelegatorSameAt(w, keys, v, a, d, f);
    }
  }

  lemma NodeSameAt(w: Words, keys: PublicKeys, v: ValId, a: Address, n: ListNode, f: Field)
    requires f.DelegatorField? ==> f.v != v || f.a != a || f.slot < 6
    ensures SameField(w, keys, WithNode(w, v, a, n), keys, f)
  {}

  lemma NodeDiffers(w: Words, keys: PublicKeys, v: ValId, a: Address, n: ListNode)
    ensures OnlyDiffersAt(w, keys, WithNode(w, v, a, n), keys, NodeFields(v, a))
  {
    forall f: Field | Used(f) && f !in NodeFields(v, a)
      ensures SameField(w, keys, WithNode(w, v, a, n), keys, f)
    {
      NodeSameAt(w, keys, v, a, n, f);
    }
  }

  /** A change of the snapshots of `v` that shows at epoch `e` only. */
  predicate SnapshotsElsewhere(snaps: Snapshots, snaps': Snapshots, e: Epoch, f: Epoch) {
    f != e ==> Value(snaps', f) == Value(snaps, f) && Ref(snaps', f) == Ref(snaps, f)
  }

  lemma SnapshotSameAt(w: Words, keys: PublicKeys, e: Epoch, v: ValId, snaps: Snapshots, f: Field)
    requires f.AccumulatorField? ==>
               f.v != v || (f.epoch != e && SnapshotsElsewhere(PoolAt(w, v).snaps, snaps, e, f.epoch))
    ensures SameField(w, keys, WithPoolAt(w, v, PoolAt(w, v).(snaps := snaps)), keys, f)
  {}

  lemma SnapshotDiffers(w: Words, keys: PublicKeys, e: Epoch, v: ValId, snaps: Snapshots)
    requires forall f: Epoch :: SnapshotsElsewhere(PoolAt(w, v).snaps, snaps, e, f)
    ensures OnlyDiffersAt(w, keys, WithPoolAt(w, v, PoolAt(w, v).(snaps := snaps)), keys,
                          SnapshotFields(e, v))
  {
    forall f: Field | Used(f) && f !in SnapshotFields(e, v)
      ensures SameField(w, keys, WithPoolAt(w, v, PoolAt(w, v).(snaps := snaps)), keys, f)
    {
      if f.AccumulatorField? {
        assert SnapshotsElsewhere(PoolAt(w, v).snaps, snaps, e, f.epoch);
      }
      SnapshotSameAt(w, keys, e, v, snaps, f);
    }
  }

  function RequestFields(v: ValId, a: Address, wid: nat): set<Field> {
    {} + {WithdrawalField(v, a, wid, 2)} + {WithdrawalField(v, a, wid, 1)} + {WithdrawalField(v, a, wid, 0)}
  }

  function SnapshotFields(e: Epoch, v: ValId): set<Field> {
    {} + {AccumulatorField(e, v, 1)} + {AccumulatorField(e, v, 0)}
  }

  function NodeFields(v: ValId, a: Address): set<Field> {
    {} + {DelegatorField(v, a, 7)} + {DelegatorField(v, a, 6)}
  }

  function AppendFields(which: SetArray, len: nat): set<Field> {
    {} + {ArrayLength(which)} + {ArrayCell(which, len)}
  }

  /** A change of the requests of `v` that shows at key `k` only. */
  predicate RequestsElsewhere(wds: Withdrawals, wds': Withdrawals, k: (Address, nat), j: (Address, nat)) {
    j != k ==> (j in wds' <==> j in wds) && (j in wds && j in wds' ==> wds'[j] == wds[j])
  }

  lemma RequestSameAt(w: Words, keys: PublicKeys, v: ValId, a: Address, wid: nat, wds: Withdrawals, f: Field)
    requires f.WithdrawalField? ==>
               f.v != v || ((f.a, f.wid) != (a, wid)
                            && RequestsElsewhere(PoolAt(w, v).wds, wds, (a, wid), (f.a, f.wid)))
    ensures SameField(w, keys, WithPoolAt(w, v, PoolAt(w, v).(wds := wds)), keys, f)
  {}

  lemma RequestDiffers(w: Words, keys: PublicKeys, v: ValId, a: Address, wid: nat, wds: Withdrawals)
    requires forall j: (Address, nat) :: RequestsElsewhere(PoolAt(w, v).wds, wds, (a, wid), j)
    ensures OnlyDiffersAt(w, keys, WithPoolAt(w, v, PoolAt(w, v).(wds := wds)), keys, RequestFields(v, a, wid))
  {
    forall f: Field | Used(f) && f !in RequestFields(v, a, wid)
      ensures SameField(w, keys, WithPoolAt(w, v, PoolAt(w, v).(wds := wds)), keys, f)
    {
      if f.WithdrawalField? {
        assert RequestsElsewhere(PoolAt(w, v).wds, wds, (a, wid), (f.a, f.wid));
      }
      RequestSameAt(w, keys, v, a, wid, wds, f);
    }
  }

  lemma ArraySameAt(w: Words, keys: PublicKeys, which: SetArray, s: seq<ValId>, f: Field)
    requires f.ArrayLength? ==> f.which != which
    requires f.ArrayCell? ==> f.which != which || SameCell(ArrayOf(w, which), s, f.index)
    ensures SameField(w, keys, WithArray(w, which, s), keys, f)
  {}

  lemma AppendDiffers(w: Words, keys: PublicKeys, which: SetArray, v: ValId)
    ensures OnlyDiffersAt(w, keys, WithArray(w, which, ArrayOf(w, which) + [v]), keys,
                          AppendFields(which, |ArrayOf(w, which)|))
  {
    var s := ArrayOf(w, which);
    forall f: Field | Used(f) && f !in AppendFields(which, |s|)
      ensures SameField(w, keys, WithArray(w, which, s + [v]), keys, f)
    {
      ArraySameAt(w, keys, which, s + [v], f);
    }
  }

  lemma BitsSameAt(w: Words, keys: PublicKeys, bits: Buckets, f: Field)
    requires f.Bucket? ==> BucketOf(bits, f.bucket) == BucketOf(w.sets.bits, f.bucket)
    ensures SameField(w, keys, WithBits(w, bits), keys, f)
  {}

  lemma BitDiffers(w: Words, keys: PublicKeys, v: ValId, bits: Buckets)
    requires bits == WithBit(w.sets.bits, v) || bits == WithoutBit(w.sets.bits, v)
    ensures OnlyDiffersAt(w, keys, WithBits(w, bits), keys, {} + {Bucket(v / 256)})
  {
    forall f: Field | Used(f) && f !in {} + {Bucket(v / 256)}
      ensures SameField(w, keys, WithBits(w, bits), keys, f)
    {
      BitsSameAt(w, keys, bits, f);
    }
  }

  lemma DropDiffers(w: Words, keys: PublicKeys, which: SetArray)
    requires ArrayOf(w, which) != []
    ensures var s := ArrayOf(w, which);
            OnlyDiffersAt(w, keys, WithArray(w, which, s[..|s| - 1]), keys, AppendFields(which, |s| - 1))
  {
    var s := ArrayOf(w, which);
    forall f: Field | Used(f) && f !in AppendFields(which, |s| - 1)
      ensures SameField(w, keys, WithArray(w, which, s[..|s| - 1]), keys, f)
    {
      ArraySameAt(w, keys, which, s[..|s| - 1], f);
    }
  }

  lemma CellDiffers(w: Words, keys: PublicKeys, which: SetArray, i: nat, v: ValId)
    requires i < |ArrayOf(w, which)|
    ensures OnlyDiffersAt(w, keys, WithArray(w, which, ArrayOf(w, which)[i := v]), keys, {} + {ArrayCell(which, i)})
  {
    var s := ArrayOf(w, which)[i := v];
    forall f: Field | Used(f) && f !in {} + {ArrayCell(which, i)}
      ensures SameField(w, keys, WithArray(w, which, s), keys, f)
    {
      ArrayKeptAt(w, keys, which, s, f);
    }
  }

  lemma ArrayKeptAt(w: Words, keys: PublicKeys, which: SetArray, s: seq<ValId>, f: Field)
    requires |s| == |ArrayOf(w, which)|
    requires f.ArrayCell? ==> f.which != which || SameCell(ArrayOf(w, which), s, f.index)
    ensures SameField(w, keys, WithArray(w, which, s), keys, f)
  {}

  lemma GlobalDiffers(w: Words, keys: PublicKeys, w': Words, slot: nat)
    requires w' == w.(epoch := w'.epoch, inBoundary := w'.inBoundary,
                      lastValId := w'.lastValId, proposer := w'.proposer)
    requires forall k :: 1 <= k <= 4 && k != slot ==> SameGlobal(w, w', k)
    ensures OnlyDiffersAt(w, keys, w', keys, {} + {Global(slot)})
  {
    forall f: Field | Used(f) && f !in {} + {Global(slot)}
      ensures SameField(w, keys, w', keys, f)
    {
      GlobalSameAt(w, keys, w', f);
    }
  }

  lemma GlobalSameAt(w: Words, keys: PublicKeys, w': Words, f: Field)
    requires w' == w.(epoch := w'.epoch, inBoundary := w'.inBoundary,
                      lastValId := w'.lastValId, proposer := w'.proposer)
    requires f.Global? ==> SameGlobal(w, w', f.slot)
    ensures SameField(w, keys, w', keys, f)
  {}

  lemma SecpSameAt(w: Words, keys: PublicKeys, a: Address, v: ValId, f: Field)
    requires f != SecpId(a)
    ensures SameField(w, keys, w.(secp := w.secp[a := v]), keys, f)
  {}

  lemma BlsSameAt(w: Words, keys: PublicKeys, a: Address, v: ValId, f: Field)
    requires f != BlsId(a)
    ensures SameField(w, keys, w.(bls := w.bls[a := v]), keys, f)
  {}

  lemma IdDiffers(w: Words, keys: PublicKeys, a: Address, v: ValId)
    ensures OnlyDiffersAt(w, keys, w.(secp := w.secp[a := v]), keys, {} + {SecpId(a)})
    ensures OnlyDiffersAt(w, keys, w.(bls := w.bls[a := v]), keys, {} + {BlsId(a)})
  {
    forall f: Field | Used(f) && f !in {} + {SecpId(a)}
      ensures SameField(w, keys, w.(secp := w.secp[a := v]), keys, f)
    {
      SecpSameAt(w, keys, a, v, f);
    }
    forall f: Field | Used(f) && f !in {} + {BlsId(a)}
      ensures SameField(w, keys, w.(bls := w.bls[a := v]), keys, f)
    {
      BlsSameAt(w, keys, a, v, f);
    }
  }

  lemma ConsensusViewSameAt(w: Words, keys: PublicKeys, v: ValId, view: View, f: Field)
    requires f.ConsensusView? ==> f.v != v
    ensures SameField(w, keys, WithConsensusViews(w, w.sets.consensusView[v := view]), keys, f)
  {}

  lemma SnapshotViewSameAt(w: Words, keys: PublicKeys, v: ValId, view: View, f: Field)
    requires f.SnapshotView? ==> f.v != v
    ensures SameField(w, keys, WithSnapshotViews(w, w.sets.snapshotView[v := view]), keys, f)
  {}

  lemma ViewDiffers(w: Words, keys: PublicKeys, v: ValId, view: View)
    ensures OnlyDiffersAt(w, keys, WithConsensusViews(w, w.sets.consensusView[v := view]), keys,
                          {} + {ConsensusView(v, 1)} + {ConsensusView(v, 0)})
    ensures OnlyDiffersAt(w, keys, WithSnapshotViews(w, w.sets.snapshotView[v := view]), keys,
                          {} + {SnapshotView(v, 1)} + {SnapshotView(v, 0)})
  {
    forall f: Field | Used(f) && f !in {} + {ConsensusView(v, 1)} + {ConsensusView(v, 0)}
      ensures SameField(w, keys, WithConsensusViews(w, w.sets.consensusView[v := view]), keys, f)
    {
      ConsensusViewSameAt(w, keys, v, view, f);
    }
    forall f: Field | Used(f) && f !in {} + {SnapshotView(v, 1)} + {SnapshotView(v, 0)}
      ensures SameField(w, keys, WithSnapshotViews(w, w.sets.snapshotView[v := view]), keys, f)
    {
      SnapshotViewSameAt(w, keys, v, view, f);
    }
  }

  /** Setting or clearing the bit of `v` in its word. */
  lemma BucketWord(bits: Buckets, v: ValId)
    ensures BucketNumber(WithBit(bits, v), v / 256) == SetBit(BucketNumber(bits, v / 256), v % 256)
    ensures BucketNumber(WithoutBit(bits, v), v / 256) == ClearBit(BucketNumber(bits, v / 256), v % 256)
  {
    var s := BucketOf(bits, v / 256);
    BitNumberSets(s, s + {v % 256}, 0, 256, v % 256);
    BitNumberClears(s, s - {v % 256}, 0, 256, v % 256);
  }

  // ----- the stores -------------------------------------------------------------------------

  class WordStore {
    var slots: Slots
    /** The typed state the words stand for. */
    ghost var typed: Words
    ghost var keys: PublicKeys

    ghost predicate Valid()
      reads this
    {
      Represents(slots, typed, keys)
    }

    ghost predicate ValidBut(dirty: set<Field>)
      reads this
    {
      RepresentsBut(slots, typed, keys, dirty)
    }

    constructor ()
      ensures Valid() && typed == NO_WORDS && keys == map[]
    {
      slots := map[];
      typed, keys := NO_WORDS, map[];
      new;
      EmptyRepresents();
    }

    /** Stores the word of field `f`, which may have been out of date; those in `rest` still are. */
    method Store(key: nat, word: Word, ghost f: Field, ghost rest: set<Field>)
      requires ValidBut(rest + {f}) && Used(f) && key == Key(f) && word == FieldWord(typed, keys, f)
      modifies `slots
      ensures ValidBut(rest)
    {
      StoreCleans(slots, typed, keys, rest, f);
      slots := slots[key := word];
    }

    /** The typed state moves ahead; the fields in `dirty` have yet to be stored. */
    ghost method Become(w: Words, newKeys: PublicKeys, dirty: set<Field>)
      requires Valid() && OnlyDiffersAt(typed, keys, w, newKeys, dirty)
      modifies `typed, `keys
      ensures typed == w && keys == newKeys && ValidBut(dirty)
    {
      ChangeLeavesDirty(slots, typed, keys, w, newKeys, {}, dirty);
      typed, keys := w, newKeys;
      assert {} + dirty == dirty;
    }

    // ----- globals and id maps --------------------------------------------------------------

    method StoreGlobal(slot: nat, word: Word, ghost w: Words)
      requires Valid() && 1 <= slot <= 4 && word == GlobalWord(w, slot)
      requires w == typed.(epoch := w.epoch, inBoundary := w.inBoundary,
                           lastValId := w.lastValId, proposer := w.proposer)
      requires forall k :: 1 <= k <= 4 && k != slot ==> SameGlobal(typed, w, k)
      modifies this
      ensures Valid() && typed == w && keys == old(keys)
    {
      GlobalDiffers(typed, keys, w, slot);
      Become(w, keys, {} + {Global(slot)});
      Store(Key(Global(slot)), word, Global(slot), {});
    }

    method WriteEpoch(epoch: Epoch)
      requires Valid()
      modifies this
      ensures Valid() && typed == old(typed).(epoch := epoch) && keys == old(keys)
    {
      var word := NumberWord(epoch);
      StoreGlobal(1, word, typed.(epoch := epoch));
    }

    /** A boolean is its first byte. */
    method WriteInBoundary(inBoundary: bool)
      requires Valid()
      modifies this
      ensures Valid() && typed == old(typed).(inBoundary := inBoundary) && keys == old(keys)
    {
      StoreGlobal(2, PackBool(inBoundary), typed.(inBoundary := inBoundary));
    }

    method WriteLastValId(v: ValId)
      requires Valid()
      modifies this
      ensures Valid() && typed == old(typed).(lastValId := v) && keys == old(keys)
    {
      var word := NumberWord(v);
      StoreGlobal(3, word, typed.(lastValId := v));
    }

    method WriteProposer(v: ValId)
      requires Valid()
      modifies this
      ensures Valid() && typed == old(typed).(proposer := v) && keys == old(keys)
    {
      var word := NumberWord(v);
      StoreGlobal(4, word, typed.(proposer := v));
    }

    method WriteSecpId(a: Address, v: ValId)
      requires Valid() && Address20(a)
      modifies this
      ensures Valid() && typed == old(typed).(secp := old(typed).secp[a := v]) && keys == old(keys)
    {
      IdDiffers(typed, keys, a, v);
      Become(typed.(secp := typed.secp[a := v]), keys, {} + {SecpId(a)});
      var key := ValIdSecpKey(a);
      var word := NumberWord(v);
      Store(key, word, SecpId(a), {});
    }

    method WriteBlsId(a: Address, v: ValId)
      requires Valid() && Address20(a)
      modifies this
      ensures Valid() && typed == old(typed).(bls := old(typed).bls[a := v]) && keys == old(keys)
    {
      IdDiffers(typed, keys, a, v);
      Become(typed.(bls := typed.bls[a := v]), keys, {} + {BlsId(a)});
      var key := ValIdBlsKey(a);
      var word := NumberWord(v);
      Store(key, word, BlsId(a), {});
    }

    // ----- validators ---------------------------------------------------------------------

    method StoreValidatorNumber(v: ValId, slot: nat, n: nat, ghost val: Validator)
      requires Valid() && U64(v) && slot < 8 && ValidatorWord(val, KeyOf(keys, v), slot) == PackNumber(n)
      requires forall k: nat :: k < 8 && k != slot ==>
                 SameSlot(PoolAt(typed, v).val, KeyOf(keys, v), val, KeyOf(keys, v), k)
      modifies this
      ensures Valid() && typed == WithValidator(old(typed), v, val) && keys == old(keys)
    {
      ValidatorDiffers(typed, keys, v, val, slot);
      Become(WithValidator(typed, v, val), keys, {} + {ValidatorField(v, slot)});
      var key := ValidatorKey(v, slot);
      Store(key, PackNumber(n), ValidatorField(v, slot), {});
    }

    method WriteValidatorStake(v: ValId, stake: nat)
      requires Valid() && U64(v)
      modifies this
      ensures Valid() && keys == old(keys)
      ensures typed == WithValidator(old(typed), v, PoolAt(old(typed), v).val.(stake := stake))
    {
      StoreValidatorNumber(v, 0, stake, PoolAt(typed, v).val.(stake := stake));
    }

    method WriteValidatorAcc(v: ValId, acc: nat)
      requires Valid() && U64(v)
      modifies this
      ensures Valid() && keys == old(keys)
      ensures typed == WithValidator(old(typed), v, PoolAt(old(typed), v).val.(acc := acc))
    {
      StoreValidatorNumber(v, 1, acc, PoolAt(typed, v).val.(acc := acc));
    }

    method WriteValidatorCommission(v: ValId, commission: nat)
      requires Valid() && U64(v)
      modifies this
      ensures Valid() && keys == old(keys)
      ensures typed == WithValidator(old(typed), v, PoolAt(old(typed), v).val.(commission := commission))
    {
      StoreValidatorNumber(v, 2, commission, PoolAt(typed, v).val.(commission := commission));
    }

    method WriteValidatorUnclaimedRewards(v: ValId, rewards: nat)
      requires Valid() && U64(v)
      modifies this
      ensures Valid() && keys == old(keys)
      ensures typed == WithValidator(old(typed), v, PoolAt(old(typed), v).val.(unclaimed := rewards))
    {
      StoreValidatorNumber(v, 7, rewards, PoolAt(typed, v).val.(unclaimed := rewards));
    }

    /** The flags share their word with the auth address, which is written again. */
    method WriteValidatorFlags(v: ValId, auth: Address, flags: Flags)
      requires Valid() && U64(v)
      modifies this
      ensures Valid() && keys == old(keys)
      ensures typed == WithValidator(old(typed), v, PoolAt(old(typed), v).val.(auth := auth, flags := flags))
    {
      ghost var val := PoolAt(typed, v).val.(auth := auth, flags := flags);
      ValidatorDiffers(typed, keys, v, val, 6);
      Become(WithValidator(typed, v, val), keys, {} + {ValidatorField(v, 6)});
      var key := ValidatorKey(v, 6);
      var word := AuthWord(auth, FlagsNumber(flags));
      Store(key, word, ValidatorField(v, 6), {});
    }

    /** Every word of a record but those of the keys. */
    method WriteValidatorRecord(v: ValId, val: Validator)
      requires Valid() && U64(v)
      modifies this
      ensures Valid() && typed == WithValidator(old(typed), v, val) && keys == old(keys)
    {
      ghost var before := PoolAt(typed, v).val;
      ghost var val1 := before.(stake := val.stake);
      WriteValidatorStake(v, val.stake);
      WithValidatorAgain(old(typed), v, val1, val1.(acc := val.acc));
      WriteValidatorAcc(v, val.acc);
      ghost var val2 := val1.(acc := val.acc);
      WithValidatorAgain(old(typed), v, val2, val2.(commission := val.commission));
      WriteValidatorCommission(v, val.commission);
      WriteRest(v, val, old(typed), val2.(commission := val.commission));
    }

    method WriteRest(v: ValId, val: Validator, ghost w: Words, ghost so: Validator)
      requires Valid() && U64(v) && typed == WithValidator(w, v, so)
      requires so == val.(auth := so.auth, flags := so.flags, unclaimed := so.unclaimed)
      modifies this
      ensures Valid() && typed == WithValidator(w, v, val) && keys == old(keys)
    {
      ghost var flagged := val.(unclaimed := so.unclaimed);
      WithValidatorAgain(w, v, so, flagged);
      WriteValidatorFlags(v, val.auth, val.flags);
      WithValidatorAgain(w, v, flagged, val);
      WriteValidatorUnclaimedRewards(v, val.unclaimed);
    }

    /** `write_validator_full`, for a new validator. */
    method WriteValidatorFull(v: ValId, val: Validator, pubkey: PublicKey)
      requires Valid() && U64(v) && pubkey.Fits()
      modifies this
      ensures Valid() && typed == WithValidator(old(typed), v, val) && keys == old(keys)[v := pubkey]
    {
      NewValidatorDiffers(typed, keys, v, val, pubkey);
      Become(WithValidator(typed, v, val), keys[v := pubkey], ValidatorFields(v));
      StoreNewNumbers(v, val);
      StoreNewKeys(v, pubkey);
      StoreNewRest(v, val);
    }

    method StoreNewNumbers(v: ValId, val: Validator)
      requires ValidBut(ValidatorFields(v)) && U64(v) && PoolAt(typed, v).val == val
      modifies `slots
      ensures ValidBut(KeyFields(v))
    {
      ghost var rest := KeyFields(v);
      var key := ValidatorKey(v, 0);
      Store(key, PackNumber(val.stake), ValidatorField(v, 0), rest + {ValidatorField(v, 2)} + {ValidatorField(v, 1)});
      key := ValidatorKey(v, 1);
      Store(key, PackNumber(val.acc), ValidatorField(v, 1), rest + {ValidatorField(v, 2)});
      key := ValidatorKey(v, 2);
      Store(key, PackNumber(val.commission), ValidatorField(v, 2), rest);
    }

    method StoreNewKeys(v: ValId, pubkey: PublicKey)
      requires ValidBut(KeyFields(v)) && U64(v) && pubkey.Fits() && KeyOf(keys, v) == pubkey
      modifies `slots
      ensures ValidBut(LastValidatorFields(v))
    {
      ghost var rest := LastValidatorFields(v);
      var w0, w1, w2 := KeyWords(pubkey.secp, pubkey.bls);
      var key := ValidatorKey(v, 3);
      Store(key, w0, ValidatorField(v, 3), rest + {ValidatorField(v, 5)} + {ValidatorField(v, 4)});
      key := ValidatorKey(v, 4);
      Store(key, w1, ValidatorField(v, 4), rest + {ValidatorField(v, 5)});
      key := ValidatorKey(v, 5);
      Store(key, w2, ValidatorField(v, 5), rest);
    }

    method StoreNewRest(v: ValId, val: Validator)
      requires ValidBut(LastValidatorFields(v)) && U64(v) && PoolAt(typed, v).val == val
      modifies `slots
      ensures Valid()
    {
      var word := AuthWord(val.auth, FlagsNumber(val.flags));
      var key := ValidatorKey(v, 6);
      Store(key, word, ValidatorField(v, 6), {} + {ValidatorField(v, 7)});
      key := ValidatorKey(v, 7);
      Store(key, PackNumber(val.unclaimed), ValidatorField(v, 7), {});
    }

    // ----- delegators and list nodes ---------------------------------------------------------

    method WriteDelegator(v: ValId, a: Address, d: Delegator)
      requires Valid() && U64(v) && Address20(a)
      modifies this
      ensures Valid() && typed == WithDelegator(old(typed), v, a, d) && keys == old(keys)
    {
      DelegatorDiffers(typed, keys, v, a, d);
      Become(WithDelegator(typed, v, a, d), keys, DelegatorFields(v, a));
      StoreStakeAndRewards(v, a, d);
      StoreWindows(v, a, d);
    }

    method StoreStakeAndRewards(v: ValId, a: Address, d: Delegator)
      requires ValidBut(DelegatorFields(v, a)) && U64(v) && Address20(a) && DelegatorAt(typed, v, a) == d
      modifies `slots
      ensures ValidBut(WindowFields(v, a))
    {
      ghost var rest := WindowFields(v, a);
      var key := DelegatorKey(v, a, 0);
      Store(key, PackNumber(d.stake), DelegatorField(v, a, 0),
            rest + {DelegatorField(v, a, 2)} + {DelegatorField(v, a, 1)});
      key := DelegatorKey(v, a, 1);
      Store(key, PackNumber(d.acc), DelegatorField(v, a, 1), rest + {DelegatorField(v, a, 2)});
      key := DelegatorKey(v, a, 2);
      Store(key, PackNumber(d.rewards), DelegatorField(v, a, 2), rest);
    }

    method StoreWindows(v: ValId, a: Address, d: Delegator)
      requires ValidBut(WindowFields(v, a)) && U64(v) && Address20(a) && DelegatorAt(typed, v, a) == d
      modifies `slots
      ensures Valid()
    {
      var key := DelegatorKey(v, a, 3);
      Store(key, PackNumber(d.deltaStake), DelegatorField(v, a, 3),
            {} + {DelegatorField(v, a, 5)} + {DelegatorField(v, a, 4)});
      key := DelegatorKey(v, a, 4);
      Store(key, PackNumber(d.nextDeltaStake), DelegatorField(v, a, 4), {} + {DelegatorField(v, a, 5)});
      var word := EpochsWord(d.deltaEpoch, d.nextDeltaEpoch);
      key := DelegatorKey(v, a, 5);
      Store(key, word, DelegatorField(v, a, 5), {});
    }

    method WriteListNode(v: ValId, a: Address, n: ListNode)
      requires Valid() && U64(v) && Address20(a)
      modifies this
      ensures Valid() && typed == WithNode(old(typed), v, a, n) && keys == old(keys)
    {
      NodeDiffers(typed, keys, v, a, n);
      Become(WithNode(typed, v, a, n), keys, NodeFields(v, a));
      var slot6, slot7 := NodeWords(n);
      StoreNode(v, a, slot6, slot7);
    }

    method StoreNode(v: ValId, a: Address, slot6: Word, slot7: Word)
      requires ValidBut(NodeFields(v, a)) && U64(v) && Address20(a)
      requires (slot6, slot7) == ToSlots(Node(typed.nodes, v, a))
      modifies `slots
      ensures Valid()
    {
      var key := DelegatorKey(v, a, 6);
      Store(key, slot6, DelegatorField(v, a, 6), {} + {DelegatorField(v, a, 7)});
      key := DelegatorKey(v, a, 7);
      Store(key, slot7, DelegatorField(v, a, 7), {});
    }

    // ----- accumulator snapshots and requests --------------------------------------------------

    method StoreSnapshot(e: Epoch, v: ValId, value: nat, refcount: nat)
      requires ValidBut(SnapshotFields(e, v)) && U64(e) && U64(v)
      requires Value(PoolAt(typed, v).snaps, e) == value && Ref(PoolAt(typed, v).snaps, e) == refcount
      modifies `slots
      ensures Valid()
    {
      var key := AccumulatorKey(e, v, 0);
      Store(key, PackNumber(value), AccumulatorField(e, v, 0), {} + {AccumulatorField(e, v, 1)});
      key := AccumulatorKey(e, v, 1);
      Store(key, PackNumber(refcount), AccumulatorField(e, v, 1), {});
    }

    method WriteAccumulator(e: Epoch, v: ValId, snap: Snapshot)
      requires Valid() && U64(e) && U64(v)
      modifies this
      ensures Valid() && typed == WithSnapshot(old(typed), e, v, snap) && keys == old(keys)
    {
      SnapshotDiffers(typed, keys, e, v, PoolAt(typed, v).snaps[e := snap]);
      Become(WithSnapshot(typed, e, v, snap), keys, SnapshotFields(e, v));
      StoreSnapshot(e, v, snap.value, snap.refcount);
    }

    /** The last reference is gone: both words become zero. */
    method ClearAccumulator(e: Epoch, v: ValId)
      requires Valid() && U64(e) && U64(v)
      modifies this
      ensures Valid() && typed == WithoutSnapshot(old(typed), e, v) && keys == old(keys)
    {
      SnapshotDiffers(typed, keys, e, v, PoolAt(typed, v).snaps - {e});
      Become(WithoutSnapshot(typed, e, v), keys, SnapshotFields(e, v));
      StoreSnapshot(e, v, 0, 0);
    }

    method StoreRequest(v: ValId, a: Address, wid: Byte, r: Withdrawal)
      requires ValidBut(RequestFields(v, a, wid)) && U64(v) && Address20(a) && RequestAt(typed, v, (a, wid)) == r
      modifies `slots
      ensures Valid()
    {
      var key := WithdrawalKey(v, a, wid, 0);
      Store(key, PackNumber(r.amount), WithdrawalField(v, a, wid, 0),
            {} + {WithdrawalField(v, a, wid, 2)} + {WithdrawalField(v, a, wid, 1)});
      key := WithdrawalKey(v, a, wid, 1);
      Store(key, PackNumber(r.acc), WithdrawalField(v, a, wid, 1), {} + {WithdrawalField(v, a, wid, 2)});
      var word := NumberWord(r.epoch);
      key := WithdrawalKey(v, a, wid, 2);
      Store(key, word, WithdrawalField(v, a, wid, 2), {});
    }

    method WriteWithdrawalRequest(v: ValId, a: Address, wid: Byte, r: Withdrawal)
      requires Valid() && U64(v) && Address20(a)
      modifies this
      ensures Valid() && typed == WithRequest(old(typed), v, (a, wid), r) && keys == old(keys)
    {
      RequestDiffers(typed, keys, v, a, wid, PoolAt(typed, v).wds[(a, wid) := r]);
      Become(WithRequest(typed, v, (a, wid), r), keys, RequestFields(v, a, wid));
      StoreRequest(v, a, wid, r);
    }

    method ClearWithdrawalRequest(v: ValId, a: Address, wid: Byte)
      requires Valid() && U64(v) && Address20(a)
      modifies this
      ensures Valid() && typed == WithoutRequest(old(typed), v, (a, wid)) && keys == old(keys)
    {
      RequestDiffers(typed, keys, v, a, wid, PoolAt(typed, v).wds - {(a, wid)});
      Become(WithoutRequest(typed, v, (a, wid)), keys, RequestFields(v, a, wid));
      ZeroPacked();
      StoreRequest(v, a, wid, Withdrawal(0, 0, 0));
    }

    // ----- the validator sets --------------------------------------------------------------------

    /** Appends to an array: the cell first, then the length. */
    method Append(which: SetArray, v: ValId, len: nat)
      requires Valid() && len == |ArrayOf(typed, which)| && U64(len + 1)
      modifies this
      ensures Valid() && typed == WithArray(old(typed), which, ArrayOf(old(typed), which) + [v]) && keys == old(keys)
    {
      AppendDiffers(typed, keys, which, v);
      Become(WithArray(typed, which, ArrayOf(typed, which) + [v]), keys, AppendFields(which, len));
      var word := NumberWord(v);
      Store(Key(ArrayCell(which, len)), word, ArrayCell(which, len), {} + {ArrayLength(which)});
      word := NumberWord(len + 1);
      Store(Key(ArrayLength(which)), word, ArrayLength(which), {});
    }

    /** Drops the last cell: zero goes there, and the length after it. */
    method Drop(which: SetArray, len: nat)
      requires Valid() && len + 1 == |ArrayOf(typed, which)| && U64(len + 1)
      modifies this
      ensures Valid() && typed == WithArray(old(typed), which, ArrayOf(old(typed), which)[..len]) && keys == old(keys)
    {
      DropDiffers(typed, keys, which);
      Become(WithArray(typed, which, ArrayOf(typed, which)[..len]), keys, AppendFields(which, len));
      Store(Key(ArrayCell(which, len)), Zeros(32), ArrayCell(which, len), {} + {ArrayLength(which)});
      var word := NumberWord(len);
      Store(Key(ArrayLength(which)), word, ArrayLength(which), {});
    }

    /** Writes over a cell in use. */
    method WriteCell(which: SetArray, i: nat, v: ValId)
      requires Valid() && i < |ArrayOf(typed, which)| && U64(i + 1)
      modifies this
      ensures Valid() && typed == WithArray(old(typed), which, ArrayOf(old(typed), which)[i := v]) && keys == old(keys)
    {
      CellDiffers(typed, keys, which, i, v);
      Become(WithArray(typed, which, ArrayOf(typed, which)[i := v]), keys, {} + {ArrayCell(which, i)});
      var word := NumberWord(v);
      Store(Key(ArrayCell(which, i)), word, ArrayCell(which, i), {});
    }

    method StoreBucket(v: ValId, n: nat)
      requires ValidBut({} + {Bucket(v / 256)}) && U64(v) && n == BucketNumber(typed.sets.bits, v / 256)
      modifies `slots
      ensures Valid()
    {
      var key := BitsetBucketKey(v);
      Store(key, PackNumber(n), Bucket(v / 256), {});
    }

    /** The word of the bucket of `v`, as a number. */
    method ReadBucket(v: ValId) returns (n: nat)
      requires Valid() && U64(v)
      ensures n == BucketNumber(typed.sets.bits, v / 256)
    {
      var key := BitsetBucketKey(v);
      n := FromBE(WordAt(slots, key));
      WordIsAt(slots, typed, keys, Bucket(v / 256));
      BucketNumberFits(typed.sets.bits, v / 256);
    }

    method ReadLength(which: SetArray) returns (n: nat)
      requires Valid() && U64(|ArrayOf(typed, which)|)
      ensures n == |ArrayOf(typed, which)|
    {
      n := UnpackU64(WordAt(slots, Key(ArrayLength(which))));
      WordIsAt(slots, typed, keys, ArrayLength(which));
      U64RoundTrip(|ArrayOf(typed, which)|);
    }

    /** Sets the bit of `v`, and returns whether it was clear. */
    method MarkBit(v: ValId) returns (inserted: bool)
      requires Valid() && U64(v)
      modifies this
      ensures Valid() && keys == old(keys)
      ensures inserted <==> !BitSet(old(typed).sets.bits, v)
      ensures typed == WithBits(old(typed), WithBit(old(typed).sets.bits, v))
    {
      var bits := ReadBucket(v);
      inserted := !HasBit(bits, v % 256);
      BucketTells(typed.sets.bits, v);
      BucketWord(typed.sets.bits, v);
      BitDiffers(typed, keys, v, WithBit(typed.sets.bits, v));
      Become(WithBits(typed, WithBit(typed.sets.bits, v)), keys, {} + {Bucket(v / 256)});
      StoreBucket(v, SetBit(bits, v % 256));
    }

    /** `add_to_valset`: sets the bit, and appends the id if it was clear. */
    method AddToValset(v: ValId) returns (inserted: bool)
      requires Valid() && U64(v) && U64(|typed.sets.execution|) && U64(|typed.sets.execution| + 1)
      modifies this
      ensures Valid() && keys == old(keys)
      ensures inserted <==> !BitSet(old(typed).sets.bits, v)
      ensures var marked := WithBits(old(typed), WithBit(old(typed).sets.bits, v));
              typed == if inserted then WithArray(marked, Execution, old(typed).sets.execution + [v]) else marked
    {
      inserted := MarkBit(v);
      if inserted {
        var len := ReadLength(Execution);
        Append(Execution, v, len);
      }
    }

    /** `remove_from_valset`. */
    method RemoveFromValset(v: ValId)
      requires Valid() && U64(v)
      modifies this
      ensures Valid() && keys == old(keys)
      ensures typed == WithBits(old(typed), WithoutBit(old(typed).sets.bits, v))
    {
      var bits := ReadBucket(v);
      BucketWord(typed.sets.bits, v);
      BitDiffers(typed, keys, v, WithoutBit(typed.sets.bits, v));
      Become(WithBits(typed, WithoutBit(typed.sets.bits, v)), keys, {} + {Bucket(v / 256)});
      StoreBucket(v, ClearBit(bits, v % 256));
    }

    // ----- the views -----------------------------------------------------------------------------

    method WriteConsensusView(v: ValId, view: View)
      requires Valid() && U64(v)
      modifies this
      ensures Valid() && keys == old(keys)
      ensures typed == WithConsensusViews(old(typed), old(typed).sets.consensusView[v := view])
    {
      ViewDiffers(typed, keys, v, view);
      Become(WithConsensusViews(typed, typed.sets.consensusView[v := view]), keys,
             {} + {ConsensusView(v, 1)} + {ConsensusView(v, 0)});
      var key := ConsensusViewKey(v, 0);
      Store(key, PackNumber(view.stake), ConsensusView(v, 0), {} + {ConsensusView(v, 1)});
      key := ConsensusViewKey(v, 1);
      Store(key, PackNumber(view.commission), ConsensusView(v, 1), {});
    }

    method WriteSnapshotView(v: ValId, view: View)
      requires Valid() && U64(v)
      modifies this
      ensures Valid() && keys == old(keys)
      ensures typed == WithSnapshotViews(old(typed), old(typed).sets.snapshotView[v := view])
    {
      ViewDiffers(typed, keys, v, view);
      Become(WithSnapshotViews(typed, typed.sets.snapshotView[v := view]), keys,
             {} + {SnapshotView(v, 1)} + {SnapshotView(v, 0)});
      var key := SnapshotViewKey(v, 0);
      Store(key, PackNumber(view.stake), SnapshotView(v, 0), {} + {SnapshotView(v, 1)});
      key := SnapshotViewKey(v, 1);
      Store(key, PackNumber(view.commission), SnapshotView(v, 1), {});
    }
  }
}
