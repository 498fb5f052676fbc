/**
 * The typed storage of the staking contract and the flat words it is kept in:
 * which word every field holds, and that storing the words of the fields that
 * changed is all a write has to do.
 */
module StorageRefinement {
  import opened Checked
  import opened Ledger
  import opened ValidatorSets
  import opened ValidatorSetStorage
  import opened TwinLists
  import opened StakingContract
  import opened StorageLayout

  // ----- flat storage -------------------------------------------------------------

  type Word = s: Bytes | |s| == 32 witness Zeros(32)

  /** Word storage: a key that is absent holds the zero word. */
  type Slots = map<nat, Word>

  function WordAt(slots: Slots, key: nat): Word {
    if key in slots then slots[key] else Zeros(32)
  }

  /** The public keys of the validators, which nothing but the layout deals with. */
  type PublicKeys = map<ValId, PublicKey>

  datatype PublicKey = PublicKey(secp: Bytes, bls: Bytes) {
    predicate Fits() {
      |secp| == 33 && |bls| == 48
    }
  }

  function KeyOf(keys: PublicKeys, v: ValId): PublicKey {
    if v in keys && keys[v].Fits() then keys[v] else PublicKey(Zeros(33), Zeros(48))
  }

  // ----- bits in a word -------------------------------------------------------------

  /** The number whose binary digit `i` says whether `from + i` is in `s`, for `k` digits. */
  function BitNumber(s: set<nat>, from: nat, k: nat): nat
    decreases k
  {
    if k == 0 then 0 else (if from in s then 1 else 0) + 2 * BitNumber(s, from + 1, k - 1)
  }

  predicate HasBit(n: nat, i: nat) {
    if i == 0 then n % 2 == 1 else HasBit(n / 2, i - 1)
  }

  /** `n | 1 << i`. */
  function SetBit(n: nat, i: nat): nat {
    if i == 0 then n / 2 * 2 + 1 else n % 2 + 2 * SetBit(n / 2, i - 1)
  }

  /** `n & !(1 << i)`. */
  function ClearBit(n: nat, i: nat): nat {
    if i == 0 then n / 2 * 2 else n % 2 + 2 * ClearBit(n / 2, i - 1)
  }

  lemma {:induction false} BitNumberTells(s: set<nat>, from: nat, k: nat, i: nat)
    requires i < k
    ensures HasBit(BitNumber(s, from, k), i) <==> from + i in s
    decreases k
  {
    if i > 0 {
      BitNumberTells(s, from + 1, k - 1, i - 1);
    }
  }

  lemma {:induction false} BitNumberSame(s: set<nat>, t: set<nat>, from: nat, k: nat)
    requires forall j :: from <= j < from + k ==> (j in s <==> j in t)
    ensures BitNumber(s, from, k) == BitNumber(t, from, k)
    decreases k
  {
    if k > 0 {
      BitNumberSame(s, t, from + 1, k - 1);
    }
  }

  lemma LastDigit(b: nat, m: nat)
    requires b < 2
    ensures (b + 2 * m) % 2 == b && (b + 2 * m) / 2 == m
  {}

  lemma SetDigit(b: nat, m: nat, i: nat)
    requires b < 2
    ensures SetBit(b + 2 * m, i) == if i == 0 then 1 + 2 * m else b + 2 * SetBit(m, i - 1)
    ensures ClearBit(b + 2 * m, i) == if i == 0 then 2 * m else b + 2 * ClearBit(m, i - 1)
  {
    LastDigit(b, m);
  }

  /** Putting one number into the set sets its digit. */
  lemma {:induction false} BitNumberSets(s: set<nat>, t: set<nat>, from: nat, k: nat, i: nat)
    requires i < k && forall j :: j in t <==> j in s || j == from + i
    ensures BitNumber(t, from, k) == SetBit(BitNumber(s, from, k), i)
    decreases k
  {
    SetDigit(if from in s then 1 else 0, BitNumber(s, from + 1, k - 1), i);
    if i > 0 {
      BitNumberSets(s, t, from + 1, k - 1, i - 1);
    } else {
      BitNumberSame(s, t, from + 1, k - 1);
    }
  }

  /** Taking one out clears it. */
  lemma {:induction false} BitNumberClears(s: set<nat>, t: set<nat>, from: nat, k: nat, i: nat)
    requires i < k && forall j :: j in t <==> j in s && j != from + i
    ensures BitNumber(t, from, k) == ClearBit(BitNumber(s, from, k), i)
    decreases k
  {
    SetDigit(if from in s then 1 else 0, BitNumber(s, from + 1, k - 1), i);
    if i > 0 {
      BitNumberClears(s, t, from + 1, k - 1, i - 1);
    } else {
      BitNumberSame(s, t, from + 1, k - 1);
    }
  }

  function Pow2(k: nat): nat {
    if k == 0 then 1 else 2 * Pow2(k - 1)
  }

  lemma {:induction false} BitNumberFits(s: set<nat>, from: nat, k: nat)
    ensures BitNumber(s, from, k) < Pow2(k)
    decreases k
  {
    if k > 0 {
      BitNumberFits(s, from + 1, k - 1);
    }
  }

  lemma {:induction false} BytesOfBits(k: nat)
    ensures Pow2(8 * k) == Pow256(k)
  {
    if k > 0 {
      BytesOfBits(k - 1);
      assert Pow2(8 * k) == 256 * Pow2(8 * k - 8) by {
        assert Pow2(8 * k) == 4 * Pow2(8 * k - 2);
        assert Pow2(8 * k - 2) == 4 * Pow2(8 * k - 4);
        assert Pow2(8 * k - 4) == 4 * Pow2(8 * k - 6);
        assert Pow2(8 * k - 6) == 4 * Pow2(8 * k - 8);
      }
    }
  }

  function BucketOf(bits: Buckets, bucket: nat): set<nat> {
    if bucket in bits then bits[bucket] else {}
  }

  function BucketNumber(bits: Buckets, bucket: nat): nat {
    BitNumber(BucketOf(bits, bucket), 0, 256)
  }

  lemma BucketNumberFits(bits: Buckets, bucket: nat)
    ensures FromBE(ToBE(BucketNumber(bits, bucket), 32)) == BucketNumber(bits, bucket)
  {
    BitNumberFits(BucketOf(bits, bucket), 0, 256);
    BytesOfBits(32);
    FromToBE(BucketNumber(bits, bucket), 32);
  }

  // ----- the word of every field ------------------------------------------------------

  function PoolAt(w: Words, v: ValId): Pool {
    if v in w.pools then w.pools[v] else EMPTY_POOL
  }

  function DelegatorAt(w: Words, v: ValId, a: Address): Delegator {
    var p := PoolAt(w, v);
    if a in p.dels then p.dels[a] else NO_DELEGATOR
  }

  function RequestAt(w: Words, v: ValId, k: (Address, nat)): Withdrawal {
    var p := PoolAt(w, v);
    if k in p.wds then p.wds[k] else Withdrawal(0, 0, 0)
  }

  function ArrayOf(w: Words, which: SetArray): seq<ValId> {
    match which
    case Execution => w.sets.execution
    case Consensus => w.sets.consensus
    case SnapshotSet => w.sets.snapshot
  }

  function IdIn(m: map<Address, ValId>, a: Address): ValId {
    if a in m then m[a] else 0
  }

  function FlagsNumber(flags: Flags): nat {
    (if flags.stakeTooLow then 1 else 0) + (if flags.withdrawn then 2 else 0) + (if flags.doubleSign then 4 else 0)
  }

  function NumberFlags(n: nat): Flags {
    Flags(n % 2 == 1, n / 2 % 2 == 1, n / 4 % 2 == 1)
  }

  function PackNumber(n: nat): Word {
    ToBE(n, 32)
  }

  function PackBool(b: bool): Word {
    if b then [1] + Zeros(31) else Zeros(32)
  }

  function GlobalWord(w: Words, slot: nat): Word {
    if slot == 1 then PackU64(w.epoch)
    else if slot == 2 then PackBool(w.inBoundary)
    else if slot == 3 then PackU64(w.lastValId)
    else PackU64(w.proposer)
  }

  function CellWord(s: seq<ValId>, index: nat): Word {
    if index < |s| then PackU64(s[index]) else Zeros(32)
  }

  function ViewWord(view: View, slot: nat): Word {
    PackNumber(if slot == 0 then view.stake else view.commission)
  }

  function KeyWord(key: PublicKey, slot: nat): Word
    requires key.Fits()
  {
    var packed := PackKeys(key.secp, key.bls);
    if slot == 3 then packed.0 else if slot == 4 then packed.1 else packed.2
  }

  function ValidatorWord(val: Validator, key: PublicKey, slot: nat): Word
    requires key.Fits()
  {
    if slot == 0 then PackNumber(val.stake)
    else if slot == 1 then PackNumber(val.acc)
    else if slot == 2 then PackNumber(val.commission)
    else if slot < 6 then KeyWord(key, slot)
    else if slot == 6 then PackAuth(val.auth, FlagsNumber(val.flags))
    else PackNumber(val.unclaimed)
  }

  function SnapshotWord(snaps: Snapshots, e: Epoch, slot: nat): Word {
    PackNumber(if slot == 0 then Value(snaps, e) else Ref(snaps, e))
  }

  function DelegatorWord(d: Delegator, node: ListNode, slot: nat): Word {
    if slot == 0 then PackNumber(d.stake)
    else if slot == 1 then PackNumber(d.acc)
    else if slot == 2 then PackNumber(d.rewards)
    else if slot == 3 then PackNumber(d.deltaStake)
    else if slot == 4 then PackNumber(d.nextDeltaStake)
    else if slot == 5 then PackEpochs(d.deltaEpoch, d.nextDeltaEpoch)
    else if slot == 6 then ToSlots(node).0
    else ToSlots(node).1
  }

  function RequestWord(r: Withdrawal, slot: nat): Word {
    if slot == 0 then PackNumber(r.amount) else if slot == 1 then PackNumber(r.acc) else PackU64(r.epoch)
  }

  function FieldWord(w: Words, keys: PublicKeys, f: Field): Word {
    match f
    case Global(slot) => GlobalWord(w, slot)
    case ArrayLength(which) => PackU64(|ArrayOf(w, which)|)
    case ArrayCell(which, index) => CellWord(ArrayOf(w, which), index)
    case ConsensusView(v, slot) => ViewWord(ViewOf(w.sets.consensusView, v), slot)
    case SnapshotView(v, slot) => ViewWord(ViewOf(w.sets.snapshotView, v), slot)
    case SecpId(a) => PackU64(IdIn(w.secp, a))
    case BlsId(a) => PackU64(IdIn(w.bls, a))
    case Bucket(bucket) => PackNumber(BucketNumber(w.sets.bits, bucket))
    case ValidatorField(v, slot) => ValidatorWord(PoolAt(w, v).val, KeyOf(keys, v), slot)
    case AccumulatorField(epoch, v, slot) => SnapshotWord(PoolAt(w, v).snaps, epoch, slot)
    case DelegatorField(v, a, slot) => DelegatorWord(DelegatorAt(w, v, a), Node(w.nodes, v, a), slot)
    case WithdrawalField(v, a, wid, slot) => RequestWord(RequestAt(w, v, (a, wid)), slot)
  }

  // ----- representation -----------------------------------------------------------------

  predicate Holds(slots: Slots, w: Words, keys: PublicKeys, f: Field) {
    WordAt(slots, Key(f)) == FieldWord(w, keys, f)
  }

  /** Every field the contract uses, but those in `dirty`, is in its word. */
  ghost predicate RepresentsBut(slots: Slots, w: Words, keys: PublicKeys, dirty: set<Field>) {
    forall f: Field {:trigger Holds(slots, w, keys, f)} :: Used(f) && f !in dirty ==> Holds(slots, w, keys, f)
  }

  ghost predicate Represents(slots: Slots, w: Words, keys: PublicKeys) {
    RepresentsBut(slots, w, keys, {})
  }

  /** The two records agree on what slot `slot` holds. */
  predicate SameSlot(val: Validator, key: PublicKey, val': Validator, key': PublicKey, slot: nat) {
    if slot == 0 then val'.stake == val.stake
    else if slot == 1 then val'.acc == val.acc
    else if slot == 2 then val'.commission == val.commission
    else if slot < 6 then key' == key
    else if slot == 6 then val'.auth == val.auth && val'.flags == val.flags
    else val'.unclaimed == val.unclaimed
  }

  predicate SameGlobal(w: Words, w': Words, slot: nat) {
    if slot == 1 then w'.epoch == w.epoch
    else if slot == 2 then w'.inBoundary == w.inBoundary
    else if slot == 3 then w'.lastValId == w.lastValId
    else w'.proposer == w.proposer
  }

  predicate SameCell(s: seq<ValId>, s': seq<ValId>, index: nat) {
    (index < |s'| <==> index < |s|) && (index < |s| && index < |s'| ==> s'[index] == s[index])
  }

  /** The two typed states agree on what field `f` holds. */
  predicate SameField(w: Words, keys: PublicKeys, w': Words, keys': PublicKeys, f: Field) {
    match f
    case Global(slot) => SameGlobal(w, w', slot)
    case ArrayLength(which) => |ArrayOf(w', which)| == |ArrayOf(w, which)|
    case ArrayCell(which, index) => SameCell(ArrayOf(w, which), ArrayOf(w', which), index)
    case ConsensusView(v, _) => ViewOf(w'.sets.consensusView, v) == ViewOf(w.sets.consensusView, v)
    case SnapshotView(v, _) => ViewOf(w'.sets.snapshotView, v) == ViewOf(w.sets.snapshotView, v)
    case SecpId(a) => IdIn(w'.secp, a) == IdIn(w.secp, a)
    case BlsId(a) => IdIn(w'.bls, a) == IdIn(w.bls, a)
    case Bucket(bucket) => BucketOf(w'.sets.bits, bucket) == BucketOf(w.sets.bits, bucket)
    case ValidatorField(v, slot) =>
      SameSlot(PoolAt(w, v).val, KeyOf(keys, v), PoolAt(w', v).val, KeyOf(keys', v), slot)
    case AccumulatorField(epoch, v, _) =>
      && Value(PoolAt(w', v).snaps, epoch) == Value(PoolAt(w, v).snaps, epoch)
      && Ref(PoolAt(w', v).snaps, epoch) == Ref(PoolAt(w, v).snaps, epoch)
    case DelegatorField(v, a, slot) =>
      if slot < 6 then DelegatorAt(w', v, a) == DelegatorAt(w, v, a) else Node(w'.nodes, v, a) == Node(w.nodes, v, a)
    case WithdrawalField(v, a, wid, _) => RequestAt(w', v, (a, wid)) == RequestAt(w, v, (a, wid))
  }

  lemma SameFieldSameWord(w: Words, keys: PublicKeys, w': Words, keys': PublicKeys, f: Field)
    requires SameField(w, keys, w', keys', f)
    ensures FieldWord(w', keys', f) == FieldWord(w, keys, f)
  {}

  /** Nothing but the fields in `dirty` distinguishes the two. */
  ghost predicate OnlyDiffersAt(w: Words, keys: PublicKeys, w': Words, keys': PublicKeys, dirty: set<Field>) {
    forall f: Field {:trigger SameField(w, keys, w', keys', f)} ::
      Used(f) && f !in dirty ==> SameField(w, keys, w', keys', f)
  }

  lemma ChangeLeavesDirty(
    slots: Slots, w: Words, keys: PublicKeys, w': Words, keys': PublicKeys, dirty: set<Field>, more: set<Field>)
    requires RepresentsBut(slots, w, keys, dirty) && OnlyDiffersAt(w, keys, w', keys', more)
    ensures RepresentsBut(slots, w', keys', dirty + more)
  {
    forall f: Field | Used(f) && f !in dirty + more
      ensures Holds(slots, w', keys', f)
    {
      assert Holds(slots, w, keys, f) && SameField(w, keys, w', keys', f);
      SameFieldSameWord(w, keys, w', keys', f);
    }
  }

  lemma MoreDirty(slots: Slots, w: Words, keys: PublicKeys, dirty: set<Field>, more: set<Field>)
    requires RepresentsBut(slots, w, keys, dirty) && dirty <= more
    ensures RepresentsBut(slots, w, keys, more)
  {
    forall f: Field | Used(f) && f !in more
      ensures Holds(slots, w, keys, f)
    {
      assert Holds(slots, w, keys, f);
    }
  }

  lemma DifferentKeys(f: Field, g: Field)
    requires Used(f) && Used(g) && f != g
    ensures Key(f) != Key(g)
  {
    if Key(f) == Key(g) {
      KeysDistinct(f, g);
    }
  }

  lemma StoreKeepsOther(slots: Slots, w: Words, keys: PublicKeys, key: nat, word: Word, g: Field)
    requires Holds(slots, w, keys, g) && Key(g) != key
    ensures Holds(slots[key := word], w, keys, g)
  {}

  /** Storing the word of one field cleans that field and disturbs no other. */
  lemma StoreCleans(slots: Slots, w: Words, keys: PublicKeys, rest: set<Field>, f: Field)
    requires RepresentsBut(slots, w, keys, rest + {f}) && Used(f)
    ensures RepresentsBut(slots[Key(f) := FieldWord(w, keys, f)], w, keys, rest)
  {
    var key, word := Key(f), FieldWord(w, keys, f);
    forall g: Field | Used(g) && g !in rest
      ensures Holds(slots[key := word], w, keys, g)
    {
      if g != f {
        DifferentKeys(f, g);
        assert Holds(slots, w, keys, g);
        StoreKeepsOther(slots, w, keys, key, word, g);
      }
    }
  }

  /** Stores the words of `fields` one after the other. */
  function StoreAll(slots: Slots, w: Words, keys: PublicKeys, fields: seq<Field>): Slots {
    if fields == [] then slots
    else
      var f := fields[|fields| - 1];
      StoreAll(slots, w, keys, fields[..|fields| - 1])[Key(f) := FieldWord(w, keys, f)]
  }

  function FieldSet(fields: seq<Field>): set<Field> {
    set f | f in fields
  }

  lemma FieldSetGrows(dirty: set<Field>, fields: seq<Field>)
    requires fields != []
    ensures dirty - FieldSet(fields[..|fields| - 1]) <= dirty - FieldSet(fields) + {fields[|fields| - 1]}
  {
    assert fields == fields[..|fields| - 1] + [fields[|fields| - 1]];
  }

  /** Storing every field that changed makes the words represent the new typed state. */
  lemma {:induction false} StoreAllRepresents(
    slots: Slots, w: Words, keys: PublicKeys, dirty: set<Field>, fields: seq<Field>)
    requires RepresentsBut(slots, w, keys, dirty) && forall f :: f in fields ==> Used(f)
    ensures RepresentsBut(StoreAll(slots, w, keys, fields), w, keys, dirty - FieldSet(fields))
  {
    if fields == [] {
      MoreDirty(slots, w, keys, dirty, dirty - FieldSet(fields));
    } else {
      var init, last := fields[..|fields| - 1], fields[|fields| - 1];
      var stored := StoreAll(slots, w, keys, init);
      StoreAllRepresents(slots, w, keys, dirty, init);
      FieldSetGrows(dirty, fields);
      MoreDirty(stored, w, keys, dirty - FieldSet(init), dirty - FieldSet(fields) + {last});
      StoreCleans(stored, w, keys, dirty - FieldSet(fields), last);
    }
  }

  // ----- empty storage -------------------------------------------------------------------

  const NO_SET_WORDS: SetWords := SetWords([], map[], [], [], map[], map[])

  const NO_WORDS: Words := Words(0, false, 0, 0, map[], map[], map[], 0, 0, NO_SET_WORDS, map[])

  lemma {:induction false} ZeroBytes(k: nat)
    ensures ToBE(0, k) == Zeros(k)
  {
    if k > 0 {
      ZeroBytes(k - 1);
      assert Zeros(k) == Zeros(k - 1) + [0];
    }
  }

  lemma ZeroPacked()
    ensures PackNumber(0) == Zeros(32) && PackU64(0) == Zeros(32)
    ensures PackEpochs(0, 0) == Zeros(32) && PackAuth(0, 0) == Zeros(32)
  {
    ZeroBytes(32);
    ZeroBytes(20);
    ZeroBytes(8);
    assert Zeros(8) + Zeros(24) == Zeros(32);
    assert Zeros(8) + Zeros(8) + Zeros(16) == Zeros(32);
    assert Zeros(20) + Zeros(8) + Zeros(4) == Zeros(32);
  }

  lemma ZeroNode()
    ensures var n := ListNode(0, 0, 0, 0); ToSlots(n) == (Zeros(32), Zeros(32))
  {
    var n := ListNode(0, 0, 0, 0);
    ZeroBytes(20);
    ZeroBytes(8);
    assert ToSlots(n).0 == Zeros(32);
    assert ToSlots(n).1 == Zeros(32);
  }

  lemma ZeroKeys(slot: nat)
    ensures KeyWord(PublicKey(Zeros(33), Zeros(48)), slot) == Zeros(32)
  {
    var all := Zeros(33) + Zeros(48) + Zeros(15);
    assert forall i :: 0 <= i < 96 ==> all[i] == 0;
    assert all[0..32] == Zeros(32) && all[32..64] == Zeros(32) && all[64..96] == Zeros(32);
  }

  lemma ZeroBits(from: nat, k: nat)
    ensures BitNumber({}, from, k) == 0
    decreases k
  {
    if k > 0 {
      ZeroBits(from + 1, k - 1);
    }
  }

  /** Before the first write every word is zero, and that is the contract without anything in it. */
  lemma EmptyRepresents()
    ensures Represents(map[], NO_WORDS, map[])
  {
    forall f: Field
      ensures Holds(map[], NO_WORDS, map[], f)
    {
      EmptyField(f);
    }
  }

  lemma EmptyField(f: Field)
    ensures FieldWord(NO_WORDS, map[], f) == Zeros(32)
  {
    ZeroPacked();
    match f
    case ValidatorField(_, slot) => ZeroKeys(slot);
    case DelegatorField(_, _, _) => ZeroNode();
    case Bucket(_) => ZeroBits(0, 256);
    case _ =>
  }

  // ----- what the words tell ---------------------------------------------------------------

  predicate U256(n: nat) {
    n <= U256_MAX
  }

  predicate ValidatorFits(val: Validator) {
    && U256(val.stake) && U256(val.acc) && U256(val.commission) && U256(val.unclaimed) && Address20(val.auth)
  }

  predicate DelegatorFits(d: Delegator) {
    && U256(d.stake) && U256(d.acc) && U256(d.rewards) && U256(d.deltaStake) && U256(d.nextDeltaStake)
    && U64(d.deltaEpoch) && U64(d.nextDeltaEpoch)
  }

  predicate RequestFits(r: Withdrawal) {
    U256(r.amount) && U256(r.acc) && U64(r.epoch)
  }

  function NumberAt(slots: Slots, f: Field): nat {
    FromBE(WordAt(slots, Key(f)))
  }

  /** `read_validator`, without the public keys. */
  function LoadValidator(slots: Slots, v: ValId): Validator {
    var packed := UnpackAuth(WordAt(slots, Key(ValidatorField(v, 6))));
    Validator(
      NumberAt(slots, ValidatorField(v, 0)), NumberAt(slots, ValidatorField(v, 1)),
      NumberAt(slots, ValidatorField(v, 2)), packed.0, NumberFlags(packed.1),
      NumberAt(slots, ValidatorField(v, 7)))
  }

  function LoadKeys(slots: Slots, v: ValId): PublicKey {
    var keys := UnpackKeys(
                  WordAt(slots, Key(ValidatorField(v, 3))), WordAt(slots, Key(ValidatorField(v, 4))),
                  WordAt(slots, Key(ValidatorField(v, 5))));
    PublicKey(keys.0, keys.1)
  }

  /** `read_delegator`. */
  function LoadDelegator(slots: Slots, v: ValId, a: Address): Delegator {
    var epochs := UnpackEpochs(WordAt(slots, Key(DelegatorField(v, a, 5))));
    Delegator(
      NumberAt(slots, DelegatorField(v, a, 0)), NumberAt(slots, DelegatorField(v, a, 1)),
      NumberAt(slots, DelegatorField(v, a, 2)), NumberAt(slots, DelegatorField(v, a, 3)),
      NumberAt(slots, DelegatorField(v, a, 4)), epochs.0, epochs.1)
  }

  /** `read_list_node`. */
  function LoadNode(slots: Slots, v: ValId, a: Address): ListNode {
    FromSlots(WordAt(slots, Key(DelegatorField(v, a, 6))), WordAt(slots, Key(DelegatorField(v, a, 7))))
  }

  /** `read_accumulator`. */
  function LoadSnapshot(slots: Slots, e: Epoch, v: ValId): Snapshot {
    Snapshot(NumberAt(slots, AccumulatorField(e, v, 0)), NumberAt(slots, AccumulatorField(e, v, 1)))
  }

  function LoadRequest(slots: Slots, v: ValId, a: Address, wid: nat): Withdrawal {
    Withdrawal(
      NumberAt(slots, WithdrawalField(v, a, wid, 0)), NumberAt(slots, WithdrawalField(v, a, wid, 1)),
      UnpackU64(WordAt(slots, Key(WithdrawalField(v, a, wid, 2)))))
  }

  /** An array of ids as its length word and cells spell it. */
  function LoadArray(slots: Slots, which: SetArray): seq<ValId> {
    seq(UnpackU64(WordAt(slots, Key(ArrayLength(which)))),
        i requires i >= 0 => UnpackU64(WordAt(slots, Key(ArrayCell(which, i)))))
  }

  /** Whether the bit of `v` is set in its bucket. */
  predicate LoadBit(slots: Slots, v: ValId) {
    HasBit(NumberAt(slots, Bucket(v / 256)), v % 256)
  }

  lemma NumberIsAt(slots: Slots, w: Words, keys: PublicKeys, f: Field, n: nat)
    requires Represents(slots, w, keys) && Used(f) && U256(n) && FieldWord(w, keys, f) == PackNumber(n)
    ensures NumberAt(slots, f) == n
  {
    assert Holds(slots, w, keys, f);
    FromToWord(n);
  }

  lemma WordIsAt(slots: Slots, w: Words, keys: PublicKeys, f: Field)
    requires Represents(slots, w, keys) && Used(f)
    ensures WordAt(slots, Key(f)) == FieldWord(w, keys, f)
  {
    assert Holds(slots, w, keys, f);
  }

  lemma FlagsRoundTrip(flags: Flags)
    ensures U64(FlagsNumber(flags)) && NumberFlags(FlagsNumber(flags)) == flags
  {}

  /** The words of a validator spell its record. */
  lemma ValidatorLoads(slots: Slots, w: Words, keys: PublicKeys, v: ValId)
    requires Represents(slots, w, keys) && U64(v) && ValidatorFits(PoolAt(w, v).val)
    ensures LoadValidator(slots, v) == PoolAt(w, v).val
  {
    var val := PoolAt(w, v).val;
    NumberIsAt(slots, w, keys, ValidatorField(v, 0), val.stake);
    NumberIsAt(slots, w, keys, ValidatorField(v, 1), val.acc);
    NumberIsAt(slots, w, keys, ValidatorField(v, 2), val.commission);
    NumberIsAt(slots, w, keys, ValidatorField(v, 7), val.unclaimed);
    FlagsRoundTrip(val.flags);
    AuthRoundTrip(val.auth, FlagsNumber(val.flags));
    WordIsAt(slots, w, keys, ValidatorField(v, 6));
  }

  lemma KeysLoad(slots: Slots, w: Words, keys: PublicKeys, v: ValId)
    requires Represents(slots, w, keys) && U64(v)
    ensures LoadKeys(slots, v) == KeyOf(keys, v)
  {
    var key := KeyOf(keys, v);
    var packed := PackKeys(key.secp, key.bls);
    KeysRoundTrip(key.secp, key.bls);
    WordIsAt(slots, w, keys, ValidatorField(v, 3));
    WordIsAt(slots, w, keys, ValidatorField(v, 4));
    WordIsAt(slots, w, keys, ValidatorField(v, 5));
  }

  lemma DelegatorNumbersLoad(slots: Slots, w: Words, keys: PublicKeys, v: ValId, a: Address, d: Delegator)
    requires Represents(slots, w, keys) && U64(v) && Address20(a) && DelegatorFits(d) && d == DelegatorAt(w, v, a)
    ensures NumberAt(slots, DelegatorField(v, a, 0)) == d.stake && NumberAt(slots, DelegatorField(v, a, 1)) == d.acc
    ensures NumberAt(slots, DelegatorField(v, a, 2)) == d.rewards
    ensures NumberAt(slots, DelegatorField(v, a, 3)) == d.deltaStake
    ensures NumberAt(slots, DelegatorField(v, a, 4)) == d.nextDeltaStake
  {
    NumberIsAt(slots, w, keys, DelegatorField(v, a, 0), d.stake);
    NumberIsAt(slots, w, keys, DelegatorField(v, a, 1), d.acc);
    NumberIsAt(slots, w, keys, DelegatorField(v, a, 2), d.rewards);
    NumberIsAt(slots, w, keys, DelegatorField(v, a, 3), d.deltaStake);
    NumberIsAt(slots, w, keys, DelegatorField(v, a, 4), d.nextDeltaStake);
  }

  lemma EpochsLoad(slots: Slots, w: Words, keys: PublicKeys, v: ValId, a: Address, d: Delegator)
    requires Represents(slots, w, keys) && U64(v) && Address20(a) && DelegatorFits(d) && d == DelegatorAt(w, v, a)
    ensures UnpackEpochs(WordAt(slots, Key(DelegatorField(v, a, 5)))) == (d.deltaEpoch, d.nextDeltaEpoch)
  {
    EpochsRoundTrip(d.deltaEpoch, d.nextDeltaEpoch);
    WordIsAt(slots, w, keys, DelegatorField(v, a, 5));
  }

  /** The words of a delegator spell its record. */
  lemma DelegatorLoads(slots: Slots, w: Words, keys: PublicKeys, v: ValId, a: Address)
    requires Represents(slots, w, keys) && U64(v) && Address20(a) && DelegatorFits(DelegatorAt(w, v, a))
    ensures LoadDelegator(slots, v, a) == DelegatorAt(w, v, a)
  {
    var d := DelegatorAt(w, v, a);
    DelegatorNumbersLoad(slots, w, keys, v, a, d);
    EpochsLoad(slots, w, keys, v, a, d);
  }

  lemma NodeWordsAt(slots: Slots, w: Words, keys: PublicKeys, v: ValId, a: Address, n: ListNode)
    requires Represents(slots, w, keys) && U64(v) && Address20(a) && n == Node(w.nodes, v, a)
    ensures WordAt(slots, Key(DelegatorField(v, a, 6))) == ToSlots(n).0
    ensures WordAt(slots, Key(DelegatorField(v, a, 7))) == ToSlots(n).1
  {
    WordIsAt(slots, w, keys, DelegatorField(v, a, 6));
    WordIsAt(slots, w, keys, DelegatorField(v, a, 7));
  }

  lemma NodeLoads(slots: Slots, w: Words, keys: PublicKeys, v: ValId, a: Address)
    requires Represents(slots, w, keys) && U64(v) && Address20(a) && NodeFits(Node(w.nodes, v, a))
    ensures LoadNode(slots, v, a) == Node(w.nodes, v, a)
  {
    ListNodeRoundTrip(Node(w.nodes, v, a));
    NodeWordsAt(slots, w, keys, v, a, Node(w.nodes, v, a));
  }

  lemma SnapshotLoads(slots: Slots, w: Words, keys: PublicKeys, e: Epoch, v: ValId)
    requires Represents(slots, w, keys) && U64(e) && U64(v)
    requires U256(Value(PoolAt(w, v).snaps, e)) && U256(Ref(PoolAt(w, v).snaps, e))
    ensures LoadSnapshot(slots, e, v) == Snapshot(Value(PoolAt(w, v).snaps, e), Ref(PoolAt(w, v).snaps, e))
  {
    NumberIsAt(slots, w, keys, AccumulatorField(e, v, 0), Value(PoolAt(w, v).snaps, e));
    NumberIsAt(slots, w, keys, AccumulatorField(e, v, 1), Ref(PoolAt(w, v).snaps, e));
  }

  lemma RequestLoads(slots: Slots, w: Words, keys: PublicKeys, v: ValId, a: Address, wid: nat)
    requires Represents(slots, w, keys) && U64(v) && Address20(a) && wid < 256
    requires RequestFits(RequestAt(w, v, (a, wid)))
    ensures LoadRequest(slots, v, a, wid) == RequestAt(w, v, (a, wid))
  {
    var r := RequestAt(w, v, (a, wid));
    NumberIsAt(slots, w, keys, WithdrawalField(v, a, wid, 0), r.amount);
    NumberIsAt(slots, w, keys, WithdrawalField(v, a, wid, 1), r.acc);
    U64RoundTrip(r.epoch);
    WordIsAt(slots, w, keys, WithdrawalField(v, a, wid, 2));
  }

  /** The words of an array spell its ids in order. */
  lemma ArrayLoads(slots: Slots, w: Words, keys: PublicKeys, which: SetArray)
    requires Represents(slots, w, keys) && U64(|ArrayOf(w, which)|) && forall v :: v in ArrayOf(w, which) ==> U64(v)
    ensures LoadArray(slots, which) == ArrayOf(w, which)
  {
    var s := ArrayOf(w, which);
    WordIsAt(slots, w, keys, ArrayLength(which));
    U64RoundTrip(|s|);
    forall i | 0 <= i < |s|
      ensures LoadArray(slots, which)[i] == s[i]
    {
      WordIsAt(slots, w, keys, ArrayCell(which, i));
      U64RoundTrip(s[i]);
    }
  }

  lemma BucketTells(bits: Buckets, v: ValId)
    ensures HasBit(BucketNumber(bits, v / 256), v % 256) <==> BitSet(bits, v)
  {
    BitNumberTells(BucketOf(bits, v / 256), 0, 256, v % 256);
  }

  lemma BucketAt(slots: Slots, w: Words, keys: PublicKeys, bucket: nat)
    requires Represents(slots, w, keys) && U64(bucket)
    ensures NumberAt(slots, Bucket(bucket)) == BucketNumber(w.sets.bits, bucket)
  {
    BucketNumberFits(w.sets.bits, bucket);
    WordIsAt(slots, w, keys, Bucket(bucket));
  }

  /** A bit is set in its word exactly if it is in the typed bitset. */
  lemma BitLoads(slots: Slots, w: Words, keys: PublicKeys, v: ValId)
    requires Represents(slots, w, keys) && U64(v)
    ensures LoadBit(slots, v) <==> BitSet(w.sets.bits, v)
  {
    BucketAt(slots, w, keys, v / 256);
    BucketTells(w.sets.bits, v);
  }
}
