/**
 * Where the staking contract keeps its fields: the key builders, and the words
 * into which more than one value is packed.
 */
module StorageLayout {
  import opened Checked
  import opened TwinLists

  type Byte = x: nat | x < 256
  type Bytes = seq<Byte>

  // ----- big-endian numbers -----------------------------------------------------

  function Pow256(k: nat): (r: nat)
    ensures r > 0
  {
    if k == 0 then 1 else 256 * Pow256(k - 1)
  }

  /** The number that `s` spells, most significant byte first. */
  function FromBE(s: Bytes): nat {
    if s == [] then 0 else FromBE(s[..|s| - 1]) * 256 + s[|s| - 1]
  }

  function ToBE(n: nat, k: nat): (r: Bytes)
    ensures |r| == k
  {
    if k == 0 then [] else ToBE(n / 256, k - 1) + [n % 256]
  }

  lemma {:induction false} FromToBE(n: nat, k: nat)
    requires n < Pow256(k)
    ensures FromBE(ToBE(n, k)) == n
  {
    if k > 0 {
      FromToBE(n / 256, k - 1);
      assert ToBE(n, k)[..k - 1] == ToBE(n / 256, k - 1);
    }
  }

  lemma {:induction false} ToFromBE(s: Bytes)
    ensures FromBE(s) < Pow256(|s|) && ToBE(FromBE(s), |s|) == s
  {
    if s != [] {
      var init := s[..|s| - 1];
      ToFromBE(init);
      assert s == init + [s[|s| - 1]];
      assert FromBE(s) / 256 == FromBE(init) && FromBE(s) % 256 == s[|s| - 1];
    }
  }

  lemma FromBEInjective(s: Bytes, t: Bytes)
    requires |s| == |t| && FromBE(s) == FromBE(t)
    ensures s == t
  {
    ToFromBE(s);
    ToFromBE(t);
  }

  function Zeros(k: nat): (r: Bytes)
    ensures |r| == k
  {
    seq(k, _ => 0)
  }

  // ----- fields ------------------------------------------------------------------

  datatype SetArray = Execution | Consensus | SnapshotSet

  /** A logical field of the contract. */
  datatype Field =
    | Global(slot: nat)
    | ArrayLength(which: SetArray)
    | ArrayCell(which: SetArray, index: nat)
    | ConsensusView(v: nat, slot: nat)
    | SnapshotView(v: nat, slot: nat)
    | SecpId(a: nat)
    | BlsId(a: nat)
    | Bucket(bucket: nat)
    | ValidatorField(v: nat, slot: nat)
    | AccumulatorField(epoch: nat, v: nat, slot: nat)
    | DelegatorField(v: nat, a: nat, slot: nat)
    | WithdrawalField(v: nat, a: nat, wid: nat, slot: nat)

  predicate U64(n: nat) {
    n < 0x1_0000_0000_0000_0000
  }

  predicate Address20(n: nat) {
    n < 0x1_0000_0000_0000_0000_0000_0000_0000_0000_0000_0000
  }

  lemma {:induction false} Pow256Sum(i: nat, k: nat)
    ensures Pow256(i + k) == Pow256(i) * Pow256(k)
  {
    if i > 0 {
      Pow256Sum(i - 1, k);
      TimesAgain(256, Pow256(i - 1), Pow256(k));
    }
  }

  lemma TimesAgain(x: nat, y: nat, z: nat)
    ensures x * (y * z) == x * y * z
  {}

  lemma PowersAre()
    ensures Pow256(8) == 0x1_0000_0000_0000_0000
    ensures Pow256(20) == 0x1_0000_0000_0000_0000_0000_0000_0000_0000_0000_0000
    ensures Pow256(32) == U256_MAX + 1
  {
    Pow256Sum(2, 2);
    Pow256Sum(4, 4);
    Pow256Sum(8, 8);
    Pow256Sum(16, 4);
    Pow256Sum(16, 16);
  }

  lemma U64Fits(n: nat)
    requires U64(n)
    ensures n < Pow256(8)
  {
    PowersAre();
  }

  lemma AddressFits(n: nat)
    requires Address20(n)
    ensures n < Pow256(20)
  {
    PowersAre();
  }

  /** A number that fits its bytes is what they spell. */
  lemma FromToU64(n: nat)
    requires U64(n)
    ensures FromBE(ToBE(n, 8)) == n
  {
    U64Fits(n);
    FromToBE(n, 8);
  }

  lemma FromToAddress(n: nat)
    requires Address20(n)
    ensures FromBE(ToBE(n, 20)) == n
  {
    AddressFits(n);
    FromToBE(n, 20);
  }

  lemma FromToWord(n: nat)
    requires n <= U256_MAX
    ensures FromBE(ToBE(n, 32)) == n
  {
    PowersAre();
    FromToBE(n, 32);
  }

  /** The fields the contract uses. */
  predicate Used(f: Field) {
    match f
    case Global(slot) => 1 <= slot <= 4
    case ArrayLength(_) => true
    case ArrayCell(_, index) => U64(index + 1)
    case ConsensusView(v, slot) => U64(v) && slot < 2
    case SnapshotView(v, slot) => U64(v) && slot < 2
    case SecpId(a) => Address20(a)
    case BlsId(a) => Address20(a)
    case Bucket(bucket) => U64(bucket)
    case ValidatorField(v, slot) => U64(v) && slot < 8
    case AccumulatorField(epoch, v, slot) => U64(epoch) && U64(v) && slot < 2
    case DelegatorField(v, a, slot) => U64(v) && Address20(a) && slot < 8
    case WithdrawalField(v, a, wid, slot) => U64(v) && Address20(a) && wid < 256 && slot < 3
  }

  /** The first byte of the key, which tells the kinds of field apart. */
  function Namespace(f: Field): Byte {
    match f
    case Global(_) => 0x00
    case ArrayLength(which) => ArrayBase(which)
    case ArrayCell(which, _) => ArrayBase(which)
    case ConsensusView(_, _) => 0x04
    case SnapshotView(_, _) => 0x05
    case SecpId(_) => 0x06
    case BlsId(_) => 0x07
    case Bucket(_) => 0x08
    case ValidatorField(_, _) => 0x09
    case AccumulatorField(_, _, _) => 0x0A
    case DelegatorField(_, _, _) => 0x0B
    case WithdrawalField(_, _, _, _) => 0x0C
  }

  function ArrayBase(which: SetArray): Byte {
    match which
    case Execution => 0x01
    case Consensus => 0x02
    case SnapshotSet => 0x03
  }

  /** The buffer a key builder fills after the namespace, before the slot is added. */
  function Body(f: Field): Bytes {
    match f
    case Global(_) => Zeros(31)
    case ArrayLength(_) => Zeros(31)
    case ArrayCell(_, _) => Zeros(31)
    case ConsensusView(v, _) => ToBE(v, 8) + Zeros(23)
    case SnapshotView(v, _) => ToBE(v, 8) + Zeros(23)
    case SecpId(a) => ToBE(a, 20) + Zeros(11)
    case BlsId(a) => ToBE(a, 20) + Zeros(11)
    case Bucket(bucket) => ToBE(bucket, 8) + Zeros(23)
    case ValidatorField(v, _) => ToBE(v, 8) + Zeros(23)
    case AccumulatorField(epoch, v, _) => ToBE(epoch, 8) + ToBE(v, 8) + Zeros(15)
    case DelegatorField(v, a, _) => ToBE(v, 8) + ToBE(a, 20) + Zeros(3)
    case WithdrawalField(v, a, wid, _) => ToBE(v, 8) + ToBE(a, 20) + [wid % 256] + Zeros(2)
  }

  /** What is added to the number in the buffer. */
  function Offset(f: Field): nat {
    match f
    case Global(slot) => slot
    case ArrayLength(_) => 0
    case ArrayCell(_, index) => 1 + index
    case ConsensusView(_, slot) => slot
    case SnapshotView(_, slot) => slot
    case SecpId(_) => 0
    case BlsId(_) => 0
    case Bucket(_) => 0
    case ValidatorField(_, slot) => slot
    case AccumulatorField(_, _, slot) => slot
    case DelegatorField(_, _, slot) => slot
    case WithdrawalField(_, _, _, slot) => slot
  }

  function Key(f: Field): nat {
    FromBE([Namespace(f)] + Body(f)) + Offset(f)
  }

  /** The key as 32 bytes: the offset never carries into the fields before it. */
  function KeyBytes(f: Field): (r: Bytes)
    ensures |r| == 32
  {
    match f
    case ArrayCell(_, index) => [Namespace(f)] + Zeros(23) + ToBE(1 + index, 8)
    case _ => [Namespace(f)] + Body(f)[..30] + [Offset(f) % 256]
  }

  // ----- no carry ------------------------------------------------------------------

  lemma ShiftByte(x: nat, p: nat, y: nat, last: nat)
    ensures (x * p + y) * 256 + last == x * (256 * p) + (y * 256 + last)
  {
    assert x * p * 256 == x * (256 * p);
  }

  lemma {:induction false} FromBEConcat(s: Bytes, t: Bytes)
    ensures FromBE(s + t) == FromBE(s) * Pow256(|t|) + FromBE(t)
    decreases |t|
  {
    if t == [] {
      assert s + t == s;
    } else {
      var init, last := t[..|t| - 1], t[|t| - 1];
      assert (s + t)[..|s + t| - 1] == s + init;
      FromBEConcat(s, init);
      ShiftByte(FromBE(s), Pow256(|init|), FromBE(init), last);
    }
  }

  lemma {:induction false} FromBEZeros(k: nat)
    ensures FromBE(Zeros(k)) == 0
  {
    if k > 0 {
      assert Zeros(k)[..k - 1] == Zeros(k - 1);
      FromBEZeros(k - 1);
    }
  }

  /** Adding a small number to a buffer that ends in zeros writes it there. */
  lemma NoCarry(s: Bytes, k: nat, n: nat)
    requires n < Pow256(k)
    ensures FromBE(s + Zeros(k)) + n == FromBE(s + ToBE(n, k))
  {
    FromBEConcat(s, Zeros(k));
    FromBEConcat(s, ToBE(n, k));
    FromBEZeros(k);
    FromToBE(n, k);
  }

  lemma OneByte(n: Byte)
    ensures ToBE(n, 1) == [n] && Pow256(1) == 256
  {
    assert ToBE(n, 1) == ToBE(n / 256, 0) + [n % 256];
  }

  lemma BodyEndsInZero(f: Field)
    requires !f.ArrayCell?
    ensures |Body(f)| == 31 && Body(f) == Body(f)[..30] + Zeros(1)
  {
    assert Body(f)[30] == 0;
  }

  lemma CellSpelled(f: Field)
    requires Used(f) && f.ArrayCell?
    ensures Key(f) == FromBE(KeyBytes(f))
  {
    assert [Namespace(f)] + Body(f) == [Namespace(f)] + Zeros(23) + Zeros(8);
    U64Fits(1 + f.index);
    NoCarry([Namespace(f)] + Zeros(23), 8, 1 + f.index);
  }

  lemma SlotSpelled(f: Field, s: Bytes, offset: nat)
    requires !f.ArrayCell? && offset == Offset(f) < 256 && s == [Namespace(f)] + Body(f)[..30]
    ensures Key(f) == FromBE(s + [offset])
  {
    BodyEndsInZero(f);
    assert [Namespace(f)] + Body(f) == s + Zeros(1);
    OneByte(offset);
    NoCarry(s, 1, offset);
  }

  lemma OffsetSmall(f: Field)
    requires Used(f) && !f.ArrayCell?
    ensures Offset(f) < 256
  {}

  lemma SlotKeySpelled(f: Field)
    requires !f.ArrayCell? && Offset(f) < 256
    ensures Key(f) == FromBE(KeyBytes(f))
  {
    SlotSpelled(f, [Namespace(f)] + Body(f)[..30], Offset(f));
  }

  /** The number a key builder returns spells the key byte by byte. */
  lemma KeySpelled(f: Field)
    requires Used(f)
    ensures Key(f) == FromBE(KeyBytes(f))
  {
    if f.ArrayCell? {
      CellSpelled(f);
    } else {
      OffsetSmall(f);
      SlotKeySpelled(f);
    }
  }

  // ----- keys are distinct -----------------------------------------------------------

  function Part(s: Bytes, at: nat, k: nat): nat
    requires at + k <= |s|
  {
    FromBE(s[at..at + k])
  }

  lemma PartIs(s: Bytes, at: nat, k: nat, n: nat)
    requires at + k <= |s| && FromBE(ToBE(n, k)) == n && s[at..at + k] == ToBE(n, k)
    ensures Part(s, at, k) == n
  {}

  lemma Middle(p: Bytes, x: Bytes, q: Bytes)
    ensures (p + x + q)[|p|..|p| + |x|] == x
  {}

  lemma PartOfMiddle(x: Byte, body: Bytes, y: Byte, at: nat, k: nat)
    requires at + k <= |body|
    ensures ([x] + body + [y])[at + 1..at + 1 + k] == body[at..at + k]
  {}

  /** The key shows the body, one byte to the right. */
  lemma BodyShows(f: Field, at: nat, k: nat)
    requires !f.ArrayCell? && at + k <= 30
    ensures KeyBytes(f)[at + 1..at + 1 + k] == Body(f)[at..at + k]
  {
    PartOfMiddle(Namespace(f), Body(f)[..30], Offset(f) % 256, at, k);
    assert Body(f)[..30][at..at + k] == Body(f)[at..at + k];
  }

  /** A number at the start of the body. */
  lemma ReadFirst(f: Field, n: nat, k: nat, rest: Bytes)
    requires !f.ArrayCell? && k <= 30 && FromBE(ToBE(n, k)) == n && Body(f) == ToBE(n, k) + rest
    ensures Part(KeyBytes(f), 1, k) == n
  {
    BodyShows(f, 0, k);
    assert Body(f)[0..k] == ToBE(n, k);
    PartIs(KeyBytes(f), 1, k, n);
  }

  /** A number after `first`. */
  lemma ReadSecond(f: Field, first: Bytes, n: nat, k: nat, rest: Bytes)
    requires !f.ArrayCell? && |first| + k <= 30 && FromBE(ToBE(n, k)) == n
    requires Body(f) == first + ToBE(n, k) + rest
    ensures Part(KeyBytes(f), |first| + 1, k) == n
  {
    BodyShows(f, |first|, k);
    Middle(first, ToBE(n, k), rest);
    PartIs(KeyBytes(f), |first| + 1, k, n);
  }

  lemma ReadAccumulator(f: Field)
    requires f.AccumulatorField? && Used(f)
    ensures Part(KeyBytes(f), 1, 8) == f.epoch && Part(KeyBytes(f), 9, 8) == f.v
  {
    FromToU64(f.epoch);
    FromToU64(f.v);
    var first, second := ToBE(f.epoch, 8), ToBE(f.v, 8);
    assert first + second + Zeros(15) == first + (second + Zeros(15));
    ReadFirst(f, f.epoch, 8, second + Zeros(15));
    ReadSecond(f, first, f.v, 8, Zeros(15));
  }

  lemma ReadDelegator(f: Field)
    requires f.DelegatorField? && Used(f)
    ensures Part(KeyBytes(f), 1, 8) == f.v && Part(KeyBytes(f), 9, 20) == f.a
  {
    FromToU64(f.v);
    FromToAddress(f.a);
    var first, second := ToBE(f.v, 8), ToBE(f.a, 20);
    assert first + second + Zeros(3) == first + (second + Zeros(3));
    ReadFirst(f, f.v, 8, second + Zeros(3));
    ReadSecond(f, first, f.a, 20, Zeros(3));
  }

  lemma ReadWithdrawal(f: Field)
    requires f.WithdrawalField? && Used(f)
    ensures Part(KeyBytes(f), 1, 8) == f.v && Part(KeyBytes(f), 9, 20) == f.a && Part(KeyBytes(f), 29, 1) == f.wid
  {
    FromToU64(f.v);
    FromToAddress(f.a);
    var first, second, third := ToBE(f.v, 8), ToBE(f.a, 20), ToBE(f.wid, 1);
    OneByte(f.wid);
    assert first + second + third + Zeros(2) == first + (second + third + Zeros(2));
    assert first + second + third + Zeros(2) == first + second + (third + Zeros(2));
    ReadFirst(f, f.v, 8, second + third + Zeros(2));
    ReadSecond(f, first, f.a, 20, third + Zeros(2));
    ReadSecond(f, first + second, f.wid, 1, Zeros(2));
  }

  lemma ZeroTail(namespace: Byte)
    ensures ([namespace] + Zeros(31)[..30] + [0])[24..32] == Zeros(8)
  {
    var s := [namespace] + Zeros(31)[..30] + [0];
    forall i | 0 <= i < 8
      ensures s[24..32][i] == 0
    {
      assert s[24..32][i] == s[24 + i];
    }
  }

  /** Where the cells of an array lie; the length comes before the first. */
  lemma ReadArray(f: Field)
    requires (f.ArrayLength? || f.ArrayCell?) && Used(f)
    ensures Part(KeyBytes(f), 24, 8) == if f.ArrayLength? then 0 else 1 + f.index
  {
    if f.ArrayLength? {
      ZeroTail(Namespace(f));
      FromBEZeros(8);
    } else {
      var before := [Namespace(f)] + Zeros(23);
      assert KeyBytes(f) == before + ToBE(1 + f.index, 8);
      assert (before + ToBE(1 + f.index, 8))[24..32] == ToBE(1 + f.index, 8);
      FromToU64(1 + f.index);
      PartIs(KeyBytes(f), 24, 8, 1 + f.index);
    }
  }

  lemma EndBytes(f: Field)
    requires Used(f)
    ensures KeyBytes(f)[0] == Namespace(f)
    ensures !f.ArrayCell? ==> KeyBytes(f)[31] == Offset(f)
  {}

  lemma SameKeyBytes(f: Field, g: Field)
    requires Used(f) && Used(g) && Key(f) == Key(g)
    ensures KeyBytes(f) == KeyBytes(g)
  {
    KeySpelled(f);
    KeySpelled(g);
    FromBEInjective(KeyBytes(f), KeyBytes(g));
  }

  lemma SameEnds(f: Field, g: Field)
    requires Used(f) && Used(g) && Key(f) == Key(g)
    ensures Namespace(f) == Namespace(g)
    ensures !f.ArrayCell? && !g.ArrayCell? ==> Offset(f) == Offset(g)
  {
    SameKeyBytes(f, g);
    EndBytes(f);
    EndBytes(g);
  }

  /** The namespace tells the kind of field, except the length of an array from its cells. */
  predicate SameKind(f: Field, g: Field) {
    match f
    case Global(_) => g.Global?
    case ArrayLength(which) => (g.ArrayLength? || g.ArrayCell?) && g.which == which
    case ArrayCell(which, _) => (g.ArrayLength? || g.ArrayCell?) && g.which == which
    case ConsensusView(_, _) => g.ConsensusView?
    case SnapshotView(_, _) => g.SnapshotView?
    case SecpId(_) => g.SecpId?
    case BlsId(_) => g.BlsId?
    case Bucket(_) => g.Bucket?
    case ValidatorField(_, _) => g.ValidatorField?
    case AccumulatorField(_, _, _) => g.AccumulatorField?
    case DelegatorField(_, _, _) => g.DelegatorField?
    case WithdrawalField(_, _, _, _) => g.WithdrawalField?
  }

  lemma NamespaceTellsKind(f: Field, g: Field)
    requires Namespace(f) == Namespace(g)
    ensures SameKind(f, g)
  {}

  lemma KeyTellsFirst(f: Field, g: Field, m: nat, n: nat, k: nat, rest: Bytes)
    requires Used(f) && Used(g) && Key(f) == Key(g) && !f.ArrayCell? && !g.ArrayCell? && k <= 30
    requires FromBE(ToBE(m, k)) == m && FromBE(ToBE(n, k)) == n
    requires Body(f) == ToBE(m, k) + rest && Body(g) == ToBE(n, k) + rest
    ensures m == n
  {
    SameKeyBytes(f, g);
    ReadFirst(f, m, k, rest);
    ReadFirst(g, n, k, rest);
  }

  lemma KeyTellsView(f: Field, g: Field)
    requires Used(f) && Used(g) && Key(f) == Key(g) && SameKind(f, g) && Offset(f) == Offset(g)
    requires f.ConsensusView? || f.SnapshotView? || f.ValidatorField?
    ensures f == g
  {
    FromToU64(f.v);
    FromToU64(g.v);
    KeyTellsFirst(f, g, f.v, g.v, 8, Zeros(23));
  }

  lemma KeyTellsSecp(f: Field, g: Field)
    requires Used(f) && Used(g) && Key(f) == Key(g) && f.SecpId? && g.SecpId?
    ensures f == g
  {
    FromToAddress(f.a);
    FromToAddress(g.a);
    KeyTellsFirst(f, g, f.a, g.a, 20, Zeros(11));
  }

  lemma KeyTellsBls(f: Field, g: Field)
    requires Used(f) && Used(g) && Key(f) == Key(g) && f.BlsId? && g.BlsId?
    ensures f == g
  {
    FromToAddress(f.a);
    FromToAddress(g.a);
    KeyTellsFirst(f, g, f.a, g.a, 20, Zeros(11));
  }

  lemma KeyTellsBucket(f: Field, g: Field)
    requires Used(f) && Used(g) && Key(f) == Key(g) && SameKind(f, g) && f.Bucket?
    ensures f == g
  {
    FromToU64(f.bucket);
    FromToU64(g.bucket);
    KeyTellsFirst(f, g, f.bucket, g.bucket, 8, Zeros(23));
  }

  lemma KeyTellsArray(f: Field, g: Field)
    requires Used(f) && Used(g) && Key(f) == Key(g) && SameKind(f, g) && (f.ArrayLength? || f.ArrayCell?)
    ensures f == g
  {
    SameKeyBytes(f, g);
    ReadArray(f);
    ReadArray(g);
  }

  lemma KeyTellsRecord(f: Field, g: Field)
    requires Used(f) && Used(g) && Key(f) == Key(g) && SameKind(f, g) && Offset(f) == Offset(g)
    requires f.AccumulatorField? || f.DelegatorField? || f.WithdrawalField?
    ensures f == g
  {
    SameKeyBytes(f, g);
    if f.AccumulatorField? {
      ReadAccumulator(f);
      ReadAccumulator(g);
    } else if f.DelegatorField? {
      ReadDelegator(f);
      ReadDelegator(g);
    } else {
      ReadWithdrawal(f);
      ReadWithdrawal(g);
    }
  }

  /** Distinct fields of the contract never share a storage key. */
  lemma KeysDistinct(f: Field, g: Field)
    requires Used(f) && Used(g) && Key(f) == Key(g)
    ensures f == g
  {
    SameEnds(f, g);
    NamespaceTellsKind(f, g);
    match f
    case Global(_) =>
    case ArrayLength(_) => KeyTellsArray(f, g);
    case ArrayCell(_, _) => KeyTellsArray(f, g);
    case SecpId(_) => KeyTellsSecp(f, g);
    case BlsId(_) => KeyTellsBls(f, g);
    case Bucket(_) => KeyTellsBucket(f, g);
    case ConsensusView(_, _) => KeyTellsView(f, g);
    case SnapshotView(_, _) => KeyTellsView(f, g);
    case ValidatorField(_, _) => KeyTellsView(f, g);
    case _ => KeyTellsRecord(f, g);
  }

  // ----- packed words ---------------------------------------------------------------

  predicate NodeFits(n: ListNode) {
    U64(n.inext) && U64(n.iprev) && Address20(n.anext) && Address20(n.aprev)
  }

  /** `to_slots`: the next address straddles the two words. */
  function ToSlots(n: ListNode): (r: (Bytes, Bytes))
    ensures |r.0| == 32 && |r.1| == 32
  {
    (ToBE(n.inext, 8) + ToBE(n.iprev, 8) + ToBE(n.anext, 20)[..16],
     ToBE(n.anext, 20)[16..] + ToBE(n.aprev, 20) + Zeros(8))
  }

  /** `from_slots`. */
  function FromSlots(slot6: Bytes, slot7: Bytes): ListNode
    requires |slot6| == 32 && |slot7| == 32
  {
    ListNode(FromBE(slot6[0..8]), FromBE(slot6[8..16]), FromBE(slot6[16..32] + slot7[..4]), FromBE(slot7[4..24]))
  }

  lemma ListNodeRoundTrip(n: ListNode)
    requires NodeFits(n)
    ensures FromSlots(ToSlots(n).0, ToSlots(n).1) == n
  {
    var (slot6, slot7) := ToSlots(n);
    assert slot6[0..8] == ToBE(n.inext, 8);
    assert slot6[8..16] == ToBE(n.iprev, 8);
    assert slot6[16..32] + slot7[..4] == ToBE(n.anext, 20);
    assert slot7[4..24] == ToBE(n.aprev, 20);
    FromToU64(n.inext);
    FromToU64(n.iprev);
    FromToAddress(n.anext);
    FromToAddress(n.aprev);
  }

  /** A word with `n` in its first eight bytes, as every stored `u64` is. */
  function PackU64(n: nat): (r: Bytes)
    ensures |r| == 32
  {
    ToBE(n, 8) + Zeros(24)
  }

  function UnpackU64(word: Bytes): nat
    requires |word| == 32
  {
    FromBE(word[0..8])
  }

  lemma U64RoundTrip(n: nat)
    requires U64(n)
    ensures UnpackU64(PackU64(n)) == n
  {
    assert PackU64(n)[0..8] == ToBE(n, 8);
    FromToU64(n);
  }

  /** The two window epochs of a delegator. */
  function PackEpochs(delta: nat, nextDelta: nat): (r: Bytes)
    ensures |r| == 32
  {
    ToBE(delta, 8) + ToBE(nextDelta, 8) + Zeros(16)
  }

  function UnpackEpochs(word: Bytes): (nat, nat)
    requires |word| == 32
  {
    (FromBE(word[0..8]), FromBE(word[8..16]))
  }

  lemma EpochsRoundTrip(delta: nat, nextDelta: nat)
    requires U64(delta) && U64(nextDelta)
    ensures UnpackEpochs(PackEpochs(delta, nextDelta)) == (delta, nextDelta)
  {
    var word := PackEpochs(delta, nextDelta);
    assert word[0..8] == ToBE(delta, 8) && word[8..16] == ToBE(nextDelta, 8);
    FromToU64(delta);
    FromToU64(nextDelta);
  }

  /** The auth address of a validator and its flags. */
  function PackAuth(auth: nat, flags: nat): (r: Bytes)
    ensures |r| == 32
  {
    ToBE(auth, 20) + ToBE(flags, 8) + Zeros(4)
  }

  function UnpackAuth(word: Bytes): (nat, nat)
    requires |word| == 32
  {
    (FromBE(word[0..20]), FromBE(word[20..28]))
  }

  lemma AuthRoundTrip(auth: nat, flags: nat)
    requires Address20(auth) && U64(flags)
    ensures UnpackAuth(PackAuth(auth, flags)) == (auth, flags)
  {
    var word := PackAuth(auth, flags);
    assert word[0..20] == ToBE(auth, 20) && word[20..28] == ToBE(flags, 8);
    FromToAddress(auth);
    FromToU64(flags);
  }

  /** The two public keys of a validator share three words. */
  function PackKeys(secp: Bytes, bls: Bytes): (r: (Bytes, Bytes, Bytes))
    requires |secp| == 33 && |bls| == 48
    ensures |r.0| == 32 && |r.1| == 32 && |r.2| == 32
  {
    var all := secp + bls + Zeros(15);
    (all[0..32], all[32..64], all[64..96])
  }

  function UnpackKeys(w0: Bytes, w1: Bytes, w2: Bytes): (Bytes, Bytes)
    requires |w0| == 32 && |w1| == 32 && |w2| == 32
  {
    var all := w0 + w1 + w2;
    (all[0..33], all[33..81])
  }

  lemma KeysRoundTrip(secp: Bytes, bls: Bytes)
    requires |secp| == 33 && |bls| == 48
    ensures var w := PackKeys(secp, bls); UnpackKeys(w.0, w.1, w.2) == (secp, bls)
  {
    var all := secp + bls + Zeros(15);
    var w := PackKeys(secp, bls);
    assert w.0 + w.1 + w.2 == all;
    assert all[0..33] == secp;
    Middle(secp, bls, Zeros(15));
  }
}
