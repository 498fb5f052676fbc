/** The key builders as they run: a zeroed buffer, filled in place, read as a number. */
module StorageKeys {
  import opened TwinLists
  import opened StorageLayout

  /** `copy_from_slice` into the buffer at `at`. */
  method PutBytes(buf: array<Byte>, at: nat, bytes: Bytes)
    requires at + |bytes| <= buf.Length
    modifies buf
    ensures buf[..] == old(buf[..at]) + bytes + old(buf[at + |bytes|..])
  {
    for i := 0 to |bytes|
      modifies buf
      invariant buf[..at] == old(buf[..at])
      invariant buf[at..at + i] == bytes[..i]
      invariant buf[at + |bytes|..] == old(buf[at + |bytes|..])
    {
      buf[at + i] := bytes[i];
      assert buf[at..at + i + 1] == buf[at..at + i] + [buf[at + i]];
      assert bytes[..i + 1] == bytes[..i] + [bytes[i]];
    }
    assert buf[..] == buf[..at] + buf[at..at + |bytes|] + buf[at + |bytes|..];
  }

  /** Copies the `k` big-endian bytes of `n` into the buffer at `at`. */
  method Put(buf: array<Byte>, at: nat, n: nat, k: nat)
    requires at + k <= buf.Length
    modifies buf
    ensures buf[..] == old(buf[..at]) + ToBE(n, k) + old(buf[at + k..])
  {
    PutBytes(buf, at, ToBE(n, k));
  }

  /** Filling the buffer from the front leaves zeros behind. */
  lemma FirstPut(namespace: Byte, x: Bytes)
    requires |x| <= 31
    ensures var b := [namespace] + Zeros(31);
            b[..1] + x + b[1 + |x|..] == [namespace] + (x + Zeros(31 - |x|))
  {
    var b := [namespace] + Zeros(31);
    assert b[..1] == [namespace];
    assert b[1 + |x|..] == Zeros(31 - |x|);
    assert [namespace] + x + Zeros(31 - |x|) == [namespace] + (x + Zeros(31 - |x|));
  }

  lemma NextPut(namespace: Byte, x: Bytes, y: Bytes)
    requires |x| + |y| <= 31
    ensures var b := [namespace] + (x + Zeros(31 - |x|));
            b[..1 + |x|] + y + b[1 + |x| + |y|..] == [namespace] + (x + y + Zeros(31 - |x| - |y|))
  {
    var b := [namespace] + (x + Zeros(31 - |x|));
    assert b[..1 + |x|] == [namespace] + x;
    assert b[1 + |x| + |y|..] == Zeros(31 - |x| - |y|);
    var rest := Zeros(31 - |x| - |y|);
    assert [namespace] + x + y + rest == [namespace] + (x + y + rest);
  }

  /** A 32-byte buffer that holds nothing but the namespace. */
  method NewKey(namespace: Byte) returns (buf: array<Byte>)
    ensures fresh(buf) && buf.Length == 32 && buf[..] == [namespace] + Zeros(31)
  {
    buf := new Byte[32](_ => 0);
    buf[0] := namespace;
  }

  method NumberKey(namespace: Byte, n: nat, slot: nat) returns (r: nat)
    ensures r == FromBE([namespace] + (ToBE(n, 8) + Zeros(23))) + slot
  {
    var key := NewKey(namespace);
    FirstPut(namespace, ToBE(n, 8));
    Put(key, 1, n, 8);
    r := FromBE(key[..]) + slot;
  }

  method AddressKey(namespace: Byte, a: nat) returns (r: nat)
    ensures r == FromBE([namespace] + (ToBE(a, 20) + Zeros(11)))
  {
    var key := NewKey(namespace);
    FirstPut(namespace, ToBE(a, 20));
    Put(key, 1, a, 20);
    r := FromBE(key[..]);
  }

  method ValidatorKey(v: nat, slot: nat) returns (r: nat)
    ensures r == Key(ValidatorField(v, slot))
  {
    r := NumberKey(0x09, v, slot);
  }

  method ConsensusViewKey(v: nat, slot: nat) returns (r: nat)
    ensures r == Key(ConsensusView(v, slot))
  {
    r := NumberKey(0x04, v, slot);
  }

  method SnapshotViewKey(v: nat, slot: nat) returns (r: nat)
    ensures r == Key(SnapshotView(v, slot))
  {
    r := NumberKey(0x05, v, slot);
  }

  method ValIdSecpKey(a: nat) returns (r: nat)
    ensures r == Key(SecpId(a))
  {
    r := AddressKey(0x06, a);
  }

  method ValIdBlsKey(a: nat) returns (r: nat)
    ensures r == Key(BlsId(a))
  {
    r := AddressKey(0x07, a);
  }

  /** The bucket of validator `v` is its id without the last byte. */
  method BitsetBucketKey(v: nat) returns (r: nat)
    ensures r == Key(Bucket(v / 256))
  {
    r := NumberKey(0x08, v / 256, 0);
  }

  method AccumulatorKey(epoch: nat, v: nat, slot: nat) returns (r: nat)
    ensures r == Key(AccumulatorField(epoch, v, slot))
  {
    var key := NewKey(0x0A);
    FirstPut(0x0A, ToBE(epoch, 8));
    Put(key, 1, epoch, 8);
    NextPut(0x0A, ToBE(epoch, 8), ToBE(v, 8));
    Put(key, 9, v, 8);
    r := FromBE(key[..]) + slot;
  }

  method RecordKey(namespace: Byte, v: nat, a: nat) returns (buf: array<Byte>)
    ensures fresh(buf) && buf.Length == 32
    ensures buf[..] == [namespace] + (ToBE(v, 8) + ToBE(a, 20) + Zeros(3))
  {
    buf := NewKey(namespace);
    FirstPut(namespace, ToBE(v, 8));
    Put(buf, 1, v, 8);
    NextPut(namespace, ToBE(v, 8), ToBE(a, 20));
    Put(buf, 9, a, 20);
  }

  method DelegatorKey(v: nat, a: nat, slot: nat) returns (r: nat)
    ensures r == Key(DelegatorField(v, a, slot))
  {
    var key := RecordKey(0x0B, v, a);
    r := FromBE(key[..]) + slot;
  }

  lemma WithByte29(namespace: Byte, record: Bytes, wid: Byte)
    requires |record| == 28
    ensures ([namespace] + (record + Zeros(3)))[29 := wid] == [namespace] + (record + [wid] + Zeros(2))
  {}

  method WithdrawalKey(v: nat, a: nat, wid: Byte, slot: nat) returns (r: nat)
    ensures r == Key(WithdrawalField(v, a, wid, slot))
  {
    var key := RecordKey(0x0C, v, a);
    ghost var before := key[..];
    key[29] := wid;
    assert key[..] == before[29 := wid];
    WithByte29(0x0C, ToBE(v, 8) + ToBE(a, 20), wid);
    r := FromBE(key[..]) + slot;
  }

  // ----- packed words ------------------------------------------------------------

  method FirstNodeWord(n: ListNode) returns (slot6: array<Byte>)
    ensures fresh(slot6) && slot6[..] == ToSlots(n).0
  {
    slot6 := new Byte[32](_ => 0);
    Put(slot6, 0, n.inext, 8);
    Put(slot6, 8, n.iprev, 8);
    PutBytes(slot6, 16, ToBE(n.anext, 20)[..16]);
    assert slot6[..] == ToBE(n.inext, 8) + ToBE(n.iprev, 8) + ToBE(n.anext, 20)[..16];
  }

  method SecondNodeWord(n: ListNode) returns (slot7: array<Byte>)
    ensures fresh(slot7) && slot7[..] == ToSlots(n).1
  {
    slot7 := new Byte[32](_ => 0);
    PutBytes(slot7, 0, ToBE(n.anext, 20)[16..]);
    Put(slot7, 4, n.aprev, 20);
    assert slot7[..] == ToBE(n.anext, 20)[16..] + ToBE(n.aprev, 20) + Zeros(8);
  }

  /** `to_slots`: the two words of a list node. */
  method NodeWords(n: ListNode) returns (slot6: Bytes, slot7: Bytes)
    ensures (slot6, slot7) == ToSlots(n)
  {
    var first := FirstNodeWord(n);
    var second := SecondNodeWord(n);
    slot6, slot7 := first[..], second[..];
  }

  /** A zeroed word. */
  method NewWord() returns (buf: array<Byte>)
    ensures fresh(buf) && buf.Length == 32 && buf[..] == Zeros(32)
  {
    buf := new Byte[32](_ => 0);
  }

  /** `write_storage_u64`: the number comes first in its word. */
  method NumberWord(n: nat) returns (word: Bytes)
    ensures word == PackU64(n)
  {
    var buf := NewWord();
    Put(buf, 0, n, 8);
    word := buf[..];
    assert word == PackU64(n);
  }

  method EpochsWord(delta: nat, nextDelta: nat) returns (word: Bytes)
    ensures word == PackEpochs(delta, nextDelta)
  {
    var buf := NewWord();
    Put(buf, 0, delta, 8);
    Put(buf, 8, nextDelta, 8);
    word := buf[..];
    assert word == PackEpochs(delta, nextDelta);
  }

  method AuthWord(auth: nat, flags: nat) returns (word: Bytes)
    ensures word == PackAuth(auth, flags)
  {
    var buf := NewWord();
    Put(buf, 0, auth, 20);
    Put(buf, 20, flags, 8);
    word := buf[..];
    assert word == PackAuth(auth, flags);
  }

  /** The two keys in one buffer of three words. */
  method KeyWords(secp: Bytes, bls: Bytes) returns (w0: Bytes, w1: Bytes, w2: Bytes)
    requires |secp| == 33 && |bls| == 48
    ensures (w0, w1, w2) == PackKeys(secp, bls)
  {
    var buf := new Byte[96](_ => 0);
    PutBytes(buf, 0, secp);
    PutBytes(buf, 33, bls);
    assert buf[..] == secp + bls + Zeros(15);
    w0, w1, w2 := buf[0..32], buf[32..64], buf[64..96];
  }
}
