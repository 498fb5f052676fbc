/**
 * The two intrusive doubly linked lists that share one node per (validator,
 * delegator): the delegators of a validator and the validators of a delegator.
 */
module TwinLists {
  import opened Checked
  import opened Ledger

  // ----- what the lists hold ----------------------------------------------

  datatype Lists = Lists(delegatorsOf: map<ValId, seq<Address>>, validatorsOf: map<Address, seq<ValId>>)

  const NO_LISTS: Lists := Lists(map[], map[])

  function ListOf(m: map<nat, seq<nat>>, k: nat): seq<nat> {
    if k in m then m[k] else []
  }

  function Prepend(s: seq<nat>, x: nat): seq<nat> {
    if x in s then s else [x] + s
  }

  function Without(s: seq<nat>, x: nat): (r: seq<nat>)
    ensures x !in s ==> r == s
    ensures forall y :: y in r ==> y in s
  {
    if s == [] then []
    else if s[0] == x then s[1..]
    else [s[0]] + Without(s[1..], x)
  }

  /** Neither end may be the zero that ends a list or the sentinel that starts one. */
  predicate Listable(v: ValId, a: Address) {
    a != ZERO_ADDRESS && a != SENTINEL_ADDRESS && v != 0 && v != SENTINEL_VAL_ID
  }

  function Insert(l: Lists, v: ValId, a: Address): Result<Lists> {
    if !Listable(v, a) then Err(InvalidInput)
    else Ok(Lists(l.delegatorsOf[v := Prepend(ListOf(l.delegatorsOf, v), a)],
                  l.validatorsOf[a := Prepend(ListOf(l.validatorsOf, a), v)]))
  }

  function Remove(l: Lists, v: ValId, a: Address): Lists {
    Lists(l.delegatorsOf[v := Without(ListOf(l.delegatorsOf, v), a)],
          l.validatorsOf[a := Without(ListOf(l.validatorsOf, a), v)])
  }

  predicate Distinct(s: seq<nat>) {
    forall i, j :: 0 <= i < j < |s| ==> s[i] != s[j]
  }

  lemma DistinctTail(s: seq<nat>)
    requires Distinct(s) && s != []
    ensures Distinct(s[1..]) && s[0] !in s[1..]
    ensures forall y :: y in s <==> y == s[0] || y in s[1..]
  {
    assert s == [s[0]] + s[1..];
  }

  /** Removing takes out the one occurrence and leaves the order alone. */
  lemma {:induction false} WithoutSplits(s: seq<nat>, i: nat)
    requires Distinct(s) && i < |s|
    ensures Without(s, s[i]) == s[..i] + s[i + 1..]
  {
    if i > 0 {
      var rest := s[1..];
      DistinctTail(s);
      WithoutSplits(rest, i - 1);
      assert rest[i - 1] == s[i] && s[0] != s[i];
      calc {
        Without(s, s[i]);
        [s[0]] + Without(rest, rest[i - 1]);
        [s[0]] + (rest[..i - 1] + rest[i..]);
        { assert s[..i] == [s[0]] + rest[..i - 1] && s[i + 1..] == rest[i..]; }
        s[..i] + s[i + 1..];
      }
    }
  }

  lemma {:induction false} WithoutKeeps(s: seq<nat>, x: nat)
    requires Distinct(s)
    ensures Distinct(Without(s, x))
    ensures forall y :: y in Without(s, x) <==> y in s && y != x
  {
    if s != [] {
      DistinctTail(s);
      if s[0] != x {
        WithoutKeeps(s[1..], x);
      }
    }
  }

  // ----- chains -----------------------------------------------------------

  /**
   * `next` and `prev` spell the list `s`: it hangs off the sentinel, ends in
   * zero, is doubly linked, and whoever is not in it has no predecessor.
   */
  ghost predicate Chain(next: nat -> nat, prev: nat -> nat, sentinel: nat, s: seq<nat>) {
    && Distinct(s)
    && next(sentinel) == (if s == [] then 0 else s[0])
    && (forall i :: 0 <= i < |s| ==> Linked(next, prev, sentinel, s, i))
    && (forall x: nat :: x !in s ==> prev(x) == 0)
  }

  predicate Linked(next: nat -> nat, prev: nat -> nat, sentinel: nat, s: seq<nat>, i: nat)
    requires i < |s|
  {
    && s[i] != 0 && s[i] != sentinel
    && prev(s[i]) == (if i == 0 then sentinel else s[i - 1])
    && next(s[i]) == (if i + 1 < |s| then s[i + 1] else 0)
  }

  lemma ChainMembers(next: nat -> nat, prev: nat -> nat, sentinel: nat, s: seq<nat>, x: nat)
    requires sentinel != 0 && Chain(next, prev, sentinel, s)
    ensures x in s <==> prev(x) != 0
    ensures 0 !in s && sentinel !in s
  {
    forall i | 0 <= i < |s|
      ensures s[i] != 0 && s[i] != sentinel
    {
      assert Linked(next, prev, sentinel, s, i);
    }
    if x in s {
      var i :| 0 <= i < |s| && s[i] == x;
      assert Linked(next, prev, sentinel, s, i);
      if i > 0 {
        assert Linked(next, prev, sentinel, s, i - 1);
      }
    }
  }

  lemma ChainSame(
    next: nat -> nat, prev: nat -> nat, next': nat -> nat, prev': nat -> nat, sentinel: nat, s: seq<nat>)
    requires Chain(next, prev, sentinel, s)
    requires forall x: nat :: next'(x) == next(x) && prev'(x) == prev(x)
    ensures Chain(next', prev', sentinel, s)
  {
    forall i | 0 <= i < |s|
      ensures Linked(next', prev', sentinel, s, i)
    {
      assert Linked(next, prev, sentinel, s, i);
    }
  }

  /** Hanging `x` between the sentinel and the old head. */
  lemma ChainInsert(
    next: nat -> nat, prev: nat -> nat, next': nat -> nat, prev': nat -> nat,
    sentinel: nat, s: seq<nat>, x: nat)
    requires sentinel != 0 && Chain(next, prev, sentinel, s)
    requires x != 0 && x != sentinel && x !in s
    requires forall y: nat :: next'(y) == if y == x then next(sentinel) else if y == sentinel then x else next(y)
    requires forall y: nat ::
               prev'(y) == if y == x then sentinel
                           else if y != 0 && y == next(sentinel) then x else prev(y)
    ensures Chain(next', prev', sentinel, [x] + s)
  {
    var t := [x] + s;
    ChainMembers(next, prev, sentinel, s, x);
    forall i | 0 <= i < |t|
      ensures Linked(next', prev', sentinel, t, i)
    {
      if i > 0 {
        assert Linked(next, prev, sentinel, s, i - 1);
        assert s[i - 1] in s;
      }
    }
  }

  lemma OthersStay(s: seq<nat>, k: nat, x: nat)
    requires k < |s| && x in s
    ensures x == s[k] || x in s[..k] + s[k + 1..]
  {
    assert s == s[..k] + [s[k]] + s[k + 1..];
  }

  /** Closing the gap around the entry at position `k`. */
  lemma ChainRemove(
    next: nat -> nat, prev: nat -> nat, next': nat -> nat, prev': nat -> nat,
    sentinel: nat, s: seq<nat>, k: nat)
    requires sentinel != 0 && Chain(next, prev, sentinel, s) && k < |s|
    requires forall y: nat ::
               next'(y) == if y == s[k] then 0 else if y == prev(s[k]) then next(s[k]) else next(y)
    requires forall y: nat ::
               prev'(y) == if y == s[k] then 0
                           else if y != 0 && y == next(s[k]) then prev(s[k]) else prev(y)
    ensures Chain(next', prev', sentinel, s[..k] + s[k + 1..])
  {
    var t := s[..k] + s[k + 1..];
    assert Linked(next, prev, sentinel, s, k);
    ChainMembers(next, prev, sentinel, s, s[k]);
    forall i | 0 <= i < |t|
      ensures Linked(next', prev', sentinel, t, i)
    {
      var j := if i < k then i else i + 1;
      assert t[i] == s[j] && Linked(next, prev, sentinel, s, j);
      if k > 0 {
        assert Linked(next, prev, sentinel, s, k - 1);
      }
      if k + 1 < |s| {
        assert Linked(next, prev, sentinel, s, k + 1);
      }
    }
    forall x: nat | x !in t
      ensures prev'(x) == 0
    {
      if x in s {
        OthersStay(s, k, x);
      } else if k + 1 < |s| {
        assert s[k + 1] in s;
      }
    }
  }

  // ----- nodes ------------------------------------------------------------

  datatype ListNode = ListNode(inext: ValId, iprev: ValId, anext: Address, aprev: Address)

  type Nodes = map<(ValId, Address), ListNode>

  function Node(nodes: Nodes, v: ValId, a: Address): ListNode {
    if (v, a) in nodes then nodes[(v, a)] else ListNode(0, 0, ZERO_ADDRESS, ZERO_ADDRESS)
  }

  ghost function ANext(nodes: Nodes, v: ValId): nat -> nat {
    (a: nat) => Node(nodes, v, a).anext
  }

  ghost function APrev(nodes: Nodes, v: ValId): nat -> nat {
    (a: nat) => Node(nodes, v, a).aprev
  }

  ghost function INext(nodes: Nodes, a: Address): nat -> nat {
    (v: nat) => Node(nodes, v, a).inext
  }

  ghost function IPrev(nodes: Nodes, a: Address): nat -> nat {
    (v: nat) => Node(nodes, v, a).iprev
  }

  ghost predicate AddressLists(nodes: Nodes, m: map<ValId, seq<Address>>) {
    forall v: ValId :: Chain(ANext(nodes, v), APrev(nodes, v), SENTINEL_ADDRESS, ListOf(m, v))
  }

  ghost predicate ValIdLists(nodes: Nodes, m: map<Address, seq<ValId>>) {
    forall a: Address :: Chain(INext(nodes, a), IPrev(nodes, a), SENTINEL_VAL_ID, ListOf(m, a))
  }

  /** Two node maps with the same validator-side pointers. */
  ghost predicate SameIFields(nodes: Nodes, nodes': Nodes) {
    forall v: ValId, a: Address ::
      Node(nodes', v, a).inext == Node(nodes, v, a).inext && Node(nodes', v, a).iprev == Node(nodes, v, a).iprev
  }

  /** Two node maps with the same delegator-side pointers. */
  ghost predicate SameAFields(nodes: Nodes, nodes': Nodes) {
    forall v: ValId, a: Address ::
      Node(nodes', v, a).anext == Node(nodes, v, a).anext && Node(nodes', v, a).aprev == Node(nodes, v, a).aprev
  }

  lemma ValIdListsKept(nodes: Nodes, nodes': Nodes, m: map<Address, seq<ValId>>)
    requires ValIdLists(nodes, m) && SameIFields(nodes, nodes')
    ensures ValIdLists(nodes', m)
  {
    forall a: Address
      ensures Chain(INext(nodes', a), IPrev(nodes', a), SENTINEL_VAL_ID, ListOf(m, a))
    {
      ChainSame(INext(nodes, a), IPrev(nodes, a), INext(nodes', a), IPrev(nodes', a), SENTINEL_VAL_ID, ListOf(m, a));
    }
  }

  lemma AddressListsKept(nodes: Nodes, nodes': Nodes, m: map<ValId, seq<Address>>)
    requires AddressLists(nodes, m) && SameAFields(nodes, nodes')
    ensures AddressLists(nodes', m)
  {
    forall v: ValId
      ensures Chain(ANext(nodes', v), APrev(nodes', v), SENTINEL_ADDRESS, ListOf(m, v))
    {
      ChainSame(ANext(nodes, v), APrev(nodes, v), ANext(nodes', v), APrev(nodes', v), SENTINEL_ADDRESS, ListOf(m, v));
    }
  }
}
