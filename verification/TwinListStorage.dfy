/** The stored list nodes, and the pointer surgery of the handlers. */
module TwinListStorage {
  import opened Checked
  import opened Ledger
  import opened TwinLists

  // ----- what the surgery does to the pointers ------------------------------

  /** The pointers after `a` is hung at the head of the delegator list of `v`. */
  ghost predicate AInserted(nodes: Nodes, nodes': Nodes, v: ValId, a: Address) {
    var head := Node(nodes, v, SENTINEL_ADDRESS).anext;
    && SameIFields(nodes, nodes')
    && (forall u: ValId, b: Address :: u != v ==> Node(nodes', u, b) == Node(nodes, u, b))
    && (forall b: Address ::
          Node(nodes', v, b).anext
          == if b == a then head else if b == SENTINEL_ADDRESS then a else Node(nodes, v, b).anext)
    && (forall b: Address ::
          Node(nodes', v, b).aprev
          == if b == a then SENTINEL_ADDRESS else if b != 0 && b == head then a else Node(nodes, v, b).aprev)
  }

  ghost predicate IInserted(nodes: Nodes, nodes': Nodes, v: ValId, a: Address) {
    var head := Node(nodes, SENTINEL_VAL_ID, a).inext;
    && SameAFields(nodes, nodes')
    && (forall u: ValId, b: Address :: b != a ==> Node(nodes', u, b) == Node(nodes, u, b))
    && (forall u: ValId ::
          Node(nodes', u, a).inext
          == if u == v then head else if u == SENTINEL_VAL_ID then v else Node(nodes, u, a).inext)
    && (forall u: ValId ::
          Node(nodes', u, a).iprev
          == if u == v then SENTINEL_VAL_ID else if u != 0 && u == head then v else Node(nodes, u, a).iprev)
  }

  /** The pointers after the gap around `a` in the delegator list of `v` is closed. */
  ghost predicate ARemoved(nodes: Nodes, nodes': Nodes, v: ValId, a: Address) {
    var n := Node(nodes, v, a);
    && SameIFields(nodes, nodes')
    && (forall u: ValId, b: Address :: u != v ==> Node(nodes', u, b) == Node(nodes, u, b))
    && (forall b: Address ::
          Node(nodes', v, b).anext
          == if b == a then 0 else if b == n.aprev then n.anext else Node(nodes, v, b).anext)
    && (forall b: Address ::
          Node(nodes', v, b).aprev
          == if b == a then 0 else if b != 0 && b == n.anext then n.aprev else Node(nodes, v, b).aprev)
  }

  ghost predicate IRemoved(nodes: Nodes, nodes': Nodes, v: ValId, a: Address) {
    var n := Node(nodes, v, a);
    && SameAFields(nodes, nodes')
    && (forall u: ValId, b: Address :: b != a ==> Node(nodes', u, b) == Node(nodes, u, b))
    && (forall u: ValId ::
          Node(nodes', u, a).inext
          == if u == v then 0 else if u == n.iprev then n.inext else Node(nodes, u, a).inext)
    && (forall u: ValId ::
          Node(nodes', u, a).iprev
          == if u == v then 0 else if u != 0 && u == n.inext then n.iprev else Node(nodes, u, a).iprev)
  }

  // ----- what the lists become ---------------------------------------------

  lemma AInsertedLists(nodes: Nodes, nodes': Nodes, m: map<ValId, seq<Address>>, v: ValId, a: Address)
    requires AddressLists(nodes, m) && AInserted(nodes, nodes', v, a)
    requires a != ZERO_ADDRESS && a != SENTINEL_ADDRESS && a !in ListOf(m, v)
    ensures AddressLists(nodes', m[v := [a] + ListOf(m, v)])
  {
    forall u: ValId
      ensures Chain(ANext(nodes', u), APrev(nodes', u), SENTINEL_ADDRESS, ListOf(m[v := [a] + ListOf(m, v)], u))
    {
      if u == v {
        ChainInsert(ANext(nodes, v), APrev(nodes, v), ANext(nodes', v), APrev(nodes', v),
                    SENTINEL_ADDRESS, ListOf(m, v), a);
      } else {
        ChainSame(ANext(nodes, u), APrev(nodes, u), ANext(nodes', u), APrev(nodes', u),
                  SENTINEL_ADDRESS, ListOf(m, u));
      }
    }
  }

  lemma IInsertedLists(nodes: Nodes, nodes': Nodes, m: map<Address, seq<ValId>>, v: ValId, a: Address)
    requires ValIdLists(nodes, m) && IInserted(nodes, nodes', v, a)
    requires v != 0 && v != SENTINEL_VAL_ID && v !in ListOf(m, a)
    ensures ValIdLists(nodes', m[a := [v] + ListOf(m, a)])
  {
    forall b: Address
      ensures Chain(INext(nodes', b), IPrev(nodes', b), SENTINEL_VAL_ID, ListOf(m[a := [v] + ListOf(m, a)], b))
    {
      if b == a {
        ChainInsert(INext(nodes, a), IPrev(nodes, a), INext(nodes', a), IPrev(nodes', a),
                    SENTINEL_VAL_ID, ListOf(m, a), v);
      } else {
        ChainSame(INext(nodes, b), IPrev(nodes, b), INext(nodes', b), IPrev(nodes', b),
                  SENTINEL_VAL_ID, ListOf(m, b));
      }
    }
  }

  lemma ARemovedLists(nodes: Nodes, nodes': Nodes, m: map<ValId, seq<Address>>, v: ValId, a: Address)
    requires AddressLists(nodes, m) && ARemoved(nodes, nodes', v, a) && a in ListOf(m, v)
    ensures AddressLists(nodes', m[v := Without(ListOf(m, v), a)])
  {
    var s := ListOf(m, v);
    var k :| 0 <= k < |s| && s[k] == a;
    WithoutSplits(s, k);
    forall u: ValId
      ensures Chain(ANext(nodes', u), APrev(nodes', u), SENTINEL_ADDRESS, ListOf(m[v := Without(s, a)], u))
    {
      if u == v {
        ChainRemove(ANext(nodes, v), APrev(nodes, v), ANext(nodes', v), APrev(nodes', v), SENTINEL_ADDRESS, s, k);
      } else {
        ChainSame(ANext(nodes, u), APrev(nodes, u), ANext(nodes', u), APrev(nodes', u),
                  SENTINEL_ADDRESS, ListOf(m, u));
      }
    }
  }

  lemma IRemovedLists(nodes: Nodes, nodes': Nodes, m: map<Address, seq<ValId>>, v: ValId, a: Address)
    requires ValIdLists(nodes, m) && IRemoved(nodes, nodes', v, a) && v in ListOf(m, a)
    ensures ValIdLists(nodes', m[a := Without(ListOf(m, a), v)])
  {
    var s := ListOf(m, a);
    var k :| 0 <= k < |s| && s[k] == v;
    WithoutSplits(s, k);
    forall b: Address
      ensures Chain(INext(nodes', b), IPrev(nodes', b), SENTINEL_VAL_ID, ListOf(m[a := Without(s, v)], b))
    {
      if b == a {
        ChainRemove(INext(nodes, a), IPrev(nodes, a), INext(nodes', a), IPrev(nodes', a), SENTINEL_VAL_ID, s, k);
      } else {
        ChainSame(INext(nodes, b), IPrev(nodes, b), INext(nodes', b), IPrev(nodes', b),
                  SENTINEL_VAL_ID, ListOf(m, b));
      }
    }
  }

  /** A node is in a list iff it has a predecessor there. */
  lemma InAddressList(nodes: Nodes, m: map<ValId, seq<Address>>, v: ValId, a: Address)
    requires AddressLists(nodes, m)
    ensures a in ListOf(m, v) <==> Node(nodes, v, a).aprev != 0
    ensures 0 !in ListOf(m, v) && SENTINEL_ADDRESS !in ListOf(m, v)
  {
    ChainMembers(ANext(nodes, v), APrev(nodes, v), SENTINEL_ADDRESS, ListOf(m, v), a);
  }

  lemma InValIdList(nodes: Nodes, m: map<Address, seq<ValId>>, v: ValId, a: Address)
    requires ValIdLists(nodes, m)
    ensures v in ListOf(m, a) <==> Node(nodes, v, a).iprev != 0
    ensures 0 !in ListOf(m, a) && SENTINEL_VAL_ID !in ListOf(m, a)
  {
    ChainMembers(INext(nodes, a), IPrev(nodes, a), SENTINEL_VAL_ID, ListOf(m, a), v);
  }

  /** An entry, its neighbours and the sentinel are different nodes. */
  lemma Neighbours(next: nat -> nat, prev: nat -> nat, sentinel: nat, s: seq<nat>, x: nat)
    requires sentinel != 0 && Chain(next, prev, sentinel, s) && x in s
    ensures prev(x) != x && next(x) != x && prev(x) != next(x) && prev(x) != 0
  {
    var i :| 0 <= i < |s| && s[i] == x;
    assert Linked(next, prev, sentinel, s, i);
    if i > 0 {
      assert Linked(next, prev, sentinel, s, i - 1);
    }
    if i + 1 < |s| {
      assert Linked(next, prev, sentinel, s, i + 1);
    }
  }

  lemma AddressHead(nodes: Nodes, m: map<ValId, seq<Address>>, v: ValId, a: Address)
    requires AddressLists(nodes, m) && a != 0 && a !in ListOf(m, v)
    ensures Node(nodes, v, SENTINEL_ADDRESS).anext != a
    ensures Node(nodes, v, SENTINEL_ADDRESS).anext != SENTINEL_ADDRESS
  {
    InAddressList(nodes, m, v, a);
    assert ANext(nodes, v)(SENTINEL_ADDRESS) == (if ListOf(m, v) == [] then 0 else ListOf(m, v)[0]);
  }

  lemma ValIdHead(nodes: Nodes, m: map<Address, seq<ValId>>, v: ValId, a: Address)
    requires ValIdLists(nodes, m) && v != 0 && v !in ListOf(m, a)
    ensures Node(nodes, SENTINEL_VAL_ID, a).inext != v
    ensures Node(nodes, SENTINEL_VAL_ID, a).inext != SENTINEL_VAL_ID
  {
    InValIdList(nodes, m, v, a);
    assert INext(nodes, a)(SENTINEL_VAL_ID) == (if ListOf(m, a) == [] then 0 else ListOf(m, a)[0]);
  }

  lemma AddressNeighbours(nodes: Nodes, m: map<ValId, seq<Address>>, v: ValId, a: Address)
    requires AddressLists(nodes, m) && a in ListOf(m, v)
    ensures var n := Node(nodes, v, a); n.aprev != a && n.anext != a && n.aprev != n.anext
  {
    Neighbours(ANext(nodes, v), APrev(nodes, v), SENTINEL_ADDRESS, ListOf(m, v), a);
  }

  lemma ValIdNeighbours(nodes: Nodes, m: map<Address, seq<ValId>>, v: ValId, a: Address)
    requires ValIdLists(nodes, m) && v in ListOf(m, a)
    ensures var n := Node(nodes, v, a); n.iprev != v && n.inext != v && n.iprev != n.inext
  {
    Neighbours(INext(nodes, a), IPrev(nodes, a), SENTINEL_VAL_ID, ListOf(m, a), v);
  }

  /** A list written down again is the same list. */
  lemma AddressListsRestated(nodes: Nodes, m: map<ValId, seq<Address>>, v: ValId)
    requires AddressLists(nodes, m)
    ensures AddressLists(nodes, m[v := ListOf(m, v)])
  {
    assert forall u: ValId :: ListOf(m[v := ListOf(m, v)], u) == ListOf(m, u);
  }

  lemma ValIdListsRestated(nodes: Nodes, m: map<Address, seq<ValId>>, a: Address)
    requires ValIdLists(nodes, m)
    ensures ValIdLists(nodes, m[a := ListOf(m, a)])
  {
    assert forall b: Address :: ListOf(m[a := ListOf(m, a)], b) == ListOf(m, b);
  }

  class TwinListStore {
    var nodes: Nodes
    /** What the nodes spell. */
    ghost var lists: Lists

    ghost predicate Valid()
      reads this
    {
      && AddressLists(nodes, lists.delegatorsOf)
      && ValIdLists(nodes, lists.validatorsOf)
    }

    constructor ()
      ensures Valid() && lists == NO_LISTS && nodes == map[]
    {
      nodes := map[];
      lists := NO_LISTS;
    }

    method WriteNode(v: ValId, a: Address, n: ListNode)
      modifies `nodes
      ensures nodes == old(nodes)[(v, a) := n]
    {
      nodes := nodes[(v, a) := n];
    }

    /** `linked_list_insert_address` past its two guards. */
    method HangAddress(v: ValId, a: Address)
      requires Node(nodes, v, a).aprev == 0 && a != SENTINEL_ADDRESS
      requires Node(nodes, v, SENTINEL_ADDRESS).anext != a
      requires Node(nodes, v, SENTINEL_ADDRESS).anext != SENTINEL_ADDRESS
      modifies `nodes
      ensures AInserted(old(nodes), nodes, v, a)
    {
      var thisNode := Node(nodes, v, a);
      var sentinel := Node(nodes, v, SENTINEL_ADDRESS);
      var nextPtr := sentinel.anext;
      if nextPtr != ZERO_ADDRESS {
        var nextNode := Node(nodes, v, nextPtr);
        WriteNode(v, nextPtr, nextNode.(aprev := a));
      }
      WriteNode(v, a, thisNode.(aprev := SENTINEL_ADDRESS, anext := nextPtr));
      WriteNode(v, SENTINEL_ADDRESS, sentinel.(anext := a));
    }

    /** `linked_list_insert_val_id` past its two guards. */
    method HangValId(v: ValId, a: Address)
      requires Node(nodes, v, a).iprev == 0 && v != SENTINEL_VAL_ID
      requires Node(nodes, SENTINEL_VAL_ID, a).inext != v
      requires Node(nodes, SENTINEL_VAL_ID, a).inext != SENTINEL_VAL_ID
      modifies `nodes
      ensures IInserted(old(nodes), nodes, v, a)
    {
      var thisNode := Node(nodes, v, a);
      var sentinel := Node(nodes, SENTINEL_VAL_ID, a);
      var nextPtr := sentinel.inext;
      if nextPtr != 0 {
        var nextNode := Node(nodes, nextPtr, a);
        WriteNode(nextPtr, a, nextNode.(iprev := v));
      }
      WriteNode(v, a, thisNode.(iprev := SENTINEL_VAL_ID, inext := nextPtr));
      WriteNode(SENTINEL_VAL_ID, a, sentinel.(inext := v));
    }

    /** `linked_list_remove_address` past its guard. */
    method UnhangAddress(v: ValId, a: Address)
      requires var n := Node(nodes, v, a); n.aprev != a && n.anext != a && n.aprev != n.anext
      modifies `nodes
      ensures ARemoved(old(nodes), nodes, v, a)
    {
      var thisNode := Node(nodes, v, a);
      var prevPtr, nextPtr := thisNode.aprev, thisNode.anext;
      var prevNode := Node(nodes, v, prevPtr);
      WriteNode(v, prevPtr, prevNode.(anext := nextPtr));
      if nextPtr != ZERO_ADDRESS {
        var nextNode := Node(nodes, v, nextPtr);
        WriteNode(v, nextPtr, nextNode.(aprev := prevPtr));
      }
      WriteNode(v, a, thisNode.(aprev := ZERO_ADDRESS, anext := ZERO_ADDRESS));
    }

    /** `linked_list_remove_val_id` past its guard. */
    method UnhangValId(v: ValId, a: Address)
      requires var n := Node(nodes, v, a); n.iprev != v && n.inext != v && n.iprev != n.inext
      modifies `nodes
      ensures IRemoved(old(nodes), nodes, v, a)
    {
      var thisNode := Node(nodes, v, a);
      var prevPtr, nextPtr := thisNode.iprev, thisNode.inext;
      var prevNode := Node(nodes, prevPtr, a);
      WriteNode(prevPtr, a, prevNode.(inext := nextPtr));
      if nextPtr != 0 {
        var nextNode := Node(nodes, nextPtr, a);
        WriteNode(nextPtr, a, nextNode.(iprev := prevPtr));
      }
      WriteNode(v, a, thisNode.(iprev := 0, inext := 0));
    }

    /** Inserts `a` at the head of the delegator list of `v`, unless it is there already. */
    method InsertAddress(v: ValId, a: Address) returns (r: Result<()>)
      requires Valid()
      modifies this
      ensures r == if a == ZERO_ADDRESS || a == SENTINEL_ADDRESS then Err(InvalidInput) else Ok(())
      ensures Valid()
      ensures lists == if r.Err? then old(lists)
                       else old(lists).(delegatorsOf := old(lists).delegatorsOf[
                                          v := Prepend(ListOf(old(lists).delegatorsOf, v), a)])
    {
      if a == ZERO_ADDRESS || a == SENTINEL_ADDRESS {
        return Err(InvalidInput);
      }
      ghost var m, before := lists.delegatorsOf, nodes;
      InAddressList(nodes, m, v, a);
      if Node(nodes, v, a).aprev == ZERO_ADDRESS {
        AddressHead(nodes, m, v, a);
        HangAddress(v, a);
        AInsertedLists(before, nodes, m, v, a);
        ValIdListsKept(before, nodes, lists.validatorsOf);
      } else {
        AddressListsRestated(nodes, m, v);
      }
      lists := lists.(delegatorsOf := m[v := Prepend(ListOf(m, v), a)]);
      r := Ok(());
    }

    /** Inserts `v` at the head of the validator list of `a`, unless it is there already. */
    method InsertValId(v: ValId, a: Address) returns (r: Result<()>)
      requires Valid()
      modifies this
      ensures r == if v == 0 || v == SENTINEL_VAL_ID then Err(InvalidInput) else Ok(())
      ensures Valid()
      ensures lists == if r.Err? then old(lists)
                       else old(lists).(validatorsOf := old(lists).validatorsOf[
                                          a := Prepend(ListOf(old(lists).validatorsOf, a), v)])
    {
      if v == 0 || v == SENTINEL_VAL_ID {
        return Err(InvalidInput);
      }
      ghost var m, before := lists.validatorsOf, nodes;
      InValIdList(nodes, m, v, a);
      if Node(nodes, v, a).iprev == 0 {
        ValIdHead(nodes, m, v, a);
        HangValId(v, a);
        IInsertedLists(before, nodes, m, v, a);
        AddressListsKept(before, nodes, lists.delegatorsOf);
      } else {
        ValIdListsRestated(nodes, m, a);
      }
      lists := lists.(validatorsOf := m[a := Prepend(ListOf(m, a), v)]);
      r := Ok(());
    }

    /** `linked_list_insert`: both lists or, by its error, neither. */
    method InsertBoth(v: ValId, a: Address) returns (r: Result<()>)
      requires Valid()
      modifies this
      ensures Valid()
      ensures r.Err? <==> Insert(old(lists), v, a).Err?
      ensures r.Err? ==> r.error == InvalidInput
      ensures r.Ok? ==> Insert(old(lists), v, a) == Ok(lists)
    {
      r := InsertAddress(v, a);
      if r.Ok? {
        r := InsertValId(v, a);
      }
    }

    method RemoveAddress(v: ValId, a: Address)
      requires Valid()
      modifies this
      ensures Valid()
      ensures lists == old(lists).(delegatorsOf := old(lists).delegatorsOf[
                                     v := Without(ListOf(old(lists).delegatorsOf, v), a)])
    {
      ghost var m, before := lists.delegatorsOf, nodes;
      InAddressList(nodes, m, v, a);
      if Node(nodes, v, a).aprev != ZERO_ADDRESS {
        AddressNeighbours(nodes, m, v, a);
        UnhangAddress(v, a);
        ARemovedLists(before, nodes, m, v, a);
        ValIdListsKept(before, nodes, lists.validatorsOf);
      } else {
        AddressListsRestated(nodes, m, v);
      }
      lists := lists.(delegatorsOf := m[v := Without(ListOf(m, v), a)]);
    }

    method RemoveValId(v: ValId, a: Address)
      requires Valid()
      modifies this
      ensures Valid()
      ensures lists == old(lists).(validatorsOf := old(lists).validatorsOf[
                                     a := Without(ListOf(old(lists).validatorsOf, a), v)])
    {
      ghost var m, before := lists.validatorsOf, nodes;
      InValIdList(nodes, m, v, a);
      if Node(nodes, v, a).iprev != 0 {
        ValIdNeighbours(nodes, m, v, a);
        UnhangValId(v, a);
        IRemovedLists(before, nodes, m, v, a);
        AddressListsKept(before, nodes, lists.delegatorsOf);
      } else {
        ValIdListsRestated(nodes, m, a);
      }
      lists := lists.(validatorsOf := m[a := Without(ListOf(m, a), v)]);
    }

    /** `linked_list_remove`. */
    method RemoveBoth(v: ValId, a: Address)
      requires Valid()
      modifies this
      ensures Valid()
      ensures lists == Remove(old(lists), v, a)
    {
      RemoveAddress(v, a);
      RemoveValId(v, a);
    }

    /** Puts saved nodes back, as a rolled-back frame does. */
    method Restore(nodes: Nodes, ghost lists: Lists)
      modifies this
      ensures this.nodes == nodes && this.lists == lists
    {
      this.nodes, this.lists := nodes, lists;
    }
  }
}
