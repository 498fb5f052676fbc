/** The paged readers of the lists and of the validator sets. */
module StakingPaging {
  import opened Ledger
  import opened TwinLists
  import opened TwinListStorage

  const MAX_VALIDATORS_PER_CALL: nat := 100
  const LINKED_LIST_PAGINATION: nat := 50

  /** What a paged reader answers. */
  datatype Page = Page(done: bool, next: nat, items: seq<nat>)

  // ----- pages of a list ----------------------------------------------------------

  function Min(x: nat, y: nat): nat {
    if x <= y then x else y
  }

  function IndexOf(s: seq<nat>, x: nat): (i: nat)
    requires x in s
    ensures i < |s| && s[i] == x
  {
    if s[0] == x then 0 else 1 + IndexOf(s[1..], x)
  }

  function PageAt(s: seq<nat>, i: nat, limit: nat): Page
    requires i < |s|
  {
    var end := Min(i + limit, |s|);
    Page(end == |s|, if end == |s| then 0 else s[end], s[i..end])
  }

  /** The page that starts at cursor `start`; zero is the head of the list. */
  function ListPage(s: seq<nat>, start: nat, limit: nat): Page {
    if start == 0 then
      if s == [] then Page(true, 0, []) else PageAt(s, 0, limit)
    else if start !in s then Page(true, start, [])
    else PageAt(s, IndexOf(s, start), limit)
  }

  predicate Pageable(s: seq<nat>) {
    Distinct(s) && 0 !in s
  }

  function Cursor(s: seq<nat>, start: nat): nat {
    if start == 0 then 0 else if start in s then IndexOf(s, start) else |s|
  }

  lemma IndexOfAt(s: seq<nat>, i: nat)
    requires Distinct(s) && i < |s|
    ensures IndexOf(s, s[i]) == i
  {}

  lemma NextCursor(s: seq<nat>, start: nat, limit: nat)
    requires Pageable(s) && limit > 0 && !ListPage(s, start, limit).done
    ensures Cursor(s, ListPage(s, start, limit).next) == Cursor(s, start) + limit < |s|
  {
    IndexOfAt(s, Cursor(s, start) + limit);
  }

  /** All items a reader sees by asking for `start` and following the cursor until it is done. */
  function ListWalk(s: seq<nat>, start: nat, limit: nat): seq<nat>
    requires Pageable(s) && limit > 0
    decreases |s| - Cursor(s, start)
  {
    var page := ListPage(s, start, limit);
    if page.done then page.items
    else
      NextCursor(s, start, limit);
      page.items + ListWalk(s, page.next, limit)
  }

  lemma {:induction false} ListWalkFrom(s: seq<nat>, start: nat, limit: nat)
    requires Pageable(s) && limit > 0
    ensures Cursor(s, start) <= |s| && ListWalk(s, start, limit) == s[Cursor(s, start)..]
    decreases |s| - Cursor(s, start)
  {
    var page := ListPage(s, start, limit);
    if !page.done {
      NextCursor(s, start, limit);
      ListWalkFrom(s, page.next, limit);
    }
  }

  /** Starting at zero, the cursor leads through the whole list, once and in order. */
  lemma ListWalkComplete(s: seq<nat>, limit: nat)
    requires Pageable(s) && limit > 0
    ensures ListWalk(s, 0, limit) == s
  {
    ListWalkFrom(s, 0, limit);
  }

  // ----- pages of a validator set -----------------------------------------------

  function SetPage(cells: seq<ValId>, start: nat): Page {
    var count := Min(if start <= |cells| then |cells| - start else 0, MAX_VALIDATORS_PER_CALL);
    Page(start + count >= |cells|, start + count, if count == 0 then [] else cells[start..start + count])
  }

  function SetWalk(cells: seq<ValId>, start: nat): seq<ValId>
    decreases if start <= |cells| then |cells| - start else 0
  {
    var page := SetPage(cells, start);
    if page.done then page.items else page.items + SetWalk(cells, page.next)
  }

  /** Starting at index zero, the pages add up to the whole set. */
  lemma {:induction false} SetWalkFrom(cells: seq<ValId>, start: nat)
    requires start <= |cells|
    ensures SetWalk(cells, start) == cells[start..]
    decreases |cells| - start
  {
    var page := SetPage(cells, start);
    if !page.done {
      SetWalkFrom(cells, page.next);
    }
  }

  lemma SetWalkComplete(cells: seq<ValId>)
    ensures SetWalk(cells, 0) == cells
  {
    SetWalkFrom(cells, 0);
  }

  // ----- the loops ----------------------------------------------------------------

  /** A stored list can be paged: it has no duplicates and never holds the empty pointer. */
  lemma ChainPageable(next: nat -> nat, prev: nat -> nat, sentinel: nat, s: seq<nat>)
    requires sentinel != 0 && Chain(next, prev, sentinel, s)
    ensures Pageable(s)
  {
    ChainMembers(next, prev, sentinel, s, 0);
  }

  lemma ChainNext(next: nat -> nat, prev: nat -> nat, sentinel: nat, s: seq<nat>, i: nat)
    requires Chain(next, prev, sentinel, s) && i < |s|
    ensures next(s[i]) == if i + 1 < |s| then s[i + 1] else 0
    ensures s[i] != 0
  {
    assert Linked(next, prev, sentinel, s, i);
  }

  /** After `count` items from position `first` the walk stands at `ptr`. */
  predicate Reached(s: seq<nat>, first: nat, count: nat, ptr: nat, items: seq<nat>) {
    && first < |s| && first + count <= |s|
    && ptr == (if first + count < |s| then s[first + count] else 0)
    && items == s[first..first + count]
  }

  lemma ReachedNext(
    next: nat -> nat, prev: nat -> nat, sentinel: nat, s: seq<nat>,
    first: nat, count: nat, ptr: nat, items: seq<nat>)
    requires Chain(next, prev, sentinel, s) && Reached(s, first, count, ptr, items) && ptr != 0
    ensures Reached(s, first, count + 1, next(ptr), items + [ptr])
  {
    ChainNext(next, prev, sentinel, s, first + count);
  }

  lemma ReachedPage(
    next: nat -> nat, prev: nat -> nat, sentinel: nat, s: seq<nat>,
    first: nat, count: nat, ptr: nat, items: seq<nat>, limit: nat)
    requires Chain(next, prev, sentinel, s) && Reached(s, first, count, ptr, items)
    requires count <= limit && (ptr == 0 || count == limit)
    ensures Page(ptr == 0, ptr, items) == PageAt(s, first, limit)
  {
    if first + count < |s| {
      ChainNext(next, prev, sentinel, s, first + count);
    }
  }

  /** `traverse_validators_for_delegator`. */
  method TraverseValidators(store: TwinListStore, delegator: Address, start: ValId, limit: nat) returns (page: Page)
    requires store.Valid() && limit > 0
    ensures Pageable(ListOf(store.lists.validatorsOf, delegator))
    ensures page == ListPage(ListOf(store.lists.validatorsOf, delegator), start, limit)
  {
    ghost var s := ListOf(store.lists.validatorsOf, delegator);
    ghost var next, prev := INext(store.nodes, delegator), IPrev(store.nodes, delegator);
    ChainPageable(next, prev, SENTINEL_VAL_ID, s);
    var ptr := start;
    if start == 0 {
      ptr := Node(store.nodes, SENTINEL_VAL_ID, delegator).inext;
      assert ptr == next(SENTINEL_VAL_ID);
    }
    if ptr == 0 {
      return Page(true, 0, []);
    }
    InValIdList(store.nodes, store.lists.validatorsOf, ptr, delegator);
    var currentNode := Node(store.nodes, ptr, delegator);
    if currentNode.iprev == 0 {
      return Page(true, ptr, []);
    }
    var items := [];
    var currentPtr := ptr;
    var count := 0;
    ghost var first := Cursor(s, start);
    while currentPtr != 0 && count < limit
      invariant count <= limit && Reached(s, first, count, currentPtr, items)
      invariant currentPtr != 0 && count < limit ==> currentNode == Node(store.nodes, currentPtr, delegator)
      decreases limit - count
    {
      ghost var before := items;
      items := items + [currentPtr];
      var following := currentNode.inext;
      assert following == next(currentPtr);
      ReachedNext(next, prev, SENTINEL_VAL_ID, s, first, count, currentPtr, before);
      count := count + 1;
      if following != 0 && count < limit {
        currentNode := Node(store.nodes, following, delegator);
      }
      currentPtr := following;
    }
    ReachedPage(next, prev, SENTINEL_VAL_ID, s, first, count, currentPtr, items, limit);
    page := Page(currentPtr == 0, currentPtr, items);
  }

  /** `traverse_delegators_for_validator`. */
  method TraverseDelegators(store: TwinListStore, v: ValId, start: Address, limit: nat) returns (page: Page)
    requires store.Valid() && limit > 0
    ensures Pageable(ListOf(store.lists.delegatorsOf, v))
    ensures page == ListPage(ListOf(store.lists.delegatorsOf, v), start, limit)
  {
    ghost var s := ListOf(store.lists.delegatorsOf, v);
    ghost var next, prev := ANext(store.nodes, v), APrev(store.nodes, v);
    ChainPageable(next, prev, SENTINEL_ADDRESS, s);
    var ptr := start;
    if start == 0 {
      ptr := Node(store.nodes, v, SENTINEL_ADDRESS).anext;
      assert ptr == next(SENTINEL_ADDRESS);
    }
    if ptr == 0 {
      return Page(true, 0, []);
    }
    InAddressList(store.nodes, store.lists.delegatorsOf, v, ptr);
    var currentNode := Node(store.nodes, v, ptr);
    if currentNode.aprev == 0 {
      return Page(true, ptr, []);
    }
    var items := [];
    var currentPtr := ptr;
    var count := 0;
    ghost var first := Cursor(s, start);
    while currentPtr != 0 && count < limit
      invariant count <= limit && Reached(s, first, count, currentPtr, items)
      invariant currentPtr != 0 && count < limit ==> currentNode == Node(store.nodes, v, currentPtr)
      decreases limit - count
    {
      ghost var before := items;
      items := items + [currentPtr];
      var following := currentNode.anext;
      assert following == next(currentPtr);
      ReachedNext(next, prev, SENTINEL_ADDRESS, s, first, count, currentPtr, before);
      count := count + 1;
      if following != 0 && count < limit {
        currentNode := Node(store.nodes, v, following);
      }
      currentPtr := following;
    }
    ReachedPage(next, prev, SENTINEL_ADDRESS, s, first, count, currentPtr, items, limit);
    page := Page(currentPtr == 0, currentPtr, items);
  }

  method GetDelegations(store: TwinListStore, delegator: Address, start: ValId) returns (page: Page)
    requires store.Valid()
    ensures page == ListPage(ListOf(store.lists.validatorsOf, delegator), start, LINKED_LIST_PAGINATION)
  {
    page := TraverseValidators(store, delegator, start, LINKED_LIST_PAGINATION);
  }

  method GetDelegators(store: TwinListStore, v: ValId, start: Address) returns (page: Page)
    requires store.Valid()
    ensures page == ListPage(ListOf(store.lists.delegatorsOf, v), start, LINKED_LIST_PAGINATION)
  {
    page := TraverseDelegators(store, v, start, LINKED_LIST_PAGINATION);
  }

  /** `handle_get_validator_set_impl`, on the array the caller chose. */
  method GetValidatorSet(cells: seq<ValId>, start: nat) returns (page: Page)
    ensures page == SetPage(cells, start)
  {
    var remaining := if start <= |cells| then |cells| - start else 0;
    var count := if remaining <= MAX_VALIDATORS_PER_CALL then remaining else MAX_VALIDATORS_PER_CALL;
    var items: seq<ValId> := [];
    for i := 0 to count
      invariant items == if i == 0 then [] else cells[start..start + i]
    {
      items := items + [cells[start + i]];
    }
    page := Page(start + count >= |cells|, start + count, items);
  }
}
