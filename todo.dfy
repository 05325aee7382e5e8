/**
 * The todo canister's data and the meaning of its five handlers.
 *
 * The canister keeps one ordered map from 64-bit keys to items. Each item
 * records the principal that created it; only that principal may update or
 * delete it, while anyone may read it. Here the map is a value (`Store`) and
 * each handler is a function from the caller, the arguments and the store to
 * the handler's result and the store it leaves behind. The class in
 * canister.dfy runs the same handlers over a mutable field and is proved to
 * agree with these functions; the lemmas below state what the handlers
 * promise, alone and in combination.
 */
module Todo {
  import opened OrderedKeys

  /** An Internet Computer principal: an opaque identity, compared by its bytes. */
  datatype Principal = Principal(bytes: seq<bv8>)

  /** A todo item; `Item::new(owner, content)` is this constructor. */
  datatype Item = Item(owner: Principal, content: string)

  /** One page of `fetch_all`: the items and the "more may follow" flag. */
  datatype Page = Page(items: seq<Item>, hasNextPage: bool)

  datatype Option<T> = None | Some(value: T)

  /** `Result<(), String>`: what `create`, `update` and `delete` return. */
  datatype Outcome = Ok | Err(message: string)

  /** `Result<Page, String>`: what `fetch_all` returns. */
  datatype PageResult = PageOk(page: Page) | PageErr(message: string)

  const DuplicateId: string := "Duplicate Id"
  const NotOwner: string := "You are not the owner of todo item"

  /** The contents of `DATA_STORE`. */
  type Store = map<uint64, Item>

  /** What a mutating handler returns, and the store it leaves behind. */
  datatype Step = Step(outcome: Outcome, store: Store)

  function Min(a: int, b: int): int {
    if a <= b then a else b
  }

  // ---------------------------------------------------------------------
  // The handlers

  /** `get`: the item stored under `key`, whoever asks; nothing when the key is absent. */
  function Get(store: Store, key: uint64): (r: Option<Item>)
    ensures r.Some? <==> key in store
    ensures r.Some? ==> r.value == store[key]
  {
    if key in store then Some(store[key]) else None
  }

  /**
   * The guard of `update` and `delete`: the lookup of `key`, filtered by
   * "its owner is the caller", is non-empty.
   */
  predicate OwnedBy(store: Store, key: uint64, caller: Principal) {
    key in store && store[key].owner == caller
  }

  /** `create`: refuse a key that is taken, otherwise store a new item owned by the caller. */
  function Create(store: Store, caller: Principal, key: uint64, value: string): (r: Step)
    ensures r.outcome == Ok <==> key !in store
    ensures r.outcome != Ok ==> r.outcome == Err(DuplicateId) && r.store == store
    ensures r.outcome == Ok ==> r.store.Keys == store.Keys + {key} && r.store[key] == Item(caller, value)
    ensures forall k :: k in store ==> k in r.store && r.store[k] == store[k]
  {
    if key in store then Step(Err(DuplicateId), store)
    else Step(Ok, store[key := Item(caller, value)])
  }

  /** `update`: if the caller owns `key`, replace its item by `Item::new(caller, value)`. */
  function Update(store: Store, caller: Principal, key: uint64, value: string): (r: Step)
    ensures r.outcome == Ok <==> OwnedBy(store, key, caller)
    ensures r.outcome != Ok ==> r.outcome == Err(NotOwner) && r.store == store
    ensures r.store.Keys == store.Keys
    ensures r.outcome == Ok ==> r.store[key] == Item(store[key].owner, value)
    ensures forall k :: k in store && k != key ==> r.store[k] == store[k]
  {
    if OwnedBy(store, key, caller) then Step(Ok, store[key := Item(caller, value)])
    else Step(Err(NotOwner), store)
  }

  /** `delete`: if the caller owns `key`, remove it. */
  function Delete(store: Store, caller: Principal, key: uint64): (r: Step)
    ensures r.outcome == Ok <==> OwnedBy(store, key, caller)
    ensures r.outcome != Ok ==> r.outcome == Err(NotOwner) && r.store == store
    ensures r.outcome == Ok ==> r.store.Keys == store.Keys - {key}
    ensures forall k :: k in r.store ==> k in store && r.store[k] == store[k]
  {
    if OwnedBy(store, key, caller) then Step(Ok, store - {key})
    else Step(Err(NotOwner), store)
  }

  // ---------------------------------------------------------------------
  // fetch_all: iter().map(..).filter(..).skip(..).take(..)

  /** The items stored under `ks`, in the order of `ks`. */
  function ItemsAt(store: Store, ks: seq<uint64>): seq<Item>
    requires forall k :: k in ks ==> k in store
  {
    seq(|ks|, i requires 0 <= i < |ks| => store[ks[i]])
  }

  /** `iter().map(|(_, item)| item)`: every stored item, in ascending key order. */
  function Values(store: Store): seq<Item> {
    ItemsAt(store, Sorted(store.Keys))
  }

  /** The iteration yields every stored item and nothing else. */
  lemma ValuesAreStoredItems(store: Store)
    ensures forall it :: it in Values(store) <==> it in store.Values
  {
    var ks := Sorted(store.Keys);
    var r := Values(store);
    forall it | it in store.Values
      ensures it in r
    {
      var k :| k in store && store[k] == it;
      var i :| 0 <= i < |ks| && ks[i] == k;
      assert r[i] == it;
    }
  }

  /** `.filter(|item| item.owner.eq(&caller))`. */
  function FilterOwner(items: seq<Item>, caller: Principal): (r: seq<Item>)
    ensures |r| <= |items|
    ensures forall i :: 0 <= i < |r| ==> r[i].owner == caller
    ensures forall it :: it in r <==> it in items && it.owner == caller
  {
    if items == [] then []
    else if items[0].owner == caller then [items[0]] + FilterOwner(items[1..], caller)
    else FilterOwner(items[1..], caller)
  }

  /**
   * The filter keeps each of the caller's items as often as the input holds
   * it, and nothing else.
   */
  lemma {:induction false} FilterOwnerCounts(items: seq<Item>, caller: Principal)
    ensures forall it :: multiset(FilterOwner(items, caller))[it]
                         == if it.owner == caller then multiset(items)[it] else 0
    decreases |items|
  {
    if items != [] {
      assert items == [items[0]] + items[1..];
      FilterOwnerCounts(items[1..], caller);
    }
  }

  /** `.skip(n)`: drop the first `n` elements, or all of them if there are fewer. */
  function Skip<T>(s: seq<T>, n: nat): seq<T> {
    if n <= |s| then s[n..] else []
  }

  /** `.take(n)`: keep the first `n` elements, or all of them if there are fewer. */
  function Take<T>(s: seq<T>, n: nat): seq<T> {
    if n <= |s| then s[..n] else s
  }

  /**
   * `fetch_all`: page `pageNumber` (counted from 1) of `pageSize` items among
   * the caller's items in key order. The flag always says more may follow.
   * A `pageNumber` of 0 is outside what the handler computes (its skip count
   * `page_number - 1` underflows), hence the precondition.
   */
  function FetchAll(store: Store, caller: Principal, pageNumber: nat, pageSize: nat): (r: PageResult)
    requires pageNumber >= 1
    ensures r.PageOk? && r.page.hasNextPage
    ensures |r.page.items| <= pageSize
    ensures forall i :: 0 <= i < |r.page.items| ==> r.page.items[i].owner == caller
  {
    var owned := FilterOwner(Values(store), caller);
    PageOk(Page(Take(Skip(owned, PageStart(pageNumber, pageSize)), pageSize), true))
  }

  /** The skip count of `fetch_all`: the number of the caller's items on earlier pages. */
  function PageStart(pageNumber: nat, pageSize: nat): nat
    requires pageNumber >= 1
  {
    (pageNumber - 1) * pageSize
  }

  // ---------------------------------------------------------------------
  // The caller's items, by key

  /** The keys among `ks` whose item belongs to `caller`, in the order of `ks`. */
  function FilterKeys(store: Store, ks: seq<uint64>, caller: Principal): (r: seq<uint64>)
    requires forall k :: k in ks ==> k in store
    ensures forall k :: k in r <==> k in ks && store[k].owner == caller
    ensures Ascending(ks) ==> Ascending(r)
  {
    if ks == [] then []
    else if store[ks[0]].owner == caller then
      var rest := FilterKeys(store, ks[1..], caller);
      assert Ascending(ks) ==> forall j :: 0 <= j < |rest| ==> ks[0] < rest[j] by {
        if Ascending(ks) {
          forall j | 0 <= j < |rest|
            ensures ks[0] < rest[j]
          {
            assert rest[j] in ks[1..];
          }
        }
      }
      [ks[0]] + rest
    else FilterKeys(store, ks[1..], caller)
  }

  /** The keys of the caller's items, in ascending order. */
  function CallerKeys(store: Store, caller: Principal): (ks: seq<uint64>)
    ensures Ascending(ks)
    ensures forall k :: k in ks <==> OwnedBy(store, k, caller)
  {
    FilterKeys(store, Sorted(store.Keys), caller)
  }

  /** The part of the store that belongs to `owner`. */
  function ItemsOf(store: Store, owner: Principal): map<uint64, Item> {
    map k | k in store && store[k].owner == owner :: store[k]
  }

  /** Filtering the items by owner is filtering their keys by owner. */
  lemma {:induction false} FilterOwnerByKeys(store: Store, ks: seq<uint64>, caller: Principal)
    requires forall k :: k in ks ==> k in store
    ensures FilterOwner(ItemsAt(store, ks), caller) == ItemsAt(store, FilterKeys(store, ks, caller))
    decreases |ks|
  {
    if ks != [] {
      var items := ItemsAt(store, ks);
      assert items[1..] == ItemsAt(store, ks[1..]);
      FilterOwnerByKeys(store, ks[1..], caller);
      var rest := FilterKeys(store, ks[1..], caller);
      if store[ks[0]].owner == caller {
        assert ItemsAt(store, [ks[0]] + rest) == [store[ks[0]]] + ItemsAt(store, rest);
      }
    }
  }

  /**
   * A page of `fetch_all` is the items stored under `PageKeys`, in that order:
   * the slice from `(pageNumber - 1) * pageSize`, of length `pageSize`, of the
   * caller's keys in ascending order, both ends cut to the number of such
   * keys. Together with the contract of `CallerKeys`, which lists exactly the
   * caller's keys in ascending order, this says which items a page holds and
   * in which order.
   */
  lemma FetchAllIsSlice(store: Store, caller: Principal, pageNumber: nat, pageSize: nat)
    requires pageNumber >= 1
    ensures FetchAll(store, caller, pageNumber, pageSize)
         == PageOk(Page(ItemsAt(store, PageKeys(store, caller, pageNumber, pageSize)), true))
  {
    var ks := CallerKeys(store, caller);
    var skip := PageStart(pageNumber, pageSize);
    var owned := FilterOwner(Values(store), caller);
    assert owned == ItemsAt(store, ks) by {
      FilterOwnerByKeys(store, Sorted(store.Keys), caller);
    }
    assert FetchAll(store, caller, pageNumber, pageSize).page.items == Take(Skip(owned, skip), pageSize);
    SkipTakeIsSlice(owned, skip, pageSize);
    var lo := Min(skip, |ks|);
    ItemsAtSlice(store, ks, lo, Min(lo + pageSize, |ks|));
  }

  /**
   * The keys of page `pageNumber`: the caller's keys in ascending order, from
   * `(pageNumber - 1) * pageSize` on, `pageSize` of them, both ends cut to
   * the number of the caller's keys.
   */
  function PageKeys(store: Store, caller: Principal, pageNumber: nat, pageSize: nat): seq<uint64>
    requires pageNumber >= 1
  {
    var ks := CallerKeys(store, caller);
    var lo := Min(PageStart(pageNumber, pageSize), |ks|);
    ks[lo..Min(lo + pageSize, |ks|)]
  }

  lemma ItemsAtSlice(store: Store, ks: seq<uint64>, lo: nat, hi: nat)
    requires forall k :: k in ks ==> k in store
    requires lo <= hi <= |ks|
    ensures ItemsAt(store, ks)[lo..hi] == ItemsAt(store, ks[lo..hi])
  {
  }

  /** `.skip(n).take(m)` is the slice `[n, n + m)` with both ends cut to the length. */
  lemma SkipTakeIsSlice<T>(s: seq<T>, n: nat, m: nat)
    ensures var lo := Min(n, |s|);
            Take(Skip(s, n), m) == s[lo..Min(lo + m, |s|)]
  {
  }

  /** Stores in which the caller owns the same items list the same keys for the caller. */
  lemma {:induction false} SameItemsSameKeys(s1: Store, s2: Store, caller: Principal)
    requires ItemsOf(s1, caller) == ItemsOf(s2, caller)
    ensures CallerKeys(s1, caller) == CallerKeys(s2, caller)
    ensures forall k :: k in CallerKeys(s1, caller) ==> s1[k] == s2[k]
  {
    var k1, k2 := CallerKeys(s1, caller), CallerKeys(s2, caller);
    forall k
      ensures k in k1 <==> k in k2
    {
      assert OwnedBy(s1, k, caller) <==> k in ItemsOf(s1, caller);
      assert OwnedBy(s2, k, caller) <==> k in ItemsOf(s2, caller);
    }
    AscendingUnique(k1, k2);
    forall k | k in k1
      ensures s1[k] == s2[k]
    {
      assert ItemsOf(s1, caller)[k] == s1[k];
      assert ItemsOf(s2, caller)[k] == s2[k];
    }
  }

  /** A page depends on the caller's own items and on nothing else in the store. */
  lemma FetchAllReadsOnlyCallersItems(s1: Store, s2: Store, caller: Principal, pageNumber: nat, pageSize: nat)
    requires pageNumber >= 1
    requires ItemsOf(s1, caller) == ItemsOf(s2, caller)
    ensures FetchAll(s1, caller, pageNumber, pageSize) == FetchAll(s2, caller, pageNumber, pageSize)
  {
    SameItemsSameKeys(s1, s2, caller);
    SameKeysSamePages(s1, s2, caller, pageNumber, pageSize);
  }

  /** Two stores giving the caller the same keys, with the same items under them, give the same pages. */
  lemma SameKeysSamePages(s1: Store, s2: Store, caller: Principal, pageNumber: nat, pageSize: nat)
    requires pageNumber >= 1
    requires CallerKeys(s1, caller) == CallerKeys(s2, caller)
    requires forall k :: k in CallerKeys(s1, caller) ==> s1[k] == s2[k]
    ensures FetchAll(s1, caller, pageNumber, pageSize) == FetchAll(s2, caller, pageNumber, pageSize)
  {
    var page := PageKeys(s1, caller, pageNumber, pageSize);
    assert PageKeys(s2, caller, pageNumber, pageSize) == page;
    var r1, r2 := FetchAll(s1, caller, pageNumber, pageSize), FetchAll(s2, caller, pageNumber, pageSize);
    FetchAllIsSlice(s1, caller, pageNumber, pageSize);
    FetchAllIsSlice(s2, caller, pageNumber, pageSize);
    ItemsAtAgree(s1, s2, page);
  }

  lemma ItemsAtAgree(s1: Store, s2: Store, ks: seq<uint64>)
    requires forall k :: k in ks ==> k in s1 && k in s2 && s1[k] == s2[k]
    ensures ItemsAt(s1, ks) == ItemsAt(s2, ks)
  {
  }

  /** A principal that owns no item gets only empty pages, however many items others own. */
  lemma FetchAllOwnsNothing(store: Store, caller: Principal, pageNumber: nat, pageSize: nat)
    requires pageNumber >= 1
    requires forall k :: k in store ==> store[k].owner != caller
    ensures FetchAll(store, caller, pageNumber, pageSize).page.items == []
  {
    AscendingUnique(CallerKeys(store, caller), []);
    FetchAllIsSlice(store, caller, pageNumber, pageSize);
  }

  // ---------------------------------------------------------------------
  // What the mutating handlers promise

  /**
   * A handler run by `caller` leaves the items of every other principal as
   * they were: none is changed, removed or added.
   */
  lemma MutationsSpareOthers(store: Store, caller: Principal, other: Principal, key: uint64, value: string)
    requires other != caller
    ensures ItemsOf(Create(store, caller, key, value).store, other) == ItemsOf(store, other)
    ensures ItemsOf(Update(store, caller, key, value).store, other) == ItemsOf(store, other)
    ensures ItemsOf(Delete(store, caller, key).store, other) == ItemsOf(store, other)
  {
  }

  /** Hence no handler run by `caller` changes any page another principal fetches. */
  lemma MutationsKeepOthersPages(store: Store, caller: Principal, other: Principal, key: uint64, value: string,
                                 pageNumber: nat, pageSize: nat)
    requires other != caller && pageNumber >= 1
    ensures FetchAll(Create(store, caller, key, value).store, other, pageNumber, pageSize)
         == FetchAll(store, other, pageNumber, pageSize)
    ensures FetchAll(Update(store, caller, key, value).store, other, pageNumber, pageSize)
         == FetchAll(store, other, pageNumber, pageSize)
    ensures FetchAll(Delete(store, caller, key).store, other, pageNumber, pageSize)
         == FetchAll(store, other, pageNumber, pageSize)
  {
    MutationsSpareOthers(store, caller, other, key, value);
    FetchAllReadsOnlyCallersItems(Create(store, caller, key, value).store, store, other, pageNumber, pageSize);
    FetchAllReadsOnlyCallersItems(Update(store, caller, key, value).store, store, other, pageNumber, pageSize);
    FetchAllReadsOnlyCallersItems(Delete(store, caller, key).store, store, other, pageNumber, pageSize);
  }

  /**
   * A key's owner never changes while the key is present: `update` stores
   * the caller as owner, and its guard makes that the owner already recorded.
   */
  lemma OwnersNeverChange(store: Store, caller: Principal, key: uint64, value: string)
    ensures var s := Create(store, caller, key, value).store;
            forall k :: k in store && k in s ==> s[k].owner == store[k].owner
    ensures var s := Update(store, caller, key, value).store;
            forall k :: k in store && k in s ==> s[k].owner == store[k].owner
    ensures var s := Delete(store, caller, key).store;
            forall k :: k in store && k in s ==> s[k].owner == store[k].owner
  {
  }

  /** A successful `create` is visible to `get`, by any caller. */
  lemma CreateThenGet(store: Store, caller: Principal, key: uint64, value: string)
    requires key !in store
    ensures Create(store, caller, key, value).outcome == Ok
    ensures Get(Create(store, caller, key, value).store, key) == Some(Item(caller, value))
  {
  }

  /** A second `create` on the same key, by anyone, fails and keeps the first item. */
  lemma CreateTwiceRejected(store: Store, first: Principal, second: Principal, key: uint64, v1: string, v2: string)
    requires key !in store
    ensures var s := Create(store, first, key, v1).store;
            Create(s, second, key, v2) == Step(Err(DuplicateId), s) && Get(s, key) == Some(Item(first, v1))
  {
  }

  /** `delete` by the creator undoes a successful `create`. */
  lemma CreateThenDeleteRestores(store: Store, caller: Principal, key: uint64, value: string)
    requires key !in store
    ensures Delete(Create(store, caller, key, value).store, caller, key) == Step(Ok, store)
  {
    assert store[key := Item(caller, value)] - {key} == store;
  }

  /** Once an item is created, another principal can neither update nor delete it. */
  lemma CreateThenForeignMutationRejected(store: Store, owner: Principal, intruder: Principal,
                                          key: uint64, v1: string, v2: string)
    requires key !in store && owner != intruder
    ensures var s := Create(store, owner, key, v1).store;
            && Update(s, intruder, key, v2) == Step(Err(NotOwner), s)
            && Delete(s, intruder, key) == Step(Err(NotOwner), s)
            && Get(s, key) == Some(Item(owner, v1))
  {
  }

  /** Repeating an `update` changes nothing more. */
  lemma UpdateIdempotent(store: Store, caller: Principal, key: uint64, value: string)
    ensures var s := Update(store, caller, key, value).store;
            Update(s, caller, key, value).store == s
  {
  }

  // ---------------------------------------------------------------------
  // A worked example: ten items of one owner, pages of three

  /** Keys 1 to 10, all owned by `owner`, key `k` holding content `text(k)`. */
  function TenItems(owner: Principal, text: uint64 -> string): Store {
    map k: uint64 | 1 <= k <= 10 :: Item(owner, text(k))
  }

  /** The owner's keys among the ten, in order, are 1 to 10. */
  lemma TenItemsKeys(owner: Principal, text: uint64 -> string)
    ensures CallerKeys(TenItems(owner, text), owner) == [1, 2, 3, 4, 5, 6, 7, 8, 9, 10]
  {
    var ks := CallerKeys(TenItems(owner, text), owner);
    var expected: seq<uint64> := [1, 2, 3, 4, 5, 6, 7, 8, 9, 10];
    forall k
      ensures k in ks <==> k in expected
    {
      assert k in ks <==> 1 <= k <= 10;
    }
    AscendingUnique(ks, expected);
  }

  /** Page 1 holds keys 1, 2, 3; page 4 skips nine items and holds key 10 alone. */
  lemma TenItemsPages(owner: Principal, text: uint64 -> string)
    ensures FetchAll(TenItems(owner, text), owner, 1, 3).page.items
         == [Item(owner, text(1)), Item(owner, text(2)), Item(owner, text(3))]
    ensures FetchAll(TenItems(owner, text), owner, 4, 3).page.items == [Item(owner, text(10))]
  {
    assert PageStart(1, 3) == 0 && PageStart(4, 3) == 9;
    var keys: seq<uint64> := [1, 2, 3, 4, 5, 6, 7, 8, 9, 10];
    assert FetchAll(TenItems(owner, text), owner, 1, 3).page.items
        == [Item(owner, text(1)), Item(owner, text(2)), Item(owner, text(3))] by {
      assert keys[0..3] == [1, 2, 3];
      TenItemsPage(owner, text, 1, [1, 2, 3]);
    }
    assert FetchAll(TenItems(owner, text), owner, 4, 3).page.items == [Item(owner, text(10))] by {
      assert keys[9..10] == [10];
      TenItemsPage(owner, text, 4, [10]);
    }
  }

  /** Page `pageNumber` of three holds the items under `keys`, given those are its keys. */
  lemma TenItemsPage(owner: Principal, text: uint64 -> string, pageNumber: nat, keys: seq<uint64>)
    requires pageNumber >= 1
    requires keys == [1, 2, 3, 4, 5, 6, 7, 8, 9, 10][Min(PageStart(pageNumber, 3), 10)..Min(PageStart(pageNumber, 3) + 3, 10)]
    ensures FetchAll(TenItems(owner, text), owner, pageNumber, 3).page.items
         == seq(|keys|, i requires 0 <= i < |keys| => Item(owner, text(keys[i])))
  {
    var store := TenItems(owner, text);
    TenItemsKeys(owner, text);
    FetchAllIsSlice(store, owner, pageNumber, 3);
  }
}
