/**
 * The canister itself: the `DATA_STORE` map as the state of an object, and
 * the five handlers as its methods. The principal that the running canister
 * learns from the system on each call is passed in as `caller`.
 *
 * Each mutating handler changes the map in place and is proved to leave the
 * state that the matching function of module `Todo` computes; the lemmas of
 * that module then carry over to any sequence of calls.
 */
module Canister {
  import opened OrderedKeys
  import opened Todo

  class TodoCanister {
    /** The canister's one stable map, from key to item, iterated in key order. */
    var dataStore: Store

    /** A freshly installed canister holds no items. */
    constructor ()
      ensures dataStore == map[]
    {
      dataStore := map[];
    }

    /** `get`: the stored item, or nothing, for any caller; the store is only read. */
    method Get(key: uint64) returns (r: Option<Item>)
      ensures key in dataStore ==> r == Some(dataStore[key])
      ensures key !in dataStore ==> r == None
    {
      r := Todo.Get(dataStore, key);
    }

    /** `fetch_all`: the page computed by `Todo.FetchAll`; the store is only read. */
    method FetchAll(caller: Principal, pageNumber: nat, pageSize: nat) returns (r: PageResult)
      requires pageNumber >= 1
      ensures r == Todo.FetchAll(dataStore, caller, pageNumber, pageSize)
      ensures r.PageOk? && r.page.hasNextPage
      ensures |r.page.items| <= pageSize
      ensures forall i :: 0 <= i < |r.page.items| ==> r.page.items[i].owner == caller
    {
      r := Todo.FetchAll(dataStore, caller, pageNumber, pageSize);
    }

    /**
     * `create`: a key that is already present is refused with "Duplicate Id"
     * and nothing changes; otherwise the key now holds a new item owned by the
     * caller, and every other key is as it was.
     */
    method Create(caller: Principal, key: uint64, value: string) returns (r: Outcome)
      modifies this
      ensures Step(r, dataStore) == Todo.Create(old(dataStore), caller, key, value)
      ensures key in old(dataStore) ==> r == Err(DuplicateId) && dataStore == old(dataStore)
      ensures key !in old(dataStore) ==> r == Ok && dataStore == old(dataStore)[key := Item(caller, value)]
    {
      if key in dataStore {
        return Err(DuplicateId);
      }
      dataStore := dataStore[key := Item(caller, value)];
      r := Ok;
    }

    /**
     * `update`: succeeds exactly when the key is present and owned by the
     * caller; then only that key's content changes and its owner stays.
     * Otherwise, the key being absent included, it reports the not-owner
     * error and nothing changes.
     */
    method Update(caller: Principal, key: uint64, value: string) returns (r: Outcome)
      modifies this
      ensures Step(r, dataStore) == Todo.Update(old(dataStore), caller, key, value)
      ensures r == Ok <==> OwnedBy(old(dataStore), key, caller)
      ensures r != Ok ==> r == Err(NotOwner) && dataStore == old(dataStore)
      ensures r == Ok ==> dataStore == old(dataStore)[key := Item(old(dataStore)[key].owner, value)]
    {
      var found := Todo.Get(dataStore, key);
      if found.Some? && found.value.owner == caller {
        dataStore := dataStore[key := Item(caller, value)];
      } else {
        return Err(NotOwner);
      }
      r := Ok;
    }

    /**
     * `delete`: removes the key exactly when it is present and owned by the
     * caller, leaving every other key as it was; otherwise, the key being
     * absent included, it reports the not-owner error and nothing changes.
     */
    method Delete(caller: Principal, key: uint64) returns (r: Outcome)
      modifies this
      ensures Step(r, dataStore) == Todo.Delete(old(dataStore), caller, key)
      ensures r == Ok <==> OwnedBy(old(dataStore), key, caller)
      ensures r != Ok ==> r == Err(NotOwner) && dataStore == old(dataStore)
      ensures r == Ok ==> dataStore == old(dataStore) - {key}
    {
      var found := Todo.Get(dataStore, key);
      if found.Some? && found.value.owner == caller {
        dataStore := dataStore - {key};
      } else {
        return Err(NotOwner);
      }
      r := Ok;
    }
  }

  /**
   * A client of the canister: one principal creates an item, another fails to
   * change or remove it, a delete of a key never created fails, and the item
   * reads back as created.
   */
  method OwnershipScenario(alice: Principal, bob: Principal)
    requires alice != bob
  {
    var canister := new TodoCanister();
    var created := canister.Create(alice, 5, "buy milk");
    assert created == Ok;
    var updated := canister.Update(bob, 5, "buy oat milk");
    assert updated == Err(NotOwner);
    var deleted := canister.Delete(bob, 5);
    assert deleted == Err(NotOwner);
    var missing := canister.Delete(alice, 99);
    assert missing == Err(NotOwner);
    var again := canister.Create(bob, 5, "sell milk");
    assert again == Err(DuplicateId);
    var item := canister.Get(5);
    assert item == Some(Item(alice, "buy milk"));
    var page := canister.FetchAll(bob, 1, 10);
    FetchAllOwnsNothing(canister.dataStore, bob, 1, 10);
    assert page.page.items == [];
  }
}
