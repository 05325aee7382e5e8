# icp_todo backend in Dafny

A model of the todo canister of `icp_todo`: an Internet Computer canister
that keeps one stable, ordered map from 64-bit keys to todo items and answers
five calls over it.

- `create(key, value)` stores `Item { owner: caller, content: value }` under a
  key that is not yet taken, and refuses a taken key with `"Duplicate Id"`.
- `get(key)` returns the stored item, or nothing, to any caller.
- `update(key, value)` and `delete(key)` go through only when the key is
  present and the caller is its owner. Otherwise, including when the key is
  absent, they answer `"You are not the owner of todo item"`.
- `fetch_all(page_number, page_size)` walks the map in ascending key order,
  keeps the caller's items, skips `(page_number - 1) * page_size` of them and
  returns up to `page_size`. The page's `has_next_page` flag is always `true`.

The project has three files.

- `ordered_keys.dfy` (module `OrderedKeys`) gives the `u64` key type and the
  map's iteration order. `Sorted` lists a set of keys in ascending order.
  `AscendingUnique` proves that this listing is the only one possible.
- `todo.dfy` (module `Todo`) holds the data: `Principal`, `Item`, `Page`, and
  the results `Outcome` (`Result<(), String>`) and `PageResult`
  (`Result<Page, String>`). It also defines each handler as a function over
  the store as a value. The `fetch_all` pipeline
  `iter().map().filter().skip().take()` is written stage by stage as
  `Values`, `FilterOwner`, `Skip` and `Take`. The lemmas about the handlers
  live here too.
- `canister.dfy` (module `Canister`) holds the class `TodoCanister`. Its field
  `dataStore` is the `DATA_STORE` map. Its methods are the five handlers:
  `Create`, `Update` and `Delete` change the map in place, while `Get` and
  `FetchAll` only read it. Each method is proved to agree with the matching
  `Todo` function. `OwnershipScenario` is a client that runs one principal's
  item against a second principal's failed attempts to change it.

The caller that the canister gets from `ic_cdk::caller()` is an explicit
`caller` parameter of every handler. `Item::new` is the `Item` datatype
constructor.

`fetch_all` computes `page_number - 1` on `usize` with no check for 0
(`src/icp_todo_backend/src/lib.rs:72`). So the model states `pageNumber >= 1`
as a precondition of `fetch_all` and has no error result for page 0.

## Model

| member | source | states |
|---|---|---|
| `OrderedKeys.Sorted` | src/icp_todo_backend/src/lib.rs:58-59 | The stable map's iteration order: the result is strictly ascending and holds exactly the given keys. |
| `OrderedKeys.AscendingUnique` | src/icp_todo_backend/src/lib.rs:58-59 | Two strictly ascending key sequences with the same members are equal, so the set of keys alone fixes the iteration order. |
| `Todo.Get` | src/icp_todo_backend/src/lib.rs:84-88 | `get` returns an item exactly when the key is present, and then the item stored under it. |
| `Todo.Create` | src/icp_todo_backend/src/lib.rs:93-103 | Succeeds iff the key is absent. Then the key set grows by that key, which holds `Item(caller, value)`. Otherwise it returns "Duplicate Id" and the store is unchanged. Every existing entry stays as it was. |
| `Todo.Update` | src/icp_todo_backend/src/lib.rs:107-122 | Succeeds iff the key is present and owned by the caller, and then the key holds the new content under its old owner. Otherwise it returns the not-owner error and the store is unchanged. The key set never changes, nor does any other entry. |
| `Todo.Delete` | src/icp_todo_backend/src/lib.rs:127-140 | Succeeds iff the key is present and owned by the caller, and then the key set loses that key. Otherwise it returns the not-owner error and the store is unchanged. Every remaining entry is as it was. |
| `Todo.ValuesAreStoredItems` | src/icp_todo_backend/src/lib.rs:68-70 | Iterating the map and keeping the values yields exactly the stored items: an item is in the iteration iff it is stored under some key. |
| `Todo.FilterOwner` | src/icp_todo_backend/src/lib.rs:71 | `.filter(owner == caller)`: an item is in the result iff it is in the input and owned by the caller. The result is never longer than the input. |
| `Todo.FilterOwnerCounts` | src/icp_todo_backend/src/lib.rs:71 | The filter keeps each of the caller's items exactly as many times as the input holds it, and no other item. |
| `Todo.FetchAll` | src/icp_todo_backend/src/lib.rs:62-82 | `fetch_all` always answers `Ok` with `has_next_page = true`. The page has at most `pageSize` items (none when `pageSize` is 0), and every item is owned by the caller. |
| `Todo.CallerKeys` | src/icp_todo_backend/src/lib.rs:67-71 | The keys of the caller's items, strictly ascending: a key is listed iff it is present and owned by the caller. |
| `Todo.FilterOwnerByKeys` | src/icp_todo_backend/src/lib.rs:68-71 | Mapping entries to items and then filtering by owner gives the same result as filtering the keys by owner and then looking the items up. |
| `Todo.SkipTakeIsSlice` | src/icp_todo_backend/src/lib.rs:72-73 | `.skip(n).take(m)` is the slice `[n, n + m)` of its input, with both ends cut to the input's length. |
| `Todo.FetchAllIsSlice` | src/icp_todo_backend/src/lib.rs:67-75 | A page is the items under `PageKeys`, in that ascending order. `PageKeys` is `CallerKeys[lo..hi]`, where `lo = min((pageNumber - 1) * pageSize, n)`, `hi = min(lo + pageSize, n)` and `n` is the number of the caller's items. |
| `Todo.SameItemsSameKeys` | src/icp_todo_backend/src/lib.rs:67-71 | Two stores in which a principal owns the same items give that principal the same key list and the same item under each key. |
| `Todo.FetchAllReadsOnlyCallersItems` | src/icp_todo_backend/src/lib.rs:67-75 | A page depends only on the caller's own items: two stores that agree on them give equal results. |
| `Todo.SameKeysSamePages` | src/icp_todo_backend/src/lib.rs:67-75 | Two stores that give the caller the same key list, with the same item under each of those keys, give equal pages. |
| `Todo.FetchAllOwnsNothing` | src/icp_todo_backend/src/lib.rs:67-75 | A caller that owns no item gets an empty page, whatever else the store holds. |
| `Todo.TenItemsKeys` | src/icp_todo_backend/src/lib.rs:58-59 | With keys 1 to 10 all owned by one principal, that principal's keys in iteration order are exactly 1, 2, …, 10. |
| `Todo.TenItemsPages` | src/icp_todo_backend/src/lib.rs:67-75 | With keys 1 to 10 owned by one principal and pages of 3, page 1 is the items of keys 1, 2 and 3, and page 4 is the item of key 10 alone. |
| `Todo.MutationsSpareOthers` | src/icp_todo_backend/src/lib.rs:93-141 | `create`, `update` and `delete` called by one principal leave every other principal's items exactly as they were. None is changed, removed or added. |
| `Todo.MutationsKeepOthersPages` | src/icp_todo_backend/src/lib.rs:62-141 | No mutation by one principal changes any page of `fetch_all` that another principal gets. |
| `Todo.OwnersNeverChange` | src/icp_todo_backend/src/lib.rs:107-122 | No handler changes the owner of a key that stays present. `update`'s re-stamping with the caller writes back the owner that is already there. |
| `Todo.CreateThenGet` | src/icp_todo_backend/src/lib.rs:86-101 | `create` on an absent key succeeds, after which `get` returns `Item(caller, value)`. |
| `Todo.CreateTwiceRejected` | src/icp_todo_backend/src/lib.rs:97-99 | A second `create` on a key, by any principal, fails with "Duplicate Id", leaves the store unchanged, and the first item stays. |
| `Todo.CreateThenDeleteRestores` | src/icp_todo_backend/src/lib.rs:93-141 | `delete` by the creator right after a successful `create` succeeds and gives back exactly the earlier store. |
| `Todo.CreateThenForeignMutationRejected` | src/icp_todo_backend/src/lib.rs:107-141 | After one principal creates an item, another principal's `update` and `delete` both fail with the not-owner error, the store is unchanged, and `get` still returns the original item. |
| `Todo.UpdateIdempotent` | src/icp_todo_backend/src/lib.rs:107-122 | Repeating an `update` with the same value leaves the store as the first call left it. |
| `Canister.TodoCanister.constructor` | src/icp_todo_backend/src/lib.rs:58-59 | A freshly initialised store is empty. |
| `Canister.TodoCanister.Get` | src/icp_todo_backend/src/lib.rs:84-88 | Returns exactly the stored item, or `None` when the key is absent. It takes no caller and modifies nothing. |
| `Canister.TodoCanister.FetchAll` | src/icp_todo_backend/src/lib.rs:62-82 | Returns `Todo.FetchAll` of the current store and modifies nothing: always `Ok`, the flag set, at most `pageSize` items, all owned by the caller. |
| `Canister.TodoCanister.Create` | src/icp_todo_backend/src/lib.rs:90-103 | On a present key: `Err("Duplicate Id")` and the store unchanged. On an absent key: `Ok`, and the new store is the old one with the key mapped to `Item(caller, value)`. |
| `Canister.TodoCanister.Update` | src/icp_todo_backend/src/lib.rs:105-123 | Succeeds iff the key is present and owned by the caller. On success only that key's content changes and its owner stays. Otherwise it returns the not-owner error, for an absent key too, and the store is unchanged. |
| `Canister.TodoCanister.Delete` | src/icp_todo_backend/src/lib.rs:125-141 | Succeeds iff the key is present and owned by the caller. The new store is then the old store minus that key. Otherwise it returns the not-owner error, for an absent key too, and the store is unchanged. |

## Left out

- `Todo.FetchAll`: requires `pageNumber >= 1`. The handler's `page_number - 1` on `usize` is not defined for 0: it panics, or wraps in a build without overflow checks. What the deployed canister does there is not modelled.
- `Canister.TodoCanister.FetchAll`: the same `pageNumber >= 1` precondition, for the same reason.
- `Todo.FetchAll`: `page_number` and `page_size` are unbounded `nat`s. Wrap-around of the product `(page_number - 1) * page_size` on `usize` is not modelled.
- The Candid encoding in `Storable::to_bytes` and `from_bytes`, and the 128-byte `MAX_ITEM_SIZE` bound, are not modelled. The bound depends on Candid's byte layout and is enforced inside the stable-structures library. Items of any length are accepted, and a call that would trap on an oversized item is not modelled.
- The memory manager, virtual memory, stable-memory persistence across upgrades, and the `thread_local!`/`RefCell` plumbing are not modelled. The store is a plain `map` field of one object.
- `ic_cdk::caller()`, the `#[query]`/`#[update]`/`#[candid_method]` attributes and canister dispatch are not modelled. The caller is a parameter, and `Principal` is modelled as its bytes.
- `export_service!`, `export_candid` and the `save_candid` test are not modelled. They are schema export and file output.
- A trapping call's rollback is not modelled. No modelled handler traps under its precondition.
