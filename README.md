# Message store of the canister backend

This project models the persistence core of the Internet Computer message
backend (`src/icp_rust_boilerplate_backend/src/lib.rs`) in Dafny. The core has
two stable partitions: a `u64` id counter (`ID_COUNTER`) and an ordered map from
`u64` id to `Message` (`STORAGE`). Four entry points read and change them:

- `get_message` looks up an id.
- `add_message` takes a fresh id from the counter and inserts a new record.
- `update_message` overwrites a record's text fields and update time.
- `delete_message` removes a record and returns it.

Layout:

- `backend.dfy`, module `Backend`: the `Message`, `MessagePayload` and `Error`
  types, the state (counter plus map), the invariant `Valid`, and each entry
  point as a pure transition. Each transition's contract states what changes,
  when `NotFound` is returned, that no other key changes, and that `Valid` is
  kept.
- `canister.dfy`, module `Canister`: class `Store`. Its fields `counter` and
  `storage` are updated in place by methods that mirror the four entry points.
  Each method states its new state directly and as the matching `Backend`
  transition.
- `history.dfy`, module `History`: sequences of calls run one after another, as
  the canister's single-threaded execution runs them. Lemmas prove the
  following over any sequence:
  - the invariant is kept;
  - the counter never decreases;
  - issued ids strictly increase;
  - no id is issued twice, and a deleted id is never issued again.

The counter starts at 0 (`lib.rs:103`). The model takes `increment()` (called at
`lib.rs:54`, not defined in `lib.rs`) to add one and return the new value, so the
first id is 1. The current time (`ic_cdk::api::time`) is a
parameter `now` of add and update.

## Model

| member | source | states |
|---|---|---|
| `Backend.Get` | src/icp_rust_boilerplate_backend/src/lib.rs:47-50 | `NotFound` exactly when the id is not a key; otherwise the stored message unchanged, which under the invariant carries the id it was looked up by |
| `Backend.Add` | src/icp_rust_boilerplate_backend/src/lib.rs:52-65 | the counter goes up by exactly one and its new value is the record's id; the record has the payload's fields, `created_at` = now and no `updated_at`; a later get of that id returns it; every other id reads as before; under the invariant the id was not a key and exceeds every key, and the invariant is kept |
| `Backend.Update` | src/icp_rust_boilerplate_backend/src/lib.rs:67-78 | `NotFound` exactly when the id is absent, and then nothing changes; otherwise the payload's fields and `updated_at` = now replace the stored ones, `id` and `created_at` stay, a later get returns the result, and the counter stays; every other id reads as before; the invariant is kept |
| `Backend.Delete` | src/icp_rust_boilerplate_backend/src/lib.rs:80-83 | `NotFound` exactly when the id is absent; otherwise the stored message is returned; afterwards get of the id is `NotFound`, the counter is unchanged, every other id reads as before, and the invariant is kept |
| `Backend.AddThenDelete` | src/icp_rust_boilerplate_backend/src/lib.rs:52-83 | deleting a just-added record returns it and restores the map, while the counter stays advanced |
| `Backend.UpdateTwice` | src/icp_rust_boilerplate_backend/src/lib.rs:67-78 | a second update of the same id gives the same state and result as that update alone |
| `History.Step` | src/icp_rust_boilerplate_backend/src/lib.rs:47-83 | any one call keeps the invariant; the counter rises by one exactly on add and otherwise stays |
| `History.Run` | src/icp_rust_boilerplate_backend/src/lib.rs:47-83 | a sequence of calls keeps the invariant; the counter never decreases and rises at most once per call |
| `History.IssuedFresh` | src/icp_rust_boilerplate_backend/src/lib.rs:54 | every id issued over a sequence of calls exceeds the starting counter, is at most the final counter, and the ids strictly increase |
| `History.IssuedBounded` | src/icp_rust_boilerplate_backend/src/lib.rs:54 | every id issued over a sequence of calls exceeds the starting counter and is at most the final counter |
| `History.IssuedIncreasing` | src/icp_rust_boilerplate_backend/src/lib.rs:54 | the ids issued over a sequence of calls strictly increase |
| `History.IssuedNotStored` | src/icp_rust_boilerplate_backend/src/lib.rs:54-63 | no id issued over a sequence of calls was a key of the starting state, so add never overwrites |
| `History.RemovedBounded` | src/icp_rust_boilerplate_backend/src/lib.rs:82 | every id removed by delete lies between 1 and the final counter |
| `History.RunAppend` | src/icp_rust_boilerplate_backend/src/lib.rs:47-83 | running two sequences in turn gives the state of running their concatenation |
| `History.IssuedAppend` | src/icp_rust_boilerplate_backend/src/lib.rs:54 | the ids issued over a concatenation are those of the first part followed by those of the second |
| `History.RemovedAppend` | src/icp_rust_boilerplate_backend/src/lib.rs:82 | the ids removed over a concatenation are those of the first part followed by those of the second |
| `History.NeverReissued` | src/icp_rust_boilerplate_backend/src/lib.rs:52-83 | splitting a history into two parts, its issued and removed ids are those of the parts in turn, and every id issued or deleted before a point of the history is smaller than every id issued after it: ids, deleted or not, are never issued again |
| `History.KeysAfter` | src/icp_rust_boilerplate_backend/src/lib.rs:52-83 | after any history from a valid state, an id is a key exactly when it was a key at the start or was issued by add, and was not removed by delete |
| `History.NeverIssuedNotFound` | src/icp_rust_boilerplate_backend/src/lib.rs:47-50 | from first start, get of an id that add never returned is `NotFound` |
| `History.IssuedDistinct` | src/icp_rust_boilerplate_backend/src/lib.rs:54 | the ids issued over any sequence of calls are pairwise distinct |
| `History.FirstIdIsOne` | src/icp_rust_boilerplate_backend/src/lib.rs:54 | from the initial state (counter 0, set at lib.rs:103), the first add issues id 1, given the increment-then-read reading of `increment()` |
| `History.Walkthrough` | src/icp_rust_boilerplate_backend/src/lib.rs:52-83 | add from the initial state gives id 1; updating it returns the new title with `updated_at` set and the old `created_at`; delete returns that last record; a later get is `NotFound` |
| `Canister.Store.constructor` | src/icp_rust_boilerplate_backend/src/lib.rs:34-45 | the store starts with counter 0 and an empty map, which satisfies the invariant |
| `Canister.Store.GetMessage` | src/icp_rust_boilerplate_backend/src/lib.rs:47-50 | `NotFound` exactly when the id is not a key; otherwise the stored message unchanged, whose id is the one asked for; nothing changes |
| `Canister.Store.AddMessage` | src/icp_rust_boilerplate_backend/src/lib.rs:52-65 | counter + 1 becomes the id of a record with the payload's fields, `created_at` = now, no `updated_at`; that id was not a key; the map gains exactly that entry; always `Some`; the invariant is kept |
| `Canister.Store.UpdateMessage` | src/icp_rust_boilerplate_backend/src/lib.rs:67-78 | `NotFound` with nothing changed exactly when the id is absent; otherwise the record with the payload's fields and `updated_at` = now, keeping `id` and `created_at`, replaces the entry under the same key and is returned; the counter stays; the invariant is kept |
| `Canister.Store.DeleteMessage` | src/icp_rust_boilerplate_backend/src/lib.rs:80-83 | `NotFound` exactly when the id is absent; otherwise the stored message is returned; the map loses exactly that key; the counter stays; the invariant is kept |

## Left out

- Candid serialisation (`Storable::to_bytes` and `from_bytes`, lib.rs:90-98) and the 1024-byte `MAX_SIZE` bound (lib.rs:29-32) are left out. The encoding belongs to a foreign library whose format is not visible here, so messages are stored in the map as values.
- The `MemoryManager` and `VirtualMemory` partitioning (lib.rs:34-45) are library plumbing. The two partitions are the two fields `counter` and `storage`.
- The `ic_cdk::query`/`update` dispatch and `ic_cdk::api::time` are runtime I/O. The timestamp is a parameter, and no claim is made that it increases between calls.
- `thread_local!` and `RefCell` only give single-threaded interior mutability. There is no concurrency to model.
- `Canister.Store.AddMessage`, `Backend.Add`, `History.Step` and `History.Run` require room left in the counter (`counter < U64_MAX`, or one unit per call for a sequence). The source does not handle overflow at `u64::MAX`.
- `Error::NotFound` carries a `msg` field (lib.rs:86-88), but the call sites build the error without one (lib.rs:49, 70, 82). The model has the variant, and no contract constrains its text.
- The second `ID_COUNTER` declaration (lib.rs:100-106) only gives the counter's initial value 0. It is not modelled as a separate counter.
- `update_message` sets `updated_at` to exactly the time passed in, so `updated_at` is at least the time of the update call.
- `increment()` is not defined in `lib.rs` (it is only called at lib.rs:54). The model assumes it adds one to the counter and returns the new value. The first id being 1 (`History.FirstIdIsOne`, `History.Walkthrough`) and the lower bound 1 in the invariant rest on that assumption.
