# Zero pallet, modelled in Dafny

The zero pallet is a small Substrate runtime module. It owns two storage items:

- `SimpleMap` maps an account to a `u32` counter.
- `UserCache` holds one account. It reads as the account type's default value until it is first written.

It exposes five dispatchable calls: `do_something`, `insert_entry`, `get_entry`, `increase_entry` and `update_cache`. Each call works in the same order:

1. Authenticate the origin with `ensure_signed`.
2. Check its preconditions: the needed entry exists, and the addition does not overflow.
3. Write storage.
4. Deposit exactly one event.

A call that fails returns before its first write, so it changes nothing and deposits no event.

The model has five modules:

- `ZeroTypes` (`zero_types.dfy`): `u32` as a bounded newtype, the account identity and its default, the origin, the error kinds, the events, `ensure_signed`, and `checked_add`. `checked_add` is written as a wrapped machine sum plus a carry test, and is proved to reject exactly the sums above `u32::MAX`.
- `ZeroTransitions` (`zero_transitions.dfy`): the storage and the event log as one value (`PalletState`), and one step function per call. The contracts of the step functions state what each call promises. `Dispatch` states what every call promises.
- `ZeroTraces` (`zero_traces.dfy`): `Run` replays a sequence of calls. Its lemmas hold for every trace:
  - keys are never removed;
  - the log gains one event per successful call and none per failed call;
  - unsigned traces change nothing;
  - every stored value is the last value the log reports for that account;
  - the `UpdateCache` events chain the cache slot from its first value to its last.
- `PalletZero` (`pallet_zero.dfy`): the pallet as a class. Its fields `simpleMap`, `userCache` and `events` are updated in place by one method per call. Each method is proved to follow its step function.
- `ZeroScenarios` (`zero_scenarios.dfy`): short call sequences on a fresh `Pallet`, proved from the method contracts alone.

## Model

| member | source | states |
|---|---|---|
| `ZeroTypes.CheckedAdd` | pallets/zero/src/lib.rs:217-218 | `checked_add` gives `None` exactly when the exact sum exceeds `u32::MAX`. Otherwise it gives the exact sum, so the result never wraps. |
| `ZeroTypes.EnsureSigned` | pallets/zero/src/lib.rs:174 | A signed origin yields its signer. A root or unsigned origin is rejected with `BadOrigin`. |
| `ZeroTransitions.DoSomethingStep` | pallets/zero/src/lib.rs:173-188 | Fails only for an unsigned origin, and then with `BadOrigin` and no change. Storage never changes. On success the log gains exactly `EmitInput(caller, input)`. |
| `ZeroTransitions.InsertEntryStep` | pallets/zero/src/lib.rs:191-198 | On success the caller's entry is `value`, whether or not it existed. The key set gains only the caller, other entries and the cache stay, and the log gains `InsertEntry(caller, value)`. Otherwise the call fails with `BadOrigin` and nothing changes. |
| `ZeroTransitions.GetEntryStep` | pallets/zero/src/lib.rs:201-210 | Storage never changes. `BadOrigin` exactly when unsigned. `NoValueStored` exactly when signed and the target has no entry; the log is then untouched. Success exactly when signed and the target has an entry, and then the log gains `GetEntry(caller, value of target)`. |
| `ZeroTransitions.IncreaseEntryStep` | pallets/zero/src/lib.rs:213-223 | `BadOrigin` exactly when unsigned. `NoValueStored` exactly when the caller has no entry. `MaxValueReached` exactly when entry + addition > 2^32 - 1. Any failure leaves the state as it was. On success the entry becomes the exact sum, the other entries and the cache stay, and the log gains `IncreaseEntry(caller, old, new)`. |
| `ZeroTransitions.UpdateCacheStep` | pallets/zero/src/lib.rs:228-240 | Fails only for an unsigned origin, and then with no change. The map never changes. On success the cache is the caller and the log gains `UpdateCache(value before the write, caller)`. |
| `ZeroTransitions.Dispatch` | pallets/zero/src/lib.rs:173-240 | For every call: `BadOrigin` exactly when unsigned, and a failure changes nothing. No key is removed. The log keeps its old events and gains exactly one event per success and none per failure. Only `update_cache` changes the cache. |
| `ZeroTraces.Run` | pallets/zero/src/lib.rs:173-240 | Over any sequence of calls: one result per call, the earlier log is a prefix of the final log, and the set of keys in `SimpleMap` only grows. |
| `ZeroTraces.OneEventPerSuccess` | pallets/zero/src/lib.rs:186-237 | After any trace, the log has grown by exactly the number of successful calls. |
| `ZeroTraces.UnsignedTraceChangesNothing` | pallets/zero/src/lib.rs:174-229 | A trace with no signed origin leaves storage and log unchanged, and every call fails with `BadOrigin`. |
| `ZeroTraces.NeverInsertedHasNoEntry` | pallets/zero/src/lib.rs:191-223 | An account without an entry that never sends `insert_entry` still has none after any trace. So `get_entry` on it fails with `NoValueStored`, whichever signed account asks, and so does its own `increase_entry` with any addend. |
| `ZeroTraces.DispatchLogsEntryWrites` | pallets/zero/src/lib.rs:191-223 | A single call changes an account's entry only as its own `InsertEntry`/`IncreaseEntry` event reports. |
| `ZeroTraces.DispatchLogsCacheWrites` | pallets/zero/src/lib.rs:228-240 | A single call's event accounts for its change of the cache slot, from the value read before the write to the caller. |
| `ZeroTraces.StoredValueIsLastLogged` | pallets/zero/src/lib.rs:191-223 | After any trace, each account's entry is the value in the last write event the trace logged for it. An account with no such event keeps its starting entry, or its lack of one. |
| `ZeroTraces.CacheChangesAreLogged` | pallets/zero/src/lib.rs:228-240 | After any trace, the `UpdateCache` events form an unbroken chain from the starting cache to the final cache. Each event's old account is the previous event's new account. |
| `PalletZero.Pallet.constructor` | pallets/zero/src/lib.rs:81-87 | A fresh pallet has an empty `SimpleMap`, the default account in `UserCache`, and no events. |
| `PalletZero.Pallet.DoSomething` | pallets/zero/src/lib.rs:173-188 | Follows `DoSomethingStep`. Storage is untouched, and on success exactly `EmitInput(caller, input)` is appended. |
| `PalletZero.Pallet.InsertEntry` | pallets/zero/src/lib.rs:191-198 | Follows `InsertEntryStep`: `simpleMap[caller] := value`, the cache is unchanged, and `InsertEntry` is appended. A failure leaves the object unchanged. |
| `PalletZero.Pallet.GetEntry` | pallets/zero/src/lib.rs:201-210 | Follows `GetEntryStep`. Storage is untouched. `NoValueStored` exactly when the caller is signed and the target is absent. Success exactly when the caller is signed and the target is present, and then `GetEntry(caller, target's value)` is appended. |
| `PalletZero.Pallet.IncreaseEntry` | pallets/zero/src/lib.rs:213-223 | Follows `IncreaseEntryStep`. The three error cases are stated as exact conditions, and a failure leaves the object unchanged. On success the entry becomes old + add with no wrap, the other keys and the cache stay, and `IncreaseEntry(caller, old, new)` is appended. |
| `PalletZero.Pallet.UpdateCache` | pallets/zero/src/lib.rs:228-240 | Follows `UpdateCacheStep`. The old cache value is read before the write. The cache becomes the caller and `UpdateCache(old, caller)` is appended. |
| `ZeroScenarios.InsertIncreaseGet` | pallets/zero/src/lib.rs:191-223 | Inserting 100, adding 50 and reading one's own entry stores 150. The log is `InsertEntry(a,100)`, `IncreaseEntry(a,100,150)`, `GetEntry(a,150)`. |
| `ZeroScenarios.InsertThenIncrease` | pallets/zero/src/lib.rs:213-220 | An insert of `v1` followed by an add of `v2` without overflow stores `v1 + v2` and logs `IncreaseEntry(a, v1, v1 + v2)`. |
| `ZeroScenarios.IncreaseAtMax` | pallets/zero/src/lib.rs:217-218 | An entry at `u32::MAX` rejects any positive addition with `MaxValueReached`. It stays at `u32::MAX` and nothing is logged. |
| `ZeroScenarios.InsertTwice` | pallets/zero/src/lib.rs:191-198 | A second insert overwrites the first, and both inserts are logged. |
| `ZeroScenarios.GetOtherEntry` | pallets/zero/src/lib.rs:201-207 | `get_entry` by `a` on `b`'s entry logs `GetEntry(a, b's value)`. The event names the caller, not the account read. |
| `ZeroScenarios.MissingEntry` | pallets/zero/src/lib.rs:203-215 | Reading or increasing an entry that was never inserted fails with `NoValueStored` and logs nothing. |
| `ZeroScenarios.UpdateCacheTwice` | pallets/zero/src/lib.rs:228-240 | Updates by `a` then `b` log `UpdateCache(default, a)` then `UpdateCache(a, b)`, and the cache ends as `b`. |
| `ZeroScenarios.NoSignerNoEffect` | pallets/zero/src/lib.rs:174-229 | With a root or unsigned origin, all five calls fail with `BadOrigin`, and storage and the log stay empty. |

## Left out

- The FRAME macros (`decl_storage!`, `decl_event!`, `decl_error!`, `decl_module!`, `fn deposit_event() = default`) and the runtime `Trait` configuration. They are modelled as plain datatypes, a class and its methods. The generated `Call` enum appears only as `ZeroTransitions.Call`.
- The documentation-only helpers `expand_decl_event`, `expand_decl_error` and `expand_decl_module`. They do nothing.
- `print("Hello World")` and `debug::info!` in `do_something`. They are diagnostic output only.
- Signature checking. The origin arrives already classified as root, signed or unsigned. Only `ensure_signed`'s decision on that origin is modelled.
- The `blake2_128_concat` hasher and the trie layout of storage. `SimpleMap` is an abstract finite map.
- Storage reads of absent keys. `SimpleMap::get` returns 0 for an absent key, but the pallet only calls it after `contains_key` succeeds, so the model reads only present keys.
- Account identities. They are modelled as natural numbers, with the zero identity as the account type's `Default`. Nothing in the pallet depends on their representation.
- The event log. The host keeps events per block, with topics and a phase. The model keeps one growing log of the pallet's own events.
- `DispatchError`. It is reduced to `BadOrigin` and `Module(ZeroError)`. The module index and error metadata are not modelled.
- Weights, fees and runtime registration.
- Concurrency. Calls are dispatched one at a time, and the model applies them in sequence.
- Root origins. `ensure_signed` (pallets/zero/src/lib.rs:174) rejects both the root and the unsigned origin with `BadOrigin`, and the model does the same; nothing further about origins is modelled.
