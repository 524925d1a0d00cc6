# redux-persist-lazy, modelled in Dafny

redux-persist-lazy persists slices of a Redux store to a key-value storage.
Unlike redux-persist, it restores a slice only when something first reads it.

- **Wrappers.** `persistReducer`, `persistCombineReducers` and
  `persistCombineReducersLazy` wrap the application's reducers. Before its
  first restore, a wrapped slice's state is a lazy view: a JavaScript
  `Proxy` made by `createLazy` (or, in the older `persistableProxy`
  module, a persistable or combined proxy).
- **Restoring.** The first read through a view calls the slice's restore
  closure (`restoreItem` in `createHelpers` and in `persistReducer`). That
  closure:
  - reads the stored snapshot once (`getStoredState`);
  - migrates it (`createMigrate`);
  - reconciles it with the initial state (`autoMergeLevel1` or
    `autoMergeLevel2`);
  - caches the result and announces it with a rehydrate action.
- **Writing.** Each new state goes to the slice's persistoid
  (`createPersistoid`), which writes a debounced snapshot under the key
  `persist:<key>` (`buildKey`).
- **The persistor.** `persistStore` collects the persistoids through a
  register action and passes `flush`, `pause`, `persist` and `purge` on to
  each of them.

Modules follow the source files, grouped by concern: `Slice` holds
createPersistoid and createHelpers, and `Reconcile` holds both reconcilers.
Some modules have no source file of their own:
- `Js`, `Host`, `Snapshot` and `Config` hold the JavaScript values, the
  storage and store, the stored format, and the config;
- `Reducing` stands for Redux Toolkit's `combineReducers`, which the
  wrappers call;
- `FanOutState` holds the persistor's fan-out bookkeeping.

Code that computes
a value is written as datatypes, functions and lemmas. Code that changes
state step by step is written as classes: each method's contract states its
new state in terms of the old one, and functions and lemmas beside it state
what that new state means. The parts are:

- the storage, the store and the persistoid's closure variables are
  classes (`Host.Storage`, `Host.Store`, `Slice.Persistoid`);
- the restore closure is `Slice.Restorer`; each wrapper's closure is
  `PersistReducer.PersistedReducer` or `CombineLazy.LazyCombination`; the
  persistor is `PersistStore.Persistor`;
- the mutable objects behind the older proxies are `PersistableProxy.Box`;
- JavaScript values are the datatype `Js.Value`. A lazy view is a
  `View(target, supplier)`. Its supplier is defunctionalised: a fixed
  value, the whole restore, or one field of the restore;
- a trap whose answer depends only on the supplier's value is a function of
  that value (module `Lazy`). The restore helper calls the supplier and then
  applies that function.

Timers are explicit steps. `Persistoid.Fire` runs the pending debounced
write. `Persistoid.Tick` delivers one action posted with `setTimeout(0)`.
The configured `serialize`/`deserialize` pair is a `Codec` of two
functions. Where a property needs the codec to round-trip, that is a
precondition on the values involved. Redux Toolkit's `combineReducers`
lives outside this repository; module `Reducing` models it from its
documented behaviour: it reads each child's field (through the get trap
when the state is a lazy view), runs the child, refuses an undefined
result, and returns a new object only when some child's result differs
from the field it read or the state's key count (through the ownKeys trap)
differs from the number of children. Otherwise it returns the state it was
given, a view included.

## Model

| member | source | states |
|---|---|---|
| StorageKey.BuildKey | src/buildKey.ts:1-5 | The key is `persist:` followed by the config's key, and nothing else. |
| StorageKey.BuildKeyInjective | src/buildKey.ts:3-5 | Two configs get the same storage key exactly when their keys are equal. |
| Config.WithDefaultReconciler | src/persistCombineReducersLazy.ts:41 | `{ stateReconciler: default, ...config }` gives the config's reconciler if it names one, else the default. Key, storage, whitelist and version are unchanged. |
| PersistReducer.DefaultReconciler | src/persistReducer.ts:24 | persistReducer and createHelpers reconcile with autoMergeLevel1 unless the config names a reconciler. |
| Migrate.VersionsBetween | src/createMigrate.ts:22-25 | The manifest versions in a range, listed once each in ascending order. |
| Migrate.Steps | src/createMigrate.ts:22-25 | The selected migration keys are exactly the manifest versions above the inbound version and up to the current one, in ascending order. |
| Migrate.CreateMigrate | src/createMigrate.ts:5-34 | As written. A falsy state gives undefined. A state whose inbound version is equal to or above the current one is returned as it is. |
| Migrate.MigrateAppliesOnlyLastStep | src/createMigrate.ts:27-33 | As written, with an older inbound version, the result is the highest defined selected migration applied to the ORIGINAL state. With no defined migration the result is the state itself. |
| Migrate.RunAsWrittenIsLastStep | src/createMigrate.ts:27-33 | The reduce as written gives the last defined step applied to the original state, or the initial accumulator. |
| Migrate.RunAsWrittenSnoc | src/createMigrate.ts:27-33 | One more step in the reduce as written replaces the result by that step applied to the original state, if the step is defined. |
| Migrate.LastDefined | src/createMigrate.ts:28-29 | The last defined migration among the steps is one of the steps and is defined in the manifest. |
| Migrate.AsWrittenDropsEarlierStep | src/createMigrate.ts:30 | Manifest {0: add a, 1: add b} on `{}` at version 1 gives `{b: 2}` as written, and `{a: 1, b: 2}` when composed. |
| Migrate.ComposedMigrate | src/createMigrate.ts:5-34 | Corrected: each selected migration is applied to the previous one's result. The falsy and up-to-date cases are the same as written. |
| Migrate.ComposedRunsInOrder | src/createMigrate.ts:22-33 | With two selected migrations k1 < k2, the corrected result is `m[k2](m[k1](state))`. |
| Migrate.RunComposedAppend | src/createMigrate.ts:27-33 | Running the steps a + b in sequence is running b on the result of a. |
| Migrate.MigrateWithoutStepsIsIdentity | src/createMigrate.ts:22-33 | When no manifest version is selected, both versions return a truthy state unchanged. |
| Migrate.NoVersionsBetween | src/createMigrate.ts:22-25 | A range with no manifest version selects nothing. |
| Migrate.VersionsBetweenSplit | src/createMigrate.ts:22-25 | Splitting the version range splits the ascending list at the same point. |
| Migrate.PairOfVersions | src/createMigrate.ts:22-25 | A range holding exactly two manifest versions lists them in ascending order. |
| Migrate.OneVersion | src/createMigrate.ts:22-25 | A range holding exactly one manifest version lists just it. |
| Reconcile.AutoMergeLevel1 | src/stateReconciler/autoMergeLevel1.ts:10-31 | The loop's result is the object `Level1`: the reduced state's keys plus the taken inbound keys. A taken key is not `_persist` and has the same value in the original and the reduced state; it gets the inbound value. Every other key keeps its reduced value. |
| Reconcile.Overlaid1Step | src/stateReconciler/autoMergeLevel1.ts:16-27 | One pass of the loop extends the overlay to one more inbound key. |
| Reconcile.Overlaid1Complete | src/stateReconciler/autoMergeLevel1.ts:13-30 | Once every inbound key has been visited, or none is visited, the overlay is `Level1`. |
| Reconcile.Level1Lookup | src/stateReconciler/autoMergeLevel1.ts:11-27 | A key is in the level-1 result exactly when it is a reduced key or a taken inbound key. Its value is the inbound one if taken, else the reduced one. |
| Reconcile.AutoMergeLevel2 | src/stateReconciler/autoMergeLevel2.ts:11-37 | The loop's result is the object `Level2`. It has Level1's keys. A taken key whose reduced value is a plain enough object gets the shallow merge `{...reduced[k], ...inbound[k]}`; any other taken key gets the inbound value. |
| Reconcile.Overlaid2Step | src/stateReconciler/autoMergeLevel2.ts:17-33 | One pass of the loop extends the overlay to one more inbound key. |
| Reconcile.Overlaid2Complete | src/stateReconciler/autoMergeLevel2.ts:14-36 | Once every inbound key has been visited, or none is visited, the overlay is `Level2`. |
| Reconcile.Level2Lookup | src/stateReconciler/autoMergeLevel2.ts:12-33 | A key is in the level-2 result exactly when it is a reduced key or a taken inbound key. Its value is the merge if taken, else the reduced one. |
| Reconcile.RunReconciler | src/persistReducer.ts:38 | Calling the configured reconciler as `(inbound, state, state)` gives `Reconciled`. The two built-in reconcilers always return an object. |
| Reconcile.PersistNeverCopied | src/stateReconciler/autoMergeLevel1.ts:17-20 | For both levels, `_persist` in the result is exactly the reduced state's `_persist`. |
| Reconcile.ChangedKeyKeepsReduced | src/stateReconciler/autoMergeLevel2.ts:22-25 | For both levels, a key the reducer changed keeps its reduced value. It is present only if the reduced state has it. |
| Reconcile.ReducedOnlyKeyKept | src/stateReconciler/autoMergeLevel1.ts:11 | For both levels, a reduced key absent from the inbound state keeps its reduced value. |
| Reconcile.NoInboundGivesCopy | src/stateReconciler/autoMergeLevel1.ts:11-13 | For both levels, a falsy or non-object inbound state gives exactly `{ ...reduced }`. |
| Reconcile.Level1SetsTakenKey | src/stateReconciler/autoMergeLevel1.ts:25-26 | Level 1 hard-sets every taken key, including keys the reduced state lacks. |
| Reconcile.Level2MergesPlainObject | src/stateReconciler/autoMergeLevel2.ts:26-29 | Level 2 on a taken key with a plain-object reduced value gives the reduced fields overlaid by the inbound fields, the inbound ones winning. |
| Reconcile.Level2ReplacesOther | src/stateReconciler/autoMergeLevel2.ts:31-32 | Level 2 on a taken key whose reduced value is null, an array or a primitive hard-sets the inbound value. |
| Reconcile.SameStateTakesEveryInboundKey | src/createHelpers.ts:30 | Called as `(inbound, state, state)`, every inbound key but `_persist` is taken. The result's keys are the state's keys plus the inbound keys other than `_persist`. |
| Reconcile.Level2Example | src/stateReconciler/autoMergeLevel2.ts:26-29 | Reduced `{a: {y: 2}}` with inbound `{a: {x: 1}}` gives `{a: {x: 1, y: 2}}`. |
| Snapshot.TransformsRoundTrip | src/getStoredState.ts:20-23 | When each transform's `out` undoes its `in`, running the `in` chain (left to right) and then the `out` chain (right to left) restores the value. |
| Snapshot.NothingStoredIsNull | src/getStoredState.ts:12-14 | Nothing stored, or an empty text, reads as null. |
| Snapshot.MissingPersistDefaults | src/getStoredState.ts:26-32 | A snapshot without `_persist` reads with `_persist = {version: -1, rehydrated: true}`. |
| Snapshot.StoredPersistMarkedRehydrated | src/getStoredState.ts:26-32 | A stored `_persist` object is kept, with `rehydrated` set to true. |
| Snapshot.DecodeWrittenFields | src/getStoredState.ts:16-24 | Decoding the field texts setItem serialized gives back each written field. A precondition says the codec and the transforms round-trip. |
| Snapshot.EncodeDecodeRoundTrip | src/createPersistoid.ts:17-33 | What setItem stores, read back by getStoredState, is the written fields plus `_persist` marked rehydrated. Fields whose end state is undefined are dropped. A precondition says the codec and the transforms round-trip. |
| Snapshot.DecodedIsRestored | src/getStoredState.ts:30-32 | The decoded fields with `_persist` marked rehydrated are exactly the restored state. |
| StoredState.GetStoredState | src/getStoredState.ts:7-35 | The method's result is `Decode` of what the storage held under the slice's key. It makes exactly one read: `getItemSync` on a compatible storage, `getItem` otherwise. The items are unchanged. |
| StoredState.DecodedComplete | src/getStoredState.ts:19-24 | After the loop has visited every own key of the parsed snapshot, its map is `DecodeFields`. |
| Host.Storage.constructor | src/types.ts:3-12 | A storage starts with the given items and an empty access log. |
| Host.Storage.Read | src/types.ts:4-11 | A read returns the stored text and changes no item. It logs `getItemSync` on a compatible storage and `getItem` otherwise. |
| Host.Storage.Write | src/types.ts:5 | `setItem` stores the text under the key, leaves every other item unchanged, and is logged. |
| Host.Storage.Remove | src/types.ts:6 | `removeItem` deletes exactly that key and is logged. |
| Host.Store.constructor | src/persistStore.ts:11 | A store starts having dispatched nothing. |
| Host.Store.Dispatch | src/persistStore.ts:15 | `store.dispatch` appends the action to the dispatched actions. |
| Js.ProxyTarget.constructor | src/createLazy.ts:39 | Each proxy's target starts as an empty, extensible object. |
| Js.DecimalRoundTrip | src/createLazy.ts:15-21 | `Number(String(n))` is n for every integer. |
| Js.ParseIndexRoundTrip | src/createLazy.ts:80-88 | The decimal text of an array index parses back to that index, so each index name ownKeys lists names one element. |
| Js.CanonicalDigits | src/createLazy.ts:80-88 | A canonical digit string is the text of its own value. |
| Js.IndexKeyIff | src/createLazy.ts:80-88 | A key is an index name of an n-element array exactly when it parses as an index below n. |
| Js.SpreadOfObject | src/stateReconciler/autoMergeLevel1.ts:11 | `{ ...o }` of a plain object has exactly its fields. |
| Lazy.WritesNeverSucceed | src/createLazy.ts:8-13 | The set, defineProperty and deleteProperty traps never report success. In development they throw; otherwise they return false. |
| Lazy.DevelopmentMessages | src/createLazy.ts:99-101 | In development each write trap throws `<trap> is not supported`, naming its own trap. |
| Lazy.CoercionRoundTrip | src/createLazy.ts:15-23 | The toPrimitive coercer maps a number to its string and back to the same number. It gives a string unchanged for the string hint, and gives the value itself for the default hint. |
| Lazy.UnwrapAsLazy | src/createLazy.ts:109-116 | `valueOf(asLazy(v))` is v for every value that is neither a view nor a wrapper. asLazy keeps a view as it is, is idempotent, and always yields something with a valueOf method. |
| Lazy.CreateLazy | src/createLazy.ts:38-107 | createLazy gives a view over the supplier, on a fresh empty extensible target, and the view is registered, so isPersistable holds for it. |
| Lazy.NullishViewIsEmpty | src/createLazy.ts:46-48 | When the supplier gives null or undefined, the view reads undefined, has nothing, lists no keys and describes nothing. |
| Lazy.PrimitiveViewReads | src/createLazy.ts:49-54 | Over a primitive, a key reads the primitive itself and `Symbol.toPrimitive` gives its coercer. `has` is false and there are no keys. |
| Lazy.ObjectViewReads | src/createLazy.ts:55-56 | Over an object, a key reads the field through valueOf: a wrapper is unboxed, a view forced, anything else returned as it is, and a missing field reads undefined. |
| Lazy.DescriptorsConfigurable | src/createLazy.ts:58-72 | Every descriptor the trap reports is configurable. |
| Lazy.ObjectTrapsAgree | src/createLazy.ts:63-87 | Over an object, `ownKeys`, `has` and `getOwnPropertyDescriptor` agree on which keys exist. |
| Lazy.PreventExtensions | src/createLazy.ts:89-98 | The trap adds every own key of the value to the target as undefined, keeps the target's other properties, makes it non-extensible and returns true. A throwing supplier leaves the target unchanged. |
| Lazy.FrozenNamesAreOwnKeys | src/createLazy.ts:90-94 | The names preventExtensions writes are exactly the keys `ownKeys` reports. Over a primitive, `Reflect.ownKeys` throws. |
| Lazy.KeysThrough | src/createLazy.ts:80-88 | `Object.keys(view).length` once the supplier answered: 0 over null, undefined or a primitive, 1 over a boxed primitive, the own-key count over an object or array, and through a view over a fixed value the count of that value. |
| Lazy.KeySetThrough | src/createLazy.ts:80-88 | The names `Object.keys(view)` gives once the supplier answered: none over null, undefined or a primitive, just `valueOf` over a boxed primitive, the own keys of an object or array, and through a view over a fixed value the names of that value. |
| Lazy.ListedKeys | src/createLazy.ts:80-88 | Of the names the ownKeys trap lists, the enumerable ones are an object's or array's own keys, just `valueOf` for a boxed field, and none over null, undefined or a primitive. |
| Slice.UpdateDecision | src/createPersistoid.ts:75-91 | updateIfChanged ignores the blacklist. Fields are read as `prev[key]` reads them, through the get trap of a view over a fixed value, and keys as `Object.keys` lists them, through its ownKeys trap. With a whitelist it updates exactly when a whitelisted key changed. Without one it updates exactly when the key counts differ or some key of the new state changed. Over states that are not views these are the plain fields and own keys. |
| Slice.FixedViewComparedThrough | src/createPersistoid.ts:79-88 | A view over the fixed `{a: 1, b: 1}` against `{a: 1, b: 2}`: with the whitelist `["a"]` nothing is updated, because `a` reads 1 on both sides; without a whitelist both have the keys a and b, `b` differs, and the state is updated. |
| Slice.Persistoid.constructor | src/createPersistoid.ts:8-15 | A persistoid starts with null last state, no timer, not paused, no store and no pending actions. |
| Slice.Persistoid.Update | src/createPersistoid.ts:46-55 | `update` records the state. Unless paused, it replaces the pending write by one of this state. |
| Slice.Persistoid.UpdateIfChanged | src/createPersistoid.ts:75-91 | Calls update with `next` exactly when it answers true, and never writes storage. The same state answers false and reads nothing. When no read of either state reaches a restore supplier of this slice (`Detached`: a view over a fixed value is read through its traps), the answer is `ShouldUpdate(config, prev, next)`, and nothing is restored, dispatched or read from storage. |
| Slice.Persistoid.Compare | src/createPersistoid.ts:79-90 | For two different detached states it answers `ShouldUpdate` and reads nothing from storage. |
| Slice.Persistoid.CompareOwnKeys | src/createPersistoid.ts:79-90 | Without a whitelist, over detached states: `Object.keys` of a nullish state throws; different key counts answer true; otherwise the answer is whether some key of `next` reads differently in the two states. |
| Slice.Persistoid.KeysDiffer | src/createPersistoid.ts:85-90 | The loop over detached states answers true exactly when some compared key reads differently in the two states. With at least one key, a nullish state throws. |
| Slice.Persistoid.KeyDiffers | src/createPersistoid.ts:86 | One key of a detached pair: throws on a nullish state, otherwise answers whether the two reads differ. |
| Slice.Persistoid.ReadField | src/createPersistoid.ts:86 | `v[k]` of a detached state throws on null or undefined and otherwise is `ReadThrough(v, k)`: the plain field, or what the get trap of a view over a fixed value answers. Nothing is restored or read from storage. |
| Slice.Persistoid.ReadKeys | src/createPersistoid.ts:79-80 | `Object.keys(v)` of a detached state throws on null or undefined and otherwise lists its own keys, or for a view over a fixed value what its ownKeys trap lists. Nothing is restored or read from storage. |
| Slice.Persistoid.Dispatch | src/createPersistoid.ts:57-63 | Before a store is set, the action is queued. Afterwards it is posted to the store. |
| Slice.Persistoid.SetStore | src/createPersistoid.ts:66-72 | The store is set, every queued action is posted to it in order, and the queue is emptied. |
| Slice.Persistoid.Rehydrate | src/createPersistoid.ts:109-112 | Sends the rehydrate action with the slice key. Its key is forwarded to onRehydrate when the store has one. |
| Slice.Persistoid.Tick | src/createPersistoid.ts:40-44 | One event-loop turn dispatches the oldest posted action to its store and removes it from the posted queue. |
| Slice.Persistoid.Pause | src/createPersistoid.ts:96-99 | Cancels the pending write and pauses. |
| Slice.Persistoid.Purge | src/createPersistoid.ts:100-103 | Cancels the pending write and removes exactly the slice's key from the storage. |
| Slice.Persistoid.SetItem | src/createPersistoid.ts:17-33 | Stores `Encode(config, state, values)` under the slice's key, changes no other key, and resets the last state to null. The values have exactly the whitelisted keys, or the own keys not blacklisted. A field that is not a view of this slice's restore is written as its plain value; one that is, as what its supplier gives from the restored state. A throw leaves storage and last state unchanged. Over a null or undefined state, with no whitelist, it throws without writing. |
| Slice.Persistoid.UnwrapFields | src/createPersistoid.ts:19-28 | The valueOf loop over the written keys: on success every key is unwrapped as SetItem states, and nothing is written yet. |
| Slice.Persistoid.ValueOf | src/createPersistoid.ts:23 | valueOf of a field that is not a restore view of this slice is its plain value. A view of this slice gives what its supplier gives from the restored state, and a cache already present stays. Nothing is written. |
| Slice.Persistoid.Fire | src/createPersistoid.ts:52-54 | The debounced write runs once. With no pending write nothing happens. A completed write stores the encoding of the pending state with its unwrapped fields under the slice's key, leaves the other keys unchanged and resets the last state. A throw changes neither storage nor last state. |
| Slice.Persistoid.Flush | src/createPersistoid.ts:92-95 | Cancels the pending write. If the last state is truthy it stores that state's encoding under the slice's key and resets the last state; otherwise, or on a throw, storage and last state stay as they were. |
| Slice.Persistoid.Persist | src/createPersistoid.ts:104-108 | Cancels the pending write and resumes. It then writes the last state as Flush does: the encoding if truthy, nothing otherwise, and nothing on a throw. |
| Slice.Restorer.constructor | src/createHelpers.ts:9-17 | A restore helper starts unrestored, with its own fresh persistoid. |
| Slice.Restorer.RestoreItem | src/createHelpers.ts:19-35 | Once restored, it returns the cache without touching storage. A truthy key outside the whitelist (createHelpers only) gets the state as it is. Otherwise there is one storage read, then `Restoration`: on success it caches the state, sends rehydrate, marks isRestored and returns `reconciled ?? state`; a throw caches nothing. |
| Slice.Restorer.Load | src/createHelpers.ts:28-34 | Read, migrate, reconcile, cache and announce, as `Restoration` says. |
| Slice.Restorer.Announce | src/createHelpers.ts:31-32 | createHelpers announces through the persistoid's rehydrate and sets isRestored. persistReducer's copy dispatches the rehydrate action itself. |
| Slice.Restorer.Supply | src/persistCombineReducersLazy.ts:96-100 | A fixed supplier gives its value. Once restored, a whole-state supplier gives the cache and a field supplier reads the cached state's field, falling back to the initial one, all without touching storage. The call that restores answers `Supplied` of the new state, which is `Restoration` of what storage held. A key the whitelist opts out of gets the initial state. |
| Slice.Restorer.Force | src/createLazy.ts:25-33 | valueOf of anything but this slice's own view is its plain value, with nothing read. Of an own view it is what the supplier gives from the restored state, restoring it first if needed. |
| Slice.Restorer.Get | src/createLazy.ts:41-57 | `v[k]` of a non-view is the field, and throws on null or undefined. `toJSON` and `valueOf` of a view read nothing. Otherwise the get trap answers from the supplier's value: a fixed value, the cached state, the initial state for an opted-out key, or the state this call restored. A throwing restore is passed on. A view over a fixed value whose field is not a view of this slice reads `ReadThrough` and touches nothing. |
| Slice.Restorer.Keys | src/createLazy.ts:80-88 | `Object.keys(v)` of a non-view lists its own keys, and throws on null or undefined. A view over a fixed value lists `KeySetThrough` of that value. An own view restores if needed and lists `KeySetThrough` of what its supplier gives; a throwing restore is passed on. |
| Slice.Restorer.KeyCount | src/createLazy.ts:80-88 | `Object.keys(v).length` of a non-view counts its own keys, and throws on null or undefined. A view over a fixed value counts as `KeysThrough` of that value. An own view restores if needed and counts `KeysThrough` of what its supplier gives; a throwing restore is passed on. |
| Reducing.Run | src/persistReducer.ts:81 | When no reducer handles the action and the state is `Readable` (no view at a combined level, views over fixed values, or this closure's own views once it has restored), the run reads no storage, restores and dispatches nothing, and returns `Idled`. When every child of a combined level returns the very field it read and the key counts agree (`Still`), the result is the state itself, a view included. A computing leaf returns its step applied to its plain state. A combined reducer started from undefined returns an object with exactly its children's keys. |
| Reducing.Combine | src/persistCombineReducers.ts:85 | The combineReducers half of Run: told that the run is idle over a readable state, it reads nothing and returns `Idled`. Started from undefined it returns an object with exactly the children's keys. |
| Reducing.Children | src/persistCombineReducers.ts:60 | Every child's result and the field it read (`previousStateForKey`), keyed by the child's name. In an idle run over a readable state it reads nothing, succeeds exactly when every child settles, and each field read is the field of what the state resolves to. |
| Reducing.Child | src/persistCombineReducers.ts:60 | One child: its field is read through the get trap and run, and an undefined result throws. In an idle readable run the result is the child's idle result and the field read is the resolved field. |
| Reducing.Count | src/persistCombineReducers.ts:60 | `Object.keys(state).length`: for a state that is not a view, its own key count, throwing when nullish. For a readable view, the key count of what it resolves to, read without touching storage. |
| Reducing.IdledThrows | src/persistCombineReducers.ts:60 | A nullish combined state or a failing child makes the idle run throw. |
| Reducing.IdledFromChildren | src/persistCombineReducers.ts:60 | The children's settled results and the fields they read determine the idle result: a new object exactly when some result differs from its field or the key counts differ, else the state itself. |
| Reducing.StillIdled | src/persistCombineReducers.ts:60 | A level whose children all return the field they read, over a state with as many keys as children, is idle and yields that state itself, a view included. |
| CombineLazy.CreateCombinedProxy | src/persistCombineReducersLazy.ts:86-116 | An object with exactly the initial state's keys. A field becomes a fresh view of field k of the restore when it is not already a view and the whitelist, if any, includes it; otherwise it is the initial value. A nullish initial state throws. |
| CombineLazy.WrappingFollowsWhitelist | src/persistCombineReducersLazy.ts:102-112 | A field outside the whitelist is the initial value. Without a whitelist, every non-view field is wrapped. A view is kept as it is. |
| CombineLazy.FieldFallsBack | src/persistCombineReducersLazy.ts:96-100 | A wrapped field reads the restored field, falling back to the initial field when that is nullish. A nullish restore falls back to the initial state. |
| CombineLazy.LazyDefaults | src/persistCombineReducersLazy.ts:41 | Defaults the reconciler to autoMergeLevel2, keeping key, whitelist and storage. |
| CombineLazy.LazyCombination.constructor | src/persistCombineReducersLazy.ts:41-46 | The wrapper starts with its own helpers and no inner or outer proxy. |
| CombineLazy.LazyCombination.GetOrCreateProxy | src/persistCombineReducersLazy.ts:47-55 | The first call builds the inner proxy from the initial state: one field per child, laid out as CreateCombinedProxy says. It also builds the outer view over the whole restore. Later calls return the same inner proxy and read nothing. Building reads nothing when the reducers ignore the get-empty-state action over readable initial states. |
| CombineLazy.LazyCombination.Reduce | src/persistCombineReducersLazy.ts:56-83 | Undefined or the outer proxy is replaced by the inner proxy. A new state becomes the inner proxy with a fresh outer view over it, and the persistoid's last state becomes it or stays; when neither state's reads reach this slice's restore (`Detached`), it becomes it exactly when `ShouldUpdate` says so. The store always gets the outer view. An action every reducer ignores, over a readable state, once the inner proxy exists or when no replacing is needed: when the idle result is that state (a still level, say), the run succeeds with it, reads no storage, restores nothing, and the persistoid's last state and timer stay as they were; over a detached state it reads no storage and restores nothing whatever the result. The register action hands the persistor this slice's persistoid, appended to its list with the persistor's store set. |
| CombineLazy.LazyCombination.Advance | src/persistCombineReducersLazy.ts:70-82 | The reducer run and the keeping of its result, as Reduce states. An idle run over a readable state whose idle result is the state itself reads nothing and changes nothing; over a readable detached state it reads nothing whatever the result. |
| CombineLazy.LazyCombination.Keep | src/persistCombineReducersLazy.ts:72-80 | A changed state replaces the inner proxy and gets a new outer view, and the persistoid's last state becomes it or stays; for detached states it becomes it exactly when `ShouldUpdate` says so, and nothing is read. An unchanged one keeps both, creating the outer view only if none exists, and reads nothing. |
| CombineReducers.PersistCombineReducers | src/persistCombineReducers.ts:49-99 | With `lazy: true` the result is the lazy combined wrapper; otherwise it is persistReducer over `combineReducers`. Either way the reconciler defaults to autoMergeLevel2. |
| CombineReducers.ReconcilerDefault | src/persistCombineReducers.ts:53 | The defaulted config reconciles with autoMergeLevel2 unless one is named, and keeps the `lazy` flag. |
| PersistReducer.WhitelistHit | src/persistReducer.ts:60-65 | A changed whitelisted field of two non-nullish states triggers an update. |
| PersistReducer.WhitelistNullish | src/persistReducer.ts:61-62 | With a non-empty whitelist, reading fields of a nullish state throws. |
| PersistReducer.WhitelistMiss | src/persistReducer.ts:60-66 | When every whitelisted field is equal, nothing is updated. |
| PersistReducer.DecisionAgainstPersistoid | src/persistReducer.ts:56-70 | With a whitelist the wrapper decides as the persistoid's updateIfChanged does. Without one it updates on every new state, which covers every case the persistoid would update in. |
| PersistReducer.PersistedReducer.constructor | src/persistReducer.ts:20-30 | A wrapper starts with no proxy and its own helpers. |
| PersistReducer.PersistedReducer.GetOrCreateProxy | src/persistReducer.ts:45-54 | Corrected: the first call builds a view over the whole restore, or for `combined` per-field views as CreateCombinedProxy lays out. It keeps that proxy, and later calls return it and read nothing. Building reads nothing when the reducers ignore the get-empty-state action over readable initial states. |
| PersistReducer.PersistedReducer.UpdateIfChanged | src/persistReducer.ts:56-70 | The same state gives false. Over non-view states the result is `ReducerShouldUpdate` and nothing is read. The persistoid gets `next` exactly when the answer is true. |
| PersistReducer.PersistedReducer.WhitelistDiffers | src/persistReducer.ts:61-66 | The loop over the whitelist answers as `ReducerShouldUpdate`. |
| PersistReducer.PersistedReducer.FieldDiffers | src/persistReducer.ts:62 | Compares one field, throwing on a nullish state. |
| PersistReducer.PersistedReducer.Reduce | src/persistReducer.ts:72-86 | Undefined is replaced by the proxy. The reducer's result is returned as it is, and the persistoid's last state follows `ReducerShouldUpdate`. An action every reducer ignores, over a readable state whose idle result is that state (a still level, say), returns the state itself and neither reads nor persists; a state that is still undefined needs the proxy built already. The register action hands the persistor this slice's persistoid, appended to its list with the persistor's store set. |
| PersistReducer.PersistedReducer.Advance | src/persistReducer.ts:81-85 | The reducer run and updateIfChanged, as Reduce states. An idle run over a readable state whose idle result is the state itself returns it, reads nothing and leaves the persistoid as it was. |
| PersistReducer.AsWrittenProxy | src/persistReducer.ts:2 | As written: without `combined` the factory is undefined and throws. With `combined` it is persistableProxy's createCombinedProxy, given the restore closure as initial state and the config as getItem, so resolving it throws. |
| PersistReducer.AsWrittenFieldsThrow | src/persistReducer.ts:49-50 | As written, every field read from that combined proxy throws, whatever storage holds. |
| PersistableProxy.Resolve | src/persistableProxy.ts:8-16 | getPersisted gives the fetched object, or the initial one when that is nullish. An uncallable getItem throws. |
| PersistableProxy.Reconfigured | src/persistableProxy.ts:29-39 | The reported descriptor is the own one made configurable, or a configurable undefined one when there is none. |
| PersistableProxy.Validated | src/persistableProxy.ts:29-39 | The engine accepts a reported descriptor unchanged, and rejects a configurable or missing report for a locked property of `self`. |
| PersistableProxy.GetChecked | src/persistableProxy.ts:19-28 | A get result passes unchanged when `self` holds no such property. |
| PersistableProxy.Assign | src/persistableProxy.ts:43-46 | Writing k of an object sets exactly that field. |
| PersistableProxy.Box.constructor | src/persistableProxy.ts:7 | An object holding the given value. |
| PersistableProxy.PersistableView.constructor | src/persistableProxy.ts:7 | A proxy starts with an empty `self`. |
| PersistableProxy.PersistableView.Set | src/persistableProxy.ts:43-46 | As written, the resolved state never changes. A write to an existing field succeeds exactly when `self` did not yet hold it, and then locks it on `self`. |
| PersistableProxy.PersistableView.WriteThrough | src/persistableProxy.ts:43-46 | Corrected: the write lands on the resolved object, so it becomes `fields[k := v]` and reading k gives v back. |
| PersistableProxy.PersistableView.ReadsBack | src/persistableProxy.ts:19-28 | Once the resolved object holds v at k, the get trap reads v. |
| PersistableProxy.CombinedView.constructor | src/persistableProxy.ts:54-65 | A combined proxy starts with no cached children and an empty `self`. |
| PersistableProxy.CombinedView.Get | src/persistableProxy.ts:66-97 | toJSON gives the resolver, and the two tags read true. A key gives its cached child; on the first read the child is the initial state's own proxy or a fresh persistable proxy over that field. A nullish initial state throws. |
| PersistableProxy.CombinedView.Set | src/persistableProxy.ts:107-110 | As written, the resolved state never changes. A first write defines k on `self`, locked when the state has k. |
| PersistableProxy.CombinedView.WriteThrough | src/persistableProxy.ts:107-110 | Corrected: the resolved object becomes `fields[k := v]`. |
| PersistableProxy.Tags | src/persistableProxy.ts:119 | isPersisted is true for both kinds of proxy and false for other non-nullish values. A persistable proxy never claims COMBINED. |
| PersistableProxy.FallsBack | src/persistableProxy.ts:8-16 | A top-level proxy resolves to `getItem() ?? initial`. |
| PersistableProxy.ChildFallsBack | src/persistableProxy.ts:55-62 | A child resolves to `parent[k] ?? initial[k]`. It throws on a nullish parent state. |
| PersistableProxy.ToJsonIsResolver | src/persistableProxy.ts:20-22 | toJSON reads as the resolver function. |
| PersistableProxy.LockedFieldUnreadable | src/persistableProxy.ts:43-46 | After a write as written to a field with another value, reading that field throws the engine's invariant error. |
| PersistStore.Persistor.constructor | src/persistStore.ts:11-27 | Calls the callback at most once, then dispatches exactly one register action. |
| PersistStore.Persistor.Register | src/persistStore.ts:17-25 | Sets the persistoid's store, which posts its queued actions, and then appends it. |
| PersistStore.Persistor.Pause | src/persistStore.ts:48-53 | Pauses every persistoid, then dispatches pause. |
| PersistStore.Persistor.Purge | src/persistStore.ts:42-47 | Each storage loses exactly the keys of the persistoids writing to it. Then purge is dispatched. |
| FanOutState.KeysInSnoc | src/persistStore.ts:43-45 | Purging one more persistoid removes its key from its own storage only. |
| PersistStore.Persistor.Flush | src/persistStore.ts:36-41 | Flushes every persistoid in registration order, then dispatches flush. After a full run each persistoid that alone writes its key holds the encoding of its last state there, if that was truthy, and keeps its old text otherwise. No storage changes outside the persistoids' keys. A throwing write stops the loop: what ran before it stays written, and flush is not dispatched. |
| PersistStore.Persistor.Persist | src/persistStore.ts:30-35 | Resumes and writes every persistoid in registration order, then dispatches persist. What is written, and what a throw stops, are as for Flush. |
| PersistStore.Persistor.FanOut | src/persistStore.ts:31-33 | The shared loop: it reaches persistoid n exactly when the first n have been written, as `Reached` states, and on success it has visited them all. |
| PersistStore.Persistor.Step | src/persistStore.ts:31-39 | One pass of the loop: a write moves the fan-out on to the next persistoid, a throw leaves it where it was. |
| PersistStore.Persistor.WriteOne | src/persistStore.ts:32-38 | Calls persist or flush on one persistoid: if it alone writes its key, that key then holds the encoding of the old truthy last state, or its old text. Only that key may change, a throw changes no storage, and no other persistoid changes. |
| FanOutState.Carried | src/persistStore.ts:31-39 | A write that changed no other persistoid keeps them all linked and idle and counts the written one as done. |
| FanOutState.Advance | src/persistStore.ts:31-33 | One persistoid's write, or its throw, moves a fan-out that reached it to the next one, or leaves it where it is. |
| FanOutState.ProgressStep | src/persistStore.ts:37-39 | After one more write, each sole key of the first n + 1 persistoids holds its encoding and the rest of each storage is as it began. |
| FanOutState.KeysOutside | src/persistStore.ts:31-33 | However far a fan-out got, no storage changed outside the registered persistoids' keys. |
| FanOutState.Finished | src/persistStore.ts:37-39 | A fan-out that visited every persistoid leaves each sole key holding the encoding of its last state, if truthy, or its old text. |
| FanOutState.MinusMore | src/persistStore.ts:37-39 | Two storages that agree outside some keys still agree outside a larger set, and a write to one of those keys keeps the agreement. |
| FanOutState.KeysInGrow | src/persistStore.ts:43-45 | Registering one more persistoid only adds keys: its own key for its own storage. |

## Left out

- Timers and the event loop: `setTimeout`, its delay and `clearTimeout` are explicit steps (`Persistoid.Fire`, `Persistoid.Tick`). How the steps interleave with reducer calls is not modelled.
- The codec (`serialize`/`deserialize`, JSON by default) is two abstract functions. Round-trip properties take the round trip as a precondition on the values involved.
- Numbers are integers. There is no floating point or NaN arithmetic beyond the `Number(None)` result of a failed coercion.
- Object identity (`===`) on plain objects is structural equality of values. A reducer returning an equal but new object is not told apart.
- Symbol-keyed properties, the prototype chain (`Object.prototype` members), getters, and array growth or named properties on arrays are not modelled. `PersistableProxy.Assign` covers only object fields and in-bounds array elements.
- Slice.Restorer.Get: the get trap's function replies (the `toJSON`/`valueOf` resolver, a view that forwards to another view, the `Symbol.toPrimitive` coercer) read as undefined here. For `toJSON` and `valueOf` the supplier is not called, as in the source, where it is called only when the returned function is.
- Slice.Restorer.Get: a view of another slice's restore closure is read as a plain value, so any field of it reads undefined without calling that slice's supplier. In the program the get trap would restore that slice and read its field.
- Slice.Persistoid.ValueOf: only views of the persistoid's own slice are materialised. A view of another slice is written as it is.
- Slice.Restorer.KeyCount: a view of another slice's restore closure counts 0 keys without calling that slice's supplier; the program's ownKeys trap would restore that slice and count its keys. `Lazy.KeysThrough` likewise counts 0 for a restore view nested inside a fixed value.
- Slice.Persistoid.UpdateIfChanged: when a read of `prev` or `next` reaches one of this slice's own restore views (the state is such a view, or a field that the get trap of a view over a fixed value unwraps is one), the model states only that update runs exactly on a true answer and storage is not written. The answer itself is not tied to `ShouldUpdate`, because that read may restore the slice first.
- Slice.Persistoid.KeysDiffer: the keys are taken from a set in no fixed order, where the program follows `Object.keys` order. For detached states the order changes nothing; for others it decides which read restores or throws first.
- CombineLazy.LazyCombination.Keep: the persistoid's decision is tied to `ShouldUpdate` only for detached states, as Slice.Persistoid.UpdateIfChanged states it. For other states the model says only that the last state becomes `next` or stays.
- CombineLazy.LazyCombination.Advance: the same limit as CombineLazy.LazyCombination.Keep. The idle run over a readable state whose idle result is a new object is stated to read nothing only for a detached state.
- Reconcile.AutoMergeLevel2: a reduced field that is itself a lazy view counts as a plain object with no own keys, so `{...reduced[k], ...inbound[k]}` gets only the inbound fields. In the program the spread would run the view's traps and restore that slice first. The same holds for `Js.Spread` of a view wherever the model spreads one.
- Reducing.Run: the idle guarantee covers only `Readable` states: no views, views over fixed values, and this closure's own views once it has restored. The run that itself restores is not covered, for example the first action over persistReducer's whole-state view. For that run the model states only `Kept`: no storage write, and a cache that once set stays as it is.
- Reducing.Combine: the idle guarantee has the same limit as Reducing.Run, and it is stated for callers that pass the entry lens.
- PersistReducer.PersistedReducer.Reduce: "an ignored action keeps the state and reads nothing" is stated only for `Readable` states whose idle result is the state itself. The first action over the whole-state view restores, and the model does not say what it then returns or persists.
- PersistReducer.PersistedReducer.Advance: the same limit as PersistReducer.PersistedReducer.Reduce.
- CombineLazy.LazyCombination.Reduce: the idle guarantee is stated only for `Readable` states whose idle result is the state, or that are detached. A run over the outer view before the slice has restored reads through the restore and is not covered. The persistoid's decision has the same limit as CombineLazy.LazyCombination.Keep.
- CombineLazy.LazyCombination.Advance: the same limit as CombineLazy.LazyCombination.Reduce.
- Slice.Persistoid.SetItem: for a field that is a whole-state view of this slice, written by the very call that restores the slice, the written value is stated only as one of `restored` and `restored ?? initial` (`UnwrapsTo`); which one depends on the evaluation order of the supplier calls.
- PersistableProxy.IsPersisted: a createLazy view passed to `isPersisted` gives false instead of calling its supplier with the PERSISTED symbol.
- PersistableProxy.CombinedView.Get: an initial field that is itself a combined proxy is not reused as a child. Only persistable proxies are.
- The aliasing between a combined proxy's initial state and its children's boxes is not modelled: each child gets a fresh box holding the field's value.
- Three expectations in the repository's test files disagree with the code, and the model follows the code:
  - `getStoredState` returns null (not undefined) when nothing is stored;
  - after a change the lazy combined wrapper still hands the store a fresh lazy view, which `isPersistable` accepts;
  - src/__tests__/persistCombineReducers.spec.ts:31-58 ("should be lazy") and :245-291 expect a `persistCombineReducers` without `lazy: true` not to call `getItem` when the store is created. That path is `persistReducer(config, combineReducers(reducers))` (src/persistCombineReducers.ts:55-56), and the test configs do not set `combined`. The corrected `PersistReducer.PersistedReducer.GetOrCreateProxy` then builds one view over the whole restore (the `createLazy` branch of src/persistReducer.ts:49). The store's first action runs combineReducers over that view, whose get trap restores the slice and reads storage. With `combined: true`, the corrected proxy has one field view per child, and combineReducers reads those fields without restoring.
- Redux Toolkit's `combineReducers`, `createAction` and `Store` live outside this repository. `Reducing` models `combineReducers` from its documented behaviour and `Host` models the store; nothing else of Redux Toolkit is modelled.
- `getDefaultMiddleware`, the React integration, `index.ts` re-exports and the type-only declarations in `types.ts` are not modelled.

## Findings

| source | as written | input that shows it | evidently intended | confidence | as-written member | corrected member |
|---|---|---|---|---|---|---|
| src/createMigrate.ts:30 | each selected migration is applied to the original `state`, so only the last defined one survives | manifest {0: add field a, 1: add field b}, state `{}` without `_persist`, current version 1: result `{b: 2}` | each migration applied to the accumulated `rawState`: `{a: 1, b: 2}` | not executed | Migrate.CreateMigrate | Migrate.ComposedMigrate |
| src/persistReducer.ts:2 | `createLazy` is imported from `./persistableProxy`, which does not export it, and `createCombinedProxy` is called as `(restoreItem, config, initialState)` though it takes `(initialState, getItem)` | any config: without `combined` the first undefined state throws "createProxy is not a function"; with `combined` every field read throws "getItem is not a function" | the createLazy view over the restore, or the per-field combined proxy of persistCombineReducersLazy | not executed | PersistReducer.AsWrittenProxy | PersistReducer.PersistedReducer.GetOrCreateProxy |
| src/persistableProxy.ts:43-46 | `Reflect.set(getPersisted(), prop, value, receiver)` with the proxy as receiver defines the property on the proxy's hidden target, not on the resolved object | a persistable proxy over `{a: 1}`: `proxy.a = 2`, then `proxy.a` throws a trap-invariant TypeError | the resolved object's field is set, and `proxy.a` reads 2 | not executed | PersistableProxy.PersistableView.Set | PersistableProxy.PersistableView.WriteThrough |
