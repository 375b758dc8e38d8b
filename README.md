# async-context, modelled in Dafny

`AsyncContext` attaches named values to the dynamic extent of a callback.
`withContext(name, payload, cb)` and `withContext(batch, cb)` build a new
context store from the active one and run `cb` with it bound;
`withContextOverride` does the same but replaces instead of merging. Inside the
callback, `getContext`, `getMultiContext` and `isInContext` read the bound store.
When the callback returns, the previous binding is back. The store,
`AsyncContextStore`, is a `Map` from names to values. It converts to and from a
plain record with `fromObject` and `toPlain`.

This project models:

- the merge policy, in `merge.dfy`. Record spread, Map union, Set union and array
  concatenation are combined per key, anything else is replaced, and the
  informational log lines are produced.
- the store builders `buildNamedContext` and `buildContext`, and the read
  accessors, in `async_context.dfy`.
- the scope engine's binding, also in `async_context.dfy`. It is a class
  `AsyncContext` that holds a frame stack, with `Enter`, `Exit`, `WithContext`
  and `Run`. A callback is a `Callback` script of probes and nested scopes.
  Running one yields the trace of what each probe saw and what was logged.
  `Observe` is that trace's specification.
- the store and its record conversions, in `store.dfy`. They sit on an
  insertion-ordered association list with JavaScript `Map`/`Set` semantics
  (`ordered_map.dfy`). Setting an existing key keeps its position; a new key is
  appended.

Values are a closed datatype (`values.dfy`): primitives, plain records, Maps,
Sets, arrays and opaque objects. The runtime probes `isPlainObject`,
`instanceof Map`, `instanceof Set` and `Array.isArray` become constructor tests.

The model pins down these behaviours of the code:

- Merge mode logs in every branch where the key is already bound
  (src/async-context.ts:82-118), not only when a value is replaced.
- Maps are merged like records: entries of the previous Map, then the payload's,
  the payload's values winning (src/async-context.ts:123-124).
- A batch sends every entry, primitives included, through the single-key merge
  (src/async-context.ts:142-145). So a replaced primitive in merge mode is also
  logged (`BatchLogsReplacement`).
- `getContext("")` returns the whole store, because the empty name is falsy
  (src/async-context.ts:59, `GetContextNamed`).
- `toPlain` assigns each entry with `obj[key] = value`
  (src/types.ts:21). For the key `__proto__` that assignment runs the
  inherited prototype setter and creates no own field, so the plain object
  lacks that entry (`OwnFields`).

## Model

| member | source | states |
|---|---|---|
| `OrderedMap.Lookup` | src/types.ts:7 | `get` finds a value exactly for the keys present, and the value found is an entry of the map |
| `OrderedMap.Put` | src/types.ts:7 | `set` on an existing key keeps its position, on a new key appends it; only that key's value changes; unique keys stay unique |
| `OrderedMap.PutFresh` | src/types.ts:7 | `set` on a key not yet present appends the entry at the end |
| `OrderedMap.PutAll` | src/types.ts:11-13 | setting a list of entries in turn: keys are the old keys, then the new ones in order; with unique entries each key ends up with the last value set for it, others keep theirs |
| `OrderedMap.Extend` | src/async-context.ts:126 | adding elements to a Set in turn keeps the old elements as a prefix, adds exactly the new ones, and never repeats one |
| `OrderedMap.AppendNew` | src/async-context.ts:126 | `set.add(x)`: `x` is appended unless already present; it gives the key order in the ensures of `Put` and `BuildNamedContext`, and `DistinctAppendNew` states that it adds no repeat |
| `OrderedMap.DistinctAppendNew` | src/async-context.ts:126 | adding an element to a sequence without repeats leaves it without repeats |
| `OrderedMap.Build` | src/types.ts:8-16 | a map filled from entries has unique keys, the entries' keys without repeats in first-seen order |
| `OrderedMap.Common` | src/async-context.ts:83-115 | the members of the payload already in the previous value: an element is in the result exactly when it is in both; order and repeats are stated by `CommonConcat` and `CommonCount` |
| `OrderedMap.CommonCount` | src/async-context.ts:83-115 | a payload member is reported as often as the payload holds it when the previous value has it, and never otherwise |
| `OrderedMap.CommonConcat` | src/async-context.ts:83-115 | the report follows payload order: the report on `a ++ b` is the report on `a`, then the report on `b` |
| `OrderedMap.LookupMember` | src/types.ts:7 | in a map with unique keys, `get` of an entry's key returns that entry's value |
| `OrderedMap.PutAllConcat` | src/async-context.ts:124 | filling a map from `[...a, ...b]` is filling it from `a`, then from `b` |
| `OrderedMap.ExtendConcat` | src/async-context.ts:126 | filling a Set from `[...a, ...b]` is filling it from `a`, then from `b` |
| `OrderedMap.ExtendFresh` | src/async-context.ts:126 | adding elements that are all new appends them in order |
| `OrderedMap.PutAllFresh` | src/types.ts:11-13 | setting entries whose keys are all new appends them in order |
| `OrderedMap.BuildUnique` | src/types.ts:8-16 | a map rebuilt from its own entries is unchanged |
| `ContextStore.FromObject` | src/types.ts:8-16 | `fromObject` gives a store whose entries are exactly the record's entries, in the record's order |
| `ContextStore.OwnFields` | src/types.ts:18-24 | the entries that become own fields of the plain object are exactly those whose key is not `__proto__`; without such a key it is the whole store |
| `ContextStore.OwnFieldsLookup` | src/types.ts:18-24 | for a store, its own fields are unique, `__proto__` reads nothing, and every other key reads the store's value |
| `ContextStore.OwnFieldsConcat` | src/types.ts:20-22 | the assignment loop keeps store order: the own fields of `a ++ b` are those of `a`, then those of `b` |
| `ContextStore.ToPlain` | src/types.ts:18-24 | `toPlain` gives a record with no repeated field and no `__proto__` field; each other entry of the store is an own field with its value, in store order (`OwnFieldsConcat`) |
| `ContextStore.RoundTrip` | src/types.ts:8-24 | `toPlain(fromObject(o))` and `fromObject(o)` after `toPlain` give the own fields of `o` other than `__proto__`, in order; without a `__proto__` field both are `o` itself |
| `ContextStore.ConvertTwice` | src/types.ts:8-24 | converting a second time changes nothing, whatever the input, `__proto__` entries included |
| `MergePolicy.UnionOfMaps` | src/async-context.ts:121-124 | rebuilding from the entries of two maps is their union: the first map's keys, then the second's new keys, the second's values winning |
| `MergePolicy.UnionOfSets` | src/async-context.ts:125-126 | rebuilding a Set from two Sets' elements is adding the second's elements to the first |
| `Values.Plain` | src/utils.ts:1-3 | `isPlainObject`: a record whose `constructor` is inherited, that is one with no own `constructor` field; its properties are used by `MergeRecords` and `MergeFallback` |
| `Values.SameShape` | src/async-context.ts:121-127 | the four shape guards shared by the logging and the merge branches (also at lines 82, 88, 97 and 107): both plain records, both Maps, both Sets or both arrays; `MergeFallback` and `NoticesFallback` state what happens outside it, `NoticesCollections` and the `Merge*` lemmas inside it |
| `Values.Members` | src/async-context.ts:83-109 | what the logging loops go through: `Object.keys` of a record, the keys of a Map, the elements of a Set or an array; `NoticesCollections` is stated over it |
| `MergePolicy.Combine` | src/async-context.ts:120-131 | the value stored in merge mode for an already bound key; what it is per shape is stated by `MergeRecords`, `MergeMaps`, `MergeSets`, `MergeArrays`, `MergeFallback` and `MergeCanonical` |
| `MergePolicy.Merge` | src/async-context.ts:70-131 | the value a single-key scope binds; `MergeAbsent` and `MergeOverride` state the absent and override cases, the `Merge*` lemmas the rest |
| `MergePolicy.CombineNotices` | src/async-context.ts:82-118 | the log lines of a merge-mode combination; stated by `NoticesFallback` and `NoticesCollections` |
| `MergePolicy.Tagged` | src/async-context.ts:83-115 | one `console.log` per matching item inside each `forEach`, in order, naming the context; `TaggedCount` states it keeps every item's count, and `NoticesCollections` uses it |
| `MergePolicy.Notices` | src/async-context.ts:70-118 | the log lines of one key; `NoticesSilent` states when there are none |
| `MergePolicy.TaggedCount` | src/async-context.ts:83-115 | tagging the reported members with the context name keeps each member's count |
| `MergePolicy.MergeAbsent` | src/async-context.ts:70-73 | an absent key is bound to the payload in both modes |
| `MergePolicy.MergeOverride` | src/async-context.ts:75-76 | in override mode the key is bound to the payload whatever was there |
| `MergePolicy.MergeRecords` | src/async-context.ts:121-122 | two plain records merge into a plain shallow union with unique fields: previous fields in order, then the new ones; a payload field wins and is taken whole |
| `MergePolicy.MergeMaps` | src/async-context.ts:123-124 | two Maps merge by the same union rule, the payload's entries winning |
| `MergePolicy.MergeSets` | src/async-context.ts:125-126 | two Sets merge into their union: previous elements first, no element twice, exactly the elements of either |
| `MergePolicy.MergeArrays` | src/async-context.ts:127-128 | two arrays merge into `prev ++ payload`: order and duplicates kept, length the sum |
| `MergePolicy.MergeFallback` | src/async-context.ts:129-130 | a shape mismatch or two non-collections leave the payload; a record with an own `constructor` field is not plain, so it is replaced too |
| `MergePolicy.MergeCanonical` | src/async-context.ts:120-131 | the bound value never has repeated fields, keys or elements if the payload has none |
| `MergePolicy.NoticesSilent` | src/async-context.ts:70-76 | nothing is logged for an absent key or in override mode |
| `MergePolicy.NoticesFallback` | src/async-context.ts:116-118 | a replacement in merge mode logs one line with the previous and the new value |
| `MergePolicy.NoticesCollections` | src/async-context.ts:82-115 | merging two collections of one shape logs, in payload order, one line per payload member already in the previous value: every line names the context, and each such member is logged as often as the payload holds it, others never |
| `AsyncContexts.BuildNamedContext` | src/async-context.ts:66-135 | the new store binds the name to the merged value; every other key keeps its value and position, a new name comes last; the active store is only read |
| `AsyncContexts.NamedContext` | src/async-context.ts:66-135 | the store a single-key scope binds; its properties are the ensures of `BuildNamedContext`, which returns it |
| `AsyncContexts.NamedNotices` | src/async-context.ts:82-118 | the log lines of `buildNamedContext`, returned by `BuildNamedContext`; `NoticesSilent`, `NoticesFallback` and `NoticesCollections` state them per case, `OverrideObserved` and `AbsentKeyObserved` inside a scope |
| `AsyncContexts.BatchContext` | src/async-context.ts:138-149 | the batch store's keys are the active keys, then the batch's new keys in batch order, none twice |
| `AsyncContexts.BuildContext` | src/async-context.ts:138-149 | each batch key is merged against the active store's value under one override flag; keys outside the batch keep their active values |
| `AsyncContexts.BatchNotices` | src/async-context.ts:138-149 | the log lines of a batch, entry by entry in batch order; stated by `BatchOverride` and `BatchLogsReplacement` |
| `AsyncContexts.BatchLookup` | src/async-context.ts:142-145 | for each key, the batch store's value is the merge with the active value if the key is in the batch, else the active value |
| `AsyncContexts.BatchAsNested` | src/async-context.ts:139-145 | merging against the active store binds the same store as nesting one single-key scope per batch entry |
| `AsyncContexts.BatchOverride` | src/async-context.ts:28-29 | an override batch binds the union of active store and batch, batch winning, and logs nothing |
| `AsyncContexts.BatchReplaces` | src/async-context.ts:143-145 | a batch entry that cannot be combined with its active value replaces it |
| `AsyncContexts.BatchLogsReplacement` | src/async-context.ts:143 | that replacement is also logged in batch mode, with both values |
| `AsyncContexts.Project` | src/async-context.ts:39-43 | the store `getMultiContext` returns; its meaning is stated by `ProjectSpec` |
| `AsyncContexts.ProjectSpec` | src/async-context.ts:39-43 | the projection holds exactly the requested names present in the store, once each, in request order, with the store's values |
| `AsyncContexts.GetMultiContext` | src/async-context.ts:33-46 | `getMultiContext` returns the requested present keys with their active values in request order; absent keys are omitted; null names or no scope give an empty store |
| `AsyncContexts.GetContext` | src/async-context.ts:50-60 | what `getContext` returns; stated by `GetContextUnbound` and `GetContextNamed` |
| `AsyncContexts.StoreOf` | src/async-context.ts:51 | `alc.getStore() ?? new AsyncContextStore()`: the active store, or an empty one outside every scope; stated by `GetContextUnbound` and by the ensures of `GetMultiContext` |
| `AsyncContexts.IsInContext` | src/async-context.ts:62-64 | `isInContext`; stated by `InContextWhenEmpty`, `BoundInside` and `InContextOnlyInside` |
| `AsyncContexts.GetContextUnbound` | src/async-context.ts:50-60 | outside every scope the whole context is an empty store, never absent; any non-empty name reads `undefined`; no name and the empty name read the empty store; `isInContext` is false |
| `AsyncContexts.GetContextNamed` | src/async-context.ts:53-59 | a non-empty name reads its bound value; no name, or the falsy empty name, reads the whole store |
| `AsyncContexts.InContextWhenEmpty` | src/async-context.ts:62-64 | a bound empty store still counts as being in a context |
| `AsyncContexts.OverrideObserved` | src/async-context.ts:23-26 | inside `withContextOverride(name, v, cb)`, `getContext(name)` is `v` whatever was bound, and nothing is logged |
| `AsyncContexts.AbsentKeyObserved` | src/async-context.ts:70-73 | a scope on a name the active store lacks exposes exactly the payload in either mode |
| `AsyncContexts.NestedRecords` | src/async-context.ts:121-122 | three nested record scopes on one name give one record with every field of the three, later payloads winning |
| `AsyncContexts.EnterStore` | src/async-context.ts:10-30 | the store a call binds, by call shape and mode; stated through `NamedContext` and `BatchContext` |
| `AsyncContexts.EnterNotices` | src/async-context.ts:10-30 | the log lines of a `withContext*` call, by call shape and mode; `Enter`'s ensures returns them, `BatchOverride` and `OverrideObserved` state that override calls log nothing |
| `AsyncContexts.Top` | src/async-context.ts:5 | `alc.getStore()` over the frame stack: the innermost frame, or none; `ObserveTopOnly`, `BoundInside` and `InContextOnlyInside` state what probes see through it |
| `AsyncContexts.Observe` | src/async-context.ts:10-30 | the trace of a callback: what each probe sees and what each scope logs; `Run` is proved equal to it, and `ObserveTopOnly`, `BoundInside`, `InContextOnlyInside` and `ScopeRestores` state its properties |
| `AsyncContexts.ObserveTopOnly` | src/async-context.ts:5 | a run depends only on the innermost frame; frames below it are never read |
| `AsyncContexts.BoundInside` | src/async-context.ts:62-64 | every probe inside a scope, however deep, sees a bound store |
| `AsyncContexts.InContextOnlyInside` | src/async-context.ts:62-64 | `isInContext` is false before a scope, true inside it with the scope's store bound, false again after it returns |
| `AsyncContexts.ScopeRestores` | src/async-context.ts:13 | running `a` and then `b` under one binding is running `a`, then running `b` in the binding `a` started from: no scope `a` enters leaks into `b` |
| `AsyncContexts.AsyncContext.constructor` | src/async-context.ts:5 | initially no frame is bound |
| `AsyncContexts.AsyncContext.Current` | src/async-context.ts:36 | `alc.getStore()` on the live frame stack; `Enter` builds from it and pushes the result as the new innermost frame; `WithContext` and `Run` give back the stack it reads |
| `AsyncContexts.AsyncContext.Enter` | src/async-context.ts:10-30 | dispatches on the call shape and mode, pushes the built store and leaves every existing frame unchanged |
| `AsyncContexts.AsyncContext.Exit` | src/async-context.ts:13 | pops the innermost frame, rebinding the one below |
| `AsyncContexts.AsyncContext.WithContext` | src/async-context.ts:10-18 | runs the callback with the call's store bound; afterwards exactly the previous frames are bound |
| `AsyncContexts.AsyncContext.Run` | src/async-context.ts:13 | running any callback leaves the frame stack as it was, and its trace is `Observe` of the stack |

## Left out

- Scope propagation across asynchronous continuations, Promises, threads and sibling tasks: the scope engine (`AsyncLocalStorage`) is an external engine. It is replaced by one explicit frame stack per execution path. A callback's return value and its exceptions are not modelled. The frame is popped after the body in every run.
- Log output: each `console.log` line is a `Notice` value in the trace. The message text and its formatting are not modelled.
- NoticesCollections: for records the source tests `key in prevPayload`. That test also finds inherited properties such as `toString`. The model looks at own fields only.
- Identity: Set membership, Map keys and `includes` use value equality. JavaScript compares objects by reference (SameValueZero). Object aliasing between nested values is not modelled.
- Aliasing of stores: stores are values. In the source, `getContext()` hands out the live store object. A caller could mutate it, and that mutation is not modelled.
- Context names are strings that are not integer-like. Non-string names, and `toPlain`'s coercion of them to property names, are not modelled. The reordering of integer-like keys in plain objects is not modelled either.
- ToPlain: when the value under `__proto__` is an object or `null`, the source's assignment (src/types.ts:21) makes it the prototype of the result. For an object its properties become inherited ones; for `null` the result has no prototype and is then not a plain object. The model omits the entry in every case, so its result is always a `Record` (prototype `Object.prototype`): only own fields are modelled, and prototypes are not. As in the source, that record is not `Plain` when the store has a `constructor` key.
- Numbers are integers. Floating point, `NaN` and `-0` are not modelled.
- `isPlainObject` and the other runtime probes are constructor tags. An instance of a subclass of `Map`, `Set` or `Array` (such as `AsyncContextStore`) is a `MapOf`, `SetOf` or `ArrayOf`. A record with an own `constructor` field is not plain (`Plain`) and is replaced, not merged. Objects with a null prototype and instances of other classes are `Opaque`. A record whose own `constructor` field holds `Object` itself, which `isPlainObject` would accept, is not modelled. The module `./is-plain-object` imported by src/async-context.ts:3 is not part of this model. The classifier in src/utils.ts:1-3 is taken as its meaning.
- BuildNamedContext: in merge mode the log lines are template literals (src/async-context.ts:94, 104, 113, 117). Interpolating a Symbol, or an object without a usable `toString` (for example one without prototype, or an array holding one), throws a `TypeError`, so the source fails before binding. The model always binds and logs; that failure is not modelled.
- NoticesFallback: the replacement line interpolates the previous value (src/async-context.ts:117), which throws for a Symbol or an object without a usable `toString`; the model logs it.
- NoticesCollections: the Map, Set and array lines interpolate each member (src/async-context.ts:94, 104, 113), with the same `TypeError` for such members; the model logs them.
- BuildContext: the same `TypeError` aborts a batch at the entry whose merge throws (src/async-context.ts:143); the model builds the whole batch.
- Batch arguments that are plain objects rather than Maps: `buildContext` iterates `ctx.entries()`, so only a Map is modelled as a batch. `getContext` with an array argument is not modelled either.
