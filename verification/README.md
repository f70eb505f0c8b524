# zero-svelte query cache, modelled in Dafny

This project models the core of `zero-svelte`: the shared, reference-counted
cache of materialized views that sits behind the `Query` handle. It also
models two small pure components, the custom mutators' guards and the
`defined` array filter.

- **View store** (`view_store.dfy`, module `ViewStore`). Every view wrapper
  ever created lives in a heap `seq<Wrapper>`, and its index is its identity.
  The `registry` maps a key (query hash, userID) to the wrapper currently
  shared under that key. A wrapper records its observer count, the index of
  its live materialization in the engine's log, and its last snapshot.
  - `GetView` resolves a request. An enabled request gets the registered
    wrapper, registering a new one if there is none. A disabled request gets
    a private wrapper that never materializes.
  - `Attach` counts one observer. The first observer of an enabled wrapper
    materializes it and registers its listener.
  - `Detach` removes one observer. The last one removes the listener,
    destroys the view, forgets it and drops the registry entry.
  - `Publish` delivers an emission to the listening wrappers.
  - `destroys` logs every `destroy()` the store calls.
  - `Valid` is the store's invariant. A wrapper is materialized exactly when
    it is enabled and observed. An observed enabled wrapper is the one
    registered under its key. A live view has exactly its owner's listener. A
    destroyed view has no listener and appears exactly once in `destroys`.
- **Query handle** (`query.dfy`, module `Query`). A handle holds its query,
  its session's userID, the wrapper it references and whether its persistent
  observer is still running. The code uses Svelte's `$effect.root`/`$effect`
  to keep the observer alive; the model uses explicit attach/detach calls
  instead.
  - `NewQuery` resolves a view and attaches to it.
  - `UpdateQuery` resolves the new query. A running handle attaches to the
    new view before it detaches from the old one, so a shared key sees no
    churn.
  - `DestroyQuery` detaches.
  - The session invariant adds the reference count: each wrapper's observer
    count equals the number of running handles that reference it.
- **Scenarios** (`scenarios.dfy`). These are the scenario tests, stated for
  every session that satisfies the invariant: deduplication, user isolation,
  the disabled bypass, shape defaults, delivery of emissions, ref-counted
  teardown and re-keying on `updateQuery`. A few are also stated from a
  fresh session, as in the tests.
- **Engine doubles** (`fakes.dfy`, module `Fakes`). These model the
  materialized view (listeners, `emit`, `destroy`) and the engine
  (`materialize`, the `created` log, `last`). The store uses them as its
  model of the external engine. A listener is named by the wrapper that
  registered it. The engine log is shared by all sessions, and each record
  carries the userID of the session that asked for it.
- **Mutators** (`mutators.dfy`). Each mutator returns either one table
  command or an error (`Result<Command, Error>`), instead of calling
  `tx.mutate`. Module `ClientMutators` has the authorization and length
  guards, `LengthOnlyMutators` has length guards only, and `ServerMutators`
  adds the `canDelete`-guarded `todo.delete`.
- **`defined`** (`arrays.dfy`). `undefined` is `None`. The method returns the
  filtered array together with a flag `same` that stands for
  `output === input`.

When a key's wrapper was registered by an earlier query object with the same
hash, the engine is asked to materialize that earlier query. So the contracts
about a new engine record promise the record's hash and user, not the query
object.

## Model

| member | source | states |
|---|---|---|
| `Arrays.Defined` | src/lib/shared/arrays.test.ts:5-11 | the output is exactly the present elements of the input, in order; it is the input itself (no copy) exactly when the lengths are equal, and then it lists the input's elements one for one |
| `Arrays.PresentLength` | src/lib/shared/arrays.test.ts:19-68 | the output is never longer than the input, with equal length exactly when the input has no `undefined` |
| `Arrays.PresentEmpty` | src/lib/shared/arrays.test.ts:20-31 | the output is empty exactly when the input is empty or all `undefined` |
| `Arrays.PresentCounts` | src/lib/shared/arrays.test.ts:53-66 | duplicates are kept: each value occurs in the output as often as it occurs, present, in the input |
| `Arrays.PresentPrefix` | src/lib/shared/arrays.test.ts:44-51 | order is preserved: filtering a prefix of the input gives a prefix of the output |
| `Fakes.IndexOf` | tests/harness/fakes.ts:15 | `indexOf` gives the first occurrence of the listener, or -1 exactly when it is absent |
| `Fakes.AddListener` | tests/harness/fakes.ts:12-13 | `addListener` appends the listener at the end, keeping the earlier ones in order and leaving `data` and `destroyed` alone |
| `Fakes.Destroy` | tests/harness/fakes.ts:19-22 | `destroy` sets `destroyed`, empties the listeners, keeps `data`, and changes nothing on a destroyed view with no listeners |
| `Fakes.RemoveListener` | tests/harness/fakes.ts:14-17 | the remover splices out the first occurrence of the listener, removes exactly one copy, and is a no-op once the listener is gone |
| `Fakes.RemoveUndoesAdd` | tests/harness/fakes.ts:12-17 | `addListener` appends; for a listener not already registered, calling its remover right away restores the view |
| `Fakes.RemoveAfterDuplicateAdd` | tests/harness/fakes.ts:12-17 | for a listener already registered, adding and then removing it keeps the same listeners but leaves a copy of it last, because the remover splices out the first occurrence |
| `Fakes.Notify` | tests/harness/fakes.ts:31 | the listener loop makes one call per current listener, in registration order, with the emitted value and status |
| `Fakes.Emit` | tests/harness/fakes.ts:29-32 | `emit` stores the value as `data` and calls every listener in order; the status defaults to `complete` |
| `Fakes.EmitAfterDestroy` | tests/harness/fakes.ts:19-32 | `destroy` is idempotent; after it, `emit` reaches no listener but still updates `data` |
| `Fakes.DestroyedNeverReverts` | tests/harness/fakes.ts:8-39 | over any sequence of view operations, `destroyed` is true exactly when it started true or `destroy` was among them: it never reverts |
| `Fakes.Last` | tests/harness/fakes.ts:45-67 | `last` is absent exactly before the first `materialize` and otherwise names the newest record |
| `Fakes.Materialize` | tests/harness/fakes.ts:50-55 | `materialize` returns a fresh view, appends exactly one record to `created` without touching earlier ones, and makes it `last` |
| `ViewStore.GetView` | src/lib/query.svelte.ts:33 | a disabled request gets a fresh private wrapper and leaves the registry alone; an enabled one gets the wrapper registered under (hash, userID), and when there is none it appends one new wrapper and adds exactly that registry entry; existing wrappers are untouched and resolution never calls the engine |
| `ViewStore.Attach` | src/lib/query.svelte.ts:37-42 | attaching counts one observer; exactly the first observer of an enabled wrapper materializes it, once, for that wrapper's query and user, with the wrapper as the view's only listener; the wrapper's key, query, enabled flag and snapshot, every other wrapper, the registry and the destroy log are unchanged |
| `ViewStore.Detach` | src/lib/query.current.svelte.test.ts:106-140 | detaching removes one observer (none if the count is already 0); only the last observer of a materialized wrapper destroys its view (keeping its query, user and data), logs the destroy and drops the registry entry; the wrapper's other fields, every other wrapper and every other engine record are unchanged |
| `ViewStore.Deliver` | tests/harness/fakes.ts:29-32 | applying one emission's listener calls changes only snapshots: the last call's wrapper holds that call's value and status, and a wrapper no call names is unchanged |
| `ViewStore.DeliverFinalCalls` | tests/harness/fakes.ts:31 | every wrapper called during an emission holds the value and status of the last call made to it |
| `ViewStore.Publish` | src/lib/query.current.svelte.test.ts:33-37 | an emission records the value as its view's `data`, keeping the record's query, user and listeners; every other record, the registry, the destroy log and every wrapper field but the snapshot are unchanged |
| `ViewStore.GetViewValid` | src/lib/query.svelte.ts:33 | resolution keeps the store invariant and hands back a wrapper an observer may attach to |
| `ViewStore.AttachValid` | src/lib/query.svelte.ts:37-42 | attaching keeps the store invariant (at most one live materialization per key, owned by the registered wrapper) |
| `ViewStore.DetachValid` | src/lib/query.current.svelte.test.ts:121-140 | detaching keeps the store invariant |
| `ViewStore.TeardownValid` | src/lib/query.current.svelte.test.ts:106-119 | the last observer's teardown (remove listener, destroy, forget, unregister) keeps the store invariant |
| `ViewStore.ReleaseValid` | src/lib/query.current.svelte.test.ts:121-140 | an observer leaving a still-observed view keeps the store invariant |
| `ViewStore.EmitValid` | src/lib/query.current.svelte.test.ts:33-37 | an emission keeps the store invariant |
| `ViewStore.AtMostOneLiveView` | src/lib/query.current.svelte.test.ts:57-78 | two live materializations with the same hash and userID are the same one |
| `ViewStore.EmitReachesWrapper` | src/lib/query.current.svelte.test.ts:33-37 | an emission on a wrapper's live view makes the wrapper hold exactly the emitted value and status |
| `ViewStore.EmitElsewhereUnseen` | src/lib/query.current.svelte.test.ts:245-279 | an emission leaves every wrapper but the emitting view's owner unchanged |
| `ViewStore.EmitAfterTeardown` | tests/harness/fakes.ts:19-22 | an emission on a destroyed view changes no wrapper |
| `ViewStore.DestroyedExactlyOnce` | src/lib/query.current.svelte.test.ts:121-140 | every destroyed view was destroyed by the store exactly once |
| `Query.UpdateQuery` | src/lib/query.svelte.ts:77-85 | `updateQuery` replaces the handle's query and view by the store's answer for the new query; no other handle and no other field changes |
| `Query.DestroyQuery` | src/lib/query.svelte.ts:88-90 | `destroy` stops the handle's observer, detaching it from its current view; a second call changes nothing |
| `Query.RefsUpdate` | src/lib/query.svelte.ts:77-85 | re-pointing one handle changes each wrapper's reference count by exactly that handle's old and new contribution |
| `Query.NewQueryValid` | src/lib/query.svelte.ts:26-43 | construction keeps the session invariant, including observer count = number of running handles on the wrapper |
| `Query.LiveHandleObserved` | src/lib/query.svelte.ts:35-42 | a running handle's wrapper has at least one observer |
| `Query.UpdateQueryValid` | src/lib/query.svelte.ts:77-85 | `updateQuery` keeps the session invariant |
| `Query.UpdateCounts` | src/lib/query.svelte.ts:77-85 | after `updateQuery` each wrapper's observer count is still the number of running handles on it |
| `Query.DestroyQueryValid` | src/lib/query.svelte.ts:88-90 | `destroy` keeps the session invariant |
| `Query.EmitViewValid` | src/lib/query.current.svelte.test.ts:33-37 | emissions keep the session invariant |
| `Scenarios.LiveHandleMaterialized` | src/lib/query.svelte.ts:35-42 | a running handle on an enabled view always has a live, undestroyed materialization |
| `Scenarios.NewQueryMaterializes` | src/lib/query.svelte.ts:33-42 | construction calls `materialize` exactly when enabled and nothing is live under its key, and then once, for this hash and user; it never destroys; afterwards the key is materialized |
| `Scenarios.NewQueryObserves` | src/lib/query.svelte.ts:33-42 | construction adds exactly one observer to the resolved view and none to any other |
| `Scenarios.DefaultsBeforeEmission` | src/lib/query.current.svelte.test.ts:23-48 | a new handle whose key has no view yet shows `data` (and the deprecated `current`) as `undefined` for a singular query and `[]` for a plural one, with `details` `unknown` |
| `Scenarios.EmitReachesHandle` | src/lib/query.current.svelte.test.ts:23-38 | after its view emits `(v, 'complete')` a running handle reports `data = v`, `current = v` and `details.type = 'complete'` |
| `Scenarios.EmitElsewhereInvisible` | src/lib/query.current.svelte.test.ts:91-104 | an emission on any view other than the handle's live one leaves its `data` and `details` unchanged |
| `Scenarios.NewQueryInvisible` | src/lib/query.svelte.ts:45-63 | building another handle leaves every existing handle's `data` and `details` unchanged |
| `Scenarios.UpdateElsewhereInvisible` | src/lib/query.svelte.ts:77-85 | `updateQuery` on one handle leaves every other handle's `data` and `details` unchanged |
| `Scenarios.DestroyInvisible` | src/lib/query.svelte.ts:88-90 | `destroy` of any handle, itself included, leaves every handle's `data` and `details` unchanged |
| `Scenarios.DestroyQueryReleases` | src/lib/query.current.svelte.test.ts:106-140 | destroying a handle leaves a view shared with another observer alive; as the last observer it destroys the view once and unregisters the key |
| `Scenarios.DisabledNeverMaterializes` | src/lib/query.current.svelte.test.ts:80-89 | any number of handles with `enabled=false` cause zero engine calls |
| `Scenarios.SharedKeyOneMaterialization` | src/lib/query.current.svelte.test.ts:57-66 | any number of enabled handles with one hash and one userID cause at most one materialize call in total |
| `Scenarios.UpdateSameKeyReuses` | src/lib/query.current.svelte.test.ts:142-169 | `updateQuery` with the same hash, even via another query object, keeps the view, causes no materialize and no destroy |
| `Scenarios.UpdateNewKeyRekeys` | src/lib/query.current.svelte.test.ts:171-202 | `updateQuery` with a new hash creates exactly one new materialization, which becomes the handle's view, and destroys the sole-observer old one |
| `Scenarios.DisableThenEnable` | src/lib/query.current.svelte.test.ts:204-242 | `updateQuery(q, false)` destroys the sole-observer view without materializing; `updateQuery(q, true)` then creates one fresh, live view |
| `Scenarios.ResubscribeAfterRekey` | src/lib/query.current.svelte.test.ts:245-279 | after re-keying, emissions from the new view reach the handle |
| `Scenarios.EmissionsSurviveSameKeyUpdate` | src/lib/query.current.svelte.test.ts:281-315 | after a same-hash `updateQuery`, emissions from the same view still reach the handle |
| `Scenarios.TwoHostsShareOne` | src/lib/query.current.svelte.test.ts:57-66 | two hosts with the same userID and hash share one view and cause exactly one materialize call |
| `Scenarios.UsersNeverShare` | src/lib/query.current.svelte.test.ts:68-78 | the same hash under two userIDs gives two materializations, one per user, on different views |
| `Scenarios.UsersIsolated` | src/lib/query.current.svelte.test.ts:68-78 | in any valid session, handles of different userIDs reference different wrappers and never watch the same live view |
| `Scenarios.LiveViewOwnKey` | src/lib/query.svelte.ts:33-42 | in any valid session, a handle's live view was materialized for the handle's own userID and query hash |
| `Scenarios.SameKeyShares` | src/lib/query.current.svelte.test.ts:57-66 | in any valid session, running handles with the same hash and userID on enabled views reference one wrapper |
| `Scenarios.SharedViewOutlivesFirstHost` | src/lib/query.current.svelte.test.ts:121-140 | a view shared by two hosts survives the first unmount and is destroyed, exactly once, by the second |
| `Mutations.Toggle` | src/routes/api/mutators/index.svelte.ts:46-50 | `toggle_complete` writes the negation of the row's `completed`, or `true` when the row is missing, and never fails |
| `ClientMutators.TodoCreate` | src/routes/api/mutators/index.svelte.ts:9-24 | fails "Not Authorized" when `sub` is empty, checked first; otherwise fails "Title is too long" exactly when the title exceeds 100; otherwise one insert of the four fields |
| `ClientMutators.TodoEdit` | src/routes/api/mutators/index.svelte.ts:26-39 | the same guards, in the same order, then one update of the four fields |
| `ClientMutators.TodoRemove` | src/routes/api/mutators/index.svelte.ts:41-44 | succeeds exactly for a non-empty `sub`, with one delete of `id` |
| `ClientMutators.TypeCreate` | src/routes/api/mutators/index.svelte.ts:55-61 | needs a non-empty `sub`, then a name of length at most 100; then one insert |
| `ClientMutators.TypeEdit` | src/routes/api/mutators/index.svelte.ts:63-66 | checks only the name length, then one update |
| `ClientMutators.LengthBoundary` | src/routes/api/mutators/index.svelte.ts:21 | length exactly 100 is accepted and 101 rejected |
| `ClientMutators.FailuresAreGuards` | src/routes/api/mutators/index.svelte.ts:4-73 | every failure is an authorization or length guard; only `todo.create/edit/remove` and `type.create` can fail "Not Authorized"; the toggle and `type.remove` never fail |
| `LengthOnlyMutators.TypeCreate` | src/routes/api/mutators/index.ts:7-10 | fails "Name is too long" exactly when the name exceeds 100; otherwise one insert |
| `LengthOnlyMutators.TypeUpdate` | src/routes/api/mutators/index.ts:12-15 | fails "Name is too long" exactly when the name exceeds 100; otherwise one update |
| `LengthOnlyMutators.TodoCreate` | src/routes/api/mutators/index.ts:22-35 | fails "Title is too long" exactly when the title exceeds 100; otherwise one insert of all four fields |
| `LengthOnlyMutators.TodoUpdate` | src/routes/api/mutators/index.ts:37-50 | fails "Title is too long" exactly when the title exceeds 100; otherwise one update of all four fields |
| `LengthOnlyMutators.NeverUnauthorized` | src/routes/api/mutators/index.ts:4-63 | no mutator here ever fails "Not Authorized"; the deletes and the toggle never fail |
| `LengthOnlyMutators.AuthorizedClientAgrees` | src/routes/api/mutators/index.ts:56-60 | for a non-empty `sub` the client mutators behave exactly like these; `type.edit`, `type.remove` and the two toggles agree for anyone |
| `ServerMutators.CanDelete` | src/lib/server/server-mutators.svete.ts:11-15 | `canDelete` holds exactly when `authData` is present with `sub === '123456'`; the transaction is not consulted |
| `ServerMutators.Run` | src/lib/server/server-mutators.svete.ts:17-35 | client mutators run as on the client; `todo.delete` succeeds exactly when `canDelete` holds and the client `sub` is non-empty, with one delete of `id`, and otherwise fails "Not Authorized" |
| `ServerMutators.ClientMutatorsCarriedOver` | src/lib/server/server-mutators.svete.ts:17-23 | every client mutator is carried over unchanged, and `todo.delete` is not among the client names |
| `ServerMutators.DeleteGuarded` | src/lib/server/server-mutators.svete.ts:25-35 | when `canDelete` holds, `todo.delete` has exactly the effect of client `todo.remove`; otherwise it throws "Not Authorized" and issues nothing |
| `ServerMutators.DeleteWithSharedAuth` | src/lib/server/server-mutators.svete.ts:6-35 | with one `authData` for both layers, `todo.delete` succeeds exactly for subject `123456` |

## Left out

- Svelte runes (`$state`, `$effect.root`, `$effect`) and their scheduling are not modelled. The persistent effect is an explicit attach at construction and a detach at `destroy`. Re-running the effect on a `#view` change becomes attach-new-then-detach-old inside `updateQuery`.
- Microtask timing (`await Promise.resolve()`) and the async mutators are left out: every step is one synchronous transition.
- How a query's hash is computed (`asQueryInternals`, `addContextToQuery`, `QueryDef.hash`) is an engine internal. The hash is an opaque string and the singular flag a given boolean.
- The store's own source is not part of this model. Its behaviour is pinned by the handle, the scenario tests and the engine doubles. The key is the pair (hash, userID). The exact string concatenation and any defaulting of a missing userID are not shown, so a missing userID is `None` and does not collide with any named user.
- `src/lib/Z.svelte.ts` is left out: it is a proxy over the external client, plus `setContext` and the online subscription. A handle keeps the userID it was created with. Rebuilding the client for another user is not modelled.
- TTL (`updateTTL`, preload ttl) and online/connection status are not part of the tested cache contract and are left out.
- A materialization that throws inside the engine is not modelled, because the engine doubles never throw. The "view already exists" consistency error is not an error path either: the store invariant shows that only the registered wrapper ever owns a live view, so the error cannot occur.
- Snapshot immutability (mutating an emitted object afterwards): values are immutable in Dafny, so aliasing cannot be expressed. The model states the consequence instead, in `Scenarios.EmitElsewhereInvisible`, `Scenarios.NewQueryInvisible`, `Scenarios.UpdateElsewhereInvisible` and `Scenarios.DestroyInvisible`: a handle's snapshot changes only through its own view's emissions or its own `updateQuery`.
- The `view` getter (`query.svelte.ts:66-68`) only exposes the reference. It has no separate member.
- Arrays.Defined: the identity of the returned array (`toBe`) is modelled as the flag `same` plus value equality, because Dafny sequences are values. The implementation file `arrays.ts` is not part of this model. The behaviour comes from the test table.
- JavaScript's UTF-16 `.length` is not modelled: titles and names are `seq<char>` and their length is `|s|`.
- The `tx.mutate.*` and `tx.query.*` calls are not database operations in the model. A mutation is an emitted `Command`, and the row read by `toggle_complete` is an `Option` input.
- The `console.error('Not Authorized')` log before the server `todo.delete` throws (`server-mutators.svete.ts:31`) is console output only and is not modelled.
- HTTP handlers, the push processor, the schema declarations (`schema.ts`, `db_schema.ts`, `zero-schema.ts`), the query definitions, and `src/mutators.ts` (pure forwarding) are left out because they have no logic of their own.
