# Sensu event store and viewer resolvers, modelled in Dafny

This project models two cooperating pieces of the Sensu backend's event read/write path.

- **The event store** (`EventStore`) keeps the latest check outcome (an *event*) for every
  (organization, environment, entity, check) key. Writes are validated against the set of existing
  organization/environment pairs (*tenants*). Its contract is the one the event storage test asserts:
  - upsert semantics;
  - an incomplete address (empty entity or check name) is an error;
  - an absent event is not an error;
  - a deleted event is absent;
  - a write to a missing organization/environment is refused.
- **The viewer resolvers** of the GraphQL schema (`entities`, `checks`, `checkEvents`, `user`).
  The first three fetch a whole collection and propagate any fetch error. `entities` and
  `checkEvents` then keep only what the viewer can read, in the original order. All three hand
  the resulting list to the relay connection (page) builder.

Layout:

- `wrappers.dfy` (module `Wrappers`): `Option`, `Result` and `Outcome`. These stand for Go's nil
  values and `(T, error)` / `error` returns.
- `events.dfy` (module `Events`): event identity and the store's specification as functions on a
  value. The value is a map from key to event plus the tenant set. The module also holds the lemmas
  that restate the test's assertions for every store.
- `event_store.dfy` (module `Store`): class `EventStore`. It has a `const` tenant set and a `var`
  event map. Its five methods are proved against module `Events`. `EventStorageScenario` replays
  the test step by step.
- `abilities.dfy` (module `Abilities`): the read filter `Filter`, its lemmas, and the resolvers'
  filtering loop `CollectReadable`.
- `viewer.dfy` (module `Viewer`): the four resolvers, the `checks` list as written and corrected,
  and the page lemma.

Modelling choices:

- The abilities (`CanRead`) are a predicate parameter `T -> bool`.
- The page builder (`relay.ConnectionFromArray`) is a function parameter
  `(seq<T>, ConnectionArgs) -> Connection<T>`.
- The store fetches for entities, for the check controller's `Query`, and for `GetUser` are
  `Result` parameters or function parameters.
- `DrawsFrom(build)` is the one assumption made about the page builder: it only pages through the
  list it is given.
- `UpdateEvent` has no tenant parameter. The write is addressed by the event's own organization and
  environment, as the test shows at `backend/store/etcd/event_store_test.go` lines 61-65: the
  context keeps the original tenant while the event is moved to "missing".
- Reads do not check that the tenant exists. Only writes are validated.
- `UpdateEvent` also rejects an event with an empty entity or check name (`InvalidArgument`).
  The test does not exercise this, but it keeps the invariant that no stored key has an empty name.
- The etcd store implementation is not part of this model. The model is an abstract key-value
  store with the behaviour the test asserts.

## Model

| member | source | states |
|---|---|---|
| Events.CheckAddress | backend/store/etcd/event_store_test.go:35-41 | an address is accepted iff both the entity and the check name are non-empty; a refusal is InvalidArgument |
| Events.CheckWrite | backend/store/etcd/event_store_test.go:61-65 | a write is accepted iff both names are given and the event's own organization/environment exists; with both names given the refusal is NotFound |
| Events.UpsertKeepsWellFormed | backend/store/etcd/event_store_test.go:23-24 | an accepted upsert keeps the store invariant: each event sits under its own key, in an existing tenant, with non-empty names |
| Events.RemoveKeepsWellFormed | backend/store/etcd/event_store_test.go:52 | a delete keeps the store invariant |
| Events.UpdateThenDeleteRestores | backend/store/etcd/event_store_test.go:23-55 | an upsert of a previously absent key followed by the delete of that key gives back the store as it was, so a tenant that started empty is empty again |
| Events.UpdateThenGet | backend/store/etcd/event_store_test.go:23-28 | after an accepted update, reading the event's entity and check returns that same event and no error |
| Events.UpdateKeepsOthers | backend/store/etcd/event_store_test.go:23-24 | an update changes what a read returns only at the event's own key |
| Events.UpsertIntoEmptyScope | backend/store/etcd/event_store_test.go:30-33 | one upsert into an empty tenant leaves exactly one key in the tenant, holding that event |
| Events.UpsertIntoEmptyEntity | backend/store/etcd/event_store_test.go:47-50 | one upsert for an entity with no events leaves exactly that event under the entity |
| Events.IncompleteAddressRejected | backend/store/etcd/event_store_test.go:35-41 | an empty entity name or an empty check name gives an InvalidArgument error and no event, whatever the store holds |
| Events.UnrecordedIsAbsent | backend/store/etcd/event_store_test.go:43-45 | a complete address with nothing recorded gives no event and no error |
| Events.DeleteThenAbsent | backend/store/etcd/event_store_test.go:52-55 | after a delete of a complete address, reading it gives no event and no error |
| Events.DeleteKeepsOthers | backend/store/etcd/event_store_test.go:52 | a delete changes what a read returns only at the deleted key |
| Events.MissingTenantNeverObservable | backend/store/etcd/event_store_test.go:61-65 | a write to a missing organization/environment is refused, and a valid store holds no event of that tenant to observe |
| Store.EventStore.GetEvents | backend/store/etcd/event_store_test.go:18-33 | never an error; lists every event of the tenant exactly once, and nothing else (empty for an empty tenant) |
| Store.EventStore.GetEventsByEntity | backend/store/etcd/event_store_test.go:47-50 | an error iff the entity name is empty; otherwise every event of that entity in the tenant exactly once, and nothing else |
| Store.EventStore.GetEventByEntityCheck | backend/store/etcd/event_store_test.go:26-45 | equals the point-read specification: error on an incomplete address, the stored event, or none without error |
| Store.EventStore.UpdateEvent | backend/store/etcd/event_store_test.go:23-24 | the result is the write validation; on success the map is the old one upserted with the event, on failure it is unchanged; the invariant holds |
| Store.EventStore.DeleteEventByEntityCheck | backend/store/etcd/event_store_test.go:52-59 | an error iff a name is empty, with the map unchanged; otherwise the key is removed (absent or not) and nothing else changes |
| Store.EventStorageScenario | backend/store/etcd/event_store_test.go:12-67 | the whole test sequence has the asserted outcomes, and the tenant is empty again at the end |
| Abilities.FilterSound | backend/apid/graphql/viewer.go:32-37 | every filtered item comes from the fetched list and is readable; the filtered list is no longer than the fetched one |
| Abilities.FilterSelectsReadable | backend/apid/graphql/viewer.go:33-36 | the filtered list is the fetched list at exactly the readable positions, in ascending order: none dropped, none added, none reordered |
| Abilities.CollectReadable | backend/apid/graphql/viewer.go:32-37 | the append loop produces exactly the filtered list |
| Viewer.ResolveEntities | backend/apid/graphql/viewer.go:24-41 | a fetch error is returned unchanged with no page; otherwise the page is built from the readable entities, never from the raw list |
| Viewer.ResolveCheckEvents | backend/apid/graphql/viewer.go:70-87 | the same as for entities, over the fetched events with the events ability |
| Viewer.CheckEventsFromStore | backend/apid/graphql/viewer.go:71-86 | over the event store, the resolver succeeds, and every node of every page is a stored event of the tenant that the viewer can read |
| Viewer.PageShowsOnlyReadable | backend/apid/graphql/viewer.go:39-40 | for any window, a page built from the filtered list holds only readable items of the fetched list |
| Viewer.CollectChecks | backend/apid/graphql/viewer.go:57-60 | as written: the list is twice as long as the check list, one nil slot per check followed by the checks in controller order |
| Viewer.ResolveChecks | backend/apid/graphql/viewer.go:47-64 | a controller error is returned unchanged; otherwise the page is built from the padded list, with no ability filter |
| Viewer.ChecksPaddingCounterexample | backend/apid/graphql/viewer.go:57-60 | for every non-empty check list the built list starts with nil, is twice as long and differs from the checks; one check c gives [nil, c] |
| Viewer.CollectChecksCorrected | backend/apid/graphql/viewer.go:57-60 | with an empty slice to start from: exactly the checks, in controller order |
| Viewer.ResolveChecksCorrected | backend/apid/graphql/viewer.go:47-64 | as ResolveChecks, but the page is built from the checks themselves |
| Viewer.CorrectedIsPaddingRemoved | backend/apid/graphql/viewer.go:57-60 | the corrected list is the as-written list with its nil slots dropped, and it holds no nil |
| Viewer.ResolveUser | backend/apid/graphql/viewer.go:92-103 | the result is the store's lookup for the actor's name, user or error, unchanged |

## Left out

- The etcd client, key-prefix layout, network and upstream errors: the store never fails except on
  the conditions above, so `Store.EventStore.GetEvents` always succeeds.
- Context cancellation, deadlines and concurrency between requests: every operation is one atomic,
  sequential step.
- Creating or deleting tenants: the event store only reads the tenant set.
- The event payload (timestamp, check result): `Event.payload` is an opaque string.
- `relay.ConnectionFromArray` and `relay.NewConnectionArguments`: the page builder is an opaque
  parameter. Cursor encoding, windowing by first/last/after/before and the page flags are not
  modelled, so no property of a page's size is proved.
- Authorization rule evaluation: `CanRead` is an uninterpreted predicate, and the actor's rules are
  not modelled.
- `store.GetEntities`, the check controller's `Query` and `store.GetUser` are opaque fetches. They
  are given as a `Result` or as a lookup function.
- GraphQL schema construction and the context-value lookups of the store and the actor: both are
  explicit parameters instead.
- `cli/commands/check/show_test.go` (CLI presentation) is not part of this model.

## Findings

| source | as written | input that shows it | evidently intended | confidence | as-written member | corrected member |
|---|---|---|---|---|---|---|
| backend/apid/graphql/viewer.go:57-60 | `make([]interface{}, len(checks))` creates len(checks) nil elements, and the loop appends the checks after them | controller returns one check c: the list paged is [nil, c] | start from an empty slice with capacity len(checks), so the list is exactly the checks | high (not executed) | Viewer.CollectChecks, Viewer.ChecksPaddingCounterexample | Viewer.CollectChecksCorrected, Viewer.ResolveChecksCorrected |
