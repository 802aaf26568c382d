/**
  Identity of events and the specification of the event store as operations
  on a value: a map from identity key to event, plus the set of existing
  tenants. The class in module Store is proved against these functions.
*/
module Events {
  import opened Wrappers

  /** An isolated organization/environment pair. */
  datatype Tenant = Tenant(organization: string, environment: string)

  /** The monitored entity an event is about; only its identity is modelled. */
  datatype Entity = Entity(id: string, organization: string, environment: string)

  /** The address of one event: its tenant, entity name and check name. */
  datatype EventKey = EventKey(tenant: Tenant, entity: string, check: string)

  /** The latest outcome of one check on one entity; the payload stands for
      the timestamp, output and status, which this model keeps opaque. */
  datatype Event = Event(entity: Entity, checkName: string, payload: string) {
    /** An event is addressed by its entity's own organization and environment. */
    function Key(): EventKey {
      EventKey(Tenant(entity.organization, entity.environment), entity.id, checkName)
    }
  }

  datatype StoreError =
    | InvalidArgument(reason: string)  // an entity or check name is missing
    | NotFound(reason: string)         // the event's organization/environment does not exist

  type EventMap = map<EventKey, Event>

  /** The store's invariant: every event is filed under its own key, that key
      names an existing tenant, and neither of its names is empty. */
  ghost predicate WellFormed(m: EventMap, tenants: set<Tenant>) {
    forall k :: k in m ==>
      m[k].Key() == k && k.tenant in tenants && k.entity != "" && k.check != ""
  }

  /** The keys listed by a prefix scan over one tenant. */
  function ScopeKeys(m: EventMap, t: Tenant): set<EventKey> {
    set k | k in m && k.tenant == t
  }

  /** The keys listed by a prefix scan over one entity of one tenant. */
  function EntityKeys(m: EventMap, t: Tenant, entity: string): set<EventKey> {
    set k | k in m && k.tenant == t && k.entity == entity
  }

  /** Both names are needed to address a unique event. */
  function CheckAddress(entity: string, check: string): (r: Outcome<StoreError>)
    ensures r.Pass? <==> entity != "" && check != ""
    ensures r.Fail? ==> r.error.InvalidArgument?
  {
    if entity == "" then Fail(InvalidArgument("must specify entity name"))
    else if check == "" then Fail(InvalidArgument("must specify check name"))
    else Pass
  }

  /** Point read: an incomplete address is an error, an absent event is not. */
  function Lookup(m: EventMap, t: Tenant, entity: string, check: string): Result<Option<Event>, StoreError> {
    match CheckAddress(entity, check)
    case Fail(e) => Failure(e)
    case Pass =>
      var k := EventKey(t, entity, check);
      if k in m then Success(Some(m[k])) else Success(None)
  }

  /** Write validation: the event must name its entity and check, and its own
      organization/environment must exist. */
  function CheckWrite(tenants: set<Tenant>, e: Event): (r: Outcome<StoreError>)
    ensures r.Pass? <==> e.entity.id != "" && e.checkName != "" && e.Key().tenant in tenants
    ensures r.Fail? && e.entity.id != "" && e.checkName != "" ==> r.error.NotFound?
  {
    if e.entity.id == "" then Fail(InvalidArgument("must specify entity name"))
    else if e.checkName == "" then Fail(InvalidArgument("must specify check name"))
    else if e.Key().tenant !in tenants then Fail(NotFound("organization/environment does not exist"))
    else Pass
  }

  /** Upsert: at most one live event per key, the newest one. */
  function Upsert(m: EventMap, e: Event): EventMap {
    m[e.Key() := e]
  }

  /** Removal of one key; removing an absent key leaves the map as it is. */
  function Remove(m: EventMap, k: EventKey): EventMap {
    m - {k}
  }

  // ---------------------------------------------------------------------
  // The store invariant is kept by every accepted write.

  lemma UpsertKeepsWellFormed(m: EventMap, tenants: set<Tenant>, e: Event)
    requires WellFormed(m, tenants) && CheckWrite(tenants, e).Pass?
    ensures WellFormed(Upsert(m, e), tenants)
  {
  }

  lemma RemoveKeepsWellFormed(m: EventMap, tenants: set<Tenant>, k: EventKey)
    requires WellFormed(m, tenants)
    ensures WellFormed(Remove(m, k), tenants)
  {
  }

  // ---------------------------------------------------------------------
  // The assertions of the event store test, stated for every store.

  /** Upsert then delete of a key that was absent restores the map, which is
      how the tenant ends empty again after the test's single event is deleted. */
  lemma UpdateThenDeleteRestores(m: EventMap, e: Event)
    requires e.Key() !in m
    ensures Remove(Upsert(m, e), e.Key()) == m
  {
  }

  /** Round trip: an accepted update is read back unchanged. */
  lemma UpdateThenGet(m: EventMap, tenants: set<Tenant>, e: Event)
    requires CheckWrite(tenants, e).Pass?
    ensures Lookup(Upsert(m, e), e.Key().tenant, e.entity.id, e.checkName) == Success(Some(e))
  {
  }

  /** An update touches no other key. */
  lemma UpdateKeepsOthers(m: EventMap, e: Event, t: Tenant, entity: string, check: string)
    requires EventKey(t, entity, check) != e.Key()
    ensures Lookup(Upsert(m, e), t, entity, check) == Lookup(m, t, entity, check)
  {
  }

  /** After one upsert into an empty tenant, the tenant holds exactly that event. */
  lemma UpsertIntoEmptyScope(m: EventMap, e: Event)
    requires ScopeKeys(m, e.Key().tenant) == {}
    ensures ScopeKeys(Upsert(m, e), e.Key().tenant) == {e.Key()}
    ensures Upsert(m, e)[e.Key()] == e
  {
  }

  /** Likewise for the entity's own scope. */
  lemma UpsertIntoEmptyEntity(m: EventMap, e: Event)
    requires EntityKeys(m, e.Key().tenant, e.entity.id) == {}
    ensures EntityKeys(Upsert(m, e), e.Key().tenant, e.entity.id) == {e.Key()}
  {
  }

  /** Either name empty: an error and no event, whatever the store holds. */
  lemma IncompleteAddressRejected(m: EventMap, t: Tenant, name: string)
    ensures Lookup(m, t, "", name).Failure? && Lookup(m, t, "", name).error.InvalidArgument?
    ensures Lookup(m, t, name, "").Failure? && Lookup(m, t, name, "").error.InvalidArgument?
  {
  }

  /** A well-formed address with no recorded event: no event and no error. */
  lemma UnrecordedIsAbsent(m: EventMap, t: Tenant, entity: string, check: string)
    requires entity != "" && check != "" && EventKey(t, entity, check) !in m
    ensures Lookup(m, t, entity, check) == Success(None)
  {
  }

  /** Delete then get: the pair is absent, and that is not an error. */
  lemma DeleteThenAbsent(m: EventMap, t: Tenant, entity: string, check: string)
    requires CheckAddress(entity, check).Pass?
    ensures Lookup(Remove(m, EventKey(t, entity, check)), t, entity, check) == Success(None)
  {
  }

  /** A delete touches no other key. */
  lemma DeleteKeepsOthers(m: EventMap, k: EventKey, t: Tenant, entity: string, check: string)
    requires EventKey(t, entity, check) != k
    ensures Lookup(Remove(m, k), t, entity, check) == Lookup(m, t, entity, check)
  {
  }

  /** A write to a missing organization/environment is refused, and no event
      of that tenant can be observed in a well-formed store. */
  lemma MissingTenantNeverObservable(m: EventMap, tenants: set<Tenant>, e: Event)
    requires WellFormed(m, tenants) && e.Key().tenant !in tenants
    ensures CheckWrite(tenants, e).Fail?
    ensures ScopeKeys(m, e.Key().tenant) == {}
    ensures Lookup(m, e.Key().tenant, e.entity.id, e.checkName).Success? ==>
            Lookup(m, e.Key().tenant, e.entity.id, e.checkName).value == None
  {
  }
}
