/**
  The event store as mutable state: the set of existing tenants and the map
  from identity key to the latest event. Each operation is proved against the
  value-level specification in module Events.
*/
module Store {
  import opened Wrappers
  import opened Events

  class EventStore {
    /** Existing organization/environment pairs; the event store only consults them. */
    const tenants: set<Tenant>
    /** The latest event under each identity key. */
    var events: EventMap

    ghost predicate Valid()
      reads this
    {
      WellFormed(events, tenants)
    }

    constructor (tenants: set<Tenant>)
      ensures Valid() && this.tenants == tenants && events == map[]
    {
      this.tenants := tenants;
      events := map[];
    }

    /** Reads the events under a set of listed keys, one key at a time, in no
        particular order: every listed event exactly once. */
    method ReadKeys(keys: set<EventKey>) returns (r: seq<Event>)
      requires Valid() && keys <= events.Keys
      ensures |r| == |keys|
      ensures forall i :: 0 <= i < |r| ==> r[i].Key() in keys && events[r[i].Key()] == r[i]
      ensures forall k :: k in keys ==> events[k] in r
      ensures forall i, j :: 0 <= i < j < |r| ==> r[i] != r[j]
    {
      r := [];
      var remaining := keys;
      while remaining != {}
        invariant remaining <= keys
        invariant |r| + |remaining| == |keys|
        invariant forall i :: 0 <= i < |r| ==>
          r[i].Key() in keys && r[i].Key() !in remaining && events[r[i].Key()] == r[i]
        invariant forall k :: k in keys && k !in remaining ==> events[k] in r
        invariant forall i, j :: 0 <= i < j < |r| ==> r[i] != r[j]
        decreases |remaining|
      {
        var k :| k in remaining;
        r := r + [events[k]];
        remaining := remaining - {k};
      }
    }

    /** All events of a tenant; none found is an empty list, not an error. */
    method GetEvents(ctx: Tenant) returns (r: Result<seq<Event>, StoreError>)
      requires Valid()
      ensures r.Success?
      ensures |r.value| == |ScopeKeys(events, ctx)|
      ensures forall i :: 0 <= i < |r.value| ==>
        r.value[i].Key() in ScopeKeys(events, ctx) && events[r.value[i].Key()] == r.value[i]
      ensures forall k :: k in ScopeKeys(events, ctx) ==> events[k] in r.value
      ensures forall i, j :: 0 <= i < j < |r.value| ==> r.value[i] != r.value[j]
    {
      var listed := ReadKeys(ScopeKeys(events, ctx));
      r := Success(listed);
    }

    /** All events of one entity of a tenant; the entity name must be given. */
    method GetEventsByEntity(ctx: Tenant, entity: string) returns (r: Result<seq<Event>, StoreError>)
      requires Valid()
      ensures r.Failure? <==> entity == ""
      ensures r.Failure? ==> r.error.InvalidArgument?
      ensures r.Success? ==> |r.value| == |EntityKeys(events, ctx, entity)|
      ensures r.Success? ==> forall i :: 0 <= i < |r.value| ==>
        r.value[i].Key() in EntityKeys(events, ctx, entity) && events[r.value[i].Key()] == r.value[i]
      ensures r.Success? ==> forall k :: k in EntityKeys(events, ctx, entity) ==> events[k] in r.value
      ensures r.Success? ==> forall i, j :: 0 <= i < j < |r.value| ==> r.value[i] != r.value[j]
    {
      if entity == "" {
        return Failure(InvalidArgument("must specify entity name"));
      }
      var listed := ReadKeys(EntityKeys(events, ctx, entity));
      r := Success(listed);
    }

    /** One event, or no event and no error when the pair has none recorded. */
    method GetEventByEntityCheck(ctx: Tenant, entity: string, check: string)
      returns (r: Result<Option<Event>, StoreError>)
      requires Valid()
      ensures r == Lookup(events, ctx, entity, check)
      ensures r.Success? && r.value.Some? ==> r.value.value.Key() == EventKey(ctx, entity, check)
    {
      var checked := CheckAddress(entity, check);
      if checked.Fail? {
        return Failure(checked.error);
      }
      var k := EventKey(ctx, entity, check);
      if k in events {
        r := Success(Some(events[k]));
      } else {
        r := Success(None);
      }
    }

    /** Upsert by the event's own identity; refused when a name is missing or
        the event's organization/environment does not exist. */
    method UpdateEvent(e: Event) returns (err: Outcome<StoreError>)
      requires Valid()
      modifies this
      ensures Valid()
      ensures err == CheckWrite(tenants, e)
      ensures events == if err.Pass? then Upsert(old(events), e) else old(events)
    {
      err := CheckWrite(tenants, e);
      if err.Pass? {
        UpsertKeepsWellFormed(events, tenants, e);
        events := events[e.Key() := e];
      }
    }

    /** Removes one event; an absent key is not an error, a missing name is. */
    method DeleteEventByEntityCheck(ctx: Tenant, entity: string, check: string)
      returns (err: Outcome<StoreError>)
      requires Valid()
      modifies this
      ensures Valid()
      ensures err == CheckAddress(entity, check)
      ensures events == if err.Pass? then Remove(old(events), EventKey(ctx, entity, check)) else old(events)
    {
      err := CheckAddress(entity, check);
      if err.Pass? {
        RemoveKeepsWellFormed(events, tenants, EventKey(ctx, entity, check));
        events := events - {EventKey(ctx, entity, check)};
      }
    }
  }

  /** The event storage scenario: a fresh tenant, one upsert, the reads that
      follow, a delete, rejected deletes and a rejected write to a missing
      organization/environment. Ends with the tenant empty again. */
  method EventStorageScenario(event: Event) returns (final: seq<Event>)
    requires event.entity.id == "entity1" && event.checkName == "check1"
    requires event.Key().tenant != Tenant("missing", "missing")
    ensures final == []
  {
    var ctx := event.Key().tenant;
    var store := new EventStore({ctx});

    var listed := store.GetEvents(ctx);
    assert listed == Success([]);

    var err := store.UpdateEvent(event);
    assert err == Pass;

    var got := store.GetEventByEntityCheck(ctx, "entity1", "check1");
    UpdateThenGet(map[], {ctx}, event);
    assert got == Success(Some(event));

    listed := store.GetEvents(ctx);
    UpsertIntoEmptyScope(map[], event);
    assert |listed.value| == 1 && listed.value[0] == event;

    got := store.GetEventByEntityCheck(ctx, "", "foo");
    assert got.Failure?;
    got := store.GetEventByEntityCheck(ctx, "foo", "");
    assert got.Failure?;
    got := store.GetEventByEntityCheck(ctx, "foo", "foo");
    assert got == Success(None);

    var byEntity := store.GetEventsByEntity(ctx, "entity1");
    UpsertIntoEmptyEntity(map[], event);
    assert byEntity.Success? && |byEntity.value| == 1 && byEntity.value[0] == event;

    err := store.DeleteEventByEntityCheck(ctx, "entity1", "check1");
    assert err == Pass;
    UpdateThenDeleteRestores(map[], event);
    assert store.events == map[];
    got := store.GetEventByEntityCheck(ctx, "entity1", "check1");
    assert got == Success(None);

    err := store.DeleteEventByEntityCheck(ctx, "", "");
    assert err.Fail?;
    err := store.DeleteEventByEntityCheck(ctx, "", "foo");
    assert err.Fail?;
    err := store.DeleteEventByEntityCheck(ctx, "foo", "");
    assert err.Fail?;

    var moved := event.(entity := event.entity.(organization := "missing", environment := "missing"));
    err := store.UpdateEvent(moved);
    assert err.Fail?;

    listed := store.GetEvents(ctx);
    final := listed.value;
  }
}
