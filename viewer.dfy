/**
  The viewer's collection resolvers: fetch the whole collection, keep what
  the viewer may read, and hand the result to the connection (page) builder.
  The store, the check controller, the abilities and the page builder are
  parameters; the page builder is opaque, its cursor encoding included.
*/
module Viewer {
  import opened Wrappers
  import opened Events
  import opened Abilities
  import Store

  /** Relay connection arguments: a window given by counts and cursors. */
  datatype ConnectionArgs = ConnectionArgs(first: Option<int>, after: Option<string>,
                                           last: Option<int>, before: Option<string>)

  datatype Edge<T> = Edge(cursor: string, node: T)

  /** One page of a collection. */
  datatype Connection<T> = Connection(edges: seq<Edge<T>>, hasNextPage: bool, hasPreviousPage: bool)

  /** Builds a page from a list and the caller's arguments. */
  type PageBuilder<!T> = (seq<T>, ConnectionArgs) -> Connection<T>

  /** A page builder that only ever pages through the list it is given. */
  ghost predicate DrawsFrom<T(!new)>(build: PageBuilder<T>) {
    forall list, args, i :: 0 <= i < |build(list, args).edges| ==> build(list, args).edges[i].node in list
  }

  /** A check configuration; only its name is modelled. */
  datatype CheckConfig = CheckConfig(name: string)

  /** The requesting identity; its authorization rules are not modelled. */
  datatype Actor = Actor(name: string)

  // ---------------------------------------------------------------------
  // entities and checkEvents: fetch, filter by ability, paginate.

  /** The entities resolver: a fetch error comes back unchanged and no page is
      built; otherwise the page is built from the readable entities only. */
  method ResolveEntities<E>(fetched: Result<seq<Entity>, E>, canRead: Entity -> bool,
                            args: ConnectionArgs, build: PageBuilder<Entity>)
    returns (r: Result<Connection<Entity>, E>)
    ensures fetched.Failure? ==> r == Failure(fetched.error)
    ensures fetched.Success? ==> r == Success(build(Filter(fetched.value, canRead), args))
  {
    if fetched.Failure? {
      return Failure(fetched.error);
    }
    var resources := CollectReadable(fetched.value, canRead);
    r := Success(build(resources, args));
  }

  /** The checkEvents resolver, over the events the store lists for the tenant. */
  method ResolveCheckEvents<E>(fetched: Result<seq<Event>, E>, canRead: Event -> bool,
                               args: ConnectionArgs, build: PageBuilder<Event>)
    returns (r: Result<Connection<Event>, E>)
    ensures fetched.Failure? ==> r == Failure(fetched.error)
    ensures fetched.Success? ==> r == Success(build(Filter(fetched.value, canRead), args))
  {
    if fetched.Failure? {
      return Failure(fetched.error);
    }
    var resources := CollectReadable(fetched.value, canRead);
    r := Success(build(resources, args));
  }

  /** checkEvents wired to the event store: every node of the page is an event
      of the tenant that the viewer can read. */
  method CheckEventsFromStore(store: Store.EventStore, ctx: Tenant, canRead: Event -> bool,
                              args: ConnectionArgs, build: PageBuilder<Event>)
    returns (r: Result<Connection<Event>, StoreError>)
    requires store.Valid() && DrawsFrom(build)
    ensures r.Success?
    ensures forall i :: 0 <= i < |r.value.edges| ==>
      canRead(r.value.edges[i].node) && r.value.edges[i].node.Key().tenant == ctx &&
      r.value.edges[i].node in store.events.Values
  {
    var records := store.GetEvents(ctx);
    r := ResolveCheckEvents(records, canRead, args, build);
    PageShowsOnlyReadable(records.value, canRead, args, build);
    forall i | 0 <= i < |r.value.edges|
      ensures r.value.edges[i].node in store.events.Values
    {
      var k := r.value.edges[i].node.Key();
      assert store.events[k] == r.value.edges[i].node;
    }
  }

  /** For any window, a page built by the resolvers holds only items the
      viewer can read, all of them from the fetched list. */
  lemma PageShowsOnlyReadable<T(!new)>(items: seq<T>, canRead: T -> bool,
                                       args: ConnectionArgs, build: PageBuilder<T>)
    requires DrawsFrom(build)
    ensures forall i :: 0 <= i < |build(Filter(items, canRead), args).edges| ==>
      canRead(build(Filter(items, canRead), args).edges[i].node) &&
      build(Filter(items, canRead), args).edges[i].node in items
  {
    FilterSound(items, canRead);
  }

  // ---------------------------------------------------------------------
  // checks: the controller already applies authorization; no filter.

  /** The nodes of a list, as the non-nil interface values appended to it. */
  function Nodes<T>(s: seq<T>): (r: seq<Option<T>>)
    ensures |r| == |s| && forall i :: 0 <= i < |s| ==> r[i] == Some(s[i])
  {
    if s == [] then [] else Nodes(s[..|s| - 1]) + [Some(s[|s| - 1])]
  }

  /** The checks list as the resolver builds it: a slice made with length
      |checks| (all nil), then every check appended after those slots. */
  function ChecksAsWritten(checks: seq<CheckConfig>): seq<Option<CheckConfig>> {
    seq(|checks|, _ => None) + Nodes(checks)
  }

  /** The loop of the checks resolver, as written. */
  method CollectChecks(checks: seq<CheckConfig>) returns (results: seq<Option<CheckConfig>>)
    ensures results == ChecksAsWritten(checks)
    ensures |results| == 2 * |checks|
    ensures forall i :: 0 <= i < |checks| ==> results[i] == None
    ensures forall i :: 0 <= i < |checks| ==> results[|checks| + i] == Some(checks[i])
  {
    results := seq(|checks|, _ => None);
    for i := 0 to |checks|
      invariant |results| == |checks| + i
      invariant forall j :: 0 <= j < |checks| ==> results[j] == None
      invariant forall j :: 0 <= j < i ==> results[|checks| + j] == Some(checks[j])
    {
      results := results + [Some(checks[i])];
    }
  }

  /** The checks resolver as written: no ability filter, and the page is built
      from the padded list. */
  method ResolveChecks<E>(fetched: Result<seq<CheckConfig>, E>, args: ConnectionArgs,
                          build: PageBuilder<Option<CheckConfig>>)
    returns (r: Result<Connection<Option<CheckConfig>>, E>)
    ensures fetched.Failure? ==> r == Failure(fetched.error)
    ensures fetched.Success? ==> r == Success(build(ChecksAsWritten(fetched.value), args))
  {
    if fetched.Failure? {
      return Failure(fetched.error);
    }
    var results := CollectChecks(fetched.value);
    r := Success(build(results, args));
  }

  /** The padded list differs from the check list for any non-empty input: its
      first node is nil and it is twice as long. One check c gives [nil, c]. */
  lemma ChecksPaddingCounterexample(checks: seq<CheckConfig>, c: CheckConfig)
    requires |checks| > 0
    ensures ChecksAsWritten(checks)[0] == None
    ensures |ChecksAsWritten(checks)| == 2 * |checks|
    ensures ChecksAsWritten(checks) != Nodes(checks)
    ensures ChecksAsWritten([c]) == [None, Some(c)]
  {
    assert Nodes([c]) == [Some(c)];
  }

  /** The loop with the slice made empty (capacity |checks|): the checks, in
      controller order, and nothing else. */
  method CollectChecksCorrected(checks: seq<CheckConfig>) returns (results: seq<Option<CheckConfig>>)
    ensures results == Nodes(checks)
    ensures |results| == |checks|
    ensures forall i :: 0 <= i < |checks| ==> results[i] == Some(checks[i])
  {
    results := [];
    for i := 0 to |checks|
      invariant results == Nodes(checks[..i])
    {
      assert checks[..i + 1][..i] == checks[..i];
      results := results + [Some(checks[i])];
    }
    assert checks[..|checks|] == checks;
  }

  /** The corrected checks resolver. */
  method ResolveChecksCorrected<E>(fetched: Result<seq<CheckConfig>, E>, args: ConnectionArgs,
                                   build: PageBuilder<Option<CheckConfig>>)
    returns (r: Result<Connection<Option<CheckConfig>>, E>)
    ensures fetched.Failure? ==> r == Failure(fetched.error)
    ensures fetched.Success? ==> r == Success(build(Nodes(fetched.value), args))
  {
    if fetched.Failure? {
      return Failure(fetched.error);
    }
    var results := CollectChecksCorrected(fetched.value);
    r := Success(build(results, args));
  }

  /** The corrected list is the padded one without its nil slots. */
  lemma CorrectedIsPaddingRemoved(checks: seq<CheckConfig>)
    ensures ChecksAsWritten(checks)[|checks|..] == Nodes(checks)
    ensures forall i :: 0 <= i < |Nodes(checks)| ==> Nodes(checks)[i] != None
  {
  }

  // ---------------------------------------------------------------------
  // user: look the actor's name up in the store.

  /** The user resolver: the store's answer for the actor's name, user or
      error, unchanged. */
  function ResolveUser<U, E>(actor: Actor, getUser: string -> Result<U, E>): (r: Result<U, E>)
    ensures r == getUser(actor.name)
  {
    var found := getUser(actor.name);
    if found.Failure? then Failure(found.error) else Success(found.value)
  }
}
