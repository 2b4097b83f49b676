/** Subscription notifications, routed by client handle to one publisher per device
    (crates/gateway/src/server_task.rs, crates/opcua-conn/src/lib.rs). */
module SubscriptionLoop {
  import opened Text
  import opened Payload
  import opened Publish
  import opened PublishRuns
  import opened Totals
  import Resolve

  /** The device and the node a monitored item stands for, with what the node asks for. */
  datatype SubscribedTarget = SubscribedTarget(entity: string, node: string, actions: seq<Resolve.Action>)

  datatype CreatedItem = CreatedItem(isGood: bool, handle: nat)

  type Routes = map<nat, SubscribedTarget>

  // ---- routes ----

  /** One outcome per requested item: its handle, or nothing when it was refused or not answered. */
  function HandlesOf(items: nat, created: seq<CreatedItem>): seq<Option<nat>> {
    seq(items, i requires 0 <= i < items =>
      if i < |created| && created[i].isGood then Some(created[i].handle) else None)
  }

  function RoutesOf(targets: seq<SubscribedTarget>, handles: seq<Option<nat>>): Routes
    requires |targets| == |handles|
  {
    if targets == [] then map[]
    else
      var n := |targets| - 1;
      var rest := RoutesOf(targets[..n], handles[..n]);
      if handles[n].Some? then rest[handles[n].value := targets[n]] else rest
  }

  /** The session hands out each client handle once. */
  predicate DistinctHandles(handles: seq<Option<nat>>) {
    forall i, j :: 0 <= i < j < |handles| && handles[i].Some? ==> handles[i] != handles[j]
  }

  predicate IsRoute(targets: seq<SubscribedTarget>, handles: seq<Option<nat>>, handle: nat, target: SubscribedTarget)
    requires |targets| == |handles|
  {
    exists i :: 0 <= i < |targets| && handles[i] == Some(handle) && targets[i] == target
  }

  /** The routes are exactly the accepted items, each leading to its own target. */
  lemma {:induction false} RoutesAreTheAcceptedItems(targets: seq<SubscribedTarget>, handles: seq<Option<nat>>,
                                                     handle: nat, target: SubscribedTarget)
    requires |targets| == |handles| && DistinctHandles(handles)
    ensures
      var routes := RoutesOf(targets, handles);
      handle in routes && routes[handle] == target <==> IsRoute(targets, handles, handle, target)
  {
    if targets != [] {
      var n := |targets| - 1;
      RoutesAreTheAcceptedItems(targets[..n], handles[..n], handle, target);
      IsRouteStep(targets, handles, handle, target);
      if handles[n] == Some(handle) {
        assert forall i :: 0 <= i < n ==> handles[..n][i] == handles[i];
      }
    }
  }

  lemma IsRouteStep(targets: seq<SubscribedTarget>, handles: seq<Option<nat>>, handle: nat, target: SubscribedTarget)
    requires |targets| == |handles| && targets != []
    ensures
      var n := |targets| - 1;
      IsRoute(targets, handles, handle, target) <==>
        IsRoute(targets[..n], handles[..n], handle, target) || (handles[n] == Some(handle) && targets[n] == target)
  {
    var n := |targets| - 1;
    if IsRoute(targets[..n], handles[..n], handle, target) {
      var i :| 0 <= i < n && handles[..n][i] == Some(handle) && targets[..n][i] == target;
      assert handles[i] == Some(handle) && targets[i] == target;
    }
    if IsRoute(targets, handles, handle, target) {
      var i :| 0 <= i < |targets| && handles[i] == Some(handle) && targets[i] == target;
      assert i < n ==> handles[..n][i] == handles[i] && targets[..n][i] == targets[i];
    }
  }

  /** Item `i` was accepted, with this handle. */
  predicate IsAccepted(created: seq<CreatedItem>, i: nat, handle: nat) {
    i < |created| && created[i].isGood && created[i].handle == handle
  }

  /** Outcome `i` is that of target `i`: with no handle given out twice, a handle leads to exactly the target
      whose item was accepted with it, and an item that was refused, or not answered, has no route. */
  lemma RoutesFollowTheOutcomes(targets: seq<SubscribedTarget>, created: seq<CreatedItem>, handle: nat,
                                target: SubscribedTarget)
    requires forall i, j :: 0 <= i < j < |targets| && j < |created| && created[i].isGood && created[j].isGood ==>
      created[i].handle != created[j].handle
    ensures
      var routes := RoutesOf(targets, HandlesOf(|targets|, created));
      handle in routes && routes[handle] == target <==>
        exists i :: 0 <= i < |targets| && IsAccepted(created, i, handle) && targets[i] == target
  {
    var handles := HandlesOf(|targets|, created);
    assert forall i :: 0 <= i < |targets| ==> (handles[i] == Some(handle) <==> IsAccepted(created, i, handle));
    RoutesAreTheAcceptedItems(targets, handles, handle, target);
    if i :| 0 <= i < |targets| && IsAccepted(created, i, handle) && targets[i] == target {
      assert handles[i] == Some(handle);
    }
  }

  /** Route the accepted items; the refused ones get no route. */
  method BuildRoutes(targets: seq<SubscribedTarget>, created: seq<CreatedItem>) returns (routes: Routes, refused: nat)
    ensures routes == RoutesOf(targets, HandlesOf(|targets|, created))
    ensures refused <= |targets|
    ensures DistinctHandles(HandlesOf(|targets|, created)) ==> |routes| + refused == |targets|
  {
    var handles := HandlesOf(|targets|, created);
    routes, refused := map[], 0;
    for i := 0 to |targets|
      invariant routes == RoutesOf(targets[..i], handles[..i])
      invariant refused <= i
      invariant DistinctHandles(handles) ==> |routes| + refused == i
    {
      assert targets[..i + 1][..i] == targets[..i] && handles[..i + 1][..i] == handles[..i];
      match handles[i] {
        case Some(handle) =>
          RoutesComeFromHandles(targets[..i], handles[..i], handle);
          if DistinctHandles(handles) && handle in routes {
            var j :| 0 <= j < i && handles[..i][j] == Some(handle);
            assert handles[j] == handles[i];
          }
          routes := routes[handle := targets[i]];
        case None =>
          refused := refused + 1;
      }
    }
    assert targets[..|targets|] == targets && handles[..|targets|] == handles;
  }

  lemma {:induction false} RoutesComeFromHandles(targets: seq<SubscribedTarget>, handles: seq<Option<nat>>, handle: nat)
    requires |targets| == |handles|
    ensures handle in RoutesOf(targets, handles) ==> exists j :: 0 <= j < |handles| && handles[j] == Some(handle)
  {
    if targets != [] {
      var n := |targets| - 1;
      RoutesComeFromHandles(targets[..n], handles[..n], handle);
      if handle in RoutesOf(targets[..n], handles[..n]) {
        var j :| 0 <= j < n && handles[..n][j] == Some(handle);
        assert handles[j] == Some(handle);
      }
    }
  }

  // ---- the loop, on values ----

  datatype Event = Tick(now: string) | Change(handle: nat, value: DataValue, now: string)

  /** The state of every publisher, by entity. */
  type Fleet = map<string, State>

  function Entities(routes: Routes): set<string> {
    set h | h in routes :: routes[h].entity
  }

  function NewFleet(entities: set<string>): Fleet {
    map e | e in entities :: INITIAL
  }

  function Flushed(fleet: Fleet, now: string): Fleet {
    map e | e in fleet :: AfterFlush(fleet[e], now)
  }

  function Delivered(fleet: Fleet, routes: Routes, handle: nat, value: DataValue, now: string): Fleet {
    if handle !in routes || routes[handle].entity !in fleet then fleet
    else
      var target := routes[handle];
      fleet[target.entity := AfterAccept(fleet[target.entity], false, target.actions, target.node, value, now)]
  }

  function Pending(fleet: Fleet): map<string, nat> {
    map e | e in fleet :: fleet[e].pending
  }

  ghost function FlushedWhenFull(fleet: Fleet, flushMaxSeries: nat, now: string): Fleet {
    if Total(Pending(fleet)) >= flushMaxSeries then Flushed(fleet, now) else fleet
  }

  ghost function AfterEvent(fleet: Fleet, routes: Routes, flushMaxSeries: nat, event: Event): Fleet {
    match event
    case Tick(now) => Flushed(fleet, now)
    case Change(handle, value, now) =>
      FlushedWhenFull(Delivered(fleet, routes, handle, value, now), flushMaxSeries, now)
  }

  ghost function RunFleet(routes: Routes, flushMaxSeries: nat, events: seq<Event>): Fleet {
    if events == [] then NewFleet(Entities(routes))
    else
      var n := |events| - 1;
      AfterEvent(RunFleet(routes, flushMaxSeries, events[..n]), routes, flushMaxSeries, events[n])
  }

  // ---- the loop ----

  ghost predicate OwnsItsDevice(p: Publisher, entity: string)
    reads p
  {
    p.Valid() && p.entity == entity && !p.dedupEvents
  }

  /** Every device has a publisher of its own, and no two publishers share a batch. */
  ghost predicate Apart(publishers: map<string, Publisher>)
    reads publishers.Values
  {
    && (forall e :: e in publishers ==> OwnsItsDevice(publishers[e], e))
    && (forall e, f :: e in publishers && f in publishers && e != f ==>
          publishers[e] != publishers[f] && publishers[e].batch.Values !! publishers[f].batch.Values)
  }

  /** The builders of every publisher. */
  ghost function Batches(publishers: map<string, Publisher>): map<string, set<MeasurementBuilder>>
    reads publishers.Values
  {
    map e | e in publishers :: publishers[e].batch.Values
  }

  ghost function Builders(publishers: map<string, Publisher>): set<MeasurementBuilder>
    reads publishers.Values
  {
    set p, b | p in publishers.Values && b in p.batch.Values :: b
  }

  ghost function FleetOf(publishers: map<string, Publisher>): Fleet
    reads publishers.Values, Builders(publishers)
  {
    map e | e in publishers :: publishers[e].Current()
  }

  /** The publisher is as it was, and shares no builder with the given ones. */
  ghost predicate IsUntouched(p: Publisher, was: State, batch: set<MeasurementBuilder>, others: set<MeasurementBuilder>)
    reads p, p.batch.Values
  {
    p.Current() == was && p.batch.Values == batch && others !! batch
  }

  /** One publisher changed, the others did not, and its batches are still its own. */
  lemma OneChanged(publishers: map<string, Publisher>, fleet: Fleet, batches: map<string, set<MeasurementBuilder>>,
                   entity: string)
    requires entity in publishers && fleet.Keys == batches.Keys == publishers.Keys
    requires forall e :: e in publishers ==> OwnsItsDevice(publishers[e], e)
    requires forall e, f :: e in publishers && f in publishers && e != f ==>
      publishers[e] != publishers[f] && batches[e] !! batches[f]
    requires forall e :: e in publishers && e != entity ==>
      IsUntouched(publishers[e], fleet[e], batches[e], publishers[entity].batch.Values)
    ensures Apart(publishers)
    ensures FleetOf(publishers) == fleet[entity := publishers[entity].Current()]
    ensures forall b :: b in Builders(publishers) ==>
      b in publishers[entity].batch.Values || exists e :: e in batches && b in batches[e]
  {
    forall e | e in publishers && e != entity
      ensures publishers[e].Current() == fleet[e] && publishers[e].batch.Values == batches[e]
      ensures publishers[entity].batch.Values !! batches[e]
    {
      assert IsUntouched(publishers[e], fleet[e], batches[e], publishers[entity].batch.Values);
    }
    StillApart(publishers, batches, entity);
  }

  lemma StillApart(publishers: map<string, Publisher>, batches: map<string, set<MeasurementBuilder>>, entity: string)
    requires entity in publishers && batches.Keys == publishers.Keys
    requires forall e :: e in publishers ==> OwnsItsDevice(publishers[e], e)
    requires forall e, f :: e in publishers && f in publishers && e != f ==>
      publishers[e] != publishers[f] && batches[e] !! batches[f]
    requires forall e :: e in publishers && e != entity ==>
      publishers[e].batch.Values == batches[e] && publishers[entity].batch.Values !! batches[e]
    ensures Apart(publishers)
  {
    forall e, f | e in publishers && f in publishers && e != f
      ensures publishers[e].batch.Values !! publishers[f].batch.Values
    {
      assert batches[e] !! batches[f];
    }
  }

  /** Hand the value to its publisher, which leaves the others alone. */
  method AcceptOnly(publishers: map<string, Publisher>, target: SubscribedTarget, value: DataValue, now: string)
    requires Apart(publishers) && target.entity in publishers
    modifies publishers[target.entity], publishers[target.entity].batch.Values
    ensures OwnsItsDevice(publishers[target.entity], target.entity)
    ensures publishers[target.entity].Current() ==
      AfterAccept(old(publishers[target.entity].Current()), false, target.actions, target.node, value, now)
    ensures fresh(publishers[target.entity].batch.Values - old(publishers[target.entity].batch.Values))
    ensures forall e :: e in publishers && e != target.entity ==>
      IsUntouched(publishers[e], old(FleetOf(publishers))[e], old(Batches(publishers))[e],
                  publishers[target.entity].batch.Values)
  {
    var publisher := publishers[target.entity];
    ghost var fleet, batches := FleetOf(publishers), Batches(publishers);
    publisher.Accept(target.actions, target.node, value, now);
    forall e | e in publishers && e != target.entity
      ensures IsUntouched(publishers[e], fleet[e], batches[e], publisher.batch.Values)
    {
      assert publishers[e] != publisher && batches[target.entity] !! batches[e];
    }
  }

  method AcceptAt(publishers: map<string, Publisher>, target: SubscribedTarget, value: DataValue, now: string)
    requires Apart(publishers) && target.entity in publishers
    modifies publishers[target.entity], publishers[target.entity].batch.Values
    ensures Apart(publishers) && fresh(Builders(publishers) - old(Builders(publishers)))
    ensures
      var before := old(FleetOf(publishers));
      FleetOf(publishers) ==
        before[target.entity := AfterAccept(before[target.entity], false, target.actions, target.node, value, now)]
  {
    ghost var fleet, batches := FleetOf(publishers), Batches(publishers);
    AcceptOnly(publishers, target, value, now);
    OneChanged(publishers, fleet, batches, target.entity);
  }

  method FlushOne(publishers: map<string, Publisher>, entity: string, now: string)
    requires Apart(publishers) && entity in publishers
    modifies publishers[entity]
    ensures Apart(publishers) && Builders(publishers) <= old(Builders(publishers))
    ensures
      var before := old(FleetOf(publishers));
      FleetOf(publishers) == before[entity := AfterFlush(before[entity], now)]
  {
    var publisher := publishers[entity];
    ghost var fleet, batches := FleetOf(publishers), Batches(publishers);
    publisher.Flush(now);
    forall e | e in publishers && e != entity
      ensures IsUntouched(publishers[e], fleet[e], batches[e], publisher.batch.Values)
    {
      assert publishers[e] != publisher;
    }
    OneChanged(publishers, fleet, batches, entity);
  }

  function PartlyFlushed(fleet: Fleet, todo: set<string>, now: string): Fleet {
    map e | e in fleet :: if e in todo then fleet[e] else AfterFlush(fleet[e], now)
  }

  lemma OneFlushMore(fleet: Fleet, todo: set<string>, e: string, now: string)
    requires e in todo && e in fleet
    ensures
      var partly := PartlyFlushed(fleet, todo, now);
      partly[e := AfterFlush(partly[e], now)] == PartlyFlushed(fleet, todo - {e}, now)
  {
  }

  /** Flush every publisher, in no particular order. */
  method FlushAll(publishers: map<string, Publisher>, now: string)
    requires Apart(publishers)
    modifies publishers.Values
    ensures Apart(publishers) && Builders(publishers) <= old(Builders(publishers))
    ensures FleetOf(publishers) == Flushed(old(FleetOf(publishers)), now)
  {
    ghost var before := FleetOf(publishers);
    var todo := publishers.Keys;
    assert before == PartlyFlushed(before, todo, now);
    while todo != {}
      invariant todo <= publishers.Keys && Apart(publishers)
      invariant Builders(publishers) <= old(Builders(publishers))
      invariant FleetOf(publishers) == PartlyFlushed(before, todo, now)
    {
      var e :| e in todo;
      OneFlushMore(before, todo, e, now);
      FlushOne(publishers, e, now);
      todo := todo - {e};
    }
    assert PartlyFlushed(before, {}, now) == Flushed(before, now);
  }

  ghost function PendingNow(publishers: map<string, Publisher>): map<string, nat>
    reads publishers.Values
  {
    map e | e in publishers :: publishers[e].pendingSeries
  }

  lemma PendingNowIsPending(publishers: map<string, Publisher>)
    ensures PendingNow(publishers) == Pending(FleetOf(publishers))
  {
  }

  method PendingSeries(publishers: map<string, Publisher>) returns (sum: nat)
    ensures sum == Total(Pending(FleetOf(publishers)))
  {
    sum := 0;
    ghost var pending, counted := PendingNow(publishers), {};
    assert pending - counted == pending;
    var todo := publishers.Keys;
    while todo != {}
      invariant todo == publishers.Keys - counted
      invariant sum + Total(pending - counted) == Total(pending)
    {
      var e :| e in todo;
      TotalWithout(pending - counted, e);
      assert pending - counted - {e} == pending - (counted + {e});
      sum := sum + publishers[e].pendingSeries;
      todo, counted := todo - {e}, counted + {e};
    }
    assert pending - counted == map[];
    PendingNowIsPending(publishers);
  }

  lemma OneMoreDevice(entities: set<string>, e: string)
    ensures NewFleet(entities)[e := INITIAL] == NewFleet(entities + {e})
  {
  }

  /** Publishers that have done nothing yet. */
  ghost predicate Idle(publishers: map<string, Publisher>)
    reads publishers.Values, Builders(publishers)
  {
    Apart(publishers) && Builders(publishers) == {} && FleetOf(publishers) == NewFleet(publishers.Keys)
  }

  method AddPublisher(publishers: map<string, Publisher>, entity: string) returns (more: map<string, Publisher>)
    requires Idle(publishers) && entity !in publishers
    ensures Idle(more)
    ensures entity in more && fresh(more[entity]) && more == publishers[entity := more[entity]]
  {
    var publisher := new Publisher(entity, false);
    more := publishers[entity := publisher];
    OneMoreDevice(publishers.Keys, entity);
  }

  method NewPublishers(routes: Routes) returns (publishers: map<string, Publisher>)
    ensures Idle(publishers) && publishers.Keys == Entities(routes)
    ensures forall e :: e in publishers ==> fresh(publishers[e])
  {
    publishers := map[];
    var todo := Entities(routes);
    while todo != {}
      invariant todo <= Entities(routes) && publishers.Keys == Entities(routes) - todo
      invariant Idle(publishers)
      invariant forall e :: e in publishers ==> fresh(publishers[e])
    {
      var entity :| entity in todo;
      publishers := AddPublisher(publishers, entity);
      todo := todo - {entity};
    }
  }

  /** Hand a notification to the publisher of its route, if it has one. */
  method Deliver(publishers: map<string, Publisher>, routes: Routes, handle: nat, value: DataValue, now: string)
    requires Apart(publishers)
    modifies publishers.Values, Builders(publishers)
    ensures Apart(publishers) && fresh(Builders(publishers) - old(Builders(publishers)))
    ensures FleetOf(publishers) == Delivered(old(FleetOf(publishers)), routes, handle, value, now)
  {
    if handle in routes && routes[handle].entity in publishers {
      AcceptAt(publishers, routes[handle], value, now);
    }
  }

  method FlushWhenFull(publishers: map<string, Publisher>, flushMaxSeries: nat, now: string)
    requires Apart(publishers)
    modifies publishers.Values
    ensures Apart(publishers) && fresh(Builders(publishers) - old(Builders(publishers)))
    ensures FleetOf(publishers) == FlushedWhenFull(old(FleetOf(publishers)), flushMaxSeries, now)
  {
    var pending := PendingSeries(publishers);
    if pending >= flushMaxSeries {
      FlushAll(publishers, now);
    }
  }

  method OnEvent(publishers: map<string, Publisher>, routes: Routes, flushMaxSeries: nat, event: Event)
    requires Apart(publishers)
    modifies publishers.Values, Builders(publishers)
    ensures Apart(publishers) && fresh(Builders(publishers) - old(Builders(publishers)))
    ensures FleetOf(publishers) == AfterEvent(old(FleetOf(publishers)), routes, flushMaxSeries, event)
  {
    match event {
      case Tick(now) =>
        FlushAll(publishers, now);
      case Change(handle, value, now) =>
        Deliver(publishers, routes, handle, value, now);
        FlushWhenFull(publishers, flushMaxSeries, now);
    }
  }

  /** The loop over the events it saw. It flushes once more when it leaves by itself, at the end of
      its subscription or on cancellation; an abort stops it where it is. */
  method Run(routes: Routes, flushMaxSeries: nat, events: seq<Event>, leaving: Option<string>)
    returns (publishers: map<string, Publisher>)
    ensures Apart(publishers)
    ensures
      var fleet := RunFleet(routes, flushMaxSeries, events);
      FleetOf(publishers) == if leaving.Some? then Flushed(fleet, leaving.value) else fleet
  {
    publishers := NewPublishers(routes);
    for i := 0 to |events|
      invariant Apart(publishers) && fresh(publishers.Values) && fresh(Builders(publishers))
      invariant FleetOf(publishers) == RunFleet(routes, flushMaxSeries, events[..i])
    {
      assert events[..i + 1][..i] == events[..i];
      OnEvent(publishers, routes, flushMaxSeries, events[i]);
    }
    assert events[..|events|] == events;
    if leaving.Some? {
      FlushAll(publishers, leaving.value);
    }
  }

  // ---- over all runs ----

  function DeliveryCalls(routes: Routes, handle: nat, value: DataValue, now: string, entity: string): seq<Call> {
    if handle in routes && routes[handle].entity == entity
    then [Accepting(routes[handle].actions, routes[handle].node, value, now)]
    else []
  }

  /** What an event makes the publisher of one device do. */
  ghost function CallsAt(fleet: Fleet, routes: Routes, flushMaxSeries: nat, event: Event, entity: string): seq<Call> {
    match event
    case Tick(now) => [Flushing(now)]
    case Change(handle, value, now) =>
      var full := Total(Pending(Delivered(fleet, routes, handle, value, now))) >= flushMaxSeries;
      DeliveryCalls(routes, handle, value, now, entity) + if full then [Flushing(now)] else []
  }

  ghost function CallsFor(routes: Routes, flushMaxSeries: nat, events: seq<Event>, entity: string): seq<Call> {
    if events == [] then []
    else
      var n := |events| - 1;
      CallsFor(routes, flushMaxSeries, events[..n], entity)
      + CallsAt(RunFleet(routes, flushMaxSeries, events[..n]), routes, flushMaxSeries, events[n], entity)
  }

  /** A notification for one device, as its publisher sees it. */
  function RoutedTo(routes: Routes, entity: string): Event -> Option<Call> {
    (event: Event) =>
      match event
      case Tick(_) => None
      case Change(handle, value, now) =>
        if handle in routes && routes[handle].entity == entity
        then Some(Accepting(routes[handle].actions, routes[handle].node, value, now)) else None
  }

  function AsAccepting(call: Call): Option<Call> {
    if call.Accepting? then Some(call) else None
  }

  lemma RunOneMore(calls: seq<Call>, call: Call)
    ensures PublishRuns.Run(false, calls + [call]) == AfterCall(PublishRuns.Run(false, calls), false, call)
  {
    assert (calls + [call])[..|calls|] == calls;
  }

  lemma RunAfterEvent(fleet: Fleet, routes: Routes, flushMaxSeries: nat, event: Event, entity: string, calls: seq<Call>)
    requires fleet.Keys == Entities(routes) && entity in fleet && fleet[entity] == PublishRuns.Run(false, calls)
    ensures
      var after := AfterEvent(fleet, routes, flushMaxSeries, event);
      && after.Keys == fleet.Keys
      && after[entity] == PublishRuns.Run(false, calls + CallsAt(fleet, routes, flushMaxSeries, event, entity))
  {
    if event.Tick? {
      RunOneMore(calls, Flushing(event.now));
    } else {
      var delivery := DeliveryCalls(routes, event.handle, event.value, event.now, entity);
      RunAfterDelivery(fleet, routes, event.handle, event.value, event.now, entity, calls);
      RunOneMore(calls + delivery, Flushing(event.now));
      assert calls + delivery + [Flushing(event.now)] == calls + (delivery + [Flushing(event.now)]);
      assert delivery + [] == delivery;
    }
  }

  lemma RunAfterDelivery(fleet: Fleet, routes: Routes, handle: nat, value: DataValue, now: string, entity: string,
                         calls: seq<Call>)
    requires fleet.Keys == Entities(routes) && entity in fleet && fleet[entity] == PublishRuns.Run(false, calls)
    ensures
      var delivered := Delivered(fleet, routes, handle, value, now);
      && delivered.Keys == fleet.Keys
      && delivered[entity] == PublishRuns.Run(false, calls + DeliveryCalls(routes, handle, value, now, entity))
  {
    var delivery := DeliveryCalls(routes, handle, value, now, entity);
    if delivery != [] {
      RunOneMore(calls, delivery[0]);
    } else {
      assert calls + delivery == calls;
    }
  }

  /** The loop is one independent publisher run per device. */
  lemma {:induction false} EveryDeviceRunsAlone(routes: Routes, flushMaxSeries: nat, events: seq<Event>, entity: string)
    requires entity in Entities(routes)
    ensures RunFleet(routes, flushMaxSeries, events).Keys == Entities(routes)
    ensures RunFleet(routes, flushMaxSeries, events)[entity] ==
      PublishRuns.Run(false, CallsFor(routes, flushMaxSeries, events, entity))
  {
    if events != [] {
      var n := |events| - 1;
      EveryDeviceRunsAlone(routes, flushMaxSeries, events[..n], entity);
      RunAfterEvent(RunFleet(routes, flushMaxSeries, events[..n]), routes, flushMaxSeries, events[n], entity,
                    CallsFor(routes, flushMaxSeries, events[..n], entity));
    }
  }

  lemma AcceptedAt(fleet: Fleet, routes: Routes, flushMaxSeries: nat, event: Event, entity: string)
    ensures
      var routed := RoutedTo(routes, entity)(event);
      Pick(CallsAt(fleet, routes, flushMaxSeries, event, entity), AsAccepting) ==
        if routed.Some? then [routed.value] else []
  {
    PickSingle(Flushing(event.now), AsAccepting);
    if event.Change? {
      var delivery := DeliveryCalls(routes, event.handle, event.value, event.now, entity);
      if delivery != [] {
        PickSingle(delivery[0], AsAccepting);
      }
      PickOne(delivery, Flushing(event.now), AsAccepting);
      assert delivery + [] == delivery;
    }
  }

  /** Every notification with a route reaches the publisher of its device, in order, and no other. */
  lemma {:induction false} NotificationsReachTheirDevice(routes: Routes, flushMaxSeries: nat, events: seq<Event>,
                                                         entity: string)
    ensures Pick(CallsFor(routes, flushMaxSeries, events, entity), AsAccepting) ==
      Pick(events, RoutedTo(routes, entity))
  {
    if events != [] {
      var n := |events| - 1;
      NotificationsReachTheirDevice(routes, flushMaxSeries, events[..n], entity);
      var fleet := RunFleet(routes, flushMaxSeries, events[..n]);
      PickAppend(CallsFor(routes, flushMaxSeries, events[..n], entity),
                 CallsAt(fleet, routes, flushMaxSeries, events[n], entity), AsAccepting);
      AcceptedAt(fleet, routes, flushMaxSeries, events[n], entity);
    }
  }

  lemma NothingPendingAfterFlush(fleet: Fleet, now: string)
    ensures Total(Pending(Flushed(fleet, now))) == 0
  {
    TotalOfZeros(Pending(Flushed(fleet, now)));
  }

  /** Between events, nothing is pending or less than a full batch is. */
  lemma PendingStaysBounded(routes: Routes, flushMaxSeries: nat, events: seq<Event>)
    ensures
      var pending := Total(Pending(RunFleet(routes, flushMaxSeries, events)));
      pending == 0 || pending < flushMaxSeries
  {
    if events == [] {
      TotalOfZeros(Pending(NewFleet(Entities(routes))));
    } else {
      var n := |events| - 1;
      var before := RunFleet(routes, flushMaxSeries, events[..n]);
      match events[n]
      case Tick(now) =>
        NothingPendingAfterFlush(before, now);
      case Change(handle, value, now) =>
        NothingPendingAfterFlush(Delivered(before, routes, handle, value, now), now);
    }
  }

  /** After every flush tick nothing is left unsent either. */
  lemma TickSendsEverySample(routes: Routes, flushMaxSeries: nat, events: seq<Event>, now: string, entity: string,
                             kind: string)
    requires entity in Entities(routes)
    ensures entity in RunFleet(routes, flushMaxSeries, events + [Tick(now)])
    ensures
      var s := RunFleet(routes, flushMaxSeries, events + [Tick(now)])[entity];
      var steps := StepsOf(CallsFor(routes, flushMaxSeries, events, entity)) + [Flush(now)];
      && s.pending == 0 && s.batch == map[]
      && Pick(s.sent, MeasurementMade(kind)) == Bodies(ClosedWindows(steps, kind))
      && Concat(ClosedWindows(steps, kind)) == Pick(steps, SampledAs(kind))
  {
    assert (events + [Tick(now)])[..|events|] == events;
    LeavingSendsEverySample(routes, flushMaxSeries, events, now, entity, kind);
    EveryDeviceRunsAlone(routes, flushMaxSeries, events, entity);
  }

  /** When the loop leaves by itself, every sample a device accepted has been sent, in the message of
      its window. */
  lemma LeavingSendsEverySample(routes: Routes, flushMaxSeries: nat, events: seq<Event>, now: string, entity: string,
                                kind: string)
    requires entity in Entities(routes)
    ensures entity in RunFleet(routes, flushMaxSeries, events)
    ensures
      var s := Flushed(RunFleet(routes, flushMaxSeries, events), now)[entity];
      var steps := StepsOf(CallsFor(routes, flushMaxSeries, events, entity)) + [Flush(now)];
      && s.pending == 0 && s.batch == map[]
      && Pick(s.sent, MeasurementMade(kind)) == Bodies(ClosedWindows(steps, kind))
      && Concat(ClosedWindows(steps, kind)) == Pick(steps, SampledAs(kind))
  {
    EveryDeviceRunsAlone(routes, flushMaxSeries, events, entity);
    var calls := CallsFor(routes, flushMaxSeries, events, entity);
    RunOneMore(calls, Flushing(now));
    StepsOneMore(calls, Flushing(now));
    MeasurementsAreWindows(false, calls + [Flushing(now)], kind);
  }
}
