/** How the entries of a device type are delivered, in the terms in which they were authored
    (crates/mapping/src/resolve.rs, crates/mapping/src/model.rs). */
module Deliveries {
  import opened Text
  import opened Model
  import opened Namespace
  import opened Resolve
  import opened ResolveAll

  // ---- one subscription type ----

  /** The positive rate authored, or else five seconds. */
  predicate ReadsEvery(rateMs: nat, t: SubscriptionType) {
    if t.cyclicRead.Some? && t.cyclicRead.value.rate.Some? && t.cyclicRead.value.rate.value > 0
    then t.cyclicRead.value.rate == Some(rateMs)
    else rateMs == 5000
  }

  /** The age authored, or else none at all. */
  predicate ReadsWithin(maxAge: Float, t: SubscriptionType) {
    if t.cyclicRead.Some? && t.cyclicRead.value.maxAge.Some? then t.cyclicRead.value.maxAge == Some(maxAge)
    else maxAge == Finite(0.0)
  }

  /** The parameters authored, or else none, unless they would be refused. */
  predicate SubscribesWith(p: SubscriptionParameters, t: SubscriptionType) {
    && !HasBadDeadband(p) && !HasBadTrigger(p) && !HasBadRanges(p)
    && if t.parameters.Some? then t.parameters == Some(p)
       else p == SubscriptionParameters(None, None, None, None, None, None, None)
  }

  /** What an authored subscription type asks for. */
  predicate Asks(t: Option<SubscriptionType>, d: Delivery) {
    t.Some? &&
    match d
    case CyclicRead(rateMs, maxAge) =>
      IsAuthored(t.value, "CyclicRead") && ReadsEvery(rateMs, t.value) && ReadsWithin(maxAge, t.value)
    case Subscription(p) => IsAuthored(t.value, "Subscription") && SubscribesWith(p, t.value)
  }

  lemma DeliveryIsAsked(t: Option<SubscriptionType>, d: Delivery)
    ensures DeliveryOf(t) == Some(d) <==> Asks(t, d)
  {
    if t.Some? {
      KindIsAuthored(t.value);
      InvalidFor(t.value.parameters.GetOr(NO_PARAMETERS));
      assert !(IsAuthored(t.value, "CyclicRead") && IsAuthored(t.value, "Subscription")) by {
        assert |LowerAll("CyclicRead")| != |LowerAll("Subscription")|;
      }
    }
  }

  /** Whole milliseconds: nothing below zero, and nothing above what 64 bits hold. */
  predicate IsMaxAge(ms: nat, maxAge: Float) {
    match maxAge
    case NotANumber => ms == 0
    case Infinite(positive) => ms == if positive then 0xFFFF_FFFF_FFFF_FFFF else 0
    case Finite(r) =>
      if r < 0.0 then ms == 0
      else if r >= 0xFFFF_FFFF_FFFF_FFFF as real then ms == 0xFFFF_FFFF_FFFF_FFFF
      else ms as real <= r < ms as real + 1.0
  }

  lemma MaxAgeIsRounded(maxAge: Float, ms: nat)
    ensures MaxAgeMs(maxAge) == ms <==> IsMaxAge(ms, maxAge)
  {
  }

  // ---- which one decides ----

  predicate IsFor(table: NamespaceTable, o: OverriddenSubscription, path: seq<string>) {
    o.browsePath != [] && SameNames(table, o.browsePath, path)
  }

  /** No earlier override is for this path. */
  predicate IsFirstFor(table: NamespaceTable, overrides: seq<OverriddenSubscription>, i: nat, path: seq<string>)
    requires i < |overrides|
  {
    IsFor(table, overrides[i], path) && forall j :: 0 <= j < i ==> !IsFor(table, overrides[j], path)
  }

  /** The type authored in the first override for this path, or else the device type's own. */
  predicate Decides(table: NamespaceTable, overrides: seq<OverriddenSubscription>, own: Option<SubscriptionType>,
                    path: seq<string>, t: Option<SubscriptionType>) {
    || (exists i :: 0 <= i < |overrides| && IsFirstFor(table, overrides, i, path) && overrides[i].subscriptionType == t)
    || ((forall i :: 0 <= i < |overrides| ==> !IsFor(table, overrides[i], path)) && own == t)
  }

  lemma {:induction false} DecidingType(table: NamespaceTable, overrides: seq<OverriddenSubscription>,
                                        own: Option<SubscriptionType>, path: seq<string>, t: Option<SubscriptionType>)
    requires Decides(table, overrides, own, path, t)
    ensures DeliveryFor(OverridesOf(table, overrides), DeliveryOf(own), QualifiedNamesOf(table, path)) == DeliveryOf(t)
  {
    if overrides != [] {
      if IsFor(table, overrides[0], path) {
        assert forall i :: 0 < i < |overrides| ==> !IsFirstFor(table, overrides, i, path);
      } else {
        DecidesBehind(table, overrides, own, path, t);
        DecidingType(table, overrides[1..], own, path, t);
      }
      OverridesFront(table, overrides, DeliveryOf(own), path);
    }
  }

  lemma OverridesFront(table: NamespaceTable, overrides: seq<OverriddenSubscription>, default: Option<Delivery>,
                       path: seq<string>)
    requires overrides != []
    ensures
      var names := QualifiedNamesOf(table, path);
      DeliveryFor(OverridesOf(table, overrides), default, names) ==
        if IsFor(table, overrides[0], path) then DeliveryOf(overrides[0].subscriptionType)
        else DeliveryFor(OverridesOf(table, overrides[1..]), default, names)
  {
    var o, rest := overrides[0], OverridesOf(table, overrides[1..]);
    var own := (QualifiedNamesOf(table, o.browsePath), DeliveryOf(o.subscriptionType));
    assert ([own] + rest)[1..] == rest && ([own] + rest)[0] == own;
    assert [] + rest == rest;
  }

  lemma DecidesBehind(table: NamespaceTable, overrides: seq<OverriddenSubscription>, own: Option<SubscriptionType>,
                      path: seq<string>, t: Option<SubscriptionType>)
    requires Decides(table, overrides, own, path, t) && overrides != [] && !IsFor(table, overrides[0], path)
    ensures Decides(table, overrides[1..], own, path, t)
  {
    var rest := overrides[1..];
    if i :| 0 <= i < |overrides| && IsFirstFor(table, overrides, i, path) && overrides[i].subscriptionType == t {
      assert rest[i - 1] == overrides[i];
      assert IsFirstFor(table, rest, i - 1, path);
    } else {
      assert forall i :: 0 <= i < |rest| ==> rest[i] == overrides[i + 1];
    }
  }

  // ---- one entry ----

  /** The authored subscription type that decides for an entry. */
  predicate DecidesFor(table: NamespaceTable, dt: DeviceType, m: MappingEntry, t: Option<SubscriptionType>) {
    Decides(table, dt.overrides, dt.subscriptionType, m.browsePath, t)
  }

  function PlanOf(table: NamespaceTable, codec: Codec, dt: DeviceType, m: MappingEntry): Option<Entry> {
    PlanEntry(table, codec, OverridesOf(table, dt.overrides), DeliveryOf(dt.subscriptionType), m)
  }

  /** An entry that asks for something at a place that can be found is delivered as the deciding type asks,
      and dropped when that asks for nothing that can be had. */
  lemma EntryAsAuthored(table: NamespaceTable, codec: Codec, dt: DeviceType, m: MappingEntry,
                        t: Option<SubscriptionType>, d: Delivery)
    requires DecidesFor(table, dt, m, t)
    ensures PlanOf(table, codec, dt, m).Some? && PlanOf(table, codec, dt, m).value.delivery == d <==>
      AsksForSomething(m) && !UsesRegex(m.browsePath) && IsLocated(table, codec, m) && Asks(t, d)
  {
    DecidingType(table, dt.overrides, dt.subscriptionType, m.browsePath, t);
    DeliveryIsAsked(t, d);
    var overrides, default := OverridesOf(table, dt.overrides), DeliveryOf(dt.subscriptionType);
    PlannedExactlyWhen(table, codec, overrides, default, m);
    DeliveredExactlyWhen(overrides, default, QualifiedNamesOf(table, m.browsePath));
  }

  // ---- in a finished mapping ----

  /** The node of an entry: the one it names, or else the one the server has for its path. */
  predicate IsAt(space: AddressSpace, session: Session, dt: DeviceType, m: MappingEntry, id: NodeId) {
    if m.referencedNodeId.GetOr("") != ""
    then NodeIdOf(session.table, session.codec, m.referencedNodeId.value) == Ok(id)
    else
      && m.browsePath != [] && RootOf(session.table, session.codec, dt).Ok?
      && var root := RootOf(session.table, session.codec, dt).value;
         space(root, QualifiedNamesOf(session.table, m.browsePath)) == Some(id)
  }

  /** This entry is delivered from this node in this way, as authored. */
  predicate IsServed(space: AddressSpace, session: Session, dt: DeviceType, m: MappingEntry,
                     t: Option<SubscriptionType>, id: NodeId, d: Delivery) {
    && AsksForSomething(m) && !UsesRegex(m.browsePath) && IsAt(space, session, dt, m, id)
    && DecidesFor(session.table, dt, m, t) && Asks(t, d)
  }

  function Found(space: AddressSpace, session: Session, dt: DeviceType): seq<ResolvedEntry>
    requires RootOf(session.table, session.codec, dt).Ok?
  {
    var root := RootOf(session.table, session.codec, dt).value;
    ResolveEach((p: BrowsePath) => space(root, p), EntriesOf(session.table, session.codec, dt))
  }

  lemma {:induction false} ResolvedFrom(server: BrowsePath -> Option<NodeId>, entries: seq<Entry>, x: ResolvedEntry)
    ensures x in ResolveEach(server, entries) <==> exists e :: e in entries && ResolveOne(server, e) == Some(x)
  {
    if entries != [] {
      ResolvedFrom(server, entries[1..], x);
      assert entries == [entries[0]] + entries[1..];
    }
  }

  /** An entry served as authored is found where it is, with its actions. */
  lemma ServedIsFound(space: AddressSpace, session: Session, dt: DeviceType, m: MappingEntry,
                      t: Option<SubscriptionType>, id: NodeId, d: Delivery)
    requires RootOf(session.table, session.codec, dt).Ok?
    requires m in dt.mappings && IsServed(space, session, dt, m, t, id, d)
    ensures ResolvedEntry(id, ActionsOf(m), d) in Found(space, session, dt)
  {
    EntryAsAuthored(session.table, session.codec, dt, m, t, d);
    var e := PlanOf(session.table, session.codec, dt, m).value;
    PlannedFrom(session.table, session.codec, OverridesOf(session.table, dt.overrides),
                DeliveryOf(dt.subscriptionType), dt.mappings, e);
    var root := RootOf(session.table, session.codec, dt).value;
    var server := (p: BrowsePath) => space(root, p);
    assert ResolveOne(server, e) == Some(ResolvedEntry(id, ActionsOf(m), d));
    ResolvedFrom(server, EntriesOf(session.table, session.codec, dt), ResolvedEntry(id, ActionsOf(m), d));
  }

  lemma {:induction false} SomeTypeDecides(table: NamespaceTable, overrides: seq<OverriddenSubscription>,
                                           own: Option<SubscriptionType>, path: seq<string>)
    returns (t: Option<SubscriptionType>)
    ensures Decides(table, overrides, own, path, t)
  {
    if overrides == [] {
      t := own;
    } else if IsFor(table, overrides[0], path) {
      t := overrides[0].subscriptionType;
      assert IsFirstFor(table, overrides, 0, path);
    } else {
      var rest := overrides[1..];
      t := SomeTypeDecides(table, rest, own, path);
      assert forall i :: 0 <= i < |rest| ==> rest[i] == overrides[i + 1];
      if i :| 0 <= i < |rest| && IsFirstFor(table, rest, i, path) && rest[i].subscriptionType == t {
        assert IsFirstFor(table, overrides, i + 1, path);
      } else {
        assert forall i :: 0 < i < |overrides| ==> overrides[i] == rest[i - 1];
      }
    }
  }

  lemma FoundIsPlanned(space: AddressSpace, session: Session, dt: DeviceType, x: ResolvedEntry)
    returns (m: MappingEntry, e: Entry)
    requires RootOf(session.table, session.codec, dt).Ok? && x in Found(space, session, dt)
    ensures m in dt.mappings && PlanOf(session.table, session.codec, dt, m) == Some(e)
    ensures
      var root := RootOf(session.table, session.codec, dt).value;
      ResolveOne((p: BrowsePath) => space(root, p), e) == Some(x)
  {
    var root := RootOf(session.table, session.codec, dt).value;
    var server := (p: BrowsePath) => space(root, p);
    ResolvedFrom(server, EntriesOf(session.table, session.codec, dt), x);
    e :| e in EntriesOf(session.table, session.codec, dt) && ResolveOne(server, e) == Some(x);
    var overrides, default := OverridesOf(session.table, dt.overrides), DeliveryOf(dt.subscriptionType);
    PlannedFrom(session.table, session.codec, overrides, default, dt.mappings, e);
    m :| m in dt.mappings && PlanEntry(session.table, session.codec, overrides, default, m) == Some(e);
  }

  /** And nothing is found but for such an entry. */
  lemma FoundIsServed(space: AddressSpace, session: Session, dt: DeviceType, x: ResolvedEntry)
    returns (m: MappingEntry, t: Option<SubscriptionType>)
    requires RootOf(session.table, session.codec, dt).Ok? && x in Found(space, session, dt)
    ensures m in dt.mappings && IsServed(space, session, dt, m, t, x.nodeId, x.delivery)
    ensures x.actions == ActionsOf(m)
  {
    var e;
    m, e := FoundIsPlanned(space, session, dt, x);
    t := SomeTypeDecides(session.table, dt.overrides, dt.subscriptionType, m.browsePath);
    EntryAsAuthored(session.table, session.codec, dt, m, t, e.delivery);
  }

  /** A node that is delivered so, in the group that says so. */
  ghost predicate IsDelivered(nodes: seq<ResolvedNode>, node: ResolvedNode, d: Delivery) {
    match d
    case CyclicRead(rateMs, maxAge) =>
      && node.delivery.CyclicRead? && node.delivery.rateMs == rateMs
      && forall ms | IsMaxAge(ms, maxAge) ::
           node in WithSchedule(nodes, Some(ReadSchedule(rateMs, ms))) && IsMaxAge(ms, node.delivery.maxAge)
    case Subscription(_) => node.delivery.Subscription? && node in WithSchedule(nodes, None)
  }

  lemma InItsGroup(nodes: seq<ResolvedNode>, node: ResolvedNode, schedule: Option<ReadSchedule>)
    ensures node in WithSchedule(nodes, schedule) <==> node in nodes && ScheduleOf(node.delivery) == schedule
  {
    WithScheduleMembers(nodes, schedule, node);
    assert node in WithSchedule(nodes, schedule) <==> node in multiset(WithSchedule(nodes, schedule));
    assert node in nodes <==> node in multiset(nodes);
  }

  lemma SameScheduleDelivers(nodes: seq<ResolvedNode>, node: ResolvedNode, d: Delivery)
    requires node in nodes && ScheduleOf(node.delivery) == ScheduleOf(d)
    ensures IsDelivered(nodes, node, d)
  {
    InItsGroup(nodes, node, ScheduleOf(d));
    if d.CyclicRead? {
      forall ms | IsMaxAge(ms, d.maxAge)
        ensures ScheduleOf(d) == Some(ReadSchedule(d.rateMs, ms)) && IsMaxAge(ms, node.delivery.maxAge)
      {
        MaxAgeIsRounded(d.maxAge, ms);
        MaxAgeIsRounded(node.delivery.maxAge, ms);
      }
    }
  }

  /** The nodes of a finished mapping; none without one. */
  function NodesOf(space: AddressSpace, session: Session, loaded: LoadedDeviceType): seq<ResolvedNode> {
    match MappingOf(space, session, loaded)
    case Some(mapping) => mapping.nodes
    case None => []
  }

  /** In a finished mapping every entry is served as it was authored: read in the group of its rate and age
      or subscribed, from the node it is at, with all it asks for. */
  lemma ServedAsAuthored(space: AddressSpace, session: Session, loaded: LoadedDeviceType, m: MappingEntry,
                         t: Option<SubscriptionType>, id: NodeId, d: Delivery)
    returns (node: ResolvedNode)
    requires Selected(session, loaded) && m in loaded.deviceType.mappings
    requires IsServed(space, session, loaded.deviceType, m, t, id, d)
    ensures node.nodeId == id && IsDelivered(NodesOf(space, session, loaded), node, d)
    ensures forall a :: IsAskedFor(m, a) ==> a in node.actions
  {
    node := ServingNode(space, session, loaded, m, t, id, d);
    SameScheduleDelivers(NodesOf(space, session, loaded), node, d);
  }

  lemma ServingNode(space: AddressSpace, session: Session, loaded: LoadedDeviceType, m: MappingEntry,
                    t: Option<SubscriptionType>, id: NodeId, d: Delivery)
    returns (node: ResolvedNode)
    requires Selected(session, loaded) && m in loaded.deviceType.mappings
    requires IsServed(space, session, loaded.deviceType, m, t, id, d)
    ensures node in NodesOf(space, session, loaded) && node.nodeId == id
    ensures ScheduleOf(node.delivery) == ScheduleOf(d)
    ensures forall a :: IsAskedFor(m, a) ==> a in node.actions
  {
    ServedIsFound(space, session, loaded.deviceType, m, t, id, d);
    node := GroupHolds(Found(space, session, loaded.deviceType), ResolvedEntry(id, ActionsOf(m), d));
    MappingIsGrouped(space, session, loaded);
    forall a | IsAskedFor(m, a) ensures a in node.actions {
      AskedIsTaken(m, a);
    }
  }

  lemma MappingIsGrouped(space: AddressSpace, session: Session, loaded: LoadedDeviceType)
    requires Selected(session, loaded)
    ensures NodesOf(space, session, loaded) == Grouped(Found(space, session, loaded.deviceType))
  {
  }

  /** An entry found is in the node of its key, with its actions. */
  lemma GroupHolds(found: seq<ResolvedEntry>, x: ResolvedEntry) returns (node: ResolvedNode)
    requires x in found
    ensures node in Grouped(found) && node.nodeId == x.nodeId && ScheduleOf(node.delivery) == ScheduleOf(x.delivery)
    ensures forall a :: a in x.actions ==> a in node.actions
  {
    var i :| 0 <= i < |found| && found[i] == x;
    ActionsKeepEntryOrder(found, i);
    var nodes := Grouped(found);
    var j :| 0 <= j < |nodes| && NodeKey(nodes[j]) == KeyOf(x)
      && ActionsFor(found[..i], KeyOf(x)) + x.actions <= nodes[j].actions;
    node := nodes[j];
    BlockIsThere(ActionsFor(found[..i], KeyOf(x)), x.actions, node.actions);
  }

  lemma BlockIsThere(before: seq<Action>, actions: seq<Action>, all: seq<Action>)
    requires before + actions <= all
    ensures forall a :: a in actions ==> a in all
  {
    forall a | a in actions ensures a in all {
      var k :| 0 <= k < |actions| && actions[k] == a;
      assert all[|before| + k] == (before + actions)[|before| + k] == a;
    }
  }

  /** And no node is there but for an entry that asks for it in just this way: what is read was authored to
      be read, at this rate and age, and what is subscribed to be subscribed, with these parameters. */
  lemma NodesAreAuthored(space: AddressSpace, session: Session, loaded: LoadedDeviceType, node: ResolvedNode)
    returns (m: MappingEntry, t: Option<SubscriptionType>)
    requires node in NodesOf(space, session, loaded)
    ensures m in loaded.deviceType.mappings
    ensures IsServed(space, session, loaded.deviceType, m, t, node.nodeId, node.delivery)
  {
    var found := Found(space, session, loaded.deviceType);
    MappingIsGrouped(space, session, loaded);
    var nodes := Grouped(found);
    var j :| 0 <= j < |nodes| && nodes[j] == node;
    var i := FirstDelivers(found, FirstKeys(found)[j]);
    m, t := FoundIsServed(space, session, loaded.deviceType, found[i]);
  }

  lemma {:induction false} FirstDelivers(es: seq<ResolvedEntry>, key: Key) returns (i: nat)
    requires key in FirstKeys(es)
    ensures i < |es| && KeyOf(es[i]) == key && es[i].delivery == FirstDelivery(es, key)
    ensures forall k :: 0 <= k < i ==> KeyOf(es[k]) != key
  {
    var n := |es| - 1;
    if key in FirstKeys(es[..n]) {
      i := FirstDelivers(es[..n], key);
    } else {
      i := n;
    }
  }

  /** What a group is for: the read groups hold what is read at their rate and age, and only the nodes that
      are subscribed are in none. */
  lemma GroupsAreAuthored(nodes: seq<ResolvedNode>, node: ResolvedNode, rateMs: nat, maxAgeMs: nat)
    ensures node in WithSchedule(nodes, Some(ReadSchedule(rateMs, maxAgeMs))) <==>
      node in nodes && node.delivery.CyclicRead? && node.delivery.rateMs == rateMs
      && IsMaxAge(maxAgeMs, node.delivery.maxAge)
    ensures node in WithSchedule(nodes, None) <==> node in nodes && node.delivery.Subscription?
  {
    InItsGroup(nodes, node, Some(ReadSchedule(rateMs, maxAgeMs)));
    InItsGroup(nodes, node, None);
    if node.delivery.CyclicRead? {
      MaxAgeIsRounded(node.delivery.maxAge, maxAgeMs);
    }
  }
}
