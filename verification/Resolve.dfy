/** From a device type to resolved nodes: plan, translate in one batch, write back, group
    (crates/mapping/src/resolve.rs, crates/opcua-conn/src/lib.rs). */
module Resolve {
  import opened Text
  import opened Model
  import opened Namespace

  datatype Action =
    | Measurement(measurement: MeasurementCreation)
    | Event(event: EventCreation)
    | Alarm(alarm: AlarmCreation)

  datatype Delivery =
    | Subscription(parameters: SubscriptionParameters)
    | CyclicRead(rateMs: nat, maxAge: Float)

  datatype ReadSchedule = ReadSchedule(rateMs: nat, maxAgeMs: nat)

  datatype ResolvedNode = ResolvedNode(nodeId: NodeId, actions: seq<Action>, delivery: Delivery)

  datatype ResolvedMapping = ResolvedMapping(
    deviceTypeId: string, deviceTypeName: string, rootNodeId: NodeId, nodes: seq<ResolvedNode>)

  type BrowsePath = seq<QualifiedName>

  datatype NodeRef = Known(nodeId: NodeId) | Path(path: BrowsePath)

  datatype Entry = Entry(name: string, actions: seq<Action>, nodeRef: NodeRef, delivery: Delivery)

  const DEFAULT_READ_RATE_MS: nat := 5_000
  const ROOT_FOLDER := NodeId(0, Numeric(84))

  /** `maxAge` in whole milliseconds: negative and not-a-number become 0, too large saturates. */
  function MaxAgeMs(maxAge: Float): nat {
    match maxAge
    case NotANumber => 0
    case Infinite(positive) => if positive then U64_MAX else 0
    case Finite(r) =>
      if r <= 0.0 then 0 else if r >= U64_MAX as real then U64_MAX else r.Floor
  }

  function ScheduleOf(delivery: Delivery): Option<ReadSchedule> {
    match delivery
    case CyclicRead(rateMs, maxAge) => Some(ReadSchedule(rateMs, MaxAgeMs(maxAge)))
    case Subscription(_) => None
  }

  // ---- plan ----

  function ActionsOf(entry: MappingEntry): seq<Action> {
    (if entry.measurement.Some? && MeasurementType(entry.measurement.value).Some?
     then [Measurement(entry.measurement.value)] else [])
    + (if entry.event.Some? && NonBlank(entry.event.value.kind).Some? then [Event(entry.event.value)] else [])
    + (if entry.alarm.Some? && NonBlank(entry.alarm.value.kind).Some? then [Alarm(entry.alarm.value)] else [])
  }

  function DeliveryOf(subscriptionType: Option<SubscriptionType>): Option<Delivery> {
    if subscriptionType.None? then None
    else
      match KindOf(subscriptionType.value)
      case Subscribed =>
        var parameters := subscriptionType.value.parameters.GetOr(NO_PARAMETERS);
        if AreValid(parameters) then Some(Subscription(parameters)) else None
      case CyclicallyRead =>
        (match subscriptionType.value.cyclicRead
         case None => Some(CyclicRead(DEFAULT_READ_RATE_MS, Finite(0.0)))
         case Some(p) =>
           Some(CyclicRead(if p.rate.Some? && p.rate.value > 0 then p.rate.value else DEFAULT_READ_RATE_MS,
                           p.maxAge.GetOr(Finite(0.0)))))
      case Nothing => None
  }

  type Overrides = seq<(BrowsePath, Option<Delivery>)>

  function OverridesOf(table: NamespaceTable, overrides: seq<OverriddenSubscription>): Overrides {
    if overrides == [] then []
    else
      var o := overrides[0];
      (if o.browsePath == [] then []
       else [(QualifiedNamesOf(table, o.browsePath), DeliveryOf(o.subscriptionType))])
      + OverridesOf(table, overrides[1..])
  }

  /** The first override of this very path decides, even when it names no usable delivery. */
  function DeliveryFor(overrides: Overrides, default: Option<Delivery>, path: BrowsePath): Option<Delivery> {
    if overrides == [] then default
    else if overrides[0].0 == path then overrides[0].1
    else DeliveryFor(overrides[1..], default, path)
  }

  lemma {:induction false} FirstOverrideDecides(overrides: Overrides, default: Option<Delivery>, path: BrowsePath)
    ensures (forall i :: 0 <= i < |overrides| ==> overrides[i].0 != path)
      ==> DeliveryFor(overrides, default, path) == default
    ensures forall i |
        0 <= i < |overrides| && overrides[i].0 == path && (forall j :: 0 <= j < i ==> overrides[j].0 != path) ::
      DeliveryFor(overrides, default, path) == overrides[i].1
  {
    if overrides != [] && overrides[0].0 != path {
      FirstOverrideDecides(overrides[1..], default, path);
      forall i | 0 <= i < |overrides| && overrides[i].0 == path && (forall j :: 0 <= j < i ==> overrides[j].0 != path)
        ensures DeliveryFor(overrides, default, path) == overrides[i].1
      {
        assert forall j :: 0 <= j < i - 1 ==> overrides[1..][j].0 == overrides[j + 1].0;
        assert overrides[1..][i - 1] == overrides[i];
      }
    }
  }

  predicate UsesRegex(path: seq<string>) {
    exists i :: 0 <= i < |path| && IsRegex(path[i])
  }

  function NodeRefOf(table: NamespaceTable, codec: Codec, entry: MappingEntry): Option<NodeRef> {
    if entry.referencedNodeId.Some? && entry.referencedNodeId.value != [] then
      match NodeIdOf(table, codec, entry.referencedNodeId.value)
      case Ok(id) => Some(Known(id))
      case Err(_) => None
    else if entry.browsePath == [] then None
    else Some(Path(QualifiedNamesOf(table, entry.browsePath)))
  }

  /** The plan of one mapping entry on its own; nothing when the gateway cannot support it. */
  function PlanEntry(table: NamespaceTable, codec: Codec, overrides: Overrides, default: Option<Delivery>,
                     entry: MappingEntry): Option<Entry> {
    var actions := ActionsOf(entry);
    if actions == [] || UsesRegex(entry.browsePath) then None
    else
      var nodeRef := NodeRefOf(table, codec, entry);
      var delivery := DeliveryFor(overrides, default, QualifiedNamesOf(table, entry.browsePath));
      if nodeRef.None? || delivery.None? then None
      else Some(Entry(entry.name.GetOr("<unnamed>"), actions, nodeRef.value, delivery.value))
  }

  /** The entry has a measurement, an event or an alarm with a type. */
  predicate AsksForSomething(entry: MappingEntry) {
    || (entry.measurement.Some? && MeasurementType(entry.measurement.value).Some?)
    || (entry.event.Some? && NonBlank(entry.event.value.kind).Some?)
    || (entry.alarm.Some? && NonBlank(entry.alarm.value.kind).Some?)
  }

  /** The entry names a readable node, or no node but a path. */
  predicate IsLocated(table: NamespaceTable, codec: Codec, entry: MappingEntry) {
    if entry.referencedNodeId.GetOr("") != "" then NodeIdOf(table, codec, entry.referencedNodeId.value).Ok?
    else entry.browsePath != []
  }

  /** The first override of this path names a usable delivery, or there is none and the default does. */
  predicate IsDelivered(overrides: Overrides, default: Option<Delivery>, path: BrowsePath) {
    || (exists i :: 0 <= i < |overrides| && IsFirstOverride(overrides, i, path) && overrides[i].1.Some?)
    || (default.Some? && forall i :: 0 <= i < |overrides| ==> overrides[i].0 != path)
  }

  predicate IsFirstOverride(overrides: Overrides, i: nat, path: BrowsePath)
    requires i < |overrides|
  {
    overrides[i].0 == path && forall j :: 0 <= j < i ==> overrides[j].0 != path
  }

  predicate IsPlannable(table: NamespaceTable, codec: Codec, overrides: Overrides, default: Option<Delivery>,
                        entry: MappingEntry) {
    && AsksForSomething(entry) && !UsesRegex(entry.browsePath) && IsLocated(table, codec, entry)
    && IsDelivered(overrides, default, QualifiedNamesOf(table, entry.browsePath))
  }

  lemma {:induction false} DeliveredExactlyWhen(overrides: Overrides, default: Option<Delivery>, path: BrowsePath)
    ensures DeliveryFor(overrides, default, path).Some? <==> IsDelivered(overrides, default, path)
  {
    if overrides != [] {
      if overrides[0].0 == path {
        assert IsFirstOverride(overrides, 0, path);
        assert forall i :: 0 < i < |overrides| ==> !IsFirstOverride(overrides, i, path);
      } else {
        DeliveredExactlyWhen(overrides[1..], default, path);
        assert forall i :: 0 < i < |overrides| ==> overrides[1..][i - 1] == overrides[i];
        assert forall i :: 0 < i < |overrides| ==>
          (IsFirstOverride(overrides[1..], i - 1, path) <==> IsFirstOverride(overrides, i, path));
      }
    }
  }

  /** An entry is planned exactly when it asks for something, uses no regex, is located and delivered. */
  lemma PlannedExactlyWhen(table: NamespaceTable, codec: Codec, overrides: Overrides, default: Option<Delivery>,
                           entry: MappingEntry)
    ensures PlanEntry(table, codec, overrides, default, entry).Some?
      <==> IsPlannable(table, codec, overrides, default, entry)
  {
    DeliveredExactlyWhen(overrides, default, QualifiedNamesOf(table, entry.browsePath));
  }

  /** The first override of this path gives the delivery, or else the default does. */
  predicate IsDecided(overrides: Overrides, default: Option<Delivery>, path: BrowsePath, delivery: Delivery) {
    && (forall i :: 0 <= i < |overrides| && IsFirstOverride(overrides, i, path) ==>
          overrides[i].1 == Some(delivery))
    && ((forall i :: 0 <= i < |overrides| ==> overrides[i].0 != path) ==> default == Some(delivery))
  }

  lemma DeliveryIsDecided(overrides: Overrides, default: Option<Delivery>, path: BrowsePath, delivery: Delivery)
    requires DeliveryFor(overrides, default, path) == Some(delivery)
    ensures IsDecided(overrides, default, path, delivery)
  {
    FirstOverrideDecides(overrides, default, path);
  }

  predicate IsAskedFor(entry: MappingEntry, action: Action) {
    match action
    case Measurement(m) => entry.measurement == Some(m) && MeasurementType(m).Some?
    case Event(e) => entry.event == Some(e) && NonBlank(e.kind).Some?
    case Alarm(a) => entry.alarm == Some(a) && NonBlank(a.kind).Some?
  }

  lemma AskedIsTaken(entry: MappingEntry, action: Action)
    ensures action in ActionsOf(entry) <==> IsAskedFor(entry, action)
  {
  }

  ghost predicate TakesTheAsked(entry: MappingEntry, actions: seq<Action>) {
    forall a :: a in actions <==> IsAskedFor(entry, a)
  }

  lemma AskedAreTaken(entry: MappingEntry)
    ensures TakesTheAsked(entry, ActionsOf(entry))
  {
    forall a ensures a in ActionsOf(entry) <==> IsAskedFor(entry, a) {
      AskedIsTaken(entry, a);
    }
  }

  /** What a plan holds: exactly the actions that have a type, the node the entry names or else its
      path, and the delivery of the first override of that path, or else the default. */
  lemma PlannedContents(table: NamespaceTable, codec: Codec, overrides: Overrides, default: Option<Delivery>,
                       entry: MappingEntry)
    ensures
      var planned := PlanEntry(table, codec, overrides, default, entry);
      planned.Some? ==>
        var names := QualifiedNamesOf(table, entry.browsePath);
        && TakesTheAsked(entry, planned.value.actions)
        && (match planned.value.nodeRef
            case Known(id) =>
              entry.referencedNodeId.Some? && NodeIdOf(table, codec, entry.referencedNodeId.value) == Ok(id)
            case Path(path) => entry.referencedNodeId.GetOr("") == "" && path == names)
        && IsDecided(overrides, default, names, planned.value.delivery)
  {
    var planned := PlanEntry(table, codec, overrides, default, entry);
    if planned.Some? {
      AskedAreTaken(entry);
      DeliveryIsDecided(overrides, default, QualifiedNamesOf(table, entry.browsePath), planned.value.delivery);
    }
  }

  function Singleton<T>(x: Option<T>): seq<T> {
    if x.Some? then [x.value] else []
  }

  function PlanEntries(table: NamespaceTable, codec: Codec, overrides: Overrides, default: Option<Delivery>,
                       mappings: seq<MappingEntry>): seq<Entry> {
    if mappings == [] then []
    else
      var n := |mappings| - 1;
      PlanEntries(table, codec, overrides, default, mappings[..n])
      + Singleton(PlanEntry(table, codec, overrides, default, mappings[n]))
  }

  function RootOf(table: NamespaceTable, codec: Codec, dt: DeviceType): Result<NodeId, MappingError> {
    if dt.rootNodeId.None? then Ok(ROOT_FOLDER) else NodeIdOf(table, codec, dt.rootNodeId.value)
  }

  function EntriesOf(table: NamespaceTable, codec: Codec, dt: DeviceType): seq<Entry> {
    PlanEntries(table, codec, OverridesOf(table, dt.overrides), DeliveryOf(dt.subscriptionType), dt.mappings)
  }

  // ---- respelled browse paths ----

  /** Two spellings of one path: the same qualified names, segment by segment. */
  predicate SameNames(table: NamespaceTable, p: seq<string>, q: seq<string>) {
    QualifiedNamesOf(table, p) == QualifiedNamesOf(table, q)
  }

  predicate RespelledEntry(table: NamespaceTable, a: MappingEntry, b: MappingEntry) {
    SameNames(table, a.browsePath, b.browsePath) && b == a.(browsePath := b.browsePath)
  }

  predicate RespelledOverride(table: NamespaceTable, a: OverriddenSubscription, b: OverriddenSubscription) {
    SameNames(table, a.browsePath, b.browsePath) && b == a.(browsePath := b.browsePath)
  }

  /** The entry asks for nothing the gateway can do, however its path is spelled. */
  predicate IsIdle(table: NamespaceTable, codec: Codec, overrides: Overrides, default: Option<Delivery>,
                   entry: MappingEntry) {
    || !AsksForSomething(entry) || !IsLocated(table, codec, entry)
    || !IsDelivered(overrides, default, QualifiedNamesOf(table, entry.browsePath))
  }

  /** Respelling the path of an entry keeps its plan exactly when the path does not start or stop using
      the regex form, or the entry is idle anyway. */
  lemma RespellingAnEntry(table: NamespaceTable, codec: Codec, overrides: Overrides, default: Option<Delivery>,
                          a: MappingEntry, b: MappingEntry)
    requires RespelledEntry(table, a, b)
    ensures
      var planA := PlanEntry(table, codec, overrides, default, a);
      var planB := PlanEntry(table, codec, overrides, default, b);
      planA == planB <==>
        UsesRegex(a.browsePath) == UsesRegex(b.browsePath) || IsIdle(table, codec, overrides, default, a)
  {
    PlannedExactlyWhen(table, codec, overrides, default, a);
    PlannedExactlyWhen(table, codec, overrides, default, b);
    assert |a.browsePath| == |QualifiedNamesOf(table, a.browsePath)| == |b.browsePath|;
    assert NodeRefOf(table, codec, a) == NodeRefOf(table, codec, b);
    assert ActionsOf(a) == ActionsOf(b);
  }

  lemma {:induction false} RespelledOverrides(table: NamespaceTable, a: seq<OverriddenSubscription>,
                                              b: seq<OverriddenSubscription>)
    requires |a| == |b| && forall i :: 0 <= i < |a| ==> RespelledOverride(table, a[i], b[i])
    ensures OverridesOf(table, a) == OverridesOf(table, b)
  {
    if a != [] {
      assert RespelledOverride(table, a[0], b[0]);
      assert |a[0].browsePath| == |QualifiedNamesOf(table, a[0].browsePath)| == |b[0].browsePath|;
      RespelledOverrides(table, a[1..], b[1..]);
    }
  }

  /** A respelling of paths, in mappings and in overrides. */
  predicate IsRespelled(table: NamespaceTable, a: DeviceType, b: DeviceType) {
    && b == a.(mappings := b.mappings, overrides := b.overrides)
    && |a.mappings| == |b.mappings| && |a.overrides| == |b.overrides|
    && (forall i :: 0 <= i < |a.mappings| ==> RespelledEntry(table, a.mappings[i], b.mappings[i]))
    && (forall i :: 0 <= i < |a.overrides| ==> RespelledOverride(table, a.overrides[i], b.overrides[i]))
  }

  /** What one entry of a device type is planned as. */
  function PlanAt(table: NamespaceTable, codec: Codec, dt: DeviceType, i: nat): Option<Entry>
    requires i < |dt.mappings|
  {
    PlanEntry(table, codec, OverridesOf(table, dt.overrides), DeliveryOf(dt.subscriptionType), dt.mappings[i])
  }

  /** No entry starts or stops using the regex form, but for idle ones. */
  predicate KeepsItsForms(table: NamespaceTable, codec: Codec, a: DeviceType, b: DeviceType)
    requires |a.mappings| == |b.mappings|
  {
    forall i :: 0 <= i < |a.mappings| ==>
      || UsesRegex(a.mappings[i].browsePath) == UsesRegex(b.mappings[i].browsePath)
      || IsIdle(table, codec, OverridesOf(table, a.overrides), DeliveryOf(a.subscriptionType), a.mappings[i])
  }

  predicate PlanAlike(table: NamespaceTable, codec: Codec, a: DeviceType, b: DeviceType)
    requires |a.mappings| == |b.mappings|
  {
    forall i :: 0 <= i < |a.mappings| ==> PlanAt(table, codec, a, i) == PlanAt(table, codec, b, i)
  }

  /** No entry of one is planned as another entry of the other is. */
  predicate NoTwins(table: NamespaceTable, codec: Codec, a: DeviceType, b: DeviceType)
    requires |a.mappings| == |b.mappings|
  {
    forall i, j :: 0 <= i < |a.mappings| && 0 <= j < |a.mappings| && i != j && PlanAt(table, codec, a, i).Some? ==>
      PlanAt(table, codec, a, i) != PlanAt(table, codec, b, j)
  }

  lemma {:induction false} SamePlans(table: NamespaceTable, codec: Codec, overrides: Overrides,
                                     default: Option<Delivery>, a: seq<MappingEntry>, b: seq<MappingEntry>)
    requires |a| == |b|
    requires forall i :: 0 <= i < |a| ==>
      PlanEntry(table, codec, overrides, default, a[i]) == PlanEntry(table, codec, overrides, default, b[i])
    ensures PlanEntries(table, codec, overrides, default, a) == PlanEntries(table, codec, overrides, default, b)
  {
    if a != [] {
      SamePlans(table, codec, overrides, default, a[..|a| - 1], b[..|b| - 1]);
    }
  }

  lemma {:induction false} PlannedFrom(table: NamespaceTable, codec: Codec, overrides: Overrides,
                                       default: Option<Delivery>, mappings: seq<MappingEntry>, entry: Entry)
    ensures entry in PlanEntries(table, codec, overrides, default, mappings) <==>
      exists m :: m in mappings && PlanEntry(table, codec, overrides, default, m) == Some(entry)
  {
    if mappings != [] {
      var n := |mappings| - 1;
      PlannedFrom(table, codec, overrides, default, mappings[..n], entry);
      assert mappings == mappings[..n] + [mappings[n]];
    }
  }

  /** A plan that one of them lost, or won, is nowhere in the other. */
  lemma LostPlan(table: NamespaceTable, codec: Codec, a: DeviceType, b: DeviceType, i: nat)
    requires |a.mappings| == |b.mappings| && i < |a.mappings| && PlanAt(table, codec, a, i).Some?
    requires forall j :: 0 <= j < |b.mappings| ==> PlanAt(table, codec, b, j) != PlanAt(table, codec, a, i)
    ensures EntriesOf(table, codec, a) != EntriesOf(table, codec, b)
  {
    var entry := PlanAt(table, codec, a, i).value;
    var overrides, default := OverridesOf(table, b.overrides), DeliveryOf(b.subscriptionType);
    assert a.mappings[i] in a.mappings;
    PlannedFrom(table, codec, OverridesOf(table, a.overrides), DeliveryOf(a.subscriptionType), a.mappings, entry);
    PlannedFrom(table, codec, overrides, default, b.mappings, entry);
    forall m | m in b.mappings ensures PlanEntry(table, codec, overrides, default, m) != Some(entry) {
      var j :| 0 <= j < |b.mappings| && b.mappings[j] == m;
      assert PlanAt(table, codec, b, j) != PlanAt(table, codec, a, i);
    }
  }

  /** Respelling paths, in mappings and in overrides, leaves what each entry is planned as unchanged exactly
      when no entry but an idle one starts or stops using the regex form. Then, and unless another entry takes
      the place of a lost one only then, the whole plan is unchanged. */
  lemma RespellingKeepsThePlan(table: NamespaceTable, codec: Codec, a: DeviceType, b: DeviceType)
    requires IsRespelled(table, a, b)
    ensures PlanAlike(table, codec, a, b) <==> KeepsItsForms(table, codec, a, b)
    ensures KeepsItsForms(table, codec, a, b) ==> EntriesOf(table, codec, a) == EntriesOf(table, codec, b)
    ensures NoTwins(table, codec, a, b) && EntriesOf(table, codec, a) == EntriesOf(table, codec, b) ==>
      KeepsItsForms(table, codec, a, b)
    ensures RootOf(table, codec, a) == RootOf(table, codec, b)
  {
    RespelledOverrides(table, a.overrides, b.overrides);
    var overrides, default := OverridesOf(table, a.overrides), DeliveryOf(a.subscriptionType);
    forall i | 0 <= i < |a.mappings|
      ensures PlanAt(table, codec, a, i) == PlanAt(table, codec, b, i) <==>
        || UsesRegex(a.mappings[i].browsePath) == UsesRegex(b.mappings[i].browsePath)
        || IsIdle(table, codec, overrides, default, a.mappings[i])
    {
      RespellingAnEntry(table, codec, overrides, default, a.mappings[i], b.mappings[i]);
    }
    if PlanAlike(table, codec, a, b) {
      forall i | 0 <= i < |a.mappings|
        ensures PlanEntry(table, codec, overrides, default, a.mappings[i])
             == PlanEntry(table, codec, overrides, default, b.mappings[i])
      {
        assert PlanAt(table, codec, a, i) == PlanAt(table, codec, b, i);
      }
      SamePlans(table, codec, overrides, default, a.mappings, b.mappings);
    } else if NoTwins(table, codec, a, b) {
      var i :| 0 <= i < |a.mappings| && PlanAt(table, codec, a, i) != PlanAt(table, codec, b, i);
      if PlanAt(table, codec, a, i).Some? {
        LostPlan(table, codec, a, b, i);
      } else {
        LostPlan(table, codec, b, a, i);
      }
    }
  }

  /** `regex(a)` and `0:regex(a)` denote the same name, but only one has the regex form. */
  lemma RegexForms(table: NamespaceTable)
    ensures SameNames(table, ["regex(a)"], ["0:regex(a)"])
    ensures UsesRegex(["regex(a)"]) && !UsesRegex(["0:regex(a)"])
  {
    var s := "regex(a)";
    NoColonNoSplit(table, s, 0, |s|);
    DecimalParses(0, U16_MAX);
    assert Decimal(0) == "0";
    QualifiedNameRoundTrip(table, 0, s);
    assert "0" + ":" + s == "0:regex(a)";
    assert s[..6] == "regex(" && s[|s| - 1..] == ")";
    assert IsRegex(["regex(a)"][0]);
    assert "0:regex(a)"[0] == '0';
    StartsWithAt("0:regex(a)", "regex(", 0);
  }

  /** A device type with one measured node, cyclically read. */
  function OneEntry(segment: string): DeviceType {
    var measured := MeasurementCreation(Some("m"), None, None, None, None);
    DeviceType("d", true, [MappingEntry(None, [segment], None, Some(measured), None, None)],
               Some(SubscriptionType(Some("CyclicRead"), None, None)), [], None, None)
  }

  lemma OneEntryPlan(table: NamespaceTable, codec: Codec, segment: string)
    ensures |EntriesOf(table, codec, OneEntry(segment))| == if IsRegex(segment) then 0 else 1
  {
    var dt := OneEntry(segment);
    var entry := dt.mappings[0];
    assert Trim("m") == "m" && Trim("CyclicRead") == "CyclicRead";
    assert |LowerAll("CyclicRead")| != |LowerAll("Subscription")|;
    var default := DeliveryOf(dt.subscriptionType);
    assert default == Some(CyclicRead(DEFAULT_READ_RATE_MS, Finite(0.0)));
    assert entry.browsePath[0] == segment;
    assert UsesRegex(entry.browsePath) == IsRegex(segment);
    PlannedExactlyWhen(table, codec, [], default, entry);
    assert dt.mappings[..0] == [];
    assert PlanEntries(table, codec, [], default, dt.mappings[..0]) == [];
  }

  /** The regex form is decided by spelling: these device types differ in the spelling of one segment
      only, and one is planned while the other has nothing to plan. */
  lemma RegexIsASpelling(table: NamespaceTable, codec: Codec) returns (a: DeviceType, b: DeviceType)
    ensures a.(mappings := b.mappings) == b && |a.mappings| == |b.mappings| == 1
    ensures RespelledEntry(table, a.mappings[0], b.mappings[0])
    ensures EntriesOf(table, codec, a) == [] && |EntriesOf(table, codec, b)| == 1
  {
    a, b := OneEntry("regex(a)"), OneEntry("0:regex(a)");
    RegexForms(table);
    assert IsRegex("regex(a)") by {
      var path := ["regex(a)"];
      var i :| 0 <= i < |path| && IsRegex(path[i]);
    }
    assert !IsRegex(["0:regex(a)"][0]);
    OneEntryPlan(table, codec, "regex(a)");
    OneEntryPlan(table, codec, "0:regex(a)");
  }

  lemma TwoEntries(table: NamespaceTable, codec: Codec, overrides: Overrides, default: Option<Delivery>,
                   x: MappingEntry, y: MappingEntry)
    ensures PlanEntries(table, codec, overrides, default, [x, y])
         == Singleton(PlanEntry(table, codec, overrides, default, x))
            + Singleton(PlanEntry(table, codec, overrides, default, y))
  {
    var mappings := [x, y];
    assert mappings[..1] == [x] && mappings[..1][..0] == [];
    assert PlanEntries(table, codec, overrides, default, mappings[..1][..0]) == [];
  }

  lemma Swapped(table: NamespaceTable, codec: Codec, dt: DeviceType, x: MappingEntry, y: MappingEntry)
    requires dt.overrides == [] && RespelledEntry(table, x, y) && RespelledEntry(table, y, x)
    requires UsesRegex(x.browsePath) && !UsesRegex(y.browsePath)
    requires !IsIdle(table, codec, [], DeliveryOf(dt.subscriptionType), x)
    ensures
      var a, b := dt.(mappings := [x, y]), dt.(mappings := [y, x]);
      && IsRespelled(table, a, b) && !KeepsItsForms(table, codec, a, b)
      && EntriesOf(table, codec, a) == EntriesOf(table, codec, b)
  {
    SwappedForms(table, codec, dt, x, y, dt.(mappings := [x, y]), dt.(mappings := [y, x]));
    TwoEntries(table, codec, [], DeliveryOf(dt.subscriptionType), x, y);
    TwoEntries(table, codec, [], DeliveryOf(dt.subscriptionType), y, x);
  }

  lemma SwappedForms(table: NamespaceTable, codec: Codec, dt: DeviceType, x: MappingEntry, y: MappingEntry,
                     a: DeviceType, b: DeviceType)
    requires dt.overrides == [] && a == dt.(mappings := [x, y]) && b == dt.(mappings := [y, x])
    requires RespelledEntry(table, x, y) && RespelledEntry(table, y, x)
    requires UsesRegex(x.browsePath) && !UsesRegex(y.browsePath)
    requires !IsIdle(table, codec, [], DeliveryOf(dt.subscriptionType), x)
    ensures IsRespelled(table, a, b) && !KeepsItsForms(table, codec, a, b)
  {
    assert a.mappings[0] == x && b.mappings[0] == y;
  }

  lemma RegexEntryIsNotIdle(table: NamespaceTable, codec: Codec)
    ensures
      var dt := OneEntry("regex(a)");
      !IsIdle(table, codec, [], DeliveryOf(dt.subscriptionType), dt.mappings[0])
  {
    var x, y := OneEntry("regex(a)"), OneEntry("0:regex(a)");
    RegexForms(table);
    assert UsesRegex(["0:regex(a)"]) == IsRegex(["0:regex(a)"][0]);
    OneEntryPlan(table, codec, "0:regex(a)");
    RespellingAnEntry(table, codec, [], DeliveryOf(y.subscriptionType), x.mappings[0], y.mappings[0]);
    assert y.mappings[..0] == [];
    assert PlanEntries(table, codec, [], DeliveryOf(y.subscriptionType), y.mappings[..0]) == [];
  }

  /** Two spellings of one path that change places: one entry takes the place of the other, and the plan is
      the same although both forms changed. */
  lemma TwinsTakePlaces(table: NamespaceTable, codec: Codec) returns (a: DeviceType, b: DeviceType)
    ensures IsRespelled(table, a, b) && !KeepsItsForms(table, codec, a, b)
    ensures EntriesOf(table, codec, a) == EntriesOf(table, codec, b)
  {
    var x, y := OneEntry("regex(a)").mappings[0], OneEntry("0:regex(a)").mappings[0];
    RegexForms(table);
    RegexEntryIsNotIdle(table, codec);
    Swapped(table, codec, OneEntry("regex(a)"), x, y);
    a, b := OneEntry("regex(a)").(mappings := [x, y]), OneEntry("regex(a)").(mappings := [y, x]);
  }

  // ---- translate ----

  datatype Target = Target(remainingPathIndex: nat, namespaceUri: string, nodeId: NodeId)

  datatype BrowsePathResult = BrowsePathResult(isGood: bool, targets: seq<Target>)

  const PATH_FULLY_RESOLVED: nat := U32_MAX

  function FirstResolved(targets: seq<Target>): Option<Target> {
    if targets == [] then None
    else if targets[0].remainingPathIndex == PATH_FULLY_RESOLVED then Some(targets[0])
    else FirstResolved(targets[1..])
  }

  /** The node one result binds: its first fully resolved target, if that is given by index. */
  function AnswerOf(result: BrowsePathResult): Option<NodeId> {
    if !result.isGood then None
    else
      match FirstResolved(result.targets)
      case None => None
      case Some(t) => if t.namespaceUri == [] then Some(t.nodeId) else None
  }

  /** One answer per requested path, by position; missing results are no answer. */
  function Translated(paths: nat, results: seq<BrowsePathResult>): (answers: seq<Option<NodeId>>)
    ensures |answers| == paths
  {
    seq(paths, i requires 0 <= i < paths => if i < |results| then AnswerOf(results[i]) else None)
  }

  /** The first target that the whole path leads to. */
  predicate IsReached(targets: seq<Target>, k: nat)
    requires k < |targets|
  {
    && targets[k].remainingPathIndex == 0xFFFF_FFFF
    && forall j :: 0 <= j < k ==> targets[j].remainingPathIndex != 0xFFFF_FFFF
  }

  /** A good result binds the node of the first target reached, if that is a node of this server. */
  predicate Binds(result: BrowsePathResult, id: NodeId) {
    result.isGood && exists k :: 0 <= k < |result.targets| && LeadsTo(result.targets, k, id)
  }

  predicate LeadsTo(targets: seq<Target>, k: nat, id: NodeId)
    requires k < |targets|
  {
    IsReached(targets, k) && targets[k].namespaceUri == "" && targets[k].nodeId == id
  }

  lemma {:induction false} FirstResolvedIsReached(targets: seq<Target>)
    ensures match FirstResolved(targets)
            case None => forall k :: 0 <= k < |targets| ==> targets[k].remainingPathIndex != 0xFFFF_FFFF
            case Some(t) => exists k :: 0 <= k < |targets| && IsReached(targets, k) && targets[k] == t
  {
    if targets != [] {
      if targets[0].remainingPathIndex == PATH_FULLY_RESOLVED {
        assert IsReached(targets, 0);
      } else {
        FirstResolvedIsReached(targets[1..]);
        assert forall k :: 0 < k < |targets| ==> targets[1..][k - 1] == targets[k];
        if FirstResolved(targets[1..]).Some? {
          var k :| 0 <= k < |targets[1..]| && IsReached(targets[1..], k)
            && targets[1..][k] == FirstResolved(targets[1..]).value;
          assert IsReached(targets, k + 1);
        }
      }
    }
  }

  lemma AnswerBinds(result: BrowsePathResult, id: NodeId)
    ensures AnswerOf(result) == Some(id) <==> Binds(result, id)
  {
    FirstResolvedIsReached(result.targets);
    var targets, first := result.targets, FirstResolved(result.targets);
    if first.Some? {
      var k :| 0 <= k < |targets| && IsReached(targets, k) && targets[k] == first.value;
      assert forall j :: 0 <= j < |targets| && IsReached(targets, j) ==> j == k;
      assert LeadsTo(targets, k, id) <==> first.value.namespaceUri == "" && first.value.nodeId == id;
    }
  }

  /** Result `i` belongs to path `i`: it gives the node that it binds, and without a result there is none. */
  lemma TranslatedBinds(paths: nat, results: seq<BrowsePathResult>, i: nat, id: NodeId)
    requires i < paths
    ensures Translated(paths, results)[i] == Some(id) <==> i < |results| && Binds(results[i], id)
  {
    if i < |results| {
      AnswerBinds(results[i], id);
    }
  }

  // ---- the simple specification ----

  datatype ResolvedEntry = ResolvedEntry(nodeId: NodeId, actions: seq<Action>, delivery: Delivery)

  /** Each entry resolved on its own, in order: by its own id, or by the next answer. */
  function ResolvedAlone(entries: seq<Entry>, answers: seq<Option<NodeId>>): seq<ResolvedEntry> {
    if entries == [] then []
    else
      var e := entries[0];
      match e.nodeRef
      case Known(id) => [ResolvedEntry(id, e.actions, e.delivery)] + ResolvedAlone(entries[1..], answers)
      case Path(_) =>
        if answers == [] then ResolvedAlone(entries[1..], answers)
        else if answers[0].None? then ResolvedAlone(entries[1..], answers[1..])
        else [ResolvedEntry(answers[0].value, e.actions, e.delivery)] + ResolvedAlone(entries[1..], answers[1..])
  }

  /** What entries share: the node and how it is delivered. */
  datatype Key = Key(nodeId: NodeId, schedule: Option<ReadSchedule>)

  function KeyOf(e: ResolvedEntry): Key {
    Key(e.nodeId, ScheduleOf(e.delivery))
  }

  function NodeKey(n: ResolvedNode): Key {
    Key(n.nodeId, ScheduleOf(n.delivery))
  }

  /** The keys in order of first occurrence. */
  function FirstKeys(es: seq<ResolvedEntry>): (keys: seq<Key>)
    ensures forall k :: k in keys <==> exists i :: 0 <= i < |es| && KeyOf(es[i]) == k
    ensures forall i, j :: 0 <= i < j < |keys| ==> keys[i] != keys[j]
  {
    if es == [] then []
    else
      var n := |es| - 1;
      var front := FirstKeys(es[..n]);
      if KeyOf(es[n]) in front then front else front + [KeyOf(es[n])]
  }

  /** All actions of the entries with this key, in entry order. */
  function ActionsFor(es: seq<ResolvedEntry>, key: Key): seq<Action> {
    if es == [] then []
    else
      var n := |es| - 1;
      ActionsFor(es[..n], key) + if KeyOf(es[n]) == key then es[n].actions else []
  }

  /** The delivery of the first entry with this key. */
  function FirstDelivery(es: seq<ResolvedEntry>, key: Key): (d: Delivery)
    requires key in FirstKeys(es)
    ensures ScheduleOf(d) == key.schedule
  {
    var n := |es| - 1;
    if key in FirstKeys(es[..n]) then FirstDelivery(es[..n], key) else es[n].delivery
  }

  /** Group in order: one node per key, in order of first occurrence, with all actions of that key. */
  function Grouped(es: seq<ResolvedEntry>): (nodes: seq<ResolvedNode>)
    ensures |nodes| == |FirstKeys(es)|
    ensures forall i :: 0 <= i < |nodes| ==> NodeKey(nodes[i]) == FirstKeys(es)[i]
  {
    var keys := FirstKeys(es);
    seq(|keys|, i requires 0 <= i < |keys| =>
      ResolvedNode(keys[i].nodeId, ActionsFor(es, keys[i]), FirstDelivery(es, keys[i])))
  }

  // ---- write back and finish ----

  function Pending(entries: seq<Entry>): seq<(nat, BrowsePath)> {
    if entries == [] then []
    else
      var n := |entries| - 1;
      Pending(entries[..n]) + if entries[n].nodeRef.Path? then [(n, entries[n].nodeRef.path)] else []
  }

  /** Pending entries are listed by increasing index, each path entry once. */
  lemma {:induction false} PendingIndexes(entries: seq<Entry>)
    ensures forall k :: 0 <= k < |Pending(entries)| ==>
      Pending(entries)[k].0 < |entries| && entries[Pending(entries)[k].0].nodeRef == Path(Pending(entries)[k].1)
    ensures forall j, k :: 0 <= j < k < |Pending(entries)| ==> Pending(entries)[j].0 < Pending(entries)[k].0
    ensures forall i :: 0 <= i < |entries| && entries[i].nodeRef.Path? ==>
      (i, entries[i].nodeRef.path) in Pending(entries)
  {
    if entries != [] {
      var n := |entries| - 1;
      PendingIndexes(entries[..n]);
      var front := Pending(entries[..n]);
      forall k | 0 <= k < |front| ensures front[k].0 < n && entries[front[k].0].nodeRef == Path(front[k].1) {
        var (i, path) := front[k];
        assert entries[..n][i].nodeRef == Path(path);
      }
      forall i | 0 <= i < n && entries[i].nodeRef.Path? ensures (i, entries[i].nodeRef.path) in front {
        assert entries[..n][i].nodeRef.Path?;
      }
    }
  }

  function Write(entry: Entry, answer: Option<NodeId>): Entry {
    if answer.Some? then entry.(nodeRef := Known(answer.value)) else entry
  }

  /** The entries once the answers are written back, each path entry taking the next answer. */
  function Written(entries: seq<Entry>, answers: seq<Option<NodeId>>): (written: seq<Entry>)
    ensures |written| == |entries|
  {
    if entries == [] then []
    else if entries[0].nodeRef.Known? || answers == [] then
      [entries[0]] + Written(entries[1..], answers)
    else
      [Write(entries[0], answers[0])] + Written(entries[1..], answers[1..])
  }

  /** The entries whose node is known. */
  function Collect(entries: seq<Entry>): seq<ResolvedEntry> {
    if entries == [] then []
    else
      var n := |entries| - 1;
      var e := entries[n];
      Collect(entries[..n])
      + if e.nodeRef.Known? then [ResolvedEntry(e.nodeRef.nodeId, e.actions, e.delivery)] else []
  }

  /** Add one resolved entry to the nodes found so far. */
  function Insert(nodes: seq<ResolvedNode>, e: ResolvedEntry): seq<ResolvedNode> {
    var at := FindNode(nodes, KeyOf(e));
    if at.Some? then nodes[at.value := nodes[at.value].(actions := nodes[at.value].actions + e.actions)]
    else nodes + [ResolvedNode(e.nodeId, e.actions, e.delivery)]
  }

  function FindNode(nodes: seq<ResolvedNode>, key: Key): (r: Option<nat>)
    ensures r.Some? ==> r.value < |nodes| && NodeKey(nodes[r.value]) == key
    ensures r.None? ==> forall i :: 0 <= i < |nodes| ==> NodeKey(nodes[i]) != key
  {
    if nodes == [] then None
    else if NodeKey(nodes[0]) == key then Some(0)
    else
      match FindNode(nodes[1..], key)
      case Some(i) => Some(i + 1)
      case None => None
  }

  class Plan {
    const deviceTypeId: string
    const deviceTypeName: string
    const rootNodeId: NodeId
    var entries: seq<Entry>

    constructor (deviceTypeId: string, deviceTypeName: string, rootNodeId: NodeId, entries: seq<Entry>)
      ensures this.deviceTypeId == deviceTypeId && this.deviceTypeName == deviceTypeName
      ensures this.rootNodeId == rootNodeId && this.entries == entries
    {
      this.deviceTypeId, this.deviceTypeName := deviceTypeId, deviceTypeName;
      this.rootNodeId, this.entries := rootNodeId, entries;
    }

    /** Entries still needing a translation, by entry index. */
    function PendingPaths(): seq<(nat, BrowsePath)>
      reads this
    {
      Pending(entries)
    }

    /** Record the node a translation produced; an index outside the plan changes nothing. */
    method SetResolved(index: nat, nodeId: NodeId)
      modifies this
      ensures index < |old(entries)| ==>
        entries == old(entries)[index := old(entries)[index].(nodeRef := Known(nodeId))]
      ensures index >= |old(entries)| ==> entries == old(entries)
    {
      if index < |entries| {
        entries := entries[index := entries[index].(nodeRef := Known(nodeId))];
      }
    }

    /** Drop unresolved entries and group the rest by node and delivery. */
    method Finish() returns (mapping: ResolvedMapping)
      ensures mapping == ResolvedMapping(deviceTypeId, deviceTypeName, rootNodeId, Grouped(Collect(entries)))
    {
      var nodes: seq<ResolvedNode> := [];
      for i := 0 to |entries|
        invariant nodes == Grouped(Collect(entries[..i]))
      {
        var entry := entries[i];
        CollectStep(entries, i);
        if entry.nodeRef.Path? {
          continue;
        }
        GroupStep(Collect(entries[..i]), ResolvedEntry(entry.nodeRef.nodeId, entry.actions, entry.delivery));
        var existing := FindNode(nodes, Key(entry.nodeRef.nodeId, ScheduleOf(entry.delivery)));
        if existing.Some? {
          var node := nodes[existing.value];
          nodes := nodes[existing.value := node.(actions := node.actions + entry.actions)];
        } else {
          nodes := nodes + [ResolvedNode(entry.nodeRef.nodeId, entry.actions, entry.delivery)];
        }
      }
      assert entries[..|entries|] == entries;
      mapping := ResolvedMapping(deviceTypeId, deviceTypeName, rootNodeId, nodes);
    }
  }

  lemma CollectStep(entries: seq<Entry>, i: nat)
    requires i < |entries|
    ensures Collect(entries[..i + 1]) ==
      var e := entries[i];
      if e.nodeRef.Known? then Collect(entries[..i]) + [ResolvedEntry(e.nodeRef.nodeId, e.actions, e.delivery)]
      else Collect(entries[..i])
  {
    assert entries[..i + 1][..i] == entries[..i];
  }

  /** Grouping can be done one entry at a time. */
  lemma GroupStep(es: seq<ResolvedEntry>, e: ResolvedEntry)
    ensures Grouped(es + [e]) == Insert(Grouped(es), e)
  {
    var all, nodes := es + [e], Grouped(es);
    assert all[..|es|] == es;
    if FindNode(nodes, KeyOf(e)).Some? {
      GroupFound(es, e);
    } else {
      GroupNew(es, e);
    }
  }

  lemma GroupFound(es: seq<ResolvedEntry>, e: ResolvedEntry)
    requires FindNode(Grouped(es), KeyOf(e)).Some?
    ensures Grouped(es + [e]) == Insert(Grouped(es), e)
  {
    var all, nodes, keys := es + [e], Grouped(es), FirstKeys(es);
    assert all[..|es|] == es;
    assert KeyOf(e) == keys[FindNode(nodes, KeyOf(e)).value];
    assert FirstKeys(all) == keys;
    forall i | 0 <= i < |keys| ensures Grouped(all)[i] == Insert(nodes, e)[i] {
      assert keys[i] in keys;
    }
  }

  lemma GroupNew(es: seq<ResolvedEntry>, e: ResolvedEntry)
    requires FindNode(Grouped(es), KeyOf(e)).None?
    ensures Grouped(es + [e]) == Insert(Grouped(es), e)
  {
    var all, nodes, keys := es + [e], Grouped(es), FirstKeys(es);
    assert all[..|es|] == es;
    assert forall i :: 0 <= i < |keys| ==> NodeKey(nodes[i]) == keys[i];
    assert KeyOf(e) !in keys;
    assert FirstKeys(all) == keys + [KeyOf(e)];
    NoActionsFor(es, KeyOf(e));
    assert ActionsFor(all, KeyOf(e)) == e.actions;
    forall i | 0 <= i < |keys| ensures Grouped(all)[i] == nodes[i] {
      assert keys[i] in keys;
    }
    assert FirstDelivery(all, KeyOf(e)) == e.delivery;
    assert Grouped(all)[|keys|] == ResolvedNode(e.nodeId, e.actions, e.delivery);
  }

  lemma {:induction false} NoActionsFor(es: seq<ResolvedEntry>, key: Key)
    requires key !in FirstKeys(es)
    ensures ActionsFor(es, key) == []
  {
    if es != [] {
      var n := |es| - 1;
      assert KeyOf(es[n]) != key;
      NoActionsFor(es[..n], key);
    }
  }

  /** Plan one mapping entry; nothing when the gateway cannot support it. */
  method PlanOne(table: NamespaceTable, codec: Codec, overrides: Overrides, default: Option<Delivery>,
                 entry: MappingEntry)
    returns (planned: Option<Entry>)
    ensures planned == PlanEntry(table, codec, overrides, default, entry)
    ensures planned.Some? <==> IsPlannable(table, codec, overrides, default, entry)
  {
    PlannedExactlyWhen(table, codec, overrides, default, entry);
    var actions := ActionsOf(entry);
    if actions == [] {
      return None;
    }
    if exists k :: 0 <= k < |entry.browsePath| && IsRegex(entry.browsePath[k]) {
      return None;
    }
    var path := QualifiedNamesOf(table, entry.browsePath);
    var nodeRef: NodeRef;
    if entry.referencedNodeId.Some? && entry.referencedNodeId.value != [] {
      var id := ParseNodeId(table, codec, entry.referencedNodeId.value);
      if id.Err? {
        return None;
      }
      nodeRef := Known(id.value);
    } else if entry.browsePath == [] {
      return None;
    } else {
      nodeRef := Path(path);
    }
    var delivery := DeliveryFor(overrides, default, path);
    if delivery.None? {
      return None;
    }
    return Some(Entry(entry.name.GetOr("<unnamed>"), actions, nodeRef, delivery.value));
  }

  /** Plan a device type; an error only when its root cannot be read. */
  method PlanDeviceType(deviceTypeId: string, dt: DeviceType, table: NamespaceTable, codec: Codec)
    returns (r: Result<Plan, MappingError>)
    ensures RootOf(table, codec, dt).Err? ==> r == Err(RootOf(table, codec, dt).error)
    ensures RootOf(table, codec, dt).Ok? ==>
      && r.Ok? && fresh(r.value)
      && r.value.rootNodeId == RootOf(table, codec, dt).value
      && r.value.deviceTypeId == deviceTypeId && r.value.deviceTypeName == dt.name
      && r.value.entries == EntriesOf(table, codec, dt)
  {
    var root := ROOT_FOLDER;
    if dt.rootNodeId.Some? {
      var parsed := ParseNodeId(table, codec, dt.rootNodeId.value);
      if parsed.Err? {
        return Err(parsed.error);
      }
      root := parsed.value;
    }
    var default := DeliveryOf(dt.subscriptionType);
    var overrides := OverridesOf(table, dt.overrides);
    var entries: seq<Entry> := [];
    for i := 0 to |dt.mappings|
      invariant entries == PlanEntries(table, codec, overrides, default, dt.mappings[..i])
    {
      assert dt.mappings[..i + 1][..i] == dt.mappings[..i];
      var planned := PlanOne(table, codec, overrides, default, dt.mappings[i]);
      if planned.Some? {
        entries := entries + [planned.value];
      }
    }
    assert dt.mappings[..|dt.mappings|] == dt.mappings;
    var plan := new Plan(deviceTypeId, dt.name, root, entries);
    return Ok(plan);
  }

  // ---- the batch refines the simple specification ----

  /** Answers written back by rank: entry `i` takes the answer at its place among the path entries. */
  predicate WrittenByRank(entries: seq<Entry>, pending: seq<(nat, BrowsePath)>, answers: seq<Option<NodeId>>,
                          done: nat, current: seq<Entry>)
    requires done <= |pending| == |answers|
  {
    && |current| == |entries|
    && (forall k :: 0 <= k < |pending| ==> pending[k].0 < |entries|)
    && (forall k :: 0 <= k < done ==> current[pending[k].0] == Write(entries[pending[k].0], answers[k]))
    && (forall i :: 0 <= i < |entries| && (forall k :: 0 <= k < done ==> pending[k].0 != i) ==>
          current[i] == entries[i])
  }

  /** Entries with a node keep it; the k-th path entry has exactly the node the k-th result binds, if any. */
  ghost predicate BoundByResults(before: seq<Entry>, after: seq<Entry>, results: seq<BrowsePathResult>) {
    && |after| == |before|
    && (forall i :: 0 <= i < |before| ==> after[i] == before[i].(nodeRef := after[i].nodeRef))
    && (forall i :: 0 <= i < |before| && before[i].nodeRef.Known? ==> after[i] == before[i])
    && (forall k, id :: 0 <= k < |Pending(before)| && Pending(before)[k].0 < |after| ==>
          (after[Pending(before)[k].0].nodeRef == Known(id) <==> k < |results| && Binds(results[k], id)))
  }

  lemma ResultsBind(entries: seq<Entry>, results: seq<BrowsePathResult>, current: seq<Entry>)
    requires
      var pending := Pending(entries);
      WrittenByRank(entries, pending, Translated(|pending|, results), |pending|, current)
    ensures BoundByResults(entries, current, results)
  {
    PendingIndexes(entries);
    var pending := Pending(entries);
    var answers := Translated(|pending|, results);
    forall i | 0 <= i < |entries|
      ensures current[i] == entries[i].(nodeRef := current[i].nodeRef)
      ensures entries[i].nodeRef.Known? ==> current[i] == entries[i]
    {
      if k :| 0 <= k < |pending| && pending[k].0 == i {
        assert current[i] == Write(entries[i], answers[k]);
      }
    }
    forall k, id | 0 <= k < |pending| && pending[k].0 < |current|
      ensures current[pending[k].0].nodeRef == Known(id) <==> k < |results| && Binds(results[k], id)
    {
      TranslatedBinds(|pending|, results, k, id);
      assert current[pending[k].0] == Write(entries[pending[k].0], answers[k]);
    }
  }

  /** Resolve one planned device type with the session's answers to one batch request. */
  method ResolvePlan(plan: Plan, results: seq<BrowsePathResult>) returns (mapping: ResolvedMapping)
    modifies plan
    ensures BoundByResults(old(plan.entries), plan.entries, results)
    ensures mapping ==
      ResolvedMapping(plan.deviceTypeId, plan.deviceTypeName, plan.rootNodeId, Grouped(Collect(plan.entries)))
    ensures mapping.nodes ==
      Grouped(ResolvedAlone(old(plan.entries), Translated(|Pending(old(plan.entries))|, results)))
  {
    var pending := plan.PendingPaths();
    ghost var entries := plan.entries;
    PendingIndexes(entries);
    var answers := Translated(|pending|, results);
    for k := 0 to |pending|
      invariant WrittenByRank(entries, pending, answers, k, plan.entries)
    {
      var index := pending[k].0;
      if answers[k].Some? {
        plan.SetResolved(index, answers[k].value);
      }
    }
    ResultsBind(entries, results, plan.entries);
    RankIsOrder(entries, answers, plan.entries);
    CollectWritten(entries, answers);
    mapping := plan.Finish();
  }

  /** Writing by index gives what taking the answers in order gives. */
  lemma RankIsOrder(entries: seq<Entry>, answers: seq<Option<NodeId>>, current: seq<Entry>)
    requires |answers| == |Pending(entries)|
    requires WrittenByRank(entries, Pending(entries), answers, |answers|, current)
    ensures current == Written(entries, answers)
  {
    PendingIndexes(entries);
    forall i | 0 <= i < |entries| ensures current[i] == Written(entries, answers)[i] {
      WrittenAt(entries, answers, i);
      PrefixOfPending(entries, i);
      var rank := |Pending(entries[..i])|;
      if entries[i].nodeRef.Path? {
        assert Pending(entries)[rank].0 == i;
      }
    }
  }

  lemma {:induction false} PrefixOfPending(entries: seq<Entry>, i: nat)
    requires i < |entries|
    ensures entries[i].nodeRef.Path? ==>
      |Pending(entries[..i])| < |Pending(entries)|
      && Pending(entries)[|Pending(entries[..i])|] == (i, entries[i].nodeRef.path)
  {
    var n := |entries| - 1;
    if i < n {
      PrefixOfPending(entries[..n], i);
      assert entries[..n][..i] == entries[..i];
    }
  }

  /** Entry `i` takes the answer at the number of path entries before it. */
  lemma {:induction false} WrittenAt(entries: seq<Entry>, answers: seq<Option<NodeId>>, i: nat)
    requires i < |entries|
    ensures Written(entries, answers)[i] ==
      var rank := |Pending(entries[..i])|;
      if entries[i].nodeRef.Path? && rank < |answers| then Write(entries[i], answers[rank]) else entries[i]
  {
    if i > 0 {
      PendingFront(entries[..i]);
      assert entries[..i][1..] == entries[1..][..i - 1];
      assert entries[1..][i - 1] == entries[i];
      if entries[0].nodeRef.Known? || answers == [] {
        WrittenAt(entries[1..], answers, i - 1);
      } else {
        WrittenAt(entries[1..], answers[1..], i - 1);
      }
    }
  }

  lemma {:induction false} PendingFront(entries: seq<Entry>)
    requires entries != []
    ensures |Pending(entries)| == (if entries[0].nodeRef.Path? then 1 else 0) + |Pending(entries[1..])|
  {
    var n := |entries| - 1;
    if n > 0 {
      PendingFront(entries[..n]);
      assert entries[..n][1..] == entries[1..][..n - 1];
    }
  }

  function CollectedFrom(e: Entry): seq<ResolvedEntry> {
    if e.nodeRef.Known? then [ResolvedEntry(e.nodeRef.nodeId, e.actions, e.delivery)] else []
  }

  lemma {:induction false} CollectFront(e: Entry, rest: seq<Entry>, entries: seq<Entry>)
    requires entries == [e] + rest
    ensures Collect(entries) == CollectedFrom(e) + Collect(rest)
  {
    var n := |rest|;
    if n > 0 {
      CollectFront(e, rest[..n - 1], entries[..n]);
      assert entries[n] == rest[n - 1];
    } else {
      assert entries[..0] == [];
    }
  }

  predicate CollectsAlone(entries: seq<Entry>, answers: seq<Option<NodeId>>, written: seq<Entry>) {
    Collect(written) == ResolvedAlone(entries, answers)
  }

  lemma CollectWrittenFront(entries: seq<Entry>, answers: seq<Option<NodeId>>, e: Entry, left: seq<Option<NodeId>>,
                            rest: seq<Entry>, written: seq<Entry>)
    requires entries != [] && written == [e] + rest && CollectsAlone(entries[1..], left, rest)
    requires
      if entries[0].nodeRef.Known? || answers == [] then e == entries[0] && left == answers
      else e == Write(entries[0], answers[0]) && left == answers[1..]
    ensures CollectsAlone(entries, answers, written)
  {
    CollectFront(e, rest, written);
  }

  lemma {:induction false} CollectWritten(entries: seq<Entry>, answers: seq<Option<NodeId>>)
    ensures CollectsAlone(entries, answers, Written(entries, answers))
  {
    if entries != [] {
      if entries[0].nodeRef.Known? || answers == [] {
        CollectWritten(entries[1..], answers);
        CollectWrittenFront(entries, answers, entries[0], answers, Written(entries[1..], answers),
                            Written(entries, answers));
      } else {
        CollectWritten(entries[1..], answers[1..]);
        CollectWrittenFront(entries, answers, Write(entries[0], answers[0]), answers[1..],
                            Written(entries[1..], answers[1..]), Written(entries, answers));
      }
    }
  }

  /** A server that answers each path by the path alone: every answer list it gives agrees with it. */
  predicate AnswersByPath(server: BrowsePath -> Option<NodeId>, entries: seq<Entry>, answers: seq<Option<NodeId>>) {
    && |answers| == |Pending(entries)|
    && forall k :: 0 <= k < |answers| ==> answers[k] == server(Pending(entries)[k].1)
  }

  /** An entry resolved with no other entry in sight. */
  function ResolveOne(server: BrowsePath -> Option<NodeId>, e: Entry): Option<ResolvedEntry> {
    match e.nodeRef
    case Known(id) => Some(ResolvedEntry(id, e.actions, e.delivery))
    case Path(path) =>
      match server(path)
      case Some(id) => Some(ResolvedEntry(id, e.actions, e.delivery))
      case None => None
  }

  function ResolveEach(server: BrowsePath -> Option<NodeId>, entries: seq<Entry>): seq<ResolvedEntry> {
    if entries == [] then [] else Singleton(ResolveOne(server, entries[0])) + ResolveEach(server, entries[1..])
  }

  /** Against such a server the one batch request finds what a request per entry would find. */
  lemma {:induction false} BatchIsEntryByEntry(server: BrowsePath -> Option<NodeId>, entries: seq<Entry>,
                                               answers: seq<Option<NodeId>>)
    requires AnswersByPath(server, entries, answers)
    ensures ResolvedAlone(entries, answers) == ResolveEach(server, entries)
  {
    if entries != [] {
      PendingShift(entries);
      var rest := if entries[0].nodeRef.Path? then answers[1..] else answers;
      var pending, tail := Pending(entries), Pending(entries[1..]);
      if entries[0].nodeRef.Path? {
        forall k | 0 <= k < |rest| ensures rest[k] == server(tail[k].1) {
          assert rest[k] == answers[k + 1] && pending[k + 1].1 == tail[k].1;
        }
      } else {
        forall k | 0 <= k < |rest| ensures rest[k] == server(tail[k].1) {
          assert pending[k].1 == tail[k].1;
        }
      }
      BatchIsEntryByEntry(server, entries[1..], rest);
    }
  }

  /** Dropping the first entry drops its pending path and moves the others down by one. */
  lemma {:induction false} PendingShift(entries: seq<Entry>)
    requires entries != []
    ensures
      var own := if entries[0].nodeRef.Path? then 1 else 0;
      && |Pending(entries)| == own + |Pending(entries[1..])|
      && (own == 1 ==> Pending(entries)[0].1 == entries[0].nodeRef.path)
      && forall k :: 0 <= k < |Pending(entries[1..])| ==> Pending(entries)[own + k].1 == Pending(entries[1..])[k].1
  {
    var n := |entries| - 1;
    if n > 0 {
      PendingShift(entries[..n]);
      assert entries[..n][1..] == entries[1..][..n - 1];
    }
  }

  // ---- what grouping keeps ----

  function AllActions(nodes: seq<ResolvedNode>): multiset<Action> {
    if nodes == [] then multiset{} else AllActions(nodes[..|nodes| - 1]) + multiset(nodes[|nodes| - 1].actions)
  }

  function EntryActions(es: seq<ResolvedEntry>): multiset<Action> {
    if es == [] then multiset{} else EntryActions(es[..|es| - 1]) + multiset(es[|es| - 1].actions)
  }

  lemma {:induction false} AllActionsUpdate(nodes: seq<ResolvedNode>, i: nat, node: ResolvedNode,
                                            more: multiset<Action>)
    requires i < |nodes| && multiset(node.actions) == multiset(nodes[i].actions) + more
    ensures AllActions(nodes[i := node]) == AllActions(nodes) + more
  {
    var n := |nodes| - 1;
    var updated := nodes[i := node];
    if i < n {
      AllActionsUpdate(nodes[..n], i, node, more);
      assert updated[..n] == nodes[..n][i := node];
    } else {
      assert updated[..n] == nodes[..n];
    }
  }

  lemma InsertAddsActions(nodes: seq<ResolvedNode>, e: ResolvedEntry)
    ensures AllActions(Insert(nodes, e)) == AllActions(nodes) + multiset(e.actions)
  {
    var at := FindNode(nodes, KeyOf(e));
    if at.Some? {
      var node := nodes[at.value].(actions := nodes[at.value].actions + e.actions);
      AllActionsUpdate(nodes, at.value, node, multiset(e.actions));
    } else {
      var node := ResolvedNode(e.nodeId, e.actions, e.delivery);
      assert (nodes + [node])[..|nodes|] == nodes;
    }
  }

  lemma GroupedFold(es: seq<ResolvedEntry>)
    requires es != []
    ensures Grouped(es) == Insert(Grouped(es[..|es| - 1]), es[|es| - 1])
  {
    GroupStep(es[..|es| - 1], es[|es| - 1]);
    assert es == es[..|es| - 1] + [es[|es| - 1]];
  }

  /** Grouping conserves actions: every action of every resolved entry is in exactly one node. */
  lemma {:induction false} GroupingConservesActions(es: seq<ResolvedEntry>)
    ensures AllActions(Grouped(es)) == EntryActions(es)
  {
    if es == [] {
      assert |Grouped(es)| == 0;
    } else {
      GroupingConservesActions(es[..|es| - 1]);
      GroupedFold(es);
      InsertAddsActions(Grouped(es[..|es| - 1]), es[|es| - 1]);
    }
  }

  /** Each entry's actions stand in its node as one block, behind the blocks of the earlier entries
      of the same node and before those of the later ones. */
  lemma ActionsKeepEntryOrder(es: seq<ResolvedEntry>, i: nat)
    requires i < |es|
    ensures
      var key := KeyOf(es[i]);
      exists j :: 0 <= j < |Grouped(es)| && NodeKey(Grouped(es)[j]) == key
        && ActionsFor(es[..i], key) + es[i].actions <= Grouped(es)[j].actions
  {
    var key := KeyOf(es[i]);
    assert key in FirstKeys(es);
    var j :| 0 <= j < |FirstKeys(es)| && FirstKeys(es)[j] == key;
    ActionsForPrefix(es, i + 1, key);
    assert es[..i + 1][..i] == es[..i];
    assert NodeKey(Grouped(es)[j]) == key;
  }

  lemma {:induction false} ActionsForPrefix(es: seq<ResolvedEntry>, n: nat, key: Key)
    requires n <= |es|
    ensures ActionsFor(es[..n], key) <= ActionsFor(es, key)
  {
    if n < |es| {
      ActionsForPrefix(es[..|es| - 1], n, key);
      assert es[..|es| - 1][..n] == es[..n];
    } else {
      assert es[..n] == es;
    }
  }

  // ---- read groups and subscribed nodes ----

  /** The nodes of one read schedule; with no schedule, the subscribed nodes. */
  function WithSchedule(nodes: seq<ResolvedNode>, schedule: Option<ReadSchedule>): seq<ResolvedNode> {
    if nodes == [] then []
    else
      var n := |nodes| - 1;
      WithSchedule(nodes[..n], schedule) + if ScheduleOf(nodes[n].delivery) == schedule then [nodes[n]] else []
  }

  /** The nodes to read in one loop, by schedule. */
  method ReadGroups(nodes: seq<ResolvedNode>) returns (groups: map<ReadSchedule, seq<ResolvedNode>>)
    ensures forall s :: s in groups <==> WithSchedule(nodes, Some(s)) != []
    ensures forall s :: s in groups ==> groups[s] == WithSchedule(nodes, Some(s))
  {
    groups := map[];
    for i := 0 to |nodes|
      invariant forall s :: s in groups <==> WithSchedule(nodes[..i], Some(s)) != []
      invariant forall s :: s in groups ==> groups[s] == WithSchedule(nodes[..i], Some(s))
    {
      assert nodes[..i + 1][..i] == nodes[..i];
      var schedule := ScheduleOf(nodes[i].delivery);
      if schedule.Some? {
        var s := schedule.value;
        groups := groups[s := (if s in groups then groups[s] else []) + [nodes[i]]];
      }
    }
    assert nodes[..|nodes|] == nodes;
  }

  lemma {:induction false} WithScheduleMembers(nodes: seq<ResolvedNode>, schedule: Option<ReadSchedule>,
                                               node: ResolvedNode)
    ensures multiset(WithSchedule(nodes, schedule))[node]
         == if ScheduleOf(node.delivery) == schedule then multiset(nodes)[node] else 0
  {
    if nodes != [] {
      var n := |nodes| - 1;
      WithScheduleMembers(nodes[..n], schedule, node);
      assert nodes == nodes[..n] + [nodes[n]];
    }
  }

  predicate DistinctNodeIds(nodes: seq<ResolvedNode>) {
    forall i, j :: 0 <= i < j < |nodes| ==> nodes[i].nodeId != nodes[j].nodeId
  }

  lemma {:induction false} SameScheduleDistinctIds(nodes: seq<ResolvedNode>, schedule: Option<ReadSchedule>)
    requires forall i, j :: 0 <= i < j < |nodes| ==> NodeKey(nodes[i]) != NodeKey(nodes[j])
    ensures DistinctNodeIds(WithSchedule(nodes, schedule))
    ensures forall x :: x in WithSchedule(nodes, schedule) ==> x in nodes && ScheduleOf(x.delivery) == schedule
  {
    if nodes != [] {
      var n := |nodes| - 1;
      SameScheduleDistinctIds(nodes[..n], schedule);
      var front := WithSchedule(nodes[..n], schedule);
      if ScheduleOf(nodes[n].delivery) == schedule {
        forall i | 0 <= i < |front| ensures front[i].nodeId != nodes[n].nodeId {
          assert front[i] in nodes[..n];
          var k :| 0 <= k < n && nodes[k] == front[i];
          assert NodeKey(nodes[k]) != NodeKey(nodes[n]);
        }
      }
    }
  }

  /** The read groups and the subscribed nodes of a finished mapping partition its nodes, and no
      group, nor the subscription, names a node twice. */
  lemma GroupsPartitionNodes(es: seq<ResolvedEntry>, node: ResolvedNode, schedule: Option<ReadSchedule>)
    ensures
      var nodes := Grouped(es);
      && multiset(WithSchedule(nodes, schedule))[node]
           == (if schedule == ScheduleOf(node.delivery) then multiset(nodes)[node] else 0)
      && DistinctNodeIds(WithSchedule(nodes, schedule))
  {
    var nodes := Grouped(es);
    WithScheduleMembers(nodes, schedule, node);
    var keys := FirstKeys(es);
    assert forall i, j :: 0 <= i < j < |nodes| ==> keys[i] != keys[j];
    SameScheduleDistinctIds(nodes, schedule);
  }
}
