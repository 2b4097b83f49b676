/** Device types as they arrive from inventory or from a file (crates/mapping/src/model.rs). */
module Model {
  import opened Text

  /** A double, as far as the gateway tells doubles apart. */
  datatype Float = Finite(value: real) | Infinite(positive: bool) | NotANumber

  datatype MeasurementCreation = MeasurementCreation(
    kind: Option<string>, series: Option<string>, fragment: Option<string>, unit: Option<string>,
    staticFragments: Option<seq<string>>)

  datatype EventCreation = EventCreation(
    kind: Option<string>, text: Option<string>, staticFragments: Option<seq<string>>)

  datatype AlarmCreation = AlarmCreation(
    kind: Option<string>, text: Option<string>, severity: Option<string>, staticFragments: Option<seq<string>>)

  datatype MappingEntry = MappingEntry(
    name: Option<string>, browsePath: seq<string>, referencedNodeId: Option<string>,
    measurement: Option<MeasurementCreation>, event: Option<EventCreation>, alarm: Option<AlarmCreation>)

  datatype SubscriptionParameters = SubscriptionParameters(
    samplingRate: Option<Float>, queueSize: Option<nat>, deadbandType: Option<string>,
    deadbandValue: Option<Float>, ranges: Option<string>, trigger: Option<string>,
    discardOldest: Option<bool>)

  datatype CyclicReadParameters = CyclicReadParameters(rate: Option<nat>, maxAge: Option<Float>)

  datatype SubscriptionType = SubscriptionType(
    kind: Option<string>, cyclicRead: Option<CyclicReadParameters>, parameters: Option<SubscriptionParameters>)

  datatype OverriddenSubscription = OverriddenSubscription(
    browsePath: seq<string>, subscriptionType: Option<SubscriptionType>)

  datatype ApplyConstraints = ApplyConstraints(matchesServerIds: seq<string>, matchesNodeIds: seq<string>)

  datatype DeviceType = DeviceType(
    name: string, enabled: bool, mappings: seq<MappingEntry>, subscriptionType: Option<SubscriptionType>,
    overrides: seq<OverriddenSubscription>, rootNodeId: Option<string>, constraints: Option<ApplyConstraints>)

  datatype Origin = Pull | Push

  datatype LoadedDeviceType = LoadedDeviceType(
    id: string, origin: Origin, fingerprint: string, deviceType: DeviceType)

  const NO_PARAMETERS := SubscriptionParameters(None, None, None, None, None, None, None)

  datatype SubscriptionKind = Subscribed | CyclicallyRead | Nothing

  function KindOf(t: SubscriptionType): SubscriptionKind {
    if t.kind.None? then Nothing
    else
      var kind := Trim(t.kind.value);
      if EqualsIgnoreCase(kind, "Subscription") then Subscribed
      else if EqualsIgnoreCase(kind, "CyclicRead") then CyclicallyRead
      else Nothing
  }

  predicate HasDeadband(p: SubscriptionParameters) {
    p.deadbandValue.Some? && p.deadbandType in {Some("Absolute"), Some("Percent")}
  }

  predicate IsRangeBound(s: string) {
    ParseUnsigned(s, U32_MAX).Some?
  }

  /** One dimension or more between commas, each an index or two around a colon. */
  predicate IsNumericRange(s: string) {
    s != [] && forall dimension :: dimension in SplitOn(s, ',') ==>
      var parts := SplitOn(dimension, ':');
      |parts| <= 2 && forall part :: part in parts ==> IsRangeBound(part)
  }

  /** No parameter is one the services would refuse. */
  predicate AreValid(p: SubscriptionParameters) {
    && (p.deadbandType.Some? && p.deadbandValue.Some? ==> HasDeadband(p))
    && (p.trigger.Some? ==> p.trigger.value in {"Status", "StatusValue", "StatusValueTimestamp"})
    && (NonBlank(p.ranges).Some? ==> IsNumericRange(NonBlank(p.ranges).value))
  }

  /** The measurement type, trimmed; nothing when it is blank. */
  function MeasurementType(m: MeasurementCreation): Option<string> {
    NonBlank(m.kind)
  }

  function Alphanumeric(s: string): string {
    if s == [] then []
    else
      var c := s[0];
      (if IsDigit(c) || 'a' <= c <= 'z' || 'A' <= c <= 'Z' then [c] else []) + Alphanumeric(s[1..])
  }

  function SeriesName(m: MeasurementCreation, node: string): string {
    NonBlank(m.series).GetOr("series_" + Alphanumeric(node))
  }

  function FragmentName(m: MeasurementCreation, node: string): string {
    NonBlank(m.fragment).GetOr("measurement_" + Alphanumeric(node))
  }

  // ---- as authored ----

  predicate IsAlphanumeric(c: char) {
    '0' <= c <= '9' || 'a' <= c <= 'z' || 'A' <= c <= 'Z'
  }

  function AlphanumericPart(c: char): string {
    if IsAlphanumeric(c) then [c] else []
  }

  lemma AlphanumericFront(c: char, s: string, whole: string)
    requires whole == [c] + s
    ensures Alphanumeric(whole) == AlphanumericPart(c) + Alphanumeric(s)
  {
    assert whole[1..] == s;
  }

  /** What stays of `whole` is what stays of `s`, then what stays of `t`. */
  predicate StaysInOrder(s: string, t: string, whole: string) {
    Alphanumeric(whole) == Alphanumeric(s) + Alphanumeric(t)
  }

  lemma OneCharacterInFront(c: char, s: string, t: string, rest: string, cs: string, whole: string)
    requires cs == [c] + s && whole == [c] + rest && StaysInOrder(s, t, rest)
    ensures StaysInOrder(cs, t, whole)
  {
    AlphanumericFront(c, s, cs);
    AlphanumericFront(c, rest, whole);
  }

  /** Letters and digits stay, in order, and nothing else does: piece by piece and character by character. */
  lemma {:induction false} AlphanumericOf(s: string, t: string)
    ensures StaysInOrder(s, t, s + t)
  {
    if s == [] {
      assert s + t == t;
    } else {
      AlphanumericOf(s[1..], t);
      OneCharacterInFront(s[0], s[1..], t, s[1..] + t, s, s + t);
    }
  }

  /** The type of a measurement is what was authored, without the blanks around it, unless it is blank. */
  lemma TypeIsAuthored(m: MeasurementCreation, kind: string)
    ensures MeasurementType(m) == Some(kind) <==> m.kind.Some? && Trim(m.kind.value) == kind && kind != ""
  {
  }

  /** The name was authored, or else it is made from the node. */
  predicate IsNamed(name: string, authored: Option<string>, prefix: string, node: string) {
    if authored.Some? && !IsBlank(authored.value) then name == Trim(authored.value)
    else name == prefix + Alphanumeric(node)
  }

  lemma NamesAreAuthored(m: MeasurementCreation, node: string)
    ensures IsNamed(FragmentName(m, node), m.fragment, "measurement_", node)
    ensures IsNamed(SeriesName(m, node), m.series, "series_", node)
  {
    BlankIsTrimmedAway(m.fragment.GetOr(""));
    BlankIsTrimmedAway(m.series.GetOr(""));
  }

  /** A subscription type is of the kind it names, whatever the case and the blanks around it. */
  predicate IsAuthored(t: SubscriptionType, kind: string) {
    t.kind.Some? && EqualsIgnoreCase(Trim(t.kind.value), kind)
  }

  lemma KindIsAuthored(t: SubscriptionType)
    ensures KindOf(t).Subscribed? <==> IsAuthored(t, "Subscription")
    ensures KindOf(t).CyclicallyRead? <==> IsAuthored(t, "CyclicRead")
  {
    assert |LowerAll("CyclicRead")| != |LowerAll("Subscription")|;
  }

  /** A deadband with a value but of no form that takes one. */
  predicate HasBadDeadband(p: SubscriptionParameters) {
    && p.deadbandValue.Some? && p.deadbandType.Some?
    && p.deadbandType.value != "Absolute" && p.deadbandType.value != "Percent"
  }

  predicate HasBadTrigger(p: SubscriptionParameters) {
    && p.trigger.Some? && p.trigger.value != "Status" && p.trigger.value != "StatusValue"
    && p.trigger.value != "StatusValueTimestamp"
  }

  predicate HasBadRanges(p: SubscriptionParameters) {
    p.ranges.Some? && !IsBlank(p.ranges.value) && !IsNumericRange(Trim(p.ranges.value))
  }

  /** Parameters are refused for one of three reasons, and for no other. */
  lemma InvalidFor(p: SubscriptionParameters)
    ensures !AreValid(p) <==> HasBadDeadband(p) || HasBadTrigger(p) || HasBadRanges(p)
  {
    BlankIsTrimmedAway(p.ranges.GetOr(""));
  }

  lemma PartsOf(dimension: string)
    requires ',' !in dimension && dimension != ""
    ensures IsNumericRange(dimension) <==>
      var parts := SplitOn(dimension, ':');
      |parts| <= 2 && forall part :: part in parts ==> IsRangeBound(part)
  {
    SplitOnWhole(dimension, ',');
    assert [dimension][0] == dimension;
  }

  /** Digits in the range of 32 bits, with or without a plus sign. */
  ghost predicate IsIndex(s: string) {
    exists digits, n: nat :: (s == digits || s == "+" + digits) && IsNumber(digits, n) && n <= 0xFFFF_FFFF
  }

  lemma BoundIsIndex(s: string)
    ensures IsRangeBound(s) <==> IsIndex(s)
  {
    if IsRangeBound(s) {
      UnsignedIs(s, U32_MAX, ParseUnsigned(s, U32_MAX).value);
    }
    if digits, n: nat :| (s == digits || s == "+" + digits) && IsNumber(digits, n) && n <= 0xFFFF_FFFF {
      UnsignedIs(s, U32_MAX, n);
    }
  }

  /** One dimension: an index, or two indexes around a colon. */
  lemma DimensionIs(a: string, b: string)
    requires ':' !in a && ',' !in a && ':' !in b && ',' !in b
    ensures IsNumericRange(a) <==> IsIndex(a)
    ensures IsNumericRange(a + ":" + b) <==> IsIndex(a) && IsIndex(b)
  {
    BoundIsIndex(a);
    BoundIsIndex(b);
    if a != "" {
      PartsOf(a);
    }
    SplitOnWhole(a, ':');
    assert [a][0] == a;
    PartsOf(a + ":" + b);
    SplitOnWhole(b, ':');
    SplitOnAppend(a, ':', b);
    assert [a] + [b] == [a, b] && [a, b][0] == a && [a, b][1] == b;
  }

  /** Dimensions are joined by commas: a range of ranges is a range, and each of its parts is one. */
  lemma RangesJoin(a: string, b: string)
    requires a != "" && b != ""
    ensures IsNumericRange(a + "," + b) <==> IsNumericRange(a) && IsNumericRange(b)
  {
    SplitOnConcat(a, ',', b);
    assert forall d :: d in SplitOn(a + "," + b, ',') <==> d in SplitOn(a, ',') || d in SplitOn(b, ',');
  }
}
