/** What a value sends for an action, in the terms in which the action was authored
    (crates/gateway/src/publish.rs, crates/mapping/src/payload.rs, crates/mapping/src/value.rs). */
module Authored {
  import opened Text
  import opened Model
  import opened Resolve
  import opened Payload
  import opened Publish

  /** A bad status, or no value. */
  predicate IsDropped(v: DataValue) {
    v.isGood == Some(false) || v.value == None || v.value == Some(Empty)
  }

  lemma DroppedValuesDoNothing(s: State, dedup: bool, actions: seq<Action>, node: string, v: DataValue, now: string)
    requires IsDropped(v)
    ensures AfterAccept(s, dedup, actions, node, v, now) == s
  {
    assert IsBad(v);
  }

  /** Any other value takes the actions of its node, one after the other. */
  lemma OtherValuesAct(s: State, dedup: bool, actions: seq<Action>, action: Action, node: string, v: DataValue,
                       now: string)
    requires !IsDropped(v)
    ensures AfterAccept(s, dedup, actions + [action], node, v, now)
         == AfterAction(AfterAccept(s, dedup, actions, node, v, now), dedup, action, node, v, now)
    ensures AfterAccept(s, dedup, [], node, v, now) == s
  {
    assert !IsBad(v);
    assert (actions + [action])[..|actions|] == actions;
  }

  // ---- measurements ----

  /** A number goes to the batch of the type authored, under the names authored, and is counted; a value that
      is none changes no batch. */
  lemma MeasurementAsAuthored(s: State, dedup: bool, m: MeasurementCreation, kind: string, node: string, v: DataValue,
                              now: string)
    requires m.kind.Some? && Trim(m.kind.value) == kind && kind != ""
    ensures
      var after := AfterAction(s, dedup, Measurement(m), node, v, now);
      && kind in after.batch
      && TakesNumbers(BatchAt(s, kind), after.batch[kind], IsMeasured(v), m, node, v, now)
      && after.pending == s.pending + (if IsMeasured(v) then 1 else 0)
      && (forall k :: k != kind ==> (k in after.batch <==> k in s.batch))
      && (forall k :: k != kind && k in s.batch ==> after.batch[k] == s.batch[k])
      && after.sent == s.sent && after.lastEvent == s.lastEvent && after.lastAlarm == s.lastAlarm
  {
    TypeIsAuthored(m, kind);
    AddTakes(BatchAt(s, kind), m, node, v, now);
  }

  lemma NoTypeNoMeasurement(s: State, dedup: bool, m: MeasurementCreation, node: string, v: DataValue, now: string)
    requires m.kind.None? || IsBlank(m.kind.value)
    ensures AfterAction(s, dedup, Measurement(m), node, v, now) == s
  {
    BlankIsTrimmedAway(m.kind.GetOr(""));
  }

  // ---- events ----

  /** How a value is shown in a text. */
  predicate IsShown(v: Variant, text: string) {
    match v
    case Empty => text == ""
    case Boolean(flag) => text == if flag then "true" else "false"
    case Numeric(_, rendered) => text == rendered
    case Chars(chars, _) => text == chars
    case Other(rendered) => text == rendered
  }

  /** The authored text with the value in place of `${value}`, the time, the node, and the authored static
      fragments. */
  ghost predicate IsEventOf(body: EventBody, e: EventCreation, node: string, v: DataValue, now: string)
    requires v.value.Some?
  {
    && IsTimeOf(body.time, v, now) && body.node == node && body.value == v
    && body.statics == (if e.staticFragments.Some? then e.staticFragments.value else [])
    && forall shown | IsShown(v.value.value, shown) ::
         body.text == ReplaceAll(if e.text.Some? then e.text.value else "", "${value}", shown)
  }

  /** An event goes out at once, unless repeats are suppressed and the node's last event of this type said
      the same. */
  lemma EventAsAuthored(s: State, dedup: bool, e: EventCreation, kind: string, node: string, v: DataValue, now: string)
    returns (body: EventBody)
    requires e.kind == Some(kind) && v.value.Some?
    ensures IsEventOf(body, e, node, v, now)
    ensures
      var after, key := AfterAction(s, dedup, Event(e), node, v, now), (node, kind);
      if dedup && key in s.lastEvent && s.lastEvent[key] == body.text then after == s
      else
        && after.sent == s.sent + [Happened(kind, body)]
        && after.batch == s.batch && after.pending == s.pending && after.lastAlarm == s.lastAlarm
        && after.lastEvent == if dedup then s.lastEvent[key := body.text] else s.lastEvent
  {
    body := EventOf(e, node, v, now);
    assert IsShown(v.value.value, AsText(v.value.value));
  }

  // ---- alarms ----

  /** The severity authored, in lower case and without the blanks around it, or else `major`. */
  predicate IsSeverity(severity: string, authored: Option<string>) {
    if authored.Some? && !IsBlank(authored.value) then severity == LowerAll(Trim(authored.value))
    else severity == "major"
  }

  predicate IsAlarmOf(body: AlarmBody, a: AlarmCreation, node: string, v: DataValue, now: string) {
    && IsTimeOf(body.time, v, now) && body.node == node && IsSeverity(body.severity, a.severity)
    && body.text == (if a.text.Some? then a.text.value else "")
    && body.statics == (if a.staticFragments.Some? then a.staticFragments.value else [])
  }

  /** An alarm is raised or cleared when the value says otherwise than the node's last one of this type; a
      value that says neither does nothing. */
  lemma AlarmAsAuthored(s: State, dedup: bool, a: AlarmCreation, kind: string, node: string, v: DataValue, now: string)
    returns (body: AlarmBody)
    requires a.kind == Some(kind) && v.value.Some?
    ensures IsAlarmOf(body, a, node, v, now)
    ensures
      var after, key := AfterAction(s, dedup, Alarm(a), node, v, now), (node, kind);
      && after.batch == s.batch && after.pending == s.pending && after.lastEvent == s.lastEvent
      && (Raises(v.value.value) && !(key in s.lastAlarm && s.lastAlarm[key]) ==>
            after.sent == s.sent + [Raised(kind, body)] && after.lastAlarm == s.lastAlarm[key := true])
      && (Clears(v.value.value) && !(key in s.lastAlarm && !s.lastAlarm[key]) ==>
            after.sent == s.sent + [Cleared(kind, node)] && after.lastAlarm == s.lastAlarm[key := false])
      && (Raises(v.value.value) && key in s.lastAlarm && s.lastAlarm[key] ==> after == s)
      && (Clears(v.value.value) && key in s.lastAlarm && !s.lastAlarm[key] ==> after == s)
      && (!Raises(v.value.value) && !Clears(v.value.value) ==> after == s)
  {
    body := AlarmOf(a, node, v, now);
    BlankIsTrimmedAway(a.severity.GetOr(""));
    FlagIsRead(v.value.value);
  }

  /** In lower case: letters from A to Z in their other case, and nothing else changed. */
  lemma LoweredByLetter(s: string, i: nat)
    requires i < |s|
    ensures |LowerAll(s)| == |s|
    ensures LowerAll(s)[i] as int == if 'A' <= s[i] <= 'Z' then s[i] as int + 32 else s[i] as int
  {
  }
}
