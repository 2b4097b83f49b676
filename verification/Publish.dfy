/** Turning values into messages: batching, change suppression, flushing
    (crates/gateway/src/publish.rs). */
module Publish {
  import opened Text
  import opened Model
  import opened Resolve
  import opened Payload
  import opened Ordered

  datatype EventBody = EventBody(time: string, text: string, node: string, value: DataValue, statics: seq<string>)
  datatype AlarmBody = AlarmBody(time: string, text: string, severity: string, node: string, statics: seq<string>)

  /** One attempted publish below the publisher's entity. A clear carries no payload on the wire; the
      model notes the node it is about. */
  datatype Attempt =
    | Measured(kind: string, body: map<string, Json>)
    | Happened(kind: string, event: EventBody)
    | Raised(kind: string, alarm: AlarmBody)
    | Cleared(kind: string, node: string)

  const VALUE_PLACEHOLDER := "${value}"

  function EventText(e: EventCreation, v: DataValue): string {
    ReplaceAll(e.text.GetOr(""), VALUE_PLACEHOLDER, AsText(v.value.GetOr(Empty)))
  }

  function EventOf(e: EventCreation, node: string, v: DataValue, now: string): EventBody {
    EventBody(Timestamp(v, now), EventText(e, v), node, v, e.staticFragments.GetOr([]))
  }

  function AlarmOf(a: AlarmCreation, node: string, v: DataValue, now: string): AlarmBody {
    AlarmBody(Timestamp(v, now), a.text.GetOr(""), LowerAll(NonBlank(a.severity).GetOr("major")), node,
              a.staticFragments.GetOr([]))
  }

  /** Suppression is per node and type. */
  type SuppressionKey = (string, string)

  datatype State = State(batch: map<string, Batch>, pending: nat, lastEvent: map<SuppressionKey, string>,
                         lastAlarm: map<SuppressionKey, bool>, sent: seq<Attempt>)

  const INITIAL := State(map[], 0, map[], map[], [])

  function BatchAt(s: State, kind: string): Batch {
    if kind in s.batch then s.batch[kind] else NO_BATCH
  }

  function Ensured(s: State, kind: string): State {
    s.(batch := s.batch[kind := BatchAt(s, kind)])
  }

  function Offered(s: State, kind: string, m: MeasurementCreation, node: string, v: DataValue, now: string): State {
    s.(batch := s.batch[kind := AfterAdd(BatchAt(s, kind), m, node, v, now)],
       pending := s.pending + if IsReadable(v) then 1 else 0)
  }

  lemma EnsuredThenOffered(s: State, kind: string, m: MeasurementCreation, node: string, v: DataValue, now: string)
    ensures Offered(Ensured(s, kind), kind, m, node, v, now) == Offered(s, kind, m, node, v, now)
  {
    var added := AfterAdd(BatchAt(s, kind), m, node, v, now);
    assert Ensured(s, kind).batch[kind := added] == s.batch[kind := added];
  }

  function AfterMeasurement(s: State, m: MeasurementCreation, node: string, v: DataValue, now: string): State {
    match MeasurementType(m)
    case None => s
    case Some(kind) => Offered(s, kind, m, node, v, now)
  }

  function AfterEvent(s: State, dedup: bool, e: EventCreation, node: string, v: DataValue, now: string): State {
    match e.kind
    case None => s
    case Some(kind) =>
      var body, key := EventOf(e, node, v, now), (node, kind);
      if !dedup then s.(sent := s.sent + [Happened(kind, body)])
      else if key in s.lastEvent && s.lastEvent[key] == body.text then s
      else s.(lastEvent := s.lastEvent[key := body.text], sent := s.sent + [Happened(kind, body)])
  }

  function AlarmAttempt(a: AlarmCreation, kind: string, node: string, v: DataValue, now: string,
                        active: bool): Attempt {
    if active then Raised(kind, AlarmOf(a, node, v, now)) else Cleared(kind, node)
  }

  function AfterAlarm(s: State, a: AlarmCreation, node: string, v: DataValue, now: string): State {
    if a.kind.None? || v.value.None? || AsBool(v.value.value).None? then s
    else
      var kind, active := a.kind.value, AsBool(v.value.value).value;
      var key := (node, kind);
      if key in s.lastAlarm && s.lastAlarm[key] == active then s
      else s.(lastAlarm := s.lastAlarm[key := active], sent := s.sent + [AlarmAttempt(a, kind, node, v, now, active)])
  }

  function AfterAction(s: State, dedup: bool, action: Action, node: string, v: DataValue, now: string): State {
    match action
    case Measurement(m) => AfterMeasurement(s, m, node, v, now)
    case Event(e) => AfterEvent(s, dedup, e, node, v, now)
    case Alarm(a) => AfterAlarm(s, a, node, v, now)
  }

  function AfterActions(s: State, dedup: bool, actions: seq<Action>, node: string, v: DataValue, now: string): State {
    if actions == [] then s
    else
      var n := |actions| - 1;
      AfterAction(AfterActions(s, dedup, actions[..n], node, v, now), dedup, actions[n], node, v, now)
  }

  function AfterAccept(s: State, dedup: bool, actions: seq<Action>, node: string, v: DataValue, now: string): State {
    if IsBad(v) then s else AfterActions(s, dedup, actions, node, v, now)
  }

  /** The messages of the batches, in the order of their types. */
  function Messages(batch: map<string, Batch>, kinds: seq<string>, now: string): seq<Attempt> {
    if kinds == [] then []
    else
      var n := |kinds| - 1;
      var message := if kinds[n] in batch then MessageOf(batch[kinds[n]], now) else None;
      if message.Some? then Messages(batch, kinds[..n], now) + [Measured(kinds[n], message.value)]
      else Messages(batch, kinds[..n], now)
  }

  lemma MessagesStep(batch: map<string, Batch>, kinds: seq<string>, i: nat, now: string)
    requires i < |kinds| && kinds[i] in batch
    ensures
      var message := MessageOf(batch[kinds[i]], now);
      Messages(batch, kinds[..i + 1], now) ==
        if message.Some? then Messages(batch, kinds[..i], now) + [Measured(kinds[i], message.value)]
        else Messages(batch, kinds[..i], now)
  {
    assert kinds[..i + 1][..i] == kinds[..i];
  }

  function AfterFlush(s: State, now: string): State {
    s.(batch := map[], pending := 0, sent := s.sent + Messages(s.batch, SortedKeys(s.batch.Keys), now))
  }

  /** What a map of builders holds. */
  ghost function Snapshot(builders: map<string, MeasurementBuilder>): (batches: map<string, Batch>)
    reads builders.Values
    ensures batches.Keys == builders.Keys
    ensures forall k :: k in builders ==> batches[k] == builders[k].Contents()
  {
    map k | k in builders :: builders[k].Contents()
  }

  lemma SnapshotAfter(builders: map<string, MeasurementBuilder>, before: map<string, Batch>, kind: string)
    requires kind in builders && builders.Keys == before.Keys
    requires forall k :: k in builders && k != kind ==> builders[k].Contents() == before[k]
    ensures Snapshot(builders) == before[kind := builders[kind].Contents()]
  {
  }

  /** The publisher of one device: measurements wait for a flush, events and alarms do not. */
  class Publisher {
    const entity: string
    const dedupEvents: bool
    var lastEvent: map<SuppressionKey, string>
    var lastAlarm: map<SuppressionKey, bool>
    var batch: map<string, MeasurementBuilder>
    var pendingSeries: nat
    /** What was handed to the broker, in order. */
    var sent: seq<Attempt>

    constructor (entity: string, dedupEvents: bool)
      ensures Valid() && batch.Values == {}
      ensures this.entity == entity && this.dedupEvents == dedupEvents
      ensures Current() == INITIAL
    {
      this.entity, this.dedupEvents := entity, dedupEvents;
      lastEvent, lastAlarm, batch, pendingSeries, sent := map[], map[], map[], 0, [];
    }

    /** Every type has a builder of its own. */
    ghost predicate Valid()
      reads this
    {
      forall k, l :: k in batch && l in batch && k != l ==> batch[k] != batch[l]
    }

    ghost function Current(): State
      reads this, batch.Values
    {
      State(Snapshot(batch), pendingSeries, lastEvent, lastAlarm, sent)
    }

    /** Make the builder of a type on first use. */
    method EnsureBuilder(kind: string)
      requires Valid()
      modifies `batch
      ensures Valid() && fresh(batch.Values - old(batch.Values)) && kind in batch
      ensures Current() == Ensured(old(Current()), kind)
    {
      if kind !in batch {
        var builder := new MeasurementBuilder();
        batch := batch[kind := builder];
      }
      assert Snapshot(batch) == old(Snapshot(batch))[kind := BatchAt(old(Current()), kind)];
    }

    /** Offer a value to the builder of a type. */
    method Offer(kind: string, m: MeasurementCreation, node: string, v: DataValue, now: string)
      requires Valid() && kind in batch
      modifies batch[kind], `pendingSeries
      ensures Valid() && batch == old(batch)
      ensures Current() == Offered(old(Current()), kind, m, node, v, now)
    {
      ghost var before := Snapshot(batch);
      var added := batch[kind].Add(m, node, v, now);
      if added {
        pendingSeries := pendingSeries + 1;
      }
      SnapshotAfter(batch, before, kind);
    }

    method AddMeasurement(m: MeasurementCreation, node: string, v: DataValue, now: string)
      requires Valid()
      modifies this, batch.Values
      ensures Valid() && fresh(batch.Values - old(batch.Values))
      ensures Current() == AfterMeasurement(old(Current()), m, node, v, now)
    {
      var kind := MeasurementType(m);
      ghost var before := Current();
      if kind.Some? {
        EnsureBuilder(kind.value);
        ghost var ensured := Current();
        Offer(kind.value, m, node, v, now);
        EnsuredThenOffered(before, kind.value, m, node, v, now);
        assert Current() == Offered(ensured, kind.value, m, node, v, now);
      }
    }

    method Announce(e: EventCreation, node: string, v: DataValue, now: string)
      modifies this
      ensures batch == old(batch) && pendingSeries == old(pendingSeries)
      ensures Current() == AfterEvent(old(Current()), dedupEvents, e, node, v, now)
    {
      if e.kind.None? {
        return;
      }
      var kind := e.kind.value;
      var body := EventOf(e, node, v, now);
      if dedupEvents {
        var key := (node, kind);
        if key in lastEvent && lastEvent[key] == body.text {
          return;
        }
        lastEvent := lastEvent[key := body.text];
      }
      sent := sent + [Happened(kind, body)];
    }

    method Signal(a: AlarmCreation, node: string, v: DataValue, now: string)
      modifies this
      ensures batch == old(batch) && pendingSeries == old(pendingSeries)
      ensures Current() == AfterAlarm(old(Current()), a, node, v, now)
    {
      if a.kind.None? || v.value.None? {
        return;
      }
      var active := AsBool(v.value.value);
      if active.None? {
        return;
      }
      var kind := a.kind.value;
      var key := (node, kind);
      if key in lastAlarm && lastAlarm[key] == active.value {
        return;
      }
      lastAlarm := lastAlarm[key := active.value];
      if active.value {
        sent := sent + [Raised(kind, AlarmOf(a, node, v, now))];
      } else {
        sent := sent + [Cleared(kind, node)];
      }
    }

    /** Let a value take all its actions, unless it is bad. */
    method Accept(actions: seq<Action>, node: string, v: DataValue, now: string)
      requires Valid()
      modifies this, batch.Values
      ensures Valid() && fresh(batch.Values - old(batch.Values))
      ensures Current() == AfterAccept(old(Current()), dedupEvents, actions, node, v, now)
    {
      if IsBad(v) {
        return;
      }
      for i := 0 to |actions|
        invariant Valid() && fresh(batch.Values - old(batch.Values))
        invariant Current() == AfterActions(old(Current()), dedupEvents, actions[..i], node, v, now)
      {
        assert actions[..i + 1][..i] == actions[..i];
        match actions[i] {
          case Measurement(m) => AddMeasurement(m, node, v, now);
          case Event(e) => Announce(e, node, v, now);
          case Alarm(a) => Signal(a, node, v, now);
        }
      }
      assert actions[..|actions|] == actions;
    }

    /** Publish what builders hold, one message per type in the given order. */
    method PublishInOrder(taken: map<string, MeasurementBuilder>, kinds: seq<string>, now: string)
      requires forall i :: 0 <= i < |kinds| ==> kinds[i] in taken
      modifies `sent
      ensures Current() == old(Current()).(sent := old(sent) + Messages(Snapshot(taken), kinds, now))
    {
      ghost var contents := Snapshot(taken);
      for i := 0 to |kinds|
        invariant sent == old(sent) + Messages(contents, kinds[..i], now)
        invariant Snapshot(taken) == contents
      {
        MessagesStep(contents, kinds, i, now);
        var message := taken[kinds[i]].Build(now);
        if message.Some? {
          sent := sent + [Measured(kinds[i], message.value)];
        }
      }
      assert kinds[..|kinds|] == kinds;
    }

    /** Start an empty window and give out the builders of the last one. */
    method TakeBatch() returns (taken: map<string, MeasurementBuilder>)
      modifies `batch, `pendingSeries
      ensures batch == map[] && Snapshot(taken) == old(Current()).batch
      ensures Current() == old(Current()).(batch := map[], pending := 0)
    {
      pendingSeries, taken, batch := 0, batch, map[];
      assert Snapshot(batch) == map[];
    }

    /** Publish every batched measurement and start over. */
    method Flush(now: string)
      modifies this
      ensures Valid() && batch.Values == {}
      ensures Current() == AfterFlush(old(Current()), now)
    {
      var taken := TakeBatch();
      var kinds := SortedKeys(taken.Keys);
      assert forall i :: 0 <= i < |kinds| ==> kinds[i] in kinds;
      PublishInOrder(taken, kinds, now);
    }
  }
}
