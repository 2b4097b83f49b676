/** What one publisher sends over a whole run (crates/gateway/src/publish.rs,
    crates/mapping/src/payload.rs). */
module PublishRuns {
  import opened Text
  import opened Model
  import opened Resolve
  import opened Payload
  import opened Publish
  import opened Ordered
  import opened Totals

  /** One call on a publisher. */
  datatype Call =
    | Accepting(actions: seq<Action>, node: string, value: DataValue, now: string)
    | Flushing(now: string)

  function AfterCall(s: State, dedup: bool, call: Call): State {
    match call
    case Accepting(actions, node, value, now) => AfterAccept(s, dedup, actions, node, value, now)
    case Flushing(now) => AfterFlush(s, now)
  }

  function Run(dedup: bool, calls: seq<Call>): State {
    if calls == [] then INITIAL
    else
      var n := |calls| - 1;
      AfterCall(Run(dedup, calls[..n]), dedup, calls[n])
  }

  // ---- one action at a time ----

  datatype Step = Act(action: Action, node: string, value: DataValue, now: string) | Flush(now: string)

  /** A good value is one step per action; a bad one is none. */
  function ActionSteps(actions: seq<Action>, node: string, v: DataValue, now: string): seq<Step> {
    if actions == [] then []
    else
      var n := |actions| - 1;
      ActionSteps(actions[..n], node, v, now) + [Act(actions[n], node, v, now)]
  }

  function StepsOfCall(call: Call): seq<Step> {
    match call
    case Accepting(actions, node, value, now) => if IsBad(value) then [] else ActionSteps(actions, node, value, now)
    case Flushing(now) => [Flush(now)]
  }

  function StepsOf(calls: seq<Call>): seq<Step> {
    if calls == [] then []
    else
      var n := |calls| - 1;
      StepsOf(calls[..n]) + StepsOfCall(calls[n])
  }

  lemma StepsOneMore(calls: seq<Call>, call: Call)
    ensures StepsOf(calls + [call]) == StepsOf(calls) + StepsOfCall(call)
  {
    assert (calls + [call])[..|calls|] == calls;
  }

  lemma {:induction false} StepsAppend(a: seq<Call>, b: seq<Call>)
    ensures StepsOf(a + b) == StepsOf(a) + StepsOf(b)
  {
    if b == [] {
      assert a + b == a;
    } else {
      var n := |b| - 1;
      var front, last := b[..n], b[n];
      assert b == front + [last] && a + b == (a + front) + [last];
      calc {
        StepsOf(a + b);
        { StepsOneMore(a + front, last); }
        StepsOf(a + front) + StepsOfCall(last);
        { StepsAppend(a, front); }
        StepsOf(a) + StepsOf(front) + StepsOfCall(last);
        { StepsOneMore(front, last); }
        StepsOf(a) + StepsOf(b);
      }
    }
  }

  function AfterStep(s: State, dedup: bool, step: Step): State {
    match step
    case Act(action, node, value, now) => AfterAction(s, dedup, action, node, value, now)
    case Flush(now) => AfterFlush(s, now)
  }

  function RunFrom(s: State, dedup: bool, steps: seq<Step>): State {
    if steps == [] then s
    else
      var n := |steps| - 1;
      AfterStep(RunFrom(s, dedup, steps[..n]), dedup, steps[n])
  }

  function RunSteps(dedup: bool, steps: seq<Step>): State {
    RunFrom(INITIAL, dedup, steps)
  }

  lemma {:induction false} RunAppend(s: State, dedup: bool, a: seq<Step>, b: seq<Step>)
    ensures RunFrom(s, dedup, a + b) == RunFrom(RunFrom(s, dedup, a), dedup, b)
  {
    if b == [] {
      assert a + b == a;
    } else {
      var n := |b| - 1;
      RunAppend(s, dedup, a, b[..n]);
      assert (a + b)[..|a + b| - 1] == a + b[..n];
    }
  }

  lemma {:induction false} ActionsAreSteps(s: State, dedup: bool, actions: seq<Action>, node: string, v: DataValue,
                                           now: string)
    ensures AfterActions(s, dedup, actions, node, v, now) == RunFrom(s, dedup, ActionSteps(actions, node, v, now))
  {
    if actions != [] {
      var n := |actions| - 1;
      ActionsAreSteps(s, dedup, actions[..n], node, v, now);
      var steps := ActionSteps(actions, node, v, now);
      assert steps[..|steps| - 1] == ActionSteps(actions[..n], node, v, now);
    }
  }

  lemma CallIsSteps(s: State, dedup: bool, call: Call)
    ensures AfterCall(s, dedup, call) == RunFrom(s, dedup, StepsOfCall(call))
  {
    match call
    case Accepting(actions, node, value, now) =>
      ActionsAreSteps(s, dedup, actions, node, value, now);
    case Flushing(now) =>
      assert [Flush(now)][..0] == [];
      assert RunFrom(s, dedup, [Flush(now)]) == AfterStep(RunFrom(s, dedup, []), dedup, Flush(now));
  }

  lemma {:induction false} RunIsSteps(dedup: bool, calls: seq<Call>)
    ensures Run(dedup, calls) == RunSteps(dedup, StepsOf(calls))
  {
    if calls != [] {
      var n := |calls| - 1;
      RunIsSteps(dedup, calls[..n]);
      CallIsSteps(Run(dedup, calls[..n]), dedup, calls[n]);
      RunAppend(INITIAL, dedup, StepsOf(calls[..n]), StepsOfCall(calls[n]));
    }
  }

  // ---- picking out one stream ----

  /** What `f` finds in a list, in order. */
  function Pick<A, T>(list: seq<A>, f: A -> Option<T>): seq<T> {
    if list == [] then []
    else
      var n := |list| - 1;
      if f(list[n]).Some? then Pick(list[..n], f) + [f(list[n]).value] else Pick(list[..n], f)
  }

  lemma {:induction false} PickAppend<A, T>(a: seq<A>, b: seq<A>, f: A -> Option<T>)
    ensures Pick(a + b, f) == Pick(a, f) + Pick(b, f)
  {
    if b == [] {
      assert a + b == a;
    } else {
      var n := |b| - 1;
      PickAppend(a, b[..n], f);
      assert (a + b)[..|a + b| - 1] == a + b[..n];
    }
  }

  lemma PickOne<A, T>(a: seq<A>, x: A, f: A -> Option<T>)
    ensures Pick(a + [x], f) == if f(x).Some? then Pick(a, f) + [f(x).value] else Pick(a, f)
  {
    assert (a + [x])[..|a|] == a;
  }

  lemma PickSingle<A, T>(x: A, f: A -> Option<T>)
    ensures Pick([x], f) == if f(x).Some? then [f(x).value] else []
  {
    assert [x][..0] == [];
  }

  lemma {:induction false} PickNothing<A, T>(list: seq<A>, f: A -> Option<T>)
    requires forall x :: x in list ==> f(x).None?
    ensures Pick(list, f) == []
  {
    if list != [] {
      var n := |list| - 1;
      assert list[n] in list;
      PickNothing(list[..n], f);
    }
  }

  /** A list with adjacent repeats removed. */
  function Destutter<T(==)>(list: seq<T>): seq<T> {
    if |list| <= 1 then list
    else
      var n := |list| - 1;
      if list[n] == list[n - 1] then Destutter(list[..n]) else Destutter(list[..n]) + [list[n]]
  }

  lemma {:induction false} DestutterAlternates<T>(list: seq<T>)
    ensures |Destutter(list)| == 0 <==> list == []
    ensures list != [] ==> Destutter(list)[|Destutter(list)| - 1] == list[|list| - 1]
    ensures forall i :: 0 < i < |Destutter(list)| ==> Destutter(list)[i] != Destutter(list)[i - 1]
  {
    if |list| > 1 {
      var n := |list| - 1;
      DestutterAlternates(list[..n]);
    }
  }

  lemma DestutterOne<T>(list: seq<T>, x: T)
    ensures Destutter(list + [x]) == if LastOf(list) == Some(x) then Destutter(list) else Destutter(list) + [x]
  {
    assert (list + [x])[..|list|] == list;
  }

  function LastOf<T>(list: seq<T>): Option<T> {
    if list == [] then None else Some(list[|list| - 1])
  }

  function At<V>(m: map<SuppressionKey, V>, key: SuppressionKey): Option<V> {
    if key in m then Some(m[key]) else None
  }

  // ---- alarms ----

  /** The boolean an alarm action asks for on a key. */
  function AlarmAskedBy(step: Step, key: SuppressionKey): Option<bool> {
    match step
    case Act(Alarm(a), node, v, now) =>
      if a.kind.Some? && (node, a.kind.value) == key && v.value.Some? then AsBool(v.value.value) else None
    case _ => None
  }

  function AlarmAsked(key: SuppressionKey): Step -> Option<bool> {
    (step: Step) => AlarmAskedBy(step, key)
  }

  /** The raise or clear an attempt makes on a key. */
  function AlarmMadeBy(attempt: Attempt, key: SuppressionKey): Option<bool> {
    match attempt
    case Raised(kind, alarm) => if (alarm.node, kind) == key then Some(true) else None
    case Cleared(kind, node) => if (node, kind) == key then Some(false) else None
    case _ => None
  }

  function AlarmMade(key: SuppressionKey): Attempt -> Option<bool> {
    (attempt: Attempt) => AlarmMadeBy(attempt, key)
  }

  predicate AlarmsFollow(s: State, steps: seq<Step>, key: SuppressionKey) {
    var asked := Pick(steps, AlarmAsked(key));
    Pick(s.sent, AlarmMade(key)) == Destutter(asked) && At(s.lastAlarm, key) == LastOf(asked)
  }

  // ---- events ----

  /** The text an event action asks for on a key. */
  function EventAskedBy(step: Step, key: SuppressionKey): Option<string> {
    match step
    case Act(Event(e), node, v, now) =>
      if e.kind.Some? && (node, e.kind.value) == key then Some(EventText(e, v)) else None
    case _ => None
  }

  function EventAsked(key: SuppressionKey): Step -> Option<string> {
    (step: Step) => EventAskedBy(step, key)
  }

  function EventMadeBy(attempt: Attempt, key: SuppressionKey): Option<string> {
    match attempt
    case Happened(kind, event) => if (event.node, kind) == key then Some(event.text) else None
    case _ => None
  }

  function EventMade(key: SuppressionKey): Attempt -> Option<string> {
    (attempt: Attempt) => EventMadeBy(attempt, key)
  }

  /** Suppressed repeats with `dedup`, everything without. */
  predicate EventsFollow(s: State, dedup: bool, steps: seq<Step>, key: SuppressionKey) {
    var asked := Pick(steps, EventAsked(key));
    && Pick(s.sent, EventMade(key)) == (if dedup then Destutter(asked) else asked)
    && At(s.lastEvent, key) == (if dedup then LastOf(asked) else None)
  }

  // ---- what one step attempts ----

  /** The event or alarm an action attempts; nothing when it is suppressed or cannot be read. */
  function Attempted(s: State, dedup: bool, action: Action, node: string, v: DataValue, now: string): Option<Attempt> {
    match action
    case Measurement(_) => None
    case Event(e) =>
      if e.kind.None? || (dedup && At(s.lastEvent, (node, e.kind.value)) == Some(EventText(e, v))) then None
      else Some(Happened(e.kind.value, EventOf(e, node, v, now)))
    case Alarm(a) =>
      if a.kind.None? || v.value.None? then None
      else
        var active := AsBool(v.value.value);
        if active.None? || At(s.lastAlarm, (node, a.kind.value)) == active then None
        else Some(AlarmAttempt(a, a.kind.value, node, v, now, active.value))
  }

  lemma SentGrows(s: State, dedup: bool, action: Action, node: string, v: DataValue, now: string)
    ensures
      var attempt := Attempted(s, dedup, action, node, v, now);
      AfterAction(s, dedup, action, node, v, now).sent == if attempt.Some? then s.sent + [attempt.value] else s.sent
  {
  }

  lemma ActionPicks<T>(s: State, dedup: bool, action: Action, node: string, v: DataValue, now: string,
                       f: Attempt -> Option<T>)
    ensures
      var attempt := Attempted(s, dedup, action, node, v, now);
      Pick(AfterAction(s, dedup, action, node, v, now).sent, f) ==
        if attempt.Some? && f(attempt.value).Some? then Pick(s.sent, f) + [f(attempt.value).value] else Pick(s.sent, f)
  {
    SentGrows(s, dedup, action, node, v, now);
    var attempt := Attempted(s, dedup, action, node, v, now);
    if attempt.Some? {
      PickOne(s.sent, attempt.value, f);
    }
  }

  lemma {:induction false} MessagesAreMeasurements(batch: map<string, Batch>, kinds: seq<string>, now: string)
    ensures forall a :: a in Messages(batch, kinds, now) ==> a.Measured?
  {
    if kinds != [] {
      MessagesAreMeasurements(batch, kinds[..|kinds| - 1], now);
    }
  }

  /** A flush attempts measurements only. */
  lemma FlushSendsNo<T>(s: State, now: string, f: Attempt -> Option<T>)
    requires forall a: Attempt :: a.Measured? ==> f(a).None?
    ensures Pick(AfterFlush(s, now).sent, f) == Pick(s.sent, f)
  {
    var messages := Messages(s.batch, SortedKeys(s.batch.Keys), now);
    MessagesAreMeasurements(s.batch, SortedKeys(s.batch.Keys), now);
    PickNothing(messages, f);
    PickAppend(s.sent, messages, f);
  }

  lemma AlarmSentBy(s: State, dedup: bool, step: Step, key: SuppressionKey)
    ensures
      var asked, after := AlarmAskedBy(step, key), AfterStep(s, dedup, step);
      && At(after.lastAlarm, key) == (if asked.Some? then asked else At(s.lastAlarm, key))
      && Pick(after.sent, AlarmMade(key)) ==
         (if asked.Some? && asked != At(s.lastAlarm, key) then Pick(s.sent, AlarmMade(key)) + [asked.value]
          else Pick(s.sent, AlarmMade(key)))
  {
    match step
    case Flush(now) =>
      FlushSendsNo(s, now, AlarmMade(key));
    case Act(action, node, v, now) =>
      ActionPicks(s, dedup, action, node, v, now, AlarmMade(key));
  }

  lemma EventSentBy(s: State, dedup: bool, step: Step, key: SuppressionKey)
    ensures
      var asked, after := EventAskedBy(step, key), AfterStep(s, dedup, step);
      && At(after.lastEvent, key) == (if asked.Some? && dedup then asked else At(s.lastEvent, key))
      && Pick(after.sent, EventMade(key)) ==
         (if asked.Some? && !(dedup && asked == At(s.lastEvent, key)) then Pick(s.sent, EventMade(key)) + [asked.value]
          else Pick(s.sent, EventMade(key)))
  {
    match step
    case Flush(now) =>
      FlushSendsNo(s, now, EventMade(key));
    case Act(action, node, v, now) =>
      ActionPicks(s, dedup, action, node, v, now, EventMade(key));
  }

  lemma AlarmStep(s: State, dedup: bool, steps: seq<Step>, step: Step, key: SuppressionKey)
    requires AlarmsFollow(s, steps, key)
    ensures AlarmsFollow(AfterStep(s, dedup, step), steps + [step], key)
  {
    AlarmSentBy(s, dedup, step, key);
    PickOne(steps, step, AlarmAsked(key));
    var asked := AlarmAskedBy(step, key);
    if asked.Some? {
      DestutterOne(Pick(steps, AlarmAsked(key)), asked.value);
    }
  }

  lemma EventStep(s: State, dedup: bool, steps: seq<Step>, step: Step, key: SuppressionKey)
    requires EventsFollow(s, dedup, steps, key)
    ensures EventsFollow(AfterStep(s, dedup, step), dedup, steps + [step], key)
  {
    EventSentBy(s, dedup, step, key);
    PickOne(steps, step, EventAsked(key));
    var asked := EventAskedBy(step, key);
    if asked.Some? {
      DestutterOne(Pick(steps, EventAsked(key)), asked.value);
    }
  }

  lemma {:induction false} SuppressionOverSteps(dedup: bool, steps: seq<Step>, key: SuppressionKey)
    ensures AlarmsFollow(RunSteps(dedup, steps), steps, key)
    ensures EventsFollow(RunSteps(dedup, steps), dedup, steps, key)
  {
    if steps != [] {
      var n := |steps| - 1;
      SuppressionOverSteps(dedup, steps[..n], key);
      AlarmStep(RunSteps(dedup, steps[..n]), dedup, steps[..n], steps[n], key);
      EventStep(RunSteps(dedup, steps[..n]), dedup, steps[..n], steps[n], key);
      assert steps == steps[..n] + [steps[n]];
    }
  }

  /** Over any run: the alarms attempted for a node and type are the readable booleans of the good
      values with adjacent repeats removed, so raises and clears strictly alternate. */
  lemma AlarmsAreDestuttered(dedup: bool, calls: seq<Call>, key: SuppressionKey)
    ensures
      var made, asked := Pick(Run(dedup, calls).sent, AlarmMade(key)), Pick(StepsOf(calls), AlarmAsked(key));
      && made == Destutter(asked)
      && forall i :: 0 < i < |made| ==> made[i] == !made[i - 1]
  {
    RunIsSteps(dedup, calls);
    SuppressionOverSteps(dedup, StepsOf(calls), key);
    DestutterAlternates(Pick(StepsOf(calls), AlarmAsked(key)));
  }

  /** Likewise the event texts of a node and type when repeats are suppressed; otherwise every event
      is attempted. */
  lemma EventsAreDestuttered(dedup: bool, calls: seq<Call>, key: SuppressionKey)
    ensures
      var made, asked := Pick(Run(dedup, calls).sent, EventMade(key)), Pick(StepsOf(calls), EventAsked(key));
      && made == (if dedup then Destutter(asked) else asked)
      && (dedup ==> forall i :: 0 < i < |made| ==> made[i] != made[i - 1])
  {
    RunIsSteps(dedup, calls);
    SuppressionOverSteps(dedup, StepsOf(calls), key);
    DestutterAlternates(Pick(StepsOf(calls), EventAsked(key)));
  }

  // ---- measurements ----

  /** The sample a step adds to a measurement type. */
  function SampleAt(step: Step, kind: string): Option<Sample> {
    match step
    case Act(Measurement(m), node, v, now) =>
      if MeasurementType(m) == Some(kind) then SampleOf(m, node, v, now) else None
    case _ => None
  }

  function SampledAs(kind: string): Step -> Option<Sample> {
    (step: Step) => SampleAt(step, kind)
  }

  /** The samples of a type since the last flush. */
  function OpenWindow(steps: seq<Step>, kind: string): seq<Sample> {
    if steps == [] then []
    else
      var n := |steps| - 1;
      if steps[n].Flush? then []
      else
        var sample := SampleAt(steps[n], kind);
        if sample.Some? then OpenWindow(steps[..n], kind) + [sample.value] else OpenWindow(steps[..n], kind)
  }

  /** What each flush that found samples of the type closed. */
  function ClosedWindows(steps: seq<Step>, kind: string): seq<seq<Sample>> {
    if steps == [] then []
    else
      var n := |steps| - 1;
      var open := OpenWindow(steps[..n], kind);
      if steps[n].Flush? && open != [] then ClosedWindows(steps[..n], kind) + [open]
      else ClosedWindows(steps[..n], kind)
  }

  function Concat<T>(lists: seq<seq<T>>): seq<T> {
    if lists == [] then []
    else
      var n := |lists| - 1;
      Concat(lists[..n]) + lists[n]
  }

  /** Every sample of a type is in one window, in order. */
  lemma {:induction false} WindowsHoldEverySample(steps: seq<Step>, kind: string)
    ensures Concat(ClosedWindows(steps, kind)) + OpenWindow(steps, kind) == Pick(steps, SampledAs(kind))
  {
    if steps != [] {
      var n := |steps| - 1;
      WindowsHoldEverySample(steps[..n], kind);
      var closed, open := ClosedWindows(steps[..n], kind), OpenWindow(steps[..n], kind);
      if steps[n].Flush? {
        ConcatOneMore(closed, open);
        assert Concat(closed) + [] == Concat(closed);
      } else if SampleAt(steps[n], kind).Some? {
        var sample := SampleAt(steps[n], kind).value;
        assert Concat(closed) + (open + [sample]) == Concat(closed) + open + [sample];
      }
    }
  }

  lemma ConcatOneMore<T>(lists: seq<seq<T>>, list: seq<T>)
    ensures Concat(lists + [list]) == Concat(lists) + list
  {
    assert (lists + [list])[..|lists|] == lists;
  }

  /** The message of a window; the clock is not asked. */
  function WindowBody(window: seq<Sample>): Option<map<string, Json>> {
    MessageOf(BatchOf(window), "")
  }

  lemma WindowBodyIgnoresTheClock(window: seq<Sample>, now: string)
    ensures MessageOf(BatchOf(window), now) == WindowBody(window)
    ensures WindowBody(window).None? <==> window == []
  {
    WindowMessage(window, now);
    WindowIsLastWriteWins(window);
  }

  function Bodies(windows: seq<seq<Sample>>): seq<map<string, Json>> {
    Pick(windows, WindowBody)
  }

  function MeasurementMade(kind: string): Attempt -> Option<map<string, Json>> {
    (attempt: Attempt) => if attempt.Measured? && attempt.kind == kind then Some(attempt.body) else None
  }

  predicate MeasurementsFollow(s: State, steps: seq<Step>, kind: string) {
    && BatchAt(s, kind) == BatchOf(OpenWindow(steps, kind))
    && Pick(s.sent, MeasurementMade(kind)) == Bodies(ClosedWindows(steps, kind))
  }

  lemma MessagesPick(batch: map<string, Batch>, kinds: seq<string>, now: string, kind: string)
    requires kinds != []
    ensures
      var n := |kinds| - 1;
      var message := if kind in batch then MessageOf(batch[kind], now) else None;
      Pick(Messages(batch, kinds, now), MeasurementMade(kind)) ==
        if kinds[n] == kind && message.Some? then
          Pick(Messages(batch, kinds[..n], now), MeasurementMade(kind)) + [message.value]
        else Pick(Messages(batch, kinds[..n], now), MeasurementMade(kind))
  {
    var n := |kinds| - 1;
    var message := if kinds[n] in batch then MessageOf(batch[kinds[n]], now) else None;
    if message.Some? {
      PickOne(Messages(batch, kinds[..n], now), Measured(kinds[n], message.value), MeasurementMade(kind));
    }
  }

  lemma {:induction false} NoMessageOfKind(batch: map<string, Batch>, kinds: seq<string>, now: string, kind: string)
    requires kind !in kinds
    ensures Pick(Messages(batch, kinds, now), MeasurementMade(kind)) == []
  {
    if kinds != [] {
      NoMessageOfKind(batch, kinds[..|kinds| - 1], now, kind);
      MessagesPick(batch, kinds, now, kind);
      assert kinds[|kinds| - 1] in kinds;
    }
  }

  lemma {:induction false} MessageOfKind(batch: map<string, Batch>, kinds: seq<string>, now: string, kind: string)
    requires forall i, j :: 0 <= i < j < |kinds| ==> kinds[i] != kinds[j]
    requires kind in kinds && kind in batch
    ensures
      var message := MessageOf(batch[kind], now);
      Pick(Messages(batch, kinds, now), MeasurementMade(kind)) == if message.Some? then [message.value] else []
  {
    var n := |kinds| - 1;
    MessagesPick(batch, kinds, now, kind);
    if kinds[n] == kind {
      assert kind !in kinds[..n];
      NoMessageOfKind(batch, kinds[..n], now, kind);
    } else {
      MessageOfKind(batch, kinds[..n], now, kind);
    }
  }

  lemma FlushOfOneKind(s: State, now: string, kind: string)
    ensures Pick(AfterFlush(s, now).sent, MeasurementMade(kind)) ==
      var message := MessageOf(BatchAt(s, kind), now);
      if message.Some? then Pick(s.sent, MeasurementMade(kind)) + [message.value]
      else Pick(s.sent, MeasurementMade(kind))
  {
    var kinds := SortedKeys(s.batch.Keys);
    SortedOnce(s.batch.Keys);
    if kind in s.batch {
      MessageOfKind(s.batch, kinds, now, kind);
    } else {
      NoMessageOfKind(s.batch, kinds, now, kind);
    }
    PickAppend(s.sent, Messages(s.batch, kinds, now), MeasurementMade(kind));
  }

  lemma MeasurementSentBy(s: State, dedup: bool, step: Step, kind: string)
    ensures
      var message := if step.Flush? then MessageOf(BatchAt(s, kind), step.now) else None;
      Pick(AfterStep(s, dedup, step).sent, MeasurementMade(kind)) ==
        if message.Some? then Pick(s.sent, MeasurementMade(kind)) + [message.value]
        else Pick(s.sent, MeasurementMade(kind))
  {
    match step
    case Flush(now) =>
      FlushOfOneKind(s, now, kind);
    case Act(action, node, v, now) =>
      ActionPicks(s, dedup, action, node, v, now, MeasurementMade(kind));
  }

  /** What one step does to the batch of a type. */
  lemma BatchAfterStep(s: State, dedup: bool, step: Step, kind: string)
    ensures BatchAt(AfterStep(s, dedup, step), kind) ==
      if step.Flush? then NO_BATCH
      else if SampleAt(step, kind).Some? then AddSample(BatchAt(s, kind), SampleAt(step, kind).value)
      else BatchAt(s, kind)
  {
  }

  lemma MeasurementStep(s: State, dedup: bool, steps: seq<Step>, step: Step, kind: string)
    requires MeasurementsFollow(s, steps, kind)
    ensures MeasurementsFollow(AfterStep(s, dedup, step), steps + [step], kind)
  {
    var window := OpenWindow(steps, kind);
    var sample := SampleAt(step, kind);
    assert (steps + [step])[..|steps|] == steps;
    MeasurementSentBy(s, dedup, step, kind);
    BatchAfterStep(s, dedup, step, kind);
    if step.Flush? {
      WindowBodyIgnoresTheClock(window, step.now);
      PickOne(ClosedWindows(steps, kind), window, WindowBody);
    }
    if sample.Some? {
      assert (window + [sample.value])[..|window|] == window;
    }
  }

  lemma {:induction false} MeasurementsOverSteps(dedup: bool, steps: seq<Step>, kind: string)
    ensures MeasurementsFollow(RunSteps(dedup, steps), steps, kind)
  {
    if steps != [] {
      var n := |steps| - 1;
      MeasurementsOverSteps(dedup, steps[..n], kind);
      MeasurementStep(RunSteps(dedup, steps[..n]), dedup, steps[..n], steps[n], kind);
      assert steps == steps[..n] + [steps[n]];
    }
  }

  lemma {:induction false} EveryWindowHasABody(windows: seq<seq<Sample>>)
    requires forall i :: 0 <= i < |windows| ==> windows[i] != []
    ensures |Bodies(windows)| == |windows|
  {
    if windows != [] {
      var n := |windows| - 1;
      EveryWindowHasABody(windows[..n]);
      WindowBodyIgnoresTheClock(windows[n], "");
    }
  }

  lemma {:induction false} ClosedWindowsAreNotEmpty(steps: seq<Step>, kind: string)
    ensures forall i :: 0 <= i < |ClosedWindows(steps, kind)| ==> ClosedWindows(steps, kind)[i] != []
  {
    if steps != [] {
      ClosedWindowsAreNotEmpty(steps[..|steps| - 1], kind);
    }
  }

  /** Over any run: what is batched for a type is its open window, last write winning; the
      measurements attempted so far are the messages of its closed windows, one each and in order;
      and the windows together hold every sample accepted. */
  lemma MeasurementsAreWindows(dedup: bool, calls: seq<Call>, kind: string)
    ensures
      var s, steps := Run(dedup, calls), StepsOf(calls);
      var closed, open := ClosedWindows(steps, kind), OpenWindow(steps, kind);
      && LastWriteWins(BatchAt(s, kind), open)
      && Pick(s.sent, MeasurementMade(kind)) == Bodies(closed)
      && |Bodies(closed)| == |closed|
      && Concat(closed) + open == Pick(steps, SampledAs(kind))
  {
    RunIsSteps(dedup, calls);
    var steps := StepsOf(calls);
    MeasurementsOverSteps(dedup, steps, kind);
    WindowIsLastWriteWins(OpenWindow(steps, kind));
    WindowsHoldEverySample(steps, kind);
    ClosedWindowsAreNotEmpty(steps, kind);
    EveryWindowHasABody(ClosedWindows(steps, kind));
  }

  // ---- the pending counter ----

  /** The samples of every type since the last flush. */
  function OpenSamples(steps: seq<Step>): nat {
    if steps == [] then 0
    else
      var n := |steps| - 1;
      match steps[n]
      case Flush(_) => 0
      case Act(Measurement(m), node, v, now) =>
        OpenSamples(steps[..n]) + if MeasurementType(m).Some? && IsReadable(v) then 1 else 0
      case _ => OpenSamples(steps[..n])
  }

  /** The series count of every batch. */
  function Counts(batch: map<string, Batch>): map<string, nat> {
    map k | k in batch :: batch[k].seriesCount
  }

  ghost predicate PendingFollows(s: State, steps: seq<Step>) {
    s.pending == OpenSamples(steps) == Total(Counts(s.batch))
  }

  lemma CountAfterAdd(s: State, m: MeasurementCreation, node: string, v: DataValue, now: string)
    ensures Total(Counts(AfterMeasurement(s, m, node, v, now).batch)) ==
      Total(Counts(s.batch)) + if MeasurementType(m).Some? && IsReadable(v) then 1 else 0
  {
    if MeasurementType(m).Some? {
      var kind := MeasurementType(m).value;
      var added := AfterAdd(BatchAt(s, kind), m, node, v, now);
      assert Counts(s.batch[kind := added]) == Counts(s.batch)[kind := added.seriesCount];
      TotalUpdate(Counts(s.batch), kind, added.seriesCount);
    }
  }

  lemma PendingStep(s: State, dedup: bool, steps: seq<Step>, step: Step)
    requires PendingFollows(s, steps)
    ensures PendingFollows(AfterStep(s, dedup, step), steps + [step])
  {
    assert (steps + [step])[..|steps|] == steps;
    match step
    case Flush(_) =>
      assert Counts(map[]) == map[];
    case Act(Measurement(m), node, v, now) =>
      CountAfterAdd(s, m, node, v, now);
    case Act(_, _, _, _) =>
  }

  lemma {:induction false} PendingOverSteps(dedup: bool, steps: seq<Step>)
    ensures PendingFollows(RunSteps(dedup, steps), steps)
  {
    if steps == [] {
      assert Counts(map[]) == map[];
    } else {
      var n := |steps| - 1;
      PendingOverSteps(dedup, steps[..n]);
      PendingStep(RunSteps(dedup, steps[..n]), dedup, steps[..n], steps[n]);
      assert steps == steps[..n] + [steps[n]];
    }
  }

  /** Over any run: the pending counter is the number of samples accepted since the last flush, and
      the sum of the batches' series counts. */
  lemma PendingIsConserved(dedup: bool, calls: seq<Call>)
    ensures Run(dedup, calls).pending == OpenSamples(StepsOf(calls)) == Total(Counts(Run(dedup, calls).batch))
  {
    RunIsSteps(dedup, calls);
    PendingOverSteps(dedup, StepsOf(calls));
  }
}
