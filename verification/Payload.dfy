/** Values and measurement messages (crates/mapping/src/value.rs, crates/mapping/src/payload.rs). */
module Payload {
  import opened Text
  import opened Model

  /** A variant as far as the gateway reads it; foreign rendering and parsing arrive with the value. */
  datatype Variant =
    | Empty
    | Boolean(flag: bool)
    | Numeric(number: Float, rendered: string)
    | Chars(text: string, parsed: Option<Float>)
    | Other(rendered: string)

  /** `isGood` is the status, when there is one. */
  datatype DataValue = DataValue(isGood: Option<bool>, value: Option<Variant>,
                                 sourceTime: Option<string>, serverTime: Option<string>)

  predicate IsBad(v: DataValue) {
    v.isGood == Some(false) || v.value.None? || v.value.value.Empty?
  }

  function FiniteOf(f: Float): Option<real> {
    if f.Finite? then Some(f.value) else None
  }

  function AsNumber(v: Variant): Option<real> {
    match v
    case Boolean(flag) => Some(if flag then 1.0 else 0.0)
    case Numeric(number, _) => FiniteOf(number)
    case Chars(_, parsed) => if parsed.Some? then FiniteOf(parsed.value) else None
    case _ => None
  }

  function AsBool(v: Variant): Option<bool> {
    match v
    case Boolean(flag) => Some(flag)
    case Chars(text, _) => Some(EqualsIgnoreCase(text, "true"))
    case other =>
      match AsNumber(other)
      case Some(n) => Some(n > 0.0)
      case None => None
  }

  function AsText(v: Variant): string {
    match v
    case Empty => ""
    case Boolean(flag) => if flag then "true" else "false"
    case Numeric(_, rendered) => rendered
    case Chars(text, _) => text
    case Other(rendered) => rendered
  }

  /** Source time, then server time, then the clock. */
  function Timestamp(v: DataValue, now: string): string {
    v.sourceTime.GetOr(v.serverTime.GetOr(now))
  }

  /** The number a value stands for: a flag is one or zero, a text what it is read as. */
  predicate Reads(v: Variant, number: real) {
    match v
    case Boolean(flag) => number == if flag then 1.0 else 0.0
    case Numeric(n, _) => n == Finite(number)
    case Chars(_, parsed) => parsed == Some(Finite(number))
    case _ => false
  }

  lemma NumberIsRead(v: Variant, number: real)
    ensures AsNumber(v) == Some(number) <==> Reads(v, number)
  {
  }

  /** An alarm is active for a true flag, a number above zero, or the word `true` in any case. */
  predicate Raises(v: Variant) {
    match v
    case Boolean(flag) => flag
    case Numeric(n, _) => n.Finite? && n.value > 0.0
    case Chars(text, _) => EqualsIgnoreCase(text, "true")
    case _ => false
  }

  /** And over for a false flag, a number not above zero, or any other text. */
  predicate Clears(v: Variant) {
    match v
    case Boolean(flag) => !flag
    case Numeric(n, _) => n.Finite? && n.value <= 0.0
    case Chars(text, _) => !EqualsIgnoreCase(text, "true")
    case _ => false
  }

  lemma FlagIsRead(v: Variant)
    ensures AsBool(v) == Some(true) <==> Raises(v)
    ensures AsBool(v) == Some(false) <==> Clears(v)
  {
  }

  /** The time of a value is its source's, or else its server's; only without both it is the clock's. */
  predicate IsTimeOf(time: string, v: DataValue, now: string) {
    if v.sourceTime.Some? then v.sourceTime == Some(time)
    else if v.serverTime.Some? then v.serverTime == Some(time)
    else time == now
  }

  // ---- measurement batches ----

  /** One accepted series value. */
  datatype Sample = Sample(fragment: string, series: string, number: real, time: string, statics: seq<string>)

  /** Whether a value can be batched at all. */
  predicate IsReadable(v: DataValue) {
    v.value.Some? && AsNumber(v.value.value).Some?
  }

  /** What a value contributes to a measurement; nothing when it is no finite number. */
  function SampleOf(m: MeasurementCreation, node: string, v: DataValue, now: string): Option<Sample> {
    if !IsReadable(v) then None
    else Some(Sample(FragmentName(m, node), SeriesName(m, node), AsNumber(v.value.value).value,
                     Timestamp(v, now), m.staticFragments.GetOr([])))
  }

  type Fragments = map<string, map<string, real>>

  datatype Batch = Batch(fragments: Fragments, time: Option<string>, seriesCount: nat)

  const NO_BATCH := Batch(map[], None, 0)

  function WithStatics(fragments: Fragments, statics: seq<string>): Fragments {
    if statics == [] then fragments
    else
      var n := |statics| - 1;
      var rest := WithStatics(fragments, statics[..n]);
      if statics[n] in rest then rest else rest[statics[n] := map[]]
  }

  function WithSeries(fragments: Fragments, s: Sample): Fragments {
    var series := if s.fragment in fragments then fragments[s.fragment] else map[];
    fragments[s.fragment := series[s.series := s.number]]
  }

  function AddSample(b: Batch, s: Sample): Batch {
    Batch(WithStatics(WithSeries(b.fragments, s), s.statics), Some(b.time.GetOr(s.time)), b.seriesCount + 1)
  }

  /** A batch after one value was offered to it. */
  function AfterAdd(b: Batch, m: MeasurementCreation, node: string, v: DataValue, now: string): Batch {
    match SampleOf(m, node, v, now)
    case Some(sample) => AddSample(b, sample)
    case None => b
  }

  /** One number under this fragment and series, and nothing else but the static fragments that were
      missing; the time is the first there was. */
  ghost predicate HoldsOneMore(before: Batch, after: Batch, fragment: string, series: string, number: real,
                               time: string, statics: seq<string>) {
    && after.seriesCount == before.seriesCount + 1
    && after.time == Some(before.time.GetOr(time))
    && (forall f, s :: SeriesIn(after.fragments, f, s) ==
          if f == fragment && s == series then Some(number) else SeriesIn(before.fragments, f, s))
    && (forall f :: f in after.fragments <==> f in before.fragments || f == fragment || f in statics)
  }

  /** The batch took this value as it was authored. */
  ghost predicate Takes(before: Batch, after: Batch, m: MeasurementCreation, node: string, v: DataValue, now: string) {
    forall fragment, series, number, time |
        && IsNamed(fragment, m.fragment, "measurement_", node) && IsNamed(series, m.series, "series_", node)
        && v.value.Some? && Reads(v.value.value, number) && IsTimeOf(time, v, now) ::
      HoldsOneMore(before, after, fragment, series, number, time, m.staticFragments.GetOr([]))
  }

  predicate IsMeasured(v: DataValue) {
    v.value.Some? &&
    match v.value.value
    case Boolean(_) => true
    case Numeric(n, _) => n.Finite?
    case Chars(_, parsed) => parsed.Some? && parsed.value.Finite?
    case _ => false
  }

  /** Adding a value takes it under the names authored for it, if it stands for a number. */
  lemma AddTakes(b: Batch, m: MeasurementCreation, node: string, v: DataValue, now: string)
    ensures IsReadable(v) <==> IsMeasured(v)
    ensures
      var after := AfterAdd(b, m, node, v, now);
      if IsMeasured(v) then Takes(b, after, m, node, v, now) else after == b
  {
    if IsMeasured(v) {
      var s := SampleOf(m, node, v, now).value;
      NamesAreAuthored(m, node);
      NumberIsRead(v.value.value, s.number);
      SampleHeld(b, s);
      forall fragment, series, number, time |
          && IsNamed(fragment, m.fragment, "measurement_", node) && IsNamed(series, m.series, "series_", node)
          && Reads(v.value.value, number) && IsTimeOf(time, v, now)
        ensures fragment == s.fragment && series == s.series && number == s.number && time == s.time
      {
        NumberIsRead(v.value.value, number);
      }
    }
  }

  /** A number is taken as it was authored, and anything else leaves the batch alone. */
  ghost predicate TakesNumbers(before: Batch, after: Batch, added: bool, m: MeasurementCreation, node: string,
                               v: DataValue, now: string) {
    && (added <==> IsMeasured(v))
    && if added then Takes(before, after, m, node, v, now) else after == before
  }

  lemma AddTakesNumbers(before: Batch, after: Batch, m: MeasurementCreation, node: string, v: DataValue, now: string)
    requires after == AfterAdd(before, m, node, v, now)
    ensures TakesNumbers(before, after, IsReadable(v), m, node, v, now)
  {
    AddTakes(before, m, node, v, now);
  }

  lemma SampleHeld(b: Batch, s: Sample)
    ensures HoldsOneMore(b, AddSample(b, s), s.fragment, s.series, s.number, s.time, s.statics)
  {
    StaticsAdd(WithSeries(b.fragments, s), s.statics);
  }

  datatype Json = Object(series: map<string, real>) | Str(text: string)

  /** The message of a batch; nothing when nothing publishable was added. */
  function MessageOf(b: Batch, now: string): Option<map<string, Json>> {
    if b.seriesCount == 0 then None
    else Some((map f | f in b.fragments :: Object(b.fragments[f]))["time" := Str(b.time.GetOr(now))])
  }

  class MeasurementBuilder {
    var fragments: Fragments
    var time: Option<string>
    var seriesCount: nat

    constructor ()
      ensures Contents() == NO_BATCH
    {
      fragments, time, seriesCount := map[], None, 0;
    }

    ghost function Contents(): Batch
      reads this
    {
      Batch(fragments, time, seriesCount)
    }

    /** Take one sample, if the value gives a number. */
    method Add(m: MeasurementCreation, node: string, v: DataValue, now: string) returns (added: bool)
      modifies this
      ensures TakesNumbers(old(Contents()), Contents(), added, m, node, v, now)
      ensures Contents() == AfterAdd(old(Contents()), m, node, v, now)
    {
      added := Insert(m, node, v, now);
      AddTakesNumbers(old(Contents()), Contents(), m, node, v, now);
    }

    method Insert(m: MeasurementCreation, node: string, v: DataValue, now: string) returns (added: bool)
      modifies this
      ensures added <==> IsReadable(v)
      ensures Contents() == AfterAdd(old(Contents()), m, node, v, now)
    {
      if v.value.None? {
        return false;
      }
      var number := AsNumber(v.value.value);
      if number.None? {
        return false;
      }
      var fragment, series := FragmentName(m, node), SeriesName(m, node);
      if fragment !in fragments {
        fragments := fragments[fragment := map[]];
      }
      fragments := fragments[fragment := fragments[fragment][series := number.value]];
      seriesCount := seriesCount + 1;
      if time.None? {
        time := Some(Timestamp(v, now));
      }
      assert fragments == WithSeries(old(fragments), SampleOf(m, node, v, now).value);
      AddStatics(m.staticFragments.GetOr([]));
      added := true;
    }

    /** Make the static fragments that are not there yet. */
    method AddStatics(statics: seq<string>)
      modifies `fragments
      ensures fragments == WithStatics(old(fragments), statics)
    {
      for i := 0 to |statics|
        invariant fragments == WithStatics(old(fragments), statics[..i])
      {
        assert statics[..i + 1][..i] == statics[..i];
        if statics[i] !in fragments {
          fragments := fragments[statics[i] := map[]];
        }
      }
      assert statics[..|statics|] == statics;
    }

    /** Finish the message. */
    method Build(now: string) returns (message: Option<map<string, Json>>)
      ensures message == MessageOf(Contents(), now)
    {
      if seriesCount == 0 {
        return None;
      }
      var out := map f | f in fragments :: Object(fragments[f]);
      return Some(out["time" := Str(time.GetOr(now))]);
    }
  }

  // ---- a window: the samples between two flushes ----

  function BatchOf(samples: seq<Sample>): Batch {
    if samples == [] then NO_BATCH
    else
      var n := |samples| - 1;
      AddSample(BatchOf(samples[..n]), samples[n])
  }

  /** The last number accepted for a fragment and series. */
  function LastNumber(samples: seq<Sample>, fragment: string, series: string): Option<real> {
    if samples == [] then None
    else
      var n := |samples| - 1;
      if samples[n].fragment == fragment && samples[n].series == series then Some(samples[n].number)
      else LastNumber(samples[..n], fragment, series)
  }

  /** A fragment some sample belongs to or declares static. */
  predicate Mentions(samples: seq<Sample>, fragment: string) {
    exists i :: 0 <= i < |samples| && (samples[i].fragment == fragment || fragment in samples[i].statics)
  }

  function SeriesIn(fragments: Fragments, fragment: string, series: string): Option<real> {
    if fragment in fragments && series in fragments[fragment] then Some(fragments[fragment][series]) else None
  }

  /** Last write wins: every fragment and series holds its last number, the fragments are those
      mentioned, the time is the first one and the count is the number of samples. */
  ghost predicate LastWriteWins(b: Batch, samples: seq<Sample>) {
    && b.seriesCount == |samples|
    && b.time == (if samples == [] then None else Some(samples[0].time))
    && (forall f :: f in b.fragments <==> Mentions(samples, f))
    && (forall f, s :: SeriesIn(b.fragments, f, s) == LastNumber(samples, f, s))
  }

  lemma {:induction false} StaticsAdd(fragments: Fragments, statics: seq<string>)
    ensures forall f :: f in WithStatics(fragments, statics) <==> f in fragments || f in statics
    ensures forall f, s :: SeriesIn(WithStatics(fragments, statics), f, s) == SeriesIn(fragments, f, s)
  {
    if statics != [] {
      var n := |statics| - 1;
      StaticsAdd(fragments, statics[..n]);
      assert statics == statics[..n] + [statics[n]];
      var rest := WithStatics(fragments, statics[..n]);
      forall f, s ensures SeriesIn(WithStatics(fragments, statics), f, s) == SeriesIn(fragments, f, s) {
        assert SeriesIn(rest, f, s) == SeriesIn(fragments, f, s);
      }
    }
  }

  lemma {:induction false} WindowIsLastWriteWins(samples: seq<Sample>)
    ensures LastWriteWins(BatchOf(samples), samples)
  {
    if samples != [] {
      var n := |samples| - 1;
      WindowIsLastWriteWins(samples[..n]);
      LastWriteStep(BatchOf(samples[..n]), samples);
    }
  }

  lemma LastWriteStep(b: Batch, samples: seq<Sample>)
    requires samples != [] && LastWriteWins(b, samples[..|samples| - 1])
    ensures LastWriteWins(AddSample(b, samples[|samples| - 1]), samples)
  {
    var n := |samples| - 1;
    var s := samples[n];
    var with := WithSeries(b.fragments, s);
    StaticsAdd(with, s.statics);
    var after := AddSample(b, s);
    forall f ensures f in after.fragments <==> Mentions(samples, f) {
      MentionsStep(samples, f);
    }
    forall f, x ensures SeriesIn(after.fragments, f, x) == LastNumber(samples, f, x) {
      assert SeriesIn(with, f, x) ==
        if f == s.fragment && x == s.series then Some(s.number) else SeriesIn(b.fragments, f, x);
    }
  }

  lemma MentionsStep(samples: seq<Sample>, f: string)
    requires samples != []
    ensures
      var n := |samples| - 1;
      Mentions(samples, f) <==> Mentions(samples[..n], f) || samples[n].fragment == f || f in samples[n].statics
  {
    var n := |samples| - 1;
    if Mentions(samples[..n], f) {
      var i :| 0 <= i < n && (samples[..n][i].fragment == f || f in samples[..n][i].statics);
      assert samples[i].fragment == f || f in samples[i].statics;
    }
    if Mentions(samples, f) {
      var i :| 0 <= i < |samples| && (samples[i].fragment == f || f in samples[i].statics);
      assert i < n ==> samples[..n][i] == samples[i];
    }
  }

  predicate SeriesIs(series: map<string, real>, s: string, number: Option<real>) {
    if s in series then number == Some(series[s]) else number == None
  }

  /** A sample of a fragment called `time` never reaches the message: the time stands in its place. */
  lemma TimeFragmentIsLost(number: real, time: string, now: string)
    ensures
      var window := [Sample("time", "s", number, time, [])];
      && Mentions(window, "time") && LastNumber(window, "time", "s") == Some(number)
      && MessageOf(BatchOf(window), now) == Some(map["time" := Str(time)])
  {
    var window := [Sample("time", "s", number, time, [])];
    assert window[0].fragment == "time" && window[..0] == [];
    assert BatchOf(window[..0]) == NO_BATCH;
    var b := AddSample(NO_BATCH, window[0]);
    assert BatchOf(window) == b;
    assert b.fragments == map["time" := map["s" := number]] && b.time == Some(time);
    assert MessageOf(b, now).value == map["time" := Str(time)];
  }

  /** The message of a window: nothing for an empty window; otherwise dated by the first sample, each
      mentioned fragment but `time` holding exactly the last numbers of its series. Every mentioned
      fragment reaches the message exactly when none is called `time`. */
  lemma WindowMessage(samples: seq<Sample>, now: string)
    ensures MessageOf(BatchOf(samples), now).None? <==> samples == []
    ensures samples != [] ==>
      var m := MessageOf(BatchOf(samples), now).value;
      && "time" in m && m["time"] == Str(samples[0].time)
      && (forall f :: f != "time" ==> (f in m <==> Mentions(samples, f)))
      && (forall f :: f != "time" && f in m ==> m[f].Object?)
      && (forall f, s :: f != "time" && f in m ==> SeriesIs(m[f].series, s, LastNumber(samples, f, s)))
      && ((forall f :: Mentions(samples, f) ==> f in m && m[f].Object?) <==> !Mentions(samples, "time"))
  {
    WindowIsLastWriteWins(samples);
    var b := BatchOf(samples);
    if samples != [] {
      var m := MessageOf(b, now).value;
      forall f, s | f != "time" && f in m ensures SeriesIs(m[f].series, s, LastNumber(samples, f, s)) {
        assert SeriesIn(b.fragments, f, s) == LastNumber(samples, f, s);
      }
    }
  }

  /** What a window sends is as authored: unless a later sample has its names, the number of a value stands
      in the message under the fragment and the series authored for it, and the first value dates it. */
  lemma WindowIsAsAuthored(samples: seq<Sample>, i: nat, m: MeasurementCreation, node: string, v: DataValue,
                           read: string, now: string)
    requires i < |samples| && SampleOf(m, node, v, read) == Some(samples[i])
    requires forall j :: i < j < |samples| ==>
      samples[j].fragment != samples[i].fragment || samples[j].series != samples[i].series
    ensures MessageOf(BatchOf(samples), now).Some?
    ensures forall fragment, series, number |
        && IsNamed(fragment, m.fragment, "measurement_", node) && IsNamed(series, m.series, "series_", node)
        && v.value.Some? && Reads(v.value.value, number) && fragment != "time" ::
      var message := MessageOf(BatchOf(samples), now).value;
      && fragment in message && message[fragment].Object?
      && series in message[fragment].series && message[fragment].series[series] == number
    ensures i == 0 ==> forall time | IsTimeOf(time, v, read) ::
      "time" in MessageOf(BatchOf(samples), now).value && MessageOf(BatchOf(samples), now).value["time"] == Str(time)
  {
    WindowMessage(samples, now);
    var s := samples[i];
    NamesAreAuthored(m, node);
    LastIsLast(samples, i);
    assert Mentions(samples, s.fragment);
    assert s.fragment != "time" ==>
      SeriesIs(MessageOf(BatchOf(samples), now).value[s.fragment].series, s.series, Some(s.number));
    forall number | Reads(v.value.value, number) ensures number == s.number {
      NumberIsRead(v.value.value, number);
    }
  }

  lemma {:induction false} LastIsLast(samples: seq<Sample>, i: nat)
    requires i < |samples|
    requires forall j :: i < j < |samples| ==>
      samples[j].fragment != samples[i].fragment || samples[j].series != samples[i].series
    ensures LastNumber(samples, samples[i].fragment, samples[i].series) == Some(samples[i].number)
  {
    var n := |samples| - 1;
    if i < n {
      LastIsLast(samples[..n], i);
    }
  }
}
