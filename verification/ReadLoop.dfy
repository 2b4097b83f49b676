/** Cyclic reads of one group of nodes (crates/gateway/src/server_task.rs). */
module ReadLoop {
  import opened Text
  import opened Payload
  import opened Publish
  import opened PublishRuns
  import Resolve

  /** This many failed cycles in a row end the loop. */
  const MAX_CONSECUTIVE_READ_FAILURES: nat := 3

  datatype ReadNode = ReadNode(node: string, actions: seq<Resolve.Action>)

  /** What one cycle read. An answer may be shorter or longer than the group. */
  datatype Cycle = Read(values: seq<DataValue>, now: string) | Failed

  /** The first `n` nodes with their values. */
  function AcceptedIn(nodes: seq<ReadNode>, values: seq<DataValue>, now: string, n: nat): seq<Call>
    requires n <= |nodes| && n <= |values|
  {
    if n == 0 then []
    else
      AcceptedIn(nodes, values, now, n - 1)
      + [Accepting(nodes[n - 1].actions, nodes[n - 1].node, values[n - 1], now)]
  }

  /** Call `i` offers value `i` to node `i`, for its actions. */
  lemma {:induction false} AcceptedByPosition(nodes: seq<ReadNode>, values: seq<DataValue>, now: string, n: nat, i: nat)
    requires i < n && n <= |nodes| && n <= |values|
    ensures |AcceptedIn(nodes, values, now, n)| == n
    ensures AcceptedIn(nodes, values, now, n)[i] == Accepting(nodes[i].actions, nodes[i].node, values[i], now)
  {
    if i < n - 1 {
      AcceptedByPosition(nodes, values, now, n - 1, i);
    } else if n > 1 {
      AcceptedByPosition(nodes, values, now, n - 1, 0);
    }
  }

  /** A good cycle makes one call for every node that has a value, in order, and then flushes. */
  lemma CycleByPosition(nodes: seq<ReadNode>, values: seq<DataValue>, now: string)
    ensures
      var calls, n := CallsOf(nodes, Read(values, now)), if |nodes| <= |values| then |nodes| else |values|;
      && |calls| == n + 1 && calls[n] == Flushing(now)
      && forall i :: 0 <= i < n ==> calls[i] == Accepting(nodes[i].actions, nodes[i].node, values[i], now)
  {
    var n := Paired(nodes, values);
    forall i | 0 <= i < n
      ensures |AcceptedIn(nodes, values, now, n)| == n
      ensures AcceptedIn(nodes, values, now, n)[i] == Accepting(nodes[i].actions, nodes[i].node, values[i], now)
    {
      AcceptedByPosition(nodes, values, now, n, i);
    }
  }

  /** As many nodes as there are values for. */
  function Paired(nodes: seq<ReadNode>, values: seq<DataValue>): nat {
    if |nodes| <= |values| then |nodes| else |values|
  }

  /** A good cycle offers each node its value and flushes once; a failed one does nothing. */
  function CallsOf(nodes: seq<ReadNode>, cycle: Cycle): seq<Call> {
    match cycle
    case Read(values, now) => AcceptedIn(nodes, values, now, Paired(nodes, values)) + [Flushing(now)]
    case Failed => []
  }

  function CallsOver(nodes: seq<ReadNode>, cycles: seq<Cycle>): seq<Call> {
    if cycles == [] then []
    else
      var n := |cycles| - 1;
      CallsOver(nodes, cycles[..n]) + CallsOf(nodes, cycles[n])
  }

  // ---- giving up ----

  /** Failures since the last good cycle. */
  function Failures(cycles: seq<Cycle>): nat {
    if cycles == [] then 0
    else
      var n := |cycles| - 1;
      if cycles[n].Failed? then Failures(cycles[..n]) + 1 else 0
  }

  /** The last `k` cycles failed. */
  predicate LastFailed(cycles: seq<Cycle>, k: nat) {
    k <= |cycles| && forall i :: |cycles| - k <= i < |cycles| ==> cycles[i].Failed?
  }

  lemma {:induction false} FailuresAreConsecutive(cycles: seq<Cycle>, k: nat)
    ensures Failures(cycles) >= k <==> LastFailed(cycles, k)
  {
    if cycles != [] && k > 0 {
      var n := |cycles| - 1;
      FailuresAreConsecutive(cycles[..n], k - 1);
      if LastFailed(cycles, k) {
        assert forall i :: |cycles| - k <= i < n ==> cycles[..n][i] == cycles[i];
      }
      if LastFailed(cycles[..n], k - 1) {
        assert forall i :: |cycles| - k <= i < n ==> cycles[i] == cycles[..n][i];
      }
    }
  }

  /** Every cycle started with fewer failures than are tolerated. */
  predicate Persists(cycles: seq<Cycle>) {
    cycles == [] ||
    var n := |cycles| - 1;
    Persists(cycles[..n]) && Failures(cycles[..n]) < MAX_CONSECUTIVE_READ_FAILURES
  }

  lemma {:induction false} PersistsBefore(cycles: seq<Cycle>)
    requires Persists(cycles)
    ensures forall i :: 0 <= i < |cycles| ==> !LastFailed(cycles[..i], MAX_CONSECUTIVE_READ_FAILURES)
  {
    if cycles != [] {
      var n := |cycles| - 1;
      PersistsBefore(cycles[..n]);
      FailuresAreConsecutive(cycles[..n], MAX_CONSECUTIVE_READ_FAILURES);
      assert forall i :: 0 <= i < n ==> cycles[..n][..i] == cycles[..i];
    }
  }

  lemma OneCycleMore(nodes: seq<ReadNode>, cycles: seq<Cycle>, i: nat)
    requires i < |cycles|
    ensures CallsOver(nodes, cycles[..i + 1]) == CallsOver(nodes, cycles[..i]) + CallsOf(nodes, cycles[i])
    ensures Failures(cycles[..i + 1]) == if cycles[i].Failed? then Failures(cycles[..i]) + 1 else 0
    ensures Persists(cycles[..i + 1]) <==>
      Persists(cycles[..i]) && Failures(cycles[..i]) < MAX_CONSECUTIVE_READ_FAILURES
  {
    assert cycles[..i + 1][..i] == cycles[..i];
  }

  /** The loop over the cycles it was given: it gives up at the first cycle that ends three failures in
      a row, and at no other. */
  method Run(entity: string, nodes: seq<ReadNode>, cycles: seq<Cycle>)
    returns (publisher: Publisher, done: nat, gaveUp: bool)
    ensures done <= |cycles|
    ensures forall i :: 0 <= i < done ==> !LastFailed(cycles[..i], 3)
    ensures gaveUp <==> LastFailed(cycles[..done], 3)
    ensures !gaveUp ==> done == |cycles|
    ensures publisher.Current() == PublishRuns.Run(true, CallsOver(nodes, cycles[..done]))
  {
    publisher := new Publisher(entity, true);
    var failures := 0;
    done, gaveUp := 0, false;
    while done < |cycles| && !gaveUp
      invariant done <= |cycles|
      invariant failures == Failures(cycles[..done])
      invariant Persists(cycles[..done])
      invariant gaveUp <==> failures >= MAX_CONSECUTIVE_READ_FAILURES
      invariant publisher.Valid() && publisher.dedupEvents && fresh(publisher) && fresh(publisher.batch.Values)
      invariant publisher.Current() == PublishRuns.Run(true, CallsOver(nodes, cycles[..done]))
      decreases |cycles| - done, !gaveUp
    {
      OneCycleMore(nodes, cycles, done);
      match cycles[done] {
        case Read(values, now) =>
          failures := 0;
          PublishCycle(publisher, nodes, values, now, CallsOver(nodes, cycles[..done]));
        case Failed =>
          failures := failures + 1;
          gaveUp := failures >= MAX_CONSECUTIVE_READ_FAILURES;
          assert CallsOver(nodes, cycles[..done]) + [] == CallsOver(nodes, cycles[..done]);
      }
      done := done + 1;
    }
    PersistsBefore(cycles[..done]);
    FailuresAreConsecutive(cycles[..done], MAX_CONSECUTIVE_READ_FAILURES);
    assert forall i :: 0 <= i < done ==> cycles[..done][..i] == cycles[..i];
  }

  method AcceptAll(publisher: Publisher, nodes: seq<ReadNode>, values: seq<DataValue>, now: string,
                   ghost before: seq<Call>)
    returns (n: nat)
    requires publisher.Valid() && publisher.dedupEvents
    requires publisher.Current() == PublishRuns.Run(true, before)
    modifies publisher, publisher.batch.Values
    ensures publisher.Valid() && n == Paired(nodes, values)
    ensures publisher.Current() == PublishRuns.Run(true, before + AcceptedIn(nodes, values, now, n))
  {
    n := Paired(nodes, values);
    assert before + AcceptedIn(nodes, values, now, 0) == before;
    for i := 0 to n
      invariant publisher.Valid() && fresh(publisher.batch.Values - old(publisher.batch.Values))
      invariant publisher.Current() == PublishRuns.Run(true, before + AcceptedIn(nodes, values, now, i))
    {
      OneCallMore(before, AcceptedIn(nodes, values, now, i),
                  Accepting(nodes[i].actions, nodes[i].node, values[i], now));
      publisher.Accept(nodes[i].actions, nodes[i].node, values[i], now);
    }
  }

  /** One good cycle: its values, in the order of the nodes, and then one message per type. */
  method PublishCycle(publisher: Publisher, nodes: seq<ReadNode>, values: seq<DataValue>, now: string,
                      ghost before: seq<Call>)
    requires publisher.Valid() && publisher.dedupEvents
    requires publisher.Current() == PublishRuns.Run(true, before)
    modifies publisher, publisher.batch.Values
    ensures publisher.Valid() && publisher.batch.Values == {}
    ensures publisher.Current() == PublishRuns.Run(true, before + CallsOf(nodes, Read(values, now)))
  {
    var n := AcceptAll(publisher, nodes, values, now, before);
    OneCallMore(before, AcceptedIn(nodes, values, now, n), Flushing(now));
    publisher.Flush(now);
  }

  lemma OneCallMore(before: seq<Call>, calls: seq<Call>, call: Call)
    ensures PublishRuns.Run(true, before + (calls + [call])) ==
      AfterCall(PublishRuns.Run(true, before + calls), true, call)
  {
    assert before + (calls + [call]) == before + calls + [call];
    assert (before + calls + [call])[..|before + calls|] == before + calls;
  }

  // ---- one message per type and cycle ----

  /** The samples of a type one cycle read; nothing when there are none. */
  function SampledIn(nodes: seq<ReadNode>, kind: string): Cycle -> Option<seq<Sample>> {
    (cycle: Cycle) =>
      var samples := Pick(StepsOf(CallsOf(nodes, cycle)), SampledAs(kind));
      if samples == [] then None else Some(samples)
  }

  lemma {:induction false} AcceptingOnlyActs(nodes: seq<ReadNode>, values: seq<DataValue>, now: string, n: nat)
    requires n <= |nodes| && n <= |values|
    ensures forall call :: call in AcceptedIn(nodes, values, now, n) ==> call.Accepting?
  {
    if n > 0 {
      AcceptingOnlyActs(nodes, values, now, n - 1);
    }
  }

  lemma {:induction false} ActionStepsAct(actions: seq<Resolve.Action>, node: string, v: DataValue, now: string)
    ensures forall i :: 0 <= i < |ActionSteps(actions, node, v, now)| ==> ActionSteps(actions, node, v, now)[i].Act?
  {
    if actions != [] {
      ActionStepsAct(actions[..|actions| - 1], node, v, now);
    }
  }

  lemma {:induction false} AcceptingSteps(calls: seq<Call>)
    requires forall call :: call in calls ==> call.Accepting?
    ensures forall i :: 0 <= i < |StepsOf(calls)| ==> StepsOf(calls)[i].Act?
  {
    if calls != [] {
      var n := |calls| - 1;
      assert calls[n] in calls;
      AcceptingSteps(calls[..n]);
      ActionStepsAct(calls[n].actions, calls[n].node, calls[n].value, calls[n].now);
    }
  }

  /** Steps that do not flush only widen the open window. */
  lemma {:induction false} ActsWiden(before: seq<Step>, acts: seq<Step>, kind: string)
    requires forall i :: 0 <= i < |acts| ==> acts[i].Act?
    ensures OpenWindow(before + acts, kind) == OpenWindow(before, kind) + Pick(acts, SampledAs(kind))
    ensures ClosedWindows(before + acts, kind) == ClosedWindows(before, kind)
  {
    if acts == [] {
      assert before + acts == before;
    } else {
      var n := |acts| - 1;
      ActsWiden(before, acts[..n], kind);
      assert (before + acts)[..|before + acts| - 1] == before + acts[..n];
    }
  }

  lemma FlushCloses(before: seq<Step>, acts: seq<Step>, now: string, kind: string)
    requires forall i :: 0 <= i < |acts| ==> acts[i].Act?
    requires OpenWindow(before, kind) == []
    ensures
      var steps, samples := before + (acts + [Flush(now)]), Pick(acts, SampledAs(kind));
      var closed := ClosedWindows(before, kind);
      && OpenWindow(steps, kind) == []
      && ClosedWindows(steps, kind) == if samples != [] then closed + [samples] else closed
  {
    ActsWiden(before, acts, kind);
    var steps := before + acts;
    assert before + (acts + [Flush(now)]) == steps + [Flush(now)];
    assert (steps + [Flush(now)])[..|steps|] == steps;
    assert [] + Pick(acts, SampledAs(kind)) == Pick(acts, SampledAs(kind));
  }

  lemma ReadSteps(nodes: seq<ReadNode>, values: seq<DataValue>, now: string) returns (acts: seq<Step>)
    ensures forall i :: 0 <= i < |acts| ==> acts[i].Act?
    ensures StepsOf(CallsOf(nodes, Read(values, now))) == acts + [Flush(now)]
  {
    var accepted := AcceptedIn(nodes, values, now, Paired(nodes, values));
    acts := StepsOf(accepted);
    AcceptingOnlyActs(nodes, values, now, Paired(nodes, values));
    AcceptingSteps(accepted);
    StepsOneMore(accepted, Flushing(now));
  }

  lemma CycleClosesOneWindow(before: seq<Call>, nodes: seq<ReadNode>, cycle: Cycle, kind: string)
    requires OpenWindow(StepsOf(before), kind) == []
    ensures
      var steps, samples := StepsOf(before + CallsOf(nodes, cycle)), SampledIn(nodes, kind)(cycle);
      var closed := ClosedWindows(StepsOf(before), kind);
      && OpenWindow(steps, kind) == []
      && ClosedWindows(steps, kind) == if samples.Some? then closed + [samples.value] else closed
  {
    StepsAppend(before, CallsOf(nodes, cycle));
    if cycle.Failed? {
      assert StepsOf(before) + [] == StepsOf(before);
    } else {
      var acts := ReadSteps(nodes, cycle.values, cycle.now);
      FlushCloses(StepsOf(before), acts, cycle.now, kind);
      PickOne(acts, Flush(cycle.now), SampledAs(kind));
    }
  }

  /** Between cycles nothing is batched, and the windows of a type are those of the cycles that read
      it, one each. */
  lemma {:induction false} WindowsAreCycles(nodes: seq<ReadNode>, cycles: seq<Cycle>, kind: string)
    ensures
      var steps := StepsOf(CallsOver(nodes, cycles));
      OpenWindow(steps, kind) == [] && ClosedWindows(steps, kind) == Pick(cycles, SampledIn(nodes, kind))
  {
    if cycles != [] {
      var n := |cycles| - 1;
      WindowsAreCycles(nodes, cycles[..n], kind);
      CycleClosesOneWindow(CallsOver(nodes, cycles[..n]), nodes, cycles[n], kind);
    }
  }

  /** So each good cycle sends one message per measurement type it read, and no other. */
  lemma OneMessagePerCycle(nodes: seq<ReadNode>, cycles: seq<Cycle>, kind: string)
    ensures
      var s := PublishRuns.Run(true, CallsOver(nodes, cycles));
      Pick(s.sent, MeasurementMade(kind)) == Bodies(Pick(cycles, SampledIn(nodes, kind)))
  {
    WindowsAreCycles(nodes, cycles, kind);
    MeasurementsAreWindows(true, CallsOver(nodes, cycles), kind);
  }
}
