/** Device types from inventory and from files, merged on every poll and sent when their markers moved
    (crates/gateway/src/device_types.rs). */
module DeviceTypes {
  import opened Text
  import opened Model
  import opened Ordered
  import opened Watch
  import opened Source
  import Backoff

  /** What one fetch through the proxy gave. */
  datatype Fetch = Fresh(types: seq<LoadedDeviceType>) | Transient | Permanent

  /** One turn of the poll loop: the fetch, when there is a proxy, and the pushed files. */
  datatype Turn = Turn(fetch: Option<Fetch>, pushed: seq<LoadedDeviceType>)

  datatype State = State(revision: Revision, backoff: nat, pulled: seq<LoadedDeviceType>,
                         channel: Channel<seq<LoadedDeviceType>>)

  const INITIAL := State(map[], Backoff.FIRST, [], Channel(0, []))

  function AfterFetch(s: State, fetch: Option<Fetch>, max: nat): State {
    match fetch
    case Some(Fresh(types)) => s.(pulled := types, backoff := Backoff.FIRST)
    case Some(Transient) => s.(backoff := Backoff.Next(s.backoff, max))
    case _ => s
  }

  function AfterTurn(s: State, turn: Turn, max: nat): State {
    var fetched := AfterFetch(s, turn.fetch, max);
    var merged := Merged(fetched.pulled, turn.pushed);
    if IsEmpty(DiffOf(s.revision, RevisionOf(merged))) then fetched
    else fetched.(revision := RevisionOf(merged), channel := s.channel.Send(merged))
  }

  class Provider {
    const maxBackoff: nat
    const pollInterval: nat
    var revision: Revision
    var backoff: nat
    /** Device types already fetched; only a good fetch replaces them. */
    var pulled: seq<LoadedDeviceType>
    var channel: Channel<seq<LoadedDeviceType>>

    constructor (maxBackoff: nat, pollInterval: nat)
      ensures Current() == INITIAL
      ensures this.maxBackoff == maxBackoff && this.pollInterval == pollInterval
    {
      this.maxBackoff, this.pollInterval := maxBackoff, pollInterval;
      revision, backoff, pulled, channel := map[], Backoff.FIRST, [], Channel(0, []);
    }

    ghost function Current(): State
      reads this
    {
      State(revision, backoff, pulled, channel)
    }

    /** One poll: fetch, merge, and send when some marker moved. Without a consumer left the send
        fails, the channel keeps its value and the provider stops. */
    method Poll(turn: Turn, consumed: bool) returns (delay: nat, stop: bool)
      modifies this
      ensures !stop ==> Current() == AfterTurn(old(Current()), turn, maxBackoff)
      ensures stop <==> !consumed && AfterTurn(old(Current()), turn, maxBackoff).channel != old(channel)
      ensures stop ==> Current() == AfterTurn(old(Current()), turn, maxBackoff).(channel := old(channel))
      ensures delay == if turn.fetch == Some(Transient) then old(backoff) else pollInterval
    {
      delay, stop := pollInterval, false;
      if turn.fetch.Some? {
        match turn.fetch.value {
          case Fresh(types) =>
            pulled := types;
            backoff := Backoff.FIRST;
          case Transient =>
            delay := backoff;
            backoff := Backoff.Next(backoff, maxBackoff);
          case Permanent =>
        }
      }
      var merged := Merge(pulled, turn.pushed);
      var freshRevision := RevisionOf(merged);
      var diff := Between(revision, freshRevision);
      if !IsEmpty(diff) {
        revision := freshRevision;
        if consumed {
          channel := channel.Send(merged);
        } else {
          stop := true;
        }
      }
    }
  }

  // ---- over all polls ----

  function Run(turns: seq<Turn>, max: nat): State {
    if turns == [] then INITIAL
    else
      var n := |turns| - 1;
      AfterTurn(Run(turns[..n], max), turns[n], max)
  }

  /** The device types of the last good fetch. */
  function LastGood(turns: seq<Turn>): seq<LoadedDeviceType> {
    if turns == [] then []
    else
      var n := |turns| - 1;
      match turns[n].fetch
      case Some(Fresh(types)) => types
      case _ => LastGood(turns[..n])
  }

  /** Transient failures since the last good fetch. */
  function Failures(turns: seq<Turn>): nat {
    if turns == [] then 0
    else
      var n := |turns| - 1;
      match turns[n].fetch
      case Some(Fresh(_)) => 0
      case Some(Transient) => Failures(turns[..n]) + 1
      case _ => Failures(turns[..n])
  }

  /** Some id appeared, disappeared or changed its marker. */
  predicate MarkerMoved(before: Revision, after: Revision) {
    exists id :: (id in before.Keys + after.Keys) && !(id in before && id in after && before[id] == after[id])
  }

  /** After any polls: failed fetches never altered the pulled part, the delay follows the failures,
      and the revision is that of the set on the channel. */
  predicate Consistent(s: State, turns: seq<Turn>, max: nat) {
    && s.pulled == LastGood(turns)
    && s.backoff == Backoff.After(Failures(turns), max)
    && s.revision == RevisionOf(s.channel.value)
  }

  lemma {:induction false} ProviderOverAllPolls(turns: seq<Turn>, max: nat)
    ensures Consistent(Run(turns, max), turns, max)
  {
    if turns == [] {
      assert Consistent(INITIAL, turns, max);
    } else {
      var n := |turns| - 1;
      ProviderOverAllPolls(turns[..n], max);
      ConsistentTurn(Run(turns[..n], max), turns, max);
    }
  }

  lemma ConsistentTurn(s: State, turns: seq<Turn>, max: nat)
    requires turns != [] && Consistent(s, turns[..|turns| - 1], max)
    ensures Consistent(AfterTurn(s, turns[|turns| - 1], max), turns, max)
  {
    var n := |turns| - 1;
    OneTurn(s, turns[n], max);
    FetchIsConsistent(s, turns, max);
  }

  lemma FetchIsConsistent(s: State, turns: seq<Turn>, max: nat)
    requires turns != [] && Consistent(s, turns[..|turns| - 1], max)
    ensures
      var fetched := AfterFetch(s, turns[|turns| - 1].fetch, max);
      fetched.pulled == LastGood(turns) && fetched.backoff == Backoff.After(Failures(turns), max)
  {
    match turns[|turns| - 1].fetch
    case Some(Fresh(types)) =>
      assert LastGood(turns) == types && Failures(turns) == 0;
    case Some(Transient) =>
      var past := Failures(turns[..|turns| - 1]);
      assert Failures(turns) == past + 1;
      Backoff.OneMore(past, max);
    case _ =>
      assert Failures(turns) == Failures(turns[..|turns| - 1]);
  }

  /** The revision is also that of the last good pull merged under the current push, and the last
      poll sent exactly when some marker moved. */
  lemma LastPollSends(turns: seq<Turn>, max: nat)
    requires turns != []
    ensures
      var n := |turns| - 1;
      var before, s := Run(turns[..n], max), Run(turns, max);
      && s.revision == RevisionOf(Merged(LastGood(turns), turns[n].pushed))
      && s.channel.version == before.channel.version + (if MarkerMoved(before.revision, s.revision) then 1 else 0)
  {
    var n := |turns| - 1;
    ProviderOverAllPolls(turns[..n], max);
    ProviderOverAllPolls(turns, max);
    OneTurn(Run(turns[..n], max), turns[n], max);
  }

  /** One poll from any state whose revision is that of its channel. */
  lemma OneTurn(s: State, turn: Turn, max: nat)
    requires s.revision == RevisionOf(s.channel.value)
    ensures
      var fetched, next := AfterFetch(s, turn.fetch, max), AfterTurn(s, turn, max);
      && next.pulled == fetched.pulled && next.backoff == fetched.backoff
      && next.revision == RevisionOf(next.channel.value) == RevisionOf(Merged(fetched.pulled, turn.pushed))
      && next.channel.version == s.channel.version + (if MarkerMoved(s.revision, next.revision) then 1 else 0)
  {
    var after := RevisionOf(Merged(AfterFetch(s, turn.fetch, max).pulled, turn.pushed));
    DiffIsExact(s.revision, after);
    MovedIsDifferent(s.revision, after);
  }

  lemma MovedIsDifferent(before: Revision, after: Revision)
    ensures MarkerMoved(before, after) <==> before != after
  {
    if !MarkerMoved(before, after) {
      forall id ensures id in before <==> id in after {
        assert id in before.Keys + after.Keys ==> id in before && id in after;
      }
      forall id | id in before ensures before[id] == after[id] {
        assert id in before.Keys + after.Keys;
      }
      assert before.Keys == after.Keys;
    }
  }

  /** Markers that determine their device type: what a change marker is for. */
  predicate Faithful(content: (string, Marker) -> DeviceType, loaded: seq<LoadedDeviceType>) {
    forall l :: l in loaded ==> l.deviceType == content(l.id, MarkerOf(l))
  }

  predicate FaithfulTurns(content: (string, Marker) -> DeviceType, turns: seq<Turn>) {
    forall i :: 0 <= i < |turns| ==>
      && Faithful(content, turns[i].pushed)
      && (turns[i].fetch.Some? && turns[i].fetch.value.Fresh? ==> Faithful(content, turns[i].fetch.value.types))
  }

  lemma SameRevisionSameSet(content: (string, Marker) -> DeviceType,
                            a: seq<LoadedDeviceType>, b: seq<LoadedDeviceType>,
                            c: seq<LoadedDeviceType>, d: seq<LoadedDeviceType>)
    requires Faithful(content, a) && Faithful(content, b) && Faithful(content, c) && Faithful(content, d)
    requires RevisionOf(Merged(a, b)) == RevisionOf(Merged(c, d))
    ensures Merged(a, b) == Merged(c, d)
  {
    var x, y := Merged(a, b), Merged(c, d);
    assert Ids(a) + Ids(b) == Ids(c) + Ids(d) by {
      RevisionOfMerge(a, b);
      RevisionOfMerge(c, d);
    }
    forall i | 0 <= i < |x| ensures x[i] == y[i] {
      MergedAt(content, a, b, i);
      MergedAt(content, c, d, i);
    }
  }

  lemma MergedAt(content: (string, Marker) -> DeviceType, a: seq<LoadedDeviceType>, b: seq<LoadedDeviceType>, i: nat)
    requires Faithful(content, a) && Faithful(content, b) && i < |Merged(a, b)|
    ensures
      var l := Merged(a, b)[i];
      && l.id in RevisionOf(Merged(a, b)) && MarkerOf(l) == RevisionOf(Merged(a, b))[l.id]
      && l.deviceType == content(l.id, MarkerOf(l))
  {
    var merged := Merged(a, b);
    assert merged[i] in merged;
    RevisionOfMerge(a, b);
    MergedIsSortedAndComplete(a, b);
  }

  lemma {:induction false} LastGoodIsFaithful(content: (string, Marker) -> DeviceType, turns: seq<Turn>)
    requires FaithfulTurns(content, turns)
    ensures Faithful(content, LastGood(turns))
  {
    if turns != [] {
      LastGoodIsFaithful(content, turns[..|turns| - 1]);
    }
  }

  // ---- without trust in the markers ----

  /** What the provider merged last: the last good fetch under the push of the last poll. */
  function LastMerge(turns: seq<Turn>): seq<LoadedDeviceType> {
    if turns == [] then [] else Merged(LastGood(turns), turns[|turns| - 1].pushed)
  }

  /** After every poll the channel held what was merged. */
  predicate AlwaysCurrent(turns: seq<Turn>, max: nat) {
    turns == [] ||
    (AlwaysCurrent(turns[..|turns| - 1], max) && Run(turns, max).channel.value == LastMerge(turns))
  }

  /** No poll merged another set with the markers of the one before. */
  predicate NeverMasked(turns: seq<Turn>) {
    turns == [] ||
    var past, latest := LastMerge(turns[..|turns| - 1]), LastMerge(turns);
    NeverMasked(turns[..|turns| - 1]) && (RevisionOf(past) == RevisionOf(latest) ==> past == latest)
  }

  /** Whatever the markers are, the channel is current after every poll exactly when no change was
      masked by equal markers. */
  lemma {:induction false} CurrentIffNeverMasked(turns: seq<Turn>, max: nat)
    ensures AlwaysCurrent(turns, max) <==> NeverMasked(turns)
  {
    if turns != [] {
      var n := |turns| - 1;
      CurrentIffNeverMasked(turns[..n], max);
      if AlwaysCurrent(turns[..n], max) {
        CurrentSoFar(turns[..n], max);
        SendsWhenMoved(turns, max);
      }
    }
  }

  lemma LastMergeIsAMerge(content: (string, Marker) -> DeviceType, turns: seq<Turn>)
    returns (p: seq<LoadedDeviceType>, q: seq<LoadedDeviceType>)
    requires FaithfulTurns(content, turns)
    ensures Faithful(content, p) && Faithful(content, q) && LastMerge(turns) == Merged(p, q)
  {
    if turns == [] {
      p, q := [], [];
      assert Ids([]) + Ids([]) == {};
      assert |Merged([], [])| == 0;
    } else {
      LastGoodIsFaithful(content, turns);
      p, q := LastGood(turns), turns[|turns| - 1].pushed;
    }
  }

  /** Markers that determine their device type mask nothing. */
  lemma {:induction false} FaithfulMarkersMaskNothing(content: (string, Marker) -> DeviceType, turns: seq<Turn>)
    ensures FaithfulTurns(content, turns) ==> NeverMasked(turns)
  {
    if FaithfulTurns(content, turns) && turns != [] {
      var before := turns[..|turns| - 1];
      FaithfulMarkersMaskNothing(content, before);
      LastGoodIsFaithful(content, turns);
      LastGoodIsFaithful(content, before);
      var p, q := LastMergeIsAMerge(content, before);
      if RevisionOf(LastMerge(before)) == RevisionOf(LastMerge(turns)) {
        SameRevisionSameSet(content, p, q, LastGood(turns), turns[|turns| - 1].pushed);
      }
    }
  }

  /** With such markers the channel holds, after every poll, exactly the last good pull merged under the
      current push. */
  lemma ChannelHoldsTheMerge(content: (string, Marker) -> DeviceType, turns: seq<Turn>, max: nat)
    requires FaithfulTurns(content, turns)
    ensures Run(turns, max).channel.value == LastMerge(turns)
  {
    FaithfulMarkersMaskNothing(content, turns);
    CurrentIffNeverMasked(turns, max);
    CurrentSoFar(turns, max);
  }

  lemma CurrentSoFar(turns: seq<Turn>, max: nat)
    requires AlwaysCurrent(turns, max)
    ensures Run(turns, max).channel.value == LastMerge(turns)
  {
  }

  /** A set is left unsent exactly when the revision at hand is that of what was merged. */
  lemma TurnSends(s: State, turn: Turn, max: nat, merged: seq<LoadedDeviceType>)
    requires merged == Merged(AfterFetch(s, turn.fetch, max).pulled, turn.pushed)
    ensures AfterTurn(s, turn, max).channel.value ==
      if RevisionOf(merged) == s.revision then s.channel.value else merged
  {
    DiffIsExact(s.revision, RevisionOf(merged));
  }

  /** A poll replaces the set on the channel exactly when the markers moved. */
  lemma SendsWhenMoved(turns: seq<Turn>, max: nat)
    requires turns != []
    ensures
      var before := Run(turns[..|turns| - 1], max).channel.value;
      Run(turns, max).channel.value ==
        if RevisionOf(LastMerge(turns)) == RevisionOf(before) then before else LastMerge(turns)
  {
    var n := |turns| - 1;
    ProviderOverAllPolls(turns[..n], max);
    ProviderOverAllPolls(turns, max);
    TurnSends(Run(turns[..n], max), turns[n], max, LastMerge(turns));
  }

  /** Two versions of one device type that carry no time of their last update. */
  function Untimed(dt: DeviceType): seq<LoadedDeviceType> {
    [LoadedDeviceType("1", Pull, "", dt)]
  }

  /** An edit to a managed object without such a time is never sent: the channel keeps what was fetched
      first. */
  lemma UntimedEditIsMissed(a: DeviceType, b: DeviceType, max: nat) returns (turns: seq<Turn>)
    requires a != b
    ensures turns == [Turn(Some(Fresh(Untimed(a))), []), Turn(Some(Fresh(Untimed(b))), [])]
    ensures Run(turns, max).channel.value == Untimed(a) && LastMerge(turns) == Untimed(b)
    ensures Untimed(a) != Untimed(b)
  {
    turns := [Turn(Some(Fresh(Untimed(a))), []), Turn(Some(Fresh(Untimed(b))), [])];
    assert turns[..1] == [turns[0]] && turns[..1][..0] == [];
    assert Run(turns[..1][..0], max) == INITIAL;
    MergedAlone(a);
    MergedAlone(b);
    UntimedRevision(a);
    UntimedRevision(b);
    assert RevisionOf([]) == map[];
    SendsWhenMoved(turns[..1], max);
    SendsWhenMoved(turns, max);
    assert Untimed(a)[0] != Untimed(b)[0];
  }

  lemma UntimedRevision(dt: DeviceType)
    ensures RevisionOf(Untimed(dt)) == map["1" := (Pull, "")]
  {
    assert Untimed(dt)[..0] == [];
  }

  lemma MergedAlone(dt: DeviceType)
    ensures Merged(Untimed(dt), []) == Untimed(dt)
  {
    var l := Untimed(dt)[0];
    assert l in Untimed(dt) && Ids(Untimed(dt)) + Ids([]) == {"1"};
    SortedIsUnique(SortedKeys({"1"}), ["1"]);
    assert Merged(Untimed(dt), [])[0] == l;
  }
}
