/** The cloud-server provider over all its polls: what it knows, when it asks for help, how long it waits
    (crates/gateway/src/cloud_servers.rs). */
module CloudPolls {
  import opened Text
  import opened CloudServers
  import Backoff

  /** The gateway object the provider knows after these polls: what it found last, unless that was gone. */
  function Known(turns: seq<Turn>): Option<string> {
    if turns == [] then None
    else
      var n := |turns| - 1;
      var id := if Known(turns[..n]).Some? then Known(turns[..n])
                else if turns[n].lookup.Found? then Some(turns[n].lookup.moId) else None;
      if turns[n].fetch.Gone? then None else id
  }

  /** What it was told in a poll when it asked for the object, which it does only while it knows none. */
  function AnswersIn(known: Option<string>, turn: Turn): seq<Lookup> {
    if known.Some? then [] else [turn.lookup]
  }

  function Answers(turns: seq<Turn>): seq<Lookup> {
    if turns == [] then []
    else
      var n := |turns| - 1;
      Answers(turns[..n]) + AnswersIn(Known(turns[..n]), turns[n])
  }

  /** The misses since the object was found last; failed lookups in between do not count. */
  function Misses(answers: seq<Lookup>): nat {
    if answers == [] then 0
    else
      var n := |answers| - 1;
      match answers[n]
      case Found(_) => 0
      case Missing => Misses(answers[..n]) + 1
      case LookupFailed => Misses(answers[..n])
  }

  /** The successes and failures of a poll, in order; a refused fetch is neither. */
  function OutcomesIn(known: Option<string>, turn: Turn): seq<bool> {
    (if known.Some? then [] else [turn.lookup.Found?])
    + if (known.Some? || turn.lookup.Found?) && (turn.fetch.Read? || turn.fetch.Transient?) then [turn.fetch.Read?]
      else []
  }

  function Outcomes(turns: seq<Turn>): seq<bool> {
    if turns == [] then []
    else
      var n := |turns| - 1;
      Outcomes(turns[..n]) + OutcomesIn(Known(turns[..n]), turns[n])
  }

  /** The failures since the last success. */
  function Failures(outcomes: seq<bool>): nat {
    if outcomes == [] then 0
    else
      var n := |outcomes| - 1;
      if outcomes[n] then 0 else Failures(outcomes[..n]) + 1
  }

  lemma FailuresMore(outcomes: seq<bool>, good: bool)
    ensures Failures(outcomes + [good]) == if good then 0 else Failures(outcomes) + 1
  {
    assert (outcomes + [good])[..|outcomes|] == outcomes;
  }

  lemma MissesMore(answers: seq<Lookup>, answer: Lookup)
    ensures Misses(answers + [answer]) ==
      if answer.Found? then 0 else Misses(answers) + if answer.Missing? then 1 else 0
  {
    assert (answers + [answer])[..|answers|] == answers;
  }

  predicate Consistent(s: State, known: Option<string>, answers: seq<Lookup>, outcomes: seq<bool>, max: nat) {
    s.gatewayMoId == known && s.misses == Misses(answers) && s.backoff == Backoff.After(Failures(outcomes), max)
  }

  lemma LookupIsConsistent(s: State, known: Option<string>, answers: seq<Lookup>, outcomes: seq<bool>, lookup: Lookup,
                           max: nat)
    requires Consistent(s, known, answers, outcomes, max) && known.None?
    ensures
      var found := if lookup.Found? then Some(lookup.moId) else None;
      Consistent(AfterLookup(s, lookup, max), found, answers + [lookup], outcomes + [lookup.Found?], max)
  {
    MissesMore(answers, lookup);
    FailuresMore(outcomes, lookup.Found?);
    Backoff.OneMore(Failures(outcomes), max);
  }

  lemma FetchIsConsistent(externalId: string -> string, s: State, known: Option<string>, answers: seq<Lookup>,
                          outcomes: seq<bool>, fetch: Fetch, max: nat)
    requires Consistent(s, known, answers, outcomes, max) && known.Some?
    ensures
      var more := if fetch.Read? || fetch.Transient? then [fetch.Read?] else [];
      var next := if fetch.Gone? then None else known;
      Consistent(AfterFetch(externalId, s, fetch, max), next, answers, outcomes + more, max)
  {
    FailuresMore(outcomes, fetch.Read?);
    Backoff.OneMore(Failures(outcomes), max);
    assert outcomes + [] == outcomes;
  }

  /** After any polls: the object known is the one found last and not gone since, the misses are those since
      it was found, and the delay follows the failures since the last success. */
  lemma {:induction false} ProviderOverAllPolls(externalId: string -> string, turns: seq<Turn>, max: nat)
    ensures Consistent(Run(externalId, turns, max), Known(turns), Answers(turns), Outcomes(turns), max)
  {
    if turns != [] {
      var n := |turns| - 1;
      ProviderOverAllPolls(externalId, turns[..n], max);
      TurnIsConsistent(externalId, Run(externalId, turns[..n], max), turns, max);
    }
  }

  lemma TurnIsConsistent(externalId: string -> string, s: State, turns: seq<Turn>, max: nat)
    requires turns != []
    requires
      var before := turns[..|turns| - 1];
      Consistent(s, Known(before), Answers(before), Outcomes(before), max)
    ensures
      var next := AfterTurn(externalId, s, turns[|turns| - 1], max);
      Consistent(next, Known(turns), Answers(turns), Outcomes(turns), max)
  {
    var n := |turns| - 1;
    var known, answers, outcomes, turn := Known(turns[..n]), Answers(turns[..n]), Outcomes(turns[..n]), turns[n];
    if known.Some? {
      FetchIsConsistent(externalId, s, known, answers, outcomes, turn.fetch, max);
      assert answers + [] == answers;
      var more := if turn.fetch.Read? || turn.fetch.Transient? then [turn.fetch.Read?] else [];
      assert OutcomesIn(known, turn) == more;
    } else {
      LookupIsConsistent(s, known, answers, outcomes, turn.lookup, max);
      if turn.lookup.Found? {
        FetchIsConsistent(externalId, AfterLookup(s, turn.lookup, max), Some(turn.lookup.moId), answers + [turn.lookup],
                          outcomes + [true], turn.fetch, max);
        var more := if turn.fetch.Read? || turn.fetch.Transient? then [turn.fetch.Read?] else [];
        assert outcomes + OutcomesIn(known, turn) == outcomes + [true] + more;
      } else {
        assert OutcomesIn(known, turn) == [false];
      }
    }
  }

  // ---- waiting ----

  /** What the last outcome of a poll says about the wait after it. */
  function WaitAfter(outcomes: seq<bool>, more: seq<bool>, max: nat, pollInterval: nat): nat {
    if more != [] && !more[|more| - 1] then Backoff.After(Failures(outcomes + more) - 1, max) else pollInterval
  }

  lemma WaitAfterOne(outcomes: seq<bool>, good: bool, max: nat, pollInterval: nat)
    ensures WaitAfter(outcomes, [good], max, pollInterval) ==
      if good then pollInterval else Backoff.After(Failures(outcomes), max)
  {
    FailuresMore(outcomes, good);
  }

  lemma WaitAfterTwo(outcomes: seq<bool>, good: bool, max: nat, pollInterval: nat)
    ensures WaitAfter(outcomes, [true, good], max, pollInterval) == if good then pollInterval else Backoff.FIRST
  {
    FailuresMore(outcomes, true);
    FailuresMore(outcomes + [true], good);
    assert outcomes + [true] + [good] == outcomes + [true, good];
  }

  lemma OneDelay(s: State, known: Option<string>, answers: seq<Lookup>, outcomes: seq<bool>, turn: Turn, max: nat,
                 pollInterval: nat)
    requires Consistent(s, known, answers, outcomes, max)
    ensures DelayOf(s, turn, max, pollInterval) == WaitAfter(outcomes, OutcomesIn(known, turn), max, pollInterval)
  {
    var fetched := turn.fetch.Read? || turn.fetch.Transient?;
    if known.Some? {
      if fetched {
        assert OutcomesIn(known, turn) == [turn.fetch.Read?];
        WaitAfterOne(outcomes, turn.fetch.Read?, max, pollInterval);
      }
    } else if turn.lookup.Found? && fetched {
      assert OutcomesIn(known, turn) == [true, turn.fetch.Read?];
      WaitAfterTwo(outcomes, turn.fetch.Read?, max, pollInterval);
    } else {
      assert OutcomesIn(known, turn) == [turn.lookup.Found?];
      WaitAfterOne(outcomes, turn.lookup.Found?, max, pollInterval);
    }
  }

  /** Over all polls the provider waits its usual interval, unless the poll ended in a failure: then, after
      the k-th failure since the last success, it waits 2^(k-1) up to the maximum. */
  lemma DelayOverAllPolls(externalId: string -> string, turns: seq<Turn>, turn: Turn, max: nat, pollInterval: nat)
    ensures DelayOf(Run(externalId, turns, max), turn, max, pollInterval)
         == WaitAfter(Outcomes(turns), OutcomesIn(Known(turns), turn), max, pollInterval)
  {
    ProviderOverAllPolls(externalId, turns, max);
    OneDelay(Run(externalId, turns, max), Known(turns), Answers(turns), Outcomes(turns), turn, max, pollInterval);
  }

  // ---- help ----

  /** The answer at `i` is the miss that help goes out for. */
  predicate HelpsAt(answers: seq<Lookup>, i: nat) {
    i < |answers| && answers[i].Missing? && Misses(answers[..i + 1]) == 5
  }

  /** Over all polls, help goes out in a poll exactly when its answer is such a miss. */
  lemma HelpOverAllPolls(externalId: string -> string, turns: seq<Turn>, turn: Turn, max: nat)
    ensures HelpIsDue(Run(externalId, turns, max), turn, max)
      <==> HelpsAt(Answers(turns) + AnswersIn(Known(turns), turn), |Answers(turns)|)
  {
    ProviderOverAllPolls(externalId, turns, max);
    var answers := Answers(turns);
    if Known(turns).None? {
      MissesMore(answers, turn.lookup);
      assert (answers + [turn.lookup])[..|answers| + 1] == answers + [turn.lookup];
    }
  }

  predicate NeverFound(answers: seq<Lookup>, from: nat) {
    forall k :: from <= k < |answers| ==> !answers[k].Found?
  }

  lemma {:induction false} MissesGrow(answers: seq<Lookup>, i: nat)
    requires i <= |answers| && NeverFound(answers, i)
    ensures Misses(answers) >= Misses(answers[..i])
  {
    if i < |answers| {
      var n := |answers| - 1;
      MissesGrow(answers[..n], i);
      assert answers[..n][..i] == answers[..i];
    } else {
      assert answers[..i] == answers;
    }
  }

  /** After help went out, a further miss is one too many. */
  lemma TooManyMisses(answers: seq<Lookup>, i: nat, j: nat)
    requires i < j < |answers| && HelpsAt(answers, i) && NeverFound(answers[..j], i + 1) && answers[j].Missing?
    ensures Misses(answers[..j + 1]) > 5
  {
    MissesGrow(answers[..j], i + 1);
    assert answers[..j][..i + 1] == answers[..i + 1];
    MissesMore(answers[..j], answers[j]);
    assert answers[..j] + [answers[j]] == answers[..j + 1];
  }

  /** Between two helps the object was found. */
  lemma HelpOncePerAbsence(answers: seq<Lookup>, i: nat, j: nat)
    requires i < j && HelpsAt(answers, i) && HelpsAt(answers, j)
    ensures exists k :: i < k < j && answers[k].Found?
  {
    if NeverFound(answers[..j], i + 1) {
      TooManyMisses(answers, i, j);
    }
  }

  /** Enough misses since the object was found, and only those, have had their help. */
  lemma {:induction false} HelpGoesOut(answers: seq<Lookup>)
    ensures Misses(answers) >= 5 <==> exists i: nat :: HelpsAt(answers, i) && NeverFound(answers, i)
  {
    if answers != [] {
      var n := |answers| - 1;
      HelpGoesOut(answers[..n]);
      MissesMore(answers[..n], answers[n]);
      assert answers == answers[..n] + [answers[n]] && answers[..n + 1] == answers;
      if Misses(answers) >= MISSES_BEFORE_HELP {
        if answers[n].Missing? && Misses(answers) == MISSES_BEFORE_HELP {
          assert HelpsAt(answers, n) && NeverFound(answers, n);
        } else {
          var i: nat :| HelpsAt(answers[..n], i) && NeverFound(answers[..n], i);
          assert answers[..n][..i + 1] == answers[..i + 1];
          assert HelpsAt(answers, i) && NeverFound(answers, i);
        }
      }
      if exists i: nat :: HelpsAt(answers, i) && NeverFound(answers, i) {
        var i: nat :| HelpsAt(answers, i) && NeverFound(answers, i);
        MissesGrow(answers, i + 1);
      }
    }
  }
}
