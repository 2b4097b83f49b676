/** One reconcile round of the composed system, from merging to waiting, ends as `Reconcile` does, whatever
    the world and the tasks do between its steps (crates/gateway/src/supervisor.rs). */
module Rounds {
  import opened Text
  import opened Config
  import opened Gateway
  import S = Supervisor
  import T = ServerTask

  predicate IsReconciling(phase: Phase) {
    phase.Clearing? || phase.Joining? || phase.Starting?
  }

  /** The world after merging in `start` and the given steps, all taken while the round lasted. */
  function RoundFrom(cfg: Setup, start: World, steps: seq<Step>): Option<World> {
    if steps == [] then
      if Shape(start) && Enabled(start, Merges) then Some(After(cfg, start, Merges)) else None
    else
      var n := |steps| - 1;
      match RoundFrom(cfg, start, steps[..n])
      case None => None
      case Some(w) =>
        if Shape(w) && IsReconciling(w.phase) && Enabled(w, steps[n]) then Some(After(cfg, w, steps[n])) else None
  }

  predicate IsAt(w: World, id: string, t: nat) {
    id in w.running && w.running[id] == t
  }

  predicate IsEnding(w: World, t: nat) {
    IsDone(w, t) || (w.phase.Joining? && w.phase.task == t)
  }

  predicate IsCleared(phase: Phase) {
    phase.Starting? || phase.Waiting?
  }

  /** A task of the start is where it was, and agreed with once clearing is over; or it was told what its
      fate is and is ending. */
  predicate IsTreated(desired: seq<ServerConfig>, start: World, w: World, id: string)
    requires id in start.running
  {
    var t := start.running[id];
    t < |w.tasks| && |w.tokens| == |w.tasks|
    && var fate := S.FateOf(desired, w.tasks[t].server);
       if IsAt(w, id, t) then w.tokens[t] == Tokens(false, false) && (IsCleared(w.phase) ==> fate.Kept?)
       else
         match fate
         case Gone => w.tokens[t] == Tokens(false, true) && IsEnding(w, t)
         case Changed => w.tokens[t] == Tokens(true, false) && IsEnding(w, t)
         case Kept => false
  }

  /** Whatever else runs was started in this round, once clearing is over. */
  predicate IsOldOrNew(desired: seq<ServerConfig>, start: World, w: World, id: string)
    requires Shape(w) && id in w.running
  {
    var t := w.running[id];
    || (id in start.running && t == start.running[id])
    || (t >= |start.tasks| && w.tasks[t].known == S.Ids(desired) && IsCleared(w.phase))
  }

  predicate SameServers(start: World, w: World) {
    |start.tasks| <= |w.tasks| && forall t :: 0 <= t < |start.tasks| ==> w.tasks[t].server == start.tasks[t].server
  }

  predicate InRound(desired: seq<ServerConfig>, start: World, w: World)
    requires Shape(start) && Shape(w)
  {
    && SameServers(start, w)
    && (forall id :: id in start.running ==> IsTreated(desired, start, w, id))
    && (forall id :: id in w.running ==> IsOldOrNew(desired, start, w, id))
  }

  lemma MergesEnters(cfg: Setup, start: World)
    requires Inv(cfg, start) && Enabled(start, Merges)
    ensures
      var w := After(cfg, start, Merges);
      Shape(w) && InRound(DesiredNow(cfg, w), start, w)
  {
  }

  /** The tasks are where they were and go on ending. */
  predicate IsSteady(w: World, after: World) {
    && after.running == w.running && after.tokens == w.tokens && |after.tasks| == |w.tasks|
    && (forall t :: 0 <= t < |w.tasks| ==>
          after.tasks[t].server == w.tasks[t].server && after.tasks[t].known == w.tasks[t].known)
    && (forall t :: 0 <= t < |w.tasks| && IsEnding(w, t) ==> IsEnding(after, t))
  }

  lemma SteadyStays(desired: seq<ServerConfig>, start: World, w: World, after: World)
    requires Shape(start) && Shape(w) && Shape(after) && InRound(desired, start, w)
    requires IsSteady(w, after) && (IsCleared(w.phase) ==> IsCleared(after.phase))
    requires IsCleared(after.phase) && !IsCleared(w.phase) ==>
      forall id :: id in w.running ==> S.FateOf(desired, w.tasks[w.running[id]].server).Kept?
    ensures InRound(desired, start, after)
  {
    forall id | id in start.running ensures IsTreated(desired, start, after, id) {
      assert IsTreated(desired, start, w, id);
    }
    forall id | id in after.running ensures IsOldOrNew(desired, start, after, id) {
      assert IsOldOrNew(desired, start, w, id);
    }
  }

  /** When clearing is over, only agreeing tasks are left. */
  lemma ClearedAreKept(cfg: Setup, w: World, id: string)
    requires Shape(w) && Settling(cfg, w) && Enabled(w, Cleared) && id in w.running
    ensures S.FateOf(DesiredNow(cfg, w), w.tasks[w.running[id]].server).Kept?
  {
    assert id in ServersOf(w);
  }

  lemma QuietStays(cfg: Setup, start: World, w: World, step: Step)
    requires Shape(start) && Shape(w) && Settling(cfg, w) && IsReconciling(w.phase) && Enabled(w, step)
    requires MovesNoTask(step) && InRound(DesiredNow(cfg, w), start, w) && Shape(After(cfg, w, step))
    ensures DesiredNow(cfg, After(cfg, w, step)) == DesiredNow(cfg, w)
    ensures InRound(DesiredNow(cfg, w), start, After(cfg, w, step))
  {
    QuietSteps(cfg, w, step);
    QuietPhases(cfg, w, step);
    if step.Cleared? {
      forall id | id in w.running ensures S.FateOf(DesiredNow(cfg, w), w.tasks[w.running[id]].server).Kept? {
        ClearedAreKept(cfg, w, id);
      }
    }
    SteadyStays(DesiredNow(cfg, w), start, w, After(cfg, w, step));
  }

  lemma QuietPhases(cfg: Setup, w: World, step: Step)
    requires Shape(w) && IsReconciling(w.phase) && Enabled(w, step) && MovesNoTask(step)
    ensures
      var after := After(cfg, w, step);
      && after.cloudSeen == w.cloudSeen
      && (if step.Cleared? || step.Started? then IsCleared(after.phase) else after.phase == w.phase)
      && (step.Started? ==> IsCleared(w.phase))
  {
  }

  /** Taking a task out of the map with the token its fate asks for. */
  lemma TakenOutStays(desired: seq<ServerConfig>, start: World, w: World, id: string, after: World)
    requires Shape(start) && Shape(w) && Uncancelled(w) && InRound(desired, start, w) && w.phase.Clearing?
    requires id in w.running && Shape(after) && after.tasks == w.tasks && after.running == w.running - {id}
    requires after.phase.Joining? && after.phase.task == w.running[id]
    requires
      var t := w.running[id];
      match S.FateOf(desired, w.tasks[t].server)
      case Gone => after.tokens == w.tokens[t := Tokens(false, true)]
      case Changed => after.tokens == w.tokens[t := Tokens(true, false)]
      case Kept => false
    ensures InRound(desired, start, after)
  {
    forall k | k in start.running ensures IsTreated(desired, start, after, k) {
      TakenOutTreats(desired, start, w, id, after, k);
    }
    forall k | k in after.running ensures IsOldOrNew(desired, start, after, k) {
      assert w.running[k] == after.running[k] && IsOldOrNew(desired, start, w, k);
    }
  }

  lemma TakenOutTreats(desired: seq<ServerConfig>, start: World, w: World, id: string, after: World, k: string)
    requires Shape(w) && Uncancelled(w) && w.phase.Clearing? && k in start.running && IsTreated(desired, start, w, k)
    requires id in w.running && Shape(after) && after.tasks == w.tasks && after.running == w.running - {id}
    requires after.phase.Joining? && after.phase.task == w.running[id]
    requires
      var t := w.running[id];
      match S.FateOf(desired, w.tasks[t].server)
      case Gone => after.tokens == w.tokens[t := Tokens(false, true)]
      case Changed => after.tokens == w.tokens[t := Tokens(true, false)]
      case Kept => false
    ensures IsTreated(desired, start, after, k)
  {
    if k in w.running && k != id {
      OthersElsewhere(w, id, k);
    }
  }

  lemma OthersElsewhere(w: World, id: string, k: string)
    requires Shape(w) && id in w.running && k in w.running && k != id
    ensures w.running[k] != w.running[id]
  {
  }

  /** Nothing to take out: only the list gets shorter. */
  lemma PassedStays(desired: seq<ServerConfig>, start: World, w: World, phase: Phase)
    requires Shape(start) && Shape(w) && InRound(desired, start, w) && w.phase.Clearing? && phase.Clearing?
    ensures InRound(desired, start, w.(phase := phase))
  {
    SteadyStays(desired, start, w, w.(phase := phase));
  }

  lemma RemovesStays(cfg: Setup, start: World, w: World, id: string)
    requires Shape(start) && Shape(w) && Uncancelled(w) && Settling(cfg, w)
    requires w.phase.Clearing? && id in w.phase.removed
    requires InRound(DesiredNow(cfg, w), start, w) && Shape(AfterRemoves(w, id))
    ensures DesiredNow(cfg, AfterRemoves(w, id)) == DesiredNow(cfg, w)
    ensures InRound(DesiredNow(cfg, w), start, AfterRemoves(w, id))
  {
    var after, desired := AfterRemoves(w, id), DesiredNow(cfg, w);
    if id in w.running {
      ListedFate(cfg, w, id);
      TakenOutStays(desired, start, w, id, after);
    } else {
      PassedStays(desired, start, w, after.phase);
    }
  }

  lemma RestartsStays(cfg: Setup, start: World, w: World)
    requires Shape(start) && Shape(w) && Uncancelled(w) && Settling(cfg, w)
    requires w.phase.Clearing? && w.phase.restarted != []
    requires InRound(DesiredNow(cfg, w), start, w) && Shape(AfterRestarts(w))
    ensures DesiredNow(cfg, AfterRestarts(w)) == DesiredNow(cfg, w)
    ensures InRound(DesiredNow(cfg, w), start, AfterRestarts(w))
  {
    var after, desired, id := AfterRestarts(w), DesiredNow(cfg, w), w.phase.restarted[0];
    if id in w.running {
      ListedFate(cfg, w, id);
      TakenOutStays(desired, start, w, id, after);
    } else {
      PassedStays(desired, start, w, after.phase);
    }
  }

  lemma JoinsStays(cfg: Setup, start: World, w: World)
    requires Shape(start) && Shape(w) && Enabled(w, Joins) && Shape(After(cfg, w, Joins))
    requires InRound(DesiredNow(cfg, w), start, w)
    ensures DesiredNow(cfg, After(cfg, w, Joins)) == DesiredNow(cfg, w)
    ensures InRound(DesiredNow(cfg, w), start, After(cfg, w, Joins))
  {
    SteadyStays(DesiredNow(cfg, w), start, w, After(cfg, w, Joins));
  }

  /** Starting what is missing leaves the others where they are. */
  lemma StartsPlaces(w: World)
    requires Shape(w) && w.phase.Starting? && w.phase.next < |w.phase.desired|
    ensures
      var after, id := AfterStarts(w), w.phase.desired[w.phase.next].id;
      && after.phase.Starting? && after.cloud == w.cloud && after.cloudSeen == w.cloudSeen
      && |w.tasks| <= |after.tasks| && |after.tokens| == |after.tasks|
      && after.tasks[..|w.tasks|] == w.tasks && after.tokens[..|w.tokens|] == w.tokens
      && (forall k :: k in w.running ==> IsAt(after, k, w.running[k]))
      && (forall k :: k in after.running && k !in w.running ==>
            after.running[k] == |w.tasks| < |after.tasks|
            && after.tasks[|w.tasks|].known == S.Ids(w.phase.desired))
  {
  }

  lemma StartsStays(cfg: Setup, start: World, w: World)
    requires Shape(start) && Shape(w) && Settling(cfg, w) && w.phase.Starting? && w.phase.next < |w.phase.desired|
    requires InRound(DesiredNow(cfg, w), start, w) && Shape(AfterStarts(w))
    ensures DesiredNow(cfg, AfterStarts(w)) == DesiredNow(cfg, w)
    ensures InRound(DesiredNow(cfg, w), start, AfterStarts(w))
  {
    StartsPlaces(w);
    GrownStays(DesiredNow(cfg, w), start, w, AfterStarts(w));
  }

  lemma GrownStays(desired: seq<ServerConfig>, start: World, w: World, after: World)
    requires Shape(start) && Shape(w) && Shape(after) && InRound(desired, start, w)
    requires w.phase.Starting? && after.phase.Starting?
    requires |w.tasks| <= |after.tasks|
    requires after.tasks[..|w.tasks|] == w.tasks && after.tokens[..|w.tokens|] == w.tokens
    requires forall k :: k in w.running ==> IsAt(after, k, w.running[k])
    requires forall k :: k in after.running && k !in w.running ==>
      after.running[k] == |w.tasks| < |after.tasks| && after.tasks[|w.tasks|].known == S.Ids(desired)
    ensures InRound(desired, start, after)
  {
    assert forall t :: 0 <= t < |w.tasks| ==> after.tasks[t] == w.tasks[t] && after.tokens[t] == w.tokens[t] by {
      assert forall t :: 0 <= t < |w.tasks| ==> after.tasks[..|w.tasks|][t] == after.tasks[t];
      assert forall t :: 0 <= t < |w.tasks| ==> after.tokens[..|w.tokens|][t] == after.tokens[t];
    }
    forall id | id in start.running ensures IsTreated(desired, start, after, id) {
      assert IsTreated(desired, start, w, id);
    }
    forall id | id in after.running ensures IsOldOrNew(desired, start, after, id) {
      if id in w.running {
        assert IsOldOrNew(desired, start, w, id) && IsAt(after, id, w.running[id]);
      }
    }
  }

  lemma ActsIsSteady(cfg: Setup, w: World, t: nat, step: T.Step)
    requires Shape(w) && Enabled(w, Acts(t, step)) && T.SessionIsHeld(w.tasks[t])
    ensures IsSteady(w, AfterActs(cfg, w, t, step))
  {
    T.ServerStays(cfg.settings, EnvOf(w, t), w.tasks[t], step);
    T.OnlyLiveTasksStep(EnvOf(w, t), w.tasks[t], step);
    var after := AfterActs(cfg, w, t, step);
    ReplacedIsSteady(w, t, after.tasks[t], after.log);
  }

  /** Another state of a task that was not over, with the same server and known ids. */
  lemma ReplacedIsSteady(w: World, t: nat, next: T.State, log: seq<T.Effect>)
    requires Shape(w) && t < |w.tasks| && !w.tasks[t].phase.Done?
    requires next.server == w.tasks[t].server && next.known == w.tasks[t].known
    ensures IsSteady(w, w.(tasks := w.tasks[t := next], log := log))
  {
  }

  lemma ActsStays(cfg: Setup, start: World, w: World, t: nat, step: T.Step)
    requires Shape(start) && Shape(w) && Enabled(w, Acts(t, step)) && T.SessionIsHeld(w.tasks[t])
    requires Shape(AfterActs(cfg, w, t, step)) && InRound(DesiredNow(cfg, w), start, w)
    ensures DesiredNow(cfg, AfterActs(cfg, w, t, step)) == DesiredNow(cfg, w)
    ensures InRound(DesiredNow(cfg, w), start, AfterActs(cfg, w, t, step))
  {
    ActsIsSteady(cfg, w, t, step);
    SteadyStays(DesiredNow(cfg, w), start, w, AfterActs(cfg, w, t, step));
  }

  lemma StepStays(cfg: Setup, start: World, w: World, step: Step)
    requires Shape(start) && Inv(cfg, w) && IsReconciling(w.phase) && Enabled(w, step) && Shape(After(cfg, w, step))
    requires InRound(DesiredNow(cfg, w), start, w)
    ensures DesiredNow(cfg, After(cfg, w, step)) == DesiredNow(cfg, w)
    ensures InRound(DesiredNow(cfg, w), start, After(cfg, w, step))
  {
    match step
    case Removes(id) => RemovesStays(cfg, start, w, id);
    case Restarts => RestartsStays(cfg, start, w);
    case Joins => JoinsStays(cfg, start, w);
    case Starts => StartsStays(cfg, start, w);
    case Acts(t, step) =>
      assert T.Inv(cfg.settings, EnvOf(w, t), w.tasks[t]);
      ActsStays(cfg, start, w, t, step);
    case _ => QuietStays(cfg, start, w, step);
  }

  lemma {:induction false} RoundHolds(cfg: Setup, start: World, steps: seq<Step>)
    requires Inv(cfg, start)
    ensures RoundFrom(cfg, start, steps).Some? ==>
      var w := RoundFrom(cfg, start, steps).value;
      Inv(cfg, w) && InRound(DesiredNow(cfg, w), start, w)
  {
    if RoundFrom(cfg, start, steps).Some? {
      if steps == [] {
        StepKeeps(cfg, start, Merges);
        MergesEnters(cfg, start);
      } else {
        var n := |steps| - 1;
        RoundHolds(cfg, start, steps[..n]);
        var w := RoundFrom(cfg, start, steps[..n]).value;
        StepKeeps(cfg, w, steps[n]);
        StepStays(cfg, start, w, steps[n]);
      }
    }
  }

  /** A completed round, whatever the tasks and the world did meanwhile, ends as `Reconcile` ends: the
      first entry of every desired id runs; an agreeing task is where it was, untold; a gone one was
      removed and is over; a changed one was stopped, is over and has a successor; and every successor
      knows the ids of this round. */
  lemma RoundEndsAsReconcile(cfg: Setup, start: World, steps: seq<Step>, id: string)
    requires Inv(cfg, start)
    requires RoundFrom(cfg, start, steps).Some? && RoundFrom(cfg, start, steps).value.phase.Waiting?
    ensures
      var w := RoundFrom(cfg, start, steps).value;
      && Shape(w) && |start.tasks| <= |w.tasks| && ServersOf(w) == S.FirstOfEach(DesiredNow(cfg, w))
      && (id in start.running ==>
            var t := start.running[id];
            match S.FateOf(DesiredNow(cfg, w), start.tasks[t].server)
            case Gone => w.tokens[t] == Tokens(false, true) && IsDone(w, t) && id !in w.running
            case Changed => w.tokens[t] == Tokens(true, false) && IsDone(w, t) && id in w.running && w.running[id] != t
            case Kept => w.tokens[t] == Tokens(false, false) && IsAt(w, id, t))
      && (id in w.running && !(id in start.running && w.running[id] == start.running[id]) ==>
            w.running[id] >= |start.tasks| && w.tasks[w.running[id]].known == S.Ids(DesiredNow(cfg, w)))
  {
    RoundHolds(cfg, start, steps);
    var w := RoundFrom(cfg, start, steps).value;
    RoundEnd(DesiredNow(cfg, w), start, w, id);
  }

  lemma RoundEnd(desired: seq<ServerConfig>, start: World, w: World, id: string)
    requires Shape(start) && Shape(w) && w.phase.Waiting? && InRound(desired, start, w)
    requires ServersOf(w) == S.FirstOfEach(desired)
    ensures id in start.running ==>
      var t := start.running[id];
      match S.FateOf(desired, start.tasks[t].server)
      case Gone => w.tokens[t] == Tokens(false, true) && IsDone(w, t) && id !in w.running
      case Changed => w.tokens[t] == Tokens(true, false) && IsDone(w, t) && id in w.running && w.running[id] != t
      case Kept => w.tokens[t] == Tokens(false, false) && IsAt(w, id, t)
    ensures id in w.running && !(id in start.running && w.running[id] == start.running[id]) ==>
      w.running[id] >= |start.tasks| && w.tasks[w.running[id]].known == S.Ids(desired)
  {
    S.WantedIds(desired, id);
    assert id in w.running <==> id in ServersOf(w);
    if id in start.running {
      var t := start.running[id];
      assert IsTreated(desired, start, w, id);
      if IsAt(w, id, t) {
        assert ServersOf(w)[id] == w.tasks[t].server;
      }
    }
  }
}
