/** Progress of the system: wherever a run has come to, what is desired last can still be made to run, and the
    process can still end, and every task with it
    (crates/gateway/src/supervisor.rs, crates/gateway/src/server_task.rs). */
module Liveness {
  import opened Text
  import opened Config
  import opened Gateway
  import T = ServerTask

  // ---- one task ----

  /** Steps that are left to the end at most. */
  function Rank(s: T.State): nat {
    match s.phase
    case Done => 0
    case Deregistering => 1
    case LoopHead => 2
    case Connecting => 2
    case BackingOff => 2
    case Registering => 3
    case Disconnecting(_) => 3
    case ShuttingDown(_) => 4
    case Running => 5
    case Resolving => 6
    case StartingReaders => 6
    case Borrowing => 7
    case RegisteringDevices(next) => 7 + if next <= |s.mappings| then |s.mappings| - next else 0
  }

  /** The shortest way out for a task that was told to end. */
  function EndingStep(env: T.Env, s: T.State): T.Step {
    match s.phase
    case Registering => T.RegisterServer
    case LoopHead => T.CheckTokens
    case Borrowing => T.BorrowTypes
    case Resolving => T.ResolveFails
    case RegisteringDevices(next) => if next < |s.mappings| then T.RegisterDevice else T.DevicesRegistered
    case StartingReaders => T.ReadersStarted
    case ShuttingDown(_) => T.ReadersShutDown
    case Disconnecting(_) => T.Disconnects
    case Deregistering => T.Deregisters
    case _ => if env.stop then T.StopFires else T.RemoveFires
  }

  lemma EndingStepIsEnabled(env: T.Env, s: T.State)
    requires (env.stop || env.remove) && env.types != [] && T.CoveredAreRegistered(s) && !s.phase.Done?
    ensures T.Enabled(env, s, EndingStep(env, s))
  {
  }

  lemma WaitEnds(cfg: T.Settings, env: T.Env, s: T.State)
    requires (env.stop || env.remove) && T.Waits(s.phase)
    ensures Rank(T.After(cfg, env, s, if env.stop then T.StopFires else T.RemoveFires)) < Rank(s)
  {
  }

  lemma RegisteringEnds(cfg: T.Settings, env: T.Env, s: T.State)
    requires s.phase.RegisteringDevices? && s.phase.next <= |s.mappings|
    ensures Rank(T.After(cfg, env, s, EndingStep(env, s))) < Rank(s)
  {
  }

  lemma EndingStepEnds(cfg: T.Settings, env: T.Env, s: T.State)
    requires (env.stop || env.remove) && env.types != [] && T.CoveredAreRegistered(s) && !s.phase.Done?
    ensures T.Enabled(env, s, EndingStep(env, s))
    ensures Rank(T.After(cfg, env, s, EndingStep(env, s))) < Rank(s)
  {
    EndingStepIsEnabled(env, s);
    if T.Waits(s.phase) {
      WaitEnds(cfg, env, s);
    } else if s.phase.RegisteringDevices? {
      RegisteringEnds(cfg, env, s);
    }
  }

  lemma {:induction false} TypesAreThere(cfg: Setup, steps: seq<Step>)
    requires EndOf(cfg, steps).Some?
    ensures EndOf(cfg, steps).value.types != []
  {
    if steps != [] {
      var n := |steps| - 1;
      TypesAreThere(cfg, steps[..n]);
      TypesStay(cfg, EndOf(cfg, steps[..n]).value, steps[n]);
    }
  }

  lemma TypesStay(cfg: Setup, w: World, step: Step)
    requires Shape(w) && Enabled(w, step)
    ensures |w.types| <= |After(cfg, w, step).types|
  {
    match step
    case Removes(id) => TakenTypes(w, id);
    case Restarts => TakenTypes(w, w.phase.restarted[0]);
    case Starts => assert After(cfg, w, step) == AfterStarts(w);
    case Acts(t, next) => assert After(cfg, w, step) == AfterActs(cfg, w, t, next);
    case Joins =>
    case _ => QuietTypes(cfg, w, step);
  }

  lemma TakenTypes(w: World, id: string)
    requires Shape(w) && w.phase.Clearing?
    ensures AfterRemoves(w, id).types == w.types
    ensures w.phase.restarted != [] ==> AfterRestarts(w).types == w.types
  {
  }

  lemma QuietTypes(cfg: Setup, w: World, step: Step)
    requires Shape(w) && Enabled(w, step) && MovesNoTask(step)
    ensures |w.types| <= |After(cfg, w, step).types|
  {
    match step
    case Merges => assert After(cfg, w, step) == AfterMerges(cfg, w);
    case _ =>
  }

  /** The world is the same but for this task and what it did. */
  predicate OnlyTaskMoved(w: World, after: World, t: nat) {
    && t < |w.tasks| && |after.tasks| == |w.tasks|
    && after == w.(tasks := after.tasks, log := after.log)
    && forall u :: 0 <= u < |w.tasks| && u != t ==> after.tasks[u] == w.tasks[u]
  }

  /** A task that was told to end can always go on to its end, whatever it is at, and alone. */
  lemma {:induction false} TaskCanEnd(cfg: Setup, steps: seq<Step>, w: World, t: nat)
    returns (more: seq<Step>, after: World)
    requires EndOf(cfg, steps) == Some(w) && Shape(w) && t < |w.tasks|
    requires w.cancelled || w.tokens[t].stop || w.tokens[t].remove
    ensures steps <= more && EndOf(cfg, more) == Some(after) && IsDone(after, t) && OnlyTaskMoved(w, after, t)
    decreases Rank(w.tasks[t])
  {
    if w.tasks[t].phase.Done? {
      more, after := steps, w;
    } else {
      var mid := OneStepCloser(cfg, steps, w, t);
      more, after := TaskCanEnd(cfg, steps + [Acts(t, EndingStep(EnvOf(w, t), w.tasks[t]))], mid, t);
    }
  }

  lemma OneStepCloser(cfg: Setup, steps: seq<Step>, w: World, t: nat) returns (after: World)
    requires EndOf(cfg, steps) == Some(w) && Shape(w) && t < |w.tasks| && !w.tasks[t].phase.Done?
    requires w.cancelled || w.tokens[t].stop || w.tokens[t].remove
    ensures EndOf(cfg, steps + [Acts(t, EndingStep(EnvOf(w, t), w.tasks[t]))]) == Some(after)
    ensures Shape(after) && OnlyTaskMoved(w, after, t) && Rank(after.tasks[t]) < Rank(w.tasks[t])
  {
    EveryRunHolds(cfg, steps);
    TypesAreThere(cfg, steps);
    assert T.CoveredAreRegistered(w.tasks[t]) by {
      assert T.Inv(cfg.settings, EnvOf(w, t), w.tasks[t]);
    }
    var step := EndingStep(EnvOf(w, t), w.tasks[t]);
    EndingStepEnds(cfg.settings, EnvOf(w, t), w.tasks[t]);
    after := AfterActs(cfg, w, t, step);
    ActsServers(cfg, w, t, step);
    StepTo(cfg, steps, w, Acts(t, step), after);
  }

  // ---- the supervisor ----

  /** A task that is waited for was told to end. */
  predicate JoinsTheTold(w: World) {
    w.phase.Joining? ==>
      var t := w.phase.task;
      t < |w.tokens| && (w.tokens[t].stop || w.tokens[t].remove)
  }

  lemma {:induction false} JoinedIsTold(cfg: Setup, steps: seq<Step>)
    requires EndOf(cfg, steps).Some?
    ensures JoinsTheTold(EndOf(cfg, steps).value)
  {
    if steps != [] {
      var n := |steps| - 1;
      JoinedIsTold(cfg, steps[..n]);
      ToldStaysTold(cfg, EndOf(cfg, steps[..n]).value, steps[n]);
    }
  }

  lemma ToldStaysTold(cfg: Setup, w: World, step: Step)
    requires Shape(w) && Enabled(w, step) && JoinsTheTold(w)
    ensures JoinsTheTold(After(cfg, w, step))
  {
    match step
    case Removes(id) => TakenIsTold(w, id);
    case Restarts => TakenIsTold(w, w.phase.restarted[0]);
    case Starts => assert After(cfg, w, step) == AfterStarts(w);
    case Acts(t, next) => assert After(cfg, w, step) == AfterActs(cfg, w, t, next);
    case Joins => assert After(cfg, w, step).phase.Clearing?;
    case _ => QuietStaysTold(cfg, w, step);
  }

  lemma QuietStaysTold(cfg: Setup, w: World, step: Step)
    requires Shape(w) && Enabled(w, step) && MovesNoTask(step) && JoinsTheTold(w)
    ensures JoinsTheTold(After(cfg, w, step))
  {
    QuietSteps(cfg, w, step);
  }

  lemma TakenIsTold(w: World, id: string)
    requires Shape(w) && w.phase.Clearing?
    ensures JoinsTheTold(AfterRemoves(w, id))
    ensures w.phase.restarted != [] ==> JoinsTheTold(AfterRestarts(w))
  {
  }

  predicate IsInRound(phase: Phase) {
    phase.Merging? || phase.Clearing? || phase.Joining? || phase.Starting?
  }

  function Outer(phase: Phase): nat {
    match phase
    case Merging => 6
    case Clearing(_, _, _) => 5
    case Joining(_, _, _, _) => 5
    case Starting(_, _) => 4
    case Waiting => 3
    case Orphaned => 3
    case Draining(_) => 2
    case Ended => 0
  }

  function Inner(phase: Phase): nat {
    match phase
    case Clearing(_, removed, restarted) => 2 * (|removed| + |restarted|)
    case Joining(_, _, removed, restarted) => 2 * (|removed| + |restarted|) + 1
    case Starting(desired, next) => if next <= |desired| then |desired| - next else 0
    case Draining(todo) => |todo|
    case _ => 0
  }

  /** Nothing came from outside; what was sent last is seen once it is merged. */
  predicate SameWorld(w: World, next: World) {
    && next.cancelled == w.cancelled && next.cloud == w.cloud && next.types == w.types
    && next.cloudSeen == if w.phase.Merging? then |w.cloud| - 1 else w.cloudSeen
  }

  /** One step nearer to the end, or to the end of the round. */
  predicate Nearer(w: World, next: World) {
    && SameWorld(w, next)
    && (IsInRound(w.phase) ==> IsInRound(next.phase) || next.phase.Waiting?)
    && (Outer(next.phase) < Outer(w.phase)
        || (Outer(next.phase) == Outer(w.phase) && Inner(next.phase) < Inner(w.phase)))
  }

  /** The next step of a supervisor that waits for no task. */
  function NextStep(phase: Phase): Step
    requires !phase.Joining? && !phase.Clearing? && !phase.Draining? && !phase.Ended?
  {
    match phase
    case Merging => Merges
    case Starting(desired, next) => if next < |desired| then Starts else Started
    case _ => WakesCancelled
  }

  lemma NextStepIsNearer(cfg: Setup, w: World)
    requires Shape(w) && (w.cancelled || IsInRound(w.phase))
    requires !w.phase.Joining? && !w.phase.Clearing? && !w.phase.Draining? && !w.phase.Ended?
    ensures Enabled(w, NextStep(w.phase)) && Nearer(w, After(cfg, w, NextStep(w.phase)))
  {
    if w.phase.Merging? {
      MergingIsNearer(cfg, w);
    } else if w.phase.Starting? {
      StartingIsNearer(cfg, w);
    }
  }

  lemma MergingIsNearer(cfg: Setup, w: World)
    requires Shape(w) && w.phase.Merging?
    ensures Enabled(w, Merges) && After(cfg, w, Merges) == AfterMerges(cfg, w) && Nearer(w, AfterMerges(cfg, w))
  {
  }

  lemma StartingIsNearer(cfg: Setup, w: World)
    requires Shape(w) && w.phase.Starting?
    ensures Enabled(w, NextStep(w.phase)) && Nearer(w, After(cfg, w, NextStep(w.phase)))
  {
    if w.phase.next < |w.phase.desired| {
      assert After(cfg, w, Starts) == AfterStarts(w);
    }
  }

  lemma Smaller(ids: set<string>, id: string)
    requires id in ids
    ensures |ids - {id}| == |ids| - 1
  {
  }

  lemma RemovesIsNearer(w: World, id: string)
    requires Shape(w) && w.phase.Clearing? && id in w.phase.removed
    ensures Nearer(w, AfterRemoves(w, id))
  {
    Smaller(w.phase.removed, id);
  }

  lemma RestartsIsNearer(w: World)
    requires Shape(w) && w.phase.Clearing? && w.phase.restarted != []
    ensures Nearer(w, AfterRestarts(w))
  {
  }

  lemma ClearingGoesOn(cfg: Setup, steps: seq<Step>, w: World) returns (more: seq<Step>, next: World)
    requires EndOf(cfg, steps) == Some(w) && Shape(w) && w.phase.Clearing?
    ensures steps <= more && EndOf(cfg, more) == Some(next) && Nearer(w, next)
  {
    var step;
    if w.phase.removed != {} {
      var id :| id in w.phase.removed;
      RemovesIsNearer(w, id);
      step, next := Removes(id), AfterRemoves(w, id);
    } else if w.phase.restarted != [] {
      RestartsIsNearer(w);
      step, next := Restarts, AfterRestarts(w);
    } else {
      step, next := Cleared, w.(phase := Starting(w.phase.desired, 0));
    }
    StepTo(cfg, steps, w, step, next);
    more := steps + [step];
  }

  lemma JoiningGoesOn(cfg: Setup, steps: seq<Step>, w: World) returns (more: seq<Step>, next: World)
    requires EndOf(cfg, steps) == Some(w) && Shape(w) && JoinsTheTold(w) && w.phase.Joining?
    ensures steps <= more && EndOf(cfg, more) == Some(next) && Nearer(w, next)
  {
    var ended, after := TaskCanEnd(cfg, steps, w, w.phase.task);
    EveryRunHolds(cfg, ended);
    next := after.(phase := Clearing(w.phase.desired, w.phase.removed, w.phase.restarted));
    StepTo(cfg, ended, after, Joins, next);
    more := ended + [Joins];
  }

  lemma DrainsOne(cfg: Setup, steps: seq<Step>, w: World, id: string) returns (more: seq<Step>, next: World)
    requires EndOf(cfg, steps) == Some(w) && Shape(w) && w.cancelled && w.phase.Draining? && id in w.phase.todo
    ensures steps <= more && EndOf(cfg, more) == Some(next)
    ensures SameWorld(w, next) && next.phase == Draining(w.phase.todo - {id})
  {
    var ended, after := steps, w;
    if id in w.running {
      ended, after := TaskCanEnd(cfg, steps, w, w.running[id]);
      EveryRunHolds(cfg, ended);
    }
    next := after.(phase := Draining(w.phase.todo - {id}));
    StepTo(cfg, ended, after, Drains(id), next);
    more := ended + [Drains(id)];
  }

  lemma DrainingGoesOn(cfg: Setup, steps: seq<Step>, w: World) returns (more: seq<Step>, next: World)
    requires EndOf(cfg, steps) == Some(w) && Shape(w) && w.cancelled && w.phase.Draining?
    ensures steps <= more && EndOf(cfg, more) == Some(next) && Nearer(w, next)
  {
    if w.phase.todo == {} {
      next := w.(phase := Ended);
      StepTo(cfg, steps, w, Ends, next);
      more := steps + [Ends];
    } else {
      var id :| id in w.phase.todo;
      Smaller(w.phase.todo, id);
      more, next := DrainsOne(cfg, steps, w, id);
    }
  }

  lemma GoesOn(cfg: Setup, steps: seq<Step>, w: World) returns (more: seq<Step>, next: World)
    requires EndOf(cfg, steps) == Some(w) && Shape(w) && JoinsTheTold(w)
    requires (w.cancelled && !w.phase.Ended?) || IsInRound(w.phase)
    ensures steps <= more && EndOf(cfg, more) == Some(next) && Nearer(w, next)
  {
    if w.phase.Clearing? {
      more, next := ClearingGoesOn(cfg, steps, w);
    } else if w.phase.Joining? {
      more, next := JoiningGoesOn(cfg, steps, w);
    } else if w.phase.Draining? {
      more, next := DrainingGoesOn(cfg, steps, w);
    } else {
      NextStepIsNearer(cfg, w);
      next := After(cfg, w, NextStep(w.phase));
      StepTo(cfg, steps, w, NextStep(w.phase), next);
      more := steps + [NextStep(w.phase)];
    }
  }

  /** Once the process was told to end, it can always go on to its end. */
  lemma {:induction false} CancelledCanEnd(cfg: Setup, steps: seq<Step>, w: World)
    returns (more: seq<Step>, after: World)
    requires EndOf(cfg, steps) == Some(w) && w.cancelled
    ensures steps <= more && EndOf(cfg, more) == Some(after) && after.phase.Ended?
    decreases Outer(w.phase), Inner(w.phase)
  {
    if w.phase.Ended? {
      more, after := steps, w;
    } else {
      EveryRunHolds(cfg, steps);
      JoinedIsTold(cfg, steps);
      var mid, next := GoesOn(cfg, steps, w);
      more, after := CancelledCanEnd(cfg, mid, next);
    }
  }

  /** A round can always go on to its end, whatever the tasks it waits for are at, and without anything from
      outside. */
  lemma {:induction false} RoundCanEnd(cfg: Setup, steps: seq<Step>, w: World)
    returns (more: seq<Step>, after: World)
    requires EndOf(cfg, steps) == Some(w) && (IsInRound(w.phase) || w.phase.Waiting?)
    ensures steps <= more && EndOf(cfg, more) == Some(after) && after.phase.Waiting? && SameWorld(w, after)
    decreases Outer(w.phase), Inner(w.phase)
  {
    if w.phase.Waiting? {
      more, after := steps, w;
    } else {
      EveryRunHolds(cfg, steps);
      JoinedIsTold(cfg, steps);
      var mid, next := GoesOn(cfg, steps, w);
      more, after := RoundCanEnd(cfg, mid, next);
    }
  }

  /** Until the supervisor leaves its loop, it can always go on to where it waits with every value seen. */
  lemma CanCatchUp(cfg: Setup, steps: seq<Step>, w: World) returns (more: seq<Step>, after: World)
    requires EndOf(cfg, steps) == Some(w) && (IsInRound(w.phase) || w.phase.Waiting?)
    ensures steps <= more && EndOf(cfg, more) == Some(after) && after.phase.Waiting?
    ensures after.cloud == w.cloud && after.cloudSeen == |after.cloud| - 1
  {
    more, after := RoundCanEnd(cfg, steps, w);
    EveryRunHolds(cfg, more);
    if after.cloudSeen < |after.cloud| - 1 {
      var merging := after.(phase := Merging);
      StepTo(cfg, more, after, WakesChanged, merging);
      more, after := RoundCanEnd(cfg, more + [WakesChanged], merging);
    }
  }

  /** And there it runs exactly what the last list of the cloud under the device's own wants, all of it. */
  lemma WhatIsWantedCanRun(cfg: Setup, steps: seq<Step>) returns (more: seq<Step>, after: World)
    requires EndOf(cfg, steps).Some?
    requires var phase := EndOf(cfg, steps).value.phase; IsInRound(phase) || phase.Waiting?
    ensures steps <= more && EndOf(cfg, more) == Some(after) && Shape(after)
    ensures after.cloud == EndOf(cfg, steps).value.cloud
    ensures forall id :: RunningServer(after, id) == WantedServer(cfg, after.cloud[|after.cloud| - 1], id)
  {
    more, after := CanCatchUp(cfg, steps, EndOf(cfg, steps).value);
    EveryRunHolds(cfg, more);
    forall id ensures RunningServer(after, id) == WantedServer(cfg, after.cloud[|after.cloud| - 1], id) {
      WaitingIsUpToDate(cfg, more, id);
    }
  }

  /** Wherever a run has come to, with whatever tasks at whatever they do: told to end, it can go on to its
      end, and then every task is over, its session closed and no reader left. */
  lemma EveryRunCanEnd(cfg: Setup, steps: seq<Step>) returns (more: seq<Step>, after: World)
    requires EndOf(cfg, steps).Some?
    ensures steps + [Cancelled] <= more && EndOf(cfg, more) == Some(after) && after.phase.Ended?
    ensures forall t :: 0 <= t < |after.tasks| ==>
      IsDone(after, t) && !after.tasks[t].session && after.tasks[t].readers == []
  {
    var w := EndOf(cfg, steps).value;
    EveryRunHolds(cfg, steps);
    StepTo(cfg, steps, w, Cancelled, w.(cancelled := true));
    more, after := CancelledCanEnd(cfg, steps + [Cancelled], w.(cancelled := true));
    forall t | 0 <= t < |after.tasks|
      ensures IsDone(after, t) && !after.tasks[t].session && after.tasks[t].readers == []
    {
      NothingOutlivesTheSupervisor(cfg, more, t);
    }
  }
}
