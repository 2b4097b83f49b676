/** The supervisor and its server tasks together, with the cloud, the device types and the end of the
    process arriving at any time (crates/gateway/src/supervisor.rs, crates/gateway/src/server_task.rs,
    crates/gateway/src/main.rs). */
module Gateway {
  import opened Text
  import opened Config
  import opened Topic
  import S = Supervisor
  import T = ServerTask

  datatype Setup = Setup(settings: T.Settings, configured: seq<ServerConfig>)

  datatype Tokens = Tokens(stop: bool, remove: bool)

  /** Where the supervisor is. */
  datatype Phase =
    | Merging
    | Clearing(desired: seq<ServerConfig>, removed: set<string>, restarted: seq<string>)
    | Joining(task: nat, desired: seq<ServerConfig>, removed: set<string>, restarted: seq<string>)
    | Starting(desired: seq<ServerConfig>, next: nat)
    | Waiting
    | Orphaned
    | Draining(todo: set<string>)
    | Ended

  /** The channels keep all they ever held; the last value is the current one. */
  datatype World = World(
    cloud: seq<seq<ServerConfig>>, cloudClosed: bool, types: seq<T.DeviceTypes>, typesClosed: bool, cancelled: bool,
    phase: Phase, cloudSeen: nat, running: map<string, nat>,
    tasks: seq<T.State>, tokens: seq<Tokens>, log: seq<T.Effect>)

  /** The gateway device is registered before anything is spawned. */
  function Startup(cfg: Setup): World {
    World([[]], false, [[]], false, false, Merging, 0, map[], [], [],
          if cfg.settings.gateway.Some? then [T.GatewayRegistered(cfg.settings.gateway.value)] else [])
  }

  /** What one task sees; the end of the process counts as a stop. */
  function EnvOf(w: World, t: nat): T.Env
    requires t < |w.tokens|
  {
    T.Env(w.tokens[t].stop || w.cancelled, w.tokens[t].remove, w.types, w.typesClosed)
  }

  /** Everything refers to tasks and values there are. */
  predicate Shape(w: World) {
    && |w.tokens| == |w.tasks| && w.cloudSeen < |w.cloud|
    && (forall id :: id in w.running ==> w.running[id] < |w.tasks| && w.tasks[w.running[id]].server.id == id)
    && (w.phase.Joining? ==> w.phase.task < |w.tasks|)
  }

  function ServersIn(running: map<string, nat>, tasks: seq<T.State>): map<string, ServerConfig>
    requires forall id :: id in running ==> running[id] < |tasks|
  {
    map id | id in running :: tasks[running[id]].server
  }

  function ServersOf(w: World): map<string, ServerConfig>
    requires Shape(w)
  {
    ServersIn(w.running, w.tasks)
  }

  datatype Step =
    // the world
    | CloudSends(servers: seq<ServerConfig>) | CloudCloses
    | TypesSent(types: T.DeviceTypes) | TypesClosed
    | Cancelled
    // the supervisor
    | Merges | Removes(id: string) | Restarts | Joins | Cleared | Starts | Started
    | WakesCancelled | WakesChanged | WakesClosed | Drains(id: string) | Ends
    // a task
    | Acts(task: nat, step: T.Step)

  predicate IsDone(w: World, t: nat) {
    t < |w.tasks| && w.tasks[t].phase.Done?
  }

  predicate Enabled(w: World, step: Step)
    requires Shape(w)
  {
    match step
    case CloudSends(_) => !w.cloudClosed
    case CloudCloses => true
    case TypesSent(_) => !w.typesClosed
    case TypesClosed => true
    case Cancelled => true
    case Merges => w.phase.Merging?
    case Removes(id) => w.phase.Clearing? && id in w.phase.removed
    case Restarts => w.phase.Clearing? && w.phase.removed == {} && w.phase.restarted != []
    case Joins => w.phase.Joining? && IsDone(w, w.phase.task)
    case Cleared => w.phase.Clearing? && w.phase.removed == {} && w.phase.restarted == []
    case Starts => w.phase.Starting? && w.phase.next < |w.phase.desired|
    case Started => w.phase.Starting? && w.phase.next >= |w.phase.desired|
    case WakesCancelled => (w.phase.Waiting? || w.phase.Orphaned?) && w.cancelled
    case WakesChanged => w.phase.Waiting? && w.cloudSeen < |w.cloud| - 1
    case WakesClosed => w.phase.Waiting? && w.cloudSeen == |w.cloud| - 1 && w.cloudClosed
    case Drains(id) => w.phase.Draining? && id in w.phase.todo && (id in w.running ==> IsDone(w, w.running[id]))
    case Ends => w.phase.Draining? && w.phase.todo == {}
    case Acts(t, step) => t < |w.tasks| && T.Enabled(EnvOf(w, t), w.tasks[t], step)
  }

  function AfterMerges(cfg: Setup, w: World): World
    requires Shape(w)
  {
    var latest := |w.cloud| - 1;
    var desired := Merged(w.cloud[latest], cfg.configured);
    var removed := set id | id in w.running && !S.Wanted(desired, id);
    w.(cloudSeen := latest, phase := Clearing(desired, removed, S.RestartedIds(desired, ServersOf(w))))
  }

  /** Take a task out of the map and wait for it, if it is there. */
  function AfterRemoves(w: World, id: string): World
    requires Shape(w) && w.phase.Clearing?
  {
    var p := w.phase;
    if id !in w.running then w.(phase := Clearing(p.desired, p.removed - {id}, p.restarted))
    else
      var t := w.running[id];
      w.(running := w.running - {id}, tokens := w.tokens[t := w.tokens[t].(remove := true)],
         phase := Joining(t, p.desired, p.removed - {id}, p.restarted))
  }

  function AfterRestarts(w: World): World
    requires Shape(w) && w.phase.Clearing? && w.phase.restarted != []
  {
    var p, id := w.phase, w.phase.restarted[0];
    if id !in w.running then w.(phase := Clearing(p.desired, p.removed, p.restarted[1..]))
    else
      var t := w.running[id];
      w.(running := w.running - {id}, tokens := w.tokens[t := w.tokens[t].(stop := true)],
         phase := Joining(t, p.desired, p.removed, p.restarted[1..]))
  }

  function AfterStarts(w: World): World
    requires Shape(w) && w.phase.Starting? && w.phase.next < |w.phase.desired|
  {
    var p := w.phase;
    var server, on := p.desired[p.next], Starting(p.desired, p.next + 1);
    if server.id in w.running then w.(phase := on)
    else
      w.(phase := on, running := w.running[server.id := |w.tasks|],
         tasks := w.tasks + [T.Initial(server, S.Ids(p.desired))],
         tokens := w.tokens + [Tokens(false, false)])
  }

  function AfterActs(cfg: Setup, w: World, t: nat, step: T.Step): World
    requires Shape(w) && Enabled(w, Acts(t, step))
  {
    w.(tasks := w.tasks[t := T.After(cfg.settings, EnvOf(w, t), w.tasks[t], step)],
       log := w.log + T.EffectOf(cfg.settings, w.tasks[t], step))
  }

  function After(cfg: Setup, w: World, step: Step): World
    requires Shape(w) && Enabled(w, step)
  {
    match step
    case CloudSends(servers) => w.(cloud := w.cloud + [servers])
    case CloudCloses => w.(cloudClosed := true)
    case TypesSent(types) => w.(types := w.types + [types])
    case TypesClosed => w.(typesClosed := true)
    case Cancelled => w.(cancelled := true)
    case Merges => AfterMerges(cfg, w)
    case Removes(id) => AfterRemoves(w, id)
    case Restarts => AfterRestarts(w)
    case Joins => w.(phase := Clearing(w.phase.desired, w.phase.removed, w.phase.restarted))
    case Cleared => w.(phase := Starting(w.phase.desired, 0))
    case Starts => AfterStarts(w)
    case Started => w.(phase := Waiting)
    case WakesCancelled => w.(phase := Draining(w.running.Keys))
    case WakesChanged => w.(phase := Merging)
    case WakesClosed => w.(phase := Orphaned)
    case Drains(id) => w.(phase := Draining(w.phase.todo - {id}))
    case Ends => w.(phase := Ended)
    case Acts(t, step) => AfterActs(cfg, w, t, step)
  }

  // ---- invariants ----

  /** Held by its server id, or being waited for with that id out of the map. */
  predicate IsHeld(w: World, t: nat)
    requires Shape(w) && t < |w.tasks|
  {
    var id := w.tasks[t].server.id;
    (id in w.running && w.running[id] == t) || (w.phase.Joining? && w.phase.task == t && id !in w.running)
  }

  /** Every task that is not over is accounted for by the supervisor. */
  predicate Accounted(w: World)
    requires Shape(w)
  {
    forall t :: 0 <= t < |w.tasks| ==> IsDone(w, t) || IsHeld(w, t)
  }

  /** What is drained is over. */
  predicate Drained(w: World)
    requires Shape(w)
  {
    && (w.phase.Draining? ==> forall id :: id in w.running && id !in w.phase.todo ==> IsDone(w, w.running[id]))
    && (w.phase.Ended? ==> forall id :: id in w.running ==> IsDone(w, w.running[id]))
  }

  /** The supervisor cancels no task it keeps. */
  predicate Uncancelled(w: World)
    requires Shape(w)
  {
    forall id :: id in w.running ==> w.tokens[w.running[id]] == Tokens(false, false)
  }

  /** What is still to be cleared is exactly every task that must not be kept. */
  predicate Clears(desired: seq<ServerConfig>, running: map<string, ServerConfig>, removed: set<string>,
                   restarted: seq<string>) {
    forall id :: id in running ==>
      && running[id].id == id
      && (S.FateOf(desired, running[id]).Gone? <==> id in removed)
      && (S.FateOf(desired, running[id]).Changed? <==> id in restarted)
  }

  predicate RunsFirsts(desired: seq<ServerConfig>, running: map<string, ServerConfig>) {
    forall id :: id in running ==> First(desired, id) == Some(running[id])
  }

  /** The running servers on their way to the first of each desired id. */
  predicate SettlesIn(latest: seq<ServerConfig>, phase: Phase, running: map<string, ServerConfig>) {
    match phase
    case Clearing(desired, removed, restarted) => desired == latest && Clears(desired, running, removed, restarted)
    case Joining(_, desired, removed, restarted) => desired == latest && Clears(desired, running, removed, restarted)
    case Starting(desired, next) =>
      && desired == latest && next <= |desired| && RunsFirsts(desired, running)
      && forall i :: 0 <= i < next ==> desired[i].id in running
    case Waiting => running == S.FirstOfEach(latest)
    case Orphaned => running == S.FirstOfEach(latest)
    case _ => true
  }

  function DesiredNow(cfg: Setup, w: World): seq<ServerConfig>
    requires Shape(w)
  {
    Merged(w.cloud[w.cloudSeen], cfg.configured)
  }

  predicate Settling(cfg: Setup, w: World)
    requires Shape(w)
  {
    SettlesIn(DesiredNow(cfg, w), w.phase, ServersOf(w))
  }

  /** The supervisor lets go of the channel only after its last value. */
  predicate CaughtUp(w: World) {
    w.phase.Orphaned? ==> w.cloudClosed && w.cloudSeen == |w.cloud| - 1
  }

  ghost predicate TasksHold(cfg: Setup, w: World)
    requires Shape(w)
  {
    forall t :: 0 <= t < |w.tasks| ==> T.Inv(cfg.settings, EnvOf(w, t), w.tasks[t])
  }

  /** The gateway device comes before its servers, a server before its devices, and a device before
      anything is published for it. */
  predicate Follows(cfg: Setup, before: seq<T.Effect>, e: T.Effect) {
    && T.Follows(cfg.settings, before, e)
    && (e.ServerRegistered? && cfg.settings.gateway.Some? ==> T.GatewayRegistered(e.parent) in before)
  }

  predicate Logged(cfg: Setup, w: World) {
    && (cfg.settings.gateway.Some? ==> T.GatewayRegistered(cfg.settings.gateway.value) in w.log)
    && (forall t, e :: 0 <= t < |w.tasks| && e in w.tasks[t].trace ==> e in w.log)
    && (forall i :: 0 <= i < |w.log| ==> Follows(cfg, w.log[..i], w.log[i]))
  }

  ghost predicate Inv(cfg: Setup, w: World) {
    && Shape(w)
    && Accounted(w)
    && Drained(w)
    && Uncancelled(w)
    && Settling(cfg, w)
    && CaughtUp(w)
    && TasksHold(cfg, w)
    && Logged(cfg, w)
  }

  /** The invariants about which task is whose. */
  predicate Structured(w: World) {
    Shape(w) && Accounted(w) && Drained(w) && Uncancelled(w)
  }

  /** A step of the world, or of the supervisor between two of its awaits, that moves no task. */
  predicate MovesNoTask(step: Step) {
    !step.Removes? && !step.Restarts? && !step.Joins? && !step.Starts? && !step.Acts?
  }

  lemma QuietSteps(cfg: Setup, w: World, step: Step)
    requires Shape(w) && Enabled(w, step) && MovesNoTask(step)
    ensures
      var after := After(cfg, w, step);
      && after.running == w.running && after.tasks == w.tasks && after.tokens == w.tokens && after.log == w.log
      && (w.phase.Joining? || after.phase.Joining? ==> after.phase == w.phase)
      && w.cloud <= after.cloud && after.cloudSeen < |after.cloud|
  {
    QuietTasks(cfg, w, step);
    QuietCloud(cfg, w, step);
  }

  lemma QuietTasks(cfg: Setup, w: World, step: Step)
    requires Shape(w) && Enabled(w, step) && MovesNoTask(step)
    ensures
      var after := After(cfg, w, step);
      after.running == w.running && after.tasks == w.tasks && after.tokens == w.tokens && after.log == w.log
  {
    match step
    case Merges => assert After(cfg, w, step) == AfterMerges(cfg, w);
    case _ =>
  }

  lemma QuietCloud(cfg: Setup, w: World, step: Step)
    requires Shape(w) && Enabled(w, step) && MovesNoTask(step)
    ensures
      var after := After(cfg, w, step);
      && (w.phase.Joining? || after.phase.Joining? ==> after.phase == w.phase)
      && w.cloud <= after.cloud && after.cloudSeen < |after.cloud|
  {
  }

  lemma QuietKeeps(cfg: Setup, w: World, step: Step)
    requires Structured(w) && Enabled(w, step) && MovesNoTask(step)
    ensures Structured(After(cfg, w, step))
  {
    QuietSteps(cfg, w, step);
    SameTasksKeep(w, After(cfg, w, step));
    QuietDrained(cfg, w, step);
  }

  /** Where no task moves, each is held as before. */
  lemma SameTasksKeep(w: World, after: World)
    requires Shape(w) && Accounted(w) && Uncancelled(w) && after.cloudSeen < |after.cloud|
    requires after.running == w.running && after.tasks == w.tasks && after.tokens == w.tokens
    requires w.phase.Joining? || after.phase.Joining? ==> after.phase == w.phase
    ensures Shape(after) && Accounted(after) && Uncancelled(after)
  {
    forall t | 0 <= t < |after.tasks| ensures IsDone(after, t) || IsHeld(after, t) {
      assert IsDone(w, t) || IsHeld(w, t);
    }
  }

  lemma QuietDrained(cfg: Setup, w: World, step: Step)
    requires Shape(w) && Drained(w) && Enabled(w, step) && MovesNoTask(step) && Shape(After(cfg, w, step))
    ensures Drained(After(cfg, w, step))
  {
    QuietTasks(cfg, w, step);
  }

  /** Taking a task out of the map to wait for it. */
  lemma TakenOutKeeps(w: World, id: string, after: World)
    requires Structured(w) && w.phase.Clearing? && id in w.running && after.tasks == w.tasks
    requires after.running == w.running - {id}
    requires after.phase.Joining? && after.phase.task == w.running[id]
    requires |after.tokens| == |w.tokens| && after.cloudSeen < |after.cloud|
    requires forall t :: 0 <= t < |w.tokens| && t != w.running[id] ==> after.tokens[t] == w.tokens[t]
    ensures Structured(after)
  {
    var taken := w.running[id];
    assert Shape(after);
    forall t | 0 <= t < |after.tasks| ensures IsDone(after, t) || IsHeld(after, t) {
      assert IsDone(w, t) || IsHeld(w, t);
    }
    forall k | k in after.running ensures after.tokens[after.running[k]] == Tokens(false, false) {
      assert w.tasks[w.running[k]].server.id == k;
    }
  }

  lemma RemovesKeeps(w: World, id: string)
    requires Structured(w) && w.phase.Clearing?
    ensures Structured(AfterRemoves(w, id))
  {
    var after := AfterRemoves(w, id);
    if id in w.running {
      TakenOutKeeps(w, id, after);
    } else {
      forall t | 0 <= t < |after.tasks| ensures IsDone(after, t) || IsHeld(after, t) {
        assert IsDone(w, t) || IsHeld(w, t);
      }
    }
  }

  lemma RestartsKeeps(w: World)
    requires Structured(w) && w.phase.Clearing? && w.phase.restarted != []
    ensures Structured(AfterRestarts(w))
  {
    var after, id := AfterRestarts(w), w.phase.restarted[0];
    if id in w.running {
      TakenOutKeeps(w, id, after);
    } else {
      forall t | 0 <= t < |after.tasks| ensures IsDone(after, t) || IsHeld(after, t) {
        assert IsDone(w, t) || IsHeld(w, t);
      }
    }
  }

  lemma JoinsKeeps(cfg: Setup, w: World)
    requires Structured(w) && Enabled(w, Joins)
    ensures Structured(After(cfg, w, Joins))
  {
    var after := After(cfg, w, Joins);
    forall t | 0 <= t < |after.tasks| ensures IsDone(after, t) || IsHeld(after, t) {
      assert IsDone(w, t) || IsHeld(w, t);
    }
  }

  lemma StartsShape(w: World)
    requires Shape(w) && w.phase.Starting? && w.phase.next < |w.phase.desired|
    ensures Shape(AfterStarts(w)) && Drained(AfterStarts(w))
  {
  }

  lemma StartsUncancelled(w: World)
    requires Shape(w) && Uncancelled(w) && w.phase.Starting? && w.phase.next < |w.phase.desired|
    requires Shape(AfterStarts(w))
    ensures Uncancelled(AfterStarts(w))
  {
    var after, id := AfterStarts(w), w.phase.desired[w.phase.next].id;
    forall k | k in after.running ensures after.tokens[after.running[k]] == Tokens(false, false) {
      assert k in w.running ==> w.tokens[w.running[k]] == Tokens(false, false);
    }
  }

  lemma StartsAccounted(w: World)
    requires Shape(w) && Accounted(w) && w.phase.Starting? && w.phase.next < |w.phase.desired|
    requires Shape(AfterStarts(w))
    ensures Accounted(AfterStarts(w))
  {
    var after := AfterStarts(w);
    forall t | 0 <= t < |after.tasks| ensures IsDone(after, t) || IsHeld(after, t) {
      if t < |w.tasks| {
        assert IsDone(w, t) || IsHeld(w, t);
      }
    }
  }

  lemma StartsKeeps(w: World)
    requires Structured(w) && w.phase.Starting? && w.phase.next < |w.phase.desired|
    ensures Structured(AfterStarts(w))
  {
    StartsShape(w);
    StartsUncancelled(w);
    StartsAccounted(w);
  }

  lemma ActsKeeps(cfg: Setup, w: World, t: nat, step: T.Step)
    requires Structured(w) && Enabled(w, Acts(t, step)) && T.SessionIsHeld(w.tasks[t])
    ensures Structured(AfterActs(cfg, w, t, step)) && ServersOf(AfterActs(cfg, w, t, step)) == ServersOf(w)
  {
    var after := AfterActs(cfg, w, t, step);
    ActsServers(cfg, w, t, step);
    ActsDone(cfg, w, t, step);
    forall u | 0 <= u < |after.tasks| ensures IsDone(after, u) || IsHeld(after, u) {
      assert IsDone(w, u) || IsHeld(w, u);
    }
  }

  /** Another state of a task with the same server. */
  lemma ReplacedServers(w: World, t: nat, next: T.State, log: seq<T.Effect>)
    requires Shape(w) && t < |w.tasks| && next.server == w.tasks[t].server
    ensures
      var after := w.(tasks := w.tasks[t := next], log := log);
      && Shape(after) && ServersOf(after) == ServersOf(w) && |after.tasks| == |w.tasks|
      && forall u :: 0 <= u < |w.tasks| ==> after.tasks[u].server == w.tasks[u].server
  {
    var after := w.(tasks := w.tasks[t := next], log := log);
    assert forall u :: 0 <= u < |w.tasks| ==> after.tasks[u].server == w.tasks[u].server;
  }

  /** A step of a task keeps every task's server. */
  lemma ActsServers(cfg: Setup, w: World, t: nat, step: T.Step)
    requires Shape(w) && Enabled(w, Acts(t, step))
    ensures
      var after := AfterActs(cfg, w, t, step);
      && Shape(after) && ServersOf(after) == ServersOf(w) && |after.tasks| == |w.tasks|
      && forall u :: 0 <= u < |w.tasks| ==> after.tasks[u].server == w.tasks[u].server
  {
    T.ServerStays(cfg.settings, EnvOf(w, t), w.tasks[t], step);
    var after := AfterActs(cfg, w, t, step);
    ReplacedServers(w, t, after.tasks[t], after.log);
  }

  /** What is over stays over. */
  lemma ActsDone(cfg: Setup, w: World, t: nat, step: T.Step)
    requires Shape(w) && Enabled(w, Acts(t, step)) && T.SessionIsHeld(w.tasks[t])
    ensures forall u :: 0 <= u < |w.tasks| && IsDone(w, u) ==> IsDone(AfterActs(cfg, w, t, step), u)
  {
    T.OnlyLiveTasksStep(EnvOf(w, t), w.tasks[t], step);
  }

  lemma MergesSettles(cfg: Setup, w: World)
    requires Structured(w) && w.phase.Merging?
    ensures Shape(AfterMerges(cfg, w)) && Settling(cfg, AfterMerges(cfg, w))
  {
    var after := AfterMerges(cfg, w);
    assert ServersOf(after) == ServersOf(w);
    forall id | id in w.running
      ensures id in after.phase.restarted <==> S.Differs(after.phase.desired, ServersOf(w)[id])
    {
      S.RestartedAreThoseThatDiffer(after.phase.desired, ServersOf(w), id);
    }
  }

  lemma ServersWithout(running: map<string, nat>, tasks: seq<T.State>, id: string)
    requires forall k :: k in running ==> running[k] < |tasks|
    ensures ServersIn(running - {id}, tasks) == ServersIn(running, tasks) - {id}
  {
  }

  lemma ServersWith(running: map<string, nat>, tasks: seq<T.State>, id: string, task: T.State)
    requires forall k :: k in running ==> running[k] < |tasks|
    ensures ServersIn(running[id := |tasks|], tasks + [task]) == ServersIn(running, tasks)[id := task.server]
  {
  }

  lemma RemovesServers(w: World, id: string)
    requires Shape(w) && w.phase.Clearing?
    ensures Shape(AfterRemoves(w, id)) && ServersOf(AfterRemoves(w, id)) == ServersOf(w) - {id}
  {
    ServersWithout(w.running, w.tasks, id);
    if id !in w.running {
      assert w.running - {id} == w.running;
    }
  }

  lemma RestartsServers(w: World)
    requires Shape(w) && w.phase.Clearing? && w.phase.restarted != []
    ensures Shape(AfterRestarts(w)) && ServersOf(AfterRestarts(w)) == ServersOf(w) - {w.phase.restarted[0]}
  {
    var id := w.phase.restarted[0];
    ServersWithout(w.running, w.tasks, id);
    if id !in w.running {
      assert w.running - {id} == w.running;
    }
  }

  lemma ClearsTheRest(desired: seq<ServerConfig>, running: map<string, ServerConfig>, removed: set<string>,
                      restarted: seq<string>)
    requires Clears(desired, running, removed, restarted)
    ensures forall id :: Clears(desired, running - {id}, removed - {id}, restarted)
    ensures restarted != [] ==> Clears(desired, running - {restarted[0]}, removed, restarted[1..])
  {
  }

  lemma RemovesSettles(cfg: Setup, w: World, id: string)
    requires Structured(w) && Settling(cfg, w) && w.phase.Clearing?
    ensures Shape(AfterRemoves(w, id)) && Settling(cfg, AfterRemoves(w, id))
  {
    RemovesServers(w, id);
    ClearsTheRest(w.phase.desired, ServersOf(w), w.phase.removed, w.phase.restarted);
  }

  lemma RestartsSettles(cfg: Setup, w: World)
    requires Structured(w) && Settling(cfg, w) && w.phase.Clearing? && w.phase.restarted != []
    ensures Shape(AfterRestarts(w)) && Settling(cfg, AfterRestarts(w))
  {
    RestartsServers(w);
    ClearsTheRest(w.phase.desired, ServersOf(w), w.phase.removed, w.phase.restarted);
  }

  lemma ClearedSettles(latest: seq<ServerConfig>, running: map<string, ServerConfig>)
    requires SettlesIn(latest, Clearing(latest, {}, []), running)
    ensures SettlesIn(latest, Starting(latest, 0), running)
  {
    forall id | id in running ensures First(latest, id) == Some(running[id]) {
      S.KeptIsFirst(latest, running[id]);
    }
  }

  lemma StartedSettles(latest: seq<ServerConfig>, running: map<string, ServerConfig>)
    requires SettlesIn(latest, Starting(latest, |latest|), running)
    ensures SettlesIn(latest, Waiting, running)
  {
    assert running.Keys == S.IdSet(latest) by {
      forall id | id in running ensures exists s :: s in latest && s.id == id {
        assert First(latest, id).value in latest;
      }
    }
    S.FirstsRun(latest, running);
  }

  lemma StartsServers(w: World)
    requires Structured(w) && w.phase.Starting? && w.phase.next < |w.phase.desired|
    ensures
      var after, server := AfterStarts(w), w.phase.desired[w.phase.next];
      && Shape(after)
      && ServersOf(after) == if server.id in w.running then ServersOf(w) else ServersOf(w)[server.id := server]
  {
    StartsShape(w);
    var server := w.phase.desired[w.phase.next];
    ServersWith(w.running, w.tasks, server.id, T.Initial(server, S.Ids(w.phase.desired)));
  }

  /** Starting what is missing keeps to the first entries. */
  lemma StartsOneMore(latest: seq<ServerConfig>, running: map<string, ServerConfig>, next: nat)
    requires next < |latest| && SettlesIn(latest, Starting(latest, next), running)
    ensures
      var server := latest[next];
      SettlesIn(latest, Starting(latest, next + 1),
                if server.id in running then running else running[server.id := server])
  {
    if latest[next].id !in running {
      S.FirstAt(latest, next);
    }
  }

  lemma StartsSettles(cfg: Setup, w: World)
    requires Structured(w) && Settling(cfg, w) && w.phase.Starting? && w.phase.next < |w.phase.desired|
    ensures Shape(AfterStarts(w)) && Settling(cfg, AfterStarts(w))
  {
    StartsServers(w);
    StartsOneMore(DesiredNow(cfg, w), ServersOf(w), w.phase.next);
  }

  /** The supervisor's own moves between phases. */
  lemma PhaseSettles(cfg: Setup, w: World, step: Step)
    requires Structured(w) && Settling(cfg, w) && Enabled(w, step) && MovesNoTask(step) && !step.Merges?
    ensures Shape(After(cfg, w, step)) && Settling(cfg, After(cfg, w, step))
  {
    QuietSteps(cfg, w, step);
    assert ServersOf(After(cfg, w, step)) == ServersOf(w);
    if step.Cleared? {
      ClearedSettles(DesiredNow(cfg, w), ServersOf(w));
    } else if step.Started? {
      StartedSettles(DesiredNow(cfg, w), ServersOf(w));
    }
  }

  /** Tasks stay as they are and are only added to, and their world only moves on. */
  predicate MovesOn(w: World, after: World)
    requires Shape(w) && Shape(after)
  {
    && |w.tasks| <= |after.tasks| && after.log == w.log
    && (forall t :: 0 <= t < |w.tasks| ==> after.tasks[t] == w.tasks[t] && T.Later(EnvOf(w, t), EnvOf(after, t)))
    && (forall t :: |w.tasks| <= t < |after.tasks| ==>
          after.tasks[t] == T.Initial(after.tasks[t].server, after.tasks[t].known))
  }

  lemma QuietMovesOn(cfg: Setup, w: World, step: Step)
    requires Shape(w) && Enabled(w, step) && MovesNoTask(step) && Shape(After(cfg, w, step))
    ensures MovesOn(w, After(cfg, w, step))
  {
    QuietSteps(cfg, w, step);
    var after := After(cfg, w, step);
    assert w.types <= after.types && (w.cancelled ==> after.cancelled) && (w.typesClosed ==> after.typesClosed);
  }

  lemma RemovesMovesOn(w: World, id: string)
    requires Shape(w) && w.phase.Clearing? && Shape(AfterRemoves(w, id))
    ensures MovesOn(w, AfterRemoves(w, id))
  {
  }

  lemma RestartsMovesOn(w: World)
    requires Shape(w) && w.phase.Clearing? && w.phase.restarted != [] && Shape(AfterRestarts(w))
    ensures MovesOn(w, AfterRestarts(w))
  {
  }

  lemma StartsMovesOn(w: World)
    requires Shape(w) && w.phase.Starting? && w.phase.next < |w.phase.desired| && Shape(AfterStarts(w))
    ensures MovesOn(w, AfterStarts(w))
  {
  }

  lemma WorldMovesOn(cfg: Setup, w: World, step: Step)
    requires Shape(w) && Enabled(w, step) && !step.Acts? && Shape(After(cfg, w, step))
    ensures MovesOn(w, After(cfg, w, step))
  {
    match step
    case Removes(id) => RemovesMovesOn(w, id);
    case Restarts => RestartsMovesOn(w);
    case Starts => StartsMovesOn(w);
    case Joins =>
    case _ => QuietMovesOn(cfg, w, step);
  }

  lemma TasksKeep(cfg: Setup, w: World, step: Step)
    requires Shape(w) && TasksHold(cfg, w) && Enabled(w, step) && !step.Acts? && Shape(After(cfg, w, step))
    ensures TasksHold(cfg, After(cfg, w, step))
  {
    var after := After(cfg, w, step);
    WorldMovesOn(cfg, w, step);
    forall t | 0 <= t < |after.tasks| ensures T.Inv(cfg.settings, EnvOf(after, t), after.tasks[t]) {
      if t < |w.tasks| {
        T.WorldKeeps(cfg.settings, EnvOf(w, t), EnvOf(after, t), w.tasks[t]);
      } else {
        T.InitialKeeps(cfg.settings, EnvOf(after, t), after.tasks[t].server, after.tasks[t].known);
      }
    }
  }

  lemma TasksKeepActing(cfg: Setup, w: World, t: nat, step: T.Step)
    requires Shape(w) && TasksHold(cfg, w) && Enabled(w, Acts(t, step)) && Shape(AfterActs(cfg, w, t, step))
    ensures TasksHold(cfg, AfterActs(cfg, w, t, step))
  {
    var after := AfterActs(cfg, w, t, step);
    T.StepKeeps(cfg.settings, EnvOf(w, t), w.tasks[t], step);
    forall u | 0 <= u < |after.tasks| ensures T.Inv(cfg.settings, EnvOf(after, u), after.tasks[u]) {
      assert EnvOf(after, u) == EnvOf(w, u);
    }
  }

  lemma LogKeeps(cfg: Setup, w: World, step: Step)
    requires Shape(w) && Logged(cfg, w) && Enabled(w, step) && !step.Acts? && Shape(After(cfg, w, step))
    ensures Logged(cfg, After(cfg, w, step))
  {
    WorldMovesOn(cfg, w, step);
  }

  lemma FollowsMore(cfg: Setup, before: seq<T.Effect>, log: seq<T.Effect>, e: T.Effect)
    requires T.Follows(cfg.settings, before, e) && (forall x :: x in before ==> x in log)
    requires cfg.settings.gateway.Some? ==> T.GatewayRegistered(cfg.settings.gateway.value) in log
    ensures Follows(cfg, log, e)
  {
  }

  lemma LogGrows(cfg: Setup, log: seq<T.Effect>, effects: seq<T.Effect>)
    requires |effects| <= 1 && forall e :: e in effects ==> Follows(cfg, log, e)
    requires forall i :: 0 <= i < |log| ==> Follows(cfg, log[..i], log[i])
    ensures forall i :: 0 <= i < |log + effects| ==> Follows(cfg, (log + effects)[..i], (log + effects)[i])
  {
    forall i | 0 <= i < |log + effects| ensures Follows(cfg, (log + effects)[..i], (log + effects)[i]) {
      if i < |log| {
        assert (log + effects)[..i] == log[..i];
      } else {
        assert (log + effects)[..i] == log;
      }
    }
  }

  lemma LogKeepsActing(cfg: Setup, w: World, t: nat, step: T.Step)
    requires Shape(w) && TasksHold(cfg, w) && Logged(cfg, w) && Enabled(w, Acts(t, step))
    ensures Logged(cfg, AfterActs(cfg, w, t, step))
  {
    var effects := T.EffectOf(cfg.settings, w.tasks[t], step);
    T.EffectsFollow(cfg.settings, EnvOf(w, t), w.tasks[t], step);
    forall e | e in effects ensures Follows(cfg, w.log, e) {
      FollowsMore(cfg, w.tasks[t].trace, w.log, e);
    }
    LogGrows(cfg, w.log, effects);
    TracesStayLogged(cfg, w, t, step);
  }

  lemma TracesStayLogged(cfg: Setup, w: World, t: nat, step: T.Step)
    requires Shape(w) && Enabled(w, Acts(t, step))
    requires forall u, e :: 0 <= u < |w.tasks| && e in w.tasks[u].trace ==> e in w.log
    ensures
      var after := AfterActs(cfg, w, t, step);
      forall u, e :: 0 <= u < |after.tasks| && e in after.tasks[u].trace ==> e in after.log
  {
    var after := AfterActs(cfg, w, t, step);
    assert after.tasks[t].trace == w.tasks[t].trace + T.EffectOf(cfg.settings, w.tasks[t], step);
  }

  /** Every step keeps all of it. */
  lemma StepKeeps(cfg: Setup, w: World, step: Step)
    requires Inv(cfg, w) && Enabled(w, step)
    ensures Inv(cfg, After(cfg, w, step))
  {
    if step.Acts? {
      ActKeeps(cfg, w, step.task, step.step);
    } else {
      StructureKept(cfg, w, step);
      SettlingKept(cfg, w, step);
      CaughtUpKept(cfg, w, step);
      TasksKeep(cfg, w, step);
      LogKeeps(cfg, w, step);
    }
  }

  lemma ActKeeps(cfg: Setup, w: World, t: nat, step: T.Step)
    requires Inv(cfg, w) && Enabled(w, Acts(t, step))
    ensures Inv(cfg, AfterActs(cfg, w, t, step))
  {
    assert T.Inv(cfg.settings, EnvOf(w, t), w.tasks[t]);
    ActsKeeps(cfg, w, t, step);
    TasksKeepActing(cfg, w, t, step);
    LogKeepsActing(cfg, w, t, step);
  }

  lemma StructureKept(cfg: Setup, w: World, step: Step)
    requires Structured(w) && Enabled(w, step) && !step.Acts?
    ensures Structured(After(cfg, w, step))
  {
    match step
    case Removes(id) => RemovesKeeps(w, id);
    case Restarts => RestartsKeeps(w);
    case Starts => StartsKeeps(w);
    case Joins => JoinsKeeps(cfg, w);
    case _ => QuietKeeps(cfg, w, step);
  }

  lemma SettlingKept(cfg: Setup, w: World, step: Step)
    requires Structured(w) && Settling(cfg, w) && Enabled(w, step) && !step.Acts? && Shape(After(cfg, w, step))
    ensures Settling(cfg, After(cfg, w, step))
  {
    match step
    case Removes(id) => RemovesSettles(cfg, w, id);
    case Restarts => RestartsSettles(cfg, w);
    case Starts => StartsSettles(cfg, w);
    case Joins =>
    case Merges => MergesSettles(cfg, w);
    case _ => PhaseSettles(cfg, w, step);
  }

  lemma CaughtUpKept(cfg: Setup, w: World, step: Step)
    requires Shape(w) && CaughtUp(w) && Enabled(w, step) && !step.Acts?
    ensures CaughtUp(After(cfg, w, step))
  {
  }

  // ---- all runs ----

  /** The world at the end of a run, if every step in it could be taken. */
  function EndOf(cfg: Setup, steps: seq<Step>): Option<World> {
    if steps == [] then Some(Startup(cfg))
    else
      var n := |steps| - 1;
      match EndOf(cfg, steps[..n])
      case None => None
      case Some(w) => if Shape(w) && Enabled(w, steps[n]) then Some(After(cfg, w, steps[n])) else None
  }

  lemma StartupHolds(cfg: Setup)
    ensures Inv(cfg, Startup(cfg))
  {
  }

  /** Whatever the world does and however the supervisor and the tasks interleave, all invariants hold. */
  lemma {:induction false} EveryRunHolds(cfg: Setup, steps: seq<Step>)
    ensures EndOf(cfg, steps).Some? ==> Inv(cfg, EndOf(cfg, steps).value)
  {
    if steps == [] {
      StartupHolds(cfg);
    } else {
      var n := |steps| - 1;
      EveryRunHolds(cfg, steps[..n]);
      if EndOf(cfg, steps).Some? {
        StepKeeps(cfg, EndOf(cfg, steps[..n]).value, steps[n]);
      }
    }
  }

  function ResolutionAfter(last: T.Resolution, step: Step, t: nat): T.Resolution {
    if step.Acts? && step.task == t then T.ResolutionAfter(last, step.step) else last
  }

  /** How the last resolution of a task went. */
  function LastResolution(steps: seq<Step>, t: nat): T.Resolution {
    if steps == [] then T.Never
    else
      var n := |steps| - 1;
      ResolutionAfter(LastResolution(steps[..n], t), steps[n], t)
  }

  lemma StepServes(cfg: Setup, w: World, step: Step, t: nat, last: T.Resolution)
    requires Shape(w) && Enabled(w, step) && Shape(After(cfg, w, step))
    requires t < |w.tasks| ==> T.ServesResolution(w.tasks[t], last)
    ensures
      var after := After(cfg, w, step);
      t < |after.tasks| ==> T.ServesResolution(after.tasks[t], ResolutionAfter(last, step, t))
  {
    if !step.Acts? {
      WorldMovesOn(cfg, w, step);
    } else if step.task == t {
      T.ResolutionKept(cfg.settings, EnvOf(w, t), w.tasks[t], step.step, last);
    }
  }

  /** On every run, each task has in force what its last resolution gave. */
  lemma {:induction false} TasksServeResolutions(cfg: Setup, steps: seq<Step>, t: nat)
    requires EndOf(cfg, steps).Some?
    ensures
      var w := EndOf(cfg, steps).value;
      t < |w.tasks| ==> T.ServesResolution(w.tasks[t], LastResolution(steps, t))
  {
    if steps != [] {
      var n := |steps| - 1;
      TasksServeResolutions(cfg, steps[..n], t);
      EveryRunHolds(cfg, steps);
      StepServes(cfg, EndOf(cfg, steps[..n]).value, steps[n], t, LastResolution(steps[..n], t));
    }
  }

  /** On every run, a server id has at most one task that is not over, and so at most one open session
      and one set of readers. */
  lemma OneTaskPerServer(cfg: Setup, steps: seq<Step>, i: nat, j: nat)
    requires EndOf(cfg, steps).Some?
    ensures
      var w := EndOf(cfg, steps).value;
      i < j < |w.tasks| && w.tasks[i].server.id == w.tasks[j].server.id ==>
        && (IsDone(w, i) || IsDone(w, j))
        && !(w.tasks[i].session && w.tasks[j].session)
        && (w.tasks[i].readers == [] || w.tasks[j].readers == [])
  {
    var w := EndOf(cfg, steps).value;
    EveryRunHolds(cfg, steps);
    if i < j < |w.tasks| && w.tasks[i].server.id == w.tasks[j].server.id {
      assert T.Inv(cfg.settings, EnvOf(w, i), w.tasks[i]) && T.Inv(cfg.settings, EnvOf(w, j), w.tasks[j]);
      assert IsDone(w, i) || IsHeld(w, i);
      assert IsDone(w, j) || IsHeld(w, j);
    }
  }

  /** When the supervisor is over, so is every task, with its session closed and no reader left. */
  lemma NothingOutlivesTheSupervisor(cfg: Setup, steps: seq<Step>, t: nat)
    requires EndOf(cfg, steps).Some?
    ensures
      var w := EndOf(cfg, steps).value;
      w.phase.Ended? && t < |w.tasks| ==> IsDone(w, t) && !w.tasks[t].session && w.tasks[t].readers == []
  {
    var w := EndOf(cfg, steps).value;
    EveryRunHolds(cfg, steps);
    if w.phase.Ended? && t < |w.tasks| {
      assert T.Inv(cfg.settings, EnvOf(w, t), w.tasks[t]);
      assert IsDone(w, t) || IsHeld(w, t);
    }
  }

  /** The device's own last word on an id, and the cloud's first word otherwise. */
  function WantedServer(cfg: Setup, cloud: seq<ServerConfig>, id: string): Option<ServerConfig> {
    var own := Last(cfg.configured, id);
    if own.Some? then own else First(cloud, id)
  }

  function RunningServer(w: World, id: string): Option<ServerConfig>
    requires Shape(w)
  {
    if id in w.running then Some(w.tasks[w.running[id]].server) else None
  }

  /** The supervisor has exactly the servers of the last cloud value under the device's own, uncancelled,
      and none of their tasks is over before the process or the device types end. */
  predicate UpToDate(cfg: Setup, w: World, id: string)
    requires Shape(w)
  {
    && RunningServer(w, id) == WantedServer(cfg, w.cloud[|w.cloud| - 1], id)
    && (id in w.running ==> w.tokens[w.running[id]] == Tokens(false, false))
    && (id in w.running && !w.cancelled && !w.typesClosed ==> !IsDone(w, w.running[id]))
  }

  /** A task that nothing told to end is not over. */
  lemma UntoldIsLive(cfg: Setup, w: World, id: string)
    requires Shape(w) && Uncancelled(w) && TasksHold(cfg, w) && id in w.running
    ensures !w.cancelled && !w.typesClosed ==> !IsDone(w, w.running[id])
  {
    var t := w.running[id];
    assert T.LeavesWhenTold(EnvOf(w, t), w.tasks[t]) && T.DeregistersWhenGone(EnvOf(w, t), w.tasks[t]) by {
      assert T.Inv(cfg.settings, EnvOf(w, t), w.tasks[t]);
    }
  }

  /** Waiting with nothing unseen, or with nothing more to come. */
  predicate IsSettled(w: World) {
    (w.phase.Waiting? && w.cloudSeen == |w.cloud| - 1) || w.phase.Orphaned?
  }

  lemma SettledServer(cfg: Setup, w: World, id: string)
    requires Shape(w) && Uncancelled(w) && Settling(cfg, w) && IsSettled(w) && CaughtUp(w)
    requires id in w.running && !w.cancelled && !w.typesClosed ==> !IsDone(w, w.running[id])
    ensures UpToDate(cfg, w, id)
  {
    S.DeviceConfigurationWins(w.cloud[w.cloudSeen], cfg.configured, id);
    assert id in w.running <==> id in ServersOf(w);
  }

  /** No update is lost: whenever the supervisor waits with nothing unseen, or for the end once the cloud
      is gone, it is up to date. */
  lemma WaitingIsUpToDate(cfg: Setup, steps: seq<Step>, id: string)
    requires EndOf(cfg, steps).Some?
    ensures
      var w := EndOf(cfg, steps).value;
      Shape(w) && (IsSettled(w) ==> UpToDate(cfg, w, id))
  {
    var w := EndOf(cfg, steps).value;
    EveryRunHolds(cfg, steps);
    if IsSettled(w) {
      if id in w.running {
        UntoldIsLive(cfg, w, id);
      }
      SettledServer(cfg, w, id);
    }
  }

  /** While clearing, what is still listed tells the fate of a task. */
  lemma ListedFate(cfg: Setup, w: World, id: string)
    requires Shape(w) && Settling(cfg, w) && w.phase.Clearing? && id in w.running
    ensures
      var fate := S.FateOf(DesiredNow(cfg, w), w.tasks[w.running[id]].server);
      (fate.Gone? <==> id in w.phase.removed) && (fate.Changed? <==> id in w.phase.restarted)
  {
    assert id in ServersOf(w);
  }

  /** Only taking a task out of the map fires a token. */
  lemma TokensStay(cfg: Setup, w: World, step: Step)
    requires Shape(w) && Enabled(w, step) && !step.Removes? && !step.Restarts?
    ensures w.tokens <= After(cfg, w, step).tokens
  {
    if MovesNoTask(step) {
      QuietTasks(cfg, w, step);
    }
  }

  lemma RemovesFires(cfg: Setup, w: World, id: string, t: nat)
    requires Shape(w) && Settling(cfg, w) && Enabled(w, Removes(id))
    ensures
      var after := AfterRemoves(w, id);
      t < |w.tokens| <= |after.tokens| && after.tokens[t] != w.tokens[t] ==>
        S.FateOf(DesiredNow(cfg, w), w.tasks[t].server).Gone? && after.tokens[t] == w.tokens[t].(remove := true)
  {
    if id in w.running {
      ListedFate(cfg, w, id);
    }
  }

  lemma RestartsFires(cfg: Setup, w: World, t: nat)
    requires Shape(w) && Settling(cfg, w) && Enabled(w, Restarts)
    ensures
      var after := AfterRestarts(w);
      t < |w.tokens| <= |after.tokens| && after.tokens[t] != w.tokens[t] ==>
        S.FateOf(DesiredNow(cfg, w), w.tasks[t].server).Changed? && after.tokens[t] == w.tokens[t].(stop := true)
  {
    if w.phase.restarted[0] in w.running {
      ListedFate(cfg, w, w.phase.restarted[0]);
    }
  }

  lemma StepFires(cfg: Setup, w: World, step: Step, t: nat)
    requires Shape(w) && Settling(cfg, w) && Enabled(w, step)
    ensures
      var after := After(cfg, w, step);
      t < |w.tokens| <= |after.tokens| && after.tokens[t] != w.tokens[t] ==>
        match S.FateOf(DesiredNow(cfg, w), w.tasks[t].server)
        case Gone => after.tokens[t] == w.tokens[t].(remove := true)
        case Changed => after.tokens[t] == w.tokens[t].(stop := true)
        case Kept => false
  {
    match step
    case Removes(id) => RemovesFires(cfg, w, id, t);
    case Restarts => RestartsFires(cfg, w, t);
    case _ => TokensStay(cfg, w, step);
  }

  /** A task is told its server is gone only when its id is no longer desired, and told to stop only
      when its id is, with other settings. */
  lemma TokensFireForAReason(cfg: Setup, steps: seq<Step>, step: Step, t: nat)
    requires EndOf(cfg, steps).Some? && EndOf(cfg, steps + [step]).Some?
    ensures
      var w, after := EndOf(cfg, steps).value, EndOf(cfg, steps + [step]).value;
      Shape(w) && (t < |w.tokens| <= |after.tokens| && t < |w.tasks| && after.tokens[t] != w.tokens[t] ==>
        match S.FateOf(DesiredNow(cfg, w), w.tasks[t].server)
        case Gone => after.tokens[t] == w.tokens[t].(remove := true)
        case Changed => after.tokens[t] == w.tokens[t].(stop := true)
        case Kept => false)
  {
    assert (steps + [step])[..|steps|] == steps;
    EveryRunHolds(cfg, steps);
    StepFires(cfg, EndOf(cfg, steps).value, step, t);
  }

  predicate ChainBefore(cfg: Setup, log: seq<T.Effect>, i: nat, device: EntityTopicId, server: EntityTopicId)
    requires i < |log|
  {
    exists d, s :: 0 <= s < d < i
      && log[d] == T.DeviceRegistered(device, server)
      && log[s] == T.ServerRegistered(server, T.ParentEntity(cfg.settings))
      && (cfg.settings.gateway.Some? ==> T.GatewayRegistered(cfg.settings.gateway.value) in log[..s])
  }

  /** Before anything is published for a device, the gateway device if there is one, then the server,
      then the device were registered. */
  lemma RegistrationPrecedesData(cfg: Setup, steps: seq<Step>, i: nat)
    requires EndOf(cfg, steps).Some?
    ensures
      var log := EndOf(cfg, steps).value.log;
      i < |log| && log[i].Published? ==> ChainBefore(cfg, log, i, log[i].device, log[i].server)
  {
    var log := EndOf(cfg, steps).value.log;
    EveryRunHolds(cfg, steps);
    if i < |log| && log[i].Published? {
      var device, server := log[i].device, log[i].server;
      assert Follows(cfg, log[..i], log[i]);
      var d :| 0 <= d < i && log[..i][d] == T.DeviceRegistered(device, server);
      assert Follows(cfg, log[..d], log[d]);
      var s :| 0 <= s < d && log[..d][s] == T.ServerRegistered(server, T.ParentEntity(cfg.settings));
      assert Follows(cfg, log[..s], log[s]);
      assert log[d] == T.DeviceRegistered(device, server);
      assert log[s] == T.ServerRegistered(server, T.ParentEntity(cfg.settings));
    }
  }

  // ---- the runs are not idle ----

  lemma StepTo(cfg: Setup, steps: seq<Step>, w: World, step: Step, next: World)
    requires EndOf(cfg, steps) == Some(w) && Shape(w) && Enabled(w, step) && After(cfg, w, step) == next
    ensures EndOf(cfg, steps + [step]) == Some(next)
  {
    assert (steps + [step])[..|steps|] == steps;
  }

  lemma WakesToMerge(cfg: Setup, w: World)
    requires Shape(w) && w.phase.Waiting? && w.cloudSeen < |w.cloud| - 1
    ensures Enabled(w, WakesChanged) && After(cfg, w, WakesChanged) == w.(phase := Merging)
    ensures
      var woken := w.(phase := Merging);
      Shape(woken) && Enabled(woken, Merges) && After(cfg, woken, Merges) == AfterMerges(cfg, woken)
  {
  }

  /** Reconciling with the last of these lists, and with nothing cleared yet. */
  predicate TakesUp(cfg: Setup, cloud: seq<seq<ServerConfig>>, running: map<string, nat>, w: World) {
    && w.cloud == cloud && cloud != [] && w.cloudSeen == |cloud| - 1 && w.running == running
    && w.phase.Clearing? && w.phase.desired == Merged(cloud[|cloud| - 1], cfg.configured)
  }

  lemma MergesTheLast(cfg: Setup, cloud: seq<seq<ServerConfig>>, running: map<string, nat>, w: World)
    requires Shape(w) && w.phase.Merging? && w.cloud == cloud && w.running == running
    ensures TakesUp(cfg, cloud, running, AfterMerges(cfg, w))
  {
  }

  /** A new list is taken up: a supervisor that waits with one unseen can always go on to reconcile with
      exactly the last one. */
  lemma UnseenIsMerged(cfg: Setup, steps: seq<Step>, w: World)
    requires EndOf(cfg, steps) == Some(w) && w.phase.Waiting? && w.cloudSeen < |w.cloud| - 1
    ensures exists more, after ::
      EndOf(cfg, more) == Some(after) && steps <= more && TakesUp(cfg, w.cloud, w.running, after)
  {
    var woken, more := GoesToMerge(cfg, steps, w);
    MergesTheLast(cfg, w.cloud, w.running, woken);
    assert steps <= more;
  }

  lemma GoesToMerge(cfg: Setup, steps: seq<Step>, w: World) returns (woken: World, more: seq<Step>)
    requires EndOf(cfg, steps) == Some(w) && w.phase.Waiting? && w.cloudSeen < |w.cloud| - 1
    ensures Shape(woken) && woken.phase.Merging? && woken.cloud == w.cloud && woken.running == w.running
    ensures more == steps + [WakesChanged] + [Merges] && EndOf(cfg, more) == Some(AfterMerges(cfg, woken))
  {
    EveryRunHolds(cfg, steps);
    WakesToMerge(cfg, w);
    woken := w.(phase := Merging);
    StepTo(cfg, steps, w, WakesChanged, woken);
    more := steps + [WakesChanged];
    StepTo(cfg, more, woken, Merges, AfterMerges(cfg, woken));
    more := more + [Merges];
  }

  /** A gateway with one server from the cloud, not started yet. */
  function NoTask(cfg: Setup, server: ServerConfig, phase: Phase): World {
    World([[], [server]], false, [[]], false, false, phase, if phase.Merging? then 0 else 1, map[], [], [],
          Startup(cfg).log)
  }

  /** The same gateway with that server's task. */
  function OneTask(server: ServerConfig, phase: Phase, task: T.State, log: seq<T.Effect>): World {
    World([[], [server]], false, [[]], false, false, phase, 1, map[server.id := 0], [task], [Tokens(false, false)], log)
  }

  lemma MergesTheFirst(cfg: Setup, server: ServerConfig)
    requires cfg.configured == []
    ensures AfterMerges(cfg, NoTask(cfg, server, Merging)) == NoTask(cfg, server, Clearing([server], {}, []))
  {
    var w := NoTask(cfg, server, Merging);
    assert Merged([server], []) == [server];
    assert ServersOf(w) == map[];
    assert [server][1..] == [] && S.RestartedIds([server], map[]) == [];
    assert AfterMerges(cfg, w).phase.removed == {};
  }

  lemma StartsTheFirst(cfg: Setup, server: ServerConfig)
    ensures AfterStarts(NoTask(cfg, server, Starting([server], 0)))
         == OneTask(server, Starting([server], 1), T.Initial(server, [server.id]), Startup(cfg).log)
  {
    assert S.Ids([server]) == [server.id];
  }

  lemma ClearsTheFirst(cfg: Setup, server: ServerConfig) returns (steps: seq<Step>)
    requires cfg.configured == []
    ensures EndOf(cfg, steps) == Some(NoTask(cfg, server, Clearing([server], {}, [])))
  {
    steps := [];
    assert EndOf(cfg, steps) == Some(Startup(cfg));
    StepTo(cfg, steps, Startup(cfg), CloudSends([server]), NoTask(cfg, server, Merging));
    steps := steps + [CloudSends([server])];
    MergesTheFirst(cfg, server);
    StepTo(cfg, steps, NoTask(cfg, server, Merging), Merges, NoTask(cfg, server, Clearing([server], {}, [])));
    steps := steps + [Merges];
  }

  lemma StartsTheFirstServer(cfg: Setup, server: ServerConfig) returns (steps: seq<Step>)
    requires cfg.configured == []
    ensures EndOf(cfg, steps) ==
      Some(OneTask(server, Starting([server], 1), T.Initial(server, [server.id]), Startup(cfg).log))
  {
    steps := ClearsTheFirst(cfg, server);
    StepTo(cfg, steps, NoTask(cfg, server, Clearing([server], {}, [])), Cleared,
           NoTask(cfg, server, Starting([server], 0)));
    steps := steps + [Cleared];
    StartsTheFirst(cfg, server);
    StepTo(cfg, steps, NoTask(cfg, server, Starting([server], 0)), Starts,
           OneTask(server, Starting([server], 1), T.Initial(server, [server.id]), Startup(cfg).log));
    steps := steps + [Starts];
  }

  lemma TaskStepTo(cfg: Setup, steps: seq<Step>, server: ServerConfig, task: T.State, log: seq<T.Effect>, step: T.Step)
    returns (next: T.State, grown: seq<T.Effect>)
    requires task.server.id == server.id
    requires
      var w := OneTask(server, Starting([server], 1), task, log);
      EndOf(cfg, steps) == Some(w) && T.Enabled(EnvOf(w, 0), task, step)
    ensures next == T.After(cfg.settings, T.Env(false, false, [[]], false), task, step)
    ensures EndOf(cfg, steps + [Acts(0, step)]) == Some(OneTask(server, Starting([server], 1), next, grown))
  {
    var w := OneTask(server, Starting([server], 1), task, log);
    next, grown := T.After(cfg.settings, EnvOf(w, 0), task, step), log + T.EffectOf(cfg.settings, task, step);
    StepTo(cfg, steps, w, Acts(0, step), OneTask(server, Starting([server], 1), next, grown));
  }

  /** The runs the theorems speak of do get as far as an open session. */
  lemma SomeRunOpensASession(cfg: Setup, server: ServerConfig) returns (steps: seq<Step>, w: World)
    requires cfg.configured == []
    ensures EndOf(cfg, steps) == Some(w)
    ensures |w.tasks| == 1 && w.tasks[0].server == server && w.tasks[0].session
  {
    steps := StartsTheFirstServer(cfg, server);
    var task, log := TaskStepTo(cfg, steps, server, T.Initial(server, [server.id]), Startup(cfg).log, T.RegisterServer);
    steps := steps + [Acts(0, T.RegisterServer)];
    task, log := TaskStepTo(cfg, steps, server, task, log, T.CheckTokens);
    steps := steps + [Acts(0, T.CheckTokens)];
    task, log := TaskStepTo(cfg, steps, server, task, log, T.ConnectSucceeds);
    steps := steps + [Acts(0, T.ConnectSucceeds)];
    w := OneTask(server, Starting([server], 1), task, log);
  }
}
