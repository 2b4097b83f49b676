/** The two providers and what they feed: the supervisor and its tasks (crates/gateway/src/main.rs). */
module Process {
  import opened Text
  import opened Config
  import C = CloudServers
  import D = DeviceTypes
  import G = Gateway
  import ResolveAll
  import T = ServerTask

  datatype Setup = Setup(gateway: G.Setup, externalId: string -> string, maxBackoff: nat)

  datatype State = State(world: G.World, cloud: C.State, types: D.State)

  /** A poll of a provider, or a step of anything else, which sends nothing to the two channels. */
  datatype Move = PollsCloud(cloud: C.Turn) | PollsTypes(types: D.Turn) | Steps(step: G.Step)

  function Startup(cfg: Setup): State {
    State(G.Startup(cfg.gateway), C.INITIAL, D.INITIAL)
  }

  predicate CanMove(s: State, move: Move) {
    G.Shape(s.world) &&
    match move
    case PollsCloud(_) => !s.world.cloudClosed
    case PollsTypes(_) => !s.world.typesClosed
    case Steps(step) => !step.CloudSends? && !step.TypesSent? && G.Enabled(s.world, step)
  }

  /** What the rest of the process does in a move: it sees a poll only when that sends. */
  function StepsIn(cfg: Setup, s: State, move: Move): seq<G.Step> {
    match move
    case PollsCloud(turn) =>
      var channel := C.AfterTurn(cfg.externalId, s.cloud, turn, cfg.maxBackoff).channel;
      if channel == s.cloud.channel then [] else [G.CloudSends(channel.value)]
    case PollsTypes(turn) =>
      var channel := D.AfterTurn(s.types, turn, cfg.maxBackoff).channel;
      if channel == s.types.channel then [] else [G.TypesSent(channel.value)]
    case Steps(step) => [step]
  }

  function AfterMove(cfg: Setup, s: State, move: Move): State
    requires CanMove(s, move)
  {
    var steps := StepsIn(cfg, s, move);
    State(if steps == [] then s.world else G.After(cfg.gateway, s.world, steps[0]),
          if move.PollsCloud? then C.AfterTurn(cfg.externalId, s.cloud, move.cloud, cfg.maxBackoff) else s.cloud,
          if move.PollsTypes? then D.AfterTurn(s.types, move.types, cfg.maxBackoff) else s.types)
  }

  /** The process at the end of a run, if every move in it could be made. */
  function EndOf(cfg: Setup, moves: seq<Move>): Option<State> {
    if moves == [] then Some(Startup(cfg))
    else
      var n := |moves| - 1;
      match EndOf(cfg, moves[..n])
      case None => None
      case Some(s) => if CanMove(s, moves[n]) then Some(AfterMove(cfg, s, moves[n])) else None
  }

  predicate IsRun(cfg: Setup, moves: seq<Move>) {
    EndOf(cfg, moves).Some?
  }

  function Final(cfg: Setup, moves: seq<Move>): State
    requires IsRun(cfg, moves)
  {
    EndOf(cfg, moves).value
  }

  function CloudTurns(moves: seq<Move>): seq<C.Turn> {
    if moves == [] then []
    else
      var n := |moves| - 1;
      CloudTurns(moves[..n]) + if moves[n].PollsCloud? then [moves[n].cloud] else []
  }

  function TypesTurns(moves: seq<Move>): seq<D.Turn> {
    if moves == [] then []
    else
      var n := |moves| - 1;
      TypesTurns(moves[..n]) + if moves[n].PollsTypes? then [moves[n].types] else []
  }

  /** How the last resolution of a task went. */
  function LastResolution(moves: seq<Move>, t: nat): T.Resolution {
    if moves == [] then T.Never
    else
      var n := |moves| - 1;
      var last := LastResolution(moves[..n], t);
      if moves[n].Steps? then G.ResolutionAfter(last, moves[n].step, t) else last
  }

  /** The process is a run of the system fed by arbitrary senders: all that holds there holds here. */
  lemma {:induction false} ProcessIsARun(cfg: Setup, moves: seq<Move>) returns (steps: seq<G.Step>)
    requires EndOf(cfg, moves).Some?
    ensures G.EndOf(cfg.gateway, steps) == Some(EndOf(cfg, moves).value.world)
    ensures forall t: nat :: G.LastResolution(steps, t) == LastResolution(moves, t)
  {
    if moves == [] {
      steps := [];
    } else {
      var n := |moves| - 1;
      steps := ProcessIsARun(cfg, moves[..n]);
      var more := StepsIn(cfg, EndOf(cfg, moves[..n]).value, moves[n]);
      if more != [] {
        assert (steps + more)[..|steps|] == steps;
        steps := steps + more;
      }
    }
  }

  predicate IsLast<X(==)>(list: seq<X>, x: X) {
    list != [] && list[|list| - 1] == x
  }

  /** The last values sent are those on the providers' channels. */
  predicate Linked(s: State) {
    IsLast(s.world.cloud, s.cloud.channel.value) && IsLast(s.world.types, s.types.channel.value)
  }

  lemma StepSendsNothing(cfg: Setup, w: G.World, step: G.Step)
    requires G.Shape(w) && G.Enabled(w, step) && !step.CloudSends? && !step.TypesSent?
    ensures G.After(cfg.gateway, w, step).cloud == w.cloud && G.After(cfg.gateway, w, step).types == w.types
  {
    match step
    case Removes(id) => TakingSendsNothing(w, id);
    case Restarts => TakingSendsNothing(w, w.phase.restarted[0]);
    case Starts => assert G.After(cfg.gateway, w, step) == G.AfterStarts(w);
    case Acts(t, next) => ActingSendsNothing(cfg.gateway, w, t, next);
    case Joins =>
    case _ => QuietSendsNothing(cfg, w, step);
  }

  lemma QuietSendsNothing(cfg: Setup, w: G.World, step: G.Step)
    requires G.Shape(w) && G.Enabled(w, step) && G.MovesNoTask(step) && !step.CloudSends? && !step.TypesSent?
    ensures G.After(cfg.gateway, w, step).cloud == w.cloud && G.After(cfg.gateway, w, step).types == w.types
  {
    match step
    case Merges => assert G.After(cfg.gateway, w, step) == G.AfterMerges(cfg.gateway, w);
    case _ =>
  }

  lemma ActingSendsNothing(cfg: G.Setup, w: G.World, t: nat, step: T.Step)
    requires G.Shape(w) && G.Enabled(w, G.Acts(t, step))
    ensures G.AfterActs(cfg, w, t, step).cloud == w.cloud && G.AfterActs(cfg, w, t, step).types == w.types
  {
  }

  lemma TakingSendsNothing(w: G.World, id: string)
    requires G.Shape(w) && w.phase.Clearing?
    ensures G.AfterRemoves(w, id).cloud == w.cloud && G.AfterRemoves(w, id).types == w.types
    ensures w.phase.restarted != [] ==>
      G.AfterRestarts(w).cloud == w.cloud && G.AfterRestarts(w).types == w.types
  {
  }

  lemma CloudSendLinks(cfg: Setup, w: G.World, value: seq<ServerConfig>)
    requires G.Shape(w) && !w.cloudClosed
    ensures G.After(cfg.gateway, w, G.CloudSends(value)) == w.(cloud := w.cloud + [value])
  {
  }

  lemma TypesSendLinks(cfg: Setup, w: G.World, value: T.DeviceTypes)
    requires G.Shape(w) && !w.typesClosed
    ensures G.After(cfg.gateway, w, G.TypesSent(value)) == w.(types := w.types + [value])
  {
  }

  lemma MoveLinks(cfg: Setup, s: State, move: Move)
    requires CanMove(s, move) && Linked(s)
    ensures Linked(AfterMove(cfg, s, move))
  {
    match move
    case PollsCloud(turn) =>
      CloudSendLinks(cfg, s.world, C.AfterTurn(cfg.externalId, s.cloud, turn, cfg.maxBackoff).channel.value);
    case PollsTypes(turn) =>
      TypesSendLinks(cfg, s.world, D.AfterTurn(s.types, turn, cfg.maxBackoff).channel.value);
    case Steps(step) =>
      StepSendsNothing(cfg, s.world, step);
  }

  lemma CloudOneMore(externalId: string -> string, turns: seq<C.Turn>, turn: C.Turn, max: nat)
    ensures C.Run(externalId, turns + [turn], max) == C.AfterTurn(externalId, C.Run(externalId, turns, max), turn, max)
  {
    assert (turns + [turn])[..|turns|] == turns;
  }

  lemma TypesOneMore(turns: seq<D.Turn>, turn: D.Turn, max: nat)
    ensures D.Run(turns + [turn], max) == D.AfterTurn(D.Run(turns, max), turn, max)
  {
    assert (turns + [turn])[..|turns|] == turns;
  }

  lemma MoveRuns(cfg: Setup, s: State, move: Move, cloud: seq<C.Turn>, types: seq<D.Turn>)
    requires CanMove(s, move)
    requires s.cloud == C.Run(cfg.externalId, cloud, cfg.maxBackoff) && s.types == D.Run(types, cfg.maxBackoff)
    ensures
      var after := AfterMove(cfg, s, move);
      var polled := cloud + if move.PollsCloud? then [move.cloud] else [];
      var fetched := types + if move.PollsTypes? then [move.types] else [];
      && after.cloud == C.Run(cfg.externalId, polled, cfg.maxBackoff)
      && after.types == D.Run(fetched, cfg.maxBackoff)
  {
    assert cloud + [] == cloud && types + [] == types;
    match move
    case PollsCloud(turn) => CloudOneMore(cfg.externalId, cloud, turn, cfg.maxBackoff);
    case PollsTypes(turn) => TypesOneMore(types, turn, cfg.maxBackoff);
    case Steps(_) =>
  }

  /** Each provider goes through a run of its own polls. */
  lemma {:induction false} ProvidersRun(cfg: Setup, moves: seq<Move>)
    requires EndOf(cfg, moves).Some?
    ensures
      var s := EndOf(cfg, moves).value;
      && Linked(s)
      && s.cloud == C.Run(cfg.externalId, CloudTurns(moves), cfg.maxBackoff)
      && s.types == D.Run(TypesTurns(moves), cfg.maxBackoff)
  {
    if moves != [] {
      var n := |moves| - 1;
      ProvidersRun(cfg, moves[..n]);
      var s := EndOf(cfg, moves[..n]).value;
      MoveLinks(cfg, s, moves[n]);
      MoveRuns(cfg, s, moves[n], CloudTurns(moves[..n]), TypesTurns(moves[..n]));
    }
  }

  /** The servers read last from Cumulocity. */
  function ReadLast(cfg: Setup, moves: seq<Move>): seq<ServerConfig> {
    C.LastRead(cfg.externalId, CloudTurns(moves), cfg.maxBackoff)
  }

  /** The device types merged last. */
  function MergedLast(moves: seq<Move>): T.DeviceTypes {
    D.LastMerge(TypesTurns(moves))
  }

  lemma ProcessHolds(cfg: Setup, moves: seq<Move>)
    requires IsRun(cfg, moves)
    ensures G.Inv(cfg.gateway, Final(cfg, moves).world)
  {
    var steps := ProcessIsARun(cfg, moves);
    G.EveryRunHolds(cfg.gateway, steps);
  }

  lemma LastSentIsReadLast(cfg: Setup, moves: seq<Move>)
    requires IsRun(cfg, moves) && C.NeverMasked(cfg.externalId, CloudTurns(moves), cfg.maxBackoff)
    ensures IsLast(Final(cfg, moves).world.cloud, ReadLast(cfg, moves))
  {
    ProvidersRun(cfg, moves);
    C.CurrentIffNeverMasked(cfg.externalId, CloudTurns(moves), cfg.maxBackoff);
    C.CurrentSoFar(cfg.externalId, CloudTurns(moves), cfg.maxBackoff);
  }

  lemma LastSentIsMergedLast(cfg: Setup, moves: seq<Move>)
    requires IsRun(cfg, moves) && D.NeverMasked(TypesTurns(moves))
    ensures IsLast(Final(cfg, moves).world.types, MergedLast(moves))
  {
    ProvidersRun(cfg, moves);
    D.CurrentIffNeverMasked(TypesTurns(moves), cfg.maxBackoff);
    D.CurrentSoFar(TypesTurns(moves), cfg.maxBackoff);
  }

  /** Once settled, an id runs the device's own last word on it, or else its first entry in this list. */
  predicate RunsWanted(cfg: G.Setup, w: G.World, cloud: seq<ServerConfig>, id: string) {
    G.Shape(w) && (G.IsSettled(w) ==> G.RunningServer(w, id) == G.WantedServer(cfg, cloud, id))
  }

  lemma SettledRuns(cfg: G.Setup, w: G.World, cloud: seq<ServerConfig>, id: string)
    requires G.Inv(cfg, w) && IsLast(w.cloud, cloud)
    ensures RunsWanted(cfg, w, cloud, id)
  {
    if G.IsSettled(w) {
      if id in w.running {
        G.UntoldIsLive(cfg, w, id);
      }
      G.SettledServer(cfg, w, id);
    }
  }

  /** From Cumulocity to the tasks: once the supervisor has settled, the server running under an id is the
      device's own last word on it, or else the first of that id in the list read last from the cloud,
      unless a poll was masked. */
  lemma CloudReachesTheServers(cfg: Setup, moves: seq<Move>, id: string)
    requires IsRun(cfg, moves) && C.NeverMasked(cfg.externalId, CloudTurns(moves), cfg.maxBackoff)
    ensures RunsWanted(cfg.gateway, Final(cfg, moves).world, ReadLast(cfg, moves), id)
  {
    ProcessHolds(cfg, moves);
    LastSentIsReadLast(cfg, moves);
    SettledRuns(cfg.gateway, Final(cfg, moves).world, ReadLast(cfg, moves), id);
  }

  /** The managed objects read last from Cumulocity. */
  function ObjectsLast(cfg: Setup, moves: seq<Move>): seq<(string, C.ManagedObject)> {
    C.LastObjects(cfg.externalId, CloudTurns(moves), cfg.maxBackoff)
  }

  /** With no server of this id configured on the device, an id runs exactly when an object read last from
      Cumulocity is a startable server of that id, and then it runs what the first such object says. */
  predicate RunsItsObject(cfg: Setup, w: G.World, objects: seq<(string, C.ManagedObject)>, id: string) {
    G.Shape(w) && (G.IsSettled(w) ==>
      && (id in w.running <==> exists j :: 0 <= j < |objects| && C.IsServerObject(objects[j], id))
      && forall j | 0 <= j < |objects| && C.IsFirstServer(objects, j, id) ::
           G.RunningServer(w, id) == C.ToServerConfig(cfg.externalId, id, objects[j].1))
  }

  lemma ObjectRuns(cfg: Setup, w: G.World, objects: seq<(string, C.ManagedObject)>, id: string)
    requires RunsWanted(cfg.gateway, w, C.Servers(cfg.externalId, objects), id)
    requires forall s :: s in cfg.gateway.configured ==> s.id != id
    ensures RunsItsObject(cfg, w, objects, id)
  {
    NotConfigured(cfg.gateway.configured, id);
    C.FirstServerRead(cfg.externalId, objects, id);
  }

  lemma {:induction false} NotConfigured(configured: seq<ServerConfig>, id: string)
    requires forall s :: s in configured ==> s.id != id
    ensures Last(configured, id).None?
  {
    if configured != [] {
      NotConfigured(configured[..|configured| - 1], id);
    }
  }

  /** From managed objects to tasks: so a server that is disabled in Cumulocity, or asks for what the gateway
      cannot do, does not run, and any other that is listed does. */
  lemma ObjectsReachTheServers(cfg: Setup, moves: seq<Move>, id: string)
    requires IsRun(cfg, moves) && C.NeverMasked(cfg.externalId, CloudTurns(moves), cfg.maxBackoff)
    requires forall s :: s in cfg.gateway.configured ==> s.id != id
    ensures RunsItsObject(cfg, Final(cfg, moves).world, ObjectsLast(cfg, moves), id)
  {
    ProcessHolds(cfg, moves);
    LastSentIsOfObjects(cfg, moves);
    SettledRuns(cfg.gateway, Final(cfg, moves).world, C.Servers(cfg.externalId, ObjectsLast(cfg, moves)), id);
    ObjectRuns(cfg, Final(cfg, moves).world, ObjectsLast(cfg, moves), id);
  }

  lemma LastSentIsOfObjects(cfg: Setup, moves: seq<Move>)
    requires IsRun(cfg, moves) && C.NeverMasked(cfg.externalId, CloudTurns(moves), cfg.maxBackoff)
    ensures IsLast(Final(cfg, moves).world.cloud, C.Servers(cfg.externalId, ObjectsLast(cfg, moves)))
  {
    LastSentIsReadLast(cfg, moves);
    C.LastReadIsOfObjects(cfg.externalId, CloudTurns(moves), cfg.maxBackoff);
  }

  /** A server that Cumulocity lists only as disabled does not run. */
  lemma DisabledDoesNotRun(cfg: Setup, moves: seq<Move>, id: string)
    requires IsRun(cfg, moves) && C.NeverMasked(cfg.externalId, CloudTurns(moves), cfg.maxBackoff)
    requires forall s :: s in cfg.gateway.configured ==> s.id != id
    requires
      var objects := ObjectsLast(cfg, moves);
      forall j :: 0 <= j < |objects| && objects[j].0 == id ==>
        objects[j].1.client.Some? && C.IsDisabled(objects[j].1.client.value)
    ensures G.IsSettled(Final(cfg, moves).world) ==> id !in Final(cfg, moves).world.running
  {
    ObjectsReachTheServers(cfg, moves, id);
  }

  /** A task that has seen the last version has in force what its last resolution made of it. */
  predicate ServesLatest(w: G.World, t: nat, types: T.DeviceTypes, last: T.Resolution) {
    t < |w.tasks| && T.IsInForce(w.tasks[t].phase) && w.tasks[t].seen == |w.types| - 1 ==>
      w.tasks[t].current == types && T.ServesResolution(w.tasks[t], last)
  }

  lemma SeenLast(cfg: G.Setup, w: G.World, t: nat, types: T.DeviceTypes, last: T.Resolution)
    requires G.Inv(cfg, w) && IsLast(w.types, types)
    requires t < |w.tasks| ==> T.ServesResolution(w.tasks[t], last)
    ensures ServesLatest(w, t, types, last)
  {
    if t < |w.tasks| {
      assert T.SeenIsInForce(G.EnvOf(w, t), w.tasks[t]) by {
        assert T.Inv(cfg.settings, G.EnvOf(w, t), w.tasks[t]);
      }
    }
  }

  /** From inventory and files to the readers: what a task that has seen the last version has in force is
      what its last resolution made of the last good fetch under the files of the last poll, unless a poll
      was masked. */
  lemma TypesReachTheTasks(cfg: Setup, moves: seq<Move>, t: nat)
    requires IsRun(cfg, moves) && D.NeverMasked(TypesTurns(moves))
    ensures ServesLatest(Final(cfg, moves).world, t, MergedLast(moves), LastResolution(moves, t))
  {
    ProcessHolds(cfg, moves);
    ResolutionsServe(cfg, moves, t);
    LastSentIsMergedLast(cfg, moves);
    SeenLast(cfg.gateway, Final(cfg, moves).world, t, MergedLast(moves), LastResolution(moves, t));
  }

  lemma ResolutionsServe(cfg: Setup, moves: seq<Move>, t: nat)
    requires IsRun(cfg, moves)
    ensures
      var w := Final(cfg, moves).world;
      t < |w.tasks| ==> T.ServesResolution(w.tasks[t], LastResolution(moves, t))
  {
    var steps := ProcessIsARun(cfg, moves);
    G.TasksServeResolutions(cfg.gateway, steps, t);
  }

  /** And where its session answered by an address space, that is what looking up every entry of every
      device type on its own finds there. */
  lemma TypesReachTheTasksEntryByEntry(cfg: Setup, moves: seq<Move>, t: nat, space: ResolveAll.AddressSpace)
    requires IsRun(cfg, moves) && D.NeverMasked(TypesTurns(moves))
    requires t < |Final(cfg, moves).world.tasks|
    requires
      var w := Final(cfg, moves).world;
      T.IsInForce(w.tasks[t].phase) && w.tasks[t].seen == |w.types| - 1
    requires T.AnswersBy(space, LastResolution(moves, t), MergedLast(moves))
    ensures
      var task, session := Final(cfg, moves).world.tasks[t], LastResolution(moves, t).session;
      && session.server == task.server && session.known == task.known
      && task.mappings == ResolveAll.MappingsOf(space, session, MergedLast(moves))
  {
    TypesReachTheTasks(cfg, moves, t);
    T.ServesEntryByEntry(space, Final(cfg, moves).world.tasks[t], LastResolution(moves, t));
  }
}
