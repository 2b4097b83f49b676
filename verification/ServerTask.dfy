/** The task of one server as a state machine: connect, resolve, read, tear down
    (crates/gateway/src/server_task.rs). Every await is a point between two steps. */
module ServerTask {
  import opened Text
  import opened Model
  import opened Config
  import opened Topic
  import ResolveAll
  import Resolve
  import Backoff

  type DeviceTypes = seq<LoadedDeviceType>

  datatype Settings = Settings(maxBackoff: nat, gateway: Option<EntityTopicId>)

  /** The entity a server is registered under. */
  function ParentEntity(cfg: Settings): EntityTopicId {
    cfg.gateway.GetOr(MAIN_DEVICE)
  }

  /** What the task sees of the world: its tokens, and every set of device types sent so far. */
  datatype Env = Env(stop: bool, remove: bool, types: seq<DeviceTypes>, typesClosed: bool)

  datatype Effect =
    | GatewayRegistered(gateway: EntityTopicId)
    | ServerRegistered(server: EntityTopicId, parent: EntityTopicId)
    | DeviceRegistered(device: EntityTopicId, server: EntityTopicId)
    /** Units, a measurement, an event or an alarm of a device. */
    | Published(device: EntityTopicId, server: EntityTopicId)
    | Opened | Closed
    /** A connect that failed, and a reader that gave up. */
    | Refused | ReaderLost
    | Waited | Deregistered

  /** What follows a teardown. */
  datatype Then = Leave | LeaveForGood | BackOff | Again

  datatype Phase =
    | Registering | LoopHead | Connecting | BackingOff
    | Borrowing | Resolving | RegisteringDevices(next: nat) | StartingReaders | Running
    | ShuttingDown(goal: Then) | Disconnecting(goal: Then)
    | Deregistering | Done

  datatype State = State(
    server: ServerConfig, known: seq<string>, phase: Phase,
    session: bool, readers: seq<seq<EntityTopicId>>, readerExited: bool,
    backoff: nat, seen: nat, current: DeviceTypes, mappings: seq<Resolve.ResolvedMapping>,
    registered: seq<EntityTopicId>, trace: seq<Effect>)

  /** `known` is the desired ids at the time of the start. */
  function Initial(server: ServerConfig, known: seq<string>): State {
    State(server, known, Registering, false, [], false, Backoff.FIRST, 0, [], [], [], [])
  }

  function ServerEntity(s: State): EntityTopicId {
    ChildDevice(TopicId(s.server))
  }

  function DevicesOf(server: ServerConfig, mappings: seq<Resolve.ResolvedMapping>): seq<EntityTopicId> {
    seq(|mappings|, i requires 0 <= i < |mappings| => ResolveAll.DeviceOf(server, mappings[i]))
  }

  function Devices(s: State): seq<EntityTopicId> {
    DevicesOf(s.server, s.mappings)
  }

  datatype Step =
    | RegisterServer | CheckTokens
    | ConnectSucceeds | ConnectFails | StopFires | RemoveFires | SleepEnds
    | BorrowTypes
    | ResolveSucceeds(table: ResolveAll.Session, answers: seq<ResolveAll.Answer>) | ResolveFails
    | RegisterDevice | PublishUnits | DevicesRegistered
    | StartReader(entities: seq<EntityTopicId>) | ReadersStarted
    | ReaderPublishes(reader: nat, device: EntityTopicId) | ReaderExits(reader: nat)
    | TypesChange | TypesClose | ReaderGone
    | ReadersShutDown | Disconnects | Deregisters

  function Latest(env: Env): nat {
    if env.types == [] then 0 else |env.types| - 1
  }

  predicate Waits(phase: Phase) {
    phase.Connecting? || phase.BackingOff? || phase.Running?
  }

  predicate Resolves(s: State, table: ResolveAll.Session, answers: seq<ResolveAll.Answer>) {
    && table.server == s.server && table.known == s.known && |answers| == |s.current|
    && ResolveAll.Resolved(table, s.current, answers).Some?
  }

  predicate Enabled(env: Env, s: State, step: Step) {
    match step
    case RegisterServer => s.phase.Registering?
    case CheckTokens => s.phase.LoopHead?
    case ConnectSucceeds => s.phase.Connecting?
    case ConnectFails => s.phase.Connecting?
    case StopFires => Waits(s.phase) && env.stop
    case RemoveFires => Waits(s.phase) && env.remove
    case SleepEnds => s.phase.BackingOff?
    case BorrowTypes => s.phase.Borrowing? && env.types != []
    case ResolveSucceeds(table, answers) => s.phase.Resolving? && Resolves(s, table, answers)
    case ResolveFails => s.phase.Resolving?
    case RegisterDevice => s.phase.RegisteringDevices? && s.phase.next < |s.mappings|
    case PublishUnits => s.phase.RegisteringDevices? && 0 < s.phase.next <= |s.mappings|
    case DevicesRegistered => s.phase.RegisteringDevices? && s.phase.next == |s.mappings|
    case StartReader(entities) => s.phase.StartingReaders? && forall e :: e in entities ==> e in Devices(s)
    case ReadersStarted => s.phase.StartingReaders?
    case ReaderPublishes(reader, device) => reader < |s.readers| && device in s.readers[reader]
    case ReaderExits(reader) => reader < |s.readers|
    case TypesChange => s.phase.Running? && s.seen < Latest(env)
    case TypesClose => s.phase.Running? && s.seen == Latest(env) && env.typesClosed
    case ReaderGone => s.phase.Running? && s.readerExited
    case ReadersShutDown => s.phase.ShuttingDown?
    case Disconnects => s.phase.Disconnecting?
    case Deregisters => s.phase.Deregistering?
  }

  /** What a step does outside the task. */
  function EffectOf(cfg: Settings, s: State, step: Step): seq<Effect> {
    match step
    case RegisterServer => [ServerRegistered(ServerEntity(s), ParentEntity(cfg))]
    case ConnectSucceeds => [Opened]
    case ConnectFails => [Refused]
    case ReaderGone => [ReaderLost]
    case SleepEnds => [Waited]
    case RegisterDevice =>
      if s.phase.RegisteringDevices? && s.phase.next < |s.mappings|
      then [DeviceRegistered(Devices(s)[s.phase.next], ServerEntity(s))] else []
    case PublishUnits =>
      if s.phase.RegisteringDevices? && 0 < s.phase.next <= |s.mappings|
      then [Published(Devices(s)[s.phase.next - 1], ServerEntity(s))] else []
    case ReaderPublishes(_, device) => [Published(device, ServerEntity(s))]
    case Disconnects => [Closed]
    case Deregisters => [Deregistered]
    case _ => []
  }

  function AfterTeardown(goal: Then): Phase {
    match goal
    case Leave => Done
    case LeaveForGood => Deregistering
    case BackOff => BackingOff
    case Again => LoopHead
  }

  /** The state after a step, its effects aside. */
  function Moved(cfg: Settings, env: Env, s: State, step: Step): State
    requires Enabled(env, s, step)
  {
    match step
    case RegisterServer => s.(phase := LoopHead)
    case CheckTokens => s.(phase := if env.stop then Done else if env.remove then Deregistering else Connecting)
    case ConnectSucceeds => s.(phase := Borrowing, session := true, backoff := Backoff.FIRST)
    case ConnectFails => s.(phase := BackingOff)
    case StopFires => s.(phase := if s.phase.Running? then ShuttingDown(Leave) else Done)
    case RemoveFires => s.(phase := if s.phase.Running? then ShuttingDown(LeaveForGood) else Deregistering)
    case SleepEnds => s.(phase := LoopHead, backoff := Backoff.Next(s.backoff, cfg.maxBackoff))
    case BorrowTypes =>
      s.(phase := Resolving, seen := Latest(env), current := env.types[Latest(env)], readerExited := false)
    case ResolveSucceeds(table, answers) =>
      s.(phase := RegisteringDevices(0), mappings := ResolveAll.Resolved(table, s.current, answers).value)
    case ResolveFails => s.(phase := Running, mappings := [])
    case RegisterDevice =>
      var device := Devices(s)[s.phase.next];
      s.(phase := RegisteringDevices(s.phase.next + 1),
         registered := if device in s.registered then s.registered else s.registered + [device])
    case PublishUnits => s
    case DevicesRegistered => s.(phase := StartingReaders)
    case StartReader(entities) => s.(readers := s.readers + [entities])
    case ReadersStarted => s.(phase := Running)
    case ReaderPublishes(_, _) => s
    case ReaderExits(reader) => s.(readers := s.readers[..reader] + s.readers[reader + 1..], readerExited := true)
    case TypesChange => s.(phase := ShuttingDown(Again), seen := Latest(env))
    case TypesClose => s.(phase := ShuttingDown(Leave))
    case ReaderGone => s.(phase := ShuttingDown(if env.stop then Again else BackOff))
    case ReadersShutDown => s.(phase := Disconnecting(s.phase.goal), readers := [])
    case Disconnects => s.(phase := AfterTeardown(s.phase.goal), session := false)
    case Deregisters => s.(phase := Done)
  }

  function After(cfg: Settings, env: Env, s: State, step: Step): State
    requires Enabled(env, s, step)
  {
    Moved(cfg, env, s, step).(trace := s.trace + EffectOf(cfg, s, step))
  }

  // ---- what every step keeps ----

  predicate HasSession(phase: Phase) {
    phase.Borrowing? || phase.Resolving? || phase.RegisteringDevices? || phase.StartingReaders? || phase.Running?
    || phase.ShuttingDown? || phase.Disconnecting?
  }

  predicate HasReaders(phase: Phase) {
    phase.StartingReaders? || phase.Running? || phase.ShuttingDown?
  }

  predicate HasDevices(phase: Phase) {
    phase.RegisteringDevices? || HasReaders(phase)
  }

  /** The session is open exactly from connect to disconnect, and readers live inside it. */
  predicate SessionIsHeld(s: State) {
    (s.session <==> HasSession(s.phase)) && (s.readers != [] ==> HasReaders(s.phase))
  }

  /** The devices registered in this generation. */
  function Covered(s: State): nat {
    if s.phase.RegisteringDevices? then s.phase.next else |s.mappings|
  }

  predicate ServerIsRegistered(cfg: Settings, s: State) {
    s.phase.Registering? || ServerRegistered(ServerEntity(s), ParentEntity(cfg)) in s.trace
  }

  /** What was done since the session was opened last. */
  function SinceOpened(trace: seq<Effect>): (recent: seq<Effect>)
    ensures forall e :: e in recent ==> e in trace
  {
    if trace == [] then []
    else
      var n := |trace| - 1;
      if trace[n].Opened? then [] else SinceOpened(trace[..n]) + [trace[n]]
  }

  predicate CoveredAreRegistered(s: State) {
    HasDevices(s.phase) ==>
      && Covered(s) <= |s.mappings|
      && forall i :: 0 <= i < Covered(s) ==> DeviceRegistered(Devices(s)[i], ServerEntity(s)) in SinceOpened(s.trace)
  }

  /** Readers publish for devices of their generation only. */
  predicate ReadersServeDevices(s: State) {
    forall r, e :: r in s.readers && e in r ==> e in Devices(s)
  }

  ghost predicate NoRepeats(list: seq<EntityTopicId>) {
    forall i, j :: 0 <= i < j < |list| ==> list[i] != list[j]
  }

  /** The task remembers each device it ever registered, once. */
  ghost predicate RemembersDevices(s: State) {
    && NoRepeats(s.registered)
    && forall e :: e in s.registered <==> DeviceRegistered(e, ServerEntity(s)) in s.trace
  }

  /** What is in force was resolved from the version marked seen. */
  predicate SeenIsInForce(env: Env, s: State) {
    && (HasSession(s.phase) && !s.phase.Borrowing? ==> s.seen < |env.types|)
    && (s.phase.Resolving? || IsInForce(s.phase) ==> s.current == env.types[s.seen])
  }

  /** How the last resolution went, and with which session and answers. */
  datatype Resolution = Succeeded(session: ResolveAll.Session, answers: seq<ResolveAll.Answer>) | Failed | Never

  function ResolutionAfter(last: Resolution, step: Step): Resolution {
    match step
    case ResolveSucceeds(session, answers) => Succeeded(session, answers)
    case ResolveFails => Failed
    case _ => last
  }

  /** What is in force is what the last resolution gave for this task and its device types; devices are
      registered and readers started only after a good one, and after a failed one there is nothing. */
  predicate ServesResolution(s: State, last: Resolution) {
    IsInForce(s.phase) ==>
      match last
      case Succeeded(session, answers) =>
        && session.server == s.server && session.known == s.known && |answers| == |s.current|
        && ResolveAll.Resolved(session, s.current, answers) == Some(s.mappings)
      case Failed => s.phase.Running? && s.mappings == []
      case Never => false
  }

  /** The waits since the last successful connect. */
  function WaitsSince(trace: seq<Effect>): nat {
    if trace == [] then 0
    else
      var n := |trace| - 1;
      if trace[n].Opened? then 0 else WaitsSince(trace[..n]) + if trace[n].Waited? then 1 else 0
  }

  predicate BacksOff(cfg: Settings, s: State) {
    s.backoff == Backoff.After(WaitsSince(s.trace), cfg.maxBackoff)
  }

  /** A failure the task has not waited after. */
  predicate Owes(trace: seq<Effect>) {
    trace != [] &&
    var n := |trace| - 1;
    match trace[n]
    case Refused => true
    case ReaderLost => true
    case Waited => false
    case _ => Owes(trace[..n])
  }

  /** Owing a wait, the task is on its way to it, or to its end. */
  predicate WaitsWhenOwing(env: Env, s: State) {
    Owes(s.trace) ==>
      || s.phase in {BackingOff, ShuttingDown(BackOff), Disconnecting(BackOff), Deregistering, Done}
      || (env.stop && s.phase in {ShuttingDown(Again), Disconnecting(Again), LoopHead})
  }

  predicate IsAttempt(e: Effect) {
    e.Opened? || e.Refused?
  }

  /** No attempt is made while a wait is owed. */
  predicate AttemptsArePaced(trace: seq<Effect>) {
    forall i :: 0 <= i < |trace| && IsAttempt(trace[i]) ==> !Owes(trace[..i])
  }

  /** Deregistration comes last. */
  predicate DeregistersLast(s: State) {
    forall i :: 0 <= i < |s.trace| && s.trace[i].Deregistered? ==> i == |s.trace| - 1 && s.phase.Done?
  }

  predicate IsForGood(phase: Phase) {
    phase.Deregistering? || phase == ShuttingDown(LeaveForGood) || phase == Disconnecting(LeaveForGood)
  }

  predicate IsLeaving(phase: Phase) {
    phase.Done? || phase == ShuttingDown(Leave) || phase == Disconnecting(Leave)
  }

  /** The task deregisters only when its server is gone. */
  predicate DeregistersWhenGone(env: Env, s: State) {
    IsForGood(s.phase) || Deregistered in s.trace ==> env.remove
  }

  /** The task ends without deregistering only when stopped, or left without device types: so a task that
      is removed, and nothing else, deregisters. */
  predicate LeavesWhenTold(env: Env, s: State) {
    IsLeaving(s.phase) && Deregistered !in s.trace ==> env.stop || env.typesClosed
  }

  ghost predicate Inv(cfg: Settings, env: Env, s: State) {
    && SessionIsHeld(s)
    && ServerIsRegistered(cfg, s) && CoveredAreRegistered(s) && ReadersServeDevices(s)
    && RemembersDevices(s)
    && SeenIsInForce(env, s)
    && BacksOff(cfg, s) && WaitsWhenOwing(env, s) && AttemptsArePaced(s.trace)
    && DeregistersLast(s) && DeregistersWhenGone(env, s) && LeavesWhenTold(env, s)
  }

  lemma ServerStays(cfg: Settings, env: Env, s: State, step: Step)
    requires Enabled(env, s, step)
    ensures After(cfg, env, s, step).server == s.server && After(cfg, env, s, step).known == s.known
  {
  }

  lemma SessionKept(cfg: Settings, env: Env, s: State, step: Step)
    requires Enabled(env, s, step) && SessionIsHeld(s)
    ensures SessionIsHeld(After(cfg, env, s, step))
  {
  }

  lemma ServerKept(cfg: Settings, env: Env, s: State, step: Step)
    requires Enabled(env, s, step) && ServerIsRegistered(cfg, s)
    ensures ServerIsRegistered(cfg, After(cfg, env, s, step))
  {
  }

  /** A generation starts with nothing covered. */
  lemma DevicesArrive(cfg: Settings, env: Env, s: State, step: Step)
    requires Enabled(env, s, step) && !HasDevices(s.phase)
    ensures
      var after := After(cfg, env, s, step);
      HasDevices(after.phase) ==> Covered(after) == 0
  {
  }

  lemma MappingsStay(cfg: Settings, env: Env, s: State, step: Step)
    requires Enabled(env, s, step) && HasDevices(s.phase)
    ensures After(cfg, env, s, step).mappings == s.mappings
  {
  }

  /** Within a generation only one step covers another device. */
  lemma DevicesStay(cfg: Settings, env: Env, s: State, step: Step)
    requires Enabled(env, s, step) && HasDevices(s.phase)
    ensures
      var after := After(cfg, env, s, step);
      HasDevices(after.phase) ==>
        Covered(after) == Covered(s) || (step.RegisterDevice? && Covered(after) == Covered(s) + 1 <= |s.mappings|)
  {
    MappingsStay(cfg, env, s, step);
  }

  /** With one more device covered at most, and that one registered, all covered devices are. */
  lemma CoveredGrows(s: State, after: State)
    requires CoveredAreRegistered(s) && HasDevices(s.phase) && after.server == s.server && after.mappings == s.mappings
    requires forall e :: e in SinceOpened(s.trace) ==> e in SinceOpened(after.trace)
    requires
      || Covered(after) == Covered(s)
      || (Covered(after) == Covered(s) + 1 <= |s.mappings|
          && DeviceRegistered(Devices(s)[Covered(s)], ServerEntity(s)) in SinceOpened(after.trace))
    ensures CoveredAreRegistered(after)
  {
    if HasDevices(after.phase) {
      assert Devices(after) == Devices(s);
      forall i | 0 <= i < Covered(after)
        ensures DeviceRegistered(Devices(after)[i], ServerEntity(after)) in SinceOpened(after.trace)
      {
        assert i < Covered(s) ==> DeviceRegistered(Devices(s)[i], ServerEntity(s)) in SinceOpened(s.trace);
      }
    }
  }

  lemma SinceOpenedGrows(trace: seq<Effect>, effects: seq<Effect>)
    requires |effects| <= 1
    ensures SinceOpened(trace + effects) ==
      if effects == [Opened] then [] else SinceOpened(trace) + effects
  {
    if effects == [] {
      assert trace + effects == trace;
    } else {
      assert (trace + effects)[..|trace|] == trace;
    }
  }

  /** A session is opened only while connecting, and a step does one thing at most. */
  lemma OneEffect(cfg: Settings, env: Env, s: State, step: Step)
    requires Enabled(env, s, step)
    ensures |EffectOf(cfg, s, step)| <= 1
    ensures EffectOf(cfg, s, step) == [Opened] ==> s.phase.Connecting?
    ensures step.RegisterDevice? ==>
      EffectOf(cfg, s, step) == [DeviceRegistered(Devices(s)[Covered(s)], ServerEntity(s))]
  {
  }

  lemma CoveredKept(cfg: Settings, env: Env, s: State, step: Step)
    requires Enabled(env, s, step) && CoveredAreRegistered(s)
    ensures CoveredAreRegistered(After(cfg, env, s, step))
  {
    var after := After(cfg, env, s, step);
    ServerStays(cfg, env, s, step);
    assert after.trace == s.trace + EffectOf(cfg, s, step);
    OneEffect(cfg, env, s, step);
    SinceOpenedGrows(s.trace, EffectOf(cfg, s, step));
    if !HasDevices(s.phase) {
      DevicesArrive(cfg, env, s, step);
    } else if HasDevices(after.phase) {
      MappingsStay(cfg, env, s, step);
      DevicesStay(cfg, env, s, step);
      CoveredGrows(s, after);
    }
  }

  lemma ReadersKept(cfg: Settings, env: Env, s: State, step: Step)
    requires Enabled(env, s, step) && SessionIsHeld(s) && ReadersServeDevices(s)
    ensures ReadersServeDevices(After(cfg, env, s, step))
  {
  }

  /** Only this step changes what is remembered. */
  lemma MemoryMoves(cfg: Settings, env: Env, s: State, step: Step)
    requires Enabled(env, s, step) && !step.RegisterDevice?
    ensures After(cfg, env, s, step).server == s.server && After(cfg, env, s, step).registered == s.registered
    ensures forall e :: e in EffectOf(cfg, s, step) ==> !e.DeviceRegistered?
  {
  }

  lemma MemoryKept(cfg: Settings, env: Env, s: State, step: Step)
    requires Enabled(env, s, step) && RemembersDevices(s)
    ensures RemembersDevices(After(cfg, env, s, step))
  {
    if !step.RegisterDevice? {
      MemoryMoves(cfg, env, s, step);
    }
  }

  predicate IsInForce(phase: Phase) {
    phase.RegisteringDevices? || phase.StartingReaders? || phase.Running?
  }

  /** Only borrowing, resolving and a change move what is seen or in force. */
  lemma SeenMoves(cfg: Settings, env: Env, s: State, step: Step)
    requires Enabled(env, s, step)
    requires !step.BorrowTypes? && !step.ResolveSucceeds? && !step.ResolveFails? && !step.TypesChange?
    ensures
      var after := After(cfg, env, s, step);
      && after.seen == s.seen && after.current == s.current && after.mappings == s.mappings
      && (IsInForce(after.phase) ==> IsInForce(s.phase)) && (after.phase.Resolving? <==> s.phase.Resolving?)
      && (HasSession(after.phase) && !after.phase.Borrowing? ==> HasSession(s.phase) && !s.phase.Borrowing?)
  {
  }

  lemma SeenKept(cfg: Settings, env: Env, s: State, step: Step)
    requires Enabled(env, s, step) && SeenIsInForce(env, s)
    ensures SeenIsInForce(env, After(cfg, env, s, step))
  {
    if !step.BorrowTypes? && !step.ResolveSucceeds? && !step.ResolveFails? && !step.TypesChange? {
      SeenMoves(cfg, env, s, step);
      ServerStays(cfg, env, s, step);
    }
  }

  /** Only resolving and what ends it moves a task into force, and nothing else moves what is in force. */
  lemma ResolutionMoves(cfg: Settings, env: Env, s: State, step: Step)
    requires Enabled(env, s, step) && !step.ResolveSucceeds? && !step.ResolveFails?
    ensures
      var after := After(cfg, env, s, step);
      IsInForce(after.phase) ==>
        && IsInForce(s.phase) && after.mappings == s.mappings && after.current == s.current
        && (after.phase.Running? || !s.phase.Running?)
  {
  }

  lemma ResolutionKept(cfg: Settings, env: Env, s: State, step: Step, last: Resolution)
    requires Enabled(env, s, step) && ServesResolution(s, last)
    ensures ServesResolution(After(cfg, env, s, step), ResolutionAfter(last, step))
  {
    ServerStays(cfg, env, s, step);
    if !step.ResolveSucceeds? && !step.ResolveFails? {
      ResolutionMoves(cfg, env, s, step);
    }
  }

  lemma WaitsAfter(trace: seq<Effect>, effects: seq<Effect>)
    requires |effects| <= 1
    ensures WaitsSince(trace + effects) ==
      if effects == [] then WaitsSince(trace)
      else if effects[0].Opened? then 0
      else if effects[0].Waited? then WaitsSince(trace) + 1
      else WaitsSince(trace)
  {
    if effects == [] {
      assert trace + effects == trace;
    } else {
      assert (trace + effects)[..|trace|] == trace;
    }
  }

  /** What a step does to the delay. */
  lemma BackoffMoves(cfg: Settings, env: Env, s: State, step: Step)
    requires Enabled(env, s, step)
    ensures
      var effects, backoff := EffectOf(cfg, s, step), After(cfg, env, s, step).backoff;
      |effects| <= 1 &&
      if effects == [Opened] then backoff == Backoff.FIRST
      else if effects == [Waited] then backoff == Backoff.Next(s.backoff, cfg.maxBackoff)
      else backoff == s.backoff
  {
  }

  lemma BackoffKept(cfg: Settings, env: Env, s: State, step: Step)
    requires Enabled(env, s, step) && BacksOff(cfg, s)
    ensures BacksOff(cfg, After(cfg, env, s, step))
  {
    BackoffMoves(cfg, env, s, step);
    WaitsAfter(s.trace, EffectOf(cfg, s, step));
    Backoff.OneMore(WaitsSince(s.trace), cfg.maxBackoff);
  }

  lemma OwesMore(trace: seq<Effect>, effects: seq<Effect>)
    requires |effects| <= 1
    ensures Owes(trace + effects) <==>
      if effects in {[Refused], [ReaderLost]} then true else if effects == [Waited] then false else Owes(trace)
  {
    if effects == [] {
      assert trace + effects == trace;
    } else {
      assert effects == [effects[0]];
      assert (trace + effects)[..|trace|] == trace;
    }
  }

  /** What a step does to a wait that is owed. */
  lemma OwingMoves(cfg: Settings, env: Env, s: State, step: Step)
    requires Enabled(env, s, step)
    ensures
      var effects, phase := EffectOf(cfg, s, step), After(cfg, env, s, step).phase;
      && (effects == [Refused] ==> s.phase.Connecting? && phase == BackingOff)
      && (effects == [Opened] ==> s.phase.Connecting?)
      && (effects == [ReaderLost] ==> phase == ShuttingDown(BackOff) || (env.stop && phase == ShuttingDown(Again)))
  {
  }

  /** A task that owes a wait stays on its way until it has waited. */
  lemma OwingGoesOn(cfg: Settings, env: Env, s: State, step: Step)
    requires Enabled(env, s, step) && WaitsWhenOwing(env, s) && Owes(s.trace) && EffectOf(cfg, s, step) != [Waited]
    ensures
      var phase := After(cfg, env, s, step).phase;
      || phase in {BackingOff, ShuttingDown(BackOff), Disconnecting(BackOff), Deregistering, Done}
      || (env.stop && phase in {ShuttingDown(Again), Disconnecting(Again), LoopHead})
  {
  }

  lemma OwingKept(cfg: Settings, env: Env, s: State, step: Step)
    requires Enabled(env, s, step) && WaitsWhenOwing(env, s)
    ensures WaitsWhenOwing(env, After(cfg, env, s, step))
  {
    OneEffect(cfg, env, s, step);
    OwesMore(s.trace, EffectOf(cfg, s, step));
    OwingMoves(cfg, env, s, step);
    if Owes(s.trace) && EffectOf(cfg, s, step) != [Waited] {
      OwingGoesOn(cfg, env, s, step);
    }
  }

  lemma PacedMore(trace: seq<Effect>, effects: seq<Effect>)
    requires |effects| <= 1 && AttemptsArePaced(trace)
    requires effects != [] && IsAttempt(effects[0]) ==> !Owes(trace)
    ensures AttemptsArePaced(trace + effects)
  {
    forall i | 0 <= i < |trace + effects| && IsAttempt((trace + effects)[i]) ensures !Owes((trace + effects)[..i]) {
      assert (trace + effects)[..i] == trace[..i];
    }
    assert trace[..|trace|] == trace;
  }

  lemma PacedKept(cfg: Settings, env: Env, s: State, step: Step)
    requires Enabled(env, s, step) && WaitsWhenOwing(env, s) && AttemptsArePaced(s.trace)
    ensures AttemptsArePaced(After(cfg, env, s, step).trace)
  {
    OneEffect(cfg, env, s, step);
    OwingMoves(cfg, env, s, step);
    PacedMore(s.trace, EffectOf(cfg, s, step));
  }

  /** Between a failed connect, or a lost reader, and the next attempt the task has waited. */
  lemma {:induction false} WaitsBetween(trace: seq<Effect>, i: nat, j: nat)
    requires AttemptsArePaced(trace) && i < j < |trace|
    requires (trace[i].Refused? || trace[i].ReaderLost?) && IsAttempt(trace[j])
    ensures exists k :: i < k < j && trace[k].Waited?
  {
    OwedUntilWaited(trace, i, j);
  }

  lemma {:induction false} OwedUntilWaited(trace: seq<Effect>, i: nat, j: nat)
    requires i < j <= |trace| && (trace[i].Refused? || trace[i].ReaderLost?)
    ensures Owes(trace[..j]) || exists k :: i < k < j && trace[k].Waited?
  {
    assert trace[..j][..j - 1] == trace[..j - 1];
    if i < j - 1 {
      OwedUntilWaited(trace, i, j - 1);
    }
  }

  lemma LastKept(cfg: Settings, env: Env, s: State, step: Step)
    requires Enabled(env, s, step) && SessionIsHeld(s) && DeregistersLast(s)
    ensures DeregistersLast(After(cfg, env, s, step))
  {
    assert !s.phase.Done?;
  }

  lemma GoneKept(cfg: Settings, env: Env, s: State, step: Step)
    requires Enabled(env, s, step) && DeregistersWhenGone(env, s)
    ensures DeregistersWhenGone(env, After(cfg, env, s, step))
  {
  }

  lemma LeavingKept(cfg: Settings, env: Env, s: State, step: Step)
    requires Enabled(env, s, step) && LeavesWhenTold(env, s)
    ensures LeavesWhenTold(env, After(cfg, env, s, step))
  {
  }

  lemma StepKeeps(cfg: Settings, env: Env, s: State, step: Step)
    requires Inv(cfg, env, s) && Enabled(env, s, step)
    ensures Inv(cfg, env, After(cfg, env, s, step))
  {
    SessionKept(cfg, env, s, step);
    ServerKept(cfg, env, s, step);
    CoveredKept(cfg, env, s, step);
    ReadersKept(cfg, env, s, step);
    MemoryKept(cfg, env, s, step);
    SeenKept(cfg, env, s, step);
    BackoffKept(cfg, env, s, step);
    OwingKept(cfg, env, s, step);
    PacedKept(cfg, env, s, step);
    LastKept(cfg, env, s, step);
    GoneKept(cfg, env, s, step);
    LeavingKept(cfg, env, s, step);
  }

  lemma OnlyLiveTasksStep(env: Env, s: State, step: Step)
    requires Enabled(env, s, step) && SessionIsHeld(s)
    ensures !s.phase.Done?
  {
  }

  /** A task that is over does nothing more, and a task never changes its server. */
  lemma StepOfLiveTask(cfg: Settings, env: Env, s: State, step: Step)
    requires Enabled(env, s, step) && SessionIsHeld(s)
    ensures !s.phase.Done?
    ensures After(cfg, env, s, step).server == s.server && After(cfg, env, s, step).known == s.known
  {
    OnlyLiveTasksStep(env, s, step);
    ServerStays(cfg, env, s, step);
  }

  /** Tokens stay cancelled, device types are only ever sent, and a closed channel stays closed. */
  predicate Later(env: Env, next: Env) {
    && (env.stop ==> next.stop) && (env.remove ==> next.remove) && (env.typesClosed ==> next.typesClosed)
    && env.types <= next.types
  }

  lemma WorldKeeps(cfg: Settings, env: Env, next: Env, s: State)
    requires Inv(cfg, env, s) && Later(env, next)
    ensures Inv(cfg, next, s)
  {
  }

  lemma InitialKeeps(cfg: Settings, env: Env, server: ServerConfig, known: seq<string>)
    ensures Inv(cfg, env, Initial(server, known))
  {
  }

  /** A server is registered before its devices, and a device before anything is published for it. */
  predicate Follows(cfg: Settings, before: seq<Effect>, e: Effect) {
    match e
    case ServerRegistered(_, parent) => parent == ParentEntity(cfg)
    case DeviceRegistered(_, server) => ServerRegistered(server, ParentEntity(cfg)) in before
    case Published(device, server) => DeviceRegistered(device, server) in before
    case _ => true
  }

  lemma EffectsFollow(cfg: Settings, env: Env, s: State, step: Step)
    requires Inv(cfg, env, s) && Enabled(env, s, step)
    ensures forall e :: e in EffectOf(cfg, s, step) ==> Follows(cfg, s.trace, e)
  {
    if step.PublishUnits? {
      assert s.phase.next - 1 < Covered(s);
    } else if step.ReaderPublishes? {
      ReaderDeviceIsRegistered(s, step.reader, step.device);
    }
  }

  lemma ReaderDeviceIsRegistered(s: State, reader: nat, device: EntityTopicId)
    requires SessionIsHeld(s) && CoveredAreRegistered(s) && ReadersServeDevices(s)
    requires reader < |s.readers| && device in s.readers[reader]
    ensures DeviceRegistered(device, ServerEntity(s)) in s.trace
  {
    assert s.readers[reader] in s.readers;
    var i :| 0 <= i < |Devices(s)| && Devices(s)[i] == device;
    assert i < Covered(s);
  }

  // ---- all runs of one task ----

  /** A run interleaves steps of one server task with turns of the world. */
  datatype Move = Takes(step: Step) | Turns(env: Env)

  datatype Run = Run(env: Env, task: State)

  predicate CanMove(run: Run, move: Move) {
    match move
    case Takes(step) => Enabled(run.env, run.task, step)
    case Turns(env) => Later(run.env, env)
  }

  function AfterMove(cfg: Settings, run: Run, move: Move): Run
    requires CanMove(run, move)
  {
    match move
    case Takes(step) => run.(task := After(cfg, run.env, run.task, step))
    case Turns(env) => run.(env := env)
  }

  /** The end of a run, if every move in it could be made. */
  function EndOf(cfg: Settings, start: Run, moves: seq<Move>): Option<Run> {
    if moves == [] then Some(start)
    else
      var n := |moves| - 1;
      match EndOf(cfg, start, moves[..n])
      case None => None
      case Some(run) => if CanMove(run, moves[n]) then Some(AfterMove(cfg, run, moves[n])) else None
  }

  /** How the last resolution of a run went. */
  function LastResolution(moves: seq<Move>): Resolution {
    if moves == [] then Never
    else
      var n := |moves| - 1;
      var last := LastResolution(moves[..n]);
      if moves[n].Takes? then ResolutionAfter(last, moves[n].step) else last
  }

  /** The last resolution was a good one of these device types, answered by an address space. */
  ghost predicate AnswersBy(space: ResolveAll.AddressSpace, last: Resolution, types: DeviceTypes) {
    && last.Succeeded? && |last.answers| == |types|
    && forall i :: 0 <= i < |types| ==> ResolveAll.AnswersFrom(space, last.session, types[i], last.answers[i])
  }

  /** Then what is in force is what looking up every entry of every device type on its own finds. */
  lemma ServesEntryByEntry(space: ResolveAll.AddressSpace, s: State, last: Resolution)
    requires ServesResolution(s, last) && IsInForce(s.phase) && AnswersBy(space, last, s.current)
    ensures s.mappings == ResolveAll.MappingsOf(space, last.session, s.current)
  {
    ResolveAll.ResolutionIsEntryByEntry(space, last.session, s.current, last.answers);
  }

  predicate EffectsInOrder(cfg: Settings, trace: seq<Effect>) {
    forall i :: 0 <= i < |trace| ==> Follows(cfg, trace[..i], trace[i])
  }

  lemma InOrderGrows(cfg: Settings, trace: seq<Effect>, effects: seq<Effect>)
    requires EffectsInOrder(cfg, trace) && |effects| <= 1
    requires forall e :: e in effects ==> Follows(cfg, trace, e)
    ensures EffectsInOrder(cfg, trace + effects)
  {
    forall i | 0 <= i < |trace + effects| ensures Follows(cfg, (trace + effects)[..i], (trace + effects)[i]) {
      if i < |trace| {
        assert (trace + effects)[..i] == trace[..i];
      } else {
        assert (trace + effects)[..i] == trace;
      }
    }
  }

  /** Whatever the world does and whenever: the session is open exactly between connect and disconnect
      and readers live inside it; what is in force is what the last resolution gave for the version marked
      seen, its devices registered in this session before any reader starts; the delay
      follows the waits since the last connect; devices are remembered once each; the task ends only
      when it was told to, and deregisters at most once, last, when removed; and everything it sends
      was registered first, parents before children. */
  lemma {:induction false} TaskOverAllRuns(cfg: Settings, env: Env, server: ServerConfig, known: seq<string>,
                                           moves: seq<Move>)
    ensures
      var end := EndOf(cfg, Run(env, Initial(server, known)), moves);
      end.Some? ==>
        && Inv(cfg, end.value.env, end.value.task) && EffectsInOrder(cfg, end.value.task.trace)
        && ServesResolution(end.value.task, LastResolution(moves))
  {
    var start := Run(env, Initial(server, known));
    if moves == [] {
      InitialKeeps(cfg, env, server, known);
    } else {
      var n := |moves| - 1;
      TaskOverAllRuns(cfg, env, server, known, moves[..n]);
      if EndOf(cfg, start, moves).Some? {
        var run := EndOf(cfg, start, moves[..n]).value;
        match moves[n]
        case Turns(next) =>
          WorldKeeps(cfg, run.env, next, run.task);
        case Takes(step) =>
          StepKeeps(cfg, run.env, run.task, step);
          ResolutionKept(cfg, run.env, run.task, step, LastResolution(moves[..n]));
          EffectsFollow(cfg, run.env, run.task, step);
          InOrderGrows(cfg, run.task.trace, EffectOf(cfg, run.task, step));
      }
    }
  }

  // ---- what a task publishes for ----

  /** The entity of a server: its topic id, or else its name, made fit for a topic. */
  predicate NamesServer(server: ServerConfig, entity: EntityTopicId) {
    entity == "device/" + CanonicalId(if server.topicId.Some? then server.topicId.value else server.name) + "//"
  }

  /** The entity of a device of it: the same, and the id of a device type behind it. */
  ghost predicate NamesDevice(server: ServerConfig, entity: EntityTopicId) {
    exists deviceTypeId, id ::
      NamesServer(server, "device/" + id + "//") && entity == "device/" + (id + "-" + CanonicalId(deviceTypeId)) + "//"
  }

  ghost predicate NamesItsOwn(cfg: Settings, server: ServerConfig, effect: Effect) {
    match effect
    case ServerRegistered(e, parent) =>
      NamesServer(server, e) && parent == if cfg.gateway.Some? then cfg.gateway.value else "device/main//"
    case DeviceRegistered(d, e) => NamesServer(server, e) && NamesDevice(server, d)
    case Published(_, e) => NamesServer(server, e)
    case _ => true
  }

  lemma EntitiesAreNamed(s: State)
    ensures NamesServer(s.server, ServerEntity(s))
    ensures forall i :: 0 <= i < |s.mappings| ==> NamesDevice(s.server, Devices(s)[i])
  {
    var id := TopicId(s.server);
    assert NamesServer(s.server, "device/" + id + "//");
    forall i | 0 <= i < |s.mappings| ensures NamesDevice(s.server, Devices(s)[i]) {
      assert Devices(s)[i] == "device/" + (id + "-" + CanonicalId(s.mappings[i].deviceTypeId)) + "//";
    }
  }

  lemma EffectNamesItsOwn(cfg: Settings, env: Env, s: State, step: Step, effect: Effect)
    requires Enabled(env, s, step) && effect in EffectOf(cfg, s, step)
    ensures NamesItsOwn(cfg, s.server, effect)
  {
    EntitiesAreNamed(s);
  }

  /** Over every run: what a task registers is its own server, under the gateway device or else the main one,
      and devices of it, and what it publishes is for a device of its own server. */
  lemma {:induction false} TaskNamesItsOwn(cfg: Settings, env: Env, server: ServerConfig, known: seq<string>,
                                           moves: seq<Move>)
    requires EndOf(cfg, Run(env, Initial(server, known)), moves).Some?
    ensures
      var task := EndOf(cfg, Run(env, Initial(server, known)), moves).value.task;
      task.server == server && forall e :: e in task.trace ==> NamesItsOwn(cfg, server, e)
  {
    if moves != [] {
      var n := |moves| - 1;
      TaskNamesItsOwn(cfg, env, server, known, moves[..n]);
      var run := EndOf(cfg, Run(env, Initial(server, known)), moves[..n]).value;
      if moves[n].Takes? {
        OneMoreNamesItsOwn(cfg, run.env, run.task, moves[n].step);
      }
    }
  }

  lemma OneMoreNamesItsOwn(cfg: Settings, env: Env, s: State, step: Step)
    requires Enabled(env, s, step) && forall e :: e in s.trace ==> NamesItsOwn(cfg, s.server, e)
    ensures
      var after := After(cfg, env, s, step);
      after.server == s.server && forall e :: e in after.trace ==> NamesItsOwn(cfg, s.server, e)
  {
    ServerStays(cfg, env, s, step);
    forall e | e in EffectOf(cfg, s, step) ensures NamesItsOwn(cfg, s.server, e) {
      EffectNamesItsOwn(cfg, env, s, step, e);
    }
  }
}
