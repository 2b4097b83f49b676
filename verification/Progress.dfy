/** Progress of a server task: no wait of it is for ever, if only the world answers
    (crates/gateway/src/server_task.rs). */
module Progress {
  import opened Text
  import opened Topic
  import opened ServerTask
  import Config
  import Resolve
  import ResolveAll
  import G = Gateway

  /** Where a task gets to by these steps of its own, while the world stands still. */
  function EndsAt(cfg: Settings, env: Env, s: State, steps: seq<Step>): Option<State> {
    if steps == [] then Some(s)
    else
      var n := |steps| - 1;
      match EndsAt(cfg, env, s, steps[..n])
      case None => None
      case Some(at) => if Enabled(env, at, steps[n]) then Some(After(cfg, env, at, steps[n])) else None
  }

  lemma OneStepMore(cfg: Settings, env: Env, s: State, steps: seq<Step>, at: State, step: Step, next: State)
    requires EndsAt(cfg, env, s, steps) == Some(at) && Enabled(env, at, step) && After(cfg, env, at, step) == next
    ensures EndsAt(cfg, env, s, steps + [step]) == Some(next)
  {
    assert (steps + [step])[..|steps|] == steps;
  }

  // ---- the end of a generation ----

  /** Readers stopped and the session closed. */
  lemma ClosesSession(cfg: Settings, env: Env, s: State, steps: seq<Step>, at: State)
    returns (more: seq<Step>, closed: State)
    requires EndsAt(cfg, env, s, steps) == Some(at) && at.phase.ShuttingDown?
    ensures EndsAt(cfg, env, s, more) == Some(closed)
    ensures closed == at.(phase := AfterTeardown(at.phase.goal), session := false, readers := [],
                          trace := at.trace + [Closed])
  {
    var quiet := at.(phase := Disconnecting(at.phase.goal), readers := []);
    assert After(cfg, env, at, ReadersShutDown) == quiet;
    OneStepMore(cfg, env, s, steps, at, ReadersShutDown, quiet);
    closed := After(cfg, env, quiet, Disconnects);
    OneStepMore(cfg, env, s, steps + [ReadersShutDown], quiet, Disconnects, closed);
    more := steps + [ReadersShutDown] + [Disconnects];
  }

  lemma ConnectsAgain(cfg: Settings, env: Env, s: State, steps: seq<Step>, at: State)
    returns (more: seq<Step>, up: State)
    requires EndsAt(cfg, env, s, steps) == Some(at)
    requires at.phase.LoopHead? && !env.stop && !env.remove && env.types != []
    ensures EndsAt(cfg, env, s, more) == Some(up)
    ensures up.phase.Resolving? && up.seen == |env.types| - 1 && up.current == env.types[|env.types| - 1]
    ensures up.readers == at.readers && up.trace == at.trace + [Opened]
  {
    var s1 := After(cfg, env, at, CheckTokens);
    OneStepMore(cfg, env, s, steps, at, CheckTokens, s1);
    var s2 := After(cfg, env, s1, ConnectSucceeds);
    OneStepMore(cfg, env, s, steps + [CheckTokens], s1, ConnectSucceeds, s2);
    up := After(cfg, env, s2, BorrowTypes);
    OneStepMore(cfg, env, s, steps + [CheckTokens] + [ConnectSucceeds], s2, BorrowTypes, up);
    more := steps + [CheckTokens] + [ConnectSucceeds] + [BorrowTypes];
  }

  /** New device types are taken up: a running task that has not seen the last version can always go on to
      resolve exactly that one, tearing the session down and opening another on the way. */
  lemma ChangeIsTakenUp(cfg: Settings, env: Env, s: State) returns (steps: seq<Step>, task: State)
    requires s.phase.Running? && s.seen < |env.types| - 1 && !env.stop && !env.remove
    ensures EndsAt(cfg, env, s, steps) == Some(task)
    ensures task.phase.Resolving? && task.seen == |env.types| - 1 && task.current == env.types[|env.types| - 1]
    ensures task.readers == [] && task.trace == s.trace + [Closed] + [Opened]
  {
    var down := After(cfg, env, s, TypesChange);
    OneStepMore(cfg, env, s, [], s, TypesChange, down);
    var closed;
    steps, closed := ClosesSession(cfg, env, s, [] + [TypesChange], down);
    steps, task := ConnectsAgain(cfg, env, s, steps, closed);
  }

  /** Left without device types, a running task can always end, and its session with it. */
  lemma OrphanEnds(cfg: Settings, env: Env, s: State) returns (steps: seq<Step>, task: State)
    requires s.phase.Running? && s.seen == Latest(env) && env.typesClosed
    ensures EndsAt(cfg, env, s, steps) == Some(task)
    ensures task.phase.Done? && task.readers == [] && task.trace == s.trace + [Closed]
  {
    var down := After(cfg, env, s, TypesClose);
    OneStepMore(cfg, env, s, [], s, TypesClose, down);
    steps, task := ClosesSession(cfg, env, s, [] + [TypesClose], down);
  }

  // ---- trying again ----

  lemma TriesAgain(cfg: Settings, env: Env, s: State, steps: seq<Step>, at: State)
    returns (more: seq<Step>, task: State)
    requires EndsAt(cfg, env, s, steps) == Some(at) && at.phase.BackingOff? && !env.stop && !env.remove
    ensures EndsAt(cfg, env, s, more) == Some(task)
    ensures task == at.(phase := Connecting, trace := at.trace + [Waited],
                        backoff := if 2 * at.backoff <= cfg.maxBackoff then 2 * at.backoff else cfg.maxBackoff)
  {
    var head := After(cfg, env, at, SleepEnds);
    OneStepMore(cfg, env, s, steps, at, SleepEnds, head);
    task := After(cfg, env, head, CheckTokens);
    OneStepMore(cfg, env, s, steps + [SleepEnds], head, CheckTokens, task);
    more := steps + [SleepEnds] + [CheckTokens];
  }

  /** A failed connect can always be tried again, after one wait, and waits twice as long the next time, up to
      the maximum; nothing else changes. */
  lemma FailureIsRetried(cfg: Settings, env: Env, s: State) returns (steps: seq<Step>, task: State)
    requires s.phase.Connecting? && !env.stop && !env.remove
    ensures EndsAt(cfg, env, s, steps) == Some(task)
    ensures task == s.(trace := s.trace + [Refused] + [Waited],
                       backoff := if 2 * s.backoff <= cfg.maxBackoff then 2 * s.backoff else cfg.maxBackoff)
  {
    var failed := After(cfg, env, s, ConnectFails);
    OneStepMore(cfg, env, s, [], s, ConnectFails, failed);
    steps, task := TriesAgain(cfg, env, s, [] + [ConnectFails], failed);
  }

  /** When a reader gives up the session can always be closed and another one attempted, after one wait. */
  lemma LostReaderIsReplaced(cfg: Settings, env: Env, s: State, reader: nat) returns (steps: seq<Step>, task: State)
    requires s.phase.Running? && reader < |s.readers| && !env.stop && !env.remove
    ensures EndsAt(cfg, env, s, steps) == Some(task)
    ensures task.phase.Connecting? && task.readers == [] && !task.session
    ensures task.trace == s.trace + [ReaderLost] + [Closed] + [Waited]
  {
    var exited := s.(readers := s.readers[..reader] + s.readers[reader + 1..], readerExited := true);
    assert After(cfg, env, s, ReaderExits(reader)) == exited;
    OneStepMore(cfg, env, s, [], s, ReaderExits(reader), exited);
    var down := After(cfg, env, exited, ReaderGone);
    OneStepMore(cfg, env, s, [] + [ReaderExits(reader)], exited, ReaderGone, down);
    var closed;
    steps, closed := ClosesSession(cfg, env, s, [] + [ReaderExits(reader)] + [ReaderGone], down);
    steps, task := TriesAgain(cfg, env, s, steps, closed);
  }

  // ---- from a resolution to data ----

  /** The device of one of these mappings. */
  predicate IsDeviceOf(server: Config.ServerConfig, mappings: seq<Resolve.ResolvedMapping>, device: EntityTopicId) {
    exists i :: 0 <= i < |mappings| && device == ResolveAll.DeviceOf(server, mappings[i])
  }

  lemma RegistersDevices(cfg: Settings, env: Env, s: State, steps: seq<Step>, at: State)
    returns (more: seq<Step>, done: State)
    requires EndsAt(cfg, env, s, steps) == Some(at)
    requires at.phase.RegisteringDevices? && at.phase.next <= |at.mappings|
    ensures EndsAt(cfg, env, s, more) == Some(done)
    ensures done == at.(phase := StartingReaders, registered := done.registered, trace := done.trace)
    decreases |at.mappings| - at.phase.next
  {
    var step := if at.phase.next < |at.mappings| then RegisterDevice else DevicesRegistered;
    var next := After(cfg, env, at, step);
    OneStepMore(cfg, env, s, steps, at, step, next);
    if at.phase.next < |at.mappings| {
      more, done := RegistersDevices(cfg, env, s, steps + [step], next);
    } else {
      more, done := steps + [step], next;
    }
  }

  predicate AreReaders(s: State, readers: seq<seq<EntityTopicId>>) {
    forall r, d :: r in readers && d in r ==> d in Devices(s)
  }

  /** The first `k` of these readers have been started, and nothing else happened. */
  predicate HasStarted(at: State, readers: seq<seq<EntityTopicId>>, k: nat, s: State)
    requires k <= |readers|
  {
    s == at.(readers := readers[..k])
  }

  lemma {:induction false} StartsReaders(cfg: Settings, env: Env, s: State, steps: seq<Step>, at: State,
                                         readers: seq<seq<EntityTopicId>>, k: nat)
    returns (more: seq<Step>, done: State)
    requires EndsAt(cfg, env, s, steps) == Some(at) && at.phase.StartingReaders? && at.readers == []
    requires k <= |readers| && AreReaders(at, readers)
    ensures EndsAt(cfg, env, s, more) == Some(done) && HasStarted(at, readers, k, done)
  {
    if k == 0 {
      more, done := steps, at;
    } else {
      var before;
      more, before := StartsReaders(cfg, env, s, steps, at, readers, k - 1);
      more, done := StartsNext(cfg, env, s, more, at, readers, k, before);
    }
  }

  lemma StartsNext(cfg: Settings, env: Env, s: State, steps: seq<Step>, at: State, readers: seq<seq<EntityTopicId>>,
                   k: nat, before: State)
    returns (more: seq<Step>, done: State)
    requires 0 < k <= |readers| && AreReaders(at, readers) && at.phase.StartingReaders?
    requires HasStarted(at, readers, k - 1, before) && EndsAt(cfg, env, s, steps) == Some(before)
    ensures EndsAt(cfg, env, s, more) == Some(done) && HasStarted(at, readers, k, done)
  {
    IsOneOf(at, readers, k - 1, before);
    done := StartsOne(cfg, env, s, steps, before, readers[k - 1]);
    more := steps + [StartReader(readers[k - 1])];
    assert readers[..k] == readers[..k - 1] + [readers[k - 1]];
  }

  lemma IsOneOf(s: State, readers: seq<seq<EntityTopicId>>, k: nat, t: State)
    requires AreReaders(s, readers) && k < |readers| && t == s.(readers := t.readers)
    ensures forall d :: d in readers[k] ==> d in Devices(t)
  {
  }

  lemma StartsOne(cfg: Settings, env: Env, s: State, steps: seq<Step>, at: State, reader: seq<EntityTopicId>)
    returns (next: State)
    requires EndsAt(cfg, env, s, steps) == Some(at) && at.phase.StartingReaders?
    requires forall d :: d in reader ==> d in Devices(at)
    ensures EndsAt(cfg, env, s, steps + [StartReader(reader)]) == Some(next)
    ensures next == at.(readers := at.readers + [reader])
  {
    next := at.(readers := at.readers + [reader]);
    ReaderStarts(cfg, env, at, reader);
    OneStepMore(cfg, env, s, steps, at, StartReader(reader), next);
  }

  lemma ReaderStarts(cfg: Settings, env: Env, s: State, reader: seq<EntityTopicId>)
    requires s.phase.StartingReaders? && forall d :: d in reader ==> d in Devices(s)
    ensures Enabled(env, s, StartReader(reader))
    ensures After(cfg, env, s, StartReader(reader)) == s.(readers := s.readers + [reader])
  {
  }

  lemma ResolutionIsTaken(cfg: Settings, env: Env, s: State, table: ResolveAll.Session,
                          answers: seq<ResolveAll.Answer>) returns (at: State)
    requires s.phase.Resolving? && table.server == s.server && table.known == s.known
    requires |answers| == |s.current| && ResolveAll.Resolved(table, s.current, answers).Some?
    ensures EndsAt(cfg, env, s, [] + [ResolveSucceeds(table, answers)]) == Some(at)
    ensures at == s.(phase := RegisteringDevices(0), mappings := ResolveAll.Resolved(table, s.current, answers).value)
  {
    at := After(cfg, env, s, ResolveSucceeds(table, answers));
    OneStepMore(cfg, env, s, [], s, ResolveSucceeds(table, answers), at);
  }

  lemma ReadersAreOf(s: State, mappings: seq<Resolve.ResolvedMapping>, readers: seq<seq<EntityTopicId>>)
    requires s.mappings == mappings && forall r, d :: r in readers && d in r ==> IsDeviceOf(s.server, mappings, d)
    ensures AreReaders(s, readers)
  {
    forall r, d | r in readers && d in r ensures d in Devices(s) {
      var i :| 0 <= i < |mappings| && d == ResolveAll.DeviceOf(s.server, mappings[i]);
      assert Devices(s)[i] == d;
    }
  }

  lemma Runs(cfg: Settings, env: Env, s: State, steps: seq<Step>, at: State) returns (task: State)
    requires EndsAt(cfg, env, s, steps) == Some(at) && at.phase.StartingReaders?
    ensures EndsAt(cfg, env, s, steps + [ReadersStarted]) == Some(task) && task == at.(phase := Running)
  {
    task := After(cfg, env, at, ReadersStarted);
    OneStepMore(cfg, env, s, steps, at, ReadersStarted, task);
  }

  /** Whatever a session answers, if no request of it is lost, can be served: the task can go on to run with
      exactly the mappings of these answers, and with any readers for their devices. */
  lemma ResolutionIsServed(cfg: Settings, env: Env, s: State, table: ResolveAll.Session,
                           answers: seq<ResolveAll.Answer>, readers: seq<seq<EntityTopicId>>)
    returns (steps: seq<Step>, task: State)
    requires s.phase.Resolving? && SessionIsHeld(s) && table.server == s.server && table.known == s.known
    requires |answers| == |s.current| && ResolveAll.Resolved(table, s.current, answers).Some?
    requires
      var mappings := ResolveAll.Resolved(table, s.current, answers).value;
      forall r, d :: r in readers && d in r ==> IsDeviceOf(s.server, mappings, d)
    ensures EndsAt(cfg, env, s, steps) == Some(task)
    ensures task.phase.Running? && task.session && task.server == s.server && task.seen == s.seen
    ensures task.mappings == ResolveAll.Resolved(table, s.current, answers).value && task.readers == readers
  {
    var at := ResolutionIsTaken(cfg, env, s, table, answers);
    var ready;
    steps, ready := RegistersDevices(cfg, env, s, [] + [ResolveSucceeds(table, answers)], at);
    ReadersAreOf(ready, at.mappings, readers);
    var started;
    steps, started := StartsReaders(cfg, env, s, steps, ready, readers, |readers|);
    task := Runs(cfg, env, s, steps, started);
    steps := steps + [ReadersStarted];
  }

  /** And any reader can publish for any of its devices at any time. */
  lemma ReaderCanPublish(cfg: Settings, env: Env, s: State, reader: nat, device: EntityTopicId)
    requires reader < |s.readers| && device in s.readers[reader]
    ensures EndsAt(cfg, env, s, [ReaderPublishes(reader, device)]) ==
      Some(s.(trace := s.trace + [Published(device, ServerEntity(s))]))
  {
    var next := s.(trace := s.trace + [Published(device, ServerEntity(s))]);
    assert After(cfg, env, s, ReaderPublishes(reader, device)) == next;
    OneStepMore(cfg, env, s, [], s, ReaderPublishes(reader, device), next);
    assert [] + [ReaderPublishes(reader, device)] == [ReaderPublishes(reader, device)];
  }

  // ---- in the system ----

  /** Whatever a task can do on its own, it can do from wherever the system has come to. */
  lemma {:induction false} TasksMoveFreely(cfg: G.Setup, run: seq<G.Step>, w: G.World, t: nat, steps: seq<Step>,
                                           task: State)
    returns (more: seq<G.Step>, after: G.World)
    requires G.EndOf(cfg, run) == Some(w) && G.Shape(w) && t < |w.tasks|
    requires EndsAt(cfg.settings, G.EnvOf(w, t), w.tasks[t], steps) == Some(task)
    ensures run <= more && G.EndOf(cfg, more) == Some(after) && G.Shape(after)
    ensures after == w.(tasks := w.tasks[t := task], log := after.log)
  {
    if steps == [] {
      more, after := run, w;
    } else {
      var n := |steps| - 1;
      var before := EndsAt(cfg.settings, G.EnvOf(w, t), w.tasks[t], steps[..n]).value;
      more, after := TasksMoveFreely(cfg, run, w, t, steps[..n], before);
      more, after := MovesOnce(cfg, more, after, t, steps[n]);
    }
  }

  lemma MovesOnce(cfg: G.Setup, run: seq<G.Step>, w: G.World, t: nat, step: Step)
    returns (more: seq<G.Step>, after: G.World)
    requires G.EndOf(cfg, run) == Some(w) && G.Shape(w) && t < |w.tasks| && Enabled(G.EnvOf(w, t), w.tasks[t], step)
    ensures run <= more && G.EndOf(cfg, more) == Some(after) && G.Shape(after)
    ensures
      after == w.(tasks := w.tasks[t := After(cfg.settings, G.EnvOf(w, t), w.tasks[t], step)], log := after.log)
  {
    after := G.AfterActs(cfg, w, t, step);
    assert G.After(cfg, w, G.Acts(t, step)) == after;
    more := run + [G.Acts(t, step)];
    assert more[..|run|] == run;
    G.ActsServers(cfg, w, t, step);
  }
}
