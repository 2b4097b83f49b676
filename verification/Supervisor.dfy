/** The owner of the server tasks, round by round
    (crates/gateway/src/supervisor.rs). */
module Supervisor {
  import opened Text
  import opened Config

  /** A spawned server task, as its supervisor holds it. */
  class Task {
    const server: ServerConfig
    /** The desired ids at the time of the start; later changes do not reach the task. */
    const knownServerIds: seq<string>
    /** Told to end with its server still wanted. */
    var stop: bool
    /** Told to end because nothing wants its server. */
    var remove: bool
    /** Whether the task was awaited to its end. */
    var joined: bool

    constructor (server: ServerConfig, knownServerIds: seq<string>)
      ensures this.server == server && this.knownServerIds == knownServerIds
      ensures !stop && !remove && !joined
    {
      this.server, this.knownServerIds := server, knownServerIds;
      stop, remove, joined := false, false, false;
    }
  }

  function Ids(servers: seq<ServerConfig>): (ids: seq<string>)
    ensures |ids| == |servers|
    ensures forall i :: 0 <= i < |servers| ==> ids[i] == servers[i].id
  {
    seq(|servers|, i requires 0 <= i < |servers| => servers[i].id)
  }

  /** The first server of each id. */
  function FirstOfEach(desired: seq<ServerConfig>): map<string, ServerConfig> {
    map id | id in Ids(desired) :: First(desired, id).GetOr(desired[0])
  }

  /** Some desired entry of this server's id asks for other settings. */
  predicate Differs(desired: seq<ServerConfig>, server: ServerConfig) {
    exists s :: s in desired && s.id == server.id && s != server
  }

  predicate Wanted(desired: seq<ServerConfig>, id: string) {
    exists s :: s in desired && s.id == id
  }

  lemma WantedIds(desired: seq<ServerConfig>, id: string)
    ensures Wanted(desired, id) <==> id in Ids(desired)
    ensures Wanted(desired, id) <==> First(desired, id).Some?
  {
    if Wanted(desired, id) {
      var s :| s in desired && s.id == id;
      var i :| 0 <= i < |desired| && desired[i] == s;
      assert Ids(desired)[i] == id;
    }
  }

  /** What runs after each of the cloud values. */
  function SettledOver(configured: seq<ServerConfig>, cloud: seq<seq<ServerConfig>>): seq<map<string, ServerConfig>> {
    if cloud == [] then []
    else
      var n := |cloud| - 1;
      SettledOver(configured, cloud[..n]) + [FirstOfEach(Merged(cloud[n], configured))]
  }

  datatype Fate = Gone | Changed | Kept

  /** What becomes of a task once these servers are desired. */
  function FateOf(desired: seq<ServerConfig>, server: ServerConfig): Fate {
    if !Wanted(desired, server.id) then Gone
    else if Differs(desired, server) then Changed
    else Kept
  }

  lemma KeptIsFirst(desired: seq<ServerConfig>, server: ServerConfig)
    requires FateOf(desired, server).Kept?
    ensures First(desired, server.id) == Some(server)
  {
    WantedIds(desired, server.id);
  }

  function ServersOf(running: map<string, Task>): map<string, ServerConfig> {
    map id | id in running :: running[id].server
  }

  /** What the supervisor did to a task. */
  datatype Mark = Began(task: Task) | Ended(task: Task)

  /** No task began before every earlier task of its id was over. */
  ghost predicate InTurn(journal: seq<Mark>) {
    journal == [] ||
    var n := |journal| - 1;
    && InTurn(journal[..n])
    && (journal[n].Began? ==>
          forall m :: m in journal[..n] && m.task.server.id == journal[n].task.server.id ==>
            Ended(m.task) in journal[..n])
  }

  lemma OneMoreMark(journal: seq<Mark>, mark: Mark)
    requires InTurn(journal)
    requires mark.Began? ==>
      forall m :: m in journal && m.task.server.id == mark.task.server.id ==> Ended(m.task) in journal
    ensures InTurn(journal + [mark])
  {
    assert (journal + [mark])[..|journal|] == journal;
  }

  class Supervisor {
    var running: map<string, Task>
    /** Every task ever started. */
    ghost var started: set<Task>
    /** What was done to them, in order. */
    ghost var journal: seq<Mark>

    constructor ()
      ensures Valid() && running == map[] && started == {}
    {
      running, started, journal := map[], {}, [];
    }

    /** Tasks are kept under their own id, uncancelled, and every other task was joined: so an id has
        at most one task that is not. */
    ghost predicate Valid()
      reads this, started
    {
      && (forall id :: id in running ==>
            running[id] in started && running[id].server.id == id
            && !running[id].stop && !running[id].remove && !running[id].joined)
      && (forall t :: t in started ==> t.joined || (t.server.id in running && running[t.server.id] == t))
      && Recorded()
    }

    /** The journal tells of the started tasks only, tells the end of every joined one, and has no task
        begin before its predecessors ended. */
    ghost predicate Recorded()
      reads this, started
    {
      && InTurn(journal)
      && (forall m :: m in journal ==> m.task in started)
      && (forall t :: t in started && t.joined ==> Ended(t) in journal)
    }

    /** Wait for a task to end; it was told to. */
    method Join(task: Task)
      requires task.stop || task.remove
      requires InTurn(journal)
      modifies task`joined, `journal
      ensures task.joined && journal == old(journal) + [Ended(task)] && InTurn(journal)
    {
      task.joined := true;
      OneMoreMark(journal, Ended(task));
      journal := journal + [Ended(task)];
    }

    /** Take a task out of the map, tell it its server is gone, and wait for it. */
    method Remove(id: string)
      requires Valid() && id in running
      modifies `running, `journal, running[id]
      ensures Valid() && running == old(running) - {id}
      ensures old(journal) <= journal
      ensures old(running)[id].remove && !old(running)[id].stop && old(running)[id].joined
    {
      var task := running[id];
      running := running - {id};
      task.remove := true;
      Join(task);
    }

    /** Take a task out of the map, stop it, and wait for it. */
    method Stop(id: string)
      requires Valid() && id in running
      modifies `running, `journal, running[id]
      ensures Valid() && running == old(running) - {id}
      ensures old(journal) <= journal
      ensures old(running)[id].stop && !old(running)[id].remove && old(running)[id].joined
    {
      var task := running[id];
      running := running - {id};
      task.stop := true;
      Join(task);
    }

    method Start(server: ServerConfig, knownServerIds: seq<string>)
      requires Valid() && server.id !in running
      modifies this
      ensures Valid() && server.id in running && fresh(running[server.id])
      ensures journal == old(journal) + [Began(running[server.id])]
      ensures running == old(running)[server.id := running[server.id]]
      ensures started == old(started) + {running[server.id]}
      ensures running[server.id].server == server && running[server.id].knownServerIds == knownServerIds
    {
      var task := new Task(server, knownServerIds);
      OneMoreMark(journal, Began(task));
      journal := journal + [Began(task)];
      running, started := running[server.id := task], started + {task};
    }

    /** The task was told its server is gone, and nothing else, and is over. */
    ghost predicate WasRemoved(task: Task)
      reads task
    {
      task.remove && !task.stop && task.joined
    }

    ghost predicate WasStopped(task: Task)
      reads task
    {
      task.stop && !task.remove && task.joined
    }

    /** Remove what is no longer desired, in no particular order. */
    method RemoveGone(desired: seq<ServerConfig>)
      requires Valid()
      modifies `running, `journal, running.Values
      ensures Valid() && old(journal) <= journal
      ensures running == map id | id in old(running) && Wanted(desired, id) :: old(running)[id]
      ensures forall id :: id in old(running) && !Wanted(desired, id) ==> WasRemoved(old(running)[id])
    {
      var removed := set id | id in running && !Wanted(desired, id);
      ghost var done := {};
      while removed != {}
        invariant old(journal) <= journal
        invariant Valid() && removed !! done && removed + done == set id | id in old(running) && !Wanted(desired, id)
        invariant running == old(running) - done
        invariant forall id :: id in done ==> WasRemoved(old(running)[id])
      {
        var id :| id in removed;
        Remove(id);
        removed, done := removed - {id}, done + {id};
      }
    }

    /** Stop the listed tasks that are still there. */
    method StopListed(restarted: seq<string>)
      requires Valid()
      modifies `running, `journal, running.Values
      ensures Valid() && old(journal) <= journal
      ensures running == old(running) - Members(restarted)
      ensures forall id :: id in old(running) && id in restarted ==> WasStopped(old(running)[id])
    {
      for i := 0 to |restarted|
        invariant Valid() && old(journal) <= journal
        invariant running == old(running) - Members(restarted[..i])
        invariant forall id :: id in old(running) && id in Members(restarted[..i]) ==> WasStopped(old(running)[id])
      {
        MembersGrow(restarted, i);
        if restarted[i] in running {
          Stop(restarted[i]);
        }
      }
      assert restarted[..|restarted|] == restarted;
    }

    /** Start what is missing, in order; the first entry of an id is the one that runs. */
    method StartMissing(desired: seq<ServerConfig>, knownServerIds: seq<string>)
      requires Valid()
      modifies this
      ensures Valid() && old(journal) <= journal
      ensures forall id :: id in old(running) ==> id in running && running[id] == old(running)[id]
      ensures running.Keys == old(running).Keys + IdSet(desired)
      ensures forall id :: id in running && id !in old(running) ==>
        fresh(running[id]) && running[id].knownServerIds == knownServerIds
        && First(desired, id) == Some(running[id].server)
    {
      for i := 0 to |desired|
        invariant Valid() && old(journal) <= journal
        invariant forall id :: id in old(running) ==> id in running && running[id] == old(running)[id]
        invariant running.Keys == old(running).Keys + IdSet(desired[..i])
        invariant forall id :: id in running && id !in old(running) ==>
          fresh(running[id]) && running[id].knownServerIds == knownServerIds
          && First(desired, id) == Some(running[id].server)
      {
        var server := desired[i];
        IdSetGrows(desired, i);
        if server.id !in running {
          NewIsFirst(desired, i);
          Start(server, knownServerIds);
        }
      }
      assert desired[..|desired|] == desired;
    }

    /** Take out every task that is not to be kept, and wait for it. */
    method ClearOut(desired: seq<ServerConfig>)
      requires Valid()
      modifies `running, `journal, running.Values
      ensures Valid() && old(journal) <= journal
      ensures running == Keepers(desired, old(running))
      ensures forall id :: id in old(running) && id !in Keepers(desired, old(running)) ==>
        if Wanted(desired, id) then WasStopped(old(running)[id]) else WasRemoved(old(running)[id])
    {
      ghost var before := running;
      var restarted := RestartedIds(desired, ServersOf(running));
      ClearedIsKept(desired, before);
      RemoveGone(desired);
      StopListed(restarted);
    }

    /** Make the running tasks those of the desired servers: the first entry of every desired id runs.
        A task that every desired entry of its id agrees with is left alone; one whose id is gone is
        removed; any other is stopped. Either way the old task is over before a new one starts. */
    method Reconcile(desired: seq<ServerConfig>)
      requires Valid()
      modifies this, running.Values
      ensures Valid() && ServersOf(running) == FirstOfEach(desired)
      ensures InTurn(journal) && old(journal) <= journal
      ensures forall id :: id in old(running) ==>
        match FateOf(desired, old(running)[id].server)
        case Gone => WasRemoved(old(running)[id])
        case Changed => WasStopped(old(running)[id]) && id in running && fresh(running[id])
        case Kept => id in running && running[id] == old(running)[id]
      ensures forall id :: id in running && !(id in old(running) && running[id] == old(running)[id]) ==>
        fresh(running[id]) && running[id].knownServerIds == Ids(desired)
    {
      var knownServerIds := Ids(desired);
      ClearOut(desired);
      forall id | id in running ensures First(desired, id) == Some(running[id].server) {
        KeptIsFirst(desired, running[id].server);
      }
      StartMissing(desired, knownServerIds);
      FirstsRun(desired, ServersOf(running));
    }

    /** Two rounds over the same servers: the task of an id is left alone by the second round exactly when
        the servers give that id one setting. */
    method ReconcileTwice(desired: seq<ServerConfig>) returns (ghost settled: map<string, Task>)
      requires Valid()
      modifies this, running.Values
      ensures Valid() && ServersOf(running) == FirstOfEach(desired) == ServersOf(settled)
      ensures forall id :: id in settled ==>
        id in running &&
        if HasTwoSettings(desired, id) then WasStopped(settled[id]) && running[id] != settled[id]
        else running[id] == settled[id]
    {
      Reconcile(desired);
      settled := running;
      forall id | id in running
        ensures FateOf(desired, running[id].server) == if HasTwoSettings(desired, id) then Changed else Kept
      {
        SettledFate(desired, id);
        assert ServersOf(running)[id] == running[id].server;
      }
      Reconcile(desired);
    }

    /** The process is ending: its cancellation reaches every task through its stop token, and every
        task is awaited. */
    method Drain()
      requires Valid()
      modifies this, running.Values
      ensures Valid() && running == map[] && started == old(started)
      ensures forall t :: t in started ==> t.joined
    {
      while running != map[]
        invariant Valid() && running.Values <= old(running.Values) && started == old(started)
        decreases |running|
      {
        var id :| id in running;
        Stop(id);
      }
    }

    /** One round: the device's own servers over the cloud's. */
    method Turn(configured: seq<ServerConfig>, cloud: seq<ServerConfig>)
      returns (ghost servers: map<string, ServerConfig>)
      requires Valid()
      modifies this, running.Values
      ensures Valid() && fresh(running.Values - old(running.Values))
      ensures servers == ServersOf(running) == FirstOfEach(Merged(cloud, configured))
    {
      var desired := MergeServers(cloud, configured);
      Reconcile(desired);
      servers := ServersOf(running);
    }

    /** The supervisor over the cloud values it saw, until the process ends. */
    method Run(configured: seq<ServerConfig>, cloud: seq<seq<ServerConfig>>)
      returns (ghost settled: seq<map<string, ServerConfig>>)
      requires Valid() && running == map[]
      modifies this
      ensures settled == SettledOver(configured, cloud)
      ensures Valid() && forall t :: t in started ==> t.joined
    {
      settled := [];
      for i := 0 to |cloud|
        invariant Valid() && fresh(running.Values)
        invariant settled == SettledOver(configured, cloud[..i])
      {
        assert cloud[..i + 1][..i] == cloud[..i];
        ghost var servers := Turn(configured, cloud[i]);
        settled := settled + [servers];
      }
      assert cloud[..|cloud|] == cloud;
      Drain();
    }
  }

  /** The ids of the desired entries whose running task has other settings; an id may repeat. */
  function RestartedIds(desired: seq<ServerConfig>, running: map<string, ServerConfig>): seq<string> {
    if desired == [] then []
    else
      var s := desired[0];
      (if s.id in running && running[s.id] != s then [s.id] else []) + RestartedIds(desired[1..], running)
  }

  lemma {:induction false} RestartedAreThoseThatDiffer(desired: seq<ServerConfig>, running: map<string, ServerConfig>,
                                                       id: string)
    requires id in running && running[id].id == id
    ensures id in RestartedIds(desired, running) <==> Differs(desired, running[id])
  {
    if desired != [] {
      RestartedAreThoseThatDiffer(desired[1..], running, id);
      assert desired == [desired[0]] + desired[1..];
    }
  }

  /** The tasks every desired entry of their id agrees with. */
  function Keepers(desired: seq<ServerConfig>, running: map<string, Task>): map<string, Task> {
    map id | id in running && FateOf(desired, running[id].server).Kept? :: running[id]
  }

  function Members(list: seq<string>): set<string> {
    set id | id in list
  }

  lemma MembersGrow(list: seq<string>, i: nat)
    requires i < |list|
    ensures Members(list[..i + 1]) == Members(list[..i]) + {list[i]}
  {
    assert list[..i + 1] == list[..i] + [list[i]];
  }

  /** Taking out what is gone and then what is restarted leaves what is kept. */
  lemma ClearedIsKept(desired: seq<ServerConfig>, running: map<string, Task>)
    requires forall id :: id in running ==> running[id].server.id == id
    ensures
      var restarted := RestartedIds(desired, ServersOf(running));
      var wanted := map id | id in running && Wanted(desired, id) :: running[id];
      wanted - Members(restarted) == Keepers(desired, running)
  {
    forall id | id in running
      ensures id in RestartedIds(desired, ServersOf(running)) <==> Differs(desired, running[id].server)
    {
      RestartedAreThoseThatDiffer(desired, ServersOf(running), id);
    }
  }

  lemma {:induction false} FirstAt(desired: seq<ServerConfig>, i: nat)
    requires i < |desired| && forall j :: 0 <= j < i ==> desired[j].id != desired[i].id
    ensures First(desired, desired[i].id) == Some(desired[i])
  {
    if i > 0 {
      FirstAt(desired[1..], i - 1);
    }
  }

  function IdSet(servers: seq<ServerConfig>): set<string> {
    set s | s in servers :: s.id
  }

  lemma IdSetGrows(desired: seq<ServerConfig>, i: nat)
    requires i < |desired|
    ensures IdSet(desired[..i + 1]) == IdSet(desired[..i]) + {desired[i].id}
  {
    assert desired[..i + 1] == desired[..i] + [desired[i]];
  }

  /** An entry whose id none before it has is the first of its id. */
  lemma NewIsFirst(desired: seq<ServerConfig>, i: nat)
    requires i < |desired|
    ensures desired[i].id !in IdSet(desired[..i]) ==> First(desired, desired[i].id) == Some(desired[i])
  {
    if desired[i].id !in IdSet(desired[..i]) {
      forall j | 0 <= j < i ensures desired[j].id != desired[i].id {
        assert desired[j] in desired[..i];
      }
      FirstAt(desired, i);
    }
  }

  lemma FirstsRun(desired: seq<ServerConfig>, running: map<string, ServerConfig>)
    requires running.Keys == IdSet(desired)
    requires forall id :: id in running ==> First(desired, id) == Some(running[id])
    ensures running == FirstOfEach(desired)
  {
    forall id ensures id in running <==> id in FirstOfEach(desired) {
      WantedIds(desired, id);
    }
  }

  /** What settles is the device's own last word on an id, and the cloud's first word otherwise. */
  lemma DeviceConfigurationWins(cloud: seq<ServerConfig>, configured: seq<ServerConfig>, id: string)
    ensures
      var own, settled := Last(configured, id), FirstOfEach(Merged(cloud, configured));
      if own.Some? then id in settled && settled[id] == own.value
      else if First(cloud, id).Some? then id in settled && settled[id] == First(cloud, id).value
      else id !in settled
  {
    WinningListWins(cloud, configured, id);
    WantedIds(Merged(cloud, configured), id);
  }

  /** With no id twice in the cloud's list, what settled is kept when the same servers come again. */
  lemma SettledIsKept(cloud: seq<ServerConfig>, configured: seq<ServerConfig>, id: string)
    requires UniqueIds(cloud)
    ensures
      var desired := Merged(cloud, configured);
      id in FirstOfEach(desired) ==> FateOf(desired, FirstOfEach(desired)[id]).Kept?
  {
    var desired := Merged(cloud, configured);
    MergedKeepsUnique(cloud, configured);
    WantedIds(desired, id);
  }

  /** Two entries of this id ask for different settings. */
  predicate HasTwoSettings(desired: seq<ServerConfig>, id: string) {
    exists s, other :: s in desired && other in desired && s.id == id && other.id == id && s != other
  }

  /** What settled for an id is kept by the next round exactly when the id has one setting. */
  lemma SettledFate(desired: seq<ServerConfig>, id: string)
    requires id in FirstOfEach(desired)
    ensures FateOf(desired, FirstOfEach(desired)[id]) == if HasTwoSettings(desired, id) then Changed else Kept
  {
    WantedIds(desired, id);
    var first := FirstOfEach(desired)[id];
    if HasTwoSettings(desired, id) {
      var s, other :| s in desired && other in desired && s.id == id && other.id == id && s != other;
      assert s != first || other != first;
    }
  }
}
