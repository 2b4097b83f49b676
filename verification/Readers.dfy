/** What a task hands to its readers: the items of its subscription and the groups of its cyclic reads
    (crates/gateway/src/server_task.rs). */
module Readers {
  import opened Text
  import opened Resolve
  import Config
  import L = SubscriptionLoop
  import Namespace
  import ReadLoop
  import ResolveAll
  import T = ServerTask
  import Topic

  /** How a node id is written. Foreign code, so it is a parameter. */
  type Writer = Namespace.NodeId -> string

  // ---- the subscription ----

  function TargetOf(write: Writer, entity: Topic.EntityTopicId, node: ResolvedNode): L.SubscribedTarget {
    L.SubscribedTarget(entity, write(node.nodeId), node.actions)
  }

  function TargetsAt(write: Writer, entity: Topic.EntityTopicId, nodes: seq<ResolvedNode>): seq<L.SubscribedTarget> {
    seq(|nodes|, i requires 0 <= i < |nodes| => TargetOf(write, entity, nodes[i]))
  }

  /** One item per device and subscribed node, in order. */
  function TargetsOf(write: Writer, server: Config.ServerConfig, mappings: seq<ResolvedMapping>)
    : seq<L.SubscribedTarget>
  {
    if mappings == [] then []
    else
      var n := |mappings| - 1;
      TargetsOf(write, server, mappings[..n])
      + TargetsAt(write, ResolveAll.DeviceOf(server, mappings[n]), WithSchedule(mappings[n].nodes, None))
  }

  lemma OneTargetMore(write: Writer, entity: Topic.EntityTopicId, nodes: seq<ResolvedNode>, j: nat)
    requires j < |nodes|
    ensures TargetsAt(write, entity, nodes[..j + 1])
         == TargetsAt(write, entity, nodes[..j]) + [TargetOf(write, entity, nodes[j])]
  {
  }

  lemma OneDeviceMore(write: Writer, server: Config.ServerConfig, mappings: seq<ResolvedMapping>, i: nat)
    requires i < |mappings|
    ensures TargetsOf(write, server, mappings[..i + 1]) == TargetsOf(write, server, mappings[..i])
      + TargetsAt(write, ResolveAll.DeviceOf(server, mappings[i]), WithSchedule(mappings[i].nodes, None))
  {
    assert mappings[..i + 1][..i] == mappings[..i];
  }

  method Targets(write: Writer, server: Config.ServerConfig, mappings: seq<ResolvedMapping>)
    returns (targets: seq<L.SubscribedTarget>)
    ensures targets == TargetsOf(write, server, mappings)
  {
    targets := [];
    for i := 0 to |mappings|
      invariant targets == TargetsOf(write, server, mappings[..i])
    {
      OneDeviceMore(write, server, mappings, i);
      targets := AddTargets(write, ResolveAll.DeviceOf(server, mappings[i]), WithSchedule(mappings[i].nodes, None),
                            targets);
    }
    assert mappings[..|mappings|] == mappings;
  }

  method AddTargets(write: Writer, entity: Topic.EntityTopicId, nodes: seq<ResolvedNode>,
                    before: seq<L.SubscribedTarget>)
    returns (targets: seq<L.SubscribedTarget>)
    ensures targets == before + TargetsAt(write, entity, nodes)
  {
    targets := before;
    for j := 0 to |nodes|
      invariant targets == before + TargetsAt(write, entity, nodes[..j])
    {
      OneTargetMore(write, entity, nodes, j);
      targets := targets + [TargetOf(write, entity, nodes[j])];
    }
    assert nodes[..|nodes|] == nodes;
  }

  /** The target is that of a subscribed node of this device. */
  ghost predicate IsTargetOf(write: Writer, entity: Topic.EntityTopicId, nodes: seq<ResolvedNode>,
                             target: L.SubscribedTarget) {
    exists node :: node in WithSchedule(nodes, None) && target == TargetOf(write, entity, node)
  }

  ghost predicate IsTarget(write: Writer, server: Config.ServerConfig, mappings: seq<ResolvedMapping>,
                           target: L.SubscribedTarget) {
    exists m :: m in mappings && IsTargetOf(write, ResolveAll.DeviceOf(server, m), m.nodes, target)
  }

  lemma TargetsAtAre(write: Writer, entity: Topic.EntityTopicId, nodes: seq<ResolvedNode>, target: L.SubscribedTarget)
    ensures target in TargetsAt(write, entity, WithSchedule(nodes, None)) <==> IsTargetOf(write, entity, nodes, target)
  {
    var subscribed := WithSchedule(nodes, None);
    var targets := TargetsAt(write, entity, subscribed);
    if target in targets {
      var j :| 0 <= j < |targets| && targets[j] == target;
      assert subscribed[j] in subscribed && target == TargetOf(write, entity, subscribed[j]);
    }
    if IsTargetOf(write, entity, nodes, target) {
      var node :| node in subscribed && target == TargetOf(write, entity, node);
      var j :| 0 <= j < |subscribed| && subscribed[j] == node;
      assert targets[j] == target;
    }
  }

  /** The items are those of the subscribed nodes of the applied devices. */
  lemma {:induction false} TargetsAre(write: Writer, server: Config.ServerConfig, mappings: seq<ResolvedMapping>,
                                      target: L.SubscribedTarget)
    ensures target in TargetsOf(write, server, mappings) <==> IsTarget(write, server, mappings, target)
  {
    if mappings != [] {
      var n := |mappings| - 1;
      TargetsAre(write, server, mappings[..n], target);
      TargetsAtAre(write, ResolveAll.DeviceOf(server, mappings[n]), mappings[n].nodes, target);
      TargetsGrow(write, server, mappings, target);
    }
  }

  lemma TargetsGrow(write: Writer, server: Config.ServerConfig, mappings: seq<ResolvedMapping>,
                    target: L.SubscribedTarget)
    requires mappings != []
    ensures
      var n := |mappings| - 1;
      IsTarget(write, server, mappings, target) <==>
        || IsTarget(write, server, mappings[..n], target)
        || IsTargetOf(write, ResolveAll.DeviceOf(server, mappings[n]), mappings[n].nodes, target)
  {
    assert mappings == mappings[..|mappings| - 1] + [mappings[|mappings| - 1]];
  }

  lemma {:induction false} RoutesLeadToTargets(targets: seq<L.SubscribedTarget>, handles: seq<Option<nat>>, handle: nat)
    requires |targets| == |handles| && handle in L.RoutesOf(targets, handles)
    ensures L.RoutesOf(targets, handles)[handle] in targets
  {
    var n := |targets| - 1;
    if handles[n] != Some(handle) {
      RoutesLeadToTargets(targets[..n], handles[..n], handle);
    }
  }

  // ---- the read loops ----

  datatype Loop = Loop(entity: Topic.EntityTopicId, schedule: ReadSchedule, nodes: seq<ReadLoop.ReadNode>)

  function ReadNodes(write: Writer, nodes: seq<ResolvedNode>): seq<ReadLoop.ReadNode> {
    seq(|nodes|, i requires 0 <= i < |nodes| => ReadLoop.ReadNode(write(nodes[i].nodeId), nodes[i].actions))
  }

  function LoopOf(write: Writer, entity: Topic.EntityTopicId, nodes: seq<ResolvedNode>, schedule: ReadSchedule): Loop {
    Loop(entity, schedule, ReadNodes(write, WithSchedule(nodes, Some(schedule))))
  }

  predicate ReadsFor(write: Writer, entity: Topic.EntityTopicId, nodes: seq<ResolvedNode>, loop: Loop) {
    WithSchedule(nodes, Some(loop.schedule)) != [] && loop == LoopOf(write, entity, nodes, loop.schedule)
  }

  /** One loop for each schedule of a device's nodes. */
  method LoopsOfDevice(write: Writer, entity: Topic.EntityTopicId, nodes: seq<ResolvedNode>) returns (loops: seq<Loop>)
    ensures forall loop :: loop in loops <==> ReadsFor(write, entity, nodes, loop)
    ensures forall i, j :: 0 <= i < j < |loops| ==> loops[i].schedule != loops[j].schedule
  {
    var groups := ReadGroups(nodes);
    loops := [];
    var todo := groups.Keys;
    while todo != {}
      invariant todo <= groups.Keys
      invariant forall loop :: loop in loops <==>
        loop.schedule in groups && loop.schedule !in todo && loop == LoopOf(write, entity, nodes, loop.schedule)
      invariant forall i, j :: 0 <= i < j < |loops| ==> loops[i].schedule != loops[j].schedule
    {
      var schedule :| schedule in todo;
      assert forall i :: 0 <= i < |loops| ==> loops[i] in loops;
      loops, todo := loops + [Loop(entity, schedule, ReadNodes(write, groups[schedule]))], todo - {schedule};
    }
  }

  ghost predicate IsLoop(write: Writer, server: Config.ServerConfig, mappings: seq<ResolvedMapping>, loop: Loop) {
    exists m :: m in mappings && ReadsFor(write, ResolveAll.DeviceOf(server, m), m.nodes, loop)
  }

  method Loops(write: Writer, server: Config.ServerConfig, mappings: seq<ResolvedMapping>) returns (loops: seq<Loop>)
    ensures forall loop :: loop in loops <==> IsLoop(write, server, mappings, loop)
  {
    loops := [];
    for i := 0 to |mappings|
      invariant forall loop :: loop in loops <==> IsLoop(write, server, mappings[..i], loop)
    {
      var more := LoopsOfDevice(write, ResolveAll.DeviceOf(server, mappings[i]), mappings[i].nodes);
      forall loop ensures loop in loops + more <==> IsLoop(write, server, mappings[..i + 1], loop) {
        LoopsGrow(write, server, mappings, i, loop);
      }
      loops := loops + more;
    }
    assert mappings[..|mappings|] == mappings;
  }

  lemma LoopsGrow(write: Writer, server: Config.ServerConfig, mappings: seq<ResolvedMapping>, i: nat, loop: Loop)
    requires i < |mappings|
    ensures IsLoop(write, server, mappings[..i + 1], loop) <==>
      || IsLoop(write, server, mappings[..i], loop)
      || ReadsFor(write, ResolveAll.DeviceOf(server, mappings[i]), mappings[i].nodes, loop)
  {
    assert mappings[..i + 1] == mappings[..i] + [mappings[i]];
  }

  // ---- what they serve ----

  lemma DeviceIsApplied(server: Config.ServerConfig, mappings: seq<ResolvedMapping>, m: ResolvedMapping)
    requires m in mappings
    ensures ResolveAll.DeviceOf(server, m) in T.DevicesOf(server, mappings)
  {
    var i :| 0 <= i < |mappings| && mappings[i] == m;
    assert T.DevicesOf(server, mappings)[i] == ResolveAll.DeviceOf(server, mappings[i]);
  }

  /** Whatever the server accepts, the subscription publishes for applied devices only: its reader may
      start. */
  lemma SubscriptionServesDevices(write: Writer, env: T.Env, s: T.State, created: seq<L.CreatedItem>,
                                  entities: seq<Topic.EntityTopicId>)
    requires s.phase.StartingReaders?
    requires
      var targets := TargetsOf(write, s.server, s.mappings);
      forall e :: e in entities ==> e in L.Entities(L.RoutesOf(targets, L.HandlesOf(|targets|, created)))
    ensures T.Enabled(env, s, T.StartReader(entities))
  {
    var targets := TargetsOf(write, s.server, s.mappings);
    var handles := L.HandlesOf(|targets|, created);
    var routes := L.RoutesOf(targets, handles);
    forall e | e in entities ensures e in T.Devices(s) {
      var h :| h in routes && routes[h].entity == e;
      RoutesLeadToTargets(targets, handles, h);
      TargetsAre(write, s.server, s.mappings, routes[h]);
      var m :| m in s.mappings && IsTargetOf(write, ResolveAll.DeviceOf(s.server, m), m.nodes, routes[h]);
      DeviceIsApplied(s.server, s.mappings, m);
    }
  }

  /** Every read loop publishes for one applied device: its reader may start. */
  lemma LoopServesADevice(write: Writer, env: T.Env, s: T.State, loop: Loop)
    requires s.phase.StartingReaders? && IsLoop(write, s.server, s.mappings, loop)
    ensures T.Enabled(env, s, T.StartReader([loop.entity]))
  {
    var m :| m in s.mappings && ReadsFor(write, ResolveAll.DeviceOf(s.server, m), m.nodes, loop);
    DeviceIsApplied(s.server, s.mappings, m);
  }

  /** No node of an applied device is forgotten: it is an item of the subscription, or one of the nodes its
      schedule's loop reads. */
  lemma EveryNodeIsServed(write: Writer, server: Config.ServerConfig, mappings: seq<ResolvedMapping>,
                          m: ResolvedMapping, node: ResolvedNode)
    requires m in mappings && node in m.nodes
    ensures
      var entity, schedule := ResolveAll.DeviceOf(server, m), ScheduleOf(node.delivery);
      if schedule.None?
      then L.SubscribedTarget(entity, write(node.nodeId), node.actions) in TargetsOf(write, server, mappings)
      else
        var loop := LoopOf(write, entity, m.nodes, schedule.value);
        && IsLoop(write, server, mappings, loop)
        && loop.entity == entity && loop.schedule == schedule.value
        && ReadLoop.ReadNode(write(node.nodeId), node.actions) in loop.nodes
  {
    var entity, schedule := ResolveAll.DeviceOf(server, m), ScheduleOf(node.delivery);
    var served := WithSchedule(m.nodes, schedule);
    WithScheduleMembers(m.nodes, schedule, node);
    assert node in multiset(m.nodes) && node in multiset(served);
    assert node in served;
    if schedule.None? {
      assert IsTargetOf(write, entity, m.nodes, TargetOf(write, entity, node));
      TargetsAre(write, server, mappings, TargetOf(write, entity, node));
    } else {
      var j :| 0 <= j < |served| && served[j] == node;
      assert ReadNodes(write, served)[j] == ReadLoop.ReadNode(write(node.nodeId), node.actions);
      assert ReadsFor(write, entity, m.nodes, LoopOf(write, entity, m.nodes, schedule.value));
    }
  }
}
