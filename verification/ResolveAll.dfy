/** From the device types in force to the mappings a session gives them (crates/gateway/src/server_task.rs). */
module ResolveAll {
  import opened Text
  import opened Model
  import opened Namespace
  import opened Resolve
  import Config
  import Constraints
  import Topic

  /** What the session answers to the translate request of one device type; nothing when it fails. */
  type Answer = Option<seq<BrowsePathResult>>

  datatype Outcome = Skipped | Lost | Mapped(mapping: ResolvedMapping)

  /** What a session is resolved with: its server, the server ids known when its task started, and its
      namespaces. */
  datatype Session = Session(server: Config.ServerConfig, known: seq<string>, table: NamespaceTable, codec: Codec)

  predicate Applies(session: Session, dt: DeviceType) {
    Constraints.Applies(dt, session.server.id, session.known, session.table, session.codec)
  }

  predicate Selected(session: Session, loaded: LoadedDeviceType) {
    && Config.AcceptsDeviceType(session.server, loaded.id)
    && Applies(session, loaded.deviceType)
    && RootOf(session.table, session.codec, loaded.deviceType).Ok?
  }

  /** Where the entries of a device type are looked for: below the root it names, or else below `i=84`. */
  lemma RootIsAuthored(table: NamespaceTable, codec: Codec, dt: DeviceType)
    ensures dt.rootNodeId.None? ==> RootOf(table, codec, dt) == Ok(NodeId(0, Numeric(84)))
    ensures dt.rootNodeId.Some? ==> RootOf(table, codec, dt) == NodeIdOf(table, codec, dt.rootNodeId.value)
  {
  }

  /** A device type is taken when the server's list allows it, it is enabled, its constraints allow the server
      and the root, and its root can be read. */
  lemma SelectedExactlyWhen(session: Session, loaded: LoadedDeviceType)
    ensures Selected(session, loaded) <==>
      var server, dt := session.server, loaded.deviceType;
      && (server.deviceTypes == []
          || exists i :: 0 <= i < |server.deviceTypes| && Trim(server.deviceTypes[i]) == loaded.id)
      && dt.enabled
      && (dt.constraints.None? ||
          (Constraints.AllowsServer(dt.constraints.value, server.id, session.known)
           && Constraints.AllowsRoot(dt.constraints.value, dt.rootNodeId, session.table, session.codec)))
      && (dt.rootNodeId.None? || NodeIdOf(session.table, session.codec, dt.rootNodeId.value).Ok?)
  {
    Config.AllowListScopes(session.server, loaded.id);
    Constraints.AppliesExactlyWhen(loaded.deviceType, session.server.id, session.known, session.table, session.codec);
    RootIsAuthored(session.table, session.codec, loaded.deviceType);
  }

  /** One device type on its own. */
  function OutcomeOf(session: Session, loaded: LoadedDeviceType, answer: Answer): Outcome {
    if !Selected(session, loaded) then Skipped
    else
      var entries := EntriesOf(session.table, session.codec, loaded.deviceType);
      var pending := Pending(entries);
      if pending != [] && answer.None? then Lost
      else
        var nodes := Grouped(ResolvedAlone(entries, Translated(|pending|, answer.GetOr([]))));
        if nodes == [] then Skipped
        else
          var root := RootOf(session.table, session.codec, loaded.deviceType).value;
          Mapped(ResolvedMapping(loaded.id, loaded.deviceType.name, root, nodes))
  }

  /** All device types, in order; one lost request loses them all. */
  function Resolved(session: Session, types: seq<LoadedDeviceType>, answers: seq<Answer>): Option<seq<ResolvedMapping>>
    requires |answers| == |types|
  {
    if types == [] then Some([])
    else
      var n := |types| - 1;
      match Resolved(session, types[..n], answers[..n])
      case None => None
      case Some(mappings) =>
        match OutcomeOf(session, types[n], answers[n])
        case Skipped => Some(mappings)
        case Lost => None
        case Mapped(mapping) => Some(mappings + [mapping])
  }

  method ResolveOneType(session: Session, loaded: LoadedDeviceType, answer: Answer) returns (outcome: Outcome)
    ensures outcome == OutcomeOf(session, loaded, answer)
  {
    if !Config.AcceptsDeviceType(session.server, loaded.id) {
      return Skipped;
    }
    if !Applies(session, loaded.deviceType) {
      return Skipped;
    }
    var planned := PlanDeviceType(loaded.id, loaded.deviceType, session.table, session.codec);
    if planned.Err? {
      return Skipped;
    }
    var plan := planned.value;
    var results := [];
    if plan.PendingPaths() != [] {
      if answer.None? {
        return Lost;
      }
      results := answer.value;
    } else {
      assert Translated(0, answer.GetOr([])) == Translated(0, []);
    }
    var mapping := ResolvePlan(plan, results);
    if mapping.nodes == [] {
      return Skipped;
    }
    return Mapped(mapping);
  }

  /** One more outcome behind the mappings so far. */
  lemma ResolvedMore(session: Session, types: seq<LoadedDeviceType>, answers: seq<Answer>, i: nat,
                     out: seq<ResolvedMapping>, outcome: Outcome)
    requires |answers| == |types| && i < |types| && outcome == OutcomeOf(session, types[i], answers[i])
    requires Resolved(session, types[..i], answers[..i]) == Some(out)
    ensures Resolved(session, types[..i + 1], answers[..i + 1]) ==
      match outcome
      case Skipped => Some(out)
      case Lost => None
      case Mapped(mapping) => Some(out + [mapping])
  {
    assert types[..i + 1][..i] == types[..i] && answers[..i + 1][..i] == answers[..i];
  }

  method ResolveAllTypes(session: Session, types: seq<LoadedDeviceType>, answers: seq<Answer>)
    returns (r: Option<seq<ResolvedMapping>>)
    requires |answers| == |types|
    ensures r == Resolved(session, types, answers)
  {
    var out: seq<ResolvedMapping> := [];
    var i := 0;
    while i < |types|
      invariant i <= |types|
      invariant Resolved(session, types[..i], answers[..i]) == Some(out)
    {
      var outcome := ResolveOneType(session, types[i], answers[i]);
      ResolvedMore(session, types, answers, i, out, outcome);
      if outcome.Lost? {
        LostStaysLost(session, types, answers, i + 1);
        return None;
      }
      if outcome.Mapped? {
        out := out + [outcome.mapping];
      }
      i := i + 1;
    }
    assert types[..|types|] == types && answers[..|types|] == answers;
    return Some(out);
  }

  lemma {:induction false} LostStaysLost(session: Session, types: seq<LoadedDeviceType>, answers: seq<Answer>, i: nat)
    requires |answers| == |types| && i <= |types|
    requires Resolved(session, types[..i], answers[..i]).None?
    ensures Resolved(session, types, answers).None?
    decreases |types| - i
  {
    if i == |types| {
      assert types[..i] == types && answers[..i] == answers;
    } else {
      LostOnce(session, types, answers, i);
      LostStaysLost(session, types, answers, i + 1);
    }
  }

  lemma LostOnce(session: Session, types: seq<LoadedDeviceType>, answers: seq<Answer>, i: nat)
    requires |answers| == |types| && i < |types|
    requires Resolved(session, types[..i], answers[..i]).None?
    ensures Resolved(session, types[..i + 1], answers[..i + 1]).None?
  {
    assert types[..i + 1][..i] == types[..i] && answers[..i + 1][..i] == answers[..i];
  }

  // ---- the simple specification ----

  /** A server that answers each path below a root by the path alone. */
  type AddressSpace = (NodeId, BrowsePath) -> Option<NodeId>

  /** Result `i` binds the node the space has for path `i`, and none where it has none. */
  ghost predicate ResultsFrom(space: AddressSpace, root: NodeId, pending: seq<(nat, BrowsePath)>,
                              results: seq<BrowsePathResult>) {
    forall i, id :: 0 <= i < |pending| ==>
      (space(root, pending[i].1) == Some(id) <==> i < |results| && Binds(results[i], id))
  }

  /** The answers are those of an address space; a device type that asks nothing gets any answer. */
  ghost predicate AnswersFrom(space: AddressSpace, session: Session, loaded: LoadedDeviceType, answer: Answer) {
    Selected(session, loaded) ==>
      var root := RootOf(session.table, session.codec, loaded.deviceType).value;
      var pending := Pending(EntriesOf(session.table, session.codec, loaded.deviceType));
      pending == [] || (answer.Some? && ResultsFrom(space, root, pending, answer.value))
  }

  lemma ResultsAnswerByPath(space: AddressSpace, root: NodeId, entries: seq<Entry>, results: seq<BrowsePathResult>)
    requires ResultsFrom(space, root, Pending(entries), results)
    ensures AnswersByPath((p: BrowsePath) => space(root, p), entries, Translated(|Pending(entries)|, results))
  {
    var pending := Pending(entries);
    var answers := Translated(|pending|, results);
    forall i | 0 <= i < |pending| ensures answers[i] == space(root, pending[i].1) {
      if answers[i].Some? {
        TranslatedBinds(|pending|, results, i, answers[i].value);
      }
      if space(root, pending[i].1).Some? {
        TranslatedBinds(|pending|, results, i, space(root, pending[i].1).value);
      }
    }
  }

  /** A device type with every entry looked up on its own. */
  function MappingOf(space: AddressSpace, session: Session, loaded: LoadedDeviceType): Option<ResolvedMapping> {
    if !Selected(session, loaded) then None
    else
      var root := RootOf(session.table, session.codec, loaded.deviceType).value;
      var entries := EntriesOf(session.table, session.codec, loaded.deviceType);
      var nodes := Grouped(ResolveEach((p: BrowsePath) => space(root, p), entries));
      if nodes == [] then None else Some(ResolvedMapping(loaded.id, loaded.deviceType.name, root, nodes))
  }

  function MappingsOf(space: AddressSpace, session: Session, types: seq<LoadedDeviceType>): seq<ResolvedMapping> {
    if types == [] then []
    else
      var n := |types| - 1;
      var mapping := MappingOf(space, session, types[n]);
      if mapping.Some? then MappingsOf(space, session, types[..n]) + [mapping.value]
      else MappingsOf(space, session, types[..n])
  }

  lemma OneTypeIsEntryByEntry(space: AddressSpace, session: Session, loaded: LoadedDeviceType, answer: Answer)
    requires AnswersFrom(space, session, loaded, answer)
    ensures
      var mapping := MappingOf(space, session, loaded);
      OutcomeOf(session, loaded, answer) == if mapping.Some? then Mapped(mapping.value) else Skipped
  {
    if Selected(session, loaded) {
      var root := RootOf(session.table, session.codec, loaded.deviceType).value;
      var entries := EntriesOf(session.table, session.codec, loaded.deviceType);
      var answers := Translated(|Pending(entries)|, answer.GetOr([]));
      if Pending(entries) != [] {
        ResultsAnswerByPath(space, root, entries, answer.value);
      }
      BatchIsEntryByEntry((p: BrowsePath) => space(root, p), entries, answers);
    }
  }

  lemma OneTypeMore(space: AddressSpace, session: Session, types: seq<LoadedDeviceType>, answers: seq<Answer>)
    requires |answers| == |types| && types != []
    requires
      var n := |types| - 1;
      var mapping := MappingOf(space, session, types[n]);
      && Resolved(session, types[..n], answers[..n]) == Some(MappingsOf(space, session, types[..n]))
      && OutcomeOf(session, types[n], answers[n]) == if mapping.Some? then Mapped(mapping.value) else Skipped
    ensures Resolved(session, types, answers) == Some(MappingsOf(space, session, types))
  {
  }

  /** Plan, one batch request, write back and group, for every device type the server takes: the same
      mappings as looking up each entry of each device type on its own. */
  lemma {:induction false} ResolutionIsEntryByEntry(space: AddressSpace, session: Session, types: seq<LoadedDeviceType>,
                                                    answers: seq<Answer>)
    requires |answers| == |types|
    requires forall i :: 0 <= i < |types| ==> AnswersFrom(space, session, types[i], answers[i])
    ensures Resolved(session, types, answers) == Some(MappingsOf(space, session, types))
  {
    if types != [] {
      var n := |types| - 1;
      ResolutionIsEntryByEntry(space, session, types[..n], answers[..n]);
      OneTypeIsEntryByEntry(space, session, types[n], answers[n]);
      OneTypeMore(space, session, types, answers);
    }
  }

  // ---- the devices ----

  /** The child device a resolved device type publishes as. */
  function DeviceOf(server: Config.ServerConfig, mapping: ResolvedMapping): Topic.EntityTopicId {
    Topic.ChildDevice(Topic.DeviceId(Config.TopicId(server), mapping.deviceTypeId))
  }

  /** Two device types of any servers publish as one device exactly when the words of server and device
      type are the same in a row; a device type publishes as a server exactly when that server has them. */
  lemma DevicesShareAnEntity(a: Config.ServerConfig, x: ResolvedMapping, b: Config.ServerConfig, y: ResolvedMapping)
    ensures
      var s, t := Topic.Words(a.topicId.GetOr(a.name)), Topic.Words(b.topicId.GetOr(b.name));
      var d, e := Topic.Words(x.deviceTypeId), Topic.Words(y.deviceTypeId);
      && (DeviceOf(a, x) == DeviceOf(b, y) <==> s + d == t + e)
      && (DeviceOf(a, x) == Topic.ChildDevice(Config.TopicId(b)) <==> s + d == t)
  {
    var n, m := a.topicId.GetOr(a.name), b.topicId.GetOr(b.name);
    var device := Topic.DeviceId(Config.TopicId(a), x.deviceTypeId);
    Topic.DeviceIdCollisions(n, x.deviceTypeId, m, y.deviceTypeId);
    Topic.ServerIdCollisions(n, x.deviceTypeId, m);
    Topic.SameEntities(device, Topic.DeviceId(Config.TopicId(b), y.deviceTypeId));
    Topic.SameEntities(device, Config.TopicId(b));
  }
}
