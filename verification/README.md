# A verified model of the OPC UA gateway

The gateway connects OPC UA servers to thin-edge. Servers come from configuration on the device and
from Cumulocity while the process runs; device types come from inventory and from pushed files. For
each server one task connects, resolves the device types against the server's address space, reads
and subscribes, and publishes measurements, events and alarms over MQTT.

The project models the five parts of that with state of their own, and proves what each promises:

| part | modules |
|---|---|
| one task per server, over the whole life of the process | `Config`, `Supervisor`, `ServerTask`, `Gateway`, `Rounds`, `Progress`, `Liveness`, `Process`, `Backoff` |
| from a device type to resolved nodes | `Model`, `Constraints`, `Resolve`, `ResolveAll`, `Deliveries` |
| names, ids and quoting | `Text`, `Namespace`, `Topic`, `SmartRest` |
| from values to messages | `Payload`, `Publish`, `Authored`, `PublishRuns`, `Readers`, `SubscriptionLoop`, `ReadLoop`, `Totals` |
| change detection | `Ordered`, `Source`, `DeviceTypes`, `Fingerprint`, `CloudServers`, `CloudPolls`, `Watch` |

Objects that the gateway updates in place are classes (`Supervisor.Supervisor`, `Resolve.Plan`,
`Publish.Publisher`, `Payload.MeasurementBuilder`, `DeviceTypes.Provider`, `CloudServers.Provider`),
and its loops are methods with invariants. Each is proved against a function on values (`Current()`
against `After...`, a result against `...Of`), and the properties over whole runs are lemmas about
those functions. The concurrent protocol is a transition system: `ServerTask` has one step per await
of a server task, and `Gateway` interleaves any number of tasks with the supervisor, the channels,
and the end of the process, in every order. A cancellation token is a flag that stays set, a watch
channel keeps every value it ever held, and a `select!` is a choice between enabled steps. A publish is
an attempted publish: errors on the wire are only logged.

Where the code and its own comments disagree, the code is followed: the comments of `supervisor.rs`
say that removing a server clears its registrations, while `deregister` in `server_task.rs` only logs.

## Main results

- `Gateway.OneTaskPerServer`, `Gateway.NothingOutlivesTheSupervisor`, `Gateway.WaitingIsUpToDate`,
  `Gateway.TokensFireForAReason` and `Gateway.RegistrationPrecedesData` hold on every run of the
  composed system, because `Gateway.EveryRunHolds` carries the invariant along it.
- `Rounds.RoundEndsAsReconcile`: a reconcile round of that system, whatever happens between its steps,
  ends as the method `Supervisor.Supervisor.Reconcile` ends.
- `Process.CloudReachesTheServers`, `Process.ObjectsReachTheServers` and
  `Process.TypesReachTheTasksEntryByEntry`: with the providers composed with that system, what was read
  last is what runs, from the managed objects on, and what was merged last is what is in force, entry by
  entry.
- `Liveness.WhatIsWantedCanRun`, `Liveness.EveryRunCanEnd`, `Progress.ChangeIsTakenUp` and
  `Progress.ResolutionIsServed`: no run is stuck. From wherever it has come to, what is wanted last can be
  made to run, the process can end with every task over, new device types can be resolved, and whatever a
  session answers can be served.
- `ServerTask.TaskOverAllRuns`: sessions, readers, device types in force, back-off and the way out of
  one task, whatever the world does.
- `ResolveAll.ResolutionIsEntryByEntry`: the pipeline of plan, one batch request, write back and group
  gives what looking up every entry on its own gives.
- `Deliveries.ServedAsAuthored` and `Deliveries.NodesAreAuthored`: in a finished mapping every entry is read
  or subscribed just as it was authored, and nothing else is.
- `PublishRuns.MeasurementsAreWindows`, `PublishRuns.AlarmsAreDestuttered` and
  `PublishRuns.EventsAreDestuttered`: what one publisher sends over any run; and
  `Authored.MeasurementAsAuthored`, `Authored.EventAsAuthored` and `Authored.AlarmAsAuthored`: what it sends
  for a value, in the terms in which the action was authored.
- `SubscriptionLoop.EveryDeviceRunsAlone` and `SubscriptionLoop.LeavingSendsEverySample`: the loop over
  many devices is one such run per device, and loses nothing when it leaves by itself.
- `Namespace.PrintedSegmentReadsBack`, `Namespace.PrefixedNodeIdReadsBack`,
  `Topic.SanitizedIsCanonical`, `SmartRest.FailureRecordReadsBack`: round trips and canonical forms
  over all strings, with the exact condition where one does not always hold.
- `Source.DiffIsExact`, `DeviceTypes.CurrentIffNeverMasked`, `CloudServers.CurrentIffNeverMasked`: a
  change is missed exactly when it leaves the markers, or the fingerprint, as they were; and
  `Fingerprint.OwnRevisionIff` says exactly which lists have a fingerprint of their own.

Some promises do not hold on all inputs. Each has its exact condition and a lemma with an input that
fails:

- Device ids are not injective: `Topic.DeviceIdCollisions` and `Topic.ServerIdCollisions` say which
  servers and device types share one, for all names: those whose words, in a row, are the same.
  `Topic.CaseCollides` and `Topic.DeviceIdsCollide` show such device types, `Config.SoundServersCollide`
  two such servers the configuration accepts; and `Topic.MainDeviceCollisions` says which server is
  taken for the main device.
- Two spellings of one browse path need not plan alike: `Resolve.RespellingAnEntry` says when they do,
  and `Resolve.RegexIsASpelling` gives two device types that do not.
- Different cloud servers can share a fingerprint: `Fingerprint.OwnRecordIffUnambiguous` and
  `Fingerprint.OwnRevisionIff` say which servers and lists share theirs with no other, and
  `CloudServers.SeparatorsMaskAChange` gives two managed objects and two polls after which the channel
  is stale.
- A device type without a time of its last update is never sent again: `DeviceTypes.UntimedEditIsMissed`,
  and `DeviceTypes.CurrentIffNeverMasked` says when the channel is current.
- A SmartREST template name is not quoted: `SmartRest.FailureRecordReadsBack` says which names survive,
  `SmartRest.QuotedNameIsMisread` and `SmartRest.LineBreakEndsTheRecord` show two that do not.
- A fragment called `time` is overwritten: the last clause of `Payload.WindowMessage`, and
  `Payload.TimeFragmentIsLost`.
- A child that Cumulocity lists twice, read between two edits, is restarted on every round:
  `Supervisor.Supervisor.ReconcileTwice` says exactly when, and `CloudServers.ChildReadTwice` builds such
  a list. The device's own configuration cannot do this, because `Config.ValidateServers` rejects a
  repeated id; without one nothing is restarted needlessly (`Supervisor.SettledIsKept`).

## Model

| member | source | states |
|---|---|---|
| `Gateway.EveryRunHolds` | crates/gateway/src/supervisor.rs:37-79 | Every world the system can reach, by any interleaving, keeps all invariants of the supervisor, of each task and of the log |
| `Gateway.StepKeeps` | crates/gateway/src/supervisor.rs:88-168 | Every step of the world, of the supervisor and of any task keeps them |
| `Gateway.OneTaskPerServer` | crates/gateway/src/supervisor.rs:116-167 | At any time a server id has at most one live task, one open session and one set of readers, across restarts, removals and reconnects |
| `Gateway.NothingOutlivesTheSupervisor` | crates/gateway/src/supervisor.rs:76-78 | When the supervisor has ended, every task ever started is over, its session closed and its readers gone |
| `Gateway.WaitingIsUpToDate` | crates/gateway/src/supervisor.rs:46-74 | Waiting with no unseen value, or for the end once the cloud is gone, means that exactly the servers of the last cloud value under the device's own run, with no token fired and, until the process or the device types end, no task over: no update is lost |
| `Gateway.UnseenIsMerged` | crates/gateway/src/supervisor.rs:46-74 | A supervisor that waits with an unseen list can always go on to reconcile with exactly the last one |
| `Liveness.RoundCanEnd` | crates/gateway/src/supervisor.rs:88-168 | A reconcile round can always go on to its end with nothing from outside, whatever the tasks it waits for are at |
| `Liveness.WhatIsWantedCanRun` | crates/gateway/src/supervisor.rs:46-74 | From wherever a run has come to, until the supervisor leaves its loop, it can go on to where, for every id at once, exactly the server wanted by the last list of the cloud under the device's own runs |
| `Gateway.TasksServeResolutions` | crates/gateway/src/server_task.rs:160-215 | On every run each task has in force what its last resolution gave: its mappings, for its own server and the ids it knows, or nothing after a failure |
| `Liveness.TaskCanEnd` | crates/gateway/src/server_task.rs:110-273 | A task that was told to end can always go on to its end alone, whatever it is at, while nothing else moves |
| `Liveness.EveryRunCanEnd` | crates/gateway/src/supervisor.rs:37-79 | From wherever any run has come to, the cancelled process can go on to its end, with the supervisor ended and every task over |
| `Process.CloudReachesTheServers` | crates/gateway/src/main.rs:156-199 | The provider's polls and the system composed: once the supervisor has settled, an id runs the device's own server, or else the first of that id in the list read last from Cumulocity, if no poll was masked |
| `Process.TypesReachTheTasks` | crates/gateway/src/main.rs:156-199 | A task that has seen the last version holds the last good fetch under the files of the last poll, and has in force exactly what its last resolution made of it, or nothing if that failed, if no poll was masked |
| `Process.TypesReachTheTasksEntryByEntry` | crates/gateway/src/main.rs:156-199 | When an address space answered that resolution, the mappings in force are what looking up every entry of every merged device type on its own finds there, for this server and the ids known to the task |
| `Process.ObjectsReachTheServers` | crates/gateway/src/main.rs:156-199 | Once the supervisor has settled, an id the device does not configure runs exactly when a managed object read last is a startable server of it, and then as the first such object says |
| `Process.DisabledDoesNotRun` | crates/gateway/src/cloud_servers.rs:282-292 | A server that Cumulocity lists only as disabled does not run once the supervisor has settled |
| `Process.ProcessIsARun` | crates/gateway/src/main.rs:156-199 | With the two providers as the only senders the process is one of the runs above, so all that holds there holds here |
| `Gateway.TokensFireForAReason` | crates/gateway/src/supervisor.rs:100-136 | A removal reaches only a task whose id is no longer desired, a stop only one whose id is desired with other settings, and nothing reaches the rest |
| `Gateway.RegistrationPrecedesData` | crates/gateway/src/main.rs:127-137 | Before anything is published for a device, the gateway device if enabled, then its server, then the device were registered, over all tasks and generations |
| `Gateway.SomeRunOpensASession` | crates/gateway/src/server_task.rs:91-127 | These runs are not idle: for any server from the cloud, one of them starts its task and opens its session |
| `Rounds.RoundEndsAsReconcile` | crates/gateway/src/supervisor.rs:88-168 | In the composed system, too, a completed round runs the first entries; an agreeing task is where it was, a gone one was removed, a changed one stopped, both over, and every successor is new and knows the ids of this round |
| `Supervisor.Supervisor.Reconcile` | crates/gateway/src/supervisor.rs:88-168 | Ends with the first entry of every desired id; agreeing tasks keep their identity, gone ones are removed, changed ones stopped and replaced, new ones know the ids of this moment, and no task of an id begins before every earlier one has ended |
| `Supervisor.Supervisor.RemoveGone` | crates/gateway/src/supervisor.rs:100-125 | Exactly the tasks whose id is not desired are removed, in any order |
| `Supervisor.Supervisor.StopListed` | crates/gateway/src/supervisor.rs:126-135 | Exactly the listed tasks are stopped, a repeated id once |
| `Supervisor.Supervisor.StartMissing` | crates/gateway/src/supervisor.rs:137-167 | Running tasks stay; the first entry of every missing id is started |
| `Supervisor.Supervisor.Drain` | crates/gateway/src/supervisor.rs:76-78 | At the end of the process every task ever started has been joined |
| `Supervisor.Supervisor.Run` | crates/gateway/src/supervisor.rs:37-79 | After each cloud value the servers of that value under the device's own run; at the end all tasks are joined |
| `Supervisor.DeviceConfigurationWins` | crates/gateway/src/supervisor.rs:47-53 | What settles for an id is the device's last word on it, and the cloud's first word otherwise |
| `Supervisor.SettledIsKept` | crates/gateway/src/supervisor.rs:107-116 | With no id twice in the cloud's list, reading the same servers again disturbs no task |
| `Supervisor.Supervisor.ReconcileTwice` | crates/gateway/src/supervisor.rs:88-168 | Settling and reading the same list again leaves a task alone exactly when its id has one setting; with two it is stopped and replaced |
| `Supervisor.SettledFate` | crates/gateway/src/supervisor.rs:107-116 | What settled for an id agrees with every entry exactly when no two entries of the id differ |
| `Supervisor.RestartedAreThoseThatDiffer` | crates/gateway/src/supervisor.rs:107-116 | The restart list names exactly the running ids some entry gives other settings |
| `Config.MergeServers` | crates/gateway/src/config.rs:505-517 | Overwriting in place and appending is the merge the other lemmas speak of |
| `Config.WinningListWins` | crates/gateway/src/config.rs:501-517 | The second list has the last word on each id it names; other ids keep the first server of the first list |
| `Config.ValidateServers` | crates/gateway/src/config.rs:378-415 | Accepts exactly the lists of sound servers with distinct ids; otherwise reports the error of the first server that fails |
| `Config.SoundExactlyWhen` | crates/gateway/src/config.rs:378-415 | What a sound server is, from its fields, and for which of several faults it is rejected |
| `Config.MergedKeepsUnique` | crates/gateway/src/config.rs:505-517 | Merging repeats no id that the first list does not repeat |
| `ServerTask.TaskOverAllRuns` | crates/gateway/src/server_task.rs:82-274 | Over every run: all invariants below, what is in force is what the last resolution gave, and servers are registered before devices before data |
| `ServerTask.SessionKept` | crates/gateway/src/server_task.rs:109-273 | The session is open exactly from connect to disconnect, and readers exist only inside it |
| `ServerTask.SeenKept` | crates/gateway/src/server_task.rs:158-160 | What is in force was resolved from the device types of the version marked seen |
| `ServerTask.ResolutionKept` | crates/gateway/src/server_task.rs:159-215 | From its resolution to the end of the generation a task has exactly the mappings of that resolution in force, every one of them, or none after a failure |
| `ServerTask.ServesEntryByEntry` | crates/gateway/src/server_task.rs:159-215 | Answered by an address space, these are what looking up every entry of the device types seen finds |
| `Progress.ChangeIsTakenUp` | crates/gateway/src/server_task.rs:238-273 | A running task with an unseen version can always go on to resolve exactly the last one, on a new session with the readers of the old one gone |
| `Progress.OrphanEnds` | crates/gateway/src/server_task.rs:238-244 | A running task left without device types can always end, its readers gone and its session closed |
| `Progress.FailureIsRetried` | crates/gateway/src/server_task.rs:134-152 | A failed connect can always be tried again after one wait, with the delay doubled up to the maximum and nothing else changed |
| `Progress.LostReaderIsReplaced` | crates/gateway/src/server_task.rs:248-273 | When a reader gives up, the session can always be closed, with the other readers gone, and another attempted after one wait |
| `Progress.ResolutionIsServed` | crates/gateway/src/server_task.rs:160-209 | Whatever a session answers, if no request is lost, the task can go on to run with exactly the mappings of these answers and with any readers for their devices |
| `Progress.ReaderCanPublish` | crates/gateway/src/server_task.rs:191-208 | Such a reader can then publish for each of its devices |
| `Progress.TasksMoveFreely` | crates/gateway/src/supervisor.rs:137-167 | Whatever a task can do on its own it can do in the system, from wherever that has come to |
| `ServerTask.MemoryKept` | crates/gateway/src/server_task.rs:104-171 | The task remembers every device it ever registered, each once |
| `ServerTask.CoveredKept` | crates/gateway/src/server_task.rs:168-191 | Every device of the generation has been registered since the session was opened, before readers start |
| `ServerTask.BackoffKept` | crates/gateway/src/server_task.rs:107-150 | The delay is 1 after a connect and min(2^k, max) after k waits since |
| `ServerTask.PacedKept` | crates/gateway/src/server_task.rs:134-151 | After a failed connect or a lost reader the task waits before it attempts anything again |
| `ServerTask.WaitsBetween` | crates/gateway/src/server_task.rs:134-151 | Read from the trace: between such a failure and any later attempt there is a wait |
| `ServerTask.LastKept` | crates/gateway/src/server_task.rs:312-325 | Deregistration happens at most once, as the last thing |
| `ServerTask.GoneKept` | crates/gateway/src/server_task.rs:229-273 | A task leaves for good, and deregisters, only when removed |
| `ServerTask.LeavingKept` | crates/gateway/src/server_task.rs:225-273 | A task ends without deregistering only when stopped or left without a provider, so one that is only removed deregisters |
| `ServerTask.EffectsFollow` | crates/gateway/src/server_task.rs:91-191 | Whatever a step publishes or registers was preceded by the registrations it needs |
| `ServerTask.TaskNamesItsOwn` | crates/gateway/src/server_task.rs:40-104 | Over every run a task registers the entity of its server's topic id, or else name, under the gateway device, or else the main one, and below it only entities with a device type's id behind; whatever it publishes is for this server |
| `ServerTask.StepOfLiveTask` | crates/gateway/src/server_task.rs:82-274 | A finished task does nothing more, and no task changes its server |
| `Backoff.OneMore` | crates/gateway/src/server_task.rs:150 | Doubling up to the maximum is one more power of two, capped |
| `ResolveAll.ResolveAllTypes` | crates/gateway/src/server_task.rs:336-424 | The loop gives the mappings of all selected device types in order, or nothing when a request is lost |
| `Constraints.SomeServerMatches` | crates/mapping/src/constraints.rs:45-72 | Whatever server ids a device type wants, some known server takes it: ids that name none are ignored |
| `Constraints.AppliesExactlyWhen` | crates/mapping/src/constraints.rs:22-101 | A device type applies exactly when it is enabled its constraints, blank ids aside, name no server, or this one, or no known one, and no node, or the root it was authored against |
| `Config.AllowListScopes` | crates/gateway/src/config.rs:301-310 | An empty allow-list takes every device type, any other exactly the ones it lists, blanks around them aside |
| `ResolveAll.ResolveOneType` | crates/gateway/src/server_task.rs:351-423 | Allow-list, constraints against the ids known at the task's start, plan, one batch request, write back, finish: one outcome per device type |
| `ResolveAll.ResolutionIsEntryByEntry` | crates/gateway/src/server_task.rs:336-424 | Against an address space, the result is that of looking up each entry of each selected device type on its own and grouping in order |
| `ResolveAll.SelectedExactlyWhen` | crates/gateway/src/server_task.rs:351-373 | A device type is resolved exactly when the allow-list takes it, it applies, and the root it names, if any, can be read |
| `ResolveAll.RootIsAuthored` | crates/mapping/src/resolve.rs:174-179 | Entries are looked for below the root authored, or else below `i=84` |
| `Deliveries.ServedAsAuthored` | crates/mapping/src/resolve.rs:189-260 | Against an address space every entry that asks for something, at a node that can be found, is in the finished mapping at that node with all its actions: in the read group of the rate and age authored in the type that decides for it, or subscribed |
| `Deliveries.NodesAreAuthored` | crates/mapping/src/resolve.rs:189-260 | And every node of it stands for such an entry: what is read was authored `CyclicRead`, at this rate and age, what is subscribed was authored `Subscription`, with these valid parameters |
| `Deliveries.EntryAsAuthored` | crates/mapping/src/resolve.rs:229-252 | An entry is planned with a delivery exactly when it asks for something at a place that can be found and the type authored in the first override of its names, or else the device type's own, asks for that delivery |
| `Deliveries.DeliveryIsAsked` | crates/mapping/src/resolve.rs:284-318 | `CyclicRead` is read every positive rate authored, or 5000 ms, within the age authored, or none; `Subscription` is subscribed with the parameters authored if they are valid; anything else is not delivered |
| `Deliveries.GroupsAreAuthored` | crates/mapping/src/resolve.rs:118-133 | A read group holds exactly the nodes read at its rate and whole milliseconds of age, and a subscribed node is in none |
| `Deliveries.MaxAgeIsRounded` | crates/mapping/src/resolve.rs:406-413 | An age is cut to whole milliseconds, none below zero and none above what 64 bits hold |
| `Model.InvalidFor` | crates/mapping/src/model.rs:255-286 | Parameters are refused exactly for a deadband value of an unknown type, an unknown trigger, or ranges that are none |
| `Model.DimensionIs` | crates/mapping/src/model.rs:324-336 | A range of one dimension is an index or two of them around a colon |
| `Model.RangesJoin` | crates/mapping/src/model.rs:324-336 | Ranges joined by a comma are a range exactly when each of them is |
| `Text.NonBlankIsTrimmed` | crates/mapping/src/model.rs:363-365 | An authored text stands for itself without the blanks around it, and a blank one for none |
| `Text.TrimIs` | crates/mapping/src/model.rs:363-365 | What trimming takes from a text is blank, and what it leaves has no whitespace at either end |
| `Resolve.PlanDeviceType` | crates/mapping/src/resolve.rs:169-260 | The plan is that of each entry on its own, in order; an error only for an unreadable root |
| `Resolve.PlannedExactlyWhen` | crates/mapping/src/resolve.rs:190-251 | An entry is planned exactly when it asks for a typed measurement, event or alarm, has no regex segment, names a readable node or else a path, and the first override of its path, or else the default, is usable |
| `Resolve.PlannedContents` | crates/mapping/src/resolve.rs:190-251 | A planned entry has exactly the typed actions asked for, the node named or else the path, and the delivery of the first override of that path or else the default |
| `Resolve.FirstOverrideDecides` | crates/mapping/src/resolve.rs:231-244 | The first override of the same qualified names decides the delivery, even an unusable one |
| `Resolve.RespellingAnEntry` | crates/mapping/src/resolve.rs:196-252 | Respelling a path keeps an entry's plan exactly when it keeps the regex form, or the entry is idle anyway |
| `Resolve.RespellingKeepsThePlan` | crates/mapping/src/resolve.rs:196-281 | Respelling paths in mappings and overrides keeps what every entry is planned as exactly when no entry but an idle one starts or stops using the regex form; that keeps the whole plan, and unless another entry takes the place of a lost one, only that does |
| `Resolve.TwinsTakePlaces` | crates/mapping/src/resolve.rs:196-281 | Such entries: two spellings of one path change places, and the plan is the same although both forms changed |
| `Resolve.RegexIsASpelling` | crates/mapping/src/namespace.rs:41-44 | Two device types that differ in the spelling of one segment only, one with an empty plan and one with a full one, whatever the namespaces |
| `Resolve.Plan.SetResolved` | crates/mapping/src/resolve.rs:354-358 | Only the named entry changes; an index outside the plan changes nothing |
| `Resolve.Plan.Finish` | crates/mapping/src/resolve.rs:366-403 | Unresolved entries are dropped, the rest grouped by node, delivery kind and schedule |
| `Resolve.ResolvePlan` | crates/opcua-conn/src/lib.rs:212-250 | Positional results, short, long or partly failed, give each path entry exactly the node its own result binds, and no other entry anything |
| `Resolve.TranslatedBinds` | crates/opcua-conn/src/lib.rs:212-249 | Result i binds path i to the node of its first fully resolved target, if its status is good and the target has no namespace URI; a missing result binds nothing |
| `Resolve.RankIsOrder` | crates/gateway/src/server_task.rs:376-400 | Writing answers back by entry index is taking them in order |
| `Resolve.BatchIsEntryByEntry` | crates/gateway/src/server_task.rs:376-400 | Against a server that answers by path, one batch request finds what one request per entry finds |
| `Resolve.GroupStep` | crates/mapping/src/resolve.rs:366-397 | Grouping can be done one entry at a time, joining the first node of the same key |
| `Resolve.GroupingConservesActions` | crates/mapping/src/resolve.rs:366-403 | Each action of each resolved entry is in the nodes exactly once |
| `Resolve.ActionsKeepEntryOrder` | crates/mapping/src/resolve.rs:366-403 | Within a node, actions keep entry order |
| `Resolve.ReadGroups` | crates/mapping/src/resolve.rs:118-126 | One group per read schedule, holding its nodes in order |
| `Resolve.GroupsPartitionNodes` | crates/mapping/src/resolve.rs:118-133 | Read groups and subscribed nodes partition the nodes, and none names a node twice |
| `Namespace.ToQualifiedName` | crates/mapping/src/namespace.rs:52-71 | The floating delimiter finds the rightmost colon whose prefix names a namespace, and always stops |
| `Namespace.WholeSegmentIffNothingResolves` | crates/mapping/src/namespace.rs:52-71 | The whole segment is a name in namespace 0 exactly when no prefix resolves |
| `Text.UnsignedIs` | crates/mapping/src/namespace.rs:59-62 | A namespace index is digits in range, with or without a plus sign |
| `Namespace.PrintedSegmentReadsBack` | crates/mapping/src/namespace.rs:52-71 | A printed name reads back exactly when no longer prefix resolves |
| `Namespace.SpellingsOfANamespace` | crates/mapping/src/namespace.rs:25-34 | An index always names its namespace; a URI does when first at its index and not another number |
| `Namespace.RegexIs` | crates/mapping/src/namespace.rs:42-44 | A segment has the regex form exactly when it is `regex(`, anything, and `)` |
| `Namespace.QualifiedNameRoundTrip` | crates/mapping/src/namespace.rs:52-71 | Colon-free names are read back under either spelling of their namespace |
| `Namespace.StripPrefixes` | crates/mapping/src/namespace.rs:86-110 | The prefix loop strips at most three prefixes and keeps the last namespace named, with the errors of the first bad one |
| `Namespace.ParseNodeId` | crates/mapping/src/namespace.rs:85-115 | Prefixes, then an identifier: the NodeId of the recursive definition, with the same errors |
| `Namespace.ErrorsTell` | crates/mapping/src/namespace.rs:94-115 | The error names a URI the server does not have, the first one if that is it, or else the whole text |
| `Namespace.PrefixedNodeIdReadsBack` | crates/mapping/src/namespace.rs:85-126 | Any identifier text behind any prefixes is read in the namespace named last, exactly up to three prefixes |
| `Namespace.NodeIdRoundTrip` | crates/mapping/src/namespace.rs:85-126 | Every NodeId is read back from the text form of section 5.3.1.10 of OPC 10000-6 |
| `Namespace.UriFormMeansIndexForm` | crates/mapping/src/namespace.rs:94-103 | The `nsu=` form means what the `ns=` form means, whatever follows |
| `Topic.SanitizeId` | crates/tedge/src/topic.rs:52-71 | Mapping characters and collapsing dashes until none is doubled gives the non-empty pieces joined by single dashes |
| `Topic.CollapseShrinks` | crates/tedge/src/topic.rs:64-66 | Each collapse that changes anything shortens the text, so the loop ends |
| `Topic.SanitizedIsCanonical` | crates/tedge/src/topic.rs:43-71 | The result is non-empty, in the allowed alphabet, without doubled or edge dashes, and sanitizing it again changes nothing |
| `Topic.WordsAreRuns` | crates/tedge/src/topic.rs:52-71 | The words of any text are its longest runs of letters, digits and underscores in lower case, cut at every other character, or else `unnamed` |
| `Topic.DeviceTopicsAreWellFormed` | crates/tedge/src/topic.rs:32-39 | Every device entity has four id segments and no wildcard; a channel topic is the channel below it, with a wildcard exactly when the channel, which may hold a type as authored, has one |
| `Topic.DeviceIdCollisions` | crates/gateway/src/server_task.rs:52-56 | For any server names and device type ids, two devices share an id exactly when the words of server and device type are the same in a row: lower-cased runs of letters, digits and underscores |
| `Topic.ServerIdCollisions` | crates/tedge/src/topic.rs:52-71 | Servers share an id exactly when they have the same words; a device has a server's exactly when that server has the words of both |
| `Topic.MainDeviceCollisions` | crates/tedge/src/topic.rs:52-71 | A server is taken for the main device exactly when its one word is `main`, a device never is |
| `Topic.CaseCollides` | crates/gateway/src/server_task.rs:52-56 | Device types `A` and `a` are one device of every server |
| `ResolveAll.DevicesShareAnEntity` | crates/gateway/src/server_task.rs:52-56 | The same for the entities of resolved device types, and of servers, as they are published |
| `Config.SoundServersCollide` | crates/gateway/src/config.rs:290-293 | Two servers the configuration accepts share a topic id |
| `Topic.DeviceIdsCollide` | crates/gateway/src/server_task.rs:52-56 | Server `a` with type `b-c` and server `a-b` with type `c` are one device |
| `SmartRest.FailureRecordReadsBack` | crates/gateway/src/operations.rs:127-134 | The failure record reads back as its three fields exactly for names that need no quoting: no comma, quote or line break |
| `SmartRest.QuotedReadsBack` | crates/gateway/src/operations.rs:132-134 | A quoted field reads back by section 2 of RFC 4180 exactly when nothing behind it continues the quotes |
| `SmartRest.ReadIsDoubled` | crates/gateway/src/operations.rs:132-134 | Whatever reads as a quoted field is the doubled text of its value |
| `SmartRest.QuotedNameIsMisread` | crates/gateway/src/operations.rs:127-129 | A name that starts with a quote never reads back |
| `SmartRest.LineBreakEndsTheRecord` | crates/gateway/src/operations.rs:127-129 | A fragment name with a line break ends the record before its fields are complete |
| `Payload.MeasurementBuilder.Add` | crates/mapping/src/payload.rs:43-77 | A readable value is taken under the fragment and series authored, or made from the node when blank, with its source time, or else its server time, dating a fresh batch; nothing else changes but missing static fragments; any other value changes nothing |
| `Payload.AddTakes` | crates/mapping/src/payload.rs:43-77 | The same of the batch on values, and which values are readable |
| `Payload.NumberIsRead` | crates/mapping/src/value.rs:20-37 | The number a value stands for: 1 or 0 for booleans, the finite value of a number, or of a text that reads as one; nothing otherwise |
| `Payload.FlagIsRead` | crates/mapping/src/value.rs:43-49 | What raises is true, `true` in any case, or a number above zero; what clears is false, any other text, or any other number |
| `Payload.MeasurementBuilder.Build` | crates/mapping/src/payload.rs:85-97 | Nothing without samples; otherwise the fragments with the time of the first sample |
| `Payload.WindowIsLastWriteWins` | crates/mapping/src/payload.rs:43-77 | After any samples each fragment and series holds its last number, and the count is that of the samples |
| `Payload.WindowMessage` | crates/mapping/src/payload.rs:85-97 | The message of a window says exactly that, and keeps every fragment exactly when none is called `time` |
| `Payload.WindowIsAsAuthored` | crates/mapping/src/payload.rs:85-97 | In the message of a window each value without a later one of the same names stands under the fragment and series authored for it, and the first value dates it |
| `Payload.TimeFragmentIsLost` | crates/mapping/src/payload.rs:85-97 | A window whose only fragment is `time` sends the time and not the sample |
| `Publish.Publisher.Accept` | crates/gateway/src/publish.rs:57-132 | A bad value does nothing; a good one takes each action in order |
| `Authored.DroppedValuesDoNothing` | crates/mapping/src/value.rs:10-13 | A bad status, a missing value and an empty one change nothing |
| `Authored.OtherValuesAct` | crates/gateway/src/publish.rs:57-68 | Any other value takes all actions of its node, one after the other |
| `Publish.Publisher.AddMeasurement` | crates/gateway/src/publish.rs:70-80 | The batch of its type gets the sample, and the counter moves with it; `Authored.MeasurementAsAuthored` says what that is |
| `Authored.MeasurementAsAuthored` | crates/gateway/src/publish.rs:70-80 | A measurement takes its number into the batch of the type authored, without the blanks around it, under the names authored, and counts it; other batches, events, alarms and what was sent stay |
| `Authored.NoTypeNoMeasurement` | crates/mapping/src/resolve.rs:137-139 | A measurement without a type, or with a blank one, does nothing |
| `Publish.Publisher.Announce` | crates/gateway/src/publish.rs:82-99 | An event is attempted unless suppressed as a repeat of its key |
| `Authored.EventAsAuthored` | crates/mapping/src/payload.rs:111-138 | The event has the text authored with the value for `${value}`, the value's time, its node and the static fragments authored, and goes out unless it repeats the last text of its node and type |
| `Publish.Publisher.Signal` | crates/gateway/src/publish.rs:100-129 | An alarm is attempted on transitions of its key only |
| `Authored.AlarmAsAuthored` | crates/mapping/src/payload.rs:140-165 | The alarm has the severity authored, lowered, or else `major`, and goes out, or is cleared, exactly when the value says otherwise than the last one of its node and type |
| `Authored.LoweredByLetter` | crates/mapping/src/payload.rs:157-165 | Lowering changes the letters from A to Z and nothing else |
| `Publish.Publisher.Flush` | crates/gateway/src/publish.rs:135-149 | One message per type with samples, in type order, and an empty publisher after it |
| `PublishRuns.AlarmsAreDestuttered` | crates/gateway/src/publish.rs:100-129 | Over any run, alarms of a node and type are the readable booleans without adjacent repeats, strictly alternating |
| `PublishRuns.EventsAreDestuttered` | crates/gateway/src/publish.rs:82-99 | Likewise the event texts with suppression on; all of them with it off |
| `PublishRuns.MeasurementsAreWindows` | crates/gateway/src/publish.rs:68-149 | Over any run, the messages of a type are those of its closed windows, last write winning, and the windows hold every accepted sample once |
| `PublishRuns.PendingIsConserved` | crates/gateway/src/publish.rs:68-81 | The pending counter is the number of samples since the last flush and the sum of the builders' counts |
| `PublishRuns.WindowBodyIgnoresTheClock` | crates/mapping/src/payload.rs:85-97 | A message never needs the clock at flush time |
| `Readers.Targets` | crates/gateway/src/server_task.rs:440-451 | One target per device and subscribed node, in order |
| `Readers.TargetsAre` | crates/gateway/src/server_task.rs:440-451 | The targets are exactly the subscribed nodes of the applied devices, each with its own device's entity |
| `Readers.LoopsOfDevice` | crates/gateway/src/server_task.rs:642-655 | Exactly one read loop for each schedule of a device's nodes, with exactly these nodes in order |
| `Readers.Loops` | crates/gateway/src/server_task.rs:642-655 | The read loops are exactly those of the applied devices |
| `Readers.SubscriptionServesDevices` | crates/gateway/src/server_task.rs:428-521 | Whatever items the server accepts, the routes lead to applied devices only, so this reader is one the task may start |
| `Readers.LoopServesADevice` | crates/gateway/src/server_task.rs:634-655 | A read loop publishes for an applied device, so it is one the task may start |
| `Readers.EveryNodeIsServed` | crates/gateway/src/server_task.rs:428-655 | Every node of an applied device is a target of the subscription or is read by its schedule's loop |
| `SubscriptionLoop.BuildRoutes` | crates/gateway/src/server_task.rs:481-499 | Accepted items get a route, refused ones are counted, and together they are all items |
| `SubscriptionLoop.RoutesAreTheAcceptedItems` | crates/opcua-conn/src/lib.rs:444-454 | With distinct handles, a handle leads to a target exactly when the item at that position got it |
| `SubscriptionLoop.RoutesFollowTheOutcomes` | crates/gateway/src/server_task.rs:479-499 | In terms of the outcomes: a handle leads to a target exactly when the outcome at that target's position is good and has this handle |
| `SubscriptionLoop.Run` | crates/gateway/src/server_task.rs:565-624 | The loop over any events, with its many publishers, does what the model does to the states of all devices |
| `SubscriptionLoop.FlushAll` | crates/gateway/src/server_task.rs:626-630 | Every publisher is flushed, whatever the order |
| `SubscriptionLoop.PendingSeries` | crates/gateway/src/server_task.rs:617 | The sum over all publishers, whatever the order |
| `SubscriptionLoop.EveryDeviceRunsAlone` | crates/gateway/src/server_task.rs:561-624 | Each device's publisher goes through a run of its own, untouched by other devices |
| `SubscriptionLoop.NotificationsReachTheirDevice` | crates/gateway/src/server_task.rs:602-616 | A device's publisher accepts exactly the notifications routed to it, in order |
| `SubscriptionLoop.PendingStaysBounded` | crates/gateway/src/server_task.rs:617-620 | Between events nothing is pending, or less than `flush_max_series` |
| `SubscriptionLoop.LeavingSendsEverySample` | crates/gateway/src/server_task.rs:591-601 | When the loop leaves by itself, every sample accepted has been sent in its window's message |
| `SubscriptionLoop.TickSendsEverySample` | crates/gateway/src/server_task.rs:597 | After every tick of the flush timer, too, every sample accepted has been sent in its window's message |
| `ReadLoop.Run` | crates/gateway/src/server_task.rs:660-711 | Gives up at the first cycle that ends three failures in a row, and at no other; until then it publishes each good cycle |
| `ReadLoop.PublishCycle` | crates/gateway/src/server_task.rs:705-709 | Values are paired with nodes by position, as far as both go, then flushed once |
| `ReadLoop.CycleByPosition` | crates/gateway/src/server_task.rs:705-709 | Call i of a good cycle offers value i to node i for its actions, and a flush follows the last |
| `ReadLoop.FailuresAreConsecutive` | crates/gateway/src/server_task.rs:683-702 | The counter reaches k exactly when the last k cycles failed |
| `ReadLoop.OneMessagePerCycle` | crates/gateway/src/server_task.rs:705-709 | Each good cycle sends one message per measurement type it read, and no other |
| `Source.Merge` | crates/mapping/src/source.rs:196-215 | The two insertion loops give the winners of all ids in id order |
| `Source.MergedIsSortedAndComplete` | crates/mapping/src/source.rs:190-215 | Strictly sorted by id, exactly the ids of both lists, and for each id the last entry of the pushed list if it is there, else of the pulled one |
| `Source.RevisionOfMerge` | crates/mapping/src/source.rs:133-145 | The revision maps each id to the marker of its winner |
| `Source.Between` | crates/mapping/src/source.rs:157-172 | The loops compute the diff |
| `Source.DiffIsExact` | crates/mapping/src/source.rs:149-176 | Three disjoint sorted lists, empty exactly for equal revisions, that rebuild the later revision from the earlier |
| `Source.ShadowedByMerge` | crates/mapping/src/source.rs:183-193 | What a merge shadows is exactly the pulled ids that are also pushed |
| `DeviceTypes.Provider.Poll` | crates/gateway/src/device_types.rs:35-102 | One turn of the poll loop: fetch, merge, send when some marker moved, and the delay |
| `DeviceTypes.ProviderOverAllPolls` | crates/gateway/src/device_types.rs:35-102 | The pulled part is the last good fetch, the delay follows the failures, the revision is that of the channel |
| `DeviceTypes.LastPollSends` | crates/gateway/src/device_types.rs:35-102 | A poll sends exactly when some id's marker moved |
| `DeviceTypes.CurrentIffNeverMasked` | crates/gateway/src/device_types.rs:35-102 | Whatever the markers are, the channel holds what was merged after every poll exactly when no two consecutive merges differ with equal markers |
| `DeviceTypes.FaithfulMarkersMaskNothing` | crates/gateway/src/device_types.rs:35-102 | Markers that determine the device type never mask a change |
| `DeviceTypes.UntimedEditIsMissed` | crates/mapping/src/source.rs:35-43 | Two fetches of one id without a time of last update: the first version stays on the channel |
| `Fingerprint.BuildRevision` | crates/gateway/src/cloud_servers.rs:385-402 | Appending field by field gives the joined records |
| `Fingerprint.RevisionIsFaithful` | crates/gateway/src/cloud_servers.rs:385-402 | Among lists of servers without separator characters, fingerprints are equal exactly for equal lists |
| `Fingerprint.OwnRecordIffUnambiguous` | crates/gateway/src/cloud_servers.rs:385-402 | A server shares its record with no other server Cumulocity can give exactly when no separator in its fields can be read as the end of a field |
| `Fingerprint.OwnRevisionIff` | crates/gateway/src/cloud_servers.rs:385-402 | A list shares its fingerprint with no other exactly when it is empty or one such server |
| `CloudServers.ServerConfigIsAdopted` | crates/gateway/src/cloud_servers.rs:255-383 | The servers some managed object is read as are exactly those of the adopted shape: derived ids, a url, and both credentials or none |
| `CloudServers.ServerExactlyWhen` | crates/gateway/src/cloud_servers.rs:255-383 | A managed object is read as a server exactly when it has a url, is not disabled, asks for no security and is anonymous or has a user and a password that is not encrypted; and each field of the server is the one authored |
| `CloudServers.FirstServerRead` | crates/gateway/src/cloud_servers.rs:156-210 | Of the objects read in a poll the first startable server of an id gives that id's server, and without one there is none |
| `CloudServers.Provider.LookUp` | crates/gateway/src/cloud_servers.rs:72-110 | The gateway object is looked up while unknown, and help is due when the misses since it was known reach five |
| `CloudPolls.ProviderOverAllPolls` | crates/gateway/src/cloud_servers.rs:69-151 | Over all polls: the object known is the one found last and not gone since, the misses are those since then, failed look-ups aside, and the next delay is min(2^k, max) after k failures since the last success |
| `CloudPolls.DelayOverAllPolls` | crates/gateway/src/cloud_servers.rs:69-151 | After every poll the provider waits its interval, or, when the poll ended in the k-th failure since the last success, min(2^(k-1), max) |
| `CloudPolls.HelpOverAllPolls` | crates/gateway/src/cloud_servers.rs:88-94 | Help goes out in exactly the polls whose look-up brings the fifth miss since the object was found |
| `CloudPolls.HelpOncePerAbsence` | crates/gateway/src/cloud_servers.rs:88-94 | Between two helps the object was found |
| `CloudPolls.HelpGoesOut` | crates/gateway/src/cloud_servers.rs:88-94 | An absence of five misses or more, and no shorter one, has had its help |
| `CloudServers.Provider.Poll` | crates/gateway/src/cloud_servers.rs:69-151 | One turn: look up, fetch, and send when the fingerprint moved; the delay and the help due after it |
| `CloudServers.ChannelHoldsTheLastRead` | crates/gateway/src/cloud_servers.rs:112-128 | Without separators in the fields, the channel holds exactly the list read last, and an unchanged poll sends nothing |
| `CloudServers.CurrentIffNeverMasked` | crates/gateway/src/cloud_servers.rs:112-128 | Whatever the fields are, the channel holds the list read last after every poll exactly when no two consecutive reads differ with one fingerprint |
| `CloudServers.SeparatorsMaskAChange` | crates/gateway/src/cloud_servers.rs:255-329 | Two managed objects of one child and two polls after which the channel still holds the first server |
| `CloudServers.ChildReadTwice` | crates/gateway/src/cloud_servers.rs:175-198 | A child listed twice and edited in between gives a desired list with two settings of one id |

## Left out

- Transport: MQTT, HTTP and the OPC UA session are foreign; a fetch, a read or a translation gives an arbitrary answer, and a publish is an entry in a list.
- Cancelling a connect attempt: dropping it is taken to leave no session behind.
- Panics: a task that panics is not modelled; a joined task is one that reached its end.
- Timers: ticks and sleeps happen at any time; no wall-clock bound and no liveness of network calls is claimed, and durations do not overflow.
- Flushing on abort: tearing a generation down may stop a reader between two steps, so nothing is claimed about samples pending then; only the subscription loop's own exits are.
- SubscriptionLoop.Run: message order across devices is not modelled, each publisher has its own list; handles are taken to be distinct where the result depends on it.
- ServerTask.TaskOverAllRuns: readers publish for any of their devices at any time, which covers the two loops; what they are given is `Readers`, the loops themselves are `SubscriptionLoop` and `ReadLoop`.
- Process.CloudReachesTheServers: a provider that finds no consumer left stops; here it may go on sending to nobody.
- ServerTask.ResolutionKept: display names and entity types in registrations are not modelled; while a generation is torn down after a change, the newer version is already marked seen; the claim is about resolving and running.
- Gateway.RegistrationPrecedesData: registrations are attempts; whether the broker accepted them is not observed. The service registration and the gateway device's own fragments are not part of this model.
- Constraints the gateway only warns about (crates/mapping/src/constraints.rs:103-134) restrict nothing and are not fields of the model.
- Namespace.ParseNodeId: decoding GUID and base64 identifiers is a parameter.
- Readers.Targets: how a node id is written is a parameter, and the order of a device's read loops is not modelled.
- Publish.Publisher.Accept: rendering of variants, floating-point detail and RFC 3339 timestamps arrive with the value; severities and booleans are lowered in ASCII only; the clock is read once per value.
- CloudServers.ChannelHoldsTheLastRead: a special case of `CloudServers.CurrentIffNeverMasked`, for fields without separators.
- Page-by-page fetching and adoption of managed objects (crates/gateway/src/cloud_servers.rs:156-240, crates/gateway/src/device_types.rs:110-177): I/O plumbing.
- Loading of JSON, TOML and environment, discovery of the device id, operation dispatch, logging and the command line.
- Measurement units, monitored-item parameters and data-change filters: short accessors with easy claims.
