/** Servers as configured on the device or registered in Cumulocity (crates/gateway/src/config.rs). */
module Config {
  import opened Text
  import Topic

  datatype ServerConfig = ServerConfig(
    id: string, name: string, url: string, securityPolicy: string, user: Option<string>,
    password: Option<string>, deviceTypes: seq<string>, externalId: Option<string>, topicId: Option<string>)

  function TopicId(server: ServerConfig): string {
    Topic.CanonicalId(server.topicId.GetOr(server.name))
  }

  /** An empty allow-list accepts every device type. */
  predicate AcceptsDeviceType(server: ServerConfig, deviceTypeId: string) {
    server.deviceTypes == [] || exists allowed :: allowed in server.deviceTypes && Trim(allowed) == deviceTypeId
  }

  /** Without an allow-list a server takes every device type; with one, those it lists, and no other. */
  lemma AllowListScopes(server: ServerConfig, deviceTypeId: string)
    ensures server.deviceTypes == [] ==> AcceptsDeviceType(server, deviceTypeId)
    ensures server.deviceTypes != [] ==>
      (AcceptsDeviceType(server, deviceTypeId) <==>
       exists i :: 0 <= i < |server.deviceTypes| && Trim(server.deviceTypes[i]) == deviceTypeId)
  {
    if i :| 0 <= i < |server.deviceTypes| && Trim(server.deviceTypes[i]) == deviceTypeId {
      assert server.deviceTypes[i] in server.deviceTypes;
    }
  }

  /** The first server of this id. */
  function First(servers: seq<ServerConfig>, id: string): (r: Option<ServerConfig>)
    ensures r.Some? ==> r.value.id == id && r.value in servers
    ensures r.None? <==> forall s :: s in servers ==> s.id != id
  {
    if servers == [] then None
    else if servers[0].id == id then Some(servers[0])
    else First(servers[1..], id)
  }

  /** The last server of this id. */
  function Last(servers: seq<ServerConfig>, id: string): Option<ServerConfig> {
    if servers == [] then None
    else
      var n := |servers| - 1;
      if servers[n].id == id then Some(servers[n]) else Last(servers[..n], id)
  }

  /** Put a server in place of the first one of its id, or at the end. */
  function Place(servers: seq<ServerConfig>, server: ServerConfig): seq<ServerConfig> {
    if servers == [] then [server]
    else if servers[0].id == server.id then [server] + servers[1..]
    else [servers[0]] + Place(servers[1..], server)
  }

  function Merged(base: seq<ServerConfig>, winning: seq<ServerConfig>): seq<ServerConfig> {
    if winning == [] then base
    else
      var n := |winning| - 1;
      Place(Merged(base, winning[..n]), winning[n])
  }

  function IndexOf(servers: seq<ServerConfig>, id: string): (r: Option<nat>)
    ensures r.Some? ==> r.value < |servers| && servers[r.value].id == id
    ensures r.Some? ==> forall i :: 0 <= i < r.value ==> servers[i].id != id
    ensures r.None? ==> forall i :: 0 <= i < |servers| ==> servers[i].id != id
  {
    if servers == [] then None
    else if servers[0].id == id then Some(0)
    else
      match IndexOf(servers[1..], id)
      case Some(i) => Some(i + 1)
      case None => None
  }

  lemma {:induction false} PlaceAt(servers: seq<ServerConfig>, server: ServerConfig)
    ensures Place(servers, server) ==
      match IndexOf(servers, server.id)
      case Some(i) => servers[i := server]
      case None => servers + [server]
  {
    if servers != [] && servers[0].id != server.id {
      PlaceAt(servers[1..], server);
      var rest := IndexOf(servers[1..], server.id);
      if rest.Some? {
        UpdateBehind(servers, rest.value, server);
      } else {
        assert servers + [server] == [servers[0]] + (servers[1..] + [server]);
      }
    }
  }

  lemma UpdateBehind<T>(list: seq<T>, i: nat, x: T)
    requires i + 1 < |list|
    ensures list[i + 1 := x] == [list[0]] + list[1..][i := x]
  {
  }

  /** Servers of the second list overwrite the first server of their id, or are appended. */
  method MergeServers(base: seq<ServerConfig>, winning: seq<ServerConfig>) returns (out: seq<ServerConfig>)
    ensures out == Merged(base, winning)
  {
    out := base;
    for i := 0 to |winning|
      invariant out == Merged(base, winning[..i])
    {
      assert winning[..i + 1][..i] == winning[..i];
      PlaceAt(out, winning[i]);
      var existing := IndexOf(out, winning[i].id);
      match existing {
        case Some(at) => out := out[at := winning[i]];
        case None => out := out + [winning[i]];
      }
    }
    assert winning[..|winning|] == winning;
  }

  lemma {:induction false} FirstAfterPlace(servers: seq<ServerConfig>, server: ServerConfig, id: string)
    ensures First(Place(servers, server), id) == if id == server.id then Some(server) else First(servers, id)
  {
    if servers != [] && servers[0].id != server.id {
      FirstAfterPlace(servers[1..], server, id);
    }
  }

  /** The winning list has the last word on every id it names, whatever the other list repeats; an id
      it does not name keeps the first server of the other list. */
  lemma {:induction false} WinningListWins(base: seq<ServerConfig>, winning: seq<ServerConfig>, id: string)
    ensures First(Merged(base, winning), id) == if Last(winning, id).Some? then Last(winning, id) else First(base, id)
  {
    if winning != [] {
      var n := |winning| - 1;
      WinningListWins(base, winning[..n], id);
      FirstAfterPlace(Merged(base, winning[..n]), winning[n], id);
    }
  }

  // ---- validation ----

  datatype ServerError = NoId | SharedId | BadUrl | NoName | BadPolicy

  /** What is wrong with one server, given the ids before it. */
  function ErrorOf(server: ServerConfig, before: set<string>): Option<ServerError> {
    if Trim(server.id) == [] then Some(NoId)
    else if server.id in before then Some(SharedId)
    else if !StartsWith(server.url, "opc.tcp://") then Some(BadUrl)
    else if Trim(server.name) == [] then Some(NoName)
    else if !EqualsIgnoreCase(server.securityPolicy, "None") then Some(BadPolicy)
    else None
  }

  ghost predicate UniqueIds(servers: seq<ServerConfig>) {
    forall i, j :: 0 <= i < j < |servers| ==> servers[i].id != servers[j].id
  }

  predicate IsSound(server: ServerConfig) {
    ErrorOf(server, {}).None?
  }

  /** What the configuration asks of a server on its own, and which of several errors is told. */
  lemma SoundExactlyWhen(server: ServerConfig, before: set<string>)
    ensures IsSound(server) <==>
      && !IsBlank(server.id) && !IsBlank(server.name)
      && (exists rest :: server.url == "opc.tcp://" + rest)
      && EqualsIgnoreCase(server.securityPolicy, "None")
    ensures ErrorOf(server, before).None? <==> IsSound(server) && server.id !in before
    ensures ErrorOf(server, before) == Some(NoId) <==> IsBlank(server.id)
    ensures ErrorOf(server, before) == Some(SharedId) <==> !IsBlank(server.id) && server.id in before
    ensures ErrorOf(server, before) == Some(BadUrl) <==>
      !IsBlank(server.id) && server.id !in before && forall rest :: server.url != "opc.tcp://" + rest
    ensures ErrorOf(server, before) == Some(NoName) <==>
      && !IsBlank(server.id) && server.id !in before && (exists rest :: server.url == "opc.tcp://" + rest)
      && IsBlank(server.name)
  {
    BlankIsTrimmedAway(server.id);
    BlankIsTrimmedAway(server.name);
    if StartsWith(server.url, "opc.tcp://") {
      assert server.url == "opc.tcp://" + server.url[|"opc.tcp://"|..];
    }
  }

  /** Server `i` is the first with an error, and this is the error. */
  ghost predicate FailsFirst(servers: seq<ServerConfig>, i: nat, error: Option<ServerError>)
    requires i < |servers|
  {
    && UniqueIds(servers[..i])
    && (forall j :: 0 <= j < i ==> IsSound(servers[j]))
    && error == ErrorOf(servers[i], set j | 0 <= j < i :: servers[j].id)
  }

  /** Reject the first server that is unsound or repeats an id. */
  method ValidateServers(servers: seq<ServerConfig>) returns (error: Option<ServerError>)
    ensures error.None? <==> UniqueIds(servers) && forall i :: 0 <= i < |servers| ==> IsSound(servers[i])
    ensures error.Some? ==> exists i :: 0 <= i < |servers| && FailsFirst(servers, i, error)
  {
    var seen := {};
    for i := 0 to |servers|
      invariant seen == set j | 0 <= j < i :: servers[j].id
      invariant UniqueIds(servers[..i])
      invariant forall j :: 0 <= j < i ==> IsSound(servers[j])
    {
      error := ErrorOf(servers[i], seen);
      if error.Some? {
        assert FailsFirst(servers, i, error);
        return error;
      }
      seen := seen + {servers[i].id};
    }
    assert servers[..|servers|] == servers;
    return None;
  }

  /** Sound servers with ids of their own can still share a topic id. */
  lemma SoundServersCollide() returns (servers: seq<ServerConfig>)
    ensures |servers| == 2 && UniqueIds(servers) && IsSound(servers[0]) && IsSound(servers[1])
    ensures TopicId(servers[0]) == TopicId(servers[1])
  {
    var a := ServerConfig("1", "A", "opc.tcp://h", "None", None, None, [], None, None);
    servers := [a, a.(id := "2", name := "a")];
    assert a.url[..10] == "opc.tcp://";
    assert Topic.MapChars("A") == "a" && Topic.MapChars("a") == "a";
  }

  lemma PlaceKeepsUnique(servers: seq<ServerConfig>, server: ServerConfig)
    requires UniqueIds(servers)
    ensures UniqueIds(Place(servers, server))
  {
    PlaceAt(servers, server);
  }

  /** Overwriting and appending repeats no id that the base does not. */
  lemma {:induction false} MergedKeepsUnique(base: seq<ServerConfig>, winning: seq<ServerConfig>)
    requires UniqueIds(base)
    ensures UniqueIds(Merged(base, winning))
  {
    if winning != [] {
      var n := |winning| - 1;
      MergedKeepsUnique(base, winning[..n]);
      PlaceKeepsUnique(Merged(base, winning[..n]), winning[n]);
    }
  }
}
