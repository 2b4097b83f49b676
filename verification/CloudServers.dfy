/** Servers as Cumulocity lists them for this gateway, and the provider that polls for them
    (crates/gateway/src/cloud_servers.rs). */
module CloudServers {
  import opened Text
  import opened Watch
  import opened Config
  import opened Fingerprint
  import Backoff
  import Supervisor

  datatype ClientConfig = ClientConfig(
    serverUrl: Option<string>, targetConnectionState: Option<string>, securityMode: Option<string>,
    userIdentityMode: Option<string>, passwordEncrypted: Option<bool>, userName: Option<string>,
    userPassword: Option<string>)

  datatype ManagedObject = ManagedObject(kind: Option<string>, name: Option<string>, client: Option<ClientConfig>)

  const SERVER_MO_TYPE := "c8y_OpcuaServer"
  const MISSES_BEFORE_HELP: nat := 5

  datatype Credentials = Anonymous | User(name: string, password: string) | Unusable

  function CredentialsOf(client: ClientConfig): Credentials {
    if EqualsIgnoreCase(client.userIdentityMode.GetOr("Anonymous"), "anonymous") then Anonymous
    else if client.passwordEncrypted.GetOr(false) then Unusable
    else if client.userName.Some? && Trim(client.userName.value) != []
         && client.userPassword.Some? && client.userPassword.value != [] then
      User(client.userName.value, client.userPassword.value)
    else Unusable
  }

  /** The server a managed object asks for; nothing when it must not be started. `externalId` is how
      the configuration names an adopted server. */
  function ToServerConfig(externalId: string -> string, moId: string, mo: ManagedObject): Option<ServerConfig> {
    if mo.client.None? then None
    else
      var client := mo.client.value;
      var enabled :=
        client.targetConnectionState.None? || !EqualsIgnoreCase(client.targetConnectionState.value, "disabled");
      var unsecured := client.securityMode.None? || EqualsIgnoreCase(client.securityMode.value, "none");
      if client.serverUrl.None? || Trim(client.serverUrl.value) == [] || !enabled || !unsecured then None
      else
        var credentials := CredentialsOf(client);
        if credentials.Unusable? then None
        else
          var user := if credentials.User? then Some(credentials.name) else None;
          var password := if credentials.User? then Some(credentials.password) else None;
          Some(ServerConfig(moId, mo.name.GetOr(moId), client.serverUrl.value, "None", user, password, [],
                            Some(externalId(moId)), Some(moId)))
  }

  /** The servers among the objects read in one poll, in the order read. */
  function Servers(externalId: string -> string, objects: seq<(string, ManagedObject)>): seq<ServerConfig> {
    if objects == [] then []
    else
      var (id, mo) := objects[0];
      var server := if mo.kind == Some(SERVER_MO_TYPE) then ToServerConfig(externalId, id, mo) else None;
      (if server.Some? then [server.value] else []) + Servers(externalId, objects[1..])
  }

  // ---- which objects are servers ----

  predicate IsDisabled(client: ClientConfig) {
    client.targetConnectionState.Some? && EqualsIgnoreCase(client.targetConnectionState.value, "disabled")
  }

  predicate IsSecured(client: ClientConfig) {
    client.securityMode.Some? && !EqualsIgnoreCase(client.securityMode.value, "none")
  }

  /** Nothing says that a user is to be authenticated. */
  predicate IsAnonymous(client: ClientConfig) {
    client.userIdentityMode.Some? ==> EqualsIgnoreCase(client.userIdentityMode.value, "anonymous")
  }

  /** A user name, and a password that can be read here. */
  predicate HasCredentials(client: ClientConfig) {
    && client.passwordEncrypted != Some(true)
    && client.userName.Some? && !IsBlank(client.userName.value)
    && client.userPassword.Some? && client.userPassword.value != ""
  }

  /** The object has the configuration of a server that is to be started, and can be. */
  predicate IsStartable(mo: ManagedObject) {
    && mo.client.Some?
    && var client := mo.client.value;
       && client.serverUrl.Some? && !IsBlank(client.serverUrl.value)
       && !IsDisabled(client) && !IsSecured(client)
       && (IsAnonymous(client) || HasCredentials(client))
  }

  /** A managed object is read as a server exactly when it is startable, and every field is as authored. */
  lemma ServerExactlyWhen(externalId: string -> string, moId: string, mo: ManagedObject)
    ensures ToServerConfig(externalId, moId, mo).Some? <==> IsStartable(mo)
    ensures IsStartable(mo) ==>
      var s, client := ToServerConfig(externalId, moId, mo).value, mo.client.value;
      && s.id == moId && s.topicId == Some(moId) && s.externalId == Some(externalId(moId))
      && s.name == (if mo.name.Some? then mo.name.value else moId)
      && Some(s.url) == client.serverUrl && s.securityPolicy == "None" && s.deviceTypes == []
      && s.user == (if IsAnonymous(client) then None else client.userName)
      && s.password == (if IsAnonymous(client) then None else client.userPassword)
  {
    if mo.client.Some? {
      BlankIsTrimmedAway(mo.client.value.serverUrl.GetOr(""));
      BlankIsTrimmedAway(mo.client.value.userName.GetOr(""));
      assert EqualsIgnoreCase("Anonymous", "anonymous") by {
        EqualButForCase("Anonymous", "anonymous");
      }
    }
  }

  /** Object `j` is the first of this id that is read as a server. */
  predicate IsFirstServer(objects: seq<(string, ManagedObject)>, j: nat, id: string)
    requires j < |objects|
  {
    && IsServerObject(objects[j], id)
    && forall k :: 0 <= k < j ==> !IsServerObject(objects[k], id)
  }

  predicate IsServerObject(child: (string, ManagedObject), id: string) {
    child.0 == id && child.1.kind == Some("c8y_OpcuaServer") && IsStartable(child.1)
  }

  /** Of the objects read in one poll the first startable server of an id gives the server of that id, and
      without one there is none. */
  lemma {:induction false} FirstServerRead(externalId: string -> string, objects: seq<(string, ManagedObject)>,
                                           id: string)
    ensures First(Servers(externalId, objects), id).None? <==>
      forall j :: 0 <= j < |objects| ==> !IsServerObject(objects[j], id)
    ensures forall j | 0 <= j < |objects| && IsFirstServer(objects, j, id) ::
      First(Servers(externalId, objects), id) == ToServerConfig(externalId, id, objects[j].1)
  {
    if objects != [] {
      var rest := objects[1..];
      FirstServerRead(externalId, rest, id);
      ServerExactlyWhen(externalId, objects[0].0, objects[0].1);
      assert forall j :: 0 < j < |objects| ==> rest[j - 1] == objects[j];
      FirstBehind(externalId, objects, id);
      forall j | 0 <= j < |objects| && IsFirstServer(objects, j, id)
        ensures First(Servers(externalId, objects), id) == ToServerConfig(externalId, id, objects[j].1)
      {
        if j > 0 {
          assert IsFirstServer(rest, j - 1, id);
        }
      }
      if forall j :: 0 <= j < |objects| ==> !IsServerObject(objects[j], id) {
        assert forall j :: 0 <= j < |rest| ==> rest[j] == objects[j + 1];
      }
    }
  }

  lemma FirstBehind(externalId: string -> string, objects: seq<(string, ManagedObject)>, id: string)
    requires objects != []
    ensures First(Servers(externalId, objects), id) ==
      if IsServerObject(objects[0], id) then ToServerConfig(externalId, id, objects[0].1)
      else First(Servers(externalId, objects[1..]), id)
  {
    ServerExactlyWhen(externalId, objects[0].0, objects[0].1);
    var server := ToServerConfig(externalId, objects[0].0, objects[0].1);
    var rest := Servers(externalId, objects[1..]);
    if objects[0].1.kind == Some(SERVER_MO_TYPE) && server.Some? {
      assert ([server.value] + rest)[1..] == rest;
    } else {
      assert [] + rest == rest;
    }
  }

  // ---- adopted servers ----

  /** A managed object that asks for this server. */
  function ObjectOf(s: ServerConfig): ManagedObject {
    var mode := if s.user.Some? then Some("UserName") else None;
    ManagedObject(Some(SERVER_MO_TYPE), Some(s.name),
                  Some(ClientConfig(Some(s.url), None, None, mode, None, s.user, s.password)))
  }

  /** The adopted servers are exactly those some managed object asks for. */
  lemma ServerConfigIsAdopted(externalId: string -> string, s: ServerConfig)
    ensures IsAdopted(externalId, s) <==> exists mo :: ToServerConfig(externalId, s.id, mo) == Some(s)
  {
    if IsAdopted(externalId, s) {
      AdoptedHasAnObject(externalId, s);
    }
    forall mo | ToServerConfig(externalId, s.id, mo) == Some(s) ensures IsAdopted(externalId, s) {
      ObjectGivesAdopted(externalId, s.id, mo);
    }
  }

  lemma ObjectGivesAdopted(externalId: string -> string, moId: string, mo: ManagedObject)
    ensures
      var s := ToServerConfig(externalId, moId, mo);
      s.Some? ==> s.value.id == moId && IsAdopted(externalId, s.value)
  {
    if mo.client.Some? {
      BlankIsTrimmedAway(mo.client.value.serverUrl.GetOr(""));
      BlankIsTrimmedAway(mo.client.value.userName.GetOr(""));
    }
  }

  lemma AdoptedHasAnObject(externalId: string -> string, s: ServerConfig)
    requires IsAdopted(externalId, s)
    ensures ToServerConfig(externalId, s.id, ObjectOf(s)) == Some(s)
  {
    BlankIsTrimmedAway(s.url);
    BlankIsTrimmedAway(s.user.GetOr(""));
    assert |LowerAll("UserName")| != |LowerAll("anonymous")|;
  }

  lemma {:induction false} ServersAreAdopted(externalId: string -> string, objects: seq<(string, ManagedObject)>)
    ensures forall s :: s in Servers(externalId, objects) ==> IsAdopted(externalId, s)
  {
    if objects != [] {
      ObjectGivesAdopted(externalId, objects[0].0, objects[0].1);
      ServersAreAdopted(externalId, objects[1..]);
    }
  }

  // ---- the provider ----

  datatype Lookup = Found(moId: string) | Missing | LookupFailed
  datatype Fetch = Read(objects: seq<(string, ManagedObject)>) | Transient | Gone | Refused

  /** One turn of the poll loop; the parts not asked for are not looked at. */
  datatype Turn = Turn(lookup: Lookup, fetch: Fetch)

  datatype State = State(backoff: nat, gatewayMoId: Option<string>, revision: string, misses: nat,
                         channel: Channel<seq<ServerConfig>>)

  const INITIAL := State(Backoff.FIRST, None, "", 0, Channel(0, []))

  function AfterLookup(s: State, lookup: Lookup, max: nat): State {
    if s.gatewayMoId.Some? then s
    else
      match lookup
      case Found(id) => s.(gatewayMoId := Some(id), misses := 0, backoff := Backoff.FIRST)
      case Missing => s.(misses := s.misses + 1, backoff := Backoff.Next(s.backoff, max))
      case LookupFailed => s.(backoff := Backoff.Next(s.backoff, max))
  }

  function AfterFetch(externalId: string -> string, s: State, fetch: Fetch, max: nat): State {
    if s.gatewayMoId.None? then s
    else
      match fetch
      case Read(objects) =>
        var servers := Servers(externalId, objects);
        var settled := s.(backoff := Backoff.FIRST);
        if RevisionOf(servers) == s.revision then settled
        else settled.(revision := RevisionOf(servers), channel := s.channel.Send(servers))
      case Transient => s.(backoff := Backoff.Next(s.backoff, max))
      case Gone => s.(gatewayMoId := None)
      case Refused => s
  }

  function AfterTurn(externalId: string -> string, s: State, turn: Turn, max: nat): State {
    AfterFetch(externalId, AfterLookup(s, turn.lookup, max), turn.fetch, max)
  }

  /** How long the provider waits after a turn. */
  function DelayOf(s: State, turn: Turn, max: nat, pollInterval: nat): nat {
    var looked := AfterLookup(s, turn.lookup, max);
    if looked.gatewayMoId.None? then s.backoff
    else if turn.fetch.Transient? then looked.backoff
    else pollInterval
  }

  /** Whether a turn brings the fifth miss. */
  predicate HelpIsDue(s: State, turn: Turn, max: nat) {
    && s.gatewayMoId.None? && turn.lookup.Missing?
    && AfterLookup(s, turn.lookup, max).misses == MISSES_BEFORE_HELP
  }

  class Provider {
    const externalId: string -> string
    const maxBackoff: nat
    const pollInterval: nat
    var backoff: nat
    var gatewayMoId: Option<string>
    var revision: string
    var misses: nat
    var channel: Channel<seq<ServerConfig>>

    constructor (externalId: string -> string, maxBackoff: nat, pollInterval: nat)
      ensures Current() == INITIAL
      ensures this.externalId == externalId && this.maxBackoff == maxBackoff && this.pollInterval == pollInterval
    {
      this.externalId, this.maxBackoff, this.pollInterval := externalId, maxBackoff, pollInterval;
      backoff, gatewayMoId, revision, misses, channel := Backoff.FIRST, None, "", 0, Channel(0, []);
    }

    ghost function Current(): State
      reads this
    {
      State(backoff, gatewayMoId, revision, misses, channel)
    }

    /** Look the gateway object up while it is unknown; `help` is due at the fifth miss since it was known. */
    method LookUp(lookup: Lookup) returns (delay: nat, help: bool)
      modifies this
      ensures Current() == AfterLookup(old(Current()), lookup, maxBackoff)
      ensures delay == if gatewayMoId.Some? then pollInterval else old(backoff)
      ensures help <==> old(gatewayMoId).None? && lookup.Missing? && misses == MISSES_BEFORE_HELP
    {
      delay, help := pollInterval, false;
      if gatewayMoId.None? {
        match lookup {
          case Found(id) =>
            gatewayMoId, misses, backoff := Some(id), 0, Backoff.FIRST;
          case Missing =>
            misses := misses + 1;
            help := misses == MISSES_BEFORE_HELP;
            delay := backoff;
            backoff := Backoff.Next(backoff, maxBackoff);
          case LookupFailed =>
            delay := backoff;
            backoff := Backoff.Next(backoff, maxBackoff);
        }
      }
    }

    /** One poll. Without a consumer left the send fails, the channel keeps its value and the
        provider stops. */
    method Poll(turn: Turn, consumed: bool) returns (delay: nat, help: bool, stop: bool)
      modifies this
      ensures !stop ==> Current() == AfterTurn(externalId, old(Current()), turn, maxBackoff)
      ensures stop <==> !consumed && AfterTurn(externalId, old(Current()), turn, maxBackoff).channel != old(channel)
      ensures stop ==> Current() == AfterTurn(externalId, old(Current()), turn, maxBackoff).(channel := old(channel))
      ensures delay == DelayOf(old(Current()), turn, maxBackoff, pollInterval)
      ensures help <==> HelpIsDue(old(Current()), turn, maxBackoff)
    {
      stop := false;
      delay, help := LookUp(turn.lookup);
      if gatewayMoId.Some? {
        match turn.fetch {
          case Read(objects) =>
            var servers := Servers(externalId, objects);
            backoff := Backoff.FIRST;
            var latest := BuildRevision(servers);
            if latest != revision {
              revision := latest;
              if consumed {
                channel := channel.Send(servers);
              } else {
                stop := true;
              }
            }
          case Transient =>
            delay := backoff;
            backoff := Backoff.Next(backoff, maxBackoff);
          case Gone =>
            gatewayMoId := None;
          case Refused =>
        }
      }
    }
  }

  // ---- over all polls ----

  function Run(externalId: string -> string, turns: seq<Turn>, max: nat): State {
    if turns == [] then INITIAL
    else
      var n := |turns| - 1;
      AfterTurn(externalId, Run(externalId, turns[..n], max), turns[n], max)
  }

  /** What the turn read from Cumulocity, if it got that far. */
  function ReadIn(externalId: string -> string, s: State, turn: Turn, max: nat): Option<seq<ServerConfig>> {
    if AfterLookup(s, turn.lookup, max).gatewayMoId.Some? && turn.fetch.Read?
    then Some(Servers(externalId, turn.fetch.objects)) else None
  }

  /** The list of the last poll that read one; empty before the first. */
  function LastRead(externalId: string -> string, turns: seq<Turn>, max: nat): seq<ServerConfig> {
    if turns == [] then []
    else
      var n := |turns| - 1;
      ReadIn(externalId, Run(externalId, turns[..n], max), turns[n], max).GetOr(LastRead(externalId, turns[..n], max))
  }

  /** The objects of the last poll that read a list; none before the first. */
  function LastObjects(externalId: string -> string, turns: seq<Turn>, max: nat): seq<(string, ManagedObject)> {
    if turns == [] then []
    else
      var n := |turns| - 1;
      if AfterLookup(Run(externalId, turns[..n], max), turns[n].lookup, max).gatewayMoId.Some? && turns[n].fetch.Read?
      then turns[n].fetch.objects else LastObjects(externalId, turns[..n], max)
  }

  lemma {:induction false} LastReadIsOfObjects(externalId: string -> string, turns: seq<Turn>, max: nat)
    ensures LastRead(externalId, turns, max) == Servers(externalId, LastObjects(externalId, turns, max))
  {
    if turns != [] {
      LastReadIsOfObjects(externalId, turns[..|turns| - 1], max);
    }
  }

  predicate CleanTurns(externalId: string -> string, turns: seq<Turn>) {
    forall i :: 0 <= i < |turns| && turns[i].fetch.Read? ==>
      forall s :: s in Servers(externalId, turns[i].fetch.objects) ==> IsClean(s)
  }

  lemma {:induction false} LastReadIsClean(externalId: string -> string, turns: seq<Turn>, max: nat)
    requires CleanTurns(externalId, turns)
    ensures AllCleanAdopted(externalId, LastRead(externalId, turns, max))
  {
    if turns != [] {
      var n := |turns| - 1;
      LastReadIsClean(externalId, turns[..n], max);
      if turns[n].fetch.Read? {
        ServersAreAdopted(externalId, turns[n].fetch.objects);
      }
    }
  }

  /** After any polls the revision is that of the list on the channel. */
  lemma {:induction false} RevisionIsOfTheChannel(externalId: string -> string, turns: seq<Turn>, max: nat)
    ensures Run(externalId, turns, max).revision == RevisionOf(Run(externalId, turns, max).channel.value)
  {
    if turns != [] {
      var n := |turns| - 1;
      RevisionIsOfTheChannel(externalId, turns[..n], max);
      OneTurn(externalId, Run(externalId, turns[..n], max), turns[n], max);
    }
  }

  /** One turn from a state whose revision is that of its channel. */
  lemma OneTurn(externalId: string -> string, s: State, turn: Turn, max: nat)
    requires s.revision == RevisionOf(s.channel.value)
    ensures
      var read, next := ReadIn(externalId, s, turn, max), AfterTurn(externalId, s, turn, max);
      && next.revision == RevisionOf(next.channel.value)
      && next.channel == (if read.Some? && RevisionOf(read.value) != RevisionOf(s.channel.value)
                          then s.channel.Send(read.value) else s.channel)
  {
    LookupKeeps(s, turn.lookup, max);
  }

  lemma LookupKeeps(s: State, lookup: Lookup, max: nat)
    ensures AfterLookup(s, lookup, max).channel == s.channel && AfterLookup(s, lookup, max).revision == s.revision
  {
  }

  /** After any polls of clean lists the channel holds exactly the list read last, and the last poll
      sent exactly when it read a different list. */
  lemma {:induction false} ChannelHoldsTheLastRead(externalId: string -> string, turns: seq<Turn>, max: nat)
    requires CleanTurns(externalId, turns)
    ensures Run(externalId, turns, max).channel.value == LastRead(externalId, turns, max)
    ensures turns != [] ==>
      var before := turns[..|turns| - 1];
      Run(externalId, turns, max).channel.version == Run(externalId, before, max).channel.version
        + (if LastRead(externalId, turns, max) != LastRead(externalId, before, max) then 1 else 0)
  {
    if turns != [] {
      var n := |turns| - 1;
      var s := Run(externalId, turns[..n], max);
      ChannelHoldsTheLastRead(externalId, turns[..n], max);
      RevisionIsOfTheChannel(externalId, turns[..n], max);
      OneTurn(externalId, s, turns[n], max);
      var past, latest := LastRead(externalId, turns[..n], max), LastRead(externalId, turns, max);
      assert latest == ReadIn(externalId, s, turns[n], max).GetOr(past);
      LastReadIsClean(externalId, turns[..n], max);
      LastReadIsClean(externalId, turns, max);
      RevisionIsFaithful(externalId, past, latest);
    }
  }

  /** After every poll the channel held the list read last. */
  predicate AlwaysCurrent(externalId: string -> string, turns: seq<Turn>, max: nat) {
    turns == [] ||
    (AlwaysCurrent(externalId, turns[..|turns| - 1], max)
     && Run(externalId, turns, max).channel.value == LastRead(externalId, turns, max))
  }

  /** No poll read another list with the fingerprint of the one before. */
  predicate NeverMasked(externalId: string -> string, turns: seq<Turn>, max: nat) {
    turns == [] ||
    var before := turns[..|turns| - 1];
    var past, latest := LastRead(externalId, before, max), LastRead(externalId, turns, max);
    NeverMasked(externalId, before, max) && (RevisionOf(past) == RevisionOf(latest) ==> past == latest)
  }

  /** Whatever the fields hold, the channel is current after every poll exactly when no change was
      masked by an equal fingerprint. */
  lemma {:induction false} CurrentIffNeverMasked(externalId: string -> string, turns: seq<Turn>, max: nat)
    ensures AlwaysCurrent(externalId, turns, max) <==> NeverMasked(externalId, turns, max)
  {
    if turns != [] {
      var n := |turns| - 1;
      var s := Run(externalId, turns[..n], max);
      CurrentIffNeverMasked(externalId, turns[..n], max);
      RevisionIsOfTheChannel(externalId, turns[..n], max);
      OneTurn(externalId, s, turns[n], max);
      if AlwaysCurrent(externalId, turns[..n], max) {
        CurrentSoFar(externalId, turns[..n], max);
        assert LastRead(externalId, turns, max) == ReadIn(externalId, s, turns[n], max).GetOr(s.channel.value);
      }
    }
  }

  lemma CurrentSoFar(externalId: string -> string, turns: seq<Turn>, max: nat)
    requires AlwaysCurrent(externalId, turns, max)
    ensures Run(externalId, turns, max).channel.value == LastRead(externalId, turns, max)
  {
  }

  /** Separators in fields mask a change: the same child is read with one name and URL, then with
      others, and the channel keeps the first. */
  lemma SeparatorsMaskAChange(externalId: string -> string, max: nat)
    returns (before: ManagedObject, after: ManagedObject, turns: seq<Turn>)
    ensures turns == [Turn(Found("0"), Read([("1", before)])), Turn(Found("0"), Read([("1", after)]))]
    ensures ToServerConfig(externalId, "1", before).Some? && ToServerConfig(externalId, "1", after).Some?
    ensures Run(externalId, turns, max).channel.value == [ToServerConfig(externalId, "1", before).value]
    ensures LastRead(externalId, turns, max) == [ToServerConfig(externalId, "1", after).value]
    ensures Run(externalId, turns, max).channel.value != LastRead(externalId, turns, max)
  {
    var a, b := MaskedPair(externalId);
    before, after := ObjectOf(a), ObjectOf(b);
    AdoptedHasAnObject(externalId, a);
    AdoptedHasAnObject(externalId, b);
    turns := [Turn(Found("0"), Read([("1", before)])), Turn(Found("0"), Read([("1", after)]))];
    MaskedRun(externalId, max, a, b, turns);
  }

  lemma MaskedPair(externalId: string -> string) returns (a: ServerConfig, b: ServerConfig)
    ensures IsAdopted(externalId, a) && IsAdopted(externalId, b) && a.id == b.id == "1"
    ensures a != b && Record(a) == Record(b)
  {
    a := ServerConfig("1", "n" + [FIELD_END] + "u", "v", "None", None, None, [], Some(externalId("1")), Some("1"));
    assert a.name[1] == FIELD_END && "v"[0] == 'v';
    b := NameCollides(externalId, a, 1);
  }

  lemma OneObject(externalId: string -> string, s: ServerConfig)
    requires IsAdopted(externalId, s)
    ensures Servers(externalId, [(s.id, ObjectOf(s))]) == [s]
  {
    AdoptedHasAnObject(externalId, s);
    assert [(s.id, ObjectOf(s))][1..] == [];
  }

  lemma OneTurnRun(externalId: string -> string, turn: Turn, max: nat)
    ensures Run(externalId, [turn], max) == AfterTurn(externalId, INITIAL, turn, max)
  {
    assert [turn][..0] == [];
    assert Run(externalId, [turn][..0], max) == INITIAL;
  }

  lemma MaskedRun(externalId: string -> string, max: nat, a: ServerConfig, b: ServerConfig, turns: seq<Turn>)
    requires IsAdopted(externalId, a) && IsAdopted(externalId, b) && a.id == b.id == "1"
    requires a != b && Record(a) == Record(b)
    requires turns == [Turn(Found("0"), Read([("1", ObjectOf(a))])), Turn(Found("0"), Read([("1", ObjectOf(b))]))]
    ensures Run(externalId, turns, max).channel.value == [a] && LastRead(externalId, turns, max) == [b]
    ensures [a] != [b]
  {
    OneObject(externalId, a);
    OneObject(externalId, b);
    SingleRevision(a);
    SingleRevision(b);
    assert turns[..1] == [turns[0]];
    OneTurnRun(externalId, turns[0], max);
    var s := Run(externalId, turns[..1], max);
    assert s.gatewayMoId.Some? && s.channel.value == [a] && s.revision == RevisionOf([a]);
    assert [a][0] != [b][0];
  }

  // ---- repeated children ----

  /** Cumulocity can name a child twice, read between two edits: such a list has two settings of one id
      that no device configuration may have. */
  lemma ChildReadTwice(externalId: string -> string, s: ServerConfig, other: ServerConfig)
    returns (objects: seq<(string, ManagedObject)>)
    requires IsAdopted(externalId, s) && IsAdopted(externalId, other) && s.id == other.id && s != other
    ensures forall i :: 0 <= i < |objects| ==> objects[i].0 == s.id
    ensures Merged(Servers(externalId, objects), []) == [s, other]
    ensures Supervisor.HasTwoSettings([s, other], s.id) && !UniqueIds([s, other])
  {
    objects := [(s.id, ObjectOf(s)), (s.id, ObjectOf(other))];
    AdoptedHasAnObject(externalId, s);
    OneObject(externalId, other);
    assert objects[1..] == [(other.id, ObjectOf(other))];
    var list := [s, other];
    assert list[0].id == list[1].id;
  }
}
