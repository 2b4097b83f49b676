/** The fingerprint by which an unchanged poll of the cloud servers publishes nothing
    (crates/gateway/src/cloud_servers.rs). */
module Fingerprint {
  import opened Text
  import opened Config

  const FIELD_END: char := 1 as char
  const SERVER_END: char := 2 as char

  function Fields(s: ServerConfig): seq<string> {
    [s.id, s.name, s.url, s.securityPolicy, s.user.GetOr(""), s.password.GetOr("")]
  }

  function Record(s: ServerConfig): string {
    JoinWith(Fields(s), FIELD_END)
  }

  lemma RecordUnfolds(s: ServerConfig)
    ensures
      var e, f := [FIELD_END], Fields(s);
      Record(s) == f[0] + e + (f[1] + e + (f[2] + e + (f[3] + e + (f[4] + e + f[5]))))
  {
    var f := Fields(s);
    assert f[5..] == [f[5]];
    JoinFrom(f, 4);
    JoinFrom(f, 3);
    JoinFrom(f, 2);
    JoinFrom(f, 1);
    JoinFrom(f, 0);
    assert f[0..] == f;
  }

  lemma JoinFrom(f: seq<string>, k: nat)
    requires k + 1 < |f|
    ensures JoinWith(f[k..], FIELD_END) == f[k] + [FIELD_END] + JoinWith(f[k + 1..], FIELD_END)
  {
    assert f[k..][1..] == f[k + 1..] && f[k..][0] == f[k];
  }

  function RevisionOf(servers: seq<ServerConfig>): string {
    if servers == [] then [] else Record(servers[0]) + [SERVER_END] + RevisionOf(servers[1..])
  }

  lemma {:induction false} RevisionAppend(servers: seq<ServerConfig>, s: ServerConfig)
    ensures RevisionOf(servers + [s]) == RevisionOf(servers) + Record(s) + [SERVER_END]
  {
    if servers != [] {
      RevisionAppend(servers[1..], s);
      assert (servers + [s])[1..] == servers[1..] + [s];
    } else {
      assert (servers + [s])[1..] == [];
    }
  }

  /** The fingerprint as the loop builds it, one field at a time. */
  method BuildRevision(servers: seq<ServerConfig>) returns (out: string)
    ensures out == RevisionOf(servers)
  {
    out := "";
    for i := 0 to |servers|
      invariant out == RevisionOf(servers[..i])
    {
      var server := servers[i];
      ghost var before := out;
      out := out + server.id + [FIELD_END] + server.name + [FIELD_END];
      out := out + server.url + [FIELD_END] + server.securityPolicy + [FIELD_END];
      out := out + server.user.GetOr("") + [FIELD_END] + server.password.GetOr("") + [SERVER_END];
      assert servers[..i + 1] == servers[..i] + [server];
      RevisionAppend(servers[..i], server);
      RecordIsConcatenation(before, server);
    }
    assert servers[..|servers|] == servers;
  }

  lemma RecordIsConcatenation(before: string, s: ServerConfig)
    ensures before + s.id + [FIELD_END] + s.name + [FIELD_END] + s.url + [FIELD_END] + s.securityPolicy + [FIELD_END]
              + s.user.GetOr("") + [FIELD_END] + s.password.GetOr("") + [SERVER_END]
         == before + Record(s) + [SERVER_END]
  {
    RecordUnfolds(s);
    var head := before + s.id + [FIELD_END] + s.name + [FIELD_END];
    var tail := s.user.GetOr("") + [FIELD_END] + s.password.GetOr("");
    assert head + s.url + [FIELD_END] + s.securityPolicy + [FIELD_END] + s.user.GetOr("") + [FIELD_END]
      + s.password.GetOr("")
        == head + (s.url + [FIELD_END] + (s.securityPolicy + [FIELD_END] + tail));
    var rest := s.url + [FIELD_END] + (s.securityPolicy + [FIELD_END] + tail);
    assert head + rest == before + (s.id + [FIELD_END] + (s.name + [FIELD_END] + rest));
  }

  /** The shape of every server read from Cumulocity under one configuration. */
  predicate IsAdopted(externalId: string -> string, s: ServerConfig) {
    && s.securityPolicy == "None" && s.deviceTypes == []
    && s.externalId == Some(externalId(s.id)) && s.topicId == Some(s.id)
    && !IsBlank(s.url) && s.user.Some? == s.password.Some?
    && (s.user.Some? ==> !IsBlank(s.user.value) && s.password.value != "")
  }

  /** No field holds a separator of the fingerprint. */
  predicate IsClean(s: ServerConfig) {
    forall field :: field in Fields(s) ==> FIELD_END !in field && SERVER_END !in field
  }

  predicate AllCleanAdopted(externalId: string -> string, servers: seq<ServerConfig>) {
    forall s :: s in servers ==> IsClean(s) && IsAdopted(externalId, s)
  }

  lemma RecordFields(s: ServerConfig)
    requires IsClean(s)
    ensures SplitOn(Record(s), FIELD_END) == Fields(s)
    ensures SERVER_END !in Record(s)
  {
    SplitJoin(Fields(s), FIELD_END);
    NotInJoin(Fields(s), FIELD_END, SERVER_END);
  }

  lemma RecordIsFaithful(externalId: string -> string, a: ServerConfig, b: ServerConfig)
    requires IsClean(a) && IsClean(b) && IsAdopted(externalId, a) && IsAdopted(externalId, b)
    requires Record(a) == Record(b)
    ensures a == b
  {
    RecordFields(a);
    RecordFields(b);
    var f, g := Fields(a), Fields(b);
    assert f[0] == g[0] && f[1] == g[1] && f[2] == g[2] && f[3] == g[3] && f[4] == g[4] && f[5] == g[5];
  }

  /** A fingerprint determines its first record and the fingerprint of the rest. */
  lemma FirstRecord(a: seq<ServerConfig>)
    requires a != [] && IsClean(a[0])
    ensures SplitOn(RevisionOf(a), SERVER_END)[0] == Record(a[0])
    ensures RevisionOf(a)[|Record(a[0])| + 1..] == RevisionOf(a[1..])
  {
    RecordFields(a[0]);
    SplitOnAppend(Record(a[0]), SERVER_END, RevisionOf(a[1..]));
  }

  /** Among lists of adopted servers without separators in their fields the fingerprint is faithful:
      it is equal exactly when the lists are. */
  lemma {:induction false} RevisionIsFaithful(externalId: string -> string, a: seq<ServerConfig>, b: seq<ServerConfig>)
    requires AllCleanAdopted(externalId, a) && AllCleanAdopted(externalId, b)
    ensures RevisionOf(a) == RevisionOf(b) <==> a == b
  {
    if a != [] && b != [] && RevisionOf(a) == RevisionOf(b) {
      assert a[0] in a && b[0] in b;
      FirstRecord(a);
      FirstRecord(b);
      RecordIsFaithful(externalId, a[0], b[0]);
      RevisionIsFaithful(externalId, a[1..], b[1..]);
      assert a == [a[0]] + a[1..] && b == [b[0]] + b[1..];
    }
  }

  // ---- which lists have a fingerprint of their own ----

  function Pieces(s: string): (pieces: seq<string>)
    ensures |pieces| >= 1
  {
    SplitOn(s, FIELD_END)
  }

  lemma RecordPieces(s: ServerConfig)
    ensures Pieces(Record(s)) ==
      Pieces(s.id) + Pieces(s.name) + Pieces(s.url) + Pieces(s.securityPolicy)
      + Pieces(s.user.GetOr("")) + Pieces(s.password.GetOr(""))
  {
    var e, user, password := [FIELD_END], s.user.GetOr(""), s.password.GetOr("");
    RecordUnfolds(s);
    var r4 := user + e + password;
    var r3 := s.securityPolicy + e + r4;
    var r2 := s.url + e + r3;
    var r1 := s.name + e + r2;
    assert Record(s) == s.id + e + r1;
    SplitOnConcat(user, FIELD_END, password);
    SplitOnConcat(s.securityPolicy, FIELD_END, r4);
    SplitOnConcat(s.url, FIELD_END, r3);
    SplitOnConcat(s.name, FIELD_END, r2);
    SplitOnConcat(s.id, FIELD_END, r1);
    Regroup(Pieces(s.id), Pieces(s.name), Pieces(s.url), Pieces(s.securityPolicy), Pieces(user), Pieces(password));
  }

  lemma Regroup<T>(a: seq<T>, b: seq<T>, c: seq<T>, d: seq<T>, e: seq<T>, f: seq<T>)
    ensures a + (b + (c + (d + (e + f)))) == a + b + c + d + e + f
  {
  }

  /** A separator in a URL that only blanks follow cannot end another URL. */
  predicate UrlIsPlain(url: string) {
    forall k :: 0 <= k < |url| && url[k] == FIELD_END ==> IsBlank(url[k + 1..])
  }

  /** A separator in a user name that only blanks precede cannot end another user name. */
  predicate UserIsPlain(user: string) {
    forall k :: 0 <= k < |user| && user[k] == FIELD_END ==> IsBlank(user[..k])
  }

  /** Only the last character of a password may be a separator. */
  predicate PasswordIsPlain(password: string) {
    forall k :: 0 <= k < |password| - 1 ==> password[k] != FIELD_END
  }

  /** A user name whose end reads as the policy of a server without a user. */
  predicate PosesAsPolicy(user: string, password: string) {
    password == [FIELD_END] && (user == "None" || EndsWith(user, [FIELD_END] + "None"))
  }

  /** What the fingerprint of a single server must not hold. */
  predicate IsUnambiguous(s: ServerConfig) {
    && FIELD_END !in s.id && FIELD_END !in s.name && UrlIsPlain(s.url)
    && UserIsPlain(s.user.GetOr("")) && PasswordIsPlain(s.password.GetOr(""))
    && !PosesAsPolicy(s.user.GetOr(""), s.password.GetOr(""))
  }

  // -- no other server has this record --

  lemma PlainPiece(s: string)
    requires FIELD_END !in s
    ensures Pieces(s) == [s]
  {
    SplitOnWhole(s, FIELD_END);
  }

  lemma BlankPiece(s: string)
    requires IsBlank(s)
    ensures FIELD_END !in s && Pieces(s) == [s]
  {
    SplitOnWhole(s, FIELD_END);
  }

  lemma UrlPieces(url: string)
    requires UrlIsPlain(url)
    ensures Pieces(url) == [url] || (|Pieces(url)| == 2 && IsBlank(Pieces(url)[1]))
  {
    var k := FirstIndexOf(url, FIELD_END);
    FirstIndexOfIsFirst(url, FIELD_END);
    if k.Some? {
      assert url == url[..k.value] + [FIELD_END] + url[k.value + 1..];
      SplitOnConcat(url[..k.value], FIELD_END, url[k.value + 1..]);
      PlainPiece(url[..k.value]);
      BlankPiece(url[k.value + 1..]);
    } else {
      PlainPiece(url);
    }
  }

  lemma UserPieces(user: string)
    requires UserIsPlain(user)
    ensures Pieces(user) == [user] || (|Pieces(user)| == 2 && IsBlank(Pieces(user)[0]))
    ensures |Pieces(user)| == 2 ==> user == Pieces(user)[0] + [FIELD_END] + Pieces(user)[1]
  {
    var k := LastIndexOf(user, FIELD_END);
    LastIndexOfIsLast(user, FIELD_END);
    if k.Some? {
      assert user == user[..k.value] + [FIELD_END] + user[k.value + 1..];
      SplitOnConcat(user[..k.value], FIELD_END, user[k.value + 1..]);
      BlankPiece(user[..k.value]);
      PlainPiece(user[k.value + 1..]);
    } else {
      PlainPiece(user);
    }
  }

  lemma PasswordPieces(password: string)
    requires PasswordIsPlain(password)
    ensures Pieces(password) == [password] || (|Pieces(password)| == 2 && Pieces(password)[1] == "")
    ensures |Pieces(password)| == 2 ==> password == Pieces(password)[0] + [FIELD_END]
  {
    if password != [] && password[|password| - 1] == FIELD_END {
      var front := password[..|password| - 1];
      assert password == front + [FIELD_END] + "";
      SplitOnConcat(front, FIELD_END, "");
      PlainPiece(front);
      assert Pieces("") == [""];
    } else {
      PlainPiece(password);
    }
  }

  /** A list with "None" behind a front that ends in a blank can only have it there or later. */
  lemma PolicyIsNotEarlier(all: seq<string>, front: nat, head: nat)
    requires 3 <= front <= 4 && head >= 3 && head < |all| && front < |all|
    requires front == 4 ==> IsBlank(all[3])
    requires all[head] == "None"
    ensures head >= front
  {
    assert "None"[0] == 'N' && !IsBlank("None");
  }

  /** A later "None" with at least two pieces behind it is the end of the user name, and the password
      is the rest. */
  lemma LaterPolicy(p: seq<string>, q: seq<string>, j: nat)
    requires |p| == 1 || (|p| == 2 && IsBlank(p[0]))
    requires |q| == 1 || |q| == 2
    requires j + 2 < |p + q| && (p + q)[j] == "None"
    ensures j == |p| - 1 && |q| == 2 && p[j] == "None" && (p + q)[j + 1..] == q
  {
    assert "None"[0] == 'N' && !IsBlank("None");
    assert j < |p|;
    assert (p + q)[j] == p[j];
  }

  /** How the pieces of one record can be read as another: with the policy at the same place, or with
      the end of the user name as policy and no user. */
  lemma PolicyPlaces(front: seq<string>, p: seq<string>, q: seq<string>, head: seq<string>, r: seq<string>,
                     s: seq<string>)
    requires front + ["None"] + p + q == head + ["None"] + r + s
    requires |front| == 3 || (|front| == 4 && IsBlank(front[3]))
    requires |p| == 1 || (|p| == 2 && IsBlank(p[0]))
    requires |q| == 1 || (|q| == 2 && q[1] == "")
    requires |head| >= 3 && |r| >= 1 && |s| >= 1
    ensures
      || (head == front && r + s == p + q)
      || (|q| == 2 && p[|p| - 1] == "None" && r + s == q)
  {
    var all, rest, tail := front + ["None"] + p + q, p + q, r + s;
    Behind(front, rest, p, q);
    Behind(head, tail, r, s);
    PolicyIsNotEarlier(all, |front|, |head|);
    if |head| > |front| {
      var j := |head| - |front| - 1;
      assert all[|front| + 1 + j] == rest[j];
      LaterPolicy(p, q, j);
      assert all[|head| + 1..] == rest[j + 1..];
    }
  }

  lemma Behind(front: seq<string>, rest: seq<string>, p: seq<string>, q: seq<string>)
    requires rest == p + q
    ensures
      var all := front + ["None"] + p + q;
      && |all| == |front| + 1 + |rest|
      && all[..|front|] == front && all[|front|] == "None" && all[|front| + 1..] == rest
  {
  }

  /** Two readings of user and password with the same pieces are one. */
  lemma CredentialsAreOne(p: seq<string>, q: seq<string>, r: seq<string>, s: seq<string>)
    requires r + s == p + q && |r| >= 1 && |s| >= 1
    requires |p| == 1 || (|p| == 2 && IsBlank(p[0]))
    requires |q| == 1 || (|q| == 2 && q[1] == "")
    ensures (r == p && s == q) || (|r| == 1 && IsBlank(r[0]) && |s| >= 2) || (s == [""] && |r| >= 2)
  {
    var all := p + q;
    assert all[..|r|] == r && all[|r|..] == s && all[..|p|] == p && all[|p|..] == q;
  }

  lemma NoUserIsBlank(externalId: string -> string, s: ServerConfig)
    requires IsAdopted(externalId, s)
    ensures s.user.Some? <==> !IsBlank(s.user.GetOr(""))
    ensures s.user.Some? <==> s.password.GetOr("") != ""
  {
  }

  lemma OnePiece(s: string)
    requires |Pieces(s)| == 1
    ensures Pieces(s) == [s]
  {
    JoinSplit(s, FIELD_END);
  }

  /** Two readings of id, name and URL with the same pieces are one. */
  lemma HeadsAreOne(id: string, name: string, url: seq<string>, i: seq<string>, n: seq<string>, u: seq<string>)
    requires [id] + [name] + url == i + n + u && |i| >= 1 && |n| >= 1 && |u| >= 1
    requires |url| == 1 || (|url| == 2 && IsBlank(url[1]))
    requires |u| == 1 ==> !IsBlank(u[0])
    ensures i == [id] && n == [name] && u == url
  {
    var all := i + n + u;
    assert all[|all| - 1] == u[|u| - 1] == url[|url| - 1];
    assert |i| == 1 && |n| == 1;
    assert all[0] == i[0] && all[1] == n[0] && all[2..] == u;
    assert ([id] + [name] + url)[2..] == url;
  }

  /** With the policy at the same place, the fields before it are the same. */
  lemma HeadsAgree(externalId: string -> string, a: ServerConfig, b: ServerConfig)
    requires IsAdopted(externalId, b)
    requires FIELD_END !in a.id && FIELD_END !in a.name && UrlIsPlain(a.url)
    requires Pieces(a.id) + Pieces(a.name) + Pieces(a.url) == Pieces(b.id) + Pieces(b.name) + Pieces(b.url)
    ensures a.id == b.id && a.name == b.name && a.url == b.url
  {
    PlainPiece(a.id);
    PlainPiece(a.name);
    UrlPieces(a.url);
    if |Pieces(b.url)| == 1 {
      OnePiece(b.url);
    }
    HeadsAreOne(a.id, a.name, Pieces(a.url), Pieces(b.id), Pieces(b.name), Pieces(b.url));
    SamePieces(a.id, b.id, FIELD_END);
    SamePieces(a.name, b.name, FIELD_END);
    SamePieces(a.url, b.url, FIELD_END);
  }

  /** With the same pieces for user and password together, the users are the same. */
  lemma UsersAgree(externalId: string -> string, a: ServerConfig, b: ServerConfig)
    requires IsAdopted(externalId, a) && IsAdopted(externalId, b)
    requires UserIsPlain(a.user.GetOr("")) && PasswordIsPlain(a.password.GetOr(""))
    requires Pieces(a.user.GetOr("")) + Pieces(a.password.GetOr(""))
          == Pieces(b.user.GetOr("")) + Pieces(b.password.GetOr(""))
    ensures a.user == b.user && a.password == b.password
  {
    var p, q := Pieces(a.user.GetOr("")), Pieces(a.password.GetOr(""));
    var r, s := Pieces(b.user.GetOr("")), Pieces(b.password.GetOr(""));
    UserPieces(a.user.GetOr(""));
    PasswordPieces(a.password.GetOr(""));
    assert Pieces("") == [""];
    if |r| == 1 {
      OnePiece(b.user.GetOr(""));
    }
    if |s| == 1 {
      OnePiece(b.password.GetOr(""));
    }
    NoUserIsBlank(externalId, b);
    CredentialsAreOne(p, q, r, s);
    SamePieces(a.user.GetOr(""), b.user.GetOr(""), FIELD_END);
    SamePieces(a.password.GetOr(""), b.password.GetOr(""), FIELD_END);
  }

  /** An unambiguous server shares its record with no other. */
  lemma UnambiguousIsUnique(externalId: string -> string, a: ServerConfig, b: ServerConfig)
    requires IsAdopted(externalId, a) && IsAdopted(externalId, b)
    requires IsUnambiguous(a) && Record(a) == Record(b)
    ensures a == b
  {
    RecordPieces(a);
    RecordPieces(b);
    PlainPiece("None");
    var p, q := Pieces(a.user.GetOr("")), Pieces(a.password.GetOr(""));
    var r, s := Pieces(b.user.GetOr("")), Pieces(b.password.GetOr(""));
    var front, head := Pieces(a.id) + Pieces(a.name) + Pieces(a.url), Pieces(b.id) + Pieces(b.name) + Pieces(b.url);
    PlainPiece(a.id);
    PlainPiece(a.name);
    UrlPieces(a.url);
    UserPieces(a.user.GetOr(""));
    PasswordPieces(a.password.GetOr(""));
    PolicyPlaces(front, p, q, head, r, s);
    NotAsPolicy(externalId, a, b);
    HeadsAgree(externalId, a, b);
    UsersAgree(externalId, a, b);
  }

  /** The end of an unambiguous server's user name is never read as a policy. */
  lemma NotAsPolicy(externalId: string -> string, a: ServerConfig, b: ServerConfig)
    requires IsAdopted(externalId, b) && IsUnambiguous(a)
    ensures
      var p, q := Pieces(a.user.GetOr("")), Pieces(a.password.GetOr(""));
      !(|q| == 2 && p[|p| - 1] == "None" && Pieces(b.user.GetOr("")) + Pieces(b.password.GetOr("")) == q)
  {
    var p, q := Pieces(a.user.GetOr("")), Pieces(a.password.GetOr(""));
    var r, s := Pieces(b.user.GetOr("")), Pieces(b.password.GetOr(""));
    UserPieces(a.user.GetOr(""));
    PasswordPieces(a.password.GetOr(""));
    if |q| == 2 && r + s == q {
      assert r == [q[0]] && s == [q[1]];
      OnePiece(b.user.GetOr(""));
      OnePiece(b.password.GetOr(""));
      NoUserIsBlank(externalId, b);
      assert a.password.GetOr("") == [FIELD_END];
    }
  }

  // -- another server has this record --

  lemma PiecesAround(s: string, k: nat)
    requires k < |s| && s[k] == FIELD_END
    ensures Pieces(s) == Pieces(s[..k]) + Pieces(s[k + 1..])
    ensures !IsBlank(s)
  {
    assert s == s[..k] + [FIELD_END] + s[k + 1..];
    SplitOnConcat(s[..k], FIELD_END, s[k + 1..]);
  }

  lemma PiecesBetween(a: string, b: string)
    ensures Pieces(a + [FIELD_END] + b) == Pieces(a) + Pieces(b)
    ensures !IsBlank(a + [FIELD_END] + b)
  {
    SplitOnConcat(a, FIELD_END, b);
    assert (a + [FIELD_END] + b)[|a|] == FIELD_END;
  }

  /** Records with the same pieces, field by field taken together, are the same. */
  lemma SameRecord(a: ServerConfig, b: ServerConfig)
    requires a.securityPolicy == b.securityPolicy
    requires Pieces(a.id) + Pieces(a.name) + Pieces(a.url) == Pieces(b.id) + Pieces(b.name) + Pieces(b.url)
    requires Pieces(a.user.GetOr("")) + Pieces(a.password.GetOr(""))
          == Pieces(b.user.GetOr("")) + Pieces(b.password.GetOr(""))
    ensures Record(a) == Record(b)
  {
    RecordPieces(a);
    RecordPieces(b);
    var policy := Pieces(a.securityPolicy);
    var front := Pieces(a.id) + Pieces(a.name) + Pieces(a.url);
    var p, q := Pieces(a.user.GetOr("")), Pieces(a.password.GetOr(""));
    var r, s := Pieces(b.user.GetOr("")), Pieces(b.password.GetOr(""));
    assert front + policy + p + q == front + policy + (p + q);
    assert front + policy + r + s == front + policy + (r + s);
    SamePieces(Record(a), Record(b), FIELD_END);
  }

  function Renamed(externalId: string -> string, a: ServerConfig, id: string, name: string, url: string): ServerConfig {
    a.(id := id, name := name, url := url, externalId := Some(externalId(id)), topicId := Some(id))
  }

  lemma IdCollides(externalId: string -> string, a: ServerConfig, k: nat) returns (b: ServerConfig)
    requires IsAdopted(externalId, a) && k < |a.id| && a.id[k] == FIELD_END
    ensures IsAdopted(externalId, b) && Record(b) == Record(a) && b != a
  {
    var url := a.name + [FIELD_END] + a.url;
    b := Renamed(externalId, a, a.id[..k], a.id[k + 1..], url);
    PiecesAround(a.id, k);
    PiecesBetween(a.name, a.url);
    SameRecord(b, a);
    assert |b.id| < |a.id|;
  }

  lemma NameCollides(externalId: string -> string, a: ServerConfig, k: nat) returns (b: ServerConfig)
    requires IsAdopted(externalId, a) && k < |a.name| && a.name[k] == FIELD_END
    ensures IsAdopted(externalId, b) && Record(b) == Record(a) && b != a && b.id == a.id
  {
    b := Renamed(externalId, a, a.id, a.name[..k], a.name[k + 1..] + [FIELD_END] + a.url);
    PiecesAround(a.name, k);
    PiecesBetween(a.name[k + 1..], a.url);
    SameRecord(b, a);
    assert |b.name| < |a.name|;
  }

  lemma UrlCollides(externalId: string -> string, a: ServerConfig, k: nat) returns (b: ServerConfig)
    requires IsAdopted(externalId, a) && k < |a.url| && a.url[k] == FIELD_END && !IsBlank(a.url[k + 1..])
    ensures IsAdopted(externalId, b) && Record(b) == Record(a) && b != a
  {
    b := Renamed(externalId, a, a.id, a.name + [FIELD_END] + a.url[..k], a.url[k + 1..]);
    PiecesAround(a.url, k);
    PiecesBetween(a.name, a.url[..k]);
    SameRecord(b, a);
    assert |b.url| < |a.url|;
  }

  lemma UserCollides(externalId: string -> string, a: ServerConfig, k: nat) returns (b: ServerConfig)
    requires IsAdopted(externalId, a) && a.user.Some?
    requires k < |a.user.value| && a.user.value[k] == FIELD_END && !IsBlank(a.user.value[..k])
    ensures IsAdopted(externalId, b) && Record(b) == Record(a) && b != a
  {
    var user, password := a.user.value, a.password.value;
    b := a.(user := Some(user[..k]), password := Some(user[k + 1..] + [FIELD_END] + password));
    PiecesAround(user, k);
    PiecesBetween(user[k + 1..], password);
    SameRecord(b, a);
    assert |b.user.value| < |user|;
  }

  lemma PasswordCollides(externalId: string -> string, a: ServerConfig, k: nat) returns (b: ServerConfig)
    requires IsAdopted(externalId, a) && a.user.Some?
    requires k < |a.password.value| - 1 && a.password.value[k] == FIELD_END
    ensures IsAdopted(externalId, b) && Record(b) == Record(a) && b != a
  {
    var user, password := a.user.value, a.password.value;
    b := a.(user := Some(user + [FIELD_END] + password[..k]), password := Some(password[k + 1..]));
    PiecesAround(password, k);
    PiecesBetween(user, password[..k]);
    SameRecord(b, a);
    assert |b.password.value| < |password|;
  }

  function WithoutUser(a: ServerConfig, url: string): ServerConfig {
    a.(url := url, user := None, password := None)
  }

  /** Moving the pieces of a user name that end in "None" behind the URL keeps the record. */
  lemma AsPolicy(externalId: string -> string, a: ServerConfig, url: string, rest: seq<string>)
    requires IsAdopted(externalId, a) && a.password == Some([FIELD_END]) && !IsBlank(url)
    requires a.user.Some? && Pieces(a.user.value) == rest + ["None"]
    requires Pieces(url) == Pieces(a.url) + ["None"] + rest
    ensures
      var b := WithoutUser(a, url);
      IsAdopted(externalId, b) && Record(b) == Record(a) && b != a
  {
    var b := WithoutUser(a, url);
    RecordPieces(a);
    RecordPieces(b);
    PlainPiece("None");
    EmptyPieces();
    var head := Pieces(a.id) + Pieces(a.name);
    Moved(head, Pieces(a.url), ["None"], rest, [""]);
    SamePieces(Record(a), Record(b), FIELD_END);
  }

  lemma EmptyPieces()
    ensures Pieces("") == [""] && Pieces([FIELD_END]) == ["", ""]
  {
    PiecesBetween("", "");
    assert "" + [FIELD_END] + "" == [FIELD_END];
  }

  lemma Moved<T>(head: seq<T>, url: seq<T>, none: seq<T>, rest: seq<T>, empty: seq<T>)
    ensures head + url + none + (rest + none) + (empty + empty) == head + (url + none + rest) + none + empty + empty
  {
  }

  /** A user called "None" with a separator as password reads as no user below the policy. */
  lemma PolicyCollides(externalId: string -> string, a: ServerConfig) returns (b: ServerConfig)
    requires IsAdopted(externalId, a) && a.user.Some? && PosesAsPolicy(a.user.value, a.password.value)
    ensures IsAdopted(externalId, b) && Record(b) == Record(a) && b != a
  {
    var user, url := a.user.value, a.url + [FIELD_END] + "None";
    PiecesBetween(a.url, "None");
    PlainPiece("None");
    if user == "None" {
      assert [] + ["None"] == ["None"];
      assert Pieces(a.url) + ["None"] + [] == Pieces(a.url) + ["None"];
      AsPolicy(externalId, a, url, []);
      b := WithoutUser(a, url);
    } else {
      var front := user[..|user| - 5];
      assert user == front + [FIELD_END] + "None" by {
        assert user[|user| - 5..] == [FIELD_END] + "None";
      }
      PiecesBetween(front, "None");
      PiecesBetween(url, front);
      AsPolicy(externalId, a, url + [FIELD_END] + front, Pieces(front));
      b := WithoutUser(a, url + [FIELD_END] + front);
    }
  }

  lemma AmbiguousCollides(externalId: string -> string, a: ServerConfig) returns (b: ServerConfig)
    requires IsAdopted(externalId, a) && !IsUnambiguous(a)
    ensures IsAdopted(externalId, b) && Record(b) == Record(a) && b != a
  {
    if FIELD_END in a.id {
      var k :| 0 <= k < |a.id| && a.id[k] == FIELD_END;
      b := IdCollides(externalId, a, k);
    } else if FIELD_END in a.name {
      var k :| 0 <= k < |a.name| && a.name[k] == FIELD_END;
      b := NameCollides(externalId, a, k);
    } else if !UrlIsPlain(a.url) {
      var k :| 0 <= k < |a.url| && a.url[k] == FIELD_END && !IsBlank(a.url[k + 1..]);
      b := UrlCollides(externalId, a, k);
    } else if !UserIsPlain(a.user.GetOr("")) {
      var k :| 0 <= k < |a.user.GetOr("")| && a.user.GetOr("")[k] == FIELD_END && !IsBlank(a.user.GetOr("")[..k]);
      b := UserCollides(externalId, a, k);
    } else if !PasswordIsPlain(a.password.GetOr("")) {
      var k :| 0 <= k < |a.password.GetOr("")| - 1 && a.password.GetOr("")[k] == FIELD_END;
      b := PasswordCollides(externalId, a, k);
    } else {
      b := PolicyCollides(externalId, a);
    }
  }

  /** The record of a server determines it among all adopted servers. */
  ghost predicate HasOwnRecord(externalId: string -> string, a: ServerConfig) {
    forall b :: IsAdopted(externalId, b) && Record(b) == Record(a) ==> b == a
  }

  lemma OwnRecordIffUnambiguous(externalId: string -> string, a: ServerConfig)
    requires IsAdopted(externalId, a)
    ensures HasOwnRecord(externalId, a) <==> IsUnambiguous(a)
  {
    if IsUnambiguous(a) {
      forall b | IsAdopted(externalId, b) && Record(b) == Record(a) ensures b == a {
        UnambiguousIsUnique(externalId, a, b);
      }
    } else {
      var b := AmbiguousCollides(externalId, a);
    }
  }

  // -- lists --

  predicate AllAdopted(externalId: string -> string, servers: seq<ServerConfig>) {
    forall i :: 0 <= i < |servers| ==> IsAdopted(externalId, servers[i])
  }

  lemma {:induction false} RevisionPieces(servers: seq<ServerConfig>)
    ensures |Pieces(RevisionOf(servers))| >= 5 * |servers| + 1
  {
    if servers != [] {
      var record, rest := Record(servers[0]), RevisionOf(servers[1..]);
      RecordPieces(servers[0]);
      RevisionPieces(servers[1..]);
      PiecesOfConcat(record, [SERVER_END], FIELD_END);
      PiecesOfConcat(record + [SERVER_END], rest, FIELD_END);
      PlainPiece([SERVER_END]);
    }
  }

  lemma SinglePieces(a: ServerConfig)
    requires a.securityPolicy == "None" && IsUnambiguous(a)
    ensures |Pieces(RevisionOf([a]))| <= 9
  {
    RecordPieces(a);
    PlainPiece("None");
    PlainPiece(a.id);
    PlainPiece(a.name);
    UrlPieces(a.url);
    UserPieces(a.user.GetOr(""));
    PasswordPieces(a.password.GetOr(""));
    SingleRevision(a);
    PiecesOfConcat(Record(a), [SERVER_END], FIELD_END);
    PlainPiece([SERVER_END]);
  }

  lemma SingleRevision(a: ServerConfig)
    ensures RevisionOf([a]) == Record(a) + [SERVER_END]
  {
    assert [a][1..] == [];
  }

  /** Two or more servers have the fingerprint of one whose id holds all the others. */
  lemma ListCollides(externalId: string -> string, servers: seq<ServerConfig>) returns (b: ServerConfig)
    requires AllAdopted(externalId, servers) && |servers| >= 2
    ensures IsAdopted(externalId, b) && RevisionOf([b]) == RevisionOf(servers)
  {
    var n := |servers| - 1;
    var before, last := servers[..n], servers[n];
    var id := RevisionOf(before) + last.id;
    b := Renamed(externalId, last, id, last.name, last.url);
    assert servers == before + [last];
    RevisionAppend(before, last);
    RecordUnfolds(last);
    RecordUnfolds(b);
    SingleRevision(b);
    var e := [FIELD_END];
    var tail := last.name + e + (last.url + e + ("None" + e + (last.user.GetOr("") + e + last.password.GetOr(""))));
    assert Record(last) == last.id + e + tail && Record(b) == id + e + tail;
    assert id + e + tail == RevisionOf(before) + (last.id + e + tail);
  }

  /** The fingerprint of a list determines it among all lists of adopted servers. */
  ghost predicate HasOwnRevision(externalId: string -> string, servers: seq<ServerConfig>) {
    forall b :: AllAdopted(externalId, b) && RevisionOf(b) == RevisionOf(servers) ==> b == servers
  }

  /** That is so exactly for the empty list and for one unambiguous server. */
  lemma OwnRevisionIff(externalId: string -> string, servers: seq<ServerConfig>)
    requires AllAdopted(externalId, servers)
    ensures HasOwnRevision(externalId, servers) <==> servers == [] || (|servers| == 1 && IsUnambiguous(servers[0]))
  {
    if |servers| >= 2 {
      var b := ListCollides(externalId, servers);
      assert AllAdopted(externalId, [b]) && [b] != servers;
    } else if |servers| == 1 {
      SingleOwnRevision(externalId, servers[0]);
      assert servers == [servers[0]];
    }
  }

  lemma SingleOwnRevision(externalId: string -> string, a: ServerConfig)
    requires IsAdopted(externalId, a)
    ensures HasOwnRevision(externalId, [a]) <==> IsUnambiguous(a)
  {
    SingleRevision(a);
    if IsUnambiguous(a) {
      forall b | AllAdopted(externalId, b) && RevisionOf(b) == RevisionOf([a]) ensures b == [a] {
        OnlyThisList(externalId, a, b);
      }
    } else {
      var b := AmbiguousCollides(externalId, a);
      SingleRevision(b);
      assert AllAdopted(externalId, [b]) && [b][0] != [a][0];
    }
  }

  lemma OnlyThisList(externalId: string -> string, a: ServerConfig, b: seq<ServerConfig>)
    requires IsAdopted(externalId, a) && IsUnambiguous(a) && AllAdopted(externalId, b)
    requires RevisionOf(b) == RevisionOf([a])
    ensures b == [a]
  {
    SinglePieces(a);
    RevisionPieces(b);
    SingleRevision(a);
    assert |b| == 1;
    SingleRevision(b[0]);
    assert b == [b[0]];
    assert Record(b[0]) == (Record(b[0]) + [SERVER_END])[..|Record(a)|] == Record(a);
    UnambiguousIsUnique(externalId, a, b[0]);
  }
}
