/** The scope the author of a device type gave it (crates/mapping/src/constraints.rs). */
module Constraints {
  import opened Text
  import opened Model
  import opened Namespace

  /** The trimmed values that are not blank. */
  function Wanted(values: seq<string>): seq<string> {
    if values == [] then []
    else (if Trim(values[0]) == [] then [] else [Trim(values[0])]) + Wanted(values[1..])
  }

  /** No id wanted, this server wanted, or no known server wanted: then the constraint was authored
      against another registry and is ignored. */
  predicate MatchesServerIds(c: ApplyConstraints, serverId: string, known: seq<string>) {
    var wanted := Wanted(c.matchesServerIds);
    wanted == [] || serverId in wanted || forall id :: id in wanted ==> id !in known
  }

  /** No node wanted, or the root is one of the wanted nodes. */
  predicate MatchesNodeIds(c: ApplyConstraints, dt: DeviceType, table: NamespaceTable, codec: Codec) {
    var wanted := Wanted(c.matchesNodeIds);
    wanted == [] ||
    (dt.rootNodeId.Some?
     && var root := NodeIdOf(table, codec, dt.rootNodeId.value);
        root.Ok? && exists candidate :: candidate in wanted && NodeIdOf(table, codec, candidate) == root)
  }

  predicate Applies(dt: DeviceType, serverId: string, known: seq<string>, table: NamespaceTable, codec: Codec) {
    && dt.enabled
    && (dt.constraints.Some? ==>
          && MatchesServerIds(dt.constraints.value, serverId, known)
          && MatchesNodeIds(dt.constraints.value, dt, table, codec))
  }

  /** Server ids alone never keep a device type from all known servers. */
  lemma SomeServerMatches(c: ApplyConstraints, known: seq<string>)
    requires known != []
    ensures exists id :: id in known && MatchesServerIds(c, id, known)
  {
    var wanted := Wanted(c.matchesServerIds);
    if exists id :: id in wanted && id in known {
      var id :| id in wanted && id in known;
      assert MatchesServerIds(c, id, known);
    } else {
      assert known[0] in known && MatchesServerIds(c, known[0], known);
    }
  }

  /** One of the authored values, without the blanks around it, and not blank. */
  predicate Names(values: seq<string>, x: string) {
    x != "" && exists i :: 0 <= i < |values| && Trim(values[i]) == x
  }

  lemma {:induction false} WantedAreNamed(values: seq<string>, x: string)
    ensures x in Wanted(values) <==> Names(values, x)
  {
    if values != [] {
      WantedAreNamed(values[1..], x);
      assert forall i :: 0 < i < |values| ==> values[1..][i - 1] == values[i];
      if Names(values[1..], x) {
        var i :| 0 <= i < |values[1..]| && Trim(values[1..][i]) == x;
        assert Trim(values[i + 1]) == x;
      }
    }
  }

  /** The server ids authored allow a server: there are none, or they name it, or they name no known one. */
  ghost predicate AllowsServer(c: ApplyConstraints, serverId: string, known: seq<string>) {
    || (forall x :: !Names(c.matchesServerIds, x))
    || Names(c.matchesServerIds, serverId)
    || (forall x :: x in known ==> !Names(c.matchesServerIds, x))
  }

  /** The node ids authored allow a root: there are none, or one of them and the root are the same node. */
  ghost predicate AllowsRoot(c: ApplyConstraints, root: Option<string>, table: NamespaceTable, codec: Codec) {
    || (forall x :: !Names(c.matchesNodeIds, x))
    || (root.Some? && exists x :: Names(c.matchesNodeIds, x) && IsSameNode(x, root.value, table, codec))
  }

  predicate IsSameNode(x: string, y: string, table: NamespaceTable, codec: Codec) {
    NodeIdOf(table, codec, x).Ok? && NodeIdOf(table, codec, x) == NodeIdOf(table, codec, y)
  }

  /** A device type applies exactly when it is enabled and its constraints, if it has any, allow both. */
  lemma AppliesExactlyWhen(dt: DeviceType, serverId: string, known: seq<string>, table: NamespaceTable, codec: Codec)
    ensures Applies(dt, serverId, known, table, codec) <==>
      dt.enabled && (dt.constraints.None? ||
        (AllowsServer(dt.constraints.value, serverId, known)
         && AllowsRoot(dt.constraints.value, dt.rootNodeId, table, codec)))
  {
    if dt.constraints.Some? {
      ServerMatches(dt.constraints.value, serverId, known);
      RootMatches(dt.constraints.value, dt, table, codec);
    }
  }

  lemma NoneWanted(values: seq<string>)
    ensures Wanted(values) == [] <==> forall x :: !Names(values, x)
  {
    forall x ensures x in Wanted(values) <==> Names(values, x) {
      WantedAreNamed(values, x);
    }
    if Wanted(values) != [] {
      assert Names(values, Wanted(values)[0]);
    }
  }

  lemma ServerMatches(c: ApplyConstraints, serverId: string, known: seq<string>)
    ensures MatchesServerIds(c, serverId, known) <==> AllowsServer(c, serverId, known)
  {
    NoneWanted(c.matchesServerIds);
    forall x ensures x in Wanted(c.matchesServerIds) <==> Names(c.matchesServerIds, x) {
      WantedAreNamed(c.matchesServerIds, x);
    }
  }

  lemma RootMatches(c: ApplyConstraints, dt: DeviceType, table: NamespaceTable, codec: Codec)
    ensures MatchesNodeIds(c, dt, table, codec) <==> AllowsRoot(c, dt.rootNodeId, table, codec)
  {
    NoneWanted(c.matchesNodeIds);
    forall x ensures x in Wanted(c.matchesNodeIds) <==> Names(c.matchesNodeIds, x) {
      WantedAreNamed(c.matchesNodeIds, x);
    }
  }
}
