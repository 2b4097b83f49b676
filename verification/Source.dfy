/** The two mapping sources and what changed between two loads (crates/mapping/src/source.rs). */
module Source {
  import opened Text
  import opened Model
  import opened Ordered

  type Marker = (Origin, string)

  /** The marker each id was last seen with. */
  type Revision = map<string, Marker>

  function MarkerOf(l: LoadedDeviceType): Marker {
    (l.origin, l.fingerprint)
  }

  function RevisionOf(loaded: seq<LoadedDeviceType>): Revision {
    if loaded == [] then map[]
    else
      var n := |loaded| - 1;
      RevisionOf(loaded[..n])[loaded[n].id := MarkerOf(loaded[n])]
  }

  // ---- merge ----

  function Ids(loaded: seq<LoadedDeviceType>): set<string> {
    set l | l in loaded :: l.id
  }

  /** The last device type of this id. */
  function Last(loaded: seq<LoadedDeviceType>, id: string): (r: Option<LoadedDeviceType>)
    ensures r.Some? <==> id in Ids(loaded)
    ensures r.Some? ==> r.value.id == id && r.value in loaded
  {
    if loaded == [] then None
    else
      var n := |loaded| - 1;
      assert loaded == loaded[..n] + [loaded[n]];
      if loaded[n].id == id then Some(loaded[n]) else Last(loaded[..n], id)
  }

  /** What each id means: the last pushed entry, or else the last pulled one. */
  function Winner(pulled: seq<LoadedDeviceType>, pushed: seq<LoadedDeviceType>, id: string): (winner: LoadedDeviceType)
    requires id in Ids(pulled) + Ids(pushed)
    ensures winner.id == id
  {
    if id in Ids(pushed) then Last(pushed, id).value else Last(pulled, id).value
  }

  /** The merged set: the winner of each id, ordered by id. */
  function Merged(pulled: seq<LoadedDeviceType>, pushed: seq<LoadedDeviceType>): (merged: seq<LoadedDeviceType>)
    ensures |merged| == |SortedKeys(Ids(pulled) + Ids(pushed))|
    ensures forall i :: 0 <= i < |merged| ==>
      merged[i].id == SortedKeys(Ids(pulled) + Ids(pushed))[i] && merged[i] == Winner(pulled, pushed, merged[i].id)
  {
    var keys := SortedKeys(Ids(pulled) + Ids(pushed));
    seq(|keys|, i requires 0 <= i < |keys| => assert keys[i] in keys; Winner(pulled, pushed, keys[i]))
  }

  /** The entries by id, the last one winning. */
  function ById(loaded: seq<LoadedDeviceType>): map<string, LoadedDeviceType> {
    if loaded == [] then map[]
    else
      var n := |loaded| - 1;
      ById(loaded[..n])[loaded[n].id := loaded[n]]
  }

  lemma {:induction false} ByIdIsLast(loaded: seq<LoadedDeviceType>)
    ensures ById(loaded).Keys == Ids(loaded)
    ensures forall id :: id in ById(loaded) ==> Last(loaded, id) == Some(ById(loaded)[id])
  {
    if loaded != [] {
      var n := |loaded| - 1;
      ByIdIsLast(loaded[..n]);
      IdsStep(loaded, n);
      assert loaded[..n + 1] == loaded;
    }
  }

  lemma ByIdStep(loaded: seq<LoadedDeviceType>, i: nat)
    requires i < |loaded|
    ensures ById(loaded[..i + 1]) == ById(loaded[..i])[loaded[i].id := loaded[i]]
  {
    assert loaded[..i + 1][..i] == loaded[..i];
  }

  method Merge(pulled: seq<LoadedDeviceType>, pushed: seq<LoadedDeviceType>) returns (merged: seq<LoadedDeviceType>)
    ensures merged == Merged(pulled, pushed)
  {
    var byId: map<string, LoadedDeviceType> := map[];
    for i := 0 to |pulled|
      invariant byId == ById(pulled[..i])
    {
      ByIdStep(pulled, i);
      byId := byId[pulled[i].id := pulled[i]];
    }
    assert pulled[..|pulled|] == pulled;
    for i := 0 to |pushed|
      invariant byId == ById(pulled) + ById(pushed[..i])
    {
      ByIdStep(pushed, i);
      byId := byId[pushed[i].id := pushed[i]];
    }
    assert pushed[..|pushed|] == pushed;
    merged := Values(byId);
    MergedIsValues(pulled, pushed);
  }

  /** The values of an ordered map, in key order. */
  function Values(byId: map<string, LoadedDeviceType>): (values: seq<LoadedDeviceType>)
    ensures |values| == |SortedKeys(byId.Keys)|
    ensures forall i :: 0 <= i < |values| ==>
      SortedKeys(byId.Keys)[i] in byId && values[i] == byId[SortedKeys(byId.Keys)[i]]
  {
    var keys := SortedKeys(byId.Keys);
    assert forall i :: 0 <= i < |keys| ==> keys[i] in keys;
    seq(|keys|, i requires 0 <= i < |keys| => byId[keys[i]])
  }

  lemma MergedIsValues(pulled: seq<LoadedDeviceType>, pushed: seq<LoadedDeviceType>)
    ensures Merged(pulled, pushed) == Values(ById(pulled) + ById(pushed))
  {
    var byId := ById(pulled) + ById(pushed);
    ByIdIsLast(pulled);
    ByIdIsLast(pushed);
    assert byId.Keys == Ids(pulled) + Ids(pushed);
    var merged, values := Merged(pulled, pushed), Values(byId);
    forall i | 0 <= i < |merged| ensures merged[i] == values[i] {}
  }

  lemma IdsStep(loaded: seq<LoadedDeviceType>, i: nat)
    requires i < |loaded|
    ensures Ids(loaded[..i + 1]) == Ids(loaded[..i]) + {loaded[i].id}
    ensures forall id ::
      Last(loaded[..i + 1], id) == if id == loaded[i].id then Some(loaded[i]) else Last(loaded[..i], id)
  {
    var upTo := loaded[..i + 1];
    assert upTo == loaded[..i] + [loaded[i]];
    assert upTo[..i] == loaded[..i];
    forall id ensures Last(upTo, id) == if id == loaded[i].id then Some(loaded[i]) else Last(loaded[..i], id) {
      assert |upTo| - 1 == i && upTo[i] == loaded[i];
    }
  }

  /** The entry is in the list, and none behind it has its id. */
  ghost predicate IsLastOf(loaded: seq<LoadedDeviceType>, l: LoadedDeviceType) {
    exists k :: 0 <= k < |loaded| && loaded[k] == l && forall j :: k < j < |loaded| ==> loaded[j].id != l.id
  }

  lemma {:induction false} LastAt(loaded: seq<LoadedDeviceType>, id: string) returns (k: nat)
    requires Last(loaded, id).Some?
    ensures k < |loaded| && loaded[k] == Last(loaded, id).value
    ensures forall j :: k < j < |loaded| ==> loaded[j].id != id
  {
    k := |loaded| - 1;
    if loaded[k].id != id {
      k := LastAt(loaded[..k], id);
    }
  }

  /** What a merge holds is the last entry of its id in the source that has the say. */
  lemma MergedHoldsTheLast(pulled: seq<LoadedDeviceType>, pushed: seq<LoadedDeviceType>, l: LoadedDeviceType)
    requires l in Merged(pulled, pushed)
    ensures IsLastOf(if l.id in Ids(pushed) then pushed else pulled, l)
  {
    var merged, keys := Merged(pulled, pushed), SortedKeys(Ids(pulled) + Ids(pushed));
    var i :| 0 <= i < |merged| && merged[i] == l;
    assert keys[i] in keys && l == Winner(pulled, pushed, l.id);
    var k := LastAt(if l.id in Ids(pushed) then pushed else pulled, l.id);
  }

  /** The merge is strictly sorted by id and holds one entry per id of either source: the last pushed
      one where there is one, or else the last pulled one. */
  lemma MergedIsSortedAndComplete(pulled: seq<LoadedDeviceType>, pushed: seq<LoadedDeviceType>)
    ensures
      var merged := Merged(pulled, pushed);
      && (forall i, j :: 0 <= i < j < |merged| ==> Less(merged[i].id, merged[j].id))
      && (forall id :: id in Ids(merged) <==> id in Ids(pulled) || id in Ids(pushed))
    ensures forall l :: l in Merged(pulled, pushed) ==> IsLastOf(if l.id in Ids(pushed) then pushed else pulled, l)
  {
    var merged := Merged(pulled, pushed);
    var keys := SortedKeys(Ids(pulled) + Ids(pushed));
    forall id | id in Ids(pulled) + Ids(pushed) ensures id in Ids(merged) {
      assert id in keys;
      var i :| 0 <= i < |keys| && keys[i] == id;
      assert merged[i].id == id && merged[i] in merged;
    }
    forall l | l in merged ensures l.id in Ids(pulled) + Ids(pushed) {
      var i :| 0 <= i < |merged| && merged[i] == l;
      assert keys[i] in keys;
    }
    forall l | l in merged ensures IsLastOf(if l.id in Ids(pushed) then pushed else pulled, l) {
      MergedHoldsTheLast(pulled, pushed, l);
    }
  }

  /** The revision of a merge holds each id's winning marker and nothing else. */
  lemma RevisionOfMerge(pulled: seq<LoadedDeviceType>, pushed: seq<LoadedDeviceType>)
    ensures
      var revision := RevisionOf(Merged(pulled, pushed));
      && revision.Keys == Ids(pulled) + Ids(pushed)
      && forall id :: id in revision ==> revision[id] == MarkerOf(Winner(pulled, pushed, id))
  {
    var merged := Merged(pulled, pushed);
    MergedIsSortedAndComplete(pulled, pushed);
    RevisionMembers(merged);
    assert RevisionOf(merged).Keys == Ids(merged) == Ids(pulled) + Ids(pushed);
  }

  lemma {:induction false} RevisionMembers(loaded: seq<LoadedDeviceType>)
    ensures RevisionOf(loaded).Keys == Ids(loaded)
    ensures forall id :: id in Ids(loaded) ==> RevisionOf(loaded)[id] == MarkerOf(Last(loaded, id).value)
  {
    if loaded != [] {
      var n := |loaded| - 1;
      RevisionMembers(loaded[..n]);
      IdsStep(loaded, n);
      assert loaded[..n + 1] == loaded;
    }
  }

  // ---- diff ----

  datatype RevisionDiff = RevisionDiff(added: seq<string>, removed: seq<string>, changed: seq<string>)

  predicate IsEmpty(diff: RevisionDiff) {
    diff.added == [] && diff.removed == [] && diff.changed == []
  }

  function ChangedIds(before: Revision, after: Revision): set<string> {
    set id | id in after && id in before && before[id] != after[id]
  }

  function DiffOf(before: Revision, after: Revision): RevisionDiff {
    RevisionDiff(SortedKeys(after.Keys - before.Keys), SortedKeys(before.Keys - after.Keys),
                 SortedKeys(ChangedIds(before, after)))
  }

  function Keep(keys: seq<string>, wanted: set<string>): seq<string> {
    if keys == [] then []
    else
      var n := |keys| - 1;
      Keep(keys[..n], wanted) + if keys[n] in wanted then [keys[n]] else []
  }

  lemma {:induction false} KeepMembers(keys: seq<string>, wanted: set<string>)
    requires StrictlySorted(keys)
    ensures StrictlySorted(Keep(keys, wanted))
    ensures forall k :: k in Keep(keys, wanted) <==> k in keys && k in wanted
  {
    if keys != [] {
      var n := |keys| - 1;
      var front, kept := Keep(keys[..n], wanted), Keep(keys, wanted);
      KeepMembers(keys[..n], wanted);
      assert keys == keys[..n] + [keys[n]];
      forall i, j | 0 <= i < j < |kept| ensures Less(kept[i], kept[j]) {
        assert kept[i] == front[i] && front[i] in keys[..n];
        var m :| 0 <= m < n && keys[m] == kept[i];
      }
    }
  }

  lemma KeepStep(keys: seq<string>, wanted: set<string>, i: nat)
    requires i < |keys|
    ensures Keep(keys[..i + 1], wanted) == Keep(keys[..i], wanted) + if keys[i] in wanted then [keys[i]] else []
  {
    assert keys[..i + 1][..i] == keys[..i];
  }

  /** Filtering the sorted keys sorts the filtered ones. */
  lemma KeepSorted(all: set<string>, wanted: set<string>)
    requires wanted <= all
    ensures Keep(SortedKeys(all), wanted) == SortedKeys(wanted)
  {
    KeepMembers(SortedKeys(all), wanted);
    SortedIsUnique(Keep(SortedKeys(all), wanted), SortedKeys(wanted));
  }

  method Between(before: Revision, after: Revision) returns (diff: RevisionDiff)
    ensures diff == DiffOf(before, after)
  {
    ghost var newIds, goneIds := after.Keys - before.Keys, before.Keys - after.Keys;
    ghost var movedIds := ChangedIds(before, after);
    var added, changed, removed: seq<string> := [], [], [];
    var keys := SortedKeys(after.Keys);
    for i := 0 to |keys|
      invariant added == Keep(keys[..i], newIds)
      invariant changed == Keep(keys[..i], movedIds)
    {
      var id := keys[i];
      assert id in keys;
      KeepStep(keys, newIds, i);
      KeepStep(keys, movedIds, i);
      if id !in before {
        added := added + [id];
      } else if before[id] != after[id] {
        changed := changed + [id];
      }
    }
    assert keys[..|keys|] == keys;
    KeepSorted(after.Keys, newIds);
    KeepSorted(after.Keys, movedIds);
    var past := SortedKeys(before.Keys);
    for i := 0 to |past|
      invariant removed == Keep(past[..i], goneIds)
    {
      assert past[i] in past;
      KeepStep(past, goneIds, i);
      if past[i] !in after {
        removed := removed + [past[i]];
      }
    }
    assert past[..|past|] == past;
    KeepSorted(before.Keys, goneIds);
    diff := RevisionDiff(added, removed, changed);
  }

  /** Replay a diff on the older revision, given the markers of what was added or changed. */
  function Replay(before: Revision, diff: RevisionDiff, markers: Revision): Revision {
    (before - (set id | id in diff.removed)) + markers
  }

  /** The three lists are sorted and disjoint; the diff is empty exactly when nothing moved; and it rebuilds the
      newer revision from the older one and the markers it names. */
  lemma DiffIsExact(before: Revision, after: Revision)
    ensures
      var diff := DiffOf(before, after);
      && StrictlySorted(diff.added) && StrictlySorted(diff.removed) && StrictlySorted(diff.changed)
      && (forall id :: !(id in diff.added && id in diff.changed) && !(id in diff.added && id in diff.removed)
                       && !(id in diff.changed && id in diff.removed))
      && (IsEmpty(diff) <==> before == after)
      && Replay(before, diff, map id | id in after && (id in diff.added || id in diff.changed) :: after[id]) == after
  {
    var diff := DiffOf(before, after);
    if IsEmpty(diff) {
      forall id | id in before || id in after ensures id in before && id in after && before[id] == after[id] {
        assert id !in diff.added && id !in diff.removed && id !in diff.changed;
      }
      assert before.Keys == after.Keys;
    }
    if before == after {
      NoMembers(diff.added);
      NoMembers(diff.removed);
      NoMembers(diff.changed);
    }
  }

  // ---- shadowed ----

  /** Ids fetched from inventory that a pushed entry of the merged set replaces. */
  function Shadowed(pulled: seq<LoadedDeviceType>, merged: seq<LoadedDeviceType>): seq<string> {
    if pulled == [] then []
    else
      (if exists m :: m in merged && m.id == pulled[0].id && m.origin == Push then [pulled[0].id] else [])
      + Shadowed(pulled[1..], merged)
  }

  /** The pulled ids that also occur in `ids`, in pull order. */
  function AlsoIn(pulled: seq<LoadedDeviceType>, ids: set<string>): seq<string> {
    if pulled == [] then []
    else (if pulled[0].id in ids then [pulled[0].id] else []) + AlsoIn(pulled[1..], ids)
  }

  predicate AllFrom(loaded: seq<LoadedDeviceType>, origin: Origin) {
    forall l :: l in loaded ==> l.origin == origin
  }

  /** What a merge shadows is exactly what was pulled and is pushed too. */
  lemma ShadowedByMerge(pulled: seq<LoadedDeviceType>, pushed: seq<LoadedDeviceType>)
    requires AllFrom(pulled, Pull) && AllFrom(pushed, Push)
    ensures Shadowed(pulled, Merged(pulled, pushed)) == AlsoIn(pulled, Ids(pushed))
  {
    var merged := Merged(pulled, pushed);
    MergedIsSortedAndComplete(pulled, pushed);
    forall l | l in pulled
      ensures (exists m :: m in merged && m.id == l.id && m.origin == Push) <==> l.id in Ids(pushed)
    {
      if l.id in Ids(pushed) {
        assert l.id in Ids(merged);
        var m :| m in merged && m.id == l.id;
        assert m in pushed;
      }
    }
    ShadowedIs(pulled, merged, Ids(pushed));
  }

  lemma {:induction false} ShadowedIs(pulled: seq<LoadedDeviceType>, merged: seq<LoadedDeviceType>, ids: set<string>)
    requires forall l :: l in pulled ==>
      ((exists m :: m in merged && m.id == l.id && m.origin == Push) <==> l.id in ids)
    ensures Shadowed(pulled, merged) == AlsoIn(pulled, ids)
  {
    if pulled != [] {
      assert pulled[0] in pulled;
      ShadowedIs(pulled[1..], merged, ids);
    }
  }
}
