/** The key order of the ordered maps the gateway iterates: strings compared character by character. */
module Ordered {

  predicate Less(a: string, b: string) {
    if b == [] then false
    else if a == [] then true
    else if a[0] == b[0] then Less(a[1..], b[1..])
    else a[0] < b[0]
  }

  lemma {:induction false} LessIsTotal(a: string, b: string)
    ensures a == b || Less(a, b) || Less(b, a)
    ensures !(Less(a, b) && Less(b, a)) && !Less(a, a)
  {
    if a != [] && b != [] {
      LessIsTotal(a[1..], b[1..]);
      LessIsTotal(a[1..], a[1..]);
      assert a == [a[0]] + a[1..] && b == [b[0]] + b[1..];
    } else if a != [] {
      LessIsTotal(a[1..], a[1..]);
    }
  }

  /** Where two texts differ first, the smaller character decides, and a text comes before its own
      continuations. */
  predicate DifferAt(a: string, b: string, k: nat) {
    && k <= |a| && k < |b| && (forall i :: 0 <= i < k ==> a[i] == b[i])
    && (k == |a| || a[k] < b[k])
  }

  lemma {:induction false} LessIsLexicographic(a: string, b: string)
    ensures Less(a, b) <==> exists k: nat :: DifferAt(a, b, k)
  {
    if a == [] || b == [] || a[0] != b[0] {
      if Less(a, b) {
        assert DifferAt(a, b, 0);
      }
    } else {
      LessIsLexicographic(a[1..], b[1..]);
      if k: nat :| DifferAt(a, b, k) {
        assert forall i :: 0 <= i < k - 1 ==> a[1..][i] == a[i + 1] == b[i + 1] == b[1..][i];
        assert DifferAt(a[1..], b[1..], k - 1);
      }
      if k: nat :| DifferAt(a[1..], b[1..], k) {
        assert forall i :: 0 < i < k + 1 ==> a[i] == a[1..][i - 1] == b[1..][i - 1] == b[i];
        assert DifferAt(a, b, k + 1);
      }
    }
  }

  lemma {:induction false} LessIsTransitive(a: string, b: string, c: string)
    ensures Less(a, b) && Less(b, c) ==> Less(a, c)
  {
    if a != [] && b != [] && c != [] {
      LessIsTransitive(a[1..], b[1..], c[1..]);
    }
  }

  predicate IsLeast(x: string, keys: set<string>) {
    x in keys && forall y :: y in keys ==> x == y || Less(x, y)
  }

  lemma {:induction false} LeastExists(keys: set<string>) returns (x: string)
    requires keys != {}
    ensures IsLeast(x, keys)
  {
    var y :| y in keys;
    if keys == {y} {
      x := y;
    } else {
      var rest := keys - {y};
      assert rest != {};
      x := LeastExists(rest);
      LessIsTotal(x, y);
      if Less(y, x) {
        forall z | z in keys ensures y == z || Less(y, z) {
          LessIsTransitive(y, x, z);
        }
        x := y;
      }
    }
  }

  predicate StrictlySorted(keys: seq<string>) {
    forall i, j :: 0 <= i < j < |keys| ==> Less(keys[i], keys[j])
  }

  /** The keys of an ordered map, in iteration order. */
  function SortedKeys(keys: set<string>): (sorted: seq<string>)
    ensures StrictlySorted(sorted)
    ensures forall k :: k in sorted <==> k in keys
  {
    if keys == {} then []
    else
      ghost var least := LeastOf(keys);
      assert forall x, y :: IsLeast(x, keys) && IsLeast(y, keys) ==> x == y by {
        forall x, y | IsLeast(x, keys) && IsLeast(y, keys) ensures x == y {
          LessIsTotal(x, y);
        }
      }
      assert IsLeast(least, keys);
      var x :| IsLeast(x, keys);
      [x] + SortedKeys(keys - {x})
  }

  ghost function LeastOf(keys: set<string>): (x: string)
    requires keys != {}
    ensures IsLeast(x, keys)
  {
    assert exists x :: IsLeast(x, keys) by {
      var x := LeastExists(keys);
    }
    var x :| IsLeast(x, keys);
    x
  }

  lemma SortedOnce(keys: set<string>)
    ensures forall i, j :: 0 <= i < j < |SortedKeys(keys)| ==> SortedKeys(keys)[i] != SortedKeys(keys)[j]
  {
    var sorted := SortedKeys(keys);
    forall i, j | 0 <= i < j < |sorted| ensures sorted[i] != sorted[j] {
      LessIsTotal(sorted[i], sorted[j]);
    }
  }

  lemma NoMembers(keys: seq<string>)
    ensures keys == [] <==> forall k :: k !in keys
  {
    if keys != [] {
      assert keys[0] in keys;
    }
  }

  /** A strictly sorted list is determined by its members. */
  lemma {:induction false} SortedIsUnique(a: seq<string>, b: seq<string>)
    requires StrictlySorted(a) && StrictlySorted(b)
    requires forall k :: k in a <==> k in b
    ensures a == b
  {
    NoMembers(a);
    NoMembers(b);
    if a != [] {
      assert a[0] in b && b[0] in a;
      var i :| 0 <= i < |b| && b[i] == a[0];
      var j :| 0 <= j < |a| && a[j] == b[0];
      LessIsTotal(a[0], b[0]);
      assert a[0] == b[0];
      TailMembers(a);
      TailMembers(b);
      SortedIsUnique(a[1..], b[1..]);
      assert a == [a[0]] + a[1..] && b == [b[0]] + b[1..];
    }
  }

  lemma TailMembers(a: seq<string>)
    requires a != [] && StrictlySorted(a)
    ensures forall k :: k in a[1..] <==> k in a && k != a[0]
  {
    assert a == [a[0]] + a[1..];
    forall k | k in a[1..] ensures k != a[0] {
      var i :| 0 <= i < |a[1..]| && a[1..][i] == k;
      assert a[i + 1] == k;
      LessIsTotal(a[0], k);
    }
  }
}
