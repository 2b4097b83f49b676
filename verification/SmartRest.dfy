/** The SmartREST failure record (crates/gateway/src/operations.rs), read back by the quoting rules
    of section 2 of RFC 4180. */
module SmartRest {
  import opened Text

  function Field(value: string): string {
    "\"" + ReplaceAll(value, "\"", "\"\"") + "\""
  }

  function FailureRecord(fragment: string, reason: string): string {
    "502," + fragment + "," + Field(reason)
  }

  /** The value of a quoted field and what follows it; `s` starts after the opening quote. */
  function ReadQuoted(s: string): Option<(string, string)>
    decreases |s|
  {
    if s == [] then None
    else if s[0] != '\"' then
      match ReadQuoted(s[1..])
      case Some((value, rest)) => Some(([s[0]] + value, rest))
      case None => None
    else if |s| > 1 && s[1] == '\"' then
      match ReadQuoted(s[2..])
      case Some((value, rest)) => Some((['\"'] + value, rest))
      case None => None
    else Some(([], s[1..]))
  }

  predicate IsLineBreak(c: char) {
    c == '\r' || c == '\n'
  }

  /** An unquoted field runs to the next comma or line break and holds no quote. */
  function ReadPlain(s: string): Option<(string, string)> {
    if s == [] || s[0] == ',' || IsLineBreak(s[0]) then Some(([], s))
    else if s[0] == '\"' then None
    else
      match ReadPlain(s[1..])
      case Some((value, rest)) => Some(([s[0]] + value, rest))
      case None => None
  }

  function ReadField(s: string): Option<(string, string)> {
    if s != [] && s[0] == '\"' then ReadQuoted(s[1..]) else ReadPlain(s)
  }

  /** The fields of a record of three; a line break outside quotes would end the record. */
  function ReadThree(s: string): Option<(string, string, string)> {
    match ReadField(s)
    case None => None
    case Some((first, rest)) =>
      if rest == [] || rest[0] != ',' then None
      else
        match ReadField(rest[1..])
        case None => None
        case Some((second, rest)) =>
          if rest == [] || rest[0] != ',' then None
          else
            match ReadField(rest[1..])
            case Some((third, end)) => if end == [] then Some((first, second, third)) else None
            case None => None
  }

  function Doubled(value: string): string {
    ReplaceAll(value, "\"", "\"\"")
  }

  lemma DoubledStep(value: string)
    requires value != []
    ensures Doubled(value) == (if value[0] == '\"' then "\"\"" else [value[0]]) + Doubled(value[1..])
  {
    assert value[..1] == [value[0]];
  }

  /** A quoted value is read back exactly when what follows it does not start with a quote. */
  lemma {:induction false} QuotedReadsBack(value: string, rest: string)
    ensures ReadQuoted(Doubled(value) + "\"" + rest) == Some((value, rest))
      <==> !(rest != [] && rest[0] == '\"')
  {
    var s := Doubled(value) + "\"" + rest;
    if value == [] {
      assert s == "\"" + rest && s[1..] == rest;
    } else {
      QuotedReadsBack(value[1..], rest);
      DoubledStep(value);
      var tail := Doubled(value[1..]) + "\"" + rest;
      if value[0] == '\"' {
        assert s[2..] == tail;
      } else {
        assert s[1..] == tail;
      }
      assert value == [value[0]] + value[1..];
      var r := ReadQuoted(tail);
      assert r.Some? ==> ([value[0]] + r.value.0)[1..] == r.value.0;
    }
  }

  /** Whatever is read from a quoted field is what was written before its closing quote. */
  lemma {:induction false} ReadIsDoubled(s: string)
    requires ReadQuoted(s).Some?
    ensures s == Doubled(ReadQuoted(s).value.0) + "\"" + ReadQuoted(s).value.1
    decreases |s|
  {
    var value := ReadQuoted(s).value.0;
    if s[0] != '\"' {
      ReadIsDoubled(s[1..]);
      assert value[1..] == ReadQuoted(s[1..]).value.0;
      DoubledStep(value);
    } else if |s| > 1 && s[1] == '\"' {
      ReadIsDoubled(s[2..]);
      assert value[1..] == ReadQuoted(s[2..]).value.0;
      DoubledStep(value);
      assert s == "\"\"" + s[2..];
    }
  }

  /** Leading quotes of a value are leading quotes of its doubled form. */
  lemma {:induction false} DoubledKeepsLeadingQuotes(value: string, k: nat)
    requires k <= |value| && forall i :: 0 <= i < k ==> value[i] == '\"'
    ensures |Doubled(value)| >= k && forall i :: 0 <= i < k ==> Doubled(value)[i] == '\"'
  {
    if k > 0 {
      DoubledStep(value);
      DoubledKeepsLeadingQuotes(value[1..], k - 1);
    }
  }

  function LeadingQuotes(s: string): (k: nat)
    ensures k <= |s| && (forall i :: 0 <= i < k ==> s[i] == '\"') && (k < |s| ==> s[k] != '\"')
  {
    if s != [] && s[0] == '\"' then 1 + LeadingQuotes(s[1..]) else 0
  }

  /** A name that starts with a quote is never read back: the reader would have to see its leading
      quotes doubled, and they are not. */
  lemma QuotedNameIsMisread(name: string, tail: string)
    requires name != [] && name[0] == '\"'
    ensures ReadField(name + "," + tail).Some? ==> ReadField(name + "," + tail).value.0 != name
  {
    var s := name + "," + tail;
    var r := ReadQuoted(s[1..]);
    var k := LeadingQuotes(name);
    DoubledKeepsLeadingQuotes(name, k);
    assert s[1..][k - 1] == s[k] != '\"';
    if r.Some? {
      ReadIsDoubled(s[1..]);
      var doubled := Doubled(r.value.0);
      assert k - 1 < |doubled| ==> s[1..][k - 1] == doubled[k - 1];
    }
  }

  /** A name that needs no quoting: without comma, quote and line break. */
  predicate Plain(name: string) {
    forall i :: 0 <= i < |name| ==> name[i] != ',' && name[i] != '\"' && !IsLineBreak(name[i])
  }

  lemma {:induction false} PlainReadsBack(name: string, tail: string)
    ensures ReadPlain(name + "," + tail) == Some((name, "," + tail)) <==> Plain(name)
    ensures ReadPlain(name + "," + tail).Some? && ReadPlain(name + "," + tail).value.0 == name ==> Plain(name)
  {
    var s := name + "," + tail;
    if name == [] {
      assert s == "," + tail;
    } else {
      PlainReadsBack(name[1..], tail);
      assert s[1..] == name[1..] + "," + tail;
      assert name == [name[0]] + name[1..];
      var r := ReadPlain(s[1..]);
      assert r.Some? ==> ([s[0]] + r.value.0)[1..] == r.value.0;
    }
  }

  /** The record reads back as its code, its fragment and its reason exactly when the fragment holds
      neither a comma nor a quote nor a line break; the reason may hold anything. */
  lemma FailureRecordReadsBack(fragment: string, reason: string)
    ensures ReadThree(FailureRecord(fragment, reason)) == Some(("502", fragment, reason)) <==> Plain(fragment)
  {
    var tail := fragment + "," + Field(reason);
    var s := FailureRecord(fragment, reason);
    assert s == "502" + "," + tail;
    PlainReadsBack("502", tail);
    assert ("," + tail)[1..] == tail;
    assert ReadField(s) == Some(("502", "," + tail));
    if fragment != [] && fragment[0] == '\"' {
      QuotedNameIsMisread(fragment, Field(reason));
    } else {
      assert tail[0] != '\"';
      PlainReadsBack(fragment, Field(reason));
      QuotedReadsBack(reason, "");
      assert ("," + Field(reason))[1..] == Field(reason);
      assert Field(reason)[1..] == Doubled(reason) + "\"" + "";
    }
  }

  /** A legal fragment name with a line break ends the record early: nothing of three fields is read. */
  lemma LineBreakEndsTheRecord(reason: string)
    ensures !Plain("a\r\nb")
    ensures ReadThree(FailureRecord("a\r\nb", reason)).None?
  {
    var name := "a\r\nb";
    assert name[1] == '\r';
    var tail := name + "," + Field(reason);
    assert FailureRecord(name, reason) == "502" + "," + tail;
    PlainReadsBack("502", tail);
    assert ("," + tail)[1..] == tail;
    assert ReadField(FailureRecord(name, reason)) == Some(("502", "," + tail));
    assert tail[0] == 'a' && tail[1] == '\r';
    assert ReadPlain(tail[1..]) == Some(([], tail[1..]));
    assert ReadField(tail) == Some((['a'] + [], tail[1..]));
  }
}
