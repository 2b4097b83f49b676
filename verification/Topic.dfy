/** Topic identifiers (crates/tedge/src/topic.rs) and the entities named with them. */
module Topic {
  import opened Text

  function SanitizeChar(c: char): char {
    if 'a' <= c <= 'z' || IsDigit(c) || c == '-' || c == '_' then c
    else if 'A' <= c <= 'Z' then Lower(c)
    else '-'
  }

  function MapChars(s: string): (r: string)
    ensures |r| == |s| && forall i :: 0 <= i < |s| ==> r[i] == SanitizeChar(s[i])
  {
    seq(|s|, i requires 0 <= i < |s| => SanitizeChar(s[i]))
  }

  function DropEmpty(pieces: seq<string>): seq<string> {
    if pieces == [] then []
    else (if pieces[0] == [] then [] else [pieces[0]]) + DropEmpty(pieces[1..])
  }

  /** The words of a text: its runs of letters, digits and underscores, in lower case; without any,
      one word of its own. */
  function Words(input: string): (words: seq<string>)
    ensures words != []
  {
    var pieces := DropEmpty(SplitOn(MapChars(input), '-'));
    if pieces == [] then ["unnamed"] else pieces
  }

  function CanonicalId(input: string): string {
    JoinWith(Words(input), '-')
  }

  predicate NoDoubleDash(s: string) {
    forall i :: 0 <= i < |s| - 1 && s[i] == '-' ==> s[i + 1] != '-'
  }

  function TrimFront(s: string): string {
    if s != [] && s[0] == '-' then TrimFront(s[1..]) else s
  }

  function TrimBack(s: string): string {
    if s != [] && s[|s| - 1] == '-' then TrimBack(s[..|s| - 1]) else s
  }

  function TrimDashes(s: string): string {
    TrimBack(TrimFront(s))
  }

  /** Collapse runs of dashes until none is left, then trim. */
  method SanitizeId(input: string) returns (id: string)
    ensures id == CanonicalId(input)
  {
    var out := MapChars(input);
    while Contains(out, "--")
      invariant DropEmpty(SplitOn(out, '-')) == DropEmpty(SplitOn(MapChars(input), '-'))
      decreases |out|
    {
      CollapseKeepsPieces(out);
      CollapseShrinks(out);
      out := ReplaceAll(out, "--", "-");
    }
    NoDoubleDashLeft(out);
    TrimKeepsPieces(out);
    var trimmed := TrimDashes(out);
    if trimmed == [] {
      id := "unnamed";
    } else {
      SolidPieces(trimmed);
      JoinSplit(trimmed, '-');
      id := trimmed;
    }
  }

  lemma {:induction false} CollapseKeepsPieces(s: string)
    ensures SplitOn(ReplaceAll(s, "--", "-"), '-')[0] == SplitOn(s, '-')[0]
    ensures DropEmpty(SplitOn(ReplaceAll(s, "--", "-"), '-')[1..]) == DropEmpty(SplitOn(s, '-')[1..])
    ensures DropEmpty(SplitOn(ReplaceAll(s, "--", "-"), '-')) == DropEmpty(SplitOn(s, '-'))
    decreases |s|
  {
    if s != [] {
      if StartsWith(s, "--") {
        CollapseKeepsPieces(s[2..]);
        var collapsed := ReplaceAll(s[2..], "--", "-");
        StartsWithAt(s, "--", 0);
        StartsWithAt(s, "--", 1);
        assert s[1..][1..] == s[2..];
        assert SplitOn(s, '-') == [[]] + SplitOn(s[1..], '-') && SplitOn(s[1..], '-') == [[]] + SplitOn(s[2..], '-');
        assert SplitOn(s, '-')[1..] == [[]] + SplitOn(s[2..], '-');
        assert ("-" + collapsed)[1..] == collapsed;
        assert SplitOn("-" + collapsed, '-')[1..] == SplitOn(collapsed, '-');
      } else {
        CollapseKeepsPieces(s[1..]);
        var collapsed := ReplaceAll(s[1..], "--", "-");
        assert ([s[0]] + collapsed)[1..] == collapsed;
        if s[0] == '-' {
          assert SplitOn(s, '-')[1..] == SplitOn(s[1..], '-');
          assert SplitOn([s[0]] + collapsed, '-')[1..] == SplitOn(collapsed, '-');
        } else {
          assert SplitOn(s, '-')[1..] == SplitOn(s[1..], '-')[1..];
          assert SplitOn([s[0]] + collapsed, '-')[1..] == SplitOn(collapsed, '-')[1..];
        }
      }
    }
  }

  lemma {:induction false} CollapseShrinks(s: string)
    ensures |ReplaceAll(s, "--", "-")| <= |s|
    ensures Contains(s, "--") ==> |ReplaceAll(s, "--", "-")| < |s|
    decreases |s|
  {
    if s != [] {
      if StartsWith(s, "--") {
        CollapseShrinks(s[2..]);
      } else {
        CollapseShrinks(s[1..]);
        if Contains(s, "--") {
          var i :| 0 <= i <= |s| && StartsWith(s[i..], "--");
          assert s[i..] == s[1..][i - 1..];
        }
      }
    }
  }

  lemma NoDoubleDashLeft(s: string)
    ensures NoDoubleDash(s) <==> !Contains(s, "--")
  {
    if !NoDoubleDash(s) {
      var i :| 0 <= i < |s| - 1 && s[i] == '-' && s[i + 1] == '-';
      assert s[i..][..2] == "--";
      assert StartsWith(s[i..], "--");
    }
    if Contains(s, "--") {
      var i :| 0 <= i <= |s| && StartsWith(s[i..], "--");
      StartsWithAt(s[i..], "--", 0);
      StartsWithAt(s[i..], "--", 1);
      assert s[i] == '-' && s[i + 1] == '-';
    }
  }

  lemma {:induction false} DropEmptyAppend(pieces: seq<string>)
    ensures DropEmpty(pieces + [[]]) == DropEmpty(pieces)
  {
    if pieces != [] {
      DropEmptyAppend(pieces[1..]);
      assert (pieces + [[]])[1..] == pieces[1..] + [[]];
    }
  }

  lemma {:induction false} SplitTrailingDash(s: string)
    ensures SplitOn(s + "-", '-') == SplitOn(s, '-') + [[]]
  {
    if s != [] {
      SplitTrailingDash(s[1..]);
      assert (s + "-")[1..] == s[1..] + "-";
    }
  }

  lemma {:induction false} TrimFrontKeepsPieces(s: string)
    ensures DropEmpty(SplitOn(TrimFront(s), '-')) == DropEmpty(SplitOn(s, '-'))
    ensures TrimFront(s) != [] ==> TrimFront(s)[0] != '-'
    ensures NoDoubleDash(s) ==> NoDoubleDash(TrimFront(s))
  {
    if s != [] && s[0] == '-' {
      TrimFrontKeepsPieces(s[1..]);
      NoDoubleDashSlice(s, 1, |s|);
      assert s[1..] == s[1..|s|];
      var rest := SplitOn(s[1..], '-');
      assert SplitOn(s, '-') == [[]] + rest;
      assert DropEmpty([[]] + rest) == DropEmpty(rest) by {
        assert ([[]] + rest)[1..] == rest;
      }
    }
  }

  lemma NoDoubleDashSlice(s: string, lo: nat, hi: nat)
    requires lo <= hi <= |s|
    ensures NoDoubleDash(s) ==> NoDoubleDash(s[lo..hi])
  {
    var t := s[lo..hi];
    if NoDoubleDash(s) {
      forall i | 0 <= i < |t| - 1 && t[i] == '-' ensures t[i + 1] != '-' {
        assert s[lo + i] == '-';
      }
    }
  }

  predicate SamePieces(a: string, b: string) {
    DropEmpty(SplitOn(a, '-')) == DropEmpty(SplitOn(b, '-'))
  }

  lemma TrailingDashDrops(front: string, s: string)
    requires s == front + "-"
    ensures SamePieces(front, s)
  {
    SplitTrailingDash(front);
    DropEmptyAppend(SplitOn(front, '-'));
  }

  lemma {:induction false} TrimBackKeepsPieces(s: string)
    ensures SamePieces(TrimBack(s), s)
    ensures TrimBack(s) != [] ==> TrimBack(s)[|TrimBack(s)| - 1] != '-'
  {
    if s != [] && s[|s| - 1] == '-' {
      var front := s[..|s| - 1];
      TrimBackKeepsPieces(front);
      TrailingDashDrops(front, s);
    }
  }

  lemma {:induction false} TrimBackIsFront(s: string)
    ensures TrimBack(s) <= s
  {
    if s != [] && s[|s| - 1] == '-' {
      TrimBackIsFront(s[..|s| - 1]);
    }
  }

  lemma TrimKeepsPieces(s: string)
    ensures DropEmpty(SplitOn(TrimDashes(s), '-')) == DropEmpty(SplitOn(s, '-'))
    ensures TrimDashes(s) != [] ==> TrimDashes(s)[0] != '-' && TrimDashes(s)[|TrimDashes(s)| - 1] != '-'
    ensures NoDoubleDash(s) ==> NoDoubleDash(TrimDashes(s))
  {
    var front := TrimFront(s);
    TrimFrontKeepsPieces(s);
    TrimBackKeepsPieces(front);
    TrimBackIsFront(front);
    NoDoubleDashSlice(front, 0, |TrimBack(front)|);
  }

  /** Without doubled or edge dashes no piece is empty. */
  lemma {:induction false} SolidPieces(s: string)
    requires s != [] && NoDoubleDash(s) && s[|s| - 1] != '-'
    ensures forall i :: 0 < i < |SplitOn(s, '-')| ==> SplitOn(s, '-')[i] != []
    ensures s[0] != '-' ==> SplitOn(s, '-')[0] != []
    ensures s[0] != '-' ==> DropEmpty(SplitOn(s, '-')) == SplitOn(s, '-')
  {
    var pieces := SplitOn(s, '-');
    if |s| > 1 {
      NoDoubleDashSlice(s, 1, |s|);
      assert s[1..] == s[1..|s|];
      SolidPieces(s[1..]);
      var rest := SplitOn(s[1..], '-');
      assert forall i :: 0 < i < |pieces| ==> pieces[i] == rest[if s[0] == '-' then i - 1 else i];
    } else {
      assert s[1..] == [];
      assert SplitOn(s[1..], '-') == [[]];
    }
    if s[0] != '-' {
      assert pieces[0] != [];
      assert forall i :: 0 <= i < |pieces| ==> i == 0 || pieces[i] != [];
      DropEmptyOfSolid(pieces);
    }
  }

  lemma {:induction false} DropEmptyOfSolid(pieces: seq<string>)
    requires forall i :: 0 <= i < |pieces| ==> pieces[i] != []
    ensures DropEmpty(pieces) == pieces
  {
    if pieces != [] {
      DropEmptyOfSolid(pieces[1..]);
    }
  }

  // ---- words by character ----

  /** Letters of either case, digits and underscores are in words; everything else is between them. */
  predicate IsInWord(c: char) {
    'a' <= c <= 'z' || 'A' <= c <= 'Z' || '0' <= c <= '9' || c == '_'
  }

  /** How far the word at the front goes. */
  function RunLength(s: string): (n: nat)
    ensures n <= |s| && (n < |s| ==> !IsInWord(s[n]))
    ensures forall i :: 0 <= i < n ==> IsInWord(s[i])
  {
    if s == [] || !IsInWord(s[0]) then 0 else 1 + RunLength(s[1..])
  }

  /** The longest runs of such characters, from left to right, in lower case. */
  function Runs(s: string): seq<string>
    decreases |s|
  {
    if s == [] then []
    else
      var n := RunLength(s);
      if n == 0 then Runs(s[1..]) else [LowerAll(s[..n])] + Runs(s[n..])
  }

  lemma OneCharacter(c: char)
    ensures IsInWord(c) ==> SanitizeChar(c) == Lower(c) && Lower(c) != '-'
    ensures !IsInWord(c) ==> SanitizeChar(c) == '-'
  {
  }

  lemma MapOfWord(word: string)
    requires forall i :: 0 <= i < |word| ==> IsInWord(word[i])
    ensures MapChars(word) == LowerAll(word) && '-' !in LowerAll(word)
  {
    forall i | 0 <= i < |word| ensures MapChars(word)[i] == LowerAll(word)[i] && LowerAll(word)[i] != '-' {
      OneCharacter(word[i]);
    }
  }

  lemma MapOfConcat(a: string, b: string)
    ensures MapChars(a + b) == MapChars(a) + MapChars(b)
  {
  }

  lemma MapOfOther(c: char)
    requires !IsInWord(c)
    ensures MapChars([c]) == "-"
  {
    OneCharacter(c);
  }

  lemma PiecesAround(word: string, c: char, rest: string)
    requires (forall i :: 0 <= i < |word| ==> IsInWord(word[i])) && !IsInWord(c)
    ensures SplitOn(MapChars(word + [c] + rest), '-') == [LowerAll(word)] + SplitOn(MapChars(rest), '-')
  {
    MapOfWord(word);
    MapOfOther(c);
    MapOfConcat(word, [c]);
    MapOfConcat(word + [c], rest);
    SplitOnAppend(LowerAll(word), '-', MapChars(rest));
  }

  lemma {:induction false} PiecesAreRuns(s: string)
    ensures DropEmpty(SplitOn(MapChars(s), '-')) == Runs(s)
    decreases |s|
  {
    if s != [] {
      var n := RunLength(s);
      if n == |s| {
        MapOfWord(s);
        SplitOnWhole(LowerAll(s), '-');
        assert s[..n] == s && Runs(s[n..]) == [];
        OnePieceMore(LowerAll(s), []);
      } else {
        var word, rest := s[..n], s[n + 1..];
        assert s == word + [s[n]] + rest && s[n..][1..] == rest;
        PiecesAround(word, s[n], rest);
        PiecesAreRuns(rest);
        OnePieceMore(LowerAll(word), SplitOn(MapChars(rest), '-'));
        assert Runs(s[n..]) == Runs(rest);
      }
    }
  }

  lemma OnePieceMore(piece: string, pieces: seq<string>)
    ensures DropEmpty([piece] + pieces) == (if piece == [] then [] else [piece]) + DropEmpty(pieces)
  {
    assert ([piece] + pieces)[1..] == pieces;
  }

  /** The words of a text are its runs, or else the one word `unnamed`. */
  lemma WordsAreRuns(input: string)
    ensures Words(input) == if Runs(input) == [] then ["unnamed"] else Runs(input)
  {
    PiecesAreRuns(input);
  }

  // ---- canonical ids ----

  predicate IdChar(c: char) {
    'a' <= c <= 'z' || IsDigit(c) || c == '-' || c == '_'
  }

  /** Non-empty, drawn from [a-z0-9_-], with no doubled and no edge dash. */
  predicate IsCanonical(id: string) {
    && id != []
    && (forall i :: 0 <= i < |id| ==> IdChar(id[i]))
    && NoDoubleDash(id)
    && id[0] != '-' && id[|id| - 1] != '-'
  }

  predicate IsPiece(piece: string) {
    piece != [] && forall i :: 0 <= i < |piece| ==> IdChar(piece[i]) && piece[i] != '-'
  }

  lemma {:induction false} PiecesOf(s: string)
    requires forall i :: 0 <= i < |s| ==> IdChar(s[i])
    ensures forall p :: p in SplitOn(s, '-') ==> p == [] || IsPiece(p)
  {
    if s != [] {
      PiecesOf(s[1..]);
      var rest := SplitOn(s[1..], '-');
      forall p | p in SplitOn(s, '-') ensures p == [] || IsPiece(p) {
        assert p == [] || p in rest || p == [s[0]] + rest[0];
        assert rest[0] in rest;
      }
    }
  }

  lemma {:induction false} DropEmptyPieces(pieces: seq<string>)
    requires forall p :: p in pieces ==> p == [] || IsPiece(p)
    ensures forall p :: p in DropEmpty(pieces) ==> IsPiece(p)
  {
    if pieces != [] {
      DropEmptyPieces(pieces[1..]);
      assert pieces[0] in pieces;
    }
  }

  lemma {:induction false} JoinIsCanonical(pieces: seq<string>)
    requires pieces != [] && forall p :: p in pieces ==> IsPiece(p)
    ensures IsCanonical(JoinWith(pieces, '-'))
  {
    assert IsPiece(pieces[0]);
    if |pieces| > 1 {
      JoinIsCanonical(pieces[1..]);
      var head, tail := pieces[0], JoinWith(pieces[1..], '-');
      var id := head + "-" + tail;
      forall i | 0 <= i < |id| ensures IdChar(id[i]) {
        assert id[i] == if i < |head| then head[i] else if i == |head| then '-' else tail[i - |head| - 1];
      }
      forall i | 0 <= i < |id| - 1 && id[i] == '-' ensures id[i + 1] != '-' {
        if i == |head| {
          assert id[i + 1] == tail[0];
        } else if i > |head| {
          assert id[i] == tail[i - |head| - 1] && id[i + 1] == tail[i - |head|];
        }
      }
    }
  }

  /** The canonical form is canonical, and exactly the canonical ids are their own canonical form;
      so sanitizing twice changes nothing. */
  lemma SanitizedIsCanonical(input: string)
    ensures IsCanonical(CanonicalId(input))
    ensures IsCanonical(input) <==> CanonicalId(input) == input
    ensures CanonicalId(CanonicalId(input)) == CanonicalId(input)
  {
    CanonicalFormIsCanonical(input);
    if IsCanonical(input) {
      CanonicalIsFixed(input);
    }
    CanonicalIsFixed(CanonicalId(input));
  }

  lemma CanonicalFormIsCanonical(input: string)
    ensures IsCanonical(CanonicalId(input))
  {
    WordsArePieces(input);
    JoinIsCanonical(Words(input));
  }

  lemma WordsArePieces(input: string)
    ensures forall word :: word in Words(input) ==> IsPiece(word)
  {
    PiecesOf(MapChars(input));
    DropEmptyPieces(SplitOn(MapChars(input), '-'));
  }

  lemma CanonicalIsFixed(id: string)
    requires IsCanonical(id)
    ensures CanonicalId(id) == id
  {
    assert MapChars(id) == id;
    SolidPieces(id);
    JoinSplit(id, '-');
  }

  // ---- entity topics ----

  type EntityTopicId = string

  const MAIN_DEVICE: EntityTopicId := "device/main//"

  function ChildDevice(id: string): EntityTopicId {
    "device/" + id + "//"
  }

  function ChannelTopic(entity: EntityTopicId, channel: string): string {
    "te/" + entity + "/" + channel
  }

  /** Topic id of the device a device type is applied as, below a server's topic id. */
  function DeviceId(serverTopicId: string, deviceTypeId: string): string {
    serverTopicId + "-" + CanonicalId(deviceTypeId)
  }

  lemma CanonicalHasNoSpecial(id: string)
    requires IsCanonical(id)
    ensures '/' !in id && '+' !in id && '#' !in id
  {
    forall c | c in id ensures IdChar(c) {
      var i :| 0 <= i < |id| && id[i] == c;
    }
  }

  predicate HasSegments(s: string, segments: seq<string>) {
    SplitOn(s, '/') == segments
  }

  lemma SegmentInFront(segment: string, rest: string, segments: seq<string>, s: string, all: seq<string>)
    requires '/' !in segment && HasSegments(rest, segments)
    requires s == segment + "/" + rest && all == [segment] + segments
    ensures HasSegments(s, all)
  {
    SplitOnAppend(segment, '/', rest);
  }

  /** The segments of an entity, in front of whatever follows. */
  lemma EntitySegments(id: string, below: string, segments: seq<string>)
    requires '/' !in id && HasSegments(below, segments)
    ensures HasSegments("device/" + id + "//" + below, ["device", id, ""] + segments)
  {
    SegmentInFront("", below, segments, "/" + below, [""] + segments);
    SegmentInFront(id, "/" + below, [""] + segments, id + "//" + below, [id, ""] + segments);
    SegmentInFront("device", id + "//" + below, [id, ""] + segments, "device/" + id + "//" + below,
                   ["device", id, ""] + segments);
  }

  lemma ChildSegments(id: string)
    requires '/' !in id
    ensures HasSegments(ChildDevice(id), ["device", id, "", ""])
  {
    EntitySegments(id, "", [""]);
    assert ChildDevice(id) == "device/" + id + "//" + "";
  }

  lemma ChannelSegments(id: string, channel: string, segments: seq<string>)
    requires '/' !in id && HasSegments(channel, segments)
    ensures HasSegments(ChannelTopic(ChildDevice(id), channel), ["te", "device", id, "", ""] + segments)
  {
    var below := "/" + channel;
    SegmentInFront("", channel, segments, below, [""] + segments);
    EntitySegments(id, below, [""] + segments);
    SegmentInFront("te", "device/" + id + "//" + below, ["device", id, ""] + ([""] + segments),
                   ChannelTopic(ChildDevice(id), channel), ["te", "device", id, "", ""] + segments);
  }

  /** Every device entity has exactly the four segments `device`, its id and two empty ones, and
      neither a separator nor a wildcard slips in, whatever the server is called and whatever the
      device type id is; a channel topic is these segments under `te`, then the channel's own, and has a
      wildcard exactly when the channel, which may hold a type as it was authored, has one. */
  lemma DeviceTopicsAreWellFormed(serverName: string, deviceTypeId: string, channel: string)
    ensures
      var id := DeviceId(CanonicalId(serverName), deviceTypeId);
      && IsCanonical(id)
      && SplitOn(ChildDevice(id), '/') == ["device", id, "", ""]
      && SplitOn(ChannelTopic(ChildDevice(id), channel), '/')
           == ["te", "device", id, "", ""] + SplitOn(channel, '/')
      && '+' !in ChildDevice(id) && '#' !in ChildDevice(id)
      && ('+' in ChannelTopic(ChildDevice(id), channel) <==> '+' in channel)
      && ('#' in ChannelTopic(ChildDevice(id), channel) <==> '#' in channel)
  {
    var s, d := CanonicalId(serverName), CanonicalId(deviceTypeId);
    CanonicalFormIsCanonical(serverName);
    CanonicalFormIsCanonical(deviceTypeId);
    CanonicalAppend(s, d);
    var id := DeviceId(s, deviceTypeId);
    CanonicalHasNoSpecial(id);
    ChildSegments(id);
    ChannelSegments(id, channel, SplitOn(channel, '/'));
  }

  lemma CanonicalAppend(s: string, d: string)
    requires IsCanonical(s) && IsCanonical(d)
    ensures IsCanonical(s + "-" + d)
  {
    var id := s + "-" + d;
    forall i | 0 <= i < |id| ensures IdChar(id[i]) {
      assert id[i] == if i < |s| then s[i] else if i == |s| then '-' else d[i - |s| - 1];
    }
    forall i | 0 <= i < |id| - 1 && id[i] == '-' ensures id[i + 1] != '-' {
      if i < |s| {
        assert id[i] == s[i] && i < |s| - 1 && id[i + 1] == s[i + 1];
      } else if i == |s| {
        assert id[i + 1] == d[0];
      } else {
        assert id[i] == d[i - |s| - 1] && id[i + 1] == d[i - |s|];
      }
    }
  }

  // ---- which ids are shared ----

  lemma WordsOfServer(name: string)
    ensures SplitOn(CanonicalId(name), '-') == Words(name)
  {
    WordsArePieces(name);
    forall word | word in Words(name) ensures '-' !in word {
      assert IsPiece(word);
    }
    SplitJoin(Words(name), '-');
  }

  /** Between the dashes of a device's id stand its server's words and then its own. */
  lemma WordsOfDevice(serverName: string, deviceTypeId: string)
    ensures SplitOn(DeviceId(CanonicalId(serverName), deviceTypeId), '-') == Words(serverName) + Words(deviceTypeId)
  {
    WordsOfServer(serverName);
    WordsOfServer(deviceTypeId);
    SplitOnConcat(CanonicalId(serverName), '-', CanonicalId(deviceTypeId));
  }

  lemma SameIds(a: string, b: string)
    ensures a == b <==> SplitOn(a, '-') == SplitOn(b, '-')
  {
    JoinSplit(a, '-');
    JoinSplit(b, '-');
  }

  /** Two devices share a topic id exactly when their servers' words followed by their own are the same
      words, wherever the server ends and however they are written. */
  lemma DeviceIdCollisions(n: string, d: string, m: string, e: string)
    ensures DeviceId(CanonicalId(n), d) == DeviceId(CanonicalId(m), e) <==> Words(n) + Words(d) == Words(m) + Words(e)
  {
    WordsOfDevice(n, d);
    WordsOfDevice(m, e);
    SameIds(DeviceId(CanonicalId(n), d), DeviceId(CanonicalId(m), e));
  }

  /** Two servers share one exactly when they have the same words, and a device has a server's exactly when
      that server has the words of both. */
  lemma ServerIdCollisions(n: string, d: string, m: string)
    ensures CanonicalId(n) == CanonicalId(m) <==> Words(n) == Words(m)
    ensures DeviceId(CanonicalId(n), d) == CanonicalId(m) <==> Words(n) + Words(d) == Words(m)
  {
    WordsOfServer(n);
    WordsOfServer(m);
    WordsOfDevice(n, d);
    SameIds(CanonicalId(n), CanonicalId(m));
    SameIds(DeviceId(CanonicalId(n), d), CanonicalId(m));
  }

  lemma SameEntities(a: string, b: string)
    ensures ChildDevice(a) == ChildDevice(b) <==> a == b
  {
    var x, y := ChildDevice(a), ChildDevice(b);
    if x == y {
      assert |x| == |a| + 9 && |y| == |b| + 9;
      assert x[7..7 + |a|] == a && y[7..7 + |b|] == b;
    }
  }

  /** Only a server, and only by this one word, is taken for the main device. */
  lemma MainDeviceCollisions(n: string, d: string)
    ensures ChildDevice(CanonicalId(n)) == MAIN_DEVICE <==> Words(n) == ["main"]
    ensures ChildDevice(DeviceId(CanonicalId(n), d)) != MAIN_DEVICE
  {
    SplitOnWhole("main", '-');
    IsMain(CanonicalId(n));
    WordsOfServer(n);
    IsMain(DeviceId(CanonicalId(n), d));
    WordsOfDevice(n, d);
  }

  lemma IsMain(id: string)
    ensures ChildDevice(id) == MAIN_DEVICE <==> SplitOn(id, '-') == SplitOn("main", '-')
  {
    SameIds(id, "main");
    SameEntities(id, "main");
    assert MAIN_DEVICE == ChildDevice("main");
  }

  /** Two device type ids that differ in case only are one device of every server. */
  lemma CaseCollides(serverName: string)
    ensures DeviceId(CanonicalId(serverName), "A") == DeviceId(CanonicalId(serverName), "a")
  {
    assert MapChars("A") == "a" && MapChars("a") == "a";
    DeviceIdCollisions(serverName, "A", serverName, "a");
  }

  lemma CanonicalSamples()
    ensures IsCanonical("a") && IsCanonical("b") && IsCanonical("c")
    ensures IsCanonical("a-b") && IsCanonical("b-c") && IsCanonical("a-b-c")
  {
    CanonicalAppend("b", "c");
    assert "b" + "-" + "c" == "b-c";
    CanonicalAppend("a", "b");
    assert "a" + "-" + "b" == "a-b";
    CanonicalAppend("a", "b-c");
    assert "a" + "-" + "b-c" == "a-b-c";
  }

  /** The ids are not injective: devices of different servers can share one entity, and a device can
      share the entity of a server, for ids that are all canonical. */
  lemma DeviceIdsCollide()
    ensures IsCanonical("a") && IsCanonical("a-b") && IsCanonical("b-c") && IsCanonical("c")
    ensures DeviceId("a", "b-c") == DeviceId("a-b", "c")
    ensures IsCanonical("a-b-c") && DeviceId("a", "b-c") == "a-b-c"
  {
    CanonicalSamples();
    CanonicalIsFixed("b-c");
    CanonicalIsFixed("c");
    assert "a" + "-" + "b-c" == "a-b-c";
    assert "a-b" + "-" + "c" == "a-b-c";
  }
}
