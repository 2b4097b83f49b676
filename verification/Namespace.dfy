/** Browse path segments and NodeId texts (crates/mapping/src/namespace.rs). */
module Namespace {
  import opened Text

  /** The live session's namespace array: index to URI. */
  type NamespaceTable = seq<string>

  datatype QualifiedName = QualifiedName(namespaceIndex: nat, name: string)

  datatype Identifier =
    | Numeric(number: nat)
    | Text(text: string)
    | Guid(guid: string)
    | Bytes(bytes: string)

  datatype NodeId = NodeId(namespaceIndex: nat, identifier: Identifier)

  datatype MappingError = UnknownNamespace(uri: string) | InvalidNodeId(nodeId: string)

  /** How GUID and base64 texts are read. Foreign code, so it is a parameter. */
  datatype Codec = Codec(guid: string -> Option<string>, base64: string -> Option<string>)

  function Position(table: NamespaceTable, uri: string): (r: Option<nat>)
    ensures r.Some? ==> r.value < |table| && table[r.value] == uri && uri !in table[..r.value]
    ensures r.None? ==> uri !in table
  {
    if table == [] then None
    else if table[0] == uri then Some(0)
    else
      match Position(table[1..], uri)
      case None => None
      case Some(i) =>
        assert table[..i + 1] == [table[0]] + table[1..][..i];
        Some(i + 1)
  }

  function IndexOf(table: NamespaceTable, uri: string): Option<nat> {
    match Position(table, uri)
    case Some(i) => if i <= U16_MAX then Some(i) else None
    case None => None
  }

  predicate IsRegex(segment: string) {
    StartsWith(segment, "regex(") && EndsWith(segment, ")")
  }

  /** A segment has the regex form when something, or nothing, stands between `regex(` and `)`. */
  lemma RegexIs(segment: string)
    ensures IsRegex(segment) <==> exists inner :: segment == "regex(" + inner + ")"
  {
    var n := |segment|;
    if IsRegex(segment) {
      assert segment[..6] == "regex(" && segment[n - 1..] == ")";
      assert segment[5] == segment[..6][5] && segment[n - 1] == segment[n - 1..][0];
      assert segment == "regex(" + segment[6..n - 1] + ")";
    }
    if inner :| segment == "regex(" + inner + ")" {
      assert segment[..6] == "regex(" && segment[n - 1..] == ")";
    }
  }

  /** The namespace a segment prefix names: a u16 first, then a URI of the table. */
  function ResolveNamespace(table: NamespaceTable, prefix: string): Option<nat> {
    match ParseUnsigned(prefix, U16_MAX)
    case Some(index) => Some(index)
    case None => IndexOf(table, prefix)
  }

  /** A colon whose prefix names a namespace. */
  predicate SplitsAt(table: NamespaceTable, segment: string, d: nat) {
    d < |segment| && segment[d] == ':' && ResolveNamespace(table, segment[..d]).Some?
  }

  /** The rightmost such colon below `n`. */
  function SplitPoint(table: NamespaceTable, segment: string, n: nat): (r: Option<nat>)
    requires n <= |segment|
    ensures r.Some? ==> r.value < n && SplitsAt(table, segment, r.value)
  {
    if n == 0 then None
    else if SplitsAt(table, segment, n - 1) then Some(n - 1)
    else SplitPoint(table, segment, n - 1)
  }

  lemma {:induction false} SplitPointIsRightmost(table: NamespaceTable, segment: string, n: nat)
    requires n <= |segment|
    ensures
      var r := SplitPoint(table, segment, n);
      forall e: nat :: (r.Some? ==> r.value < e) && e < n ==> !SplitsAt(table, segment, e)
  {
    if n > 0 && !SplitsAt(table, segment, n - 1) {
      SplitPointIsRightmost(table, segment, n - 1);
    }
  }

  /** What a browse path segment denotes. */
  function QualifiedNameOf(table: NamespaceTable, segment: string): QualifiedName {
    match SplitPoint(table, segment, |segment|)
    case None => QualifiedName(0, segment)
    case Some(d) => QualifiedName(ResolveNamespace(table, segment[..d]).value, segment[d + 1..])
  }

  function QualifiedNamesOf(table: NamespaceTable, path: seq<string>): (names: seq<QualifiedName>)
    ensures |names| == |path|
    ensures forall i :: 0 <= i < |path| ==> names[i] == QualifiedNameOf(table, path[i])
  {
    seq(|path|, i requires 0 <= i < |path| => QualifiedNameOf(table, path[i]))
  }

  /** Positions that hold no colon do not move the split. */
  lemma {:induction false} NoColonNoSplit(table: NamespaceTable, segment: string, lo: nat, hi: nat)
    requires lo <= hi <= |segment|
    requires forall i :: lo <= i < hi ==> segment[i] != ':'
    ensures SplitPoint(table, segment, hi) == SplitPoint(table, segment, lo)
  {
    if lo < hi {
      NoColonNoSplit(table, segment, lo, hi - 1);
    }
  }

  /** Only the last colon below `n` can be the rightmost split there. */
  lemma LastColonDecides(table: NamespaceTable, segment: string, n: nat)
    requires n <= |segment|
    ensures
      var last := LastIndexOf(segment[..n], ':');
      SplitPoint(table, segment, n) == if last.Some? then SplitPoint(table, segment, last.value + 1) else None
  {
    var last := LastIndexOf(segment[..n], ':');
    LastIndexOfIsLast(segment[..n], ':');
    var lo := if last.Some? then last.value + 1 else 0;
    forall i | lo <= i < n ensures segment[i] != ':' {
      assert segment[..n][i] == segment[i];
    }
    NoColonNoSplit(table, segment, lo, n);
  }

  /** No colon from `n` on splits the segment. */
  predicate OpenBelow(table: NamespaceTable, segment: string, n: nat) {
    n <= |segment| && SplitPoint(table, segment, |segment|) == SplitPoint(table, segment, n)
  }

  /** The search goes on at the last colon that is left; when none is left the whole segment is the name. */
  lemma GoesOnAt(table: NamespaceTable, segment: string, n: nat, prefix: string)
    requires OpenBelow(table, segment, n) && prefix == segment[..n]
    ensures
      var last := LastIndexOf(prefix, ':');
      if last.None? then QualifiedNameOf(table, segment) == QualifiedName(0, segment)
      else last.value < n && segment[last.value] == ':' && OpenBelow(table, segment, last.value + 1)
  {
    LastColonDecides(table, segment, n);
  }

  /** A colon whose prefix resolves ends the search, any other is passed over. */
  lemma DecidesAt(table: NamespaceTable, segment: string, d: nat, prefix: string)
    requires OpenBelow(table, segment, d + 1) && segment[d] == ':' && prefix == segment[..d]
    ensures
      var index := ResolveNamespace(table, prefix);
      if index.None? then OpenBelow(table, segment, d)
      else QualifiedNameOf(table, segment) == QualifiedName(index.value, segment[d + 1..])
  {
  }

  /** Colons are tried from the last to the first; the first whose prefix resolves ends the prefix. */
  method ToQualifiedName(table: NamespaceTable, segment: string) returns (name: QualifiedName)
    ensures name == QualifiedNameOf(table, segment)
  {
    var last := LastIndexOf(segment, ':');
    GoesOnAt(table, segment, |segment|, segment);
    if last.None? {
      return QualifiedName(0, segment);
    }
    var delim: nat := last.value;
    while true
      invariant OpenBelow(table, segment, delim + 1) && segment[delim] == ':'
      decreases delim
    {
      var prefix, value := segment[..delim], segment[delim + 1..];
      var index := ResolveNamespace(table, prefix);
      DecidesAt(table, segment, delim, prefix);
      if index.Some? {
        return QualifiedName(index.value, value);
      }
      var next := LastIndexOf(prefix, ':');
      GoesOnAt(table, segment, delim, prefix);
      if next.None? {
        return QualifiedName(0, segment);
      }
      delim := next.value;
    }
  }

  /** A segment is read as a plain namespace 0 name exactly when none of its prefixes resolves. */
  lemma WholeSegmentIffNothingResolves(table: NamespaceTable, segment: string)
    ensures QualifiedNameOf(table, segment) == QualifiedName(0, segment)
      <==> forall d: nat :: !SplitsAt(table, segment, d)
  {
    var r := SplitPoint(table, segment, |segment|);
    SplitPointIsRightmost(table, segment, |segment|);
    if r.Some? {
      assert |segment[r.value + 1..]| < |segment|;
    }
  }

  /** No colon inside the name turns `prefix:name` into a longer prefix that also resolves. */
  predicate NoLongerPrefix(table: NamespaceTable, prefix: string, name: string) {
    forall k :: 0 <= k < |name| && name[k] == ':'
      ==> ResolveNamespace(table, prefix + ":" + name[..k]).None?
  }

  lemma PrintedSegment(prefix: string, name: string)
    ensures
      var s, p := prefix + ":" + name, |prefix|;
      && |s| == p + 1 + |name| && s[..p] == prefix && s[p + 1..] == name && s[p] == ':'
      && forall k :: 0 <= k < |name| ==> s[..p + 1 + k] == prefix + ":" + name[..k] && s[p + 1 + k] == name[k]
  {
    var s, p := prefix + ":" + name, |prefix|;
    forall k | 0 <= k < |name| ensures s[..p + 1 + k] == prefix + ":" + name[..k] && s[p + 1 + k] == name[k] {}
  }

  /** A longer prefix that resolves is a split further right. */
  lemma LongerPrefixSplits(table: NamespaceTable, prefix: string, name: string, k: nat, s: string, e: nat)
    requires k < |name| && s == prefix + ":" + name && e == |prefix| + 1 + k
    ensures SplitsAt(table, s, e) <==> name[k] == ':' && ResolveNamespace(table, prefix + ":" + name[..k]).Some?
  {
    PrintedSegment(prefix, name);
  }

  /** No colon behind position `p` splits the segment. */
  predicate NoSplitBehind(table: NamespaceTable, segment: string, p: nat) {
    forall e: nat :: p < e < |segment| ==> !SplitsAt(table, segment, e)
  }

  /** A colon that splits decides the reading exactly when none behind it does. */
  lemma ReadsBackAt(table: NamespaceTable, segment: string, p: nat, name: string)
    requires SplitsAt(table, segment, p) && name == segment[p + 1..]
    ensures
      var index := ResolveNamespace(table, segment[..p]).value;
      QualifiedNameOf(table, segment) == QualifiedName(index, name) <==> NoSplitBehind(table, segment, p)
  {
    SplitPointIsRightmost(table, segment, |segment|);
    var d := SplitPoint(table, segment, |segment|).value;
    if d > p {
      assert |segment[d + 1..]| < |name|;
    }
  }

  lemma NoSplitBehindThePrefix(table: NamespaceTable, prefix: string, name: string)
    ensures NoSplitBehind(table, prefix + ":" + name, |prefix|) <==> NoLongerPrefix(table, prefix, name)
  {
    if NoLongerPrefix(table, prefix, name) {
      NoSplitWithout(table, prefix, name, prefix + ":" + name, |prefix|);
    }
    if NoSplitBehind(table, prefix + ":" + name, |prefix|) {
      NoPrefixWithout(table, prefix, name, prefix + ":" + name, |prefix|);
    }
  }

  lemma NoSplitWithout(table: NamespaceTable, prefix: string, name: string, s: string, p: nat)
    requires NoLongerPrefix(table, prefix, name) && s == prefix + ":" + name && p == |prefix|
    ensures NoSplitBehind(table, s, p)
  {
    forall e: nat | p < e < |s| ensures !SplitsAt(table, s, e) {
      LongerPrefixSplits(table, prefix, name, e - p - 1, s, e);
    }
  }

  lemma NoPrefixWithout(table: NamespaceTable, prefix: string, name: string, s: string, p: nat)
    requires NoSplitBehind(table, s, p) && s == prefix + ":" + name && p == |prefix|
    ensures NoLongerPrefix(table, prefix, name)
  {
    forall k | 0 <= k < |name| && name[k] == ':' ensures ResolveNamespace(table, prefix + ":" + name[..k]).None? {
      LongerPrefixSplits(table, prefix, name, k, s, p + 1 + k);
    }
  }

  /** `prefix:name` reads back as `name` in the namespace of `prefix` exactly when no longer prefix
      resolves as well. */
  lemma PrintedSegmentReadsBack(table: NamespaceTable, prefix: string, name: string)
    requires ResolveNamespace(table, prefix).Some?
    ensures QualifiedNameOf(table, prefix + ":" + name)
              == QualifiedName(ResolveNamespace(table, prefix).value, name)
      <==> NoLongerPrefix(table, prefix, name)
    ensures ':' !in name ==> NoLongerPrefix(table, prefix, name)
  {
    PrintedSegment(prefix, name);
    ReadsBackAt(table, prefix + ":" + name, |prefix|, name);
    NoSplitBehindThePrefix(table, prefix, name);
  }

  lemma {:induction false} FirstPosition(table: NamespaceTable, index: nat)
    requires index < |table| && table[index] !in table[..index]
    ensures Position(table, table[index]) == Some(index)
  {
    if index > 0 {
      assert table[0] in table[..index];
      assert table[1..][..index - 1] == table[..index][1..];
      FirstPosition(table[1..], index - 1);
    }
  }

  /** Both spellings of a namespace resolve to its index: the index itself always, the URI when it
      is the first at that index and does not read as another number. */
  lemma SpellingsOfANamespace(table: NamespaceTable, index: nat)
    ensures ResolveNamespace(table, Decimal(index)) ==
      if index <= 0xFFFF then Some(index) else IndexOf(table, Decimal(index))
    ensures index <= 0xFFFF && index < |table| && table[index] !in table[..index] ==>
      var byUri := ResolveNamespace(table, table[index]) == Some(index);
      byUri <==> ParseUnsigned(table[index], U16_MAX) in {None, Some(index)}
  {
    DecimalParses(index, U16_MAX);
    if index <= U16_MAX && index < |table| && table[index] !in table[..index] {
      FirstPosition(table, index);
    }
  }

  /** A colon-free name printed under its namespace, by index or by URI, is read back unchanged. */
  lemma QualifiedNameRoundTrip(table: NamespaceTable, index: nat, name: string)
    requires index <= U16_MAX && ':' !in name
    ensures QualifiedNameOf(table, Decimal(index) + ":" + name) == QualifiedName(index, name)
    ensures index < |table| && table[index] !in table[..index] && ParseUnsigned(table[index], U16_MAX).None?
      ==> QualifiedNameOf(table, table[index] + ":" + name) == QualifiedName(index, name)
  {
    SpellingsOfANamespace(table, index);
    PrintedSegmentReadsBack(table, Decimal(index), name);
    if index < |table| && table[index] !in table[..index] && ParseUnsigned(table[index], U16_MAX).None? {
      PrintedSegmentReadsBack(table, table[index], name);
    }
  }

  // ---- NodeId texts ----

  /** What the part of a NodeId text before a semicolon says. */
  datatype Head = Sets(index: nat) | ServerIndex | NotAPrefix | Fails(unknown: Option<string>)

  function ReadHead(table: NamespaceTable, head: string): Head {
    var lower := LowerAll(head);
    // The URI comes from the original text: lowercasing must not leak into it.
    if StartsWith(lower, "nsu=") then
      match IndexOf(table, head[4..])
      case Some(index) => Sets(index)
      case None => Fails(Some(head[4..]))
    else if StartsWith(lower, "ns=") then
      match ParseUnsigned(lower[3..], U16_MAX)
      case Some(index) => Sets(index)
      case None => Fails(None)
    else if StartsWith(lower, "svr=") then ServerIndex
    else NotAPrefix
  }

  datatype Prefixes = Read(namespaceIndex: nat, rest: string) | Failed(unknown: Option<string>)

  /** Strip at most `n` prefixes from `rest`. */
  function ReadPrefixes(table: NamespaceTable, namespaceIndex: nat, rest: string, n: nat): Prefixes
    decreases n
  {
    match FirstIndexOf(rest, ';')
    case None => Read(namespaceIndex, rest)
    case Some(semicolon) =>
      if n == 0 then Read(namespaceIndex, rest)
      else
        match ReadHead(table, rest[..semicolon])
        case Sets(index) => ReadPrefixes(table, index, rest[semicolon + 1..], n - 1)
        case ServerIndex => ReadPrefixes(table, namespaceIndex, rest[semicolon + 1..], n - 1)
        case NotAPrefix => Read(namespaceIndex, rest)
        case Fails(unknown) => Failed(unknown)
  }

  function ParseIdentifier(codec: Codec, s: string): Option<Identifier> {
    if StartsWith(s, "i=") then
      match ParseUnsigned(s[2..], U32_MAX)
      case Some(n) => Some(Numeric(n))
      case None => None
    else if StartsWith(s, "s=") then Some(Text(s[2..]))
    else if StartsWith(s, "g=") then
      match codec.guid(s[2..])
      case Some(g) => Some(Guid(g))
      case None => None
    else if StartsWith(s, "b=") then
      match codec.base64(s[2..])
      case Some(b) => Some(Bytes(b))
      case None => None
    else None
  }

  const MAX_PREFIXES: nat := 3

  function NodeIdOf(table: NamespaceTable, codec: Codec, s: string): Result<NodeId, MappingError> {
    match ReadPrefixes(table, 0, s, MAX_PREFIXES)
    case Failed(Some(uri)) => Err(UnknownNamespace(uri))
    case Failed(None) => Err(InvalidNodeId(s))
    case Read(index, rest) =>
      match ParseIdentifier(codec, rest)
      case Some(identifier) => Ok(NodeId(index, identifier))
      case None => Err(InvalidNodeId(s))
  }

  predicate ReadsAs(table: NamespaceTable, index: nat, s: string, n: nat, r: Prefixes) {
    r == ReadPrefixes(table, index, s, n)
  }

  /** What is left to read after looking at the text up to the first semicolon. */
  lemma ReadOn(table: NamespaceTable, index: nat, rest: string, n: nat, r: Prefixes)
    requires ReadsAs(table, index, rest, n, r)
    ensures FirstIndexOf(rest, ';').None? || n == 0 ==> r == Read(index, rest)
    ensures FirstIndexOf(rest, ';').Some? && n > 0 ==>
      var semicolon := FirstIndexOf(rest, ';').value;
      match ReadHead(table, rest[..semicolon])
      case Sets(named) => ReadsAs(table, named, rest[semicolon + 1..], n - 1, r)
      case ServerIndex => ReadsAs(table, index, rest[semicolon + 1..], n - 1, r)
      case NotAPrefix => r == Read(index, rest)
      case Fails(unknown) => r == Failed(unknown)
  {
  }

  /** The prefix loop, as the gateway reads it. */
  method StripPrefixes(table: NamespaceTable, s: string) returns (r: Prefixes)
    ensures r == ReadPrefixes(table, 0, s, MAX_PREFIXES)
  {
    var namespaceIndex, rest := 0, s;
    ghost var expected := ReadPrefixes(table, 0, s, MAX_PREFIXES);
    for i := 0 to MAX_PREFIXES
      invariant ReadsAs(table, namespaceIndex, rest, MAX_PREFIXES - i, expected)
    {
      ReadOn(table, namespaceIndex, rest, MAX_PREFIXES - i, expected);
      var semicolon := FirstIndexOf(rest, ';');
      if semicolon.None? {
        return Read(namespaceIndex, rest);
      }
      var head, tail := rest[..semicolon.value], rest[semicolon.value + 1..];
      match ReadHead(table, head) {
        case Fails(unknown) => return Failed(unknown);
        case NotAPrefix => return Read(namespaceIndex, rest);
        case Sets(index) => namespaceIndex := index;
        case ServerIndex =>
      }
      rest := tail;
    }
    ReadOn(table, namespaceIndex, rest, 0, expected);
    return Read(namespaceIndex, rest);
  }

  /** The prefixes, then the identifier. */
  method ParseNodeId(table: NamespaceTable, codec: Codec, s: string)
    returns (r: Result<NodeId, MappingError>)
    ensures r == NodeIdOf(table, codec, s)
  {
    var prefixes := StripPrefixes(table, s);
    match prefixes {
      case Failed(Some(uri)) => r := Err(UnknownNamespace(uri));
      case Failed(None) => r := Err(InvalidNodeId(s));
      case Read(index, rest) =>
        var identifier := ParseIdentifier(codec, rest);
        match identifier {
          case Some(id) => r := Ok(NodeId(index, id));
          case None => r := Err(InvalidNodeId(s));
        }
    }
  }

  /** `text` is the NodeId text form of an identifier (OPC 10000-6, section 5.3.1.10). */
  predicate IdentifierText(codec: Codec, identifier: Identifier, text: string) {
    match identifier
    case Numeric(n) => n <= U32_MAX && text == "i=" + Decimal(n)
    case Text(t) => text == "s=" + t
    case Guid(g) => StartsWith(text, "g=") && codec.guid(text[2..]) == Some(g)
    case Bytes(b) => StartsWith(text, "b=") && codec.base64(text[2..]) == Some(b)
  }

  lemma IdentifierTextParses(codec: Codec, identifier: Identifier, text: string)
    requires IdentifierText(codec, identifier, text)
    ensures ParseIdentifier(codec, text) == Some(identifier)
    ensures |text| >= 2 && text[0] in "isgb" && text[1] == '='
  {
    match identifier {
      case Numeric(n) =>
        DecimalParses(n, U32_MAX);
        assert text[2..] == Decimal(n);
      case Text(t) => assert text[2..] == t;
      case Guid(_) => assert text[0] == text[..2][0] && text[1] == text[..2][1];
      case Bytes(_) => assert text[0] == text[..2][0] && text[1] == text[..2][1];
    }
  }

  /** An identifier text is never taken for a prefix, whatever it contains. */
  lemma IdentifierIsNoPrefix(table: NamespaceTable, index: nat, text: string, n: nat)
    requires |text| >= 2 && text[0] in "isgb" && text[1] == '='
    ensures ReadPrefixes(table, index, text, n) == Read(index, text)
  {
    var semicolon := FirstIndexOf(text, ';');
    if semicolon.Some? && n > 0 {
      var lower := LowerAll(text[..semicolon.value]);
      assert semicolon.value >= 2;
      assert lower[1] == '=';
      StartsWithAt(lower, "nsu=", 1);
      StartsWithAt(lower, "ns=", 1);
      StartsWithAt(lower, "svr=", 1);
    }
  }

  /** Reading a first prefix leaves the rest of the text to be read with one prefix fewer. */
  lemma ReadFirstPrefix(table: NamespaceTable, head: string, rest: string, index: nat, n: nat)
    requires n > 0 && ';' !in head
    ensures ReadHead(table, head).Sets? ==>
      ReadPrefixes(table, index, head + ";" + rest, n)
        == ReadPrefixes(table, ReadHead(table, head).index, rest, n - 1)
    ensures ReadHead(table, head).ServerIndex? ==>
      ReadPrefixes(table, index, head + ";" + rest, n) == ReadPrefixes(table, index, rest, n - 1)
  {
    var s := head + ";" + rest;
    FirstIndexOfAppend(head, ';', rest);
    assert s[..|head|] == head && s[|head| + 1..] == rest;
  }

  lemma IndexHead(table: NamespaceTable, index: nat)
    requires index <= U16_MAX
    ensures ReadHead(table, "ns=" + Decimal(index)) == Sets(index) && ';' !in "ns=" + Decimal(index)
  {
    DecimalParses(index, U16_MAX);
    var text := "ns=" + Decimal(index);
    var lower := LowerAll(text);
    forall i | 0 <= i < |text| ensures lower[i] == text[i] {
      assert i >= 3 ==> text[i] == Decimal(index)[i - 3] && Decimal(index)[i - 3] in Decimal(index);
    }
    assert lower == text && lower[..3] == "ns=" && lower[3..] == Decimal(index);
    StartsWithAt(lower, "nsu=", 2);
  }

  lemma UriHead(table: NamespaceTable, uri: string)
    requires IndexOf(table, uri).Some?
    ensures ReadHead(table, "nsu=" + uri) == Sets(IndexOf(table, uri).value)
  {
    var head := "nsu=" + uri;
    assert LowerAll(head)[..4] == "nsu=" && head[4..] == uri;
  }

  predicate IsPrefix(table: NamespaceTable, head: string) {
    ';' !in head && (ReadHead(table, head).Sets? || ReadHead(table, head).ServerIndex?)
  }

  /** Prefixes in front of an identifier text, each ended by a semicolon. */
  function Prefixed(heads: seq<string>, text: string): string {
    if heads == [] then text else heads[0] + ";" + Prefixed(heads[1..], text)
  }

  function IndexAfter(table: NamespaceTable, head: string, index: nat): nat {
    var read := ReadHead(table, head);
    if read.Sets? then read.index else index
  }

  /** The last prefix that names a namespace decides it. */
  function NamespaceAfter(table: NamespaceTable, heads: seq<string>, index: nat): nat {
    if heads == [] then index else NamespaceAfter(table, heads[1..], IndexAfter(table, heads[0], index))
  }

  predicate ReadsPrefixed(table: NamespaceTable, index: nat, heads: seq<string>, text: string, n: nat, r: Prefixes) {
    ReadsAs(table, index, Prefixed(heads, text), n, r)
  }

  lemma ReadsOnePrefix(table: NamespaceTable, heads: seq<string>, text: string, index: nat, n: nat, r: Prefixes)
    requires heads != [] && n > 0 && IsPrefix(table, heads[0])
    requires ReadsPrefixed(table, IndexAfter(table, heads[0], index), heads[1..], text, n - 1, r)
    ensures ReadsPrefixed(table, index, heads, text, n, r)
  {
    ReadFirstPrefix(table, heads[0], Prefixed(heads[1..], text), index, n);
  }

  predicate ArePrefixes(table: NamespaceTable, heads: seq<string>) {
    forall i :: 0 <= i < |heads| ==> IsPrefix(table, heads[i])
  }

  lemma OtherPrefixes(table: NamespaceTable, heads: seq<string>)
    requires ArePrefixes(table, heads) && heads != []
    ensures IsPrefix(table, heads[0]) && ArePrefixes(table, heads[1..])
  {
  }

  lemma NextNamespaceAfter(table: NamespaceTable, heads: seq<string>, index: nat)
    requires heads != []
    ensures NamespaceAfter(table, heads, index) == NamespaceAfter(table, heads[1..], IndexAfter(table, heads[0], index))
  {
  }

  predicate EndsIn(table: NamespaceTable, heads: seq<string>, index: nat, final: nat) {
    final == NamespaceAfter(table, heads, index)
  }

  lemma NoPrefixes(table: NamespaceTable, heads: seq<string>, text: string, index: nat, final: nat, n: nat,
                   total: nat) returns (r: Prefixes)
    requires heads == [] && total == n && EndsIn(table, heads, index, final)
    ensures ReadsPrefixed(table, index, heads, text, total, r) && ReadsAs(table, final, text, n, r)
  {
    r := ReadPrefixes(table, index, text, n);
  }

  /** All prefixes are stripped, with `n` more allowed. */
  lemma {:induction false} ReadsAllPrefixes(table: NamespaceTable, heads: seq<string>, text: string, index: nat,
                                            final: nat, n: nat, total: nat) returns (r: Prefixes)
    requires ArePrefixes(table, heads) && total == n + |heads| && EndsIn(table, heads, index, final)
    ensures ReadsPrefixed(table, index, heads, text, total, r) && ReadsAs(table, final, text, n, r)
    decreases |heads|
  {
    if heads == [] {
      r := NoPrefixes(table, heads, text, index, final, n, total);
    } else {
      BehindFirst(table, heads, index, final);
      r := ReadsAllPrefixes(table, heads[1..], text, IndexAfter(table, heads[0], index), final, n, total - 1);
      ReadsOnePrefix(table, heads, text, index, total, r);
    }
  }

  lemma BehindFirst(table: NamespaceTable, heads: seq<string>, index: nat, final: nat)
    requires heads != [] && ArePrefixes(table, heads) && EndsIn(table, heads, index, final)
    ensures IsPrefix(table, heads[0]) && ArePrefixes(table, heads[1..])
    ensures EndsIn(table, heads[1..], IndexAfter(table, heads[0], index), final)
  {
    OtherPrefixes(table, heads);
    NextNamespaceAfter(table, heads, index);
  }

  /** No identifier kind starts like a prefix. */
  lemma PrefixIsNoIdentifier(table: NamespaceTable, codec: Codec, head: string, rest: string)
    requires IsPrefix(table, head)
    ensures ParseIdentifier(codec, head + rest).None?
  {
    var lower := LowerAll(head);
    StartsWithAt(lower, "nsu=", 1);
    StartsWithAt(lower, "ns=", 1);
    StartsWithAt(lower, "svr=", 1);
    assert |head| >= 3 && lower[1] in "sv";
    var s := head + rest;
    assert s[1] == head[1] && Lower(head[1]) == lower[1];
    StartsWithAt(s, "i=", 1);
    StartsWithAt(s, "s=", 1);
    StartsWithAt(s, "g=", 1);
    StartsWithAt(s, "b=", 1);
  }

  lemma TooManyPrefixes(table: NamespaceTable, codec: Codec, heads: seq<string>, text: string, n: nat)
    requires |heads| > n && ArePrefixes(table, heads)
    ensures ReadPrefixes(table, 0, Prefixed(heads, text), n).Read?
    ensures ParseIdentifier(codec, ReadPrefixes(table, 0, Prefixed(heads, text), n).rest).None?
  {
    var tail := Prefixed(heads[n..], text);
    PrefixedSplit(heads, text, n);
    var r := ReadsAllPrefixes(table, heads[..n], tail, 0, NamespaceAfter(table, heads[..n], 0), 0, n);
    assert tail == heads[n] + (";" + Prefixed(heads[n..][1..], text));
    PrefixIsNoIdentifier(table, codec, heads[n], ";" + Prefixed(heads[n..][1..], text));
  }

  lemma {:induction false} PrefixedSplit(heads: seq<string>, text: string, n: nat)
    requires n <= |heads|
    ensures Prefixed(heads, text) == Prefixed(heads[..n], Prefixed(heads[n..], text))
  {
    if n > 0 {
      PrefixedSplit(heads[1..], text, n - 1);
      assert heads[..n][1..] == heads[1..][..n - 1];
      assert heads[1..][n - 1..] == heads[n..];
    }
  }

  /** An identifier text behind `ns=`, `nsu=` and `svr=` prefixes, in any order and any case, is read
      as that identifier in the namespace named last, exactly when there are at most three prefixes.
      String identifiers may hold semicolons or text that looks like a prefix. */
  lemma PrefixedNodeIdReadsBack(table: NamespaceTable, codec: Codec, heads: seq<string>, identifier: Identifier,
                                text: string)
    requires IdentifierText(codec, identifier, text)
    requires ArePrefixes(table, heads)
    ensures var s := Prefixed(heads, text);
      NodeIdOf(table, codec, s)
        == if |heads| <= 3 then Ok(NodeId(NamespaceAfter(table, heads, 0), identifier))
           else Err(InvalidNodeId(s))
  {
    var n := MAX_PREFIXES;
    if |heads| <= n {
      IdentifierTextParses(codec, identifier, text);
      var r := ReadsAllPrefixes(table, heads, text, 0, NamespaceAfter(table, heads, 0), n - |heads|, n);
      IdentifierIsNoPrefix(table, NamespaceAfter(table, heads, 0), text, n - |heads|);
    } else {
      TooManyPrefixes(table, codec, heads, text, n);
    }
  }

  /** The text of a NodeId with its namespace by index (OPC 10000-6, section 5.3.1.10). */
  function NodeIdText(index: nat, text: string): string {
    "ns=" + Decimal(index) + ";" + text
  }

  /** Every NodeId is read back from its text: with the `ns=` prefix, with the `nsu=` prefix of a
      semicolon-free URI that names its namespace, and without a prefix in namespace 0. */
  lemma NodeIdRoundTrip(table: NamespaceTable, codec: Codec, id: NodeId, text: string, uri: string)
    requires id.namespaceIndex <= U16_MAX && IdentifierText(codec, id.identifier, text)
    ensures NodeIdOf(table, codec, NodeIdText(id.namespaceIndex, text)) == Ok(id)
    ensures id.namespaceIndex == 0 ==> NodeIdOf(table, codec, text) == Ok(id)
    ensures IndexOf(table, uri) == Some(id.namespaceIndex) && ';' !in uri
      ==> NodeIdOf(table, codec, "nsu=" + uri + ";" + text) == Ok(id)
  {
    var byIndex := "ns=" + Decimal(id.namespaceIndex);
    IndexHead(table, id.namespaceIndex);
    PrefixedNodeIdReadsBack(table, codec, [byIndex], id.identifier, text);
    assert Prefixed([byIndex], text) == byIndex + ";" + Prefixed([], text);
    PrefixedNodeIdReadsBack(table, codec, [], id.identifier, text);
    if IndexOf(table, uri) == Some(id.namespaceIndex) && ';' !in uri {
      var byUri := "nsu=" + uri;
      UriHead(table, uri);
      PrefixedNodeIdReadsBack(table, codec, [byUri], id.identifier, text);
      assert Prefixed([byUri], text) == byUri + ";" + Prefixed([], text);
    }
  }

  lemma {:induction false} FailsForUnknown(table: NamespaceTable, index: nat, rest: string, n: nat)
    ensures
      var r := ReadPrefixes(table, index, rest, n);
      r.Failed? && r.unknown.Some? ==> IndexOf(table, r.unknown.value).None?
    decreases n
  {
    var semicolon := FirstIndexOf(rest, ';');
    if semicolon.Some? && n > 0 {
      var head, tail := ReadHead(table, rest[..semicolon.value]), rest[semicolon.value + 1..];
      if head.Sets? || head.ServerIndex? {
        FailsForUnknown(table, if head.Sets? then head.index else index, tail, n - 1);
      }
    }
  }

  lemma FirstHeadFails(table: NamespaceTable, head: string, rest: string, n: nat)
    requires n > 0 && ';' !in head && ReadHead(table, head).Fails?
    ensures ReadPrefixes(table, 0, head + ";" + rest, n) == Failed(ReadHead(table, head).unknown)
  {
    FirstIndexOfAppend(head, ';', rest);
    assert (head + ";" + rest)[..|head|] == head;
  }

  /** What an error tells: a namespace URI the server does not have, such as the first one named, or else the
      whole text. */
  lemma ErrorsTell(table: NamespaceTable, codec: Codec, s: string)
    ensures
      match NodeIdOf(table, codec, s)
      case Ok(_) => true
      case Err(UnknownNamespace(uri)) => IndexOf(table, uri).None?
      case Err(InvalidNodeId(text)) => text == s
    ensures forall uri, rest | s == "nsu=" + uri + ";" + rest && ';' !in uri && IndexOf(table, uri).None? ::
      NodeIdOf(table, codec, s) == Err(UnknownNamespace(uri))
  {
    FailsForUnknown(table, 0, s, MAX_PREFIXES);
    forall uri, rest | s == "nsu=" + uri + ";" + rest && ';' !in uri && IndexOf(table, uri).None?
      ensures NodeIdOf(table, codec, s) == Err(UnknownNamespace(uri))
    {
      var head := "nsu=" + uri;
      assert LowerAll(head)[..4] == "nsu=" && head[4..] == uri;
      FirstHeadFails(table, head, rest, MAX_PREFIXES);
    }
  }

  /** The `nsu=` form means what the `ns=` form means, for every text after it, readable or not. */
  lemma UriFormMeansIndexForm(table: NamespaceTable, codec: Codec, uri: string, rest: string)
    requires IndexOf(table, uri).Some? && ';' !in uri
    ensures
      var byUri := NodeIdOf(table, codec, "nsu=" + uri + ";" + rest);
      var byIndex := NodeIdOf(table, codec, NodeIdText(IndexOf(table, uri).value, rest));
      byUri.Ok? == byIndex.Ok? && (byUri.Ok? ==> byUri == byIndex)
  {
    var index := IndexOf(table, uri).value;
    UriHead(table, uri);
    IndexHead(table, index);
    ReadFirstPrefix(table, "nsu=" + uri, rest, 0, MAX_PREFIXES);
    ReadFirstPrefix(table, "ns=" + Decimal(index), rest, 0, MAX_PREFIXES);
  }
}
