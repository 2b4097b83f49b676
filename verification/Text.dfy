/** String operations the gateway takes from its language: searching, splitting, replacing,
    trimming, ASCII case and unsigned parsing. A string is a sequence of Unicode scalar values. */
module Text {

  datatype Option<+T> = None | Some(value: T) {
    function GetOr(default: T): T {
      if Some? then value else default
    }
  }

  datatype Result<+T, +E> = Ok(value: T) | Err(error: E)

  /** The last position of `c` in `s`. */
  function LastIndexOf(s: string, c: char): (r: Option<nat>)
    ensures r.Some? ==> r.value < |s| && s[r.value] == c
  {
    if s == [] then None
    else if s[|s| - 1] == c then Some(|s| - 1)
    else LastIndexOf(s[..|s| - 1], c)
  }

  lemma {:induction false} LastIndexOfIsLast(s: string, c: char)
    ensures
      var r := LastIndexOf(s, c);
      forall i :: (if r.Some? then r.value + 1 else 0) <= i < |s| ==> s[i] != c
  {
    if s != [] && s[|s| - 1] != c {
      LastIndexOfIsLast(s[..|s| - 1], c);
    }
  }

  /** The first position of `c` in `s`. */
  function FirstIndexOf(s: string, c: char): (r: Option<nat>)
    ensures r.Some? ==> r.value < |s| && s[r.value] == c
  {
    if s == [] then None
    else if s[0] == c then Some(0)
    else
      match FirstIndexOf(s[1..], c)
      case None => None
      case Some(i) => Some(i + 1)
  }

  lemma {:induction false} FirstIndexOfIsFirst(s: string, c: char)
    ensures
      var r := FirstIndexOf(s, c);
      forall i :: 0 <= i < (if r.Some? then r.value else |s|) ==> s[i] != c
  {
    if s != [] && s[0] != c {
      FirstIndexOfIsFirst(s[1..], c);
    }
  }

  lemma {:induction false} FirstIndexOfAppend(head: string, c: char, tail: string)
    requires c !in head
    ensures FirstIndexOf(head + [c] + tail, c) == Some(|head|)
  {
    if head != [] {
      FirstIndexOfAppend(head[1..], c, tail);
      assert head[0] in head;
      assert (head + [c] + tail)[1..] == head[1..] + [c] + tail;
    }
  }

  predicate StartsWith(s: string, prefix: string) {
    |prefix| <= |s| && s[..|prefix|] == prefix
  }

  lemma StartsWithAt(s: string, prefix: string, i: nat)
    requires i < |prefix|
    ensures StartsWith(s, prefix) ==> i < |s| && s[i] == prefix[i]
  {
    if StartsWith(s, prefix) {
      assert s[i] == s[..|prefix|][i];
    }
  }

  predicate EndsWith(s: string, suffix: string) {
    |suffix| <= |s| && s[|s| - |suffix|..] == suffix
  }

  predicate Contains(s: string, pattern: string) {
    exists i | 0 <= i <= |s| :: StartsWith(s[i..], pattern)
  }

  /** The pieces of `s` between occurrences of `c`; never empty. */
  function SplitOn(s: string, c: char): (pieces: seq<string>)
    ensures |pieces| >= 1
  {
    if s == [] then [[]]
    else
      var rest := SplitOn(s[1..], c);
      if s[0] == c then [[]] + rest else [[s[0]] + rest[0]] + rest[1..]
  }

  /** The pieces joined by `c`. */
  function JoinWith(pieces: seq<string>, c: char): string {
    if pieces == [] then []
    else if |pieces| == 1 then pieces[0]
    else pieces[0] + [c] + JoinWith(pieces[1..], c)
  }

  lemma {:induction false} JoinSplit(s: string, c: char)
    ensures JoinWith(SplitOn(s, c), c) == s
  {
    if s != [] {
      JoinSplit(s[1..], c);
      var rest := SplitOn(s[1..], c);
      if s[0] != c {
        assert ([[s[0]] + rest[0]] + rest[1..])[1..] == rest[1..];
      }
    }
  }

  /** Splitting at `c` undoes putting a `c`-free piece and a `c` in front. */
  lemma {:induction false} SplitOnAppend(piece: string, c: char, rest: string)
    requires c !in piece
    ensures SplitOn(piece + [c] + rest, c) == [piece] + SplitOn(rest, c)
  {
    var s := piece + [c] + rest;
    if piece == [] {
      assert s[1..] == rest;
    } else {
      SplitOnAppend(piece[1..], c, rest);
      assert piece[0] in piece && piece == [piece[0]] + piece[1..];
      assert s[1..] == piece[1..] + [c] + rest;
    }
  }

  lemma {:induction false} SplitOnWhole(piece: string, c: char)
    requires c !in piece
    ensures SplitOn(piece, c) == [piece]
  {
    if piece != [] {
      SplitOnWhole(piece[1..], c);
      assert piece[0] in piece && piece == [piece[0]] + piece[1..];
    }
  }

  /** Joining `c`-free pieces is undone by splitting. */
  lemma {:induction false} SplitJoin(pieces: seq<string>, c: char)
    requires pieces != [] && forall p :: p in pieces ==> c !in p
    ensures SplitOn(JoinWith(pieces, c), c) == pieces
  {
    assert pieces[0] in pieces;
    if |pieces| == 1 {
      SplitOnWhole(pieces[0], c);
    } else {
      SplitJoin(pieces[1..], c);
      SplitOnAppend(pieces[0], c, JoinWith(pieces[1..], c));
    }
  }

  /** Splitting around one separator splits both sides. */
  lemma {:induction false} SplitOnConcat(a: string, c: char, b: string)
    ensures SplitOn(a + [c] + b, c) == SplitOn(a, c) + SplitOn(b, c)
  {
    var s := a + [c] + b;
    if a == [] {
      assert s[1..] == b;
    } else {
      SplitOnConcat(a[1..], c, b);
      assert s[0] == a[0] && s[1..] == a[1..] + [c] + b;
      SplitOnCons(s, c);
      SplitOnCons(a, c);
      GraftFront(a[0], c, SplitOn(a[1..], c), SplitOn(b, c));
    }
  }

  /** A first character before split pieces. */
  function Graft(x: char, c: char, pieces: seq<string>): seq<string>
    requires |pieces| >= 1
  {
    if x == c then [[]] + pieces else [[x] + pieces[0]] + pieces[1..]
  }

  lemma SplitOnCons(s: string, c: char)
    requires s != []
    ensures SplitOn(s, c) == Graft(s[0], c, SplitOn(s[1..], c))
  {
  }

  lemma GraftFront(x: char, c: char, a: seq<string>, b: seq<string>)
    requires |a| >= 1
    ensures Graft(x, c, a + b) == Graft(x, c, a) + b
  {
    assert (a + b)[1..] == a[1..] + b;
  }

  /** Strings with the same pieces are the same. */
  lemma SamePieces(a: string, b: string, c: char)
    requires SplitOn(a, c) == SplitOn(b, c)
    ensures a == b
  {
    JoinSplit(a, c);
    JoinSplit(b, c);
  }

  /** Putting strings next to each other joins the last piece of one to the first of the other. */
  lemma {:induction false} PiecesOfConcat(a: string, b: string, c: char)
    ensures |SplitOn(a + b, c)| == |SplitOn(a, c)| + |SplitOn(b, c)| - 1
  {
    if a == [] {
      assert a + b == b;
    } else {
      PiecesOfConcat(a[1..], b, c);
      assert (a + b)[1..] == a[1..] + b;
    }
  }

  lemma {:induction false} NotInJoin(pieces: seq<string>, c: char, x: char)
    requires x != c && forall p :: p in pieces ==> x !in p
    ensures x !in JoinWith(pieces, c)
  {
    if pieces != [] {
      assert pieces[0] in pieces;
      NotInJoin(pieces[1..], c, x);
    }
  }

  /** Replace every occurrence of `pattern`, left to right and without overlap. */
  function ReplaceAll(s: string, pattern: string, with: string): string
    requires pattern != []
    decreases |s|
  {
    if s == [] then []
    else if StartsWith(s, pattern) then with + ReplaceAll(s[|pattern|..], pattern, with)
    else [s[0]] + ReplaceAll(s[1..], pattern, with)
  }

  /** The pattern does not occur before the end of `head`. */
  predicate FirstAfter(head: string, text: string, pattern: string) {
    forall j :: 0 <= j < |head| && j <= |text| ==> !StartsWith(text[j..], pattern)
  }

  /** Up to the first occurrence a text stays, and there the pattern gives way and the rest goes on. */
  lemma {:induction false} ReplacesFirst(head: string, tail: string, pattern: string, with: string)
    requires pattern != [] && FirstAfter(head, head + pattern + tail, pattern)
    ensures ReplaceAll(head + pattern + tail, pattern, with) == head + with + ReplaceAll(tail, pattern, with)
  {
    var s := head + pattern + tail;
    if head == [] {
      assert s == pattern + tail && s[..|pattern|] == pattern && s[|pattern|..] == tail;
    } else {
      var rest := head[1..] + pattern + tail;
      assert s == [head[0]] + rest && s[1..] == rest && s[0..] == s;
      forall j | 0 <= j < |head| - 1 ensures !StartsWith(rest[j..], pattern) {
        assert rest[j..] == s[j + 1..];
      }
      ReplacesFirst(head[1..], tail, pattern, with);
      KeepsFront(s, pattern, with, head[0], rest);
    }
  }

  lemma KeepsFront(s: string, pattern: string, with: string, first: char, rest: string)
    requires pattern != [] && s == [first] + rest && !StartsWith(s, pattern)
    ensures ReplaceAll(s, pattern, with) == [first] + ReplaceAll(rest, pattern, with)
  {
    assert s[1..] == rest;
  }

  lemma {:induction false} ReplacesNothing(s: string, pattern: string, with: string)
    requires pattern != [] && !Contains(s, pattern)
    ensures ReplaceAll(s, pattern, with) == s
  {
    if s != [] {
      assert s[0..] == s;
      forall j | 0 <= j <= |s[1..]| ensures !StartsWith(s[1..][j..], pattern) {
        assert s[1..][j..] == s[j + 1..];
      }
      ReplacesNothing(s[1..], pattern, with);
    }
  }

  function Lower(c: char): char {
    if 'A' <= c <= 'Z' then (c as int + 32) as char else c
  }

  function LowerAll(s: string): (r: string)
    ensures |r| == |s|
  {
    seq(|s|, i requires 0 <= i < |s| => Lower(s[i]))
  }

  predicate EqualsIgnoreCase(a: string, b: string) {
    LowerAll(a) == LowerAll(b)
  }

  /** The same character, or a letter from A to Z in its other case. */
  predicate SameLetter(c: char, d: char) {
    || c == d
    || ('A' <= c <= 'Z' && d as int == c as int + 32)
    || ('A' <= d <= 'Z' && c as int == d as int + 32)
  }

  lemma EqualButForCase(a: string, b: string)
    ensures EqualsIgnoreCase(a, b) <==> |a| == |b| && forall i :: 0 <= i < |a| ==> SameLetter(a[i], b[i])
  {
    if EqualsIgnoreCase(a, b) {
      forall i | 0 <= i < |a| ensures SameLetter(a[i], b[i]) {
        assert LowerAll(a)[i] == LowerAll(b)[i];
      }
    }
    if |a| == |b| && forall i :: 0 <= i < |a| ==> SameLetter(a[i], b[i]) {
      assert forall i :: 0 <= i < |a| ==> LowerAll(a)[i] == LowerAll(b)[i];
    }
  }

  /** The characters with the Unicode White_Space property. */
  predicate IsWhitespace(c: char) {
    var n := c as int;
    9 <= n <= 13 || n == 0x20 || n == 0x85 || n == 0xA0 || n == 0x1680 || 0x2000 <= n <= 0x200A
    || n == 0x2028 || n == 0x2029 || n == 0x202F || n == 0x205F || n == 0x3000
  }

  /** Of the ASCII characters the blank and the five from tab to carriage return. */
  lemma AsciiWhitespace(c: char)
    requires c as int < 0x80
    ensures IsWhitespace(c) <==> c == ' ' || '\t' <= c <= '\r'
  {
  }

  function TrimStart(s: string): string {
    if s != [] && IsWhitespace(s[0]) then TrimStart(s[1..]) else s
  }

  function TrimEnd(s: string): string {
    if s != [] && IsWhitespace(s[|s| - 1]) then TrimEnd(s[..|s| - 1]) else s
  }

  function Trim(s: string): string {
    TrimEnd(TrimStart(s))
  }

  predicate IsBlank(s: string) {
    forall i :: 0 <= i < |s| ==> IsWhitespace(s[i])
  }

  /** Trimming leaves nothing of blank strings, and of no others. */
  lemma BlankIsTrimmedAway(s: string)
    ensures Trim(s) == [] <==> IsBlank(s)
  {
    TrimStartBlank(s);
    TrimEndBlank(TrimStart(s));
  }

  lemma {:induction false} TrimStartBlank(s: string)
    ensures IsBlank(TrimStart(s)) <==> IsBlank(s)
  {
    if s != [] && IsWhitespace(s[0]) {
      TrimStartBlank(s[1..]);
      assert s == [s[0]] + s[1..];
    }
  }

  lemma {:induction false} TrimEndBlank(s: string)
    ensures TrimEnd(s) == [] <==> IsBlank(s)
  {
    if s != [] && IsWhitespace(s[|s| - 1]) {
      TrimEndBlank(s[..|s| - 1]);
      assert s == s[..|s| - 1] + [s[|s| - 1]];
    }
  }

  /** What trimming takes is blank, and what it leaves has whitespace at neither end. */
  lemma TrimIs(s: string) returns (i: nat, j: nat)
    ensures i <= j <= |s| && Trim(s) == s[i..j] && IsBlank(s[..i]) && IsBlank(s[j..])
    ensures Trim(s) != [] ==> !IsWhitespace(Trim(s)[0]) && !IsWhitespace(Trim(s)[|Trim(s)| - 1])
  {
    i := TrimStartIs(s);
    var k := TrimEndIs(s[i..]);
    j := i + k;
    assert s[i..][..k] == s[i..j] && s[i..][k..] == s[j..];
  }

  lemma {:induction false} TrimStartIs(s: string) returns (i: nat)
    ensures i <= |s| && TrimStart(s) == s[i..] && IsBlank(s[..i])
    ensures i < |s| ==> !IsWhitespace(s[i])
  {
    if s != [] && IsWhitespace(s[0]) {
      var k := TrimStartIs(s[1..]);
      i := k + 1;
      assert s[1..][k..] == s[i..] && s[..i] == [s[0]] + s[1..][..k];
    } else {
      i := 0;
    }
  }

  lemma {:induction false} TrimEndIs(s: string) returns (j: nat)
    ensures j <= |s| && TrimEnd(s) == s[..j] && IsBlank(s[j..])
    ensures j > 0 ==> !IsWhitespace(s[j - 1])
  {
    if s != [] && IsWhitespace(s[|s| - 1]) {
      var front := s[..|s| - 1];
      j := TrimEndIs(front);
      assert front[..j] == s[..j] && s[j..] == front[j..] + [s[|s| - 1]];
    } else {
      j := |s|;
    }
  }

  /** A trimmed, non-blank value, or nothing. */
  function NonBlank(s: Option<string>): Option<string> {
    if s.Some? && Trim(s.value) != [] then Some(Trim(s.value)) else None
  }

  lemma NonBlankIsTrimmed(s: Option<string>, t: string)
    ensures NonBlank(s) == Some(t) <==> s.Some? && !IsBlank(s.value) && t == Trim(s.value)
  {
    BlankIsTrimmedAway(s.GetOr(""));
  }

  predicate IsDigit(c: char) {
    '0' <= c <= '9'
  }

  predicate AllDigits(s: string) {
    forall i :: 0 <= i < |s| ==> IsDigit(s[i])
  }

  function DigitsValue(s: string): nat
    requires AllDigits(s)
  {
    if s == [] then 0
    else 10 * DigitsValue(s[..|s| - 1]) + (s[|s| - 1] as int - '0' as int)
  }

  /** Unsigned decimal parsing: an optional `+`, at least one digit, nothing above `max`. */
  function ParseUnsigned(s: string, max: nat): Option<nat> {
    var digits := if s != [] && s[0] == '+' then s[1..] else s;
    if digits == [] || !AllDigits(digits) || DigitsValue(digits) > max then None
    else Some(DigitsValue(digits))
  }

  predicate IsNumber(digits: string, n: nat) {
    digits != "" && AllDigits(digits) && DigitsValue(digits) == n
  }

  /** A plus sign or none, then digits whose number is in range. */
  lemma UnsignedIs(s: string, max: nat, n: nat)
    ensures ParseUnsigned(s, max) == Some(n) <==>
      n <= max && exists digits :: (s == digits || s == "+" + digits) && IsNumber(digits, n)
  {
    var digits := if s != [] && s[0] == '+' then s[1..] else s;
    assert s == digits || s == "+" + digits;
    forall t | (s == t || s == "+" + t) && t != "" && AllDigits(t) ensures t == digits {
      assert t[0] != '+';
    }
  }

  const U16_MAX: nat := 0xFFFF
  const U32_MAX: nat := 0xFFFF_FFFF
  const U64_MAX: nat := 0xFFFF_FFFF_FFFF_FFFF

  /** The decimal text of a number. */
  function Decimal(n: nat): string {
    var digit := ((n % 10) + '0' as int) as char;
    if n < 10 then [digit] else Decimal(n / 10) + [digit]
  }

  lemma {:induction false} DecimalDigits(n: nat)
    ensures Decimal(n) != [] && AllDigits(Decimal(n)) && DigitsValue(Decimal(n)) == n
  {
    if n >= 10 {
      DecimalDigits(n / 10);
      var s := Decimal(n);
      assert s[..|s| - 1] == Decimal(n / 10);
    }
  }

  /** Parsing reads back every number the target type can hold. */
  lemma DecimalParses(n: nat, max: nat)
    ensures ParseUnsigned(Decimal(n), max) == if n <= max then Some(n) else None
    ensures forall c :: c in Decimal(n) ==> IsDigit(c)
  {
    DecimalDigits(n);
  }
}
