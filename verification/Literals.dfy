/**
  Finding the quoted string literals of a text and undoing their escapes.
  A text is a sequence of UTF-16 code units, unpaired surrogates included.
*/
module Literals {

  type Unit = n: int | 0 <= n < 0x1_0000
  type Text = seq<Unit>

  const QUOTE: Unit := 34
  const APOSTROPHE: Unit := 39
  const BACKSLASH: Unit := 92
  const FEED: Unit := 10
  const RETURN: Unit := 13

  /** From `start` up to but not including `end`. */
  datatype Span = Span(start: nat, end: nat)

  predicate IsQuote(c: Unit) {
    c == QUOTE || c == APOSTROPHE
  }

  // ---------- scanning ----------

  /** Where the scan of a literal stops, counted from after its opening quote, and whether it is closed there. */
  datatype Stop = Stop(closed: bool, length: nat)

  function Further(s: Stop, n: nat): Stop {
    Stop(s.closed, s.length + n)
  }

  function ScanBody(rest: Text, quote: Unit): (s: Stop)
    ensures s.length <= |rest| && (s.closed ==> 1 <= s.length)
    decreases |rest|
  {
    if rest == [] || rest[0] == RETURN || rest[0] == FEED then Stop(false, 0)
    else if rest[0] == BACKSLASH then
      if |rest| == 1 then Stop(false, 1) else Further(ScanBody(rest[2..], quote), 2)
    else if rest[0] == quote then Stop(true, 1)
    else Further(ScanBody(rest[1..], quote), 1)
  }

  /** The literals of `rest`, which begins at position `at`. */
  function LiteralsIn(rest: Text, at: nat): seq<Span>
    decreases |rest|
  {
    if rest == [] then []
    else if !IsQuote(rest[0]) then LiteralsIn(rest[1..], at + 1)
    else
      var s := ScanBody(rest[1..], rest[0]);
      var next := LiteralsIn(rest[1 + s.length..], at + 1 + s.length);
      if s.closed then [Span(at, at + 1 + s.length)] + next else next
  }

  method ScanLiterals(text: Text) returns (literals: seq<Span>)
    ensures literals == LiteralsIn(text, 0)
  {
    literals := [];
    var index := 0;
    assert text[0..] == text;
    while index < |text|
      invariant 0 <= index <= |text|
      invariant literals + LiteralsIn(text[index..], index) == LiteralsIn(text, 0)
      decreases |text| - index
    {
      var quote := text[index];
      assert text[index..][1..] == text[index + 1..];
      if !IsQuote(quote) {
        index := index + 1;
        continue;
      }
      var start := index;
      ghost var stop := ScanBody(text[start + 1..], quote);
      assert text[start..][1 + stop.length..] == text[start + 1 + stop.length..];
      var closed;
      closed, index := ScanToQuote(text, start + 1, quote);
      if !closed {
        continue;
      }
      literals := literals + [Span(start, index)];
    }
  }

  /** The inner loop of the scanner; after a backslash at the very end it is over. */
  method ScanToQuote(text: Text, from: nat, quote: Unit) returns (closed: bool, index: nat)
    requires from <= |text|
    ensures var s := ScanBody(text[from..], quote); closed == s.closed && index == from + s.length
  {
    index, closed := from, false;
    while index < |text|
      invariant from <= index <= |text| && !closed
      invariant ScanBody(text[from..], quote) == Further(ScanBody(text[index..], quote), index - from)
      decreases |text| - index
    {
      var character := text[index];
      ScanStep(text, index, quote);
      if character == RETURN || character == FEED {
        break;
      }
      if character == BACKSLASH {
        index := if index + 1 < |text| then index + 2 else index + 1;
        continue;
      }
      index := index + 1;
      if character == quote {
        closed := true;
        return;
      }
    }
  }

  lemma ScanStep(text: Text, index: nat, quote: Unit)
    requires index < |text|
    ensures var (c, s) := (text[index], ScanBody(text[index..], quote));
            if c == RETURN || c == FEED then s == Stop(false, 0)
            else if c == BACKSLASH then
              var n := if index + 1 < |text| then 2 else 1;
              s == Further(ScanBody(text[index + n..], quote), n)
            else if c == quote then s == Stop(true, 1)
            else s == Further(ScanBody(text[index + 1..], quote), 1)
  {
    assert text[index..][1..] == text[index + 1..];
    if index + 1 < |text| {
      assert text[index..][2..] == text[index + 2..];
    }
  }

  // ---------- the spans ----------

  /** A literal of the text: inside it and quoted at both ends. */
  predicate IsLiteral(s: Span, text: Text) {
    && s.start + 2 <= s.end <= |text|
    && IsQuote(text[s.start]) && text[s.end - 1] == text[s.start]
  }

  /** Literals of the text from a position on, each after the end of the one before. */
  predicate WellPlaced(spans: seq<Span>, text: Text, from: nat)
    decreases |spans|
  {
    spans != [] ==> from <= spans[0].start && IsLiteral(spans[0], text) && WellPlaced(spans[1..], text, spans[0].end)
  }

  lemma {:induction false} ClosedByItsQuote(rest: Text, quote: Unit)
    requires ScanBody(rest, quote).closed
    ensures rest[ScanBody(rest, quote).length - 1] == quote
    decreases |rest|
  {
    if rest[0] == BACKSLASH {
      ClosedByItsQuote(rest[2..], quote);
    } else if rest[0] != quote {
      ClosedByItsQuote(rest[1..], quote);
    }
  }

  lemma {:induction false} SpansAreWellPlaced(text: Text, at: nat)
    requires at <= |text|
    ensures WellPlaced(LiteralsIn(text[at..], at), text, at)
    decreases |text| - at
  {
    var rest := text[at..];
    if rest != [] {
      assert rest[1..] == text[at + 1..];
      if !IsQuote(rest[0]) {
        SpansAreWellPlaced(text, at + 1);
      } else {
        var s := ScanBody(rest[1..], rest[0]);
        assert rest[1 + s.length..] == text[at + 1 + s.length..];
        SpansAreWellPlaced(text, at + 1 + s.length);
        if s.closed {
          ClosedByItsQuote(rest[1..], rest[0]);
          StartsWellPlaced(text, at, s, LiteralsIn(text[at + 1 + s.length..], at + 1 + s.length));
        }
      }
    }
  }

  lemma StartsWellPlaced(text: Text, at: nat, s: Stop, next: seq<Span>)
    requires at < |text| && IsQuote(text[at]) && 1 <= s.length <= |text| - at - 1
    requires text[at + s.length] == text[at]
    requires WellPlaced(next, text, at + 1 + s.length)
    ensures WellPlaced([Span(at, at + 1 + s.length)] + next, text, at)
  {
    var span := Span(at, at + 1 + s.length);
    assert ([span] + next)[1..] == next;
    assert IsLiteral(span, text);
  }

  /** The spans are literals of the text, in order and disjoint. */
  lemma {:induction false} PlacedApart(spans: seq<Span>, text: Text, from: nat, i: nat, j: nat)
    requires WellPlaced(spans, text, from) && i <= j < |spans|
    ensures from <= spans[i].start && IsLiteral(spans[i], text) && IsLiteral(spans[j], text)
    ensures i < j ==> spans[i].end <= spans[j].start
    decreases |spans|
  {
    if i > 0 {
      PlacedApart(spans[1..], text, spans[0].end, i - 1, j - 1);
    } else if j > 0 {
      PlacedApart(spans[1..], text, spans[0].end, j - 1, j - 1);
    }
  }

  // ---------- JSON strings ----------

  predicate High(c: Unit) {
    0xD800 <= c < 0xDC00
  }

  predicate Low(c: Unit) {
    0xDC00 <= c < 0xE000
  }

  function HexDigit(n: int): Unit
    requires 0 <= n < 16
  {
    if n < 10 then 48 + n else 87 + n
  }

  /** `\uXXXX` */
  function UnicodeEscape(c: Unit): Text {
    [BACKSLASH, 117, HexDigit(c / 16 / 16 / 16), HexDigit(c / 16 / 16 % 16), HexDigit(c / 16 % 16), HexDigit(c % 16)]
  }

  /** The letter of a two-character escape, or 0. */
  function ShortEscape(c: Unit): Unit {
    if c == QUOTE || c == BACKSLASH then c
    else if c == 8 then 98
    else if c == 9 then 116
    else if c == FEED then 110
    else if c == 12 then 102
    else if c == RETURN then 114
    else 0
  }

  /** One code unit that is not part of a surrogate pair. */
  function EscapedUnit(c: Unit): Text {
    if ShortEscape(c) != 0 then [BACKSLASH, ShortEscape(c)]
    else if c < 32 || High(c) || Low(c) then UnicodeEscape(c)
    else [c]
  }

  predicate PairFirst(s: Text) {
    |s| >= 2 && High(s[0]) && Low(s[1])
  }

  function Escaped(s: Text): Text
    decreases |s|
  {
    if s == [] then []
    else if PairFirst(s) then s[..2] + Escaped(s[2..])
    else EscapedUnit(s[0]) + Escaped(s[1..])
  }

  /** `JSON.stringify` of a string. */
  function Stringify(s: Text): Text {
    [QUOTE] + Escaped(s) + [QUOTE]
  }

  // ---------- decoding ----------

  function HexValue(c: Unit): int {
    if 48 <= c < 58 then c - 48
    else if 65 <= c < 71 then c - 55
    else if 97 <= c < 103 then c - 87
    else -1
  }

  predicate AreHex(t: Text) {
    forall i | 0 <= i < |t| :: HexValue(t[i]) >= 0
  }

  function ParseHex(t: Text): (n: nat)
    requires AreHex(t)
  {
    if t == [] then 0 else 16 * ParseHex(t[..|t| - 1]) + HexValue(t[|t| - 1])
  }

  /** `String.fromCodePoint`, and nothing beyond the last code point. */
  function FromCodePoint(n: nat): Text {
    if n < 0x1_0000 then [n]
    else if n <= 0x10_FFFF then [0xD800 + (n - 0x1_0000) / 1024, 0xDC00 + (n - 0x1_0000) % 1024]
    else []
  }

  /** How many of the next code units, at most `limit`, are hexadecimal digits. */
  function HexRun(t: Text, limit: nat): (n: nat)
    ensures n <= |t| && n <= limit && AreHex(t[..n])
  {
    if t == [] || limit == 0 || HexValue(t[0]) < 0 then 0
    else
      var n := HexRun(t[1..], limit - 1);
      assert t[..n + 1] == [t[0]] + t[1..][..n];
      n + 1
  }

  /** What `\c` stands for, or -1. */
  function SimpleEscape(c: Unit): int {
    if c == BACKSLASH || c == QUOTE || c == APOSTROPHE then c
    else if c == 98 then 8
    else if c == 102 then 12
    else if c == 110 then 10
    else if c == 114 then 13
    else if c == 116 then 9
    else if c == 118 then 11
    else if c == 48 then 0
    else -1
  }

  datatype Match = Match(length: nat, decoded: Text)

  /** The escape at the start of `t`; what is no escape stands for its first code unit. */
  function FirstEscape(t: Text): (m: Match)
    requires t != []
    ensures 1 <= m.length <= |t|
  {
    if |t| == 1 || t[0] != BACKSLASH then Match(1, [t[0]])
    else if t[1] == 117 && |t| > 2 && t[2] == 123 then
      var n := HexRun(t[3..], 6);
      if 1 <= n && 3 + n < |t| && t[3 + n] == 125 then Match(4 + n, FromCodePoint(ParseHex(t[3..][..n])))
      else Match(1, [t[0]])
    else if t[1] == 117 && |t| >= 6 && AreHex(t[2..6]) then Match(6, FromCodePoint(ParseHex(t[2..6])))
    else if t[1] == 120 && |t| >= 4 && AreHex(t[2..4]) then Match(4, FromCodePoint(ParseHex(t[2..4])))
    else if SimpleEscape(t[1]) >= 0 then Match(2, [SimpleEscape(t[1])])
    else Match(1, [t[0]])
  }

  function DecodeBody(t: Text): Text
    decreases |t|
  {
    if t == [] then [] else FirstEscape(t).decoded + DecodeBody(t[FirstEscape(t).length..])
  }

  function Decode(literal: Text): Text
    requires |literal| >= 2
  {
    DecodeBody(literal[1..|literal| - 1])
  }

  // ---------- what the escapes mean ----------

  /** The code unit `c` is a hexadecimal digit, of either case, with the value `v`. */
  predicate IsHexDigit(c: int, v: int) {
    || ('0' as int <= c <= '9' as int && v == c - '0' as int)
    || ('a' as int <= c <= 'f' as int && v == 10 + c - 'a' as int)
    || ('A' as int <= c <= 'F' as int && v == 10 + c - 'A' as int)
  }

  predicate HexDigits(digits: Text, values: seq<int>) {
    |digits| == |values| && forall i :: 0 <= i < |digits| ==> IsHexDigit(digits[i], values[i])
  }

  /** The number that the hexadecimal digits with these values write. */
  function Number(values: seq<int>): int {
    if values == [] then 0 else 16 * Number(values[..|values| - 1]) + values[|values| - 1]
  }

  /** `t` are the UTF-16 code units of the code point `n`; beyond the last code point there are none. */
  predicate Utf16(n: int, t: Text) {
    if n > 0x10_FFFF then t == []
    else if |t| == 1 then n == t[0]
    else
      |t| == 2 && var hi: int, lo: int := t[0], t[1];
      0xD800 <= hi < 0xDC00 && 0xDC00 <= lo < 0xE000 && n == 0x1_0000 + 1024 * (hi - 0xD800) + (lo - 0xDC00)
  }

  lemma {:induction false} HexIsNumber(digits: Text, values: seq<int>)
    requires HexDigits(digits, values)
    ensures AreHex(digits) && ParseHex(digits) == Number(values)
    decreases |digits|
  {
    if digits != [] {
      HexIsNumber(digits[..|digits| - 1], values[..|values| - 1]);
    }
  }

  lemma CodePointIsUtf16(n: nat)
    ensures Utf16(n, FromCodePoint(n))
  {
  }

  /** Two digits after `\x`, and four after `\u`, write a code unit. */
  lemma FixedEscape(letter: Unit, digits: Text, values: seq<int>, rest: Text)
    requires HexDigits(digits, values)
    requires (letter == 'x' as int && |digits| == 2) || (letter == 'u' as int && |digits| == 4)
    ensures 0 <= Number(values) < 0x1_0000
    ensures DecodeBody(['\\' as int, letter] + digits + rest) == [Number(values)] + DecodeBody(rest)
  {
    var t: Text := ['\\' as int, letter] + digits + rest;
    HexIsNumber(digits, values);
    NumberIsBounded(values);
    assert t[2..2 + |digits|] == digits && t[2 + |digits|..] == rest && t[2] == digits[0];
    assert FirstEscape(t) == Match(2 + |digits|, [Number(values)]);
  }

  lemma NumberIsBounded(values: seq<int>)
    requires |values| == 2 || |values| == 4
    requires forall i :: 0 <= i < |values| ==> 0 <= values[i] < 16
    ensures 0 <= Number(values) < 0x1_0000
  {
    var front := values[..|values| - 1];
    assert Number(front[..|front| - 1]) >= 0 && Number(front) >= 0;
    if |values| == 2 {
      assert front[..0] == [] && Number(front) == values[0];
    } else {
      var two := front[..2];
      assert two[..1][..0] == [] && Number(two[..1]) == values[0] && Number(two) == 16 * values[0] + values[1];
      assert Number(front) == 16 * Number(two) + values[2];
    }
  }

  lemma {:induction false} AllInRun(digits: Text, rest: Text, limit: nat)
    requires AreHex(digits) && |digits| <= limit && (rest == [] || HexValue(rest[0]) < 0)
    ensures HexRun(digits + rest, limit) == |digits|
    decreases |digits|
  {
    if digits == [] {
      assert digits + rest == rest;
    } else {
      assert (digits + rest)[1..] == digits[1..] + rest;
      AllInRun(digits[1..], rest, limit - 1);
    }
  }

  /** One to six digits in braces after `\u` write a code point. */
  lemma BracedEscape(digits: Text, values: seq<int>, rest: Text) returns (units: Text)
    requires HexDigits(digits, values) && 1 <= |digits| <= 6
    ensures Utf16(Number(values), units)
    ensures DecodeBody(['\\' as int, 'u' as int, '{' as int] + digits + ['}' as int] + rest) == units + DecodeBody(rest)
  {
    var tail: Text := ['}' as int] + rest;
    var t: Text := ['\\' as int, 'u' as int, '{' as int] + digits + ['}' as int] + rest;
    HexIsNumber(digits, values);
    AllInRun(digits, tail, 6);
    units := FromCodePoint(Number(values));
    CodePointIsUtf16(Number(values));
    assert t[3..] == digits + tail && (digits + tail)[..|digits|] == digits;
    assert t[3 + |digits|] == '}' as int && t[4 + |digits|..] == rest;
    assert FirstEscape(t) == Match(4 + |digits|, units);
  }

  /** What a single character after a backslash stands for. */
  predicate StandsFor(letter: int, v: int) {
    || (v == letter && (letter == '\\' as int || letter == '"' as int || letter == '\'' as int))
    || (letter == 'b' as int && v == 8) || (letter == 't' as int && v == 9) || (letter == 'n' as int && v == 10)
    || (letter == 'v' as int && v == 11) || (letter == 'f' as int && v == 12) || (letter == 'r' as int && v == 13)
    || (letter == '0' as int && v == 0)
  }

  lemma LetterEscape(letter: Unit, v: Unit, rest: Text)
    requires StandsFor(letter, v)
    ensures DecodeBody(['\\' as int, letter] + rest) == [v] + DecodeBody(rest)
  {
    var t: Text := ['\\' as int, letter] + rest;
    assert t[2..] == rest && FirstEscape(t) == Match(2, [v]);
  }

  /** A backslash before anything else stands for itself. */
  lemma OtherBackslash(letter: Unit, rest: Text)
    requires letter != 'u' as int && letter != 'x' as int && forall v :: !StandsFor(letter, v)
    ensures DecodeBody(['\\' as int, letter] + rest) == ['\\' as int] + DecodeBody([letter] + rest)
  {
    var t: Text := ['\\' as int, letter] + rest;
    assert !StandsFor(letter, SimpleEscape(letter));
    assert t[1..] == [letter] + rest && FirstEscape(t) == Match(1, [t[0]]);
  }

  // ---------- a quoted string decodes to itself ----------

  lemma ParseFour(t: Text)
    requires |t| == 4 && AreHex(t)
    ensures ParseHex(t) == 4096 * HexValue(t[0]) + 256 * HexValue(t[1]) + 16 * HexValue(t[2]) + HexValue(t[3])
  {
    var (one, two, three) := (t[..1], t[..2], t[..3]);
    assert t[..3] == three && three[..2] == two && two[..1] == one && one[..0] == [];
    assert ParseHex(one) == HexValue(t[0]);
    assert ParseHex(two) == 16 * ParseHex(one) + HexValue(t[1]);
    assert ParseHex(three) == 16 * ParseHex(two) + HexValue(t[2]);
  }

  lemma FourDigits(a: int, b: int, d: int, e: int)
    requires 0 <= a < 16 && 0 <= b < 16 && 0 <= d < 16 && 0 <= e < 16
    ensures var digits := [HexDigit(a), HexDigit(b), HexDigit(d), HexDigit(e)];
            AreHex(digits) && ParseHex(digits) == 16 * (16 * (16 * a + b) + d) + e
  {
    assert HexValue(HexDigit(a)) == a && HexValue(HexDigit(b)) == b;
    assert HexValue(HexDigit(d)) == d && HexValue(HexDigit(e)) == e;
    ParseFour([HexDigit(a), HexDigit(b), HexDigit(d), HexDigit(e)]);
  }

  lemma DigitsOf(c: Unit)
    ensures var digits := UnicodeEscape(c)[2..]; AreHex(digits) && ParseHex(digits) == c
  {
    FourDigits(c / 16 / 16 / 16, c / 16 / 16 % 16, c / 16 % 16, c % 16);
    assert UnicodeEscape(c)[2..] ==
           [HexDigit(c / 16 / 16 / 16), HexDigit(c / 16 / 16 % 16), HexDigit(c / 16 % 16), HexDigit(c % 16)];
  }

  lemma FirstIsUnicode(digits: Text, rest: Text)
    requires |digits| == 4 && AreHex(digits) && ParseHex(digits) < 0x1_0000
    ensures FirstEscape([BACKSLASH, 117] + digits + rest) == Match(6, [ParseHex(digits)])
  {
    var t := [BACKSLASH, 117] + digits + rest;
    assert t[2..6] == digits;
    assert t[2] == digits[0] && HexValue(123) < 0;
  }

  lemma DecodeRaw(c: Unit, rest: Text)
    requires c != BACKSLASH
    ensures DecodeBody([c] + rest) == [c] + DecodeBody(rest)
  {
    assert ([c] + rest)[1..] == rest;
  }

  lemma DecodeUnit(c: Unit, rest: Text)
    ensures DecodeBody(EscapedUnit(c) + rest) == [c] + DecodeBody(rest)
  {
    var t := EscapedUnit(c) + rest;
    if ShortEscape(c) != 0 {
      assert FirstEscape(t) == Match(2, [c]) && t[2..] == rest;
    } else if c < 32 || High(c) || Low(c) {
      var digits := UnicodeEscape(c)[2..];
      DigitsOf(c);
      FirstIsUnicode(digits, rest);
      assert t == [BACKSLASH, 117] + digits + rest && t[6..] == rest;
    } else {
      DecodeRaw(c, rest);
    }
  }

  lemma {:induction false} DecodeOfEscaped(s: Text)
    ensures DecodeBody(Escaped(s)) == s
    decreases |s|
  {
    if s != [] {
      if PairFirst(s) {
        var rest := Escaped(s[2..]);
        DecodeOfEscaped(s[2..]);
        DecodeRaw(s[1], rest);
        DecodeRaw(s[0], [s[1]] + rest);
        assert s[..2] + rest == [s[0]] + ([s[1]] + rest);
      } else {
        DecodeUnit(s[0], Escaped(s[1..]));
        DecodeOfEscaped(s[1..]);
      }
    }
  }

  lemma DecodeOfStringify(s: Text)
    ensures Decode(Stringify(s)) == s
  {
    assert Stringify(s)[1..|Stringify(s)| - 1] == Escaped(s);
    DecodeOfEscaped(s);
  }

  // ---------- a quoted string is scanned as a whole ----------

  /** Nothing at which the scan of a double-quoted literal does more than go on. */
  predicate Smooth(c: Unit) {
    c != QUOTE && c != BACKSLASH && c != FEED && c != RETURN
  }

  lemma {:induction false} ScanSmooth(t: Text, rest: Text)
    requires forall i | 0 <= i < |t| :: Smooth(t[i])
    ensures ScanBody(t + rest, QUOTE) == Further(ScanBody(rest, QUOTE), |t|)
  {
    if t == [] {
      assert t + rest == rest;
    } else {
      assert (t + rest)[1..] == t[1..] + rest;
      ScanSmooth(t[1..], rest);
    }
  }

  lemma ScanUnit(c: Unit, rest: Text)
    ensures ScanBody(EscapedUnit(c) + rest, QUOTE) == Further(ScanBody(rest, QUOTE), |EscapedUnit(c)|)
  {
    var t := EscapedUnit(c) + rest;
    if ShortEscape(c) != 0 {
      assert t[2..] == rest;
    } else if c < 32 || High(c) || Low(c) {
      var digits := EscapedUnit(c)[2..];
      assert t[2..] == digits + rest;
      ScanSmooth(digits, rest);
    } else {
      ScanSmooth([c], rest);
    }
  }

  lemma {:induction false} ScanEscaped(s: Text, rest: Text)
    ensures ScanBody(Escaped(s) + [QUOTE] + rest, QUOTE) == Stop(true, |Escaped(s)| + 1)
    decreases |s|
  {
    var tail := [QUOTE] + rest;
    assert Escaped(s) + [QUOTE] + rest == Escaped(s) + tail;
    if s != [] {
      var (first, others) := if PairFirst(s) then (s[..2], s[2..]) else (EscapedUnit(s[0]), s[1..]);
      var more := Escaped(others) + [QUOTE] + rest;
      assert Escaped(s) + tail == first + more;
      ScanEscaped(others, rest);
      if PairFirst(s) {
        ScanSmooth(first, more);
      } else {
        ScanUnit(s[0], more);
      }
    }
  }

  /** Text with neither the quote nor a backslash nor a line end. */
  predicate Ordinary(body: Text, quote: Unit) {
    forall i :: 0 <= i < |body| ==>
      body[i] != quote && body[i] != '\\' as int && body[i] != '\n' as int && body[i] != '\r' as int
  }

  lemma {:induction false} ScanOrdinary(body: Text, rest: Text, quote: Unit)
    requires Ordinary(body, quote)
    ensures ScanBody(body + rest, quote) == Further(ScanBody(rest, quote), |body|)
  {
    if body == [] {
      assert body + rest == rest;
    } else {
      assert (body + rest)[1..] == body[1..] + rest;
      ScanOrdinary(body[1..], rest, quote);
    }
  }

  /** A literal in quotes of either kind. */
  lemma QuotedIsFound(quote: char, body: Text, rest: Text, at: nat)
    requires quote in {'"', '\''} && Ordinary(body, quote as int)
    ensures LiteralsIn([quote as int] + body + [quote as int] + rest, at) ==
            [Span(at, at + |body| + 2)] + LiteralsIn(rest, at + |body| + 2)
  {
    var q: Unit := quote as int;
    var (t, tail) := ([q] + body + [q] + rest, [q] + rest);
    ScanOrdinary(body, tail, q);
    assert t[1..] == body + tail && t[|body| + 2..] == rest;
  }

  /** A line end, or the end of the text, leaves a literal open; what is in it is searched no more. */
  lemma OpenIsSkipped(quote: char, body: Text, rest: Text, at: nat)
    requires quote in {'"', '\''} && Ordinary(body, quote as int)
    requires rest == [] || rest[0] == '\n' as int || rest[0] == '\r' as int
    ensures LiteralsIn([quote as int] + body + rest, at) == LiteralsIn(rest, at + |body| + 1)
  {
    var q: Unit := quote as int;
    var t := [q] + body + rest;
    ScanOrdinary(body, rest, q);
    assert t[1..] == body + rest && t[|body| + 1..] == rest;
  }

  /** Whatever follows a backslash does not close the literal. */
  lemma BackslashProtects(body: Text, c: Unit, rest: Text, quote: char)
    requires quote in {'"', '\''} && Ordinary(body, quote as int)
    ensures ScanBody(body + ['\\' as int, c] + rest, quote as int) ==
            Further(ScanBody(rest, quote as int), |body| + 2)
  {
    var tail: Text := ['\\' as int, c] + rest;
    ScanOrdinary(body, tail, quote as int);
    assert body + ['\\' as int, c] + rest == body + tail && tail[2..] == rest;
  }

  // ---------- quoted strings between other text ----------

  predicate QuoteFree(t: Text) {
    forall i | 0 <= i < |t| :: !IsQuote(t[i])
  }

  /** The strings, quoted, each after its gap, and a last gap. */
  function Weave(gaps: seq<Text>, strings: seq<Text>): Text
    requires |gaps| == |strings| + 1
  {
    gaps[0] + if strings == [] then [] else Stringify(strings[0]) + Weave(gaps[1..], strings[1..])
  }

  function PlacesIn(gaps: seq<Text>, strings: seq<Text>, at: nat): seq<Span>
    requires |gaps| == |strings| + 1
  {
    if strings == [] then []
    else
      var start := at + |gaps[0]|;
      var end := start + |Stringify(strings[0])|;
      [Span(start, end)] + PlacesIn(gaps[1..], strings[1..], end)
  }

  lemma {:induction false} SkipsGap(gap: Text, rest: Text, at: nat)
    requires QuoteFree(gap)
    ensures LiteralsIn(gap + rest, at) == LiteralsIn(rest, at + |gap|)
    decreases |gap|
  {
    if gap == [] {
      assert gap + rest == rest;
    } else {
      assert (gap + rest)[1..] == gap[1..] + rest;
      SkipsGap(gap[1..], rest, at + 1);
    }
  }

  lemma TakesQuoted(s: Text, rest: Text, at: nat)
    ensures LiteralsIn(Stringify(s) + rest, at) ==
            [Span(at, at + |Stringify(s)|)] + LiteralsIn(rest, at + |Stringify(s)|)
  {
    var t := Stringify(s) + rest;
    assert t[1..] == Escaped(s) + [QUOTE] + rest;
    ScanEscaped(s, rest);
    assert t[|Stringify(s)|..] == rest;
  }

  /** Exactly the quoted strings are found. */
  lemma {:induction false} QuotedStringsAreFound(gaps: seq<Text>, strings: seq<Text>, at: nat)
    requires |gaps| == |strings| + 1 && forall i | 0 <= i < |gaps| :: QuoteFree(gaps[i])
    ensures LiteralsIn(Weave(gaps, strings), at) == PlacesIn(gaps, strings, at)
    decreases |strings|
  {
    if strings == [] {
      SkipsGap(gaps[0], [], at);
    } else {
      var rest := Weave(gaps[1..], strings[1..]);
      SkipsGap(gaps[0], Stringify(strings[0]) + rest, at);
      TakesQuoted(strings[0], rest, at + |gaps[0]|);
      QuotedStringsAreFound(gaps[1..], strings[1..], at + |gaps[0]| + |Stringify(strings[0])|);
    }
  }

  /** The k-th place holds the k-th string. */
  lemma {:induction false} PlaceHolds(before: Text, gaps: seq<Text>, strings: seq<Text>, k: nat)
    requires |gaps| == |strings| + 1 && k < |strings|
    ensures |PlacesIn(gaps, strings, |before|)| == |strings|
    ensures var (text, place) := (before + Weave(gaps, strings), PlacesIn(gaps, strings, |before|)[k]);
            place.start <= place.end <= |text| && text[place.start..place.end] == Stringify(strings[k])
    decreases |strings|
  {
    var (quoted, rest) := (Stringify(strings[0]), Weave(gaps[1..], strings[1..]));
    var more := before + gaps[0] + quoted;
    assert before + Weave(gaps, strings) == more + rest;
    if |strings| > 1 {
      PlaceHolds(more, gaps[1..], strings[1..], if k == 0 then 0 else k - 1);
    }
    if k == 0 {
      assert (more + rest)[|before + gaps[0]|..|more|] == quoted;
    }
  }

  // ---------- literals joined by plus signs ----------

  predicate IsSpace(c: Unit) {
    9 <= c <= 13 || c in {0x20, 0xA0, 0x1680, 0x2028, 0x2029, 0x202F, 0x205F, 0x3000, 0xFEFF} || 0x2000 <= c <= 0x200A
  }

  predicate AllSpace(t: Text) {
    forall i | 0 <= i < |t| :: IsSpace(t[i])
  }

  /** A plus sign with nothing but white space around it. */
  predicate IsPlus(gap: Text) {
    exists p | 0 <= p < |gap| :: gap[p] == 43 && AllSpace(gap[..p]) && AllSpace(gap[p + 1..])
  }

  /** White space: the ASCII controls from tab to return, the blank, and the other spaces of Unicode. */
  predicate Blank(t: Text) {
    forall i :: 0 <= i < |t| ==>
      t[i] in {9, 10, 11, 12, 13, 32, 160, 5760, 8192, 8193, 8194, 8195, 8196, 8197, 8198, 8199, 8200, 8201, 8202,
               8232, 8233, 8239, 8287, 12288, 65279}
  }

  lemma BlankIff(t: Text)
    ensures AllSpace(t) <==> Blank(t)
  {
    forall i | 0 <= i < |t| ensures IsSpace(t[i]) <==> Blank([t[i]]) {
      assert [t[i]][0] == t[i];
    }
    assert Blank(t) <==> forall i :: 0 <= i < |t| ==> Blank([t[i]]);
  }

  /** A gap that joins two literals is a plus sign between white space. */
  lemma PlusJoins(a: Text, b: Text)
    requires Blank(a) && Blank(b)
    ensures IsPlus(a + ['+' as int] + b)
  {
    var gap: Text := a + ['+' as int] + b;
    BlankIff(a);
    BlankIff(b);
    assert gap[..|a|] == a && gap[|a| + 1..] == b && gap[|a|] == 43;
  }

  lemma OnlyPlusJoins(gap: Text) returns (a: Text, b: Text)
    requires IsPlus(gap)
    ensures gap == a + ['+' as int] + b && Blank(a) && Blank(b)
  {
    var p :| 0 <= p < |gap| && gap[p] == 43 && AllSpace(gap[..p]) && AllSpace(gap[p + 1..]);
    a, b := gap[..p], gap[p + 1..];
    BlankIff(a);
    BlankIff(b);
  }

  predicate AreLiterals(spans: seq<Span>, text: Text) {
    forall i | 0 <= i < |spans| :: IsLiteral(spans[i], text)
  }

  /** A plus sign stands between this literal and the next one. */
  predicate Joined(text: Text, spans: seq<Span>, k: nat) {
    && k + 1 < |spans|
    && spans[k].end <= spans[k + 1].start <= |text|
    && IsPlus(text[spans[k].end..spans[k + 1].start])
  }

  /** The literals number `first` to `last`. */
  datatype Run = Run(first: nat, last: nat)

  function RunEnd(text: Text, spans: seq<Span>, i: nat): (e: nat)
    requires i < |spans|
    ensures i <= e < |spans| && !Joined(text, spans, e)
    ensures forall k | i <= k < e :: Joined(text, spans, k)
    decreases |spans| - i
  {
    if Joined(text, spans, i) then RunEnd(text, spans, i + 1) else i
  }

  function RunsFrom(text: Text, spans: seq<Span>, i: nat): seq<Run>
    decreases |spans| - i
  {
    if i >= |spans| then []
    else
      var e := RunEnd(text, spans, i);
      if e > i then [Run(i, e)] + RunsFrom(text, spans, e + 1) else RunsFrom(text, spans, i + 1)
  }

  method ConcatenationRuns(text: Text, spans: seq<Span>) returns (runs: seq<Run>)
    ensures runs == RunsFrom(text, spans, 0)
  {
    runs := [];
    var index := 0;
    while index < |spans|
      invariant 0 <= index <= |spans| && runs + RunsFrom(text, spans, index) == RunsFrom(text, spans, 0)
    {
      var endIndex := EndOfRun(text, spans, index);
      if endIndex > index {
        runs := runs + [Run(index, endIndex)];
        index := endIndex;
      }
      index := index + 1;
    }
  }

  method EndOfRun(text: Text, spans: seq<Span>, index: nat) returns (endIndex: nat)
    requires index < |spans|
    ensures endIndex == RunEnd(text, spans, index)
  {
    endIndex := index;
    while Joined(text, spans, endIndex)
      invariant index <= endIndex < |spans| && RunEnd(text, spans, endIndex) == RunEnd(text, spans, index)
      decreases |spans| - endIndex
    {
      endIndex := endIndex + 1;
    }
  }

  /** A run is a longest stretch of joined literals. */
  predicate IsRun(text: Text, spans: seq<Span>, r: Run) {
    && r.first < r.last < |spans|
    && (forall k | r.first <= k < r.last :: Joined(text, spans, k))
    && !Joined(text, spans, r.last)
    && (r.first > 0 ==> !Joined(text, spans, r.first - 1))
  }

  lemma {:induction false} RunsAreLongest(text: Text, spans: seq<Span>, i: nat)
    requires i > 0 ==> !Joined(text, spans, i - 1)
    ensures forall r | r in RunsFrom(text, spans, i) :: IsRun(text, spans, r) && i <= r.first
    decreases |spans| - i
  {
    if i < |spans| {
      var e := RunEnd(text, spans, i);
      var rest := RunsFrom(text, spans, e + 1);
      RunsAreLongest(text, spans, e + 1);
      assert e > i ==> IsRun(text, spans, Run(i, e));
      assert RunsFrom(text, spans, i) == if e > i then [Run(i, e)] + rest else rest;
      forall r | r in RunsFrom(text, spans, i) ensures IsRun(text, spans, r) && i <= r.first {
        assert r in rest || (e > i && r == Run(i, e));
      }
    }
  }

  lemma {:induction false} EveryRunIsFound(text: Text, spans: seq<Span>, i: nat, r: Run)
    requires IsRun(text, spans, r) && i <= r.first
    ensures r in RunsFrom(text, spans, i)
    decreases |spans| - i
  {
    var e := RunEnd(text, spans, i);
    if r.first == i {
      assert e == r.last;
    } else {
      assert !Joined(text, spans, r.first - 1);
      EveryRunIsFound(text, spans, e + 1, r);
    }
  }

  /** The decoded literals from `first` up to but not including `end`, one after the other. */
  function DecodedRun(text: Text, spans: seq<Span>, first: nat, end: nat): Text
    requires AreLiterals(spans, text) && end <= |spans|
    decreases end
  {
    if end <= first then []
    else DecodedRun(text, spans, first, end - 1) + Decode(text[spans[end - 1].start..spans[end - 1].end])
  }

  function Concat(strings: seq<Text>): Text {
    if strings == [] then [] else Concat(strings[..|strings| - 1]) + strings[|strings| - 1]
  }

  lemma {:induction false} PlacesAreJoined(before: Text, gaps: seq<Text>, strings: seq<Text>, k: nat)
    requires |gaps| == |strings| + 1 && k + 1 < |strings| && IsPlus(gaps[k + 1])
    ensures Joined(before + Weave(gaps, strings), PlacesIn(gaps, strings, |before|), k)
    decreases |strings|
  {
    var (quoted, rest) := (Stringify(strings[0]), Weave(gaps[1..], strings[1..]));
    var more := before + gaps[0] + quoted;
    var places := PlacesIn(gaps[1..], strings[1..], |more|);
    assert before + Weave(gaps, strings) == more + rest;
    assert PlacesIn(gaps, strings, |before|)[1..] == places;
    if k > 0 {
      PlacesAreJoined(more, gaps[1..], strings[1..], k - 1);
      assert PlacesIn(gaps, strings, |before|)[k] == places[k - 1];
      assert PlacesIn(gaps, strings, |before|)[k + 1] == places[k];
    } else {
      assert places[0].start == |more| + |gaps[1]|;
      assert (more + rest)[|more|..|more| + |gaps[1]|] == gaps[1];
    }
  }

  /** The literals of the text are found once each, in order, and decode to the strings. */
  predicate Recovers(text: Text, strings: seq<Text>) {
    var spans := LiteralsIn(text, 0);
    && |spans| == |strings| && AreLiterals(spans, text)
    && forall k | 0 <= k < |strings| :: Decode(text[spans[k].start..spans[k].end]) == strings[k]
  }

  /** They are one run, which decodes to the strings one after the other. */
  predicate RecoversAsOne(text: Text, strings: seq<Text>) {
    var spans := LiteralsIn(text, 0);
    && |spans| == |strings| >= 1 && AreLiterals(spans, text)
    && RunsFrom(text, spans, 0) == [Run(0, |strings| - 1)]
    && DecodedRun(text, spans, 0, |strings|) == Concat(strings)
  }

  predicate AllJoined(text: Text, spans: seq<Span>) {
    forall k | 0 <= k < |spans| - 1 :: Joined(text, spans, k)
  }

  /** A string cut into quoted pieces that are joined by plus signs is found and decoded as one. */
  lemma JoinedPiecesAreDecoded(gaps: seq<Text>, strings: seq<Text>)
    requires |gaps| == |strings| + 1 && |strings| >= 2
    requires forall i | 0 <= i < |gaps| :: QuoteFree(gaps[i])
    requires forall i | 0 < i < |strings| :: IsPlus(gaps[i])
    ensures RecoversAsOne(Weave(gaps, strings), strings)
  {
    var text := Weave(gaps, strings);
    assert Recovers(text, strings) by { FoundAndDecoded(gaps, strings); }
    assert AllJoined(text, LiteralsIn(text, 0)) by { PiecesAreJoined(gaps, strings); }
    JoinedAreDecoded(text, strings);
  }

  lemma PiecesAreJoined(gaps: seq<Text>, strings: seq<Text>)
    requires |gaps| == |strings| + 1
    requires forall i | 0 <= i < |gaps| :: QuoteFree(gaps[i])
    requires forall i | 0 < i < |strings| :: IsPlus(gaps[i])
    ensures AllJoined(Weave(gaps, strings), LiteralsIn(Weave(gaps, strings), 0))
  {
    var text := Weave(gaps, strings);
    var spans := LiteralsIn(text, 0);
    assert |spans| == |strings| by {
      QuotedStringsAreFound(gaps, strings, 0);
      PlacesCount(gaps, strings, 0);
    }
    forall k | 0 <= k < |spans| - 1 ensures Joined(text, spans, k) {
      JoinedInside(gaps, strings, k);
    }
  }

  lemma JoinedAreDecoded(text: Text, strings: seq<Text>)
    requires |strings| >= 2 && Recovers(text, strings) && AllJoined(text, LiteralsIn(text, 0))
    ensures RecoversAsOne(text, strings)
  {
    var spans := LiteralsIn(text, 0);
    assert RunEnd(text, spans, 0) == |spans| - 1 && RunsFrom(text, spans, |spans|) == [];
    DecodedRunIs(text, spans, strings, |strings|);
    assert strings[..|strings|] == strings;
  }

  lemma JoinedInside(gaps: seq<Text>, strings: seq<Text>, k: nat)
    requires |gaps| == |strings| + 1 && k + 1 < |strings| && IsPlus(gaps[k + 1])
    requires forall i | 0 <= i < |gaps| :: QuoteFree(gaps[i])
    ensures Joined(Weave(gaps, strings), LiteralsIn(Weave(gaps, strings), 0), k)
  {
    QuotedStringsAreFound(gaps, strings, 0);
    PlacesAreJoined([], gaps, strings, k);
    assert [] + Weave(gaps, strings) == Weave(gaps, strings);
  }

  /** Each quoted string is found once, in order, and decodes to itself. */
  lemma FoundAndDecoded(gaps: seq<Text>, strings: seq<Text>)
    requires |gaps| == |strings| + 1 && forall i | 0 <= i < |gaps| :: QuoteFree(gaps[i])
    ensures Recovers(Weave(gaps, strings), strings)
  {
    var text := Weave(gaps, strings);
    var spans := LiteralsIn(text, 0);
    QuotedStringsAreFound(gaps, strings, 0);
    assert [] + text == text;
    forall k | 0 <= k < |spans| ensures IsLiteral(spans[k], text) {
      SpanIsLiteral(text, k);
    }
    assert |spans| == |strings| by { PlacesCount(gaps, strings, 0); }
    forall k | 0 <= k < |strings| ensures Decode(text[spans[k].start..spans[k].end]) == strings[k] {
      PlaceHolds([], gaps, strings, k);
      DecodeOfStringify(strings[k]);
    }
  }

  lemma SpanIsLiteral(text: Text, k: nat)
    requires k < |LiteralsIn(text, 0)|
    ensures IsLiteral(LiteralsIn(text, 0)[k], text)
  {
    assert text[0..] == text;
    SpansAreWellPlaced(text, 0);
    PlacedApart(LiteralsIn(text, 0), text, 0, k, k);
  }

  lemma {:induction false} PlacesCount(gaps: seq<Text>, strings: seq<Text>, at: nat)
    requires |gaps| == |strings| + 1
    ensures |PlacesIn(gaps, strings, at)| == |strings|
    decreases |strings|
  {
    if strings != [] {
      PlacesCount(gaps[1..], strings[1..], at + |gaps[0]| + |Stringify(strings[0])|);
    }
  }

  lemma {:induction false} DecodedRunIs(text: Text, spans: seq<Span>, strings: seq<Text>, n: nat)
    requires AreLiterals(spans, text) && |spans| == |strings| && n <= |strings|
    requires forall k | 0 <= k < |strings| :: Decode(text[spans[k].start..spans[k].end]) == strings[k]
    ensures DecodedRun(text, spans, 0, n) == Concat(strings[..n])
  {
    if n > 0 {
      DecodedRunIs(text, spans, strings, n - 1);
      assert strings[..n][..n - 1] == strings[..n - 1];
    }
  }
}
