/**
  Reading a range of lines: from the whole file split into lines, and as a stream that keeps only
  the selected lines.  Texts end their lines with LF or CRLF.
*/
module RangeReader {
  import opened Numbers
  import opened Wrappers

  datatype ReadError = BadRange(start: int, end: int) | RangeTooLarge
  datatype Reading = Reading(lines: seq<string>, startLine: nat, endLine: nat, totalLines: nat, truncated: bool)

  // ---------- lines of a text ----------

  predicate CrLf(t: string) {
    |t| > 1 && t[0] == '\r' && t[1] == '\n'
  }

  function Normalize(t: string): string {
    if t == "" then "" else if CrLf(t) then "\n" + Normalize(t[2..]) else [t[0]] + Normalize(t[1..])
  }

  /** The pieces between the newlines of `current + t`, of which `current` has none. */
  function SplitFeeds(t: string, current: string): (lines: seq<string>)
    ensures lines != []
    decreases |t|
  {
    if t == "" then [current]
    else if t[0] == '\n' then [current] + SplitFeeds(t[1..], "")
    else SplitFeeds(t[1..], current + [t[0]])
  }

  function SplitLines(t: string): seq<string> {
    SplitFeeds(Normalize(t), "")
  }

  predicate Breaks(c: char) {
    c in {'\n', '\r', '\U{2028}', '\U{2029}'}
  }

  /** The lines the line reader reports: each terminated line, and a last one if it is not empty. */
  function StreamedLines(t: string, current: string): seq<string>
    decreases |t|
  {
    if t == "" then if current == "" then [] else [current]
    else if CrLf(t) then [current] + StreamedLines(t[2..], "")
    else if Breaks(t[0]) then [current] + StreamedLines(t[1..], "")
    else StreamedLines(t[1..], current + [t[0]])
  }

  /** Lines end with LF or CRLF and nothing else. */
  predicate Plain(t: string)
    decreases |t|
  {
    if t == "" then true
    else if CrLf(t) then Plain(t[2..])
    else (t[0] == '\n' || !Breaks(t[0])) && Plain(t[1..])
  }

  predicate EndsWithFeed(t: string) {
    t != "" && t[|t| - 1] == '\n'
  }

  /** The stream misses exactly the empty line after a final newline, and the only line of an empty text. */
  lemma {:induction false} StreamedAgainstSplit(t: string, current: string)
    requires Plain(t)
    ensures SplitFeeds(Normalize(t), current) ==
            StreamedLines(t, current) + if EndsWithFeed(t) || (t == "" && current == "") then [""] else []
    decreases |t|
  {
    if t != "" {
      var rest := if CrLf(t) then t[2..] else t[1..];
      assert EndsWithFeed(t) <==> EndsWithFeed(rest) || (rest == "" && t[|t| - 1] == '\n');
      if CrLf(t) || t[0] == '\n' {
        assert (("\n" + Normalize(rest)))[1..] == Normalize(rest);
        StreamedAgainstSplit(rest, "");
      } else {
        assert ([t[0]] + Normalize(rest))[1..] == Normalize(rest);
        StreamedAgainstSplit(rest, current + [t[0]]);
      }
    }
  }

  /** Lines written one after the other, each but the last ended by CRLF or LF. */
  function Written(lines: seq<string>, crlf: nat -> bool): string
    requires lines != []
  {
    var last := lines[|lines| - 1];
    if |lines| == 1 then last
    else
      Written(lines[..|lines| - 1], crlf) + (if crlf(|lines| - 2) then "\r\n" else "\n") + last
  }

  /** No newline, and no return at the end, where it would belong to the line's end. */
  predicate IsLine(line: string) {
    '\n' !in line && (line != "" ==> line[|line| - 1] != '\r')
  }

  lemma {:induction false} SplitAfter(t: string, line: string, current: string, crlf: bool)
    requires IsLine(line) && (t != "" ==> t[|t| - 1] != '\r')
    ensures SplitFeeds(Normalize(t + (if crlf then "\r\n" else "\n") + line), current) ==
            SplitFeeds(Normalize(t), current) + [line]
    decreases |t|
  {
    var ending := if crlf then "\r\n" else "\n";
    var whole := t + ending + line;
    if t == "" {
      LineStays(line, "");
      NextPiece(whole, current);
      assert whole[|ending|..] == line && "" + line == line;
      assert SplitFeeds("", current) == [current];
    } else {
      var n := if CrLf(t) then 2 else 1;
      EndingStays(t, ending, line);
      assert whole[n..] == t[n..] + ending + line;
      var next := if t[0] == '\n' || CrLf(t) then "" else current + [t[0]];
      SplitAfter(t[n..], line, next, crlf);
      NextPiece(t, current);
      NextPiece(whole, current);
      OneMore(current, SplitFeeds(Normalize(t[n..]), next), line);
    }
  }

  lemma OneMore(first: string, rest: seq<string>, last: string)
    ensures [first] + (rest + [last]) == [first] + rest + [last]
  {
  }

  lemma NextPiece(t: string, current: string)
    requires t != ""
    ensures SplitFeeds(Normalize(t), current) ==
            if CrLf(t) then [current] + SplitFeeds(Normalize(t[2..]), "")
            else if t[0] == '\n' then [current] + SplitFeeds(Normalize(t[1..]), "")
            else SplitFeeds(Normalize(t[1..]), current + [t[0]])
  {
    assert Normalize(t)[1..] == if CrLf(t) then Normalize(t[2..]) else Normalize(t[1..]);
  }

  /** Whether the text starts with CRLF is not changed by a line's end after it, unless it is a single return. */
  lemma EndingStays(t: string, ending: string, line: string)
    requires t != "" && ending in {"\r\n", "\n"}
    ensures CrLf(t + ending + line) <==> CrLf(t) || (t == "\r" && ending == "\n")
  {
  }

  lemma {:induction false} LineStays(line: string, current: string)
    requires IsLine(line)
    ensures SplitFeeds(Normalize(line), current) == [current + line]
    decreases |line|
  {
    if line == "" {
      assert current + line == current;
    } else {
      assert !CrLf(line);
      NextPiece(line, current);
      LineStays(line[1..], current + [line[0]]);
      assert current + [line[0]] + line[1..] == current + line;
    }
  }

  /** Splitting a text gives back the lines it was written from, whatever their ends. */
  lemma {:induction false} SplitOfWritten(lines: seq<string>, crlf: nat -> bool)
    requires lines != [] && forall i :: 0 <= i < |lines| ==> IsLine(lines[i])
    ensures SplitLines(Written(lines, crlf)) == lines
    decreases |lines|
  {
    var n := |lines| - 1;
    if n == 0 {
      LineStays(lines[0], "");
      assert "" + lines[0] == lines[0];
    } else {
      SplitOfWritten(lines[..n], crlf);
      var t := Written(lines[..n], crlf);
      assert t != "" ==> t[|t| - 1] != '\r' by {
        assert IsLine(lines[n - 1]);
      }
      SplitAfter(t, lines[n], "", crlf(n - 1));
      assert lines[..n] + [lines[n]] == lines;
    }
  }

  // ---------- sizes ----------

  /** Bytes of the UTF-8 encoding of a character. */
  function CharBytes(c: char): nat {
    var n := c as int;
    if n < 0x80 then 1 else if n < 0x800 then 2 else if n < 0x1_0000 then 3 else 4
  }

  function Bytes(s: string): nat {
    if s == "" then 0 else Bytes(s[..|s| - 1]) + CharBytes(s[|s| - 1])
  }

  /** A character takes one to four bytes, and one exactly if it is ASCII. */
  lemma {:induction false} BytesBounds(s: string)
    ensures |s| <= Bytes(s) <= 4 * |s|
    ensures Bytes(s) == |s| <==> forall i :: 0 <= i < |s| ==> s[i] as int < 128
    decreases |s|
  {
    if s != "" {
      BytesBounds(s[..|s| - 1]);
    }
  }

  function JoinLines(lines: seq<string>): string {
    if lines == [] then ""
    else if |lines| == 1 then lines[0]
    else JoinLines(lines[..|lines| - 1]) + "\n" + lines[|lines| - 1]
  }

  lemma {:induction false} BytesConcat(a: string, b: string)
    ensures Bytes(a + b) == Bytes(a) + Bytes(b)
    decreases |b|
  {
    if b == "" {
      assert a + b == a;
    } else {
      assert (a + b)[..|a + b| - 1] == a + b[..|b| - 1];
      BytesConcat(a, b[..|b| - 1]);
    }
  }

  lemma BytesAfterLine(lines: seq<string>, line: string)
    ensures Bytes(JoinLines(lines + [line])) == Bytes(JoinLines(lines)) + Bytes(line) + if lines == [] then 0 else 1
  {
    var more := lines + [line];
    assert more[..|more| - 1] == lines;
    if lines != [] {
      BytesConcat(JoinLines(lines) + "\n", line);
      BytesConcat(JoinLines(lines), "\n");
      assert Bytes("\n") == Bytes("") + 1 by { assert "\n"[..0] == ""; }
    }
  }

  lemma {:induction false} BytesOfPrefix(lines: seq<string>, n: nat)
    requires n <= |lines|
    ensures Bytes(JoinLines(lines[..n])) <= Bytes(JoinLines(lines))
    decreases |lines|
  {
    if n == |lines| {
      assert lines[..n] == lines;
    } else {
      var front := lines[..|lines| - 1];
      assert lines == front + [lines[|lines| - 1]] && front[..n] == lines[..n];
      BytesOfPrefix(front, n);
      BytesAfterLine(front, lines[|lines| - 1]);
    }
  }

  // ---------- the whole file ----------

  /** The lines numbered `start` to `end`, as far as there are any. */
  function Window(lines: seq<string>, start: nat, end: int): seq<string>
    requires 1 <= start
  {
    if Min(|lines|, end) < start then [] else lines[start - 1..Min(|lines|, end)]
  }

  /** What is read of these lines. */
  function ReadLines(lines: seq<string>, start: nat, end: int): Result<Reading, ReadError>
    requires 1 <= start
  {
    var last := Min(|lines|, end);
    if last < start then Err(BadRange(start, last))
    else Ok(Reading(lines[start - 1..last], start, last, |lines|, start > 1 || last < |lines|))
  }

  function ReadWhole(t: string, start: nat, end: int): Result<Reading, ReadError>
    requires 1 <= start
  {
    ReadLines(SplitLines(t), start, end)
  }

  /** A reading has the lines asked for, as far as the text has them, and says whether there are others. */
  lemma ReadMeans(t: string, start: nat, end: int)
    requires 1 <= start
    ensures var (r, all) := (ReadWhole(t, start, end), SplitLines(t));
            && (r.Ok? <==> start <= end && start <= |all|)
            && (r.Ok? ==>
                  && r.value.startLine == start && r.value.totalLines == |all|
                  && r.value.endLine == start + |r.value.lines| - 1
                  && (r.value.endLine == end || r.value.endLine == |all| < end)
                  && (forall i :: 0 <= i < |r.value.lines| ==> r.value.lines[i] == all[start - 1 + i])
                  && (r.value.truncated <==> |r.value.lines| < |all|))
  {
  }

  // ---------- the stream ----------

  class Selection {
    const start: nat
    const end: int
    const maxBytes: nat
    var selected: seq<string>
    var selectedBytes: nat
    var totalLines: nat

    constructor (start: nat, end: int, maxBytes: nat)
      requires 1 <= start
      ensures this.start == start && this.end == end && this.maxBytes == maxBytes
      ensures totalLines == 0 && Holds([])
    {
      this.start, this.end, this.maxBytes := start, end, maxBytes;
      selected, selectedBytes, totalLines := [], 0, 0;
    }

    /** After `lines` have gone by: the window of them is selected, its bytes are counted and within the limit. */
    ghost predicate Holds(lines: seq<string>)
      reads this
    {
      && 1 <= start
      && totalLines == |lines|
      && selected == Window(lines, start, end)
      && selectedBytes == Bytes(JoinLines(selected)) <= maxBytes
    }

    /** The next line goes by; `false` is the size error. */
    method Take(line: string, ghost lines: seq<string>) returns (ok: bool)
      requires Holds(lines)
      modifies this
      ensures ok ==> Holds(lines + [line])
      ensures !ok ==> Bytes(JoinLines(Window(lines + [line], start, end))) > maxBytes
    {
      WindowGrows(lines, line, start, end);
      assert selected == Window(lines, start, end);
      totalLines := totalLines + 1;
      ok := true;
      if start <= totalLines <= end {
        BytesAfterLine(selected, line);
        selectedBytes := selectedBytes + Bytes(line) + if selected == [] then 0 else 1;
        if selectedBytes > maxBytes {
          return false;
        }
        selected := selected + [line];
      }
    }

    /** All these lines go by, the first ones of `all`. */
    method TakeAll(streamed: seq<string>, ghost all: seq<string>) returns (ok: bool)
      requires Holds([]) && streamed <= all
      modifies this
      ensures ok ==> Holds(streamed)
      ensures !ok ==> Bytes(JoinLines(Window(all, start, end))) > maxBytes
    {
      ok := true;
      for i := 0 to |streamed|
        invariant ok && Holds(streamed[..i])
      {
        assert streamed[..i + 1] == streamed[..i] + [streamed[i]];
        ok := Take(streamed[i], streamed[..i]);
        if !ok {
          assert all[..i + 1] == streamed[..i + 1];
          WindowOfPrefix(all, i + 1, start, end);
          return;
        }
      }
      assert streamed[..|streamed|] == streamed;
    }

    /** The result when all lines have gone by. */
    method Finish(ghost lines: seq<string>) returns (r: Result<Reading, ReadError>)
      requires Holds(lines)
      ensures r == ReadLines(lines, start, end)
    {
      var last := Min(totalLines, end);
      if last < start {
        return Err(BadRange(start, last));
      }
      return Ok(Reading(selected, start, last, totalLines, start > 1 || last < totalLines));
    }
  }

  lemma WindowGrows(lines: seq<string>, line: string, start: nat, end: int)
    requires 1 <= start
    ensures Window(lines + [line], start, end) ==
            if start <= |lines| + 1 <= end then Window(lines, start, end) + [line] else Window(lines, start, end)
  {
  }

  /**
    The streaming reader gives the result of the whole-file reader, and raises the size error
    exactly when the selected lines, joined by newlines, have more than `maxBytes` bytes.
  */
  method ReadLargeTextRange(t: string, start: nat, end: int, maxBytes: nat) returns (r: Result<Reading, ReadError>)
    requires Plain(t) && 1 <= start <= end
    ensures r == Err(RangeTooLarge) <==> Bytes(JoinLines(Window(SplitLines(t), start, end))) > maxBytes
    ensures r != Err(RangeTooLarge) ==> r == ReadWhole(t, start, end)
  {
    var streamed := StreamedLines(t, "");
    ghost var all := SplitLines(t);
    WholeLines(t);
    var s := new Selection(start, end, maxBytes);
    var ok := s.TakeAll(streamed, all);
    if ok && (t == "" || EndsWithFeed(t)) {
      ok := s.Take("", streamed);
    }
    if !ok {
      return Err(RangeTooLarge);
    }
    r := s.Finish(all);
  }

  lemma WholeLines(t: string)
    requires Plain(t)
    ensures var (streamed, all) := (StreamedLines(t, ""), SplitLines(t));
            && streamed <= all
            && all == if t == "" || EndsWithFeed(t) then streamed + [""] else streamed
  {
    StreamedAgainstSplit(t, "");
    assert StreamedLines(t, "") + [] == StreamedLines(t, "");
  }

  /** What is selected from the first lines is no larger than what is selected from all of them. */
  lemma WindowOfPrefix(lines: seq<string>, n: nat, start: nat, end: int)
    requires n <= |lines| && 1 <= start
    ensures Bytes(JoinLines(Window(lines[..n], start, end))) <= Bytes(JoinLines(Window(lines, start, end)))
  {
    var some, all := Window(lines[..n], start, end), Window(lines, start, end);
    if some == [] {
      assert all[..0] == [];
    } else {
      var last := Min(n, end);
      assert some == lines[..n][start - 1..last];
      assert lines[..n][start - 1..last] == lines[start - 1..last];
      assert all[..last - start + 1] == lines[start - 1..last];
    }
    BytesOfPrefix(all, |some|);
  }
}
