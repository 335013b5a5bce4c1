/** The single-hunk line diff of a write or an edit, before redaction and truncation. */
module Diff {
  import opened Numbers

  datatype Header = Header(oldStart: nat, oldCount: nat, newStart: nat, newCount: nat)
  datatype Hunk = Hunk(header: Header, lines: seq<string>, additions: nat, deletions: nat)

  const CONTEXT: nat := 3

  // ---------- what a hunk means ----------

  predicate Marked(line: string, mark: char) {
    line != "" && line[0] == mark
  }

  predicate WellMarked(lines: seq<string>) {
    forall i :: 0 <= i < |lines| ==> Marked(lines[i], ' ') || Marked(lines[i], '-') || Marked(lines[i], '+')
  }

  /** The lines a hunk takes out of a file, or puts into it: its context and the lines marked `mark`. */
  function Side(lines: seq<string>, mark: char): seq<string>
    requires WellMarked(lines)
  {
    if lines == [] then []
    else
      var last := lines[|lines| - 1];
      Side(lines[..|lines| - 1], mark) + if Marked(last, ' ') || Marked(last, mark) then [last[1..]] else []
  }

  function Swapped(header: Header): Header {
    Header(header.newStart, header.newCount, header.oldStart, header.oldCount)
  }

  /**
    Applying a hunk to a file: the lines at its position must be the ones it takes out, which are
    exchanged for the ones it puts in; both must be as many as its header says.
  */
  predicate AppliesTo(header: Header, outOf: seq<string>, into: seq<string>, lines: seq<string>, result: seq<string>) {
    && header.oldStart + header.oldCount <= |lines|
    && |outOf| == header.oldCount && |into| == header.newCount
    && lines[header.oldStart..header.oldStart + header.oldCount] == outOf
    && result == lines[..header.oldStart] + into + lines[header.oldStart + header.oldCount..]
  }

  predicate TurnsInto(hunk: Hunk, lines: seq<string>, result: seq<string>)
    requires WellMarked(hunk.lines)
  {
    AppliesTo(hunk.header, Side(hunk.lines, '-'), Side(hunk.lines, '+'), lines, result)
  }

  predicate TurnsBack(hunk: Hunk, lines: seq<string>, result: seq<string>)
    requires WellMarked(hunk.lines)
  {
    AppliesTo(Swapped(hunk.header), Side(hunk.lines, '+'), Side(hunk.lines, '-'), lines, result)
  }

  /** `new` is `old` with one block of lines replaced: all but the first `p` and the last `q` lines. */
  predicate BlockReplacement(before: seq<string>, after: seq<string>, p: nat, q: nat) {
    && p + q <= |before| && p + q <= |after|
    && before[..p] == after[..p]
    && before[|before| - q..] == after[|after| - q..]
  }

  // ---------- marking lines ----------

  function Mark(lines: seq<string>, mark: char): seq<string> {
    seq(|lines|, i requires 0 <= i < |lines| => [mark] + lines[i])
  }

  lemma {:induction false} SideOfMarked(lines: seq<string>, m: char, mark: char)
    requires m in {' ', '-', '+'}
    ensures WellMarked(Mark(lines, m))
    ensures Side(Mark(lines, m), mark) == if m == ' ' || m == mark then lines else []
    decreases |lines|
  {
    if lines != [] {
      var n := |lines| - 1;
      SideOfMarked(lines[..n], m, mark);
      LastMarked(lines, m);
    }
  }

  lemma LastMarked(lines: seq<string>, m: char)
    requires lines != []
    ensures var n := |lines| - 1;
            && lines == lines[..n] + [lines[n]]
            && Mark(lines, m)[..n] == Mark(lines[..n], m) && Mark(lines, m)[n][1..] == lines[n]
  {
  }

  lemma {:induction false} SideConcat(a: seq<string>, b: seq<string>, mark: char)
    requires WellMarked(a) && WellMarked(b)
    ensures WellMarked(a + b) && Side(a + b, mark) == Side(a, mark) + Side(b, mark)
    decreases |b|
  {
    if b == [] {
      assert a + b == a;
    } else {
      assert (a + b)[..|a + b| - 1] == a + b[..|b| - 1];
      SideConcat(a, b[..|b| - 1], mark);
    }
  }

  // ---------- the diff ----------

  /** The longest common prefix, then the longest common suffix of what is left. */
  method CommonEnds(before: seq<string>, after: seq<string>) returns (prefix: nat, suffix: nat)
    ensures BlockReplacement(before, after, prefix, suffix)
    ensures prefix < |before| && prefix < |after| ==> before[prefix] != after[prefix]
    ensures prefix + suffix < |before| && prefix + suffix < |after| ==>
              before[|before| - 1 - suffix] != after[|after| - 1 - suffix]
  {
    prefix := 0;
    while prefix < |before| && prefix < |after| && before[prefix] == after[prefix]
      invariant prefix <= |before| && prefix <= |after|
      invariant before[..prefix] == after[..prefix]
    {
      assert before[..prefix + 1] == before[..prefix] + [before[prefix]];
      assert after[..prefix + 1] == after[..prefix] + [after[prefix]];
      prefix := prefix + 1;
    }
    suffix := 0;
    while suffix < |before| - prefix && suffix < |after| - prefix
          && before[|before| - 1 - suffix] == after[|after| - 1 - suffix]
      invariant prefix + suffix <= |before| && prefix + suffix <= |after|
      invariant before[|before| - suffix..] == after[|after| - suffix..]
    {
      assert before[|before| - 1 - suffix..] == [before[|before| - 1 - suffix]] + before[|before| - suffix..];
      assert after[|after| - 1 - suffix..] == [after[|after| - 1 - suffix]] + after[|after| - suffix..];
      suffix := suffix + 1;
    }
  }

  method PushMarked(out: seq<string>, lines: seq<string>, from: nat, to: nat, mark: char) returns (more: seq<string>)
    requires from <= to <= |lines|
    ensures more == out + Mark(lines[from..to], mark)
  {
    more := out;
    for i := from to to
      invariant more == out + Mark(lines[from..i], mark)
    {
      more := more + [[mark] + lines[i]];
    }
  }

  method PushHunk(before: seq<string>, after: seq<string>, from: nat, prefix: nat, oldEnd: nat, newEnd: nat,
                  oldTo: nat) returns (lines: seq<string>)
    requires from <= prefix <= oldEnd <= oldTo <= |before| && prefix <= newEnd <= |after|
    ensures lines == Blocks(before[from..prefix], before[prefix..oldEnd], after[prefix..newEnd], before[oldEnd..oldTo])
  {
    lines := PushMarked([], before, from, prefix, ' ');
    lines := PushMarked(lines, before, prefix, oldEnd, '-');
    lines := PushMarked(lines, after, prefix, newEnd, '+');
    lines := PushMarked(lines, before, oldEnd, oldTo, ' ');
    assert [] + Mark(before[from..prefix], ' ') == Mark(before[from..prefix], ' ');
  }

  /** The header covers three more lines on each side, or as many as there are. */
  predicate Surrounds(header: Header, oldLines: nat, newLines: nat, prefix: nat, suffix: nat) {
    && header.oldStart == header.newStart == (if prefix < 3 then 0 else prefix - 3)
    && header.oldStart + header.oldCount == (if suffix < 3 then oldLines else oldLines - suffix + 3)
    && header.newStart + header.newCount == (if suffix < 3 then newLines else newLines - suffix + 3)
  }

  lemma ContextIsThree(oldLines: nat, newLines: nat, prefix: nat, suffix: nat, from: nat, oldTo: nat, newTo: nat)
    requires prefix + suffix <= oldLines && prefix + suffix <= newLines && from == Max(0, prefix - CONTEXT)
    requires oldTo == Min(oldLines, oldLines - suffix + CONTEXT) && newTo == Min(newLines, newLines - suffix + CONTEXT)
    ensures from <= prefix <= oldLines - suffix <= oldTo <= oldLines && prefix <= newLines - suffix <= newTo
    ensures oldLines - oldTo == newLines - newTo
    ensures Surrounds(Header(from, oldTo - from, from, newTo - from), oldLines, newLines, prefix, suffix)
  {
  }

  /** The hunk for one replaced block, with up to three lines of context on each side. */
  method BuildHunk(before: seq<string>, after: seq<string>, prefix: nat, suffix: nat) returns (hunk: Hunk)
    requires BlockReplacement(before, after, prefix, suffix)
    ensures WellMarked(hunk.lines)
    ensures TurnsInto(hunk, before, after) && TurnsBack(hunk, after, before)
    ensures hunk.deletions == Count(hunk.lines, '-') == |before| - prefix - suffix
    ensures hunk.additions == Count(hunk.lines, '+') == |after| - prefix - suffix
    ensures Surrounds(hunk.header, |before|, |after|, prefix, suffix)
  {
    var oldEnd, newEnd := |before| - suffix, |after| - suffix;
    var from := Max(0, prefix - CONTEXT);
    var oldTo, newTo := Min(|before|, oldEnd + CONTEXT), Min(|after|, newEnd + CONTEXT);
    ContextIsThree(|before|, |after|, prefix, suffix, from, oldTo, newTo);
    var lines := PushHunk(before, after, from, prefix, oldEnd, newEnd, oldTo);
    hunk := Hunk(Header(from, oldTo - from, from, newTo - from), lines, newEnd - prefix, oldEnd - prefix);
    HunkIsRight(before, after, prefix, suffix, from, oldTo, newTo, hunk);
  }

  lemma HunkIsRight(before: seq<string>, after: seq<string>, prefix: nat, suffix: nat, from: nat, oldTo: nat,
                    newTo: nat, hunk: Hunk)
    requires BlockReplacement(before, after, prefix, suffix) && from <= prefix
    requires |before| - suffix <= oldTo <= |before| && |before| - oldTo == |after| - newTo
    requires hunk.header == Header(from, oldTo - from, from, newTo - from)
    requires hunk.lines == Blocks(before[from..prefix], before[prefix..|before| - suffix],
                                  after[prefix..|after| - suffix], before[|before| - suffix..oldTo])
    ensures WellMarked(hunk.lines)
    ensures TurnsInto(hunk, before, after) && TurnsBack(hunk, after, before)
    ensures Count(hunk.lines, '-') == |before| - prefix - suffix && Count(hunk.lines, '+') == |after| - prefix - suffix
  {
    var head, lead, gone, added, trail, tail := CutAround(before, after, prefix, suffix, from, oldTo, newTo);
    HunkFits(head, lead, gone, added, trail, tail, before, after, hunk);
  }

  /** `HunkMeans` for two files that are cut at the hunk. */
  lemma HunkFits(head: seq<string>, lead: seq<string>, gone: seq<string>, added: seq<string>, trail: seq<string>,
                 tail: seq<string>, before: seq<string>, after: seq<string>, hunk: Hunk)
    requires before == head + (lead + gone + trail) + tail && after == head + (lead + added + trail) + tail
    requires hunk.header == Header(|head|, |lead| + |gone| + |trail|, |head|, |lead| + |added| + |trail|)
    requires hunk.lines == Blocks(lead, gone, added, trail)
    ensures WellMarked(hunk.lines)
    ensures TurnsInto(hunk, before, after) && TurnsBack(hunk, after, before)
    ensures Count(hunk.lines, '-') == |gone| && Count(hunk.lines, '+') == |added|
  {
    HunkMeans(head, lead, gone, added, trail, tail, hunk);
  }

  /**
    The hunk turns the old lines into the new ones and, reversed, back; its counts are right; and it
    deletes and adds as few lines as any replacement of one block of lines that has the same effect.
  */
  method MakeHunk(before: seq<string>, after: seq<string>) returns (hunk: Hunk)
    ensures WellMarked(hunk.lines)
    ensures TurnsInto(hunk, before, after) && TurnsBack(hunk, after, before)
    ensures exists p: nat, q: nat ::
              && BlockReplacement(before, after, p, q)
              && hunk.deletions == |before| - p - q && hunk.additions == |after| - p - q
    ensures forall p: nat, q: nat :: BlockReplacement(before, after, p, q) ==>
              hunk.deletions <= |before| - p - q && hunk.additions <= |after| - p - q
    ensures hunk.deletions == Count(hunk.lines, '-') && hunk.additions == Count(hunk.lines, '+')
  {
    var prefix, suffix := CommonEnds(before, after);
    hunk := BuildHunk(before, after, prefix, suffix);
    forall p: nat, q: nat | BlockReplacement(before, after, p, q)
      ensures p + q <= prefix + suffix
    {
      EndsAreLongest(before, after, prefix, suffix, p, q);
    }
  }

  /** A hunk around one replaced block: `head` and `tail` are outside of it, `lead` and `trail` are its context. */
  lemma HunkMeans(head: seq<string>, lead: seq<string>, gone: seq<string>, added: seq<string>, trail: seq<string>,
                  tail: seq<string>, hunk: Hunk)
    requires hunk.header == Header(|head|, |lead| + |gone| + |trail|, |head|, |lead| + |added| + |trail|)
    requires hunk.lines == Blocks(lead, gone, added, trail)
    ensures WellMarked(hunk.lines)
    ensures TurnsInto(hunk, head + (lead + gone + trail) + tail, head + (lead + added + trail) + tail)
    ensures TurnsBack(hunk, head + (lead + added + trail) + tail, head + (lead + gone + trail) + tail)
    ensures Count(hunk.lines, '-') == |gone| && Count(hunk.lines, '+') == |added|
  {
    SideOfBlocks(lead, gone, added, trail);
    CountOfBlocks(lead, gone, added, trail);
    BlockApplies(hunk.header, head, lead + gone + trail, lead + added + trail, tail);
    BlockApplies(Swapped(hunk.header), head, lead + added + trail, lead + gone + trail, tail);
  }

  lemma BlockApplies(header: Header, head: seq<string>, outOf: seq<string>, into: seq<string>, tail: seq<string>)
    requires header == Header(|head|, |outOf|, |head|, |into|)
    ensures AppliesTo(header, outOf, into, head + outOf + tail, head + into + tail)
  {
    var lines := head + outOf + tail;
    assert lines[..|head|] == head && lines[|head|..|head| + |outOf|] == outOf && lines[|head| + |outOf|..] == tail;
  }

  /** Context, deletions, additions and context. */
  function Blocks(lead: seq<string>, gone: seq<string>, added: seq<string>, trail: seq<string>): seq<string> {
    Mark(lead, ' ') + Mark(gone, '-') + Mark(added, '+') + Mark(trail, ' ')
  }

  predicate SidesAre(lines: seq<string>, oldSide: seq<string>, newSide: seq<string>) {
    WellMarked(lines) && Side(lines, '-') == oldSide && Side(lines, '+') == newSide
  }

  /** How many lines carry the mark. */
  function Count(lines: seq<string>, mark: char): nat {
    if lines == [] then 0 else Count(lines[..|lines| - 1], mark) + if Marked(lines[|lines| - 1], mark) then 1 else 0
  }

  lemma {:induction false} CountOfMarked(lines: seq<string>, m: char, mark: char)
    ensures Count(Mark(lines, m), mark) == if m == mark then |lines| else 0
    decreases |lines|
  {
    if lines != [] {
      CountOfMarked(lines[..|lines| - 1], m, mark);
      assert Mark(lines, m)[..|lines| - 1] == Mark(lines[..|lines| - 1], m);
    }
  }

  lemma {:induction false} CountConcat(a: seq<string>, b: seq<string>, mark: char)
    ensures Count(a + b, mark) == Count(a, mark) + Count(b, mark)
    decreases |b|
  {
    if b == [] {
      assert a + b == a;
    } else {
      assert (a + b)[..|a + b| - 1] == a + b[..|b| - 1];
      CountConcat(a, b[..|b| - 1], mark);
    }
  }

  lemma SideOfBlocks(lead: seq<string>, gone: seq<string>, added: seq<string>, trail: seq<string>)
    ensures SidesAre(Blocks(lead, gone, added, trail), lead + gone + trail, lead + added + trail)
  {
    SideOfBlocksFor(lead, gone, added, trail, '-');
    SideOfBlocksFor(lead, gone, added, trail, '+');
    assert lead + gone + [] + trail == lead + gone + trail;
    assert lead + [] + added + trail == lead + added + trail;
  }

  lemma SideOfBlocksFor(lead: seq<string>, gone: seq<string>, added: seq<string>, trail: seq<string>, mark: char)
    requires mark in {'-', '+'}
    ensures var lines := Blocks(lead, gone, added, trail);
            && WellMarked(lines)
            && Side(lines, mark) == lead + (if mark == '-' then gone else []) +
              (if mark == '+' then added else []) + trail
  {
    var a, b, c, d := Mark(lead, ' '), Mark(gone, '-'), Mark(added, '+'), Mark(trail, ' ');
    SideOfMarked(lead, ' ', mark);
    SideOfMarked(gone, '-', mark);
    SideOfMarked(added, '+', mark);
    SideOfMarked(trail, ' ', mark);
    SideConcat(a, b, mark);
    SideConcat(a + b, c, mark);
    SideConcat(a + b + c, d, mark);
  }

  lemma CountOfBlocks(lead: seq<string>, gone: seq<string>, added: seq<string>, trail: seq<string>)
    ensures Count(Blocks(lead, gone, added, trail), '-') == |gone|
    ensures Count(Blocks(lead, gone, added, trail), '+') == |added|
  {
    CountOfBlocksFor(lead, gone, added, trail, '-');
    CountOfBlocksFor(lead, gone, added, trail, '+');
  }

  lemma CountOfBlocksFor(lead: seq<string>, gone: seq<string>, added: seq<string>, trail: seq<string>, mark: char)
    requires mark in {'-', '+'}
    ensures Count(Blocks(lead, gone, added, trail), mark) == if mark == '-' then |gone| else |added|
  {
    var a, b, c, d := Mark(lead, ' '), Mark(gone, '-'), Mark(added, '+'), Mark(trail, ' ');
    CountOfMarked(lead, ' ', mark);
    CountOfMarked(gone, '-', mark);
    CountOfMarked(added, '+', mark);
    CountOfMarked(trail, ' ', mark);
    CountConcat(a, b, mark);
    CountConcat(a + b, c, mark);
    CountConcat(a + b + c, d, mark);
  }

  /** Cutting both files at the replaced block, at `from` before it, and as far behind it. */
  lemma CutAround(before: seq<string>, after: seq<string>, prefix: nat, suffix: nat, from: nat, oldTo: nat,
                  newTo: nat)
    returns (head: seq<string>, lead: seq<string>, gone: seq<string>, added: seq<string>, trail: seq<string>,
             tail: seq<string>)
    requires BlockReplacement(before, after, prefix, suffix) && from <= prefix
    requires |before| - suffix <= oldTo <= |before| && |before| - oldTo == |after| - newTo
    ensures var (oldEnd, newEnd) := (|before| - suffix, |after| - suffix);
            && lead == before[from..prefix] && gone == before[prefix..oldEnd]
            && added == after[prefix..newEnd] && trail == before[oldEnd..oldTo]
            && |head| == from && |lead| + |gone| + |trail| == oldTo - from && |lead| + |added| + |trail| == newTo - from
    ensures before == head + (lead + gone + trail) + tail && after == head + (lead + added + trail) + tail
  {
    var oldEnd, newEnd := |before| - suffix, |after| - suffix;
    head, lead, gone := before[..from], before[from..prefix], before[prefix..oldEnd];
    added, trail, tail := after[prefix..newEnd], before[oldEnd..oldTo], before[oldTo..];
    CutFive(before, from, prefix, oldEnd, oldTo);
    CutFive(after, from, prefix, newEnd, newTo);
    assert before[..prefix][..from] == before[..from] && before[..prefix][from..] == before[from..prefix];
    assert after[..prefix][..from] == after[..from] && after[..prefix][from..] == after[from..prefix];
    assert before[oldEnd..][..oldTo - oldEnd] == before[oldEnd..oldTo];
    assert before[oldEnd..][oldTo - oldEnd..] == before[oldTo..];
    assert after[newEnd..][..newTo - newEnd] == after[newEnd..newTo];
    assert after[newEnd..][newTo - newEnd..] == after[newTo..];
  }

  lemma CutFive(s: seq<string>, a: nat, b: nat, c: nat, d: nat)
    requires a <= b <= c <= d <= |s|
    ensures s == s[..a] + (s[a..b] + s[b..c] + s[c..d]) + s[d..]
  {
  }

  /** The prefix-then-suffix scan finds the largest common ends. */
  lemma EndsAreLongest(before: seq<string>, after: seq<string>, prefix: nat, suffix: nat, p: nat, q: nat)
    requires BlockReplacement(before, after, prefix, suffix) && BlockReplacement(before, after, p, q)
    requires prefix < |before| && prefix < |after| ==> before[prefix] != after[prefix]
    requires prefix + suffix < |before| && prefix + suffix < |after| ==>
               before[|before| - 1 - suffix] != after[|after| - 1 - suffix]
    ensures p + q <= prefix + suffix
  {
    SameAtStart(before, after, p, q, prefix);
    SameAtEnd(before, after, p, q, suffix);
  }

  lemma SameAtStart(before: seq<string>, after: seq<string>, p: nat, q: nat, k: nat)
    requires BlockReplacement(before, after, p, q)
    ensures k < p ==> before[k] == after[k]
  {
    assert k < p ==> before[..p][k] == after[..p][k];
  }

  lemma SameAtEnd(before: seq<string>, after: seq<string>, p: nat, q: nat, k: nat)
    requires BlockReplacement(before, after, p, q)
    ensures k < q ==> before[|before| - 1 - k] == after[|after| - 1 - k]
  {
    assert k < q ==> before[|before| - q..][q - 1 - k] == after[|after| - q..][q - 1 - k];
  }
}
