/**
  Exact text replacement: counting and replacing by split and join, and the single-match branch,
  whose library call gives `$` sequences in the new text a meaning of their own.
*/
module TextEdit {
  import opened Wrappers

  datatype EditError = EmptyOldText | NotFound | Ambiguous(count: nat) | UnexpectedCount(expected: int, count: nat)
  datatype Edit = Edit(after: string, replacements: nat)

  /** Which positions of a text a match starts at. */
  type Spots = nat -> bool

  predicate OccursAt(s: string, word: string, i: nat) {
    i + |word| <= |s| && s[i..i + |word|] == word
  }

  function SpotsOf(s: string, word: string): Spots {
    (i: nat) => OccursAt(s, word, i)
  }

  /** The pieces left of `s[start..]` when it is split at matches of length `n`; none starts between `start` and `i`. */
  function Split(s: string, n: nat, at: Spots, start: nat, i: nat): (pieces: seq<string>)
    requires n > 0 && start <= i <= |s|
    ensures pieces != []
    decreases |s| - i
  {
    if i + n > |s| then [s[start..]]
    else if at(i) then [s[start..i]] + Split(s, n, at, i + n, i + n)
    else Split(s, n, at, start, i + 1)
  }

  function Join(pieces: seq<string>, glue: string): string {
    if pieces == [] then "" else if |pieces| == 1 then pieces[0] else pieces[0] + glue + Join(pieces[1..], glue)
  }

  function Occurrences(s: string, word: string): nat
    requires word != ""
  {
    |Split(s, |word|, SpotsOf(s, word), 0, 0)| - 1
  }

  function ReplaceAll(s: string, word: string, text: string): string
    requires word != ""
  {
    Join(Split(s, |word|, SpotsOf(s, word), 0, 0), text)
  }

  // ---------- the library's replacement text ----------

  predicate Escape(text: string, k: nat) {
    k + 1 < |text| && text[k] == '$' && text[k + 1] in {'$', '&', '`', '\''}
  }

  predicate HasEscape(text: string) {
    exists k :: 0 <= k < |text| && Escape(text, k)
  }

  /** The replacement text for a match of `word` between `pre` and `post`. */
  function Expand(text: string, word: string, pre: string, post: string): string {
    if text == "" then ""
    else if Escape(text, 0) then
      (match text[1] case '$' => "$" case '&' => word case '`' => pre case _ => post)
      + Expand(text[2..], word, pre, post)
    else [text[0]] + Expand(text[1..], word, pre, post)
  }

  /** What the library makes of a dollar sign and the character after it. */
  lemma ExpandDollar(c: char, rest: string, word: string, pre: string, post: string)
    ensures Expand(['$', c] + rest, word, pre, post) ==
            if c == '$' then "$" + Expand(rest, word, pre, post)
            else if c == '&' then word + Expand(rest, word, pre, post)
            else if c == '`' then pre + Expand(rest, word, pre, post)
            else if c == '\'' then post + Expand(rest, word, pre, post)
            else "$" + Expand([c] + rest, word, pre, post)
  {
    var text := ['$', c] + rest;
    assert text[2..] == rest && text[1..] == [c] + rest;
  }

  lemma ExpandOther(c: char, rest: string, word: string, pre: string, post: string)
    requires c != '$'
    ensures Expand([c] + rest, word, pre, post) == [c] + Expand(rest, word, pre, post)
    ensures Expand("", word, pre, post) == ""
  {
    assert ([c] + rest)[1..] == rest;
  }

  /** The first match that starts at `from` or later. */
  function FindFrom(len: nat, n: nat, at: Spots, from: nat): (r: Option<nat>)
    ensures r.Some? ==> from <= r.value && r.value + n <= len
    decreases len - from
  {
    if from + n > len then None else if at(from) then Some(from) else FindFrom(len, n, at, from + 1)
  }

  /** `String.replace` with a string pattern: the first match, with `$` sequences expanded. */
  function ReplaceFirst(s: string, word: string, text: string): string {
    match FindFrom(|s|, |word|, SpotsOf(s, word), 0)
    case None => s
    case Some(i) => s[..i] + Expand(text, word, s[..i], s[i + |word|..]) + s[i + |word|..]
  }

  /** What `editTextFile` does to the text before it checks sizes and secrets. */
  function PlanEdit(before: string, word: string, text: string, all: bool,
                    expected: Option<int>): Result<Edit, EditError> {
    if word == "" then Err(EmptyOldText)
    else
      var count := Occurrences(before, word);
      if count == 0 then Err(NotFound)
      else if !all && count != 1 then Err(Ambiguous(count))
      else if expected.Some? && expected.value != count then Err(UnexpectedCount(expected.value, count))
      else Ok(Edit(if all then ReplaceAll(before, word, text) else ReplaceFirst(before, word, text), count))
  }

  // ---------- leftmost non-overlapping substitution ----------

  /** No match of length `n` starts at `from` or later but before `to`. */
  ghost predicate NoneStart(len: nat, n: nat, at: Spots, from: nat, to: nat) {
    forall i :: from <= i < to && i + n <= len ==> !at(i)
  }

  /**
    `ps` are the leftmost non-overlapping matches at or after `from`: the first is the first there
    is, and the others are the leftmost ones after its end.
  */
  ghost predicate Leftmost(len: nat, n: nat, at: Spots, ps: seq<nat>, from: nat)
    decreases |ps|
  {
    if ps == [] then NoneStart(len, n, at, from, len)
    else
      && from <= ps[0] && ps[0] + n <= len && at(ps[0])
      && NoneStart(len, n, at, from, ps[0])
      && Leftmost(len, n, at, ps[1..], ps[0] + n)
  }

  ghost predicate LeftmostOf(s: string, word: string, ps: seq<nat>) {
    Leftmost(|s|, |word|, SpotsOf(s, word), ps, 0)
  }

  /** Places for `n` characters each, in order and without overlap. */
  predicate InOrder(len: nat, n: nat, ps: seq<nat>, from: nat)
    decreases |ps|
  {
    if ps == [] then from <= len else from <= ps[0] && ps[0] + n <= len && InOrder(len, n, ps[1..], ps[0] + n)
  }

  /** `s[from..]` with the `n` characters at each of `ps` exchanged for `text`. */
  function Substitute(s: string, n: nat, ps: seq<nat>, text: string, from: nat): string
    requires InOrder(|s|, n, ps, from)
    decreases |ps|
  {
    if ps == [] then s[from..]
    else s[from..ps[0]] + text + Substitute(s, n, ps[1..], text, ps[0] + n)
  }

  /** The pieces left when the `n` characters at each of `ps` are cut out of `s[from..]`. */
  function Pieces(s: string, n: nat, ps: seq<nat>, from: nat): (pieces: seq<string>)
    requires InOrder(|s|, n, ps, from)
    ensures |pieces| == |ps| + 1
    decreases |ps|
  {
    if ps == [] then [s[from..]] else [s[from..ps[0]]] + Pieces(s, n, ps[1..], ps[0] + n)
  }

  lemma {:induction false} LeftmostInOrder(len: nat, n: nat, at: Spots, ps: seq<nat>, from: nat)
    requires from <= len && Leftmost(len, n, at, ps, from)
    ensures InOrder(len, n, ps, from)
    decreases |ps|
  {
    if ps != [] {
      LeftmostInOrder(len, n, at, ps[1..], ps[0] + n);
    }
  }

  /** How the leftmost matches look from position `i`. */
  lemma LeftmostStep(len: nat, n: nat, at: Spots, ps: seq<nat>, i: nat)
    requires n > 0 && i <= len && Leftmost(len, n, at, ps, i)
    ensures i + n > len ==> ps == []
    ensures i + n <= len && at(i) ==> ps != [] && ps[0] == i && Leftmost(len, n, at, ps[1..], i + n)
    ensures i + n <= len && !at(i) ==> Leftmost(len, n, at, ps, i + 1)
  {
  }

  lemma {:induction false} SplitIsPieces(s: string, n: nat, at: Spots, ps: seq<nat>, start: nat, i: nat)
    requires n > 0 && start <= i <= |s| && Leftmost(|s|, n, at, ps, i)
    requires InOrder(|s|, n, ps, start)
    ensures Split(s, n, at, start, i) == Pieces(s, n, ps, start)
    decreases |s| - i
  {
    LeftmostStep(|s|, n, at, ps, i);
    if i + n <= |s| {
      if at(i) {
        SplitIsPieces(s, n, at, ps[1..], i + n, i + n);
      } else {
        SplitIsPieces(s, n, at, ps, start, i + 1);
      }
    }
  }

  lemma JoinCons(first: string, rest: seq<string>, glue: string)
    requires rest != []
    ensures Join([first] + rest, glue) == first + glue + Join(rest, glue)
  {
    assert ([first] + rest)[1..] == rest;
  }

  lemma {:induction false} JoinPieces(s: string, n: nat, ps: seq<nat>, text: string, from: nat)
    requires InOrder(|s|, n, ps, from)
    ensures Join(Pieces(s, n, ps, from), text) == Substitute(s, n, ps, text, from)
    decreases |ps|
  {
    if ps != [] {
      JoinPieces(s, n, ps[1..], text, ps[0] + n);
      JoinCons(s[from..ps[0]], Pieces(s, n, ps[1..], ps[0] + n), text);
    }
  }

  /**
    Splitting and joining substitutes exactly the leftmost non-overlapping occurrences, and the
    number of pieces counts them.
  */
  lemma SplitJoinSubstitutes(s: string, word: string, ps: seq<nat>, text: string)
    requires word != "" && LeftmostOf(s, word, ps)
    ensures InOrder(|s|, |word|, ps, 0)
    ensures ReplaceAll(s, word, text) == Substitute(s, |word|, ps, text, 0)
    ensures Occurrences(s, word) == |ps|
  {
    var at := SpotsOf(s, word);
    LeftmostInOrder(|s|, |word|, at, ps, 0);
    SplitIsPieces(s, |word|, at, ps, 0, 0);
    JoinPieces(s, |word|, ps, text, 0);
  }

  lemma {:induction false} FindsFirst(len: nat, n: nat, at: Spots, ps: seq<nat>, from: nat)
    requires n > 0 && from <= len && Leftmost(len, n, at, ps, from)
    ensures FindFrom(len, n, at, from) == if ps == [] then None else Some(ps[0])
    decreases len - from
  {
    LeftmostStep(len, n, at, ps, from);
    if from + n <= len && !at(from) {
      FindsFirst(len, n, at, ps, from + 1);
    }
  }

  /** The leftmost matches exist. */
  lemma {:induction false} LeftmostExists(len: nat, n: nat, at: Spots, from: nat) returns (ps: seq<nat>)
    requires n > 0 && from <= len
    ensures Leftmost(len, n, at, ps, from)
    decreases len - from
  {
    if from + n > len {
      ps := [];
    } else if at(from) {
      var rest := LeftmostExists(len, n, at, from + n);
      ps := [from] + rest;
      assert ps[1..] == rest;
    } else {
      ps := LeftmostExists(len, n, at, from + 1);
    }
  }

  /** The leftmost matches are unique. */
  lemma {:induction false} LeftmostUnique(len: nat, n: nat, at: Spots, ps: seq<nat>, qs: seq<nat>, from: nat)
    requires n > 0 && from <= len && Leftmost(len, n, at, ps, from) && Leftmost(len, n, at, qs, from)
    ensures ps == qs
    decreases |ps|
  {
    FindsFirst(len, n, at, ps, from);
    FindsFirst(len, n, at, qs, from);
    if ps != [] {
      LeftmostUnique(len, n, at, ps[1..], qs[1..], ps[0] + n);
      assert ps == [ps[0]] + ps[1..] && qs == [qs[0]] + qs[1..];
    }
  }

  /** The word stands at `i`, character by character. */
  predicate StandsAt(s: string, word: string, i: nat) {
    i + |word| <= |s| && forall k :: 0 <= k < |word| ==> s[i + k] == word[k]
  }

  lemma StandsIff(s: string, word: string)
    ensures forall i: nat :: OccursAt(s, word, i) <==> StandsAt(s, word, i)
  {
    forall i: nat | i + |word| <= |s| ensures OccursAt(s, word, i) <==> StandsAt(s, word, i) {
      var part := s[i..i + |word|];
      assert forall k :: 0 <= k < |word| ==> part[k] == s[i + k];
    }
  }

  /**
    Read on the text itself: the old text stands at each place, the places do not overlap, and each of
    its occurrences starts within the stretch of one of them.
  */
  lemma LeftmostMeans(s: string, word: string, ps: seq<nat>)
    requires word != "" && LeftmostOf(s, word, ps)
    ensures forall k :: 0 <= k < |ps| ==> StandsAt(s, word, ps[k])
    ensures forall k :: 0 <= k < |ps| - 1 ==> ps[k] + |word| <= ps[k + 1]
    ensures forall i: nat :: StandsAt(s, word, i) ==> exists k :: 0 <= k < |ps| && ps[k] <= i < ps[k] + |word|
  {
    var at := SpotsOf(s, word);
    StandsIff(s, word);
    PlacesMatch(|s|, |word|, at, ps, 0);
    forall i: nat | StandsAt(s, word, i) ensures exists k :: 0 <= k < |ps| && ps[k] <= i < ps[k] + |word| {
      var k := PlaceOf(|s|, |word|, at, ps, 0, i);
    }
  }

  lemma {:induction false} PlacesMatch(len: nat, n: nat, at: Spots, ps: seq<nat>, from: nat)
    requires n > 0 && from <= len && Leftmost(len, n, at, ps, from)
    ensures forall k :: 0 <= k < |ps| ==> from <= ps[k] && ps[k] + n <= len && at(ps[k])
    ensures forall k :: 0 <= k < |ps| - 1 ==> ps[k] + n <= ps[k + 1]
    decreases |ps|
  {
    if ps != [] {
      PlacesMatch(len, n, at, ps[1..], ps[0] + n);
    }
  }

  lemma {:induction false} PlaceOf(len: nat, n: nat, at: Spots, ps: seq<nat>, from: nat, i: nat) returns (k: nat)
    requires n > 0 && from <= i && i + n <= len && at(i) && Leftmost(len, n, at, ps, from)
    ensures k < |ps| && ps[k] <= i < ps[k] + n
    decreases |ps|
  {
    if i < ps[0] + n {
      k := 0;
    } else {
      var rest := PlaceOf(len, n, at, ps[1..], ps[0] + n, i);
      k := rest + 1;
    }
  }

  /** Putting the old text back between the pieces restores the file. */
  lemma {:induction false} SplitJoinIdentity(s: string, word: string, start: nat, i: nat)
    requires word != "" && start <= i <= |s|
    ensures Join(Split(s, |word|, SpotsOf(s, word), start, i), word) == s[start..]
    decreases |s| - i
  {
    if i + |word| <= |s| {
      if OccursAt(s, word, i) {
        SplitJoinIdentity(s, word, i + |word|, i + |word|);
        JoinCons(s[start..i], Split(s, |word|, SpotsOf(s, word), i + |word|, i + |word|), word);
        CutAt(s, word, start, i);
      } else {
        SplitJoinIdentity(s, word, start, i + 1);
      }
    }
  }

  lemma CutAt(s: string, word: string, start: nat, i: nat)
    requires start <= i && OccursAt(s, word, i)
    ensures s[start..] == s[start..i] + word + s[i + |word|..]
  {
  }

  /**
    An accepted replace-all edit substitutes the new text for each leftmost non-overlapping
    occurrence and reports how many there were; it is refused exactly when there are none, or not
    as many as announced.
  */
  lemma EditAllSubstitutes(before: string, word: string, text: string, expected: Option<int>, ps: seq<nat>)
    requires word != "" && LeftmostOf(before, word, ps)
    ensures InOrder(|before|, |word|, ps, 0)
    ensures var r := PlanEdit(before, word, text, true, expected);
            && (r.Ok? <==> ps != [] && (expected.Some? ==> expected.value == |ps|))
            && (r.Ok? ==> r.value == Edit(Substitute(before, |word|, ps, text, 0), |ps|))
  {
    SplitJoinSubstitutes(before, word, ps, text);
  }

  /**
    A single-match edit is accepted exactly when there is one occurrence and no other count was
    announced; new text without `$` escapes is then substituted for that occurrence.
  */
  lemma EditOneSubstitutes(before: string, word: string, text: string, expected: Option<int>, ps: seq<nat>)
    requires word != "" && LeftmostOf(before, word, ps)
    ensures InOrder(|before|, |word|, ps, 0)
    ensures var r := PlanEdit(before, word, text, false, expected);
            && (r.Ok? <==> |ps| == 1 && (expected.Some? ==> expected.value == 1))
            && (r.Ok? && !HasEscape(text) ==> r.value == Edit(Substitute(before, |word|, ps, text, 0), 1))
  {
    SplitJoinSubstitutes(before, word, ps, text);
    if |ps| == 1 && !HasEscape(text) {
      ReplaceOneLiterally(before, word, text, ps);
    }
  }

  lemma ReplaceOneLiterally(before: string, word: string, text: string, ps: seq<nat>)
    requires word != "" && LeftmostOf(before, word, ps) && |ps| == 1 && !HasEscape(text)
    ensures InOrder(|before|, |word|, ps, 0)
    ensures ReplaceFirst(before, word, text) == Substitute(before, |word|, ps, text, 0)
  {
    FoundFirst(before, word, ps);
    ReplaceOne(before, word, text, ps[0]);
    OnePlace(before, |word|, ps, text);
    NothingToExpand(text, word, before[..ps[0]], before[ps[0] + |word|..]);
  }

  lemma FoundFirst(before: string, word: string, ps: seq<nat>)
    requires word != "" && LeftmostOf(before, word, ps) && |ps| == 1
    ensures FindFrom(|before|, |word|, SpotsOf(before, word), 0) == Some(ps[0]) && ps[0] + |word| <= |before|
  {
    FindsFirst(|before|, |word|, SpotsOf(before, word), ps, 0);
  }

  lemma ReplaceOne(before: string, word: string, text: string, i: nat)
    requires FindFrom(|before|, |word|, SpotsOf(before, word), 0) == Some(i) && i + |word| <= |before|
    ensures ReplaceFirst(before, word, text) ==
            before[..i] + Expand(text, word, before[..i], before[i + |word|..]) + before[i + |word|..]
  {
  }

  lemma OnePlace(s: string, n: nat, ps: seq<nat>, text: string)
    requires |ps| == 1 && ps[0] + n <= |s|
    ensures InOrder(|s|, n, ps, 0)
    ensures Substitute(s, n, ps, text, 0) == s[..ps[0]] + text + s[ps[0] + n..]
  {
    assert ps[1..] == [];
    assert InOrder(|s|, n, [], ps[0] + n);
    assert Substitute(s, n, [], text, ps[0] + n) == s[ps[0] + n..];
    assert s[0..ps[0]] == s[..ps[0]];
  }

  // ---------- when the single-match branch is literal ----------

  lemma {:induction false} NothingToExpand(text: string, word: string, pre: string, post: string)
    requires !HasEscape(text)
    ensures Expand(text, word, pre, post) == text
    decreases |text|
  {
    if text != "" {
      var rest := text[1..];
      forall k | 0 <= k < |rest|
        ensures !Escape(rest, k)
      {
        assert !Escape(text, k + 1);
      }
      NothingToExpand(rest, word, pre, post);
      assert !Escape(text, 0);
    }
  }

  /** With long surroundings, an expansion that inserts any of them is too long, and one that does not is too short. */
  lemma {:induction false} ExpandChangesLength(text: string, word: string, pre: string, post: string, n: nat)
    requires |word| == |pre| == |post| == n
    ensures |Expand(text, word, pre, post)| <= |text| || |Expand(text, word, pre, post)| >= n
    ensures HasEscape(text) ==> |Expand(text, word, pre, post)| < |text| || |Expand(text, word, pre, post)| >= n
    decreases |text|
  {
    if text != "" {
      if Escape(text, 0) {
        ExpandChangesLength(text[2..], word, pre, post, n);
      } else {
        var rest := text[1..];
        ExpandChangesLength(rest, word, pre, post, n);
        if HasEscape(text) {
          var k :| 0 <= k < |text| && Escape(text, k);
          assert Escape(rest, k - 1);
        }
      }
    }
  }

  function Repeat(c: char, n: nat): string {
    seq(n, _ => c)
  }

  /** A text in which a long word occurs exactly once, with long surroundings. */
  lemma Surrounded(n: nat)
    requires n > 0
    ensures LeftmostOf(Repeat('y', n) + Repeat('x', n) + Repeat('y', n), Repeat('x', n), [n])
  {
    var s, word := Repeat('y', n) + Repeat('x', n) + Repeat('y', n), Repeat('x', n);
    assert s[n..n + n] == word;
    forall i: nat | i != n && i + n <= |s|
      ensures !OccursAt(s, word, i)
    {
      assert i < n ==> s[i..i + n][0] == s[i] == 'y';
      assert i > n ==> s[i..i + n][n - 1] == s[i + n - 1] == 'y';
    }
    assert [n][1..] == [];
    assert Leftmost(|s|, n, SpotsOf(s, word), [], n + n);
  }

  /** The single-match edit of this text is the literal substitution. */
  ghost predicate LiteralOn(before: string, word: string, text: string, ps: seq<nat>) {
    InOrder(|before|, |word|, ps, 0) &&
    PlanEdit(before, word, text, false, None) == Ok(Edit(Substitute(before, |word|, ps, text, 0), 1))
  }

  /**
    The single-match branch inserts the new text literally, in every file and for every old text,
    exactly when the new text has no `$` followed by `$`, `&`, a backquote or a quote.
  */
  lemma SingleMatchIsLiteralIff(text: string)
    ensures !HasEscape(text) <==>
            forall before, word, ps :: word != "" && LeftmostOf(before, word, ps) && |ps| == 1 ==>
                LiteralOn(before, word, text, ps)
  {
    if !HasEscape(text) {
      forall before, word, ps | word != "" && LeftmostOf(before, word, ps) && |ps| == 1
        ensures LiteralOn(before, word, text, ps)
      {
        EditOneSubstitutes(before, word, text, None, ps);
      }
    } else {
      var before, word, ps := EscapeShows(text);
    }
  }

  /** A file that shows that new text with an escape is not inserted literally. */
  lemma EscapeShows(text: string) returns (before: string, word: string, ps: seq<nat>)
    requires HasEscape(text)
    ensures word != "" && LeftmostOf(before, word, ps) && |ps| == 1 && !LiteralOn(before, word, text, ps)
  {
    var n := |text| + 3;
    word, ps := Repeat('x', n), [n];
    before := Repeat('y', n) + word + Repeat('y', n);
    Surrounded(n);
    FoundFirst(before, word, ps);
    ReplaceOne(before, word, text, ps[0]);
    OnePlace(before, |word|, ps, text);
    ExpandChangesLength(text, word, before[..n], before[n + |word|..], n);
    assert |ReplaceFirst(before, word, text)| != |Substitute(before, |word|, ps, text, 0)|;
  }
}
