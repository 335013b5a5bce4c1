/**
  The context budget: how many files, lines and characters one call may return, and the two calls
  that spend it.
*/
module ContextBudget {
  import opened Numbers
  import opened Wrappers

  // ---------- the limits ----------

  datatype Limits = Limits(maxFiles: int, maxLines: int, maxChars: int)

  /** Limits as they come in: not given, or any finite number. */
  datatype Given = Given(maxFiles: Option<real>, maxLines: Option<real>, maxChars: Option<real>)

  const DEFAULTS := Limits(16, 240, 180_000)

  function PositiveInteger(value: Option<real>): Option<int> {
    if value.Some? && value.value > 0.0 then Some(value.value.Floor) else None
  }

  /** With `cap` the project's value bounds what is asked for; otherwise it only replaces the default. */
  function Merged(override: Option<real>, project: Option<real>, fallback: int, cap: bool): int {
    var (asked, projected) := (PositiveInteger(override), PositiveInteger(project));
    if cap && projected.Some? then Min(if asked.Some? then asked.value else fallback, projected.value)
    else if asked.Some? then asked.value
    else if projected.Some? then projected.value
    else fallback
  }

  function Clamped(value: int, fallback: int, least: int, most: int): int {
    if value <= 0 then fallback else Max(least, Min(most, value))
  }

  function Normalized(project: Given, overrides: Given, cap: bool): (r: Limits)
    ensures 1 <= r.maxFiles <= 80 && 20 <= r.maxLines <= 2_000 && 10_000 <= r.maxChars <= 2_000_000
  {
    Limits(
      Clamped(Merged(overrides.maxFiles, project.maxFiles, DEFAULTS.maxFiles, cap), DEFAULTS.maxFiles, 1, 80),
      Clamped(Merged(overrides.maxLines, project.maxLines, DEFAULTS.maxLines, cap), DEFAULTS.maxLines, 20, 2_000),
      Clamped(Merged(overrides.maxChars, project.maxChars, DEFAULTS.maxChars, cap), DEFAULTS.maxChars,
              10_000, 2_000_000))
  }

  /** A positive request counts before a positive value of the project, and that before the default. */
  lemma MergedMeans(override: Option<real>, project: Option<real>, fallback: int)
    ensures override.Some? && override.value > 0.0 ==>
              Merged(override, project, fallback, false) == override.value.Floor
    ensures (override.None? || override.value <= 0.0) && project.Some? && project.value > 0.0 ==>
              Merged(override, project, fallback, false) == project.value.Floor
    ensures (override.None? || override.value <= 0.0) && (project.None? || project.value <= 0.0) ==>
              Merged(override, project, fallback, false) == Merged(override, project, fallback, true) == fallback
    ensures override.Some? && override.value > 0.0 && (project.None? || project.value <= 0.0) ==>
              Merged(override, project, fallback, true) == override.value.Floor
  {
  }

  /** With no positive number given the limits are the defaults; a request within the bounds is met. */
  lemma NormalizedMeans(project: Given, overrides: Given, cap: bool, n: int)
    ensures Normalized(Given(None, None, None), Given(None, None, None), cap) == Limits(16, 240, 180_000)
    ensures overrides.maxFiles == Some(n as real) && 1 <= n <= 80 && (!cap || project.maxFiles.None?) ==>
              Normalized(project, overrides, cap).maxFiles == n
    ensures overrides.maxLines == Some(n as real) && 20 <= n <= 2_000 && (!cap || project.maxLines.None?) ==>
              Normalized(project, overrides, cap).maxLines == n
    ensures overrides.maxChars == Some(n as real) && 10_000 <= n <= 2_000_000 && (!cap || project.maxChars.None?) ==>
              Normalized(project, overrides, cap).maxChars == n
  {
    assert (n as real).Floor == n;
  }

  /**
    A project's cap holds exactly if it is not below the least value a limit can have, and the request
    is not a fraction below one.  Such a request is rounded to zero, taken for no value at all and
    replaced by the default, so that the cap matters no more; a default within it does no harm.
  */
  lemma CapHoldsIff(override: Option<real>, project: real, fallback: int, least: int, most: int)
    requires 1 <= least <= fallback <= most && 0.0 < project
    ensures CapHolds(override, project, fallback, least, most) <==>
              && least <= project.Floor
              && ((override.Some? ==> !(0.0 < override.value < 1.0)) || fallback <= project.Floor)
  {
    if override.Some? && override.value >= 1.0 {
      assert override.value.Floor >= 1;
    }
    assert project.Floor >= 0;
  }

  predicate CapHolds(override: Option<real>, project: real, fallback: int, least: int, most: int) {
    Clamped(Merged(override, Some(project), fallback, true), fallback, least, most) <= project.Floor
  }

  /** A project's cap of 10 lines to a file is raised to 20; one of 100 is lost to a request of half a line. */
  lemma CapsFail()
    ensures Normalized(Given(None, Some(10.0), None), Given(None, None, None), true).maxLines == 20
    ensures Normalized(Given(None, Some(100.0), None), Given(None, Some(0.5), None), true).maxLines == 240
  {
    assert 10.0.Floor == 10 && 100.0.Floor == 100 && 0.5.Floor == 0;
  }

  // ---------- clipping ----------

  function Decimal(n: nat): string {
    if n < 10 then [(n + '0' as int) as char] else Decimal(n / 10) + [(n % 10 + '0' as int) as char]
  }

  function Clip(value: string, maxChars: nat): string {
    if |value| <= maxChars then value
    else value[..maxChars] + "\n...[truncated to " + Decimal(maxChars) + " chars]"
  }

  function Power10(k: nat): nat {
    if k == 0 then 1 else 10 * Power10(k - 1)
  }

  lemma {:induction false} DecimalLength(n: nat, k: nat)
    requires 1 <= k && n < Power10(k)
    ensures |Decimal(n)| <= k
    decreases n
  {
    if n >= 10 {
      assert k > 1;
      DecimalLength(n / 10, k - 1);
    }
  }

  lemma ClipLength(value: string, maxChars: nat, k: nat)
    requires 1 <= k && maxChars < Power10(k)
    ensures |Clip(value, maxChars)| <= maxChars + 25 + k
  {
    DecimalLength(maxChars, k);
  }

  /** Clipping keeps the first characters, and does nothing to a text it has clipped before. */
  lemma ClipTwice(value: string, maxChars: nat)
    ensures Clip(Clip(value, maxChars), maxChars) == Clip(value, maxChars)
    ensures value[..Min(|value|, maxChars)] <= Clip(value, maxChars)
  {
    if |value| > maxChars {
      assert Clip(value, maxChars)[..maxChars] == value[..maxChars];
    }
  }

  // ---------- line ranges ----------

  datatype Range = Range(start: int, end: int, capped: bool)

  function ClampLineRange(start: Option<int>, end: Option<int>, maxLines: int): (r: Range)
    requires 1 <= maxLines
    ensures 1 <= r.start <= r.end < r.start + maxLines
    ensures r.start == if start.Some? && start.value > 1 then start.value else 1
    ensures end.Some? && !r.capped ==> r.end == Max(r.start, end.value)
    ensures r.capped <==> end.Some? && end.value >= r.start + maxLines
    ensures end.None? || r.capped ==> r.end == r.start + maxLines - 1
  {
    var first := Max(1, if start.Some? then start.value else 1);
    var last := first + maxLines - 1;
    if end.None? then Range(first, last, false)
    else
      var requested := Max(first, end.value);
      Range(first, Min(requested, last), requested > last)
  }

  // ---------- reading many files ----------

  datatype FileRequest = FileRequest(path: string, start: Option<int>, end: Option<int>)
  datatype FileText = FileText(path: string, text: string, endLine: int, totalLines: int)
  datatype FileResult =
    | Shown(path: string, text: string, clipped: bool, lineBudgeted: bool)
    | Failed(path: string, message: string)
  datatype Reason = TooManyFiles | TooManyChars
  datatype Skip = Skip(path: string, reason: Reason)

  type Reader = (FileRequest, Range) -> Result<FileText, string>

  /** The requests from number `first` up to but not including number `end`, skipped. */
  function Skips(files: seq<FileRequest>, first: nat, end: nat, reason: Reason): seq<Skip>
    requires end <= |files|
    decreases end
  {
    if end <= first then [] else Skips(files, first, end - 1, reason) + [Skip(files[end - 1].path, reason)]
  }

  function Chars(r: FileResult): nat {
    if r.Shown? then |r.text| else 0
  }

  function Total(results: seq<FileResult>): nat {
    if results == [] then 0 else Total(results[..|results| - 1]) + Chars(results[|results| - 1])
  }

  function PerFileLimit(maxCharsPerFile: int, remaining: int): (r: nat)
    ensures 500 <= r <= 80_000 && (remaining >= 500 ==> r <= remaining)
  {
    Max(500, Min(Min(maxCharsPerFile, 80_000), remaining))
  }

  /** What a file comes to when `remaining` characters are left. */
  function ResultOf(read: Reader, f: FileRequest, limits: Limits, maxCharsPerFile: int, remaining: int): FileResult
    requires 1 <= limits.maxLines
  {
    var range := ClampLineRange(f.start, f.end, limits.maxLines);
    match read(f, range)
    case Err(message) => Failed(f.path, message)
    case Ok(t) =>
      var text := Clip(t.text, PerFileLimit(maxCharsPerFile, remaining));
      Shown(t.path, text, text != t.text, t.endLine < t.totalLines || range.capped)
  }

  /**
    A file that can be read is shown from its first character on, cut to what is left and to the limit
    for one file, but never below 500 characters; the flags say what was left out.
  */
  lemma ResultMeans(read: Reader, f: FileRequest, limits: Limits, maxCharsPerFile: int, remaining: int)
    requires 1 <= limits.maxLines
    ensures var range := ClampLineRange(f.start, f.end, limits.maxLines);
            var r := ResultOf(read, f, limits, maxCharsPerFile, remaining);
            match read(f, range)
            case Err(message) => r == Failed(f.path, message)
            case Ok(t) =>
              var n := if maxCharsPerFile < 500 || remaining < 500 then 500
                       else if 80_000 <= maxCharsPerFile && 80_000 <= remaining then 80_000
                       else if maxCharsPerFile <= remaining then maxCharsPerFile else remaining;
              && r.Shown? && r.path == t.path
              && r.text == (if |t.text| <= n then t.text
                            else t.text[..n] + "\n...[truncated to " + Decimal(n) + " chars]")
              && (r.clipped <==> r.text != t.text)
              && (r.lineBudgeted <==> t.endLine < t.totalLines || range.capped)
  {
  }

  predicate Reduced(r: FileResult) {
    r.Shown? && (r.clipped || r.lineBudgeted)
  }

  lemma ResultFits(read: Reader, f: FileRequest, limits: Limits, maxCharsPerFile: int, remaining: int)
    requires 1 <= limits.maxLines && 0 < remaining
    ensures Chars(ResultOf(read, f, limits, maxCharsPerFile, remaining)) <= remaining + 527
  {
    var range := ClampLineRange(f.start, f.end, limits.maxLines);
    var limit := PerFileLimit(maxCharsPerFile, remaining);
    match read(f, range)
    case Err(_) =>
    case Ok(t) =>
      if limit < 1000 {
        assert Power10(3) == 1000;
        ClipLength(t.text, limit, 3);
      } else {
        assert Power10(5) == 100_000;
        ClipLength(t.text, limit, 5);
      }
  }

  /** How one file is shown when some characters are left. */
  type Show = (FileRequest, int) -> FileResult

  function Shows(read: Reader, limits: Limits, maxCharsPerFile: int): Show
    requires 1 <= limits.maxLines
  {
    (f, remaining) => ResultOf(read, f, limits, maxCharsPerFile, remaining)
  }

  /** No file takes more than what is left and one text of 528 characters instead of the last one. */
  ghost predicate Fits(show: Show) {
    forall f, remaining | 0 < remaining :: Chars(show(f, remaining)) <= remaining + 527
  }

  lemma ShownFilesFit(read: Reader, limits: Limits, maxCharsPerFile: int)
    requires 1 <= limits.maxLines
    ensures Fits(Shows(read, limits, maxCharsPerFile))
  {
    forall f, remaining | 0 < remaining
      ensures Chars(Shows(read, limits, maxCharsPerFile)(f, remaining)) <= remaining + 527
    {
      ResultFits(read, f, limits, maxCharsPerFile, remaining);
    }
  }

  /** Each of the first requests has its result, with the characters left when its turn came. */
  predicate InTurn(files: seq<FileRequest>, results: seq<FileResult>, maxChars: int, show: Show)
    decreases |results|
  {
    results != [] ==>
      var (front, last) := (results[..|results| - 1], results[|results| - 1]);
      && InTurn(files, front, maxChars, show)
      && |front| < |files| && Total(front) < maxChars
      && last == show(files[|front|], maxChars - Total(front))
  }

  predicate AnyReduced(results: seq<FileResult>) {
    results != [] && (AnyReduced(results[..|results| - 1]) || Reduced(results[|results| - 1]))
  }

  /**
    The requests are answered in order until the characters are used up: the first ones have a result
    each, the other selected ones are skipped, and so are those beyond the number of files.
  */
  predicate Answered(files: seq<FileRequest>, results: seq<FileResult>, skipped: seq<Skip>, maxFiles: nat,
                     maxChars: int, show: Show) {
    var m := Min(|files|, maxFiles);
    && |results| <= m
    && InTurn(files, results, maxChars, show)
    && (|results| < m ==> Total(results) >= maxChars)
    && skipped == Skips(files, m, |files|, TooManyFiles) + Skips(files, |results|, m, TooManyChars)
  }

  /** The total passes the limit by 527 characters at most, and with the last text only. */
  lemma TotalIsBounded(files: seq<FileRequest>, results: seq<FileResult>, maxChars: int, show: Show)
    requires 1 <= maxChars && Fits(show) && InTurn(files, results, maxChars, show)
    ensures Total(results) <= maxChars + 527
    ensures results != [] ==> Total(results[..|results| - 1]) < maxChars
  {
  }

  /** A reader of two files of one line. */
  function TwoFiles(first: string, second: string): Reader {
    (f: FileRequest, range: Range) => Ok(FileText(f.path, if f.path == "a" then first else second, 1, 1))
  }

  /** The bound is reached: after a text that leaves one character, a text of 501 characters takes 528. */
  lemma OverrunIsReached(first: string, second: string)
    requires |first| == 9_999 && |second| == 501
    ensures var files := [FileRequest("a", None, None), FileRequest("b", None, None)];
            var results := [Shown("a", first, false, false), Shown("b", Clip(second, 500), true, false)];
            && InTurn(files, results, 10_000, Shows(TwoFiles(first, second), Limits(2, 20, 10_000), 12_000))
            && Total(results) == 10_000 + 527
  {
    var files := [FileRequest("a", None, None), FileRequest("b", None, None)];
    var (a, b) := (Shown("a", first, false, false), Shown("b", Clip(second, 500), true, false));
    assert |Decimal(500)| == 3 by { assert |Decimal(50)| == 2 && |Decimal(5)| == 1; }
    assert [a, b][..1] == [a] && [a][..0] == [];
    assert Total([a]) == 9_999 && Total([a, b]) == 9_999 + 528;
    var show := Shows(TwoFiles(first, second), Limits(2, 20, 10_000), 12_000);
    assert show(files[0], 10_000) == a && show(files[1], 1) == b;
  }

  lemma {:induction false} AnyReducedIff(results: seq<FileResult>)
    ensures AnyReduced(results) <==>
            exists i :: 0 <= i < |results| && results[i].Shown? && (results[i].clipped || results[i].lineBudgeted)
    decreases |results|
  {
    if results != [] {
      var front := results[..|results| - 1];
      AnyReducedIff(front);
      assert forall i :: 0 <= i < |front| ==> results[i] == front[i];
    }
  }

  /** One skip for each request in the range, in order. */
  lemma {:induction false} SkipsAt(files: seq<FileRequest>, first: nat, end: nat, reason: Reason, k: nat)
    requires first <= end <= |files|
    ensures |Skips(files, first, end, reason)| == end - first
    ensures k < end - first ==> Skips(files, first, end, reason)[k] == Skip(files[first + k].path, reason)
    decreases end
  {
    if first < end {
      SkipsAt(files, first, end - 1, reason, k);
    }
  }

  lemma OneMoreResult(files: seq<FileRequest>, results: seq<FileResult>, r: FileResult, maxChars: int, show: Show)
    requires InTurn(files, results, maxChars, show) && |results| < |files| && Total(results) < maxChars
    requires r == show(files[|results|], maxChars - Total(results))
    ensures InTurn(files, results + [r], maxChars, show)
    ensures Total(results + [r]) == Total(results) + Chars(r)
    ensures AnyReduced(results + [r]) <==> AnyReduced(results) || Reduced(r)
  {
    assert (results + [r])[..|results|] == results;
  }

  const MAX_INPUTS: nat := 50

  /** The requests that name a path. */
  function Named(files: seq<FileRequest>): seq<FileRequest> {
    if files == [] then []
    else
      var (named, last) := (Named(files[..|files| - 1]), files[|files| - 1]);
      if last.path == "" then named else named + [last]
  }

  function Inputs(files: seq<FileRequest>): seq<FileRequest> {
    Named(files)[..Min(|Named(files)|, MAX_INPUTS)]
  }

  /** The first 50 requests that name a path. */
  lemma {:induction false} InputsAre(files: seq<FileRequest>, f: FileRequest)
    ensures f in Named(files) <==> f in files && f.path != ""
    ensures |Inputs(files)| <= 50 && Inputs(files) <= Named(files)
    ensures |Named(files)| <= 50 ==> Inputs(files) == Named(files)
    ensures |Named(files)| > 50 ==> |Inputs(files)| == 50
  {
    if files != [] {
      var (front, last) := (files[..|files| - 1], files[|files| - 1]);
      assert files == front + [last];
      InputsAre(front, f);
    }
  }

  datatype FilesRead = FilesRead(results: seq<FileResult>, skipped: seq<Skip>, totalChars: nat, exceeded: bool)

  method ReadManyFiles(files: seq<FileRequest>, limits: Limits, maxCharsPerFile: int, read: Reader)
    returns (r: Option<FilesRead>)
    requires 1 <= limits.maxFiles && 1 <= limits.maxLines && 1 <= limits.maxChars
    ensures r.None? <==> forall f | f in files :: f.path == ""
    ensures r.Some? ==>
              var FilesRead(results, skipped, totalChars, exceeded) := r.value;
              && Answered(Inputs(files), results, skipped, limits.maxFiles, limits.maxChars,
                          Shows(read, limits, maxCharsPerFile))
              && totalChars == Total(results) <= limits.maxChars + 527
              && (results != [] ==> Total(results[..|results| - 1]) < limits.maxChars)
              && (exceeded <==> skipped != [] || AnyReduced(results))
              && |results| + |skipped| == |Inputs(files)|
              && (exceeded <==> skipped != [] || exists i :: 0 <= i < |results| && results[i].Shown? &&
                                                           (results[i].clipped || results[i].lineBudgeted))
  {
    NoneNamed(files);
    var inputs := Inputs(files);
    if inputs == [] {
      return None;
    }
    var show := Shows(read, limits, maxCharsPerFile);
    var results, skipped, totalChars, exceeded := ShowInTurn(inputs, limits.maxFiles, limits.maxChars, show);
    ShownFilesFit(read, limits, maxCharsPerFile);
    TotalIsBounded(inputs, results, limits.maxChars, show);
    AnyReducedIff(results);
    var m := Min(|inputs|, limits.maxFiles);
    SkipsAt(inputs, m, |inputs|, TooManyFiles, 0);
    SkipsAt(inputs, |results|, m, TooManyChars, 0);
    return Some(FilesRead(results, skipped, totalChars, exceeded));
  }

  lemma {:induction false} NoneNamed(files: seq<FileRequest>)
    ensures Named(files) == [] <==> forall f | f in files :: f.path == ""
  {
    if files != [] {
      var (front, last) := (files[..|files| - 1], files[|files| - 1]);
      assert files == front + [last];
      NoneNamed(front);
    }
  }

  method ShowInTurn(files: seq<FileRequest>, maxFiles: nat, maxChars: int, show: Show)
    returns (results: seq<FileResult>, skipped: seq<Skip>, totalChars: nat, exceeded: bool)
    ensures Answered(files, results, skipped, maxFiles, maxChars, show)
    ensures totalChars == Total(results)
    ensures exceeded <==> skipped != [] || AnyReduced(results)
  {
    var m := Min(|files|, maxFiles);
    results, totalChars := [], 0;
    skipped := Skips(files, m, |files|, TooManyFiles);
    exceeded := skipped != [];
    ghost var (beyond, late) := (skipped, []);
    for i := 0 to m
      invariant |results| <= i && InTurn(files, results, maxChars, show) && totalChars == Total(results)
      invariant |results| < i ==> totalChars >= maxChars
      invariant skipped == beyond + late && late == Skips(files, |results|, i, TooManyChars)
      invariant exceeded <==> skipped != [] || AnyReduced(results)
    {
      var remaining := maxChars - totalChars;
      if remaining <= 0 {
        exceeded := true;
        var skip := Skip(files[i].path, TooManyChars);
        assert beyond + late + [skip] == beyond + (late + [skip]);
        late := late + [skip];
        skipped := skipped + [skip];
      } else {
        var r := show(files[i], remaining);
        totalChars := totalChars + Chars(r);
        exceeded := exceeded || Reduced(r);
        OneMoreResult(files, results, r, maxChars, show);
        results := results + [r];
      }
    }
  }
}
