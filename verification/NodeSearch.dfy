/**
  The built-in search backend: up to eight workers share the next file index, the counters and the
  stop flags, and yield to each other at every await.  A run is any sequence of actions, one per
  stretch between two yield points (lines of one file are separate actions, so more interleavings
  are covered than can occur), each with any reading of the clock; the caller may abort at any time.
*/
module NodeSearch {
  import opened Numbers
  import opened Wrappers

  const CONCURRENCY: nat := 8
  const MAX_FILES: nat := 20_000

  datatype Match = Match(path: string, line: nat, text: string)

  /** What becomes of a listed file when it is looked at. */
  datatype Fate = Unstatable | TooLarge | Unreadable | Binary | Text(lines: seq<string>)

  datatype Problem = Problem(
    files: seq<string>,
    fate: string -> Fate,
    queries: nat,                    // number of queries
    hits: (nat, string) -> bool,     // query index, line
    show: string -> string,          // truncation and redaction of a matched line
    maxResults: nat,
    softDeadline: int,
    hardDeadline: int)

  datatype Pc = Idle | Statting(file: nat) | Reading(file: nat) | Scanning(file: nat, line: nat) | Done

  /**
    The variables the workers share, the program counter of each worker, and two history variables:
    `seen[q]` lists every hit of query `q` in the order it was found, and `scanned[f]` counts the
    lines of file `f` that were examined.
  */
  datatype State = State(
    next: nat,
    visible: seq<nat>,
    matches: seq<seq<Match>>,
    aborted: bool,
    timedOut: bool,
    softLimited: bool,
    stoppedAfterLimits: bool,
    workers: seq<Pc>,
    seen: seq<seq<Match>>,
    scanned: seq<nat>)

  /** A worker runs to its next yield point while its clock reads `now`, or the caller aborts. */
  datatype Action = Work(worker: nat, now: int) | Abort

  /** The state when the workers start; the file listing may already have set flags. */
  function Init(pr: Problem, aborted: bool, timedOut: bool, softLimited: bool): State {
    State(0, seq(pr.queries, _ => 0), seq(pr.queries, _ => []), aborted, timedOut, softLimited, false,
          seq(Min(CONCURRENCY, |pr.files|), _ => Idle), seq(pr.queries, _ => []), seq(|pr.files|, _ => 0))
  }

  /** Evaluating `scanStopped()` at `now`: the flags it leaves, and its answer. */
  function Check(pr: Problem, s: State, now: int): (State, bool) {
    if s.aborted then (s, true)
    else if now >= pr.hardDeadline then (s.(timedOut := true), true)
    else if s.stoppedAfterLimits then (s, true)
    else if now >= pr.softDeadline then (s.(softLimited := true), true)
    else (s, false)
  }

  function Goto(s: State, w: nat, pc: Pc): State
    requires w < |s.workers|
  {
    s.(workers := s.workers[w := pc])
  }

  function Linked(pr: Problem, file: nat, line: nat, text: string): Match
    requires file < |pr.files|
  {
    Match(pr.files[file], line + 1, pr.show(text))
  }

  /** Record one line of a file against every query, then test whether every query is past its limit. */
  function Record(pr: Problem, s: State, file: nat, line: nat, text: string): (r: State)
    requires Shaped(pr, s) && file < |pr.files|
    ensures Shaped(pr, r)
  {
    var m := Linked(pr, file, line, text);
    var visible := seq(pr.queries, q requires 0 <= q < pr.queries =>
                       if pr.hits(q, text) then s.visible[q] + 1 else s.visible[q]);
    s.(visible := visible,
       matches := seq(pr.queries, q requires 0 <= q < pr.queries =>
                                    if pr.hits(q, text) && |s.matches[q]| < pr.maxResults then s.matches[q] + [m]
                                    else s.matches[q]),
       seen := seq(pr.queries, q requires 0 <= q < pr.queries =>
                   if pr.hits(q, text) then s.seen[q] + [m] else s.seen[q]),
       scanned := s.scanned[file := line + 1],
       stoppedAfterLimits := s.stoppedAfterLimits || forall q :: 0 <= q < pr.queries ==> visible[q] > pr.maxResults)
  }

  /** At the top of the worker loop: stop, or claim the next file. */
  function Claim(pr: Problem, s: State, w: nat, now: int): (r: State)
    requires Shaped(pr, s) && w < |s.workers|
    ensures Shaped(pr, r)
  {
    var (s', stopped) := Check(pr, s, now);
    if stopped then Goto(s', w, Done)
    else Goto(s'.(next := s.next + 1), w, if s.next < |pr.files| then Statting(s.next) else Done)
  }

  /** After `stat`: skip the file if it is gone or too large, or go on to read it unless stopped. */
  function AfterStat(pr: Problem, s: State, w: nat, f: nat, now: int): (r: State)
    requires Shaped(pr, s) && w < |s.workers| && f < |pr.files|
    ensures Shaped(pr, r)
  {
    if pr.fate(pr.files[f]) in {Unstatable, TooLarge} then Goto(s, w, Idle)
    else
      var (s', stopped) := Check(pr, s, now);
      Goto(s', w, if stopped then Idle else Reading(f))
  }

  /** One round of the line loop: leave it, or examine the next line. */
  function ScanLine(pr: Problem, s: State, w: nat, f: nat, i: nat, now: int): (r: State)
    requires Shaped(pr, s) && w < |s.workers| && f < |pr.files|
    ensures Shaped(pr, r)
  {
    if i >= LineCount(pr, f) then Goto(s, w, Idle)
    else
      var (s', stopped) := Check(pr, s, now);
      if stopped then Goto(s', w, Idle)
      else Goto(Record(pr, s', f, i, pr.fate(pr.files[f]).lines[i]), w, Scanning(f, i + 1))
  }

  /** One stretch of worker `w`. */
  function Advance(pr: Problem, s: State, w: nat, now: int): (r: State)
    requires Shaped(pr, s) && w < |s.workers|
    ensures Shaped(pr, r)
  {
    match s.workers[w]
    case Done => s
    case Idle => Claim(pr, s, w, now)
    case Statting(f) => if f < |pr.files| then AfterStat(pr, s, w, f, now) else s
    case Reading(f) => Goto(s, w, if f < |pr.files| && pr.fate(pr.files[f]).Text? then Scanning(f, 0) else Idle)
    case Scanning(f, i) => if f < |pr.files| then ScanLine(pr, s, w, f, i, now) else s
  }

  predicate Shaped(pr: Problem, s: State) {
    && |s.visible| == |s.matches| == |s.seen| == pr.queries
    && |s.scanned| == |pr.files|
    && |s.workers| == Min(CONCURRENCY, |pr.files|)
  }

  function Act(pr: Problem, s: State, a: Action): (r: State)
    requires Shaped(pr, s)
    ensures Shaped(pr, r)
  {
    match a
    case Abort => s.(aborted := true)
    case Work(w, now) => if w < |s.workers| then Advance(pr, s, w, now) else s
  }

  /** The state after a sequence of actions. */
  function Execute(pr: Problem, s: State, actions: seq<Action>): (end: State)
    requires Shaped(pr, s)
    ensures Shaped(pr, end)
    decreases |actions|
  {
    if actions == [] then s
    else Act(pr, Execute(pr, s, actions[..|actions| - 1]), actions[|actions| - 1])
  }

  // ---------- the result ----------

  datatype Failure = Cancelled | TimedOut | Truncated

  predicate QueryTruncated(pr: Problem, s: State, q: nat)
    requires Shaped(pr, s) && q < pr.queries
  {
    s.visible[q] > |s.matches[q]| || s.stoppedAfterLimits || |pr.files| >= MAX_FILES || s.softLimited
  }

  /** The failure code of the finished search; `None` is status `ok`. */
  function FailureCode(pr: Problem, s: State): Option<Failure>
    requires Shaped(pr, s)
  {
    if s.aborted then Some(Cancelled)
    else if s.timedOut then Some(TimedOut)
    else if exists q :: 0 <= q < pr.queries && QueryTruncated(pr, s, q) then Some(Truncated)
    else None
  }

  predicate Finished(s: State) {
    forall w :: 0 <= w < |s.workers| ==> s.workers[w] == Done
  }

  // ---------- the reference: scan the files one after another ----------

  /** The hits of query `q` in the first `n` lines of a file. */
  function FileHits(pr: Problem, q: nat, file: nat, lines: seq<string>, n: nat): seq<Match>
    requires file < |pr.files| && n <= |lines|
  {
    if n == 0 then []
    else FileHits(pr, q, file, lines, n - 1) +
         if pr.hits(q, lines[n - 1]) then [Linked(pr, file, n - 1, lines[n - 1])] else []
  }

  function LineCount(pr: Problem, file: nat): nat
    requires file < |pr.files|
  {
    match pr.fate(pr.files[file])
    case Text(lines) => |lines|
    case _ => 0
  }

  function HitsUpTo(pr: Problem, q: nat, file: nat, n: nat): seq<Match>
    requires file < |pr.files| && n <= LineCount(pr, file)
  {
    match pr.fate(pr.files[file])
    case Text(lines) => FileHits(pr, q, file, lines, n)
    case _ => []
  }

  /** Every hit of query `q` in the first `n` files, in order. */
  function SequentialHits(pr: Problem, q: nat, n: nat): seq<Match>
    requires n <= |pr.files|
  {
    if n == 0 then []
    else SequentialHits(pr, q, n - 1) + HitsUpTo(pr, q, n - 1, LineCount(pr, n - 1))
  }

  // ---------- the invariant of every run ----------

  predicate Flagged(s: State) {
    s.aborted || s.timedOut || s.softLimited || s.stoppedAfterLimits
  }

  ghost predicate InRange(pr: Problem, scanned: seq<nat>) {
    |scanned| == |pr.files| && forall f :: 0 <= f < |pr.files| ==> scanned[f] <= LineCount(pr, f)
  }

  ghost function Sum(parts: seq<multiset<Match>>): multiset<Match> {
    if parts == [] then multiset{} else Sum(parts[..|parts| - 1]) + parts[|parts| - 1]
  }

  ghost function Parts(pr: Problem, scanned: seq<nat>, q: nat): seq<multiset<Match>>
    requires InRange(pr, scanned)
  {
    seq(|pr.files|, f requires 0 <= f < |pr.files| => multiset(HitsUpTo(pr, q, f, scanned[f])))
  }

  /** The hits of query `q` in the lines examined so far. */
  ghost function HitsSoFar(pr: Problem, scanned: seq<nat>, q: nat): multiset<Match>
    requires InRange(pr, scanned)
  {
    Sum(Parts(pr, scanned, q))
  }

  /** What one query has accumulated: all its hits, counted, the first `maxResults` of them kept. */
  ghost predicate Accounted(pr: Problem, s: State, q: nat)
    requires Shaped(pr, s) && q < pr.queries && InRange(pr, s.scanned)
  {
    && multiset(s.seen[q]) == HitsSoFar(pr, s.scanned, q)
    && s.visible[q] == |s.seen[q]|
    && s.matches[q] == s.seen[q][..Min(|s.seen[q]|, pr.maxResults)]
  }

  ghost predicate Counts(pr: Problem, s: State) {
    && Shaped(pr, s)
    && InRange(pr, s.scanned)
    && (forall q :: 0 <= q < pr.queries ==> Accounted(pr, s, q))
    && (s.stoppedAfterLimits ==> forall q :: 0 <= q < pr.queries ==> s.visible[q] > pr.maxResults)
  }

  predicate Holds(pc: Pc, f: nat) {
    (pc.Statting? || pc.Reading? || pc.Scanning?) && pc.file == f
  }

  /** A worker that holds a file agrees with the history about it. */
  ghost predicate PcOk(pr: Problem, s: State, pc: Pc)
    requires Shaped(pr, s)
  {
    match pc
    case Idle => true
    case Done => Flagged(s) || s.next >= |pr.files|
    case Statting(f) => f < |pr.files| && f < s.next && s.scanned[f] == 0
    case Reading(f) =>
      f < |pr.files| && f < s.next && s.scanned[f] == 0 && pr.fate(pr.files[f]) !in {Unstatable, TooLarge}
    case Scanning(f, i) => f < |pr.files| && f < s.next && s.scanned[f] == i && pr.fate(pr.files[f]).Text?
  }

  /** A claimed file is held by a worker, or examined as far as it will be, or some stop flag is up. */
  ghost predicate FileOk(pr: Problem, s: State, f: nat)
    requires Shaped(pr, s) && f < |pr.files|
  {
    if f >= s.next then s.scanned[f] == 0
    else Flagged(s) || s.scanned[f] == LineCount(pr, f) || exists w :: 0 <= w < |s.workers| && Holds(s.workers[w], f)
  }

  ghost predicate Exclusive(s: State) {
    forall v, w, f :: 0 <= v < w < |s.workers| ==> !(Holds(s.workers[v], f) && Holds(s.workers[w], f))
  }

  ghost predicate Control(pr: Problem, s: State) {
    && Shaped(pr, s)
    && Exclusive(s)
    && (forall w :: 0 <= w < |s.workers| ==> PcOk(pr, s, s.workers[w]))
    && (forall f :: 0 <= f < |pr.files| ==> FileOk(pr, s, f))
  }

  lemma InitOk(pr: Problem, aborted: bool, timedOut: bool, softLimited: bool)
    ensures Counts(pr, Init(pr, aborted, timedOut, softLimited))
    ensures Control(pr, Init(pr, aborted, timedOut, softLimited))
  {
    var s := Init(pr, aborted, timedOut, softLimited);
    forall q | 0 <= q < pr.queries
      ensures Accounted(pr, s, q)
    {
      SumOfNothing(Parts(pr, s.scanned, q));
    }
  }

  lemma {:induction false} SumOfNothing(parts: seq<multiset<Match>>)
    requires forall i :: 0 <= i < |parts| ==> parts[i] == multiset{}
    ensures Sum(parts) == multiset{}
    decreases |parts|
  {
    if parts != [] {
      SumOfNothing(parts[..|parts| - 1]);
    }
  }

  lemma {:induction false} SumUpdate(parts: seq<multiset<Match>>, f: nat, added: multiset<Match>)
    requires f < |parts|
    ensures Sum(parts[f := parts[f] + added]) == Sum(parts) + added
    decreases |parts|
  {
    var n := |parts| - 1;
    var after := parts[f := parts[f] + added];
    if f == n {
      assert after[..n] == parts[..n];
    } else {
      assert after[..n] == parts[..n][f := parts[..n][f] + added];
      SumUpdate(parts[..n], f, added);
    }
  }

  lemma HitsAfterLine(pr: Problem, scanned: seq<nat>, q: nat, f: nat, lines: seq<string>)
    requires InRange(pr, scanned) && f < |pr.files|
    requires pr.fate(pr.files[f]) == Text(lines) && scanned[f] < |lines|
    ensures InRange(pr, scanned[f := scanned[f] + 1])
    ensures HitsSoFar(pr, scanned[f := scanned[f] + 1], q) ==
            HitsSoFar(pr, scanned, q) + LineHits(pr, q, f, lines, scanned[f])
  {
    OneMoreLine(pr, q, f, lines, scanned[f]);
    var parts := Parts(pr, scanned, q);
    assert Parts(pr, scanned[f := scanned[f] + 1], q) == parts[f := parts[f] + LineHits(pr, q, f, lines, scanned[f])];
    SumUpdate(parts, f, LineHits(pr, q, f, lines, scanned[f]));
  }

  ghost function LineHits(pr: Problem, q: nat, f: nat, lines: seq<string>, i: nat): multiset<Match>
    requires f < |pr.files| && i < |lines|
  {
    if pr.hits(q, lines[i]) then multiset{Linked(pr, f, i, lines[i])} else multiset{}
  }

  lemma OneMoreLine(pr: Problem, q: nat, f: nat, lines: seq<string>, i: nat)
    requires f < |pr.files| && pr.fate(pr.files[f]) == Text(lines) && i < |lines|
    ensures multiset(HitsUpTo(pr, q, f, i + 1)) == multiset(HitsUpTo(pr, q, f, i)) + LineHits(pr, q, f, lines, i)
  {
    assert FileHits(pr, q, f, lines, i) + [] == FileHits(pr, q, f, lines, i);
  }

  lemma RecordAccounted(pr: Problem, s: State, f: nat, lines: seq<string>, q: nat)
    requires Counts(pr, s) && f < |pr.files| && q < pr.queries
    requires pr.fate(pr.files[f]) == Text(lines) && s.scanned[f] < |lines|
    ensures var r := Record(pr, s, f, s.scanned[f], lines[s.scanned[f]]);
            InRange(pr, r.scanned) && Accounted(pr, r, q)
  {
    var i := s.scanned[f];
    var m := Linked(pr, f, i, lines[i]);
    assert Accounted(pr, s, q);
    HitsAfterLine(pr, s.scanned, q, f, lines);
    KeepFirst(s.seen[q], m, pr.maxResults);
  }

  /** Keeping the first `limit` of a list commutes with appending to it. */
  lemma KeepFirst(seen: seq<Match>, m: Match, limit: nat)
    ensures (seen + [m])[..Min(|seen| + 1, limit)] ==
            if |seen[..Min(|seen|, limit)]| < limit then seen[..Min(|seen|, limit)] + [m]
            else seen[..Min(|seen|, limit)]
    ensures multiset(seen + [m]) == multiset(seen) + multiset{m}
  {
  }

  lemma RecordCounts(pr: Problem, s: State, f: nat, lines: seq<string>)
    requires Counts(pr, s) && f < |pr.files|
    requires pr.fate(pr.files[f]) == Text(lines) && s.scanned[f] < |lines|
    ensures Counts(pr, Record(pr, s, f, s.scanned[f], lines[s.scanned[f]]))
  {
    var r := Record(pr, s, f, s.scanned[f], lines[s.scanned[f]]);
    assert InRange(pr, r.scanned);
    forall q | 0 <= q < pr.queries
      ensures Accounted(pr, r, q)
    {
      RecordAccounted(pr, s, f, lines, q);
    }
  }

  predicate SameCounters(s: State, t: State) {
    t.seen == s.seen && t.visible == s.visible && t.matches == s.matches && t.scanned == s.scanned
    && t.stoppedAfterLimits == s.stoppedAfterLimits
  }

  lemma SameCounts(pr: Problem, s: State, t: State)
    requires Counts(pr, s) && Shaped(pr, t) && SameCounters(s, t)
    ensures Counts(pr, t)
  {
    forall q | 0 <= q < pr.queries
      ensures Accounted(pr, t, q)
    {
      assert Accounted(pr, s, q);
    }
  }

  /** The only stretch that counts anything examines the next line of the file the worker holds. */
  lemma AdvanceCases(pr: Problem, s: State, w: nat, now: int)
    requires Control(pr, s) && w < |s.workers|
    ensures var t := Advance(pr, s, w, now);
            || SameCounters(s, t)
            || (&& s.workers[w].Scanning?
                && var (f, s') := (s.workers[w].file, Check(pr, s, now).0);
                   && f < |pr.files| && pr.fate(pr.files[f]).Text? && s.scanned[f] < LineCount(pr, f)
                   && SameCounters(s, s')
                   && t == Goto(Record(pr, s', f, s.scanned[f], pr.fate(pr.files[f]).lines[s.scanned[f]]),
                                w, Scanning(f, s.scanned[f] + 1)))
  {
    assert PcOk(pr, s, s.workers[w]);
    match s.workers[w]
    case Scanning(f, i) => ScanLineCases(pr, s, w, f, i, now);
    case _ =>
  }

  lemma ScanLineCases(pr: Problem, s: State, w: nat, f: nat, i: nat, now: int)
    requires Shaped(pr, s) && w < |s.workers| && s.workers[w] == Scanning(f, i) && PcOk(pr, s, s.workers[w])
    ensures var (t, s') := (ScanLine(pr, s, w, f, i, now), Check(pr, s, now).0);
            || SameCounters(s, t)
            || (&& s.scanned[f] < LineCount(pr, f) && SameCounters(s, s')
                && t == Goto(Record(pr, s', f, i, pr.fate(pr.files[f]).lines[i]), w, Scanning(f, i + 1)))
  {
  }

  lemma AdvanceCounts(pr: Problem, s: State, w: nat, now: int)
    requires Counts(pr, s) && Control(pr, s) && w < |s.workers|
    ensures Counts(pr, Advance(pr, s, w, now))
  {
    var t := Advance(pr, s, w, now);
    AdvanceCases(pr, s, w, now);
    if SameCounters(s, t) {
      SameCounts(pr, s, t);
    } else {
      var f, s' := s.workers[w].file, Check(pr, s, now).0;
      var lines := pr.fate(pr.files[f]).lines;
      SameCounts(pr, s, s');
      RecordCounts(pr, s', f, lines);
      SameCounts(pr, Record(pr, s', f, s.scanned[f], lines[s.scanned[f]]), t);
    }
  }

  /** How one stretch of worker `w` moves the claims: only its own program counter, and at most its own file's count. */
  ghost predicate Moves(pr: Problem, s: State, t: State, w: nat)
    requires Shaped(pr, s) && Shaped(pr, t) && w < |s.workers| && PcOk(pr, s, s.workers[w])
  {
    && t.workers == s.workers[w := t.workers[w]]
    && (Flagged(s) ==> Flagged(t))
    && match (s.workers[w], t.workers[w])
       case (Done, Done) => t.next == s.next && t.scanned == s.scanned
       case (Idle, Done) => s.next <= t.next && t.scanned == s.scanned && (Flagged(t) || t.next >= |pr.files|)
                            && (t.next == s.next || s.next >= |pr.files|)
       case (Idle, Statting(f)) => f == s.next < |pr.files| && t.next == s.next + 1 && t.scanned == s.scanned
       case (Statting(f), Idle) => t.next == s.next && t.scanned == s.scanned && (Flagged(t) || LineCount(pr, f) == 0)
       case (Statting(f), Reading(g)) =>
         f == g && t.next == s.next && t.scanned == s.scanned && pr.fate(pr.files[f]) !in {Unstatable, TooLarge}
       case (Reading(f), Idle) => t.next == s.next && t.scanned == s.scanned && LineCount(pr, f) == 0
       case (Reading(f), Scanning(g, i)) =>
         f == g && i == 0 && t.next == s.next && t.scanned == s.scanned && pr.fate(pr.files[f]).Text?
       case (Scanning(f, i), Idle) =>
         t.next == s.next && t.scanned == s.scanned && (Flagged(t) || i >= LineCount(pr, f))
       case (Scanning(f, i), Scanning(g, j)) =>
         f == g && j == i + 1 && i < LineCount(pr, f) && t.next == s.next && t.scanned == s.scanned[f := j]
       case _ => false
  }

  lemma ClaimMoves(pr: Problem, s: State, w: nat, now: int)
    requires Shaped(pr, s) && w < |s.workers| && s.workers[w] == Idle
    ensures Moves(pr, s, Claim(pr, s, w, now), w)
  {
  }

  lemma AfterStatMoves(pr: Problem, s: State, w: nat, f: nat, now: int)
    requires Shaped(pr, s) && w < |s.workers| && s.workers[w] == Statting(f) && PcOk(pr, s, s.workers[w])
    ensures Moves(pr, s, AfterStat(pr, s, w, f, now), w)
  {
  }

  lemma ScanLineMoves(pr: Problem, s: State, w: nat, f: nat, i: nat, now: int)
    requires Shaped(pr, s) && w < |s.workers| && s.workers[w] == Scanning(f, i) && PcOk(pr, s, s.workers[w])
    ensures Moves(pr, s, ScanLine(pr, s, w, f, i, now), w)
  {
    var (s', stopped) := Check(pr, s, now);
    if i < LineCount(pr, f) && !stopped {
      RecordKeeps(pr, s', f, i, pr.fate(pr.files[f]).lines[i]);
    }
  }

  lemma RecordKeeps(pr: Problem, s: State, f: nat, i: nat, text: string)
    requires Shaped(pr, s) && f < |pr.files|
    ensures var r := Record(pr, s, f, i, text);
            && r.next == s.next && r.workers == s.workers && r.scanned == s.scanned[f := i + 1]
            && (Flagged(s) ==> Flagged(r))
  {
  }

  lemma AdvanceMoves(pr: Problem, s: State, w: nat, now: int)
    requires Shaped(pr, s) && w < |s.workers| && PcOk(pr, s, s.workers[w])
    ensures Moves(pr, s, Advance(pr, s, w, now), w)
  {
    match s.workers[w]
    case Done => assert s.workers == s.workers[w := Done];
    case Idle => ClaimMoves(pr, s, w, now);
    case Statting(f) => AfterStatMoves(pr, s, w, f, now);
    case Reading(f) =>
    case Scanning(f, i) => ScanLineMoves(pr, s, w, f, i, now);
  }

  /** Another worker's view of its own file is not disturbed. */
  lemma OthersUndisturbed(pr: Problem, s: State, t: State, w: nat, v: nat)
    requires Control(pr, s) && Shaped(pr, t) && v < |s.workers| && w < |s.workers| && v != w
    requires PcOk(pr, s, s.workers[w]) && Moves(pr, s, t, w)
    ensures PcOk(pr, t, t.workers[v])
  {
    assert t.workers[v] == s.workers[v];
    assert PcOk(pr, s, s.workers[v]) && PcOk(pr, s, s.workers[w]);
    if s.workers[w].Scanning? && (s.workers[v].Statting? || s.workers[v].Reading? || s.workers[v].Scanning?) {
      assert Holds(s.workers[v], s.workers[v].file) && Holds(s.workers[w], s.workers[w].file);
      assert s.workers[v].file != s.workers[w].file;
    }
  }

  lemma MovesKeepsPcs(pr: Problem, s: State, t: State, w: nat)
    requires Control(pr, s) && Shaped(pr, t) && w < |s.workers|
    requires PcOk(pr, s, s.workers[w]) && Moves(pr, s, t, w)
    ensures forall v :: 0 <= v < |t.workers| ==> PcOk(pr, t, t.workers[v])
  {
    forall v | 0 <= v < |t.workers|
      ensures PcOk(pr, t, t.workers[v])
    {
      if v != w {
        OthersUndisturbed(pr, s, t, w, v);
      } else {
        assert PcOk(pr, s, s.workers[w]);
        assert s.next < |pr.files| ==> FileOk(pr, s, s.next);
      }
    }
  }

  lemma MovesKeepsExclusive(pr: Problem, s: State, t: State, w: nat)
    requires Control(pr, s) && Shaped(pr, t) && w < |s.workers|
    requires PcOk(pr, s, s.workers[w]) && Moves(pr, s, t, w)
    ensures Exclusive(t)
  {
    forall v, f | 0 <= v < |s.workers| && v != w && Holds(t.workers[w], f)
      ensures !Holds(t.workers[v], f)
    {
      assert t.workers[v] == s.workers[v];
      assert PcOk(pr, s, s.workers[v]);
      assert Holds(s.workers[w], f) || f == s.next;
    }
    forall u, v, f | 0 <= u < v < |s.workers|
      ensures !(Holds(t.workers[u], f) && Holds(t.workers[v], f))
    {
      if u != w && v != w {
        assert t.workers[u] == s.workers[u] && t.workers[v] == s.workers[v];
      }
    }
  }

  lemma MovesKeepsFiles(pr: Problem, s: State, t: State, w: nat, f: nat)
    requires Counts(pr, s) && Control(pr, s) && Shaped(pr, t) && w < |s.workers| && f < |pr.files|
    requires PcOk(pr, s, s.workers[w]) && Moves(pr, s, t, w)
    ensures FileOk(pr, t, f)
  {
    assert FileOk(pr, s, f);
    assert PcOk(pr, s, s.workers[w]);
    if !Flagged(t) && f < t.next && t.scanned[f] != LineCount(pr, f) {
      if f >= s.next {
        assert Holds(t.workers[w], f);
      } else {
        assert s.scanned[f] != LineCount(pr, f);
        var v :| 0 <= v < |s.workers| && Holds(s.workers[v], f);
        assert v != w ==> t.workers[v] == s.workers[v];
        assert Holds(t.workers[v], f);
      }
    }
  }

  lemma AdvanceControl(pr: Problem, s: State, w: nat, now: int)
    requires Counts(pr, s) && Control(pr, s) && w < |s.workers|
    ensures Control(pr, Advance(pr, s, w, now))
  {
    assert PcOk(pr, s, s.workers[w]);
    AdvanceMoves(pr, s, w, now);
    MovesKeepsControl(pr, s, Advance(pr, s, w, now), w);
  }

  lemma MovesKeepsControl(pr: Problem, s: State, t: State, w: nat)
    requires Counts(pr, s) && Control(pr, s) && Shaped(pr, t) && w < |s.workers|
    requires PcOk(pr, s, s.workers[w]) && Moves(pr, s, t, w)
    ensures Control(pr, t)
  {
    MovesKeepsPcs(pr, s, t, w);
    MovesKeepsExclusive(pr, s, t, w);
    forall f | 0 <= f < |pr.files|
      ensures FileOk(pr, t, f)
    {
      MovesKeepsFiles(pr, s, t, w, f);
    }
  }

  lemma {:induction false} RunInvariant(pr: Problem, s: State, actions: seq<Action>)
    requires Counts(pr, s) && Control(pr, s)
    ensures Counts(pr, Execute(pr, s, actions)) && Control(pr, Execute(pr, s, actions))
    decreases |actions|
  {
    if actions != [] {
      var before := Execute(pr, s, actions[..|actions| - 1]);
      RunInvariant(pr, s, actions[..|actions| - 1]);
      match actions[|actions| - 1]
      case Abort =>
        SameCounts(pr, before, before.(aborted := true));
        AbortControl(pr, before);
      case Work(w, now) =>
        if w < |before.workers| {
          AdvanceCounts(pr, before, w, now);
          AdvanceControl(pr, before, w, now);
        }
    }
  }

  /** A raised flag is never lowered. */
  lemma {:induction false} FlagsStay(pr: Problem, s: State, actions: seq<Action>)
    requires Shaped(pr, s)
    ensures var t := Execute(pr, s, actions);
            && (s.aborted ==> t.aborted) && (s.timedOut ==> t.timedOut)
            && (s.softLimited ==> t.softLimited) && (s.stoppedAfterLimits ==> t.stoppedAfterLimits)
    decreases |actions|
  {
    if actions != [] {
      FlagsStay(pr, s, actions[..|actions| - 1]);
      var before := Execute(pr, s, actions[..|actions| - 1]);
      match actions[|actions| - 1]
      case Abort =>
      case Work(w, now) =>
        if w < |before.workers| {
          AdvanceKeepsFlags(pr, before, w, now);
        }
    }
  }

  lemma AdvanceKeepsFlags(pr: Problem, s: State, w: nat, now: int)
    requires Shaped(pr, s) && w < |s.workers|
    ensures var t := Advance(pr, s, w, now);
            && (s.aborted ==> t.aborted) && (s.timedOut ==> t.timedOut)
            && (s.softLimited ==> t.softLimited) && (s.stoppedAfterLimits ==> t.stoppedAfterLimits)
  {
  }

  lemma AbortControl(pr: Problem, s: State)
    requires Control(pr, s)
    ensures Control(pr, s.(aborted := true))
  {
    var t := s.(aborted := true);
    forall w | 0 <= w < |s.workers|
      ensures PcOk(pr, t, t.workers[w])
    {
      assert PcOk(pr, s, s.workers[w]);
    }
    forall f | 0 <= f < |pr.files|
      ensures FileOk(pr, t, f)
    {
      assert FileOk(pr, s, f);
    }
  }

  // ---------- what every run satisfies ----------

  lemma {:induction false} LinesInOrder(pr: Problem, q: nat, f: nat, lines: seq<string>, n: nat, m: nat)
    requires f < |pr.files| && n <= m <= |lines|
    ensures FileHits(pr, q, f, lines, n) <= FileHits(pr, q, f, lines, m)
    decreases m
  {
    if n < m {
      LinesInOrder(pr, q, f, lines, n, m - 1);
    }
  }

  lemma HitsAreSequentialHits(pr: Problem, scanned: seq<nat>, q: nat)
    requires InRange(pr, scanned)
    ensures HitsSoFar(pr, scanned, q) <= multiset(SequentialHits(pr, q, |pr.files|))
    ensures (forall f :: 0 <= f < |pr.files| ==> scanned[f] == LineCount(pr, f)) ==>
              HitsSoFar(pr, scanned, q) == multiset(SequentialHits(pr, q, |pr.files|))
  {
    var all := seq(|pr.files|, f requires 0 <= f < |pr.files| => LineCount(pr, f));
    forall f | 0 <= f < |pr.files|
      ensures Parts(pr, scanned, q)[f] <= Parts(pr, all, q)[f]
    {
      PartOfFile(pr, q, f, scanned[f]);
    }
    SumMonotone(Parts(pr, scanned, q), Parts(pr, all, q));
    SequentialIsSum(pr, all, q, |pr.files|);
    assert Parts(pr, all, q)[..|pr.files|] == Parts(pr, all, q);
    if forall f :: 0 <= f < |pr.files| ==> scanned[f] == LineCount(pr, f) {
      assert scanned == all;
    }
  }

  lemma {:induction false} SumMonotone(a: seq<multiset<Match>>, b: seq<multiset<Match>>)
    requires |a| == |b| && forall i :: 0 <= i < |a| ==> a[i] <= b[i]
    ensures Sum(a) <= Sum(b)
    decreases |a|
  {
    if a != [] {
      SumMonotone(a[..|a| - 1], b[..|b| - 1]);
    }
  }

  lemma {:induction false} SequentialIsSum(pr: Problem, all: seq<nat>, q: nat, n: nat)
    requires InRange(pr, all) && n <= |pr.files|
    requires forall f :: 0 <= f < |pr.files| ==> all[f] == LineCount(pr, f)
    ensures multiset(SequentialHits(pr, q, n)) == Sum(Parts(pr, all, q)[..n])
  {
    if n > 0 {
      SequentialIsSum(pr, all, q, n - 1);
      var upTo := Parts(pr, all, q)[..n];
      assert upTo[..n - 1] == Parts(pr, all, q)[..n - 1];
      var last := HitsUpTo(pr, q, n - 1, LineCount(pr, n - 1));
      assert upTo[n - 1] == multiset(last);
      assert Sum(upTo) == Sum(upTo[..n - 1]) + upTo[n - 1];
      assert multiset(SequentialHits(pr, q, n)) == multiset(SequentialHits(pr, q, n - 1)) + multiset(last);
    }
  }

  lemma PartOfFile(pr: Problem, q: nat, f: nat, n: nat)
    requires f < |pr.files| && n <= LineCount(pr, f)
    ensures multiset(HitsUpTo(pr, q, f, n)) <= multiset(HitsUpTo(pr, q, f, LineCount(pr, f)))
  {
    var some, all := HitsUpTo(pr, q, f, n), HitsUpTo(pr, q, f, LineCount(pr, f));
    match pr.fate(pr.files[f]) {
      case Text(lines) => LinesInOrder(pr, q, f, lines, n, |lines|);
      case _ =>
    }
    assert all == some + all[|some|..];
  }

  // ---------- what a match says ----------

  /** A line of a listed file. */
  datatype Place = Place(file: nat, index: nat)

  /** The line is there, in a file that can be read as text, and the query hits it. */
  predicate HitAt(pr: Problem, q: nat, p: Place) {
    && p.file < |pr.files|
    && pr.fate(pr.files[p.file]).Text?
    && p.index < |pr.fate(pr.files[p.file]).lines|
    && pr.hits(q, pr.fate(pr.files[p.file]).lines[p.index])
  }

  /** The match names the file, the number of the line counted from one, and shows the line. */
  predicate Describes(pr: Problem, q: nat, m: Match, p: Place)
    requires HitAt(pr, q, p)
  {
    && m.path == pr.files[p.file]
    && m.line == p.index + 1
    && m.text == pr.show(pr.fate(pr.files[p.file]).lines[p.index])
  }

  predicate Earlier(p: Place, r: Place) {
    p.file < r.file || (p.file == r.file && p.index < r.index)
  }

  /** The matches are the hit lines of the first `n` files, each once and in order. */
  ghost predicate AreHitLines(pr: Problem, q: nat, n: nat, matches: seq<Match>, at: seq<Place>) {
    && |at| == |matches|
    && (forall k :: 0 <= k < |at| ==> HitAt(pr, q, at[k]) && at[k].file < n && Describes(pr, q, matches[k], at[k]))
    && (forall j, k :: 0 <= j < k < |at| ==> Earlier(at[j], at[k]))
    && (forall p :: HitAt(pr, q, p) && p.file < n ==> p in at)
  }

  /** The same for the first `n` lines of file `f`. */
  ghost predicate AreLinesOf(pr: Problem, q: nat, f: nat, n: nat, matches: seq<Match>, at: seq<Place>) {
    && |at| == |matches|
    && (forall k :: 0 <= k < |at| ==>
          HitAt(pr, q, at[k]) && at[k].file == f && at[k].index < n && Describes(pr, q, matches[k], at[k]))
    && (forall j, k :: 0 <= j < k < |at| ==> Earlier(at[j], at[k]))
    && (forall p :: HitAt(pr, q, p) && p.file == f && p.index < n ==> p in at)
  }

  lemma OneMoreFile(pr: Problem, q: nat, f: nat, matches: seq<Match>, at: seq<Place>,
                    more: seq<Match>, here: seq<Place>)
    requires f < |pr.files| && AreHitLines(pr, q, f, matches, at)
    requires AreLinesOf(pr, q, f, LineCount(pr, f), more, here)
    ensures AreHitLines(pr, q, f + 1, matches + more, at + here)
  {
    var all := at + here;
    forall k | 0 <= k < |all|
      ensures HitAt(pr, q, all[k]) && all[k].file < f + 1 && Describes(pr, q, (matches + more)[k], all[k])
    {
      assert if k < |at| then all[k] == at[k] else all[k] == here[k - |at|];
    }
    forall p | HitAt(pr, q, p) && p.file < f + 1 ensures p in all {
      assert if p.file < f then p in at else p in here;
    }
  }

  lemma {:induction false} FileHitsAre(pr: Problem, q: nat, f: nat, n: nat) returns (at: seq<Place>)
    requires f < |pr.files| && n <= LineCount(pr, f)
    ensures AreLinesOf(pr, q, f, n, HitsUpTo(pr, q, f, n), at)
  {
    if n == 0 {
      at := [];
    } else {
      at := FileHitsAre(pr, q, f, n - 1);
      if HitAt(pr, q, Place(f, n - 1)) {
        at := at + [Place(f, n - 1)];
      }
    }
  }

  lemma {:induction false} SequentialHitsAre(pr: Problem, q: nat, n: nat) returns (at: seq<Place>)
    requires n <= |pr.files|
    ensures AreHitLines(pr, q, n, SequentialHits(pr, q, n), at)
  {
    if n == 0 {
      at := [];
    } else {
      var before := SequentialHitsAre(pr, q, n - 1);
      var here := FileHitsAre(pr, q, n - 1, LineCount(pr, n - 1));
      at := before + here;
      OneMoreFile(pr, q, n - 1, SequentialHits(pr, q, n - 1), before,
                  HitsUpTo(pr, q, n - 1, LineCount(pr, n - 1)), here);
    }
  }

  /** Every match describes a line that its query hits. */
  ghost predicate OnlyHitLines(pr: Problem, q: nat, matches: seq<Match>) {
    forall m :: m in matches ==> exists p :: HitAt(pr, q, p) && Describes(pr, q, m, p)
  }

  /** Every line that the query hits has its match. */
  ghost predicate EveryHitLine(pr: Problem, q: nat, matches: seq<Match>) {
    forall p :: HitAt(pr, q, p) ==> exists m :: m in matches && Describes(pr, q, m, p)
  }

  lemma SomeAreHitLines(pr: Problem, q: nat, matches: seq<Match>)
    requires multiset(matches) <= multiset(SequentialHits(pr, q, |pr.files|))
    ensures OnlyHitLines(pr, q, matches)
  {
    var all := SequentialHits(pr, q, |pr.files|);
    var at := SequentialHitsAre(pr, q, |pr.files|);
    forall m | m in matches ensures exists p :: HitAt(pr, q, p) && Describes(pr, q, m, p) {
      assert m in multiset(matches) && m in multiset(all);
      var k :| 0 <= k < |all| && all[k] == m;
      assert HitAt(pr, q, at[k]) && Describes(pr, q, m, at[k]);
    }
  }

  lemma AllAreHitLines(pr: Problem, q: nat, matches: seq<Match>)
    requires multiset(matches) == multiset(SequentialHits(pr, q, |pr.files|))
    ensures OnlyHitLines(pr, q, matches) && EveryHitLine(pr, q, matches)
  {
    var all := SequentialHits(pr, q, |pr.files|);
    var at := SequentialHitsAre(pr, q, |pr.files|);
    SomeAreHitLines(pr, q, matches);
    forall p | HitAt(pr, q, p) ensures exists m :: m in matches && Describes(pr, q, m, p) {
      var k :| 0 <= k < |at| && at[k] == p;
      assert all[k] in multiset(all) && all[k] in multiset(matches);
      assert all[k] in matches && Describes(pr, q, all[k], p);
    }
  }

  /**
    In every run, finished or not: what is reported for a query are distinct occurrences of true
    hits (no line of any file is examined twice), as many as were seen up to the limit.
  */
  lemma EveryRun(pr: Problem, aborted: bool, timedOut: bool, softLimited: bool, actions: seq<Action>, q: nat)
    requires q < pr.queries
    ensures var s := Execute(pr, Init(pr, aborted, timedOut, softLimited), actions);
            && multiset(s.matches[q]) <= multiset(SequentialHits(pr, q, |pr.files|))
            && s.visible[q] <= |SequentialHits(pr, q, |pr.files|)|
            && |s.matches[q]| == Min(s.visible[q], pr.maxResults)
            && (forall v, w, f :: 0 <= v < w < |s.workers| && Holds(s.workers[v], f) ==> !Holds(s.workers[w], f))
            && |s.workers| <= 8 && OnlyHitLines(pr, q, s.matches[q])
  {
    var s := Execute(pr, Init(pr, aborted, timedOut, softLimited), actions);
    InitOk(pr, aborted, timedOut, softLimited);
    RunInvariant(pr, Init(pr, aborted, timedOut, softLimited), actions);
    assert Accounted(pr, s, q);
    HitsAreSequentialHits(pr, s.scanned, q);
    MultisetSize(s.seen[q], SequentialHits(pr, q, |pr.files|));
    PrefixIsSubset(s.seen[q], Min(|s.seen[q]|, pr.maxResults));
    SomeAreHitLines(pr, q, s.matches[q]);
  }

  lemma MultisetSize(a: seq<Match>, b: seq<Match>)
    requires multiset(a) <= multiset(b)
    ensures |a| <= |b|
  {
    assert |multiset(a)| + |multiset(b) - multiset(a)| == |multiset(b)|;
  }

  lemma PrefixIsSubset(a: seq<Match>, n: nat)
    requires n <= |a|
    ensures multiset(a[..n]) <= multiset(a)
  {
    assert a == a[..n] + a[n..];
  }

  /**
    Completeness: under every interleaving and every clock, a finished search with status `ok`
    reports, for each query, a permutation of what scanning the listed files one by one finds.
  */
  lemma OkMeansComplete(pr: Problem, aborted: bool, timedOut: bool, softLimited: bool, actions: seq<Action>, q: nat)
    requires q < pr.queries
    requires var s := Execute(pr, Init(pr, aborted, timedOut, softLimited), actions);
             Finished(s) && FailureCode(pr, s) == None
    ensures var s := Execute(pr, Init(pr, aborted, timedOut, softLimited), actions);
            && multiset(s.matches[q]) == multiset(SequentialHits(pr, q, |pr.files|))
            && OnlyHitLines(pr, q, s.matches[q]) && EveryHitLine(pr, q, s.matches[q])
  {
    var s := Execute(pr, Init(pr, aborted, timedOut, softLimited), actions);
    InitOk(pr, aborted, timedOut, softLimited);
    RunInvariant(pr, Init(pr, aborted, timedOut, softLimited), actions);
    assert !QueryTruncated(pr, s, q);
    assert Accounted(pr, s, q);
    assert s.matches[q] == s.seen[q];
    forall f | 0 <= f < |pr.files|
      ensures s.scanned[f] == LineCount(pr, f)
    {
      assert FileOk(pr, s, f);
      assert PcOk(pr, s, s.workers[0]);
    }
    HitsAreSequentialHits(pr, s.scanned, q);
    AllAreHitLines(pr, q, s.matches[q]);
  }

  // ---------- why a search stops early ----------

  /** A flag is raised only if the caller aborts, or the clock has reached the deadline. */
  lemma {:induction false} FlagsHaveCauses(pr: Problem, actions: seq<Action>)
    ensures var s := Execute(pr, Init(pr, false, false, false), actions);
            && (s.aborted <==> Abort in actions)
            && (s.timedOut ==> exists a :: a in actions && a.Work? && a.now >= pr.hardDeadline)
            && (s.softLimited ==> exists a :: a in actions && a.Work? && a.now >= pr.softDeadline)
    decreases |actions|
  {
    if actions != [] {
      var (front, last) := (actions[..|actions| - 1], actions[|actions| - 1]);
      assert actions == front + [last];
      FlagsHaveCauses(pr, front);
      if last.Work? {
        AdvanceRaises(pr, Execute(pr, Init(pr, false, false, false), front), last.worker, last.now);
      }
    }
  }

  lemma AdvanceRaises(pr: Problem, s: State, w: nat, now: int)
    requires Shaped(pr, s)
    ensures var t := Act(pr, s, Work(w, now));
            && t.aborted == s.aborted
            && (t.timedOut ==> s.timedOut || now >= pr.hardDeadline)
            && (t.softLimited ==> s.softLimited || now >= pr.softDeadline)
  {
  }

  /** A worker that looks for its next file stops when the search is aborted, full or late, and says why. */
  lemma WorkerStops(pr: Problem, s: State, w: nat, now: int)
    requires Shaped(pr, s) && w < |s.workers| && s.workers[w] == Idle
    ensures var t := Advance(pr, s, w, now);
            && (s.aborted || s.stoppedAfterLimits || now >= pr.hardDeadline || now >= pr.softDeadline ==>
                  t.workers[w] == Done && t.next == s.next)
            && (!s.aborted && now >= pr.hardDeadline ==> t.timedOut)
            && (!s.aborted && !s.stoppedAfterLimits && pr.softDeadline <= now < pr.hardDeadline ==> t.softLimited)
  {
  }

  /** A finished search that nothing cut short ends with status `ok`. */
  lemma UndisturbedSearchIsOk(pr: Problem, actions: seq<Action>)
    requires forall a :: a in actions ==> a.Work? && a.now < pr.hardDeadline && a.now < pr.softDeadline
    requires |pr.files| < 20_000
    requires forall q | 0 <= q < pr.queries :: |SequentialHits(pr, q, |pr.files|)| <= pr.maxResults
    ensures FailureCode(pr, Execute(pr, Init(pr, false, false, false), actions)) == None
  {
    var s := Execute(pr, Init(pr, false, false, false), actions);
    FlagsHaveCauses(pr, actions);
    forall q | 0 <= q < pr.queries ensures !QueryTruncated(pr, s, q) {
      EveryRun(pr, false, false, false, actions, q);
      if s.stoppedAfterLimits {
        StoppedByLimitsIsFull(pr, false, false, false, actions, q);
      }
    }
  }

  /** Of several reasons the strongest is reported: abort, then the deadline, then what was cut short. */
  lemma FailureMeans(pr: Problem, s: State)
    requires Shaped(pr, s)
    ensures s.aborted ==> FailureCode(pr, s) == Some(Cancelled)
    ensures !s.aborted && s.timedOut ==> FailureCode(pr, s) == Some(TimedOut)
    ensures !s.aborted && !s.timedOut && pr.queries > 0
            && (s.softLimited || s.stoppedAfterLimits || |pr.files| >= 20_000) ==>
              FailureCode(pr, s) == Some(Truncated)
    ensures !s.aborted && !s.timedOut && (exists q :: 0 <= q < pr.queries && s.visible[q] > |s.matches[q]|) ==>
              FailureCode(pr, s) == Some(Truncated)
  {
    if pr.queries > 0 && (s.softLimited || s.stoppedAfterLimits || |pr.files| >= 20_000) {
      assert QueryTruncated(pr, s, 0);
    }
    if q :| 0 <= q < pr.queries && s.visible[q] > |s.matches[q]| {
      assert QueryTruncated(pr, s, q);
    }
  }

  /** A search cut short by its result limit alone reports exactly that many matches for every query. */
  lemma StoppedByLimitsIsFull(pr: Problem, aborted: bool, timedOut: bool, softLimited: bool, actions: seq<Action>,
                              q: nat)
    requires q < pr.queries
    requires Execute(pr, Init(pr, aborted, timedOut, softLimited), actions).stoppedAfterLimits
    ensures |Execute(pr, Init(pr, aborted, timedOut, softLimited), actions).matches[q]| == pr.maxResults
    ensures pr.maxResults < |SequentialHits(pr, q, |pr.files|)|
  {
    EveryRun(pr, aborted, timedOut, softLimited, actions, q);
    InitOk(pr, aborted, timedOut, softLimited);
    RunInvariant(pr, Init(pr, aborted, timedOut, softLimited), actions);
  }

  // ---------- every run is finite ----------

  function PcCost(pr: Problem, pc: Pc): nat {
    match pc
    case Done => 0
    case Idle => 1
    case Statting(f) => FileCost(pr, f)
    case Reading(f) => FileCost(pr, f) - 1
    case Scanning(f, i) => if f < |pr.files| && i <= LineCount(pr, f) then 2 + LineCount(pr, f) - i else 2
  }

  function FileCost(pr: Problem, f: nat): (n: nat)
    ensures n >= 4
  {
    if f < |pr.files| then 4 + LineCount(pr, f) else 4
  }

  function WorkersCost(pr: Problem, workers: seq<Pc>): nat {
    if workers == [] then 0 else PcCost(pr, workers[0]) + WorkersCost(pr, workers[1..])
  }

  function UnclaimedCost(pr: Problem, next: nat): nat
    decreases |pr.files| - next
  {
    if next >= |pr.files| then 0 else FileCost(pr, next) + UnclaimedCost(pr, next + 1)
  }

  function Remaining(pr: Problem, s: State): nat {
    WorkersCost(pr, s.workers) + UnclaimedCost(pr, s.next)
  }

  lemma {:induction false} UpdateCost(pr: Problem, workers: seq<Pc>, w: nat, pc: Pc)
    requires w < |workers|
    ensures WorkersCost(pr, workers[w := pc]) + PcCost(pr, workers[w]) == WorkersCost(pr, workers) + PcCost(pr, pc)
  {
    var updated := workers[w := pc];
    if w == 0 {
      assert updated[1..] == workers[1..];
    } else {
      assert updated[1..] == workers[1..][w - 1 := pc];
      UpdateCost(pr, workers[1..], w - 1, pc);
    }
  }

  /** Every step of a worker that is not done uses up some of the remaining work, whatever the clock says. */
  lemma AdvanceProgresses(pr: Problem, s: State, w: nat, now: int)
    requires Counts(pr, s) && Control(pr, s) && w < |s.workers| && s.workers[w] != Done
    ensures Remaining(pr, Advance(pr, s, w, now)) < Remaining(pr, s)
  {
    assert PcOk(pr, s, s.workers[w]);
    AdvanceMoves(pr, s, w, now);
    MovesProgress(pr, s, Advance(pr, s, w, now), w);
  }

  lemma MovesProgress(pr: Problem, s: State, t: State, w: nat)
    requires Shaped(pr, s) && Shaped(pr, t) && InRange(pr, s.scanned) && w < |s.workers| && PcOk(pr, s, s.workers[w])
    requires s.workers[w] != Done && Moves(pr, s, t, w)
    ensures Remaining(pr, t) < Remaining(pr, s)
  {
    UpdateCost(pr, s.workers, w, t.workers[w]);
    assert PcCost(pr, t.workers[w]) + UnclaimedCost(pr, t.next) < PcCost(pr, s.workers[w]) + UnclaimedCost(pr, s.next);
  }

  /** How many of the actions were steps of a worker that was not done yet. */
  function StepsTaken(pr: Problem, s: State, actions: seq<Action>): nat
    requires Shaped(pr, s)
    decreases |actions|
  {
    if actions == [] then 0
    else
      var before := Execute(pr, s, actions[..|actions| - 1]);
      var last := actions[|actions| - 1];
      StepsTaken(pr, s, actions[..|actions| - 1])
      + if last.Work? && last.worker < |before.workers| && before.workers[last.worker] != Done then 1 else 0
  }

  /** No run takes more steps than the listed files allow: each of them costs its lines and four more. */
  lemma RunsAreFinite(pr: Problem, aborted: bool, timedOut: bool, softLimited: bool, actions: seq<Action>)
    ensures StepsTaken(pr, Init(pr, aborted, timedOut, softLimited), actions) <=
            Remaining(pr, Init(pr, aborted, timedOut, softLimited))
  {
    InitOk(pr, aborted, timedOut, softLimited);
    StepsAreBounded(pr, Init(pr, aborted, timedOut, softLimited), actions);
  }

  lemma {:induction false} StepsAreBounded(pr: Problem, s: State, actions: seq<Action>)
    requires Counts(pr, s) && Control(pr, s)
    ensures StepsTaken(pr, s, actions) + Remaining(pr, Execute(pr, s, actions)) <= Remaining(pr, s)
    decreases |actions|
  {
    if actions != [] {
      var before := Execute(pr, s, actions[..|actions| - 1]);
      StepsAreBounded(pr, s, actions[..|actions| - 1]);
      RunInvariant(pr, s, actions[..|actions| - 1]);
      var last := actions[|actions| - 1];
      if last.Work? && last.worker < |before.workers| {
        if before.workers[last.worker] != Done {
          AdvanceProgresses(pr, before, last.worker, last.now);
        }
      }
    }
  }
}
