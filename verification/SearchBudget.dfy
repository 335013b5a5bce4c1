/**
  The part of a project search that spends the context budget: the matches of each query in a limited
  number of files, and their text in a limited number of characters.
*/
module SearchBudget {
  import opened Numbers
  import opened ContextBudget
  import opened NodeSearch

  datatype QueryResult = QueryResult(query: string, matches: seq<Match>, truncated: bool)
  datatype QueryAnswer =
    | Skipped(query: string)
    | Found(query: string, matches: seq<Match>, text: string, uniqueFiles: nat, truncated: bool)

  // ---------- the files of a query ----------

  /** The paths of the matches, each once, in the order of its first match. */
  function Paths(matches: seq<Match>): seq<string> {
    if matches == [] then []
    else
      var (paths, p) := (Paths(matches[..|matches| - 1]), matches[|matches| - 1].path);
      if p in paths then paths else paths + [p]
  }

  function FirstPaths(matches: seq<Match>, n: nat): seq<string> {
    Paths(matches)[..Min(n, |Paths(matches)|)]
  }

  /** The matches in these files, in order. */
  function InFiles(matches: seq<Match>, paths: seq<string>): seq<Match> {
    if matches == [] then []
    else
      var (some, m) := (InFiles(matches[..|matches| - 1], paths), matches[|matches| - 1]);
      if m.path in paths then some + [m] else some
  }

  lemma {:induction false} PathsAreOnce(matches: seq<Match>)
    ensures forall m | m in matches :: m.path in Paths(matches)
    ensures forall i, j | 0 <= i < j < |Paths(matches)| :: Paths(matches)[i] != Paths(matches)[j]
  {
    if matches != [] {
      var (front, last) := (matches[..|matches| - 1], matches[|matches| - 1]);
      PathsAreOnce(front);
      assert matches == front + [last];
    }
  }

  /** They stand in the order of their first matches. */
  lemma {:induction false} PathsInOrder(matches: seq<Match>, i: nat, j: nat, k: nat)
    requires i < j < |Paths(matches)| && k < |matches| && matches[k].path == Paths(matches)[j]
    ensures exists h :: 0 <= h < k && matches[h].path == Paths(matches)[i]
    decreases |matches|
  {
    var (front, last) := (matches[..|matches| - 1], matches[|matches| - 1]);
    PathsAreOnce(front);
    if k < |front| {
      assert front[k] == matches[k] && matches[k].path in Paths(front);
      PathsAreOnce(matches);
      PathsInOrder(front, i, j, k);
    } else {
      var h := PathHasMatch(front, Paths(front)[i]);
      assert matches[h] == front[h];
    }
  }

  lemma {:induction false} PathHasMatch(matches: seq<Match>, p: string) returns (h: nat)
    requires p in Paths(matches)
    ensures h < |matches| && matches[h].path == p
    decreases |matches|
  {
    var (front, last) := (matches[..|matches| - 1], matches[|matches| - 1]);
    if p in Paths(front) {
      h := PathHasMatch(front, p);
    } else {
      h := |front|;
    }
  }

  lemma {:induction false} OtherFile(matches: seq<Match>, paths: seq<string>, p: string)
    requires p !in Paths(matches)
    ensures InFiles(matches, paths + [p]) == InFiles(matches, paths)
  {
    if matches != [] {
      OtherFile(matches[..|matches| - 1], paths, p);
    }
  }

  lemma {:induction false} InFilesCount(matches: seq<Match>, paths: seq<string>)
    ensures |InFiles(matches, paths)| <= |matches|
    ensures |InFiles(matches, paths)| == |matches| <==> InFiles(matches, paths) == matches
  {
    if matches != [] {
      assert matches == matches[..|matches| - 1] + [matches[|matches| - 1]];
      InFilesCount(matches[..|matches| - 1], paths);
    }
  }

  /** Kept are exactly the matches in these files. */
  lemma {:induction false} InFilesHas(matches: seq<Match>, paths: seq<string>, m: Match)
    ensures m in InFiles(matches, paths) <==> m in matches && m.path in paths
  {
    if matches != [] {
      assert matches == matches[..|matches| - 1] + [matches[|matches| - 1]];
      InFilesHas(matches[..|matches| - 1], paths, m);
    }
  }

  /** One more match: its file is allowed already, there is no room for it, or it becomes the next allowed one. */
  lemma OneMoreMatch(matches: seq<Match>, m: Match, n: nat)
    ensures var (paths, more) := (FirstPaths(matches, n), matches + [m]);
            if m.path in paths then
              FirstPaths(more, n) == paths && InFiles(more, paths) == InFiles(matches, paths) + [m]
            else if |paths| >= n then
              FirstPaths(more, n) == paths && InFiles(more, paths) == InFiles(matches, paths)
            else
              FirstPaths(more, n) == paths + [m.path] &&
              InFiles(more, paths + [m.path]) == InFiles(matches, paths) + [m]
  {
    assert (matches + [m])[..|matches|] == matches;
    var paths := FirstPaths(matches, n);
    if m.path !in paths && |paths| < n {
      assert paths == Paths(matches);
      OtherFile(matches, paths, m.path);
    }
  }

  /** Keeps the matches in the first `n` files. */
  method BoundMatches(matches: seq<Match>, n: nat) returns (kept: seq<Match>, allowed: seq<string>)
    ensures allowed == FirstPaths(matches, n)
    ensures kept == InFiles(matches, allowed)
  {
    kept, allowed := [], [];
    for i := 0 to |matches|
      invariant allowed == FirstPaths(matches[..i], n) && kept == InFiles(matches[..i], allowed)
    {
      var m := matches[i];
      OneMoreMatch(matches[..i], m, n);
      assert matches[..i + 1] == matches[..i] + [m];
      if m.path !in allowed && |allowed| >= n {
        continue;
      }
      if m.path !in allowed {
        allowed := allowed + [m.path];
      }
      kept := kept + [m];
    }
    assert matches[..|matches|] == matches;
  }

  // ---------- the text of a query ----------

  function Line(m: Match): string {
    m.path + ":" + Decimal(m.line) + ": " + m.text
  }

  function Listed(matches: seq<Match>): string {
    if matches == [] then ""
    else if |matches| == 1 then Line(matches[0])
    else Listed(matches[..|matches| - 1]) + "\n" + Line(matches[|matches| - 1])
  }

  function TextOf(matches: seq<Match>, error: string): string {
    if Listed(matches) != "" then Listed(matches)
    else if error != "" && matches == [] then "[error] " + error
    else "No matches."
  }

  function AnswerOf(q: QueryResult, error: string, maxFiles: nat, remaining: int): QueryAnswer {
    if remaining <= 0 then Skipped(q.query)
    else
      var paths := FirstPaths(q.matches, maxFiles);
      var kept := InFiles(q.matches, paths);
      var full := TextOf(kept, error);
      var text := Clip(full, remaining);
      Found(q.query, kept, text, |paths|, q.truncated || kept != q.matches || text != full)
  }

  /** The matches are listed one to a line. */
  lemma {:induction false} ListedLines(a: seq<Match>, b: seq<Match>)
    requires a != [] && b != []
    ensures Listed(a + b) == Listed(a) + "\n" + Listed(b)
    decreases |b|
  {
    var front := b[..|b| - 1];
    assert (a + b)[..|a + b| - 1] == a + front && (a + b)[|a + b| - 1] == b[|b| - 1];
    if front != [] {
      ListedLines(a, front);
    } else {
      assert a + front == a;
    }
  }

  /** The text of a query: its matches, or why there are none. */
  lemma TextMeans(a: seq<Match>, m: Match, error: string)
    ensures Listed([m]) == m.path + ":" + Decimal(m.line) + ": " + m.text
    ensures a != [] ==> TextOf(a, error) == Listed(a)
    ensures TextOf([], "") == "No matches."
    ensures error != "" ==> TextOf([], error) == "[error] " + error
  {
    if a != [] {
      assert |Line(a[|a| - 1])| > 0;
    }
  }

  /** What one query comes to: nothing when no characters are left, else its first files' matches, cut and flagged. */
  lemma AnswerMeans(q: QueryResult, error: string, maxFiles: nat, remaining: int)
    ensures var a := AnswerOf(q, error, maxFiles, remaining);
            if remaining <= 0 then a == Skipped(q.query)
            else
              var full := TextOf(InFiles(q.matches, FirstPaths(q.matches, maxFiles)), error);
              && a.Found? && a.query == q.query && a.uniqueFiles <= maxFiles
              && (forall m :: m in a.matches <==> m in q.matches && m.path in FirstPaths(q.matches, maxFiles))
              && a.text == (if |full| <= remaining then full
                            else full[..remaining] + "\n...[truncated to " + Decimal(remaining) + " chars]")
              && (a.truncated <==> q.truncated || |a.matches| < |q.matches| || a.text != full)
  {
    var paths := FirstPaths(q.matches, maxFiles);
    InFilesCount(q.matches, paths);
    forall m ensures m in InFiles(q.matches, paths) <==> m in q.matches && m.path in paths {
      InFilesHas(q.matches, paths, m);
    }
  }

  method AnswerQuery(q: QueryResult, error: string, maxFiles: nat, remaining: int, ghost answer: Answerer)
    returns (a: QueryAnswer)
    requires answer == Answers(error, maxFiles)
    ensures a == answer(q, remaining)
  {
    if remaining <= 0 {
      return Skipped(q.query);
    }
    var kept, allowed := BoundMatches(q.matches, maxFiles);
    InFilesCount(q.matches, allowed);
    var full := TextOf(kept, error);
    var text := Clip(full, remaining);
    return Found(q.query, kept, text, |allowed|, q.truncated || |kept| < |q.matches| || text != full);
  }

  // ---------- the queries in turn ----------

  type Answerer = (QueryResult, int) -> QueryAnswer

  function Answers(error: string, maxFiles: nat): Answerer {
    (q, remaining) => AnswerOf(q, error, maxFiles, remaining)
  }

  function Spent(a: QueryAnswer): nat {
    if a.Found? then |a.text| else 0
  }

  function TotalSpent(answers: seq<QueryAnswer>): nat {
    if answers == [] then 0 else TotalSpent(answers[..|answers| - 1]) + Spent(answers[|answers| - 1])
  }

  predicate AnyCut(answers: seq<QueryAnswer>) {
    answers != [] && (AnyCut(answers[..|answers| - 1])
                   || answers[|answers| - 1].Skipped? || answers[|answers| - 1].truncated)
  }

  /** Each query has its answer, with the characters left when its turn came. */
  predicate AnsweredInTurn(queries: seq<QueryResult>, answers: seq<QueryAnswer>, maxChars: int, answer: Answerer)
    decreases |answers|
  {
    answers != [] ==>
      var (front, last) := (answers[..|answers| - 1], answers[|answers| - 1]);
      && AnsweredInTurn(queries, front, maxChars, answer)
      && |front| < |queries|
      && last == answer(queries[|front|], maxChars - TotalSpent(front))
  }

  lemma {:induction false} AnyCutIff(answers: seq<QueryAnswer>)
    ensures AnyCut(answers) <==> exists i :: 0 <= i < |answers| && (answers[i].Skipped? || answers[i].truncated)
    decreases |answers|
  {
    if answers != [] {
      var front := answers[..|answers| - 1];
      AnyCutIff(front);
      assert forall i :: 0 <= i < |front| ==> answers[i] == front[i];
    }
  }

  ghost predicate AnswersFit(answer: Answerer) {
    forall q, remaining | remaining <= 2_000_000 ::
      Spent(answer(q, remaining)) <= if remaining <= 0 then 0 else remaining + 32
  }

  lemma AnswerFits(q: QueryResult, error: string, maxFiles: nat, remaining: int)
    requires remaining <= 2_000_000
    ensures Spent(AnswerOf(q, error, maxFiles, remaining)) <= if remaining <= 0 then 0 else remaining + 32
  {
    if remaining > 0 {
      assert Power10(7) == 10_000_000;
      ClipLength(TextOf(InFiles(q.matches, FirstPaths(q.matches, maxFiles)), error), remaining, 7);
    }
  }

  /** The bound is reached by one long line when two million characters are left. */
  lemma OverrunIsReached(query: string, path: string, maxFiles: nat)
    requires maxFiles >= 1
    ensures var m := Match(path, 1, seq(2_000_001, _ => 'x'));
            Spent(AnswerOf(QueryResult(query, [m], false), "", maxFiles, 2_000_000)) == 2_000_000 + 32
  {
    var m := Match(path, 1, seq(2_000_001, _ => 'x'));
    assert [m][..0] == [];
    assert Paths([m]) == [path] && FirstPaths([m], maxFiles) == [path];
    assert InFiles([m], [path]) == [m];
    assert |TextOf([m], "")| > 2_000_000;
    assert |Decimal(2)| == 1 && |Decimal(20)| == 2 && |Decimal(200)| == 3 && |Decimal(2_000)| == 4;
    assert |Decimal(20_000)| == 5 && |Decimal(200_000)| == 6 && |Decimal(2_000_000)| == 7;
  }

  lemma AllAnswersFit(error: string, maxFiles: nat)
    ensures AnswersFit(Answers(error, maxFiles))
  {
    forall q, remaining | remaining <= 2_000_000
      ensures Spent(Answers(error, maxFiles)(q, remaining)) <= if remaining <= 0 then 0 else remaining + 32
    {
      AnswerFits(q, error, maxFiles, remaining);
    }
  }

  /** The total passes the limit by 32 characters at most. */
  lemma {:induction false} SpentIsBounded(queries: seq<QueryResult>, answers: seq<QueryAnswer>, maxChars: int,
                                          answer: Answerer)
    requires 1 <= maxChars <= 2_000_000 && AnswersFit(answer) && AnsweredInTurn(queries, answers, maxChars, answer)
    ensures TotalSpent(answers) <= maxChars + 32
    decreases |answers|
  {
    if answers != [] {
      var front := answers[..|answers| - 1];
      SpentIsBounded(queries, front, maxChars, answer);
      assert Spent(answer(queries[|front|], maxChars - TotalSpent(front))) <=
             if TotalSpent(front) >= maxChars then 0 else maxChars - TotalSpent(front) + 32;
    }
  }

  lemma OneMoreAnswer(queries: seq<QueryResult>, answers: seq<QueryAnswer>, a: QueryAnswer, maxChars: int,
                      answer: Answerer)
    requires AnsweredInTurn(queries, answers, maxChars, answer) && |answers| < |queries|
    requires a == answer(queries[|answers|], maxChars - TotalSpent(answers))
    ensures AnsweredInTurn(queries, answers + [a], maxChars, answer)
    ensures TotalSpent(answers + [a]) == TotalSpent(answers) + Spent(a)
    ensures AnyCut(answers + [a]) <==> AnyCut(answers) || a.Skipped? || a.truncated
  {
    assert (answers + [a])[..|answers|] == answers;
  }

  method AnswerQueries(queries: seq<QueryResult>, error: string, limits: Limits)
    returns (answers: seq<QueryAnswer>, totalChars: nat, exceeded: bool)
    requires 1 <= limits.maxFiles && 1 <= limits.maxChars <= 2_000_000
    ensures |answers| == |queries|
    ensures AnsweredInTurn(queries, answers, limits.maxChars, Answers(error, limits.maxFiles))
    ensures totalChars == TotalSpent(answers) <= limits.maxChars + 32
    ensures exceeded <==> exists i :: 0 <= i < |answers| && (answers[i].Skipped? || answers[i].truncated)
  {
    answers, totalChars, exceeded := AnswerInTurn(queries, error, limits, Answers(error, limits.maxFiles));
    AllAnswersFit(error, limits.maxFiles);
    AnyCutIff(answers);
    SpentIsBounded(queries, answers, limits.maxChars, Answers(error, limits.maxFiles));
  }

  method AnswerInTurn(queries: seq<QueryResult>, error: string, limits: Limits, ghost answer: Answerer)
    returns (answers: seq<QueryAnswer>, totalChars: nat, exceeded: bool)
    requires 1 <= limits.maxFiles && answer == Answers(error, limits.maxFiles)
    ensures |answers| == |queries|
    ensures AnsweredInTurn(queries, answers, limits.maxChars, answer)
    ensures totalChars == TotalSpent(answers)
    ensures exceeded <==> AnyCut(answers)
  {
    answers, totalChars, exceeded := [], 0, false;
    for i := 0 to |queries|
      invariant |answers| == i && totalChars == TotalSpent(answers)
      invariant AnsweredInTurn(queries, answers, limits.maxChars, answer)
      invariant exceeded <==> AnyCut(answers)
    {
      var a := AnswerQuery(queries[i], error, limits.maxFiles, limits.maxChars - totalChars, answer);
      totalChars := totalChars + Spent(a);
      exceeded := exceeded || a.Skipped? || a.truncated;
      OneMoreAnswer(queries, answers, a, limits.maxChars, answer);
      answers := answers + [a];
    }
  }
}
