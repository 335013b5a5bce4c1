/**
  The safe command compiler: an `&&` command whose segments may call package scripts is flattened
  into a list of executable steps.  The command parser, the script table, the block list and the
  executable check are parameters (`Policy`), so every result holds for all of them.
*/
module CommandPlan {
  import opened Wrappers

  type Env = map<string, string>

  datatype Segment = Segment(raw: string, argv: seq<string>)
  datatype CommandIR = CommandIR(segments: seq<Segment>, operators: seq<string>)
  datatype Request = Request(manager: string, script: string, extraArgs: seq<string>)
  datatype Step = Step(command: string, args: seq<string>, env: Env)

  datatype Error =
    | RecursionLimit
    | ShellOperators
    | EmptyCommand
    | UnsafeAssignment(name: string)
    | NoExecutable(raw: string)
    | NoPackageJson
    | ScriptNotDefined(script: string)
    | ScriptBlocked(script: string)
    | UnsafeArguments(script: string)
    | NoSteps(script: string)
    | UnsafeExecutable

  datatype Policy = Policy(
    parse: string -> CommandIR,
    scripts: Option<map<string, string>>,
    blocked: string -> bool,
    safeExecutable: seq<string> -> bool,
    lower: string -> string,
    display: (string, seq<string>) -> string)

  const MAX_DEPTH: nat := 8

  // ---------- tokens ----------

  predicate UnsafeChar(c: char) {
    c in {';', '&', '|', '<', '>', '`', '$', '\r', '\n'}
  }

  predicate UnsafeText(s: string) {
    exists i :: 0 <= i < |s| && UnsafeChar(s[i])
  }

  predicate NameStart(c: char) {
    'A' <= c <= 'Z' || 'a' <= c <= 'z' || c == '_'
  }

  predicate NameChar(c: char) {
    NameStart(c) || '0' <= c <= '9'
  }

  /** Index of the first '=' in `t`, or `|t|`. */
  function EqualsAt(t: string): (k: nat)
    ensures k <= |t|
    ensures k < |t| ==> t[k] == '='
    ensures forall i :: 0 <= i < k ==> t[i] != '='
  {
    if t == "" || t[0] == '=' then 0 else 1 + EqualsAt(t[1..])
  }

  /** A leading `NAME=value` token. */
  predicate IsAssignment(t: string) {
    var k := EqualsAt(t);
    0 < k < |t| && NameStart(t[0]) && forall i :: 0 <= i < k ==> NameChar(t[i])
  }

  function Key(t: string): string
    requires IsAssignment(t)
  {
    t[..EqualsAt(t)]
  }

  function Value(t: string): string
    requires IsAssignment(t)
  {
    t[EqualsAt(t) + 1..]
  }

  // ---------- leading environment assignments ----------

  datatype Parsed = Parsed(env: Env, argv: seq<string>)

  function ParseEnvFrom(env: Env, argv: seq<string>): Result<Parsed, Error>
    decreases |argv|
  {
    if argv == [] || !IsAssignment(argv[0]) then Ok(Parsed(env, argv))
    else if UnsafeText(Value(argv[0])) then Err(UnsafeAssignment(Key(argv[0])))
    else ParseEnvFrom(env[Key(argv[0]) := Value(argv[0])], argv[1..])
  }

  function ParseEnv(argv: seq<string>): Result<Parsed, Error> {
    ParseEnvFrom(map[], argv)
  }

  method ParseEnvAssignments(segment: Segment) returns (r: Result<Parsed, Error>)
    ensures r == ParseEnv(segment.argv)
  {
    var env: Env := map[];
    var index := 0;
    while index < |segment.argv| && IsAssignment(segment.argv[index])
      invariant 0 <= index <= |segment.argv|
      invariant ParseEnv(segment.argv) == ParseEnvFrom(env, segment.argv[index..])
    {
      var token := segment.argv[index];
      if UnsafeText(Value(token)) {
        return Err(UnsafeAssignment(Key(token)));
      }
      env := env[Key(token) := Value(token)];
      index := index + 1;
    }
    return Ok(Parsed(env, segment.argv[index..]));
  }

  /** `argv[..n]` is the maximal run of leading assignments. */
  ghost predicate SplitsAt(argv: seq<string>, n: nat) {
    && n <= |argv|
    && (forall i :: 0 <= i < n ==> IsAssignment(argv[i]))
    && (n == |argv| || !IsAssignment(argv[n]))
  }

  /** `env` overridden by the first `n` assignments, the last one of a name winning. */
  function Assigned(env: Env, argv: seq<string>, n: nat): Env
    requires n <= |argv| && forall i :: 0 <= i < n ==> IsAssignment(argv[i])
  {
    if n == 0 then env else Assigned(env, argv, n - 1)[Key(argv[n - 1]) := Value(argv[n - 1])]
  }

  /**
    What parsing leading assignments means: exactly the maximal run of assignments is consumed,
    it is refused exactly when one of their values is unsafe, and the last value of a name wins.
  */
  lemma ParseEnvMeaning(argv: seq<string>, n: nat)
    requires SplitsAt(argv, n)
    ensures ParseEnv(argv).Err? <==> exists i :: 0 <= i < n && UnsafeText(Value(argv[i]))
    ensures ParseEnv(argv).Ok? ==> ParseEnv(argv).value == Parsed(Assigned(map[], argv, n), argv[n..])
  {
    ParseEnvFromMeaning(map[], argv, n);
  }

  ghost predicate SomeUnsafe(argv: seq<string>, n: nat)
    requires n <= |argv| && forall i :: 0 <= i < n ==> IsAssignment(argv[i])
  {
    exists i :: 0 <= i < n && UnsafeText(Value(argv[i]))
  }

  lemma SomeUnsafeCons(argv: seq<string>, n: nat)
    requires 0 < n <= |argv| && forall i :: 0 <= i < n ==> IsAssignment(argv[i])
    ensures forall i :: 0 <= i < n - 1 ==> IsAssignment(argv[1..][i])
    ensures SomeUnsafe(argv, n) <==> UnsafeText(Value(argv[0])) || SomeUnsafe(argv[1..], n - 1)
  {
    var rest := argv[1..];
    assert forall i :: 0 <= i < n - 1 ==> rest[i] == argv[i + 1];
    if i :| 0 <= i < n && UnsafeText(Value(argv[i])) {
      assert i > 0 ==> rest[i - 1] == argv[i];
    }
  }

  lemma {:induction false} ParseEnvFromMeaning(env: Env, argv: seq<string>, n: nat)
    requires SplitsAt(argv, n)
    ensures ParseEnvFrom(env, argv).Err? <==> SomeUnsafe(argv, n)
    ensures ParseEnvFrom(env, argv).Ok? ==> ParseEnvFrom(env, argv).value == Parsed(Assigned(env, argv, n), argv[n..])
    decreases n
  {
    if n > 0 {
      SomeUnsafeCons(argv, n);
      ParseEnvFromMeaning(env[Key(argv[0]) := Value(argv[0])], argv[1..], n - 1);
      AssignedCons(env, argv, n);
    }
  }

  lemma {:induction false} AssignedCons(env: Env, argv: seq<string>, n: nat)
    requires 0 < n <= |argv| && forall i :: 0 <= i < n ==> IsAssignment(argv[i])
    ensures forall i :: 0 <= i < n - 1 ==> IsAssignment(argv[1..][i])
    ensures Assigned(env, argv, n) == Assigned(env[Key(argv[0]) := Value(argv[0])], argv[1..], n - 1)
    decreases n
  {
    assert forall i :: 0 <= i < n - 1 ==> argv[1..][i] == argv[i + 1];
    if n > 1 {
      AssignedCons(env, argv, n - 1);
    }
  }

  /** `NAME=value` tokens are those whose name is an identifier; they fall apart at the first `=`. */
  lemma AssignmentForm(name: string, value: string)
    requires '=' !in name
    ensures var t := name + "=" + value;
            && (IsAssignment(t) <==>
                && name != "" && !('0' <= name[0] <= '9')
                && forall i | 0 <= i < |name| ::
                     'A' <= name[i] <= 'Z' || 'a' <= name[i] <= 'z' || '0' <= name[i] <= '9' || name[i] == '_')
            && (IsAssignment(t) ==> Key(t) == name && Value(t) == value)
  {
    var t := name + "=" + value;
    assert t[|name|] == '=' && t[..|name|] == name && t[|name| + 1..] == value;
    assert forall i | 0 <= i < |name| :: t[i] == name[i];
    assert EqualsAt(t) == |name|;
  }

  /** No assignment is recognised without an `=`. */
  lemma NoAssignment(t: string)
    requires '=' !in t
    ensures !IsAssignment(t)
  {
    assert EqualsAt(t) == |t|;
  }

  /** The value of the last of the first `n` assignments that gives `name` one. */
  function LastValue(argv: seq<string>, n: nat, name: string): Option<string>
    requires n <= |argv| && forall i :: 0 <= i < n ==> IsAssignment(argv[i])
  {
    if n == 0 then None
    else if Key(argv[n - 1]) == name then Some(Value(argv[n - 1]))
    else LastValue(argv, n - 1, name)
  }

  /** `e` is `env` with each name assigned its last value. */
  ghost predicate Overrides(e: Env, env: Env, argv: seq<string>, n: nat)
    requires n <= |argv| && forall i :: 0 <= i < n ==> IsAssignment(argv[i])
  {
    forall name :: OverriddenAt(e, env, LastValue(argv, n, name), name)
  }

  predicate OverriddenAt(e: Env, env: Env, value: Option<string>, name: string) {
    match value
    case Some(v) => name in e && e[name] == v
    case None => (name in e <==> name in env) && (name in e ==> e[name] == env[name])
  }

  lemma AssignedOverrides(env: Env, argv: seq<string>, n: nat)
    requires n <= |argv| && forall i :: 0 <= i < n ==> IsAssignment(argv[i])
    ensures Overrides(env + Assigned(map[], argv, n), env, argv, n)
  {
    forall name ensures OverriddenAt(env + Assigned(map[], argv, n), env, LastValue(argv, n, name), name) {
      AssignedAt(argv, n, name);
    }
  }

  lemma {:induction false} AssignedAt(argv: seq<string>, n: nat, name: string)
    requires n <= |argv| && forall i :: 0 <= i < n ==> IsAssignment(argv[i])
    ensures var (e, value) := (Assigned(map[], argv, n), LastValue(argv, n, name));
            (name in e <==> value.Some?) && (name in e ==> e[name] == value.value)
    decreases n
  {
    if n > 0 {
      AssignedAt(argv, n - 1, name);
    }
  }

  // ---------- package-script calls ----------

  function DropMarker(extra: seq<string>): seq<string> {
    if extra != [] && extra[0] == "--" then extra[1..] else extra
  }

  predicate IsManager(p: Policy, argv: seq<string>) {
    argv != [] && p.lower(argv[0]) in {"npm", "pnpm", "yarn", "bun"}
  }

  /** Argument `i` is present and spells one of `words` without regard to case. */
  predicate Says(p: Policy, argv: seq<string>, i: nat, words: set<string>) {
    i < |argv| && p.lower(argv[i]) in words
  }

  function PackageScriptRequest(p: Policy, argv: seq<string>): Option<Request> {
    if !IsManager(p, argv) then None
    else if Says(p, argv, 1, {"run"}) && |argv| > 2 && argv[2] != "" then
      Some(Request(p.lower(argv[0]), argv[2], DropMarker(argv[3..])))
    else if Says(p, argv, 1, {"test", "t"}) then
      Some(Request(p.lower(argv[0]), "test", DropMarker(argv[2..])))
    else None
  }

  /** A manager's `run` with a script name calls that script; one `--` before the arguments is dropped. */
  lemma RunCallsScript(p: Policy, manager: string, word: string, script: string, extra: seq<string>)
    requires p.lower(manager) in {"npm", "pnpm", "yarn", "bun"} && p.lower(word) == "run" && script != ""
    ensures PackageScriptRequest(p, [manager, word, script, "--"] + extra) ==
            Some(Request(p.lower(manager), script, extra))
    ensures extra == [] || extra[0] != "--" ==>
              PackageScriptRequest(p, [manager, word, script] + extra) == Some(Request(p.lower(manager), script, extra))
  {
    assert ([manager, word, script, "--"] + extra)[3..] == ["--"] + extra && (["--"] + extra)[1..] == extra;
    assert ([manager, word, script] + extra)[3..] == extra;
  }

  /** A manager's `test` or `t` calls the script `test`. */
  lemma TestCallsTest(p: Policy, manager: string, word: string, extra: seq<string>)
    requires p.lower(manager) in {"npm", "pnpm", "yarn", "bun"} && p.lower(word) in {"test", "t"}
    ensures PackageScriptRequest(p, [manager, word, "--"] + extra) == Some(Request(p.lower(manager), "test", extra))
    ensures extra == [] || extra[0] != "--" ==>
              PackageScriptRequest(p, [manager, word] + extra) == Some(Request(p.lower(manager), "test", extra))
  {
    assert ([manager, word, "--"] + extra)[2..] == ["--"] + extra && (["--"] + extra)[1..] == extra;
    assert ([manager, word] + extra)[2..] == extra;
  }

  /** Nothing else is a package-script call. */
  lemma OtherWordsCallNothing(p: Policy, argv: seq<string>)
    ensures PackageScriptRequest(p, argv).None? <==>
              || argv == [] || p.lower(argv[0]) !in {"npm", "pnpm", "yarn", "bun"}
              || |argv| == 1 || p.lower(argv[1]) !in {"run", "test", "t"}
              || (p.lower(argv[1]) == "run" && (|argv| == 2 || argv[2] == ""))
  {
  }

  // ---------- the compiler as a function ----------

  /** The `&&`-separated segments of a command, or the reason it is not one. */
  function SafeSegments(p: Policy, command: string): Result<seq<Segment>, Error> {
    var ir := p.parse(command);
    if (exists i :: 0 <= i < |ir.operators| && ir.operators[i] != "&&")
       || |ir.operators| != (if |ir.segments| == 0 then 0 else |ir.segments| - 1) then Err(ShellOperators)
    else if ir.segments == [] then Err(EmptyCommand)
    else Ok(ir.segments)
  }

  /** The text of a script that may be called; an empty script counts as undefined. */
  function ScriptText(p: Policy, script: string): Result<string, Error> {
    if p.scripts.None? then Err(NoPackageJson)
    else if script !in p.scripts.value || p.scripts.value[script] == "" then Err(ScriptNotDefined(script))
    else if p.blocked(p.scripts.value[script]) then Err(ScriptBlocked(script))
    else Ok(p.scripts.value[script])
  }

  /** What the checks on a command line, on a script and on a text amount to. */
  lemma ChecksMean(p: Policy, command: string, script: string, t: string)
    ensures var (ir, segments) := (p.parse(command), SafeSegments(p, command));
            && (segments.Ok? <==>
                && ir.segments != [] && |ir.operators| == |ir.segments| - 1
                && forall i | 0 <= i < |ir.operators| :: ir.operators[i] == "&&")
            && (segments.Ok? ==> segments.value == ir.segments)
    ensures ScriptText(p, script).Ok? <==>
            && p.scripts.Some? && script in p.scripts.value && p.scripts.value[script] != ""
            && !p.blocked(p.scripts.value[script])
    ensures ScriptText(p, script).Ok? ==> ScriptText(p, script).value == p.scripts.value[script]
    ensures UnsafeText(t) <==>
            exists i | 0 <= i < |t| ::
              || t[i] == ';' || t[i] == '&' || t[i] == '|' || t[i] == '<' || t[i] == '>'
              || t[i] == '`' || t[i] == '$' || t[i] == '\r' || t[i] == '\n'
  {
  }

  predicate UnsafeArgs(extra: seq<string>) {
    exists i :: 0 <= i < |extra| && UnsafeText(extra[i])
  }

  /** Append `extra` to the arguments of the last step. */
  function AppendToLast(steps: seq<Step>, extra: seq<string>): (r: seq<Step>)
    ensures |r| == |steps|
  {
    if steps == [] then []
    else
      var last := steps[|steps| - 1];
      steps[..|steps| - 1] + [last.(args := last.args + extra)]
  }

  function Resolve(p: Policy, command: string, env: Env, depth: nat): Result<seq<Step>, Error>
    decreases if depth > MAX_DEPTH then 0 else MAX_DEPTH + 1 - depth, 0, 2
  {
    if depth > MAX_DEPTH then Err(RecursionLimit)
    else
      var segments :- SafeSegments(p, command);
      ResolveSegments(p, segments, env, depth)
  }

  function ResolveSegments(p: Policy, segments: seq<Segment>, env: Env, depth: nat): Result<seq<Step>, Error>
    requires depth <= MAX_DEPTH
    decreases MAX_DEPTH - depth, |segments| + 1, 1
  {
    if segments == [] then Ok([])
    else
      var head :- ResolveSegment(p, segments[0], env, depth);
      var tail :- ResolveSegments(p, segments[1..], env, depth);
      Ok(head + tail)
  }

  function ResolveSegment(p: Policy, segment: Segment, env: Env, depth: nat): Result<seq<Step>, Error>
    requires depth <= MAX_DEPTH
    decreases MAX_DEPTH - depth, 1, 0
  {
    var parsed :- ParseEnv(segment.argv);
    if parsed.argv == [] then Err(NoExecutable(segment.raw))
    else
      match PackageScriptRequest(p, parsed.argv)
      case Some(request) =>
        var script :- ScriptText(p, request.script);
        var nested :- Resolve(p, script, env + parsed.env, depth + 1);
        if request.extraArgs == [] then Ok(nested)
        else if UnsafeArgs(request.extraArgs) then Err(UnsafeArguments(request.script))
        else if nested == [] then Err(NoSteps(request.script))
        else Ok(AppendToLast(nested, request.extraArgs))
      case None =>
        if !p.safeExecutable(parsed.argv) then Err(UnsafeExecutable)
        else Ok([Step(parsed.argv[0], parsed.argv[1..], env + parsed.env)])
  }

  /** Appending changes the last step alone, and of it the arguments. */
  lemma AppendingMeans(steps: seq<Step>, extra: seq<string>)
    requires steps != []
    ensures var (n, r) := (|steps| - 1, AppendToLast(steps, extra));
            && r[..n] == steps[..n] && r[n].command == steps[n].command && r[n].env == steps[n].env
            && r[n].args == steps[n].args + extra
  {
  }

  /**
    The plan of an accepted segment: one step of its words, or the plan of the script it calls with the
    extra arguments on the last step; both in the environment with the segment's own assignments.
  */
  lemma SegmentMeans(p: Policy, segment: Segment, env: Env, depth: nat, n: nat) returns (e: Env)
    requires depth <= MAX_DEPTH && ResolveSegment(p, segment, env, depth).Ok? && SplitsAt(segment.argv, n)
    ensures Overrides(e, env, segment.argv, n)
    ensures var (plan, words) := (ResolveSegment(p, segment, env, depth).value, segment.argv[n..]);
            words != [] &&
            match PackageScriptRequest(p, words)
            case None => plan == [Step(words[0], words[1..], e)]
            case Some(request) =>
              && ScriptText(p, request.script).Ok?
              && var nested := Resolve(p, ScriptText(p, request.script).value, e, depth + 1);
                 nested.Ok? && plan == if request.extraArgs == [] then nested.value
                                       else AppendToLast(nested.value, request.extraArgs)
  {
    ParseEnvMeaning(segment.argv, n);
    AssignedOverrides(env, segment.argv, n);
    e := env + Assigned(map[], segment.argv, n);
  }

  // ---------- the compiler as it runs: steps are objects whose arguments are extended in place ----------

  class SafeStep {
    const command: string
    var args: seq<string>
    const env: Env
    var display: string

    constructor (command: string, args: seq<string>, env: Env, display: string)
      ensures this.command == command && this.args == args && this.env == env && this.display == display
    {
      this.command, this.args, this.env, this.display := command, args, env, display;
    }

    function View(): Step
      reads this
    {
      Step(command, args, env)
    }
  }

  /** The step objects of a plan, as values; every display text is that of what will run. */
  ghost predicate Shows(p: Policy, steps: seq<SafeStep>, plan: seq<Step>)
    reads steps
  {
    && |steps| == |plan|
    && (forall i, j :: 0 <= i < j < |steps| ==> steps[i] != steps[j])
    && (forall i :: 0 <= i < |steps| ==> steps[i].View() == plan[i])
    && (forall i :: 0 <= i < |steps| ==> steps[i].display == p.display(steps[i].command, steps[i].args))
  }

  /** Compiles `command`; the step objects are new and unshared, and stand for `Resolve`'s plan. */
  method ResolveSafeCommandPlan(p: Policy, command: string, env: Env, depth: nat)
    returns (r: Result<seq<SafeStep>, Error>)
    ensures r.Ok? <==> Resolve(p, command, env, depth).Ok?
    ensures r.Err? ==> Resolve(p, command, env, depth) == Err(r.error)
    ensures r.Ok? ==> forall s :: s in r.value ==> fresh(s)
    ensures r.Ok? ==> Shows(p, r.value, Resolve(p, command, env, depth).value)
    decreases if depth > MAX_DEPTH then 0 else MAX_DEPTH + 1 - depth, 2
  {
    if depth > MAX_DEPTH {
      return Err(RecursionLimit);
    }
    var ir := SafeSegments(p, command);
    if ir.Err? {
      return Err(ir.error);
    }
    r := ResolveSafeSegments(p, ir.value, env, depth);
  }

  /** The compiler's loop over the segments of a command. */
  method ResolveSafeSegments(p: Policy, segments: seq<Segment>, env: Env, depth: nat)
    returns (r: Result<seq<SafeStep>, Error>)
    requires depth <= MAX_DEPTH
    ensures r.Ok? <==> ResolveSegments(p, segments, env, depth).Ok?
    ensures r.Err? ==> ResolveSegments(p, segments, env, depth) == Err(r.error)
    ensures r.Ok? ==> forall s :: s in r.value ==> fresh(s)
    ensures r.Ok? ==> Shows(p, r.value, ResolveSegments(p, segments, env, depth).value)
    decreases MAX_DEPTH + 1 - depth, 1
  {
    var steps: seq<SafeStep> := [];
    ghost var plan: seq<Step> := [];
    ghost var whole := ResolveSegments(p, segments, env, depth);
    var i := 0;
    assert segments[0..] == segments && (whole.Ok? ==> [] + whole.value == whole.value);
    while i < |segments|
      invariant 0 <= i <= |segments|
      invariant forall s :: s in steps ==> fresh(s)
      invariant Shows(p, steps, plan)
      invariant whole == Prepend(plan, ResolveSegments(p, segments[i..], env, depth))
    {
      ResolveSegmentsAt(p, segments, i, env, depth);
      var nested := ResolveSafeSegment(p, segments[i], env, depth);
      if nested.Err? {
        return Err(nested.error);
      }
      ghost var added := ResolveSegment(p, segments[i], env, depth).value;
      ShowsConcat(p, steps, plan, nested.value, added);
      PrependAssociates(plan, added, ResolveSegments(p, segments[i + 1..], env, depth));
      steps, plan := steps + nested.value, plan + added;
      i := i + 1;
    }
    return Ok(steps);
  }

  /** One pass of the compiler's loop: the step objects of a single segment. */
  method ResolveSafeSegment(p: Policy, segment: Segment, env: Env, depth: nat)
    returns (r: Result<seq<SafeStep>, Error>)
    requires depth <= MAX_DEPTH
    ensures r.Ok? <==> ResolveSegment(p, segment, env, depth).Ok?
    ensures r.Err? ==> ResolveSegment(p, segment, env, depth) == Err(r.error)
    ensures r.Ok? ==> forall s :: s in r.value ==> fresh(s)
    ensures r.Ok? ==> Shows(p, r.value, ResolveSegment(p, segment, env, depth).value)
    decreases MAX_DEPTH + 1 - depth, 0
  {
    var parsed := ParseEnvAssignments(segment);
    if parsed.Err? {
      return Err(parsed.error);
    }
    var argv := parsed.value.argv;
    if argv == [] {
      return Err(NoExecutable(segment.raw));
    }
    var request := PackageScriptRequest(p, argv);
    if request.None? {
      if !p.safeExecutable(argv) {
        return Err(UnsafeExecutable);
      }
      var step := new SafeStep(argv[0], argv[1..], env + parsed.value.env, p.display(argv[0], argv[1..]));
      return Ok([step]);
    }
    var script := ScriptText(p, request.value.script);
    if script.Err? {
      return Err(script.error);
    }
    var nested := ResolveSafeCommandPlan(p, script.value, env + parsed.value.env, depth + 1);
    var extra := request.value.extraArgs;
    if nested.Err? || extra == [] {
      return nested;
    }
    if UnsafeArgs(extra) {
      return Err(UnsafeArguments(request.value.script));
    }
    if nested.value == [] {
      return Err(NoSteps(request.value.script));
    }
    assert nested.value[|nested.value| - 1] in nested.value;
    ExtendLast(p, nested.value, extra, Resolve(p, script.value, env + parsed.value.env, depth + 1).value);
    return nested;
  }

  /** Pushes `extra` onto the arguments of the last step object and refreshes its display text. */
  method ExtendLast(p: Policy, steps: seq<SafeStep>, extra: seq<string>, ghost plan: seq<Step>)
    requires steps != [] && Shows(p, steps, plan)
    modifies steps[|steps| - 1]
    ensures Shows(p, steps, AppendToLast(plan, extra))
  {
    var last := steps[|steps| - 1];
    last.args := last.args + extra;
    last.display := p.display(last.command, last.args);
  }

  lemma ShowsConcat(p: Policy, a: seq<SafeStep>, planA: seq<Step>, b: seq<SafeStep>, planB: seq<Step>)
    requires Shows(p, a, planA) && Shows(p, b, planB)
    requires forall s :: s in b ==> s !in a
    ensures Shows(p, a + b, planA + planB)
  {
    forall i, j | 0 <= i < |a| && 0 <= j < |b|
      ensures a[i] != b[j]
    {
      assert a[i] in a && b[j] in b;
    }
  }

  lemma ResolveSegmentsAt(p: Policy, segments: seq<Segment>, i: nat, env: Env, depth: nat)
    requires i < |segments| && depth <= MAX_DEPTH
    ensures ResolveSegments(p, segments[i..], env, depth) ==
            match ResolveSegment(p, segments[i], env, depth)
            case Err(e) => Err(e)
            case Ok(head) => Prepend(head, ResolveSegments(p, segments[i + 1..], env, depth))
  {
    assert segments[i..][0] == segments[i] && segments[i..][1..] == segments[i + 1..];
  }

  ghost function Prepend(plan: seq<Step>, r: Result<seq<Step>, Error>): Result<seq<Step>, Error> {
    if r.Ok? then Ok(plan + r.value) else r
  }

  lemma PrependAssociates(a: seq<Step>, b: seq<Step>, r: Result<seq<Step>, Error>)
    ensures Prepend(a, Prepend(b, r)) == Prepend(a + b, r)
  {
    if r.Ok? {
      assert a + (b + r.value) == a + b + r.value;
    }
  }
}
