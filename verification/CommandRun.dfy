/**
  Running a compiled plan: the step loop with its shared deadline, the direct evaluation of the
  nested `&&`/package-script tree that it must agree with, and a bound on the time it takes.
  Processes are an oracle over the call and the world, so effects of any kind are covered.
*/
module CommandRun {
  import opened Numbers
  import opened Wrappers
  import opened CommandPlan
  import opened CommandAcceptance

  datatype Call = Call(command: string, args: seq<string>, env: Env, timeoutMs: int)
  datatype Exit = Exit(exitCode: Option<int>, timedOut: bool, cancelled: bool, treeTerminated: bool)

  datatype Machine<!W> = Machine(run: (Call, W) -> (Exit, W), clock: W -> int)

  /** What the caller is told, together with the processes that were started, in order. */
  datatype Report = Report(calls: seq<Call>, exitCode: Option<int>, cancelled: bool, timedOut: bool,
                           treeTerminated: bool)

  const NOTHING_RUN := Report([], Some(0), false, false, true)
  const MIN_TIMEOUT: int := 1_000
  const MAX_TIMEOUT: int := 300_000

  /** The time limit of a whole command. */
  function TimeoutMs(requested: Option<int>): int {
    Max(MIN_TIMEOUT, Min(if requested.Some? then requested.value else 30_000, MAX_TIMEOUT))
  }

  /** The limit of a command: what is asked for, from one second to five minutes, or half a minute. */
  lemma TimeoutIs(requested: Option<int>)
    ensures requested.None? ==> TimeoutMs(requested) == 30_000
    ensures requested.Some? && 1_000 <= requested.value <= 300_000 ==> TimeoutMs(requested) == requested.value
    ensures requested.Some? && requested.value < 1_000 ==> TimeoutMs(requested) == 1_000
    ensures requested.Some? && requested.value > 300_000 ==> TimeoutMs(requested) == 300_000
  {
  }

  predicate Continues(exit: Exit) {
    !exit.timedOut && !exit.cancelled && exit.treeTerminated && exit.exitCode == Some(0)
  }

  function Observe(report: Report, call: Call, exit: Exit): Report {
    Report(report.calls + [call], exit.exitCode, report.cancelled || exit.cancelled,
           report.timedOut || exit.timedOut, report.treeTerminated && exit.treeTerminated)
  }

  datatype Progress<W> = Progress(report: Report, world: W, going: bool)

  function Start<W>(m: Machine<W>, deadline: int, command: string, args: seq<string>, env: Env,
                    s: Progress<W>): Progress<W> {
    var call := Call(command, args, env, Max(MIN_TIMEOUT, deadline - m.clock(s.world)));
    var (exit, world) := m.run(call, s.world);
    Progress(Observe(s.report, call, exit), world, Continues(exit))
  }

  /** The flat loop: steps in order until one does not succeed. */
  function RunSteps<W>(m: Machine<W>, deadline: int, steps: seq<Step>, s: Progress<W>): Progress<W> {
    if steps == [] || !s.going then s
    else RunSteps(m, deadline, steps[1..], Start(m, deadline, steps[0].command, steps[0].args, steps[0].env, s))
  }

  // ---------- where appended arguments go ----------

  /** What a segment's words ask for: a package script with extra arguments, or a process. */
  datatype Target = Script(script: string, extraArgs: seq<string>) | Process(argv: seq<string>)

  function TargetOf(p: Policy, argv: seq<string>): Target {
    match PackageScriptRequest(p, argv)
    case Some(request) => Script(request.script, request.extraArgs)
    case None => Process(argv)
  }

  function Extend(target: Target, extra: seq<string>): Target {
    match target
    case Script(script, extraArgs) => Script(script, extraArgs + extra)
    case Process(argv) => Process(argv + extra)
  }

  /**
    Words appended to `argv` would not stay mere arguments: a bare package manager takes them as
    its subcommand or script name, or a script call without arguments of its own drops a leading
    `--` of theirs.
  */
  predicate Captures(p: Policy, argv: seq<string>, extra: seq<string>)
    requires extra != []
  {
    && IsManager(p, argv)
    && (|| (|argv| == 1 &&
            ((Says(p, extra, 0, {"run"}) && |extra| > 1 && extra[1] != "") || Says(p, extra, 0, {"test", "t"})))
        || (|argv| == 2 && Says(p, argv, 1, {"run"}) && extra[0] != "")
        || (|argv| == 2 && Says(p, argv, 1, {"test", "t"}) && extra[0] == "--")
        || (|argv| == 3 && Says(p, argv, 1, {"run"}) && argv[2] != "" && extra[0] == "--"))
  }

  /** Appending to a compiled step and appending to the words it came from agree exactly when no word is captured. */
  lemma AppendAgreesIff(p: Policy, argv: seq<string>, extra: seq<string>)
    requires argv != [] && extra != []
    ensures TargetOf(p, argv + extra) == Extend(TargetOf(p, argv), extra) <==> !Captures(p, argv, extra)
  {
    var all := argv + extra;
    assert all[0] == argv[0] && all[|argv|] == extra[0];
    if IsManager(p, argv) {
      if |argv| == 1 {
        AppendToOneWord(p, argv, extra);
      } else if |argv| == 2 {
        AppendToTwoWords(p, argv, extra);
      } else if |argv| == 3 {
        AppendToThreeWords(p, argv, extra);
      } else {
        AppendToManyWords(p, argv, extra);
      }
    }
  }

  lemma AppendToOneWord(p: Policy, argv: seq<string>, extra: seq<string>)
    requires |argv| == 1 && extra != [] && IsManager(p, argv)
    ensures TargetOf(p, argv + extra) == Extend(TargetOf(p, argv), extra) <==> !Captures(p, argv, extra)
  {
    var all := argv + extra;
    assert all[0] == argv[0] && all[1] == extra[0];
    assert |extra| > 1 ==> all[2] == extra[1];
    assert TargetOf(p, argv) == Process(argv);
  }

  lemma AppendToTwoWords(p: Policy, argv: seq<string>, extra: seq<string>)
    requires |argv| == 2 && extra != [] && IsManager(p, argv)
    ensures TargetOf(p, argv + extra) == Extend(TargetOf(p, argv), extra) <==> !Captures(p, argv, extra)
  {
    var all := argv + extra;
    assert all[0] == argv[0] && all[1] == argv[1] && all[2] == extra[0];
    if Says(p, argv, 1, {"run"}) {
      assert TargetOf(p, argv) == Process(argv);
      assert TargetOf(p, all) == Process(all) <==> extra[0] == "";
    } else if Says(p, argv, 1, {"test", "t"}) {
      assert all[2..] == extra && argv[2..] == [];
      assert TargetOf(p, argv) == Script("test", []) && [] + extra == extra;
      assert TargetOf(p, all) == Script("test", DropMarker(extra));
      assert DropMarker(extra) == extra <==> extra[0] != "--";
    }
  }

  lemma AppendToThreeWords(p: Policy, argv: seq<string>, extra: seq<string>)
    requires |argv| == 3 && extra != [] && IsManager(p, argv)
    ensures TargetOf(p, argv + extra) == Extend(TargetOf(p, argv), extra) <==> !Captures(p, argv, extra)
  {
    var all := argv + extra;
    assert all[0] == argv[0] && all[1] == argv[1] && all[2] == argv[2];
    if Says(p, argv, 1, {"run"}) && argv[2] != "" {
      assert all[3..] == extra && argv[3..] == [];
      assert TargetOf(p, argv) == Script(argv[2], []) && [] + extra == extra;
      assert TargetOf(p, all) == Script(argv[2], DropMarker(extra));
      assert DropMarker(extra) == extra <==> extra[0] != "--";
    } else {
      assert all[2..] == argv[2..] + extra;
      DropMarkerAppend(argv[2..], extra);
    }
  }

  lemma AppendToManyWords(p: Policy, argv: seq<string>, extra: seq<string>)
    requires |argv| > 3 && extra != [] && IsManager(p, argv)
    ensures TargetOf(p, argv + extra) == Extend(TargetOf(p, argv), extra)
  {
    var all := argv + extra;
    assert all[0] == argv[0] && all[1] == argv[1] && all[2] == argv[2];
    assert all[2..] == argv[2..] + extra && all[3..] == argv[3..] + extra;
    DropMarkerAppend(argv[2..], extra);
    DropMarkerAppend(argv[3..], extra);
  }

  lemma DropMarkerAppend(a: seq<string>, extra: seq<string>)
    requires a != []
    ensures DropMarker(a + extra) == DropMarker(a) + extra
  {
    if a[0] == "--" {
      assert (a + extra)[1..] == a[1..] + extra;
    }
  }

  // ---------- direct evaluation of the nested command ----------

  /**
    Evaluates a command line segment by segment as `&&` does, entering the script of a
    package-script call.  `extra` goes to the last segment: to the process it starts, or on to the
    script it calls, after that call's own extra arguments.  With `asWords` it is instead written
    after the segment's words, before they are read.  `fuel` bounds the nesting of scripts; a
    command that needs more has no value.
  */
  function EvalCommand<W>(p: Policy, m: Machine<W>, asWords: bool, deadline: int, command: string, env: Env,
                          extra: seq<string>,
                          fuel: nat, s: Progress<W>)
    : Option<Progress<W>>
    decreases fuel, 0, 2
  {
    if fuel == 0 then None
    else EvalSegments(p, m, asWords, deadline, p.parse(command).segments, env, extra, fuel - 1, s)
  }

  function EvalSegments<W>(p: Policy, m: Machine<W>, asWords: bool, deadline: int, segments: seq<Segment>, env: Env,
                           extra: seq<string>,
                           fuel: nat, s: Progress<W>)
    : Option<Progress<W>>
    decreases fuel, |segments| + 1, 1
  {
    if segments == [] || !s.going then Some(s)
    else
      match EvalSegment(p, m, asWords, deadline, segments[0], env, ExtraFor(segments, extra), fuel, s)
      case None => None
      case Some(s') => EvalSegments(p, m, asWords, deadline, segments[1..], env, extra, fuel, s')
  }

  /** Only the last segment of a command line receives the appended arguments. */
  function ExtraFor(segments: seq<Segment>, extra: seq<string>): seq<string> {
    if |segments| == 1 then extra else []
  }

  function EvalSegment<W>(p: Policy, m: Machine<W>, asWords: bool, deadline: int, segment: Segment, env: Env,
                          extra: seq<string>,
                          fuel: nat, s: Progress<W>)
    : Option<Progress<W>>
    decreases fuel, 1, 0
  {
    if ParseEnv(segment.argv).Err? || ParseEnv(segment.argv).value.argv == [] then None
    else
      var parsed := ParseEnv(segment.argv).value;
      match if asWords then TargetOf(p, parsed.argv + extra) else Extend(TargetOf(p, parsed.argv), extra)
      case Script(script, extraArgs) =>
        if ScriptText(p, script).Err? then None
        else EvalCommand(p, m, asWords, deadline, ScriptText(p, script).value, env + parsed.env, extraArgs, fuel, s)
      case Process(argv) =>
        if argv == [] then None
        else Some(Start(m, deadline, argv[0], argv[1..], env + parsed.env, s))
  }

  /**
    Meaning preservation: for every machine, world and accepted command, running the flat steps
    starts the same processes in the same order with the same limits, and ends in the same report
    and world, as evaluating the nested command directly.
  */
  lemma PlanMeansCommand<W>(p: Policy, m: Machine<W>, deadline: int, command: string, env: Env, s: Progress<W>)
    requires Resolve(p, command, env, 0).Ok? && s.going
    ensures EvalCommand(p, m, false, deadline, command, env, [], MAX_DEPTH + 1, s) ==
            Some(RunSteps(m, deadline, Resolve(p, command, env, 0).value, s))
  {
    AppendNothing(Resolve(p, command, env, 0).value);
    CommandMeaning(p, m, deadline, command, env, [], 0, MAX_DEPTH + 1, s);
  }

  lemma {:induction false} CommandMeaning<W>(p: Policy, m: Machine<W>, deadline: int, command: string, env: Env,
                                             extra: seq<string>,
                                             depth: nat, fuel: nat, s: Progress<W>)
    requires Resolve(p, command, env, depth).Ok?
    requires fuel + depth >= MAX_DEPTH + 1
    requires s.going
    ensures EvalCommand(p, m, false, deadline, command, env, extra, fuel, s) ==
            Some(RunSteps(m, deadline, AppendToLast(Resolve(p, command, env, depth).value, extra), s))
    decreases fuel, 0, 2
  {
    SegmentsMeaning(p, m, deadline, SafeSegments(p, command).value, env, extra, depth, fuel - 1, s);
  }

  lemma {:induction false} SegmentsMeaning<W>(p: Policy, m: Machine<W>, deadline: int, segments: seq<Segment>,
                                              env: Env, extra: seq<string>,
                                              depth: nat, fuel: nat, s: Progress<W>)
    requires depth <= MAX_DEPTH && ResolveSegments(p, segments, env, depth).Ok?
    requires fuel + depth >= MAX_DEPTH
    ensures EvalSegments(p, m, false, deadline, segments, env, extra, fuel, s) ==
            Some(RunSteps(m, deadline, AppendToLast(ResolveSegments(p, segments, env, depth).value, extra), s))
    decreases fuel, |segments| + 1, 1
  {
    if segments != [] && s.going {
      var head := ResolveSegment(p, segments[0], env, depth).value;
      var tail := ResolveSegments(p, segments[1..], env, depth).value;
      if |segments| == 1 {
        SegmentMeaning(p, m, deadline, segments[0], env, extra, depth, fuel, s);
        assert head + tail == head;
      } else {
        SegmentMeaning(p, m, deadline, segments[0], env, [], depth, fuel, s);
        AppendNothing(head);
        var s' := RunSteps(m, deadline, head, s);
        SegmentsMeaning(p, m, deadline, segments[1..], env, extra, depth, fuel, s');
        SegmentsNotEmpty(p, segments[1..], env, depth);
        AppendToTail(head, tail, extra);
        RunConcat(m, deadline, head, AppendToLast(tail, extra), s);
      }
    }
  }

  lemma {:induction false} SegmentMeaning<W>(p: Policy, m: Machine<W>, deadline: int, segment: Segment, env: Env,
                                             extra: seq<string>,
                                             depth: nat, fuel: nat, s: Progress<W>)
    requires depth <= MAX_DEPTH && ResolveSegment(p, segment, env, depth).Ok?
    requires fuel + depth >= MAX_DEPTH
    requires s.going
    ensures EvalSegment(p, m, false, deadline, segment, env, extra, fuel, s) ==
            Some(RunSteps(m, deadline, AppendToLast(ResolveSegment(p, segment, env, depth).value, extra), s))
    decreases fuel, 1, 0
  {
    var parsed := ParseEnv(segment.argv).value;
    match TargetOf(p, parsed.argv)
    case Script(name, extraArgs) =>
      var nested := ScriptSegmentPlan(p, segment, env, depth, name, extraArgs);
      CommandMeaning(p, m, deadline, ScriptText(p, name).value, env + parsed.env, extraArgs + extra,
                     depth + 1, fuel, s);
      AppendTwice(nested, extraArgs, extra);
    case Process(argv) =>
      assert (argv + extra)[1..] == argv[1..] + extra;
  }

  lemma ScriptSegmentPlan(p: Policy, segment: Segment, env: Env, depth: nat, name: string, extraArgs: seq<string>)
    returns (nested: seq<Step>)
    requires depth <= MAX_DEPTH && ResolveSegment(p, segment, env, depth).Ok?
    requires TargetOf(p, ParseEnv(segment.argv).value.argv) == Script(name, extraArgs)
    ensures ScriptText(p, name).Ok?
    ensures Resolve(p, ScriptText(p, name).value, env + ParseEnv(segment.argv).value.env, depth + 1) == Ok(nested)
    ensures ResolveSegment(p, segment, env, depth).value == AppendToLast(nested, extraArgs)
  {
    nested := Resolve(p, ScriptText(p, name).value, env + ParseEnv(segment.argv).value.env, depth + 1).value;
    AppendNothing(nested);
  }

  lemma SegmentsNotEmpty(p: Policy, segments: seq<Segment>, env: Env, depth: nat)
    requires segments != [] && depth <= MAX_DEPTH && ResolveSegments(p, segments, env, depth).Ok?
    ensures ResolveSegments(p, segments, env, depth).value != []
  {
    SegmentAccepted(p, segments[0], env, depth);
    if Callee(p, segments[0]).Some? {
      PlanIsNotEmpty(p, Callee(p, segments[0]).value, CallEnv(segments[0], env), depth + 1);
    }
  }

  lemma AppendNothing(steps: seq<Step>)
    ensures AppendToLast(steps, []) == steps
  {
    if steps != [] {
      var last := steps[|steps| - 1];
      assert last.args + [] == last.args;
    }
  }

  lemma AppendTwice(steps: seq<Step>, a: seq<string>, b: seq<string>)
    ensures AppendToLast(AppendToLast(steps, a), b) == AppendToLast(steps, a + b)
    ensures a == [] ==> AppendToLast(steps, a + b) == AppendToLast(steps, b)
  {
    if steps != [] {
      var last := steps[|steps| - 1];
      assert last.args + a + b == last.args + (a + b);
    }
    if a == [] {
      assert a + b == b;
    }
  }

  lemma AppendToTail(head: seq<Step>, tail: seq<Step>, extra: seq<string>)
    requires tail != []
    ensures AppendToLast(head + tail, extra) == head + AppendToLast(tail, extra)
  {
    assert (head + tail)[|head + tail| - 1] == tail[|tail| - 1];
  }

  lemma {:induction false} RunConcat<W>(m: Machine<W>, deadline: int, a: seq<Step>, b: seq<Step>, s: Progress<W>)
    ensures RunSteps(m, deadline, a + b, s) == RunSteps(m, deadline, b, RunSteps(m, deadline, a, s))
    decreases |a|
  {
    if a == [] {
      assert a + b == b;
    } else if s.going {
      assert (a + b)[1..] == a[1..] + b;
      RunConcat(m, deadline, a[1..], b, Start(m, deadline, a[0].command, a[0].args, a[0].env, s));
    }
  }

  // ---------- what a run is, told by the exits of its processes ----------

  /** The world after these calls, one after the other. */
  function WorldAfter<W>(m: Machine<W>, calls: seq<Call>, world: W): W {
    if calls == [] then world else m.run(calls[|calls| - 1], WorldAfter(m, calls[..|calls| - 1], world)).1
  }

  /** The exit of each of these calls. */
  function ExitsOf<W>(m: Machine<W>, calls: seq<Call>, world: W): seq<Exit> {
    if calls == [] then []
    else
      var (front, last) := (calls[..|calls| - 1], calls[|calls| - 1]);
      ExitsOf(m, front, world) + [m.run(last, WorldAfter(m, front, world)).0]
  }

  /** The calls are the first steps, each with the time that is left, or a second. */
  ghost predicate CallsAre<W>(m: Machine<W>, deadline: int, steps: seq<Step>, calls: seq<Call>, world: W) {
    && |calls| <= |steps|
    && forall i :: 0 <= i < |calls| ==>
         var left := deadline - m.clock(WorldAfter(m, calls[..i], world));
         calls[i] == Call(steps[i].command, steps[i].args, steps[i].env, if left < 1_000 then 1_000 else left)
  }

  /** The report has the exit code of the last process, and its flags are those of all of them. */
  ghost predicate ReportsExits(report: Report, exits: seq<Exit>) {
    && |exits| == |report.calls|
    && report.exitCode == (if exits == [] then Some(0) else exits[|exits| - 1].exitCode)
    && (report.timedOut <==> exists i :: 0 <= i < |exits| && exits[i].timedOut)
    && (report.cancelled <==> exists i :: 0 <= i < |exits| && exits[i].cancelled)
    && (report.treeTerminated <==> forall i :: 0 <= i < |exits| ==> exits[i].treeTerminated)
  }

  /** Every process but the last has exited with 0, in time, not cancelled, and left nothing behind. */
  ghost predicate AllButLastSucceed(exits: seq<Exit>) {
    forall i :: 0 <= i < |exits| - 1 ==>
      exits[i].exitCode == Some(0) && !exits[i].timedOut && !exits[i].cancelled && exits[i].treeTerminated
  }

  ghost predicate LastFails(exits: seq<Exit>) {
    && exits != []
    && var e := exits[|exits| - 1];
       e.exitCode != Some(0) || e.timedOut || e.cancelled || !e.treeTerminated
  }

  /** Steps are started in order, up to the first whose process does not succeed. */
  ghost predicate StopsAtFailure<W>(m: Machine<W>, deadline: int, steps: seq<Step>, world: W, report: Report, end: W) {
    var exits := ExitsOf(m, report.calls, world);
    && CallsAre(m, deadline, steps, report.calls, world) && end == WorldAfter(m, report.calls, world)
    && ReportsExits(report, exits) && AllButLastSucceed(exits)
    && (|report.calls| < |steps| ==> LastFails(exits))
  }

  /** The loop part of the way through. */
  ghost predicate Underway<W>(m: Machine<W>, deadline: int, steps: seq<Step>, world: W, s: Progress<W>) {
    var exits := ExitsOf(m, s.report.calls, world);
    && CallsAre(m, deadline, steps, s.report.calls, world) && s.world == WorldAfter(m, s.report.calls, world)
    && ReportsExits(s.report, exits) && AllButLastSucceed(exits)
    && (s.going <==> !LastFails(exits))
  }

  lemma StartIsUnderway<W>(m: Machine<W>, deadline: int, steps: seq<Step>, world: W, s: Progress<W>)
    requires Underway(m, deadline, steps, world, s) && s.going && |s.report.calls| < |steps|
    ensures var step := steps[|s.report.calls|];
            Underway(m, deadline, steps, world, Start(m, deadline, step.command, step.args, step.env, s))
  {
    var (calls, step) := (s.report.calls, steps[|s.report.calls|]);
    var call := Call(step.command, step.args, step.env, Max(MIN_TIMEOUT, deadline - m.clock(s.world)));
    var exit := m.run(call, s.world).0;
    FoldMore(m, calls, call, world);
    OneMoreCall(m, deadline, steps, calls, call, world);
    OneMoreExit(s.report, ExitsOf(m, calls, world), call, exit);
    OneMoreSuccess(ExitsOf(m, calls, world), exit);
  }

  lemma FoldMore<W>(m: Machine<W>, calls: seq<Call>, call: Call, world: W)
    ensures var (exit, after) := m.run(call, WorldAfter(m, calls, world));
            WorldAfter(m, calls + [call], world) == after &&
            ExitsOf(m, calls + [call], world) == ExitsOf(m, calls, world) + [exit]
  {
    assert (calls + [call])[..|calls|] == calls;
  }

  lemma OneMoreSuccess(exits: seq<Exit>, exit: Exit)
    requires AllButLastSucceed(exits) && !LastFails(exits)
    ensures AllButLastSucceed(exits + [exit])
    ensures LastFails(exits + [exit]) <==> !Continues(exit)
  {
    assert forall i :: 0 <= i < |exits| ==> (exits + [exit])[i] == exits[i];
  }

  lemma OneMoreCall<W>(m: Machine<W>, deadline: int, steps: seq<Step>, calls: seq<Call>, call: Call, world: W)
    requires CallsAre(m, deadline, steps, calls, world) && |calls| < |steps|
    requires var left := deadline - m.clock(WorldAfter(m, calls, world));
             var step := steps[|calls|];
             call == Call(step.command, step.args, step.env, if left < 1_000 then 1_000 else left)
    ensures CallsAre(m, deadline, steps, calls + [call], world)
  {
    var more := calls + [call];
    assert forall i :: 0 <= i < |calls| ==> more[..i] == calls[..i];
    assert more[..|calls|] == calls;
  }

  lemma OneMoreExit(report: Report, exits: seq<Exit>, call: Call, exit: Exit)
    requires ReportsExits(report, exits)
    ensures ReportsExits(Observe(report, call, exit), exits + [exit])
  {
    var more := exits + [exit];
    assert more[|exits|] == exit;
    assert forall i :: 0 <= i < |exits| ==> more[i] == exits[i];
  }

  lemma {:induction false} RunStopsAtFailure<W>(m: Machine<W>, deadline: int, steps: seq<Step>, world: W,
                                                s: Progress<W>)
    requires Underway(m, deadline, steps, world, s)
    ensures var final := RunSteps(m, deadline, steps[|s.report.calls|..], s);
            StopsAtFailure(m, deadline, steps, world, final.report, final.world)
    decreases |steps| - |s.report.calls|
  {
    var n := |s.report.calls|;
    if n < |steps| && s.going {
      var next := Start(m, deadline, steps[n].command, steps[n].args, steps[n].env, s);
      StartIsUnderway(m, deadline, steps, world, s);
      RunStopsAtFailure(m, deadline, steps, world, next);
      assert steps[n..][0] == steps[n] && steps[n..][1..] == steps[n + 1..] && |next.report.calls| == n + 1;
    } else {
      UnderwayEnds(m, deadline, steps, world, s);
    }
  }

  lemma UnderwayEnds<W>(m: Machine<W>, deadline: int, steps: seq<Step>, world: W, s: Progress<W>)
    requires Underway(m, deadline, steps, world, s) && (|s.report.calls| < |steps| ==> !s.going)
    ensures StopsAtFailure(m, deadline, steps, world, s.report, s.world)
  {
  }

  lemma LoopStopsAtFailure<W>(m: Machine<W>, deadline: int, steps: seq<Step>, world: W)
    ensures var final := RunSteps(m, deadline, steps, Progress(NOTHING_RUN, world, true));
            StopsAtFailure(m, deadline, steps, world, final.report, final.world)
  {
    RunStopsAtFailure(m, deadline, steps, world, Progress(NOTHING_RUN, world, true));
    assert steps[0..] == steps;
  }

  // ---------- the step loop ----------

  function Views(steps: seq<SafeStep>): seq<Step>
    reads steps
  {
    seq(|steps|, i requires 0 <= i < |steps| reads steps => steps[i].View())
  }

  /** The step loop of `runBash`. */
  method RunPlan<W>(m: Machine<W>, steps: seq<SafeStep>, timeoutMs: int, world: W) returns (report: Report, end: W)
    ensures var final := RunSteps(m, m.clock(world) + timeoutMs, Views(steps), Progress(NOTHING_RUN, world, true));
            report == final.report && end == final.world
    ensures StopsAtFailure(m, m.clock(world) + timeoutMs, Views(steps), world, report, end)
  {
    report, end := StepLoop(m, steps, timeoutMs, world);
    RunIsStopped(m, m.clock(world) + timeoutMs, Views(steps), world, report, end);
  }

  method StepLoop<W>(m: Machine<W>, steps: seq<SafeStep>, timeoutMs: int, world: W) returns (report: Report, end: W)
    ensures var final := RunSteps(m, m.clock(world) + timeoutMs, Views(steps), Progress(NOTHING_RUN, world, true));
            report == final.report && end == final.world
  {
    ghost var plan := Views(steps);
    var deadline := m.clock(world) + timeoutMs;
    var calls: seq<Call> := [];
    var exitCode: Option<int>, cancelled, timedOut, treeTerminated := Some(0), false, false, true;
    end := world;
    var going := true;
    var i := 0;
    assert plan[0..] == plan;
    while i < |steps| && going
      invariant 0 <= i <= |steps|
      invariant RunSteps(m, deadline, plan, Progress(NOTHING_RUN, world, true)) ==
                RunSteps(m, deadline, plan[i..],
                         Progress(Report(calls, exitCode, cancelled, timedOut, treeTerminated), end, going))
      decreases |steps| - i, going
    {
      var remaining := Max(MIN_TIMEOUT, deadline - m.clock(end));
      var call := Call(steps[i].command, steps[i].args, steps[i].env, remaining);
      var (exit, after) := m.run(call, end);
      assert plan[i..][0] == steps[i].View() && plan[i..][1..] == plan[i + 1..];
      calls, end := calls + [call], after;
      exitCode := exit.exitCode;
      cancelled := cancelled || exit.cancelled;
      timedOut := timedOut || exit.timedOut;
      treeTerminated := treeTerminated && exit.treeTerminated;
      going := Continues(exit);
      i := i + 1;
    }
    report := Report(calls, exitCode, cancelled, timedOut, treeTerminated);
  }

  /**
    Safe mode from end to end: compile, then run under the shared deadline.  What happens is what
    evaluating the nested command directly would do.
  */
  method RunSafely<W(!new)>(p: Policy, m: Machine<W>, command: string, env: Env, requested: Option<int>, world: W)
    returns (r: Result<Report, Error>, end: W)
    ensures r.Ok? <==> Resolve(p, command, env, 0).Ok?
    ensures r.Err? ==> Resolve(p, command, env, 0) == Err(r.error) && end == world
    ensures r.Ok? ==>
              var direct := EvalCommand(p, m, false, m.clock(world) + TimeoutMs(requested), command,
                                        env, [], MAX_DEPTH + 1,
                                        Progress(NOTHING_RUN, world, true));
              direct.Some? && r.value == direct.value.report && end == direct.value.world
    ensures r.Ok? ==>
              StopsAtFailure(m, m.clock(world) + TimeoutMs(requested), Resolve(p, command, env, 0).value, world,
                             r.value, end)
    ensures r.Ok? && Timely(m) ==>
              m.clock(end) <= m.clock(world) + TimeoutMs(requested) +
                MIN_TIMEOUT * (|Resolve(p, command, env, 0).value| - 1)
  {
    r, end := CompileAndRun(p, m, command, env, 0, MAX_DEPTH + 1, requested, world);
    if r.Ok? {
      RunIsStopped(m, m.clock(world) + TimeoutMs(requested), Resolve(p, command, env, 0).value, world, r.value, end);
    }
  }

  lemma RunIsStopped<W>(m: Machine<W>, deadline: int, steps: seq<Step>, world: W, report: Report, end: W)
    requires IsRunOf(m, deadline, steps, world, report, end)
    ensures StopsAtFailure(m, deadline, steps, world, report, end)
  {
    LoopStopsAtFailure(m, deadline, steps, world);
  }

  ghost predicate IsRunOf<W>(m: Machine<W>, deadline: int, steps: seq<Step>, world: W, report: Report, end: W) {
    var final := RunSteps(m, deadline, steps, Progress(NOTHING_RUN, world, true));
    report == final.report && end == final.world
  }

  method CompileAndRun<W(!new)>(p: Policy, m: Machine<W>, command: string, env: Env, depth: nat, ghost fuel: nat,
                                requested: Option<int>, world: W)
    returns (r: Result<Report, Error>, end: W)
    requires fuel + depth >= MAX_DEPTH + 1
    ensures r.Ok? <==> Resolve(p, command, env, depth).Ok?
    ensures r.Err? ==> Resolve(p, command, env, depth) == Err(r.error) && end == world
    ensures r.Ok? ==>
              var direct := EvalCommand(p, m, false, m.clock(world) + TimeoutMs(requested), command, env, [], fuel,
                                        Progress(NOTHING_RUN, world, true));
              direct.Some? && r.value == direct.value.report && end == direct.value.world
    ensures r.Ok? ==>
              IsRunOf(m, m.clock(world) + TimeoutMs(requested), Resolve(p, command, env, depth).value, world,
                      r.value, end)
    ensures r.Ok? && Timely(m) ==>
              m.clock(end) <= m.clock(world) + TimeoutMs(requested) +
                MIN_TIMEOUT * (|Resolve(p, command, env, depth).value| - 1)
  {
    var resolved := ResolveSafeCommandPlan(p, command, env, depth);
    if resolved.Err? {
      return Err(resolved.error), world;
    }
    ghost var plan := Views(resolved.value);
    assert plan == Resolve(p, command, env, depth).value;
    var report;
    report, end := StepLoop(m, resolved.value, TimeoutMs(requested), world);
    SafeRun(p, m, command, env, depth, fuel, TimeoutMs(requested), world, report, end);
    r := Ok(report);
  }

  /** The flat loop over an accepted plan is direct evaluation and in time. */
  lemma SafeRun<W(!new)>(p: Policy, m: Machine<W>, command: string, env: Env, depth: nat, fuel: nat,
                         timeoutMs: int, world: W, report: Report, end: W)
    requires fuel + depth >= MAX_DEPTH + 1 && timeoutMs >= MIN_TIMEOUT && Resolve(p, command, env, depth).Ok?
    requires IsRunOf(m, m.clock(world) + timeoutMs, Resolve(p, command, env, depth).value, world, report, end)
    ensures var direct := EvalCommand(p, m, false, m.clock(world) + timeoutMs, command, env, [], fuel,
                                      Progress(NOTHING_RUN, world, true));
            direct.Some? && report == direct.value.report && end == direct.value.world
    ensures Timely(m) ==>
              m.clock(end) <= m.clock(world) + timeoutMs + MIN_TIMEOUT * (|Resolve(p, command, env, depth).value| - 1)
  {
    var plan := Resolve(p, command, env, depth).value;
    SafeRunDirect(p, m, command, env, depth, fuel, m.clock(world) + timeoutMs, Progress(NOTHING_RUN, world, true));
    PlanIsNotEmpty(p, command, env, depth);
    if Timely(m) {
      TimeBound(m, timeoutMs, plan, world);
    }
  }

  lemma SafeRunDirect<W>(p: Policy, m: Machine<W>, command: string, env: Env, depth: nat, fuel: nat, deadline: int,
                         s: Progress<W>)
    requires fuel + depth >= MAX_DEPTH + 1 && s.going && Resolve(p, command, env, depth).Ok?
    ensures EvalCommand(p, m, false, deadline, command, env, [], fuel, s) ==
            Some(RunSteps(m, deadline, Resolve(p, command, env, depth).value, s))
  {
    CommandMeaning(p, m, deadline, command, env, [], depth, fuel, s);
    AppendNothing(Resolve(p, command, env, depth).value);
  }

  // ---------- appending to compiled steps against appending to script text ----------

  /** Wherever the evaluation of `command` passes arguments on to a last segment, none is captured. */
  predicate AppendsCleanly(p: Policy, command: string, extra: seq<string>, fuel: nat)
    decreases fuel, 0
  {
    fuel > 0 ==>
      var segments := p.parse(command).segments;
      forall i :: 0 <= i < |segments| ==> AppendsCleanlyAt(p, segments[i], ExtraFor(segments[i..], extra), fuel - 1)
  }

  predicate AppendsCleanlyAt(p: Policy, segment: Segment, extra: seq<string>, fuel: nat)
    decreases fuel, 1
  {
    ParseEnv(segment.argv).Ok? && ParseEnv(segment.argv).value.argv != [] ==>
      var argv := ParseEnv(segment.argv).value.argv;
      var target := Extend(TargetOf(p, argv), extra);
      && (extra != [] ==> !Captures(p, argv, extra))
      && (target.Script? && ScriptText(p, target.script).Ok? ==>
            AppendsCleanly(p, ScriptText(p, target.script).value, target.extraArgs, fuel))
  }

  /** Where nothing is captured, an accepted plan also means the command with arguments written into the script text. */
  lemma PlanMeansAppendedText<W>(p: Policy, m: Machine<W>, deadline: int, command: string, env: Env, s: Progress<W>)
    requires Resolve(p, command, env, 0).Ok? && s.going
    requires AppendsCleanly(p, command, [], MAX_DEPTH + 1)
    ensures EvalCommand(p, m, true, deadline, command, env, [], MAX_DEPTH + 1, s) ==
            Some(RunSteps(m, deadline, Resolve(p, command, env, 0).value, s))
  {
    PlanMeansCommand(p, m, deadline, command, env, s);
    WordsOrSteps(p, m, deadline, command, env, [], MAX_DEPTH + 1, s);
  }

  lemma {:induction false} WordsOrSteps<W>(p: Policy, m: Machine<W>, deadline: int, command: string, env: Env,
                                           extra: seq<string>,
                                           fuel: nat, s: Progress<W>)
    requires AppendsCleanly(p, command, extra, fuel)
    ensures EvalCommand(p, m, true, deadline, command, env, extra, fuel, s) ==
            EvalCommand(p, m, false, deadline, command, env, extra, fuel, s)
    decreases fuel, 0, 2
  {
    if fuel > 0 {
      WordsOrStepsSegments(p, m, deadline, p.parse(command).segments, 0, env, extra, fuel - 1, s);
    }
  }

  lemma {:induction false} WordsOrStepsSegments<W>(p: Policy, m: Machine<W>, deadline: int, segments: seq<Segment>,
                                                   from: nat, env: Env,
                                                   extra: seq<string>, fuel: nat, s: Progress<W>)
    requires from <= |segments|
    requires forall i :: 0 <= i < |segments| ==> AppendsCleanlyAt(p, segments[i], ExtraFor(segments[i..], extra), fuel)
    ensures EvalSegments(p, m, true, deadline, segments[from..], env, extra, fuel, s) ==
            EvalSegments(p, m, false, deadline, segments[from..], env, extra, fuel, s)
    decreases fuel, |segments| - from + 1, 1
  {
    if from < |segments| && s.going {
      var rest := segments[from..];
      assert rest[0] == segments[from] && rest[1..] == segments[from + 1..];
      WordsOrStepsSegment(p, m, deadline, rest[0], env, ExtraFor(rest, extra), fuel, s);
      var next := EvalSegment(p, m, false, deadline, rest[0], env, ExtraFor(rest, extra), fuel, s);
      if next.Some? {
        WordsOrStepsSegments(p, m, deadline, segments, from + 1, env, extra, fuel, next.value);
      }
    }
  }

  lemma {:induction false} WordsOrStepsSegment<W>(p: Policy, m: Machine<W>, deadline: int, segment: Segment, env: Env,
                                                  extra: seq<string>,
                                                  fuel: nat, s: Progress<W>)
    requires AppendsCleanlyAt(p, segment, extra, fuel)
    ensures EvalSegment(p, m, true, deadline, segment, env, extra, fuel, s) ==
            EvalSegment(p, m, false, deadline, segment, env, extra, fuel, s)
    decreases fuel, 1, 0
  {
    if ParseEnv(segment.argv).Ok? && ParseEnv(segment.argv).value.argv != [] {
      var parsed := ParseEnv(segment.argv).value;
      if extra == [] {
        assert parsed.argv + extra == parsed.argv;
        match TargetOf(p, parsed.argv) {
          case Script(_, extraArgs) => assert extraArgs + [] == extraArgs;
          case Process(argv) => assert argv + [] == argv;
        }
      } else {
        AppendAgreesIff(p, parsed.argv, extra);
      }
      var target := Extend(TargetOf(p, parsed.argv), extra);
      if target.Script? && ScriptText(p, target.script).Ok? {
        WordsOrSteps(p, m, deadline, ScriptText(p, target.script).value, env + parsed.env, target.extraArgs, fuel, s);
      }
    }
  }

  /** Script `a` is "npm run b" and script `b` is "tool". */
  function ForwardingPolicy(): Policy {
    Policy(
      c => CommandIR([Segment(c, if c == FORWARDING_COMMAND then OUTER_WORDS
                                 else if c == "npm run b" then INNER_WORDS else [c])], []),
      Some(map["a" := "npm run b", "b" := "tool"]), _ => false, _ => true, w => w, (command, _) => command)
  }

  const FORWARDING_COMMAND := "npm run a -- -- x"

  /**
    The condition is needed: the compiled plan of `npm run a -- -- x` starts `tool -- x`, while
    `npm run b -- x`, the script text with the arguments written after it, starts `tool x`.
  */
  lemma AppendedMarkerIsKept<W>(m: Machine<W>, deadline: int, s: Progress<W>)
    requires s.going
    ensures Resolve(ForwardingPolicy(), FORWARDING_COMMAND, map[], 0) == Ok([Step("tool", ["--", "x"], map[])])
    ensures EvalCommand(ForwardingPolicy(), m, true, deadline, FORWARDING_COMMAND, map[], [], MAX_DEPTH + 1, s) ==
            Some(RunSteps(m, deadline, [Step("tool", ["x"], map[])], s))
  {
    MarkerPlan(0);
    OuterText(m, deadline, MAX_DEPTH + 1, s);
  }

  const OUTER_WORDS := ["npm", "run", "a", "--", "--", "x"]
  const INNER_WORDS := ["npm", "run", "b"]

  lemma OuterRequest()
    ensures TargetOf(ForwardingPolicy(), OUTER_WORDS) == Script("a", ["--", "x"])
    ensures ParseEnv(OUTER_WORDS) == Ok(Parsed(map[], OUTER_WORDS))
  {
    assert OUTER_WORDS[3..] == ["--", "--", "x"] && ["--", "--", "x"][1..] == ["--", "x"];
  }

  lemma InnerRequest()
    ensures TargetOf(ForwardingPolicy(), INNER_WORDS) == Script("b", [])
    ensures TargetOf(ForwardingPolicy(), INNER_WORDS + ["--", "x"]) == Script("b", ["x"])
    ensures ParseEnv(INNER_WORDS) == Ok(Parsed(map[], INNER_WORDS))
  {
    assert INNER_WORDS + ["--", "x"] == ["npm", "run", "b", "--", "x"];
    assert ["npm", "run", "b", "--", "x"][3..] == ["--", "x"] && ["--", "x"][1..] == ["x"];
  }

  lemma ToolRequest()
    ensures TargetOf(ForwardingPolicy(), ["tool"]) == Process(["tool"])
    ensures TargetOf(ForwardingPolicy(), ["tool"] + ["x"]) == Process(["tool", "x"])
    ensures ParseEnv(["tool"]) == Ok(Parsed(map[], ["tool"]))
  {
  }

  lemma ToolPlan(depth: nat)
    requires depth <= MAX_DEPTH
    ensures Resolve(ForwardingPolicy(), "tool", map[], depth) == Ok([Step("tool", [], map[])])
  {
    var p := ForwardingPolicy();
    var none: Env := map[];
    ToolRequest();
    assert none + none == none && ["tool"][1..] == [];
    SingleSegment(p, "tool", none, depth);
  }

  lemma InnerCallPlan(depth: nat)
    requires depth < MAX_DEPTH
    ensures Resolve(ForwardingPolicy(), "npm run b", map[], depth) == Ok([Step("tool", [], map[])])
  {
    var steps := [Step("tool", [], map[])];
    InnerRequest();
    ToolPlan(depth + 1);
    OneCall(ForwardingPolicy(), "npm run b", INNER_WORDS, depth, "b", [], steps);
    AppendNothing(steps);
  }

  lemma MarkerPlan(depth: nat)
    requires depth < MAX_DEPTH - 1
    ensures Resolve(ForwardingPolicy(), FORWARDING_COMMAND, map[], depth) == Ok([Step("tool", ["--", "x"], map[])])
  {
    OuterRequest();
    InnerCallPlan(depth + 1);
    MarkerIsSafe();
    OneCall(ForwardingPolicy(), FORWARDING_COMMAND, OUTER_WORDS, depth, "a", ["--", "x"], [Step("tool", [], map[])]);
  }

  lemma OneCall(p: Policy, command: string, argv: seq<string>, depth: nat, name: string, extra: seq<string>,
                steps: seq<Step>)
    requires depth < MAX_DEPTH && argv != []
    requires p.parse(command) == CommandIR([Segment(command, argv)], [])
    requires ParseEnv(argv) == Ok(Parsed(map[], argv)) && TargetOf(p, argv) == Script(name, extra) && !UnsafeArgs(extra)
    requires ScriptText(p, name).Ok? && Resolve(p, ScriptText(p, name).value, map[], depth + 1) == Ok(steps)
    ensures Resolve(p, command, map[], depth) == Ok(AppendToLast(steps, extra))
  {
    SingleSegment(p, command, map[], depth);
    CallSegment(p, Segment(command, argv), map[], depth, name, extra);
  }

  lemma MarkerIsSafe()
    ensures !UnsafeArgs(["--", "x"])
    ensures AppendToLast([Step("tool", [], map[])], ["--", "x"]) == [Step("tool", ["--", "x"], map[])]
  {
    assert [] + ["--", "x"] == ["--", "x"];
  }

  lemma CallSegment(p: Policy, segment: Segment, env: Env, depth: nat, name: string, extra: seq<string>)
    requires depth < MAX_DEPTH
    requires ParseEnv(segment.argv) == Ok(Parsed(map[], segment.argv)) && segment.argv != []
    requires TargetOf(p, segment.argv) == Script(name, extra)
    requires ScriptText(p, name).Ok? && Resolve(p, ScriptText(p, name).value, env, depth + 1).Ok?
    requires !UnsafeArgs(extra)
    ensures ResolveSegment(p, segment, env, depth) ==
            Ok(AppendToLast(Resolve(p, ScriptText(p, name).value, env, depth + 1).value, extra))
  {
    var none: Env := map[];
    assert env + none == env;
    PlanIsNotEmpty(p, ScriptText(p, name).value, env, depth + 1);
    AppendNothing(Resolve(p, ScriptText(p, name).value, env, depth + 1).value);
  }

  /** Read as words, the outer call passes `-- x` on, the inner one `x`. */
  lemma OuterText<W>(m: Machine<W>, deadline: int, fuel: nat, s: Progress<W>)
    requires s.going && fuel > 2
    ensures EvalCommand(ForwardingPolicy(), m, true, deadline, FORWARDING_COMMAND, map[], [], fuel, s) ==
            Some(RunSteps(m, deadline, [Step("tool", ["x"], map[])], s))
  {
    OuterRequest();
    assert OUTER_WORDS + [] == OUTER_WORDS;
    OneCallText(ForwardingPolicy(), m, deadline, FORWARDING_COMMAND, OUTER_WORDS, [], "a", ["--", "x"], fuel, s);
    InnerText(m, deadline, fuel - 1, s);
  }

  lemma InnerText<W>(m: Machine<W>, deadline: int, fuel: nat, s: Progress<W>)
    requires s.going && fuel > 1
    ensures EvalCommand(ForwardingPolicy(), m, true, deadline, "npm run b", map[], ["--", "x"], fuel, s) ==
            Some(RunSteps(m, deadline, [Step("tool", ["x"], map[])], s))
  {
    InnerRequest();
    OneCallText(ForwardingPolicy(), m, deadline, "npm run b", INNER_WORDS, ["--", "x"], "b", ["x"], fuel, s);
    ToolText(m, deadline, fuel - 1, s);
  }

  lemma ToolText<W>(m: Machine<W>, deadline: int, fuel: nat, s: Progress<W>)
    requires s.going && fuel > 0
    ensures EvalCommand(ForwardingPolicy(), m, true, deadline, "tool", map[], ["x"], fuel, s) ==
            Some(RunSteps(m, deadline, [Step("tool", ["x"], map[])], s))
  {
    var none: Env := map[];
    ToolRequest();
    SingleSegmentEval(ForwardingPolicy(), m, deadline, "tool", none, ["x"], fuel, s);
    assert none + none == none && ["tool", "x"][1..] == ["x"];
    var steps := [Step("tool", ["x"], none)];
    assert steps[1..] == [];
  }

  lemma OneCallText<W>(p: Policy, m: Machine<W>, deadline: int, command: string, argv: seq<string>,
                       extra: seq<string>, name: string, passed: seq<string>, fuel: nat, s: Progress<W>)
    requires fuel > 1 && s.going && argv != []
    requires p.parse(command) == CommandIR([Segment(command, argv)], [])
    requires ParseEnv(argv) == Ok(Parsed(map[], argv)) && TargetOf(p, argv + extra) == Script(name, passed)
    requires ScriptText(p, name).Ok?
    ensures EvalCommand(p, m, true, deadline, command, map[], extra, fuel, s) ==
            EvalCommand(p, m, true, deadline, ScriptText(p, name).value, map[], passed, fuel - 1, s)
  {
    var none: Env := map[];
    SingleSegmentEval(p, m, deadline, command, none, extra, fuel, s);
    assert none + none == none;
  }

  lemma SingleSegment(p: Policy, command: string, env: Env, depth: nat)
    requires depth <= MAX_DEPTH
    requires |p.parse(command).segments| == 1 && p.parse(command).operators == []
    ensures Resolve(p, command, env, depth) == ResolveSegment(p, p.parse(command).segments[0], env, depth)
  {
    var segments := p.parse(command).segments;
    var head := ResolveSegment(p, segments[0], env, depth);
    assert ResolveSegments(p, segments[1..], env, depth) == Ok([]);
    assert head.Ok? ==> head.value + [] == head.value;
  }

  lemma SingleSegmentEval<W>(p: Policy, m: Machine<W>, deadline: int, command: string, env: Env, extra: seq<string>,
                             fuel: nat, s: Progress<W>)
    requires fuel > 0 && s.going
    requires |p.parse(command).segments| == 1
    ensures EvalCommand(p, m, true, deadline, command, env, extra, fuel, s) ==
            EvalSegment(p, m, true, deadline, p.parse(command).segments[0], env, extra, fuel - 1, s)
  {
    var segments := p.parse(command).segments;
    assert segments[1..] == [];
    var first := EvalSegment(p, m, true, deadline, segments[0], env, extra, fuel - 1, s);
    assert first.Some? ==> EvalSegments(p, m, true, deadline, [], env, extra, fuel - 1, first.value) == first;
  }

  // ---------- time ----------

  /** Time passes only inside processes, and each returns within the limit it is handed. */
  ghost predicate Timely<W(!new)>(m: Machine<W>) {
    forall call: Call, w: W | 0 <= call.timeoutMs ::
      m.clock(w) <= m.clock(m.run(call, w).1) <= m.clock(w) + call.timeoutMs
  }

  /** A world that is only a clock, on which each process takes all the time it may. */
  function SlowMachine(exit: Exit): Machine<int> {
    Machine((call: Call, now: int) => (exit, now + Max(0, call.timeoutMs)), (now: int) => now)
  }

  lemma SlowMachineIsTimely(exit: Exit)
    ensures Timely(SlowMachine(exit))
  {
  }

  const SUCCESS := Exit(Some(0), false, false, true)

  /** On it the bound is reached by every plan whose processes all succeed. */
  lemma BoundIsReached(timeoutMs: int, steps: seq<Step>, world: int)
    requires timeoutMs >= MIN_TIMEOUT && steps != []
    ensures RunSteps(SlowMachine(SUCCESS), world + timeoutMs, steps, Progress(NOTHING_RUN, world, true)).world ==
            world + timeoutMs + MIN_TIMEOUT * (|steps| - 1)
  {
    var (m, step) := (SlowMachine(SUCCESS), steps[0]);
    LateByAll(world + timeoutMs, steps[1..],
              Start(m, world + timeoutMs, step.command, step.args, step.env, Progress(NOTHING_RUN, world, true)));
  }

  lemma {:induction false} LateByAll(deadline: int, steps: seq<Step>, s: Progress<int>)
    requires s.going && deadline <= s.world
    ensures RunSteps(SlowMachine(SUCCESS), deadline, steps, s).world == s.world + MIN_TIMEOUT * |steps|
    decreases |steps|
  {
    if steps != [] {
      var (m, step) := (SlowMachine(SUCCESS), steps[0]);
      LateByAll(deadline, steps[1..], Start(m, deadline, step.command, step.args, step.env, s));
    }
  }

  /** A plan of n steps ends within `timeoutMs` + 1000(n - 1) of its start. */
  lemma TimeBound<W(!new)>(m: Machine<W>, timeoutMs: int, steps: seq<Step>, world: W)
    requires Timely(m)
    requires timeoutMs >= MIN_TIMEOUT && steps != []
    ensures var final := RunSteps(m, m.clock(world) + timeoutMs, steps, Progress(NOTHING_RUN, world, true)).world;
            m.clock(world) <= m.clock(final) <= m.clock(world) + timeoutMs + MIN_TIMEOUT * (|steps| - 1)
  {
    var deadline := m.clock(world) + timeoutMs;
    var first := Start(m, deadline, steps[0].command, steps[0].args, steps[0].env, Progress(NOTHING_RUN, world, true));
    LateBy(m, deadline, steps[1..], first, 0);
  }

  lemma {:induction false} LateBy<W(!new)>(m: Machine<W>, deadline: int, steps: seq<Step>, s: Progress<W>, late: nat)
    requires Timely(m)
    requires m.clock(s.world) <= deadline + late
    ensures m.clock(s.world) <= m.clock(RunSteps(m, deadline, steps, s).world) <=
            deadline + late + MIN_TIMEOUT * |steps|
    decreases |steps|
  {
    if steps != [] && s.going {
      var next := Start(m, deadline, steps[0].command, steps[0].args, steps[0].env, s);
      LateBy(m, deadline, steps[1..], next, late + MIN_TIMEOUT);
    }
  }
}
