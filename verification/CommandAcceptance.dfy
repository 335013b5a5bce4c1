/**
  Which commands the compiler accepts, stated without its recursion: by the call paths that start
  at the command.  Consequences are that self-reaching scripts are refused, and a bound on plans.
*/
module CommandAcceptance {
  import opened Wrappers
  import opened CommandPlan

  /** The checks one segment faces on its own, apart from those inside the script it calls. */
  predicate SegmentSafe(p: Policy, segment: Segment) {
    && ParseEnv(segment.argv).Ok?
    && var argv := ParseEnv(segment.argv).value.argv;
       && argv != []
       && match PackageScriptRequest(p, argv)
          case Some(request) => ScriptText(p, request.script).Ok? && !UnsafeArgs(request.extraArgs)
          case None => p.safeExecutable(argv)
  }

  predicate CommandSafe(p: Policy, command: string) {
    && SafeSegments(p, command).Ok?
    && forall i :: 0 <= i < |SafeSegments(p, command).value| ==> SegmentSafe(p, SafeSegments(p, command).value[i])
  }

  /** The script text a segment calls, if it is a package-script call of a usable script. */
  function Callee(p: Policy, segment: Segment): Option<string> {
    if ParseEnv(segment.argv).Err? then None
    else
      match PackageScriptRequest(p, ParseEnv(segment.argv).value.argv)
      case None => None
      case Some(request) =>
        match ScriptText(p, request.script)
        case Err(_) => None
        case Ok(text) => Some(text)
  }

  /** Running `caller` calls a script whose text is `callee`. */
  ghost predicate Calls(p: Policy, caller: string, callee: string) {
    && SafeSegments(p, caller).Ok?
    && exists i ::
         0 <= i < |SafeSegments(p, caller).value| && Callee(p, SafeSegments(p, caller).value[i]) == Some(callee)
  }

  ghost predicate CallPath(p: Policy, path: seq<string>, source: string) {
    && path != []
    && path[0] == source
    && forall i :: 0 < i < |path| ==> Calls(p, path[i - 1], path[i])
  }

  /** The call path neither nests too deep for a command at `depth` nor ends in an unsafe command. */
  ghost predicate PathAllowed(p: Policy, path: seq<string>, depth: nat)
    requires path != []
  {
    |path| + depth <= MAX_DEPTH + 1 && CommandSafe(p, path[|path| - 1])
  }

  /**
    A command is accepted exactly when no chain of script calls that starts at it nests more than
    eight scripts or ends at an unsafe command.  The environment plays no part.
  */
  lemma AcceptedIff(p: Policy, command: string, env: Env, depth: nat)
    ensures Resolve(p, command, env, depth).Ok? <==>
            forall path :: CallPath(p, path, command) ==> PathAllowed(p, path, depth)
  {
    if Resolve(p, command, env, depth).Ok? {
      forall path | CallPath(p, path, command)
        ensures PathAllowed(p, path, depth)
      {
        AcceptedPaths(p, command, env, depth, path);
      }
    } else {
      var path := RefusingPath(p, command, env, depth);
      assert CallPath(p, path, command) && !PathAllowed(p, path, depth);
    }
  }

  lemma {:induction false} SegmentsAccepted(p: Policy, segments: seq<Segment>, env: Env, depth: nat)
    requires depth <= MAX_DEPTH
    ensures ResolveSegments(p, segments, env, depth).Ok? <==>
            forall i :: 0 <= i < |segments| ==> ResolveSegment(p, segments[i], env, depth).Ok?
  {
    if segments != [] {
      var rest := segments[1..];
      SegmentsAccepted(p, rest, env, depth);
      if i :| 0 <= i < |rest| && !ResolveSegment(p, rest[i], env, depth).Ok? {
        assert segments[i + 1] == rest[i];
      } else if ResolveSegment(p, segments[0], env, depth).Ok? {
        forall i | 0 <= i < |segments| ensures ResolveSegment(p, segments[i], env, depth).Ok? {
          assert i > 0 ==> segments[i] == rest[i - 1];
        }
      }
    }
  }

  /** An accepted command has at least one step. */
  lemma {:induction false} PlanIsNotEmpty(p: Policy, command: string, env: Env, depth: nat)
    requires Resolve(p, command, env, depth).Ok?
    ensures Resolve(p, command, env, depth).value != []
    decreases if depth > MAX_DEPTH then 0 else MAX_DEPTH + 1 - depth
  {
    var segments := SafeSegments(p, command).value;
    SegmentsAccepted(p, segments, env, depth);
    assert ResolveSegment(p, segments[0], env, depth).Ok?;
    if Callee(p, segments[0]).Some? {
      PlanIsNotEmpty(p, Callee(p, segments[0]).value, CallEnv(segments[0], env), depth + 1);
    }
  }

  function CallEnv(segment: Segment, env: Env): Env {
    if ParseEnv(segment.argv).Ok? then env + ParseEnv(segment.argv).value.env else env
  }

  /** A segment is accepted exactly when it is safe and the script it calls, if any, is accepted. */
  lemma SegmentAccepted(p: Policy, segment: Segment, env: Env, depth: nat)
    requires depth <= MAX_DEPTH
    ensures ResolveSegment(p, segment, env, depth).Ok? <==>
            && SegmentSafe(p, segment)
            && (Callee(p, segment).Some? ==> Resolve(p, Callee(p, segment).value, CallEnv(segment, env), depth + 1).Ok?)
  {
    if SegmentSafe(p, segment) && Callee(p, segment).Some? {
      var nested := Resolve(p, Callee(p, segment).value, CallEnv(segment, env), depth + 1);
      if nested.Ok? {
        PlanIsNotEmpty(p, Callee(p, segment).value, CallEnv(segment, env), depth + 1);
      }
    }
  }

  ghost predicate CalleesAccepted(p: Policy, segments: seq<Segment>, env: Env, depth: nat) {
    forall i :: 0 <= i < |segments| && Callee(p, segments[i]).Some? ==>
      Resolve(p, Callee(p, segments[i]).value, CallEnv(segments[i], env), depth + 1).Ok?
  }

  lemma CommandAccepted(p: Policy, command: string, env: Env, depth: nat)
    ensures Resolve(p, command, env, depth).Ok? <==>
            && depth <= MAX_DEPTH
            && CommandSafe(p, command)
            && CalleesAccepted(p, SafeSegments(p, command).value, env, depth)
  {
    if depth <= MAX_DEPTH && SafeSegments(p, command).Ok? {
      var segments := SafeSegments(p, command).value;
      SegmentsAccepted(p, segments, env, depth);
      forall i | 0 <= i < |segments|
        ensures ResolveSegment(p, segments[i], env, depth).Ok? <==>
                && SegmentSafe(p, segments[i])
                && (Callee(p, segments[i]).Some? ==>
                      Resolve(p, Callee(p, segments[i]).value, CallEnv(segments[i], env), depth + 1).Ok?)
      {
        SegmentAccepted(p, segments[i], env, depth);
      }
    }
  }

  lemma {:induction false} AcceptedPaths(p: Policy, command: string, env: Env, depth: nat, path: seq<string>)
    requires Resolve(p, command, env, depth).Ok?
    requires CallPath(p, path, command)
    ensures PathAllowed(p, path, depth)
    decreases |path|
  {
    CommandAccepted(p, command, env, depth);
    if |path| > 1 {
      var env' := AcceptedCallee(p, command, env, depth, path[1]);
      AcceptedPaths(p, path[1], env', depth + 1, path[1..]);
    }
  }

  lemma AcceptedCallee(p: Policy, command: string, env: Env, depth: nat, callee: string) returns (env': Env)
    requires Resolve(p, command, env, depth).Ok?
    requires Calls(p, command, callee)
    ensures Resolve(p, callee, env', depth + 1).Ok?
  {
    CommandAccepted(p, command, env, depth);
    var segments := SafeSegments(p, command).value;
    var i :| 0 <= i < |segments| && Callee(p, segments[i]) == Some(callee);
    env' := CallEnv(segments[i], env);
  }

  /** A refused command comes with a call path that shows why. */
  lemma {:induction false} RefusingPath(p: Policy, command: string, env: Env, depth: nat) returns (path: seq<string>)
    requires Resolve(p, command, env, depth).Err?
    ensures CallPath(p, path, command) && !PathAllowed(p, path, depth)
    decreases if depth > MAX_DEPTH then 0 else MAX_DEPTH + 1 - depth
  {
    path := [command];
    if depth <= MAX_DEPTH && CommandSafe(p, command) {
      var script, env' := RefusedCallee(p, command, env, depth);
      var rest := RefusingPath(p, script, env', depth + 1);
      LongerPath(p, command, script, rest, depth);
      path := [command] + rest;
    }
  }

  lemma LongerPath(p: Policy, command: string, callee: string, rest: seq<string>, depth: nat)
    requires Calls(p, command, callee) && CallPath(p, rest, callee) && !PathAllowed(p, rest, depth + 1)
    ensures CallPath(p, [command] + rest, command) && !PathAllowed(p, [command] + rest, depth)
  {
    assert ([command] + rest)[1..] == rest;
  }

  lemma RefusedCallee(p: Policy, command: string, env: Env, depth: nat) returns (callee: string, env': Env)
    requires depth <= MAX_DEPTH && CommandSafe(p, command)
    requires Resolve(p, command, env, depth).Err?
    ensures Calls(p, command, callee) && Resolve(p, callee, env', depth + 1).Err?
  {
    CommandAccepted(p, command, env, depth);
    var segments := SafeSegments(p, command).value;
    var i :| 0 <= i < |segments| && Callee(p, segments[i]).Some?
             && Resolve(p, Callee(p, segments[i]).value, CallEnv(segments[i], env), depth + 1).Err?;
    callee, env' := Callee(p, segments[i]).value, CallEnv(segments[i], env);
  }

  // ---------- self-reaching scripts ----------

  /** A script that can reach itself is refused from every command that can reach it, at any depth. */
  lemma SelfReachingIsRefused(p: Policy, command: string, env: Env, depth: nat, approach: seq<string>,
                              cycle: seq<string>)
    requires CallPath(p, approach, command)
    requires CallPath(p, cycle, approach[|approach| - 1])
    requires |cycle| > 1 && cycle[|cycle| - 1] == cycle[0]
    ensures Resolve(p, command, env, depth).Err?
  {
    var tour := Pump(p, cycle, MAX_DEPTH + 1);
    var path := approach + tour[1..];
    forall i | 0 < i < |path|
      ensures Calls(p, path[i - 1], path[i])
    {
      if i >= |approach| {
        assert path[i] == tour[i - |approach| + 1];
        assert path[i - 1] == tour[i - |approach|];
      }
    }
    assert CallPath(p, path, command) && !PathAllowed(p, path, depth);
    AcceptedIff(p, command, env, depth);
  }

  /** Going round a cycle often enough makes an arbitrarily long path. */
  lemma {:induction false} Pump(p: Policy, cycle: seq<string>, n: nat) returns (tour: seq<string>)
    requires cycle != [] && CallPath(p, cycle, cycle[0])
    requires |cycle| > 1 && cycle[|cycle| - 1] == cycle[0]
    ensures CallPath(p, tour, cycle[0]) && |tour| > n
  {
    if n == 0 {
      tour := [cycle[0]];
    } else {
      var shorter := Pump(p, cycle, n - 1);
      tour := cycle + shorter[1..];
      forall i | 0 < i < |tour|
        ensures Calls(p, tour[i - 1], tour[i])
      {
        if i >= |cycle| {
          assert tour[i] == shorter[i - |cycle| + 1];
          assert tour[i - 1] == shorter[i - |cycle|];
        }
      }
    }
  }

  /** From the start: no chain has more than eight scripts after the command, and each ends safely. */
  lemma AcceptedFromTheStart(p: Policy, command: string, env: Env)
    ensures Resolve(p, command, env, 0).Ok? <==>
            forall path :: CallPath(p, path, command) ==> |path| <= 9 && CommandSafe(p, path[|path| - 1])
  {
    AcceptedIff(p, command, env, 0);
    assert forall path :: CallPath(p, path, command) ==>
      (PathAllowed(p, path, 0) <==> |path| <= 9 && CommandSafe(p, path[|path| - 1]));
  }

  // ---------- size ----------

  function Power(k: nat, n: nat): nat {
    if n == 0 then 1 else k * Power(k, n - 1)
  }

  /** No script text has more than `k` segments. */
  predicate ScriptsAreShort(p: Policy, k: nat) {
    p.scripts.Some? ==> forall name :: name in p.scripts.value ==> |p.parse(p.scripts.value[name]).segments| <= k
  }

  /** With at most `k` segments to the command and to each script, a plan has between one and `k`^9 steps. */
  lemma {:induction false} PlanIsBounded(p: Policy, command: string, env: Env, depth: nat, k: nat)
    requires |p.parse(command).segments| <= k && ScriptsAreShort(p, k)
    requires Resolve(p, command, env, depth).Ok?
    ensures depth <= 8 && 1 <= |Resolve(p, command, env, depth).value| <= Power(k, 9 - depth)
    decreases if depth > MAX_DEPTH then 0 else MAX_DEPTH + 1 - depth, 1, 0
  {
    PlanIsNotEmpty(p, command, env, depth);
    var segments := SafeSegments(p, command).value;
    SegmentsAreBounded(p, segments, env, depth, k);
    assert |segments| <= k;
    MulMonotone(|segments|, k, Power(k, MAX_DEPTH - depth));
  }

  lemma {:induction false} SegmentsAreBounded(p: Policy, segments: seq<Segment>, env: Env, depth: nat, k: nat)
    requires ScriptsAreShort(p, k)
    requires |segments| <= k && depth <= MAX_DEPTH
    requires ResolveSegments(p, segments, env, depth).Ok?
    ensures |ResolveSegments(p, segments, env, depth).value| <= |segments| * Power(k, MAX_DEPTH - depth)
    decreases MAX_DEPTH + 1 - depth, 0, |segments|
  {
    if segments != [] {
      var unit := Power(k, MAX_DEPTH - depth);
      SegmentsAreBounded(p, segments[1..], env, depth, k);
      SegmentIsBounded(p, segments[0], env, depth, k);
      assert |segments| * unit == (|segments| - 1) * unit + unit;
    }
  }

  lemma {:induction false} SegmentIsBounded(p: Policy, segment: Segment, env: Env, depth: nat, k: nat)
    requires ScriptsAreShort(p, k)
    requires 0 < k && depth <= MAX_DEPTH
    requires ResolveSegment(p, segment, env, depth).Ok?
    ensures |ResolveSegment(p, segment, env, depth).value| <= Power(k, MAX_DEPTH - depth)
    decreases MAX_DEPTH + 1 - depth, 0, 0
  {
    SegmentAccepted(p, segment, env, depth);
    if Callee(p, segment).Some? {
      PlanIsBounded(p, Callee(p, segment).value, CallEnv(segment, env), depth + 1, k);
    } else {
      PowerPositive(k, MAX_DEPTH - depth);
    }
  }

  lemma PowerPositive(k: nat, n: nat)
    requires k > 0
    ensures Power(k, n) >= 1
  {
  }

  lemma MulMonotone(a: nat, b: nat, c: nat)
    requires a <= b
    ensures a * c <= b * c
  {
  }
}
