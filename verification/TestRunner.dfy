/** From a test process to a classified test run: the launcher, `PytestTestRunner.run` and the `TestRun` contract. */
module TestRunner {
  import opened Base
  import opened Lines
  import opened Capture

  datatype TestPhase = Baseline | Focused | PostPatch | Recovery | ResumeValidation | RequestedFull

  datatype TestRunOutcome =
    | Passed | Failed | TimedOut | ResourceLimit | EnvironmentError | Unparseable | Cancelled | UnknownOutcome
    | WorkspaceDrift

  datatype LaunchStatus =
    Completed | LaunchTimedOut | LaunchResourceLimit | LaunchEnvironmentError | LaunchCancelled | Unknown

  datatype LaunchResult = LaunchResult(
    status: LaunchStatus,
    exitCode: Option<int>,
    stdout: Bytes,
    stderr: Bytes,
    stdoutTruncated: bool,
    stderrTruncated: bool)

  const MAX_OUTPUT_BYTES: nat := 1_048_576

  /** What `LaunchResult` and `BoundedRawOutput` accept. */
  predicate ValidLaunch(r: LaunchResult) {
    && (r.status in {LaunchTimedOut, LaunchCancelled, Unknown} ==> r.exitCode == None)
    && (r.status == Completed ==> r.exitCode != None)
    && |r.stdout| <= MAX_OUTPUT_BYTES && |r.stderr| <= MAX_OUTPUT_BYTES
  }

  /** A started process: its exit code unless it timed out, and what was read from its streams, chunk by chunk. */
  datatype Process = Process(exitCode: Option<int>, stdout: seq<Bytes>, stderr: seq<Bytes>)

  /** The result of launching; `None` stands for a process that could not be started. */
  function Launched(process: Option<Process>): LaunchResult {
    match process
    case None => LaunchResult(LaunchEnvironmentError, None, [], [], false, false)
    case Some(p) =>
      LaunchResult(if p.exitCode == None then LaunchTimedOut else Completed, p.exitCode,
        Truncation(Concat(p.stdout), MAX_OUTPUT_BYTES), Truncation(Concat(p.stderr), MAX_OUTPUT_BYTES),
        |Concat(p.stdout)| > MAX_OUTPUT_BYTES, |Concat(p.stderr)| > MAX_OUTPUT_BYTES)
  }

  /** `SubprocessLauncher.launch`, the two draining threads taken one after the other. */
  method Launch(process: Option<Process>) returns (r: LaunchResult)
    ensures r == Launched(process) && ValidLaunch(r)
  {
    var stdout := new BoundedCapture(MAX_OUTPUT_BYTES);
    var stderr := new BoundedCapture(MAX_OUTPUT_BYTES);
    if process == None {
      return LaunchResult(LaunchEnvironmentError, None, [], [], false, false);
    }
    var p := process.value;
    stdout.Drain(p.stdout);
    stderr.Drain(p.stderr);
    var status := if p.exitCode == None then LaunchTimedOut else Completed;
    assert [] + Concat(p.stdout) == Concat(p.stdout) && [] + Concat(p.stderr) == Concat(p.stderr);
    UntruncatedIsWhole(Concat(p.stdout), MAX_OUTPUT_BYTES);
    UntruncatedIsWhole(Concat(p.stderr), MAX_OUTPUT_BYTES);
    r := LaunchResult(status, p.exitCode, stdout.value, stderr.value, stdout.truncated, stderr.truncated);
  }

  // ---------------------------------------------------------------- the runner

  /** What the regular expressions and the lenient decoder of the output parsers find in a text. */
  datatype TextRules = TextRules(
    decode: Bytes -> string,
    failures: string -> seq<Failure>,
    exception: string -> Option<string>,
    frames: string -> seq<string>,
    passedCount: string -> bool,
    normalize: string -> string)

  datatype Failure = Failure(node: string, detail: string)

  type RunId = nat

  datatype TestRun = TestRun(
    runId: RunId,
    phase: TestPhase,
    outcome: TestRunOutcome,
    workspaceBefore: Digest,
    workspaceAfter: Digest,
    exitCode: Option<int>,
    parsedResult: bool)

  /** Everything the environment contributes to one test run. */
  datatype Evidence = Evidence(runId: RunId, launch: LaunchResult, before: Digest, after: Digest, revision: Digest)

  function Classify(r: LaunchResult): TestRunOutcome {
    match r.status
    case LaunchTimedOut => TimedOut
    case LaunchResourceLimit => ResourceLimit
    case LaunchEnvironmentError => EnvironmentError
    case LaunchCancelled => Cancelled
    case Unknown => UnknownOutcome
    case Completed => Unparseable
  }

  /** `parsed_marker`: some output that is not blank. */
  predicate HasOutput(r: LaunchResult, rules: TextRules) {
    !Blank(rules.decode(r.stdout + r.stderr))
  }

  /** The meaning of `PytestTestRunner.run`. */
  function RunOf(phase: TestPhase, e: Evidence, rules: TextRules): TestRun {
    var parsed := e.before == e.after && e.launch.status == Completed && HasOutput(e.launch, rules);
    var outcome :=
      if e.before != e.after then WorkspaceDrift
      else if parsed then (if e.launch.exitCode == Some(0) then Passed else Failed)
      else Classify(e.launch);
    TestRun(e.runId, phase, outcome, e.before, e.after, e.launch.exitCode, parsed)
  }

  method RunPytest(phase: TestPhase, e: Evidence, rules: TextRules) returns (run: TestRun)
    ensures run == RunOf(phase, e, rules)
  {
    var parsedRef := false;
    var outcome, exitCode := Classify(e.launch), e.launch.exitCode;
    if e.before != e.after {
      outcome := WorkspaceDrift;
    } else if e.launch.status == Completed {
      var parsed := HasOutput(e.launch, rules);
      if !parsed {
        outcome := Unparseable;
      } else {
        parsedRef := true;
        outcome := if exitCode == Some(0) then Passed else Failed;
      }
    }
    run := TestRun(e.runId, phase, outcome, e.before, e.after, exitCode, parsedRef);
  }

  /** The consistency checks of the `TestRun` model. */
  predicate ValidRun(run: TestRun) {
    && (run.outcome == WorkspaceDrift <==> run.workspaceBefore != run.workspaceAfter)
    && (run.outcome in {Passed, Failed} <==> run.parsedResult)
    && (run.outcome == Passed ==> run.exitCode == Some(0))
    && (run.outcome == Failed ==> run.exitCode != None && run.exitCode != Some(0))
    && (run.outcome in {TimedOut, Cancelled, UnknownOutcome} ==> run.exitCode == None)
    && (run.outcome == Unparseable ==> run.exitCode != None)
  }

  /** No valid launch makes the runner build a test run that its own model rejects. */
  lemma RunIsValid(phase: TestPhase, e: Evidence, rules: TextRules)
    requires ValidLaunch(e.launch)
    ensures ValidRun(RunOf(phase, e, rules))
  {
  }

  /** Some character of the output is not white space. */
  ghost predicate Speaks(r: LaunchResult, rules: TextRules) {
    var text := rules.decode(r.stdout + r.stderr);
    exists i :: 0 <= i < |text| && !Space(text[i])
  }

  /** How a launch comes to its test run: the outcome, by what happened to the process and to the workspace. */
  lemma RunExactly(phase: TestPhase, e: Evidence, rules: TextRules)
    ensures var run := RunOf(phase, e, rules);
            var still, ended, good := e.before == e.after, e.launch.status == Completed, e.launch.exitCode == Some(0);
            && run.runId == e.runId && run.phase == phase && run.exitCode == e.launch.exitCode
            && run.workspaceBefore == e.before && run.workspaceAfter == e.after
            && (run.outcome == WorkspaceDrift <==> !still)
            && (run.outcome == Passed <==> still && ended && Speaks(e.launch, rules) && good)
            && (run.outcome == Failed <==> still && ended && Speaks(e.launch, rules) && !good)
            && (run.outcome == Unparseable <==> still && ended && !Speaks(e.launch, rules))
            && (run.outcome == TimedOut <==> still && e.launch.status == LaunchTimedOut)
            && (run.outcome == ResourceLimit <==> still && e.launch.status == LaunchResourceLimit)
            && (run.outcome == EnvironmentError <==> still && e.launch.status == LaunchEnvironmentError)
            && (run.outcome == Cancelled <==> still && e.launch.status == LaunchCancelled)
            && (run.outcome == UnknownOutcome <==> still && e.launch.status == Unknown)
            && (run.parsedResult <==> run.outcome in {Passed, Failed})
  {
    hide Space;
    var text := rules.decode(e.launch.stdout + e.launch.stderr);
    assert HasOutput(e.launch, rules) <==> Speaks(e.launch, rules) by {
      if !Speaks(e.launch, rules) {
        assert forall c :: c in text ==> Space(c);
      }
    }
  }

  /** What is kept of a stream: all of it, or its first half-megabyte and its last. */
  ghost predicate KeptOf(stream: Bytes, kept: Bytes) {
    if |stream| <= 1_048_576 then kept == stream
    else |kept| == 1_048_576 && kept[..524_288] == stream[..524_288]
         && kept[524_288..] == stream[|stream| - 524_288..]
  }

  /** What launching a process gives: its exit code, or a time-out without one, and what is kept of its streams. */
  lemma LaunchExactly(p: Process)
    ensures Launched(None) == LaunchResult(LaunchEnvironmentError, None, [], [], false, false)
    ensures var r := Launched(Some(p));
            && r.exitCode == p.exitCode
            && r.status == (if p.exitCode.Some? then Completed else LaunchTimedOut)
            && KeptOf(Concat(p.stdout), r.stdout) && KeptOf(Concat(p.stderr), r.stderr)
            && (r.stdoutTruncated <==> |Concat(p.stdout)| > 1_048_576)
            && (r.stderrTruncated <==> |Concat(p.stderr)| > 1_048_576)
  {
    KeptExactly(Concat(p.stdout));
    KeptExactly(Concat(p.stderr));
  }

  lemma KeptExactly(stream: Bytes)
    ensures KeptOf(stream, Truncation(stream, MAX_OUTPUT_BYTES))
  {
    if |stream| > 1_048_576 {
      Middle(stream, 524_288, 524_288);
    }
  }
}
