/** What a task's history and its final status say about what happened. */
module HarnessOutcomes {
  import opened Base
  import opened Lines
  import opened Policy
  import opened PatchModels
  import opened PatchParser
  import opened TestRunner
  import opened PytestParser
  import opened Feedback
  import opened Harness
  import opened HarnessRuns
  import opened HarnessGovernance
  import Applier
  import Rollback
  import Workspaces
  import Utf8

  // ---------------------------------------------------------------- the history

  predicate PatchEntry(e: HistoryEntry) {
    e.actionType == "apply_patch"
  }

  predicate TestEntry(e: HistoryEntry) {
    e.actionType == "full_test"
  }

  /** Each `apply_patch` entry is immediately followed by a `full_test` entry, and each of those preceded by one. */
  predicate Paired(history: seq<HistoryEntry>) {
    forall i :: 0 <= i < |history| ==> PairedAt(history, i)
  }

  predicate Plain(e: HistoryEntry) {
    !PatchEntry(e) && !TestEntry(e)
  }

  /** A step adds nothing, one plain entry, or a patch and its test. */
  ghost predicate Grows(before: seq<HistoryEntry>, after: seq<HistoryEntry>) {
    || after == before
    || (|after| == |before| + 1 && after[..|before|] == before && Plain(after[|before|]))
    || (|after| == |before| + 2 && after[..|before|] == before && PatchEntry(after[|before|])
      && TestEntry(after[|before| + 1]))
  }

  predicate PairedAt(history: seq<HistoryEntry>, i: nat)
    requires i < |history|
  {
    && (PatchEntry(history[i]) ==> i + 1 < |history| && TestEntry(history[i + 1]))
    && (TestEntry(history[i]) ==> i >= 1 && PatchEntry(history[i - 1]))
  }

  lemma GrowsPaired(before: seq<HistoryEntry>, after: seq<HistoryEntry>)
    requires Paired(before) && Grows(before, after)
    ensures Paired(after)
  {
    hide PatchEntry, TestEntry;
    if after != before {
      forall i | 0 <= i < |after| ensures PairedAt(after, i) {
        if i < |before| {
          assert PairedAt(before, i);
          assert before[i] == after[..|before|][i];
          assert i >= 1 ==> before[i - 1] == after[..|before|][i - 1];
          assert i + 1 < |before| ==> before[i + 1] == after[..|before|][i + 1];
        } else {
          Different(after[i]);
        }
      }
    }
  }

  lemma Different(e: HistoryEntry)
    ensures !(PatchEntry(e) && TestEntry(e))
  {
    assert "apply_patch"[0] != "full_test"[0];
  }

  lemma ExecutionHistory(cfg: Config, s: CoreSession, x: ActionExecution)
    ensures OnExecution(cfg, s, x).Finished? ==> OnExecution(cfg, s, x).session.history == s.history
  {
    hide Analyze, OutcomeName;
  }

  lemma PlainTypes(a: Action, result: string)
    requires !a.ApplyPatch?
    ensures Plain(HistoryEntry(TypeOf(a), result))
  {
    var t := TypeOf(a);
    assert |"apply_patch"| == 11 && |"full_test"| == 9;
    assert "apply_patch"[0] == 'a' && "full_test"[0] == 'f';
    assert t[0] in "lrsg";
  }

  lemma OtherTypes(result: string)
    ensures Plain(HistoryEntry("policy_deny", result)) && Plain(HistoryEntry("protocol_error", result))
    ensures Plain(HistoryEntry("patch_prepare_failed", result)) && Plain(HistoryEntry("request_human", result))
  {
    assert "apply_patch"[0] == 'a' && "full_test"[0] == 'f';
    assert "policy_deny"[0] == 'p' && "protocol_error"[0] == 'p' && "patch_prepare_failed"[0] == 'p'
      && "request_human"[0] == 'r';
  }

  lemma AllowedHistory(cfg: Config, s: CoreSession, action: Action, patch: PreparedPatch, a: Answers)
    ensures OnAllowedPatch(cfg, s, patch, a).end.Finished? ==>
              Grows(s.history, OnAllowedPatch(cfg, s, patch, a).end.session.history)
    ensures !action.ApplyPatch? && OnAllowedTool(cfg, s, action, a).end.Finished? ==>
              Grows(s.history, OnAllowedTool(cfg, s, action, a).end.session.history)
  {
    hide OnExecution, TestsExecution, Plain, TypeOf;
    var tool := Executed(cfg, action, a);
    if !action.ApplyPatch? && tool.Some? {
      PlainTypes(action, tool.value.safeSummary);
      if Append(s, TypeOf(action), tool.value.safeSummary).Some? {
        ExecutionHistory(cfg, Append(s, TypeOf(action), tool.value.safeSummary).value, tool.value);
      }
    }
    var x := PatchExecution(a);
    if x.Some? && Append(s, "apply_patch", x.value.safeSummary).Some? {
      var s1 := Append(s, "apply_patch", x.value.safeSummary).value;
      var tests := Answered(PostPatch, a.tool, cfg.rules);
      if tests.Some? && Append(s1, "full_test", tests.value.safeSummary).Some? {
        ExecutionHistory(cfg, Append(s1, "full_test", tests.value.safeSummary).value, tests.value);
      }
    }
  }

  lemma JudgedHistory(cfg: Config, s: CoreSession, action: Action, patch: Option<PreparedPatch>, facts: PolicyFacts,
                      a: Answers)
    requires patch == None ==> !action.ApplyPatch?
    ensures var end := OnJudged(cfg, s, action, patch, facts, a).end; end.Finished? ==>
              Grows(s.history, end.session.history)
  {
    hide Evaluate, OnAllowedPatch, OnAllowedTool, Plain;
    OtherTypes(ReasonText(Evaluate(facts).reason));
    if patch.Some? {
      AllowedHistory(cfg, s, action, patch.value, a);
    } else {
      AllowedHistory(cfg, s, action, PreparedPatch([], PatchFacts(0, 0, 0, false, false)), a);
    }
  }

  lemma ReplyHistory(cfg: Config, s: CoreSession, a: Answers)
    ensures var end := OnReply(cfg, s, a).end; end.Finished? ==> Grows(s.history, end.session.history)
  {
    hide OnJudged, PreparedText, Plain, FactsFromPrepared, Resolved;
    OtherTypes("human review requested");
    OtherTypes("patch preparation is unavailable");
    OtherTypes("patch preparation failed");
    match a.reply
    case ReplyRaised =>
    case ProtocolError(message) => OtherTypes(message);
    case Chosen(action) =>
      if action.ApplyPatch? {
        if a.snapshot.Given? && PreparedText(action.diff, a.snapshot.value).Ok? && a.tree.Given? {
          var prepared := PreparedText(action.diff, a.snapshot.value);
          JudgedHistory(cfg, s, action, Some(prepared.value),
            FactsFromPrepared(action.diff, prepared.value, Resolved(prepared.value.files, a.tree.value, cfg.mode)), a);
        }
      } else {
        JudgedHistory(cfg, s, action, None, NO_FACTS, a);
      }
  }

  lemma StepHistory(cfg: Config, s: CoreSession, a: Answers)
    ensures Grows(s.history, After(s, StepOf(cfg, s, a)).history)
  {
    hide OnReply;
    ReplyHistory(cfg, s.(actionCount := s.actionCount + 1), a);
  }

  /** In every life of a task, patches and full tests come in pairs in its history. */
  lemma {:induction false} EveryHistoryIsPaired(cfg: Config, ops: seq<Op>)
    ensures Paired(PerformAll(cfg, BIRTH, ops).session.history)
    decreases |ops|
  {
    hide StepOf, Paired, Grows;
    if ops == [] {
      assert Paired([]) by { NoEntries(); }
    } else {
      var l := PerformAll(cfg, BIRTH, ops[..|ops| - 1]);
      EveryHistoryIsPaired(cfg, ops[..|ops| - 1]);
      if ops[|ops| - 1].Step? {
        StepHistory(cfg, l.session, ops[|ops| - 1].answers);
        GrowsPaired(l.session.history, After(l.session, StepOf(cfg, l.session, ops[|ops| - 1].answers)).history);
      }
    }
  }

  lemma NoEntries()
    ensures Paired([])
  {
  }

  // ---------------------------------------------------------------- success

  /** The step takes in a passing result of a run that was not focused. */
  predicate EarnsSuccess(cfg: Config, a: Answers) {
    && a.reply.Chosen?
    && match a.tool
       case Pytest(e) => PassingEvidence(e, cfg.rules) && (a.reply.action == RunTests(false)
         || a.reply.action.ApplyPatch?)
       case Scripted(x) =>
         && x.testRun.Some? && x.testRun.value.phase != Focused && x.testRun.value.outcome != WorkspaceDrift
         && x.parsedResult.Some? && x.parsedResult.value.outcome == ParsedPassed
       case ToolRaised => false
  }

  lemma ExecutionSucceeds(cfg: Config, s: CoreSession, x: ActionExecution)
    requires s.status != Succeeded
    requires OnExecution(cfg, s, x).Finished? && OnExecution(cfg, s, x).session.status == Succeeded
    ensures x.testRun.Some? && x.testRun.value.phase != Focused && x.testRun.value.outcome != WorkspaceDrift
    ensures x.parsedResult.Some? && x.parsedResult.value.outcome == ParsedPassed
  {
    hide Analyze, OutcomeName;
    if x.testRun.Some? && x.parsedResult.Some? {
      var current := x.parsedResult.value.(sourceRevision := x.sourceRevision);
      if Analyze(s.previousResult, current, s.resultHistory).Some? {
        AnalyzeKinds(s.previousResult, current, s.resultHistory);
      }
    }
  }

  lemma AnsweredSucceeds(cfg: Config, s: CoreSession, phase: TestPhase, a: Answers)
    requires Answered(phase, a.tool, cfg.rules).Some? && s.status != Succeeded
    requires var end := OnExecution(cfg, s, Answered(phase, a.tool, cfg.rules).value);
             end.Finished?
             && end.session.status == Succeeded
    ensures match a.tool
            case Pytest(e) => PassingEvidence(e, cfg.rules) && phase != Focused
            case Scripted(x) =>
              && x.testRun.Some? && x.testRun.value.phase != Focused && x.testRun.value.outcome != WorkspaceDrift
              && x.parsedResult.Some? && x.parsedResult.value.outcome == ParsedPassed
            case ToolRaised => false
  {
    hide OnExecution, ParsePytest, PassingEvidence;
    ExecutionSucceeds(cfg, s, Answered(phase, a.tool, cfg.rules).value);
    if a.tool.Pytest? {
      PassedIffEvidence(phase, a.tool.evidence, cfg.rules);
    }
  }

  /** A step ends in success only on passing evidence from a test run that was not focused. */
  lemma SuccessIsEarned(cfg: Config, s: CoreSession, a: Answers)
    requires s.status != Succeeded && After(s, StepOf(cfg, s, a)).status == Succeeded
    ensures EarnsSuccess(cfg, a)
  {
    hide Evaluate, PreparedText, OnExecution, TestsExecution, FactsFromPrepared, Resolved, PassingEvidence;
    var s1 := s.(actionCount := s.actionCount + 1);
    if a.reply.Chosen? {
      var action := a.reply.action;
      if action.ApplyPatch? {
        var x := PatchExecution(a);
        if x.Some? && Append(s1, "apply_patch", x.value.safeSummary).Some? {
          var s2 := Append(s1, "apply_patch", x.value.safeSummary).value;
          var tests := Answered(PostPatch, a.tool, cfg.rules);
          if tests.Some? && Append(s2, "full_test", tests.value.safeSummary).Some? {
            var s3 := Append(s2, "full_test", tests.value.safeSummary).value;
            if OnExecution(cfg, s3, tests.value).Finished?
              && OnExecution(cfg, s3, tests.value).session.status == Succeeded {
              AnsweredSucceeds(cfg, s3, PostPatch, a);
            }
          }
        }
      } else if Executed(cfg, action, a).Some? {
        var x := Executed(cfg, action, a).value;
        if Append(s1, TypeOf(action), x.safeSummary).Some? {
          var s2 := Append(s1, TypeOf(action), x.safeSummary).value;
          if OnExecution(cfg, s2, x).Finished? && OnExecution(cfg, s2, x).session.status == Succeeded {
            if action.RunTests? {
              AnsweredSucceeds(cfg, s2, if action.focused then Focused else RequestedFull, a);
            } else {
              ExecutionSucceeds(cfg, s2, x);
            }
          }
        }
      }
    }
  }

  lemma SucceededStays(cfg: Config, l: Life, op: Op)
    requires l.session.status == Succeeded
    ensures Perform(cfg, l, op).session == l.session
  {
    hide OnReply;
  }

  /** Operation `k` of this life is a step that earned the success the life ends with. */
  ghost predicate EarnedAt(cfg: Config, ops: seq<Op>, k: nat)
    requires k < |ops|
  {
    ops[k].Step? && EarnsSuccess(cfg, ops[k].answers)
    && PerformAll(cfg, BIRTH, ops[..k + 1]).session == PerformAll(cfg, BIRTH, ops).session
  }

  /** A task that has succeeded did so in one step on passing evidence, and nothing has changed its session since. */
  lemma {:induction false} EverySuccessIsEarned(cfg: Config, ops: seq<Op>)
    requires PerformAll(cfg, BIRTH, ops).session.status == Succeeded
    ensures exists k: nat :: k < |ops| && EarnedAt(cfg, ops, k)
    decreases |ops|
  {
    hide EarnsSuccess, StepOf;
    var n := |ops|;
    if n > 0 {
      var front := ops[..n - 1];
      var l := PerformAll(cfg, BIRTH, front);
      if l.session.status == Succeeded {
        EverySuccessIsEarned(cfg, front);
        var k: nat :| k < |front| && EarnedAt(cfg, front, k);
        assert front[..k + 1] == ops[..k + 1] && front[k] == ops[k];
        SucceededStays(cfg, l, ops[n - 1]);
        assert EarnedAt(cfg, ops, k);
      } else {
        SuccessIsEarned(cfg, l.session, ops[n - 1].answers);
        assert ops[..n - 1 + 1] == ops;
        assert EarnedAt(cfg, ops, n - 1);
      }
    }
  }

  /** No tool but the test runner claims to have run tests. */
  ghost predicate Honest(ops: seq<Op>) {
    forall k :: 0 <= k < |ops| && ops[k].Step? && ops[k].answers.tool.Scripted? ==>
                ops[k].answers.tool.execution.testRun == None
  }

  /** The evidence of every test run comes from a process and a workspace. */
  ghost predicate AllGenuine(ops: seq<Op>, testings: seq<Testing>)
    requires |testings| == |ops|
  {
    forall k :: 0 <= k < |ops| && ops[k].Step? && ops[k].answers.tool.Pytest? ==>
                Genuine(ops[k].answers.tool.evidence, testings[k])
  }

  /** Operation `k` is the step that earned the success, on a test run that went well outside too. */
  ghost predicate TestedAt(cfg: Config, ops: seq<Op>, testings: seq<Testing>, k: nat)
    requires k < |ops| == |testings|
  {
    EarnedAt(cfg, ops, k) && ops[k].answers.tool.Pytest? && TestedWell(ops[k].answers.tool.evidence, testings[k])
  }

  /**
   * End to end: a task that has succeeded did so in one step, in which a test process ended with exit code 0,
   * everything read of its output was judged and found to pass, and the files of the workspace were the same before and
   * after.
   */
  lemma EverySuccessIsTested(cfg: Config, ops: seq<Op>, testings: seq<Testing>)
    requires |testings| == |ops| && Honest(ops) && AllGenuine(ops, testings)
    requires PerformAll(cfg, BIRTH, ops).session.status == Succeeded
    ensures exists k: nat :: k < |ops| && TestedAt(cfg, ops, testings, k)
  {
    hide PerformAll, Genuine, TestedWell, PassingEvidence, ParsePytest;
    EverySuccessIsEarned(cfg, ops);
    var k: nat :| k < |ops| && EarnedAt(cfg, ops, k);
    var e := ops[k].answers.tool.evidence;
    PassedIffEvidence(PostPatch, e, cfg.rules);
    PassTracedBack(PostPatch, e, cfg.rules, testings[k]);
    assert TestedAt(cfg, ops, testings, k);
  }

  // ---------------------------------------------------------------- patches whose outcome is not known

  /**
   * An allowed patch carried out on a workspace, and what the step makes of it. If compensation met a foreign change,
   * which it cannot when nobody interferes, nothing is tested and the task pauses for a human (or the step raises, if
   * hashing the workspace does).
   */
  method CarryOut(cfg: Config, s: CoreSession, patch: PreparedPatch, a: Answers, ws: Workspaces.Workspace)
    returns (r: StepResult)
    requires WellFormed(patch.files)
    modifies ws
    ensures |r.calls| > 0 && r.calls[0].ExecutePatch? && r
            == OnAllowedPatch(cfg, s, patch, a.(applied := r.calls[0].outcome))
    ensures r.calls[0].outcome == Applier.UnknownOutcome ==>
              && |r.calls| == 1
              && r.end == if a.patchRevision == None then StepRaised
                else Finished(s.(status := PausedForHuman), "unknown_outcome")
    ensures Applier.Calm(ws.world, PathsOf(patch.files)) ==> r.calls[0].outcome != Applier.UnknownOutcome
    ensures Applier.Calm(ws.world, PathsOf(patch.files)) && FullTest in r.calls ==>
              ws.files == Rollback.Patched(old(ws.files), patch.files)
              || (r.calls[0].outcome == Applier.ApplyFailed && Applier.Original(ws.files, old(ws.files), patch.files))
              || (r.calls[0].outcome in {Applier.Conflict, Applier.Unauthorized} && ws.files == old(ws.files))
    ensures Applier.CarefulWrites(ws.world, ws.writes, |old(ws.writes)|, patch.files)
  {
    hide OnExecution, TestsExecution, Append, Applier.Calm, Applier.Original, Applier.CarefulWrites;
    var outcome := Applier.Apply(patch.files, true, ws);
    r := OnAllowedPatch(cfg, s, patch, a.(applied := outcome));
  }

  // ---------------------------------------------------------------- tests whose outcome is not known

  lemma {:induction false} EncodeLength(s: string)
    ensures |Utf8.Encode(s)| <= 4 * |s|
  {
    hide Utf8.EncodeChar;
    if s != [] {
      EncodeLength(s[1..]);
      OneCharLength(s[0]);
    }
  }

  lemma OneCharLength(c: char)
    ensures |Utf8.EncodeChar(c)| <= 4
  {
  }

  lemma UnavailableIsPrintable()
    ensures Printable("pytest environment unavailable")
  {
  }

  lemma UnavailableIsSafe()
    ensures SafeLine("pytest environment unavailable")
  {
    hide Printable, Utf8.Encode;
    EncodeLength("pytest environment unavailable");
    UnavailableIsPrintable();
  }

  /**
   * The documentation says that unknown test outcomes pause the task. When a test process did not end by itself (it
   * timed out, could not be started, or its status is unknown), the task pauses after a patch exactly when the
   * workspace changed meanwhile or there was an earlier result, and after `run_tests` exactly then or when the status
   * is unknown; otherwise it is ordinary feedback.
   */
  lemma UnendedTestPauses(cfg: Config, s: CoreSession, a: Answers, e: Evidence, tests: ActionExecution, focused: bool)
    requires s.status == Deciding && a.tool == Pytest(e) && e.launch.status != Completed
    requires TestsExecution(PostPatch, e, cfg.rules) == Some(tests)
    ensures var end := OnExecution(cfg, s, tests);
            end.Finished? && (end.session.status == PausedForHuman <==> e.before != e.after || s.previousResult.Some?)
    ensures var end := OnAllowedTool(cfg, s, RunTests(focused), a).end;
            end.Finished? && (end.session.status == PausedForHuman <==>
              e.before != e.after || s.previousResult.Some? || e.launch.status == Unknown)
  {
    hide OutcomeName, SafeLine, Blank, OnExecution, TestsExecution;
    var phase := if focused then Focused else RequestedFull;
    AnyPhase(phase, e, cfg.rules);
    var x := TestsExecution(phase, e, cfg.rules).value;
    var s1 := s.(history := s.history + [HistoryEntry("run_tests", x.safeSummary)]);
    if e.before == e.after {
      UnendedIsUnavailable(PostPatch, e, cfg.rules);
      UnavailablePauses(cfg, s, tests);
      UnendedIsUnavailable(phase, e, cfg.rules);
      UnavailablePauses(cfg, s1, x);
    } else {
      DriftPauses(cfg, s, PostPatch, e);
      DriftPauses(cfg, s1, phase, e);
    }
  }

  /** The phase of a test run decides neither whether its output can be parsed nor what is said of it. */
  lemma AnyPhase(phase: TestPhase, e: Evidence, rules: TextRules)
    requires TestsExecution(PostPatch, e, rules).Some?
    ensures TestsExecution(phase, e, rules).Some?
    ensures |TestsExecution(phase, e, rules).value.safeSummary| <= 8192
  {
    hide Utf8.Encode, CollectionFailed, SortedSet, OutputText, Blank;
    LengthEncoded(TestsExecution(phase, e, rules).value.safeSummary);
  }

  lemma {:induction false} LengthEncoded(s: string)
    ensures |s| <= |Utf8.Encode(s)|
  {
    hide Utf8.EncodeChar;
    if s != [] {
      LengthEncoded(s[1..]);
      OneByteAtLeast(s[0]);
    }
  }

  lemma OneByteAtLeast(c: char)
    ensures |Utf8.EncodeChar(c)| >= 1
  {
  }

  /** A workspace that changed during the run pauses the task, whatever came of the run. */
  lemma DriftPauses(cfg: Config, s: CoreSession, phase: TestPhase, e: Evidence)
    requires e.before != e.after && TestsExecution(phase, e, cfg.rules).Some?
    ensures var x := TestsExecution(phase, e, cfg.rules).value;
            !x.unknownOutcome && OnExecution(cfg, s, x) == Finished(s.(status := PausedForHuman), "workspace_drift")
  {
    hide Analyze, OutcomeName, ParsePytest;
  }

  const UNAVAILABLE := "pytest environment unavailable"

  /** What a test run whose process did not end by itself comes to. */
  predicate Unavailable(x: ActionExecution) {
    && x.safeSummary == UNAVAILABLE && x.testRun.Some? && x.testRun.value.outcome != WorkspaceDrift
    && x.parsedResult.Some? && x.parsedResult.value.outcome == ParsedEnvironmentError
      && x.parsedResult.value.summary == UNAVAILABLE
  }

  lemma UnendedIsUnavailable(phase: TestPhase, e: Evidence, rules: TextRules)
    requires e.launch.status != Completed && e.before == e.after
    ensures TestsExecution(phase, e, rules).Some? && Unavailable(TestsExecution(phase, e, rules).value)
    ensures TestsExecution(phase, e, rules).value.unknownOutcome <==> e.launch.status == Unknown
  {
    hide Blank, OutputText;
  }

  lemma UnavailablePauses(cfg: Config, s: CoreSession, x: ActionExecution)
    requires Unavailable(x) && s.status == Deciding
    ensures var end := OnExecution(cfg, s, x);
            end.Finished? && (end.session.status == PausedForHuman <==> s.previousResult.Some?)
  {
    hide OutcomeName, SafeLine;
    UnavailableIsSafe();
  }

  /** A first full test that timed out, taken as feedback although nothing is known of the tests. */
  lemma FirstTimeoutIsFeedback(rules: TextRules, d: Digest)
    ensures var cfg := Config(40, 8, true, Real, rules);
            var e := Evidence(1, LaunchResult(LaunchTimedOut, None, [], [], false, false), d, d, d);
            TestsExecution(PostPatch, e, rules).Some?
            && OnExecution(cfg, NEW_SESSION, TestsExecution(PostPatch, e, rules).value).Finished?
            && OnExecution(cfg, NEW_SESSION, TestsExecution(PostPatch, e, rules).value).session.status == Deciding
  {
    hide OutcomeName, Analyze, Blank, OutputText;
  }
}
