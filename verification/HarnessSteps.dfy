/** What one step makes of each answer it may get, from its budget to the session it saves. */
module HarnessSteps {
  import opened Base
  import opened Lines
  import opened Policy
  import opened PatchModels
  import opened PatchParser
  import opened PatchSeverity
  import opened TestRunner
  import opened PytestParser
  import opened Feedback
  import opened Harness
  import opened HarnessRuns
  import HarnessOutcomes
  import Applier
  import Utf8

  /** The step asks the model: the task is deciding and has actions and feedback left. */
  predicate Asks(cfg: Config, s: CoreSession) {
    s.status == Deciding && s.actionCount < cfg.maxActions && s.feedbackCount < cfg.maxFeedback
  }

  /** The session after one more action, with one more entry in its history. */
  function Noted(s: CoreSession, actionType: string, result: string): CoreSession {
    s.(actionCount := s.actionCount + 1, history := s.history + [HistoryEntry(actionType, result)])
  }

  /** A task that is not deciding is left alone, and one without budget is stopped, before anything is asked. */
  lemma NothingAsked(cfg: Config, s: CoreSession, a: Answers)
    requires !Asks(cfg, s)
    ensures StepOf(cfg, s, a) ==
            if s.status == Deciding then StepResult(Finished(s.(status := Stopped), "budget_exhausted"), [])
            else StepResult(Finished(s, "not_deciding"), [])
  {
    hide OnReply;
  }

  /** An answer that is no action is noted; it stops the task if it was the last one allowed. */
  lemma RefusedReply(cfg: Config, s: CoreSession, a: Answers, message: string)
    requires Asks(cfg, s) && a.reply == ProtocolError(message) && |message| <= 8192
    ensures var noted := Noted(s, "protocol_error", message);
            StepOf(cfg, s, a) ==
            if s.actionCount + 1 == cfg.maxActions
            then StepResult(Finished(noted.(status := Stopped), "budget_exhausted"), [Generate])
            else StepResult(Finished(noted, "protocol_error"), [Generate])
  {
    assert [Generate] + [] == [Generate];
  }

  /** A message too long for the history makes the step raise, and leaves the session as it was. */
  lemma TooLongToNote(cfg: Config, s: CoreSession, a: Answers, message: string)
    requires Asks(cfg, s) && a.reply == ProtocolError(message) && |message| > 8192
    ensures StepOf(cfg, s, a) == StepResult(StepRaised, [Generate])
  {
    assert [Generate] + [] == [Generate];
  }

  /** Asking for a human pauses the task. */
  lemma HumanAsked(cfg: Config, s: CoreSession, a: Answers)
    requires Asks(cfg, s) && a.reply == Chosen(RequestHuman)
    ensures StepOf(cfg, s, a) ==
            StepResult(Finished(Noted(s, "request_human", "human review requested").(status := PausedForHuman),
              "request_human"), [Generate])
  {
    assert [Generate] + [] == [Generate];
  }

  /** A patch that cannot be prepared is noted and nothing else; the task goes on deciding. */
  lemma UnpreparedPatch(cfg: Config, s: CoreSession, a: Answers, diff: string)
    requires Asks(cfg, s) && a.reply == Chosen(ApplyPatch(diff))
    ensures !cfg.canPatch ==>
              StepOf(cfg, s, a).end
              == Finished(Noted(s, "patch_prepare_failed", "patch preparation is unavailable"), "patch_prepare_failed")
    ensures cfg.canPatch
            && (a.snapshot.ValueRaised?
                || (a.snapshot.Given? && (PreparedText(diff, a.snapshot.value).Err? || a.tree.ValueRaised?))) ==>
              StepOf(cfg, s, a).end
              == Finished(Noted(s, "patch_prepare_failed", "patch preparation failed"), "patch_prepare_failed")
  {
    hide PreparedText, FactsFromPrepared, Resolved, OnJudged;
  }

  /** The model proposes a patch that is prepared, and whose safety is resolved. */
  ghost predicate Proposes(cfg: Config, s: CoreSession, a: Answers, diff: string) {
    && Asks(cfg, s) && a.reply == Chosen(ApplyPatch(diff))
    && cfg.canPatch && a.snapshot.Given? && PreparedText(diff, a.snapshot.value).Ok? && a.tree.Given?
  }

  /** What the policy engine says of a proposed patch. */
  function VerdictOn(cfg: Config, a: Answers, diff: string): PolicyDecision
    requires a.snapshot.Given? && PreparedText(diff, a.snapshot.value).Ok? && a.tree.Given?
  {
    Evaluate(FactsOfDiff(diff, a.snapshot.value, a.tree.value, cfg.mode))
  }

  lemma ReasonTexts(reason: ReasonCode)
    ensures |ReasonText(reason)| <= 8192
    ensures reason == TestAssetProtection ==> ReasonText(reason) == "test_asset_protection"
    ensures reason == ProtectedConfig ==> ReasonText(reason) == "protected_config"
    ensures reason == PathSafety ==> ReasonText(reason) == "path_safety"
    ensures reason == BinaryUnsupported ==> ReasonText(reason) == "binary_unsupported"
    ensures reason == CapabilityMissing ==> ReasonText(reason) == "capability_missing"
    ensures reason == DemoEscape ==> ReasonText(reason) == "demo_escape"
    ensures reason == PatchHardLimit ==> ReasonText(reason) == "patch_hard_limit"
  {
  }

  /** A denied patch is noted with the reason and not executed; it stops the task if it was the last action allowed. */
  lemma DeniedPatch(cfg: Config, s: CoreSession, a: Answers, diff: string)
    requires Proposes(cfg, s, a, diff) && VerdictOn(cfg, a, diff).outcome == Deny
    ensures var noted := Noted(s, "policy_deny", ReasonText(VerdictOn(cfg, a, diff).reason));
            var facts := FactsOfDiff(diff, a.snapshot.value, a.tree.value, cfg.mode);
            StepOf(cfg, s, a) == StepResult(
              if s.actionCount + 1 == cfg.maxActions then Finished(noted.(status := Stopped), "budget_exhausted")
              else Finished(noted, "policy_deny"),
              [Generate, PreparePatch(diff, PreparedText(diff, a.snapshot.value)), Judge(facts, Evaluate(facts))])
  {
    hide PreparedText, FactsFromPrepared, Resolved, Evaluate, OnAllowedPatch, OnAllowedTool;
    ReasonTexts(VerdictOn(cfg, a, diff).reason);
  }

  /** A patch that names a test asset is denied for it, whatever else it does. */
  lemma TestPatchDenied(cfg: Config, s: CoreSession, a: Answers, diff: string)
    requires Proposes(cfg, s, a, diff) && NamesTests(PreparedText(diff, a.snapshot.value).value.files)
    ensures var noted := Noted(s, "policy_deny", "test_asset_protection");
            After(s, StepOf(cfg, s, a)) ==
            noted.(status := if s.actionCount + 1 == cfg.maxActions then Stopped else Deciding)
  {
    hide PreparedText, FactsOfDiff, Evaluate, StepOf;
    VerdictOfDiff(diff, a.snapshot.value, a.tree.value, cfg.mode);
    DeniedPatch(cfg, s, a, diff);
    ReasonTexts(TestAssetProtection);
  }

  /** A patch that needs approval waits for it, counted but not noted and not executed. */
  lemma PatchAwaitsApproval(cfg: Config, s: CoreSession, a: Answers, diff: string)
    requires Proposes(cfg, s, a, diff) && VerdictOn(cfg, a, diff).outcome == RequireApproval
    ensures StepOf(cfg, s, a).end
            == Finished(s.(actionCount := s.actionCount + 1, status := AwaitingApproval), "approval_required")
    ensures forall i :: 0 <= i < |StepOf(cfg, s, a).calls| ==> !StepOf(cfg, s, a).calls[i].ExecutePatch?
  {
    hide PreparedText, FactsFromPrepared, Resolved, Evaluate, OnAllowedPatch, OnAllowedTool;
  }

  // ---------------------------------------------------------------- a test result

  /** An earlier result other than the last one shows the same failure. */
  ghost predicate Looping(results: seq<ParsedTestResult>, p: ParsedTestResult) {
    exists i :: 0 <= i < |results| - 1 && StateFingerprint(results[i]) == StateFingerprint(p)
  }

  /** The last result shows the same failure of the same source. */
  predicate Unmoved(previous: Option<ParsedTestResult>, p: ParsedTestResult) {
    && previous.Some? && StateFingerprint(previous.value) == StateFingerprint(p)
    && previous.value.sourceRevision == p.sourceRevision
  }

  predicate FailedRun(p: ParsedTestResult) {
    p.outcome == ParsedFailed || p.outcome == CollectionError
  }

  /**
   * The result is recorded, and it decides the status: a pass of a run that was not focused ends the task; a result
   * after the first one that says nothing pauses it; a failure seen before the last result, or again on unchanged
   * source, stops it; and so does the last feedback allowed. Otherwise the task goes on deciding.
   */
  ghost predicate TakenIn(cfg: Config, s: CoreSession, phase: TestPhase, p: ParsedTestResult, end: StepEnd) {
    var recorded := s.(previousResult := Some(p), resultHistory := s.resultHistory + [p],
      feedbackSummary := Some(p.summary), feedbackCount := s.feedbackCount + 1);
    var later := s.previousResult.Some?;
    end ==
    if p.outcome == ParsedPassed && phase != Focused then Finished(recorded.(status := Succeeded), "tests_passed")
    else if later && p.outcome == ParsedEnvironmentError then
      Finished(recorded.(status := PausedForHuman), "environment_error")
    else if later && p.outcome == ParsedUnparseable then
      Finished(recorded.(status := PausedForHuman), "unparseable")
    else if later && FailedRun(p) && Looping(s.resultHistory, p) then Finished(recorded.(status := Stopped), "loop")
    else if later && FailedRun(p) && Unmoved(s.previousResult, p) then
      Finished(recorded.(status := Stopped), "no_progress")
    else if s.feedbackCount + 1 >= cfg.maxFeedback then Finished(recorded.(status := Stopped), "budget_exhausted")
    else Finished(recorded, "feedback")
  }

  /** The feedback engine has something to say: the summary is one safe line, and a failure is of a run of its own. */
  predicate Sayable(s: CoreSession, p: ParsedTestResult) {
    && SafeLine(p.summary)
    && (FailedRun(p) ==>
          && (s.previousResult.Some? ==> s.previousResult.value.runId != p.runId)
          && forall i :: 0 <= i < |s.resultHistory| ==> s.resultHistory[i].runId != p.runId)
  }

  lemma Analyzable(s: CoreSession, p: ParsedTestResult)
    requires Sayable(s, p) && (s.previousResult.Some? || p.outcome == ParsedPassed)
    ensures Analyze(s.previousResult, p, s.resultHistory).Some?
    ensures Analyze(s.previousResult, p, s.resultHistory).value.summary == p.summary
  {
    hide SafeLine, StateFingerprint, NodeSet;
    FindMatchIn(AllButLast(s.resultHistory), StateFingerprint(p));
    if s.resultHistory != [] {
      assert forall i :: 0 <= i < |s.resultHistory| - 1 ==> AllButLast(s.resultHistory)[i] == s.resultHistory[i];
    }
    if s.previousResult.Some? {
      DirectionOnly(s.previousResult.value, p);
    }
  }

  /** An execution with a test run on an unchanged workspace is taken in. */
  lemma ExecutionTakenIn(cfg: Config, s: CoreSession, x: ActionExecution)
    requires s.status == Deciding && x.testRun.Some? && x.testRun.value.outcome != WorkspaceDrift
    requires x.parsedResult.Some?
    requires var p := x.parsedResult.value.(sourceRevision := x.sourceRevision);
             Sayable(s, p) || (s.previousResult == None && p.outcome != ParsedPassed)
    ensures TakenIn(cfg, s, x.testRun.value.phase, x.parsedResult.value.(sourceRevision := x.sourceRevision),
                    OnExecution(cfg, s, x))
  {
    hide Analyze, OutcomeName, Sayable, StateFingerprint;
    var p := x.parsedResult.value.(sourceRevision := x.sourceRevision);
    if s.previousResult.Some? || p.outcome == ParsedPassed {
      Analyzable(s, p);
      AnalyzeKinds(s.previousResult, p, s.resultHistory);
      if s.previousResult.Some? && Failing(p) {
        NoProgressExactly(s.previousResult.value, p, s.resultHistory);
      }
    }
  }

  // ---------------------------------------------------------------- patches that are carried out

  /** The proposed patch is allowed, and its execution returns. */
  ghost predicate CarriedOut(cfg: Config, s: CoreSession, a: Answers, diff: string) {
    && Proposes(cfg, s, a, diff) && VerdictOn(cfg, a, diff).outcome == Allow
    && a.applied != Applier.Raised && a.patchRevision.Some?
  }

  /** An allowed patch whose execution raises leaves the session as it was. */
  lemma PatchRaises(cfg: Config, s: CoreSession, a: Answers, diff: string)
    requires Proposes(cfg, s, a, diff) && VerdictOn(cfg, a, diff).outcome == Allow
    requires a.applied == Applier.Raised || a.patchRevision == None
    ensures StepOf(cfg, s, a).end == StepRaised && After(s, StepOf(cfg, s, a)) == s
    ensures FullTest !in StepOf(cfg, s, a).calls
  {
    hide PreparedText, FactsFromPrepared, Resolved, Evaluate, OnExecution, TestsExecution;
  }

  /** An allowed patch of unknown outcome pauses the task untested, with nothing noted. */
  lemma PatchUnknown(cfg: Config, s: CoreSession, a: Answers, diff: string)
    requires CarriedOut(cfg, s, a, diff) && a.applied == Applier.UnknownOutcome
    ensures StepOf(cfg, s, a).end
            == Finished(s.(actionCount := s.actionCount + 1, status := PausedForHuman), "unknown_outcome")
    ensures FullTest !in StepOf(cfg, s, a).calls
  {
    hide PreparedText, FactsFromPrepared, Resolved, Evaluate, OnExecution, TestsExecution;
  }

  /** The session once a patch and its full test have been noted. */
  function PatchNoted(s: CoreSession, applied: Applier.ApplyOutcome, summary: string): CoreSession {
    s.(actionCount := s.actionCount + 1,
       history := s.history + [HistoryEntry("apply_patch", if applied.Applied? then "patch applied"
       else "patch application failed"), HistoryEntry("full_test", summary)])
  }

  /** What such a step comes to: the end of taking in the tests, and all its calls. */
  lemma PatchStep(cfg: Config, s: CoreSession, a: Answers, diff: string, x: ActionExecution)
    requires CarriedOut(cfg, s, a, diff) && a.applied != Applier.UnknownOutcome
    requires Answered(PostPatch, a.tool, cfg.rules) == Some(x) && |x.safeSummary| <= 8192
    ensures StepOf(cfg, s, a).end == OnExecution(cfg, PatchNoted(s, a.applied, x.safeSummary), x)
    ensures var prepared := PreparedText(diff, a.snapshot.value);
            var facts := FactsOfDiff(diff, a.snapshot.value, a.tree.value, cfg.mode);
            StepOf(cfg, s, a).calls == [Generate, PreparePatch(diff, prepared), Judge(facts, Evaluate(facts)),
              ExecutePatch(prepared.value, a.applied, true), FullTest]
  {
    hide PreparedText, FactsFromPrepared, Resolved, Evaluate, OnExecution, TestsExecution;
    NotedTwice(s, PatchNoted(s, a.applied, "").history[|s.history|], HistoryEntry("full_test", x.safeSummary));
  }

  /**
   * An allowed patch of known outcome is noted, tested in full and its test noted: a workspace that changed meanwhile
   * pauses the task, and otherwise the result is taken in.
   */
  lemma PatchTested(cfg: Config, s: CoreSession, a: Answers, diff: string, e: Evidence, p0: ParsedTestResult)
    requires CarriedOut(cfg, s, a, diff) && a.applied != Applier.UnknownOutcome && a.tool == Pytest(e)
    requires ParsePytest(e.launch, RunOf(PostPatch, e, cfg.rules), cfg.rules) == Some(p0)
    ensures var noted, end := PatchNoted(s, a.applied, p0.summary), StepOf(cfg, s, a).end;
            var p := p0.(sourceRevision := Of(e.revision));
            && (e.before != e.after ==> end == Finished(noted.(status := PausedForHuman), "workspace_drift"))
            && (e.before == e.after && (Sayable(s, p) || (s.previousResult == None && p.outcome != ParsedPassed)) ==>
                  TakenIn(cfg, noted, PostPatch, p, end))
    ensures var prepared := PreparedText(diff, a.snapshot.value);
            var facts := FactsOfDiff(diff, a.snapshot.value, a.tree.value, cfg.mode);
            StepOf(cfg, s, a).calls == [Generate, PreparePatch(diff, prepared), Judge(facts, Evaluate(facts)),
              ExecutePatch(prepared.value, a.applied, true), FullTest]
  {
    hide PreparedText, FactsOfDiff, Evaluate, OnExecution, ParsePytest, Sayable, TakenIn, RunOf, StepOf;
    var x := TestsExecution(PostPatch, e, cfg.rules).value;
    var noted := PatchNoted(s, a.applied, p0.summary);
    HarnessOutcomes.AnyPhase(PostPatch, e, cfg.rules);
    PatchStep(cfg, s, a, diff, x);
    RunDrifts(PostPatch, e, cfg.rules);
    if e.before != e.after {
      HarnessOutcomes.DriftPauses(cfg, noted, PostPatch, e);
    } else {
      var p := p0.(sourceRevision := Of(e.revision));
      SameSayable(s, noted, p);
      if Sayable(s, p) || (s.previousResult == None && p.outcome != ParsedPassed) {
        ExecutionTakenIn(cfg, noted, x);
      }
    }
  }

  lemma NotedTwice(s: CoreSession, first: HistoryEntry, second: HistoryEntry)
    ensures s.history + [first] + [second] == s.history + [first, second]
  {
  }

  lemma SameSayable(s: CoreSession, t: CoreSession, p: ParsedTestResult)
    requires s.previousResult == t.previousResult && s.resultHistory == t.resultHistory
    ensures Sayable(s, p) <==> Sayable(t, p)
  {
  }

  lemma RunDrifts(phase: TestPhase, e: Evidence, rules: TextRules)
    ensures RunOf(phase, e, rules).outcome == WorkspaceDrift <==> e.before != e.after
    ensures RunOf(phase, e, rules).phase == phase
    ensures RunOf(phase, e, rules).outcome == UnknownOutcome <==> e.before == e.after && e.launch.status == Unknown
  {
  }

  /** A requested test run is noted and its result taken in, unless nothing is known of how it ended. */
  lemma TestsRun(cfg: Config, s: CoreSession, a: Answers, focused: bool, e: Evidence, p0: ParsedTestResult)
    requires Asks(cfg, s) && a.reply == Chosen(RunTests(focused)) && a.tool == Pytest(e)
    requires ParsePytest(e.launch, RunOf(if focused then Focused else RequestedFull, e, cfg.rules), cfg.rules)
             == Some(p0)
    ensures var noted, end := Noted(s, "run_tests", p0.summary), StepOf(cfg, s, a).end;
            var p := p0.(sourceRevision := Of(e.revision));
            && (e.before != e.after ==> end == Finished(noted.(status := PausedForHuman), "workspace_drift"))
            && (e.before == e.after && e.launch.status == Unknown ==>
                  end == Finished(s.(actionCount := s.actionCount + 1, status := PausedForHuman), "unknown_outcome"))
            && (e.before == e.after && e.launch.status != Unknown
                && (Sayable(s, p) || (s.previousResult == None && p.outcome != ParsedPassed)) ==>
                  TakenIn(cfg, noted, if focused then Focused else RequestedFull, p, end))
    ensures StepOf(cfg, s, a).calls
            == [Generate, Judge(NO_FACTS, PolicyDecision(Allow, Allowed)), ExecuteTool(RunTests(focused))]
  {
    hide Evaluate, OnExecution, ParsePytest, Sayable, TakenIn, RunOf;
    var phase := if focused then Focused else RequestedFull;
    var x := TestsExecution(phase, e, cfg.rules).value;
    var noted := Noted(s, "run_tests", p0.summary);
    NoFactsAllowed();
    AnyPhaseBack(phase, e, cfg.rules);
    HarnessOutcomes.AnyPhase(phase, e, cfg.rules);
    RunDrifts(phase, e, cfg.rules);
    if e.before != e.after {
      HarnessOutcomes.DriftPauses(cfg, noted, phase, e);
    } else if e.launch.status != Unknown {
      var p := p0.(sourceRevision := Of(e.revision));
      SameSayable(s, noted, p);
      if Sayable(s, p) || (s.previousResult == None && p.outcome != ParsedPassed) {
        ExecutionTakenIn(cfg, noted, x);
      }
    }
  }

  lemma AnyPhaseBack(phase: TestPhase, e: Evidence, rules: TextRules)
    requires TestsExecution(phase, e, rules).Some?
    ensures TestsExecution(PostPatch, e, rules).Some?
  {
    hide Utf8.Encode, CollectionFailed, SortedSet, OutputText, Blank;
  }

  /** Any other tool is run and noted, and the task goes on deciding. */
  lemma ToolRun(cfg: Config, s: CoreSession, a: Answers, action: Action, x: ActionExecution)
    requires Asks(cfg, s) && a.reply == Chosen(action)
    requires action.ListFiles? || action.ReadFile? || action.SearchCode? || action.GitDiff? || action.GitStatus?
             || action.RunDiagnostic?
    requires a.tool == Scripted(x) && x.testRun == None && !x.unknownOutcome && |x.safeSummary| <= 8192
    ensures StepOf(cfg, s, a).end == Finished(Noted(s, TypeOf(action), x.safeSummary), "continue")
  {
    hide Evaluate;
    NoFactsAllowed();
  }

  // ---------------------------------------------------------------- exceptions

  /** Something raises before anything is carried out, or the tool does. */
  predicate Raises(cfg: Config, a: Answers) {
    match a.reply
    case ReplyRaised => true
    case ProtocolError(_) => false
    case Chosen(RequestHuman) => false
    case Chosen(ApplyPatch(diff)) =>
      cfg.canPatch
      && (a.snapshot.OtherRaised?
          || (a.snapshot.Given? && PreparedText(diff, a.snapshot.value).Ok? && a.tree.OtherRaised?))
    case Chosen(_) => a.tool.ToolRaised?
  }

  /** Any other exception ends the step and leaves the session as it was, the action uncounted. */
  lemma ExceptionsChangeNothing(cfg: Config, s: CoreSession, a: Answers)
    requires Asks(cfg, s) && Raises(cfg, a)
    ensures StepOf(cfg, s, a).end == StepRaised && After(s, StepOf(cfg, s, a)) == s
  {
    hide PreparedText, Evaluate, FactsFromPrepared, Resolved, OnExecution, TestsExecution;
    NoFactsAllowed();
  }

  /** A full test that raises leaves the session as it was, although the patch has been carried out. */
  lemma TestsRaise(cfg: Config, s: CoreSession, a: Answers, diff: string)
    requires CarriedOut(cfg, s, a, diff) && a.applied != Applier.UnknownOutcome && a.tool == ToolRaised
    ensures StepOf(cfg, s, a).end == StepRaised && After(s, StepOf(cfg, s, a)) == s
    ensures exists i :: 0 <= i < |StepOf(cfg, s, a).calls|
                        && StepOf(cfg, s, a).calls[i]
                           == ExecutePatch(PreparedText(diff, a.snapshot.value).value, a.applied, true)
  {
    hide PreparedText, Evaluate, FactsFromPrepared, Resolved, OnExecution;
    assert StepOf(cfg, s, a).calls[3].ExecutePatch?;
  }

  // ---------------------------------------------------------------- success

  lemma PassedIsSafe()
    ensures SafeLine("pytest passed")
  {
    hide Utf8.Encode;
    HarnessOutcomes.EncodeLength("pytest passed");
  }

  lemma PassingResult(phase: TestPhase, e: Evidence, rules: TextRules)
    requires PassingEvidence(e, rules)
    ensures ParsePytest(e.launch, RunOf(phase, e, rules), rules)
            == Some(ParsedTestResult(e.runId, phase, ParsedPassed, [], None, "pytest passed", [], false,
              UnknownRevision))
  {
    PassedIffEvidence(phase, e, rules);
  }

  /** The session once a pass has been taken in. */
  function Passing(s: CoreSession, phase: TestPhase, e: Evidence): CoreSession {
    var p := ParsedTestResult(e.runId, phase, ParsedPassed, [], None, "pytest passed", [], false, Of(e.revision));
    s.(previousResult := Some(p), resultHistory := s.resultHistory + [p], feedbackSummary := Some("pytest passed"),
       feedbackCount := s.feedbackCount + 1)
  }

  /**
   * Success is not only earned but given: whatever came before, a task whose allowed patch is carried out with a known
   * outcome, applied or not, and whose full test gives passing evidence, has succeeded.
   */
  lemma PassingPatchSucceeds(cfg: Config, s: CoreSession, a: Answers, diff: string, e: Evidence)
    requires CarriedOut(cfg, s, a, diff) && a.applied != Applier.UnknownOutcome
    requires a.tool == Pytest(e) && PassingEvidence(e, cfg.rules)
    ensures StepOf(cfg, s, a).end
            == Finished(Passing(PatchNoted(s, a.applied, "pytest passed"), PostPatch, e).(status := Succeeded),
              "tests_passed")
  {
    hide PassingEvidence, ParsePytest, StepOf, SafeLine, CarriedOut;
    PassingResult(PostPatch, e, cfg.rules);
    PassedIsSafe();
    EvidenceUndrifted(e, cfg.rules);
    PatchTested(cfg, s, a, diff, e, ParsePytest(e.launch, RunOf(PostPatch, e, cfg.rules), cfg.rules).value);
  }

  lemma EvidenceUndrifted(e: Evidence, rules: TextRules)
    requires PassingEvidence(e, rules)
    ensures e.before == e.after && e.launch.status == Completed
  {
  }

  /** And so has a task that requests a full test run with passing evidence; a focused run is mere feedback. */
  lemma PassingRunSucceeds(cfg: Config, s: CoreSession, a: Answers, focused: bool, e: Evidence)
    requires Asks(cfg, s) && a.reply == Chosen(RunTests(focused)) && a.tool == Pytest(e)
    requires PassingEvidence(e, cfg.rules)
    ensures var taken := Passing(Noted(s, "run_tests", "pytest passed"), if focused then Focused else RequestedFull, e);
            StepOf(cfg, s, a).end ==
            if !focused then Finished(taken.(status := Succeeded), "tests_passed")
            else if s.feedbackCount + 1 >= cfg.maxFeedback then Finished(taken.(status := Stopped), "budget_exhausted")
            else Finished(taken, "feedback")
  {
    hide PassingEvidence, ParsePytest, StepOf, SafeLine;
    var phase := if focused then Focused else RequestedFull;
    PassingResult(phase, e, cfg.rules);
    PassedIsSafe();
    EvidenceUndrifted(e, cfg.rules);
    TestsRun(cfg, s, a, focused, e, ParsePytest(e.launch, RunOf(phase, e, cfg.rules), cfg.rules).value);
  }

  lemma NotCarriedOut(cfg: Config, s: CoreSession, a: Answers, diff: string)
    requires Asks(cfg, s) && a.reply == Chosen(ApplyPatch(diff))
    requires !CarriedOut(cfg, s, a, diff) || a.applied == Applier.UnknownOutcome
    ensures After(s, StepOf(cfg, s, a)).status != Succeeded
  {
    hide PreparedText, FactsFromPrepared, Resolved, Evaluate, OnExecution, TestsExecution;
  }

  /**
   * When a step whose tests are run by pytest ends in success: exactly on passing evidence, after a request for a full
   * run, or a patch that was prepared, allowed and carried out with a known outcome.
   */
  lemma SucceedsExactly(cfg: Config, s: CoreSession, a: Answers, e: Evidence)
    requires Asks(cfg, s) && a.reply.Chosen? && a.tool == Pytest(e)
    ensures After(s, StepOf(cfg, s, a)).status == Succeeded <==>
            && PassingEvidence(e, cfg.rules)
            && (a.reply.action == RunTests(false)
                || (a.reply.action.ApplyPatch? && CarriedOut(cfg, s, a, a.reply.action.diff)
                    && a.applied != Applier.UnknownOutcome))
  {
    hide PassingEvidence, ParsePytest, StepOf, SafeLine, CarriedOut;
    var action := a.reply.action;
    if After(s, StepOf(cfg, s, a)).status == Succeeded {
      HarnessOutcomes.SuccessIsEarned(cfg, s, a);
    }
    if action.ApplyPatch? {
      if !CarriedOut(cfg, s, a, action.diff) || a.applied == Applier.UnknownOutcome {
        NotCarriedOut(cfg, s, a, action.diff);
      } else if PassingEvidence(e, cfg.rules) {
        PassingPatchSucceeds(cfg, s, a, action.diff, e);
      }
    } else if action == RunTests(false) && PassingEvidence(e, cfg.rules) {
      PassingRunSucceeds(cfg, s, a, false, e);
    }
  }
}
