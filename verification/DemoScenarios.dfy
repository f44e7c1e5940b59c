/**
 * The three fixed demonstration scenarios from end to end: what the agent loop does with their scripted actions, what
 * trace is built of that, and that a run of the service returns it.
 */
module DemoScenarios {
  import opened Base
  import opened Lines
  import opened Policy
  import opened PatchModels
  import opened PatchParser
  import opened PatchRoundTrip
  import opened PatchSeverity
  import opened TestRunner
  import opened PytestParser
  import opened Feedback
  import opened Harness
  import opened HarnessRuns
  import opened HarnessSteps
  import opened Trace
  import opened TraceContract
  import HarnessOutcomes
  import PatchPaths
  import Applier
  import Rollback
  import RunProtocol
  import RunFailures
  import RunService
  import Utf8

  const REGISTRY := map[
    "feedback_success" := RunProtocol.Scenario("feedback_success", Succeeded, FEEDBACK_SUCCESS),
    "governance_denied" := RunProtocol.Scenario("governance_denied", Stopped, GOVERNANCE_DENIED),
    "human_review_pause" := RunProtocol.Scenario("human_review_pause", PausedForHuman, HUMAN_REVIEW_PAUSE)]

  // ---------------------------------------------------------------- a scripted patch

  /** A path that is neither a test asset nor a secret nor a configuration or dependency file. */
  predicate OrdinaryPath(p: Path) {
    && !StartsWith(p, "tests/") && !Base.EndsWith(p, "_test.py") && !Base.EndsWith(p, "/conftest.py")
    && !StartsWith(p, "harness-data/") && !StartsWith(p, ".env")
    && !Base.EndsWith(p, ".pem") && !Base.EndsWith(p, ".key")
    && !StartsWith(p, "requirements/")
    && p !in {"pyproject.toml", "setup.cfg", "pytest.ini", "tox.ini", ".coding-harness.toml", "requirements.txt",
              "requirements-dev.txt", "poetry.lock", "uv.lock", "Pipfile", "Pipfile.lock"}
  }

  /** A script that changes one file of text and can be written as a diff. */
  predicate TextEdit(s: Script) {
    && Renderable(s) && NoneLooksLikeHeader(s.edits) && s.operation == Modify
    && '\0' !in OldText(s.edits) && '\0' !in NewText(s.edits)
  }

  /** The diff is prepared as the one plan that the script asks for. */
  lemma EditPrepared(s: Script, files: Files)
    requires TextEdit(s) && Fits(s, files)
    ensures PreparedText(Render([s]), files).Ok?
    ensures var p := PreparedText(Render([s]), files).value;
            && p.files == [PlanOf(s)]
            && p.facts.addedLines == Added(s.edits) && p.facts.deletedLines == Deleted(s.edits)
  {
    hide PreparedText, Renderable, NoneLooksLikeHeader, Fits, PlanOf, TestAsset, SensitivePath, Added, Deleted;
    PrepareInvertsRendering([s], files);
    assert [s][1..] == [];
    assert AllFit([s], files, {}) by {
      assert AllFit([s][1..], files, {} + {s.path});
    }
    assert SectionsOf([]) == Sections([], 0, 0);
    assert SectionsOf([s]).plans == [PlanOf(s)];
  }

  lemma NoNul(s: Script)
    requires TextEdit(s)
    ensures !HoldsNul([PlanOf(s)])
  {
    hide Utf8.Encode, OldText, NewText, Renderable, NoneLooksLikeHeader;
    Utf8.AsciiInEncode(OldText(s.edits), '\0');
    Utf8.AsciiInEncode(NewText(s.edits), '\0');
  }

  /** A small change of one ordinary file inside the workspace is allowed. */
  lemma SmallEditAllowed(s: Script, files: Files, tree: Tree)
    requires TextEdit(s) && Fits(s, files) && OrdinaryPath(s.path) && !tree.escapes(s.path) && !tree.symlink(s.path)
    requires Added(s.edits) + Deleted(s.edits) <= 300 && |Utf8.Encode(Render([s]))| <= 1_048_576
    ensures PreparedText(Render([s]), files).Ok?
    ensures Evaluate(FactsOfDiff(Render([s]), files, tree, Real)).outcome == Allow
  {
    hide PreparedText, TextEdit, Fits, Evaluate, FactsOfDiff, HoldsNul, Utf8.Encode, Render, Added, Deleted, StartsWith,
         Base.EndsWith;
    EditPrepared(s, files);
    NoNul(s);
    VerdictOfDiff(Render([s]), files, tree, Real);
    assert PlanOf(s).path == s.path && PlanOf(s).operation == Modify by { OnePlan(s); }
  }

  lemma OnePlan(s: Script)
    requires TextEdit(s)
    ensures PlanOf(s).path == s.path && PlanOf(s).operation == Modify
  {
  }

  // ---------------------------------------------------------------- the three tasks

  /** The model proposes a scripted patch, and the workspace answers as it is. */
  ghost predicate Scripted(a: Answers, diff: string, files: Files, tree: Tree) {
    a.reply == Chosen(ApplyPatch(diff)) && a.snapshot == Given(files) && a.tree == Given(tree)
  }

  /** The scripted patch is harmless, fits the files, and is applied. */
  ghost predicate Harmless(a: Answers, s: Script, files: Files, tree: Tree) {
    && Scripted(a, Render([s]), files, tree)
    && TextEdit(s) && Fits(s, files) && OrdinaryPath(s.path) && !tree.escapes(s.path) && !tree.symlink(s.path)
    && Added(s.edits) + Deleted(s.edits) <= 300 && |Utf8.Encode(Render([s]))| <= 1_048_576
    && a.applied.Applied? && a.patchRevision.Some?
  }

  lemma HarmlessCarriedOut(cfg: Config, s: CoreSession, a: Answers, script: Script, files: Files, tree: Tree)
    requires Asks(cfg, s) && cfg.canPatch && cfg.mode == Real && Harmless(a, script, files, tree)
    ensures CarriedOut(cfg, s, a, Render([script]))
  {
    hide PreparedText, TextEdit, Fits, Render, Evaluate, FactsOfDiff, OrdinaryPath, Utf8.Encode;
    SmallEditAllowed(script, files, tree);
  }

  /**
   * `feedback_success`: a first patch after which a test fails, and a second after which all pass. Two actions are
   * enough, and the task has succeeded.
   */
  lemma FeedbackSucceeds(cfg: Config, a1: Answers, a2: Answers, s1: Script, s2: Script, files1: Files, files2: Files,
                         tree: Tree, e1: Evidence, e2: Evidence, p: ParsedTestResult)
    requires cfg.canPatch && cfg.mode == Real && cfg.maxActions >= 2 && cfg.maxFeedback >= 2
    requires Harmless(a1, s1, files1, tree) && a1.tool == Pytest(e1) && e1.before == e1.after
    requires ParsePytest(e1.launch, RunOf(PostPatch, e1, cfg.rules), cfg.rules) == Some(p)
             && p.outcome == ParsedFailed
    requires Harmless(a2, s2, files2, tree) && a2.tool == Pytest(e2) && PassingEvidence(e2, cfg.rules)
    ensures var s := PerformAll(cfg, BIRTH, [Step(a1), Step(a2)]).session;
            && s.status == Succeeded && s.actionCount == 2 && s.feedbackCount == 2
            && s.history == [HistoryEntry("apply_patch", "patch applied"), HistoryEntry("full_test", p.summary),
                             HistoryEntry("apply_patch", "patch applied"), HistoryEntry("full_test", "pytest passed")]
  {
    hide StepOf, Harmless, ParsePytest, PassingEvidence, CarriedOut, Sayable, RunOf;
    TwoSteps(cfg, a1, a2);
    AppliedBoth(a1, s1, files1, a2, s2, files2, tree);
    HarmlessCarriedOut(cfg, NEW_SESSION, a1, s1, files1, tree);
    PatchTested(cfg, NEW_SESSION, a1, Render([s1]), e1, p);
    var s := After(NEW_SESSION, StepOf(cfg, NEW_SESSION, a1));
    assert Asks(cfg, s);
    HarmlessCarriedOut(cfg, s, a2, s2, files2, tree);
    PassingPatchSucceeds(cfg, s, a2, Render([s2]), e2);
  }

  lemma TwoSteps(cfg: Config, a1: Answers, a2: Answers)
    ensures PerformAll(cfg, BIRTH, [Step(a1)]).session == After(NEW_SESSION, StepOf(cfg, NEW_SESSION, a1))
    ensures var s := After(NEW_SESSION, StepOf(cfg, NEW_SESSION, a1));
            PerformAll(cfg, BIRTH, [Step(a1), Step(a2)]).session == After(s, StepOf(cfg, s, a2))
  {
    hide StepOf;
    var ops := [Step(a1), Step(a2)];
    assert ops[..1] == [Step(a1)] && [Step(a1)][..0] == [];
    assert PerformAll(cfg, BIRTH, []) == BIRTH;
    assert PerformAll(cfg, BIRTH, [Step(a1)]) == Perform(cfg, BIRTH, Step(a1));
  }

  lemma AppliedBoth(a1: Answers, s1: Script, files1: Files, a2: Answers, s2: Script, files2: Files, tree: Tree)
    requires Harmless(a1, s1, files1, tree) && Harmless(a2, s2, files2, tree)
    ensures a1.applied.Applied? && a2.applied.Applied?
  {
  }

  /** `governance_denied`: a patch to a test, as the only action allowed, is denied and stops the task unexecuted. */
  lemma DenialStops(cfg: Config, a: Answers, diff: string, files: Files, tree: Tree)
    requires cfg.canPatch && cfg.maxActions == 1 && cfg.maxFeedback >= 1
    requires Scripted(a, diff, files, tree) && PreparedText(diff, files).Ok?
    requires NamesTests(PreparedText(diff, files).value.files)
    ensures var s := PerformAll(cfg, BIRTH, [Step(a)]).session;
            s.status == Stopped && s.history == [HistoryEntry("policy_deny", "test_asset_protection")]
  {
    hide StepOf, PreparedText, NamesTests;
    TwoSteps(cfg, a, a);
    TestPatchDenied(cfg, NEW_SESSION, a, diff);
  }

  /** `human_review_pause`: asking for a human, as the only action allowed, pauses the task. */
  lemma RequestPauses(cfg: Config, a: Answers)
    requires cfg.maxActions >= 1 && cfg.maxFeedback >= 1 && a.reply == Chosen(RequestHuman)
    ensures var s := PerformAll(cfg, BIRTH, [Step(a)]).session;
            s.status == PausedForHuman && s.history == [HistoryEntry("request_human", "human review requested")]
  {
    hide StepOf;
    TwoSteps(cfg, a, a);
    HumanAsked(cfg, NEW_SESSION, a);
  }

  // ---------------------------------------------------------------- their traces

  lemma ContractsAreShort()
    ensures FEEDBACK_SUCCESS.maxEvents == 7 && GOVERNANCE_DENIED.maxEvents == 3 && HUMAN_REVIEW_PAUSE.maxEvents == 2
  {
  }

  /** What the worker of a scenario writes, and the service accepts. */
  ghost predicate Accepted(id: string, history: seq<HistoryEntry>, status: TaskStatus, fold: string -> string) {
    && TraceOf(history, status, fold).Some? && id in REGISTRY
    && RunFailures.Fitting(REGISTRY[id],
         RunProtocol.WorkerResult(id, TraceOf(history, status, fold).value, status))
  }

  lemma FeedbackAccepted(history: seq<HistoryEntry>, fold: string -> string)
    requires TraceOf(history, Succeeded, fold).Some? && Consists(history, TWO_ROUNDS)
    ensures Accepted("feedback_success", history, Succeeded, fold)
  {
    hide Satisfies, TraceOf, Consists;
    PairedFour(history);
    FeedbackContractExactly(history, Succeeded, fold);
    ContractsAreShort();
    RequiredStatuses();
    ShortEnough(FEEDBACK_SUCCESS, TraceOf(history, Succeeded, fold).value);
  }

  lemma DenialAccepted(history: seq<HistoryEntry>, fold: string -> string)
    requires TraceOf(history, Stopped, fold).Some?
    requires history == [HistoryEntry("policy_deny", "test_asset_protection")]
    ensures Accepted("governance_denied", history, Stopped, fold)
  {
    hide Satisfies, TraceOf;
    DeniedContractExactly(history, Stopped, fold);
    ContractsAreShort();
    RequiredStatuses();
    ShortEnough(GOVERNANCE_DENIED, TraceOf(history, Stopped, fold).value);
  }

  lemma PauseAccepted(history: seq<HistoryEntry>, fold: string -> string)
    requires TraceOf(history, PausedForHuman, fold).Some?
    requires history == [HistoryEntry("request_human", "human review requested")]
    ensures Accepted("human_review_pause", history, PausedForHuman, fold)
  {
    hide Satisfies, TraceOf;
    assert HarnessOutcomes.Paired(history) by { PairedOne(history); }
    PauseContractExactly(history, PausedForHuman, fold);
    ContractsAreShort();
    RequiredStatuses();
    ShortEnough(HUMAN_REVIEW_PAUSE, TraceOf(history, PausedForHuman, fold).value);
  }

  lemma PairedOne(history: seq<HistoryEntry>)
    requires |history| == 1 && history[0].actionType == "request_human"
    ensures HarnessOutcomes.Paired(history)
  {
    HarnessOutcomes.OtherTypes("");
  }

  lemma ShortEnough(c: Contract, events: seq<Event>)
    ensures Satisfies(c, events) ==> |events| <= c.maxEvents
  {
  }

  lemma PairedFour(history: seq<HistoryEntry>)
    requires Consists(history, TWO_ROUNDS)
    ensures HarnessOutcomes.Paired(history)
  {
    FullTestIsNot();
  }

  lemma TellFour(history: seq<HistoryEntry>, fold: string -> string)
    requires Consists(history, TWO_ROUNDS)
    requires TestOutcome(history[1].safeResult, fold) == Some(Failed)
    requires TestOutcome(history[3].safeResult, fold) == Some(Passed)
    ensures Tell(history, fold).Some?
    ensures Tell(history, fold).value.events
            == [ActionSelected(ApplyPatchKind, 0), TestCompleted(Failed, 1), FeedbackProduced(InitialFailure, 2),
                ActionSelected(ApplyPatchKind, 3), TestCompleted(Passed, 4), FeedbackProduced(PassedCode, 5)]
  {
    hide TestOutcome;
    FullTestIsNot();
    assert history[..4] == history && history[..0] == [];
    TellOneMore(history, 0, fold);
    TellOneMore(history, 1, fold);
    TellOneMore(history, 2, fold);
    TellOneMore(history, 3, fold);
  }

  /** A scenario's task has run, with these words noted, and its worker has written what is shown here. */
  ghost predicate Written(id: string, s: CoreSession, events: seq<Event>, fold: string -> string) {
    Accepted(id, s.history, s.status, fold) && TraceOf(s.history, s.status, fold) == Some(events)
  }

  /** The seven events of `feedback_success`, accepted: a first failure, then a pass, and success. */
  lemma FeedbackWritten(s: CoreSession, summary: string, fold: string -> string)
    requires s.status == Succeeded
    requires s.history == [HistoryEntry("apply_patch", "patch applied"), HistoryEntry("full_test", summary),
                           HistoryEntry("apply_patch", "patch applied"), HistoryEntry("full_test", "pytest passed")]
    requires TestOutcome(summary, fold) == Some(Failed) && fold("pytest passed") == "pytest passed"
    ensures Written("feedback_success", s,
                    [ActionSelected(ApplyPatchKind, 0), TestCompleted(Failed, 1), FeedbackProduced(InitialFailure, 2),
                     ActionSelected(ApplyPatchKind, 3), TestCompleted(Passed, 4), FeedbackProduced(PassedCode, 5),
                     TerminalStatus(Succeeded, 6)], fold)
  {
    hide Accepted, Tell;
    TellFour(s.history, fold);
    assert TraceOf(s.history, Succeeded, fold).value
        == [ActionSelected(ApplyPatchKind, 0), TestCompleted(Failed, 1), FeedbackProduced(InitialFailure, 2),
            ActionSelected(ApplyPatchKind, 3), TestCompleted(Passed, 4), FeedbackProduced(PassedCode, 5),
            TerminalStatus(Succeeded, 6)];
    FeedbackAccepted(s.history, fold);
  }

  /** The three events of `governance_denied`, accepted. */
  lemma DenialWritten(s: CoreSession, fold: string -> string)
    requires s.status == Stopped && s.history == [HistoryEntry("policy_deny", "test_asset_protection")]
    ensures Written("governance_denied", s,
                    [ActionSelected(ApplyPatchKind, 0), PolicyDecided(Deny, TestAssetProtection, 1),
                     TerminalStatus(Stopped, 2)], fold)
  {
    hide Accepted, Tell;
    DenialIsNot();
    TellFirst(s.history, fold);
    assert TraceOf(s.history, Stopped, fold).value
        == [ActionSelected(ApplyPatchKind, 0), PolicyDecided(Deny, TestAssetProtection, 1), TerminalStatus(Stopped, 2)];
    DenialAccepted(s.history, fold);
  }

  /** The two events of `human_review_pause`, accepted. */
  lemma PauseWritten(s: CoreSession, fold: string -> string)
    requires s.status == PausedForHuman
    requires s.history == [HistoryEntry("request_human", "human review requested")]
    ensures Written("human_review_pause", s,
                    [ActionSelected(RequestHumanKind, 0), TerminalStatus(PausedForHuman, 1)], fold)
  {
    hide Accepted, Tell;
    HarnessOutcomes.OtherTypes("");
    assert "request_human"[0] != "apply_patch"[0];
    TellFirst(s.history, fold);
    assert TraceOf(s.history, PausedForHuman, fold).value
        == [ActionSelected(RequestHumanKind, 0), TerminalStatus(PausedForHuman, 1)];
    PauseAccepted(s.history, fold);
  }

  lemma TellFirst(history: seq<HistoryEntry>, fold: string -> string)
    requires |history| == 1
    ensures match EntryEvents(history[0], 0, None, fold)
            case None => Tell(history, fold) == None
            case Some(events) => Tell(history, fold).Some? && Tell(history, fold).value.events == events
  {
    assert history[..0] == [] && history[..1] == history;
    TellOneMore(history, 0, fold);
  }

  // ---------------------------------------------------------------- the service returns them

  /** A run of the service in a world without faults, in which the worker writes what it should, returns that trace. */
  method Demonstrate(world: RunService.World, id: string, ghost s: CoreSession, ghost events: seq<Event>,
                     ghost fold: string -> string)
    returns (outcome: RunService.Outcome)
    requires Written(id, s, events, fold)
    requires RunService.Faultless(world, RunProtocol.WorkerResult(id, events, s.status))
    ensures outcome == RunService.Returned(View(events, s.status))
  {
    hide RunFailures.Fitting, RunService.Faultless;
    var service := new RunService.DemoRunService(REGISTRY);
    var calls;
    outcome, calls := service.RunScenario(world, id);
  }
}
