/** The agent loop of `core/harness.py`: one budgeted step after another over a session store. */
module Harness {
  import opened Base
  import opened PatchModels
  import opened PatchParser
  import opened Policy
  import opened TestRunner
  import opened PytestParser
  import opened Feedback
  import Applier

  datatype TaskStatus =
    | Created | Preflight | AwaitingTrust | PreflightFailed | PreparingWorkspace | BaselineTesting | CannotReproduce
    | Deciding | ValidatingAction | PreparingPatch | PolicyCheck | AwaitingApproval | ResumeValidating
    | RevalidatingPatch
    | ApplyingPatch | CompensationRollback | ExecutingNonPatch | Testing | Succeeded | RegressionRollback
    | RecoveryTesting | PausedForHuman | Stopped | TaskCancelled

  datatype HistoryEntry = HistoryEntry(actionType: string, safeResult: string)

  datatype CoreSession = CoreSession(
    status: TaskStatus,
    history: seq<HistoryEntry>,
    previousResult: Option<ParsedTestResult>,
    resultHistory: seq<ParsedTestResult>,
    feedbackSummary: Option<string>,
    actionCount: nat,
    feedbackCount: nat)

  const NEW_SESSION := CoreSession(Deciding, [], None, [], None, 0, 0)

  // ---------------------------------------------------------------- what the collaborators answer

  datatype Action =
    | ListFiles | ReadFile | SearchCode | GitDiff | GitStatus | RunDiagnostic
    | RunTests(focused: bool)
    | ApplyPatch(diff: string)
    | RequestHuman

  function TypeOf(a: Action): string {
    match a
    case ListFiles => "list_files"
    case ReadFile => "read_file"
    case SearchCode => "search_code"
    case GitDiff => "git_diff"
    case GitStatus => "git_status"
    case RunDiagnostic => "run_diagnostic"
    case RunTests(_) => "run_tests"
    case ApplyPatch(_) => "apply_patch"
    case RequestHuman => "request_human"
  }

  /** What the model's answer parses to. */
  datatype Reply = ProtocolError(message: string) | Chosen(action: Action) | ReplyRaised

  datatype ActionExecution = ActionExecution(
    safeSummary: string,
    sourceRevision: Revision,
    testRun: Option<TestRun>,
    parsedResult: Option<ParsedTestResult>,
    unknownOutcome: bool)

  /** A tool answers with an execution of its own making, or by running pytest, or raises. */
  datatype ToolAnswer = Scripted(execution: ActionExecution) | Pytest(evidence: Evidence) | ToolRaised

  /** An answer or an exception; the step handles a `TypeError` or `ValueError` of its own and passes on any other. */
  datatype Answer<+T> = Given(value: T) | ValueRaised | OtherRaised

  /** Everything the collaborators contribute to one step; without a revision, hashing the workspace raised. */
  datatype Answers = Answers(
    reply: Reply,
    snapshot: Answer<Files>,
    tree: Answer<Tree>,
    tool: ToolAnswer,
    applied: Applier.ApplyOutcome,
    patchRevision: Option<Revision>)

  datatype Config = Config(maxActions: nat, maxFeedback: nat, canPatch: bool, mode: Mode, rules: TextRules)

  /** A call the core makes on a collaborator, in the order in which it makes them. */
  datatype Call =
    | Generate
    | PreparePatch(diff: string, prepared: Result<PreparedPatch, PatchError>)
    | Judge(facts: PolicyFacts, decision: PolicyDecision)
    | ExecutePatch(patch: PreparedPatch, outcome: Applier.ApplyOutcome, returned: bool)
    | ExecuteTool(action: Action)
    | FullTest

  /** A step ends by saving a session with a reason, or with an exception that leaves the store as it was. */
  datatype StepEnd = Finished(session: CoreSession, reason: string) | StepRaised

  datatype StepResult = StepResult(end: StepEnd, calls: seq<Call>)

  // ---------------------------------------------------------------- the step, as a function

  /** `_append`; the history entry refuses results of more than 8192 characters. */
  function Append(s: CoreSession, actionType: string, result: string): Option<CoreSession> {
    if |result| > 8192 then None
    else Some(s.(history := s.history + [HistoryEntry(actionType, result)]))
  }

  /** `_feedback_gate`. */
  function FeedbackGate(cfg: Config, s: CoreSession, phase: TestPhase, kind: Option<FeedbackKind>): StepEnd {
    if kind == Some(PassedFeedback) && phase != Focused then Finished(s.(status := Succeeded), "tests_passed")
    else if kind == Some(Loop) then Finished(s.(status := Stopped), "loop")
    else if kind == Some(NoProgress) then Finished(s.(status := Stopped), "no_progress")
    else if kind == Some(EnvironmentFeedback) then Finished(s.(status := PausedForHuman), "environment_error")
    else if kind == Some(UnparseableFeedback) then Finished(s.(status := PausedForHuman), "unparseable")
    else if s.feedbackCount >= cfg.maxFeedback then Finished(s.(status := Stopped), "budget_exhausted")
    else Finished(s, "feedback")
  }

  function OutcomeName(o: TestRunOutcome): string {
    match o
    case Passed => "passed"
    case Failed => "failed"
    case TimedOut => "timed_out"
    case ResourceLimit => "resource_limit"
    case EnvironmentError => "environment_error"
    case Unparseable => "unparseable"
    case Cancelled => "cancelled"
    case UnknownOutcome => "unknown_outcome"
    case WorkspaceDrift => "workspace_drift"
  }

  /** The session after a result has been taken in. */
  function Record(s: CoreSession, current: ParsedTestResult, summary: string): CoreSession {
    s.(previousResult := Some(current), resultHistory := s.resultHistory + [current],
       feedbackSummary := Some(summary), feedbackCount := s.feedbackCount + 1)
  }

  /** From an execution to the end of the step. */
  function OnExecution(cfg: Config, s: CoreSession, x: ActionExecution): StepEnd {
    match x.testRun
    case None => Finished(s, "continue")
    case Some(run) =>
      if run.outcome == WorkspaceDrift then Finished(s.(status := PausedForHuman), "workspace_drift")
      else if x.parsedResult == None then Finished(s.(status := PausedForHuman), OutcomeName(run.outcome))
      else
        var current := x.parsedResult.value.(sourceRevision := x.sourceRevision);
        if s.previousResult == None && current.outcome != ParsedPassed then
          FeedbackGate(cfg, Record(s, current, current.summary), run.phase, None)
        else
          match Analyze(s.previousResult, current, s.resultHistory)
          case None => StepRaised
          case Some(feedback) => FeedbackGate(cfg, Record(s, current, feedback.summary), run.phase, Some(feedback.kind))
  }

  /** `CoreTestRunner._run`; `None` when the result model refuses the parsed output. */
  function TestsExecution(phase: TestPhase, e: Evidence, rules: TextRules): Option<ActionExecution> {
    var run := RunOf(phase, e, rules);
    match ParsePytest(e.launch, run, rules)
    case None => None
    case Some(parsed) => Some(ActionExecution(parsed.summary, Of(e.revision), Some(run), Some(parsed),
      run.outcome == UnknownOutcome))
  }

  function Answered(phase: TestPhase, tool: ToolAnswer, rules: TextRules): Option<ActionExecution> {
    match tool
    case Scripted(x) => Some(x)
    case Pytest(e) => TestsExecution(phase, e, rules)
    case ToolRaised => None
  }

  /** An execution without a test run; `None` when hashing the workspace raised. */
  function Unrun(summary: string, revision: Option<Revision>, unknownOutcome: bool): Option<ActionExecution> {
    if revision == None then None else Some(ActionExecution(summary, revision.value, None, None, unknownOutcome))
  }

  /** `execute` of an action that is not a patch: only `run_tests` runs pytest. */
  function Executed(cfg: Config, action: Action, a: Answers): Option<ActionExecution> {
    match action
    case RunTests(focused) => Answered(if focused then Focused else RequestedFull, a.tool, cfg.rules)
    case _ =>
      match a.tool
      case Scripted(x) => Some(x)
      case Pytest(_) => Unrun("action is not supported", a.patchRevision, false)
      case ToolRaised => None
  }

  /** `execute_patch`; `None` when applying raised, or hashing the workspace afterwards. */
  function PatchExecution(a: Answers): Option<ActionExecution> {
    match a.applied
    case Raised => None
    case Applied(_) => Unrun("patch applied", a.patchRevision, false)
    case outcome => Unrun("patch application failed", a.patchRevision, outcome == Applier.UnknownOutcome)
  }

  /** After a reply that is not executed: stop if that was the last action allowed. */
  function OrStop(cfg: Config, s: Option<CoreSession>, reason: string): StepEnd {
    match s
    case None => StepRaised
    case Some(s') =>
      if s'.actionCount >= cfg.maxActions then Finished(s'.(status := Stopped), "budget_exhausted")
        else Finished(s', reason)
  }

  /** A patch that passed policy: execute it, and test it in full unless the outcome is unknown. */
  function OnAllowedPatch(cfg: Config, s: CoreSession, patch: PreparedPatch, a: Answers): StepResult {
    var executed := [ExecutePatch(patch, a.applied, PatchExecution(a).Some?)];
    match PatchExecution(a)
    case None => StepResult(StepRaised, executed)
    case Some(x) =>
      if x.unknownOutcome then StepResult(Finished(s.(status := PausedForHuman), "unknown_outcome"), executed)
      else
        match Append(s, "apply_patch", x.safeSummary)
        case None => StepResult(StepRaised, executed)
        case Some(s1) =>
          match Answered(PostPatch, a.tool, cfg.rules)
          case None => StepResult(StepRaised, executed + [FullTest])
          case Some(tests) =>
            match Append(s1, "full_test", tests.safeSummary)
            case None => StepResult(StepRaised, executed + [FullTest])
            case Some(s2) => StepResult(OnExecution(cfg, s2, tests), executed + [FullTest])
  }

  function OnAllowedTool(cfg: Config, s: CoreSession, action: Action, a: Answers): StepResult {
    var executed := [ExecuteTool(action)];
    match Executed(cfg, action, a)
    case None => StepResult(StepRaised, executed)
    case Some(x) =>
      if x.unknownOutcome then StepResult(Finished(s.(status := PausedForHuman), "unknown_outcome"), executed)
      else
        match Append(s, TypeOf(action), x.safeSummary)
        case None => StepResult(StepRaised, executed)
        case Some(s1) => StepResult(OnExecution(cfg, s1, x), executed)
  }

  function ReasonText(r: ReasonCode): string {
    match r
    case Allowed => "allowed"
    case TestAssetProtection => "test_asset_protection"
    case ProtectedConfig => "protected_config"
    case PathSafety => "path_safety"
    case BinaryUnsupported => "binary_unsupported"
    case ShellForbidden => "shell_forbidden"
    case CapabilityMissing => "capability_missing"
    case DemoEscape => "demo_escape"
    case PatchHardLimit => "patch_hard_limit"
    case PatchRequiresApproval => "patch_requires_approval"
    case SourceDelete => "source_delete"
    case SensitivePathTouched => "sensitive_path"
    case DependencyConfig => "dependency_config"
  }

  /** The verdict on an action, and what follows from it. */
  function OnJudged(cfg: Config, s: CoreSession, action: Action, patch: Option<PreparedPatch>, facts: PolicyFacts,
                    a: Answers): StepResult {
    var decision := Evaluate(facts);
    var judged := [Judge(facts, decision)];
    match decision.outcome
    case Deny => StepResult(OrStop(cfg, Append(s, "policy_deny", ReasonText(decision.reason)), "policy_deny"), judged)
    case RequireApproval => StepResult(Finished(s.(status := AwaitingApproval), "approval_required"), judged)
    case Allow =>
      var r := if patch == None then OnAllowedTool(cfg, s, action, a) else OnAllowedPatch(cfg, s, patch.value, a);
      StepResult(r.end, judged + r.calls)
  }

  function NotPrepared(s: CoreSession, message: string): StepEnd {
    match Append(s, "patch_prepare_failed", message)
    case None => StepRaised
    case Some(s') => Finished(s', "patch_prepare_failed")
  }

  function OnPatch(cfg: Config, s: CoreSession, diff: string, a: Answers): StepResult {
    if !cfg.canPatch then StepResult(NotPrepared(s, "patch preparation is unavailable"), [])
    else
      match a.snapshot
      case ValueRaised => StepResult(NotPrepared(s, "patch preparation failed"), [])
      case OtherRaised => StepResult(StepRaised, [])
      case Given(files) =>
        var prepared := PreparedText(diff, files);
        var called := [PreparePatch(diff, prepared)];
        if prepared.Err? || a.tree.ValueRaised? then StepResult(NotPrepared(s, "patch preparation failed"), called)
        else if a.tree.OtherRaised? then StepResult(StepRaised, called)
        else
          var patch := prepared.value;
          var facts := FactsFromPrepared(diff, patch, Resolved(patch.files, a.tree.value, cfg.mode));
          var r := OnJudged(cfg, s, ApplyPatch(diff), Some(patch), facts, a);
          StepResult(r.end, called + r.calls)
  }

  function OnReply(cfg: Config, s: CoreSession, a: Answers): StepResult {
    match a.reply
    case ReplyRaised => StepResult(StepRaised, [])
    case ProtocolError(message) => StepResult(OrStop(cfg, Append(s, "protocol_error", message), "protocol_error"), [])
    case Chosen(RequestHuman) =>
      StepResult(
        match Append(s, "request_human", "human review requested")
        case None => StepRaised
        case Some(s') => Finished(s'.(status := PausedForHuman), "request_human"), [])
    case Chosen(ApplyPatch(diff)) => OnPatch(cfg, s, diff, a)
    case Chosen(action) => OnJudged(cfg, s, action, None, NO_FACTS, a)
  }

  /** One step of the loop on a stored session. */
  function StepOf(cfg: Config, s: CoreSession, a: Answers): StepResult {
    if s.status != Deciding then StepResult(Finished(s, "not_deciding"), [])
    else if s.actionCount >= cfg.maxActions || s.feedbackCount >= cfg.maxFeedback then
      StepResult(Finished(s.(status := Stopped), "budget_exhausted"), [])
    else
      var r := OnReply(cfg, s.(actionCount := s.actionCount + 1), a);
      StepResult(r.end, [Generate] + r.calls)
  }

  /** The stored session after a step. */
  function After(s: CoreSession, r: StepResult): CoreSession {
    if r.end.Finished? then r.end.session else s
  }
}
