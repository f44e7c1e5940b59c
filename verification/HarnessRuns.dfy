/** What holds over every run of the agent loop on one task, however often it is paused and resumed. */
module HarnessRuns {
  import opened Base
  import opened Policy
  import opened PatchModels
  import opened PatchParser
  import opened TestRunner
  import opened PytestParser
  import opened Feedback
  import opened Harness

  /** What can happen to a stored task: a step of the core, or a human resuming it. */
  datatype Op = Step(answers: Answers) | Resume

  /** The stored session, and what was done and went wrong on the way to it. */
  datatype Life = Life(session: CoreSession, calls: seq<Call>, raised: nat)

  const BIRTH := Life(NEW_SESSION, [], 0)

  function Perform(cfg: Config, l: Life, op: Op): Life {
    match op
    case Step(a) =>
      var r := StepOf(cfg, l.session, a);
      Life(After(l.session, r), l.calls + r.calls, l.raised + if r.end.StepRaised? then 1 else 0)
    case Resume =>
      if l.session.status == PausedForHuman then l.(session := l.session.(status := Deciding)) else l
  }

  function PerformAll(cfg: Config, l: Life, ops: seq<Op>): Life
    decreases |ops|
  {
    if ops == [] then l else Perform(cfg, PerformAll(cfg, l, ops[..|ops| - 1]), ops[|ops| - 1])
  }

  /** A life can be taken up where another left it. */
  lemma {:induction false} PerformAllAppend(cfg: Config, l: Life, first: seq<Op>, more: seq<Op>)
    ensures PerformAll(cfg, l, first + more) == PerformAll(cfg, PerformAll(cfg, l, first), more)
    decreases |more|
  {
    hide Perform;
    if more == [] {
      assert first + more == first;
    } else {
      assert (first + more)[..|first + more| - 1] == first + more[..|more| - 1];
      PerformAllAppend(cfg, l, first, more[..|more| - 1]);
    }
  }

  // ---------------------------------------------------------------- results

  /** No failing result repeats a fingerprint except right away and on changed source. */
  predicate NoRepeats(results: seq<ParsedTestResult>) {
    forall i, j :: 0 <= i < j < |results| && Failing(results[i]) && Failing(results[j])
                   && StateFingerprint(results[i]) == StateFingerprint(results[j]) ==>
                     j == i + 1 && results[i].sourceRevision != results[j].sourceRevision
  }

  predicate ResultsConsistent(s: CoreSession) {
    && s.feedbackCount == |s.resultHistory|
    && s.previousResult == (if s.resultHistory == [] then None else Some(s.resultHistory[|s.resultHistory| - 1]))
  }

  predicate WithinBudget(cfg: Config, s: CoreSession) {
    s.actionCount <= cfg.maxActions && s.feedbackCount <= cfg.maxFeedback
  }

  predicate SessionInvariant(cfg: Config, s: CoreSession) {
    && ResultsConsistent(s)
    && WithinBudget(cfg, s)
    && (s.status != Stopped ==> NoRepeats(s.resultHistory))
  }

  /** Taking in one more failing result that is neither a loop nor without progress keeps repeats out. */
  lemma NoRepeatsGrows(results: seq<ParsedTestResult>, current: ParsedTestResult)
    requires NoRepeats(results) && results != []
    requires Failing(current) && Analyze(Some(results[|results| - 1]), current, results).Some?
    requires Analyze(Some(results[|results| - 1]), current, results).value.kind !in {Loop, NoProgress}
    ensures NoRepeats(results + [current])
  {
    hide Analyze, StateFingerprint, Failing;
    NoProgressExactly(results[|results| - 1], current, results);
    var all := results + [current];
    forall i, j | 0 <= i < j < |all| && Failing(all[i]) && Failing(all[j])
      && StateFingerprint(all[i]) == StateFingerprint(all[j])
      ensures j == i + 1 && all[i].sourceRevision != all[j].sourceRevision
    {
      if j < |results| {
        assert all[i] == results[i] && all[j] == results[j];
      } else {
        assert all[i] == results[i] && all[j] == current;
      }
    }
  }

  lemma NoRepeatsPassing(results: seq<ParsedTestResult>, current: ParsedTestResult)
    requires NoRepeats(results) && (results == [] || !Failing(current))
    ensures NoRepeats(results + [current])
  {
    hide StateFingerprint, Failing;
    var all := results + [current];
    assert forall i :: 0 <= i < |results| ==> all[i] == results[i];
  }

  lemma AnalyzeKinds(previous: Option<ParsedTestResult>, current: ParsedTestResult, history: seq<ParsedTestResult>)
    requires Analyze(previous, current, history).Some?
    ensures Failing(current) ==> previous.Some?
    ensures Analyze(previous, current, history).value.kind in {Loop, NoProgress} ==> Failing(current)
    ensures Analyze(previous, current, history).value.kind == PassedFeedback <==> current.outcome == ParsedPassed
    ensures Analyze(previous, current, history).value.kind == EnvironmentFeedback <==>
              current.outcome == ParsedEnvironmentError
    ensures Analyze(previous, current, history).value.kind == UnparseableFeedback <==>
              current.outcome == ParsedUnparseable
  {
    hide ValidDecision, FindMatch;
  }

  lemma RecordedResults(s: CoreSession, current: ParsedTestResult, summary: string)
    requires ResultsConsistent(s)
    ensures ResultsConsistent(Record(s, current, summary))
  {
  }

  lemma ExecutionKeepsInvariant(cfg: Config, s: CoreSession, x: ActionExecution)
    requires SessionInvariant(cfg, s) && s.status == Deciding && s.feedbackCount < cfg.maxFeedback
    requires OnExecution(cfg, s, x).Finished?
    ensures SessionInvariant(cfg, OnExecution(cfg, s, x).session)
    ensures OnExecution(cfg, s, x).session.actionCount == s.actionCount
  {
    hide Analyze, NoRepeats, OutcomeName;
    if x.testRun.Some? && x.testRun.value.outcome != WorkspaceDrift && x.parsedResult.Some? {
      var current := x.parsedResult.value.(sourceRevision := x.sourceRevision);
      RecordedResults(s, current, current.summary);
      LastResult(s);
      if s.previousResult == None && current.outcome != ParsedPassed {
        NoRepeatsPassing(s.resultHistory, current);
      } else {
        AnalyzeKinds(s.previousResult, current, s.resultHistory);
        var d := Analyze(s.previousResult, current, s.resultHistory).value;
        RecordedResults(s, current, d.summary);
        if !Failing(current) {
          NoRepeatsPassing(s.resultHistory, current);
        } else if d.kind !in {Loop, NoProgress} {
          NoRepeatsGrows(s.resultHistory, current);
        }
      }
    }
  }

  lemma LastResult(s: CoreSession)
    requires ResultsConsistent(s)
    ensures s.previousResult == None <==> s.resultHistory == []
    ensures s.previousResult.Some? ==> s.previousResult == Some(s.resultHistory[|s.resultHistory| - 1])
  {
  }

  /** A session that only gained history entries or a status other than stopped is as good as before. */
  lemma SameResults(cfg: Config, s: CoreSession, t: CoreSession)
    requires SessionInvariant(cfg, s) && s.status != Stopped
    requires t.resultHistory == s.resultHistory && t.previousResult == s.previousResult
            && t.feedbackCount == s.feedbackCount
    requires t.actionCount <= s.actionCount || t.actionCount <= cfg.maxActions
    ensures SessionInvariant(cfg, t)
  {
  }

  /** What a part of a step that begins with session `s` may end with. */
  predicate GoodEnd(cfg: Config, s: CoreSession, end: StepEnd) {
    end.Finished? ==> SessionInvariant(cfg, end.session) && end.session.actionCount == s.actionCount
  }

  lemma AllowedKeepsInvariant(cfg: Config, s: CoreSession, action: Action, patch: Option<PreparedPatch>, a: Answers)
    requires SessionInvariant(cfg, s) && s.status == Deciding && s.feedbackCount < cfg.maxFeedback
    ensures GoodEnd(cfg, s, OnAllowedTool(cfg, s, action, a).end)
    ensures patch.Some? ==> GoodEnd(cfg, s, OnAllowedPatch(cfg, s, patch.value, a).end)
  {
    hide OnExecution, SessionInvariant, TestsExecution;
    SameResults(cfg, s, s.(status := PausedForHuman));
    var tool := Executed(cfg, action, a);
    if tool.Some? && Append(s, TypeOf(action), tool.value.safeSummary).Some? {
      ExecutionKeeps(cfg, s, Append(s, TypeOf(action), tool.value.safeSummary).value, tool.value);
    }
    var x := PatchExecution(a);
    if x.Some? && Append(s, "apply_patch", x.value.safeSummary).Some? {
      var s1 := Append(s, "apply_patch", x.value.safeSummary).value;
      var tests := Answered(PostPatch, a.tool, cfg.rules);
      if tests.Some? && Append(s1, "full_test", tests.value.safeSummary).Some? {
        ExecutionKeeps(cfg, s, Append(s1, "full_test", tests.value.safeSummary).value, tests.value);
      }
    }
  }

  lemma ExecutionKeeps(cfg: Config, s: CoreSession, t: CoreSession, x: ActionExecution)
    requires SessionInvariant(cfg, s) && s.status == Deciding && s.feedbackCount < cfg.maxFeedback
    requires t == s.(history := t.history)
    ensures GoodEnd(cfg, s, OnExecution(cfg, t, x))
  {
    hide OnExecution;
    SameResults(cfg, s, t);
    if OnExecution(cfg, t, x).Finished? {
      ExecutionKeepsInvariant(cfg, t, x);
    }
  }

  lemma OrStopKeeps(cfg: Config, s: CoreSession, t: Option<CoreSession>, reason: string)
    requires SessionInvariant(cfg, s) && s.status == Deciding
    requires t.Some? ==> t.value == s.(history := t.value.history)
    ensures GoodEnd(cfg, s, OrStop(cfg, t, reason))
  {
    if t.Some? {
      SameResults(cfg, s, t.value);
      SameResults(cfg, s, t.value.(status := Stopped));
    }
  }

  lemma JudgedKeepsInvariant(cfg: Config, s: CoreSession, action: Action, patch: Option<PreparedPatch>,
                             facts: PolicyFacts, a: Answers)
    requires SessionInvariant(cfg, s) && s.status == Deciding && s.feedbackCount < cfg.maxFeedback
    ensures GoodEnd(cfg, s, OnJudged(cfg, s, action, patch, facts, a).end)
  {
    hide Evaluate, OnAllowedTool, OnAllowedPatch, SessionInvariant;
    AllowedKeepsInvariant(cfg, s, action, patch, a);
    OrStopKeeps(cfg, s, Append(s, "policy_deny", ReasonText(Evaluate(facts).reason)), "policy_deny");
    SameResults(cfg, s, s.(status := AwaitingApproval));
  }

  lemma ReplyKeepsInvariant(cfg: Config, s: CoreSession, a: Answers)
    requires SessionInvariant(cfg, s) && s.status == Deciding && s.feedbackCount < cfg.maxFeedback
    ensures GoodEnd(cfg, s, OnReply(cfg, s, a).end)
  {
    hide OnJudged, SessionInvariant, PreparedText;
    match a.reply
    case ReplyRaised =>
    case ProtocolError(message) => OrStopKeeps(cfg, s, Append(s, "protocol_error", message), "protocol_error");
    case Chosen(action) =>
      JudgedKeepsInvariant(cfg, s, action, None, NO_FACTS, a);
      var human := Append(s, "request_human", "human review requested");
      if human.Some? { SameResults(cfg, s, human.value.(status := PausedForHuman)); }
      if action.ApplyPatch? { PatchKeepsInvariant(cfg, s, action.diff, a); }
  }

  lemma PatchKeepsInvariant(cfg: Config, s: CoreSession, diff: string, a: Answers)
    requires SessionInvariant(cfg, s) && s.status == Deciding && s.feedbackCount < cfg.maxFeedback
    ensures GoodEnd(cfg, s, OnPatch(cfg, s, diff, a).end)
  {
    hide OnJudged, SessionInvariant, PreparedText;
    NotPreparedKeeps(cfg, s, "patch preparation is unavailable");
    NotPreparedKeeps(cfg, s, "patch preparation failed");
    if a.snapshot.Given? && PreparedText(diff, a.snapshot.value).Ok? && a.tree.Given? {
      var patch := PreparedText(diff, a.snapshot.value).value;
      JudgedKeepsInvariant(cfg, s, ApplyPatch(diff), Some(patch),
        FactsFromPrepared(diff, patch, Resolved(patch.files, a.tree.value, cfg.mode)), a);
    }
  }

  lemma NotPreparedKeeps(cfg: Config, s: CoreSession, message: string)
    requires SessionInvariant(cfg, s) && s.status == Deciding
    ensures GoodEnd(cfg, s, NotPrepared(s, message))
  {
    var t := Append(s, "patch_prepare_failed", message);
    if t.Some? {
      SameResults(cfg, s, t.value);
    }
  }

  /** Each step keeps the invariant; one that stays deciding has used up exactly one action. */
  lemma StepKeepsInvariant(cfg: Config, s: CoreSession, a: Answers)
    requires SessionInvariant(cfg, s)
    ensures SessionInvariant(cfg, After(s, StepOf(cfg, s, a)))
    ensures StepOf(cfg, s, a).end.Finished? && StepOf(cfg, s, a).end.session.status == Deciding ==>
              StepOf(cfg, s, a).end.session.actionCount == s.actionCount + 1
  {
    hide OnReply;
    if s.status == Deciding {
      if s.actionCount < cfg.maxActions && s.feedbackCount < cfg.maxFeedback {
        var s1 := s.(actionCount := s.actionCount + 1);
        SameResults(cfg, s, s1);
        ReplyKeepsInvariant(cfg, s1, a);
      }
    }
  }

  /** Over every life of a task, the session stays consistent, within budget and, unless stopped, free of repeats. */
  lemma {:induction false} EveryLifeKeepsInvariant(cfg: Config, ops: seq<Op>)
    ensures SessionInvariant(cfg, PerformAll(cfg, BIRTH, ops).session)
    decreases |ops|
  {
    hide StepOf, SessionInvariant;
    if ops == [] {
      assert SessionInvariant(cfg, NEW_SESSION) by { NewSessionInvariant(cfg); }
    } else {
      var l := PerformAll(cfg, BIRTH, ops[..|ops| - 1]);
      EveryLifeKeepsInvariant(cfg, ops[..|ops| - 1]);
      match ops[|ops| - 1]
      case Step(a) => StepKeepsInvariant(cfg, l.session, a);
      case Resume =>
        if l.session.status == PausedForHuman {
          ResumedInvariant(cfg, l.session);
        }
    }
  }

  lemma NewSessionInvariant(cfg: Config)
    ensures SessionInvariant(cfg, NEW_SESSION)
  {
  }

  lemma ResumedInvariant(cfg: Config, s: CoreSession)
    requires SessionInvariant(cfg, s) && s.status == PausedForHuman
    ensures SessionInvariant(cfg, s.(status := Deciding))
  {
  }
}
