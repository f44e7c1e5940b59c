/** The core and the application service as objects: a session store, the step that updates it, and the loop. */
module HarnessLoop {
  import opened Base
  import opened PatchModels
  import opened PatchParser
  import opened Policy
  import opened TestRunner
  import opened PytestParser
  import opened Feedback
  import opened Harness
  import opened HarnessRuns
  import Utf8

  type TaskId = nat

  class InMemorySessionStore {
    var sessions: map<TaskId, CoreSession>

    constructor ()
      ensures sessions == map[]
    {
      sessions := map[];
    }

    method Save(task: TaskId, session: CoreSession)
      modifies this
      ensures sessions == old(sessions)[task := session]
    {
      sessions := sessions[task := session];
    }
  }

  /** What a caller of the core sees: a saved outcome, or an exception. */
  datatype CoreOutcome =
    | CoreOutcome(status: TaskStatus, actionCount: nat, feedbackCount: nat, reason: string)
    | CoreRaised

  function OutcomeOf(end: StepEnd): CoreOutcome {
    match end
    case StepRaised => CoreRaised
    case Finished(s, reason) => CoreOutcome(s.status, s.actionCount, s.feedbackCount, reason)
  }

  /** The steps a run makes: the collaborators' answers from one turn to another. */
  function Turns(answers: nat -> Answers, from: nat, n: nat): seq<Op> {
    seq(n, i requires 0 <= i < n => Step(answers(from + i)))
  }

  lemma TurnsSplit(answers: nat -> Answers, from: nat, n: nat)
    ensures Turns(answers, from, n + 1)[..n] == Turns(answers, from, n)
    ensures Turns(answers, from, n + 1)[n] == Step(answers(from + n))
  {
  }

  class HarnessCore {
    const store: InMemorySessionStore
    const cfg: Config
    const answers: nat -> Answers
    var turn: nat
    ghost var calls: seq<Call>

    constructor (store: InMemorySessionStore, cfg: Config, answers: nat -> Answers)
      ensures this.store == store && this.cfg == cfg && this.answers == answers && turn == 0 && calls == []
    {
      this.store, this.cfg, this.answers, turn, calls := store, cfg, answers, 0, [];
    }

    /** `_save`: the end of a step that updates the store. */
    method Finish(task: TaskId, session: CoreSession, reason: string) returns (outcome: CoreOutcome)
      modifies store
      ensures store.sessions == old(store.sessions)[task := session]
      ensures outcome == OutcomeOf(Finished(session, reason))
    {
      store.Save(task, session);
      outcome := CoreOutcome(session.status, session.actionCount, session.feedbackCount, reason);
    }

    /** The effect of a step end on the store. */
    ghost predicate Stored(before: map<TaskId, CoreSession>, after: map<TaskId, CoreSession>, task: TaskId,
                           end: StepEnd) {
      after == if end.Finished? then before[task := end.session] else before
    }

    /** `_feedback_gate`. */
    method Gate(task: TaskId, session: CoreSession, phase: TestPhase, kind: Option<FeedbackKind>)
      returns (outcome: CoreOutcome)
      modifies store
      ensures Stored(old(store.sessions), store.sessions, task, FeedbackGate(cfg, session, phase, kind))
      ensures outcome == OutcomeOf(FeedbackGate(cfg, session, phase, kind))
    {
      if kind == Some(PassedFeedback) && phase != Focused {
        outcome := Finish(task, session.(status := Succeeded), "tests_passed");
        return;
      }
      if kind == Some(Loop) {
        outcome := Finish(task, session.(status := Stopped), "loop");
        return;
      }
      if kind == Some(NoProgress) {
        outcome := Finish(task, session.(status := Stopped), "no_progress");
        return;
      }
      if kind == Some(EnvironmentFeedback) || kind == Some(UnparseableFeedback) {
        var reason := if kind == Some(EnvironmentFeedback) then "environment_error" else "unparseable";
        outcome := Finish(task, session.(status := PausedForHuman), reason);
        return;
      }
      if session.feedbackCount >= cfg.maxFeedback {
        outcome := Finish(task, session.(status := Stopped), "budget_exhausted");
        return;
      }
      outcome := Finish(task, session, "feedback");
    }

    /** The last part of `step`: what an execution's test run means for the session. */
    method TakeIn(task: TaskId, session0: CoreSession, execution: ActionExecution) returns (outcome: CoreOutcome)
      modifies store
      ensures Stored(old(store.sessions), store.sessions, task, OnExecution(cfg, session0, execution))
      ensures outcome == OutcomeOf(OnExecution(cfg, session0, execution))
    {
      var session := session0;
      if execution.testRun == None {
        outcome := Finish(task, session, "continue");
        return;
      }
      var run := execution.testRun.value;
      if run.outcome == WorkspaceDrift {
        session := session.(status := PausedForHuman);
        outcome := Finish(task, session, "workspace_drift");
        return;
      }
      if execution.parsedResult == None {
        session := session.(status := PausedForHuman);
        outcome := Finish(task, session, OutcomeName(run.outcome));
        return;
      }
      var current := execution.parsedResult.value.(sourceRevision := execution.sourceRevision);
      if session.previousResult == None && current.outcome != ParsedPassed {
        session := Record(session, current, current.summary);
        outcome := Gate(task, session, run.phase, None);
        return;
      }
      var feedback := Analyze(session.previousResult, current, session.resultHistory);
      if feedback == None {
        return CoreRaised;
      }
      session := Record(session, current, feedback.value.summary);
      outcome := Gate(task, session, run.phase, Some(feedback.value.kind));
    }

    /** The middle part of `step`: judge the action, carry it out if it is allowed, and test after a patch. */
    method JudgeAndExecute(task: TaskId, session0: CoreSession, action: Action, patch: Option<PreparedPatch>,
                           facts: PolicyFacts, a: Answers)
        returns (outcome: CoreOutcome)
      modifies this`calls, store
      ensures var r := OnJudged(cfg, session0, action, patch, facts, a);
              && Stored(old(store.sessions), store.sessions, task, r.end)
              && outcome == OutcomeOf(r.end)
              && calls == old(calls) + r.calls
    {
      hide OnExecution, Evaluate, TestsExecution, OutcomeName;
      var session := session0;
      var decision := Evaluate(facts);
      calls := calls + [Judge(facts, decision)];
      if decision.outcome == Deny {
        var denied := Append(session, "policy_deny", ReasonText(decision.reason));
        if denied == None {
          return CoreRaised;
        }
        session := denied.value;
        if session.actionCount >= cfg.maxActions {
          outcome := Finish(task, session.(status := Stopped), "budget_exhausted");
          return;
        }
        outcome := Finish(task, session, "policy_deny");
        return;
      }
      if decision.outcome == RequireApproval {
        outcome := Finish(task, session.(status := AwaitingApproval), "approval_required");
        return;
      }
      var execution;
      if patch != None {
        execution := PatchExecution(a);
        calls := calls + [ExecutePatch(patch.value, a.applied, execution != None)];
      } else {
        calls := calls + [ExecuteTool(action)];
        execution := Executed(cfg, action, a);
      }
      if execution == None {
        return CoreRaised;
      }
      if execution.value.unknownOutcome {
        outcome := Finish(task, session.(status := PausedForHuman), "unknown_outcome");
        return;
      }
      var appended := Append(session, if patch != None then "apply_patch"
        else TypeOf(action), execution.value.safeSummary);
      if appended == None {
        return CoreRaised;
      }
      session := appended.value;
      if patch != None {
        calls := calls + [FullTest];
        execution := Answered(PostPatch, a.tool, cfg.rules);
        if execution == None {
          return CoreRaised;
        }
        appended := Append(session, "full_test", execution.value.safeSummary);
        if appended == None {
          return CoreRaised;
        }
        session := appended.value;
      }
      outcome := TakeIn(task, session, execution.value);
    }

    /** `step`. A task that is not stored raises, like every failure of a collaborator, and changes nothing. */
    method Step(task: TaskId) returns (outcome: CoreOutcome)
      modifies this, store
      ensures turn == old(turn) + 1
      ensures task !in old(store.sessions) ==> outcome == CoreRaised && store.sessions == old(store.sessions)
                                               && calls == old(calls)
      ensures task in old(store.sessions) ==>
                var r := StepOf(cfg, old(store.sessions)[task], answers(old(turn)));
                && store.sessions == old(store.sessions)[task := After(old(store.sessions)[task], r)]
                && calls == old(calls) + r.calls
                && outcome == OutcomeOf(r.end)
    {
      hide OnReply;
      var a := answers(turn);
      turn := turn + 1;
      if task !in store.sessions {
        return CoreRaised;
      }
      var session := store.sessions[task];
      ghost var before := store.sessions;
      assert before[task := session] == before;
      if session.status != Deciding {
        return CoreOutcome(session.status, session.actionCount, session.feedbackCount, "not_deciding");
      }
      if session.actionCount >= cfg.maxActions || session.feedbackCount >= cfg.maxFeedback {
        outcome := Finish(task, session.(status := Stopped), "budget_exhausted");
        return;
      }
      calls := calls + [Generate];
      session := session.(actionCount := session.actionCount + 1);
      outcome := StepReply(task, session, a);
    }

    /** The part of `step` after the model has answered. */
    method StepReply(task: TaskId, session: CoreSession, a: Answers) returns (outcome: CoreOutcome)
      modifies this`calls, store
      ensures var r := OnReply(cfg, session, a);
              && Stored(old(store.sessions), store.sessions, task, r.end)
              && outcome == OutcomeOf(r.end)
              && calls == old(calls) + r.calls
    {
      hide OnJudged, OnPatch;
      match a.reply {
        case ReplyRaised =>
          return CoreRaised;
        case ProtocolError(message) =>
          var appended := Append(session, "protocol_error", message);
          if appended == None {
            return CoreRaised;
          }
          if appended.value.actionCount >= cfg.maxActions {
            outcome := Finish(task, appended.value.(status := Stopped), "budget_exhausted");
            return;
          }
          outcome := Finish(task, appended.value, "protocol_error");
        case Chosen(action) =>
          match action {
            case RequestHuman =>
              var appended := Append(session, "request_human", "human review requested");
              if appended == None {
                return CoreRaised;
              }
              outcome := Finish(task, appended.value.(status := PausedForHuman), "request_human");
            case ApplyPatch(diff) =>
              outcome := StepPatch(task, session, diff, a);
            case _ =>
              outcome := JudgeAndExecute(task, session, action, None, NO_FACTS, a);
          }
      }
    }

    method StepPatch(task: TaskId, session: CoreSession, diff: string, a: Answers) returns (outcome: CoreOutcome)
      modifies this`calls, store
      ensures var r := OnPatch(cfg, session, diff, a);
              && Stored(old(store.sessions), store.sessions, task, r.end)
              && outcome == OutcomeOf(r.end)
              && calls == old(calls) + r.calls
    {
      hide OnJudged, Prepared, FactsFromPrepared, Resolved;
      var prepared: Result<PreparedPatch, PatchError> := Err(EmptyDiff);
      if cfg.canPatch && a.snapshot.OtherRaised? {
        return CoreRaised;
      }
      if cfg.canPatch && a.snapshot.Given? {
        prepared := Prepare(Utf8.Encode(diff), a.snapshot.value);
        calls := calls + [PreparePatch(diff, prepared)];
      }
      if prepared.Err? || a.tree.ValueRaised? {
        var message := if cfg.canPatch then "patch preparation failed" else "patch preparation is unavailable";
        var appended := Append(session, "patch_prepare_failed", message);
        if appended == None {
          return CoreRaised;
        }
        outcome := Finish(task, appended.value, "patch_prepare_failed");
        return;
      }
      if a.tree.OtherRaised? {
        return CoreRaised;
      }
      var safety := Resolve(prepared.value, a.tree.value, cfg.mode);
      var facts := FactsFromPrepared(diff, prepared.value, safety);
      outcome := JudgeAndExecute(task, session, ApplyPatch(diff), Some(prepared.value), facts, a);
    }

    /**
     * `run`: steps until the task is no longer deciding. It terminates whatever the collaborators answer, and leaves
     * the session that the `n` steps it made lead to.
     */
    method Run(task: TaskId) returns (outcome: CoreOutcome, ghost n: nat)
      modifies this, store
      ensures task !in old(store.sessions) ==> outcome == CoreRaised && store.sessions == old(store.sessions)
      ensures task in old(store.sessions) ==>
                var l := PerformAll(cfg, Life(old(store.sessions)[task], old(calls), 0), Turns(answers, old(turn), n));
                store.sessions == old(store.sessions)[task := l.session] && calls == l.calls
      ensures outcome.CoreOutcome? ==> outcome.status != Deciding && task in store.sessions
                                       && store.sessions[task].status == outcome.status
      ensures task in old(store.sessions) ==>
                var used := old(store.sessions)[task].actionCount;
                n <= 1 + if used <= cfg.maxActions then cfg.maxActions - used else 0
    {
      hide StepOf;
      n := 0;
      if task in store.sessions {
        assert store.sessions[task := store.sessions[task]] == store.sessions;
      }
      ghost var start := if task in store.sessions then store.sessions[task].actionCount else 0;
      while true
        invariant turn == old(turn) + n
        invariant task !in old(store.sessions) ==> store.sessions == old(store.sessions)
        invariant task in old(store.sessions) ==>
                    task in store.sessions
                    && var l := PerformAll(cfg, Life(old(store.sessions)[task], old(calls), 0),
                      Turns(answers, old(turn), n));
                       store.sessions == old(store.sessions)[task := l.session] && calls == l.calls
        invariant task in old(store.sessions) ==> n == store.sessions[task].actionCount - start
        invariant task in old(store.sessions) ==> n == 0 || store.sessions[task].actionCount <= cfg.maxActions
        decreases if task in store.sessions && store.sessions[task].actionCount <= cfg.maxActions
          then cfg.maxActions - store.sessions[task].actionCount else 0
      {
        ghost var before := store.sessions;
        if task in before {
          StepProgress(cfg, before[task], answers(turn));
          TurnsSplit(answers, old(turn), n);
        }
        outcome := Step(task);
        n := n + 1;
        if outcome.CoreRaised? || outcome.status != Deciding {
          return;
        }
      }
    }
  }

  lemma ExecutionCount(cfg: Config, s: CoreSession, x: ActionExecution)
    ensures var end := OnExecution(cfg, s, x); end.Finished? ==> end.session.actionCount == s.actionCount
  {
    hide Analyze, OutcomeName;
  }

  lemma JudgedCount(cfg: Config, s: CoreSession, action: Action, patch: Option<PreparedPatch>, facts: PolicyFacts,
                    a: Answers)
    ensures var end := OnJudged(cfg, s, action, patch, facts, a).end; end.Finished? ==>
              end.session.actionCount == s.actionCount
  {
    hide OnExecution, Evaluate, TestsExecution;
    forall s': CoreSession, x | s'.actionCount == s.actionCount
      ensures OnExecution(cfg, s', x).Finished? ==> OnExecution(cfg, s', x).session.actionCount == s.actionCount
    {
      ExecutionCount(cfg, s', x);
    }
  }

  lemma ReplyCount(cfg: Config, s: CoreSession, a: Answers)
    ensures var end := OnReply(cfg, s, a).end; end.Finished? ==> end.session.actionCount == s.actionCount
  {
    hide OnJudged, PreparedText, FactsFromPrepared, Resolved;
    if a.reply.Chosen? {
      forall patch: Option<PreparedPatch>, facts
        ensures var end := OnJudged(cfg, s, a.reply.action, patch, facts, a).end; end.Finished? ==>
                  end.session.actionCount == s.actionCount
      {
        JudgedCount(cfg, s, a.reply.action, patch, facts, a);
      }
    }
  }

  /** Whatever the session, a step that leaves it deciding has used one of the remaining actions. */
  lemma StepProgress(cfg: Config, s: CoreSession, a: Answers)
    ensures var r := StepOf(cfg, s, a);
            r.end.Finished? && r.end.session.status == Deciding ==>
              s.actionCount < cfg.maxActions && r.end.session.actionCount == s.actionCount + 1
  {
    hide OnReply;
    ReplyCount(cfg, s.(actionCount := s.actionCount + 1), a);
  }

  /** `ApplicationService`. */
  class ApplicationService {
    const core: HarnessCore

    constructor (core: HarnessCore)
      ensures this.core == core
    {
      this.core := core;
    }

    method RunSession(task: TaskId, session: CoreSession) returns (outcome: CoreOutcome, ghost n: nat)
      modifies core, core.store
      ensures var l := PerformAll(core.cfg, Life(session, old(core.calls), 0), Turns(core.answers, old(core.turn), n));
              core.store.sessions == old(core.store.sessions)[task := l.session] && core.calls == l.calls
      ensures outcome.CoreOutcome? ==> outcome.status != Deciding
    {
      core.store.Save(task, session);
      outcome, n := core.Run(task);
      assert old(core.store.sessions)[task := session][task] == session;
    }

    /** Only a task paused for a human can be resumed; it then runs on from where it was. */
    method ResumeTask(task: TaskId) returns (outcome: CoreOutcome, ghost n: nat)
      modifies core, core.store
      ensures task !in old(core.store.sessions) || old(core.store.sessions)[task].status != PausedForHuman ==>
                outcome == CoreRaised && core.store.sessions == old(core.store.sessions)
                  && core.calls == old(core.calls)
      ensures task in old(core.store.sessions) && old(core.store.sessions)[task].status == PausedForHuman ==>
                var l0 := Perform(core.cfg, Life(old(core.store.sessions)[task], old(core.calls), 0), Resume);
                var l := PerformAll(core.cfg, l0, Turns(core.answers, old(core.turn), n));
                core.store.sessions == old(core.store.sessions)[task := l.session] && core.calls == l.calls
    {
      n := 0;
      if task !in core.store.sessions {
        return CoreRaised, n;
      }
      var session := core.store.sessions[task];
      if session.status != PausedForHuman {
        return CoreRaised, n;
      }
      core.store.Save(task, session.(status := Deciding));
      outcome, n := core.Run(task);
    }
  }
}
