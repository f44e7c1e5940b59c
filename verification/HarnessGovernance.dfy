/** What the agent loop does to the world over a task's life: governed patches, counted calls, earned success. */
module HarnessGovernance {
  import opened Base
  import opened Policy
  import opened PatchModels
  import opened PatchParser
  import opened TestRunner
  import opened PytestParser
  import opened Feedback
  import opened Harness
  import opened HarnessRuns
  import Applier

  // ---------------------------------------------------------------- how often a task can fail

  function FailCount(results: seq<ParsedTestResult>): nat
    decreases |results|
  {
    if results == [] then 0
    else FailCount(results[..|results| - 1]) + if Failing(results[|results| - 1]) then 1 else 0
  }

  function FailingFingerprints(results: seq<ParsedTestResult>): set<Fingerprint> {
    set i | 0 <= i < |results| && Failing(results[i]) :: StateFingerprint(results[i])
  }

  lemma FingerprintsGrow(results: seq<ParsedTestResult>)
    requires results != []
    ensures var front, last := results[..|results| - 1], results[|results| - 1];
            FailingFingerprints(results) == FailingFingerprints(front) + if Failing(last)
              then {StateFingerprint(last)} else {}
  {
    hide StateFingerprint, Failing;
    var front, last := results[..|results| - 1], results[|results| - 1];
    forall f | f in FailingFingerprints(results)
      ensures f in FailingFingerprints(front) + if Failing(last) then {StateFingerprint(last)} else {}
    {
      var i :| 0 <= i < |results| && Failing(results[i]) && StateFingerprint(results[i]) == f;
      if i < |front| {
        assert front[i] == results[i];
      }
    }
    forall f | f in FailingFingerprints(front) ensures f in FailingFingerprints(results) {
      var i :| 0 <= i < |front| && Failing(front[i]) && StateFingerprint(front[i]) == f;
      assert results[i] == front[i];
    }
  }

  lemma PrefixNoRepeats(results: seq<ParsedTestResult>, n: nat)
    requires NoRepeats(results) && n <= |results|
    ensures NoRepeats(results[..n])
  {
    hide StateFingerprint, Failing;
  }

  /** Without repeats, each failing fingerprint accounts for at most two failing results. */
  lemma {:induction false} EachFailureAtMostTwice(results: seq<ParsedTestResult>)
    requires NoRepeats(results)
    ensures FailCount(results) <= 2 * |FailingFingerprints(results)|
    decreases |results|
  {
    hide StateFingerprint, Failing, FailingFingerprints, NoRepeats;
    if results != [] {
      var n := |results|;
      var front, last := results[..n - 1], results[n - 1];
      PrefixNoRepeats(results, n - 1);
      EachFailureAtMostTwice(front);
      FingerprintsGrow(results);
      if Failing(last) && StateFingerprint(last) in FailingFingerprints(front) {
        RepeatIsAdjacent(results);
        var rest := results[..n - 2];
        assert front[..n - 2] == rest && front[n - 2] == results[n - 2];
        PrefixNoRepeats(results, n - 2);
        EachFailureAtMostTwice(rest);
        FingerprintsGrow(front);
      }
    }
  }

  lemma RepeatIsAdjacent(results: seq<ParsedTestResult>)
    requires results != [] && NoRepeats(results)
    requires Failing(results[|results| - 1])
            && StateFingerprint(results[|results| - 1]) in FailingFingerprints(results[..|results| - 1])
    ensures |results| >= 2 && Failing(results[|results| - 2])
    ensures StateFingerprint(results[|results| - 2]) == StateFingerprint(results[|results| - 1])
    ensures StateFingerprint(results[|results| - 1]) !in FailingFingerprints(results[..|results| - 2])
  {
    hide StateFingerprint, Failing;
    var n := |results|;
    var front := results[..n - 1];
    var i :| 0 <= i < |front| && Failing(front[i]) && StateFingerprint(front[i]) == StateFingerprint(results[n - 1]);
    assert results[i] == front[i];
    assert i == n - 2;
  }

  /** A task that has not been stopped has failed at most twice as often as it has shown different failures. */
  lemma FailuresBounded(cfg: Config, ops: seq<Op>)
    requires PerformAll(cfg, BIRTH, ops).session.status != Stopped
    ensures var results := PerformAll(cfg, BIRTH, ops).session.resultHistory;
            FailCount(results) <= 2 * |FailingFingerprints(results)|
  {
    hide PerformAll;
    EveryLifeKeepsInvariant(cfg, ops);
    EachFailureAtMostTwice(PerformAll(cfg, BIRTH, ops).session.resultHistory);
  }

  // ---------------------------------------------------------------- what each call is preceded and followed by

  /** The outcome of applying a patch is certain, whether or not the patch was applied. */
  predicate Known(outcome: Applier.ApplyOutcome) {
    outcome != Applier.UnknownOutcome && outcome != Applier.Raised
  }

  ghost predicate JudgedOn(cfg: Config, call: Call, diff: string, patch: PreparedPatch) {
    && call.Judge?
    && call.decision == Evaluate(call.facts)
    && exists tree: Tree :: call.facts == FactsFromPrepared(diff, patch, Resolved(patch.files, tree, cfg.mode))
  }

  ghost predicate GovernedAt(cfg: Config, calls: seq<Call>, i: nat)
    requires i < |calls|
  {
    && (calls[i].ExecutePatch? ==>
          && i >= 2
          && calls[i - 2].PreparePatch? && calls[i - 2].prepared == Ok(calls[i].patch)
          && JudgedOn(cfg, calls[i - 1], calls[i - 2].diff, calls[i].patch) && calls[i - 1].decision.outcome == Allow
          && (Known(calls[i].outcome) && calls[i].returned <==> i + 1 < |calls| && calls[i + 1].FullTest?))
    && (calls[i].FullTest? ==> i >= 1 && calls[i - 1].ExecutePatch?)
    && (calls[i].ExecuteTool? ==>
          i >= 1 && calls[i - 1] == Judge(NO_FACTS, PolicyDecision(Allow, Allowed)) && !calls[i].action.ApplyPatch?)
  }

  /**
   * Every executed patch was prepared and allowed, on facts of that same patch, just before; it is followed by one full
   * test exactly when its outcome is certain and the execution returned, which it does not if hashing the workspace
   * raises afterwards; full tests happen for no other reason; and every tool was run on an action that policy allows.
   */
  ghost predicate Governed(cfg: Config, calls: seq<Call>) {
    forall i :: 0 <= i < |calls| ==> GovernedAt(cfg, calls, i)
  }

  predicate StartsOver(calls: seq<Call>) {
    calls == [] || calls[0] == Generate
  }

  lemma GovernedAppend(cfg: Config, a: seq<Call>, b: seq<Call>)
    requires Governed(cfg, a) && Governed(cfg, b) && StartsOver(b)
    ensures Governed(cfg, a + b)
  {
    hide JudgedOn, Known, Evaluate;
    var all := a + b;
    forall i | 0 <= i < |all| ensures GovernedAt(cfg, all, i) {
      if i < |a| {
        assert GovernedAt(cfg, a, i);
        assert all[i] == a[i];
        assert i >= 1 ==> all[i - 1] == a[i - 1];
        assert i >= 2 ==> all[i - 2] == a[i - 2];
        assert i + 1 < |a| ==> all[i + 1] == a[i + 1];
        assert i + 1 == |a| && i + 1 < |all| ==> all[i + 1] == b[0];
      } else {
        var k := i - |a|;
        assert GovernedAt(cfg, b, k);
        assert all[i] == b[k];
        assert k >= 1 ==> all[i - 1] == b[k - 1];
        assert k >= 2 ==> all[i - 2] == b[k - 2];
        assert k + 1 < |b| ==> all[i + 1] == b[k + 1];
      }
    }
  }

  function Generates(calls: seq<Call>): nat
    decreases |calls|
  {
    if calls == [] then 0 else Generates(calls[..|calls| - 1]) + if calls[|calls| - 1] == Generate then 1 else 0
  }

  lemma {:induction false} GeneratesAppend(a: seq<Call>, b: seq<Call>)
    ensures Generates(a + b) == Generates(a) + Generates(b)
    decreases |b|
  {
    if b == [] {
      assert a + b == a;
    } else {
      assert (a + b)[..|a + b| - 1] == a + b[..|b| - 1];
      GeneratesAppend(a, b[..|b| - 1]);
    }
  }

  predicate NoGenerate(calls: seq<Call>) {
    forall i :: 0 <= i < |calls| ==> calls[i] != Generate
  }

  lemma {:induction false} GeneratesNone(calls: seq<Call>)
    requires NoGenerate(calls)
    ensures Generates(calls) == 0
    decreases |calls|
  {
    if calls != [] {
      GeneratesNone(calls[..|calls| - 1]);
    }
  }

  lemma AllowedPatchCalls(cfg: Config, s: CoreSession, patch: PreparedPatch, a: Answers)
    ensures OnAllowedPatch(cfg, s, patch, a).calls
         == [ExecutePatch(patch, a.applied, PatchExecution(a).Some?)]
            + (if Known(a.applied) && PatchExecution(a).Some? then [FullTest] else [])
  {
    hide OnExecution, TestsExecution;
  }

  lemma AllowedToolCalls(cfg: Config, s: CoreSession, action: Action, a: Answers)
    ensures OnAllowedTool(cfg, s, action, a).calls == [ExecuteTool(action)]
  {
    hide OnExecution, TestsExecution;
  }

  /** The calls of a step that puts a patch to the policy engine. */
  lemma PatchCalls(cfg: Config, s: CoreSession, diff: string, a: Answers)
    ensures var calls := [Generate] + OnPatch(cfg, s, diff, a).calls; Governed(cfg, calls) && NoGenerate(calls[1..])
  {
    hide Evaluate, PreparedText, FactsFromPrepared, Resolved, OrStop, OnAllowedPatch, OnAllowedTool, NotPrepared,
         Known, PatchExecution;
    if cfg.canPatch && a.snapshot.Given? && PreparedText(diff, a.snapshot.value).Ok? && a.tree.Given? {
      var prepared := PreparedText(diff, a.snapshot.value);
      var patch := prepared.value;
      var facts := FactsFromPrepared(diff, patch, Resolved(patch.files, a.tree.value, cfg.mode));
      AllowedPatchCalls(cfg, s, patch, a);
      var calls := [Generate] + OnPatch(cfg, s, diff, a).calls;
      assert calls[1] == PreparePatch(diff, prepared) && calls[2] == Judge(facts, Evaluate(facts));
      assert JudgedOn(cfg, calls[2], diff, patch);
    }
  }

  lemma ToolCalls(cfg: Config, s: CoreSession, action: Action, a: Answers)
    requires !action.ApplyPatch?
    ensures var calls := [Generate] + OnJudged(cfg, s, action, None, NO_FACTS, a).calls;
            Governed(cfg, calls)
            && NoGenerate(calls[1..])
  {
    hide Evaluate, OrStop, OnAllowedPatch, OnAllowedTool;
    NoFactsAllowed();
    AllowedToolCalls(cfg, s, action, a);
  }

  /** Each step is governed, and asks the model once at its start or does nothing at all. */
  lemma StepCalls(cfg: Config, s: CoreSession, a: Answers)
    ensures var calls := StepOf(cfg, s, a).calls;
            && Governed(cfg, calls) && StartsOver(calls)
            && Generates(calls) == (if calls == [] then 0 else 1)
            && (StepOf(cfg, s, a).end.StepRaised? ==> calls != [])
  {
    hide OnPatch, OnJudged, Governed;
    assert Governed(cfg, []) && Governed(cfg, [Generate]) by { TrivialCalls(cfg); }
    var calls := StepOf(cfg, s, a).calls;
    if calls != [] {
      var s1 := s.(actionCount := s.actionCount + 1);
      if a.reply.Chosen? && a.reply.action.ApplyPatch? {
        PatchCalls(cfg, s1, a.reply.action.diff, a);
      } else if a.reply.Chosen? && !a.reply.action.RequestHuman? {
        ToolCalls(cfg, s1, a.reply.action, a);
      }
      assert [Generate] + [] == [Generate];
      assert calls == [Generate] + calls[1..];
      GeneratesAppend([Generate], calls[1..]);
      GeneratesNone(calls[1..]);
      OneGenerate();
    }
  }

  lemma OneGenerate()
    ensures Generates([Generate]) == 1
  {
    assert [Generate][..0] == [];
  }

  lemma TrivialCalls(cfg: Config)
    ensures Governed(cfg, []) && Governed(cfg, [Generate])
  {
  }

  /** A step that asks the model and saves its session has counted that one action. */
  lemma StepCounts(cfg: Config, s: CoreSession, a: Answers)
    requires SessionInvariant(cfg, s)
    ensures var r := StepOf(cfg, s, a);
            r.end.Finished? ==> r.end.session.actionCount == s.actionCount + Generates(r.calls)
  {
    hide OnReply, SessionInvariant;
    StepCalls(cfg, s, a);
    if s.status == Deciding && s.actionCount < cfg.maxActions && s.feedbackCount < cfg.maxFeedback {
      var s1 := s.(actionCount := s.actionCount + 1);
      SameResults(cfg, s, s1);
      ReplyKeepsInvariant(cfg, s1, a);
    }
  }

  /**
   * Over every life of a task its patches are governed, and the model was asked once for every counted action or failed
   * step.
   */
  lemma {:induction false} EveryLifeIsGoverned(cfg: Config, ops: seq<Op>)
    ensures var l := PerformAll(cfg, BIRTH, ops);
            Governed(cfg, l.calls) && Generates(l.calls) == l.session.actionCount + l.raised
    decreases |ops|
  {
    hide StepOf, SessionInvariant, Governed;
    if ops == [] {
      TrivialCalls(cfg);
    } else {
      var l := PerformAll(cfg, BIRTH, ops[..|ops| - 1]);
      EveryLifeIsGoverned(cfg, ops[..|ops| - 1]);
      EveryLifeKeepsInvariant(cfg, ops[..|ops| - 1]);
      if ops[|ops| - 1].Step? {
        var a := ops[|ops| - 1].answers;
        StepCalls(cfg, l.session, a);
        StepCounts(cfg, l.session, a);
        GovernedAppend(cfg, l.calls, StepOf(cfg, l.session, a).calls);
        GeneratesAppend(l.calls, StepOf(cfg, l.session, a).calls);
      }
    }
  }
}
