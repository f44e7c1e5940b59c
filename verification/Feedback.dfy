/** `FeedbackEngine.analyze`: what one more test result says about the direction the task is taking. */
module Feedback {
  import opened Base
  import opened Lines
  import opened TestRunner
  import opened PytestParser
  import Utf8

  datatype FeedbackKind =
    | PassedFeedback | Progress | NoProgress | Changed | Regression | Loop | EnvironmentFeedback | UnparseableFeedback

  /** The fields `state_fingerprint` hashes; the sorted lists are multisets. */
  datatype Fingerprint = Fingerprint(
    phase: TestPhase,
    outcome: ParsedOutcome,
    nodeIds: multiset<string>,
    exceptionType: Option<string>,
    summary: string,
    frames: multiset<string>)

  function StateFingerprint(r: ParsedTestResult): Fingerprint {
    Fingerprint(r.phase, r.outcome, multiset(r.nodeIds), r.exceptionType, r.summary, multiset(r.frames))
  }

  datatype FeedbackDecision = FeedbackDecision(
    kind: FeedbackKind,
    currentRun: RunId,
    previousRun: Option<RunId>,
    matchedRun: Option<RunId>,
    fingerprint: Option<Fingerprint>,
    summary: string)

  /** No control character and no line or paragraph separator. */
  predicate Printable(s: string) {
    forall i :: 0 <= i < |s| ==>
      var n := s[i] as int; n >= 0x20 && !(0x7F <= n <= 0x9F) && n != 0x2028 && n != 0x2029
  }

  /** One printable line of at most 2000 characters and 8192 bytes, without padding or control characters. */
  predicate SafeLine(s: string) {
    && 1 <= |s| <= 2000 && |Utf8.Encode(s)| <= 8192
    && !Space(s[0]) && !Space(s[|s| - 1]) && Printable(s)
  }

  /** The consistency checks of the decision model. */
  predicate ValidDecision(d: FeedbackDecision) {
    && SafeLine(d.summary)
    && if d.kind in {EnvironmentFeedback, UnparseableFeedback} then d.matchedRun == None && d.fingerprint == None
       else
         && d.fingerprint != None
         && (d.kind == PassedFeedback ==> d.matchedRun == None)
         && (d.kind != PassedFeedback ==> d.previousRun != None && d.previousRun != Some(d.currentRun))
         && (d.kind == Loop ==> d.matchedRun != None && d.matchedRun != Some(d.currentRun))
         && (d.kind != Loop ==> d.matchedRun == None)
  }

  function NodeSet(r: ParsedTestResult): set<string> {
    set i | 0 <= i < |r.nodeIds| :: r.nodeIds[i]
  }

  /** The first of `results` with this fingerprint. */
  function FindMatch(results: seq<ParsedTestResult>, fingerprint: Fingerprint): Option<ParsedTestResult> {
    if results == [] then None
    else if StateFingerprint(results[0]) == fingerprint then Some(results[0])
    else FindMatch(results[1..], fingerprint)
  }

  function AllButLast<T>(xs: seq<T>): seq<T> {
    if xs == [] then [] else xs[..|xs| - 1]
  }

  /** The kind of a failing result that matches nothing before the last one. */
  function Compare(previous: ParsedTestResult, current: ParsedTestResult): FeedbackKind {
    if previous.outcome == CollectionError && current.outcome != CollectionError then Progress
    else if NodeSet(current) < NodeSet(previous) then Progress
    else if NodeSet(current) - NodeSet(previous) != {} then Regression
    else if StateFingerprint(previous) == StateFingerprint(current)
      && current.sourceRevision == previous.sourceRevision then NoProgress
    else Changed
  }

  function Decide(previous: Option<ParsedTestResult>, current: ParsedTestResult,
                  history: seq<ParsedTestResult>): Option<FeedbackDecision> {
    var fingerprint := StateFingerprint(current);
    var previousRun := if previous == None then None else Some(previous.value.runId);
    match current.outcome
    case ParsedEnvironmentError => Some(FeedbackDecision(EnvironmentFeedback, current.runId, None, None, None,
      current.summary))
    case ParsedUnparseable => Some(FeedbackDecision(UnparseableFeedback, current.runId, None, None, None,
      current.summary))
    case ParsedPassed => Some(FeedbackDecision(PassedFeedback, current.runId, previousRun, None, Some(fingerprint),
      current.summary))
    case _ =>
      if previous == None then None
      else
        match FindMatch(AllButLast(history), fingerprint)
        case Some(candidate) =>
          Some(FeedbackDecision(Loop, current.runId, previousRun, Some(candidate.runId), Some(fingerprint),
            current.summary))
        case None =>
          Some(FeedbackDecision(Compare(previous.value, current), current.runId, previousRun, None, Some(fingerprint),
            current.summary))
  }

  /** `None` when the comparison has nothing to compare with, or the decision model refuses the decision. */
  function Analyze(previous: Option<ParsedTestResult>, current: ParsedTestResult,
                   history: seq<ParsedTestResult>): Option<FeedbackDecision> {
    match Decide(previous, current, history)
    case None => None
    case Some(d) => if ValidDecision(d) then Some(d) else None
  }

  predicate Failing(r: ParsedTestResult) {
    r.outcome == ParsedFailed || r.outcome == CollectionError
  }

  lemma {:induction false} FindMatchFinds(results: seq<ParsedTestResult>, fingerprint: Fingerprint)
    ensures FindMatch(results, fingerprint).Some? <==>
            exists i :: 0 <= i < |results| && StateFingerprint(results[i]) == fingerprint
    ensures FindMatch(results, fingerprint).Some? ==> StateFingerprint(FindMatch(results, fingerprint).value)
                                                      == fingerprint
  {
    hide StateFingerprint;
    if results != [] {
      FindMatchFinds(results[1..], fingerprint);
      forall i | 0 <= i < |results| && StateFingerprint(results[i]) == fingerprint
        ensures FindMatch(results, fingerprint).Some?
      {
        if i > 0 {
          assert results[1..][i - 1] == results[i];
        }
      }
      if FindMatch(results[1..], fingerprint).Some? {
        var i :| 0 <= i < |results[1..]| && StateFingerprint(results[1..][i]) == fingerprint;
        assert results[i + 1] == results[1..][i];
      }
    }
  }

  /** Result `i` is the first with this fingerprint. */
  ghost predicate FirstWith(results: seq<ParsedTestResult>, fingerprint: Fingerprint, i: nat) {
    && i < |results| && StateFingerprint(results[i]) == fingerprint
    && forall k :: 0 <= k < i ==> StateFingerprint(results[k]) != fingerprint
  }

  /** What is found is the first result with the fingerprint. */
  lemma {:induction false} FindMatchIn(results: seq<ParsedTestResult>, fingerprint: Fingerprint)
    ensures match FindMatch(results, fingerprint)
            case None => forall i :: 0 <= i < |results| ==> StateFingerprint(results[i]) != fingerprint
            case Some(r) => exists i :: 0 <= i < |results| && FirstWith(results, fingerprint, i) && results[i] == r
  {
    hide StateFingerprint;
    if results != [] {
      var later := results[1..];
      FindMatchIn(later, fingerprint);
      if StateFingerprint(results[0]) == fingerprint {
        assert FirstWith(results, fingerprint, 0);
      } else if FindMatch(later, fingerprint).Some? {
        var i :| 0 <= i < |later| && FirstWith(later, fingerprint, i)
                 && later[i] == FindMatch(later, fingerprint).value;
        assert forall k :: 0 < k <= i ==> results[k] == later[k - 1];
        assert FirstWith(results, fingerprint, i + 1) && results[i + 1] == later[i];
      } else {
        assert forall i :: 0 < i < |results| ==> results[i] == later[i - 1];
      }
    }
  }

  lemma SameNodes(a: ParsedTestResult, b: ParsedTestResult)
    requires multiset(a.nodeIds) == multiset(b.nodeIds)
    ensures NodeSet(a) == NodeSet(b)
  {
    forall n ensures n in NodeSet(a) <==> n in NodeSet(b) {
      assert n in NodeSet(a) <==> n in multiset(a.nodeIds);
      assert n in NodeSet(b) <==> n in multiset(b.nodeIds);
    }
  }

  /** Equal fingerprints leave only two verdicts: no progress if the source is unchanged too, and changed otherwise. */
  lemma CompareEqual(previous: ParsedTestResult, current: ParsedTestResult)
    requires StateFingerprint(previous) == StateFingerprint(current)
    ensures Compare(previous, current) == if current.sourceRevision == previous.sourceRevision
            then NoProgress else Changed
  {
    SameNodes(previous, current);
  }

  /**
   * No progress is reported exactly for a repeated fingerprint on an unchanged source, among failures that are no loop.
   */
  lemma NoProgressExactly(previous: ParsedTestResult, current: ParsedTestResult, history: seq<ParsedTestResult>)
    requires Failing(current) && Analyze(Some(previous), current, history).Some?
    ensures var kind := Analyze(Some(previous), current, history).value.kind;
            && (kind == Loop <==> exists i :: 0 <= i < |history| - 1
                                              && StateFingerprint(history[i]) == StateFingerprint(current))
            && (kind == NoProgress <==> kind != Loop && StateFingerprint(previous) == StateFingerprint(current)
                                        && current.sourceRevision == previous.sourceRevision)
  {
    hide ValidDecision, StateFingerprint, NodeSet;
    FindMatchFinds(AllButLast(history), StateFingerprint(current));
    if history != [] {
      assert forall i :: 0 <= i < |history| - 1 ==> AllButLast(history)[i] == history[i];
    }
    if StateFingerprint(previous) == StateFingerprint(current) {
      CompareEqual(previous, current);
    }
  }

  /** What makes two results show the same failure; node ids and frames count with repetition but not in order. */
  lemma SameFailureExactly(a: ParsedTestResult, b: ParsedTestResult)
    ensures StateFingerprint(a) == StateFingerprint(b) <==>
            && a.phase == b.phase && a.outcome == b.outcome && a.exceptionType == b.exceptionType
            && a.summary == b.summary
            && multiset(a.nodeIds) == multiset(b.nodeIds) && multiset(a.frames) == multiset(b.frames)
  {
  }

  /** Some node of `a` is not among those of `b`. */
  ghost predicate NodeBeyond(a: ParsedTestResult, b: ParsedTestResult) {
    exists i :: 0 <= i < |a.nodeIds| && a.nodeIds[i] !in b.nodeIds
  }

  lemma NodeBeyondExactly(a: ParsedTestResult, b: ParsedTestResult)
    ensures NodeBeyond(a, b) <==> !(NodeSet(a) <= NodeSet(b))
  {
    forall n ensures n in NodeSet(b) <==> n in b.nodeIds {
    }
    if NodeBeyond(a, b) {
      var i :| 0 <= i < |a.nodeIds| && a.nodeIds[i] !in b.nodeIds;
      assert a.nodeIds[i] in NodeSet(a);
    }
    if !(NodeSet(a) <= NodeSet(b)) {
      var n :| n in NodeSet(a) && n !in NodeSet(b);
      var i :| 0 <= i < |a.nodeIds| && a.nodeIds[i] == n;
      assert a.nodeIds[i] !in b.nodeIds;
    }
  }

  /**
   * The direction of two failures: progress once the tests can be collected, or when some failure is gone and none is
   * new; regression when one is new; and for the same failing tests no progress if all else is the same too.
   */
  lemma DirectionExactly(previous: ParsedTestResult, current: ParsedTestResult)
    ensures var collected := previous.outcome == CollectionError && current.outcome != CollectionError;
            var isNew, isGone := NodeBeyond(current, previous), NodeBeyond(previous, current);
            var same := StateFingerprint(previous) == StateFingerprint(current)
            && previous.sourceRevision == current.sourceRevision;
            && (Compare(previous, current) == Progress <==> collected || (isGone && !isNew))
            && (Compare(previous, current) == Regression <==> !collected && isNew)
            && (Compare(previous, current) == NoProgress <==> same)
            && (Compare(previous, current) == Changed <==> !collected && !isNew && !isGone && !same)
  {
    hide NodeBeyond;
    NodeBeyondExactly(current, previous);
    NodeBeyondExactly(previous, current);
    assert NodeSet(current) < NodeSet(previous) <==>
           NodeSet(current) <= NodeSet(previous) && !(NodeSet(previous) <= NodeSet(current));
    assert NodeSet(current) - NodeSet(previous) != {} <==> !(NodeSet(current) <= NodeSet(previous)) by {
      if n :| n in NodeSet(current) && n !in NodeSet(previous) {
        assert n in NodeSet(current) - NodeSet(previous);
      }
    }
    if StateFingerprint(previous) == StateFingerprint(current) {
      SameNodes(previous, current);
    }
  }

  /** What the engine decides on a result; nothing if it has nothing to compare a failure with. */
  lemma DecisionExactly(previous: Option<ParsedTestResult>, current: ParsedTestResult, history: seq<ParsedTestResult>)
    ensures var decision := Decide(previous, current, history);
            var previousRun := if previous == None then None else Some(previous.value.runId);
            && (decision == None <==> Failing(current) && previous == None)
            && (decision.Some? ==>
                  && decision.value.currentRun == current.runId && decision.value.summary == current.summary
                  && (decision.value.kind == EnvironmentFeedback <==> current.outcome == ParsedEnvironmentError)
                  && (decision.value.kind == UnparseableFeedback <==> current.outcome == ParsedUnparseable)
                  && (decision.value.kind == PassedFeedback <==> current.outcome == ParsedPassed)
                  && (if current.outcome in {ParsedEnvironmentError, ParsedUnparseable}
                      then decision.value.previousRun == None && decision.value.fingerprint == None
                      else decision.value.previousRun == previousRun
                           && decision.value.fingerprint == Some(StateFingerprint(current)))
                  && (decision.value.kind != Loop ==> decision.value.matchedRun == None))
    ensures Failing(current) && previous.Some? ==>
              var d, known := Decide(previous, current, history).value, AllButLast(history);
              if exists i :: 0 <= i < |known| && StateFingerprint(known[i]) == StateFingerprint(current)
              then d.kind == Loop && exists i :: 0 <= i < |known| && FirstWith(known, StateFingerprint(current), i)
                                                 && d.matchedRun == Some(known[i].runId)
              else d.kind == Compare(previous.value, current)
  {
    hide StateFingerprint, NodeSet, AllButLast;
    FindMatchIn(AllButLast(history), StateFingerprint(current));
  }

  /**
   * When the engine raises: on a first failure, on a summary that is not one safe line, on a failure of the run it is
   * compared with, and on a loop back to a result of the same run.
   */
  lemma RaisesExactly(previous: Option<ParsedTestResult>, current: ParsedTestResult, history: seq<ParsedTestResult>)
    ensures Analyze(previous, current, history) == None <==>
            || !SafeLine(current.summary)
            || (Failing(current) && (previous == None || previous.value.runId == current.runId))
            || (Failing(current) && exists i :: 0 <= i < |AllButLast(history)|
                                                && FirstWith(AllButLast(history), StateFingerprint(current), i)
                                                && AllButLast(history)[i].runId == current.runId)
  {
    hide SafeLine, StateFingerprint, NodeSet, AllButLast;
    FindMatchIn(AllButLast(history), StateFingerprint(current));
    if previous.Some? {
      DirectionOnly(previous.value, current);
    }
  }

  lemma DirectionOnly(previous: ParsedTestResult, current: ParsedTestResult)
    ensures Compare(previous, current) in {Progress, Regression, NoProgress, Changed}
  {
    hide StateFingerprint, NodeSet;
  }
}
