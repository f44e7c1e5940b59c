/**
 * The trace shown for a demonstration run: built from a session's history, and checked against a scenario's contract.
 */
module Trace {
  import opened Base
  import opened Policy
  import opened TestRunner
  import opened Harness

  datatype ActionKind =
    | ListFilesKind | ReadFileKind | SearchCodeKind | ApplyPatchKind | RunTestsKind
    | GitDiffKind | GitStatusKind | RunDiagnosticKind | RequestHumanKind

  datatype FeedbackCode =
    | InitialFailure | PassedCode | ChangedCode | ProgressCode | NoProgressCode | RegressionCode | LoopCode
    | EnvironmentErrorCode | UnparseableCode

  datatype Event =
    | ActionSelected(kind: ActionKind, sequence: nat)
    | PolicyDecided(decision: PolicyOutcome, reason: ReasonCode, sequence: nat)
    | TestCompleted(outcome: TestRunOutcome, sequence: nat)
    | FeedbackProduced(code: FeedbackCode, sequence: nat)
    | TerminalStatus(status: TaskStatus, sequence: nat)

  /** `_test_outcome`; `fold` is `str.casefold`. `None` stands for a worker error. */
  function TestOutcome(result: string, fold: string -> string): Option<TestRunOutcome> {
    var folded := fold(result);
    if folded == "pytest passed" then Some(Passed)
    else if folded == "" || folded == "pytest environment unavailable"
      || folded == "pytest output was not reliably parseable" then None
    else Some(Failed)
  }

  function FeedbackFor(previous: Option<TestRunOutcome>, outcome: TestRunOutcome): FeedbackCode {
    if previous == None && outcome == Failed then InitialFailure
    else if outcome == Passed then PassedCode
    else ChangedCode
  }

  /** The events of one history entry, numbered from `sequence`. */
  function EntryEvents(e: HistoryEntry, sequence: nat, previous: Option<TestRunOutcome>,
                       fold: string -> string): Option<seq<Event>> {
    if e.actionType == "apply_patch" then Some([ActionSelected(ApplyPatchKind, sequence)])
    else if e.actionType == "request_human" then Some([ActionSelected(RequestHumanKind, sequence)])
    else if e.actionType == "full_test" then
      match TestOutcome(e.safeResult, fold)
      case None => None
      case Some(outcome) => Some([TestCompleted(outcome, sequence),
        FeedbackProduced(FeedbackFor(previous, outcome), sequence + 1)])
    else if e.actionType == "policy_deny" && e.safeResult == "test_asset_protection" then
      Some([ActionSelected(ApplyPatchKind, sequence), PolicyDecided(Deny, TestAssetProtection, sequence + 1)])
    else None
  }

  /** The outcome of the last test so far. */
  function LastOutcome(e: HistoryEntry, previous: Option<TestRunOutcome>,
                       fold: string -> string): Option<TestRunOutcome> {
    if e.actionType == "full_test" then TestOutcome(e.safeResult, fold) else previous
  }

  /** What a history has been told as so far: its events, and the outcome of its last test. */
  datatype Told = Told(events: seq<Event>, previous: Option<TestRunOutcome>)

  function Tell(history: seq<HistoryEntry>, fold: string -> string): Option<Told>
    decreases |history|
  {
    if history == [] then Some(Told([], None))
    else
      match Tell(history[..|history| - 1], fold)
      case None => None
      case Some(t) =>
        var e := history[|history| - 1];
        match EntryEvents(e, |t.events|, t.previous, fold)
        case None => None
        case Some(events) => Some(Told(t.events + events, LastOutcome(e, t.previous, fold)))
  }

  /** The meaning of `_build_trace_events`; `None` stands for a worker error. */
  function TraceOf(history: seq<HistoryEntry>, status: TaskStatus, fold: string -> string): Option<seq<Event>> {
    match Tell(history, fold)
    case None => None
    case Some(t) => Some(t.events + [TerminalStatus(status, |t.events|)])
  }

  lemma {:induction false} UntoldPrefix(history: seq<HistoryEntry>, n: nat, fold: string -> string)
    requires n <= |history| && Tell(history[..n], fold) == None
    ensures Tell(history, fold) == None
    decreases |history|
  {
    if n == |history| {
      assert history[..n] == history;
    } else {
      assert history[..|history| - 1][..n] == history[..n];
      UntoldPrefix(history[..|history| - 1], n, fold);
    }
  }

  lemma TellOneMore(history: seq<HistoryEntry>, i: nat, fold: string -> string)
    requires i < |history|
    ensures Tell(history[..i + 1], fold) ==
            match Tell(history[..i], fold)
            case None => None
            case Some(t) =>
              match EntryEvents(history[i], |t.events|, t.previous, fold)
              case None => None
              case Some(events) => Some(Told(t.events + events, LastOutcome(history[i], t.previous, fold)))
  {
    assert history[..i + 1][..i] == history[..i];
  }

  method BuildTraceEvents(history: seq<HistoryEntry>, status: TaskStatus, fold: string -> string)
    returns (trace: Option<seq<Event>>)
    ensures trace == TraceOf(history, status, fold)
  {
    var events: seq<Event> := [];
    var sequence: nat := 0;
    var previous: Option<TestRunOutcome> := None;
    for i := 0 to |history|
      invariant sequence == |events|
      invariant Tell(history[..i], fold) == Some(Told(events, previous))
    {
      TellOneMore(history, i, fold);
      var entry := history[i];
      ghost var before := events;
      if entry.actionType == "apply_patch" {
        events := events + [ActionSelected(ApplyPatchKind, sequence)];
        sequence := sequence + 1;
      } else if entry.actionType == "request_human" {
        events := events + [ActionSelected(RequestHumanKind, sequence)];
        sequence := sequence + 1;
      } else if entry.actionType == "full_test" {
        var outcome := TestOutcome(entry.safeResult, fold);
        if outcome == None {
          UntoldPrefix(history, i + 1, fold);
          return None;
        }
        events := events + [TestCompleted(outcome.value, sequence)];
        sequence := sequence + 1;
        events := events + [FeedbackProduced(FeedbackFor(previous, outcome.value), sequence)];
        sequence := sequence + 1;
        previous := outcome;
        assert events == before + [TestCompleted(outcome.value, |before|), events[|before| + 1]];
      } else if entry.actionType == "policy_deny" {
        if entry.safeResult != "test_asset_protection" {
          UntoldPrefix(history, i + 1, fold);
          return None;
        }
        events := events + [ActionSelected(ApplyPatchKind, sequence)];
        sequence := sequence + 1;
        events := events + [PolicyDecided(Deny, TestAssetProtection, sequence)];
        sequence := sequence + 1;
        assert events == before + [ActionSelected(ApplyPatchKind, |before|),
          PolicyDecided(Deny, TestAssetProtection, |before| + 1)];
      } else {
        UntoldPrefix(history, i + 1, fold);
        return None;
      }
    }
    assert history[..|history|] == history;
    trace := Some(events + [TerminalStatus(status, sequence)]);
  }

  // ---------------------------------------------------------------- what a built trace looks like

  /** An entry that can be shown: a patch, a human request, a test with a verdict, or a denial protecting the tests. */
  predicate Tellable(e: HistoryEntry, fold: string -> string) {
    || e.actionType == "apply_patch"
    || e.actionType == "request_human"
    || (e.actionType == "full_test" && TestOutcome(e.safeResult, fold).Some?)
    || (e.actionType == "policy_deny" && e.safeResult == "test_asset_protection")
  }

  /** A trace can be built exactly from histories all of whose entries can be shown. */
  lemma {:induction false} TraceExists(history: seq<HistoryEntry>, fold: string -> string)
    ensures Tell(history, fold).Some? <==> forall i :: 0 <= i < |history| ==> Tellable(history[i], fold)
    decreases |history|
  {
    hide TestOutcome;
    if history != [] {
      var front := history[..|history| - 1];
      TraceExists(front, fold);
      TellableEntry(history[|history| - 1], fold);
      assert forall i :: 0 <= i < |front| ==> front[i] == history[i];
    }
  }

  lemma TellableEntry(e: HistoryEntry, fold: string -> string)
    ensures forall sequence: nat, previous: Option<TestRunOutcome> ::
              EntryEvents(e, sequence, previous, fold).Some? <==> Tellable(e, fold)
  {
    hide TestOutcome;
    assert "full_test"[0] != "policy_deny"[0] && "full_test"[0] != "apply_patch"[0]
      && "full_test"[0] != "request_human"[0];
    assert "policy_deny"[0] != "apply_patch"[0] && "policy_deny"[0] != "request_human"[0];
  }

  predicate EventAt(events: seq<Event>, i: nat)
    requires i < |events|
  {
    && events[i].sequence == i
    && !events[i].TerminalStatus?
    && (events[i].TestCompleted? ==> i + 1 < |events| && events[i + 1].FeedbackProduced?)
    && (events[i].FeedbackProduced? ==>
          i >= 1 && events[i - 1].TestCompleted?
          && (events[i].code == PassedCode <==> events[i - 1].outcome == Passed)
          && (events[i].code == InitialFailure <==>
              events[i - 1].outcome == Failed && forall k :: 0 <= k < i - 1 ==> !events[k].TestCompleted?))
    && (events[i].PolicyDecided? ==> i >= 1 && events[i - 1] == ActionSelected(ApplyPatchKind, i - 1))
  }

  /**
   * Events numbered from 0, each test followed by its feedback and each feedback preceded by its test, and
   * `initial_failure` exactly for a first test that failed.
   */
  predicate Coherent(events: seq<Event>) {
    forall i :: 0 <= i < |events| ==> EventAt(events, i)
  }

  predicate AnyTest(events: seq<Event>) {
    exists i :: 0 <= i < |events| && events[i].TestCompleted?
  }

  lemma TestOutcomeKinds(result: string, fold: string -> string)
    ensures TestOutcome(result, fold).Some? ==> TestOutcome(result, fold).value in {Passed, Failed}
  {
  }

  lemma {:induction false} ToldCoherent(history: seq<HistoryEntry>, fold: string -> string)
    requires Tell(history, fold).Some?
    ensures var t := Tell(history, fold).value; Coherent(t.events) && (t.previous.Some? <==> AnyTest(t.events))
    decreases |history|
  {
    hide TestOutcome, Coherent, AnyTest, EntryEvents, LastOutcome, Block;
    if history == [] {
      NothingTold();
    } else {
      var e := history[|history| - 1];
      var t := Tell(history[..|history| - 1], fold).value;
      ToldCoherent(history[..|history| - 1], fold);
      var added := EntryEvents(e, |t.events|, t.previous, fold).value;
      EntryBlock(e, |t.events|, t.previous, fold);
      CoherentAppend(t.events, added, t.previous);
      TestAppend(t.events, added);
    }
  }

  lemma EntryBlock(e: HistoryEntry, n: nat, previous: Option<TestRunOutcome>, fold: string -> string)
    requires EntryEvents(e, n, previous, fold).Some?
    ensures var added := EntryEvents(e, n, previous, fold).value;
            Block(added, n, previous) && (LastOutcome(e, previous, fold).Some? <==> previous.Some? || AnyTest(added))
  {
    hide TestOutcome;
    TestOutcomeKinds(e.safeResult, fold);
    FullTestIsNot();
    var added := EntryEvents(e, n, previous, fold).value;
    if e.actionType == "full_test" {
      assert added[0].TestCompleted?;
    }
  }

  lemma FullTestIsNot()
    ensures "full_test" != "apply_patch" && "full_test" != "request_human"
  {
    assert "full_test"[0] != "apply_patch"[0] && "full_test"[0] != "request_human"[0];
  }

  lemma NothingTold()
    ensures Coherent([]) && !AnyTest([])
  {
  }

  /** The shapes of what one entry adds. */
  predicate Block(added: seq<Event>, n: nat, previous: Option<TestRunOutcome>) {
    || (|added| == 1 && added[0].ActionSelected? && added[0].sequence == n)
    || (|added| == 2 && added[0].TestCompleted? && added[0].sequence == n && added[0].outcome in {Passed, Failed}
        && added[1] == FeedbackProduced(FeedbackFor(previous, added[0].outcome), n + 1))
    || (|added| == 2 && added[0] == ActionSelected(ApplyPatchKind, n) && added[1].PolicyDecided?
      && added[1].sequence == n + 1)
  }

  lemma CoherentAppend(events: seq<Event>, added: seq<Event>, previous: Option<TestRunOutcome>)
    requires Coherent(events) && (previous.Some? <==> AnyTest(events))
    requires Block(added, |events|, previous)
    ensures Coherent(events + added)
  {
    var all := events + added;
    forall i | 0 <= i < |all| ensures EventAt(all, i) {
      if i < |events| {
        assert EventAt(events, i);
        assert all[i] == events[i];
        assert i >= 1 ==> all[i - 1] == events[i - 1];
        assert i + 1 < |events| ==> all[i + 1] == events[i + 1];
        assert forall k :: 0 <= k < i ==> all[k] == events[k];
      } else {
        assert all[i] == added[i - |events|];
        assert forall k :: 0 <= k < |events| ==> all[k] == events[k];
        if i == |events| + 1 {
          assert all[i - 1] == added[0];
        } else if |added| == 2 {
          assert all[i + 1] == added[1];
        }
      }
    }
  }

  lemma TestAppend(events: seq<Event>, added: seq<Event>)
    ensures AnyTest(events + added) <==> AnyTest(events) || AnyTest(added)
  {
    var all := events + added;
    if AnyTest(events) {
      var i :| 0 <= i < |events| && events[i].TestCompleted?;
      assert all[i].TestCompleted?;
    }
    if AnyTest(added) {
      var i :| 0 <= i < |added| && added[i].TestCompleted?;
      assert all[|events| + i].TestCompleted?;
    }
  }

  /** `i` is the position of the only terminal status among the events. */
  predicate OnlyTerminalAt(events: seq<Event>, i: nat) {
    i < |events| && forall k :: 0 <= k < |events| ==> (events[k].TerminalStatus? <==> k == i)
  }

  /**
   * A built trace is coherent and numbered from 0 up to its end, where it has its only terminal status, the session's.
   */
  lemma BuiltTraceIsCoherent(history: seq<HistoryEntry>, status: TaskStatus, fold: string -> string)
    requires TraceOf(history, status, fold).Some?
    ensures var trace := TraceOf(history, status, fold).value;
            var n := |trace| - 1;
            && n >= 0
            && Coherent(trace[..n])
            && trace[n] == TerminalStatus(status, n)
            && OnlyTerminalAt(trace, n)
  {
    hide AnyTest;
    ToldCoherent(history, fold);
    var t := Tell(history, fold).value;
    var trace := TraceOf(history, status, fold).value;
    assert trace[..|trace| - 1] == t.events;
    forall k | 0 <= k < |trace| - 1 ensures !trace[k].TerminalStatus? {
      assert EventAt(t.events, k);
    }
  }
}
