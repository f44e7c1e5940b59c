/** Where each entry of a history is shown in its trace, and as what. */
module TraceEntries {
  import opened Base
  import opened Policy
  import opened TestRunner
  import opened Harness
  import opened Trace

  /** How many events show these entries: two for a test or a denial, one for any other. */
  function Shown(history: seq<HistoryEntry>): nat
    decreases |history|
  {
    if history == [] then 0
    else
      Shown(history[..|history| - 1]) + if history[|history| - 1].actionType in {"full_test", "policy_deny"} then 2
      else 1
  }

  predicate Tested(history: seq<HistoryEntry>) {
    exists i :: 0 <= i < |history| && history[i].actionType == "full_test"
  }

  /** What the events from `n` on show of an entry that comes after the given ones. */
  ghost predicate ShowsEntry(trace: seq<Event>, n: nat, before: seq<HistoryEntry>, e: HistoryEntry,
                             fold: string -> string) {
    && n < |trace|
    && if e.actionType == "apply_patch" then trace[n] == ActionSelected(ApplyPatchKind, n)
       else if e.actionType == "request_human" then trace[n] == ActionSelected(RequestHumanKind, n)
       else if e.actionType == "full_test" then
         var passed := fold(e.safeResult) == "pytest passed";
         && n + 1 < |trace|
         && trace[n] == TestCompleted(if passed then Passed else Failed, n)
         && trace[n + 1] == FeedbackProduced(if passed then PassedCode else if Tested(before) then ChangedCode
           else InitialFailure, n + 1)
       else
         && e.actionType == "policy_deny" && n + 1 < |trace|
         && trace[n] == ActionSelected(ApplyPatchKind, n)
         && trace[n + 1] == PolicyDecided(Deny, TestAssetProtection, n + 1)
  }

  lemma {:induction false} ToldSoFar(history: seq<HistoryEntry>, fold: string -> string)
    requires Tell(history, fold).Some?
    ensures |Tell(history, fold).value.events| == Shown(history)
    ensures Tell(history, fold).value.previous.Some? <==> Tested(history)
    decreases |history|
  {
    hide TestOutcome, Tested;
    if history == [] {
      assert !Tested([]) by { NoTest(); }
    } else {
      var front, e := history[..|history| - 1], history[|history| - 1];
      ToldSoFar(front, fold);
      TestNames();
      OneMoreTest(front, e);
      assert front + [e] == history;
    }
  }

  lemma NoTest()
    ensures !Tested([])
  {
  }

  lemma OneMoreTest(front: seq<HistoryEntry>, e: HistoryEntry)
    ensures Tested(front + [e]) <==> Tested(front) || e.actionType == "full_test"
  {
    var history := front + [e];
    assert history[|front|] == e;
    assert forall i :: 0 <= i < |front| ==> history[i] == front[i];
    if Tested(front) {
      var i :| 0 <= i < |front| && front[i].actionType == "full_test";
      assert history[i].actionType == "full_test";
    }
  }

  lemma TestNames()
    ensures "full_test" != "policy_deny" && "full_test" != "apply_patch" && "full_test" != "request_human"
    ensures "policy_deny" != "apply_patch" && "policy_deny" != "request_human"
  {
    assert "full_test"[0] != "policy_deny"[0] && "full_test"[0] != "apply_patch"[0]
      && "full_test"[0] != "request_human"[0];
    assert "policy_deny"[0] != "apply_patch"[0] && "policy_deny"[0] != "request_human"[0];
  }

  /** What has been told is not changed by what is told later. */
  lemma {:induction false} ToldFirst(history: seq<HistoryEntry>, n: nat, fold: string -> string)
    requires n <= |history| && Tell(history, fold).Some?
    ensures Tell(history[..n], fold).Some?
    ensures Tell(history[..n], fold).value.events <= Tell(history, fold).value.events
    decreases |history|
  {
    hide EntryEvents, LastOutcome;
    if n == |history| {
      assert history[..n] == history;
    } else {
      assert history[..|history| - 1][..n] == history[..n];
      ToldFirst(history[..|history| - 1], n, fold);
    }
  }

  lemma LastShown(before: seq<HistoryEntry>, e: HistoryEntry, fold: string -> string)
    requires Tell(before + [e], fold).Some?
    ensures Tell(before, fold).Some?
    ensures ShowsEntry(Tell(before + [e], fold).value.events, Shown(before), before, e, fold)
  {
    hide Tell, Tested;
    assert (before + [e])[..|before|] == before;
    TellLast(before, e, fold);
    ToldSoFar(before, fold);
    TestNames();
  }

  lemma TellLast(before: seq<HistoryEntry>, e: HistoryEntry, fold: string -> string)
    requires Tell(before + [e], fold).Some?
    ensures Tell(before, fold).Some?
    ensures var t := Tell(before, fold).value;
            EntryEvents(e, |t.events|, t.previous, fold).Some?
            && Tell(before + [e], fold).value.events
               == t.events + EntryEvents(e, |t.events|, t.previous, fold).value
  {
    assert (before + [e])[..|before|] == before;
  }

  lemma ShownStays(events: seq<Event>, more: seq<Event>, n: nat, before: seq<HistoryEntry>, e: HistoryEntry,
                   fold: string -> string)
    requires ShowsEntry(events, n, before, e, fold) && events <= more
    ensures ShowsEntry(more, n, before, e, fold)
  {
    hide Tested, Shown;
  }

  /**
   * Each entry is shown where those before it end, as what it is: a patch, a request for a human, a test with its
   * verdict and whether it is the first failure, or a denial; and the trace ends with the session's status.
   */
  lemma EveryEntryShown(history: seq<HistoryEntry>, status: TaskStatus, fold: string -> string)
    requires TraceOf(history, status, fold).Some?
    ensures var trace := TraceOf(history, status, fold).value;
            && |trace| == Shown(history) + 1 && trace[|trace| - 1] == TerminalStatus(status, |trace| - 1)
            && forall i :: 0 <= i < |history| ==>
                 ShowsEntry(trace, Shown(history[..i]), history[..i], history[i], fold)
  {
    hide Tell, ShowsEntry, Shown;
    var trace, events := TraceOf(history, status, fold).value, Tell(history, fold).value.events;
    ToldSoFar(history, fold);
    forall i | 0 <= i < |history| ensures ShowsEntry(trace, Shown(history[..i]), history[..i], history[i], fold) {
      ToldFirst(history, i + 1, fold);
      assert history[..i + 1] == history[..i] + [history[i]];
      LastShown(history[..i], history[i], fold);
      ShownStays(Tell(history[..i + 1], fold).value.events, trace, Shown(history[..i]), history[..i], history[i],
        fold);
    }
  }
}
