/** What every run that makes only safe calls has in common. */
module RunSafety {
  import opened Base
  import opened RunProtocol

  lemma {:induction false} ObeysPrefix(calls: seq<Call>, n: nat)
    requires Obeys(calls) && n <= |calls|
    ensures Obeys(calls[..n])
    decreases |calls|
  {
    if n == |calls| {
      assert calls[..n] == calls;
    } else {
      assert calls[..|calls| - 1][..n] == calls[..n];
      ObeysPrefix(calls[..|calls| - 1], n);
    }
  }

  // ---------------------------------------------------------------- what the calls of a run say

  predicate Acquired(calls: seq<Call>) {
    TryLock(Yes) in calls
  }

  predicate RootMade(calls: seq<Call>) {
    exists i :: 0 <= i < |calls| && calls[i].MakeRoot? && calls[i].creation == NewRoot
  }

  predicate ProcessStarted(calls: seq<Call>) {
    Start(Handle(true)) in calls
  }

  predicate EndConfirmed(calls: seq<Call>) {
    Confirm(Yes) in calls
  }

  predicate RootCleaned(calls: seq<Call>) {
    exists i :: 0 <= i < |calls| && calls[i].Cleanup?
  }

  predicate RootSetAside(calls: seq<Call>) {
    exists i :: 0 <= i < |calls| && calls[i].Isolate?
  }

  /** The state of a run tells what calls it has made. */
  ghost predicate Recorded(calls: seq<Call>) {
    var l := LedgerOf(calls);
    && (l.lock in {Held, Released} <==> Acquired(calls))
    && (!l.directory.NoDirectory? <==> RootMade(calls))
    && (l.worker in {Live, Dead} <==> ProcessStarted(calls))
    && (l.worker == Dead <==> EndConfirmed(calls))
    && (l.directory.Cleaned? <==> RootCleaned(calls))
    && (l.directory.SetAside? <==> RootSetAside(calls))
    && (l.ending.unconfirmed <==> TerminationUnconfirmed in ProblemsOf(calls))
    && (l.directory.Cleaned? && !l.directory.removed <==> CleanupFailed in ProblemsOf(calls))
    && (l.worker != NoWorker && !l.handleOpen ==> HandleClosed(calls))
  }

  predicate HandleClosed(calls: seq<Call>) {
    exists i :: 0 <= i < |calls| && calls[i].CloseHandle?
  }

  /** What holds in every state that safe calls lead to. */
  predicate Consistent(l: Ledger) {
    && (l.worker != NoWorker ==> !l.directory.NoDirectory?)
    && (l.worker == NoWorker ==> !l.handleOpen && !l.directory.SetAside?)
    && (l.worker == Live ==> !l.directory.Cleaned?)
    && (l.directory.SetAside? ==> l.worker == Live && l.ending.unconfirmed && !l.handleOpen)
    && (l.lock in {Untried, Refused} ==> l == START.(lock := l.lock))
    && (l.fileOpen ==> l.worker == Dead && l.directory.Present?)
    && (l.worker == Live && !l.handleOpen ==> l.ending.unconfirmed)
  }

  lemma StepConsistent(l: Ledger, c: Call)
    requires Consistent(l) && Safe(l, c)
    ensures Consistent(Advance(l, c))
  {
    hide Consistent, Advance, Safe;
    match c {
      case MakeRoot(_, _) => DirectoryConsistent(l, c);
      case MakeSub(_) => DirectoryConsistent(l, c);
      case WriteConfig(_) => DirectoryConsistent(l, c);
      case Cleanup(_, _) => DirectoryConsistent(l, c);
      case Isolate(_, _) => DirectoryConsistent(l, c);
      case Start(_) => StartedConsistent(l, c);
      case Wait(_) => WorkerConsistent(l, c);
      case Terminate(_) => WorkerConsistent(l, c);
      case WaitForRoot(_) => WorkerConsistent(l, c);
      case Confirm(_) => WorkerConsistent(l, c);
      case CloseHandle(_) => WorkerConsistent(l, c);
      case OpenResult(_) => ResultConsistent(l, c);
      case ReadResult(_) => ResultConsistent(l, c);
      case CloseResult => ResultConsistent(l, c);
      case _ => OtherConsistent(l, c);
    }
  }

  lemma DirectoryConsistent(l: Ledger, c: Call)
    requires Consistent(l) && Safe(l, c) && (c.MakeRoot? || c.MakeSub? || c.WriteConfig? || c.Cleanup? || c.Isolate?)
    ensures Consistent(Advance(l, c))
  {
  }

  lemma StartedConsistent(l: Ledger, c: Call)
    requires Consistent(l) && Safe(l, c) && c.Start?
    ensures Consistent(Advance(l, c))
  {
  }

  lemma WorkerConsistent(l: Ledger, c: Call)
    requires Consistent(l) && Safe(l, c) && (c.Wait? || c.Terminate? || c.WaitForRoot? || c.Confirm? || c.CloseHandle?)
    ensures Consistent(Advance(l, c))
  {
  }

  lemma ResultConsistent(l: Ledger, c: Call)
    requires Consistent(l) && Safe(l, c) && (c.OpenResult? || c.ReadResult? || c.CloseResult?)
    ensures Consistent(Advance(l, c))
  {
  }

  lemma OtherConsistent(l: Ledger, c: Call)
    requires Consistent(l) && Safe(l, c) && (c.TryLock? || c.LookUp? || c.Clock? || c.MakeParent? || c.Release?)
    ensures Consistent(Advance(l, c))
  {
  }

  lemma {:induction false} AlwaysConsistent(calls: seq<Call>)
    requires Obeys(calls)
    ensures Consistent(LedgerOf(calls))
    decreases |calls|
  {
    hide Consistent, Advance, Safe;
    if calls == [] {
      assert Consistent(START) by { StartConsistent(); }
    } else {
      AlwaysConsistent(calls[..|calls| - 1]);
      StepConsistent(LedgerOf(calls[..|calls| - 1]), calls[|calls| - 1]);
    }
  }

  lemma StartConsistent()
    ensures Consistent(START)
  {
  }

  lemma OneMoreCall(front: seq<Call>, c: Call)
    ensures var calls := front + [c];
            && LedgerOf(calls) == Advance(LedgerOf(front), c)
            && ProblemsOf(calls) == ProblemsOf(front) + (match Problem(LedgerOf(front),
              c) case None => [] case Some(code) => [code])
            && (Acquired(calls) <==> Acquired(front) || c == TryLock(Yes))
            && (ProcessStarted(calls) <==> ProcessStarted(front) || c == Start(Handle(true)))
            && (EndConfirmed(calls) <==> EndConfirmed(front) || c == Confirm(Yes))
  {
    hide Advance, Problem;
    assert (front + [c])[..|front|] == front;
  }

  lemma OneMoreRootCall(front: seq<Call>, c: Call)
    ensures var calls := front + [c];
            && (RootMade(calls) <==> RootMade(front) || (c.MakeRoot? && c.creation == NewRoot))
            && (RootCleaned(calls) <==> RootCleaned(front) || c.Cleanup?)
            && (RootSetAside(calls) <==> RootSetAside(front) || c.Isolate?)
            && (HandleClosed(front) || c.CloseHandle? ==> HandleClosed(calls))
  {
    var calls := front + [c];
    assert calls[|front|] == c;
    assert forall i :: 0 <= i < |front| ==> calls[i] == front[i];
    if RootMade(front) {
      var i :| 0 <= i < |front| && front[i].MakeRoot? && front[i].creation == NewRoot;
      assert calls[i].MakeRoot? && calls[i].creation == NewRoot;
    }
    if RootCleaned(front) {
      var i :| 0 <= i < |front| && front[i].Cleanup?;
      assert calls[i].Cleanup?;
    }
    if RootSetAside(front) {
      var i :| 0 <= i < |front| && front[i].Isolate?;
      assert calls[i].Isolate?;
    }
  }

  lemma StepRecorded(front: seq<Call>, c: Call)
    requires Recorded(front) && Consistent(LedgerOf(front)) && Safe(LedgerOf(front), c)
    ensures Recorded(front + [c])
  {
    hide LedgerOf, ProblemsOf, Acquired, RootMade, ProcessStarted, EndConfirmed, RootCleaned, RootSetAside,
         HandleClosed;
    OneMoreCall(front, c);
    OneMoreRootCall(front, c);
  }

  lemma {:induction false} AlwaysRecorded(calls: seq<Call>)
    requires Obeys(calls)
    ensures Recorded(calls)
    decreases |calls|
  {
    hide Recorded, Consistent, Safe;
    if calls == [] {
      assert Recorded([]) by { NothingRecorded(); }
    } else {
      var front := calls[..|calls| - 1];
      AlwaysRecorded(front);
      AlwaysConsistent(front);
      StepRecorded(front, calls[|calls| - 1]);
      assert front + [calls[|calls| - 1]] == calls;
    }
  }

  lemma NothingRecorded()
    ensures Recorded([])
  {
  }

  // ---------------------------------------------------------------- one whole run

  /**
   * A run that has settled has cleaned up a request root exactly when it made one and its worker was never started or
   * is confirmed to have ended; it has set one aside exactly when the worker was started and its end never confirmed;
   * and in that case the failure it reports is `termination_unconfirmed`.
   */
  lemma CleanedOrSetAside(calls: seq<Call>)
    requires Obeys(calls) && Settled(LedgerOf(calls))
    ensures RootCleaned(calls) <==> RootMade(calls) && (ProcessStarted(calls) ==> EndConfirmed(calls))
    ensures RootSetAside(calls) <==> ProcessStarted(calls) && !EndConfirmed(calls)
    ensures !(RootCleaned(calls) && RootSetAside(calls))
    ensures RootCleaned(calls) ==>
              var directory := LedgerOf(calls).directory;
              directory.Cleaned? && (directory.removed <==> CleanupFailed !in ProblemsOf(calls))
    ensures RootSetAside(calls) ==> forall code :: Reported(ProblemsOf(calls), code) ==> code == TerminationUnconfirmed
  {
    hide LedgerOf, ProblemsOf, Obeys, Acquired, RootMade, ProcessStarted, EndConfirmed, RootCleaned, RootSetAside,
         HandleClosed;
    AlwaysRecorded(calls);
    AlwaysConsistent(calls);
    if RootSetAside(calls) {
      forall code | Reported(ProblemsOf(calls), code) ensures code == TerminationUnconfirmed {
        UnconfirmedIsReported(ProblemsOf(calls), code);
      }
    }
  }

  lemma UnconfirmedIsReported(problems: seq<Code>, code: Code)
    requires TerminationUnconfirmed in problems && Reported(problems, code)
    ensures code == TerminationUnconfirmed
  {
    var i :| 0 <= i < |problems| && FirstGravest(problems, i) && problems[i] == code;
    var k :| 0 <= k < |problems| && problems[k] == TerminationUnconfirmed;
    assert Rank(problems[k]) == 0;
  }

  /**
   * The one acquisition of the lock comes first, and its one release last; a run refused the lock does nothing else.
   */
  ghost predicate Disciplined(calls: seq<Call>) {
    && calls != [] && calls[0].TryLock?
    && (forall i :: 0 < i < |calls| ==> !calls[i].TryLock?)
    && (calls[0] == TryLock(Yes) ==> forall i :: 0 <= i < |calls| ==> (calls[i] == Release <==> i == |calls| - 1))
    && (calls[0] != TryLock(Yes) ==> |calls| == 1)
  }

  /** Where the lock stands after some safe calls. */
  ghost predicate LockStands(calls: seq<Call>) {
    match LedgerOf(calls).lock
    case Untried => calls == []
    case Refused => |calls| == 1 && calls[0].TryLock? && calls[0].got != Yes
    case Held =>
      |calls| > 0 && calls[0] == TryLock(Yes) && forall i :: 0 < i < |calls| ==>
                                                             !calls[i].TryLock? && !calls[i].Release?
    case Released =>
      |calls| > 1 && calls[0] == TryLock(Yes) && calls[|calls| - 1] == Release
      && forall i :: 0 < i < |calls| - 1 ==> !calls[i].TryLock? && !calls[i].Release?
  }

  lemma {:induction false} LockAlwaysStands(calls: seq<Call>)
    requires Obeys(calls)
    ensures LockStands(calls)
    decreases |calls|
  {
    if calls != [] {
      var front := calls[..|calls| - 1];
      LockAlwaysStands(front);
      var c := calls[|calls| - 1];
      LockStep(LedgerOf(front), c);
      if front == [] {
        assert calls == [c];
      } else {
        assert forall i :: 0 <= i < |front| ==> calls[i] == front[i];
      }
    }
  }

  lemma LockStep(l: Ledger, c: Call)
    requires Safe(l, c)
    ensures Advance(l, c).lock == if c.TryLock? then (if c.got == Yes then Held else Refused) else if c.Release?
            then Released else l.lock
    ensures c.TryLock? <==> l.lock != Held
    ensures c.TryLock? ==> l.lock == Untried
  {
  }

  lemma LockDiscipline(calls: seq<Call>)
    requires Obeys(calls) && Settled(LedgerOf(calls))
    ensures Disciplined(calls)
  {
    hide LedgerOf, Obeys;
    LockAlwaysStands(calls);
  }

  /** A run is busy exactly when it was refused the lock; then that was the only call it made. */
  lemma {:induction false} BusyDoesNothing(calls: seq<Call>)
    requires Obeys(calls)
    ensures Busy in ProblemsOf(calls) <==> calls == [TryLock(No)]
  {
    hide Problem, Advance, Safe;
    if calls != [] {
      var front := calls[..|calls| - 1];
      BusyDoesNothing(front);
      LockAlwaysStands(front);
      BusyStep(LedgerOf(front), calls[|calls| - 1]);
      RefusedLedger();
      if calls == [TryLock(No)] {
        assert front == [];
      }
      assert front == [] ==> calls == [calls[|calls| - 1]];
    }
  }

  lemma RefusedLedger()
    ensures LedgerOf([TryLock(No)]).lock == Refused
  {
    assert [TryLock(No)][..0] == [];
  }

  lemma BusyStep(l: Ledger, c: Call)
    requires Safe(l, c)
    ensures Problem(l, c) == Some(Busy) <==> c == TryLock(No)
    ensures c.TryLock? ==> l == START
    ensures !c.TryLock? ==> l.lock == Held
  {
  }

  lemma {:induction false} NothingFailed(calls: seq<Call>, i: nat)
    requires ProblemsOf(calls) == [] && i < |calls|
    ensures Problem(LedgerOf(calls[..i]), calls[i]) == None
    decreases |calls|
  {
    hide Problem, LedgerOf;
    var front := calls[..|calls| - 1];
    if i < |front| {
      NothingFailed(front, i);
      assert front[..i] == calls[..i];
    }
  }

  /**
   * What a returned view stands on: the worker's end confirmed, its handles closed and the request root removed, all
   * without failure.
   */
  lemma ViewEvidence(calls: seq<Call>)
    requires Obeys(calls) && Settled(LedgerOf(calls)) && ProblemsOf(calls) == []
    requires LedgerOf(calls).worker == Dead && LedgerOf(calls).directory.Cleaned?
    ensures Start(Handle(true)) in calls && Confirm(Yes) in calls && CloseHandle(true) in calls
    ensures exists root :: Cleanup(root, true) in calls
    ensures forall i :: 0 <= i < |calls| ==> calls[i] != Wait(StillRunning) && calls[i] != Terminate(false)
                                             && calls[i] != CloseHandle(false)
  {
    hide LedgerOf, ProblemsOf, Obeys, RootMade;
    AlwaysRecorded(calls);
    var k :| 0 <= k < |calls| && calls[k].CloseHandle?;
    NothingFailed(calls, k);
    var j :| 0 <= j < |calls| && calls[j].Cleanup?;
    NothingFailed(calls, j);
    assert calls[j] == Cleanup(calls[j].root, true);
    forall i | 0 <= i < |calls| ensures calls[i] != Wait(StillRunning) && calls[i] != Terminate(false)
      && calls[i] != CloseHandle(false) {
      NothingFailed(calls, i);
    }
  }
}
