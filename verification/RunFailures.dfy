/** Which calls of a run are failures, told from the calls alone, and when a run has none. */
module RunFailures {
  import opened Base
  import opened Trace
  import opened TraceContract
  import opened RunProtocol
  import opened RunSafety

  // ---------------------------------------------------------------- what the calls before say

  /** The last scenario looked up. */
  ghost predicate LookedUp(calls: seq<Call>, found: Option<Scenario>) {
    exists i :: 0 <= i < |calls| && calls[i] == LookUp(found) && forall k :: i < k < |calls| ==> !calls[k].LookUp?
  }

  /** The first reading of the clock. */
  ghost predicate FirstReading(calls: seq<Call>, t: real) {
    exists i :: 0 <= i < |calls| && calls[i] == Clock(Some(t)) && forall k :: 0 <= k < i ==> !ReadsClock(calls[k])
  }

  predicate ReadsClock(c: Call) {
    c.Clock? && c.now != None
  }

  ghost predicate Killed(calls: seq<Call>) {
    exists i :: 0 <= i < |calls| && calls[i].Terminate?
  }

  /** The request roots tried so far. */
  function RootsTried(calls: seq<Call>): nat {
    if calls == [] then 0 else RootsTried(calls[..|calls| - 1]) + if calls[|calls| - 1].MakeRoot? then 1 else 0
  }

  /** The state of a run tells which scenario was looked up. */
  ghost predicate ScenarioTold(calls: seq<Call>, found: Option<Scenario>) {
    (found.Some? ==> LookedUp(calls, found)) && forall s :: LookedUp(calls, Some(s)) ==> found == Some(s)
  }

  /** It tells the deadline, 60 seconds after the first reading. */
  ghost predicate DeadlineTold(calls: seq<Call>, deadline: Option<real>) {
    && (deadline.Some? ==> FirstReading(calls, deadline.value - 60.0))
    && (forall t :: FirstReading(calls, t) ==> deadline == Some(t + 60.0))
    && (deadline == None ==> forall k :: 0 <= k < |calls| ==> !ReadsClock(calls[k]))
  }

  ghost predicate Told(calls: seq<Call>) {
    var l := LedgerOf(calls);
    && ScenarioTold(calls, l.scenario) && DeadlineTold(calls, l.deadline)
    && (l.ending.kills > 0 <==> Killed(calls)) && l.setup.tries == RootsTried(calls)
  }

  lemma LookedUpNext(front: seq<Call>, c: Call, s: Option<Scenario>)
    ensures LookedUp(front + [c], s) <==> if c.LookUp? then c.scenario == s else LookedUp(front, s)
  {
    var calls := front + [c];
    assert calls[|front|] == c;
    assert forall i :: 0 <= i < |front| ==> calls[i] == front[i];
    if LookedUp(front, s) && !c.LookUp? {
      var i :| 0 <= i < |front| && front[i] == LookUp(s) && forall k :: i < k < |front| ==> !front[k].LookUp?;
      assert calls[i] == LookUp(s);
    }
    if LookedUp(calls, s) {
      var i :| 0 <= i < |calls| && calls[i] == LookUp(s) && forall k :: i < k < |calls| ==> !calls[k].LookUp?;
      if i < |front| {
        assert front[i] == LookUp(s);
      }
    }
  }

  lemma FirstReadingNext(front: seq<Call>, c: Call, t: real)
    ensures FirstReading(front + [c], t) <==>
            FirstReading(front, t)
            || (c == Clock(Some(t)) && forall k :: 0 <= k < |front| ==> !ReadsClock(front[k]))
  {
    var calls := front + [c];
    assert calls[|front|] == c;
    assert forall i :: 0 <= i < |front| ==> calls[i] == front[i];
    if FirstReading(front, t) {
      var i :| 0 <= i < |front| && front[i] == Clock(Some(t)) && forall k :: 0 <= k < i ==> !ReadsClock(front[k]);
      assert calls[i] == Clock(Some(t));
    }
    if FirstReading(calls, t) {
      var i :| 0 <= i < |calls| && calls[i] == Clock(Some(t)) && forall k :: 0 <= k < i ==> !ReadsClock(calls[k]);
      if i < |front| {
        assert front[i] == Clock(Some(t));
      }
    }
  }

  lemma KilledNext(front: seq<Call>, c: Call)
    ensures Killed(front + [c]) <==> Killed(front) || c.Terminate?
    ensures RootsTried(front + [c]) == RootsTried(front) + if c.MakeRoot? then 1 else 0
  {
    var calls := front + [c];
    assert calls[|front|] == c && calls[..|front|] == front;
    assert forall i :: 0 <= i < |front| ==> calls[i] == front[i];
    if Killed(front) {
      var i :| 0 <= i < |front| && front[i].Terminate?;
      assert calls[i].Terminate?;
    }
  }

  lemma ScenarioToldNext(front: seq<Call>, c: Call, found: Option<Scenario>)
    requires ScenarioTold(front, found)
    ensures ScenarioTold(front + [c], if c.LookUp? then c.scenario else found)
  {
    hide LookedUp;
    forall s: Option<Scenario> {
      LookedUpNext(front, c, s);
    }
  }

  lemma DeadlineToldNext(front: seq<Call>, c: Call, deadline: Option<real>)
    requires DeadlineTold(front, deadline)
    ensures DeadlineTold(front + [c],
                         if ReadsClock(c) && deadline == None then Some(c.now.value + 60.0) else deadline)
  {
    hide FirstReading;
    forall t: real {
      FirstReadingNext(front, c, t);
    }
    if deadline.Some? {
      ReadingThere(front, deadline.value - 60.0);
    } else {
      forall t: real | FirstReading(front, t) ensures false {
        ReadingThere(front, t);
      }
    }
  }

  lemma ReadingThere(calls: seq<Call>, t: real)
    requires FirstReading(calls, t)
    ensures exists k :: 0 <= k < |calls| && ReadsClock(calls[k])
  {
  }

  lemma Remembered(l: Ledger, c: Call)
    ensures var l' := Advance(l, c);
            && l'.scenario == (if c.LookUp? then c.scenario else l.scenario)
            && l'.deadline == (if ReadsClock(c) && l.deadline == None then Some(c.now.value + 60.0) else l.deadline)
            && l'.ending.kills == l.ending.kills + (if c.Terminate? then 1 else 0)
            && l'.setup.tries == l.setup.tries + (if c.MakeRoot? then 1 else 0)
  {
  }

  lemma ToldNext(front: seq<Call>, c: Call)
    requires Told(front)
    ensures Told(front + [c])
  {
    hide ScenarioTold, DeadlineTold, Killed, RootsTried, LedgerOf, Advance, ProblemsOf, Acquired, ProcessStarted,
         EndConfirmed, ReadsClock;
    OneMoreCall(front, c);
    Remembered(LedgerOf(front), c);
    ScenarioToldNext(front, c, LedgerOf(front).scenario);
    DeadlineToldNext(front, c, LedgerOf(front).deadline);
    KilledNext(front, c);
  }

  lemma {:induction false} AlwaysTold(calls: seq<Call>)
    ensures Told(calls)
  {
    hide Told;
    if calls == [] {
      assert Told([]) by { NothingTold(); }
    } else {
      var front := calls[..|calls| - 1];
      AlwaysTold(front);
      ToldNext(front, calls[|calls| - 1]);
      assert front + [calls[|calls| - 1]] == calls;
    }
  }

  lemma NothingTold()
    ensures Told([])
  {
  }

  // ---------------------------------------------------------------- the failures

  /** The result is what the scenario asks for. */
  predicate Fitting(s: Scenario, r: WorkerResult) {
    && r.scenario == s.id && |r.events| <= 64
    && r.terminal == s.expected && r.terminal == s.contract.required
    && Satisfies(s.contract, r.events)
  }

  /** A clock reading 60 seconds or more after the first, with a worker started and not confirmed to have ended. */
  ghost predicate TooLate(before: seq<Call>, c: Call) {
    && c.Clock? && c.now.Some? && ProcessStarted(before) && !EndConfirmed(before)
    && exists t :: FirstReading(before, t) && c.now.value >= t + 60.0
  }

  /** The call is a failure of this kind, given the calls before it. */
  ghost predicate Fails(before: seq<Call>, c: Call, code: Code) {
    match code
    case Busy => c == TryLock(No)
    case TimedOut => c == Wait(StillRunning) || TooLate(before, c)
    case TraceIncomplete =>
      c == OpenResult(false) || c == ReadResult(None)
      || (c.ReadResult? && c.result.Some? && !exists s :: LookedUp(before, Some(s)) && Fitting(s, c.result.value))
    case LifecycleInvalid => c.Confirm? && c.gone != Yes && !Killed(before)
    case TerminationUnconfirmed =>
      c == Terminate(false) || (c.WaitForRoot? && c.exited != Yes) || (c.Confirm? && c.gone != Yes && Killed(before))
    case CleanupFailed => c.Cleanup? && !c.ok
    case Internal =>
      c in {TryLock(Raises), LookUp(None), Clock(None), MakeParent(false), MakeSub(false), WriteConfig(false),
            Wait(WaitRaised), CloseHandle(false)}
      || (c.Start? && c.started != Handle(true))
      || (c.MakeRoot? && (c.creation == CreationFailed
                          || (c.creation == AlreadyExists && RootsTried(before) == 15)))
  }

  lemma ProblemExactly(before: seq<Call>, c: Call, code: Code)
    requires Obeys(before)
    ensures Problem(LedgerOf(before), c) == Some(code) <==> Fails(before, c, code)
  {
    hide LedgerOf, Obeys, LookedUp, FirstReading, Killed, RootsTried, ProcessStarted, EndConfirmed, Acquired,
         RootMade, RootCleaned, RootSetAside, HandleClosed, Satisfies;
    AlwaysTold(before);
    AlwaysRecorded(before);
  }

  /** A run has had a failure of some kind exactly when one of its calls is one. */
  lemma {:induction false} FailuresExactly(calls: seq<Call>, code: Code)
    requires Obeys(calls)
    ensures code in ProblemsOf(calls) <==> exists i :: 0 <= i < |calls| && Fails(calls[..i], calls[i], code)
    decreases |calls|
  {
    hide Problem, Fails, Safe, LedgerOf;
    if calls != [] {
      var front, n := calls[..|calls| - 1], |calls| - 1;
      FailuresExactly(front, code);
      ProblemExactly(front, calls[n], code);
      assert forall i :: 0 <= i < n ==> calls[i] == front[i] && calls[..i] == front[..i];
      assert calls[..n] == front;
      if code in ProblemsOf(front) {
        var i :| 0 <= i < |front| && Fails(front[..i], front[i], code);
        assert Fails(calls[..i], calls[i], code);
      }
    }
  }

  ghost predicate FailsAt(calls: seq<Call>, i: nat, code: Code)
    requires i < |calls|
  {
    Fails(calls[..i], calls[i], code)
  }

  /** Some call is a failure of this kind. */
  ghost predicate SomeFails(calls: seq<Call>, code: Code) {
    exists i :: 0 <= i < |calls| && FailsAt(calls, i, code)
  }

  /** No call before this one is a failure. */
  ghost predicate FirstFailure(calls: seq<Call>, i: nat, code: Code)
    requires i < |calls|
  {
    FailsAt(calls, i, code) && forall k, other :: 0 <= k < i ==> !FailsAt(calls, k, other)
  }

  lemma NoFailureExactly(calls: seq<Call>)
    requires Obeys(calls)
    ensures ProblemsOf(calls) == [] <==> forall code :: !SomeFails(calls, code)
  {
    hide Fails, ProblemsOf;
    forall code ensures code in ProblemsOf(calls) <==> SomeFails(calls, code) {
      MembersFail(calls, code);
    }
    if ProblemsOf(calls) != [] {
      assert ProblemsOf(calls)[0] in ProblemsOf(calls);
    }
  }

  /** The first failure there is has the first place among them. */
  lemma {:induction false} FirstProblem(calls: seq<Call>)
    requires Obeys(calls) && ProblemsOf(calls) != []
    ensures exists i :: 0 <= i < |calls| && FirstFailure(calls, i, ProblemsOf(calls)[0])
    decreases |calls|
  {
    hide Fails, Problem, LedgerOf, Safe;
    var front, n := calls[..|calls| - 1], |calls| - 1;
    assert forall i :: 0 <= i < n ==> calls[i] == front[i] && calls[..i] == front[..i];
    if ProblemsOf(front) != [] {
      FirstProblem(front);
      var i :| 0 <= i < |front| && FirstFailure(front, i, ProblemsOf(front)[0]);
      assert forall k, code :: 0 <= k <= i ==> FailsAt(calls, k, code) == FailsAt(front, k, code);
      assert FirstFailure(calls, i, ProblemsOf(calls)[0]);
    } else {
      var code := ProblemsOf(calls)[0];
      ProblemExactly(front, calls[n], code);
      NoFailureExactly(front);
      forall k, other | 0 <= k < n ensures !FailsAt(calls, k, other) {
        assert !SomeFails(front, other);
        assert FailsAt(front, k, other) == FailsAt(calls, k, other);
      }
      assert FirstFailure(calls, n, code);
    }
  }

  /**
   * Which failure is reported: that the worker's end is not confirmed before anything else, then that the cleanup
   * failed, and otherwise the first failure there was.
   */
  lemma ReportedExactly(calls: seq<Call>, code: Code)
    requires Obeys(calls) && Reported(ProblemsOf(calls), code)
    ensures code == TerminationUnconfirmed <==> SomeFails(calls, TerminationUnconfirmed)
    ensures code == CleanupFailed <==> SomeFails(calls, CleanupFailed) && !SomeFails(calls, TerminationUnconfirmed)
    ensures code != TerminationUnconfirmed && code != CleanupFailed ==>
              exists i :: 0 <= i < |calls| && FirstFailure(calls, i, code)
  {
    hide Fails, ProblemsOf, FailsAt, Obeys;
    var problems := ProblemsOf(calls);
    MembersFail(calls, TerminationUnconfirmed);
    MembersFail(calls, CleanupFailed);
    var i :| 0 <= i < |problems| && FirstGravest(problems, i) && problems[i] == code;
    if TerminationUnconfirmed in problems {
      var k :| 0 <= k < |problems| && problems[k] == TerminationUnconfirmed;
    }
    if CleanupFailed in problems {
      var k :| 0 <= k < |problems| && problems[k] == CleanupFailed;
    }
    if code != TerminationUnconfirmed && code != CleanupFailed {
      assert i == 0 by {
        var first := problems[0];
        assert first == Busy || Rank(first) <= 2;
      }
      FirstProblem(calls);
    }
  }

  lemma MembersFail(calls: seq<Call>, code: Code)
    requires Obeys(calls)
    ensures code in ProblemsOf(calls) <==> SomeFails(calls, code)
  {
    hide Fails, ProblemsOf, Obeys;
    FailuresExactly(calls, code);
    if i :| 0 <= i < |calls| && Fails(calls[..i], calls[i], code) {
      assert FailsAt(calls, i, code);
    }
  }

  // ---------------------------------------------------------------- how a worker is ended

  /** The last attempt to end the worker, at `k`, was carried out, and its root process waited for with success. */
  predicate EndedAt(calls: seq<Call>, k: nat) {
    && k + 1 < |calls| && calls[k] == Terminate(true) && calls[k + 1] == WaitForRoot(Yes)
    && forall m :: k < m < |calls| ==> !calls[m].Terminate?
  }

  ghost predicate LastKillSucceeded(calls: seq<Call>) {
    exists k: nat :: EndedAt(calls, k)
  }

  /** The state of a run tells how far the last attempt has come. */
  ghost predicate KillTold(calls: seq<Call>) {
    match LedgerOf(calls).ending.last
    case NoKill => !Killed(calls)
    case Requested(ok) => calls != [] && calls[|calls| - 1] == Terminate(ok)
    case Awaited(exited) => Killed(calls) && (exited ==> LastKillSucceeded(calls))
  }

  lemma KillNext(l: Ledger, c: Call)
    requires Safe(l, c)
    ensures Advance(l, c).ending.last ==
            if c.Terminate? then Requested(c.ok)
            else if c.WaitForRoot? then Awaited(l.ending.last == Requested(true) && c.exited == Yes)
            else l.ending.last
    ensures l.ending.last.Requested? ==> c.WaitForRoot?
    ensures c.WaitForRoot? ==> l.ending.last.Requested?
  {
  }

  lemma EndedStays(front: seq<Call>, c: Call)
    requires !c.Terminate? && LastKillSucceeded(front)
    ensures LastKillSucceeded(front + [c])
  {
    var k: nat :| EndedAt(front, k);
    assert EndedAt(front + [c], k);
  }

  lemma {:induction false} KillAlwaysTold(calls: seq<Call>)
    requires Obeys(calls)
    ensures KillTold(calls)
    decreases |calls|
  {
    hide Advance, Safe, Killed, LastKillSucceeded, LedgerOf;
    if calls == [] {
      assert !Killed([]) && LedgerOf([]) == START by { NothingKilled(); }
    } else {
      var front, n := calls[..|calls| - 1], |calls| - 1;
      var c := calls[n];
      KillAlwaysTold(front);
      assert front + [c] == calls;
      OneMoreCall(front, c);
      KillNext(LedgerOf(front), c);
      KilledNext(front, c);
      if c == WaitForRoot(Yes) && LedgerOf(front).ending.last == Requested(true) {
        assert EndedAt(calls, n - 1);
        assert LastKillSucceeded(calls) by { EndedHere(calls, n - 1); }
      } else if !c.Terminate? && LastKillSucceeded(front) {
        EndedStays(front, c);
      }
      if c.WaitForRoot? {
        assert Killed(front) by { KilledLast(front); }
      }
    }
  }

  lemma NothingKilled()
    ensures !Killed([]) && LedgerOf([]) == START
  {
  }

  lemma KilledLast(calls: seq<Call>)
    requires calls != [] && calls[|calls| - 1].Terminate?
    ensures Killed(calls)
  {
  }

  lemma EndedHere(calls: seq<Call>, k: nat)
    requires EndedAt(calls, k)
    ensures LastKillSucceeded(calls)
  {
  }

  lemma SafeAt(calls: seq<Call>, i: nat)
    requires Obeys(calls) && i < |calls|
    ensures Obeys(calls[..i]) && Safe(LedgerOf(calls[..i]), calls[i])
  {
    hide Safe, LedgerOf;
    ObeysPrefix(calls, i + 1);
    assert calls[..i + 1][..i] == calls[..i];
  }

  /** The worker was found to have ended by itself at `j`, and the clock, read at `k`, was within the 60 seconds. */
  ghost predicate LeftAt(calls: seq<Call>, j: nat, k: nat) {
    && j < k < |calls| && calls[j].Wait? && calls[j].waited.Exited? && calls[k].Clock? && calls[k].now.Some?
    && exists t :: FirstReading(calls[..k], t) && calls[k].now.value < t + 60.0
  }

  ghost predicate LeftInTime(calls: seq<Call>) {
    exists j: nat, k: nat :: LeftAt(calls, j, k)
  }

  ghost predicate Left(calls: seq<Call>) {
    exists j :: 0 <= j < |calls| && calls[j].Wait? && calls[j].waited.Exited?
  }

  lemma LeftNext(l: Ledger, c: Call)
    ensures Advance(l, c).ended ==> l.ended || (c.Wait? && c.waited.Exited?)
    ensures Advance(l, c).onTime ==>
              l.onTime || (l.ended && c.Clock? && c.now.Some? && l.deadline.Some? && c.now.value < l.deadline.value)
  {
  }

  lemma {:induction false} LeftAlwaysTold(calls: seq<Call>)
    ensures LedgerOf(calls).ended ==> Left(calls)
    ensures LedgerOf(calls).onTime ==> LeftInTime(calls)
    decreases |calls|
  {
    hide Advance, LeftAt, FirstReading;
    if calls != [] {
      var front, n := calls[..|calls| - 1], |calls| - 1;
      LeftAlwaysTold(front);
      LeftNext(LedgerOf(front), calls[n]);
      assert forall i :: 0 <= i < n ==> calls[i] == front[i];
      if LedgerOf(front).onTime {
        var j: nat, k: nat :| LeftAt(front, j, k);
        LeftStays(front, calls[n], j, k);
        assert front + [calls[n]] == calls;
      } else if LedgerOf(calls).onTime {
        var j :| 0 <= j < |front| && front[j].Wait? && front[j].waited.Exited?;
        AlwaysTold(front);
        assert calls[..n] == front;
        LeftHere(calls, j);
      }
    }
  }

  lemma LeftStays(front: seq<Call>, c: Call, j: nat, k: nat)
    requires LeftAt(front, j, k)
    ensures LeftAt(front + [c], j, k)
  {
    assert (front + [c])[..k] == front[..k];
  }

  lemma LeftHere(calls: seq<Call>, j: nat)
    requires var n := |calls| - 1;
             && j < n && calls[j].Wait? && calls[j].waited.Exited? && calls[n].Clock? && calls[n].now.Some?
             && var l := LedgerOf(calls[..n]);
                Told(calls[..n]) && l.deadline.Some? && calls[n].now.value < l.deadline.value
    ensures LeftAt(calls, j, |calls| - 1)
  {
    hide FirstReading;
    var n := |calls| - 1;
    assert FirstReading(calls[..n], LedgerOf(calls[..n]).deadline.value - 60.0);
  }

  /**
   * Each attempt to end the worker is followed at once by waiting for its root process. Whether the worker is gone is
   * asked only after such an attempt has succeeded in both, or, before there was any, after it left by itself in time.
   */
  lemma KillsAreAwaited(calls: seq<Call>, i: nat)
    requires Obeys(calls) && Settled(LedgerOf(calls)) && i < |calls|
    ensures calls[i].Terminate? ==> i + 1 < |calls| && calls[i + 1].WaitForRoot?
    ensures calls[i].Confirm? ==>
              if Killed(calls[..i]) then LastKillSucceeded(calls[..i]) else LeftInTime(calls[..i])
  {
    hide LedgerOf, Killed, LastKillSucceeded, Obeys, Advance;
    SafeAt(calls, i);
    KillAlwaysTold(calls[..i]);
    LeftAlwaysTold(calls[..i]);
    if calls[i].Terminate? {
      OneMoreCall(calls[..i], calls[i]);
      KillNext(LedgerOf(calls[..i]), calls[i]);
      assert calls[..i + 1] == calls[..i] + [calls[i]];
      if i + 1 < |calls| {
        SafeAt(calls, i + 1);
        KillNext(LedgerOf(calls[..i + 1]), calls[i + 1]);
      } else {
        assert calls[..i + 1] == calls;
        LockAlwaysStands(calls);
      }
    }
  }

  /** The attempts to end the worker. */
  function Kills(calls: seq<Call>): nat {
    if calls == [] then 0 else Kills(calls[..|calls| - 1]) + if calls[|calls| - 1].Terminate? then 1 else 0
  }

  /** What the state of a run tells of its attempts, and of how they became necessary. */
  ghost predicate AttemptsTold(calls: seq<Call>) {
    var l := LedgerOf(calls);
    && l.ending.kills == Kills(calls)
    && (l.ending.givenUp <==> TimedOut in ProblemsOf(calls) || LifecycleInvalid in ProblemsOf(calls))
    && EnoughKills(l)
  }

  /** Enough attempts have been made on a worker that is let go. */
  predicate EnoughKills(l: Ledger) {
    l.worker == Live && !l.handleOpen ==> l.ending.kills >= if l.ending.givenUp then 2 else 1
  }

  /** The calls that can make a worker be given up on. */
  predicate MayGiveUp(c: Call) {
    c.Clock? || c.Wait? || c.Confirm?
  }

  lemma GivenUpHere(l: Ledger, c: Call)
    requires MayGiveUp(c)
    ensures Advance(l, c).ending.givenUp <==>
            l.ending.givenUp || Problem(l, c) == Some(TimedOut) || Problem(l, c) == Some(LifecycleInvalid)
  {
  }

  lemma NotGivenUpHere(l: Ledger, c: Call)
    requires !MayGiveUp(c)
    ensures Advance(l, c).ending.givenUp == l.ending.givenUp
    ensures Problem(l, c) != Some(TimedOut) && Problem(l, c) != Some(LifecycleInvalid)
  {
    hide Acceptable;
  }

  lemma EnoughNext(l: Ledger, c: Call)
    requires Safe(l, c) && Consistent(l) && EnoughKills(l)
    ensures EnoughKills(Advance(l, c))
  {
  }

  lemma NoWorkerYet()
    ensures EnoughKills(START)
  {
  }

  lemma {:induction false} AttemptsAlwaysTold(calls: seq<Call>)
    requires Obeys(calls)
    ensures AttemptsTold(calls)
    decreases |calls|
  {
    hide Advance, Safe, Problem, Consistent, EnoughKills;
    assert EnoughKills(START) by { NoWorkerYet(); }
    if calls != [] {
      var front, n := calls[..|calls| - 1], |calls| - 1;
      AttemptsAlwaysTold(front);
      AlwaysConsistent(front);
      Remembered(LedgerOf(front), calls[n]);
      if MayGiveUp(calls[n]) {
        GivenUpHere(LedgerOf(front), calls[n]);
      } else {
        NotGivenUpHere(LedgerOf(front), calls[n]);
      }
      EnoughNext(LedgerOf(front), calls[n]);
    }
  }

  /**
   * A request root is set aside only after the worker in it has been asked to end at least once, and twice if it was
   * late, or if its end could not be confirmed although it seemed to have left.
   */
  lemma SetAsideAfterKills(calls: seq<Call>)
    requires Obeys(calls) && Settled(LedgerOf(calls)) && RootSetAside(calls)
    ensures Kills(calls) >= if SomeFails(calls, TimedOut) || SomeFails(calls, LifecycleInvalid) then 2 else 1
  {
    hide LedgerOf, Obeys, ProblemsOf, SomeFails, Kills, RootSetAside, Acquired, RootMade, ProcessStarted, EndConfirmed,
         RootCleaned, HandleClosed;
    AttemptsAlwaysTold(calls);
    AlwaysConsistent(calls);
    AlwaysRecorded(calls);
    MembersFail(calls, TimedOut);
    MembersFail(calls, LifecycleInvalid);
  }
}
