/** `DemoRunService.run_scenario`: one run, with everything it may call on failing in any way and at any time. */
module RunService {
  import opened Base
  import opened Trace
  import opened TraceContract
  import opened RunProtocol
  import opened RunFailures
  import opened RunSafety

  /** How the world answers, given the calls made so far. */
  datatype World = World(
    lock: seq<Call> -> Tri,
    clock: seq<Call> -> Option<real>,
    makeRoot: seq<Call> -> (Root, Creation),
    start: seq<Call> -> Started,
    wait: seq<Call> -> Waited,
    answer: seq<Call> -> Tri,
    read: seq<Call> -> Option<WorkerResult>,
    ok: seq<Call> -> bool)

  datatype Pending = Success(view: Option<View>) | Failed(code: Code)

  /** The exceptions that the body of `run_scenario` tells apart. */
  datatype Raised = RootCreationError(cleanupFailed: bool) | OtherException

  function CodeOf(raised: Raised): Code {
    if raised == RootCreationError(true) then CleanupFailed else Internal
  }

  /** `_prefer`, which has no rank for `busy`. */
  function Prefer(current: Pending, candidate: Code): Pending
    requires current != Failed(Busy) && candidate != Busy
  {
    if current.Success? then Failed(candidate) else Failed(Graver(current.code, candidate))
  }

  /** The pending result stands for the failures so far. */
  ghost predicate Stands(pending: Pending, problems: seq<Code>) {
    match pending
    case Success(_) => problems == []
    case Failed(code) => Reported(problems, code)
  }

  lemma StandsNext(pending: Pending, problems: seq<Code>, candidate: Code)
    requires Stands(pending, problems) && pending != Failed(Busy) && candidate != Busy
    ensures Stands(Prefer(pending, candidate), problems + [candidate])
    ensures Prefer(pending, candidate) != Failed(Busy)
  {
    hide Reported, Rank;
    if pending.Success? {
      ReportedFirst(candidate);
      assert problems + [candidate] == [candidate];
    } else {
      ReportedNext(problems, pending.code, candidate);
    }
  }

  /** A view that may be returned comes from an accepted result. */
  predicate ViewFrom(view: View, l: Ledger) {
    && l.scenario.Some? && l.result.Some? && l.ended && l.onTime
    && Acceptable(l.scenario.value, l.result.value)
    && view == View(l.result.value.events, l.result.value.terminal)
  }

  /** The call is answered as the world answers it after the calls before it. */
  predicate TrueCall(world: World, registry: map<string, Scenario>, scenarioId: string, before: seq<Call>,
                     call: Call) {
    match call
    case TryLock(got) => got == world.lock(before)
    case LookUp(scenario) => scenario == if scenarioId in registry then Some(registry[scenarioId]) else None
    case Clock(now) => now == world.clock(before)
    case MakeParent(ok) => ok == world.ok(before)
    case MakeRoot(root, creation) => (root, creation) == world.makeRoot(before)
    case MakeSub(ok) => ok == world.ok(before)
    case WriteConfig(ok) => ok == world.ok(before)
    case Start(started) => started == world.start(before)
    case Wait(waited) => waited == world.wait(before)
    case Terminate(ok) => ok == world.ok(before)
    case WaitForRoot(exited) => exited == world.answer(before)
    case Confirm(gone) => gone == world.answer(before)
    case OpenResult(ok) => ok == world.ok(before)
    case ReadResult(result) => result == world.read(before)
    case CloseResult => true
    case CloseHandle(ok) => ok == world.ok(before)
    case Cleanup(_, ok) => ok == world.ok(before)
    case Isolate(_, ok) => ok == world.ok(before)
    case Release => true
  }

  predicate Truthful(world: World, registry: map<string, Scenario>, scenarioId: string, calls: seq<Call>) {
    forall i :: 0 <= i < |calls| ==> TrueCall(world, registry, scenarioId, calls[..i], calls[i])
  }

  class DemoRun {
    const world: World
    const registry: map<string, Scenario>
    const scenarioId: string
    var log: seq<Call>
    var pending: Pending
    var hasHandle: bool
    var fileOpen: bool
    var root: Option<Root>
    var rootCreated: bool
    var lockAcquired: bool
    var processCreated: bool
    var terminationConfirmed: bool

    constructor (world: World, registry: map<string, Scenario>, scenarioId: string)
      ensures this.world == world && this.registry == registry && this.scenarioId == scenarioId
      ensures log == [] && pending == Success(None) && root == None
      ensures !hasHandle && !fileOpen && !rootCreated && !lockAcquired && !processCreated && !terminationConfirmed
    {
      this.world, this.registry, this.scenarioId := world, registry, scenarioId;
      log, pending, root := [], Success(None), None;
      hasHandle, fileOpen, rootCreated, lockAcquired, processCreated, terminationConfirmed := false, false, false,
        false, false, false;
    }

    /** The calls so far are safe and answered by the world. */
    ghost predicate Sound()
      reads `log
    {
      Obeys(log) && Truthful(world, registry, scenarioId, log)
    }

    /** And no attempt to end the worker is still to be waited for. */
    ghost predicate Lawful()
      reads `log
    {
      Sound() && !LedgerOf(log).ending.last.Requested?
    }

    /** A worker that is given up on has been asked to end. */
    ghost predicate Tried()
      reads `log
    {
      var l := LedgerOf(log);
      l.worker == Live && l.ending.givenUp ==> l.ending.kills > 0
    }

    /** One call on the world. */
    method Make(call: Call)
      modifies `log
      ensures log == old(log) + [call]
      ensures LedgerOf(log) == Advance(LedgerOf(old(log)), call)
      ensures old(Sound()) && Safe(LedgerOf(old(log)), call) && TrueCall(world, registry, scenarioId, old(log), call)
              ==> Sound()
      ensures Problem(LedgerOf(old(log)), call) == None ==> ProblemsOf(log) == ProblemsOf(old(log))
      ensures forall code :: Problem(LedgerOf(old(log)), call) == Some(code) ==>
                             ProblemsOf(log) == ProblemsOf(old(log)) + [code]
    {
      hide Advance, Safe, Problem, TrueCall;
      log := log + [call];
      assert log[..|log| - 1] == old(log);
      assert forall i :: 0 <= i < |old(log)| ==> log[i] == old(log)[i] && log[..i] == old(log)[..i];
    }

    /** The variables of the run agree with the state of the world. */
    ghost predicate Agrees()
      reads this
    {
      var l := LedgerOf(log);
      && Lawful()
      && (lockAcquired <==> l.lock == Held)
      && (!lockAcquired ==> l.lock == Refused && !hasHandle && !rootCreated && !fileOpen)
      && (hasHandle <==> l.worker != NoWorker)
      && hasHandle == l.handleOpen
      && (processCreated <==> l.worker in {Live, Dead})
      && (terminationConfirmed <==> l.worker == Dead)
      && fileOpen == l.fileOpen
      && (rootCreated ==> root.Some? && l.directory == Present(root.value, 2))
      && (!rootCreated ==> !l.directory.Present? && !l.directory.SetAside? && !hasHandle)
    }

    /** `_confirm`. */
    method ConfirmGone() returns (gone: bool)
      requires LedgerOf(log).worker == Live && LedgerOf(log).lock == Held && LedgerOf(log).handleOpen && Lawful()
      requires var l := LedgerOf(log);
               l.ending.last == Awaited(true) || (l.ending.last == NoKill && l.ended && l.onTime)
      modifies `log
      ensures Lawful()
      ensures LedgerOf(log) == Advance(LedgerOf(old(log)), Confirm(if gone then Yes else No))
      ensures ProblemsOf(log) == ProblemsOf(old(log)) +
              if gone then []
              else if LedgerOf(old(log)).ending.kills > 0 then [TerminationUnconfirmed]
              else [LifecycleInvalid]
    {
      hide ProblemsOf, Sound, Obeys, LedgerOf;
      var answer := world.answer(log);
      Make(Confirm(answer));
      gone := answer == Yes;
    }

    /** Failing to confirm the end of the worker adds failures, all of them `termination_unconfirmed`. */
    static ghost predicate Unconfirmed(before: seq<Code>, after: seq<Code>) {
      && |after| > |before| && after[..|before|] == before
      && forall i :: |before| <= i < |after| ==> after[i] == TerminationUnconfirmed
    }

    static lemma UnconfirmedReported(pending: Pending, before: seq<Code>, after: seq<Code>)
      requires Stands(pending, before) && pending != Failed(Busy) && Unconfirmed(before, after)
      ensures Stands(Prefer(pending, TerminationUnconfirmed), after)
      decreases |after|
    {
      hide Reported;
      var n := |after| - 1;
      assert after == after[..n] + [TerminationUnconfirmed];
      if n == |before| {
        StandsNext(pending, before, TerminationUnconfirmed);
      } else {
        assert after[..n][..|before|] == before;
        UnconfirmedReported(pending, before, after[..n]);
        StandsNext(Prefer(pending, TerminationUnconfirmed), after[..n], TerminationUnconfirmed);
      }
    }

    /** The first half of `_terminate_and_confirm`: kill the worker and wait for its root process. */
    method Terminated() returns (exited: bool)
      requires LedgerOf(log).worker == Live && LedgerOf(log).lock == Held && LedgerOf(log).handleOpen && Lawful()
      modifies `log
      ensures Lawful()
      ensures var l, l' := LedgerOf(old(log)), LedgerOf(log);
              l' == l.(ending := l.ending.(kills := l.ending.kills + 1, last := Awaited(exited),
                                           unconfirmed := l.ending.unconfirmed || !exited))
      ensures if exited then ProblemsOf(log) == ProblemsOf(old(log))
              else Unconfirmed(ProblemsOf(old(log)), ProblemsOf(log))
    {
      hide ProblemsOf, Sound, Obeys, LedgerOf;
      var requested := world.ok(log);
      Make(Terminate(requested));
      var answer := world.answer(log);
      Make(WaitForRoot(answer));
      if answer == Raises {
        return false;
      }
      exited := requested && answer == Yes;
    }

    /** `_terminate_and_confirm`. */
    method TerminateAndConfirm() returns (confirmed: bool)
      requires LedgerOf(log).worker == Live && LedgerOf(log).lock == Held && LedgerOf(log).handleOpen && Lawful()
      modifies `log
      ensures Lawful()
      ensures var l, l' := LedgerOf(old(log)), LedgerOf(log);
              && l' == l.(ending := l.ending.(kills := l.ending.kills + 1, last := l'.ending.last,
                                              unconfirmed := l'.ending.unconfirmed),
                          worker := if confirmed then Dead else Live)
              && (!confirmed ==> l'.ending.unconfirmed)
      ensures if confirmed then ProblemsOf(log) == ProblemsOf(old(log))
              else Unconfirmed(ProblemsOf(old(log)), ProblemsOf(log))
    {
      hide ProblemsOf, Sound, Obeys, LedgerOf;
      var exited := Terminated();
      if !exited {
        return false;
      }
      confirmed := ConfirmGone();
    }

    /** `_create_request_root`. The failures it adds are those that its exception stands for. */
    method CreateRequestRoot() returns (made: Option<Root>, raised: Option<Raised>)
      requires var l := LedgerOf(log);
               l.lock == Held && l.directory == NoDirectory && l.worker == NoWorker
               && !l.handleOpen && !l.fileOpen && l.setup.tries == 0
      requires Lawful()
      modifies `log
      ensures Lawful() && made.Some? == raised.None?
      ensures var l, l' := LedgerOf(old(log)), LedgerOf(log);
              l' == l.(directory := l'.directory, setup := l'.setup) && l'.setup.configured == l.setup.configured
              && (made.Some? ==> l'.directory == Present(made.value, 2))
              && (raised.Some? ==>
                    l'.directory.NoDirectory? || (l'.directory.Cleaned?
                                                  && l'.directory.removed == (raised != Some(RootCreationError(true)))))
      ensures raised == None ==> ProblemsOf(log) == ProblemsOf(old(log))
      ensures raised == Some(RootCreationError(true)) ==>
                ProblemsOf(log) == ProblemsOf(old(log)) + [Internal, CleanupFailed]
      ensures raised.Some? && raised != Some(RootCreationError(true)) ==>
                ProblemsOf(log) == ProblemsOf(old(log)) + [Internal]
    {
      hide ProblemsOf, Sound, Obeys, LedgerOf;
      var ok := world.ok(log);
      Make(MakeParent(ok));
      if !ok {
        return None, Some(OtherException);
      }
      for i := 0 to ROOT_TRIES
        invariant Lawful()
        invariant LedgerOf(log) == LedgerOf(old(log)).(setup := LedgerOf(old(log)).setup.(tries := i, parent := true))
        invariant ProblemsOf(log) == ProblemsOf(old(log)) + if i == ROOT_TRIES then [Internal] else []
      {
        var (candidate, creation) := world.makeRoot(log);
        Make(MakeRoot(candidate, creation));
        if creation == CreationFailed {
          return None, Some(OtherException);
        }
        if creation == NewRoot {
          raised := CreateContents(candidate);
          made := if raised == None then Some(candidate) else None;
          return;
        }
      }
      return None, Some(OtherException);
    }

    /** The `data` and `cwd` directories of a new request root, which is cleaned up if they cannot be made. */
    method CreateContents(candidate: Root) returns (raised: Option<Raised>)
      requires var l := LedgerOf(log);
               l.lock == Held && l.directory == Present(candidate, 0) && l.worker == NoWorker
               && !l.handleOpen && !l.fileOpen
      requires Lawful()
      modifies `log
      ensures Lawful()
      ensures LedgerOf(log) == LedgerOf(old(log)).(directory := if raised == None
              then Present(candidate, 2) else Cleaned(candidate, raised != Some(RootCreationError(true))))
      ensures raised == None ==> ProblemsOf(log) == ProblemsOf(old(log))
      ensures raised == Some(RootCreationError(true)) ==>
                ProblemsOf(log) == ProblemsOf(old(log)) + [Internal, CleanupFailed]
      ensures raised.Some? && raised != Some(RootCreationError(true)) ==>
                ProblemsOf(log) == ProblemsOf(old(log)) + [Internal]
    {
      hide ProblemsOf, Sound, Obeys, LedgerOf;
      var ok := world.ok(log);
      Make(MakeSub(ok));
      if ok {
        ok := world.ok(log);
        Make(MakeSub(ok));
      }
      if !ok {
        var cleaned := world.ok(log);
        Make(Cleanup(candidate, cleaned));
        return Some(RootCreationError(!cleaned));
      }
      raised := None;
    }

    /** The checks that `_read_worker_result` makes on a decoded result. */
    static method Accepts(scenario: Scenario, result: WorkerResult) returns (accepted: bool)
      ensures accepted <==> Acceptable(scenario, result)
      ensures accepted <==> Fitting(scenario, result)
    {
      hide Satisfies;
      if result.scenario != scenario.id || |result.events| > MAX_EVENTS {
        return false;
      }
      if result.terminal != scenario.expected || result.terminal != scenario.contract.required {
        return false;
      }
      accepted := Validate(scenario.contract, result.events);
      if accepted {
        ContractGivesView(scenario.contract, result.events);
        var last := result.events[|result.events| - 1];
        accepted := last.TerminalStatus? && last.status == result.terminal;
      }
    }

    /** `_read_worker_result`. The file stays open exactly when the result is accepted; otherwise it raises. */
    method ReadWorkerResult(scenario: Scenario) returns (result: Option<WorkerResult>)
      requires var l := LedgerOf(log);
               l.lock == Held && l.directory.Present? && l.worker == Dead && l.ended && l.onTime && !l.fileOpen
                 && l.scenario == Some(scenario)
      requires Lawful()
      modifies `log
      ensures Lawful()
      ensures var l, l' := LedgerOf(old(log)), LedgerOf(log); l' == l.(fileOpen := result.Some?, result := l'.result)
      ensures result.Some? ==> Acceptable(scenario, result.value) && LedgerOf(log).result == result
                               && ProblemsOf(log) == ProblemsOf(old(log))
      ensures result == None ==> ProblemsOf(log) == ProblemsOf(old(log)) + [TraceIncomplete]
    {
      hide ProblemsOf, Sound, Obeys, LedgerOf, Acceptable;
      var ok := world.ok(log);
      Make(OpenResult(ok));
      if !ok {
        return None;
      }
      result := world.read(log);
      Make(ReadResult(result));
      var accepted := false;
      if result.Some? {
        accepted := Accepts(scenario, result.value);
      }
      if !accepted {
        Make(CloseResult);
        return None;
      }
    }

    /** Nothing has been found wrong with the worker, and no attempt made to end it. */
    ghost predicate Untouched()
      reads `log
    {
      var l := LedgerOf(log);
      l.ending.kills == 0 && l.ending.last == NoKill && !l.ending.givenUp
    }

    /** The start of a worker: what the run knows when it has one and nothing has gone wrong. */
    ghost predicate Supervising(scenario: Scenario)
      reads this
    {
      && Agrees() && lockAcquired && rootCreated && hasHandle && processCreated && !terminationConfirmed && !fileOpen
      && LedgerOf(log).scenario == Some(scenario) && Untouched()
      && pending == Success(None) && ProblemsOf(log) == []
    }

    /** A successful pending result has a view, and the run has all that a view may be returned on. */
    ghost predicate Earned()
      reads this
    {
      && pending.Success? && pending.view.Some? && ViewFrom(pending.view.value, LedgerOf(log))
      && lockAcquired && rootCreated && terminationConfirmed
    }

    /** The wait for the worker: `late` if it did not end before the deadline. */
    method AwaitExit(deadline: real) returns (late: bool, raised: Option<Raised>)
      requires Lawful() && ProblemsOf(log) == []
      requires var l := LedgerOf(log);
               l.lock == Held && l.worker == Live && l.handleOpen
               && l.deadline == Some(deadline)
      modifies `log
      ensures Lawful() && (raised == None || raised == Some(OtherException))
      ensures var l, l' := LedgerOf(old(log)), LedgerOf(log);
              && l' == l.(ended := l'.ended, onTime := l'.onTime, ending := l.ending.(givenUp := l'.ending.givenUp))
              && (raised == None && !late ==> l'.ended && l'.onTime)
              && (raised.Some? ==> l'.ending.givenUp == l.ending.givenUp)
      ensures ProblemsOf(log) == if raised.Some? then [Internal] else if late then [TimedOut] else []
    {
      hide ProblemsOf, Sound, Obeys, LedgerOf;
      raised := None;
      var waited := world.wait(log);
      Make(Wait(waited));
      late := waited == StillRunning;
      if waited == WaitRaised {
        return late, Some(OtherException);
      }
      if !late {
        var now := world.clock(log);
        Make(Clock(now));
        if now == None {
          return late, Some(OtherException);
        }
        late := now.value >= deadline;
      }
    }

    /** The worker is killed for the given failure. */
    method GiveUp(reason: Code)
      requires Agrees() && lockAcquired && rootCreated && processCreated && !terminationConfirmed && !fileOpen
      requires pending == Success(None) && ProblemsOf(log) == [reason] && reason != Busy
      modifies `log, `pending, `terminationConfirmed
      ensures Agrees() && Stands(pending, ProblemsOf(log)) && pending.Failed? && pending != Failed(Busy) && Tried()
    {
      hide ProblemsOf, Sound, Obeys, LedgerOf, Reported;
      ReportedFirst(reason);
      terminationConfirmed := TerminateAndConfirm();
      if !terminationConfirmed {
        LateUnconfirmed(reason, ProblemsOf(log));
      }
      pending := Prefer(pending, if terminationConfirmed then reason else TerminationUnconfirmed);
    }

    /** The result of a worker that has ended. */
    method TakeResult(scenario: Scenario)
      requires Agrees() && lockAcquired && rootCreated && processCreated && terminationConfirmed && !fileOpen
      requires pending == Success(None) && ProblemsOf(log) == []
      requires LedgerOf(log).scenario == Some(scenario) && LedgerOf(log).ended && LedgerOf(log).onTime
      modifies `log, `pending, `fileOpen
      ensures Agrees() && Stands(pending, ProblemsOf(log)) && pending != Failed(Busy) && (pending.Failed? || Earned())
      ensures LedgerOf(log).worker == Dead
    {
      hide ProblemsOf, Sound, Obeys, LedgerOf, Reported, Satisfies;
      var result := ReadWorkerResult(scenario);
      if result == None {
        StandsNext(pending, [], TraceIncomplete);
        pending := Prefer(pending, TraceIncomplete);
        return;
      }
      fileOpen := true;
      ContractGivesView(scenario.contract, result.value.events);
      var view := FromEvents(result.value.events);
      pending := Success(view);
    }

    /** The body from the wait for the worker on. */
    method Supervise(scenario: Scenario, deadline: real) returns (raised: Option<Raised>)
      requires Supervising(scenario) && LedgerOf(log).deadline == Some(deadline)
      modifies `log, `pending, `fileOpen, `terminationConfirmed
      ensures Agrees() && lockAcquired && rootCreated && hasHandle && pending != Failed(Busy) && Tried()
      ensures raised == None ==> Stands(pending, ProblemsOf(log)) && (pending.Failed? || Earned())
      ensures raised.Some? ==> Stands(Prefer(pending, CodeOf(raised.value)), ProblemsOf(log))
    {
      hide ProblemsOf, Sound, Obeys, LedgerOf, Reported, Acceptable;
      var late;
      late, raised := AwaitExit(deadline);
      if raised.Some? {
        ReportedFirst(Internal);
        return;
      }
      if late {
        GiveUp(TimedOut);
        return;
      }
      terminationConfirmed := ConfirmGone();
      if terminationConfirmed {
        TakeResult(scenario);
      } else {
        GiveUp(LifecycleInvalid);
      }
    }

    /** When the worker's end could not be confirmed, what made the run give up on it is no longer reported. */
    static lemma LateUnconfirmed(first: Code, after: seq<Code>)
      requires first != Busy && Unconfirmed([first], after)
      ensures Stands(Failed(TerminationUnconfirmed), after)
    {
      hide Reported;
      ReportedFirst(first);
      UnconfirmedReported(Failed(first), [first], after);
    }

    /** The body of `run_scenario`. */
    method Body() returns (raised: Option<Raised>)
      requires log == [] && pending == Success(None) && root == None
      requires !hasHandle && !fileOpen && !rootCreated && !lockAcquired && !processCreated && !terminationConfirmed
      modifies this
      ensures Agrees() && (lockAcquired ==> pending != Failed(Busy)) && Tried()
      ensures raised == None ==> Stands(pending, ProblemsOf(log)) && (pending.Failed? || Earned())
      ensures raised.Some? ==> pending != Failed(Busy) && Stands(Prefer(pending, CodeOf(raised.value)), ProblemsOf(log))
    {
      hide ProblemsOf, Sound, Obeys, LedgerOf, Reported;
      raised := None;
      Nothing();
      NothingYet();
      var got := world.lock(log);
      Make(TryLock(got));
      ReportedFirst(Internal);
      ReportedFirst(Busy);
      assert [] + [Internal] == [Internal] && [] + [Busy] == [Busy];
      if got == Raises {
        return Some(OtherException);
      }
      if got == No {
        pending := Failed(Busy);
        return;
      }
      lockAcquired := true;
      raised := Begin();
    }

    /** The body from the acquisition of the lock on. */
    method Begin() returns (raised: Option<Raised>)
      requires Lawful() && ProblemsOf(log) == [] && LedgerOf(log) == START.(lock := Held)
      requires pending == Success(None) && lockAcquired
      requires !hasHandle && !fileOpen && !rootCreated && !processCreated && !terminationConfirmed
      modifies this
      ensures Agrees() && lockAcquired && pending != Failed(Busy) && Tried()
      ensures raised == None ==> Stands(pending, ProblemsOf(log)) && (pending.Failed? || Earned())
      ensures raised.Some? ==> Stands(Prefer(pending, CodeOf(raised.value)), ProblemsOf(log))
    {
      hide ProblemsOf, Sound, Obeys, LedgerOf, Reported, Acceptable;
      raised := None;
      ReportedFirst(Internal);
      assert [] + [Internal] == [Internal] && [] + [Internal, CleanupFailed] == [Internal, CleanupFailed];
      var scenario := if scenarioId in registry then Some(registry[scenarioId]) else None;
      Make(LookUp(scenario));
      if scenario == None {
        pending := Failed(Internal);
        return;
      }
      var now := world.clock(log);
      Make(Clock(now));
      if now == None {
        return Some(OtherException);
      }
      root, raised := CreateRequestRoot();
      if raised.Some? {
        CreationStands(raised.value);
        return;
      }
      rootCreated := true;
      raised := StartWorker(scenario.value, now.value + EXECUTION_SECONDS);
    }

    /** The body from the making of the request root on. */
    method StartWorker(scenario: Scenario, deadline: real) returns (raised: Option<Raised>)
      requires Agrees() && lockAcquired && rootCreated && !hasHandle && !fileOpen && pending == Success(None)
              && ProblemsOf(log) == []
      requires LedgerOf(log).scenario == Some(scenario) && LedgerOf(log).deadline == Some(deadline)
              && Untouched()
      modifies `log, `pending, `fileOpen, `hasHandle, `processCreated, `terminationConfirmed
      ensures Agrees() && lockAcquired && pending != Failed(Busy) && Tried()
      ensures raised == None ==> Stands(pending, ProblemsOf(log)) && (pending.Failed? || Earned())
      ensures raised.Some? ==> Stands(Prefer(pending, CodeOf(raised.value)), ProblemsOf(log))
    {
      hide ProblemsOf, Sound, Obeys, LedgerOf, Reported, ViewFrom;
      StandsNext(pending, [], Internal);
      var written := world.ok(log);
      Make(WriteConfig(written));
      if !written {
        return Some(OtherException);
      }
      var started := world.start(log);
      Make(Start(started));
      if started == StartRaised {
        return Some(OtherException);
      }
      hasHandle := true;
      processCreated := started.processCreated;
      if !processCreated {
        pending := Prefer(pending, Internal);
        return None;
      }
      raised := Supervise(scenario, deadline);
    }

    static lemma CreationStands(raised: Raised)
      ensures Stands(Prefer(Success(None), CodeOf(raised)), if raised == RootCreationError(true)
              then [Internal, CleanupFailed] else [Internal])
    {
      hide Reported;
      ReportedFirst(Internal);
      StandsNext(Failed(Internal), [Internal], CleanupFailed);
      assert [Internal] + [CleanupFailed] == [Internal, CleanupFailed];
    }

    lemma NothingYet()
      requires log == []
      ensures Lawful()
    {
    }

    static lemma Nothing()
      ensures LedgerOf([]) == START && ProblemsOf([]) == [] && Obeys([])
    {
    }

    /** What the `finally` block needs and keeps of the pending result. */
    ghost predicate Pends()
      reads this
    {
      && Stands(pending, ProblemsOf(log))
      && (lockAcquired ==> pending != Failed(Busy))
      && (pending.Success? ==> Earned())
    }

    /** The `finally` block up to the release of the handles: no worker is given up on without a last attempt. */
    method FinishWorker()
      requires Agrees() && Pends() && Tried()
      modifies `log, `pending, `terminationConfirmed, `fileOpen
      ensures LedgerOf(log).handleOpen == false && !fileOpen
      ensures var l := LedgerOf(log);
              && Lawful() && !l.fileOpen
              && l.directory == old(LedgerOf(log)).directory && l.lock == old(LedgerOf(log)).lock
              && (processCreated <==> l.worker in {Live, Dead})
              && (terminationConfirmed <==> l.worker == Dead)
              && (l.worker == Live ==> l.ending.unconfirmed && l.ending.kills >= if l.ending.givenUp then 2 else 1)
      ensures Pends()
      ensures processCreated && !terminationConfirmed ==> pending == Failed(TerminationUnconfirmed)
      ensures LedgerOf(log).ending.kills
              == LedgerOf(old(log)).ending.kills + if old(processCreated && !terminationConfirmed) then 1 else 0
    {
      hide ProblemsOf, Sound, Obeys, LedgerOf, Reported, Acceptable;
      if fileOpen {
        Make(CloseResult);
        fileOpen := false;
      }
      if hasHandle && processCreated && !terminationConfirmed {
        ghost var before := ProblemsOf(log);
        terminationConfirmed := TerminateAndConfirm();
        if !terminationConfirmed {
          UnconfirmedReported(pending, before, ProblemsOf(log));
          pending := Prefer(pending, TerminationUnconfirmed);
        }
      }
      if hasHandle {
        CloseWorker();
      }
    }

    /** The release of the process handles. */
    method CloseWorker()
      requires Pends() && Lawful() && lockAcquired && LedgerOf(log).lock == Held
      requires var l := LedgerOf(log);
               l.handleOpen && !l.fileOpen
               && (l.worker == Live ==> l.ending.unconfirmed && l.ending.kills >= if l.ending.givenUp then 2 else 1)
      modifies `log, `pending
      ensures Pends() && Lawful() && LedgerOf(log) == LedgerOf(old(log)).(handleOpen := false)
      ensures old(pending) == Failed(TerminationUnconfirmed) ==> pending == old(pending)
    {
      hide ProblemsOf, Sound, Obeys, LedgerOf, Reported, Acceptable;
      var closed := world.ok(log);
      StandsNext(pending, ProblemsOf(log), Internal);
      Make(CloseHandle(closed));
      if !closed {
        pending := Prefer(pending, Internal);
      }
    }

    /** The request root is removed if that is safe, and set aside otherwise. */
    method FinishDirectory()
      requires Pends() && Lawful() && lockAcquired && rootCreated && root.Some? && LedgerOf(log).lock == Held
      requires var l := LedgerOf(log);
               l.directory == Present(root.value, 2) && !l.handleOpen && !l.fileOpen
               && (processCreated <==> l.worker in {Live, Dead}) && (terminationConfirmed <==> l.worker == Dead)
                 && (l.worker == Live ==> l.ending.unconfirmed)
      requires processCreated && !terminationConfirmed ==> pending == Failed(TerminationUnconfirmed)
      modifies `log, `pending
      ensures Lawful() && Pends()
      ensures var l, l' := LedgerOf(old(log)), LedgerOf(log);
              && l' == l.(directory := l'.directory)
              && (if l.worker == Live then l'.directory.SetAside? else l'.directory.Cleaned?)
              && l'.directory.root == root.value
              && (pending.Success? ==> l'.directory == Cleaned(root.value, true))
    {
      hide ProblemsOf, Sound, Obeys, LedgerOf, Reported, Acceptable;
      var safeToCleanup := rootCreated && (!processCreated || terminationConfirmed);
      if safeToCleanup {
        var cleaned := world.ok(log);
        StandsNext(pending, ProblemsOf(log), CleanupFailed);
        Make(Cleanup(root.value, cleaned));
        if !cleaned {
          pending := Prefer(pending, CleanupFailed);
        }
      } else {
        pending := Prefer(pending, TerminationUnconfirmed);
        var isolated := world.ok(log);
        Make(Isolate(root.value, isolated));
      }
    }

    /** The `finally` block: files, worker, handles, directory and lock, in that order. */
    method Finish()
      requires Agrees() && Pends() && Tried()
      modifies `log, `pending, `terminationConfirmed, `fileOpen
      ensures Lawful() && Settled(LedgerOf(log))
      ensures Stands(pending, ProblemsOf(log))
      ensures pending.Success? ==> pending.view.Some? && ViewFrom(pending.view.value, LedgerOf(log))
      ensures pending.Success? ==>
                LedgerOf(log).worker == Dead && LedgerOf(log).directory.Cleaned? && LedgerOf(log).directory.removed
    {
      hide ProblemsOf, Sound, Obeys, LedgerOf, Stands, Acceptable;
      FinishWorker();
      if root.Some? && rootCreated {
        FinishDirectory();
      }
      if lockAcquired {
        Make(Release);
      }
    }
  }

  /** What `run_scenario` does in the end: it returns a view or raises an error with a code. */
  datatype Outcome = Returned(view: View) | RaisedError(code: Code)

  /** A world in which every call succeeds, the worker writes this result, and the clock stays within 60 seconds. */
  ghost predicate Faultless(world: World, r: WorkerResult) {
    && (forall calls :: world.lock(calls) == Yes && world.ok(calls) && world.answer(calls) == Yes)
    && (forall calls :: world.makeRoot(calls).1 == NewRoot && world.start(calls) == Handle(true))
    && (forall calls :: world.wait(calls).Exited? && world.read(calls) == Some(r) && world.clock(calls).Some?)
    && (forall early, late :: world.clock(late).Some? && world.clock(early).Some? ==>
          world.clock(late).value < world.clock(early).value + 60.0)
  }

  /** The calls of one run in a world without faults, when the scenario is registered. */
  ghost predicate Smooth(world: World, registry: map<string, Scenario>, id: string, r: WorkerResult, calls: seq<Call>) {
    && Obeys(calls) && Truthful(world, registry, id, calls)
    && id in registry && Faultless(world, r) && Fitting(registry[id], r)
  }

  /** The scenario, once looked up, is this one, and it has been looked up before a worker is started. */
  predicate Knows(l: Ledger, s: Scenario) {
    l.scenario in {None, Some(s)} && (l.worker != NoWorker ==> l.scenario.Some?)
  }

  lemma KnowsNext(l: Ledger, c: Call, s: Scenario)
    requires Knows(l, s) && Safe(l, c) && (c.LookUp? ==> c.scenario == Some(s))
    ensures Knows(Advance(l, c), s)
  {
  }

  lemma {:induction false} ScenarioKnown(world: World, registry: map<string, Scenario>, id: string, calls: seq<Call>)
    requires Obeys(calls) && Truthful(world, registry, id, calls) && id in registry
    ensures Knows(LedgerOf(calls), registry[id])
    decreases |calls|
  {
    hide Knows, Safe, Advance;
    if calls == [] {
      assert Knows(START, registry[id]) by { KnowsNothing(registry[id]); }
    } else {
      var front, n := calls[..|calls| - 1], |calls| - 1;
      TruthfulPrefix(world, registry, id, calls, n);
      ScenarioKnown(world, registry, id, front);
      assert TrueCall(world, registry, id, calls[..n], calls[n]);
      KnowsNext(LedgerOf(front), calls[n], registry[id]);
    }
  }

  lemma KnowsNothing(s: Scenario)
    ensures Knows(START, s)
  {
  }

  lemma TruthfulPrefix(world: World, registry: map<string, Scenario>, id: string, calls: seq<Call>, n: nat)
    requires Truthful(world, registry, id, calls) && n <= |calls|
    ensures Truthful(world, registry, id, calls[..n])
  {
    hide TrueCall;
    assert forall i :: 0 <= i < n ==> calls[..n][i] == calls[i] && calls[..n][..i] == calls[..i];
  }

  /** The clock is never read too late. */
  lemma InTime(world: World, registry: map<string, Scenario>, id: string, r: WorkerResult, calls: seq<Call>, i: nat)
    requires Smooth(world, registry, id, r, calls) && i < |calls|
    ensures !TooLate(calls[..i], calls[i])
  {
    hide Obeys, Fitting, ProcessStarted, EndConfirmed;
    var before := calls[..i];
    assert TrueCall(world, registry, id, before, calls[i]);
    forall j, t | 0 <= j < i && before[j] == Clock(Some(t)) && calls[i].Clock? && calls[i].now.Some?
      ensures calls[i].now.value < t + 60.0
    {
      assert TrueCall(world, registry, id, calls[..j], calls[j]);
    }
  }

  /** The result that is read fits the scenario that was looked up. */
  lemma FitsScenario(world: World, registry: map<string, Scenario>, id: string, r: WorkerResult, calls: seq<Call>,
                     i: nat)
    requires Smooth(world, registry, id, r, calls) && i < |calls| && calls[i].ReadResult?
    ensures calls[i].result == Some(r)
    ensures LookedUp(calls[..i], Some(registry[id])) && Fitting(registry[id], r)
  {
    hide Fitting, LookedUp, ProcessStarted;
    var before := calls[..i];
    assert TrueCall(world, registry, id, before, calls[i]);
    TruthfulPrefix(world, registry, id, calls, i);
    ObeysPrefix(calls, i + 1);
    assert calls[..i + 1][..i] == before;
    assert Obeys(before) && Safe(LedgerOf(before), calls[i]);
    ScenarioKnown(world, registry, id, before);
    AlwaysConsistent(before);
    AlwaysTold(before);
  }

  lemma NoCallFails(world: World, registry: map<string, Scenario>, id: string, r: WorkerResult, calls: seq<Call>,
                    i: nat, code: Code)
    requires Smooth(world, registry, id, r, calls) && i < |calls|
    ensures !FailsAt(calls, i, code)
  {
    hide Obeys, Fitting, TooLate, LookedUp, Killed, RootsTried;
    assert TrueCall(world, registry, id, calls[..i], calls[i]);
    InTime(world, registry, id, r, calls, i);
    if calls[i].ReadResult? {
      FitsScenario(world, registry, id, r, calls, i);
    }
  }

  lemma {:induction false} OnlyResult(world: World, registry: map<string, Scenario>, id: string, r: WorkerResult,
                                      calls: seq<Call>)
    requires Truthful(world, registry, id, calls) && Faultless(world, r)
    ensures LedgerOf(calls).result in {None, Some(r)}
    decreases |calls|
  {
    if calls != [] {
      var n := |calls| - 1;
      TruthfulPrefix(world, registry, id, calls, n);
      OnlyResult(world, registry, id, r, calls[..n]);
      assert TrueCall(world, registry, id, calls[..n], calls[n]);
    }
  }

  /** In a world without faults no call fails, and no other result is read. */
  lemma NothingFails(world: World, registry: map<string, Scenario>, id: string, r: WorkerResult, calls: seq<Call>)
    requires Smooth(world, registry, id, r, calls)
    ensures ProblemsOf(calls) == [] && LedgerOf(calls).result in {None, Some(r)}
  {
    hide FailsAt, Fitting, LedgerOf, ProblemsOf, Obeys, Truthful, Faultless;
    forall code ensures !SomeFails(calls, code) {
      forall i | 0 <= i < |calls| ensures !FailsAt(calls, i, code) {
        NoCallFails(world, registry, id, r, calls, i, code);
      }
    }
    NoFailureExactly(calls);
    OnlyResult(world, registry, id, r, calls);
  }

  class DemoRunService {
    const registry: map<string, Scenario>

    constructor (registry: map<string, Scenario>)
      ensures this.registry == registry
    {
      this.registry := registry;
    }

    /**
     * `run_scenario`, in any world. Every call is safe where it is made, and nothing is left held, open or in place.
     * The failure reported is the first of the gravest; and a view is returned exactly when nothing failed, from a
     * result that the service accepts, after the worker's end was confirmed and the directory removed.
     */
    method RunScenario(world: World, scenarioId: string) returns (outcome: Outcome, calls: seq<Call>)
      ensures Obeys(calls) && Settled(LedgerOf(calls)) && Truthful(world, registry, scenarioId, calls)
      ensures outcome.Returned? <==> ProblemsOf(calls) == []
      ensures outcome.Returned? <==> forall code :: !SomeFails(calls, code)
      ensures outcome.RaisedError? ==> Reported(ProblemsOf(calls), outcome.code)
      ensures outcome.Returned? ==>
                var l := LedgerOf(calls);
                ViewFrom(outcome.view, l) && l.worker == Dead && l.directory.Cleaned? && l.directory.removed
      ensures forall r :: scenarioId in registry && Faultless(world, r) && Fitting(registry[scenarioId], r) ==>
                            outcome == Returned(View(r.events, r.terminal))
    {
      hide Faultless, Fitting, SomeFails, ProblemsOf, Truthful, Obeys, LedgerOf, Reported, Acceptable, Settled;
      var run := new DemoRun(world, registry, scenarioId);
      var raised := run.Body();
      if raised.Some? {
        run.pending := Prefer(run.pending, CodeOf(raised.value));
      }
      run.Finish();
      calls := run.log;
      NoReportOfNothing();
      NoFailureExactly(calls);
      forall r | scenarioId in registry && Faultless(world, r) && Fitting(registry[scenarioId], r)
        ensures ProblemsOf(calls) == [] && LedgerOf(calls).result in {None, Some(r)}
      {
        NothingFails(world, registry, scenarioId, r, calls);
      }
      if run.pending.Failed? {
        outcome := RaisedError(run.pending.code);
        return;
      }
      if run.pending.view == None {
        outcome := RaisedError(Internal);
        return;
      }
      outcome := Returned(run.pending.view.value);
    }

    static lemma NoReportOfNothing()
      ensures forall code :: !Reported([], code)
    {
    }
  }
}
