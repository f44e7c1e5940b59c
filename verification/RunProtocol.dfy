/**
 * One demo run as the outside world sees it: the calls it makes on the lock, the clock, the directories and the worker,
 * what each call means for the state of the run, which calls are safe in which state, and which failure each call
 * stands for.
 */
module RunProtocol {
  import opened Base
  import opened Harness
  import opened Trace
  import opened TraceContract

  type Root = nat

  datatype Tri = Yes | No | Raises

  datatype Creation = NewRoot | AlreadyExists | CreationFailed

  datatype Started = StartRaised | Handle(processCreated: bool)

  datatype Waited = WaitRaised | StillRunning | Exited(code: int)

  datatype Scenario = Scenario(id: string, expected: TaskStatus, contract: Contract)

  datatype WorkerResult = WorkerResult(scenario: string, events: seq<Event>, terminal: TaskStatus)

  datatype Call =
    | TryLock(got: Tri)
    | LookUp(scenario: Option<Scenario>)
    | Clock(now: Option<real>)
    | MakeParent(ok: bool)
    | MakeRoot(root: Root, creation: Creation)
    | MakeSub(ok: bool)
    | WriteConfig(ok: bool)
    | Start(started: Started)
    | Wait(waited: Waited)
    | Terminate(ok: bool)
    | WaitForRoot(exited: Tri)
    | Confirm(gone: Tri)
    | OpenResult(ok: bool)
    | ReadResult(result: Option<WorkerResult>)
    | CloseResult
    | CloseHandle(ok: bool)
    | Cleanup(root: Root, ok: bool)
    | Isolate(root: Root, ok: bool)
    | Release

  // ---------------------------------------------------------------- the state a run is in

  datatype Lock = Untried | Refused | Held | Released

  /**
   * A request root, until its removal or its isolation has been attempted; `removed` and `moved` say with what
   * success.
   */
  datatype Directory =
    | NoDirectory
    | Present(root: Root, subs: nat)
    | Cleaned(root: Root, removed: bool)
    | SetAside(root: Root, moved: bool)

  /** `Idle` is a handle without a process; `Live` a process not confirmed to have ended, `Dead` a confirmed one. */
  datatype Worker = NoWorker | Idle | Live | Dead

  /** How far the last attempt to end the worker has come: asked for, and then waited for, with what success. */
  datatype Kill = NoKill | Requested(ok: bool) | Awaited(exited: bool)

  /** What has been set up besides the request root itself. */
  datatype Setup = Setup(parent: bool, tries: nat, configured: bool)

  /**
   * The attempts to end the worker: how many, how far the last has come, and whether one failed; and whether the worker
   * was found late, or its end could not be confirmed before there was any.
   */
  datatype Ending = Ending(kills: nat, last: Kill, unconfirmed: bool, givenUp: bool)

  /**
   * What the calls so far mean. `ended` and `onTime` say that the worker ended by itself and that the clock, read after
   * that, was still before the deadline.
   */
  datatype Ledger = Ledger(
    lock: Lock,
    scenario: Option<Scenario>,
    deadline: Option<real>,
    setup: Setup,
    directory: Directory,
    worker: Worker,
    handleOpen: bool,
    ended: bool,
    onTime: bool,
    ending: Ending,
    fileOpen: bool,
    result: Option<WorkerResult>)

  const START := Ledger(Untried, None, None, Setup(false, 0, false), NoDirectory, NoWorker, false, false, false,
    Ending(0, NoKill, false, false), false, None)

  const EXECUTION_SECONDS := 60.0
  const ROOT_TRIES := 16
  const MAX_EVENTS := 64

  function Advance(l: Ledger, c: Call): Ledger {
    match c
    case TryLock(got) => l.(lock := if got == Yes then Held else Refused)
    case LookUp(scenario) => l.(scenario := scenario)
    case Clock(now) =>
      if now == None then l
      else if l.deadline == None then l.(deadline := Some(now.value + EXECUTION_SECONDS))
      else
        l.(onTime := l.ended && now.value < l.deadline.value,
           ending := l.ending.(givenUp := l.ending.givenUp || (l.worker == Live && now.value >= l.deadline.value)))
    case MakeParent(ok) => l.(setup := l.setup.(parent := ok))
    case MakeRoot(root, creation) =>
      l.(setup := l.setup.(tries := l.setup.tries + 1),
         directory := if creation == NewRoot then Present(root, 0) else l.directory)
    case MakeSub(ok) => if ok && l.directory.Present? then l.(directory := Present(l.directory.root,
      l.directory.subs + 1)) else l
    case WriteConfig(ok) => l.(setup := l.setup.(configured := ok))
    case Start(Handle(created)) => l.(worker := if created then Live else Idle, handleOpen := true)
    case Wait(waited) =>
      l.(ended := waited.Exited?, ending := l.ending.(givenUp := l.ending.givenUp || waited == StillRunning))
    case Terminate(ok) =>
      l.(ending := l.ending.(kills := l.ending.kills + 1, last := Requested(ok),
                             unconfirmed := l.ending.unconfirmed || !ok))
    case WaitForRoot(exited) =>
      l.(ending := l.ending.(last := Awaited(l.ending.last == Requested(true) && exited == Yes),
                             unconfirmed := l.ending.unconfirmed || exited != Yes))
    case Confirm(gone) =>
      if gone == Yes then l.(worker := Dead)
      else
        l.(ending := l.ending.(unconfirmed := l.ending.unconfirmed || l.ending.kills > 0,
                               givenUp := l.ending.givenUp || l.ending.kills == 0))
    case OpenResult(ok) => l.(fileOpen := ok)
    case ReadResult(result) => l.(result := result)
    case CloseResult => l.(fileOpen := false)
    case CloseHandle(_) => l.(handleOpen := false)
    case Cleanup(root, ok) => l.(directory := Cleaned(root, ok))
    case Isolate(root, ok) => l.(directory := SetAside(root, ok))
    case Release => l.(lock := Released)
    case _ => l
  }

  function LedgerOf(calls: seq<Call>): Ledger {
    if calls == [] then START else Advance(LedgerOf(calls[..|calls| - 1]), calls[|calls| - 1])
  }

  /** The safety rule: which calls a run may make in which state. */
  predicate Safe(l: Ledger, c: Call) {
    if c.TryLock? then l == START
    else
      l.lock == Held && (l.ending.last.Requested? ==> c.WaitForRoot?)
      && match c
         case Clock(_) => l.worker == Live ==> l.handleOpen
         case MakeRoot(_, _) => l.setup.parent && l.directory == NoDirectory && l.worker == NoWorker
         case MakeSub(_) => l.directory.Present? && l.directory.subs < 2 && l.worker == NoWorker
         case WriteConfig(_) => l.directory.Present? && l.directory.subs == 2 && l.worker == NoWorker
         case Start(_) =>
           l.directory.Present? && l.directory.subs == 2 && l.setup.configured && l.worker == NoWorker
             && l.scenario.Some? && l.deadline.Some?
         case Wait(_) => l.worker == Live && l.handleOpen
         case Terminate(_) => l.worker == Live && l.handleOpen
         case WaitForRoot(_) => l.worker == Live && l.handleOpen && l.ending.last.Requested?
         case Confirm(_) =>
           l.worker == Live && l.handleOpen
             && (l.ending.last == Awaited(true) || (l.ending.last == NoKill && l.ended && l.onTime))
         case OpenResult(_) => l.directory.Present? && l.worker == Dead && l.ended && l.onTime && !l.fileOpen
         case ReadResult(_) => l.fileOpen
         case CloseResult => l.fileOpen
         case CloseHandle(_) =>
           l.handleOpen && !l.fileOpen
             && (l.worker == Live ==> l.ending.unconfirmed && l.ending.kills >= if l.ending.givenUp then 2 else 1)
         case Cleanup(root, _) => l.directory.Present? && l.directory.root == root && l.worker != Live && !l.handleOpen
           && !l.fileOpen
         case Isolate(root, _) => l.directory.Present? && l.directory.root == root && l.worker == Live
           && l.ending.unconfirmed && !l.handleOpen && !l.fileOpen
         case Release => !l.directory.Present? && !l.handleOpen && !l.fileOpen
         case _ => true
  }

  predicate Obeys(calls: seq<Call>) {
    calls == [] || (Obeys(calls[..|calls| - 1]) && Safe(LedgerOf(calls[..|calls| - 1]), calls[|calls| - 1]))
  }

  /**
   * Nothing is left held or open, and a request root only where its removal or its isolation was attempted and failed.
   */
  predicate Settled(l: Ledger) {
    l.lock in {Refused, Released} && !l.directory.Present? && !l.handleOpen && !l.fileOpen
  }

  // ---------------------------------------------------------------- failures

  datatype Code =
    Busy | TimedOut | TraceIncomplete | LifecycleInvalid | TerminationUnconfirmed | CleanupFailed | Internal

  /** `_ERROR_RANK`, which has no rank for `busy`. */
  function Rank(c: Code): nat
    requires c != Busy
  {
    if c == TerminationUnconfirmed then 0 else if c == CleanupFailed then 1 else 2
  }

  /** A worker result that the service accepts for a scenario. */
  predicate Acceptable(s: Scenario, r: WorkerResult) {
    && r.scenario == s.id
    && |r.events| <= MAX_EVENTS
    && r.terminal == s.expected
    && r.terminal == s.contract.required
    && Satisfies(s.contract, r.events)
  }

  /** The failure that a call stands for, if it is one. */
  function Problem(l: Ledger, c: Call): Option<Code> {
    match c
    case TryLock(got) => if got == No then Some(Busy) else if got == Raises then Some(Internal) else None
    case LookUp(scenario) => if scenario == None then Some(Internal) else None
    case Clock(now) =>
      if now == None then Some(Internal)
      else if l.worker == Live && l.deadline.Some? && now.value >= l.deadline.value then Some(TimedOut)
      else None
    case MakeRoot(_, creation) =>
      if creation == CreationFailed || (creation == AlreadyExists && l.setup.tries == ROOT_TRIES - 1)
        then Some(Internal) else None
    case MakeParent(ok) => if ok then None else Some(Internal)
    case MakeSub(ok) => if ok then None else Some(Internal)
    case WriteConfig(ok) => if ok then None else Some(Internal)
    case Start(started) => if started == Handle(true) then None else Some(Internal)
    case Wait(waited) => if waited == WaitRaised then Some(Internal) else if waited == StillRunning
      then Some(TimedOut) else None
    case Terminate(ok) => if ok then None else Some(TerminationUnconfirmed)
    case WaitForRoot(exited) => if exited == Yes then None else Some(TerminationUnconfirmed)
    case Confirm(gone) => if gone == Yes then None else if l.ending.kills > 0
      then Some(TerminationUnconfirmed) else Some(LifecycleInvalid)
    case OpenResult(ok) => if ok then None else Some(TraceIncomplete)
    case ReadResult(result) =>
      if l.scenario.Some? && result.Some? && Acceptable(l.scenario.value, result.value)
        then None else Some(TraceIncomplete)
    case CloseHandle(ok) => if ok then None else Some(Internal)
    case Cleanup(_, ok) => if ok then None else Some(CleanupFailed)
    case _ => None
  }

  function ProblemsOf(calls: seq<Call>): seq<Code> {
    if calls == [] then []
    else
      var front := calls[..|calls| - 1];
      ProblemsOf(front) + match Problem(LedgerOf(front), calls[|calls| - 1]) case None => [] case Some(code) => [code]
  }

  /** Which of two failures is reported: the later one only if it ranks lower. */
  function Graver(current: Code, candidate: Code): Code
    requires current != Busy && candidate != Busy
  {
    if Rank(candidate) < Rank(current) then candidate else current
  }

  /** The failure reported after these, in order. */
  ghost predicate Reported(problems: seq<Code>, code: Code) {
    exists i :: 0 <= i < |problems| && FirstGravest(problems, i) && problems[i] == code
  }

  /** Position `i` holds the first failure of least rank; a refused lock is the only failure of its run. */
  predicate FirstGravest(problems: seq<Code>, i: nat)
    requires i < |problems|
  {
    if problems[i] == Busy then |problems| == 1
    else
      && (forall j :: 0 <= j < |problems| ==> problems[j] != Busy)
      && (forall j :: 0 <= j < i ==> Rank(problems[j]) > Rank(problems[i]))
      && (forall j :: i <= j < |problems| ==> Rank(problems[j]) >= Rank(problems[i]))
  }

  lemma ReportedFirst(code: Code)
    ensures Reported([code], code)
  {
    assert FirstGravest([code], 0);
  }

  lemma ReportedNext(problems: seq<Code>, current: Code, candidate: Code)
    requires Reported(problems, current) && current != Busy && candidate != Busy
    ensures Reported(problems + [candidate], Graver(current, candidate))
  {
    var all := problems + [candidate];
    var i :| 0 <= i < |problems| && FirstGravest(problems, i) && problems[i] == current;
    assert forall j :: 0 <= j < |problems| ==> all[j] == problems[j];
    if Rank(candidate) < Rank(current) {
      assert FirstGravest(all, |problems|);
    } else {
      assert FirstGravest(all, i);
    }
  }
}
