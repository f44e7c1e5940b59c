/** What many runs do to one another when their calls are interleaved. */
module RunInterleaving {
  import opened Base
  import opened RunProtocol
  import opened RunSafety

  type Caller = nat

  datatype Act = Act(caller: Caller, call: Call)

  /** The calls of one caller among those of all. */
  function CallsOf(trace: seq<Act>, caller: Caller): seq<Call> {
    if trace == [] then []
    else CallsOf(trace[..|trace| - 1], caller) + if trace[|trace| - 1].caller == caller
      then [trace[|trace| - 1].call] else []
  }

  /** The state of one caller's run. */
  function StateOf(trace: seq<Act>, caller: Caller): Ledger {
    LedgerOf(CallsOf(trace, caller))
  }

  /** Who holds the lock: acquisition gives it to a caller, and any release frees it. */
  function Holder(trace: seq<Act>): Option<Caller> {
    if trace == [] then None
    else
      var last := trace[|trace| - 1];
      if last.call == TryLock(Yes) then Some(last.caller)
      else if last.call == Release then None
      else Holder(trace[..|trace| - 1])
  }

  /**
   * Act `i` is one that its caller's run may make, that the lock grants only if it is free, and that makes only new
   * directories.
   */
  ghost predicate LawfulAt(trace: seq<Act>, i: nat)
    requires i < |trace|
  {
    var before, act := trace[..i], trace[i];
    && Safe(StateOf(before, act.caller), act.call)
    && (act.call == TryLock(Yes) ==> Holder(before) == None)
    && (act.call.MakeRoot? && act.call.creation == NewRoot ==>
        forall j :: 0 <= j < i ==> !Made(trace[j], act.call.root))
  }

  predicate Made(act: Act, root: Root) {
    act.call.MakeRoot? && act.call.creation == NewRoot && act.call.root == root
  }

  /** Any number of callers, each making the calls of its own run, in any interleaving. */
  ghost predicate Lawful(trace: seq<Act>) {
    forall i :: 0 <= i < |trace| ==> LawfulAt(trace, i)
  }

  lemma LawfulFront(trace: seq<Act>, n: nat)
    requires Lawful(trace) && n <= |trace|
    ensures Lawful(trace[..n])
  {
    forall i | 0 <= i < n ensures LawfulAt(trace[..n], i) {
      assert LawfulAt(trace, i);
      assert trace[..n][..i] == trace[..i];
      assert forall j :: 0 <= j < i ==> trace[..n][j] == trace[j];
    }
  }

  /** An act changes the state of its own caller only. */
  lemma OneMoreAct(trace: seq<Act>, act: Act, caller: Caller)
    ensures StateOf(trace + [act], caller) == if act.caller == caller
            then Advance(StateOf(trace, caller), act.call) else StateOf(trace, caller)
    ensures act.caller != caller ==> CallsOf(trace + [act], caller) == CallsOf(trace, caller)
    ensures act.caller == caller ==> CallsOf(trace + [act], caller) == CallsOf(trace, caller) + [act.call]
  {
    hide Advance, LedgerOf;
    assert (trace + [act])[..|trace|] == trace;
    if act.caller == caller {
      OneMoreCall(CallsOf(trace, caller), act.call);
    } else {
      assert CallsOf(trace, caller) + [] == CallsOf(trace, caller);
    }
  }

  // ---------------------------------------------------------------- interleaved runs

  /** Calls that a run has made so far: the beginning of what `RunScenario` makes of them in the end. */
  ghost predicate PartOfRun(calls: seq<Call>) {
    exists whole: seq<Call> :: calls <= whole && Obeys(whole) && Settled(LedgerOf(whole))
  }

  /**
   * Any number of callers at any point of their runs, their calls interleaved in any way, where the lock is granted
   * only if it is free, and a directory that is made is a new one.
   */
  ghost predicate Interleaved(trace: seq<Act>) {
    && (forall caller: Caller :: PartOfRun(CallsOf(trace, caller)))
    && (forall i :: 0 <= i < |trace| && trace[i].call == TryLock(Yes) ==> Holder(trace[..i]) == None)
    && (forall i, j :: 0 <= j < i < |trace| && NewRootMade(trace[i].call) ==> !Made(trace[j], trace[i].call.root))
  }

  predicate NewRootMade(call: Call) {
    call.MakeRoot? && call.creation == NewRoot
  }

  lemma {:induction false} CallsGrow(trace: seq<Act>, n: nat, caller: Caller)
    requires n <= |trace|
    ensures CallsOf(trace[..n], caller) <= CallsOf(trace, caller)
    decreases |trace|
  {
    if n == |trace| {
      assert trace[..n] == trace;
    } else {
      assert trace[..|trace| - 1][..n] == trace[..n];
      CallsGrow(trace[..|trace| - 1], n, caller);
    }
  }

  lemma PartObeys(calls: seq<Call>, n: nat)
    requires PartOfRun(calls) && n <= |calls|
    ensures Obeys(calls[..n])
  {
    hide Obeys, LedgerOf, Settled;
    var whole: seq<Call> :| calls <= whole && Obeys(whole) && Settled(LedgerOf(whole));
    ObeysPrefix(whole, n);
    assert whole[..n] == calls[..n];
  }

  lemma ObeysLast(calls: seq<Call>, c: Call)
    requires Obeys(calls + [c])
    ensures Safe(LedgerOf(calls), c)
  {
    hide Safe, LedgerOf;
    assert (calls + [c])[..|calls|] == calls;
  }

  /** Interleaved runs are lawful: each act is safe in the state that its caller's own calls have led to. */
  lemma InterleavedIsLawful(trace: seq<Act>)
    requires Interleaved(trace)
    ensures Lawful(trace)
  {
    hide Safe, Obeys, LedgerOf, CallsOf, PartOfRun, Holder;
    forall i | 0 <= i < |trace| ensures LawfulAt(trace, i) {
      var before, act := trace[..i], trace[i];
      assert trace[..i + 1] == before + [act];
      OneMoreAct(before, act, act.caller);
      CallsGrow(trace, i + 1, act.caller);
      var calls := CallsOf(before, act.caller) + [act.call];
      PartObeys(CallsOf(trace, act.caller), |calls|);
      assert CallsOf(trace, act.caller)[..|calls|] == calls;
      ObeysLast(CallsOf(before, act.caller), act.call);
      assert NewRootMade(act.call) ==> forall j :: 0 <= j < i ==> !Made(trace[j], act.call.root);
    }
  }

  /** At every point the lock is held by the one caller whose run has acquired and not released it, if there is one. */
  lemma {:induction false} HolderHolds(trace: seq<Act>, caller: Caller)
    requires Lawful(trace)
    ensures StateOf(trace, caller).lock == Held <==> Holder(trace) == Some(caller)
    decreases |trace|
  {
    hide Safe, Advance, StateOf, Lawful;
    if trace == [] {
      NoActs(caller);
    } else {
      var front, act := trace[..|trace| - 1], trace[|trace| - 1];
      LawfulFront(trace, |front|);
      HolderHolds(front, caller);
      HolderHolds(front, act.caller);
      LastAct(trace);
      assert front + [act] == trace;
      OneMoreAct(front, act, caller);
      LockStep(StateOf(front, act.caller), act.call);
    }
  }

  lemma NoActs(caller: Caller)
    ensures StateOf([], caller) == START
  {
    assert CallsOf([], caller) == [];
  }

  lemma LastAct(trace: seq<Act>)
    requires Lawful(trace) && trace != []
    ensures LawfulAt(trace, |trace| - 1)
  {
  }

  /** At most one run is between its acquisition and its release of the lock. */
  lemma MutualExclusion(trace: seq<Act>, a: Caller, b: Caller)
    requires Interleaved(trace) && StateOf(trace, a).lock == Held && StateOf(trace, b).lock == Held
    ensures a == b
  {
    hide StateOf, Lawful, Interleaved;
    InterleavedIsLawful(trace);
    HolderHolds(trace, a);
    HolderHolds(trace, b);
  }

  /**
   * While a caller holds the lock, all that others can do is fail to get it: they make no directory, start, end or wait
   * for no worker, and remove nothing.
   */
  lemma OthersOnlyTry(trace: seq<Act>, k: nat, caller: Caller)
    requires Interleaved(trace) && k < |trace| && Holder(trace[..k]) == Some(caller) && trace[k].caller != caller
    ensures trace[k].call == TryLock(No) || trace[k].call == TryLock(Raises)
  {
    hide StateOf, Lawful, Safe, Holder, Interleaved;
    InterleavedIsLawful(trace);
    LawfulFront(trace, k);
    HolderHolds(trace[..k], trace[k].caller);
    assert LawfulAt(trace, k) by { LawfulHere(trace, k); }
    LockStep(StateOf(trace[..k], trace[k].caller), trace[k].call);
  }

  lemma LawfulHere(trace: seq<Act>, k: nat)
    requires Lawful(trace) && k < |trace|
    ensures LawfulAt(trace, k)
  {
  }

  /** A directory that a run has was made by that run. */
  ghost predicate MadeBy(trace: seq<Act>, caller: Caller, root: Root) {
    exists j :: 0 <= j < |trace| && trace[j].caller == caller && Made(trace[j], root)
  }

  predicate HasRoot(l: Ledger, root: Root) {
    !l.directory.NoDirectory? && l.directory.root == root
  }

  lemma RootStep(l: Ledger, c: Call, root: Root)
    requires Safe(l, c) && HasRoot(Advance(l, c), root)
    ensures HasRoot(l, root) || (c.MakeRoot? && c.creation == NewRoot && c.root == root)
  {
  }

  lemma {:induction false} RootsAreOwn(trace: seq<Act>, caller: Caller, root: Root)
    requires Lawful(trace) && HasRoot(StateOf(trace, caller), root)
    ensures MadeBy(trace, caller, root)
    decreases |trace|
  {
    hide Safe, Advance, StateOf, Lawful, HasRoot;
    if trace == [] {
      NoActs(caller);
      NoRootAtStart(root);
    } else {
      var front, act := trace[..|trace| - 1], trace[|trace| - 1];
      LawfulFront(trace, |front|);
      LastAct(trace);
      assert front + [act] == trace;
      OneMoreAct(front, act, caller);
      if act.caller == caller {
        RootStep(StateOf(front, caller), act.call, root);
      }
      if HasRoot(StateOf(front, caller), root) {
        RootsAreOwn(front, caller, root);
        var j :| 0 <= j < |front| && front[j].caller == caller && Made(front[j], root);
        assert trace[j] == front[j];
      } else {
        assert Made(trace[|front|], root);
      }
    }
  }

  lemma NoRootAtStart(root: Root)
    ensures !HasRoot(START, root)
  {
  }

  lemma OneOwner(trace: seq<Act>, a: Caller, b: Caller, root: Root)
    requires Lawful(trace) && MadeBy(trace, a, root) && MadeBy(trace, b, root)
    ensures a == b
  {
    hide Safe, StateOf;
    var i :| 0 <= i < |trace| && trace[i].caller == a && Made(trace[i], root);
    var j :| 0 <= j < |trace| && trace[j].caller == b && Made(trace[j], root);
    LawfulHere(trace, i);
    LawfulHere(trace, j);
  }

  /** Whenever a run removes a directory, no run has a worker there whose end is not confirmed. */
  lemma NoLiveRootRemoved(trace: seq<Act>, k: nat, caller: Caller)
    requires Interleaved(trace) && k < |trace| && trace[k].call.Cleanup?
    ensures HasRoot(StateOf(trace[..k], caller), trace[k].call.root) ==> StateOf(trace[..k], caller).worker != Live
  {
    hide StateOf, Lawful, Interleaved;
    InterleavedIsLawful(trace);
    LawfulFront(trace, k);
    LawfulHere(trace, k);
    var owner, root := trace[k].caller, trace[k].call.root;
    RootsAreOwn(trace[..k], owner, root);
    if HasRoot(StateOf(trace[..k], caller), root) {
      RootsAreOwn(trace[..k], caller, root);
      OneOwner(trace[..k], owner, caller, root);
    }
  }
}
