/** What holds over any sequence of operations on a state store. */
module StateStoreRuns {
  import opened Base
  import opened StateStore
  import Harness

  /** An operation with its reply, and the time of its transaction: a clock it has read was read no later than that. */
  datatype Event = Event(op: Op, reply: Reply, at: real)

  /** The states a store goes through, and the operations and replies between them. */
  datatype Run = Run(states: seq<Tables>, events: seq<Event>)

  ghost predicate StepAt(run: Run, i: nat)
    requires |run.states| == |run.events| + 1 && i < |run.events|
  {
    Step(run.states[i], run.events[i].op, run.events[i].reply, run.states[i + 1])
  }

  ghost predicate Valid(run: Run) {
    && |run.states| == |run.events| + 1
    && run.states[0] == EMPTY
    && forall i :: 0 <= i < |run.events| ==> StepAt(run, i)
  }

  // ---------------------------------------------------------------- approvals and intents

  predicate ConsumedNow(e: Event, key: Key) {
    e.op.ConsumeApproval? && e.op.key == key && e.reply == Done(true)
  }

  /** The event inserts the intent of this key. */
  predicate Intends(e: Event, key: Key) {
    ConsumedNow(e, key) || (e.op.LogIntent? && e.op.key == key && e.reply == Done(true))
  }

  function Intentions(events: seq<Event>, key: Key): nat {
    if events == [] then 0
    else Intentions(events[..|events| - 1], key) + if Intends(events[|events| - 1], key) then 1 else 0
  }

  lemma StepIntents(t: Tables, e: Event, t': Tables, key: Key)
    requires Step(t, e.op, e.reply, t')
    ensures Intends(e, key) ==> key !in t.intents && key in t'.intents
    ensures !Intends(e, key) ==> (key in t'.intents <==> key in t.intents)
  {
    hide Active, Takeable;
  }

  /**
   * In every run there is at most one insertion of a key's intent, and the intent is there exactly if there was one.
   */
  lemma {:induction false} OneIntentEver(run: Run, n: nat, key: Key)
    requires Valid(run) && n <= |run.events|
    ensures Intentions(run.events[..n], key) == if key in run.states[n].intents then 1 else 0
    decreases n
  {
    hide Step, Intends;
    if n > 0 {
      OneIntentEver(run, n - 1, key);
      assert StepAt(run, n - 1);
      StepIntents(run.states[n - 1], run.events[n - 1], run.states[n], key);
      assert run.events[..n][..n - 1] == run.events[..n - 1];
    }
  }

  lemma {:induction false} IntentsGrow(run: Run, i: nat, j: nat, key: Key)
    requires Valid(run) && i <= j < |run.states| && key in run.states[i].intents
    ensures key in run.states[j].intents
    decreases j
  {
    hide Step, Intends;
    if i < j {
      IntentsGrow(run, i, j - 1, key);
      assert StepAt(run, j - 1);
      StepIntents(run.states[j - 1], run.events[j - 1], run.states[j], key);
    }
  }

  /** An approval is consumed at most once, whatever happens in between, crashes and recoveries included. */
  lemma ConsumedAtMostOnce(run: Run, i: nat, j: nat, key: Key)
    requires Valid(run) && i < |run.events| && j < |run.events|
    requires ConsumedNow(run.events[i], key) && ConsumedNow(run.events[j], key)
    ensures i == j
  {
    hide Step;
    var first, last := if i < j then i else j, if i < j then j else i;
    assert StepAt(run, first) && StepAt(run, last);
    StepIntents(run.states[first], run.events[first], run.states[first + 1], key);
    StepIntents(run.states[last], run.events[last], run.states[last + 1], key);
    if first < last {
      IntentsGrow(run, first + 1, last, key);
    }
  }

  /**
   * Consumption moves the approval, the action and the intent together, and only from the states that allow it; with
   * any other reply nothing has moved.
   */
  lemma ConsumptionIsAllOrNothing(t: Tables, key: Key, target: ActionStatus, reply: Reply, t': Tables)
    requires Step(t, ConsumeApproval(key, target), reply, t')
    ensures reply != Raised(DatabaseError) ==>
              (reply == Done(true) <==> Consumable(t, key) && target == Executing && key !in t.intents)
    ensures reply == Done(true) ==>
              && t.approvals[key] == Approved && key in t'.approvals && t'.approvals[key] == Consumed
              && t.actions[key] == AwaitingApproval && key in t'.actions && t'.actions[key] == Executing
              && key !in t.intents && key in t'.intents
              && t'.tasks == t.tasks
              && (forall other | other != key :: other in t.approvals <==> other in t'.approvals)
              && (forall other | other != key && other in t.approvals :: t'.approvals[other] == t.approvals[other])
              && (forall other | other != key && other in t.actions :: other in t'.actions
                                                                       && t'.actions[other] == t.actions[other])
    ensures reply != Done(true) ==> t' == t
  {
  }

  /** Every approval and every intent belongs to an action there is, and every action to a task. */
  ghost predicate KeysHeld(t: Tables) {
    && (forall key :: key in t.approvals || key in t.intents ==> key in t.actions)
    && (forall key :: key in t.actions ==> key.task in t.tasks)
  }

  lemma StepKeys(t: Tables, op: Op, reply: Reply, t': Tables)
    requires KeysHeld(t) && Step(t, op, reply, t')
    ensures KeysHeld(t')
    ensures forall key :: key in t.approvals && t.approvals[key] == Consumed ==>
                          key in t'.approvals && t'.approvals[key] == Consumed
  {
    hide Active, Takeable;
  }

  lemma {:induction false} ReferencesHold(run: Run, n: nat)
    requires Valid(run) && n <= |run.events|
    ensures KeysHeld(run.states[n])
    decreases n
  {
    hide Step, KeysHeld;
    if n == 0 {
      assert KeysHeld(EMPTY) by { EmptyHolds(); }
    } else {
      ReferencesHold(run, n - 1);
      assert StepAt(run, n - 1);
      StepKeys(run.states[n - 1], run.events[n - 1].op, run.events[n - 1].reply, run.states[n]);
    }
  }

  lemma EmptyHolds()
    ensures KeysHeld(EMPTY)
  {
  }

  /** A consumed approval stays consumed. */
  lemma {:induction false} ConsumedStays(run: Run, i: nat, j: nat, key: Key)
    requires Valid(run) && i <= j < |run.states|
    requires key in run.states[i].approvals && run.states[i].approvals[key] == Consumed
    ensures key in run.states[j].approvals && run.states[j].approvals[key] == Consumed
    decreases j
  {
    hide Step, KeysHeld;
    if i < j {
      ConsumedStays(run, i, j - 1, key);
      assert StepAt(run, j - 1);
      ReferencesHold(run, j - 1);
      StepKeys(run.states[j - 1], run.events[j - 1].op, run.events[j - 1].reply, run.states[j]);
    }
  }

  lemma StepInFlight(t: Tables, op: Op, reply: Reply, t': Tables, key: Key)
    requires Step(t, op, reply, t') && key in t.actions && t.actions[key] in {Executing, UnknownOutcome}
    requires !(op.MoveAction? && op.key == key)
    ensures key in t'.actions && t'.actions[key] in {Executing, UnknownOutcome}
    ensures op.RecoverInflight? && reply == Done(true) ==> t'.actions[key] == UnknownOutcome
  {
    hide Active, Takeable;
  }

  lemma {:induction false} StaysInFlight(run: Run, i: nat, j: nat, key: Key)
    requires Valid(run) && i < j < |run.states| && ConsumedNow(run.events[i], key)
    requires forall k :: i < k < j ==> !(run.events[k].op.MoveAction? && run.events[k].op.key == key)
    ensures key in run.states[j].actions && run.states[j].actions[key] in {Executing, UnknownOutcome}
    decreases j
  {
    hide Step;
    assert StepAt(run, j - 1);
    if j == i + 1 {
      ConsumptionIsAllOrNothing(run.states[i], key, run.events[i].op.target, run.events[i].reply, run.states[j]);
    } else {
      StaysInFlight(run, i, j - 1, key);
      StepInFlight(run.states[j - 1], run.events[j - 1].op, run.events[j - 1].reply, run.states[j], key);
    }
  }

  /**
   * A crash after an approval was consumed, before the action's outcome was recorded: recovery leaves the action with
   * an unknown outcome, the approval stays consumed and its intent on record, and it is never consumed again.
   */
  lemma CrashAfterConsumption(run: Run, i: nat, j: nat, key: Key)
    requires Valid(run) && i < j < |run.events| && ConsumedNow(run.events[i], key)
    requires forall k :: i < k < j ==> !(run.events[k].op.MoveAction? && run.events[k].op.key == key)
    requires run.events[j].op == RecoverInflight && run.events[j].reply == Done(true)
    ensures var t := run.states[j + 1];
            && key in t.actions && t.actions[key] == UnknownOutcome
            && key in t.approvals && t.approvals[key] == Consumed && key in t.intents
    ensures forall k :: j < k < |run.events| ==> !ConsumedNow(run.events[k], key)
  {
    hide Step;
    assert StepAt(run, i) && StepAt(run, j);
    ConsumptionIsAllOrNothing(run.states[i], key, run.events[i].op.target, run.events[i].reply, run.states[i + 1]);
    StaysInFlight(run, i, j, key);
    StepInFlight(run.states[j], run.events[j].op, run.events[j].reply, run.states[j + 1], key);
    ConsumedStays(run, i + 1, j + 1, key);
    IntentsGrow(run, i + 1, j + 1, key);
    forall k | j < k < |run.events| ensures !ConsumedNow(run.events[k], key) {
      if ConsumedNow(run.events[k], key) {
        ConsumedAtMostOnce(run, i, k, key);
      }
    }
  }

  // ---------------------------------------------------------------- leases

  /**
   * Time passes from one transaction to the next, and every clock reading was taken before its transaction. How long
   * before is not known: a transaction may wait for those of other connections.
   */
  ghost predicate RealTime(run: Run) {
    && (forall i, j :: 0 <= i < j < |run.events| ==> run.events[i].at <= run.events[j].at)
    && (forall i :: 0 <= i < |run.events| && run.events[i].op.AcquireLease? ==>
                    run.events[i].op.now <= run.events[i].at)
  }

  /** At most one task has a lease that has not run out at this time; it then has one owner, the one in its row. */
  ghost predicate OneLease(t: Tables, time: real) {
    forall a, b :: Active(t, a, time) && Active(t, b, time) ==> a == b
  }

  /** Another task than this one has a lease that has not run out. */
  ghost predicate OtherActive(t: Tables, task: TaskKey, time: real) {
    exists other :: other != task && Active(t, other, time)
  }

  predicate Takes(e: Event, task: TaskKey, owner: string) {
    e.op.AcquireLease? && e.op.task == task && e.op.owner == owner && e.reply == Done(true)
  }

  /** When at most one lease is unexpired, looking at one such row is as good as looking at all of them. */
  lemma AnyRowWillDo(t: Tables, task: TaskKey, owner: string, ttl: real, now: real, reply: Reply, t': Tables)
    requires OneLease(t, now) && Acquires(t, task, owner, ttl, now, reply, t')
    ensures reply == Done(true) <==>
              task in t.tasks && Takeable(t.tasks[task], owner, now) && !OtherActive(t, task, now)
    ensures t' == if reply == Done(true) then WithLease(t, task, Lease(owner, now + ttl)) else t
  {
    assert forall other :: Active(t, other, now) && other != task ==> OtherActive(t, task, now);
  }

  /**
   * While another task has an unexpired lease, a lease can be taken exactly by renewing one: the task's own lease is
   * unexpired too at the time read, has the same owner, and its row is the one that was fetched.
   */
  lemma OnlyRenewalsGetIn(t: Tables, task: TaskKey, owner: string, ttl: real, now: real)
    requires task in t.tasks && OtherActive(t, task, now)
    ensures (exists t' :: Acquires(t, task, owner, ttl, now, Done(true), t')) <==>
            Active(t, task, now) && t.tasks[task].lease.value.owner == owner
  {
    if Active(t, task, now) && t.tasks[task].lease.value.owner == owner {
      assert Acquires(t, task, owner, ttl, now, Done(true), WithLease(t, task, Lease(owner, now + ttl)));
    }
  }

  lemma SameLeases(t: Tables, op: Op, reply: Reply, t': Tables)
    requires Step(t, op, reply, t') && !op.AcquireLease?
    ensures forall task :: task in t.tasks ==> task in t'.tasks && t'.tasks[task].lease == t.tasks[task].lease
    ensures forall task :: task in t'.tasks && task !in t.tasks ==> t'.tasks[task].lease == None
  {
    hide Consumable, AfterConsumption, Recovered;
    if op.ConsumeApproval? {
      SameTasks(t, op, reply, t');
    }
  }

  lemma SameTasks(t: Tables, op: Op, reply: Reply, t': Tables)
    requires Step(t, op, reply, t') && op.ConsumeApproval?
    ensures t'.tasks == t.tasks
  {
  }

  /** Which leases are unexpired after an event: those before, but for the one that it takes. */
  lemma StepActive(t: Tables, e: Event, t': Tables, time: real)
    requires Step(t, e.op, e.reply, t')
    ensures !(e.op.AcquireLease? && e.reply == Done(true)) ==>
              forall task :: Active(t', task, time) <==> Active(t, task, time)
    ensures e.op.AcquireLease? && e.reply == Done(true) ==>
              && (forall task :: task != e.op.task ==> (Active(t', task, time) <==> Active(t, task, time)))
              && (Active(t', e.op.task, time) <==> e.op.now + e.op.ttl >= time)
  {
    hide Takeable, Consumable, AfterConsumption, Recovered;
    if !e.op.AcquireLease? {
      SameLeases(t, e.op, e.reply, t');
    }
  }

  /** The event takes a lease that outlasts its own transaction, while another task has an unexpired one. */
  ghost predicate Intrudes(t: Tables, e: Event) {
    && e.op.AcquireLease? && e.reply == Done(true) && e.at <= e.op.now + e.op.ttl
    && OtherActive(t, e.op.task, e.at)
  }

  /** An event leaves at most one unexpired lease exactly if it does not intrude on another task's. */
  lemma StepLease(t: Tables, e: Event, t': Tables)
    requires Step(t, e.op, e.reply, t') && OneLease(t, e.at)
    ensures OneLease(t', e.at) <==> !Intrudes(t, e)
  {
    hide Step, Active;
    StepActive(t, e, t', e.at);
    if Intrudes(t, e) {
      var other :| other != e.op.task && Active(t, other, e.at);
      assert Active(t', other, e.at) && Active(t', e.op.task, e.at);
    }
  }

  lemma LaterLease(t: Tables, time: real, later: real)
    requires OneLease(t, time) && time <= later
    ensures OneLease(t, later)
  {
    assert forall other :: Active(t, other, later) ==> Active(t, other, time);
  }

  /** No event up to `n` has intruded. */
  ghost predicate NoIntruder(run: Run, n: nat)
    requires n <= |run.events| < |run.states|
  {
    forall i :: 0 <= i < n ==> !Intrudes(run.states[i], run.events[i])
  }

  /** At every transaction up to the `n`-th, at most one lease is unexpired afterwards. */
  ghost predicate OneLeaseUpTo(run: Run, n: nat)
    requires n <= |run.events| < |run.states|
  {
    forall i :: 0 <= i < n ==> OneLease(run.states[i + 1], run.events[i].at)
  }

  lemma StepHere(run: Run, i: nat)
    requires Valid(run) && i < |run.events|
    ensures |run.states| == |run.events| + 1
    ensures Step(run.states[i], run.events[i].op, run.events[i].reply, run.states[i + 1])
  {
    hide Step;
    assert StepAt(run, i);
  }

  lemma NoLeases(time: real)
    ensures OneLease(EMPTY, time)
  {
  }

  lemma LeaseBefore(run: Run, i: nat)
    requires Valid(run) && RealTime(run) && i < |run.events| && OneLeaseUpTo(run, i)
    ensures OneLease(run.states[i], run.events[i].at)
  {
    hide Step, OneLease;
    if i == 0 {
      NoLeases(run.events[0].at);
    } else {
      assert OneLease(run.states[i - 1 + 1], run.events[i - 1].at);
      LaterLease(run.states[i], run.events[i - 1].at, run.events[i].at);
    }
  }

  /**
   * In real time, at most one lease is unexpired at every transaction of a run exactly if no event intrudes: none takes
   * a lease while another task has one that is unexpired at the time of the transaction.
   */
  lemma {:induction false} OneLeaseExactly(run: Run, n: nat)
    requires Valid(run) && RealTime(run) && n <= |run.events|
    ensures OneLeaseUpTo(run, n) <==> NoIntruder(run, n)
    decreases n
  {
    hide Step, OneLease, Valid, RealTime, Intrudes;
    if n > 0 {
      StepHere(run, n - 1);
      OneLeaseExactly(run, n - 1);
      if OneLeaseUpTo(run, n - 1) {
        LeaseBefore(run, n - 1);
        StepLease(run.states[n - 1], run.events[n - 1], run.states[n]);
      }
    }
  }

  // ---------------------------------------------------------------- readings in order

  /** Clock readings come in the order of the transactions, so that none of them has waited for a later reading. */
  ghost predicate ReadInOrder(run: Run) {
    forall i, j :: 0 <= i < j < |run.events| && run.events[i].op.AcquireLease? && run.events[j].op.AcquireLease? ==>
                     run.events[i].op.now <= run.events[j].op.now
  }

  /** The time is no earlier than any clock reading of the first `n` events. */
  ghost predicate AfterReadings(run: Run, n: nat, time: real)
    requires n <= |run.events|
  {
    forall i :: 0 <= i < n && run.events[i].op.AcquireLease? ==> run.events[i].op.now <= time
  }

  lemma OrderedStep(t: Tables, e: Event, t': Tables, time: real)
    requires Step(t, e.op, e.reply, t') && OneLease(t, time)
    requires e.op.AcquireLease? ==> OneLease(t, e.op.now) && e.op.now <= time
    ensures OneLease(t', time)
  {
    hide Takeable, Consumable, AfterConsumption, Recovered;
    StepActive(t, e, t', time);
    if e.op.AcquireLease? && e.reply == Done(true) {
      AnyRowWillDo(t, e.op.task, e.op.owner, e.op.ttl, e.op.now, e.reply, t');
      assert forall other :: Active(t, other, time) ==> Active(t, other, e.op.now);
    }
  }

  /**
   * If clock readings come in the order of the transactions, at most one lease is unexpired in every reachable store at
   * every time from the latest reading on.
   */
  lemma {:induction false} AtMostOneLease(run: Run, n: nat, time: real)
    requires Valid(run) && ReadInOrder(run) && n <= |run.events| && AfterReadings(run, n, time)
    ensures OneLease(run.states[n], time)
    decreases n
  {
    hide Step, OneLease, Active, Valid;
    if n == 0 {
      NoLeases(time);
      assert run.states[0] == EMPTY by { FirstState(run); }
    } else {
      var e := run.events[n - 1];
      StepHere(run, n - 1);
      AtMostOneLease(run, n - 1, time);
      if e.op.AcquireLease? {
        AtMostOneLease(run, n - 1, e.op.now);
      }
      OrderedStep(run.states[n - 1], e, run.states[n], time);
    }
  }

  lemma FirstState(run: Run)
    requires Valid(run)
    ensures |run.states| > 0 && run.states[0] == EMPTY
  {
  }

  // ---------------------------------------------------------------- a lease in force keeps others out

  lemma StepKeepsLease(t: Tables, e: Event, t': Tables, task: TaskKey, owner: string, until: real)
    requires Step(t, e.op, e.reply, t') && !Takes(e, task, owner)
    requires task in t.tasks && t.tasks[task].lease == Some(Lease(owner, until))
    requires e.op.AcquireLease? ==> e.op.now <= until
    ensures task in t'.tasks && t'.tasks[task].lease == Some(Lease(owner, until))
  {
    hide Consumable, AfterConsumption, Recovered;
    if !e.op.AcquireLease? {
      SameLeases(t, e.op, e.reply, t');
    }
  }

  /** The lease taken at event `i` is not renewed before `j`, and nobody has read a time after its end before that. */
  ghost predicate Undisputed(run: Run, i: nat, j: nat, task: TaskKey, owner: string, until: real)
    requires i < j <= |run.events|
  {
    && Takes(run.events[i], task, owner) && until == run.events[i].op.now + run.events[i].op.ttl
    && forall k :: i < k < j ==>
         !Takes(run.events[k], task, owner) && (run.events[k].op.AcquireLease? ==> run.events[k].op.now <= until)
  }

  /**
   * In whatever order clocks are read: a lease is in the store as it was taken, up to its end and unless its owner has
   * taken it again.
   */
  lemma {:induction false} LeaseInForce(run: Run, i: nat, j: nat, task: TaskKey, owner: string, until: real)
    requires Valid(run) && i < j <= |run.events| && |run.states| == |run.events| + 1
    requires Undisputed(run, i, j, task, owner, until)
    ensures task in run.states[j].tasks && run.states[j].tasks[task].lease == Some(Lease(owner, until))
    decreases j
  {
    hide Step, Valid;
    StepHere(run, j - 1);
    if j == i + 1 {
      TakenLease(run.states[i], run.events[i], run.states[j], task, owner);
    } else {
      LeaseInForce(run, i, j - 1, task, owner, until);
      StepKeepsLease(run.states[j - 1], run.events[j - 1], run.states[j], task, owner, until);
    }
  }

  lemma TakenLease(t: Tables, e: Event, t': Tables, task: TaskKey, owner: string)
    requires Step(t, e.op, e.reply, t') && Takes(e, task, owner)
    ensures task in t'.tasks && t'.tasks[task].lease == Some(Lease(owner, e.op.now + e.op.ttl))
  {
  }

  /** The event renews a lease that is unexpired at the time it has read. */
  predicate Renews(t: Tables, e: Event) {
    e.op.AcquireLease? && Active(t, e.op.task, e.op.now) && t.tasks[e.op.task].lease.value.owner == e.op.owner
  }

  /**
   * Once a lease is taken, nobody else takes one having read a time up to its end, unless it is the renewal of a lease
   * on another task that had not run out at that time either.
   */
  lemma OnlyRenewalsIntrude(run: Run, i: nat, j: nat, task: TaskKey, owner: string, until: real)
    requires Valid(run) && i < j < |run.events| && |run.states| == |run.events| + 1
    requires Undisputed(run, i, j, task, owner, until)
    requires run.events[j].op.AcquireLease? && run.events[j].op.now <= until && run.events[j].reply == Done(true)
    ensures Takes(run.events[j], task, owner) || (run.events[j].op.task != task && Renews(run.states[j], run.events[j]))
  {
    hide Step, Valid, Acquires;
    StepHere(run, j);
    LeaseInForce(run, i, j, task, owner, until);
    var t, e := run.states[j], run.events[j];
    assert Active(t, task, e.op.now);
    TakingSteps(t, e, run.states[j + 1]);
    if e.op.task != task {
      OnlyRenewalsGetIn(t, e.op.task, e.op.owner, e.op.ttl, e.op.now);
    }
  }

  lemma TakingSteps(t: Tables, e: Event, t': Tables)
    requires Step(t, e.op, e.reply, t') && e.op.AcquireLease? && e.reply == Done(true)
    ensures Acquires(t, e.op.task, e.op.owner, e.op.ttl, e.op.now, Done(true), t')
    ensures e.op.task in t.tasks && Takeable(t.tasks[e.op.task], e.op.owner, e.op.now)
  {
  }

  /** If clock readings come in the order of the transactions, nobody else takes a lease at any time up to its end. */
  lemma LeaseExcludesOthers(run: Run, i: nat, j: nat, task: TaskKey, owner: string, until: real)
    requires Valid(run) && ReadInOrder(run) && i < j < |run.events| && |run.states| == |run.events| + 1
    requires Undisputed(run, i, j, task, owner, until)
    requires run.events[j].op.AcquireLease? && run.events[j].op.now <= until
    ensures run.events[j].reply == Done(true) ==> Takes(run.events[j], task, owner)
  {
    hide Step, Valid;
    if run.events[j].reply == Done(true) && !Takes(run.events[j], task, owner) {
      var t, e := run.states[j], run.events[j];
      OnlyRenewalsIntrude(run, i, j, task, owner, until);
      LeaseInForce(run, i, j, task, owner, until);
      AtMostOneLease(run, j, e.op.now);
      SameTask(t, task, e.op.task, e.op.now);
    }
  }

  lemma SameTask(t: Tables, a: TaskKey, b: TaskKey, time: real)
    requires OneLease(t, time) && Active(t, a, time) && Active(t, b, time)
    ensures a == b
  {
  }

  // ---------------------------------------------------------------- clocks read too early, and clocks set back

  const T0 := EMPTY
  const T1 := Tables(map[1 := TaskRow(Harness.Deciding, None)], map[], map[], {})
  const T2 := Tables(map[1 := TaskRow(Harness.Deciding, None), 2 := TaskRow(Harness.Deciding, None)], map[], map[], {})
  const T3 := WithLease(T2, 1, Lease("a", 102.0))
  const T4 := WithLease(T3, 2, Lease("b", 163.0))
  const T5 := WithLease(T4, 1, Lease("a", 161.0))

  /**
   * Owner `a` reads the clock at 101 to renew its lease and waits; `b` reads 103, when that lease has run out, and
   * takes another; then the renewal goes through.
   */
  const LATE_RENEWAL := Run(
    [T0, T1, T2, T3, T4, T5],
    [ Event(CreateTask(1, Harness.Deciding), Done(true), 100.0),
      Event(CreateTask(2, Harness.Deciding), Done(true), 100.0),
      Event(AcquireLease(1, "a", 2.0, 100.0), Done(true), 100.0),
      Event(AcquireLease(2, "b", 60.0, 103.0), Done(true), 103.0),
      Event(AcquireLease(1, "a", 60.0, 101.0), Done(true), 104.0) ])

  /** In real time and with no clock ever going back, a whole run ends with two leases that have not run out. */
  lemma LateRenewalIntrudes()
    ensures Valid(LATE_RENEWAL) && RealTime(LATE_RENEWAL) && !ReadInOrder(LATE_RENEWAL)
    ensures Intrudes(T4, LATE_RENEWAL.events[4]) && !OneLease(T5, 104.0)
  {
    hide Valid, WithLease;
    CreationSteps(LATE_RENEWAL);
    TakingTwo();
    RenewingLate();
    FiveSteps(LATE_RENEWAL);
    assert LATE_RENEWAL.events[4].op.now < LATE_RENEWAL.events[3].op.now;
  }

  lemma FiveSteps(run: Run)
    requires |run.events| == 5 && |run.states| == 6 && run.states[0] == EMPTY
    requires StepAt(run, 0) && StepAt(run, 1) && StepAt(run, 2) && StepAt(run, 3) && StepAt(run, 4)
    ensures Valid(run)
  {
    hide StepAt;
  }

  lemma CreationSteps(run: Run)
    requires |run.events| == 5 && |run.states| == 6 && run.states[..3] == [T0, T1, T2]
    requires run.events[0].op == CreateTask(1, Harness.Deciding) && run.events[0].reply == Done(true)
    requires run.events[1].op == CreateTask(2, Harness.Deciding) && run.events[1].reply == Done(true)
    ensures StepAt(run, 0) && StepAt(run, 1)
  {
    assert run.states[0] == run.states[..3][0] && run.states[1] == run.states[..3][1];
    assert run.states[2] == run.states[..3][2];
  }

  lemma TakingTwo()
    ensures StepAt(LATE_RENEWAL, 2) && StepAt(LATE_RENEWAL, 3)
  {
    assert forall other :: !Active(T2, other, 100.0);
    assert forall other :: !Active(T3, other, 103.0);
  }

  lemma RenewingLate()
    ensures StepAt(LATE_RENEWAL, 4) && Intrudes(T4, LATE_RENEWAL.events[4]) && !OneLease(T5, 104.0)
  {
    assert Active(T4, 1, 101.0);
    assert 2 != 1 && Active(T4, 2, 104.0);
    assert Active(T5, 1, 104.0) && Active(T5, 2, 104.0);
  }

  const B3 := WithLease(T2, 1, Lease("a", 110.0))
  const B4 := WithLease(B3, 2, Lease("b", 260.0))

  /** Two leases taken, the second after the first has run out; then the clock is found to be back before that. */
  const SET_BACK := Run(
    [T0, T1, T2, B3, B4, B4],
    [ Event(CreateTask(1, Harness.Deciding), Done(true), 100.0),
      Event(CreateTask(2, Harness.Deciding), Done(true), 100.0),
      Event(AcquireLease(1, "a", 10.0, 100.0), Done(true), 100.0),
      Event(AcquireLease(2, "b", 60.0, 200.0), Done(true), 200.0),
      Event(AcquireLease(1, "c", 10.0, 105.0), Done(false), 105.0) ])

  /** A whole run whose clock goes back ends with two leases that have not run out, although nobody intruded. */
  lemma ClockSetBack()
    ensures Valid(SET_BACK) && !RealTime(SET_BACK) && NoIntruder(SET_BACK, 5)
    ensures !OneLease(SET_BACK.states[5], SET_BACK.events[4].at)
  {
    hide Valid, WithLease;
    CreationSteps(SET_BACK);
    LeaseSteps();
    FiveSteps(SET_BACK);
    assert SET_BACK.events[4].at < SET_BACK.events[3].at;
  }

  lemma LeaseSteps()
    ensures StepAt(SET_BACK, 2) && StepAt(SET_BACK, 3) && StepAt(SET_BACK, 4)
    ensures !OneLease(B4, 105.0) && NoIntruder(SET_BACK, 5)
  {
    assert forall other :: !Active(T2, other, 100.0);
    assert forall other :: !Active(B3, other, 200.0);
    assert Active(B4, 1, 105.0) && Active(B4, 2, 105.0);
  }
}
