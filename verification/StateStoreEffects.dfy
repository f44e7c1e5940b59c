/** What each operation on the state store changes, row by row, and what it leaves alone. */
module StateStoreEffects {
  import opened Base
  import opened StateStore
  import Harness

  /** Only the row of `key` is new or changed, and holds this value now. */
  ghost predicate OnlyRow<K(!new), V>(before: map<K, V>, after: map<K, V>, key: K, value: V) {
    && key in after && after[key] == value
    && forall other: K :: other != key ==>
         (other in after <==> other in before) && (other in before ==> after[other] == before[other])
  }

  lemma RowWritten<K(!new), V>(before: map<K, V>, key: K, value: V)
    ensures OnlyRow(before, before[key := value], key, value)
  {
  }

  /** A task is created once, without a lease. */
  lemma TaskCreated(t: Tables, task: TaskKey, status: Harness.TaskStatus, reply: Reply, t': Tables)
    requires Step(t, CreateTask(task, status), reply, t') && reply != Raised(DatabaseError)
    ensures reply == if task in t.tasks then Raised(IntegrityError) else Done(true)
    ensures reply != Done(true) ==> t' == t
    ensures reply == Done(true) ==>
              && OnlyRow(t.tasks, t'.tasks, task, TaskRow(status, None))
              && t'.actions == t.actions && t'.approvals == t.approvals && t'.intents == t.intents
  {
    RowWritten(t.tasks, task, TaskRow(status, None));
  }

  /** A task's status moves exactly from the expected one; its lease stays. */
  lemma TaskMoved(t: Tables, task: TaskKey, from: Harness.TaskStatus, to: Harness.TaskStatus, reply: Reply,
                  t': Tables)
    requires Step(t, MoveTask(task, from, to), reply, t') && reply != Raised(DatabaseError)
    ensures reply == Done(task in t.tasks && t.tasks[task].status == from)
    ensures reply != Done(true) ==> t' == t
    ensures reply == Done(true) ==>
              && OnlyRow(t.tasks, t'.tasks, task, TaskRow(to, t.tasks[task].lease))
              && t'.actions == t.actions && t'.approvals == t.approvals && t'.intents == t.intents
  {
    if task in t.tasks {
      RowWritten(t.tasks, task, TaskRow(to, t.tasks[task].lease));
    }
  }

  /** An action is created once, and only under a task there is. */
  lemma ActionCreated(t: Tables, key: Key, status: ActionStatus, reply: Reply, t': Tables)
    requires Step(t, CreateAction(key, status), reply, t') && reply != Raised(DatabaseError)
    ensures reply == if key !in t.actions && key.task in t.tasks then Done(true) else Raised(IntegrityError)
    ensures reply != Done(true) ==> t' == t
    ensures reply == Done(true) ==>
              && OnlyRow(t.actions, t'.actions, key, status)
              && t'.tasks == t.tasks && t'.approvals == t.approvals && t'.intents == t.intents
  {
    RowWritten(t.actions, key, status);
  }

  /** An action's status moves exactly from the expected one. */
  lemma ActionMoved(t: Tables, key: Key, from: ActionStatus, to: ActionStatus, reply: Reply, t': Tables)
    requires Step(t, MoveAction(key, from, to), reply, t') && reply != Raised(DatabaseError)
    ensures reply == Done(key in t.actions && t.actions[key] == from)
    ensures reply != Done(true) ==> t' == t
    ensures reply == Done(true) ==>
              && OnlyRow(t.actions, t'.actions, key, to)
              && t'.tasks == t.tasks && t'.approvals == t.approvals && t'.intents == t.intents
  {
    RowWritten(t.actions, key, to);
  }

  /** An approval is created once, and only for an action there is. */
  lemma ApprovalCreated(t: Tables, key: Key, status: ApprovalStatus, reply: Reply, t': Tables)
    requires Step(t, CreateApproval(key, status), reply, t') && reply != Raised(DatabaseError)
    ensures reply == if key !in t.approvals && key in t.actions then Done(true) else Raised(IntegrityError)
    ensures reply != Done(true) ==> t' == t
    ensures reply == Done(true) ==>
              && OnlyRow(t.approvals, t'.approvals, key, status)
              && t'.tasks == t.tasks && t'.actions == t.actions && t'.intents == t.intents
  {
    RowWritten(t.approvals, key, status);
  }

  /** The decision that is recorded is the one given, on a pending approval and no other; the caller is told nothing. */
  lemma DecisionRecorded(t: Tables, key: Key, decision: ApprovalStatus, reply: Reply, t': Tables)
    requires Step(t, RecordDecision(key, decision), reply, t') && reply != Raised(DatabaseError)
    ensures reply == Done(true)
    ensures if key in t.approvals && t.approvals[key] == Pending
            then OnlyRow(t.approvals, t'.approvals, key, decision)
            else t'.approvals == t.approvals
    ensures t'.tasks == t.tasks && t'.actions == t.actions && t'.intents == t.intents
  {
    RowWritten(t.approvals, key, decision);
  }

  /** An intent is logged once, and only for an action there is. */
  lemma IntentLogged(t: Tables, key: Key, reply: Reply, t': Tables)
    requires Step(t, LogIntent(key), reply, t') && reply != Raised(DatabaseError)
    ensures reply == if key !in t.intents && key in t.actions then Done(true) else Raised(IntegrityError)
    ensures t'.tasks == t.tasks && t'.actions == t.actions && t'.approvals == t.approvals
    ensures forall other :: other in t'.intents <==> other in t.intents || (other == key && reply == Done(true))
  {
  }

  /** Recovery leaves every executing action with an unknown outcome, and everything else as it is. */
  lemma InflightRecovered(t: Tables, reply: Reply, t': Tables)
    requires Step(t, RecoverInflight, reply, t') && reply != Raised(DatabaseError)
    ensures reply == Done(true)
    ensures t'.tasks == t.tasks && t'.approvals == t.approvals && t'.intents == t.intents
    ensures forall key :: key in t'.actions <==> key in t.actions
    ensures forall key :: key in t.actions ==>
                            t'.actions[key] == if t.actions[key] == Executing then UnknownOutcome else t.actions[key]
  {
  }

  /** Consuming an approval: it must be approved, its action waiting for it and never intended before. */
  lemma ApprovalConsumed(t: Tables, key: Key, target: ActionStatus, reply: Reply, t': Tables)
    requires Step(t, ConsumeApproval(key, target), reply, t') && reply != Raised(DatabaseError)
    ensures var ready := key in t.approvals && t.approvals[key] == Approved
            && key in t.actions && t.actions[key] == StateStore.AwaitingApproval;
            reply ==
            if !ready then Done(false)
            else if target != Executing then Raised(ValueError)
            else if key in t.intents then Raised(IntegrityError)
            else Done(true)
    ensures reply != Done(true) ==> t' == t
    ensures reply == Done(true) ==>
              && OnlyRow(t.approvals, t'.approvals, key, Consumed) && OnlyRow(t.actions, t'.actions, key, Executing)
              && t'.tasks == t.tasks && forall other :: other in t'.intents <==> other in t.intents || other == key
  {
    RowWritten(t.approvals, key, Consumed);
    RowWritten(t.actions, key, Executing);
  }

  /** The whole way of an approval, for an action that waits and was not intended before: granted, it is consumed. */
  lemma GrantedOrDenied(t0: Tables, t1: Tables, t2: Tables, t3: Tables, key: Key, decision: ApprovalStatus,
                        reply: Reply)
    requires Step(t0, CreateApproval(key, Pending), Done(true), t1)
    requires Step(t1, RecordDecision(key, decision), Done(true), t2)
    requires Step(t2, ConsumeApproval(key, Executing), reply, t3) && reply != Raised(DatabaseError)
    requires key in t0.actions && t0.actions[key] == StateStore.AwaitingApproval && key !in t0.intents
    ensures reply == Done(decision == Approved)
    ensures key in t3.approvals && t3.approvals[key] == if decision == Approved then Consumed else decision
    ensures key in t3.actions && t3.actions[key]
                                 == if decision == Approved then Executing else StateStore.AwaitingApproval
    ensures key in t3.intents <==> decision == Approved
  {
    hide Step;
    ApprovalCreated(t0, key, Pending, Done(true), t1);
    DecisionRecorded(t1, key, decision, Done(true), t2);
    ApprovalConsumed(t2, key, Executing, reply, t3);
  }

  // ---------------------------------------------------------------- leases

  /** The task has a lease that has not run out; at its very end it has not. */
  predicate Unexpired(t: Tables, task: TaskKey, now: real) {
    task in t.tasks && t.tasks[task].lease.Some? && t.tasks[task].lease.value.until >= now
  }

  /** Some other task has a lease that has not run out. */
  ghost predicate OtherUnexpired(t: Tables, task: TaskKey, now: real) {
    exists other :: other != task && Unexpired(t, other, now)
  }

  /** The task's lease, if it has one that has not run out, is this owner's. */
  predicate Open(t: Tables, task: TaskKey, owner: string, now: real) {
    task in t.tasks && (Unexpired(t, task, now) ==> t.tasks[task].lease.value.owner == owner)
  }

  /**
   * Taking a lease: it is granted only on a task there is, whose lease is the owner's or has run out, and if that has
   * run out only while no other task has one; it is refused only for lack of that; and it then lasts from now for
   * `ttl`, the task's status and everything else staying as it was.
   */
  lemma LeaseTaken(t: Tables, task: TaskKey, owner: string, ttl: real, now: real, reply: Reply, t': Tables)
    requires Step(t, AcquireLease(task, owner, ttl, now), reply, t') && reply != Raised(DatabaseError)
    ensures reply in {Done(true), Done(false)}
    ensures reply == Done(true) ==>
              Open(t, task, owner, now) && (Unexpired(t, task, now) || !OtherUnexpired(t, task, now))
    ensures reply == Done(false) ==> !Open(t, task, owner, now) || OtherUnexpired(t, task, now)
    ensures reply == Done(false) ==> t' == t
    ensures reply == Done(true) ==>
              && OnlyRow(t.tasks, t'.tasks, task, TaskRow(t.tasks[task].status, Some(Lease(owner, now + ttl))))
              && t'.actions == t.actions && t'.approvals == t.approvals && t'.intents == t.intents
  {
    assert forall other :: Active(t, other, now) <==> Unexpired(t, other, now);
    if task in t.tasks {
      RowWritten(t.tasks, task, TaskRow(t.tasks[task].status, Some(Lease(owner, now + ttl))));
      assert Takeable(t.tasks[task], owner, now) <==> Open(t, task, owner, now);
    }
  }
}
