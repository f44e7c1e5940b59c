/** The SQLite state store: tables with their keys, statements that may fail, and transactions. */
module StateStore {
  import opened Base
  import Harness

  type TaskKey = nat

  datatype Key = Key(task: TaskKey, action: nat)

  datatype ActionStatus =
    | Received | Validated | AwaitingApproval | Ready | Executing | ActionSucceeded | ActionFailed | Rejected
    | Interrupted | UnknownOutcome

  datatype ApprovalStatus = Pending | Approved | Consumed | Executed | Denied | Cancelled | Expired

  datatype Lease = Lease(owner: string, until: real)

  datatype TaskRow = TaskRow(status: Harness.TaskStatus, lease: Option<Lease>)

  datatype Tables = Tables(
    tasks: map<TaskKey, TaskRow>,
    actions: map<Key, ActionStatus>,
    approvals: map<Key, ApprovalStatus>,
    intents: set<Key>)

  const EMPTY := Tables(map[], map[], map[], {})

  datatype Failure = KeyError | ValueError | IntegrityError | DatabaseError

  datatype Reply = Done(value: bool) | Raised(failure: Failure)

  datatype Op =
    | CreateTask(task: TaskKey, status: Harness.TaskStatus)
    | MoveTask(task: TaskKey, fromTask: Harness.TaskStatus, toTask: Harness.TaskStatus)
    | CreateAction(key: Key, actionStatus: ActionStatus)
    | MoveAction(key: Key, fromAction: ActionStatus, toAction: ActionStatus)
    | CreateApproval(key: Key, approvalStatus: ApprovalStatus)
    | RecordDecision(key: Key, decision: ApprovalStatus)
    | LogIntent(key: Key)
    | ConsumeApproval(key: Key, target: ActionStatus)
    | RecoverInflight
    | AcquireLease(task: TaskKey, owner: string, ttl: real, now: real)

  // ---------------------------------------------------------------- what an operation may do

  /** An approval that can be consumed: approved, for an action that waits for it, and not yet acted on. */
  predicate Consumable(t: Tables, key: Key) {
    && key in t.approvals && t.approvals[key] == Approved
    && key in t.actions && t.actions[key] == AwaitingApproval
  }

  function AfterConsumption(t: Tables, key: Key): Tables {
    t.(approvals := t.approvals[key := Consumed], actions := t.actions[key := Executing], intents := t.intents + {key})
  }

  function Recovered(actions: map<Key, ActionStatus>): map<Key, ActionStatus> {
    map key | key in actions :: if actions[key] == Executing then UnknownOutcome else actions[key]
  }

  /** The task's lease has not run out. */
  predicate Active(t: Tables, task: TaskKey, now: real) {
    task in t.tasks && t.tasks[task].lease.Some? && t.tasks[task].lease.value.until >= now
  }

  /** The guard of the update that takes a lease. */
  predicate Takeable(row: TaskRow, owner: string, now: real) {
    row.lease == None || row.lease.value.until < now || row.lease.value.owner == owner
  }

  function WithLease(t: Tables, task: TaskKey, lease: Lease): Tables
    requires task in t.tasks
  {
    t.(tasks := t.tasks[task := t.tasks[task].(lease := Some(lease))])
  }

  /** Taking a lease: one row with an unexpired lease is looked at, and it may be any of them. */
  ghost predicate Acquires(t: Tables, task: TaskKey, owner: string, ttl: real, now: real, reply: Reply, t': Tables) {
    if task !in t.tasks then reply == Done(false) && t' == t
    else
      || (reply == Done(false) && t' == t && exists other :: Active(t, other, now) && other != task)
      || ((Active(t, task, now) || forall other :: !Active(t, other, now))
          && if Takeable(t.tasks[task], owner, now) then reply == Done(true)
            && t' == WithLease(t, task, Lease(owner, now + ttl))
             else reply == Done(false) && t' == t)
  }

  ghost predicate Effect(t: Tables, op: Op, reply: Reply, t': Tables) {
    match op
    case CreateTask(task, status) =>
      if task in t.tasks then reply == Raised(IntegrityError) && t' == t
      else reply == Done(true) && t' == t.(tasks := t.tasks[task := TaskRow(status, None)])
    case MoveTask(task, from, to) =>
      if task in t.tasks && t.tasks[task].status == from then reply == Done(true)
        && t' == t.(tasks := t.tasks[task := t.tasks[task].(status := to)])
      else reply == Done(false) && t' == t
    case CreateAction(key, status) =>
      if key in t.actions || key.task !in t.tasks then reply == Raised(IntegrityError) && t' == t
      else reply == Done(true) && t' == t.(actions := t.actions[key := status])
    case MoveAction(key, from, to) =>
      if key in t.actions && t.actions[key] == from then reply == Done(true)
        && t' == t.(actions := t.actions[key := to])
      else reply == Done(false) && t' == t
    case CreateApproval(key, status) =>
      if key in t.approvals || key !in t.actions then reply == Raised(IntegrityError) && t' == t
      else reply == Done(true) && t' == t.(approvals := t.approvals[key := status])
    case RecordDecision(key, decision) =>
      reply == Done(true)
      && t' == if key in t.approvals && t.approvals[key] == Pending
        then t.(approvals := t.approvals[key := decision]) else t
    case LogIntent(key) =>
      if key in t.intents || key !in t.actions then reply == Raised(IntegrityError) && t' == t
      else reply == Done(true) && t' == t.(intents := t.intents + {key})
    case ConsumeApproval(key, target) =>
      if !Consumable(t, key) then reply == Done(false) && t' == t
      else if target != Executing then reply == Raised(ValueError) && t' == t
      else if key in t.intents then reply == Raised(IntegrityError) && t' == t
      else reply == Done(true) && t' == AfterConsumption(t, key)
    case RecoverInflight => reply == Done(true) && t' == t.(actions := Recovered(t.actions))
    case AcquireLease(task, owner, ttl, now) => Acquires(t, task, owner, ttl, now, reply, t')
  }

  /** An operation has its effect, or a statement of it fails and it has none. */
  ghost predicate Step(t: Tables, op: Op, reply: Reply, t': Tables) {
    Effect(t, op, reply, t') || (reply == Raised(DatabaseError) && t' == t)
  }

  // ---------------------------------------------------------------- the store

  class SQLiteStateStore {
    const faults: nat -> bool
    var statements: nat
    var tasks: map<TaskKey, TaskRow>
    var actions: map<Key, ActionStatus>
    var approvals: map<Key, ApprovalStatus>
    var intents: set<Key>
    var saved: Option<Tables>

    constructor (faults: nat -> bool)
      ensures this.faults == faults && State() == EMPTY && saved == None
    {
      this.faults := faults;
      statements, tasks, actions, approvals, intents, saved := 0, map[], map[], map[], {}, None;
    }

    function State(): Tables
      reads this
    {
      Tables(tasks, actions, approvals, intents)
    }

    /** No statement failed between two points. */
    ghost predicate FaultFree(from: nat, to: nat) {
      forall i :: from <= i < to ==> !faults(i)
    }

    /** Whether the next statement fails. */
    method Fails() returns (failed: bool)
      modifies `statements
      ensures statements == old(statements) + 1 && failed == faults(old(statements))
    {
      failed := faults(statements);
      statements := statements + 1;
    }

    method Begin() returns (failed: bool)
      requires saved == None
      modifies `statements, `saved
      ensures statements == old(statements) + 1 && failed == faults(old(statements))
      ensures saved == if failed then None else Some(State())
    {
      failed := Fails();
      if !failed {
        saved := Some(State());
      }
    }

    method Rollback()
      modifies `tasks, `actions, `approvals, `intents, `saved
      ensures State() == if old(saved).Some? then old(saved).value else old(State())
      ensures saved == None
    {
      if saved.Some? {
        tasks, actions, approvals, intents := saved.value.tasks, saved.value.actions, saved.value.approvals,
          saved.value.intents;
        saved := None;
      }
    }

    method Commit() returns (failed: bool)
      modifies `statements, `saved
      ensures statements == old(statements) + 1 && failed == faults(old(statements))
      ensures saved == if failed then old(saved) else None
    {
      failed := Fails();
      if !failed {
        saved := None;
      }
    }

    method CreateTask(task: TaskKey, status: Harness.TaskStatus) returns (reply: Reply)
      requires saved == None
      modifies this
      ensures saved == None && Step(old(State()), Op.CreateTask(task, status), reply, State())
      ensures FaultFree(old(statements), statements) ==> reply != Raised(DatabaseError)
    {
      var failed := Fails();
      if failed { return Raised(DatabaseError); }
      if task in tasks { return Raised(IntegrityError); }
      tasks := tasks[task := TaskRow(status, None)];
      reply := Done(true);
    }

    method CompareAndSetTaskStatus(task: TaskKey, expected: Harness.TaskStatus, target: Harness.TaskStatus)
      returns (reply: Reply)
      requires saved == None
      modifies this
      ensures saved == None && Step(old(State()), MoveTask(task, expected, target), reply, State())
      ensures FaultFree(old(statements), statements) ==> reply != Raised(DatabaseError)
    {
      var failed := Fails();
      if failed { return Raised(DatabaseError); }
      var count := 0;
      if task in tasks && tasks[task].status == expected {
        tasks := tasks[task := tasks[task].(status := target)];
        count := 1;
      }
      reply := Done(count == 1);
    }

    method CreateAction(key: Key, status: ActionStatus) returns (reply: Reply)
      requires saved == None
      modifies this
      ensures saved == None && Step(old(State()), Op.CreateAction(key, status), reply, State())
      ensures FaultFree(old(statements), statements) ==> reply != Raised(DatabaseError)
    {
      var failed := Fails();
      if failed { return Raised(DatabaseError); }
      if key in actions || key.task !in tasks { return Raised(IntegrityError); }
      actions := actions[key := status];
      reply := Done(true);
    }

    /** The update of one action's status if it has the expected one. */
    method UpdateAction(key: Key, expected: ActionStatus, target: ActionStatus) returns (failed: bool, count: nat)
      modifies `statements, `actions
      ensures statements == old(statements) + 1 && failed == faults(old(statements))
      ensures if !failed && key in old(actions) && old(actions)[key] == expected
              then count == 1 && actions == old(actions)[key := target]
              else count == 0 && actions == old(actions)
    {
      count := 0;
      failed := Fails();
      if !failed && key in actions && actions[key] == expected {
        actions := actions[key := target];
        count := 1;
      }
    }

    /** The update of one approval's status if it has the expected one. */
    method UpdateApproval(key: Key, expected: ApprovalStatus, target: ApprovalStatus) returns (failed: bool, count: nat)
      modifies `statements, `approvals
      ensures statements == old(statements) + 1 && failed == faults(old(statements))
      ensures if !failed && key in old(approvals) && old(approvals)[key] == expected
              then count == 1 && approvals == old(approvals)[key := target]
              else count == 0 && approvals == old(approvals)
    {
      count := 0;
      failed := Fails();
      if !failed && key in approvals && approvals[key] == expected {
        approvals := approvals[key := target];
        count := 1;
      }
    }

    method CompareAndSetActionStatus(key: Key, expected: ActionStatus, target: ActionStatus) returns (reply: Reply)
      requires saved == None
      modifies this
      ensures saved == None && Step(old(State()), MoveAction(key, expected, target), reply, State())
      ensures FaultFree(old(statements), statements) ==> reply != Raised(DatabaseError)
    {
      var failed, count := UpdateAction(key, expected, target);
      reply := if failed then Raised(DatabaseError) else Done(count == 1);
    }

    method CreateApproval(key: Key, status: ApprovalStatus) returns (reply: Reply)
      requires saved == None
      modifies this
      ensures saved == None && Step(old(State()), Op.CreateApproval(key, status), reply, State())
      ensures FaultFree(old(statements), statements) ==> reply != Raised(DatabaseError)
    {
      var failed := Fails();
      if failed { return Raised(DatabaseError); }
      if key in approvals || key !in actions { return Raised(IntegrityError); }
      approvals := approvals[key := status];
      reply := Done(true);
    }

    method RecordApprovalDecision(key: Key, decision: ApprovalStatus) returns (reply: Reply)
      requires saved == None
      modifies this
      ensures saved == None && Step(old(State()), RecordDecision(key, decision), reply, State())
      ensures FaultFree(old(statements), statements) ==> reply != Raised(DatabaseError)
    {
      var failed, _ := UpdateApproval(key, Pending, decision);
      reply := if failed then Raised(DatabaseError) else Done(true);
    }

    /** The insertion of an intent: at most one a key, and only for an action there is. */
    method InsertIntent(key: Key) returns (failure: Option<Failure>)
      modifies `statements, `intents
      ensures statements == old(statements) + 1
      ensures failure == if faults(old(statements)) then Some(DatabaseError) else if key in old(intents)
              || key !in actions then Some(IntegrityError) else None
      ensures intents == if failure == None then old(intents) + {key} else old(intents)
    {
      var failed := Fails();
      if failed { return Some(DatabaseError); }
      if key in intents || key !in actions { return Some(IntegrityError); }
      intents := intents + {key};
      failure := None;
    }

    method LogIntent(key: Key) returns (reply: Reply)
      requires saved == None
      modifies this
      ensures saved == None && Step(old(State()), Op.LogIntent(key), reply, State())
      ensures FaultFree(old(statements), statements) ==> reply != Raised(DatabaseError)
    {
      var failure := InsertIntent(key);
      reply := if failure == None then Done(true) else Raised(failure.value);
    }

    method RecoverInflight() returns (reply: Reply)
      requires saved == None
      modifies this
      ensures saved == None && Step(old(State()), Op.RecoverInflight, reply, State())
      ensures FaultFree(old(statements), statements) ==> reply != Raised(DatabaseError)
    {
      var failed := Fails();
      if failed { return Raised(DatabaseError); }
      actions := Recovered(actions);
      reply := Done(true);
    }

    /** `consume_approval`: one transaction, rolled back on every way out but the last. */
    method ConsumeApproval(key: Key, target: ActionStatus) returns (reply: Reply)
      requires saved == None
      modifies this
      ensures saved == None && Step(old(State()), Op.ConsumeApproval(key, target), reply, State())
      ensures FaultFree(old(statements), statements) ==> reply != Raised(DatabaseError)
    {
      reply := Consume(key, target);
      if reply != Done(true) {
        Rollback();
      }
    }

    /** The transaction itself; only with `Done(true)` is it committed. */
    method Consume(key: Key, target: ActionStatus) returns (reply: Reply)
      requires saved == None
      modifies this
      ensures if reply == Done(true) then saved == None
              && Effect(old(State()), Op.ConsumeApproval(key, target), reply, State())
              else saved == Some(old(State())) || (saved == None && State() == old(State()))
      ensures reply != Done(true) ==> Step(old(State()), Op.ConsumeApproval(key, target), reply, old(State()))
      ensures FaultFree(old(statements), statements) ==> reply != Raised(DatabaseError)
    {
      var failed := Begin();
      if failed { return Raised(DatabaseError); }
      failed := Fails();
      if failed { return Raised(DatabaseError); }
      if key !in approvals || approvals[key] != Approved { return Done(false); }
      failed := Fails();
      if failed { return Raised(DatabaseError); }
      if key !in actions || actions[key] != AwaitingApproval { return Done(false); }
      if target != Executing { return Raised(ValueError); }
      reply := ConsumeNow(key);
    }

    /** The statements of the transaction that change something, and its end. */
    method ConsumeNow(key: Key) returns (reply: Reply)
      requires saved == Some(State()) && Consumable(State(), key)
      modifies this
      ensures reply == Done(true) || reply == Raised(DatabaseError)
              || (reply == Raised(IntegrityError) && key in old(intents))
      ensures reply == Done(true) ==>
                saved == None && key !in old(intents) && State() == AfterConsumption(old(State()), key)
      ensures reply != Done(true) ==> saved == old(saved)
      ensures statements >= old(statements)
      ensures FaultFree(old(statements), statements) ==> reply != Raised(DatabaseError)
    {
      var failed, changed := UpdateApproval(key, Approved, Consumed);
      if failed { return Raised(DatabaseError); }
      if changed != 1 { return Done(false); }
      failed, changed := UpdateAction(key, AwaitingApproval, Executing);
      if failed { return Raised(DatabaseError); }
      if changed != 1 { return Done(false); }
      var failure := InsertIntent(key);
      if failure.Some? { return Raised(failure.value); }
      failed := Commit();
      if failed { return Raised(DatabaseError); }
      reply := Done(true);
    }

    /** `acquire_lease`, with the clock read beforehand. */
    method AcquireLease(task: TaskKey, owner: string, ttl: real, now: real) returns (reply: Reply)
      requires saved == None
      modifies this
      ensures saved == None && Step(old(State()), Op.AcquireLease(task, owner, ttl, now), reply, State())
      ensures FaultFree(old(statements), statements) ==> reply != Raised(DatabaseError)
    {
      reply := Acquire(task, owner, ttl, now);
      if reply != Done(true) {
        Rollback();
      }
    }

    /** The first row of those with an unexpired lease, in whatever order they come. */
    method AnyActive(now: real) returns (active: Option<TaskKey>)
      ensures active.Some? ==> Active(State(), active.value, now)
      ensures active == None ==> forall other :: !Active(State(), other, now)
    {
      var unexpired := set other | other in tasks && Active(State(), other, now);
      if unexpired == {} {
        assert forall other :: Active(State(), other, now) ==> other in unexpired;
        return None;
      }
      var first :| first in unexpired;
      active := Some(first);
    }

    /** The update that takes the lease if its guard lets it. */
    method UpdateLease(task: TaskKey, owner: string, now: real, until: real) returns (failed: bool, count: nat)
      requires task in tasks
      modifies `statements, `tasks
      ensures statements == old(statements) + 1 && failed == faults(old(statements))
      ensures if !failed && Takeable(old(tasks)[task], owner, now)
              then count == 1 && State() == WithLease(old(State()), task, Lease(owner, until))
              else count == 0 && tasks == old(tasks)
    {
      count := 0;
      failed := Fails();
      if !failed && Takeable(tasks[task], owner, now) {
        tasks := tasks[task := tasks[task].(lease := Some(Lease(owner, until)))];
        count := 1;
      }
    }

    method Acquire(task: TaskKey, owner: string, ttl: real, now: real) returns (reply: Reply)
      requires saved == None
      modifies this
      ensures if reply == Done(true) then saved == None && Acquires(old(State()), task, owner, ttl, now, reply, State())
              else saved == Some(old(State())) || (saved == None && State() == old(State()))
      ensures reply != Done(true) ==> reply == Raised(DatabaseError)
                                      || Acquires(old(State()), task, owner, ttl, now, reply, old(State()))
      ensures FaultFree(old(statements), statements) ==> reply != Raised(DatabaseError)
    {
      hide Active, Takeable, WithLease;
      var failed := Begin();
      if failed { return Raised(DatabaseError); }
      failed := Fails();
      if failed { return Raised(DatabaseError); }
      if task !in tasks { return Done(false); }
      failed := Fails();
      if failed { return Raised(DatabaseError); }
      var active := AnyActive(now);
      if active.Some? && active.value != task { return Done(false); }
      var count;
      failed, count := UpdateLease(task, owner, now, now + ttl);
      if failed { return Raised(DatabaseError); }
      if count != 1 { return Done(false); }
      failed := Commit();
      if failed { return Raised(DatabaseError); }
      reply := Done(true);
    }
  }
}
