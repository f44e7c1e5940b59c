/**
 * The contract a scenario's trace must meet, the view made of a trace, and which histories the fixed contracts accept.
 */
module TraceContract {
  import opened Base
  import opened TestRunner
  import opened Harness
  import opened HarnessOutcomes
  import opened Trace

  datatype EventType = ActionType | DecisionType | TestType | FeedbackType | TerminalType

  function TypeOfEvent(e: Event): EventType {
    match e
    case ActionSelected(_, _) => ActionType
    case PolicyDecided(_, _, _) => DecisionType
    case TestCompleted(_, _) => TestType
    case FeedbackProduced(_, _) => FeedbackType
    case TerminalStatus(_, _) => TerminalType
  }

  function Types(events: seq<Event>): seq<EventType> {
    seq(|events|, i requires 0 <= i < |events| => TypeOfEvent(events[i]))
  }

  function Count(types: seq<EventType>, t: EventType): nat {
    if types == [] then 0
    else Count(types[..|types| - 1], t) + if types[|types| - 1] == t then 1 else 0
  }

  datatype CountRule = CountRule(eventType: EventType, minCount: nat, maxCount: nat)

  datatype Contract = Contract(
    rules: seq<CountRule>,
    transitions: seq<(EventType, EventType)>,
    required: TaskStatus,
    maxEvents: nat)

  predicate MeetsRule(rule: CountRule, events: seq<Event>) {
    rule.minCount <= Count(Types(events), rule.eventType) <= rule.maxCount
  }

  predicate EndsWith(events: seq<Event>, status: TaskStatus) {
    |events| > 0 && OnlyTerminalAt(events, |events| - 1) && events[|events| - 1].status == status
  }

  predicate Satisfies(c: Contract, events: seq<Event>) {
    && |events| <= c.maxEvents
    && (forall i :: 0 <= i < |events| ==> events[i].sequence == i)
    && (forall k :: 0 <= k < |c.rules| ==> MeetsRule(c.rules[k], events))
    && (forall i :: 0 < i < |events| ==> (TypeOfEvent(events[i - 1]), TypeOfEvent(events[i])) in c.transitions)
    && EndsWith(events, c.required)
  }

  /** Where the events of a type are. */
  function Positions(events: seq<Event>, t: EventType): set<nat> {
    set i: nat | i < |events| && TypeOfEvent(events[i]) == t
  }

  lemma PositionsNext(events: seq<Event>, t: EventType)
    requires events != []
    ensures var front, n := events[..|events| - 1], |events| - 1;
            && n !in Positions(front, t)
            && Positions(events, t) == Positions(front, t) + if TypeOfEvent(events[n]) == t then {n} else {}
  {
    hide TypeOfEvent;
  }

  lemma {:induction false} CountIsSize(events: seq<Event>, t: EventType)
    ensures Count(Types(events), t) == |Positions(events, t)|
    decreases |events|
  {
    if events == [] {
      assert Positions([], t) == {};
    } else {
      hide Positions, TypeOfEvent;
      var front, n := events[..|events| - 1], |events| - 1;
      CountIsSize(front, t);
      assert Types(events)[..n] == Types(front);
      PositionsNext(events, t);
    }
  }

  /**
   * When a trace meets a contract: it is short enough, its events are numbered from 0, there are as many of each type
   * as the rules allow, each follows another that it may follow, and the last one and no other is a terminal status,
   * the required one.
   */
  lemma SatisfiesExactly(c: Contract, events: seq<Event>)
    ensures Satisfies(c, events) <==>
            && |events| <= c.maxEvents
            && (forall i :: 0 <= i < |events| ==> events[i].sequence == i)
            && (forall rule :: rule in c.rules ==>
                  rule.minCount <= |Positions(events, rule.eventType)| <= rule.maxCount)
            && (forall i :: 0 < i < |events| ==>
                  (TypeOfEvent(events[i - 1]), TypeOfEvent(events[i])) in c.transitions)
            && events != []
            && (forall i :: 0 <= i < |events| ==> (events[i].TerminalStatus? <==> i == |events| - 1))
            && events[|events| - 1] == TerminalStatus(c.required, |events| - 1)
  {
    hide Count, Positions, Types;
    forall t {
      CountIsSize(events, t);
    }
    assert forall k :: 0 <= k < |c.rules| ==> c.rules[k] in c.rules;
  }

  // ---------------------------------------------------------------- checking a contract

  /** The positions of the terminal statuses. */
  method TerminalEvents(events: seq<Event>) returns (terminals: seq<nat>)
    ensures forall i: nat :: OnlyTerminalAt(events, i) <==> terminals == [i]
  {
    terminals := [];
    for i := 0 to |events|
      invariant forall k :: 0 <= k < |terminals| ==> terminals[k] < i && events[terminals[k]].TerminalStatus?
      invariant forall k, m :: 0 <= k < m < |terminals| ==> terminals[k] < terminals[m]
      invariant forall j :: 0 <= j < i && events[j].TerminalStatus? ==> j in terminals
    {
      if events[i].TerminalStatus? {
        terminals := terminals + [i];
      }
    }
    assert |terminals| >= 2 ==> terminals[0] < terminals[1];
    forall i: nat ensures OnlyTerminalAt(events, i) <==> terminals == [i] {
      if OnlyTerminalAt(events, i) {
        assert i in terminals;
        assert forall k :: 0 <= k < |terminals| ==> terminals[k] == i;
      }
      if terminals == [i] {
        assert terminals[0] == i;
        assert forall j :: 0 <= j < |events| && events[j].TerminalStatus? ==> j in terminals;
      }
    }
  }

  method Counts(events: seq<Event>) returns (counts: map<EventType, nat>)
    ensures forall t :: (if t in counts then counts[t] else 0) == Count(Types(events), t)
  {
    counts := map[];
    for i := 0 to |events|
      invariant forall t :: (if t in counts then counts[t] else 0) == Count(Types(events[..i]), t)
    {
      var t := TypeOfEvent(events[i]);
      counts := counts[t := (if t in counts then counts[t] else 0) + 1];
      assert Types(events[..i + 1])[..i] == Types(events[..i]);
    }
    assert events[..|events|] == events;
  }

  method Validate(c: Contract, events: seq<Event>) returns (valid: bool)
    ensures valid <==> Satisfies(c, events)
  {
    hide Types;
    if |events| > c.maxEvents { return false; }
    for i := 0 to |events|
      invariant forall j :: 0 <= j < i ==> events[j].sequence == j
    {
      if events[i].sequence != i { return false; }
    }
    var counts := Counts(events);
    for k := 0 to |c.rules|
      invariant forall j :: 0 <= j < k ==> MeetsRule(c.rules[j], events)
    {
      var rule := c.rules[k];
      var observed := if rule.eventType in counts then counts[rule.eventType] else 0;
      if !(rule.minCount <= observed <= rule.maxCount) {
        assert !MeetsRule(c.rules[k], events);
        return false;
      }
    }
    var allowed := set t | t in c.transitions;
    var i := 1;
    while i < |events|
      invariant forall j :: 0 < j < i && j < |events| ==>
                            (TypeOfEvent(events[j - 1]), TypeOfEvent(events[j])) in c.transitions
    {
      if (TypeOfEvent(events[i - 1]), TypeOfEvent(events[i])) !in allowed { return false; }
      i := i + 1;
    }
    var terminals := TerminalEvents(events);
    if |terminals| != 1 { return false; }
    var n := |events| - 1;
    assert terminals == [terminals[0]];
    if terminals[0] != n { return false; }
    valid := events[n].status == c.required;
  }

  // ---------------------------------------------------------------- the view of a trace

  datatype View = View(events: seq<Event>, status: TaskStatus)

  /** The model validator of `ExecutionTraceView`. */
  predicate ValidView(v: View) {
    v.events != [] ==> v.events[|v.events| - 1].TerminalStatus? && v.events[|v.events| - 1].status == v.status
  }

  /** The view that `from_events` makes of a trace whose only terminal status is its last event. */
  function ViewOf(events: seq<Event>): Option<View> {
    if |events| > 0 && OnlyTerminalAt(events, |events| - 1)
      then Some(View(events, events[|events| - 1].status)) else None
  }

  method FromEvents(events: seq<Event>) returns (view: Option<View>)
    ensures view == ViewOf(events)
    ensures view.Some? ==> ValidView(view.value)
  {
    var terminals := TerminalEvents(events);
    if |terminals| != 1 { return None; }
    assert terminals == [terminals[0]];
    if terminals[0] != |events| - 1 { return None; }
    view := Some(View(events, events[terminals[0]].status));
  }

  /** Every trace that meets a contract is made a view, with the status that the contract requires. */
  lemma ContractGivesView(c: Contract, events: seq<Event>)
    requires Satisfies(c, events)
    ensures ViewOf(events) == Some(View(events, c.required))
  {
  }

  /** Every built trace is made a view, with the session's status. */
  lemma BuiltTraceGivesView(history: seq<HistoryEntry>, status: TaskStatus, fold: string -> string)
    requires TraceOf(history, status, fold).Some?
    ensures ViewOf(TraceOf(history, status, fold).value) == Some(View(TraceOf(history, status, fold).value, status))
  {
    hide Tell, Coherent;
    BuiltTraceIsCoherent(history, status, fold);
  }

  // ---------------------------------------------------------------- the types of a built trace

  /** The types of the events told of one entry. */
  function EntryTypes(e: HistoryEntry): seq<EventType> {
    if e.actionType == "apply_patch" || e.actionType == "request_human" then [ActionType]
    else if e.actionType == "full_test" then [TestType, FeedbackType]
    else [ActionType, DecisionType]
  }

  function ToldTypes(history: seq<HistoryEntry>): seq<EventType> {
    if history == [] then []
    else ToldTypes(history[..|history| - 1]) + EntryTypes(history[|history| - 1])
  }

  lemma {:induction false} ToldTypesCorrect(history: seq<HistoryEntry>, fold: string -> string)
    requires Tell(history, fold).Some?
    ensures Types(Tell(history, fold).value.events) == ToldTypes(history)
    decreases |history|
  {
    hide TestOutcome;
    if history != [] {
      ToldTypesCorrect(history[..|history| - 1], fold);
      EntryTypesCorrect(history[|history| - 1], |Tell(history[..|history| - 1], fold).value.events|,
        Tell(history[..|history| - 1], fold).value.previous, fold);
    }
  }

  lemma EntryTypesCorrect(e: HistoryEntry, n: nat, previous: Option<TestRunOutcome>, fold: string -> string)
    requires EntryEvents(e, n, previous, fold).Some?
    ensures Types(EntryEvents(e, n, previous, fold).value) == EntryTypes(e)
  {
    hide TestOutcome;
  }

  /** The types of a whole trace are those of its history and the terminal status. */
  lemma TraceTypes(history: seq<HistoryEntry>, status: TaskStatus, fold: string -> string)
    requires TraceOf(history, status, fold).Some?
    ensures Types(TraceOf(history, status, fold).value) == ToldTypes(history) + [TerminalType]
  {
    ToldTypesCorrect(history, fold);
  }

  /** The last entry is told of by the last one or two events. */
  lemma LastEntry(history: seq<HistoryEntry>)
    requires ToldTypes(history) != []
    ensures history != []
    ensures var types, last := ToldTypes(history), EntryTypes(history[|history| - 1]);
            |last| <= |types| && types[|types| - |last|..] == last
              && ToldTypes(history[..|history| - 1]) == types[..|types| - |last|]
  {
    hide EntryTypes;
    var front := ToldTypes(history[..|history| - 1]);
    var last := EntryTypes(history[|history| - 1]);
    assert (front + last)[..|front|] == front && (front + last)[|front|..] == last;
  }

  // ---------------------------------------------------------------- the fixed contracts

  const FEEDBACK_SUCCESS := Contract(
    [CountRule(ActionType, 2, 2), CountRule(TestType, 2, 2), CountRule(FeedbackType, 2, 2),
      CountRule(TerminalType, 1, 1)],
    [(ActionType, TestType), (TestType, FeedbackType), (FeedbackType, ActionType), (FeedbackType, TerminalType)],
    Succeeded, 7)

  const GOVERNANCE_DENIED := Contract(
    [CountRule(ActionType, 1, 1), CountRule(DecisionType, 1, 1), CountRule(TerminalType, 1, 1)],
    [(ActionType, DecisionType), (DecisionType, TerminalType)],
    Stopped, 3)

  const HUMAN_REVIEW_PAUSE := Contract(
    [CountRule(ActionType, 1, 1), CountRule(TerminalType, 1, 1)],
    [(ActionType, TerminalType)],
    PausedForHuman, 2)

  const FEEDBACK_TYPES := [ActionType, TestType, FeedbackType, ActionType, TestType, FeedbackType, TerminalType]
  const DENIED_TYPES := [ActionType, DecisionType, TerminalType]
  const PAUSE_TYPES := [ActionType, TerminalType]

  lemma {:induction false} CountAppend(a: seq<EventType>, b: seq<EventType>, t: EventType)
    ensures Count(a + b, t) == Count(a, t) + Count(b, t)
    decreases |b|
  {
    if b == [] {
      assert a + b == a;
    } else {
      CountAppend(a, b[..|b| - 1], t);
      assert (a + b)[..|a + b| - 1] == a + b[..|b| - 1];
    }
  }

  /** Dropping events from the front of `all`, which starts with an action, loses an action. */
  lemma SuffixLosesAction(all: seq<EventType>, types: seq<EventType>)
    requires 0 < |all| && all[0] == ActionType
    requires |types| < |all| && types == all[|all| - |types|..]
    ensures Count(types, ActionType) < Count(all, ActionType)
  {
    hide Count;
    var dropped := all[..|all| - |types|];
    var rest := dropped[1..];
    CountAppend(dropped, types, ActionType);
    CountAppend([ActionType], rest, ActionType);
    OneAction();
    assert [ActionType] + rest == dropped;
    assert dropped + types == all;
  }

  lemma OneAction()
    ensures Count([ActionType], ActionType) == 1
  {
  }

  /** The types follow one another as the contract allows, and end the trace only at its end. */
  predicate Path(c: Contract, types: seq<EventType>) {
    && 0 < |types| <= c.maxEvents
    && (forall i :: 0 <= i < |types| ==> (types[i] == TerminalType <==> i == |types| - 1))
    && (forall i :: 0 < i < |types| ==> (types[i - 1], types[i]) in c.transitions)
  }

  /** The number of each type is as the contract's rules say. */
  predicate Counted(c: Contract, types: seq<EventType>) {
    forall k :: 0 <= k < |c.rules| ==> c.rules[k].minCount <= Count(types, c.rules[k].eventType) <= c.rules[k].maxCount
  }

  lemma FeedbackStep(types: seq<EventType>, i: nat)
    requires Path(FEEDBACK_SUCCESS, types) && 0 < i < |types|
    ensures types[i - 1] == match types[i]
                            case TerminalType => FeedbackType
                            case FeedbackType => TestType
                            case TestType => ActionType
                            case _ => FeedbackType
  {
    assert (types[i - 1], types[i]) in FEEDBACK_SUCCESS.transitions;
  }

  lemma FeedbackPath(types: seq<EventType>)
    requires Path(FEEDBACK_SUCCESS, types)
    ensures types == FEEDBACK_TYPES[7 - |types|..]
  {
    var n := |types|;
    PathEnds(FEEDBACK_SUCCESS, types);
    assert FEEDBACK_SUCCESS.maxEvents == 7;
    forall i | 0 <= i < n ensures types[i] == FEEDBACK_TYPES[7 - n + i] {
      FeedbackFromEnd(types, n - 1 - i);
    }
  }

  lemma PathEnds(c: Contract, types: seq<EventType>)
    requires Path(c, types)
    ensures 0 < |types| <= c.maxEvents && types[|types| - 1] == TerminalType
  {
  }

  lemma {:induction false} FeedbackFromEnd(types: seq<EventType>, k: nat)
    requires Path(FEEDBACK_SUCCESS, types) && k < |types| <= 7
    ensures types[|types| - 1 - k] == FEEDBACK_TYPES[6 - k]
  {
    hide Path;
    if k == 0 {
      PathEnds(FEEDBACK_SUCCESS, types);
    } else {
      FeedbackFromEnd(types, k - 1);
      FeedbackStep(types, |types| - k);
    }
  }

  lemma CountsOfTypes()
    ensures forall t :: Count(FEEDBACK_TYPES, t) == if t == DecisionType then 0 else if t == TerminalType then 1 else 2
    ensures forall t :: Count(DENIED_TYPES, t) == if t in DENIED_TYPES then 1 else 0
    ensures forall t :: Count(PAUSE_TYPES, t) == if t in PAUSE_TYPES then 1 else 0
  {
    var a, f := [ActionType], [ActionType, TestType, FeedbackType];
    assert forall t :: Count(PAUSE_TYPES, t) == Count(a, t) + if t == TerminalType then 1 else 0 by {
      assert PAUSE_TYPES[..1] == a;
    }
    assert forall t :: Count(DENIED_TYPES, t) == Count([ActionType, DecisionType], t) + if t == TerminalType
                       then 1 else 0 by {
      assert DENIED_TYPES[..2] == [ActionType, DecisionType];
    }
    assert forall t :: Count([ActionType, DecisionType], t) == Count(a, t) + if t == DecisionType then 1 else 0 by {
      assert [ActionType, DecisionType][..1] == a;
    }
    forall t ensures Count(f, t) == if t == DecisionType || t == TerminalType then 0 else 1 {
      assert f[..2] == [ActionType, TestType] && [ActionType, TestType][..1] == a;
    }
    forall t ensures Count(FEEDBACK_TYPES, t) == Count(f, t) + Count(f, t) + if t == TerminalType then 1 else 0 {
      CountAppend(f, f, t);
      assert FEEDBACK_TYPES[..6] == f + f;
    }
  }

  /**
   * A numbered trace with the right final status meets a contract exactly when its types form a path with the right
   * counts.
   */
  lemma SatisfiesByTypes(c: Contract, events: seq<Event>)
    requires events != [] && (forall i :: 0 <= i < |events| ==> events[i].sequence == i) && EndsWith(events, c.required)
    ensures Satisfies(c, events) <==>
            Path(c, Types(events)) && Counted(c, Types(events))
  {
    hide Count;
    var types := Types(events);
    assert forall i :: 0 <= i < |events| ==> (types[i] == TerminalType <==> events[i].TerminalStatus?);
    if Path(c, types) {
      forall i | 0 < i < |events| ensures (TypeOfEvent(events[i - 1]), TypeOfEvent(events[i])) in c.transitions {
        assert (types[i - 1], types[i]) in c.transitions;
      }
    }
    if Satisfies(c, events) {
      forall k | 0 <= k < |c.rules| ensures c.rules[k].minCount <= Count(types,
        c.rules[k].eventType) <= c.rules[k].maxCount {
        assert MeetsRule(c.rules[k], events);
      }
    }
  }

  lemma FeedbackTypesForced(types: seq<EventType>)
    ensures Path(FEEDBACK_SUCCESS, types) && Counted(FEEDBACK_SUCCESS, types) <==> types == FEEDBACK_TYPES
  {
    hide Count;
    CountsOfTypes();
    if Path(FEEDBACK_SUCCESS, types) {
      FeedbackPath(types);
      if |types| < 7 {
        SuffixLosesAction(FEEDBACK_TYPES, types);
        assert FEEDBACK_SUCCESS.rules[0] == CountRule(ActionType, 2, 2);
      }
    }
  }

  lemma DeniedTypesForced(types: seq<EventType>)
    ensures Path(GOVERNANCE_DENIED, types) && Counted(GOVERNANCE_DENIED, types) <==> types == DENIED_TYPES
  {
    hide Count;
    CountsOfTypes();
    if Path(GOVERNANCE_DENIED, types) {
      var n := |types|;
      assert n >= 2 ==> (types[n - 2], types[n - 1]) in GOVERNANCE_DENIED.transitions;
      assert n >= 3 ==> (types[n - 3], types[n - 2]) in GOVERNANCE_DENIED.transitions;
      assert types == DENIED_TYPES[3 - n..];
      if n < 3 {
        SuffixLosesAction(DENIED_TYPES, types);
        assert GOVERNANCE_DENIED.rules[0] == CountRule(ActionType, 1, 1);
      }
    }
  }

  lemma PauseTypesForced(types: seq<EventType>)
    ensures Path(HUMAN_REVIEW_PAUSE, types) && Counted(HUMAN_REVIEW_PAUSE, types) <==> types == PAUSE_TYPES
  {
    hide Count;
    CountsOfTypes();
    if Path(HUMAN_REVIEW_PAUSE, types) {
      var n := |types|;
      assert n >= 2 ==> (types[n - 2], types[n - 1]) in HUMAN_REVIEW_PAUSE.transitions;
      assert types == PAUSE_TYPES[2 - n..];
      if n < 2 {
        SuffixLosesAction(PAUSE_TYPES, types);
        assert HUMAN_REVIEW_PAUSE.rules[0] == CountRule(ActionType, 1, 1);
      }
    }
  }

  // ---------------------------------------------------------------- which histories the contracts accept

  /** The action types of a history, in order. */
  predicate Consists(history: seq<HistoryEntry>, actionTypes: seq<string>) {
    |history| == |actionTypes| && forall i :: 0 <= i < |history| ==> history[i].actionType == actionTypes[i]
  }

  /** Entries told as a lone action, as a test with its feedback, or as an action with a decision. */
  lemma EntryKinds(e: HistoryEntry, fold: string -> string)
    requires Tellable(e, fold)
    ensures e.actionType in {"apply_patch", "request_human", "full_test", "policy_deny"}
    ensures EntryTypes(e) == [ActionType] <==> e.actionType in {"apply_patch", "request_human"}
    ensures EntryTypes(e) == [TestType, FeedbackType] <==> e.actionType == "full_test"
    ensures EntryTypes(e) == [ActionType, DecisionType] <==> e.actionType == "policy_deny"
  {
    hide TestOutcome;
    assert "full_test"[0] != "policy_deny"[0] && "full_test"[0] != "apply_patch"[0]
      && "full_test"[0] != "request_human"[0];
    assert "policy_deny"[0] != "apply_patch"[0] && "policy_deny"[0] != "request_human"[0];
  }

  /**
   * The last entry is a test with its feedback exactly when the told types end so; and the same for the other kinds.
   */
  lemma LastKind(history: seq<HistoryEntry>, fold: string -> string)
    requires ToldTypes(history) != [] && (forall i :: 0 <= i < |history| ==> Tellable(history[i], fold))
    ensures history != []
    ensures var types, e := ToldTypes(history), history[|history| - 1];
            var front := ToldTypes(history[..|history| - 1]);
            && (types[|types| - 1] == ActionType ==> e.actionType in {"apply_patch", "request_human"}
                                                     && front == types[..|types| - 1])
            && (types[|types| - 1] == FeedbackType ==>
              e.actionType == "full_test" && |types| >= 2 && front == types[..|types| - 2])
            && (types[|types| - 1] == DecisionType ==>
              e.actionType == "policy_deny" && |types| >= 2 && front == types[..|types| - 2])
  {
    hide EntryTypes, ToldTypes, Tellable;
    LastEntry(history);
    var e := history[|history| - 1];
    EntryKinds(e, fold);
    var types := ToldTypes(history);
    assert types[|types| - |EntryTypes(e)|..][|EntryTypes(e)| - 1] == types[|types| - 1];
  }

  lemma PairedPrefix(history: seq<HistoryEntry>, i: nat)
    requires Paired(history) && i < |history|
    ensures history[i].actionType == "full_test" ==> i >= 1 && history[i - 1].actionType == "apply_patch"
    ensures history[i].actionType == "apply_patch" ==> i + 1 < |history|
  {
    assert PairedAt(history, i);
  }

  const TWO_ROUNDS := ["apply_patch", "full_test", "apply_patch", "full_test"]

  lemma TwoRoundsTold(history: seq<HistoryEntry>)
    requires Consists(history, TWO_ROUNDS)
    ensures ToldTypes(history) == FEEDBACK_TYPES[..6]
  {
    assert history[..3][..2] == history[..2] && history[..2][..1] == history[..1] && history[..1][..0] == [];
    FullTestIsNot();
    assert ToldTypes(history[..1]) == [ActionType];
    assert ToldTypes(history[..2]) == [ActionType, TestType, FeedbackType];
    assert ToldTypes(history[..3]) == [ActionType, TestType, FeedbackType, ActionType];
  }

  /** Types that end with a test and its feedback are told by entries that end with a patch and its test. */
  lemma LastRound(history: seq<HistoryEntry>, n: nat, rest: seq<EventType>, fold: string -> string)
    requires Paired(history) && (forall i :: 0 <= i < |history| ==> Tellable(history[i], fold))
    requires n <= |history| && ToldTypes(history[..n]) == rest + [ActionType, TestType, FeedbackType]
    ensures n >= 2 && history[n - 2].actionType == "apply_patch" && history[n - 1].actionType == "full_test"
    ensures ToldTypes(history[..n - 2]) == rest
  {
    hide ToldTypes, Tellable, Paired, EntryTypes;
    var types := ToldTypes(history[..n]);
    assert types[|types| - 1] == FeedbackType && types[..|types| - 2] == rest + [ActionType];
    LastEntryIs(history, n, fold);
    PairedPrefix(history, n - 1);
    LastEntryIs(history, n - 1, fold);
    assert (rest + [ActionType])[..|rest|] == rest;
  }

  /** The last of the first `n` entries, by the last type that they are told as. */
  lemma LastEntryIs(history: seq<HistoryEntry>, n: nat, fold: string -> string)
    requires n <= |history| && (forall i :: 0 <= i < |history| ==> Tellable(history[i], fold))
    requires ToldTypes(history[..n]) != []
    ensures n > 0
    ensures var types := ToldTypes(history[..n]);
            && (types[|types| - 1] == ActionType ==> ToldTypes(history[..n - 1]) == types[..|types| - 1])
            && (types[|types| - 1] == FeedbackType ==>
                  history[n - 1].actionType == "full_test" && |types| >= 2
                  && ToldTypes(history[..n - 1]) == types[..|types| - 2])
  {
    hide ToldTypes, Tellable, EntryTypes;
    LastKind(history[..n], fold);
    assert history[..n][..n - 1] == history[..n - 1];
  }

  const ROUND := [ActionType, TestType, FeedbackType]

  lemma TwoRoundsAre()
    ensures FEEDBACK_TYPES[..6] == ROUND + ROUND && ROUND == [] + ROUND
  {
  }

  lemma FourEntries(history: seq<HistoryEntry>)
    requires |history| == 4 && history[0].actionType == "apply_patch" && history[1].actionType == "full_test"
    requires history[2].actionType == "apply_patch" && history[3].actionType == "full_test"
    ensures Consists(history, TWO_ROUNDS)
  {
  }

  lemma TwoRoundsForced(history: seq<HistoryEntry>, fold: string -> string)
    requires Paired(history) && (forall i :: 0 <= i < |history| ==> Tellable(history[i], fold))
    requires ToldTypes(history) == ROUND + ROUND
    ensures Consists(history, TWO_ROUNDS)
  {
    hide ToldTypes, Tellable, Paired, Consists, EntryTypes;
    var n := |history|;
    assert history[..n] == history;
    LastRound(history, n, ROUND, fold);
    TwoRoundsAre();
    LastRound(history, n - 2, [], fold);
    NothingToldIsEmpty(history[..n - 4]);
    FourEntries(history);
  }

  lemma NothingToldIsEmpty(history: seq<HistoryEntry>)
    ensures ToldTypes(history) == [] ==> history == []
  {
  }

  /** When a built trace meets a contract, in terms of the types that its history is told as. */
  lemma BuiltByTypes(c: Contract, history: seq<HistoryEntry>, status: TaskStatus, fold: string -> string)
    requires TraceOf(history, status, fold).Some?
    ensures Satisfies(c, TraceOf(history, status, fold).value) <==>
            && status == c.required
            && Path(c, ToldTypes(history) + [TerminalType]) && Counted(c, ToldTypes(history) + [TerminalType])
    ensures forall i :: 0 <= i < |history| ==> Tellable(history[i], fold)
  {
    hide Tell, Count, Types, ToldTypes, Path, Coherent, Tellable, Counted;
    var trace := TraceOf(history, status, fold).value;
    BuiltTraceIsCoherent(history, status, fold);
    Numbered(trace);
    TraceTypes(history, status, fold);
    TraceExists(history, fold);
    if status == c.required {
      SatisfiesByTypes(c, trace);
    } else {
      StatusIsRequired(c, trace);
    }
  }

  lemma StatusIsRequired(c: Contract, trace: seq<Event>)
    ensures Satisfies(c, trace) ==> trace != [] && trace[|trace| - 1].TerminalStatus?
                                    && trace[|trace| - 1].status == c.required
  {
  }

  lemma LastTypeLost(types: seq<EventType>, more: seq<EventType>)
    requires types + [TerminalType] == more && |more| > 0
    ensures types == more[..|more| - 1]
  {
  }

  lemma RequiredStatuses()
    ensures FEEDBACK_SUCCESS.required == Succeeded && GOVERNANCE_DENIED.required == Stopped
            && HUMAN_REVIEW_PAUSE.required == PausedForHuman
  {
  }

  /**
   * The trace of a history with paired patches and tests meets the `feedback_success` contract exactly when the history
   * is two patches, each with its full test, and the session has succeeded.
   */
  lemma FeedbackContractExactly(history: seq<HistoryEntry>, status: TaskStatus, fold: string -> string)
    requires TraceOf(history, status, fold).Some? && Paired(history)
    ensures Satisfies(FEEDBACK_SUCCESS, TraceOf(history, status, fold).value) <==>
              Consists(history, TWO_ROUNDS) && status == Succeeded
  {
    hide Satisfies, TraceOf, Count, ToldTypes, Path, Counted, Paired, Tellable, Consists;
    BuiltByTypes(FEEDBACK_SUCCESS, history, status, fold);
    RequiredStatuses();
    FeedbackTypesForced(ToldTypes(history) + [TerminalType]);
    TwoRoundsAre();
    assert FEEDBACK_TYPES[..6] + [TerminalType] == FEEDBACK_TYPES;
    if Consists(history, TWO_ROUNDS) {
      TwoRoundsTold(history);
    }
    if ToldTypes(history) + [TerminalType] == FEEDBACK_TYPES {
      LastTypeLost(ToldTypes(history), FEEDBACK_TYPES);
      TwoRoundsForced(history, fold);
    }
  }

  lemma Numbered(trace: seq<Event>)
    requires |trace| > 0 && Coherent(trace[..|trace| - 1]) && trace[|trace| - 1].sequence == |trace| - 1
    ensures forall i :: 0 <= i < |trace| ==> trace[i].sequence == i
  {
    forall i | 0 <= i < |trace| - 1 ensures trace[i].sequence == i {
      assert EventAt(trace[..|trace| - 1], i);
    }
  }

  /**
   * The `governance_denied` contract is met exactly by a lone denial that protected the tests and stopped the session.
   */
  lemma DeniedContractExactly(history: seq<HistoryEntry>, status: TaskStatus, fold: string -> string)
    requires TraceOf(history, status, fold).Some?
    ensures Satisfies(GOVERNANCE_DENIED, TraceOf(history, status, fold).value) <==>
            history == [HistoryEntry("policy_deny", "test_asset_protection")] && status == Stopped
  {
    hide Satisfies, TraceOf, Count, ToldTypes, Path, Counted, TestOutcome;
    BuiltByTypes(GOVERNANCE_DENIED, history, status, fold);
    RequiredStatuses();
    DeniedTypesForced(ToldTypes(history) + [TerminalType]);
    if history == [HistoryEntry("policy_deny", "test_asset_protection")] {
      DenialTold(history);
    }
    if ToldTypes(history) + [TerminalType] == DENIED_TYPES {
      LastTypeLost(ToldTypes(history), DENIED_TYPES);
      LoneDenial(history, fold);
    }
  }

  lemma LoneDenial(history: seq<HistoryEntry>, fold: string -> string)
    requires forall i :: 0 <= i < |history| ==> Tellable(history[i], fold)
    requires ToldTypes(history) == [ActionType, DecisionType]
    ensures history == [HistoryEntry("policy_deny", "test_asset_protection")]
  {
    hide ToldTypes, TestOutcome;
    LastKind(history, fold);
    NothingToldIsEmpty(history[..|history| - 1]);
    assert history == [history[0]] && Tellable(history[0], fold);
    DenialIsNot();
  }

  lemma DenialIsNot()
    ensures "policy_deny" != "apply_patch" && "policy_deny" != "request_human" && "policy_deny" != "full_test"
  {
    assert "policy_deny"[0] != "apply_patch"[0] && "policy_deny"[0] != "request_human"[0]
      && "policy_deny"[0] != "full_test"[0];
  }

  lemma DenialTold(history: seq<HistoryEntry>)
    requires |history| == 1
    ensures history[0].actionType == "policy_deny" ==> ToldTypes(history) == [ActionType, DecisionType]
    ensures history[0].actionType == "request_human" ==> ToldTypes(history) == [ActionType]
  {
    DenialIsNot();
    assert history[..0] == [];
  }

  /** The `human_review_pause` contract is met exactly by a lone request for a human that paused the session. */
  lemma PauseContractExactly(history: seq<HistoryEntry>, status: TaskStatus, fold: string -> string)
    requires TraceOf(history, status, fold).Some? && Paired(history)
    ensures Satisfies(HUMAN_REVIEW_PAUSE, TraceOf(history, status, fold).value) <==>
            Consists(history, ["request_human"]) && status == PausedForHuman
  {
    hide Satisfies, TraceOf, Count, ToldTypes, Path, Counted, Paired, Tellable, Consists;
    BuiltByTypes(HUMAN_REVIEW_PAUSE, history, status, fold);
    RequiredStatuses();
    PauseTypesForced(ToldTypes(history) + [TerminalType]);
    if Consists(history, ["request_human"]) {
      RequestTold(history);
    }
    if ToldTypes(history) + [TerminalType] == PAUSE_TYPES {
      LastTypeLost(ToldTypes(history), PAUSE_TYPES);
      LoneRequest(history, fold);
    }
  }

  lemma RequestTold(history: seq<HistoryEntry>)
    requires Consists(history, ["request_human"])
    ensures ToldTypes(history) == [ActionType]
  {
    hide ToldTypes;
    DenialTold(history);
  }

  lemma LoneRequest(history: seq<HistoryEntry>, fold: string -> string)
    requires Paired(history) && (forall i :: 0 <= i < |history| ==> Tellable(history[i], fold))
    requires ToldTypes(history) == [ActionType]
    ensures Consists(history, ["request_human"])
  {
    hide ToldTypes, Tellable, Paired;
    LastKind(history, fold);
    NothingToldIsEmpty(history[..|history| - 1]);
    PairedPrefix(history, 0);
  }
}
