/** Event-driven replanning in app/application/planning_boundary_service.py: which tasks are frozen, what was spent, and
    how a planned suffix is joined to the frozen prefix. */
module Replan {
  import opened Prelude

  datatype EventType = Start | Complete | Skip | Expense

  datatype Event = Event(trip: nat, plan: nat, task: string, kind: EventType, amount: Option<int>)

  /** One task fact; everything but its id and order is carried as `body`. */
  datatype Fact = Fact(taskId: string, order: nat, body: nat)

  datatype Error =
    | CurrentFactsMismatch | EventsRequired | TripMismatch(at: nat) | PlanMismatch(at: nat) | TaskNotFound(at: nat) | AmountRequired
    | ExpenseIncomplete | ExpenseRequired
    | SuffixEmpty | PlannerFailed | SuffixLength | SuffixFact(at: nat) | SuffixOrder(at: nat) | SuffixFrozen(at: nat)
    | SuffixMoved(at: nat) | SuffixDuplicate(at: nat)

  /** The plan the events must belong to: its trip, its id, and the ids and order numbers of its tasks. */
  datatype Plan = Plan(trip: nat, id: nat, tasks: seq<string>, orders: seq<nat>)

  predicate DistinctTasks(tasks: seq<string>) {
    forall i, j :: 0 <= i < j < |tasks| ==> tasks[i] != tasks[j]
  }

  // ---- What the events say -----------------------------------------------------------------

  /** The first test the event fails. */
  function Fault(e: Event, at: nat, plan: Plan): Option<Error> {
    if e.trip != plan.trip then Some(TripMismatch(at))
    else if e.plan != plan.id then Some(PlanMismatch(at))
    else if e.task !in plan.tasks then Some(TaskNotFound(at))
    else if e.kind == Expense && e.amount.None? then Some(AmountRequired)
    else None
  }

  function FirstFault(events: seq<Event>, n: nat, plan: Plan): Option<Error>
    requires n <= |events|
  {
    if n == 0 then None
    else if FirstFault(events, n - 1, plan).Some? then FirstFault(events, n - 1, plan)
    else Fault(events[n - 1], n - 1, plan)
  }

  predicate Freezes(e: Event) {
    e.kind != Expense
  }

  function TasksOf(events: seq<Event>, kind: EventType): set<string> {
    set i | 0 <= i < |events| && events[i].kind == kind :: events[i].task
  }

  function FrozenTasks(events: seq<Event>): set<string> {
    set i | 0 <= i < |events| && Freezes(events[i]) :: events[i].task
  }

  function Spent(events: seq<Event>): int {
    if events == [] then 0
    else
      var last := events[|events| - 1];
      Spent(events[..|events| - 1]) + (if last.kind == Expense && last.amount.Some? then last.amount.value else 0)
  }

  /** The projection refuses: the first faulty event, then missing expenses. */
  function Refusal(events: seq<Event>, plan: Plan): Option<Error> {
    if events == [] then Some(EventsRequired)
    else if FirstFault(events, |events|, plan).Some? then FirstFault(events, |events|, plan)
    else if !(TasksOf(events, Complete) <= TasksOf(events, Expense)) then Some(ExpenseIncomplete)
    else if TasksOf(events, Expense) == {} then Some(ExpenseRequired)
    else None
  }

  /** The shortest prefix of the plan that holds every started, completed or skipped task. */
  ghost predicate IsFrozenPrefix(n: nat, events: seq<Event>, plan: Plan) {
    && n <= |plan.tasks|
    && (forall t :: t in FrozenTasks(events) ==> t in plan.tasks[..n])
    && (n > 0 ==> plan.tasks[n - 1] in FrozenTasks(events))
  }

  function IndexOf(tasks: seq<string>, t: string): (i: nat)
    requires t in tasks
    ensures i < |tasks| && tasks[i] == t
  {
    if tasks[0] == t then 0 else 1 + IndexOf(tasks[1..], t)
  }

  /** `_project_event_prefix`: one pass over the events. */
  method ProjectEventPrefix(events: seq<Event>, plan: Plan) returns (r: Result<(nat, int), Error>)
    requires DistinctTasks(plan.tasks)
    ensures r.Err? <==> Refusal(events, plan).Some?
    ensures r.Err? ==> r.error == Refusal(events, plan).value
    ensures r.Ok? ==> IsFrozenPrefix(r.value.0, events, plan) && r.value.1 == Spent(events)
    ensures r.Ok? ==>
      && r.value.0 <= |plan.tasks|
      && (forall i :: 0 <= i < |events| && (events[i].kind.Start? || events[i].kind.Complete? || events[i].kind.Skip?) ==>
            events[i].task in plan.tasks[..r.value.0])
      && (r.value.0 > 0 ==>
            exists i :: 0 <= i < |events| && (events[i].kind.Start? || events[i].kind.Complete? || events[i].kind.Skip?) &&
                        events[i].task == plan.tasks[r.value.0 - 1])
  {
    hide TasksOf, FrozenTasks, Spent, Fault;
    if events == [] {
      return Err(EventsRequired);
    }
    NothingYet(events, plan);
    var prefix := 0;
    var expensed: set<string> := {};
    var completed: set<string> := {};
    var spent := 0;
    var i := 0;
    while i < |events|
      invariant 0 <= i <= |events|
      invariant FirstFault(events, i, plan).None?
      invariant expensed == TasksOf(events[..i], Expense) && completed == TasksOf(events[..i], Complete)
      invariant spent == Spent(events[..i])
      invariant IsFrozenPrefix(prefix, events[..i], plan)
    {
      var e := events[i];
      if Fault(e, i, plan).Some? {
        FaultStays(events, i + 1, |events|, plan);
        return Err(Fault(e, i, plan).value);
      }
      NoFaultMeansKnown(e, i, plan);
      Extends(events, i, plan, prefix);
      if e.kind == Expense {
        expensed := expensed + {e.task};
        spent := spent + e.amount.value;
      } else {
        if e.kind == Complete {
          completed := completed + {e.task};
        }
        var index := IndexOf(plan.tasks, e.task);
        if prefix < index + 1 {
          prefix := index + 1;
        }
      }
      i := i + 1;
    }
    assert events[..i] == events;
    if !(completed <= expensed) {
      return Err(ExpenseIncomplete);
    }
    if expensed == {} {
      return Err(ExpenseRequired);
    }
    PrefixMeans(prefix, events, plan);
    return Ok((prefix, spent));
  }

  /** The frozen prefix, by the kinds of the events. */
  lemma PrefixMeans(n: nat, events: seq<Event>, plan: Plan)
    ensures IsFrozenPrefix(n, events, plan) <==>
      && n <= |plan.tasks|
      && (forall i :: 0 <= i < |events| && (events[i].kind.Start? || events[i].kind.Complete? || events[i].kind.Skip?) ==>
            events[i].task in plan.tasks[..n])
      && (n > 0 ==>
            exists i :: 0 <= i < |events| && (events[i].kind.Start? || events[i].kind.Complete? || events[i].kind.Skip?) &&
                        events[i].task == plan.tasks[n - 1])
  {
    forall i | 0 <= i < |events|
      ensures Freezes(events[i]) <==> events[i].kind.Start? || events[i].kind.Complete? || events[i].kind.Skip?
      ensures Freezes(events[i]) ==> events[i].task in FrozenTasks(events)
    {
    }
  }

  lemma NothingYet(events: seq<Event>, plan: Plan)
    ensures forall kind :: TasksOf(events[..0], kind) == {}
    ensures Spent(events[..0]) == 0 && IsFrozenPrefix(0, events[..0], plan)
  {
  }

  lemma NoFaultMeansKnown(e: Event, at: nat, plan: Plan)
    requires Fault(e, at, plan).None?
    ensures e.task in plan.tasks && (e.kind == Expense ==> e.amount.Some?)
  {
  }

  lemma {:induction false} FaultStays(events: seq<Event>, m: nat, n: nat, plan: Plan)
    requires m <= n <= |events| && FirstFault(events, m, plan).Some?
    ensures FirstFault(events, n, plan) == FirstFault(events, m, plan)
  {
    if m < n {
      FaultStays(events, m, n - 1, plan);
    }
  }

  /** What one more event adds. */
  lemma Extends(events: seq<Event>, i: nat, plan: Plan, prefix: nat)
    requires i < |events| && DistinctTasks(plan.tasks) && events[i].task in plan.tasks
    requires IsFrozenPrefix(prefix, events[..i], plan)
    ensures var e, shorter, longer := events[i], events[..i], events[..i + 1];
      && TasksOf(longer, Expense) == TasksOf(shorter, Expense) + (if e.kind == Expense then {e.task} else {})
      && TasksOf(longer, Complete) == TasksOf(shorter, Complete) + (if e.kind == Complete then {e.task} else {})
      && Spent(longer) == Spent(shorter) + (if e.kind == Expense && e.amount.Some? then e.amount.value else 0)
      && IsFrozenPrefix(
           if Freezes(e) && prefix < IndexOf(plan.tasks, e.task) + 1 then IndexOf(plan.tasks, e.task) + 1 else prefix, longer, plan)
  {
    var e, shorter, longer := events[i], events[..i], events[..i + 1];
    assert longer == shorter + [e];
    AppendTasks(shorter, e);
    assert longer[..|longer| - 1] == shorter;
    var index := IndexOf(plan.tasks, e.task);
    var next := if Freezes(e) && prefix < index + 1 then index + 1 else prefix;
    forall t | t in FrozenTasks(longer)
      ensures t in plan.tasks[..next]
    {
      if t in FrozenTasks(shorter) {
        assert t in plan.tasks[..prefix];
        var k :| 0 <= k < prefix && plan.tasks[k] == t;
        assert plan.tasks[..next][k] == t;
      } else {
        assert plan.tasks[..next][index] == e.task;
      }
    }
  }

  lemma AppendTasks(events: seq<Event>, e: Event)
    ensures forall kind :: TasksOf(events + [e], kind) == TasksOf(events, kind) + (if e.kind == kind then {e.task} else {})
    ensures FrozenTasks(events + [e]) == FrozenTasks(events) + (if Freezes(e) then {e.task} else {})
  {
    var longer := events + [e];
    forall kind
      ensures TasksOf(longer, kind) == TasksOf(events, kind) + (if e.kind == kind then {e.task} else {})
    {
      forall t | t in TasksOf(events, kind) + (if e.kind == kind then {e.task} else {})
        ensures t in TasksOf(longer, kind)
      {
        if t in TasksOf(events, kind) {
          var i :| 0 <= i < |events| && events[i].kind == kind && events[i].task == t;
          assert longer[i] == events[i];
        } else {
          assert longer[|events|] == e;
        }
      }
    }
    forall t | t in FrozenTasks(events) + (if Freezes(e) then {e.task} else {})
      ensures t in FrozenTasks(longer)
    {
      if t in FrozenTasks(events) {
        var i :| 0 <= i < |events| && Freezes(events[i]) && events[i].task == t;
        assert longer[i] == events[i];
      } else {
        assert longer[|events|] == e;
      }
    }
  }

  // ---- The suffix --------------------------------------------------------------------------

  predicate Keeps(original: seq<Fact>, f: Fact) {
    forall i :: 0 <= i < |original| && original[i].taskId == f.taskId ==> original[i].order == f.order
  }

  /** The first test the planned suffix fails; `strict` re-validates one fact. */
  function SuffixFault(
    planned: seq<Fact>, original: seq<Fact>, frozen: seq<string>, start: nat, strict: Fact -> bool, n: nat): Option<Error>
    requires n <= |planned|
  {
    if n == 0 then None
    else
      var before := SuffixFault(planned, original, frozen, start, strict, n - 1);
      var f := planned[n - 1];
      if before.Some? then before
      else if !strict(f) then Some(SuffixFact(n - 1))
      else if f.order != start + (n - 1) then Some(SuffixOrder(n - 1))
      else if f.taskId in frozen then Some(SuffixFrozen(n - 1))
      else if !Keeps(original, f) then Some(SuffixMoved(n - 1))
      else if exists j :: 0 <= j < n - 1 && planned[j].taskId == f.taskId then Some(SuffixDuplicate(n - 1))
      else None
  }

  /** `_normalize_suffix_facts`; the original suffix has distinct ids. */
  method NormalizeSuffixFacts(
    planned: seq<Fact>, original: seq<Fact>, frozen: seq<string>, start: nat, strict: Fact -> bool)
    returns (r: Result<seq<Fact>, Error>)
    requires forall i, j :: 0 <= i < j < |original| ==> original[i].taskId != original[j].taskId
    ensures |planned| != |original| ==> r == Err(SuffixLength)
    ensures |planned| == |original| ==>
      var fault := SuffixFault(planned, original, frozen, start, strict, |planned|);
      r == if fault.Some? then Err(fault.value) else Ok(planned)
  {
    if |planned| != |original| {
      return Err(SuffixLength);
    }
    var orderOf := OrdersByTask(original);
    var seen: set<string> := {};
    var output: seq<Fact> := [];
    var i := 0;
    while i < |planned|
      invariant 0 <= i <= |planned|
      invariant SuffixFault(planned, original, frozen, start, strict, i).None?
      invariant seen == set j | 0 <= j < i :: planned[j].taskId
      invariant output == planned[..i]
    {
      var f := planned[i];
      var fault: Option<Error> := None;
      if !strict(f) {
        fault := Some(SuffixFact(i));
      } else if f.order != start + i {
        fault := Some(SuffixOrder(i));
      } else if f.taskId in frozen {
        fault := Some(SuffixFrozen(i));
      } else if f.taskId in orderOf && orderOf[f.taskId] != f.order {
        fault := Some(SuffixMoved(i));
      } else if f.taskId in seen {
        fault := Some(SuffixDuplicate(i));
      }
      assert Keeps(original, f) <==> !(f.taskId in orderOf && orderOf[f.taskId] != f.order);
      if fault.Some? {
        SuffixFaultStays(planned, original, frozen, start, strict, i + 1, |planned|);
        return Err(fault.value);
      }
      seen := seen + {f.taskId};
      output := output + [f];
      i := i + 1;
    }
    assert planned[..i] == planned;
    return Ok(output);
  }

  method OrdersByTask(original: seq<Fact>) returns (orders: map<string, nat>)
    requires forall i, j :: 0 <= i < j < |original| ==> original[i].taskId != original[j].taskId
    ensures forall t :: t in orders <==> exists i :: 0 <= i < |original| && original[i].taskId == t
    ensures forall i :: 0 <= i < |original| ==> original[i].taskId in orders && orders[original[i].taskId] == original[i].order
  {
    orders := map[];
    var i := 0;
    while i < |original|
      invariant 0 <= i <= |original|
      invariant forall t :: t in orders <==> exists j :: 0 <= j < i && original[j].taskId == t
      invariant forall j :: 0 <= j < i ==> original[j].taskId in orders && orders[original[j].taskId] == original[j].order
    {
      orders := orders[original[i].taskId := original[i].order];
      i := i + 1;
    }
  }

  lemma {:induction false} SuffixFaultStays(
    planned: seq<Fact>, original: seq<Fact>, frozen: seq<string>, start: nat, strict: Fact -> bool, m: nat, n: nat)
    requires m <= n <= |planned| && SuffixFault(planned, original, frozen, start, strict, m).Some?
    ensures SuffixFault(planned, original, frozen, start, strict, n) == SuffixFault(planned, original, frozen, start, strict, m)
  {
    if m < n {
      SuffixFaultStays(planned, original, frozen, start, strict, m, n - 1);
    }
  }

  // ---- The assembled request ---------------------------------------------------------------

  /** What a CandidatePlanRequest validates about ids and orders. */
  predicate WellOrdered(facts: seq<Fact>) {
    && (forall i :: 0 <= i < |facts| ==> facts[i].order == i + 1)
    && (forall i, j :: 0 <= i < j < |facts| ==> facts[i].taskId != facts[j].taskId)
  }

  /** `_require_current_request_matches_plan`: the same ids and the same order numbers, position by position. */
  predicate SameTasks(facts: seq<Fact>, plan: Plan) {
    && |facts| == |plan.tasks| == |plan.orders|
    && forall i :: 0 <= i < |facts| ==> facts[i].taskId == plan.tasks[i] && facts[i].order == plan.orders[i]
  }

  /** What the planner is asked and what it answers: nothing, or a suffix. */
  datatype Planner = Planner(plan: (seq<Fact>, seq<string>, int) -> Option<seq<Fact>>)

  /** The outcome once the first n tasks are known to be frozen. */
  function SuffixOutcome(
    n: nat, facts: seq<Fact>, plan: Plan, spent: int, planner: Planner, strict: Fact -> bool): Result<(seq<Fact>, seq<string>), Error>
    requires n <= |facts| == |plan.tasks|
  {
    if n == |plan.tasks| then Err(SuffixEmpty)
    else
      var answer := planner.plan(facts[n..], plan.tasks[..n], spent);
      if answer.None? then Err(PlannerFailed)
      else if |answer.value| != |facts| - n then Err(SuffixLength)
      else
        var fault := SuffixFault(answer.value, facts[n..], plan.tasks[..n], n + 1, strict, |answer.value|);
        if fault.Some? then Err(fault.value) else Ok((facts[..n] + answer.value, plan.tasks[..n]))
  }

  /** The outcome of the whole request, case by case. */
  ghost predicate Replanned(
    facts: seq<Fact>, plan: Plan, events: seq<Event>, planner: Planner, strict: Fact -> bool,
    r: Result<(seq<Fact>, seq<string>), Error>)
  {
    if !SameTasks(facts, plan) then r == Err(CurrentFactsMismatch)
    else if Refusal(events, plan).Some? then r == Err(Refusal(events, plan).value)
    else exists n: nat :: IsFrozenPrefix(n, events, plan) && r == SuffixOutcome(n, facts, plan, Spent(events), planner, strict)
  }

  lemma SameTasksDistinct(facts: seq<Fact>, plan: Plan)
    requires WellOrdered(facts) && SameTasks(facts, plan)
    ensures DistinctTasks(plan.tasks)
  {
    forall i, j | 0 <= i < j < |plan.tasks|
      ensures plan.tasks[i] != plan.tasks[j]
    {
      assert facts[i].taskId != facts[j].taskId;
    }
  }

  /** `_event_driven_candidate_request`, up to the final validation of the whole request. */
  method EventDrivenRequest(facts: seq<Fact>, plan: Plan, events: seq<Event>, planner: Planner, strict: Fact -> bool)
    returns (r: Result<(seq<Fact>, seq<string>), Error>)
    requires WellOrdered(facts)
    ensures Replanned(facts, plan, events, planner, strict, r)
  {
    hide IsFrozenPrefix, Refusal, Spent, SuffixFault;
    if !SameTasks(facts, plan) {
      return Err(CurrentFactsMismatch);
    }
    SameTasksDistinct(facts, plan);
    var projected := ProjectEventPrefix(events, plan);
    if projected.Err? {
      return Err(projected.error);
    }
    var n := projected.value.0;
    PrefixInPlan(n, events, plan);
    if n >= |plan.tasks| {
      return Err(SuffixEmpty);
    }
    var frozen := plan.tasks[..n];
    var original := facts[n..];
    var answer := planner.plan(original, frozen, projected.value.1);
    if answer.None? {
      return Err(PlannerFailed);
    }
    assert forall i :: 0 <= i < |original| ==> original[i] == facts[n + i];
    var suffix := NormalizeSuffixFacts(answer.value, original, frozen, n + 1, strict);
    if suffix.Err? {
      return Err(suffix.error);
    }
    return Ok((facts[..n] + suffix.value, frozen));
  }

  lemma PrefixInPlan(n: nat, events: seq<Event>, plan: Plan)
    requires IsFrozenPrefix(n, events, plan)
    ensures n <= |plan.tasks|
  {
  }

  /** The new list: the frozen facts untouched, then as many facts as before with fresh contiguous orders, unique ids,
      no frozen id, and every surviving id in its old slot. */
  ghost predicate Assembled(before: seq<Fact>, after: seq<Fact>, n: nat, frozen: seq<string>) {
    && n <= |before| && |after| == |before|
    && after[..n] == before[..n]
    && WellOrdered(after)
    && |frozen| == n && (forall i :: 0 <= i < n ==> frozen[i] == before[i].taskId)
    && (forall i :: n <= i < |after| ==> after[i].taskId !in frozen)
    && (forall i, j :: n <= i < |after| && n <= j < |before| && after[i].taskId == before[j].taskId ==> i == j)
  }

  lemma {:induction false} NoFaultMeans(
    planned: seq<Fact>, original: seq<Fact>, frozen: seq<string>, start: nat, strict: Fact -> bool, n: nat, i: nat)
    requires i < n <= |planned| && SuffixFault(planned, original, frozen, start, strict, n).None?
    ensures planned[i].order == start + i && planned[i].taskId !in frozen && Keeps(original, planned[i])
    ensures forall j :: 0 <= j < i ==> planned[j].taskId != planned[i].taskId
  {
    if i < n - 1 {
      NoFaultMeans(planned, original, frozen, start, strict, n - 1, i);
    }
  }

  lemma JoinIsSound(facts: seq<Fact>, plan: Plan, n: nat, suffix: seq<Fact>, strict: Fact -> bool)
    requires WellOrdered(facts) && SameTasks(facts, plan) && n <= |facts| && |suffix| == |facts| - n
    requires SuffixFault(suffix, facts[n..], plan.tasks[..n], n + 1, strict, |suffix|).None?
    ensures Assembled(facts, facts[..n] + suffix, n, plan.tasks[..n])
  {
    hide SuffixFault;
    var after, frozen := facts[..n] + suffix, plan.tasks[..n];
    forall i | n <= i < |after|
      ensures after[i].order == i + 1 && after[i].taskId !in frozen
      ensures forall j :: n <= j < i ==> after[j].taskId != after[i].taskId
      ensures forall j :: n <= j < |facts| && after[i].taskId == facts[j].taskId ==> i == j
    {
      NoFaultMeans(suffix, facts[n..], frozen, n + 1, strict, |suffix|, i - n);
      assert forall j :: n <= j < |facts| ==> facts[n..][j - n] == facts[j];
    }
    assert forall i :: 0 <= i < n ==> frozen[i] == facts[i].taskId && after[i] == facts[i];
    forall i, j | 0 <= i < j < |after|
      ensures after[i].taskId != after[j].taskId
    {
      if i < n && j >= n {
        assert frozen[i] == after[i].taskId;
      }
    }
  }
}
