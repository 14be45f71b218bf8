/** The event projection depends on what happened, not on the order it was reported in, and never takes anything back. */
module ReplanLaws {
  import opened Prelude
  import opened Replan

  lemma PrefixIsUnique(a: seq<Event>, b: seq<Event>, plan: Plan, m: nat, n: nat)
    requires DistinctTasks(plan.tasks) && FrozenTasks(a) <= FrozenTasks(b)
    requires IsFrozenPrefix(m, a, plan) && IsFrozenPrefix(n, b, plan)
    ensures m <= n
  {
    if m > 0 {
      var last := plan.tasks[m - 1];
      assert last in plan.tasks[..n];
      var k :| 0 <= k < n && plan.tasks[k] == last;
      assert k == m - 1;
    }
  }

  // ---- Reordering --------------------------------------------------------------------------

  lemma SameMembers(a: seq<Event>, b: seq<Event>)
    requires multiset(a) == multiset(b)
    ensures |a| == |b| && forall e :: e in a <==> e in b
  {
    assert |multiset(a)| == |a| && |multiset(b)| == |b|;
    forall e
      ensures e in a <==> e in b
    {
      assert e in a <==> e in multiset(a);
      assert e in b <==> e in multiset(b);
    }
  }

  lemma TasksByMembers(a: seq<Event>, b: seq<Event>)
    requires forall e :: e in a ==> e in b
    ensures forall kind :: TasksOf(a, kind) <= TasksOf(b, kind)
    ensures FrozenTasks(a) <= FrozenTasks(b)
  {
    forall kind, t | t in TasksOf(a, kind)
      ensures t in TasksOf(b, kind)
    {
      var i :| 0 <= i < |a| && a[i].kind == kind && a[i].task == t;
      assert a[i] in b;
      var j :| 0 <= j < |b| && b[j] == a[i];
    }
    forall t | t in FrozenTasks(a)
      ensures t in FrozenTasks(b)
    {
      var i :| 0 <= i < |a| && Freezes(a[i]) && a[i].task == t;
      assert a[i] in b;
      var j :| 0 <= j < |b| && b[j] == a[i];
    }
  }

  predicate Faulty(e: Event, plan: Plan) {
    Fault(e, 0, plan).Some?
  }

  lemma {:induction false} NoFaultIff(events: seq<Event>, n: nat, plan: Plan)
    requires n <= |events|
    ensures FirstFault(events, n, plan).None? <==> forall i :: 0 <= i < n ==> !Faulty(events[i], plan)
  {
    if n > 0 {
      NoFaultIff(events, n - 1, plan);
    }
  }

  lemma {:induction false} SpentOfAppend(a: seq<Event>, b: seq<Event>)
    ensures Spent(a + b) == Spent(a) + Spent(b)
  {
    if b == [] {
      assert a + b == a;
    } else {
      var front := b[..|b| - 1];
      assert (a + b)[..|a + b| - 1] == a + front;
      SpentOfAppend(a, front);
    }
  }

  /** An event taken out of the middle. */
  lemma SpentWithout(b: seq<Event>, j: nat)
    requires j < |b|
    ensures Spent(b) == Spent(b[..j] + b[j + 1..]) + Spent([b[j]])
    ensures multiset(b) == multiset(b[..j] + b[j + 1..]) + multiset{b[j]}
  {
    hide Spent;
    assert b == b[..j] + [b[j]] + b[j + 1..];
    SpentOfAppend(b[..j] + [b[j]], b[j + 1..]);
    SpentOfAppend(b[..j], [b[j]]);
    SpentOfAppend(b[..j], b[j + 1..]);
  }

  lemma WithoutBag(events: seq<Event>, i: nat)
    requires i < |events|
    ensures multiset(events[..i] + events[i + 1..]) == multiset(events) - multiset{events[i]}
    ensures |events[..i] + events[i + 1..]| == |events| - 1
  {
    assert events == events[..i] + ([events[i]] + events[i + 1..]);
  }

  lemma FirstElsewhere(a: seq<Event>, b: seq<Event>) returns (j: nat)
    requires multiset(a) == multiset(b) && a != []
    ensures j < |b| && b[j] == a[0]
    ensures multiset(a[..0] + a[1..]) == multiset(b[..j] + b[j + 1..]) && |a[..0] + a[1..]| < |a|
  {
    SameMembers(a, b);
    assert a[0] in b;
    j :| 0 <= j < |b| && b[j] == a[0];
    WithoutBag(a, 0);
    WithoutBag(b, j);
  }

  lemma {:induction false} SpentOfPermutation(a: seq<Event>, b: seq<Event>)
    requires multiset(a) == multiset(b)
    ensures Spent(a) == Spent(b)
    decreases |a|
  {
    if a == [] {
      SameMembers(a, b);
      assert b == [];
    } else {
      hide Spent;
      var j := FirstElsewhere(a, b);
      SpentWithout(a, 0);
      SpentWithout(b, j);
      SpentOfPermutation(a[..0] + a[1..], b[..j] + b[j + 1..]);
    }
  }

  /** The same events in another order are accepted or refused alike, freeze the same prefix and spend the same. */
  lemma OrderIsIrrelevant(a: seq<Event>, b: seq<Event>, plan: Plan, m: nat, n: nat)
    requires multiset(a) == multiset(b) && DistinctTasks(plan.tasks)
    ensures Refusal(a, plan).None? <==> Refusal(b, plan).None?
    ensures Spent(a) == Spent(b)
    ensures IsFrozenPrefix(m, a, plan) && IsFrozenPrefix(n, b, plan) ==> m == n
  {
    SameMembers(a, b);
    TasksByMembers(a, b);
    TasksByMembers(b, a);
    NoFaultIff(a, |a|, plan);
    NoFaultIff(b, |b|, plan);
    SpentOfPermutation(a, b);
    assert FirstFault(a, |a|, plan).None? <==> FirstFault(b, |b|, plan).None? by {
      FaultsAlike(a, b, plan);
    }
    assert forall kind :: TasksOf(a, kind) == TasksOf(b, kind);
    if IsFrozenPrefix(m, a, plan) && IsFrozenPrefix(n, b, plan) {
      PrefixIsUnique(a, b, plan, m, n);
      PrefixIsUnique(b, a, plan, n, m);
    }
  }

  lemma FaultsAlike(a: seq<Event>, b: seq<Event>, plan: Plan)
    requires forall e :: e in a <==> e in b
    ensures FirstFault(a, |a|, plan).None? <==> FirstFault(b, |b|, plan).None?
  {
    NoFaultIff(a, |a|, plan);
    NoFaultIff(b, |b|, plan);
    assert (forall i :: 0 <= i < |a| ==> !Faulty(a[i], plan)) <==> (forall e :: e in a ==> !Faulty(e, plan));
    assert (forall i :: 0 <= i < |b| ==> !Faulty(b[i], plan)) <==> (forall e :: e in b ==> !Faulty(e, plan));
  }

  // ---- Extension ---------------------------------------------------------------------------

  lemma {:induction false} SpentIsPositive(events: seq<Event>)
    requires forall e :: e in events && e.amount.Some? ==> e.amount.value >= 0
    ensures Spent(events) >= 0
  {
    if events != [] {
      var front, last := events[..|events| - 1], events[|events| - 1];
      assert last in events && forall e :: e in front ==> e in events;
      SpentIsPositive(front);
    }
  }

  /** Reporting more events never unfreezes a task and never lowers the spending. */
  lemma ExtensionNeverTakesBack(events: seq<Event>, more: seq<Event>, plan: Plan, m: nat, n: nat)
    requires DistinctTasks(plan.tasks)
    requires forall e :: e in more && e.amount.Some? ==> e.amount.value >= 0
    requires IsFrozenPrefix(m, events, plan) && IsFrozenPrefix(n, events + more, plan)
    ensures m <= n && plan.tasks[..m] <= plan.tasks[..n]
    ensures Spent(events) <= Spent(events + more)
  {
    TasksByMembers(events, events + more);
    PrefixIsUnique(events, events + more, plan, m, n);
    SpentOfAppend(events, more);
    SpentIsPositive(more);
  }

  // ---- The assembled request -----------------------------------------------------------------

  /** A request is accepted exactly when the stored facts are the plan's, the events are in order, some task is left, and
      the planner answers as many facts as are left without a fault. The accepted list is then the untouched frozen
      prefix and that suffix: unique ids, contiguous orders, no frozen id again, surviving ids in their slots. */
  lemma AcceptedIff(
    facts: seq<Fact>, plan: Plan, events: seq<Event>, planner: Planner, strict: Fact -> bool, n: nat,
    r: Result<(seq<Fact>, seq<string>), Error>)
    requires WellOrdered(facts) && Replanned(facts, plan, events, planner, strict, r)
    requires SameTasks(facts, plan) && Refusal(events, plan).None? ==> IsFrozenPrefix(n, events, plan)
    ensures r.Ok? <==>
      && SameTasks(facts, plan) && Refusal(events, plan).None? && n < |facts|
      && var answer := planner.plan(facts[n..], plan.tasks[..n], Spent(events));
         && answer.Some? && |answer.value| == |facts| - n
         && SuffixFault(answer.value, facts[n..], plan.tasks[..n], n + 1, strict, |answer.value|).None?
    ensures r.Ok? ==>
      && Assembled(facts, r.value.0, n, r.value.1)
      && n <= |r.value.0| && Some(r.value.0[n..]) == planner.plan(facts[n..], plan.tasks[..n], Spent(events))
  {
    hide IsFrozenPrefix, Refusal, Spent, SuffixFault, SuffixOutcome, SameTasks, Assembled, WellOrdered;
    if SameTasks(facts, plan) && Refusal(events, plan).None? {
      SameTasksDistinct(facts, plan);
      PrefixInPlan(n, events, plan);
      SameSizes(facts, plan);
      OnePrefix(facts, plan, events, planner, strict, n, r);
      SuffixAcceptedIff(facts, plan, Spent(events), planner, strict, n);
    }
  }

  lemma SameSizes(facts: seq<Fact>, plan: Plan)
    requires SameTasks(facts, plan)
    ensures |facts| == |plan.tasks|
  {
  }

  /** There is only one frozen prefix to start from. */
  lemma OnePrefix(
    facts: seq<Fact>, plan: Plan, events: seq<Event>, planner: Planner, strict: Fact -> bool, n: nat,
    r: Result<(seq<Fact>, seq<string>), Error>)
    requires Replanned(facts, plan, events, planner, strict, r) && SameTasks(facts, plan) && Refusal(events, plan).None?
    requires DistinctTasks(plan.tasks) && IsFrozenPrefix(n, events, plan)
    ensures n <= |facts| == |plan.tasks| && r == SuffixOutcome(n, facts, plan, Spent(events), planner, strict)
  {
    hide FrozenTasks, SuffixOutcome;
    var m: nat :| IsFrozenPrefix(m, events, plan) && r == SuffixOutcome(m, facts, plan, Spent(events), planner, strict);
    PrefixIsUnique(events, events, plan, m, n);
    PrefixIsUnique(events, events, plan, n, m);
  }

  lemma SuffixAcceptedIff(facts: seq<Fact>, plan: Plan, spent: int, planner: Planner, strict: Fact -> bool, n: nat)
    requires WellOrdered(facts) && SameTasks(facts, plan) && n <= |facts| == |plan.tasks|
    ensures var r := SuffixOutcome(n, facts, plan, spent, planner, strict);
      && (r.Ok? <==>
            && n < |facts|
            && var answer := planner.plan(facts[n..], plan.tasks[..n], spent);
               && answer.Some? && |answer.value| == |facts| - n
               && SuffixFault(answer.value, facts[n..], plan.tasks[..n], n + 1, strict, |answer.value|).None?)
      && (r.Ok? ==>
            && Assembled(facts, r.value.0, n, r.value.1)
            && |r.value.0| == |facts| && Some(r.value.0[n..]) == planner.plan(facts[n..], plan.tasks[..n], spent))
  {
    hide SuffixFault, Assembled, SameTasks, WellOrdered;
    var r := SuffixOutcome(n, facts, plan, spent, planner, strict);
    if r.Ok? {
      var answer := planner.plan(facts[n..], plan.tasks[..n], spent).value;
      JoinIsSound(facts, plan, n, answer, strict);
      assert (facts[..n] + answer)[n..] == answer;
    }
  }

  // ---- Acceptance and refusal, written out -----------------------------------------------------

  /** The event is about a task of this plan, and an expense has an amount. */
  predicate Fits(e: Event, plan: Plan) {
    e.trip == plan.trip && e.plan == plan.id && e.task in plan.tasks && (e.kind.Expense? ==> e.amount.Some?)
  }

  lemma RefusalIff(events: seq<Event>, plan: Plan)
    ensures Refusal(events, plan).None? <==>
      && events != []
      && (forall i :: 0 <= i < |events| ==>
            && events[i].trip == plan.trip && events[i].plan == plan.id && events[i].task in plan.tasks
            && (events[i].kind.Expense? ==> events[i].amount.Some?))
      && (forall i :: 0 <= i < |events| && events[i].kind.Complete? ==>
            exists j :: 0 <= j < |events| && events[j].kind.Expense? && events[j].task == events[i].task)
      && (exists i :: 0 <= i < |events| && events[i].kind.Expense?)
  {
    NoFaultIff(events, |events|, plan);
    ExpensesMean(events);
    hide TasksOf, FirstFault;
  }

  lemma ExpensesMean(events: seq<Event>)
    ensures TasksOf(events, Complete) <= TasksOf(events, Expense) <==>
      forall i :: 0 <= i < |events| && events[i].kind.Complete? ==>
        exists j :: 0 <= j < |events| && events[j].kind.Expense? && events[j].task == events[i].task
    ensures TasksOf(events, Expense) == {} <==> !(exists i :: 0 <= i < |events| && events[i].kind.Expense?)
  {
    var completed, expensed := TasksOf(events, Complete), TasksOf(events, Expense);
    forall i | 0 <= i < |events|
      ensures events[i].kind.Complete? ==> events[i].task in completed
      ensures events[i].kind.Expense? ==> events[i].task in expensed
    {
    }
    forall t | t in completed
      ensures exists i :: 0 <= i < |events| && events[i].kind.Complete? && events[i].task == t
    {
    }
    forall t | t in expensed
      ensures exists i :: 0 <= i < |events| && events[i].kind.Expense? && events[i].task == t
    {
    }
  }

  /** The error names the first event that does not fit and the first test it fails, or the missing expense. */
  ghost predicate Explains(error: Error, events: seq<Event>, plan: Plan) {
    match error
    case EventsRequired => events == []
    case TripMismatch(k) => FirstUnfit(events, k, plan) && events[k].trip != plan.trip
    case PlanMismatch(k) => FirstUnfit(events, k, plan) && events[k].trip == plan.trip && events[k].plan != plan.id
    case TaskNotFound(k) =>
      FirstUnfit(events, k, plan) && events[k].trip == plan.trip && events[k].plan == plan.id && events[k].task !in plan.tasks
    case AmountRequired => exists k: nat :: FirstUnfit(events, k, plan) && events[k].kind.Expense? && events[k].amount.None?
                                       && events[k].trip == plan.trip && events[k].plan == plan.id && events[k].task in plan.tasks
    case ExpenseIncomplete =>
      && (forall i :: 0 <= i < |events| ==> Fits(events[i], plan))
      && exists i :: 0 <= i < |events| && events[i].kind.Complete? &&
           forall j :: 0 <= j < |events| && events[j].kind.Expense? ==> events[j].task != events[i].task
    case ExpenseRequired =>
      && events != [] && (forall i :: 0 <= i < |events| ==> Fits(events[i], plan))
      && forall i :: 0 <= i < |events| ==> !events[i].kind.Expense? && !events[i].kind.Complete?
    case _ => false
  }

  predicate FirstUnfit(events: seq<Event>, k: nat, plan: Plan) {
    k < |events| && !Fits(events[k], plan) && forall i :: 0 <= i < k ==> Fits(events[i], plan)
  }

  lemma {:induction false} FirstFaultIs(events: seq<Event>, n: nat, plan: Plan) returns (k: nat)
    requires n <= |events| && FirstFault(events, n, plan).Some?
    ensures FirstUnfit(events, k, plan) && FirstFault(events, n, plan) == Fault(events[k], k, plan)
  {
    if FirstFault(events, n - 1, plan).Some? {
      k := FirstFaultIs(events, n - 1, plan);
    } else {
      k := n - 1;
      NoFaultIff(events, n - 1, plan);
    }
  }

  lemma RefusalExplained(events: seq<Event>, plan: Plan)
    requires Refusal(events, plan).Some?
    ensures Explains(Refusal(events, plan).value, events, plan)
  {
    if events != [] {
      NoFaultIff(events, |events|, plan);
      ExpensesMean(events);
      hide TasksOf;
      if FirstFault(events, |events|, plan).Some? {
        var k := FirstFaultIs(events, |events|, plan);
      }
    }
  }

  /** Each expense counts its amount, nothing else counts. */
  lemma SpentOfOne(e: Event)
    ensures Spent([e]) == if e.kind.Expense? && e.amount.Some? then e.amount.value else 0
  {
    assert [e][..0] == [];
  }

  /** The planned fact at a position passes the strict re-validation, has the next order number, is not frozen, does not
      move a task to another slot, and repeats none before it. */
  predicate FactFits(planned: seq<Fact>, k: nat, original: seq<Fact>, frozen: seq<string>, start: nat, strict: Fact -> bool)
    requires k < |planned|
  {
    && strict(planned[k]) && planned[k].order == start + k && planned[k].taskId !in frozen
    && (forall i :: 0 <= i < |original| && original[i].taskId == planned[k].taskId ==> original[i].order == planned[k].order)
    && (forall j :: 0 <= j < k ==> planned[j].taskId != planned[k].taskId)
  }

  predicate AllFit(planned: seq<Fact>, original: seq<Fact>, frozen: seq<string>, start: nat, strict: Fact -> bool) {
    forall k :: 0 <= k < |planned| ==> FactFits(planned, k, original, frozen, start, strict)
  }

  lemma {:induction false} SuffixFaultIff(
    planned: seq<Fact>, original: seq<Fact>, frozen: seq<string>, start: nat, strict: Fact -> bool, n: nat)
    requires n <= |planned|
    ensures SuffixFault(planned, original, frozen, start, strict, n).None? <==>
      forall k :: 0 <= k < n ==> FactFits(planned, k, original, frozen, start, strict)
  {
    if n > 0 {
      SuffixFaultIff(planned, original, frozen, start, strict, n - 1);
      var last := n - 1;
      assert SuffixFault(planned, original, frozen, start, strict, last).None? ==>
        (SuffixFault(planned, original, frozen, start, strict, n).None? <==> FactFits(planned, last, original, frozen, start, strict));
    }
  }

  /** The error names the first fact that does not fit and the first test it fails. */
  lemma {:induction false} SuffixFaultExplained(
    planned: seq<Fact>, original: seq<Fact>, frozen: seq<string>, start: nat, strict: Fact -> bool, n: nat) returns (k: nat)
    requires n <= |planned| && SuffixFault(planned, original, frozen, start, strict, n).Some?
    ensures k < n && !FactFits(planned, k, original, frozen, start, strict)
    ensures forall i :: 0 <= i < k ==> FactFits(planned, i, original, frozen, start, strict)
    ensures var f := planned[k];
      SuffixFault(planned, original, frozen, start, strict, n).value ==
        if !strict(f) then SuffixFact(k)
        else if f.order != start + k then SuffixOrder(k)
        else if f.taskId in frozen then SuffixFrozen(k)
        else if exists i :: 0 <= i < |original| && original[i].taskId == f.taskId && original[i].order != f.order then SuffixMoved(k)
        else SuffixDuplicate(k)
  {
    if SuffixFault(planned, original, frozen, start, strict, n - 1).Some? {
      k := SuffixFaultExplained(planned, original, frozen, start, strict, n - 1);
    } else {
      k := n - 1;
      SuffixFaultIff(planned, original, frozen, start, strict, n - 1);
      assert !FactFits(planned, k, original, frozen, start, strict);
    }
  }

  /** The stored facts are the plan's tasks, and the events are all in order. */
  ghost predicate InOrder(facts: seq<Fact>, plan: Plan, events: seq<Event>) {
    && |facts| == |plan.tasks| == |plan.orders|
    && (forall i :: 0 <= i < |facts| ==> facts[i].taskId == plan.tasks[i] && facts[i].order == plan.orders[i])
    && events != [] && (forall i :: 0 <= i < |events| ==> Fits(events[i], plan))
    && (forall i :: 0 <= i < |events| && events[i].kind.Complete? ==>
          exists j :: 0 <= j < |events| && events[j].kind.Expense? && events[j].task == events[i].task)
    && (exists i :: 0 <= i < |events| && events[i].kind.Expense?)
  }

  lemma InOrderIff(facts: seq<Fact>, plan: Plan, events: seq<Event>)
    ensures InOrder(facts, plan, events) <==> SameTasks(facts, plan) && Refusal(events, plan).None?
  {
    RefusalIff(events, plan);
    hide Refusal;
  }

  /** The whole of it, without a name for any test: a request is accepted exactly when the stored facts are the plan's and
      the events are in order, the tasks up to the last started, completed or skipped one are not all of them, and the
      planner answers the rest with as many facts that fit. */
  lemma AcceptedExactly(
    facts: seq<Fact>, plan: Plan, events: seq<Event>, planner: Planner, strict: Fact -> bool, n: nat,
    r: Result<(seq<Fact>, seq<string>), Error>)
    requires WellOrdered(facts) && Replanned(facts, plan, events, planner, strict, r)
    requires InOrder(facts, plan, events) ==>
      && n <= |plan.tasks|
      && (forall i :: 0 <= i < |events| && (events[i].kind.Start? || events[i].kind.Complete? || events[i].kind.Skip?) ==>
            events[i].task in plan.tasks[..n])
      && (n > 0 ==>
            exists i :: 0 <= i < |events| && (events[i].kind.Start? || events[i].kind.Complete? || events[i].kind.Skip?) &&
                        events[i].task == plan.tasks[n - 1])
    ensures r.Ok? <==>
      && InOrder(facts, plan, events) && n < |facts|
      && var answer := planner.plan(facts[n..], plan.tasks[..n], Spent(events));
         && answer.Some? && |answer.value| == |facts| - n
         && AllFit(answer.value, facts[n..], plan.tasks[..n], n + 1, strict)
    ensures r.Ok? ==> n <= |facts| && n <= |r.value.0| && r.value.0[..n] == facts[..n] && r.value.1 == plan.tasks[..n]
    ensures r.Ok? ==> Some(r.value.0[n..]) == planner.plan(facts[n..], plan.tasks[..n], Spent(events))
  {
    hide Refusal, Spent, SuffixFault, FactFits, InOrder, Replanned, WellOrdered;
    InOrderIff(facts, plan, events);
    PrefixMeans(n, events, plan);
    AcceptedIff(facts, plan, events, planner, strict, n, r);
    if InOrder(facts, plan, events) && n < |facts| {
      SameSizes(facts, plan);
      var answer := planner.plan(facts[n..], plan.tasks[..n], Spent(events));
      if answer.Some? {
        SuffixFaultIff(answer.value, facts[n..], plan.tasks[..n], n + 1, strict, |answer.value|);
      }
      if r.Ok? {
        assert r.value.1 == plan.tasks[..n];
      }
    }
  }
}
