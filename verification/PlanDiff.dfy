/** `calculate_plan_diff` of app/domain/plan_diff.py, and what its items are worth as a patch. */
module PlanDiff {
  import opened Prelude

  datatype Task = Task(id: string, title: string, timeRange: string, transport: string, costCents: nat, note: string)

  datatype Constraint = Constraint(ruleId: string, status: string, description: string, details: string)

  datatype Metrics = Metrics(cost: int, walk: int, transfers: int)

  datatype Plan = Plan(tasks: seq<Task>, constraints: seq<Constraint>, metrics: Metrics)

  datatype Field = Title | TimeRange | Transport | CostCents

  datatype Category = PlaceChange | TimeChange | RouteChange | CostChange | CareChange

  datatype Change = Retained | Removed | Added | Changed

  datatype Value = Absent | Words(text: string) | Cents(amount: nat)

  /** "task:id:field", "task:id:note" and "constraint:rule". */
  datatype Key = FieldKey(id: string, field: Field) | NoteKey(id: string) | RuleKey(rule: string)

  datatype Item = Item(category: Category, change: Change, key: Key, titled: string, before: Value, after: Value)

  datatype Diff = Diff(items: seq<Item>, delta: Metrics)

  const FIELDS := [Title, TimeRange, Transport, CostCents]

  // ---- Reading a plan ----------------------------------------------------------------------

  predicate DistinctIds(tasks: seq<Task>) {
    forall i, j :: 0 <= i < j < |tasks| ==> tasks[i].id != tasks[j].id
  }

  /** `{task.task_id: task}`: the last task with the id. */
  function TaskAt(tasks: seq<Task>, id: string): Option<Task> {
    if tasks == [] then None
    else if tasks[|tasks| - 1].id == id then Some(tasks[|tasks| - 1])
    else TaskAt(tasks[..|tasks| - 1], id)
  }

  function RuleAt(cs: seq<Constraint>, rule: string): Option<Constraint> {
    if cs == [] then None
    else if cs[|cs| - 1].ruleId == rule then Some(cs[|cs| - 1])
    else RuleAt(cs[..|cs| - 1], rule)
  }

  function ValueOf(t: Option<Task>, f: Field): Value {
    if t.None? then Absent
    else
      match f
      case Title => Words(t.value.title)
      case TimeRange => Words(t.value.timeRange)
      case Transport => Words(t.value.transport)
      case CostCents => Cents(t.value.costCents)
  }

  const BAR := "\U{FF5C}"

  /** `_care_value`. */
  function Rendered(c: Option<Constraint>): Value {
    if c.None? then Absent else Words(c.value.status + BAR + c.value.description + BAR + c.value.details)
  }

  function CategoryOf(f: Field): Category {
    match f
    case Title => PlaceChange
    case TimeRange => TimeChange
    case Transport => RouteChange
    case CostCents => CostChange
  }

  function ChangeOf(before: Value, after: Value): Change {
    if before == Absent then Added else if after == Absent then Removed else if before == after then Retained else Changed
  }

  // ---- The items ---------------------------------------------------------------------------

  function TitleOf(was: Option<Task>, now: Option<Task>): string
    requires was.Some? || now.Some?
  {
    if now.Some? then now.value.title else was.value.title
  }

  function FieldItem(id: string, was: Option<Task>, now: Option<Task>, f: Field): Item
    requires was.Some? || now.Some?
  {
    Item(CategoryOf(f), ChangeOf(ValueOf(was, f), ValueOf(now, f)), FieldKey(id, f), TitleOf(was, now), ValueOf(was, f), ValueOf(now, f))
  }

  /** The note is compared only when the task is in both plans. */
  function NoteItems(id: string, was: Option<Task>, now: Option<Task>): seq<Item> {
    if was.Some? && now.Some? && was.value.note != now.value.note
    then [Item(CareChange, Changed, NoteKey(id), now.value.title, Words(was.value.note), Words(now.value.note))]
    else []
  }

  function TaskItems(id: string, was: Option<Task>, now: Option<Task>): seq<Item>
    requires was.Some? || now.Some?
  {
    [FieldItem(id, was, now, Title), FieldItem(id, was, now, TimeRange), FieldItem(id, was, now, Transport),
     FieldItem(id, was, now, CostCents)] + NoteItems(id, was, now)
  }

  function RuleItem(rule: string, was: Option<Constraint>, now: Option<Constraint>): Item {
    Item(CareChange, ChangeOf(Rendered(was), Rendered(now)), RuleKey(rule), rule, Rendered(was), Rendered(now))
  }

  /** The base's ids in order, then the candidate's new ones. */
  function NewIds(base: seq<Task>, candidate: seq<Task>): seq<string> {
    if candidate == [] then []
    else
      NewIds(base, candidate[..|candidate| - 1]) +
      (if TaskAt(base, candidate[|candidate| - 1].id).None? then [candidate[|candidate| - 1].id] else [])
  }

  function IdsOf(tasks: seq<Task>): (ids: seq<string>)
    ensures |ids| == |tasks| && forall i :: 0 <= i < |tasks| ==> ids[i] == tasks[i].id
  {
    seq(|tasks|, i requires 0 <= i < |tasks| => tasks[i].id)
  }

  function TaskIds(base: seq<Task>, candidate: seq<Task>): seq<string> {
    IdsOf(base) + NewIds(base, candidate)
  }

  /** The keys of the dictionary built from the constraints: first occurrences, in order. */
  function Rules(cs: seq<Constraint>): seq<string> {
    if cs == [] then []
    else
      var front := Rules(cs[..|cs| - 1]);
      if cs[|cs| - 1].ruleId in front then front else front + [cs[|cs| - 1].ruleId]
  }

  function NewRules(base: seq<Constraint>, rules: seq<string>): seq<string> {
    if rules == [] then []
    else NewRules(base, rules[..|rules| - 1]) + (if RuleAt(base, rules[|rules| - 1]).None? then [rules[|rules| - 1]] else [])
  }

  function RuleIds(base: seq<Constraint>, candidate: seq<Constraint>): seq<string> {
    Rules(base) + NewRules(base, Rules(candidate))
  }

  /** The items of the first n ids. */
  function TaskSection(ids: seq<string>, n: nat, base: seq<Task>, candidate: seq<Task>): seq<Item>
    requires n <= |ids|
  {
    if n == 0 then []
    else
      var was, now := TaskAt(base, ids[n - 1]), TaskAt(candidate, ids[n - 1]);
      TaskSection(ids, n - 1, base, candidate) + (if was.None? && now.None? then [] else TaskItems(ids[n - 1], was, now))
  }

  function RuleSection(rules: seq<string>, n: nat, base: seq<Constraint>, candidate: seq<Constraint>): seq<Item>
    requires n <= |rules|
  {
    if n == 0 then []
    else RuleSection(rules, n - 1, base, candidate) + [RuleItem(rules[n - 1], RuleAt(base, rules[n - 1]), RuleAt(candidate, rules[n - 1]))]
  }

  function ItemsOf(base: Plan, candidate: Plan): seq<Item> {
    var ids := TaskIds(base.tasks, candidate.tasks);
    var rules := RuleIds(base.constraints, candidate.constraints);
    TaskSection(ids, |ids|, base.tasks, candidate.tasks) + RuleSection(rules, |rules|, base.constraints, candidate.constraints)
  }

  /** `calculate_plan_diff`, with its two loops over `items`. */
  method CalculatePlanDiff(base: Plan, candidate: Plan) returns (diff: Diff)
    ensures diff.items == ItemsOf(base, candidate)
    ensures base.metrics.cost + diff.delta.cost == candidate.metrics.cost
    ensures base.metrics.walk + diff.delta.walk == candidate.metrics.walk
    ensures base.metrics.transfers + diff.delta.transfers == candidate.metrics.transfers
  {
    var ids := TaskIds(base.tasks, candidate.tasks);
    var items: seq<Item> := [];
    var i := 0;
    while i < |ids|
      invariant 0 <= i <= |ids|
      invariant items == TaskSection(ids, i, base.tasks, candidate.tasks)
    {
      var was, now := TaskAt(base.tasks, ids[i]), TaskAt(candidate.tasks, ids[i]);
      if was.Some? || now.Some? {
        var own := TaskItemsLoop(ids[i], was, now);
        items := items + own;
      }
      i := i + 1;
    }
    ghost var taskItems := items;
    var rules := RuleIds(base.constraints, candidate.constraints);
    i := 0;
    while i < |rules|
      invariant 0 <= i <= |rules|
      invariant items == taskItems + RuleSection(rules, i, base.constraints, candidate.constraints)
    {
      items := items + [RuleItem(rules[i], RuleAt(base.constraints, rules[i]), RuleAt(candidate.constraints, rules[i]))];
      i := i + 1;
    }
    diff := Diff(
      items,
      Metrics(candidate.metrics.cost - base.metrics.cost, candidate.metrics.walk - base.metrics.walk,
              candidate.metrics.transfers - base.metrics.transfers));
  }

  method TaskItemsLoop(id: string, was: Option<Task>, now: Option<Task>) returns (items: seq<Item>)
    requires was.Some? || now.Some?
    ensures items == TaskItems(id, was, now)
  {
    items := [];
    var i := 0;
    while i < |FIELDS|
      invariant 0 <= i <= 4
      invariant items == TaskItems(id, was, now)[..i]
    {
      items := items + [FieldItem(id, was, now, FIELDS[i])];
      i := i + 1;
    }
    if was.Some? && now.Some? && was.value.note != now.value.note {
      items := items + [Item(CareChange, Changed, NoteKey(id), now.value.title, Words(was.value.note), Words(now.value.note))];
    }
  }

  // ---- Which items there are -----------------------------------------------------------------

  /** What an item has to say about the two plans. */
  ghost predicate Tells(base: Plan, candidate: Plan, e: Item) {
    match e.key
    case FieldKey(id, f) =>
      var was, now := TaskAt(base.tasks, id), TaskAt(candidate.tasks, id);
      (was.Some? || now.Some?) && e == FieldItem(id, was, now, f)
    case NoteKey(id) => e in NoteItems(id, TaskAt(base.tasks, id), TaskAt(candidate.tasks, id))
    case RuleKey(rule) =>
      var was, now := RuleAt(base.constraints, rule), RuleAt(candidate.constraints, rule);
      (was.Some? || now.Some?) && e == RuleItem(rule, was, now)
  }

  predicate HasId(tasks: seq<Task>, id: string) {
    exists k :: 0 <= k < |tasks| && tasks[k].id == id
  }

  predicate DistinctTexts(ids: seq<string>) {
    forall i, j :: 0 <= i < j < |ids| ==> ids[i] != ids[j]
  }

  lemma {:induction false} TaskAtIff(tasks: seq<Task>, id: string)
    ensures TaskAt(tasks, id).Some? <==> HasId(tasks, id)
    ensures TaskAt(tasks, id).Some? ==> TaskAt(tasks, id).value.id == id
  {
    if tasks != [] {
      TaskAtIff(tasks[..|tasks| - 1], id);
    }
  }

  lemma {:induction false} RulesIff(cs: seq<Constraint>, rule: string)
    ensures rule in Rules(cs) <==> RuleAt(cs, rule).Some?
    ensures forall i, j :: 0 <= i < j < |Rules(cs)| ==> Rules(cs)[i] != Rules(cs)[j]
  {
    if cs != [] {
      RulesIff(cs[..|cs| - 1], rule);
    }
  }

  lemma {:induction false} NewIdsAre(base: seq<Task>, candidate: seq<Task>, id: string)
    ensures id in NewIds(base, candidate) <==> TaskAt(base, id).None? && HasId(candidate, id)
  {
    hide TaskAt;
    if candidate != [] {
      var front, last := candidate[..|candidate| - 1], candidate[|candidate| - 1];
      NewIdsAre(base, front, id);
      assert HasId(candidate, id) <==> HasId(front, id) || last.id == id by {
        assert candidate == front + [last];
        if HasId(front, id) {
          var k :| 0 <= k < |front| && front[k].id == id;
          assert candidate[k] == front[k];
        }
      }
    }
  }

  lemma {:induction false} NewIdsDistinct(base: seq<Task>, candidate: seq<Task>)
    requires DistinctIds(candidate)
    ensures DistinctTexts(NewIds(base, candidate))
  {
    hide TaskAt;
    if candidate != [] {
      var front, last := candidate[..|candidate| - 1], candidate[|candidate| - 1];
      NewIdsDistinct(base, front);
      NewIdsAre(base, front, last.id);
      assert !HasId(front, last.id);
    }
  }

  lemma {:induction false} NewRulesAre(base: seq<Constraint>, rules: seq<string>)
    requires forall i, j :: 0 <= i < j < |rules| ==> rules[i] != rules[j]
    ensures var ids := NewRules(base, rules);
      && (forall i, j :: 0 <= i < j < |ids| ==> ids[i] != ids[j])
      && (forall r :: r in ids <==> r in rules && RuleAt(base, r).None?)
  {
    if rules != [] {
      var front := rules[..|rules| - 1];
      NewRulesAre(base, front);
      assert rules == front + [rules[|rules| - 1]];
    }
  }

  /** The ids the tasks are reported under: every id of either plan, once. */
  lemma TaskIdsAre(base: seq<Task>, candidate: seq<Task>, id: string)
    requires DistinctIds(base) && DistinctIds(candidate)
    ensures DistinctTexts(TaskIds(base, candidate))
    ensures id in TaskIds(base, candidate) <==> TaskAt(base, id).Some? || TaskAt(candidate, id).Some?
  {
    NewIdsAre(base, candidate, id);
    NewIdsDistinct(base, candidate);
    TaskAtIff(base, id);
    TaskAtIff(candidate, id);
    hide TaskAt, NewIds;
    var ids := TaskIds(base, candidate);
    assert id in IdsOf(base) <==> HasId(base, id) by {
      IdsListed(base, id);
    }
    forall i, j | 0 <= i < j < |ids|
      ensures ids[i] != ids[j]
    {
      if i < |base| <= j {
        TaskAtIff(base, ids[i]);
        NewIdsAre(base, candidate, ids[j]);
      }
    }
  }

  lemma IdsListed(tasks: seq<Task>, id: string)
    ensures id in IdsOf(tasks) <==> HasId(tasks, id)
  {
    var ids := IdsOf(tasks);
    if HasId(tasks, id) {
      var k :| 0 <= k < |tasks| && tasks[k].id == id;
      assert ids[k] == id;
    }
  }

  lemma RuleIdsAre(base: seq<Constraint>, candidate: seq<Constraint>, rule: string)
    ensures DistinctTexts(RuleIds(base, candidate))
    ensures rule in RuleIds(base, candidate) <==> RuleAt(base, rule).Some? || RuleAt(candidate, rule).Some?
  {
    RulesIff(base, rule);
    RulesIff(candidate, rule);
    NewRulesAre(base, Rules(candidate));
    var ids := RuleIds(base, candidate);
    forall i, j | 0 <= i < j < |ids|
      ensures ids[i] != ids[j]
    {
      RulesIff(base, ids[j]);
    }
  }
}
