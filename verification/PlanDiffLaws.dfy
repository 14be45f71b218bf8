/** The diff as a patch: what its items determine about the two plans. */
module PlanDiffLaws {
  import opened Prelude
  import opened PlanDiff

  ghost predicate Days(base: Plan, candidate: Plan) {
    DistinctIds(base.tasks) && DistinctIds(candidate.tasks)
  }

  // ---- The items are exactly the facts -------------------------------------------------------

  lemma TaskItemsAre(id: string, was: Option<Task>, now: Option<Task>, e: Item)
    requires was.Some? || now.Some?
    ensures e in TaskItems(id, was, now) <==>
      (e.key.FieldKey? && e.key.id == id && e == FieldItem(id, was, now, e.key.field)) || e in NoteItems(id, was, now)
  {
  }

  lemma {:induction false} TaskSectionIs(ids: seq<string>, n: nat, base: Plan, candidate: Plan, e: Item)
    requires n <= |ids|
    ensures e in TaskSection(ids, n, base.tasks, candidate.tasks) <==>
      !e.key.RuleKey? && e.key.id in ids[..n] && Tells(base, candidate, e)
  {
    if n > 0 {
      TaskSectionIs(ids, n - 1, base, candidate, e);
      var id := ids[n - 1];
      assert ids[..n] == ids[..n - 1] + [id];
      var was, now := TaskAt(base.tasks, id), TaskAt(candidate.tasks, id);
      if was.Some? || now.Some? {
        TaskItemsAre(id, was, now, e);
      }
    }
  }

  lemma {:induction false} RuleSectionIs(rules: seq<string>, n: nat, base: Plan, candidate: Plan, e: Item)
    requires n <= |rules|
    ensures e in RuleSection(rules, n, base.constraints, candidate.constraints) <==>
      e.key.RuleKey? && e.key.rule in rules[..n]
      && e == RuleItem(e.key.rule, RuleAt(base.constraints, e.key.rule), RuleAt(candidate.constraints, e.key.rule))
  {
    if n > 0 {
      RuleSectionIs(rules, n - 1, base, candidate, e);
      assert rules[..n] == rules[..n - 1] + [rules[n - 1]];
    }
  }

  /** The items are exactly the true statements about the two plans: four fields for every id of either plan, a changed
      note for a shared task, and one rendering per rule of either plan. */
  lemma ItemsTell(base: Plan, candidate: Plan, e: Item)
    requires Days(base, candidate)
    ensures e in ItemsOf(base, candidate) <==> Tells(base, candidate, e)
  {
    var ids := TaskIds(base.tasks, candidate.tasks);
    var rules := RuleIds(base.constraints, candidate.constraints);
    TaskSectionIs(ids, |ids|, base, candidate, e);
    RuleSectionIs(rules, |rules|, base, candidate, e);
    assert ids[..|ids|] == ids && rules[..|rules|] == rules;
    hide TaskSection, RuleSection, TaskIds, RuleIds;
    if e.key.RuleKey? {
      RuleIdsAre(base.constraints, candidate.constraints, e.key.rule);
    } else {
      TaskIdsAre(base.tasks, candidate.tasks, e.key.id);
    }
  }

  // ---- One item per key ----------------------------------------------------------------------

  predicate DistinctKeys(items: seq<Item>) {
    forall i, j :: 0 <= i < j < |items| ==> items[i].key != items[j].key
  }

  lemma JoinDistinct(a: seq<Item>, b: seq<Item>)
    requires DistinctKeys(a) && DistinctKeys(b)
    requires forall x, y :: x in a && y in b ==> x.key != y.key
    ensures DistinctKeys(a + b)
  {
  }

  lemma TaskItemsDistinct(id: string, was: Option<Task>, now: Option<Task>)
    requires was.Some? || now.Some?
    ensures DistinctKeys(TaskItems(id, was, now))
    ensures forall e :: e in TaskItems(id, was, now) ==> !e.key.RuleKey? && e.key.id == id
  {
    forall e | e in TaskItems(id, was, now)
      ensures !e.key.RuleKey? && e.key.id == id
    {
      TaskItemsAre(id, was, now, e);
    }
  }

  lemma {:induction false} TaskSectionDistinct(ids: seq<string>, n: nat, base: Plan, candidate: Plan)
    requires n <= |ids| && DistinctTexts(ids)
    ensures DistinctKeys(TaskSection(ids, n, base.tasks, candidate.tasks))
  {
    if n > 0 {
      TaskSectionDistinct(ids, n - 1, base, candidate);
      var front := TaskSection(ids, n - 1, base.tasks, candidate.tasks);
      var was, now := TaskAt(base.tasks, ids[n - 1]), TaskAt(candidate.tasks, ids[n - 1]);
      if was.Some? || now.Some? {
        TaskItemsDistinct(ids[n - 1], was, now);
        hide TaskItems, TaskSection;
        forall x, y | x in front && y in TaskItems(ids[n - 1], was, now)
          ensures x.key != y.key
        {
          TaskSectionIs(ids, n - 1, base, candidate, x);
        }
        JoinDistinct(front, TaskItems(ids[n - 1], was, now));
      }
    }
  }

  lemma {:induction false} RuleSectionDistinct(rules: seq<string>, n: nat, base: Plan, candidate: Plan)
    requires n <= |rules| && DistinctTexts(rules)
    ensures DistinctKeys(RuleSection(rules, n, base.constraints, candidate.constraints))
  {
    if n > 0 {
      RuleSectionDistinct(rules, n - 1, base, candidate);
      var front := RuleSection(rules, n - 1, base.constraints, candidate.constraints);
      forall x | x in front
        ensures x.key != RuleKey(rules[n - 1])
      {
        RuleSectionIs(rules, n - 1, base, candidate, x);
      }
    }
  }

  /** No two items have the same key, so every id has exactly its four field items. */
  lemma OneItemPerKey(base: Plan, candidate: Plan)
    requires Days(base, candidate)
    ensures DistinctKeys(ItemsOf(base, candidate))
  {
    hide TaskSection, RuleSection, TaskIds, RuleIds;
    var ids := TaskIds(base.tasks, candidate.tasks);
    var rules := RuleIds(base.constraints, candidate.constraints);
    TaskIdsAre(base.tasks, candidate.tasks, "");
    RuleIdsAre(base.constraints, candidate.constraints, "");
    TaskSectionDistinct(ids, |ids|, base, candidate);
    RuleSectionDistinct(rules, |rules|, base, candidate);
    var a, b := TaskSection(ids, |ids|, base.tasks, candidate.tasks), RuleSection(rules, |rules|, base.constraints, candidate.constraints);
    forall x, y | x in a && y in b
      ensures x.key != y.key
    {
      TaskSectionIs(ids, |ids|, base, candidate, x);
      RuleSectionIs(rules, |rules|, base, candidate, y);
    }
    JoinDistinct(a, b);
  }

  // ---- The patch -----------------------------------------------------------------------------

  /** What a plan holds under a key. */
  function Held(p: Plan, k: Key): Value {
    match k
    case FieldKey(id, f) => ValueOf(TaskAt(p.tasks, id), f)
    case NoteKey(id) => if TaskAt(p.tasks, id).Some? then Words(TaskAt(p.tasks, id).value.note) else Absent
    case RuleKey(rule) => Rendered(RuleAt(p.constraints, rule))
  }

  /** The value under a key after the items are applied in turn, each writing its after value. */
  function Patched(value: Value, items: seq<Item>, k: Key): Value
    decreases |items|
  {
    if items == [] then value else Patched(if items[0].key == k then items[0].after else value, items[1..], k)
  }

  lemma {:induction false} PatchedElsewhere(value: Value, items: seq<Item>, k: Key)
    requires forall e :: e in items ==> e.key != k
    ensures Patched(value, items, k) == value
    decreases |items|
  {
    if items != [] {
      assert items[0] in items;
      PatchedElsewhere(value, items[1..], k);
    }
  }

  lemma {:induction false} PatchedAt(value: Value, items: seq<Item>, e: Item)
    requires DistinctKeys(items) && e in items
    ensures Patched(value, items, e.key) == e.after
    decreases |items|
  {
    if items[0] == e {
      PatchedElsewhere(e.after, items[1..], e.key);
    } else {
      assert items[0].key != e.key;
      PatchedAt(value, items[1..], e);
    }
  }

  /** The item a key should have. */
  function ItemFor(base: Plan, candidate: Plan, k: Key): Option<Item> {
    match k
    case FieldKey(id, f) =>
      var was, now := TaskAt(base.tasks, id), TaskAt(candidate.tasks, id);
      if was.Some? || now.Some? then Some(FieldItem(id, was, now, f)) else None
    case NoteKey(id) =>
      var notes := NoteItems(id, TaskAt(base.tasks, id), TaskAt(candidate.tasks, id));
      if notes != [] then Some(notes[0]) else None
    case RuleKey(rule) =>
      var was, now := RuleAt(base.constraints, rule), RuleAt(candidate.constraints, rule);
      if was.Some? || now.Some? then Some(RuleItem(rule, was, now)) else None
  }

  lemma ItemForIs(base: Plan, candidate: Plan, k: Key)
    requires Days(base, candidate)
    ensures ItemFor(base, candidate, k).Some? ==>
      ItemFor(base, candidate, k).value.key == k && ItemFor(base, candidate, k).value in ItemsOf(base, candidate)
    ensures ItemFor(base, candidate, k).None? ==> forall e :: e in ItemsOf(base, candidate) ==> e.key != k
  {
    if ItemFor(base, candidate, k).Some? {
      ItemsTell(base, candidate, ItemFor(base, candidate, k).value);
    } else {
      forall e | e in ItemsOf(base, candidate)
        ensures e.key != k
      {
        ItemsTell(base, candidate, e);
      }
    }
  }

  /** Applying the items to the base gives the candidate: every task field and every rendered rule of either plan, and
      the note of every shared task. Each item also finds the value it says it replaces. */
  lemma DiffIsPatch(base: Plan, candidate: Plan, k: Key)
    requires Days(base, candidate)
    requires k.NoteKey? ==> TaskAt(base.tasks, k.id).Some? && TaskAt(candidate.tasks, k.id).Some?
    ensures Patched(Held(base, k), ItemsOf(base, candidate), k) == Held(candidate, k)
    ensures forall e :: e in ItemsOf(base, candidate) && e.key == k ==> e.before == Held(base, k)
  {
    hide ItemsOf;
    ItemForIs(base, candidate, k);
    OneItemPerKey(base, candidate);
    forall e | e in ItemsOf(base, candidate) && e.key == k
      ensures e.before == Held(base, k)
    {
      ItemsTell(base, candidate, e);
    }
    var e := ItemFor(base, candidate, k);
    if e.Some? {
      PatchedAt(Held(base, k), ItemsOf(base, candidate), e.value);
    } else {
      PatchedElsewhere(Held(base, k), ItemsOf(base, candidate), k);
    }
  }

  /** A note is rebuilt exactly when the task is in both plans or in neither: the diff neither carries the note of an added
      task nor takes away the note of a removed one. */
  lemma NoteRebuiltIff(base: Plan, candidate: Plan, id: string)
    requires Days(base, candidate)
    ensures Patched(Held(base, NoteKey(id)), ItemsOf(base, candidate), NoteKey(id)) == Held(candidate, NoteKey(id)) <==>
            (TaskAt(base.tasks, id).Some? <==> TaskAt(candidate.tasks, id).Some?)
  {
    hide ItemsOf, TaskAt;
    if TaskAt(base.tasks, id).Some? && TaskAt(candidate.tasks, id).Some? {
      DiffIsPatch(base, candidate, NoteKey(id));
    } else {
      ItemForIs(base, candidate, NoteKey(id));
      PatchedElsewhere(Held(base, NoteKey(id)), ItemsOf(base, candidate), NoteKey(id));
    }
  }

  // ---- Swapping the plans --------------------------------------------------------------------

  function SwappedChange(c: Change): Change {
    match c
    case Added => Removed
    case Removed => Added
    case _ => c
  }

  /** Exchanging the plans exchanges before and after, and added and removed, item by item; only the task title a label
      quotes is always the newer plan's. */
  lemma SwapMirrorsItems(base: Plan, candidate: Plan, k: Key)
    requires Days(base, candidate)
    ensures var there, back := ItemFor(base, candidate, k), ItemFor(candidate, base, k);
      && there.Some? == back.Some?
      && (there.Some? ==>
            && there.value in ItemsOf(base, candidate) && back.value in ItemsOf(candidate, base)
            && back.value.category == there.value.category
            && back.value.before == there.value.after && back.value.after == there.value.before
            && back.value.change == SwappedChange(there.value.change))
  {
    hide ItemsOf, TaskAt, RuleAt;
    ItemForIs(base, candidate, k);
    ItemForIs(candidate, base, k);
  }

  /** Each id of either plan has exactly four field items, one per field. */
  lemma FourFieldsEach(base: Plan, candidate: Plan, id: string, f: Field)
    requires Days(base, candidate)
    ensures (exists i :: 0 <= i < |ItemsOf(base, candidate)| && ItemsOf(base, candidate)[i].key == FieldKey(id, f)) <==>
      TaskAt(base.tasks, id).Some? || TaskAt(candidate.tasks, id).Some?
    ensures DistinctKeys(ItemsOf(base, candidate))
  {
    hide ItemsOf;
    ItemForIs(base, candidate, FieldKey(id, f));
    OneItemPerKey(base, candidate);
    var items := ItemsOf(base, candidate);
    if TaskAt(base.tasks, id).Some? || TaskAt(candidate.tasks, id).Some? {
      var e := ItemFor(base, candidate, FieldKey(id, f)).value;
      var i :| 0 <= i < |items| && items[i] == e;
    }
  }

  // ---- The items, written out ------------------------------------------------------------------

  predicate Shared(base: Plan, candidate: Plan, id: string, t: Task, u: Task) {
    t in base.tasks && u in candidate.tasks && t.id == id && u.id == id
  }

  predicate OnlyIn(tasks: seq<Task>, others: seq<Task>, id: string, t: Task) {
    t in tasks && t.id == id && forall u :: u in others ==> u.id != id
  }

  /** Title, time, transport and cost of a task, with the category each is reported under. */
  predicate Reports(f: Field, category: Category, t: Task, value: Value) {
    match f
    case Title => category == PlaceChange && value == Words(t.title)
    case TimeRange => category == TimeChange && value == Words(t.timeRange)
    case Transport => category == RouteChange && value == Words(t.transport)
    case CostCents => category == CostChange && value == Cents(t.costCents)
  }

  predicate SameField(f: Field, t: Task, u: Task) {
    match f
    case Title => t.title == u.title
    case TimeRange => t.timeRange == u.timeRange
    case Transport => t.transport == u.transport
    case CostCents => t.costCents == u.costCents
  }

  /** The last constraint with the rule. */
  predicate LastRule(cs: seq<Constraint>, rule: string, i: nat) {
    i < |cs| && cs[i].ruleId == rule && forall j :: i < j < |cs| ==> cs[j].ruleId != rule
  }

  predicate HasRule(cs: seq<Constraint>, rule: string) {
    exists i :: 0 <= i < |cs| && cs[i].ruleId == rule
  }

  predicate ReportsRule(c: Constraint, value: Value) {
    value == Words(c.status + BAR + c.description + BAR + c.details)
  }

  /** What an item says, by the plans' own fields: a field is Retained if the task is in both plans with the same value,
      Changed if it is in both with another, Added if only the candidate has the task, Removed if only the base has it. */
  ghost predicate Says(base: Plan, candidate: Plan, e: Item) {
    match e.key
    case FieldKey(id, f) =>
      || (exists t, u :: Shared(base, candidate, id, t, u)
            && Reports(f, e.category, t, e.before) && Reports(f, e.category, u, e.after) && e.titled == u.title
            && e.change == if SameField(f, t, u) then Retained else Changed)
      || (exists u :: OnlyIn(candidate.tasks, base.tasks, id, u)
            && Reports(f, e.category, u, e.after) && e.before == Absent && e.titled == u.title && e.change == Added)
      || (exists t :: OnlyIn(base.tasks, candidate.tasks, id, t)
            && Reports(f, e.category, t, e.before) && e.after == Absent && e.titled == t.title && e.change == Removed)
    case NoteKey(id) =>
      exists t, u :: Shared(base, candidate, id, t, u) && t.note != u.note
        && e == Item(CareChange, Changed, NoteKey(id), u.title, Words(t.note), Words(u.note))
    case RuleKey(rule) =>
      e.category == CareChange && e.titled == rule &&
      (|| (exists i: nat, j: nat :: LastRule(base.constraints, rule, i) && LastRule(candidate.constraints, rule, j)
             && ReportsRule(base.constraints[i], e.before) && ReportsRule(candidate.constraints[j], e.after)
             && e.change == if e.before == e.after then Retained else Changed)
       || (exists j: nat :: LastRule(candidate.constraints, rule, j) && !HasRule(base.constraints, rule)
             && ReportsRule(candidate.constraints[j], e.after) && e.before == Absent && e.change == Added)
       || (exists i: nat :: LastRule(base.constraints, rule, i) && !HasRule(candidate.constraints, rule)
             && ReportsRule(base.constraints[i], e.before) && e.after == Absent && e.change == Removed))
  }

  lemma {:induction false} TaskAtIs(tasks: seq<Task>, id: string, t: Task)
    requires DistinctIds(tasks)
    ensures TaskAt(tasks, id) == Some(t) <==> t in tasks && t.id == id
    ensures TaskAt(tasks, id).None? <==> forall u :: u in tasks ==> u.id != id
  {
    if tasks != [] {
      var front, last := tasks[..|tasks| - 1], tasks[|tasks| - 1];
      assert tasks == front + [last];
      TaskAtIs(front, id, t);
      assert forall u :: u in tasks <==> u in front || u == last;
      assert forall u :: u in front ==> u.id != last.id;
    }
  }

  lemma {:induction false} RuleAtIs(cs: seq<Constraint>, rule: string) returns (i: nat)
    ensures RuleAt(cs, rule).None? <==> !HasRule(cs, rule)
    ensures RuleAt(cs, rule).Some? ==> LastRule(cs, rule, i) && RuleAt(cs, rule) == Some(cs[i])
    ensures forall j: nat :: LastRule(cs, rule, j) ==> RuleAt(cs, rule).Some? && j == i
  {
    i := 0;
    if cs != [] {
      var front := cs[..|cs| - 1];
      if cs[|cs| - 1].ruleId == rule {
        i := |cs| - 1;
      } else {
        i := RuleAtIs(front, rule);
        HasRuleFront(cs, rule);
      }
    }
  }

  lemma HasRuleFront(cs: seq<Constraint>, rule: string)
    requires cs != [] && cs[|cs| - 1].ruleId != rule
    ensures HasRule(cs, rule) <==> HasRule(cs[..|cs| - 1], rule)
  {
    var front := cs[..|cs| - 1];
    if HasRule(front, rule) {
      var k :| 0 <= k < |front| && front[k].ruleId == rule;
      assert cs[k].ruleId == rule;
    }
    if HasRule(cs, rule) {
      var k :| 0 <= k < |cs| && cs[k].ruleId == rule;
      assert front[k].ruleId == rule;
    }
  }

  /** The items of a diff are exactly the items that say so. */
  lemma ItemsAre(base: Plan, candidate: Plan, e: Item)
    requires Days(base, candidate)
    ensures e in ItemsOf(base, candidate) <==> Says(base, candidate, e)
  {
    hide ItemsOf;
    ItemsTell(base, candidate, e);
    match e.key
    case FieldKey(id, f) => FieldItemsAre(base, candidate, e);
    case NoteKey(id) => NoteItemsAre(base, candidate, e);
    case RuleKey(rule) => RuleItemsAre(base, candidate, e);
  }

  lemma FieldItemsAre(base: Plan, candidate: Plan, e: Item)
    requires Days(base, candidate) && e.key.FieldKey?
    ensures Tells(base, candidate, e) <==> Says(base, candidate, e)
  {
    var id := e.key.id;
    forall t
      ensures TaskAt(base.tasks, id) == Some(t) <==> t in base.tasks && t.id == id
      ensures TaskAt(candidate.tasks, id) == Some(t) <==> t in candidate.tasks && t.id == id
    {
      TaskAtIs(base.tasks, id, t);
      TaskAtIs(candidate.tasks, id, t);
    }
    var any := Task("", "", "", "", 0, "");
    TaskAtIs(base.tasks, id, any);
    TaskAtIs(candidate.tasks, id, any);
    hide TaskAt, DistinctIds;
    var was, now := TaskAt(base.tasks, id), TaskAt(candidate.tasks, id);
    if was.Some? && now.Some? {
      assert Shared(base, candidate, id, was.value, now.value);
    } else if now.Some? {
      assert OnlyIn(candidate.tasks, base.tasks, id, now.value);
    } else if was.Some? {
      assert OnlyIn(base.tasks, candidate.tasks, id, was.value);
    }
  }

  lemma NoteItemsAre(base: Plan, candidate: Plan, e: Item)
    requires Days(base, candidate) && e.key.NoteKey?
    ensures Tells(base, candidate, e) <==> Says(base, candidate, e)
  {
    var id := e.key.id;
    forall t
      ensures TaskAt(base.tasks, id) == Some(t) <==> t in base.tasks && t.id == id
      ensures TaskAt(candidate.tasks, id) == Some(t) <==> t in candidate.tasks && t.id == id
    {
      TaskAtIs(base.tasks, id, t);
      TaskAtIs(candidate.tasks, id, t);
    }
    hide TaskAt, DistinctIds;
    var was, now := TaskAt(base.tasks, id), TaskAt(candidate.tasks, id);
    if was.Some? && now.Some? {
      assert Shared(base, candidate, id, was.value, now.value);
    }
  }

  lemma RuleItemsAre(base: Plan, candidate: Plan, e: Item)
    requires e.key.RuleKey?
    ensures Tells(base, candidate, e) <==> Says(base, candidate, e)
  {
    var rule := e.key.rule;
    var i := RuleAtIs(base.constraints, rule);
    var j := RuleAtIs(candidate.constraints, rule);
    hide RuleAt, LastRule, HasRule;
  }

  // ---- The order of the items --------------------------------------------------------------------

  /** The task keys of one id, in the order they are reported. */
  function Turn(k: Key): nat {
    match k
    case FieldKey(_, Title) => 0
    case FieldKey(_, TimeRange) => 1
    case FieldKey(_, Transport) => 2
    case FieldKey(_, CostCents) => 3
    case NoteKey(_) => 4
    case RuleKey(_) => 5
  }

  lemma TurnsAscend(id: string, was: Option<Task>, now: Option<Task>, i: nat, j: nat)
    requires (was.Some? || now.Some?) && i < j < |TaskItems(id, was, now)|
    ensures Turn(TaskItems(id, was, now)[i].key) < Turn(TaskItems(id, was, now)[j].key)
  {
    hide ValueOf, ChangeOf, CategoryOf, TitleOf;
  }

  lemma TaskItemsKeys(id: string, was: Option<Task>, now: Option<Task>, i: nat)
    requires (was.Some? || now.Some?) && i < |TaskItems(id, was, now)|
    ensures !TaskItems(id, was, now)[i].key.RuleKey? && TaskItems(id, was, now)[i].key.id == id
  {
    hide ValueOf, ChangeOf, CategoryOf, TitleOf;
  }

  /** The id a task item is about, by its place among the ids. */
  lemma TaskSectionAt(ids: seq<string>, n: nat, base: Plan, candidate: Plan, i: nat) returns (p: nat)
    requires n <= |ids| && i < |TaskSection(ids, n, base.tasks, candidate.tasks)|
    ensures var e := TaskSection(ids, n, base.tasks, candidate.tasks)[i];
      p < n && !e.key.RuleKey? && e.key.id == ids[p]
  {
    var items := TaskSection(ids, n, base.tasks, candidate.tasks);
    assert items[i] in items;
    TaskSectionIs(ids, n, base, candidate, items[i]);
    p :| 0 <= p < n && ids[..n][p] == items[i].key.id;
  }

  lemma {:induction false} TaskSectionOrder(ids: seq<string>, n: nat, base: Plan, candidate: Plan, i: nat, j: nat)
    returns (p: nat, q: nat)
    requires n <= |ids| && i < j < |TaskSection(ids, n, base.tasks, candidate.tasks)|
    ensures var items := TaskSection(ids, n, base.tasks, candidate.tasks);
      && p <= q < n && !items[i].key.RuleKey? && !items[j].key.RuleKey?
      && items[i].key.id == ids[p] && items[j].key.id == ids[q]
      && (p == q ==> Turn(items[i].key) < Turn(items[j].key))
  {
    hide TaskItems, TaskAt, Turn;
    var front := TaskSection(ids, n - 1, base.tasks, candidate.tasks);
    if j < |front| {
      p, q := TaskSectionOrder(ids, n - 1, base, candidate, i, j);
    } else {
      q := n - 1;
      var was, now := TaskAt(base.tasks, ids[q]), TaskAt(candidate.tasks, ids[q]);
      TaskItemsKeys(ids[q], was, now, j - |front|);
      if i < |front| {
        p := TaskSectionAt(ids, n - 1, base, candidate, i);
      } else {
        p := q;
        TaskItemsKeys(ids[q], was, now, i - |front|);
        TurnsAscend(ids[q], was, now, i - |front|, j - |front|);
      }
    }
  }

  lemma {:induction false} NewIdsInOrder(base: seq<Task>, candidate: seq<Task>, p: nat, q: nat) returns (i: nat, j: nat)
    requires p < q < |NewIds(base, candidate)|
    ensures i < j < |candidate| && candidate[i].id == NewIds(base, candidate)[p] && candidate[j].id == NewIds(base, candidate)[q]
  {
    hide TaskAt;
    var front := candidate[..|candidate| - 1];
    if q < |NewIds(base, front)| {
      i, j := NewIdsInOrder(base, front, p, q);
    } else {
      j := |candidate| - 1;
      NewIdsAre(base, front, NewIds(base, front)[p]);
      i :| 0 <= i < |front| && front[i].id == NewIds(base, front)[p];
    }
  }

  /** Tasks come before rules; the base's tasks in its order, then the candidate's new ones in its order; for one task the
      title, the time, the transport, the cost and the note. */
  lemma ItemsInOrder(base: Plan, candidate: Plan, i: nat, j: nat)
    requires Days(base, candidate) && i < j < |ItemsOf(base, candidate)|
    ensures var k, l := ItemsOf(base, candidate)[i].key, ItemsOf(base, candidate)[j].key;
      && (k.RuleKey? ==> l.RuleKey?)
      && (!k.RuleKey? && !l.RuleKey? && k.id == l.id ==> Turn(k) < Turn(l))
      && (!k.RuleKey? && !l.RuleKey? && k.id != l.id ==>
            (|| (exists p, q :: 0 <= p < q < |base.tasks| && base.tasks[p].id == k.id && base.tasks[q].id == l.id)
             || (HasId(base.tasks, k.id) && !HasId(base.tasks, l.id))
             || (!HasId(base.tasks, k.id) && !HasId(base.tasks, l.id) &&
                   exists p, q :: 0 <= p < q < |candidate.tasks| && candidate.tasks[p].id == k.id && candidate.tasks[q].id == l.id)))
  {
    var ids, rules := TaskIds(base.tasks, candidate.tasks), RuleIds(base.constraints, candidate.constraints);
    var tasks := TaskSection(ids, |ids|, base.tasks, candidate.tasks);
    var items := ItemsOf(base, candidate);
    hide TaskSection, RuleSection, RuleIds;
    TaskIdsAre(base.tasks, candidate.tasks, "");
    if j < |tasks| {
      var p, q := TaskSectionOrder(ids, |ids|, base, candidate, i, j);
      assert items[i] == tasks[i] && items[j] == tasks[j];
      if p < q {
        TaskIdsInOrder(base, candidate, p, q);
      }
    } else {
      var rest := RuleSection(rules, |rules|, base.constraints, candidate.constraints);
      assert items[j] == rest[j - |tasks|] && rest[j - |tasks|] in rest;
      RuleSectionIs(rules, |rules|, base, candidate, items[j]);
    }
  }

  lemma TaskIdsInOrder(base: Plan, candidate: Plan, p: nat, q: nat)
    requires Days(base, candidate) && p < q < |TaskIds(base.tasks, candidate.tasks)|
    ensures var a, b := TaskIds(base.tasks, candidate.tasks)[p], TaskIds(base.tasks, candidate.tasks)[q];
      && a != b
      && (|| (exists x, y :: 0 <= x < y < |base.tasks| && base.tasks[x].id == a && base.tasks[y].id == b)
          || (HasId(base.tasks, a) && !HasId(base.tasks, b))
          || (!HasId(base.tasks, a) && !HasId(base.tasks, b) &&
                exists x, y :: 0 <= x < y < |candidate.tasks| && candidate.tasks[x].id == a && candidate.tasks[y].id == b))
  {
    hide TaskAt, NewIds;
    TaskIdsAre(base.tasks, candidate.tasks, "");
    var ids, added, n := TaskIds(base.tasks, candidate.tasks), NewIds(base.tasks, candidate.tasks), |base.tasks|;
    if p < n {
      assert base.tasks[p].id == ids[p];
      if q < n {
        assert base.tasks[q].id == ids[q];
      }
    }
    if q >= n {
      assert ids[q] == added[q - n];
      NewIdsAre(base.tasks, candidate.tasks, ids[q]);
      TaskAtIff(base.tasks, ids[q]);
      if p >= n {
        assert ids[p] == added[p - n];
        NewIdsAre(base.tasks, candidate.tasks, ids[p]);
        TaskAtIff(base.tasks, ids[p]);
        var x, y := NewIdsInOrder(base.tasks, candidate.tasks, p - n, q - n);
      }
    }
  }
}
