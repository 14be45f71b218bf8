/** The pieces `choose_single_plan` of app/application/recommendation_service.py is made of: labels, member scores, the
    arrangement of meals, and the fairness key. Text matching and geometry enter as a port. */
module Recommendation {
  import opened Prelude
  import opened Combinatorics
  import Lex = Lexicographic

  /** A preference text, stripped, beside its case-folded image. */
  datatype Label = Label(text: string, folded: string)

  datatype Candidate = Candidate(factRef: string, placeId: string, name: string, category: Option<string>)

  datatype Member = Member(participantId: string, interests: seq<Label>, mustVisit: seq<Label>)

  /** What the text and geometry helpers answer, and the known prices of the places with facts. */
  datatype Atlas = Atlas(
    dining: Candidate -> bool,
    matches: (Candidate, Label) -> bool,
    covers: (seq<Candidate>, Label) -> bool,
    prices: map<string, Option<nat>>,
    distance: (string, string) -> nat)

  datatype Meals = Meals(lunch: bool, dinner: bool)
  {
    predicate Any() { lunch || dinner }
    function Count(): nat { (if lunch then 1 else 0) + (if dinner then 1 else 0) }
  }

  const NO_FACT := 1_000_000_000_000
  const NO_ANCHOR := 1_000_000_000

  // ---- Labels ------------------------------------------------------------------------------

  predicate HasFolded(labels: seq<Label>, folded: string) {
    exists i :: 0 <= i < |labels| && labels[i].folded == folded
  }

  /** The first occurrence of every non-blank text among the first n. */
  function FirstOccurrences(values: seq<Label>, n: nat): seq<Label>
    requires n <= |values|
  {
    if n == 0 then [] else
      var kept := FirstOccurrences(values, n - 1);
      if values[n - 1].folded == "" || HasFolded(kept, values[n - 1].folded) then kept else kept + [values[n - 1]]
  }

  function StableUnique(values: seq<Label>, limit: nat): seq<Label> {
    var kept := FirstOccurrences(values, |values|);
    if |kept| <= limit then kept else kept[..limit]
  }

  lemma {:induction false} FirstOccurrencesGrow(values: seq<Label>, m: nat, n: nat)
    requires m <= n <= |values|
    ensures FirstOccurrences(values, m) <= FirstOccurrences(values, n)
  {
    if m < n {
      FirstOccurrencesGrow(values, m, n - 1);
    }
  }

  lemma {:induction false} FirstOccurrencesCover(values: seq<Label>, n: nat, i: nat)
    requires i < n <= |values| && values[i].folded != ""
    ensures HasFolded(FirstOccurrences(values, n), values[i].folded)
  {
    if i < n - 1 {
      FirstOccurrencesCover(values, n - 1, i);
      var kept := FirstOccurrences(values, n - 1);
      var j :| 0 <= j < |kept| && kept[j].folded == values[i].folded;
      assert FirstOccurrences(values, n)[j] == kept[j];
    } else {
      var kept := FirstOccurrences(values, n - 1);
      if !HasFolded(kept, values[i].folded) {
        assert FirstOccurrences(values, n)[|kept|] == values[i];
      } else {
        assert FirstOccurrences(values, n) == kept;
      }
    }
  }

  predicate FoldedApart(labels: seq<Label>) {
    forall i, j :: 0 <= i < j < |labels| ==> labels[i].folded != labels[j].folded
  }

  /** Non-blank labels, all of them among the given values. */
  predicate WordsOf(labels: seq<Label>, values: seq<Label>) {
    forall l :: l in labels ==> l.folded != "" && l in values
  }

  lemma {:induction false} FirstOccurrencesDiffer(values: seq<Label>, n: nat)
    requires n <= |values|
    ensures FoldedApart(FirstOccurrences(values, n)) && WordsOf(FirstOccurrences(values, n), values)
  {
    if n > 0 {
      FirstOccurrencesDiffer(values, n - 1);
      var kept, last := FirstOccurrences(values, n - 1), values[n - 1];
      assert last in values;
      if last.folded != "" && !HasFolded(kept, last.folded) {
        assert FirstOccurrences(values, n) == kept + [last];
      }
    }
  }

  /** When all texts differ, each is its own first occurrence. */
  lemma {:induction false} AllFirst(values: seq<Label>, n: nat)
    requires n <= |values| && FoldedApart(values) && forall i :: 0 <= i < |values| ==> values[i].folded != ""
    ensures FirstOccurrences(values, n) == values[..n]
  {
    if n > 0 {
      AllFirst(values, n - 1);
      assert values[..n] == values[..n - 1] + [values[n - 1]];
    }
  }

  /** `_stable_unique_text`. */
  method StableUniqueText(values: seq<Label>, limit: nat) returns (result: seq<Label>)
    requires limit > 0
    ensures result == StableUnique(values, limit)
  {
    result := [];
    var i := 0;
    while i < |values|
      invariant 0 <= i <= |values|
      invariant result == FirstOccurrences(values, i) && |result| < limit
    {
      if values[i].folded != "" && !HasFolded(result, values[i].folded) {
        result := result + [values[i]];
        if |result| == limit {
          FirstOccurrencesGrow(values, i + 1, |values|);
          return;
        }
      }
      i := i + 1;
    }
  }

  // ---- Member scores -----------------------------------------------------------------------

  function Unmet(interests: seq<Label>, tasks: seq<Candidate>, atlas: Atlas): nat {
    if interests == [] then 0
    else (if interests[0].folded != "" && !atlas.covers(tasks, interests[0]) then 1 else 0) + Unmet(interests[1..], tasks, atlas)
  }

  predicate Serves(tasks: seq<Candidate>, wish: Label, atlas: Atlas) {
    exists i :: 0 <= i < |tasks| && atlas.matches(tasks[i], wish)
  }

  predicate MissesMustVisit(m: Member, tasks: seq<Candidate>, atlas: Atlas) {
    exists i :: 0 <= i < |m.mustVisit| && m.mustVisit[i].folded != "" && !Serves(tasks, m.mustVisit[i], atlas)
  }

  function Floor(n: int): nat { if n < 0 then 0 else n }

  function ScoreOf(m: Member, tasks: seq<Candidate>, atlas: Atlas): (score: nat)
    ensures score <= 100
  {
    var base := Floor(100 - 20 * Unmet(m.interests, tasks, atlas));
    if MissesMustVisit(m, tasks, atlas) then Floor(base - 60) else base
  }

  function Scores(members: seq<Member>, tasks: seq<Candidate>, atlas: Atlas): (scores: seq<nat>)
    ensures |scores| == |members|
    ensures forall i :: 0 <= i < |members| ==> scores[i] == ScoreOf(members[i], tasks, atlas)
  {
    seq(|members|, i requires 0 <= i < |members| => ScoreOf(members[i], tasks, atlas))
  }

  function Sum(values: seq<nat>): nat {
    if values == [] then 0 else values[0] + Sum(values[1..])
  }

  function Minimum(values: seq<nat>): (m: nat)
    requires values != []
    ensures m in values && forall i :: 0 <= i < |values| ==> m <= values[i]
  {
    if |values| == 1 then values[0]
    else
      var rest := Minimum(values[1..]);
      assert forall i :: 1 <= i < |values| ==> values[i] == values[1..][i - 1];
      if values[0] <= rest then values[0] else rest
  }

  // ---- Arranging meals ---------------------------------------------------------------------

  function Split(tasks: seq<Candidate>, atlas: Atlas, dining: bool): (r: seq<Candidate>)
    ensures |r| <= |tasks|
  {
    if tasks == [] then []
    else (if atlas.dining(tasks[0]) == dining then [tasks[0]] else []) + Split(tasks[1..], atlas, dining)
  }

  /** Lunch follows the second activity and dinner comes last, so lunch needs a third activity. */
  predicate SlotsDefined(meals: Meals, activities: nat, dining: nat) {
    (meals.lunch ==> 3 <= activities) && meals.Count() <= dining
  }

  function Slots(meals: Meals, a: seq<Candidate>, d: seq<Candidate>): seq<Candidate>
    requires SlotsDefined(meals, |a|, |d|)
  {
    if meals.lunch && meals.dinner then [a[0], a[1], d[0], a[2], d[1]]
    else if meals.lunch then [a[0], a[1], d[0], a[2]]
    else if meals.dinner then a + [d[0]]
    else a + d
  }

  predicate HasFacts(tasks: seq<Candidate>, atlas: Atlas) {
    forall i :: 0 <= i < |tasks| ==> tasks[i].placeId in atlas.prices
  }

  function Leg(tasks: seq<Candidate>, meal: nat, anchor: nat, atlas: Atlas): Option<nat>
    requires meal < |tasks| && anchor < |tasks|
  {
    if tasks[meal].placeId in atlas.prices && tasks[anchor].placeId in atlas.prices
    then Some(atlas.distance(tasks[meal].placeId, tasks[anchor].placeId))
    else None
  }

  /** How far each meal is from the activity before it. */
  function AnchorDistance(tasks: seq<Candidate>, meals: Meals, atlas: Atlas): nat {
    if meals.lunch && meals.dinner && |tasks| >= 5 then
      var lunch, dinner := Leg(tasks, 2, 1, atlas), Leg(tasks, 4, 3, atlas);
      if lunch.Some? && dinner.Some? then lunch.value + dinner.value else NO_FACT
    else if meals.lunch && !meals.dinner && |tasks| >= 4 then
      var lunch := Leg(tasks, 2, 1, atlas);
      if lunch.Some? then lunch.value else NO_FACT
    else if meals.dinner && !meals.lunch && |tasks| >= 4 then
      var dinner := Leg(tasks, 3, 2, atlas);
      if dinner.Some? then dinner.value else NO_FACT
    else 0
  }

  function Walk(tasks: seq<Candidate>, atlas: Atlas): nat {
    if |tasks| < 2 then 0 else atlas.distance(tasks[0].placeId, tasks[1].placeId) + Walk(tasks[1..], atlas)
  }

  function WalkDistance(tasks: seq<Candidate>, atlas: Atlas): nat {
    if HasFacts(tasks, atlas) then Walk(tasks, atlas) else NO_FACT
  }

  function Ids(tasks: seq<Candidate>): (ids: seq<string>)
    ensures |ids| == |tasks| && forall i :: 0 <= i < |tasks| ==> ids[i] == tasks[i].placeId
  {
    seq(|tasks|, i requires 0 <= i < |tasks| => tasks[i].placeId)
  }

  function ArrangementKey(tasks: seq<Candidate>, meals: Meals, atlas: Atlas): Key {
    Key([AnchorDistance(tasks, meals, atlas), WalkDistance(tasks, atlas)], Ids(tasks))
  }

  predicate AllDefined(meals: Meals, orders: seq<seq<Candidate>>, ds: seq<seq<Candidate>>) {
    forall x, y :: x in orders && y in ds ==> SlotsDefined(meals, |x|, |y|)
  }

  /** One arrangement for each order of the meals, the activities being in the given order. */
  function SlotEach(meals: Meals, a: seq<Candidate>, ds: seq<seq<Candidate>>): (r: seq<seq<Candidate>>)
    requires forall y :: y in ds ==> SlotsDefined(meals, |a|, |y|)
    ensures |r| == |ds| && forall i :: 0 <= i < |ds| ==> r[i] == Slots(meals, a, ds[i])
  {
    seq(|ds|, i requires 0 <= i < |ds| => Slots(meals, a, ds[i]))
  }

  function SlotAll(meals: Meals, orders: seq<seq<Candidate>>, ds: seq<seq<Candidate>>): (r: seq<seq<Candidate>>)
    requires AllDefined(meals, orders, ds)
  {
    if orders == [] then [] else SlotEach(meals, orders[0], ds) + SlotAll(meals, orders[1..], ds)
  }

  lemma PermSizes(s: seq<Candidate>)
    ensures forall p :: p in Perms(s) ==> |p| == |s|
  {
    forall p | p in Perms(s)
      ensures |p| == |s|
    {
      PermsAre(s, p);
      assert |multiset(p)| == |multiset(s)|;
    }
  }

  /** All sequences `_order_tasks_for_meals` compares. */
  function Arrangements(a: seq<Candidate>, d: seq<Candidate>, meals: Meals): (all: seq<seq<Candidate>>)
    requires SlotsDefined(meals, |a|, |d|)
  {
    PermSizes(a);
    PermSizes(d);
    SlotAll(meals, Perms(a), Perms(d))
  }

  ghost predicate SlotOf(meals: Meals, x: seq<Candidate>, y: seq<Candidate>, s: seq<Candidate>) {
    SlotsDefined(meals, |x|, |y|) && s == Slots(meals, x, y)
  }

  ghost predicate IsArrangement(s: seq<Candidate>, a: seq<Candidate>, d: seq<Candidate>, meals: Meals) {
    exists x, y :: multiset(x) == multiset(a) && multiset(y) == multiset(d) && SlotOf(meals, x, y, s)
  }

  lemma SlotEachAre(meals: Meals, a: seq<Candidate>, ds: seq<seq<Candidate>>, s: seq<Candidate>)
    requires forall y :: y in ds ==> SlotsDefined(meals, |a|, |y|)
    ensures s in SlotEach(meals, a, ds) <==> exists y :: y in ds && SlotOf(meals, a, y, s)
  {
    hide Slots, SlotsDefined;
    var each := SlotEach(meals, a, ds);
    if s in each {
      var j :| 0 <= j < |each| && each[j] == s;
      assert ds[j] in ds && SlotOf(meals, a, ds[j], s);
    }
    if y :| y in ds && SlotOf(meals, a, y, s) {
      var j :| 0 <= j < |ds| && ds[j] == y;
      assert each[j] == s;
    }
  }

  lemma {:induction false} SlotAllAre(meals: Meals, orders: seq<seq<Candidate>>, ds: seq<seq<Candidate>>, s: seq<Candidate>)
    requires AllDefined(meals, orders, ds)
    ensures s in SlotAll(meals, orders, ds) <==> exists x, y :: x in orders && y in ds && SlotOf(meals, x, y, s)
  {
    hide Slots, SlotsDefined, SlotEach, SlotOf;
    if orders != [] {
      SlotEachAre(meals, orders[0], ds, s);
      SlotAllAre(meals, orders[1..], ds, s);
      assert forall x :: x in orders <==> x == orders[0] || x in orders[1..];
    }
  }

  /** The compared sequences are exactly the arrangements: any order of the activities with any order of the meals in
      the meal slots. */
  lemma ArrangementsAre(a: seq<Candidate>, d: seq<Candidate>, meals: Meals, s: seq<Candidate>)
    requires SlotsDefined(meals, |a|, |d|)
    ensures s in Arrangements(a, d, meals) <==> IsArrangement(s, a, d, meals)
  {
    hide SlotAll, Perms, SlotOf;
    PermSizes(a);
    PermSizes(d);
    SlotAllAre(meals, Perms(a), Perms(d), s);
    forall x
      ensures x in Perms(a) <==> multiset(x) == multiset(a)
      ensures x in Perms(d) <==> multiset(x) == multiset(d)
    {
      PermsAre(a, x);
      PermsAre(d, x);
    }
  }

  function KeysOf(all: seq<seq<Candidate>>, meals: Meals, atlas: Atlas): (keys: seq<Key>)
    ensures |keys| == |all| && forall i :: 0 <= i < |all| ==> keys[i] == ArrangementKey(all[i], meals, atlas)
  {
    seq(|all|, i requires 0 <= i < |all| => ArrangementKey(all[i], meals, atlas))
  }

  lemma ArrangementsNonempty(a: seq<Candidate>, d: seq<Candidate>, meals: Meals)
    requires SlotsDefined(meals, |a|, |d|)
    ensures Arrangements(a, d, meals) != []
  {
    assert SlotOf(meals, a, d, Slots(meals, a, d));
    ArrangementsAre(a, d, meals, Slots(meals, a, d));
  }

  /** `_order_tasks_for_meals`; nothing stands for the index error when lunch has no third activity. */
  function Arranged(tasks: seq<Candidate>, meals: Meals, atlas: Atlas): Option<seq<Candidate>> {
    var a, d := Split(tasks, atlas, false), Split(tasks, atlas, true);
    if !meals.Any() then Some(tasks)
    else if d == [] then Some(a)
    else if !SlotsDefined(meals, |a|, |d|) then None
    else
      ArrangementsNonempty(a, d, meals);
      var all := Arrangements(a, d, meals);
      var keys := KeysOf(all, meals, atlas);
      Some(all[LeastOf(keys, |keys|)])
  }

  /** The chosen order is an arrangement, and none has a smaller (meal distance, total distance, ids) key. */
  lemma ArrangedIsBest(tasks: seq<Candidate>, meals: Meals, atlas: Atlas, other: seq<Candidate>)
    requires meals.Any() && Split(tasks, atlas, true) != [] && Arranged(tasks, meals, atlas).Some?
    ensures var a, d := Split(tasks, atlas, false), Split(tasks, atlas, true);
      var best := Arranged(tasks, meals, atlas).value;
      && IsArrangement(best, a, d, meals)
      && (IsArrangement(other, a, d, meals) ==>
            !KeyLess(ArrangementKey(other, meals, atlas), ArrangementKey(best, meals, atlas)))
  {
    var a, d := Split(tasks, atlas, false), Split(tasks, atlas, true);
    var all := Arrangements(a, d, meals);
    var keys := KeysOf(all, meals, atlas);
    ArrangementsNonempty(a, d, meals);
    var best := Arranged(tasks, meals, atlas).value;
    assert best in all;
    ArrangementsAre(a, d, meals, best);
    ArrangementsAre(a, d, meals, other);
    if IsArrangement(other, a, d, meals) {
      var j :| 0 <= j < |all| && all[j] == other;
      LeastIsMinimal(keys, |keys|, j);
    }
  }

  lemma {:induction false} SlotAllAppend(meals: Meals, orders: seq<seq<Candidate>>, last: seq<Candidate>, ds: seq<seq<Candidate>>)
    requires AllDefined(meals, orders + [last], ds)
    ensures AllDefined(meals, orders, ds) && (forall y :: y in ds ==> SlotsDefined(meals, |last|, |y|))
    ensures SlotAll(meals, orders + [last], ds) == SlotAll(meals, orders, ds) + SlotEach(meals, last, ds)
  {
    hide SlotsDefined, SlotEach;
    assert last in orders + [last];
    if orders == [] {
      assert orders + [last] == [last];
      assert SlotAll(meals, [last][1..], ds) == [];
    } else {
      assert (orders + [last])[1..] == orders[1..] + [last];
      SlotAllAppend(meals, orders[1..], last, ds);
    }
  }

  /** The nested loops of `_order_tasks_for_meals`. */
  method CollectArrangements(orders: seq<seq<Candidate>>, diningOrders: seq<seq<Candidate>>, meals: Meals)
    returns (sequences: seq<seq<Candidate>>)
    requires AllDefined(meals, orders, diningOrders)
    ensures sequences == SlotAll(meals, orders, diningOrders)
  {
    hide Slots, SlotsDefined, SlotAll;
    sequences := [];
    assert orders[..0] == [] && SlotAll(meals, [], diningOrders) == [] by { NoOrders(meals, diningOrders); }
    var i := 0;
    while i < |orders|
      invariant 0 <= i <= |orders|
      invariant sequences == SlotAll(meals, orders[..i], diningOrders)
    {
      ghost var before := sequences;
      assert orders[..i + 1] == orders[..i] + [orders[i]];
      SlotAllAppend(meals, orders[..i], orders[i], diningOrders);
      var each := SlotMeals(orders[i], diningOrders, meals);
      sequences := sequences + each;
      i := i + 1;
    }
    assert orders[..i] == orders;
  }

  lemma NoOrders(meals: Meals, ds: seq<seq<Candidate>>)
    ensures SlotAll(meals, [], ds) == []
  {
  }

  method SlotMeals(order: seq<Candidate>, diningOrders: seq<seq<Candidate>>, meals: Meals) returns (each: seq<seq<Candidate>>)
    requires forall y :: y in diningOrders ==> SlotsDefined(meals, |order|, |y|)
    ensures each == SlotEach(meals, order, diningOrders)
  {
    hide Slots, SlotsDefined;
    each := [];
    var j := 0;
    while j < |diningOrders|
      invariant 0 <= j <= |diningOrders| && |each| == j
      invariant forall k :: 0 <= k < j ==> each[k] == Slots(meals, order, diningOrders[k])
    {
      each := each + [Slots(meals, order, diningOrders[j])];
      j := j + 1;
    }
  }

  method OrderTasksForMeals(tasks: seq<Candidate>, meals: Meals, atlas: Atlas) returns (r: Option<seq<Candidate>>)
    ensures r == Arranged(tasks, meals, atlas)
  {
    hide Slots, SlotsDefined, SlotAll, Perms, LeastOf, ArrangementKey;
    if !meals.Any() {
      return Some(tasks);
    }
    var dining := Split(tasks, atlas, true);
    var activities := Split(tasks, atlas, false);
    if dining == [] {
      return Some(activities);
    }
    if !SlotsDefined(meals, |activities|, |dining|) {
      return None;
    }
    PermSizes(activities);
    PermSizes(dining);
    var sequences := CollectArrangements(Perms(activities), Perms(dining), meals);
    ArrangementsNonempty(activities, dining, meals);
    var best := FirstLeast(KeysOf(sequences, meals, atlas));
    return Some(sequences[best]);
  }

  // ---- The fairness key --------------------------------------------------------------------

  function NearestDistance(place: string, anchors: seq<Candidate>, atlas: Atlas): nat {
    if anchors == [] then NO_ANCHOR
    else if |anchors| == 1 then atlas.distance(place, anchors[0].placeId)
    else
      var rest := NearestDistance(place, anchors[1..], atlas);
      if atlas.distance(place, anchors[0].placeId) <= rest then atlas.distance(place, anchors[0].placeId) else rest
  }

  function WithFacts(tasks: seq<Candidate>, atlas: Atlas): seq<Candidate> {
    if tasks == [] then []
    else (if tasks[0].placeId in atlas.prices then [tasks[0]] else []) + WithFacts(tasks[1..], atlas)
  }

  function TotalNearest(dining: seq<Candidate>, activities: seq<Candidate>, atlas: Atlas): nat {
    if dining == [] then 0 else NearestDistance(dining[0].placeId, activities, atlas) + TotalNearest(dining[1..], activities, atlas)
  }

  function KnownCost(tasks: seq<Candidate>, atlas: Atlas): nat {
    if tasks == [] then 0
    else
      (if tasks[0].placeId in atlas.prices && atlas.prices[tasks[0].placeId].Some? then atlas.prices[tasks[0].placeId].value else 0)
      + KnownCost(tasks[1..], atlas)
  }

  function IdSet(tasks: seq<Candidate>): set<string> {
    set i | 0 <= i < |tasks| :: tasks[i].placeId
  }

  function Join(texts: seq<string>): string {
    if texts == [] then "" else if |texts| == 1 then texts[0] else texts[0] + "," + Join(texts[1..])
  }

  function Proximity(tasks: seq<Candidate>, meals: Meals, atlas: Atlas): nat
    requires Arranged(tasks, meals, atlas).Some?
  {
    if meals.Any() then AnchorDistance(Arranged(tasks, meals, atlas).value, meals, atlas)
    else TotalNearest(WithFacts(Split(tasks, atlas, true), atlas), WithFacts(Split(tasks, atlas, false), atlas), atlas)
  }

  /** Highest minimum score, then highest total score (the average over the same members), then meals close by, then low
      known cost, then the sorted ids. */
  function FairnessKey(tasks: seq<Candidate>, members: seq<Member>, meals: Meals, atlas: Atlas): Key
    requires members != [] && Arranged(tasks, meals, atlas).Some?
  {
    var scores := Scores(members, tasks, atlas);
    Key([0 - Minimum(scores), 0 - Sum(scores), Proximity(tasks, meals, atlas), KnownCost(tasks, atlas)],
        [Join(Lex.Sorted(IdSet(tasks)))])
  }
}
