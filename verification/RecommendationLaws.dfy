/** What a chosen plan is good for. */
module RecommendationLaws {
  import opened Prelude
  import opened Combinatorics
  import opened Recommendation
  import opened RecommendationChoice

  ghost predicate DistinctIds(ids: seq<string>) {
    forall i, j :: 0 <= i < j < |ids| ==> ids[i] != ids[j]
  }

  lemma PlacesAreDistinct(cs: seq<Candidate>)
    requires DistinctPlaces(cs)
    ensures Combinatorics.Distinct(cs)
  {
  }

  lemma PoolPlaces(cs: seq<Candidate>, ids: seq<string>, required: seq<Candidate>, meals: Meals)
    requires DistinctPlaces(cs) && DistinctIds(ids) && forall c :: c in required ==> c in cs
    ensures var pool := PoolOf(cs, ids, required, meals);
      && DistinctPlaces(pool)
      && (forall c :: c in pool ==> c in cs)
      && (forall c :: c in required ==> c in pool)
      && (meals.Any() ==> forall c :: c in cs ==> c in pool)
  {
    hide Ranked, Extended;
    var ranked := Ranked(cs, ids);
    RankedPlaces(cs, ids);
    ExtendedPlaces(ranked, cs);
    var offered := if meals.Any() then Extended(ranked, cs) else ranked;
    ExtendedPlaces(offered, required);
    var pool := PoolOf(cs, ids, required, meals);
    forall c | c in required
      ensures c in pool
    {
      ListedIsIn(cs, pool, c);
    }
    if meals.Any() {
      forall c | c in cs
        ensures c in pool
      {
        ListedIsIn(cs, offered, c);
      }
    }
  }

  /** Within candidates of distinct places, a place that is listed is that candidate. */
  lemma ListedIsIn(cs: seq<Candidate>, pool: seq<Candidate>, c: Candidate)
    requires DistinctPlaces(cs) && c in cs && Listed(pool, c.placeId) && forall x :: x in pool ==> x in cs
    ensures c in pool
  {
    var i :| 0 <= i < |pool| && pool[i].placeId == c.placeId;
    assert pool[i] in pool;
    SameIdSameCandidate(cs, pool[i], c);
  }

  lemma {:induction false} SplitMember(tasks: seq<Candidate>, atlas: Atlas, dining: bool, c: Candidate)
    ensures c in Split(tasks, atlas, dining) <==> c in tasks && atlas.dining(c) == dining
  {
    if tasks != [] {
      SplitMember(tasks[1..], atlas, dining, c);
      assert c in tasks <==> c == tasks[0] || c in tasks[1..];
    }
  }

  /** The visiting order is the chosen set itself, with meals in exactly the meal slots: lunch third, dinner last. */
  ghost predicate MealsInSlots(tasks: seq<Candidate>, meals: Meals, atlas: Atlas) {
    forall i :: 0 <= i < |tasks| ==>
      (atlas.dining(tasks[i]) <==> (meals.lunch && i == 2) || (meals.dinner && i == |tasks| - 1))
  }

  lemma BothMealsBag(x: seq<Candidate>, y: seq<Candidate>)
    requires |x| == 3 && |y| == 2
    ensures multiset([x[0], x[1], y[0], x[2], y[1]]) == multiset(x) + multiset(y)
  {
    assert x == x[..2] + x[2..] && y == y[..1] + y[1..];
    assert [x[0], x[1], y[0], x[2], y[1]] == x[..2] + y[..1] + x[2..] + y[1..];
  }

  lemma LunchBag(x: seq<Candidate>, y: seq<Candidate>)
    requires |x| == 3 && |y| == 1
    ensures multiset([x[0], x[1], y[0], x[2]]) == multiset(x) + multiset(y)
  {
    assert x == [x[0], x[1], x[2]];
    assert y == [y[0]];
  }

  lemma SlotsBag(meals: Meals, x: seq<Candidate>, y: seq<Candidate>)
    requires meals.Any() && |y| == meals.Count() && (meals.lunch ==> |x| == 3)
    ensures multiset(Slots(meals, x, y)) == multiset(x) + multiset(y)
  {
    if meals.lunch && meals.dinner {
      BothMealsBag(x, y);
    } else if meals.lunch {
      LunchBag(x, y);
    } else {
      assert y == [y[0]];
    }
  }

  lemma SlotsPositions(meals: Meals, x: seq<Candidate>, y: seq<Candidate>, atlas: Atlas)
    requires meals.Any() && |y| == meals.Count() && (meals.lunch ==> |x| == 3)
    requires forall i :: 0 <= i < |x| ==> !atlas.dining(x[i])
    requires forall i :: 0 <= i < |y| ==> atlas.dining(y[i])
    ensures MealsInSlots(Slots(meals, x, y), meals, atlas)
  {
  }

  lemma ArrangementShape(s: seq<Candidate>, a: seq<Candidate>, d: seq<Candidate>, meals: Meals, atlas: Atlas)
    requires meals.Any() && IsArrangement(s, a, d, meals)
    requires |d| == meals.Count() && (meals.lunch ==> |a| == 3)
    requires forall c :: c in a ==> !atlas.dining(c)
    requires forall c :: c in d ==> atlas.dining(c)
    ensures multiset(s) == multiset(a) + multiset(d)
    ensures MealsInSlots(s, meals, atlas)
  {
    hide Slots, MealsInSlots;
    var x, y :| multiset(x) == multiset(a) && multiset(y) == multiset(d) && SlotOf(meals, x, y, s);
    assert |x| == |multiset(x)| == |a| && |y| == |multiset(y)| == |d|;
    forall i | 0 <= i < |x|
      ensures !atlas.dining(x[i])
    {
      assert x[i] in multiset(a);
    }
    forall i | 0 <= i < |y|
      ensures atlas.dining(y[i])
    {
      assert y[i] in multiset(d);
    }
    SlotsBag(meals, x, y);
    SlotsPositions(meals, x, y, atlas);
  }

  /** The chosen places: distinct candidates of the pool, as many as the day holds, a place for every required label,
      exactly as many meals as wanted; visited in an order of which no other arrangement has a smaller key. */
  lemma PlanKeepsItsPromises(
    cs: seq<Candidate>, ids: seq<string>, members: seq<Member>, meals: Meals, atlas: Atlas, plan: Plan, other: seq<Candidate>)
    requires DistinctPlaces(cs) && DistinctIds(ids)
    requires Answers(cs, ids, members, meals, atlas, Ok(Some(plan)))
    ensures multiset(plan.tasks) == multiset(plan.chosen)
    ensures DistinctPlaces(plan.chosen) && (forall c :: c in plan.chosen ==> c in cs)
    ensures forall i :: 0 <= i < |RequiredLabels(members)| ==> Serves(plan.chosen, RequiredLabels(members)[i], atlas)
    ensures meals.Any() ==> |plan.tasks| == 3 + meals.Count() || !meals.lunch
    ensures meals.Any() ==> MealsInSlots(plan.tasks, meals, atlas)
    ensures meals.Any() && IsArrangement(other, Split(plan.chosen, atlas, false), Split(plan.chosen, atlas, true), meals) ==>
      !KeyLess(ArrangementKey(other, meals, atlas), ArrangementKey(plan.tasks, meals, atlas))
  {
    hide KeyLess, FairnessKey, Ranked, Extended, RequiredPlaces, StableUnique, Arranged, ArrangementKey, Picks, PoolOf;
    var labels := RequiredLabels(members);
    var required := RequiredPlaces(cs, labels, |labels|, atlas).value;
    var pool := PoolOf(cs, ids, required, meals);
    RequiredFromCandidates(cs, labels, |labels|, atlas);
    PoolPlaces(cs, ids, required, meals);
    ChosenPlaces(cs, pool, required, plan.chosen);
    forall i | 0 <= i < |labels|
      ensures Serves(plan.chosen, labels[i], atlas)
    {
      var j :| 0 <= j < |required| && atlas.matches(required[j], labels[i]);
      assert required[j] in plan.chosen;
    }
    ArrangedPlan(pool, required, meals, atlas, plan, other);
  }

  lemma ChosenPlaces(cs: seq<Candidate>, pool: seq<Candidate>, required: seq<Candidate>, chosen: seq<Candidate>)
    requires DistinctPlaces(cs) && DistinctPlaces(pool) && (forall c :: c in pool ==> c in cs) && (forall c :: c in required ==> c in cs)
    requires Picks(chosen, pool) && forall i :: 0 <= i < |required| ==> Listed(chosen, required[i].placeId)
    ensures DistinctPlaces(chosen)
    ensures forall c :: c in chosen ==> c in cs
    ensures forall c :: c in required ==> c in chosen
  {
    hide Picks;
    PlacesAreDistinct(pool);
    PicksDistinct(chosen, pool);
    forall c | c in chosen
      ensures c in pool && c in cs
    {
      PicksMembers(chosen, pool, c);
    }
    forall i, j | 0 <= i < j < |chosen|
      ensures chosen[i].placeId != chosen[j].placeId
    {
      if chosen[i].placeId == chosen[j].placeId {
        SameIdSameCandidate(cs, chosen[i], chosen[j]);
      }
    }
    forall c | c in required
      ensures c in chosen
    {
      ListedIsIn(cs, chosen, c);
    }
  }

  lemma ArrangedPlan(
    pool: seq<Candidate>, required: seq<Candidate>, meals: Meals, atlas: Atlas, plan: Plan, other: seq<Candidate>)
    requires Feasible(pool, required, meals, atlas, plan.chosen) && Arranged(plan.chosen, meals, atlas) == Some(plan.tasks)
    ensures multiset(plan.tasks) == multiset(plan.chosen)
    ensures meals.Any() ==> |plan.tasks| == 3 + meals.Count() || !meals.lunch
    ensures meals.Any() ==> MealsInSlots(plan.tasks, meals, atlas)
    ensures meals.Any() && IsArrangement(other, Split(plan.chosen, atlas, false), Split(plan.chosen, atlas, true), meals) ==>
      !KeyLess(ArrangementKey(other, meals, atlas), ArrangementKey(plan.tasks, meals, atlas))
  {
    hide KeyLess, ArrangementKey, Picks, IsArrangement, Arrangements, LeastOf, KeysOf, Split;
    if meals.Any() {
      FeasibleArranges(pool, required, meals, atlas, plan.chosen);
      var a, d := Split(plan.chosen, atlas, false), Split(plan.chosen, atlas, true);
      SplitSizes(plan.chosen, atlas);
      ArrangedIsBest(plan.chosen, meals, atlas, other);
      forall c
        ensures c in a ==> !atlas.dining(c)
        ensures c in d ==> atlas.dining(c)
      {
        SplitMember(plan.chosen, atlas, false, c);
        SplitMember(plan.chosen, atlas, true, c);
      }
      ArrangementShape(plan.tasks, a, d, meals, atlas);
      assert |plan.tasks| == |multiset(plan.tasks)| == |multiset(plan.chosen)|;
    }
  }

  /** No set of pool places of the right size, with the required places and the right number of meals, has a smaller
      fairness key than the chosen one: the search misses no set. */
  lemma NoFairerSet(
    cs: seq<Candidate>, ids: seq<string>, members: seq<Member>, meals: Meals, atlas: Atlas, plan: Plan, rival: set<Candidate>)
    requires DistinctPlaces(cs) && DistinctIds(ids)
    requires Answers(cs, ids, members, meals, atlas, Ok(Some(plan)))
    requires var labels := RequiredLabels(members);
      var required := RequiredPlaces(cs, labels, |labels|, atlas);
      required.Ok? &&
      var pool := PoolOf(cs, ids, required.value, meals);
      && (forall c :: c in rival ==> c in pool)
      && |rival| == TargetSize(pool, meals)
      && (forall c :: c in required.value ==> c in rival)
      && (meals.Any() ==> |Split(Chosen(pool, rival), atlas, true)| == meals.Count())
    ensures members != []
    ensures var labels := RequiredLabels(members);
      var pool := PoolOf(cs, ids, RequiredPlaces(cs, labels, |labels|, atlas).value, meals);
      var tasks := Chosen(pool, rival);
      && Arranged(tasks, meals, atlas).Some? && Arranged(plan.chosen, meals, atlas).Some?
      && !KeyLess(FairnessKey(tasks, members, meals, atlas), FairnessKey(plan.chosen, members, meals, atlas))
  {
    hide KeyLess, FairnessKey, Ranked, Extended, RequiredPlaces, StableUnique, Arranged, Picks, PoolOf, Split;
    var labels := RequiredLabels(members);
    var required := RequiredPlaces(cs, labels, |labels|, atlas).value;
    RequiredFromCandidates(cs, labels, |labels|, atlas);
    PoolPlaces(cs, ids, required, meals);
    var pool := PoolOf(cs, ids, required, meals);
    PlacesAreDistinct(pool);
    SetIsPicked(pool, rival);
    var tasks := Chosen(pool, rival);
    forall i | 0 <= i < |required|
      ensures Listed(tasks, required[i].placeId)
    {
      assert required[i] in required && required[i] in tasks;
    }
    assert Feasible(pool, required, meals, atlas, tasks);
  }

  lemma {:induction false} MustVisitListed(members: seq<Member>, m: nat, i: nat) returns (k: nat)
    requires m < |members| && i < |members[m].mustVisit|
    ensures k < |AllMustVisit(members)| && AllMustVisit(members)[k] == members[m].mustVisit[i]
  {
    if m == 0 {
      k := i;
    } else {
      k := MustVisitListed(members[1..], m - 1, i);
      k := k + |members[0].mustVisit|;
    }
  }

  /** A day with lunch and a pool of two activities and one restaurant passes every check and then runs out of a third
      activity. */
  lemma ShortLunchFails(a: Candidate, b: Candidate, d: Candidate, m: Member, atlas: Atlas, r: Result<Option<Plan>, Failure>)
    requires DistinctPlaces([a, b, d]) && !atlas.dining(a) && !atlas.dining(b) && atlas.dining(d) && m.mustVisit == []
    requires Answers([a, b, d], [a.placeId, b.placeId, d.placeId], [m], Meals(true, false), atlas, r)
    ensures r == Err(ArrangementIndex)
  {
    hide PoolOf, Answers, Split, RequiredLabels;
    var cs, ids, meals := [a, b, d], [a.placeId, b.placeId, d.placeId], Meals(true, false);
    NoLabels(m);
    assert DistinctIds(ids) by {
      assert forall i :: 0 <= i < 3 ==> ids[i] == cs[i].placeId;
    }
    PoolPlaces(cs, ids, [], meals);
    var pool := PoolOf(cs, ids, [], meals);
    PoolOfThree(pool, a, b, d, atlas);
    ShortPoolFails(cs, ids, m, atlas, r);
  }

  lemma ShortPoolFails(cs: seq<Candidate>, ids: seq<string>, m: Member, atlas: Atlas, r: Result<Option<Plan>, Failure>)
    requires Answers(cs, ids, [m], Meals(true, false), atlas, r)
    requires RequiredLabels([m]) == []
    requires var pool := PoolOf(cs, ids, [], Meals(true, false)); |pool| == 3 && |Split(pool, atlas, true)| == 1
    ensures r == Err(ArrangementIndex)
  {
    hide PoolOf, Picks, Split, RequiredLabels, BestPlan;
    var meals := Meals(true, false);
    var pool := PoolOf(cs, ids, [], meals);
    PicksItself(pool);
    assert Feasible(pool, [], meals, atlas, pool);
  }

  lemma NoLabels(m: Member)
    requires m.mustVisit == []
    ensures RequiredLabels([m]) == []
  {
    assert AllMustVisit([m][1..]) == [];
  }

  lemma {:induction false} PicksItself(s: seq<Candidate>)
    ensures Picks(s, s)
  {
    if s != [] {
      PicksItself(s[1..]);
    }
  }

  lemma PoolOfThree(pool: seq<Candidate>, a: Candidate, b: Candidate, d: Candidate, atlas: Atlas)
    requires DistinctPlaces([a, b, d]) && DistinctPlaces(pool)
    requires forall c :: c in pool <==> c in [a, b, d]
    requires !atlas.dining(a) && !atlas.dining(b) && atlas.dining(d)
    ensures |pool| == 3 && |Split(pool, atlas, true)| == 1
  {
    assert a != b && b != d && a != d by {
      var cs := [a, b, d];
      assert cs[0].placeId != cs[1].placeId && cs[1].placeId != cs[2].placeId && cs[0].placeId != cs[2].placeId;
    }
    assert a in pool && b in pool && d in pool;
    SameMembersSameSize(pool, [a, b, d]);
    SplitOfThree(pool, atlas, d);
  }

  lemma SameMembersSameSize(s: seq<Candidate>, t: seq<Candidate>)
    requires DistinctPlaces(s) && DistinctPlaces(t) && forall c :: c in s <==> c in t
    ensures |s| == |t| && multiset(s) == multiset(t)
  {
    DistinctBag(s);
    DistinctBag(t);
    assert multiset(s) == multiset(t);
    assert |s| == |multiset(s)| && |t| == |multiset(t)|;
  }

  lemma {:induction false} DistinctBag(s: seq<Candidate>)
    requires DistinctPlaces(s)
    ensures forall c :: multiset(s)[c] == if c in s then 1 else 0
  {
    if s != [] {
      DistinctBag(s[1..]);
      assert s == [s[0]] + s[1..];
    }
  }

  lemma SplitOfThree(pool: seq<Candidate>, atlas: Atlas, d: Candidate)
    requires |pool| == 3 && DistinctPlaces(pool) && d in pool && atlas.dining(d)
    requires forall c :: c in pool && c != d ==> !atlas.dining(c)
    ensures |Split(pool, atlas, true)| == 1
  {
    assert pool[0] in pool && pool[1] in pool && pool[2] in pool;
    assert Split(pool, atlas, true) ==
      (if atlas.dining(pool[0]) then [pool[0]] else []) + Split(pool[1..], atlas, true);
    assert Split(pool[1..], atlas, true) ==
      (if atlas.dining(pool[1]) then [pool[1]] else []) + Split(pool[2..], atlas, true) by { assert pool[1..][1..] == pool[2..]; }
    assert Split(pool[2..], atlas, true) ==
      (if atlas.dining(pool[2]) then [pool[2]] else []) + Split(pool[3..], atlas, true) by { assert pool[2..][1..] == pool[3..]; }
  }
}
