/** What the arrangement of meals and the fairness key measure, said in positions, distances, prices and points. */
module ArrangementLaws {
  import opened Prelude
  import opened Combinatorics
  import opened Recommendation
  import opened RecommendationChoice
  import opened RecommendationLaws
  import opened RecommendationFairness
  import Lex = Lexicographic

  // ---- Every order with meals in their slots is compared -----------------------------------------

  lemma BagsApart(x: seq<Candidate>, y: seq<Candidate>, a: seq<Candidate>, d: seq<Candidate>, atlas: Atlas)
    requires multiset(x) + multiset(y) == multiset(a) + multiset(d)
    requires (forall c :: c in x ==> !atlas.dining(c)) && (forall c :: c in a ==> !atlas.dining(c))
    requires (forall c :: c in y ==> atlas.dining(c)) && (forall c :: c in d ==> atlas.dining(c))
    ensures multiset(x) == multiset(a) && multiset(y) == multiset(d)
  {
    forall c
      ensures multiset(x)[c] == multiset(a)[c] && multiset(y)[c] == multiset(d)[c]
    {
      assert (multiset(x) + multiset(y))[c] == (multiset(a) + multiset(d))[c];
      if atlas.dining(c) {
        assert c !in x && c !in a;
      } else {
        assert c !in y && c !in d;
      }
    }
  }

  /** The places of a feasible set that can be arranged: three visits with lunch, and one restaurant for every meal. */
  lemma FeasibleParts(pool: seq<Candidate>, required: seq<Candidate>, meals: Meals, atlas: Atlas, tasks: seq<Candidate>)
    requires meals.Any() && Feasible(pool, required, meals, atlas, tasks) && Arranged(tasks, meals, atlas).Some?
    ensures var a, d := Split(tasks, atlas, false), Split(tasks, atlas, true);
      && |d| == meals.Count() && |a| <= 3 && (meals.lunch ==> |a| == 3)
      && multiset(a) + multiset(d) == multiset(tasks)
      && (forall c :: c in a ==> !atlas.dining(c)) && (forall c :: c in d ==> atlas.dining(c))
  {
    hide Picks, Arrangements, LeastOf;
    FeasibleArranges(pool, required, meals, atlas, tasks);
    SplitSizes(tasks, atlas);
    forall c
      ensures c in Split(tasks, atlas, false) ==> !atlas.dining(c)
      ensures c in Split(tasks, atlas, true) ==> atlas.dining(c)
    {
      SplitMember(tasks, atlas, false, c);
      SplitMember(tasks, atlas, true, c);
    }
  }

  function VisitsOf(o: seq<Candidate>, meals: Meals): seq<Candidate>
    requires meals.Any() && |o| >= 1 && (meals.lunch ==> |o| == 3 + meals.Count())
  {
    if meals.lunch then [o[0], o[1], o[3]] else o[..|o| - 1]
  }

  function MealsOf(o: seq<Candidate>, meals: Meals): seq<Candidate>
    requires meals.Any() && |o| >= 1 && (meals.lunch ==> |o| == 3 + meals.Count())
  {
    if meals.lunch && meals.dinner then [o[2], o[4]] else if meals.lunch then [o[2]] else [o[|o| - 1]]
  }

  lemma PartsOfOrder(o: seq<Candidate>, meals: Meals)
    requires meals.Any() && |o| >= 1 && (meals.lunch ==> |o| == 3 + meals.Count())
    ensures var x, y := VisitsOf(o, meals), MealsOf(o, meals);
      |y| == meals.Count() && (meals.lunch ==> |x| == 3) && SlotOf(meals, x, y, o)
      && multiset(o) == multiset(x) + multiset(y)
  {
    var x, y := VisitsOf(o, meals), MealsOf(o, meals);
    assert o == Slots(meals, x, y);
    SlotsBag(meals, x, y);
  }

  lemma OrderIsArrangement(
    pool: seq<Candidate>, required: seq<Candidate>, meals: Meals, atlas: Atlas, tasks: seq<Candidate>, o: seq<Candidate>)
    requires meals.Any() && Feasible(pool, required, meals, atlas, tasks) && Arranged(tasks, meals, atlas).Some?
    requires multiset(o) == multiset(tasks) && MealsInSlots(o, meals, atlas)
    ensures |o| == |tasks| && (meals.lunch ==> |o| == 3 + meals.Count()) && |o| <= 3 + meals.Count()
    ensures IsArrangement(o, Split(tasks, atlas, false), Split(tasks, atlas, true), meals)
  {
    hide Feasible, Arranged, Split;
    FeasibleParts(pool, required, meals, atlas, tasks);
    var a, d := Split(tasks, atlas, false), Split(tasks, atlas, true);
    assert |o| == |multiset(o)| == |multiset(tasks)| == |multiset(a)| + |multiset(d)| == |a| + |d|;
    assert |multiset(tasks)| == |tasks|;
    PartsOfOrder(o, meals);
    var x, y := VisitsOf(o, meals), MealsOf(o, meals);
    BagsApart(x, y, a, d, atlas);
  }

  // ---- Meals are as close as any order allows --------------------------------------------------

  lemma NotLessNumbers(a: Key, b: Key)
    requires |a.numbers| == 2 && |b.numbers| == 2 && !KeyLess(a, b)
    ensures b.numbers[0] <= a.numbers[0]
    ensures a.numbers[0] == b.numbers[0] ==> b.numbers[1] <= a.numbers[1]
    ensures a.numbers == b.numbers ==> !TextsLess(a.texts, b.texts)
  {
    assert !NumbersLess(a.numbers, b.numbers);
    assert a.numbers[0] == b.numbers[0] ==> !NumbersLess(a.numbers[1..], b.numbers[1..]);
    if a.numbers[0] == b.numbers[0] && a.numbers[1] == b.numbers[1] {
      assert a.numbers == b.numbers;
    }
  }

  /** How far the plan's meals are from the visits before them: lunch stands third, dinner last. */
  ghost predicate MealsNoFarther(t: seq<Candidate>, o: seq<Candidate>, meals: Meals, atlas: Atlas) {
    && |t| == |o|
    && (meals.lunch && meals.dinner ==>
          |t| == 5 &&
          atlas.distance(t[2].placeId, t[1].placeId) + atlas.distance(t[4].placeId, t[3].placeId)
            <= atlas.distance(o[2].placeId, o[1].placeId) + atlas.distance(o[4].placeId, o[3].placeId))
    && (meals.lunch && !meals.dinner ==>
          |t| == 4 && atlas.distance(t[2].placeId, t[1].placeId) <= atlas.distance(o[2].placeId, o[1].placeId))
    && (meals.dinner && !meals.lunch && |t| == 4 ==>
          atlas.distance(t[3].placeId, t[2].placeId) <= atlas.distance(o[3].placeId, o[2].placeId))
  }

  ghost predicate AllPriced(tasks: seq<Candidate>, atlas: Atlas) {
    forall i :: 0 <= i < |tasks| ==> tasks[i].placeId in atlas.prices
  }

  lemma SameBagPriced(a: seq<Candidate>, b: seq<Candidate>, atlas: Atlas)
    requires multiset(a) == multiset(b) && AllPriced(a, atlas)
    ensures AllPriced(b, atlas)
  {
    forall i | 0 <= i < |b|
      ensures b[i].placeId in atlas.prices
    {
      assert b[i] in multiset(a);
    }
  }

  lemma AnchorsCompare(t: seq<Candidate>, o: seq<Candidate>, meals: Meals, atlas: Atlas)
    requires meals.Any() && |t| == |o| && (meals.lunch ==> |t| == 3 + meals.Count()) && |t| <= 3 + meals.Count()
    requires AllPriced(t, atlas) && AllPriced(o, atlas)
    ensures AnchorDistance(t, meals, atlas) <= AnchorDistance(o, meals, atlas) <==> MealsNoFarther(t, o, meals, atlas)
  {
  }

  /** The arranged order against any order of the same places with the meals in their slots. */
  lemma ArrangedBeats(
    pool: seq<Candidate>, required: seq<Candidate>, meals: Meals, atlas: Atlas, tasks: seq<Candidate>, o: seq<Candidate>)
    requires meals.Any() && Feasible(pool, required, meals, atlas, tasks) && Arranged(tasks, meals, atlas).Some?
    requires multiset(o) == multiset(tasks) && MealsInSlots(o, meals, atlas)
    ensures var t := Arranged(tasks, meals, atlas).value;
      && multiset(t) == multiset(tasks) && MealsInSlots(t, meals, atlas)
      && |t| == |o| && (meals.lunch ==> |t| == 3 + meals.Count()) && |t| <= 3 + meals.Count()
      && AnchorDistance(t, meals, atlas) <= AnchorDistance(o, meals, atlas)
      && (AnchorDistance(t, meals, atlas) == AnchorDistance(o, meals, atlas) ==>
            && WalkDistance(t, atlas) <= WalkDistance(o, atlas)
            && (WalkDistance(t, atlas) == WalkDistance(o, atlas) ==> !TextsLess(Ids(o), Ids(t))))
  {
    hide Feasible, Arranged, Split, AnchorDistance, WalkDistance, MealsInSlots, KeyLess;
    FeasibleParts(pool, required, meals, atlas, tasks);
    OrderIsArrangement(pool, required, meals, atlas, tasks, o);
    ArrangedIsBest(tasks, meals, atlas, o);
    var t := Arranged(tasks, meals, atlas).value;
    ArrangementShape(t, Split(tasks, atlas, false), Split(tasks, atlas, true), meals, atlas);
    assert |t| == |multiset(t)| == |multiset(o)| == |o|;
    NotLessNumbers(ArrangementKey(o, meals, atlas), ArrangementKey(t, meals, atlas));
  }

  /** An accepted plan is the arranged order of a feasible set. */
  lemma PlanIsArranged(
    cs: seq<Candidate>, ids: seq<string>, members: seq<Member>, meals: Meals, atlas: Atlas, plan: Plan)
    returns (pool: seq<Candidate>, required: seq<Candidate>)
    requires Answers(cs, ids, members, meals, atlas, Ok(Some(plan)))
    ensures members != [] && BestPlan(pool, required, members, meals, atlas, plan)
    ensures Feasible(pool, required, meals, atlas, plan.chosen) && Arranged(plan.chosen, meals, atlas) == Some(plan.tasks)
  {
    hide Feasible, Arranged, PoolOf, RequiredPlaces, HasFeasible, FairnessKey, KeyLess;
    var labels := RequiredLabels(members);
    required := RequiredPlaces(cs, labels, |labels|, atlas).value;
    pool := PoolOf(cs, ids, required, meals);
  }

  /** In an accepted plan the meals are as close to the visits before them as any order of the chosen places with the
      meals in their slots allows. */
  lemma MealsAreClosest(
    cs: seq<Candidate>, ids: seq<string>, members: seq<Member>, meals: Meals, atlas: Atlas, plan: Plan, o: seq<Candidate>)
    requires Answers(cs, ids, members, meals, atlas, Ok(Some(plan))) && AllPriced(plan.chosen, atlas)
    requires meals.Any() && multiset(o) == multiset(plan.chosen) && MealsInSlots(o, meals, atlas)
    ensures var t := plan.tasks;
      && |t| == |o|
      && (meals.lunch && meals.dinner ==>
            |t| == 5 &&
            atlas.distance(t[2].placeId, t[1].placeId) + atlas.distance(t[4].placeId, t[3].placeId)
              <= atlas.distance(o[2].placeId, o[1].placeId) + atlas.distance(o[4].placeId, o[3].placeId))
      && (meals.lunch && !meals.dinner ==>
            |t| == 4 && atlas.distance(t[2].placeId, t[1].placeId) <= atlas.distance(o[2].placeId, o[1].placeId))
      && (meals.dinner && !meals.lunch && |t| == 4 ==>
            atlas.distance(t[3].placeId, t[2].placeId) <= atlas.distance(o[3].placeId, o[2].placeId))
  {
    hide Answers, Feasible, Arranged, AnchorDistance, MealsInSlots, TextsLess;
    var pool, required := PlanIsArranged(cs, ids, members, meals, atlas, plan);
    ArrangedBeats(pool, required, meals, atlas, plan.chosen, o);
    SameBagPriced(plan.chosen, plan.tasks, atlas);
    SameBagPriced(plan.chosen, o, atlas);
    AnchorsCompare(plan.tasks, o, meals, atlas);
  }

  /** The two places of a meal and the visit before it have facts, and are less far apart than the mark for unknown. */
  ghost predicate KnownLeg(o: seq<Candidate>, meal: nat, before: nat, atlas: Atlas) {
    && meal < |o| && before < |o| && o[meal].placeId in atlas.prices && o[before].placeId in atlas.prices
    && atlas.distance(o[meal].placeId, o[before].placeId) < 1_000_000_000_000
  }

  ghost predicate KnownLegs(o: seq<Candidate>, atlas: Atlas) {
    && KnownLeg(o, 2, 1, atlas) && KnownLeg(o, 4, 3, atlas)
    && atlas.distance(o[2].placeId, o[1].placeId) + atlas.distance(o[4].placeId, o[3].placeId) < 1_000_000_000_000
  }

  /** Without facts for all places, an order with known meal distances is never passed over for one without. */
  lemma KnownMealsFirst(
    cs: seq<Candidate>, ids: seq<string>, members: seq<Member>, meals: Meals, atlas: Atlas, plan: Plan, o: seq<Candidate>)
    requires Answers(cs, ids, members, meals, atlas, Ok(Some(plan)))
    requires meals.Any() && multiset(o) == multiset(plan.chosen) && MealsInSlots(o, meals, atlas)
    ensures meals.lunch && !meals.dinner && KnownLeg(o, 2, 1, atlas) ==>
      KnownLeg(plan.tasks, 2, 1, atlas) &&
      atlas.distance(plan.tasks[2].placeId, plan.tasks[1].placeId) <= atlas.distance(o[2].placeId, o[1].placeId)
    ensures meals.dinner && !meals.lunch && KnownLeg(o, 3, 2, atlas) ==>
      KnownLeg(plan.tasks, 3, 2, atlas) &&
      atlas.distance(plan.tasks[3].placeId, plan.tasks[2].placeId) <= atlas.distance(o[3].placeId, o[2].placeId)
    ensures meals.lunch && meals.dinner && KnownLegs(o, atlas) ==>
      KnownLegs(plan.tasks, atlas) &&
      atlas.distance(plan.tasks[2].placeId, plan.tasks[1].placeId) + atlas.distance(plan.tasks[4].placeId, plan.tasks[3].placeId)
        <= atlas.distance(o[2].placeId, o[1].placeId) + atlas.distance(o[4].placeId, o[3].placeId)
  {
    hide Answers, Feasible, Arranged, MealsInSlots, TextsLess;
    var pool, required := PlanIsArranged(cs, ids, members, meals, atlas, plan);
    ArrangedBeats(pool, required, meals, atlas, plan.chosen, o);
  }

  // ---- Then the walk is as short as possible -----------------------------------------------------

  function Steps(o: seq<Candidate>, atlas: Atlas): (steps: seq<nat>)
    requires o != []
    ensures |steps| == |o| - 1
    ensures forall i :: 0 <= i < |steps| ==> steps[i] == atlas.distance(o[i].placeId, o[i + 1].placeId)
  {
    seq(|o| - 1, i requires 0 <= i < |o| - 1 => atlas.distance(o[i].placeId, o[i + 1].placeId))
  }

  lemma {:induction false} WalkIsSum(o: seq<Candidate>, atlas: Atlas)
    requires o != []
    ensures Walk(o, atlas) == Sum(Steps(o, atlas))
  {
    if |o| > 1 {
      WalkIsSum(o[1..], atlas);
      assert Steps(o, atlas)[1..] == Steps(o[1..], atlas);
    }
  }

  lemma {:induction false} FirstDifference(a: seq<string>, b: seq<string>) returns (k: nat)
    requires |a| == |b| && a != b && !TextsLess(b, a)
    ensures k < |a| && a[..k] == b[..k] && Lex.Less(a[k], b[k])
  {
    if a[0] != b[0] {
      k := 0;
      Lex.Total(a[0], b[0]);
    } else {
      assert a == [a[0]] + a[1..] && b == [b[0]] + b[1..];
      k := FirstDifference(a[1..], b[1..]);
      assert a[..k + 1] == [a[0]] + a[1..][..k] && b[..k + 1] == [b[0]] + b[1..][..k];
      k := k + 1;
    }
  }

  /** Among orders with meals equally close, the plan's walk is the shortest, and among those its ids come first. */
  lemma WalkIsShortest(
    cs: seq<Candidate>, ids: seq<string>, members: seq<Member>, meals: Meals, atlas: Atlas, plan: Plan, o: seq<Candidate>)
    requires Answers(cs, ids, members, meals, atlas, Ok(Some(plan))) && AllPriced(plan.chosen, atlas)
    requires meals.Any() && multiset(o) == multiset(plan.chosen) && MealsInSlots(o, meals, atlas)
    requires MealsNoFarther(o, plan.tasks, meals, atlas)
    ensures o != [] && plan.tasks != [] && Sum(Steps(plan.tasks, atlas)) <= Sum(Steps(o, atlas))
    ensures Sum(Steps(plan.tasks, atlas)) == Sum(Steps(o, atlas)) && Ids(plan.tasks) != Ids(o) ==>
      exists k: nat :: k < |o| && k < |plan.tasks| && (forall i :: 0 <= i < k ==> plan.tasks[i].placeId == o[i].placeId)
                       && Lex.Less(plan.tasks[k].placeId, o[k].placeId)
  {
    hide Answers, Feasible, Arranged, AnchorDistance, MealsInSlots, TextsLess, MealsNoFarther, Walk, Sum, Lex.Less;
    var t := plan.tasks;
    var pool, required := PlanIsArranged(cs, ids, members, meals, atlas, plan);
    ArrangedBeats(pool, required, meals, atlas, plan.chosen, o);
    FeasibleParts(pool, required, meals, atlas, plan.chosen);
    assert |o| == |multiset(o)| && |multiset(plan.chosen)| >= meals.Count();
    SameBagPriced(plan.chosen, t, atlas);
    SameBagPriced(plan.chosen, o, atlas);
    AnchorsCompare(o, t, meals, atlas);
    WalkIsSum(t, atlas);
    WalkIsSum(o, atlas);
    if Sum(Steps(t, atlas)) == Sum(Steps(o, atlas)) && Ids(t) != Ids(o) {
      var k := IdsDiffer(t, o);
    }
  }

  /** With a place without facts no walk is known, and among orders with meals equally close the ids decide at once. */
  lemma WithoutFactsIdsDecide(
    cs: seq<Candidate>, ids: seq<string>, members: seq<Member>, meals: Meals, atlas: Atlas, plan: Plan, o: seq<Candidate>)
    requires Answers(cs, ids, members, meals, atlas, Ok(Some(plan))) && !AllPriced(plan.chosen, atlas)
    requires meals.Any() && multiset(o) == multiset(plan.chosen) && MealsInSlots(o, meals, atlas)
    requires AnchorDistance(o, meals, atlas) == AnchorDistance(plan.tasks, meals, atlas)
    ensures Ids(plan.tasks) != Ids(o) ==>
      exists k: nat :: k < |o| && k < |plan.tasks| && (forall i :: 0 <= i < k ==> plan.tasks[i].placeId == o[i].placeId)
                       && Lex.Less(plan.tasks[k].placeId, o[k].placeId)
  {
    hide Answers, Feasible, Arranged, AnchorDistance, MealsInSlots, TextsLess, AllPriced, Lex.Less;
    var t := plan.tasks;
    var pool, required := PlanIsArranged(cs, ids, members, meals, atlas, plan);
    ArrangedBeats(pool, required, meals, atlas, plan.chosen, o);
    NoWalk(t, plan.chosen, atlas);
    NoWalk(o, plan.chosen, atlas);
    if Ids(t) != Ids(o) {
      var k := IdsDiffer(t, o);
    }
  }

  lemma NoWalk(o: seq<Candidate>, chosen: seq<Candidate>, atlas: Atlas)
    requires multiset(o) == multiset(chosen) && !AllPriced(chosen, atlas)
    ensures WalkDistance(o, atlas) == NO_FACT
  {
    if AllPriced(o, atlas) {
      SameBagPriced(o, chosen, atlas);
    }
  }

  lemma IdsDiffer(t: seq<Candidate>, o: seq<Candidate>) returns (k: nat)
    requires |t| == |o| && Ids(t) != Ids(o) && !TextsLess(Ids(o), Ids(t))
    ensures k < |o| && (forall i :: 0 <= i < k ==> t[i].placeId == o[i].placeId) && Lex.Less(t[k].placeId, o[k].placeId)
  {
    hide TextsLess;
    k := FirstDifference(Ids(t), Ids(o));
    forall i | 0 <= i < k
      ensures t[i].placeId == o[i].placeId
    {
      assert Ids(t)[..k][i] == Ids(o)[..k][i];
    }
  }

  /** Without meals the plan is in the order of the ranking. */
  lemma NoMealsKeepRanking(
    cs: seq<Candidate>, ids: seq<string>, members: seq<Member>, atlas: Atlas, plan: Plan)
    requires Answers(cs, ids, members, Meals(false, false), atlas, Ok(Some(plan)))
    ensures plan.tasks == plan.chosen
  {
    hide Answers, Feasible;
    var pool, required := PlanIsArranged(cs, ids, members, Meals(false, false), atlas, plan);
  }

  // ---- The choice among sets ---------------------------------------------------------------------

  /** Of two feasible sets with the same worst score and the same average, the chosen one has its meals no farther from
      the visits before them than any order of the other set. */
  lemma ChosenMealsAreClosest(
    pool: seq<Candidate>, required: seq<Candidate>, members: seq<Member>, meals: Meals, atlas: Atlas, plan: Plan,
    other: seq<Candidate>, o: seq<Candidate>)
    requires members != [] && BestPlan(pool, required, members, meals, atlas, plan)
    requires Feasible(pool, required, meals, atlas, other) && AllPriced(plan.chosen, atlas) && AllPriced(other, atlas)
    requires Minimum(Scores(members, plan.chosen, atlas)) == Minimum(Scores(members, other, atlas))
    requires Average(Scores(members, plan.chosen, atlas)) == Average(Scores(members, other, atlas))
    requires meals.Any() && multiset(o) == multiset(other) && MealsInSlots(o, meals, atlas)
    ensures MealsNoFarther(plan.tasks, o, meals, atlas)
  {
    hide Feasible, Arranged, AnchorDistance, MealsInSlots, TextsLess, MealsNoFarther, Minimum, Average, ScoreOf, KnownCost, FairnessKey;
    ChosenIsFairest(pool, required, members, meals, atlas, plan, other);
    ArrangedBeats(pool, required, meals, atlas, other, o);
    FeasibleAnyOrder(pool, required, meals, atlas, plan.chosen);
    SameBagPriced(plan.chosen, plan.tasks, atlas);
    SameBagPriced(other, o, atlas);
    FeasibleSameSize(pool, required, meals, atlas, plan.chosen, other);
    assert |o| == |multiset(o)| == |multiset(other)| == |other|;
    assert |plan.tasks| == |multiset(plan.tasks)| == |multiset(plan.chosen)| == |plan.chosen|;
    AnchorsCompare(plan.tasks, o, meals, atlas);
  }

  lemma FeasibleSameSize(
    pool: seq<Candidate>, required: seq<Candidate>, meals: Meals, atlas: Atlas, a: seq<Candidate>, b: seq<Candidate>)
    requires Feasible(pool, required, meals, atlas, a) && Feasible(pool, required, meals, atlas, b)
    ensures |a| == |b|
  {
  }

  lemma FeasibleAnyOrder(pool: seq<Candidate>, required: seq<Candidate>, meals: Meals, atlas: Atlas, tasks: seq<Candidate>)
    requires meals.Any() && Feasible(pool, required, meals, atlas, tasks) && Arranged(tasks, meals, atlas).Some?
    ensures multiset(Arranged(tasks, meals, atlas).value) == multiset(tasks)
  {
    hide Feasible, Arranged, Split, KeyLess;
    FeasibleParts(pool, required, meals, atlas, tasks);
    ArrangedIsBest(tasks, meals, atlas, []);
    ArrangementShape(Arranged(tasks, meals, atlas).value, Split(tasks, atlas, false), Split(tasks, atlas, true), meals, atlas);
  }

  /** The ids of the places, ascending. */
  ghost predicate IdsOfPlaces(ids: seq<string>, tasks: seq<Candidate>) {
    Lex.Ascending(ids) && forall id :: id in ids <==> exists i :: 0 <= i < |tasks| && tasks[i].placeId == id
  }

  /** When even the known costs are equal, the ids of the chosen set, ascending and joined by commas, come first. */
  lemma ChosenIdsComeFirst(
    pool: seq<Candidate>, required: seq<Candidate>, members: seq<Member>, meals: Meals, atlas: Atlas, plan: Plan,
    other: seq<Candidate>, mine: seq<string>, theirs: seq<string>)
    requires members != [] && BestPlan(pool, required, members, meals, atlas, plan)
    requires Feasible(pool, required, meals, atlas, other)
    requires Arranged(other, meals, atlas).Some?
    requires Minimum(Scores(members, plan.chosen, atlas)) == Minimum(Scores(members, other, atlas))
    requires Average(Scores(members, plan.chosen, atlas)) == Average(Scores(members, other, atlas))
    requires Proximity(plan.chosen, meals, atlas) == Proximity(other, meals, atlas)
    requires KnownCost(plan.chosen, atlas) == KnownCost(other, atlas)
    requires IdsOfPlaces(mine, plan.chosen) && IdsOfPlaces(theirs, other)
    ensures !Lex.Less(Join(theirs), Join(mine))
  {
    hide Feasible, Arranged, Proximity, Minimum, Average, ScoreOf, KnownCost, Sum, Join, Lex.Less, Lex.Sorted;
    var x, y := FairnessKey(other, members, meals, atlas), FairnessKey(plan.chosen, members, meals, atlas);
    AverageOrder(Scores(members, plan.chosen, atlas), Scores(members, other, atlas));
    assert x.numbers == y.numbers;
    Lex.SortedUnique(IdSet(plan.chosen), mine);
    Lex.SortedUnique(IdSet(other), theirs);
    OneText(Join(theirs), Join(mine));
  }

  /** Joining puts one comma between two texts. */
  lemma {:induction false} JoinAppend(a: seq<string>, b: seq<string>)
    ensures a != [] && b != [] ==> Join(a + b) == Join(a) + "," + Join(b)
    ensures |a| == 1 ==> Join(a) == a[0]
  {
    if a != [] && b != [] {
      if |a| == 1 {
        assert (a + b)[1..] == b;
      } else {
        JoinAppend(a[1..], b);
        assert (a + b)[1..] == a[1..] + b;
      }
    }
  }

  // ---- What the numbers of the key are -----------------------------------------------------------

  lemma {:induction false} SumAppend(a: seq<nat>, b: seq<nat>)
    ensures Sum(a + b) == Sum(a) + Sum(b)
  {
    if a == [] {
      assert a + b == b;
    } else {
      assert (a + b)[1..] == a[1..] + b;
      SumAppend(a[1..], b);
    }
  }

  /** The known cost counts the price of every place once, nothing for a place without a known one. */
  lemma {:induction false} KnownCostIsSum(tasks: seq<Candidate>, atlas: Atlas, costs: seq<nat>)
    requires |costs| == |tasks|
    requires forall i :: 0 <= i < |tasks| ==>
      (if tasks[i].placeId in atlas.prices && atlas.prices[tasks[i].placeId].Some?
       then Some(costs[i]) == atlas.prices[tasks[i].placeId] else costs[i] == 0)
    ensures KnownCost(tasks, atlas) == Sum(costs)
  {
    if tasks != [] {
      KnownCostIsSum(tasks[1..], atlas, costs[1..]);
    }
  }

  /** The interests of a member that the places do not cover. */
  function Uncovered(m: Member, tasks: seq<Candidate>, atlas: Atlas): set<nat> {
    set i: nat | i < |m.interests| && m.interests[i].folded != "" && !atlas.covers(tasks, m.interests[i])
  }

  lemma {:induction false} UnmetCounts(interests: seq<Label>, tasks: seq<Candidate>, atlas: Atlas)
    ensures Unmet(interests, tasks, atlas) ==
      |set i: nat | i < |interests| && interests[i].folded != "" && !atlas.covers(tasks, interests[i])|
  {
    var all := set i: nat | i < |interests| && interests[i].folded != "" && !atlas.covers(tasks, interests[i]);
    if interests == [] {
      assert all == {};
    } else {
      var rest := interests[1..];
      UnmetCounts(rest, tasks, atlas);
      var before := set i: nat | i < |rest| && rest[i].folded != "" && !atlas.covers(tasks, rest[i]);
      ShiftCount(before);
      var shifted := Shifted(before);
      assert forall i: nat :: i in all && i > 0 ==> i - 1 in before;
      assert forall i: nat :: i in all <==> (i == 0 && interests[0].folded != "" && !atlas.covers(tasks, interests[0])) || i in shifted;
      if interests[0].folded != "" && !atlas.covers(tasks, interests[0]) {
        assert all == {0} + shifted;
      } else {
        assert all == shifted;
      }
    }
  }

  function Shifted(s: set<nat>): set<nat> {
    set i | i in s :: i + 1
  }

  lemma ShiftCount(s: set<nat>)
    ensures |Shifted(s)| == |s|
  {
    if s == {} {
      assert Shifted(s) == {};
    } else {
      var x :| x in s;
      var rest := s - {x};
      ShiftCount(rest);
      forall y
        ensures y in Shifted(s) <==> y in Shifted(rest) + {x + 1}
      {
        if y in Shifted(s) {
          var i :| i in s && y == i + 1;
          assert i == x || i in rest;
        }
      }
      assert Shifted(s) == Shifted(rest) + {x + 1};
      assert x + 1 !in Shifted(rest);
    }
  }

  /** A member's points: 100 less 20 for every uncovered interest, but not below zero; 60 fewer, and again not below zero,
      if some must-visit place is not visited. */
  lemma ScoreIs(m: Member, tasks: seq<Candidate>, atlas: Atlas)
    ensures var uncovered := |Uncovered(m, tasks, atlas)|;
      var missed := exists i :: 0 <= i < |m.mustVisit| && m.mustVisit[i].folded != "" &&
                                forall j :: 0 <= j < |tasks| ==> !atlas.matches(tasks[j], m.mustVisit[i]);
      ScoreOf(m, tasks, atlas) ==
        if missed then (if uncovered >= 2 then 0 else 40 - 20 * uncovered)
        else (if uncovered >= 5 then 0 else 100 - 20 * uncovered)
  {
    UnmetCounts(m.interests, tasks, atlas);
    assert MissesMustVisit(m, tasks, atlas) <==>
      exists i :: 0 <= i < |m.mustVisit| && m.mustVisit[i].folded != "" &&
                  forall j :: 0 <= j < |tasks| ==> !atlas.matches(tasks[j], m.mustVisit[i]);
  }

  lemma {:induction false} NearestIs(place: string, anchors: seq<Candidate>, atlas: Atlas) returns (at: nat)
    ensures forall k :: 0 <= k < |anchors| ==> NearestDistance(place, anchors, atlas) <= atlas.distance(place, anchors[k].placeId)
    ensures if anchors == [] then NearestDistance(place, anchors, atlas) == 1_000_000_000
            else at < |anchors| && NearestDistance(place, anchors, atlas) == atlas.distance(place, anchors[at].placeId)
  {
    at := 0;
    if |anchors| > 1 {
      var k := NearestIs(place, anchors[1..], atlas);
      assert forall j :: 1 <= j < |anchors| ==> anchors[j] == anchors[1..][j - 1];
      if NearestDistance(place, anchors, atlas) != atlas.distance(place, anchors[0].placeId) {
        at := k + 1;
      }
    }
  }

  lemma {:induction false} TotalNearestIsSum(dining: seq<Candidate>, anchors: seq<Candidate>, atlas: Atlas, nearest: seq<nat>)
    requires |nearest| == |dining|
    requires forall i :: 0 <= i < |dining| ==> nearest[i] == NearestDistance(dining[i].placeId, anchors, atlas)
    ensures TotalNearest(dining, anchors, atlas) == Sum(nearest)
  {
    if dining != [] {
      TotalNearestIsSum(dining[1..], anchors, atlas, nearest[1..]);
    }
  }

  /** The restaurants, or the visits, with facts, in the order of the places. */
  ghost predicate PricedPart(part: seq<Candidate>, tasks: seq<Candidate>, dining: bool, atlas: Atlas) {
    && Picks(part, tasks)
    && forall c :: c in part <==> c in tasks && atlas.dining(c) == dining && c.placeId in atlas.prices
  }

  lemma {:induction false} PicksMore<T>(t: seq<T>, s: seq<T>)
    requires s != [] && Picks(t, s[1..])
    ensures Picks(t, s)
  {
  }

  lemma {:induction false} SplitPicks(tasks: seq<Candidate>, atlas: Atlas, dining: bool)
    ensures Picks(Split(tasks, atlas, dining), tasks)
    ensures forall c :: c in Split(tasks, atlas, dining) <==> c in tasks && atlas.dining(c) == dining
  {
    if tasks != [] {
      SplitPicks(tasks[1..], atlas, dining);
      var part, rest := Split(tasks, atlas, dining), Split(tasks[1..], atlas, dining);
      if atlas.dining(tasks[0]) == dining {
        assert part[0] == tasks[0] && part[1..] == rest;
      } else {
        assert part == rest;
        PicksMore(part, tasks);
      }
    }
  }

  lemma {:induction false} WithFactsPicks(part: seq<Candidate>, atlas: Atlas)
    ensures Picks(WithFacts(part, atlas), part)
    ensures forall c :: c in WithFacts(part, atlas) <==> c in part && c.placeId in atlas.prices
  {
    if part != [] {
      WithFactsPicks(part[1..], atlas);
      var priced, rest := WithFacts(part, atlas), WithFacts(part[1..], atlas);
      if part[0].placeId in atlas.prices {
        assert priced[0] == part[0] && priced[1..] == rest;
      } else {
        assert priced == rest;
        PicksMore(priced, part);
      }
    }
  }

  lemma {:induction false} PicksChain<T>(a: seq<T>, b: seq<T>, c: seq<T>)
    requires Picks(a, b) && Picks(b, c)
    ensures Picks(a, c)
    decreases |c|
  {
    if c != [] {
      if Picks(b, c[1..]) {
        PicksChain(a, b, c[1..]);
        PicksMore(a, c);
      } else if a != [] {
        if Picks(a, b[1..]) {
          PicksChain(a, b[1..], c[1..]);
          PicksMore(a, c);
        } else {
          PicksChain(a[1..], b[1..], c[1..]);
        }
      }
    }
  }

  lemma PricedPartIs(tasks: seq<Candidate>, dining: bool, atlas: Atlas)
    ensures PricedPart(WithFacts(Split(tasks, atlas, dining), atlas), tasks, dining, atlas)
  {
    hide WithFacts, Split, Picks;
    var part := Split(tasks, atlas, dining);
    SplitPicks(tasks, atlas, dining);
    WithFactsPicks(part, atlas);
    PicksChain(WithFacts(part, atlas), part, tasks);
  }

  /** Without meals the distance of the key adds, for every restaurant with facts, how far the nearest visit with facts
      is - or a mark beyond every distance when there is no such visit. */
  lemma NoMealsDistance(tasks: seq<Candidate>, atlas: Atlas)
    returns (dining: seq<Candidate>, visits: seq<Candidate>, nearest: seq<nat>, at: seq<nat>)
    ensures PricedPart(dining, tasks, true, atlas) && PricedPart(visits, tasks, false, atlas)
    ensures |nearest| == |at| == |dining|
    ensures forall i, k :: 0 <= i < |dining| && 0 <= k < |visits| ==>
      nearest[i] <= atlas.distance(dining[i].placeId, visits[k].placeId)
    ensures forall i :: 0 <= i < |dining| ==>
      if visits == [] then nearest[i] == 1_000_000_000
      else at[i] < |visits| && nearest[i] == atlas.distance(dining[i].placeId, visits[at[i]].placeId)
    ensures Arranged(tasks, Meals(false, false), atlas).Some?
    ensures Proximity(tasks, Meals(false, false), atlas) == Sum(nearest)
  {
    hide WithFacts, Split, Sum, Picks, PricedPart, TotalNearest, NearestDistance;
    dining, visits := WithFacts(Split(tasks, atlas, true), atlas), WithFacts(Split(tasks, atlas, false), atlas);
    PricedPartIs(tasks, true, atlas);
    PricedPartIs(tasks, false, atlas);
    nearest, at := AllNearest(dining, visits, atlas);
    TotalNearestIsSum(dining, visits, atlas, nearest);
  }

  lemma {:induction false} AllNearest(dining: seq<Candidate>, visits: seq<Candidate>, atlas: Atlas)
    returns (nearest: seq<nat>, at: seq<nat>)
    ensures |nearest| == |at| == |dining|
    ensures forall i :: 0 <= i < |dining| ==> nearest[i] == NearestDistance(dining[i].placeId, visits, atlas)
    ensures forall i, k :: 0 <= i < |dining| && 0 <= k < |visits| ==>
      nearest[i] <= atlas.distance(dining[i].placeId, visits[k].placeId)
    ensures forall i :: 0 <= i < |dining| ==>
      if visits == [] then nearest[i] == 1_000_000_000
      else at[i] < |visits| && nearest[i] == atlas.distance(dining[i].placeId, visits[at[i]].placeId)
  {
    hide NearestDistance;
    nearest, at := [], [];
    if dining != [] {
      var k := NearestIs(dining[0].placeId, visits, atlas);
      var rest, places := AllNearest(dining[1..], visits, atlas);
      nearest, at := [NearestDistance(dining[0].placeId, visits, atlas)] + rest, [k] + places;
      assert forall i :: 1 <= i < |dining| ==> dining[i] == dining[1..][i - 1];
    }
  }

  // ---- The pool and the required places ----------------------------------------------------------

  /** The earliest candidate that matches the label. */
  ghost predicate FirstFor(cs: seq<Candidate>, wish: Label, atlas: Atlas, i: nat) {
    i < |cs| && atlas.matches(cs[i], wish) && forall j :: 0 <= j < i ==> !atlas.matches(cs[j], wish)
  }

  lemma {:induction false} FirstMatchIs(cs: seq<Candidate>, wish: Label, atlas: Atlas) returns (i: nat)
    requires FirstMatch(cs, wish, atlas).Some?
    ensures FirstFor(cs, wish, atlas, i) && FirstMatch(cs, wish, atlas) == Some(cs[i])
  {
    if atlas.matches(cs[0], wish) {
      i := 0;
    } else {
      i := FirstMatchIs(cs[1..], wish, atlas);
      i := i + 1;
      assert forall j :: 1 <= j < i ==> cs[j] == cs[1..][j - 1];
    }
  }

  lemma {:induction false} RequiredByLabel(cs: seq<Candidate>, labels: seq<Label>, n: nat, atlas: Atlas, k: nat)
    requires k < n <= |labels| && RequiredPlaces(cs, labels, n, atlas).Ok?
    ensures FirstMatch(cs, labels[k], atlas).Some?
    ensures Listed(RequiredPlaces(cs, labels, n, atlas).value, FirstMatch(cs, labels[k], atlas).value.placeId)
  {
    var before, now := RequiredPlaces(cs, labels, n - 1, atlas), RequiredPlaces(cs, labels, n, atlas);
    if k < n - 1 {
      RequiredByLabel(cs, labels, n - 1, atlas, k);
      var id := FirstMatch(cs, labels[k], atlas).value.placeId;
      var i :| 0 <= i < |before.value| && before.value[i].placeId == id;
      assert now.value[i] == before.value[i];
    } else {
      var m := FirstMatch(cs, labels[k], atlas).value;
      if !Listed(before.value, m.placeId) {
        assert now.value[|before.value|] == m;
      }
    }
  }

  /** The accepted plan visits, for every enforced label, the first candidate that matches it. */
  lemma FirstMatchesVisited(
    cs: seq<Candidate>, ids: seq<string>, members: seq<Member>, meals: Meals, atlas: Atlas, plan: Plan, k: nat)
    returns (i: nat)
    requires DistinctPlaces(cs) && DistinctIds(ids) && Answers(cs, ids, members, meals, atlas, Ok(Some(plan)))
    requires k < |RequiredLabels(members)|
    ensures FirstFor(cs, RequiredLabels(members)[k], atlas, i) && cs[i] in plan.chosen
  {
    hide Answers, RequiredLabels, RequiredPlaces, FirstMatch;
    var labels := RequiredLabels(members);
    ChosenHoldsRequired(cs, ids, members, meals, atlas, plan);
    RequiredByLabel(cs, labels, |labels|, atlas, k);
    RequiredFromCandidates(cs, labels, |labels|, atlas);
    i := FirstMatchIs(cs, labels[k], atlas);
    var required := RequiredPlaces(cs, labels, |labels|, atlas).value;
    var j :| 0 <= j < |required| && required[j].placeId == cs[i].placeId;
    assert required[j] in required && cs[i] in cs;
    SameIdSameCandidate(cs, required[j], cs[i]);
  }

  lemma MemberIsListed(cs: seq<Candidate>, c: Candidate)
    ensures c in cs ==> Listed(cs, c.placeId)
  {
    if c in cs {
      var i :| 0 <= i < |cs| && cs[i] == c;
    }
  }

  lemma {:induction false} RankedAre(cs: seq<Candidate>, ids: seq<string>, c: Candidate)
    requires DistinctPlaces(cs)
    ensures c in Ranked(cs, ids) <==> c in cs && c.placeId in ids
  {
    if ids != [] {
      var front, last := ids[..|ids| - 1], ids[|ids| - 1];
      assert ids == front + [last];
      RankedAre(cs, front, c);
      MemberIsListed(cs, c);
      if Listed(cs, last) && c in cs && c.placeId == last {
        SameIdSameCandidate(cs, c, Find(cs, last));
      }
    }
  }

  /** What the choice chooses from: the candidates of the ranking, with meals all others behind them, and the required
      places. */
  lemma PoolIs(cs: seq<Candidate>, ids: seq<string>, required: seq<Candidate>, meals: Meals, c: Candidate)
    requires DistinctPlaces(cs) && DistinctIds(ids) && forall r :: r in required ==> r in cs
    ensures c in PoolOf(cs, ids, required, meals) <==> c in cs && (c.placeId in ids || meals.lunch || meals.dinner || c in required)
    ensures Ranked(cs, ids) <= PoolOf(cs, ids, required, meals)
  {
    RankedAre(cs, ids, c);
    PoolPlaces(cs, ids, required, meals);
    hide Ranked, Extended;
    var ranked := Ranked(cs, ids);
    RankedPlaces(cs, ids);
    ExtendedPlaces(ranked, cs);
    var offered := if meals.Any() then Extended(ranked, cs) else ranked;
    ExtendedPlaces(offered, required);
    ExtendedGrows(ranked, cs);
    ExtendedGrows(offered, required);
  }

  lemma {:induction false} ExtendedGrows(pool: seq<Candidate>, extra: seq<Candidate>)
    ensures pool <= Extended(pool, extra)
  {
    if extra != [] {
      ExtendedGrows(pool, extra[..|extra| - 1]);
    }
  }

  /** The ranked candidates stand in the order of the ranking. */
  lemma {:induction false} RankedInOrder(cs: seq<Candidate>, ids: seq<string>, i: nat, j: nat) returns (p: nat, q: nat)
    requires i < j < |Ranked(cs, ids)|
    ensures p < q < |ids| && Ranked(cs, ids)[i].placeId == ids[p] && Ranked(cs, ids)[j].placeId == ids[q]
  {
    var front := ids[..|ids| - 1];
    if j < |Ranked(cs, front)| {
      p, q := RankedInOrder(cs, front, i, j);
    } else {
      q := |ids| - 1;
      p := RankedAt(cs, front, i);
    }
  }

  lemma {:induction false} RankedAt(cs: seq<Candidate>, ids: seq<string>, i: nat) returns (p: nat)
    requires i < |Ranked(cs, ids)|
    ensures p < |ids| && Ranked(cs, ids)[i].placeId == ids[p]
  {
    if i < |Ranked(cs, ids[..|ids| - 1])| {
      p := RankedAt(cs, ids[..|ids| - 1], i);
    } else {
      p := |ids| - 1;
    }
  }

  /** A plan holds three visits and its meals, or the whole pool if that is smaller. */
  lemma PlanSize(
    cs: seq<Candidate>, ids: seq<string>, members: seq<Member>, meals: Meals, atlas: Atlas, plan: Plan)
    requires Answers(cs, ids, members, meals, atlas, Ok(Some(plan)))
    ensures var pool := PoolOf(cs, ids, RequiredPlaces(cs, RequiredLabels(members), |RequiredLabels(members)|, atlas).value, meals);
      var wanted := 3 + (if meals.lunch then 1 else 0) + (if meals.dinner then 1 else 0);
      |plan.chosen| == if wanted <= |pool| then wanted else |pool|
    ensures RequiredPlaces(cs, RequiredLabels(members), |RequiredLabels(members)|, atlas).Ok?
  {
    hide PoolOf, RequiredPlaces, RequiredLabels, FairnessKey, KeyLess, Arranged, Picks;
  }
}
