/** `choose_single_plan`: the bounded search over task sets, proved optimal. */
module RecommendationChoice {
  import opened Prelude
  import opened Combinatorics
  import opened Recommendation

  datatype Failure =
    | FactMissing(wish: Label) | TooManyMustVisit | InsufficientDining | NoPlan | ArrangementIndex | NoMembers

  /** `chosen` is the winning combination in ranking order, `tasks` the same places in visiting order. */
  datatype Plan = Plan(chosen: seq<Candidate>, tasks: seq<Candidate>, scores: seq<nat>)

  predicate DistinctPlaces(cs: seq<Candidate>) {
    forall i, j :: 0 <= i < j < |cs| ==> cs[i].placeId != cs[j].placeId
  }

  predicate Listed(cs: seq<Candidate>, id: string) {
    exists i :: 0 <= i < |cs| && cs[i].placeId == id
  }

  function Find(cs: seq<Candidate>, id: string): (c: Candidate)
    requires Listed(cs, id)
    ensures c in cs && c.placeId == id
  {
    if cs[0].placeId == id then cs[0] else
      assert Listed(cs[1..], id) by {
        var i :| 0 <= i < |cs| && cs[i].placeId == id;
        assert cs[1..][i - 1].placeId == id;
      }
      Find(cs[1..], id)
  }

  // ---- The pool ----------------------------------------------------------------------------

  /** The candidates of the ranking, in its order; ids that are not candidates are skipped. */
  function Ranked(cs: seq<Candidate>, ids: seq<string>): seq<Candidate> {
    if ids == [] then []
    else Ranked(cs, ids[..|ids| - 1]) + (if Listed(cs, ids[|ids| - 1]) then [Find(cs, ids[|ids| - 1])] else [])
  }

  /** Appends the candidates whose place is not listed yet. */
  function Extended(pool: seq<Candidate>, extra: seq<Candidate>): seq<Candidate> {
    if extra == [] then pool
    else
      var front := Extended(pool, extra[..|extra| - 1]);
      if Listed(front, extra[|extra| - 1].placeId) then front else front + [extra[|extra| - 1]]
  }

  function FirstMatch(cs: seq<Candidate>, wish: Label, atlas: Atlas): (m: Option<Candidate>)
    ensures m.Some? ==> m.value in cs && atlas.matches(m.value, wish)
    ensures m.None? ==> forall c :: c in cs ==> !atlas.matches(c, wish)
  {
    if cs == [] then None else if atlas.matches(cs[0], wish) then Some(cs[0]) else FirstMatch(cs[1..], wish, atlas)
  }

  /** The places the first n labels require, each once. */
  function RequiredPlaces(cs: seq<Candidate>, labels: seq<Label>, n: nat, atlas: Atlas): Result<seq<Candidate>, Failure>
    requires n <= |labels|
  {
    if n == 0 then Ok([])
    else
      var before := RequiredPlaces(cs, labels, n - 1, atlas);
      if before.Err? then before
      else
        var m := FirstMatch(cs, labels[n - 1], atlas);
        if m.None? then Err(FactMissing(labels[n - 1]))
        else if Listed(before.value, m.value.placeId) then before
        else Ok(before.value + [m.value])
  }

  function AllMustVisit(members: seq<Member>): seq<Label> {
    if members == [] then [] else members[0].mustVisit + AllMustVisit(members[1..])
  }

  const LABEL_LIMIT := 8

  function RequiredLabels(members: seq<Member>): seq<Label> {
    StableUnique(AllMustVisit(members), LABEL_LIMIT)
  }

  function PoolOf(cs: seq<Candidate>, ids: seq<string>, required: seq<Candidate>, meals: Meals): seq<Candidate> {
    var ranked := Ranked(cs, ids);
    Extended(if meals.Any() then Extended(ranked, cs) else ranked, required)
  }

  lemma {:induction false} RankedPlaces(cs: seq<Candidate>, ids: seq<string>)
    requires forall i, j :: 0 <= i < j < |ids| ==> ids[i] != ids[j]
    ensures DistinctPlaces(Ranked(cs, ids))
    ensures forall c :: c in Ranked(cs, ids) ==> c in cs && c.placeId in ids
  {
    if ids != [] {
      RankedPlaces(cs, ids[..|ids| - 1]);
      assert forall x :: x in ids[..|ids| - 1] ==> x in ids && x != ids[|ids| - 1];
    }
  }

  lemma {:induction false} ExtendedPlaces(pool: seq<Candidate>, extra: seq<Candidate>)
    requires DistinctPlaces(pool)
    ensures DistinctPlaces(Extended(pool, extra))
    ensures forall c :: c in Extended(pool, extra) ==> c in pool || c in extra
    ensures forall c :: c in pool ==> c in Extended(pool, extra)
    ensures forall c :: c in extra ==> Listed(Extended(pool, extra), c.placeId)
  {
    if extra != [] {
      var last := extra[|extra| - 1];
      ExtendedPlaces(pool, extra[..|extra| - 1]);
      var front := Extended(pool, extra[..|extra| - 1]);
      if !Listed(front, last.placeId) {
        assert Extended(pool, extra)[|front|] == last;
      }
      forall c | c in extra
        ensures Listed(Extended(pool, extra), c.placeId)
      {
        if c != last {
          assert c in extra[..|extra| - 1];
          var i :| 0 <= i < |front| && front[i].placeId == c.placeId;
          assert Extended(pool, extra)[i] == front[i];
        }
      }
    }
  }

  lemma SameIdSameCandidate(cs: seq<Candidate>, a: Candidate, b: Candidate)
    requires DistinctPlaces(cs) && a in cs && b in cs && a.placeId == b.placeId
    ensures a == b
  {
  }

  lemma {:induction false} RequiredFromCandidates(cs: seq<Candidate>, labels: seq<Label>, n: nat, atlas: Atlas)
    requires n <= |labels| && DistinctPlaces(cs)
    ensures var r := RequiredPlaces(cs, labels, n, atlas);
      && (r.Ok? ==>
            && (forall c :: c in r.value ==> c in cs)
            && (forall i :: 0 <= i < n ==> Serves(r.value, labels[i], atlas)))
      && (r.Err? ==> exists i :: 0 <= i < n && r.error == FactMissing(labels[i]) && forall c :: c in cs ==> !atlas.matches(c, labels[i]))
  {
    if n > 0 {
      RequiredFromCandidates(cs, labels, n - 1, atlas);
      var before, r := RequiredPlaces(cs, labels, n - 1, atlas), RequiredPlaces(cs, labels, n, atlas);
      if r.Ok? {
        var m := FirstMatch(cs, labels[n - 1], atlas).value;
        assert exists k :: 0 <= k < |r.value| && r.value[k].placeId == m.placeId by {
          if !Listed(before.value, m.placeId) {
            assert r.value[|before.value|] == m;
          }
        }
        var k :| 0 <= k < |r.value| && r.value[k].placeId == m.placeId;
        SameIdSameCandidate(cs, r.value[k], m);
        forall i | 0 <= i < n - 1
          ensures Serves(r.value, labels[i], atlas)
        {
          var j :| 0 <= j < |before.value| && atlas.matches(before.value[j], labels[i]);
          assert r.value[j] == before.value[j];
        }
      }
    }
  }

  /** The loop over the required labels. */
  method CollectRequired(cs: seq<Candidate>, labels: seq<Label>, atlas: Atlas) returns (r: Result<seq<Candidate>, Failure>)
    ensures r == RequiredPlaces(cs, labels, |labels|, atlas)
  {
    var required: seq<Candidate> := [];
    var i := 0;
    while i < |labels|
      invariant 0 <= i <= |labels|
      invariant RequiredPlaces(cs, labels, i, atlas) == Ok(required)
    {
      var m := FirstMatch(cs, labels[i], atlas);
      if m.None? {
        StillFailing(cs, labels, i + 1, |labels|, atlas);
        return Err(FactMissing(labels[i]));
      }
      if !Listed(required, m.value.placeId) {
        required := required + [m.value];
      }
      i := i + 1;
    }
    return Ok(required);
  }

  lemma {:induction false} StillFailing(cs: seq<Candidate>, labels: seq<Label>, m: nat, n: nat, atlas: Atlas)
    requires m <= n <= |labels| && RequiredPlaces(cs, labels, m, atlas).Err?
    ensures RequiredPlaces(cs, labels, n, atlas) == RequiredPlaces(cs, labels, m, atlas)
  {
    if m < n {
      StillFailing(cs, labels, m, n - 1, atlas);
    }
  }

  // ---- Feasible task sets ------------------------------------------------------------------

  function TargetSize(pool: seq<Candidate>, meals: Meals): nat {
    if 3 + meals.Count() <= |pool| then 3 + meals.Count() else |pool|
  }

  predicate Fits(tasks: seq<Candidate>, required: seq<Candidate>, meals: Meals, atlas: Atlas) {
    && (forall i :: 0 <= i < |required| ==> Listed(tasks, required[i].placeId))
    && (meals.Any() ==> |Split(tasks, atlas, true)| == meals.Count())
  }

  ghost predicate Feasible(pool: seq<Candidate>, required: seq<Candidate>, meals: Meals, atlas: Atlas, tasks: seq<Candidate>) {
    Picks(tasks, pool) && |tasks| == TargetSize(pool, meals) && Fits(tasks, required, meals, atlas)
  }

  lemma {:induction false} SplitSizes(tasks: seq<Candidate>, atlas: Atlas)
    ensures |Split(tasks, atlas, true)| + |Split(tasks, atlas, false)| == |tasks|
    ensures multiset(Split(tasks, atlas, true)) + multiset(Split(tasks, atlas, false)) == multiset(tasks)
  {
    if tasks != [] {
      SplitSizes(tasks[1..], atlas);
      HeadBag(tasks);
      assert tasks == [tasks[0]] + tasks[1..];
    }
  }

  /** A feasible set cannot be arranged exactly when lunch is wanted and the pool is too small for a third activity. */
  lemma FeasibleArranges(pool: seq<Candidate>, required: seq<Candidate>, meals: Meals, atlas: Atlas, tasks: seq<Candidate>)
    requires Feasible(pool, required, meals, atlas, tasks)
    ensures Arranged(tasks, meals, atlas).None? <==> meals.lunch && |pool| < 3 + meals.Count()
  {
    hide LeastOf, Arrangements;
    SplitSizes(tasks, atlas);
  }

  ghost predicate BestPlan(
    pool: seq<Candidate>, required: seq<Candidate>, members: seq<Member>, meals: Meals, atlas: Atlas, plan: Plan)
    requires members != []
  {
    && Feasible(pool, required, meals, atlas, plan.chosen)
    && Arranged(plan.chosen, meals, atlas) == Some(plan.tasks)
    && plan.scores == Scores(members, plan.chosen, atlas)
    && forall other :: Feasible(pool, required, meals, atlas, other) ==>
         && Arranged(other, meals, atlas).Some?
         && !KeyLess(FairnessKey(other, members, meals, atlas), FairnessKey(plan.chosen, members, meals, atlas))
  }

  ghost predicate HasFeasible(pool: seq<Candidate>, required: seq<Candidate>, meals: Meals, atlas: Atlas) {
    exists tasks :: Feasible(pool, required, meals, atlas, tasks)
  }

  /** What the choice answers, case by case, without saying how it searches. */
  ghost predicate Answers(
    cs: seq<Candidate>, ids: seq<string>, members: seq<Member>, meals: Meals, atlas: Atlas, r: Result<Option<Plan>, Failure>)
  {
    var labels := RequiredLabels(members);
    var required := RequiredPlaces(cs, labels, |labels|, atlas);
    var offered := PoolOf(cs, ids, [], meals);
    if offered == [] then r == Ok(None)
    else if required.Err? then r == Err(required.error)
    else if |required.value| > 3 then r == Err(TooManyMustVisit)
    else
      var pool := PoolOf(cs, ids, required.value, meals);
      if |Split(pool, atlas, true)| < meals.Count() then r == Err(InsufficientDining)
      else if !HasFeasible(pool, required.value, meals, atlas) then r == Err(NoPlan)
      else if meals.lunch && |pool| < 3 + meals.Count() then r == Err(ArrangementIndex)
      else if members == [] then r == Err(NoMembers)
      else r.Ok? && r.value.Some? && BestPlan(pool, required.value, members, meals, atlas, r.value.value)
  }

  // ---- The search --------------------------------------------------------------------------

  method CollectFeasible(pool: seq<Candidate>, required: seq<Candidate>, meals: Meals, atlas: Atlas)
    returns (possible: seq<seq<Candidate>>)
    ensures forall t :: t in possible <==> Feasible(pool, required, meals, atlas, t)
  {
    hide Combos, Fits, Picks;
    var combinations := Combos(pool, TargetSize(pool, meals));
    possible := [];
    var i := 0;
    while i < |combinations|
      invariant 0 <= i <= |combinations|
      invariant forall t :: t in possible <==> t in combinations[..i] && Fits(t, required, meals, atlas)
    {
      assert combinations[..i + 1] == combinations[..i] + [combinations[i]];
      if Fits(combinations[i], required, meals, atlas) {
        possible := possible + [combinations[i]];
      }
      i := i + 1;
    }
    assert combinations[..i] == combinations;
    forall t
      ensures t in possible <==> Feasible(pool, required, meals, atlas, t)
    {
      CombosAre(pool, TargetSize(pool, meals), t);
    }
  }

  /** `min` over the scored sets. */
  method PickFairest(
    pool: seq<Candidate>, required: seq<Candidate>, members: seq<Member>, meals: Meals, atlas: Atlas, possible: seq<seq<Candidate>>)
    returns (chosen: seq<Candidate>)
    requires members != [] && possible != []
    requires forall t :: t in possible <==> Feasible(pool, required, meals, atlas, t)
    requires !(meals.lunch && |pool| < 3 + meals.Count())
    ensures Feasible(pool, required, meals, atlas, chosen) && Arranged(chosen, meals, atlas).Some?
    ensures forall other :: Feasible(pool, required, meals, atlas, other) ==>
      && Arranged(other, meals, atlas).Some?
      && !KeyLess(FairnessKey(other, members, meals, atlas), FairnessKey(chosen, members, meals, atlas))
  {
    hide Feasible, FairnessKey, Arranged, KeyLess, LeastOf;
    var keys: seq<Key> := [];
    var i := 0;
    while i < |possible|
      invariant 0 <= i <= |possible| && |keys| == i
      invariant forall j :: 0 <= j < i ==>
        Arranged(possible[j], meals, atlas).Some? && keys[j] == FairnessKey(possible[j], members, meals, atlas)
    {
      assert possible[i] in possible;
      FeasibleArranges(pool, required, meals, atlas, possible[i]);
      keys := keys + [FairnessKey(possible[i], members, meals, atlas)];
      i := i + 1;
    }
    var best := FirstLeast(keys);
    chosen := possible[best];
    assert chosen in possible;
    forall other | Feasible(pool, required, meals, atlas, other)
      ensures Arranged(other, meals, atlas).Some?
      ensures !KeyLess(FairnessKey(other, members, meals, atlas), FairnessKey(chosen, members, meals, atlas))
    {
      var j :| 0 <= j < |possible| && possible[j] == other;
      LeastIsMinimal(keys, |keys|, j);
    }
  }

  /** `choose_single_plan`. */
  method ChooseSinglePlan(cs: seq<Candidate>, ids: seq<string>, members: seq<Member>, meals: Meals, atlas: Atlas)
    returns (r: Result<Option<Plan>, Failure>)
    ensures Answers(cs, ids, members, meals, atlas, r)
  {
    hide Feasible, FairnessKey, Arranged, KeyLess, Ranked, Extended, RequiredPlaces, StableUnique;
    var offered := PoolOf(cs, ids, [], meals);
    if offered == [] {
      return Ok(None);
    }
    var labels := StableUniqueText(AllMustVisit(members), LABEL_LIMIT);
    var found := CollectRequired(cs, labels, atlas);
    if found.Err? {
      return Err(found.error);
    }
    var required := found.value;
    if |required| > 3 {
      return Err(TooManyMustVisit);
    }
    var pool := PoolOf(cs, ids, required, meals);
    if |Split(pool, atlas, true)| < meals.Count() {
      return Err(InsufficientDining);
    }
    var possible := CollectFeasible(pool, required, meals, atlas);
    if possible == [] {
      return Err(NoPlan);
    }
    assert possible[0] in possible;
    var first := OrderTasksForMeals(possible[0], meals, atlas);
    FeasibleArranges(pool, required, meals, atlas, possible[0]);
    if first.None? {
      return Err(ArrangementIndex);
    }
    if members == [] {
      return Err(NoMembers);
    }
    var chosen := PickFairest(pool, required, members, meals, atlas, possible);
    var tasks := OrderTasksForMeals(chosen, meals, atlas);
    return Ok(Some(Plan(chosen, tasks.value, Scores(members, chosen, atlas))));
  }
}
