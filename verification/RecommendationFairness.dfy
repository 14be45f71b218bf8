/** What the scores and the fairness key mean for the members: the choice is max-min fair, and the penalty for a missed
    must-visit place is never charged as long as all labels are enforced. */
module RecommendationFairness {
  import opened Prelude
  import opened Combinatorics
  import opened Recommendation
  import opened RecommendationChoice
  import opened RecommendationLaws
  import opened TextMatching
  import AvoidLaws
  import Prefilter
  import PrefilterLaws

  // ---- Scores ------------------------------------------------------------------------------

  /** The non-blank labels, in order. */
  function NonBlank(labels: seq<Label>): seq<Label> {
    if labels == [] then []
    else (if labels[0].folded != "" then [labels[0]] else []) + NonBlank(labels[1..])
  }

  function Matched(interests: seq<Label>, tasks: seq<Candidate>, atlas: Atlas): seq<Label> {
    if interests == [] then []
    else (if atlas.covers(tasks, interests[0]) then [interests[0]] else []) + Matched(interests[1..], tasks, atlas)
  }

  function Without(labels: seq<Label>, listed: seq<Label>): seq<Label> {
    if labels == [] then []
    else (if labels[0] in listed then [] else [labels[0]]) + Without(labels[1..], listed)
  }

  function Missed(mustVisit: seq<Label>, tasks: seq<Candidate>, atlas: Atlas): seq<Label> {
    if mustVisit == [] then []
    else (if Serves(tasks, mustVisit[0], atlas) then [] else [mustVisit[0]]) + Missed(mustVisit[1..], tasks, atlas)
  }

  lemma {:induction false} MatchedMembers(interests: seq<Label>, tasks: seq<Candidate>, atlas: Atlas, x: Label)
    ensures x in Matched(interests, tasks, atlas) <==> x in interests && atlas.covers(tasks, x)
  {
    if interests != [] {
      MatchedMembers(interests[1..], tasks, atlas, x);
      assert x in interests <==> x == interests[0] || x in interests[1..];
    }
  }

  /** Looking an interest up in the list of matched ones, as the code does, counts the same interests as matching it. */
  lemma {:induction false} MissingCountsUnmet(all: seq<Label>, from: nat, tasks: seq<Candidate>, atlas: Atlas)
    requires from <= |NonBlank(all)|
    ensures |Without(NonBlank(all)[from..], Matched(NonBlank(all), tasks, atlas))| == Unmet(NonBlank(all)[from..], tasks, atlas)
    decreases |NonBlank(all)| - from
  {
    var xs := NonBlank(all);
    if from < |xs| {
      MissingCountsUnmet(all, from + 1, tasks, atlas);
      MatchedMembers(xs, tasks, atlas, xs[from]);
      NonBlankMembers(all, xs[from]);
      assert xs[from..][1..] == xs[from + 1..];
    }
  }

  lemma {:induction false} NonBlankMembers(labels: seq<Label>, x: Label)
    ensures x in NonBlank(labels) <==> x in labels && x.folded != ""
  {
    if labels != [] {
      NonBlankMembers(labels[1..], x);
      assert x in labels <==> x == labels[0] || x in labels[1..];
    }
  }

  lemma {:induction false} UnmetIgnoresBlanks(labels: seq<Label>, tasks: seq<Candidate>, atlas: Atlas)
    ensures Unmet(NonBlank(labels), tasks, atlas) == Unmet(labels, tasks, atlas)
  {
    if labels != [] {
      UnmetIgnoresBlanks(labels[1..], tasks, atlas);
      if labels[0].folded != "" {
        assert NonBlank(labels)[1..] == NonBlank(labels[1..]);
      } else {
        assert NonBlank(labels) == NonBlank(labels[1..]);
      }
    }
  }

  lemma {:induction false} MissedMembers(labels: seq<Label>, tasks: seq<Candidate>, atlas: Atlas, x: Label)
    ensures x in Missed(labels, tasks, atlas) <==> x in labels && !Serves(tasks, x, atlas)
  {
    if labels != [] {
      MissedMembers(labels[1..], tasks, atlas, x);
      assert x in labels <==> x == labels[0] || x in labels[1..];
    }
  }

  lemma MissedIff(m: Member, tasks: seq<Candidate>, atlas: Atlas)
    ensures Missed(NonBlank(m.mustVisit), tasks, atlas) != [] <==> MissesMustVisit(m, tasks, atlas)
  {
    var missed := Missed(NonBlank(m.mustVisit), tasks, atlas);
    if missed != [] {
      MissedMembers(NonBlank(m.mustVisit), tasks, atlas, missed[0]);
      NonBlankMembers(m.mustVisit, missed[0]);
    }
    if i :| 0 <= i < |m.mustVisit| && m.mustVisit[i].folded != "" && !Serves(tasks, m.mustVisit[i], atlas) {
      NonBlankMembers(m.mustVisit, m.mustVisit[i]);
      MissedMembers(NonBlank(m.mustVisit), tasks, atlas, m.mustVisit[i]);
    }
  }

  /** `_score_members`. */
  method ScoreMembers(tasks: seq<Candidate>, members: seq<Member>, atlas: Atlas) returns (scores: seq<nat>)
    ensures scores == Scores(members, tasks, atlas)
  {
    hide ScoreOf;
    scores := [];
    var i := 0;
    while i < |members|
      invariant 0 <= i <= |members| && |scores| == i
      invariant forall j :: 0 <= j < i ==> scores[j] == ScoreOf(members[j], tasks, atlas)
    {
      var score := ScoreMember(tasks, members[i], atlas);
      scores := scores + [score];
      i := i + 1;
    }
  }

  method ScoreMember(tasks: seq<Candidate>, m: Member, atlas: Atlas) returns (score: nat)
    ensures score == ScoreOf(m, tasks, atlas)
  {
    var interests := NonBlank(m.interests);
    var missing := Without(interests, Matched(interests, tasks, atlas));
    MissingCountsUnmet(m.interests, 0, tasks, atlas);
    assert interests[0..] == interests;
    UnmetIgnoresBlanks(m.interests, tasks, atlas);
    score := Floor(100 - 20 * |missing|);
    MissedIff(m, tasks, atlas);
    if Missed(NonBlank(m.mustVisit), tasks, atlas) != [] {
      score := Floor(score - 60);
    }
  }

  lemma {:induction false} NothingUnmetIff(interests: seq<Label>, tasks: seq<Candidate>, atlas: Atlas)
    ensures Unmet(interests, tasks, atlas) == 0 <==>
      forall i :: 0 <= i < |interests| && interests[i].folded != "" ==> atlas.covers(tasks, interests[i])
  {
    if interests != [] {
      NothingUnmetIff(interests[1..], tasks, atlas);
      assert forall i :: 1 <= i < |interests| ==> interests[i] == interests[1..][i - 1];
    }
  }

  /** A member is fully content exactly with a plan that covers every interest and visits every must-visit place. */
  lemma FullScoreIff(m: Member, tasks: seq<Candidate>, atlas: Atlas)
    ensures ScoreOf(m, tasks, atlas) == 100 <==>
      && (forall i :: 0 <= i < |m.interests| && m.interests[i].folded != "" ==> atlas.covers(tasks, m.interests[i]))
      && (forall i :: 0 <= i < |m.mustVisit| && m.mustVisit[i].folded != "" ==> Serves(tasks, m.mustVisit[i], atlas))
  {
    NothingUnmetIff(m.interests, tasks, atlas);
  }

  // ---- The fairness key --------------------------------------------------------------------

  function Average(scores: seq<nat>): real
    requires scores != []
  {
    Sum(scores) as real / |scores| as real
  }

  lemma ProductOrder(p: real, q: real, n: real)
    requires 0.0 < n
    ensures p < q <==> p * n < q * n
  {
    assert q * n - p * n == (q - p) * n;
    if p < q {
      assert 0.0 < (q - p) * n;
    } else {
      assert 0.0 <= (p - q) * n;
    }
  }

  lemma QuotientOrder(x: real, y: real, n: real)
    requires 0.0 < n
    ensures x / n < y / n <==> x < y
  {
    assert (x / n) * n == x;
    assert (y / n) * n == y;
    ProductOrder(x / n, y / n, n);
  }

  /** The order of the averages is the order of the totals. */
  lemma AverageOrder(a: seq<nat>, b: seq<nat>)
    requires a != [] && |a| == |b|
    ensures Average(a) < Average(b) <==> Sum(a) < Sum(b)
    ensures Average(b) < Average(a) <==> Sum(b) < Sum(a)
  {
    hide Sum;
    QuotientOrder(Sum(a) as real, Sum(b) as real, |a| as real);
    QuotientOrder(Sum(b) as real, Sum(a) as real, |a| as real);
  }

  /** The worst-off member of the chosen set is at least as well off as the worst-off member of any other feasible set;
      among those the average is highest, then the meals are closest, then the known cost is lowest. */
  lemma ChosenIsFairest(
    pool: seq<Candidate>, required: seq<Candidate>, members: seq<Member>, meals: Meals, atlas: Atlas, plan: Plan,
    other: seq<Candidate>)
    requires members != [] && BestPlan(pool, required, members, meals, atlas, plan)
    requires Feasible(pool, required, meals, atlas, other)
    ensures Arranged(other, meals, atlas).Some? && Arranged(plan.chosen, meals, atlas).Some?
    ensures (exists worst :: 0 <= worst < |members| &&
               forall i :: 0 <= i < |members| ==>
                 ScoreOf(members[worst], other, atlas) <= ScoreOf(members[i], plan.chosen, atlas))
    ensures var mine, theirs := Scores(members, plan.chosen, atlas), Scores(members, other, atlas);
      Minimum(mine) == Minimum(theirs) ==>
        && Average(mine) >= Average(theirs)
        && (Average(mine) == Average(theirs) ==>
              && Proximity(plan.chosen, meals, atlas) <= Proximity(other, meals, atlas)
              && (Proximity(plan.chosen, meals, atlas) == Proximity(other, meals, atlas) ==>
                    KnownCost(plan.chosen, atlas) <= KnownCost(other, atlas)))
  {
    hide Feasible, Arranged, ScoreOf, Proximity, KnownCost, Average, Sum, Minimum;
    var mine, theirs := Scores(members, plan.chosen, atlas), Scores(members, other, atlas);
    AverageOrder(mine, theirs);
    NotLessMeans(FairnessKey(other, members, meals, atlas), FairnessKey(plan.chosen, members, meals, atlas));
    var worst :| 0 <= worst < |theirs| && theirs[worst] == Minimum(theirs);
    assert forall i :: 0 <= i < |members| ==> theirs[worst] <= mine[i];
  }

  lemma NotLessMeans(a: Key, b: Key)
    requires |a.numbers| == 4 && |b.numbers| == 4 && !KeyLess(a, b)
    ensures b.numbers[0] <= a.numbers[0]
    ensures a.numbers[0] == b.numbers[0] ==> b.numbers[1] <= a.numbers[1]
    ensures a.numbers[..2] == b.numbers[..2] ==> b.numbers[2] <= a.numbers[2]
    ensures a.numbers[..3] == b.numbers[..3] ==> b.numbers[3] <= a.numbers[3]
  {
    var x, y := a.numbers, b.numbers;
    assert x[1..][1..] == x[2..] && y[1..][1..] == y[2..];
    assert x[2..][1..] == x[3..] && y[2..][1..] == y[3..];
    assert !NumbersLess(x, y);
    assert x[0] == y[0] ==> !NumbersLess(x[1..], y[1..]);
    assert x[0] == y[0] && x[1] == y[1] ==> !NumbersLess(x[2..], y[2..]);
    assert x[0] == y[0] && x[1] == y[1] && x[2] == y[2] ==> !NumbersLess(x[3..], y[3..]);
    if x[..3] == y[..3] {
      assert x[0] == x[..3][0] && x[1] == x[..3][1] && x[2] == x[..3][2];
      assert y[0] == y[..3][0] && y[1] == y[..3][1] && y[2] == y[..3][2];
    }
    if x[..2] == y[..2] {
      assert x[0] == x[..2][0] && x[1] == x[..2][1] && y[0] == y[..2][0] && y[1] == y[..2][1];
    }
  }

  // ---- The must-visit penalty ----------------------------------------------------------------

  /** Matching a place with a label does not depend on the label's case. */
  ghost predicate CaseBlind(atlas: Atlas) {
    forall c: Candidate, a: Label, b: Label {:trigger atlas.matches(c, a), atlas.matches(c, b)} ::
      a.folded == b.folded ==> atlas.matches(c, a) == atlas.matches(c, b)
  }

  function DistinctLabels(members: seq<Member>): seq<Label> {
    FirstOccurrences(AllMustVisit(members), |AllMustVisit(members)|)
  }

  lemma AllLabelsRequired(members: seq<Member>, m: nat, i: nat)
    requires m < |members| && i < |members[m].mustVisit| && members[m].mustVisit[i].folded != ""
    requires |DistinctLabels(members)| <= LABEL_LIMIT
    ensures HasFolded(RequiredLabels(members), members[m].mustVisit[i].folded)
  {
    var k := MustVisitListed(members, m, i);
    FirstOccurrencesCover(AllMustVisit(members), |AllMustVisit(members)|, k);
  }

  /** With at most eight distinct labels nobody is ever charged for a missed must-visit place: an accepted plan is scored
      by its interests alone. */
  lemma NobodyPenalised(
    cs: seq<Candidate>, ids: seq<string>, members: seq<Member>, meals: Meals, atlas: Atlas, plan: Plan, m: nat)
    requires DistinctPlaces(cs) && DistinctIds(ids) && CaseBlind(atlas)
    requires Answers(cs, ids, members, meals, atlas, Ok(Some(plan)))
    requires m < |members| && |DistinctLabels(members)| <= LABEL_LIMIT
    ensures !MissesMustVisit(members[m], plan.chosen, atlas)
    ensures ScoreOf(members[m], plan.chosen, atlas) == Floor(100 - 20 * Unmet(members[m].interests, plan.chosen, atlas))
  {
    hide Answers, RequiredLabels, DistinctLabels, ArrangementKey, KeyLess, MealsInSlots, IsArrangement, Unmet;
    PlanKeepsItsPromises(cs, ids, members, meals, atlas, plan, []);
    var labels := RequiredLabels(members);
    var wishes := members[m].mustVisit;
    forall i | 0 <= i < |wishes| && wishes[i].folded != ""
      ensures Serves(plan.chosen, wishes[i], atlas)
    {
      AllLabelsRequired(members, m, i);
      var k :| 0 <= k < |labels| && labels[k].folded == wishes[i].folded;
      var j :| 0 <= j < |plan.chosen| && atlas.matches(plan.chosen[j], labels[k]);
      assert atlas.matches(plan.chosen[j], wishes[i]);
    }
  }

  // ---- More than eight labels ------------------------------------------------------------------

  /** An accepted plan that charges a member for a missed must-visit place. */
  ghost predicate Penalises(
    cs: seq<Candidate>, ids: seq<string>, members: seq<Member>, meals: Meals, atlas: Atlas, plan: Plan, m: nat)
  {
    && DistinctPlaces(cs) && DistinctIds(ids)
    && Answers(cs, ids, members, meals, atlas, Ok(Some(plan)))
    && m < |members| && MissesMustVisit(members[m], plan.chosen, atlas)
  }

  /** Whatever the candidates, their ranking and the meals, no accepted plan for these members charges anybody. */
  ghost predicate NeverPenalised(members: seq<Member>, atlas: Atlas) {
    forall cs, ids, meals, plan, m :: !Penalises(cs, ids, members, meals, atlas, plan, m)
  }

  predicate Wished(members: seq<Member>, wish: Label) {
    wish in AllMustVisit(members) && wish.folded != ""
  }

  /** At most three places that serve all enforced labels and not this one. */
  predicate Evades(cs: seq<Candidate>, members: seq<Member>, wish: Label, atlas: Atlas) {
    && DistinctPlaces(cs) && 1 <= |cs| <= 3
    && (forall i :: 0 <= i < |RequiredLabels(members)| ==> Serves(cs, RequiredLabels(members)[i], atlas))
    && !Serves(cs, wish, atlas)
  }

  // Places that serve every enforced label, offered alone and without meals, are the plan.

  lemma {:induction false} RankedFront(cs: seq<Candidate>, n: nat)
    requires DistinctPlaces(cs) && n <= |cs|
    ensures Ranked(cs, Ids(cs)[..n]) == cs[..n]
  {
    var ids := Ids(cs)[..n];
    if n > 0 {
      RankedFront(cs, n - 1);
      assert ids[..n - 1] == Ids(cs)[..n - 1];
      assert Listed(cs, ids[n - 1]) by { assert cs[n - 1].placeId == ids[n - 1]; }
      SameIdSameCandidate(cs, Find(cs, ids[n - 1]), cs[n - 1]);
      assert cs[..n] == cs[..n - 1] + [cs[n - 1]];
    }
  }

  lemma {:induction false} ExtendedByListed(pool: seq<Candidate>, extra: seq<Candidate>)
    requires forall c :: c in extra ==> Listed(pool, c.placeId)
    ensures Extended(pool, extra) == pool
  {
    if extra != [] {
      ExtendedByListed(pool, extra[..|extra| - 1]);
      assert extra[|extra| - 1] in extra;
    }
  }

  lemma WholePool(cs: seq<Candidate>, required: seq<Candidate>)
    requires DistinctPlaces(cs) && forall c :: c in required ==> c in cs
    ensures PoolOf(cs, Ids(cs), required, NO_MEALS) == cs
  {
    RankedFront(cs, |cs|);
    assert Ids(cs)[..|cs|] == Ids(cs) && cs[..|cs|] == cs;
    forall c | c in required
      ensures Listed(cs, c.placeId)
    {
      var i :| 0 <= i < |cs| && cs[i] == c;
    }
    ExtendedByListed(cs, required);
  }

  lemma {:induction false} PicksWhole(t: seq<Candidate>, s: seq<Candidate>)
    requires Picks(t, s)
    ensures |t| <= |s| && (|t| == |s| ==> t == s)
  {
    if s != [] {
      if t != [] && t[0] == s[0] && Picks(t[1..], s[1..]) {
        PicksWhole(t[1..], s[1..]);
        assert t == [t[0]] + t[1..] && s == [s[0]] + s[1..];
      } else {
        PicksWhole(t, s[1..]);
      }
    }
  }

  lemma WholeFeasible(cs: seq<Candidate>, required: seq<Candidate>, atlas: Atlas, tasks: seq<Candidate>)
    requires |cs| <= 3 && forall c :: c in required ==> c in cs
    ensures Feasible(cs, required, NO_MEALS, atlas, tasks) <==> tasks == cs
  {
    hide Picks;
    PicksItself(cs);
    if tasks == cs {
      forall i | 0 <= i < |required|
        ensures Listed(tasks, required[i].placeId)
      {
        assert required[i] in required;
        var j :| 0 <= j < |cs| && cs[j] == required[i];
      }
    }
    if Picks(tasks, cs) {
      PicksWhole(tasks, cs);
    }
  }

  lemma {:induction false} RequiredDistinct(cs: seq<Candidate>, labels: seq<Label>, n: nat, atlas: Atlas)
    requires n <= |labels|
    ensures var r := RequiredPlaces(cs, labels, n, atlas); r.Ok? ==> DistinctPlaces(r.value)
  {
    if n > 0 {
      RequiredDistinct(cs, labels, n - 1, atlas);
    }
  }

  lemma {:induction false} IdSetCount(cs: seq<Candidate>)
    ensures |IdSet(cs)| <= |cs| && (DistinctPlaces(cs) ==> |IdSet(cs)| == |cs|)
  {
    if cs != [] {
      var front, last := cs[..|cs| - 1], cs[|cs| - 1];
      IdSetCount(front);
      assert IdSet(cs) == IdSet(front) + {last.placeId};
    }
  }

  lemma SomeAreFewer(part: seq<Candidate>, cs: seq<Candidate>)
    requires DistinctPlaces(part) && forall c :: c in part ==> c in cs
    ensures |part| <= |cs|
  {
    IdSetCount(part);
    IdSetCount(cs);
    forall id | id in IdSet(part)
      ensures id in IdSet(cs)
    {
      var i :| 0 <= i < |part| && part[i].placeId == id;
      assert part[i] in part;
    }
    SubsetCount(IdSet(part), IdSet(cs));
  }

  lemma ServedBySome(cs: seq<Candidate>, l: Label, atlas: Atlas)
    requires Serves(cs, l, atlas)
    ensures exists c :: c in cs && atlas.matches(c, l)
  {
    var j :| 0 <= j < |cs| && atlas.matches(cs[j], l);
    assert cs[j] in cs;
  }

  lemma MoreServe(part: seq<Candidate>, cs: seq<Candidate>, l: Label, atlas: Atlas)
    requires forall c :: c in part ==> c in cs
    ensures Serves(part, l, atlas) ==> Serves(cs, l, atlas)
  {
    if j :| 0 <= j < |part| && atlas.matches(part[j], l) {
      assert part[j] in part;
      var n :| 0 <= n < |cs| && cs[n] == part[j];
    }
  }

  lemma RequiredAmong(cs: seq<Candidate>, labels: seq<Label>, atlas: Atlas)
    requires DistinctPlaces(cs) && forall i :: 0 <= i < |labels| ==> Serves(cs, labels[i], atlas)
    ensures var r := RequiredPlaces(cs, labels, |labels|, atlas);
      r.Ok? && (forall c :: c in r.value ==> c in cs) && |r.value| <= |cs|
  {
    hide RequiredPlaces;
    RequiredFromCandidates(cs, labels, |labels|, atlas);
    RequiredDistinct(cs, labels, |labels|, atlas);
    var r := RequiredPlaces(cs, labels, |labels|, atlas);
    if r.Ok? {
      SomeAreFewer(r.value, cs);
    } else {
      var i :| 0 <= i < |labels| && r.error == FactMissing(labels[i]) && forall c :: c in cs ==> !atlas.matches(c, labels[i]);
      ServedBySome(cs, labels[i], atlas);
    }
  }

  lemma WholeIsBest(cs: seq<Candidate>, required: seq<Candidate>, members: seq<Member>, atlas: Atlas, plan: Plan)
    requires members != [] && |cs| <= 3 && forall c :: c in required ==> c in cs
    requires plan == Plan(cs, cs, Scores(members, cs, atlas))
    ensures BestPlan(cs, required, members, NO_MEALS, atlas, plan) && HasFeasible(cs, required, NO_MEALS, atlas)
  {
    hide Feasible, KeyLess, FairnessKey, ScoreOf;
    forall tasks
      ensures Feasible(cs, required, NO_MEALS, atlas, tasks) <==> tasks == cs
    {
      WholeFeasible(cs, required, atlas, tasks);
    }
    assert Arranged(cs, NO_MEALS, atlas) == Some(cs);
    KeyIrreflexive(FairnessKey(cs, members, NO_MEALS, atlas));
  }

  const NO_MEALS := Meals(false, false)

  lemma EvadingAnswers(cs: seq<Candidate>, members: seq<Member>, wish: Label, atlas: Atlas, plan: Plan)
    requires members != [] && Evades(cs, members, wish, atlas) && plan == Plan(cs, cs, Scores(members, cs, atlas))
    ensures Answers(cs, Ids(cs), members, NO_MEALS, atlas, Ok(Some(plan)))
  {
    hide RequiredLabels, PoolOf, RequiredPlaces, Feasible, BestPlan, HasFeasible, Split, Scores, Serves;
    var labels := RequiredLabels(members);
    RequiredAmong(cs, labels, atlas);
    var required := RequiredPlaces(cs, labels, |labels|, atlas).value;
    WholePool(cs, []);
    WholePool(cs, required);
    WholeIsBest(cs, required, members, atlas, plan);
  }

  /** The label belongs to some member. */
  lemma {:induction false} LabelOwner(members: seq<Member>, l: Label) returns (m: nat)
    requires l in AllMustVisit(members)
    ensures m < |members| && l in members[m].mustVisit
  {
    if l in members[0].mustVisit {
      m := 0;
    } else {
      m := LabelOwner(members[1..], l);
      m := m + 1;
    }
  }

  lemma EvadingPenalises(cs: seq<Candidate>, members: seq<Member>, wish: Label, atlas: Atlas) returns (plan: Plan, m: nat)
    requires Wished(members, wish) && Evades(cs, members, wish, atlas)
    ensures Penalises(cs, Ids(cs), members, NO_MEALS, atlas, plan, m)
  {
    m := LabelOwner(members, wish);
    plan := Plan(cs, cs, Scores(members, cs, atlas));
    EvadingAnswers(cs, members, wish, atlas, plan);
    hide Answers, Evades;
    var i :| 0 <= i < |members[m].mustVisit| && members[m].mustVisit[i] == wish;
    assert !Serves(plan.chosen, members[m].mustVisit[i], atlas) by { EvadersMiss(cs, members, wish, atlas); }
    assert forall a, b :: 0 <= a < b < |cs| ==> Ids(cs)[a] != Ids(cs)[b] by { EvadersMiss(cs, members, wish, atlas); }
  }

  lemma EvadersMiss(cs: seq<Candidate>, members: seq<Member>, wish: Label, atlas: Atlas)
    requires Evades(cs, members, wish, atlas)
    ensures DistinctPlaces(cs) && !Serves(cs, wish, atlas)
  {
  }

  /** The required places of an accepted plan that misses a label are such places. */
  lemma PenaltyEvades(
    cs: seq<Candidate>, ids: seq<string>, members: seq<Member>, meals: Meals, atlas: Atlas, plan: Plan, m: nat)
    returns (part: seq<Candidate>, wish: Label)
    requires Penalises(cs, ids, members, meals, atlas, plan, m)
    ensures Wished(members, wish) && Evades(part, members, wish, atlas)
  {
    hide AllMustVisit, FairnessKey, KeyLess, PoolOf, RequiredLabels, RequiredPlaces, Ranked, Extended, Arranged, Picks, Split;
    var i :| 0 <= i < |members[m].mustVisit| && members[m].mustVisit[i].folded != ""
             && !Serves(plan.chosen, members[m].mustVisit[i], atlas);
    wish := members[m].mustVisit[i];
    var k := MustVisitListed(members, m, i);
    assert wish == AllMustVisit(members)[k];
    var labels := RequiredLabels(members);
    part := RequiredPlaces(cs, labels, |labels|, atlas).value;
    RequiredFromCandidates(cs, labels, |labels|, atlas);
    RequiredDistinct(cs, labels, |labels|, atlas);
    ChosenHoldsRequired(cs, ids, members, meals, atlas, plan);
    SomeRequired(members, k);
    assert labels != [] && Serves(part, labels[0], atlas);
    MoreServe(part, plan.chosen, wish, atlas);
  }

  lemma SomeRequired(members: seq<Member>, k: nat)
    requires k < |AllMustVisit(members)| && AllMustVisit(members)[k].folded != ""
    ensures RequiredLabels(members) != []
  {
    FirstOccurrencesCover(AllMustVisit(members), |AllMustVisit(members)|, k);
  }

  /** An accepted plan holds the required places themselves, at most three of them. */
  lemma ChosenHoldsRequired(
    cs: seq<Candidate>, ids: seq<string>, members: seq<Member>, meals: Meals, atlas: Atlas, plan: Plan)
    requires DistinctPlaces(cs) && DistinctIds(ids) && Answers(cs, ids, members, meals, atlas, Ok(Some(plan)))
    ensures var required := RequiredPlaces(cs, RequiredLabels(members), |RequiredLabels(members)|, atlas);
      required.Ok? && |required.value| <= 3 && forall c :: c in required.value ==> c in plan.chosen
  {
    hide KeyLess, FairnessKey, Ranked, Extended, RequiredPlaces, StableUnique, Arranged, ArrangementKey, Picks, PoolOf;
    var labels := RequiredLabels(members);
    var required := RequiredPlaces(cs, labels, |labels|, atlas).value;
    RequiredFromCandidates(cs, labels, |labels|, atlas);
    PoolPlaces(cs, ids, required, meals);
    ChosenPlaces(cs, PoolOf(cs, ids, required, meals), required, plan.chosen);
  }

  /** For every matching, and over all candidates, rankings and meals: some accepted plan charges a member for a missed
      must-visit place exactly if at most three places can serve all enforced labels without serving some other one. */
  lemma NeverPenalisedIff(members: seq<Member>, atlas: Atlas)
    ensures NeverPenalised(members, atlas) <==>
            forall wish, cs :: Wished(members, wish) ==> !Evades(cs, members, wish, atlas)
  {
    hide Answers, MissesMustVisit, Evades, Wished;
    if forall wish, cs :: Wished(members, wish) ==> !Evades(cs, members, wish, atlas) {
      forall cs, ids, meals, plan, m
        ensures !Penalises(cs, ids, members, meals, atlas, plan, m)
      {
        if Penalises(cs, ids, members, meals, atlas, plan, m) {
          var part, wish := PenaltyEvades(cs, ids, members, meals, atlas, plan, m);
        }
      }
    } else {
      var wish, cs :| Wished(members, wish) && Evades(cs, members, wish, atlas);
      var plan, m := EvadingPenalises(cs, members, wish, atlas);
    }
  }

  /** Up to eight distinct labels nobody is ever charged, however places are matched. */
  lemma EightLabelsSuffice(members: seq<Member>, atlas: Atlas)
    requires CaseBlind(atlas) && |DistinctLabels(members)| <= LABEL_LIMIT
    ensures NeverPenalised(members, atlas)
  {
    hide Answers, DistinctLabels, MissesMustVisit;
    forall cs, ids, meals, plan, m
      ensures !Penalises(cs, ids, members, meals, atlas, plan, m)
    {
      if Penalises(cs, ids, members, meals, atlas, plan, m) {
        NobodyPenalised(cs, ids, members, meals, atlas, plan, m);
      }
    }
  }

  /** Behind a successful pre-filter of the same labels the limit is out of reach: it refuses more than three. */
  lemma PreFilteredNeverPenalised(
    places: seq<Prefilter.Place>, trip: Prefilter.Trip, rules: Prefilter.Rules, r: seq<Prefilter.Place>, members: seq<Member>,
    atlas: Atlas)
    requires Prefilter.Answers(places, trip, rules, Ok(r)) && CaseBlind(atlas)
    requires Prefilter.MustVisits(trip.people) == AllMustVisit(members)
    ensures NeverPenalised(members, atlas) && |DistinctLabels(members)| <= 3
  {
    PrefilterLaws.AnsweredFewLabels(places, trip, rules, r);
    hide Prefilter.Answers, NeverPenalised, FirstOccurrences;
    EightLabelsSuffice(members, atlas);
  }

  // ---- Nine labels under the code's matching -----------------------------------------------------

  /** `_candidate_matches_label`; a candidate with a plain name and no category is no restaurant. */
  ghost predicate AsWritten(atlas: Atlas, t: Texts) {
    && PlainStays(t)
    && (forall c, l :: atlas.matches(c, l) <==>
          Satisfies(t.norm(c.name), t.norm(c.placeId), atlas.dining(c), t.norm(l.text), t.diningLabel(l.text)))
    && (forall c: Candidate :: Plain(c.name) && c.category.None? ==> !atlas.dining(c))
  }

  function Wishing(labels: seq<Label>): seq<Member> {
    [Member("p", [], labels)]
  }

  lemma WishingLabels(labels: seq<Label>)
    requires FoldedApart(labels) && (forall i :: 0 <= i < |labels| ==> labels[i].folded != "") && |labels| > LABEL_LIMIT
    ensures AllMustVisit(Wishing(labels)) == labels && RequiredLabels(Wishing(labels)) == labels[..LABEL_LIMIT]
  {
    assert Wishing(labels)[1..] == [];
    assert AllMustVisit(Wishing(labels)) == labels + [];
    AllFirst(labels, |labels|);
    assert labels[..|labels|] == labels;
  }

  /** A place that is called "x" and eight times "z". */
  const NEAR := Candidate("fact", "place", ['x'] + Repeated('z', 8), None)

  lemma NearMatches(atlas: Atlas, t: Texts, k: nat)
    requires AsWritten(atlas, t) && 1 <= k <= 9
    ensures atlas.matches(NEAR, Label(Repeated('z', k), Repeated('z', k))) <==> k <= 8
  {
    var name, wish := NEAR.name, Repeated('z', k);
    assert Plain(name) && Plain(NEAR.placeId) && Plain(wish);
    hide PlainStays;
    if k <= 8 {
      assert StandsAt(wish, name, 1) by {
        assert name[1..1 + k] == wish;
      }
    } else {
      assert name[0] != wish[0];
      NotWithinRepeated(name, 'z', k);
      assert name[0..k][0] == name[0];
    }
    assert wish != NEAR.placeId by { assert NEAR.placeId[0] == 'p'; }
  }

  lemma NearServes(atlas: Atlas, t: Texts)
    requires AsWritten(atlas, t)
    ensures forall i :: 0 <= i < 9 ==> (Serves([NEAR], AvoidLaws.Words(1, 9)[i], atlas) <==> i < 8)
  {
    hide AsWritten;
    var cs := [NEAR];
    forall i | 0 <= i < 9
      ensures Serves(cs, AvoidLaws.Words(1, 9)[i], atlas) <==> i < 8
    {
      NearMatches(atlas, t, i + 1);
      assert cs[0] == NEAR;
    }
  }

  lemma NearEvades(atlas: Atlas, t: Texts)
    requires AsWritten(atlas, t)
    ensures var labels := AvoidLaws.Words(1, 9);
      Wished(Wishing(labels), labels[8]) && Evades([NEAR], Wishing(labels), labels[8], atlas)
    ensures |Wishing(AvoidLaws.Words(1, 9))| == 1
  {
    var labels := AvoidLaws.Words(1, 9);
    AvoidLaws.WordsApart(1, 9, t);
    WishingLabels(labels);
    hide AsWritten, RequiredLabels, AllMustVisit, Serves, AvoidLaws.Words;
    NearServes(atlas, t);
    assert labels[8] in labels;
  }

  /** Nine words of one to nine letters: the place serves the first eight and not the ninth, and is charged for it. */
  lemma NineLabelsFail(atlas: Atlas, t: Texts) returns (plan: Plan)
    requires AsWritten(atlas, t)
    ensures Penalises([NEAR], ["place"], Wishing(AvoidLaws.Words(1, 9)), NO_MEALS, atlas, plan, 0)
    ensures !NeverPenalised(Wishing(AvoidLaws.Words(1, 9)), atlas)
  {
    var members := Wishing(AvoidLaws.Words(1, 9));
    NearEvades(atlas, t);
    assert Ids([NEAR]) == ["place"];
    hide *;
    var m;
    plan, m := EvadingPenalises([NEAR], members, AvoidLaws.Words(1, 9)[8], atlas);
    OnlyMember([NEAR], members, atlas, plan, m);
    ChargedSometimes([NEAR], members, atlas, plan);
  }

  lemma ChargedSometimes(cs: seq<Candidate>, members: seq<Member>, atlas: Atlas, plan: Plan)
    requires Penalises(cs, Ids(cs), members, NO_MEALS, atlas, plan, 0)
    ensures !NeverPenalised(members, atlas)
  {
    hide Penalises;
  }

  lemma OnlyMember(cs: seq<Candidate>, members: seq<Member>, atlas: Atlas, plan: Plan, m: nat)
    requires Penalises(cs, Ids(cs), members, NO_MEALS, atlas, plan, m) && |members| == 1
    ensures m == 0
  {
  }

  /** A place that does not serve the word of one letter serves a longer word only by its id or its name. */
  lemma ServesByText(atlas: Atlas, t: Texts, c: Candidate, k: nat)
    requires AsWritten(atlas, t) && 2 <= k
    requires !atlas.matches(c, Label(Repeated('z', 1), Repeated('z', 1)))
    requires atlas.matches(c, Label(Repeated('z', k), Repeated('z', k)))
    ensures Repeated('z', k) == t.norm(c.name) || Repeated('z', k) == t.norm(c.placeId)
  {
    var name, id, short, long := t.norm(c.name), t.norm(c.placeId), Repeated('z', 1), Repeated('z', k);
    assert Plain(short) && Plain(long);
    assert t.norm(short) == short && t.norm(long) == long && !t.diningLabel(long);
    OneLetter(name, 'z', k);
  }

  function TextsOf(cs: seq<Candidate>, t: Texts): set<string> {
    if cs == [] then {} else TextsOf(cs[1..], t) + {t.norm(cs[0].name), t.norm(cs[0].placeId)}
  }

  lemma {:induction false} TextsCount(cs: seq<Candidate>, t: Texts)
    ensures |TextsOf(cs, t)| <= 2 * |cs|
    ensures forall i :: 0 <= i < |cs| ==> t.norm(cs[i].name) in TextsOf(cs, t) && t.norm(cs[i].placeId) in TextsOf(cs, t)
  {
    if cs != [] {
      TextsCount(cs[1..], t);
      UnionCount(TextsOf(cs[1..], t), t.norm(cs[0].name), t.norm(cs[0].placeId));
      assert forall i :: 1 <= i < |cs| ==> cs[i] == cs[1..][i - 1];
    }
  }

  lemma UnionCount(texts: set<string>, a: string, b: string)
    ensures |texts + {a, b}| <= |texts| + 2
  {
    assert texts + {a, b} == texts + {a} + {b};
  }

  function WordSet(from: nat, count: nat): set<string> {
    if count == 0 then {} else WordSet(from, count - 1) + {Repeated('z', from + count - 1)}
  }

  lemma {:induction false} WordSetCount(from: nat, count: nat)
    ensures |WordSet(from, count)| == count
    ensures forall s :: s in WordSet(from, count) ==> from <= |s| < from + count && s == Repeated('z', |s|)
  {
    if count > 0 {
      WordSetCount(from, count - 1);
    }
  }

  /** Nine words with the one of one letter last: three places have six texts, too few to serve the other eight words
      without it, so nobody is ever charged. The number of labels alone does not decide. */
  lemma NineLabelsHold(atlas: Atlas, t: Texts)
    requires AsWritten(atlas, t)
    ensures NeverPenalised(Wishing(AvoidLaws.Words(2, 8) + AvoidLaws.Words(1, 1)), atlas)
  {
    var labels := AvoidLaws.Words(2, 8) + AvoidLaws.Words(1, 1);
    var members := Wishing(labels);
    AvoidLaws.WordsApart(2, 8, t);
    AvoidLaws.WordsApart(1, 1, t);
    assert forall i :: 0 <= i < 9 ==> |labels[i].folded| == if i < 8 then 2 + i else 1;
    WishingLabels(labels);
    assert labels[..8] == AvoidLaws.Words(2, 8);
    assert forall i :: 0 <= i < 8 ==> RequiredLabels(members)[i] == labels[i];
    hide AsWritten, RequiredLabels, NeverPenalised;
    forall wish, cs | Wished(members, wish)
      ensures !Evades(cs, members, wish, atlas)
    {
      if Evades(cs, members, wish, atlas) {
        var i :| 0 <= i < 9 && labels[i] == wish;
        if i == 8 {
          TooFewTexts(cs, members, wish, atlas, t);
        }
      }
    }
    NeverPenalisedIff(members, atlas);
  }

  lemma TooFewTexts(cs: seq<Candidate>, members: seq<Member>, wish: Label, atlas: Atlas, t: Texts)
    requires AsWritten(atlas, t) && RequiredLabels(members) == AvoidLaws.Words(2, 8)
    requires wish == Label(Repeated('z', 1), Repeated('z', 1))
    ensures !Evades(cs, members, wish, atlas)
  {
    hide AsWritten, RequiredLabels, TextsOf, WordSet;
    if Evades(cs, members, wish, atlas) {
      WordSetCount(2, 8);
      TextsCount(cs, t);
      forall s | s in WordSet(2, 8)
        ensures s in TextsOf(cs, t)
      {
        assert s == Repeated('z', |s|) && RequiredLabels(members)[|s| - 2] == Label(s, s);
        ServedWordIsText(cs, wish, atlas, t, |s|);
      }
      SubsetCount(WordSet(2, 8), TextsOf(cs, t));
    }
  }

  lemma ServedWordIsText(cs: seq<Candidate>, wish: Label, atlas: Atlas, t: Texts, k: nat)
    requires AsWritten(atlas, t) && 2 <= k && wish == Label(Repeated('z', 1), Repeated('z', 1)) && !Serves(cs, wish, atlas)
    requires Serves(cs, Label(Repeated('z', k), Repeated('z', k)), atlas)
    ensures Repeated('z', k) in TextsOf(cs, t)
  {
    hide AsWritten, TextsOf;
    var j :| 0 <= j < |cs| && atlas.matches(cs[j], Label(Repeated('z', k), Repeated('z', k)));
    ServesByText(atlas, t, cs[j], k);
    TextsCount(cs, t);
  }

  /** Such a matching exists: on texts that are already normalised, without restaurants. */
  ghost function LetterAtlas(): Atlas {
    Atlas(c => false, (c: Candidate, l: Label) => Satisfies(c.name, c.placeId, false, l.text, false),
          (cs, l) => false, map[], (p, q) => 0)
  }

  lemma LetterAtlasAsWritten()
    ensures AsWritten(LetterAtlas(), AvoidLaws.LETTERS)
  {
    hide Satisfies;
  }
}
