/** `pre_filter_provider_places` of app/application/recommendation_service.py: hard constraints on provider places and
    the reservation of at most eight of them. */
module Prefilter {
  import opened Prelude
  import opened Combinatorics
  import Recommendation

  type Label = Recommendation.Label
  type Meals = Recommendation.Meals

  datatype Source = Online | VerifiedCache | Untrusted

  datatype Place = Place(placeId: string, name: string, category: Option<string>, cityCode: string, source: Source, price: Option<nat>)

  datatype Person = Person(budgetCap: nat, interests: seq<Label>, mustVisit: seq<Label>, avoid: seq<Label>)

  datatype Trip = Trip(cityCode: string, totalBudget: nat, people: seq<Person>, meals: Meals)

  /** The text and geometry helpers. `matches` is the loose label match, `satisfies` the one that keeps restaurants from
      standing in for attractions, `named` an exact name or id. */
  datatype Rules = Rules(
    dining: Place -> bool,
    lodging: Place -> bool,
    nonVisit: Place -> bool,
    matches: (Place, Label) -> bool,
    satisfies: (Place, Label) -> bool,
    named: (Place, Label) -> bool,
    closeness: (Place, Label) -> (nat, nat),
    foldedName: Place -> string,
    foldedId: Place -> string,
    interest: (Place, seq<Label>) -> nat,
    distance: (Place, Place) -> nat)

  datatype Failure = TooManyMustVisit | LodgingNotAllowed | MustVisitMissing | InsufficientDining | InsufficientPlaces

  const REQUIRED_LIMIT := 9
  const AVOIDED_LIMIT := 24
  const MOST_RESERVED := 8
  const LEAST_RESERVED := 6
  const VISITS := 3
  const NO_PRICE := 1_000_000_000_000
  const NO_ANCHOR := 1_000_000_000

  // ---- The trip's wishes -------------------------------------------------------------------

  function MustVisits(people: seq<Person>): seq<Label> {
    if people == [] then [] else people[0].mustVisit + MustVisits(people[1..])
  }

  function Avoids(people: seq<Person>): seq<Label> {
    if people == [] then [] else people[0].avoid + Avoids(people[1..])
  }

  function InterestsOf(people: seq<Person>): seq<Label> {
    if people == [] then [] else people[0].interests + InterestsOf(people[1..])
  }

  function Required(trip: Trip): seq<Label> {
    Recommendation.StableUnique(MustVisits(trip.people), REQUIRED_LIMIT)
  }

  function Avoided(trip: Trip): seq<Label> {
    Recommendation.StableUnique(Avoids(trip.people), AVOIDED_LIMIT)
  }

  function LowestCap(limit: nat, people: seq<Person>): (m: nat)
    ensures m <= limit && forall i :: 0 <= i < |people| ==> m <= people[i].budgetCap
  {
    if people == [] then limit
    else
      var rest := LowestCap(limit, people[1..]);
      assert forall i :: 1 <= i < |people| ==> people[i] == people[1..][i - 1];
      if people[0].budgetCap <= rest then people[0].budgetCap else rest
  }

  // ---- The filter --------------------------------------------------------------------------

  predicate MatchesAny(p: Place, labels: seq<Label>, test: (Place, Label) -> bool) {
    exists i :: 0 <= i < |labels| && test(p, labels[i])
  }

  /** The constraints a provider place is tested against, in order. */
  predicate Acceptable(p: Place, trip: Trip, rules: Rules) {
    var named := MatchesAny(p, Required(trip), rules.named);
    && p.cityCode == trip.cityCode
    && p.source != Untrusted
    && !MatchesAny(p, Avoided(trip), rules.matches)
    && !rules.lodging(p)
    && (!trip.meals.Any() && rules.dining(p) ==> named)
    && (named || !rules.nonVisit(p))
    && (p.price.Some? ==> p.price.value <= LowestCap(trip.totalBudget, trip.people))
  }

  predicate Known(places: seq<Place>, id: string) {
    exists i :: 0 <= i < |places| && places[i].placeId == id
  }

  /** The first acceptable place of every id among the first n. */
  function Filtered(places: seq<Place>, n: nat, trip: Trip, rules: Rules): seq<Place>
    requires n <= |places|
  {
    if n == 0 then []
    else
      var kept := Filtered(places, n - 1, trip, rules);
      if Known(kept, places[n - 1].placeId) || !Acceptable(places[n - 1], trip, rules) then kept else kept + [places[n - 1]]
  }

  predicate DistinctPlaces(ps: seq<Place>) {
    forall i, j :: 0 <= i < j < |ps| ==> ps[i].placeId != ps[j].placeId
  }

  lemma {:induction false} FilteredPlaces(places: seq<Place>, n: nat, trip: Trip, rules: Rules)
    requires n <= |places|
    ensures var kept := Filtered(places, n, trip, rules);
      DistinctPlaces(kept) && forall p :: p in kept ==> p in places && Acceptable(p, trip, rules)
  {
    if n > 0 {
      FilteredPlaces(places, n - 1, trip, rules);
    }
  }

  method FilterPlaces(places: seq<Place>, trip: Trip, rules: Rules) returns (kept: seq<Place>)
    ensures kept == Filtered(places, |places|, trip, rules)
  {
    kept := [];
    var i := 0;
    while i < |places|
      invariant 0 <= i <= |places|
      invariant kept == Filtered(places, i, trip, rules)
    {
      if !Known(kept, places[i].placeId) && Acceptable(places[i], trip, rules) {
        kept := kept + [places[i]];
      }
      i := i + 1;
    }
  }

  predicate Satisfied(places: seq<Place>, wish: Label, rules: Rules) {
    exists i :: 0 <= i < |places| && rules.satisfies(places[i], wish)
  }

  /** A required label nothing satisfies that a lodging place would match. */
  predicate WantsLodging(places: seq<Place>, kept: seq<Place>, labels: seq<Label>, rules: Rules) {
    exists i, j :: 0 <= i < |labels| && 0 <= j < |places|
      && !Satisfied(kept, labels[i], rules) && rules.matches(places[j], labels[i]) && rules.lodging(places[j])
  }

  predicate AllSatisfied(kept: seq<Place>, labels: seq<Label>, rules: Rules) {
    forall i :: 0 <= i < |labels| ==> Satisfied(kept, labels[i], rules)
  }

  // ---- Order -------------------------------------------------------------------------------

  predicate PairLess(a: (nat, nat), b: (nat, nat)) {
    a.0 < b.0 || (a.0 == b.0 && a.1 < b.1)
  }

  /** The best closeness over the labels the place satisfies. */
  function BestCloseness(p: Place, labels: seq<Label>, rules: Rules): (nat, nat) {
    if labels == [] then (3, 1_000_000)
    else
      var rest := BestCloseness(p, labels[1..], rules);
      if !rules.satisfies(p, labels[0]) then rest
      else if MatchesAny(p, labels[1..], rules.satisfies) && !PairLess(rules.closeness(p, labels[0]), rest) then rest
      else rules.closeness(p, labels[0])
  }

  function SortKey(p: Place, trip: Trip, rules: Rules): Key {
    var labels := Required(trip);
    var rank := BestCloseness(p, labels, rules);
    Key(
      [if MatchesAny(p, labels, rules.satisfies) then 0 else 1,
       rank.0 * 1000 + rank.1,
       0 - rules.interest(p, InterestsOf(trip.people)),
       if p.source == Online then 0 else 1,
       if p.price.Some? then p.price.value else NO_PRICE],
      [p.placeId])
  }

  function MatchKey(p: Place, wish: Label, rules: Rules): Key {
    Key([rules.closeness(p, wish).0, rules.closeness(p, wish).1], [rules.foldedName(p), rules.foldedId(p)])
  }

  /** Stable insertion of one element behind all elements whose key is not larger. */
  function Insert(p: Place, sorted: seq<Place>, key: Place -> Key): seq<Place> {
    if sorted == [] then [p]
    else if KeyLess(key(p), key(sorted[|sorted| - 1]))
    then Insert(p, sorted[..|sorted| - 1], key) + [sorted[|sorted| - 1]]
    else sorted + [p]
  }

  /** `sorted(ps, key=key)`. */
  function SortBy(ps: seq<Place>, key: Place -> Key): seq<Place> {
    if ps == [] then [] else Insert(ps[|ps| - 1], SortBy(ps[..|ps| - 1], key), key)
  }

  lemma {:induction false} InsertBag(p: Place, sorted: seq<Place>, key: Place -> Key)
    ensures multiset(Insert(p, sorted, key)) == multiset(sorted) + multiset{p}
  {
    if sorted != [] {
      var front, last := sorted[..|sorted| - 1], sorted[|sorted| - 1];
      assert sorted == front + [last];
      InsertBag(p, front, key);
    }
  }

  lemma {:induction false} SortBag(ps: seq<Place>, key: Place -> Key)
    ensures multiset(SortBy(ps, key)) == multiset(ps)
  {
    if ps != [] {
      var front, last := ps[..|ps| - 1], ps[|ps| - 1];
      assert ps == front + [last];
      SortBag(front, key);
      InsertBag(last, SortBy(front, key), key);
    }
  }

  ghost predicate Ascending(ps: seq<Place>, key: Place -> Key) {
    forall i, j :: 0 <= i < j < |ps| ==> !KeyLess(key(ps[j]), key(ps[i]))
  }

  lemma {:induction false} InsertAscends(p: Place, sorted: seq<Place>, key: Place -> Key)
    requires Ascending(sorted, key)
    ensures Ascending(Insert(p, sorted, key), key)
  {
    if sorted != [] {
      var front, last := sorted[..|sorted| - 1], sorted[|sorted| - 1];
      InsertAscends(p, front, key);
      InsertBag(p, front, key);
      var deep := Insert(p, front, key);
      if KeyLess(key(p), key(last)) {
        forall i | 0 <= i < |deep|
          ensures !KeyLess(key(last), key(deep[i]))
        {
          assert deep[i] in multiset(deep);
          if deep[i] == p {
            KeyAsymmetric(key(p), key(last));
          } else {
            assert deep[i] in front;
          }
        }
      } else {
        forall i | 0 <= i < |sorted|
          ensures !KeyLess(key(p), key(sorted[i]))
        {
          if i < |front| && KeyLess(key(p), key(sorted[i])) {
            KeyBelow(key(p), key(sorted[i]), key(last));
          }
        }
      }
    }
  }

  lemma {:induction false} SortAscends(ps: seq<Place>, key: Place -> Key)
    ensures Ascending(SortBy(ps, key), key)
  {
    if ps != [] {
      SortAscends(ps[..|ps| - 1], key);
      InsertAscends(ps[|ps| - 1], SortBy(ps[..|ps| - 1], key), key);
    }
  }

  function Ordered(kept: seq<Place>, trip: Trip, rules: Rules): seq<Place> {
    SortBy(kept, p => SortKey(p, trip, rules))
  }

  function Select(ps: seq<Place>, test: Place -> bool, wanted: bool): seq<Place> {
    if ps == [] then [] else (if test(ps[0]) == wanted then [ps[0]] else []) + Select(ps[1..], test, wanted)
  }

  function Take(ps: seq<Place>, n: nat): seq<Place> {
    if n <= |ps| then ps[..n] else ps
  }

  /** The visits the restaurants should be close to. */
  function Anchors(visits: seq<Place>, trip: Trip, rules: Rules): seq<Place> {
    var wanted := Select(visits, p => MatchesAny(p, Required(trip), rules.satisfies), true);
    if wanted != [] then wanted else Take(visits, VISITS)
  }

  function Nearest(p: Place, anchors: seq<Place>, rules: Rules): nat {
    if anchors == [] then NO_ANCHOR
    else if |anchors| == 1 then rules.distance(p, anchors[0])
    else
      var rest := Nearest(p, anchors[1..], rules);
      if rules.distance(p, anchors[0]) <= rest then rules.distance(p, anchors[0]) else rest
  }

  function DiningKey(p: Place, anchors: seq<Place>, trip: Trip, rules: Rules): Key {
    Key([Nearest(p, anchors, rules)] + SortKey(p, trip, rules).numbers, SortKey(p, trip, rules).texts)
  }

  function Visits(kept: seq<Place>, trip: Trip, rules: Rules): seq<Place> {
    Select(Ordered(kept, trip, rules), rules.dining, false)
  }

  function Restaurants(kept: seq<Place>, trip: Trip, rules: Rules): seq<Place> {
    var anchors := Anchors(Visits(kept, trip, rules), trip, rules);
    SortBy(Select(Ordered(kept, trip, rules), rules.dining, true), p => DiningKey(p, anchors, trip, rules))
  }

  // ---- Reservation -------------------------------------------------------------------------

  /** `reserve`: once per place, and never more than eight. */
  function Reserve(selected: seq<Place>, p: Place): seq<Place> {
    if Known(selected, p.placeId) || |selected| >= MOST_RESERVED then selected else selected + [p]
  }

  function ReserveAll(selected: seq<Place>, ps: seq<Place>): seq<Place>
    decreases |ps|
  {
    if ps == [] then selected else ReserveAll(Reserve(selected, ps[0]), ps[1..])
  }

  /** The closest satisfying place, the first of several. */
  function Closest(ps: seq<Place>, wish: Label, rules: Rules): (m: Option<Place>)
    ensures m.Some? ==> m.value in ps && rules.satisfies(m.value, wish)
    ensures m.None? ==> !Satisfied(ps, wish, rules)
  {
    if ps == [] then None
    else
      var front, last := ps[..|ps| - 1], ps[|ps| - 1];
      var before := Closest(front, wish, rules);
      assert !Satisfied(front, wish, rules) && !rules.satisfies(last, wish) ==> !Satisfied(ps, wish, rules) by {
        assert ps == front + [last];
      }
      if !rules.satisfies(last, wish) then before
      else if before.None? || KeyLess(MatchKey(last, wish, rules), MatchKey(before.value, wish, rules)) then Some(last)
      else before
  }

  /** The places reserved for the first n required labels. */
  function ForLabels(ordered: seq<Place>, labels: seq<Label>, n: nat, rules: Rules): seq<Place>
    requires n <= |labels|
  {
    if n == 0 then []
    else
      var before := ForLabels(ordered, labels, n - 1, rules);
      var m := Closest(ordered, labels[n - 1], rules);
      if m.None? then before else Reserve(before, m.value)
  }

  function Reserved(kept: seq<Place>, trip: Trip, rules: Rules): seq<Place> {
    var ordered := Ordered(kept, trip, rules);
    var labels := Required(trip);
    var named := ForLabels(ordered, labels, |labels|, rules);
    var withMeals := ReserveAll(named, Take(Restaurants(kept, trip, rules), trip.meals.Count()));
    var withVisits := ReserveAll(withMeals, Take(Visits(kept, trip, rules), VISITS));
    ReserveAll(withVisits, ordered)
  }

  /** What the filter answers, case by case. */
  ghost predicate Answers(places: seq<Place>, trip: Trip, rules: Rules, r: Result<seq<Place>, Failure>) {
    var labels := Required(trip);
    var kept := Filtered(places, |places|, trip, rules);
    if |labels| > 3 then r == Err(TooManyMustVisit)
    else if !AllSatisfied(kept, labels, rules) then
      r == Err(if exists i, j :: 0 <= i < |labels| && 0 <= j < |places| && !Satisfied(kept, labels[i], rules)
                                 && rules.matches(places[j], labels[i]) && rules.lodging(places[j])
               then LodgingNotAllowed else MustVisitMissing)
    else if |Restaurants(kept, trip, rules)| < trip.meals.Count() then r == Err(InsufficientDining)
    else if |Visits(kept, trip, rules)| < VISITS then r == Err(InsufficientPlaces)
    else if |Reserved(kept, trip, rules)| < LEAST_RESERVED then r == Err(InsufficientPlaces)
    else r == Ok(Reserved(kept, trip, rules))
  }

  method ReserveEach(selected: seq<Place>, ps: seq<Place>) returns (r: seq<Place>)
    ensures r == ReserveAll(selected, ps)
  {
    r := selected;
    var i := 0;
    while i < |ps|
      invariant 0 <= i <= |ps|
      invariant ReserveAll(r, ps[i..]) == ReserveAll(selected, ps)
    {
      assert ps[i..][1..] == ps[i + 1..];
      if !Known(r, ps[i].placeId) && |r| < MOST_RESERVED {
        r := r + [ps[i]];
      }
      i := i + 1;
    }
  }

  method ReserveLabels(ordered: seq<Place>, labels: seq<Label>, rules: Rules) returns (r: seq<Place>)
    ensures r == ForLabels(ordered, labels, |labels|, rules)
  {
    r := [];
    var i := 0;
    while i < |labels|
      invariant 0 <= i <= |labels|
      invariant r == ForLabels(ordered, labels, i, rules)
    {
      var m := Closest(ordered, labels[i], rules);
      if m.Some? && !Known(r, m.value.placeId) && |r| < MOST_RESERVED {
        r := r + [m.value];
      }
      i := i + 1;
    }
  }

  /** `pre_filter_provider_places`. */
  method PreFilter(places: seq<Place>, trip: Trip, rules: Rules) returns (r: Result<seq<Place>, Failure>)
    ensures Answers(places, trip, rules, r)
  {
    hide Acceptable, SortKey, ForLabels, ReserveAll, SortBy, Select, Anchors;
    var labels := Recommendation.StableUniqueText(MustVisits(trip.people), REQUIRED_LIMIT);
    if |labels| > 3 {
      return Err(TooManyMustVisit);
    }
    var kept := FilterPlaces(places, trip, rules);
    if !AllSatisfied(kept, labels, rules) {
      return Err(if WantsLodging(places, kept, labels, rules) then LodgingNotAllowed else MustVisitMissing);
    }
    var ordered := Ordered(kept, trip, rules);
    var visits := Visits(kept, trip, rules);
    var restaurants := Restaurants(kept, trip, rules);
    if |restaurants| < trip.meals.Count() {
      return Err(InsufficientDining);
    }
    if |visits| < VISITS {
      return Err(InsufficientPlaces);
    }
    var selected := ReserveLabels(ordered, labels, rules);
    selected := ReserveEach(selected, Take(restaurants, trip.meals.Count()));
    selected := ReserveEach(selected, Take(visits, VISITS));
    selected := ReserveEach(selected, ordered);
    if |selected| < LEAST_RESERVED {
      return Err(InsufficientPlaces);
    }
    return Ok(selected);
  }
}
