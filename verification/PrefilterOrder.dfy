/** Which places the pre-filter prefers, said about the places themselves: closest matches for the labels, nearest
    restaurants, and the rest by interests, source, price and id. */
module PrefilterOrder {
  import opened Prelude
  import opened Combinatorics
  import opened Prefilter
  import opened PrefilterLaws
  import Lex = Lexicographic

  // ---- The order, written out ----------------------------------------------------------------

  predicate Wanted(p: Place, trip: Trip, rules: Rules) {
    exists i :: 0 <= i < |Required(trip)| && rules.satisfies(p, Required(trip)[i])
  }

  /** The unknown price counts as more than every price. */
  predicate Cheaper(a: Option<nat>, b: Option<nat>) {
    (if a.Some? then a.value else 1_000_000_000_000) < (if b.Some? then b.value else 1_000_000_000_000)
  }

  predicate SamePrice(a: Option<nat>, b: Option<nat>) {
    !Cheaper(a, b) && !Cheaper(b, a)
  }

  /** Among places of the same closeness to the labels: more interests, then online, then cheaper, then the smaller id. */
  predicate BetterVisit(x: Place, y: Place, trip: Trip, rules: Rules) {
    var ix, iy := rules.interest(x, InterestsOf(trip.people)), rules.interest(y, InterestsOf(trip.people));
    || ix > iy
    || (ix == iy && x.source == Online && y.source != Online)
    || (ix == iy && (x.source == Online <==> y.source == Online) && Cheaper(x.price, y.price))
    || (ix == iy && (x.source == Online <==> y.source == Online) && SamePrice(x.price, y.price) && Lex.Less(x.placeId, y.placeId))
  }

  /** How close a place comes to the label it satisfies best, as one number; the same for all places that satisfy none. */
  function Rank(p: Place, trip: Trip, rules: Rules): nat {
    var best := BestCloseness(p, Required(trip), rules);
    best.0 * 1000 + best.1
  }

  /** The order of the pre-filter: places for labels first, the closest of them first, then the better visit. */
  predicate Before(x: Place, y: Place, trip: Trip, rules: Rules) {
    || (Wanted(x, trip, rules) && !Wanted(y, trip, rules))
    || ((Wanted(x, trip, rules) <==> Wanted(y, trip, rules)) &&
          (|| Rank(x, trip, rules) < Rank(y, trip, rules)
           || (Rank(x, trip, rules) == Rank(y, trip, rules) && BetterVisit(x, y, trip, rules))))
  }

  lemma FiveNumbers(a: seq<int>, b: seq<int>)
    requires |a| == 5 && |b| == 5
    ensures NumbersLess(a, b) <==>
      || a[0] < b[0]
      || (a[0] == b[0] && a[1] < b[1])
      || (a[0] == b[0] && a[1] == b[1] && a[2] < b[2])
      || (a[0] == b[0] && a[1] == b[1] && a[2] == b[2] && a[3] < b[3])
      || (a[0] == b[0] && a[1] == b[1] && a[2] == b[2] && a[3] == b[3] && a[4] < b[4])
  {
    assert a[1..][1..] == a[2..] && b[1..][1..] == b[2..];
    assert a[2..][1..] == a[3..] && b[2..][1..] == b[3..];
    assert a[3..][1..] == a[4..] && b[3..][1..] == b[4..];
    assert a[4..][1..] == [] && b[4..][1..] == [];
    assert NumbersLess(a[4..], b[4..]) <==> a[4] < b[4];
    assert NumbersLess(a[3..], b[3..]) <==> a[3] < b[3] || (a[3] == b[3] && NumbersLess(a[4..], b[4..]));
    assert NumbersLess(a[2..], b[2..]) <==> a[2] < b[2] || (a[2] == b[2] && NumbersLess(a[3..], b[3..]));
    assert NumbersLess(a[1..], b[1..]) <==> a[1] < b[1] || (a[1] == b[1] && NumbersLess(a[2..], b[2..]));
  }

  lemma KeyMeans(x: Place, y: Place, trip: Trip, rules: Rules)
    ensures KeyLess(SortKey(x, trip, rules), SortKey(y, trip, rules)) <==> Before(x, y, trip, rules)
  {
    hide BestCloseness, Required, InterestsOf, NumbersLess, TextsLess, Lex.Less;
    var a, b := SortKey(x, trip, rules), SortKey(y, trip, rules);
    FiveNumbers(a.numbers, b.numbers);
    OneText(x.placeId, y.placeId);
    assert MatchesAny(x, Required(trip), rules.satisfies) <==> Wanted(x, trip, rules);
    assert MatchesAny(y, Required(trip), rules.satisfies) <==> Wanted(y, trip, rules);
    assert a.numbers == b.numbers <==> forall i :: 0 <= i < 5 ==> a.numbers[i] == b.numbers[i];
  }

  /** Pairs compare by the first number, then by the second. */
  predicate NoFarther(a: (nat, nat), b: (nat, nat)) {
    a.0 < b.0 || (a.0 == b.0 && a.1 <= b.1)
  }

  /** The closeness of a place is that of the label it satisfies best. */
  lemma {:induction false} BestClosenessIs(p: Place, labels: seq<Label>, rules: Rules) returns (best: nat)
    ensures var c := BestCloseness(p, labels, rules);
      if forall i :: 0 <= i < |labels| ==> !rules.satisfies(p, labels[i]) then c == (3, 1_000_000)
      else
        && best < |labels| && rules.satisfies(p, labels[best]) && c == rules.closeness(p, labels[best])
        && forall i :: 0 <= i < |labels| && rules.satisfies(p, labels[i]) ==> NoFarther(c, rules.closeness(p, labels[i]))
  {
    best := 0;
    if labels != [] {
      var k := BestClosenessIs(p, labels[1..], rules);
      assert forall i :: 1 <= i < |labels| ==> labels[i] == labels[1..][i - 1];
      assert MatchesAny(p, labels[1..], rules.satisfies) <==> exists i :: 1 <= i < |labels| && rules.satisfies(p, labels[i]);
      if !rules.satisfies(p, labels[0]) ||
         (MatchesAny(p, labels[1..], rules.satisfies) && !PairLess(rules.closeness(p, labels[0]), BestCloseness(p, labels[1..], rules))) {
        best := k + 1;
      }
    }
  }

  // ---- Reservation by turns --------------------------------------------------------------------

  lemma FirstIsKnown(selected: seq<Place>, ps: seq<Place>)
    requires ps != []
    ensures Known(ReserveAll(selected, ps), ps[0].placeId) || |selected| >= MOST_RESERVED
  {
    var s := Reserve(selected, ps[0]);
    TurnGrows(s, ps[1..]);
    if |selected| < MOST_RESERVED {
      if !Known(selected, ps[0].placeId) {
        assert s[|selected|] == ps[0];
      }
      KnownGrows(s, ReserveAll(selected, ps), ps[0].placeId);
    }
  }

  /** A place of the turn is left out only if eight are reserved, none of them later in the turn. */
  lemma {:induction false} TurnInOrder(selected: seq<Place>, ps: seq<Place>, i: nat, y: Place)
    requires i < |ps| && !Known(ReserveAll(selected, ps), ps[i].placeId) && y in ReserveAll(selected, ps)
    ensures |ReserveAll(selected, ps)| >= MOST_RESERVED && (y in selected || y in ps[..i])
    decreases |ps|
  {
    var s := Reserve(selected, ps[0]);
    if i == 0 {
      FirstIsKnown(selected, ps);
      FullStays(s, ps[1..]);
    } else {
      TurnInOrder(s, ps[1..], i - 1, y);
      assert ps[..i] == [ps[0]] + ps[1..][..i - 1];
    }
  }

  lemma {:induction false} TurnGrows(selected: seq<Place>, ps: seq<Place>)
    ensures selected <= ReserveAll(selected, ps)
    decreases |ps|
  {
    if ps != [] {
      TurnGrows(Reserve(selected, ps[0]), ps[1..]);
    }
  }

  lemma {:induction false} FullStays(selected: seq<Place>, ps: seq<Place>)
    requires |selected| >= MOST_RESERVED
    ensures ReserveAll(selected, ps) == selected
    decreases |ps|
  {
    if ps != [] {
      FullStays(selected, ps[1..]);
    }
  }

  lemma {:induction false} TurnMembers(selected: seq<Place>, ps: seq<Place>, y: Place)
    requires y in ReserveAll(selected, ps)
    ensures y in selected || y in ps
    decreases |ps|
  {
    if ps != [] {
      TurnMembers(Reserve(selected, ps[0]), ps[1..], y);
    }
  }

  /** The closest match is no farther from the label than any other satisfying place. */
  lemma {:induction false} ClosestIsLeast(ps: seq<Place>, wish: Label, rules: Rules, x: Place)
    requires x in ps && rules.satisfies(x, wish)
    ensures Closest(ps, wish, rules).Some?
    ensures !KeyLess(MatchKey(x, wish, rules), MatchKey(Closest(ps, wish, rules).value, wish, rules))
  {
    hide KeyLess, MatchKey;
    var front, last := ps[..|ps| - 1], ps[|ps| - 1];
    assert ps == front + [last];
    var before, key := Closest(front, wish, rules), MatchKey(x, wish, rules);
    if x in front {
      ClosestIsLeast(front, wish, rules, x);
      if KeyLess(MatchKey(last, wish, rules), MatchKey(before.value, wish, rules)) && KeyLess(key, MatchKey(last, wish, rules)) {
        KeyTransitive(key, MatchKey(last, wish, rules), MatchKey(before.value, wish, rules));
      }
    }
    KeyIrreflexive(key);
  }

  lemma MatchMeans(x: Place, y: Place, wish: Label, rules: Rules)
    requires !KeyLess(MatchKey(x, wish, rules), MatchKey(y, wish, rules))
    ensures NoFarther(rules.closeness(y, wish), rules.closeness(x, wish))
  {
    var a, b := MatchKey(x, wish, rules).numbers, MatchKey(y, wish, rules).numbers;
    assert NumbersLess(a[1..], b[1..]) <==> a[1] < b[1] by {
      assert a[1..][1..] == [] && b[1..][1..] == [];
    }
  }

  lemma {:induction false} LabelTurn(ordered: seq<Place>, labels: seq<Label>, n: nat, rules: Rules, y: Place)
    requires n <= |labels| && y in ForLabels(ordered, labels, n, rules)
    ensures exists i :: 0 <= i < n && Closest(ordered, labels[i], rules) == Some(y)
  {
    if n > 0 && y in ForLabels(ordered, labels, n - 1, rules) {
      LabelTurn(ordered, labels, n - 1, rules, y);
    }
  }

  // ---- Restaurants -------------------------------------------------------------------------------

  lemma {:induction false} NearestIs(p: Place, anchors: seq<Place>, rules: Rules) returns (at: nat)
    ensures forall k :: 0 <= k < |anchors| ==> Nearest(p, anchors, rules) <= rules.distance(p, anchors[k])
    ensures if anchors == [] then Nearest(p, anchors, rules) == 1_000_000_000
            else at < |anchors| && Nearest(p, anchors, rules) == rules.distance(p, anchors[at])
  {
    at := 0;
    if |anchors| > 1 {
      var k := NearestIs(p, anchors[1..], rules);
      assert forall j :: 1 <= j < |anchors| ==> anchors[j] == anchors[1..][j - 1];
      if Nearest(p, anchors, rules) != rules.distance(p, anchors[0]) {
        at := k + 1;
      }
    }
  }

  /** Nearer to its nearest anchor, or as near and before in the order. */
  predicate BetterMeal(x: Place, y: Place, anchors: seq<Place>, trip: Trip, rules: Rules) {
    || Nearest(x, anchors, rules) < Nearest(y, anchors, rules)
    || (Nearest(x, anchors, rules) == Nearest(y, anchors, rules) && Before(x, y, trip, rules))
  }

  lemma DiningMeans(x: Place, y: Place, anchors: seq<Place>, trip: Trip, rules: Rules)
    ensures KeyLess(DiningKey(x, anchors, trip, rules), DiningKey(y, anchors, trip, rules)) <==>
            BetterMeal(x, y, anchors, trip, rules)
  {
    hide SortKey, Nearest, Before, NumbersLess, TextsLess;
    KeyMeans(x, y, trip, rules);
    var a, b := DiningKey(x, anchors, trip, rules), DiningKey(y, anchors, trip, rules);
    HeadFirst(Nearest(x, anchors, rules), Nearest(y, anchors, rules), SortKey(x, trip, rules).numbers, SortKey(y, trip, rules).numbers);
  }

  lemma HeadFirst(i: int, j: int, a: seq<int>, b: seq<int>)
    ensures NumbersLess([i] + a, [j] + b) <==> i < j || (i == j && NumbersLess(a, b))
    ensures [i] + a == [j] + b <==> i == j && a == b
  {
    assert ([i] + a)[1..] == a && ([j] + b)[1..] == b;
    assert ([i] + a)[0] == i && ([j] + b)[0] == j;
  }

  /** The restaurants are measured from the visits that satisfy a label; without such visits from the first three. */
  lemma AnchorsAre(kept: seq<Place>, trip: Trip, rules: Rules, p: Place)
    ensures var anchors := Anchors(Visits(kept, trip, rules), trip, rules);
      if exists q :: q in kept && !rules.dining(q) && Wanted(q, trip, rules)
      then p in anchors <==> p in kept && !rules.dining(p) && Wanted(p, trip, rules)
      else anchors == Take(Visits(kept, trip, rules), VISITS)
  {
    hide Visits, Required;
    var visits := Visits(kept, trip, rules);
    var test := (q: Place) => MatchesAny(q, Required(trip), rules.satisfies);
    var wanted := Select(visits, test, true);
    forall q
      ensures q in wanted <==> q in kept && !rules.dining(q) && Wanted(q, trip, rules)
    {
      SelectMembers(visits, test, true, q);
      OrderedMembers(kept, trip, rules, q);
    }
    assert Anchors(visits, trip, rules) == if wanted != [] then wanted else Take(visits, VISITS);
    if wanted != [] {
      assert wanted[0] in wanted;
    }
  }

  // ---- What is reserved ----------------------------------------------------------------------------

  lemma TopIsBest(ps: seq<Place>, n: nat, key: Place -> Key, x: Place, y: Place)
    requires Ascending(ps, key) && x in ps && x !in Take(ps, n) && y in Take(ps, n)
    ensures !KeyLess(key(x), key(y))
  {
    var i :| 0 <= i < |ps| && ps[i] == x;
    var top := Take(ps, n);
    var j :| 0 <= j < |top| && top[j] == y;
    assert forall k :: 0 <= k < |top| ==> ps[k] == top[k] && top[k] in top;
  }

  lemma {:induction false} SelectAscends(ps: seq<Place>, test: Place -> bool, wanted: bool, key: Place -> Key)
    requires Ascending(ps, key)
    ensures Ascending(Select(ps, test, wanted), key)
  {
    if ps != [] {
      SelectAscends(ps[1..], test, wanted, key);
      var rest := Select(ps[1..], test, wanted);
      forall i | 0 <= i < |rest|
        ensures !KeyLess(key(rest[i]), key(ps[0]))
      {
        SelectMembers(ps[1..], test, wanted, rest[i]);
        var k :| 0 <= k < |ps| - 1 && ps[1..][k] == rest[i];
        assert ps[k + 1] == rest[i];
      }
    }
  }

  /** A visit that is not among the first three is before none of them. */
  lemma FirstVisitsAreBest(kept: seq<Place>, trip: Trip, rules: Rules, x: Place, y: Place)
    requires x in kept && !rules.dining(x) && x !in Take(Visits(kept, trip, rules), VISITS)
    requires y in Take(Visits(kept, trip, rules), VISITS)
    ensures !Before(x, y, trip, rules)
  {
    hide SortKey, Before, KeyLess, SortBy, Select, Take;
    var key := (p: Place) => SortKey(p, trip, rules);
    SortAscends(kept, key);
    SelectAscends(Ordered(kept, trip, rules), rules.dining, false, key);
    OrderedMembers(kept, trip, rules, x);
    TopIsBest(Visits(kept, trip, rules), VISITS, key, x, y);
    KeyMeans(x, y, trip, rules);
  }

  lemma FirstMealsAreBest(kept: seq<Place>, trip: Trip, rules: Rules, n: nat, x: Place, y: Place)
    requires x in kept && rules.dining(x) && x !in Take(Restaurants(kept, trip, rules), n)
    requires y in Take(Restaurants(kept, trip, rules), n)
    ensures !BetterMeal(x, y, Anchors(Visits(kept, trip, rules), trip, rules), trip, rules)
  {
    hide SortKey, Before, KeyLess, SortBy, Select, Take, Nearest, DiningKey, Anchors, Visits, Ordered;
    var anchors := Anchors(Visits(kept, trip, rules), trip, rules);
    var key := (p: Place) => DiningKey(p, anchors, trip, rules);
    SortAscends(Select(Ordered(kept, trip, rules), rules.dining, true), key);
    OrderedMembers(kept, trip, rules, x);
    TopIsBest(Restaurants(kept, trip, rules), n, key, x, y);
    DiningMeans(x, y, anchors, trip, rules);
  }

  /** A kept place that is left out: eight are reserved, each of them for a label, as one of the restaurants, as one of the
      first three visits, or because the place left out is not before it. */
  lemma LeftOutIsNotBefore(kept: seq<Place>, trip: Trip, rules: Rules, x: Place, y: Place)
    requires DistinctPlaces(kept) && |Required(trip)| <= 3 && AllSatisfied(kept, Required(trip), rules)
    requires x in kept && x !in Reserved(kept, trip, rules) && y in Reserved(kept, trip, rules)
    ensures |Reserved(kept, trip, rules)| == MOST_RESERVED
    ensures || (exists i :: 0 <= i < |Required(trip)| && Closest(Ordered(kept, trip, rules), Required(trip)[i], rules) == Some(y))
            || y in Take(Restaurants(kept, trip, rules), trip.meals.Count())
            || y in Take(Visits(kept, trip, rules), VISITS)
            || !Before(x, y, trip, rules)
  {
    hide ForLabels, ReserveAll, Restaurants, Visits, Required, Before, SortKey, KeyLess, SortBy, Take;
    var ordered, labels := Ordered(kept, trip, rules), Required(trip);
    var meals, visits := Take(Restaurants(kept, trip, rules), trip.meals.Count()), Take(Visits(kept, trip, rules), VISITS);
    var a := ForLabels(ordered, labels, |labels|, rules);
    var b := ReserveAll(a, meals);
    var c := ReserveAll(b, visits);
    var r := Reserved(kept, trip, rules);
    ReservedKeepsMandatory(kept, trip, rules);
    OrderedMembers(kept, trip, rules, x);
    if Known(r, x.placeId) {
      KnownIsIn(kept, r, x);
    }
    var i :| 0 <= i < |ordered| && ordered[i] == x;
    TurnInOrder(c, ordered, i, y);
    if y in c {
      TurnMembers(b, visits, y);
      if y in b {
        TurnMembers(a, meals, y);
        if y in a {
          LabelTurn(ordered, labels, |labels|, rules, y);
        }
      }
    } else {
      EarlierIsNotAfter(kept, trip, rules, i, y);
    }
  }

  lemma EarlierIsNotAfter(kept: seq<Place>, trip: Trip, rules: Rules, i: nat, y: Place)
    requires i < |Ordered(kept, trip, rules)| && y in Ordered(kept, trip, rules)[..i]
    ensures !Before(Ordered(kept, trip, rules)[i], y, trip, rules)
  {
    hide SortKey, Before, KeyLess, SortBy;
    var ordered := Ordered(kept, trip, rules);
    SortAscends(kept, p => SortKey(p, trip, rules));
    var j :| 0 <= j < i && ordered[..i][j] == y;
    assert ordered[j] == y;
    KeyMeans(ordered[i], y, trip, rules);
  }

  /** What a successful pre-filter reserves among the acceptable places: for every required label a satisfying place of
      least closeness; as many restaurants as meals, the nearest to the visits for the labels, or to the first visits when
      there are none; the three first visits; and beyond these no place before one that is left out. */
  lemma ReservedAreBest(places: seq<Place>, trip: Trip, rules: Rules, r: seq<Place>)
    returns (named: seq<Place>, meals: seq<Place>, visits: seq<Place>, anchors: seq<Place>)
    requires Answers(places, trip, rules, Ok(r))
    ensures var kept, labels := Filtered(places, |places|, trip, rules), Required(trip);
      && |named| == |labels| && |meals| == trip.meals.Count() && |visits| == 3
      && DistinctPlaces(meals) && DistinctPlaces(visits)
      && (forall p :: p in named || p in meals || p in visits ==> p in r)
      && (forall i :: 0 <= i < |labels| ==> rules.satisfies(named[i], labels[i]))
      && (forall i, x :: 0 <= i < |labels| && x in kept && rules.satisfies(x, labels[i]) ==>
            NoFarther(rules.closeness(named[i], labels[i]), rules.closeness(x, labels[i])))
      && (forall p :: p in meals ==> rules.dining(p)) && (forall p :: p in visits ==> !rules.dining(p))
      && (forall x, y :: x in kept && rules.dining(x) && x !in meals && y in meals ==> !BetterMeal(x, y, anchors, trip, rules))
      && (if exists q :: q in kept && !rules.dining(q) && Wanted(q, trip, rules)
          then forall p :: p in anchors <==> p in kept && !rules.dining(p) && Wanted(p, trip, rules)
          else anchors == visits)
      && (forall x, y :: x in kept && !rules.dining(x) && x !in visits && y in visits ==> !Before(x, y, trip, rules))
      && (forall x, y :: x in kept && x !in r && y in r ==>
            |r| == 8 && (y in named || y in meals || y in visits || !Before(x, y, trip, rules)))
  {
    hide Reserved, Restaurants, Visits, Required, Before, BetterMeal, Closest, Filtered, Anchors, Wanted, MatchKey, Ordered;
    var kept, labels := Filtered(places, |places|, trip, rules), Required(trip);
    FilteredPlaces(places, |places|, trip, rules);
    ReservedKeepsMandatory(kept, trip, rules);
    ListsDistinct(kept, trip, rules);
    meals, visits := Take(Restaurants(kept, trip, rules), trip.meals.Count()), Take(Visits(kept, trip, rules), VISITS);
    anchors := Anchors(Visits(kept, trip, rules), trip, rules);
    named := ClosestEach(kept, trip, rules, |labels|);
    forall p
      ensures p in meals ==> rules.dining(p)
      ensures p in visits ==> !rules.dining(p)
      ensures (exists q :: q in kept && !rules.dining(q) && Wanted(q, trip, rules)) ==>
        (p in anchors <==> p in kept && !rules.dining(p) && Wanted(p, trip, rules))
    {
      OrderedMembers(kept, trip, rules, p);
      AnchorsAre(kept, trip, rules, p);
    }
    AnchorsAre(kept, trip, rules, visits[0]);
    forall x, y | x in kept && rules.dining(x) && x !in meals && y in meals
      ensures !BetterMeal(x, y, anchors, trip, rules)
    {
      FirstMealsAreBest(kept, trip, rules, trip.meals.Count(), x, y);
    }
    forall x, y | x in kept && !rules.dining(x) && x !in visits && y in visits
      ensures !Before(x, y, trip, rules)
    {
      FirstVisitsAreBest(kept, trip, rules, x, y);
    }
    forall x, y | x in kept && x !in r && y in r
      ensures |r| == 8 && (y in named || y in meals || y in visits || !Before(x, y, trip, rules))
    {
      LeftOutIsNotBefore(kept, trip, rules, x, y);
    }
  }

  /** The closest matches of the first n labels are reserved. */
  lemma {:induction false} ClosestEach(kept: seq<Place>, trip: Trip, rules: Rules, n: nat) returns (named: seq<Place>)
    requires n <= |Required(trip)| <= 3 && DistinctPlaces(kept) && AllSatisfied(kept, Required(trip), rules)
    ensures |named| == n
    ensures forall i :: 0 <= i < n ==>
      && Closest(Ordered(kept, trip, rules), Required(trip)[i], rules) == Some(named[i])
      && named[i] in Reserved(kept, trip, rules) && rules.satisfies(named[i], Required(trip)[i])
    ensures forall i, x :: 0 <= i < n && x in kept && rules.satisfies(x, Required(trip)[i]) ==>
      NoFarther(rules.closeness(named[i], Required(trip)[i]), rules.closeness(x, Required(trip)[i]))
  {
    hide Reserved, Ordered, Required, Closest, MatchKey;
    named := [];
    if n > 0 {
      var before := ClosestEach(kept, trip, rules, n - 1);
      var m := ClosestReserved(kept, trip, rules, n - 1);
      named := before + [m];
      forall x | x in kept && rules.satisfies(x, Required(trip)[n - 1])
        ensures NoFarther(rules.closeness(m, Required(trip)[n - 1]), rules.closeness(x, Required(trip)[n - 1]))
      {
        OrderedMembers(kept, trip, rules, x);
        ClosestIsLeast(Ordered(kept, trip, rules), Required(trip)[n - 1], rules, x);
        MatchMeans(x, m, Required(trip)[n - 1], rules);
      }
    }
  }

  lemma ClosestReserved(kept: seq<Place>, trip: Trip, rules: Rules, i: nat) returns (m: Place)
    requires i < |Required(trip)| <= 3 && DistinctPlaces(kept) && AllSatisfied(kept, Required(trip), rules)
    ensures Closest(Ordered(kept, trip, rules), Required(trip)[i], rules) == Some(m)
    ensures m in Reserved(kept, trip, rules) && rules.satisfies(m, Required(trip)[i])
  {
    hide ForLabels, Ordered, Restaurants, Visits, Required, Closest, Take;
    var ordered, labels := Ordered(kept, trip, rules), Required(trip);
    assert Satisfied(kept, labels[i], rules);
    var k :| 0 <= k < |kept| && rules.satisfies(kept[k], labels[i]);
    OrderedMembers(kept, trip, rules, kept[k]);
    ClosestIsLeast(ordered, labels[i], rules, kept[k]);
    m := Closest(ordered, labels[i], rules).value;
    var a := ForLabels(ordered, labels, |labels|, rules);
    ForLabelsFits(ordered, labels, |labels|, rules);
    var meals, visits := Take(Restaurants(kept, trip, rules), trip.meals.Count()), Take(Visits(kept, trip, rules), VISITS);
    TurnGrows(a, meals);
    TurnGrows(ReserveAll(a, meals), visits);
    TurnGrows(ReserveAll(ReserveAll(a, meals), visits), ordered);
    var r := Reserved(kept, trip, rules);
    KnownGrows(a, r, m.placeId);
    ReservedKeepsMandatory(kept, trip, rules);
    OrderedMembers(kept, trip, rules, m);
    KnownIsIn(kept, r, m);
  }

  /** Without must-visit labels and meals the choice is plain: no acceptable place that is left out is better than a
      reserved one - none has more interests; with as many none is online where the reserved one is cached; then none is
      cheaper; then none has a smaller id. */
  lemma PlainChoice(places: seq<Place>, trip: Trip, rules: Rules, r: seq<Place>, x: Place, y: Place)
    requires Answers(places, trip, rules, Ok(r)) && !trip.meals.Any()
    requires forall i :: 0 <= i < |trip.people| ==> trip.people[i].mustVisit == []
    requires x in Filtered(places, |places|, trip, rules) && x !in r && y in r
    ensures var ix, iy := rules.interest(x, InterestsOf(trip.people)), rules.interest(y, InterestsOf(trip.people));
      && |r| == 8 && iy >= ix
      && (iy == ix && x.source == Online ==> y.source == Online)
      && (iy == ix && (x.source == Online <==> y.source == Online) ==>
            && (x.price.Some? && x.price.value < 1_000_000_000_000 ==> y.price.Some? && y.price.value <= x.price.value)
            && (x.price == y.price ==> x.placeId == y.placeId || Lex.Less(y.placeId, x.placeId)))
  {
    hide Filtered, InterestsOf, Before, BetterMeal;
    NoMustVisits(trip.people);
    assert Required(trip) == [];
    var named, meals, visits, anchors := ReservedAreBest(places, trip, rules, r);
    NoDining(places, trip, rules, x);
    assert !Before(x, y, trip, rules);
    hide Answers;
    PlainBefore(x, y, trip, rules);
    Lex.Total(x.placeId, y.placeId);
  }

  lemma PlainBefore(x: Place, y: Place, trip: Trip, rules: Rules)
    requires Required(trip) == []
    ensures Before(x, y, trip, rules) <==> BetterVisit(x, y, trip, rules)
  {
    hide BetterVisit;
  }

  lemma {:induction false} NoMustVisits(people: seq<Person>)
    requires forall i :: 0 <= i < |people| ==> people[i].mustVisit == []
    ensures MustVisits(people) == []
  {
    if people != [] {
      NoMustVisits(people[1..]);
    }
  }

  lemma NoDining(places: seq<Place>, trip: Trip, rules: Rules, x: Place)
    requires !trip.meals.Any() && Required(trip) == [] && x in Filtered(places, |places|, trip, rules)
    ensures !rules.dining(x)
  {
    FilteredPlaces(places, |places|, trip, rules);
  }

  // ---- The constraints and the wishes, written out -----------------------------------------------

  lemma Regrouped<T>(x: seq<T>, y: seq<T>, z: seq<T>)
    ensures (x + y) + z == x + (y + z)
  {
  }

  /** Everything every member states is heard, in the order of the members. */
  lemma {:induction false} WishesAppend(a: seq<Person>, b: seq<Person>)
    ensures MustVisits(a + b) == MustVisits(a) + MustVisits(b)
    ensures Avoids(a + b) == Avoids(a) + Avoids(b)
    ensures InterestsOf(a + b) == InterestsOf(a) + InterestsOf(b)
  {
    if a == [] {
      assert a + b == b;
    } else {
      var rest, first, all := a[1..], a[0], a + b;
      assert all[1..] == rest + b && all[0] == first;
      WishesAppend(rest, b);
      Regrouped(first.mustVisit, MustVisits(rest), MustVisits(b));
      Regrouped(first.avoid, Avoids(rest), Avoids(b));
      Regrouped(first.interests, InterestsOf(rest), InterestsOf(b));
    }
  }

  lemma WishesOfOne(p: Person)
    ensures MustVisits([p]) == p.mustVisit && Avoids([p]) == p.avoid && InterestsOf([p]) == p.interests
  {
    assert [p][1..] == [];
    assert MustVisits([p]) == p.mustVisit + [] && Avoids([p]) == p.avoid + [] && InterestsOf([p]) == p.interests + [];
  }

  /** Every returned place is of the trip's city, from a trusted source, affordable for the trip and for every member, no
      lodging, and matches no enforced avoid label; unless a must-visit label names it exactly, it is a place to visit and
      no restaurant on a day without meals. */
  lemma ReturnedAreSuitable(places: seq<Place>, trip: Trip, rules: Rules, r: seq<Place>, p: Place)
    requires Answers(places, trip, rules, Ok(r)) && p in r
    ensures p in places && p.cityCode == trip.cityCode && p.source != Untrusted && !rules.lodging(p)
    ensures p.price.Some? ==>
      p.price.value <= trip.totalBudget && forall i :: 0 <= i < |trip.people| ==> p.price.value <= trip.people[i].budgetCap
    ensures forall i :: 0 <= i < |Avoided(trip)| ==> !rules.matches(p, Avoided(trip)[i])
    ensures (forall i :: 0 <= i < |Required(trip)| ==> !rules.named(p, Required(trip)[i])) ==>
      !rules.nonVisit(p) && (rules.dining(p) ==> trip.meals.lunch || trip.meals.dinner)
  {
    hide Answers, Required, Avoided;
    PreFilterKeepsItsPromises(places, trip, rules, r);
  }

  lemma {:induction false} LowestCapIs(limit: nat, people: seq<Person>)
    ensures LowestCap(limit, people) == limit || exists i :: 0 <= i < |people| && LowestCap(limit, people) == people[i].budgetCap
  {
    if people != [] {
      LowestCapIs(limit, people[1..]);
      if LowestCap(limit, people) != limit && LowestCap(limit, people) != people[0].budgetCap {
        var i :| 0 <= i < |people| - 1 && LowestCap(limit, people[1..]) == people[1..][i].budgetCap;
        assert people[i + 1] == people[1..][i];
      }
    }
  }

  /** Nothing else is held against a place: these conditions make it acceptable. */
  lemma SuitableIsAcceptable(p: Place, trip: Trip, rules: Rules)
    requires p.cityCode == trip.cityCode && p.source != Untrusted && !rules.lodging(p)
    requires p.price.Some? ==>
      p.price.value <= trip.totalBudget && forall i :: 0 <= i < |trip.people| ==> p.price.value <= trip.people[i].budgetCap
    requires forall i :: 0 <= i < |Avoided(trip)| ==> !rules.matches(p, Avoided(trip)[i])
    requires (forall i :: 0 <= i < |Required(trip)| ==> !rules.named(p, Required(trip)[i])) ==>
      !rules.nonVisit(p) && (rules.dining(p) ==> trip.meals.lunch || trip.meals.dinner)
    ensures Acceptable(p, trip, rules)
  {
    hide Required, Avoided;
    LowestCapIs(trip.totalBudget, trip.people);
  }

  /** Of every provider id the first acceptable place is kept. */
  ghost predicate FirstAcceptable(places: seq<Place>, i: nat, trip: Trip, rules: Rules) {
    && i < |places| && Acceptable(places[i], trip, rules)
    && forall j :: 0 <= j < i && Acceptable(places[j], trip, rules) ==> places[j].placeId != places[i].placeId
  }

  lemma {:induction false} FilteredAre(places: seq<Place>, n: nat, trip: Trip, rules: Rules, p: Place)
    requires n <= |places|
    ensures p in Filtered(places, n, trip, rules) <==>
      exists i: nat :: i < n && places[i] == p && FirstAcceptable(places, i, trip, rules)
    ensures forall j :: 0 <= j < n && Acceptable(places[j], trip, rules) ==> Known(Filtered(places, n, trip, rules), places[j].placeId)
  {
    hide Acceptable;
    if n > 0 {
      var last := n - 1;
      FilteredAre(places, last, trip, rules, p);
      var before, kept := Filtered(places, last, trip, rules), Filtered(places, n, trip, rules);
      if !Known(before, places[last].placeId) && Acceptable(places[last], trip, rules) {
        assert kept[|before|] == places[last];
      }
      KnownFromFirst(places, last, trip, rules);
      assert p in kept <==> p in before || (places[last] == p && FirstAcceptable(places, last, trip, rules));
      forall j | 0 <= j < n && Acceptable(places[j], trip, rules)
        ensures Known(kept, places[j].placeId)
      {
        if j < last {
          KnownGrows(before, kept, places[j].placeId);
        }
      }
    }
  }

  /** An id is known after n places exactly if an acceptable place among them has it. */
  lemma {:induction false} KnownFromFirst(places: seq<Place>, n: nat, trip: Trip, rules: Rules)
    requires n < |places|
    requires forall j :: 0 <= j < n && Acceptable(places[j], trip, rules) ==> Known(Filtered(places, n, trip, rules), places[j].placeId)
    ensures Acceptable(places[n], trip, rules) ==>
      (FirstAcceptable(places, n, trip, rules) <==> !Known(Filtered(places, n, trip, rules), places[n].placeId))
  {
    hide Acceptable;
    var kept := Filtered(places, n, trip, rules);
    FilteredPlacesAmong(places, n, trip, rules);
    if Known(kept, places[n].placeId) {
      var i :| 0 <= i < |kept| && kept[i].placeId == places[n].placeId;
      assert kept[i] in kept;
    }
  }

  lemma {:induction false} FilteredPlacesAmong(places: seq<Place>, n: nat, trip: Trip, rules: Rules)
    requires n <= |places|
    ensures forall p :: p in Filtered(places, n, trip, rules) ==>
      exists j :: 0 <= j < n && places[j] == p && Acceptable(places[j], trip, rules)
  {
    hide Acceptable;
    if n > 0 {
      FilteredPlacesAmong(places, n - 1, trip, rules);
    }
  }
}
