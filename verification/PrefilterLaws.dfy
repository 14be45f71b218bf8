/** What a successful pre-filter guarantees: the cap of eight never drops a mandatory place. */
module PrefilterLaws {
  import opened Prelude
  import opened Prefilter

  // ---- Reserving ---------------------------------------------------------------------------

  lemma {:induction false} ReserveAllKeeps(selected: seq<Place>, ps: seq<Place>)
    requires DistinctPlaces(selected) && |selected| <= MOST_RESERVED
    ensures var r := ReserveAll(selected, ps);
      && selected <= r && DistinctPlaces(r) && |r| <= MOST_RESERVED
      && forall p :: p in r ==> p in selected || p in ps
    decreases |ps|
  {
    if ps != [] {
      ReserveAllKeeps(Reserve(selected, ps[0]), ps[1..]);
      assert forall p :: p in Reserve(selected, ps[0]) ==> p in selected || p == ps[0];
    }
  }

  lemma KnownGrows(a: seq<Place>, b: seq<Place>, id: string)
    requires a <= b && Known(a, id)
    ensures Known(b, id)
  {
    var i :| 0 <= i < |a| && a[i].placeId == id;
    assert b[i] == a[i];
  }

  /** As long as everything fits under the cap, everything is reserved. */
  lemma {:induction false} ReserveAllFits(selected: seq<Place>, ps: seq<Place>)
    requires DistinctPlaces(selected) && |selected| + |ps| <= MOST_RESERVED
    ensures |ReserveAll(selected, ps)| <= |selected| + |ps|
    ensures forall i :: 0 <= i < |ps| ==> Known(ReserveAll(selected, ps), ps[i].placeId)
    decreases |ps|
  {
    if ps != [] {
      var next := Reserve(selected, ps[0]);
      ReserveAllFits(next, ps[1..]);
      ReserveAllKeeps(next, ps[1..]);
      assert Known(next, ps[0].placeId) by {
        if !Known(selected, ps[0].placeId) {
          assert next[|selected|] == ps[0];
        }
      }
      KnownGrows(next, ReserveAll(next, ps[1..]), ps[0].placeId);
      forall i | 0 <= i < |ps|
        ensures Known(ReserveAll(selected, ps), ps[i].placeId)
      {
        if i > 0 {
          assert ps[1..][i - 1] == ps[i];
        }
      }
    }
  }

  lemma {:induction false} ForLabelsFits(ordered: seq<Place>, labels: seq<Label>, n: nat, rules: Rules)
    requires n <= |labels| && n <= MOST_RESERVED
    ensures var r := ForLabels(ordered, labels, n, rules);
      && DistinctPlaces(r) && |r| <= n && (forall p :: p in r ==> p in ordered)
      && forall i :: 0 <= i < n && Closest(ordered, labels[i], rules).Some? ==>
           Known(r, Closest(ordered, labels[i], rules).value.placeId)
  {
    if n > 0 {
      ForLabelsFits(ordered, labels, n - 1, rules);
      var before, r := ForLabels(ordered, labels, n - 1, rules), ForLabels(ordered, labels, n, rules);
      forall i | 0 <= i < n && Closest(ordered, labels[i], rules).Some?
        ensures Known(r, Closest(ordered, labels[i], rules).value.placeId)
      {
        var m := Closest(ordered, labels[i], rules).value;
        if i < n - 1 {
          KnownGrows(before, r, m.placeId);
        } else if !Known(before, m.placeId) {
          assert r[|before|] == m;
        }
      }
    }
  }

  // ---- Where the lists come from -----------------------------------------------------------

  lemma SortMembers(ps: seq<Place>, key: Place -> Combinatorics.Key, p: Place)
    ensures p in SortBy(ps, key) <==> p in ps
    ensures |SortBy(ps, key)| == |ps|
  {
    SortBag(ps, key);
    assert p in multiset(SortBy(ps, key)) <==> p in multiset(ps);
    assert |multiset(SortBy(ps, key))| == |multiset(ps)|;
  }

  lemma {:induction false} SelectMembers(ps: seq<Place>, test: Place -> bool, wanted: bool, p: Place)
    ensures p in Select(ps, test, wanted) <==> p in ps && test(p) == wanted
  {
    if ps != [] {
      SelectMembers(ps[1..], test, wanted, p);
      assert p in ps <==> p == ps[0] || p in ps[1..];
    }
  }

  lemma OrderedMembers(kept: seq<Place>, trip: Trip, rules: Rules, p: Place)
    ensures p in Ordered(kept, trip, rules) <==> p in kept
    ensures p in Visits(kept, trip, rules) <==> p in kept && !rules.dining(p)
    ensures p in Restaurants(kept, trip, rules) <==> p in kept && rules.dining(p)
  {
    hide SortBy, Select, SortKey, DiningKey, Anchors;
    var ordered := Ordered(kept, trip, rules);
    SortMembers(kept, q => SortKey(q, trip, rules), p);
    SelectMembers(ordered, rules.dining, false, p);
    SelectMembers(ordered, rules.dining, true, p);
    var anchors := Anchors(Visits(kept, trip, rules), trip, rules);
    SortMembers(Select(ordered, rules.dining, true), q => DiningKey(q, anchors, trip, rules), p);
  }

  lemma KnownIsIn(kept: seq<Place>, r: seq<Place>, p: Place)
    requires DistinctPlaces(kept) && p in kept && Known(r, p.placeId) && forall q :: q in r ==> q in kept
    ensures p in r
  {
    var i :| 0 <= i < |r| && r[i].placeId == p.placeId;
    assert r[i] in r;
  }

  // ---- The guarantee -----------------------------------------------------------------------

  /** The four rounds of reservations, from at most three labels, at most two meals and three visits. */
  lemma ReservedKeepsMandatory(kept: seq<Place>, trip: Trip, rules: Rules)
    requires DistinctPlaces(kept) && |Required(trip)| <= 3 && AllSatisfied(kept, Required(trip), rules)
    ensures var r := Reserved(kept, trip, rules);
      && |r| <= MOST_RESERVED && DistinctPlaces(r) && (forall p :: p in r ==> p in kept)
      && (forall i :: 0 <= i < |Required(trip)| ==> Satisfied(r, Required(trip)[i], rules))
      && (forall p :: p in Take(Restaurants(kept, trip, rules), trip.meals.Count()) ==> p in r)
      && (forall p :: p in Take(Visits(kept, trip, rules), VISITS) ==> p in r)
  {
    hide ForLabels, ReserveAll, Ordered, Restaurants, Visits, Required;
    var ordered, labels := Ordered(kept, trip, rules), Required(trip);
    var meals, visits := Take(Restaurants(kept, trip, rules), trip.meals.Count()), Take(Visits(kept, trip, rules), VISITS);
    forall p
      ensures p in ordered <==> p in kept
      ensures p in meals || p in visits ==> p in kept
    {
      OrderedMembers(kept, trip, rules, p);
    }
    var a := ForLabels(ordered, labels, |labels|, rules);
    ForLabelsFits(ordered, labels, |labels|, rules);
    var b := ReserveAll(a, meals);
    ReserveAllKeeps(a, meals);
    ReserveAllFits(a, meals);
    var c := ReserveAll(b, visits);
    ReserveAllKeeps(b, visits);
    ReserveAllFits(b, visits);
    var r := ReserveAll(c, ordered);
    ReserveAllKeeps(c, ordered);
    assert r == Reserved(kept, trip, rules) && a <= b <= c <= r;
    forall p | p in meals
      ensures p in r
    {
      var i :| 0 <= i < |meals| && meals[i] == p;
      KnownGrows(b, r, p.placeId);
      KnownIsIn(kept, r, p);
    }
    forall p | p in visits
      ensures p in r
    {
      var i :| 0 <= i < |visits| && visits[i] == p;
      KnownGrows(c, r, p.placeId);
      KnownIsIn(kept, r, p);
    }
    forall i | 0 <= i < |labels|
      ensures Satisfied(r, labels[i], rules)
    {
      LabelReserved(kept, ordered, a, r, labels, i, rules);
    }
  }

  lemma LabelReserved(
    kept: seq<Place>, ordered: seq<Place>, a: seq<Place>, r: seq<Place>, labels: seq<Label>, i: nat, rules: Rules)
    requires i < |labels| && DistinctPlaces(kept) && Satisfied(kept, labels[i], rules)
    requires (forall p :: p in ordered <==> p in kept) && (forall p :: p in r ==> p in kept)
    requires a <= r
    requires Closest(ordered, labels[i], rules).Some? ==> Known(a, Closest(ordered, labels[i], rules).value.placeId)
    ensures Satisfied(r, labels[i], rules)
  {
    var k :| 0 <= k < |kept| && rules.satisfies(kept[k], labels[i]);
    assert kept[k] in ordered;
    var j :| 0 <= j < |ordered| && ordered[j] == kept[k];
    assert Satisfied(ordered, labels[i], rules);
    var m := Closest(ordered, labels[i], rules).value;
    KnownGrows(a, r, m.placeId);
    KnownIsIn(kept, r, m);
    var n :| 0 <= n < |r| && r[n] == m;
  }

  /** Every successful pre-filter returns six to eight distinct places of the input, each within the constraints; a place
      for every required label; the first restaurants, one per wanted meal, and the first three visits of the order. */
  lemma PreFilterKeepsItsPromises(places: seq<Place>, trip: Trip, rules: Rules, r: seq<Place>)
    requires Answers(places, trip, rules, Ok(r))
    ensures LEAST_RESERVED <= |r| <= MOST_RESERVED && DistinctPlaces(r)
    ensures forall p :: p in r ==> p in places && Acceptable(p, trip, rules)
    ensures forall i :: 0 <= i < |Required(trip)| ==> Satisfied(r, Required(trip)[i], rules)
    ensures exists meals: seq<Place>, visits: seq<Place> ::
      && |meals| == trip.meals.Count() && |visits| == VISITS
      && DistinctPlaces(meals) && DistinctPlaces(visits)
      && (forall p :: p in meals ==> p in r && rules.dining(p))
      && (forall p :: p in visits ==> p in r && !rules.dining(p))
  {
    hide Acceptable, Reserved, Restaurants, Visits, Required;
    var kept := Filtered(places, |places|, trip, rules);
    FilteredPlaces(places, |places|, trip, rules);
    ReservedKeepsMandatory(kept, trip, rules);
    var meals, visits := Take(Restaurants(kept, trip, rules), trip.meals.Count()), Take(Visits(kept, trip, rules), VISITS);
    forall p
      ensures p in meals ==> rules.dining(p)
      ensures p in visits ==> !rules.dining(p)
    {
      OrderedMembers(kept, trip, rules, p);
    }
    ListsDistinct(kept, trip, rules);
    assert |meals| == trip.meals.Count() && |visits| == VISITS;
  }

  lemma {:induction false} SelectCount(ps: seq<Place>, test: Place -> bool, wanted: bool, p: Place)
    ensures multiset(Select(ps, test, wanted))[p] <= multiset(ps)[p]
  {
    if ps != [] {
      assert ps == [ps[0]] + ps[1..];
      SelectCount(ps[1..], test, wanted, p);
    }
  }

  lemma {:induction false} DistinctCount(ps: seq<Place>, p: Place)
    requires DistinctPlaces(ps)
    ensures multiset(ps)[p] <= 1
  {
    if ps != [] {
      assert ps == [ps[0]] + ps[1..];
      DistinctCount(ps[1..], p);
      assert ps[0] !in ps[1..];
    }
  }

  lemma DistinctWithin(kept: seq<Place>, s: seq<Place>)
    requires DistinctPlaces(kept) && forall p :: multiset(s)[p] <= multiset(kept)[p]
    ensures DistinctPlaces(s)
  {
    forall i, j | 0 <= i < j < |s|
      ensures s[i].placeId != s[j].placeId
    {
      assert s[i] in multiset(s) && s[j] in multiset(s);
      assert s[i] in multiset(kept) && s[j] in multiset(kept);
      assert s[i] in kept && s[j] in kept;
      if s[i] == s[j] {
        DistinctCount(kept, s[i]);
        TwiceCounts(s, i, j);
      }
    }
  }

  lemma ListsDistinct(kept: seq<Place>, trip: Trip, rules: Rules)
    requires DistinctPlaces(kept)
    ensures DistinctPlaces(Visits(kept, trip, rules)) && DistinctPlaces(Restaurants(kept, trip, rules))
  {
    hide SortBy, Select, SortKey, DiningKey, Anchors, DistinctPlaces;
    var ordered := Ordered(kept, trip, rules);
    var anchors := Anchors(Visits(kept, trip, rules), trip, rules);
    SortBag(kept, q => SortKey(q, trip, rules));
    SortBag(Select(ordered, rules.dining, true), q => DiningKey(q, anchors, trip, rules));
    forall p
      ensures multiset(Visits(kept, trip, rules))[p] <= multiset(kept)[p]
      ensures multiset(Restaurants(kept, trip, rules))[p] <= multiset(kept)[p]
    {
      SelectCount(ordered, rules.dining, false, p);
      SelectCount(ordered, rules.dining, true, p);
    }
    DistinctWithin(kept, Visits(kept, trip, rules));
    DistinctWithin(kept, Restaurants(kept, trip, rules));
  }

  lemma TwiceCounts(ps: seq<Place>, i: nat, j: nat)
    requires i < j < |ps| && ps[i] == ps[j]
    ensures multiset(ps)[ps[i]] >= 2
  {
    assert ps == ps[..j] + ps[j..];
    assert ps[..j][i] in multiset(ps[..j]) && ps[j..][0] in multiset(ps[j..]);
  }

  // ---- Small offers --------------------------------------------------------------------------

  lemma {:induction false} AllAcceptable(places: seq<Place>, n: nat, trip: Trip, rules: Rules)
    requires n <= |places| && DistinctPlaces(places) && forall p :: p in places ==> Acceptable(p, trip, rules)
    ensures Filtered(places, n, trip, rules) == places[..n]
  {
    hide Acceptable;
    if n > 0 {
      AllAcceptable(places, n - 1, trip, rules);
      assert places[..n] == places[..n - 1] + [places[n - 1]];
    }
  }

  function IdsOf(ps: seq<Place>): set<string> {
    set i | 0 <= i < |ps| :: ps[i].placeId
  }

  lemma {:induction false} IdsCount(ps: seq<Place>)
    ensures |IdsOf(ps)| <= |ps|
    ensures DistinctPlaces(ps) ==> |IdsOf(ps)| == |ps|
  {
    if ps != [] {
      var front, last := ps[..|ps| - 1], ps[|ps| - 1];
      IdsCount(front);
      assert IdsOf(ps) == IdsOf(front) + {last.placeId};
    }
  }

  /** A list that knows every place of a distinct list is at least as long. */
  lemma KnowsAtLeast(ps: seq<Place>, r: seq<Place>)
    requires DistinctPlaces(ps) && forall p :: p in ps ==> Known(r, p.placeId)
    ensures |ps| <= |r|
  {
    IdsCount(ps);
    IdsCount(r);
    forall id | id in IdsOf(ps)
      ensures id in IdsOf(r)
    {
      var i :| 0 <= i < |ps| && ps[i].placeId == id;
      assert Known(r, ps[i].placeId);
    }
    assert IdsOf(r) == IdsOf(ps) + (IdsOf(r) - IdsOf(ps));
  }

  /** Reserving from at most eight distinct places leaves none of them out. */
  lemma {:induction false} ReserveAllOfFew(selected: seq<Place>, ps: seq<Place>, kept: seq<Place>)
    requires DistinctPlaces(selected) && DistinctPlaces(kept) && |kept| <= MOST_RESERVED
    requires (forall p :: p in selected ==> p in kept) && (forall p :: p in ps ==> p in kept)
    ensures forall p :: p in ps ==> Known(ReserveAll(selected, ps), p.placeId)
    decreases |ps|
  {
    if ps != [] {
      FewLeaveRoom(selected, ps[0], kept);
      var next := Reserve(selected, ps[0]);
      ReserveAllOfFew(next, ps[1..], kept);
      ReserveAllKeeps(next, ps[1..]);
      KnownGrows(next, ReserveAll(next, ps[1..]), ps[0].placeId);
    }
  }

  lemma FewLeaveRoom(selected: seq<Place>, p: Place, kept: seq<Place>)
    requires DistinctPlaces(selected) && DistinctPlaces(kept) && |kept| <= MOST_RESERVED
    requires (forall q :: q in selected ==> q in kept) && p in kept
    ensures var next := Reserve(selected, p);
      DistinctPlaces(next) && |next| <= MOST_RESERVED && Known(next, p.placeId) && forall q :: q in next ==> q in kept
  {
    var next := selected + [p];
    forall q | q in selected
      ensures Known(kept, q.placeId)
    {
      var i :| 0 <= i < |kept| && kept[i] == q;
    }
    KnowsAtLeast(selected, kept);
    if !Known(selected, p.placeId) {
      assert next[|selected|] == p;
      assert DistinctPlaces(next);
      var j :| 0 <= j < |kept| && kept[j] == p;
      assert forall q :: q in next ==> Known(kept, q.placeId);
      KnowsAtLeast(next, kept);
    }
  }

  /** When at most eight places are kept, every one of them is reserved. */
  lemma FewAllReserved(kept: seq<Place>, trip: Trip, rules: Rules)
    requires DistinctPlaces(kept) && LEAST_RESERVED <= |kept| <= MOST_RESERVED
    requires |Required(trip)| <= 3 && AllSatisfied(kept, Required(trip), rules)
    ensures var r := Reserved(kept, trip, rules);
      LEAST_RESERVED <= |r| && forall p :: p in kept ==> p in r
  {
    hide ForLabels, ReserveAll, Ordered, Restaurants, Visits, Required, DistinctPlaces;
    ReservedKeepsMandatory(kept, trip, rules);
    var ordered, labels := Ordered(kept, trip, rules), Required(trip);
    var meals, visits := Take(Restaurants(kept, trip, rules), trip.meals.Count()), Take(Visits(kept, trip, rules), VISITS);
    forall p
      ensures p in ordered <==> p in kept
      ensures p in meals || p in visits ==> p in kept
    {
      OrderedMembers(kept, trip, rules, p);
    }
    var a := ForLabels(ordered, labels, |labels|, rules);
    ForLabelsFits(ordered, labels, |labels|, rules);
    var b := ReserveAll(a, meals);
    ReserveAllKeeps(a, meals);
    var c := ReserveAll(b, visits);
    ReserveAllKeeps(b, visits);
    ReserveAllOfFew(c, ordered, kept);
    var r := ReserveAll(c, ordered);
    assert r == Reserved(kept, trip, rules);
    forall p | p in kept
      ensures Known(r, p.placeId) && p in r
    {
      assert p in ordered;
      KnownIsIn(kept, r, p);
    }
    KnowsAtLeast(kept, r);
  }

  lemma AreListed(ps: seq<Place>, kept: seq<Place>, trip: Trip, rules: Rules, dining: bool)
    requires DistinctPlaces(ps) && forall p :: p in ps ==> p in kept && rules.dining(p) == dining
    ensures |ps| <= |if dining then Restaurants(kept, trip, rules) else Visits(kept, trip, rules)|
  {
    hide Visits, Restaurants;
    var listed := if dining then Restaurants(kept, trip, rules) else Visits(kept, trip, rules);
    forall p | p in ps
      ensures Known(listed, p.placeId)
    {
      OrderedMembers(kept, trip, rules, p);
      var i :| 0 <= i < |listed| && listed[i] == p;
    }
    KnowsAtLeast(ps, listed);
  }

  lemma AnsweredFewLabels(places: seq<Place>, trip: Trip, rules: Rules, r: seq<Place>)
    requires Answers(places, trip, rules, Ok(r))
    ensures |Required(trip)| <= 3
  {
  }
}
