/** Which avoid labels the pre-filter honours: all of them up to 24 distinct ones, and beyond that exactly those whose
    normalised text is among the first 24. */
module AvoidLaws {
  import opened Prelude
  import opened TextMatching
  import opened Prefilter
  import opened PrefilterLaws
  import Recommendation

  /** The distinct avoid labels of the whole trip, without any limit. */
  function DistinctAvoids(trip: Trip): seq<Label> {
    Recommendation.FirstOccurrences(Avoids(trip.people), |Avoids(trip.people)|)
  }

  // ---- Any matching ----------------------------------------------------------------------------

  /** Matching a place with a label does not depend on the label's case. */
  ghost predicate CaseBlind(rules: Rules) {
    forall p: Place, a: Label, b: Label {:trigger rules.matches(p, a), rules.matches(p, b)} ::
      a.folded == b.folded ==> rules.matches(p, a) == rules.matches(p, b)
  }

  /** Up to 24 distinct avoid labels, each of them keeps its places out, however places are matched. */
  lemma AvoidedPlacesStayOut(places: seq<Place>, trip: Trip, rules: Rules, r: seq<Place>, p: Place, i: nat)
    requires CaseBlind(rules) && Answers(places, trip, rules, Ok(r)) && p in r
    requires i < |Avoids(trip.people)| && Avoids(trip.people)[i].folded != ""
    requires |DistinctAvoids(trip)| <= AVOIDED_LIMIT
    ensures !rules.matches(p, Avoids(trip.people)[i])
  {
    PreFilterKeepsItsPromises(places, trip, rules, r);
    Recommendation.FirstOccurrencesCover(Avoids(trip.people), |Avoids(trip.people)|, i);
    var labels := Avoided(trip);
    var k :| 0 <= k < |labels| && labels[k].folded == Avoids(trip.people)[i].folded;
    assert !rules.matches(p, labels[k]);
  }

  // ---- The code's matching -----------------------------------------------------------------------

  /** Places that are restaurants by their category, whatever plain word they are called. */
  ghost predicate IsFood(rules: Rules, food: string) {
    forall p: Place :: Plain(p.name) && p.category == Some(food) ==> rules.dining(p) && !rules.lodging(p) && !rules.nonVisit(p)
  }

  /** The matching is the code's; a place with a plain name and no category is an ordinary visit, and there is a category
      of restaurants. */
  ghost predicate AsWritten(rules: Rules, t: Texts) {
    && PlainStays(t)
    && (forall p, l :: rules.matches(p, l) <==> Matches(t.norm(p.name), t.norm(p.placeId), t.norm(l.text)))
    && (forall p, l :: rules.satisfies(p, l) <==>
          Satisfies(t.norm(p.name), t.norm(p.placeId), rules.dining(p), t.norm(l.text), t.diningLabel(l.text)))
    && (forall p, l :: rules.named(p, l) <==> Names(t.norm(p.name), t.norm(p.placeId), t.norm(l.text)))
    && (forall p: Place :: Plain(p.name) && p.category.None? ==> !rules.dining(p) && !rules.lodging(p) && !rules.nonVisit(p))
    && (exists food :: IsFood(rules, food))
  }

  /** A provider place has a name and an id. */
  predicate Real(p: Place, t: Texts) {
    t.norm(p.name) != "" && t.norm(p.placeId) != ""
  }

  /** A successful pre-filter of real places, with a returned place that a member's avoid label matches. */
  ghost predicate Breaks(places: seq<Place>, trip: Trip, rules: Rules, t: Texts, r: seq<Place>, p: Place, i: nat) {
    && (forall q :: q in places ==> Real(q, t))
    && Answers(places, trip, rules, Ok(r)) && p in r
    && i < |Avoids(trip.people)| && rules.matches(p, Avoids(trip.people)[i])
  }

  /** Whatever the provider offers, no returned place matches any avoid label of any member. */
  ghost predicate AvoidsHonoured(trip: Trip, rules: Rules, t: Texts) {
    forall places, r, p, i :: !Breaks(places, trip, rules, t, r, p, i)
  }

  /** The normalised texts of the labels that are enforced. */
  function EnforcedTexts(trip: Trip, t: Texts): (texts: seq<string>)
    ensures |texts| == |Avoided(trip)| && forall i :: 0 <= i < |texts| ==> texts[i] == t.norm(Avoided(trip)[i].text)
  {
    seq(|Avoided(trip)|, i requires 0 <= i < |Avoided(trip)| => t.norm(Avoided(trip)[i].text))
  }

  /** Every avoid label that can match at all has the normalised text of an enforced one. */
  predicate AllEnforced(trip: Trip, t: Texts) {
    forall i :: 0 <= i < |Avoids(trip.people)| ==>
      t.norm(Avoids(trip.people)[i].text) == "" || t.norm(Avoids(trip.people)[i].text) in EnforcedTexts(trip, t)
  }

  /** Some must-visit label is itself avoided, or matches nothing: every offer is refused. */
  predicate Unservable(trip: Trip, t: Texts) {
    exists i :: 0 <= i < |Required(trip)| &&
      (t.norm(Required(trip)[i].text) == "" || t.norm(Required(trip)[i].text) in EnforcedTexts(trip, t))
  }

  // ---- When the promise is kept ------------------------------------------------------------------

  /** A returned place matches no text of an enforced label. */
  lemma EnforcedStayOut(places: seq<Place>, trip: Trip, rules: Rules, t: Texts, r: seq<Place>, p: Place, l: Label)
    requires AsWritten(rules, t) && Answers(places, trip, rules, Ok(r)) && p in r
    requires t.norm(l.text) in EnforcedTexts(trip, t)
    ensures !rules.matches(p, l)
  {
    PreFilterKeepsItsPromises(places, trip, rules, r);
    var texts, labels := EnforcedTexts(trip, t), Avoided(trip);
    var k :| 0 <= k < |texts| && texts[k] == t.norm(l.text);
    assert !rules.matches(p, labels[k]);
  }

  lemma UnservableRefused(places: seq<Place>, trip: Trip, rules: Rules, t: Texts, r: seq<Place>)
    requires AsWritten(rules, t) && Unservable(trip, t)
    ensures !Answers(places, trip, rules, Ok(r))
  {
    if Answers(places, trip, rules, Ok(r)) {
      PreFilterKeepsItsPromises(places, trip, rules, r);
      hide Answers, EnforcedTexts, Required;
      var i :| 0 <= i < |Required(trip)| &&
        (t.norm(Required(trip)[i].text) == "" || t.norm(Required(trip)[i].text) in EnforcedTexts(trip, t));
      var wish := Required(trip)[i];
      var j :| 0 <= j < |r| && rules.satisfies(r[j], wish);
      assert rules.matches(r[j], wish);
      EnforcedStayOut(places, trip, rules, t, r, r[j], wish);
    }
  }

  // ---- A breaking offer --------------------------------------------------------------------------

  /** Each text once, in order of its first occurrence. */
  function OnceEach(texts: seq<string>): (once: seq<string>)
    ensures |once| <= |texts| && (forall s :: s in once <==> s in texts)
    ensures forall i, j :: 0 <= i < j < |once| ==> once[i] != once[j]
  {
    if texts == [] then []
    else
      var front, last := OnceEach(texts[..|texts| - 1]), texts[|texts| - 1];
      assert texts == texts[..|texts| - 1] + [last];
      if last in front then front else front + [last]
  }

  function NeededTexts(labels: seq<Label>, wish: Label): (texts: seq<string>)
    ensures |texts| == |labels| + 1 && texts[|labels|] == wish.text
    ensures forall i :: 0 <= i < |labels| ==> texts[i] == labels[i].text
  {
    seq(|labels|, i requires 0 <= i < |labels| => labels[i].text) + [wish.text]
  }

  /** The ids the offer needs: one for every must-visit label, and one for the avoid label that is not enforced. */
  function Targets(trip: Trip, wish: Label): (ids: seq<string>)
    ensures wish.text in ids && 1 <= |ids| <= |Required(trip)| + 1
    ensures forall i :: 0 <= i < |Required(trip)| ==> Required(trip)[i].text in ids
    ensures forall id :: id in ids ==> id == wish.text || exists i :: 0 <= i < |Required(trip)| && Required(trip)[i].text == id
    ensures forall i, j :: 0 <= i < j < |ids| ==> ids[i] != ids[j]
  {
    hide Required;
    var texts := NeededTexts(Required(trip), wish);
    assert texts[|Required(trip)|] in OnceEach(texts);
    assert forall i :: 0 <= i < |Required(trip)| ==> texts[i] in OnceEach(texts);
    OnceEach(texts)
  }

  /** Six visits and, on a day with meals, two restaurants, all called by the same long plain word. The first visits have
      the targets as their ids, the other places longer plain words. */
  function Offer(trip: Trip, targets: seq<string>, c: char, n: nat, food: string): (ps: seq<Place>)
    ensures |ps| == if trip.meals.Any() then 8 else 6
    ensures forall i :: 0 <= i < |ps| ==>
      ps[i] == Place(if i < |targets| then targets[i] else Repeated(c, n + i), Repeated(c, n),
                     if i < 6 then None else Some(food), trip.cityCode, Online, None)
  {
    seq(if trip.meals.Any() then 8 else 6, i requires 0 <= i < 8 =>
      Place(if i < |targets| then targets[i] else Repeated(c, n + i), Repeated(c, n),
            if i < 6 then None else Some(food), trip.cityCode, Online, None))
  }

  /** The letter is free, the word is long enough, and no target is an enforced text. */
  ghost predicate Chosen(trip: Trip, rules: Rules, t: Texts, targets: seq<string>, c: char, n: nat, food: string) {
    && AsWritten(rules, t) && IsFood(rules, food) && 'a' <= c <= 'z'
    && TotalLength(EnforcedTexts(trip, t)) < n && TotalLength(targets) < n
    && (forall i :: 0 <= i < |EnforcedTexts(trip, t)| && EnforcedTexts(trip, t)[i] != "" ==> EnforcedTexts(trip, t)[i][0] != c)
    && 1 <= |targets| <= 4
    && (forall i, j :: 0 <= i < j < |targets| ==> targets[i] != targets[j])
    && (forall i :: 0 <= i < |targets| ==> t.norm(targets[i]) != "" && t.norm(targets[i]) !in EnforcedTexts(trip, t))
  }

  lemma OfferDistinct(trip: Trip, rules: Rules, t: Texts, targets: seq<string>, c: char, n: nat, food: string)
    requires Chosen(trip, rules, t, targets, c, n, food)
    ensures DistinctPlaces(Offer(trip, targets, c, n, food))
  {
    hide AsWritten, EnforcedTexts, TotalLength;
    var ps := Offer(trip, targets, c, n, food);
    forall i, j | 0 <= i < j < |ps|
      ensures ps[i].placeId != ps[j].placeId
    {
      if j >= |targets| {
        assert |ps[j].placeId| == n + j;
        assert i < |targets| ==> |targets[i]| <= TotalLength(targets);
      }
    }
  }

  lemma OfferAcceptable(trip: Trip, rules: Rules, t: Texts, targets: seq<string>, c: char, n: nat, food: string, p: Place)
    requires Chosen(trip, rules, t, targets, c, n, food) && p in Offer(trip, targets, c, n, food)
    ensures Acceptable(p, trip, rules) && Real(p, t)
    ensures rules.dining(p) <==> p.category == Some(food)
  {
    hide Avoided, Required, TotalLength, Matches;
    var texts, labels := EnforcedTexts(trip, t), Avoided(trip);
    assert Plain(p.name) && t.norm(p.name) == Repeated(c, n);
    NotEnforced(trip, rules, t, targets, c, n, food, p);
    forall i | 0 <= i < |labels|
      ensures !rules.matches(p, labels[i])
    {
      assert texts[i] in texts;
      OnlyTheIdMatches(texts, c, n, t.norm(p.placeId), texts[i]);
    }
  }

  lemma NotEnforced(trip: Trip, rules: Rules, t: Texts, targets: seq<string>, c: char, n: nat, food: string, p: Place)
    requires Chosen(trip, rules, t, targets, c, n, food) && p in Offer(trip, targets, c, n, food)
    ensures t.norm(p.placeId) != "" && t.norm(p.placeId) !in EnforcedTexts(trip, t)
  {
    hide TotalLength, Avoided;
    var ps := Offer(trip, targets, c, n, food);
    var i :| 0 <= i < |ps| && ps[i] == p;
    if i >= |targets| {
      assert Plain(p.placeId);
      assert p.placeId[0] == c;
    }
  }

  lemma OfferListed(trip: Trip, rules: Rules, t: Texts, targets: seq<string>, c: char, n: nat, food: string)
    requires Chosen(trip, rules, t, targets, c, n, food)
    ensures VISITS <= |Visits(Offer(trip, targets, c, n, food), trip, rules)|
    ensures trip.meals.Count() <= |Restaurants(Offer(trip, targets, c, n, food), trip, rules)|
  {
    hide Visits, Restaurants, Chosen;
    var kept := Offer(trip, targets, c, n, food);
    OfferDistinct(trip, rules, t, targets, c, n, food);
    forall p | p in kept
      ensures rules.dining(p) <==> p.category == Some(food)
    {
      OfferAcceptable(trip, rules, t, targets, c, n, food, p);
    }
    AreListed(kept[..3], kept, trip, rules, false);
    if trip.meals.Any() {
      AreListed(kept[6..], kept, trip, rules, true);
    }
  }

  lemma OfferSatisfies(trip: Trip, rules: Rules, t: Texts, targets: seq<string>, c: char, n: nat, food: string)
    requires Chosen(trip, rules, t, targets, c, n, food)
    requires forall i :: 0 <= i < |Required(trip)| ==> Required(trip)[i].text in targets
    ensures AllSatisfied(Offer(trip, targets, c, n, food), Required(trip), rules)
  {
    hide Required, EnforcedTexts, TotalLength;
    var kept, labels := Offer(trip, targets, c, n, food), Required(trip);
    forall i | 0 <= i < |labels|
      ensures Satisfied(kept, labels[i], rules)
    {
      var j :| 0 <= j < |targets| && targets[j] == labels[i].text;
      assert kept[j].placeId == targets[j] && Plain(kept[j].name);
      assert rules.satisfies(kept[j], labels[i]);
    }
  }

  /** The offer passes the whole filter, and all of it is returned. */
  lemma OfferReturned(trip: Trip, rules: Rules, t: Texts, targets: seq<string>, c: char, n: nat, food: string)
    requires Chosen(trip, rules, t, targets, c, n, food) && |Required(trip)| <= 3
    requires forall i :: 0 <= i < |Required(trip)| ==> Required(trip)[i].text in targets
    ensures var places := Offer(trip, targets, c, n, food);
      var r := Reserved(places, trip, rules);
      && (forall p :: p in places ==> Real(p, t) && p in r)
      && Answers(places, trip, rules, Ok(r))
  {
    hide Chosen, Reserved, Restaurants, Visits, Required, Acceptable, Real;
    var places := Offer(trip, targets, c, n, food);
    forall p | p in places
      ensures Acceptable(p, trip, rules) && Real(p, t)
    {
      OfferAcceptable(trip, rules, t, targets, c, n, food, p);
    }
    OfferDistinct(trip, rules, t, targets, c, n, food);
    AllAcceptable(places, |places|, trip, rules);
    assert places[..|places|] == places;
    OfferSatisfies(trip, rules, t, targets, c, n, food);
    OfferListed(trip, rules, t, targets, c, n, food);
    FewAllReserved(places, trip, rules);
  }

  /** An avoid label with a text of its own, beyond the enforced ones, is matched by a real place that is returned. */
  lemma UnenforcedReturned(trip: Trip, rules: Rules, t: Texts, i: nat) returns (places: seq<Place>, r: seq<Place>, p: Place)
    requires AsWritten(rules, t) && |Required(trip)| <= 3 && !Unservable(trip, t)
    requires i < |Avoids(trip.people)|
    requires var text := t.norm(Avoids(trip.people)[i].text); text != "" && text !in EnforcedTexts(trip, t)
    ensures Breaks(places, trip, rules, t, r, p, i)
    ensures p.placeId == Avoids(trip.people)[i].text
  {
    hide Answers, Reserved, Required, Avoided;
    var wish := Avoids(trip.people)[i];
    var targets, texts := Targets(trip, wish), EnforcedTexts(trip, t);
    EnforcedCount(trip, t);
    var c := FreeLetter(texts);
    var n := TotalLength(texts) + TotalLength(targets) + 1;
    var food :| IsFood(rules, food);
    forall k | 0 <= k < |targets|
      ensures t.norm(targets[k]) != "" && t.norm(targets[k]) !in texts
    {
      assert targets[k] in targets;
    }
    assert Chosen(trip, rules, t, targets, c, n, food);
    OfferReturned(trip, rules, t, targets, c, n, food);
    places := Offer(trip, targets, c, n, food);
    r := Reserved(places, trip, rules);
    var k :| 0 <= k < |targets| && targets[k] == wish.text;
    p := places[k];
    assert p in places;
    hide Chosen, EnforcedTexts, Unservable;
    assert rules.matches(p, wish);
  }

  lemma EnforcedCount(trip: Trip, t: Texts)
    ensures |EnforcedTexts(trip, t)| <= AVOIDED_LIMIT
  {
  }

  /** The code's promise that no returned place matches an avoid label, whatever the provider offers: it is kept exactly if
      the trip is refused in any case - for more than three must-visit labels, or for one that is itself avoided - or every
      avoid label has the normalised text of an enforced one. */
  lemma AvoidsHonouredIff(trip: Trip, rules: Rules, t: Texts)
    requires AsWritten(rules, t)
    ensures AvoidsHonoured(trip, rules, t) <==>
            |Required(trip)| > 3 || Unservable(trip, t) || AllEnforced(trip, t)
  {
    hide Answers, Required, Unservable, EnforcedTexts, AsWritten;
    if |Required(trip)| > 3 || Unservable(trip, t) || AllEnforced(trip, t) {
      forall places, r, p, i
        ensures !Breaks(places, trip, rules, t, r, p, i)
      {
        if Breaks(places, trip, rules, t, r, p, i) {
          NothingBreaks(places, trip, rules, t, r, p, i);
        }
      }
    } else {
      var i :| 0 <= i < |Avoids(trip.people)| && t.norm(Avoids(trip.people)[i].text) != ""
               && t.norm(Avoids(trip.people)[i].text) !in EnforcedTexts(trip, t);
      var places, r, p := UnenforcedReturned(trip, rules, t, i);
    }
  }

  lemma NothingBreaks(places: seq<Place>, trip: Trip, rules: Rules, t: Texts, r: seq<Place>, p: Place, i: nat)
    requires AsWritten(rules, t) && Breaks(places, trip, rules, t, r, p, i)
    ensures |Required(trip)| <= 3 && !Unservable(trip, t) && !AllEnforced(trip, t)
  {
    hide Answers, Required, Unservable, EnforcedTexts;
    AnsweredFewLabels(places, trip, rules, r);
    if Unservable(trip, t) {
      UnservableRefused(places, trip, rules, t, r);
    }
    if AllEnforced(trip, t) {
      EnforcedStayOut(places, trip, rules, t, r, p, Avoids(trip.people)[i]);
    }
  }

  // ---- Examples --------------------------------------------------------------------------------

  /** Labels that are plain words of different length. */
  function Words(from: nat, count: nat): (labels: seq<Label>)
    ensures |labels| == count
    ensures forall i :: 0 <= i < count ==> labels[i] == Recommendation.Label(Repeated('z', from + i), Repeated('z', from + i))
  {
    seq(count, i requires 0 <= i < count => Recommendation.Label(Repeated('z', from + i), Repeated('z', from + i)))
  }

  lemma WordsApart(from: nat, count: nat, t: Texts)
    requires 1 <= from && PlainStays(t)
    ensures Recommendation.FoldedApart(Words(from, count))
    ensures forall i :: 0 <= i < count ==>
      Words(from, count)[i].folded != "" && t.norm(Words(from, count)[i].text) == Repeated('z', from + i)
  {
    var labels := Words(from, count);
    forall i | 0 <= i < count
      ensures |labels[i].folded| == from + i && t.norm(labels[i].text) == Repeated('z', from + i)
    {
      assert Plain(labels[i].text);
    }
  }

  /** Two members with twenty and five avoid labels, and these must-visit labels of the second. */
  function LongTrip(mustVisit: seq<Label>): Trip {
    Trip("city", 1000, [Person(1000, [], [], Words(1, 20)), Person(1000, [], mustVisit, Words(21, 5))],
         Recommendation.Meals(false, false))
  }

  lemma LongTripLists(mustVisit: seq<Label>)
    ensures Avoids(LongTrip(mustVisit).people) == Words(1, 25) && MustVisits(LongTrip(mustVisit).people) == mustVisit
  {
    var people := LongTrip(mustVisit).people;
    assert people[1..][1..] == [];
    assert Avoids(people[1..]) == people[1].avoid + [];
    assert Avoids(people) == people[0].avoid + people[1].avoid;
    assert MustVisits(people[1..]) == people[1].mustVisit + [];
    assert MustVisits(people) == [] + mustVisit;
  }

  lemma LongTripAvoids(mustVisit: seq<Label>, t: Texts)
    requires PlainStays(t)
    ensures Avoids(LongTrip(mustVisit).people) == Words(1, 25) && MustVisits(LongTrip(mustVisit).people) == mustVisit
    ensures Avoided(LongTrip(mustVisit)) == Words(1, 24)
  {
    LongTripLists(mustVisit);
    hide Avoids, MustVisits;
    WordsApart(1, 25, t);
    Recommendation.AllFirst(Words(1, 25), 25);
    assert Words(1, 25)[..25] == Words(1, 25) && Words(1, 25)[..24] == Words(1, 24);
  }

  lemma LongTripTexts(mustVisit: seq<Label>, t: Texts, k: nat)
    requires PlainStays(t)
    ensures Repeated('z', k) in EnforcedTexts(LongTrip(mustVisit), t) <==> 1 <= k <= 24
  {
    hide Avoided;
    LongTripAvoids(mustVisit, t);
    WordsApart(1, 24, t);
    var texts := EnforcedTexts(LongTrip(mustVisit), t);
    if 1 <= k <= 24 {
      assert texts[k - 1] == Repeated('z', k);
    }
    if Repeated('z', k) in texts {
      var i :| 0 <= i < |texts| && texts[i] == Repeated('z', k);
      assert |texts[i]| == i + 1;
    }
  }

  lemma PlainByCode(rules: Rules, t: Texts)
    requires AsWritten(rules, t)
    ensures PlainStays(t)
  {
  }

  /** Without must-visit labels, a real place whose id is the second member's last avoid label is returned. */
  lemma TwentyFifthAvoidIgnored(rules: Rules, t: Texts) returns (places: seq<Place>, r: seq<Place>, p: Place)
    requires AsWritten(rules, t)
    ensures Breaks(places, LongTrip([]), rules, t, r, p, 24)
    ensures p.placeId == Repeated('z', 25) && !AvoidsHonoured(LongTrip([]), rules, t)
  {
    hide Avoided, EnforcedTexts, Answers, AsWritten;
    var trip := LongTrip([]);
    assert PlainStays(t) by { PlainByCode(rules, t); }
    LongTripAvoids([], t);
    LongTripTexts([], t, 25);
    WordsApart(1, 25, t);
    assert Required(trip) == [];
    hide Required, Avoids, MustVisits;
    places, r, p := UnenforcedReturned(trip, rules, t, 24);
  }

  /** With a must-visit label that is avoided as well the same trip is refused, so nothing breaks. */
  lemma AvoidedMustVisitRefused(rules: Rules, t: Texts)
    requires AsWritten(rules, t)
    ensures AvoidsHonoured(LongTrip(Words(1, 1)), rules, t)
  {
    var trip := LongTrip(Words(1, 1));
    LongTripAvoids(Words(1, 1), t);
    LongTripTexts(Words(1, 1), t, 1);
    WordsApart(1, 1, t);
    Recommendation.AllFirst(Words(1, 1), 1);
    assert Words(1, 1)[..1] == Words(1, 1);
    assert Required(trip)[0] == Words(1, 1)[0];
    hide Avoided, EnforcedTexts, AsWritten, AvoidsHonoured;
    assert Unservable(trip, t);
    AvoidsHonouredIff(trip, rules, t);
  }

  // ---- The code's matching exists ----------------------------------------------------------------

  const LETTERS := Texts((s: string) => s, (s: string) => false)

  /** On texts that are already normalised, with restaurants told by one category. */
  ghost function LetterRules(): Rules {
    Rules(
      (p: Place) => p.category == Some("food"), p => false, p => false,
      (p: Place, l: Label) => Matches(p.name, p.placeId, l.text),
      (p: Place, l: Label) => Satisfies(p.name, p.placeId, p.category == Some("food"), l.text, false),
      (p: Place, l: Label) => Names(p.name, p.placeId, l.text),
      (p, l) => (0, 0), (p: Place) => p.name, (p: Place) => p.placeId, (p, ls) => 0, (p, q) => 0)
  }

  lemma LetterRulesAsWritten()
    ensures AsWritten(LetterRules(), LETTERS)
  {
    hide Matches, Satisfies, Names;
    assert IsFood(LetterRules(), "food");
  }
}
