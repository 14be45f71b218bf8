/** The deterministic conflict evaluator of app/domain/hard_conflicts.py. Care profiles and their merge belong to
    modules that are not part of this model, so they enter as a port. */
module HardConflicts {
  import opened Prelude
  import opened TripDraft
  import opened Digests
  import Lex = Lexicographic

  datatype Rule =
    | BindingInvalid | FieldRequired | FieldAmbiguous | WindowOrder | CapBelowShared | MustAvoid
    | CareProfileInvalid | CareMergeUnsupported | BlocksAllDay

  datatype IssueCode = MissingCode | AmbiguousCode | InvalidCode | ConflictCode

  datatype Issue = Issue(path: Path, participant: Option<nat>, related: set<nat>, rule: Rule, code: IssueCode)

  /** The merged hard nap window, in minutes of the day, with the members it comes from. */
  datatype MergedNap = MergedNap(start: nat, end: nat, primary: nat, related: set<nat>)

  /** Merging the profiles of a group either fails on some members, or gives constraints that may hold a nap window. */
  datatype MergeResult = Unmergeable(primary: nat, related: set<nat>) | Merged(nap: Option<MergedNap>)

  /** `profileOk` tells whether a care draft builds a strict assistance profile; `merge` merges the profiles of the owners
      in order. */
  datatype CarePort = CarePort(profileOk: Care -> bool, merge: seq<(nat, Care)> -> MergeResult)

  function Owner(r: RevisionData, i: nat): nat
    requires ValidRevision(r) && i < |r.understanding.participants|
  {
    assert r.understanding.participants[i].memberKey in KeySet(r.understanding.participants);
    r.bindings[r.understanding.participants[i].memberKey]
  }

  // ---- Bindings ----------------------------------------------------------------------------

  function KeyTexts(ps: seq<Participant>): (r: seq<string>)
    ensures |r| == |ps|
  {
    seq(|ps|, i requires 0 <= i < |ps| => Lex.MemberKeyText(ps[i].memberKey))
  }

  /** `_binding_issues`: note that `sorted(revision.member_bindings)` orders the keys as text. */
  predicate BindingsValid(r: Revision, organizer: Option<nat>) {
    var expected := Lex.ExpectedKeys(|r.understanding.participants|);
    && KeyTexts(r.understanding.participants) == expected
    && Lex.Sorted(set k | k in r.bindings :: Lex.MemberKeyText(k)) == expected
    && |r.bindings.Values| == |r.bindings|
    && (organizer.Some? ==> 1 in r.bindings && r.bindings[1] == organizer.value)
  }

  function BindingIssues(r: Revision, organizer: Option<nat>): seq<Issue> {
    if BindingsValid(r, organizer) then [] else [Issue(Party, None, r.bindings.Values, BindingInvalid, InvalidCode)]
  }

  // ---- Missing and ambiguous input ---------------------------------------------------------

  function OwnerOf(r: Revision, member: Option<nat>): Option<nat> {
    if member.Some? && member.value in r.bindings then Some(r.bindings[member.value]) else None
  }

  function MissingIssues(r: Revision): (s: seq<Issue>)
    ensures |s| == |r.understanding.missing|
  {
    var ms := r.understanding.missing;
    seq(|ms|, i requires 0 <= i < |ms| =>
      Issue(ms[i].slot.path, OwnerOf(r, ms[i].slot.member), {}, FieldRequired, MissingCode))
  }

  function AmbiguityIssues(r: Revision): (s: seq<Issue>)
    ensures |s| == |r.understanding.ambiguities|
  {
    var ambiguities := r.understanding.ambiguities;
    seq(|ambiguities|, i requires 0 <= i < |ambiguities| =>
      Issue(ambiguities[i].slot.path, OwnerOf(r, ambiguities[i].slot.member), {}, FieldAmbiguous, AmbiguousCode))
  }

  // ---- Time and budget ---------------------------------------------------------------------

  predicate TimeOrdered(t: Trip) {
    t.startTime.Some? && t.endTime.Some? ==> t.startTime.value < t.endTime.value
  }

  function TimeIssues(r: Revision): seq<Issue> {
    if TimeOrdered(r.understanding.trip) then [] else [Issue(OfTrip(EndTime), None, {}, WindowOrder, InvalidCode)]
  }

  predicate CapTooLow(q: Participant, shared: Option<nat>) {
    shared.Some? && q.budgetCap.Some? && q.budgetCap.value < shared.value
  }

  /** The budget issues of the first n participants. */
  function BudgetIssues(r: Revision, n: nat): seq<Issue>
    requires n <= |r.understanding.participants|
  {
    if n == 0 then [] else
      BudgetIssues(r, n - 1) +
      (if CapTooLow(r.understanding.participants[n - 1], r.understanding.trip.budgetCents)
       then [Issue(Member(n - 1, BudgetCap), Some(Owner(r, n - 1)), {}, CapBelowShared, ConflictCode)] else [])
  }

  method CollectBudgetIssues(r: Revision) returns (issues: seq<Issue>)
    ensures issues == BudgetIssues(r, |r.understanding.participants|)
  {
    issues := [];
    var shared := r.understanding.trip.budgetCents;
    if shared.None? {
      NoSharedBudget(r, |r.understanding.participants|);
      return;
    }
    var i := 0;
    while i < |r.understanding.participants|
      invariant 0 <= i <= |r.understanding.participants|
      invariant issues == BudgetIssues(r, i)
    {
      var cap := r.understanding.participants[i].budgetCap;
      if cap.Some? && cap.value < shared.value {
        issues := issues + [Issue(Member(i, BudgetCap), Some(Owner(r, i)), {}, CapBelowShared, ConflictCode)];
      }
      i := i + 1;
    }
  }

  lemma NoSharedBudget(r: Revision, n: nat)
    requires n <= |r.understanding.participants| && r.understanding.trip.budgetCents.None?
    ensures BudgetIssues(r, n) == []
  {
  }

  // ---- Places ------------------------------------------------------------------------------

  /** One entry of the `must` or `avoid` list built by `_place_issues`. */
  datatype PlaceRef = PlaceRef(folded: string, owner: nat, path: Path)

  function MemberPlaceRefs(r: Revision, l: ListField, i: nat): (refs: seq<PlaceRef>)
    requires i < |r.understanding.participants|
    ensures |refs| == |r.understanding.participants[i].Values(l)|
    ensures forall k :: 0 <= k < |refs| ==>
      refs[k] == PlaceRef(r.understanding.participants[i].Values(l)[k].folded, Owner(r, i), Member(i, Item(l, k)))
  {
    var values := r.understanding.participants[i].Values(l);
    seq(|values|, k requires 0 <= k < |values| => PlaceRef(values[k].folded, Owner(r, i), Member(i, Item(l, k))))
  }

  function PlaceRefs(r: Revision, l: ListField, n: nat): seq<PlaceRef>
    requires n <= |r.understanding.participants|
  {
    if n == 0 then [] else PlaceRefs(r, l, n - 1) + MemberPlaceRefs(r, l, n - 1)
  }

  lemma {:induction false} PlaceRefListed(r: Revision, l: ListField, n: nat, i: nat, k: nat)
    requires i < n <= |r.understanding.participants| && k < |r.understanding.participants[i].Values(l)|
    ensures PlaceRef(r.understanding.participants[i].Values(l)[k].folded, Owner(r, i), Member(i, Item(l, k))) in PlaceRefs(r, l, n)
  {
    if i < n - 1 {
      PlaceRefListed(r, l, n - 1, i, k);
    } else {
      assert MemberPlaceRefs(r, l, i)[k] in MemberPlaceRefs(r, l, i);
    }
  }

  lemma {:induction false} PlaceRefOrigin(r: Revision, l: ListField, n: nat, ref: PlaceRef) returns (i: nat, k: nat)
    requires n <= |r.understanding.participants| && ref in PlaceRefs(r, l, n)
    ensures i < n && k < |r.understanding.participants[i].Values(l)|
    ensures ref.folded == r.understanding.participants[i].Values(l)[k].folded
  {
    var mine := MemberPlaceRefs(r, l, n - 1);
    if ref in mine {
      i := n - 1;
      k :| 0 <= k < |mine| && mine[k] == ref;
    } else {
      i, k := PlaceRefOrigin(r, l, n - 1, ref);
    }
  }

  function Clash(must: PlaceRef, avoid: PlaceRef): Issue {
    Issue(avoid.path, Some(avoid.owner), if must.owner == avoid.owner then {} else {must.owner}, MustAvoid, ConflictCode)
  }

  function ClashesWith(must: PlaceRef, avoid: seq<PlaceRef>): seq<Issue> {
    if avoid == [] then [] else
      (if must.folded == avoid[0].folded then [Clash(must, avoid[0])] else []) + ClashesWith(must, avoid[1..])
  }

  function Clashes(must: seq<PlaceRef>, avoid: seq<PlaceRef>): seq<Issue> {
    if must == [] then [] else ClashesWith(must[0], avoid) + Clashes(must[1..], avoid)
  }

  function PlaceIssues(r: Revision): seq<Issue> {
    var n := |r.understanding.participants|;
    Clashes(PlaceRefs(r, MustVisit, n), PlaceRefs(r, AvoidPlaces, n))
  }

  lemma {:induction false} ClashesWithEmptyIff(must: PlaceRef, avoid: seq<PlaceRef>)
    ensures ClashesWith(must, avoid) == [] <==> forall a :: a in avoid ==> must.folded != a.folded
  {
    hide Clash;
    if avoid != [] {
      ClashesWithEmptyIff(must, avoid[1..]);
      assert avoid == [avoid[0]] + avoid[1..];
    }
  }

  lemma {:induction false} ClashesEmptyIff(must: seq<PlaceRef>, avoid: seq<PlaceRef>)
    ensures Clashes(must, avoid) == [] <==> forall m, a :: m in must && a in avoid ==> m.folded != a.folded
  {
    if must != [] {
      ClashesWithEmptyIff(must[0], avoid);
      ClashesEmptyIff(must[1..], avoid);
      assert must == [must[0]] + must[1..];
    }
  }

  /** No member avoids a place some member must visit, after normalisation. */
  ghost predicate MustAvoidDisjoint(ps: seq<Participant>) {
    forall i, j, k, m :: 0 <= i < |ps| && 0 <= j < |ps| && 0 <= k < |ps[i].mustVisit| && 0 <= m < |ps[j].avoidPlaces| ==>
      ps[i].mustVisit[k].folded != ps[j].avoidPlaces[m].folded
  }

  lemma PlaceIssuesEmptyIff(r: Revision)
    ensures PlaceIssues(r) == [] <==> MustAvoidDisjoint(r.understanding.participants)
  {
    var ps := r.understanding.participants;
    var must, avoid := PlaceRefs(r, MustVisit, |ps|), PlaceRefs(r, AvoidPlaces, |ps|);
    ClashesEmptyIff(must, avoid);
    assert PlaceIssues(r) == Clashes(must, avoid);
    hide PlaceRefs, Clashes, PlaceIssues;
    if Clashes(must, avoid) == [] {
      forall i, j, k, m | 0 <= i < |ps| && 0 <= j < |ps| && 0 <= k < |ps[i].mustVisit| && 0 <= m < |ps[j].avoidPlaces|
        ensures ps[i].mustVisit[k].folded != ps[j].avoidPlaces[m].folded
      {
        assert ps[i].mustVisit == ps[i].Values(MustVisit) && ps[j].avoidPlaces == ps[j].Values(AvoidPlaces);
        PlaceRefListed(r, MustVisit, |ps|, i, k);
        PlaceRefListed(r, AvoidPlaces, |ps|, j, m);
      }
    } else {
      var a, b :| a in must && b in avoid && a.folded == b.folded;
      var i, k := PlaceRefOrigin(r, MustVisit, |ps|, a);
      var j, m := PlaceRefOrigin(r, AvoidPlaces, |ps|, b);
      assert ps[i].mustVisit[k].folded == ps[j].avoidPlaces[m].folded;
    }
  }

  // ---- Care --------------------------------------------------------------------------------

  predicate CareOk(q: Participant, port: CarePort) {
    q.care.Some? && q.care.value.hint.Some? && port.profileOk(q.care.value)
  }

  function ProfileIssues(r: Revision, port: CarePort, n: nat): seq<Issue>
    requires n <= |r.understanding.participants|
  {
    if n == 0 then [] else
      ProfileIssues(r, port, n - 1) +
      (if CareOk(r.understanding.participants[n - 1], port) then []
       else [Issue(Member(n - 1, CareOf(AssistanceHint)), Some(Owner(r, n - 1)), {}, CareProfileInvalid, InvalidCode)])
  }

  /** The owners with their care drafts, in order; members without one are left out. */
  function Profiles(r: Revision, n: nat): seq<(nat, Care)>
    requires n <= |r.understanding.participants|
  {
    if n == 0 then [] else
      var care := r.understanding.participants[n - 1].care;
      Profiles(r, n - 1) + (if care.Some? then [(Owner(r, n - 1), care.value)] else [])
  }

  /** The nap window covers the whole day of the trip. */
  predicate BlocksAllDay(nap: MergedNap, trip: Trip) {
    && trip.startTime.Some? && trip.endTime.Some?
    && nap.start <= trip.startTime.value && nap.end >= trip.endTime.value
  }

  function MergeIssues(merged: MergeResult, trip: Trip): seq<Issue> {
    match merged
    case Unmergeable(primary, related) => [Issue(Party, Some(primary), related, CareMergeUnsupported, ConflictCode)]
    case Merged(None) => []
    case Merged(Some(nap)) =>
      if BlocksAllDay(nap, trip)
      then [Issue(OfTrip(EndTime), Some(nap.primary), nap.related, Rule.BlocksAllDay, ConflictCode)]
      else []
  }

  function CareIssues(r: Revision, port: CarePort): seq<Issue> {
    var n := |r.understanding.participants|;
    var profile := ProfileIssues(r, port, n);
    if profile != [] then profile else MergeIssues(port.merge(Profiles(r, n)), r.understanding.trip)
  }

  // ---- The evaluator -----------------------------------------------------------------------

  /** The issues of a revision, before they are sorted for display. */
  function Evaluate(r: Revision, organizer: Option<nat>, port: CarePort): seq<Issue> {
    BindingIssues(r, organizer) + MissingIssues(r) + AmbiguityIssues(r) + TimeIssues(r)
    + BudgetIssues(r, |r.understanding.participants|) + PlaceIssues(r) + CareIssues(r, port)
  }

  lemma {:induction false} BudgetIssuesEmptyIff(r: Revision, n: nat)
    requires n <= |r.understanding.participants|
    ensures BudgetIssues(r, n) == [] <==>
      forall i :: 0 <= i < n ==> !CapTooLow(r.understanding.participants[i], r.understanding.trip.budgetCents)
  {
    if n > 0 {
      BudgetIssuesEmptyIff(r, n - 1);
    }
  }

  lemma {:induction false} ProfileIssuesEmptyIff(r: Revision, port: CarePort, n: nat)
    requires n <= |r.understanding.participants|
    ensures ProfileIssues(r, port, n) == [] <==> forall i :: 0 <= i < n ==> CareOk(r.understanding.participants[i], port)
  {
    if n > 0 {
      ProfileIssuesEmptyIff(r, port, n - 1);
    }
  }

  lemma {:induction false} ValuesOfInjective(m: map<nat, nat>)
    requires Injective(m)
    ensures |m.Values| == |m|
  {
    if m == map[] {
      assert m.Values == {};
    } else {
      var k :| k in m;
      var rest := m - {k};
      ValuesOfInjective(rest);
      forall v | v in m.Values
        ensures v in rest.Values + {m[k]}
      {
        var j :| j in m && m[j] == v;
        assert j == k || (j in rest && rest[j] == v);
      }
      forall v | v in rest.Values
        ensures v in m.Values && v != m[k]
      {
        var j :| j in rest && rest[j] == v;
        assert j in m && m[j] == v;
      }
      assert m.Values == rest.Values + {m[k]};
      assert m.Keys == rest.Keys + {k};
    }
  }

  lemma SequentialKeySet(ps: seq<Participant>)
    requires SequentialKeys(ps)
    ensures forall k: nat :: k in KeySet(ps) <==> 1 <= k <= |ps|
  {
    forall k: nat | 1 <= k <= |ps|
      ensures k in KeySet(ps)
    {
      assert ps[k - 1].memberKey == k;
    }
  }

  lemma KeyTextsExpected(ps: seq<Participant>)
    requires SequentialKeys(ps)
    ensures KeyTexts(ps) == Lex.ExpectedKeys(|ps|)
  {
  }

  lemma BindingTexts(r: Revision, x: string)
    requires SequentialKeys(r.understanding.participants)
    ensures x in Lex.ExpectedKeys(|r.understanding.participants|) <==>
      x in set k | k in r.bindings :: Lex.MemberKeyText(k)
  {
    var ps := r.understanding.participants;
    var expected := Lex.ExpectedKeys(|ps|);
    SequentialKeySet(ps);
    if x in expected {
      var i :| 0 <= i < |ps| && expected[i] == x;
      assert i + 1 in r.bindings;
    }
    if x in set k | k in r.bindings :: Lex.MemberKeyText(k) {
      var k :| k in r.bindings && x == Lex.MemberKeyText(k);
      assert expected[k - 1] == x;
    }
  }

  /** The binding rule, in closed form: keys member-1..member-N in order, the organizer bound to member-1, and at
      most NINE members. Larger groups are always rejected, because the binding keys are compared in text order. */
  lemma BindingsValidIff(r: Revision, organizer: Option<nat>)
    requires SequentialKeys(r.understanding.participants)
    ensures BindingsValid(r, organizer) <==>
      && |r.understanding.participants| <= 9
      && (organizer.Some? ==> 1 in r.bindings && r.bindings[1] == organizer.value)
  {
    var n := |r.understanding.participants|;
    var texts := set k | k in r.bindings :: Lex.MemberKeyText(k);
    KeyTextsExpected(r.understanding.participants);
    ValuesOfInjective(r.bindings);
    Lex.ExpectedKeysAscendIff(n);
    Lex.SortedAscends(texts);
    if n <= 9 {
      forall x
        ensures x in Lex.ExpectedKeys(n) <==> x in texts
      {
        BindingTexts(r, x);
      }
      Lex.SortedUnique(texts, Lex.ExpectedKeys(n));
    }
  }

  ghost predicate CapsRespected(u: Proposal) {
    forall i :: 0 <= i < |u.participants| && u.participants[i].budgetCap.Some? && u.trip.budgetCents.Some? ==>
      u.participants[i].budgetCap.value >= u.trip.budgetCents.value
  }

  /** Every member has a care draft with a stated type that builds a profile. */
  ghost predicate CareSettled(ps: seq<Participant>, port: CarePort) {
    forall i :: 0 <= i < |ps| ==> ps[i].care.Some? && ps[i].care.value.hint.Some? && port.profileOk(ps[i].care.value)
  }

  /** The profiles merge, and no merged nap window covers the whole day. */
  ghost predicate CareFitsDay(r: Revision, port: CarePort) {
    var merged := port.merge(Profiles(r, |r.understanding.participants|));
    && merged.Merged?
    && (merged.nap.Some? && r.understanding.trip.startTime.Some? && r.understanding.trip.endTime.Some? ==>
          || r.understanding.trip.startTime.value < merged.nap.value.start
          || merged.nap.value.end < r.understanding.trip.endTime.value)
  }

  /** What an empty evaluation means for a proposal with sequential keys, in both directions. */
  ghost predicate ConflictFree(r: Revision, organizer: Option<nat>, port: CarePort) {
    var u := r.understanding;
    && |u.participants| <= 9
    && (organizer.Some? ==> 1 in r.bindings && r.bindings[1] == organizer.value)
    && u.missing == [] && u.ambiguities == []
    && (u.trip.startTime.Some? && u.trip.endTime.Some? ==> u.trip.startTime.value < u.trip.endTime.value)
    && CapsRespected(u)
    && MustAvoidDisjoint(u.participants)
    && CareSettled(u.participants, port)
    && CareFitsDay(r, port)
  }

  lemma EvaluateParts(r: Revision, organizer: Option<nat>, port: CarePort)
    ensures Evaluate(r, organizer, port) == [] <==>
      && BindingIssues(r, organizer) == [] && MissingIssues(r) == [] && AmbiguityIssues(r) == [] && TimeIssues(r) == []
      && BudgetIssues(r, |r.understanding.participants|) == [] && PlaceIssues(r) == [] && CareIssues(r, port) == []
  {
    assert |Evaluate(r, organizer, port)| == |BindingIssues(r, organizer)| + |MissingIssues(r)| + |AmbiguityIssues(r)|
      + |TimeIssues(r)| + |BudgetIssues(r, |r.understanding.participants|)| + |PlaceIssues(r)| + |CareIssues(r, port)|;
  }

  lemma BudgetAndCareIff(r: Revision, port: CarePort)
    ensures BudgetIssues(r, |r.understanding.participants|) == [] <==> CapsRespected(r.understanding)
    ensures CareIssues(r, port) == [] <==> CareSettled(r.understanding.participants, port) && CareFitsDay(r, port)
  {
    var n := |r.understanding.participants|;
    BudgetIssuesEmptyIff(r, n);
    ProfileIssuesEmptyIff(r, port, n);
  }

  lemma SimplePartsIff(r: Revision, organizer: Option<nat>)
    requires SequentialKeys(r.understanding.participants)
    ensures BindingIssues(r, organizer) == [] <==>
      |r.understanding.participants| <= 9 && (organizer.Some? ==> 1 in r.bindings && r.bindings[1] == organizer.value)
    ensures MissingIssues(r) == [] <==> r.understanding.missing == []
    ensures AmbiguityIssues(r) == [] <==> r.understanding.ambiguities == []
    ensures var trip := r.understanding.trip;
      TimeIssues(r) == [] <==> (trip.startTime.Some? && trip.endTime.Some? ==> trip.startTime.value < trip.endTime.value)
  {
    BindingsValidIff(r, organizer);
    assert |MissingIssues(r)| == |r.understanding.missing|;
    assert |AmbiguityIssues(r)| == |r.understanding.ambiguities|;
  }

  lemma EvaluateEmptyIff(r: Revision, organizer: Option<nat>, port: CarePort)
    requires SequentialKeys(r.understanding.participants)
    ensures Evaluate(r, organizer, port) == [] <==> ConflictFree(r, organizer, port)
  {
    EvaluateParts(r, organizer, port);
    SimplePartsIff(r, organizer);
    BudgetAndCareIff(r, port);
    PlaceIssuesEmptyIff(r);
  }

  /** A group of ten or more is never free of issues, whatever its members answer. */
  lemma LargeGroupsNeverReady(r: Revision, organizer: Option<nat>, port: CarePort)
    requires SequentialKeys(r.understanding.participants) && |r.understanding.participants| >= 10
    ensures Evaluate(r, organizer, port) != []
  {
    EvaluateEmptyIff(r, organizer, port);
  }
}
