/** Which issues the evaluator reports, issue by issue: what is wrong, where, and whom it concerns. */
module ConflictIssues {
  import opened Prelude
  import opened TripDraft
  import opened Digests
  import opened HardConflicts

  /** The member bound to the key, if the entry names a bound member at all. */
  predicate Concerns(r: Revision, member: Option<nat>, who: Option<nat>) {
    if member.Some? && member.value in r.bindings then who == Some(r.bindings[member.value]) else who == None
  }

  /** The participant at the position is bound to `who`. */
  predicate Bound(r: Revision, i: nat, who: nat) {
    && i < |r.understanding.participants|
    && r.understanding.participants[i].memberKey in r.bindings
    && r.bindings[r.understanding.participants[i].memberKey] == who
  }

  predicate CapBelow(r: Revision, i: nat, who: nat) {
    Bound(r, i, who) &&
    var cap, shared := r.understanding.participants[i].budgetCap, r.understanding.trip.budgetCents;
    cap.Some? && shared.Some? && cap.value < shared.value
  }

  predicate SamePlace(r: Revision, i: nat, k: nat, must: nat, j: nat, m: nat, avoid: nat) {
    Bound(r, i, must) && Bound(r, j, avoid) &&
    var ps := r.understanding.participants;
    k < |ps[i].mustVisit| && m < |ps[j].avoidPlaces| && ps[i].mustVisit[k].folded == ps[j].avoidPlaces[m].folded
  }

  predicate NoProfile(r: Revision, port: CarePort, i: nat, who: nat) {
    Bound(r, i, who) &&
    var care := r.understanding.participants[i].care;
    care.None? || care.value.hint.None? || !port.profileOk(care.value)
  }

  /** The care drafts of all members with their owners, in order. */
  ghost predicate GroupProfiles(r: Revision, profiles: seq<(nat, Care)>) {
    && |profiles| == |r.understanding.participants|
    && forall i :: 0 <= i < |profiles| ==>
         Bound(r, i, profiles[i].0) && r.understanding.participants[i].care == Some(profiles[i].1)
  }

  /** Every member builds a profile, and this is what merging them gives. */
  ghost predicate GroupMerge(r: Revision, port: CarePort, merged: MergeResult) {
    && (forall i, who :: !NoProfile(r, port, i, who))
    && exists profiles :: GroupProfiles(r, profiles) && merged == port.merge(profiles)
  }

  /** What each rule says about the revision. */
  ghost predicate Tells(r: Revision, organizer: Option<nat>, port: CarePort, x: Issue) {
    var u := r.understanding;
    match x.rule
    case BindingInvalid =>
      && x == Issue(Party, None, r.bindings.Values, BindingInvalid, InvalidCode)
      && (|u.participants| > 9 || (organizer.Some? && !(1 in r.bindings && r.bindings[1] == organizer.value)))
    case FieldRequired =>
      exists i :: 0 <= i < |u.missing| &&
        Concerns(r, u.missing[i].slot.member, x.participant) &&
        x == Issue(u.missing[i].slot.path, x.participant, {}, FieldRequired, MissingCode)
    case FieldAmbiguous =>
      exists i :: 0 <= i < |u.ambiguities| &&
        Concerns(r, u.ambiguities[i].slot.member, x.participant) &&
        x == Issue(u.ambiguities[i].slot.path, x.participant, {}, FieldAmbiguous, AmbiguousCode)
    case WindowOrder =>
      && x == Issue(OfTrip(EndTime), None, {}, WindowOrder, InvalidCode)
      && u.trip.startTime.Some? && u.trip.endTime.Some? && u.trip.endTime.value <= u.trip.startTime.value
    case CapBelowShared =>
      exists i, who :: CapBelow(r, i, who) && x == Issue(Member(i, BudgetCap), Some(who), {}, CapBelowShared, ConflictCode)
    case MustAvoid =>
      exists i, k, must, j, m, avoid :: SamePlace(r, i, k, must, j, m, avoid) &&
        x == Issue(Member(j, Item(AvoidPlaces, m)), Some(avoid), {must} - {avoid}, MustAvoid, ConflictCode)
    case CareProfileInvalid =>
      exists i, who :: NoProfile(r, port, i, who) &&
        x == Issue(Member(i, CareOf(AssistanceHint)), Some(who), {}, CareProfileInvalid, InvalidCode)
    case CareMergeUnsupported =>
      exists merged: MergeResult :: GroupMerge(r, port, merged) && merged.Unmergeable? &&
        x == Issue(Party, Some(merged.primary), merged.related, CareMergeUnsupported, ConflictCode)
    case BlocksAllDay =>
      exists merged: MergeResult :: GroupMerge(r, port, merged) && merged.Merged? && merged.nap.Some? &&
        var nap := merged.nap.value;
        && u.trip.startTime.Some? && u.trip.endTime.Some?
        && nap.start <= u.trip.startTime.value && u.trip.endTime.value <= nap.end
        && x == Issue(OfTrip(EndTime), Some(nap.primary), nap.related, Rule.BlocksAllDay, ConflictCode)
  }

  // ---- Rule by rule ------------------------------------------------------------------------

  lemma BoundOwner(r: Revision, i: nat, who: nat)
    requires i < |r.understanding.participants|
    ensures Bound(r, i, who) <==> who == Owner(r, i)
  {
    assert r.understanding.participants[i].memberKey in KeySet(r.understanding.participants);
  }

  lemma OnlyOwner(r: Revision, i: nat)
    requires i < |r.understanding.participants|
    ensures forall who: nat :: Bound(r, i, who) <==> who == Owner(r, i)
  {
    forall who: nat
      ensures Bound(r, i, who) <==> who == Owner(r, i)
    {
      BoundOwner(r, i, who);
    }
  }

  lemma InputIssuesAre(r: Revision, organizer: Option<nat>, port: CarePort, x: Issue)
    ensures x in MissingIssues(r) <==> x.rule.FieldRequired? && Tells(r, organizer, port, x)
    ensures x in AmbiguityIssues(r) <==> x.rule.FieldAmbiguous? && Tells(r, organizer, port, x)
  {
    var missing, ambiguities := MissingIssues(r), AmbiguityIssues(r);
    if x in missing {
      var i :| 0 <= i < |missing| && missing[i] == x;
      assert Concerns(r, r.understanding.missing[i].slot.member, x.participant);
    }
    if x.rule.FieldRequired? && Tells(r, organizer, port, x) {
      var u := r.understanding;
      var i :| 0 <= i < |u.missing| && Concerns(r, u.missing[i].slot.member, x.participant) &&
               x == Issue(u.missing[i].slot.path, x.participant, {}, FieldRequired, MissingCode);
      assert missing[i] == x;
    }
    if x in ambiguities {
      var i :| 0 <= i < |ambiguities| && ambiguities[i] == x;
      assert Concerns(r, r.understanding.ambiguities[i].slot.member, x.participant);
    }
    if x.rule.FieldAmbiguous? && Tells(r, organizer, port, x) {
      var u := r.understanding;
      var i :| 0 <= i < |u.ambiguities| && Concerns(r, u.ambiguities[i].slot.member, x.participant) &&
               x == Issue(u.ambiguities[i].slot.path, x.participant, {}, FieldAmbiguous, AmbiguousCode);
      assert ambiguities[i] == x;
    }
  }

  lemma {:induction false} BudgetIssuesAre(r: Revision, n: nat, x: Issue)
    requires n <= |r.understanding.participants|
    ensures x in BudgetIssues(r, n) <==>
      exists i: nat, who: nat :: i < n && CapBelow(r, i, who) && x == Issue(Member(i, BudgetCap), Some(who), {}, CapBelowShared, ConflictCode)
  {
    if n > 0 {
      BudgetIssuesAre(r, n - 1, x);
      OnlyOwner(r, n - 1);
      assert CapBelow(r, n - 1, Owner(r, n - 1)) <==> CapTooLow(r.understanding.participants[n - 1], r.understanding.trip.budgetCents);
    }
  }

  lemma {:induction false} ProfileIssuesAre(r: Revision, port: CarePort, n: nat, x: Issue)
    requires n <= |r.understanding.participants|
    ensures x in ProfileIssues(r, port, n) <==>
      exists i: nat, who: nat :: i < n && NoProfile(r, port, i, who) &&
        x == Issue(Member(i, CareOf(AssistanceHint)), Some(who), {}, CareProfileInvalid, InvalidCode)
  {
    if n > 0 {
      ProfileIssuesAre(r, port, n - 1, x);
      OnlyOwner(r, n - 1);
      assert NoProfile(r, port, n - 1, Owner(r, n - 1)) <==> !CareOk(r.understanding.participants[n - 1], port);
    }
  }

  predicate Ref(r: Revision, l: ListField, i: nat, k: nat, who: nat, ref: PlaceRef) {
    Bound(r, i, who) &&
    var values := r.understanding.participants[i].Values(l);
    k < |values| && ref == PlaceRef(values[k].folded, who, Member(i, Item(l, k)))
  }

  lemma MemberRefsAre(r: Revision, l: ListField, i: nat, ref: PlaceRef)
    requires i < |r.understanding.participants|
    ensures ref in MemberPlaceRefs(r, l, i) <==> exists k: nat, who: nat :: Ref(r, l, i, k, who, ref)
  {
    var mine := MemberPlaceRefs(r, l, i);
    OnlyOwner(r, i);
    if ref in mine {
      var k :| 0 <= k < |mine| && mine[k] == ref;
      assert Ref(r, l, i, k, Owner(r, i), ref);
    }
    if k: nat, who: nat :| Ref(r, l, i, k, who, ref) {
      assert mine[k] == ref;
    }
  }

  lemma {:induction false} PlaceRefsAre(r: Revision, l: ListField, n: nat, ref: PlaceRef)
    requires n <= |r.understanding.participants|
    ensures ref in PlaceRefs(r, l, n) <==> exists i: nat, k: nat, who: nat :: i < n && Ref(r, l, i, k, who, ref)
  {
    hide Ref, MemberPlaceRefs;
    if n > 0 {
      var last: nat := n - 1;
      PlaceRefsAre(r, l, last, ref);
      MemberRefsAre(r, l, last, ref);
    }
  }

  lemma {:induction false} ClashesWithAre(must: PlaceRef, avoid: seq<PlaceRef>, x: Issue)
    ensures x in ClashesWith(must, avoid) <==> exists a :: a in avoid && must.folded == a.folded && x == Clash(must, a)
  {
    hide Clash;
    if avoid != [] {
      ClashesWithAre(must, avoid[1..], x);
      assert forall a :: a in avoid <==> a == avoid[0] || a in avoid[1..];
    }
  }

  lemma {:induction false} ClashesAre(must: seq<PlaceRef>, avoid: seq<PlaceRef>, x: Issue)
    ensures x in Clashes(must, avoid) <==>
      exists m, a :: m in must && a in avoid && m.folded == a.folded && x == Clash(m, a)
  {
    hide Clash, ClashesWith;
    if must != [] {
      ClashesWithAre(must[0], avoid, x);
      ClashesAre(must[1..], avoid, x);
      assert forall m :: m in must <==> m == must[0] || m in must[1..];
    }
  }

  ghost predicate PlaceClash(r: Revision, x: Issue) {
    exists i, k, must, j, m, avoid :: SamePlace(r, i, k, must, j, m, avoid) &&
      x == Issue(Member(j, Item(AvoidPlaces, m)), Some(avoid), {must} - {avoid}, MustAvoid, ConflictCode)
  }

  lemma PlaceIssuesAre(r: Revision, x: Issue)
    ensures x in PlaceIssues(r) <==> PlaceClash(r, x)
  {
    hide PlaceRefs, Clashes;
    var ps, n := r.understanding.participants, |r.understanding.participants|;
    ClashesAre(PlaceRefs(r, MustVisit, n), PlaceRefs(r, AvoidPlaces, n), x);
    if x in PlaceIssues(r) {
      var a, b :| a in PlaceRefs(r, MustVisit, n) && b in PlaceRefs(r, AvoidPlaces, n) && a.folded == b.folded && x == Clash(a, b);
      PlaceRefsAre(r, MustVisit, n, a);
      PlaceRefsAre(r, AvoidPlaces, n, b);
      var i: nat, k: nat, must: nat :| i < n && Ref(r, MustVisit, i, k, must, a);
      var j: nat, m: nat, avoid: nat :| j < n && Ref(r, AvoidPlaces, j, m, avoid, b);
      assert SamePlace(r, i, k, must, j, m, avoid);
      assert x.related == {must} - {avoid};
    }
    if i: nat, k: nat, must: nat, j: nat, m: nat, avoid: nat :|
        (SamePlace(r, i, k, must, j, m, avoid) &&
         x == Issue(Member(j, Item(AvoidPlaces, m)), Some(avoid), {must} - {avoid}, MustAvoid, ConflictCode)) {
      var a := PlaceRef(ps[i].mustVisit[k].folded, must, Member(i, Item(MustVisit, k)));
      var b := PlaceRef(ps[j].avoidPlaces[m].folded, avoid, Member(j, Item(AvoidPlaces, m)));
      PlaceRefsAre(r, MustVisit, n, a);
      PlaceRefsAre(r, AvoidPlaces, n, b);
      assert Ref(r, MustVisit, i, k, must, a) && Ref(r, AvoidPlaces, j, m, avoid, b);
      assert x == Clash(a, b);
    }
  }

  lemma {:induction false} ProfilesAre(r: Revision, n: nat)
    requires n <= |r.understanding.participants|
    requires forall i :: 0 <= i < n ==> r.understanding.participants[i].care.Some?
    ensures |Profiles(r, n)| == n
    ensures forall i :: 0 <= i < n ==>
      Profiles(r, n)[i] == (Owner(r, i), r.understanding.participants[i].care.value)
  {
    if n > 0 {
      ProfilesAre(r, n - 1);
    }
  }

  /** With every profile built, the merge is the merge of all care drafts with their owners, in order. */
  lemma GroupMergeIs(r: Revision, port: CarePort, merged: MergeResult)
    requires forall i :: 0 <= i < |r.understanding.participants| ==> CareOk(r.understanding.participants[i], port)
    ensures GroupMerge(r, port, merged) <==> merged == port.merge(Profiles(r, |r.understanding.participants|))
  {
    var n := |r.understanding.participants|;
    ProfilesAre(r, n);
    hide Profiles;
    var all := Profiles(r, n);
    forall i: nat | i < n
      ensures Bound(r, i, Owner(r, i))
    {
      BoundOwner(r, i, Owner(r, i));
    }
    assert GroupProfiles(r, all);
    forall profiles: seq<(nat, Care)> | GroupProfiles(r, profiles)
      ensures profiles == all
    {
      forall i: nat | i < n
        ensures profiles[i] == all[i]
      {
        BoundOwner(r, i, profiles[i].0);
      }
    }
  }

  lemma CareIssuesAre(r: Revision, organizer: Option<nat>, port: CarePort, x: Issue)
    ensures x in CareIssues(r, port) <==>
      (x.rule.CareProfileInvalid? || x.rule.CareMergeUnsupported? || x.rule.BlocksAllDay?) && Tells(r, organizer, port, x)
  {
    var n := |r.understanding.participants|;
    hide Profiles;
    ProfileIssuesEmptyIff(r, port, n);
    ProfileIssuesAre(r, port, n, x);
    hide ProfileIssues, GroupProfiles;
    if forall i :: 0 <= i < n ==> CareOk(r.understanding.participants[i], port) {
      forall merged
        ensures GroupMerge(r, port, merged) <==> merged == port.merge(Profiles(r, n))
      {
        GroupMergeIs(r, port, merged);
      }
    } else {
      var i :| 0 <= i < n && !CareOk(r.understanding.participants[i], port);
      BoundOwner(r, i, Owner(r, i));
      assert NoProfile(r, port, i, Owner(r, i));
    }
  }

  lemma TripIssuesAre(r: Revision, organizer: Option<nat>, port: CarePort, x: Issue)
    requires SequentialKeys(r.understanding.participants)
    ensures x in BindingIssues(r, organizer) <==> x.rule.BindingInvalid? && Tells(r, organizer, port, x)
    ensures x in TimeIssues(r) <==> x.rule.WindowOrder? && Tells(r, organizer, port, x)
  {
    hide BindingsValid;
    BindingsValidIff(r, organizer);
  }

  lemma MemberIssuesAre(r: Revision, organizer: Option<nat>, port: CarePort, x: Issue)
    ensures x in BudgetIssues(r, |r.understanding.participants|) <==> x.rule.CapBelowShared? && Tells(r, organizer, port, x)
    ensures x in PlaceIssues(r) <==> x.rule.MustAvoid? && Tells(r, organizer, port, x)
  {
    hide BudgetIssues, PlaceIssues;
    BudgetIssuesAre(r, |r.understanding.participants|, x);
    PlaceIssuesAre(r, x);
  }

  lemma InOneOf(a: seq<Issue>, b: seq<Issue>, c: seq<Issue>, d: seq<Issue>, x: Issue)
    ensures x in a + b + c + d <==> x in a || x in b || x in c || x in d
  {
  }

  /** The evaluator reports exactly these issues. */
  lemma IssuesAre(r: Revision, organizer: Option<nat>, port: CarePort, x: Issue)
    requires SequentialKeys(r.understanding.participants)
    ensures x in Evaluate(r, organizer, port) <==> Tells(r, organizer, port, x)
  {
    hide Tells, BindingIssues, TimeIssues, MissingIssues, AmbiguityIssues, BudgetIssues, PlaceIssues, CareIssues;
    TripIssuesAre(r, organizer, port, x);
    InputIssuesAre(r, organizer, port, x);
    MemberIssuesAre(r, organizer, port, x);
    CareIssuesAre(r, organizer, port, x);
    var front := BindingIssues(r, organizer) + MissingIssues(r) + AmbiguityIssues(r) + TimeIssues(r);
    InOneOf(BindingIssues(r, organizer), MissingIssues(r), AmbiguityIssues(r), TimeIssues(r), x);
    InOneOf(front, BudgetIssues(r, |r.understanding.participants|), PlaceIssues(r), CareIssues(r, port), x);
    assert Evaluate(r, organizer, port) ==
      front + BudgetIssues(r, |r.understanding.participants|) + PlaceIssues(r) + CareIssues(r, port);
  }
}
