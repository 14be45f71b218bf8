/** The proposal rules, the merge and the alignment, said field by field and entry by entry. */
module DraftRules {
  import opened Prelude
  import opened TripDraft
  import opened DraftRevision
  import opened DraftLaws
  import opened PartyAlignment
  import opened PartyAlignmentLaws
  import opened DraftRevisionService

  // ---- What a proposal has to satisfy ----------------------------------------------------------

  /** The field a path names is stated. */
  predicate Stated(p: Proposal, path: Path) {
    match path
    case OfTrip(CityName) => p.trip.cityName.Some?
    case OfTrip(TravelDate) => p.trip.travelDate.Some?
    case OfTrip(StartTime) => p.trip.startTime.Some?
    case OfTrip(EndTime) => p.trip.endTime.Some?
    case OfTrip(StartLocation) => p.trip.startLocation.Some?
    case OfTrip(EndLocation) => p.trip.endLocation.Some?
    case OfTrip(Budget) => p.trip.budgetCents.Some?
    case Party => false
    case Member(i, t) =>
      i < |p.participants| &&
      var q := p.participants[i];
      match t
      case Nickname => q.nickname.Some?
      case BudgetCap => q.budgetCap.Some?
      case Whole(_) => false
      case Item(Interests, k) => k < |q.interests|
      case Item(MustVisit, k) => k < |q.mustVisit|
      case Item(AvoidPlaces, k) => k < |q.avoidPlaces|
      case CareOf(f) =>
        q.care.Some? &&
        var c := q.care.value;
        match f
        case AssistanceHint => c.hint.Some?
        case ChildAge => c.childAge.Some?
        case MaxContinuousMeters => c.maxContinuousMeters.Some?
        case MaxDailyMeters => c.maxDailyMeters.Some?
        case MaxTransfers => c.maxTransfers.Some?
        case RestInterval => c.restInterval.Some?
        case NapStart => c.nap.Some? && c.nap.value.start.Some?
        case NapEnd => c.nap.Some? && c.nap.value.end.Some?
        case AvoidStairs => c.avoidStairs.Some?
  }

  predicate Apart(values: seq<Text>) {
    forall i, j :: 0 <= i < j < |values| ==> values[i].folded != values[j].folded
  }

  predicate Empty(c: Care) {
    && c.hint.None? && c.childAge.None? && c.maxContinuousMeters.None? && c.maxDailyMeters.None?
    && c.maxTransfers.None? && c.restInterval.None? && c.avoidStairs.None?
    && (c.nap.Some? ==> c.nap.value.start.None? && c.nap.value.end.None?)
  }

  /** The slot is quoted under the member it is about, or under nobody, and addresses something that exists. */
  predicate Addresses(p: Proposal, s: Slot) {
    match s.path
    case OfTrip(_) => s.member.None?
    case Party => s.member.None?
    case Member(i, t) =>
      && i < |p.participants| && s.member == Some(i + 1)
      && (t.Item? && t.list.Interests? ==> t.position < |p.participants[i].interests|)
      && (t.Item? && t.list.MustVisit? ==> t.position < |p.participants[i].mustVisit|)
      && (t.Item? && t.list.AvoidPlaces? ==> t.position < |p.participants[i].avoidPlaces|)
  }

  predicate AllAddress<T>(p: Proposal, es: seq<Entry<T>>) {
    forall i :: 0 <= i < |es| ==> Addresses(p, es[i].slot)
  }

  predicate OncePerSlot<T>(es: seq<Entry<T>>) {
    forall i, j :: 0 <= i < j < |es| ==> es[i].slot != es[j].slot
  }

  predicate Asked(p: Proposal, s: Slot, q: QuestionKey) {
    exists j :: 0 <= j < |p.questions| && p.questions[j].slot == s && p.questions[j].data.question == q
  }

  predicate Open(p: Proposal, s: Slot, q: QuestionKey) {
    || (exists i :: 0 <= i < |p.missing| && p.missing[i].slot == s && p.missing[i].data == q)
    || (exists i :: 0 <= i < |p.ambiguities| && p.ambiguities[i].slot == s && p.ambiguities[i].data.question == q)
  }

  predicate OneWay(missing: seq<Missing>, ambiguities: seq<Ambiguity>) {
    forall i, j :: 0 <= i < |missing| && 0 <= j < |ambiguities| ==> missing[i].slot != ambiguities[j].slot
  }

  predicate AskedOnce(qs: seq<Question>) {
    forall i, j :: 0 <= i < j < |qs| && qs[i].slot == qs[j].slot ==> qs[i].data.question != qs[j].data.question
  }

  predicate CandidatesOffered(p: Proposal) {
    forall i, j ::
      (0 <= i < |p.ambiguities| && 0 <= j < |p.questions| && p.questions[j].slot == p.ambiguities[i].slot &&
       p.questions[j].data.question == p.ambiguities[i].data.question) ==>
        p.questions[j].data.choices == p.ambiguities[i].data.candidates
  }

  ghost predicate MembersSound(p: Proposal) {
    && (forall i :: 0 <= i < |p.participants| ==> p.participants[i].memberKey == i + 1)
    && (forall i :: 0 <= i < |p.participants| ==>
          && Apart(p.participants[i].interests) && Apart(p.participants[i].mustVisit) && Apart(p.participants[i].avoidPlaces)
          && (p.participants[i].care.Some? ==> !Empty(p.participants[i].care.value)))
  }

  /** Evidence for exactly what is stated: every entry points at a stated field, or at the party, and every stated field
      has an entry under its member. */
  ghost predicate EvidenceExact(p: Proposal) {
    && AllAddress(p, p.evidence)
    && (forall i :: 0 <= i < |p.evidence| ==> p.evidence[i].slot.path.Party? || Stated(p, p.evidence[i].slot.path))
    && (forall path :: Stated(p, path) ==>
          exists i :: 0 <= i < |p.evidence| && p.evidence[i].slot.path == path &&
                      p.evidence[i].slot.member == if path.Member? then Some(path.index + 1) else None)
  }

  /** No slot is listed twice or both ways; each missing or ambiguous field has its question, each question its field, and
      the question about an ambiguity offers its candidates. */
  ghost predicate QuestionsExact(p: Proposal) {
    && AllAddress(p, p.missing) && AllAddress(p, p.ambiguities) && AllAddress(p, p.questions)
    && OncePerSlot(p.missing) && OncePerSlot(p.ambiguities)
    && OneWay(p.missing, p.ambiguities) && AskedOnce(p.questions)
    && (forall i :: 0 <= i < |p.missing| ==> Asked(p, p.missing[i].slot, p.missing[i].data))
    && (forall i :: 0 <= i < |p.ambiguities| ==> Asked(p, p.ambiguities[i].slot, p.ambiguities[i].data.question))
    && (forall j :: 0 <= j < |p.questions| ==> Open(p, p.questions[j].slot, p.questions[j].data.question))
    && CandidatesOffered(p)
  }

  lemma StatedIs(p: Proposal, path: Path)
    ensures HasValue(p, path) <==> Stated(p, path)
  {
  }

  lemma EmptyIs(c: Care)
    ensures EmptyCare(c) <==> Empty(c)
  {
    if EmptyCare(c) {
      assert !c.Has(AssistanceHint) && !c.Has(ChildAge) && !c.Has(MaxContinuousMeters) && !c.Has(MaxDailyMeters)
        && !c.Has(MaxTransfers) && !c.Has(RestInterval) && !c.Has(NapStart) && !c.Has(NapEnd) && !c.Has(AvoidStairs);
    }
  }

  lemma MembersSoundIff(p: Proposal)
    ensures MembersSound(p) <==>
      SequentialKeys(p.participants) && forall i :: 0 <= i < |p.participants| ==> SoundParticipant(p.participants[i])
  {
    forall i | 0 <= i < |p.participants|
      ensures SoundParticipant(p.participants[i]) <==>
        && Apart(p.participants[i].interests) && Apart(p.participants[i].mustVisit) && Apart(p.participants[i].avoidPlaces)
        && (p.participants[i].care.Some? ==> !Empty(p.participants[i].care.value))
    {
      SoundIff(p.participants[i]);
    }
    hide SoundParticipant, Apart, Empty;
  }

  lemma SoundIff(q: Participant)
    ensures SoundParticipant(q) <==>
      && Apart(q.interests) && Apart(q.mustVisit) && Apart(q.avoidPlaces) && (q.care.Some? ==> !Empty(q.care.value))
  {
    if q.care.Some? {
      EmptyIs(q.care.value);
    }
    hide EmptyCare, Empty;
    assert UniqueFolded(q.Values(Interests)) == Apart(q.interests);
    assert UniqueFolded(q.Values(MustVisit)) == Apart(q.mustVisit);
    assert UniqueFolded(q.Values(AvoidPlaces)) == Apart(q.avoidPlaces);
  }

  lemma AddressesIff<T>(p: Proposal, es: seq<Entry<T>>)
    requires SequentialKeys(p.participants)
    ensures ValidSlots(p.participants, es, false) <==> AllAddress(p, es)
    ensures (forall i :: 0 <= i < |es| ==> es[i].slot.path.Party? || HasValue(p, es[i].slot.path)) ==>
      (ValidSlots(p.participants, es, true) <==> AllAddress(p, es))
  {
    forall i | 0 <= i < |es|
      ensures ValidSlot(p.participants, es[i].slot, false) <==> Addresses(p, es[i].slot)
      ensures es[i].slot.path.Party? || HasValue(p, es[i].slot.path) ==>
        (ValidSlot(p.participants, es[i].slot, true) <==> Addresses(p, es[i].slot))
    {
    }
  }

  lemma EvidenceExactIff(p: Proposal)
    requires SequentialKeys(p.participants)
    ensures EvidenceExact(p) <==> EvidenceMatches(p)
  {
    AddressesIff(p, p.evidence);
    forall path
      ensures HasValue(p, path) <==> Stated(p, path)
      ensures Home(path) in Slots(p.evidence) <==>
        exists i :: 0 <= i < |p.evidence| && p.evidence[i].slot.path == path &&
                    p.evidence[i].slot.member == if path.Member? then Some(path.index + 1) else None
    {
      StatedIs(p, path);
      SlotListed(p.evidence, Home(path));
    }
    hide HasValue, Stated, ValidSlots, AllAddress, Slots;
  }

  lemma SlotListed<T>(es: seq<Entry<T>>, s: Slot)
    ensures s in Slots(es) <==> exists i :: 0 <= i < |es| && es[i].slot.path == s.path && es[i].slot.member == s.member
  {
    if i :| 0 <= i < |es| && es[i].slot.path == s.path && es[i].slot.member == s.member {
      assert es[i].slot == s;
    }
  }

  lemma QuestionsExactIff(p: Proposal)
    requires SequentialKeys(p.participants)
    ensures QuestionsExact(p) <==> IssuesExplained(p)
  {
    AddressesIff(p, p.missing);
    AddressesIff(p, p.ambiguities);
    AddressesIff(p, p.questions);
    IdsIff(p);
    OnceIff(p);
    hide ValidSlots, AllAddress, QuestionIds, IssueIds, Asked, Open, OneWay, AskedOnce, CandidatesOffered, OncePerSlot, DistinctSlots,
         DistinctQuestions, ChoicesAgree, Slots;
  }

  lemma OnceIff(p: Proposal)
    ensures Slots(p.missing) !! Slots(p.ambiguities) <==> OneWay(p.missing, p.ambiguities)
    ensures DistinctQuestions(p.questions) <==> AskedOnce(p.questions)
    ensures ChoicesAgree(p) <==> CandidatesOffered(p)
    ensures DistinctSlots(p.missing) <==> OncePerSlot(p.missing)
    ensures DistinctSlots(p.ambiguities) <==> OncePerSlot(p.ambiguities)
  {
    DisjointIff(p.missing, p.ambiguities);
  }

  lemma DisjointIff(missing: seq<Missing>, ambiguities: seq<Ambiguity>)
    ensures Slots(missing) !! Slots(ambiguities) <==> OneWay(missing, ambiguities)
  {
    if !OneWay(missing, ambiguities) {
      var i, j :| 0 <= i < |missing| && 0 <= j < |ambiguities| && missing[i].slot == ambiguities[j].slot;
      assert missing[i].slot in Slots(missing) && missing[i].slot in Slots(ambiguities);
    }
  }

  lemma IdsIff(p: Proposal)
    ensures QuestionIds(p.questions) == IssueIds(p) <==>
      && (forall i :: 0 <= i < |p.missing| ==> Asked(p, p.missing[i].slot, p.missing[i].data))
      && (forall i :: 0 <= i < |p.ambiguities| ==> Asked(p, p.ambiguities[i].slot, p.ambiguities[i].data.question))
      && (forall j :: 0 <= j < |p.questions| ==> Open(p, p.questions[j].slot, p.questions[j].data.question))
  {
    forall s, q
      ensures (s, q) in QuestionIds(p.questions) <==> Asked(p, s, q)
      ensures (s, q) in IssueIds(p) <==> Open(p, s, q)
    {
    }
    hide QuestionIds, IssueIds;
    if  && (forall i :: 0 <= i < |p.missing| ==> Asked(p, p.missing[i].slot, p.missing[i].data))
        && (forall i :: 0 <= i < |p.ambiguities| ==> Asked(p, p.ambiguities[i].slot, p.ambiguities[i].data.question))
        && (forall j :: 0 <= j < |p.questions| ==> Open(p, p.questions[j].slot, p.questions[j].data.question)) {
      forall s, q
        ensures (s, q) in QuestionIds(p.questions) <==> (s, q) in IssueIds(p)
      {
      }
      assert QuestionIds(p.questions) == IssueIds(p);
    }
  }

  /** The rules of `validate_semantics`, field by field. */
  lemma WellFormedIff(p: Proposal)
    ensures WellFormed(p) <==> MembersSound(p) && EvidenceExact(p) && QuestionsExact(p)
  {
    hide SoundParticipant, EvidenceMatches, IssuesExplained, EvidenceExact, QuestionsExact, MembersSound;
    MembersSoundIff(p);
    if SequentialKeys(p.participants) {
      EvidenceExactIff(p);
      QuestionsExactIff(p);
    }
  }

  // ---- The merge, entry by entry -----------------------------------------------------------------

  /** The parts of a member's profile that a merge replaces: budget cap, list items, care details, and the nickname if the
      new profile states one. A whole list named as such is none of them. */
  predicate OwnPart(s: Slot, at: nat, withNickname: bool) {
    && s.path.Member? && s.path.index == at && s.member == Some(at + 1)
    && (s.path.tail.BudgetCap? || s.path.tail.Item? || s.path.tail.CareOf? || (s.path.tail.Nickname? && withNickname))
  }

  predicate Moved<T(==)>(e: Entry<T>, es: seq<Entry<T>>, own: nat) {
    e.slot.path.Member? && Entry(Slot(Member(0, e.slot.path.tail), Some(1)), e.data) in es
  }

  /** An entry of a merged collection is an old one about something else, or one of the profile's, moved to the member. */
  predicate MergedEntry<T(==)>(e: Entry<T>, current: seq<Entry<T>>, profile: seq<Entry<T>>, own: nat, withNickname: bool) {
    || (e in current && !OwnPart(e.slot, own, withNickname))
    || (OwnPart(e.slot, own, withNickname) && Moved(e, profile, own))
  }

  lemma MergedEntriesAre(
    current: Proposal, profile: Proposal, own: nat, e: Evidence, m: Missing, a: Ambiguity, q: Question)
    requires |profile.participants| == 1 && own < |current.participants|
    ensures var after, nick := Merged(current, profile, own), profile.participants[0].nickname.Some?;
      && (e in after.evidence <==> MergedEntry(e, current.evidence, profile.evidence, own, nick))
      && (m in after.missing <==> MergedEntry(m, current.missing, profile.missing, own, nick))
      && (a in after.ambiguities <==> MergedEntry(a, current.ambiguities, profile.ambiguities, own, nick))
      && (q in after.questions <==> MergedEntry(q, current.questions, profile.questions, own, nick))
  {
    hide Splice, MergedEntry;
    var nick := profile.participants[0].nickname.Some?;
    MergedEntryIff(current.evidence, profile.evidence, own, nick, e);
    MergedEntryIff(current.missing, profile.missing, own, nick, m);
    MergedEntryIff(current.ambiguities, profile.ambiguities, own, nick, a);
    MergedEntryIff(current.questions, profile.questions, own, nick, q);
  }

  lemma MergedEntryIff<T(!new)>(current: seq<Entry<T>>, profile: seq<Entry<T>>, own: nat, nick: bool, e: Entry<T>)
    ensures e in Splice(current, profile, own, nick) <==> MergedEntry(e, current, profile, own, nick)
  {
    SpliceMember(current, profile, own, nick, e);
  }

  /** The old entries keep their order and come first; the profile's follow in theirs. */
  lemma SpliceInOrder<T(!new)>(current: seq<Entry<T>>, e: Entry<T>, profile: seq<Entry<T>>, f: Entry<T>, own: nat, nick: bool)
    ensures Splice(current + [e], [], own, nick) == Splice(current, [], own, nick) + (if OwnPart(e.slot, own, nick) then [] else [e])
    ensures Splice([], profile + [f], own, nick) ==
      Splice([], profile, own, nick) +
      (if OwnPart(f.slot, 0, nick) then [Entry(Slot(Member(own, f.slot.path.tail), Some(own + 1)), f.data)] else [])
    ensures Splice(current, profile, own, nick) == Splice(current, [], own, nick) + Splice([], profile, own, nick)
  {
    SpliceParts(current, profile, own, nick);
    SpliceParts(current, [], own, nick);
    SpliceParts([], profile, own, nick);
    SpliceParts(current + [e], [], own, nick);
    SpliceParts([], profile + [f], own, nick);
    KeepIfAppend(current, [e], Untouched(own, nick));
    RetargetedAppend(profile, [f], own, nick);
    OneEntry(e, own, nick);
    OneEntry(f, own, nick);
    hide Splice, KeepIf, Retargeted, OwnPart;
  }

  lemma SpliceParts<T(!new)>(current: seq<Entry<T>>, profile: seq<Entry<T>>, own: nat, nick: bool)
    ensures Splice(current, profile, own, nick) == KeepIf(current, Untouched(own, nick)) + Retargeted(profile, own, nick)
    ensures KeepIf<T>([], Untouched(own, nick)) == [] && Retargeted<T>([], own, nick) == []
  {
    hide IsReplaced;
  }

  lemma OneEntry<T(!new)>(e: Entry<T>, own: nat, nick: bool)
    ensures KeepIf([e], Untouched(own, nick)) == if OwnPart(e.slot, own, nick) then [] else [e]
    ensures Retargeted([e], own, nick) ==
      if OwnPart(e.slot, 0, nick) then [Entry(Slot(Member(own, e.slot.path.tail), Some(own + 1)), e.data)] else []
  {
    assert [e][1..] == [];
    assert KeepIf([e][1..], Untouched(own, nick)) == [] && Retargeted([e][1..], own, nick) == [];
  }

  /** What the merge answers, for well-formed proposals: a candidate of the same size is taken as it is if only the own
      member differs; a candidate of one member is merged, unless a list grows beyond its cap; any other is refused. */
  lemma MergeOutcomeIff(current: Proposal, candidate: Proposal, own: nat)
    requires WellFormed(current) && WellFormed(candidate) && own < |current.participants|
    ensures var r, merged := MergeOutcome(current, candidate, own), if |candidate.participants| == 1 then Merged(current, candidate, own) else current;
      if |candidate.participants| == |current.participants| then
        r == if candidate.trip == current.trip &&
                forall i :: 0 <= i < |current.participants| && i != own ==> candidate.participants[i] == current.participants[i]
             then Ok(candidate) else Err(ScopeViolation)
      else if |candidate.participants| == 1 then
        r == if |current.participants| <= 20 && |merged.evidence| <= 500 && |merged.missing| <= 200
                && |merged.ambiguities| <= 200 && |merged.questions| <= 200
             then Ok(merged) else Err(UnderstandingInvalid)
      else r == Err(BindingsImmutable)
  {
    hide EvidenceMatches, IssuesExplained, SoundParticipant, Splice;
    KeysAlike(current, candidate);
  }

  lemma KeysAlike(a: Proposal, b: Proposal)
    requires SequentialKeys(a.participants) && SequentialKeys(b.participants)
    ensures Keys(a) == Keys(b) <==> |a.participants| == |b.participants|
  {
    assert |Keys(a)| == |a.participants| && |Keys(b)| == |b.participants|;
  }

  // ---- The alignment, entry by entry -------------------------------------------------------------

  /** Neither the party itself nor a dropped member. */
  predicate StaysAt(s: Slot, n: nat) {
    && !s.path.Party?
    && (s.member.Some? ==> 1 <= s.member.value <= n)
    && (s.path.Member? ==> s.path.index < n)
  }

  /** The care type of the member at the index is already listed as missing and stays so. */
  predicate Listed(missing: seq<Missing>, n: nat, i: nat) {
    exists j :: 0 <= j < |missing| && StaysAt(missing[j].slot, n) && missing[j].slot.member == Some(i + 1)
                && missing[j].slot.path.Member? && missing[j].slot.path.tail == CareOf(AssistanceHint)
  }

  /** The member at the index has, after the alignment, no care profile. */
  predicate Careless(p: Proposal, i: nat) {
    i < |p.participants| ==> p.participants[i].care.None?
  }

  predicate AddedFor(p: Proposal, n: nat, s: Slot) {
    && s.path.Member? && s.path.index < n && s.path.tail == CareOf(AssistanceHint) && s.member == Some(s.path.index + 1)
    && Careless(p, s.path.index) && !Listed(p.missing, n, s.path.index)
  }

  lemma AskedIsListed(p: Proposal, n: nat, i: nat)
    ensures Some(i + 1) in AskedMembers(Retained(p.missing, n)) <==> Listed(p.missing, n, i)
  {
    var kept := Retained(p.missing, n);
    if Some(i + 1) in AskedMembers(kept) {
      var k :| 0 <= k < |kept| && IsCareHint(kept[k].slot) && kept[k].slot.member == Some(i + 1);
      assert kept[k] in kept;
      var j :| 0 <= j < |p.missing| && p.missing[j] == kept[k];
    }
    if Listed(p.missing, n, i) {
      var j :| 0 <= j < |p.missing| && StaysAt(p.missing[j].slot, n) && p.missing[j].slot.member == Some(i + 1)
               && p.missing[j].slot.path.Member? && p.missing[j].slot.path.tail == CareOf(AssistanceHint);
      assert p.missing[j] in kept;
      var k :| 0 <= k < |kept| && kept[k] == p.missing[j];
    }
  }

  lemma AddedAre(p: Proposal, n: nat, m: Missing)
    requires SequentialKeys(p.participants)
    ensures m in Added(p, n) <==> AddedFor(p, n, m.slot) && m.data == AskCarePreset
  {
    if m.slot.path.Member? {
      AskedIsListed(p, n, m.slot.path.index);
    }
    hide Retained, AskedMembers, Listed;
  }

  /** The aligned proposal, entry by entry: what concerns kept members stays; every member without a care profile whose care
      type is not listed is asked for it, with the four choices. */
  lemma AlignedEntriesAre(p: Proposal, n: nat, e: Evidence, m: Missing, a: Ambiguity, q: Question)
    requires SequentialKeys(p.participants)
    ensures var after := Aligned(p, n);
      && (e in after.evidence <==> e in p.evidence && StaysAt(e.slot, n))
      && (m in after.missing <==> (m in p.missing && StaysAt(m.slot, n)) || (AddedFor(p, n, m.slot) && m.data == AskCarePreset))
      && (a in after.ambiguities <==> a in p.ambiguities && StaysAt(a.slot, n))
      && (q in after.questions <==>
            || (q in p.questions && StaysAt(q.slot, n))
            || (AddedFor(p, n, q.slot) && q.data.question == AskCarePreset && q.data.prompt == CARE_PROMPT
                && q.data.choices == ["ORDINARY", "PARENT_CHILD", "LOW_STAMINA", "MOBILITY_ASSISTANCE_BETA"]))
  {
    AddedAre(p, n, m);
    AddedAre(p, n, Entry(q.slot, AskCarePreset));
    CareQuestionsAre(Added(p, n), q);
    forall added | added in Added(p, n)
      ensures added.data == AskCarePreset
    {
      AddedAre(p, n, added);
    }
    hide Added, CareQuestions, AddedFor;
  }

  lemma CareQuestionsAre(ms: seq<Missing>, q: Question)
    ensures q in CareQuestions(ms) <==> exists i :: 0 <= i < |ms| && q == CareQuestion(ms[i])
  {
    var qs := CareQuestions(ms);
    if i :| 0 <= i < |ms| && q == CareQuestion(ms[i]) {
      assert qs[i] == q;
    }
  }

  /** The kept members are themselves, the new ones are blank. */
  lemma AlignedMembersAre(p: Proposal, n: nat, i: nat)
    requires SequentialKeys(p.participants) && i < n
    ensures |Aligned(p, n).participants| == n
    ensures Aligned(p, n).participants[i] ==
      if i < |p.participants| then p.participants[i] else Participant(i + 1, None, None, [], [], [], None)
  {
  }

  /** Aligning is accepted exactly if no kept member without a care profile has an ambiguous care type and the lists stay
      within their caps. */
  lemma AlignAcceptsIff(p: Proposal, n: nat)
    requires WellFormed(p) && n >= 1
    ensures var a := Aligned(p, n);
      WellFormed(a) && WithinCaps(a) <==>
        && n <= 20 && |a.evidence| <= 500 && |a.missing| <= 200 && |a.ambiguities| <= 200 && |a.questions| <= 200
        && forall i, j :: 0 <= i < n && Careless(p, i) && 0 <= j < |p.ambiguities| && i < |p.participants| ==>
             p.ambiguities[j].slot != Slot(Member(i, CareOf(AssistanceHint)), Some(i + 1))
  {
    AlignWellFormedIff(p, n);
    AlignKeepsMembers(p, n);
    hide WellFormed, Aligned;
    if !CareTypeSettled(p, n) {
      var i :| 0 <= i < |p.participants| && i < n && p.participants[i].care.None? && CareHint(i, i + 1) in Slots(p.ambiguities);
      var j :| 0 <= j < |p.ambiguities| && p.ambiguities[j].slot == CareHint(i, i + 1);
      assert Careless(p, i);
    }
  }
}
