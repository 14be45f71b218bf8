/** `_align_organizer_participant_count`: the stated party size overrides the model's inference. */
module PartyAlignment {
  import opened Prelude
  import opened TripDraft
  import opened DraftRevision

  const CARE_CHOICES: seq<string> := ["ORDINARY", "PARENT_CHILD", "LOW_STAMINA", "MOBILITY_ASSISTANCE_BETA"]
  const CARE_PROMPT := "The member has to confirm the care mode."

  function EmptyParticipant(key: nat): Participant {
    Participant(key, None, None, [], [], [], None)
  }

  function Resized(ps: seq<Participant>, n: nat): (r: seq<Participant>)
    ensures |r| == n
    ensures forall i :: 0 <= i < n && i < |ps| ==> r[i] == ps[i]
    ensures forall i :: |ps| <= i < n ==> r[i] == EmptyParticipant(i + 1)
    decreases n
  {
    if n <= |ps| then ps[..n] else Resized(ps, n - 1) + [EmptyParticipant(n)]
  }

  /** `applies_to_kept_participant`. */
  predicate KeptSlot(s: Slot, n: nat) {
    && s.path != Party
    && (s.member.Some? ==> 1 <= s.member.value <= n)
    && (s.path.Member? ==> s.path.index < n)
  }

  function KeptSlots(n: nat): Slot -> bool {
    s => KeptSlot(s, n)
  }

  function Retained<T(!new)>(es: seq<Entry<T>>, n: nat): seq<Entry<T>> {
    KeepIf(es, KeptSlots(n))
  }

  predicate IsCareHint(s: Slot) {
    s.path.Member? && s.path.tail == CareOf(AssistanceHint)
  }

  function CareHint(index: nat, key: nat): Slot {
    Slot(Member(index, CareOf(AssistanceHint)), Some(key))
  }

  /** The member keys whose care type is already listed as missing. */
  function AskedMembers(missing: seq<Missing>): set<Option<nat>> {
    set i | 0 <= i < |missing| && IsCareHint(missing[i].slot) :: missing[i].slot.member
  }

  predicate NeedsQuestion(q: Participant, asked: set<Option<nat>>) {
    q.care.None? && Some(q.memberKey) !in asked
  }

  /** The care-type questions appended for the first k members. */
  function AddedMissing(ps: seq<Participant>, asked: set<Option<nat>>, k: nat): (r: seq<Missing>)
    requires k <= |ps|
    ensures forall e :: e in r <==>
      && IsCareHint(e.slot) && e.slot.path.index < k
      && NeedsQuestion(ps[e.slot.path.index], asked)
      && e == Entry(CareHint(e.slot.path.index, ps[e.slot.path.index].memberKey), AskCarePreset)
  {
    if k == 0 then [] else
      AddedMissing(ps, asked, k - 1) +
      (if NeedsQuestion(ps[k - 1], asked) then [Entry(CareHint(k - 1, ps[k - 1].memberKey), AskCarePreset)] else [])
  }

  function CareQuestion(m: Missing): Question {
    Entry(m.slot, QuestionData(m.data, CARE_PROMPT, CARE_CHOICES))
  }

  function CareQuestions(ms: seq<Missing>): seq<Question> {
    seq(|ms|, i requires 0 <= i < |ms| => CareQuestion(ms[i]))
  }

  /** The missing care types alignment adds to the retained entries. */
  function Added(p: Proposal, n: nat): seq<Missing> {
    AddedMissing(Resized(p.participants, n), AskedMembers(Retained(p.missing, n)), n)
  }

  function Aligned(p: Proposal, n: nat): Proposal {
    Proposal(
      p.trip, Resized(p.participants, n), Retained(p.evidence, n), Retained(p.missing, n) + Added(p, n),
      Retained(p.ambiguities, n), Retained(p.questions, n) + CareQuestions(Added(p, n)))
  }

  /** No kept member without a care profile has an ambiguity on the care type: the one obstacle to alignment. */
  predicate CareTypeSettled(p: Proposal, n: nat) {
    forall i :: 0 <= i < |p.participants| && i < n && p.participants[i].care.None? ==>
      CareHint(i, i + 1) !in Slots(p.ambiguities)
  }
}

module PartyAlignmentLaws {
  import opened Prelude
  import opened TripDraft
  import opened PartyAlignment
  import opened DraftLaws

  lemma RetainedTags<T(!new), K>(es: seq<Entry<T>>, n: nat, tag: T -> K, id: (Slot, K))
    ensures id in Tagged(Retained(es, n), tag) <==> KeptSlot(id.0, n) && id in Tagged(es, tag)
  {
    var kept := Retained(es, n);
    if id in Tagged(kept, tag) {
      var i :| 0 <= i < |kept| && id == (kept[i].slot, tag(kept[i].data));
      assert kept[i] in kept;
      TagOfMember(es, tag, kept[i]);
    }
    if KeptSlot(id.0, n) && id in Tagged(es, tag) {
      var i :| 0 <= i < |es| && id == (es[i].slot, tag(es[i].data));
      assert es[i] in es;
      TagOfMember(kept, tag, es[i]);
    }
  }

  lemma RetainedSlots<T(!new)>(es: seq<Entry<T>>, n: nat, s: Slot)
    ensures s in Slots(Retained(es, n)) <==> KeptSlot(s, n) && s in Slots(es)
  {
    SlotsAsTags(es);
    SlotsAsTags(Retained(es, n));
    RetainedTags(es, n, (d: T) => 0, (s, 0));
  }

  lemma RetainedDistinctSlots<T(!new)>(es: seq<Entry<T>>, n: nat)
    requires DistinctSlots(es)
    ensures DistinctSlots(Retained(es, n))
  {
    SlotsAsTags(es);
    SlotsAsTags(Retained(es, n));
    KeepIfDistinct(es, KeptSlots(n), (d: T) => 0);
  }

  /** A kept slot stays valid: alignment never shortens a kept member's lists or drops its care profile. */
  lemma RetainedValid<T(!new)>(p: Proposal, n: nat, es: seq<Entry<T>>, requiresValue: bool)
    requires SequentialKeys(p.participants) && ValidSlots(p.participants, es, requiresValue)
    ensures ValidSlots(Resized(p.participants, n), Retained(es, n), requiresValue)
  {
    var kept := Retained(es, n);
    forall i | 0 <= i < |kept|
      ensures ValidSlot(Resized(p.participants, n), kept[i].slot, requiresValue)
    {
      assert kept[i] in kept;
      var j :| 0 <= j < |es| && es[j] == kept[i];
    }
  }

  lemma AlignedEvidence(p: Proposal, n: nat)
    requires WellFormed(p)
    ensures EvidenceMatches(Aligned(p, n))
  {
    hide IssuesExplained, Added, CareQuestions, SoundParticipant;
    var a := Aligned(p, n);
    RetainedValid(p, n, p.evidence, true);
    forall i | 0 <= i < |a.evidence|
      ensures a.evidence[i].slot.path == Party || HasValue(a, a.evidence[i].slot.path)
    {
      assert a.evidence[i] in a.evidence;
      var j :| 0 <= j < |p.evidence| && p.evidence[j] == a.evidence[i];
    }
    forall path | HasValue(a, path)
      ensures Home(path) in Slots(a.evidence)
    {
      assert HasValue(p, path);
      RetainedSlots(p.evidence, n, Home(path));
    }
  }

  /** Which slots the appended care questions use. */
  lemma AddedSlots(ps: seq<Participant>, asked: set<Option<nat>>, k: nat, s: Slot)
    requires SequentialKeys(ps) && k <= |ps|
    ensures s in Slots(AddedMissing(ps, asked, k)) <==>
      IsCareHint(s) && s.path.index < k && s == CareHint(s.path.index, s.path.index + 1) && NeedsQuestion(ps[s.path.index], asked)
  {
    var added := AddedMissing(ps, asked, k);
    if s in Slots(added) {
      var i :| 0 <= i < |added| && added[i].slot == s;
      assert added[i] in added;
    }
    if IsCareHint(s) && s.path.index < k && s == CareHint(s.path.index, s.path.index + 1) && NeedsQuestion(ps[s.path.index], asked) {
      assert Entry(s, AskCarePreset) in added;
    }
  }

  lemma {:induction false} AddedDistinct(ps: seq<Participant>, asked: set<Option<nat>>, k: nat)
    requires k <= |ps|
    ensures DistinctSlots(AddedMissing(ps, asked, k))
  {
    if k > 0 {
      AddedDistinct(ps, asked, k - 1);
      var rest := AddedMissing(ps, asked, k - 1);
      forall i | 0 <= i < |rest|
        ensures rest[i].slot != CareHint(k - 1, ps[k - 1].memberKey)
      {
        assert rest[i] in rest;
      }
    }
  }

  /** An appended question never repeats a slot that is already missing. */
  lemma AddedIsNew(p: Proposal, n: nat, s: Slot)
    requires SequentialKeys(p.participants)
    requires s in Slots(Added(p, n))
    ensures s !in Slots(Retained(p.missing, n))
    ensures KeptSlot(s, n)
  {
    var missing := Retained(p.missing, n);
    AddedSlots(Resized(p.participants, n), AskedMembers(missing), n, s);
  }

  lemma SlotsOfAppend<T>(a: seq<Entry<T>>, b: seq<Entry<T>>)
    ensures Slots(a + b) == Slots(a) + Slots(b)
  {
    forall s | s in Slots(a)
      ensures s in Slots(a + b)
    {
      var i :| 0 <= i < |a| && a[i].slot == s;
      assert (a + b)[i] == a[i];
    }
    forall s | s in Slots(b)
      ensures s in Slots(a + b)
    {
      var i :| 0 <= i < |b| && b[i].slot == s;
      assert (a + b)[|a| + i] == b[i];
    }
  }

  lemma TagsOfAppend<T, K>(a: seq<Entry<T>>, b: seq<Entry<T>>, tag: T -> K)
    ensures Tagged(a + b, tag) == Tagged(a, tag) + Tagged(b, tag)
  {
    forall id | id in Tagged(a, tag)
      ensures id in Tagged(a + b, tag)
    {
      var i :| 0 <= i < |a| && id == (a[i].slot, tag(a[i].data));
      assert (a + b)[i] == a[i];
    }
    forall id | id in Tagged(b, tag)
      ensures id in Tagged(a + b, tag)
    {
      var i :| 0 <= i < |b| && id == (b[i].slot, tag(b[i].data));
      assert (a + b)[|a| + i] == b[i];
    }
  }

  lemma AlignedMissing(p: Proposal, n: nat)
    requires WellFormed(p)
    ensures ValidSlots(Aligned(p, n).participants, Aligned(p, n).missing, false)
    ensures DistinctSlots(Aligned(p, n).missing)
  {
    var ps := Resized(p.participants, n);
    var missing := Retained(p.missing, n);
    var added := Added(p, n);
    RetainedValid(p, n, p.missing, false);
    RetainedDistinctSlots(p.missing, n);
    AddedDistinct(ps, AskedMembers(missing), n);
    forall i | 0 <= i < |added|
      ensures ValidSlot(ps, added[i].slot, false) && added[i].slot !in Slots(missing)
    {
      assert added[i] in added;
      AddedIsNew(p, n, added[i].slot);
    }
  }

  lemma CareQuestionTags(ms: seq<Missing>)
    ensures Tagged(CareQuestions(ms), QuestionOf) == Tagged(ms, QuestionOfMissing)
  {
    var qs := CareQuestions(ms);
    assert forall i :: 0 <= i < |ms| ==> (qs[i].slot, QuestionOf(qs[i].data)) == (ms[i].slot, QuestionOfMissing(ms[i].data));
  }

  lemma AlignedQuestionTags(p: Proposal, n: nat)
    requires QuestionIds(p.questions) == IssueIds(p)
    ensures QuestionIds(Aligned(p, n).questions) == IssueIds(Aligned(p, n))
  {
    var a := Aligned(p, n);
    var added := Added(p, n);
    IdsAsTags(p);
    IdsAsTags(a);
    TagsOfAppend(Retained(p.questions, n), CareQuestions(added), QuestionOf);
    TagsOfAppend(Retained(p.missing, n), added, QuestionOfMissing);
    CareQuestionTags(added);
    forall id
      ensures id in Tagged(a.questions, QuestionOf) <==>
        id in Tagged(a.missing, QuestionOfMissing) + Tagged(a.ambiguities, QuestionOfAmbiguity)
    {
      RetainedTags(p.questions, n, QuestionOf, id);
      RetainedTags(p.missing, n, QuestionOfMissing, id);
      RetainedTags(p.ambiguities, n, QuestionOfAmbiguity, id);
    }
  }

  /** With settled care types an appended slot is new to the whole proposal: no ambiguity, hence no question, uses it. */
  lemma AddedIsUnexplained(p: Proposal, n: nat, s: Slot, q: QuestionKey)
    requires WellFormed(p) && CareTypeSettled(p, n)
    requires s in Slots(Added(p, n))
    ensures s !in Slots(p.ambiguities)
    ensures (s, q) !in QuestionIds(p.questions)
  {
    AddedSlots(Resized(p.participants, n), AskedMembers(Retained(p.missing, n)), n, s);
    AddedIsNew(p, n, s);
    RetainedSlots(p.missing, n, s);
    assert s !in Slots(p.missing);
    assert s !in Slots(p.ambiguities) by {
      AmbiguitySlotValid(p, s);
    }
    IssueSlot(p, s, q);
  }

  lemma AmbiguitySlotValid(p: Proposal, s: Slot)
    requires ValidSlots(p.participants, p.ambiguities, false)
    ensures s in Slots(p.ambiguities) ==> ValidSlot(p.participants, s, false)
  {
  }

  lemma IssueSlot(p: Proposal, s: Slot, q: QuestionKey)
    ensures (s, q) in IssueIds(p) ==> s in Slots(p.missing) || s in Slots(p.ambiguities)
  {
  }

  lemma AlignedQuestions(p: Proposal, n: nat)
    requires WellFormed(p) && CareTypeSettled(p, n)
    ensures ValidSlots(Aligned(p, n).participants, Aligned(p, n).questions, false)
    ensures DistinctQuestions(Aligned(p, n).questions)
  {
    var kept, added := Retained(p.questions, n), Added(p, n);
    RetainedValid(p, n, p.questions, false);
    AddedDistinct(Resized(p.participants, n), AskedMembers(Retained(p.missing, n)), n);
    IdsAsTags(p);
    IdsAsTags(p.(questions := kept));
    KeepIfDistinct(p.questions, KeptSlots(n), QuestionOf);
    forall j | 0 <= j < |added|
      ensures ValidSlot(Resized(p.participants, n), added[j].slot, false)
      ensures forall i :: 0 <= i < |kept| ==> kept[i].slot != added[j].slot
    {
      assert added[j] in added;
      forall i | 0 <= i < |kept|
        ensures kept[i].slot != added[j].slot
      {
        KeptQuestionIsOld(p, n, i);
        AddedIsUnexplained(p, n, added[j].slot, kept[i].data.question);
      }
    }
    QuestionsOfAppend(Resized(p.participants, n), kept, added);
  }

  lemma KeptQuestionIsOld(p: Proposal, n: nat, i: nat)
    requires i < |Retained(p.questions, n)|
    ensures var q := Retained(p.questions, n)[i]; q in p.questions && (q.slot, q.data.question) in QuestionIds(p.questions)
  {
    var kept := Retained(p.questions, n);
    assert kept[i] in kept;
    var k :| 0 <= k < |p.questions| && p.questions[k] == kept[i];
  }

  lemma QuestionsOfAppend(ps: seq<Participant>, kept: seq<Question>, added: seq<Missing>)
    requires ValidSlots(ps, kept, false) && ValidSlots(ps, added, false)
    requires DistinctQuestions(kept) && DistinctSlots(added)
    requires forall i, j :: 0 <= i < |kept| && 0 <= j < |added| ==> kept[i].slot != added[j].slot
    ensures ValidSlots(ps, kept + CareQuestions(added), false) && DistinctQuestions(kept + CareQuestions(added))
  {
  }

  lemma AlignedChoices(p: Proposal, n: nat)
    requires WellFormed(p) && CareTypeSettled(p, n)
    ensures ChoicesAgree(Aligned(p, n))
  {
    hide EvidenceMatches, SoundParticipant, ValidSlots, CareTypeSettled, Added, DistinctSlots;
    var a := Aligned(p, n);
    var kept, added := Retained(p.questions, n), Added(p, n);
    forall i, j | 0 <= i < |a.ambiguities| && 0 <= j < |a.questions|
      && a.questions[j].slot == a.ambiguities[i].slot
      && a.questions[j].data.question == a.ambiguities[i].data.question
      ensures a.questions[j].data.choices == a.ambiguities[i].data.candidates
    {
      assert a.ambiguities[i] in a.ambiguities;
      var i' :| 0 <= i' < |p.ambiguities| && p.ambiguities[i'] == a.ambiguities[i];
      assert a.ambiguities[i].slot in Slots(p.ambiguities);
      assert j < |kept| by {
        if j >= |kept| {
          assert a.questions[j].slot == added[j - |kept|].slot;
          AddedIsUnexplained(p, n, added[j - |kept|].slot, AskCarePreset);
        }
      }
      KeptQuestionIsOld(p, n, j);
      var j' :| 0 <= j' < |p.questions| && p.questions[j'] == kept[j];
    }
  }

  lemma AlignedStatusesDisjoint(p: Proposal, n: nat, s: Slot)
    requires WellFormed(p) && CareTypeSettled(p, n)
    requires s in Slots(Aligned(p, n).missing)
    ensures s !in Slots(Aligned(p, n).ambiguities)
  {
    hide EvidenceMatches, ChoicesAgree, Added, CareTypeSettled, ValidSlots, SoundParticipant, DistinctSlots;
    SlotsOfAppend(Retained(p.missing, n), Added(p, n));
    RetainedSlots(p.missing, n, s);
    RetainedSlots(p.ambiguities, n, s);
    if s in Slots(Added(p, n)) {
      AddedIsUnexplained(p, n, s, AskCarePreset);
    }
  }

  lemma AlignedIssues(p: Proposal, n: nat)
    requires WellFormed(p) && CareTypeSettled(p, n)
    ensures IssuesExplained(Aligned(p, n))
  {
    hide EvidenceMatches, ChoicesAgree, Added, CareTypeSettled, ValidSlots, SoundParticipant, DistinctSlots, QuestionIds, IssueIds,
         DistinctQuestions, SequentialKeys;
    assert ValidSlots(p.participants, p.ambiguities, false) && DistinctSlots(p.ambiguities);
    var a := Aligned(p, n);
    AlignedMissing(p, n);
    RetainedValid(p, n, p.ambiguities, false);
    RetainedDistinctSlots(p.ambiguities, n);
    forall s | s in Slots(a.missing)
      ensures s !in Slots(a.ambiguities)
    {
      AlignedStatusesDisjoint(p, n, s);
    }
    AlignedQuestions(p, n);
    AlignedQuestionTags(p, n);
    AlignedChoices(p, n);
  }

  lemma AlignSufficient(p: Proposal, n: nat)
    requires WellFormed(p) && CareTypeSettled(p, n)
    ensures WellFormed(Aligned(p, n))
  {
    hide EvidenceMatches, IssuesExplained, Added, CareTypeSettled, Retained;
    AlignedEvidence(p, n);
    AlignedIssues(p, n);
  }

  /** A kept member without a care profile ends up with a missing care type, one way or the other. */
  lemma CareTypeAsked(p: Proposal, n: nat, i: nat)
    requires SequentialKeys(p.participants) && ValidSlots(p.participants, p.missing, false)
    requires i < n && Resized(p.participants, n)[i].care.None?
    ensures CareHint(i, i + 1) in Slots(Aligned(p, n).missing)
  {
    hide Retained, Slots, ValidSlots, Added, AskedMembers, Aligned, Resized;
    var missing := Retained(p.missing, n);
    var ps := Resized(p.participants, n);
    AlignedMissingList(p, n);
    SlotsOfAppend(missing, Added(p, n));
    if Some(i + 1) in AskedMembers(missing) {
      RetainedValid(p, n, p.missing, false);
      AskedSlot(ps, missing, i);
    } else {
      AddedAsked(p, n, i);
    }
  }

  lemma AlignedMissingList(p: Proposal, n: nat)
    requires SequentialKeys(p.participants)
    ensures SequentialKeys(Resized(p.participants, n)) && |Resized(p.participants, n)| == n
    ensures Aligned(p, n).missing == Retained(p.missing, n) + Added(p, n)
  {
    hide Retained, Added, CareQuestions;
  }

  lemma AddedAsked(p: Proposal, n: nat, i: nat)
    requires SequentialKeys(Resized(p.participants, n)) && i < n == |Resized(p.participants, n)|
    requires Resized(p.participants, n)[i].care.None? && Some(i + 1) !in AskedMembers(Retained(p.missing, n))
    ensures CareHint(i, i + 1) in Slots(Added(p, n))
  {
    hide Retained, AskedMembers, Resized, AddedMissing, Slots;
    AddedSlots(Resized(p.participants, n), AskedMembers(Retained(p.missing, n)), n, CareHint(i, i + 1));
  }

  lemma AskedSlot(ps: seq<Participant>, missing: seq<Missing>, i: nat)
    requires SequentialKeys(ps) && ValidSlots(ps, missing, false)
    requires Some(i + 1) in AskedMembers(missing)
    ensures CareHint(i, i + 1) in Slots(missing)
  {
    var j :| 0 <= j < |missing| && IsCareHint(missing[j].slot) && missing[j].slot.member == Some(i + 1);
    assert ValidSlot(ps, missing[j].slot, false);
    assert missing[j].slot == CareHint(i, i + 1);
  }

  lemma AlignNecessary(p: Proposal, n: nat)
    requires WellFormed(p) && !CareTypeSettled(p, n)
    ensures !WellFormed(Aligned(p, n))
  {
    hide EvidenceMatches, SoundParticipant, Added, ChoicesAgree, QuestionIds, IssueIds, DistinctQuestions, DistinctSlots;
    var i :| 0 <= i < |p.participants| && i < n && p.participants[i].care.None? && CareHint(i, i + 1) in Slots(p.ambiguities);
    CareTypeAsked(p, n, i);
    RetainedSlots(p.ambiguities, n, CareHint(i, i + 1));
  }

  /** Aligning a well-formed proposal to any party size gives a well-formed proposal exactly when no kept member
      without a care profile has an ambiguous care type. */
  lemma AlignWellFormedIff(p: Proposal, n: nat)
    requires WellFormed(p)
    ensures WellFormed(Aligned(p, n)) <==> CareTypeSettled(p, n)
  {
    if CareTypeSettled(p, n) {
      AlignSufficient(p, n);
    } else {
      AlignNecessary(p, n);
    }
  }

  ghost predicate AllKept<T>(es: seq<Entry<T>>, n: nat) {
    forall i :: 0 <= i < |es| ==> KeptSlot(es[i].slot, n)
  }

  lemma RetainedAllKept<T(!new)>(es: seq<Entry<T>>, n: nat)
    ensures AllKept(Retained(es, n), n)
  {
    forall i | 0 <= i < |Retained(es, n)|
      ensures KeptSlot(Retained(es, n)[i].slot, n)
    {
      assert Retained(es, n)[i] in Retained(es, n);
    }
  }

  /** The aligned proposal has exactly the members member-1..member-n, keeps the data of the members it had, leaves
      no entry about the party itself or about a dropped member, and only ever appends to the kept entries. */
  lemma AlignKeepsMembers(p: Proposal, n: nat)
    requires SequentialKeys(p.participants)
    ensures var a := Aligned(p, n);
      && a.trip == p.trip && |a.participants| == n && SequentialKeys(a.participants)
      && (forall i :: 0 <= i < n && i < |p.participants| ==> a.participants[i] == p.participants[i])
      && (forall i, t :: |p.participants| <= i < n ==> !a.participants[i].Has(t))
      && AllKept(a.evidence, n) && AllKept(a.missing, n) && AllKept(a.ambiguities, n) && AllKept(a.questions, n)
      && a.evidence == Retained(p.evidence, n) && a.ambiguities == Retained(p.ambiguities, n)
      && Retained(p.missing, n) <= a.missing && Retained(p.questions, n) <= a.questions
  {
    var added := Added(p, n);
    RetainedAllKept(p.evidence, n);
    RetainedAllKept(p.missing, n);
    RetainedAllKept(p.ambiguities, n);
    RetainedAllKept(p.questions, n);
    forall j | 0 <= j < |added|
      ensures KeptSlot(added[j].slot, n)
    {
      assert added[j] in added;
    }
  }

  /** Every member left without a care profile is asked for the care type exactly once, with a question. */
  lemma AlignAsksEveryCareType(p: Proposal, n: nat, i: nat)
    requires WellFormed(p) && CareTypeSettled(p, n)
    requires i < n && Aligned(p, n).participants[i].care.None?
    ensures var a := Aligned(p, n);
      exists j :: 0 <= j < |a.missing| && a.missing[j].slot == CareHint(i, i + 1)
        && (forall k :: 0 <= k < |a.missing| && a.missing[k].slot == CareHint(i, i + 1) ==> k == j)
        && (CareHint(i, i + 1), a.missing[j].data) in QuestionIds(a.questions)
  {
    var a := Aligned(p, n);
    AlignSufficient(p, n);
    CareTypeAsked(p, n, i);
    var j :| 0 <= j < |a.missing| && a.missing[j].slot == CareHint(i, i + 1);
    assert (a.missing[j].slot, a.missing[j].data) in IssueIds(a);
  }
}
