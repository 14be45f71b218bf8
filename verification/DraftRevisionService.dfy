/** The two rewrites as the service runs them: list edits on a payload copy, then re-validation. */
module DraftRevisionService {
  import opened Prelude
  import opened TripDraft
  import opened TripDraftValidation
  import opened DraftRevision
  import opened DraftLaws
  import opened PartyAlignment
  import opened PartyAlignmentLaws

  /** `model_validate`: the semantic checks and the list-size caps. */
  method Revalidate(p: Proposal) returns (r: Result<Proposal, MergeError>)
    ensures r == if WellFormed(p) && WithinCaps(p) then Ok(p) else Err(UnderstandingInvalid)
  {
    var error := ValidateSemantics(p);
    return if error.None? && WithinCaps(p) then Ok(p) else Err(UnderstandingInvalid);
  }

  /** The payload edit of the merge: one participant updated, four collections filtered and extended. */
  method MergePayload(current: Proposal, profile: Proposal, own: nat) returns (merged: Proposal)
    requires |profile.participants| == 1 && own < |current.participants|
    ensures merged == Merged(current, profile, own)
  {
    var extracted := profile.participants[0];
    var withNickname := extracted.nickname.Some?;
    var participants := current.participants[own := MergedParticipant(current.participants[own], extracted)];
    var evidence := SpliceList(current.evidence, profile.evidence, own, withNickname);
    var missing := SpliceList(current.missing, profile.missing, own, withNickname);
    var ambiguities := SpliceList(current.ambiguities, profile.ambiguities, own, withNickname);
    var questions := SpliceList(current.questions, profile.questions, own, withNickname);
    merged := Proposal(current.trip, participants, evidence, missing, ambiguities, questions);
  }

  lemma OneKey(p: Proposal)
    requires SequentialKeys(p.participants)
    ensures Keys(p) == [1] <==> |p.participants| == 1
  {
    assert |Keys(p)| == |p.participants|;
  }

  /** What the merge answers, written without the edits. */
  ghost function MergeOutcome(current: Proposal, candidate: Proposal, own: nat): Result<Proposal, MergeError>
    requires own < |current.participants|
  {
    if Keys(candidate) == Keys(current) then MergeMemberScope(current, candidate, own)
    else if |candidate.participants| != 1 then Err(BindingsImmutable)
    else if !WithinCaps(Merged(current, candidate, own)) then Err(UnderstandingInvalid)
    else Ok(Merged(current, candidate, own))
  }

  lemma MergeOutcomeSound(current: Proposal, candidate: Proposal, own: nat)
    requires WellFormed(current) && WellFormed(candidate) && own < |current.participants|
    ensures var r := MergeOutcome(current, candidate, own);
      r.Ok? ==> WellFormed(r.value) && r.value.trip == current.trip && UntouchedOthers(current, r.value, own)
  {
    hide WellFormed;
    if |candidate.participants| == 1 {
      MergeWellFormed(current, candidate, own);
      MergeKeepsOthers(current, candidate, own);
    }
    hide Merged;
  }

  lemma MergeKeepsOthers(current: Proposal, profile: Proposal, own: nat)
    requires |profile.participants| == 1 && own < |current.participants| && WellFormed(current)
    ensures UntouchedOthers(current, Merged(current, profile, own), own)
  {
    hide EvidenceMatches, IssuesExplained, Splice;
  }

  /** `_merge_member_profile_scope`: semantic validation of the merged proposal can never fail, so the only
      rejections are a scope violation, an unexpected member count and the list-size caps. */
  method MergeMemberProfileScope(current: Proposal, candidate: Proposal, own: nat) returns (r: Result<Proposal, MergeError>)
    requires WellFormed(current) && WellFormed(candidate) && own < |current.participants|
    ensures r == MergeOutcome(current, candidate, own)
    ensures r.Ok? ==> WellFormed(r.value) && r.value.trip == current.trip && UntouchedOthers(current, r.value, own)
  {
    MergeOutcomeSound(current, candidate, own);
    OneKey(candidate);
    if Keys(candidate) == Keys(current) {
      r := MergeMemberScope(current, candidate, own);
    } else if Keys(candidate) != [1] {
      r := Err(BindingsImmutable);
    } else {
      var payload := MergePayload(current, candidate, own);
      r := Revalidate(payload);
      MergeWellFormed(current, candidate, own);
    }
  }

  method ResizeParticipants(ps: seq<Participant>, n: nat) returns (r: seq<Participant>)
    ensures r == Resized(ps, n)
  {
    r := if n <= |ps| then ps[..n] else ps;
    while |r| < n
      invariant |r| <= n
      invariant r == Resized(ps, |r|)
    {
      r := r + [EmptyParticipant(|r| + 1)];
    }
  }

  lemma CareQuestionsAppend(ms: seq<Missing>, m: Missing)
    ensures CareQuestions(ms + [m]) == CareQuestions(ms) + [CareQuestion(m)]
  {
  }

  lemma NobodyAsked(participants: seq<Participant>, asked: set<Option<nat>>)
    ensures AddedMissing(participants, asked, 0) == [] && CareQuestions([]) == []
  {
  }

  lemma AskedNext(participants: seq<Participant>, asked: set<Option<nat>>, i: nat)
    requires i < |participants|
    ensures AddedMissing(participants, asked, i + 1) ==
      if NeedsQuestion(participants[i], asked)
      then AddedMissing(participants, asked, i) + [Entry(CareHint(i, participants[i].memberKey), AskCarePreset)]
      else AddedMissing(participants, asked, i)
  {
  }

  /** Asks every member without a care profile for the care type, unless that is on the missing list already. */
  method AskCareTypes(participants: seq<Participant>, kept: seq<Missing>, keptQuestions: seq<Question>)
    returns (missing: seq<Missing>, questions: seq<Question>)
    ensures missing == kept + AddedMissing(participants, AskedMembers(kept), |participants|)
    ensures questions == keptQuestions + CareQuestions(AddedMissing(participants, AskedMembers(kept), |participants|))
  {
    hide AddedMissing, CareQuestions, CareQuestion, NeedsQuestion, AskedMembers;
    missing, questions := kept, keptQuestions;
    var asked := AskedMembers(kept);
    NobodyAsked(participants, asked);
    var i := 0;
    while i < |participants|
      invariant 0 <= i <= |participants|
      invariant missing == kept + AddedMissing(participants, asked, i)
      invariant questions == keptQuestions + CareQuestions(AddedMissing(participants, asked, i))
    {
      if NeedsQuestion(participants[i], asked) {
        var entry := Entry(CareHint(i, participants[i].memberKey), AskCarePreset);
        CareQuestionsAppend(AddedMissing(participants, asked, i), entry);
        AskedNext(participants, asked, i);
        missing := missing + [entry];
        questions := questions + [CareQuestion(entry)];
      } else {
        AskedNext(participants, asked, i);
      }
      i := i + 1;
    }
  }

  /** The payload edit of the alignment: resize, filter, then ask the missing care types. */
  method AlignPayload(p: Proposal, n: nat) returns (aligned: Proposal)
    ensures aligned == Aligned(p, n)
  {
    var participants := ResizeParticipants(p.participants, n);
    var evidence := KeepList(p.evidence, KeptSlots(n));
    var keptMissing := KeepList(p.missing, KeptSlots(n));
    var ambiguities := KeepList(p.ambiguities, KeptSlots(n));
    var keptQuestions := KeepList(p.questions, KeptSlots(n));
    var missing, questions := AskCareTypes(participants, keptMissing, keptQuestions);
    aligned := Proposal(p.trip, participants, evidence, missing, ambiguities, questions);
  }

  /** `_align_organizer_participant_count`: accepted exactly when the care types are settled (caps aside). */
  method AlignOrganizerParticipantCount(p: Proposal, n: nat) returns (r: Result<Proposal, MergeError>)
    requires WellFormed(p) && n >= 1
    ensures r.Ok? <==> CareTypeSettled(p, n) && WithinCaps(Aligned(p, n))
    ensures r.Ok? ==> r.value == Aligned(p, n) && WellFormed(r.value)
  {
    var payload := AlignPayload(p, n);
    r := Revalidate(payload);
    AlignWellFormedIff(p, n);
  }
}
