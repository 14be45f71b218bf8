/** `TripUnderstandingProposal.validate_semantics`, as the loops of the original, proved to accept
    exactly the well-formed proposals and to name a clause that really fails when it rejects one. */
module TripDraftValidation {
  import opened Prelude
  import opened TripDraft

  datatype SemanticError =
    | MemberKeySequence | DuplicatePreferenceValue | EmptyCareDraft
    | InvalidPath | EvidenceWithoutValue | MissingFieldEvidence
    | DuplicateMissingField | DuplicateAmbiguity | ConflictingFieldStatus
    | DuplicateConfirmationQuestion | MissingQuestion | QuestionChoicesMismatch | OrphanConfirmationQuestion

  /** The clause of `WellFormed` each rejection code stands for is the one that fails. */
  ghost predicate Violates(p: Proposal, e: SemanticError) {
    match e
    case MemberKeySequence => !SequentialKeys(p.participants)
    case DuplicatePreferenceValue =>
      exists i, l: ListField :: 0 <= i < |p.participants| && !UniqueFolded(p.participants[i].Values(l))
    case EmptyCareDraft =>
      exists i :: 0 <= i < |p.participants| && p.participants[i].care.Some? && EmptyCare(p.participants[i].care.value)
    case InvalidPath =>
      || !ValidSlots(p.participants, p.evidence, true)
      || !ValidSlots(p.participants, p.missing, false)
      || !ValidSlots(p.participants, p.ambiguities, false)
      || !ValidSlots(p.participants, p.questions, false)
    case EvidenceWithoutValue =>
      exists i :: 0 <= i < |p.evidence| && p.evidence[i].slot.path != Party && !HasValue(p, p.evidence[i].slot.path)
    case MissingFieldEvidence => exists path :: HasValue(p, path) && Home(path) !in Slots(p.evidence)
    case DuplicateMissingField => !DistinctSlots(p.missing)
    case DuplicateAmbiguity => !DistinctSlots(p.ambiguities)
    case ConflictingFieldStatus => !(Slots(p.missing) !! Slots(p.ambiguities))
    case DuplicateConfirmationQuestion => !DistinctQuestions(p.questions)
    case MissingQuestion => !(IssueIds(p) <= QuestionIds(p.questions))
    case QuestionChoicesMismatch => !ChoicesAgree(p)
    case OrphanConfirmationQuestion => !(QuestionIds(p.questions) <= IssueIds(p))
  }

  lemma ViolationRefutes(p: Proposal, e: SemanticError)
    requires Violates(p, e)
    ensures !WellFormed(p)
  {
    if e == DuplicatePreferenceValue {
      var i, l: ListField :| 0 <= i < |p.participants| && !UniqueFolded(p.participants[i].Values(l));
      assert !SoundParticipant(p.participants[i]);
    } else if e == EmptyCareDraft {
      var i :| 0 <= i < |p.participants| && p.participants[i].care.Some? && EmptyCare(p.participants[i].care.value);
      assert !SoundParticipant(p.participants[i]);
    }
  }

  /** `_evidence_value_paths`: the slots of all non-null values. */
  method EvidenceValuePaths(p: Proposal) returns (values: set<Slot>)
    requires SequentialKeys(p.participants)
    ensures forall s :: s in values <==> HasValue(p, s.path) && s == Home(s.path)
  {
    values := set f: TripField | p.trip.Has(f) :: Slot(OfTrip(f), None);
    var i := 0;
    while i < |p.participants|
      invariant 0 <= i <= |p.participants|
      invariant forall s :: s in values <==>
        HasValue(p, s.path) && s == Home(s.path) && (s.path.Member? ==> s.path.index < i)
    {
      var q := p.participants[i];
      var own := ParticipantValuePaths(q, i);
      values := values + own;
      i := i + 1;
    }
  }

  method ParticipantValuePaths(q: Participant, index: nat) returns (values: set<Slot>)
    requires q.memberKey == index + 1
    ensures forall s :: s in values <==>
      s.path.Member? && s.path.index == index && q.Has(s.path.tail) && s.member == Some(index + 1)
  {
    var member := Some(q.memberKey);
    values := {};
    if q.nickname.Some? {
      values := values + {Slot(Member(index, Nickname), member)};
    }
    if q.budgetCap.Some? {
      values := values + {Slot(Member(index, BudgetCap), member)};
    }
    values := values
      + (set k | 0 <= k < |q.interests| :: Slot(Member(index, Item(Interests, k)), member))
      + (set k | 0 <= k < |q.mustVisit| :: Slot(Member(index, Item(MustVisit, k)), member))
      + (set k | 0 <= k < |q.avoidPlaces| :: Slot(Member(index, Item(AvoidPlaces, k)), member));
    if q.care.Some? {
      values := values + (set f: CareField | q.care.value.Has(f) :: Slot(Member(index, CareOf(f)), member));
    }
  }

  method UniqueNormalized(values: seq<Text>) returns (ok: bool)
    ensures ok <==> UniqueFolded(values)
  {
    var seen: set<string> := {};
    var i := 0;
    while i < |values|
      invariant 0 <= i <= |values|
      invariant seen == set k | 0 <= k < i :: values[k].folded
      invariant UniqueFolded(values[..i])
    {
      if values[i].folded in seen {
        var k :| 0 <= k < i && values[k].folded == values[i].folded;
        return false;
      }
      seen := seen + {values[i].folded};
      i := i + 1;
    }
    assert values[..i] == values;
    return true;
  }

  method ValidateParticipants(p: Proposal) returns (error: Option<SemanticError>)
    ensures error.Some? ==> Violates(p, error.value)
    ensures error.None? ==>
      SequentialKeys(p.participants) && forall i :: 0 <= i < |p.participants| ==> SoundParticipant(p.participants[i])
  {
    if !SequentialKeys(p.participants) {
      return Some(MemberKeySequence);
    }
    var i := 0;
    while i < |p.participants|
      invariant 0 <= i <= |p.participants|
      invariant forall k :: 0 <= k < i ==> SoundParticipant(p.participants[k])
    {
      var q := p.participants[i];
      var a := UniqueNormalized(q.Values(Interests));
      var b := UniqueNormalized(q.Values(MustVisit));
      var c := UniqueNormalized(q.Values(AvoidPlaces));
      if !(a && b && c) {
        return Some(DuplicatePreferenceValue);
      }
      if q.care.Some? && EmptyCare(q.care.value) {
        return Some(EmptyCareDraft);
      }
      i := i + 1;
    }
    return None;
  }

  method ValidateEvidence(p: Proposal) returns (error: Option<SemanticError>)
    requires SequentialKeys(p.participants)
    ensures error.Some? ==> Violates(p, error.value)
    ensures error.None? ==> EvidenceMatches(p)
  {
    var values := EvidenceValuePaths(p);
    var keys: set<Slot> := {};
    var i := 0;
    while i < |p.evidence|
      invariant 0 <= i <= |p.evidence|
      invariant keys == set k | 0 <= k < i :: p.evidence[k].slot
      invariant forall k :: 0 <= k < i ==> ValidSlot(p.participants, p.evidence[k].slot, true)
      invariant forall k :: 0 <= k < i ==>
        p.evidence[k].slot.path == Party || HasValue(p, p.evidence[k].slot.path)
    {
      var s := p.evidence[i].slot;
      if !ValidSlot(p.participants, s, true) {
        return Some(InvalidPath);
      }
      if s.path != Party && s !in values {
        return Some(EvidenceWithoutValue);
      }
      keys := keys + {s};
      i := i + 1;
    }
    assert keys == Slots(p.evidence);
    if !(values <= keys) {
      ghost var s :| s in values && s !in keys;
      assert HasValue(p, s.path) && Home(s.path) !in Slots(p.evidence);
      return Some(MissingFieldEvidence);
    }
    forall path | HasValue(p, path)
      ensures Home(path) in Slots(p.evidence)
    {
      assert Home(path).path == path;
      assert Home(path) in values;
    }
    return None;
  }

  /** Missing fields and ambiguities: valid slots, no slot twice, no slot in both lists. */
  method ValidateStatuses(p: Proposal) returns (error: Option<SemanticError>)
    ensures error.Some? ==> Violates(p, error.value)
    ensures error.None? ==>
      && ValidSlots(p.participants, p.missing, false) && DistinctSlots(p.missing)
      && ValidSlots(p.participants, p.ambiguities, false) && DistinctSlots(p.ambiguities)
      && Slots(p.missing) !! Slots(p.ambiguities)
  {
    var missingKeys: set<Slot> := {};
    var i := 0;
    while i < |p.missing|
      invariant 0 <= i <= |p.missing|
      invariant missingKeys == set k | 0 <= k < i :: p.missing[k].slot
      invariant forall k :: 0 <= k < i ==> ValidSlot(p.participants, p.missing[k].slot, false)
      invariant forall j, k :: 0 <= j < k < i ==> p.missing[j].slot != p.missing[k].slot
    {
      var s := p.missing[i].slot;
      if !ValidSlot(p.participants, s, false) {
        return Some(InvalidPath);
      }
      if s in missingKeys {
        return Some(DuplicateMissingField);
      }
      missingKeys := missingKeys + {s};
      i := i + 1;
    }
    assert missingKeys == Slots(p.missing);
    var ambiguityKeys: set<Slot> := {};
    i := 0;
    while i < |p.ambiguities|
      invariant 0 <= i <= |p.ambiguities|
      invariant ambiguityKeys == set k | 0 <= k < i :: p.ambiguities[k].slot
      invariant ambiguityKeys !! missingKeys
      invariant forall k :: 0 <= k < i ==> ValidSlot(p.participants, p.ambiguities[k].slot, false)
      invariant forall j, k :: 0 <= j < k < i ==> p.ambiguities[j].slot != p.ambiguities[k].slot
    {
      var s := p.ambiguities[i].slot;
      if !ValidSlot(p.participants, s, false) {
        return Some(InvalidPath);
      }
      if s in ambiguityKeys {
        return Some(DuplicateAmbiguity);
      }
      if s in missingKeys {
        assert s in Slots(p.ambiguities);
        return Some(ConflictingFieldStatus);
      }
      ambiguityKeys := ambiguityKeys + {s};
      i := i + 1;
    }
    assert ambiguityKeys == Slots(p.ambiguities);
    return None;
  }

  /** The choices each question id offers. */
  ghost predicate IsQuestionIndex(choices: map<(Slot, QuestionKey), seq<string>>, qs: seq<Question>) {
    && choices.Keys == QuestionIds(qs)
    && forall k :: 0 <= k < |qs| ==>
      (qs[k].slot, qs[k].data.question) in choices && choices[(qs[k].slot, qs[k].data.question)] == qs[k].data.choices
  }

  method IndexQuestions(p: Proposal) returns (error: Option<SemanticError>, choices: map<(Slot, QuestionKey), seq<string>>)
    ensures error.Some? ==> Violates(p, error.value)
    ensures error.None? ==>
      && ValidSlots(p.participants, p.questions, false) && DistinctQuestions(p.questions)
      && IsQuestionIndex(choices, p.questions)
  {
    choices := map[];
    var i := 0;
    while i < |p.questions|
      invariant 0 <= i <= |p.questions|
      invariant forall k :: 0 <= k < i ==> ValidSlot(p.participants, p.questions[k].slot, false)
      invariant choices.Keys == set k | 0 <= k < i :: (p.questions[k].slot, p.questions[k].data.question)
      invariant forall k :: 0 <= k < i ==>
        choices[(p.questions[k].slot, p.questions[k].data.question)] == p.questions[k].data.choices
      invariant forall j, k :: 0 <= j < k < i ==>
        (p.questions[j].slot, p.questions[j].data.question) != (p.questions[k].slot, p.questions[k].data.question)
    {
      var q := p.questions[i];
      if !ValidSlot(p.participants, q.slot, false) {
        return Some(InvalidPath), choices;
      }
      var id := (q.slot, q.data.question);
      if id in choices {
        return Some(DuplicateConfirmationQuestion), choices;
      }
      choices := choices[id := q.data.choices];
      i := i + 1;
    }
    return None, choices;
  }

  /** Questions explain exactly the missing and ambiguous fields, an ambiguity's with its candidates. */
  method CheckExplained(p: Proposal, choices: map<(Slot, QuestionKey), seq<string>>) returns (error: Option<SemanticError>)
    requires DistinctQuestions(p.questions) && IsQuestionIndex(choices, p.questions)
    ensures error.Some? ==> Violates(p, error.value)
    ensures error.None? ==> QuestionIds(p.questions) == IssueIds(p) && ChoicesAgree(p)
  {
    var missingIssues: set<(Slot, QuestionKey)> := {};
    var i := 0;
    while i < |p.missing|
      invariant 0 <= i <= |p.missing|
      invariant missingIssues == set k | 0 <= k < i :: (p.missing[k].slot, p.missing[k].data)
      invariant missingIssues <= choices.Keys
    {
      var id := (p.missing[i].slot, p.missing[i].data);
      if id !in choices {
        assert id in IssueIds(p);
        return Some(MissingQuestion);
      }
      missingIssues := missingIssues + {id};
      i := i + 1;
    }
    var ambiguityIssues: set<(Slot, QuestionKey)> := {};
    i := 0;
    while i < |p.ambiguities|
      invariant 0 <= i <= |p.ambiguities|
      invariant ambiguityIssues == set k | 0 <= k < i :: (p.ambiguities[k].slot, p.ambiguities[k].data.question)
      invariant ambiguityIssues <= choices.Keys
      invariant forall k :: 0 <= k < i ==>
        choices[(p.ambiguities[k].slot, p.ambiguities[k].data.question)] == p.ambiguities[k].data.candidates
    {
      var id := (p.ambiguities[i].slot, p.ambiguities[i].data.question);
      if id !in choices {
        assert id in IssueIds(p);
        return Some(MissingQuestion);
      }
      if choices[id] != p.ambiguities[i].data.candidates {
        ghost var j :| 0 <= j < |p.questions| && (p.questions[j].slot, p.questions[j].data.question) == id;
        return Some(QuestionChoicesMismatch);
      }
      ambiguityIssues := ambiguityIssues + {id};
      i := i + 1;
    }
    assert missingIssues + ambiguityIssues == IssueIds(p);
    if choices.Keys != missingIssues + ambiguityIssues {
      return Some(OrphanConfirmationQuestion);
    }
    return None;
  }

  method ValidateQuestions(p: Proposal) returns (error: Option<SemanticError>)
    ensures error.Some? ==> Violates(p, error.value)
    ensures error.None? ==>
      && ValidSlots(p.participants, p.questions, false) && DistinctQuestions(p.questions)
      && QuestionIds(p.questions) == IssueIds(p) && ChoicesAgree(p)
  {
    var choices;
    error, choices := IndexQuestions(p);
    if error.None? {
      error := CheckExplained(p, choices);
    }
  }

  method ValidateSemantics(p: Proposal) returns (error: Option<SemanticError>)
    ensures error.None? <==> WellFormed(p)
    ensures error.Some? ==> Violates(p, error.value)
  {
    error := ValidateParticipants(p);
    if error.None? {
      error := ValidateEvidence(p);
    }
    if error.None? {
      error := ValidateStatuses(p);
    }
    if error.None? {
      error := ValidateQuestions(p);
    }
    if error.Some? {
      ViolationRefutes(p, error.value);
    }
  }
}
