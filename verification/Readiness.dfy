/** When a collaboration may plan: `_progress`, `_source_digest_is_ready`, `_derive` and `_status` of
    app/application/collaboration_service.py. */
module Readiness {
  import opened Prelude
  import opened Digests
  import opened HardConflicts
  import opened TripViews
  import Store = CollaborationStore
  import TripDraft

  /** An answer attempt the draft service still holds against a trip. */
  datatype Attempt = Attempt(byParticipant: bool, actor: Store.Pid)

  /** Everything `_derive` reads: the current revision, the stored rows, the access statuses and the failed attempts. */
  datatype Facts = Facts(
    rev: Revision,
    organizer: Store.Pid,
    currentRevision: nat,
    members: map<Store.Pid, Store.Member>,
    proposals: map<nat, Store.ChangeProposal>,
    access: map<Store.Pid, Access>,
    failed: seq<Attempt>)

  function IssuesOf(f: Facts, care: CarePort): seq<Issue> {
    Evaluate(f.rev, Some(f.organizer), care)
  }

  // ---- One member --------------------------------------------------------------------------

  predicate RelevantIssue(issues: seq<Issue>, p: Store.Pid) {
    exists i :: 0 <= i < |issues| && (issues[i].participant.None? || issues[i].participant == Some(p) || p in issues[i].related)
  }

  predicate RelevantFailure(failed: seq<Attempt>, p: Store.Pid) {
    exists i :: 0 <= i < |failed| && (!failed[i].byParticipant || failed[i].actor == p)
  }

  /** The organizer's access is always active; a member's may have been withdrawn. */
  predicate Withdrawn(f: Facts, p: Store.Pid) {
    p != f.organizer && p in f.access && f.access[p] == AccessWithdrawn
  }

  datatype ConfirmationStatus = Draft | NeedsReconfirmation | Confirmed

  function StatusOfMember(f: Facts, issues: seq<Issue>, key: nat): ConfirmationStatus
    requires key in f.rev.bindings
  {
    var p := f.rev.bindings[key];
    if p !in f.members then Draft
    else
      var c := f.members[p].confirmation;
      if && c.Some?
         && !Withdrawn(f, p)
         && c.value.shared == SharedOf(f.rev)
         && c.value.member == MemberOf(f.rev, key)
         && !RelevantIssue(issues, p)
         && !RelevantFailure(f.failed, p)
      then Confirmed
      else NeedsReconfirmation
  }

  predicate AllConfirmed(f: Facts, issues: seq<Issue>) {
    forall key :: key in f.rev.bindings ==> StatusOfMember(f, issues, key) == Confirmed
  }

  // ---- The whole trip ----------------------------------------------------------------------

  predicate SourceReady(rev: Revision, members: map<Store.Pid, Store.Member>) {
    && members != map[]
    && ((forall p :: p in members ==> members[p].confirmation.Some? && members[p].confirmation.value.source == SourceOf(rev))
        || ((exists p :: p in members && members[p].confirmation.Some?
               && members[p].confirmation.value.revision == rev.revision
               && members[p].confirmation.value.source == SourceOf(rev))
            && (exists p :: p in members
                  && (members[p].confirmation.Some? ==> members[p].confirmation.value.revision != rev.revision))
            && (forall p :: p in members ==>
                  members[p].confirmation.Some? && members[p].confirmation.value.shared == SharedOf(rev))))
  }

  predicate HasPending(proposals: map<nat, Store.ChangeProposal>) {
    exists i :: i in proposals && proposals[i].status == Store.Pending
  }

  predicate CanPlan(f: Facts, care: CarePort) {
    var issues := IssuesOf(f, care);
    && AllConfirmed(f, issues)
    && issues == []
    && !HasPending(f.proposals)
    && f.currentRevision == f.rev.revision
    && SourceReady(f.rev, f.members)
  }

  datatype Stage = ReadyToPlan | ConflictReview | CollectingMembers | DraftConversation

  function StageOf(f: Facts, care: CarePort): Stage {
    var issues := IssuesOf(f, care);
    if CanPlan(f, care) then ReadyToPlan
    else if issues != [] || HasPending(f.proposals) then ConflictReview
    else if exists key :: key in f.rev.bindings && StatusOfMember(f, issues, key) != Draft then CollectingMembers
    else DraftConversation
  }

  // ---- Consistent rows ---------------------------------------------------------------------

  /** The confirmation `_confirm` records for the member with this key on a revision. */
  function ConfirmationOf(r: Revision, key: nat): Store.Confirmation
    requires key in r.bindings
  {
    Store.Confirmation(r.revision, SourceOf(r), SharedOf(r), MemberOf(r, key))
  }

  /** The stored rows belong to the trip's revisions: one row per bound member, and every confirmation was made on a
      revision the draft service really had, of which the given one is the only one with its number. */
  ghost predicate RowsConsistent(rev: Revision, members: map<Store.Pid, Store.Member>, history: seq<Revision>) {
    && (forall i :: 0 <= i < |history| ==> history[i].bindings == rev.bindings && (history[i].revision == rev.revision ==> history[i] == rev))
    && (forall key :: key in rev.bindings ==> rev.bindings[key] in members)
    && (forall p :: p in members ==> exists key :: RowFor(rev, members, history, p, key))
  }

  ghost predicate RowFor(rev: Revision, members: map<Store.Pid, Store.Member>, history: seq<Revision>, p: Store.Pid, key: nat)
    requires p in members
  {
    && key in rev.bindings && rev.bindings[key] == p
    && (members[p].confirmation.Some? ==> exists i :: ConfirmedAt(members[p].confirmation.value, history, i, key))
  }

  ghost predicate ConfirmedAt(c: Store.Confirmation, history: seq<Revision>, i: int, key: nat) {
    0 <= i < |history| && key in history[i].bindings && c == ConfirmationOf(history[i], key)
  }

  /** The member's confirmation matches the trip and the member's own part of the revision, whenever it was given. */
  ghost predicate Agrees(f: Facts, key: nat)
    requires key in f.rev.bindings
  {
    var p := f.rev.bindings[key];
    && p in f.members && f.members[p].confirmation.Some?
    && f.members[p].confirmation.value.shared == SharedOf(f.rev)
    && f.members[p].confirmation.value.member == MemberOf(f.rev, key)
    && (p == f.organizer || p !in f.access || f.access[p] != AccessWithdrawn)
    && (forall i :: 0 <= i < |f.failed| ==> f.failed[i].byParticipant && f.failed[i].actor != p)
  }

  ghost predicate ConfirmedExactly(f: Facts, key: nat)
    requires key in f.rev.bindings
  {
    var p := f.rev.bindings[key];
    p in f.members && f.members[p].confirmation == Some(ConfirmationOf(f.rev, key))
  }

  ghost predicate EveryoneAgrees(f: Facts) {
    forall key :: key in f.rev.bindings ==> Agrees(f, key)
  }

  ghost predicate SomeoneConfirmedExactly(f: Facts) {
    exists key :: key in f.rev.bindings && ConfirmedExactly(f, key)
  }

  /** A member whose confirmation carries the current revision number confirmed exactly this revision. */
  lemma SameNumberSameRevision(f: Facts, history: seq<Revision>, key: nat)
    requires RowsConsistent(f.rev, f.members, history) && key in f.rev.bindings
    ensures f.rev.bindings[key] in f.members
    ensures var c := f.members[f.rev.bindings[key]].confirmation;
      c.Some? && c.value.revision == f.rev.revision ==> ConfirmedExactly(f, key)
  {
    var p := f.rev.bindings[key];
    var k :| RowFor(f.rev, f.members, history, p, k);
    assert k == key;
    if f.members[p].confirmation.Some? && f.members[p].confirmation.value.revision == f.rev.revision {
      var i :| ConfirmedAt(f.members[p].confirmation.value, history, i, key);
      assert history[i] == f.rev;
    }
  }

  lemma RowHasKey(f: Facts, history: seq<Revision>, p: Store.Pid) returns (key: nat)
    requires RowsConsistent(f.rev, f.members, history) && EveryoneAgrees(f) && p in f.members
    ensures key in f.rev.bindings && f.rev.bindings[key] == p && Agrees(f, key)
    ensures f.members[p].confirmation.value.revision == f.rev.revision ==> ConfirmedExactly(f, key)
  {
    hide SharedOf, MemberOf, RelevantFailure, Withdrawn;
    key :| RowFor(f.rev, f.members, history, p, key);
    SameNumberSameRevision(f, history, key);
  }

  lemma SourceReadyNeedsExact(f: Facts, history: seq<Revision>)
    requires RowsConsistent(f.rev, f.members, history) && EveryoneAgrees(f) && SourceReady(f.rev, f.members)
    ensures SomeoneConfirmedExactly(f)
  {
    var p :| p in f.members && f.members[p].confirmation.Some? && f.members[p].confirmation.value.source == SourceOf(f.rev);
    hide RowsConsistent, EveryoneAgrees, SourceReady;
    var key :| RowFor(f.rev, f.members, history, p, key);
    var i :| ConfirmedAt(f.members[p].confirmation.value, history, i, key);
    assert ConfirmedExactly(f, key);
  }

  lemma ExactGivesSourceReady(f: Facts, history: seq<Revision>)
    requires RowsConsistent(f.rev, f.members, history) && EveryoneAgrees(f) && SomeoneConfirmedExactly(f)
    ensures SourceReady(f.rev, f.members)
  {
    hide RowsConsistent, EveryoneAgrees, MemberOf, RelevantFailure, Withdrawn;
    forall p | p in f.members
      ensures f.members[p].confirmation.Some?
      ensures f.members[p].confirmation.value.shared == SharedOf(f.rev)
      ensures f.members[p].confirmation.value.revision == f.rev.revision ==>
        f.members[p].confirmation.value.source == SourceOf(f.rev)
    {
      var key := RowHasKey(f, history, p);
    }
  }

  /** In consistent states the source test asks for one thing: somebody confirmed exactly this revision. */
  lemma SourceReadyIff(f: Facts, history: seq<Revision>)
    requires RowsConsistent(f.rev, f.members, history)
    requires EveryoneAgrees(f)
    ensures SourceReady(f.rev, f.members) <==> SomeoneConfirmedExactly(f)
  {
    hide *;
    if SourceReady(f.rev, f.members) {
      SourceReadyNeedsExact(f, history);
    }
    if SomeoneConfirmedExactly(f) {
      ExactGivesSourceReady(f, history);
    }
  }

  lemma AllConfirmedIff(f: Facts)
    ensures AllConfirmed(f, []) <==> EveryoneAgrees(f)
  {
    hide SharedOf, MemberOf;
    forall key | key in f.rev.bindings
      ensures StatusOfMember(f, [], key) == Confirmed <==> Agrees(f, key)
    {
    }
  }

  /** Planning is allowed exactly when: the evaluator's facts hold, nothing is pending, the draft service and the store
      agree on the revision, every member's confirmation matches the current trip and the member's own part and no
      member was withdrawn, and at least one member confirmed exactly this revision. */
  lemma CanPlanIff(f: Facts, care: CarePort, history: seq<Revision>)
    requires RowsConsistent(f.rev, f.members, history)
    requires TripDraft.SequentialKeys(f.rev.understanding.participants)
    ensures CanPlan(f, care) <==>
      && ConflictFree(f.rev, Some(f.organizer), care)
      && !HasPending(f.proposals)
      && f.currentRevision == f.rev.revision
      && EveryoneAgrees(f)
      && SomeoneConfirmedExactly(f)
  {
    hide *;
    EvaluateEmptyIff(f.rev, Some(f.organizer), care);
    AllConfirmedIff(f);
    if EveryoneAgrees(f) {
      SourceReadyIff(f, history);
    }
    CanPlanParts(f, care);
  }

  lemma CanPlanParts(f: Facts, care: CarePort)
    ensures CanPlan(f, care) <==>
      && AllConfirmed(f, [])
      && Evaluate(f.rev, Some(f.organizer), care) == []
      && !HasPending(f.proposals)
      && f.currentRevision == f.rev.revision
      && SourceReady(f.rev, f.members)
  {
    hide Evaluate, AllConfirmed, SourceReady, HasPending;
  }

  /** Because bootstrap inserts a row for every member, no trip is ever shown as still in draft conversation. */
  lemma NeverInDraftConversation(f: Facts, care: CarePort, history: seq<Revision>)
    requires RowsConsistent(f.rev, f.members, history)
    ensures StageOf(f, care) != DraftConversation
  {
    hide IssuesOf, CanPlan, SharedOf, MemberOf, RelevantFailure, Withdrawn, RelevantIssue;
    var key := f.rev.understanding.participants[0].memberKey;
    assert key in KeySet(f.rev.understanding.participants);
    assert StatusOfMember(f, IssuesOf(f, care), key) != Draft;
  }

  /** A member is shown as confirmed exactly if the stored confirmation matches the shared trip and the member's own part,
      the member has not been withdrawn, and no issue and no failed attempt concerns the member or everybody. */
  lemma MemberStatusIff(f: Facts, issues: seq<Issue>, key: nat)
    requires key in f.rev.bindings
    ensures StatusOfMember(f, issues, key) == Draft <==> f.rev.bindings[key] !in f.members
    ensures StatusOfMember(f, issues, key) == Confirmed <==>
      && Agrees(f, key)
      && forall i :: 0 <= i < |issues| ==>
           issues[i].participant.Some? && issues[i].participant.value != f.rev.bindings[key] && f.rev.bindings[key] !in issues[i].related
  {
    hide SharedOf, MemberOf;
  }

  /** What a trip is shown as: ready exactly if it may plan; under review if its draft has a conflict or a proposal is
      pending; and otherwise as collecting its members. */
  lemma StageIff(f: Facts, care: CarePort, history: seq<Revision>)
    requires RowsConsistent(f.rev, f.members, history)
    requires TripDraft.SequentialKeys(f.rev.understanding.participants)
    ensures StageOf(f, care) == ReadyToPlan <==> CanPlan(f, care)
    ensures StageOf(f, care) == ConflictReview <==>
      && !CanPlan(f, care)
      && (!ConflictFree(f.rev, Some(f.organizer), care) || exists i :: i in f.proposals && f.proposals[i].status.Pending?)
    ensures StageOf(f, care) == CollectingMembers <==>
      && !CanPlan(f, care) && ConflictFree(f.rev, Some(f.organizer), care)
      && forall i :: i in f.proposals ==> !f.proposals[i].status.Pending?
  {
    hide CanPlan, ConflictFree, Evaluate, StatusOfMember;
    EvaluateEmptyIff(f.rev, Some(f.organizer), care);
    NeverInDraftConversation(f, care, history);
  }
}
