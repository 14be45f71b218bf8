/** Three programs of app/application/collaboration_service.py that drive the store step by step: a member's submission,
    confirming a member, and reviewing a member's change proposal. */
module CollaborationService {
  import opened Prelude
  import opened Digests
  import opened HardConflicts
  import opened Store = CollaborationStore
  import opened StoreFrames
  import opened TripViews
  import opened Readiness
  import opened Reconfirmation
  import opened CollaborationRepository
  import opened MemberSubmission
  import opened ReplayLaws
  import ConflictIssues
  import TripDraft

  /** `_member_key`. */
  ghost predicate KeyFor(r: Revision, p: Pid, key: nat) {
    key in r.bindings && r.bindings[key] == p
  }

  /** An issue that concerns the participant and is not a mere conflict keeps the participant from confirming. */
  predicate Blocked(issues: seq<Issue>, p: Pid) {
    exists i :: 0 <= i < |issues| && issues[i].code != ConflictCode
      && (issues[i].participant.None? || issues[i].participant == Some(p) || p in issues[i].related)
  }

  function Latest(history: map<TripId, seq<Revision>>, trip: TripId): Option<Revision> {
    if trip in history && history[trip] != [] then Some(history[trip][|history[trip]| - 1]) else None
  }

  function AfterReply(reply: Reply): Result<nat, ServiceError> {
    match reply
    case AtVersion(v) => Ok(v)
    case Failed(e) => Err(Refused(e))
    case _ => Ok(0)
  }

  class Service {
    const repository: Repository
    const care: CarePort
    var history: map<TripId, seq<Revision>>

    constructor (repository: Repository, care: CarePort, history: map<TripId, seq<Revision>>)
      ensures this.repository == repository && this.care == care && this.history == history
    {
      this.repository, this.care, this.history := repository, care, history;
    }

    /** The issues `_derive` reports for a stored trip. */
    function Issues(rev: Revision, trip: TripId): seq<Issue>
      requires trip in repository.sessions
      reads repository
    {
      Evaluate(rev, Some(repository.sessions[trip].organizer), care)
    }

    /** `_confirm`: it stores the confirmation of the current revision, or it stores nothing. */
    method Confirm(trip: TripId, p: Pid, baseRevision: nat, expectedVersion: nat, key: string, now: Time)
      returns (r: Result<nat, ServiceError>)
      modifies repository
      ensures var db := old(repository.Snapshot());
        var current := Latest(history, trip);
        if current.None? then r == Err(RevisionUnavailable) && repository.Snapshot() == db
        else if baseRevision != current.value.revision then r == Err(DraftStale) && repository.Snapshot() == db
        else if trip !in db.sessions then r == Err(Refused(NotFound)) && repository.Snapshot() == db
        else if Blocked(old(Issues(current.value, trip)), p) then r == Err(ConfirmationRequired) && repository.Snapshot() == db
        else if !(exists k :: KeyFor(current.value, p, k)) then r == Err(NotBound) && repository.Snapshot() == db
        else
          exists k :: (KeyFor(current.value, p, k) &&
            var outcome := Store.Confirm(db, trip, p, ConfirmationOf(current.value, k), expectedVersion, key, now);
            r == AfterReply(outcome.reply) && repository.Snapshot() == outcome.db)
    {
      hide Evaluate, Store.Confirm, SharedOf, MemberOf;
      var current := Latest(history, trip);
      if current.None? {
        return Err(RevisionUnavailable);
      }
      var revision := current.value;
      if baseRevision != revision.revision {
        return Err(DraftStale);
      }
      if trip !in repository.sessions {
        return Err(Refused(NotFound));
      }
      if Blocked(Issues(revision, trip), p) {
        return Err(ConfirmationRequired);
      }
      if !(exists k :: k in revision.bindings && revision.bindings[k] == p) {
        assert forall k :: !KeyFor(revision, p, k);
        return Err(NotBound);
      }
      var k :| k in revision.bindings && revision.bindings[k] == p;
      assert KeyFor(revision, p, k);
      var reply := repository.RecordConfirmation(trip, p, ConfirmationOf(revision, k), expectedVersion, key, now);
      return AfterReply(reply);
    }

    /** `submit_member`: authenticate, check the store unless this is a replay, ask the draft service, advance the store. */
    method SubmitMember(s: Submission, answer: DraftAnswer, now: Time) returns (r: Result<Submitted, ServiceError>)
      modifies repository
      ensures var db := old(repository.Snapshot());
        match Authenticate(db, s.token, now)
        case Err(e) => r == Err(Unauthenticated(e)) && repository.Snapshot() == db
        case Ok(id) =>
          id in db.actorSessions &&
          var row := db.actorSessions[id];
          Submit(repository.Snapshot(), r) ==
          SubmitAs(db, row.trip, row.participant, Latest(history, row.trip), answer, s, now)
    {
      hide Store.Advance, HasActiveLease;
      var session := repository.AuthenticateParticipant(s.token, now);
      if session.Err? {
        return Err(Unauthenticated(session.error));
      }
      var trip, p := repository.actorSessions[session.value].trip, repository.actorSessions[session.value].participant;
      if !Completed(repository.Snapshot(), AdvanceKey(p, s.key)) {
        if trip !in repository.sessions {
          return Err(Refused(NotFound));
        }
        if s.expectedVersion != repository.sessions[trip].version {
          return Err(Refused(VersionStale));
        }
        if s.baseRevision != repository.sessions[trip].currentRevision {
          return Err(Refused(RevisionStale));
        }
        if HasActiveLease(repository.Snapshot(), trip, now) {
          return Err(Refused(OperationInProgress));
        }
      }
      var current := Latest(history, trip);
      if current.None? {
        return Err(RevisionUnavailable);
      }
      if current.value.tripId != trip {
        return Err(DraftStale);
      }
      if answer.DraftUnavailable? {
        return Err(RevisionUnavailable);
      }
      if answer.Questions? {
        return Ok(AskedQuestions);
      }
      var revised := answer.revision;
      if revised.tripId != trip || revised.revision != s.baseRevision + 1 || revised.bindings != current.value.bindings {
        return Err(DraftStale);
      }
      var reply := repository.AdvanceRevision(
        trip, s.baseRevision, revised.revision, s.expectedVersion, ParticipantActor(p), s.key, now);
      if reply.Failed? {
        return Err(Refused(reply.error));
      }
      return Ok(Advanced(if reply.AtVersion? then reply.version else 0));
    }

    /** `review_member_change_proposal`: an approval first advances the revision to the one the draft service made of the
        proposal, then closes the proposal at the next version; a rejection only closes it. */
    method ReviewMemberChangeProposal(
      trip: TripId, token: Secret, q: ReviewRequest, revised: Option<Revision>, now: Time) returns (r: Result<nat, ServiceError>)
      modifies repository
      ensures Reviewed(repository.Snapshot(), r) == ReviewAs(old(repository.Snapshot()), trip, token, q, revised, now)
    {
      hide Store.Advance, Store.Review;
      if !IsOrganizer(repository.Snapshot(), trip, token) {
        return Err(Refused(PermissionRequired));
      }
      if repository.sessions[trip].version != q.expectedVersion {
        return Err(Refused(VersionStale));
      }
      if q.proposal !in repository.proposals || repository.proposals[q.proposal].trip != trip {
        return Err(ProposalNotFound);
      }
      if repository.proposals[q.proposal].status != Pending {
        return Err(Refused(ProposalNotPending));
      }
      if repository.sessions[trip].currentRevision != q.baseRevision {
        return Err(Refused(RevisionStale));
      }
      var reviewVersion := q.expectedVersion;
      var decision := Rejected;
      if q.approve {
        if revised.None? {
          return Err(RevisionUnavailable);
        }
        var advanced := repository.AdvanceRevision(
          trip, q.baseRevision, revised.value.revision, q.expectedVersion,
          OrganizerActor(repository.sessions[trip].organizer), q.key + "-advance", now);
        if advanced.Failed? {
          return Err(Refused(advanced.error));
        }
        reviewVersion := reviewVersion + 1;
        decision := Approved;
      }
      var reply := repository.ReviewChangeProposal(trip, q.proposal, reviewVersion, decision, q.note);
      if reply.Failed? {
        return Err(Refused(reply.error));
      }
      return Ok(reviewVersion + 1);
    }
  }

  // ---- Reviewing -----------------------------------------------------------------------------

  datatype ReviewRequest = ReviewRequest(
    proposal: nat, expectedVersion: nat, baseRevision: nat, approve: bool, note: Option<string>, key: string)

  datatype Reviewed = Reviewed(db: Db, result: Result<nat, ServiceError>)

  predicate Reviewable(db: Db, trip: TripId, q: ReviewRequest) {
    && trip in db.sessions && db.sessions[trip].version == q.expectedVersion && db.sessions[trip].currentRevision == q.baseRevision
    && q.proposal in db.proposals && db.proposals[q.proposal].trip == trip && db.proposals[q.proposal].status == Pending
  }

  function ReviewCheck(db: Db, trip: TripId, token: Secret, q: ReviewRequest): (e: Option<ServiceError>)
    ensures e.None? <==> IsOrganizer(db, trip, token) && Reviewable(db, trip, q)
  {
    if !IsOrganizer(db, trip, token) then Some(Refused(PermissionRequired))
    else if db.sessions[trip].version != q.expectedVersion then Some(Refused(VersionStale))
    else if q.proposal !in db.proposals || db.proposals[q.proposal].trip != trip then Some(ProposalNotFound)
    else if db.proposals[q.proposal].status != Pending then Some(Refused(ProposalNotPending))
    else if db.sessions[trip].currentRevision != q.baseRevision then Some(Refused(RevisionStale))
    else None
  }

  function ApprovalOf(db: Db, trip: TripId, q: ReviewRequest, revision: nat, now: Time): Call
    requires trip in db.sessions
  {
    Call(DoAdvance(trip, q.baseRevision, revision, q.expectedVersion, OrganizerActor(db.sessions[trip].organizer), q.key + "-advance"), now)
  }

  function ReviewAs(db: Db, trip: TripId, token: Secret, q: ReviewRequest, revised: Option<Revision>, now: Time): Reviewed {
    var refusal := ReviewCheck(db, trip, token, q);
    if refusal.Some? then Reviewed(db, Err(refusal.value))
    else if !q.approve then Closed(db, trip, q, q.expectedVersion, Rejected)
    else if revised.None? then Reviewed(db, Err(RevisionUnavailable))
    else
      var advanced := Apply(db, ApprovalOf(db, trip, q, revised.value.revision, now));
      if advanced.reply.Failed? then Reviewed(advanced.db, Err(Refused(advanced.reply.error)))
      else Closed(advanced.db, trip, q, q.expectedVersion + 1, Approved)
  }

  function Closed(db: Db, trip: TripId, q: ReviewRequest, version: nat, decision: Decision): Reviewed {
    var outcome := Store.Review(db, trip, q.proposal, version, decision, q.note);
    Reviewed(outcome.db, if outcome.reply.Failed? then Err(Refused(outcome.reply.error)) else Ok(version + 1))
  }

  /** What a completed review has done to the trip. */
  ghost predicate ReviewDone(a: Db, b: Db, trip: TripId, q: ReviewRequest, revision: nat) {
    && trip in a.sessions && trip in b.sessions && q.proposal in a.proposals && q.proposal in b.proposals
    && b.sessions[trip] == a.sessions[trip].(
         currentRevision := if q.approve then revision else a.sessions[trip].currentRevision,
         version := a.sessions[trip].version + (if q.approve then 2 else 1))
    && b.proposals == a.proposals[q.proposal := a.proposals[q.proposal].(
         status := if q.approve then Approved else Rejected, note := q.note)]
    && b.members == a.members && b.invitations == a.invitations && b.actorSessions == a.actorSessions
    && b.leases == a.leases
  }

  lemma ApprovalCommitsIff(db: Db, trip: TripId, q: ReviewRequest, revision: nat, now: Time)
    requires RecordsComplete(db) && Reviewable(db, trip, q)
    ensures var c := ApprovalOf(db, trip, q, revision, now);
      Commits(db, c) <==>
        && q.baseRevision < revision && !HasActiveLease(db, trip, now)
        && IdemKey(c.command.actor, AdvanceOp, c.command.key) !in db.idempotency
  {
    hide HasActiveLease;
  }

  lemma ApprovalEffect(db: Db, trip: TripId, q: ReviewRequest, revision: nat, now: Time)
    requires Reviewable(db, trip, q)
    ensures var c := ApprovalOf(db, trip, q, revision, now);
      var after := Apply(db, c).db;
      && after == db.(sessions := after.sessions, idempotency := after.idempotency)
      && (Commits(db, c) ==>
            && !Apply(db, c).reply.Failed?
            && after.sessions == db.sessions[trip := db.sessions[trip].(currentRevision := revision, version := q.expectedVersion + 1)])
      && (!Commits(db, c) ==> after == db)
  {
    hide HasActiveLease, Recall;
  }

  lemma ClosedEffect(db: Db, trip: TripId, q: ReviewRequest, version: nat, decision: Decision)
    requires decision != Pending && trip in db.sessions
    requires q.proposal in db.proposals && db.proposals[q.proposal].trip == trip && db.proposals[q.proposal].status == Pending
    ensures var r := Closed(db, trip, q, version, decision);
      if db.sessions[trip].version != version then r == Reviewed(db, Err(Refused(VersionStale)))
      else r == Reviewed(
        db.(sessions := db.sessions[trip := db.sessions[trip].(version := version + 1)],
            proposals := db.proposals[q.proposal := db.proposals[q.proposal].(status := decision, note := q.note)]),
        Ok(version + 1))
  {
  }

  /** A rejection passes on the request alone; an approval also needs the draft service's later revision, no active lease
      and an unused key. What passes is done completely; what does not pass changes nothing. */
  lemma ReviewIff(db: Db, trip: TripId, token: Secret, q: ReviewRequest, revised: Option<Revision>, now: Time)
    requires RecordsComplete(db)
    ensures var r := ReviewAs(db, trip, token, q, revised, now);
      && (r.result.Ok? <==>
            && IsOrganizer(db, trip, token) && Reviewable(db, trip, q)
            && (q.approve ==>
                  && revised.Some? && q.baseRevision < revised.value.revision && !HasActiveLease(db, trip, now)
                  && IdemKey(OrganizerActor(db.sessions[trip].organizer), AdvanceOp, q.key + "-advance") !in db.idempotency))
      && (r.result.Ok? ==> ReviewDone(db, r.db, trip, q, if revised.Some? then revised.value.revision else 0))
      && (r.result.Err? ==> r.db == db)
  {
    hide Apply, Commits, RecordsComplete, HasActiveLease, IsOrganizer, Closed;
    if ReviewCheck(db, trip, token, q).None? {
      if !q.approve {
        ClosedEffect(db, trip, q, q.expectedVersion, Rejected);
      } else if revised.Some? {
        var c := ApprovalOf(db, trip, q, revised.value.revision, now);
        ApprovalCommitsIff(db, trip, q, revised.value.revision, now);
        ApprovalEffect(db, trip, q, revised.value.revision, now);
        ClosedEffect(Apply(db, c).db, trip, q, q.expectedVersion + 1, Approved);
      }
    }
  }

  // ---- What confirming achieves --------------------------------------------------------------

  /** Right after a confirmation of the current revision the member counts as confirmed, unless access was withdrawn, an
      issue concerns the member (only conflicts are left), or a failed attempt does. */
  lemma ConfirmingConfirms(
    db: Db, c: Call, rev: Revision, key: nat, issues: seq<Issue>, failed: seq<Attempt>, later: Time)
    requires c.command.DoConfirm? && Commits(db, c)
    requires KeyFor(rev, c.command.participant, key) && c.command.confirmation == ConfirmationOf(rev, key)
    ensures var v := ViewOf(Apply(db, c).db, c.command.trip);
      v.session.Some? &&
      var f := FactsAt(v, rev, failed, later);
      && ConfirmedExactly(f, key)
      && (StatusOfMember(f, issues, key) == Confirmed <==>
            !Withdrawn(f, c.command.participant) && !RelevantIssue(issues, c.command.participant)
            && !RelevantFailure(failed, c.command.participant))
  {
    hide Apply, Commits, StatusOf, SharedOf, MemberOf;
    ConfirmView(db, c);
  }

  /** Between the two steps of an approval the proposal is still pending, so nobody may plan. */
  lemma HalfApprovedBlocksPlanning(
    db: Db, advance: Call, id: nat, rev: Revision, failed: seq<Attempt>, now: Time, care: CarePort)
    requires advance.command.DoAdvance? && Commits(db, advance)
    requires id in db.proposals && db.proposals[id].trip == advance.command.trip && db.proposals[id].status == Pending
    ensures var v := ViewOf(Apply(db, advance).db, advance.command.trip);
      v.session.Some? && !CanPlan(FactsAt(v, rev, failed, now), care)
  {
    hide Apply, Commits, StatusOf, Evaluate, AllConfirmed, SourceReady;
    AdvanceView(db, advance);
    assert id in ViewOf(db, advance.command.trip).proposals;
  }

  /** The entry concerns this participant, or nobody in particular. */
  predicate ForAllOr(r: Revision, member: Option<nat>, p: Pid) {
    member.Some? && member.value in r.bindings ==> r.bindings[member.value] == p
  }

  /** A confirmation is refused for its issues exactly if the bindings or the day's times are wrong, a field is missing or
      ambiguous that is the participant's or everybody's, or the participant's own care profile cannot be built. Conflicts
      between members do not stop anyone from confirming. */
  lemma BlockedIff(r: Revision, organizer: Pid, care: CarePort, p: Pid)
    requires TripDraft.SequentialKeys(r.understanding.participants)
    ensures Blocked(Evaluate(r, Some(organizer), care), p) <==>
      var u := r.understanding;
      || |u.participants| > 9 || !(1 in r.bindings && r.bindings[1] == organizer)
      || (u.trip.startTime.Some? && u.trip.endTime.Some? && u.trip.endTime.value <= u.trip.startTime.value)
      || (exists i :: 0 <= i < |u.missing| && ForAllOr(r, u.missing[i].slot.member, p))
      || (exists i :: 0 <= i < |u.ambiguities| && ForAllOr(r, u.ambiguities[i].slot.member, p))
      || (exists i: nat :: ConflictIssues.NoProfile(r, care, i, p))
  {
    hide Evaluate, ConflictIssues.NoProfile, ConflictIssues.GroupMerge, ConflictIssues.SamePlace, ConflictIssues.CapBelow;
    var issues := Evaluate(r, Some(organizer), care);
    if Blocked(issues, p) {
      var k :| 0 <= k < |issues| && Stops(issues[k], p);
      assert issues[k] in issues;
      BlockingIssue(r, organizer, care, p, issues[k]);
    }
    if Obstacle(r, organizer, care, p) {
      NamedBlocker(r, organizer, care, p);
    }
  }

  predicate Stops(x: Issue, p: Pid) {
    x.code != ConflictCode && (x.participant.None? || x.participant == Some(p) || p in x.related)
  }

  ghost predicate Obstacle(r: Revision, organizer: Pid, care: CarePort, p: Pid) {
    var u := r.understanding;
    || |u.participants| > 9 || !(1 in r.bindings && r.bindings[1] == organizer)
    || (u.trip.startTime.Some? && u.trip.endTime.Some? && u.trip.endTime.value <= u.trip.startTime.value)
    || (exists i :: 0 <= i < |u.missing| && ForAllOr(r, u.missing[i].slot.member, p))
    || (exists i :: 0 <= i < |u.ambiguities| && ForAllOr(r, u.ambiguities[i].slot.member, p))
    || (exists i: nat :: ConflictIssues.NoProfile(r, care, i, p))
  }

  lemma BlockingIssue(r: Revision, organizer: Pid, care: CarePort, p: Pid, x: Issue)
    requires TripDraft.SequentialKeys(r.understanding.participants)
    requires x in Evaluate(r, Some(organizer), care) && Stops(x, p)
    ensures Obstacle(r, organizer, care, p)
  {
    hide Evaluate, ConflictIssues.NoProfile, ConflictIssues.GroupMerge, ConflictIssues.SamePlace, ConflictIssues.CapBelow;
    ConflictIssues.IssuesAre(r, Some(organizer), care, x);
  }

  lemma Blocks(r: Revision, organizer: Pid, care: CarePort, p: Pid, x: Issue)
    requires TripDraft.SequentialKeys(r.understanding.participants)
    requires ConflictIssues.Tells(r, Some(organizer), care, x) && Stops(x, p)
    ensures Blocked(Evaluate(r, Some(organizer), care), p)
  {
    hide Evaluate, ConflictIssues.Tells;
    ConflictIssues.IssuesAre(r, Some(organizer), care, x);
    var issues := Evaluate(r, Some(organizer), care);
    var k :| 0 <= k < |issues| && issues[k] == x;
  }

  lemma NamedBlocker(r: Revision, organizer: Pid, care: CarePort, p: Pid)
    requires TripDraft.SequentialKeys(r.understanding.participants) && Obstacle(r, organizer, care, p)
    ensures Blocked(Evaluate(r, Some(organizer), care), p)
  {
    hide Evaluate, Blocked, ConflictIssues.NoProfile, ConflictIssues.GroupMerge, ConflictIssues.SamePlace, ConflictIssues.CapBelow;
    var u := r.understanding;
    if |u.participants| > 9 || !(1 in r.bindings && r.bindings[1] == organizer) {
      Blocks(r, organizer, care, p, Issue(TripDraft.Party, None, r.bindings.Values, Rule.BindingInvalid, InvalidCode));
    } else if u.trip.startTime.Some? && u.trip.endTime.Some? && u.trip.endTime.value <= u.trip.startTime.value {
      Blocks(r, organizer, care, p, Issue(TripDraft.OfTrip(TripDraft.EndTime), None, {}, WindowOrder, InvalidCode));
    } else if i :| 0 <= i < |u.missing| && ForAllOr(r, u.missing[i].slot.member, p) {
      var who := Concerned(r, u.missing[i].slot.member);
      Blocks(r, organizer, care, p, Issue(u.missing[i].slot.path, who, {}, FieldRequired, MissingCode));
    } else if i :| 0 <= i < |u.ambiguities| && ForAllOr(r, u.ambiguities[i].slot.member, p) {
      var who := Concerned(r, u.ambiguities[i].slot.member);
      Blocks(r, organizer, care, p, Issue(u.ambiguities[i].slot.path, who, {}, FieldAmbiguous, AmbiguousCode));
    } else {
      var i: nat :| ConflictIssues.NoProfile(r, care, i, p);
      Blocks(r, organizer, care, p,
             Issue(TripDraft.Member(i, TripDraft.CareOf(TripDraft.AssistanceHint)), Some(p), {}, CareProfileInvalid, InvalidCode));
    }
  }

  function Concerned(r: Revision, member: Option<nat>): (who: Option<nat>)
    ensures ConflictIssues.Concerns(r, member, who)
  {
    if member.Some? && member.value in r.bindings then Some(r.bindings[member.value]) else None
  }
}
