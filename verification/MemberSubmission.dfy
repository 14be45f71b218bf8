/** A member's submission: the draft service revises the draft first, and the store follows. What it does case by case,
    what a retry does after success, and after a crash between the two. */
module MemberSubmission {
  import opened Prelude
  import opened Digests
  import opened Store = CollaborationStore
  import opened StoreFrames
  import opened ReplayLaws
  import opened VersionLaws

  datatype ServiceError =
    | RevisionUnavailable | DraftStale | ConfirmationRequired | NotBound | ProposalNotFound
    | Unauthenticated(reason: AuthError) | Refused(error: StoreError)

  /** What the draft service answers: a revision - the same one for a repeated request - or fixed questions, or nothing. */
  datatype DraftAnswer = Revised(revision: Revision) | Questions | DraftUnavailable

  datatype Submitted = Advanced(version: nat) | AskedQuestions

  datatype Submission = Submission(token: Secret, baseRevision: nat, expectedVersion: nat, key: string)

  predicate Completed(db: Db, k: IdemKey) {
    k in db.idempotency && db.idempotency[k].result.Some?
  }

  function AdvanceKey(p: Pid, key: string): IdemKey {
    IdemKey(ParticipantActor(p), AdvanceOp, key)
  }

  /** The store's checks before the draft service is asked; a replay of a finished advance skips them. */
  function SubmitRefusal(db: Db, trip: TripId, p: Pid, s: Submission, now: Time): Option<StoreError> {
    if Completed(db, AdvanceKey(p, s.key)) then None
    else if trip !in db.sessions then Some(NotFound)
    else if s.expectedVersion != db.sessions[trip].version then Some(VersionStale)
    else if s.baseRevision != db.sessions[trip].currentRevision then Some(RevisionStale)
    else if HasActiveLease(db, trip, now) then Some(OperationInProgress)
    else None
  }

  predicate Continues(next: Revision, current: Revision, trip: TripId, s: Submission) {
    next.tripId == trip && next.revision == s.baseRevision + 1 && next.bindings == current.bindings
  }

  function AdvanceOf(trip: TripId, p: Pid, s: Submission, next: nat, now: Time): Call {
    Call(DoAdvance(trip, s.baseRevision, next, s.expectedVersion, ParticipantActor(p), s.key), now)
  }

  function AfterAdvance(outcome: Outcome): Result<Submitted, ServiceError> {
    match outcome.reply
    case AtVersion(v) => Ok(Advanced(v))
    case Failed(e) => Err(Refused(e))
    case _ => Ok(Advanced(0))
  }

  datatype Submit = Submit(db: Db, result: Result<Submitted, ServiceError>)

  /** `submit_member` for an authenticated member; `current` is the draft service's revision and `answer` its answer. */
  function SubmitAs(db: Db, trip: TripId, p: Pid, current: Option<Revision>, answer: DraftAnswer, s: Submission, now: Time): Submit {
    var refusal := SubmitRefusal(db, trip, p, s, now);
    if refusal.Some? then Submit(db, Err(Refused(refusal.value)))
    else if current.None? then Submit(db, Err(RevisionUnavailable))
    else if current.value.tripId != trip then Submit(db, Err(DraftStale))
    else
      match answer
      case DraftUnavailable => Submit(db, Err(RevisionUnavailable))
      case Questions => Submit(db, Ok(AskedQuestions))
      case Revised(next) =>
        if !Continues(next, current.value, trip, s) then Submit(db, Err(DraftStale))
        else
          var outcome := Apply(db, AdvanceOf(trip, p, s, next.revision, now));
          Submit(outcome.db, AfterAdvance(outcome))
  }

  // ---- One submission ------------------------------------------------------------------------

  /** A submission that advances moves the trip by one revision and one version and leaves every row of the members,
      invitations, sessions and proposals alone; any other changes nothing. */
  lemma SubmitEffect(
    db: Db, trip: TripId, p: Pid, current: Option<Revision>, answer: DraftAnswer, s: Submission, now: Time)
    requires RecordsComplete(db)
    ensures var r := SubmitAs(db, trip, p, current, answer, s, now);
      if r.result.Ok? && r.result.value.Advanced? && !Completed(db, AdvanceKey(p, s.key)) then
        && trip in db.sessions && !HasActiveLease(db, trip, now)
        && db.sessions[trip].version == s.expectedVersion && db.sessions[trip].currentRevision == s.baseRevision
        && r.db.sessions == db.sessions[trip := db.sessions[trip].(
             currentRevision := s.baseRevision + 1, version := s.expectedVersion + 1)]
        && r.result.value.version == s.expectedVersion + 1
        && r.db == db.(sessions := r.db.sessions, idempotency := r.db.idempotency)
        && Completed(r.db, AdvanceKey(p, s.key))
      else r.db == db
  {
    hide HasActiveLease, ValidRevision;
    var k := AdvanceKey(p, s.key);
    assert k in db.idempotency ==> Completed(db, k);
  }

  // ---- Retries -------------------------------------------------------------------------------

  lemma AdvancedCommits(
    db: Db, trip: TripId, p: Pid, current: Option<Revision>, next: Revision, s: Submission, now: Time)
    requires RecordsComplete(db) && !Completed(db, AdvanceKey(p, s.key))
    requires SubmitAs(db, trip, p, current, Revised(next), s, now).result.Ok?
    ensures var c := AdvanceOf(trip, p, s, next.revision, now);
      Commits(db, c) && SubmitAs(db, trip, p, current, Revised(next), s, now).db == Apply(db, c).db
    ensures Apply(db, AdvanceOf(trip, p, s, next.revision, now)).reply == AtVersion(s.expectedVersion + 1)
  {
    hide HasActiveLease, ValidRevision;
    var k := AdvanceKey(p, s.key);
    assert k in db.idempotency ==> Completed(db, k);
  }

  /** Whatever happened in between - other members' edits, confirmations, planning - repeating a submission that advanced
      gives the same answer and changes nothing, although the version it expected is long gone. */
  lemma RetryAfterSuccess(
    db: Db, trip: TripId, p: Pid, current: Option<Revision>, next: Revision, s: Submission, now: Time,
    between: seq<Call>, later: Option<Revision>, again: Time)
    requires RecordsComplete(db) && !Completed(db, AdvanceKey(p, s.key))
    requires SubmitAs(db, trip, p, current, Revised(next), s, now).result.Ok?
    requires later.Some? && later.value.tripId == trip && later.value.bindings == next.bindings
    ensures var first := SubmitAs(db, trip, p, current, Revised(next), s, now);
      var end := Run(first.db, between);
      SubmitAs(end, trip, p, later, Revised(next), s, again) == Submit(end, first.result)
  {
    AdvancedCommits(db, trip, p, current, next, s, now);
    var c, repeat := AdvanceOf(trip, p, s, next.revision, now), AdvanceOf(trip, p, s, next.revision, again);
    ReplayReturnsOriginal(db, c, between, repeat);
    var end := Run(Apply(db, c).db, between);
    RecordStays(db, c, between);
    assert Completed(end, AdvanceKey(p, s.key));
    hide Apply, Run, Commits, RecordsComplete, ValidRevision;
  }

  lemma RecordStays(db: Db, c: Call, between: seq<Call>)
    requires RecordsComplete(db) && c.command.DoAdvance? && Commits(db, c)
    ensures var end := Run(Apply(db, c).db, between);
      Completed(end, IdemKey(c.command.actor, AdvanceOp, c.command.key))
  {
    hide Apply, Run, Commits, RecordsComplete;
    StepKeepsRecords(db, c);
    CommitGoesOnRecord(db, c);
    RunKeepsOnRecord(Apply(db, c).db, between, c.command, Withheld(Apply(db, c).reply));
  }

  /** A trip that no call updates keeps its session row. */
  lemma {:induction false} NoUpdateKeepsRow(db: Db, calls: seq<Call>, trip: TripId)
    requires trip in db.sessions && UpdateCount(db, calls, trip) == 0
    ensures trip in Run(db, calls).sessions && Run(db, calls).sessions[trip] == db.sessions[trip]
    decreases |calls|
  {
    hide Apply, Commits, Versioned;
    if calls != [] {
      SessionRowsStep(db, calls[0], trip);
      NoUpdateKeepsRow(Apply(db, calls[0]).db, calls[1..], trip);
    }
  }

  /** What stops a submission whose key is unused, once the draft service has its revision. */
  lemma SubmitsIff(db: Db, trip: TripId, p: Pid, later: Revision, next: Revision, s: Submission, now: Time)
    requires RecordsComplete(db) && !Completed(db, AdvanceKey(p, s.key)) && trip in db.sessions
    requires Continues(next, later, trip, s) && later.tripId == trip
    ensures var r := SubmitAs(db, trip, p, Some(later), Revised(next), s, now);
      if db.sessions[trip].version != s.expectedVersion then r == Submit(db, Err(Refused(VersionStale)))
      else if db.sessions[trip].currentRevision != s.baseRevision then r == Submit(db, Err(Refused(RevisionStale)))
      else if HasActiveLease(db, trip, now) then r == Submit(db, Err(Refused(OperationInProgress)))
      else
        && r.result == Ok(Advanced(s.expectedVersion + 1))
        && r.db.sessions == db.sessions[trip := db.sessions[trip].(
             currentRevision := s.baseRevision + 1, version := s.expectedVersion + 1)]
  {
    hide HasActiveLease, ValidRevision;
    var k := AdvanceKey(p, s.key);
    assert k in db.idempotency ==> Completed(db, k);
  }

  /** A crash after the draft service revised the draft leaves the store behind, and the draft service answers the retry
      with the revision it made. Whatever the other actors do in between, the retry moves the store exactly if nothing
      updated the trip since the interrupted attempt, its key is still unused and no lease is active at that time; then it
      moves the trip as the interrupted attempt would have. Otherwise it changes nothing. */
  lemma RetryAfterCrashIff(
    db: Db, trip: TripId, p: Pid, current: Revision, next: Revision, s: Submission, now: Time,
    between: seq<Call>, later: Revision, again: Time)
    requires RecordsComplete(db) && !Completed(db, AdvanceKey(p, s.key)) && SubmitRefusal(db, trip, p, s, now).None?
    requires Continues(next, current, trip, s) && later.tripId == trip && later.bindings == next.bindings
    ensures var end := Run(db, between);
      var r := SubmitAs(end, trip, p, Some(later), Revised(next), s, again);
      var advances := UpdateCount(db, between, trip) == 0 && !Completed(end, AdvanceKey(p, s.key)) && !HasActiveLease(end, trip, again);
      && trip in end.sessions
      && (r.db != end <==> advances)
      && (advances ==>
            && r.result == Ok(Advanced(s.expectedVersion + 1))
            && r.db.sessions == end.sessions[trip := db.sessions[trip].(
                 currentRevision := s.baseRevision + 1, version := s.expectedVersion + 1)])
      && (!advances && !Completed(end, AdvanceKey(p, s.key)) ==>
            r.result == Err(Refused(if UpdateCount(db, between, trip) != 0 then VersionStale else OperationInProgress)))
  {
    hide Run, UpdateCount, HasActiveLease, RecordsComplete, Apply, ValidRevision;
    var end := Run(db, between);
    RunKeepsComplete(db, between);
    VersionCountsUpdates(db, between, trip);
    if UpdateCount(db, between, trip) == 0 {
      NoUpdateKeepsRow(db, between, trip);
    }
    if Completed(end, AdvanceKey(p, s.key)) {
      SubmitEffect(end, trip, p, Some(later), Revised(next), s, again);
    } else {
      hide SubmitAs;
      SubmitsIff(end, trip, p, later, next, s, again);
    }
  }

  /** What it takes to advance, all of it: the store stands at the version and revision the member quotes, no lease of the
      trip is in force, and the draft service answers its current revision of the trip with the next one, under the same
      bindings. Fixed questions are passed on only if the store's part holds as well. */
  lemma SubmitAccepts(
    db: Db, trip: TripId, p: Pid, current: Option<Revision>, answer: DraftAnswer, s: Submission, now: Time)
    requires RecordsComplete(db)
    requires IdemKey(ParticipantActor(p), AdvanceOp, s.key) !in db.idempotency
    ensures var r := SubmitAs(db, trip, p, current, answer, s, now).result;
      var stands :=
        && trip in db.sessions && db.sessions[trip].version == s.expectedVersion
        && db.sessions[trip].currentRevision == s.baseRevision
        && (forall op :: op in db.leases && db.leases[op].trip == trip ==>
              db.leases[op].completedAt.Some? || db.leases[op].expiresAt <= now)
        && current.Some? && current.value.tripId == trip;
      && (r == Ok(AskedQuestions) <==> stands && answer.Questions?)
      && (r == Ok(Advanced(s.expectedVersion + 1)) <==>
            && stands && answer.Revised? && answer.revision.tripId == trip
            && answer.revision.revision == s.baseRevision + 1 && answer.revision.bindings == current.value.bindings)
      && (r.Ok? ==> r == Ok(AskedQuestions) || r == Ok(Advanced(s.expectedVersion + 1)))
  {
    hide ValidRevision;
  }
}
