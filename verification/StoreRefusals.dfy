/** Every refusal of the store says something true about the tables and the clock. */
module StoreRefusals {
  import opened Prelude
  import opened CollaborationStore
  import opened StoreFrames
  import opened StoreAnswers
  import opened ReplayLaws
  import TripDraft

  /** The trip a call is about. */
  function TripAt(db: Db, c: Command): Option<TripId> {
    match c
    case DoBootstrap(r, _, _) => Some(r.tripId)
    case DoRedeem(token, _, _, _) =>
      if token in db.invitationOf && db.invitationOf[token] in db.invitations
      then Some(db.invitations[db.invitationOf[token]].trip) else None
    case DoAudit(a) => Some(a.trip)
    case DoBeginResolve(_, _, _) => None
    case DoCompleteResolve(_, _, _) => None
    case DoComplete(_, _) => None
    case _ => Some(c.trip)
  }

  /** What every error says about the store and the clock. */
  ghost predicate Holds(db: Db, c: Call, error: StoreError) {
    var m := c.command;
    match error
    case BindingInvalid =>
      m.DoBootstrap? && (1 !in m.revision.bindings || !TripDraft.SequentialKeys(m.revision.understanding.participants))
    case IdempotencyKeyReused =>
      || (m.DoBeginResolve? &&
            IdemKey(m.actor, ResolveOp, m.key) in db.idempotency && db.idempotency[IdemKey(m.actor, ResolveOp, m.key)].request != m.request)
      || (Recorded(m) && Admitted(db, m) &&
            KeyOf(db, m) in db.idempotency && db.idempotency[KeyOf(db, m)].request != RequestOf(m))
    case AlreadyExists => m.DoBootstrap? && m.revision.tripId in db.sessions
    case NotFound => TripAt(db, m).Some? && TripAt(db, m).value !in db.sessions
    case PermissionRequired =>
      (m.DoInvite? || m.DoRevoke?) && (m.trip in db.sessions ==> db.sessions[m.trip].organizerToken != m.organizerToken)
    case SelfInviteForbidden => m.DoInvite? && m.trip in db.sessions && m.participant == db.sessions[m.trip].organizer
    case VersionStale =>
      && (m.DoInvite? || m.DoRevoke? || m.DoPropose? || m.DoReview? || m.DoConfirm? || m.DoAdvance?)
      && m.trip in db.sessions && db.sessions[m.trip].version != m.expectedVersion
    case RevisionStale =>
      || (m.DoPropose? && m.trip in db.sessions && db.sessions[m.trip].currentRevision != m.baseRevision)
      || (m.DoAdvance? && (m.after <= m.before || (m.trip in db.sessions && db.sessions[m.trip].currentRevision != m.before)))
    case OperationInProgress => !m.DoReview? && TripAt(db, m).Some? && !Idle(db, TripAt(db, m).value, c.now)
    case OperationStale =>
      m.DoAcquire? && m.op in db.leases &&
      (|| db.leases[m.op].trip != m.trip || db.leases[m.op].digest != m.digest || db.leases[m.op].operation != m.operation
       || (db.leases[m.op].completedAt.None? && db.leases[m.op].expiresAt <= c.now))
    case ParticipantNotBound =>
      (m.DoInvite? || m.DoConfirm?) && (m.trip in db.members ==> m.participant !in db.members[m.trip])
    case InvitationActiveExists => m.DoInvite? && !NoneStanding(db, m.trip, m.participant)
    case InvitationUnavailable =>
      || (m.DoRedeem? &&
            (m.token in db.invitationOf && db.invitationOf[m.token] in db.invitations ==>
               var row := db.invitations[db.invitationOf[m.token]]; row.status.Revoked? || row.revokedAt.Some?))
      || (m.DoRevoke? &&
            (m.invitation in db.invitations ==>
               var row := db.invitations[m.invitation];
               row.trip != m.trip || row.participant != m.participant || (row.status.Revoked? && row.revokedAt.None?)))
    case InvitationExpired =>
      m.DoRedeem? && m.token in db.invitationOf && db.invitationOf[m.token] in db.invitations
      && db.invitations[db.invitationOf[m.token]].expiresAt <= c.now
    case ProposalNotPending =>
      m.DoReview? &&
      (m.proposal in db.proposals ==> db.proposals[m.proposal].trip != m.trip || !db.proposals[m.proposal].status.Pending?)
    case DecisionInvalid => m.DoReview? && m.decision.Pending?
    case OperationNotFound => m.DoCompleteResolve? && IdemKey(m.actor, ResolveOp, m.key) !in db.idempotency
  }

  /** No failure is ever put on record. */
  ghost predicate OnlySuccessesRecorded(db: Db) {
    forall k :: k in db.idempotency && db.idempotency[k].result.Some? ==> !db.idempotency[k].result.value.Failed?
  }

  lemma CommitSucceeds(db: Db, c: Call)
    requires Recorded(c.command) && Commits(db, c)
    ensures !Apply(db, c).reply.Failed?
  {
    hide BootstrapRefusal, InviteRefusal, RedeemRefusal, RevokeRefusal, ConfirmRefusal, AdvanceRefusal,
      WithTrip, WithInvitation, WithSession, WithRevocation, WithConfirmation, WithRevision, Record;
  }

  lemma ResolutionRecordsSuccesses(db: Db, c: Call)
    requires OnlySuccessesRecorded(db) && (c.command.DoBeginResolve? || c.command.DoCompleteResolve?)
    ensures OnlySuccessesRecorded(Apply(db, c).db)
  {
  }

  lemma StepRecordsSuccesses(db: Db, c: Call)
    requires RecordsComplete(db) && OnlySuccessesRecorded(db)
    ensures OnlySuccessesRecorded(Apply(db, c).db)
  {
    hide Apply, Commits, RecordsComplete;
    if !Commits(db, c) {
      OnlyCommitsWrite(db, c);
    } else if Recorded(c.command) {
      CommitIsNoted(db, c);
      CommitSucceeds(db, c);
    } else if c.command.DoBeginResolve? || c.command.DoCompleteResolve? {
      ResolutionRecordsSuccesses(db, c);
    } else {
      WritesOnlyFootprint(db, c);
    }
  }

  lemma {:induction false} RunRecordsSuccesses(db: Db, calls: seq<Call>)
    requires RecordsComplete(db) && OnlySuccessesRecorded(db)
    ensures OnlySuccessesRecorded(Run(db, calls))
    decreases |calls|
  {
    hide Apply, OnlySuccessesRecorded, RecordsComplete;
    if calls != [] {
      StepKeepsRecords(db, calls[0]);
      StepRecordsSuccesses(db, calls[0]);
      RunRecordsSuccesses(Apply(db, calls[0]).db, calls[1..]);
    }
  }

  /** Every refusal is true: after any run, the error a call is answered with describes the store and the clock as they
      are. */
  lemma RefusalsHold(start: Db, calls: seq<Call>, c: Call)
    requires RecordsComplete(start) && OnlySuccessesRecorded(start) && Apply(Run(start, calls), c).reply.Failed?
    ensures Holds(Run(start, calls), c, Apply(Run(start, calls), c).reply.error)
  {
    hide Apply, Holds;
    var db := Run(start, calls);
    RunRecordsSuccesses(start, calls);
    hide Run, OnlySuccessesRecorded;
    var m := c.command;
    if m.DoInvite? || m.DoRevoke? || m.DoBootstrap? {
      OrganizerRefusalsHold(db, c);
    } else if m.DoRedeem? || m.DoConfirm? || m.DoAdvance? {
      KeyedRefusalsHold(db, c);
    } else {
      OtherRefusalsHold(db, c);
    }
  }

  lemma OrganizerRefusalsHold(db: Db, c: Call)
    requires OnlySuccessesRecorded(db) && Apply(db, c).reply.Failed?
    requires c.command.DoInvite? || c.command.DoRevoke? || c.command.DoBootstrap?
    ensures Holds(db, c, Apply(db, c).reply.error)
  {
    hide Idle, HasActiveLease, HasLiveInvitation, NoneStanding;
    IdleIff(db, TripAt(db, c.command).value, c.now);
    if c.command.DoInvite? {
      StandingIff(db, c.command.trip, c.command.participant);
    }
  }

  lemma KeyedRefusalsHold(db: Db, c: Call)
    requires OnlySuccessesRecorded(db) && Apply(db, c).reply.Failed?
    requires c.command.DoRedeem? || c.command.DoConfirm? || c.command.DoAdvance?
    ensures Holds(db, c, Apply(db, c).reply.error)
  {
    hide Idle, HasActiveLease;
    var trip := TripAt(db, c.command);
    if trip.Some? {
      IdleIff(db, trip.value, c.now);
    }
  }

  lemma OtherRefusalsHold(db: Db, c: Call)
    requires Apply(db, c).reply.Failed?
    requires var m := c.command;
      !(m.DoInvite? || m.DoRevoke? || m.DoBootstrap? || m.DoRedeem? || m.DoConfirm? || m.DoAdvance?)
    ensures Holds(db, c, Apply(db, c).reply.error)
  {
    hide Idle, HasActiveLease;
    var trip := TripAt(db, c.command);
    if trip.Some? {
      IdleIff(db, trip.value, c.now);
    }
    if c.command.DoAcquire? {
      OwnLeaseBlocks(db, c.command.op, c.command.trip, c.now);
    }
  }

  lemma OwnLeaseBlocks(db: Db, op: string, trip: TripId, now: Time)
    ensures op in db.leases && db.leases[op].trip == trip && db.leases[op].completedAt.None? && now < db.leases[op].expiresAt ==>
      HasActiveLease(db, trip, now)
  {
  }
}
