/** Which tables each store method may write, and which trips a call can reach. */
module StoreFrames {
  import opened Prelude
  import opened CollaborationStore
  import opened Digests

  datatype Footprint = Footprint(
    sessions: bool, members: bool, invitations: bool, actorSessions: bool,
    leases: bool, proposals: bool, idempotency: bool, audits: bool)

  /** Only the guard's two methods write leases, only proposals are written without an idempotency record, and only
      bootstrap and confirm write members. */
  function Writes(c: Command): Footprint {
    match c
    case DoBootstrap(_, _, _) => Footprint(true, true, false, false, false, false, true, false)
    case DoInvite(_, _, _, _, _, _, _, _) => Footprint(true, false, true, false, false, false, true, false)
    case DoRedeem(_, _, _, _) => Footprint(false, false, true, true, false, false, true, false)
    case DoRevoke(_, _, _, _, _, _) => Footprint(true, false, true, true, false, false, true, false)
    case DoPropose(_, _, _, _, _, _) => Footprint(true, false, false, false, false, true, false, false)
    case DoReview(_, _, _, _, _) => Footprint(true, false, false, false, false, true, false, false)
    case DoBeginResolve(_, _, _) => Footprint(false, false, false, false, false, false, true, false)
    case DoCompleteResolve(_, _, _) => Footprint(false, false, false, false, false, false, true, false)
    case DoConfirm(_, _, _, _, _) => Footprint(true, true, false, false, false, false, true, false)
    case DoAdvance(_, _, _, _, _, _) => Footprint(true, false, false, false, false, false, true, false)
    case DoAcquire(_, _, _, _, _) => Footprint(false, false, false, false, true, false, false, false)
    case DoComplete(_, _) => Footprint(false, false, false, false, true, false, false, false)
    case DoAudit(_) => Footprint(false, false, false, false, false, false, false, true)
  }

  predicate Within(a: Db, b: Db, f: Footprint) {
    && (f.sessions || a.sessions == b.sessions)
    && (f.members || a.members == b.members)
    && (f.invitations || (a.invitations == b.invitations && a.invitationOf == b.invitationOf))
    && (f.actorSessions || (a.actorSessions == b.actorSessions && a.sessionOf == b.sessionOf))
    && (f.leases || a.leases == b.leases)
    && (f.proposals || a.proposals == b.proposals)
    && (f.idempotency || a.idempotency == b.idempotency)
    && (f.audits || a.audits == b.audits)
  }

  lemma BootstrapFootprint(db: Db, r: Revision, key: string, secret: Secret, now: Time)
    ensures Within(db, Bootstrap(db, r, key, secret, now).db, Footprint(true, true, false, false, false, false, true, false))
  {
    hide BootstrapRefusal, BoundMembers;
  }

  lemma CreateInvitationFootprint(db: Db, trip: TripId, p: Pid, token: Secret, v: nat, hours: nat, key: string, id: nat, secret: Secret, now: Time)
    ensures Within(db, CreateInvitation(db, trip, p, token, v, hours, key, id, secret, now).db, Footprint(true, false, true, false, false, false, true, false))
  {
    hide InviteRefusal;
  }

  lemma RedeemFootprint(db: Db, token: Secret, key: string, id: nat, secret: Secret, now: Time)
    ensures Within(db, Redeem(db, token, key, id, secret, now).db, Footprint(false, false, true, true, false, false, true, false))
  {
    hide RedeemRefusal, RevokeSession;
  }

  lemma RevokeFootprint(db: Db, trip: TripId, p: Pid, id: nat, token: Secret, v: nat, key: string, now: Time)
    ensures Within(db, Revoke(db, trip, p, id, token, v, key, now).db, Footprint(true, false, true, true, false, false, true, false))
  {
    hide RevokeRefusal, RevokeSession;
  }

  lemma ProposeFootprint(db: Db, trip: TripId, p: Pid, base: nat, v: nat, change: ProposedChange, id: nat, now: Time)
    ensures Within(db, Propose(db, trip, p, base, v, change, id, now).db, Footprint(true, false, false, false, false, true, false, false))
  {
    hide ProposeRefusal;
  }

  lemma ReviewFootprint(db: Db, trip: TripId, id: nat, v: nat, decision: Decision, note: Option<string>)
    ensures Within(db, Review(db, trip, id, v, decision, note).db, Footprint(true, false, false, false, false, true, false, false))
  {
    hide ReviewRefusal, WithProposal;
    var after := Review(db, trip, id, v, decision, note).db;
    if ReviewRefusal(db, trip, id, v, decision).None? {
      ProposalWrites(db, id, db.proposals[id].(status := decision, note := note), v + 1);
    } else {
      assert after == db;
    }
  }

  lemma ProposalWrites(db: Db, id: nat, row: ChangeProposal, version: nat)
    requires row.trip in db.sessions
    ensures var after := WithProposal(db, id, row, version);
      after == db.(sessions := after.sessions, proposals := after.proposals)
  {
  }

  lemma BeginResolveFootprint(db: Db, actor: Actor, key: string, request: Request)
    ensures Within(db, BeginResolve(db, actor, key, request).db, Footprint(false, false, false, false, false, false, true, false))
  {
  }

  lemma CompleteResolveFootprint(db: Db, actor: Actor, key: string, after: nat)
    ensures Within(db, CompleteResolve(db, actor, key, after).db, Footprint(false, false, false, false, false, false, true, false))
  {
  }

  lemma ConfirmFootprint(db: Db, trip: TripId, p: Pid, conf: Confirmation, v: nat, key: string, now: Time)
    ensures Within(db, Confirm(db, trip, p, conf, v, key, now).db, Footprint(true, true, false, false, false, false, true, false))
  {
    hide ConfirmRefusal;
  }

  lemma AdvanceFootprint(db: Db, trip: TripId, before: nat, after: nat, v: nat, actor: Actor, key: string, now: Time)
    ensures Within(db, Advance(db, trip, before, after, v, actor, key, now).db, Footprint(true, false, false, false, false, false, true, false))
  {
    hide AdvanceRefusal;
  }

  lemma AcquireLeaseFootprint(db: Db, op: string, trip: TripId, operation: PlanningOperation, digest: ReadinessDigest, ttl: Time, now: Time)
    ensures Within(db, AcquireLease(db, op, trip, operation, digest, ttl, now).db, Footprint(false, false, false, false, true, false, false, false))
  {
    hide AcquireRefusal, LeaseExpiry;
    var after := AcquireLease(db, op, trip, operation, digest, ttl, now).db;
    assert after == db || after == db.(leases := after.leases);
  }

  lemma CompleteLeaseFootprint(db: Db, op: string, expiresAt: Time, now: Time)
    ensures Within(db, CompleteLease(db, op, expiresAt, now).db, Footprint(false, false, false, false, true, false, false, false))
  {
    var after := CompleteLease(db, op, expiresAt, now).db;
    assert after == db || after == db.(leases := after.leases);
  }

  lemma RecordAuditFootprint(db: Db, a: Audit, now: Time)
    ensures Within(db, RecordAudit(db, a, now).db, Footprint(false, false, false, false, false, false, false, true))
  {
    hide HasActiveLease;
    if HasActiveLease(db, a.trip, now) {
      assert RecordAudit(db, a, now).db == db;
    } else {
      assert RecordAudit(db, a, now).db == db.(audits := db.audits + [a]);
    }
  }

  /** Every method writes at most its own tables. */
  lemma WritesOnlyFootprint(db: Db, c: Call)
    ensures Within(db, Apply(db, c).db, Writes(c.command))
  {
    hide Within, Bootstrap, CreateInvitation, Redeem, Revoke, Propose, Review, BeginResolve, CompleteResolve, Confirm, Advance,
         AcquireLease, CompleteLease, RecordAudit;
    match c.command {
      case DoBootstrap(r, key, secret) => BootstrapFootprint(db, r, key, secret, c.now);
      case DoInvite(t, p, token, v, hours, key, id, secret) => CreateInvitationFootprint(db, t, p, token, v, hours, key, id, secret, c.now);
      case DoRedeem(token, key, id, secret) => RedeemFootprint(db, token, key, id, secret, c.now);
      case DoRevoke(t, p, id, token, v, key) => RevokeFootprint(db, t, p, id, token, v, key, c.now);
      case DoPropose(t, p, base, v, change, id) => ProposeFootprint(db, t, p, base, v, change, id, c.now);
      case DoReview(t, id, v, decision, note) => ReviewFootprint(db, t, id, v, decision, note);
      case DoBeginResolve(actor, key, request) => BeginResolveFootprint(db, actor, key, request);
      case DoCompleteResolve(actor, key, after) => CompleteResolveFootprint(db, actor, key, after);
      case DoConfirm(t, p, conf, v, key) => ConfirmFootprint(db, t, p, conf, v, key, c.now);
      case DoAdvance(t, before, after, v, actor, key) => AdvanceFootprint(db, t, before, after, v, actor, key, c.now);
      case DoAcquire(op, t, operation, digest, ttl) => AcquireLeaseFootprint(db, op, t, operation, digest, ttl, c.now);
      case DoComplete(op, expiresAt) => CompleteLeaseFootprint(db, op, expiresAt, c.now);
      case DoAudit(a) => RecordAuditFootprint(db, a, c.now);
    }
  }

  /** A failed call changes nothing at all. */
  lemma FailureChangesNothing(db: Db, c: Call)
    requires Apply(db, c).reply.Failed?
    ensures Apply(db, c).db == db
  {
    match c.command {
      case DoBootstrap(_, _, _) =>
      case DoInvite(_, _, _, _, _, _, _, _) =>
      case DoRedeem(_, _, _, _) =>
      case DoRevoke(_, _, _, _, _, _) =>
      case DoPropose(_, _, _, _, _, _) =>
      case DoReview(_, _, _, _, _) =>
      case DoBeginResolve(_, _, _) =>
      case DoCompleteResolve(_, _, _) =>
      case DoConfirm(_, _, _, _, _) =>
      case DoAdvance(_, _, _, _, _, _) =>
      case DoAcquire(_, _, _, _, _) =>
      case DoComplete(_, _) =>
      case DoAudit(_) =>
    }
  }

  // ---- The session row ---------------------------------------------------------------------

  /** The six mutations that quote an expected version. */
  predicate Versioned(c: Command) {
    c.DoInvite? || c.DoRevoke? || c.DoPropose? || c.DoReview? || c.DoConfirm? || c.DoAdvance?
  }

  /** The call passes every test of its method: it is neither refused nor answered from the record. */
  predicate Commits(db: Db, c: Call) {
    match c.command
    case DoBootstrap(r, key, _) => BootstrapRefusal(db, r, IdemKey(Bootstrapper, BootstrapOp, key), c.now).None?
    case DoInvite(t, p, token, v, hours, key, _, _) => InviteRefusal(db, t, p, token, v, hours, key, c.now).None?
    case DoRedeem(token, key, _, _) => RedeemRefusal(db, token, IdemKey(Redeemer, RedeemOp, key), c.now).None?
    case DoRevoke(t, p, id, token, v, key) => RevokeRefusal(db, t, p, id, token, v, key, c.now).None?
    case DoPropose(t, _, base, v, _, _) => ProposeRefusal(db, t, base, v, c.now).None?
    case DoReview(t, id, v, decision, _) => ReviewRefusal(db, t, id, v, decision).None?
    case DoConfirm(t, p, conf, v, key) =>
      ConfirmRefusal(db, t, p, ConfirmRequest(t, p, conf, v), v, IdemKey(ParticipantActor(p), ConfirmOp, key), c.now).None?
    case DoAdvance(t, before, after, v, actor, key) =>
      AdvanceRefusal(db, t, before, after, v, IdemKey(actor, AdvanceOp, key), c.now).None?
    case DoAcquire(op, t, operation, digest, _) => AcquireRefusal(db, op, t, operation, digest, c.now).None?
    case _ => true
  }

  /** A call that does not commit leaves the store as it was. */
  lemma OnlyCommitsWrite(db: Db, c: Call)
    requires !Commits(db, c)
    ensures Apply(db, c).db == db
  {
    hide HasActiveLease, Recall, IsOrganizer, HasLiveInvitation;
  }

  /** The expected version was the stored one, and the row moves to the next version and to the given revision. */
  ghost predicate Bumped(db: Db, after: Db, t: TripId, expected: nat, revision: nat) {
    && t in db.sessions
    && db.sessions[t].version == expected
    && after.sessions == db.sessions[t := db.sessions[t].(currentRevision := revision, version := expected + 1)]
  }

  lemma InviteBumps(db: Db, c: Call)
    requires c.command.DoInvite? && Commits(db, c)
    ensures c.command.trip in db.sessions
    ensures Bumped(db, Apply(db, c).db, c.command.trip, c.command.expectedVersion, db.sessions[c.command.trip].currentRevision)
  {
  }

  lemma RevokeBumps(db: Db, c: Call)
    requires c.command.DoRevoke? && Commits(db, c)
    ensures c.command.trip in db.sessions
    ensures Bumped(db, Apply(db, c).db, c.command.trip, c.command.expectedVersion, db.sessions[c.command.trip].currentRevision)
  {
  }

  lemma ProposeBumps(db: Db, c: Call)
    requires c.command.DoPropose? && Commits(db, c)
    ensures c.command.trip in db.sessions
    ensures Bumped(db, Apply(db, c).db, c.command.trip, c.command.expectedVersion, db.sessions[c.command.trip].currentRevision)
  {
  }

  lemma ReviewBumps(db: Db, c: Call)
    requires c.command.DoReview? && Commits(db, c)
    ensures c.command.trip in db.sessions
    ensures Bumped(db, Apply(db, c).db, c.command.trip, c.command.expectedVersion, db.sessions[c.command.trip].currentRevision)
  {
  }

  lemma ConfirmBumps(db: Db, c: Call)
    requires c.command.DoConfirm? && Commits(db, c)
    ensures c.command.trip in db.sessions
    ensures Bumped(db, Apply(db, c).db, c.command.trip, c.command.expectedVersion, db.sessions[c.command.trip].currentRevision)
  {
  }

  lemma AdvanceBumps(db: Db, c: Call)
    requires c.command.DoAdvance? && Commits(db, c)
    ensures c.command.trip in db.sessions
    ensures db.sessions[c.command.trip].currentRevision == c.command.before < c.command.after
    ensures Bumped(db, Apply(db, c).db, c.command.trip, c.command.expectedVersion, c.command.after)
  {
  }

  lemma BootstrapAdds(db: Db, c: Call)
    requires c.command.DoBootstrap? && Commits(db, c)
    ensures c.command.revision.tripId !in db.sessions
    ensures 1 in c.command.revision.bindings
    ensures Apply(db, c).db.sessions == db.sessions[c.command.revision.tripId :=
              Session(c.command.revision.bindings[1], c.command.secret, c.command.revision.draftId, c.command.revision.revision, 1)]
  {
  }

  /** Only `advance_revision` moves the stored revision. */
  function NextRevision(db: Db, c: Command): nat
    requires Versioned(c) && c.trip in db.sessions
  {
    if c.DoAdvance? then c.after else db.sessions[c.trip].currentRevision
  }

  lemma VersionedBump(db: Db, c: Call)
    requires Versioned(c.command) && Commits(db, c)
    ensures c.command.trip in db.sessions
    ensures Bumped(db, Apply(db, c).db, c.command.trip, c.command.expectedVersion, NextRevision(db, c.command))
    ensures c.command.DoAdvance? ==> db.sessions[c.command.trip].currentRevision < c.command.after
  {
    hide Commits, Apply, Bumped;
    match c.command {
      case DoInvite(_, _, _, _, _, _, _, _) => InviteBumps(db, c);
      case DoRevoke(_, _, _, _, _, _) => RevokeBumps(db, c);
      case DoPropose(_, _, _, _, _, _) => ProposeBumps(db, c);
      case DoReview(_, _, _, _, _) => ReviewBumps(db, c);
      case DoConfirm(_, _, _, _, _) => ConfirmBumps(db, c);
      case DoAdvance(_, _, _, _, _, _) => AdvanceBumps(db, c);
    }
  }

  /** A call leaves every session row alone except the one it bumps or the one it adds. */
  lemma SessionRowsStep(db: Db, c: Call, t: TripId)
    requires t in db.sessions
    ensures t in Apply(db, c).db.sessions
    ensures Apply(db, c).db.sessions[t] ==
            if Versioned(c.command) && Commits(db, c) && c.command.trip == t
            then db.sessions[t].(currentRevision := NextRevision(db, c.command), version := db.sessions[t].version + 1)
            else db.sessions[t]
  {
    hide Commits, Apply;
    if !Commits(db, c) {
      OnlyCommitsWrite(db, c);
    } else if Versioned(c.command) {
      VersionedBump(db, c);
    } else if c.command.DoBootstrap? {
      BootstrapAdds(db, c);
    } else {
      WritesOnlyFootprint(db, c);
    }
  }

  /** Organizer, credential and draft of a trip never change once its session exists. */
  ghost predicate OwnersKept(a: Db, b: Db) {
    forall t :: t in a.sessions ==>
      && t in b.sessions
      && b.sessions[t].organizer == a.sessions[t].organizer
      && b.sessions[t].organizerToken == a.sessions[t].organizerToken
      && b.sessions[t].draftId == a.sessions[t].draftId
  }

  lemma StepKeepsOwners(db: Db, c: Call)
    ensures OwnersKept(db, Apply(db, c).db)
  {
    hide Commits, Apply;
    forall t | t in db.sessions
      ensures
        && t in Apply(db, c).db.sessions
        && Apply(db, c).db.sessions[t].organizer == db.sessions[t].organizer
        && Apply(db, c).db.sessions[t].organizerToken == db.sessions[t].organizerToken
        && Apply(db, c).db.sessions[t].draftId == db.sessions[t].draftId
    {
      SessionRowsStep(db, c, t);
    }
  }
}
