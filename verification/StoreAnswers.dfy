/** What each mutation of the store demands, what it then leaves behind and what it answers, said in rows and clocks. */
module StoreAnswers {
  import opened Prelude
  import opened CollaborationStore
  import opened StoreFrames
  import TripDraft

  // ---- Common tests --------------------------------------------------------------------------

  /** The key has not been answered yet. */
  predicate Unanswered(db: Db, k: IdemKey, request: Request) {
    k in db.idempotency ==> db.idempotency[k].request == request && db.idempotency[k].result.None?
  }

  /** Every lease of the trip is completed or has expired. */
  ghost predicate Idle(db: Db, trip: TripId, now: Time) {
    forall op :: op in db.leases && db.leases[op].trip == trip ==> db.leases[op].completedAt.Some? || db.leases[op].expiresAt <= now
  }

  /** The trip's organizer holds the token and quotes the version in force. */
  predicate OrganizerAt(db: Db, trip: TripId, token: Secret, version: nat) {
    trip in db.sessions && db.sessions[trip].organizerToken == token && db.sessions[trip].version == version
  }

  /** No invitation of the member is open or redeemed without having been revoked. */
  ghost predicate NoneStanding(db: Db, trip: TripId, p: Pid) {
    forall i :: i in db.invitations && db.invitations[i].trip == trip && db.invitations[i].participant == p ==>
      db.invitations[i].status.Revoked? || db.invitations[i].revokedAt.Some?
  }

  predicate OnRecord(after: Db, k: IdemKey, request: Request, reply: Reply) {
    k in after.idempotency && after.idempotency[k] == IdemRow(request, Some(reply))
  }

  // ---- The organizer's calls -----------------------------------------------------------------

  lemma BootstrapAnswers(db: Db, c: Call)
    requires c.command.DoBootstrap?
    ensures var r, k := c.command.revision, IdemKey(Bootstrapper, BootstrapOp, c.command.key);
      Commits(db, c) <==>
        && TripDraft.SequentialKeys(r.understanding.participants) && 1 in r.bindings
        && Unanswered(db, k, BootstrapRequest(r)) && r.tripId !in db.sessions && Idle(db, r.tripId, c.now)
    ensures Commits(db, c) ==>
      var r, k, after := c.command.revision, IdemKey(Bootstrapper, BootstrapOp, c.command.key), Apply(db, c).db;
      && 1 in r.bindings
      && Apply(db, c).reply == Bootstrapped(r.tripId, r.bindings[1], Some(c.command.secret))
      && after.sessions == db.sessions[r.tripId := Session(r.bindings[1], c.command.secret, r.draftId, r.revision, 1)]
      && r.tripId in after.members
      && OnRecord(after, k, BootstrapRequest(r), Bootstrapped(r.tripId, r.bindings[1], None))
  {
  }

  lemma InviteAnswers(db: Db, c: Call)
    requires c.command.DoInvite?
    ensures var m := c.command;
      Commits(db, c) <==>
        && OrganizerAt(db, m.trip, m.organizerToken, m.expectedVersion)
        && Unanswered(db, IdemKey(OrganizerActor(db.sessions[m.trip].organizer), InviteOp, m.key),
                      InviteRequest(m.trip, m.participant, m.expectedVersion, m.hours))
        && m.participant != db.sessions[m.trip].organizer && Idle(db, m.trip, c.now)
        && m.trip in db.members && m.participant in db.members[m.trip]
        && NoneStanding(db, m.trip, m.participant)
    ensures Commits(db, c) ==>
      var m, after := c.command, Apply(db, c).db;
      var expiresAt := c.now + m.hours * 3_600_000_000;
      && Apply(db, c).reply == Invited(m.freshId, m.trip, m.participant, expiresAt, m.expectedVersion + 1, Some(m.secret))
      && after.invitations == db.invitations[m.freshId := Invitation(m.trip, m.participant, m.secret, expiresAt, Active, None, None)]
      && after.invitationOf == db.invitationOf[m.secret := m.freshId]
  {
    InviteCommitsIff(db, c);
  }

  lemma InviteCommitsIff(db: Db, c: Call)
    requires c.command.DoInvite?
    ensures var m := c.command;
      Commits(db, c) <==>
        && OrganizerAt(db, m.trip, m.organizerToken, m.expectedVersion)
        && Unanswered(db, IdemKey(OrganizerActor(db.sessions[m.trip].organizer), InviteOp, m.key),
                      InviteRequest(m.trip, m.participant, m.expectedVersion, m.hours))
        && m.participant != db.sessions[m.trip].organizer && Idle(db, m.trip, c.now)
        && m.trip in db.members && m.participant in db.members[m.trip]
        && NoneStanding(db, m.trip, m.participant)
  {
    var m := c.command;
    IdleIff(db, m.trip, c.now);
    StandingIff(db, m.trip, m.participant);
    hide HasActiveLease, Idle, HasLiveInvitation, NoneStanding;
  }

  lemma IdleIff(db: Db, trip: TripId, now: Time)
    ensures HasActiveLease(db, trip, now) <==> !Idle(db, trip, now)
  {
  }

  lemma StandingIff(db: Db, trip: TripId, p: Pid)
    ensures HasLiveInvitation(db, trip, p) <==> !NoneStanding(db, trip, p)
  {
  }

  lemma RevokeAnswers(db: Db, c: Call)
    requires c.command.DoRevoke?
    ensures var m := c.command;
      Commits(db, c) <==>
        && OrganizerAt(db, m.trip, m.organizerToken, m.expectedVersion)
        && Unanswered(db, IdemKey(OrganizerActor(db.sessions[m.trip].organizer), RevokeOp, m.key),
                      RevokeRequest(m.trip, m.participant, m.invitation, m.expectedVersion))
        && Idle(db, m.trip, c.now)
        && m.invitation in db.invitations
        && db.invitations[m.invitation].trip == m.trip && db.invitations[m.invitation].participant == m.participant
        && (db.invitations[m.invitation].status.Revoked? ==> db.invitations[m.invitation].revokedAt.Some?)
    ensures Commits(db, c) ==>
      var m, after := c.command, Apply(db, c).db;
      var row := db.invitations[m.invitation];
      && Apply(db, c).reply == AccessRevoked(m.invitation, m.trip, m.participant, m.expectedVersion + 1)
      && after.invitations.Keys == db.invitations.Keys
      && (forall i :: i in db.invitations && i != m.invitation ==> after.invitations[i] == db.invitations[i])
      && after.invitations[m.invitation].status.Revoked?
      && (if row.status.Revoked? then after.invitations[m.invitation] == row
          else after.invitations[m.invitation] == row.(status := InvitationStatus.Revoked, revokedAt := Some(c.now)))
      && after.actorSessions.Keys == db.actorSessions.Keys
      && (forall s :: s in db.actorSessions ==>
            after.actorSessions[s] ==
              if row.redeemedSession == Some(s) && db.actorSessions[s].revokedAt.None?
              then db.actorSessions[s].(revokedAt := Some(c.now)) else db.actorSessions[s])
  {
    IdleIff(db, c.command.trip, c.now);
    hide HasActiveLease, Idle;
  }

  // ---- The member's calls ----------------------------------------------------------------------

  lemma RedeemAnswers(db: Db, c: Call)
    requires c.command.DoRedeem?
    ensures var m := c.command;
      Commits(db, c) <==>
        && Unanswered(db, IdemKey(Redeemer, RedeemOp, m.key), RedeemRequest(m.token))
        && m.token in db.invitationOf && db.invitationOf[m.token] in db.invitations
        && var row := db.invitations[db.invitationOf[m.token]];
           !row.status.Revoked? && row.revokedAt.None? && c.now < row.expiresAt && Idle(db, row.trip, c.now)
    ensures Commits(db, c) ==>
      var m, after := c.command, Apply(db, c).db;
      var i := db.invitationOf[m.token];
      var row, expiresAt := db.invitations[i], c.now + 604_800_000_000;
      && Apply(db, c).reply == SessionOpened(m.freshId, row.trip, row.participant, expiresAt, Some(m.secret))
      && after.invitations == db.invitations[i := row.(status := InvitationStatus.Redeemed, redeemedSession := Some(m.freshId))]
      && after.sessionOf == db.sessionOf[m.secret := m.freshId]
      && after.actorSessions.Keys == db.actorSessions.Keys + {m.freshId}
      && after.actorSessions[m.freshId] == ActorSession(row.trip, row.participant, m.secret, expiresAt, None)
      && (forall s :: s in db.actorSessions && s != m.freshId ==>
            after.actorSessions[s] ==
              if row.redeemedSession == Some(s) && db.actorSessions[s].revokedAt.None?
              then db.actorSessions[s].(revokedAt := Some(c.now)) else db.actorSessions[s])
  {
    var m := c.command;
    if m.token in db.invitationOf && db.invitationOf[m.token] in db.invitations {
      IdleIff(db, db.invitations[db.invitationOf[m.token]].trip, c.now);
    }
    hide HasActiveLease, Idle;
  }

  /** A token authenticates as its session's member as long as the session is neither revoked nor expired. */
  lemma AuthenticateIff(db: Db, token: Secret, now: Time, s: nat)
    ensures Authenticate(db, token, now) == Ok(s) <==>
      && token in db.sessionOf && db.sessionOf[token] == s && s in db.actorSessions
      && db.actorSessions[s].revokedAt.None? && now < db.actorSessions[s].expiresAt
    ensures Authenticate(db, token, now) == Err(SessionRevoked) <==>
      token in db.sessionOf && db.sessionOf[token] in db.actorSessions && db.actorSessions[db.sessionOf[token]].revokedAt.Some?
    ensures Authenticate(db, token, now) == Err(SessionExpired) <==>
      && token in db.sessionOf && db.sessionOf[token] in db.actorSessions
      && db.actorSessions[db.sessionOf[token]].revokedAt.None? && db.actorSessions[db.sessionOf[token]].expiresAt <= now
  {
  }

  lemma ProposeAnswers(db: Db, c: Call)
    requires c.command.DoPropose?
    ensures var m := c.command;
      Commits(db, c) <==>
        && m.trip in db.sessions && db.sessions[m.trip].currentRevision == m.baseRevision
        && db.sessions[m.trip].version == m.expectedVersion && Idle(db, m.trip, c.now)
    ensures Commits(db, c) ==>
      var m, after := c.command, Apply(db, c).db;
      && Apply(db, c).reply == Proposed(m.freshId)
      && after.proposals ==
           db.proposals[m.freshId := ChangeProposal(m.trip, m.participant, m.baseRevision, m.change, Decision.Pending, None)]
  {
    IdleIff(db, c.command.trip, c.now);
    hide HasActiveLease, Idle;
  }

  lemma ReviewAnswers(db: Db, c: Call)
    requires c.command.DoReview?
    ensures var m := c.command;
      Commits(db, c) <==>
        && !m.decision.Pending? && m.trip in db.sessions && db.sessions[m.trip].version == m.expectedVersion
        && m.proposal in db.proposals && db.proposals[m.proposal].trip == m.trip && db.proposals[m.proposal].status.Pending?
    ensures Commits(db, c) ==>
      var m, after := c.command, Apply(db, c).db;
      && Apply(db, c).reply == AtVersion(m.expectedVersion + 1)
      && after.proposals == db.proposals[m.proposal := db.proposals[m.proposal].(status := m.decision, note := m.note)]
  {
  }

  lemma ConfirmAnswers(db: Db, c: Call)
    requires c.command.DoConfirm?
    ensures var m := c.command;
      Commits(db, c) <==>
        && Unanswered(db, IdemKey(ParticipantActor(m.participant), ConfirmOp, m.key),
                      ConfirmRequest(m.trip, m.participant, m.confirmation, m.expectedVersion))
        && m.trip in db.sessions && db.sessions[m.trip].version == m.expectedVersion && Idle(db, m.trip, c.now)
        && m.trip in db.members && m.participant in db.members[m.trip]
    ensures Commits(db, c) ==>
      var m, after := c.command, Apply(db, c).db;
      var rows := db.members[m.trip];
      && Apply(db, c).reply == AtVersion(m.expectedVersion + 1)
      && after.members ==
           db.members[m.trip := rows[m.participant := Member(rows[m.participant].memberKey, Some(m.confirmation))]]
  {
    IdleIff(db, c.command.trip, c.now);
    hide HasActiveLease, Idle;
  }

  lemma AdvanceAnswers(db: Db, c: Call)
    requires c.command.DoAdvance?
    ensures var m := c.command;
      Commits(db, c) <==>
        && m.before < m.after
        && Unanswered(db, IdemKey(m.actor, AdvanceOp, m.key), AdvanceRequest(m.trip, m.before, m.after, m.expectedVersion))
        && m.trip in db.sessions && db.sessions[m.trip].version == m.expectedVersion
        && db.sessions[m.trip].currentRevision == m.before && Idle(db, m.trip, c.now)
    ensures Commits(db, c) ==> Apply(db, c).reply == AtVersion(c.command.expectedVersion + 1)
  {
    IdleIff(db, c.command.trip, c.now);
    hide HasActiveLease, Idle;
  }

  // ---- The guard's calls -----------------------------------------------------------------------

  lemma AcquireAnswers(db: Db, c: Call)
    requires c.command.DoAcquire?
    ensures var m := c.command;
      Commits(db, c) <==>
        && (m.op in db.leases ==>
              && db.leases[m.op].trip == m.trip && db.leases[m.op].digest == m.digest
              && db.leases[m.op].operation == m.operation && db.leases[m.op].completedAt.Some?)
        && Idle(db, m.trip, c.now)
    ensures Commits(db, c) ==>
      var m, after := c.command, Apply(db, c).db;
      var wanted := c.now + m.ttl;
      var expiresAt := if m.op in db.leases && wanted <= db.leases[m.op].expiresAt then db.leases[m.op].expiresAt + 1 else wanted;
      && Apply(db, c).reply == Permit(m.op, expiresAt)
      && after.leases == db.leases[m.op := Lease(m.trip, m.digest, m.operation, expiresAt, None)]
  {
    IdleIff(db, c.command.trip, c.now);
    hide HasActiveLease, Idle;
  }

  lemma AuditAnswers(db: Db, c: Call)
    requires c.command.DoAudit?
    ensures if Idle(db, c.command.audit.trip, c.now)
            then Apply(db, c).reply == Done && Apply(db, c).db.audits == db.audits + [c.command.audit]
            else Apply(db, c).reply == Failed(OperationInProgress) && Apply(db, c).db.audits == db.audits
  {
    IdleIff(db, c.command.audit.trip, c.now);
    hide HasActiveLease, Idle;
  }
}
