/** `SqliteCollaborationRepository` with its tables as fields: each method is one `BEGIN IMMEDIATE` transaction, written
    statement by statement, and is proved to be the transition that the specification gives for it. */
module CollaborationRepository {
  import opened Prelude
  import opened Digests
  import opened Store = CollaborationStore
  import TripDraft

  class Repository {
    var sessions: map<TripId, Session>
    var members: map<TripId, map<Pid, Member>>
    var invitations: map<nat, Invitation>
    var invitationOf: map<Secret, nat>
    var actorSessions: map<nat, ActorSession>
    var sessionOf: map<Secret, nat>
    var leases: map<string, Lease>
    var proposals: map<nat, ChangeProposal>
    var idempotency: map<IdemKey, IdemRow>
    var audits: seq<Audit>

    function Snapshot(): Db
      reads this
    {
      Db(sessions, members, invitations, invitationOf, actorSessions, sessionOf, leases, proposals, idempotency, audits)
    }

    constructor ()
      ensures Snapshot() == EMPTY
    {
      sessions, members, invitations, invitationOf := map[], map[], map[], map[];
      actorSessions, sessionOf, leases, proposals, idempotency, audits := map[], map[], map[], map[], map[], [];
    }

    /** The row a replay answers from, or an error when the key was used for something else. */
    method Prior(k: IdemKey, request: Request) returns (prior: Option<Reply>)
      ensures prior == Recall(Snapshot(), k, request)
    {
      if k !in idempotency {
        return None;
      }
      if idempotency[k].request != request {
        return Some(Failed(IdempotencyKeyReused));
      }
      return idempotency[k].result;
    }

    method InsertRecord(k: IdemKey, request: Request, reply: Reply)
      modifies `idempotency
      ensures Snapshot() == Record(old(Snapshot()), k, request, reply)
    {
      idempotency := idempotency[k := IdemRow(request, Some(Withheld(reply)))];
    }

    method BootstrapCollaboration(r: Revision, key: string, secret: Secret, now: Time) returns (reply: Reply)
      modifies this
      ensures Snapshot() == Bootstrap(old(Snapshot()), r, key, secret, now).db
      ensures reply == Bootstrap(old(Snapshot()), r, key, secret, now).reply
    {
      hide HasActiveLease, Recall, Withheld, TripDraft.SequentialKeys;
      var rows := r.understanding.participants;
      if 1 !in r.bindings || !TripDraft.SequentialKeys(rows) {
        return Failed(BindingInvalid);
      }
      var k := IdemKey(Bootstrapper, BootstrapOp, key);
      var prior := Prior(k, BootstrapRequest(r));
      if prior.Some? {
        return prior.value;
      }
      if r.tripId in sessions {
        return Failed(AlreadyExists);
      }
      if HasActiveLease(Snapshot(), r.tripId, now) {
        return Failed(OperationInProgress);
      }
      sessions := sessions[r.tripId := Session(r.bindings[1], secret, r.draftId, r.revision, 1)];
      var inserted: map<Pid, Member> := map[];
      var i := 0;
      while i < |rows|
        invariant 0 <= i <= |rows|
        invariant inserted == BoundMembers(r, i)
      {
        var memberKey := rows[i].memberKey;
        assert memberKey in KeySet(rows);
        inserted := inserted[r.bindings[memberKey] := Member(memberKey, None)];
        i := i + 1;
      }
      members := members[r.tripId := inserted];
      reply := Bootstrapped(r.tripId, r.bindings[1], Some(secret));
      InsertRecord(k, BootstrapRequest(r), reply);
    }

    method SetVersion(trip: TripId, version: nat)
      requires trip in sessions
      modifies `sessions
      ensures Snapshot() == WithVersion(old(Snapshot()), trip, version)
    {
      sessions := sessions[trip := sessions[trip].(version := version)];
    }

    /** Sets the revocation instant of one session unless it has one already. */
    method RevokeRecordedSession(id: Option<nat>, now: Time)
      modifies `actorSessions
      ensures actorSessions == RevokeSession(old(actorSessions), id, now)
    {
      if id.Some? && id.value in actorSessions && actorSessions[id.value].revokedAt.None? {
        actorSessions := actorSessions[id.value := actorSessions[id.value].(revokedAt := Some(now))];
      }
    }

    method Invite(
      trip: TripId, p: Pid, token: Secret, expectedVersion: nat, hours: nat, key: string,
      freshId: nat, freshToken: Secret, now: Time) returns (reply: Reply)
      modifies this
      ensures Snapshot() == CreateInvitation(old(Snapshot()), trip, p, token, expectedVersion, hours, key, freshId, freshToken, now).db
      ensures reply == CreateInvitation(old(Snapshot()), trip, p, token, expectedVersion, hours, key, freshId, freshToken, now).reply
    {
      hide HasActiveLease, Recall, Withheld, HasLiveInvitation;
      if !IsOrganizer(Snapshot(), trip, token) {
        return Failed(PermissionRequired);
      }
      var organizer := sessions[trip].organizer;
      var k := IdemKey(OrganizerActor(organizer), InviteOp, key);
      var request := InviteRequest(trip, p, expectedVersion, hours);
      var prior := Prior(k, request);
      if prior.Some? {
        return prior.value;
      }
      if organizer == p {
        return Failed(SelfInviteForbidden);
      }
      if sessions[trip].version != expectedVersion {
        return Failed(VersionStale);
      }
      if HasActiveLease(Snapshot(), trip, now) {
        return Failed(OperationInProgress);
      }
      if !IsMember(Snapshot(), trip, p) {
        return Failed(ParticipantNotBound);
      }
      if HasLiveInvitation(Snapshot(), trip, p) {
        return Failed(InvitationActiveExists);
      }
      var expiresAt := now + hours * HOUR;
      invitations := invitations[freshId := Invitation(trip, p, freshToken, expiresAt, Active, None, None)];
      invitationOf := invitationOf[freshToken := freshId];
      SetVersion(trip, expectedVersion + 1);
      reply := Invited(freshId, trip, p, expiresAt, expectedVersion + 1, Some(freshToken));
      InsertRecord(k, request, reply);
    }

    method RedeemInvitation(token: Secret, key: string, freshSession: nat, freshToken: Secret, now: Time) returns (reply: Reply)
      modifies this
      ensures Snapshot() == Redeem(old(Snapshot()), token, key, freshSession, freshToken, now).db
      ensures reply == Redeem(old(Snapshot()), token, key, freshSession, freshToken, now).reply
    {
      hide HasActiveLease, Recall, Withheld;
      var k := IdemKey(Redeemer, RedeemOp, key);
      var prior := Prior(k, RedeemRequest(token));
      if prior.Some? {
        return prior.value;
      }
      if token !in invitationOf || invitationOf[token] !in invitations {
        return Failed(InvitationUnavailable);
      }
      var id := invitationOf[token];
      var row := invitations[id];
      if !row.Live() {
        return Failed(InvitationUnavailable);
      }
      if row.expiresAt <= now {
        return Failed(InvitationExpired);
      }
      if HasActiveLease(Snapshot(), row.trip, now) {
        return Failed(OperationInProgress);
      }
      var expiresAt := now + SESSION_TTL;
      RevokeRecordedSession(row.redeemedSession, now);
      invitations := invitations[id := row.(status := Redeemed, redeemedSession := Some(freshSession))];
      actorSessions := actorSessions[freshSession := ActorSession(row.trip, row.participant, freshToken, expiresAt, None)];
      sessionOf := sessionOf[freshToken := freshSession];
      reply := SessionOpened(freshSession, row.trip, row.participant, expiresAt, Some(freshToken));
      InsertRecord(k, RedeemRequest(token), reply);
    }

    method WithdrawInvitation(id: nat, version: nat, now: Time)
      requires id in invitations && invitations[id].trip in sessions
      modifies this
      ensures Snapshot() == WithRevocation(old(Snapshot()), id, version, now)
    {
      var row := invitations[id];
      if row.status != Revoked {
        invitations := invitations[id := row.(status := Revoked, revokedAt := Some(now))];
      }
      RevokeRecordedSession(row.redeemedSession, now);
      SetVersion(row.trip, version);
    }

    method RevokeInvitation(
      trip: TripId, p: Pid, id: nat, token: Secret, expectedVersion: nat, key: string, now: Time) returns (reply: Reply)
      modifies this
      ensures Snapshot() == Revoke(old(Snapshot()), trip, p, id, token, expectedVersion, key, now).db
      ensures reply == Revoke(old(Snapshot()), trip, p, id, token, expectedVersion, key, now).reply
    {
      hide HasActiveLease, Recall, Withheld, WithRevocation;
      if !IsOrganizer(Snapshot(), trip, token) {
        return Failed(PermissionRequired);
      }
      var k := IdemKey(OrganizerActor(sessions[trip].organizer), RevokeOp, key);
      var request := RevokeRequest(trip, p, id, expectedVersion);
      var prior := Prior(k, request);
      if prior.Some? {
        return prior.value;
      }
      if sessions[trip].version != expectedVersion {
        return Failed(VersionStale);
      }
      if HasActiveLease(Snapshot(), trip, now) {
        return Failed(OperationInProgress);
      }
      if id !in invitations || invitations[id].trip != trip || invitations[id].participant != p {
        return Failed(InvitationUnavailable);
      }
      if invitations[id].status == Revoked && invitations[id].revokedAt.None? {
        // The guarded update finds no row to change.
        return Failed(InvitationUnavailable);
      }
      WithdrawInvitation(id, expectedVersion + 1, now);
      reply := AccessRevoked(id, trip, p, expectedVersion + 1);
      InsertRecord(k, request, reply);
    }

    method CreateChangeProposal(
      trip: TripId, p: Pid, baseRevision: nat, expectedVersion: nat, change: ProposedChange, freshId: nat, now: Time)
      returns (reply: Reply)
      modifies this
      ensures Snapshot() == Propose(old(Snapshot()), trip, p, baseRevision, expectedVersion, change, freshId, now).db
      ensures reply == Propose(old(Snapshot()), trip, p, baseRevision, expectedVersion, change, freshId, now).reply
    {
      if HasActiveLease(Snapshot(), trip, now) {
        return Failed(OperationInProgress);
      }
      if trip !in sessions {
        return Failed(NotFound);
      }
      if sessions[trip].currentRevision != baseRevision {
        return Failed(RevisionStale);
      }
      if sessions[trip].version != expectedVersion {
        return Failed(VersionStale);
      }
      proposals := proposals[freshId := ChangeProposal(trip, p, baseRevision, change, Pending, None)];
      SetVersion(trip, expectedVersion + 1);
      return Proposed(freshId);
    }

    method ReviewChangeProposal(trip: TripId, id: nat, expectedVersion: nat, decision: Decision, note: Option<string>)
      returns (reply: Reply)
      modifies this
      ensures Snapshot() == Review(old(Snapshot()), trip, id, expectedVersion, decision, note).db
      ensures reply == Review(old(Snapshot()), trip, id, expectedVersion, decision, note).reply
    {
      if decision == Pending {
        return Failed(DecisionInvalid);
      }
      if trip !in sessions {
        return Failed(NotFound);
      }
      if sessions[trip].version != expectedVersion {
        return Failed(VersionStale);
      }
      if id !in proposals || proposals[id].trip != trip || proposals[id].status != Pending {
        return Failed(ProposalNotPending);
      }
      proposals := proposals[id := proposals[id].(status := decision, note := note)];
      SetVersion(trip, expectedVersion + 1);
      return AtVersion(expectedVersion + 1);
    }

    method BeginIdempotentOperation(actor: Actor, key: string, request: Request) returns (reply: Reply)
      modifies this
      ensures Snapshot() == BeginResolve(old(Snapshot()), actor, key, request).db
      ensures reply == BeginResolve(old(Snapshot()), actor, key, request).reply
    {
      var k := IdemKey(actor, ResolveOp, key);
      if k in idempotency {
        if idempotency[k].request != request {
          return Failed(IdempotencyKeyReused);
        }
        return Begun(idempotency[k].result);
      }
      idempotency := idempotency[k := IdemRow(request, None)];
      return Begun(None);
    }

    method CompleteIdempotentOperation(actor: Actor, key: string, after: nat) returns (reply: Reply)
      modifies this
      ensures Snapshot() == CompleteResolve(old(Snapshot()), actor, key, after).db
      ensures reply == CompleteResolve(old(Snapshot()), actor, key, after).reply
    {
      var k := IdemKey(actor, ResolveOp, key);
      if k !in idempotency {
        return Failed(OperationNotFound);
      }
      idempotency := idempotency[k := idempotency[k].(result := Some(Resolved(after)))];
      return Done;
    }

    method RecordConfirmation(trip: TripId, p: Pid, c: Confirmation, expectedVersion: nat, key: string, now: Time)
      returns (reply: Reply)
      modifies this
      ensures Snapshot() == Confirm(old(Snapshot()), trip, p, c, expectedVersion, key, now).db
      ensures reply == Confirm(old(Snapshot()), trip, p, c, expectedVersion, key, now).reply
    {
      hide HasActiveLease, Recall, Withheld;
      var k := IdemKey(ParticipantActor(p), ConfirmOp, key);
      var request := ConfirmRequest(trip, p, c, expectedVersion);
      var prior := Prior(k, request);
      if prior.Some? {
        return prior.value;
      }
      if trip !in sessions {
        return Failed(NotFound);
      }
      if sessions[trip].version != expectedVersion {
        return Failed(VersionStale);
      }
      if HasActiveLease(Snapshot(), trip, now) {
        return Failed(OperationInProgress);
      }
      if !IsMember(Snapshot(), trip, p) {
        return Failed(ParticipantNotBound);
      }
      SetVersion(trip, expectedVersion + 1);
      var rows := members[trip];
      members := members[trip := rows[p := rows[p].(confirmation := Some(c))]];
      reply := AtVersion(expectedVersion + 1);
      InsertRecord(k, request, reply);
    }

    method AdvanceRevision(
      trip: TripId, before: nat, after: nat, expectedVersion: nat, actor: Actor, key: string, now: Time) returns (reply: Reply)
      modifies this
      ensures Snapshot() == Advance(old(Snapshot()), trip, before, after, expectedVersion, actor, key, now).db
      ensures reply == Advance(old(Snapshot()), trip, before, after, expectedVersion, actor, key, now).reply
    {
      if after <= before {
        return Failed(RevisionStale);
      }
      var k := IdemKey(actor, AdvanceOp, key);
      var request := AdvanceRequest(trip, before, after, expectedVersion);
      var prior := Prior(k, request);
      if prior.Some? {
        return prior.value;
      }
      if HasActiveLease(Snapshot(), trip, now) {
        return Failed(OperationInProgress);
      }
      if trip !in sessions {
        return Failed(NotFound);
      }
      if sessions[trip].version != expectedVersion {
        return Failed(VersionStale);
      }
      if sessions[trip].currentRevision != before {
        return Failed(RevisionStale);
      }
      sessions := sessions[trip := sessions[trip].(currentRevision := after, version := expectedVersion + 1)];
      reply := AtVersion(expectedVersion + 1);
      InsertRecord(k, request, reply);
    }

    method Acquire(op: string, trip: TripId, operation: PlanningOperation, digest: ReadinessDigest, ttl: Time, now: Time)
      returns (reply: Reply)
      modifies `leases
      ensures Snapshot() == AcquireLease(old(Snapshot()), op, trip, operation, digest, ttl, now).db
      ensures reply == AcquireLease(old(Snapshot()), op, trip, operation, digest, ttl, now).reply
    {
      var expiresAt := now + ttl;
      if op in leases {
        var existing := leases[op];
        if existing.trip != trip || existing.digest != digest || existing.operation != operation {
          return Failed(OperationStale);
        }
        if existing.completedAt.None? {
          if existing.expiresAt > now {
            return Failed(OperationInProgress);
          }
          return Failed(OperationStale);
        }
        if HasActiveLease(Snapshot(), trip, now) {
          return Failed(OperationInProgress);
        }
        if expiresAt <= existing.expiresAt {
          expiresAt := existing.expiresAt + 1;
        }
        leases := leases[op := existing.(expiresAt := expiresAt, completedAt := None)];
        return Permit(op, expiresAt);
      }
      if HasActiveLease(Snapshot(), trip, now) {
        return Failed(OperationInProgress);
      }
      leases := leases[op := Lease(trip, digest, operation, expiresAt, None)];
      return Permit(op, expiresAt);
    }

    method Complete(op: string, expiresAt: Time, now: Time)
      modifies `leases
      ensures Snapshot() == CompleteLease(old(Snapshot()), op, expiresAt, now).db
    {
      if op in leases && leases[op].expiresAt == expiresAt && leases[op].completedAt.None? {
        leases := leases[op := leases[op].(completedAt := Some(now))];
      }
    }

    method RecordResolutionAudit(a: Audit, now: Time) returns (reply: Reply)
      modifies `audits
      ensures Snapshot() == RecordAudit(old(Snapshot()), a, now).db
      ensures reply == RecordAudit(old(Snapshot()), a, now).reply
    {
      if HasActiveLease(Snapshot(), a.trip, now) {
        return Failed(OperationInProgress);
      }
      audits := audits + [a];
      return Done;
    }

    method AuthenticateParticipant(token: Secret, now: Time) returns (r: Result<nat, AuthError>)
      ensures r == Authenticate(Snapshot(), token, now)
    {
      if token !in sessionOf || sessionOf[token] !in actorSessions {
        return Err(SessionInvalid);
      }
      var row := actorSessions[sessionOf[token]];
      if row.revokedAt.Some? {
        return Err(SessionRevoked);
      }
      if row.expiresAt <= now {
        return Err(SessionExpired);
      }
      return Ok(sessionOf[token]);
    }
  }
}
