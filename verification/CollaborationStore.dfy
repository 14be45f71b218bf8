/** The tables of app/infrastructure/collaboration_store.py and what one committed (or rolled back) transaction of
    each public method does to them. Times are microseconds; secrets and token hashes are opaque fresh numbers. */
module CollaborationStore {
  import opened Prelude
  import opened Digests
  import TripDraft

  type Time = int
  type TripId = nat
  type Pid = nat
  type Secret = nat

  const HOUR: Time := 3_600_000_000
  const SESSION_TTL: Time := 7 * 24 * HOUR

  // ---- Rows --------------------------------------------------------------------------------

  datatype Session = Session(organizer: Pid, organizerToken: Secret, draftId: nat, currentRevision: nat, version: nat)

  /** The four confirmation columns are null together or set together. */
  datatype Confirmation = Confirmation(revision: nat, source: SourceDigest, shared: SharedDigest, member: MemberDigest)

  datatype Member = Member(memberKey: nat, confirmation: Option<Confirmation>)

  datatype InvitationStatus = Active | Redeemed | Revoked

  datatype Invitation = Invitation(
    trip: TripId, participant: Pid, token: Secret, expiresAt: Time,
    status: InvitationStatus, revokedAt: Option<Time>, redeemedSession: Option<nat>)
  {
    /** Neither revoked nor superseded: the rows `create_invitation` refuses to duplicate. */
    predicate Live() { status != Revoked && revokedAt.None? }
  }

  datatype ActorSession = ActorSession(trip: TripId, participant: Pid, token: Secret, expiresAt: Time, revokedAt: Option<Time>)

  datatype PlanningOperation = ProviderFacts | Recommendation | GenerateV1 | ConfirmReview | GenerateV2 | PlanDecision

  datatype Lease = Lease(trip: TripId, digest: ReadinessDigest, operation: PlanningOperation, expiresAt: Time, completedAt: Option<Time>)
  {
    predicate ActiveAt(t: Time) { completedAt.None? && expiresAt > t }
  }

  datatype Decision = Pending | Approved | Rejected

  datatype ProposedChange = ProposedChange(field: TripDraft.TripField, text: string, cents: nat, reason: string)

  datatype ChangeProposal = ChangeProposal(
    trip: TripId, participant: Pid, baseRevision: nat, change: ProposedChange, status: Decision, note: Option<string>)

  datatype Actor = Bootstrapper | Redeemer | OrganizerActor(id: Pid) | ParticipantActor(id: Pid)

  datatype Operation = BootstrapOp | InviteOp | RevokeOp | RedeemOp | ConfirmOp | AdvanceOp | ResolveOp

  datatype IdemKey = IdemKey(actor: Actor, operation: Operation, key: string)

  /** The content a request digest binds. */
  datatype Request =
    | BootstrapRequest(revision: RevisionData)
    | InviteRequest(trip: TripId, participant: Pid, expectedVersion: nat, hours: nat)
    | RevokeRequest(trip: TripId, participant: Pid, invitation: nat, expectedVersion: nat)
    | RedeemRequest(token: Secret)
    | ConfirmRequest(trip: TripId, participant: Pid, confirmation: Confirmation, expectedVersion: nat)
    | AdvanceRequest(trip: TripId, before: nat, after: nat, expectedVersion: nat)
    | ResolveRequest(trip: TripId, item: nat, relaxation: nat, baseRevision: nat, expectedVersion: nat)

  datatype IdemRow = IdemRow(request: Request, result: Option<Reply>)

  datatype Audit = Audit(trip: TripId, item: nat, relaxation: nat, actor: Pid, before: nat, after: nat)

  datatype Db = Db(
    sessions: map<TripId, Session>,
    members: map<TripId, map<Pid, Member>>,
    invitations: map<nat, Invitation>,
    invitationOf: map<Secret, nat>,          // the primary-key index on the invitation token hash
    actorSessions: map<nat, ActorSession>,
    sessionOf: map<Secret, nat>,             // the unique index on the session token hash
    leases: map<string, Lease>,
    proposals: map<nat, ChangeProposal>,
    idempotency: map<IdemKey, IdemRow>,
    audits: seq<Audit>)

  const EMPTY := Db(map[], map[], map[], map[], map[], map[], map[], map[], map[], [])

  // ---- Replies -----------------------------------------------------------------------------

  datatype StoreError =
    | BindingInvalid | IdempotencyKeyReused | AlreadyExists | NotFound | PermissionRequired | SelfInviteForbidden
    | VersionStale | RevisionStale | OperationInProgress | OperationStale | ParticipantNotBound
    | InvitationActiveExists | InvitationUnavailable | InvitationExpired | ProposalNotPending | DecisionInvalid
    | OperationNotFound

  datatype Reply =
    | Failed(error: StoreError)
    | Bootstrapped(trip: TripId, organizer: Pid, token: Option<Secret>)
    | Invited(invitation: nat, trip: TripId, participant: Pid, expiresAt: Time, version: nat, token: Option<Secret>)
    | SessionOpened(session: nat, trip: TripId, participant: Pid, expiresAt: Time, token: Option<Secret>)
    | AccessRevoked(invitation: nat, trip: TripId, participant: Pid, version: nat)
    | AtVersion(version: nat)
    | Proposed(proposal: nat)
    | Permit(operationId: string, expiresAt: Time)
    | Begun(prior: Option<Reply>)
    | Resolved(after: nat)
    | Done

  datatype Outcome = Outcome(db: Db, reply: Reply)

  function Reject(db: Db, e: StoreError): Outcome { Outcome(db, Failed(e)) }

  /** What the idempotency table keeps of a reply: everything but the secret. */
  function Withheld(r: Reply): Reply {
    match r
    case Bootstrapped(t, o, _) => Bootstrapped(t, o, None)
    case Invited(i, t, p, e, v, _) => Invited(i, t, p, e, v, None)
    case SessionOpened(s, t, p, e, _) => SessionOpened(s, t, p, e, None)
    case _ => r
  }

  /** The answer to a key that is already on record, if it is. */
  function Recall(db: Db, key: IdemKey, request: Request): Option<Reply> {
    if key !in db.idempotency then None
    else if db.idempotency[key].request != request then Some(Failed(IdempotencyKeyReused))
    else db.idempotency[key].result
  }

  function Record(db: Db, key: IdemKey, request: Request, reply: Reply): Db {
    db.(idempotency := db.idempotency[key := IdemRow(request, Some(Withheld(reply)))])
  }

  // ---- Guards ------------------------------------------------------------------------------

  predicate IsOrganizer(db: Db, trip: TripId, token: Secret) {
    trip in db.sessions && db.sessions[trip].organizerToken == token
  }

  /** `_assert_mutation_allowed_connection` raises exactly when this holds. */
  predicate HasActiveLease(db: Db, trip: TripId, now: Time) {
    exists op :: op in db.leases && db.leases[op].trip == trip && db.leases[op].ActiveAt(now)
  }

  predicate IsMember(db: Db, trip: TripId, p: Pid) {
    trip in db.members && p in db.members[trip]
  }

  predicate HasLiveInvitation(db: Db, trip: TripId, p: Pid) {
    exists i :: i in db.invitations && db.invitations[i].trip == trip && db.invitations[i].participant == p && db.invitations[i].Live()
  }

  function WithVersion(db: Db, trip: TripId, version: nat): Db
    requires trip in db.sessions
  {
    db.(sessions := db.sessions[trip := db.sessions[trip].(version := version)])
  }

  /** `UPDATE collaboration_actor_sessions SET revoked_at=COALESCE(revoked_at, ?)` for one optional session id. */
  function RevokeSession(sessions: map<nat, ActorSession>, id: Option<nat>, now: Time): map<nat, ActorSession> {
    if id.Some? && id.value in sessions && sessions[id.value].revokedAt.None?
    then sessions[id.value := sessions[id.value].(revokedAt := Some(now))]
    else sessions
  }

  // ---- Transactions ------------------------------------------------------------------------

  /** The participant rows bootstrap inserts for the first n members. */
  function BoundMembers(r: Revision, n: nat): map<Pid, Member>
    requires n <= |r.understanding.participants|
  {
    if n == 0 then map[] else
      var key := r.understanding.participants[n - 1].memberKey;
      assert key in KeySet(r.understanding.participants);
      BoundMembers(r, n - 1)[r.bindings[key] := Member(key, None)]
  }

  // Each method below is a chain of tests that refuses (or replays) a call, and the writes of a call that passes.

  function BootstrapRefusal(db: Db, r: Revision, k: IdemKey, now: Time): (refusal: Option<Reply>)
    ensures refusal.None? ==> 1 in r.bindings
  {
    if 1 !in r.bindings || !TripDraft.SequentialKeys(r.understanding.participants) then Some(Failed(BindingInvalid))
    else if Recall(db, k, BootstrapRequest(r)).Some? then Recall(db, k, BootstrapRequest(r))
    else if r.tripId in db.sessions then Some(Failed(AlreadyExists))
    else if HasActiveLease(db, r.tripId, now) then Some(Failed(OperationInProgress))
    else None
  }

  function WithTrip(db: Db, r: Revision, secret: Secret): Db
    requires 1 in r.bindings
  {
    db.(sessions := db.sessions[r.tripId := Session(r.bindings[1], secret, r.draftId, r.revision, 1)],
        members := db.members[r.tripId := BoundMembers(r, |r.understanding.participants|)])
  }

  function Bootstrap(db: Db, r: Revision, key: string, secret: Secret, now: Time): Outcome {
    var k := IdemKey(Bootstrapper, BootstrapOp, key);
    var refusal := BootstrapRefusal(db, r, k, now);
    if refusal.Some? then Outcome(db, refusal.value)
    else
      var reply := Bootstrapped(r.tripId, r.bindings[1], Some(secret));
      Outcome(Record(WithTrip(db, r, secret), k, BootstrapRequest(r), reply), reply)
  }

  /** Organizer calls record under the organizer the token names. */
  function OrganizerKey(db: Db, trip: TripId, operation: Operation, key: string): IdemKey
    requires trip in db.sessions
  {
    IdemKey(OrganizerActor(db.sessions[trip].organizer), operation, key)
  }

  function InviteRefusal(
    db: Db, trip: TripId, p: Pid, token: Secret, expectedVersion: nat, hours: nat, key: string, now: Time): (refusal: Option<Reply>)
    ensures refusal.None? ==> IsOrganizer(db, trip, token)
  {
    if !IsOrganizer(db, trip, token) then Some(Failed(PermissionRequired)) else
      var s := db.sessions[trip];
      var replay := Recall(db, OrganizerKey(db, trip, InviteOp, key), InviteRequest(trip, p, expectedVersion, hours));
      if replay.Some? then replay
      else if s.organizer == p then Some(Failed(SelfInviteForbidden))
      else if s.version != expectedVersion then Some(Failed(VersionStale))
      else if HasActiveLease(db, trip, now) then Some(Failed(OperationInProgress))
      else if !IsMember(db, trip, p) then Some(Failed(ParticipantNotBound))
      else if HasLiveInvitation(db, trip, p) then Some(Failed(InvitationActiveExists))
      else None
  }

  function WithInvitation(db: Db, id: nat, row: Invitation, version: nat): Db
    requires row.trip in db.sessions
  {
    WithVersion(db, row.trip, version).(
      invitations := db.invitations[id := row],
      invitationOf := db.invitationOf[row.token := id])
  }

  function CreateInvitation(
    db: Db, trip: TripId, p: Pid, token: Secret, expectedVersion: nat, hours: nat, key: string,
    freshId: nat, freshToken: Secret, now: Time): Outcome
  {
    var refusal := InviteRefusal(db, trip, p, token, expectedVersion, hours, key, now);
    if refusal.Some? then Outcome(db, refusal.value)
    else
      var expiresAt := now + hours * HOUR;
      var reply := Invited(freshId, trip, p, expiresAt, expectedVersion + 1, Some(freshToken));
      var row := Invitation(trip, p, freshToken, expiresAt, Active, None, None);
      Outcome(
        Record(WithInvitation(db, freshId, row, expectedVersion + 1),
               OrganizerKey(db, trip, InviteOp, key), InviteRequest(trip, p, expectedVersion, hours), reply),
        reply)
  }

  function RedeemRefusal(db: Db, token: Secret, k: IdemKey, now: Time): (refusal: Option<Reply>)
    ensures refusal.None? ==> token in db.invitationOf && db.invitationOf[token] in db.invitations
  {
    if Recall(db, k, RedeemRequest(token)).Some? then Recall(db, k, RedeemRequest(token))
    else if token !in db.invitationOf || db.invitationOf[token] !in db.invitations then Some(Failed(InvitationUnavailable))
    else
      var row := db.invitations[db.invitationOf[token]];
      if !row.Live() then Some(Failed(InvitationUnavailable))
      else if row.expiresAt <= now then Some(Failed(InvitationExpired))
      else if HasActiveLease(db, row.trip, now) then Some(Failed(OperationInProgress))
      else None
  }

  /** The recorded session, if any, is revoked before its successor is inserted. */
  function WithSession(db: Db, id: nat, session: nat, grant: ActorSession, now: Time): Db
    requires id in db.invitations
  {
    db.(
      invitations := db.invitations[id := db.invitations[id].(status := Redeemed, redeemedSession := Some(session))],
      actorSessions := RevokeSession(db.actorSessions, db.invitations[id].redeemedSession, now)[session := grant],
      sessionOf := db.sessionOf[grant.token := session])
  }

  function Redeem(db: Db, token: Secret, key: string, freshSession: nat, freshToken: Secret, now: Time): Outcome {
    var k := IdemKey(Redeemer, RedeemOp, key);
    var refusal := RedeemRefusal(db, token, k, now);
    if refusal.Some? then Outcome(db, refusal.value)
    else
      var id := db.invitationOf[token];
      var row := db.invitations[id];
      var expiresAt := now + SESSION_TTL;
      var reply := SessionOpened(freshSession, row.trip, row.participant, expiresAt, Some(freshToken));
      var grant := ActorSession(row.trip, row.participant, freshToken, expiresAt, None);
      Outcome(Record(WithSession(db, id, freshSession, grant, now), k, RedeemRequest(token), reply), reply)
  }

  function RevokeRefusal(
    db: Db, trip: TripId, p: Pid, id: nat, token: Secret, expectedVersion: nat, key: string, now: Time): (refusal: Option<Reply>)
    ensures refusal.None? ==> IsOrganizer(db, trip, token) && id in db.invitations && db.invitations[id].trip == trip
  {
    if !IsOrganizer(db, trip, token) then Some(Failed(PermissionRequired)) else
      var replay := Recall(db, OrganizerKey(db, trip, RevokeOp, key), RevokeRequest(trip, p, id, expectedVersion));
      if replay.Some? then replay
      else if db.sessions[trip].version != expectedVersion then Some(Failed(VersionStale))
      else if HasActiveLease(db, trip, now) then Some(Failed(OperationInProgress))
      else if id !in db.invitations || db.invitations[id].trip != trip || db.invitations[id].participant != p
      then Some(Failed(InvitationUnavailable))
      else if db.invitations[id].status == Revoked && db.invitations[id].revokedAt.None? then Some(Failed(InvitationUnavailable))
      else None
  }

  /** An invitation that is already revoked stays as it is; its recorded session is revoked either way. */
  function WithRevocation(db: Db, id: nat, version: nat, now: Time): Db
    requires id in db.invitations && db.invitations[id].trip in db.sessions
  {
    var row := db.invitations[id];
    WithVersion(db, row.trip, version).(
      invitations :=
        if row.status == Revoked then db.invitations
        else db.invitations[id := row.(status := Revoked, revokedAt := Some(now))],
      actorSessions := RevokeSession(db.actorSessions, row.redeemedSession, now))
  }

  function Revoke(
    db: Db, trip: TripId, p: Pid, id: nat, token: Secret, expectedVersion: nat, key: string, now: Time): Outcome
  {
    var refusal := RevokeRefusal(db, trip, p, id, token, expectedVersion, key, now);
    if refusal.Some? then Outcome(db, refusal.value)
    else
      var reply := AccessRevoked(id, trip, p, expectedVersion + 1);
      Outcome(
        Record(WithRevocation(db, id, expectedVersion + 1, now),
               OrganizerKey(db, trip, RevokeOp, key), RevokeRequest(trip, p, id, expectedVersion), reply),
        reply)
  }

  function ProposeRefusal(db: Db, trip: TripId, baseRevision: nat, expectedVersion: nat, now: Time): (refusal: Option<Reply>)
    ensures refusal.None? ==> trip in db.sessions
  {
    if HasActiveLease(db, trip, now) then Some(Failed(OperationInProgress))
    else if trip !in db.sessions then Some(Failed(NotFound))
    else if db.sessions[trip].currentRevision != baseRevision then Some(Failed(RevisionStale))
    else if db.sessions[trip].version != expectedVersion then Some(Failed(VersionStale))
    else None
  }

  function WithProposal(db: Db, id: nat, row: ChangeProposal, version: nat): Db
    requires row.trip in db.sessions
  {
    WithVersion(db, row.trip, version).(proposals := db.proposals[id := row])
  }

  function Propose(
    db: Db, trip: TripId, p: Pid, baseRevision: nat, expectedVersion: nat, change: ProposedChange, freshId: nat, now: Time): Outcome
  {
    var refusal := ProposeRefusal(db, trip, baseRevision, expectedVersion, now);
    if refusal.Some? then Outcome(db, refusal.value)
    else
      var row := ChangeProposal(trip, p, baseRevision, change, Pending, None);
      Outcome(WithProposal(db, freshId, row, expectedVersion + 1), Proposed(freshId))
  }

  /** The one mutation that never looks at the leases. */
  function ReviewRefusal(db: Db, trip: TripId, id: nat, expectedVersion: nat, decision: Decision): (refusal: Option<Reply>)
    ensures refusal.None? ==> trip in db.sessions && id in db.proposals && db.proposals[id].trip == trip
  {
    if decision == Pending then Some(Failed(DecisionInvalid))
    else if trip !in db.sessions then Some(Failed(NotFound))
    else if db.sessions[trip].version != expectedVersion then Some(Failed(VersionStale))
    else if id !in db.proposals || db.proposals[id].trip != trip || db.proposals[id].status != Pending
    then Some(Failed(ProposalNotPending))
    else None
  }

  function Review(db: Db, trip: TripId, id: nat, expectedVersion: nat, decision: Decision, note: Option<string>): Outcome {
    var refusal := ReviewRefusal(db, trip, id, expectedVersion, decision);
    if refusal.Some? then Outcome(db, refusal.value)
    else
      var row := db.proposals[id].(status := decision, note := note);
      Outcome(WithProposal(db, id, row, expectedVersion + 1), AtVersion(expectedVersion + 1))
  }

  function BeginResolve(db: Db, actor: Actor, key: string, request: Request): Outcome {
    var k := IdemKey(actor, ResolveOp, key);
    if k in db.idempotency then
      if db.idempotency[k].request != request then Reject(db, IdempotencyKeyReused)
      else Outcome(db, Begun(db.idempotency[k].result))
    else Outcome(db.(idempotency := db.idempotency[k := IdemRow(request, None)]), Begun(None))
  }

  function CompleteResolve(db: Db, actor: Actor, key: string, after: nat): Outcome {
    var k := IdemKey(actor, ResolveOp, key);
    if k !in db.idempotency then Reject(db, OperationNotFound)
    else Outcome(db.(idempotency := db.idempotency[k := db.idempotency[k].(result := Some(Resolved(after)))]), Done)
  }

  function ConfirmRefusal(
    db: Db, trip: TripId, p: Pid, request: Request, expectedVersion: nat, k: IdemKey, now: Time): (refusal: Option<Reply>)
    ensures refusal.None? ==> trip in db.sessions && IsMember(db, trip, p)
  {
    if Recall(db, k, request).Some? then Recall(db, k, request)
    else if trip !in db.sessions then Some(Failed(NotFound))
    else if db.sessions[trip].version != expectedVersion then Some(Failed(VersionStale))
    else if HasActiveLease(db, trip, now) then Some(Failed(OperationInProgress))
    else if !IsMember(db, trip, p) then Some(Failed(ParticipantNotBound))
    else None
  }

  function WithConfirmation(db: Db, trip: TripId, p: Pid, c: Confirmation, version: nat): Db
    requires trip in db.sessions && IsMember(db, trip, p)
  {
    var rows := db.members[trip];
    WithVersion(db, trip, version).(members := db.members[trip := rows[p := rows[p].(confirmation := Some(c))]])
  }

  function Confirm(db: Db, trip: TripId, p: Pid, c: Confirmation, expectedVersion: nat, key: string, now: Time): Outcome {
    var k := IdemKey(ParticipantActor(p), ConfirmOp, key);
    var request := ConfirmRequest(trip, p, c, expectedVersion);
    var refusal := ConfirmRefusal(db, trip, p, request, expectedVersion, k, now);
    if refusal.Some? then Outcome(db, refusal.value)
    else
      var reply := AtVersion(expectedVersion + 1);
      Outcome(Record(WithConfirmation(db, trip, p, c, expectedVersion + 1), k, request, reply), reply)
  }

  function AdvanceRefusal(
    db: Db, trip: TripId, before: nat, after: nat, expectedVersion: nat, k: IdemKey, now: Time): (refusal: Option<Reply>)
    ensures refusal.None? ==> trip in db.sessions
  {
    if after <= before then Some(Failed(RevisionStale))
    else
      var replay := Recall(db, k, AdvanceRequest(trip, before, after, expectedVersion));
      if replay.Some? then replay
      else if HasActiveLease(db, trip, now) then Some(Failed(OperationInProgress))
      else if trip !in db.sessions then Some(Failed(NotFound))
      else if db.sessions[trip].version != expectedVersion then Some(Failed(VersionStale))
      else if db.sessions[trip].currentRevision != before then Some(Failed(RevisionStale))
      else None
  }

  function WithRevision(db: Db, trip: TripId, revision: nat, version: nat): Db
    requires trip in db.sessions
  {
    db.(sessions := db.sessions[trip := db.sessions[trip].(currentRevision := revision, version := version)])
  }

  function Advance(
    db: Db, trip: TripId, before: nat, after: nat, expectedVersion: nat, actor: Actor, key: string, now: Time): Outcome
  {
    var k := IdemKey(actor, AdvanceOp, key);
    var refusal := AdvanceRefusal(db, trip, before, after, expectedVersion, k, now);
    if refusal.Some? then Outcome(db, refusal.value)
    else
      var reply := AtVersion(expectedVersion + 1);
      Outcome(
        Record(WithRevision(db, trip, after, expectedVersion + 1), k, AdvanceRequest(trip, before, after, expectedVersion), reply),
        reply)
  }

  function AcquireRefusal(
    db: Db, op: string, trip: TripId, operation: PlanningOperation, digest: ReadinessDigest, now: Time): (refusal: Option<Reply>)
  {
    if op in db.leases && (db.leases[op].trip != trip || db.leases[op].digest != digest || db.leases[op].operation != operation)
    then Some(Failed(OperationStale))
    else if op in db.leases && db.leases[op].completedAt.None?
    then Some(Failed(if db.leases[op].expiresAt > now then OperationInProgress else OperationStale))
    else if HasActiveLease(db, trip, now) then Some(Failed(OperationInProgress))
    else None
  }

  /** A reactivated lease expires strictly later than it did before, whatever the clock says. */
  function LeaseExpiry(db: Db, op: string, ttl: Time, now: Time): (expiresAt: Time)
    ensures op in db.leases ==> db.leases[op].expiresAt < expiresAt
    ensures now + ttl <= expiresAt
  {
    if op in db.leases && now + ttl <= db.leases[op].expiresAt then db.leases[op].expiresAt + 1 else now + ttl
  }

  function AcquireLease(
    db: Db, op: string, trip: TripId, operation: PlanningOperation, digest: ReadinessDigest, ttl: Time, now: Time): Outcome
  {
    var refusal := AcquireRefusal(db, op, trip, operation, digest, now);
    if refusal.Some? then Outcome(db, refusal.value)
    else
      var expiresAt := LeaseExpiry(db, op, ttl, now);
      Outcome(db.(leases := db.leases[op := Lease(trip, digest, operation, expiresAt, None)]), Permit(op, expiresAt))
  }

  /** The expiry is the generation fence: a completion that does not quote it changes nothing. */
  function CompleteLease(db: Db, op: string, expiresAt: Time, now: Time): Outcome {
    if op in db.leases && db.leases[op].expiresAt == expiresAt && db.leases[op].completedAt.None?
    then Outcome(db.(leases := db.leases[op := db.leases[op].(completedAt := Some(now))]), Done)
    else Outcome(db, Done)
  }

  function RecordAudit(db: Db, a: Audit, now: Time): Outcome {
    if HasActiveLease(db, a.trip, now) then Reject(db, OperationInProgress)
    else Outcome(db.(audits := db.audits + [a]), Done)
  }

  // ---- Reads ---------------------------------------------------------------------------------

  datatype AuthError = SessionInvalid | SessionRevoked | SessionExpired

  /** `authenticate_participant` on a presented session token. */
  function Authenticate(db: Db, token: Secret, now: Time): Result<nat, AuthError> {
    if token !in db.sessionOf || db.sessionOf[token] !in db.actorSessions then Err(SessionInvalid)
    else
      var row := db.actorSessions[db.sessionOf[token]];
      if row.revokedAt.Some? then Err(SessionRevoked)
      else if row.expiresAt <= now then Err(SessionExpired)
      else Ok(db.sessionOf[token])
  }

  // ---- Calls and runs ----------------------------------------------------------------------

  datatype Command =
    | DoBootstrap(revision: Revision, key: string, secret: Secret)
    | DoInvite(trip: TripId, participant: Pid, organizerToken: Secret, expectedVersion: nat, hours: nat, key: string,
               freshId: nat, secret: Secret)
    | DoRedeem(token: Secret, key: string, freshId: nat, secret: Secret)
    | DoRevoke(trip: TripId, participant: Pid, invitation: nat, organizerToken: Secret, expectedVersion: nat, key: string)
    | DoPropose(trip: TripId, participant: Pid, baseRevision: nat, expectedVersion: nat, change: ProposedChange, freshId: nat)
    | DoReview(trip: TripId, proposal: nat, expectedVersion: nat, decision: Decision, note: Option<string>)
    | DoBeginResolve(actor: Actor, key: string, request: Request)
    | DoCompleteResolve(actor: Actor, key: string, after: nat)
    | DoConfirm(trip: TripId, participant: Pid, confirmation: Confirmation, expectedVersion: nat, key: string)
    | DoAdvance(trip: TripId, before: nat, after: nat, expectedVersion: nat, actor: Actor, key: string)
    | DoAcquire(op: string, trip: TripId, operation: PlanningOperation, digest: ReadinessDigest, ttl: Time)
    | DoComplete(op: string, expiresAt: Time)
    | DoAudit(audit: Audit)

  /** One transaction: a command with the clock reading it carries. */
  datatype Call = Call(command: Command, now: Time)

  function Apply(db: Db, c: Call): Outcome {
    match c.command
    case DoBootstrap(r, key, secret) => Bootstrap(db, r, key, secret, c.now)
    case DoInvite(t, p, token, v, hours, key, id, secret) => CreateInvitation(db, t, p, token, v, hours, key, id, secret, c.now)
    case DoRedeem(token, key, id, secret) => Redeem(db, token, key, id, secret, c.now)
    case DoRevoke(t, p, id, token, v, key) => Revoke(db, t, p, id, token, v, key, c.now)
    case DoPropose(t, p, base, v, change, id) => Propose(db, t, p, base, v, change, id, c.now)
    case DoReview(t, id, v, decision, note) => Review(db, t, id, v, decision, note)
    case DoBeginResolve(actor, key, request) => BeginResolve(db, actor, key, request)
    case DoCompleteResolve(actor, key, after) => CompleteResolve(db, actor, key, after)
    case DoConfirm(t, p, conf, v, key) => Confirm(db, t, p, conf, v, key, c.now)
    case DoAdvance(t, before, after, v, actor, key) => Advance(db, t, before, after, v, actor, key, c.now)
    case DoAcquire(op, t, operation, digest, ttl) => AcquireLease(db, op, t, operation, digest, ttl, c.now)
    case DoComplete(op, expiresAt) => CompleteLease(db, op, expiresAt, c.now)
    case DoAudit(a) => RecordAudit(db, a, c.now)
  }

  /** Ids and secrets drawn by a call have not been used before. */
  predicate Fresh(db: Db, c: Command) {
    match c
    case DoBootstrap(_, _, secret) => forall t :: t in db.sessions ==> db.sessions[t].organizerToken != secret
    case DoInvite(_, _, _, _, _, _, id, secret) => id !in db.invitations && secret !in db.invitationOf
    case DoRedeem(_, _, id, secret) => id !in db.actorSessions && secret !in db.sessionOf
    case DoPropose(_, _, _, _, _, id) => id !in db.proposals
    case _ => true
  }

  /** The store after a sequence of transactions. */
  function Run(db: Db, calls: seq<Call>): Db
    decreases |calls|
  {
    if calls == [] then db else Run(Apply(db, calls[0]).db, calls[1..])
  }

  predicate FreshRun(db: Db, calls: seq<Call>)
    decreases |calls|
  {
    calls != [] ==> Fresh(db, calls[0].command) && FreshRun(Apply(db, calls[0]).db, calls[1..])
  }

  lemma {:induction false} RunAppend(db: Db, a: seq<Call>, b: seq<Call>)
    ensures Run(db, a + b) == Run(Run(db, a), b)
    ensures FreshRun(db, a + b) <==> FreshRun(db, a) && FreshRun(Run(db, a), b)
    decreases |a|
  {
    if a == [] {
      assert a + b == b;
    } else {
      assert (a + b)[1..] == a[1..] + b;
      RunAppend(Apply(db, a[0]).db, a[1..], b);
    }
  }
}
