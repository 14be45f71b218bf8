/** What an invitation grants, what a revocation takes away, and for how long. */
module RevocationLaws {
  import opened Prelude
  import opened CollaborationStore
  import opened StoreFrames
  import opened AccessLaws

  // ---- Granting ----------------------------------------------------------------------------

  /** A redemption's own token authenticates exactly until the seven days are over. */
  lemma RedeemedTokenAuthenticates(db: Db, c: Call, later: Time)
    requires c.command.DoRedeem? && Commits(db, c) && Fresh(db, c.command)
    ensures Authenticate(Apply(db, c).db, c.command.secret, later) ==
            if later < c.now + SESSION_TTL then Ok(c.command.freshId) else Err(SessionExpired)
  {
    hide Apply, Commits;
    RedeemShape(db, c);
  }

  /** A new invitation can be redeemed under any unused key until it expires, unless a lease is active; the member it
      opens a session for is the member it was made for. */
  lemma InvitationRedeems(db: Db, c: Call, redeem: Call)
    requires c.command.DoInvite? && Commits(db, c) && Fresh(db, c.command)
    requires redeem.command.DoRedeem? && redeem.command.token == c.command.secret
    requires IdemKey(Redeemer, RedeemOp, redeem.command.key) !in Apply(db, c).db.idempotency
    requires !HasActiveLease(Apply(db, c).db, c.command.trip, redeem.now)
    requires Fresh(Apply(db, c).db, redeem.command)
    ensures Commits(Apply(db, c).db, redeem) <==> redeem.now < c.now + c.command.hours * HOUR
    ensures Commits(Apply(db, c).db, redeem) ==>
      var after := Apply(Apply(db, c).db, redeem).db;
      && redeem.command.freshId in after.actorSessions
      && after.actorSessions[redeem.command.freshId].trip == c.command.trip
      && after.actorSessions[redeem.command.freshId].participant == c.command.participant
      && Authenticate(after, redeem.command.secret, redeem.now) == Ok(redeem.command.freshId)
  {
    hide Apply;
    InviteShape(db, c);
    if Commits(Apply(db, c).db, redeem) {
      RedeemShape(Apply(db, c).db, redeem);
      RedeemedTokenAuthenticates(Apply(db, c).db, redeem, redeem.now);
    }
  }

  // ---- Taking away -------------------------------------------------------------------------

  predicate SessionOf(db: Db, s: nat, trip: TripId, p: Pid) {
    s in db.actorSessions && db.actorSessions[s].trip == trip && db.actorSessions[s].participant == p
  }

  lemma UnrevokedSessionHasInvitation(db: Db, s: nat)
    requires AccessInv(db) && s in db.actorSessions && db.actorSessions[s].revokedAt.None?
    ensures HasLiveInvitation(db, db.actorSessions[s].trip, db.actorSessions[s].participant)
  {
    var i :| Backs(db, i, s);
    assert db.invitations[i].Live();
  }

  /** A member without a live invitation has no unrevoked session either. */
  lemma NoInvitationNoSession(db: Db, trip: TripId, p: Pid, s: nat)
    requires AccessInv(db) && !HasLiveInvitation(db, trip, p) && SessionOf(db, s, trip, p)
    ensures db.actorSessions[s].revokedAt.Some?
  {
    hide AccessInv, HasLiveInvitation;
    if db.actorSessions[s].revokedAt.None? {
      UnrevokedSessionHasInvitation(db, s);
    }
  }

  /** A revocation that goes through cuts the member off exactly when the invitation it names is the live one, or
      there was no live one: naming a superseded invitation leaves a later one, and its session, in force. */
  lemma RevocationCutsOffIff(db: Db, c: Call)
    requires AccessInv(db) && c.command.DoRevoke? && Commits(db, c)
    ensures c.command.invitation in db.invitations
    ensures var m := c.command;
      !HasLiveInvitation(Apply(db, c).db, m.trip, m.participant) <==>
      db.invitations[m.invitation].Live() || !HasLiveInvitation(db, m.trip, m.participant)
  {
    hide Apply, Commits;
    var m := c.command;
    var after := Apply(db, c).db;
    RevokeShape(db, c);
    if i :| i in db.invitations && db.invitations[i].trip == m.trip && db.invitations[i].participant == m.participant
            && db.invitations[i].Live() && i != m.invitation {
      assert after.invitations[i] == db.invitations[i];
    }
  }

  /** The member gets a new invitation in this call. */
  predicate Reinvites(db: Db, c: Call, trip: TripId, p: Pid) {
    c.command.DoInvite? && c.command.trip == trip && c.command.participant == p && Commits(db, c)
  }

  lemma StepKeepsCutOff(db: Db, c: Call, trip: TripId, p: Pid)
    requires AccessInv(db) && Fresh(db, c.command)
    requires !HasLiveInvitation(db, trip, p) && !Reinvites(db, c, trip, p)
    ensures !HasLiveInvitation(Apply(db, c).db, trip, p)
  {
    hide Apply, Commits, AccessInv;
    if !Commits(db, c) {
      OnlyCommitsWrite(db, c);
    } else if c.command.DoInvite? {
      InviteShape(db, c);
    } else if c.command.DoRedeem? {
      RedeemShape(db, c);
    } else if c.command.DoRevoke? {
      RevokeShape(db, c);
    } else {
      WritesOnlyFootprint(db, c);
    }
  }

  ghost predicate NeverReinvited(db: Db, calls: seq<Call>, trip: TripId, p: Pid)
    decreases |calls|
  {
    calls != [] ==> !Reinvites(db, calls[0], trip, p) && NeverReinvited(Apply(db, calls[0]).db, calls[1..], trip, p)
  }

  lemma {:induction false} RunKeepsCutOff(db: Db, calls: seq<Call>, trip: TripId, p: Pid)
    requires AccessInv(db) && FreshRun(db, calls)
    requires !HasLiveInvitation(db, trip, p) && NeverReinvited(db, calls, trip, p)
    ensures !HasLiveInvitation(Run(db, calls), trip, p)
    decreases |calls|
  {
    hide Apply, AccessInv, Fresh, HasLiveInvitation, Reinvites;
    if calls != [] {
      StepPreservesAccess(db, calls[0]);
      StepKeepsCutOff(db, calls[0], trip, p);
      RunKeepsCutOff(Apply(db, calls[0]).db, calls[1..], trip, p);
    }
  }

  /** After the live invitation of a member is revoked, no token authenticates as that member, in any continuation,
      until an invitation for the member is created again. */
  lemma RevokedMemberStaysOut(db: Db, revoke: Call, calls: seq<Call>, token: Secret, now: Time)
    requires AccessInv(db) && revoke.command.DoRevoke? && Commits(db, revoke)
    requires revoke.command.invitation in db.invitations && db.invitations[revoke.command.invitation].Live()
    requires FreshRun(Apply(db, revoke).db, calls)
    requires NeverReinvited(Apply(db, revoke).db, calls, revoke.command.trip, revoke.command.participant)
    ensures var end := Run(Apply(db, revoke).db, calls);
      Authenticate(end, token, now).Ok? ==>
      !SessionOf(end, Authenticate(end, token, now).value, revoke.command.trip, revoke.command.participant)
  {
    hide Apply, AccessInv, HasLiveInvitation, Reinvites, Run, FreshRun, NeverReinvited, Commits;
    var after := Apply(db, revoke).db;
    StepPreservesAccess(db, revoke);
    RevocationCutsOffIff(db, revoke);
    RunKeepsCutOff(after, calls, revoke.command.trip, revoke.command.participant);
    RunPreservesAccess(after, calls);
    var end := Run(after, calls);
    if Authenticate(end, token, now).Ok? &&
       SessionOf(end, Authenticate(end, token, now).value, revoke.command.trip, revoke.command.participant)
    {
      NoInvitationNoSession(end, revoke.command.trip, revoke.command.participant, Authenticate(end, token, now).value);
    }
  }
}
