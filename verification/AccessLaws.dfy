/** Invitations and member sessions over whole runs of the store. */
module AccessLaws {
  import opened Prelude
  import opened CollaborationStore
  import opened StoreFrames

  // ---- The invariant -----------------------------------------------------------------------

  ghost predicate IndexesAgree(db: Db) {
    && (forall i :: i in db.invitations ==>
          db.invitations[i].token in db.invitationOf && db.invitationOf[db.invitations[i].token] == i)
    && (forall t :: t in db.invitationOf ==>
          db.invitationOf[t] in db.invitations && db.invitations[db.invitationOf[t]].token == t)
    && (forall s :: s in db.actorSessions ==>
          db.actorSessions[s].token in db.sessionOf && db.sessionOf[db.actorSessions[s].token] == s)
    && (forall t :: t in db.sessionOf ==>
          db.sessionOf[t] in db.actorSessions && db.actorSessions[db.sessionOf[t]].token == t)
  }

  ghost predicate InvitationConsistent(db: Db, i: nat)
    requires i in db.invitations
  {
    var v := db.invitations[i];
    && (v.status == Revoked <==> v.revokedAt.Some?)
    && (v.status == Active ==> v.redeemedSession.None?)
    && (v.status == Redeemed ==> v.redeemedSession.Some?)
    && (v.redeemedSession.Some? ==>
          && v.redeemedSession.value in db.actorSessions
          && db.actorSessions[v.redeemedSession.value].trip == v.trip
          && db.actorSessions[v.redeemedSession.value].participant == v.participant)
    && v.trip in db.sessions
    && v.participant != db.sessions[v.trip].organizer
  }

  /** Session s is the one recorded on the live redeemed invitation i of the same member. */
  ghost predicate Backs(db: Db, i: nat, s: nat)
    requires s in db.actorSessions
  {
    && i in db.invitations
    && db.invitations[i].status == Redeemed && db.invitations[i].Live()
    && db.invitations[i].redeemedSession == Some(s)
    && db.invitations[i].trip == db.actorSessions[s].trip
    && db.invitations[i].participant == db.actorSessions[s].participant
  }

  ghost predicate SessionsBacked(db: Db) {
    forall s :: s in db.actorSessions && db.actorSessions[s].revokedAt.None? ==> exists i :: Backs(db, i, s)
  }

  ghost predicate OneLiveInvitation(db: Db) {
    forall i, j :: i in db.invitations && j in db.invitations && db.invitations[i].Live() && db.invitations[j].Live()
      && db.invitations[i].trip == db.invitations[j].trip && db.invitations[i].participant == db.invitations[j].participant
      ==> i == j
  }

  ghost predicate AccessInv(db: Db) {
    && IndexesAgree(db)
    && (forall i :: i in db.invitations ==> InvitationConsistent(db, i))
    && SessionsBacked(db)
    && OneLiveInvitation(db)
  }

  /** Each member has at most one unrevoked session. */
  lemma OneLiveSession(db: Db, s: nat, t: nat)
    requires AccessInv(db)
    requires s in db.actorSessions && t in db.actorSessions
    requires db.actorSessions[s].revokedAt.None? && db.actorSessions[t].revokedAt.None?
    requires db.actorSessions[s].trip == db.actorSessions[t].trip
    requires db.actorSessions[s].participant == db.actorSessions[t].participant
    ensures s == t
  {
    var i :| Backs(db, i, s);
    var j :| Backs(db, j, t);
  }

  // ---- Preservation ------------------------------------------------------------------------

  /** What a first-time invitation does to the access tables. */
  ghost predicate Invites(db: Db, after: Db, id: nat, row: Invitation) {
    && id !in db.invitations && row.token !in db.invitationOf
    && row.Live() && row.status == Active && row.redeemedSession.None?
    && row.trip in db.sessions && row.participant != db.sessions[row.trip].organizer
    && !HasLiveInvitation(db, row.trip, row.participant)
    && after.invitations == db.invitations[id := row]
    && after.invitationOf == db.invitationOf[row.token := id]
    && after.actorSessions == db.actorSessions && after.sessionOf == db.sessionOf
  }

  /** What a first-time redemption does: the recorded session rotates. */
  ghost predicate Rotates(db: Db, after: Db, id: nat, session: nat, grant: ActorSession, now: Time) {
    && id in db.invitations && db.invitations[id].Live()
    && session !in db.actorSessions && grant.token !in db.sessionOf
    && grant.trip == db.invitations[id].trip && grant.participant == db.invitations[id].participant
    && grant.revokedAt.None?
    && after.invitations == db.invitations[id := db.invitations[id].(status := Redeemed, redeemedSession := Some(session))]
    && after.invitationOf == db.invitationOf
    && after.actorSessions == RevokeSession(db.actorSessions, db.invitations[id].redeemedSession, now)[session := grant]
    && after.sessionOf == db.sessionOf[grant.token := session]
  }

  /** What a first-time revocation does. */
  ghost predicate Withdraws(db: Db, after: Db, id: nat, now: Time) {
    && id in db.invitations
    && after.invitations ==
         (if db.invitations[id].status == Revoked then db.invitations
          else db.invitations[id := db.invitations[id].(status := Revoked, revokedAt := Some(now))])
    && after.invitationOf == db.invitationOf
    && after.actorSessions == RevokeSession(db.actorSessions, db.invitations[id].redeemedSession, now)
    && after.sessionOf == db.sessionOf
  }

  /** The row a committed invitation inserts. */
  function NewInvitation(c: Call): Invitation
    requires c.command.DoInvite?
  {
    Invitation(c.command.trip, c.command.participant, c.command.secret, c.now + c.command.hours * HOUR, Active, None, None)
  }

  /** The row a committed redemption inserts. */
  function NewSession(db: Db, c: Call): ActorSession
    requires c.command.DoRedeem? && c.command.token in db.invitationOf && db.invitationOf[c.command.token] in db.invitations
  {
    var row := db.invitations[db.invitationOf[c.command.token]];
    ActorSession(row.trip, row.participant, c.command.secret, c.now + SESSION_TTL, None)
  }

  lemma InviteShape(db: Db, c: Call)
    requires c.command.DoInvite? && Commits(db, c) && Fresh(db, c.command)
    ensures Invites(db, Apply(db, c).db, c.command.freshId, NewInvitation(c))
  {
  }

  lemma RedeemShape(db: Db, c: Call)
    requires c.command.DoRedeem? && Commits(db, c) && Fresh(db, c.command)
    ensures c.command.token in db.invitationOf && db.invitationOf[c.command.token] in db.invitations
    ensures Rotates(db, Apply(db, c).db, db.invitationOf[c.command.token], c.command.freshId, NewSession(db, c), c.now)
  {
  }

  lemma RevokeShape(db: Db, c: Call)
    requires c.command.DoRevoke? && Commits(db, c)
    ensures Withdraws(db, Apply(db, c).db, c.command.invitation, c.now)
    ensures db.invitations[c.command.invitation].trip == c.command.trip
    ensures db.invitations[c.command.invitation].participant == c.command.participant
  {
  }

  lemma InvitesIndexes(db: Db, after: Db, id: nat, row: Invitation)
    requires IndexesAgree(db) && Invites(db, after, id, row)
    ensures IndexesAgree(after)
  {
  }

  lemma InvitesConsistent(db: Db, after: Db, id: nat, row: Invitation, i: nat)
    requires Invites(db, after, id, row) && OwnersKept(db, after)
    requires i in after.invitations && (i != id ==> InvitationConsistent(db, i))
    ensures InvitationConsistent(after, i)
  {
  }

  lemma InvitesKeepInv(db: Db, after: Db, id: nat, row: Invitation)
    requires AccessInv(db) && Invites(db, after, id, row) && OwnersKept(db, after)
    ensures AccessInv(after)
  {
    InvitesIndexes(db, after, id, row);
    hide IndexesAgree, OwnersKept, InvitationConsistent;
    forall s | s in after.actorSessions && after.actorSessions[s].revokedAt.None?
      ensures exists i :: Backs(after, i, s)
    {
      var i :| Backs(db, i, s);
      assert Backs(after, i, s);
    }
    forall i | i in after.invitations
      ensures InvitationConsistent(after, i)
    {
      InvitesConsistent(db, after, id, row, i);
    }
  }

  lemma RotatesIndexes(db: Db, after: Db, id: nat, session: nat, grant: ActorSession, now: Time)
    requires IndexesAgree(db) && Rotates(db, after, id, session, grant, now)
    ensures IndexesAgree(after)
  {
  }

  lemma RotatesConsistent(db: Db, after: Db, id: nat, session: nat, grant: ActorSession, now: Time, i: nat)
    requires i in db.invitations && InvitationConsistent(db, i) && Rotates(db, after, id, session, grant, now) && OwnersKept(db, after)
    ensures i in after.invitations && InvitationConsistent(after, i)
  {
  }

  lemma RotatesBacked(db: Db, after: Db, id: nat, session: nat, grant: ActorSession, now: Time, s: nat)
    requires SessionsBacked(db) && Rotates(db, after, id, session, grant, now)
    requires s in after.actorSessions && after.actorSessions[s].revokedAt.None?
    ensures exists i :: Backs(after, i, s)
  {
    if s == session {
      assert Backs(after, id, s);
    } else {
      var i :| Backs(db, i, s);
      assert i != id;
      assert Backs(after, i, s);
    }
  }

  lemma RotatesKeepInv(db: Db, after: Db, id: nat, session: nat, grant: ActorSession, now: Time)
    requires AccessInv(db) && Rotates(db, after, id, session, grant, now) && OwnersKept(db, after)
    ensures AccessInv(after)
  {
    hide IndexesAgree, SessionsBacked, OwnersKept, InvitationConsistent, RevokeSession;
    RotatesIndexes(db, after, id, session, grant, now);
    forall i | i in after.invitations
      ensures InvitationConsistent(after, i)
    {
      RotatesConsistent(db, after, id, session, grant, now, i);
    }
    forall s | s in after.actorSessions && after.actorSessions[s].revokedAt.None?
      ensures exists i :: Backs(after, i, s)
    {
      RotatesBacked(db, after, id, session, grant, now, s);
    }
    BackedMeans(after);
  }

  lemma BackedMeans(db: Db)
    requires forall s :: s in db.actorSessions && db.actorSessions[s].revokedAt.None? ==> exists i :: Backs(db, i, s)
    ensures SessionsBacked(db)
  {
  }

  lemma WithdrawsIndexes(db: Db, after: Db, id: nat, now: Time)
    requires IndexesAgree(db) && Withdraws(db, after, id, now)
    ensures IndexesAgree(after)
  {
  }

  lemma WithdrawsConsistent(db: Db, after: Db, id: nat, now: Time, i: nat)
    requires i in db.invitations && InvitationConsistent(db, i) && Withdraws(db, after, id, now) && OwnersKept(db, after)
    ensures i in after.invitations && InvitationConsistent(after, i)
  {
  }

  lemma WithdrawsBacked(db: Db, after: Db, id: nat, now: Time, s: nat)
    requires SessionsBacked(db) && Withdraws(db, after, id, now)
    requires s in after.actorSessions && after.actorSessions[s].revokedAt.None?
    ensures exists i :: Backs(after, i, s)
  {
    var i :| Backs(db, i, s);
    assert i != id;
    assert Backs(after, i, s);
  }

  lemma WithdrawsKeepInv(db: Db, after: Db, id: nat, now: Time)
    requires AccessInv(db) && Withdraws(db, after, id, now) && OwnersKept(db, after)
    ensures AccessInv(after)
  {
    hide IndexesAgree, SessionsBacked, OwnersKept, InvitationConsistent, RevokeSession;
    WithdrawsIndexes(db, after, id, now);
    forall i | i in after.invitations
      ensures InvitationConsistent(after, i)
    {
      WithdrawsConsistent(db, after, id, now, i);
    }
    forall s | s in after.actorSessions && after.actorSessions[s].revokedAt.None?
      ensures exists i :: Backs(after, i, s)
    {
      WithdrawsBacked(db, after, id, now, s);
    }
    BackedMeans(after);
  }

  /** Calls that leave the access tables alone. */
  ghost predicate SameAccess(a: Db, b: Db) {
    && a.invitations == b.invitations && a.invitationOf == b.invitationOf
    && a.actorSessions == b.actorSessions && a.sessionOf == b.sessionOf
  }

  lemma SameAccessPreserves(a: Db, b: Db)
    requires AccessInv(a) && SameAccess(a, b) && OwnersKept(a, b)
    ensures AccessInv(b)
  {
    forall i | i in b.invitations
      ensures InvitationConsistent(b, i)
    {
      assert InvitationConsistent(a, i);
    }
    forall s | s in b.actorSessions && b.actorSessions[s].revokedAt.None?
      ensures exists i :: Backs(b, i, s)
    {
      var i :| Backs(a, i, s);
      assert Backs(b, i, s);
    }
  }

  predicate TouchesAccess(c: Command) {
    c.DoInvite? || c.DoRedeem? || c.DoRevoke?
  }

  lemma OthersLeaveAccess(db: Db, c: Call)
    requires !TouchesAccess(c.command)
    ensures SameAccess(db, Apply(db, c).db)
  {
    hide Apply;
    WritesOnlyFootprint(db, c);
  }

  lemma StepPreservesAccess(db: Db, c: Call)
    requires AccessInv(db) && Fresh(db, c.command)
    ensures AccessInv(Apply(db, c).db)
  {
    hide Apply, Commits, AccessInv, Invites, Rotates, Withdraws;
    var after := Apply(db, c).db;
    StepKeepsOwners(db, c);
    if !Commits(db, c) {
      OnlyCommitsWrite(db, c);
    } else if c.command.DoInvite? {
      InviteShape(db, c);
      InvitesKeepInv(db, after, c.command.freshId, NewInvitation(c));
    } else if c.command.DoRedeem? {
      RedeemShape(db, c);
      RotatesKeepInv(db, after, db.invitationOf[c.command.token], c.command.freshId, NewSession(db, c), c.now);
    } else if c.command.DoRevoke? {
      RevokeShape(db, c);
      WithdrawsKeepInv(db, after, c.command.invitation, c.now);
    } else {
      OthersLeaveAccess(db, c);
      SameAccessPreserves(db, after);
    }
  }

  /** In every run from the empty store, every unrevoked session is the one recorded on an unrevoked redeemed
      invitation of the same member, and each member has at most one such invitation. */
  lemma {:induction false} RunPreservesAccess(db: Db, calls: seq<Call>)
    requires AccessInv(db) && FreshRun(db, calls)
    ensures AccessInv(Run(db, calls))
    decreases |calls|
  {
    hide Apply, AccessInv, Fresh;
    if calls != [] {
      StepPreservesAccess(db, calls[0]);
      RunPreservesAccess(Apply(db, calls[0]).db, calls[1..]);
    }
  }
}
