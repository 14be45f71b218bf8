/** What the store holds about one trip, which calls can change it, and what a lease freezes. */
module TripViews {
  import opened Prelude
  import opened CollaborationStore
  import opened StoreFrames
  import opened AccessLaws
  import opened RevocationLaws

  /** Everything `get_stored` and `participant_access_status` read about one trip. */
  datatype View = View(
    session: Option<Session>,
    members: map<Pid, Member>,
    access: AccessRows,
    proposals: map<nat, ChangeProposal>)

  datatype AccessRows = AccessRows(invitations: map<nat, Invitation>, sessions: map<nat, ActorSession>)

  function InvitationsOf(rows: map<nat, Invitation>, trip: TripId): map<nat, Invitation> {
    map i | i in rows && rows[i].trip == trip :: rows[i]
  }

  function SessionsOf(rows: map<nat, ActorSession>, trip: TripId): map<nat, ActorSession> {
    map s | s in rows && rows[s].trip == trip :: rows[s]
  }

  function ProposalsOf(rows: map<nat, ChangeProposal>, trip: TripId): map<nat, ChangeProposal> {
    map i | i in rows && rows[i].trip == trip :: rows[i]
  }

  function ViewOf(db: Db, trip: TripId): View {
    View(
      if trip in db.sessions then Some(db.sessions[trip]) else None,
      if trip in db.members then db.members[trip] else map[],
      AccessRows(InvitationsOf(db.invitations, trip), SessionsOf(db.actorSessions, trip)),
      ProposalsOf(db.proposals, trip))
  }

  /** The trip whose view a call may write. */
  function Reaches(db: Db, c: Command): Option<TripId> {
    match c
    case DoBootstrap(r, _, _) => Some(r.tripId)
    case DoInvite(t, _, _, _, _, _, _, _) => Some(t)
    case DoRedeem(token, _, _, _) =>
      if token in db.invitationOf && db.invitationOf[token] in db.invitations
      then Some(db.invitations[db.invitationOf[token]].trip)
      else None
    case DoRevoke(t, _, _, _, _, _) => Some(t)
    case DoPropose(t, _, _, _, _, _) => Some(t)
    case DoReview(t, _, _, _, _) => Some(t)
    case DoConfirm(t, _, _, _, _) => Some(t)
    case DoAdvance(t, _, _, _, _, _) => Some(t)
    case _ => None
  }

  // ---- Other trips -------------------------------------------------------------------------

  lemma InvitationElsewhere(rows: map<nat, Invitation>, id: nat, row: Invitation, trip: TripId)
    requires row.trip != trip && (id in rows ==> rows[id].trip != trip)
    ensures InvitationsOf(rows[id := row], trip) == InvitationsOf(rows, trip)
  {
  }

  lemma SessionElsewhere(rows: map<nat, ActorSession>, id: nat, row: ActorSession, trip: TripId)
    requires row.trip != trip && (id in rows ==> rows[id].trip != trip)
    ensures SessionsOf(rows[id := row], trip) == SessionsOf(rows, trip)
  {
  }

  lemma RevokedElsewhere(rows: map<nat, ActorSession>, id: Option<nat>, now: Time, trip: TripId)
    requires id.Some? && id.value in rows ==> rows[id.value].trip != trip
    ensures SessionsOf(RevokeSession(rows, id, now), trip) == SessionsOf(rows, trip)
  {
  }

  lemma AccessElsewhere(db: Db, c: Call, trip: TripId)
    requires AccessInv(db) && Fresh(db, c.command) && TouchesAccess(c.command)
    requires Commits(db, c) && Reaches(db, c.command) != Some(trip)
    ensures InvitationsOf(Apply(db, c).db.invitations, trip) == InvitationsOf(db.invitations, trip)
    ensures SessionsOf(Apply(db, c).db.actorSessions, trip) == SessionsOf(db.actorSessions, trip)
  {
    hide Apply, Commits, InvitationsOf, SessionsOf;
    var after := Apply(db, c).db;
    if c.command.DoInvite? {
      InviteShape(db, c);
      InvitationElsewhere(db.invitations, c.command.freshId, NewInvitation(c), trip);
    } else if c.command.DoRedeem? {
      RedeemShape(db, c);
      var i := db.invitationOf[c.command.token];
      assert InvitationConsistent(db, i);
      InvitationElsewhere(db.invitations, i, after.invitations[i], trip);
      RevokedElsewhere(db.actorSessions, db.invitations[i].redeemedSession, c.now, trip);
      SessionElsewhere(RevokeSession(db.actorSessions, db.invitations[i].redeemedSession, c.now), c.command.freshId,
                       NewSession(db, c), trip);
    } else {
      RevokeShape(db, c);
      var i := c.command.invitation;
      assert InvitationConsistent(db, i);
      InvitationElsewhere(db.invitations, i, after.invitations[i], trip);
      RevokedElsewhere(db.actorSessions, db.invitations[i].redeemedSession, c.now, trip);
    }
  }

  lemma ProposalsElsewhere(db: Db, c: Call, trip: TripId)
    requires Fresh(db, c.command) && (c.command.DoPropose? || c.command.DoReview?)
    requires Commits(db, c) && c.command.trip != trip
    ensures ProposalsOf(Apply(db, c).db.proposals, trip) == ProposalsOf(db.proposals, trip)
  {
    hide HasActiveLease;
  }

  lemma MembersElsewhere(db: Db, c: Call, trip: TripId)
    requires c.command.DoBootstrap? || c.command.DoConfirm?
    requires Commits(db, c) && Reaches(db, c.command) != Some(trip)
    ensures trip in Apply(db, c).db.members <==> trip in db.members
    ensures trip in db.members ==> Apply(db, c).db.members[trip] == db.members[trip]
  {
    hide HasActiveLease, Recall;
  }

  lemma SessionElsewhereRow(db: Db, c: Call, trip: TripId)
    requires Reaches(db, c.command) != Some(trip) && Commits(db, c)
    ensures trip in Apply(db, c).db.sessions <==> trip in db.sessions
    ensures trip in db.sessions ==> Apply(db, c).db.sessions[trip] == db.sessions[trip]
  {
    hide Apply, Commits;
    if Versioned(c.command) {
      VersionedBump(db, c);
    } else if c.command.DoBootstrap? {
      BootstrapAdds(db, c);
    } else {
      WritesOnlyFootprint(db, c);
    }
  }

  lemma RowsElsewhere(db: Db, c: Call, trip: TripId)
    requires AccessInv(db) && Fresh(db, c.command) && Commits(db, c)
    requires Reaches(db, c.command) != Some(trip)
    ensures trip in Apply(db, c).db.members <==> trip in db.members
    ensures trip in db.members ==> Apply(db, c).db.members[trip] == db.members[trip]
    ensures InvitationsOf(Apply(db, c).db.invitations, trip) == InvitationsOf(db.invitations, trip)
    ensures SessionsOf(Apply(db, c).db.actorSessions, trip) == SessionsOf(db.actorSessions, trip)
    ensures ProposalsOf(Apply(db, c).db.proposals, trip) == ProposalsOf(db.proposals, trip)
  {
    hide Apply, Commits, AccessInv, InvitationsOf, SessionsOf, ProposalsOf, Fresh;
    WritesOnlyFootprint(db, c);
    if TouchesAccess(c.command) {
      AccessElsewhere(db, c, trip);
    } else if c.command.DoPropose? || c.command.DoReview? {
      ProposalsElsewhere(db, c, trip);
    } else if c.command.DoBootstrap? || c.command.DoConfirm? {
      MembersElsewhere(db, c, trip);
    }
  }

  /** A call shows in the view of at most one trip. */
  lemma OtherTripsUntouched(db: Db, c: Call, trip: TripId)
    requires AccessInv(db) && Fresh(db, c.command)
    requires Reaches(db, c.command) != Some(trip)
    ensures ViewOf(Apply(db, c).db, trip) == ViewOf(db, trip)
  {
    hide Apply, Commits, AccessInv, InvitationsOf, SessionsOf, ProposalsOf, Fresh, Within;
    if !Commits(db, c) {
      OnlyCommitsWrite(db, c);
    } else {
      SessionElsewhereRow(db, c, trip);
      RowsElsewhere(db, c, trip);
    }
  }

  // ---- What a lease freezes ----------------------------------------------------------------

  predicate NothingPending(v: View) {
    forall i :: i in v.proposals ==> v.proposals[i].status != Pending
  }

  /** Under an active lease no call on the trip commits, except that reviewing a proposal never looks at the leases:
      it is only stopped by there being nothing to review. */
  lemma LeaseBlocksCalls(db: Db, c: Call, trip: TripId)
    requires HasActiveLease(db, trip, c.now) && NothingPending(ViewOf(db, trip))
    requires Reaches(db, c.command) == Some(trip)
    ensures !Commits(db, c)
  {
    if c.command.DoReview? && c.command.proposal in db.proposals && db.proposals[c.command.proposal].trip == trip {
      assert c.command.proposal in ViewOf(db, trip).proposals;
    }
    hide HasActiveLease, Recall, HasLiveInvitation;
  }

  /** An active lease with nothing left to review freezes the whole view of its trip. */
  lemma LeaseFreezesView(db: Db, c: Call, trip: TripId)
    requires AccessInv(db) && Fresh(db, c.command)
    requires HasActiveLease(db, trip, c.now) && NothingPending(ViewOf(db, trip))
    ensures ViewOf(Apply(db, c).db, trip) == ViewOf(db, trip)
  {
    hide Apply, Commits, AccessInv, HasActiveLease, Fresh, ViewOf, Reaches;
    if Reaches(db, c.command) == Some(trip) {
      LeaseBlocksCalls(db, c, trip);
      OnlyCommitsWrite(db, c);
    } else {
      OtherTripsUntouched(db, c, trip);
    }
  }

  /** All that reviewing proposals can do to a view. */
  ghost predicate OnlyReviewed(v: View, w: View) {
    && w.members == v.members && w.access == v.access
    && v.session.Some? == w.session.Some?
    && (v.session.Some? ==> w.session.value == v.session.value.(version := w.session.value.version))
    && (NothingPending(v) ==> w == v)
  }

  /** An active lease leaves room for nothing but reviews of the trip's proposals. */
  lemma LeaseLeavesOnlyReviews(db: Db, c: Call, trip: TripId)
    requires AccessInv(db) && Fresh(db, c.command) && HasActiveLease(db, trip, c.now)
    ensures OnlyReviewed(ViewOf(db, trip), ViewOf(Apply(db, c).db, trip))
  {
    hide Apply, Commits, AccessInv, HasActiveLease, Fresh, Reaches, InvitationsOf, SessionsOf, NothingPending;
    if NothingPending(ViewOf(db, trip)) {
      LeaseFreezesView(db, c, trip);
    } else if Reaches(db, c.command) != Some(trip) {
      OtherTripsUntouched(db, c, trip);
    } else if !Commits(db, c) {
      OnlyCommitsWrite(db, c);
    } else {
      OnlyReviewCommits(db, c, trip);
      ReviewBumps(db, c);
      WritesOnlyFootprint(db, c);
    }
  }

  lemma OnlyReviewCommits(db: Db, c: Call, trip: TripId)
    requires HasActiveLease(db, trip, c.now) && Reaches(db, c.command) == Some(trip) && Commits(db, c)
    ensures c.command.DoReview? && c.command.trip == trip
  {
    hide HasActiveLease, Recall, HasLiveInvitation;
  }

  /** Without the second condition the freeze fails: with a proposal pending, a review commits under the lease. */
  lemma ReviewIgnoresLease(db: Db, c: Call)
    requires c.command.DoReview? && c.command.decision != Pending && c.command.trip in db.sessions
    requires c.command.expectedVersion == db.sessions[c.command.trip].version
    requires c.command.proposal in db.proposals && db.proposals[c.command.proposal].trip == c.command.trip
    requires db.proposals[c.command.proposal].status == Pending
    ensures Commits(db, c)
    ensures ViewOf(Apply(db, c).db, c.command.trip) != ViewOf(db, c.command.trip)
  {
    VersionedBump(db, c);
  }

  /** So an active lease freezes the view against every call exactly when nothing is pending. */
  lemma LeaseFreezesIff(db: Db, trip: TripId, now: Time)
    requires AccessInv(db) && HasActiveLease(db, trip, now) && trip in db.sessions
    ensures (forall c: Call :: c.now == now && Fresh(db, c.command) ==> ViewOf(Apply(db, c).db, trip) == ViewOf(db, trip)) <==>
            NothingPending(ViewOf(db, trip))
  {
    hide AccessInv, HasActiveLease, Apply;
    if NothingPending(ViewOf(db, trip)) {
      forall c: Call | c.now == now && Fresh(db, c.command)
        ensures ViewOf(Apply(db, c).db, trip) == ViewOf(db, trip)
      {
        LeaseFreezesView(db, c, trip);
      }
    } else {
      var i :| i in ViewOf(db, trip).proposals && ViewOf(db, trip).proposals[i].status == Pending;
      var review := Call(DoReview(trip, i, db.sessions[trip].version, Approved, None), now);
      ReviewIgnoresLease(db, review);
      assert Fresh(db, review.command);
    }
  }

  // ---- Access status -----------------------------------------------------------------------

  datatype Access = NotInvited | InviteOpen | SessionOpen | AccessExpired | AccessWithdrawn

  ghost predicate LatestSession(rows: AccessRows, p: Pid, s: nat) {
    && s in rows.sessions && rows.sessions[s].participant == p
    && forall t :: t in rows.sessions && rows.sessions[t].participant == p
         ==> rows.sessions[t].expiresAt <= rows.sessions[s].expiresAt
  }

  ghost predicate LatestInvitation(rows: AccessRows, p: Pid, i: nat) {
    && i in rows.invitations && rows.invitations[i].participant == p
    && forall j :: j in rows.invitations && rows.invitations[j].participant == p
         ==> rows.invitations[j].expiresAt <= rows.invitations[i].expiresAt
  }

  /** The first select of `participant_access_status`: the session that expires last. Which of several rows with the same
      expiry comes first is fixed by the trip's access rows, and otherwise left open. */
  ghost function LatestSessionOf(rows: AccessRows, p: Pid): Option<ActorSession> {
    if exists s :: LatestSession(rows, p, s) then
      var s :| LatestSession(rows, p, s);
      Some(rows.sessions[s])
    else None
  }

  /** The second select: the invitation that expires last. */
  ghost function LatestInvitationOf(rows: AccessRows, p: Pid): Option<Invitation> {
    if exists i :: LatestInvitation(rows, p, i) then
      var i :| LatestInvitation(rows, p, i);
      Some(rows.invitations[i])
    else None
  }

  function StatusBySession(row: ActorSession, now: Time): Access {
    if row.revokedAt.Some? then AccessWithdrawn
    else if row.expiresAt <= now then AccessExpired
    else SessionOpen
  }

  function StatusByInvitation(row: Option<Invitation>, now: Time): Access {
    if row.None? then NotInvited
    else if row.value.revokedAt.Some? || row.value.status == Revoked then AccessWithdrawn
    else if row.value.status == Active && row.value.expiresAt > now then InviteOpen
    else AccessExpired
  }

  /** `participant_access_status` on one state of the tables: the session decides if there is one, else the invitation. */
  ghost function StatusOf(rows: AccessRows, p: Pid, now: Time): Access {
    var session := LatestSessionOf(rows, p);
    if session.Some? then StatusBySession(session.value, now) else StatusByInvitation(LatestInvitationOf(rows, p), now)
  }

  /** Time alone never withdraws access. */
  lemma WithdrawnIsTimeless(rows: AccessRows, p: Pid, now: Time, later: Time)
    ensures StatusOf(rows, p, now) == AccessWithdrawn <==> StatusOf(rows, p, later) == AccessWithdrawn
  {
  }

  lemma {:induction false} LatestAmong(s: set<nat>, expiry: map<nat, Time>)
    requires s != {} && s <= expiry.Keys
    ensures exists m :: m in s && forall x :: x in s ==> expiry[x] <= expiry[m]
    decreases |s|
  {
    var k :| k in s;
    if s == {k} {
      assert k in s && forall x :: x in s ==> expiry[x] <= expiry[k];
    } else {
      LatestAmong(s - {k}, expiry);
      var m :| m in s - {k} && forall x :: x in s - {k} ==> expiry[x] <= expiry[m];
      var best := if expiry[k] <= expiry[m] then m else k;
      assert best in s && forall x :: x in s ==> expiry[x] <= expiry[best];
    }
  }

  lemma SomeInvitationIsLatest(rows: AccessRows, p: Pid, i: nat)
    requires i in rows.invitations && rows.invitations[i].participant == p
    ensures exists m :: LatestInvitation(rows, p, m)
  {
    var ids := set j | j in rows.invitations && rows.invitations[j].participant == p;
    assert i in ids;
    LatestAmong(ids, map j | j in rows.invitations :: rows.invitations[j].expiresAt);
    var m :| m in ids && forall j :: j in ids ==> rows.invitations[j].expiresAt <= rows.invitations[m].expiresAt;
    assert LatestInvitation(rows, p, m);
  }

  /** A member who was invited once and has no live invitation now is shown as withdrawn. */
  lemma CutOffShowsWithdrawn(db: Db, trip: TripId, p: Pid, i: nat, now: Time)
    requires AccessInv(db) && !HasLiveInvitation(db, trip, p)
    requires i in db.invitations && db.invitations[i].trip == trip && db.invitations[i].participant == p
    ensures StatusOf(ViewOf(db, trip).access, p, now) == AccessWithdrawn
  {
    var rows := ViewOf(db, trip).access;
    assert i in rows.invitations;
    hide AccessInv;
    forall s | s in rows.sessions && rows.sessions[s].participant == p
      ensures rows.sessions[s].revokedAt.Some?
    {
      NoInvitationNoSession(db, trip, p, s);
    }
    forall j | j in rows.invitations && rows.invitations[j].participant == p
      ensures rows.invitations[j].revokedAt.Some? || rows.invitations[j].status == Revoked
    {
      assert !db.invitations[j].Live();
    }
    SomeInvitationIsLatest(rows, p, i);
  }

  /** Revoking a member's live invitation withdraws the member's access at once. */
  lemma RevocationWithdraws(db: Db, c: Call, now: Time)
    requires AccessInv(db) && c.command.DoRevoke? && Commits(db, c)
    requires c.command.invitation in db.invitations && db.invitations[c.command.invitation].Live()
    ensures StatusOf(ViewOf(Apply(db, c).db, c.command.trip).access, c.command.participant, now) == AccessWithdrawn
  {
    StepPreservesAccess(db, c);
    RevocationCutsOffIff(db, c);
    RevokeShape(db, c);
    hide Apply, Commits, AccessInv, StatusOf, HasLiveInvitation;
    CutOffShowsWithdrawn(Apply(db, c).db, c.command.trip, c.command.participant, c.command.invitation, now);
  }

  lemma SomeSessionIsLatest(rows: AccessRows, p: Pid, s: nat)
    requires s in rows.sessions && rows.sessions[s].participant == p
    ensures exists m :: LatestSession(rows, p, m)
  {
    var ids := set t | t in rows.sessions && rows.sessions[t].participant == p;
    assert s in ids;
    LatestAmong(ids, map t | t in rows.sessions :: rows.sessions[t].expiresAt);
    var m :| m in ids && forall t :: t in ids ==> rows.sessions[t].expiresAt <= rows.sessions[m].expiresAt;
    assert LatestSession(rows, p, m);
  }

  /** Whether the member's session that expires last is open, and for how long. */
  ghost predicate LastSession(rows: AccessRows, p: Pid, s: nat, revoked: bool, expired: bool, now: Time) {
    && s in rows.sessions && rows.sessions[s].participant == p
    && (forall t :: t in rows.sessions && rows.sessions[t].participant == p ==> rows.sessions[t].expiresAt <= rows.sessions[s].expiresAt)
    && (rows.sessions[s].revokedAt.Some? <==> revoked) && (rows.sessions[s].expiresAt <= now <==> expired)
  }

  ghost predicate LastInvitation(rows: AccessRows, p: Pid, i: nat, revoked: bool, usable: bool, now: Time) {
    && i in rows.invitations && rows.invitations[i].participant == p
    && (forall j :: j in rows.invitations && rows.invitations[j].participant == p ==>
          rows.invitations[j].expiresAt <= rows.invitations[i].expiresAt)
    && (rows.invitations[i].revokedAt.Some? || rows.invitations[i].status.Revoked? <==> revoked)
    && (rows.invitations[i].status.Active? && now < rows.invitations[i].expiresAt <==> usable)
  }

  ghost predicate NoSessions(rows: AccessRows, p: Pid) {
    forall s :: s in rows.sessions ==> rows.sessions[s].participant != p
  }

  /** What every shown status says about the rows: the session that expires last decides, and without one the invitation
      that expires last. */
  lemma StatusSays(rows: AccessRows, p: Pid, now: Time)
    ensures match StatusOf(rows, p, now)
      case SessionOpen => exists s :: LastSession(rows, p, s, false, false, now)
      case AccessExpired =>
        || (exists s :: LastSession(rows, p, s, false, true, now))
        || (NoSessions(rows, p) && exists i :: LastInvitation(rows, p, i, false, false, now))
      case AccessWithdrawn =>
        || (exists s, expired :: LastSession(rows, p, s, true, expired, now))
        || (NoSessions(rows, p) && exists i, usable :: LastInvitation(rows, p, i, true, usable, now))
      case InviteOpen => NoSessions(rows, p) && exists i :: LastInvitation(rows, p, i, false, true, now)
      case NotInvited => NoSessions(rows, p) && forall i :: i in rows.invitations ==> rows.invitations[i].participant != p
  {
    if s :| LatestSession(rows, p, s) && LatestSessionOf(rows, p) == Some(rows.sessions[s]) {
      assert LastSession(rows, p, s, rows.sessions[s].revokedAt.Some?, rows.sessions[s].expiresAt <= now, now);
    } else {
      if s :| s in rows.sessions && rows.sessions[s].participant == p {
        SomeSessionIsLatest(rows, p, s);
      }
      if i :| LatestInvitation(rows, p, i) && LatestInvitationOf(rows, p) == Some(rows.invitations[i]) {
        var row := rows.invitations[i];
        assert LastInvitation(rows, p, i, row.revokedAt.Some? || row.status.Revoked?, row.status.Active? && now < row.expiresAt, now);
      } else if i :| i in rows.invitations && rows.invitations[i].participant == p {
        SomeInvitationIsLatest(rows, p, i);
      }
    }
  }
}
