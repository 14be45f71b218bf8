/** Runs from the empty store that show what the laws do not promise. */
module ExampleRuns {
  import opened Prelude
  import opened Digests
  import opened CollaborationStore
  import opened StoreFrames
  import opened AccessLaws
  import opened ReplayLaws
  import opened MemberSubmission
  import opened ReachableReadiness
  import TripDraft

  // ---- A trip of two -------------------------------------------------------------------------

  const MEMBERS := [
    TripDraft.Participant(1, None, None, [], [], [], None),
    TripDraft.Participant(2, None, None, [], [], [], None)]

  /** The organizer is participant 10, the other member is participant 11. */
  function Pair(revision: nat): Revision {
    var r := RevisionData(7, revision, 1, TripDraft.Proposal(NO_TRIP, MEMBERS, [], [], [], []), map[1 := 10, 2 := 11], 0);
    assert KeySet(MEMBERS) == {1, 2} by {
      assert MEMBERS[0].memberKey == 1 && MEMBERS[1].memberKey == 2;
    }
    r
  }

  /** The trip has these rows, its revision is 1 and no lease or proposal exists; `used` are the keys on record. */
  ghost predicate At(
    db: Db, version: nat, invitations: map<nat, Invitation>, tokens: map<Secret, nat>, sessions: map<nat, ActorSession>,
    sessionTokens: map<Secret, nat>, used: set<IdemKey>)
  {
    && db.sessions == map[1 := Session(10, 500, 7, 1, version)]
    && IsMember(db, 1, 11)
    && db.invitations == invitations && db.invitationOf == tokens
    && db.actorSessions == sessions && db.sessionOf == sessionTokens
    && db.leases == map[] && db.proposals == map[]
    && db.idempotency.Keys == used && RecordsComplete(db)
  }

  const START := Call(DoBootstrap(Pair(1), "start", 500), 0)
  const STARTED := {IdemKey(Bootstrapper, BootstrapOp, "start")}

  lemma Starts()
    ensures Fresh(EMPTY, START.command) && At(Apply(EMPTY, START).db, 1, map[], map[], map[], map[], STARTED)
  {
    var r := Pair(1);
    assert Commits(EMPTY, START);
    StepKeepsRecords(EMPTY, START);
    BootstrapAdds(EMPTY, START);
    BootstrapWrites(EMPTY, START);
    BoundKeyHasRow(r, 2);
    CommitIsNoted(EMPTY, START);
    WritesOnlyFootprint(EMPTY, START);
    hide Apply, Commits, BoundMembers, RecordsComplete;
  }

  function LiveRow(secret: Secret): Invitation {
    Invitation(1, 11, secret, HOUR, Active, None, None)
  }

  function InviteCall(version: nat, key: string, id: nat, secret: Secret): Call {
    Call(DoInvite(1, 11, 500, version, 1, key, id, secret), 0)
  }

  lemma Inviting(
    db: Db, version: nat, invitations: map<nat, Invitation>, tokens: map<Secret, nat>, sessions: map<nat, ActorSession>,
    sessionTokens: map<Secret, nat>, used: set<IdemKey>, key: string, id: nat, secret: Secret)
    requires At(db, version, invitations, tokens, sessions, sessionTokens, used)
    requires IdemKey(OrganizerActor(10), InviteOp, key) !in used && id !in invitations && secret !in tokens
    requires forall i :: i in invitations ==> !invitations[i].Live()
    ensures Fresh(db, InviteCall(version, key, id, secret).command)
    ensures At(Apply(db, InviteCall(version, key, id, secret)).db, version + 1, invitations[id := LiveRow(secret)],
               tokens[secret := id], sessions, sessionTokens, used + {IdemKey(OrganizerActor(10), InviteOp, key)})
  {
    var c := InviteCall(version, key, id, secret);
    assert Commits(db, c);
    StepKeepsRecords(db, c);
    InviteShape(db, c);
    InviteBumps(db, c);
    CommitIsNoted(db, c);
    WritesOnlyFootprint(db, c);
    hide Apply, Commits, RecordsComplete;
  }

  function RedeemCall(token: Secret, key: string, id: nat, secret: Secret): Call {
    Call(DoRedeem(token, key, id, secret), 0)
  }

  function OpenSession(secret: Secret): ActorSession {
    ActorSession(1, 11, secret, SESSION_TTL, None)
  }

  lemma Redeeming(
    db: Db, version: nat, invitations: map<nat, Invitation>, tokens: map<Secret, nat>, used: set<IdemKey>,
    token: Secret, key: string, id: nat, secret: Secret)
    requires At(db, version, invitations, tokens, map[], map[], used)
    requires IdemKey(Redeemer, RedeemOp, key) !in used
    requires token in tokens && tokens[token] in invitations && invitations[tokens[token]] == LiveRow(token)
    ensures Fresh(db, RedeemCall(token, key, id, secret).command)
    ensures At(Apply(db, RedeemCall(token, key, id, secret)).db, version,
               invitations[tokens[token] := LiveRow(token).(status := Redeemed, redeemedSession := Some(id))],
               tokens, map[id := OpenSession(secret)], map[secret := id], used + {IdemKey(Redeemer, RedeemOp, key)})
  {
    var c := RedeemCall(token, key, id, secret);
    assert Commits(db, c);
    StepKeepsRecords(db, c);
    RedeemShape(db, c);
    CommitIsNoted(db, c);
    WritesOnlyFootprint(db, c);
    hide Apply, Commits, RecordsComplete;
  }

  function RevokeCall(version: nat, key: string, id: nat, now: Time): Call {
    Call(DoRevoke(1, 11, id, 500, version, key), now)
  }

  lemma Revoking(
    db: Db, version: nat, invitations: map<nat, Invitation>, tokens: map<Secret, nat>, used: set<IdemKey>, key: string,
    id: nat, secret: Secret)
    requires At(db, version, invitations, tokens, map[], map[], used)
    requires IdemKey(OrganizerActor(10), RevokeOp, key) !in used && id in invitations && invitations[id] == LiveRow(secret)
    ensures At(Apply(db, RevokeCall(version, key, id, 0)).db, version + 1,
               invitations[id := LiveRow(secret).(status := Revoked, revokedAt := Some(0))],
               tokens, map[], map[], used + {IdemKey(OrganizerActor(10), RevokeOp, key)})
  {
    var c := RevokeCall(version, key, id, 0);
    assert Commits(db, c);
    StepKeepsRecords(db, c);
    RevokeShape(db, c);
    RevokeBumps(db, c);
    CommitIsNoted(db, c);
    WritesOnlyFootprint(db, c);
    hide Apply, Commits, RecordsComplete;
  }

  lemma RunCons(db: Db, c: Call, rest: seq<Call>)
    ensures Run(db, [c] + rest) == Run(Apply(db, c).db, rest)
    ensures FreshRun(db, [c] + rest) <==> Fresh(db, c.command) && FreshRun(Apply(db, c).db, rest)
  {
    assert ([c] + rest)[1..] == rest;
    hide Apply, Fresh;
  }

  // ---- A superseded revocation ---------------------------------------------------------------

  /** The member's first invitation (100) is revoked, the second (101) is redeemed. */
  const REJOINING := [START] + ([InviteCall(1, "first", 100, 900)] + ([RevokeCall(2, "first", 100, 0)]
                     + ([InviteCall(3, "second", 101, 901)] + ([RedeemCall(901, "redeem", 200, 902)] + []))))

  lemma Rejoined()
    ensures FreshRun(EMPTY, REJOINING)
    ensures exists used :: RejoinedRows(Run(EMPTY, REJOINING), used) && IdemKey(OrganizerActor(10), RevokeOp, "again") !in used
  {
    hide Apply, At, Fresh, Run, FreshRun;
    var first, revoke, second := InviteCall(1, "first", 100, 900), RevokeCall(2, "first", 100, 0), InviteCall(3, "second", 101, 901);
    var redeem := RedeemCall(901, "redeem", 200, 902);
    Starts();
    var a := Apply(EMPTY, START).db;
    Inviting(a, 1, map[], map[], map[], map[], STARTED, "first", 100, 900);
    var b, usedB := Apply(a, first).db, STARTED + {IdemKey(OrganizerActor(10), InviteOp, "first")};
    Revoking(b, 2, map[100 := LiveRow(900)], map[900 := 100], usedB, "first", 100, 900);
    var c, usedC := Apply(b, revoke).db, usedB + {IdemKey(OrganizerActor(10), RevokeOp, "first")};
    var gone := LiveRow(900).(status := Revoked, revokedAt := Some(0));
    assert map[100 := LiveRow(900)][100 := gone] == map[100 := gone];
    Inviting(c, 3, map[100 := gone], map[900 := 100], map[], map[], usedC, "second", 101, 901);
    var d, usedD := Apply(c, second).db, usedC + {IdemKey(OrganizerActor(10), InviteOp, "second")};
    assert map[100 := gone][101 := LiveRow(901)] == map[100 := gone, 101 := LiveRow(901)];
    assert map[900 := 100][901 := 101] == map[900 := 100, 901 := 101];
    Redeeming(d, 4, map[100 := gone, 101 := LiveRow(901)], map[900 := 100, 901 := 101], usedD, 901, "redeem", 200, 902);
    var e := Apply(d, redeem).db;
    var taken := LiveRow(901).(status := Redeemed, redeemedSession := Some(200));
    assert map[100 := gone, 101 := LiveRow(901)][101 := taken] == map[100 := gone, 101 := taken];
    assert IdemKey(OrganizerActor(10), RevokeOp, "again") !in usedD + {IdemKey(Redeemer, RedeemOp, "redeem")} by {
      assert "again" != "first" by { assert "again"[0] != "first"[0]; }
    }
    RunCons(d, redeem, []);
    RunCons(c, second, [redeem] + []);
    RunCons(b, revoke, [second] + ([redeem] + []));
    RunCons(a, first, [revoke] + ([second] + ([redeem] + [])));
    RunCons(EMPTY, START, [first] + ([revoke] + ([second] + ([redeem] + []))));
    assert Fresh(b, revoke.command) by { RevokesAreFresh(b, revoke); }
    RunNothing(e);
  }

  lemma RevokesAreFresh(db: Db, c: Call)
    requires c.command.DoRevoke?
    ensures Fresh(db, c.command)
  {
  }

  lemma RunNothing(db: Db)
    ensures Run(db, []) == db && FreshRun(db, [])
  {
  }

  ghost predicate RejoinedRows(db: Db, used: set<IdemKey>) {
    At(db, 4,
       map[100 := LiveRow(900).(status := Revoked, revokedAt := Some(0)),
           101 := LiveRow(901).(status := Redeemed, redeemedSession := Some(200))],
       map[900 := 100, 901 := 101], map[200 := OpenSession(902)], map[902 := 200], used)
  }

  lemma RevokingAgain(db: Db, used: set<IdemKey>)
    requires RejoinedRows(db, used) && IdemKey(OrganizerActor(10), RevokeOp, "again") !in used
    ensures var c := RevokeCall(4, "again", 100, 1);
      && Commits(db, c)
      && Apply(db, c).reply == AccessRevoked(100, 1, 11, 5)
      && Authenticate(Apply(db, c).db, 902, 2) == Ok(200)
  {
    var c := RevokeCall(4, "again", 100, 1);
    hide RecordsComplete;
    assert Commits(db, c);
    assert db.invitations[100].redeemedSession == None;
  }

  /** After that run, revoking the first invitation again succeeds and reports the member as revoked, yet the session
      opened from the second one keeps authenticating. */
  lemma SupersededRevocationLeavesSession()
    ensures FreshRun(EMPTY, REJOINING) && AccessInv(Run(EMPTY, REJOINING))
    ensures var db := Run(EMPTY, REJOINING);
      var c := RevokeCall(4, "again", 100, 1);
      && Commits(db, c)
      && Apply(db, c).reply == AccessRevoked(100, 1, 11, 5)
      && Authenticate(Apply(db, c).db, 902, 2) == Ok(200)
  {
    hide Run, FreshRun, AccessInv, RejoinedRows, Apply, Commits, Authenticate;
    Rejoined();
    EmptyAccess();
    RunPreservesAccess(EMPTY, REJOINING);
    var used :| RejoinedRows(Run(EMPTY, REJOINING), used) && IdemKey(OrganizerActor(10), RevokeOp, "again") !in used;
    RevokingAgain(Run(EMPTY, REJOINING), used);
  }

  lemma EmptyAccess()
    ensures AccessInv(EMPTY)
  {
  }

  // ---- A failed call that commits later --------------------------------------------------------

  /** A lease that is active until microsecond 10. */
  function AcquireCall(): Call {
    Call(DoAcquire("op", 1, GenerateV1, ReadinessOf(Pair(1)), 10), 0)
  }

  const MOVE := DoAdvance(1, 1, 2, 1, OrganizerActor(10), "move")

  lemma MovingUnderLease(db: Db)
    requires At(db, 1, map[], map[], map[], map[], STARTED)
    ensures var leased := Apply(db, AcquireCall()).db;
      && Apply(leased, Call(MOVE, 0)) == Outcome(leased, Failed(OperationInProgress))
      && Commits(leased, Call(MOVE, 10))
  {
    var leased := Apply(db, AcquireCall()).db;
    assert !HasActiveLease(db, 1, 0);
    assert leased == db.(leases := map["op" := Lease(1, ReadinessOf(Pair(1)), GenerateV1, 10, None)]);
    assert leased.leases["op"].ActiveAt(0);
    assert HasActiveLease(leased, 1, 0) && !HasActiveLease(leased, 1, 10);
    assert IdemKey(OrganizerActor(10), AdvanceOp, "move") !in STARTED;
    hide HasActiveLease, ReadinessOf;
  }

  /** Only successes are remembered: an advance that failed under the lease succeeds when it is repeated, so its
      repetition cannot be deleted. */
  lemma FailedCallMayCommitLater()
    ensures var leased := Run(EMPTY, [START] + ([AcquireCall()] + []));
      && Apply(leased, Call(MOVE, 0)) == Outcome(leased, Failed(OperationInProgress))
      && Repeats(MOVE, MOVE)
      && Run(leased, [Call(MOVE, 0)] + ([Call(MOVE, 10)] + [])) != Run(leased, [Call(MOVE, 0)] + [])
  {
    hide Run, Apply, At, Commits;
    Starts();
    var db := Apply(EMPTY, START).db;
    MovingUnderLease(db);
    RunCons(EMPTY, START, [AcquireCall()] + []);
    RunCons(db, AcquireCall(), []);
    var leased := Apply(db, AcquireCall()).db;
    RunNothing(leased);
    RunCons(leased, Call(MOVE, 0), [Call(MOVE, 10)] + []);
    RunCons(leased, Call(MOVE, 0), []);
    RunCons(leased, Call(MOVE, 10), []);
    RunNothing(Apply(leased, Call(MOVE, 10)).db);
    VersionedBump(leased, Call(MOVE, 10));
  }

  // ---- A crash that no retry repairs -----------------------------------------------------------

  /** The member is invited and redeems. */
  const JOINING := [START] + ([InviteCall(1, "first", 100, 900)] + ([RedeemCall(900, "redeem", 200, 902)] + []))

  lemma Joined()
    ensures FreshRun(EMPTY, JOINING)
    ensures exists used ::
      && At(Run(EMPTY, JOINING), 2, map[100 := LiveRow(900).(status := Redeemed, redeemedSession := Some(200))],
            map[900 := 100], map[200 := OpenSession(902)], map[902 := 200], used)
      && AdvanceKey(11, "edit") !in used
  {
    hide Apply, At, Fresh, Run, FreshRun;
    var first, redeem := InviteCall(1, "first", 100, 900), RedeemCall(900, "redeem", 200, 902);
    Starts();
    var a := Apply(EMPTY, START).db;
    Inviting(a, 1, map[], map[], map[], map[], STARTED, "first", 100, 900);
    var b, usedB := Apply(a, first).db, STARTED + {IdemKey(OrganizerActor(10), InviteOp, "first")};
    Redeeming(b, 2, map[100 := LiveRow(900)], map[900 := 100], usedB, 900, "redeem", 200, 902);
    var taken := LiveRow(900).(status := Redeemed, redeemedSession := Some(200));
    assert map[100 := LiveRow(900)][100 := taken] == map[100 := taken];
    assert AdvanceKey(11, "edit") !in usedB + {IdemKey(Redeemer, RedeemOp, "redeem")};
    RunCons(b, redeem, []);
    RunCons(a, first, [redeem] + []);
    RunCons(EMPTY, START, [first] + ([redeem] + []));
    RunNothing(Apply(b, redeem).db);
  }

  /** The member's edit of revision 1, and a change the member proposes meanwhile. */
  const EDIT := Submission(902, 1, 2, "edit")
  const PROPOSE := Call(DoPropose(1, 11, 1, 2, ProposedChange(TripDraft.CityName, "city", 0, "reason"), 300), 0)

  lemma ProposingMeanwhile(db: Db, used: set<IdemKey>)
    requires At(db, 2, map[100 := LiveRow(900).(status := Redeemed, redeemedSession := Some(200))],
                map[900 := 100], map[200 := OpenSession(902)], map[902 := 200], used)
    requires AdvanceKey(11, "edit") !in used
    ensures Authenticate(db, 902, 0) == Ok(200)
    ensures !Completed(db, AdvanceKey(11, "edit")) && RecordsComplete(db)
    ensures db.sessions == map[1 := Session(10, 500, 7, 1, 2)] && !HasActiveLease(db, 1, 0)
    ensures var after := Apply(db, PROPOSE).db;
      && Fresh(db, PROPOSE.command)
      && after.sessions == map[1 := Session(10, 500, 7, 1, 3)] && after.idempotency == db.idempotency
      && Authenticate(after, 902, 1) == Ok(200)
  {
    assert !HasActiveLease(db, 1, 0);
    assert Commits(db, PROPOSE);
    ProposeBumps(db, PROPOSE);
    WritesOnlyFootprint(db, PROPOSE);
    hide Apply, RecordsComplete, HasActiveLease;
  }

  /** The draft service has made revision 2 of the member's edit when the submission is interrupted. A proposal moves the
      version, and from then on the retry is refused and changes nothing: the stored revision stays 1. */
  lemma CrashNotRepaired()
    ensures FreshRun(EMPTY, JOINING)
    ensures var db := Run(EMPTY, JOINING);
      var end := Run(db, [PROPOSE] + []);
      && Authenticate(db, EDIT.token, 0) == Ok(200) && Authenticate(end, EDIT.token, 1) == Ok(200)
      && SubmitAs(db, 1, 11, Some(Pair(1)), Revised(Pair(2)), EDIT, 0).result == Ok(Advanced(3))
      && SubmitAs(end, 1, 11, Some(Pair(2)), Revised(Pair(2)), EDIT, 1) == Submit(end, Err(Refused(VersionStale)))
      && 1 in end.sessions && end.sessions[1].currentRevision == 1
  {
    hide Run, FreshRun, Apply, At, Commits, SubmitAs, RecordsComplete, Authenticate, SubmitRefusal;
    Joined();
    var db := Run(EMPTY, JOINING);
    var used :| && At(db, 2, map[100 := LiveRow(900).(status := Redeemed, redeemedSession := Some(200))],
                      map[900 := 100], map[200 := OpenSession(902)], map[902 := 200], used)
                && AdvanceKey(11, "edit") !in used;
    ProposingMeanwhile(db, used);
    RunCons(db, PROPOSE, []);
    var end := Apply(db, PROPOSE).db;
    RunNothing(end);
    SubmitsIff(db, 1, 11, Pair(1), Pair(2), EDIT, 0);
    StepKeepsRecords(db, PROPOSE);
    SubmitsIff(end, 1, 11, Pair(2), Pair(2), EDIT, 1);
  }
}
