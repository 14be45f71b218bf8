/** Which drafts can ever be planned: exactly those without conflicts. */
module PlannableDrafts {
  import opened Prelude
  import opened Digests
  import opened HardConflicts
  import opened CollaborationStore
  import opened StoreFrames
  import opened TripViews
  import opened Readiness
  import opened Reconfirmation
  import opened ReadinessGuard
  import opened GuardFreeze
  import opened GuardProgress
  import opened ReachableReadiness
  import TripDraft

  // ---- Collecting confirmations --------------------------------------------------------------

  /** The draft service has just this revision, the trip is bootstrapped from it, and the first n members confirmed. */
  ghost predicate Collected(s: Sys, rev: Revision, n: nat) {
    && s.history == map[rev.tripId := [rev]]
    && s.guards == map[]
    && OnlyTrip(s.db, rev, n)
    && RowsCollected(s.db.members, rev, n)
    && KeysUsed(s.db.idempotency, rev, n)
  }

  ghost predicate OnlyTrip(db: Db, rev: Revision, n: nat) {
    && 1 in rev.bindings
    && rev.tripId in db.sessions
    && db.sessions[rev.tripId].organizer == rev.bindings[1]
    && db.sessions[rev.tripId].currentRevision == rev.revision
    && db.sessions[rev.tripId].version == n + 1
    && db.invitations == map[] && db.actorSessions == map[] && db.leases == map[] && db.proposals == map[]
  }

  ghost predicate RowsCollected(members: map<TripId, map<Pid, Member>>, rev: Revision, n: nat) {
    && rev.tripId in members
    && forall key :: key in rev.bindings ==>
         && rev.bindings[key] in members[rev.tripId]
         && (key <= n ==> members[rev.tripId][rev.bindings[key]].confirmation == Some(ConfirmationOf(rev, key)))
  }

  ghost predicate KeysUsed(idempotency: map<IdemKey, IdemRow>, rev: Revision, n: nat) {
    forall key :: key in rev.bindings && n < key ==> IdemKey(ParticipantActor(rev.bindings[key]), ConfirmOp, "") !in idempotency
  }

  lemma KeysAreBound(rev: Revision, key: nat)
    requires TripDraft.SequentialKeys(rev.understanding.participants)
    ensures key in rev.bindings <==> 1 <= key <= |rev.understanding.participants|
  {
    SequentialKeySet(rev.understanding.participants);
  }

  function BootstrapCall(rev: Revision, now: Time): Call {
    Call(DoBootstrap(rev, "", 0), now)
  }

  lemma BootstrapCollects(rev: Revision, now: Time)
    requires TripDraft.SequentialKeys(rev.understanding.participants)
    ensures var after := Apply(EMPTY, BootstrapCall(rev, now)).db;
      OnlyTrip(after, rev, 0) && RowsCollected(after.members, rev, 0) && KeysUsed(after.idempotency, rev, 0)
  {
    KeysAreBound(rev, 1);
    forall key | key in rev.bindings
      ensures rev.bindings[key] in BoundMembers(rev, |rev.understanding.participants|)
    {
      KeysAreBound(rev, key);
      BoundKeyHasRow(rev, key);
    }
    hide BoundMembers;
    assert Commits(EMPTY, BootstrapCall(rev, now));
    BootstrapWrites(EMPTY, BootstrapCall(rev, now));
  }

  /** From nothing to a bootstrapped trip. */
  lemma Bootstraps(clock: Time, rev: Revision, care: CarePort) returns (actions: seq<Action>, s: Sys)
    requires TripDraft.SequentialKeys(rev.understanding.participants)
    ensures Leads(Initial(clock), actions, s, care) && s.clock == clock && Collected(s, rev, 0)
  {
    var start := Initial(clock);
    var drafted := After(start, Submit(rev), care);
    LeadsOne(start, Submit(rev), care);
    var c := BootstrapCall(rev, clock);
    assert [] + [rev] == [rev];
    assert drafted.history == map[rev.tripId := [rev]];
    assert Enabled(drafted, Serve(c));
    hide Apply, OnlyTrip, RowsCollected, KeysUsed, EnabledRun, RunOf;
    BootstrapCollects(rev, clock);
    s := After(drafted, Serve(c), care);
    LeadsOne(drafted, Serve(c), care);
    actions := [Submit(rev)] + [Serve(c)];
    LeadsJoin(start, [Submit(rev)], drafted, [Serve(c)], s, care);
  }

  function ConfirmCall(rev: Revision, key: nat, now: Time): Call
    requires key in rev.bindings
  {
    Call(DoConfirm(rev.tripId, rev.bindings[key], ConfirmationOf(rev, key), key, ""), now)
  }

  lemma ConfirmCollects(db: Db, rev: Revision, n: nat, now: Time)
    requires OnlyTrip(db, rev, n) && RowsCollected(db.members, rev, n) && KeysUsed(db.idempotency, rev, n)
    requires n + 1 in rev.bindings
    ensures var after := Apply(db, ConfirmCall(rev, n + 1, now)).db;
      OnlyTrip(after, rev, n + 1) && RowsCollected(after.members, rev, n + 1) && KeysUsed(after.idempotency, rev, n + 1)
  {
    hide SourceOf, SharedOf, MemberOf;
    var p := rev.bindings[n + 1];
    forall key | key in rev.bindings && key != n + 1
      ensures rev.bindings[key] != p
    {
    }
  }

  lemma ConfirmStep(s: Sys, rev: Revision, n: nat, care: CarePort) returns (t: Sys)
    requires Collected(s, rev, n) && n + 1 in rev.bindings
    ensures Leads(s, [Serve(ConfirmCall(rev, n + 1, s.clock))], t, care)
    ensures t.clock == s.clock && Collected(t, rev, n + 1)
  {
    var c := ConfirmCall(rev, n + 1, s.clock);
    assert ConfirmedAt(c.command.confirmation, s.history[rev.tripId], 0, n + 1);
    assert Enabled(s, Serve(c));
    hide Apply, OnlyTrip, RowsCollected, KeysUsed, Leads, Enabled;
    ConfirmCollects(s.db, rev, n, s.clock);
    t := After(s, Serve(c), care);
    LeadsOne(s, Serve(c), care);
  }

  /** One member after the other confirms. */
  lemma {:induction false} EveryoneConfirms(s: Sys, rev: Revision, n: nat, care: CarePort) returns (actions: seq<Action>, t: Sys)
    requires TripDraft.SequentialKeys(rev.understanding.participants)
    requires n <= |rev.understanding.participants| && Collected(s, rev, n)
    ensures Leads(s, actions, t, care) && t.clock == s.clock && Collected(t, rev, |rev.understanding.participants|)
    decreases |rev.understanding.participants| - n
  {
    hide Collected;
    if n == |rev.understanding.participants| {
      actions, t := [], s;
    } else {
      hide Leads;
      KeysAreBound(rev, n + 1);
      var next := ConfirmStep(s, rev, n, care);
      var rest;
      rest, t := EveryoneConfirms(next, rev, n + 1, care);
      actions := [Serve(ConfirmCall(rev, n + 1, s.clock))] + rest;
      LeadsJoin(s, [Serve(ConfirmCall(rev, n + 1, s.clock))], next, rest, t, care);
    }
  }

  // ---- Planning ------------------------------------------------------------------------------

  lemma NobodyWithdrawn(rows: AccessRows, p: Pid, now: Time)
    requires rows.invitations == map[] && rows.sessions == map[]
    ensures StatusOf(rows, p, now) == NotInvited
  {
  }

  lemma CollectedAgrees(s: Sys, rev: Revision, now: Time)
    requires TripDraft.SequentialKeys(rev.understanding.participants)
    requires Collected(s, rev, |rev.understanding.participants|)
    ensures ViewOf(s.db, rev.tripId).session.Some?
    ensures var f := FactsAt(ViewOf(s.db, rev.tripId), rev, [], now);
      EveryoneAgrees(f) && SomeoneConfirmedExactly(f) && !HasPending(f.proposals)
  {
    var v := ViewOf(s.db, rev.tripId);
    assert v.access.invitations == map[] && v.access.sessions == map[];
    var f := FactsAt(v, rev, [], now);
    hide StatusOf, MemberOf, SharedOf;
    forall key | key in rev.bindings
      ensures Agrees(f, key) && ConfirmedExactly(f, key)
    {
      KeysAreBound(rev, key);
      NobodyWithdrawn(v.access, rev.bindings[key], now);
    }
    assert 1 in rev.bindings && ConfirmedExactly(f, 1);
  }

  /** A run in which a guard gets inside its operation with this revision, while its lease has not expired. */
  ghost predicate Plans(clock: Time, actions: seq<Action>, care: CarePort, rev: Revision) {
    && EnabledRun(Initial(clock), actions, care)
    && exists id :: PlansIn(RunOf(Initial(clock), actions, care), id, rev)
  }

  predicate PlansIn(s: Sys, id: nat, rev: Revision) {
    && id in s.guards && s.guards[id].pc.Inside? && s.clock < s.guards[id].pc.expires
    && s.guards[id].trip == rev.tripId && s.guards[id].pc.revision == rev
  }

  lemma OpenedGuardEnters(s: Sys, rev: Revision, care: CarePort) returns (actions: seq<Action>, t: Sys)
    requires TripDraft.SequentialKeys(rev.understanding.participants)
    requires Collected(s, rev, |rev.understanding.participants|)
    requires CanPlan(FactsAt(ViewOf(s.db, rev.tripId), rev, [], s.clock), care)
    ensures Leads(s, actions, t, care) && PlansIn(t, 0, rev)
  {
    hide CanPlan, StatusOf, SourceOf, SharedOf, MemberOf, EnabledRun, RunOf, ReadinessOf;
    var open := Open(0, rev.tripId, "", GenerateV1, 1);
    LeadsOne(s, open, care);
    var ready := After(s, open, care);
    assert ready.db == s.db && ready.clock == s.clock && Current(ready, rev.tripId) == Some(rev);
    assert AcquireRefusal(s.db, "", rev.tripId, GenerateV1, ReadinessOf(rev), s.clock).None?;
    var steps, expires := UndisturbedGuardEnters(ready, 0, care, [], rev);
    t := Put(WithLease(ready, "", Lease(rev.tripId, ReadinessOf(rev), GenerateV1, expires, None)), 0,
             Inside(expires, rev, ReadinessOf(rev), ViewOf(s.db, rev.tripId), []));
    actions := [open] + steps;
    LeadsJoin(s, [open], ready, steps, t, care);
  }

  /** Every revision without conflicts can be planned. */
  lemma ConflictFreePlans(clock: Time, rev: Revision, care: CarePort)
    requires TripDraft.SequentialKeys(rev.understanding.participants)
    requires 1 in rev.bindings && ConflictFree(rev, Some(rev.bindings[1]), care)
    ensures exists actions :: Plans(clock, actions, care, rev)
  {
    hide ConflictFree, CanPlan, EveryoneAgrees, SomeoneConfirmedExactly, HasPending, StatusOf, EnabledRun, RunOf, FactsAt, PlansIn;
    var a, s := Bootstraps(clock, rev, care);
    var b, t := EveryoneConfirms(s, rev, 0, care);
    LeadsJoin(Initial(clock), a, s, b, t, care);
    CollectedAgrees(t, rev, clock);
    CanPlanInEveryRun(clock, a + b, care, rev.tripId, rev, [], clock);
    var c, u := OpenedGuardEnters(t, rev, care);
    LeadsJoin(Initial(clock), a + b, t, c, u, care);
    assert Plans(clock, a + b + c, care, rev);
  }

  lemma PlanningNeedsNoConflicts(clock: Time, actions: seq<Action>, care: CarePort, id: nat, rev: Revision)
    requires TripDraft.SequentialKeys(rev.understanding.participants)
    requires EnabledRun(Initial(clock), actions, care) && PlansIn(RunOf(Initial(clock), actions, care), id, rev)
    ensures 1 in rev.bindings && ConflictFree(rev, Some(rev.bindings[1]), care)
  {
    KeysAreBound(rev, 1);
    hide EnabledRun, RunOf, StatusOf, AllConfirmed, SourceReady, HasPending, ViewOf, Evaluate, MustAvoidDisjoint, CareSettled, CapsRespected;
    InsideIsFrozen(clock, actions, care, id);
    var s := RunOf(Initial(clock), actions, care);
    var f := FactsAt(ViewOf(s.db, rev.tripId), rev, s.guards[id].pc.failed, clock);
    assert CanPlan(f, care);
    CanPlanParts(f, care);
    EvaluateEmptyIff(rev, Some(f.organizer), care);
  }

  /** Over all runs of all actors: some guard of the trip gets inside its operation with this revision, under a lease
      that has not expired, if and only if the revision has no conflicts. */
  lemma PlannableIff(clock: Time, care: CarePort, rev: Revision)
    requires TripDraft.SequentialKeys(rev.understanding.participants)
    ensures (exists actions :: Plans(clock, actions, care, rev)) <==>
            (1 in rev.bindings && ConflictFree(rev, Some(rev.bindings[1]), care))
  {
    hide ConflictFree, EnabledRun, RunOf, PlansIn;
    if exists actions :: Plans(clock, actions, care, rev) {
      var actions :| Plans(clock, actions, care, rev);
      var id :| PlansIn(RunOf(Initial(clock), actions, care), id, rev);
      PlanningNeedsNoConflicts(clock, actions, care, id, rev);
    }
    if 1 in rev.bindings && ConflictFree(rev, Some(rev.bindings[1]), care) {
      ConflictFreePlans(clock, rev, care);
    }
  }
}
