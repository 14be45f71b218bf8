/** Selective reconfirmation over whole runs: other actors may do anything in between but confirm for this trip. */
module ReconfirmationRuns {
  import opened Prelude
  import opened Digests
  import opened HardConflicts
  import opened CollaborationStore
  import opened StoreFrames
  import opened TripViews
  import opened Readiness
  import opened Reconfirmation
  import opened ReadinessGuard
  import opened GuardRevisions
  import opened GuardFreeze
  import opened GuardProgress
  import opened ReachableReadiness

  /** Nobody but this participant confirms for the trip. */
  predicate OnlyConfirms(actions: seq<Action>, trip: TripId, p: Pid) {
    forall i :: 0 <= i < |actions| ==> ConfirmsAs(actions[i], trip, p)
  }

  predicate ConfirmsAs(a: Action, trip: TripId, p: Pid) {
    a.Serve? && a.call.command.DoConfirm? && a.call.command.trip == trip ==> a.call.command.participant == p
  }

  predicate HasRow(db: Db, trip: TripId, q: Pid) {
    trip in db.sessions && trip in db.members && q in db.members[trip]
  }

  lemma CallKeepsRow(db: Db, c: Call, trip: TripId, p: Pid, q: Pid)
    requires HasRow(db, trip, q) && q != p
    requires c.command.DoConfirm? && c.command.trip == trip ==> c.command.participant == p
    ensures HasRow(Apply(db, c).db, trip, q) && Apply(db, c).db.members[trip][q] == db.members[trip][q]
  {
    hide Apply, Commits, BoundMembers;
    StepKeepsOwners(db, c);
    if !Commits(db, c) {
      OnlyCommitsWrite(db, c);
    } else if c.command.DoBootstrap? {
      BootstrapAdds(db, c);
      BootstrapWrites(db, c);
    } else if c.command.DoConfirm? && c.command.trip == trip {
      ConfirmWrites(db, c);
    } else if c.command.DoConfirm? {
      ConfirmWritesElsewhere(db, c, trip);
    } else {
      OtherCallsKeepRows(db, c);
    }
  }

  lemma StepKeepsRow(s: Sys, a: Action, care: CarePort, trip: TripId, p: Pid, q: Pid)
    requires Enabled(s, a) && HasRow(s.db, trip, q) && q != p && ConfirmsAs(a, trip, p)
    ensures var t := After(s, a, care);
      HasRow(t.db, trip, q) && t.db.members[trip][q] == s.db.members[trip][q]
  {
    hide Apply, GuardsAfter, HistoryAfter, FromService, HasRow;
    var c := StoreCallOf(s, a);
    if c.Some? {
      CallKeepsRow(s.db, c.value, trip, p, q);
    }
  }

  /** The others' rows stay through the whole run. */
  lemma {:induction false} RunKeepsRow(s: Sys, actions: seq<Action>, care: CarePort, trip: TripId, p: Pid, q: Pid)
    requires EnabledRun(s, actions, care) && HasRow(s.db, trip, q) && q != p && OnlyConfirms(actions, trip, p)
    ensures var t := RunOf(s, actions, care);
      HasRow(t.db, trip, q) && t.db.members[trip][q] == s.db.members[trip][q]
    decreases |actions|
  {
    hide Enabled, After, HasRow, ConfirmsAs;
    if actions != [] {
      StepKeepsRow(s, actions[0], care, trip, p, q);
      RunKeepsRow(After(s, actions[0], care), actions[1..], care, trip, p, q);
    }
  }

  /** Everybody still agrees after the edit, if the others' rows are as they were and the member confirmed the edit. */
  lemma StillAgree(f: Facts, g: Facts, key: nat)
    requires EveryoneAgrees(f) && OwnEdit(f.rev, g.rev, key)
    requires var p := f.rev.bindings[key];
      && p in g.members && g.members[p].confirmation == Some(ConfirmationOf(g.rev, key))
      && forall k :: k in f.rev.bindings && k != key ==>
           f.rev.bindings[k] in f.members && f.rev.bindings[k] in g.members
           && g.members[f.rev.bindings[k]] == f.members[f.rev.bindings[k]]
    requires forall k :: k in g.rev.bindings ==> !RelevantFailure(g.failed, g.rev.bindings[k]) && !Withdrawn(g, g.rev.bindings[k])
    ensures EveryoneAgrees(g) && SomeoneConfirmedExactly(g)
  {
    hide MemberOf;
    assert SharedOf(f.rev) == SharedOf(g.rev);
    forall k | k in g.rev.bindings
      ensures Agrees(g, k)
    {
      assert Agrees(f, k);
    }
    assert ConfirmedExactly(g, key);
  }

  /** In every run: once a trip may plan with a revision, and later - whatever anybody did in between, except that no other
      member confirmed - the store is at a member's own edit, the member has confirmed it, and there is no issue, failed
      attempt, pending proposal or withdrawn member, the trip may plan with the edit. Nobody else had to confirm. */
  lemma ReconfirmationInEveryRun(
    clock: Time, before: seq<Action>, s: Sys, between: seq<Action>, t: Sys, care: CarePort, trip: TripId, rev: Revision,
    next: Revision, key: nat, failed: seq<Attempt>, failedLater: seq<Attempt>, now: Time, later: Time)
    requires Leads(Initial(clock), before, s, care) && Leads(s, between, t, care)
    requires trip in s.db.sessions && Had(s, trip, rev) && CanPlan(FactsAt(ViewOf(s.db, trip), rev, failed, now), care)
    requires OwnEdit(rev, next, key) && OnlyConfirms(between, trip, rev.bindings[key])
    requires Had(t, trip, next) && trip in t.db.sessions && t.db.sessions[trip].currentRevision == next.revision
    requires HasRow(t.db, trip, rev.bindings[key])
    requires t.db.members[trip][rev.bindings[key]].confirmation == Some(ConfirmationOf(next, key))
    requires var g := FactsAt(ViewOf(t.db, trip), next, failedLater, later);
      && ConflictFree(next, Some(g.organizer), care) && !HasPending(g.proposals)
      && forall k :: k in next.bindings ==> !RelevantFailure(g.failed, next.bindings[k]) && !Withdrawn(g, next.bindings[k])
    ensures CanPlan(FactsAt(ViewOf(t.db, trip), next, failedLater, later), care)
    ensures forall k :: k in rev.bindings && k != key ==>
      && HasRow(s.db, trip, rev.bindings[k]) && HasRow(t.db, trip, rev.bindings[k])
      && t.db.members[trip][rev.bindings[k]] == s.db.members[trip][rev.bindings[k]]
  {
    hide EnabledRun, RunOf, ConflictFree, CanPlan, StatusOf, HasPending, RelevantFailure, Withdrawn, MemberOf, SharedOf,
         OnlyConfirms, Had, InvitationsOf, SessionsOf;
    var f, g := FactsAt(ViewOf(s.db, trip), rev, failed, now), FactsAt(ViewOf(t.db, trip), next, failedLater, later);
    CanPlanInEveryRun(clock, before, care, trip, rev, failed, now);
    forall k | k in rev.bindings && k != key
      ensures HasRow(s.db, trip, rev.bindings[k]) && HasRow(t.db, trip, rev.bindings[k])
      ensures t.db.members[trip][rev.bindings[k]] == s.db.members[trip][rev.bindings[k]]
    {
      assert Agrees(f, k);
      assert HasRow(s.db, trip, rev.bindings[k]);
      assert rev.bindings[k] != rev.bindings[key];
      RunKeepsRow(s, between, care, trip, rev.bindings[key], rev.bindings[k]);
    }
    StillAgree(f, g, key);
    LeadsJoin(Initial(clock), before, s, between, t, care);
    CanPlanInEveryRun(clock, before + between, care, trip, next, failedLater, later);
  }
}
