/** What the guard's `finally` is for: a lease that is not completed belongs to a guard that is still to complete it, so
    no lease outlives the guard it was granted to. At the end, which evaluations a guard needs before its lease and under
    it. */
module GuardReturns {
  import opened Prelude
  import opened CollaborationStore
  import opened StoreFrames
  import opened LeaseLaws
  import opened TripViews
  import opened Digests
  import opened Readiness
  import opened ReadinessGuard
  import opened GuardLeases
  import opened GuardFreeze
  import HardConflicts

  predicate HasLease(guards: map<nat, Guard>, id: nat, op: string, lease: Lease) {
    && id in guards && (guards[id].pc.Rechecking? || guards[id].pc.Inside? || guards[id].pc.Closing?)
    && guards[id].op == op && guards[id].trip == lease.trip
    && guards[id].pc.expires == lease.expiresAt
  }

  /** Some guard between its permit and its completion has this very lease. */
  ghost predicate Owned(db: Db, guards: map<nat, Guard>, op: string)
    requires op in db.leases
  {
    exists id :: HasLease(guards, id, op, db.leases[op])
  }

  ghost predicate LeasesOwned(db: Db, guards: map<nat, Guard>) {
    forall op :: op in db.leases && db.leases[op].completedAt.None? ==> Owned(db, guards, op)
  }

  lemma ServeKeepsOwned(s: Sys, a: Action, care: HardConflicts.CarePort)
    requires LeasesOwned(s.db, s.guards) && Enabled(s, a) && a.Serve?
    ensures LeasesOwned(DbAfter(s, a), GuardsAfter(s, a, care))
  {
    hide Apply, Commits;
    WritesOnlyFootprint(s.db, a.call);
    forall op | op in s.db.leases && s.db.leases[op].completedAt.None?
      ensures Owned(DbAfter(s, a), s.guards, op)
    {
      assert Owned(s.db, s.guards, op);
    }
  }

  lemma AcquireKeepsOwned(s: Sys, a: Action, care: HardConflicts.CarePort)
    requires LeasesOwned(s.db, s.guards) && Enabled(s, a) && a.Step? && s.guards[a.id].pc.Acquiring?
    ensures LeasesOwned(DbAfter(s, a), GuardsAfter(s, a, care))
  {
    hide Apply, Commits;
    var g := s.guards[a.id];
    var c := GuardCall(g, a.input).value;
    AcquireShape(s.db, c);
    if !Commits(s.db, c) {
      OnlyCommitsWrite(s.db, c);
    }
    var db, after := DbAfter(s, a), GuardsAfter(s, a, care);
    forall op | op in db.leases && db.leases[op].completedAt.None?
      ensures Owned(db, after, op)
    {
      if Commits(s.db, c) && op == g.op {
        assert HasLease(after, a.id, op, db.leases[op]);
      } else {
        OwnerStays(s, a, care, op);
      }
    }
  }

  /** A lease that the step does not touch keeps its owner, unless the owner is the guard that steps. */
  lemma OwnerStays(s: Sys, a: Action, care: HardConflicts.CarePort, op: string)
    requires Enabled(s, a) && a.Step? && op in s.db.leases && Owned(s.db, s.guards, op)
    requires op in DbAfter(s, a).leases && DbAfter(s, a).leases[op] == s.db.leases[op]
    requires s.guards[a.id].op == op ==> !Holding(s.guards[a.id].pc)
    ensures Owned(DbAfter(s, a), GuardsAfter(s, a, care), op)
  {
    hide DbAfter, NextPc, Enabled;
    var id :| HasLease(s.guards, id, op, s.db.leases[op]);
    assert HasLease(GuardsAfter(s, a, care), id, op, s.db.leases[op]);
  }

  lemma CloseKeepsOwned(s: Sys, a: Action, care: HardConflicts.CarePort)
    requires LeaseInv(s) && LeasesOwned(s.db, s.guards) && Enabled(s, a) && a.Step? && s.guards[a.id].pc.Closing?
    ensures LeasesOwned(DbAfter(s, a), GuardsAfter(s, a, care))
  {
    hide Apply, Commits;
    var g := s.guards[a.id];
    assert LeaseHeld(s.db, g);
    CompleteShape(s.db, GuardCall(g, a.input).value);
    var db := DbAfter(s, a);
    forall op | op in db.leases && db.leases[op].completedAt.None?
      ensures Owned(db, GuardsAfter(s, a, care), op)
    {
      assert op != g.op;
      OwnerStays(s, a, care, op);
    }
  }

  lemma HolderGoesOn(s: Sys, g: Guard, input: Input, care: HardConflicts.CarePort)
    requires g.pc.Rechecking? || g.pc.Inside?
    ensures var next := NextPc(s, g, input, care);
      (next.Rechecking? || next.Inside? || next.Closing?) && next.expires == g.pc.expires
  {
    hide PhaseStep, ViewOf;
  }

  lemma QuietStepKeepsOwned(s: Sys, a: Action, care: HardConflicts.CarePort)
    requires LeasesOwned(s.db, s.guards) && Enabled(s, a) && StoreCallOf(s, a).None?
    ensures LeasesOwned(DbAfter(s, a), GuardsAfter(s, a, care))
  {
    hide NextPc;
    var after := GuardsAfter(s, a, care);
    forall op | op in s.db.leases && s.db.leases[op].completedAt.None?
      ensures Owned(s.db, after, op)
    {
      assert Owned(s.db, s.guards, op);
      var id :| HasLease(s.guards, id, op, s.db.leases[op]);
      if a.Step? && a.id == id {
        HolderGoesOn(s, s.guards[id], a.input, care);
      }
      assert HasLease(after, id, op, s.db.leases[op]);
    }
  }

  lemma StepKeepsOwned(s: Sys, a: Action, care: HardConflicts.CarePort)
    requires LeaseInv(s) && LeasesOwned(s.db, s.guards) && Enabled(s, a)
    ensures LeasesOwned(After(s, a, care).db, After(s, a, care).guards)
  {
    hide Apply, LeaseInv, LeasesOwned, NextPc;
    if a.Serve? {
      ServeKeepsOwned(s, a, care);
    } else if StoreCallOf(s, a).None? {
      QuietStepKeepsOwned(s, a, care);
    } else if s.guards[a.id].pc.Acquiring? {
      AcquireKeepsOwned(s, a, care);
    } else {
      CloseKeepsOwned(s, a, care);
    }
  }

  lemma {:induction false} RunKeepsOwned(s: Sys, actions: seq<Action>, care: HardConflicts.CarePort)
    requires LeaseInv(s) && LeasesOwned(s.db, s.guards) && EnabledRun(s, actions, care)
    ensures LeasesOwned(RunOf(s, actions, care).db, RunOf(s, actions, care).guards)
    decreases |actions|
  {
    hide LeaseInv, LeasesOwned, Enabled, After;
    if actions != [] {
      StepKeepsLeaseInv(s, actions[0], care);
      StepKeepsOwned(s, actions[0], care);
      RunKeepsOwned(After(s, actions[0], care), actions[1..], care);
    }
  }

  /** In every state of every run, a lease that is not completed is held by a guard of its trip, under the same operation
      id and expiry, that has not closed yet. */
  lemma EveryLeaseIsHeld(clock: Time, actions: seq<Action>, care: HardConflicts.CarePort, op: string) returns (id: nat)
    requires EnabledRun(Initial(clock), actions, care)
    requires var db := RunOf(Initial(clock), actions, care).db; op in db.leases && db.leases[op].completedAt.None?
    ensures var s := RunOf(Initial(clock), actions, care);
      && id in s.guards && (s.guards[id].pc.Rechecking? || s.guards[id].pc.Inside? || s.guards[id].pc.Closing?)
      && s.guards[id].op == op && s.guards[id].trip == s.db.leases[op].trip
      && s.guards[id].pc.expires == s.db.leases[op].expiresAt
  {
    hide Enabled, After, LeaseInv, EnabledRun, RunOf;
    InitiallyOwned(clock);
    RunKeepsOwned(Initial(clock), actions, care);
    var s := RunOf(Initial(clock), actions, care);
    assert Owned(s.db, s.guards, op);
    id :| HasLease(s.guards, id, op, s.db.leases[op]);
  }

  lemma InitiallyOwned(clock: Time)
    ensures LeaseInv(Initial(clock)) && LeasesOwned(Initial(clock).db, Initial(clock).guards)
  {
  }

  /** Once no guard of a trip is between its permit and its completion, no lease blocks the trip at any time of day. */
  lemma NoLeaseIsLeftBehind(clock: Time, actions: seq<Action>, care: HardConflicts.CarePort, trip: TripId, t: Time)
    requires EnabledRun(Initial(clock), actions, care)
    requires var s := RunOf(Initial(clock), actions, care);
      forall id :: id in s.guards && s.guards[id].trip == trip ==>
        s.guards[id].pc.Checking? || s.guards[id].pc.Acquiring? || s.guards[id].pc.Over?
    ensures forall op :: op in RunOf(Initial(clock), actions, care).db.leases ==>
      var lease := RunOf(Initial(clock), actions, care).db.leases[op]; lease.trip == trip ==> lease.completedAt.Some?
    ensures !HasActiveLease(RunOf(Initial(clock), actions, care).db, trip, t)
  {
    hide EnabledRun, RunOf, Initial;
    var db := RunOf(Initial(clock), actions, care).db;
    forall op | op in db.leases && db.leases[op].trip == trip
      ensures db.leases[op].completedAt.Some?
    {
      if db.leases[op].completedAt.None? {
        var id := EveryLeaseIsHeld(clock, actions, care, op);
      }
    }
  }

  // ---- Two evaluations before the lease, two under it ----------------------------------------------

  /** The evaluation that ends here read everything and allowed planning. */
  ghost predicate Allowed(seen: Reads, care: HardConflicts.CarePort) {
    Complete(seen) && CanPlan(FactsRead(seen), care)
  }

  /** A guard comes to acquiring only from a second evaluation that allowed planning, with the revision it had read in
      between and the digest of the revision that was evaluated; and to a second evaluation only from a first that did. */
  lemma AcquiresAfterChecks(s: Sys, g: Guard, input: Input, care: HardConflicts.CarePort)
    ensures var next := NextPc(s, g, input, care);
      && (next.Acquiring? ==>
            && g.pc.Checking? && g.pc.phase.Second? && Allowed(g.pc.phase.seen, care)
            && next.revision == g.pc.phase.revision && next.digest == ReadinessOf(g.pc.phase.seen.rev.value))
      && (next.Checking? && next.phase.Reread? ==> g.pc.Checking? && g.pc.phase.First? && Allowed(g.pc.phase.seen, care))
      && (next.Checking? && next.phase.Second? && next.phase.seen == NOTHING_READ ==>
            g.pc.Checking? && (g.pc.phase.Reread? ==> Some(next.phase.revision) == Current(s, g.trip)))
  {
    hide CanPlan, FactsRead, ReadinessOf, Apply;
  }

  /** A guard is let in only from the second evaluation under its lease, if that allowed planning, and only with the digest
      and the revision number it had before. */
  lemma EntersAfterChecks(s: Sys, g: Guard, input: Input, care: HardConflicts.CarePort)
    ensures var next := NextPc(s, g, input, care);
      && (next.Inside? ==>
            && g.pc.Rechecking? && g.pc.phase.Second? && Allowed(g.pc.phase.seen, care)
            && next.expires == g.pc.expires && next.revision == g.pc.phase.revision
            && next.digest == ReadinessOf(g.pc.phase.seen.rev.value) && next.digest == g.pc.digest
            && next.revision.revision == g.pc.revision.revision && next.failed == g.pc.phase.seen.failed.value)
      && (next.Rechecking? && next.phase.Reread? ==> g.pc.Rechecking? && g.pc.phase.First? && Allowed(g.pc.phase.seen, care))
      && (next.Rechecking? && g.pc.Rechecking? && g.pc.phase.Reread? ==>
            next.phase.Second? && Some(next.phase.revision) == Current(s, g.trip))
  {
    hide CanPlan, FactsRead, ReadinessOf, Apply;
  }
}
