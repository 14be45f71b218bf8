/** Every guard that got a permit holds its lease, uncompleted and with its own expiry, until it completes it. */
module GuardLeases {
  import opened Prelude
  import opened HardConflicts
  import opened CollaborationStore
  import opened StoreFrames
  import opened AccessLaws
  import opened LeaseLaws
  import opened ReadinessGuard

  predicate Holding(pc: Pc) {
    pc.Rechecking? || pc.Inside? || pc.Closing?
  }

  ghost predicate LeaseHeld(db: Db, g: Guard)
    requires Holding(g.pc)
  {
    && g.op in db.leases
    && db.leases[g.op].trip == g.trip
    && db.leases[g.op].completedAt.None?
    && db.leases[g.op].expiresAt == g.pc.expires
  }

  ghost predicate HoldersKeepLeases(db: Db, guards: map<nat, Guard>) {
    forall id :: id in guards && Holding(guards[id].pc) ==> LeaseHeld(db, guards[id])
  }

  ghost predicate HoldersDiffer(guards: map<nat, Guard>) {
    forall id, jd :: id in guards && jd in guards && id != jd && Holding(guards[id].pc) && Holding(guards[jd].pc)
      ==> guards[id].op != guards[jd].op
  }

  ghost predicate LeaseInv(s: Sys) {
    && AccessInv(s.db)
    && ExclusiveFrom(s.db, s.clock)
    && HoldersKeepLeases(s.db, s.guards)
    && HoldersDiffer(s.guards)
  }

  /** While its lease has not expired, a holder's trip has an active lease. */
  lemma HolderBlocksTrip(s: Sys, id: nat, now: Time)
    requires LeaseInv(s) && id in s.guards && Holding(s.guards[id].pc)
    requires now <= s.clock < s.guards[id].pc.expires
    ensures HasActiveLease(s.db, s.guards[id].trip, now)
  {
    var g := s.guards[id];
    assert LeaseHeld(s.db, g);
    assert g.op in s.db.leases && s.db.leases[g.op].trip == g.trip && s.db.leases[g.op].ActiveAt(now);
  }

  // ---- Preservation ------------------------------------------------------------------------

  lemma DbStep(s: Sys, a: Action, care: CarePort)
    requires LeaseInv(s) && Enabled(s, a)
    ensures AccessInv(DbAfter(s, a)) && ExclusiveFrom(DbAfter(s, a), After(s, a, care).clock)
  {
    hide Apply, AccessInv, Commits;
    var c := StoreCallOf(s, a);
    if c.Some? {
      StepPreservesAccess(s.db, c.value);
      StepKeepsExclusion(s.db, c.value, s.clock, s.clock);
    }
  }

  lemma ServeKeepsHolders(s: Sys, a: Action, care: CarePort)
    requires LeaseInv(s) && Enabled(s, a) && a.Serve?
    ensures HoldersKeepLeases(DbAfter(s, a), GuardsAfter(s, a, care)) && HoldersDiffer(GuardsAfter(s, a, care))
  {
    hide Apply, AccessInv, Commits;
    WritesOnlyFootprint(s.db, a.call);
  }

  lemma AcquireKeepsHolders(s: Sys, a: Action, care: CarePort)
    requires LeaseInv(s) && Enabled(s, a) && a.Step? && s.guards[a.id].pc.Acquiring?
    ensures HoldersKeepLeases(DbAfter(s, a), GuardsAfter(s, a, care)) && HoldersDiffer(GuardsAfter(s, a, care))
  {
    hide Apply, AccessInv, Commits;
    var g := s.guards[a.id];
    var c := GuardCall(g, a.input).value;
    AcquireShape(s.db, c);
    if !Commits(s.db, c) {
      OnlyCommitsWrite(s.db, c);
    }
    var after := GuardsAfter(s, a, care);
    forall jd | jd in after && Holding(after[jd].pc)
      ensures LeaseHeld(DbAfter(s, a), after[jd])
      ensures jd != a.id && Commits(s.db, c) ==> after[jd].op != g.op
    {
      if jd != a.id {
        assert LeaseHeld(s.db, s.guards[jd]);
      }
    }
  }

  lemma CloseKeepsHolders(s: Sys, a: Action, care: CarePort)
    requires LeaseInv(s) && Enabled(s, a) && a.Step? && s.guards[a.id].pc.Closing?
    ensures HoldersKeepLeases(DbAfter(s, a), GuardsAfter(s, a, care)) && HoldersDiffer(GuardsAfter(s, a, care))
  {
    hide Apply, AccessInv, Commits;
    var g := s.guards[a.id];
    CompleteShape(s.db, GuardCall(g, a.input).value);
    var after := GuardsAfter(s, a, care);
    forall jd | jd in after && Holding(after[jd].pc)
      ensures LeaseHeld(DbAfter(s, a), after[jd])
    {
      assert LeaseHeld(s.db, s.guards[jd]);
    }
  }

  lemma QuietStepKeepsHolders(s: Sys, a: Action, care: CarePort)
    requires LeaseInv(s) && Enabled(s, a) && StoreCallOf(s, a).None?
    ensures HoldersKeepLeases(DbAfter(s, a), GuardsAfter(s, a, care)) && HoldersDiffer(GuardsAfter(s, a, care))
  {
    hide AccessInv, PhaseStep;
    var after := GuardsAfter(s, a, care);
    forall jd | jd in after && Holding(after[jd].pc)
      ensures jd in s.guards && Holding(s.guards[jd].pc)
      ensures after[jd].op == s.guards[jd].op && after[jd].trip == s.guards[jd].trip && after[jd].pc.expires == s.guards[jd].pc.expires
    {
    }
    forall jd | jd in after && Holding(after[jd].pc)
      ensures LeaseHeld(s.db, after[jd])
    {
      assert LeaseHeld(s.db, s.guards[jd]);
    }
  }

  lemma StepKeepsLeaseInv(s: Sys, a: Action, care: CarePort)
    requires LeaseInv(s) && Enabled(s, a)
    ensures LeaseInv(After(s, a, care))
  {
    hide Apply, AccessInv, ExclusiveFrom, HoldersKeepLeases, HoldersDiffer, NextPc;
    DbStep(s, a, care);
    if a.Serve? {
      ServeKeepsHolders(s, a, care);
    } else if StoreCallOf(s, a).None? {
      QuietStepKeepsHolders(s, a, care);
    } else if s.guards[a.id].pc.Acquiring? {
      AcquireKeepsHolders(s, a, care);
    } else {
      CloseKeepsHolders(s, a, care);
    }
  }

  /** At every instant at most one guard of a trip is past acquiring with a lease that has not expired. */
  lemma HoldersExclusive(s: Sys, id: nat, jd: nat)
    requires LeaseInv(s) && id in s.guards && jd in s.guards && id != jd
    requires Holding(s.guards[id].pc) && Holding(s.guards[jd].pc)
    requires s.guards[id].trip == s.guards[jd].trip
    ensures s.guards[id].pc.expires <= s.clock || s.guards[jd].pc.expires <= s.clock
  {
    var g, h := s.guards[id], s.guards[jd];
    assert LeaseHeld(s.db, g) && LeaseHeld(s.db, h);
    assert g.op != h.op;
    assert !(s.db.leases[g.op].ActiveAt(s.clock) && s.db.leases[h.op].ActiveAt(s.clock));
  }
}
