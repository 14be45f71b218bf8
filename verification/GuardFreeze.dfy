/** The freeze: from the leased re-check until the lease completes or expires, nothing about the trip changes, and the
    trip stays ready for exactly the revision on the permit. */
module GuardFreeze {
  import opened Prelude
  import opened Digests
  import opened HardConflicts
  import opened CollaborationStore
  import opened StoreFrames
  import opened AccessLaws
  import opened TripViews
  import opened Readiness
  import opened Reconfirmation
  import opened ReadinessGuard
  import opened GuardLeases
  import opened GuardRevisions

  // ---- What leased reads say about the present -----------------------------------------------

  ghost predicate AccessMatches(rows: AccessRows, access: map<Pid, Access>) {
    forall p, t :: p in access ==> (access[p] == AccessWithdrawn <==> StatusOf(rows, p, t) == AccessWithdrawn)
  }

  /** The reads are still true of the view, as far as planning depends on them; of the proposals, that none was
      pending is still true. */
  ghost predicate ReadsMatch(v: View, r: Reads) {
    && (r.session.Some? ==>
          && v.session.Some?
          && v.session.value.organizer == r.session.value.organizer
          && v.session.value.currentRevision == r.session.value.currentRevision)
    && (r.members.Some? ==> r.members.value == v.members)
    && (r.proposals.Some? && !HasPending(r.proposals.value) ==> NothingPending(v))
    && AccessMatches(v.access, r.access)
    && (forall p :: p in r.sessionless ==> LatestSessionOf(v.access, p).None?)
  }

  ghost predicate PhaseMatches(v: View, phase: Phase) {
    match phase
    case First(r) => ReadsMatch(v, r)
    case Reread => NothingPending(v)
    case Second(_, r) => NothingPending(v) && ReadsMatch(v, r)
  }

  /** The trip may plan with this revision, at any time of day. */
  ghost predicate PlansAlways(v: View, rev: Revision, failed: seq<Attempt>, care: CarePort) {
    && v.session.Some?
    && forall t :: CanPlan(FactsAt(v, rev, failed, t), care)
  }

  ghost predicate Frozen(s: Sys, g: Guard, care: CarePort) {
    match g.pc
    case Rechecking(expires, _, _, phase) => s.clock < expires ==> PhaseMatches(ViewOf(s.db, g.trip), phase)
    case Inside(expires, rev, _, view, failed) =>
      s.clock < expires ==>
        ViewOf(s.db, g.trip) == view && NothingPending(view) && PlansAlways(view, rev, failed, care)
    case _ => true
  }

  ghost predicate FreezeInv(s: Sys, care: CarePort) {
    forall id :: id in s.guards ==> Frozen(s, s.guards[id], care)
  }

  // ---- Evaluations -------------------------------------------------------------------------

  lemma WithdrawnAgrees(v: View, r: Reads, t: Time, key: nat)
    requires Complete(r) && ReadsMatch(v, r) && key in r.rev.value.bindings && r.rev.value.bindings[key] in v.members
    ensures v.session.Some?
    ensures Withdrawn(FactsRead(r), r.rev.value.bindings[key]) <==>
            Withdrawn(FactsAt(v, r.rev.value, r.failed.value, t), r.rev.value.bindings[key])
  {
    hide HasPending, NothingPending, StatusOf;
  }

  lemma StatusAgrees(v: View, r: Reads, t: Time, key: nat, issues: seq<Issue>)
    requires Complete(r) && ReadsMatch(v, r) && key in r.rev.value.bindings
    ensures v.session.Some?
    ensures StatusOfMember(FactsRead(r), issues, key) == StatusOfMember(FactsAt(v, r.rev.value, r.failed.value, t), issues, key)
  {
    hide HasPending, NothingPending, StatusOf, Withdrawn, MemberOf, SharedOf, RelevantFailure, RelevantIssue, Complete;
    assert StoredRead(r) by { FromComplete(r); }
    if r.rev.value.bindings[key] in v.members {
      WithdrawnAgrees(v, r, t, key);
    }
  }

  lemma FromComplete(r: Reads)
    requires Complete(r)
    ensures StoredRead(r)
  {
  }

  /** An evaluation whose reads still hold is an evaluation of the present view. */
  lemma EvaluationHolds(v: View, r: Reads, care: CarePort)
    requires Complete(r) && ReadsMatch(v, r) && CanPlan(FactsRead(r), care)
    ensures NothingPending(v) && PlansAlways(v, r.rev.value, r.failed.value, care)
  {
    hide StatusOf, StatusOfMember, Evaluate, SourceReady, HasPending, NothingPending, Complete;
    FromComplete(r);
    var f := FactsRead(r);
    NothingPendingMeans(v);
    forall t
      ensures CanPlan(FactsAt(v, r.rev.value, r.failed.value, t), care)
    {
      var g := FactsAt(v, r.rev.value, r.failed.value, t);
      var issues := IssuesOf(f, care);
      forall key | key in g.rev.bindings
        ensures StatusOfMember(g, issues, key) == Confirmed
      {
        StatusAgrees(v, r, t, key, issues);
      }
    }
  }

  lemma NothingPendingMeans(v: View)
    ensures NothingPending(v) <==> !HasPending(v.proposals)
  {
  }

  // ---- Reads under the lease -----------------------------------------------------------------

  lemma ReadMatches(s: Sys, trip: TripId, r: Reads, input: Input)
    requires ReadsMatch(ViewOf(s.db, trip), r)
    ensures var next := ReadNext(s, trip, r, input);
      next.Some? ==> ReadsMatch(ViewOf(s.db, trip), next.value)
  {
    if StoredRead(r) {
      AccessReadKeeps(s, trip, r, input);
    } else {
      TableReadKeeps(s, trip, r, input);
    }
    hide ReadsMatch, ReadNext, ViewOf;
  }

  lemma TableReadKeeps(s: Sys, trip: TripId, r: Reads, input: Input)
    requires ReadsMatch(ViewOf(s.db, trip), r) && !StoredRead(r)
    ensures var next := ReadNext(s, trip, r, input);
      next.Some? ==> ReadsMatch(ViewOf(s.db, trip), next.value)
  {
    hide ViewOf, NothingPending, HasPending, Current, AccessMatches, LatestSessionOf, LatestInvitationOf;
    NothingPendingMeans(ViewOf(s.db, trip));
  }

  lemma AccessReadKeeps(s: Sys, trip: TripId, r: Reads, input: Input)
    requires ReadsMatch(ViewOf(s.db, trip), r) && StoredRead(r)
    ensures var next := ReadNext(s, trip, r, input);
      next.Some? && ReadsMatch(ViewOf(s.db, trip), next.value)
  {
    hide ViewOf, NothingPending, HasPending, Current, AccessMatches, LatestSessionOf, LatestInvitationOf, StatusBySession,
         StatusByInvitation;
    AccessReadMatches(ViewOf(s.db, trip).access, r, input);
  }

  /** Either select of a member's status says what the status is as a whole, as far as withdrawal goes. */
  lemma AccessReadMatches(rows: AccessRows, r: Reads, input: Input)
    requires AccessMatches(rows, r.access) && forall p :: p in r.sessionless ==> LatestSessionOf(rows, p).None?
    ensures var p := input.member;
      && (p in r.sessionless ==> AccessMatches(rows, r.access[p := StatusByInvitation(LatestInvitationOf(rows, p), input.now)]))
      && (LatestSessionOf(rows, p).Some? ==>
            AccessMatches(rows, r.access[p := StatusBySession(LatestSessionOf(rows, p).value, input.now)]))
  {
    hide LatestSessionOf, LatestInvitationOf;
    forall t: Time
      ensures StatusOf(rows, input.member, t) == AccessWithdrawn <==> StatusOf(rows, input.member, input.now) == AccessWithdrawn
    {
      WithdrawnIsTimeless(rows, input.member, input.now, t);
    }
  }

  lemma PhaseStepMatches(s: Sys, trip: TripId, phase: Phase, input: Input, care: CarePort)
    requires PhaseMatches(ViewOf(s.db, trip), phase)
    ensures var result := PhaseStep(s, trip, phase, input, care);
      && (result.Going? ==> PhaseMatches(ViewOf(s.db, trip), result.phase))
      && (result.Ready? ==>
            && phase.Second? && Complete(phase.seen) && result.digest == ReadinessOf(phase.seen.rev.value)
            && NothingPending(ViewOf(s.db, trip))
            && PlansAlways(ViewOf(s.db, trip), phase.seen.rev.value, result.failed, care))
  {
    hide ReadsMatch, ViewOf, ReadNext, Complete, NothingPending, CanPlan, FactsRead, PlansAlways, Current, ReadinessOf;
    match phase
    case First(r) =>
      if Complete(r) {
        FromComplete(r);
        if CanPlan(FactsRead(r), care) {
          EvaluationHolds(ViewOf(s.db, trip), r, care);
        }
      } else {
        ReadMatches(s, trip, r, input);
      }
    case Reread =>
      NothingReadMatches(ViewOf(s.db, trip));
    case Second(_, r) =>
      if Complete(r) {
        FromComplete(r);
        if CanPlan(FactsRead(r), care) {
          EvaluationHolds(ViewOf(s.db, trip), r, care);
        }
      } else {
        ReadMatches(s, trip, r, input);
      }
  }

  lemma NothingReadMatches(v: View)
    ensures ReadsMatch(v, NOTHING_READ)
  {
  }

  lemma ReviewedStillMatches(v: View, w: View, phase: Phase)
    requires PhaseMatches(v, phase) && OnlyReviewed(v, w)
    ensures PhaseMatches(w, phase)
  {
    hide StatusOf, HasPending, NothingPending;
  }

  // ---- Preservation ------------------------------------------------------------------------

  lemma LeaseCallsKeepViews(db: Db, c: Call, trip: TripId)
    requires c.command.DoAcquire? || c.command.DoComplete?
    ensures ViewOf(Apply(db, c).db, trip) == ViewOf(db, trip)
  {
    hide Apply, InvitationsOf, SessionsOf, ProposalsOf;
    WritesOnlyFootprint(db, c);
  }

  /** While a guard holds an unexpired lease, any action at all does no more to its trip than review proposals. */
  lemma HolderView(s: Sys, a: Action, id: nat)
    requires LeaseInv(s) && Enabled(s, a)
    requires id in s.guards && Holding(s.guards[id].pc) && s.clock < s.guards[id].pc.expires
    ensures OnlyReviewed(ViewOf(s.db, s.guards[id].trip), ViewOf(DbAfter(s, a), s.guards[id].trip))
  {
    hide Apply, LeaseInv, ViewOf, FromService;
    var trip := s.guards[id].trip;
    var c := StoreCallOf(s, a);
    if a.Serve? {
      HolderBlocksTrip(s, id, a.call.now);
      assert AccessInv(s.db) by { LeaseInvAccess(s); }
      LeaseLeavesOnlyReviews(s.db, a.call, trip);
    } else if c.Some? {
      LeaseCallsKeepViews(s.db, c.value, trip);
      OnlyReviewedReflexive(ViewOf(s.db, trip));
    } else {
      OnlyReviewedReflexive(ViewOf(s.db, trip));
    }
  }

  lemma LeaseInvAccess(s: Sys)
    requires LeaseInv(s)
    ensures AccessInv(s.db)
  {
  }

  lemma OnlyReviewedReflexive(v: View)
    ensures OnlyReviewed(v, v)
  {
  }

  /** A guard that is not stepping stays frozen. */
  lemma BystanderStaysFrozen(s: Sys, a: Action, id: nat, care: CarePort)
    requires LeaseInv(s) && Enabled(s, a) && id in s.guards && Frozen(s, s.guards[id], care)
    ensures Frozen(After(s, a, care), s.guards[id], care)
  {
    hide LeaseInv, ViewOf, DbAfter, GuardsAfter, HistoryAfter, PhaseMatches, PlansAlways, FromService, Apply, NothingPending;
    var g := s.guards[id];
    if (g.pc.Rechecking? || g.pc.Inside?) && After(s, a, care).clock < g.pc.expires {
      HolderView(s, a, id);
      if g.pc.Rechecking? {
        ReviewedStillMatches(ViewOf(s.db, g.trip), ViewOf(DbAfter(s, a), g.trip), g.pc.phase);
      }
    }
  }

  /** The stepping guard: it enters only on an evaluation that holds at that moment. */
  lemma StepperFrozen(s: Sys, id: nat, input: Input, care: CarePort)
    requires RevisionInv(s) && id in s.guards && Frozen(s, s.guards[id], care)
    ensures Frozen(s, s.guards[id].(pc := NextPc(s, s.guards[id], input, care)), care)
  {
    hide RevisionInv, ViewOf, PhaseMatches, PlansAlways, Apply, NothingPending, PhaseStep, RevisionsOrdered, ReadinessOf, Complete;
    var g := s.guards[id];
    if g.pc.Acquiring? {
      FreshRecheckMatches(ViewOf(s.db, g.trip));
    } else if g.pc.Rechecking? && s.clock < g.pc.expires {
      PhaseStepMatches(s, g.trip, g.pc.phase, input, care);
      var next := NextPc(s, g, input, care);
      if next.Inside? {
        EntersOnOneRevision(s, id, input, care);
      }
    }
  }

  lemma FreshRecheckMatches(v: View)
    ensures PhaseMatches(v, First(NOTHING_READ))
  {
    NothingReadMatches(v);
  }

  lemma EntersOnOneRevision(s: Sys, id: nat, input: Input, care: CarePort)
    requires RevisionInv(s) && id in s.guards && s.guards[id].pc.Rechecking?
    requires NextPc(s, s.guards[id], input, care).Inside?
    requires s.guards[id].pc.phase.Second? && Complete(s.guards[id].pc.phase.seen)
    requires PhaseStep(s, s.guards[id].trip, s.guards[id].pc.phase, input, care).Ready?
    requires PhaseStep(s, s.guards[id].trip, s.guards[id].pc.phase, input, care).digest ==
             ReadinessOf(s.guards[id].pc.phase.seen.rev.value)
    ensures NextPc(s, s.guards[id], input, care).revision == s.guards[id].pc.phase.seen.rev.value
  {
    hide PhaseStep, ViewOf, Apply, HistoryInv, Had, Complete, ReadBefore, PhaseAscends;
    var g := s.guards[id];
    FromComplete(g.pc.phase.seen);
    assert RevisionsOrdered(s, g);
    RecheckStepOrdered(s, g, input, care);
    ReadinessBindsRevision(NextPc(s, g, input, care).revision, g.pc.phase.seen.rev.value);
  }

  lemma StepKeepsFreeze(s: Sys, a: Action, care: CarePort)
    requires LeaseInv(s) && RevisionInv(s) && FreezeInv(s, care) && Enabled(s, a)
    ensures FreezeInv(After(s, a, care), care)
  {
    hide LeaseInv, RevisionInv, Frozen, DbAfter, HistoryAfter, NextPc, FromService;
    var t := After(s, a, care);
    forall id | id in t.guards
      ensures Frozen(t, t.guards[id], care)
    {
      if a.Open? && id == a.id {
        OpenedIsFrozen(t, t.guards[id], care);
      } else if a.Step? && id == a.id {
        StepperFrozen(s, id, a.input, care);
        StepperStaysFrozen(s, a, care);
      } else {
        BystanderStaysFrozen(s, a, id, care);
      }
    }
  }

  lemma OpenedIsFrozen(s: Sys, g: Guard, care: CarePort)
    requires g.pc == Checking(First(NOTHING_READ))
    ensures Frozen(s, g, care)
  {
  }

  /** The stepping guard's own store calls only write leases. */
  lemma StepperStaysFrozen(s: Sys, a: Action, care: CarePort)
    requires Enabled(s, a) && a.Step?
    requires Frozen(s, s.guards[a.id].(pc := NextPc(s, s.guards[a.id], a.input, care)), care)
    ensures Frozen(After(s, a, care), After(s, a, care).guards[a.id], care)
  {
    hide Apply, ViewOf, NextPc, PhaseMatches, PlansAlways, NothingPending, HistoryAfter;
    var c := StoreCallOf(s, a);
    if c.Some? {
      LeaseCallsKeepViews(s.db, c.value, s.guards[a.id].trip);
    }
  }

  // ---- Whole runs --------------------------------------------------------------------------

  ghost predicate SafetyInv(s: Sys, care: CarePort) {
    LeaseInv(s) && RevisionInv(s) && FreezeInv(s, care)
  }

  ghost predicate EnabledRun(s: Sys, actions: seq<Action>, care: CarePort)
    decreases |actions|
  {
    actions != [] ==> Enabled(s, actions[0]) && EnabledRun(After(s, actions[0], care), actions[1..], care)
  }

  ghost function RunOf(s: Sys, actions: seq<Action>, care: CarePort): Sys
    requires EnabledRun(s, actions, care)
    decreases |actions|
  {
    if actions == [] then s else RunOf(After(s, actions[0], care), actions[1..], care)
  }

  /** Nothing stored, no draft, no guard. */
  function Initial(clock: Time): Sys {
    Sys(EMPTY, map[], clock, map[])
  }

  lemma InitiallySafe(clock: Time, care: CarePort)
    ensures SafetyInv(Initial(clock), care)
  {
  }

  /** The invariant holds throughout every run. */
  lemma {:induction false} RunKeepsSafety(s: Sys, actions: seq<Action>, care: CarePort)
    requires SafetyInv(s, care) && EnabledRun(s, actions, care)
    ensures SafetyInv(RunOf(s, actions, care), care)
    decreases |actions|
  {
    hide LeaseInv, RevisionInv, FreezeInv, Enabled, After;
    if actions != [] {
      StepKeepsLeaseInv(s, actions[0], care);
      StepKeepsRevisionInv(s, actions[0], care);
      StepKeepsFreeze(s, actions[0], care);
      RunKeepsSafety(After(s, actions[0], care), actions[1..], care);
    }
  }

  /** In every state of every run: a guard inside its operation whose lease has not expired finds the trip's stored
      version, revision, confirmations, proposals, invitations and sessions as they were when it was let in; nothing is
      pending; the stored revision is the permit's; the permit's digest is that revision's; and the trip still may plan
      with it. No other guard of the trip is inside or past acquiring with an unexpired lease. */
  lemma InsideIsFrozen(clock: Time, actions: seq<Action>, care: CarePort, id: nat)
    requires EnabledRun(Initial(clock), actions, care)
    requires var s := RunOf(Initial(clock), actions, care);
      id in s.guards && s.guards[id].pc.Inside? && s.clock < s.guards[id].pc.expires
    ensures var s := RunOf(Initial(clock), actions, care);
      var g := s.guards[id];
      && ViewOf(s.db, g.trip) == g.pc.view
      && NothingPending(g.pc.view)
      && g.pc.view.session.Some? && g.pc.view.session.value.currentRevision == g.pc.revision.revision
      && g.pc.digest == ReadinessOf(g.pc.revision)
      && (forall t :: CanPlan(FactsAt(ViewOf(s.db, g.trip), g.pc.revision, g.pc.failed, t), care))
      && (forall jd :: jd in s.guards && jd != id && s.guards[jd].trip == g.trip && Holding(s.guards[jd].pc)
            ==> s.guards[jd].pc.expires <= s.clock)
  {
    hide Enabled, After, LeaseInv, EnabledRun, RunOf, ViewOf, NothingPending, ReadinessOf, HistoryInv, Had, AllConfirmed, SourceReady;
    InitiallySafe(clock, care);
    RunKeepsSafety(Initial(clock), actions, care);
    var s := RunOf(Initial(clock), actions, care);
    var g := s.guards[id];
    assert Frozen(s, g, care) && RevisionsOrdered(s, g);
    assert CanPlan(FactsAt(g.pc.view, g.pc.revision, g.pc.failed, clock), care);
    forall jd | jd in s.guards && jd != id && s.guards[jd].trip == g.trip && Holding(s.guards[jd].pc)
      ensures s.guards[jd].pc.expires <= s.clock
    {
      HoldersExclusive(s, id, jd);
    }
  }
}
