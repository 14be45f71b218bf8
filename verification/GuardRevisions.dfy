/** The revision a permit hands out is the one its readiness digest binds, although the guard reads the draft service
    six times and the digest comes from other reads than the revision. */
module GuardRevisions {
  import opened Prelude
  import opened Digests
  import opened HardConflicts
  import opened CollaborationStore
  import opened ReadinessGuard
  import opened Readiness
  import opened TripViews
  import TripDraft

  // ---- The draft service -------------------------------------------------------------------

  ghost predicate Chain(trip: TripId, revs: seq<Revision>) {
    && revs != []
    && (forall i :: 0 <= i < |revs| ==>
          revs[i].tripId == trip && revs[i].bindings == revs[0].bindings
          && TripDraft.SequentialKeys(revs[i].understanding.participants))
    && (forall i, j :: 0 <= i < j < |revs| ==> revs[i].revision < revs[j].revision)
  }

  ghost predicate HistoryInv(s: Sys) {
    forall trip :: trip in s.history ==> Chain(trip, s.history[trip])
  }

  predicate Had(s: Sys, trip: TripId, rev: Revision) {
    trip in s.history && rev in s.history[trip]
  }

  lemma StepKeepsHistory(s: Sys, a: Action)
    requires HistoryInv(s) && Enabled(s, a)
    ensures forall trip :: trip in HistoryAfter(s, a) ==> Chain(trip, HistoryAfter(s, a)[trip])
    ensures forall trip, rev :: Had(s, trip, rev) ==> trip in HistoryAfter(s, a) && rev in HistoryAfter(s, a)[trip]
  {
    if a.Submit? && a.rev.tripId in s.history {
      var was := s.history[a.rev.tripId];
      assert Chain(a.rev.tripId, was);
    }
  }

  /** The current revision is the one with the highest number. */
  lemma CurrentIsLatest(s: Sys, trip: TripId, rev: Revision)
    requires HistoryInv(s) && Had(s, trip, rev)
    ensures Current(s, trip).Some? && Had(s, trip, Current(s, trip).value)
    ensures rev.revision <= Current(s, trip).value.revision
  {
    assert Chain(trip, s.history[trip]);
    var i :| 0 <= i < |s.history[trip]| && s.history[trip][i] == rev;
  }

  lemma SameNumber(s: Sys, trip: TripId, a: Revision, b: Revision)
    requires HistoryInv(s) && Had(s, trip, a) && Had(s, trip, b) && a.revision == b.revision
    ensures a == b
  {
    assert Chain(trip, s.history[trip]);
    var i :| 0 <= i < |s.history[trip]| && s.history[trip][i] == a;
    var j :| 0 <= j < |s.history[trip]| && s.history[trip][j] == b;
  }

  // ---- What a guard has read ---------------------------------------------------------------

  /** Every revision a phase has read exists, and none is older than `floor` or than one read before it. */
  ghost predicate PhaseAscends(s: Sys, trip: TripId, floor: nat, phase: Phase) {
    match phase
    case First(r) => r.rev.Some? ==> Had(s, trip, r.rev.value) && floor <= r.rev.value.revision
    case Reread => true
    case Second(v, r) =>
      && Had(s, trip, v) && floor <= v.revision
      && (r.rev.Some? ==> Had(s, trip, r.rev.value) && v.revision <= r.rev.value.revision)
  }

  /** The revision was read no later than the one the digest was computed from. */
  ghost predicate ReadBefore(s: Sys, trip: TripId, rev: Revision, digest: ReadinessDigest) {
    && Had(s, trip, rev)
    && ValidRevision(digest.source.of)
    && digest == ReadinessOf(digest.source.of)
    && Had(s, trip, digest.source.of)
    && rev.revision <= digest.source.of.revision
  }

  ghost predicate RevisionsOrdered(s: Sys, g: Guard) {
    match g.pc
    case Checking(phase) => PhaseAscends(s, g.trip, 0, phase)
    case Acquiring(rev, digest) => ReadBefore(s, g.trip, rev, digest)
    case Rechecking(_, rev, digest, phase) =>
      ReadBefore(s, g.trip, rev, digest) && PhaseAscends(s, g.trip, digest.source.of.revision, phase)
    case Inside(_, rev, digest, _, _) => Had(s, g.trip, rev) && digest == ReadinessOf(rev)
    case _ => true
  }

  ghost predicate RevisionInv(s: Sys) {
    && HistoryInv(s)
    && forall id :: id in s.guards ==> RevisionsOrdered(s, s.guards[id])
  }

  lemma OrderedInLonger(s: Sys, t: Sys, g: Guard)
    requires RevisionsOrdered(s, g)
    requires forall trip, rev :: Had(s, trip, rev) ==> Had(t, trip, rev)
    ensures RevisionsOrdered(t, g)
  {
    hide Had, ReadinessOf, ValidRevision;
  }

  lemma PhaseStepAscends(s: Sys, trip: TripId, floor: nat, phase: Phase, input: Input, care: CarePort)
    requires HistoryInv(s) && PhaseAscends(s, trip, floor, phase)
    requires Current(s, trip).Some? ==> Had(s, trip, Current(s, trip).value) && floor <= Current(s, trip).value.revision
    ensures var result := PhaseStep(s, trip, phase, input, care);
      && (result.Going? ==> PhaseAscends(s, trip, floor, result.phase))
      && (result.Ready? ==> ReadBefore(s, trip, result.revision, result.digest) && floor <= result.revision.revision)
  {
    hide CanPlan, ReadNext, Had, HistoryInv, Current, StatusOf;
    if !phase.Reread? {
      ReadKeepsRevision(s, trip, phase, input);
    }
    if phase.Second? {
      CurrentIsLatest(s, trip, phase.revision);
    }
  }

  lemma ReadKeepsRevision(s: Sys, trip: TripId, phase: Phase, input: Input)
    requires !phase.Reread?
    ensures var next := ReadNext(s, trip, phase.seen, input);
      next.Some? ==> next.value.rev == if phase.seen.rev.None? then Current(s, trip) else phase.seen.rev
  {
  }

  lemma CurrentExists(s: Sys, trip: TripId)
    requires Current(s, trip).Some?
    ensures Had(s, trip, Current(s, trip).value)
  {
  }

  /** The heart of it: the first check read its revision before the digest's, the second check read a revision after
      it, both have the same number, so all three are the same revision. */
  lemma RecheckBindsRevision(s: Sys, trip: TripId, first: Revision, leased: Revision, digest: ReadinessDigest)
    requires HistoryInv(s) && ReadBefore(s, trip, first, digest)
    requires Had(s, trip, leased) && digest.source.of.revision <= leased.revision == first.revision
    ensures leased == first && digest == ReadinessOf(leased)
  {
    hide ReadinessOf, Had, HistoryInv;
    SameNumber(s, trip, first, leased);
    SameNumber(s, trip, leased, digest.source.of);
  }

  lemma GuardStepOrdered(s: Sys, g: Guard, input: Input, care: CarePort)
    requires HistoryInv(s) && RevisionsOrdered(s, g)
    ensures RevisionsOrdered(s, g.(pc := NextPc(s, g, input, care)))
  {
    hide PhaseStep, Had, HistoryInv, Current, Apply, ReadinessOf, ValidRevision, ViewOf, ReadBefore;
    if Current(s, g.trip).Some? {
      CurrentExists(s, g.trip);
    }
    if g.pc.Checking? {
      PhaseStepAscends(s, g.trip, 0, g.pc.phase, input, care);
    } else if g.pc.Rechecking? {
      RecheckStepOrdered(s, g, input, care);
    }
  }

  lemma RecheckStepOrdered(s: Sys, g: Guard, input: Input, care: CarePort)
    requires HistoryInv(s) && RevisionsOrdered(s, g) && g.pc.Rechecking?
    ensures RevisionsOrdered(s, g.(pc := NextPc(s, g, input, care)))
  {
    hide PhaseStep, Had, HistoryInv, Current, Apply, ReadinessOf, ValidRevision, ViewOf, PhaseAscends;
    CurrentIsLatest(s, g.trip, g.pc.digest.source.of);
    var floor := g.pc.digest.source.of.revision;
    PhaseStepAscends(s, g.trip, floor, g.pc.phase, input, care);
    var result := PhaseStep(s, g.trip, g.pc.phase, input, care);
    if result.Ready? && result.digest == g.pc.digest && result.revision.revision == g.pc.revision.revision {
      RecheckBindsRevision(s, g.trip, g.pc.revision, result.revision, g.pc.digest);
    }
  }

  lemma StepKeepsRevisionInv(s: Sys, a: Action, care: CarePort)
    requires RevisionInv(s) && Enabled(s, a)
    ensures RevisionInv(After(s, a, care))
  {
    hide Had, NextPc, DbAfter, RevisionsOrdered, Chain, HistoryAfter;
    StepKeepsHistory(s, a);
    var t := After(s, a, care);
    HadGrows(s, a, care);
    forall id | id in t.guards
      ensures RevisionsOrdered(t, t.guards[id])
    {
      if a.Open? && id == a.id {
        FreshGuardOrdered(t, t.guards[id]);
      } else if a.Step? && id == a.id {
        GuardStepOrdered(s, s.guards[id], a.input, care);
        OrderedInLonger(s, t, t.guards[id]);
      } else {
        OrderedInLonger(s, t, t.guards[id]);
      }
    }
  }

  lemma HadGrows(s: Sys, a: Action, care: CarePort)
    requires HistoryInv(s) && Enabled(s, a)
    ensures forall trip, rev :: Had(s, trip, rev) ==> Had(After(s, a, care), trip, rev)
  {
    hide NextPc, DbAfter, HistoryAfter, HistoryInv;
    StepKeepsHistory(s, a);
  }

  lemma FreshGuardOrdered(s: Sys, g: Guard)
    requires g.pc == Checking(First(NOTHING_READ))
    ensures RevisionsOrdered(s, g)
  {
  }
}
