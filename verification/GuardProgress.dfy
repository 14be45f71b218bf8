/** The other half of the freeze: a trip that may plan lets an undisturbed guard in, and every draft without conflicts
    can be brought there. */
module GuardProgress {
  import opened Prelude
  import opened Digests
  import opened HardConflicts
  import opened CollaborationStore
  import opened TripViews
  import opened Readiness
  import opened Reconfirmation
  import opened ReadinessGuard
  import opened GuardFreeze

  // ---- Runs of one guard ---------------------------------------------------------------------

  function Put(s: Sys, id: nat, pc: Pc): Sys
    requires id in s.guards
  {
    s.(guards := s.guards[id := s.guards[id].(pc := pc)])
  }

  /** The actions are possible one after the other and end in `t`. */
  ghost predicate Leads(s: Sys, actions: seq<Action>, t: Sys, care: CarePort) {
    EnabledRun(s, actions, care) && RunOf(s, actions, care) == t
  }

  predicate StepsOf(actions: seq<Action>, id: nat) {
    forall i :: 0 <= i < |actions| ==> actions[i].Step? && actions[i].id == id
  }

  lemma {:induction false} LeadsJoin(s: Sys, a: seq<Action>, t: Sys, b: seq<Action>, u: Sys, care: CarePort)
    requires Leads(s, a, t, care) && Leads(t, b, u, care)
    ensures Leads(s, a + b, u, care)
    decreases |a|
  {
    hide Enabled, After;
    if a == [] {
      assert a + b == b;
    } else {
      assert (a + b)[1..] == a[1..] + b;
      LeadsJoin(After(s, a[0], care), a[1..], t, b, u, care);
    }
  }

  lemma LeadsOne(s: Sys, a: Action, care: CarePort)
    requires Enabled(s, a)
    ensures Leads(s, [a], After(s, a, care), care)
  {
    hide Enabled, After;
    var t := After(s, a, care);
    assert [a][1..] == [];
    assert EnabledRun(t, [], care) && RunOf(t, [], care) == t;
    assert EnabledRun(s, [a], care);
  }

  // ---- One evaluation ------------------------------------------------------------------------

  predicate Evaluating(pc: Pc) {
    pc.Checking? || pc.Rechecking?
  }

  function InPhase(pc: Pc, phase: Phase): Pc
    requires Evaluating(pc)
  {
    pc.(phase := phase)
  }

  function WithReads(phase: Phase, r: Reads): Phase
    requires !phase.Reread?
  {
    phase.(seen := r)
  }

  /** The reads are what the trip's tables and the draft service hold at present. */
  ghost predicate Honest(s: Sys, trip: TripId, r: Reads, failed: seq<Attempt>) {
    && ReadsMatch(ViewOf(s.db, trip), r)
    && (r.rev.Some? ==> r.rev == Current(s, trip))
    && (r.proposals.Some? ==> r.proposals.value == ViewOf(s.db, trip).proposals)
    && (r.failed.Some? ==> r.failed.value == failed)
  }

  function Unread<T>(o: Option<T>): nat {
    if o.None? then 1 else 0
  }

  function TablesLeft(r: Reads): nat {
    Unread(r.rev) + Unread(r.session) + Unread(r.members) + Unread(r.proposals) + Unread(r.failed)
  }

  function ReadsLeft(r: Reads, rev: Revision): nat {
    TablesLeft(r) + |rev.bindings.Values - r.access.Keys| + |rev.bindings.Values - r.sessionless|
  }

  lemma StoredReadNext(s: Sys, trip: TripId, r: Reads, input: Input)
    requires !StoredRead(r) && Current(s, trip).Some? && ViewOf(s.db, trip).session.Some?
    ensures var next := ReadNext(s, trip, r, input);
      && next.Some? && next.value.access == r.access && next.value.sessionless == r.sessionless && TablesLeft(next.value) < TablesLeft(r)
      && (next.value.rev == r.rev || next.value.rev == Current(s, trip))
      && (next.value.proposals == r.proposals || next.value.proposals == Some(ViewOf(s.db, trip).proposals))
      && (next.value.failed == r.failed || next.value.failed == Some(input.failed))
  {
    hide ViewOf, StatusOf, Current;
  }

  /** Before the access statuses, the next read is one of the five fixed ones. */
  lemma StoredReadSucceeds(s: Sys, trip: TripId, r: Reads, failed: seq<Attempt>, rev: Revision)
    requires Honest(s, trip, r, failed) && !StoredRead(r)
    requires Current(s, trip) == Some(rev) && ViewOf(s.db, trip).session.Some?
    ensures var next := ReadNext(s, trip, r, Input(s.clock, failed, 0));
      next.Some? && Honest(s, trip, next.value, failed) && ReadsLeft(next.value, rev) < ReadsLeft(r, rev)
  {
    hide ViewOf, Current, ReadsMatch, ReadNext, TablesLeft, StoredRead;
    ReadMatches(s, trip, r, Input(s.clock, failed, 0));
    StoredReadNext(s, trip, r, Input(s.clock, failed, 0));
  }

  lemma MissingAccess(r: Reads) returns (p: Pid)
    requires StoredRead(r) && !Complete(r)
    ensures p in r.rev.value.bindings.Values && p !in r.access
  {
    var key :| key in r.rev.value.bindings && r.rev.value.bindings[key] != r.session.value.organizer
               && r.rev.value.bindings[key] !in r.access;
    p := r.rev.value.bindings[key];
  }

  lemma AccessReadSucceeds(s: Sys, trip: TripId, r: Reads, failed: seq<Attempt>, rev: Revision, p: Pid)
    requires Honest(s, trip, r, failed) && StoredRead(r) && r.rev.value == rev
    requires p in rev.bindings.Values && p !in r.access
    ensures var next := ReadNext(s, trip, r, Input(s.clock, failed, p));
      next.Some? && Honest(s, trip, next.value, failed) && ReadsLeft(next.value, rev) < ReadsLeft(r, rev)
  {
    var input := Input(s.clock, failed, p);
    ReadMatches(s, trip, r, input);
    AccessReadNext(s, trip, r, input);
    var next := ReadNext(s, trip, r, input).value;
    hide ViewOf, StatusOf, Current, ReadsMatch, ReadNext;
    if next.access != r.access {
      OneMoreRead(rev.bindings.Values, r.access, p, next.access[p]);
    } else {
      assert rev.bindings.Values - next.sessionless == rev.bindings.Values - r.sessionless - {p};
    }
  }

  /** One read of a member's access either tells the status or that there is no session. */
  lemma AccessReadNext(s: Sys, trip: TripId, r: Reads, input: Input)
    requires StoredRead(r)
    ensures var next := ReadNext(s, trip, r, input);
      && next.Some?
      && ((next.value == r.(sessionless := r.sessionless + {input.member}) && input.member !in r.sessionless)
          || (input.member in next.value.access
              && next.value == r.(access := r.access[input.member := next.value.access[input.member]])))
  {
    hide ViewOf, LatestSessionOf, LatestInvitationOf, Current;
  }

  lemma OneMoreRead(values: set<Pid>, access: map<Pid, Access>, p: Pid, a: Access)
    requires p in values && p !in access
    ensures |values - access[p := a].Keys| < |values - access.Keys|
  {
    assert values - access[p := a].Keys == values - access.Keys - {p};
  }

  /** An incomplete evaluation has a next read that succeeds. */
  lemma NextReadSucceeds(s: Sys, trip: TripId, r: Reads, failed: seq<Attempt>, rev: Revision) returns (input: Input)
    requires Honest(s, trip, r, failed) && !Complete(r)
    requires Current(s, trip) == Some(rev) && ViewOf(s.db, trip).session.Some?
    ensures input.now == s.clock
    ensures var next := ReadNext(s, trip, r, input);
      next.Some? && Honest(s, trip, next.value, failed) && ReadsLeft(next.value, rev) < ReadsLeft(r, rev)
  {
    hide ViewOf, ReadNext, Complete, Current, ReadsMatch, ReadsLeft;
    input := Input(s.clock, failed, 0);
    if StoredRead(r) {
      var p := MissingAccess(r);
      AccessReadSucceeds(s, trip, r, failed, rev, p);
      input := Input(s.clock, failed, p);
    } else {
      StoredReadSucceeds(s, trip, r, failed, rev);
    }
  }

  lemma PhaseAdvances(s: Sys, id: nat, input: Input, care: CarePort, next: Phase)
    requires id in s.guards && Evaluating(s.guards[id].pc) && input.now <= s.clock
    requires PhaseStep(s, s.guards[id].trip, s.guards[id].pc.phase, input, care) == Going(next)
    ensures Leads(s, [Step(id, input)], Put(s, id, InPhase(s.guards[id].pc, next)), care)
  {
    hide PhaseStep;
    LeadsOne(s, Step(id, input), care);
  }

  lemma PutTwice(s: Sys, id: nat, a: Pc, b: Pc)
    requires id in s.guards
    ensures Put(Put(s, id, a), id, b) == Put(s, id, b)
  {
    var g := s.guards[id];
    assert s.guards[id := g.(pc := a)][id := g.(pc := b)] == s.guards[id := g.(pc := b)];
  }

  lemma LeadsNowhere(s: Sys, id: nat, care: CarePort)
    requires id in s.guards
    ensures Leads(s, [], Put(s, id, s.guards[id].pc), care)
  {
    assert Put(s, id, s.guards[id].pc) == s;
  }

  lemma ReadAdvances(s: Sys, id: nat, input: Input, care: CarePort, next: Reads)
    requires id in s.guards && Evaluating(s.guards[id].pc) && !s.guards[id].pc.phase.Reread? && input.now <= s.clock
    requires !Complete(s.guards[id].pc.phase.seen)
    requires ReadNext(s, s.guards[id].trip, s.guards[id].pc.phase.seen, input) == Some(next)
    ensures var pc := s.guards[id].pc;
      Leads(s, [Step(id, input)], Put(s, id, InPhase(pc, WithReads(pc.phase, next))), care)
  {
    hide ReadNext, Complete;
    PhaseAdvances(s, id, input, care, WithReads(s.guards[id].pc.phase, next));
  }

  /** Left alone, an evaluation reads everything it needs. */
  lemma {:induction false} ReadsComplete(s: Sys, id: nat, care: CarePort, failed: seq<Attempt>, rev: Revision)
    returns (actions: seq<Action>, done: Reads)
    requires id in s.guards && Evaluating(s.guards[id].pc) && !s.guards[id].pc.phase.Reread?
    requires Current(s, s.guards[id].trip) == Some(rev) && ViewOf(s.db, s.guards[id].trip).session.Some?
    requires Honest(s, s.guards[id].trip, s.guards[id].pc.phase.seen, failed)
    ensures Honest(s, s.guards[id].trip, done, failed) && Complete(done)
    ensures var pc := s.guards[id].pc;
      Leads(s, actions, Put(s, id, InPhase(pc, WithReads(pc.phase, done))), care)
    ensures StepsOf(actions, id)
    decreases ReadsLeft(s.guards[id].pc.phase.seen, rev)
  {
    hide Current, ViewOf, ReadNext, Complete, ReadsLeft, ReadsMatch, PhaseStep, EnabledRun, RunOf, Leads;
    var g := s.guards[id];
    var r := g.pc.phase.seen;
    if Complete(r) {
      actions, done := [], r;
      LeadsNowhere(s, id, care);
    } else {
      var input := NextReadSucceeds(s, g.trip, r, failed, rev);
      var next := ReadNext(s, g.trip, r, input).value;
      var pc := InPhase(g.pc, WithReads(g.pc.phase, next));
      ReadAdvances(s, id, input, care, next);
      var t := Put(s, id, pc);
      SameWorld(s, t, g.trip, next, failed);
      var rest;
      rest, done := ReadsComplete(t, id, care, failed, rev);
      SameWorld(s, t, g.trip, done, failed);
      PutTwice(s, id, pc, InPhase(pc, WithReads(pc.phase, done)));
      actions := [Step(id, input)] + rest;
      LeadsJoin(s, [Step(id, input)], t, rest, Put(s, id, InPhase(pc, WithReads(pc.phase, done))), care);
    }
  }

  lemma SameWorld(s: Sys, t: Sys, trip: TripId, r: Reads, failed: seq<Attempt>)
    requires s.db == t.db && s.history == t.history
    ensures Current(s, trip) == Current(t, trip)
    ensures Honest(s, trip, r, failed) <==> Honest(t, trip, r, failed)
  {
    hide ViewOf, ReadsMatch;
  }

  /** What a complete honest evaluation concludes is what the trip's view says. */
  lemma CompleteReadsPlan(s: Sys, trip: TripId, r: Reads, failed: seq<Attempt>, rev: Revision, care: CarePort)
    requires Honest(s, trip, r, failed) && Complete(r) && Current(s, trip) == Some(rev)
    requires ViewOf(s.db, trip).session.Some? && CanPlan(FactsAt(ViewOf(s.db, trip), rev, failed, s.clock), care)
    ensures StoredRead(r) && r.rev == Some(rev) && r.failed == Some(failed) && CanPlan(FactsRead(r), care)
  {
    hide ViewOf, StatusOf, StatusOfMember, Evaluate, SourceReady, HasPending, NothingPending, Complete, Current;
    FromComplete(r);
    var v := ViewOf(s.db, trip);
    var f, g := FactsRead(r), FactsAt(v, rev, failed, s.clock);
    var issues := IssuesOf(g, care);
    forall key | key in f.rev.bindings
      ensures StatusOfMember(f, issues, key) == Confirmed
    {
      StatusAgrees(v, r, s.clock, key, issues);
    }
  }

  /** Both evaluations of a guard that nobody disturbs end with the current revision. */
  lemma PhasesComplete(s: Sys, id: nat, care: CarePort, failed: seq<Attempt>, rev: Revision)
    returns (actions: seq<Action>, phase: Phase)
    requires id in s.guards && Evaluating(s.guards[id].pc) && s.guards[id].pc.phase == First(NOTHING_READ)
    requires Current(s, s.guards[id].trip) == Some(rev) && ViewOf(s.db, s.guards[id].trip).session.Some?
    requires CanPlan(FactsAt(ViewOf(s.db, s.guards[id].trip), rev, failed, s.clock), care)
    ensures Leads(s, actions, Put(s, id, InPhase(s.guards[id].pc, phase)), care) && StepsOf(actions, id)
    ensures forall input, t: Sys {:trigger PhaseStep(t, s.guards[id].trip, phase, input, care)} ::
      PhaseStep(t, s.guards[id].trip, phase, input, care) == Ready(rev, ReadinessOf(rev), failed)
  {
    hide Current, ViewOf, Complete, ReadsMatch, CanPlan, FactsRead, ReadinessOf, EnabledRun, RunOf, ReadNext, FactsAt;
    var g := s.guards[id];
    var quiet := Input(s.clock, failed, 0);
    NothingReadIsHonest(s, g.trip, failed);
    var a, first := ReadsComplete(s, id, care, failed, rev);
    CompleteReadsPlan(s, g.trip, first, failed, rev, care);
    var s1 := Put(s, id, InPhase(g.pc, First(first)));
    PhaseAdvances(s1, id, quiet, care, Reread);
    var s2 := Put(s, id, InPhase(g.pc, Reread));
    PutTwice(s, id, InPhase(g.pc, First(first)), InPhase(g.pc, Reread));
    LeadsJoin(s, a, s1, [Step(id, quiet)], s2, care);
    SameWorld(s, s2, g.trip, first, failed);
    PhaseAdvances(s2, id, quiet, care, Second(rev, NOTHING_READ));
    var s3 := Put(s, id, InPhase(g.pc, Second(rev, NOTHING_READ)));
    PutTwice(s, id, InPhase(g.pc, Reread), InPhase(g.pc, Second(rev, NOTHING_READ)));
    LeadsJoin(s, a + [Step(id, quiet)], s2, [Step(id, quiet)], s3, care);
    SameWorld(s, s3, g.trip, first, failed);
    NothingReadIsHonest(s3, g.trip, failed);
    var b, second := ReadsComplete(s3, id, care, failed, rev);
    SameWorld(s, s3, g.trip, second, failed);
    CompleteReadsPlan(s, g.trip, second, failed, rev, care);
    phase := Second(rev, second);
    PutTwice(s, id, InPhase(g.pc, Second(rev, NOTHING_READ)), InPhase(g.pc, phase));
    actions := a + [Step(id, quiet)] + [Step(id, quiet)] + b;
    LeadsJoin(s, a + [Step(id, quiet)] + [Step(id, quiet)], s3, b, Put(s, id, InPhase(g.pc, phase)), care);
  }

  lemma NothingReadIsHonest(s: Sys, trip: TripId, failed: seq<Attempt>)
    ensures Honest(s, trip, NOTHING_READ, failed)
  {
    hide ViewOf;
    NothingReadMatches(ViewOf(s.db, trip));
  }

  // ---- Getting in ----------------------------------------------------------------------------

  /** A ready evaluation of a guard without a permit leads to acquiring, one of a guard with a permit leads inside. */
  lemma ReadyMovesOn(s: Sys, id: nat, care: CarePort, failed: seq<Attempt>, rev: Revision, quiet: Input)
    requires id in s.guards && Evaluating(s.guards[id].pc) && quiet.now <= s.clock
    requires PhaseStep(s, s.guards[id].trip, s.guards[id].pc.phase, quiet, care) == Ready(rev, ReadinessOf(rev), failed)
    requires var pc := s.guards[id].pc; pc.Rechecking? ==> pc.revision == rev && pc.digest == ReadinessOf(rev)
    ensures var g := s.guards[id];
      Leads(s, [Step(id, quiet)],
            Put(s, id, if g.pc.Checking? then Acquiring(rev, ReadinessOf(rev))
                       else Inside(g.pc.expires, rev, ReadinessOf(rev), ViewOf(s.db, g.trip), failed)),
            care)
  {
    hide PhaseStep, ViewOf, ReadinessOf;
    LeadsOne(s, Step(id, quiet), care);
  }

  function WithLease(s: Sys, op: string, lease: Lease): Sys {
    s.(db := s.db.(leases := s.db.leases[op := lease]))
  }

  /** An acquire that is not refused moves the guard to its second check, with a lease that has not expired. */
  lemma AcquiresLease(s: Sys, id: nat, care: CarePort, quiet: Input) returns (expires: Time)
    requires id in s.guards && s.guards[id].pc.Acquiring? && quiet.now == s.clock && 0 < s.guards[id].ttl
    requires var g := s.guards[id]; AcquireRefusal(s.db, g.op, g.trip, g.operation, g.pc.digest, s.clock).None?
    ensures s.clock < expires
    ensures var g := s.guards[id];
      Leads(s, [Step(id, quiet)],
            Put(WithLease(s, g.op, Lease(g.trip, g.pc.digest, g.operation, expires, None)), id,
                Rechecking(expires, g.pc.revision, g.pc.digest, First(NOTHING_READ))),
            care)
  {
    hide AcquireRefusal;
    var g := s.guards[id];
    expires := LeaseExpiry(s.db, g.op, g.ttl, s.clock);
    LeadsOne(s, Step(id, quiet), care);
  }

  lemma SameView(s: Sys, op: string, lease: Lease, trip: TripId)
    ensures ViewOf(WithLease(s, op, lease).db, trip) == ViewOf(s.db, trip)
    ensures Current(WithLease(s, op, lease), trip) == Current(s, trip)
  {
  }

  /** If the trip may plan now and the lease table does not refuse the guard, the guard's own steps alone take it inside
      its operation with the current revision and an unexpired lease, writing nothing but that lease. */
  lemma UndisturbedGuardEnters(s: Sys, id: nat, care: CarePort, failed: seq<Attempt>, rev: Revision)
    returns (actions: seq<Action>, expires: Time)
    requires id in s.guards && s.guards[id].pc == Checking(First(NOTHING_READ)) && 0 < s.guards[id].ttl
    requires Current(s, s.guards[id].trip) == Some(rev) && ViewOf(s.db, s.guards[id].trip).session.Some?
    requires CanPlan(FactsAt(ViewOf(s.db, s.guards[id].trip), rev, failed, s.clock), care)
    requires var g := s.guards[id]; AcquireRefusal(s.db, g.op, g.trip, g.operation, ReadinessOf(rev), s.clock).None?
    ensures StepsOf(actions, id) && s.clock < expires
    ensures var g := s.guards[id];
      Leads(s, actions,
            Put(WithLease(s, g.op, Lease(g.trip, ReadinessOf(rev), g.operation, expires, None)), id,
                Inside(expires, rev, ReadinessOf(rev), ViewOf(s.db, g.trip), failed)),
            care)
  {
    hide ViewOf, CanPlan, FactsAt, ReadinessOf, AcquireRefusal, PhaseStep, Leads, Current;
    var g, digest, quiet := s.guards[id], ReadinessOf(rev), Input(s.clock, failed, 0);
    var a, phase := PhasesComplete(s, id, care, failed, rev);
    var s1 := Put(s, id, Checking(phase));
    assert PhaseStep(s1, g.trip, phase, quiet, care) == Ready(rev, digest, failed);
    ReadyMovesOn(s1, id, care, failed, rev, quiet);
    var s2 := Put(s, id, Acquiring(rev, digest));
    PutTwice(s, id, Checking(phase), Acquiring(rev, digest));
    LeadsJoin(s, a, s1, [Step(id, quiet)], s2, care);
    expires := AcquiresLease(s2, id, care, quiet);
    var lease := Lease(g.trip, digest, g.operation, expires, None);
    var leased := WithLease(s, g.op, lease);
    var second := Rechecking(expires, rev, digest, First(NOTHING_READ));
    var s3 := Put(leased, id, second);
    PutTwice(leased, id, Acquiring(rev, digest), second);
    assert s3 == Put(WithLease(s2, g.op, lease), id, second);
    LeadsJoin(s, a + [Step(id, quiet)], s2, [Step(id, quiet)], s3, care);
    SameView(s, g.op, lease, g.trip);
    assert Current(s3, g.trip) == Current(leased, g.trip) by { SameWorld(s3, leased, g.trip, NOTHING_READ, failed); }
    var b, again := PhasesComplete(s3, id, care, failed, rev);
    var s4 := Put(leased, id, Rechecking(expires, rev, digest, again));
    PutTwice(leased, id, second, Rechecking(expires, rev, digest, again));
    LeadsJoin(s, a + [Step(id, quiet)] + [Step(id, quiet)], s3, b, s4, care);
    assert PhaseStep(s4, g.trip, again, quiet, care) == Ready(rev, digest, failed);
    ReadyMovesOn(s4, id, care, failed, rev, quiet);
    var inside := Inside(expires, rev, digest, ViewOf(s.db, g.trip), failed);
    PutTwice(leased, id, Rechecking(expires, rev, digest, again), inside);
    LeadsJoin(s, a + [Step(id, quiet)] + [Step(id, quiet)] + b, s4, [Step(id, quiet)], Put(leased, id, inside), care);
    actions := a + [Step(id, quiet)] + [Step(id, quiet)] + b + [Step(id, quiet)];
  }
}
