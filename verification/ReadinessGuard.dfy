/** The readiness guard as a program of atomic steps among other actors: check, acquire, check again, hand out the
    permit, complete. Every read is a step of its own, so anything may happen between any two of them. */
module ReadinessGuard {
  import opened Prelude
  import opened Digests
  import opened HardConflicts
  import opened CollaborationStore
  import opened TripViews
  import opened Readiness
  import TripDraft

  // ---- The guard's program -----------------------------------------------------------------

  /** What one readiness evaluation has read so far: the draft service's revision, then the three tables of
      `get_stored`, then the failed attempts, then the access status of each member but the organizer - from the member's
      sessions, or, for a member found without one, from the invitations. */
  datatype Reads = Reads(
    rev: Option<Revision>,
    session: Option<Session>,
    members: Option<map<Pid, Member>>,
    proposals: Option<map<nat, ChangeProposal>>,
    failed: Option<seq<Attempt>>,
    sessionless: set<Pid>,
    access: map<Pid, Access>)

  const NOTHING_READ := Reads(None, None, None, None, None, {}, map[])

  predicate StoredRead(r: Reads) {
    r.rev.Some? && r.session.Some? && r.members.Some? && r.proposals.Some? && r.failed.Some?
  }

  predicate Complete(r: Reads) {
    && StoredRead(r)
    && forall key :: key in r.rev.value.bindings ==>
         r.rev.value.bindings[key] == r.session.value.organizer || r.rev.value.bindings[key] in r.access
  }

  function FactsRead(r: Reads): Facts
    requires StoredRead(r)
  {
    Facts(r.rev.value, r.session.value.organizer, r.session.value.currentRevision, r.members.value, r.proposals.value,
          r.access, r.failed.value)
  }

  /** `ready_revision` evaluates and reads the revision once more; `require_ready` evaluates again. */
  datatype Phase = First(seen: Reads) | Reread | Second(revision: Revision, seen: Reads)

  datatype Pc =
    | Checking(phase: Phase)
    | Acquiring(revision: Revision, digest: ReadinessDigest)
    | Rechecking(expires: Time, revision: Revision, digest: ReadinessDigest, phase: Phase)
    | Inside(expires: Time, revision: Revision, digest: ReadinessDigest, view: View, failed: seq<Attempt>)
    | Closing(expires: Time)
    | Over

  datatype Guard = Guard(trip: TripId, op: string, operation: PlanningOperation, ttl: Time, pc: Pc)

  /** What the world supplies to one step of a guard: its clock reading, the draft service's failed attempts, and the
      member whose access is read next. */
  datatype Input = Input(now: Time, failed: seq<Attempt>, member: Pid)

  datatype Sys = Sys(db: Db, history: map<TripId, seq<Revision>>, clock: Time, guards: map<nat, Guard>)

  function Current(s: Sys, trip: TripId): Option<Revision> {
    if trip in s.history && s.history[trip] != [] then Some(s.history[trip][|s.history[trip]| - 1]) else None
  }

  datatype PhaseResult = Going(phase: Phase) | Broken | Ready(revision: Revision, digest: ReadinessDigest, failed: seq<Attempt>)

  /** One read; nothing when what it looks for does not exist. */
  ghost function ReadNext(s: Sys, trip: TripId, r: Reads, input: Input): Option<Reads> {
    var v := ViewOf(s.db, trip);
    if r.rev.None? then
      if Current(s, trip).Some? then Some(r.(rev := Current(s, trip))) else None
    else if r.session.None? then
      if v.session.Some? then Some(r.(session := v.session)) else None
    else if r.members.None? then Some(r.(members := Some(v.members)))
    else if r.proposals.None? then Some(r.(proposals := Some(v.proposals)))
    else if r.failed.None? then Some(r.(failed := Some(input.failed)))
    else
      var p := input.member;
      var session := LatestSessionOf(v.access, p);
      if p in r.sessionless then Some(r.(access := r.access[p := StatusByInvitation(LatestInvitationOf(v.access, p), input.now)]))
      else if session.Some? then Some(r.(access := r.access[p := StatusBySession(session.value, input.now)]))
      else Some(r.(sessionless := r.sessionless + {p}))
  }

  ghost function PhaseStep(s: Sys, trip: TripId, phase: Phase, input: Input, care: CarePort): PhaseResult {
    match phase
    case First(r) =>
      if Complete(r) then (if CanPlan(FactsRead(r), care) then Going(Reread) else Broken)
      else if ReadNext(s, trip, r, input).Some? then Going(First(ReadNext(s, trip, r, input).value))
      else Broken
    case Reread =>
      if Current(s, trip).Some? then Going(Second(Current(s, trip).value, NOTHING_READ)) else Broken
    case Second(v, r) =>
      if Complete(r) then
        if CanPlan(FactsRead(r), care) then Ready(v, ReadinessOf(r.rev.value), r.failed.value) else Broken
      else if ReadNext(s, trip, r, input).Some? then Going(Second(v, ReadNext(s, trip, r, input).value))
      else Broken
  }

  /** The store call a guard's next step makes. */
  function GuardCall(g: Guard, input: Input): Option<Call> {
    match g.pc
    case Acquiring(_, digest) => Some(Call(DoAcquire(g.op, g.trip, g.operation, digest, g.ttl), input.now))
    case Closing(expires) => Some(Call(DoComplete(g.op, expires), input.now))
    case _ => None
  }

  ghost function NextPc(s: Sys, g: Guard, input: Input, care: CarePort): Pc {
    match g.pc
    case Checking(phase) =>
      (match PhaseStep(s, g.trip, phase, input, care)
       case Going(next) => Checking(next)
       case Broken => Over
       case Ready(revision, digest, _) => Acquiring(revision, digest))
    case Acquiring(revision, digest) =>
      var reply := Apply(s.db, GuardCall(g, input).value).reply;
      if reply.Permit? then Rechecking(reply.expiresAt, revision, digest, First(NOTHING_READ)) else Over
    case Rechecking(expires, revision, digest, phase) =>
      (match PhaseStep(s, g.trip, phase, input, care)
       case Going(next) => Rechecking(expires, revision, digest, next)
       case Broken => Closing(expires)
       case Ready(leased, again, failed) =>
         if again != digest || leased.revision != revision.revision then Closing(expires)
         else Inside(expires, leased, again, ViewOf(s.db, g.trip), failed))
    case Inside(expires, _, _, _, _) => Closing(expires)
    case Closing(_) => Over
    case Over => Over
  }

  // ---- The system --------------------------------------------------------------------------

  datatype Action =
    | Tick(to: Time)
    | Submit(rev: Revision)
    | Serve(call: Call)
    | Open(id: nat, trip: TripId, op: string, operation: PlanningOperation, ttl: Time)
    | Step(id: nat, input: Input)

  /** The service confirms what it read from the draft service for that participant, and bootstraps from a revision
      the draft service has. */
  ghost predicate FromService(s: Sys, c: Command) {
    match c
    case DoBootstrap(r, _, _) => r.tripId in s.history && r in s.history[r.tripId]
    case DoConfirm(trip, p, conf, _, _) =>
      trip in s.history && exists i, key :: ConfirmedAt(conf, s.history[trip], i, key) && s.history[trip][i].bindings[key] == p
    case DoAcquire(_, _, _, _, _) => false
    case DoComplete(_, _) => false
    case _ => true
  }

  /** A new revision follows the last one: a higher number, the same trip and bindings, and member keys in order. */
  predicate Follows(s: Sys, rev: Revision) {
    && TripDraft.SequentialKeys(rev.understanding.participants)
    && (Current(s, rev.tripId).Some? ==>
          && Current(s, rev.tripId).value.revision < rev.revision
          && Current(s, rev.tripId).value.bindings == rev.bindings)
  }

  ghost predicate Enabled(s: Sys, a: Action) {
    match a
    case Tick(to) => s.clock <= to
    case Submit(rev) => Follows(s, rev)
    case Serve(call) => call.now <= s.clock && Fresh(s.db, call.command) && FromService(s, call.command)
    case Open(id, _, _, _, _) => id !in s.guards
    case Step(id, input) => id in s.guards && input.now <= s.clock
  }

  ghost function StoreCallOf(s: Sys, a: Action): Option<Call>
    requires Enabled(s, a)
  {
    match a
    case Serve(call) => Some(call)
    case Step(id, input) => GuardCall(s.guards[id], input)
    case _ => None
  }

  ghost function DbAfter(s: Sys, a: Action): Db
    requires Enabled(s, a)
  {
    if StoreCallOf(s, a).Some? then Apply(s.db, StoreCallOf(s, a).value).db else s.db
  }

  ghost function GuardsAfter(s: Sys, a: Action, care: CarePort): map<nat, Guard>
    requires Enabled(s, a)
  {
    match a
    case Open(id, trip, op, operation, ttl) =>
      s.guards[id := Guard(trip, op, operation, ttl, Checking(First(NOTHING_READ)))]
    case Step(id, input) =>
      s.guards[id := s.guards[id].(pc := NextPc(s, s.guards[id], input, care))]
    case _ => s.guards
  }

  function HistoryAfter(s: Sys, a: Action): map<TripId, seq<Revision>> {
    match a
    case Submit(rev) =>
      s.history[rev.tripId := (if rev.tripId in s.history then s.history[rev.tripId] else []) + [rev]]
    case _ => s.history
  }

  ghost function After(s: Sys, a: Action, care: CarePort): Sys
    requires Enabled(s, a)
  {
    Sys(DbAfter(s, a), HistoryAfter(s, a), if a.Tick? then a.to else s.clock, GuardsAfter(s, a, care))
  }
}
