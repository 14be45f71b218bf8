/** Leases over whole runs: permits are never repeated, and at most one lease of a trip is active at a time. */
module LeaseLaws {
  import opened Prelude
  import opened CollaborationStore
  import opened StoreFrames
  import opened VersionLaws

  // ---- Fencing: no clock is trusted --------------------------------------------------------

  /** A lease row stays, stays with its trip, digest and operation, and never expires earlier than before. */
  ghost predicate LeasesOnlyExtend(a: Db, b: Db) {
    forall op :: op in a.leases ==>
      && op in b.leases
      && b.leases[op].trip == a.leases[op].trip
      && b.leases[op].digest == a.leases[op].digest
      && b.leases[op].operation == a.leases[op].operation
      && a.leases[op].expiresAt <= b.leases[op].expiresAt
  }

  /** The effect of a granted permit: it is newer than every earlier generation of the same operation id. */
  ghost predicate Grants(db: Db, after: Db, c: Command, expiresAt: Time)
    requires c.DoAcquire?
  {
    && (c.op in db.leases ==> db.leases[c.op].expiresAt < expiresAt && db.leases[c.op].completedAt.Some?)
    && (c.op in db.leases ==>
          && db.leases[c.op].trip == c.trip && db.leases[c.op].digest == c.digest && db.leases[c.op].operation == c.operation)
    && after.leases == db.leases[c.op := Lease(c.trip, c.digest, c.operation, expiresAt, None)]
  }

  lemma AcquireShape(db: Db, c: Call)
    requires c.command.DoAcquire?
    ensures Commits(db, c) <==> Apply(db, c).reply.Permit?
    ensures Commits(db, c) ==>
      && Apply(db, c).reply.operationId == c.command.op
      && Grants(db, Apply(db, c).db, c.command, Apply(db, c).reply.expiresAt)
      && c.now + c.command.ttl <= Apply(db, c).reply.expiresAt
      && !HasActiveLease(db, c.command.trip, c.now)
  {
    hide HasActiveLease;
  }

  lemma CompleteShape(db: Db, c: Call)
    requires c.command.DoComplete?
    ensures var after := Apply(db, c).db;
      if c.command.op in db.leases && db.leases[c.command.op].expiresAt == c.command.expiresAt
         && db.leases[c.command.op].completedAt.None?
      then after == db.(leases := db.leases[c.command.op := db.leases[c.command.op].(completedAt := Some(c.now))])
      else after == db
  {
  }

  lemma StepExtendsLeases(db: Db, c: Call)
    ensures LeasesOnlyExtend(db, Apply(db, c).db)
  {
    hide Apply, Commits;
    if c.command.DoAcquire? {
      AcquireShape(db, c);
      if !Commits(db, c) {
        OnlyCommitsWrite(db, c);
      }
    } else if c.command.DoComplete? {
      CompleteShape(db, c);
    } else {
      WritesOnlyFootprint(db, c);
    }
  }

  lemma {:induction false} RunExtendsLeases(db: Db, calls: seq<Call>)
    ensures LeasesOnlyExtend(db, Run(db, calls))
    decreases |calls|
  {
    hide Apply;
    if calls != [] {
      StepExtendsLeases(db, calls[0]);
      RunExtendsLeases(Apply(db, calls[0]).db, calls[1..]);
    }
  }

  /** The state between two calls of a run. */
  lemma RunBetween(db: Db, calls: seq<Call>, i: nat, j: nat)
    requires i < j <= |calls|
    ensures Run(db, calls[..j]) == Run(Apply(Run(db, calls[..i]), calls[i]).db, calls[i + 1..j])
  {
    hide Apply, Run;
    assert calls[..j] == calls[..i + 1] + calls[i + 1..j];
    RunAppend(db, calls[..i + 1], calls[i + 1..j]);
    assert calls[..i + 1] == calls[..i] + [calls[i]];
    RunAppend(db, calls[..i], [calls[i]]);
    RunOne(Run(db, calls[..i]), calls[i]);
  }

  /** A permit handed out in a run: call i acquired `op` until `expiresAt`. */
  ghost predicate Permitted(db: Db, calls: seq<Call>, i: nat, op: string, expiresAt: Time)
    requires i < |calls|
  {
    && calls[i].command.DoAcquire?
    && Apply(Run(db, calls[..i]), calls[i]).reply == Permit(op, expiresAt)
  }

  lemma PermitIsStored(db: Db, calls: seq<Call>, i: nat, j: nat, op: string, expiresAt: Time)
    requires i < j <= |calls| && Permitted(db, calls, i, op, expiresAt)
    ensures var later := Run(db, calls[..j]);
      op in later.leases && expiresAt <= later.leases[op].expiresAt
  {
    hide Apply, Run, Commits;
    var before := Run(db, calls[..i]);
    AcquireShape(before, calls[i]);
    RunBetween(db, calls, i, j);
    RunExtendsLeases(Apply(before, calls[i]).db, calls[i + 1..j]);
  }

  /** In every run, whatever the clocks say, a later permit for the same operation expires strictly later: no two
      permits are ever equal. */
  lemma PermitsAscend(db: Db, calls: seq<Call>, i: nat, j: nat, op: string, first: Time, second: Time)
    requires i < j < |calls|
    requires Permitted(db, calls, i, op, first) && Permitted(db, calls, j, op, second)
    ensures first < second
  {
    hide Apply, Run, Commits;
    PermitIsStored(db, calls, i, j, op, first);
    AcquireShape(Run(db, calls[..j]), calls[j]);
  }

  /** A completion that quotes an older permit never ends a newer lease: it changes nothing. */
  lemma LateCompletionChangesNothing(
    db: Db, calls: seq<Call>, i: nat, j: nat, k: nat, op: string, first: Time, second: Time, now: Time)
    requires i < j < k <= |calls|
    requires Permitted(db, calls, i, op, first) && Permitted(db, calls, j, op, second)
    ensures var later := Run(db, calls[..k]);
      Apply(later, Call(DoComplete(op, first), now)).db == later
  {
    hide Apply, Run, Commits;
    PermitsAscend(db, calls, i, j, op, first, second);
    PermitIsStored(db, calls, j, k, op, second);
    CompleteShape(Run(db, calls[..k]), Call(DoComplete(op, first), now));
  }

  // ---- Exclusion: the commit clock never goes back -----------------------------------------

  /** A call with the instant its transaction commits; the reading it carries was taken no later. */
  datatype Stamped = Stamped(call: Call, committed: Time)

  predicate Clocked(last: Time, calls: seq<Stamped>)
    decreases |calls|
  {
    calls != [] ==>
      && last <= calls[0].committed
      && calls[0].call.now <= calls[0].committed
      && Clocked(calls[0].committed, calls[1..])
  }

  function RunStamped(db: Db, calls: seq<Stamped>): Db
    decreases |calls|
  {
    if calls == [] then db else RunStamped(Apply(db, calls[0].call).db, calls[1..])
  }

  /** The instant of the last commit. */
  function LastCommit(last: Time, calls: seq<Stamped>): Time
    decreases |calls|
  {
    if calls == [] then last else LastCommit(calls[0].committed, calls[1..])
  }

  /** From instant t on, no two leases of one trip are active together. */
  ghost predicate ExclusiveFrom(db: Db, t: Time) {
    forall p, q :: p in db.leases && q in db.leases && p != q && db.leases[p].trip == db.leases[q].trip
      ==> !(db.leases[p].ActiveAt(t) && db.leases[q].ActiveAt(t))
  }

  lemma StepKeepsExclusion(db: Db, c: Call, last: Time, committed: Time)
    requires ExclusiveFrom(db, last) && last <= committed && c.now <= committed
    ensures ExclusiveFrom(Apply(db, c).db, committed)
  {
    hide Apply, Commits;
    if c.command.DoAcquire? {
      AcquireShape(db, c);
      if !Commits(db, c) {
        OnlyCommitsWrite(db, c);
      }
    } else if c.command.DoComplete? {
      CompleteShape(db, c);
    } else {
      WritesOnlyFootprint(db, c);
    }
  }

  /** With a commit clock that never goes back, at every instant after any run at most one lease per trip is active,
      although each call tests the leases with a reading taken before its commit. */
  lemma {:induction false} LeasesExclusive(db: Db, calls: seq<Stamped>, last: Time, t: Time)
    requires ExclusiveFrom(db, last) && Clocked(last, calls)
    requires LastCommit(last, calls) <= t
    ensures ExclusiveFrom(RunStamped(db, calls), t)
    decreases |calls|
  {
    hide Apply;
    if calls != [] {
      StepKeepsExclusion(db, calls[0].call, last, calls[0].committed);
      LeasesExclusive(Apply(db, calls[0].call).db, calls[1..], calls[0].committed, t);
    }
  }
}
