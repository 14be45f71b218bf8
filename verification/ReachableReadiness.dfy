/** In every reachable state the stored rows belong to the trip's draft revisions, so the readiness test means what it
    should. */
module ReachableReadiness {
  import opened Prelude
  import opened Digests
  import opened HardConflicts
  import opened CollaborationStore
  import opened StoreFrames
  import opened TripViews
  import opened Readiness
  import opened Reconfirmation
  import opened ReadinessGuard
  import opened GuardRevisions
  import opened GuardFreeze

  ghost predicate RowsInv(s: Sys) {
    && HistoryInv(s)
    && forall trip :: trip in s.db.sessions ==> TripRows(s.db.members, s.history, trip)
  }

  ghost predicate TripRows(members: map<TripId, map<Pid, Member>>, history: map<TripId, seq<Revision>>, trip: TripId) {
    && trip in members && trip in history
    && forall i :: 0 <= i < |history[trip]| ==> RowsConsistent(history[trip][i], members[trip], history[trip])
  }

  // ---- Bootstrap ---------------------------------------------------------------------------

  /** The rows bootstrap inserts for the first n members are exactly those members' rows, unconfirmed. */
  lemma {:induction false} BoundMembersRows(r: Revision, n: nat)
    requires n <= |r.understanding.participants|
    ensures forall p :: p in BoundMembers(r, n) <==> exists i :: BoundAt(r, n, i, p)
    ensures forall p :: p in BoundMembers(r, n) ==> BoundMembers(r, n)[p].confirmation.None?
  {
    if n > 0 {
      BoundMembersRows(r, n - 1);
      var was, now := BoundMembers(r, n - 1), BoundMembers(r, n);
      forall p
        ensures p in now <==> exists i :: BoundAt(r, n, i, p)
      {
        if p in was {
          var i :| BoundAt(r, n - 1, i, p);
          assert BoundAt(r, n, i, p);
        }
        if p in now && p !in was {
          assert BoundAt(r, n, n - 1, p);
        }
        if i :| BoundAt(r, n, i, p) {
          assert i == n - 1 || BoundAt(r, n - 1, i, p);
        }
      }
    }
  }

  predicate BoundAt(r: Revision, n: nat, i: int, p: Pid)
    requires n <= |r.understanding.participants|
  {
    0 <= i < n
    && r.understanding.participants[i].memberKey in r.bindings
    && r.bindings[r.understanding.participants[i].memberKey] == p
  }

  lemma BoundKeyHasRow(r: Revision, key: nat)
    requires key in r.bindings
    ensures r.bindings[key] in BoundMembers(r, |r.understanding.participants|)
  {
    var n := |r.understanding.participants|;
    BoundMembersRows(r, n);
    hide BoundMembers;
    var i :| 0 <= i < n && r.understanding.participants[i].memberKey == key;
    assert BoundAt(r, n, i, r.bindings[key]);
  }

  lemma BoundRowHasKey(r: Revision, p: Pid) returns (key: nat)
    requires p in BoundMembers(r, |r.understanding.participants|)
    ensures key in r.bindings && r.bindings[key] == p
    ensures BoundMembers(r, |r.understanding.participants|)[p].confirmation.None?
  {
    var n := |r.understanding.participants|;
    BoundMembersRows(r, n);
    hide BoundMembers;
    var i :| BoundAt(r, n, i, p);
    key := r.understanding.participants[i].memberKey;
  }

  lemma ChainAgrees(trip: TripId, history: seq<Revision>, a: Revision, b: Revision)
    requires Chain(trip, history) && a in history && b in history
    ensures a.bindings == b.bindings && (a.revision == b.revision ==> a == b)
  {
  }

  lemma BootstrapRowsConsistent(r: Revision, rev: Revision, history: seq<Revision>)
    requires r in history && rev in history && Chain(rev.tripId, history)
    ensures RowsConsistent(rev, BoundMembers(r, |r.understanding.participants|), history)
  {
    hide BoundMembers, Chain;
    var rows := BoundMembers(r, |r.understanding.participants|);
    ChainAgrees(rev.tripId, history, r, rev);
    forall i | 0 <= i < |history|
      ensures history[i].bindings == rev.bindings && (history[i].revision == rev.revision ==> history[i] == rev)
    {
      ChainAgrees(rev.tripId, history, history[i], rev);
    }
    forall key | key in rev.bindings
      ensures rev.bindings[key] in rows
    {
      BoundKeyHasRow(r, key);
    }
    forall p | p in rows
      ensures exists key :: RowFor(rev, rows, history, p, key)
    {
      var key := BoundRowHasKey(r, p);
      assert RowFor(rev, rows, history, p, key);
    }
  }

  // ---- Confirmations and submissions -------------------------------------------------------

  lemma ConfirmedRowsConsistent(
    rev: Revision, rows: map<Pid, Member>, history: seq<Revision>, p: Pid, c: Confirmation, i: int, key: nat)
    requires RowsConsistent(rev, rows, history) && p in rows
    requires ConfirmedAt(c, history, i, key) && history[i].bindings[key] == p
    ensures RowsConsistent(rev, rows[p := rows[p].(confirmation := Some(c))], history)
  {
    var after := rows[p := rows[p].(confirmation := Some(c))];
    forall q | q in after
      ensures exists k :: RowFor(rev, after, history, q, k)
    {
      if q == p {
        assert RowFor(rev, after, history, q, key);
      } else {
        var k :| RowFor(rev, rows, history, q, k);
        assert RowFor(rev, after, history, q, k);
      }
    }
  }

  lemma LongerHistoryConsistent(rev: Revision, older: Revision, rows: map<Pid, Member>, history: seq<Revision>, next: Revision)
    requires RowsConsistent(older, rows, history) && older in history
    requires Chain(next.tripId, history + [next])
    requires rev in history + [next]
    ensures RowsConsistent(rev, rows, history + [next])
  {
    var longer := history + [next];
    assert older in longer && longer[0].bindings == older.bindings;
    forall q | q in rows
      ensures exists k :: RowFor(rev, rows, longer, q, k)
    {
      var k :| RowFor(older, rows, history, q, k);
      if rows[q].confirmation.Some? {
        var i :| ConfirmedAt(rows[q].confirmation.value, history, i, k);
        assert ConfirmedAt(rows[q].confirmation.value, longer, i, k);
      }
      assert RowFor(rev, rows, longer, q, k);
    }
  }

  // ---- Steps -------------------------------------------------------------------------------

  lemma SubmitKeepsRows(s: Sys, rev: Revision, trip: TripId)
    requires RowsInv(s) && Enabled(s, Submit(rev)) && trip in s.db.sessions
    ensures TripRows(s.db.members, HistoryAfter(s, Submit(rev)), trip)
  {
    hide RowsConsistent, Follows;
    StepKeepsHistory(s, Submit(rev));
    assert TripRows(s.db.members, s.history, trip);
    if rev.tripId == trip {
      var history := s.history[trip];
      assert Chain(trip, history);
      forall i | 0 <= i < |history + [rev]|
        ensures RowsConsistent((history + [rev])[i], s.db.members[trip], history + [rev])
      {
        LongerHistoryConsistent((history + [rev])[i], history[0], s.db.members[trip], history, rev);
      }
    }
  }

  lemma BootstrapWrites(db: Db, c: Call)
    requires c.command.DoBootstrap? && Commits(db, c)
    ensures Apply(db, c).db.members ==
            db.members[c.command.revision.tripId := BoundMembers(c.command.revision, |c.command.revision.understanding.participants|)]
  {
    hide HasActiveLease, Recall, BoundMembers;
  }

  lemma BootstrapKeepsRows(s: Sys, c: Call, trip: TripId)
    requires RowsInv(s) && Enabled(s, Serve(c)) && c.command.DoBootstrap? && Commits(s.db, c)
    requires trip in Apply(s.db, c).db.sessions
    ensures TripRows(Apply(s.db, c).db.members, s.history, trip)
  {
    hide Apply, Commits, RowsConsistent, BoundMembers, Fresh;
    BootstrapAdds(s.db, c);
    BootstrapWrites(s.db, c);
    var r := c.command.revision;
    if trip == r.tripId {
      assert Chain(trip, s.history[trip]);
      forall i | 0 <= i < |s.history[trip]|
        ensures RowsConsistent(s.history[trip][i], BoundMembers(r, |r.understanding.participants|), s.history[trip])
      {
        BootstrapRowsConsistent(r, s.history[trip][i], s.history[trip]);
      }
    } else {
      assert TripRows(s.db.members, s.history, trip);
    }
  }

  lemma ConfirmKeepsOwnRows(s: Sys, c: Call)
    requires RowsInv(s) && Enabled(s, Serve(c)) && c.command.DoConfirm? && Commits(s.db, c)
    requires c.command.trip in s.db.sessions
    ensures TripRows(Apply(s.db, c).db.members, s.history, c.command.trip)
  {
    hide Apply, Commits, RowsConsistent, Fresh, HistoryInv;
    ConfirmWrites(s.db, c);
    var trip := c.command.trip;
    assert TripRows(s.db.members, s.history, trip);
    var j, key :| ConfirmedAt(c.command.confirmation, s.history[trip], j, key) && s.history[trip][j].bindings[key] == c.command.participant;
    forall i | 0 <= i < |s.history[trip]|
      ensures RowsConsistent(s.history[trip][i], Apply(s.db, c).db.members[trip], s.history[trip])
    {
      ConfirmedRowsConsistent(s.history[trip][i], s.db.members[trip], s.history[trip], c.command.participant,
                              c.command.confirmation, j, key);
    }
  }

  lemma ConfirmKeepsRows(s: Sys, c: Call, trip: TripId)
    requires RowsInv(s) && Enabled(s, Serve(c)) && c.command.DoConfirm? && Commits(s.db, c)
    requires trip in Apply(s.db, c).db.sessions
    ensures TripRows(Apply(s.db, c).db.members, s.history, trip)
  {
    hide Apply, Commits, RowsConsistent, Fresh, HistoryInv, FromService;
    ConfirmBumps(s.db, c);
    if trip == c.command.trip {
      ConfirmKeepsOwnRows(s, c);
    } else {
      assert TripRows(s.db.members, s.history, trip);
      ConfirmWritesElsewhere(s.db, c, trip);
    }
  }

  lemma ConfirmWritesElsewhere(db: Db, c: Call, trip: TripId)
    requires c.command.DoConfirm? && Commits(db, c) && trip != c.command.trip && trip in db.members
    ensures trip in Apply(db, c).db.members && Apply(db, c).db.members[trip] == db.members[trip]
  {
    hide HasActiveLease, Recall;
  }

  lemma OtherCallsKeepRows(db: Db, c: Call)
    requires !c.command.DoBootstrap? && !c.command.DoConfirm?
    ensures Apply(db, c).db.members == db.members && Apply(db, c).db.sessions.Keys == db.sessions.Keys
  {
    hide Apply, Commits;
    WritesOnlyFootprint(db, c);
    if !Commits(db, c) {
      OnlyCommitsWrite(db, c);
    } else if Versioned(c.command) {
      VersionedBump(db, c);
    }
  }

  lemma CallKeepsRows(s: Sys, a: Action, trip: TripId)
    requires RowsInv(s) && Enabled(s, a) && StoreCallOf(s, a).Some?
    requires trip in DbAfter(s, a).sessions
    ensures TripRows(DbAfter(s, a).members, s.history, trip)
  {
    hide Apply, Commits, TripRows, HistoryInv, FromService;
    var c := StoreCallOf(s, a).value;
    if !Commits(s.db, c) {
      OnlyCommitsWrite(s.db, c);
    } else if c.command.DoBootstrap? {
      BootstrapKeepsRows(s, c, trip);
    } else if c.command.DoConfirm? {
      ConfirmKeepsRows(s, c, trip);
    } else {
      OtherCallsKeepRows(s.db, c);
    }
  }

  lemma StepKeepsRows(s: Sys, a: Action, care: CarePort)
    requires RowsInv(s) && Enabled(s, a)
    ensures RowsInv(After(s, a, care))
  {
    hide TripRows, Apply, Enabled, GuardsAfter;
    StepKeepsHistory(s, a);
    forall trip | trip in DbAfter(s, a).sessions
      ensures TripRows(DbAfter(s, a).members, HistoryAfter(s, a), trip)
    {
      if StoreCallOf(s, a).Some? {
        CallKeepsRows(s, a, trip);
      } else if a.Submit? {
        SubmitKeepsRows(s, a.rev, trip);
      }
    }
  }

  lemma {:induction false} RunKeepsRows(s: Sys, actions: seq<Action>, care: CarePort)
    requires RowsInv(s) && EnabledRun(s, actions, care)
    ensures RowsInv(RunOf(s, actions, care))
    decreases |actions|
  {
    hide RowsInv, Enabled, After;
    if actions != [] {
      StepKeepsRows(s, actions[0], care);
      RunKeepsRows(After(s, actions[0], care), actions[1..], care);
    }
  }

  // ---- What readiness means ----------------------------------------------------------------

  /** In every state of every run, for any revision the draft service has for the trip: planning is allowed exactly when
      the evaluator's facts hold of it, nothing is pending, the store is at that revision, every member's confirmation
      matches its trip and the member's own part with nobody withdrawn, and at least one member confirmed exactly it. */
  lemma CanPlanInEveryRun(
    clock: Time, actions: seq<Action>, care: CarePort, trip: TripId, rev: Revision, failed: seq<Attempt>, now: Time)
    requires EnabledRun(Initial(clock), actions, care)
    requires var s := RunOf(Initial(clock), actions, care); trip in s.db.sessions && Had(s, trip, rev)
    ensures var s := RunOf(Initial(clock), actions, care);
      var f := FactsAt(ViewOf(s.db, trip), rev, failed, now);
      CanPlan(f, care) <==>
        && ConflictFree(rev, Some(s.db.sessions[trip].organizer), care)
        && !HasPending(f.proposals)
        && s.db.sessions[trip].currentRevision == rev.revision
        && EveryoneAgrees(f)
        && SomeoneConfirmedExactly(f)
  {
    hide EnabledRun, RunOf, RowsConsistent, ConflictFree, CanPlan, EveryoneAgrees, SomeoneConfirmedExactly, StatusOf, HasPending;
    InitialRows(clock);
    RunKeepsRows(Initial(clock), actions, care);
    var s := RunOf(Initial(clock), actions, care);
    assert TripRows(s.db.members, s.history, trip);
    assert Chain(trip, s.history[trip]);
    var f := FactsAt(ViewOf(s.db, trip), rev, failed, now);
    CanPlanIff(f, care, s.history[trip]);
  }

  lemma InitialRows(clock: Time)
    ensures RowsInv(Initial(clock))
  {
  }

  /** While the draft service is ahead of the store, nobody may plan with the new revision. */
  lemma NotReadyWhileRevisionsDisagree(s: Sys, care: CarePort, trip: TripId, rev: Revision, failed: seq<Attempt>, now: Time)
    requires trip in s.db.sessions && s.db.sessions[trip].currentRevision != rev.revision
    ensures !CanPlan(FactsAt(ViewOf(s.db, trip), rev, failed, now), care)
    ensures StageOf(FactsAt(ViewOf(s.db, trip), rev, failed, now), care) != ReadyToPlan
  {
    hide Evaluate, AllConfirmed, SourceReady, StatusOf, InvitationsOf, SessionsOf, ProposalsOf;
  }
}
