/** Who has to confirm again after an edit. */
module Reconfirmation {
  import opened Prelude
  import opened Digests
  import opened HardConflicts
  import opened TripViews
  import opened Readiness
  import opened StoreFrames
  import Store = CollaborationStore
  import TripDraft
  import DraftRevision

  /** The facts `_derive` works from when it reads the view of a trip at one instant. */
  ghost function FactsAt(v: View, rev: Revision, failed: seq<Attempt>, now: Store.Time): Facts
    requires v.session.Some?
  {
    Facts(rev, v.session.value.organizer, v.session.value.currentRevision, v.members, v.proposals,
          map p | p in v.members :: StatusOf(v.access, p, now), failed)
  }

  /** The next revision of a member's own edit: the shared trip, the bindings and every other member are the same. */
  ghost predicate OwnEdit(rev: Revision, next: Revision, key: nat) {
    && rev.revision < next.revision
    && next.bindings == rev.bindings
    && next.understanding.trip == rev.understanding.trip
    && key in rev.bindings
    && forall k :: k in rev.bindings && k != key ==> MemberOf(next, k) == MemberOf(rev, k)
  }

  /** A number no earlier revision carries. */
  ghost predicate Newest(next: Revision, history: seq<Revision>) {
    forall i :: 0 <= i < |history| ==> history[i].revision < next.revision
  }

  /** Merging a member's extracted profile is such an edit. */
  lemma MergeIsOwnEdit(rev: Revision, next: Revision, profile: TripDraft.Proposal, own: nat)
    requires |profile.participants| == 1 && own < |rev.understanding.participants|
    requires TripDraft.SequentialKeys(rev.understanding.participants)
    requires next.understanding == DraftRevision.Merged(rev.understanding, profile, own)
    requires next.bindings == rev.bindings && rev.revision < next.revision
    ensures OwnEdit(rev, next, own + 1)
  {
    var ps, qs := rev.understanding.participants, next.understanding.participants;
    assert ps[own].memberKey == own + 1;
    assert TripDraft.SequentialKeys(qs);
    forall k | k in rev.bindings
      ensures k != own + 1 ==> MemberOf(next, k) == MemberOf(rev, k)
    {
      FirstWithSequentialKey(ps, k);
      FirstWithSequentialKey(qs, k);
    }
  }

  // ---- What advance and confirm do to the view -----------------------------------------------

  lemma AdvanceView(db: Store.Db, c: Store.Call)
    requires c.command.DoAdvance? && Commits(db, c)
    ensures var v, w := ViewOf(db, c.command.trip), ViewOf(Store.Apply(db, c).db, c.command.trip);
      && v.session.Some? && w.session.Some?
      && w.session.value.organizer == v.session.value.organizer
      && w.session.value.currentRevision == c.command.after
      && w.members == v.members && w.access == v.access && w.proposals == v.proposals
  {
    hide Commits, Store.Apply;
    AdvanceBumps(db, c);
    WritesOnlyFootprint(db, c);
  }

  lemma ConfirmWrites(db: Store.Db, c: Store.Call)
    requires c.command.DoConfirm? && Commits(db, c)
    ensures c.command.trip in db.members && c.command.participant in db.members[c.command.trip]
    ensures c.command.trip in Store.Apply(db, c).db.members
    ensures var rows := db.members[c.command.trip];
      Store.Apply(db, c).db.members[c.command.trip] ==
      rows[c.command.participant := rows[c.command.participant].(confirmation := Some(c.command.confirmation))]
  {
    hide Store.HasActiveLease, Store.Recall;
  }

  lemma ConfirmView(db: Store.Db, c: Store.Call)
    requires c.command.DoConfirm? && Commits(db, c)
    ensures var v, w := ViewOf(db, c.command.trip), ViewOf(Store.Apply(db, c).db, c.command.trip);
      && v.session.Some? && w.session.Some?
      && w.session.value.organizer == v.session.value.organizer
      && w.session.value.currentRevision == v.session.value.currentRevision
      && c.command.participant in v.members
      && w.members == v.members[c.command.participant :=
           v.members[c.command.participant].(confirmation := Some(c.command.confirmation))]
      && w.access == v.access && w.proposals == v.proposals
  {
    hide Commits, Store.Apply;
    ConfirmBumps(db, c);
    ConfirmWrites(db, c);
    WritesOnlyFootprint(db, c);
  }

  // ---- Selective reconfirmation ------------------------------------------------------------

  /** The rows after one member's edit and reconfirmation. */
  lemma RowsAfterEdit(rev: Revision, next: Revision, key: nat, members: map<Store.Pid, Store.Member>, history: seq<Revision>)
    requires RowsConsistent(rev, members, history) && OwnEdit(rev, next, key) && Newest(next, history)
    requires rev.bindings[key] in members
    ensures var p := rev.bindings[key];
      RowsConsistent(next, members[p := members[p].(confirmation := Some(ConfirmationOf(next, key)))], history + [next])
  {
    var p := rev.bindings[key];
    var after := members[p := members[p].(confirmation := Some(ConfirmationOf(next, key)))];
    forall q | q in after
      ensures exists k :: RowFor(next, after, history + [next], q, k)
    {
      var k :| RowFor(rev, members, history, q, k);
      if q == p {
        assert k == key;
        assert ConfirmedAt(after[q].confirmation.value, history + [next], |history|, k);
      } else if after[q].confirmation.Some? {
        var i :| ConfirmedAt(members[q].confirmation.value, history, i, k);
        assert ConfirmedAt(after[q].confirmation.value, history + [next], i, k);
      }
      assert RowFor(next, after, history + [next], q, k);
    }
  }

  lemma EveryoneStillAgrees(f: Facts, g: Facts, key: nat)
    requires EveryoneAgrees(f) && OwnEdit(f.rev, g.rev, key)
    requires f.rev.bindings[key] in f.members
    requires var p := f.rev.bindings[key];
      g.members == f.members[p := f.members[p].(confirmation := Some(ConfirmationOf(g.rev, key)))]
    requires forall k :: k in g.rev.bindings ==>
      !RelevantFailure(g.failed, g.rev.bindings[k]) && (Withdrawn(g, g.rev.bindings[k]) ==> Withdrawn(f, g.rev.bindings[k]))
    ensures EveryoneAgrees(g) && SomeoneConfirmedExactly(g)
  {
    hide MemberOf;
    assert SharedOf(f.rev) == SharedOf(g.rev);
    forall k | k in g.rev.bindings
      ensures Agrees(g, k)
    {
      assert Agrees(f, k);
      assert k != key ==> g.rev.bindings[k] != g.rev.bindings[key];
    }
    assert ConfirmedExactly(g, key);
  }

  lemma StillNotWithdrawn(v: View, w: View, rev: Revision, next: Revision, failed: seq<Attempt>, failedLater: seq<Attempt>,
                          now: Store.Time, later: Store.Time, p: Store.Pid)
    requires v.session.Some? && w.session.Some? && v.access == w.access && v.members.Keys == w.members.Keys
    requires v.session.value.organizer == w.session.value.organizer
    ensures Withdrawn(FactsAt(w, next, failedLater, later), p) <==> Withdrawn(FactsAt(v, rev, failed, now), p)
  {
    WithdrawnIsTimeless(v.access, p, now, later);
  }

  /** From any state that may plan: once a member's own edit has advanced the revision, and it raised no issue and left
      no failed attempt, that member's single confirmation makes planning possible again; nobody else's row changed. */
  lemma OneReconfirmationSuffices(
    db: Store.Db, advance: Store.Call, confirm: Store.Call, rev: Revision, next: Revision, key: nat,
    history: seq<Revision>, failed: seq<Attempt>, failedLater: seq<Attempt>, now: Store.Time, later: Store.Time, care: CarePort)
    requires advance.command.DoAdvance? && Commits(db, advance)
    requires advance.command.trip in db.sessions
    requires var v := ViewOf(db, advance.command.trip);
      RowsConsistent(rev, v.members, history) && CanPlan(FactsAt(v, rev, failed, now), care)
    requires OwnEdit(rev, next, key) && Newest(next, history)
    requires TripDraft.SequentialKeys(rev.understanding.participants) && TripDraft.SequentialKeys(next.understanding.participants)
    requires advance.command.after == next.revision
    requires var after := Store.Apply(db, advance).db;
      && confirm.command.DoConfirm? && Commits(after, confirm)
      && confirm.command.trip == advance.command.trip
      && confirm.command.participant == next.bindings[key]
      && confirm.command.confirmation == ConfirmationOf(next, key)
    requires ConflictFree(next, Some(ViewOf(db, advance.command.trip).session.value.organizer), care)
    requires forall k :: k in next.bindings ==> !RelevantFailure(failedLater, next.bindings[k])
    ensures var v, w := ViewOf(db, advance.command.trip),
                        ViewOf(Store.Apply(Store.Apply(db, advance).db, confirm).db, advance.command.trip);
      && w.session.Some?
      && CanPlan(FactsAt(w, next, failedLater, later), care)
      && forall k :: k in rev.bindings && k != key && rev.bindings[k] in v.members ==>
           rev.bindings[k] in w.members && w.members[rev.bindings[k]] == v.members[rev.bindings[k]]
  {
    hide Store.Apply, Commits, ViewOf, FactsAt, CanPlan, RowsConsistent, ConflictFree, RelevantFailure, MemberOf, ConfirmationOf,
         TripDraft.SequentialKeys, Newest;
    var trip := advance.command.trip;
    var v := ViewOf(db, trip);
    var middle := Store.Apply(db, advance).db;
    var end := Store.Apply(middle, confirm).db;
    var w := ViewOf(end, trip);
    AdvanceView(db, advance);
    ConfirmView(middle, confirm);
    ViewsAfterEdit(v, w, rev, next, key, history, failed, failedLater, now, later, care);
  }

  /** The same on the views alone. */
  lemma ViewsAfterEdit(
    v: View, w: View, rev: Revision, next: Revision, key: nat, history: seq<Revision>,
    failed: seq<Attempt>, failedLater: seq<Attempt>, now: Store.Time, later: Store.Time, care: CarePort)
    requires v.session.Some? && w.session.Some? && w.session.value.organizer == v.session.value.organizer
    requires RowsConsistent(rev, v.members, history) && CanPlan(FactsAt(v, rev, failed, now), care)
    requires OwnEdit(rev, next, key) && Newest(next, history)
    requires TripDraft.SequentialKeys(rev.understanding.participants) && TripDraft.SequentialKeys(next.understanding.participants)
    requires w.session.value.currentRevision == next.revision
    requires rev.bindings[key] in v.members
    requires w.members == v.members[rev.bindings[key] :=
               v.members[rev.bindings[key]].(confirmation := Some(ConfirmationOf(next, key)))]
    requires w.access == v.access && w.proposals == v.proposals
    requires ConflictFree(next, Some(v.session.value.organizer), care)
    requires forall k :: k in next.bindings ==> !RelevantFailure(failedLater, next.bindings[k])
    ensures CanPlan(FactsAt(w, next, failedLater, later), care)
    ensures forall k :: k in rev.bindings && k != key && rev.bindings[k] in v.members ==>
      rev.bindings[k] in w.members && w.members[rev.bindings[k]] == v.members[rev.bindings[k]]
  {
    hide ConflictFree, CanPlan, RowsConsistent, RelevantFailure, MemberOf, EveryoneAgrees, SomeoneConfirmedExactly, StatusOf,
         TripDraft.SequentialKeys, HasPending, ConfirmationOf, Withdrawn;
    var f, g := FactsAt(v, rev, failed, now), FactsAt(w, next, failedLater, later);
    CanPlanIff(f, care, history);
    RowsAfterEdit(rev, next, key, v.members, history);
    forall k | k in next.bindings
      ensures Withdrawn(g, next.bindings[k]) ==> Withdrawn(f, next.bindings[k])
    {
      StillNotWithdrawn(v, w, rev, next, failed, failedLater, now, later, next.bindings[k]);
    }
    EveryoneStillAgrees(f, g, key);
    CanPlanIff(g, care, history + [next]);
  }

  /** Until somebody confirms the new revision, no edit leaves the trip ready. */
  lemma EditNeedsReconfirmation(f: Facts, next: Revision, history: seq<Revision>, care: CarePort)
    requires RowsConsistent(f.rev, f.members, history) && Newest(next, history) && next.bindings == f.rev.bindings
    ensures !CanPlan(f.(rev := next), care)
  {
    hide Evaluate, SharedOf, MemberOf, HasPending, AllConfirmed;
    forall p | p in f.members && f.members[p].confirmation.Some?
      ensures f.members[p].confirmation.value.revision != next.revision
      ensures f.members[p].confirmation.value.source != SourceOf(next)
    {
      var key :| RowFor(f.rev, f.members, history, p, key);
      var i :| ConfirmedAt(f.members[p].confirmation.value, history, i, key);
    }
    assert f.members == map[] || exists p :: p in f.members;
  }

  /** A real change of the shared trip leaves no member confirmed, whatever issues and attempts there are. */
  lemma SharedChangeUnconfirmsEveryone(f: Facts, next: Revision, issues: seq<Issue>, key: nat)
    requires EveryoneAgrees(f) && next.bindings == f.rev.bindings
    requires next.understanding.trip != f.rev.understanding.trip
    requires key in next.bindings
    ensures StatusOfMember(f.(rev := next), issues, key) == NeedsReconfirmation
  {
    assert Agrees(f, key);
  }
}
