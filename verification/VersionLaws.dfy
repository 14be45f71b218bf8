/** The collaboration version and the stored draft revision over whole runs: no lost updates. */
module VersionLaws {
  import opened CollaborationStore
  import opened StoreFrames

  /** The call is a first-time success of one of the six versioned mutations of this trip. */
  predicate Updates(db: Db, c: Call, trip: TripId) {
    Versioned(c.command) && c.command.trip == trip && Commits(db, c)
  }

  /** How many calls of a run update the trip. */
  function UpdateCount(db: Db, calls: seq<Call>, trip: TripId): nat
    decreases |calls|
  {
    if calls == [] then 0
    else (if Updates(db, calls[0], trip) then 1 else 0) + UpdateCount(Apply(db, calls[0]).db, calls[1..], trip)
  }

  /** Over any run the version of a trip grows by one for each update of it and by nothing else; the stored revision
      never goes back. */
  lemma {:induction false} VersionCountsUpdates(db: Db, calls: seq<Call>, trip: TripId)
    requires trip in db.sessions
    ensures trip in Run(db, calls).sessions
    ensures Run(db, calls).sessions[trip].version == db.sessions[trip].version + UpdateCount(db, calls, trip)
    ensures db.sessions[trip].currentRevision <= Run(db, calls).sessions[trip].currentRevision
    decreases |calls|
  {
    hide Apply, Commits, Versioned;
    if calls != [] {
      SessionRowsStep(db, calls[0], trip);
      if Updates(db, calls[0], trip) {
        VersionedBump(db, calls[0]);
      }
      VersionCountsUpdates(Apply(db, calls[0]).db, calls[1..], trip);
    }
  }

  /** Of two updates of one trip in a run, the later quotes a strictly larger expected version: at most one first-time
      success per expected version. */
  lemma ExpectedVersionsAscend(db: Db, calls: seq<Call>, trip: TripId, i: nat, j: nat)
    requires i < j < |calls|
    requires Updates(Run(db, calls[..i]), calls[i], trip)
    requires Updates(Run(db, calls[..j]), calls[j], trip)
    ensures calls[i].command.expectedVersion < calls[j].command.expectedVersion
  {
    hide Apply, Commits, Run;
    var before := Run(db, calls[..i]);
    VersionedBump(before, calls[i]);
    SessionRowsStep(before, calls[i], trip);
    assert calls[..j] == calls[..i + 1] + calls[i + 1..j];
    RunAppend(db, calls[..i + 1], calls[i + 1..j]);
    assert calls[..i + 1] == calls[..i] + [calls[i]];
    RunAppend(db, calls[..i], [calls[i]]);
    RunOne(before, calls[i]);
    VersionCountsUpdates(Apply(before, calls[i]).db, calls[i + 1..j], trip);
    VersionedBump(Run(db, calls[..j]), calls[j]);
  }

  lemma RunOne(db: Db, c: Call)
    ensures Run(db, [c]) == Apply(db, c).db
  {
    assert [c][1..] == [];
    assert Run(Apply(db, c).db, []) == Apply(db, c).db;
    hide Apply;
  }

  /** The stored revision of a trip changes only in a committed `advance_revision` for that revision, and upward. */
  lemma RevisionMovesOnlyByAdvance(db: Db, c: Call, trip: TripId)
    requires trip in db.sessions
    ensures trip in Apply(db, c).db.sessions
    ensures var was, became := db.sessions[trip].currentRevision, Apply(db, c).db.sessions[trip].currentRevision;
      was != became <==> c.command.DoAdvance? && Updates(db, c, trip)
    ensures c.command.DoAdvance? && Updates(db, c, trip) ==>
      && c.command.before == db.sessions[trip].currentRevision
      && c.command.after == Apply(db, c).db.sessions[trip].currentRevision
      && c.command.before < c.command.after
  {
    hide Apply, Commits;
    SessionRowsStep(db, c, trip);
    if c.command.DoAdvance? && Commits(db, c) {
      AdvanceBumps(db, c);
    }
  }
}
