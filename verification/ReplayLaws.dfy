/** The idempotency table: a repeated call is answered from its record and leaves no trace. */
module ReplayLaws {
  import opened Prelude
  import opened CollaborationStore
  import opened StoreFrames
  import TripDraft

  /** The six calls that keep a record under their key. */
  predicate Recorded(c: Command) {
    c.DoBootstrap? || c.DoInvite? || c.DoRedeem? || c.DoRevoke? || c.DoConfirm? || c.DoAdvance?
  }

  function RequestOf(c: Command): Request
    requires Recorded(c)
  {
    match c
    case DoBootstrap(r, _, _) => BootstrapRequest(r)
    case DoInvite(t, p, _, v, hours, _, _, _) => InviteRequest(t, p, v, hours)
    case DoRedeem(token, _, _, _) => RedeemRequest(token)
    case DoRevoke(t, p, id, _, v, _) => RevokeRequest(t, p, id, v)
    case DoConfirm(t, p, conf, v, _) => ConfirmRequest(t, p, conf, v)
    case DoAdvance(t, before, after, v, _, _) => AdvanceRequest(t, before, after, v)
  }

  /** The tests a method makes before it looks at the record. */
  predicate Admitted(db: Db, c: Command) {
    match c
    case DoBootstrap(r, _, _) => 1 in r.bindings && TripDraft.SequentialKeys(r.understanding.participants)
    case DoInvite(t, _, token, _, _, _, _, _) => IsOrganizer(db, t, token)
    case DoRevoke(t, _, _, token, _, _) => IsOrganizer(db, t, token)
    case DoAdvance(_, before, after, _, _, _) => before < after
    case _ => true
  }

  function KeyOf(db: Db, c: Command): IdemKey
    requires Recorded(c) && Admitted(db, c)
  {
    match c
    case DoBootstrap(_, key, _) => IdemKey(Bootstrapper, BootstrapOp, key)
    case DoInvite(t, _, _, _, _, key, _, _) => OrganizerKey(db, t, InviteOp, key)
    case DoRedeem(_, key, _, _) => IdemKey(Redeemer, RedeemOp, key)
    case DoRevoke(t, _, _, _, _, key) => OrganizerKey(db, t, RevokeOp, key)
    case DoConfirm(_, p, _, _, key) => IdemKey(ParticipantActor(p), ConfirmOp, key)
    case DoAdvance(_, _, _, _, actor, key) => IdemKey(actor, AdvanceOp, key)
  }

  /** Only a resolution may be on record without its result. */
  ghost predicate RecordsComplete(db: Db) {
    forall k :: k in db.idempotency && k.operation != ResolveOp ==> db.idempotency[k].result.Some?
  }

  // ---- One step ----------------------------------------------------------------------------

  /** An admitted call whose key is taken answers from the record, and changes nothing: with the recorded reply for
      the same request, with an error for any other. */
  lemma TakenKeyAnswers(db: Db, c: Call)
    requires Recorded(c.command) && Admitted(db, c.command) && RecordsComplete(db)
    requires KeyOf(db, c.command) in db.idempotency
    ensures Apply(db, c).db == db
    ensures Apply(db, c).reply ==
            if db.idempotency[KeyOf(db, c.command)].request == RequestOf(c.command)
            then db.idempotency[KeyOf(db, c.command)].result.value
            else Failed(IdempotencyKeyReused)
  {
    hide HasActiveLease, HasLiveInvitation;
  }

  /** What a first-time success puts on record. */
  ghost predicate Noted(db: Db, after: Db, k: IdemKey, request: Request, reply: Reply) {
    && k !in db.idempotency
    && k.operation != ResolveOp
    && after.idempotency == db.idempotency[k := IdemRow(request, Some(Withheld(reply)))]
  }

  lemma BootstrapIsNoted(db: Db, c: Call)
    requires c.command.DoBootstrap? && Commits(db, c) && RecordsComplete(db)
    ensures Admitted(db, c.command)
    ensures Noted(db, Apply(db, c).db, KeyOf(db, c.command), RequestOf(c.command), Apply(db, c).reply)
  {
    hide HasActiveLease, BoundMembers;
  }

  lemma InviteIsNoted(db: Db, c: Call)
    requires c.command.DoInvite? && Commits(db, c) && RecordsComplete(db)
    ensures Admitted(db, c.command)
    ensures Noted(db, Apply(db, c).db, KeyOf(db, c.command), RequestOf(c.command), Apply(db, c).reply)
  {
    hide HasActiveLease, HasLiveInvitation;
  }

  lemma RedeemIsNoted(db: Db, c: Call)
    requires c.command.DoRedeem? && Commits(db, c) && RecordsComplete(db)
    ensures Admitted(db, c.command)
    ensures Noted(db, Apply(db, c).db, KeyOf(db, c.command), RequestOf(c.command), Apply(db, c).reply)
  {
    hide HasActiveLease, RevokeSession;
  }

  lemma RevokeIsNoted(db: Db, c: Call)
    requires c.command.DoRevoke? && Commits(db, c) && RecordsComplete(db)
    ensures Admitted(db, c.command)
    ensures Noted(db, Apply(db, c).db, KeyOf(db, c.command), RequestOf(c.command), Apply(db, c).reply)
  {
    hide HasActiveLease, RevokeSession;
  }

  lemma ConfirmIsNoted(db: Db, c: Call)
    requires c.command.DoConfirm? && Commits(db, c) && RecordsComplete(db)
    ensures Admitted(db, c.command)
    ensures Noted(db, Apply(db, c).db, KeyOf(db, c.command), RequestOf(c.command), Apply(db, c).reply)
  {
    hide HasActiveLease;
  }

  lemma AdvanceIsNoted(db: Db, c: Call)
    requires c.command.DoAdvance? && Commits(db, c) && RecordsComplete(db)
    ensures Admitted(db, c.command)
    ensures Noted(db, Apply(db, c).db, KeyOf(db, c.command), RequestOf(c.command), Apply(db, c).reply)
  {
    hide HasActiveLease;
  }

  lemma CommitIsNoted(db: Db, c: Call)
    requires Recorded(c.command) && Commits(db, c) && RecordsComplete(db)
    ensures Admitted(db, c.command)
    ensures Noted(db, Apply(db, c).db, KeyOf(db, c.command), RequestOf(c.command), Apply(db, c).reply)
  {
    hide Apply, Commits, RecordsComplete, Admitted, Noted, KeyOf, RequestOf;
    match c.command {
      case DoBootstrap(_, _, _) => BootstrapIsNoted(db, c);
      case DoInvite(_, _, _, _, _, _, _, _) => InviteIsNoted(db, c);
      case DoRedeem(_, _, _, _) => RedeemIsNoted(db, c);
      case DoRevoke(_, _, _, _, _, _) => RevokeIsNoted(db, c);
      case DoConfirm(_, _, _, _, _) => ConfirmIsNoted(db, c);
      case DoAdvance(_, _, _, _, _, _) => AdvanceIsNoted(db, c);
    }
  }

  /** Records of the six calls are final. */
  ghost predicate RecordsKept(a: Db, b: Db) {
    forall k :: k in a.idempotency && k.operation != ResolveOp ==> k in b.idempotency && b.idempotency[k] == a.idempotency[k]
  }

  /** Writing a record of a resolution leaves the six calls' records alone. */
  lemma ResolutionRowApart(db: Db, after: Db, k: IdemKey, row: IdemRow)
    requires RecordsComplete(db) && k.operation == ResolveOp && after.idempotency == db.idempotency[k := row]
    ensures RecordsComplete(after) && RecordsKept(db, after)
  {
  }

  lemma BeginKeepsRecords(db: Db, actor: Actor, key: string, request: Request)
    requires RecordsComplete(db)
    ensures RecordsComplete(BeginResolve(db, actor, key, request).db) && RecordsKept(db, BeginResolve(db, actor, key, request).db)
  {
    var k := IdemKey(actor, ResolveOp, key);
    if k !in db.idempotency {
      ResolutionRowApart(db, BeginResolve(db, actor, key, request).db, k, IdemRow(request, None));
    }
    hide RecordsComplete;
  }

  lemma CompletionKeepsRecords(db: Db, actor: Actor, key: string, after: nat)
    requires RecordsComplete(db)
    ensures RecordsComplete(CompleteResolve(db, actor, key, after).db) && RecordsKept(db, CompleteResolve(db, actor, key, after).db)
  {
    var k := IdemKey(actor, ResolveOp, key);
    if k in db.idempotency {
      ResolutionRowApart(db, CompleteResolve(db, actor, key, after).db, k,
                         db.idempotency[k].(result := Some(Resolved(after))));
    }
    hide RecordsComplete;
  }

  lemma ResolutionsKeepRecords(db: Db, c: Call)
    requires c.command.DoBeginResolve? || c.command.DoCompleteResolve?
    requires RecordsComplete(db)
    ensures RecordsComplete(Apply(db, c).db) && RecordsKept(db, Apply(db, c).db)
  {
    hide RecordsComplete, RecordsKept, BeginResolve, CompleteResolve;
    match c.command {
      case DoBeginResolve(actor, key, request) => BeginKeepsRecords(db, actor, key, request);
      case DoCompleteResolve(actor, key, after) => CompletionKeepsRecords(db, actor, key, after);
    }
  }

  lemma StepKeepsRecords(db: Db, c: Call)
    requires RecordsComplete(db)
    ensures RecordsComplete(Apply(db, c).db) && RecordsKept(db, Apply(db, c).db)
  {
    hide Apply, Commits;
    if !Commits(db, c) {
      OnlyCommitsWrite(db, c);
    } else if Recorded(c.command) {
      CommitIsNoted(db, c);
    } else if c.command.DoBeginResolve? || c.command.DoCompleteResolve? {
      ResolutionsKeepRecords(db, c);
    } else {
      WritesOnlyFootprint(db, c);
    }
  }

  lemma {:induction false} RunKeepsComplete(db: Db, calls: seq<Call>)
    requires RecordsComplete(db)
    ensures RecordsComplete(Run(db, calls))
    decreases |calls|
  {
    hide Apply, RecordsComplete;
    if calls != [] {
      StepKeepsRecords(db, calls[0]);
      RunKeepsComplete(Apply(db, calls[0]).db, calls[1..]);
    }
  }

  /** The same call again: same arguments and key, at another time, drawing other ids and secrets. */
  predicate Repeats(c: Command, again: Command) {
    match again
    case DoBootstrap(r, key, _) => c.DoBootstrap? && c.revision == r && c.key == key
    case DoInvite(t, p, token, v, hours, key, _, _) =>
      c.DoInvite? && c.trip == t && c.participant == p && c.organizerToken == token && c.expectedVersion == v
      && c.hours == hours && c.key == key
    case DoRedeem(token, key, _, _) => c.DoRedeem? && c.token == token && c.key == key
    case _ => Recorded(again) && c == again
  }

  /** The call was made before and its reply is on record. */
  ghost predicate OnRecord(db: Db, c: Command, reply: Reply) {
    && Recorded(c) && Admitted(db, c)
    && KeyOf(db, c) in db.idempotency
    && db.idempotency[KeyOf(db, c)] == IdemRow(RequestOf(c), Some(reply))
  }

  lemma RepeatOfRecorded(db: Db, c: Command, again: Call, reply: Reply)
    requires RecordsComplete(db) && OnRecord(db, c, reply) && Repeats(c, again.command)
    ensures Apply(db, again) == Outcome(db, reply)
  {
    hide Apply;
    TakenKeyAnswers(db, again);
  }

  lemma StepKeepsOnRecord(db: Db, c: Call, done: Command, reply: Reply)
    requires RecordsComplete(db) && OnRecord(db, done, reply)
    ensures OnRecord(Apply(db, c).db, done, reply)
  {
    hide Apply, RecordsComplete;
    StepKeepsRecords(db, c);
    StepKeepsOwners(db, c);
  }

  lemma CommitGoesOnRecord(db: Db, c: Call)
    requires RecordsComplete(db) && Recorded(c.command) && Commits(db, c)
    ensures OnRecord(Apply(db, c).db, c.command, Withheld(Apply(db, c).reply))
  {
    hide Apply, Commits;
    CommitIsNoted(db, c);
    StepKeepsOwners(db, c);
  }

  // ---- Whole runs --------------------------------------------------------------------------

  lemma {:induction false} RunKeepsOnRecord(db: Db, calls: seq<Call>, done: Command, reply: Reply)
    requires RecordsComplete(db) && OnRecord(db, done, reply)
    ensures RecordsComplete(Run(db, calls)) && OnRecord(Run(db, calls), done, reply)
    decreases |calls|
  {
    hide Apply, RecordsComplete, OnRecord;
    if calls != [] {
      StepKeepsRecords(db, calls[0]);
      StepKeepsOnRecord(db, calls[0], done, reply);
      RunKeepsOnRecord(Apply(db, calls[0]).db, calls[1..], done, reply);
    }
  }

  /** Whatever happened in between, repeating a call that once committed gives its reply again, secret withheld, and
      leaves the store as it is. */
  lemma ReplayReturnsOriginal(db: Db, first: Call, between: seq<Call>, again: Call)
    requires RecordsComplete(db) && Recorded(first.command) && Commits(db, first)
    requires Repeats(first.command, again.command)
    ensures var end := Run(Apply(db, first).db, between);
      Apply(end, again) == Outcome(end, Withheld(Apply(db, first).reply))
  {
    hide Apply, RecordsComplete, OnRecord, Commits, Run;
    StepKeepsRecords(db, first);
    CommitGoesOnRecord(db, first);
    RunKeepsOnRecord(Apply(db, first).db, between, first.command, Withheld(Apply(db, first).reply));
    RepeatOfRecorded(Run(Apply(db, first).db, between), first.command, again, Withheld(Apply(db, first).reply));
  }

  ghost predicate RepeatsAny(done: seq<Command>, c: Command) {
    exists i :: 0 <= i < |done| && Repeats(done[i], c)
  }

  /** The run without the calls that repeat one that committed earlier. */
  ghost function Deduplicated(db: Db, calls: seq<Call>, done: seq<Command>): seq<Call>
    decreases |calls|
  {
    if calls == [] then []
    else if RepeatsAny(done, calls[0].command) then Deduplicated(db, calls[1..], done)
    else
      var seen := if Recorded(calls[0].command) && Commits(db, calls[0]) then done + [calls[0].command] else done;
      [calls[0]] + Deduplicated(Apply(db, calls[0]).db, calls[1..], seen)
  }

  ghost predicate HasRecord(db: Db, c: Command) {
    exists reply :: OnRecord(db, c, reply)
  }

  ghost predicate AllOnRecord(db: Db, done: seq<Command>) {
    forall i :: 0 <= i < |done| ==> HasRecord(db, done[i])
  }

  lemma StepKeepsAllOnRecord(db: Db, c: Call, done: seq<Command>)
    requires RecordsComplete(db) && AllOnRecord(db, done)
    ensures AllOnRecord(Apply(db, c).db, done)
    ensures Recorded(c.command) && Commits(db, c) ==> AllOnRecord(Apply(db, c).db, done + [c.command])
  {
    hide Apply, RecordsComplete, OnRecord, Commits;
    forall i | 0 <= i < |done|
      ensures HasRecord(Apply(db, c).db, done[i])
    {
      assert HasRecord(db, done[i]);
      var reply :| OnRecord(db, done[i], reply);
      StepKeepsOnRecord(db, c, done[i], reply);
    }
    if Recorded(c.command) && Commits(db, c) {
      CommitGoesOnRecord(db, c);
      assert HasRecord(Apply(db, c).db, c.command);
    }
  }

  /** Deleting every call that repeats an earlier success from any run gives the same final store. */
  lemma {:induction false} RepeatsAreInvisible(db: Db, calls: seq<Call>, done: seq<Command>)
    requires RecordsComplete(db) && AllOnRecord(db, done)
    ensures Run(db, Deduplicated(db, calls, done)) == Run(db, calls)
    decreases |calls|
  {
    hide Apply, RecordsComplete, OnRecord, Commits;
    if calls != [] {
      var c := calls[0];
      if RepeatsAny(done, c.command) {
        var i :| 0 <= i < |done| && Repeats(done[i], c.command);
        assert HasRecord(db, done[i]);
        var reply :| OnRecord(db, done[i], reply);
        RepeatOfRecorded(db, done[i], c, reply);
        RepeatsAreInvisible(db, calls[1..], done);
      } else {
        StepKeepsRecords(db, c);
        StepKeepsAllOnRecord(db, c, done);
        var seen := if Recorded(c.command) && Commits(db, c) then done + [c.command] else done;
        RepeatsAreInvisible(Apply(db, c).db, calls[1..], seen);
        var rest := Deduplicated(Apply(db, c).db, calls[1..], seen);
        assert ([c] + rest)[1..] == rest;
      }
    }
  }
}
