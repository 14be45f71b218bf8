/** The record of a conflict resolution: it is begun once under its key, gets its result, and answers from then on. */
module ResolutionLaws {
  import opened Prelude
  import opened CollaborationStore
  import opened StoreFrames
  import opened ReplayLaws

  function ResolveKey(actor: Actor, key: string): IdemKey {
    IdemKey(actor, ResolveOp, key)
  }

  function BeginCall(actor: Actor, key: string, request: Request, now: Time): Call {
    Call(DoBeginResolve(actor, key, request), now)
  }

  function CompleteCall(actor: Actor, key: string, after: nat, now: Time): Call {
    Call(DoCompleteResolve(actor, key, after), now)
  }

  predicate Completes(c: Command, k: IdemKey) {
    c.DoCompleteResolve? && ResolveKey(c.actor, c.key) == k
  }

  /** The result the last completion of a run stores under the key, if there is one. */
  function LastResult(calls: seq<Call>, k: IdemKey, before: Option<Reply>): Option<Reply>
    decreases |calls|
  {
    if calls == [] then before
    else LastResult(calls[1..], k, if Completes(calls[0].command, k) then Some(Resolved(calls[0].command.after)) else before)
  }

  /** The other calls never touch the record of a resolution, whatever keys they carry. */
  lemma OthersLeaveResolutions(db: Db, c: Call, k: IdemKey)
    requires RecordsComplete(db)
    requires k.operation == ResolveOp && !c.command.DoBeginResolve? && !c.command.DoCompleteResolve?
    ensures k in Apply(db, c).db.idempotency <==> k in db.idempotency
    ensures k in db.idempotency ==> Apply(db, c).db.idempotency[k] == db.idempotency[k]
  {
    hide Apply, Commits, RecordsComplete;
    if !Commits(db, c) {
      OnlyCommitsWrite(db, c);
    } else if Recorded(c.command) {
      CommitIsNoted(db, c);
    } else {
      WritesOnlyFootprint(db, c);
    }
  }

  lemma BeginKeepsRow(db: Db, actor: Actor, key: string, request: Request, k: IdemKey)
    requires k in db.idempotency
    ensures var after := BeginResolve(db, actor, key, request).db;
      k in after.idempotency && after.idempotency[k] == db.idempotency[k]
  {
  }

  lemma CompleteWritesRow(db: Db, actor: Actor, key: string, after: nat, k: IdemKey)
    requires k in db.idempotency
    ensures var u := CompleteResolve(db, actor, key, after).db;
      k in u.idempotency &&
      u.idempotency[k] ==
        (if ResolveKey(actor, key) == k then db.idempotency[k].(result := Some(Resolved(after))) else db.idempotency[k])
  {
  }

  lemma ResolutionStep(db: Db, c: Call, k: IdemKey)
    requires c.command.DoBeginResolve? || c.command.DoCompleteResolve?
    requires k.operation == ResolveOp && k in db.idempotency
    ensures k in Apply(db, c).db.idempotency
    ensures Apply(db, c).db.idempotency[k] ==
      IdemRow(db.idempotency[k].request,
              if Completes(c.command, k) then Some(Resolved(c.command.after)) else db.idempotency[k].result)
  {
    hide BeginResolve, CompleteResolve;
    match c.command {
      case DoBeginResolve(actor, key, request) => BeginKeepsRow(db, actor, key, request, k);
      case DoCompleteResolve(actor, key, after) => CompleteWritesRow(db, actor, key, after, k);
    }
  }

  /** A record that is open stays with its request; only completions of its own key write its result. */
  lemma {:induction false} RecordFollowsCompletions(db: Db, calls: seq<Call>, k: IdemKey)
    requires RecordsComplete(db) && k.operation == ResolveOp && k in db.idempotency
    ensures var end := Run(db, calls);
      k in end.idempotency &&
      end.idempotency[k] == IdemRow(db.idempotency[k].request, LastResult(calls, k, db.idempotency[k].result))
    decreases |calls|
  {
    hide Apply, RecordsComplete;
    if calls != [] {
      if calls[0].command.DoBeginResolve? || calls[0].command.DoCompleteResolve? {
        ResolutionStep(db, calls[0], k);
      } else {
        OthersLeaveResolutions(db, calls[0], k);
      }
      StepKeepsRecords(db, calls[0]);
      RecordFollowsCompletions(Apply(db, calls[0]).db, calls[1..], k);
    }
  }

  lemma BeginOpens(db: Db, actor: Actor, key: string, request: Request, now: Time)
    ensures var c := BeginCall(actor, key, request, now);
      if ResolveKey(actor, key) !in db.idempotency then
        && Apply(db, c).reply == Begun(None)
        && ResolveKey(actor, key) in Apply(db, c).db.idempotency
        && Apply(db, c).db.idempotency[ResolveKey(actor, key)] == IdemRow(request, None)
      else
        Apply(db, c) ==
          (if db.idempotency[ResolveKey(actor, key)].request == request
           then Outcome(db, Begun(db.idempotency[ResolveKey(actor, key)].result))
           else Outcome(db, Failed(IdempotencyKeyReused)))
  {
  }

  /** What beginning answers, at any time of any run after the first begin: the same request learns the last stored
      result, or that there is none yet; another request is refused; and nothing is written. */
  lemma BeginAnswers(db: Db, actor: Actor, key: string, request: Request, now: Time, between: seq<Call>, other: Request, again: Time)
    requires RecordsComplete(db) && ResolveKey(actor, key) !in db.idempotency
    ensures var begun := Apply(db, BeginCall(actor, key, request, now));
      var end := Run(begun.db, between);
      && begun.reply == Begun(None)
      && Apply(end, BeginCall(actor, key, other, again)) ==
         (if other == request then Outcome(end, Begun(LastResult(between, ResolveKey(actor, key), None)))
          else Outcome(end, Failed(IdempotencyKeyReused)))
  {
    hide Apply, Run, LastResult, RecordsComplete;
    var first := BeginCall(actor, key, request, now);
    BeginOpens(db, actor, key, request, now);
    StepKeepsRecords(db, first);
    RecordFollowsCompletions(Apply(db, first).db, between, ResolveKey(actor, key));
    BeginOpens(Run(Apply(db, first).db, between), actor, key, other, again);
  }

  lemma {:induction false} NoCompletionKeeps(calls: seq<Call>, k: IdemKey, before: Option<Reply>)
    requires forall i :: 0 <= i < |calls| ==> !Completes(calls[i].command, k)
    ensures LastResult(calls, k, before) == before
    decreases |calls|
  {
    if calls != [] {
      NoCompletionKeeps(calls[1..], k, before);
    }
  }

  /** After a begin, anything in between, and the completion, every later begin with the same request answers with that
      result and writes nothing, and another request is refused - until the same key is completed again. */
  lemma FinishedResolutionAnswers(
    db: Db, actor: Actor, key: string, request: Request, now: Time, between: seq<Call>, after: nat, done: Time,
    more: seq<Call>, other: Request, again: Time)
    requires RecordsComplete(db) && ResolveKey(actor, key) !in db.idempotency
    requires forall i :: 0 <= i < |more| ==> !Completes(more[i].command, ResolveKey(actor, key))
    ensures var begun := Run(Apply(db, BeginCall(actor, key, request, now)).db, between);
      var finished := Apply(begun, CompleteCall(actor, key, after, done));
      var end := Run(finished.db, more);
      && finished.reply == Done
      && Apply(end, BeginCall(actor, key, other, again)) ==
         (if other == request then Outcome(end, Begun(Some(Resolved(after)))) else Outcome(end, Failed(IdempotencyKeyReused)))
  {
    hide Apply, Run, LastResult, RecordsComplete;
    var k, first, complete := ResolveKey(actor, key), BeginCall(actor, key, request, now), CompleteCall(actor, key, after, done);
    BeginOpens(db, actor, key, request, now);
    StepKeepsRecords(db, first);
    RecordFollowsCompletions(Apply(db, first).db, between, k);
    RunKeepsComplete(Apply(db, first).db, between);
    var begun := Run(Apply(db, first).db, between);
    ResolutionStep(begun, complete, k);
    CompletionNeedsBegin(begun, actor, key, after, done);
    StepKeepsRecords(begun, complete);
    var finished := Apply(begun, complete).db;
    RecordFollowsCompletions(finished, more, k);
    NoCompletionKeeps(more, k, Some(Resolved(after)));
    BeginOpens(Run(finished, more), actor, key, other, again);
  }

  /** A completion without a begin is refused and writes nothing; any other is done. */
  lemma CompletionNeedsBegin(db: Db, actor: Actor, key: string, after: nat, now: Time)
    ensures var r := Apply(db, CompleteCall(actor, key, after, now));
      if ResolveKey(actor, key) in db.idempotency then r.reply == Done else r == Outcome(db, Failed(OperationNotFound))
  {
  }
}
