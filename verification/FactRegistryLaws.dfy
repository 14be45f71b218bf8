/** Issuing and restoring are inverse, and restoring accepts nothing that issuing would not have written. */
module FactRegistryLaws {
  import opened Prelude
  import opened FactRegistry

  /** The reference rows stored under one set. */
  function RowsUnder(t: Tables, setId: string): map<(string, string), RefRow> {
    map k | k in t.refs && k.0 == setId :: t.refs[k]
  }

  /** The set row and the reference rows are exactly what issuing this draft at this instant writes. */
  ghost predicate ExactlyIssued(t: Tables, d: Draft, issuedAt: int, rules: Rules) {
    && ValidDraft(d, rules)
    && References(d, rules).Ok?
    && var s := NewSnapshot(d, issuedAt, References(d, rules).value, rules);
       && s.setId in t.sets && t.sets[s.setId] == NewSetRow(s)
       && (forall i :: 0 <= i < |s.references| ==> HasPayload(d, s.references[i]))
       && RowsUnder(t, s.setId) == WithRefs(map[], s, |s.references|)
  }

  // ---- The rows of a set -----------------------------------------------------------------------

  lemma {:induction false} WithRefsAt(refs: map<(string, string), RefRow>, s: Snapshot, n: nat, i: nat)
    requires i < n <= |s.references| && DistinctRefs(s.references)
    requires forall j :: 0 <= j < n ==> HasPayload(s.draft, s.references[j])
    ensures (s.setId, s.references[i].refId) in WithRefs(refs, s, n)
    ensures WithRefs(refs, s, n)[(s.setId, s.references[i].refId)] == RowFor(s.draft, s.references[i])
  {
    hide RowFor, HasPayload;
    if i < n - 1 {
      WithRefsAt(refs, s, n - 1, i);
    }
  }

  /** The row check accepts exactly the rows that the insert loop writes. */
  lemma RowsMatchIff(t: Tables, s: Snapshot)
    requires DistinctRefs(s.references) && forall i :: 0 <= i < |s.references| ==> HasPayload(s.draft, s.references[i])
    ensures RowsMatch(t, s) <==> RowsUnder(t, s.setId) == WithRefs(map[], s, |s.references|)
  {
    hide WithRefs, RowFor;
    var n := |s.references|;
    var w := WithRefs(map[], s, n);
    NewKeys(map[], s, n);
    assert s.references[..n] == s.references;
    forall i | 0 <= i < n
      ensures (s.setId, s.references[i].refId) in w
      ensures w[(s.setId, s.references[i].refId)] == RowFor(s.draft, s.references[i])
    {
      WithRefsAt(map[], s, n, i);
    }
    if RowsMatch(t, s) {
      forall k
        ensures k in RowsUnder(t, s.setId) <==> k in w
        ensures k in w && k in RowsUnder(t, s.setId) ==> RowsUnder(t, s.setId)[k] == w[k]
      {
        assert k == (k.0, k.1);
        assert k.0 == s.setId ==> ((s.setId, k.1) in t.refs <==> RefIdIn(s.references, k.1));
      }
      assert RowsUnder(t, s.setId) == w;
    }
    if RowsUnder(t, s.setId) == w {
      forall id
        ensures (s.setId, id) in t.refs <==> RefIdIn(s.references, id)
      {
        assert (s.setId, id) in t.refs <==> (s.setId, id) in RowsUnder(t, s.setId);
        assert (s.setId, id).0 == s.setId && (s.setId, id).1 == id;
      }
      forall i | 0 <= i < n && (s.setId, s.references[i].refId) in t.refs
        ensures t.refs[(s.setId, s.references[i].refId)] == RowFor(s.draft, s.references[i])
      {
        assert (s.setId, s.references[i].refId) in RowsUnder(t, s.setId);
      }
    }
  }

  lemma VerifiedMeans(text: SnapshotText, rules: Rules)
    requires Verified(text, rules).Ok?
    ensures var s := Verified(text, rules).value;
      && text == Serialized(s) && ValidDraft(s.draft, rules)
      && References(s.draft, rules) == Ok(s.references) && DistinctRefs(s.references)
      && s == NewSnapshot(s.draft, s.issuedAt, s.references, rules)
  {
  }

  lemma NewSnapshotVerifies(d: Draft, issuedAt: int, rules: Rules)
    requires ValidDraft(d, rules) && References(d, rules).Ok?
    ensures var s := NewSnapshot(d, issuedAt, References(d, rules).value, rules);
      && Verified(Serialized(s), rules) == Ok(s) && DistinctRefs(s.references)
      && forall i :: 0 <= i < |s.references| ==> HasPayload(d, s.references[i])
  {
    AllHavePayloads(d, rules);
  }

  // ---- Restore accepts exactly what issue writes ---------------------------------------------

  /** Restoring a set for a trip succeeds exactly when its stored rows are those that issuing some draft of that trip
      writes, and then it returns that draft. */
  lemma RestoreIff(t: Tables, trip: nat, setId: string, rules: Rules)
    ensures Restore(t, trip, setId, rules).Ok? <==>
      exists d: Draft, issuedAt: int :: d.trip == trip && SetId(OfDraft(d), rules) == setId && ExactlyIssued(t, d, issuedAt, rules)
    ensures Restore(t, trip, setId, rules).Ok? ==>
      var s := Restore(t, trip, setId, rules).value;
      s.draft.trip == trip && SetId(OfDraft(s.draft), rules) == setId && ExactlyIssued(t, s.draft, s.issuedAt, rules)
  {
    if Restore(t, trip, setId, rules).Ok? {
      RestoredIsIssued(t, trip, setId, rules);
    }
    if d: Draft, issuedAt: int :| d.trip == trip && SetId(OfDraft(d), rules) == setId && ExactlyIssued(t, d, issuedAt, rules) {
      IssuedRestores(t, d, issuedAt, rules);
    }
    hide Restore, ExactlyIssued;
  }

  lemma RestoredIsIssued(t: Tables, trip: nat, setId: string, rules: Rules)
    requires Restore(t, trip, setId, rules).Ok?
    ensures var s := Restore(t, trip, setId, rules).value;
      s.draft.trip == trip && SetId(OfDraft(s.draft), rules) == setId && ExactlyIssued(t, s.draft, s.issuedAt, rules)
  {
    hide Verified, References, ValidDraft, RowsMatch, DistinctRefs, HasPayload;
    var s := Restore(t, trip, setId, rules).value;
    VerifiedMeans(t.sets[setId].snapshot, rules);
    VerifiedHasPayloads(t.sets[setId].snapshot, rules);
    RowsMatchIff(t, s);
  }

  lemma IssuedRestores(t: Tables, d: Draft, issuedAt: int, rules: Rules)
    requires ExactlyIssued(t, d, issuedAt, rules)
    ensures Restore(t, d.trip, SetId(OfDraft(d), rules), rules) ==
            Ok(NewSnapshot(d, issuedAt, References(d, rules).value, rules))
  {
    hide Verified, References, ValidDraft, RowsMatch, DistinctRefs, HasPayload;
    var s := NewSnapshot(d, issuedAt, References(d, rules).value, rules);
    NewSnapshotVerifies(d, issuedAt, rules);
    RowsMatchIff(t, s);
  }

  // ---- Issue, restore, issue again -----------------------------------------------------------

  lemma RefsDistinct(d: Draft, rules: Rules)
    requires References(d, rules).Ok?
    ensures DistinctRefs(References(d, rules).value)
  {
  }

  /** A draft that is issued for the first time is stored exactly, without touching any other set. */
  lemma IssueStoresExactly(t: Tables, u: Tables, d: Draft, issuedAt: int, rules: Rules, r: Result<Summary, Error>)
    requires Constraints(t) && Issues(t, u, d, issuedAt, rules, r) && r.Ok? && !(exists id :: IssuedAs(t, id, d))
    ensures ExactlyIssued(u, d, issuedAt, rules) && Constraints(u)
    ensures r.value == SummaryOf(NewSnapshot(d, issuedAt, References(d, rules).value, rules))
  {
    hide References, ValidDraft, HasPayload, RowFor;
    var s := NewSnapshot(d, issuedAt, References(d, rules).value, rules);
    var n := |s.references|;
    NewKeys(t.refs, s, n);
    RefsDistinct(d, rules);
    FreshRows(t.refs, s);
    assert s.setId in u.sets;
    forall k | k in u.refs
      ensures k.0 in u.sets
    {
    }
    forall a, b | a in u.sets && b in u.sets && u.sets[a].trip == u.sets[b].trip && u.sets[a].digest == u.sets[b].digest
      ensures a == b
    {
      assert a != s.setId ==> !IssuedAs(t, a, d);
      assert b != s.setId ==> !IssuedAs(t, b, d);
    }
  }

  /** On a set without rows the inserts give the set's rows and nothing else. */
  lemma FreshRows(refs: map<(string, string), RefRow>, s: Snapshot)
    requires forall i :: 0 <= i < |s.references| ==> HasPayload(s.draft, s.references[i])
    requires DistinctRefs(s.references) && forall k :: k in refs ==> k.0 != s.setId
    ensures var w := WithRefs(refs, s, |s.references|);
      (map k | k in w && k.0 == s.setId :: w[k]) == WithRefs(map[], s, |s.references|)
  {
    hide RowFor, HasPayload, WithRefs;
    var n := |s.references|;
    NewKeys(refs, s, n);
    NewKeys(map[], s, n);
    assert s.references[..n] == s.references;
    forall k | k in WithRefs(map[], s, n)
      ensures k in WithRefs(refs, s, n) && WithRefs(refs, s, n)[k] == WithRefs(map[], s, n)[k]
    {
      var i :| 0 <= i < n && s.references[i].refId == k.1;
      assert k == (s.setId, s.references[i].refId);
      WithRefsAt(refs, s, n, i);
      WithRefsAt(map[], s, n, i);
    }
  }

  /** Restoring an issued set gives back the draft that was issued, and its summary. */
  lemma IssueThenRestore(t: Tables, u: Tables, d: Draft, issuedAt: int, rules: Rules, r: Result<Summary, Error>)
    requires Constraints(t) && Issues(t, u, d, issuedAt, rules, r) && r.Ok? && !(exists id :: IssuedAs(t, id, d))
    ensures var restored := Restore(u, d.trip, r.value.setId, rules);
      restored.Ok? && restored.value.draft == d && SummaryOf(restored.value) == r.value
  {
    IssueStoresExactly(t, u, d, issuedAt, rules, r);
    IssuedRestores(u, d, issuedAt, rules);
    hide Issues, ExactlyIssued, Restore;
  }

  /** Issuing a stored draft again writes nothing and returns the first summary, whatever the time. */
  lemma ReissueReturnsFirst(t: Tables, u: Tables, d: Draft, issuedAt: int, later: int, rules: Rules, r: Result<Summary, Error>)
    requires Constraints(t) && ExactlyIssued(t, d, issuedAt, rules)
    requires Issues(t, u, d, later, rules, r)
    ensures u == t && r == Ok(SummaryOf(NewSnapshot(d, issuedAt, References(d, rules).value, rules)))
  {
    hide Verified, References, ValidDraft, HasPayload, RowFor, WithRefs;
    var s := NewSnapshot(d, issuedAt, References(d, rules).value, rules);
    NewSnapshotVerifies(d, issuedAt, rules);
    assert IssuedAs(t, s.setId, d);
    forall id | IssuedAs(t, id, d)
      ensures id == s.setId
    {
    }
  }

  /** Issuing leaves every other set restorable, or not, as it was. */
  lemma OtherSetsKept(t: Tables, u: Tables, d: Draft, issuedAt: int, rules: Rules, r: Result<Summary, Error>, trip: nat, id: string)
    requires Issues(t, u, d, issuedAt, rules, r) && id != SetId(OfDraft(d), rules)
    ensures Restore(u, trip, id, rules) == Restore(t, trip, id, rules)
  {
    hide Verified, References, ValidDraft, RowFor, WithRefs;
    if u != t {
      var s := NewSnapshot(d, issuedAt, References(d, rules).value, rules);
      NewKeys(t.refs, s, |s.references|);
      forall v: Snapshot | v.setId == id
        ensures RowsMatch(u, v) <==> RowsMatch(t, v)
      {
        SameRows(t, u, v);
      }
    }
  }

  lemma SameRows(t: Tables, u: Tables, v: Snapshot)
    requires forall k: (string, string) :: k.0 == v.setId ==> (k in u.refs <==> k in t.refs)
    requires forall k :: k in t.refs && k.0 == v.setId ==> k in u.refs && u.refs[k] == t.refs[k]
    ensures RowsMatch(u, v) <==> RowsMatch(t, v)
  {
    assert forall id: string :: (v.setId, id).0 == v.setId;
    hide HasPayload, RowFor;
  }

  /** Issuing a draft that is on file looks at the stored snapshot alone. Whatever the tables hold, when it answers, the row
      it answered from can be restored exactly when the snapshot is of that draft, the row stands under the snapshot's
      set id with the snapshot's instant, and the reference rows are the snapshot's. */
  lemma ReissuedRestoresIff(t: Tables, u: Tables, id: string, d: Draft, later: int, rules: Rules, r: Result<Summary, Error>)
    requires Constraints(t) && IssuedAs(t, id, d) && Issues(t, u, d, later, rules, r) && r.Ok?
    ensures u == t && Verified(t.sets[id].snapshot, rules).Ok?
    ensures var s := Verified(t.sets[id].snapshot, rules).value;
      && r.value == SummaryOf(s)
      && (Restore(t, d.trip, id, rules).Ok? <==>
            s.draft == d && id == SetId(OfDraft(d), rules) && t.sets[id].issuedAt == s.issuedAt && RowsMatch(t, s))
  {
    hide References, ValidDraft, HasPayload, RowFor, WithRefs, RowsMatch;
    assert forall other :: IssuedAs(t, other, d) ==> other == id;
  }

  /** With all reference rows gone the two part: issuing again still answers, while restoring refuses. */
  lemma ReissueIgnoresReferenceRows(t: Tables, d: Draft, issuedAt: int, rules: Rules, r: Result<Summary, Error>)
    requires Constraints(t) && ExactlyIssued(t, d, issuedAt, rules) && References(d, rules).value != []
    requires Issues(Tables(t.sets, map[]), Tables(t.sets, map[]), d, issuedAt, rules, r)
    ensures r.Ok?
    ensures Restore(Tables(t.sets, map[]), d.trip, SetId(OfDraft(d), rules), rules) == Err(Integrity)
  {
    hide Verified, References, ValidDraft, HasPayload, RowFor, WithRefs;
    var s := NewSnapshot(d, issuedAt, References(d, rules).value, rules);
    NewSnapshotVerifies(d, issuedAt, rules);
    var bare := Tables(t.sets, map[]);
    assert IssuedAs(bare, s.setId, d);
    assert IssuedAs(t, s.setId, d) && forall id :: IssuedAs(bare, id, d) ==> IssuedAs(t, id, d) && id == s.setId;
    assert RefIdIn(s.references, s.references[0].refId);
  }

  // ---- Whole histories -------------------------------------------------------------------------

  datatype Request = Request(draft: Draft, at: int)

  /** The tables after each of a sequence of issue calls, from an empty registry. */
  ghost predicate Issued(tables: seq<Tables>, requests: seq<Request>, replies: seq<Result<Summary, Error>>, rules: Rules) {
    && |tables| == |requests| + 1 && |replies| == |requests|
    && tables[0] == Tables(map[], map[])
    && forall i :: 0 <= i < |requests| ==>
         Issues(tables[i], tables[i + 1], requests[i].draft, requests[i].at, rules, replies[i])
  }

  ghost predicate Stored(t: Tables, id: string, rules: Rules) {
    exists d: Draft, at: int :: SetId(OfDraft(d), rules) == id && ExactlyIssued(t, d, at, rules)
  }

  ghost predicate Sound(t: Tables, rules: Rules) {
    Constraints(t) && forall id :: id in t.sets ==> Stored(t, id, rules)
  }

  /** A row that is on file is the exact row of its draft. */
  lemma OnFileIsExact(t: Tables, id: string, d: Draft, rules: Rules)
    requires Sound(t, rules) && IssuedAs(t, id, d)
    ensures exists at: int :: SetId(OfDraft(d), rules) == id && ExactlyIssued(t, d, at, rules)
  {
    hide References, ValidDraft, HasPayload, RowFor, WithRefs;
    var e: Draft, at: int :| SetId(OfDraft(e), rules) == id && ExactlyIssued(t, e, at, rules);
    assert e == d;
  }

  lemma RowsOfOthersKept(t: Tables, u: Tables, d: Draft, at: int, rules: Rules, r: Result<Summary, Error>, id: string)
    requires Issues(t, u, d, at, rules, r) && id in t.sets
    ensures id in u.sets && u.sets[id] == t.sets[id] && RowsUnder(u, id) == RowsUnder(t, id)
  {
    hide Verified, References, ValidDraft, RowFor, WithRefs, HasPayload;
    if u != t {
      var s := NewSnapshot(d, at, References(d, rules).value, rules);
      NewKeys(t.refs, s, |s.references|);
    }
  }

  lemma ExactlyIssuedKept(t: Tables, u: Tables, d: Draft, at: int, rules: Rules)
    requires ExactlyIssued(t, d, at, rules)
    requires var id := SetId(OfDraft(d), rules); id in u.sets && u.sets[id] == t.sets[id] && RowsUnder(u, id) == RowsUnder(t, id)
    ensures ExactlyIssued(u, d, at, rules)
  {
    hide References, ValidDraft, RowFor, WithRefs, HasPayload, RowsUnder;
  }

  lemma StoredStays(t: Tables, u: Tables, id: string, rules: Rules)
    requires Stored(t, id, rules) && id in t.sets
    requires id in u.sets && u.sets[id] == t.sets[id] && RowsUnder(u, id) == RowsUnder(t, id)
    ensures Stored(u, id, rules)
  {
    hide ExactlyIssued, RowsUnder;
    var d: Draft, at: int :| SetId(OfDraft(d), rules) == id && ExactlyIssued(t, d, at, rules);
    ExactlyIssuedKept(t, u, d, at, rules);
  }

  /** A reply names a set under which the draft is stored exactly. */
  ghost predicate Holds(t: Tables, d: Draft, r: Summary, rules: Rules) {
    exists at: int :: ExactlyIssued(t, d, at, rules) && r == SummaryOf(NewSnapshot(d, at, References(d, rules).value, rules))
  }

  lemma AnswerHolds(t: Tables, u: Tables, d: Draft, at: int, rules: Rules, r: Result<Summary, Error>)
    requires Sound(t, rules) && Issues(t, u, d, at, rules, r) && r.Ok?
    ensures Holds(u, d, r.value, rules) && Constraints(u)
  {
    if id :| IssuedAs(t, id, d) {
      OnFileIsExact(t, id, d, rules);
      var first: int :| SetId(OfDraft(d), rules) == id && ExactlyIssued(t, d, first, rules);
      ReissueReturnsFirst(t, u, d, first, at, rules, r);
    } else {
      IssueStoresExactly(t, u, d, at, rules, r);
    }
    hide ExactlyIssued, Issues, References;
  }

  lemma IssueKeepsSound(t: Tables, u: Tables, d: Draft, at: int, rules: Rules, r: Result<Summary, Error>)
    requires Sound(t, rules) && Issues(t, u, d, at, rules, r)
    ensures Sound(u, rules)
  {
    if u != t {
      AnswerHolds(t, u, d, at, rules, r);
      OnlyOneRowAdded(t, u, d, at, rules, r);
      var first: int :| ExactlyIssued(u, d, first, rules);
      assert Stored(u, SetId(OfDraft(d), rules), rules);
      hide Issues, Stored, ExactlyIssued;
      forall id | id in u.sets && id != SetId(OfDraft(d), rules)
        ensures Stored(u, id, rules)
      {
        RowsOfOthersKept(t, u, d, at, rules, r, id);
        StoredStays(t, u, id, rules);
      }
    }
  }

  lemma OnlyOneRowAdded(t: Tables, u: Tables, d: Draft, at: int, rules: Rules, r: Result<Summary, Error>)
    requires Issues(t, u, d, at, rules, r) && u != t
    ensures r.Ok? && forall id :: id in u.sets && id != SetId(OfDraft(d), rules) ==> id in t.sets
  {
    hide Verified, References, ValidDraft, RowFor, WithRefs, HasPayload;
  }

  lemma {:induction false} HistorySound(
    tables: seq<Tables>, requests: seq<Request>, replies: seq<Result<Summary, Error>>, rules: Rules, i: nat)
    requires Issued(tables, requests, replies, rules) && i < |tables|
    ensures Sound(tables[i], rules)
  {
    hide Issues, Stored;
    if i > 0 {
      HistorySound(tables, requests, replies, rules, i - 1);
      IssueKeepsSound(tables[i - 1], tables[i], requests[i - 1].draft, requests[i - 1].at, rules, replies[i - 1]);
    }
  }

  lemma HoldsStep(t: Tables, u: Tables, e: Draft, at: int, rules: Rules, reply: Result<Summary, Error>, d: Draft, r: Summary)
    requires Holds(t, d, r, rules) && Issues(t, u, e, at, rules, reply)
    ensures Holds(u, d, r, rules)
  {
    var first: int :| ExactlyIssued(t, d, first, rules) && r == SummaryOf(NewSnapshot(d, first, References(d, rules).value, rules));
    RowsOfOthersKept(t, u, e, at, rules, reply, SetId(OfDraft(d), rules));
    ExactlyIssuedKept(t, u, d, first, rules);
    hide Issues, ExactlyIssued, References;
  }

  lemma HeldRestores(t: Tables, d: Draft, r: Summary, rules: Rules)
    requires Holds(t, d, r, rules)
    ensures var restored := Restore(t, d.trip, r.setId, rules);
      restored.Ok? && restored.value.draft == d && SummaryOf(restored.value) == r
  {
    var at: int :| ExactlyIssued(t, d, at, rules) && r == SummaryOf(NewSnapshot(d, at, References(d, rules).value, rules));
    IssuedRestores(t, d, at, rules);
    hide Restore, ExactlyIssued, References;
  }

  lemma {:induction false} HeldStays(
    tables: seq<Tables>, requests: seq<Request>, replies: seq<Result<Summary, Error>>, rules: Rules, i: nat, j: nat, d: Draft,
    r: Summary)
    requires Issued(tables, requests, replies, rules) && i <= j < |tables| && Holds(tables[i], d, r, rules)
    ensures Holds(tables[j], d, r, rules)
  {
    hide Issues, Holds;
    if i < j {
      HeldStays(tables, requests, replies, rules, i, j - 1, d, r);
      HoldsStep(tables[j - 1], tables[j], requests[j - 1].draft, requests[j - 1].at, rules, replies[j - 1], d, r);
    }
  }

  /** Through any history of issue calls on an empty registry, every set that was ever answered restores its draft, in
      every later state. */
  lemma EveryAnsweredSetRestores(
    tables: seq<Tables>, requests: seq<Request>, replies: seq<Result<Summary, Error>>, rules: Rules, i: nat, j: nat)
    requires Issued(tables, requests, replies, rules) && i < |requests| && i < j < |tables| && replies[i].Ok?
    ensures var restored := Restore(tables[j], requests[i].draft.trip, replies[i].value.setId, rules);
      restored.Ok? && restored.value.draft == requests[i].draft && SummaryOf(restored.value) == replies[i].value
  {
    hide Issues, Sound, Holds, Restore;
    HistorySound(tables, requests, replies, rules, i);
    AnswerHolds(tables[i], tables[i + 1], requests[i].draft, requests[i].at, rules, replies[i]);
    HeldStays(tables, requests, replies, rules, i + 1, j, requests[i].draft, replies[i].value);
    HeldRestores(tables[j], requests[i].draft, replies[i].value, rules);
  }
}
