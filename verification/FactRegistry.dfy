/** The provider fact registry of app/infrastructure/provider_fact_registry.py. A digest is modelled as the content it
    binds; the 24-character ids cut from digests may collide. */
module FactRegistry {
  import opened Prelude
  import Lex = Lexicographic

  datatype Kind = PlaceFact | RouteFact

  /** A place or a route: its provider id, its provenance, and the rest. */
  datatype Payload = Payload(kind: Kind, objectId: string, source: nat, fetchedAt: int, stale: bool, body: nat)

  datatype Draft = Draft(trip: nat, places: seq<Payload>, routes: seq<Payload>, rest: nat)

  datatype Digest = OfDraft(draft: Draft) | OfPayload(payload: Payload) | Foreign(text: string)

  datatype Reference = Reference(
    refId: string, kind: Kind, objectId: string, digest: Digest, source: nat, fetchedAt: int, stale: bool)

  datatype Snapshot = Snapshot(setId: string, digest: Digest, issuedAt: int, draft: Draft, references: seq<Reference>)

  /** The columns as they are found: JSON that parses to something, or does not. */
  datatype SnapshotText = Serialized(snapshot: Snapshot) | Corrupt
  datatype PayloadText = Canonical(payload: Payload) | Altered(text: string)

  datatype SetRow = SetRow(trip: nat, digest: Digest, snapshot: SnapshotText, issuedAt: int)

  datatype RefRow = RefRow(
    kind: Kind, objectId: string, digest: Digest, payload: PayloadText, source: nat, fetchedAt: int, stale: bool)

  datatype Tables = Tables(sets: map<string, SetRow>, refs: map<(string, string), RefRow>)

  datatype Summary = Summary(setId: string, digest: Digest, trip: nat, issuedAt: int, references: seq<Reference>)

  datatype Error = Invalid | RefCollision | RowExists | NotFound | TripMismatch | Integrity

  /** `short` cuts a digest to 24 characters; `trusted` is the provenance validation of a draft. */
  datatype Rules = Rules(short: Digest -> string, trusted: Draft -> bool)

  // ---- References --------------------------------------------------------------------------

  function Ids(ps: seq<Payload>): set<string> {
    set i | 0 <= i < |ps| :: ps[i].objectId
  }

  predicate DistinctIds(ps: seq<Payload>) {
    forall i, j :: 0 <= i < j < |ps| ==> ps[i].objectId != ps[j].objectId
  }

  /** What ProviderFactIssueDraft validates. */
  predicate ValidDraft(d: Draft, rules: Rules) {
    && DistinctIds(d.places) && DistinctIds(d.routes)
    && (forall i :: 0 <= i < |d.places| ==> d.places[i].kind == PlaceFact)
    && (forall i :: 0 <= i < |d.routes| ==> d.routes[i].kind == RouteFact)
    && rules.trusted(d)
  }

  function ById(ps: seq<Payload>, id: string): (p: Payload)
    requires id in Ids(ps)
    ensures p in ps && p.objectId == id
  {
    if ps[0].objectId == id then ps[0] else
      assert id in Ids(ps[1..]) by {
        var i :| 0 <= i < |ps| && ps[i].objectId == id;
        assert ps[1..][i - 1].objectId == id;
      }
      ById(ps[1..], id)
  }

  /** `sorted(ps, key=id)` for payloads with distinct ids. */
  function SortedById(ps: seq<Payload>): (r: seq<Payload>)
    ensures |r| == |Lex.Sorted(Ids(ps))|
    ensures forall i :: 0 <= i < |r| ==> r[i] in ps && r[i].objectId == Lex.Sorted(Ids(ps))[i]
  {
    var ids := Lex.Sorted(Ids(ps));
    seq(|ids|, i requires 0 <= i < |ids| => assert ids[i] in ids; ById(ps, ids[i]))
  }

  function ReferenceTo(p: Payload, rules: Rules): Reference {
    var id := (if p.kind == PlaceFact then "AMAP:" else "fact-route-") + rules.short(OfPayload(p));
    Reference(id, p.kind, p.objectId, OfPayload(p), p.source, p.fetchedAt, p.stale)
  }

  function ReferencesTo(ps: seq<Payload>, rules: Rules): (rs: seq<Reference>)
    ensures |rs| == |ps| && forall i :: 0 <= i < |ps| ==> rs[i] == ReferenceTo(ps[i], rules)
  {
    seq(|ps|, i requires 0 <= i < |ps| => ReferenceTo(ps[i], rules))
  }

  function Payloads(d: Draft): seq<Payload> {
    SortedById(d.places) + SortedById(d.routes)
  }

  predicate DistinctRefs(rs: seq<Reference>) {
    forall i, j :: 0 <= i < j < |rs| ==> rs[i].refId != rs[j].refId
  }

  /** `_references`: places by id, then routes by id, unless two of the short ids coincide. */
  function References(d: Draft, rules: Rules): Result<seq<Reference>, Error> {
    var rs := ReferencesTo(Payloads(d), rules);
    if DistinctRefs(rs) then Ok(rs) else Err(RefCollision)
  }

  function SetId(digest: Digest, rules: Rules): string {
    "fact-set-" + rules.short(digest)
  }

  // ---- Verification ------------------------------------------------------------------------

  /** `_parse_and_verify_snapshot`. */
  function Verified(text: SnapshotText, rules: Rules): Result<Snapshot, Error> {
    if text.Corrupt? || !ValidDraft(text.snapshot.draft, rules) then Err(Integrity)
    else
      var s := text.snapshot;
      var digest := OfDraft(s.draft);
      if s.digest != digest || s.setId != SetId(digest, rules) then Err(Integrity)
      else
        var rs := References(s.draft, rules);
        if rs.Err? then Err(rs.error)
        else if s.references != rs.value then Err(Integrity)
        else Ok(s)
  }

  function SummaryOf(s: Snapshot): Summary {
    Summary(s.setId, s.digest, s.draft.trip, s.issuedAt, s.references)
  }

  /** The payload a reference stands for: `places[...]` or `routes[...]`. */
  predicate HasPayload(d: Draft, r: Reference) {
    r.objectId in Ids(if r.kind == PlaceFact then d.places else d.routes)
  }

  function PayloadFor(d: Draft, r: Reference): Payload
    requires HasPayload(d, r)
  {
    ById(if r.kind == PlaceFact then d.places else d.routes, r.objectId)
  }

  function RowFor(d: Draft, r: Reference): RefRow
    requires HasPayload(d, r)
  {
    RefRow(r.kind, r.objectId, r.digest, Canonical(PayloadFor(d, r)), r.source, r.fetchedAt, r.stale)
  }

  lemma ReferenceHasPayload(d: Draft, rules: Rules, i: nat)
    requires i < |Payloads(d)| && ValidDraft(d, rules)
    ensures HasPayload(d, ReferenceTo(Payloads(d)[i], rules))
    ensures PayloadFor(d, ReferenceTo(Payloads(d)[i], rules)) == Payloads(d)[i]
  {
    var p := Payloads(d)[i];
    var ps := if i < |SortedById(d.places)| then d.places else d.routes;
    assert p in ps;
    var k :| 0 <= k < |ps| && ps[k] == p;
    assert p.kind == (if i < |SortedById(d.places)| then PlaceFact else RouteFact);
    var q := ById(ps, p.objectId);
    var m :| 0 <= m < |ps| && ps[m] == q;
  }

  predicate RefIdIn(rs: seq<Reference>, id: string) {
    exists i :: 0 <= i < |rs| && rs[i].refId == id
  }

  /** `_verify_reference_rows`: the stored ids are the snapshot's, and every column is what issuing wrote. */
  ghost predicate RowsMatch(t: Tables, s: Snapshot) {
    && (forall id :: (s.setId, id) in t.refs <==> RefIdIn(s.references, id))
    && (forall i :: 0 <= i < |s.references| && (s.setId, s.references[i].refId) in t.refs ==>
          HasPayload(s.draft, s.references[i]) && t.refs[(s.setId, s.references[i].refId)] == RowFor(s.draft, s.references[i]))
  }

  /** `restore_snapshot`. */
  ghost function Restore(t: Tables, trip: nat, setId: string, rules: Rules): Result<Snapshot, Error> {
    if setId !in t.sets then Err(NotFound)
    else if t.sets[setId].trip != trip then Err(TripMismatch)
    else
      var row := t.sets[setId];
      var s := Verified(row.snapshot, rules);
      if s.Err? then s
      else if s.value.setId != setId || s.value.digest != row.digest || s.value.draft.trip != row.trip || s.value.issuedAt != row.issuedAt
      then Err(Integrity)
      else if !RowsMatch(t, s.value) then Err(Integrity)
      else s
  }

  // ---- Issuing -----------------------------------------------------------------------------

  predicate IssuedAs(t: Tables, id: string, d: Draft) {
    id in t.sets && t.sets[id].trip == d.trip && t.sets[id].digest == OfDraft(d)
  }

  /** The UNIQUE constraint on (trip, digest), and the foreign key of the reference rows. */
  ghost predicate Constraints(t: Tables) {
    && (forall a, b :: a in t.sets && b in t.sets && t.sets[a].trip == t.sets[b].trip && t.sets[a].digest == t.sets[b].digest ==> a == b)
    && (forall k :: k in t.refs ==> k.0 in t.sets)
  }

  /** The snapshot issuing would store. */
  function NewSnapshot(d: Draft, issuedAt: int, rs: seq<Reference>, rules: Rules): Snapshot {
    Snapshot(SetId(OfDraft(d), rules), OfDraft(d), issuedAt, d, rs)
  }

  function NewSetRow(s: Snapshot): SetRow {
    SetRow(s.draft.trip, s.digest, Serialized(s), s.issuedAt)
  }

  /** The reference rows after the first n inserts. */
  function WithRefs(refs: map<(string, string), RefRow>, s: Snapshot, n: nat): map<(string, string), RefRow>
    requires n <= |s.references| && forall i :: 0 <= i < n ==> HasPayload(s.draft, s.references[i])
  {
    if n == 0 then refs
    else WithRefs(refs, s, n - 1)[(s.setId, s.references[n - 1].refId) := RowFor(s.draft, s.references[n - 1])]
  }

  /** The outcome of `issue`, first for a draft that is on file, then for a new one. */
  ghost predicate Issues(t: Tables, u: Tables, d: Draft, issuedAt: int, rules: Rules, r: Result<Summary, Error>) {
    if !ValidDraft(d, rules) then u == t && r == Err(Invalid)
    else
      var rs := References(d, rules);
      if rs.Err? then u == t && r == Err(rs.error)
      else
        var s := NewSnapshot(d, issuedAt, rs.value, rules);
        if exists id :: IssuedAs(t, id, d) then
          exists id :: IssuedAs(t, id, d) && u == t &&
            var found := Verified(t.sets[id].snapshot, rules);
            r == (if found.Ok? then Ok(SummaryOf(found.value)) else Err(found.error))
        else if s.setId in t.sets then u == t && r == Err(RowExists)
        else
          && r == Ok(SummaryOf(s))
          && u.sets == t.sets[s.setId := NewSetRow(s)]
          && (forall i :: 0 <= i < |rs.value| ==> HasPayload(d, rs.value[i]))
          && u.refs == WithRefs(t.refs, s, |rs.value|)
  }

  class Registry {
    var sets: map<string, SetRow>
    var refs: map<(string, string), RefRow>

    function Contents(): Tables
      reads this
    {
      Tables(sets, refs)
    }

    ghost predicate Valid()
      reads this
    {
      Constraints(Contents())
    }

    constructor ()
      ensures Valid() && Contents() == Tables(map[], map[])
    {
      sets, refs := map[], map[];
    }

    method Issue(d: Draft, issuedAt: int, rules: Rules) returns (r: Result<Summary, Error>)
      requires Valid()
      modifies this
      ensures Valid()
      ensures Issues(old(Contents()), Contents(), d, issuedAt, rules, r)
    {
      hide Payloads, DistinctRefs;
      if !ValidDraft(d, rules) {
        return Err(Invalid);
      }
      var references := References(d, rules);
      if references.Err? {
        return Err(references.error);
      }
      AllHavePayloads(d, rules);
      var s := NewSnapshot(d, issuedAt, references.value, rules);
      if exists id :: id in sets && IssuedAs(Contents(), id, d) {
        var id :| id in sets && IssuedAs(Contents(), id, d);
        var found := Verified(sets[id].snapshot, rules);
        r := if found.Ok? then Ok(SummaryOf(found.value)) else Err(found.error);
        return;
      }
      if s.setId in sets {
        return Err(RowExists);
      }
      var inserted := InsertReferences(s);
      sets, refs := sets[s.setId := NewSetRow(s)], inserted;
      NewKeys(old(refs), s, |s.references|);
      return Ok(SummaryOf(s));
    }

    method RestoreSnapshot(trip: nat, setId: string, rules: Rules) returns (r: Result<Snapshot, Error>)
      ensures r == Restore(Contents(), trip, setId, rules)
    {
      hide Verified, RowsMatch;
      if setId !in sets {
        return Err(NotFound);
      }
      var row := sets[setId];
      if row.trip != trip {
        return Err(TripMismatch);
      }
      var verified := Verified(row.snapshot, rules);
      if verified.Err? {
        return verified;
      }
      var s := verified.value;
      if s.setId != setId || s.digest != row.digest || s.draft.trip != row.trip || s.issuedAt != row.issuedAt {
        return Err(Integrity);
      }
      VerifiedHasPayloads(row.snapshot, rules);
      var ok := VerifyReferenceRows(s);
      return if ok then Ok(s) else Err(Integrity);
    }

    /** The stored ids are the expected ones, and the rows agree column by column. */
    method VerifyReferenceRows(s: Snapshot) returns (ok: bool)
      requires forall i :: 0 <= i < |s.references| ==> HasPayload(s.draft, s.references[i])
      ensures ok <==> RowsMatch(Contents(), s)
    {
      hide RowFor, HasPayload;
      var stored := set k | k in refs && k.0 == s.setId :: k.1;
      var expected := set i | 0 <= i < |s.references| :: s.references[i].refId;
      assert forall id :: id in stored <==> (s.setId, id) in refs;
      assert forall id :: id in expected <==> RefIdIn(s.references, id);
      if stored != expected {
        return false;
      }
      var i := 0;
      while i < |s.references|
        invariant 0 <= i <= |s.references|
        invariant forall j :: 0 <= j < i ==> refs[(s.setId, s.references[j].refId)] == RowFor(s.draft, s.references[j])
      {
        assert s.references[i].refId in expected;
        if refs[(s.setId, s.references[i].refId)] != RowFor(s.draft, s.references[i]) {
          return false;
        }
        i := i + 1;
      }
      return true;
    }

    /** The insert loop; the rows become visible with the commit. */
    method InsertReferences(s: Snapshot) returns (inserted: map<(string, string), RefRow>)
      requires forall i :: 0 <= i < |s.references| ==> HasPayload(s.draft, s.references[i])
      ensures inserted == WithRefs(refs, s, |s.references|)
    {
      hide RowFor;
      inserted := refs;
      var i := 0;
      while i < |s.references|
        invariant 0 <= i <= |s.references|
        invariant inserted == WithRefs(refs, s, i)
      {
        inserted := inserted[(s.setId, s.references[i].refId) := RowFor(s.draft, s.references[i])];
        i := i + 1;
      }
    }
  }

  /** A verified snapshot's references all stand for payloads of its draft. */
  lemma VerifiedHasPayloads(text: SnapshotText, rules: Rules)
    requires Verified(text, rules).Ok?
    ensures var s := Verified(text, rules).value;
      forall i :: 0 <= i < |s.references| ==> HasPayload(s.draft, s.references[i])
  {
    AllHavePayloads(text.snapshot.draft, rules);
  }

  lemma AllHavePayloads(d: Draft, rules: Rules)
    requires ValidDraft(d, rules)
    ensures forall i :: 0 <= i < |Payloads(d)| ==> HasPayload(d, ReferenceTo(Payloads(d)[i], rules))
  {
    forall i | 0 <= i < |Payloads(d)|
      ensures HasPayload(d, ReferenceTo(Payloads(d)[i], rules))
    {
      ReferenceHasPayload(d, rules, i);
    }
  }

  /** The inserts touch only the set's own keys, and every reference gets its row. */
  lemma {:induction false} NewKeys(refs: map<(string, string), RefRow>, s: Snapshot, n: nat)
    requires n <= |s.references| && forall i :: 0 <= i < n ==> HasPayload(s.draft, s.references[i])
    ensures var w := WithRefs(refs, s, n);
      && (forall k :: k in w <==> k in refs || (k.0 == s.setId && RefIdIn(s.references[..n], k.1)))
      && (forall k :: k in refs && k.0 != s.setId ==> w[k] == refs[k])
  {
    if n > 0 {
      NewKeys(refs, s, n - 1);
      assert s.references[..n] == s.references[..n - 1] + [s.references[n - 1]];
      var w := WithRefs(refs, s, n);
      forall k
        ensures k in w <==> k in refs || (k.0 == s.setId && RefIdIn(s.references[..n], k.1))
      {
        RefIdOfAppend(s.references[..n - 1], s.references[n - 1], k.1);
      }
    }
  }

  lemma RefIdOfAppend(rs: seq<Reference>, r: Reference, id: string)
    ensures RefIdIn(rs + [r], id) <==> RefIdIn(rs, id) || r.refId == id
  {
    if RefIdIn(rs, id) {
      var i :| 0 <= i < |rs| && rs[i].refId == id;
      assert (rs + [r])[i] == rs[i];
    }
    assert (rs + [r])[|rs|] == r;
  }
}
