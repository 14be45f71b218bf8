/** What issuing a fact set writes, column by column, and which drafts it accepts. */
module RegistryRows {
  import opened Prelude
  import opened FactRegistry
  import opened FactRegistryLaws
  import Lex = Lexicographic

  // ---- The payloads in the order of the references ---------------------------------------------

  lemma {:induction false} IdsCount(ps: seq<Payload>)
    requires DistinctIds(ps)
    ensures |Ids(ps)| == |ps|
  {
    if ps != [] {
      var front, last := ps[..|ps| - 1], ps[|ps| - 1];
      IdsCount(front);
      assert Ids(ps) == Ids(front) + {last.objectId};
    }
  }

  /** Sorting by id keeps exactly the payloads, the ids ascending. */
  lemma SortedByIdIs(ps: seq<Payload>)
    requires DistinctIds(ps)
    ensures var sorted := SortedById(ps);
      && |sorted| == |ps| && (forall p :: p in sorted <==> p in ps)
      && (forall i, j :: 0 <= i < j < |sorted| ==> Lex.Less(sorted[i].objectId, sorted[j].objectId))
  {
    hide Lex.Less, Lex.Sorted;
    IdsCount(ps);
    Lex.SortedAscends(Ids(ps));
    var sorted, ids := SortedById(ps), Lex.Sorted(Ids(ps));
    forall p | p in ps
      ensures p in sorted
    {
      var i :| 0 <= i < |ps| && ps[i] == p;
      assert p.objectId in ids;
      var k :| 0 <= k < |ids| && ids[k] == p.objectId;
      var j :| 0 <= j < |ps| && ps[j] == sorted[k];
      assert i == j;
    }
  }

  /** The reference of a payload, column by column. */
  function RefOf(p: Payload, prefix: string, rules: Rules): Reference {
    Reference(prefix + rules.short(OfPayload(p)), p.kind, p.objectId, OfPayload(p), p.source, p.fetchedAt, p.stale)
  }

  predicate Valid(d: Draft, rules: Rules) {
    && (forall i, j :: 0 <= i < j < |d.places| ==> d.places[i].objectId != d.places[j].objectId)
    && (forall i, j :: 0 <= i < j < |d.routes| ==> d.routes[i].objectId != d.routes[j].objectId)
    && (forall i :: 0 <= i < |d.places| ==> d.places[i].kind.PlaceFact?)
    && (forall i :: 0 <= i < |d.routes| ==> d.routes[i].kind.RouteFact?)
    && rules.trusted(d)
  }

  /** Two places, or two routes, whose digests are cut to the same text. */
  ghost predicate Collide(ps: seq<Payload>, rules: Rules) {
    exists p, q :: p in ps && q in ps && p != q && rules.short(OfPayload(p)) == rules.short(OfPayload(q))
  }

  /** The payload at a position is one of the places, or behind them one of the routes. */
  lemma PayloadAt(d: Draft, rules: Rules, i: nat)
    requires Valid(d, rules) && i < |Payloads(d)|
    ensures |Payloads(d)| == |d.places| + |d.routes|
    ensures var p := Payloads(d)[i];
      if i < |d.places| then i < |SortedById(d.places)| && p == SortedById(d.places)[i] && p in d.places && p.kind.PlaceFact?
      else i - |d.places| < |SortedById(d.routes)| && p == SortedById(d.routes)[i - |d.places|] && p in d.routes && p.kind.RouteFact?
  {
    SortedByIdIs(d.places);
    SortedByIdIs(d.routes);
    hide SortedById, Lex.Less, Lex.Sorted, Ids;
    var p := Payloads(d)[i];
    if i < |d.places| {
      assert p in SortedById(d.places);
      var k :| 0 <= k < |d.places| && d.places[k] == p;
    } else {
      assert p in SortedById(d.routes);
      var k :| 0 <= k < |d.routes| && d.routes[k] == p;
    }
  }

  /** The references are those of the places by ascending id, then those of the routes by ascending id. */
  lemma ReferencesAre(d: Draft, rules: Rules, i: nat)
    requires Valid(d, rules) && i < |Payloads(d)|
    ensures |Payloads(d)| == |d.places| + |d.routes|
    ensures var p := Payloads(d)[i];
      && p in (if i < |d.places| then d.places else d.routes)
      && ReferencesTo(Payloads(d), rules)[i] == RefOf(p, if i < |d.places| then "AMAP:" else "fact-route-", rules)
  {
    PayloadAt(d, rules, i);
    hide Payloads, SortedById, Valid, Lex.Less, Lex.Sorted, Ids;
  }

  lemma OtherPrefix(a: string, b: string)
    ensures "AMAP:" + a != "fact-route-" + b
  {
    assert ("AMAP:" + a)[0] == 'A' && ("fact-route-" + b)[0] == 'f';
  }

  lemma SamePrefix(prefix: string, a: string, b: string)
    ensures prefix + a == prefix + b <==> a == b
  {
    assert (prefix + a)[|prefix|..] == a && (prefix + b)[|prefix|..] == b;
  }

  lemma PayloadsDiffer(d: Draft, rules: Rules, i: nat, j: nat)
    requires Valid(d, rules) && i < j < |Payloads(d)|
    requires i >= |d.places| || j < |d.places|
    ensures Payloads(d)[i] != Payloads(d)[j]
  {
    SortedByIdIs(d.places);
    SortedByIdIs(d.routes);
    PayloadAt(d, rules, i);
    PayloadAt(d, rules, j);
    hide SortedById, Payloads, Lex.Less, Lex.Sorted, Ids;
    Lex.Irreflexive(Payloads(d)[i].objectId);
  }

  /** Where a payload stands. */
  lemma PositionOf(d: Draft, rules: Rules, p: Payload, place: bool) returns (i: nat)
    requires Valid(d, rules) && p in (if place then d.places else d.routes)
    ensures i < |Payloads(d)| && Payloads(d)[i] == p && (i < |d.places| <==> place)
  {
    SortedByIdIs(d.places);
    SortedByIdIs(d.routes);
    hide SortedById, DistinctIds, Valid;
    i := IndexInJoined(SortedById(d.places), SortedById(d.routes), p, place);
  }

  lemma IndexInJoined<T>(x: seq<T>, y: seq<T>, e: T, first: bool) returns (i: nat)
    requires e in (if first then x else y)
    ensures i < |x + y| && (x + y)[i] == e && (i < |x| <==> first)
  {
    if first {
      i :| 0 <= i < |x| && x[i] == e;
    } else {
      var k :| 0 <= k < |y| && y[k] == e;
      i := |x| + k;
    }
  }

  /** The references exist exactly when no two places and no two routes collide; a place never collides with a route. */
  lemma ReferencesIff(d: Draft, rules: Rules)
    requires Valid(d, rules)
    ensures References(d, rules).Ok? <==> !Collide(d.places, rules) && !Collide(d.routes, rules)
    ensures References(d, rules).Err? ==> References(d, rules).error == RefCollision
  {
    hide Payloads, SortedById, Valid, Lex.Less, Lex.Sorted, Ids, ReferenceTo;
    var rs, ps := ReferencesTo(Payloads(d), rules), Payloads(d);
    if i: nat, j: nat :| i < j < |rs| && rs[i].refId == rs[j].refId {
      EqualIdsCollide(d, rules, i, j);
    }
    if p, q :| p in d.places && q in d.places && p != q && rules.short(OfPayload(p)) == rules.short(OfPayload(q)) {
      var i := PositionOf(d, rules, p, true);
      var j := PositionOf(d, rules, q, true);
      SameReference(d, rules, i, j);
    }
    if p, q :| p in d.routes && q in d.routes && p != q && rules.short(OfPayload(p)) == rules.short(OfPayload(q)) {
      var i := PositionOf(d, rules, p, false);
      var j := PositionOf(d, rules, q, false);
      SameReference(d, rules, i, j);
    }
  }

  lemma EqualIdsCollide(d: Draft, rules: Rules, i: nat, j: nat)
    requires Valid(d, rules) && i < j < |Payloads(d)|
    requires ReferencesTo(Payloads(d), rules)[i].refId == ReferencesTo(Payloads(d), rules)[j].refId
    ensures Collide(d.places, rules) || Collide(d.routes, rules)
  {
    var ps := Payloads(d);
    ReferencesAre(d, rules, i);
    ReferencesAre(d, rules, j);
    hide Payloads, SortedById, Valid, Lex.Less, Lex.Sorted, Ids, ReferenceTo;
    if i < |d.places| <= j {
      OtherPrefix(rules.short(OfPayload(ps[i])), rules.short(OfPayload(ps[j])));
    } else {
      SamePrefix(if i < |d.places| then "AMAP:" else "fact-route-", rules.short(OfPayload(ps[i])), rules.short(OfPayload(ps[j])));
      PayloadsDiffer(d, rules, i, j);
    }
  }

  lemma SameReference(d: Draft, rules: Rules, i: nat, j: nat)
    requires Valid(d, rules) && i < |Payloads(d)| && j < |Payloads(d)| && i != j && (i < |d.places| <==> j < |d.places|)
    requires rules.short(OfPayload(Payloads(d)[i])) == rules.short(OfPayload(Payloads(d)[j]))
    ensures References(d, rules).Err?
  {
    ReferencesAre(d, rules, i);
    ReferencesAre(d, rules, j);
    hide Payloads, Valid;
    var rs := ReferencesTo(Payloads(d), rules);
    assert rs[i].refId == rs[j].refId;
    assert !DistinctRefs(rs) by {
      if i < j {
        assert rs[i].refId == rs[j].refId;
      } else {
        assert rs[j].refId == rs[i].refId;
      }
    }
  }

  // ---- Issuing -------------------------------------------------------------------------------------

  /** A draft that is not on file is issued exactly if it is valid, no two of its digests are cut alike, and its set id is
      not taken; the set id and the answer carry the draft's digest. */
  lemma IssuesIff(t: Tables, u: Tables, d: Draft, issuedAt: int, rules: Rules, r: Result<Summary, Error>)
    requires Issues(t, u, d, issuedAt, rules, r)
    requires forall id :: id in t.sets ==> t.sets[id].trip != d.trip || t.sets[id].digest != OfDraft(d)
    ensures r.Ok? <==>
      && Valid(d, rules) && !Collide(d.places, rules) && !Collide(d.routes, rules)
      && "fact-set-" + rules.short(OfDraft(d)) !in t.sets
    ensures r.Ok? ==>
      && r.value.setId == "fact-set-" + rules.short(OfDraft(d)) && r.value.digest == OfDraft(d)
      && r.value.trip == d.trip && r.value.issuedAt == issuedAt && |r.value.references| == |d.places| + |d.routes|
    ensures r == Err(Invalid) <==> !Valid(d, rules)
    ensures r == Err(RefCollision) <==> Valid(d, rules) && (Collide(d.places, rules) || Collide(d.routes, rules))
  {
    assert Valid(d, rules) <==> ValidDraft(d, rules);
    hide Valid, ValidDraft, References, Collide, WithRefs, HasPayload;
    assert forall id :: !IssuedAs(t, id, d);
    if Valid(d, rules) {
      ReferencesIff(d, rules);
      if References(d, rules).Ok? {
        ReferencesCount(d, rules);
      }
    }
  }

  lemma ReferencesCount(d: Draft, rules: Rules)
    requires Valid(d, rules) && References(d, rules).Ok?
    ensures |References(d, rules).value| == |d.places| + |d.routes|
  {
    SortedByIdIs(d.places);
    SortedByIdIs(d.routes);
  }

  /** The references of an issued set: the places by ascending id, then the routes by ascending id, every column the
      payload's own. */
  lemma ReferencesAnswered(t: Tables, u: Tables, d: Draft, issuedAt: int, rules: Rules, r: Result<Summary, Error>, i: nat)
    returns (p: Payload)
    requires Issues(t, u, d, issuedAt, rules, r) && r.Ok? && i < |r.value.references|
    requires forall id :: id in t.sets ==> t.sets[id].trip != d.trip || t.sets[id].digest != OfDraft(d)
    ensures p in (if i < |d.places| then d.places else d.routes)
    ensures r.value.references[i] ==
      Reference((if i < |d.places| then "AMAP:" else "fact-route-") + rules.short(OfPayload(p)),
                p.kind, p.objectId, OfPayload(p), p.source, p.fetchedAt, p.stale)
    ensures i > 0 && i != |d.places| ==> Lex.Less(r.value.references[i - 1].objectId, r.value.references[i].objectId)
  {
    AnsweredReferences(t, u, d, issuedAt, rules, r);
    p := Payloads(d)[i];
    ReferencesAre(d, rules, i);
    PayloadAt(d, rules, i);
    SortedByIdIs(d.places);
    SortedByIdIs(d.routes);
    hide SortedById, Payloads, Valid, Lex.Less, Lex.Sorted, Ids, Issues, ReferenceTo;
    if i > 0 && i != |d.places| {
      ReferencesAre(d, rules, i - 1);
      PayloadAt(d, rules, i - 1);
    }
  }

  lemma AnsweredReferences(t: Tables, u: Tables, d: Draft, issuedAt: int, rules: Rules, r: Result<Summary, Error>)
    requires Issues(t, u, d, issuedAt, rules, r) && r.Ok?
    requires forall id :: id in t.sets ==> t.sets[id].trip != d.trip || t.sets[id].digest != OfDraft(d)
    ensures Valid(d, rules) && r.value.references == ReferencesTo(Payloads(d), rules)
  {
    assert forall id :: !IssuedAs(t, id, d);
    hide Payloads, DistinctRefs, WithRefs, HasPayload, ReferenceTo;
  }

  /** The set row of an issued set holds the draft and its references, and there is a reference row for exactly each of
      these references. */
  lemma RowsWritten(t: Tables, u: Tables, d: Draft, issuedAt: int, rules: Rules, r: Result<Summary, Error>, id: string)
    requires Constraints(t) && Issues(t, u, d, issuedAt, rules, r) && r.Ok?
    requires forall k :: k in t.sets ==> t.sets[k].trip != d.trip || t.sets[k].digest != OfDraft(d)
    ensures var setId := r.value.setId;
      && setId in u.sets
      && u.sets[setId] == SetRow(d.trip, OfDraft(d), Serialized(Snapshot(setId, OfDraft(d), issuedAt, d, r.value.references)), issuedAt)
      && ((setId, id) in u.refs <==> exists i :: 0 <= i < |r.value.references| && r.value.references[i].refId == id)
  {
    hide Issues, ValidDraft, References, WithRefs, HasPayload, Constraints;
    StoredAs(t, u, d, issuedAt, rules, r);
    RowKeys(t.refs, NewSnapshot(d, issuedAt, References(d, rules).value, rules), id);
  }

  lemma RowKeys(refs: map<(string, string), RefRow>, s: Snapshot, id: string)
    requires (forall i :: 0 <= i < |s.references| ==> HasPayload(s.draft, s.references[i]))
    requires (s.setId, id) !in refs
    ensures (s.setId, id) in WithRefs(refs, s, |s.references|) <==>
      exists i :: 0 <= i < |s.references| && s.references[i].refId == id
  {
    hide HasPayload, WithRefs;
    NewKeys(refs, s, |s.references|);
    assert s.references[..|s.references|] == s.references;
  }

  /** A reference row of an issued set has the columns of the payload its id stands for, and the payload itself. */
  lemma RowColumns(t: Tables, u: Tables, d: Draft, issuedAt: int, rules: Rules, r: Result<Summary, Error>, id: string)
    requires Constraints(t) && Issues(t, u, d, issuedAt, rules, r) && r.Ok?
    requires forall k :: k in t.sets ==> t.sets[k].trip != d.trip || t.sets[k].digest != OfDraft(d)
    requires (r.value.setId, id) in u.refs
    ensures
      exists p :: (p in d.places || p in d.routes) &&
        id == (if p.kind.PlaceFact? then "AMAP:" else "fact-route-") + rules.short(OfPayload(p)) &&
        u.refs[(r.value.setId, id)] == RefRow(p.kind, p.objectId, OfPayload(p), Canonical(p), p.source, p.fetchedAt, p.stale)
  {
    hide Issues, ValidDraft, References, WithRefs, HasPayload, Constraints;
    StoredAs(t, u, d, issuedAt, rules, r);
    var s := NewSnapshot(d, issuedAt, References(d, rules).value, rules);
    RowKeys(t.refs, s, id);
    var i :| 0 <= i < |s.references| && s.references[i].refId == id;
    RowStored(d, issuedAt, rules, t.refs, i);
  }

  lemma StoredAs(t: Tables, u: Tables, d: Draft, issuedAt: int, rules: Rules, r: Result<Summary, Error>)
    requires Constraints(t) && Issues(t, u, d, issuedAt, rules, r) && r.Ok?
    requires forall k :: k in t.sets ==> t.sets[k].trip != d.trip || t.sets[k].digest != OfDraft(d)
    ensures ValidDraft(d, rules) && References(d, rules).Ok?
    ensures var s := NewSnapshot(d, issuedAt, References(d, rules).value, rules);
      && r.value == SummaryOf(s) && u.sets == t.sets[s.setId := NewSetRow(s)]
      && (forall k :: k in t.refs ==> k.0 != s.setId)
      && (forall i :: 0 <= i < |s.references| ==> HasPayload(d, s.references[i]))
      && u.refs == WithRefs(t.refs, s, |s.references|)
  {
    assert forall k :: !IssuedAs(t, k, d);
    hide ValidDraft, References, WithRefs, HasPayload;
  }

  /** The row of one reference after all inserts. */
  lemma RowStored(d: Draft, issuedAt: int, rules: Rules, refs: map<(string, string), RefRow>, i: nat)
    requires ValidDraft(d, rules) && References(d, rules).Ok?
    requires i < |References(d, rules).value|
    requires forall j :: 0 <= j < |References(d, rules).value| ==> HasPayload(d, References(d, rules).value[j])
    ensures var s := NewSnapshot(d, issuedAt, References(d, rules).value, rules);
      var w, k := WithRefs(refs, s, |s.references|), (s.setId, s.references[i].refId);
      k in w &&
      exists p :: (p in d.places || p in d.routes) &&
        k.1 == (if p.kind.PlaceFact? then "AMAP:" else "fact-route-") + rules.short(OfPayload(p)) &&
        w[k] == RefRow(p.kind, p.objectId, OfPayload(p), Canonical(p), p.source, p.fetchedAt, p.stale)
  {
    hide ValidDraft, Payloads, DistinctRefs, WithRefs, RowFor, HasPayload, ReferenceTo;
    var s := NewSnapshot(d, issuedAt, References(d, rules).value, rules);
    RefsDistinct(d, rules);
    WithRefsAt(refs, s, |s.references|, i);
    RowOfPayload(d, rules, i);
  }

  lemma RowOfPayload(d: Draft, rules: Rules, i: nat)
    requires ValidDraft(d, rules) && i < |Payloads(d)|
    ensures var p, ref := Payloads(d)[i], ReferenceTo(Payloads(d)[i], rules);
      && (p in d.places || p in d.routes)
      && HasPayload(d, ref)
      && RowFor(d, ref) == RefRow(p.kind, p.objectId, OfPayload(p), Canonical(p), p.source, p.fetchedAt, p.stale)
      && ref.refId == (if p.kind.PlaceFact? then "AMAP:" else "fact-route-") + rules.short(OfPayload(p))
  {
    ReferenceHasPayload(d, rules, i);
    hide ValidDraft;
  }
}
