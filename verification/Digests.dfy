/** Draft revisions and the digests of app/domain/collaboration_digest.py. Hashing is taken as injective, so a
    digest is modelled as the content it binds. */
module Digests {
  import opened Prelude
  import opened TripDraft

  /** TripDraftRevision. Identifiers are numbers; a binding maps the number in "member-k" to a participant id. */
  datatype RevisionData = RevisionData(
    draftId: nat, revision: nat, tripId: nat, understanding: Proposal, bindings: map<nat, nat>, sourceRequest: nat)

  function KeySet(ps: seq<Participant>): set<nat> {
    set i | 0 <= i < |ps| :: ps[i].memberKey
  }

  predicate Injective(m: map<nat, nat>) {
    forall a, b :: a in m && b in m && a != b ==> m[a] != m[b]
  }

  /** What TripDraftRevision validates about its bindings. */
  predicate ValidRevision(r: RevisionData) {
    && r.understanding.participants != []
    && r.bindings.Keys == KeySet(r.understanding.participants)
    && Injective(r.bindings)
  }

  const NO_TRIP := Trip(None, None, None, None, None, None, None)
  const LONE_MEMBER := Participant(1, None, None, [], [], [], None)
  const LONE_DRAFT := Proposal(NO_TRIP, [LONE_MEMBER], [], [], [], [])

  type Revision = r: RevisionData | ValidRevision(r)
    witness (assert KeySet([LONE_MEMBER]) == {1} by { assert [LONE_MEMBER][0].memberKey == 1; }
             RevisionData(0, 1, 0, LONE_DRAFT, map[1 := 0], 0))

  datatype SharedDigest = SharedDigest(trip: Trip, memberKeys: set<nat>)

  datatype MemberDigest = MemberDigest(memberKey: nat, participantId: nat, participant: Participant)

  /** The source digest binds every field of the revision, including its number. */
  datatype SourceDigest = SourceDigest(of: RevisionData)

  datatype ReadinessDigest = ReadinessDigest(
    draftId: nat, revision: nat, source: SourceDigest, bindings: map<nat, nat>, confirmations: map<nat, MemberDigest>)

  /** The first participant carrying a member key. */
  function FirstWithKey(ps: seq<Participant>, key: nat): (q: Participant)
    requires key in KeySet(ps)
    ensures q in ps && q.memberKey == key
  {
    if ps[0].memberKey == key then ps[0] else
      assert key in KeySet(ps[1..]) by {
        var i :| 0 <= i < |ps| && ps[i].memberKey == key;
        assert ps[1..][i - 1].memberKey == key;
      }
      FirstWithKey(ps[1..], key)
  }

  lemma FirstWithSequentialKey(ps: seq<Participant>, key: nat)
    requires SequentialKeys(ps) && key in KeySet(ps)
    ensures 1 <= key <= |ps| && FirstWithKey(ps, key) == ps[key - 1]
  {
    var i :| 0 <= i < |ps| && ps[i].memberKey == key;
    var q := FirstWithKey(ps, key);
    var j :| 0 <= j < |ps| && ps[j] == q;
  }

  function SourceOf(r: Revision): SourceDigest {
    SourceDigest(r)
  }

  function SharedOf(r: Revision): SharedDigest {
    SharedDigest(r.understanding.trip, r.bindings.Keys)
  }

  function MemberOf(r: Revision, key: nat): MemberDigest
    requires key in r.bindings
  {
    MemberDigest(key, r.bindings[key], FirstWithKey(r.understanding.participants, key))
  }

  function ReadinessOf(r: Revision): ReadinessDigest {
    ReadinessDigest(r.draftId, r.revision, SourceOf(r), r.bindings, map k | k in r.bindings :: MemberOf(r, k))
  }

  /** A readiness digest determines the revision it was computed from. */
  lemma ReadinessBindsRevision(a: Revision, b: Revision)
    requires ReadinessOf(a) == ReadinessOf(b)
    ensures a == b
  {
    assert ReadinessOf(a).source == ReadinessOf(b).source;
  }
}
