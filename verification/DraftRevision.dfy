/** The two rewrites of app/application/trip_draft_revision_service.py: merging one member's profile into a
    group proposal, and aligning a proposal to the stated party size. */
module DraftRevision {
  import opened Prelude
  import opened TripDraft

  /** The entries whose slot passes a test, in order. */
  function KeepIf<T(!new)>(es: seq<Entry<T>>, keep: Slot -> bool): (r: seq<Entry<T>>)
    ensures forall e :: e in r <==> e in es && keep(e.slot)
  {
    if es == [] then [] else (if keep(es[0].slot) then [es[0]] else []) + KeepIf(es[1..], keep)
  }

  // ---- Merging a member profile ------------------------------------------------------------

  /** The tails a member profile owns; the nickname only when the new profile states one. */
  predicate ProfileTail(t: Tail, withNickname: bool) {
    match t
    case Nickname => withNickname
    case BudgetCap => true
    case Whole(_) => false
    case Item(_, _) => true
    case CareOf(_) => true
  }

  predicate IsReplaced(s: Slot, own: nat, withNickname: bool) {
    s.path.Member? && s.path.index == own && s.member == Some(own + 1) && ProfileTail(s.path.tail, withNickname)
  }

  /** The entries a merge leaves alone. */
  function Untouched(own: nat, withNickname: bool): Slot -> bool {
    s => !IsReplaced(s, own, withNickname)
  }

  /** Where an entry of the merged proposal comes from in the one-member profile. */
  function Origin(s: Slot): Slot
    requires s.path.Member?
  {
    Slot(Member(0, s.path.tail), Some(1))
  }

  /** The profile's own entries, re-addressed from participant 0 to participant `own`. */
  function Retargeted<T(!new)>(es: seq<Entry<T>>, own: nat, withNickname: bool): (r: seq<Entry<T>>)
    ensures forall e :: e in r <==> IsReplaced(e.slot, own, withNickname) && Entry(Origin(e.slot), e.data) in es
  {
    if es == [] then []
    else
      (if IsReplaced(es[0].slot, 0, withNickname)
       then [Entry(Slot(Member(own, es[0].slot.path.tail), Some(own + 1)), es[0].data)] else [])
      + Retargeted(es[1..], own, withNickname)
  }

  function Splice<T(!new)>(current: seq<Entry<T>>, profile: seq<Entry<T>>, own: nat, withNickname: bool): seq<Entry<T>> {
    KeepIf(current, Untouched(own, withNickname)) + Retargeted(profile, own, withNickname)
  }

  function MergedParticipant(before: Participant, extracted: Participant): Participant {
    extracted.(
      memberKey := before.memberKey,
      nickname := if extracted.nickname.Some? then extracted.nickname else before.nickname)
  }

  function Merged(current: Proposal, profile: Proposal, own: nat): Proposal
    requires |profile.participants| == 1 && own < |current.participants|
  {
    var extracted := profile.participants[0];
    var nick := extracted.nickname.Some?;
    Proposal(
      current.trip,
      current.participants[own := MergedParticipant(current.participants[own], extracted)],
      Splice(current.evidence, profile.evidence, own, nick),
      Splice(current.missing, profile.missing, own, nick),
      Splice(current.ambiguities, profile.ambiguities, own, nick),
      Splice(current.questions, profile.questions, own, nick))
  }

  datatype MergeError = BindingsImmutable | ScopeViolation | UnderstandingInvalid

  function Keys(p: Proposal): seq<nat> {
    seq(|p.participants|, i requires 0 <= i < |p.participants| => p.participants[i].memberKey)
  }

  predicate UntouchedOthers(before: Proposal, after: Proposal, own: nat) {
    && |after.participants| == |before.participants|
    && (forall i :: 0 <= i < |before.participants| && before.participants[i].memberKey != own + 1 ==>
          after.participants[i] == before.participants[i])
  }

  /** `_merge_member_scope`: a same-shape candidate may differ from the current proposal only in its own member. */
  function MergeMemberScope(current: Proposal, candidate: Proposal, own: nat): (r: Result<Proposal, MergeError>)
    ensures r.Ok? ==> r.value.trip == current.trip && Keys(r.value) == Keys(current)
    ensures r.Ok? ==> UntouchedOthers(current, r.value, own)
  {
    if Keys(candidate) != Keys(current) then Err(BindingsImmutable)
    else if candidate.trip != current.trip then Err(ScopeViolation)
    else
      assert |candidate.participants| == |Keys(candidate)| == |current.participants|;
      if !UntouchedOthers(current, candidate, own) then Err(ScopeViolation) else Ok(candidate)
  }

  lemma {:induction false} KeepIfAppend<T(!new)>(a: seq<Entry<T>>, b: seq<Entry<T>>, keep: Slot -> bool)
    ensures KeepIf(a + b, keep) == KeepIf(a, keep) + KeepIf(b, keep)
  {
    if a == [] {
      assert a + b == b;
    } else {
      assert (a + b)[1..] == a[1..] + b;
      KeepIfAppend(a[1..], b, keep);
    }
  }

  lemma {:induction false} RetargetedAppend<T(!new)>(a: seq<Entry<T>>, b: seq<Entry<T>>, own: nat, withNickname: bool)
    ensures Retargeted(a + b, own, withNickname) == Retargeted(a, own, withNickname) + Retargeted(b, own, withNickname)
  {
    if a == [] {
      assert a + b == b;
    } else {
      assert (a + b)[1..] == a[1..] + b;
      RetargetedAppend(a[1..], b, own, withNickname);
    }
  }

  method KeepList<T(!new)>(es: seq<Entry<T>>, keep: Slot -> bool) returns (kept: seq<Entry<T>>)
    ensures kept == KeepIf(es, keep)
  {
    kept := [];
    var i := 0;
    while i < |es|
      invariant 0 <= i <= |es|
      invariant kept == KeepIf(es[..i], keep)
    {
      assert es[..i + 1] == es[..i] + [es[i]];
      KeepIfAppend(es[..i], [es[i]], keep);
      if keep(es[i].slot) {
        kept := kept + [es[i]];
      }
      i := i + 1;
    }
    assert es[..i] == es;
  }

  method AppendRetargeted<T(!new)>(kept: seq<Entry<T>>, profile: seq<Entry<T>>, own: nat, withNickname: bool)
    returns (merged: seq<Entry<T>>)
    ensures merged == kept + Retargeted(profile, own, withNickname)
  {
    merged := kept;
    var i := 0;
    while i < |profile|
      invariant 0 <= i <= |profile|
      invariant merged == kept + Retargeted(profile[..i], own, withNickname)
    {
      var e := profile[i];
      assert profile[..i + 1] == profile[..i] + [e];
      RetargetedAppend(profile[..i], [e], own, withNickname);
      if IsReplaced(e.slot, 0, withNickname) {
        merged := merged + [Entry(Slot(Member(own, e.slot.path.tail), Some(own + 1)), e.data)];
      }
      i := i + 1;
    }
    assert profile[..i] == profile;
  }

  /** Filters a collection of the payload and extends it with the re-addressed profile entries. */
  method SpliceList<T(!new)>(current: seq<Entry<T>>, profile: seq<Entry<T>>, own: nat, withNickname: bool)
    returns (merged: seq<Entry<T>>)
    ensures merged == Splice(current, profile, own, withNickname)
  {
    var kept := KeepList(current, Untouched(own, withNickname));
    merged := AppendRetargeted(kept, profile, own, withNickname);
  }
}
