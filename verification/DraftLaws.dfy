/** What the member-profile merge preserves: it lands among the well-formed proposals, touches one member
    only, and composes the way repeated and concurrent edits must. */
module DraftLaws {
  import opened Prelude
  import opened TripDraft
  import opened DraftRevision

  // ---- Membership and distinctness of spliced collections ----------------------------------

  /** The identity of an entry: its slot, with whatever part of its data `tag` selects. */
  ghost function Tagged<T, K>(es: seq<Entry<T>>, tag: T -> K): set<(Slot, K)> {
    set i | 0 <= i < |es| :: (es[i].slot, tag(es[i].data))
  }

  ghost predicate DistinctTags<T, K>(es: seq<Entry<T>>, tag: T -> K) {
    forall i, j :: 0 <= i < j < |es| ==> (es[i].slot, tag(es[i].data)) != (es[j].slot, tag(es[j].data))
  }

  lemma SpliceMember<T(!new)>(current: seq<Entry<T>>, profile: seq<Entry<T>>, own: nat, nick: bool, e: Entry<T>)
    ensures e in Splice(current, profile, own, nick) <==>
      if IsReplaced(e.slot, own, nick) then Entry(Origin(e.slot), e.data) in profile else e in current
  {
  }

  lemma TagOfMember<T, K>(es: seq<Entry<T>>, tag: T -> K, e: Entry<T>)
    requires e in es
    ensures (e.slot, tag(e.data)) in Tagged(es, tag)
  {
  }

  lemma SpliceTags<T(!new), K>(current: seq<Entry<T>>, profile: seq<Entry<T>>, own: nat, nick: bool, tag: T -> K, id: (Slot, K))
    ensures id in Tagged(Splice(current, profile, own, nick), tag) <==>
      if IsReplaced(id.0, own, nick) then (Origin(id.0), id.1) in Tagged(profile, tag) else id in Tagged(current, tag)
  {
    var merged := Splice(current, profile, own, nick);
    if id in Tagged(merged, tag) {
      var i :| 0 <= i < |merged| && id == (merged[i].slot, tag(merged[i].data));
      SpliceMember(current, profile, own, nick, merged[i]);
      if IsReplaced(id.0, own, nick) {
        TagOfMember(profile, tag, Entry(Origin(id.0), merged[i].data));
      } else {
        TagOfMember(current, tag, merged[i]);
      }
    }
    if IsReplaced(id.0, own, nick) && (Origin(id.0), id.1) in Tagged(profile, tag) {
      var i :| 0 <= i < |profile| && (Origin(id.0), id.1) == (profile[i].slot, tag(profile[i].data));
      var e := Entry(id.0, profile[i].data);
      SpliceMember(current, profile, own, nick, e);
      assert Entry(Origin(e.slot), e.data) == profile[i];
      TagOfMember(merged, tag, e);
    }
    if !IsReplaced(id.0, own, nick) && id in Tagged(current, tag) {
      var i :| 0 <= i < |current| && id == (current[i].slot, tag(current[i].data));
      SpliceMember(current, profile, own, nick, current[i]);
      TagOfMember(merged, tag, current[i]);
    }
  }

  lemma {:induction false} KeepIfDistinct<T(!new), K>(es: seq<Entry<T>>, keep: Slot -> bool, tag: T -> K)
    requires DistinctTags(es, tag)
    ensures DistinctTags(KeepIf(es, keep), tag)
  {
    if es != [] {
      KeepIfDistinct(es[1..], keep, tag);
      var rest := KeepIf(es[1..], keep);
      forall j | 0 <= j < |rest|
        ensures (es[0].slot, tag(es[0].data)) != (rest[j].slot, tag(rest[j].data))
      {
        assert rest[j] in es[1..];
      }
    }
  }

  lemma {:induction false} RetargetedDistinct<T(!new), K>(es: seq<Entry<T>>, own: nat, nick: bool, tag: T -> K)
    requires DistinctTags(es, tag)
    ensures DistinctTags(Retargeted(es, own, nick), tag)
  {
    if es != [] {
      RetargetedDistinct(es[1..], own, nick, tag);
      var rest := Retargeted(es[1..], own, nick);
      if IsReplaced(es[0].slot, 0, nick) {
        forall j | 0 <= j < |rest|
          ensures (Slot(Member(own, es[0].slot.path.tail), Some(own + 1)), tag(es[0].data)) != (rest[j].slot, tag(rest[j].data))
        {
          assert rest[j] in rest;
          assert Entry(Origin(rest[j].slot), rest[j].data) in es[1..];
        }
      }
    }
  }

  lemma SpliceDistinct<T(!new), K>(current: seq<Entry<T>>, profile: seq<Entry<T>>, own: nat, nick: bool, tag: T -> K)
    requires DistinctTags(current, tag) && DistinctTags(profile, tag)
    ensures DistinctTags(Splice(current, profile, own, nick), tag)
  {
    var a := KeepIf(current, Untouched(own, nick));
    var b := Retargeted(profile, own, nick);
    KeepIfDistinct(current, Untouched(own, nick), tag);
    RetargetedDistinct(profile, own, nick, tag);
    forall i, j | 0 <= i < |a| && 0 <= j < |b|
      ensures a[i].slot != b[j].slot
    {
      assert a[i] in a && b[j] in b;
    }
  }

  // ---- The merged proposal is well-formed --------------------------------------------------

  lemma MergedValue(current: Proposal, profile: Proposal, own: nat, path: Path)
    requires |profile.participants| == 1 && own < |current.participants|
    requires SequentialKeys(current.participants) && SequentialKeys(profile.participants)
    ensures SequentialKeys(Merged(current, profile, own).participants)
    ensures var nick := profile.participants[0].nickname.Some?;
      HasValue(Merged(current, profile, own), path) <==>
        if IsReplaced(Home(path), own, nick) then HasValue(profile, Origin(Home(path)).path)
        else HasValue(current, path)
  {
  }

  lemma MergedSlotValid(current: Proposal, profile: Proposal, own: nat, s: Slot, requiresValue: bool)
    requires |profile.participants| == 1 && own < |current.participants|
    requires SequentialKeys(current.participants) && SequentialKeys(profile.participants)
    requires var nick := profile.participants[0].nickname.Some?;
      if IsReplaced(s, own, nick) then ValidSlot(profile.participants, Origin(s), requiresValue)
      else ValidSlot(current.participants, s, requiresValue)
    ensures ValidSlot(Merged(current, profile, own).participants, s, requiresValue)
  {
  }

  lemma MergedSlotsValid<T(!new)>(
    current: Proposal, profile: Proposal, own: nat, a: seq<Entry<T>>, b: seq<Entry<T>>, requiresValue: bool)
    requires |profile.participants| == 1 && own < |current.participants|
    requires SequentialKeys(current.participants) && SequentialKeys(profile.participants)
    requires ValidSlots(current.participants, a, requiresValue) && ValidSlots(profile.participants, b, requiresValue)
    ensures ValidSlots(Merged(current, profile, own).participants,
                       Splice(a, b, own, profile.participants[0].nickname.Some?), requiresValue)
  {
    var nick := profile.participants[0].nickname.Some?;
    var m := Splice(a, b, own, nick);
    forall i | 0 <= i < |m|
      ensures ValidSlot(Merged(current, profile, own).participants, m[i].slot, requiresValue)
    {
      SpliceMember(a, b, own, nick, m[i]);
      MergedSlotValid(current, profile, own, m[i].slot, requiresValue);
    }
  }

  lemma SlotsAsTags<T>(es: seq<Entry<T>>)
    ensures DistinctSlots(es) <==> DistinctTags(es, (d: T) => 0)
    ensures forall s :: s in Slots(es) <==> (s, 0) in Tagged(es, (d: T) => 0)
  {
  }

  lemma MergedEvidenceHasValues(current: Proposal, profile: Proposal, own: nat, i: nat)
    requires |profile.participants| == 1 && own < |current.participants|
    requires WellFormed(current) && WellFormed(profile)
    requires i < |Merged(current, profile, own).evidence|
    ensures var m := Merged(current, profile, own);
      m.evidence[i].slot.path == Party || HasValue(m, m.evidence[i].slot.path)
  {
    hide WellFormed, Merged, Splice, HasValue, IssuesExplained;
    assert EvidenceMatches(current) && EvidenceMatches(profile) && SequentialKeys(current.participants)
           && SequentialKeys(profile.participants) by { EvidenceOf(current); EvidenceOf(profile); }
    var m := Merged(current, profile, own);
    var nick := profile.participants[0].nickname.Some?;
    MergedParts(current, profile, own);
    MergedSlotsValid(current, profile, own, current.evidence, profile.evidence, true);
    var e := m.evidence[i];
    SpliceMember(current.evidence, profile.evidence, own, nick, e);
    assert ValidSlot(m.participants, e.slot, true);
    MergedValue(current, profile, own, e.slot.path);
    assert Home(e.slot.path) == e.slot;
  }

  lemma EvidenceOf(p: Proposal)
    requires WellFormed(p)
    ensures EvidenceMatches(p) && SequentialKeys(p.participants)
  {
  }

  lemma MergedParts(current: Proposal, profile: Proposal, own: nat)
    requires |profile.participants| == 1 && own < |current.participants|
    requires SequentialKeys(current.participants)
    ensures var m := Merged(current, profile, own);
      SequentialKeys(m.participants) && m.evidence == Splice(current.evidence, profile.evidence, own, profile.participants[0].nickname.Some?)
  {
  }

  lemma MergedValuesHaveEvidence(current: Proposal, profile: Proposal, own: nat, path: Path)
    requires |profile.participants| == 1 && own < |current.participants|
    requires WellFormed(current) && WellFormed(profile)
    requires HasValue(Merged(current, profile, own), path)
    ensures Home(path) in Slots(Merged(current, profile, own).evidence)
  {
    hide WellFormed, Merged, Splice, HasValue, IssuesExplained, ValidSlots, Slots;
    assert EvidenceMatches(current) && EvidenceMatches(profile) && SequentialKeys(current.participants)
           && SequentialKeys(profile.participants) by { EvidenceOf(current); EvidenceOf(profile); }
    var m := Merged(current, profile, own);
    var nick := profile.participants[0].nickname.Some?;
    MergedParts(current, profile, own);
    SlotsAsTags(current.evidence);
    SlotsAsTags(profile.evidence);
    SlotsAsTags(m.evidence);
    MergedValue(current, profile, own, path);
    SpliceTags(current.evidence, profile.evidence, own, nick, (d: EvidenceData) => 0, (Home(path), 0));
    if IsReplaced(Home(path), own, nick) {
      assert Home(Origin(Home(path)).path) == Origin(Home(path));
    }
  }

  lemma MergedEvidence(current: Proposal, profile: Proposal, own: nat)
    requires |profile.participants| == 1 && own < |current.participants|
    requires WellFormed(current) && WellFormed(profile)
    ensures EvidenceMatches(Merged(current, profile, own))
  {
    hide WellFormed, Merged, HasValue, ValidSlots, Slots;
    var m := Merged(current, profile, own);
    EvidenceOf(current);
    EvidenceOf(profile);
    MergedParts(current, profile, own);
    MergedSlotsValid(current, profile, own, current.evidence, profile.evidence, true);
    forall i | 0 <= i < |m.evidence|
      ensures m.evidence[i].slot.path == Party || HasValue(m, m.evidence[i].slot.path)
    {
      MergedEvidenceHasValues(current, profile, own, i);
    }
    forall path | HasValue(m, path)
      ensures Home(path) in Slots(m.evidence)
    {
      MergedValuesHaveEvidence(current, profile, own, path);
    }
  }

  const QuestionOfMissing := (d: QuestionKey) => d
  const QuestionOfAmbiguity := (d: AmbiguityData) => d.question
  const QuestionOf := (d: QuestionData) => d.question

  lemma IdsAsTags(p: Proposal)
    ensures QuestionIds(p.questions) == Tagged(p.questions, QuestionOf)
    ensures IssueIds(p) == Tagged(p.missing, QuestionOfMissing) + Tagged(p.ambiguities, QuestionOfAmbiguity)
    ensures DistinctQuestions(p.questions) <==> DistinctTags(p.questions, QuestionOf)
  {
  }

  lemma MergedChoices(current: Proposal, profile: Proposal, own: nat)
    requires |profile.participants| == 1 && own < |current.participants|
    requires ChoicesAgree(current) && ChoicesAgree(profile)
    ensures ChoicesAgree(Merged(current, profile, own))
  {
    var m := Merged(current, profile, own);
    var nick := profile.participants[0].nickname.Some?;
    forall i, j | 0 <= i < |m.ambiguities| && 0 <= j < |m.questions|
      && m.questions[j].slot == m.ambiguities[i].slot
      && m.questions[j].data.question == m.ambiguities[i].data.question
      ensures m.questions[j].data.choices == m.ambiguities[i].data.candidates
    {
      var a, q := m.ambiguities[i], m.questions[j];
      SpliceMember(current.ambiguities, profile.ambiguities, own, nick, a);
      SpliceMember(current.questions, profile.questions, own, nick, q);
      if IsReplaced(a.slot, own, nick) {
        var i' :| 0 <= i' < |profile.ambiguities| && profile.ambiguities[i'] == Entry(Origin(a.slot), a.data);
        var j' :| 0 <= j' < |profile.questions| && profile.questions[j'] == Entry(Origin(q.slot), q.data);
      } else {
        var i' :| 0 <= i' < |current.ambiguities| && current.ambiguities[i'] == a;
        var j' :| 0 <= j' < |current.questions| && current.questions[j'] == q;
      }
    }
  }

  lemma MergedIssues(current: Proposal, profile: Proposal, own: nat)
    requires |profile.participants| == 1 && own < |current.participants|
    requires WellFormed(current) && WellFormed(profile)
    ensures IssuesExplained(Merged(current, profile, own))
  {
    var m := Merged(current, profile, own);
    var nick := profile.participants[0].nickname.Some?;
    MergedSlotsValid(current, profile, own, current.missing, profile.missing, false);
    MergedSlotsValid(current, profile, own, current.ambiguities, profile.ambiguities, false);
    MergedSlotsValid(current, profile, own, current.questions, profile.questions, false);
    SlotsAsTags(current.missing);
    SlotsAsTags(profile.missing);
    SlotsAsTags(m.missing);
    SpliceDistinct(current.missing, profile.missing, own, nick, (d: QuestionKey) => 0);
    SlotsAsTags(current.ambiguities);
    SlotsAsTags(profile.ambiguities);
    SlotsAsTags(m.ambiguities);
    SpliceDistinct(current.ambiguities, profile.ambiguities, own, nick, (d: AmbiguityData) => 0);
    forall s | s in Slots(m.missing)
      ensures s !in Slots(m.ambiguities)
    {
      SpliceTags(current.missing, profile.missing, own, nick, (d: QuestionKey) => 0, (s, 0));
      SpliceTags(current.ambiguities, profile.ambiguities, own, nick, (d: AmbiguityData) => 0, (s, 0));
    }
    MergedExplanations(current, profile, own);
    MergedChoices(current, profile, own);
  }

  lemma MergedExplanations(current: Proposal, profile: Proposal, own: nat)
    requires |profile.participants| == 1 && own < |current.participants|
    requires DistinctQuestions(current.questions) && QuestionIds(current.questions) == IssueIds(current)
    requires DistinctQuestions(profile.questions) && QuestionIds(profile.questions) == IssueIds(profile)
    ensures DistinctQuestions(Merged(current, profile, own).questions)
    ensures QuestionIds(Merged(current, profile, own).questions) == IssueIds(Merged(current, profile, own))
  {
    var m := Merged(current, profile, own);
    var nick := profile.participants[0].nickname.Some?;
    IdsAsTags(current);
    IdsAsTags(profile);
    IdsAsTags(m);
    SpliceDistinct(current.questions, profile.questions, own, nick, QuestionOf);
    forall id
      ensures id in QuestionIds(m.questions) <==> id in IssueIds(m)
    {
      SpliceTags(current.questions, profile.questions, own, nick, QuestionOf, id);
      SpliceTags(current.missing, profile.missing, own, nick, QuestionOfMissing, id);
      SpliceTags(current.ambiguities, profile.ambiguities, own, nick, QuestionOfAmbiguity, id);
    }
  }

  /** Merging any well-formed one-member profile into any well-formed proposal gives a well-formed proposal. */
  lemma MergedParticipantsSound(current: Proposal, profile: Proposal, own: nat, i: nat)
    requires WellFormed(current) && WellFormed(profile)
    requires |profile.participants| == 1 && own < |current.participants|
    requires i < |Merged(current, profile, own).participants|
    ensures SoundParticipant(Merged(current, profile, own).participants[i])
  {
    hide EvidenceMatches, IssuesExplained, Splice;
    var m := Merged(current, profile, own);
    if i == own {
      assert SoundParticipant(profile.participants[0]);
      assert forall l: ListField :: m.participants[own].Values(l) == profile.participants[0].Values(l);
    } else {
      assert m.participants[i] == current.participants[i];
    }
  }

  lemma MergeWellFormed(current: Proposal, profile: Proposal, own: nat)
    requires WellFormed(current) && WellFormed(profile)
    requires |profile.participants| == 1 && own < |current.participants|
    ensures WellFormed(Merged(current, profile, own))
  {
    hide EvidenceMatches, IssuesExplained, SoundParticipant, Splice;
    var m := Merged(current, profile, own);
    MergedParts(current, profile, own);
    forall i | 0 <= i < |m.participants|
      ensures SoundParticipant(m.participants[i])
    {
      MergedParticipantsSound(current, profile, own, i);
    }
    MergedEvidence(current, profile, own);
    MergedIssues(current, profile, own);
  }

  // ---- The merge touches one member only ---------------------------------------------------

  /** The entries of a collection that are not about the merged member's profile, in order. */
  function Elsewhere<T(!new)>(es: seq<Entry<T>>, own: nat, nick: bool): seq<Entry<T>> {
    KeepIf(es, Untouched(own, nick))
  }

  lemma {:induction false} KeepIfNarrower<T(!new)>(es: seq<Entry<T>>, wide: Slot -> bool, narrow: Slot -> bool)
    requires forall s :: narrow(s) ==> wide(s)
    ensures KeepIf(KeepIf(es, wide), narrow) == KeepIf(es, narrow)
  {
    if es != [] {
      var rest := KeepIf(es[1..], wide);
      KeepIfNarrower(es[1..], wide, narrow);
      if wide(es[0].slot) {
        assert KeepIf(es, wide) == [es[0]] + rest;
        KeepIfAppend([es[0]], rest, narrow);
        assert KeepIf([es[0]], narrow) == if narrow(es[0].slot) then [es[0]] else [];
      } else {
        assert KeepIf(es, wide) == rest;
      }
    }
  }

  lemma {:induction false} KeepIfNone<T(!new)>(es: seq<Entry<T>>, keep: Slot -> bool)
    requires forall e :: e in es ==> !keep(e.slot)
    ensures KeepIf(es, keep) == []
  {
    if es != [] {
      assert es[0] in es;
      KeepIfNone(es[1..], keep);
    }
  }

  lemma SpliceElsewhere<T(!new)>(current: seq<Entry<T>>, profile: seq<Entry<T>>, own: nat, nick: bool)
    ensures Elsewhere(Splice(current, profile, own, nick), own, nick) == Elsewhere(current, own, nick)
  {
    var keep := Untouched(own, nick);
    var mapped := Retargeted(profile, own, nick);
    KeepIfAppend(KeepIf(current, keep), mapped, keep);
    KeepIfNarrower(current, keep, keep);
    KeepIfNone(mapped, keep);
  }

  /** The trip, every other member and every entry that is not about this member's profile survive unchanged
      and in order. */
  lemma MergeTouchesOneMember(current: Proposal, profile: Proposal, own: nat)
    requires |profile.participants| == 1 && own < |current.participants|
    ensures var m := Merged(current, profile, own);
      var nick := profile.participants[0].nickname.Some?;
      && m.trip == current.trip
      && Keys(m) == Keys(current)
      && (forall i :: 0 <= i < |current.participants| && i != own ==> m.participants[i] == current.participants[i])
      && Elsewhere(m.evidence, own, nick) == Elsewhere(current.evidence, own, nick)
      && Elsewhere(m.missing, own, nick) == Elsewhere(current.missing, own, nick)
      && Elsewhere(m.ambiguities, own, nick) == Elsewhere(current.ambiguities, own, nick)
      && Elsewhere(m.questions, own, nick) == Elsewhere(current.questions, own, nick)
  {
    var nick := profile.participants[0].nickname.Some?;
    SpliceElsewhere(current.evidence, profile.evidence, own, nick);
    SpliceElsewhere(current.missing, profile.missing, own, nick);
    SpliceElsewhere(current.ambiguities, profile.ambiguities, own, nick);
    SpliceElsewhere(current.questions, profile.questions, own, nick);
  }

  predicate SameProfileEntry<T(==)>(merged: seq<Entry<T>>, profile: seq<Entry<T>>, own: nat, t: Tail, data: T) {
    Entry(Slot(Member(own, t), Some(own + 1)), data) in merged <==> Entry(Slot(Member(0, t), Some(1)), data) in profile
  }

  /** The merged member is the extracted one, under the old key and with the old nickname if none was stated, and
      the entries at every profile tail are exactly the extracted profile's entries at that tail. */
  lemma MergeInstallsProfile(
    current: Proposal, profile: Proposal, own: nat, t: Tail,
    e: EvidenceData, m: QuestionKey, a: AmbiguityData, q: QuestionData)
    requires |profile.participants| == 1 && own < |current.participants|
    requires ProfileTail(t, profile.participants[0].nickname.Some?)
    ensures var after := Merged(current, profile, own);
      var was, now, told := current.participants[own], after.participants[own], profile.participants[0];
      && now.memberKey == was.memberKey
      && now.nickname == (if told.nickname.Some? then told.nickname else was.nickname)
      && now.(memberKey := told.memberKey, nickname := told.nickname) == told
      && SameProfileEntry(after.evidence, profile.evidence, own, t, e)
      && SameProfileEntry(after.missing, profile.missing, own, t, m)
      && SameProfileEntry(after.ambiguities, profile.ambiguities, own, t, a)
      && SameProfileEntry(after.questions, profile.questions, own, t, q)
  {
    var nick := profile.participants[0].nickname.Some?;
    var s := Slot(Member(own, t), Some(own + 1));
    SpliceMember(current.evidence, profile.evidence, own, nick, Entry(s, e));
    SpliceMember(current.missing, profile.missing, own, nick, Entry(s, m));
    SpliceMember(current.ambiguities, profile.ambiguities, own, nick, Entry(s, a));
    SpliceMember(current.questions, profile.questions, own, nick, Entry(s, q));
  }

  // ---- Repeated and concurrent merges ------------------------------------------------------

  lemma SpliceOverwrites<T(!new)>(
    current: seq<Entry<T>>, older: seq<Entry<T>>, newer: seq<Entry<T>>, own: nat, olderNick: bool, newerNick: bool)
    requires olderNick ==> newerNick
    ensures Splice(Splice(current, older, own, olderNick), newer, own, newerNick) == Splice(current, newer, own, newerNick)
  {
    hide KeepIf, Retargeted;
    var wide := Untouched(own, olderNick);
    var narrow := Untouched(own, newerNick);
    var mapped := Retargeted(older, own, olderNick);
    KeepIfAppend(KeepIf(current, wide), mapped, narrow);
    KeepIfNarrower(current, wide, narrow);
    KeepIfNone(mapped, narrow);
  }

  /** A later profile of the same member overwrites an earlier one completely, provided it states a nickname
      whenever the earlier one did. Submitting the same profile twice is the special case. */
  lemma LastProfileWins(current: Proposal, older: Proposal, newer: Proposal, own: nat)
    requires |older.participants| == 1 && |newer.participants| == 1 && own < |current.participants|
    requires older.participants[0].nickname.Some? ==> newer.participants[0].nickname.Some?
    ensures Merged(Merged(current, older, own), newer, own) == Merged(current, newer, own)
  {
    hide Splice;
    var a, b := older.participants[0].nickname.Some?, newer.participants[0].nickname.Some?;
    SpliceOverwrites(current.evidence, older.evidence, newer.evidence, own, a, b);
    SpliceOverwrites(current.missing, older.missing, newer.missing, own, a, b);
    SpliceOverwrites(current.ambiguities, older.ambiguities, newer.ambiguities, own, a, b);
    SpliceOverwrites(current.questions, older.questions, newer.questions, own, a, b);
    assert Merged(Merged(current, older, own), newer, own).participants == Merged(current, newer, own).participants;
  }

  /** After both profiles the draft is as if only the later one had been merged. */
  predicate OnlyLastShows(current: Proposal, older: Proposal, newer: Proposal, own: nat)
    requires |older.participants| == 1 && |newer.participants| == 1
  {
    own < |current.participants| ==> Merged(Merged(current, older, own), newer, own) == Merged(current, newer, own)
  }

  /** The proviso is exact: an earlier nickname that is not stated again stays. */
  lemma LastProfileWinsIff(older: Proposal, newer: Proposal, own: nat)
    requires |older.participants| == 1 && |newer.participants| == 1
    ensures (forall current :: OnlyLastShows(current, older, newer, own)) <==>
            (older.participants[0].nickname.Some? ==> newer.participants[0].nickname.Some?)
  {
    hide Splice;
    if older.participants[0].nickname.Some? ==> newer.participants[0].nickname.Some? {
      forall current
        ensures OnlyLastShows(current, older, newer, own)
      {
        if own < |current.participants| {
          LastProfileWins(current, older, newer, own);
        }
      }
    } else {
      var nameless := older.participants[0].(nickname := None);
      var current := older.(participants := seq(own + 1, _ => nameless));
      assert Merged(Merged(current, older, own), newer, own).participants[own].nickname.Some?;
      assert Merged(current, newer, own).participants[own].nickname.None?;
      assert !OnlyLastShows(current, older, newer, own);
    }
  }

  ghost predicate SameEntries<T(!new)>(a: seq<Entry<T>>, b: seq<Entry<T>>) {
    forall e :: e in a <==> e in b
  }

  lemma SplicesCommute<T(!new)>(
    current: seq<Entry<T>>, x: seq<Entry<T>>, y: seq<Entry<T>>, i: nat, j: nat, nickX: bool, nickY: bool)
    requires i != j
    ensures SameEntries(Splice(Splice(current, x, i, nickX), y, j, nickY), Splice(Splice(current, y, j, nickY), x, i, nickX))
  {
    forall e: Entry<T>
      ensures e in Splice(Splice(current, x, i, nickX), y, j, nickY) <==> e in Splice(Splice(current, y, j, nickY), x, i, nickX)
    {
      SpliceMember(Splice(current, x, i, nickX), y, j, nickY, e);
      SpliceMember(current, x, i, nickX, e);
      SpliceMember(Splice(current, y, j, nickY), x, i, nickX, e);
      SpliceMember(current, y, j, nickY, e);
    }
  }

  /** Edits of two different members commute: both orders give the same values and the same entries. */
  lemma MergesCommute(current: Proposal, x: Proposal, y: Proposal, i: nat, j: nat)
    requires |x.participants| == 1 && |y.participants| == 1
    requires i < |current.participants| && j < |current.participants| && i != j
    ensures var xy := Merged(Merged(current, x, i), y, j);
      var yx := Merged(Merged(current, y, j), x, i);
      && xy.trip == yx.trip && xy.participants == yx.participants
      && SameEntries(xy.evidence, yx.evidence) && SameEntries(xy.missing, yx.missing)
      && SameEntries(xy.ambiguities, yx.ambiguities) && SameEntries(xy.questions, yx.questions)
  {
    var nickX, nickY := x.participants[0].nickname.Some?, y.participants[0].nickname.Some?;
    SplicesCommute(current.evidence, x.evidence, y.evidence, i, j, nickX, nickY);
    SplicesCommute(current.missing, x.missing, y.missing, i, j, nickX, nickY);
    SplicesCommute(current.ambiguities, x.ambiguities, y.ambiguities, i, j, nickX, nickY);
    SplicesCommute(current.questions, x.questions, y.questions, i, j, nickX, nickY);
  }
}
