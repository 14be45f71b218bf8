/** The trip-understanding contract of app/domain/trip_draft.py: values, evidence, missing fields,
    ambiguities and questions, tied together by an indexed path language. */
module TripDraft {
  import opened Prelude

  /** A text value beside its NFKC-normalised, stripped, case-folded image. */
  datatype Text = Text(display: string, folded: string)

  // ---- Paths -------------------------------------------------------------------------------

  datatype TripField = CityName | TravelDate | StartTime | EndTime | StartLocation | EndLocation | Budget

  datatype ListField = Interests | MustVisit | AvoidPlaces

  datatype CareField =
    | AssistanceHint | ChildAge | MaxContinuousMeters | MaxDailyMeters | MaxTransfers
    | RestInterval | NapStart | NapEnd | AvoidStairs

  /** What follows `participants[i].` in a member path. `Whole` names a list itself, `Item` one element. */
  datatype Tail = Nickname | BudgetCap | Whole(list: ListField) | Item(list: ListField, position: nat) | CareOf(care: CareField)

  datatype Path = OfTrip(field: TripField) | Party | Member(index: nat, tail: Tail)

  /** The pair (fieldPath, memberKey) every entry is keyed by; member key k stands for "member-k". */
  datatype Slot = Slot(path: Path, member: Option<nat>)

  // ---- Values ------------------------------------------------------------------------------

  datatype Hint = Ordinary | ParentChild | LowStamina | MobilityAssistanceBeta

  datatype Nap = Nap(start: Option<nat>, end: Option<nat>)

  datatype Care = Care(
    hint: Option<Hint>, childAge: Option<nat>, maxContinuousMeters: Option<nat>, maxDailyMeters: Option<nat>,
    maxTransfers: Option<nat>, restInterval: Option<nat>, nap: Option<Nap>, avoidStairs: Option<bool>)
  {
    predicate Has(f: CareField) {
      match f
      case AssistanceHint => hint.Some?
      case ChildAge => childAge.Some?
      case MaxContinuousMeters => maxContinuousMeters.Some?
      case MaxDailyMeters => maxDailyMeters.Some?
      case MaxTransfers => maxTransfers.Some?
      case RestInterval => restInterval.Some?
      case NapStart => nap.Some? && nap.value.start.Some?
      case NapEnd => nap.Some? && nap.value.end.Some?
      case AvoidStairs => avoidStairs.Some?
    }
  }

  datatype Trip = Trip(
    cityName: Option<Text>, travelDate: Option<int>, startTime: Option<nat>, endTime: Option<nat>,
    startLocation: Option<Text>, endLocation: Option<Text>, budgetCents: Option<nat>)
  {
    predicate Has(f: TripField) {
      match f
      case CityName => cityName.Some?
      case TravelDate => travelDate.Some?
      case StartTime => startTime.Some?
      case EndTime => endTime.Some?
      case StartLocation => startLocation.Some?
      case EndLocation => endLocation.Some?
      case Budget => budgetCents.Some?
    }
  }

  datatype Participant = Participant(
    memberKey: nat, nickname: Option<string>, budgetCap: Option<nat>,
    interests: seq<Text>, mustVisit: seq<Text>, avoidPlaces: seq<Text>, care: Option<Care>)
  {
    function Values(l: ListField): seq<Text> {
      match l
      case Interests => interests
      case MustVisit => mustVisit
      case AvoidPlaces => avoidPlaces
    }

    /** A non-null value lives at this tail. A whole list is never a value of its own. */
    predicate Has(t: Tail) {
      match t
      case Nickname => nickname.Some?
      case BudgetCap => budgetCap.Some?
      case Whole(_) => false
      case Item(l, k) => k < |Values(l)|
      case CareOf(f) => care.Some? && care.value.Has(f)
    }
  }

  // ---- Entries -----------------------------------------------------------------------------

  datatype QuestionKey =
    | AskCityName | AskTravelDate | AskStartTime | AskEndTime | AskStartLocation | AskEndLocation
    | AskTripBudget | AskPartySize | AskNickname | AskMemberBudget | AskInterests | AskMustVisit
    | AskAvoidPlaces | AskCarePreset | AskCareDetails

  datatype SourceType = UserText | ExplicitField

  datatype Entry<T> = Entry(slot: Slot, data: T)

  datatype EvidenceData = EvidenceData(source: SourceType, text: string)
  datatype AmbiguityData = AmbiguityData(question: QuestionKey, reason: string, candidates: seq<string>)
  datatype QuestionData = QuestionData(question: QuestionKey, prompt: string, choices: seq<string>)

  type Evidence = Entry<EvidenceData>
  type Missing = Entry<QuestionKey>
  type Ambiguity = Entry<AmbiguityData>
  type Question = Entry<QuestionData>

  datatype Proposal = Proposal(
    trip: Trip, participants: seq<Participant>, evidence: seq<Evidence>,
    missing: seq<Missing>, ambiguities: seq<Ambiguity>, questions: seq<Question>)

  // ---- Well-formedness ---------------------------------------------------------------------

  predicate HasValue(p: Proposal, path: Path) {
    match path
    case OfTrip(f) => p.trip.Has(f)
    case Party => false
    case Member(i, t) => i < |p.participants| && p.participants[i].Has(t)
  }

  /** The slot a path must be quoted with: the member key of the participant it addresses. */
  function Home(path: Path): Slot {
    Slot(path, if path.Member? then Some(path.index + 1) else None)
  }

  predicate SequentialKeys(ps: seq<Participant>) {
    forall i :: 0 <= i < |ps| ==> ps[i].memberKey == i + 1
  }

  predicate UniqueFolded(values: seq<Text>) {
    forall i, j :: 0 <= i < j < |values| ==> values[i].folded != values[j].folded
  }

  predicate EmptyCare(c: Care) {
    forall f: CareField :: !c.Has(f)
  }

  predicate SoundParticipant(q: Participant) {
    && (forall l: ListField :: UniqueFolded(q.Values(l)))
    && (q.care.Some? ==> !EmptyCare(q.care.value))
  }

  /** `_validate_path`: the slot addresses something that exists and is quoted under the right member. */
  predicate ValidSlot(ps: seq<Participant>, s: Slot, requiresValue: bool) {
    match s.path
    case OfTrip(_) => s.member == None
    case Party => s.member == None
    case Member(i, t) =>
      && i < |ps|
      && s.member == Some(ps[i].memberKey)
      && (t.Item? ==> t.position < |ps[i].Values(t.list)|)
      && (t.CareOf? && requiresValue ==> ps[i].care.Some?)
  }

  function Slots<T>(es: seq<Entry<T>>): (r: set<Slot>)
  {
    set i | 0 <= i < |es| :: es[i].slot
  }

  predicate ValidSlots<T>(ps: seq<Participant>, es: seq<Entry<T>>, requiresValue: bool) {
    forall i :: 0 <= i < |es| ==> ValidSlot(ps, es[i].slot, requiresValue)
  }

  predicate DistinctSlots<T>(es: seq<Entry<T>>) {
    forall i, j :: 0 <= i < j < |es| ==> es[i].slot != es[j].slot
  }

  ghost predicate EvidenceMatches(p: Proposal) {
    && ValidSlots(p.participants, p.evidence, true)
    && (forall i :: 0 <= i < |p.evidence| ==> p.evidence[i].slot.path == Party || HasValue(p, p.evidence[i].slot.path))
    && (forall path :: HasValue(p, path) ==> Home(path) in Slots(p.evidence))
  }

  /** A question is identified by its slot together with its question key. */
  function QuestionIds(qs: seq<Question>): set<(Slot, QuestionKey)> {
    set i | 0 <= i < |qs| :: (qs[i].slot, qs[i].data.question)
  }

  function IssueIds(p: Proposal): set<(Slot, QuestionKey)> {
    (set i | 0 <= i < |p.missing| :: (p.missing[i].slot, p.missing[i].data)) +
    (set i | 0 <= i < |p.ambiguities| :: (p.ambiguities[i].slot, p.ambiguities[i].data.question))
  }

  predicate DistinctQuestions(qs: seq<Question>) {
    forall i, j :: 0 <= i < j < |qs| ==> (qs[i].slot, qs[i].data.question) != (qs[j].slot, qs[j].data.question)
  }

  /** Every ambiguity's question offers exactly its candidates. */
  predicate ChoicesAgree(p: Proposal) {
    forall i, j :: 0 <= i < |p.ambiguities| && 0 <= j < |p.questions|
      && p.questions[j].slot == p.ambiguities[i].slot
      && p.questions[j].data.question == p.ambiguities[i].data.question
      ==> p.questions[j].data.choices == p.ambiguities[i].data.candidates
  }

  ghost predicate IssuesExplained(p: Proposal) {
    && ValidSlots(p.participants, p.missing, false)
    && DistinctSlots(p.missing)
    && ValidSlots(p.participants, p.ambiguities, false)
    && DistinctSlots(p.ambiguities)
    && Slots(p.missing) !! Slots(p.ambiguities)
    && ValidSlots(p.participants, p.questions, false)
    && DistinctQuestions(p.questions)
    && QuestionIds(p.questions) == IssueIds(p)
    && ChoicesAgree(p)
  }

  /** What `validate_semantics` accepts; list-size caps are `WithinCaps`. */
  ghost predicate WellFormed(p: Proposal) {
    && SequentialKeys(p.participants)
    && (forall i :: 0 <= i < |p.participants| ==> SoundParticipant(p.participants[i]))
    && EvidenceMatches(p)
    && IssuesExplained(p)
  }

  const MAX_PARTICIPANTS := 20

  predicate WithinCaps(p: Proposal) {
    && 1 <= |p.participants| <= MAX_PARTICIPANTS
    && |p.evidence| <= 500 && |p.missing| <= 200 && |p.ambiguities| <= 200 && |p.questions| <= 200
  }
}
