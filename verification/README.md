# Shared trip planning: the collaboration protocol and its planning core

This project models the part of a trip-planning backend where several people agree on one trip, and proves what that part
is for. Four components are covered.

**The collaboration protocol.** `CollaborationStore` has the tables and what one transaction of each store method does to
them; `CollaborationRepository` is the same store as a class, statement by statement. `AccessLaws`, `RevocationLaws`,
`VersionLaws`, `ReplayLaws`, `ResolutionLaws`, `LeaseLaws` and `TripViews` speak about every run of transactions;
`StoreAnswers` and `StoreRefusals` say of each method, in rows and clocks, when it succeeds, what it leaves and what an
error means.
`Readiness`, `Reconfirmation`, `HardConflicts` and `ConflictIssues` say when a trip may plan and what stands against it.
`ReadinessGuard` is the readiness guard as a
program of atomic steps among other actors - every read of the draft service and every select, two of them for a member's
access, is a step of its own - and `GuardLeases`, `GuardRevisions`, `GuardFreeze` and `ReachableReadiness` prove its
invariants over every interleaving, `GuardReturns` that no lease outlives its guard. `GuardProgress` and `PlannableDrafts` prove the other half: which trips a guard does
let in; `ReconfirmationRuns` takes reconfirmation to whole runs. `CollaborationService` and `MemberSubmission` hold three
service programs that drive the store. `ExampleRuns` has runs from the empty store that show what the laws do not promise.

**Trip-understanding proposals.** `TripDraft` is the data with its path language, `TripDraftValidation` the validator as
loops, `DraftRevision`, `DraftRevisionService` and `PartyAlignment` the two rewrites, `DraftLaws` and
`PartyAlignmentLaws` what they preserve; `DraftRules` says both the validator's rules and the rewrites field by field.

**Recommendation selection.** `Prefilter` and `PrefilterLaws` reserve at most eight provider places; `AvoidLaws` says
which avoid labels that honours; `TextMatching` is how the code matches places with labels; `Recommendation`,
`RecommendationChoice` and `RecommendationLaws` choose and arrange one plan; `PrefilterOrder` and `ArrangementLaws` say in
labels, distances, prices and positions which places and orders are preferred; `RecommendationFairness` says what the choice
means for the members; `FallbackOrders` is the enumeration used without a proposal; `Combinatorics` has combinations,
permutations and lexicographic keys.

**Replanning, comparison, diff and fact sets.** `Replan`, `ReplanLaws`, `Projection`, `PlanDiff`, `PlanDiffLaws`,
`FactRegistry`, `FactRegistryLaws` and `RegistryRows`.

Conventions. Times are integers (microseconds). Every store call carries the clock reading it was made with, which is no
later than the instant of its commit. Tokens, session ids, invitation ids and proposal ids are drawn by the caller and are
fresh; a stored token hash is the token, and the organizer whose token is presented is found by the trip. A digest is the
content it binds, except that the registry's 24-character ids may collide. Text normalisation, geometry,
care profiles and their merge, and the suffix planner enter as functions that are left open. Where a query promises no
order among rows with equal expiry, any of them may come first.

Label matching enters the pre-filter and the choice as a function, too, and their laws hold for every matching (some ask
that it does not depend on a label's case): all of `PrefilterLaws`, `PrefilterOrder`,
`RecommendationChoice`, `RecommendationLaws` and `ArrangementLaws`,
`AvoidLaws.AvoidedPlacesStayOut`, `RecommendationFairness.NobodyPenalised`, `EightLabelsSuffice` and `NeverPenalisedIff`.
About the code's own matching (`AsWritten`: by id, by the name holding the label, or by the label holding the name) are
`AvoidLaws.AvoidsHonouredIff` with its lemmas and examples, and `RecommendationFairness.NineLabelsFail` and
`NineLabelsHold`. They take three things for granted: normalisation leaves words of lower-case letters alone and none of
them speaks of dining; a place with such a name and no category is an ordinary visit; some category means restaurants.

## Where the code does something a reader may not expect

- `_binding_issues` sorts the binding keys as text, and "member-10" sorts before "member-2": a group of ten or more always
  has a binding issue and can never plan (`HardConflicts.BindingsValidIff`, both directions).
- Revoking an invitation that is already revoked succeeds, bumps the version and reports the member as revoked, even while
  a later invitation and its session are live (`RevocationLaws.RevocationCutsOffIff` gives the exact condition,
  `ExampleRuns.SupersededRevocationLeavesSession` a run).
- Reviewing a proposal never looks at the leases; the freeze holds because readiness asks for nothing to be pending and
  creating proposals is blocked (`TripViews.LeaseFreezesIff`).
- Only repetitions of successes are invisible; a refused call may succeed when repeated (`ExampleRuns.FailedCallMayCommitLater`).
- Every bound member has a confirmation row from bootstrap on, so the status DRAFT_CONVERSATION never shows
  (`Readiness.NeverInDraftConversation`).
- Aligning the party size fails exactly when a kept member without a care profile has an ambiguous care type.
- With lunch in the day window and fewer than three places beyond the meals, `choose_single_plan` passes its own checks and
  then raises an index error; with no members it raises a value error (`RecommendationChoice.ChooseSinglePlan` lists both).
- The comment before the choice says a missed must-visit place always fails the plan and is never a deduction; that
  always holds for up to eight distinct labels (`RecommendationFairness.EightLabelsSuffice`). With more it depends on the
  labels (`NineLabelsFail`, `NineLabelsHold`): it fails exactly if at most three places can serve the first eight and not
  some other one (`NeverPenalisedIff`). It takes a direct call to see it fail: in the program the pre-filter has refused
  more than three labels before (`PreFilteredNeverPenalised`).
- The comment on the fairness key leaves out the meal distance, which the key compares before the known price.
- The fallback enumeration spends its twelve orders on pairs as soon as there are four facts (`FallbackOrders.TripleIff`).
- A retried submission repairs a crash between the draft service and the store only as long as nothing else updates the
  trip and no lease is active (`MemberSubmission.RetryAfterCrashIff`); after any update the retry is refused and the draft
  stays ahead (`ExampleRuns.CrashNotRepaired`).
- `pre_filter_provider_places` enforces only the first 24 distinct avoid labels of a trip. Up to that many it always
  keeps them out (`AvoidLaws.AvoidedPlacesStayOut`); beyond, exactly if the other labels add no new normalised text or the
  trip is refused in any case (`AvoidLaws.AvoidsHonouredIff`; two members with twenty and five labels break it).
- A diff carries notes of shared tasks only: as a patch it neither adds the note of an added task nor takes away that of a
  removed one (`PlanDiffLaws.NoteRebuiltIff`).
- Re-issuing a fact set verifies the stored snapshot but neither the row's own columns nor the reference rows; restoring
  verifies all (`FactRegistryLaws.ReissuedRestoresIff`). The program itself never changes or deletes such rows.

## Model

| member | source | states |
|---|---|---|
| GuardFreeze.InsideIsFrozen | app/application/collaboration_readiness.py:97-130 | In every state of every interleaved run, a guard inside its operation with an unexpired lease finds the trip's session row, confirmations, proposals, invitations and sessions as they were when it was let in, nothing pending, the stored revision equal to the permit's, the permit's digest that of its revision, the trip still ready, and no other guard of the trip holding an unexpired lease |
| GuardFreeze.RunKeepsSafety | app/application/collaboration_readiness.py:66-130 | Every action of every actor keeps the three invariants (leases held, revisions ordered, views frozen) |
| GuardFreeze.HolderView | app/infrastructure/collaboration_store.py:263-279 | While a guard holds an unexpired lease, no action by anybody does more to its trip than review proposals |
| GuardFreeze.PhaseStepMatches | app/application/collaboration_readiness.py:97-110 | One step of a leased re-check: whatever it has read is still true of the store, and it can only finish on a view with nothing pending that may plan at any time of day |
| GuardFreeze.EvaluationHolds | app/application/collaboration_service.py:340-396 | An evaluation whose separate reads still hold of the present view is an evaluation of that view |
| GuardFreeze.ReadMatches | app/infrastructure/collaboration_store.py:834-1028 | Each of the separate selects of a stored view and of a member's access, made under the lease, adds only facts that hold of the view as a whole |
| GuardFreeze.StepperFrozen | app/application/collaboration_readiness.py:97-122 | A guard enters its operation only on an evaluation that holds at that moment, for the revision it hands out |
| GuardFreeze.BystanderStaysFrozen | app/infrastructure/collaboration_store.py:263-275 | A guard that is not stepping stays frozen under any other action |
| GuardRevisions.RecheckBindsRevision | app/application/collaboration_readiness.py:108-122 | The revision read before the digest's, the digest's own and the one read after it have one number, so they are one revision |
| GuardRevisions.StepKeepsRevisionInv | app/application/collaboration_readiness.py:76-122 | Every revision a guard has read exists and none is older than one it read before |
| GuardRevisions.CurrentIsLatest | app/application/trip_draft_revision_service.py:515-519 | The current draft revision is the one with the highest number |
| GuardLeases.StepKeepsLeaseInv | app/application/collaboration_readiness.py:83-130 | Every guard between acquiring and completing holds its own uncompleted lease with its own expiry, under an operation id no other such guard uses |
| GuardLeases.HoldersExclusive | app/infrastructure/collaboration_store.py:281-358 | Two guards of one trip never both hold unexpired leases |
| GuardLeases.HolderBlocksTrip | app/infrastructure/collaboration_store.py:263-275 | While a holder's lease has not expired, the mutation check of its trip fails at every clock reading taken so far |
| PlannableDrafts.PlannableIff | app/application/collaboration_readiness.py:66-130 | Over all runs of all actors, some guard gets inside its operation with a revision under an unexpired lease if and only if that revision has no conflicts |
| PlannableDrafts.ConflictFreePlans | app/application/collaboration_service.py:646-689 | From an empty store there is a run - draft, bootstrap, one confirmation per member, the guard's own steps - that plans any conflict-free revision |
| GuardProgress.UndisturbedGuardEnters | app/application/collaboration_readiness.py:66-130 | If the trip may plan now and the lease table does not refuse the guard, the guard's own steps alone take it inside with the current revision and an unexpired lease, and write nothing but that lease |
| GuardProgress.ReadsComplete | app/application/collaboration_service.py:340-396 | Left alone, an evaluation reads everything it needs, whatever the number of members, and what it has read is what the tables hold |
| ReachableReadiness.CanPlanInEveryRun | app/application/collaboration_service.py:340-396 | In every state of every run, for any revision of the trip: planning is allowed if and only if the evaluator's facts hold, nothing is pending, store and revision agree, every member's confirmation matches the trip and the member's own part with nobody withdrawn, and somebody confirmed exactly this revision |
| ReachableReadiness.RunKeepsRows | app/infrastructure/collaboration_store.py:412-500 | In every run the participant rows are one per bound member and every confirmation was made on a revision the draft service had |
| ReachableReadiness.BootstrapRowsConsistent | app/infrastructure/collaboration_store.py:464-490 | Bootstrap inserts one unconfirmed row for every bound member and no other |
| ReachableReadiness.NotReadyWhileRevisionsDisagree | app/application/collaboration_service.py:383-389 | While the draft service is ahead of the stored revision, nobody may plan with the new revision |
| Readiness.CanPlanIff | app/application/collaboration_service.py:379-389 | Closed form of `can_plan`, both directions, for rows that belong to the revision |
| Readiness.SourceReadyIff | app/application/collaboration_service.py:310-338 | Given that everybody agrees, the two-branch source test asks exactly that somebody confirmed this very revision |
| Readiness.AllConfirmedIff | app/application/collaboration_service.py:257-308 | With no issues, all members count as confirmed exactly when every confirmation matches the current shared and own content, nobody was withdrawn and no failed attempt concerns anyone |
| Readiness.NeverInDraftConversation | app/application/collaboration_service.py:222-242 | Because every bound member has a confirmation row from bootstrap on, the status DRAFT_CONVERSATION never shows |
| Reconfirmation.OneReconfirmationSuffices | app/application/collaboration_service.py:257-338 | From any ready state, after a member's own edit advanced the revision without new issues or failed attempts, that member's one confirmation makes planning possible again and nobody else's row changes |
| ReconfirmationRuns.ReconfirmationInEveryRun | app/application/collaboration_service.py:257-338 | Over runs of all actors: once a trip may plan, and later the store is at a member's own edit which that member has confirmed - nobody else having confirmed in between - the trip may plan again and the others' rows are as they were |
| Reconfirmation.EditNeedsReconfirmation | app/application/collaboration_service.py:323-338 | Until somebody confirms the new revision, no edit leaves the trip ready |
| Reconfirmation.SharedChangeUnconfirmsEveryone | app/domain/collaboration_digest.py:37-43 | A real change of the shared trip leaves no member confirmed |
| Reconfirmation.MergeIsOwnEdit | app/application/trip_draft_revision_service.py:584-675 | Merging a member's profile changes no other member's digest and not the shared one |
| Reconfirmation.AdvanceView | app/infrastructure/collaboration_store.py:1356-1448 | A committed advance changes the trip's revision and version and nothing else of its view |
| Reconfirmation.ConfirmView | app/infrastructure/collaboration_store.py:1255-1354 | A committed confirmation changes one row's confirmation and the version and nothing else of the trip's view |
| CollaborationService.Service.Confirm | app/application/collaboration_service.py:646-689 | Confirming stores exactly the current revision's digests for the member, or nothing, case by case |
| CollaborationService.Service.ReviewMemberChangeProposal | app/application/collaboration_service.py:512-577 | The program authenticates, checks, advances and closes as specified, with the specified error otherwise |
| CollaborationService.ReviewIff | app/application/collaboration_service.py:512-577 | A rejection passes on the request alone, an approval exactly if also the draft service has a later revision, no lease is active and the key is unused; what passes closes the proposal and moves version and revision completely, what does not changes nothing |
| CollaborationService.Service.SubmitMember | app/application/collaboration_service.py:588-644 | The submission program authenticates, checks the store unless this is a replay, and advances, as specified |
| MemberSubmission.SubmitEffect | app/application/collaboration_service.py:588-644 | A submission that advances moves its trip by one revision and one version under no active lease; any other changes nothing |
| MemberSubmission.RetryAfterSuccess | app/application/collaboration_service.py:597-610 | Whatever happened in between, repeating a submission that advanced gives the same answer and changes nothing, although the version it expected is gone |
| MemberSubmission.RetryAfterCrashIff | app/application/collaboration_service.py:597-640 | Whatever happens between the crash and the retry: the retry moves the store exactly if nothing updated the trip in between, the key is unused and no lease is active then; it moves the trip as the interrupted attempt would have, and otherwise changes nothing |
| MemberSubmission.SubmitsIff | app/application/collaboration_service.py:603-640 | With an unused key a submission is refused for the stored version, then the stored revision, then a lease, and otherwise advances |
| ExampleRuns.CrashNotRepaired | app/application/collaboration_service.py:604-610 | On a run from the empty store, a proposal between crash and retry leaves the draft ahead for good: the retry is refused and the stored revision stays |
| CollaborationService.ConfirmingConfirms | app/application/collaboration_service.py:257-308 | Right after confirming the current revision a member counts as confirmed exactly unless withdrawn, concerned by a conflict, or by a failed attempt |
| CollaborationService.HalfApprovedBlocksPlanning | app/application/collaboration_service.py:541-571 | Between the two steps of an approval nobody may plan |
| Digests.ReadinessBindsRevision | app/domain/collaboration_digest.py:60-83 | A readiness digest determines the revision it was computed from |
| Digests.FirstWithSequentialKey | app/domain/collaboration_digest.py:46-57 | With keys in order, the digest of member k is about participant k-1 |
| HardConflicts.EvaluateEmptyIff | app/domain/hard_conflicts.py:167-244 | The evaluator finds nothing if and only if bindings, missing and ambiguous fields, times, caps, must-visit and avoid lists are in order, all care profiles build and merge, and no merged nap window covers the whole day |
| HardConflicts.BindingsValidIff | app/domain/hard_conflicts.py:265-293 | The binding rule in closed form; because binding keys are compared in text order it fails for every group of ten or more |
| HardConflicts.LargeGroupsNeverReady | app/domain/hard_conflicts.py:265-293 | A group of ten or more is never free of issues |
| HardConflicts.PlaceIssuesEmptyIff | app/domain/hard_conflicts.py:390-427 | No place issue if and only if no must-visit text equals an avoid text |
| HardConflicts.CollectBudgetIssues | app/domain/hard_conflicts.py:359-388 | The budget loop collects exactly the caps below the shared budget, in order |
| HardConflicts.BudgetAndCareIff | app/domain/hard_conflicts.py:191-263 | No budget issue exactly when all caps reach the budget; no care issue exactly when all profiles build and merge and no merged nap window covers the whole day |
| Lexicographic.ExpectedKeysAscendIff | app/domain/hard_conflicts.py:270-275 | The member keys are in text order up to nine members and no further |
| CollaborationRepository.Repository.BootstrapCollaboration | app/infrastructure/collaboration_store.py:412-527 | The transaction is the specified transition: session row, one row per member, the record without the token, or a refusal that writes nothing |
| CollaborationRepository.Repository.Invite | app/infrastructure/collaboration_store.py:551-671 | The invitation transaction, statement by statement, is the specified transition |
| CollaborationRepository.Repository.RedeemInvitation | app/infrastructure/collaboration_store.py:706-808 | Redeeming revokes the recorded session, opens a new one and records it, or refuses |
| CollaborationRepository.Repository.RevokeInvitation | app/infrastructure/collaboration_store.py:865-967 | Revoking closes the invitation and its recorded session and bumps the version, or refuses |
| CollaborationRepository.Repository.CreateChangeProposal | app/infrastructure/collaboration_store.py:1030-1084 | A proposal is stored as pending at the next version, or refused |
| CollaborationRepository.Repository.ReviewChangeProposal | app/infrastructure/collaboration_store.py:1086-1127 | A pending proposal is closed at the next version, without looking at leases |
| CollaborationRepository.Repository.RecordConfirmation | app/infrastructure/collaboration_store.py:1255-1354 | The member's row gets the confirmation at the next version, or nothing changes |
| CollaborationRepository.Repository.AdvanceRevision | app/infrastructure/collaboration_store.py:1356-1448 | The session row moves to the later revision and the next version, or nothing changes |
| CollaborationRepository.Repository.Acquire | app/infrastructure/collaboration_store.py:281-358 | A lease is inserted or reactivated, or refused |
| CollaborationRepository.Repository.Complete | app/infrastructure/collaboration_store.py:360-374 | Only the lease with the quoted expiry is completed |
| ResolutionLaws.BeginAnswers | app/infrastructure/collaboration_store.py:1129-1162 | At any time of any run after the first begin under a key, beginning with the same request answers with the last stored result or with none yet, another request is refused, and nothing is written |
| ResolutionLaws.FinishedResolutionAnswers | app/infrastructure/collaboration_store.py:1129-1234 | After begin, anything in between and complete, every later begin with the same request answers with that result and writes nothing, and another request is refused, until the same key is completed again |
| ResolutionLaws.RecordFollowsCompletions | app/infrastructure/collaboration_store.py:1203-1234 | Over any run an open record keeps its request and holds the result of the last completion of its own key |
| ResolutionLaws.CompletionNeedsBegin | app/infrastructure/collaboration_store.py:1216-1229 | A completion without a begin is refused and writes nothing |
| CollaborationRepository.Repository.AuthenticateParticipant | app/infrastructure/collaboration_store.py:810-832 | Unknown, revoked and expired tokens are refused in that order |
| StoreFrames.WritesOnlyFootprint | app/infrastructure/collaboration_store.py:281-1480 | Each method writes its own tables and no other |
| StoreFrames.FailureChangesNothing | app/infrastructure/collaboration_store.py:263-279 | A failed call leaves the store as it was |
| StoreFrames.OnlyCommitsWrite | app/infrastructure/collaboration_store.py:575-586 | A refused or replayed call leaves the store as it was |
| StoreFrames.SessionRowsStep | app/infrastructure/collaboration_store.py:1404-1422 | One call moves a session row by exactly one version, and only when it is a first-time success of one of the six versioned mutations of that trip |
| StoreFrames.VersionedBump | app/infrastructure/collaboration_store.py:595-634 | A first-time success quoted the stored version |
| StoreFrames.StepKeepsOwners | app/infrastructure/collaboration_store.py:455-480 | Organizer, organizer token and draft of a trip never change |
| VersionLaws.VersionCountsUpdates | app/infrastructure/collaboration_store.py:1298-1314 | Over any run the version grows by the number of first-time successes and the revision never goes back |
| VersionLaws.ExpectedVersionsAscend | app/infrastructure/collaboration_store.py:1062-1078 | Of two successes for one trip the later quotes a strictly larger version: no lost update |
| VersionLaws.RevisionMovesOnlyByAdvance | app/infrastructure/collaboration_store.py:1404-1422 | The stored revision changes exactly in a committed advance, from the quoted one upward |
| ReplayLaws.ReplayReturnsOriginal | app/infrastructure/collaboration_store.py:575-586 | Whatever happened in between, repeating a call that committed returns its reply with secrets withheld and changes nothing |
| ReplayLaws.RepeatsAreInvisible | app/infrastructure/collaboration_store.py:717-735 | Deleting every call that repeats an earlier success from any run gives the same final store |
| ReplayLaws.TakenKeyAnswers | app/infrastructure/collaboration_store.py:888-899 | A taken key answers from the record, with an error for any other payload, and changes nothing |
| ExampleRuns.FailedCallMayCommitLater | app/infrastructure/collaboration_store.py:1379-1390 | On a run from the empty store an advance refused under a lease succeeds when repeated, so repetitions of failed calls cannot be deleted |
| ReplayLaws.CommitIsNoted | app/infrastructure/collaboration_store.py:1280-1291 | Every first-time success records its request and its reply without secrets under an unused key |
| LeaseLaws.PermitsAscend | app/infrastructure/collaboration_store.py:298-332 | For arbitrary clocks, a later permit of the same operation expires strictly later: no permit is ever repeated |
| LeaseLaws.LateCompletionChangesNothing | app/infrastructure/collaboration_store.py:360-374 | Completing with an older generation's permit never ends a newer lease |
| LeaseLaws.LeasesExclusive | app/infrastructure/collaboration_store.py:263-275 | With a commit clock that never goes back, at most one lease of a trip is active at any instant, although calls carry earlier readings |
| LeaseLaws.AcquireShape | app/infrastructure/collaboration_store.py:281-358 | A permit is granted exactly when the call commits, and then it is newer than every earlier one |
| AccessLaws.RunPreservesAccess | app/infrastructure/collaboration_store.py:607-614 | In every run each unrevoked session is the one recorded on an unrevoked redeemed invitation of the same member, and each member has at most one unrevoked invitation |
| AccessLaws.OneLiveSession | app/infrastructure/collaboration_store.py:756-776 | A member has at most one unrevoked session |
| RevocationLaws.RevokedMemberStaysOut | app/infrastructure/collaboration_store.py:917-931 | After the live invitation is revoked no token authenticates as the member, in any continuation, until the member is invited again |
| RevocationLaws.RevocationCutsOffIff | app/infrastructure/collaboration_store.py:908-931 | A successful revocation cuts the member off exactly when it names the live invitation or there is none |
| ExampleRuns.SupersededRevocationLeavesSession | app/infrastructure/collaboration_store.py:914-946 | On a run from the empty store, revoking an already revoked older invitation reports success while the session of the newer one keeps authenticating |
| RevocationLaws.InvitationRedeems | app/infrastructure/collaboration_store.py:736-776 | A new invitation redeems under an unused key exactly until it expires, for the member it was made for |
| RevocationLaws.RedeemedTokenAuthenticates | app/infrastructure/collaboration_store.py:810-832 | A redeemed token authenticates exactly until its seven days are over |
| TripViews.OtherTripsUntouched | app/infrastructure/collaboration_store.py:969-1028 | A call shows in the view of at most one trip |
| TripViews.LeaseFreezesView | app/infrastructure/collaboration_store.py:263-279 | An active lease with nothing pending freezes the whole view of its trip against any call |
| TripViews.LeaseLeavesOnlyReviews | app/infrastructure/collaboration_store.py:1086-1127 | Under an active lease a call can do no more to the trip than review its proposals |
| TripViews.ReviewIgnoresLease | app/infrastructure/collaboration_store.py:1099-1123 | With a proposal pending the freeze fails: the review commits under the lease |
| TripViews.LeaseFreezesIff | app/infrastructure/collaboration_store.py:263-279 | An active lease freezes the view of its trip against every call if and only if nothing is pending |
| TripViews.CutOffShowsWithdrawn | app/infrastructure/collaboration_store.py:834-863 | A member invited once and without live invitation is shown as revoked |
| TripViews.RevocationWithdraws | app/infrastructure/collaboration_store.py:834-967 | Revoking a live invitation shows at once, at any time of day |
| TripDraftValidation.ValidateSemantics | app/domain/trip_draft.py:432-580 | The validator accepts exactly the well-formed proposals, and a rejection names a clause that fails |
| TripDraftValidation.EvidenceValuePaths | app/domain/trip_draft.py:357-412 | The collected value paths are exactly those of non-null values |
| TripDraftValidation.ValidateEvidence | app/domain/trip_draft.py:463-485 | Evidence covers exactly the non-null values |
| TripDraftValidation.CheckExplained | app/domain/trip_draft.py:520-580 | Questions explain exactly the missing and ambiguous fields, with the candidates as choices |
| DraftLaws.MergeWellFormed | app/application/trip_draft_revision_service.py:599-675 | Merging any well-formed one-member profile into any well-formed proposal gives a well-formed proposal |
| DraftLaws.MergeTouchesOneMember | app/application/trip_draft_revision_service.py:599-675 | The merge leaves the trip, every other member and all entries about anything else as they are, in order |
| DraftLaws.MergeInstallsProfile | app/application/trip_draft_revision_service.py:599-675 | The merged member has the profile's values and entries, the old nickname only if the profile states none |
| DraftLaws.LastProfileWins | app/application/trip_draft_revision_service.py:599-675 | A later profile of the same member overwrites an earlier one completely, provided it states a nickname whenever the earlier one did |
| DraftLaws.LastProfileWinsIff | app/application/trip_draft_revision_service.py:599-675 | Over all drafts: nothing of the earlier profile is left exactly if the later one states a nickname whenever the earlier one did |
| DraftLaws.MergesCommute | app/application/trip_draft_revision_service.py:599-675 | Edits of two members commute |
| DraftRevisionService.MergeMemberProfileScope | app/application/trip_draft_revision_service.py:584-675 | The payload edit with re-validation is rejected only for scope, member count or list caps |
| DraftRevision.SpliceList | app/application/trip_draft_revision_service.py:631-675 | The filter-and-extend loops are the specified splice |
| PartyAlignmentLaws.AlignWellFormedIff | app/application/trip_draft_revision_service.py:316-397 | Alignment to any size gives a well-formed proposal exactly when no kept member without care profile has an ambiguous care type |
| PartyAlignmentLaws.AlignKeepsMembers | app/application/trip_draft_revision_service.py:316-397 | Alignment yields members 1..N, keeps their data and leaves no entry about a dropped member |
| PartyAlignmentLaws.AlignAsksEveryCareType | app/application/trip_draft_revision_service.py:366-395 | Every member left without a care profile is asked for the care type exactly once, with its question |
| DraftRevisionService.AlignOrganizerParticipantCount | app/application/trip_draft_revision_service.py:316-397 | Alignment is accepted exactly when care types are settled and caps kept |
| DraftRevisionService.AlignPayload | app/application/trip_draft_revision_service.py:341-395 | The payload edit is the specified alignment |
| RecommendationChoice.ChooseSinglePlan | app/application/recommendation_service.py:1517-1648 | Case by case: which error, or a feasible set that no feasible set beats on the fairness key, arranged |
| RecommendationLaws.NoFairerSet | app/application/recommendation_service.py:1589-1619 | No set of pool places of the right size with all required places and the right number of meals has a smaller key |
| RecommendationFairness.ChosenIsFairest | app/application/recommendation_service.py:1707-1747 | Without mentioning a key: the worst-off member is at least as well off as in any other feasible set, among equals the average is highest, then the meals closest, then the known cost lowest |
| RecommendationFairness.ScoreMembers | app/application/recommendation_service.py:1651-1704 | The scoring loops give every member 100 less 20 per uncovered interest, less 60 for a missed must-visit place, never below zero |
| RecommendationFairness.FullScoreIff | app/application/recommendation_service.py:1651-1704 | A member scores 100 exactly when every interest is covered and every must-visit label served |
| RecommendationFairness.NobodyPenalised | app/application/recommendation_service.py:1545-1554 | With at most eight distinct labels an accepted plan never charges the must-visit penalty |
| RecommendationFairness.NeverPenalisedIff | app/application/recommendation_service.py:1545-1573 | For every matching, over all candidates, rankings and meals: some accepted plan charges one of these members for a missed must-visit place exactly if at most three places can serve all enforced labels and not some other one |
| RecommendationFairness.EightLabelsSuffice | app/application/recommendation_service.py:1545-1573 | For every case-blind matching: with at most eight distinct labels nobody is ever charged, whatever the candidates, rankings and meals |
| RecommendationFairness.NineLabelsFail | app/application/recommendation_service.py:995-1009 | Under the code's matching: a member with nine words as labels and one place whose name holds the first eight; its accepted plan charges the ninth |
| RecommendationFairness.NineLabelsHold | app/application/recommendation_service.py:995-1009 | Under the code's matching: with the one-letter word as the last label the same member is never charged, since the names and ids of three places are too few to serve the other eight words without it; the number of labels alone does not decide |
| RecommendationFairness.PreFilteredNeverPenalised | app/application/recommendation_service.py:1219-1224 | Behind a successful pre-filter of the same labels nobody is ever penalised, because it refuses more than three |
| FallbackOrders.DeterministicOrders | app/application/recommendation_service.py:1144-1165 | The three nested loops list distinct orders without repeated places, earlier turns first, all of them unless the limit is reached |
| FallbackOrders.TripleIff | app/application/recommendation_service.py:1144-1165 | With twelve orders a three-place order is offered exactly when there are three facts |
| FallbackOrders.AllPairsIff | app/application/recommendation_service.py:1144-1165 | With twelve orders every ordered pair of facts is offered exactly when there are at most four facts |
| FallbackOrders.TriplesAfterPairs | app/application/recommendation_service.py:1151-1164 | No three-place order is listed before every pair is |
| RecommendationLaws.PlanKeepsItsPromises | app/application/recommendation_service.py:1589-1623 | The chosen places are distinct candidates that serve every required label; the visiting order is a permutation with meals in their slots that no arrangement beats |
| RecommendationLaws.ShortLunchFails | app/application/recommendation_service.py:930-952 | A lunch day with two activities passes every check and then has no third activity |
| RecommendationChoice.FeasibleArranges | app/application/recommendation_service.py:904-962 | A feasible set cannot be arranged exactly when lunch is wanted and the pool is smaller than three places plus the meals |
| RecommendationFairness.AllLabelsRequired | app/application/recommendation_service.py:1547-1554 | With at most eight distinct labels every member's every must-visit label is required |
| Recommendation.OrderTasksForMeals | app/application/recommendation_service.py:904-962 | The nested permutation loops find the specified arrangement |
| Recommendation.ArrangedIsBest | app/application/recommendation_service.py:930-962 | The arrangement has the smallest (meal distance, total distance, ids) key of all |
| Recommendation.StableUniqueText | app/application/recommendation_service.py:722-733 | First occurrences of non-blank texts, up to the limit |
| RecommendationChoice.CollectRequired | app/application/recommendation_service.py:1555-1567 | The first candidate for every label, each place once, or the first label without one |
| RecommendationChoice.CollectFeasible | app/application/recommendation_service.py:1590-1601 | The filtered combinations are exactly the feasible sets |
| RecommendationChoice.PickFairest | app/application/recommendation_service.py:1602-1613 | The minimum over the scored sets beats every feasible set |
| Combinatorics.CombosAre | app/application/recommendation_service.py:1592-1594 | Combinations of size k are exactly the subsequences of length k |
| Combinatorics.PermsAre | app/application/recommendation_service.py:930-932 | Permutations are exactly the sequences with the same elements |
| Combinatorics.FirstLeast | app/application/recommendation_service.py:1608-1613 | `min` returns the first smallest key |
| Prefilter.PreFilter | app/application/recommendation_service.py:1192-1401 | Case by case: which error, or the reserved places |
| PrefilterLaws.PreFilterKeepsItsPromises | app/application/recommendation_service.py:1219-1401 | A successful pre-filter returns six to eight distinct places of the input within all constraints, a place per required label, a restaurant per meal and three visits |
| PrefilterLaws.ReservedKeepsMandatory | app/application/recommendation_service.py:1351-1395 | The cap of eight never drops a mandatory place |
| AvoidLaws.AvoidsHonouredIff | app/application/recommendation_service.py:1219-1242 | Under the code's matching, over all real provider places: no returned place matches any avoid label of any member if and only if every label has the normalised text of one of the 24 enforced ones, or the trip is refused in any case - for more than three must-visit labels, or for one that is avoided itself or has no text |
| AvoidLaws.UnservableRefused | app/application/recommendation_service.py:759-769 | Under the code's matching a trip with a must-visit label that has the text of an enforced avoid label is refused whatever the provider offers |
| AvoidLaws.AvoidedPlacesStayOut | app/application/recommendation_service.py:1233-1262 | For every case-blind matching: up to 24 distinct avoid labels, none of them matches a returned place |
| AvoidLaws.UnenforcedReturned | app/application/recommendation_service.py:1226-1242 | Under the code's matching: for any trip that is not refused in any case and any avoid label beyond the enforced texts there are real places that pass the whole filter, and one whose id is that label is returned |
| AvoidLaws.TwentyFifthAvoidIgnored | app/application/recommendation_service.py:1226-1242 | Under the code's matching: a trip of two members with twenty and five avoid labels, and a returned place whose id is the 25th |
| AvoidLaws.AvoidedMustVisitRefused | app/application/recommendation_service.py:837-851 | Under the code's matching: the same trip with an avoided must-visit label breaks nothing, since it is always refused |
| Prefilter.FilterPlaces | app/application/recommendation_service.py:1240-1281 | The filter loop keeps the first acceptable place of every id |
| Prefilter.SortAscends | app/application/recommendation_service.py:1334-1334 | The stable sort puts no place before one with a smaller key |
| Replan.ProjectEventPrefix | app/application/planning_boundary_service.py:1472-1545 | The event loop refuses at the first faulty event, or returns the shortest prefix holding every started, completed or skipped task, and the spending |
| ReplanLaws.OrderIsIrrelevant | app/application/planning_boundary_service.py:1472-1545 | The same events in another order are accepted alike and give the same prefix and spending |
| ReplanLaws.ExtensionNeverTakesBack | app/application/planning_boundary_service.py:1472-1545 | More events never shrink the prefix or the spending |
| Replan.NormalizeSuffixFacts | app/application/planning_boundary_service.py:1577-1629 | The suffix is returned as planned or refused at its first faulty fact |
| Replan.EventDrivenRequest | app/application/planning_boundary_service.py:1395-1469 | Case by case: which refusal, from mismatching stored facts on, or the joined list |
| ReplanLaws.AcceptedIff | app/application/planning_boundary_service.py:1395-1469 | A request is accepted exactly when stored facts and plan agree, the events are in order, a task is left and the planner answers that many facts without a fault; the list is then the untouched frozen prefix and that suffix, with unique ids, contiguous orders, no frozen id and surviving ids in their slots |
| Replan.JoinIsSound | app/application/planning_boundary_service.py:1454-1463 | Joining a faultless suffix keeps ids unique and orders contiguous over the whole list |
| Projection.ProjectionMismatchPaths | app/application/planning_boundary_service.py:334-366 | The recursive comparison with its two list-building loops is the specified one |
| Projection.EmptyIffEqual | app/application/planning_boundary_service.py:334-366 | No path is returned exactly when the trees are equal under Python's equality |
| Projection.PathsDiffer | app/application/planning_boundary_service.py:334-366 | Every returned path is a real difference |
| Projection.DifferencesListed | app/application/planning_boundary_service.py:334-366 | Every difference is returned |
| Projection.AcceptedIff | app/application/planning_boundary_service.py:369-421 | A request is accepted exactly when the permit is the collaboration's for that trip and its own revision, and the projection equals the revision's everywhere but the city name, and there too unless the confirmed trip vouches for it; a refusal for fields names real differences only |
| PlanDiff.CalculatePlanDiff | app/domain/plan_diff.py:37-155 | The two loops build the specified items, and base metrics plus delta are the candidate's |
| PlanDiffLaws.DiffIsPatch | app/domain/plan_diff.py:37-155 | Applying the items to the base gives the candidate's task fields, rendered rules and shared notes, and every item finds the value it replaces |
| PlanDiffLaws.ItemsTell | app/domain/plan_diff.py:63-133 | The items are exactly the true statements about the two plans |
| PlanDiffLaws.FourFieldsEach | app/domain/plan_diff.py:57-91 | Every id of either plan has exactly four field items, and no key occurs twice |
| PlanDiffLaws.SwapMirrorsItems | app/domain/plan_diff.py:37-133 | Swapping the plans swaps before and after, added and removed, item by item |
| PlanDiffLaws.NoteRebuiltIff | app/domain/plan_diff.py:93-101 | The patch rebuilds the note under an id exactly when the task is in both plans or in neither |
| FactRegistry.Registry.Issue | app/infrastructure/provider_fact_registry.py:155-248 | The issuing transaction answers from an existing set or stores a new one completely, or changes nothing |
| FactRegistry.Registry.RestoreSnapshot | app/infrastructure/provider_fact_registry.py:253-294 | Restoring runs the specified checks in order |
| FactRegistry.Registry.VerifyReferenceRows | app/infrastructure/provider_fact_registry.py:331-370 | The row check accepts exactly matching rows |
| FactRegistryLaws.RestoreIff | app/infrastructure/provider_fact_registry.py:253-370 | Restore succeeds exactly when the set row and the reference rows are those that issuing some draft of that trip writes |
| FactRegistryLaws.IssueThenRestore | app/infrastructure/provider_fact_registry.py:155-294 | Restoring an issued set gives back the draft that was issued |
| FactRegistryLaws.ReissueReturnsFirst | app/infrastructure/provider_fact_registry.py:198-212 | Issuing the same draft again writes nothing and returns the first summary |
| FactRegistryLaws.OtherSetsKept | app/infrastructure/provider_fact_registry.py:214-243 | Issuing leaves every other set as restorable as it was |
| FactRegistryLaws.ReissuedRestoresIff | app/infrastructure/provider_fact_registry.py:198-212 | For any tables: when issuing a draft on file answers, the row it answered from restores exactly when its snapshot is of that draft, the row stands under the snapshot's set id and instant, and the reference rows match |
| FactRegistryLaws.ReissueIgnoresReferenceRows | app/infrastructure/provider_fact_registry.py:198-212 | With every reference row gone issuing again still answers where restoring refuses |
| FactRegistryLaws.EveryAnsweredSetRestores | app/infrastructure/provider_fact_registry.py:155-370 | Through any history of issue calls on an empty registry, every set that was ever answered restores its draft and summary in every later state |
| GuardReturns.EveryLeaseIsHeld | app/application/collaboration_readiness.py:66-130 | In every state of every run, a lease that is not completed is held by a guard of its trip under the same operation id and expiry, between its permit and its completion |
| GuardReturns.NoLeaseIsLeftBehind | app/application/collaboration_readiness.py:126-130 | Once no guard of a trip is between its permit and its completion, every lease of the trip is completed and none blocks it at any time of day |
| GuardReturns.AcquiresAfterChecks | app/application/collaboration_readiness.py:76-96 | A guard asks for a lease only after two evaluations that allowed planning, with the revision it read in between and the digest of the one evaluated |
| GuardReturns.EntersAfterChecks | app/application/collaboration_readiness.py:97-122 | A guard is let in only from a second leased evaluation that allowed planning, with the digest and the revision number it had before |
| Readiness.StageIff | app/application/collaboration_service.py:222-242 | What a trip is shown as: ready exactly if it may plan, under review exactly if otherwise the draft has a conflict or a proposal is pending, and else collecting members |
| Readiness.MemberStatusIff | app/application/collaboration_service.py:257-308 | A member is shown as confirmed exactly if shared and own content match the stored confirmation, there was no withdrawal and no issue or failed attempt concerns the member |
| CollaborationService.BlockedIff | app/application/collaboration_service.py:658-675 | A confirmation is refused for issues exactly if bindings or times are wrong, a field of the member's own or everybody's is missing or ambiguous, or the own care profile cannot be built; conflicts never stop it |
| MemberSubmission.SubmitAccepts | app/application/collaboration_service.py:588-644 | A submission advances exactly if the store stands at the quoted version and revision, no lease is in force and the draft service answers the next revision of the trip under unchanged bindings |
| TripViews.StatusSays | app/infrastructure/collaboration_store.py:834-863 | What each shown status says about the rows: the session that expires last decides, without a session the invitation that expires last |
| ConflictIssues.IssuesAre | app/domain/hard_conflicts.py:167-427 | The evaluator reports exactly the issues that each rule calls for: what is wrong, at which field, whom it concerns and whom it relates to |
| StoreAnswers.BootstrapAnswers | app/infrastructure/collaboration_store.py:412-527 | Exactly when a bootstrap succeeds, and the session row, reply and record it leaves |
| StoreAnswers.InviteAnswers | app/infrastructure/collaboration_store.py:551-671 | Exactly when an invitation is made, and the row and expiry it leaves |
| StoreAnswers.RedeemAnswers | app/infrastructure/collaboration_store.py:706-808 | Exactly when a token redeems; the seven-day session it opens and the one it closes |
| StoreAnswers.AuthenticateIff | app/infrastructure/collaboration_store.py:810-832 | A token authenticates exactly as long as its session is neither revoked nor expired |
| StoreAnswers.RevokeAnswers | app/infrastructure/collaboration_store.py:865-967 | Exactly when a revocation succeeds, and which rows it closes at what instant |
| StoreAnswers.ProposeAnswers | app/infrastructure/collaboration_store.py:1030-1084 | Exactly when a proposal is stored, with its participant, base revision and change |
| StoreAnswers.ReviewAnswers | app/infrastructure/collaboration_store.py:1086-1127 | Exactly when a review succeeds, and the one row it closes |
| StoreAnswers.ConfirmAnswers | app/infrastructure/collaboration_store.py:1255-1354 | Exactly when a confirmation is recorded, and the one row it changes |
| StoreAnswers.AdvanceAnswers | app/infrastructure/collaboration_store.py:1356-1448 | Exactly when an advance succeeds |
| StoreAnswers.AcquireAnswers | app/infrastructure/collaboration_store.py:281-358 | Exactly when a permit is granted, and its expiry, which is later than that of an earlier permit of the operation |
| StoreRefusals.RefusalsHold | app/infrastructure/collaboration_store.py:263-1480 | After any run, the error a call is refused with is true of the tables and the clock: a stale version differs, an operation in progress has an unexpired lease, a reused key holds another request, and so on |
| StoreAnswers.AuditAnswers | app/infrastructure/collaboration_store.py:1450-1480 | An audit entry is appended exactly when no lease of the trip is in force |
| DraftRules.WellFormedIff | app/domain/trip_draft.py:357-580 | The validator's rules field by field: which values and paths need evidence, which slots exist and under whom, and which question each missing or ambiguous field has |
| DraftRules.MergedEntriesAre | app/application/trip_draft_revision_service.py:599-675 | An entry of a merged proposal is an old one about something else than the member's cap, lists, care and - if restated - nickname, or one of the profile's moved to the member |
| DraftRules.SpliceInOrder | app/application/trip_draft_revision_service.py:631-675 | The merged collections hold the kept entries first and then the profile's, each in their old order |
| DraftRules.MergeOutcomeIff | app/application/trip_draft_revision_service.py:584-630 | Which answer of the language model is taken as it is, which is merged and which is refused |
| DraftRules.AlignedEntriesAre | app/application/trip_draft_revision_service.py:341-395 | Which entries an aligned proposal has: those about kept members, and for each member without care profile the care-type question with its four choices |
| DraftRules.AlignedMembersAre | app/application/trip_draft_revision_service.py:316-340 | Kept members are themselves and new ones are blank |
| DraftRules.AlignAcceptsIff | app/application/trip_draft_revision_service.py:316-397 | Aligning is accepted exactly if no kept member without care profile has an ambiguous care type and the lists keep their caps |
| ArrangementLaws.MealsAreClosest | app/application/recommendation_service.py:965-992 | In positions and distances: lunch, third, and dinner, last, are together no farther from the visits right before them than in any order of the chosen places with the meals in their slots |
| ArrangementLaws.KnownMealsFirst | app/application/recommendation_service.py:979-992 | Without facts for all places: an order with known meal distances is never passed over for one without |
| ArrangementLaws.WalkIsShortest | app/application/recommendation_service.py:930-962 | Among orders with meals equally close the plan's walk is the shortest, and among those its ids come first |
| ArrangementLaws.WithoutFactsIdsDecide | app/application/recommendation_service.py:916-926 | With a place without facts no walk is known: among orders with meals equally close the ids decide at once |
| ArrangementLaws.NoMealsKeepRanking | app/application/recommendation_service.py:909-910 | Without meals the plan is in the order of the ranking |
| ArrangementLaws.ChosenMealsAreClosest | app/application/recommendation_service.py:1707-1747 | Of feasible sets with the same worst and average score the chosen one has its meals no farther from the visits before them than any order of another |
| ArrangementLaws.ChosenIdsComeFirst | app/application/recommendation_service.py:1742-1747 | Of feasible sets equal in scores, distance and known cost the one whose ascending ids, joined by commas, come first is chosen |
| ArrangementLaws.NoMealsDistance | app/application/recommendation_service.py:1727-1737 | Without meals the distance compared is the sum, over restaurants with facts, of the distance to the nearest visit with facts |
| ArrangementLaws.KnownCostIsSum | app/application/recommendation_service.py:1738-1741 | The known cost counts every known price once |
| ArrangementLaws.ScoreIs | app/application/recommendation_service.py:1651-1704 | A member's points as a number of uncovered interests and the presence of a missed place |
| ArrangementLaws.FirstMatchesVisited | app/application/recommendation_service.py:1555-1567 | An accepted plan visits, for every enforced label, the first candidate that matches it |
| ArrangementLaws.PoolIs | app/application/recommendation_service.py:1532-1572 | The pool holds the ranked candidates first, with meals all others, and the required places |
| ArrangementLaws.PlanSize | app/application/recommendation_service.py:1586-1594 | A plan holds three visits and its meals, or the whole pool if that is smaller |
| PrefilterOrder.ReservedAreBest | app/application/recommendation_service.py:1300-1401 | What is reserved: for each label a satisfying place of least closeness; the restaurants nearest to the visits for the labels, or to the first three visits; the three first visits; and beyond these no place before one that is left out |
| PrefilterOrder.PlainChoice | app/application/recommendation_service.py:1300-1327 | Without labels and meals no acceptable place that is left out has more interest matches than a reserved one; with as many none is online against a cached one; then none is cheaper; then none has a smaller id |
| PrefilterOrder.KeyMeans | app/application/recommendation_service.py:1300-1327 | The sort key is the order: places for labels first, the closest first, then more interests, online, cheaper, smaller id |
| PrefilterOrder.BestClosenessIs | app/application/recommendation_service.py:1301-1316 | A place's closeness is that of the label it satisfies best |
| PrefilterOrder.ReturnedAreSuitable | app/application/recommendation_service.py:1231-1279 | What holds of every returned place, in terms of city, source, price, lodging, avoid and must-visit labels and meals |
| PrefilterOrder.SuitableIsAcceptable | app/application/recommendation_service.py:1231-1279 | Nothing else is held against a place |
| PrefilterOrder.FilteredAre | app/application/recommendation_service.py:1240-1281 | Of each provider id the first acceptable place is kept |
| Replan.PrefixMeans | app/application/planning_boundary_service.py:1515-1545 | The frozen prefix by event kinds: it holds the task of every start, completion and skip, and such an event names its last task |
| ReplanLaws.RefusalIff | app/application/planning_boundary_service.py:1472-1545 | The events are accepted exactly if there are some, all match trip, plan and a task, every expense has an amount, every completed task has an expense, and there is an expense |
| ReplanLaws.RefusalExplained | app/application/planning_boundary_service.py:1472-1545 | A refusal names the first event that does not fit and the first test it fails, or the missing expense |
| ReplanLaws.SuffixFaultExplained | app/application/planning_boundary_service.py:1577-1629 | A refused suffix is refused at its first fact that does not fit, for the first test it fails |
| ReplanLaws.AcceptedExactly | app/application/planning_boundary_service.py:1395-1469 | The acceptance of a request in terms of facts, event kinds and the planner's answer alone |
| Projection.ScalarsEqualIff | app/application/planning_boundary_service.py:334-366 | Below the containers: both null, the same text, or the same number, booleans being numbers |
| Projection.RefusalSays | app/application/planning_boundary_service.py:369-421 | Which refusal is given, with all differing fields but the city, or the city alone |
| PlanDiffLaws.ItemsAre | app/domain/plan_diff.py:16-133 | The items are exactly those that say Retained, Changed, Added or Removed by the plans' own titles, times, transports and costs, the changed notes and the rules |
| PlanDiffLaws.ItemsInOrder | app/domain/plan_diff.py:45-133 | The base's tasks come in its order, then the candidate's new ones in its order, each field by field, then the rules |
| RegistryRows.IssuesIff | app/infrastructure/provider_fact_registry.py:155-248 | A draft not on file is issued exactly if it is valid, no two of its digests are cut alike and its set id is free |
| RegistryRows.ReferencesAnswered | app/infrastructure/provider_fact_registry.py:155-197 | The references are the places by ascending id and then the routes by ascending id, every column the payload's own |
| RegistryRows.RowsWritten | app/infrastructure/provider_fact_registry.py:214-248 | The set row holds the draft, and there is a reference row for exactly each reference |
| RegistryRows.RowColumns | app/infrastructure/provider_fact_registry.py:225-243 | A reference row has the columns of the payload its id stands for |
| RegistryRows.ReferencesIff | app/infrastructure/provider_fact_registry.py:166-190 | Digests cut alike are fatal between two places or two routes, and never between a place and a route |

## Left out

- AccessLaws.RunPreservesAccess: the invariant is stated for runs whose drawn ids and tokens are fresh; token generation and hashing are not modelled.
- ReadinessGuard: the organizer's credential check at each evaluation, the flow registry and the legacy single-trip permit are left out; they only refuse.
- GuardFreeze.InsideIsFrozen: a guard does not look at the clock before it yields, so the statement is about the time before its lease expires; the expiry check that the planning boundary makes on a permit is not part of this model.
- StoreFrames.WritesOnlyFootprint: `record_resolution_audit` checks the leases and inserts in two statements outside a transaction; it is modelled as one step.
- LeaseLaws.LeasesExclusive: needs a commit clock that does not go back; without one two leases of a trip can be active at once.
- HardConflicts.EvaluateEmptyIff: issues are modelled without their ids, reasons and relaxation options, and not in display order; building a care profile and merging the profiles of a group are a port, whose merged nap window the model compares with the day itself.
- TripDraftValidation.ValidateSemantics: text lengths, number ranges, list caps (`WithinCaps`, checked separately) and paths written with leading zeros are not part of the path model; a path that names a whole list is valid and carries no value, as in the code.
- DraftRevisionService.MergeMemberProfileScope: for a candidate of the full shape the code compares only the trip and the other participants, so nothing is stated about its evidence and questions beyond well-formedness.
- RecommendationChoice.ChooseSinglePlan: the average score is compared as a total, which is the same order for one group of members; explanations, compromises and unknown-price remarks are left out, and candidates have distinct places, as the provider step issues them.
- Projection.ProjectionMismatchPaths: paths are sequences of steps; how they are rendered as text, and the projection builders, are left out.
- Projection.AcceptedIff: that both projections have a city name and that it is no container is assumed, as the projection builders make them.
- Replan.EventDrivenRequest: the final validation of the whole candidate request (times, routes) is left out.
- FactRegistry.Registry.Issue: JSON text is modelled as the value it parses to, or as corrupt; the order of rows in the reference table is left out.
- `_resolve` as a whole program, with its crash recovery and audit counts: every store call it makes is modelled, and planning stays closed while the revisions disagree.
- FallbackOrders.DeterministicOrders: the fact ids are a set, so a repeated id, which the loops would skip, cannot occur.
- MemberSubmission.RetryAfterCrashIff: that the draft service answers a repeated request with the revision it made is taken from its own command record, which is not part of this model.
- AvoidLaws.AvoidsHonouredIff: normalisation itself (NFKC, case folding, spaces) and the lists of dining, lodging and other place words are left open beyond what the conventions above take for granted; the normalised text of a label is not tied to its case-folded form.
- RecommendationFairness.EightLabelsSuffice: label matching is assumed not to depend on case, as in `AvoidLaws.AvoidedPlacesStayOut`.
- RecommendationFairness.ChosenIsFairest: a plan's average is a real number, not a floating-point one.
- `issue_candidates` and `rank`: filtering without further state.
- Removing list items by patch (`_apply_patch`): it does not re-index the evidence of the list, so no preservation is claimed.
- Uniqueness of relaxation ids inside an issue: the id does not include the candidate value.
- HTTP routes, the user interface, provider and language-model clients, regular-expression extraction, schema migration, session columns that nothing reads back, and the distance formulas.
