# Repora, verified

A Dafny model of the parts of Repora that decide, push and record: mirror reconciliation, managed README
changes, posture policy evaluation, the worker pool and the trust router. `dafny verify dfyconfig.toml` verifies
all of it.

## What is modelled

| module | part of the system |
|---|---|
| `CommitGraph`, `MirrorStatus` | commit ancestry; counting both sides, classifying a mirror, the ref policy |
| `PlanArtifact`, `MirrorPlan`, `MirrorPreflight`, `MirrorMeaning` | plans and their version 2 artifact; building a plan from configuration, observation and cache; checking an imported artifact against current configuration and observation; what planning and acceptance mean mirror by mirror |
| `MirrorExecution`, `MirrorSafety`, `MirrorConvergence`, `MirrorExample` | complete preflight and the continue-on-failure push loop against remotes that others write; what every run keeps; that a clean run converges |
| `ExecutionJournal`, `AuditedApply`, `AuditedConvergence`, `ArtifactChecks` | INTENT and RESULT records; the audited apply and dry run around the executor; a clean one from observation to equal mirrors; which text and which field each check of artifacts and records refuses |
| `AliasExecution` | the executor of plans that name their own remotes, which stops at the first failed push |
| `PowersOfTen`, `DigitStrings`, `DecimalNumber`, `JsonValue`, `PolicyEvaluation`, `PolicyMeaning` | exact decimal comparison, JSON equality, conditions, applicability, exceptions, reports; what a report says of each rule |
| `ManagedText`, `ReviewDiff`, `RenderReadme` | safe text and its size in bytes, the review diff, the one-pass template renderer |
| `ManagedPlan`, `ManagedBuild`, `ManagedPreflight` | the reviewed README plan, how it is built, how it is rebound to current state |
| `GitTree`, `ManagedCommit`, `ManagedPush`, `ManagedJournal`, `ManagedConvergence`, `ManagedChecks`, `PlumbingExample` | the tree splice on bytes, candidate commits, leased pushes, and the record of every outcome; a clean apply from plan to empty next plan; what each check and each record says; a Git for which all of it applies |
| `WorkerPool`, `StatusPhase` | the semaphore, buffered channel, wait group and closer as interleaved steps; which failure the status phase reports |
| `TrustRouter` | the Go scan and the Python sort that choose a trust tier |
| `Text`, `Permutations` | strings of the Go library as far as the above uses them; sequences up to reordering |

Code that updates state step by step is written as methods with loops, or as classes where an object keeps the
state (`Git`, `Store`, `Canonical`, `Journal`, `Writer`); each is tied to a function or predicate of its inputs, and the
theorems are about those. Code made of expressions is written as functions.

## What the environment is assumed to do

- Remotes follow Git's push rules. A plain push creates a branch or fast-forwards it; a leased push needs the leased
  head; pushing what is already there succeeds and moves nothing. Outside writers may move any head, and any tracking
  ref, before every push. A push may be acknowledged, refused, or take effect although its sender sees an error.
- Where a theorem needs it, and only there, it assumes that nobody else fetches into a source's tracking ref between preflight and
  push (`QuietRef`), that configured mirrors have distinct identities (`DistinctMirrors`, which configuration
  validation enforces), and that object ids carry no surrounding space.
- Git's object database is content-addressed: an id is a function of the object, and of the clock for a commit, and what
  is stored under an id is never overwritten. Plumbing is honest (`Honest`): ls-tree prints a tree, mktree reads a
  listing back, diff-tree names what differs. Any call may fail; `Able` says when none does for one
  change, on its base tree and on the tree made of it.
- No theorem assumes that ids never collide. Where a collision would matter, it is ruled out by name, among the objects
  the plan is about only (`NoCollision`, `CollisionFree`), for a database that holds objects under their own ids
  (`Consistent`). `PlumbingExample` gives a Git that meets all of this.
- Digests are uninterpreted. Where a collision would matter the theorems say between which two texts (`Collides`).
- Theorems about the status phase that need a slot assume one: the command raises `--parallel` to one (cmd/repoctl/main.go:172).
- Journal writers accept or refuse each record. Path redaction is any function from text to text.
- Byte strings are either valid UTF-8, and then text, or not valid at all.

## What turned out not to hold

- Comparing zero with a positive number below one gives the wrong sign: zero is given magnitude one. Everything else is compared
  exactly, so the comparison is right if and only if the pair is not of that kind; `at_least` and `at_most`
  inherit this (`DecimalNumber.CompareNumberStrings`, `DecimalNumber.TrueExceptForZeroAndFractions`,
  `PolicyEvaluation.AtLeastMeansNotBelow`, `PolicyEvaluation.HalfFailsAtLeastZero`).
- A report passes its own validator if and only if the evaluation date has a four-digit year
  (`PolicyEvaluation.EvaluatedReportIsValid`, `PolicyEvaluation.YearTenThousandIsInvalid`). That is about `Evaluate` as
  a function of any instant: the command reads `--as-of` as YYYY-MM-DD (cmd/repoctl/posture_report.go:30), so it cannot
  reach the failing years itself.
- APPLIED evidence names the reviewed commit, not the pushed one. They are the same if and only if no outside writer,
  between preflight and that push, left another commit than the reviewed one under the source's tracking ref
  (`MirrorSafety.EvidenceIsTrueExactly`); a run that passes preflight and records a commit it did not push is
  `MirrorExample.EvidenceIsFalseHere`, and `MirrorSafety.EvidenceCanBeFalse` makes one of every plain action.
- An artifact may carry spaces around object ids and be valid, but then no record can be made for it:
  INTENT exists if and only if there are none (`ExecutionJournal.IntentExactly`,
  `ExecutionJournal.SpacedArtifactIsValidButNotRecorded`).
- A README reported as pushed was moved from the reviewed base if and only if nobody else had already put the very same
  commit there (`ManagedPush.PushedMovedFromBase`, `ManagedPush.PushedWithoutMoving`).
- A built README plan is valid if and only if no observed and desired text differ and share a digest
  (`ManagedBuild.CollectedPlanIsValid`, `ManagedBuild.ConstantDigestRejects`).
- The two trust classifiers agree on all routers of ASCII patterns if and only if the path has no line feed
  (`TrustRouter.AgreeExactlyWithoutLineFeeds`, `TrustRouter.LineFeedsDiffer`). On such paths they agree on all routers
  over a family of patterns if and only if its matching patterns rank the same counted in bytes and in characters
  (`TrustRouter.AgreeExactlyByRank`, `TrustRouter.AccentedPatternsDiffer`).
- The status phase reports the error of the failure that arrives first. In every execution that is the error of the
  sequential run if and only if the first `parallel` failing repositories have one error, as they always do with one
  slot (`StatusPhase.FirstErrorIsSequentialExactly`, `StatusPhase.OneSlotIsSequential`); otherwise it can vary
  (`StatusPhase.FirstCheckErrorDependsOnArrival`). The apply phase's never varies (`WorkerPool.CollectApplyResults`).

## Model

| member | source | states |
|---|---|---|
| `CommitGraph.AncestorAntisymmetric` | internal/status/status.go:339-352 | in an acyclic history two commits that reach each other are one commit |
| `CommitGraph.NothingOfItsOwn` | internal/status/status.go:323-352 | one side of a comparison counts nothing exactly when it is an ancestor of the other |
| `MirrorStatus.CountsRoundTrip` | internal/status/status.go:323-337 | reading the printed left and right counts gives them back, for all counts an int holds |
| `MirrorStatus.CountsClassify` | internal/status/status.go:339-352 | over every acyclic commit graph the counts classify a pair of heads as EQUAL, BEHIND, AHEAD or DIVERGED exactly as ancestry does |
| `MirrorStatus.ForcedExactlyWhenNotFastForward` | internal/refpolicy/policy.go:73-89 | every truly counted pair of heads is decided: something is done exactly when they differ, forced exactly when the push is not a fast-forward |
| `MirrorStatus.CheckAll` | internal/status/status.go:174-235 | each mirror is identified, fetched and compared on its own, in configuration order; a mirror that answers truly is reported with the relationship of its head and the commits each side has on its own, any other with what failed; a failure stays with its mirror, and the joined errors are exactly the complaints of the mirrors in error |
| `MirrorStatus.ObservedIsRelationship` | internal/status/status.go:242-274 | a true answer of Git is reported as the relationship of the two heads, ahead and behind being the numbers of commits that only the mirror and only the canonical repository have |
| `MirrorStatus.OnePolicy` | internal/refpolicy/policy.go:51-71 | exactly the one ref policy is accepted, any part of which may be left out |
| `MirrorStatus.ComplaintsSay` | internal/status/status.go:206-234 | the joined errors are one for each mirror in error, naming its target once it has an identity |
| `PlanArtifact.ArtifactOf` | internal/planartifact/artifact.go:95-118 | the artifact holds one repository per plan and one action per planned action, in order |
| `PlanArtifact.PlansRoundTrip` | internal/planartifact/artifact.go:95-141 | a valid version 2 artifact made from plans gives exactly those plans back |
| `PlanArtifact.ArtifactRoundTrip` | internal/planartifact/artifact.go:95-141 | plans of a valid version 2 artifact make exactly that artifact |
| `MirrorPlan.StableIdOfEndpoint` | internal/executor/executor.go:225-227 | a planned remote carries the identity of the configured endpoint it was made from |
| `MirrorPlan.DefaultBranchesAgree` | internal/refpolicy/policy.go:91-109 | the planner's own branches always satisfy the ref policy, so that refusal is never taken |
| `MirrorPlan.RefusalIsFinal` | internal/apply/repository_plan.go:83-151 | one refused mirror refuses the whole plan |
| `MirrorPlan.PlanOneMirror` | internal/apply/repository_plan.go:83-151 | the step for one mirror, with the canonical commit resolved at the first action and kept for later ones |
| `MirrorPlan.PlanActions` | internal/apply/repository_plan.go:83-151 | the loop's plan is the steps of the configured mirrors in configuration order |
| `MirrorPlan.BuildRepositoryPlan` | internal/apply/repository_plan.go:30-153 | the plan is a function of configuration, the observations by target, and the cache; every refusal is a refusal of that function |
| `MirrorPreflight.ValidateRepositoryArtifact` | internal/apply/multi_preflight.go:75-186 | accepts exactly the artifacts that agree with configuration and observation mirror by mirror; binds every configured target; aggregates the worst state |
| `MirrorPreflight.CheckMirrors` | internal/apply/multi_preflight.go:138-179 | one pass over the mirrors decides agreement of each with the artifact |
| `MirrorPreflight.AcceptedMirror` | internal/apply/multi_preflight.go:138-179 | an accepted artifact has exactly one action for each mirror that is not EQUAL and none for the others, forced exactly for AHEAD and DIVERGED |
| `MirrorPreflight.AcceptedTargets` | internal/apply/multi_preflight.go:180-185 | an accepted artifact has no action for anything but a configured mirror |
| `MirrorPreflight.BoundTargets` | internal/apply/multi_preflight.go:138-146 | exactly the configured targets are bound, each to the remote name of a mirror with that identity |
| `MirrorPreflight.PlannedTargetsDistinct` | internal/apply/repository_plan.go:83-151 | a built plan never has two actions for one target |
| `MirrorPreflight.BuiltPlanIsAccepted` | internal/apply/multi_preflight.go:75-186 | any artifact built from an observation is accepted against that same observation |
| `MirrorPreflight.ObservationOrderDoesNotMatter` | internal/apply/repository_plan.go:30-153 | observing the mirrors in another order changes neither the plan nor acceptance |
| `MirrorMeaning.PlanExistsExactly` | internal/apply/repository_plan.go:30-153 | a plan exists if and only if every configured mirror was observed without an error in one of the four relationships, the policy is the one there is, and the cache knows the branches and heads the pushes need |
| `MirrorMeaning.PlanSays` | internal/apply/repository_plan.go:83-151 | the actions are exactly the pushes of the canonical head to the mirrors not observed EQUAL, each from and to the default branch, over the cached head, forced exactly for AHEAD and DIVERGED |
| `MirrorMeaning.AcceptedExactly` | internal/apply/multi_preflight.go:75-186 | an artifact is accepted if and only if it is this repository's, the observation is complete, its actions start at the canonical repository and go to distinct configured mirrors, and every mirror gets what its observation asks for |
| `MirrorMeaning.AggregateIsWorst` | internal/apply/multi_preflight.go:239-250 | the state reported is the worst of a configured mirror: DIVERGED, AHEAD, BEHIND, EQUAL |
| `MirrorMeaning.OnlyDefaultBranches` | internal/refpolicy/policy.go:91-109 | a push is allowed if and only if it goes from the canonical default branch to the mirror's own, or to its namesake when the mirror shows none |
| `MirrorExecution.Git.PushBranch` | internal/executor/executor.go:15-19 | a plain push replaces nothing but an ancestor of its source, moves no head but its target's, and when acknowledged leaves its source there, whatever outside writers do |
| `MirrorExecution.Git.ForcePushBranchWithLease` | internal/executor/executor.go:15-19 | a leased push replaces nothing but the leased head, moves no head but its target's, and when acknowledged leaves its source there, whatever outside writers do |
| `MirrorExecution.PreflightPlan` | internal/executor/executor.go:135-164 | passes every action, or names the first malformed one, or else the first stale one; all others stay SKIPPED |
| `MirrorExecution.ValidateCurrentRefs` | internal/executor/executor.go:197-223 | an action is current exactly when both its refs resolve to the reviewed commits |
| `MirrorExecution.PushAction` | internal/executor/bound_execution.go:26-37 | one action is one push of its own ref to its own target, leased exactly when forced |
| `MirrorExecution.PushAll` | internal/executor/bound_execution.go:24-50 | every action is attempted once in order; result and event i belong to action i; the failure count is the number of FAILED results |
| `MirrorExecution.ExecuteActions` | internal/executor/bound_execution.go:14-51 | without a full preflight nothing moves; with one the final world is that of all attempts |
| `MirrorExecution.PushIsSafe` | internal/executor/bound_execution.go:24-50 | a push moves only its target, replaces only what its lease or fast-forward allows, and an acknowledged one leaves its source there |
| `MirrorExecution.ResultSays` | internal/executor/bound_execution.go:38-46 | evidence says APPLIED with the reviewed commit exactly when the push was acknowledged, and otherwise FAILED with Git's message |
| `MirrorMeaning.PassedIsReviewed` | internal/executor/executor.go:135-223 | every action that passes preflight is a push whose source and target tracking refs, under the bound remote names, still name the reviewed commits |
| `MirrorSafety.RunIsSafe` | internal/executor/bound_execution.go:14-51 | in every run with outside writers a forced push replaces only the reviewed head and a plain push only an ancestor of its source |
| `MirrorSafety.NoForceNoRewind` | internal/executor/bound_execution.go:24-50 | a plan without forced actions never loses a commit of a mirror |
| `MirrorSafety.SourceIsReviewed` | internal/executor/bound_execution.go:26-37 | with a quiet cache every push sends the commit its ref named at preflight |
| `MirrorSafety.SourceDrifts` | internal/executor/bound_execution.go:26-37 | every push sends what outside writers last left under its source ref; no push of the run changes that ref |
| `MirrorSafety.EvidenceIsTrue` | internal/executor/bound_execution.go:38-46 | with a quiet cache APPLIED evidence is the head the push left on its target |
| `MirrorSafety.EvidenceIsTrueExactly` | internal/executor/bound_execution.go:38-46 | in any run APPLIED evidence is true if and only if outside writers, between preflight and that push, last left the reviewed commit under the source's tracking ref |
| `MirrorSafety.EvidenceCanBeFalse` | internal/executor/bound_execution.go:38-46 | for every runnable plain action: a world that passes preflight and one concurrent fetch with which the record names a commit that was never pushed |
| `MirrorSafety.OnlyOwnRemoteMatters` | internal/executor/bound_execution.go:24-50 | what an action meets and what its target's head becomes depends on no other action |
| `MirrorSafety.PermutedRun` | internal/executor/bound_execution.go:24-50 | with any outside writers, permuting the actions permutes their events and outcomes as long as each meets the same around its own push; all final heads agree as long as each branch is treated alike afterwards |
| `MirrorSafety.PermutedAttempt` | internal/executor/bound_execution.go:24-50 | one action in two runs that otherwise differ fares the same when it meets the same source and head and is answered alike |
| `MirrorSafety.PermutedTarget` | internal/executor/bound_execution.go:24-50 | and leaves the same final head on its target when outside writers treat that head alike after the push |
| `MirrorSafety.PermutedStillRun` | internal/executor/bound_execution.go:24-50 | runs nobody disturbs always satisfy this: permuting the actions permutes the outcomes and leaves the same heads |
| `MirrorConvergence.RemoteNamesDiffer` | internal/apply/repository_plan.go:155-160 | two mirrors never share a remote name |
| `MirrorConvergence.PlanIsReady` | internal/executor/executor.go:135-157 | the plan built from a fresh cache passes the executor's preflight, with distinct targets |
| `MirrorConvergence.CleanRunConverges` | internal/executor/bound_execution.go:14-51 | an undisturbed, delivered run applies every action and leaves every mirror at the canonical commit |
| `MirrorConvergence.PlanIsEmptyExactly` | internal/apply/repository_plan.go:83-151 | a true observation gives an empty plan exactly when every mirror is at the canonical commit |
| `MirrorConvergence.NextPlanIsEmpty` | internal/apply/repository_plan.go:30-153 | after such a run every mirror is observed EQUAL and the next plan exists and is empty |
| `MirrorExample.SituationsExist` | internal/apply/repository_plan.go:30-153 | the hypotheses of the convergence theorems are met by a freshly fetched, diverged mirror with a plan of one action |
| `MirrorExample.EvidenceIsFalseHere` | internal/executor/bound_execution.go:38-46 | a plan to push b over a, literally: after a fetch of c the record says b and the mirror is at c |
| `ExecutionJournal.FromPlan` | internal/journal/record.go:98-153 | INTENT is built exactly when artifact and record are valid, one PLANNED entry per action |
| `ExecutionJournal.IntentExactly` | internal/journal/record.go:182-246 | the artifacts that can be recorded are exactly the valid one-repository ones whose object ids carry no spaces |
| `ExecutionJournal.SpacedArtifactIsValidButNotRecorded` | internal/journal/record.go:182-246 | a space before one object id of any recordable artifact leaves it valid and makes it unrecordable |
| `ExecutionJournal.IntentDescribesPlan` | internal/journal/record.go:98-153 | entry i shows action i of the plan: refs, force, reviewed commits |
| `ExecutionJournal.SafeDiagnostic` | internal/journal/execution.go:127-137 | whatever the executor said and however it is redacted, the recorded diagnostic passes the record's own safety check |
| `ExecutionJournal.FromExecution` | internal/journal/execution.go:71-108 | RESULT is built exactly when the evidence describes the plan and the projected record is valid, and then the evidence is about the artifact's actions, index by index |
| `ExecutionJournal.FromPreflight` | internal/journal/execution.go:19-67 | as above for a dry run, whose evidence must also be consistent with passing or failing: nothing APPLIED, and nothing STALE or FAILED in a pass |
| `ExecutionJournal.ApplyIsRecorded` | internal/journal/execution.go:71-125 | once INTENT can be built, everything the executor can return gives a valid RESULT whose entry i shows action i |
| `ExecutionJournal.DryRunIsRecorded` | internal/journal/execution.go:19-67 | as above for every preflight result, with VALIDATED, STALE, FAILED and SKIPPED where they belong |
| `ExecutionJournal.RecordedOutcomeIsTrue` | internal/journal/execution.go:71-108 | an entry says APPLIED exactly when its push was acknowledged, and otherwise what preflight or the push met |
| `AuditedApply.ValidateBoundDefaultBranches` | internal/apply/multi_preflight.go:188-216 | passes exactly when every action is still on the default branches its bound remotes show |
| `AuditedApply.DetailedActions` | internal/apply/multi_execute.go:119-149 | public action i is made from planned action i and its evidence, or is only planned when there is no complete evidence |
| `AuditedApply.PublicAgreesWithJournal` | internal/apply/multi_execute.go:119-149 | public result and journal entry agree on outcome, before, desired, after and force |
| `AuditedApply.DetailSays` | internal/apply/multi_execute.go:103-149 | a public action names both ends by provider, path and branch with the reviewed commits, the new head only when applied, and an error only when failed |
| `AuditedApply.PublicDiagnosticSays` | internal/apply/multi_execute.go:151-162 | what is shown is the diagnostic without paths, or a fixed text for an empty or unsafe one |
| `AuditedApply.GateSays` | internal/apply/multi_execute.go:25-71 | which check stops a run: no id, no writer, an artifact that is not accepted, an apply with a forced action and no consent, no cache, an action off the default branches, no INTENT; a run is admitted if and only if it is none of these |
| `AuditedApply.Perform` | internal/apply/multi_execute.go:73-81 | a dry run moves nothing; an apply is the executor's |
| `AuditedApply.EveryRunIsRecorded` | internal/apply/multi_execute.go:82-91 | whatever an admitted run met, its RESULT exists, is valid and speaks of its plan entry by entry |
| `AuditedApply.EveryPushIsSafe` | internal/apply/multi_execute.go:25-101 | of every admitted run: no push in a dry run, none without a complete preflight, no leased push without consent, and each goes to its action's target and replaces only what it may |
| `MirrorMeaning.PushedToDefaultBranch` | internal/apply/multi_preflight.go:188-216 | every push of an admitted run goes to the default branch its remote shows now, or to the namesake of the canonical one when it shows none |
| `AuditedApply.ExecuteRepositoryArtifactAudited` | internal/apply/multi_execute.go:25-101 | without consent no event of the run is leased, and an accepted artifact with a forced action stops an apply with ForceRequired; whatever stops a run leaves mirrors, events and journal as they were; a dry run moves nothing; after an accepted INTENT exactly one valid RESULT is offered |
| `AuditedConvergence.NothingStopsIt` | internal/apply/multi_execute.go:25-71 | no check stops the apply of an artifact just built from a true observation, and its INTENT exists |
| `AuditedConvergence.CleanAuditedRunConverges` | internal/apply/multi_execute.go:25-101 | from a true observation to equal mirrors: the built artifact is accepted and passes every check, and when nobody else writes and every push is delivered the audited run applies every action, records every one as APPLIED in a valid RESULT, and leaves every configured mirror at the canonical commit |
| `AliasExecution.PreflightOwn` | internal/executor/executor.go:135-164 | the same preflight under the remote names the actions give |
| `AliasExecution.FreshIsReviewed` | internal/executor/executor.go:135-157 | a fresh action is a push whose refs, under the remotes it names itself, still name the reviewed commits |
| `AliasExecution.ExecutePlan` | internal/executor/executor.go:110-133 | nothing moves before a full preflight; pushes are made in order up to the first failure, and the actions after it stay SKIPPED |
| `AliasExecution.OwnRunIsSafe` | internal/executor/executor.go:110-133 | every push of such a run goes where its action says and replaces only what it may |
| `AliasExecution.StoppedRunIsRecorded` | internal/journal/execution.go:71-108 | a run that stopped early has a valid RESULT too |
| `ExecutionJournal.PossibleIsRecorded` | internal/journal/execution.go:71-125 | any evidence that describes the plan and claims no other commit than the reviewed one makes a valid RESULT |
| `ArtifactChecks.ArtifactFields` | internal/planartifact/artifact.go:170-200 | what a valid artifact may have in the place of any one field, repository or action |
| `ArtifactChecks.RecordFields` | internal/journal/record.go:182-246 | what a valid record may have in the place of any one field or entry |
| `ArtifactChecks.LegacyFields` | internal/journal/record.go:182-246 | a version 1 record has no phase and says anything but VALIDATED |
| `ArtifactChecks.OidsAndDigests` | internal/journal/record.go:182-246 | object ids are 40 or 64 hexadecimal digits, digests 64 of lower case |
| `ArtifactChecks.SafePaths` | internal/planartifact/artifact.go:216-231 | a provider path has two segments or more and is safe exactly when its first segment and the rest are |
| `ArtifactChecks.RefusedBranches` | internal/planartifact/artifact.go:238-252 | no branch holds what Git refuses, wherever it stands |
| `ArtifactChecks.RefusedSegments` | internal/planartifact/artifact.go:238-252 | no segment of a branch is empty, begins with a dot or ends with ".lock" |
| `ArtifactChecks.DiagnosticSays` | internal/journal/execution.go:127-137 | a safe diagnostic is kept without its paths, an empty one replaced by a fixed text |
| `PowersOfTen.ScaleAdd` | internal/posturepolicy/number.go:71-79 | powers of ten multiply by adding any two integer exponents |
| `DecimalNumber.ParseDecimalNumber` | internal/posturepolicy/number.go:40-81 | succeeds on every grammatical number with a normal form of the same exact value |
| `DigitStrings.CompareIsNumeric` | internal/posturepolicy/number.go:92-98 | on digit strings of one length text order is number order |
| `DecimalNumber.CompareDecimalMagnitude` | internal/posturepolicy/number.go:83-99 | comparing magnitudes and padded digits is comparing exact values, zero aside |
| `DecimalNumber.CompareNumberStrings` | internal/posturepolicy/number.go:15-38 | for all JSON numbers of any length and exponent, the sign of the exact difference, except for zero against a positive number below one |
| `DecimalNumber.TrueExceptForZeroAndFractions` | internal/posturepolicy/number.go:15-38 | the comparison is the true sign if and only if the pair is not zero against a positive number below one |
| `DecimalNumber.ZeroRanksAboveHalf` | internal/posturepolicy/number.go:83-99 | a pair that is compared the wrong way round |
| `JsonValue.EqualJsonValue` | internal/posturepolicy/evaluate.go:237-280 | two JSON trees are equal exactly when they denote the same value, numbers by exact value, objects by members |
| `PolicyEvaluation.CompareJsonNumbers` | internal/posturepolicy/evaluate.go:282-304 | both error cases, and the comparison of exact values |
| `PolicyEvaluation.MatchesCondition` | internal/posturepolicy/evaluate.go:186-225 | every operator on every readable operand, with its error cases |
| `PolicyEvaluation.BothBoundsAreEquality` | internal/posturepolicy/evaluate.go:186-225 | on numbers at_least and at_most both hold exactly when equals does |
| `PolicyEvaluation.AtLeastMeansNotBelow` | internal/posturepolicy/evaluate.go:186-225 | at_least means "not below" if and only if zero does not meet a positive number below one |
| `PolicyEvaluation.HalfFailsAtLeastZero` | internal/posturepolicy/evaluate.go:186-225 | one half is not "at least zero" to the evaluator |
| `PolicyEvaluation.EvaluateApplicability` | internal/posturepolicy/evaluate.go:91-133 | the selector's decision for every fact state, overlap and gap included |
| `PolicyEvaluation.OutcomeIsValid` | internal/posturepolicy/codec.go:133-197 | a valid rule on valid facts yields an evaluation the report validator accepts |
| `PolicyEvaluation.SortedEvaluations` | internal/posturepolicy/model.go:254-264 | a permutation sorted by area and rule id |
| `PolicyEvaluation.SortedPermutationIsUnique` | internal/posturepolicy/model.go:254-264 | with distinct rule ids there is only one such permutation, however unstable the sort |
| `PolicyEvaluation.Evaluate` | internal/posturepolicy/evaluate.go:13-75 | succeeds exactly when profile and inputs are valid and every rule can be decided; reports one evaluation per rule; otherwise gives the first undecidable rule's error; what the report says is `PolicyMeaning.ReportSays` |
| `PolicyEvaluation.EvaluatedReportIsValid` | internal/posturepolicy/codec.go:133-197 | a report passes its own validator exactly when its date has a four-digit year |
| `PolicyEvaluation.YearTenThousandIsInvalid` | internal/posturepolicy/codec.go:133-197 | every report evaluated on the first day of the year 10000 fails its own validator |
| `PolicyEvaluation.ReorderedProfileIsValid` | internal/posturepolicy/model.go:152-189 | reordering rules and exceptions keeps a profile valid |
| `PolicyEvaluation.OrderDoesNotMatter` | internal/posturepolicy/evaluate.go:13-75 | reordering rules and exceptions changes neither success nor a single entry of the report |
| `PolicyMeaning.MatchesWhenHolds` | internal/posturepolicy/evaluate.go:186-225 | a condition matches exactly when it is true of the value: it denotes the same, is no less, is no more, or is not empty; the one exception is a bound between zero and a positive number below one |
| `PolicyMeaning.OutcomeSays` | internal/posturepolicy/evaluate.go:152-180 | for any one rule: undecidable, or Pass exactly when its condition holds of the observed fact, else Warning exactly for Informational severity and Fail for others, an exception in force turning just those into Excepted; rules ruled out are NotApplicable, facts not observed are Unknown or Unavailable |
| `PolicyMeaning.DecidedExactly` | internal/posturepolicy/evaluate.go:13-75 | evaluation fails if and only if some rule compares a bound with no number or has a selector that both applies and is ruled out |
| `PolicyMeaning.ReportSays` | internal/posturepolicy/evaluate.go:13-75 | every report of a successful `Evaluate` has exactly one evaluation of every rule, with that status, that rule's own exception, and the selector's decision |
| `PolicyMeaning.HeaderSays` | internal/posturepolicy/evaluate.go:13-75 | a report names its profile, its repository and the day of its instant, and lists areas and rules in text order |
| `PolicyMeaning.ProfileExactly` | internal/posturepolicy/model.go:152-189 | a profile is valid if and only if kind and version are known, it has an id, its rules are valid and distinct, and its exceptions are distinct, complete and each of one of its rules |
| `ReviewDiff.UnquoteQuote` | internal/managedartifact/diff.go:125-131 | quoting a line can be undone |
| `ReviewDiff.SplitReviewLines` | internal/managedartifact/diff.go:72-90 | the lines of a present text, which join to it, and none of an absent one |
| `ReviewDiff.CommonPrefixLength` | internal/managedartifact/diff.go:92-100 | the shared prefix: equal up to there, and no longer one is shared |
| `ReviewDiff.CommonSuffixLength` | internal/managedartifact/diff.go:102-110 | the shared suffix: equal from there, and no longer one is shared |
| `ReviewDiff.ChangeIsTight` | internal/managedartifact/diff.go:92-110 | what surrounds the change is shared and the change cannot be narrowed |
| `ReviewDiff.ReadRender` | internal/managedartifact/diff.go:47-64 | a written hunk reads back as its ranges, context and changed text |
| `ReviewDiff.HunkSays` | internal/managedartifact/diff.go:47-64 | at most three lines of context on each side, counts of both sides, and what was removed and added |
| `ReviewDiff.ApplyReviewHunk` | internal/managedartifact/diff.go:47-64 | applying the hunk to the old lines gives the new ones |
| `ReviewDiff.HunkBytes` | internal/managedartifact/diff.go:47-64 | context and removed lines fit the old text, added lines the new |
| `ReviewDiff.RenderBytes` | internal/managedartifact/plan.go:22-22 | the written hunk is at most twice its texts plus marks and header |
| `ReviewDiff.DiffFields` | internal/managedartifact/plan.go:280-306 | a diff is valid if and only if it begins with the labels and a hunk, ends with a line feed, and is safe text within its bound |
| `ReviewDiff.DiffIsFaithful` | internal/managedartifact/diff.go:47-69 | for all valid texts within bounds the diff is within its bound, passes its validator, and rebuilds the desired text from the observed one |
| `ReviewDiff.DiffDeterminesText` | internal/managedartifact/diff.go:16-70 | for one observed state one non-empty diff allows one desired text |
| `ReviewDiff.ReviewDiff` | internal/managedartifact/diff.go:16-70 | fails only on unreviewable input, with the error of its first fault, never at its two internal exits; empty exactly when there is nothing to review |
| `RenderReadme.NormalizeGivesLF` | internal/managedartifact/render.go:122-129 | normalising leaves safe text with LF endings only |
| `RenderReadme.EachBreakIsKept` | internal/managedartifact/render.go:122-129 | normalising keeps text without CR, and makes each CRLF and each lone CR one line feed, wherever it stands |
| `RenderReadme.RenderReplacements` | internal/managedartifact/render.go:83-120 | exactly the tokens that stand for something, each with its normalised text |
| `RenderReadme.ScanIsSound` | internal/managedartifact/render.go:26-81 | what the scan accepts is literals and tokens that print back to the template |
| `RenderReadme.ScanIsComplete` | internal/managedartifact/render.go:26-81 | every such reading is the one the scan finds, so a template has at most one |
| `RenderReadme.WriteToken` | internal/managedartifact/render.go:44-76 | one literal and one token leave exactly the same completions |
| `RenderReadme.PlainTemplate` | internal/managedartifact/render.go:44-80 | a template without tokens renders to itself |
| `RenderReadme.TokenIsReplaced` | internal/managedartifact/render.go:44-80 | a literal, a token and a rest render to the literal, what the token stands for and what the rest renders to |
| `RenderReadme.RenderREADME` | internal/managedartifact/render.go:26-81 | succeeds exactly when the template's one reading resolves and fits; the output replaces each token once and never reads inserted text again; a template without tokens renders to its normal form; it is safe, free of CR and within bounds; too large, not text and unsafe templates are told apart |
| `RenderReadme.RenderedIsManaged` | internal/managedartifact/plan.go:308-324 | a rendering passes the text rules of a plan |
| `ManagedPlan.Validate` | internal/managedartifact/plan.go:103-145 | one pass accepts exactly the plans whose repositories are valid and pairwise apart in uid, id and target |
| `ManagedPlan.PlanTextIsRecordText` | internal/journal/managed_artifact.go:246-334 | names, paths and branches a plan accepts are accepted by a record |
| `ManagedPlan.ValidatePlannerRepositories` | internal/managedartifact/build.go:135-168 | one pass accepts exactly the ready repositories that are pairwise apart |
| `ManagedPlan.BuildChange` | internal/managedartifact/build.go:57-126 | a repository contributes no change exactly when it is up to date, else the change from what is there to what is asked; the diff step never fails |
| `ManagedBuild.ChangeIsValidExactly` | internal/managedartifact/plan.go:147-170 | a contributed change passes the plan's validator if and only if differing texts do not share a digest |
| `ManagedBuild.ConstantDigestRejects` | internal/managedartifact/plan.go:147-170 | with one digest for everything, a change of any README that is there fails the plan's validator |
| `ManagedBuild.KeyHoldsRepository` | internal/managedartifact/plan.go:127-131 | two targets with one key belong to one repository |
| `ManagedBuild.CollectedPlanIsValid` | internal/managedartifact/build.go:128-132 | a collected plan passes its own validation if and only if no README differs from the one asked for and has its digest |
| `ManagedBuild.BuildPlan` | internal/managedartifact/build.go:31-133 | the contributions of the configured repositories ordered by durable id; it fails only when there is no such valid plan, and when all contribute its last validation fails if and only if two differing READMEs share a digest |
| `ManagedBuild.ConfigurationOrderDoesNotMatter` | internal/managedartifact/build.go:50-56 | one configuration written in any order yields one plan |
| `ManagedChecks.PlanIsOrdered` | internal/managedartifact/build.go:50-56 | the changes of a built plan are in text order of durable ids |
| `ManagedChecks.ChangeSays` | internal/managedartifact/build.go:57-126 | a change names the repository, its branch and base, the observed mode and digest, a rendering of its template with the mode kept, and the diff between the two |
| `ManagedChecks.TokensSay` | internal/managedartifact/render.go:83-120 | the built-in tokens stand for the repository's id, durable id, canonical provider and path, and value tokens for configured values |
| `ManagedPreflight.PreflightPlan` | internal/managedartifact/preflight.go:17-87 | passes exactly when every repository is configured and observed as reviewed: a pass finds, for each, a configured repository with its durable id, id, canonical provider and path, a README and no URL of its own; a valid plan over configuration with distinct durable ids is stale when one of these changed or the README is no longer configured |
| `ManagedPreflight.CompareToCurrent` | internal/managedartifact/preflight.go:54-85 | the verdict on one repository's current state |
| `ManagedPreflight.ChangedIsStale` | internal/managedartifact/preflight.go:54-107 | one repository is rejected exactly when it cannot be observed and stale exactly when branch, base, presence, mode, digest or diff changed or the README is already as desired |
| `ManagedPreflight.UnchangedWorldPasses` | internal/managedartifact/preflight.go:17-87 | a built plan passes while configuration and observations stay the same |
| `ManagedPreflight.PassedMeansUnchanged` | internal/managedartifact/preflight.go:54-107 | a passing plan finds branch, base, presence, mode and digest as reviewed, and the content too unless it is another of the same digest |
| `ManagedPreflight.PassedDiffApplies` | internal/managedartifact/preflight.go:74-84 | after a pass the reviewed diff applied to what is there now gives the reviewed content, whatever digests say |
| `GitTree.SplitListing` | internal/git/write.go:42-50 | splitting a printed tree at NUL gives its records |
| `GitTree.ListingDetermines` | internal/git/write.go:38-59 | a printed tree has one reading |
| `GitTree.SpliceRootBlob` | internal/git/write.go:29-59 | the input of mktree: every record kept but the named one, and one new record; three error cases, each with what causes it |
| `GitTree.SpliceSetsOneEntry` | internal/git/write.go:42-59 | the spliced bytes print the tree with that one entry set and every other entry unchanged |
| `ManagedCommit.Store.BuildTreeWithRootBlob` | internal/git/write.go:29-64 | refuses what is no root path, no blob mode or no base; the new tree is the base tree with one root entry set; nothing else in the database changes; it cannot fail when Git serves these two trees |
| `ManagedCommit.OnlyReadmeDiffers` | internal/managedartifact/commit.go:97-103 | when the changed paths are exactly README.md every other root entry is the base's |
| `ManagedCommit.VerifyPreparedCommit` | internal/managedartifact/commit.go:96-119 | accepts exactly the commits that set only README.md, to the reviewed mode and content |
| `ManagedCommit.VerifiedSays` | internal/managedartifact/commit.go:96-119 | such a commit keeps every other root entry and has one README.md, a blob of the reviewed mode and content, as its only changed path |
| `ManagedCommit.BuiltCommitVerifies` | internal/managedartifact/commit.go:96-119 | a commit that sets a README truly observed to be different always reads back as that one change |
| `ManagedCommit.PrepareOne` | internal/managedartifact/commit.go:63-92 | one candidate, read back before it is used, on the reviewed base; it cannot fail when Git does its part and no id stands for two of the objects involved |
| `ManagedCommit.Prepare` | internal/managedartifact/commit.go:55-94 | one verified commit per planned repository in plan order, or an error and none; nothing before a passing preflight |
| `ManagedPush.CheckCandidate` | internal/managedartifact/push.go:59-88 | accepts exactly the planned commits whose parent is the reviewed base and that change only README.md |
| `ManagedPush.PushCandidates` | internal/managedartifact/push.go:98-118 | leased pushes in plan order; successes are a prefix and a failure is the last thing that happens |
| `ManagedPush.Push` | internal/managedartifact/push.go:50-119 | nothing is pushed unless every candidate is trustworthy and a fresh preflight passes |
| `ManagedPush.MadeIsTrustworthy` | internal/managedartifact/push.go:59-88 | what Prepare made passes every check Push makes of it |
| `ManagedPush.PushedMeansReviewed` | internal/managedartifact/push.go:98-118 | a pushed repository's branch, on the canonical remote of its own cache, is at a commit on the reviewed base whose listing is the base's with only README.md set as reviewed |
| `ManagedPush.PushedMovedFromBase` | internal/managedartifact/push.go:98-118 | a push is reported if and only if it was acknowledged and met the reviewed base or that very commit, as outside writers left it; then, for a commit other than the base, the branch moved from the base if and only if the commit was not there already |
| `ManagedPush.PushedWithoutMoving` | internal/managedartifact/push.go:98-118 | another writer puts the candidate there first, and the push is reported although nothing moved |
| `ManagedPush.PushReplacesOnlyBase` | internal/managedartifact/push.go:108-114 | any push moves at most its own target, and only from the leased base |
| `ManagedJournal.ValidateRecord` | internal/journal/managed_artifact.go:246-334 | one pass with counters accepts exactly the valid records |
| `ManagedJournal.ManagedArtifactIntent` | internal/journal/managed_artifact.go:52-74 | INTENT exists for exactly the valid non-empty plans, given a symbolic id and a well-formed digest |
| `ManagedJournal.ValidateEvidence` | internal/journal/managed_artifact.go:145-190 | accepts exactly the evidence that fits the plan |
| `ManagedJournal.ManagedArtifactResult` | internal/journal/managed_artifact.go:76-143 | RESULT is what the evidence decides for each repository, and is missing only when plan or evidence do not fit or the record is invalid |
| `ManagedJournal.PossibleEvidenceFits` | internal/journal/managed_artifact.go:145-190 | everything Prepare and Push can return fits the plan exactly when the prepared ids are object ids |
| `ManagedJournal.TrueRecordIsValid` | internal/journal/managed_artifact.go:246-334 | the record of every such outcome is valid, and APPLIED overall exactly when nothing failed |
| `ManagedJournal.AppliedExactly` | internal/journal/managed_artifact.go:110-137 | APPLIED is said of exactly the pushed repositories, a prefix of the plan; a stale run is stale throughout |
| `ManagedChecks.EachIsSaid` | internal/journal/managed_artifact.go:110-137 | pushed repositories are APPLIED, the one whose push failed FAILED, those after it SKIPPED; all are FAILED when preparing failed and STALE when the plan was stale |
| `ManagedChecks.RunSays` | internal/journal/managed_artifact.go:76-143 | a run is APPLIED without a stage, STALE, or FAILED in PREPARE when nothing was prepared and in PUSH otherwise |
| `ManagedChecks.FittingEvidence` | internal/journal/managed_artifact.go:145-190 | evidence that fits is about planned repositories, once each, at their bases, and pushes what was made for them |
| `ManagedChecks.ManagedRecordFields` | internal/journal/managed_artifact.go:246-334 | which outcome and stage a valid record may carry given what its entries say |
| `ManagedJournal.ProjectRecord` | internal/managedartifactapply/apply.go:130-145 | the caller is told what the record says |
| `ManagedJournal.Finish` | internal/managedartifactapply/apply.go:116-128 | RESULT is created exactly when the prepared ids are object ids, offered to the journal, and told to the caller |
| `ManagedJournal.Execute` | internal/managedartifactapply/apply.go:77-114 | nothing is made or pushed without an accepted INTENT; after one, RESULT is created for every way the run can end, given well-formed object ids |
| `ManagedConvergence.CalmRunPushesAll` | internal/managedartifact/push.go:98-118 | when nobody else moves a planned branch and every push is acknowledged, all candidates are pushed from their reviewed bases |
| `ManagedConvergence.NextPlanIsEmpty` | internal/managedartifact/build.go:31-133 | when every branch of a built plan is at its candidate, whoever looks truly again builds a plan, and it is empty |
| `ManagedConvergence.CleanApplyConverges` | internal/managedartifactapply/apply.go:77-128 | an unhindered apply of a built plan with calm remotes ends APPLIED with every repository APPLIED, has moved every branch from its base to its candidate, and the next plan exists and is empty |
| `PlumbingExample.AnyIdsWillDo` | internal/git/write.go:29-64 | whatever function of the object its ids are, content-addressed plumbing can be honest and able to set a README in any tree Git can hold |
| `PlumbingExample.PlumbingExists` | internal/git/write.go:29-64 | for any change that adds or replaces the README of any tree Git can hold, a content-addressed Git and database in which everything the apply run assumes of them holds |
| `WorkerPool.StepKeepsInv` | cmd/repoctl/runtime.go:260-288 | every step of every interleaving keeps slots, group, channel and received results in step with the tasks |
| `WorkerPool.BoundedAndNeverClosedEarly` | cmd/repoctl/runtime.go:260-288 | at most `parallel` tasks execute at a time, and none is unfinished when the channel is closed |
| `WorkerPool.NoSendBlocks` | cmd/repoctl/runtime.go:262-281 | with room for every usable repository no send ever blocks |
| `WorkerPool.DeadlockExactly` | cmd/repoctl/runtime.go:260-301 | the pool can deadlock if and only if usable repositories outnumber slots and channel room together, or there is no slot for any |
| `WorkerPool.SizedChannelNeverDeadlocks` | cmd/repoctl/runtime.go:260-301 | sized by the number of usable repositories and with a slot, it never does |
| `WorkerPool.StatusPhaseArrives` | cmd/repoctl/runtime.go:40-64 | the status phase never deadlocks, none of its sends blocks, and when it ends one result of every repository has arrived |
| `WorkerPool.RunsAreBounded` | cmd/repoctl/runtime.go:260-301 | every run ends within a number of steps fixed by the number of repositories |
| `WorkerPool.FinishedHasAll` | cmd/repoctl/runtime.go:290-301 | a finished run received exactly one result of every usable repository |
| `WorkerPool.SequentialSays` | cmd/repoctl/runtime.go:290-322 | the sequential run keeps one result of every usable repository in order, counts the failures, and keeps the error of the first |
| `WorkerPool.CollectApplyResults` | cmd/repoctl/runtime.go:290-322 | output, failure count and first error are those of the sequential run, whatever the order of arrival |
| `WorkerPool.SummarizeChecks` | cmd/repoctl/runtime.go:66-87 | whatever the order of arrival, results and flags are those of the repositories, failedCount is exactly the number that are not ok, so the apply channel has room for the others, and the code is 2 exactly when some result is alarming, which the source says of AHEAD and DIVERGED |
| `StatusPhase.ArrivesFirstExactly` | cmd/repoctl/runtime.go:40-88 | the failures that can be the first to arrive in some complete run are exactly those with fewer failing repositories before them than there are slots |
| `StatusPhase.FirstErrorIsSequentialExactly` | cmd/repoctl/runtime.go:40-88 | every complete run reports the error of the sequential run if and only if the first `parallel` failing repositories, or all if fewer, have one error |
| `StatusPhase.OneSlotIsSequential` | cmd/repoctl/runtime.go:40-88 | with one slot every complete run reports the error of the sequential run |
| `StatusPhase.CanFinish` | cmd/repoctl/runtime.go:40-88 | from every reachable state of a pool that cannot deadlock the end can be reached, and what was sent is received in that order |
| `StatusPhase.FirstCheckErrorDependsOnArrival` | cmd/repoctl/runtime.go:40-88 | two slots and two different failures: a complete run of the pool that reports the first, and one that reports the second |
| `TrustRouter.FnmatchCase` | internal/posture/documentation_routing.go:113-134 | the compiled expression of a pattern, and its refusal of character classes |
| `TrustRouter.FitsIsGlob` | internal/posture/documentation_routing.go:113-134 | on paths without line feeds the compiled expression is the glob |
| `TrustRouter.LiteralsAgree` | scripts/ci/trust-policy.py:77-79 | removing "**", "*" and "?" in turn removes what the Go replacer removes |
| `TrustRouter.BestIsUnique` | internal/posture/documentation_routing.go:80-111 | there is one best tier |
| `TrustRouter.PatternOrderDoesNotMatter` | internal/posture/documentation_routing.go:88-107 | the order of patterns inside a rule is irrelevant |
| `TrustRouter.MostSpecificWins` | internal/posture/documentation_routing.go:88-107 | the matching pattern with more literal characters decides the tier, of those the longer one, of those the one of the earlier rule |
| `TrustRouter.Classify` | internal/posture/documentation_routing.go:80-111 | the scan refuses exactly rule lists with a character class and otherwise returns the best tier |
| `TrustRouter.ClassifyBySorting` | scripts/ci/trust-policy.py:82-91 | the head of the sorted matches has the best tier, whatever bracket patterns match |
| `TrustRouter.ImplementationsAgree` | scripts/ci/trust-policy.py:77-91 | on ASCII patterns that the scan does not refuse and paths without line feeds, scan and sort choose the same tier |
| `TrustRouter.AlikeExactly` | internal/posture/documentation_routing.go:80-111 | for any two readings of patterns: all loadable routers over a family of patterns are classified alike if and only if the patterns match alike and those that match are ranked alike |
| `TrustRouter.AgreeExactlyByRank` | scripts/ci/trust-policy.py:77-91 | on a path without line feeds scan and sort agree on all loadable routers over a family if and only if any two of its matching patterns rank the same in bytes and in characters |
| `TrustRouter.AgreeExactlyWithoutLineFeeds` | scripts/ci/trust-policy.py:77-91 | scan and sort agree on all loadable routers of ASCII patterns if and only if the path has no line feed |
| `TrustRouter.BestExists` | internal/posture/documentation_routing.go:80-111 | every rule list has a best tier for every path |
| `TrustRouter.AccentedPatternsDiffer` | scripts/ci/trust-policy.py:77-91 | a rule list with an accented pattern for which they choose differently |
| `TrustRouter.LineFeedsDiffer` | internal/posture/documentation_routing.go:113-134 | one rule for all paths, and every path with a line feed: canonical for the sort and unclassified for the scan |

## Left out

- Git subprocesses, the network, timeouts, file paths, symbolic links and journal files: replaced by the rules above and by writers that may refuse.
- Decoding of JSON and YAML, null walkers and strict decoders: values enter already decoded; records and plans are built here, never parsed.
- The version 1 output around single-mirror plans; their executor itself is modelled (`AliasExecution`).
- Template loading and the README observer: functions of the configuration that may fail.
- Endpoint URLs and provider path rules: a configured endpoint has a provider, a path, and perhaps the path its transport URL yields.
- The wording of error messages: only their kind is kept, and where they are recorded, that they are safe.
- Posture collectors, assessment reports, bootstrap manifests, profile parsers: long lists of independent field checks.
- The difference between an absent and an empty list in Go.
- Outcomes, modes and phases outside the declared ones, which only parsing could bring in.
- ManagedBuild.BuildPlan: which of two failing repositories is named is not stated, only that one fails; when some repository does not contribute, no iff about the last validation is stated, because it is not reached; a nil observer is not modelled.
- ManagedJournal.Execute: nil collaborators are not modelled; the repositories' caches are one object database.
- PolicyEvaluation.Evaluate: values that do not decode are one kind of undecodable value.
- ReviewDiff.ReviewDiff: quoting escapes what encoding/json escapes in the text a README may hold; other characters are refused before it is used.
- TrustRouter.ClassifyBySorting: rules are given as parsed; Python's fnmatch is its documented meaning of `*` and `?`, and any relation of pattern and path for patterns with brackets.
