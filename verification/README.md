# Verification of the commercial core

This project models the parts of the system whose correctness no single function shows, and proves what they
are relied on for. It needs Dafny 4.11 and nothing else: `dafny verify dfyconfig.toml`.

**The commercial scenario** (`Rounding`, `Decimals`, `CommercialScenario`, `ScenarioProperties`). Decimal text is read
into scaled integers, three price sources are weighted in basis points, and every figure is rounded half up once.
The theorems say what the figures mean to each other *through* those roundings: when a scenario succeeds at all,
how far the direct cost can drift from the unrounded one, that the verdict is an exact inequality between price and
cost, and that the required price, printed as decimal text and entered as the tender price, closes the gap and
returns the target margin.

**The evidence store** (`Json`, `EvidenceTables`, `RowGuards`, `DeferredChecks`, `Transactions`, `EvidenceStore` and the
theorems named below). Approval tasks, approval records, actual, variance and calibration rows, controlled versions,
release decisions and audit events form one state. A transaction is a sequence of row inserts and updates; each
passes its BEFORE guard, its CHECKs and its unique constraints and queues deferred checks; at commit the queued
checks are evaluated on the final state, and one failure takes the whole transaction back. Guards are evaluated
under SQL's three-valued logic: an `IF` on a null condition does not fire. The decision check uses the value
captured when its event was queued; the two link checks re-read the row.

`EvidenceInvariant.Settled` (`EvidenceHistory`, `EvidenceInvariant`) is the invariant that no single trigger
establishes; it is proved of every committed state of every run. `EvidenceTheorems`, `EvidenceDecisions` and
`EvidenceDocuments` draw from it what can never be committed, in the words of the columns and payload keys. The other
direction, what must commit, is `EvidenceRecording` (a new actual, variance or calibration), `EvidenceProgress` (its
review, approving or rejecting), `EvidenceSupersession` (its retirement) and `EvidenceTasks` (decisions and
invalidations of all other tasks): each writes out the statements and the resulting tables and holds of any settled
state. `EvidenceExample` puts them together into runs that reach every table. `EvidenceReplacement` is about the
transaction that replaces a document set. `EvidenceStore.Store` executes statements in place with a commit loop and is
proved to commit exactly what the specification says.

**Guarded lifecycles.** `RiskHistory` follows one risk item through every accepted update. `GuardedTables` is a table of
rows under a CHECK, an update trigger and unique indexes; `InboxProcessing`, `CostModels` and `ContractTerms` are such
tables. `RateBuckets` follows one fixed-window bucket. `Memberships` has the version chain of each person in each
project and the role masks, computed once by a loop of `|=` and once as the guard's sum.

**Portfolio pages** (`Orders`, `PortfolioPages`). The keyset query of the read service and the endpoint that splices the
diagnostic project in front of it, with its own cursor for "database, first page". Walking the cursor with any page
sizes lists the diagnostic project and every visible project once, in order. Visibility itself is tied back to the
membership chain: the mask test is the role test.

**The quantity-change form** (`CanonicalForm`, `IdentifierLists`, `QuantityChange`, `QuantityRoundTrip`). The canonical
form that compares submissions, including the enumeration order of integer-like keys and the merging of repeated
keys; the draft filled in from the current submission; and the validation of a draft. The form answers an unedited
draft with "identical" exactly when the current submission is one the form could have read itself.

Four results are negative, each with an input that shows it and the exact condition under which the promise holds.
The margin does not always come back at the required price: it does if and only if the residues of three roundings,
known from the full cost and the terms, stay within half the net price, and always once the net exceeds 10000 kopecks
plus the available share in basis points. A decided task may have no record: it has its one record if and only if it
entered PENDING, which the database enforces for the three review types, or a record of it was inserted. A contract
term may have a resolved cost impact unverified: it keeps the rule at every later moment if and only if it keeps it now,
so only a term that was entered against the rule can ever break it. And the service that replaces a document set
invalidates every open task of the project, which the guard of each task allows but the deferred checks of the three
reviews do not: these updates commit if and only if the project has no variance, no calibration and no current
actual, and otherwise take the whole replacement back.

## Model

| member | source | states |
|---|---|---|
| Rounding.NearestIsNearest | web/src/commercialScenario.ts:77-84 | The half-up quotient is within half a unit of the true one, ties away from zero, for either sign |
| Rounding.NearestUnique | web/src/commercialScenario.ts:77-84 | No other integer has that property |
| Rounding.NearestMonotone | web/src/commercialScenario.ts:77-84 | A larger numerator never rounds lower |
| Rounding.StretchAndShrink | web/src/commercialScenario.ts:183-206 | Scaling a cost up by V/R with rounding and back down by R/V with rounding returns it, for 0 < R <= V |
| Decimals.MatchSpelling | web/src/commercialScenario.ts:60-66 | A sign, digits and an optional fraction are recognised and taken apart as written |
| Decimals.MatchOnlySpellings | web/src/commercialScenario.ts:60-63 | Nothing else is recognised |
| Decimals.ParsePadded | web/src/commercialScenario.ts:59-75 | Every such text, with any white space around it, parses to the number it denotes, scaled; with more fraction digits than the scale it is refused |
| Decimals.ParseErrors | web/src/commercialScenario.ts:59-75 | Parsing fails only as not a decimal or as having too many digits |
| Decimals.PrintNatValue | web/src/commercialScenario.ts:225-229 | The digits printed of a natural number denote it |
| Decimals.DigitCharacters | web/src/commercialScenario.ts:60 | The digits are the ten of 0 to 9, each read and printed as its value |
| Decimals.SpaceCharacters | web/src/commercialScenario.ts:60 | Exactly which code points `trim` removes |
| Decimals.ParsePrinted | web/src/commercialScenario.ts:225-229 | Parsing inverts printing for every number of kopecks, negative and below a ruble included |
| Decimals.PrintedDistinguishes | web/src/commercialScenario.ts:225-229 | Two amounts print alike only if they are equal |
| ScenarioProperties.ScenarioOutcome | web/src/commercialScenario.ts:147-223 | Exactly when a scenario succeeds, which error it gives otherwise and in which order; every figure is one rounding of its exact quotient |
| ScenarioProperties.LineFigures | web/src/commercialScenario.ts:94-145 | A line is calculated if and only if weights, prices, risk and the quantity of its scenario can be read and are in range; it then carries that quantity, and unit price and cost are one rounding each |
| ScenarioProperties.OtherQuantityIgnored | web/src/commercialScenario.ts:86-92 | The BOQ result does not depend on `quantityProject`, nor the PROJECT result on `quantityBoq` |
| ScenarioProperties.WholeBasisPoints | web/src/commercialScenario.ts:52-57 | Every whole number from 0 to 100000 is taken as basis points and every other whole number is refused |
| ScenarioProperties.OnlyWholeBasisPoints | web/src/commercialScenario.ts:52-57 | No fraction, infinity or NaN is taken |
| ScenarioProperties.CostsOutcome | web/src/commercialScenario.ts:152-164 | The costs are calculated if and only if every line is and overhead and reserve are basis points |
| ScenarioProperties.GrossOutcome | web/src/commercialScenario.ts:166-172 | The tender price is accepted if and only if it is at least half a kopeck, and is then its nearest kopeck |
| ScenarioProperties.TermsOutcome | web/src/commercialScenario.ts:173-187 | The terms are accepted if and only if they are basis points and fee, financing and target together stay below 10000; what the shares then are |
| ScenarioProperties.NoZeroDenominator | web/src/commercialScenario.ts:166-206 | With VAT of at most 10000 basis points the margin never divides by zero |
| ScenarioProperties.VerdictThreshold | web/src/commercialScenario.ts:193-220 | PROFIT if and only if the available part of the price reaches the full cost to within half a kopeck, as one integer inequality |
| ScenarioProperties.NoGapMeansProfit | web/src/commercialScenario.ts:202-220 | A price gap of zero or less means PROFIT, so a LOSS always shows a positive gap |
| ScenarioProperties.CostsMonotone | web/src/commercialScenario.ts:122-206 | Direct cost, full cost and required price never fall, and the operating result never rises, when any source price, risk, quantity, overhead or reserve rises |
| ScenarioProperties.DirectCostError | web/src/commercialScenario.ts:122-158 | The summed direct cost, of any number of lines, differs from the exact weighted cost by at most 50 times the quantity plus a half kopeck per line, where the quantity is `quantityBoq` under BOQ and `quantityProject` under PROJECT |
| ScenarioProperties.PrintedPriceIsExact | web/src/commercialScenario.ts:166-172 | A printed amount entered as tender price is read back to the kopeck |
| ScenarioProperties.MarginDrift | web/src/commercialScenario.ts:189-206 | At the required price the margin's numerator is off the target by a bounded amount after four roundings |
| ScenarioProperties.MarginExact | web/src/commercialScenario.ts:189-206 | At the required price the margin is the target if and only if the three rounding residues, computed from full cost and terms alone, stay within half the net price |
| ScenarioProperties.RequiredPriceInverts | web/src/commercialScenario.ts:183-206 | Run again at the printed required price: it fails only for a zero cost; otherwise gap 0, PROFIT, operating result 0 for a zero target, drift bounded, and the margin equals the target if and only if the residues of the three roundings allow it, which they do whenever the net exceeds 10000 plus the available share (so always from 30000 kopecks up) |
| ScenarioProperties.SmallPriceMissesTarget | web/src/commercialScenario.ts:198-206 | A scenario with a net of 9884 kopecks, just below the bound of 10129, whose margin is 44 for a target of 43 |
| ScenarioProperties.OrdinaryTermsMissTarget | web/src/commercialScenario.ts:198-206 | A scenario at a 9.05% fee whose margin is 262 for a target of 263 |
| RowGuards.ProtectApprovalTask | migrations/versions/c8d3f6a1b247_allow_explicit_approval_supersession.py:38-86 | The branches of the trigger, taken in order, decide the transition that the run theorems are about; `EvidenceTasks.TaskUpdateOutcome` says it by statuses and keys |
| EvidenceTasks.TaskUpdateOutcome | migrations/versions/c8d3f6a1b247_allow_explicit_approval_supersession.py:38-86 | An update takes effect if and only if it decides a pending task in one of three ways without touching its payload, or supersedes a task that is not superseded, losing nothing, with all three invalidation strings or all three supersession strings; always later and with the same identity |
| EvidenceTasks.UnstampedRefused | migrations/versions/c8d3f6a1b247_allow_explicit_approval_supersession.py:56-84 | A supersession that lacks a string of each stamp raises |
| EvidenceTasks.InvalidationApplies | migrations/versions/c8d3f6a1b247_allow_explicit_approval_supersession.py:60-79 | Any task that is not superseded, decided or not, takes the three strings of a document invalidation and queues its link check |
| EvidenceTasks.InvalidationCommits | src/tenderguard/application/projects.py:1450-1461 | Outside the three review types that update commits by itself and leaves exactly the invalidated task |
| EvidenceTasks.DecisionCommits | migrations/versions/fb7d2a9c4e16_protect_approval_evidence.py:91-148 | A pending task outside the review types is decided, in any of three ways, by its update and its record, which commit together |
| EvidenceTasks.VersionOutcome | migrations/versions/e9a1b4c6d803_protect_controlled_version_lifecycle.py:25-62 | Exactly which versions enter and which updates of a version are accepted: an unapproved draft, approved once by a trimmed name |
| EvidenceReplacement.ReplacementCommitsIff | src/tenderguard/application/projects.py:1269-1461 | Invalidating any list of open tasks in one transaction commits if and only if none of them reviews an actual, a variance or a calibration; otherwise all of it is taken back |
| EvidenceReplacement.ReplaceableIff | src/tenderguard/application/projects.py:1269-1461 | So the task updates of a document replacement commit if and only if the project has no variance, no calibration and no current actual |
| EvidenceReplacement.ReplacementMayFail | migrations/versions/f7c1a9d4e620_protect_actuals_calibration_history.py:541-585 | A run of committed transactions after which the replacement of one reviewed actual's documents is taken back |
| RowGuards.ProtectActualRecord | migrations/versions/f7c1a9d4e620_protect_actuals_calibration_history.py:46-126 | Under three-valued logic the guard accepts a retirement or a complete review of an actual, and nothing else |
| RowGuards.ProtectVarianceRecord | migrations/versions/f7c1a9d4e620_protect_actuals_calibration_history.py:132-192 | What the variance guard lets pass, the null comparisons it does not notice included |
| RowGuards.ProtectCalibrationExample | migrations/versions/f7c1a9d4e620_protect_actuals_calibration_history.py:198-265 | What the calibration guard lets pass, null comparisons included |
| EvidenceHistory.ReviewedVarianceRefused | migrations/versions/f7c1a9d4e620_protect_actuals_calibration_history.py:153-189 | A variance that was reviewed can never be updated again |
| EvidenceHistory.StepKeepsHistory | migrations/versions/f7c1a9d4e620_protect_actuals_calibration_history.py:46-265 | Every accepted statement keeps rows well formed, only lets tasks, rows and versions move forward, and queues a check for whatever it changed |
| EvidenceHistory.StatementsKeepHistory | migrations/versions/f7c1a9d4e620_protect_actuals_calibration_history.py:586-596 | The same of any sequence of statements |
| EvidenceInvariant.PolicyStaysLinked | migrations/versions/e9a1b4c6d803_protect_controlled_version_lifecycle.py:25-62 | A link to an approved policy version with its content hash, once established, lasts |
| EvidenceInvariant.ReleaseStaysLinked | migrations/versions/f7c1a9d4e620_protect_actuals_calibration_history.py:758-820 | A link to a release decision allowed for bid lasts, and a calibration keeps sharing it with its variance |
| EvidenceInvariant.SupersededAgrees | migrations/versions/f7c1a9d4e620_protect_actuals_calibration_history.py:541-585 | A retired reviewed actual under a superseded task still agrees with its one record, although the check at that commit only counts it |
| EvidenceInvariant.TouchedRowInStep | migrations/versions/f7c1a9d4e620_protect_actuals_calibration_history.py:598-1079 | A row the committing transaction touched is in step with its task and records |
| EvidenceInvariant.UntouchedRowInStep | migrations/versions/f7c1a9d4e620_protect_actuals_calibration_history.py:466-586 | A row it did not touch stays in step: its task cannot have moved without it |
| EvidenceInvariant.CommitSettles | migrations/versions/f7c1a9d4e620_protect_actuals_calibration_history.py:466-1079 | A commit leads from a settled state to a settled state |
| EvidenceInvariant.TransactSettles | migrations/versions/f7c1a9d4e620_protect_actuals_calibration_history.py:586-1096 | So does every transaction, committed or rolled back, and the state only evolves |
| EvidenceInvariant.RunSettles | migrations/versions/f7c1a9d4e620_protect_actuals_calibration_history.py:586-1096 | So does every run |
| EvidenceTheorems.VerifiedActualHasOneApproval | migrations/versions/f7c1a9d4e620_protect_actuals_calibration_history.py:887-957 | In every committed state of every run a verified actual has exactly one record, APPROVED, decided by its reviewer and verifier, who is not its creator |
| EvidenceTheorems.ApprovalSurvives | migrations/versions/f7c1a9d4e620_protect_actuals_calibration_history.py:541-585 | The same record is still its only one after any later run, retirement and supersession included |
| EvidenceTheorems.ReviewTasksMatchRows | migrations/versions/f7c1a9d4e620_protect_actuals_calibration_history.py:541-585 | A review task has its row; it is never CHANGES_REQUESTED, and SUPERSEDED only for an actual, exactly when that actual is not current |
| EvidenceTheorems.RowsMatchReviewTasks | migrations/versions/f7c1a9d4e620_protect_actuals_calibration_history.py:541-585 | Every committed row has its own review task and is current if and only if that task is not SUPERSEDED; variance and calibration tasks never are |
| EvidenceTheorems.OneCurrentActual | migrations/versions/f7c1a9d4e620_protect_actuals_calibration_history.py:541-585 | Of two actuals of one project and key at most one is current, and the task of at least one is SUPERSEDED |
| EvidenceTheorems.ReviewedVarianceIsDecided | migrations/versions/f7c1a9d4e620_protect_actuals_calibration_history.py:153-189 | A committed reviewed variance has a decision, equal to its task's status and its one record's |
| EvidenceTheorems.AbsentDecisionPassesTheGuard | migrations/versions/f7c1a9d4e620_protect_actuals_calibration_history.py:153-189 | A properly entered variance may be updated to REJECTED without a decision, since `NOT IN` of a null is null: the update goes through in any state that holds the row, and the deferred check refuses it in any state that would commit |
| EvidenceTheorems.LinksArePermanent | migrations/versions/f7c1a9d4e620_protect_actuals_calibration_history.py:678-820 | The policy and release links of a committed row hold in every later committed state |
| EvidenceTheorems.RecordsMatchTasks | migrations/versions/fb7d2a9c4e16_protect_approval_evidence.py:91-148 | Every record's task has the record's decision as status, or is SUPERSEDED, and the record is its only one |
| EvidenceDocuments.TaskNamesItsRow | migrations/versions/f7c1a9d4e620_protect_actuals_calibration_history.py:645-797 | In every committed state a row's task has the row's project, type, role and creator, and repeats its identity, policy, sources and release, key by key |
| EvidenceDocuments.RowsPointToEvidence | migrations/versions/f7c1a9d4e620_protect_actuals_calibration_history.py:678-820 | Every committed row names an approved actuals policy with its content hash; a variance or calibration a decision that allowed its snapshot for bid, a calibration the same one as its variance |
| EvidenceDocuments.ReferencesAreThere | src/tenderguard/infrastructure/orm.py:1432-1461 | The actual and variance a committed row refers to are there, and no two variances or calibrations share one |
| EvidenceDocuments.ReviewsAreComplete | migrations/versions/f7c1a9d4e620_protect_actuals_calibration_history.py:46-265 | A committed row is in review without any word of a review, or it names reviewer and time, is not its creator's own review, and its decision, status, flag and approver agree |
| EvidenceDocuments.RowsKeepTheirEvidence | migrations/versions/f7c1a9d4e620_protect_actuals_calibration_history.py:46-265 | Any later committed state has the row with the same columns and every key outside its review, and once reviewed or retired with everything but currency |
| EvidenceDocuments.ApprovedCalibrationHasOneApproval | migrations/versions/f7c1a9d4e620_protect_actuals_calibration_history.py:1010-1050 | An approved calibration has exactly one record, APPROVED, by its reviewer and approver, who is not its creator |
| EvidenceDocuments.SupersededReviewsAreReplaced | migrations/versions/f7c1a9d4e620_protect_actuals_calibration_history.py:907-936 | In every committed state a superseded review belongs to a retired actual and bears all three strings of its replacement |
| EvidenceDocuments.TouchedRowIsAudited | migrations/versions/f7c1a9d4e620_protect_actuals_calibration_history.py:598-1079 | A transaction that touched a row commits only with exactly one creation event and, once decided, exactly one review event, told by project, actor, row, task, policy, release and record |
| EvidenceDocuments.TouchedRecordRepeatsItsRow | migrations/versions/f7c1a9d4e620_protect_actuals_calibration_history.py:940-1050 | It commits only if the record of the decided row repeats the row's identity, policy, sources and release and the task's submission, key by key |
| EvidenceDecisions.DecidedTaskHasOneRecord | migrations/versions/fb7d2a9c4e16_protect_approval_evidence.py:91-148 | In any run a decided task has exactly one record, with its decision, if and only if it entered PENDING or a committed statement inserted a record of it |
| EvidenceDecisions.PendingIsRecorded | migrations/versions/fb7d2a9c4e16_protect_approval_evidence.py:91-148 | A task that entered PENDING is recorded whenever it is decided |
| EvidenceDecisions.NeverEnteredDecided | migrations/versions/fb7d2a9c4e16_protect_approval_evidence.py:91-148 | So has a decided task that no statement inserts other than PENDING, whatever other tasks do |
| EvidenceDecisions.DecidedReviewTaskHasOneRecord | migrations/versions/f7c1a9d4e620_protect_actuals_calibration_history.py:398-464 | A decided review task has exactly one record, with its decision, in every run: the insert guard makes it enter PENDING |
| EvidenceDecisions.GenericTaskMayEnterDecided | migrations/versions/fb7d2a9c4e16_protect_approval_evidence.py:131-139 | The other case occurs: a task outside the three review types can enter decided and stay without a record |
| EvidenceTheorems.AtMostTwoUpdates | migrations/versions/c8d3f6a1b247_allow_explicit_approval_supersession.py:38-86 | No task sees more than two committed updates in any run, updates that find no row not counted |
| EvidenceTheorems.NoDecisionWithSupersession | migrations/versions/fb7d2a9c4e16_protect_approval_evidence.py:91-148 | No committed transaction both decides and supersedes one task, in either order |
| EvidenceStore.Store.constructor | migrations/versions/fb7d2a9c4e16_protect_approval_evidence.py:31-148 | An empty store with no open transaction |
| EvidenceStore.Store.PutTask | migrations/versions/fb7d2a9c4e16_protect_approval_evidence.py:39-139 | Inserting or updating a task in place raises, or has the specified effect and queues its checks |
| EvidenceStore.Store.PutRow | migrations/versions/f7c1a9d4e620_protect_actuals_calibration_history.py:46-396 | The same for a reviewed row, past guards, references and unique constraints |
| EvidenceStore.Store.PutEvidence | migrations/versions/fb7d2a9c4e16_protect_approval_evidence.py:31-148 | The same for records, versions, releases and audit events |
| EvidenceStore.Store.Execute | migrations/versions/f7c1a9d4e620_protect_actuals_calibration_history.py:46-1096 | One statement of the open transaction; after the first that raises the transaction stays aborted |
| EvidenceStore.Store.Commit | migrations/versions/f7c1a9d4e620_protect_actuals_calibration_history.py:586-1096 | Evaluates the queued checks and leaves exactly the state of the specified transaction, or the one before it; `ReviewCommits`, `RecordingCommits`, `SupersessionCommits` and `DecisionCommits` say what must commit, `EvidenceDocuments` what cannot |
| EvidenceRecording.TaskEntryOutcome | migrations/versions/f7c1a9d4e620_protect_actuals_calibration_history.py:398-464 | Which tasks enter: any under a new id, a review only pending, required and naming its row, role, creator and submission by the keys of its table |
| EvidenceRecording.RowEntryTells | migrations/versions/f7c1a9d4e620_protect_actuals_calibration_history.py:274-396 | A row enters only in review, with its documents named, without any word of a review, and with the rows it refers to |
| EvidenceRecording.RecordingCommits | migrations/versions/f7c1a9d4e620_protect_actuals_calibration_history.py:274-464 | In any settled state with an approved policy, and for a variance or calibration a release and the rows it is about, task, row and creation event of a new actual, variance or calibration commit and leave exactly those tables |
| EvidenceProgress.ReviewCommits | migrations/versions/f7c1a9d4e620_protect_actuals_calibration_history.py:46-265 | In any settled state with a row in review, of any of the three tables, the task update, record, row update and audit event of a decision, APPROVED or REJECTED, by somebody other than the creator commit and leave exactly the tables written out |
| EvidenceRecording.RecordedAndReviewed | migrations/versions/f7c1a9d4e620_protect_actuals_calibration_history.py:466-1079 | Both in sequence: whatever can be recorded can then be approved or rejected |
| EvidenceExample.EverythingIsReachable | migrations/versions/f7c1a9d4e620_protect_actuals_calibration_history.py:46-1096 | For each choice of three decisions a concrete run records and reviews an actual, a variance and a calibration |
| EvidenceSupersession.SupersessionCommits | migrations/versions/c8d3f6a1b247_allow_explicit_approval_supersession.py:56-84 | In any settled state retiring a current actual and superseding its task with a full stamp commits, whether it is in review, verified or rejected |
| EvidenceExample.SupersededActualIsReachable | migrations/versions/f7c1a9d4e620_protect_actuals_calibration_history.py:46-1096 | A run that reviews an actual, either way, and leaves it retired with its decision under a superseded task |
| RiskHistory.RiskItem.Update | migrations/versions/e5b8d3f7a642_protect_risk_history.py:25-128 | An accepted update replaces the row and extends its history; a refused one changes nothing |
| RiskHistory.RiskItem.GuardAccepts | migrations/versions/e5b8d3f7a642_protect_risk_history.py:25-128 | Branch by branch under three-valued logic, the guard accepts a retirement, a review or an invalidation, and nothing else |
| RiskHistory.AcceptedUpdateTells | migrations/versions/e5b8d3f7a642_protect_risk_history.py:42-126 | What an accepted update says: VERIFIED with decision APPROVED, REJECTED with REJECTED, by whom and when; an invalidation by which revision; a retirement nothing |
| RiskHistory.ReviewAccepted | migrations/versions/e5b8d3f7a642_protect_risk_history.py:51-93 | An item in review that bears no review key can be verified and can be rejected |
| RiskHistory.InvalidationAccepted | migrations/versions/e5b8d3f7a642_protect_risk_history.py:94-125 | A current item that bears no invalidation key can be invalidated |
| RiskHistory.RetirementAccepted | migrations/versions/e5b8d3f7a642_protect_risk_history.py:42-50 | A current item can be retired at any time |
| RiskHistory.ReviewedOnce | migrations/versions/e5b8d3f7a642_protect_risk_history.py:51-93 | A row that carries a review key cannot be reviewed: the payload equation strips the key on one side only |
| RiskHistory.InvalidatedOnce | migrations/versions/e5b8d3f7a642_protect_risk_history.py:94-125 | A row that carries an invalidation key cannot be invalidated |
| RiskHistory.EachStepAtMostOnce | migrations/versions/e5b8d3f7a642_protect_risk_history.py:42-126 | A risk item accepts at most one review, one invalidation and one retirement in its life |
| RiskHistory.AtMostThreeUpdates | migrations/versions/e5b8d3f7a642_protect_risk_history.py:42-126 | Hence at most three updates |
| RiskHistory.InvalidatedReviewIsFinal | migrations/versions/e5b8d3f7a642_protect_risk_history.py:51-125 | An item reviewed and then invalidated back to IN_REVIEW is never reviewed again: only retirement is left to it |
| RiskHistory.EvidenceKept | migrations/versions/e5b8d3f7a642_protect_risk_history.py:42-126 | Identity, the risk object apart from its status, and every payload key outside the review's and the invalidation's own are what they were at the start; a row without a risk object keeps its whole payload and status |
| InboxProcessing.ProtectInboxProcessing | migrations/versions/e82f5d0b3c74_add_signed_connector_delivery_and_inbox.py:79-108 | The branches of the trigger, taken in order, decide the transition that the run theorems are about: a change of a pending processing that keeps its identity and a named handler |
| InboxProcessing.StepsAccepted | migrations/versions/e82f5d0b3c74_add_signed_connector_delivery_and_inbox.py:79-108 | A pending processing can be leased, released, attempted, dead-lettered and, exactly after an attempt, consumed, each step written out |
| InboxProcessing.NextGenerationEnters | migrations/versions/e82f5d0b3c74_add_signed_connector_delivery_and_inbox.py:324-385 | A message without a pending processing takes a new one of an unused generation |
| InboxProcessing.OnePendingPerMessage | migrations/versions/e82f5d0b3c74_add_signed_connector_delivery_and_inbox.py:324-385 | In every reachable state a message has at most one PENDING processing and one of each generation |
| InboxProcessing.ProcessingsContinue | migrations/versions/e82f5d0b3c74_add_signed_connector_delivery_and_inbox.py:79-108 | Between any two moments of a run terminal processings are unchanged, a named handler is fixed, and an attempted processing stays attempted |
| InboxProcessing.TerminalRows | migrations/versions/e82f5d0b3c74_add_signed_connector_delivery_and_inbox.py:329-366 | A CONSUMED processing was attempted and has a handler and a result; a terminal one holds no part of a lease |
| CostModels.ProtectCostModel | migrations/versions/d71e4c9a2b63_add_governed_commercial_cost_models.py:26-88 | The branches of the trigger, taken in order, decide the transition that the run theorems are about: a promotion, a block or a retirement with unchanged inputs and results |
| CostModels.AcceptedEdits | migrations/versions/d71e4c9a2b63_add_governed_commercial_cost_models.py:53-86 | The updates that guard and CHECKs admit together are exactly the block, the promotion with its three finalization columns and the retirement |
| CostModels.CheckedModel | migrations/versions/d71e4c9a2b63_add_governed_commercial_cost_models.py:150-172 | The CHECKs by the words of the columns |
| CostModels.OneCurrentModel | migrations/versions/d71e4c9a2b63_add_governed_commercial_cost_models.py:162-206 | In every reachable state a target has at most one current model, and a current model is VALIDATED and finalized |
| CostModels.ModelsContinue | migrations/versions/d71e4c9a2b63_add_governed_commercial_cost_models.py:31-86 | Over any run totals, hashes and a finalization never change and a blocked or retired model is frozen |
| CostModels.ReplacementRetiresFirst | migrations/versions/d71e4c9a2b63_add_governed_commercial_cost_models.py:53-206 | Promoting before retiring is refused and takes the transaction back; retiring before promoting commits both |
| ContractTerms.ProtectContractTerm | migrations/versions/d4a7c2e9f531_protect_contract_term_history.py:25-109 | The branches of the trigger, taken in order, decide the transition that the run theorems are about: a retirement, a review, a resolution or an invalidation |
| ContractTerms.AcceptedUpdateTells | migrations/versions/d4a7c2e9f531_protect_contract_term_history.py:46-106 | What an accepted update says and keeps, by the keys of review, resolution and invalidation |
| ContractTerms.ReviewAccepted | migrations/versions/d4a7c2e9f531_protect_contract_term_history.py:46-106 | An unverified current term without review keys takes a review either way |
| ContractTerms.ResolutionAccepted | migrations/versions/d4a7c2e9f531_protect_contract_term_history.py:46-106 | A verified one takes the resolution of its cost impact |
| ContractTerms.InvalidationAccepted | migrations/versions/d4a7c2e9f531_protect_contract_term_history.py:46-106 | A current term without invalidation keys takes an invalidation |
| ContractTerms.ResolvedImpliesVerified | migrations/versions/d4a7c2e9f531_protect_contract_term_history.py:46-106 | Over any run a term that no statement inserts as resolved and unverified is verified when its cost impact is resolved, however other terms enter |
| ContractTerms.ResolvedIsVerifiedForGood | migrations/versions/d4a7c2e9f531_protect_contract_term_history.py:46-106 | In a committed state a term has the property at every later moment of every run if and only if it has it now |
| ContractTerms.TermMayEnterUnverified | migrations/versions/d4a7c2e9f531_protect_contract_term_history.py:111-114 | The condition is needed: the guard is on updates, and an insert can bring a resolved unverified term |
| ContractTerms.OneCurrentTerm | migrations/versions/f15a3d9b7e64_version_contract_terms.py:69-85 | A project has at most one current term of a kind |
| ContractTerms.RecordedTextStays | migrations/versions/d4a7c2e9f531_protect_contract_term_history.py:46-106 | Over any run a retired term is frozen and no recorded text ever changes, so a second review or resolution repeats the first's decision and approval |
| RateBuckets.RateBucket.Update | migrations/versions/fa2c5d7e9014_add_distributed_rate_limit_buckets.py:52-78 | The branches of the trigger, then the CHECK, in place: the history the run theorems are about grows by exactly the accepted rows |
| RateBuckets.AcceptedEdits | migrations/versions/fa2c5d7e9014_add_distributed_rate_limit_buckets.py:52-78 | Exactly which edits a bucket takes: one more in the window, or count 1 in any later window, with gaps and under any policy; and what its CHECKs admit |
| RateBuckets.CountIsUpdates | migrations/versions/fa2c5d7e9014_add_distributed_rate_limit_buckets.py:52-78 | Between any two moments of one window the policy is the same and the count grew by exactly the accepted updates; windows and times never go back |
| RateBuckets.CountSinceOpening | migrations/versions/fa2c5d7e9014_add_distributed_rate_limit_buckets.py:52-78 | A count is the updates accepted since its window opened, with count 1 |
| RateBuckets.WindowAndCountIncrease | migrations/versions/fa2c5d7e9014_add_distributed_rate_limit_buckets.py:52-78 | Window and count strictly increase together with every accepted update |
| Memberships.MaskByOr | migrations/versions/f6a9c3d2e841_add_project_membership_role_mask.py:51-53 | The loop of `or` computes the guard's sum of the role set |
| Memberships.ValidatedBackfill | migrations/versions/f6a9c3d2e841_add_project_membership_role_mask.py:33-54 | Succeeds exactly when every row's evidence is a non-empty list of distinct project roles, then with the right mask from 1 to 511 for each; otherwise names the first row that fails |
| Memberships.RolesAndBits | migrations/versions/f6a9c3d2e841_add_project_membership_role_mask.py:20-30 | Which role has which of the nine bits |
| Memberships.NineRoles | migrations/versions/f6a9c3d2e841_add_project_membership_role_mask.py:20-30 | Which nine roles a project knows |
| Memberships.EvidenceOutcome | migrations/versions/f6a9c3d2e841_add_project_membership_role_mask.py:42-50 | Which role evidence is refused, by lists, strings, repetitions and names |
| Memberships.AddRole | migrations/versions/f6a9c3d2e841_add_project_membership_role_mask.py:20-30 | A role adds its own bit to the sum and touches no other, even when it is already there |
| Memberships.BitTellsRole | migrations/versions/f6a9c3d2e841_add_project_membership_role_mask.py:87-96 | A role is in a set if and only if its bit is in the mask |
| Memberships.MaskInjective | migrations/versions/f6a9c3d2e841_add_project_membership_role_mask.py:87-96 | Two role sets with one mask are equal |
| Memberships.MaskOnto | migrations/versions/f6a9c3d2e841_add_project_membership_role_mask.py:164-168 | Every mask from 1 to 511 is the mask of a non-empty set of project roles |
| Memberships.MasksMeetIffRolesMeet | src/tenderguard/application/workbench.py:366-371 | Two masks share a bit if and only if the role sets share a role |
| Memberships.LatestEndsChain | migrations/versions/f6a9c3d2e841_add_project_membership_role_mask.py:118-123 | The row the guard selects by version is the last one inserted for that person and project |
| Memberships.LatestIsHighest | migrations/versions/f6a9c3d2e841_add_project_membership_role_mask.py:118-123 | The selected row is one of that person in that project and none of theirs has a higher version |
| Memberships.MembershipTable.Insert | migrations/versions/f6a9c3d2e841_add_project_membership_role_mask.py:103-135 | Accepts exactly the next version with valid roles, mask and predecessor, and every chain stays a chain |
| Memberships.AdmittedNext | migrations/versions/f6a9c3d2e841_add_project_membership_role_mask.py:103-135 | Which row is admitted next, told by counting the rows of the person: version, mask and a predecessor that, if named, is the row of the version before |
| Memberships.ExtendHistory | migrations/versions/f6a9c3d2e841_add_project_membership_role_mask.py:118-134 | An accepted row extends its own chain by one and leaves all others |
| Memberships.VersionCountsRows | migrations/versions/f6a9c3d2e841_add_project_membership_role_mask.py:118-134 | A row's version is one more than the number of rows of that person and project before it in the table: versions are exactly 1 to n |
| Memberships.VersionsRise | migrations/versions/a81c4e7d9b20_add_project_access_control.py:210-215 | No version occurs twice for a person in a project |
| PortfolioPages.ListingCorrect | src/tenderguard/application/workbench.py:353-391 | The unpaged listing holds exactly the projects the caller sees and asked for, each once, by falling `updated_at` and then falling id, ids compared at their first difference |
| Orders.BelowIsPrecedes | src/tenderguard/application/workbench.py:2539-2557 | The order of ids is that of their first different code point, a prefix first |
| PortfolioPages.RestOfListing | src/tenderguard/application/workbench.py:2539-2557 | Filtering by a cursor and sorting gives the rest of the listing after that project |
| PortfolioPages.DatabasePageIsSlice | src/tenderguard/application/workbench.py:336-440 | A database page is a stretch of the listing, with a cursor exactly when more is left |
| PortfolioPages.PageIsSlice | src/tenderguard/api/main.py:1221-1268 | Every endpoint page, spliced or not, is the next stretch of the whole portfolio with at most `limit` items |
| PortfolioPages.WalkListsEverything | src/tenderguard/api/main.py:1213-1268 | Following the cursor with any page sizes lists the portfolio without loss or repetition, the diagnostic project first and then by falling `updated_at` and id, and ends exactly when all of it has been listed |
| PortfolioPages.WholeHasEachOnce | src/tenderguard/api/main.py:1262-1267 | The portfolio has the diagnostic project once if it is shown and every visible project once |
| PortfolioPages.Refusals | src/tenderguard/api/main.py:1213-1268 | Exactly which requests are answered and which error the others get; the first-page cursor is valid only while the diagnostic project is shown |
| PortfolioPages.SeesByRoles | src/tenderguard/application/workbench.py:352-371 | A project is visible if and only if the caller's latest membership in it is active and shares a role with the caller |
| CanonicalForm.SortedObjectsAgree | web/src/quantityChange.ts:76-82 | Two objects have the same sorted form if and only if they have the same properties |
| CanonicalForm.StableIsSame | web/src/quantityChange.ts:72-84 | The canonical form is the value itself up to the order of keys |
| CanonicalForm.StableIffSame | web/src/quantityChange.ts:86-91 | Two values compare equal if and only if they are equal up to the order of keys at every depth |
| CanonicalForm.StableIdempotent | web/src/passportWorkflow.ts:30-42 | Bringing a value into canonical form twice changes nothing more |
| CanonicalForm.IndexIsPrinted | web/src/quantityChange.ts:72-82 | A key enumerated as an index is the decimal spelling of a number below 2^32 - 1 |
| CanonicalForm.PrintedIsIndex | web/src/quantityChange.ts:72-82 | Every such spelling is |
| CanonicalForm.EnumerationOrder | web/src/quantityChange.ts:72-82 | Properties are enumerated with indices first, in rising order |
| CanonicalForm.LastWrittenWins | web/src/quantityChange.ts:66-82 | Of entries under one key the last stays |
| IdentifierLists.SplitJoin | web/src/quantityChange.ts:33-36 | Splitting at separators undoes joining with newlines |
| IdentifierLists.SplitAtSeparator | web/src/quantityChange.ts:33-36 | A comma and a newline each separate, whatever stands before and after |
| IdentifierLists.NoSeparatorNoSplit | web/src/quantityChange.ts:33-36 | A text with neither is one piece |
| IdentifierLists.ReadList | web/src/quantityChange.ts:33-43 | Whatever was typed, the list holds exactly the pieces that are not blank, trimmed, as often as typed, without comma or newline and in order; free of duplicates it is strictly ascending |
| IdentifierLists.ReadWritten | web/src/quantityChange.ts:33-39 | A list written into the form is read back unchanged if and only if its members are identifiers in order, repetitions included |
| QuantityChange.ValidateQuantityChangeDraft | web/src/quantityChange.ts:120-325 | The checks in their order compute the specified outcome |
| QuantityChange.SameSubmissionIffAgree | web/src/quantityChange.ts:86-91 | Submissions compare equal if and only if all fields agree and their records have the same properties |
| QuantityRoundTrip.ReadIsNormal | web/src/quantityChange.ts:120-294 | Whatever passes the field checks is normal: clean decimals, ascending sources, each formula input backed by one of them |
| QuantityRoundTrip.DecimalIsSpelled | web/src/quantityChange.ts:8 | A decimal of the form is an optional minus, digits without a needless leading zero and an optional fraction |
| QuantityRoundTrip.SpelledIsDecimal | web/src/quantityChange.ts:8 | Every such text is one |
| QuantityRoundTrip.NumbersTyped | web/src/quantityChange.ts:141-171 | Priority and scale typed as digits between white space are read as their values, up to the largest safe integer and up to 12 |
| QuantityRoundTrip.RequiredInputs | web/src/quantityChange.ts:251-263 | Which inputs each operation cannot do without |
| QuantityRoundTrip.ReadOutcome | web/src/quantityChange.ts:120-294 | Exactly which drafts can be read, with a formula and without one |
| QuantityRoundTrip.NormalIsRead | web/src/quantityChange.ts:93-118 | The draft of a normal submission is read back as that submission |
| QuantityRoundTrip.UneditedDraftIsIdentical | web/src/quantityChange.ts:295-300 | An unedited draft is answered with "identical" if and only if the current submission is normal |
| QuantityRoundTrip.AcceptedThenIdentical | web/src/quantityChange.ts:120-325 | Once an accepted submission is current its unedited draft is recognised as identical |
| QuantityRoundTrip.AcceptedIff | web/src/quantityChange.ts:295-325 | A draft is accepted if and only if it reads as a submission other than the current one and has reason, code and acknowledgement; what is accepted is normal |
| QuantityRoundTrip.NormalCanBeEntered | web/src/quantityChange.ts:93-325 | Every normal submission other than the current one can be entered and is accepted as itself |

## Left out

- Concurrent sessions, isolation levels, savepoints and `SET CONSTRAINTS IMMEDIATE`: runs are serial sequences of transactions.
- SQLite branches, `downgrade`, column lengths and foreign keys to projects, snapshots, observations and documents.
- The unique constraints of audit events: audit counts are checked at the commit that touches the row, as in the code, and are no lasting invariant.
- The printed text of a composite JSON value under `->>` is symbolic and equals no ordinary text; JSON numbers are told apart by their printed form.
- Hashing and signing, authentication, HTTP, object storage and the services behind the API.
- `localeCompare` is any total order on keys; under a locale that calls two different keys equal, objects that hold both need not compare equal.
- `JSON.parse` and `JSON.stringify` are an inverse pair; texts of the form are sequences of code points, not UTF-16 units, which also orders identifiers and counts the reason's length.
- Cursor text is abstract: encoding and decoding are an inverse pair, and the first-page cursor is none of the encoded ones. Ids sort by code points, and what `query` and `states` select is a fixed test on projects.
- RiskHistory.EachStepAtMostOnce: follows one row; the index on current risk items and the retirement of risk calculations are not modelled.
- EvidenceReplacement.ReplacementCommitsIff: the updates of the tasks alone; what the same transaction writes to quantities, prices, terms and risks is not part of it.
- Memberships.MembershipTable.Insert: row ids are taken to be fresh, and the unique constraint on predecessors is not modelled; on a valid history it could only refuse more.
- PortfolioPages.WalkListsEverything: tables, visibility and the diagnostic project stay fixed during the walk; counts and totals shown beside a project are not modelled.
- Campaigns, idempotency records, the outbox, the ranked backfills, the creator bootstrap, the page merges of the actuals workflow, the once-per-request rate limit flag and the remaining form validators: single-step checks whose properties one body settles.
