# Verified models of the SAT-SA core services

This project models the parts of the repository in which a subtle mistake would be costly, and proves what their
documentation and their callers rely on. Every file is one Dafny module; `dafny verify dfyconfig.toml` checks them
together.

| area | modules |
|---|---|
| multi-tenant store and sessions | `TenantModel`, `TenantRepository`, `TenantIsolation`, `AccessRights`, `Sessions` |
| cutover validation | `MigrationValidation` |
| login rate limiter | `LoginRateLimiter`, `ClockReadings` |
| trust scoring | `TrustScores`, `TrustDecisions` |
| expert labels and agreement | `ExpertLabels`, `LabelResults`, `CohenKappa` |
| rank correlation, rankings, percentiles, outliers | `RankCorrelation`, `RankReversal`, `RankingMetrics`, `Percentiles`, `OutlierRules`, `OrderStatistics` |
| workflow generator | `WorkflowModel`, `WorkflowGenerator`, `WorkflowIntegrity`, `WorkflowContents`, `ClosureTimes`, `Numbering` |
| scan summary | `TrivySummary` |
| evidence freeze | `FileTree`, `EvidenceFreeze`, `FreezeIntegrity`, `FreezeTheorems`, `FreezeConfiguration`, `FreezeReports` |
| shared lists, order and arithmetic | `Counting`, `Sorting`, `TextOrder`, `RealArithmetic` |

## How the source is modelled

Code that updates state step by step is a class or a method with loops, proved equal to a specification function; the
theorems are lemmas about that function. Pure code is functions. Floating point is exact real arithmetic, a square
root is a non-negative real whose square is the radicand, `log2` is any positive, strictly decreasing discount, and
rounding is round-half-even to a decimal grid. New ids, tokens and clock readings are inputs of each step; random
draws are arbitrary. Database tables are maps by primary key, with the uniqueness and foreign-key rules of
`qsmlops/database/migrations.py`. Content digests of tenant rows, and stored session digests, are taken as free of
collisions and modelled by the document or token itself; the evidence freeze keeps its hash function abstract and says
where it must be free of collisions.

## What is proved about the whole

* **Tenants.** Deleting all operations of one organization from any interleaved run leaves every result of everyone
  else unchanged if and only if no step interferes (`NonInterference`): a step interferes when it is permitted, draws
  an id that a deleted operation had taken, and would otherwise succeed. None does if the ids that the others draw
  differ from those that the deleted organization holds at the start or draws earlier, which can be read off the
  requests (`FreshDrawsIsolate`). Ownership chains hold in every reachable state (`RunKeepsSound`), denied operations
  change nothing, and a revoked member stays denied. Who may do what is told from the rows of the directory
  (`EntitledOrDenied`): viewers and auditors write nothing in any run (`ReadersNeverWriteInRuns`), every active member
  reads all of what belongs to the organization (`MembersRead`), and the other roles create what the guards allow.
* **Cutover.** The check succeeds if and only if every source row is in the target with the same values, column by
  column, nothing else is in scope and the ledgers are equal (`ValidIffSafe`). In a validated target every row of the
  four tables whose owners are checked directly, and every row that a join reaches from them (alerts, observations,
  findings and the receipts of runs and findings among them), has exactly the declared owner, whatever the target's
  schema enforces (`JoinedOwnerIsDeclared`, by induction down the joins). Five more tables carry their own
  organization, and the validator compares them only as a union: all owners are the declared ones if and only if each
  of those rows shares its organization with the row it names and no receipt of a finalization has two owners
  (`OwnersAgreeIffKeysAgree`). The composite keys of the schema say just that (`SchemaGivesKeys`), so with them every
  row of every table has its declared owner (`OwnerIsDeclared`), and the table checks accept exactly the faithful
  copies (`AcceptsExactlyFaithfulCopies`).
* **Rate limiter.** The pruned lists answer as the full history would (`PruningIsInvisible`), so no window holds more
  allowed checks than the limit (`NoWindowOverLimit`). The code slides its window, although its documentation says
  "fixed-window". Clock readings are safe for every limit and positive window exactly when none falls after an earlier
  rise (`SafeIffSteady`).
* **Trust.** Worse findings or drift never raise a score, the decision or eligibility (`WorseEvidenceNeverHelps`), and
  any hard blocker forces the decision. Each decision is made exactly under its own condition (`DecisionExact`), and
  every blocker, component and the composite have their exact value in terms of the evidence (`BlockersListed`,
  `ComponentsExact`, `CompositeExact`).
* **Agreement.** For one mark per annotator and target, the adjudication report is independent of the order of the
  records if and only if the adjudications of each annotated target agree (`OrderIndependence`); the loader does not
  enforce that condition. The outcome of every target, the numbers of the report and the agreement of every pair are
  told from the records alone (`ConsensusExactly`, `NumbersExactly`, `AgreementExactly`). Kappa lies in [-1, 1] for
  any labels, is 1 exactly on full agreement, and has the sign of the agreement beyond chance (`KappaExact`).
* **Statistics.** Tie-averaged ranks, Spearman in [-1, 1], 1 or -1 exactly on equal or opposite ranks and, without
  ties, equal to the textbook formula (`SpearmanPerfect`, `SpearmanWithoutTies`), Chebyshev, MAD and quartile-fence
  bounds, affine invariance, NDCG optimality and the exact condition for NDCG to stay within 1 for every discount,
  least complete prefixes and percentile laws, for all inputs. Medians, quartiles, percentiles and summaries are
  pinned without sorting, by how many values lie below (`DescribeExact`), and the flags of the outlier rules value by
  value.
* **Generator.** Every scenario ends and yields unique ids and references that lead to generated records
  (`GeneratedIsIntact`); the case ids that alerts carry themselves lead back exactly when the input's do
  (`LinksBackIffInputLinks`), exactly the alerts that the policy names are escalated (`WhoIsEscalated`), and every
  case gets exactly its steps (`StepsExactly`). For any parameters, `SignalsExactly` tells from the input whether the
  fast-closure detector signals on the bundle, and `InTimeExactly` whether its times are in order. The description of
  ack_no_investigation in policy.yaml ends with "only", yet its medium alerts also meet the fast-closure rule
  (`DeclaredSignals`); the head of that file does say that a scenario claims the presence of its signal, not its
  exclusivity.
* **Scan summary.** Chunks keep every line and are as few as any packing allows, but for one empty chunk that an
  over-long first line costs (`FewestChunks`, `OverlongAlone`). Everything can be read back from the annotations
  exactly when the loop makes at most nine chunks (`NothingLost`), and the spare chunk loses findings exactly when it
  makes ten of nine (`SpareChunkLosesText`).
* **Freeze.** What a build returns verifies as intact, even when supporting files share a name (the later file then
  replaces the earlier one), and afterwards a freeze is reported intact if and only if everything it records is
  unchanged (`IntactIffUnchanged`). The documentation says any change to a configuration is reported. The removal of a
  `config.json` is reported exactly when its manifest lists that file (`ConfigurationRemovalShowsIffListed`); the
  repository's own writer lists it always (evaluation/research/artifacts.py:209), so only bundles from elsewhere can
  lose theirs unseen, as `UnlistedRemovalUnseen` shows for one that a build accepts. A verification names exactly the
  bundles and files in which something is wrong, and what (`ReportNames`, `ReportHolds`).

## Model

| member | source | states |
|---|---|---|
| `TenantIsolation.NonInterference` | satsa/tenancy.py:92-339 | deleting every operation of one organization from any interleaved run changes no result of any other step if and only if no step interferes, and then no row another organization owns |
| `TenantIsolation.StepShowsIffInterferes` | satsa/tenancy.py:104-339 | a step of another organization or an administrator answers differently exactly when it is permitted, draws an id that a hidden row holds, and passes every other guard without the hidden rows; otherwise the visible rows stay the same |
| `TenantIsolation.CollidingWrite` | satsa/tenancy.py:118-283 | where an id is taken by a hidden row, a creation that would succeed without it is a duplicate and every other answer is the same |
| `TenantIsolation.FreshIdsSuffice` | satsa/tenancy.py:92-339 | where no ids collide nothing interferes |
| `TenantIsolation.FreshDrawsIsolate` | satsa/tenancy.py:118-283 | if no id that another organization draws is one the deleted organization holds rows under at the start or draws earlier for the same table, then deleting it changes no other result and no other row |
| `TenantIsolation.StepKeepsChained` | satsa/tenancy.py:104-283 | one step keeps every row with the organization of the row it hangs from, whatever the other columns hold |
| `TenantIsolation.RunKeepsSound` | satsa/tenancy.py:104-283 | in every reachable state each assessment, submission, version and artifact belongs to the organization of what it hangs from, digests match their rows and unique keys are unique |
| `TenantIsolation.StepKeepsSound` | satsa/tenancy.py:104-283 | one step of any organization or administrator keeps the ownership chain and uniqueness |
| `TenantIsolation.WritesStayHome` | satsa/tenancy.py:118-283 | an operation leaves the rows of all other organizations, the directory and the analysis tables as they are |
| `TenantIsolation.FailureChangesNothing` | satsa/tenancy.py:104-283 | denied, invalid, duplicate and refused requests leave the whole state unchanged |
| `TenantIsolation.DisclosesOwnRowsOnly` | satsa/tenancy.py:104-339 | only an active member with the permission gets more than a denial, and every returned row, peer id, finding, source record, review and trust receipt belongs to that member's organization, directly or through its joins |
| `TenantIsolation.RevocationHolds` | satsa/tenancy.py:83-116 | in any run a revoked member is denied everything until reactivated |
| `TenantIsolation.CreatedReadsBack` | satsa/tenancy.py:118-290 | each created row reads back as requested, owned by the creator, with its parent owned as well |
| `TenantIsolation.ClosingIsFinal` | satsa/tenancy.py:200-213 | closing changes only status and digest of one assessment, and closing again changes nothing |
| `TenantIsolation.PeersAreMutual` | satsa/tenancy.py:150-168 | being a peer is mutual, and nothing is its own peer |
| `TenantIsolation.RowsPersist` | satsa/tenancy.py:42-339 | over any run no row is removed or changes owner, and only assessments change, by being closed |
| `AccessRights.EntitledOrDenied` | satsa/tenancy.py:104-339 | a caller without an active membership, organization, user and identity, or whose role does not cover the operation, is denied and changes nothing; any other gets the answer of the tables, and creates exactly when the guards allow |
| `AccessRights.ReadersNeverWrite` | qsmlops/security/permissions/model.py:153-190 | a viewer or auditor is denied every writing operation and leaves the state as it was |
| `AccessRights.ReadersNeverWriteInRuns` | satsa/tenancy.py:42-283 | so at every step of every run, since no request changes a role |
| `AccessRights.MembersRead` | satsa/tenancy.py:136-339 | an active member of any of the five roles gets every row, list, cohort, run, finding, source record, review and receipt asked for exactly when its chain leads to the own organization |
| `AccessRights.WritersCreate` | qsmlops/security/permissions/model.py:153-190 | an active analyst, supervisor or administrator creates whatever the other guards allow |
| `AccessRights.RunKeepsDirectory` | satsa/tenancy.py:48-89 | over any run names, emails and identities stay unique, users are persons, and memberships have both ends, a known role and a known status |
| `AccessRights.OnboardingWorks` | satsa/tenancy.py:48-116 | whoever fits is provisioned with exactly the data given and is then in force with the role |
| `AccessRights.StatusExactly` | satsa/tenancy.py:83-89 | a status request sets the status of an existing membership and changes nothing else anywhere |
| `AccessRights.RevokeAndRestore` | satsa/tenancy.py:83-116 | revoking works at once, and reactivating restores the state |
| `AccessRights.StripExactly` | satsa/tenancy.py:48-61 | stripping takes all blanks off both ends and nothing else |
| `TenantRepository.TenantAdministration.CreateOrganization` | satsa/tenancy.py:48-57 | answer and new database equal the specified step |
| `TenantRepository.TenantAdministration.CreateUser` | satsa/tenancy.py:59-73 | answer and new database equal the specified step, the identity and email checks included |
| `TenantRepository.TenantAdministration.AddMembership` | satsa/tenancy.py:75-81 | answer and new database equal the specified step, unknown roles and missing rows refused |
| `TenantRepository.TenantAdministration.SetMembershipStatus` | satsa/tenancy.py:83-89 | answer and new database equal the specified step |
| `TenantRepository.TenantRepository.Require` | satsa/tenancy.py:104-116 | true exactly for an active member of an active organization whose role grants the permission |
| `TenantRepository.TenantRepository.CreateEntity` | satsa/tenancy.py:118-134 | answer and new database equal the specified operation |
| `TenantRepository.TenantRepository.ListEntities` | satsa/tenancy.py:143-148 | exactly the owned entities, ordered by display name |
| `TenantRepository.TenantRepository.PeerEntityIds` | satsa/tenancy.py:150-168 | the specified peers in the order of their ids, or a denial without the aggregate policy |
| `TenantRepository.TenantRepository.CreateAssessment` | satsa/tenancy.py:170-191 | answer and new database equal the specified operation |
| `TenantRepository.TenantRepository.CloseAssessment` | satsa/tenancy.py:200-213 | answer and new database equal the specified operation |
| `TenantRepository.TenantRepository.CreateSubmission` | satsa/tenancy.py:215-230 | answer and new database equal the specified operation |
| `TenantRepository.TenantRepository.CreateSubmissionVersion` | satsa/tenancy.py:239-254 | answer and new database equal the specified operation |
| `TenantRepository.TenantRepository.CreateArtifact` | satsa/tenancy.py:263-283 | answer and new database equal the specified operation |
| `TenantRepository.TenantRepository.GetTrustReceipt` | satsa/tenancy.py:329-339 | the receipt only if its subject is a run or finding owned by this organization; the other reads are proved in the same way |
| `Sessions.SessionRepository.Create` | satsa/tenancy.py:348-359 | answer and new table equal the specified step; a lifetime must be positive |
| `Sessions.SessionRepository.Resolve` | satsa/tenancy.py:361-373 | the live session of the token, if there is one |
| `Sessions.SessionRepository.Revoke` | satsa/tenancy.py:375-384 | answer and new table equal the specified step |
| `Sessions.SessionRepository.Touch` | satsa/tenancy.py:386-397 | answer and new table equal the specified step |
| `Sessions.SessionLifetime` | satsa/tenancy.py:342-397 | over any run a session keeps user, token and expiry and stays unrevoked exactly when no request ended it |
| `Sessions.TokenResolves` | satsa/tenancy.py:348-397 | after any run an issued token resolves to its session exactly while unexpired, of an active user, and not ended |
| `Sessions.StepKeepsTokensUnique` | satsa/tenancy.py:342-397 | no two sessions ever share a token |
| `Sessions.FailureChangesNothing` | satsa/tenancy.py:342-397 | a refused or unsuccessful request changes no session |
| `Sessions.CreateExactly` | satsa/tenancy.py:348-359 | a session is issued exactly for a known user, a positive lifetime, and an id and a token that are new, and its token then opens it |
| `Sessions.ResolveExactly` | satsa/tenancy.py:361-373 | the answer is the row the token opens, whose user is active and which is neither expired nor revoked, or none |
| `Sessions.EndAndTouchExactly` | satsa/tenancy.py:375-397 | revoking and touching change only the moment of revocation or activity of the row the token opens |
| `MigrationValidation.ValidateMigration` | satsa/migration_validation.py:120-208 | returns exactly when the cutover is safe: a changed value, a missing or added row, a wrong organization or other ledger bytes make it fail; the counts are those of the source |
| `MigrationValidation.ValidIffSafe` | satsa/migration_validation.py:108-208 | the checks pass if and only if owners are complete and their organizations exist, every source row is in the target with the same columns and values apart from its organization (binary data compared by content), direct rows have the declared organization, nothing else is in scope, and the ledgers are equal and valid |
| `MigrationValidation.ValidateTables` | satsa/migration_validation.py:154-195 | the loop over the tables succeeds exactly when each is valid |
| `MigrationValidation.ValidateTable` | satsa/migration_validation.py:155-195 | no failure exactly when the scoped ids equal the source ids and every row is present, equal and rightly owned; which failure is reported |
| `MigrationValidation.CheckRow` | satsa/migration_validation.py:184-195 | a row passes exactly when it matches apart from its organization and, in a direct table, has the declared one |
| `MigrationValidation.AllPresent` | satsa/migration_validation.py:174-182 | the fetch loop finds every source row exactly when the target has all the ids |
| `MigrationValidation.CheckRows` | satsa/migration_validation.py:183-195 | the comparison loop passes exactly when every row is good, and reports a difference or a wrong organization |
| `MigrationValidation.ValidateLedgers` | satsa/migration_validation.py:197-207 | no failure exactly when all pairs exist, verify and hold the same bytes |
| `MigrationValidation.JoinedOwnerIsDeclared` | satsa/migration_validation.py:46-208 | without any assumption on the target: in the four direct tables and in all that is reached from them by joins, receipts included, whoever owns the target's row of a source row is the declared owner of the entity that the source row hangs from, and nobody else owns it |
| `MigrationValidation.OwnerIsDeclared` | satsa/migration_validation.py:46-208 | the same in every table, once the composite keys and the unique receipt of the schema hold |
| `MigrationValidation.OneOwner` | satsa/migration_validation.py:46-208 | so each copied row has exactly one owner, a mapped organization: the joined ones always, the others where the keyed rows agree |
| `MigrationValidation.OwnersAgreeIffKeysAgree` | satsa/migration_validation.py:46-208 | without assuming the keys: in an accepted target all rows of all tables have their declared owners exactly when each copied row of a table with its own organization shares it with the row it names, and no copied receipt of a finalization has two owners |
| `MigrationValidation.SchemaGivesKeys` | qsmlops/database/migrations.py:732-1001 | the composite foreign keys and the unique receipt of a finalization give that condition |
| `MigrationValidation.AcceptsExactlyFaithfulCopies` | satsa/migration_validation.py:154-195 | where the keyed rows agree, the table checks accept a target if and only if rows match, joins and keys lead in the source to declared owners, and nothing else belongs to the mapped organizations |
| `MigrationValidation.DeclaredOwns` | satsa/migration_validation.py:46-105 | in a faithful copy the declared owner owns the copied row along joins and keys |
| `MigrationValidation.NothingAddedOrChanged` | satsa/migration_validation.py:160-190 | every target row of a mapped organization comes from the source and has the same columns and values apart from its organization |
| `LoginRateLimiter.LoginRateLimiter.Check` | satsa/security.py:192-204 | answer and attempts equal the specified step: prune, refuse at the limit, else append |
| `LoginRateLimiter.LoginRateLimiter.Reset` | satsa/security.py:206-210 | the key's attempts are forgotten and no other key's |
| `LoginRateLimiter.PruningIsInvisible` | satsa/security.py:187-210 | over any run with a clock that does not go back, every answer equals that of a limiter keeping the full history |
| `LoginRateLimiter.NoWindowOverLimit` | satsa/security.py:192-210 | between resets no window (s, s + window] holds more allowed checks of a key than the limit |
| `LoginRateLimiter.KeysAreIndependent` | satsa/security.py:192-210 | the answers of a key are those of the run with only its own events |
| `ClockReadings.SafeIffSteady` | satsa/security.py:192-210 | clock readings are safe, in that pruning changes no answer for any limit, any positive window, any keys and any resets, if and only if no reading falls after an earlier rise |
| `ClockReadings.SteadyIsSafe` | satsa/security.py:192-210 | while the clock falls nothing counted is pruned, and once it rises it must not fall |
| `ClockReadings.FallShows` | satsa/security.py:192-204 | for any reading that falls after a rise there are a limit, a window and a run in which pruning allows what the full history refuses |
| `TrustScores.ComputeDeduction` | qsmlops/scores.py:57-65 | the loop over the findings adds up the specified deduction |
| `TrustScores.ComputeSecurityScore` | qsmlops/scores.py:68-89 | the loops and branches give the specified security score |
| `TrustScores.ComputeTrustScore` | qsmlops/scores.py:92-111 | the loops and branches give the specified trust score |
| `TrustScores.ComputeDriftCost` | qsmlops/scores.py:103-110 | the cost of the drift severity |
| `TrustScores.EvaluateTrust` | qsmlops/scores.py:190-411 | blockers, components, composite, decision and eligibility equal the specified evaluation |
| `TrustScores.FindBlockers` | qsmlops/scores.py:224-256 | the blockers, in the order they are raised |
| `TrustScores.FindSignatureBlockers` | qsmlops/scores.py:224-247 | the blockers about passport, signature and signer, in order |
| `TrustScores.CountUnverified` | qsmlops/scores.py:264-271 | the bill-of-materials entries that do not verify in the store |
| `TrustScores.ComputeSecurityComponent` | qsmlops/scores.py:258-261 | zero under a signature blocker, else the clamped security score |
| `TrustScores.ComputeIntegrityComponent` | qsmlops/scores.py:263-278 | the clamped integrity score, zero under an artifact blocker |
| `TrustScores.ComputeComponents` | qsmlops/scores.py:258-347 | the component map, performance present only with both metrics |
| `TrustScores.BlockersExact` | qsmlops/scores.py:224-256 | no blocker exactly when signature, signer, stored artifact and claimed digest all hold |
| `TrustScores.BlockersDominate` | qsmlops/scores.py:361-378 | a blocker forces BLOCKED and quarantine QUARANTINED; nothing blocked is eligible; a broken signature zeroes the security score |
| `TrustScores.ScoresInRange` | qsmlops/scores.py:68-111 | both scores lie in [0, 100] for any evidence |
| `TrustScores.CompositeInRange` | qsmlops/scores.py:349-359 | whichever components are present, the renormalised mean lies in [0, 100] even before it is clamped |
| `TrustScores.ResultInRange` | qsmlops/scores.py:258-359 | every component and the composite of an evaluation lie in [0, 100] |
| `TrustScores.SecurityMonotone` | qsmlops/scores.py:68-89 | worse findings never raise the security score |
| `TrustScores.TrustScoreMonotone` | qsmlops/scores.py:92-111 | worse findings, a lower security score or worse drift never raise the trust score |
| `TrustScores.CompositeMonotone` | qsmlops/scores.py:349-359 | lower components with the same names never give a higher composite |
| `TrustScores.WorseEvidenceNeverHelps` | qsmlops/scores.py:190-411 | worse findings or drift raise neither security score nor composite nor decision, keep the blockers and never make a version eligible |
| `TrustScores.AddedFindingWorsens` | qsmlops/scores.py:57-65 | inserting any finding into any observation is worse evidence in that sense |
| `TrustDecisions.DecisionExact` | qsmlops/scores.py:361-378 | trusted exactly when not quarantined, without blockers, with a high enough composite and no failed finding of high or critical severity; the exact conditions of the other decisions and of eligibility |
| `TrustDecisions.BlockersListed` | qsmlops/scores.py:224-256 | each of the six blockers is listed exactly when its own condition on passport, signature, signer or artifact holds |
| `TrustDecisions.SecurityExact` | qsmlops/scores.py:258-261 | zero with a cryptographic blocker, the security score otherwise |
| `TrustDecisions.ComponentsExact` | qsmlops/scores.py:258-347 | lineage, integrity and operational as whole numbers told from provenance, bill of materials, store, drift and failures |
| `TrustDecisions.PerformanceExact` | qsmlops/scores.py:311-326 | present exactly with both metrics, fifty points for each within its bound |
| `TrustDecisions.CompositeExact` | qsmlops/scores.py:349-359 | the weighted mean of the components, renormalised without absent metrics, rounded |
| `TrustDecisions.OneFinding` | qsmlops/scores.py:57-66 | a failed finding costs the points of its severity, half of them at no confidence |
| `TrustDecisions.SecurityByCost` | qsmlops/scores.py:68-90 | a hundred less the points of the four crypto agents and the cost of an unknown, old or expired key |
| `TrustDecisions.TrustByCost` | qsmlops/scores.py:92-112 | a hundred less the points of all agents, at most ten above the security score, less the cost of the drift |
| `ExpertLabels.LoadLabels` | evaluation/research/expert_labels.py:83-113 | raises if and only if some line is JSON but not an object; otherwise accepts and rejects exactly the specified lines, with their numbers and reasons |
| `ExpertLabels.AcceptedHaveOneMark` | evaluation/research/expert_labels.py:104-112 | whatever the file holds, accepted annotations have one mark per annotator and target |
| `ExpertLabels.EveryLineCounted` | evaluation/research/expert_labels.py:83-113 | while no line is JSON other than an object, every non-blank line is either accepted or rejected |
| `ExpertLabels.Adjudicate` | evaluation/research/expert_labels.py:126-182 | the grouping, deciding and pairing loops give the specified report |
| `ExpertLabels.Group` | evaluation/research/expert_labels.py:132-139 | the first loop groups marks by target in order and keeps the last adjudication of each |
| `ExpertLabels.DecideAll` | evaluation/research/expert_labels.py:140-156 | the second loop gives every annotated target its verdict |
| `ExpertLabels.ComparePairs` | evaluation/research/expert_labels.py:157-175 | the third loop compares every pair of annotators with a shared target |
| `ExpertLabels.MajorityIsStrictMaximum` | evaluation/research/expert_labels.py:142-144 | a majority label is the unique label with strictly the most marks |
| `ExpertLabels.ConsensusPermutation` | evaluation/research/expert_labels.py:140-156 | with agreeing adjudications, any order of the records gives the same consensus |
| `ExpertLabels.PairwisePermutation` | evaluation/research/expert_labels.py:157-175 | with one mark per annotator and target, any order gives the same percent agreement and kappa |
| `ExpertLabels.OrderIndependence` | evaluation/research/expert_labels.py:126-182 | the whole report is independent of the order of the records if and only if the adjudications of each annotated target agree |
| `ExpertLabels.DisagreementShows` | evaluation/research/expert_labels.py:133-150 | two adjudications that differ on an annotated target give another consensus in another order |
| `LabelResults.FaultsReported` | evaluation/research/expert_labels.py:53-80 | each reason is given exactly for its own fault |
| `LabelResults.AcceptedExactly` | evaluation/research/expert_labels.py:83-113 | the accepted records are those of the adjudication lines and of the faultless label lines that repeat no earlier one |
| `LabelResults.RejectedExactly` | evaluation/research/expert_labels.py:83-113 | each line is rejected for exactly its reasons, under its number |
| `LabelResults.ConsensusExactly` | evaluation/research/expert_labels.py:126-155 | every annotated target has the label of its last adjudication, or else the label with strictly the most marks, or else none, with the method and the counts that belong to it |
| `LabelResults.NumbersExactly` | evaluation/research/expert_labels.py:176-182 | the report counts the annotated targets and those without adjudication and leading label |
| `LabelResults.AgreementExactly` | evaluation/research/expert_labels.py:157-175 | the shared targets of two annotators are those both marked, and the percentage is the share with one label |
| `LabelResults.PairwiseExactly` | evaluation/research/expert_labels.py:156-175 | two annotators have an entry exactly when they are in order and share a target |
| `CohenKappa.KappaBounds` | evaluation/research/expert_labels.py:116-123 | kappa, for any labels, is defined exactly on non-empty lists of one length that are not constantly the same label, lies in [-1, 1], and is 1 exactly on full agreement |
| `CohenKappa.ExpectedBounds` | evaluation/research/expert_labels.py:120-122 | expected agreement is 1 exactly when both lists are constantly the same label, and otherwise less, and bounded by the observed one from below |
| `CohenKappa.KappaSymmetric` | evaluation/research/expert_labels.py:116-123 | the two annotators may be exchanged |
| `CohenKappa.KappaPermutation` | evaluation/research/expert_labels.py:116-123 | the order of the shared targets does not matter |
| `CohenKappa.KappaExact` | evaluation/research/expert_labels.py:116-123 | kappa in whole numbers of matches and of chance matches over all cross pairs, and its sign |
| `RankCorrelation.Ranks` | evaluation/research/external_itsm.py:43-54 | every value gets the number of smaller ones plus half of one more than the number of equal ones |
| `RankCorrelation.WalkTies` | evaluation/research/external_itsm.py:45-53 | the nested tie-walking loops fill in the one list that averages every tie block |
| `RankCorrelation.BlockRank` | evaluation/research/external_itsm.py:46-53 | at every position of a tie block that average is the tie-averaged rank |
| `RankCorrelation.RankSum` | evaluation/research/external_itsm.py:43-54 | the ranks of n values sum to n(n+1)/2 whatever the ties |
| `RankCorrelation.RanksInvariant` | evaluation/research/external_itsm.py:43-54 | ranks are unchanged by any strictly increasing transformation |
| `RankCorrelation.ComputeSpearman` | evaluation/research/external_itsm.py:57-68 | the branches and sums give the specified correlation |
| `RankCorrelation.CauchySchwarz` | evaluation/research/external_itsm.py:62-66 | the squared covariance is at most the product of the two sums of squares |
| `RankCorrelation.SpearmanBounds` | evaluation/research/external_itsm.py:57-68 | defined exactly on two non-constant lists of one length of at least three, and then in [-1, 1] |
| `RankCorrelation.SpearmanSymmetric` | evaluation/research/external_itsm.py:57-68 | the two lists may be exchanged |
| `RankCorrelation.SpearmanSelf` | evaluation/research/external_itsm.py:57-68 | exactly 1 for a non-constant list against itself |
| `RankCorrelation.SpearmanInvariant` | evaluation/research/external_itsm.py:57-68 | unchanged by strictly increasing transformations of either list |
| `RankReversal.SpearmanReversed` | evaluation/research/external_itsm.py:57-68 | a strictly decreasing transformation of one list negates the correlation and keeps it defined |
| `RankReversal.SpearmanOfReversal` | evaluation/research/external_itsm.py:57-68 | a non-constant list against its reversal correlates to -1 |
| `RankReversal.SpearmanPerfect` | evaluation/research/external_itsm.py:57-68 | 1 exactly on equal ranks, -1 exactly where each pair of ranks sums to n + 1 |
| `RankReversal.SpearmanByDistance` | evaluation/research/external_itsm.py:57-68 | with any ties, the spreads less the squared rank differences are twice the covariance |
| `RankReversal.SpearmanWithoutTies` | evaluation/research/external_itsm.py:57-68 | without ties, one less six times the squared rank differences over n^3 - n |
| `RankingMetrics.ComputeRankingMetrics` | evaluation/research/prioritization.py:41-63 | the loop over k fills in precision, recall and NDCG for each k, and the review volume |
| `RankingMetrics.ReviewVolumeToFindAll` | evaluation/workload/experiment.py:179-189 | the loop form finds the same review volume as the max form |
| `RankingMetrics.VolumeIsLast` | evaluation/research/prioritization.py:58-62 | the review volume is the position of the last relevant entity |
| `RankingMetrics.VolumeIsLeastCompletePrefix` | evaluation/workload/experiment.py:179-189 | for a duplicate-free ordering with all relevant ids, a prefix is complete exactly from the review volume on |
| `RankingMetrics.RecallsAgree` | evaluation/workload/experiment.py:172-176 | the two recall functions agree for a non-empty relevant set |
| `RankingMetrics.PrecisionIsOne` | evaluation/research/prioritization.py:46-54 | precision is at most 1, and 1 exactly when the whole reviewed part is there and relevant |
| `RankingMetrics.PrecisionAndRecall` | evaluation/research/prioritization.py:46-55 | precision times depth equals recall times the number of relevant entities |
| `RankingMetrics.RecallMonotone` | evaluation/workload/experiment.py:172-176 | recall never falls as more is reviewed |
| `RankingMetrics.RecallCompleteAtVolume` | evaluation/workload/experiment.py:172-189 | recall is at most 1, and 1 exactly from the review volume on |
| `RankingMetrics.TopNMonotone` | evaluation/research/prioritization.py:37-38 | the review depth grows with k and stays within the ordering for k up to 100 |
| `RankingMetrics.DcgBound` | evaluation/research/prioritization.py:47-57 | the gain is at most that of as many leading hits, and equal exactly when the hits lead |
| `RankingMetrics.NdcgOptimal` | evaluation/research/prioritization.py:41-57 | NDCG is defined exactly when something is relevant, lies in [0, 1], and is 1 exactly when the first entries are all relevant |
| `RankingMetrics.NdcgAtMostOneIffFewHits` | evaluation/research/prioritization.py:41-57 | for any ordering, repeated entities included: NDCG is at most 1 for every discount if and only if the hits within the depth number at most min(top, relevant) |
| `RankingMetrics.TopNNearest` | evaluation/research/prioritization.py:37-38 | the depth is n k / 100 to the nearest integer, halves to even, and one exactly below one and a half |
| `RankingMetrics.SharesExact` | evaluation/research/prioritization.py:41-57 | precision and recall are the number of relevant positions within the depth over the depth and over all relevant |
| `RankingMetrics.NdcgZero` | evaluation/research/prioritization.py:41-57 | zero without a relevant entity within the depth |
| `RankingMetrics.NdcgUpdate` | evaluation/research/prioritization.py:41-57 | replacing one entity changes the gain by what its position gains and loses, which with the zero determines NDCG |
| `Percentiles.PercentileBetween` | evaluation/workload/experiment.py:192-197 | a percentile lies between its two neighbours |
| `Percentiles.PercentileInRange` | evaluation/workload/experiment.py:192-197 | a percentile lies within the range of the data |
| `Percentiles.PercentileMonotone` | evaluation/workload/experiment.py:192-197 | percentiles grow with the fraction |
| `Percentiles.PercentileIsMedian` | evaluation/workload/experiment.py:192-197 | at one half it is the median |
| `Percentiles.PercentileEnds` | evaluation/workload/experiment.py:192-197 | at 0 and 1 it is the least and the greatest value |
| `Percentiles.DescribeOrdered` | evaluation/research/statistics.py:37-62 | min <= median <= p95 <= max and min <= mean <= max, p95 present exactly from the least sample size on |
| `Percentiles.DescribePermutation` | evaluation/research/statistics.py:37-62 | a summary does not depend on the order of the measurements |
| `Percentiles.BootstrapOrdered` | evaluation/research/statistics.py:65-91 | lower <= upper, both within the range of the estimates, for any draws |
| `Percentiles.BootstrapMedianInRange` | evaluation/research/statistics.py:65-91 | for the median, both within the range of the data |
| `OrderStatistics.PercentileExact` | evaluation/workload/experiment.py:192-197 | the percentile lies in proportion between the two order statistics around its position |
| `OrderStatistics.DescribeExact` | evaluation/research/statistics.py:37-62 | count, median, mean, extremes and 95th percentile, up to rounding, told by how many values lie below |
| `OrderStatistics.BootstrapExact` | evaluation/research/statistics.py:65-91 | when an interval is given, and that its bounds cut equal tails off the estimates |
| `OutlierRules.ZScoreBound` | evaluation/baselines/statistical.py:21-31 | at most n/k^2 values are flagged, strictly fewer if any is |
| `OutlierRules.MadBound` | evaluation/baselines/statistical.py:34-46 | with a cut-off of at least 0.6745 at most half of the values are flagged |
| `OutlierRules.IqrBound` | evaluation/baselines/statistical.py:49-65 | with k >= 0 at most half of the values are flagged |
| `OutlierRules.ZScoreMap` | evaluation/baselines/statistical.py:21-31 | flags are unchanged by stretching and moving the values |
| `OutlierRules.MadRuleMap` | evaluation/baselines/statistical.py:34-46 | flags are unchanged by stretching and moving the values |
| `OutlierRules.IqrRuleMap` | evaluation/baselines/statistical.py:49-65 | flags are unchanged by stretching and moving the values |
| `OrderStatistics.ZScoreExact` | evaluation/baselines/statistical.py:21-31 | a value is flagged exactly when there are two, they are spread, and it is more than k deviations from the mean |
| `OrderStatistics.MadExact` | evaluation/baselines/statistical.py:34-46 | flagged exactly when 0.6745 times its distance from the median is over k median distances, which are not zero |
| `OrderStatistics.IqrExact` | evaluation/baselines/statistical.py:49-65 | flagged exactly when there are four values, the quartiles differ, and it lies beyond the fence |
| `OrderStatistics.QuartilesExact` | evaluation/baselines/statistical.py:49-65 | the quartiles are the medians of the smaller and of the larger half |
| `WorkflowGenerator.GenerateWorkflow` | public_benchmarks/workflow_augmentation/generator.py:505-520 | returns a bundle with the specified records, or raises for an unknown scenario, a missing parameter or an empty recurrence |
| `WorkflowGenerator.GeneratePeerEntityWorkflow` | public_benchmarks/workflow_augmentation/generator.py:426-459 | returns a peer bundle with the specified records under its own scenario id, or raises |
| `WorkflowGenerator.GenerateFromAlerts` | public_benchmarks/workflow_augmentation/generator.py:165-293 | the loops over selected alerts fill a fresh bundle with the specified records |
| `WorkflowGenerator.SelectAlerts` | public_benchmarks/workflow_augmentation/generator.py:192 | exactly the alerts the scenario works on, in order |
| `WorkflowGenerator.WorkflowBundle.HandleAlert` | public_benchmarks/workflow_augmentation/generator.py:167-186 | one turn appends exactly the alert, its case, steps, escalation and disposition |
| `WorkflowGenerator.WorkflowBundle.HandleAlerts` | public_benchmarks/workflow_augmentation/generator.py:165-187 | the whole loop over the alerts |
| `WorkflowGenerator.WorkflowBundle.AddSteps` | public_benchmarks/workflow_augmentation/generator.py:176-181 | the inner loop appends the steps, healthy control with a running clock |
| `WorkflowGenerator.WorkflowBundle.AddSilentAssets` | public_benchmarks/workflow_augmentation/generator.py:299-310 | the loop ends for any finite set of existing ids and appends the first free candidates |
| `WorkflowGenerator.GenerateSilentAssets` | public_benchmarks/workflow_augmentation/generator.py:296-311 | the alerts untouched and the specified new assets |
| `WorkflowGenerator.WorkflowBundle.AddTemplate` | public_benchmarks/workflow_augmentation/generator.py:347-363 | one turn of the template loop, with an alert id of its own |
| `WorkflowGenerator.WorkflowBundle.AddRecurringAlerts` | public_benchmarks/workflow_augmentation/generator.py:377-386 | the recurring alerts and the list of their ids |
| `WorkflowGenerator.WorkflowBundle.DisposeRecurring` | public_benchmarks/workflow_augmentation/generator.py:391-394 | one disposition for each linked alert, at its closing time |
| `WorkflowGenerator.GenerateTemplates` | public_benchmarks/workflow_augmentation/generator.py:336-365 | the template loop gives the specified records |
| `WorkflowGenerator.GenerateRecurring` | public_benchmarks/workflow_augmentation/generator.py:368-396 | the recurrence loops give the specified records; a count of zero or less raises on a non-empty input |
| `WorkflowIntegrity.GeneratedIsIntact` | public_benchmarks/workflow_augmentation/generator.py:165-520 | for distinct input alerts every returned bundle has distinct alert, case and asset ids, every step, escalation and disposition names a generated case, the latter two also an alert of that case, and every case names alerts in use |
| `WorkflowIntegrity.GeneratedPeerIsIntact` | public_benchmarks/workflow_augmentation/generator.py:426-459 | the same for a peer bundle |
| `WorkflowIntegrity.AlertScenarioIntact` | public_benchmarks/workflow_augmentation/generator.py:165-293 | case i holds the i-th selected alert and nothing else, and disposition i is of that alert in that case |
| `WorkflowIntegrity.SilentAssetsFresh` | public_benchmarks/workflow_augmentation/generator.py:296-311 | exactly as many new assets as asked for, pairwise distinct and none existing |
| `WorkflowIntegrity.FreeIndicesExact` | public_benchmarks/workflow_augmentation/generator.py:302-310 | the chosen indices are exactly the free ones below the point where the search ends, in order |
| `WorkflowIntegrity.TemplateScenarioIntact` | public_benchmarks/workflow_augmentation/generator.py:336-365 | distinct ids even when one input alert serves many cases or input alerts share an id |
| `WorkflowIntegrity.RecurringScenarioIntact` | public_benchmarks/workflow_augmentation/generator.py:368-396 | one case holds all the recurring alerts, as many as asked for with distinct ids, and each has its one disposition within it |
| `WorkflowIntegrity.LinksBackIffInputLinks` | public_benchmarks/workflow_augmentation/generator.py:165-520 | every case id that an alert in use carries names a generated case holding it if and only if, in the three scenarios that keep the input's case ids, those already do |
| `WorkflowContents.SelectedExactly` | public_benchmarks/workflow_augmentation/generator.py:165-293 | every scenario handles the alerts of its severities in order, low_activity the first ones |
| `WorkflowContents.HandledExactly` | public_benchmarks/workflow_augmentation/generator.py:165-293 | a handled alert keeps everything but acknowledgement, closing and, if acknowledged, its case |
| `WorkflowContents.WhoIsEscalated` | public_benchmarks/workflow_augmentation/generator.py:165-520 | in any returned bundle an input alert is escalated exactly in healthy_control, missing_investigation and peer_outlier, there of high or critical severity, when the policy lists its severity |
| `WorkflowContents.EscalationsExactly` | public_benchmarks/workflow_augmentation/generator.py:165-459 | the escalations are exactly those of the handled alerts that must have one, with all their fields, peers included |
| `WorkflowContents.StepsExactly` | public_benchmarks/workflow_augmentation/generator.py:165-459 | every case gets exactly the steps of its scenario in order |
| `WorkflowContents.TemplateStepsExactly` | public_benchmarks/workflow_augmentation/generator.py:336-365 | every template case has one step, the same but for case and time |
| `WorkflowContents.OutcomesExactly` | public_benchmarks/workflow_augmentation/generator.py:165-520 | all cases are closed, as true positives but for the recurring alerts |
| `WorkflowContents.SilentExactly` | public_benchmarks/workflow_augmentation/generator.py:296-311 | the alerts untouched, no workflow, and assets of the criticality asked for |
| `WorkflowContents.FirstNamedExactly` | public_benchmarks/workflow_augmentation/generator.py:505-520 | the first scenario of the name, if there is one |
| `WorkflowContents.KnownNames` | public_benchmarks/workflow_augmentation/policy.yaml:28-212 | exactly the twelve declared scenarios are implemented |
| `Numbering.NumberedInjective` | public_benchmarks/workflow_augmentation/generator.py:112-124 | an id made of prefix, hyphen and decimal index determines both |
| `ClosureTimes.SignalsExactly` | satsa/analysis/workers/fast_closure.py:62-115 | for any parameters and alerts, the detector signals on a returned bundle exactly when some alert that the scenario handles has a severity whose threshold lies above the scenario's closing time, and that is not below the floor |
| `ClosureTimes.DeclaredSignals` | public_benchmarks/workflow_augmentation/policy.yaml:28-212 | under the declared policy it signals exactly on critical alerts in fast_closure and multi_signal, critical or high ones in peer_outlier, and medium ones in ack_no_investigation and among those of template_investigation |
| `ClosureTimes.InTimeExactly` | public_benchmarks/workflow_augmentation/generator.py:165-520 | for any parameters and alerts, alerts and cases of a returned bundle pass their validation, and all steps, escalations and dispositions fall within their cases, exactly when the cases are long enough for their work |
| `ClosureTimes.DeclaredInTime` | public_benchmarks/workflow_augmentation/policy.yaml:28-212 | under the declared policy every returned bundle is so, for any severities to escalate; silent_critical_asset exactly when the input alerts are |
| `ClosureTimes.DeclaredPeer` | public_benchmarks/workflow_augmentation/generator.py:426-459 | a peer bundle of the declared policy is in time and never signals |
| `ClosureTimes.DeclaredDelay` | public_benchmarks/workflow_augmentation/policy.yaml:28-212 | seconds from alert to closing, scenario by scenario |
| `ClosureTimes.PaceIsNearest` | public_benchmarks/workflow_augmentation/generator.py:165-293 | within its bounds the pace is as close to the usual length as it can be |
| `TrivySummary.MakeChunks` | deploy/summarize_trivy.py:69-76 | the loop gives the texts of the specified groups of lines |
| `TrivySummary.ChunksKeepText` | deploy/summarize_trivy.py:69-76 | the chunks concatenate to all lines, each followed by a newline |
| `TrivySummary.ChunkSizes` | deploy/summarize_trivy.py:69-76 | a chunk over the limit is exactly one over-long line, and a chunk is empty exactly when it is first and the first line is over-long |
| `TrivySummary.FewestChunks` | deploy/summarize_trivy.py:69-76 | the loop makes as few chunks as any division into chunks within the limit or of one line, plus one exactly when the first line is over-long |
| `TrivySummary.OverlongAlone` | deploy/summarize_trivy.py:70-76 | a single over-long line makes two chunks, the first of them empty |
| `TrivySummary.SpareChunkLosesText` | deploy/summarize_trivy.py:69-83 | nine chunks would do and yet findings are lost exactly when an over-long first line makes ten chunks of them |
| `TrivySummary.EscapeIsEncode` | deploy/summarize_trivy.py:80 | the three replacements in sequence are one encoding, character by character |
| `TrivySummary.EscapeRoundTrip` | deploy/summarize_trivy.py:80 | the escape can be undone and its output holds no line break |
| `TrivySummary.EscapeInjective` | deploy/summarize_trivy.py:80 | different texts have different escapes |
| `TrivySummary.Annotate` | deploy/summarize_trivy.py:77-83 | the loop prints the specified notice or warnings, cut off after nine with the number omitted |
| `TrivySummary.NothingLost` | deploy/summarize_trivy.py:69-83 | every finding can be read back from the annotations exactly when nine chunks suffice |
| `TrivySummary.AnnotationsExact` | deploy/summarize_trivy.py:77-83 | the first nine chunks are shown in order under their numbers, the rest counted: shown and omitted chunks add up |
| `EvidenceFreeze.FileSystem.VerifyBundle` | evaluation/research/freeze.py:29-53 | the problems found, in order |
| `EvidenceFreeze.FileSystem.CollectEntry` | evaluation/research/freeze.py:56-107 | the entry of a bundle that verifies, or what is raised |
| `EvidenceFreeze.FileSystem.CollectEntries` | evaluation/research/freeze.py:99-107 | the entries of all selections, or the first error |
| `EvidenceFreeze.FileSystem.CopyAllBundles` | evaluation/research/freeze.py:112-119 | the copies one after another, up to the first error |
| `EvidenceFreeze.FileSystem.CopyAllSupporting` | evaluation/research/freeze.py:120-133 | the supporting files copied and recorded, up to the first error |
| `EvidenceFreeze.EntryOf` | evaluation/research/freeze.py:56-80 | an entry carries its bundle's name and the digest of the manifest that is there |
| `EvidenceFreeze.ArtifactNames` | evaluation/research/freeze.py:44 | the listed artifacts, in the order of their names |
| `EvidenceFreeze.FileSystem.BuildFreeze` | evaluation/research/freeze.py:82-147 | the files afterwards and the record, or what is raised, equal the specified build |
| `EvidenceFreeze.FileSystem.VerifyFreeze` | evaluation/research/freeze.py:150-172 | the report equals the specified verification |
| `FreezeIntegrity.ProblemsExact` | evaluation/research/freeze.py:29-53 | no problem is found exactly when manifest, listed artifacts and a present configuration have their recorded hashes |
| `FreezeIntegrity.BundlesCopied` | evaluation/research/freeze.py:112-119 | when no copy raises, every copied bundle is intact at the end, not only right after its copy |
| `FreezeIntegrity.NamesDistinct` | evaluation/research/freeze.py:112-113 | copying refuses a second bundle of the same name |
| `FreezeIntegrity.SupportingStored` | evaluation/research/freeze.py:120-133 | each supporting file ends up as the last item of its name recorded it |
| `FreezeIntegrity.IntactExactly` | evaluation/research/freeze.py:150-172 | intact exactly when every bundle and, for each supporting file name, its last record checks out |
| `FreezeTheorems.BuildFreezes` | evaluation/research/freeze.py:82-147 | a build that returns leaves a directory that its record describes |
| `FreezeTheorems.RoundTrip` | evaluation/research/freeze.py:82-172 | what a build returns verifies as intact without problems, even when supporting files share a name |
| `FreezeTheorems.NothingElseChanges` | evaluation/research/freeze.py:96-146 | a build changes no file outside its staging directory and the freeze, and a failed one leaves no freeze |
| `FreezeTheorems.IntactIffUnchanged` | evaluation/research/freeze.py:150-172 | under a collision-free hash, whatever else happened, intact if and only if everything recorded is unchanged |
| `FreezeTheorems.ChangedConfigurationShows` | evaluation/research/freeze.py:50-52 | a configuration that is changed but present is always reported |
| `FreezeTheorems.BundleChangeShows` | evaluation/research/freeze.py:29-53 | once verified, a bundle verifies again exactly while its manifest and listed artifacts are the same and a present configuration matches |
| `FreezeTheorems.RemovalShowsIffRecorded` | evaluation/research/freeze.py:150-172 | the removal of a file is reported exactly when the freeze records that file |
| `FreezeReports.ProblemsListed` | evaluation/research/freeze.py:29-53 | each problem of a bundle is listed exactly when its own condition holds |
| `FreezeReports.ReportNames` | evaluation/research/freeze.py:150-172 | the report names exactly the bad bundles and supporting files, and is intact when there are none |
| `FreezeReports.ReportHolds` | evaluation/research/freeze.py:150-172 | under each name stand exactly its problems |
| `FreezeReports.ReportCounts` | evaluation/research/freeze.py:150-172 | the number of checks is that of the different names |
| `FreezeReports.ChangedBundleNamed` | evaluation/research/freeze.py:150-172 | after any change a bundle is named exactly when it is not as it was frozen |
| `FreezeReports.RecordExactly` | evaluation/research/freeze.py:56-147 | the record of a build that returns carries the request, the selected bundles with their manifests and digests, and the supporting files with their notes |
| `FreezeConfiguration.ConfigurationRemovalShowsIffListed` | evaluation/research/freeze.py:44-52 | after any build that returns, the removal of a bundle's config.json is reported if and only if its manifest lists that file |
| `FreezeConfiguration.UnlistedRemovalUnseen` | evaluation/research/freeze.py:29-172 | a request whose build returns, whose freeze holds a configuration with a recorded digest, and which is still reported intact after the removal of that configuration |
| `FreezeConfiguration.BuildSucceeds` | evaluation/research/freeze.py:82-147 | a request is built when its bundles verify, bear different names and lie, like its supporting files, outside the staging directory |
| `FreezeConfiguration.CopiesAreOriginals` | evaluation/research/freeze.py:112-119 | a build copies every bundle outside the staging directory file by file, with nothing added or changed |

## Left out

- TenantIsolation.NonInterference: takes ids and clock readings as inputs of each step; how fresh ids are generated is not modelled.
- TenantRepository.TenantAdministration.CreateUser: lowers ASCII letters only, since full Unicode case mapping is not part of this model.
- TenantRepository.TenantRepository.ListEntities: does not fix the order of entities with equal display names, which the query leaves open.
- TenantRepository.TenantRepository.GetTrustReceipt: stands in the table for all single-row reads, each proved equal to its specified operation.
- MigrationValidation.OwnerIsDeclared: assumes that reference columns of the source hold no binary data, as their text type says.
- ExpertLabels.LoadLabels: field values are text; numbers and nested values in a record, and a malformed target or label of an adjudication, are not modelled.
- ExpertLabels.OrderIndependence: keys the consensus by the pair of target type and id instead of the text "type:id", and pairs of annotators by the pair instead of the text "first|second", and does not model the order in which the report lists its entries.
- ClockReadings.SafeIffSteady: speaks of positive windows; the default is 60 seconds.
- OutlierRules.ZScoreBound: takes the population deviation as any non-negative root of the variance; the statistics module is not part of this model.
- RankCorrelation.WalkTies: takes the sorted index list as any ordering of the indices by value; Python's sort is not part of this model.
- RankingMetrics.NdcgAtMostOneIffFewHits: quantifies over all positive, strictly decreasing discounts; for the base-two logarithm alone its condition is sufficient but not necessary.
- WorkflowGenerator.GenerateFromAlerts: one record of constants per scenario stands for the near-identical loops of ten scenario functions.
- ClosureTimes.SignalsExactly: covers the state that the detector reports under its default thresholds, not the statistics, confidence and text of its findings.
- FreezeConfiguration.UnlistedRemovalUnseen: takes as given some text that the manifest reader reads as such a manifest, since JSON is not part of this model.
- FreezeConfiguration.CopiesAreOriginals: models directories by the files in them, paths as normalized text without "..", and copying as one step, so copying a directory into itself, empty directories and file permissions are not captured.
- EvidenceFreeze.FileSystem.BuildFreeze: documents that parse as JSON but lack the expected structure, and text that cannot be decoded, are not modelled.
- TrustScores.EvaluateTrust: the lists of positive and negative factors, the explanation text and the evidence dictionary are left out, since they feed no decision.
- Floating-point rounding error, SQL text, transactions, cryptography, JSON and CSV parsing and HTTP handlers.
- The table, sorting and report parsing of the scan summary, and the experiment drivers around the statistics.
- Random and fixed-threshold baselines, compute_scores and paired_comparison: true but easy.
