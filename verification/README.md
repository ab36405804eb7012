# Verified model of the employment-trust backend's core

A Dafny model of the parts of this backend where order, state and arithmetic matter most, with proofs of what they promise.
`dafny verify dfyconfig.toml` checks everything. Each file holds the modules of one component.

| file | component |
|---|---|
| `ForeignKeyOrder.dfy` | the QA reset tool's child-first delete order and its memoised table depths, on any foreign-key graph |
| `ResetPasses.dfy` | the reset tool's passes over all tables: which rows go, which cells are emptied, when it refuses |
| `RecordMatching.dfy` | greedy matching of expected and parsed resume records |
| `ParserScoring.dfy` | the scoring totals over a list of fixtures and the report's percentages |
| `ScoringEffects.dfy`, `FaithfulParses.dfy` | what one fixture adds to each counter, and what the report says of a parser that makes no mistake |
| `PersonRegistry.dfy`, `PersonBackfill.dfy` | the person-registry migration: one resolution step, and the loops over existing rows |
| `UpgradeOutcome.dfy` | what that migration leaves each person with, said of the tables it read |
| `InvitationCleanup.dfy` | the invitation clean-up migration before its unique index |
| `SignupOtp.dfy` | Redis keys with expiry, and the signup code store with its hourly cap, for any number of clients |
| `OAuthHandoff.dfy` | the one-time stores of Google sign-in and every interleaving of callbacks and exchanges |
| `RefreshSessions.dfy`, `PasswordResets.dfy` | refresh-token families with rotation and reuse detection (section 4.14.2 of RFC 9700), reset tokens |
| `Accounts.dfy` | what each signup, login, provider and password call does to users, sessions, links and codes |
| `AccountInvariants.dfy`, `AccountSteps.dfy` | the invariant of those tables, and that every call keeps it |
| `SignupProgress.dfy` | how one signup session may evolve |
| `AccountLaws.dfy` | round trips between calls, and where the code falls short of them |
| `SignupJourney.dfy` | a signup from its start to the account |
| `CodeOutcomes.dfy`, `AccountEdits.dfy`, `Standing.dfy` | each outcome of a code, of an edit to an account, and of asking to be let in, case by case |
| `SessionIsolation.dfy` | what a call about one signup session leaves alone |
| `CodeAddresses.dfy`, `CodeHistories.dfy` | whom the waiting codes were sent to, and where a stamp comes from, over every run |
| `LastingLaws.dfy` | what one call establishes and no later run takes away |
| `ServiceCalls.dfy`, `ServiceRuns.dfy` | the whole service and every serial run of it |
| `SessionEnds.dfy`, `HandedTokens.dfy` | what ends a session for good; what the tokens handed out are good for |
| `ServiceSends.dfy` | how many codes a run can send |
| `AuthService.dfy` | the service as a class: its methods in the source's steps, each equal to its specification |
| `Common.dfy` | options and results |

How to read it. Code that changes things step by step (loops over rows, in-place passes, methods on fields) is a method or a
class, proved equal to a function of the old state; what the code promises is then proved about those functions, over all inputs
and all runs. A few values are history and not in the source: `tracks` (a session's kind, when its addresses were last set, how
often it was prepared), `origins` (which session a user came from), `issuedTo` (the address a code was issued for), `rotatedFrom`
(the token a refresh token replaced). No outcome of a call depends on them.

Time is milliseconds, as Redis keeps it; Redis commands give lifetimes in seconds, `TTL` answers the nearest second, and an access
token's expiry is cut to the second below. A call reads the clock once. Random ids, tokens and states are fresh numbers. Argon2 and SHA-256 are
injective functions; an access token is its claims, and any other bearer text is undecodable. What a foreign service answers
(email, SMS, MSG91, Google) is a parameter. Each service call is one serial transaction: a refusal keeps what was cleared in Redis
and nothing else, as the source's rollback does. Two refreshes of one token that overlap are not covered.

Where the code and a plain reading of it part, the code is modelled and the difference is stated exactly:

- A lapsed signup found by both its email and its phone is deleted, but its id is returned (`AccountLaws.PreparedExists` says
  exactly when, `AccountLaws.StaleSessionReturned` gives a case).
- Attaching a phone to a Google signup keeps a code sent to the former phone (`AccountLaws.GooglePhoneKeepsCode`), and that code
  then stamps the new one (`AccountLaws.OldCodeStampsNewPhone`; `CodeAddresses.UnseenPhoneVerified` is a whole run of it).
  `CodeAddresses.CodesMatchExactlyWhen` says exactly when every waiting code is for its session's address. With codes checked by the
  SMS provider the swap is caught (`AccountLaws.SwappedPhoneIsCaught`).
- The send cap per hour is a cap per counting window; an hour can see twice as many (`SignupOtp.HourlyBound`, `BoundIsAttained`).
- `TTL` rounds to the nearest second, so a client that waits exactly as long as told can be up to half a second early
  (`SignupOtp.RetryAfterSuffices` says exactly when, `RetryCanBeEarly` gives a case).
- `_ensure_identifier` looks a row up per person, while uniqueness is per organization. With a link into another organization
  the two tables can fall out of agreement: `PersonRegistry.ConsistentExactlyWhen` and `BackfillRuns.ConsistentExactlyWhenHarmless`
  say exactly when, for one step and for runs, and `BackfillRuns.ForeignLinkBreaksTables` gives a case. The run theorems cover every
  run whose cross-organization links are harmless in that sense.
- The report's recall and omission are rounded apart and can miss 100 by a hundredth (`ScoringTotals.ComplementsAddUp` says when they
  cannot, `SumCanMiss` gives a case). Rounding is any function to a nearest hundredth, so that no claim rests on how binary fractions
  or ties fall.
- The backfill lets employments raise a person's relationship; on the links it writes itself they never do
  (`PersonBackfill.EmploymentsAddNothing`).
- A percentage of nothing is 100, so a corpus in which nothing was predicted reports its hallucination and duplicate rates as 100
  (`ScoringTotals.FlawlessIsReported`).
- A code whose delivery failed is stored and counted all the same (`CodeOutcomes.SendingComesTo`).
- Completion may settle on a user who is disabled or not verified, and hands out tokens; the guard and the refresh refuse them
  (`Standing.GuardLetsInExactly`, `HandedTokens.RefreshesExactlyWhen`).

## Model

| member | source | states |
|---|---|---|
| ChildTables.AddParents | scripts/reset_test_data.py:153-160 | the inner loop over one table's foreign keys: afterwards exactly the parents it refers to have this table as an extra child |
| DeleteOrder.BuildChildren | scripts/reset_test_data.py:186-195 | the child map holds, for every owned table, exactly the owned tables referring to it, self-references left out |
| DeleteOrder.DeleteOrderSearch.Visit | scripts/reset_test_data.py:197-208 | one step of the depth-first search keeps its invariant: no repeats, a placed parent has each child before it or shares a cycle with it, and only placed or open tables were met |
| DeleteOrder.OwnedDeleteOrder | scripts/reset_test_data.py:180-209 | every owned table exactly once; a child after its parent only on a common foreign-key cycle; strictly child-first if and only if the graph has no cycle |
| DeleteOrder.LateChildIsOnACycle | scripts/reset_test_data.py:180-209 | in such an order a child placed after its parent lies with it on a common foreign-key cycle |
| DeleteOrder.StrictOrderIffAcyclic | scripts/reset_test_data.py:180-209 | the order is strictly child-first exactly when some order could be: when there is no cycle |
| TableDepths.BuildAllChildren | scripts/reset_test_data.py:153-162 | the child map of all tables, self-references included, is the whole foreign-key graph |
| TableDepths.DepthSearch.Depth | scripts/reset_test_data.py:164-175 | the memoised search keeps its invariant on any graph: memoised values never change, each is above its children's unless they share a cycle, and each is witnessed by a walk of that length |
| TableDepths.DepthSearch.DepthOfAll | scripts/reset_test_data.py:177 | one memo shared by all tables, whatever order they come in, ends with a value for every table |
| TableDepths.TableDepths | scripts/reset_test_data.py:151-177 | every table gets a depth at most the number of tables; a parent's depth exceeds its child's unless both lie on a common cycle; without cycles it is the longest chain of children |
| TableDepths.AcyclicDepthIsLongestChain | scripts/reset_test_data.py:164-177 | without cycles the memoised depth is the length of the longest chain, attained by a chain and exceeded by none |
| TableDepths.ChainsBelowDepth | scripts/reset_test_data.py:164-177 | without cycles no chain of children from a table is longer than its depth |
| ResetTool.OwnedOrganizations | scripts/reset_test_data.py:242-272 | a returned organization was created by a selected user, has a member, and has none outside the selected users; a refusal names an organization that breaks this |
| ResetTool.OwnershipMeans | scripts/reset_test_data.py:242-272 | the organizations found are those a selected user created, each with a membership and with no member outside the selected users; a refusal names one with no membership, or with such a member |
| ResetTool.OwnedUserTables | scripts/reset_test_data.py:221-230 | exactly the tables with an owner column, each with exactly its owner columns |
| ResetTool.ActorUpdates | scripts/reset_test_data.py:233-239 | exactly the nullable actor columns of all tables |
| ResetTool.DetachActors | scripts/reset_test_data.py:326-337 | one update per actor column empties, together, exactly the actor columns that name a selected user, and touches no other cell |
| ResetTool.DeleteOwnedRows | scripts/reset_test_data.py:339-351 | the per-table deletes in delete order remove exactly the rows with some owner column naming a selected user |
| ResetTool.DeleteInOrder | scripts/reset_test_data.py:339-351 | each owned table is met once, still untouched, and loses exactly its owned rows |
| ResetTool.PassesGiveSurvivors | scripts/reset_test_data.py:318-362 | the five passes composed leave, per table, exactly the rows that are not doomed, with their actor columns detached |
| ResetTool.SelectedByEmail | scripts/reset_test_data.py:284-300 | with distinct ids, selecting by email and selecting by the ids so found pick the same rows |
| ResetTool.UsersLeftToDelete | scripts/reset_test_data.py:353-362 | the final delete still finds every selected user exactly when no earlier pass removed one |
| ResetTool.CountAfterFilter | scripts/reset_test_data.py:353-362 | a row count after a delete is the earlier count exactly when no counted row was deleted |
| ResetTool.ResetSession.ResetUsers | scripts/reset_test_data.py:275-362 | all or nothing: on success the database is exactly the reset outcome and the count is right; a refusal leaves it as it was and is justified; the user-count refusal happens exactly when an earlier pass removed a selected user |
| ResetSchema.SurvivorsExactly | scripts/reset_test_data.py:318-362 | a row is in the result if and only if it is the detached form of a row with no owner column in the selected users, no deleted organization and no deleted signup |
| ResetSchema.SelectedExactly | scripts/reset_test_data.py:284-300 | the selected users are those whose email is in the list |
| ResetSchema.RowsGoExactly | scripts/reset_test_data.py:318-362 | which rows go, table by table: a membership with its member alone, a user with its key, a signup with its email or owner, an organization if listed or owned, any other row with an owner |
| ResetSchema.CellsAreEmptiedExactly | scripts/reset_test_data.py:326-337 | a reference is emptied exactly when it is a nullable one to a selected user in a column that only records who acted |
| ResetSchema.NothingNamesSelected | scripts/reset_test_data.py:318-362 | afterwards no row anywhere names a selected user as owner or nullable actor, and the selected users and their pending signups are gone |
| ResetSchema.SecondResetFindsNobody | scripts/reset_test_data.py:284-318 | a second reset of the same emails selects no user |
| ResetSchema.DetachingKeepsFate | scripts/reset_test_data.py:326-351 | emptying actor columns first does not change which rows the later passes delete |
| EmailText.NormalIsStable | alembic/versions/055_organization_team_lifecycle_contract.py:21-27 | trimming and lower-casing an email twice is the same as once, so the normal form is its own index key |
| InvitationCleanup.Normalize | alembic/versions/055_organization_team_lifecycle_contract.py:21-27 | the first pass in place: every email trimmed and lower-cased, nothing else changed |
| InvitationCleanup.ExpireOverdue | alembic/versions/055_organization_team_lifecycle_contract.py:29-46 | the second pass in place: exactly the open rows whose expiry has come become expired |
| InvitationCleanup.RankOpen | alembic/versions/055_organization_team_lifecycle_contract.py:52-64 | row_number as a loop: one more than the number of open rows of the group that sort before |
| InvitationCleanup.CancelOlder | alembic/versions/055_organization_team_lifecycle_contract.py:48-74 | the third pass in place: open rows with a rank above one are cancelled, judged on the rows before the update |
| InvitationCleanup.Upgrade | alembic/versions/055_organization_team_lifecycle_contract.py:20-85 | the three passes in place equal the clean-up of the old rows, and the unique index on open rows can be built |
| InvitationCleanup.RowOutcome | alembic/versions/055_organization_team_lifecycle_contract.py:21-74 | what becomes of each row, from the original rows alone: expired, kept as the newest live one of its group, cancelled, or only re-spelled |
| InvitationCleanup.IndexCanBeBuilt | alembic/versions/055_organization_team_lifecycle_contract.py:76-85 | afterwards no two open pending rows share an organization and an email without regard to case |
| InvitationCleanup.GroupKeepsNewest | alembic/versions/055_organization_team_lifecycle_contract.py:48-74 | a group with an unexpired open row keeps exactly one open row, the greatest by (created_at, id) |
| InvitationCleanup.OthersOnlyRespelled | alembic/versions/055_organization_team_lifecycle_contract.py:21-74 | a row outside the open pending set changes in nothing but the case and outer spaces of its email |
| InvitationCleanup.StillNewest | alembic/versions/055_organization_team_lifecycle_contract.py:48-74 | the row left open is the newest live one of the cleaned-up rows too |
| InvitationCleanup.CleanUpIsIdempotent | alembic/versions/055_organization_team_lifecycle_contract.py:20-85 | running the clean-up again at the same moment changes nothing |
| Candidates.SortedIsDescending | scripts/qualify_resume_parser.py:160-163 | the candidates are put in the source's descending order and none is lost or invented |
| Candidates.GreedyIsMatching | scripts/qualify_resume_parser.py:164-171 | no expected and no actual record is chosen twice |
| Candidates.GreedyIsStable | scripts/qualify_resume_parser.py:164-171 | a pair not chosen shares an end with a chosen pair at least as high in the sort order |
| Candidates.OnlyStableMatching | scripts/qualify_resume_parser.py:164-171 | the greedy result is the only matching with that property |
| Candidates.GreedyWithinTwo | scripts/qualify_resume_parser.py:160-171 | any matching of the same pairs has at most twice the total score and at most twice the size |
| Candidates.GreedyCanHalve | scripts/qualify_resume_parser.py:160-171 | the factor two is attained, in total score and in size, by a concrete input |
| RecordMatching.SimilarityInRange | scripts/qualify_resume_parser.py:140-147 | the similarity of two records is in [0, 1] whatever the text similarity is |
| RecordMatching.OmittedFieldIsIgnored | scripts/qualify_resume_parser.py:140-147 | a field the expected record leaves out does not change the score, wherever it stands |
| RecordMatching.SingleFieldDecides | scripts/qualify_resume_parser.py:140-147 | one filled field gives its own similarity |
| RecordMatching.TwoFieldsWeighTheSame | scripts/qualify_resume_parser.py:140-147 | two filled fields give half the sum of their similarities |
| RecordMatching.OneFieldReplaced | scripts/qualify_resume_parser.py:140-147 | replacing one filled field changes the score by that field's difference over the number of filled fields |
| RecordMatching.AgreementScores | scripts/qualify_resume_parser.py:140-147 | an actual record that agrees on every filled field scores 1, and 0 when none is filled |
| RecordMatching.EligibleFrom | scripts/qualify_resume_parser.py:150-159 | with two filled fields a pair may be matched from a similarity of 1.2 in all, with one from 0.6 |
| RecordMatching.AgreementIsEligible | scripts/qualify_resume_parser.py:150-159 | a pair that agrees on the filled fields may be matched if and only if one is filled |
| RecordMatching.FindCandidates | scripts/qualify_resume_parser.py:155-163 | exactly the pairs scoring at least 0.6, each once |
| RecordMatching.KeepFree | scripts/qualify_resume_parser.py:164-171 | the loop with its two sets of used indices computes the greedy matching |
| RecordMatching.MatchRecords | scripts/qualify_resume_parser.py:150-174 | the result is the one unblocked matching of the eligible pairs, within a factor two of every other; omitted and hallucinated are exactly the unused indices; both sides add up |
| RecordMatching.UnblockedIsUnique | scripts/qualify_resume_parser.py:150-174 | every unblocked matching of the eligible pairs has exactly the greedy pairs |
| RecordMatching.MatchingIsUnique | scripts/qualify_resume_parser.py:150-174 | a matching that is unblocked, in descending order, is the one the loop gives: the specification determines the result |
| RecordMatching.FaithfulParseIsMatched | scripts/qualify_resume_parser.py:150-174 | when the parser returns the expected records, identifiable and in order, each is matched with its own copy, however alike some are |
| RecordMatching.GreedyOnEligible | scripts/qualify_resume_parser.py:150-174 | over the eligible pairs the greedy result is unblocked and within a factor two |
| RecordMatching.SidesAddUp | scripts/qualify_resume_parser.py:168-174 | matched plus omitted is the number of expected records, matched plus hallucinated the number of actual ones |
| RecordMatching.DuplicateCount | scripts/qualify_resume_parser.py:177-183 | the count is the number of identified records less the number of distinct identities among them |
| ScoringTotals.RecordingBalances | scripts/qualify_resume_parser.py:260-272 | recording one collection keeps the totals balanced: matched plus omitted is expected, matched plus hallucinated plus repeats is predicted |
| ScoringTotals.PercentageInRange | scripts/qualify_resume_parser.py:341-342 | a share of a total, rounded either way to a nearest hundredth, is in [0, 100] |
| ScoringTotals.ComplementsAddUp | scripts/qualify_resume_parser.py:341-342 | two complementary shares of a non-zero total, each rounded to a nearest hundredth with ties either way, add up to 100 within 0.01, and exactly unless they lie halfway between hundredths |
| ScoringTotals.SumCanMiss | scripts/qualify_resume_parser.py:341-342 | the hundredth is needed: 3 and 3997 of 4000, both rounded down, give 99.99 |
| ScoringTotals.FiguresAreShares | scripts/qualify_resume_parser.py:377-405 | each of the eight figures is within 0.005 of its own numerator over its own denominator, and 100 when the denominator is 0 |
| ScoringTotals.ExtremesAreExact | scripts/qualify_resume_parser.py:341-342 | all is reported as 100 and none of something as 0, whatever the rounding |
| ScoringTotals.FlawlessIsReported | scripts/qualify_resume_parser.py:377-405 | where everything was matched and nothing else predicted, recall, precision and date accuracy are 100, and omission and hallucination 0 if anything was predicted |
| ScoringTotals.CorrectBelowTotal | scripts/qualify_resume_parser.py:380-384 | over any list of fields the correct counts do not exceed the totals |
| ScoringTotals.OverallIsSound | scripts/qualify_resume_parser.py:377-405 | from balanced totals every overall figure is a percentage, and recall plus omission is 100 within 0.01 when something was expected |
| ParserScoring.HitsCoverDistinct | scripts/qualify_resume_parser.py:288-296 | predicted names that hit an expected skill are at least the distinct ones and at most all of them |
| ParserScoring.ValuesMatch | scripts/qualify_resume_parser.py:127-137 | when values match: a value itself, nothing with nothing, a false flag with a missing one, a date with what it begins, a text from a similarity of 0.92 |
| ParserScoring.SameKeyExactly | scripts/qualify_resume_parser.py:177-183 | two records repeat each other exactly when their identity fields read the same |
| ParserScoring.UnsafeImportsCounted | scripts/qualify_resume_parser.py:265-268 | the number of records that import without what they need |
| ParserScoring.EmptyNamesCounted | scripts/qualify_resume_parser.py:313 | the number of empty names |
| ParserScoring.HitsCounted | scripts/qualify_resume_parser.py:308-310 | the number of positions that hold an expected name |
| ParserScoring.Totals.ScoreField | scripts/qualify_resume_parser.py:250-252 | one field comparison raises the field's total, and its correct count exactly when the values match; a failure in it leaves the totals balanced and the record counts as they were |
| ParserScoring.Totals.ScoreProfile | scripts/qualify_resume_parser.py:246-252 | the expected profile fields are compared in order, or a failure stops half-way and leaves the record counts as they were |
| ParserScoring.Totals.ScorePair | scripts/qualify_resume_parser.py:275-293 | each mapped field that the expected record has is compared with its counterpart, or a failure stops half-way |
| ParserScoring.Totals.ScoreMatches | scripts/qualify_resume_parser.py:275-293 | the matched pairs are compared in order, or a failure stops half-way |
| ParserScoring.Totals.RecordCounts | scripts/qualify_resume_parser.py:260-264 | the counters of one collection move by exactly its expected, predicted, matched, omitted and hallucinated numbers and stay balanced |
| ParserScoring.Totals.CountClaims | scripts/qualify_resume_parser.py:265-269 | repeats, claims and unsafe imports are counted, exactly, among records already counted as predicted |
| ParserScoring.Totals.ScoreCollection | scripts/qualify_resume_parser.py:254-293 | a collection that goes through moves every counter exactly as specified, from the one unblocked matching; one that fails has counted all of its records or none, and no other collection's |
| ParserScoring.Totals.ScoreSkills | scripts/qualify_resume_parser.py:295-318 | skills add the distinct expected names, all predicted names, the distinct hits, the repeats of hits, the repeats and the empty names; a failure has counted all of them or none |
| ParserScoring.Totals.ScoreFixture | scripts/qualify_resume_parser.py:239-338 | a scored fixture moves every counter exactly as specified; a failure anywhere, the leak scan included, leaves balanced totals in which each collection of the fixture is counted wholly or not at all |
| ParserScoring.Totals.ScoreCollections | scripts/qualify_resume_parser.py:254-293 | the loop over collections: each is counted wholly or not at all, and all of them exactly when none fails |
| ParserScoring.CollectionStep | scripts/qualify_resume_parser.py:254-293 | scoring one collection settles its part of the fixture and leaves the parts before and after as they were |
| ParserScoring.ScoreAll | scripts/qualify_resume_parser.py:425-451 | over any list of attempts, failing ones included: the totals balance, failures are counted one by one, each collection's counts lie between the sums over the scored attempts and over the parsed ones, equal to both when nothing failed, and then every counter is that of the fixtures scored in turn; each figure of the report is within 0.005 of the share of the totals it stands for, and recall plus omission is 100 within 0.01 |
| ParserScoring.ExactlyTied | scripts/qualify_resume_parser.py:425-451 | when every attempt was scored the counts are exactly the sums over the fixtures |
| ScoringEffects.SkillsComeTo | scripts/qualify_resume_parser.py:295-318 | every counter after the skills, said of the skills: distinct expected names, present predicted ones, distinct names on both sides, positions without an expected name, repeats, empty names |
| ScoringEffects.NamedCounted | scripts/qualify_resume_parser.py:295-301 | what counts as predicted are the skills that name something, each position once |
| ScoringEffects.RecordsComeTo | scripts/qualify_resume_parser.py:254-272 | every counter after the records of a collection, said of the records and the one matching |
| ScoringEffects.CountsAreOfTheDocuments | scripts/qualify_resume_parser.py:254-263 | what a fixture adds to a collection are the records of the two documents; an absent collection adds nothing |
| ScoringEffects.IdentifiedExactly | scripts/qualify_resume_parser.py:177-183 | only records with some non-empty identity field take part in the count of repeats |
| ScoringEffects.PairComesTo | scripts/qualify_resume_parser.py:275-293 | a matched pair adds to each field's metric one comparison if the expected record has the field, and one match if the values match, dates being put together from the record |
| ScoringEffects.MatchesComeTo | scripts/qualify_resume_parser.py:275-293 | the matched pairs of a collection add to each field's metric one comparison per pair whose expected record has the field, and one match per pair in which it is right |
| ScoringEffects.FixtureComparesFields | scripts/qualify_resume_parser.py:254-293 | a scored fixture adds to the metric of a collection's field exactly the comparisons and matches of that collection's pairs |
| ScoringEffects.FixtureComparesProfile | scripts/qualify_resume_parser.py:246-252 | a scored fixture adds to the metric of a profile field one comparison if it is expected, and one match if the parsed value matches |
| ScoringEffects.MetricsDiffer | scripts/qualify_resume_parser.py:279-293 | every field of every collection has a metric of its own |
| ScoringEffects.FieldsDiffer | scripts/qualify_resume_parser.py:41-85 | a field is compared as a date exactly when its name is start, end, issued or expiry, and none comes up twice |
| ScoringEffects.DateMetricsExactly | scripts/qualify_resume_parser.py:377-381 | the metrics that make up date accuracy are those of the date fields |
| FaithfulParses.FixtureStaysFlawless | scripts/qualify_resume_parser.py:239-338 | a fixture parsed faithfully adds no omission, no hallucination and no mismatch |
| FaithfulParses.FaithfulTotals | scripts/qualify_resume_parser.py:425-451 | over any list of fixtures parsed faithfully all that was expected is matched, nothing else is predicted, every compared field matches and nothing fails |
| FaithfulParses.FaithfulParserIsFlawless | scripts/qualify_resume_parser.py:377-451 | such a parser is reported with recall, precision and date accuracy 100 and with omission, hallucination and failure rate 0 |
| PersonRegistry.LookupIsIdentifierTable | alembic/versions/053_hr_organization_person_registry.py:169-211 | the two-stage lookup, column first and identifier table second, equals the identifier table alone |
| PersonRegistry.PrimariesUnique | alembic/versions/053_hr_organization_person_registry.py:243-269 | no two people of one organization share a primary email or phone |
| PersonRegistry.EnsureEffect | alembic/versions/053_hr_organization_person_registry.py:76-112 | the per-person lookup and the per-organization constraint together amount to one keyed write for this person, under the row the person already has or the new key, unless the key is new and of another organization than the person |
| PersonRegistry.ResolveHasEffect | alembic/versions/053_hr_organization_person_registry.py:125-293 | a committed resolution writes one person and the given keys, as that person's, and touches nothing else; a link into another organization is covered if it brings no new email or phone |
| PersonRegistry.ResolveFillsIn | alembic/versions/053_hr_organization_person_registry.py:213-269 | after a committed step user, email, phone and adder are the old ones or, where there was none, the request's; the name is the request's unless empty; relationship and activity are the higher, the date the earlier; the method is how the person was found; a new person is as the request says |
| PersonRegistry.FindsInOrder | alembic/versions/053_hr_organization_person_registry.py:150-211 | a link decides, then the user, then the email, then the phone, each only if the ones before find nobody |
| PersonRegistry.ResolvesExactlyWhen | alembic/versions/053_hr_organization_person_registry.py:76-293 | a request about a person of its organization, or about nobody yet, fails exactly when its user or one of its keys is another person's |
| PersonRegistry.ResolveKeepsConsistent | alembic/versions/053_hr_organization_person_registry.py:125-293 | a committed resolution keeps each primary email and phone an identifier row of the same person, rows at home, and user links unique, unless it brings a new email or phone through a link into another organization |
| PersonRegistry.ConsistentExactlyWhen | alembic/versions/053_hr_organization_person_registry.py:125-293 | the tables stay in agreement if and only if the linked person is of the request's organization or already has a row for each email and phone the request brings |
| PersonRegistry.ResolveAgain | alembic/versions/053_hr_organization_person_registry.py:150-293 | repeating a committed resolution commits, finds the same person if and only if the request carries a link, user, email or phone, and then changes only how the person was resolved |
| PersonRegistry.MergeTwice | alembic/versions/053_hr_organization_person_registry.py:243-269 | merging the same request again changes nothing but the recorded method |
| PersonRegistry.StepGrows | alembic/versions/053_hr_organization_person_registry.py:243-269 | no step takes away an identifier, a linked user, a primary email or phone; relationship and activity only rise and the added date only falls |
| PersonRegistry.EmailFindsItsOwner | alembic/versions/053_hr_organization_person_registry.py:169-211 | a request keyed only by an attached email commits and returns the person it is attached to |
| BackfillRuns.RunIsConsistent | alembic/versions/053_hr_organization_person_registry.py:696-788 | in every state the two loops reach over rows with harmless links, the column and the identifier table agree |
| BackfillRuns.ConsistentExactlyWhenHarmless | alembic/versions/053_hr_organization_person_registry.py:696-788 | over every run that commits: all its prefixes leave the tables in agreement if and only if each cross-organization link it meets brings no email or phone new to the person |
| BackfillRuns.ForeignLinkBreaksTables | alembic/versions/053_hr_organization_person_registry.py:696-788 | two rows are enough: a second one linked to the first, of another organization and with an email of its own, commits and leaves the tables apart |
| BackfillRuns.LinksWithinAreHarmless | alembic/versions/053_hr_organization_person_registry.py:696-788 | when every link stays within its organization all links are harmless, and each row's person is of the row's organization |
| BackfillRuns.RunGrows | alembic/versions/053_hr_organization_person_registry.py:696-788 | a longer run keeps every identifier, link, primary email and phone of a shorter one |
| BackfillRuns.AttachedEmailIsStable | alembic/versions/053_hr_organization_person_registry.py:696-788 | an email attached at any point of the run leads to the same person in every later state |
| BackfillRuns.RunFolds | alembic/versions/053_hr_organization_person_registry.py:243-269 | a person's relationship is the highest-priority contribution, added_at the earliest and last_activity_at the latest, whatever order the rows came in |
| BackfillRuns.RunIdentifies | alembic/versions/053_hr_organization_person_registry.py:243-269 | over every run a person's organization, user, email, phone and adder are those of the first row about it that brought one, none if none did, and its name is that of the last row that had one |
| BackfillRuns.RunStores | alembic/versions/053_hr_organization_person_registry.py:76-112 | over every run the identifier table holds exactly the emails and phones the rows brought, each with the person and the spelling of the last row that brought it |
| BackfillRuns.TopMerges | alembic/versions/053_hr_organization_person_registry.py:63-73 | merging one more relationship into the highest of a set gives the highest of the larger set |
| BackfillRuns.ExtremesMerge | alembic/versions/053_hr_organization_person_registry.py:253-269 | one more row about a person moves the earliest date and the latest activity to those of the longer list |
| PersonBackfill.Backfill.LookUp | alembic/versions/053_hr_organization_person_registry.py:169-211 | the two queries find exactly what the specification's lookup finds |
| PersonBackfill.Backfill.FindPerson | alembic/versions/053_hr_organization_person_registry.py:150-211 | link, linked user, email, phone, in that order |
| PersonBackfill.Backfill.EnsureIdentifierRow | alembic/versions/053_hr_organization_person_registry.py:76-112 | the row is refreshed, inserted, or refused by the unique constraint as specified, wherever the specification's keyed write applies |
| PersonBackfill.Backfill.ResolvePerson | alembic/versions/053_hr_organization_person_registry.py:125-293 | the imperative resolution equals the specified step, errors included, on tables in agreement and a harmless link |
| PersonBackfill.Backfill.ResolveInvitations | alembic/versions/053_hr_organization_person_registry.py:696-732 | the first loop writes each person back to its invitation, and over harmless links it is the run over the invitation rows, errors included |
| PersonBackfill.Backfill.ResolveVerification | alembic/versions/053_hr_organization_person_registry.py:746-788 | one turn of the second loop continues the run over harmless links; a request without an organization is passed over |
| PersonBackfill.Backfill.ResolveVerifications | alembic/versions/053_hr_organization_person_registry.py:734-788 | the second loop completes the run over harmless links, using the links the first loop wrote |
| PersonBackfill.Backfill.ResolveAll | alembic/versions/053_hr_organization_person_registry.py:693-788 | both loops are one run over all rows, or nothing at all when a constraint aborts |
| PersonBackfill.Backfill.FinishPeople | alembic/versions/053_hr_organization_person_registry.py:808-853 | every person's relationship becomes the highest of its own and its employments', and last_activity_at the latest of its own, the updated_at of every row linked to the person, added_at and now; all else is kept |
| PersonBackfill.Backfill.Upgrade | alembic/versions/053_hr_organization_person_registry.py:693-853 | the whole upgrade: all or nothing; after it each person's user, email, phone and adder are those of the first row about it that brought one, its name the last, its relationship the highest of all contributions, added_at the earliest, and last_activity_at the maximum of every contributed activity, the updated_at of every linked invitation, request and employment, added_at and now |
| PersonBackfill.EmploymentsAddNothing | alembic/versions/053_hr_organization_person_registry.py:808-815 | on the links the upgrade writes, a person's employments never raise the relationship: the requests that led to them already contributed it |
| PersonBackfill.PeopleAreFinal | alembic/versions/053_hr_organization_person_registry.py:808-853 | folding the rows, linking employments and finishing, composed, give each person the final values, whatever order the rows came in |
| PersonBackfill.LinkedEmploymentContributes | alembic/versions/053_hr_organization_person_registry.py:790-815 | an employment linked to a person is the employment of some request that led to that person, so its relationship is among the contributions |
| PersonBackfill.MergeAll | alembic/versions/053_hr_organization_person_registry.py:813-815 | merging employments one by one, in any order, gives the highest of them all |
| PersonBackfill.LatestOf | alembic/versions/053_hr_organization_person_registry.py:851 | the maximum of the candidate times |
| PersonBackfill.GroupByEmployment | alembic/versions/053_hr_organization_person_registry.py:790-798 | each employment's set holds exactly the people its requests led to |
| PersonBackfill.KeepSingles | alembic/versions/053_hr_organization_person_registry.py:800-806 | exactly the employments whose set has one element, with that element |
| PersonBackfill.LinkEmployments | alembic/versions/053_hr_organization_person_registry.py:790-806 | an employment is linked to a person if and only if all its requests agree on that one person |
| UpgradeOutcome.UpgradeInSourceTerms | alembic/versions/053_hr_organization_person_registry.py:693-853 | after the upgrade, said of the source tables: an ended employment outranks a running one, employment contract work, any of them an open invitation; dates span what was linked; the first invitation, else the first request, that brought a user, email, phone or adder gave it; the last request, else the last invitation, with a name named the person |
| UpgradeOutcome.RelationshipsEarned | alembic/versions/053_hr_organization_person_registry.py:53-73 | the relationship follows from the employments the person's requests concern and from open invitations |
| UpgradeOutcome.DatesAreSpanned | alembic/versions/053_hr_organization_person_registry.py:808-853 | added_at is the earliest creation, last_activity_at the latest moment of anything linked |
| UpgradeOutcome.FirstRowIsFirstBrought | alembic/versions/053_hr_organization_person_registry.py:243-269 | the first row that brings a value is the first invitation that does, else the first request |
| UpgradeOutcome.IdentifiersAreSpelled | alembic/versions/053_hr_organization_person_registry.py:76-112 | every identifier row comes from an invitation or a request about its person, with its spelling |
| SignupOtp.SignupOtpStore.StoreOtp | app/auth/signup_otp.py:59-61 | the hash is stored under the slot with the configured lifetime; nothing else changes |
| SignupOtp.SignupOtpStore.VerifyAndConsume | app/auth/signup_otp.py:63-78 | true exactly when the live stored hash matches, and then the code is gone; otherwise nothing changes |
| SignupOtp.SignupOtpStore.Clear | app/auth/signup_otp.py:80-83 | the slot's code goes, and the provider state with it for the phone |
| SignupOtp.SignupOtpStore.ClearAll | app/auth/signup_otp.py:85-89 | both codes and the provider state of the session go; the send counters stay |
| SignupOtp.SignupOtpStore.IncrementSends | app/auth/signup_otp.py:125-137 | one atomic count, accepted exactly up to the cap |
| SignupOtp.SignupOtpStore.RetryAfterSeconds | app/auth/signup_otp.py:138-145 | the remaining time of the counter, at least one second |
| SignupOtp.CountersAlwaysExpire | app/auth/signup_otp.py:125-137 | in every history of any number of clients no counter key is without an expiry |
| SignupOtp.HourlyBound | app/auth/signup_otp.py:125-145 | any closed interval of 3600 seconds holds at most twice the cap of accepted sends, whatever the call times |
| SignupOtp.BoundIsAttained | app/auth/signup_otp.py:125-145 | twice the cap is attained for every cap |
| SignupOtp.VerifiesExactly | app/auth/signup_otp.py:63-78 | the waiting code and no other verifies and is then gone; any other attempt leaves every key as it is |
| SignupOtp.ClearsExactly | app/auth/signup_otp.py:80-89 | a cleared slot loses its code and a phone's provider request, a cleared session all of its records, and the send counters stay |
| SignupOtp.RetryAfterSuffices | app/auth/signup_otp.py:138-145 | waiting for the announced time is enough if and only if the remaining time does not round down to the second; half a second more always is |
| SignupOtp.RetryCanBeEarly | app/auth/signup_otp.py:138-145 | a concrete case: a cap of one, two sends 600 milliseconds apart, and the announced 3599 seconds end before the counter does |
| SignupOtp.CodesVerifyOnce | app/auth/signup_otp.py:59-78 | over every history the verifications on a slot never exceed the codes stored on it |
| SignupOtp.VerifiedCodeWasStored | app/auth/signup_otp.py:59-89 | a code that verifies is the last one stored on the slot, still in time, and no clear and no successful verification on the slot came since |
| OAuthStores.OAuthTransactionStore.Create | app/auth/oauth_transactions.py:36-42 | at every moment of the 300 seconds that follow the state reads as its verifier, from then on as nothing, and every other key is as it was |
| OAuthStores.OAuthTransactionStore.ConsumeState | app/auth/oauth_transactions.py:48-56 | a live state gives its verifier once and is gone; anything else gives nothing and changes nothing live |
| OAuthStores.OAuthHandoffStore.Create | app/auth/oauth_transactions.py:64-71 | at every moment of the handoff lifetime that follows the code reads as its payload, from then on as nothing, and every other key is as it was |
| OAuthStores.OAuthHandoffStore.ConsumeHandoff | app/auth/oauth_transactions.py:73-82 | a live code gives its payload once and is gone |
| OAuthStores.CreatedThenConsumedOnce | app/auth/oauth_transactions.py:36-82 | of any two consumers of what was created, the first gets it if it is in time, and the second nothing |
| GoogleSignIn.RunIsValid | app/auth/service.py:711-784 | every interleaving of callbacks and exchanges keeps: each state is spent by one callback, each handoff delivered by one exchange |
| GoogleSignIn.AtMostOncePerState | app/auth/service.py:711-784 | each created state leads to at most one signed-in handoff, and each handoff is delivered at most once |
| GoogleSignIn.DeliveriesBounded | app/auth/service.py:711-784 | in every interleaving token deliveries never exceed the states created |
| GoogleSignIn.StateConsumedInTime | app/auth/oauth_transactions.py:48-56 | a callback gets hold of a state once only, within its lifetime, and afterwards it is gone |
| GoogleSignIn.SignInGoesThrough | app/auth/service.py:711-784 | with anything that others do in between: a state created, consumed by its callback in time and answered, and the handoff exchanged in time, deliver what the callback answered, tokens if and only if the login was complete |
| GoogleSignIn.OthersLeaveIt | app/auth/service.py:711-784 | a waiting state, a callback in flight and a waiting handoff are left as they are by every step about another |
| RefreshSessions.StepKeepsWellFormed | app/auth/service.py:635-684 | each session operation keeps: one owner per family, only the newest token unrevoked, at most one successor per token |
| RefreshSessions.RunKeepsWellFormed | app/auth/service.py:635-684 | the same over every serial run |
| RefreshSessions.DeadForever | app/repositories/refresh_token.py:49-81 | a family without an unrevoked token never gains one |
| RefreshSessions.DeadIsInactive | app/repositories/refresh_token.py:37-47 | such a family is not active for any user at any time |
| RefreshSessions.ReuseEndsFamily | app/auth/service.py:642-645 | presenting a revoked token leaves its family without a live token for good |
| RefreshSessions.LogoutEndsFamily | app/auth/service.py:989-996 | logging out with a live token changes that one row and leaves the family without a live token for good |
| RefreshSessions.RevokingAllEndsFamilies | app/repositories/refresh_token.py:65-70 | revoking a user's tokens ends every family the user has, for good |
| RefreshSessions.IssuedIsActive | app/auth/service.py:1329-1341 | a new sign-in makes exactly its own family active for its own user until it expires; all other standings stay |
| RefreshSessions.RefreshedIsActive | app/auth/service.py:656-672 | a rotation makes the family active on the successor's lifetime, for the same user; all other standings stay |
| PasswordResets.RequestKeepsOneUnused | app/auth/service.py:574-588 | a request keeps at most one unused token per user and only ever spends older ones |
| PasswordResets.SpendKeepsOneUnused | app/repositories/password_reset_token.py:34-49 | using a token spends it and every other token of its user, and un-spends none |
| AccountInvariants.RowTouched | app/auth/service.py:1043-1080 | a session row rewritten in its counters and stamps alone keeps the invariant |
| AccountInvariants.UserPut | app/auth/service.py:830-987 | a user rewritten with the same addresses, stamps only added and a login kept, keeps the invariant |
| AccountInvariants.UserAdded | app/auth/service.py:449-487 | a user with fresh addresses and a password or a link keeps uniqueness, references and logins |
| AccountSteps.LoadKeeps | app/auth/service.py:1145-1156 | deleting an expired session on sight keeps the invariant; otherwise nothing changes and the session is there |
| AccountSteps.PrepareKeeps | app/auth/service.py:1158-1240 | preparing a session, fresh or again, and refusing to, keep the invariant: unique addresses, one kind, no code for a former address |
| AccountSteps.SendChannelKeeps | app/auth/service.py:375-404 | sending a code keeps the invariant: the stored code is for the session's present address |
| AccountSteps.VerifyChannelKeeps | app/auth/service.py:386-411 | verifying keeps the invariant: attempts stay within the limit, stamps are not older than the address |
| AccountSteps.SetGooglePhoneKeeps | app/auth/service.py:417-433 | attaching a phone keeps the invariant: it is unique among sessions and its stamp is dropped |
| AccountSteps.UserCreatedKeeps | app/auth/service.py:449-487 | creating a user from a verified session keeps the invariant: both stamps not older than the addresses, one user per session |
| AccountSteps.CompleteKeeps | app/auth/service.py:435-508 | every outcome of completion keeps the invariant |
| AccountSteps.GoogleCallbackKeeps | app/auth/service.py:735-752 | every outcome of the Google callback keeps the invariant |
| AccountSteps.OAuthCallbackKeeps | app/auth/service.py:820-899 | signing in, auto-linking or creating a user through a provider keeps the invariant |
| AccountSteps.LinkProviderKeeps | app/auth/service.py:929-966 | linking keeps one link per user and provider |
| AccountSteps.UnlinkProviderKeeps | app/auth/service.py:968-987 | unlinking never leaves a user without a password and without a link |
| AccountSteps.AnotherLink | app/auth/service.py:978-982 | a user with two links keeps one of another provider when one provider is unlinked |
| SignupProgress.PrepareProgresses | app/auth/service.py:1158-1240 | a preparation never undoes a completion and is the only way counters are forgotten |
| SignupProgress.SendChannelProgresses | app/auth/service.py:998-1041 | sending a code forgets no attempt and unlocks no channel |
| SignupProgress.CheckCodeOutcomes | app/auth/service.py:1043-1080 | a check stamps the channel, costs it an attempt or leaves the rows alone, and does nothing once the attempts are used up |
| SignupProgress.VerifyChannelProgresses | app/auth/service.py:1043-1143 | verifying forgets no attempt and unlocks no channel |
| SignupProgress.SetGooglePhoneProgresses | app/auth/service.py:417-433 | a new phone forgets no attempt and unlocks no channel |
| SignupProgress.CompleteProgresses | app/auth/service.py:435-508 | completion never replaces a session's user |
| SignupProgress.GoogleCallbackProgresses | app/auth/service.py:786-818 | a Google callback deletes or adds sessions and alters none |
| ServiceRuns.StepKeepsSound | app/auth/service.py:234-996 | every public call, and what administration and time do, keeps the account, session and reset tables sound |
| ServiceRuns.RunKeepsSound | app/auth/service.py:234-996 | the same over every serial run of calls |
| ServiceRuns.RunProgresses | app/auth/service.py:234-996 | over every run each session follows the rules: its kind and user stay, attempts are not forgotten without a preparation, a deleted session is never back |
| ServiceRuns.RunFollows | app/auth/service.py:234-996 | the effect of a run on the refresh tokens is a run of the session operations |
| ServiceRuns.KindNeverChanges | app/auth/service.py:1158-1240 | over every run a session's signup kind never changes |
| ServiceRuns.CompletionIsFinal | app/auth/service.py:435-508 | over every run a set completed user stays that user |
| ServiceRuns.SessionSignsInOneUser | app/auth/service.py:435-508 | once completed, a session signs in that one user only, and completing it again creates nobody, after any run |
| ServiceRuns.CandidatesAreVerified | app/auth/service.py:435-467 | over every run a user created from a candidate session carries both stamps, each not older than the last change of its address, and no other user came from that session |
| ServiceRuns.CodesGoToTheAddress | app/auth/service.py:998-1080 | over every run a stored code of a session without a provider was issued for the present address, and no channel records more failures than allowed |
| ServiceRuns.LockedUntilPrepared | app/auth/service.py:1043-1050 | a channel that has used up its attempts stays unverified over every run without a new preparation of the session |
| ServiceRuns.UsersKeepLogin | app/auth/service.py:820-987 | over every run a user in good standing can sign in, with some password or some linked provider account |
| SessionEnds.DeadStaysOver | app/auth/deps.py:57-70 | after any run no token naming a dead family is honoured and none of its refresh tokens can be used |
| SessionEnds.LogoutEndsSession | app/auth/service.py:989-996 | logging out with a live token ends that session at every later state and changes the standing of no token naming another |
| SessionEnds.ReuseEndsSession | app/auth/service.py:642-645 | presenting a revoked refresh token is refused and ends its session at every later state |
| SessionEnds.ResetEndsSessions | app/auth/service.py:615-633 | a password reset ends every session its user had, at every later state |
| SessionEnds.ResetLeavesOthers | app/auth/service.py:615-633 | a password reset changes the standing of no other user's tokens |
| SessionEnds.ResetSpendsTokens | app/auth/service.py:615-633 | a password reset leaves its user no active reset token, and the ones there never work again |
| SessionEnds.ForgottenCanBeReset | app/auth/service.py:558-633 | a requested token is the user's only live one; within its lifetime it sets the password, which alone then signs in |
| SessionEnds.SignInIsHonoured | app/auth/deps.py:36-81 | a fresh access token is honoured at once and until the access or the refresh lifetime ends, whichever is first |
| SessionEnds.RefreshCarriesOn | app/auth/service.py:635-684 | after a rotation any token naming the session is honoured for its owner on the successor's lifetime, and tokens naming others as before |
| HandedTokens.SignInTokensWork | app/auth/service.py:1329-1354 | the tokens of a sign-in work: the access token is honoured as its user until the access or the refresh lifetime ends, the refresh token refreshes until the refresh lifetime does |
| HandedTokens.RefreshesExactlyWhen | app/auth/service.py:635-655 | a refresh token can be used exactly when it is known, unrevoked, in its lifetime and its owner in good standing; a refusal of one never used changes nothing |
| HandedTokens.RefreshedTokensWork | app/auth/service.py:635-684 | the tokens a refresh answers with work for the old token's user; the old one is refused at any time and ends the session for good |
| HandedTokens.LogsOutExactly | app/auth/service.py:989-996 | logging out revokes a live token and changes nothing else |
| HandedTokens.PasswordHandsOut | app/auth/service.py:530-556 | the right password of a user in good standing hands out tokens that work for that user, any other nothing |
| HandedTokens.CompletionHandsOut | app/auth/service.py:371-415 | completion hands out tokens that work for the user it settles on |
| HandedTokens.ProviderHandsOut | app/auth/service.py:820-899 | a provider's callback hands out tokens that work for the user it settles on |
| HandedTokens.GoogleHandsOut | app/auth/service.py:735-752 | Google's callback hands out tokens exactly when it signs someone in, and they work for that user |
| AccountLaws.PreparedExists | app/auth/service.py:1169-1240 | the session a preparation announces exists afterwards if and only if the one found was not a single lapsed row holding both the email and the phone |
| AccountLaws.StaleSessionReturned | app/auth/service.py:1172-1183 | a concrete case: a lapsed row found both ways is deleted, its id is returned, and the next call does not find it |
| AccountLaws.PreparedRow | app/auth/service.py:1196-1240 | a prepared session is written afresh for the given addresses, but for its provider columns; every other remaining session is as it was |
| AccountLaws.PreparedCodes | app/auth/service.py:1220-1221 | no code sent before is left over for a prepared session |
| AccountLaws.SentCodeVerifies | app/auth/service.py:998-1080 | the code sent, entered in time, verifies the channel and is used up; any other well-shaped code costs one attempt; users, links, other sessions and other codes are as they were |
| AccountLaws.ResendCoolsDown | app/auth/service.py:380-384 | sending again is refused with the exact rest of the cooldown and without effect, and after it goes ahead like a first send |
| AccountLaws.GoogleNeverTakesOver | app/auth/service.py:470-490 | Google's callback touches no user and no link and signs in linked users only; completing a session that came from a provider signs in a new user or nobody |
| AccountLaws.SmsIsRecorded | app/auth/service.py:1082-1104 | a successful send leaves the provider's request on record for the session's phone |
| AccountLaws.SentSmsVerifies | app/auth/service.py:1082-1143 | from the sending of an SMS to the entering of its code in time: the provider's word alone decides; right stamps the phone and ends the request, wrong costs an attempt, an outage costs nothing |
| AccountLaws.SwappedPhoneIsCaught | app/auth/service.py:1117-1130 | with codes checked by the SMS provider a swap of phones is caught: nothing entered verifies the new phone on the strength of a message to the former one |
| AccountLaws.GooglePhoneKeepsCode | app/auth/service.py:417-433 | after a phone is attached, a phone code sent before still waits, and belongs to the session's phone if and only if that phone is unchanged |
| AccountLaws.OldCodeStampsNewPhone | app/auth/service.py:417-433 | so the code sent to the former phone, entered in time, stamps the new phone |
| AccountLaws.PasswordDecidesLogin | app/auth/service.py:530-556 | a usable verified user signs in with the password on record and with no other |
| AccountLaws.CompletedCanLogin | app/auth/service.py:449-467 | a completed signup creates exactly the account asked for, and it signs in with the password given at the start and no other |
| AccountLaws.CompletedUserMatches | app/auth/service.py:470-508 | whoever an open session signs in, created or found, has the session's email and phone; the session is marked and its codes are gone |
| AccountLaws.NewPasswordOnly | app/auth/service.py:901-927 | after set_password, change_password or reset_password the new password signs in and no other does; a refusal leaves everything as it was, and each call refuses exactly when it should |
| AccountLaws.OAuthSettles | app/auth/service.py:820-899 | after a sign-in through a provider the same provider account signs in the same user and changes nothing |
| AccountLaws.UnlinkUndoesLink | app/auth/service.py:968-987 | unlinking what was just linked restores the links, and is refused if and only if the user had no other way in |
| AccountLaws.GoogleSignupSignsIn | app/auth/service.py:476-490 | once a Google signup is complete, the next Google callback of that account signs the new user in |
| AccountLaws.EveryUserCanSignIn | app/auth/service.py:530-556 | the kept invariant means what it says: a usable verified user can sign in with a password or through a provider |
| SignupJourney.StartsExactlyWhen | app/auth/service.py:234-261 | a candidate signup starts exactly when no user has the email or the phone and the sessions met are one open session of this flow or none; a refusal is a conflict and loses lapsed codes alone |
| SignupJourney.OrganizationStartsExactlyWhen | app/auth/service.py:321-345 | the same for an organization signup and its email |
| SignupJourney.StartAsksFor | app/auth/service.py:1196-1240 | the session started has the given email, phone and password, nothing sent, tried or verified, and expires after the pending lifetime |
| SignupJourney.OrganizationStartAsksFor | app/auth/service.py:1196-1240 | the same for an organization signup, without a phone |
| SignupJourney.OpenExactlyUntil | app/auth/service.py:1145-1156 | an unverified session takes part in the signup until it expires and is refused by every call from then on |
| SignupJourney.ExpiredIsDropped | app/auth/service.py:1145-1156 | any call about an expired session that has not made its user drops it with its codes |
| SignupJourney.CompletedSignsInAgain | app/auth/service.py:435-447 | a completed session signs its user in again, however late, while the user is not deleted |
| SignupJourney.StillAsksFor | app/auth/service.py:234-996 | over every run without a new preparation a session keeps its email, password, expiry and kind, and its phone if it did not come from a provider |
| SignupJourney.CompletionMakes | app/auth/service.py:449-467 | completion makes a usable account with the session's addresses and stamps that signs in with the session's password and no other |
| SignupJourney.StartToAccount | app/auth/service.py:234-467 | from the start to the account, whatever is called in between short of starting anew: the account has the email, phone and password given at the start and signs in with that password and no other |
| SignupJourney.OrganizationStartToAccount | app/auth/service.py:321-467 | the same for an organization signup |
| SignupJourney.CompletesExactlyWhen | app/auth/service.py:435-508 | an open session makes a new user exactly when its addresses are verified and unused and its provider account unlinked, falls back on a user with the same addresses if it came from no provider, and otherwise changes nothing |
| CodeOutcomes.SendingComesTo | app/auth/service.py:998-1041 | each outcome of sending: verified channels are left alone, every other send is counted, past the cap and on failed delivery the row stays, a delivered one is recorded; a code whose delivery failed waits all the same |
| CodeOutcomes.ResendingComesTo | app/auth/service.py:380-384 | asking again is refused with the exact rest of the cooldown and without effect, and otherwise is a first send |
| CodeOutcomes.EnteringComesTo | app/auth/service.py:1043-1080 | used-up attempts, malformed codes and verified channels cost nothing and change nothing; a code that is not waiting costs an attempt |
| CodeOutcomes.ProviderEntryComesTo | app/auth/service.py:1106-1143 | each outcome of a code the SMS provider checks: no request, an unusable one, one for another phone, and the provider's three answers |
| Standing.GuardLetsInExactly | app/auth/deps.py:36-81 | the guard lets in exactly a live access token for a user in good standing with a live session of that user |
| Standing.PasswordLetsInExactly | app/auth/service.py:530-556 | a password signs in exactly the user in good standing who has the email and that password; only an unverified or disabled user with the right password is told so |
| Standing.GoogleLetsInExactly | app/auth/service.py:735-818 | when Google's callback signs in, refuses, asks for linking, resumes a session or fails |
| Standing.GoogleStarts | app/auth/service.py:786-818 | a new Google signup is a session for that account with its email verified and its phone to come; only a lapsed session of the same email is gone |
| Standing.LinkedLetsInExactly | app/auth/service.py:850-860 | a linked provider account signs its user in if enabled and not deleted, and changes nothing |
| Standing.EmailIsLinkedExactly | app/auth/service.py:861-892 | an account not linked yet is linked to the enabled user with its email who has none of that provider, and vouches for the email |
| Standing.NewcomerIsMade | app/auth/service.py:861-892 | where nobody has the email a user is made who can sign in through the provider only |
| Standing.BarredIsLockedOut | app/auth/service.py:530-684 | a disabled or deleted user is let in by no token, refresh, password, provider or reset, and gets no reset token |
| Standing.BarredStaysOut | app/auth/service.py:234-996 | and so over every run until enabled again; a deleted one for good |
| Standing.BarringIsAimed | app/auth/deps.py:57-70 | disabling and deleting bar that user and nobody else |
| AccountEdits.PasswordEditsExactly | app/auth/service.py:901-927 | set_password and change_password go through exactly for a user without a password, or with the present one given, and change that password alone |
| AccountEdits.LinksExactlyWhen | app/auth/service.py:929-966 | linking goes through exactly for a user not deleted without that provider and an account nobody has, never for Google |
| AccountEdits.UnlinksExactlyWhen | app/auth/service.py:968-987 | unlinking takes the accounts of that provider and no other, exactly when a password or another provider is left |
| AccountEdits.TakesPhoneExactlyWhen | app/auth/service.py:417-433 | a phone is given exactly to an open Google signup with a verified email when no user and no other session has it, and changes the phone and its stamp alone |
| AccountEdits.ForgottenExactly | app/auth/service.py:558-613 | a reset token is made for the user in good standing who has the email and for nobody else |
| AccountEdits.ResetsExactlyWhen | app/auth/service.py:615-633 | a reset goes through exactly with an unused token in its lifetime of an enabled user, and a refusal changes nothing |
| AccountEdits.ReuseLeavesOthers | app/auth/service.py:642-645 | presenting a revoked token ends no other session |
| AccountEdits.OthersAreSignedOut | app/repositories/refresh_token.py:72-81 | signing out everywhere else ends every other session of the user for good, keeps the asking one and touches nobody else's |
| AccountEdits.AllAreSignedOut | app/repositories/refresh_token.py:65-70 | revoking everything of a user ends all that user's sessions for good and touches nobody else's |
| SessionIsolation.StoreIsAimed | app/auth/signup_otp.py:59-137 | every step of the code store touches the keys of its own session only |
| SessionIsolation.CallsAreAimed | app/auth/service.py:347-508 | sending, verifying, giving a phone and completing leave the rows, codes, counters and provider requests of every other session alone |
| ServiceSends.SendsAreBounded | app/auth/service.py:998-1041 | over every run of the service, any interval of 3600 seconds sees at most twice the cap of codes handed over for delivery per session and channel |
| ServiceSends.CallKeepsBound | app/auth/service.py:998-1041 | every call keeps the counter's bound; only sending moves the counter, and a delivery is a counted, accepted send |
| ServiceSends.SendCounts | app/auth/service.py:1012-1013 | a sending call counts at most once, on its own slot, and delivers only what the cap accepts |
| CodeAddresses.SetGooglePhoneExactly | app/auth/service.py:417-433 | attaching a phone leaves every waiting code at its session's address if and only if it does not replace another phone under a waiting code |
| CodeAddresses.CallMatchesExactly | app/auth/service.py:234-996 | every call leaves every waiting code at its session's address, if and only if it is not such a swap |
| CodeAddresses.CodesMatchExactlyWhen | app/auth/service.py:417-433 | over every run, for sessions of any origin: every waiting code is for its session's address at every moment if and only if no call replaces a phone under a waiting code |
| CodeAddresses.StampComesFromCode | app/auth/service.py:1043-1080 | a channel gets its stamp from the live code of its slot, and the stamp is for the address that code was issued to exactly when the code is still for the session's address |
| CodeAddresses.UnseenPhoneVerified | app/auth/service.py:417-467 | a concrete run from an empty service: a Google signup, a code to one phone, another phone, that code, completion; the new user carries the other phone as verified, and no code was ever issued to it |
| CodeHistories.CallEvents | app/auth/service.py:234-996 | each call moves the stored codes, counters and provider requests as some events of the code store at that moment do, and only a sending call stores a code |
| CodeHistories.RunHasHistory | app/auth/service.py:234-996 | every run of the service leaves the store as some chronological history of it does, in which every stored code was sent by a call |
| CodeHistories.StampedCodeWasSent | app/auth/service.py:998-1080 | over every run: a stamp comes from a code that a call sent to this session on this channel, still in time, with none stored, cleared or used there since |
| LastingLaws.OtherFlowNeverServed | app/auth/service.py:1310-1312 | over every run no call of the other signup flow is ever served with a session: none sends, stamps, completes or rewrites, and while the session is open each is a conflict that changes nothing |
| LastingLaws.LinkLasts | app/auth/service.py:929-987 | over every run a provider account stays linked to its user until that provider of that user is unlinked |
| LastingLaws.LinkedSignsInAfter | app/auth/service.py:820-966 | once linked, and until unlinked, the provider account signs in that user and nobody else, whatever email it reports, after any run; a user disabled or deleted meanwhile is refused |
| Authentication.AuthService.StartSignup | app/auth/service.py:234-261 | equals the specified call on the whole state and keeps it sound |
| Authentication.AuthService.StartOrganizationSignup | app/auth/service.py:321-345 | equals the specified call on the whole state and keeps it sound |
| Authentication.AuthService.GetOrPrepare | app/auth/service.py:1158-1240 | lookups, deletion of lapsed rows, refusals and the row written, with rollback, equal the specified preparation |
| Authentication.AuthService.FindOpenRows | app/auth/service.py:1168-1187 | the rows left in hand, the remaining rows and the cleared codes are as specified |
| Authentication.AuthService.SendChannel | app/auth/service.py:347-404 | equals the specified sending call on the whole state and keeps it sound |
| Authentication.AuthService.SendCode | app/auth/service.py:998-1041 | rate limit, code or provider request stored, counters raised, as specified |
| Authentication.AuthService.VerifyChannel | app/auth/service.py:358-411 | equals the specified verifying call on the whole state and keeps it sound |
| Authentication.AuthService.CheckCode | app/auth/service.py:1043-1080 | attempt limit, shape, already verified, then the stored code or the provider, as specified |
| Authentication.AuthService.CheckWithProvider | app/auth/service.py:1106-1143 | the provider branch with its four refusals, as specified |
| Authentication.AuthService.SetGooglePhone | app/auth/service.py:417-433 | equals the specified call on the whole state and keeps it sound |
| Authentication.AuthService.CompleteSignup | app/auth/service.py:371-415 | equals the specified completion on the whole state, tokens included, and keeps it sound |
| Authentication.AuthService.SettleUser | app/auth/service.py:435-508 | the user completion settles on, created, found or refused, as specified |
| Authentication.AuthService.CreateUser | app/auth/service.py:449-490 | the user, the provider link and the completed session written step by step, as specified |
| Authentication.AuthService.Login | app/auth/service.py:530-556 | equals the specified login, tokens included, and keeps the state sound |
| Authentication.AuthService.Refresh | app/auth/service.py:635-684 | equals the specified rotation with reuse detection and keeps the state sound |
| Authentication.AuthService.Logout | app/auth/service.py:989-996 | equals the specified logout and keeps the state sound |
| Authentication.AuthService.CurrentUser | app/auth/deps.py:36-81 | the chain of guards equals the specified one |
| Authentication.AuthService.ForgotPassword | app/auth/service.py:558-613 | equals the specified request and keeps the state sound |
| Authentication.AuthService.ResetPassword | app/auth/service.py:615-633 | equals the specified reset on users, tokens and sessions and keeps the state sound |
| Authentication.AuthService.SetPassword | app/auth/service.py:901-912 | equals the specified call and keeps the state sound |
| Authentication.AuthService.ChangePassword | app/auth/service.py:914-927 | equals the specified call and keeps the state sound |
| Authentication.AuthService.LinkProvider | app/auth/service.py:929-966 | equals the specified call and keeps the state sound |
| Authentication.AuthService.UnlinkProvider | app/auth/service.py:968-987 | deleting the one link equals removing every link of that provider, as specified, and keeps the state sound |
| Authentication.AuthService.OAuthCallback | app/auth/service.py:820-899 | equals the specified callback, tokens included, and keeps the state sound |
| Authentication.AuthService.FindOrCreateUser | app/auth/service.py:850-892 | sign in through a link, link by email, or create, with rollback on refusal, as specified |
| Authentication.AuthService.GoogleCallback | app/auth/service.py:735-752 | equals the specified callback, tokens included, and keeps the state sound |
| Authentication.AuthService.GoogleOutcome | app/auth/service.py:735-818 | the four outcomes and the pending row of a Google signup, as specified |
| Authentication.AuthService.IssueTokens | app/auth/service.py:1329-1354 | a new family for the user and the pair of tokens naming it |

## Left out

- Database cascades in the reset tool: only the rows its own statements delete or update are modelled.
- Dry-run counts and storage-object collection of the reset tool: the source does not make them agree with the deletes.
- Confirmation, mode and environment checks of the reset tool: single branches.
- ParserScoring.ScoreAll: models the totals and overall figures, not the count of banned values that leak, the per-field report lists or the output file.
- Text similarity and Unicode normalisation in the resume comparison: an arbitrary similarity in [0, 1] and an arbitrary normal form.
- Normalisers of emails and phones in the person registry: requests carry normalised values; raw values are kept beside them.
- Status summaries, trust state and passport status of the person registry: small tables over one row.
- EmailText.NormalIsStable: lower-casing covers the letters A to Z; other letters are left as they are.
- Password re-hashing on login, names, slugs, roles, masks and response texts: they decide nothing.
- Reset links and portal addresses, and the failure of the reset email, which the source only logs.
- MSG91 replies: reduced to a request id, or right, wrong and down; a resend with the earlier request id is a send.
- The shape of a code: six ASCII digits after trimming by the caller; other Unicode digits are not modelled.
- Composite calls (verify and complete in one, the aliases of start and resend): sequences of the modelled calls.
- The read-only recovery view of a signup session.
- Accounts.SoftDelete: models the deletion mark alone; account deletion elsewhere in the application also replaces the addresses and drops the password, and profile changes of the phone are not modelled either.
- The creation of users by administrators, and hard deletion of users and of expired token rows: nothing in the authentication service calls it.
- Interleaved refreshes of one token: each service call is one serial transaction.
- ServiceRuns.LockedUntilPrepared: does not cover a session that is deleted meanwhile; a deleted session never comes back under its id.
