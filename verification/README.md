# Verified model of the Grafana Cloud Org Insights core

The repository scans every stack of a Grafana Cloud organisation, publishes what it finds, and ships the tools
that pin a consumer to one immutable revision and manage the platform's own alert rules. This project models the
logic in which a mistake would be silent: the crash-safe upgrade of a consumer, the digests that bind an image to
its configuration, the publisher that writes into an alert-rule store shared with other teams, and the gate that
decides what a scan may publish. Everything is proved for all inputs, all runs and all histories the statements
range over.

| file | what it covers |
|---|---|
| `Optional.dfy`, `Sums.dfy` | an optional value; sums over finite maps |
| `Ordering.dfy` | strict total orders, Python's order on strings and tuples, sorted enumeration of a set |
| `MetricProjection.dfy` | `project_metric_domains`: bounding labels and summing collisions |
| `Coverage.dfy` | the `Coverage` object and every history of its record calls |
| `SourceHealth.dfy` | per-source reports, health floors, the split of accepted and withheld inputs |
| `Publication.dfy` | a scan run against its stores: side-writes, refusals, writes, exit codes, sequences of runs |
| `RevisionLens.dfy` | reading and replacing the pinned revision in a Terraform text, with the pattern matcher |
| `NormalForm.dfy` | filling, pruning, digests and regeneration of a consumer manifest |
| `UpgradeJournal.dfy` | the undo journal, recovery, and histories of upgrade, regenerate and check |
| `AlertRules.dfy` | preflight, publish, title migration and the command-line modes of the alert publisher |
| `PersistedSubset.dfy` | the read-back check on published dashboards |
| `DpmPricing.dfy` | per-stack pricing with included data points per minute |

`dafny verify dfyconfig.toml` checks the whole project.

## How failures are modelled

A file write is one step with five endings: done, an `OSError` before the effect, an `OSError` after it (the directory
fsync follows the rename), and a process death on either side of the effect. These are exactly the endings of the
calls `atomic_write_text` makes (`UpgradeJournal.WriteEndsAsFault`, `UpgradeJournal.EveryFaultHappens`), and the
upgrade over system calls is the upgrade over endings (`UpgradeJournal.UpgradeByCalls`,
`UpgradeJournal.EveryUpgradeHappens`). Files are read in text mode, which turns every line ending into a line feed. A
request to the rule store is acknowledged, applied but answered with an error, not applied, or breaks the connection,
applied or not, which ends the loop that sent it. In a scan run the envelope, the carry state and the billing history
can raise before or after their effect, the views can be written in part, a push can store all, some or nothing of its
batch and either be survived or raise, and the gap stamps can fail to be read or to be stored without anyone noticing.
The theorems about each protocol quantify over all endings of the steps of that protocol.

Objects that the source updates in place are classes (`Coverage`, `TargetFile`, `Workspace`, `RuleStore`,
`PublicationStore`); each method is proved to compute a function of the old state, and the theorems are about those
functions.

## Where the code does not keep a promise, exactly

- **The upgrade's unprotected window.** When the directory fsync after the final unlink of the journal fails
  (bin/consumer_manifest.py:1253), the journal is already gone while the rollback runs.
  `UpgradeJournal.UpgradeIsAtomic` states that an upgrade is all-or-nothing or undoable if and only if the run is
  not one in which that fsync failed and the rollback put back just one of the two files (or one of the two texts
  does not change). `UpgradeJournal.SplitRollbackWitness` is such a run. The upgrade never compares the two pins
  before it writes, so an admitted upgrade without faults heals the split pair, as it does every pair
  (`UpgradeJournal.UpgradeFromAnyDisk`); the same upgrade run again ends with exactly the files it was going to
  write (`UpgradeJournal.UpgradeConverges`).
- **Line endings.** Recovery restores both texts, and the files byte for byte if and only if neither had a carriage
  return: they are read in text mode before they are put into the journal (`UpgradeJournal.UndoneByteForByte`).
- **Stray temporary files.** A write that raises removes its temporary file, except when writing that file raised
  or removing it did (`UpgradeJournal.StrayTemporaries`).
- **Repeated rule uids.** The preflight compares expected uids after adoption, so two rules configured with one uid
  pass while one of them is adopted under its live uid. A re-run passes after every interruption if and only if no
  adopted rule shares its configured uid with a plain one (`AlertRules.RerunAlwaysPasses`; for one given
  interruption, `AlertRules.RerunPasses`). `AlertRules.SharedUidWitness` is a deployment in which it does not.
- **The age of a credential gap.** The stamps are read and written without checking that it worked, so a gap keeps
  the stamp of its first sighting if and only if that sighting was stored and no later update stored its stamps
  after a failed read (`Publication.GapKeepsFirstStamp`). One failed read resets the age
  (`Publication.OneFailedReadLosesTheStamp`).
- **Pruning a one-sided shared key.** `NormalForm.PruningPreservesMeaning` gives the exact condition under which
  pruning changes no digest. A key carried by one projection only breaks it
  (`NormalForm.OneSidedKeyChangesMeaning`); a manifest that validates always meets it (`NormalForm.ValidIsSafe`).
  For the same reason regenerating with pruning accepts manifests that plain regenerating refuses
  (`NormalForm.PruningAcceptsMore`); `NormalForm.PruneVariantsAgree` says exactly which.
- **History before the rate card.** The billing history is written before the rate card is read, so an unreadable
  card ends the run with code 2 after that write (`Publication.HistoryOnlyWhenAdmitted`,
  `Publication.HistoryBeforeCardWitness`).
- **Text that disagrees with the code.** After a plain publish the tool says that new rules are unrouted
  (bin/alerts.py:888-895); with a receiver given they are routed to it, which is what the model does.

Two remarks in the source hold less generally than they read. The last coverage check (scan.py:2190-2193) returns 1
after everything was published, for a run that comes to its end, if and only if no stack was scannable and more than
a tenth of the estate failed (`Publication.RefusalPublishesNothing`). The gate alone allows that
(`Publication.LateRefusalWitness`, `CoverageAccounting.TwoRecordsBreakTheBound`), but it needs a stack that was both
skipped and failed, and all tiers record a stack at most once (`CoverageAccounting.OneRecordPerStack`). A comment in
bin/dashboards.py (783-785) says that summing before taking the maximum would overstate the saving; it can overstate
it and it can lose it (`DpmPricing.SummingFirstMisstates`).

## Assumptions

- `NormalForm.WellFormed` lists what the module's tables guarantee: the name prefix is a required key, the label
  marker has a default, a key both projections carry has one default for both sides or none and is compared by
  `validate`, and additive aws keys default to what their absence means.
- `AlertRules.WellFormed` lists what the rule tables guarantee: titles are pairwise different, no title or uid is
  empty, old and new titles of the rename table are pairwise different and disjoint. A receiver is not all blanks.
- SHA-256 over canonical JSON is an arbitrary function of what it covers; the manifest's JSON text is read back as
  the value it was written from, and contains no carriage return. Files are UTF-8 on a system whose line ending is
  the line feed.
- One process works on a deployment at a time, and no one else edits our rules during a publish.
- Metric values are exact reals. Ratios against the 0.10 and 0.80 floors are compared exactly.

## Model

| member | source | states |
|---|---|---|
| UpgradeJournal.UpgradeIsAtomic | bin/consumer_manifest.py:1231-1270 | Whatever write fails or dies at whatever point, the pair reads as original or target without a journal, or is undoable with one; this holds if and only if the run is not a split rollback in the window after the unlink (or one text does not change) |
| UpgradeJournal.ProtectedRollback | bin/consumer_manifest.py:1254-1270 | While the journal is there, a rollback that fails or dies anywhere stays undoable |
| UpgradeJournal.UnprotectedRollback | bin/consumer_manifest.py:1252-1270 | Without the journal, a rollback from the targets is atomic exactly when both files or neither are put back |
| UpgradeJournal.CompletedRollbackRestores | bin/consumer_manifest.py:1254-1270 | A completed rollback restores both original texts and leaves no journal, in the unprotected window too |
| UpgradeJournal.SplitRollbackWitness | bin/consumer_manifest.py:1252-1262 | A concrete failed fsync and crash that leave one file at each revision and no journal |
| UpgradeJournal.UpgradeReturns | bin/consumer_manifest.py:1248-1253 | An upgrade returns exactly when all four writes did, with both targets written and no journal |
| UpgradeJournal.RecoveryStep | bin/consumer_manifest.py:428-458 | One recovery attempt, interrupted anywhere, is finished or leaves the same usable journal; without faults it finishes |
| UpgradeJournal.FirstCompletedRecovery | bin/consumer_manifest.py:428-458 | After any number of interrupted attempts the first that returns has written both original texts and removed the journal |
| UpgradeJournal.FaultFreeAttemptCompletes | bin/consumer_manifest.py:428-458 | One recovery attempt that meets no fault is enough to restore both texts and remove the journal, whatever faults the attempts before it met |
| UpgradeJournal.UndoneByteForByte | bin/consumer_manifest.py:1231-1246 | An interrupted upgrade that is undone leaves both files as they were read, and byte for byte as they were if and only if neither had a carriage return |
| UpgradeJournal.LineEndings | bin/consumer_manifest.py:444-445 | Reading in text mode takes one line at a time: a line feed, a carriage return and the two together all become one line feed, at the end of the file too |
| UpgradeJournal.RecoveryRefuses | bin/consumer_manifest.py:432-450 | Recovery refuses exactly the journals it cannot use (unreadable, other paths, a third text) and then changes nothing |
| UpgradeJournal.PlanAgrees | bin/consumer_manifest.py:1229-1247 | The two target texts of an upgrade pin the requested revision, in the manifest and in Terraform, and all four texts of its journal read back as they are written (`PlainBody`, which the theorems about the writes rest on) |
| UpgradeJournal.CommandKeepsConsistent | bin/consumer_manifest.py:1041-1097 | Upgrade, regenerate and check each keep the pins consistent, or a usable journal whose two sides agree |
| UpgradeJournal.PinsAgreeOverHistories | bin/consumer_manifest.py:420-425 | Over every history of commands with failures and crashes outside the window, both files pin one revision whenever no journal exists |
| UpgradeJournal.UpgradeFromAnyDisk | bin/consumer_manifest.py:1197-1272 | From every disk, whatever its pins and however it came about, an upgrade without faults refuses exactly when its arguments or the journal are unusable or there is no plan, and otherwise puts both files at its revision |
| UpgradeJournal.UpgradeSucceeds | bin/consumer_manifest.py:1197-1272 | An upgrade without faults succeeds if and only if its arguments pass, a journal that is there is usable, the manifest at the new revision satisfies the module, and the Terraform file pins exactly one revision |
| UpgradeJournal.UpgradeConverges | bin/consumer_manifest.py:1197-1272 | Wherever an upgrade failed or died, in the unprotected window too, running it again without faults and with its checks passing ends with exactly the two files it was going to write |
| UpgradeJournal.UpgradeWritesOnly | bin/consumer_manifest.py:1212-1253 | An upgrade that returns has written the manifest with the requested revision, the two added seams and nothing else changed, digests taken over that, and the Terraform text with the forty characters changed |
| UpgradeJournal.RegenerationWritesOnly | bin/consumer_manifest.py:1088-1097 | A regeneration that returns keeps the revision and the Terraform file, adds the two seams, and with pruning drops the defaults |
| UpgradeJournal.RegenerationSucceeds | bin/consumer_manifest.py:1088-1097 | A regeneration without pruning returns if and only if no journal is there, the manifest satisfies the module and the write meets no fault |
| UpgradeJournal.CheckVerdict | bin/consumer_manifest.py:1041-1085 | A check writes nothing, and given the deployment it passes only when both files pin one revision |
| UpgradeJournal.UpgradeStages | bin/consumer_manifest.py:1248-1253 | The files after a death behind each of the four writes: journal, Terraform, manifest, unlink |
| UpgradeJournal.WriteEndsAsFault | bin/consumer_manifest.py:388-406 | Whatever its calls do, an atomic write leaves the whole new text or the old content, and returns only when it is done |
| UpgradeJournal.EveryFaultHappens | bin/consumer_manifest.py:388-406 | Each of the five endings happens, an error after the effect among them |
| UpgradeJournal.StrayTemporaries | bin/consumer_manifest.py:392-406 | A write that ends leaves its temporary file behind exactly when writing that file raised or the clean-up of a failed write did, and then it reports a failure |
| UpgradeJournal.UpgradeByCalls | bin/consumer_manifest.py:1248-1270 | An upgrade made of system calls, whatever they do, is the upgrade made of writes and their endings |
| UpgradeJournal.EveryUpgradeHappens | bin/consumer_manifest.py:1248-1270 | Every combination of endings comes from some system calls |
| UpgradeJournal.UpgradeTemporaries | bin/consumer_manifest.py:1248-1270 | An upgrade that ends has left a temporary file exactly when one of the writes it made did, and one that returns never has |
| UpgradeJournal.TargetFile.Replace | bin/consumer_manifest.py:388-406 | The calls in their order with the `finally` block compute the write function for every ending of every call |
| UpgradeJournal.Workspace.Recover | bin/consumer_manifest.py:428-458 | The recovery steps with their early refusals compute the recovery function for every fault |
| UpgradeJournal.Workspace.Write | bin/consumer_manifest.py:1248-1270 | The four writes with the exception handler compute the upgrade function for every fault |
| UpgradeJournal.Workspace.Run | bin/consumer_manifest.py:1041-1272 | The three commands with their refusals compute the command function; a check compares the pins when it is given the deployment |
| RevisionLens.MatchIsSource | bin/consumer_manifest.py:47-51 | What the matcher finds is a word of the pattern's language |
| RevisionLens.SourceIsMatch | bin/consumer_manifest.py:47-51 | Every word of the pattern's language is matched where it stands, with a unique extent |
| RevisionLens.NoOverlap | bin/consumer_manifest.py:47-51 | No match starts inside another |
| RevisionLens.FindAllComplete | bin/consumer_manifest.py:527-530 | The left-to-right scan finds every match |
| RevisionLens.RepinsKeepsMatches | bin/consumer_manifest.py:1034-1038 | Changing revisions inside matches creates, destroys and moves no match, in any text |
| RevisionLens.RefusalsAgree | bin/consumer_manifest.py:522-530 | Reading and replacing refuse exactly the same texts |
| RevisionLens.ReadMeans | bin/consumer_manifest.py:522-530 | Reading gives a revision if and only if one module source stands in the text, at one place, and is pinned there |
| RevisionLens.ReadAfterReplace | bin/consumer_manifest.py:1034-1038 | Reading after replacing gives the new revision |
| RevisionLens.ReplaceWithCurrent | bin/consumer_manifest.py:1034-1038 | Replacing with the current revision changes nothing |
| RevisionLens.ReplaceTwice | bin/consumer_manifest.py:1034-1038 | Of two replacements the last one counts |
| RevisionLens.ReplaceFrame | bin/consumer_manifest.py:1034-1038 | Only the forty characters of the revision change in the text as read |
| RevisionLens.ModuleSourceIsSeparable | bin/consumer_manifest.py:47-51 | The repository's own pattern has the property the laws rest on |
| RevisionLens.SpacesByCode | bin/consumer_manifest.py:47-51 | The white space of the pattern by code points |
| RevisionLens.ModuleSourceText | bin/consumer_manifest.py:47-51 | The pattern read off: its two literals, forty lowercase hexadecimal digits, ASCII white space in the gaps |
| RevisionLens.PinLens | bin/consumer_manifest.py:522-530 | The lens laws for the repository's own pattern |
| NormalForm.Fill | bin/consumer_manifest.py:843-868 | The fill loop gives the effective manifest for every iteration order of the defaults |
| NormalForm.EffectiveAddsDefaultsOnly | bin/consumer_manifest.py:823-832 | Filling changes no key, adds only default renders, and leaves the three deliberate omissions out |
| NormalForm.EffectiveIsComplete | bin/consumer_manifest.py:849-868 | Exactly which keys the filled manifest has: those of the file, and every other with a default but the three omissions |
| NormalForm.TemplateIsFilled | bin/consumer_manifest.py:816-820 | A default made of template-free parts joined by `{name_prefix}` is filled with the parts joined by the manifest's prefix |
| NormalForm.OneTemplateIsFilled | bin/consumer_manifest.py:816-820 | A default with one `{name_prefix}` between two template-free parts is filled with the prefix between them |
| NormalForm.TemplateStaysOut | bin/consumer_manifest.py:816-820 | Without a usable prefix such a default stays omitted, unless it holds no template |
| NormalForm.PlainDefaultIsFilled | bin/consumer_manifest.py:849-854 | A default that is no string is filled as it is |
| NormalForm.EffectiveIdempotent | bin/consumer_manifest.py:823-868 | Filling twice is filling once |
| NormalForm.PrunedKeeps | bin/consumer_manifest.py:905-915 | Pruning changes no key, drops only default renders, and keeps adopted names, additive flags and the label group's presence |
| NormalForm.PrunedDropsDefaults | bin/consumer_manifest.py:905-937 | Key by key what pruning leaves of each section: every default-equal key goes but additive flags, one label marker and adopted names, and no other does |
| NormalForm.PruningPreservesMeaning | bin/consumer_manifest.py:905-937 | Pruning leaves the digested content unchanged if and only if the shared keys are safe and no null stands at an unresolved template |
| NormalForm.PruningKeepsDigests | bin/consumer_manifest.py:88-104 | Safe pruning changes no digest, whatever the hash |
| NormalForm.DigestsBind | bin/consumer_manifest.py:80-104 | With a hash without collisions, equal overlay digests mean equal schema, policy, effective runtime and aws values, up to additive keys at their defaults |
| NormalForm.ProjectionsBind | bin/consumer_manifest.py:94-104 | With a hash without collisions, the recorded projection digests are those of the four effective environments, each under its own kind, and no others |
| NormalForm.PrunedIdempotent | bin/consumer_manifest.py:905-937 | Whatever the manifest, pruning twice is pruning once |
| NormalForm.PrunedIsSafe | bin/consumer_manifest.py:905-937 | A pruned manifest is safe to prune, also when pruning changed the meaning of the original |
| NormalForm.PrunedIsDefined | bin/consumer_manifest.py:933-936 | With a default for the label marker, pruning never meets the missing key |
| NormalForm.OneSidedKeyChangesMeaning | bin/consumer_manifest.py:828-830 | A shared key on one side only, at its default, makes pruning change the digested content |
| NormalForm.NoDefaultChanges | bin/consumer_manifest.py:893-902 | The report of changed defaults is empty if and only if both revisions give one effective manifest, and then all digests agree |
| NormalForm.DefaultChangeNames | bin/consumer_manifest.py:893-902 | The report names exactly the keys whose effective values differ |
| NormalForm.PreparedAddsOnly | bin/consumer_manifest.py:340-355 | Regeneration adds only the product reads with the provisioner's value and label defaults |
| NormalForm.RegenerateAddsSeams | bin/consumer_manifest.py:336-373 | Regenerating changes the two seams and the digests only |
| NormalForm.RegenerateDropsDefaults | bin/consumer_manifest.py:336-373 | With pruning it adds the same seams and then drops the defaults |
| NormalForm.RegenerateSucceeds | bin/consumer_manifest.py:336-373 | Regenerating succeeds if and only if the compared keys agree, what is adopted is named in the file, and the other rules accept the effective overlay |
| NormalForm.ValidIsSafe | bin/consumer_manifest.py:264-271 | A manifest that validates is safe to prune |
| NormalForm.EditsAreDetected | bin/consumer_manifest.py:324-333 | With hashes without collisions, an edited manifest that keeps its recorded digests validates only when schema, policy, effective runtime and bound aws values are what they were |
| NormalForm.RegenerateIdempotent | bin/consumer_manifest.py:336-373 | Regenerating twice is regenerating once |
| NormalForm.RegeneratePrunedIdempotent | bin/consumer_manifest.py:336-373 | Regenerating with pruning twice is doing it once, for every manifest it accepts |
| NormalForm.PruneVariantsAgree | bin/consumer_manifest.py:364-373 | Regenerating succeeds if and only if regenerating with pruning does, the effective manifest is safe to prune and the file names what it adopts; both record the same digests |
| NormalForm.PruningAcceptsMore | bin/consumer_manifest.py:364-373 | A manifest with a one-sided key that regenerating refuses and regenerating with pruning accepts |
| NormalForm.RegenerateKeepsSource | bin/consumer_manifest.py:336-373 | Regenerating keeps the pinned source |
| AlertRules.PreflightMeans | bin/alerts.py:499-690 | Exactly which live states a publish does not refuse, rule by rule, without the indexes |
| AlertRules.OnlyMigratedTitlesAreAdopted | bin/alerts.py:645-687 | A rule with a spec's title at another uid passes only when the rename table gives that title and the spec's own uid does not exist |
| AlertRules.OthersUntouched | bin/alerts.py:642-690 | A publish creates or changes rules of our folder and group only |
| AlertRules.IndexableAfter | bin/alerts.py:499-552 | After any subset of the writes the live state still indexes: known pause and routing, unique titles |
| AlertRules.RerunPasses | bin/alerts.py:642-689 | After any subset of the writes a re-run passes preflight if and only if no rule was written at a uid that an adopted rule is configured with |
| AlertRules.RerunAlwaysPasses | bin/alerts.py:642-689 | It passes after every possible interruption if and only if, before the publish, no adopted rule shares its configured uid with a plain one |
| AlertRules.DistinctUidsRerun | bin/alerts.py:645-664 | Distinct configured uids are never shared, so a re-run always passes |
| AlertRules.SharedUidWitness | bin/alerts.py:645-664 | A deployment that passes preflight and is refused after a complete publish |
| AlertRules.RerunConverges | bin/alerts.py:691-709 | Unless that happened, the re-run whose writes all apply reaches the store of an uninterrupted publish |
| AlertRules.MigrationFrame | bin/alerts.py:595-624 | A migration changes only titles of our rules: no uid, pause state, routing, body or foreign rule |
| AlertRules.InvokedMigration | bin/alerts.py:595-624 | A completed migration gives our rule with an old title the new one and changes nothing else of it, unless the new title is taken, and then it leaves the rule alone |
| AlertRules.MigratedIndexable | bin/alerts.py:595-624 | A migration keeps the titles of our rules unique |
| AlertRules.MigratedSurvives | bin/alerts.py:645-706 | A migrated rule survives the next plain publish, with or without a receiver and whichever of its writes apply: it keeps uid, title, pause and routing, and is the only rule with its title |
| AlertRules.MigrationThenPublish | bin/alerts.py:645-689 | After a migration and a complete publish the next one with the same flags changes nothing; it passes if and only if the first did and no adopted rule shared its configured uid with a plain one |
| AlertRules.MigrationUnblocksPublish | bin/alerts.py:595-689 | After a complete migration the publish passes preflight if and only if, before it, each of our rules is at a spec's uid or will be kept by one, none gets a spec's title elsewhere, no spec's uid is foreign, and no two specs come to one uid |
| AlertRules.DecideIsSafe | bin/alerts.py:781-809 | No command line unpauses without an existing named receiver, and live state is kept exactly by plain publishes |
| AlertRules.CommandLines | bin/alerts.py:781-887 | Exactly which command lines publish, which migrate, which only show and which are refused |
| AlertRules.DryRunsNeverWrite | bin/alerts.py:790-796 | A dry run never publishes: with a publishing flag it is refused, and a migration only reports |
| AlertRules.ModesAsDocumented | bin/alerts.py:766-771 | What a plain publish, an activation and a deactivation leave of each rule |
| AlertRules.HistoriesAreSafe | bin/alerts.py:627-715 | Over every history of invocations with failed or lost writes, unpaused rules of ours stay explicitly routed and foreign rules never change |
| AlertRules.RuleStore.Publish | bin/alerts.py:642-734 | A refused preflight sends nothing and changes nothing, and a misplaced rule is refused; otherwise requests go out up to the first broken connection, and the group interval changes only when all were acknowledged |
| AlertRules.RuleStore.WriteRules | bin/alerts.py:691-714 | The loop leaves the published store for every sequence of answers and stops at the first broken connection |
| AlertRules.RuleStore.MigrateTitles | bin/alerts.py:595-624 | The rename loop computes the migration and stops at a broken connection, a dry run sends nothing, and a failure is counted exactly when a title exists twice or a write is not acknowledged |
| CoverageAccounting.CountersAreExact | collector/coverage.py:27-38 | Each failure counter is the stacks now failed with that reason plus the failures of stacks already marked with it |
| CoverageAccounting.HealedReasonIsCounted | collector/coverage.py:29-34 | A success never decrements a counter that is not there |
| CoverageAccounting.FailedIsExact | collector/coverage.py:50-52 | The failed total is the stacks now failed plus all repeated failures |
| CoverageAccounting.AgreementIffNoRefailure | collector/coverage.py:27-38 | Counters and marks agree if and only if no stack failed while still marked failed |
| CoverageAccounting.AbortNeverUndercounts | collector/coverage.py:64-66 | The abort decision counts at least every stack that is failed |
| CoverageAccounting.AbortIsAboveATenth | collector/coverage.py:64-66 | More than a tenth of the scannable stacks aborts, exactly a tenth does not |
| CoverageAccounting.SkipsAreExact | collector/coverage.py:40-48 | Each skip counter is the number of skips recorded with its reason |
| CoverageAccounting.Balance | collector/coverage.py:27-48 | Scanned, failed, skipped and healed add up to the record calls made |
| CoverageAccounting.OneRecordPerStack | collector/coverage.py:54-62 | When no two records are about one stack of the estate, failed plus skipped stays within the estate and coverage within the scannable estate |
| CoverageAccounting.TwoRecordsBreakTheBound | collector/coverage.py:54-57 | A stack both skipped and failed breaks that bound |
| CoverageAccounting.Coverage.RecordOk | collector/coverage.py:27-34 | A success unmarks its stack and takes back exactly its failure |
| CoverageAccounting.Coverage.RecordFailure | collector/coverage.py:36-38 | A failure marks its stack and counts once |
| CoverageAccounting.Coverage.RecordSkipped | collector/coverage.py:40-48 | A skip counts once and touches no failure |
| CoverageAccounting.RecordInventory | scan.py:1309-1314 | The hourly tier's loop fails no stack and scans all that are scannable |
| SourceHealth.HealthyMeansFloor | scan.py:252-276 | A report is healthy exactly when nine tenths (four fifths for labels) of its population answered, for every counting rule |
| SourceHealth.FloorsByName | scan.py:1561-1729 | The floor of every input by its name, over reals |
| SourceHealth.MeasuredAtMostExpected | scan.py:265-272 | No input of any tier is reported to have answered more than was expected of it |
| SourceHealth.UnblockedMeansHealthy | scan.py:876-881 | No failure blocks if and only if every input that must meet its floor does or is switched off |
| SourceHealth.AcceptedByName | scan.py:279-313 | Of each daily input what is accepted: nothing below its floor, an empty payload when switched off, else all of it |
| SourceHealth.WithheldByName | scan.py:279-313 | A withheld input is partial if and only if some stack answered |
| SourceHealth.SplitIsTotal | scan.py:279-313 | Every gathered input is accepted or withheld, and both only when disabled |
| SourceHealth.PublicationInputs | scan.py:279-313 | The split loop computes both halves for every order of the inputs |
| SourceHealth.SplitAloneIsNotEnough | scan.py:295-303 | The split alone accepts a `loki_config` payload below its floor |
| SourceHealth.DomainMeetsFloor | scan.py:1714-1729 | What protects `loki_config`: a failing read domain blocks the run |
| SourceHealth.AcceptedMeetsFloor | scan.py:876-881 | Without a blocking failure every accepted payload meets its floor or is a disabled input's empty one |
| Publication.GateIsExact | scan.py:1971-2043 | Exactly when a run is refused, with which code and without any write, and when it publishes, with which code |
| Publication.GateBeforeRun | scan.py:1920-1933 | Diagnostic output, an unverified runtime and an unreadable rate card end a publishing run with code 2 before it publishes |
| Publication.FailedInputRefuses | scan.py:1973-2021 | One input of the daily or hourly tier below its floor, other than the label inventory and the billing preview, ends the run with code 1 and no write |
| Publication.LateCheck | scan.py:2190-2193 | The last check can contradict the first only when nothing is scannable, and never when failed plus skipped is within the estate |
| Publication.RefusalPublishesNothing | scan.py:1983-2198 | Code 2 means nothing was published, and so does code 1 unless the run published to its end, which then returns 1 if and only if nothing was scannable and more than a tenth failed |
| Publication.LateRefusalWitness | scan.py:2190-2193 | The gate alone allows such a run: it publishes and returns 1 |
| Publication.BoundedCoveragePublishesNothing | scan.py:1973-2043 | With bounded coverage, code 1 or 2 always means nothing was published |
| Publication.CoverageBoundsObservation | scan.py:1309-1314 | A tier that records each stack of its estate at most once has that bound |
| Publication.PublishedCodes | scan.py:2105-2198 | Code 3 means views and envelope were written and a push failed; code 0 that the pushes went through too |
| Publication.WithheldViewsKept | scan.py:2082-2096 | A view with unsatisfied inputs keeps its last good copy, whatever happens |
| Publication.EnvelopeByName | scan.py:1754-1791 | What the envelope of a daily run holds of each gathered input |
| Publication.BatchContent | scan.py:2047-2099 | What the pushed batch holds: every composed and added series, the totals of the two bounded families, and no maturity series when their input is unsatisfied |
| Publication.PushesExactly | scan.py:2109-2165 | What the pushes of a completed run leave in Mimir and Loki, for a failed push exactly the part that landed |
| Publication.CarryExactly | scan.py:2047-2059 | Only a six-hourly run replaces the carry state, with what it composed |
| Publication.DryRunWritesNothing | scan.py:2183-2184 | A dry run leaves every store as it is |
| Publication.GapsOnlyWhenAdmitted | scan.py:1766-1777 | The gap stamps change only in a run that no later refusal stops |
| Publication.GapsExactly | scan.py:1766-1777 | Exactly which runs update the gap stamps, and with what |
| Publication.HistoryOnlyWhenAdmitted | scan.py:1736-1753 | The billing history grows only in such a run, unless the rate card is unreadable, which then ends it with code 2 and nothing published |
| Publication.HistoryExactly | scan.py:1736-1744 | Exactly which runs grow the billing history |
| Publication.HistoryBeforeCardWitness | scan.py:1736-1766 | A run that writes the history and ends with code 2 exists |
| Publication.GapKeepsFirstStamp | collector/emit/gapstate.py:38-70 | A gap that persists keeps the stamp of its first sighting if and only if that sighting was stored and no later update stored its stamps after a failed read |
| Publication.StampOfLastReset | collector/emit/gapstate.py:38-70 | After such updates it has the stamp of the last of them |
| Publication.HealedGapIsDropped | collector/emit/gapstate.py:61-70 | A gap is on record if and only if the last update that was stored saw it |
| Publication.OneFailedReadLosesTheStamp | collector/emit/gapstate.py:41-45 | One failed read dates a gap of the first day to the third |
| Publication.BatchIsStable | scan.py:2098-2099 | The batch that reaches Mimir is a fixed point of the projection |
| Publication.CarryIsStable | scan.py:2047-2059 | The saved carry state is a fixed point of the projection |
| Publication.SamplesAreStable | scan.py:2109-2126 | However little of a batch a failed push stored, it is a fixed point of the projection |
| Publication.PublishableMeetsFloor | scan.py:1754-1791 | The payloads of an unblocked run meet their floors, after a failed history write too |
| Publication.RunsKeepTrust | scan.py:1971-2165 | Over every sequence of runs of all tiers with any failures, persisted payloads met their floors or are disabled and empty, envelopes come from healthy whole-estate runs, and Mimir and carry hold projected batches |
| Publication.PublicationStore.Compose | scan.py:1736-1777 | The daily tier's side-writes around the rate card read compute the runner function |
| Publication.PublicationStore.Publish | scan.py:2047-2198 | The publication seams in their order compute the publish function for every failure |
| Publication.PublicationStore.Run | scan.py:1920-2043 | The whole run with its refusals computes the run function |
| MetricProjection.ProjectMetricDomains | scan.py:97-129 | The loop refuses exactly the batches that lack a label it reads, and otherwise returns the projection |
| MetricProjection.ProjectPreserves | scan.py:97-129 | The projection keeps the other series in order and every summed key |
| MetricProjection.ProjectIdempotent | scan.py:97-129 | Projecting twice is projecting once, as a sequence |
| MetricProjection.ProjectAtSeams | scan.py:1402-1412 | Projecting parts before joining them, at any seam, gives the projection of the whole |
| MetricProjection.ProjectIsTheProjection | scan.py:97-129 | The output is the one list with all other series in order, then each projected identity of the batch exactly once, in increasing order, with the sum of its values |
| Ordering.StringLessIsDictionary | scan.py:119-121 | The order of the emitted series compares strings by their first difference |
| MetricProjection.ProjectCarries | scan.py:97-129 | Every series is in the output under its name and labels, where a value outside a closed vocabulary is `other` and every other value stays; every series of the output comes from one of the batch |
| MetricProjection.KnownValuesStay | collector/sources/assistant.py:211-221 | A known category, surface and reason keep their own series |
| MetricProjection.FilterStable | scan.py:97-129 | Dropping series from a projected batch never makes it need projecting again |
| MetricProjection.ProjectBoundsLabels | scan.py:97-117 | Every series that leaves the projection has labels of the closed vocabularies |
| MetricProjection.ProjectConservesTotals | scan.py:102-105 | The total of every metric family is conserved |
| PersistedSubset.ScalarsSurvive | bin/dashboards.py:5642-5659 | An authored scalar survives only as itself, where true is one and false is zero; lists keep their length |
| PersistedSubset.Reflexive | bin/dashboards.py:5642-5659 | An authored document is accepted unchanged |
| PersistedSubset.Transitive | bin/dashboards.py:5642-5659 | Acceptance is transitive |
| PersistedSubset.Antisymmetric | bin/dashboards.py:5642-5659 | Acceptance both ways is exactly equality of values |
| PersistedSubset.PersistedIsPathwise | bin/dashboards.py:5642-5659 | Acceptance means exactly that every authored path is there with what was authored |
| PersistedSubset.ServerDefaultsAreAccepted | bin/dashboards.py:5642-5659 | A document is accepted after any chain of server-added object fields |
| PersistedSubset.AddedFieldIsThere | bin/dashboards.py:5642-5659 | A field a server adds to an object that lacks it is then at its path |
| DpmPricing.BilledIsMax | bin/dashboards.py:783-787 | The two-step PromQL form is the element-wise maximum |
| DpmPricing.SameStacks | bin/dashboards.py:776-781 | The stacks priced after are those priced before: no stack drops out for lack of a recommendation |
| DpmPricing.SavingIsDifference | bin/dashboards.py:786-790 | A stack's saving is its cost before minus after, between nothing and the price of its reduction |
| DpmPricing.CostByData | bin/dashboards.py:755-795 | What a stack costs before and after, from its active series, data points and recommended reduction |
| DpmPricing.SavingsAddUp | bin/dashboards.py:786-790 | The savings sum to the total before minus the total after |
| DpmPricing.SummingFirstUnderbills | bin/dashboards.py:783-785 | Billing the estate as one stack never comes to more than billing stack by stack |
| DpmPricing.SummingFirstMisstates | bin/dashboards.py:783-785 | Pricing the sums can overstate the saving of the stacks and can lose it |
| DpmPricing.LabelRegimes | bin/dashboards.py:798-819 | The union over the table labels each ranked stack with every regime that selects it |
| DpmPricing.ExactlyOneRegime | bin/dashboards.py:804-811 | Every priced stack is under exactly one of the six regimes |
| DpmPricing.RegimeByData | bin/dashboards.py:798-819 | Which of the six regimes a ranked stack is labelled with, from its data |
| DpmPricing.RankedOnce | bin/dashboards.py:798-819 | The table shows every ranked stack exactly once, and no other |

## Left out

- Power loss between a rename and its directory fsync: a process death keeps every completed rename.
- Two upgrade processes at once, and other actors editing alert rules during a publish: the code takes no lock.
- Parsing of the module's Terraform tables into defaults, and the explicit-wiring preflight: the tables are given.
- The remaining rules of `validate` (JSON types, markers, field vocabularies): one arbitrary predicate over the
  source and the effective overlay, as are the git, remote and identifier checks of the commands.
- Malformed manifests (sections that are not objects), files that are not UTF-8, and the legacy scan digest accepted
  before an upgrade.
- A gap-state object that is JSON but not an object (it ends the run with an exception), and the content of a Loki
  push that was stored in part.
- UpgradeJournal.SplitRollbackWitness: names one run of the window; the window itself is exact in `UpgradeIsAtomic`.
- Order of refusals and their texts, in all four tools; which refusal comes first is kept only where it changes an
  exit code or a write.
- Rule expressions, labels and descriptions: one opaque body per rule. The group interval request carries no rules.
- Composition of metrics and views, hydration from other tiers, carry-forward on the hourly tier, findings, the
  cardinality guard's own rules, the scan lock and the outcome recorder: their results enter a run as given.
- Concurrent record calls from the worker threads of a scan: the calls are modelled in some sequence.
- Four-decimal ratios shown in metadata, and floating-point rounding of sums and prices.
- Not-a-number values in dashboard JSON, and the message naming the first difference found.
- Selection of the fifteen ranked stacks, windowed quantiles and the infinity filter of the pricing queries.
- The T4 diff, probe scripts, fixture makers and credential loading: no property beyond their own text.
