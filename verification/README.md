# Verified model of the governed-record lifecycle

This Dafny project models how FAVA Trails keeps governed thought records: from the files on disk,
through the before-image journal and the review lifecycle, up to what a reader sees; and it proves
what each layer promises, for all inputs, runs and interruptions.

## What is modelled

**The journal** (`Journal`, `Repository`, `CrashSafety`, `JournalRuns`, `JournalGuards`; `Trees` holds
its maps of files). A repository holds files, stray temporaries, an optional journal of before
images, a history and private notes. Every file operation takes one tick of an arbitrary fault schedule: it
may raise or stop the process, before, inside or after taking effect. `Repositories.Repository` is
the imperative protocol, each method proved equal to a step of `Journal`; `CrashSafety` shows that
one writer is an atomic multi-file compare-and-swap, `JournalRuns` that whole histories are chains
of them, and `JournalGuards` what a writer can commit at all. Process crashes keep the order of
operations.

**The lifecycle** (`Records`, `Hooks`, `HookRuns`, `Promotion`, `Verdicts`, `Lineage`, `Steps`,
`Lifecycle`, `Navigation`, `Publication`, `Composition`, `Recall`, `Readers`). `Hooks` runs the hook
pipeline and `HookRuns` tells a run from the hooks' answers; `Promotion` holds the transitions of a
record, `Verdicts` says in plain terms when they are refused and what they write, `Lifecycle`
the state machine of all interleavings of saving, updating, reviewing and publishing over trails and
processes, `Publication` carries one commit down to the journal, and `Composition` whole runs, with
their faults, crashes and recoveries. `Recall` searches, and `Readers` says who sees and finds what.
Hooks are arbitrary functions from events to the declared action types.

**Duplicate migration** (`Graphs`, `Duplicates`, `Quotient`, `Collapse`, `GovernedTruth`,
`UnscopedReference`, `Continuity`, `PlannedRecords`, `Plans`, `Rules`, `Planner`, `StoredPlans`,
`Migration`). `Duplicates` specifies which files a plan removes, what it redirects and what blocks
it; `PlannedRecords` says the same in the fields of the records; `Planner` builds it loop by loop;
`Quotient`, `Collapse` and `GovernedTruth` prove what a plan without blockers preserves, and
`Continuity` that the lifecycle goes on from it; `Plans` that it can be undone and rebuilt, `Rules`
that planning again accepts it; `Migration` runs it through the journal with receipts, and
`StoredPlans` joins the two.

**Independent cores.** `RichViews` (the reader's lineage worklist and routes, told from the thoughts'
fields in `LineageEdges`), `Readiness` (the bounded explicit-stack scan, whose records `RecordPaths`
names by their paths), `Markdown` (printing and parsing records, over `Texts`), `Version`,
`Precedence`, `VersionRuns`, `VersionRules` and `Numerals` (the version parser, its printers and the
bump machine, following Semantic Versioning 2.0.0 and PEP 440).

Every lemma is proved without automatic induction: `{:induction false}` throughout.

## Where the code falls short of its promise

- `JournalRuns.TornExactly`: if removing the journal raises after its unlink took effect, and the
  rollback that follows is interrupted, readers see a mixture of files. The main theorems therefore
  exclude this one fault (`OrderedRemoval`), although it is harmless if the rollback completes
  (`CompletedRollBack`); the lemma says exactly which mixtures are whole trees, `NeverTornExactly`
  which transactions cannot be torn, and `TornPair` gives two files that are.
- `Quotient.ReferencesPreserved`, `UnscopedReference.EmptyScopeReference`: the planner redirects a
  reference only if its scope is absent or equal to the migrated scope, while the lookup takes an
  empty scope for no scope. An otherwise untouched record whose backlink has an empty scope and
  names a removed record is left dangling without a blocker, although `docs/duplicate-migration.md`
  promises that newly unresolved references block. The theorem gives the exact condition.
- `Migration.RetryConverges`: the receipt is created in place, so a process that stops while
  writing it leaves a file that every later run refuses. Otherwise two undisturbed runs reach the
  target whenever the plan's rules accept what they start from: the first one may only recover a
  leftover journal of the opposite direction.
- `Markdown.DelimiterInFrontmatterLeaks`, `Plans.BodiesKept`: the body survives rewriting exactly if
  the dumped frontmatter contains no `---`.
- `Markdown.ReadBackExactly`: a text without frontmatter and with outer space changes its content
  the first time its record is written back.

## Assumptions

- Fresh identifiers are new and contain no colon; identifiers of records in a repository that is
  migrated contain none either. Reference targets are arbitrary unless a lemma says otherwise.
- Saving and updating a thought are atomic steps taken while no transaction is open and no journal
  is pending: the code takes no file lock there and orders nothing.
- YAML is an opaque printer and reader: the output is complete lines, and what was read and edited is
  read again from it, where it holds no `---`. Hashes are injective, so snapshots stand for their
  hashes. Sorting is any function that lists a set once, and scanning follows one order of paths.
- A promotion reads the record its file is named after, and that record does not name itself as its
  predecessor (`WellRead`); this is all the model asks of a read that may race a transaction.

## Model

| member | source | states |
|---|---|---|
| `Repositories.Repository.constructor` | src/fava_trails/transactions.py:150-156 | a fresh repository starts in the protocol's valid state, with its tree committed |
| `Repositories.Repository.Replace` | src/fava_trails/transactions.py:57-76 | a file is written through a temporary and a rename, or unlinked; a failure or crash before, inside or after leaves the old file, a stray temporary, or the new file |
| `Repositories.Repository.SaveJournal` | src/fava_trails/transactions.py:162-163 | the before images become the journal, or the write fails with the old journal still there |
| `Repositories.Repository.UnlinkJournal` | src/fava_trails/transactions.py:176 | removing the journal publishes; a removal that raises before its unlink leaves it |
| `Repositories.Repository.Snap` | src/fava_trails/vcs/jj_backend.py:418-476 | a commit snapshots the whole disk, and refuses if anything outside the given paths is dirty |
| `Repositories.Repository.Invoke` | src/fava_trails/transactions.py:174-175 | a callback sees disk, journal and history, and may raise |
| `Repositories.Repository.InvokePrepare` | src/fava_trails/transactions.py:160-161 | a process that stops inside `prepare` may leave a part of what it writes |
| `Repositories.Repository.Snapshot` | src/fava_trails/transactions.py:109-126 | the reader's loop over disk files and then over before images computes the overlay of the images on the disk |
| `Repositories.Repository.ReplaceEach` | src/fava_trails/transactions.py:165-166 | files are replaced one at a time until one fails |
| `Repositories.Repository.RecoverJournal` | src/fava_trails/transactions.py:129-141 | recovery sweeps temporaries, restores every before image, commits and removes the journal, stopping at the first failure |
| `Repositories.Repository.Unchanged` | src/fava_trails/transactions.py:156-159 | the comparison: every expected file is present and parses to the expected record |
| `Repositories.Repository.BeforeImages` | src/fava_trails/transactions.py:162 | the journal records for each write what its file held |
| `Repositories.Repository.Attempt` | src/fava_trails/transactions.py:164-176 | the `try` block: write, commit, report, publish |
| `Repositories.Repository.Transact` | src/fava_trails/transactions.py:162-183 | the `except` branch restores every file and journals the images again |
| `Repositories.Repository.PersistGovernance` | src/fava_trails/transactions.py:150-183 | a whole governed writer is the step-by-step protocol of `Journal`, and so, under any schedule: readers switch from the whole old tree to the whole new one or stay, and the way it ends says which |
| `CrashSafety.RecoveryInvisible` | src/fava_trails/transactions.py:129-141 | recovery, however often it is interrupted, never changes what readers see, and ends clean |
| `CrashSafety.BeginInvisible` | src/fava_trails/transactions.py:150-161 | recovery, comparison and `prepare` are invisible to readers; the comparison decides on what readers see |
| `CrashSafety.JournalFirst` | src/fava_trails/transactions.py:162-163 | once the journal is written, it shields readers from every file of the transaction |
| `CrashSafety.RollBackShielded` | src/fava_trails/transactions.py:177-182 | rolling back under the journal never shows a mixture, wherever it stops |
| `CrashSafety.ConcludeAtomic` | src/fava_trails/transactions.py:162-183 | from the journal on, readers see the old tree or the new one |
| `CrashSafety.CrashAtomicity` | src/fava_trails/transactions.py:109-183 | crash atomicity: under every schedule of exceptions and crashes, readers go from the whole old tree to the whole new tree in one step or stay; the exit tells which, except after a crash |
| `CrashSafety.ConcludeReports` | src/fava_trails/transactions.py:164-183 | when readers see the new tree its commit is in history and the `committed` callback's answer is stored |
| `CrashSafety.QuietWriterSucceeds` | src/fava_trails/transactions.py:150-183 | after any number of dead writers an undisturbed one succeeds exactly when its comparison holds |
| `JournalRuns.RunsAreAtomic` | src/fava_trails/transactions.py:129-183 | published implies committed: over any sequence of writers, each dying anywhere, every view readers ever had is a committed tree, and each is its predecessor with one writer's compared writes applied |
| `JournalRuns.TornAtWorst` | src/fava_trails/transactions.py:176-182 | if the removal raises after its unlink and the rollback is interrupted, readers see some prefix of the restored files |
| `JournalRuns.TornExactly` | src/fava_trails/transactions.py:176-182 | that view is one of the two whole trees exactly when the files restored, or those not restored, changed nothing |
| `JournalRuns.TornReached` | src/fava_trails/transactions.py:176-182 | every such prefix is reached by some schedule |
| `JournalRuns.CompletedRollBack` | src/fava_trails/transactions.py:177-182 | but under every schedule, the excluded fault included, a failed writer that has journalled its images again leaves readers the old tree |
| `JournalRuns.NeverTornExactly` | src/fava_trails/transactions.py:176-182 | no schedule whatever shows readers a mixture exactly when at most one of the writes changes its file, which a caller can check beforehand |
| `JournalRuns.OneChangeAtomic` | src/fava_trails/transactions.py:150-183 | so a whole writer that changes at most one file is atomic under every schedule, the excluded fault included |
| `JournalRuns.TornPair` | src/fava_trails/transactions.py:176-182 | two files and one such schedule show readers one old and one new file |
| `JournalGuards.OnlyNamedCommitted` | src/fava_trails/transactions.py:129-183 | whatever state the repository was left in and whatever fails, no commit of a writer differs from the one before it but in the files of a pending journal and of its own writes |
| `JournalGuards.RefusedReport` | src/fava_trails/transactions.py:164-183 | if nothing fails but the report after the commit, every file is put back and the images journalled again; the commit stays in history, readers saw nothing of it, and the next recovery commits the old tree on top |
| `Records.BuildIndex` | src/fava_trails/governance.py:93-105 | the indexing loop computes the index by qualified and unambiguous bare identifier |
| `Records.IndexAnswers` | src/fava_trails/governance.py:93-105 | a bare identifier is answered exactly when one record carries it, and a qualified one with the last such record |
| `Records.QualifiedInjective` | src/fava_trails/governance.py:98 | qualified keys of colon-free identifiers never collide |
| `Hooks.RunPipeline` | src/fava_trails/hook_pipeline.py:54-178 | the two nested loops compute the fold over hooks and actions, whose meaning is `HookRuns.PipelineRuns` |
| `Hooks.Select` | src/fava_trails/hook_pipeline.py:155-170 | a recall selection keeps the valid identifiers, each once, in the order given |
| `Hooks.KeptSound` | src/fava_trails/hook_pipeline.py:162-170 | the kept selection has no duplicates and is exactly the valid ones among those given |
| `Hooks.PatchedKeepsIdentity` | src/fava_trails/hook_types.py:96-108 | patches change nothing but content, confidence, tags and extra metadata |
| `Hooks.RunFromSound` | src/fava_trails/hook_pipeline.py:75-178 | whatever hooks answer: at most five patches explain the thought, a selection is a duplicate-free subset, and recall hooks can neither reject, redirect nor mutate |
| `HookRuns.PipelineRuns` | src/fava_trails/hook_pipeline.py:75-178 | what a run does, from the hooks' answers: each hook is shown the event as patched so far; it is rejected, or redirected, exactly if the first final action permitted is that; nothing after it takes effect; the first five mutations before it are applied in order; and it fails exactly when a fail-closed hook timed out, raised or mutated a sixth time |
| `HookRuns.RunsAlike` | src/fava_trails/hook_pipeline.py:75-178 | hooks and event leave only one such run |
| `HookRuns.PermittedExactly` | src/fava_trails/hook_types.py:234-250 | which actions are permitted where |
| `HookRuns.PatchSets` | src/fava_trails/hook_types.py:96-108 | a patch sets what it holds, merges extra metadata key by key, and leaves the rest |
| `HookRuns.KeptInOrder` | src/fava_trails/hook_pipeline.py:162-170 | a kept selection follows the order the hook gave |
| `Promotion.SavingOnlyPatches` | src/fava_trails/trail.py:221-268 | a saved record is the new draft after at most five patches, under its own identifier and with its own references, without lineage |
| `Promotion.Shelf.SaveThought` | src/fava_trails/trail.py:202-287 | saving stores exactly that record in the chosen namespace, or changes nothing |
| `Promotion.Shelf.UpdateThought` | src/fava_trails/trail.py:312-352 | an update succeeds exactly for a record that is neither approved, rejected nor tombstoned and has no backlink, and changes only its content |
| `Promotion.Shelf.Supersede` | src/fava_trails/trail.py:354-392 | superseding only adds a draft that names its predecessor and keeps its references and metadata but for the review's; the original keeps standing |
| `Promotion.FindCandidates` | src/fava_trails/trail.py:621-627 | the predecessor is searched by identifier and scope |
| `Promotion.ProposeTruth` | src/fava_trails/trail.py:540-642 | the promotion procedure reaches the specified decision: refuse, answer already approved, or a compare-and-swap of these files |
| `Verdicts.SavingExactly` | src/fava_trails/trail.py:225-270 | a thought is saved exactly when the pipeline neither failed nor rejected it and the namespace, redirected or not, exists; and then as the pipeline left it |
| `Verdicts.RoutesExactly` | src/fava_trails/models.py:205-211 | which namespace each source type is promoted into |
| `Verdicts.PassingExactly` | src/fava_trails/trail.py:552-573 | the hooks let a promotion pass exactly when they neither failed nor rejected it and the namespace exists |
| `Verdicts.JudgedTells` | src/fava_trails/trail.py:575-606 | the status written is approved, rejected or error exactly as the verdict is, and proposed exactly without a review; the gate entry holds the verdict and what is known of the review, and the approval entry is written exactly on approval; nothing else changes |
| `Verdicts.PromotionTells` | src/fava_trails/trail.py:540-642 | so for every transaction of a promotion: the record read, as the hooks left it, with that status and provenance, in the namespace of its source type or of the redirection if it is approved or proposed, and where it was otherwise |
| `Verdicts.CandidatesCount` | src/fava_trails/trail.py:619-627 | a predecessor is found exactly when one record carries the identifier in the scope |
| `Verdicts.PromotionRefusedExactly` | src/fava_trails/trail.py:545-642 | when a promotion is refused, and for what: changed since its review, already approved, tombstoned, the hooks, the namespace, a missing or ambiguous predecessor, or one that has an approved replacement |
| `Promotion.Shelf.Publish` | src/fava_trails/transactions.py:156-166 | the compare-and-swap writes all files or none |
| `Steps.HooksOnlyPatch` | src/fava_trails/trail.py:553-578 | between the record read and the record judged lie at most five patches |
| `Steps.TransactionRecord` | src/fava_trails/trail.py:580-616 | what is written is the record read, patched and judged, with its lineage fields untouched |
| `Steps.CommitKeeps` | src/fava_trails/trail.py:617-642 | a transaction prepared on one view and committed on a later one keeps every invariant, whatever other writers did in between |
| `Lineage.VisibleExactly` | src/fava_trails/governance.py:55-75 | in a view that keeps the invariant, default readers see exactly the approved records without a backlink |
| `Lifecycle.StepKeeps` | src/fava_trails/trail.py:202-653 | every step of every writer keeps the lineage invariant, stability and traceability |
| `Lifecycle.RunKeeps` | src/fava_trails/trail.py:202-653 | so does every run, over all interleavings of saving, updating, reviewing and publishing |
| `Lifecycle.ProcessExplained` | src/fava_trails/tools/navigation.py:184-287 | in every world of a run, whoever is reviewing or about to publish was brought there by events of its own, and has done nothing since |
| `Lifecycle.ApprovalGranted` | src/fava_trails/trail.py:643-647 | every logged approval was published by an event of its own process, from the very request it held |
| `Lifecycle.LineageBothWays` | src/fava_trails/trail.py:617-642 | in every view: X is approved as the replacement of A exactly when A's scoped backlink names X |
| `Lifecycle.OneSuccessor` | src/fava_trails/trail.py:617-642 | a predecessor has at most one approved successor |
| `Lifecycle.UniqueCurrentTruth` | src/fava_trails/governance.py:55-75 | from any record ever approved, the chain of backlinks in every later view is finite, repeats nothing, is approved throughout, and shows default readers exactly its last record |
| `Lifecycle.ApprovedForever` | src/fava_trails/trail.py:305-342 | an approved record stays approved with the same content and provenance; its backlink is set at most once |
| `Lifecycle.ReviewedIsApproved` | src/fava_trails/trail.py:540-653 | whatever is approved and was not at the start was published by one event of the run: the record then on disk, with an approving verdict, after at most five patches, and it still is that record but for a backlink; its process had prepared that request before and, if a review was asked for, had that very record put under review before that, and only waited in between |
| `Lifecycle.LosingApprovalFails` | src/fava_trails/transactions.py:156-160 | once a predecessor has a backlink, every transaction that expects it unmarked fails |
| `Navigation.Navigate` | src/fava_trails/tools/navigation.py:131-347 | the promotion tool: what it answers tells the verdict; what it stores is the record of the second read, still on disk and the one reviewed, patched, with the status and provenance of the review; nothing becomes approved but by an operator's explicit call under his name or an approving review of that very record; and a caller without that authority, a review that cannot be had or a record that is gone fail and change nothing |
| `Navigation.Promote` | src/fava_trails/tools/navigation.py:131-347 | the tool's procedure step by step: review on a copy, second read, promotion, answer |
| `Navigation.OnlyReviewedIsJudged` | src/fava_trails/tools/navigation.py:195-208 | if the tool changes anything, the record under the lock is the one of the second read and the one shown for review, and that record, patched, with the status and provenance of the authorized review, is what is stored under the same identifier in the same scope |
| `Navigation.NoApprovalWithoutVerdict` | src/fava_trails/tools/navigation.py:155-182 | a timeout, an unusable or missing review, a rejection or an error never approves anything, nor does explicit approval by anyone but an operator |
| `Navigation.BarredFails` | src/fava_trails/tools/navigation.py:155-205 | without the operator's authority, with a review policy but no prompts, without a usable review or without the record the call fails and changes nothing; otherwise it goes on |
| `Navigation.OutcomeTellsVerdict` | src/fava_trails/tools/navigation.py:309-340 | the reported outcome and the stored status tell the verdict, each of them exactly |
| `Publication.PromotionIsAtomic` | src/fava_trails/trail.py:643-647 | a promotion run through the journal shows readers the records before it or those its compare-and-swap yields |
| `Composition.MoveRefines` | src/fava_trails/trail.py:202-653 | one move of the whole system - a silent step, an author's write, a recovery, or a publication or supersession through the journal under faults - is a step of the lifecycle or none, and readers go on seeing what the lifecycle says |
| `Composition.RunsCompose` | src/fava_trails/transactions.py:129-183 | so every run of the whole system, with all its faults and recoveries, is a run of the lifecycle, and every tree readers ever saw holds the records of its views, in order |
| `Composition.TruthOnDisk` | src/fava_trails/governance.py:55-75 | unique current truth on disk: once a tree readers saw held an approved record, every later tree shows default readers exactly the last of its replacements |
| `Recall.Search` | src/fava_trails/trail.py:449-490 | the search loop with its early exit returns the first wanted records |
| `Recall.AddRelated` | src/fava_trails/trail.py:492-504 | each relationship target that was not found and leads to a visible record is added once |
| `Recall.RecallTrail` | src/fava_trails/trail.py:423-526 | only records visible in the shared snapshot, never more than the limit; without relationships exactly the specified answer |
| `Recall.ArrangePermutes` | src/fava_trails/trail.py:518-524 | a hook's selection drops exactly the unselected results and loses or repeats no other |
| `Recall.ArrangeOrdered` | src/fava_trails/trail.py:518-524 | the rest come out in the order the hook gave |
| `Recall.RecallMulti` | src/fava_trails/trail.py:730-793 | distinct identifiers, at most the limit, all visible in one snapshot, whatever hooks answer |
| `Recall.Mix` | src/fava_trails/trail.py:764-791 | the mixing hooks can only drop or reorder |
| `Recall.NeverBothGenerations` | src/fava_trails/trail.py:746-762 | no answer holds a record whose backlink leads to an approved successor in the snapshot: by scope and identifier, or without a scope to the one record with that identifier |
| `Readers.HiddenExactly` | src/fava_trails/governance.py:75-80 | a record is hidden exactly if its backlink leads to an approved record of the snapshot |
| `Readers.SeesExactly` | src/fava_trails/governance.py:39-72 | default readers see approved truth, authors their own drafts and proposals and nobody else's, and operators the statuses they ask for; superseded records only operators who ask for them |
| `Readers.SearchExactly` | src/fava_trails/trail.py:436-490 | a search of one scope finds only visible, matching records in the namespace or below it, and all of them unless it reaches the limit |
| `Readers.RecallExactly` | src/fava_trails/trail.py:730-793 | several scopes without hooks: every hit was asked for and lies in the scope it is listed with, and everything asked for is found, by identifier, unless the answer or its own scope reaches the limit |
| `Readers.CuratedExactly` | src/fava_trails/trail.py:506-526 | with hooks, the pipeline's selection arranges what was found, and a pipeline that fails fails the search |
| `Readers.MixesExactly` | src/fava_trails/trail.py:764-768 | the mixing hooks of the first scope have a say exactly where two scopes have different names |
| `Graphs.FindsLoop` | src/fava_trails/duplicates.py:272-282 | the chain walk ends and reports what its specification says |
| `Graphs.ChaseExact` | src/fava_trails/duplicates.py:272-282 | it reports a repetition exactly when the chain runs into a cycle |
| `Graphs.ChangedWalksSuffice` | src/fava_trails/duplicates.py:271-282 | walking only from changed nodes finds a new cycle exactly when there is one |
| `Duplicates.LocateIsIndex` | src/fava_trails/governance.py:93-105 | the planner's index by file answers as the record index does |
| `Planner.ReadFiles` | src/fava_trails/duplicates.py:85-104 | every text is parsed or reported |
| `Planner.LocateFiles` | src/fava_trails/governance.py:93-105 | the indexing loop, by file |
| `Planner.CheckMember` | src/fava_trails/duplicates.py:216-229 | the blockers of one group member |
| `Planner.CheckGroup` | src/fava_trails/duplicates.py:212-215 | the blockers of one group's lifecycle |
| `Planner.SelectGroup` | src/fava_trails/duplicates.py:203-233 | one group: its redirects, removals and blockers |
| `Planner.SelectGroups` | src/fava_trails/duplicates.py:201-233 | all selected groups: exactly their members are removed and redirected, and exactly their conflicts block |
| `Planner.CompareOutbound` | src/fava_trails/duplicates.py:235-240 | a member blocks exactly when its outbound references differ from the kept record's |
| `Planner.RedirectFrontmatter` | src/fava_trails/duplicates.py:253-266 | the fields are redirected one after the other |
| `Planner.FindSelfLinks` | src/fava_trails/duplicates.py:267-269 | self links of a changed record block |
| `Planner.RedirectFiles` | src/fava_trails/duplicates.py:234-269 | all remaining records are redirected, and exactly the stamped or redirected ones count as changed |
| `Planner.WalkChains` | src/fava_trails/duplicates.py:270-282 | exactly the changed records whose chain loops block |
| `Planner.FindDangling` | src/fava_trails/duplicates.py:284-291 | the references of changed records that name nothing |
| `Planner.CompareDangling` | src/fava_trails/duplicates.py:293-295 | exactly the newly dangling ones block |
| `Planner.WriteOperations` | src/fava_trails/duplicates.py:310-321 | one operation for each changed or removed file, and the snapshot they lead to |
| `Planner.BuildPlan` | src/fava_trails/duplicates.py:186-333 | the plan is the specified one: its redirects, blockers, unresolved references, operations and texts; and it has no blockers exactly when nothing is wrong (`PlannedRecords.Faultless`) |
| `PlannedRecords.KeepExactly` | src/fava_trails/duplicates.py:123-207 | a file is collapsed onto another exactly if both have one body in the migrated scope, the other is selected for it and is not alone |
| `PlannedRecords.SelfLinksExactly` | src/fava_trails/duplicates.py:269-271 | a self link blocks exactly when a field of a changed record would name the record itself |
| `PlannedRecords.NoSelfLinks` | src/fava_trails/duplicates.py:269-271 | so without blockers no changed record has itself as parent, intent, successor, predecessor or relationship target |
| `PlannedRecords.UnresolvedExactly` | src/fava_trails/duplicates.py:284-295 | a reference blocks as newly unresolved exactly when a changed record finds nothing under it and did not fail to find that target before |
| `PlannedRecords.OutboundExactly` | src/fava_trails/duplicates.py:234-240 | two records' outbound references agree exactly if they count the same references to every field, redirected target and scope |
| `PlannedRecords.LinksExactly` | src/fava_trails/duplicates.py:272-282 | the chain of a field links the remaining records whose identifier was unique |
| `PlannedRecords.ChangedExactly` | src/fava_trails/duplicates.py:250-268 | the rewritten records are the remaining ones that come out different |
| `PlannedRecords.NoteTells` | src/fava_trails/duplicates.py:241-249 | the note on a kept record says what it stands for: body, identifier, how many records were removed, and the selection; earlier notes and other metadata stay |
| `PlannedRecords.ClearExactly` | src/fava_trails/duplicates.py:201-295 | a plan has no blockers exactly when every selection is of a group, every member has a unique identifier, is live, outside any lineage and says the same as the kept record, which speaks for all of them, and every rewritten record names neither itself nor anything newly missing nor runs into a cycle |
| `PlannedRecords.FieldsCarried` | src/fava_trails/duplicates.py:251-268 | each of the five kinds of references of a remaining record leads where it led or to the kept record of that group, and but for a kept record's note nothing else changes |
| `Quotient.IndexAfter` | src/fava_trails/duplicates.py:284-291 | the index of the remaining records is the old one less the removed records' keys |
| `Quotient.ReferencesPreserved` | src/fava_trails/duplicates.py:107-118 | reference quotient: in a plan without blockers every reference of a surviving record leads to the image of what it led to, and unresolved ones stay so, exactly when the record is no untouched holder of a stray reference |
| `Quotient.StrayIsEmptyScope` | src/fava_trails/duplicates.py:254-263 | for colon-free targets only one spelling strays: a removed identifier under an empty scope |
| `Quotient.AppearedSlot` | src/fava_trails/duplicates.py:107-112 | a parent that takes on the supersession's scope still leads to the image of the file it led to |
| `Quotient.ChangedHasNoStray` | src/fava_trails/duplicates.py:284-295 | in a changed record a stray reference blocks the plan |
| `UnscopedReference.EmptyScopeReference` | src/fava_trails/duplicates.py:254-263 | a concrete plan without blockers after which a backlink dangles and a retired record changes its visibility |
| `Collapse.OutboundCarried` | src/fava_trails/duplicates.py:235-240 | every reference of a removed duplicate is carried by its kept record, same field and scope, leading to the image of what it led to; and the kept record gains no other |
| `Collapse.RemovalLosesNothing` | src/fava_trails/duplicates.py:211-229 | a removed record agrees with the kept one in body, source, confidence and validation; its status differs only in favour of approved current truth |
| `Collapse.ChainsStayAcyclic` | src/fava_trails/duplicates.py:270-282 | an acyclic chain field stays acyclic exactly when no changed record's walk loops |
| `Collapse.ClearKeepsAcyclic` | src/fava_trails/duplicates.py:270-282 | so a plan without blockers keeps parent and supersession chains acyclic |
| `GovernedTruth.VisibleIsAllowed` | src/fava_trails/governance.py:55-75 | the planner's notion of visibility is the reader's, before and after |
| `GovernedTruth.OutsideKeepsVisibility` | src/fava_trails/duplicates.py:250-268 | a record outside the groups is visible as before, exactly unless it is approved and its backlink's lookup moves between approved and not |
| `GovernedTruth.SettledKeepsVisibility` | src/fava_trails/duplicates.py:250-268 | in particular if its backlink names an approved record or nothing, through no stray reference |
| `GovernedTruth.OneVisiblePerGroup` | src/fava_trails/duplicates.py:212-215 | of each collapsed group readers see exactly the kept record if any member was approved, and nothing otherwise |
| `Continuity.MigrationKeeps` | src/fava_trails/duplicates.py:186-333 | a plan without blockers keeps the whole lineage invariant: nothing in a group has a predecessor or successor, and counting the kept records as the oldest orders the rest |
| `Continuity.OrderKeptExactly` | src/fava_trails/duplicates.py:253-266 | by their births as they were, records stay younger than the predecessors they name exactly unless one is redirected to a record that is not older |
| `Continuity.MigrationRestarts` | src/fava_trails/duplicates.py:310-321 | the migrated texts are a repository the lifecycle can start from |
| `Continuity.TruthAcross` | src/fava_trails/governance.py:55-75 | unique current truth across a migration: a record approved at any time before it, or the one it was collapsed onto, shows default readers exactly one record in every view of any run after it |
| `Continuity.PublishedAcross` | src/fava_trails/trail.py:643-647 | a promotion prepared before a migration and published after it keeps the lineage invariant |
| `Plans.ApplyThenRollBack` | src/fava_trails/duplicates.py:491-492 | applying a plan and then its before images is the identity on the stored texts |
| `Plans.BodiesKept` | src/fava_trails/duplicates.py:67-78 | a rewritten file keeps the exact bytes of its body exactly when the dumped frontmatter holds no delimiter |
| `Plans.ParsedExactly` | src/fava_trails/duplicates.py:58-97 | a text parses exactly if it starts with a line of three hyphens, has a second delimiter and what lies between them loads; everything after that is its body |
| `Plans.WritesBack` | src/fava_trails/duplicates.py:67-78 | a rewritten file reads back as the edited record, body included, wherever YAML itself reads back |
| `Plans.AfterTextsParse` | src/fava_trails/duplicates.py:310-321 | the migrated texts parse to the records the planner reasoned about, unless a dump holds a delimiter |
| `Plans.RebuiltPlanIsSame` | src/fava_trails/duplicates.py:368-374 | the plan rebuilt from the migrated texts with their before images is the same plan, wherever the removed files are scanned |
| `Rules.OnlyThisPlan` | src/fava_trails/duplicates.py:368-374 | planning in another order of files, alike for those that remain, can return the plan and nothing else |
| `Rules.ReviewedPasses` | src/fava_trails/duplicates.py:368-374 | a plan the planner made without blockers passes its own rule check, on the texts it was made from and, with the before images put back, on the texts it leads to |
| `Planner.PutTextsBack` | src/fava_trails/duplicates.py:368-372 | the loop that puts the before images back, and the order a dictionary then has |
| `Planner.VerifyRules` | src/fava_trails/duplicates.py:368-374 | the rule check step by step: it lets a plan pass that planning again must return, and one it lets pass is one that planning again can return |
| `StoredPlans.ReviewedPlanIsSound` | src/fava_trails/duplicates.py:428-436 | a plan the planner made without blockers is a migration whose writes lead from either snapshot to the other, both accepted by the rule check |
| `StoredPlans.OnlyAcceptedRuns` | src/fava_trails/duplicates.py:368-374 | readers see an edited plan's migration only if planning again on the texts it starts from gives that very plan |
| `StoredPlans.ReviewedPlanConverges` | src/fava_trails/duplicates.py:428-497 | from the reviewed plan to what readers see: after any sequence of interrupted migrations and rollbacks readers have seen only the texts before or after, and two undisturbed runs then publish the chosen side, unless its receipt was torn |
| `Migration.RunPlan` | src/fava_trails/duplicates.py:428-497 | the apply procedure is the specified one; so under any faults readers keep seeing one of the two whole snapshots, nothing gets past the plan's rules, and success means the target under a finished receipt that names its commit |
| `Migration.RulesGate` | src/fava_trails/duplicates.py:437-478 | under every fault schedule and from any valid state: readers see the target, or success is reported, only if the tree the run started from is the reviewed one and the rules accepted it; otherwise no receipt is written either |
| `Migration.SuccessMeans` | src/fava_trails/duplicates.py:437-497 | success means that the target is published and its receipt is finished and names a commit with the direction's message, the last one if this run made it, and for recovery a commit of the source |
| `Migration.ApplyKeeps` | src/fava_trails/duplicates.py:428-497 | under any faults readers see one of the two whole snapshots; a receipt's evidence is a real commit of its target; success means the target with a finished receipt |
| `Migration.RunsKeep` | src/fava_trails/duplicates.py:428-497 | so for any sequence of migrations and rollbacks, each cut short anywhere; readers never see a third tree |
| `Migration.ConvergesExactly` | src/fava_trails/duplicates.py:437-497 | an undisturbed run succeeds exactly when the rules accept the tree it starts from and the receipt allows it; otherwise it leaves receipts as they were |
| `Migration.RetryConverges` | src/fava_trails/duplicates.py:454-497 | after any crash two undisturbed runs reach the target exactly when the rules accept what each starts from and the receipt was not torn as it was created |
| `Migration.TornReached` | src/fava_trails/duplicates.py:336-345 | stopping inside the creation of the receipt leaves one that every later run refuses |
| `RichViews.CollectEdges` | src/fava_trails/rich_views.py:461-470 | the edge list |
| `RichViews.Visit` | src/fava_trails/rich_views.py:476-487 | handling one visited thought: its incident edges are listed, its neighbours scheduled, and nothing else |
| `RichViews.Lineage` | src/fava_trails/rich_views.py:442-489 | the worklist ends and lists each distinct edge incident to the start's connected component exactly once, and no other |
| `LineageEdges.ListedExactly` | src/fava_trails/rich_views.py:442-490 | an edge is listed exactly when a thought stores that reference and its source, or the thought it leads to, is connected to the start; kind and both ends are described from the thoughts' own fields |
| `LineageEdges.NeighboursExactly` | src/fava_trails/rich_views.py:478-490 | two identifiers are neighbours exactly if a thought with one stores a reference that leads to the other |
| `LineageEdges.TargetDescribed` | src/fava_trails/rich_views.py:446-452 | what is said of a reference's target: title, route and scope of the last thought with the identifier, if its scope is the one named, and otherwise no more than was stored |
| `RichViews.Exhausted` | src/fava_trails/rich_views.py:471-487 | when nothing is pending, the whole component has been visited |
| `RichViews.ChooseRoute` | src/fava_trails/rich_views.py:426-436 | the plain route, or the shortest free suffix from eight characters on; none exactly when the plain route is shared or taken and every suffix is taken |
| `RichViews.AssignRoutes` | src/fava_trails/rich_views.py:414-439 | all routes differ from each other and from every identity and scope route; each is the specified choice; it fails exactly when some thought's plain route is shared or taken and so are all suffixes of its identifier |
| `RichViews.RouteTells` | src/fava_trails/rich_views.py:414-438 | a route is the scope and slug of the thought the identifier names, plain or with a suffix of the identifier of at least eight characters |
| `RichViews.SharedExactly` | src/fava_trails/rich_views.py:420-421 | a stem is shared exactly if thoughts of two identifiers have it |
| `Readiness.TreeProbe.Entries` | src/fava_trails/readiness.py:119-140 | listing counts every entry against the limit and fails unreadable directories |
| `Readiness.TreeProbe.ScanThoughts` | src/fava_trails/readiness.py:163-184 | the inner stack adds exactly what the recursive specification says of the directory, listing it in the specified order |
| `Readiness.TreeProbe.ScanScopeTree` | src/fava_trails/readiness.py:187-202 | the scan fails for size exactly when the entries listed before the first unreadable directory, in the order of the traversal, exceed the limit, and as unreadable exactly when they do not and there is such a directory; otherwise it returns the number of outermost `thoughts` directories, the number of records below them and the least record path |
| `Readiness.SumPermuted` | src/fava_trails/readiness.py:140 | a directory contributes the same in whatever order it is listed |
| `Readiness.ListingOrderIrrelevant` | src/fava_trails/readiness.py:187-202 | the whole result does not depend on listing order at any level |
| `Readiness.LeastUnique` | src/fava_trails/readiness.py:180-184 | the least key is unique |
| `RecordPaths.KeysExactly` | src/fava_trails/readiness.py:163-202 | the records counted are the Markdown files below a `thoughts` directory that readable directories lead to, each under its path |
| `RecordPaths.SortOrders` | src/fava_trails/readiness.py:119-140 | a listing is gone through in the order of its names |
| `RecordPaths.LessExactly` | src/fava_trails/readiness.py:140 | names and paths compare character by character, a proper prefix first |
| `Markdown.SplitExact` | src/fava_trails/models.py:146 | the split at the first two delimiters loses nothing and passes over none |
| `Texts.StripKeeps` | src/fava_trails/models.py:151 | stripping takes away outer space and nothing else |
| `Markdown.SplitFramed` | src/fava_trails/models.py:135-151 | printed text splits at the written delimiters exactly when the dumped frontmatter holds none |
| `Markdown.RoundTrip` | src/fava_trails/models.py:116-155 | parsing a printed record gives back its frontmatter and stripped content, whatever delimiters the content holds |
| `Markdown.PrintParseIdempotent` | src/fava_trails/models.py:116-155 | printing and parsing once reaches a fixed point |
| `Markdown.ReadBackExactly` | src/fava_trails/models.py:138-155 | a record read from a file survives being rewritten exactly when the file had frontmatter or no outer space |
| `Markdown.RewriteKeepsBody` | src/fava_trails/duplicates.py:67-78 | rewriting frontmatter leaves the exact body |
| `Markdown.DelimiterInFrontmatterLeaks` | src/fava_trails/duplicates.py:67-78 | with a delimiter in the dumped frontmatter the body grows |
| `Numerals.PrintValue` | scripts/mw-version.py:166 | a printed number reads back |
| `Numerals.ValuePrint` | scripts/mw-version.py:152-161 | a canonical numeral is the print of its value |
| `Numerals.JoinSplit` | scripts/mw-version.py:156-160 | joining and splitting at a character are inverse |
| `Versions.ParseExact` | scripts/mw-version.py:145-177 | the accepted texts are exactly the printed well-formed versions, one text each |
| `Versions.ParsePepExact` | scripts/mw-version.py:148-177 | in the Python format the accepted texts are exactly the long and the short forms of well-formed versions |
| `Precedence.PrecedesTransitive` | scripts/mw-version.py:203-223 | the precedence of section 11 of Semantic Versioning 2.0.0 is transitive |
| `Precedence.PrecedesTies` | scripts/mw-version.py:203-223 | and neither of two versions precedes the other exactly when they differ at most in build metadata |
| `VersionRuns.Intent` | scripts/mw-version.py:180-191 | the largest increment any message asks for |
| `VersionRuns.NextCore` | scripts/mw-version.py:207-214 | every increment raises the core, and a zero major stays zero |
| `VersionRuns.DateKept` | scripts/mw-version.py:194-216 | a date channel is kept, with the chosen date in it |
| `VersionRuns.StepRaises` | scripts/mw-version.py:203-223 | every accepted bump, rc start or promotion gives a well-formed version of strictly higher precedence |
| `VersionRuns.StepKeepsPep` | scripts/mw-version.py:164-177 | a version the Python format can carry stays one |
| `VersionRuns.RunsRoundTrip` | scripts/mw-version.py:145-223 | every version of every run prints and parses back, in the Python form too if it has one, which it has if the run starts with one |
| `VersionRuns.RunsIncrease` | scripts/mw-version.py:430-446 | every later version of a run has strictly higher precedence than every earlier one |
| `VersionRules.WellFormedExactly` | scripts/mw-version.py:152-161 | accepted prerelease and build metadata are dotted identifiers, without leading zeros in prerelease numbers |
| `VersionRules.CalendarExactly` | scripts/mw-version.py:194-200 | which dates are on the calendar |
| `VersionRules.PrintedForm` | scripts/mw-version.py:164-177 | the printed form of a version |
| `VersionRules.PepExactly` | scripts/mw-version.py:164-177 | the form of Python packages: alpha, beta and rc channels and nothing else |
| `VersionRules.PrecedesExactly` | scripts/mw-version.py:203-223 | precedence, section 11 of Semantic Versioning 2.0.0, written out: where two prereleases part, numbers compare by value and below words |
| `VersionRules.BumpExactly` | scripts/mw-version.py:194-223 | when a bump is refused and what it gives: the numbers, the date channel, the started candidate or the restarted channel |
| `VersionRules.PromoteExactly` | scripts/mw-version.py:430-434 | a promotion drops prerelease and build metadata, and is refused without a prerelease |

## Left out

- CrashSafety.CrashAtomicity: excludes one fault, a journal removal that raises after its unlink took effect (`OrderedRemoval`), which the protocol does not cover; `JournalRuns` says exactly what happens then.
- Lifecycle.UniqueCurrentTruth: starts from a repository whose records already keep the lineage invariant, such as an empty one, and takes saves and updates as atomic.
- Continuity.TruthAcross: starts the later run without the processes of the earlier one; what those may still publish is in `Continuity.PublishedAcross`.
- Quotient.ReferencesPreserved: takes record identifiers without a colon and a scan that lists each file once.
- Repositories.Repository.Snap: does not model case collisions, executable-bit changes or operations of JJ and git that rewrite history (rebase, forget, rollback); a refusal for one of these is a fault that raises before the commit.
- Repositories.Repository.RecoverJournal: does not model a journal file with invalid contents, which the code refuses until an operator steps in.
- Repositories.Repository.PersistGovernance: does not model the lock itself; writers are sequenced by it, and readers look after every single operation.
- Readers.RecallExactly: says nothing of a limit below one, nor of scopes with hooks, which may drop any result (`Recall.Mix`).
- Recall.RecallTrail: does not model the text and metadata filters; they are an arbitrary predicate on a record's path and contents.
- Recall.AddRelated: does not fix the order in which relationship targets are visited, because the code iterates over a set.
- Navigation.Navigate: does not model finding a record by identifier prefix, secrets, credentials, disclosure notices or the review itself; its reply is arbitrary, and the records at the two reads are parameters.
- Navigation.Promote: leaves out the same as `Navigation.Navigate`, whose procedure it is.
- Promotion.Shelf.Supersede: does not model its transaction's faults; `Composition.MoveRefines` does, for the one write it makes through the journal.
- Versions.ParseExact: does not model digits outside ASCII, which the source's `\d` also matches, nor the `.0` suffix that the legacy option strips.
- VersionRuns.Intent: does not model the two regular expressions; each message comes as breaking or not and a feature or not.
- VersionRuns.RunsIncrease: does not model which units a change affects, the files a version is written to, or the git history they are read from.
- Composition.RunsCompose: takes authors' writes as atomic and without a journal pending, as in the assumptions above, and leaves aside files that are no thoughts.
- Planner.BuildPlan: does not model counts and the hash digest of a plan, nor the report the groups are read from; snapshots are compared as texts.
- Migration.RunPlan: does not model conflicts in the repository, operation identifiers in receipts, or validation of a plan file's paths and digest.
- Readiness.TreeProbe.Entries: does not model deadlines, symbolic links or entries whose type cannot be read.
- Readiness.TreeProbe.ScanScopeTree: does not model deadlines, symbolic links or entries whose type cannot be read.
- RichViews.AssignRoutes: does not model the slug of a title, which is an arbitrary function.
- Hook feedback (warnings, advice, annotations), observer hooks, after-save events and secret patterns.
- MCP adapters, schemas, HTTP runtime, registration, reader files and commands.
- Writers of drafts racing a pending journal or another process's transaction, which the code does not order.
