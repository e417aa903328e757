# OntoBDC on-disk metadata: a verified model

OntoBDC keeps the metadata of a data container in files beside the data: RDF graphs, a Data Package
descriptor, a linkset, a context file and a published page. This project models how those files are
rewritten, synchronised and committed, and proves what the code promises about them.

RDF graphs are sets of triples. The file system is a map from paths to contents behind an object whose
every operation may raise, as an arbitrary oracle decides. Loops and objects of the source are methods and
classes here; each method is proved against a specification function or relation, and the theorems are
lemmas about those.

| area | files |
|---|---|
| Container attachment | `Rdf`, `Graphs`, `Disk`, `Transaction`, `AttachmentPlan`, `Inspection`, `Planner`, `UriMap`, `Attachment`, `BackReferences`, `StorageIndex`, `AttachedTriples`, `Reattachment`, `ResolvedPlans`, `AttachmentExample`, `Backup`, `Metadata` |
| Context store and its key codec | `KeyCodec`, `ContextStore` |
| Data Package synchroniser and publication check | `PathText`, `Walk`, `Inventory`, `Manifest`, `ManifestLaws`, `SyncLaws`, `SyncExamples`, `Publishability` |
| WorkStream linkset | `Linkset`, `LinksetRuns` |
| Fingerprint byte stream | `Fingerprint` |
| JSON embedded in a Surface document | `JsonText`, `JsonReading`, `SurfaceDocument`, `SurfaceLaws`, `SurfaceTexts` |
| Surface generation run | `SurfaceRun` |
| Shared text, encoding and path helpers | `Text`, `Utf8`, `Paths` |

## Where the code does not keep a promise

For each of these a lemma or method gives failing inputs (named last), and the promise is proved for exactly the
others.

- Committing graphs loses a payload when one payload path is the temporary name of another
  (`Transaction.WriteGraphsTransactionally`). The files of an attachment never are
  (`Inspection.LayoutFilesNeverClash`). Failing: `Transaction.TemporaryClashes`.
- A dataset graph does not refer back to its own target when a later entry of the URI map overrides the imported
  subject, and only then (`BackReferences.BackReferencesAgree`). A dataset that was copied inside the container
  is such a case: inspection and `resolve_identity` accept it, and the earlier graph describes the later one's
  target. Failing: `AttachmentExample.CopiedImportIsLost`.
- After an attachment the index can hold a second container that matches the target. For an import that attaches
  and whose container is not renamed away, this is possible exactly when the pruned index has another container
  that belongs to the target as a dataset and to which the renamed container graph gives the target's identifier
  or location (`StorageIndex.IndexAfterAttachment`). Failing: `AttachmentExample.ImportWithRival`.
- The URI map renames the container to something else exactly when the last dataset names its ontology or its
  entity like it (`UriMap.ContainerIsKept`); unless the graph mentions the target already, such an import is then
  rejected (`Attachment.RenamedAwayIsRejected`). Failing: `UriMap.ContainerIsTaken`.
- Attaching an attached container again changes the index exactly when the pruned index said something about the
  target that its entry neither holds nor replaces (`Reattachment.ReattachmentIsAFixpoint`); a third attachment
  changes nothing (`Reattachment.ReattachmentSettles`). Failing: `AttachmentExample.ImportWithRival`.
- Restoring a snapshotted parameter has no visible effect while an object value in memory shadows it
  (`Backup.ParameterRestored`). The rollback of an attachment is not affected
  (`Backup.RolledBackParameters`). Failing: `Backup.ObjectHidesSnapshot`.
- Reading a parameter back does not give the value just set when an older object value shadows it
  (`ContextStore.ReadAfterSet`). Failing: `ContextStore.ObjectHidesText`.
- Transient entries stay in the file when it names no individual and the run uses none of their keys
  (`ContextStore.TransientsAfterRun`). Failing: `ContextStore.OpenLeftover`. A transient key spelled with a hyphen
  reaches the file (`ContextStore.SetKeepsOutTransients`). Failing: `ContextStore.HyphenatedTransientIsPersisted`.
- A second sync is not a no-op when a file name ends in white space, or when a kept resource has a name of
  white space only (`SyncLaws.SecondSyncIsStable`); blank names settle one run later (`SyncLaws.SyncSettles`).
  Failing: `SyncExamples.SpacedNameIsUnstable`, `SyncExamples.BlankNameIsUnstable`.
- A synchronised container is not publishable when an external resource path starts with a tilde that the
  synchroniser expands out of the container and the check reads inside it
  (`Publishability.AgreementAfterSync`). Failing: `Publishability.TildeBreaksPublication`.
- Two pairs whose dimension URIs hold a bar can share a link; then rejecting one hides the other
  (`LinksetRuns.FaithfulIffNoCollisions`). Failing: `LinksetRuns.BarsHide`. `promote` on a linkset of related
  resources writes the file and raises afterwards, always (`Linkset.WorkStreamResourceLinkset.Promote`).
- Replacing an embedded JSON script passes it through `re.sub` as a template. The call raises when some string
  holds a control character without a short escape, and changes the text when some string holds a backslash
  or any control character (`SurfaceLaws.ReplaceRoundTrip`). Failing: `SurfaceLaws.ReplacementsFail`. Inserting one
  is undone by extraction unless an unclosed opening tag for the same identifier stands before the head's end
  (`SurfaceLaws.InsertRoundTrip`). Failing: `SurfaceLaws.InsertionFails`.
- A run of a reused handler, whose bound state is not the observed one, lists the observed state first and so has
  a gap or a repetition (`SurfaceRun.RunIsContiguous`). A run to the final state lists it only if the evaluator
  finds it afterwards (`SurfaceRun.ExecuteUntil`). Failing: `SurfaceRun.StandardGap`, `SurfaceRun.StandardEnd`.
- `to_snake_case` undoes `to_camel_case` on the well-formed keys and on no others
  (`KeyCodec.SnakeUndoesCamel`). Failing: `KeyCodec.HyphenIsLost`.

## Model

| member | source | states |
|---|---|---|
| Graphs.RewriteGraph | src/ontobdc/storage/adapter/attachment/graph.py:141-164 | the loop builds exactly the renamed graph |
| Graphs.SetSingle | src/ontobdc/storage/adapter/attachment/graph.py:166-175 | the subject keeps one value of the property and nothing else changes |
| Graphs.RemoveSubject | src/ontobdc/storage/adapter/attachment/graph.py:177-182 | exactly the triples with the node as subject or object go |
| Graphs.MatchingContainerSubjects | src/ontobdc/storage/adapter/attachment/graph.py:184-215 | a duplicate-free list of exactly the URI-named containers that match either identity |
| Graphs.MatchesMeans | src/ontobdc/storage/adapter/attachment/graph.py:184-215 | an entry matches as the subject itself, or by a triple with the identifier or the location |
| Graphs.SingleSubject | src/ontobdc/storage/adapter/attachment/graph.py:67-85 | the only URI subject; an error exactly when there is not one |
| Graphs.RequiredText | src/ontobdc/storage/adapter/attachment/graph.py:87-138 | succeeds exactly for a single non-blank value of the right kind, and strips it |
| Graphs.RequiredMeans | src/ontobdc/storage/adapter/attachment/graph.py:87-139 | a demanded text is the stripped text of the only object, which has the demanded kind and is not blank |
| Text.StrippedOff | src/ontobdc/storage/adapter/attachment/graph.py:119 | what stripping takes away is white space at the ends |
| Graphs.RewrittenCount | src/ontobdc/storage/adapter/attachment/graph.py:141-164 | a renaming that merges no nodes keeps the number of triples |
| Graphs.RewrittenEdges | src/ontobdc/storage/adapter/attachment/graph.py:141-164 | it is an isomorphism: each edge and its predicate survive, and none is invented |
| Graphs.RenamingIsReversible | src/ontobdc/storage/adapter/attachment/graph.py:141-164 | the inverse map gives the graph back if and only if no unmapped node already has a target name |
| Graphs.RewrittenByIdentity | src/ontobdc/storage/adapter/attachment/graph.py:141-164 | a map that moves nothing reproduces the graph |
| Paths.QuoteInjective | src/ontobdc/storage/adapter/attachment/plan.py:212-228 | percent-encoding (section 2.1 of RFC 3986) never identifies two paths |
| Paths.QuoteSpelledOut | src/ontobdc/storage/adapter/attachment/plan.py:212-228 | quoting goes character by character; which stay, and the upper-case hexadecimal of the others |
| Paths.AsUriInjective | src/ontobdc/storage/adapter/attachment/plan.py:219-243 | `as_uri` never identifies two paths |
| Planner.ResolveDatasets | src/ontobdc/storage/adapter/attachment/plan.py:221-247 | every dataset gets its target, spelled out: identifier, ontology, entity and the URI of its directory, which is no other path's; or the error is that of the first dataset that lies outside the root or where an earlier one is |
| Planner.AssertNoStorageConflict | src/ontobdc/storage/adapter/attachment/plan.py:318-362 | passes if and only if every entry with the target identity stands for the imported container |
| Planner.ResolveIdentity | src/ontobdc/storage/adapter/attachment/plan.py:207-259 | the targets of container and datasets, spelled out value by value, and which of the three errors is raised: a dataset outside the root or at a used path, whichever comes first, then a conflict with the index |
| Planner.TargetSpelledOut | src/ontobdc/storage/adapter/attachment/plan.py:221-247 | the five values of a dataset's target; its location is the URI of the dataset's directory and of no other path |
| Planner.ContainerSpelledOut | src/ontobdc/storage/adapter/attachment/plan.py:207-219 | the three values of the container's target |
| Planner.TargetsNeverCollide | src/ontobdc/storage/adapter/attachment/plan.py:207-259 | all container, dataset, ontology and entity targets are pairwise distinct, with no assumption on the hash |
| Planner.DatasetTargetsDiffer | src/ontobdc/storage/adapter/attachment/plan.py:221-247 | two datasets differ in subject, ontology and entity |
| Planner.UriMapping | src/ontobdc/storage/adapter/attachment/plan.py:291-316 | the loops build the map in which later entries override earlier ones |
| UriMap.MappingZips | src/ontobdc/storage/adapter/attachment/plan.py:291-316 | with distinct source names the map sends each to its own target and knows no others |
| UriMap.MappingAt | src/ontobdc/storage/adapter/attachment/plan.py:291-316 | the whole map, name by name: the last dataset that uses a name decides, as its entity, ontology, container or itself in this order |
| UriMap.SubjectValue | src/ontobdc/storage/adapter/attachment/plan.py:301-316 | a dataset's subject goes to its own target, unless the dataset itself or a later one names it again |
| UriMap.MappingIsInjective | src/ontobdc/storage/adapter/attachment/plan.py:291-316 | the renaming of every inspected import is injective, also where names are used twice: distinct targets suffice |
| UriMap.ContainerIsKept | src/ontobdc/storage/adapter/attachment/plan.py:291-316 | the container goes to its own target if and only if the last dataset does not name its ontology or entity like it |
| UriMap.ContainerIsTaken | src/ontobdc/storage/adapter/attachment/plan.py:301-316 | a dataset whose ontology has the container's name takes its target away |
| UriMap.RenamedNamesStay | src/ontobdc/storage/adapter/attachment/plan.py:291-316 | the map of the renamed names moves nothing, whatever overrides what |
| Inspection.InspectContainer | src/ontobdc/storage/adapter/attachment/plan.py:124-160 | accepts a container graph if and only if it has one container with the required properties |
| Inspection.InspectDataset | src/ontobdc/storage/adapter/attachment/plan.py:375-420 | accepts a dataset graph if and only if it belongs to the container and has one ontology and one entity |
| Inspection.LayoutFilesNeverClash | src/ontobdc/storage/adapter/attachment/transaction.py:65-69 | the rewritten files are distinct and none is another's temporary file |
| Disks.Disk.Replace | src/ontobdc/storage/adapter/attachment/transaction.py:146-147 | a replace is atomic: it moves the source over the target or changes nothing |
| Transaction.TemporaryInjective | src/ontobdc/storage/adapter/attachment/transaction.py:143 | distinct files have distinct temporary files |
| Transaction.RollBack | src/ontobdc/storage/adapter/attachment/transaction.py:148-161 | every path not named in the error is as it was, absent files included; named are exactly those whose operation raised |
| Transaction.WriteGraphsTransactionally | src/ontobdc/storage/adapter/attachment/transaction.py:125-164 | for any number of payloads and any raising operations: all new, all as before, or an error naming every path not restored; no other path touched. Which operation raises first decides the outcome: before the first directory nothing changes, before the last replace exactly the paths whose rollback raised are named and every fully written temporary is gone, later the commit stands. It commits if and only if none raises, and then stored everything if and only if no payload is another's temporary file |
| Transaction.TemporaryClashes | src/ontobdc/storage/adapter/attachment/transaction.py:143 | every path clashes with its own temporary name as a second payload |
| Transaction.CleanupKeepsOutcome | src/ontobdc/storage/adapter/attachment/transaction.py:162-164 | removing temporary files does not disturb the outcome |
| Backup.BackupNamesDiffer | src/ontobdc/storage/adapter/attachment/transaction.py:73-74 | the numbered backup names of different positions differ, beyond four digits too |
| Backup.BackupNameReads | src/ontobdc/storage/adapter/attachment/transaction.py:73-74 | a backup's name is its position in at least four digits, a dash and the file's name |
| Backup.AttachmentTransactionCoordinator.EnsureBackup | src/ontobdc/storage/adapter/attachment/transaction.py:61-86 | one true copy per file in a new directory; idempotent; fails if and only if an operation raised or a file is missing, and then the directory goes |
| Backup.AttachmentTransactionCoordinator.DiscardBackup | src/ontobdc/storage/adapter/attachment/transaction.py:88-93 | forgets the backups, empties their directory but for files whose removal fails, and touches nothing outside it |
| Backup.AttachmentTransactionCoordinator.RestoreContextSnapshot | src/ontobdc/storage/adapter/attachment/transaction.py:95-104 | the six parameters are set or deleted as the snapshot says |
| Backup.AttachmentTransactionCoordinator.Restore | src/ontobdc/storage/adapter/attachment/transaction.py:106-123 | every file equals its backup but those named, and named are exactly those whose copy raised or whose backup is missing; a second call has nothing to restore |
| Backup.ParameterRestored | src/ontobdc/storage/adapter/attachment/transaction.py:95-104 | a snapshotted parameter reads as it did if and only if no object in memory shadows it |
| Backup.ObjectHidesSnapshot | src/ontobdc/storage/adapter/attachment/transaction.py:95-104 | a parameter that was a text when snapshotted and an object since is restored in vain |
| Backup.CommitGuarded | src/ontobdc/storage/adapter/attachment/metadata.py:180-203 | two layers of rollback: all files new, or all as when backed up even if the inner rollback failed, or the exact losses are named and the backups stay; attached if and only if the backup was made and no operation of the commit raised |
| Backup.RolledBackParameters | src/ontobdc/storage/adapter/attachment/metadata.py:187-193 | after a rolled-back attachment each snapshotted parameter reads as the snapshot |
| Backup.AttachedParameters | src/ontobdc/storage/adapter/attachment/metadata.py:197-203 | after an attachment the context says that it completed and holds no error, and the plan if it was recorded |
| Backup.RolledBackBookkeeping | src/ontobdc/storage/adapter/attachment/metadata.py:187-193 | after a rolled-back attachment the context holds the plan and the error |
| Metadata.AttachDatasets | src/ontobdc/storage/adapter/attachment/metadata.py:216-267 | one rewritten graph per dataset, each with its own subject, and a link to each |
| Metadata.PruneConflictingContainerNodes | src/ontobdc/storage/adapter/attachment/metadata.py:368-385 | removes exactly the matching container entries |
| Metadata.AttachStorageIndex | src/ontobdc/storage/adapter/attachment/metadata.py:291-340 | datasets of the container are typed and refreshed; every other triple stays |
| Metadata.RewriteGraphs | src/ontobdc/storage/adapter/attachment/metadata.py:72-171 | computes an attachment of the graphs on disk; fails only if a read raises, a file holds no graph, or a dataset, the container or a text of the target is not found |
| Metadata.AttachContainerMetadata | src/ontobdc/storage/adapter/attachment/metadata.py:66-208 | the files come to hold the attached graphs, or what they held when backed up, or the error names the others; the context records which; a rejected attachment changes nothing, and no other path is touched; a plan for which everything is found is attached unless an operation raises |
| Metadata.GraphsAreOnDisk | src/ontobdc/storage/adapter/attachment/metadata.py:72-109 | the graphs attached are those in the container's file, the index's and the datasets' own, in order |
| AttachedTriples.TextsAreImported | src/ontobdc/storage/adapter/attachment/metadata.py:114-158 | title, description and creation date of the imported container are those of the attached one and stand in the index, each under its own predicate |
| AttachedTriples.IndexShowsTexts | src/ontobdc/storage/adapter/attachment/metadata.py:114-158 | the index says of the target exactly the text of the container graph and what the unpruned rest of the index said |
| AttachedTriples.IndexNamesContainer | src/ontobdc/storage/adapter/attachment/metadata.py:135-170 | the index types the target and gives it exactly one identifier and one location |
| AttachedTriples.IndexRefreshesDatasets | src/ontobdc/storage/adapter/attachment/metadata.py:304-336 | an indexed dataset is typed, and takes over one identifier and one location where the container graph has any |
| AttachedTriples.IndexTriples | src/ontobdc/storage/adapter/attachment/metadata.py:105-171 | every other triple is in the new index if and only if pruning spared it or it types the target or an indexed dataset |
| AttachedTriples.DatasetTriples | src/ontobdc/storage/adapter/attachment/metadata.py:227-261 | a dataset graph, triple by triple: the renamed one with identifier, location and container of its only dataset replaced |
| AttachedTriples.ContainerTriples | src/ontobdc/storage/adapter/attachment/metadata.py:86-103 | the container graph, triple by triple: the renamed one with identifier and location replaced and a link to each dataset found |
| BackReferences.SubjectIsRenamed | src/ontobdc/storage/adapter/attachment/metadata.py:227-243 | the dataset found in a rewritten graph is what the renaming makes of the imported subject, for every accepted import |
| BackReferences.RefersBackIfPlaced | src/ontobdc/storage/adapter/attachment/metadata.py:227-266 | a graph describes its own target, with one identifier, one location and the target container, and is linked to, if and only if the renaming sends its subject there |
| BackReferences.BackReferencesAgree | src/ontobdc/storage/adapter/attachment/metadata.py:227-266 | the graphs that refer back to their own target are exactly those whose imported subject no later entry of the map overrides |
| BackReferences.CopiedDatasetIsLost | src/ontobdc/storage/adapter/attachment/plan.py:301-316 | of two datasets with the same subject the earlier graph describes the target of the later |
| BackReferences.AttachmentAttachesDatasets | src/ontobdc/storage/adapter/attachment/metadata.py:269-289 | after an attachment the check for attached datasets holds if and only if every overridden dataset was linked to before |
| Attachment.HolderIsRenamed | src/ontobdc/storage/adapter/attachment/metadata.py:291-305 | the container found in the attached graph is what the renaming makes of the imported one, for every import |
| Attachment.RenamedAwayIsRejected | src/ontobdc/storage/adapter/attachment/metadata.py:113-133 | an import whose container is renamed to something else, in a graph that does not mention the target, is not attached |
| Attachment.AttachableCanAttach | src/ontobdc/storage/adapter/attachment/metadata.py:72-171 | what can be checked before attaching makes everything found |
| Attachment.ContainerIsTarget | src/ontobdc/storage/adapter/attachment/metadata.py:86-101 | the rewritten container graph of an attachable plan passes inspection as the target |
| StorageIndex.PruningSparesOthers | src/ontobdc/storage/adapter/attachment/metadata.py:368-385 | without a conflict pruning removes only entries that stand for the imported container |
| StorageIndex.TargetIsUnique | src/ontobdc/storage/adapter/attachment/metadata.py:105-171 | in every way the index may be refreshed exactly one URI-named container matches the target, if and only if there is no rival |
| StorageIndex.IndexFrame | src/ontobdc/storage/adapter/attachment/metadata.py:105-171 | a triple outside the pruned entries, the target and its datasets is neither lost nor invented |
| StorageIndex.IndexAfterAttachment | src/ontobdc/storage/adapter/attachment/metadata.py:105-171 | every attachment of an import, copies included, leaves exactly one match, if and only if the graphs before it hold no rival |
| StorageIndex.NoCollateralLoss | src/ontobdc/storage/adapter/attachment/metadata.py:105-171 | without a conflict an attachment of an import, copies included, loses and invents no triple but those of the import, the target and its datasets |
| StorageIndex.AttachesIfFound | src/ontobdc/storage/adapter/attachment/metadata.py:66-171 | a plan has an attachment, to any index, if and only if its datasets, its container and the texts of the target are found |
| ResolvedPlans.ResolvedPlanIsSound | src/ontobdc/storage/adapter/attachment/plan.py:207-259 | resolved identities are distinct, differ from every class name and survive stripping |
| Reattachment.AgainIsSecond | src/ontobdc/storage/adapter/attachment/plan.py:291-316 | the plan that inspection finds after an attachment moves nothing, copies included |
| Reattachment.AgainFindsTargets | src/ontobdc/storage/adapter/attachment/plan.py:375-420 | where no name is used twice, inspection then finds the targets themselves |
| ResolvedPlans.UnmovedResolvesAgain | src/ontobdc/storage/adapter/attachment/plan.py:207-259 | an unmoved container resolves to the same targets |
| Reattachment.DatasetIsInspectedAgain | src/ontobdc/storage/adapter/attachment/plan.py:375-420 | a rewritten dataset graph of an attachable plan passes inspection with the renamed names as findings |
| Reattachment.AttachedIsAttachable | src/ontobdc/storage/adapter/attachment/plan.py:95-195 | attached graphs pass inspection and can be attached again |
| Reattachment.SecondIsDetermined | src/ontobdc/storage/adapter/attachment/metadata.py:66-208 | a second attachment of any import, by a plan with the same targets that moves nothing, has exactly one result: the same graphs, and an index with one entry for all that matched |
| Reattachment.ReattachmentIsAFixpoint | src/ontobdc/storage/adapter/attachment/metadata.py:66-208 | attaching any import again yields these graphs and no others, if and only if the pruned index said nothing about the target that its entry does not hold or replace |
| Reattachment.ReattachmentSettles | src/ontobdc/storage/adapter/attachment/metadata.py:66-208 | a third attachment changes nothing, whatever the index said |
| AttachmentExample.LeastIsAttachable | src/ontobdc/storage/adapter/attachment/plan.py:95-195 | any named plan is attachable to the least graphs that inspection accepts |
| AttachmentExample.PlanCanArise | src/ontobdc/storage/adapter/attachment/metadata.py:66-208 | every plain import that `resolve_identity` accepts has graphs that can be attached, and an attachment |
| AttachmentExample.ImportIsAFixpoint | src/ontobdc/storage/adapter/attachment/metadata.py:66-208 | for every container, any number of copies of a dataset are attached to an empty index with one match, and again without any change |
| AttachmentExample.CopiedImportIsLost | src/ontobdc/storage/adapter/attachment/plan.py:221-238 | of any number of copies of a dataset, accepted and attached, only the last refers back to its own target |
| AttachmentExample.ImportWithRival | src/ontobdc/storage/adapter/attachment/metadata.py:291-340 | for every container an accepted import without a conflict, and an index in which an attachment leaves two matches and a second one makes a change |
| KeyCodec.SnakeUndoesCamel | src/ontobdc/shared/adapter/util.py:38-47 | `to_snake_case(to_camel_case(key)) == key` if and only if the key is well-formed |
| KeyCodec.HyphenIsLost | src/ontobdc/shared/adapter/util.py:38-47 | a key with a hyphen does not come back |
| KeyCodec.CamelInjective | src/ontobdc/shared/adapter/util.py:44-47 | distinct well-formed keys have distinct camel forms |
| KeyCodec.CamelSpelledOut | src/ontobdc/shared/adapter/util.py:44-47 | the camel form of any key, part by part |
| KeyCodec.SnakeSpelledOut | src/ontobdc/shared/adapter/util.py:38-42 | the snake form of any key, character by character |
| ContextStore.CliContext.constructor | src/ontobdc/cli/adapter/context.py:36-62 | what the store and the file hold after opening, with and without an individual in the file |
| ContextStore.CliContext.Load | src/ontobdc/cli/adapter/context.py:257-282 | merges the file, finds the individual, purges transient entries and saves |
| ContextStore.OpeningPurges | src/ontobdc/cli/adapter/context.py:257-282 | opening a file with an individual writes back exactly its entries that are not transient ones of the individual bound |
| ContextStore.OpeningLeavesFile | src/ontobdc/cli/adapter/context.py:257-282 | opening a file without one leaves it alone and types the default individual in memory |
| ContextStore.CliContext.SetParameterValue | src/ontobdc/cli/adapter/context.py:135-193 | the whole new state in both tiers, entry by entry: only the individual's entries of this property are replaced; the file equals the graph |
| ContextStore.CliContext.GetParameterValue | src/ontobdc/cli/adapter/context.py:195-214 | the value in memory, else any value of the graph |
| ContextStore.CliContext.DeleteParameter | src/ontobdc/cli/adapter/context.py:216-226 | both tiers forget the key and nothing else; the file equals the graph |
| ContextStore.CliContext.HasParameter | src/ontobdc/cli/adapter/context.py:228-241 | true if and only if a read gives a value |
| ContextStore.KeysNeverInterfere | src/ontobdc/cli/adapter/context.py:135-241 | over every run a key's value depends on the operations on that key alone |
| ContextStore.RunKeepsOthers | src/ontobdc/cli/adapter/context.py:135-226 | a run keeps every entry, types included, but those of the individual with the property of a key it used, and invents no other |
| ContextStore.IndividualStaysTyped | src/ontobdc/cli/adapter/context.py:36-282 | from opening through any run the individual stays typed, and the next opening binds one that the first file typed or the default |
| ContextStore.ReopenedReads | src/ontobdc/cli/adapter/context.py:36-282 | the next opening reads every persistent key as the run left it in the graph, and no transient one |
| ContextStore.ReadAfterSet | src/ontobdc/cli/adapter/context.py:135-214 | get after set returns the value if and only if no older object value shadows it |
| ContextStore.ReadsWhatIsThere | src/ontobdc/cli/adapter/context.py:203-214 | a single entry that nothing shadows is read as its value |
| ContextStore.ObjectHidesText | src/ontobdc/cli/adapter/context.py:179-201 | a text set after an object is not what is read |
| ContextStore.SetKeepsOutTransients | src/ontobdc/cli/adapter/context.py:155-193 | a set keeps transient entries out of the graph if and only if it does not use another spelling of one |
| ContextStore.RunsKeepOutTransients | src/ontobdc/cli/adapter/context.py:135-226 | after a run with well-formed keys the graph holds no transient entry if and only if the run used every transient key that had one |
| ContextStore.TransientsAfterRun | src/ontobdc/cli/adapter/context.py:36-282 | from opening any file through any such run: no transient entry if and only if the run used every key that a file without an individual left behind |
| ContextStore.OpenLeftover | src/ontobdc/cli/adapter/context.py:257-282 | opening a file without an individual and setting a parameter writes an old log level back |
| ContextStore.HyphenatedTransientIsPersisted | src/ontobdc/cli/adapter/context.py:159-162 | a hyphenated transient key is persisted |
| Walk.IterContainerFilePaths | src/ontobdc/storage/adapter/manifest.py:171-202 | the walk finds exactly the files reachable without entering a marker directory or a nested dataset, at any depth |
| Walk.ListedStep | src/ontobdc/storage/adapter/manifest.py:187-200 | a path is listed if and only if it is a file here or listed in a sub-directory that is entered |
| Walk.ListedMeans | src/ontobdc/storage/adapter/manifest.py:156-200 | a file is listed if and only if no directory on its way is the marker directory or holds one of the three marks of a dataset |
| Inventory.ListResourcePaths | src/ontobdc/storage/adapter/manifest.py:204-223 | exactly the supported listed files, in strictly increasing order |
| Inventory.SupportsMeans | src/ontobdc/storage/adapter/manifest.py:82-93 | white space around a format is ignored, and a blank one is never supported |
| Inventory.InventoryUnique | src/ontobdc/storage/adapter/manifest.py:223 | the inventory does not depend on the order in which directories are read |
| Inventory.SortedSetLaws | src/ontobdc/storage/adapter/manifest.py:223 | sorting a set gives each item once, in increasing order |
| PathText.ComponentsOfJoin | src/ontobdc/storage/adapter/manifest.py:412-414 | splitting a relative path text undoes joining its components |
| PathText.NormalFormatIdempotent | src/ontobdc/storage/adapter/manifest.py:84 | normalising a format twice is normalising it once |
| ManifestLaws.PathRoundTrip | src/ontobdc/storage/adapter/manifest.py:369-419 | the link a sync writes is read back as the same file, up to white space at the end of its name, with and without tilde expansion |
| ManifestLaws.AbsoluteLeads | src/ontobdc/storage/adapter/manifest.py:380-400 | an absolute path text leads into the container if and only if it names something there |
| ManifestLaws.RelativeLeads | src/ontobdc/storage/adapter/manifest.py:392-400 | a relative one leads into the marker directory, where the descriptor is |
| ManifestLaws.SchemeLeadsOut | src/ontobdc/storage/adapter/manifest.py:386-391 | a text with a scheme other than `file`, in lower case, leads out |
| ManifestLaws.WalkIsInventoried | src/ontobdc/storage/adapter/manifest.py:171-223 | every inventoried path is a supported file outside the marker directory |
| ManifestLaws.BuildIsIdempotent | src/ontobdc/storage/adapter/manifest.py:402-436 | building a resource twice is building it once if and only if its name was not blank |
| ManifestLaws.BuiltFields | src/ontobdc/storage/adapter/manifest.py:411-436 | the five members it owns, and that every other one is kept |
| ManifestLaws.BuiltSpelledOut | src/ontobdc/storage/adapter/manifest.py:402-436 | the five members in terms of the file: link, size, lower-cased extension, guessed type, and the old or a generated name |
| ManifestLaws.NameOfTwoWords | src/ontobdc/storage/adapter/manifest.py:438-451 | a generated name is the words joined by underscores, cut to the last 80 characters, and the digest of the path |
| ManifestLaws.NameBelowDirectory | src/ontobdc/storage/adapter/manifest.py:438-451 | directories count like words, and capitals are written small |
| ManifestLaws.NameWithoutWords | src/ontobdc/storage/adapter/manifest.py:445-451 | a name without letters and digits becomes `resource` |
| ManifestLaws.SortConserves | src/ontobdc/storage/adapter/manifest.py:268-293 | each resource is kept, external or counted as removed, and externals keep their order |
| ManifestLaws.ResourcesMean | src/ontobdc/storage/adapter/manifest.py:353-367 | the resources of a descriptor are the objects of the list, in order; none for null, an error for anything but a list |
| ManifestLaws.ReadableMeans | src/ontobdc/storage/adapter/manifest.py:282-285 | a recorded format decides whether a resource is readable |
| ManifestLaws.SortKeepsFirst | src/ontobdc/storage/adapter/manifest.py:272-293 | kept under a path is the first readable resource that leads there, if the inventory has the path |
| ManifestLaws.BuildExact | src/ontobdc/storage/adapter/manifest.py:295-317 | one resource per inventoried path, in order, and the added counter |
| ManifestLaws.UpdatedCounts | src/ontobdc/storage/adapter/manifest.py:314-317 | the updated counter is the number of kept resources that rebuilding changes |
| Manifest.SortLoop | src/ontobdc/storage/adapter/manifest.py:268-293 | the first loop of a sync computes the specified sorting, or fails exactly when a path cannot be resolved |
| Manifest.BuildLoop | src/ontobdc/storage/adapter/manifest.py:295-317 | the second loop computes the specified resources and counters |
| Manifest.Synchronizer.Run | src/ontobdc/storage/adapter/manifest.py:246-331 | the file and the report are those of one specified sync; a failure leaves the file alone |
| SyncLaws.SyncConserves | src/ontobdc/storage/adapter/manifest.py:259-331 | new count is old count less removed plus added; added is what the inventory has and was not kept, and updated counts the kept resources that the rebuilding changed |
| SyncLaws.SyncOrders | src/ontobdc/storage/adapter/manifest.py:295-322 | one entry per inventoried path in increasing order, then the external resources unchanged; other members stay, and only a missing name is added |
| SyncLaws.SecondSyncIsStable | src/ontobdc/storage/adapter/manifest.py:246-331 | a second sync changes and counts nothing if and only if no file name ends in white space and no kept name is blank |
| SyncLaws.SyncSettles | src/ontobdc/storage/adapter/manifest.py:246-331 | with no such file name the descriptor is stable after two syncs |
| SyncExamples.SpacedNameIsUnstable | src/ontobdc/storage/adapter/manifest.py:246-331 | a container with one file whose name ends in white space is not stable after its first sync |
| SyncExamples.SpacedNameIsSupported | src/ontobdc/storage/adapter/manifest.py:204-223 | `a.b ` is such a name, for every reader of the format `b` |
| SyncExamples.BlankNameIsUnstable | src/ontobdc/storage/adapter/manifest.py:402-436 | nor is one whose resource was given a blank name |
| Publishability.LocalDescriptorPaths | src/ontobdc/view/adapter/publishability.py:122-152 | exactly the paths that the check reads from the descriptor |
| Publishability.IsContainerPublishable | src/ontobdc/view/adapter/publishability.py:17-68 | true if and only if the metadata is ready and each path but the generated surface is a supported listed file exactly when some resource leads to it |
| Publishability.EveryPathIsExpected | src/ontobdc/view/adapter/publishability.py:42-50 | the check's second look at the extension drops no inventoried path |
| Publishability.OnlyTildesDiffer | src/ontobdc/view/adapter/publishability.py:136-147 | check and synchroniser disagree about a resource only over a tilde |
| Publishability.DescribedAfterSync | src/ontobdc/view/adapter/publishability.py:122-152 | what the check reads from a synchronised descriptor |
| Publishability.AgreementAfterSync | src/ontobdc/view/adapter/publishability.py:42-66 | after a sync the check agrees with the tree under exactly the stated condition on externals and file names |
| Publishability.SyncMakesPublishable | src/ontobdc/view/adapter/publishability.py:17-68 | without tildes and trailing white space a synchronised container is publishable |
| Publishability.TildeBreaksPublication | src/ontobdc/view/adapter/publishability.py:136-150 | for every file name a tilde path that makes a synchronised container unpublishable |
| Linkset.WorkStreamResourceLinkset.PairOf | src/ontobdc/context/adapter/workstream_linkset.py:110-119 | a pair that some reading of the link gives; none only if no pair is certain |
| Linkset.MayReadMeans | src/ontobdc/context/adapter/workstream_linkset.py:110-119 | a text may be read when some chain of triples ends in it |
| Linkset.MustReadMeans | src/ontobdc/context/adapter/workstream_linkset.py:110-119 | it is certain when every chain can be followed and ends in it |
| Linkset.WorkStreamResourceLinkset.ActiveResources | src/ontobdc/context/adapter/workstream_linkset.py:41-53 | finds everything certain and nothing impossible, on any graph |
| Linkset.WorkStreamResourceLinkset.AddElement | src/ontobdc/context/adapter/workstream_linkset.py:102-108 | adds one chain of two new blank nodes |
| Linkset.WorkStreamResourceLinkset.Add | src/ontobdc/context/adapter/workstream_linkset.py:55-73 | the whole new graph, and the file equals it |
| Linkset.WorkStreamResourceLinkset.Reject | src/ontobdc/context/adapter/workstream_linkset.py:75-90 | one status is set; an error exactly for related resources, which then changes nothing |
| Linkset.WorkStreamResourceLinkset.Promote | src/ontobdc/context/adapter/workstream_linkset.py:92-96 | both files; on a related linkset the file is written before the error |
| Linkset.ActiveIsExact | src/ontobdc/context/adapter/workstream_linkset.py:41-53 | on a graph that stands for a status map exactly the proposed resources are active |
| Linkset.ActiveMeans | src/ontobdc/context/adapter/workstream_linkset.py:41-53 | what is certain and what is possible, in triples: typed links, readable texts and, for suggestions, the status |
| Linkset.AddRefines | src/ontobdc/context/adapter/workstream_linkset.py:55-73 | adding, also repeatedly, refines one update of the status map |
| Linkset.AddTriples | src/ontobdc/context/adapter/workstream_linkset.py:55-73 | the graph after adding, triple by triple, with four new blank nodes |
| Linkset.StatusTriples | src/ontobdc/context/adapter/workstream_linkset.py:80-89 | setting a status leaves the link with it and one stamp, and every other triple alone |
| Linkset.RejectRefines | src/ontobdc/context/adapter/workstream_linkset.py:75-90 | rejecting refines one update, and nothing for a pair never added |
| LinksetRuns.Perform | src/ontobdc/context/adapter/workstream_linkset.py:55-96 | the calls on either linkset are steps of the modelled machine |
| LinksetRuns.RunRefines | src/ontobdc/context/adapter/workstream_linkset.py:41-119 | over every run both graphs stand for the status maps of the calls |
| LinksetRuns.SuggestedAfterRun | src/ontobdc/context/adapter/workstream_linkset.py:41-96 | active suggestions are exactly the pairs added and not rejected or promoted since |
| LinksetRuns.RelatedAfterRun | src/ontobdc/context/adapter/workstream_linkset.py:41-96 | active related resources are exactly those promoted or added |
| LinksetRuns.PromoteMovesOne | src/ontobdc/context/adapter/workstream_linkset.py:92-96 | promoting moves one resource and changes no other pair |
| LinksetRuns.LinksAreSeparate | src/ontobdc/context/adapter/workstream_linkset.py:98-100 | without bars in dimensions and digest collisions no two pairs share a link |
| Linkset.LinkSpelledOut | src/ontobdc/context/adapter/workstream_linkset.py:98-100 | the text of a link of either kind |
| LinksetRuns.BarsCollide | src/ontobdc/context/adapter/workstream_linkset.py:98-100 | with a bar two pairs share a link, whatever the digest |
| LinksetRuns.BarsHide | src/ontobdc/context/adapter/workstream_linkset.py:41-100 | a run over two pairs with a bar hides a resource that was added and never rejected |
| LinksetRuns.FaithfulIffNoCollisions | src/ontobdc/context/adapter/workstream_linkset.py:41-100 | the answers are right after every run if and only if no two pairs share a link |
| Utf8.EncodeInjective | src/ontobdc/view/adapter/publication.py:295 | two strings with the same UTF-8 bytes are the same string |
| Fingerprint.LittleEndianInverts | src/ontobdc/view/adapter/publication.py:298-307 | unpacking little-endian bytes gives the number modulo what fits |
| Fingerprint.OwnerIsExact | src/ontobdc/view/adapter/publication.py:306 | the packed owner determines user and group identifiers modulo 32 bits, for all integers |
| Fingerprint.UpdateFileDigest | src/ontobdc/view/adapter/publication.py:276-309 | feeds one record, or fails exactly without a stat |
| Fingerprint.RecordFields | src/ontobdc/view/adapter/publication.py:295-309 | a record is the path, a zero, the seven fields in order as far as eight bytes hold them, and a zero |
| Fingerprint.CalculateSourceFingerprint | src/ontobdc/view/adapter/publication.py:242-264 | feeds the metadata file and then, in increasing order, exactly the inventoried paths other than `index.html`; fails if and only if the container is no directory or one of them has no stat |
| Fingerprint.RecordIsPrefixFree | src/ontobdc/view/adapter/publication.py:295-309 | a record at the head of a stream is determined by the stream |
| Fingerprint.StreamIsExact | src/ontobdc/view/adapter/publication.py:276-309 | two lists of files feed the same bytes if and only if paths, order and recorded fields agree |
| Fingerprint.FingerprintIsExact | src/ontobdc/view/adapter/publication.py:242-264 | two states of a container feed the same bytes if and only if every path but `index.html` is in both inventories or in neither, and the recorded fields agree |
| JsonText.DumpsIsPiece | src/ontobdc/view/adapter/surface/document.py:110 | the printer emits whole escapes (section 7 of RFC 8259), of exactly the kinds the payload's strings call for |
| JsonText.TokensHaveNoEscaped | src/ontobdc/view/adapter/surface/document.py:110 | such a text holds no escaped closing |
| JsonText.EscapeThenUnescape | src/ontobdc/view/adapter/surface/document.py:110 | unescaping undoes escaping if and only if the text held no escaped closing |
| JsonText.PrintedTextIsRecovered | src/ontobdc/view/adapter/surface/document.py:105-158 | for every payload the escaped body has no closing and unescapes to the printed text |
| JsonReading.DumpsPrefixFree | src/ontobdc/view/adapter/surface/document.py:110 | a printed value at the head of a text is determined by the text |
| JsonReading.DumpsInjective | src/ontobdc/view/adapter/surface/document.py:110 | no two payloads are printed alike |
| JsonText.ExpandShortens | src/ontobdc/view/adapter/surface/document.py:127 | template expansion fixes a text if and only if its escapes are inert, and shortens every other |
| JsonText.ExpandFails | src/ontobdc/view/adapter/surface/document.py:127 | template expansion fails exactly on a Unicode escape |
| SurfaceDocument.SearchIs | src/ontobdc/view/adapter/surface/document.py:121-126 | the search returns the leftmost match of the pattern |
| SurfaceDocument.NextCloseIs | src/ontobdc/view/adapter/surface/document.py:122-123 | the lazy group ends at the first closing tag |
| SurfaceLaws.WrittenIsPlaced | src/ontobdc/view/adapter/surface/document.py:105-111 | a written script is a match whose group is the body on lines of its own |
| SurfaceTexts.ScriptText | src/ontobdc/view/adapter/surface/document.py:105-111 | the text of a script, in full |
| SurfaceTexts.ListLines | src/ontobdc/view/adapter/surface/document.py:110 | lists are printed with two spaces more on every level |
| SurfaceTexts.ObjectLines | src/ontobdc/view/adapter/surface/document.py:110 | and so are objects, with a colon and a space behind each key |
| SurfaceTexts.QuotedCharacter | src/ontobdc/view/adapter/surface/document.py:110 | which characters of a string are escaped, and how |
| SurfaceTexts.ClosingTagsEscaped | src/ontobdc/view/adapter/surface/document.py:110 | every closing and nothing else is escaped, from the left |
| SurfaceTexts.OpeningMeans | src/ontobdc/view/adapter/surface/document.py:121-125 | what the pattern accepts as an opening tag for an identifier, letter by letter |
| SurfaceLaws.InsertRoundTrip | src/ontobdc/view/adapter/surface/document.py:114-158 | after an insertion extraction gives back the payload, from its printed text, if and only if no complete opening tag for the identifier ends before it |
| SurfaceTexts.InsertionText | src/ontobdc/view/adapter/surface/document.py:126-128 | the document after an insertion: the script on a line before the first closing head tag, and everything else as it was |
| SurfaceLaws.InsertionFails | src/ontobdc/view/adapter/surface/document.py:114-158 | a head with an unclosed opening tag loses every payload |
| SurfaceLaws.ReplaceRoundTrip | src/ontobdc/view/adapter/surface/document.py:126-158 | a replacement raises exactly for a control character without a short escape, and gives back the payload if and only if no string holds a backslash or control character |
| SurfaceTexts.SmoothReplacementText | src/ontobdc/view/adapter/surface/document.py:126-127 | the document after a replacement: the script in the place of the leftmost match, when its strings need no escape |
| SurfaceTexts.ReplacementText | src/ontobdc/view/adapter/surface/document.py:126-127 | and the expanded script in every other case |
| SurfaceLaws.ReplacementsFail | src/ontobdc/view/adapter/surface/document.py:126-158 | replacing any written script by a backslash loses it, and by an unnamed control character raises |
| SurfaceRun.Handler.Evaluate | src/ontobdc/view/adapter/surface/machine.py:68-94 | the end of the longest prefix of states whose checks hold |
| SurfaceRun.NothingBeyondData | src/ontobdc/view/adapter/surface/machine.py:75-79 | without a surface path no state of the surface is observed |
| SurfaceRun.Handler.CanTransitTo | src/ontobdc/view/adapter/surface/machine.py:132-138 | true if and only if the target is the next state of the sequence |
| SurfaceRun.Handler.Perform | src/ontobdc/view/adapter/surface/machine.py:140-155 | records the target unless its capability raises |
| SurfaceRun.PrefixEndIsUnique | src/ontobdc/view/adapter/surface/machine.py:68-94 | the evaluator's answer is unique |
| SurfaceRun.Interpreter.ExecuteOnce | src/ontobdc/view/domain/machine/standard_surface_html.yaml:9-119 | enters the initial state or takes the transition to the next state; idle only without one; fails only if the capability raised |
| SurfaceRun.Work | src/ontobdc/shared/adapter/worker.py:34-78 | what a run visits, for any chart, any stop state and any capability effects; when it is stuck; it raises only if a capability did |
| SurfaceRun.RunIsContiguous | src/ontobdc/shared/adapter/worker.py:34-78 | for any observed state, a run to a stop state ahead visits exactly the states between if and only if the start was observed first, and a final stop state is observed in the end |
| SurfaceRun.ReusedHandlerLeavesAGap | src/ontobdc/shared/adapter/worker.py:52-53 | a handler bound to another state than the observed one lists the observed state first, and then the same states |
| SurfaceRun.StandardGap | src/ontobdc/shared/adapter/worker.py:52-53 | such a run of the shipped chart |
| SurfaceRun.StandardEnd | src/ontobdc/shared/adapter/worker.py:59-78 | a full run of the shipped chart that does not list the final state |
| SurfaceRun.ExecuteUntil | src/ontobdc/view/adapter/surface/machine.py:174-179 | on a linear chart, without a raising capability, a run of a fresh handler visits exactly the states up to a stop state ahead |
| SurfaceRun.FullRun | src/ontobdc/shared/adapter/worker.py:59-78 | a run without a stop state visits everything up to the final state, which shows only if observed; it is the rest of the sequence if and only if start and end were observed |
| SurfaceRun.LinearIsNeverStuck | src/ontobdc/shared/adapter/worker.py:67-70 | on a linear chart no run is stuck |
| SurfaceRun.StandardChartIsLinear | src/ontobdc/view/domain/machine/standard_surface_html.yaml:9-119 | the shipped chart follows the state enumeration |

## Left out

- Turtle text: a file that holds a graph is identified with the graph, so relabelling of blank nodes, prefixes and serialisation errors are not modelled.
- rdflib rejects a plain string as an object, which the code passes at attachment/metadata.py lines 90-101, 142-169 and 244-255: identifiers and texts are modelled as literals and locations as URIs, the forms that inspection demands.
- `obdc:` and `ct:` forms of description and creation date, which the code mixes, are one predicate each.
- The rewritten dataset graphs are returned in a list instead of being stored in the plan under `_rewritten_graph`.
- Paths are lists of components in a file system without symbolic links; empty directories, permissions and the failure of single `mkdir` calls outside the oracle are not modelled.
- StorageIndex.IndexAfterAttachment, StorageIndex.NoCollateralLoss and the members of `Reattachment`: an import whose container is renamed to something else, yet whose graph already describes the target, is attached by the code and not covered.
- Case mapping of file formats, keys and names is ASCII only; `str.strip` uses the full list of white space.
- `urlsplit`: its removal of control characters and its errors for malformed brackets are not modelled; what a `file:` URI decodes to is an arbitrary function, and so is the home directory of a tilde.
- `Path.suffix` follows Python up to 3.13, where a trailing dot gives no suffix.
- Numbers in descriptors are reals, and `True == 1` of Python, which could hide an updated size, is not modelled.
- SHA digests, MIME types, format probing, `stat` results and `str` of values that are not strings are arbitrary functions; digests are assumed injective only where a member says so.
- The message stored after a failed attachment and the directory that `mkdtemp` makes are parameters.
- The check for ready container metadata is a parameter of the publication check; the surface path arrives resolved.
- Linkset.WorkStreamResourceLinkset.constructor: takes one of the two kinds, so the error for an unknown kind does not arise.
- File errors while saving a linkset, a descriptor or the context file are not modelled; the attachment protocol is where they are.
- Fingerprint.Record: file names that UTF-8 cannot encode, and the error they raise, are not modelled.
- `is_data_gathered` (publication.py lines 174-187) is a conjunction of three comparisons with these fingerprints and is not stated again.
- JSON parsing: `JsonReading.Loads` reads the printer's own layout; other layouts, which `json.loads` reads too, count as not read.
- SurfaceDocument.Upsert: script identifiers and types are plain ASCII words, as all of the program's are.
- sismic: the interpreter is modelled for a flat chart with guarded, eventless transitions; its contract checks are the handler's own.
- A capability or check that is missing altogether, and the errors for it, are not part of the run model.
- `attachment/machine.py`, `attachment/context.py`, `is_storage_index_attached` and the older `storage/adapter/attachment_plan.py` are not part of this model.
- `context/adapter/vector.py` (candidate de-duplication) and `normalize_matches` are not modelled.
- `publication._descriptor_local_paths` treats URL resources as local paths and so disagrees with the synchroniser; `publishability.py` is the check that is modelled.
