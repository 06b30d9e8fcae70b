# image-scanning: task reconciliation and execution, in Dafny

This project models the core of opensourceways/image-scanning. The service
keeps a ledger of container-image scan tasks in step with each community's
declarative scan configuration, and it runs a vulnerability scan for every
task that is due.

- **Configuration expansion** (`scanning/domain/scan_config.go`,
  `scanning/domain/task.go`). A scan configuration lists repositories and
  individual images. These expand into a map of tasks keyed by identity.
  Entries at image level override entries at repository level, and
  missing arches and intervals are filled from the community's defaults.
- **Reconciliation** (`scanning/app/community.go`). The handler of a
  community deletes the ledger rows whose key is no longer wanted. It then
  saves each wanted task: an existing row keeps its id and last scan time,
  and a missing row is inserted.
- **Execution** (`scanning/app/task.go`). On each pass, every handler loads
  its community's rows and runs each due task. Running a task means one
  scanner run per listed architecture and one uploaded Markdown report
  with a section per distinct architecture. A task whose upload succeeds
  is stamped with the current time. A task is due when it was never
  scanned, or when the current instant lies past its last scan time plus
  its interval. Instants are nanoseconds, and the interval's seconds
  become a 64-bit nanosecond duration that wraps. A stamped task is due
  again at once exactly when that duration is negative. Intervals of
  9,223,372,037 to 18,446,744,073 seconds (such as "20000w") land there;
  longer intervals, and negative ones below -9,223,372,036 seconds, wrap
  to values of either sign ("30501w" gives about three days, "-15251w"
  about 292 years).
- **Supporting pieces.**
  - the interval parser (`utils/util.go`);
  - the registry whitelist (`scanning/domain/primitive/registry.go`);
  - the storage row and its conversions
    (`scanning/infrastructure/repositoryimpl/task_do.go`);
  - the report renderer (`scanning/domain/scan_result.go`);
  - configuration defaulting (`scanning/app/config.go`,
    `common/infrastructure/postgresql/config.go`).

The modules follow the source packages:

| module | what it holds |
|---|---|
| `Wrappers` | `Option` and `Result` |
| `Strings` | Go's `Split`, `Join` and `TrimPrefix`, and decimal formatting |
| `Util` | `StringToInterval` |
| `Primitive` | the registry type |
| `Tasks` | the task entity |
| `ScanConfigs` | configuration expansion |
| `ScanResults` | report rendering |
| `TaskStore` | the storage row |
| `Ledgers` | the task repository, as an in-memory class |
| `Platforms` | community and platform data |
| `CommunityHandlers` | the per-community handler |
| `TaskServices` | the task service |
| `TrivyConfig` | the trivy source locations |
| `Postgresql` | the database settings |

Where the Go code writes through pointers, the model keeps that form. The
handler, the service, the ledger, the global defaults and both
configuration structs are classes, and their methods change their fields.
The task itself is a value: the Go code copies tasks in and out of maps
and slices, so its pointer-receiver updates return an updated task. The
loops of the source are `while`/`for` loops, each proved against a
specification function.

The ledger has the query semantics of the gorm implementation:

- a filter field left empty matches every row;
- `Find` returns the matching row with the lowest id;
- `FindAll` returns rows ordered by id;
- `Save` with id 0 inserts under the next free id, and any other id is
  written under that id.

Verifying the natural contracts exposed three behaviours of the code. Each
is stated as a lemma:

- `Tasks.KeyCollision`: the key joins the identity fields with `-`, so two
  different identities can share a key. A key-indexed map then keeps only
  one of them.
- `Ledgers.EmptyProbeFieldsMatchOtherRows`: `Find` treats an empty
  identity field as a wildcard, so `saveTask` can update the row of another
  image. For that reason, the placement guarantee of reconciliation is
  proved for tasks whose five identity fields are all non-empty.
- `TaskStore.EmptyArchReadsBackAsOneEmptyArch` and
  `TaskStore.CommaInArchSplits`: storing arches as one comma-joined column
  does not round-trip an empty list or an arch that contains a comma.

`ExecTask` stamps and saves a task only after `handleTask` succeeds
(`scanning/app/task.go:103-111`), so a failed run leaves the last scan time
as it was and the task is due again on the next pass. The handlers, and
the tasks of each handler, run one after another
(`scanning/app/task.go:91-112`). The model follows both.

## Model

| member | source | states |
|---|---|---|
| Util.StringToInterval | utils/util.go:25-54 | shorter than two characters gives InvalidFormat; otherwise an unparsable prefix gives InvalidNumber; otherwise a unit outside m/h/d/w gives UnsupportedUnit; success exactly when all three checks pass, with a 64-bit result |
| Util.WrapAbove | utils/util.go:41-48 | a value just above the 64-bit range wraps to itself minus 2^64, which is negative |
| Util.UnitSeconds | utils/util.go:40-51 | defined exactly for m, h, d and w, each a positive multiple of 60 seconds |
| Util.Atoi | utils/util.go:34-37 | a parsed number fits in 64 bits and comes from a non-empty string |
| Util.WrapInt64 | utils/util.go:41-48 | the 64-bit two's-complement wrap of an exact product: in range, unchanged when already in range, congruent modulo 2^64 |
| Util.AtoiFormatInt | utils/util.go:34 | every 64-bit integer formatted in decimal parses back to itself |
| Util.IntervalIsScaledPrefix | utils/util.go:31-53 | a successful result is the parsed prefix times the unit's seconds, wrapped; without overflow it is exact and a multiple of 60 |
| Util.IntervalRoundTrip | utils/util.go:25-54 | a decimal number followed by a supported unit parses to that number of units |
| Util.DocumentedExamples | utils/util.go:24-54 | the documented formats 24h, 1d, 1w and 30m give 86400, 86400, 604800 and 1800 seconds |
| Util.ErrorOrderAndSign | utils/util.go:26-50 | the errors come in the order length, number, unit, and a negative number is accepted |
| Primitive.IsSupported | scanning/domain/primitive/registry.go:5-16 | docker.io, quay.io and hub.oepkgs.net; Primitive.NewRegistry accepts exactly these and Primitive.SupportedHasNoSeparators states their shape |
| Primitive.NewRegistry | scanning/domain/primitive/registry.go:15-21 | succeeds exactly for docker.io, quay.io and hub.oepkgs.net, keeping the name; otherwise fails with the unsupported-registry error |
| Primitive.CreateRegistry | scanning/domain/primitive/registry.go:23-25 | accepts any name and gives it back unchanged through String |
| Primitive.Registry.String | scanning/domain/primitive/registry.go:29-31 | the name the registry was made from |
| Primitive.SupportedHasNoSeparators | scanning/domain/primitive/registry.go:5-9 | no whitelisted name is empty or holds "/" or ":" |
| Strings.Join5 | scanning/domain/task.go:42-44 | joining five parts puts the separator between consecutive parts and nowhere else |
| Tasks.IntervalDuration | scanning/domain/task.go:56 | the interval's seconds as a 64-bit nanosecond duration, exactly interval times 10^9 when that fits |
| Tasks.Task.UniqueKey | scanning/domain/task.go:42-44 | the five identity fields joined by "-"; Tasks.UniqueKeyIsJoin and Tasks.KeyOfIdentity state it, and Tasks.KeyCollision shows it is not injective |
| Tasks.Task.ImagePath | scanning/domain/task.go:61-63 | registry/namespace/image:tag; Tasks.ImagePathIsJoin and Tasks.ImagePathSplits state it |
| Tasks.Task.LocalImagePath | scanning/domain/task.go:65-67 | images/ then registry, namespace, image, tag and arch joined by "_"; Tasks.LocalImagePathIsJoin states it |
| Tasks.Task.MarkdownPath | scanning/domain/task.go:73-75 | registry/namespace/image/tag.md; Tasks.MarkdownPathIsJoin states it |
| Tasks.Task.IsNeedToScan | scanning/domain/task.go:51-59 | due when never scanned, otherwise strictly after the last scan time plus the wrapped duration; Tasks.DueBoundary, Tasks.StampedTaskNotDue, Tasks.StampedDueAtOnceIff, Tasks.LongIntervalDueAtOnce, Tasks.LongIntervalsWrapPositive and Tasks.DueIsMonotone state it |
| Tasks.UniqueKeyIsJoin | scanning/domain/task.go:42-44 | the key is community, registry, namespace, image and tag joined by "-" |
| Tasks.KeyOfIdentity | scanning/domain/task.go:42-44 | tasks with the same five identity fields have the same key |
| Tasks.KeyCollision | scanning/domain/task.go:42-44 | two tasks with different identities can have the same key |
| Tasks.ImagePathIsJoin | scanning/domain/task.go:61-63 | the image path is registry/namespace/image:tag |
| Tasks.ImagePathSplits | scanning/domain/task.go:61-63 | with no separators inside its parts, the image path splits back into registry, namespace, image and tag |
| Tasks.LocalImagePathIsJoin | scanning/domain/task.go:65-67 | the local path is images/ followed by registry, namespace, image, tag and arch joined by "_" |
| Tasks.MarkdownPathIsJoin | scanning/domain/task.go:73-75 | the report path is registry/namespace/image/tag.md and ends in .md |
| Tasks.Task.UpdateIntervalAndArch | scanning/domain/task.go:46-49 | replaces the interval and the arches; id, last scan time and identity are kept |
| Tasks.Task.UpdateLastScanTime | scanning/domain/task.go:69-71 | sets the last scan time to now and changes nothing else |
| Tasks.Task.FormatArch | scanning/domain/task.go:77-84 | one entry per arch, in order, each with one leading "linux/" removed when present and unchanged otherwise |
| Tasks.DueBoundary | scanning/domain/task.go:51-59 | a scanned task is not due exactly at last scan time plus its wrapped duration, and is due one nanosecond later |
| Tasks.StampedTaskNotDue | scanning/domain/task.go:51-71 | right after being stamped at a non-zero time, a task whose interval fits the duration is not due, and it is due one nanosecond after the interval's seconds have passed |
| Tasks.LongIntervalDueAtOnce | scanning/domain/task.go:51-71 | in the first band past the 64-bit duration, 9,223,372,037 to 18,446,744,073 seconds, the duration wraps negative, so the task is due at the very instant it was stamped |
| Tasks.StampedDueAtOnceIff | scanning/domain/task.go:51-71 | for every interval, a task stamped at a non-zero time is due at that instant exactly when its wrapped duration is negative |
| Tasks.LongIntervalsWrapPositive | scanning/domain/task.go:51-71 | past the first band the wrap can turn positive again: "30501w" and "-15251w" give durations of about three days and 292 years, and neither task is due when just stamped |
| Tasks.DueIsMonotone | scanning/domain/task.go:51-59 | a due task stays due as time goes on |
| ScanConfigs.GlobalConfig.InitGlobalConfig | scanning/domain/scan_config.go:31-37 | files the community's defaults, replacing earlier ones, and keeps those of other communities |
| ScanConfigs.GetArches | scanning/domain/scan_config.go:243-254 | the given arches when non-empty, else the community's default arches, else none |
| ScanConfigs.GetInterval | scanning/domain/scan_config.go:256-268 | the given interval when it parses, else the community's default interval parsed, else the no-interval error |
| ScanConfigs.ToTask | scanning/domain/scan_config.go:270-285 | fails exactly for a registry outside the whitelist; otherwise copies every field, with id 0 and a zero last scan time |
| ScanConfigs.TagToTask | scanning/domain/scan_config.go:122-150 | a disabled tag fails first, then an interval error, then a wrong number of "/" parts, then a wrong number of ":" parts with the image-tag format error; with both counts right it succeeds exactly when the registry is whitelisted and fails otherwise with the unsupported-registry error; success holds the parsed registry, namespace, image and tag, with the resolved arches and interval |
| ScanConfigs.AllTagsOfImage | scanning/domain/scan_config.go:152-161 | only docker.io and quay.io are listed; any other registry is an error |
| ScanConfigs.ImageOfRepoGenTask | scanning/domain/scan_config.go:90-106 | the map after writing, in order, every listed tag of one image that converts, each under its key |
| ScanConfigs.RepoGenTask | scanning/domain/scan_config.go:82-107 | the map after writing the tasks of every image of the repository; an interval error writes nothing |
| ScanConfigs.ImageGenTask | scanning/domain/scan_config.go:109-120 | the map after writing, in order, every tag that converts, overwriting entries with the same key |
| ScanConfigs.GenerateTask | scanning/domain/task.go:27-40 | files the community's defaults, then returns all repository-level tasks overwritten by all image-level tasks |
| ScanConfigs.InsertLastWins | scanning/domain/scan_config.go:104-118 | the last task written under a key is the one the map keeps |
| ScanConfigs.InsertKeys | scanning/domain/scan_config.go:104 | the keys after writing are the old keys plus the key of each task written |
| ScanConfigs.InsertWellKeyed | scanning/domain/scan_config.go:104 | writing keeps every entry stored under its own key |
| ScanConfigs.InsertOverrides | scanning/domain/scan_config.go:117-118 | writing a list over a map overrides the map's entries with the list's |
| ScanConfigs.ImageOfRepoCandidatesContents | scanning/domain/scan_config.go:90-106 | a task comes from an image of a repository exactly when its tag list is fetched and one of its tags converts to it |
| ScanConfigs.RepoCandidatesContents | scanning/domain/scan_config.go:82-107 | a task comes from a repository exactly when the interval resolves and the task comes from one of its images |
| ScanConfigs.UnlistableRegistryContributesNothing | scanning/domain/scan_config.go:152-161 | a repository on a registry other than docker.io or quay.io contributes no task |
| ScanConfigs.TagCandidatesContents | scanning/domain/scan_config.go:109-120 | a task comes from an image entry exactly when one of its tags converts to it |
| ScanConfigs.DesiredTasksWellFormed | scanning/domain/task.go:27-40 | every generated task sits under its own key and is a new task of the community: id 0, zero last scan time, whitelisted registry |
| ScanConfigs.DesiredIsRepoLevelOverriddenByImageLevel | scanning/domain/task.go:31-37 | the generated map is the repository-level map overridden by the image-level map |
| ScanConfigs.TagToTaskParsesImagePath | scanning/domain/scan_config.go:134-149 | a tag spelled as a task's image path, with no separators inside its parts, converts back to a task with the same identity and key |
| ScanResults.ImageConfig.GenArch | scanning/domain/scan_result.go:30-32 | os "/" arch; ScanResults.GenArchSplits and ScanResults.LinuxGenArchTrims state it |
| ScanResults.IsValid | scanning/domain/scan_result.go:41-43 | os-pkgs results of openEuler or Ubuntu; ScanResults.Reported and ScanResults.OnlyReportedResultsHaveRows state what it selects |
| ScanResults.FormatVulnerabilityId | scanning/domain/scan_result.go:45-55 | a Markdown link from the id to the advisory prefix plus the id; ScanResults.LinkTextAndTarget states it |
| ScanResults.GenArchSplits | scanning/domain/scan_result.go:30-32 | the os/arch string splits back into os and arch |
| ScanResults.LinuxGenArchTrims | scanning/domain/scan_result.go:30-32 | for linux, removing the "linux/" prefix gives back the arch |
| ScanResults.AdvisoryPrefix | scanning/domain/scan_result.go:46-52 | the openEuler or Ubuntu advisory URL by OS type, and nothing for any other type |
| ScanResults.LinkTextAndTarget | scanning/domain/scan_result.go:45-55 | the link shows the id and points at the advisory prefix followed by the id |
| ScanResults.Reported | scanning/domain/scan_result.go:41-43 | keeps only results of class os-pkgs on openEuler or Ubuntu |
| ScanResults.AppendResultRows | scanning/domain/scan_result.go:79-90 | appends one row per vulnerability of a reported result, in order |
| ScanResults.ToMarkdown | scanning/domain/scan_result.go:66-101 | the table head and one row per vulnerability of each reported result, or the no-vulnerabilities text, then a newline |
| ScanResults.BuildContent | scanning/domain/scan_result.go:108-121 | the heading, then per architecture a section holding its table or its error text |
| ScanResults.RowSplitsIntoCells | scanning/domain/scan_result.go:71-87 | with no "\|" in the cells, a row splits back into its six cells |
| ScanResults.RowCount | scanning/domain/scan_result.go:74-91 | the table has exactly one row per vulnerability of a reported result |
| ScanResults.OnlyReportedResultsHaveRows | scanning/domain/scan_result.go:74-77 | results that are not reported contribute no rows |
| ScanResults.EmptyReport | scanning/domain/scan_result.go:93-100 | without reported vulnerabilities the report is the no-vulnerabilities text and a newline |
| ScanResults.MarkdownLines | scanning/domain/scan_result.go:93-100 | a non-empty table reads line by line as the two head lines, the rows, and a final empty line |
| ScanResults.MarkdownEndsWithNewline | scanning/domain/scan_result.go:100 | every rendered table ends with a newline |
| ScanResults.ContentEndsWithNewline | scanning/domain/scan_result.go:108-121 | the whole report ends with a newline |
| TaskStore.TaskDO.TableName | scanning/infrastructure/repositoryimpl/task_do.go:29-31 | the rows live in the table named task |
| TaskStore.ToTaskDO | scanning/infrastructure/repositoryimpl/task_do.go:33-45 | the row of a task, with the registry by name and the arches joined by ","; TaskStore.TaskRoundTrip and TaskStore.RowRoundTrip state it |
| TaskStore.ToTask | scanning/infrastructure/repositoryimpl/task_do.go:47-59 | the task of a row, with any registry name accepted and the arches split at ","; TaskStore.RowRoundTrip, TaskStore.EmptyArchReadsBackAsOneEmptyArch and TaskStore.CommaInArchSplits state it |
| TaskStore.TaskRoundTrip | scanning/infrastructure/repositoryimpl/task_do.go:33-59 | writing a task and reading it back keeps every field except the arches, which are joined and split, and keeps identity and key |
| TaskStore.ArchRoundTrip | scanning/infrastructure/repositoryimpl/task_do.go:41-55 | a non-empty arch list without commas survives the round trip |
| TaskStore.EmptyArchReadsBackAsOneEmptyArch | scanning/infrastructure/repositoryimpl/task_do.go:41-55 | an empty arch list is stored as "" and reads back as one empty arch |
| TaskStore.CommaInArchSplits | scanning/infrastructure/repositoryimpl/task_do.go:41-55 | an arch that contains a comma reads back as two arches |
| TaskStore.RowRoundTrip | scanning/infrastructure/repositoryimpl/task_do.go:33-59 | reading a row and writing the task back gives the same row |
| TaskStore.RowKeyOfIdentity | scanning/infrastructure/repositoryimpl/task_do.go:47-59 | the key of a stored row depends on its five identity columns only |
| Ledgers.Ledger.Save | scanning/infrastructure/repositoryimpl/task.go:25-29 | id 0 inserts under the next free id; any other id writes under that id; a faulted save changes nothing |
| Ledgers.Ledger.Find | scanning/infrastructure/repositoryimpl/task.go:31-58 | the lowest-id row that meets the probe's non-empty identity fields, NotFound when there is none, or the fault |
| Ledgers.Ledger.FindAll | scanning/infrastructure/repositoryimpl/task.go:60-72 | the community's rows read back as tasks in ascending id order, every row for the empty name, or the fault |
| Ledgers.Ledger.DeleteByIds | scanning/infrastructure/repositoryimpl/task.go:74-76 | removes exactly the rows with the given ids, or nothing on a fault |
| Ledgers.MinOf | scanning/infrastructure/repositoryimpl/task.go:53 | the least id of a non-empty set |
| Ledgers.MinElement | scanning/infrastructure/repositoryimpl/task.go:53 | one pass over a set finds its least id |
| Ledgers.SortedElements | scanning/infrastructure/repositoryimpl/task.go:62 | repeatedly taking out the least id lists the set in ascending order |
| Ledgers.SortedIdsSpec | scanning/infrastructure/repositoryimpl/task.go:62 | the ordered list holds each id once, strictly ascending, and no other |
| Ledgers.SortedIdsElements | scanning/infrastructure/repositoryimpl/task.go:62 | the ordered list has exactly the ids of the set, as many as the set has |
| Ledgers.SortedIdsAscending | scanning/infrastructure/repositoryimpl/task.go:62 | the ordered list is strictly ascending |
| Ledgers.CommunityOrder | scanning/infrastructure/repositoryimpl/task.go:62 | every listed id is a row of the community |
| Ledgers.CommunityTasksSpec | scanning/infrastructure/repositoryimpl/task.go:60-72 | FindAll lists each row of the community once, read back as a task, in strictly ascending id order, and no other row |
| Ledgers.FindRowOfFullProbe | scanning/infrastructure/repositoryimpl/task.go:31-58 | a probe with all five identity fields finds only a row with its identity and key |
| Ledgers.EmptyProbeFieldsMatchOtherRows | scanning/infrastructure/repositoryimpl/task.go:41-53 | a probe with an empty namespace and tag finds a row of another namespace and tag |
| Platforms.Platform.SetOutput | scanning/domain/platform/platform.go:23 | points the client at the report location and changes nothing else |
| CommunityHandlers.ScanParams | scanning/app/community.go:85-94 | twelve scanner arguments, "--platform" followed by the arch, with the image path last |
| CommunityHandlers.DistinctSpec | scanning/app/community.go:83-97 | one entry per distinct arch, each of the task's arches and no other, none repeated |
| CommunityHandlers.ArchSectionsCover | scanning/app/community.go:83-99 | each arch of the task has exactly one report section, whose scan ran with "--platform" and that arch, and with the task's image path |
| CommunityHandlers.CommunityHandler.constructor | scanning/app/community.go:17-23 | the handler keeps the community's name, the ledger and the platform |
| CommunityHandlers.CommunityHandler.HandleTask | scanning/app/community.go:82-100 | the result is the upload, to the task's markdown path, of the report built from one scan per listed arch, with one section per distinct arch |
| CommunityHandlers.CommunityHandler.ClearOldTasks | scanning/app/community.go:46-65 | a FindAll fault is returned with nothing deleted; with nothing stale no delete happens; otherwise exactly the community's rows whose key is not wanted are deleted, or the delete fault is returned |
| CommunityHandlers.CommunityHandler.SaveTask | scanning/app/community.go:67-80 | a Find fault is returned unsaved; otherwise the found row, updated with the new interval and arches, or the new task is saved |
| CommunityHandlers.CommunityHandler.GenerateTask | scanning/app/community.go:31-42 | other communities' rows are kept; every wanted task is placed, keeping the id and last scan time of an existing row; after a clean clear the community holds exactly the wanted keys |
| CommunityHandlers.CommunityHandler.Reconcile | scanning/app/community.go:33-41 | clears, then saves every wanted task whether or not the clear failed, with the placement and key guarantees of GenerateTask |
| CommunityHandlers.CommunityHandler.SaveWanted | scanning/app/community.go:37-41 | one save keeps the save loop's invariant: saved tasks placed, unsaved tasks' rows untouched, saved keys added |
| CommunityHandlers.MatchedRowKey | scanning/app/community.go:67-76 | the row found by a full probe has the probe's key |
| CommunityHandlers.SaveShape | scanning/app/community.go:67-79 | saveTask updates the first matching row in place, keeping its id and last scan time, or inserts at the next free id |
| CommunityHandlers.ClearKeepsOthers | scanning/app/community.go:46-64 | deleting the stale rows keeps every other community's rows |
| CommunityHandlers.ClearKeepsWantedRows | scanning/app/community.go:46-64 | deleting the stale rows keeps every row that a wanted task matches |
| CommunityHandlers.StaleTaskIds | scanning/app/community.go:52-62 | the ids collected from FindAll's tasks are exactly the stale ids, and the list is empty exactly when nothing is stale |
| TaskServices.GetPlatform | scanning/app/task.go:34-43 | a client exactly for gitee and github, of the matching kind, for the community |
| TaskServices.TaskService.constructor | scanning/app/task.go:22-27 | a service over the communities and the ledger, with no handlers and no recorded shas |
| TaskServices.TaskService.ShaCheckNotChange | scanning/app/task.go:76-88 | records the new sha, and answers true exactly when the same sha was recorded before |
| TaskServices.TaskService.GenerateTask | scanning/app/task.go:45-74 | the shas, defaults and handlers are those of the pass: each fetched community with a changed sha gets a new handler on its platform pointed at its output, and other handlers are kept; with non-empty names, communities not reconciled keep their rows; with distinct names as well, each reconciled community's rows hold what its handler's generateTask promises for the tasks its new configuration wants |
| TaskServices.WantedKeys | scanning/app/task.go:59-72 | the pass has wanted tasks for exactly the communities it reconciles, all of them listed |
| TaskServices.OthersKeepCommunity | scanning/app/community.go:31-42 | a reconciliation that keeps the rows outside one community keeps every other community's rows |
| TaskServices.MatchingIsLocal | scanning/infrastructure/repositoryimpl/task.go:31-58 | a probe with a non-empty community matches only rows of that community |
| TaskServices.RestrictBefore | scanning/app/community.go:31-42 | a community's reconciliation result still holds when measured from that community's earlier rows alone |
| TaskServices.AfterIsLocal | scanning/app/community.go:31-42 | a community's reconciliation result survives any later change outside that community |
| TaskServices.RowsStep | scanning/app/task.go:59-72 | reconciling one more community keeps every earlier community's result and the untouched communities' rows |
| TaskServices.TaskService.GenerateFor | scanning/app/task.go:46-73 | one community of the pass keeps the shas, defaults, handlers and rows in step with the plan and the wanted tasks |
| TaskServices.TaskService.Reconfigure | scanning/app/task.go:64-72 | the new handler is filed under the community's name on the given platform, the community's defaults are filed, and its rows hold the reconciliation result for its wanted tasks |
| TaskServices.TaskService.NewHandler | scanning/app/task.go:64-66 | a new handler over the shared ledger files its defaults, keeps other communities' rows, and leaves the community's rows holding what generateTask promises for the wanted tasks |
| TaskServices.CurrentShasReconcileNothing | scanning/app/task.go:59-62 | when every sha is already recorded, a pass reconciles nothing |
| TaskServices.PassRecordsShas | scanning/app/task.go:76-82 | after a pass, every fetched community's sha is recorded |
| TaskServices.SecondPassReconcilesNothing | scanning/app/task.go:45-88 | a second pass with the same downloads reconciles nothing |
| TaskServices.PlannedPlatforms | scanning/app/task.go:47-64 | only communities with a known platform and a successful download are reconciled, each on its platform pointed at its output |
| TaskServices.UnfetchedUntouched | scanning/app/task.go:47-57 | a community that never yields a configuration gets no handler, and its recorded sha is unchanged |
| TaskServices.Stamp | scanning/app/task.go:108-109 | the stamped row differs from the row only in its last scan time, which is now |
| TaskServices.StampRoundTrip | scanning/app/task.go:108-109 | reading a row, stamping the task and saving it stamps the row and keeps its key |
| TaskServices.ExecKeepsStamped | scanning/app/task.go:98-111 | a later pass at the same instant, with any handlers, scanner, uploader and faults, leaves every row the first pass stamped whose duration is not negative |
| TaskServices.ExecIsIdempotent | scanning/app/task.go:98-111 | with intervals that fit the 64-bit duration and the same scanner, uploader and faults, a second execution at the same non-zero instant stamps nothing more |
| TaskServices.ExecStampsOnlyDueRows | scanning/app/task.go:98-111 | no row appears or disappears; a changed row was due, of a run community, and is stamped; other communities' rows are kept |
| TaskServices.TaskService.ExecTask | scanning/app/task.go:90-114 | rows are only ever stamped; with no empty community name, exactly the due rows whose report uploads and whose save succeeds are stamped |
| TaskServices.TaskService.ExecCommunity | scanning/app/task.go:91-112 | a FindAll fault changes nothing; otherwise each due row of the community that uploads and saves is stamped |
| TaskServices.TaskService.ExecTasks | scanning/app/task.go:98-112 | handling FindAll's tasks in order stamps exactly the handled rows that the handler stamps |
| TaskServices.TaskService.ExecOne | scanning/app/task.go:99-111 | a task that is not due, or whose upload fails, is skipped; otherwise it is stamped and saved |
| TrivyConfig.OrDefault | scanning/app/config.go:10-20 | an empty location becomes the default and a set one is kept |
| TrivyConfig.OrDefaultSettles | scanning/app/config.go:9-21 | with a non-empty default the location ends up set, and defaulting twice is defaulting once |
| TrivyConfig.TrivyRepo.SetDefault | scanning/app/config.go:9-21 | fills each empty location with its default URL and keeps set ones; afterwards all three are set, and on a complete configuration nothing changes |
| Postgresql.PositiveOr | common/infrastructure/postgresql/config.go:29-39 | a positive setting is kept and any other is replaced by the default |
| Postgresql.PositiveOrSettles | common/infrastructure/postgresql/config.go:28-40 | with a positive default the setting ends up positive, and defaulting twice is defaulting once |
| Postgresql.Config.SetDefault | common/infrastructure/postgresql/config.go:28-40 | non-positive MaxConn, MaxIdle and Life become 500, 250 and 2; afterwards all three are positive; positive values and all other fields are kept |
| Postgresql.LifeDuration | common/infrastructure/postgresql/config.go:49-51 | the lifetime in nanoseconds as a 64-bit duration, exactly life minutes when in range |
| Postgresql.LifeDurationIsMinutes | common/infrastructure/postgresql/config.go:49-51 | in range, the duration is a whole number of minutes equal to the lifetime |
| Postgresql.LifeDurationWraps | common/infrastructure/postgresql/config.go:49-51 | one minute beyond the range, the duration wraps to a negative value |
| Postgresql.Config.LifeTime | common/infrastructure/postgresql/config.go:49-51 | a positive lifetime in range gives a positive duration of that many minutes |
| Postgresql.SslSettings | common/infrastructure/postgresql/config.go:54-64 | with a certificate: sslmode=verify-ca, the Asia/Shanghai time zone, then the root certificate setting with the certificate last; without one: sslmode=disable and the time zone |
| Postgresql.Config.Dsn | common/infrastructure/postgresql/config.go:53-65 | the connection part with host, user, password, database and port, a space, then the TLS and time-zone settings |
| Postgresql.Config.Clear | common/infrastructure/postgresql/config.go:67-72 | empties host, user, password and database name and keeps every other setting |
| Postgresql.ErrorCode.SetDefault | common/infrastructure/postgresql/config.go:79-83 | an empty unique-constraint code becomes 23505, a set one is kept, and afterwards it is set |

## Left out

- Registry tag listing (`getTagsFromDocker`, `getTagsFromQuay`, scanning/domain/scan_config.go:163-241): these are paginated HTTP calls with rate limiting. The model replaces them with a `TagLister` function parameter that either lists tags or fails.
- Running the scanner (`handleArch`, scanning/app/community.go:102-117) and decoding its JSON output: both are external processes. The model makes each run an `ArchScanner` function parameter.
- Platform clients (scanning/infrastructure/platformimpl): downloading the scan configuration and uploading a report are network calls. The model makes them the `ConfigSource` and `Uploader` parameters.
- The clock: `time.Now()` in `IsNeedToScan` and `UpdateLastScanTime` becomes one `now` parameter per execution pass. The report's time heading is a `stamp` string, and time formatting is not modelled.
- Database behaviour: the gorm and PostgreSQL storage is an in-memory ledger with gorm's filter, ordering and save semantics. Storage failures are a fixed `Faults` value chosen when the ledger is made. The creation and update audit timestamps are not modelled.
- Connection handling: `NewTaskImpl`, `DAO` and `ConfigItems` (common/infrastructure/postgresql/config.go:42-47) touch only the database connection and the configuration loader. The nested error-code section is a reference held by `Postgresql.Config`.
- Go map iteration order: it is unspecified. The model takes any order, chosen with `:|`, for `generateTask`'s save loop and for `ExecTask`'s handler loop. Report sections follow the order in which arches are first listed.
- Logging: every `logrus` call is left out. The skipped-and-logged cases are modelled as the skips they are.
- Package-level state: the maps `handlers` and `scanConfigSha` become fields of `TaskServices.TaskService`, and the domain package's `globalConfig` becomes a `ScanConfigs.GlobalConfig` object. For that reason, `NewTaskService` takes that object as an extra argument.
- Loop-variable sharing: `taskService.GenerateTask` hands `&c`, the address of its range variable, to the platform clients (scanning/app/task.go:46-47), and both clients keep that pointer for the community name and the token (scanning/infrastructure/platformimpl/gitee.go:20-27, scanning/infrastructure/platformimpl/github.go:18-25). The model gives each client its own copy of the community, which is what Go 1.22 and later do with a fresh variable per iteration. Under the older semantics every client built in one pass would point at the pass's last community, so every handler's report would be uploaded to that community's repository with its token; the module's Go version is not part of this model, and that behaviour is not modelled.
- Ledgers.Ledger.Save: a save with an explicit id missing from the ledger inserts under that id, and the model moves its next free id past it. A PostgreSQL sequence is not advanced by such an insert, so in the real store a later id-0 insert could collide with that row and fail. The modelled callers save explicit ids only of stored rows, so no stated property takes this path.
- Concurrency: the cron wiring, the flags, the health-check server and configuration file loading are left out (`scanning/entrance.go`, `main.go`, `config/config.go`). Handlers run one after another, as the code runs them.
- CommunityHandlers.CommunityHandler.GenerateTask: placement is proved only when every wanted task has all five identity fields non-empty and the ledger does not fail `Find` or `Save` on a wanted key. An empty field makes `Find` match other images' rows (`Ledgers.EmptyProbeFieldsMatchOtherRows`), so the plain promise does not hold there. The exact-keys result additionally needs a `FindAll` and a delete that do not fail.
- CommunityHandlers.CommunityHandler.Reconcile: it carries the same conditions as `GenerateTask`, for the same reason.
- TaskServices.TaskService.ExecTask: the exact result is stated only when no community has the empty name. `FindAll("")` selects every community's rows, so such a handler also runs on other communities' tasks. With an empty name, only "rows are at most stamped" is stated.
- TaskServices.TaskService.GenerateTask: the promise that communities not reconciled keep their rows is stated only when every community name is non-empty, for the same reason as `ExecTask`. The promise about each reconciled community's rows also needs distinct names: Go's loop would reconcile a repeated name twice, and the second handler's deletions can remove rows the first one placed. A newly placed row is known to be none of the community's earlier rows; that it is no other community's earlier row either is not stated.
- TaskServices.ExecIsIdempotent: stated only for rows whose interval lies between 0 and 9,223,372,036 seconds, and only for a second pass whose scanner, uploader and store faults answer as in the first. A row whose interval wraps the duration negative is due again at once (`Tasks.StampedDueAtOnceIff`). A row whose upload failed on the first pass can be stamped by a later one, as `scanning/app/task.go:103-111` allows. `TaskServices.ExecKeepsStamped` states the part that holds for any second pass.
- Tasks.LongIntervalDueAtOnce: covers only the first band past the 64-bit duration. For all intervals, `Tasks.StampedDueAtOnceIff` states when a stamped task is due at once, and `Tasks.LongIntervalsWrapPositive` exhibits longer and very negative intervals that wrap positive.
- Util.StringToInterval: the model indexes the string by characters, where Go's `len` and slicing count bytes. On ASCII input the two agree. On non-ASCII input the error kind can differ: "é" is one character, so the model reports InvalidFormat, while Go sees two bytes and reports InvalidNumber. On "5é" the model reports UnsupportedUnit for the unit é, while Go parses the bytes "5\xc3" as the number and reports InvalidNumber. A string succeeds in either reading only when it is all ASCII (an optional sign, digits, a unit letter), so both readings accept the same strings with the same values.
- The instant itself: `time.Time.Add` is modelled as plain addition of nanoseconds, so overflow of the wall-clock instant, as opposed to the duration, is not modelled.
- The scanner is a function parameter, so a repeated architecture's second run gives the same result as its first; the real scanner could answer differently, and Go keeps the later answer.
