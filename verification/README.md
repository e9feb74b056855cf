# BackupSheep: a verified model of its core logic

BackupSheep is a Django and Celery backup manager. This project models the parts of it that are more
than provider plumbing, one Dafny module per component, and proves what they are for.

- `PollChain`, `SnapshotPolling`, `CloudRestore`: the re-queued status checks of cloud snapshots and
  restores. A state holds the rows, the queue and the notifications sent; a step delivers any queued
  message, with any answer of the provider at any time after its countdown. The results are about every
  interleaving: how many checks a chain makes, that a restore has exactly one final notification, exactly
  when a schedule never holds more completed snapshots than its `keep_last`.
- `AccountBackups`, `AccountTotals`: account-wide queries that shortcut a simple definition.
- `StoragePoints`, `Regions`, `Seeding`, `DeadIntegrations`, `Memberships`: code that changes rows under
  database constraints. Tables are maps from id to row; a save that breaks a constraint, or a `get()`
  that finds two rows, is an error result.
- `Paths`, `RestoreFiles`, `LocalCleanup`: path strings against component lists, archive extraction and
  the removal of working files.
- `DatabaseImport`, `DatabaseTrace`: the staged import of dumps, with a failure possible at every effect,
  and the rules every trace of it keeps.
- `Utf8`, `BrokerUrl`, `Schedules`, `AddressRefresh`: percent-encoding and the broker URL (RFC 3986
  sections 2.1, 2.3 and 3.2, RFC 3629 section 3), next-run arithmetic, and the lookup throttle.
- `RetryProtocol`, `Paging`: the bounded retry chain of the local-disk backup tasks, and the loops that
  collect a provider's list page by page.

Code that changes state step by step is a method of a class, proved equal to a function of the old
state; the properties are then proved about that function for all inputs and all runs. Everything
outside the program (the provider's answer, the clock, the order of rows the database does not fix, the
effect that fails) is a parameter with no assumption on it beyond the ones named. In the runs of
`SnapshotPolling` any other code may change a row's status at any time, but only a status check makes it
COMPLETE.

Where a property holds only under a condition, the exact condition is proved:

- A check keeps every schedule within its `keep_last` if and only if it does not overfill its own: its row
  does not slip past retention while the schedule is full, and no deletion of an older row leaves it
  COMPLETE. A run stays within the limits throughout if and only if no check of it overfills
  (`SnapshotPolling.CheckKeepsLimitsExactly`, `SnapshotPolling.RetentionHoldsOverRuns`). A row slips when
  poll_status saved COMPLETE on it and neither retention nor a later mark follows
  (`SnapshotPolling.QuietTable`); the DigitalOcean status check of a droplet saves COMPLETE and reports
  IN_PROGRESS exactly when a snapshot of the backup's name comes before one at which its loop raises
  (`Paging.PollStatus`).
- A settling check tells about its row exactly when nothing raises before that: no ambiguous task id and,
  on a COMPLETE answer, no deletion that raises. It leaves its row open, with no check queued, exactly when
  no reset reached it and nothing was saved, or when its own retention deleted it into a status that is not
  terminal (`SnapshotPolling.ContinuesOrSettles`).
- The restore start task does not look at the row's status, so a second delivery of it breaks the
  one-outcome rule (`CloudRestore.StartDeliveredTwice`).
- The prefix test and the `commonpath` test agree exactly when the root is not `/`
  (`Paths.TestsAgree`).
- The broker URL reads back exactly when host and port, which are not encoded, fit the URL syntax
  (`BrokerUrl.BrokerUrlRoundTrip`).
- The website cancel loop always ends with one cancelled row per storage; the WordPress, Basecamp and
  database loops have no guard against the constraint and complete exactly when the backup has no two
  rows for one storage (`StoragePoints.UnguardedCancelSucceedsExactly`).
- `set_current_account` on its own fails exactly when the member has no membership, or belongs to the
  account while another membership is current
  (`Memberships.SetCurrentSucceedsExactly`); invite acceptance clears the marker first, the API's
  acceptance does not move it. A member switches accounts exactly with a current account or a single
  membership: one who lost the current account with several left cannot switch to any
  (`Memberships.SwitchSucceedsExactly`).
- A rate schedule raises an overflow exactly when no slot after now is a representable date
  (`Schedules.OverflowsExactly`).
- A negative rate value, which the schedule serializer refuses and only a row written by other means can
  have, answers with a time in the past (`Schedules.RateAnswersTheFutureExactly`).
- Migration 0007 completes exactly when no seed key matches two rows and no seeded location is linked
  twice to one integration (`Seeding.SeedingSucceedsExactly`).
- A backup chain ends on a retrying reset exactly when a retry is turned away
  (`RetryProtocol.ChainIsCutShortExactly`).
- A database restore succeeds exactly when its job is usable and no setup effect, no step of a target and
  no teardown effect failed; one that is cut at a target imported exactly the targets before it
  (`DatabaseImport.ImportIsStaged`).
- A dump whose upload raises is not removed from the server (`DatabaseImport.FailedUploadIsNotRemoved`).

## Model

| member | source | states |
|---|---|---|
| PollChain.RequeueStaysOnSchedule | apps/_tasks/helper/tasks.py:209-268 | a check that re-queues itself carries started_at, so its successor is again due no earlier than its number of intervals after the first check, and within the timeout |
| PollChain.CheckNumberBounded | apps/_tasks/helper/tasks.py:257-268 | any check on schedule is at most number floor(timeout / interval) + 2 of its chain |
| PollChain.BoundIsReached | apps/_tasks/helper/tasks.py:257-268 | the bound is exact: with punctual checks and no answer, the check that gives up is number floor(timeout / interval) + 2 and no earlier one |
| PollChain.DefaultBound | apps/_tasks/integration/restore.py:54-58 | the first check of a chain is due after a minute, the others are two minutes apart and for a day, which makes at most 722 |
| CloudRestore.Worker.RestoreCloudBackup | apps/_tasks/integration/restore.py:24-54 | the start task: unknown rows change nothing, a refusal ends in FAILED with its text and one failure notice, otherwise the first check is queued |
| CloudRestore.Worker.PollCloudRestore | apps/_tasks/integration/restore.py:58-113 | one check: ignored for a final or missing row, settles on COMPLETE, FAILED or past the timeout, otherwise queues its successor |
| CloudRestore.AnswerDecides | apps/_tasks/integration/restore.py:82-113 | a check of an open restore closes it COMPLETE exactly on that answer, FAILED exactly on that answer or, with neither, past the timeout, and otherwise queues one successor that carries the first check's time |
| CloudRestore.StepKeepsInv | apps/_tasks/integration/restore.py:24-113 | every step keeps: an open restore has exactly one queued task and no final notice; a closed one has none queued and exactly one final notice, of the kind its status says |
| CloudRestore.OneFinalOutcome | apps/_tasks/integration/restore.py:24-113 | that invariant in every reachable state of every interleaving |
| CloudRestore.OneOutcomeFromTheStart | apps/_tasks/integration/restore.py:24-113 | in every run from a system without restores, an open restore has one queued task and no final notice, a closed one none queued and one final notice of its status's kind |
| CloudRestore.FinalIsAbsorbing | apps/_tasks/integration/restore.py:73-77 | once COMPLETE or FAILED, a row stays exactly as it is and nothing more is announced about it, for as long as its node exists |
| CloudRestore.ChecksAreBounded | apps/_tasks/integration/restore.py:79-113 | in every reachable state every queued check is within the bound on its chain |
| CloudRestore.RefusedStartQueuesNothing | apps/_tasks/integration/restore.py:37-54 | a start queues a check exactly when the provider did not refuse it; refused, the row is FAILED and one final notice was sent |
| CloudRestore.StartSays | apps/_tasks/integration/restore.py:40-54 | a start tells that it began, and then either that it failed, or nothing more while the first check is queued for a minute later |
| CloudRestore.StartDeliveredTwice | apps/_tasks/integration/restore.py:24-54 | a start delivered for a closed restore always breaks the invariant, and sends a second final notice exactly when the provider refuses |
| SnapshotPolling.TaskLookup | apps/console/node/models.py:2911-2914 | the lookup by task id is ambiguous exactly when another row of the node has the same id |
| SnapshotPolling.Worker.ResetNode | apps/console/node/models.py:3093-3111 | the two resets activate the node and mark the row found by its task id; an ambiguous lookup raises after the node was activated, an empty id marks nothing |
| SnapshotPolling.Worker.ApplyRetention | apps/_tasks/helper/tasks.py:232-242 | the retention loop deletes exactly all but the last keep_last rows of the query, in order, up to the first deletion that raises |
| SnapshotPolling.DeletedAsSaid | apps/_tasks/helper/tasks.py:241-242 | a deleted row ends in the status its deletion says, or the one saved before it raised |
| SnapshotPolling.Worker.PollCloudBackup | apps/_tasks/helper/tasks.py:179-268 | one check of a snapshot, with the row's status read from the table and not taken from what poll_status returned |
| SnapshotPolling.TerminalIsQuiet | apps/_tasks/helper/tasks.py:196-217 | a check changes nothing exactly when its row is missing or another node's, or its status is one of COMPLETE, FAILED, TIMEOUT, CANCELLED, DELETE_REQUESTED, DELETE_IN_PROGRESS and DELETE_COMPLETED |
| SnapshotPolling.LaunchQueuesFirstCheck | apps/_tasks/integration/hetzner.py:103 | a launched snapshot is in progress with its first check queued for a minute later |
| SnapshotPolling.RaisingMeansInProgress | apps/_tasks/helper/tasks.py:222-227 | an exception of the status check counts exactly as an IN_PROGRESS answer |
| SnapshotPolling.CancelledStays | apps/_tasks/helper/tasks.py:206-217 | in every run a row seen CANCELLED, or in another listed status but COMPLETE, is never completed by a check and never gets a notice until something else changes it |
| SnapshotPolling.RetentionKeepsNewest | apps/_tasks/helper/tasks.py:229-242 | after a COMPLETE check the schedule's COMPLETE rows are exactly the keep_last newest (all if fewer) if and only if every deletion took its row out of COMPLETE; otherwise more than keep_last remain; no other row is touched |
| SnapshotPolling.CheckIsLocal | apps/_tasks/helper/tasks.py:229-242 | a check changes only statuses, of its own row and of COMPLETE rows of its own schedule |
| SnapshotPolling.ContinuesOrSettles | apps/_tasks/helper/tasks.py:219-268 | every check of a waiting row either queues exactly one successor and says nothing, or queues none; it then sends one notice exactly when nothing raises before it (the answer is FAILED, or the task id is not ambiguous and, on COMPLETE, no deletion raises), and its row stays open exactly when no reset reached it and nothing was saved, or its own retention deleted it into a status that is not terminal |
| SnapshotPolling.AnswerDecides | apps/_tasks/helper/tasks.py:219-268 | which notice a settling check that is not cut short sends and which status it leaves, as decided by what was reported and by the time; a row without a task id is not marked |
| SnapshotPolling.OneNoticeOverRuns | apps/_tasks/helper/tasks.py:206-268 | a row gets at most one notice in every run in which no settling check leaves its row open and nothing takes a terminal row back to an open status |
| SnapshotPolling.QuietTable | apps/_tasks/helper/tasks.py:206-268 | a check that runs no retention changes at most its own row's status, and on a schedule with a rule leaves it COMPLETE exactly when it slips: poll_status saved COMPLETE and neither retention nor a later mark follows |
| SnapshotPolling.CheckKeepsLimitsExactly | apps/_tasks/helper/tasks.py:219-268 | a check keeps every schedule within its keep_last if and only if its row does not slip on a full schedule and no deletion of an older row leaves it COMPLETE |
| SnapshotPolling.StepKeepsLimitsExactly | apps/_tasks/helper/tasks.py:179-268 | the same for launches, relaunches, checks in any order and other status changes, with any answer of the provider and any outcome of the deletions |
| SnapshotPolling.RetentionHoldsOverRuns | apps/_tasks/helper/tasks.py:229-242 | a run that starts with at most keep_last COMPLETE rows per schedule keeps to that throughout if and only if no check of it overfills its schedule |
| SnapshotPolling.ChecksAreBounded | apps/_tasks/helper/tasks.py:219-268 | every queued check of every reachable state is within the bound on its chain, whatever the provider answered or raised |
| SnapshotPolling.LateFailureSkipsRetention | apps/console/backup/models.py:179-212 | a row that slips adds one COMPLETE row to its schedule, whatever that held; if the check queued a successor, that one finds a terminal row and does nothing, and nobody is told |
| AccountBackups.SortedIsStableSort | apps/console/account/models.py:244 | the merge sort gives a newest-first order in which rows modified together keep their order |
| AccountBackups.StableSortIsUnique | apps/console/account/models.py:244 | there is only one stable newest-first sort of a list, so the result is determined by the promise |
| AccountBackups.SlicedMergeEqualsFullMerge | apps/console/account/models.py:224-247 | for any number of models, any rows and any limit k, slicing each model to k before merging gives the same first k rows as merging everything, ties included |
| AccountBackups.UnlimitedStartsWithNewest | apps/console/account/models.py:204-247 | without a limit, the list still begins with the last_backup_count newest rows of the whole account |
| AccountBackups.ChainHoldsAdmittedRows | apps/console/account/models.py:226-241 | the merged list holds exactly the rows of the account that are of a listed node and in a listed status, where those lists are given |
| AccountBackups.EachModelIsSliced | apps/console/account/models.py:241 | each model gives an initial run of its admitted rows, at most the count of them, and all if there are no more |
| AccountBackups.RecentBackups | apps/console/account/models.py:204-224 | called with the account alone, it gives completed backups only, up to three of each model |
| AccountBackups.GetAllBackups | apps/console/account/models.py:204-247 | with a limit the result is the first rows of every stable newest-first sort of the full union; without one it is a stable sort of the sliced lists |
| AccountTotals.StorageUsed | apps/console/account/models.py:139-202 | the accumulated total is the sum of the admitted copies' sizes over the tables the flags select |
| AccountTotals.OneCopyCounts | apps/console/account/models.py:152-163 | a stored copy counts with its size exactly when that is known, its backup is complete, it is uploaded to a storage of the account, and its type is the one asked for, or not "bs" for own storage |
| AccountTotals.TotalReadsTables | apps/console/account/models.py:165-200 | websites and WordPress count unless only databases do, databases unless only websites do |
| AccountTotals.WebsitePlusDatabase | apps/console/account/models.py:165-202 | the total is the website-only total plus the database-only total, and both flags together count nothing |
| AccountTotals.BsPlusOwnStorage | apps/console/account/models.py:159-163 | the total is the "bs" total plus the own-storage total |
| AccountTotals.TypesPlusRest | apps/console/account/models.py:159-163 | for distinct non-empty type codes the total is the sum of the per-type totals plus what copies of other types add, those with an empty code included |
| AccountTotals.TotalIsSumOverTypes | apps/console/account/models.py:139-202 | the total is the sum of the per-type totals over any list of distinct non-empty codes that covers the stored copies |
| AccountTotals.GetNotificationRecipients | apps/console/account/models.py:291-323 | an error exactly for unknown events; otherwise each wanting (member, email) pair once, in the order of its first membership |
| AccountTotals.EachWantedPairOnce | apps/console/account/models.py:308-322 | of the (member, email) pairs that want the event each is listed exactly once, and nothing else is |
| AccountTotals.MutedExactly | apps/console/account/models.py:301-316 | a membership that is not primary is left out exactly when its flag for the event is false; a missing flag does not mute |
| AccountTotals.ListedInOrder | apps/console/account/models.py:308-322 | only active memberships with an email are listed, in the order they are gone through |
| AccountTotals.PrimaryIsAlwaysListed | apps/console/account/models.py:296-323 | an active primary membership with an email is listed whatever its flags |
| Utf8.RoundTrip | backupsheep/settings.py:494-497 | decoding gives back every string that was encoded |
| Utf8.EncodedForm | backupsheep/settings.py:494-497 | how quote() turns a character into bytes: one below 0x80, otherwise a leading byte that tells the length and bytes of six bits each, as RFC 3629 section 3 has it |
| Utf8.DecodesOnlyEncoded | backupsheep/settings.py:212-215 | only what encodes a character is read as one: no overlong form, no surrogate, no stray byte |
| BrokerUrl.QuoteRoundTrip | backupsheep/settings.py:494-497 | percent-decoding gives back every string that was percent-encoded with no safe characters |
| BrokerUrl.QuotedHasNoDelimiter | backupsheep/settings.py:494-497 | encoded text holds no delimiter of the URL syntax |
| BrokerUrl.QuotedByteForm | backupsheep/settings.py:494-497 | a byte is printed as itself exactly for letters, digits and -._~, and otherwise as a percent sign and two upper-case hexadecimal digits |
| BrokerUrl.StripSpaceExactly | backupsheep/settings.py:491-496 | stripping takes all whitespace off both ends and nothing else |
| BrokerUrl.SpacesExactly | backupsheep/settings.py:491-496 | among ASCII characters the whitespace is the blank and the control characters from tab to carriage return and from 28 to 31 |
| BrokerUrl.StripSlashExactly | backupsheep/settings.py:496 | the same for the slashes of a virtual host |
| BrokerUrl.PrintedReadsBack | backupsheep/settings.py:498-500 | splitting a printed URL at its delimiters and decoding returns user, password, host, port and virtual host, an empty one as "/" |
| BrokerUrl.BrokerUrlRoundTrip | backupsheep/settings.py:484-500 | for all user, password and virtual host strings the round trip holds if and only if host and port fit the URL syntax |
| BrokerUrl.PrintIsInjective | backupsheep/settings.py:494-500 | different settings give different URLs, for stripped virtual hosts and fitting hosts and ports |
| BrokerUrl.ResolvedUrlReadsBack | backupsheep/settings.py:484-500 | with RABBITMQ_HOST set, the URL reads back as the other RABBITMQ settings, each with its default |
| BrokerUrl.AmqpByPrefix | backupsheep/settings.py:510-511 | the scheme test passes exactly the URLs that begin, in any case, with amqp: or amqps: |
| BrokerUrl.SchemeLetters | backupsheep/settings.py:510 | what beginning with a scheme in any case means, letter by letter |
| BrokerUrl.ResolvedWithoutHost | backupsheep/settings.py:502-512 | without a host the answer is the first complete URL that is set, or the default one, unchanged; an error exactly when it has neither scheme |
| Paths.RealPathOfJoin | apps/_tasks/integration/restore_common.py:77 | realpath of a joined string is the walk of its components from the root (an absolute name starts over) |
| Paths.SplitJoins | apps/_tasks/integration/restore_common.py:77 | a path string is split at every slash, and its components join back to it |
| Paths.WalkLast | apps/_tasks/integration/restore_common.py:40-41 | normalisation, by the last component: "" and "." stay, ".." goes to the parent, the root being its own, and any other name goes down |
| Paths.RenderIsInjective | apps/_tasks/integration/restore_common.py:40-42 | normalised paths are equal exactly when their strings are |
| Paths.CommonTest | apps/_tasks/helper/tasks.py:104-109 | the commonpath test with its inequality is true exactly of paths whose components strictly extend the root's |
| Paths.PrefixTest | apps/_tasks/integration/restore_common.py:42 | the prefix-plus-separator test is true exactly of those paths too, unless the root is "/", where it is true of none |
| Paths.TestsAgree | apps/console/backup/models.py:2351-2357 | the two tests agree on a target exactly when the root is not "/" or the target is the root itself |
| RestoreFiles.Disk.CheckMembers | apps/_tasks/integration/restore_common.py:74-79 | accepts exactly the archives all of whose members resolve at or below the destination, and names the first that does not |
| RestoreFiles.AllowedExactly | apps/_tasks/integration/restore_common.py:78 | the check accepts exactly the paths at or below a root other than "/", and below "/" only "/" itself |
| RestoreFiles.UnsafeText | apps/_tasks/integration/restore_common.py:79 | the text of the error, by kind of archive |
| RestoreFiles.Disk.ExtractBackupZip | apps/_tasks/integration/restore_common.py:82-92 | the file system and the result after extraction of files and directories, for a bad zip, an escaping member, a member there is no room for, and an extraction that stops anywhere |
| RestoreFiles.Disk.MaybeExtractTar | apps/_tasks/integration/restore_common.py:95-112 | without the tar nothing changes; otherwise members are checked, written and the tar removed |
| RestoreFiles.Disk.LocalSourcePath | apps/_tasks/integration/restore_common.py:38-46 | returns a path exactly when it is an existing file strictly below the storage root; the two errors otherwise |
| RestoreFiles.Disk.FetchBackupZip | apps/_tasks/integration/restore_common.py:49-71 | succeeds exactly when the stored content is available, not empty, not the destination file itself, and the destination is no directory; leaves exactly that content, and changes no other entry |
| RestoreFiles.StoredExactly | apps/_tasks/integration/restore_common.py:51-66 | what can be fetched: a local file strictly below the storage root, or the body of a complete answer from a URL that is none and no archive sentinel |
| RestoreFiles.MakeDirsExactly | apps/_tasks/integration/restore_common.py:85 | making the destination makes the whole way to it and changes nothing that is there |
| RestoreFiles.ZipExtractionIsConfined | apps/_tasks/integration/restore_common.py:82-92 | one escaping member means nothing is written; whatever is written, wherever extraction stops, is at or below the destination |
| RestoreFiles.TarExtractionIsConfined | apps/_tasks/integration/restore_common.py:95-112 | the same for the wrapped tar, the removed tar file included |
| RestoreFiles.ZipWritesWhereChecked | apps/_tasks/integration/restore_common.py:76-89 | zipfile writes a member to the very place the check looked at if and only if its name is relative and does not go up |
| RestoreFiles.TarWritesWhereChecked | apps/_tasks/integration/restore_common.py:76-110 | tarfile writes a member with a relative name exactly where the check looked, and refuses exactly what the check refuses |
| RestoreFiles.WriteAllHolds | apps/_tasks/integration/restore_common.py:87-89 | after a full extraction every member is there as a file or a directory, unless a later one has the same place, and then it is still of the same kind |
| RestoreFiles.ZipMembersArrive | apps/_tasks/integration/restore_common.py:87-89 | after a full extraction every member of a zip that no later one replaces is a directory if its name ends in a slash, and otherwise a file with its content |
| RestoreFiles.ExtractionKeepsTree | apps/_tasks/integration/restore_common.py:89-110 | wherever extraction stops, everything above an entry is a directory, and the destination stays one |
| RestoreFiles.StopsBefore | apps/_tasks/integration/restore_common.py:89-110 | an extraction that stops at a member has written exactly the members before it |
| RestoreFiles.TarMembersArrive | apps/_tasks/integration/restore_common.py:107-112 | after unwrapping, the tar is gone and every other member that no later one replaces is there, a directory or a file with its content |
| LocalCleanup.Disk.Remove | apps/_tasks/helper/tasks.py:98-118 | the path-string test and removal do what the component-list definition says |
| LocalCleanup.Disk.DeleteFromDisk | apps/_tasks/helper/tasks.py:87-126 | removes what the path type selects, in order |
| LocalCleanup.Disk.RemoveWebsiteCache | apps/_tasks/helper/tasks.py:514-525 | removes the node's cache directory and the two files beside it |
| LocalCleanup.CleanupIsConfinedAndIdempotent | apps/_tasks/helper/tasks.py:98-118 | for any uuid, only entries strictly below the storage directory are removed, and a second run removes nothing more |
| LocalCleanup.CleanupRemovesExactly | apps/_tasks/helper/tasks.py:98-126 | for a plain name exactly what the path type asks for is removed, its directory with all it holds, its zip file or both; its run log stays |
| LocalCleanup.CacheRemovalIsConfined | apps/_tasks/helper/tasks.py:514-525 | for any node uuid only entries strictly below the storage directory are removed, and a second run removes nothing more |
| LocalCleanup.CacheRemovalRemovesExactly | apps/_tasks/helper/tasks.py:514-525 | for a plain uuid exactly the node's cache directory with all it holds and the two files beside it are removed |
| DatabaseImport.ClassifyDumps | apps/_tasks/integration/restore_database.py:64-86 | an error exactly when there is no .sql file; otherwise every .sql file once, in sorted order, with its database (the connection's in tables mode, else the file's stem) |
| DatabaseImport.BeforeIsLexicographic | apps/_tasks/integration/restore_database.py:72-76 | the order of the dumps is the lexicographic one |
| DatabaseImport.Session.RunOverSsh | apps/_tasks/integration/restore_database.py:160-230 | the remote branch of both engines, with its nested finally blocks, with and without a key file to remove, for every pattern of failures |
| DatabaseImport.Session.RunDirect | apps/_tasks/integration/restore_database.py:201-230 | the local branches, with and without a defaults file |
| DatabaseImport.Session.RestoreDatabase | apps/_tasks/integration/restore_database.py:321-396 | the whole restore, run-log lines included: its trace of effects, the databases it leaves and whether it succeeded, for every pattern of failures |
| DatabaseImport.TargetsEffect | apps/_tasks/integration/restore_database.py:171-194 | the target loop imports, in order and once each, exactly the targets before the one of which a step failed, and all of them when none did |
| DatabaseImport.OneTargetFails | apps/_tasks/integration/restore_database.py:249-281 | control leaves a target exactly by the failure of one of its own steps: finding or making its database, uploading or importing it |
| DatabaseImport.ImportIsStaged | apps/_tasks/integration/restore_database.py:154-396 | when the storage point is there, the archive holds dumps, the credentials decrypt, every field and database name passed its guard and the engine is supported, and no setup effect failed: exactly the targets before the one of which a step failed are imported, all if none did; otherwise none is; the restore succeeds exactly when nothing but a swallowed removal failed; every import goes into a database found or made before; removal was issued for exactly the dumps whose upload returned |
| DatabaseTrace.RestoreKeepsRules | apps/_tasks/integration/restore_database.py:154-396 | every effect of every restore is attempted in keeping with the rules of its kind: staging in its order, the stage only after all of it worked and the job proved usable, commands of the engine in use only, each upload after its database was made ready, each import right after what it needs, each removal right after what it undoes |
| DatabaseTrace.ImportsWhatIsThere | apps/_tasks/integration/restore_database.py:181-194 | over SSH the last thing done to a dump before it is imported is an upload that returned, and it is removed right after the import; directly nothing is uploaded or removed |
| DatabaseTrace.CreatesWhatIsMissing | apps/_tasks/integration/restore_database.py:250-265 | createdb runs only right after a query that worked and found the database missing |
| DatabaseImport.NothingRunsUnscreened | apps/_tasks/integration/restore_database.py:363-370 | unless every field and every database name passed its guard, no client command of the import stage runs and the restore fails |
| DatabaseImport.CleanupIsLast | apps/_tasks/integration/restore_database.py:329-396 | once the run log is open, local cleanup is issued exactly once, as the last effect, on every exit; a log that cannot be opened ends the restore before anything else |
| DatabaseImport.CredentialsAreRemoved | apps/_tasks/integration/restore_database.py:195-200 | over SSH, once connected, removal of the credentials file is issued after the last client command, then the connection is closed and the key file, if there is one, removed, whatever failed |
| DatabaseImport.DefaultsAreRemoved | apps/_tasks/integration/restore_database.py:223-228 | directly, removal of the defaults file is the last effect of the stage whenever there is a file |
| DatabaseImport.FailedUploadIsNotRemoved | apps/_tasks/integration/restore_database.py:181-194 | an upload that raises ends the target with no removal of the remote dump |
| StoragePoints.StoredBackups.Save | apps/console/backup/models.py:2433-2441 | a save succeeds exactly when it keeps (backup, storage, status) unique, and otherwise changes nothing |
| StoragePoints.StoredBackups.CancelWebsiteBackup | apps/console/backup/models.py:1512-1538 | the guarded cancel loop over the backup's rows, in whatever order the query returns them |
| StoragePoints.StoredBackups.CancelUnguarded | apps/console/backup/models.py:2868-2889 | the unguarded loop: the first conflict raises and leaves the backup uncancelled |
| StoragePoints.CancelKeepsOneRowPerStorage | apps/console/backup/models.py:1518-1531 | from any rows satisfying the constraint, every storage that had a row ends with exactly one, CANCELLED; the constraint holds; nothing else changes |
| StoragePoints.ConstraintHoldsThroughout | apps/console/backup/models.py:2433-2441 | the constraint holds after every iteration of the loop |
| StoragePoints.UnguardedCancelSucceedsExactly | apps/console/backup/models.py:2506-2530 | without the guard cancelling completes exactly when the backup has no two rows for one storage, and then agrees with the guarded loop |
| StoragePoints.AllUploadedMeansEvery | apps/console/backup/models.py:1495-1497 | comparing two counts asks whether every row is uploaded |
| StoragePoints.PartiallyUploadedMeansSome | apps/console/backup/models.py:1499-1501 | comparing a count with zero asks whether some row is; only a backup without rows is all but not partially uploaded |
| Regions.Database.RunUpdateOrCreate | apps/_migrations/0014_update_region_reference_data.py:165-167 | one update_or_create by code |
| Regions.Database.RunUpserts | apps/_migrations/0014_update_region_reference_data.py:164-167 | a model's rows, upserted in turn |
| Regions.Database.RunFilebase | apps/_migrations/0014_update_region_reference_data.py:154-160 | the rename in place and the upsert of the auto row, keeping codes unique |
| Regions.Database.UpdateRegionReferenceData | apps/_migrations/0014_update_region_reference_data.py:153-167 | the whole migration over the catalog of tables |
| Regions.UpsertsKeepRows | apps/_migrations/0014_update_region_reference_data.py:164-167 | every row survives under its id and code with exactly the columns the delta sets on that code |
| Regions.UpsertsAddOnlyMissing | apps/_migrations/0014_update_region_reference_data.py:164-167 | a new row has a code of the delta that no row had, and the columns the delta sets on it |
| Regions.UpsertAllIsIdempotent | apps/_migrations/0014_update_region_reference_data.py:164-167 | applying a delta twice is applying it once, id sequence included |
| Regions.OutsideTheDeltaNothingChanges | apps/_migrations/0014_update_region_reference_data.py:164-167 | a row whose code the delta does not mention is unchanged |
| Regions.FilebaseKeepsIdentity | apps/_migrations/0014_update_region_reference_data.py:154-160 | us-east-1 becomes auto under its own id exactly when there was no auto row; every id survives, codes stay unique, a second run changes nothing |
| Regions.FilebaseIsCreated | apps/_migrations/0014_update_region_reference_data.py:158-160 | an auto row that was neither there nor renamed is created with the same name and endpoint |
| Regions.RegionUpdateIsIdempotent | apps/_migrations/0014_update_region_reference_data.py:153-167 | for every catalog with unique codes and every delta: codes stay unique, every id survives, and running the migration twice is running it once |
| Seeding.Database.GetOrCreateRow | apps/_migrations/0007_seed_reference_data.py:40-56 | get_or_create: the only matching row, or a new one with the looked-up values and the defaults, under the looked-up id if there is one; an ambiguous key or a taken id raises and changes nothing |
| Seeding.Database.LinkLocation | apps/_migrations/0007_seed_reference_data.py:66-69 | links a location to every integration up to the first link that is there twice |
| Seeding.Database.SeedReferenceData | apps/_migrations/0007_seed_reference_data.py:35-76 | the whole migration, its nested loops and every point it can stop at |
| Seeding.MigrationAddsIntegrationsFirst | apps/_migrations/0007_seed_reference_data.py:38-69 | no integration is added after a location was linked, provided the regions do not name the integrations table |
| Seeding.SeedingOnlyAdds | apps/_migrations/0007_seed_reference_data.py:35-76 | wherever it stops, no existing row or link is changed or removed, and every link still refers to an existing location and integration |
| Seeding.SeedingSucceedsExactly | apps/_migrations/0007_seed_reference_data.py:35-76 | it completes exactly when, in the catalog it starts from, no seed's key matches two rows and no seeded location is linked twice to one integration |
| Seeding.ReseedingIsNoOp | apps/_migrations/0007_seed_reference_data.py:35-76 | a run after a completed run completes and changes nothing, whatever order the integrations come in |
| DeadIntegrations.Registry.Delete | apps/_migrations/0015_remove_dead_integrations.py:49 | deleting an integration is refused while a connection or a link refers to it |
| DeadIntegrations.Registry.RemoveDeadIntegrationRows | apps/_migrations/0015_remove_dead_integrations.py:34-49 | completes, with no deletion refused, and removes exactly the unused dead integrations and the links to them |
| DeadIntegrations.RemovalKeepsReferences | apps/_migrations/0015_remove_dead_integrations.py:31-49 | gone are exactly the integrations linode and intercom that no connection uses, and the links to them; every connection and link refers to an existing integration; all else stays, and a second run changes nothing |
| Memberships.Directory.SetCurrentAccount | apps/console/member/models.py:62-72 | the rows it leaves and whether a lookup or constraint raised |
| Memberships.Directory.GetCurrentAccount | apps/console/member/models.py:74-81 | answers the current membership's account, marking an only membership first; None exactly when none is current afterwards |
| Memberships.Directory.GetPrimaryAccount | apps/console/member/models.py:83-91 | the same for the primary account, marking an only membership both current and primary |
| Memberships.CurrentReadingKeeps | apps/console/member/models.py:74-81 | reading the current account marks an only membership as current and changes nothing else |
| Memberships.PrimaryReadingKeeps | apps/console/member/models.py:83-91 | reading the primary account marks an only membership that is not primary as primary and current, and changes nothing else |
| Memberships.Directory.FinishAcceptance | apps/console/invite/views.py:23-32 | grant, clear the other markers, set the invited account current |
| Memberships.Directory.Accept | apps/console/invite/views.py:45-99 | the public page on POST: expiry, status, matching user or sign-up, then acceptance |
| Memberships.Directory.AcceptByApi | apps/api/v1/invite/views.py:133-169 | the API's acceptance, which leaves the markers alone |
| Memberships.Directory.LeaveMembership | apps/api/v1/account/views.py:118-143 | for a request that names an account the member owns: removes a non-primary membership of the member and re-marks an only remaining one |
| Memberships.Directory.ListInvites | apps/api/v1/invite/views.py:53-61 | the invites of the current account, those past their window flipped to expired first |
| Memberships.Directory.Resend | apps/api/v1/invite/views.py:86-103 | after that listing, restarts the window of an invite of the account that is still pending |
| Memberships.Directory.Cancel | apps/api/v1/invite/views.py:106-131 | after that listing, cancels an invite of the account that is still pending |
| Memberships.Directory.SwitchCurrentAccount | apps/api/v1/member/views.py:52-165 | a request to switch: who is listed, the permission, then the move of the marker, each reading of a current account marking an only membership first |
| Memberships.Directory.MoveMarker | apps/api/v1/member/views.py:148-170 | the body of the switch: nothing without a membership in the account, an exception without a current one, otherwise the marker moves |
| Memberships.Directory.RemoveMembership | apps/api/v1/account/views.py:42-62 | the owner's removal of a membership of the account |
| Memberships.SetCurrentSucceedsExactly | apps/console/member/models.py:62-72 | on its own it succeeds exactly when the member has a membership and, if one is in this account, no other one is current; constraints and other members' rows are kept |
| Memberships.ClearedThenSet | apps/console/invite/views.py:29-32 | after clearing the other markers it never fails, and exactly the invited account is current |
| Memberships.PublicAcceptance | apps/console/invite/views.py:45-99 | acceptance needs a pending unexpired invite and its own invitee, never raises, makes the invited account the only current one and leaves other members' rows alone; anything else changes no membership |
| Memberships.PublicAcceptsExactly | apps/console/invite/views.py:52-93 | the page accepts exactly an invite that is there, pending and within its window, from a logged-in member with its email, or from an anonymous visitor with a valid form while nobody holds that email; only a member who holds it gains or changes a membership |
| Memberships.PublicInvitesAfter | apps/console/invite/views.py:52-93 | the invite asked for is accepted, or expired if it was pending past its window, or as it was; the others are as they were |
| Memberships.AcceptedAccountIsCurrent | apps/console/invite/views.py:29-32 | after acceptance, reading the current account gives the invited one and changes nothing |
| Memberships.ApiAcceptanceLeavesMarkers | apps/api/v1/invite/views.py:133-169 | existing memberships are unchanged and the new one is unmarked, so a current account is neither gained nor lost |
| Memberships.ApiAcceptsExactly | apps/api/v1/invite/views.py:134-150 | the API accepts exactly a pending invite within its window, for the logged-in member with its email, who gains a membership of its account |
| Memberships.DroppingKeeps | apps/api/v1/account/views.py:131-134 | the body of leaving keeps all constraints and raises exactly when no other membership is left |
| Memberships.LeavingNeverRaises | apps/api/v1/account/views.py:42-45 | through the view it never raises: the primary membership of the account the request names remains |
| Memberships.LeavesExactly | apps/api/v1/account/views.py:118-134 | exactly a non-primary membership of one's own goes, for a member who owns the account named; the only one that may be left is then current, and no other changes |
| Memberships.SwitchKeeps | apps/api/v1/member/views.py:153-160 | the body of a switch raises exactly when the member belongs to the account and has no current one; otherwise the account is the only current one, or, for a member who does not belong to it, nothing changes |
| Memberships.SwitchSucceedsExactly | apps/api/v1/member/views.py:148-170 | through the view it never raises, and a member's own request ends with the account current exactly for a member of it with a current account or a single membership |
| Memberships.SwitchKeepsConstraints | apps/api/v1/member/views.py:148-170 | whoever asks, a switch never raises, keeps all constraints and moves no marker but the requester's and the member's |
| Memberships.SwitchesExactly | apps/api/v1/member/views.py:52-165 | whoever asks for whomever, the switch is made exactly when the member belongs to the requester's current account, the requester to the member's, and the member to the account; that account is then the only current one, and otherwise only the two readings have happened |
| Memberships.RemovalKeepsConstraints | apps/api/v1/account/views.py:42-62 | removing a membership never raises, keeps all constraints and removes no other one |
| Memberships.RemovesExactly | apps/api/v1/account/views.py:42-62 | a membership goes exactly when it is of the named account, the requester's own membership of that account is primary, and so is the requester's current one |
| Memberships.StepKeepsInv | apps/console/member/models.py:190-194 | acceptances, reads, leaving, removals, account switches and the invite actions all keep the three constraints, and none of them raises |
| Memberships.MarkersHoldOverRuns | apps/console/member/models.py:190-194 | over every sequence of those operations: one membership per member and account, at most one current and one primary per member, and an invite is accepted exactly when its status says so |
| Memberships.AcceptingStep | apps/console/invite/models.py:57-73 | a step that accepts an invite finds it pending and unexpired |
| Memberships.AcceptedAtMostOnce | apps/console/invite/models.py:118-136 | in every run an invite accepted once is never accepted again |
| Memberships.SendingExactly | apps/console/invite/models.py:46-50 | a new invite is pending for seven days and no other one is touched |
| Memberships.InviteActionsKeepInv | apps/api/v1/invite/views.py:86-131 | a resend and a cancellation raise for nobody, and leave every accepted invite accepted and every other one not |
| Memberships.InviteActionsExactly | apps/api/v1/invite/views.py:53-131 | listing flips exactly the pending invites of the current account past their window; a resend gives one still pending seven days from now, a cancellation ends it; nothing else about any invite changes |
| Memberships.ExpiredIsNeverAccepted | apps/console/invite/models.py:66-78 | in every run at non-decreasing times, an invite whose window has passed is never accepted afterwards, whatever is resent in between |
| AddressRefresh.Server.RefreshLocalIpAddresses | apps/console/connection/models.py:2794-2836 | one call: the gate, both lookups, the saved fields and the time to live it sets |
| AddressRefresh.AttemptsAreSpaced | apps/console/connection/models.py:2786-2805 | in every run of calls at non-decreasing times, attempts are at least 900 s apart and 86400 s apart after a full success |
| AddressRefresh.AttemptsExactly | apps/console/connection/models.py:2800-2834 | a call attempts the lookups exactly when the location is there and 900 seconds have passed since the last attempt, 86400 after a fully successful one, which is one whose two results are the stored addresses |
| AddressRefresh.AttemptsInSpan | apps/console/connection/models.py:2786-2805 | any span of T seconds holds at most T/900 + 1 attempts |
| AddressRefresh.QuietAfterSuccess | apps/console/connection/models.py:2833-2834 | no attempt follows a fully successful one within a day |
| AddressRefresh.AddressesChangeOnlyToOwnLookup | apps/console/connection/models.py:2810-2832 | a stored address changes only in a call that looks it up, to what that lookup parsed; the other lookup's failure does not matter |
| Schedules.RateAnswersLeastSlot | apps/console/home/views.py:21-34 | for a positive interval the answer is the earliest slot after now, or an overflow exactly when that slot is past the last date; the slot is within one interval of now exactly when the base is not in the future |
| Schedules.IntervalSeconds | apps/console/home/views.py:21-32 | the interval is the value in minutes, hours or days, and the base the last run or else the creation |
| Schedules.AnswersWithInterval | apps/console/home/views.py:25-27 | there is no next run exactly without a unit or with no value or zero |
| Schedules.OverflowsExactly | apps/console/home/views.py:34-47 | asking raises exactly when no slot after now is a date; always with an interval that reaches past the last date, never while now is more than an interval before it |
| Schedules.NextRunIsMonotone | apps/console/home/views.py:21-34 | later questions never get earlier answers, and none once one has overflowed |
| Schedules.EverySlotIsVisitedOnce | apps/console/home/views.py:21-34 | asking again about each answer visits every later slot that is a date, with no gap and no repeat |
| Schedules.RateAnswersTheFutureExactly | apps/console/home/views.py:27-34 | the answer is in the future exactly when the interval is positive or the base is more than one negative interval ahead |
| Schedules.OneTimeAnswerPersists | apps/console/home/views.py:18-19 | a one-time schedule answers with its time at every moment before it, and no longer from then on |
| RetryProtocol.Worker.Backup | apps/_tasks/integration/website.py:69-142 | one attempt of either task: its events, the row's status and whether it was re-queued |
| RetryProtocol.AttemptEffect | apps/_tasks/integration/database.py:62-134 | an attempt is re-queued exactly when it failed with neither a timeout nor four retries behind it; otherwise it closes the chain with one closing event |
| RetryProtocol.FailedAttemptEnds | apps/_tasks/integration/website.py:108-142 | a time limit, and for a website also a backup timeout, ends in a timeout reset with the row TIMEOUT; any other error in a retrying reset with the row RETRYING below four retries, and in max-retries reached with the row MAX_RETRY_FAILED at four |
| RetryProtocol.TimedOutFilesGo | apps/_tasks/integration/website.py:118-128 | the two removals of downloaded files are queued exactly by an attempt that times out with a backup begun |
| RetryProtocol.ChainEndsCleanly | apps/_tasks/integration/website.py:68-142 | while nothing turns it away, for every sequence of outcomes the chain stops within 5 attempts and closes once: with success if its last attempt succeeded, with a timeout reset if that timed out, and otherwise, after five attempts, with max-retries reached; failure notices equal failed attempts |
| RetryProtocol.ChainIsCutShortExactly | apps/_tasks/integration/database.py:62-84 | the stopped chain's last node event is a retrying reset exactly when a retry was turned away |
| Paging.CollectByFirstTotal | apps/console/backup/models.py:179-195 | without a failed request the loop ends after max(1, ceil(total/200)) requests with exactly the list in order; the first failure ends it with nothing |
| Paging.RequestsExactly | apps/console/backup/models.py:166-195 | the number of requests is the least number of pages of 200, and at least one, that holds the list |
| Paging.PageExactly | apps/console/backup/models.py:166-186 | page p holds the items from (p - 1) * 200 on, up to 200 of them |
| Paging.MatchByName | apps/console/backup/models.py:196-201 | the row is saved as COMPLETE exactly when a snapshot of the name comes before the end of the list or the one at which the loop raises, with the last such snapshot's id |
| Paging.PollStatus | apps/console/backup/models.py:144-218 | the whole status check: a droplet is reported COMPLETE exactly when the action completed and its list was read through, whether or not a name matched, and saved COMPLETE but reported IN_PROGRESS exactly when a matching snapshot precedes the one at which the loop raises |
| Paging.CollectByEachTotal | apps/console/backup/models.py:250-268 | the same bound and list when the total is read from each answer; a failed request ends it with the pages before it |
| Paging.SelectForDeletion | apps/console/backup/models.py:270-278 | the first snapshot whose name contains the uuid, or none exactly when there is none |
| Paging.ContainsExactly | apps/console/backup/models.py:274 | a name contains the uuid exactly when it is the uuid with something before and after it |
| Paging.CollectByCursor | apps/console/connection/models.py:858-888 | the cursor loops return the concatenation of the page chain after one request each; a failing page raises or ends the list before it |

## Left out

- Provider SDK and HTTP calls, SSH, SFTP, subprocesses and database clients: only their outcomes are modelled, as parameters.
- Symlinks: `realpath` is lexical normalisation of absolute paths, and an extracted link member is not followed.
- Links and devices in a tar, file modes, and missing directories above a downloaded file or above the destination of an archive: extraction may stop at any member, for any reason.
- The row order the database returns where the query leaves it open is given as a parameter; any order consistent with the query is covered.
- Django transactions, cache eviction and worker crashes: each task step is atomic and a cache entry lives until its expiry.
- Time is in integer ticks; the fractional part of a clock reading, and the float rounding of elapsed seconds, are not modelled.
- Deletion of a whole account, which removes its memberships.
- `apps/_tasks/integration/restore_website.py`, and the status wrapper in `restore_database_backup`: the first rests on lftp's mirror semantics, the second only writes the outcome on the row.
- `wordpress.py`, `basecamp.py` and the cloud backup tasks: the same retry shape as the website task, or a hand-off to the polling modelled here.
- Cron expressions in `_next_run`: the answer is croniter's.
- The region delta of migration 0014 and the seed file of migration 0007: parameters, so the results hold for every delta and every seed file.
- The quoting guards of the database restore: a set of texts they let through is a parameter.
- `_database_config`: only how a URL is split and decoded is modelled, as the reader of the broker URL; host-name lower-casing and the stripping of leading control characters by the URL parser are not.
- Editing or deleting an invite through the API, and its refusal of a second pending invite for one address: the model allows any number.
- Group enrolment, user-name uniqueness and sign-up form validation beyond its outcome, in invite acceptance.
- The joins and type filters of the account queries: a row carries its account, node, status and type code directly.
- Per-provider branches of a deletion: it ends in some status, or raises before or after it saved one.
- Views, templates, serializers, e-mail text, exception classes and generated schema migrations.
- SnapshotPolling.RetentionHoldsOverRuns: keep_last is fixed over a run; lowering it takes effect at the schedule's next COMPLETE check.
- Utf8.RoundTrip: strings are sequences of Dafny characters, so a lone surrogate, which Python refuses to encode, does not occur.
