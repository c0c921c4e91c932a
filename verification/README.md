# feast-watch, verified

feast-watch is a monitoring agent that pushes metrics to a "mother", which folds them into two rollup tiers, keeps
an in-memory live tail, answers charts and polls, and steers agent rollouts, agent removal and its own self-update
through the answers to pushes. This project models the state machines and data structures behind that and proves what
they keep over every input and every run. `dafny verify dfyconfig.toml` checks all of it.

| file | what it models |
|---|---|
| `LiveWindow.dfy`, `LiveStore.dfy` | the live window: its meaning as values, and the store on the heap, slices, in-place compaction and copies included, proved to keep that meaning |
| `Polling.dfy` | runs of clock, limiter, ingest guard, evictions and a polling reader |
| `Rollups.dfy`, `Chart.dfy`, `Migration.dfy` | incremental folding against batch aggregation, the chart query over it, schema migrations |
| `NaturalOrder.dfy`, `ReleaseCache.dfy` | the version comparator and what depends on it; the release cache on the heap |
| `Placement.dfy` | downloading, verifying and placing a binary, system call by system call |
| `MotherUpdate.dfy`, `Updater.dfy` | the mother's self-update as a crash-restart machine, and the updater's methods as paths of it |
| `AgentLoop.dfy`, `RolloutErrors.dfy` | the agent's push loop, and agent and server row together during a rollout |
| `MotherTables.dfy`, `Mother.dfy` | the mother's tables and handlers, id reuse |
| `TableSteps.dfy`, `PushHistory.dfy` | what one request does to one row, and what the rollup rows and the live tail stand for over a whole run |
| `Removal.dfy` | two-phase removal: row, agent, host and uninstall script |
| `GroupRollout.dfy` | version checks and group rollouts |

Reading guide. Each stateful Go type is a class whose methods are proved equal to functions on values; the properties
over runs are then lemmas about those functions. Clock readings, random tokens, the ids SQLite hands out, HTTP answers
and every fault are parameters. A SQL transaction and a mutex-guarded method are one step; the self-update is cut into
its single store and file steps so that a crash can fall between any two. Go map iteration picks any key left.
`float64` is `real`, SHA-256 and "which version is this binary" are arbitrary functions, timestamps are unix seconds.

## Where the code and its comments disagree

The model follows the code. Each of these is a lemma below.

- `mother/api/chart.go:8-9` promises at most 500 points "regardless of range". What a request can get is the number of its
  buckets with a row start in range (`ExceedsExactly`): up to 502 with unaligned ends (`ChartBoundTight`), 501 where buckets
  are one tier row wide (`OnTierWidthTight`), and more exactly when `to - from` overflows int64 and the range ends late enough
  (`OverflowLosesBound`).
- The two-second limiter (`mother/api/middleware.go:124-133`) does not space stamps by two seconds, because a push is
  stamped after it is admitted. A live buffer under a window of W seconds holds at most W/2 + 2 points (`MemoryBound`).
  W/2 + 1 is exact while no stamp is more than a second late, if W is even, and while none is late at all, if W is odd
  (`HalfWindowExactly`); the code sets windows of whole minutes only (`mother/api/middleware.go:71`), so W is even.
- `mother/release/order.go:5-7`: digit runs compare numerically only while they fit int. Runs of 19 digits close a cycle
  (`TransitiveExactly`), leading zeros make ties that are not transitive (`TiesNotTransitive`).
- `mother/store/motherupdate.go:39-42`: a cancelled target's staged file is still installed at the next start
  (`CancelDoesNotUnstage`; `OnlyTargetInstallsExactly` says exactly when a new target or a cancel keeps everything else from
  being installed), a new target that lands between a commit and its download can cost one download more than the
  bound (`DownloadsBoundedExactly`), and one set while a tick gives up is overwritten (`RetargetSurvivesTick`).
- `mother/store/groups.go:155-157` calls a membership of an unknown id invisible to every read. The group's
  server_count shows it at once (`CountShowsDangling`), and it becomes a member when the id is handed out again
  (`InheritsTheDangling`).
- `mother/api/ingest.go:55-56` says rejected payloads never use up the push slot. A refused metric name does, because names
  are checked after the limiter (`Mother.Admit`).
- `mother/api/uninstall.sh:193-194` says a failed report leaves a working uninstaller. The next step removes it whether
  or not the report arrived (`LostReportIsFinal`, `SilentRowNeedsForce`).
- `mother/api/uninstall.sh:111-118` calls the report the confirmation that the host is clean. A script run by hand whose
  service stop fails can report while an update puts the binary back (`UpdateOutlivesByHand`). From an idle host no report
  does so exactly when the removal has been asked for and no update is under way, leaving aside hosts that cannot report or
  cannot update (`RemovalIsAFactExactly`).

## Model

| member | source | states |
|---|---|---|
| LiveStore.AppendTo | mother/live/live.go:89 | append: the slice says one point more, in its own array while there is room, in a new one otherwise. |
| LiveStore.Compact | mother/live/live.go:225-229 | The in-place compaction leaves the surviving suffix at the front of the same array. |
| LiveStore.CopyFrom | mother/live/live.go:129-131 | The copy is a new array holding the suffix. |
| LiveStore.ExpiredPrefix | mother/live/live.go:216-219 | On an ascending list the expired points are precisely the returned prefix. |
| LiveStore.SearchNewer | mother/live/live.go:124 | The binary search finds the split between points up to `since` and points after it. |
| LiveStore.MetricBuffers.constructor | mother/live/live.go:81-84 | A new map says nothing and reaches no array. |
| LiveStore.MetricBuffers.AppendPoint | mother/live/live.go:89 | One metric says one point more, and no two metrics come to share an array. |
| LiveStore.MetricBuffers.Offer | mother/live/live.go:86-89 | A name is taken exactly when it is known or there is room under the cap. |
| LiveStore.MetricBuffers.OfferAll | mother/live/live.go:85-90 | The loop over a push is the offers in some order that visits every name once. |
| LiveStore.LoadsAdmit | mother/live/live.go:85-91 | Whatever that order, the names taken meet the cap rule (every known one, new ones up to 256 held) and the result is the old buffers plus exactly one point for each. |
| LiveStore.MetricBuffers.Evict | mother/live/live.go:213-230 | The loop over one server's metrics equals the filter by timestamp on every list, reaching no new array. |
| LiveStore.MetricBuffers.EvictMetric | mother/live/live.go:216-230 | One metric is left alone, dropped or compacted, and says its filtered list. |
| LiveStore.MetricBuffers.CopyNewer | mother/live/live.go:123-131 | The points newer than `since`, in memory nobody else has; null exactly when there is none. |
| LiveStore.MetricBuffers.Latest | mother/live/live.go:147-158 | The newest value of every held metric, and a timestamp no held metric exceeds and one attains. |
| LiveStore.Store.constructor | mother/live/live.go:60-68 | A new store is empty and valid; a non-positive window becomes one minute. |
| LiveStore.Store.OthersUntouched | mother/live/live.go:201-234 | Work on one server's memory leaves what every other server's memory says as it was. |
| LiveStore.Store.OfferIn | mother/live/live.go:80-90 | A push is offered writing only that server's memory, and what it adds to it is new. |
| LiveStore.Store.EvictIn | mother/live/live.go:213-230 | Compaction writes only that server's arrays. |
| LiveStore.Store.Add | mother/live/live.go:73-92 | The memory says the old buffers with the accepted names appended, then this server evicted; only this server's memory is written; ascending, non-empty lists, no empty server and no shared array are kept. |
| LiveStore.Store.EvictServer | mother/live/live.go:207-234 | Exactly the points before the cutoff of one server go, and with them emptied metrics and an emptied server. |
| LiveStore.Store.SeriesSince | mother/live/live.go:116-132 | The answer is every unexpired point strictly newer than `since`, in order, in an array the store does not share. |
| LiveStore.Store.Latest | mother/live/live.go:140-159 | The newest values and their newest timestamp, after the eviction. |
| LiveStore.Store.Forget | mother/live/live.go:173-177 | Only this server's buffers go. |
| LiveStore.Store.SetWindow | mother/live/live.go:182-192 | A positive window evicts every server at the new cutoff; a non-positive one changes nothing. |
| LiveWindow.SuffixFrom | mother/live/live.go:211-230 | On an ascending list the filter by timestamp is a suffix. |
| LiveWindow.EvictKeepsValid | mother/live/live.go:201-234 | Eviction keeps the representation invariant. |
| LiveWindow.HeldAfterApply | mother/live/live.go:73-234 | One operation changes a metric's buffer by its own points and its own cutoff only. |
| LiveWindow.RefinesLog | mother/live/live.go:73-234 | After any operations the buffer is the log of accepted points that no later cutoff or Forget has taken, in order. |
| Polling.StepKeepsInv | mother/api/ingest.go:57-96 | Waiting, pushing, being refused after the limiter, reading, resizing and polling keep buffers strictly ascending, stamped no later than last_push, and the reader complete up to its newest point. |
| Polling.AnswerCatchesUp | mother/live/live.go:102-132 | A poll with the newest timestamp held leaves the reader with everything buffered, without duplicates. |
| Polling.RunKeepsInv | mother/api/ingest.go:75-96 | The invariant holds after every run. |
| Polling.SlotTaken | mother/api/middleware.go:124-133 | A push let through takes the slot, refused for its names or not; one too soon changes nothing. |
| Polling.ExactlyOnce | mother/live/live.go:102-132 | After any interleaving of pushes, evictions and window changes, a poll leaves a strictly ascending list of arrived points that has every point then held. Pushes of one server do not overlap here, and the clock does not step back. |
| Polling.OvertakenExactly | mother/api/ingest.go:68-84 | A push whose handler read the row before another push of that server landed keeps every list strictly ascending if and only if no metric it brings has a point of that very second. |
| Polling.RunKeepsSpacing | mother/api/middleware.go:124-133 | In every run whose stamps are at most `slack` seconds late, the points of a metric are two seconds apart each, less `slack` (at most two) once in the whole list, and all but the last are behind the last admission. |
| Polling.WindowBound | mother/live/live.go:207-230 | How many points so spaced fit a window of W seconds: (W + min(slack, 2))/2 + 1. |
| Polling.MemoryBound | mother/live/live.go:207-229 | After any run and an eviction a metric holds at most W/2 + 2 points, however late each push is stamped (pushes of one server not overlapping, the clock not stepping back). |
| Polling.PromptBoundMet | mother/api/middleware.go:124-133 | For every window some run whose stamps are not late holds W/2 + 1 points. |
| Polling.MemoryBoundMet | mother/api/ingest.go:57-68 | For every window some run with stamps a nanosecond later than the limit below holds W/2 + 2. |
| Polling.HalfWindowExactly | mother/api/ingest.go:57-68 | W/2 + 1 is kept by every run whose stamps are at most D late if and only if D is at most one second (W even) or nothing (W odd). |
| Rollups.AggOfSummarises | mother/store/rollup.go:51-58 | The batch aggregate is the exact minimum, maximum, sum and count of its samples. |
| Rollups.AggOfPermutation | mother/store/rollup.go:41-58 | The aggregate does not depend on the order of the samples. |
| Rollups.FoldIsBatch | mother/store/rollup.go:17-64 | After any pushes each bucket is the batch aggregate of the samples whose window starts there. |
| Rollups.BucketIsExact | mother/store/rollup.go:17-64 | A bucket exists exactly when some sample falls in it, and then its min, max, sum and cnt are those samples'. |
| Rollups.FoldIgnoresOrder | mother/store/rollup.go:17-64 | Any two orders of the same pushes give the same table. |
| Rollups.MergedIsBatch | mother/api/chart.go:52-57 | Merging a range of buckets is aggregating the samples whose window starts lie in the range. |
| Rollups.RangeIsRaw | mother/store/rollup.go:38-58 | Over an aligned range that is the aggregate of the samples stamped within it. |
| Rollups.HourMergesMinutes | mother/store/rollup.go:8-15 | Every hour bucket is the merge of its minute buckets. |
| Rollups.RollupTables.ApplySamples | mother/store/rollup.go:28-64 | One push is upserted into both tiers, or a step of the transaction fails and neither changes. |
| Rollups.RollupTables.UpsertTier | mother/store/rollup.go:38-62 | Whatever order the samples are visited in, each touched bucket combines with its sample and no other bucket changes. |
| Chart.HandleChart | mother/api/chart.go:27-79 | Refused exactly when a parameter is missing, the range is empty, or more than 500 of the interval asked for (of 60 seconds, if less was asked for) fit a range that does not overflow int64; otherwise the grouped query, for that interval and in multiples of it, of the minute tier below an hour and of the hour tier from there on. |
| Chart.TooManyExactly | mother/api/chart.go:41-44 | The check in wrapping int64 arithmetic refuses exactly when the subtraction does not overflow and more than 500 intervals fit. |
| Chart.Rows | mother/api/chart.go:52-73 | The loop over the rows of the answer collects the buckets that have any, in order. |
| Chart.GroupedShape | mother/api/chart.go:52-57 | Points are strictly ascending multiples of the interval, at most one per bucket, from the first bucket asked for to the last. |
| Chart.ChartBound | mother/api/chart.go:8-44 | An accepted request whose range fits int64 gets at most 502 points, strictly ascending multiples of the interval. |
| Chart.FoldedIsAligned | mother/store/rollup.go:38-46 | Every folded tier has its rows on multiples of its width. |
| Chart.AtMostMost | mother/api/chart.go:41-57 | No folded tier gives a request more points than it has buckets with a row start in range. |
| Chart.MostIsMet | mother/api/chart.go:41-57 | Some history gives exactly that many, for every request and series. |
| Chart.ExceedsExactly | mother/api/chart.go:8-44 | For every bound, the commented 500 included: some history exceeds it if and only if that number does. |
| Chart.ChartBoundOnTierWidth | mother/api/chart.go:38-57 | Where buckets are one tier row wide an accepted request gets at most 501 from any history. |
| Chart.OnTierWidthTight | mother/api/chart.go:38-57 | 501 is met in either tier. |
| Chart.ChartBoundTight | mother/api/chart.go:8-44 | Some accepted request can get 502. |
| Chart.OverflowLosesBound | mother/api/chart.go:41-44 | An accepted request can get more than 502, in either tier, if and only if its subtraction overflows int64 and the last row start in range is in bucket 502 or later. |
| Chart.OverflowPasses | mother/api/chart.go:41-44 | The check passes on every overflow. |
| Chart.OverflowExample | mother/api/chart.go:41-44 | The whole of time up to now, by the minute, is such a request. |
| Chart.ChartRefinesRaw | mother/api/chart.go:46-57 | A bucket has a point exactly when pushes fall in it, and the point is their exact min, max and mean. |
| Chart.ChartedBy | mother/api/chart.go:53-57 | The samples a bucket answers for: those whose window start is in range and, divided by the interval, gives the bucket. |
| Chart.GroupingIsExact | mother/api/chart.go:52-57 | Grouping tier rows by the interval groups the samples by it exactly when the interval is a multiple of the tier width. |
| Chart.TiersAgree | mother/api/chart.go:46-57 | For hour-multiple intervals over hour-aligned ranges both tiers give the same chart. |
| Migration.Database.ApplyMigration | mother/store/migrate.go:117-132 | The entry and the version bump land together or not at all. |
| Migration.Database.Migrate | mother/store/migrate.go:101-115 | Wherever it is interrupted, the version counts exactly the entries the data has been through; it stops early only at a crash or an entry that fails. |
| Migration.RowsSurvive | mother/store/migrate.go:166-208 | From any version to any later one each tier keeps exactly its own rows: minimum, maximum, count and avg * cnt of each once sums are stored, everything otherwise. |
| Migration.RowsSurviveFromTheStart | mother/store/migrate.go:101-208 | So from no version, where no entry fails. |
| Migration.HistorySurvives | mother/store/migrate.go:166-208 | A database holding the averages of a history per minute and per hour ends with the folded tiers of that history. |
| Migration.SettingsSurvive | mother/store/migrate.go:144-218 | Of the settings only the two retired ones go, each with its own entry. |
| Migration.ColumnsGrow | mother/store/migrate.go:24-92 | Columns are only added, and only those the entries name. |
| Migration.NothingElseChanges | mother/store/migrate.go:22-132 | No server is lost; the raw samples go and the later tables come exactly with their entries. |
| Migration.InterruptedRunsAgree | mother/store/migrate.go:101-132 | Any number of interrupted starts reaches the state an uninterrupted run has at that version. |
| Migration.EntryReaches | mother/store/migrate.go:22-96 | From what version k promises, entry k succeeds and brings what version k + 1 promises. |
| Migration.NeverFails | mother/store/migrate.go:22-96 | From an unversioned database every entry succeeds. |
| Migration.ReplayIsHarmless | mother/store/migrate.go:134-218 | Replaying any entries from a rewound version leaves a migrated database unchanged. |
| Migration.TargetsSurvive | mother/store/migrate.go:144-164 | From any schema, the column missing or the setting absent included, every server ends with its own target if it had one, else the fleet's. |
| Migration.RebuildInverts | mother/store/migrate.go:194-199 | avg * cnt restores the sum of every row with a count. |
| Migration.WeightedMeanUnchanged | mother/store/migrate.go:174-218 | No weighted total or count over any range changes. |
| Migration.RebuildRestoresFold | mother/store/migrate.go:174-218 | Rebuilding the averages of a history gives the folded tier of that history. |
| Migration.FoldingContinues | mother/store/migrate.go:166-218 | Folding on after the migration equals having stored sums from the start. |
| NaturalOrder.LeadingChunk | mother/release/order.go:35-43 | Chunk and rest rebuild the string, the chunk is one maximal run. |
| NaturalOrder.NaturalLess | mother/release/order.go:16-31 | The loop decides the recursive chunk-by-chunk order. |
| NaturalOrder.PrefixFirst | mother/release/order.go:16-31 | A version stands before every version that goes on from it, leading zeros apart. |
| NaturalOrder.NumbersDecide | mother/release/order.go:21-26 | Behind any common part, digit runs that fit int decide by their value, whatever follows them. |
| NaturalOrder.HugeRunsDecideAsText | mother/release/order.go:21-28 | Digit runs of which one does not fit int decide as text. |
| NaturalOrder.TextDecides | mother/release/order.go:21-28 | Where two versions part at two characters that are no digits, the smaller character decides. |
| NaturalOrder.DigitAgainstText | mother/release/order.go:21-30 | Where a digit meets text, the shorter run of text stands first; at the very front the characters decide. |
| NaturalOrder.LexFirstDifference | mother/release/order.go:27 | Text is compared at its first difference, a prefix first. |
| NaturalOrder.Irreflexive | mother/release/order.go:16-31 | Nothing precedes itself. |
| NaturalOrder.Transitive | mother/release/order.go:16-31 | Transitive whenever every digit run fits int, leading zeros or not. |
| NaturalOrder.TieExactly | mother/release/order.go:16-31 | Two different strings tie exactly when they part at runs of one value written with different zeros; never both ways less. |
| NaturalOrder.ClashNeedsLeadingZero | mother/release/order.go:21-25 | Such a tie needs a leading zero. |
| NaturalOrder.Trichotomy | mother/release/order.go:16-31 | Without leading zeros exactly one of less, equal, greater holds. |
| NaturalOrder.OverflowCycle | mother/release/order.go:21-26 | A run that overflows int closes a cycle with two that do not. |
| NaturalOrder.TransitiveExactly | mother/release/order.go:16-31 | Transitivity over strings with runs of at most n digits holds if and only if n is at most 18. |
| NaturalOrder.TiesNotTransitive | mother/release/order.go:16-31 | With leading zeros, ties are not transitive. |
| NaturalOrder.LatestIsMaximum | mother/api/binaries.go:66-81 | On the domain, the tag served as latest is the strict maximum of its own family, the agent's or the mother's builds, and missing exactly when the family is empty. |
| NaturalOrder.SortIsUnique | mother/release/index.go:41-45 | On the domain an unstable sort has one possible outcome. |
| ReleaseCache.CloneBuilds | mother/release/index.go:138-144 | A deep copy: same contents, all memory new. |
| ReleaseCache.Cache.constructor | mother/release/index.go:74-80 | Starts empty, never checked and stale. |
| ReleaseCache.Cache.Refresh | mother/release/index.go:85-100 | A failure keeps the lists and the check time and marks them stale; a success replaces them without keeping the source's memory; no array anyone holds is written. |
| ReleaseCache.Cache.Snapshot | mother/release/index.go:104-113 | The copy says what the cache says and shares no memory with it. |
| ReleaseCache.Cache.ScribbleOver | mother/release/index.go:102-103 | Overwriting every platform and every entry a snapshot reaches leaves what the cache says unchanged. |
| Placement.ChecksumIsFirstField | shared/release/release.go:170-183 | A file is accepted exactly when its first field is 64 hexadecimal digits in either case, and the digest is that field in lower case. |
| Placement.BlankChecksumRefused | shared/release/release.go:171-174 | A file without a field is refused. |
| Placement.Fetch | shared/selfupdate/selfupdate.go:68-85 | The whole body, exactly when the answer is a 200, unbroken and within the limit. |
| Placement.Copy | shared/selfupdate/selfupdate.go:110-111 | Buffer by buffer the file and the hashed bytes agree; only the temporary file is ever touched. |
| Placement.Download | shared/selfupdate/selfupdate.go:94-132 | Succeeds exactly when nothing fails and the size is within the cap; then the file is the body and the digest its digest; otherwise nothing else changed and the file is gone unless its removal failed. |
| Placement.Place | shared/selfupdate/selfupdate.go:43-65 | Exact condition of success; on failure the destination is unchanged; at every system call in between the destination is untouched or complete and verified. |
| Placement.PlacesExactly | shared/selfupdate/selfupdate.go:43-132 | That condition spelled out in answers, sizes, digest and file operations. |
| MotherUpdate.GivesUpInTime | mother/selfupdate/updater.go:119-158 | On every run without an operator, once as many ticks as the target's budget have written the row it is given up with a reason and shown as failed, whatever crashes, restarts, failed promotions and lost writes came in between. |
| MotherUpdate.FailureStands | mother/selfupdate/updater.go:94-126 | After giving up no run without an operator changes the row, across crashes, starts, boots and split ticks: it reads failed until the next target. |
| MotherUpdate.TickOutcomes | mother/selfupdate/updater.go:119-175 | The row after each outcome of a tick, column by column: untouched; given up with target, attempts and last reason in the message; or one attempt more, with the transfer's reason or the staged version if the write lands. |
| MotherUpdate.FailureIsShown | mother/api/mother.go:106-117 | A failed attempt keeps its target, is shown as failed with its reason, and is quoted by the tick that gives up. |
| MotherUpdate.FailureIsNoted | mother/selfupdate/updater.go:155-175 | The machine's failed download leaves its reason in the row and nothing else. |
| MotherUpdate.ReconcileOutcomes | mother/selfupdate/updater.go:94-115 | The row after a boot: cleared and dated if the target runs; a reason, shown as failed, with the target kept if a staged file did not take; untouched otherwise. |
| MotherUpdate.TargetOutcome | mother/store/motherupdate.go:43-55 | A new target leaves nothing of the last one but when an update last landed, and is pending unless it is none or runs already. |
| MotherUpdate.StateOf | mother/api/mother.go:106-117 | The state shown, condition by condition. |
| MotherUpdate.DecimalReads | mother/selfupdate/updater.go:134-136 | The attempts in the message read back as the number. |
| MotherUpdate.StepKeepsCounting | mother/store/motherupdate.go:43-73 | Every step of the crash-restart machine keeps the stored attempts equal to the committed ones and the downloads within them. |
| MotherUpdate.AttemptsBounded | mother/selfupdate/updater.go:119-158 | Over every run, attempts stay within the bound, and so do downloads since the operator last spoke, save one overtaken commit. |
| MotherUpdate.OvertakenCommit | mother/selfupdate/updater.go:139-155 | A wanted target set between a commit and its download is followed on some run by MaxAttempts + 1 downloads. |
| MotherUpdate.DownloadsBoundedExactly | mother/selfupdate/updater.go:119-158 | At most MaxAttempts downloads follow a wanted target on every run if and only if it does not land there. |
| MotherUpdate.Quiesces | mother/selfupdate/updater.go:119-166 | With no operator action at most MaxAttempts + 1 ticks change the row, across any restarts. |
| MotherUpdate.StagedIsVerified | mother/selfupdate/updater.go:152-165 | In every reachable state what is staged is within the size cap and has a digest that was answered, before its bytes came, for the target it was downloaded for; what is installed is that too, or the original. |
| MotherUpdate.AnswersWereGiven | shared/selfupdate/selfupdate.go:44-51 | Every such answer was given to a download of the run, begun right after that target's attempt was counted. |
| MotherUpdate.ShutdownOnlyWhenStaged | mother/selfupdate/updater.go:158-165 | A shutdown is requested only with a verified file of the tick's own target in place, and with that target recorded as staged unless the operator has written since the attempt was counted. |
| MotherUpdate.RetargetSurvivesTick | mother/selfupdate/updater.go:119-137 | A target set between a tick's read and its decision survives if and only if the tick does not give up. |
| MotherUpdate.RetargetSurvivesReconcile | mother/selfupdate/updater.go:94-115 | A target set between the boot's read and its write survives if and only if the update had not landed. |
| MotherUpdate.StartOutcomes | deploy/feast-watch-mother-promote:28-53 | Before a start an empty staged file goes, any other is installed, or stays when it cannot be. |
| MotherUpdate.CrashInsidePlace | mother/selfupdate/updater.go:152-157 | A crash at any file state that is as before or verified against the digest answered for this download is a run of the machine on no other answers. |
| MotherUpdate.CrashLeavesVerified | mother/selfupdate/updater.go:152-157 | So what a crash leaves under the staged path has a digest that was answered for its target: before, or for this download. |
| MotherUpdate.CancelDoesNotUnstage | deploy/feast-watch-mother-promote:28-53 | After a cancel, a crash and a start the binary is unchanged if and only if nothing is staged, the file is empty, the install fails or the two are equal; otherwise the staged file runs. |
| MotherUpdate.OnlyTargetInstallsExactly | mother/selfupdate/updater.go:119-158 | After a new target or a cancel, nothing else is left staged or gets installed on any run until the next one, if and only if nothing else was staged and no tick was past its read, its count or its digest for another target. |
| Updater.MotherStore.SetMotherDesiredVersion | mother/store/motherupdate.go:43-55 | A new target resets staged, attempts and error and keeps when the last update landed. |
| Updater.MotherStore.BeginMotherAttempt | mother/store/motherupdate.go:65-73 | The increment lands even when reading the total back fails, and clears the last error. |
| Updater.MotherStore.StageMotherUpdate | mother/store/motherupdate.go:77-81 | Only the staged version changes. |
| Updater.MotherStore.RecordMotherUpdateError | mother/store/motherupdate.go:85-89 | The error becomes the given one and nothing else changes; the target stands. |
| Updater.MotherStore.FailMotherUpdate | mother/store/motherupdate.go:94-99 | The target goes, the reason stays. |
| Updater.MotherStore.ClearMotherUpdate | mother/store/motherupdate.go:103-111 | Everything about the update goes except when it was asked for and when it landed. |
| Updater.Updater.Tick | mother/selfupdate/updater.go:119-166 | Its steps are a path of the machine, and so is a crash at any file state in between; each of those leaves the staged path as before or verified against the digest published for this download; the row it leaves, the file it places and the shutdown it requests are exactly those of its outcome. |
| Updater.Updater.Attempt | mother/selfupdate/updater.go:147-165 | The part after the count is a path of the machine, and keeps that of every file state in between. |
| Updater.Updater.FetchStaged | mother/selfupdate/updater.go:152-157 | A download leaves the published binary or the files as they were; every file state in between leaves the staged path as before or verified against what was published, and is one a run of the machine can crash in. |
| Updater.Updater.Transferred | shared/selfupdate/selfupdate.go:43-65 | So does the transfer itself, whose answer was fixed before the bytes. |
| Updater.Updater.Finish | mother/selfupdate/updater.go:158-165 | Shutdown follows a recorded staging, and only that. |
| Updater.Updater.Record | mother/selfupdate/updater.go:170-175 | The reason is stored when it can be. |
| Updater.Updater.Reconcile | mother/selfupdate/updater.go:94-115 | A boot settles the last update as one path of the machine. |
| AgentLoop.Loop.constructor | agent/loop.go:65-73 | A new process remembers no update and no removal. |
| AgentLoop.Loop.PushOnce | agent/loop.go:116-129 | A landed answer replaces collectors and interval when it names them; a lost push changes nothing. |
| AgentLoop.Loop.RunOnce | agent/loop.go:152-178 | One round leaves exactly the state, and makes exactly the update and removal calls, of its answer: removal first, then the rollout. |
| AgentLoop.Loop.TryUninstall | agent/loop.go:186-208 | At most one attempt per gap; inside it the last error stands. |
| AgentLoop.Loop.TryUpdate | agent/loop.go:214-235 | At most one attempt at a target per gap; inside it the last error stands; another target is attempted at once. |
| AgentLoop.Loop.ForgetUpdate | agent/loop.go:241-243 | Target, error and gap go together. |
| AgentLoop.UpdatesSpaced | agent/loop.go:210-235 | While one target is named, update attempts are 300 s apart whatever fails or is removed in between. |
| AgentLoop.RemovalsSpaced | agent/loop.go:186-208 | Removal attempts are 300 s apart in every run of a process. |
| AgentLoop.ThrottleBound | agent/loop.go:186-235 | Any span of T seconds has at most T/300 + 1 update attempts at the named target. |
| AgentLoop.RetargetingResetsGap | agent/loop.go:210-213 | Naming two targets in turn gets each attempted at once, every time. |
| AgentLoop.ErrorIsLastAttempts | agent/loop.go:152-243 | Over every run the remembered target is what the mother last asked for, or nothing once that is nothing or the version running; a reported error is the outcome of the last attempt, which was at that target, and with no target there is none. |
| AgentLoop.UpdateCalledExactly | agent/loop.go:161-235 | A round calls update, with the version named, exactly when a landed answer names one that does not run and asks for no removal, and it is not the version last named or 300 s have passed since the last call. |
| AgentLoop.UninstallCalledExactly | agent/loop.go:164-208 | A round calls uninstall exactly when asked to and able to, and 300 s have passed since the last call. |
| AgentLoop.RemovalErrorIsReported | agent/loop.go:186-208 | The removal error is that of the last round that called uninstall, or could not. |
| AgentLoop.LearnsTheLastNamed | agent/loop.go:120-128 | Over every run collectors and interval are those of the last landed answer that named any, the defaults until then. |
| RolloutErrors.RowFollowsServer | mother/store/servers.go:156-187 | The rollout's row is the stored server's, write by write. |
| RolloutErrors.ExchangeExactly | mother/api/ingest.go:86-116 | A push reports what the agent runs and its last update error, and is answered with the row's target and removal; the report is stored if the write lands. |
| RolloutErrors.UpdateState | mother/api/admin.go:67-77 | The state shown, condition by condition. |
| RolloutErrors.StepKeepsInv | mother/api/ingest.go:86-116 | Every step of agent, row and requests in flight keeps informed reports about the current target. |
| RolloutErrors.RunKeepsInv | agent/loop.go:152-243 | So does every run. |
| RolloutErrors.StoredErrorIsCurrent | mother/store/servers.go:156-187 | Over every run, late requests included: while the error was last written by SetDesiredVersion, or by a push begun after an answer naming the current target had landed, it concerns that target, and so does a state shown as failed. |
| RolloutErrors.SecondPushSettles | agent/loop.go:152-243 | From the second landed push begun after a target is set, the row's error concerns that target only. |
| RolloutErrors.FirstPushMayBeStale | mother/store/servers.go:170-187 | After one landed push the row's error concerns the new target if and only if the agent's did, or it had none. |
| RolloutErrors.LateRequestUnsettles | mother/api/ingest.go:86-92 | A request stored late makes the row's error concern the target exactly when its own did. |
| RolloutErrors.LateRequestMisblames | mother/api/ingest.go:86-92 | For any number of pushes landed since, some run from the start ends with an error about a target replaced before them. |
| MotherTables.StepKeepsUnique | mother/store/servers.go:77-94 | A token opens one row at most, whatever happens. |
| MotherTables.StepKeepsKeyed | mother/store/servers.go:211-236 | Every step keeps rollup rows and live points on servers that exist and memberships on groups that exist. |
| MotherTables.RunKeepsKeyed | mother/api/admin.go:235-245 | So does every run from an empty mother. |
| MotherTables.DanglingIsExact | mother/store/groups.go:132-165 | Exactly which memberships point at nothing after each step; only SetGroupServers makes any. |
| MotherTables.NothingDangles | mother/store/groups.go:132-165 | None do while SetGroupServers names existing servers. |
| MotherTables.NoInheritance | mother/store/servers.go:211-236 | In every run a newly added server, on a reused id or not, has no rollup row and no live point; and no membership if SetGroupServers only named existing servers. |
| MotherTables.InheritsTheDangling | mother/store/groups.go:155-157 | A new server gets exactly the memberships that named its id before. |
| MotherTables.DanglesExactly | mother/store/groups.go:135-165 | A call to SetGroupServers leaves nothing dangling if and only if the ids it names exist. |
| MotherTables.CountShowsDangling | mother/store/groups.go:72-94 | A group's server_count exceeds the members listed by exactly the memberships pointing at nothing; the two agree if and only if there is none. |
| MotherTables.NewGroupIsEmpty | mother/store/groups.go:112-130 | A new group, on a reused id or not, starts empty in every run. |
| MotherTables.RacingPushOutlivesItsRow | mother/api/ingest.go:75-85 | A push whose row is deleted between its authentication and its writes leaves nothing on the freed id if and only if it was empty. |
| TableSteps.RowsAfter | mother/api/admin.go:162-245 | Exactly which servers there are after a request, and that a new row says nothing but its name and token. |
| TableSteps.ColumnsAfter | mother/store/servers.go:156-187 | Every column of a row after every request that leaves it there: what a push, a target and a delete request write, and that nothing else does. |
| TableSteps.NamesStayUnique | mother/store/servers.go:77-94 | In every run no two servers and no two groups share a name. |
| TableSteps.GroupsAfter | mother/store/groups.go:45-130 | Exactly which groups there are after a request, under which names. |
| TableSteps.MembersAfter | mother/store/groups.go:111-165 | Exactly which memberships there are after a request; those of other groups and servers stay. |
| PushHistory.RowsAreThePushes | mother/api/ingest.go:68-85 | In every run, deletions, retention and reused ids included: a minute or hour row exists exactly when a push recorded since it was last taken has a sample stamped within it, and is the exact minimum, maximum, sum and count of those. |
| PushHistory.TiersAreTheFold | mother/api/ingest.go:68-85 | While nothing is deleted both tiers are the fold of the pushes as they were sent. |
| PushHistory.LiveIsTheLog | mother/api/ingest.go:81-84 | In every run the live tail is the log of the recorded points no cutoff, deletion or restart has taken. |
| Mother.Mother.constructor | mother/api/middleware.go:51-64 | A new mother is empty. |
| Mother.MetricIsValid | mother/api/ingest.go:21-24 | Accepts exactly the dotted names of the metric charset within the length bound. |
| Mother.InvalidMetric | mother/api/ingest.go:27-34 | Finds an unacceptable key if there is one, whatever the iteration order. |
| Mother.Mother.ServerByToken | mother/store/servers.go:122-124 | Finds a row of that token, and none only when there is none. |
| Mother.Mother.AllowPush | mother/api/middleware.go:124-133 | One push per server per two seconds; a refused one leaves the slot alone. |
| Mother.Mother.Admit | mother/api/ingest.go:36-66 | Exactly which answer a push gets: token, size, pace and names, in this order; the slot is used up exactly by a known token's push that is not too large and in time, whatever its names. |
| Mother.Mother.HandleIngest | mother/api/ingest.go:36-117 | Exactly which answer a push gets, its target and removal included; an accepted one is one ingest step on the tables under the cap rule, a refused one, or one whose rollup transaction fails, changes no table. |
| Mother.Mother.Record | mother/api/ingest.go:75-85 | Both tiers, with the stamp and samples as given, and the live tail take the push exactly when it is strictly newer, and the live tail stays in clock order. |
| Mother.PollingRunsThisHandler | mother/api/ingest.go:68-96 | The polling runs take the same ingest step, behind the same two-second limit. |
| Mother.PollingPollsThisStore | mother/live/live.go:102-132 | And a poll of them adds what the store answers. |
| Mother.Mother.HandleAddServer | mother/api/admin.go:162-191 | 400 for the name, 409 for a name or token in use, otherwise a fresh row on the id given. |
| Mother.Mother.HandleDeleteServer | mother/api/admin.go:193-233 | Unknown 404; scheduled when it has pushed and is not forced; otherwise gone with everything keyed on it. |
| Mother.Mother.RequestUninstall | mother/store/uninstall.go:22-38 | Sets the request time only if there was none. |
| Mother.Mother.DropServer | mother/api/admin.go:239-245 | The row, both tiers' rows, the memberships and the live buffers of the id go, and nothing else. |
| Mother.Mother.HandleUninstalled | mother/api/uninstall.go:31-52 | 401 for an unknown token, 409 without a request, otherwise the row goes. |
| Mother.Mother.SetDesiredVersion | mother/store/servers.go:173-187 | Sets the target and clears the error of that row; reports a missing one. |
| Mother.Mother.EnforceRetention | mother/store/retention.go:5-20 | Each tier loses exactly the rows older than its own limit. |
| Mother.Mother.SetGroupServers | mother/store/groups.go:135-165 | Replaces the membership wholesale, unknown ids included; a missing group changes nothing. |
| Mother.Mother.DeleteGroup | mother/store/groups.go:112-130 | The group and its memberships go, no server does. |
| Mother.Mother.ServersInGroup | mother/store/groups.go:168-188 | Lists the members that exist, each once and by name. |
| Mother.Mother.HandleSetGroupVersion | mother/api/groups.go:151-200 | Refused with nothing written if and only if the version is at fault and there is a member; otherwise applied and skipped are the members split in order, with reasons, and exactly the applied rows are targeted. |
| Mother.Mother.Roll | mother/api/groups.go:177-195 | The loop over the members does that. |
| GroupRollout.RejectVersion | mother/api/versions.go:130-153 | No reason exactly when the version is concrete, built, and its first build covers the platform os-arch as far as both are known; otherwise the reason that applies, word for word. |
| GroupRollout.VersionLevelFault | mother/api/groups.go:205-215 | True exactly for the alias and for a version nobody built. |
| GroupRollout.FaultIsMemberIndependent | mother/api/groups.go:202-215 | With such a fault no server is acceptable; without it a server of unknown platform is. |
| GroupRollout.Partitions | mother/api/groups.go:176-195 | Applied and skipped together are the members, each in exactly one part. |
| GroupRollout.PartsInOrder | mother/api/groups.go:176-195 | Each part stands in the order of the list. |
| GroupRollout.AppliedHasABuild | mother/api/groups.go:177-195 | Every applied member of known platform has a build for it. |
| GroupRollout.ClearingReachesAll | mother/api/groups.go:178-180 | Clearing reaches exactly the members whose write does not fail. |
| GroupRollout.RolloutIsARun | mother/api/groups.go:177-195 | A rollout is a run of single-server targets. |
| Removal.OnlyDepartures | mother/api/admin.go:193-245 | The two ways one step can take a row that has pushed out of the table. |
| Removal.StepKeepsRow | mother/store/uninstall.go:17-38 | A step that leaves the row there keeps its token, a known platform and its request time, and makes a request only by an unforced delete. |
| Removal.RowStands | mother/store/uninstall.go:17-38 | Over any run the row stays in, a request's time never moves, and token and known platform stand. |
| Removal.RequestedBy | mother/api/admin.go:210-225 | A request that was not there at first came from an unforced delete, at the time it records. |
| Removal.LeavesInTwoPhases | mother/api/admin.go:210-233 | A server that has pushed leaves only by force, or by an authenticated report after a delete request. |
| Removal.RequestStands | mother/api/ingest.go:112-115 | While the request stands every push of that server is told to remove itself. |
| Removal.StepKeepsInv | mother/api/uninstall.sh:167-199 | Every step of mother, agent, host and script keeps the order of removal and report. |
| Removal.RunKeepsInv | mother/api/uninstall.sh:145-208 | So does every run. |
| Removal.ReportedRemovalIsAFact | mother/api/uninstall.sh:167-199 | When a script's report drops a row, it is the host's own, a request stood and this run had removed the binary; if it is back, the script was run by hand and an update has put it there. |
| Removal.UpdateOutlivesByHand | mother/api/uninstall.sh:50-66 | From an idle host with a binary or an agent, whose removal is not asked for yet or whose agent is updating, some run by hand whose stop fails drops the row with a binary back in place. |
| Removal.RemovalIsAFactExactly | mother/api/uninstall.sh:111-118 | From any idle host: every row its scripts ever report goes with no binary left there, if and only if the host has no configuration, its token opens no row, there is neither binary nor agent, or removal is asked for and no update is under way. |
| Removal.LostReportIsFinal | mother/api/uninstall.sh:193-199 | After the step that follows a report the uninstaller is there exactly when it was and the run is dry or the removal failed, whether or not the report arrived; a lost report changes no table, and with the configuration gone nothing can report again. |
| Removal.SilenceLasts | mother/api/uninstall.sh:104-143 | With the configuration purged, no later run of the script can report. |
| Removal.SilentRowNeedsForce | mother/api/uninstall.sh:117-143 | From then on a row that has pushed leaves only by force. |
| Removal.FinishedRunLeavesNothing | mother/api/uninstall.sh:167-199 | A run that ends, whatever happened meanwhile, leaves no unit, leftovers or uninstaller, no binary but one an update put back, and, purging, no configuration. |
| Removal.StepSpares | mother/api/uninstall.sh:40-48 | A dry run changes nothing; a run that does not purge keeps the configuration. |
| Removal.AbortsExactly | mother/api/uninstall.sh:40-48 | A script gives up exactly at a file that is there and cannot be removed, and otherwise takes its steps one by one. |
| Removal.ReportsExactly | mother/api/uninstall.sh:99-143 | It reads the token at the start, stops the agent if it can, and reports exactly at its report step, if asked to and not dry, with that token. |
| Removal.AnswerStartsExactly | agent/loop.go:161-177 | A push's answer starts the purging, reporting script where it is installed, or an update, never both. |

## Left out

- The growth of a slice's capacity: when append needs a new array, its size is one choice of many, and nothing depends on it.
- sort.Slice itself: `SortedDescending` is what it leaves behind; the sorting algorithm is the Go library's.
- Overlapping handlers: each handler is one step, except that `RacingPushOutlivesItsRow` shows what a push racing a delete does and `OvertakenExactly` what one racing another push does. Self-update steps and late requests of an agent do interleave.
- Polling.RunKeepsInv: in the runs a push is over before anything else happens, its delay included, and the clock never steps back; the same holds of the other statements about those runs.
- Storage failures of the mother's handlers, except a failed rollup transaction, a member's failed write in a group rollout, a failed write of a heartbeat in `RolloutErrors`, and those of the updater, the migrations and the placement.
- MotherUpdate.AttemptsBounded: MaxAttempts is at least 1, here and in the other statements about runs; the mother starts with 3 (`mother/cmd/feast-watch/main.go:42`).
- Removal.ReportedRemovalIsAFact: the machine has one script at a time, one host and one token that nobody else is given or presents; reloading systemd and pruning the shared directory change nothing it looks at.
- Capabilities, collectors, hostname, ip and renaming groups: written by one statement and read back.
- allowPush's map is never purged of deleted ids, so a new server on a reused id can be refused for two seconds; the limiter is outside the no-inheritance statements.
- DeleteHistory's handler and the read-only listings; the deletion itself is a step of the runs.
- install(1) and cp in the promote helper are one step each; a crash inside them is not modelled.
- SHA-256, float rounding, Unicode trimming and HTTP, JSON, TLS, configuration and asset-name parsing.
- SQLite itself: transactions are atomic and statements mean what they say.
- Who may set the mother's own target: the same version checks as `RejectVersion`, over the mother's builds.
- The collectors, the build catalogue, installers, containers and end-to-end scripts.
