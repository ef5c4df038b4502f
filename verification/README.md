# SolTrace: verified model of its log delivery, anomaly alerts, text handling and partitions

SolTrace collects FTP server logs. A daemon on each device tails log files and posts entries to the
WAS, which buffers them and inserts them without duplicates; a monitor judges five-minute buckets
against a baseline, groups alerts into episodes and announces them; monthly partitions hold the rows.
This project models those parts in Dafny and proves what they keep.

| part | modules |
|---|---|
| tailing, sending, disk buffer | `Tailer`, `WasClient`, `DiskBuffer` |
| ingest, write buffer, dedup | `LogEntries`, `WriteBuffer`, `Ingest`, `WriteBufferModel`, `WriteBufferSafety`, `WriteBufferProgress` |
| the whole delivery path as one machine | `Delivery`, `DeliverySafety`, `DeliveryProgress` |
| baseline statistics and threshold rules | `RobustStats`, `Evaluator`, `EvaluatorRules` |
| alert episodes | `Episodes`, `EpisodeRecovery`, `EpisodeOwnAlerts`, `EpisodeTimes`, `EpisodeCounts`, `EpisodeRanges` |
| text with a meaning | `LikePatterns`, `SqlSplitter`, `SqlReading`, `SqlStatements`, `SqlLimits`, `PyText` |
| bounded session maps of the log parser | `SessionStore`, `SessionHistory`, `ExtendedLog` |
| monthly partitions | `Calendar`, `Partitions`, `Rebalance`, `DiskGuard` |

Objects whose methods update fields are classes whose methods are proved against functions on their
contents; properties of the functions are lemmas. Concurrency and crashes are state machines: the write
buffer at the granularity of its critical sections, the delivery path with one step per observable action.
Check everything with `dafny verify dfyconfig.toml`.

## Results worth knowing

- **Delivery.** `DeliverySafety.Conservation`: in every reachable state each entry behind a committed
  position is accounted for, and the log table has one row per dedup key. Two crashes are excluded. One during a
  resend of the disk buffer: `CrashInResend` says exactly when it loses nothing, `LostInResend` is a run in which
  it does. And one before the state of a tailer was saved for the first time: it then starts at the end of the log.
  Drops are counted, and happen for the size of a buffer or at the 100th attempt only (`DropsOnlyOverflow`,
  `WriteBufferSafety.DiscardsOnly`). When the server answers, one round takes everything on disk and in the new
  lines to it (`DeliveryProgress.RoundDelivers`), and when the database works again the write buffer is empty
  within a minute (`WriteBufferProgress.Recovers`).
- **Recovery messages.** The comment at was/app/service_monitor.py:649-650 says that an episode whose own
  alert never went out gets no recovery message. The mark is set by device and metric, so that is false
  per opening (`EpisodeOwnAlerts.OrphanRecovery`). It holds per device and metric
  (`EpisodeRecovery.RecoveryDiscipline`). Per opening it holds in every state of a run, however the run goes on
  until another round is sent, if and only if each sent round has, for every open unmarked episode it
  touches, an alert of that opening (`EpisodeOwnAlerts.OwnRecoveriesExactly`). The tables can tell: an alert is of
  the current opening exactly when its `created_at` is not before the episode's `started_at`
  (`EpisodeTimes.TimesTell`), so the same condition can be checked on these two columns
  (`EpisodeTimes.FreshRoundsExactly`).
- **Streak settings.** They are read anew in every judging round, so an open episode can meet several. The
  comment at was/app/service_monitor.py:378-380 promises one message per episode when the streak is complete, and
  one more for a turn to critical. The first holds at every moment of an opening if and only if no change of the
  setting crosses the number of alerts counted so far (`EpisodeCounts.OnceExactly`); then an opening sends at most
  two (`EpisodeCounts.TwoAlertsAtMost`). A setting raised above the count makes the streak complete again: there is
  a run in which one opening sends n alerts, none critical, under settings rising to n
  (`EpisodeCounts.RaisedRun`; the settings page allows 1 to 12, was/app/schemas.py:522-523). A setting lowered to
  the count or below it makes the streak never complete: an opening of any length of which nothing is sent
  (`EpisodeCounts.LoweredRun`). The exact number is `EpisodeCounts.SendsExactly`, at most one above the largest
  setting (`EpisodeCounts.SendsBounded`).
- **First bucket.** An episode's `first_bucket` is the one recorded first. It is the earliest of its opening
  throughout a run if and only if the run never records a bucket before it while the episode is open
  (`EpisodeCounts.FirstBucketExactly`). Logs that arrive late break that at any rollup interval
  (`EpisodeRanges.LateFirstBucket`), and the recovery message then states too short a duration.
- **Episode ranges.** Successive openings cover increasing buckets in every run if and only if the rollup
  interval is at most two buckets (`EpisodeRanges.RangesIncreaseExactly`).
- **Rebalance.** The script's heading (scripts/rebalance_default_partition.sql:17) says it leaves the current
  month alone. Its list of months also takes every unattached month table. If no such table of the current or a
  later month stands beside default rows of its month, no commit of any run takes such a row; otherwise every
  run that ends has taken some (`Rebalance.CurrentMonthKept`, `Rebalance.Run`; `Rebalance.CurrentMonthTaken` is an
  input). With rows that conflict with their month table a chunk may insert nothing, the chunk loop stops early
  and attaching fails; each such run still removes duplicates, so running it again ends
  (`Rebalance.RunUntilDone`).
- **Sending.** A negative batch size makes `send_logs` send nothing and report success; for all other sizes
  success means that every entry was posted (`WasClient.SendLogs`).
- **SQL splitter.** A cut is made at exactly the semicolons outside the lexical forms it knows
  (`SqlStatements.CutsExactly`). It does not know block comments, quoted identifiers, escape strings, or digits in
  dollar tags (section 4.1.2 of the PostgreSQL documentation has them), and reads on inside them. A script written
  as the statements that PostgreSQL sees, each ended by a semicolon, is split into exactly these if and only if each
  of them is closed as the splitter reads it: no separator inside, and no comment or string left open at its end; the
  last one, without a semicolon of its own, need only have no separator inside (`SqlStatements.RoundTrip`,
  `SqlStatements.SplitOfJoin`). It fails in both directions. A semicolon in such a form is a cut as long as no form
  the splitter knows began before it (`SqlLimits.FormlessCuts`, `SqlLimits.UnknownForms`), or behind an escaped quote
  of an escape string (`SqlLimits.EscapeStringCut`). One apostrophe in a block comment, or an escaped quote at the
  end of an escape string, opens a string for the splitter: every true separator up to the next apostrophe is missed,
  and several statements are sent as one (`SqlLimits.LoneApostrophe`, `SqlLimits.EscapeStringOpen`,
  `SqlLimits.MissedSeparator`).

## Model

| member | source | states |
|---|---|---|
| RobustStats.MedianWithin | was/app/service_monitor.py:141-147 | if strictly more than half of the values lie in [a, b], so does the median, whatever the rest |
| RobustStats.MadWithin | was/app/service_monitor.py:158-160 | ... and the median absolute deviation around any centre in [a, b] is between 0 and b - a |
| RobustStats.PercentileObserved | was/app/service_monitor.py:150-155 | the percentile of a non-empty list is one of its values |
| RobustStats.PercentileMonotone | was/app/service_monitor.py:150-155 | a larger p never gives a smaller percentile |
| RobustStats.MedianExactly | was/app/service_monitor.py:141-147 | what is computed is the one and only median: the value of the middle rank, counted without sorting, or the midpoint of the two middle ranks |
| RobustStats.MedianHalves | was/app/service_monitor.py:141-147 | at most half of the values lie below it and at most half above |
| RobustStats.PercentileExactly | was/app/service_monitor.py:150-155 | the percentile is the value of rank min(floor(n p), n - 1) |
| RobustStats.BelowPercentile | was/app/service_monitor.py:150-155 | at most as many values as the percentile's rank are at or below anything under the percentile |
| Evaluator.UpperThresholdRobust | was/app/service_monitor.py:533-540 | with a baseline majority in [a, b] the upper threshold lies between max(a, floor) and max(b + k(b - a), floor) |
| Evaluator.FailRateRobust | was/app/service_monitor.py:533-546 | with a majority of baseline failure rates in [a, b], a rate above H = max(b + k(b - a), floor) alerts and from max(2H, 50%) is critical, one not above L = max(a, floor) never alerts and one under max(2L, 50%) is never critical, however extreme the other buckets |
| Evaluator.LoginRobust | was/app/service_monitor.py:579-592 | the same for login failure rates, with 70% |
| Evaluator.CwdRobust | was/app/service_monitor.py:594-608 | the same for directory-change failures, critical from twice the bound |
| Evaluator.LowThresholdRobust | was/app/service_monitor.py:552-577 | with a majority of baseline speeds in [a, b] the slow threshold is at most b(1 - drop) |
| Evaluator.ThroughputRobust | was/app/service_monitor.py:552-577 | a candidate at b(1 - drop) or faster raises no speed alert, at half of that no critical one; with too few buckets for the percentile, one slower than min(a - k(b - a), a(1 - drop)) alerts, and than half of it is critical |
| Evaluator.SlowPercentileGuard | was/app/service_monitor.py:552-577 | with at least 20 eligible baseline buckets a speed alert means that at most min(floor(n p), n - 1) of the n baseline speeds are at or below the candidate's |
| Evaluator.KnobsAntitone | was/app/service_monitor.py:527-608 | for every candidate and baseline, blunter settings never add an alert for a metric and never raise its severity |
| Evaluator.LevelOfEval | was/app/service_monitor.py:527-608 | the alert level of a metric in the whole list is that of the metric's own rule |
| EvaluatorRules.FailRateExactly | was/app/service_monitor.py:533-546 | with m the median failure share of the baseline buckets with enough transfers and d the median distance from it, the list holds exactly the alert whose share is positive and exceeds both m + k d and the floor; its fields, and critical from twice both and 50% on |
| EvaluatorRules.FailRateAlone | was/app/service_monitor.py:533-546 | without such buckets the floor decides, and the alert has no baseline |
| EvaluatorRules.LoginExactly | was/app/service_monitor.py:579-592 | the same for logins, with 70% |
| EvaluatorRules.LoginAlone | was/app/service_monitor.py:579-592 | the same without baseline |
| EvaluatorRules.CwdExactly | was/app/service_monitor.py:594-608 | the same for refused directory changes, critical from twice both on |
| EvaluatorRules.CwdAlone | was/app/service_monitor.py:594-608 | the same without baseline |
| EvaluatorRules.ThroughputExactly | was/app/service_monitor.py:552-577 | with enough large files and a comparable mean size, the list holds exactly the alert of a speed under m - k d, m (1 - drop), and from 20 baseline buckets on the slow percentile; critical under half of them |
| EvaluatorRules.ThroughputAlone | was/app/service_monitor.py:552-577 | without baseline buckets no speed is judged |
| EvaluatorRules.OnePerMetric | was/app/service_monitor.py:527-608 | no two alerts of a bucket are of one metric |
| EvaluatorRules.MedianOfUnique | was/app/service_monitor.py:141-147 | the median over eligible buckets, defined by counting, is unique |
| LikePatterns.TranslateIsCharWise | was/app/service_monitor.py:163-176 | the four chained replacements are one map from characters to texts |
| LikePatterns.TranslateWellFormed | was/app/service_monitor.py:163-176 | no translated pattern ends in a dangling escape |
| LikePatterns.TranslatePreservesMeaning | was/app/service_monitor.py:163-176 | LIKE with backslash escapes accepts a text exactly when the pattern stands for it with '*' as its only wildcard |
| LikePatterns.PatternsMeaning | was/app/service_monitor.py:163-176 | some pattern of the list accepts a text exactly when some non-blank line of the setting stands for it |
| LikePatterns.LikePatterns | was/app/service_monitor.py:163-176 | the whole setting, line by line, means what its lines mean |
| LikePatterns.LinesOfSetting | was/app/service_monitor.py:169-172 | ... and its lines are the texts between the line breaks |
| PyText.SplitLinesMean | was/app/service_monitor.py:169 | splitting yields exactly the texts between line breaks, "\r\n" being one, a final break opening no line |
| PyText.StripMeans | was/app/service_monitor.py:170 | trimming takes off exactly the white space around |
| SqlSplitter.SkipQuoted | was/app/rebalance.py:53-62 | from an opening quote the scan stops just behind the closing one, two quotes in a row counting as one character, or at the end |
| SqlSplitter.Statements | was/app/rebalance.py:35-75 | the scanning loop returns exactly the kept pieces between the semicolons of the lexical reading |
| SqlReading.LexReads | was/app/rebalance.py:35-75 | the scanner's elements are a reading of the script by the lexical forms |
| SqlReading.ReadingUnique | was/app/rebalance.py:35-75 | every script has only that reading |
| SqlStatements.Lossless | was/app/rebalance.py:35-75 | joining the raw pieces with ';' gives back the script |
| SqlStatements.CutsExactly | was/app/rebalance.py:35-75 | a position is a cut exactly when it is a semicolon outside comments, quoted strings and dollar quotes |
| SqlStatements.KeptIff | was/app/rebalance.py:74-75 | a piece is kept exactly when its reading has more than comments and white space |
| SqlStatements.DiscardsExactly | was/app/rebalance.py:74-75 | ... said of each piece of a script and the elements between its semicolons |
| SqlStatements.PiecesClosed | was/app/rebalance.py:35-75 | no piece of any script holds a separator, and all but the last end outside every comment and string |
| SqlStatements.SplitOfJoin | was/app/rebalance.py:35-75 | splitting the ';'-join of any texts gives back those texts if and only if the last holds no separator and the others are closed |
| SqlStatements.RoundTrip | was/app/rebalance.py:35-75 | any trimmed, non-blank statements come back from their ';'-join under exactly that condition, and with a final semicolon if and only if all are closed |
| SqlLimits.FormlessCuts | was/app/rebalance.py:47-72 | up to the first form it knows, the splitter cuts at every semicolon of any text |
| SqlLimits.UnknownForms | was/app/rebalance.py:63-72 | a block comment, a quoted identifier and a dollar quote with a digit in its tag that are cut inside |
| SqlLimits.HiddenCuts | was/app/rebalance.py:53-62 | from where the splitter sees a string begin it makes no cut while quotes occur only doubled, and none at all if the text ends so |
| SqlLimits.LoneApostrophe | was/app/rebalance.py:53-62 | ... so an apostrophe outside the known forms hides every separator up to the next one, or the end |
| SqlLimits.EscapeStringCut | was/app/rebalance.py:53-62 | an escape string with an escaped quote is cut at exactly the semicolons between that quote and its end, when no known form begins there |
| SqlLimits.EscapeStringOpen | was/app/rebalance.py:53-62 | an escape string that ends in an escaped quote hides every separator up to the next apostrophe, or the end |
| SqlLimits.MissedSeparator | was/app/rebalance.py:53-62 | a semicolon in a block comment that is not cut, and a true separator behind one that is missed |
| LogEntries.InsertAllKeys | was/app/write_buffer.py:155-167 | inserting with ON CONFLICT DO NOTHING adds exactly the batch's keys and keeps one row per key |
| LogEntries.InsertAllRows | was/app/write_buffer.py:155-167 | ... leaves the rows that were there as they are, adds rows of the batch only, and of those with a new key the first |
| LogEntries.StorableExactly | was/app/routers/ingest.py:129-135 | rejected are unknown actions and failed directory changes without a directory of their own |
| LogEntries.InsertAgain | was/app/migrations.py:114 | rows whose keys are all present change nothing |
| LogEntries.ResendIsIdempotent | was/app/routers/ingest.py:20-35 | inserting a batch twice is inserting it once |
| Tailer.FileTailer.constructor | ftp-daemon/soltrace_daemon.py:429-441 | reading starts at the saved position, else at the end of the log |
| Tailer.FileTailer.Poll | ftp-daemon/soltrace_daemon.py:443-478 | returns the entries of at most 5000 complete lines behind the position, restarts at 0 after a rotation or truncation, and moves only the pending position |
| Tailer.FileTailer.Commit | ftp-daemon/soltrace_daemon.py:480-504 | moves to the pending position, if any, and saves it |
| Tailer.FileTailer.Rollback | ftp-daemon/soltrace_daemon.py:487-489 | forgets the pending position only |
| Tailer.ReadChunk | ftp-daemon/soltrace_daemon.py:460-476 | the reading loop consumes exactly the complete lines up to the limit, once and in order |
| Tailer.ParseConcat | ftp-daemon/soltrace_daemon.py:443-478 | a text cut just after a newline parses piecewise |
| Tailer.ParseCons | ftp-daemon/soltrace_daemon.py:460-476 | the first complete line contributes its own entry, if any, and leaves the rest to itself; text without a newline contributes nothing |
| Tailer.ChunkingRefines | ftp-daemon/soltrace_daemon.py:443-496 | for any schedule of appends and committed polls, the results are the complete lines of the consumed region once and in order, and the position is the start or just after a newline |
| Tailer.PollsNeeded | ftp-daemon/soltrace_daemon.py:443-478 | a backlog of L complete lines takes ceil(L / 5000) polls |
| WasClient.Post | ftp-daemon/soltrace_daemon.py:539-556 | attempts one request until the first reply that is no failure, or as often as allowed and once at least; the last reply is the answer |
| WasClient.AttemptsUnique | ftp-daemon/soltrace_daemon.py:539-556 | the replies decide how many attempts a request takes |
| WasClient.SendLogs | ftp-daemon/soltrace_daemon.py:558-571 | posts the entries in order, each once, in requests of the size asked for; each request takes the replies behind those of the one before; all but the last were accepted, the last decides the answer; success means all were posted if and only if the size is positive or there are none |
| DiskBuffer.DiskBuffer.Write | ftp-daemon/soltrace_daemon.py:602-614 | the file holds the newest entries of what it held and the new ones |
| DiskBuffer.DiskBuffer.ReadAndClear | ftp-daemon/soltrace_daemon.py:616-622 | returns everything and leaves nothing |
| DiskBuffer.DiskBuffer.Exists | ftp-daemon/soltrace_daemon.py:624-625 | true exactly when the file holds entries |
| DiskBuffer.WritesKeepNewest | ftp-daemon/soltrace_daemon.py:602-622 | after any sequence of writes the file holds exactly the newest entries of their concatenation |
| DiskBuffer.NewestAbsorbs | ftp-daemon/soltrace_daemon.py:602-614 | cutting early loses nothing a single cut at the end would keep |
| WriteBuffer.Batch.Defer | was/app/write_buffer.py:51-59 | counts the attempt; the 100th ends it; else the next time is the doubling wait, at its limit, from now |
| WriteBuffer.WriteBuffer.Add | was/app/write_buffer.py:107-116 | accepts the rows; below the queue limit they only join the queue, else the whole queue is written or waits as one new batch; while all rows fit nothing is discarded; every accepted row stays accounted for |
| WriteBuffer.WriteBuffer.Saturated | was/app/write_buffer.py:118-129 | exactly when the waiting rows reach the limit |
| WriteBuffer.WriteBuffer.Write | was/app/write_buffer.py:146-153 | if the attempt succeeds the rows are inserted and nothing else moves, else they become the newest waiting batch; keys in the table stay |
| WriteBuffer.WriteBuffer.Insert | was/app/write_buffer.py:155-167 | one attempt; it succeeds exactly when the database says so, and then every key of the batch is in the table; a failed one may have committed or not; one row per key either way |
| WriteBuffer.WriteBuffer.TakeDue | was/app/write_buffer.py:169-179 | takes exactly the batches whose time has come, or all when forced, in order, and leaves the others in order with their row count |
| WriteBuffer.WriteBuffer.Requeue | was/app/write_buffer.py:187-203 | an exhausted batch is discarded; else it is appended, and the oldest batches are cut off, no more than needed to fit the limit and never the newest |
| WriteBuffer.WriteBuffer.Drop | was/app/write_buffer.py:205-212 | the dropped counter grows by exactly the discarded rows |
| WriteBuffer.WriteBuffer.Retry | was/app/write_buffer.py:180-185 | a due batch whose attempt succeeds is inserted and nothing else moves, else it is requeued once |
| WriteBuffer.WriteBuffer.RetryDue | was/app/write_buffer.py:169-185 | the batches whose time has come, or all when forced, are tried once each and in order; each is in the table and no longer waits, or has one attempt more and a later time, or is given up at the 100th; the others are left alone; overflow may discard any that waits; nothing is discarded while all rows fit and no batch is on its last attempt |
| WriteBuffer.WriteBuffer.Flush | was/app/write_buffer.py:137-144 | a tick does that for what is due, and then writes the whole queue, or keeps it as the newest waiting batch |
| WriteBuffer.WriteBuffer.Stop | was/app/write_buffer.py:94-105 | at the end everything is tried once more whatever its time; with a working database nothing is left |
| WriteBuffer.DueMeans | was/app/write_buffer.py:174-178 | due are exactly the batches whose time has come, or all when forced; both parts keep their order |
| WriteBufferModel.StepConserves | was/app/write_buffer.py:107-213 | every step of any interleaving keeps: accepted = inserted + queue + retry + in flight + discarded, as multisets, and the counters |
| WriteBufferSafety.Reachable | was/app/write_buffer.py:107-213 | from any table with one row per key, in every reachable state that equation holds, retry rows are counted exactly and within the limit or in one batch, waiting batches have fewer than 100 attempts, at quiescence the dropped counter is exact, and the table has one row per key, with every key it began with or had inserted, and no other row not accepted |
| WriteBufferSafety.HandOver | was/app/write_buffer.py:107-144 | adding hands over the whole queue exactly when it has reached its limit, a tick whatever there is; an insert that took no effect leaves the table alone |
| WriteBufferSafety.DiscardsOnly | was/app/write_buffer.py:187-212 | rows are discarded only when a failed batch comes back, for its 100th attempt or because the waiting rows exceed the limit |
| WriteBufferProgress.Recovers | was/app/write_buffer.py:137-203 | after any run with no write in progress, a minute of a working database brings every row accepted and not discarded into the table |
| WriteBufferSafety.HiddenCommit | was/app/write_buffer.py:155-167 | an insert that committed but was reported failed adds no row on any later retry |
| WriteBufferSafety.WaitSumIs | was/app/write_buffer.py:51-59 | the sum of the first n waits, in closed form |
| WriteBufferSafety.GivenUpLate | was/app/write_buffer.py:51-59 | without forced retries a batch is given up no sooner than 5702 s after its first failure |
| Ingest.IngestLogs | was/app/routers/ingest.py:106-157 | 401, 403 and 503 take nothing in; else exactly the storable entries are accepted and the counts returned; with requests of at most 500 and no interleaving the pending rows stay within the limit + 499 |
| Ingest.Sift | was/app/routers/ingest.py:124-152 | the validating loop keeps exactly the storable entries in order and counts the others |
| Ingest.Serve | was/app/routers/ingest.py:116-122 | over any run of requests of at most 500 entries and flush ticks that do not interleave, the pending rows never exceed the limit + 499 |
| DeliverySafety.StepKeepsInv | ftp-daemon/soltrace_daemon.py:989-1084 | every step of daemon, network, endpoint and write buffer keeps the invariant |
| DeliverySafety.Conservation | ftp-daemon/soltrace_daemon.py:989-1084 | from any log table with one row per key, in every reachable state each entry behind a committed position is in the table, the write buffer, the disk buffer or a running resend, rejected, or a counted drop; one row per key however often a batch is delivered |
| DeliverySafety.HandleMeans | was/app/routers/ingest.py:106-157 | a request to a disabled device or a full write buffer takes nothing in; else the storable entries are accepted and the others rejected |
| DeliverySafety.SenderMeans | ftp-daemon/soltrace_daemon.py:989-1084 | a failed resend leaves the tailers alone, a round without entries commits nothing, and a commit moves to where the poll ended |
| DeliverySafety.RequestsAccepted | ftp-daemon/soltrace_daemon.py:558-571 | over every run, each request has 1 to 500 entries |
| DeliverySafety.DropsOnlyOverflow | ftp-daemon/soltrace_daemon.py:602-614 | a drop of the daemon happens after a failed send only, and leaves the newest entries that fit |
| DeliveryProgress.RoundDelivers | ftp-daemon/soltrace_daemon.py:989-1084 | from every state between two rounds in which the write buffer has room, a run of one round empties the disk buffer and takes up to 5000 new lines of each log to the server, drops nothing, and saves the positions behind them; unless no new line had an entry |
| DeliveryProgress.RunDelivers | ftp-daemon/soltrace_daemon.py:989-1084 | ... after every run |
| DeliverySafety.CrashInResend | ftp-daemon/soltrace_daemon.py:996-1031 | a crash during a buffer resend keeps every passed entry exactly when those not yet acknowledged were received, or are on disk or counted as dropped; once all are acknowledged it loses nothing |
| DeliverySafety.LostInResend | ftp-daemon/soltrace_daemon.py:998-1001 | a run in which such a crash loses an entry |
| Episodes.Monitor.RecordAlert | was/app/service_monitor.py:339-360 | a bucket is recorded once; an alert not to be sent is marked as sent |
| Episodes.Monitor.TrackEpisode | was/app/service_monitor.py:393-434 | opens, continues or reopens the episode row, and decides on sending from its state before |
| Episodes.Monitor.ResolveEpisodes | was/app/service_monitor.py:436-447 | closes exactly the open episodes last seen before the cutoff |
| Episodes.Monitor.Notify | was/app/service_monitor.py:621-651 | without channels the picked alerts are only marked; after a failed dispatch nothing changes; after a sent one the open episodes concerned are marked too |
| Episodes.Monitor.MarkNotified | was/app/service_monitor.py:653-666 | marks the alerts, and on request every open episode of their device and metric |
| Episodes.Monitor.NotifyRecovery | was/app/service_monitor.py:668-701 | the same for closed, alerted episodes not yet announced as over |
| Episodes.Monitor.MarkRecoveryNotified | was/app/service_monitor.py:703-709 | sets the recovery flag on the picked rows and nothing else in them, and leaves the others as they are |
| EpisodeRecovery.StepInv | was/app/service_monitor.py:339-709 | every recording, closing, sending and announcing step keeps the recovery invariant |
| EpisodeRecovery.RecoveryDiscipline | was/app/service_monitor.py:410-432 | over every run with failing dispatch, muting and channel changes: no recovery before an alert of its device and metric, and between two recoveries an alert and a new opening |
| EpisodeRecovery.OneRecoveryPerOpening | was/app/service_monitor.py:668-709 | over every run, no opening of a device and metric is announced as over twice |
| EpisodeOwnAlerts.OwnAlertsExactly | was/app/service_monitor.py:647-651 | a sent round keeps "marked means an alert of this opening was sent" if and only if every open unmarked episode it concerns has an alert of its own opening in it |
| EpisodeOwnAlerts.RoundSafeExactly | was/app/service_monitor.py:647-665 | after a sent round every continuation without another one announces the end only of openings alerted before, if and only if every open unmarked episode the round touches has an alert of its own opening in it |
| EpisodeOwnAlerts.OwnRecoveriesExactly | was/app/service_monitor.py:621-701 | ... said of whole runs: that holds in every state of a run if and only if each of its sent rounds passes that check |
| EpisodeOwnAlerts.OwnAlertBeforeRecovery | was/app/service_monitor.py:621-701 | so in a run whose sent rounds all pass the check, every recovery follows an alert of its opening |
| EpisodeOwnAlerts.OrphanRecovery | was/app/service_monitor.py:656-665 | a run in which an opening never alerted is announced as over |
| EpisodeTimes.TimesTell | was/app/service_monitor.py:410-417 | in every reachable state an alert is of the current opening exactly when its created_at is not before the episode's started_at |
| EpisodeTimes.FreshRoundsExactly | was/app/service_monitor.py:621-701 | the condition of `OwnRecoveriesExactly` in these two columns, over every run |
| EpisodeTimes.AnyRunInTime | was/app/service_monitor.py:410-417 | every run of the tables can be given such times |
| EpisodeCounts.QueuedExactly | was/app/service_monitor.py:372-391 | an alert of an opening is queued exactly when it completes the streak of its own setting, or is the first critical one after that |
| EpisodeCounts.SendsExactly | was/app/service_monitor.py:372-391 | for any settings, the number of queued alerts is the number of completed streaks, and one more if some alert escalates |
| EpisodeCounts.SendsClosedForm | was/app/service_monitor.py:372-391 | with one setting m in the opening that is [n >= m] + [critical only after the m-th] |
| EpisodeCounts.SendsBounded | was/app/service_monitor.py:368-391 | whatever the settings, at most their largest value and one more are queued |
| EpisodeCounts.OnceExactly | was/app/service_monitor.py:372-391 | at every moment of an opening one alert was queued for the streak if it is complete by the setting then in force, and none otherwise, if and only if no change of the setting crosses the count |
| EpisodeCounts.StreakOnce | was/app/service_monitor.py:372-434 | in every state of every run, the queued alerts of such an opening are that one and one more if it escalated |
| EpisodeCounts.RaisedRun | was/app/service_monitor.py:368-391 | for every n a run with settings rising to n in which one opening queues and sends n alerts, none critical |
| EpisodeCounts.LoweredRun | was/app/service_monitor.py:368-391 | a run with an opening of any length that queues and sends none, though the setting is 1 from its second bucket on |
| EpisodeCounts.EpisodesCount | was/app/service_monitor.py:393-434 | in every state of every run, whatever the settings: an episode row counts the distinct buckets of its opening, its last bucket is the latest of this and the openings before, has their worst severity, and its first bucket is the one recorded first and not after the last; its queued alerts are as many as the exact and the closed form say |
| EpisodeCounts.AnnouncedWereQueued | was/app/service_monitor.py:339-366 | over every run, however often sending fails, no more alerts of an opening go out than were queued |
| EpisodeCounts.TwoAlertsAtMost | was/app/service_monitor.py:339-434 | over every run, an opening in which no change of the setting crosses the count is announced at most twice, whatever the settings of the others |
| EpisodeCounts.TwoWithOneSetting | was/app/service_monitor.py:339-434 | in particular one all of whose own alerts were recorded with one setting |
| EpisodeCounts.FirstBucketExactly | was/app/service_monitor.py:410-424 | the first bucket of a row is the earliest of its opening throughout a run if and only if the run never records a bucket before it while the episode is open |
| EpisodeRanges.JudgedLater | was/app/service_monitor.py:293-301 | a bucket judged after an opening ended, and not recorded before, is later than its last |
| EpisodeRanges.LateBucket | was/app/service_monitor.py:299-301 | for every longer interval, a run in which a late bucket reopens an episode behind its end |
| EpisodeRanges.LateFirstBucket | was/app/service_monitor.py:299-301 | for every interval, a run within the judging window in which the first bucket is not the earliest |
| EpisodeRanges.RangesIncreaseExactly | was/app/service_monitor.py:293-447 | openings cover increasing buckets in every run if and only if the interval is at most two buckets |
| SessionStore.Store.Remember | ftp-daemon/soltrace_daemon.py:267-272 | assigns in place or at the end, then evicts the oldest half beyond 20000 |
| SessionStore.Store.Pop | ftp-daemon/soltrace_daemon.py:334-357 | returns and removes the pid's value, if any |
| SessionStore.Store.FlushStale | ftp-daemon/soltrace_daemon.py:275-285 | removes exactly the entries older than 300 s, keeping the order of the rest |
| SessionStore.PutValid | ftp-daemon/soltrace_daemon.py:267-272 | the dictionary stays within 20000 entries, and the pid just remembered is never evicted |
| SessionStore.PutExactly | ftp-daemon/soltrace_daemon.py:267-272 | up to 20000 entries nothing is evicted; beyond that exactly the 10000 inserted last stay |
| SessionHistory.HoldsLatest | ftp-daemon/soltrace_daemon.py:259-285 | after any operations every value found is the latest one remembered and not forgotten since |
| SessionHistory.Survives | ftp-daemon/soltrace_daemon.py:259-285 | a pid's latest value is still found while it is not forgotten or replaced, no flush came after 300 s, and fewer than 10000 values were remembered since a moment before it at which the pid had none |
| SessionHistory.FlushedFresh | ftp-daemon/soltrace_daemon.py:275-285 | a flush removes exactly the values older than 300 s |
| ExtendedLog.Parser.Parse | ftp-daemon/soltrace_daemon.py:325-360 | the entry and both dictionaries after a USER, PASS, QUIT, RNFR or RNTO line |
| ExtendedLog.Parser.FlushStaleSessions | ftp-daemon/soltrace_daemon.py:275-285 | both dictionaries lose exactly their stale sessions |
| ExtendedLog.RunSplits | ftp-daemon/soltrace_daemon.py:325-360 | over any line stream each dictionary sees its own operations only |
| ExtendedLog.FindsOwn | ftp-daemon/soltrace_daemon.py:325-360 | what is found for a pid is nothing or its own last non-empty USER since its last PASS or QUIT, and its own last RNFR since its last RNTO 250 |
| ExtendedLog.OutputRefines | ftp-daemon/soltrace_daemon.py:325-360 | the entry is the one the unbounded history gives, or lacks only what was evicted; a filled-in account or rename source is never another session's |
| ExtendedLog.FailedLoginNamed | ftp-daemon/soltrace_daemon.py:325-347 | within those limits a failed login without a name carries the account its session sent last |
| ExtendedLog.RenameNamed | ftp-daemon/soltrace_daemon.py:349-357 | within the same limits a rename names the path its session sent last and the new one |
| ExtendedLog.EntryMeans | ftp-daemon/soltrace_daemon.py:325-357 | PASS 230 is a login and QUIT a logout; a failed PASS keeps its own name, and yields nothing when there is none and the session has sent no account; RNTO 250 without a pending RNFR names its own path; the other lines yield nothing |
| ExtendedLog.SessionMeans | ftp-daemon/soltrace_daemon.py:325-357 | a session's account and path, event by event: sent last, and not ended since by its PASS or QUIT, or its RNTO 250 |
| ExtendedLog.ReusedPid | ftp-daemon/soltrace_daemon.py:336-354 | so a pid used again finds nothing of the session before |
| Calendar.ShiftIndex | was/app/main.py:44-48 | the year and month computed for an offset are the month that many away |
| Calendar.RangesTile | was/app/main.py:43-51 | the ranges of a run of offsets are consecutive, disjoint, and together exactly those months |
| Calendar.PaddedOrder | was/app/main.py:49 | zero-padded numbers are ordered as the numbers are |
| Calendar.NameOrder | was/app/disk_guard.py:106-117 | for years 0 to 9999 the order of partition names is the order of months |
| Partitions.RetentionMonths | was/app/retention.py:21-33 | whatever is stored, 1 to 120 months are kept |
| Partitions.RetentionReadBack | was/app/retention.py:21-41 | every setting that is accepted is read back, anything else is read as 36 |
| Partitions.EnsurePartitions | was/app/main.py:32-67 | nothing on an unpartitioned table; else adds exactly the empty partitions of the months of the window, from the retention setting or its default, that have neither a table of that name nor default rows, and changes nothing else |
| Partitions.WindowCovered | was/app/main.py:32-67 | a month of the window has its partition afterwards if and only if it had one or nothing stood in the way; no partition is created over default rows; no row moves |
| Rebalance.MovedKeys | scripts/rebalance_default_partition.sql:109-124 | a committed chunk keeps the set of log entries, duplicates counted once |
| Rebalance.MovedRows | scripts/rebalance_default_partition.sql:109-124 | a chunk adds to its month table exactly the rows whose entry and id the table does not have, takes the chunk from the default partition, and leaves all else |
| Rebalance.MovedUnique | scripts/rebalance_default_partition.sql:109-124 | if no month table has an entry or an id twice, none has afterwards |
| Rebalance.MovedFinal | scripts/rebalance_default_partition.sql:109-124 | without conflicts a chunk does not change where the run ends, in whichever month it is resumed |
| Rebalance.MoveMonth | scripts/rebalance_default_partition.sql:85-124 | the chunk loop terminates, keeps all that, takes default rows of its month only, and without conflicts leaves none |
| Rebalance.Run | scripts/rebalance_default_partition.sql:45-135 | what a run leaves at any commit: the same entries, the rows and the indexes of the month tables, and without conflicts the same end; a completed run is at that end with nothing left to do; current rows stay when no loose table of their month stands beside them, and when it completes only then; it is cut off only when it has made all its commits and would need more; a failed attach means conflicts, and duplicates were removed |
| Rebalance.CutOffAndRerun | scripts/rebalance_default_partition.sql:17-24 | after any runs cut off at any commits, in the same month or earlier ones, a run ends where a single uninterrupted one would have; rows and indexes of the month tables are kept |
| Rebalance.FinalMeans | scripts/rebalance_default_partition.sql:45-135 | at that end the rows are the same, past default rows sit in attached tables of their month, and nothing is left to do |
| Rebalance.RunUntilDone | scripts/rebalance_default_partition.sql:17-24 | run again and again the script ends, conflicts or not, keeps every entry and the indexes of the month tables, leaves nothing to do, and has left the current month alone under exactly the same condition |
| Rebalance.CurrentMonthKept | scripts/rebalance_default_partition.sql:45-62 | between the start and any commit of a run: rows of the current and later months stay if no unattached table of such a month stands beside rows of its month, and once nothing is left to do only if |
| Rebalance.CurrentMonthTaken | scripts/rebalance_default_partition.sql:45-62 | one row and an empty table of the current month for which a run takes the row |
| DiskGuard.Threshold | was/app/disk_guard.py:67-73 | whatever is stored, the threshold is 50 to 99 percent |
| DiskGuard.ThresholdReadBack | was/app/disk_guard.py:67-80 | every threshold that is accepted is read back, anything else is read as 90 |
| DiskGuard.PurgeablePartitions | was/app/disk_guard.py:104-120 | the past partitions with rows, oldest first, though sorted and compared by name |
| DiskGuard.Enforce | was/app/disk_guard.py:123-155 | drops if and only if enabled, readable, over the threshold, and two past partitions hold rows; then the oldest of them and nothing else |
| DiskGuard.NeverTheLast | was/app/disk_guard.py:123-155 | over any run of rounds, with logs coming in between, the last past partition with rows is never dropped |
| DiskGuard.OldestFirst | was/app/disk_guard.py:123-155 | without logs coming in, all that is dropped is past and older than every past partition with rows that is left |

## Left out

- Floating point: rates, speeds and times are reals, so rounding is not modelled.
- Text encoding and universal newlines: lines end in "\n" only, and file positions count characters.
- The line parsers: regular expressions and date parsing. The delivery path takes any function from lines to
  entries, which is exact for the transfer log; the session maps are modelled on lines split into fields, with
  the other commands (MKD, RMD, CWD, RETR, STOR) yielding no entry.
- MD5: the dedup hash is any function of the entry.
- Rotation in the delivery machine (the branch itself is in `Tailer.FileTailer.Poll`), removal of a device
  (401 and 404 discard what is in hand by design), the login filter, the heartbeat thread's shutdown, and a
  daemon crash before its first state file was written (it then restarts at the end of the log).
- The sender loop is a machine with one step per poll, request, reply, buffer write and commit, so that crashes
  and late replies can fall between any two; its backoff, sleeping and status fields are not modelled.
- DeliveryProgress.RoundDelivers: that such a run exists, not that every schedule takes it; a round without
  entries does not commit the tailers, so it is not said to move their positions.
- WriteBufferProgress.Recovers: the same, and it starts when no write is in progress.
- Unlike the classes, the interleaving results of the write buffer are about values: batches are copied, not
  shared, in `WriteBufferModel`.
- The job state of the rebalance button, and the default partition's creation (it is taken to exist).
- Crashes between dispatching alerts and marking them: sending and marking is one step, so a message sent
  twice after a crash is outside the recovery and counting results.
- Several monitor workers: `LIMIT` and `SKIP LOCKED` appear as any choice of at most 100 rows; the range
  result is for one worker and a clock that never runs back.
- Deleting devices with their alerts and episodes.
- EpisodeCounts.OnceExactly: the setting an opening begins with counts as crossed when it is below 1, which the settings page does not allow.
- EpisodeTimes.TimesTell: one worker, a clock that does not run back, and a judging round later than the closing before it; rows written by hand are not modelled.
- RobustStats.PercentileObserved: p is not negative and minimum samples are at least 1, as the settings page requires.
- Rebalance.Run: the month of a row is taken in one time zone, ids come from one sequence, and no one else writes to the months being moved.
- DiskGuard.Enforce: partitions named with a month outside 01..12 are not modelled; the disk's size and use are inputs.
- Ingest.Serve: the bound on pending rows is for handlers that do not interleave; the write buffer's own results hold for every interleaving.
- SqlStatements.CutsExactly: the lexical forms are those the scanner knows, see above.
- The rollup and probe SQL, dashboards, exports, sign-in, API keys, notification channels, self-update, install and backup scripts.
