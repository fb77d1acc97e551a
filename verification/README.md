# CraftingTable: verified models of its local protocols

CraftingTable's daemon shares one machine with the agents it supervises. Much of what keeps it honest is
small, stateful code over the file system, over pipes and over text: locks taken by racing processes, an
answer relayed through files, output framed and journaled under budgets, two replays compared, a tool path
trusted. This project models that code in Dafny and proves what the code's own comments promise of it.

`dafny verify dfyconfig.toml` checks everything.

## The parts

| file | models |
|---|---|
| InstanceLock.dfy | one directory of published sockets: any number of starters that look, bind, listen, rename, look again and withdraw, with crashes anywhere |
| DaemonStart.dfy, DaemonProgress.dfy | daemons, each taking the locks of its data directory and of its agents' root around its runtime; and that starts open and stops give back |
| CiLock.dfy | the per-workflow CI lock: `mkdir`, the owner file, stale reclaim under a guard directory, and time |
| CheckSpool.dfy, CheckLimits.dfy | the launcher and the daemon of a spooled check, one file operation at a time, and the time limits of both |
| OutputLines.dfy, OutputWatch.dfy | how output is cut into lines and cleaned, and what a check's watch keeps of two streams cut anywhere: the tail, the unfinished lines, the tests that still run, and the last lines for a diagnostic |
| AsyncQueue.dfy, LineFramer.dfy, Supervisor.dfy, Session.dfy | the supervised process: its weighted queue, its line framer, its life from exit and close to the drained end, and what its events alone say of all that |
| Utf8.dfy, StderrJournal.dfy | UTF-8 and its code points, cuts that never split a character, and the stderr journal under its budget |
| KeyOrder.dfy, CanonicalJson.dfy, JsonReader.dfy, ReplayCheck.dfy, SchedulerReplay.dfy, SchedulerCheck.dfy | the replay gate: canonical JSON and a reader after RFC 8259, keyed comparison, the multiset of attention items, and the scheduler check kind by kind |
| Zip.dfy | the writer of stored-entry ZIP archives, and a reader after PKWARE's APPNOTE.TXT |
| ToolTrust.dfy, TrustedFiles.dfy, PythonInstall.dfy, InstalledFiles.dfy | the rule for a trusted path, what it means in a file system that other accounts act in, the walk over a Python install, and what that guarantees |
| Basics.dfy | optional values, bytes, white space, and the places of chosen elements |

The protocols are transition systems: an `Action` for each thing that can happen, `Enabled` and `Apply` for
its guard and effect, `Exec` for a whole run, and an invariant kept by every action. Code that updates
objects or buffers is a class or a method over arrays, proved against a function of the values before and
after, and the properties are proved of that function.

## What the proofs found

- The CI lock (`CiLock.ExcludesExactlyWhen`) excludes exactly when the time a live process may take from
  `mkdir` to naming and the time it may take for the guarded section fit in the ten seconds *together*, and
  a process that released its lock outlives the guarded section. Each ten seconds by itself is not enough: a
  reclaimer reads the owner file, and only later the age or the process. `CiLock.SlowNamingBreaks`,
  `CiLock.EarlyExitBreaks` and `CiLock.GuardExpiryBreaks` give the runs in which two processes hold the lock.
- `truncateUtf8` keeps its limit except when it truncates with a limit of 2 or 3 bytes: a cut marker that
  begins inside its ellipsis decodes to a replacement character of three bytes
  (`Utf8.TruncateUtf8`).
- An overlong last line without a newline gives no item, not an overflow (`LineFramer.FrameChunks`).
- The comment on `canonicalJson` says that keys are sorted by code point; the code sorts them by UTF-16 code
  unit (`KeyOrder.UpTo`). `KeyOrder.OrdersAgreeExactly` says on which texts the two orders agree: those that do
  not first differ in a surrogate against a unit above all surrogates. U+10000 and U+E000 do
  (`KeyOrder.OrdersDiffer`).
- `schedulerRecords` numbers the items of one subject and code. When another item's code ends in that number
  sign and number, the keys collide (`SchedulerReplay.CodeWithNumberCollides`) and the replay differs even
  from itself (`SchedulerCheck.SomeReplayDiffersFromItself`); `SchedulerCheck.DiffersFromItselfExactly` says
  for which replays.
- The removal of a run's replies takes one file after another. When it takes the output before the exit code,
  a launcher that still polls ends with the code of a check whose output it has not relayed
  (`CheckSpool.RemovalLosesOutput`). It relays all of it exactly when no output was removed before it was
  relayed, or written after the removal (`CheckSpool.RelaysTheOutput`).
- The rule for a trusted path is stricter than what keeps a file safe. A file of root's in a shared directory
  is refused also where that directory is sticky, and where it is below a directory of root's that nobody else
  may search, although no account but root can then change what its path names
  (`TrustedFiles.StickyIsRefused`, `TrustedFiles.SealedIsRefused`). `TrustedFiles.StaysExactlyWhen` says which
  files stay, and `TrustedFiles.AcceptedExactlyWhenItStays` where the rule accepts exactly those.
- The watch keeps an end of the list of tests that still run: a test is watched exactly when never more than 63
  others have had a later notice since its own (`OutputWatching.WatchedExactly`). One that the bound drops does
  not come back when others finish, but only with its next notice (`OutputWatching.DroppedStaysOut`).
- The comment on the watch's `read` says that reading a line again when it grows changes nothing. It does so
  exactly when what the line says by then is so already of the tests watched: that there are none, that the test
  is not among them, or that this very notice came last (`OutputWatching.GrowingChangesNothingExactly`,
  `OutputWatching.EndingChangesNothingExactly`). A line read twice with nothing between is such a case
  (`OutputWatching.ReadAgain`). The start of a run that is read again after the other stream's notice is not
  (`OutputWatching.CutForgetsNotice`), nor, on one stream alone, a line that looks like the start of a run until
  it is whole (`OutputWatching.GrowthForgetsNotice`): each forgets a test. So the tail and the unfinished lines do
  not depend on how the output was cut, but the tests watched may.

## Model

| member | source | states |
|---|---|---|
| InstanceLock.AtMostOneHolder | apps/server/src/instance-lock.ts:249-377 | in every run of any number of starters, releases and crashes, two attempts that hold one directory's lock are the same attempt |
| InstanceLock.LiveSocketStaysPublished | apps/server/src/instance-lock.ts:283-377 | whatever happens next, the published name of a live socket in place stays, even past a prober that asked its temporary name between bind and listen |
| InstanceLock.EndedLeavesNothing | apps/server/src/instance-lock.ts:272-353 | a start that was refused, withdrew, failed or released leaves neither its temporary nor its published name |
| InstanceLock.FirstLookRefuses | apps/server/src/instance-lock.ts:299-377 | a start that has yet to list the directory while another's socket is in place, and stays there, never gets past its first look: it never binds, and its name is never published |
| InstanceLock.HolderRefuses | apps/server/src/instance-lock.ts:249-377 | however a start that has such a holder to find runs on, its steps are bounded in advance, it can always take another until it is over, and it ends refused |
| InstanceLock.EndsExactly | apps/server/src/instance-lock.ts:299-353 | a start is refused exactly by a published socket that answers its first look, and withdraws exactly for one that answers its second or when its temporary name is gone at the rename; a starting socket that listens stops nobody |
| InstanceLock.RetriesCounted | apps/server/src/instance-lock.ts:249-264 | a withdrawn attempt that is retried has one after it that counts one more, and none of a start's attempts counts past five |
| InstanceLock.LoneStartHolds | apps/server/src/instance-lock.ts:249-377 | however a start that nobody contends with runs on, with crashed processes' leftovers in the directory, its steps are bounded in advance and it can always take another until it holds the lock; a fresh start in such a directory is one (`FreshIsAlone`) |
| InstanceLock.LoneStartClears | apps/server/src/instance-lock.ts:355-377 | a start that takes the lock on its own has removed every name that ended starts left |
| InstanceLock.ReachableInv | apps/server/src/instance-lock.ts:272-377 | the inductive invariant that relates publishing, snapshots and the progress of scans holds in every reachable state |
| InstanceLock.StepInv | apps/server/src/instance-lock.ts:283-377 | every single step of every attempt keeps that invariant |
| DaemonStart.RuntimeHoldsBothLocks | apps/server/src/daemon-start.ts:17-51 | from before a daemon's runtime opens until after it closes, it holds the abstract socket and the published socket file of its data directory and of its agents' root |
| DaemonStart.OneRuntimePerDirectory | apps/server/src/instance-lock.ts:100-178 | two daemons whose runtimes are open share neither a data directory nor an agents' root |
| DaemonStart.OverHoldsNothing | apps/server/src/daemon-start.ts:17-51 | a daemon that is over, stopped or failed at any point of its start, holds no lock and leaves no socket name |
| DaemonProgress.UnopposedStartOpens | apps/server/src/instance-lock.ts:100-178 | however a daemon that nobody lives to oppose starts, with any leftovers at its sockets, its steps are bounded in advance and it can always take another until its runtime is open |
| DaemonProgress.EndingsGiveBack | apps/server/src/daemon-start.ts:22-51 | a start that fails at any point, a signal, and a runtime that has closed all lead to giving the locks back; only a runtime that throws as it closes keeps them |
| DaemonProgress.LeavesInTime | apps/server/src/instance-lock.ts:129-137 | a daemon that gives its locks back is over after at most eleven steps of its own, whatever other daemons do meanwhile, and can always take the next |
| DaemonStart.StepInv | apps/server/src/instance-lock.ts:100-178 | every step of every daemon and of every lock attempt keeps the combined invariant |
| CiLock.ExcludesExactlyWhen | packages/agents/src/local-check.ts:532-623 | the workflow lock excludes, in every run without guard expiry, for exactly the timings under which naming and the guarded section fit in ten seconds together and a releaser outlives the guarded section |
| CiLock.ReclaimsOnlyTheDead | packages/agents/src/local-check.ts:550-569 | under those timings, a reclaimer that removes a lock removes one whose maker is dead |
| CiLock.LoneContenderHolds | packages/agents/src/local-check.ts:532-615 | a contender that nobody disturbs holds the lock after at most eighteen steps of its own, whatever dead processes left: a lock that one of them named, one older than ten seconds that none named, a guard older than ten seconds |
| CiLock.PassEnds | packages/agents/src/local-check.ts:550-623 | no pass of the waiting loop, no naming and no release takes a process more than eight steps, whatever others do meanwhile |
| CiLock.HolderIsNamed | packages/agents/src/local-check.ts:570-615 | while a process holds the lock, the directory is there and names it |
| CiLock.HoldsByNaming | packages/agents/src/local-check.ts:583-586 | a process comes to hold the lock only by writing its name into the file that it made |
| CiLock.ReleasedIsGone | packages/agents/src/local-check.ts:616-623 | under those timings, a lock that is there is that of a dead process or of one at work on it: a released lock is gone |
| CiLock.ReleaseFrees | packages/agents/src/local-check.ts:616-623 | the steps of a holder's release, taken without another's between, leave no lock |
| CiLock.GuardExpiryBreaks | packages/agents/src/local-check.ts:550-569 | whatever the timing, a run with an expired guard can end with two holders |
| CiLock.SlowNamingBreaks | packages/agents/src/local-check.ts:532-543 | when naming and the guarded section can take more than ten seconds together, two processes can hold the lock |
| CiLock.EarlyExitBreaks | packages/agents/src/local-check.ts:532-543 | when a releaser can exit within the guarded section, two processes can hold the lock |
| CheckLimits.CheckTimeLimitExactly | packages/agents/src/check-timeout.ts:24-36 | a check without minutes of its own may run for the run's limit, half an hour if there is none; one with minutes as long as both they and its step's deadline allow, and `stepLimited` says exactly when the deadline cut them |
| CheckLimits.SpoolLimitCovers | packages/agents/src/check-timeout.ts:24-50 | the launcher's limit is at least five minutes more than any check's own limit, for every manifest, declared check and step deadline |
| CheckLimits.SpoolLimitExactly | packages/agents/src/check-timeout.ts:44-50 | it is five minutes more than the longest of the manifest's and the declared limits, and no more |
| CheckSpool.CheckReply.Write | packages/agents/src/check-spool.ts:251-260 | what `writeSync` took of the text is appended to the exclusively created file, after a short write too; once the file could not be made or a write threw, nothing more is |
| CheckSpool.CheckReply.Start | packages/agents/src/check-spool.ts:265-271 | the start marker is made once, while the reply directory is there |
| CheckSpool.CheckReply.Finish | packages/agents/src/check-spool.ts:279-294 | the output is closed and the exit code is published whole, by a rename |
| CheckSpool.WrittenIsTheCalls | packages/agents/src/check-spool.ts:251-260 | in every run, what was written to the output is what the daemon's calls alone say: the texts, each as far as it was written, from the one that made the file to the first that failed |
| CheckSpool.RelaysTheOutput | packages/agents/src/check-spool.ts:96-128 | in every interleaving what was relayed is a prefix of what the daemon wrote, and a launcher that ended with an exit code ended with the daemon's; it relayed all of the output exactly when none was removed before it was relayed or written after the removal, and so in particular when the removal of the run's replies had not begun by its last step |
| CheckSpool.RelaysEachTurn | packages/agents/src/check-spool.ts:100-117 | what the daemon had written when a turn of the launcher's loop began is relayed before the turn gets past the exit file, and not only when the check is over |
| CheckSpool.ReportsInTime | packages/agents/src/check-spool.ts:116-128 | once the exit file is there and until the removal of the replies begins, a launcher still runs for two turns at most, and one whose turn began since ends in it with the daemon's code |
| CheckSpool.RemovalLosesOutput | packages/agents/src/check-spool.ts:96-128 | a run in which the removal takes the output before the exit code, and the launcher ends with the code and without the output |
| CheckSpool.ClaimedOnce | packages/agents/src/check-spool.ts:189-198 | of any number of passes, at most one claims the request |
| CheckSpool.HeldWhileSpoolStands | packages/agents/src/check-spool.ts:129-142 | the launcher reports its request as no longer held only when the removal of the spool has begun |
| CheckSpool.UnheldIsReported | packages/agents/src/check-spool.ts:129-142 | and a launcher that begins a turn when its request is in neither place reports so in that turn, unless its check starts or ends meanwhile |
| CheckSpool.LauncherEnds | packages/agents/src/check-spool.ts:116-161 | a launcher that is still waiting is within its limits and four turns of its loop, within ten seconds and two turns of an interruption, and within its time for the claim and two turns when nobody claims; and it can always take its next step |
| CheckSpool.AbandonsOnlyThen | packages/agents/src/check-spool.ts:129-159 | a launcher ends without the exit code of a started check only past the limit, in the very turn of its start, cancelled, or once the removal of the run's files has begun |
| CheckSpool.EndsOnlyThen | packages/agents/src/check-spool.ts:116-161 | each of a launcher's endings comes only then: with the daemon's code, past its time for the claim, once the removal of the spool began, past its day in the queue, more than ten seconds after an interruption, past the limit from the start of the check |
| CheckSpool.LeavesCancellation | packages/agents/src/check-spool.ts:85-95 | an interrupted launcher, and one that gives up, has left a cancellation while the spool stands |
| CheckSpool.OutlastsTheCheck | packages/agents/src/check-spool.ts:154-159 | a launcher that gives up on a started check for its time does so more than the check's own limit and five minutes after its start |
| CheckSpool.NeverThrows | packages/agents/src/check-spool.ts:100-128 | no read of the launcher fails before the removal of the reply directory begins, file by file |
| OutputWatching.InOrderOfNotice | packages/agents/src/check-timeout.ts:136-152 | without the bound, the tests watched are in the order of their last notices, and nothing has ended any of them since its notice |
| OutputWatching.EveryOutstanding | packages/agents/src/check-timeout.ts:136-152 | and every test with such a notice is watched |
| OutputWatching.KeepsTheLatest | packages/agents/src/check-timeout.ts:136-152 | at most 64 tests are kept, an end of that list; the whole list when there were never more |
| OutputWatching.WatchedExactly | packages/agents/src/check-timeout.ts:136-152 | a test with such a notice is watched exactly when at no time since that notice 64 others had later ones outstanding |
| OutputWatching.WatchesAllExactly | packages/agents/src/check-timeout.ts:136-152 | all of them are watched exactly when that is so of each |
| OutputWatching.DroppedStaysOut | packages/agents/src/check-timeout.ts:136-152 | a test that the bound dropped stays out until its next notice, whatever ends in between |
| OutputWatching.ReadingChangesNothingExactly | packages/agents/src/check-timeout.ts:135-152 | reading a line changes nothing exactly when it says nothing, or what it says is so already of the tests watched |
| OutputWatching.GrowingChangesNothingExactly | packages/agents/src/check-timeout.ts:104-152 | after any output on both streams, reading an unfinished line again as a chunk makes it longer changes nothing exactly when what it says by then is so already |
| OutputWatching.EndingChangesNothingExactly | packages/agents/src/check-timeout.ts:104-152 | the same of a chunk that ends the line |
| OutputWatching.ReadAgain | packages/agents/src/check-timeout.ts:135-152 | so a line that is read again, when no other was read between and it has not grown, changes nothing |
| OutputWatching.CutForgetsNotice | packages/agents/src/check-timeout.ts:104-110 | the same output on each stream, cut in two ways, leaves a test watched or not: the start of a run that is read again after the other stream's notice forgets it |
| OutputWatching.GrowthForgetsNotice | packages/agents/src/check-timeout.ts:104-110 | so does, on one stream alone, a line that is the start of a run as far as one chunk goes and nothing when it is whole |
| OutputWatching.FinishedAreRead | packages/agents/src/check-timeout.ts:104-110 | every line that a stream finishes, of at most 8,192 units, is read whole, however the two streams are cut into chunks and interleaved |
| OutputWatching.WatchOfTheOutput | packages/agents/src/check-timeout.ts:88-110 | after any pushes the tests watched are the bounded end of those outstanding by the lines read, and the tail and each unfinished line depend on the text alone and not on its cuts |
| OutputWatching.OutputWatch.Push | packages/agents/src/check-timeout.ts:104-110 | after any pushes the tail is the last 65,536 units of all the output, each stream's line the last 8,192 units after its own last line end, and the tests watched those of all the lines read |
| OutputWatching.OutputWatch.Read | packages/agents/src/check-timeout.ts:136-152 | one line changes the map, in its insertion order, as that specification says |
| OutputWatching.SaysExactly | packages/agents/src/check-timeout.ts:135-137 | the patterns see exactly the units of a line outside of colour codes, without the white space at either end |
| OutputLines.WithoutCodesExactly | packages/agents/src/check-timeout.ts:74-75 | a text is colour codes and the units that stay, none of which begins a code |
| OutputLines.LinesExactly | packages/agents/src/check-timeout.ts:111-116 | a text is its lines and what ends them, `\r\n` being one end, and no line has an end in it |
| OutputLines.ShownExactly | packages/agents/src/check-timeout.ts:113-118 | the lines that a tail shows are exactly those with something on them besides white space and codes, in order, without the white space at their ends |
| OutputWatching.LongestEnd | packages/agents/src/check-timeout.ts:113-133 | the longest end of some lines, each cut to 300 units and an ellipsis, of at most ten lines and of 2,000 units with three more for each |
| OutputWatching.OutputWatch.LastLines | packages/agents/src/check-timeout.ts:113-133 | that end of the non-blank lines, without colour codes and trailing white space, of the last 65,536 units of all the output |
| AsyncQueues.AsyncQueue.Push | packages/agents/src/process.ts:95-105 | a waiting consumer takes the item at once; otherwise it is buffered with its weight, unless the queue is closed |
| AsyncQueues.AsyncQueue.Next | packages/agents/src/process.ts:116-133 | the first buffered item is delivered and its weight given back, the drained callback is due exactly when the last one goes, and a closed empty queue ends |
| AsyncQueues.Conservation | packages/agents/src/process.ts:69-134 | over all calls, what was delivered followed by what is buffered is what was pushed before the close, and the weight is the sum of the buffered weights |
| AsyncQueues.NextAnswers | packages/agents/src/process.ts:116-133 | every call of the consumer is answered: by the first item, by the end of a closed queue, or by the push or close that comes next |
| LineFramer.FrameChunks | packages/agents/src/process.ts:466-520 | however the output is cut into chunks, the items are those of the whole: each line that fits, an overflow with the exact byte count for each that does not, and the rest if it fits |
| LineFramer.FramedExtends | packages/agents/src/process.ts:480-520 | the items of more output are those of the output before and those that the new chunk completes |
| LineFramer.FramedIsTheLines | packages/agents/src/process.ts:466-520 | any output is lines that newlines end and a rest without one, and there is one item for each line, in order: itself when its UTF-8 bytes are within the limit, and else their exact number |
| LineFramer.Framer.OnData | packages/agents/src/process.ts:480-520 | one chunk advances the framer from the state for the output before to the state for the output with it |
| LineFramer.Framer.Flush | packages/agents/src/process.ts:576-580 | at the end the unterminated rest is an item only if it is not empty and within the limit |
| Supervisor.SupervisedProcess.Data | packages/agents/src/process.ts:471-520 | a chunk of stdout queues the lines it completes, each with its bytes, and pauses the child when the queue is full |
| Supervisor.SupervisedProcess.SettleNow | packages/agents/src/process.ts:555-588 | settling waits, times out and terminates, or finishes, as the specification of one step says |
| Supervisor.ExitedOnceAndLast | packages/agents/src/process.ts:555-601 | in every order of events an `exited` item is the last, follows exit and close, is incomplete if it timed out, and is incomplete exactly when one `background-work-waiting` came before; its code is that of `SessionSends` |
| Supervisor.LinesAreTheOutput | packages/agents/src/process.ts:480-601 | the lines sent are those of the whole stdout, with the rest at the end |
| Supervisor.NoWorkAtTheEnd | packages/agents/src/process.ts:555-588 | the event that ends a session with a drain limit, or a terminated one, finds no work in the group |
| Supervisor.PausedOnlyWhileBuffered | packages/agents/src/process.ts:448-478 | the child's output is held back only while something is buffered |
| Supervisor.TakingResumes | packages/agents/src/process.ts:448-478 | a consumer that takes what is buffered resumes it |
| Supervisor.TerminationEscalates | packages/agents/src/process.ts:547-554 | a terminated session was sent TERM, and KILL is sent or armed until it finishes |
| Sessions.SessionIsTold | packages/agents/src/process.ts:537-601 | in every order of events, whether the session is over, waits, has timed out and has what deadline is what the events alone say, without the session's own state |
| Sessions.SessionSends | packages/agents/src/process.ts:471-601 | what is sent is told by the events: the lines of stdout before the first close, stderr as it came, one notice if it waited unasked, and an `exited` with the first close's code, incomplete and timed out as the events say |
| Sessions.SignalsSent | packages/agents/src/process.ts:547-568 | a session that is asked to end, or is past its deadline, was sent TERM, and the timer's firing sends KILL |
| Sessions.FullPauses | packages/agents/src/process.ts:471-478 | a chunk of stdout that completes a line, or one of stderr, pauses the child exactly when it leaves a thousand items or 16 MiB in the queue |
| Sessions.PausedUntilDrained | packages/agents/src/process.ts:451-456 | only the consumer's taking the last buffered item resumes it |
| Sessions.WeighsTheBytes | packages/agents/src/process.ts:471-524 | each buffered line and each text of stderr weighs its UTF-8 bytes |
| Utf8.EndIsLongest | packages/agents/src/stderr-journal.ts:69-76 | the end that `characterEnd` computes is that of the longest prefix within the limit that splits no character of a well-formed text |
| Utf8.BackOffIsLongest | packages/agents/src/stderr-journal.ts:69-76 | counting back over continuation bytes from the limit gives the longest prefix that splits no character |
| Utf8.CutsCleanly | packages/agents/src/stderr-journal.ts:69-76 | a cut before a byte that begins a character leaves two well-formed texts |
| Utf8.TruncateUtf8 | packages/agents/src/bounded.ts:14-23 | the text is unchanged if it fits, else the longest clean prefix with the marker; it is within the limit unless it is cut with a limit of 2 or 3 |
| Utf8.PointsRoundTrip | packages/agents/src/stderr-journal.ts:69-76 | a well-formed text is the encoding of its code points, by section 3 of RFC 3629 |
| Utf8.EncodedRoundTrip | packages/agents/src/stderr-journal.ts:69-76 | and any code points are those of their encoding, which is well-formed |
| StderrJournals.StderrJournal.Write | packages/agents/src/stderr-journal.ts:29-56 | one text is accepted as far as the budget goes; full batches, at most three bytes short of 8 KiB, leave at once, and the text that goes over takes what is pending with it as one batch, and a notice |
| StderrJournals.StderrJournal.Flush | packages/agents/src/stderr-journal.ts:62-67 | all that is pending leaves as one batch, journaled unless it is blank |
| StderrJournals.JournalOfTheText | packages/agents/src/stderr-journal.ts:21-67 | the batches and what is pending are the longest clean prefix of the whole input within the budget; each batch is at most 8 KiB, and one that was not flushed at most three bytes less |
| StderrJournals.EventsOfTheJournal | packages/agents/src/stderr-journal.ts:21-67 | every event is well-formed and of at most 8 KiB, and the events are the batches but for blank flushed ones |
| StderrJournals.BlankExactly | packages/agents/src/stderr-journal.ts:62-67 | what is taken as blank are the texts all of whose code points are white space to `trim` |
| StderrJournals.JournaledExactly | packages/agents/src/stderr-journal.ts:29-67 | the events are the batches, in order, each with its text, but for the flushed ones without any other character |
| KeyOrder.SortedUnique | apps/server/src/replay-check.ts:58-66 | two sorted lists with the same contents are the same list |
| KeyOrder.InOrderUnique | apps/server/src/replay-check.ts:58-66 | with distinct keys the sorted list depends on nothing but the contents |
| KeyOrder.OrdersAgreeExactly | apps/server/src/replay-check.ts:50-62 | the orders by code unit and by code point agree on two well-formed texts exactly when these do not first differ in a surrogate against a unit above all surrogates |
| KeyOrder.OrdersDiffer | apps/server/src/replay-check.ts:50-62 | two keys that the code puts in the other order than their code points |
| KeyOrder.SortedByPointsExactly | apps/server/src/replay-check.ts:50-62 | keys sorted by code unit are in the order of their code points exactly when no two of them differ so |
| CanonicalJson.EscapedUnique | apps/server/src/replay-check.ts:55-66 | a quoted string is read back one way: its units, and what follows the closing quote |
| CanonicalJson.CanonSeparable | apps/server/src/replay-check.ts:55-66 | a printed value delimits itself: where it ends is known from what it begins |
| CanonicalJson.SameTextExactlyWhenSame | apps/server/src/replay-check.ts:50-66 | two values have the same canonical text exactly when they are equal but for the order of object members, at any depth |
| JsonReader.ParseGivesBack | apps/server/src/replay-check.ts:50-66 | a reader after RFC 8259 takes every canonical text and gives back the value, the members of its objects in the order of their keys |
| JsonReader.EscapeIsShortest | apps/server/src/replay-check.ts:55-66 | of all texts that read as a unit of a string the one printed is the shortest, with small hexadecimal digits; only a surrogate by itself is always given by digits |
| JsonReader.NoSpaceBetween | apps/server/src/replay-check.ts:55-66 | a canonical text is exactly as long as its parts with their brackets, commas and colons |
| ReplayCheck.RepeatedKeys | apps/server/src/replay-check.ts:43-48 | the two sets of the loop give the repeated keys in the order in which they come again |
| ReplayCheck.RepeatedExactly | apps/server/src/replay-check.ts:43-48 | a key is reported exactly when more than one record has it, and once |
| ReplayCheck.NoDifferenceExactlyWhenSame | apps/server/src/replay-check.ts:39-91 | a check finds no difference exactly when neither side has a key twice and the two sides, as objects, are equal but for the order of members |
| ReplayCheck.ReportedExactly | apps/server/src/replay-check.ts:68-88 | a change is listed exactly for each record that the golden has not, as new, and for each whose golden value is not the same, with both values |
| ReplayCheck.MissingReportedExactly | apps/server/src/replay-check.ts:88-88 | a key is listed as missing exactly when the golden has it and the replay has not |
| ReplayCheck.ChangedInOrder | apps/server/src/replay-check.ts:76-88 | the changes are in the order of the replay's records, one for each that the golden has not |
| ReplayCheck.MissingInOrder | apps/server/src/replay-check.ts:88-88 | the missing keys are in the order of the golden's records |
| ReplayCheck.DuplicatesExactly | apps/server/src/replay-check.ts:89-90 | a label is reported exactly when it is `golden ` or `replay ` and a key that two records of that side have, and the count is of the replay's records |
| SchedulerReplay.GroupAttention | apps/server/src/scheduler-replay.ts:149-154 | the loop groups the items under their keys, in the order of the items, and the keys in the order in which they first come |
| SchedulerReplay.AttentionKept | apps/server/src/scheduler-replay.ts:143-166 | the numbered records hold every attention item as often as it is there |
| SchedulerReplay.AttentionExactly | apps/server/src/scheduler-replay.ts:143-166 | two attentions give the same records exactly when they are equal as multisets, whatever their order |
| SchedulerCheck.CheckExactly | apps/server/src/scheduler-replay.ts:181-218 | a scheduler check finds no difference exactly when, kind by kind, names are distinct on both sides and the same names have the same canonical values: roadmaps and entries (without their arguments for a golden before format 2), cycles, status headers, status entries, and the attention as a multiset (without kinds and actions); status and attention that an older golden has not are not compared |
| SchedulerCheck.FormatTwoExactly | apps/server/src/scheduler-replay.ts:175-218 | a golden of format 2 is compared in full, in all six kinds |
| SchedulerCheck.ItemTextExactly | apps/server/src/scheduler-replay.ts:158-164 | two attention items are the same there exactly when their subjects, codes and other members are |
| SchedulerCheck.LessExactly | apps/server/src/scheduler-replay.ts:188-203 | what is compared of an object are all its members but those left out |
| SchedulerReplay.KeysDistinctExactly | apps/server/src/scheduler-replay.ts:158-164 | the numbered keys are distinct exactly when none of them is another item's own key |
| SchedulerReplay.CodeWithNumberCollides | apps/server/src/scheduler-replay.ts:158-164 | three items, one of whose codes ends in another's number, whose keys collide |
| SchedulerCheck.RecordsDistinctExactly | apps/server/src/scheduler-replay.ts:149-172 | the keys of a whole replay are distinct exactly when the names within each kind are and no attention key is another's numbered key |
| SchedulerCheck.DiffersFromItselfExactly | apps/server/src/scheduler-replay.ts:181-218 | a replay differs from itself exactly when one of its keys repeats, by a decision or status named twice or by such a code |
| SchedulerCheck.SomeReplayDiffersFromItself | apps/server/src/scheduler-replay.ts:181-218 | and by such a code alone there is one that does |
| Zip.WriteRecord | apps/server/src/wind-down-rehearsal.ts:137-162 | a zeroed buffer filled in place holds exactly its fields, or a field is out of range |
| Zip.Write | apps/server/src/wind-down-rehearsal.ts:129-167 | the archive of the entries is written exactly when every number fits its field |
| Zip.FieldReads | apps/server/src/wind-down-rehearsal.ts:137-162 | each little-endian field of a record reads back |
| Zip.RoundTrip | apps/server/src/wind-down-rehearsal.ts:129-167 | every archive that is written reads back, through its end record, its directory and its local headers, as the same paths, bytes and checksums in order, by a reader of version 2.0 that takes no encrypted entry, no sizes after the bytes and no names but UTF-8 |
| ToolTrust.TrustedPathProblem | packages/agents/src/toolchains.ts:93-149 | nothing is wrong exactly when every component from `/` down meets the rule and the last is of its kind; otherwise the problem is that of the first component that has one |
| TrustedFiles.AcceptedStays | packages/agents/src/toolchains.ts:113-149 | after any steps of accounts other than root, an accepted path names the same node, unchanged; also where no sticky directory protects its entries and nothing needs to be searched on the way |
| TrustedFiles.AcceptedExactlyWhenItStays | packages/agents/src/toolchains.ts:113-149 | where everybody may search root's directories on the way and no shared one is sticky, a file is accepted exactly when no steps of accounts other than root can change what its path names |
| TrustedFiles.StaysExactlyWhen | packages/agents/src/toolchains.ts:87-149 | by the rules of POSIX on sticky directories and search permission, what a path names stays exactly when every component is root's and shared with nobody but for sticky directories, at least down to a directory of root's that nobody else may search |
| TrustedFiles.StickyIsRefused | packages/agents/src/toolchains.ts:113-149 | a file in a sticky shared directory that the rule refuses and that stays |
| TrustedFiles.SealedIsRefused | packages/agents/src/toolchains.ts:113-149 | a file below a directory only root may search that the rule refuses and that stays |
| PythonInstall.Install.DanglingLinkProblem | packages/agents/src/toolchains.ts:166-192 | a link to nothing is accepted exactly when the nearest existing directory of its target is trusted |
| PythonInstall.WalkFineByName | packages/agents/src/toolchains.ts:251-277 | the rule for a whole directory is the rule for each of its names, and for what is below them in a deep walk |
| PythonInstall.Install.Walk | packages/agents/src/toolchains.ts:251-277 | the recursive walk ends, counts each entry once, and finds nothing exactly when every entry reached meets the rule, unless the count passes its bound |
| PythonInstall.PythonInstallProblem | packages/agents/src/toolchains.ts:209-288 | what is accepted meets the rule; and where there are at most 200,000 entries to look at, exactly what meets the rule is accepted |
| InstalledFiles.InstallStays | packages/agents/src/toolchains.ts:197-288 | after any steps of accounts other than root, every path in a standard library of an accepted install that is no link names the same node, unchanged, and so does what a link in it leads to |
| InstalledFiles.NothingAppears | packages/agents/src/toolchains.ts:197-288 | and nothing can have appeared there: what a path below a standard library names afterwards it named before |
| InstalledFiles.DanglingStays | packages/agents/src/toolchains.ts:162-192 | what an accepted link to nothing leads to, by a path without links, nobody but root can create |
| InstalledFiles.AcceptedExactlyWhenOwned | packages/agents/src/toolchains.ts:197-288 | an install without links whose directories are there is accepted exactly when the directories on the way, the standard libraries at any depth, and what is directly in `lib`, `bin` and the prefix are root's and shared with nobody |

## Left out

- The rest of `local-check.ts`, `composition.ts`, `server.ts`, `cli.ts`, the replay drivers, the evidence
  files and the web application: wiring and plumbing over services and tools that are not part of this model.
- The instance lock: removals by name are taken to succeed, a probe answers at some moment within its time,
  and the random pause between attempts has no distribution, so nothing is claimed of how soon contenders
  get the lock. `LoneStartHolds` and `HolderRefuses` are about one starter.
- The CI lock: process identities are never reused, `/proc` can be read, the clocks of the processes and of
  the file system are one clock, and a process takes one such lock at a time. Waiting is not bounded.
- The check spool: the diagnostic that comes with an exit code is left out, the agent does not tamper with its own spool, a read of a regular file gives all that was
  asked for, and what a request says is not parsed. One request is followed; requests share no file.
- The supervised process: whether its group still works is an input to each settling; `reapProcessGroup` and
  the readers of `/proc` are not part of this model. Strings are Unicode scalar values here, with their UTF-8
  widths, so a chunk never begins inside a character.
- The output watch: what libtest's three patterns make of a line is a parameter, and the text of a diagnostic
  is not composed.
- The stderr journal: text is well-formed UTF-8 bytes throughout, and an event is its text.
- Canonical JSON: the value is what `JSON.parse(JSON.stringify(..))` gives; numbers are the texts that
  JavaScript prints, which are taken to differ for different numbers and to be numbers of RFC 8259.
- The replay check: the SHA-256 of a changed value is a function parameter, and the printed report is left
  out. A record's value is compared whole; how a decision's members come about is not modelled.
- `KeyOrder.InOrder`: sorts by insertion; JavaScript's own algorithm is not modelled, only that it is stable.
- The ZIP writer: the CRC-32 polynomial is a function parameter, paths are given as UTF-8 bytes, and the
  passes that rewrite digests in an archive are left out. `Zip.Read` reads what sections 4.3.7, 4.3.12,
  4.3.16 and 4.4.4 of APPNOTE.TXT say of stored entries, not the repository's own archive reader and its limits.
- Tool trust: a path is its list of components; the test that a string is an absolute, normalized path is its
  being such a list. Access control lists, mounts, capabilities, protected hard links and programs that act as
  root for others are left out.
- `TrustedFiles.StaysExactlyWhen`: only for files each of whose components has one entry in the file system,
  and on whose way root's directories may be searched by everybody or by nobody else: what one group alone may
  search depends on which accounts there are.
- The Python walk: the tree does not change while it is walked, and a listing names nothing twice.
- Hashes, version probes and the messages of problems.
