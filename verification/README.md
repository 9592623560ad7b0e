# Download backend: verified models

Dafny models of the stateful parts of the download backend, each with the properties
its code is written to have. `dafny verify dfyconfig.toml` checks everything.

| Files | Component |
|---|---|
| `JobStore`, `JobLifecycle`, `JobInvariants`, `JobHistory`, `JobSafety`, `JobCalls` | The job manager (workers, cancel, retry, delete, submit, recovery) and the hook dispatcher, over the store: what every run keeps, and what each call brings about by its return |
| `JobSubmit` | One batch submit in full, answer by answer |
| `JobStream`, `Sse`, `SseFields`, `SseWire`, `JobFollow`, `JobFollowEarly` | The per-job event stream: the server's reader, the bytes on the wire, the client's line loop, the follower that reconnects, and a run on which it ends too soon |
| `DownloadsFeed`, `Hub` | The overview feed with its follower, and the wake hub |
| `AlacBits`, `AlacScan`, `Mp4Atoms`, `Mp4Tables`, `AlacRepair`, `AlacFrames`, `AlacSong`, `Layout` | The repair of ALAC packet terminators inside an MP4 file; frames and files as they are written |
| `Semaphore`, `SemaphoreRuns`, `RequestGate` | The priority semaphore and the request gate with its cooldown |
| `Ext4`, `Ext4Dir`, `Ext4Written` | Reading a file, and a directory, out of an ext4 image; extent trees, block maps and directories as an image stores them |
| `LibrarySync` | The library watcher and its anchor |
| `LogStore`, `CoverCache` | The log ring with paging and live subscribers; the cover cache |

**Concurrency.** The job manager is a transition system. Every goroutine is an actor with
a program counter; one step is one store call or one locked section, and store calls made
under a lock are steps of their own, because stream readers read the store without that
lock. Any number of workers, calls and hook executions interleave freely, store calls may
fail and shutdown may begin at any moment. `Sys.disturbed` records that a store call failed
or shutdown began; the one claim that needs an undisturbed process, that no queued job is
stranded, names it. `Ledger.muted` holds the jobs whose row changed while their own
milestone could not be filed, until the next one is; the overview's claims are about all
other jobs, whatever else failed. Sequential
code that runs among other goroutines (stream readers, the feed, followers, a batch, the
request gate, the library pass, the cover cache) is written as methods that call
`Interfere` wherever others may act. Where such code may stop short because something fails
(a read, a client that goes away, the end of the observation), a model-only counter
(`trouble`, `failures`) goes up there and nowhere else, so that the contracts can say what
happens when nothing fails, and that nothing else keeps it from happening.

**Data from outside.** What a download reports, whether a hook succeeds, how many hooks
match, which store call fails, what HTTP answers, when a timer fires and when a client
goes away are open choices. Clocks are integers. Events carry a model-only `cause`, the
terminal event that launched a hook, so that claims about "its" hooks can be stated, and
hook events the execution and the hook's name.

## What the proofs say about the code

- A job stream that ends because nothing is left has delivered the terminal event and
  every hook event of it, or the deletion tombstone. The order of the reads (status, then
  finalize marks, then pending hooks, then a second drain) is what the proof uses.
- `FollowJob` ends on its own test of a snapshot: a terminal status and no hook shown as
  running. Its comment promises that hooks are followed to their end. That holds exactly
  when nothing was hidden from the snapshot: the terminal event had been dispatched, and
  every execution of it not yet at its end shows its start (`JobFollow.OverExactly`). So it
  may return too soon before the dispatch, while a launched hook waits for its slot
  (`JobFollowEarly.EndsTooSoon` is a run with both), when a hook's start could not be
  recorded or was recorded between the snapshot's reads, and when a later event of a hook
  of the same name masks it. It is not too soon when the stream before the snapshot ended
  because nothing was left.
- A message survives the wire exactly when each of its fields is one line, does not end in
  a carriage return and fits the client's 8 MiB buffer (`Sse.ArrivesAsSent`).
- Repairing a repaired file changes nothing when packets are apart from each other, from
  the `moov` atom and from the headers of the atoms before it. Being apart from `moov`
  alone is not enough: a patched header may hide the atom behind it, and
  `AlacSong.Lost` is a family of songs whose repair has no `moov` any more.
  `AlacRepair.SecondRepairExact` and `AlacRepair.WalkDecides` say for all songs when a
  second repair is the identity: when the headers as repaired still lead to `moov`.
  `AlacRepair.FoundDecides` says it for whatever other atom they may lead to.
- The scanner finds the body of every frame written with ALAC's own coding, with one
  exception: it looks one bit past a residual whose remainder is 0, so a packet that stops
  right there, without a tag, has no body end and is left alone
  (`AlacFrames.BodyEndWritten`).
- The runaway guard in the Rice loop never fires: `AlacScan.SkipRice` keeps the guard,
  and agrees with a definition that has none.
- The unique index on active keys never fires for a batch; the lookup under the submit
  lock is enough (`JobSafety.KeysUnique`, `JobSubmit.Admission.Enqueue`).

## Model

| member | source | states |
|---|---|---|
| `JobStore.MatchingExact` | internal/db/events.go:45-49 | The events read are exactly the stored ones the filter accepts in the id range, in strictly ascending order |
| `JobStore.PageExact` | internal/db/events.go:77-86 | A page holds in order every accepted event after the cursor up to its own last one, and a short page holds all of them |
| `JobStore.FinalizeExact` | internal/db/jobs.go:394-420 | Ending a job writes its status and the terminal event under the next id, prunes the job's progress events, and leaves every other row and event |
| `JobStore.DeleteExact` | internal/db/jobs.go:300-334 | Deleting a job removes its row and all its events and leaves the tombstone event; every other row and event stays |
| `JobStore.MilestoneTypes` | internal/domain/event.go:192-206 | Exactly the listed event types go to the overview |
| `JobInvariants.InvKept` | internal/jobs/finalize.go:145-202 | Every step of every actor, hook execution or background event keeps the protocol invariant: lock and mark ownership, no mark on a queued row, one dispatch per terminal event, pending counts equal to unfinished hook executions, no stranded job |
| `JobInvariants.LaunchCounted` | internal/hooks/dispatcher.go:200-215 | Dispatching n hooks raises the job's pending count by exactly the n executions launched, and no other job's |
| `JobInvariants.HookCounted` | internal/hooks/dispatcher.go:303-323 | Each step of a hook execution keeps the pending count of every job equal to its executions that have not gone through donePending |
| `JobHistory.LaterKept` | internal/db/jobs.go:399-420 | One step keeps what a reader relies on: nothing is filed below an id already spent, events leave the log only by progress pruning or deletion, a settled terminal event gains no hook event, and a changed view of a job whose own milestone could be filed is announced by a later milestone, whatever else failed |
| `JobHistory.RunLater` | internal/db/jobs.go:300-334 | The same between the first and last state of any run |
| `JobSafety.RecoverOne` | internal/jobs/manager.go:191-221 | One job of the recovery pass is queued again and its job_recovered event filed next; which of the two fails decides the answer, and a failed event still leaves it queued |
| `JobSafety.Recover` | internal/jobs/manager.go:191-231 | For whichever updates and events fail: the unfinished jobs up to the first failure are queued again, announced once each and in the backlog in the listed order; the job whose event failed is in it too, one whose update failed is not; the count answered and the flag are exact, and the start state satisfies the invariant |
| `JobSafety.OneWorker` | internal/jobs/finalize.go:145-202 | At most one worker runs a job whatever was delivered twice, and the cancels entry of that job is that worker's |
| `JobSafety.EntriesAreOwn` | internal/jobs/finalize.go:184-202 | A claim and a finalize mark are set only where no mark stood, and a cleanup removes only the entry its own actor set |
| `JobSafety.EndsWithOneEvent` | internal/jobs/finalize.go:362-376 | A step ends a job exactly when it files one terminal event for it, of a type that fits the status written with it |
| `JobSafety.DispatchedExactlyOnce` | internal/jobs/finalize.go:378-392 | With all calls returned and workers idle, every terminal event ever filed was dispatched exactly once and no lock or mark is left |
| `JobSafety.CancelWins` | internal/jobs/finalize.go:247-280 | Over any run, a run whose cancel was requested before it reported never ends completed |
| `JobCalls.CancelCancels` | internal/jobs/finalize.go:24-102 | Over any run: by the return of a Cancel with none of its store calls failed there was a moment since the call at which the job was absent or at its end, or a worker ran it whose run context is cancelled by then |
| `JobCalls.CancelLasts` | internal/jobs/finalize.go:247-280 | A run cancelled so that had not reported completed by then never does |
| `JobCalls.CancelEnds` | internal/jobs/finalize.go:74-86 | A job that a Cancel ends itself is the one named, and its status is cancelled |
| `JobCalls.RetryRetries` | internal/jobs/submit.go:150-224 | By the return of a Retry there was a moment since the call at which the job was not one to retry; or its row was queued again, job_retried filed and the job put on the queue |
| `JobCalls.DeleteDeletes` | internal/jobs/finalize.go:113-143 | By the return of a Delete there was a moment since the call at which the job was not one to delete, or at which of it only the tombstone was left |
| `JobCalls.SubmitSubmits` | internal/jobs/submit.go:95-126 | By the time a batch goes on from a candidate let in there is a new job under its key, queued, its job_queued filed, and put on the queue |
| `JobCalls.SubmitLetsIn` | internal/jobs/submit.go:75-93 | A candidate whose key no unfinished job has, with room in the queue, can be let in |
| `JobCalls.WorkerTakes` | internal/jobs/manager.go:233-276 | What a step takes out of the queue or the backlog is in the hands of the worker that took it |
| `JobCalls.WorkerRuns` | internal/jobs/finalize.go:145-302 | A worker given a job looks for the next one only after it found the job not queued, or ran it and wrote the outcome it had with its event |
| `JobCalls.IdleTakes` | internal/jobs/manager.go:233-260 | An idle worker takes the head of the backlog before anything else, and can take the head of the queue or the signal |
| `JobCalls.MayReport` | internal/jobs/finalize.go:243-280 | A run can report failed whatever happened, cancelled exactly when its context is cancelled, and completed or failed items exactly when it is not |
| `JobCalls.ReportFiled` | internal/jobs/reporter.go:44-54 | What the processor reports while it runs is filed, one event each |
| `JobCalls.DispatchLaunches` | internal/hooks/dispatcher.go:200-215 | At the end of a run, of a cancel, and for an accepted job each matching hook gets one new execution for that job and event, and the pending count rises by as many |
| `JobCalls.HookFiles` | internal/hooks/dispatcher.go:229-275 | An execution files its start, or its failure when shutdown comes first, and then its outcome, one event each, with its job, hook and cause |
| `JobCalls.HookLeaves` | internal/hooks/dispatcher.go:303-323 | An execution whose outcome is recorded leaves with exactly one of its job's pending count |
| `JobCalls.HookGoesOn` | internal/hooks/dispatcher.go:229-323 | Every execution can go on: to its start on file, to its outcome, and away |
| `JobSafety.KeysUnique` | internal/jobs/submit.go:150-182 | Whenever a row becomes queued, its writer holds the submit lock and no other active row has its key |
| `JobSafety.NothingStranded` | internal/jobs/manager.go:223-276 | Undisturbed, a queued job is in the queue, in the backlog or held by an actor about to send or claim it, and a non-empty backlog has its signal pending or an awake worker |
| `JobSafety.OnlyItsOwnEvent` | internal/jobs/finalize.go:214-223 | A job goes unannounced only when the actor that changed its row fails to file that job's own milestone: no other failed store call, no other job and no shutdown does that |
| `JobSafety.LeavesRestartable` | internal/jobs/manager.go:191-231 | Whatever moment a process stops at, its store is one the next process can recover from |
| `JobSafety.EveryRun` | internal/jobs/manager.go:191-276 | At every moment of every one of any number of successive processes, each stopped anywhere and each recovery complete or failed half way: one worker per job, no mark on queued rows, one dispatch per terminal event, one active job per key, the queue within its capacity, and no stranded job while undisturbed |
| `JobSafety.RetryHolderActs` | internal/jobs/submit.go:150-224 | Retry, holding both locks, always has a next step; its send finds a free slot |
| `JobSafety.SubmitHolderMoves` | internal/jobs/submit.go:70-126 | Whoever holds the submit lock waits at most for the other lock; a batch's send finds a free slot |
| `JobSafety.NoDeadlock` | internal/jobs/finalize.go:24-143 | An unfinished call or run can itself step without a failing store call or shutdown, unless a lock is held; then the holder of the inner lock, or of the submit lock when the inner one is free, can, and is itself an unfinished call or run |
| `JobSubmit.SubmitMuExcludes` | internal/jobs/submit.go:67-71 | While one actor holds the submit lock, no step of another makes a job active, creates or forgets an id, or adds to the queue |
| `JobSubmit.Screen` | internal/jobs/submit.go:48-65 | The first pass answers refused, failed and repeated URLs, and leaves as candidates exactly the first URL of each key, in order |
| `JobSubmit.Admission.FindActive` | internal/db/jobs.go:62-73 | It finds an active job of the key exactly when there is one |
| `JobSubmit.Admission.CreateJob` | internal/db/jobs.go:31-44 | It inserts a queued row unless the store fails or the unique index on active keys refuses |
| `JobSubmit.Admission.Look` | internal/jobs/submit.go:75-93 | A duplicate answer names a job that was active under the key, a full queue was full, and a failure is a failed read; otherwise it passes, and no active job has the key and the queue has a slot |
| `JobSubmit.Admission.Enqueue` | internal/jobs/submit.go:95-126 | After a passed lookup the unique index never refuses, and the send finds a slot |
| `JobSubmit.Admission.Admit` | internal/jobs/submit.go:73-126 | One candidate is accepted, or answered as a duplicate of a job active before, or refused by a full queue, or failed exactly when a store call failed; the queue keeps its order |
| `JobSubmit.Admission.SubmitBatch` | internal/jobs/submit.go:39-138 | Each URL gets exactly one answer that fits what the store and queue were before the batch, with as many failures as store calls that failed; a full queue sticks for all later candidates, the jobs sent are the accepted ones in URL order, at most one job per key is active, and accepted plus rejected is the number of URLs |
| `JobSubmit.Count` | internal/jobs/submit.go:129-137 | Accepted counts the accepted answers and the two counts add up to all |
| `JobStream.World.Interfere` | internal/api/job_events.go:99-173 | Any steps of all others keep the invariant and everything a reader relies on |
| `JobStream.Resumed` | internal/client/sse.go:83-121 | Two streams, the second resumed from the last id of the first while the log grew, together skip no stored event, repeat none and stay in order |
| `JobStream.FinishedForGood` | internal/api/job_events.go:35-47 | Nothing that happens after a stream ended by exhaustion makes it incomplete |
| `JobStream.DispatchedWhenUnmarked` | internal/api/job_events.go:20-47 | With the manager's lock free and no finalize mark, all terminal events of the job are dispatched |
| `JobStream.SettledWhenNotPending` | internal/hooks/dispatcher.go:217-227 | With no pending hook, every hook of a dispatched terminal event has recorded its outcome |
| `JobStream.DrainFinishes` | internal/api/job_events.go:140-150 | Once exhaustion was observed, a drain read after it has delivered everything the stream owes |
| `JobStream.Stream.Read` | internal/db/events.go:45-49 | A page is ordered and complete up to its last event, and complete when short |
| `JobStream.Stream.Send` | internal/api/job_events.go:100-112 | Events go out in order and the cursor is always the last one sent, also when the client is gone half way |
| `JobStream.Stream.Drain` | internal/api/job_events.go:116-133 | A drain completes exactly when no read or send fails and the observation goes on, and then leaves no stored event of the job unsent |
| `JobStream.Stream.EventsExhausted` | internal/api/job_events.go:35-47 | It says yes exactly when no read failed and its three looks stand for it: the row gone, or at its end at the first, the lock free and no mark at the second, no hook pending at the third; and a yes is right: by its end all hooks of the terminal event were done, or the job was deleted |
| `JobStream.Stream.Finish` | internal/api/job_events.go:140-150 | The stream ends by exhaustion exactly when nothing failed and the looks stand for it, and then it has sent the terminal event and every hook event of it, or the tombstone |
| `JobStream.Stream.Run` | internal/api/job_events.go:152-173 | The same for the whole stream, whatever the wakes and ticks; unless something fails it asks once at the start and once on each wake, and ends at the first that says so |
| `JobStream.JobEvents` | internal/api/job_events.go:53-93 | Frames are in strictly increasing id order after the cursor with no stored event skipped; unless a read fails, a 204 is answered exactly when the looks stand for it and no event of the job is stored after the cursor; a 204, or an end by exhaustion, means nothing is left to deliver |
| `Sse.SseStream.Send` | internal/api/sse.go:105-110 | The bytes written stay exactly the frames of all messages and keepalives sent |
| `Sse.SseStream.SendKeepalive` | internal/api/sse.go:112-117 | The same for a keepalive |
| `Sse.Stream` | internal/client/sse.go:83-121 | The line loop delivers the events, and ends with the last id, that the line-by-line reading of the body defines |
| `Sse.CutStream` | internal/client/sse.go:83-121 | For any messages and keepalives with single-line fields, cut at any byte, the client delivers exactly the events whose frames arrived whole, up to the first line too long, and LastID is the last id delivered |
| `Sse.RoundTrip` | internal/client/sse.go:83-121 | With fields that do not end in a carriage return, what is delivered is a prefix of what was sent, all of it when nothing is cut and every line fits |
| `Sse.ArrivesAsSent` | internal/api/sse.go:105-110 | For any message at all: it arrives as sent if and only if its fields are single lines that do not end in a carriage return and fit the buffer |
| `Sse.Unfinished` | internal/client/sse.go:83-100 | Lines cut before their last newline, or one too long, deliver nothing |
| `Sse.CursorRoundTrip` | internal/api/sse.go:119-147 | A decimal id comes back as the same cursor from the query or the header, exactly for ids of at most 63 bits |
| `Sse.Decimal` | internal/api/job_events.go:106 | An id is written as a numeral that spells it |
| `SseFields.MessageRead` | internal/client/sse.go:83-121 | Any message of the event stream format, with or without spaces behind colons, with comments and unknown fields: it is delivered at its blank line with its last id and event name and its data lines joined by newlines, not at all without data, and a non-empty id is what the client resumes after |
| `SseWire.Write` | internal/api/job_events.go:100-112 | Whatever a stream carries, the messages, with keepalives anywhere between them, are on the wire in order |
| `SseWire.Transmit` | internal/client/sse.go:83-121 | Whatever is cut, the client delivers the first messages sent, unchanged, and its last id is that of the last of them; a connection that does not break delivers all of them when every line fits |
| `JobFollow.Connect` | internal/client/sse.go:44-125 | One connection, server and broken wire included, delivers every stored event after the cursor up to the new cursor, each once and in order; when the server ended it because nothing was left, the hooks of that terminal event are at their end or the job is deleted, and unless something failed the client has all of their events |
| `JobFollow.Download` | internal/api/downloads.go:211-250 | It fails exactly when a read does; the cursor is that of the job's latest event stored before the call and none committed after it, so it never runs ahead of the snapshot; hooks show as running exactly as the events listed and the pending count read after the row say |
| `JobFollow.SummarizeHooks` | internal/domain/event.go:140-180 | Each hook has the status of its latest event, a start without an outcome counting as running while a hook of the job is pending and as interrupted otherwise |
| `JobFollow.HookFramesExact` | internal/db/events.go:45-49 | The hook events a snapshot lists are the job's hook events below the id, all of them, as stored and in order |
| `JobFollow.HooksRunning` | internal/client/types.go:104-113 | A hook shows as running exactly when one is pending and the latest event of some hook is its start |
| `JobFollow.OverExactly` | internal/client/follow.go:175-180 | When a snapshot is taken for the last word on a finished job, no run from there records another hook event of its end if and only if the terminal event had been dispatched and each unfinished execution of it shows its start in the snapshot |
| `JobFollow.SettledExactly` | internal/hooks/dispatcher.go:303-323 | The hooks of a terminal event are at their end if and only if no run from there records another hook event of it |
| `JobFollow.Listen` | internal/client/follow.go:183-200 | The handler is given what the stream brought, all of it, and so has every stored event since the snapshot, each once and in order; it says whether a terminal event came |
| `JobFollow.Refresh` | internal/client/follow.go:160-182 | A snapshot leaves all that untouched; hooks are at their end after it when the stream before it ended because nothing was left after that terminal event |
| `JobFollow.FollowJob` | internal/client/follow.go:153-222 | Over any number of broken connections, the handler has since the latest snapshot all that arrived: every stored event up to the client's cursor, each once and in order; a snapshot is read first, again until it answers, after a 204, after a stream the server ended and, if it is to stop there, after a terminal event, and a stream at any other turn; it ends exactly when what it read says so; job gone means the job is absent; success means a terminal job of whose end, unless it was to stop there, no later run records a hook event if and only if nothing of its hooks was hidden from the snapshot, and none does when the stream before it ended because nothing was left |
| `JobFollowEarly.EndsTooSoon` | internal/client/follow.go:175-180 | A run from a recovered start on which FollowJob, waiting for hooks, takes the job for over before the terminal event is dispatched, and again while the launched hook waits for its slot, and the hook event is recorded afterwards |
| `DownloadsFeed.Converged` | internal/api/downloads_feed.go:63-137 | A faithful picture with nothing left after its cursor, and nobody about to file a milestone, shows every job with its status in the store, but for jobs whose own latest milestone could not be filed and jobs past the listed page |
| `DownloadsFeed.Collect` | internal/api/downloads_feed.go:87-99 | A page is reduced to the last milestone of each of its jobs, each job once, ordered by that id |
| `DownloadsFeed.SentCovered` | internal/api/downloads_feed.go:100-132 | After each message every milestone at or below the cursor is covered: its job had a message with an id at least as large, or has a newer milestone above the cursor |
| `DownloadsFeed.SentFaithful` | internal/api/downloads_feed.go:100-132 | After each message every job is shown as the store has it, or a milestone above the cursor will correct it, but for a job whose own milestone could not be filed |
| `DownloadsFeed.CutsLater` | internal/api/downloads_feed.go:63-137 | A client cut off after any message stays faithful whatever happens later |
| `DownloadsFeed.Feed.Drain` | internal/api/downloads_feed.go:63-137 | However it ends, cutting the stream after any message leaves a faithful and covered client; it completes exactly when nothing fails, and then left no milestone after the cursor |
| `DownloadsFeed.Feed.Moved` | internal/api/downloads_feed.go:148-155 | The jobs reported are exactly the running ones whose progress is not the one last sent |
| `DownloadsFeed.Feed.PushProgress` | internal/api/downloads_feed.go:143-181 | Progress messages carry the cursor already reached, show running jobs, and keep every cut faithful; unless something fails there is one about exactly each running job whose progress is not the one last sent, which from then on it is |
| `DownloadsFeed.Feed.Run` | internal/api/downloads_feed.go:55-208 | The whole feed, under any wakes and ticks, keeps every cut faithful and covered; unless something fails it drains once at the start and on each wake, and pushes progress on each tick |
| `DownloadsFeed.Downloads` | internal/api/downloads.go:88-123 | A snapshot whose cursor was read first is faithful, and complete when it is not a full page; it is there exactly when no read fails |
| `DownloadsFeed.Connect` | internal/client/sse.go:44-125 | One connection of the feed, server and a wire broken at any byte included, leaves the picture faithful, its messages in ascending order; unless something fails, the client then has every milestone stored at some moment of the connection |
| `DownloadsFeed.FollowFeed` | internal/client/follow.go:56-122 | Over snapshots, streams and broken connections, what the follower shows is faithful at every moment, and it is the latest snapshot with every message that arrived since applied in order: its cursor the larger of the snapshot's and the last message's id, each job as its last message or the snapshot has it; every read comes in its turn, each stream from the cursor reached |
| `Hub.EventHub.Subscribe` | internal/events/hub.go:34-42 | A new open channel watches the job, and the maps and slots agree with the history of calls |
| `Hub.EventHub.SubscribeAll` | internal/events/hub.go:61-66 | The same for the overview |
| `Hub.EventHub.Publish` | internal/events/hub.go:80-91 | Afterwards a wake is pending exactly for the channels that were watching and have not received since, with no send on a closed channel |
| `Hub.EventHub.Wake` | internal/events/hub.go:96-102 | The same for a wake without an event |
| `Hub.EventHub.Receive` | internal/events/hub.go:105-110 | A receive succeeds exactly when something watched was published since the last one, however often |
| `Hub.EventHub.Cancel` | internal/events/hub.go:43-55 | The first call unregisters and closes, any further one does nothing |
| `Hub.EventHub.CancelAll` | internal/events/hub.go:67-75 | The same for the overview |
| `AlacBits.BitReader.Read` | internal/media/alacfix.go:24-38 | It reads the number the next bits spell, most significant first, wrapped to 32 bits, or fails without moving |
| `AlacBits.BitReader.Show` | internal/media/alacfix.go:40-45 | It answers as a read would and does not move |
| `AlacBits.BitReader.Unary09` | internal/media/alacfix.go:66-77 | It counts the ones before the first zero, at most nine |
| `AlacBits.PatchTerminator` | internal/media/alacfix.go:357-378 | The packet's bits become body, three ones, zeros; every bit before the body's end and outside the packet is unchanged; it refuses exactly when the tag does not fit |
| `AlacScan.DecodeScalar` | internal/media/alacfix.go:320-346 | It reads the Rice value the bits define (`AlacFrames.ShortRead` and `AlacFrames.EscapeRead` say which), the last bit of a small remainder put back |
| `AlacScan.SkipRice` | internal/media/alacfix.go:269-318 | It agrees with the definition of the Rice loop that has no runaway guard, so the guard is unreachable and the sample index never passes the sample count |
| `AlacScan.ScanElement` | internal/media/alacfix.go:163-267 | It ends where, and with the channel count, the element's definition says |
| `AlacScan.FindBodyEnd` | internal/media/alacfix.go:142-161 | It answers the body end the bits define (`AlacFrames.BodyEndWritten` says which for any frame written): the end of the last element before the channels are used up or the terminator comes, -1 when one does not parse |
| `AlacScan.ScalarLocal` | internal/media/alacfix.go:320-346 | A Rice value depends only on the bits consumed, despite the look ahead |
| `AlacScan.ElementLocal` | internal/media/alacfix.go:163-267 | An element's extent depends only on the bits before its end |
| `AlacScan.BodyEndLocal` | internal/media/alacfix.go:142-161 | A packet's body end depends only on the bits before it |
| `AlacScan.RepairedOnce` | internal/media/alacfix.go:103-140 | A repaired packet has the same body end, the same bits before it, and needs no repair |
| `AlacFrames.ShortRead` | internal/media/alacfix.go:320-346 | The number q * (2^k - 1) + r with q at most 8, written as q ones, a zero and its remainder, is read back as that number, up to its end; a remainder of 0 at the very end of the bits fails, for the reader looks one bit further |
| `AlacFrames.EscapeRead` | internal/media/alacfix.go:320-329 | Nine ones and a number in the sample width are read back as that number |
| `AlacFrames.SampleWidth` | internal/media/alacfix.go:276-279 | The parameter of a sample is the least k of at least 1, and at most the limit, with the history below 1024 * 2^k - 1536 |
| `AlacFrames.RunWidthIs` | internal/media/alacfix.go:297-300 | The parameter of a run of zeros is that of a table over the history |
| `AlacFrames.ChannelRead` | internal/media/alacfix.go:269-318 | Residuals and runs of zeros written with the adaptive history from any state are read from that state, up to their end |
| `AlacFrames.ElementRead` | internal/media/alacfix.go:163-267 | Any element written, single, pair or LFE, full or with a sample count, raw or predicted with low bits and Rice coded residuals, is read up to its end with its channel count |
| `AlacFrames.BodyEndWritten` | internal/media/alacfix.go:142-161 | For every list of such elements that has all the channels, or is followed by END or by less than three bits: the body end is the length written, with the END tag when that comes before all channels are there; there is none exactly when the packet stops at a residual whose reading looks one bit further |
| `AlacFrames.RepairWritten` | internal/media/alacfix.go:103-140 | The repair of a packet written so: the elements, the END tag and zeros, unless END is there or has no room; then it is unchanged |
| `AlacFrames.ExampleRead` | internal/media/alacfix.go:142-318 | One frame bit by bit: a zero, a run of sixteen and a one take eight bits behind 55 of headers, and the body ends at bit 63 |
| `Mp4Atoms.FindChildren` | internal/media/alacfix.go:594-624 | It finds, in order, every child atom of the type up to the first broken header |
| `Mp4Atoms.ChildLocal` | internal/media/alacfix.go:586-592 | The child found in a range depends on the bytes of that range alone |
| `Mp4Tables.SamplesPerChunk` | internal/media/alacfix.go:549-567 | Each chunk has the count of the last run covering it, or of the very last run when none gives one |
| `Mp4Tables.RunApplies` | internal/media/alacfix.go:549-567 | For runs as section 8.7.4 of ISO/IEC 14496-12 wants them, a chunk has the count of the run that applies to it |
| `Mp4Tables.LocatePackets` | internal/media/alacfix.go:569-584 | The packets are, chunk after chunk, the samples laid one behind the other |
| `Mp4Tables.SampleAt` | internal/media/alacfix.go:569-584 | Sample j of chunk c has its own size, and the chunk's offset plus the sizes of the earlier samples of that chunk |
| `Mp4Tables.StandardSample` | internal/media/alacfix.go:468-584 | Both together, against a direct reading of sections 8.7.3 to 8.7.5 of ISO/IEC 14496-12 |
| `Mp4Tables.ReadPacketLocations` | internal/media/alacfix.go:468-584 | It answers the packet locations the three tables define, or nothing when one is missing or short |
| `AlacRepair.FindRepairTracks` | internal/media/alacfix.go:380-431 | It answers the ALAC tracks of the moov atom in order, or nothing when one of them is malformed |
| `AlacSong.CookieRead` | internal/media/alacfix.go:447-466 | The settings read are the ones written in the cookie, in its order and widths; a cookie with a zero frame length, sample size or channel count is refused |
| `AlacSong.ConfigDirect` | internal/media/alacfix.go:433-445 | The cookie is that of the first alac atom written in the sample entry |
| `AlacSong.ConfigInWave` | internal/media/alacfix.go:433-445 | When the entry has none, it is that of the first alac atom in its first wave atom |
| `AlacSong.ChildrenRead` | internal/media/alacfix.go:594-624 | Of any atoms written one behind the other, the children found are those of the type, at their places |
| `AlacSong.ChildrenBefore` | internal/media/alacfix.go:594-624 | Behind a header that does not fit nothing is found: the children are those written before it |
| `AlacSong.BrokenHeaderRead` | internal/media/alacfix.go:600-617 | A size smaller than the header or past the end does not fit |
| `AlacSong.WideHeaderRead` | internal/media/alacfix.go:600-617 | An atom whose size is written in 64 bits behind a size of 1 has that size and a header of 16 bytes |
| `AlacSong.OpenHeaderRead` | internal/media/alacfix.go:600-617 | An atom with size 0 runs to the end |
| `AlacSong.CommonSizeRead` | internal/media/alacfix.go:484-503 | A table with one size for all samples is read as that many of it |
| `AlacSong.WideOffsetsRead` | internal/media/alacfix.go:505-526 | 64-bit chunk offsets are read back, those past 63 bits as negative ones |
| `AlacSong.RunsRead` | internal/media/alacfix.go:528-547 | Any runs of chunks are read back, first chunk and samples a chunk each in its place |
| `AlacSong.CutSizes` | internal/media/alacfix.go:484-497 | A size table with less than the entries it counts is refused |
| `AlacSong.CutTable` | internal/media/alacfix.go:505-535 | So is one of offsets, of either width, or of runs |
| `AlacSong.OtherMedia` | internal/media/alacfix.go:386-394 | A track whose handler is not that of sound is passed over, wherever its atoms are |
| `AlacSong.FirstEntryRead` | internal/media/alacfix.go:403-420 | The sample entry that counts is the first one, if there is one and its format is alac |
| `AlacSong.TracksRead` | internal/media/alacfix.go:380-431 | Of several tracks exactly the ALAC ones count, each once and in order; there are none if and only if one is malformed |
| `AlacSong.PacketsJoin` | internal/media/alacfix.go:111-139 | The packets named are those of the tracks, one track after the other |
| `AlacSong.SongRead` | internal/media/alacfix.go:380-584 | For any settings and any list of packet places with 32-bit offsets and sizes: a file whose moov holds that one track names exactly those packets with those settings, or is refused when the settings are unusable |
| `AlacRepair.FixPacket` | internal/media/alacfix.go:103-140 | One packet is repaired in place and counted exactly when its tag was not already the terminator |
| `AlacRepair.RepairTerminators` | internal/media/alacfix.go:103-140 | The result is the song with the packets its tables name repaired in order, with the number patched |
| `AlacRepair.FixAllKeeps` | internal/media/alacfix.go:103-140 | No bit outside the packets changes |
| `AlacRepair.BodiesKept` | internal/media/alacfix.go:103-140 | No bit before a packet's body end changes |
| `AlacRepair.SecondPass` | internal/media/alacfix.go:103-140 | Over disjoint packets a second pass patches none and changes nothing |
| `AlacRepair.RepairIsAfter` | internal/media/alacfix.go:103-140 | For packets disjoint from each other, the repaired file and the count are those told from the song alone: behind the body of each packet that lacks its terminator come the terminator and zeros, every other bit is the song's |
| `AlacRepair.SecondRepair` | internal/media/alacfix.go:103-140 | For packets disjoint from each other and from moov: when moov is found in the repaired file where it was, a second repair, reading the tables again from the repaired bytes, patches zero packets and returns the same bytes; when no moov is found, it fails |
| `AlacRepair.SecondRepairExact` | internal/media/alacfix.go:103-140 | For those packets, a second repair is the identity if and only if the headers as repaired lead to moov where it was, or to another atom that reads as moov and names no packet without its terminator |
| `AlacRepair.FoundDecides` | internal/media/alacfix.go:103-140 | Whichever atom the repaired headers lead to: when packets are clear of it and those it names are repaired ones or apart from them, a second repair is the identity if and only if it can be read and each other packet it names had its terminator in the song |
| `AlacRepair.WalkDecides` | internal/media/alacfix.go:594-624 | With packets clear of the whole of moov and moov spelled nowhere else, a second repair is the identity if and only if the header walk over the repaired bytes, told from the song, still reaches moov |
| `AlacRepair.Idempotent` | internal/media/alacfix.go:103-140 | So repairing a repaired file changes nothing when packets are also apart from the headers of the atoms before moov |
| `AlacRepair.OneAnswer` | internal/media/alacfix.go:103-140 | A file has one repair, so that is what any second repair answers |
| `AlacSong.Lost` | internal/media/alacfix.go:103-140 | A family of songs, for every padding and all usable settings, with one packet clear of moov, whose repair patches that packet and leaves a file without moov, so that a second repair fails |
| `Semaphore.WaiterHeap.Up` | internal/limits/semaphore.go:94-110 | Sifting up restores the heap order and keeps the waiters and their index fields |
| `Semaphore.WaiterHeap.Down` | internal/limits/semaphore.go:94-110 | Sifting down does, and says whether it moved |
| `Semaphore.WaiterHeap.Push` | internal/limits/semaphore.go:112-116 | The waiter joins, its index locates it |
| `Semaphore.WaiterHeap.PopLeast` | internal/limits/semaphore.go:118-126 | The least waiter leaves, with index -1 |
| `Semaphore.WaiterHeap.Remove` | internal/limits/semaphore.go:165-170 | The waiter at the index leaves and the others stay ordered and located |
| `Semaphore.RootIsLeast` | internal/limits/semaphore.go:94-104 | The root of an ordered heap is a waiter with no larger priority than any other, no larger subpriority than any other of its priority, and of those of both the earliest |
| `Semaphore.Semaphore.Enter` | internal/limits/semaphore.go:137-153 | A caller is admitted at once exactly when a permit is free and nobody waits, else it waits with the next arrival number |
| `Semaphore.Semaphore.ReleaseLocked` | internal/limits/semaphore.go:193-201 | The permit goes to a waiter whose priority no waiter's is below, among those of its priority one whose subpriority none is below, and among those of both the earliest; or back when nobody waits |
| `Semaphore.Semaphore.Cancel` | internal/limits/semaphore.go:155-177 | A waiter cancelled in time leaves without a permit; one granted meanwhile passes it on |
| `SemaphoreRuns.Conserved` | internal/limits/semaphore.go:137-201 | Over every run the permits in use are those of the callers that have one, never above the limit, and somebody waits only while all are out |
| `SemaphoreRuns.Overtaken` | internal/limits/semaphore.go:94-104 | While a waiter waits, every permit given out goes to one of smaller priority, or of the same and smaller subpriority, or of the same of both and earlier |
| `SemaphoreRuns.ReleasePossible` | internal/limits/semaphore.go:179-201 | A holder can always release, and the least waiter is always a caller still there |
| `SemaphoreRuns.AllReturned` | internal/limits/semaphore.go:155-201 | When every caller is gone, cancelled or not, every permit is back |
| `RequestGate.RequestGate.Penalize` | internal/limits/request_gate.go:156-171 | The cooldown's end never moves back nor lies more than 60 s ahead, and is the larger of the old and the capped new one |
| `RequestGate.RequestGate.WaitCooldown` | internal/limits/request_gate.go:173-190 | It answers yes exactly when the context does not end, and then the cooldown's end is past; waiting changes nothing the caller holds |
| `RequestGate.RequestGate.Acquire` | internal/limits/request_gate.go:57-88 | It succeeds exactly when nothing fails; success means one permit held and a look at the cooldown that found none after the permit, and another after the token when rate limited; failure means no permit is held |
| `RequestGate.RequestGate.Do` | internal/limits/request_gate.go:90-110 | Unless something fails exactly one request is sent, right after an admission, and answered once; otherwise at most one; the permit is held afterwards only by an open response body |
| `RequestGate.RequestGate.DoWith429Retry` | internal/limits/request_gate.go:112-136 | At most two requests are sent, each right after an admission, never with two permits; every 429 is paid for: the cooldown lasts its delay, up to 60 s, from when it came; a single send never ends in a 429; there is a response exactly when nothing fails |
| `Ext4.WalkExact` | internal/ext4/ext4.go:303-343 | Under one pointer exactly the blocks below the wanted count whose resolution is non-zero are placed, once, with the block they resolve to |
| `Ext4.BlockMapExact` | internal/ext4/ext4.go:303-343 | For every file and block size, every logical block is placed exactly when its direct, single, double or triple indirect resolution is non-zero, once, with that physical block, and no other is |
| `Ext4.WalkTree` | internal/ext4/ext4.go:308-329 | The recursive walk places what the pure walk says, and succeeds exactly when that is defined and readable |
| `Ext4.ReadBlockMap` | internal/ext4/ext4.go:303-343 | The same for the fifteen slots of the inode |
| `Ext4.BlockMapBytes` | internal/ext4/ext4.go:303-343 | After a successful walk every byte of the file is that of its resolved block, or zero in a hole |
| `Ext4.BlockMapFails` | internal/ext4/ext4.go:303-343 | A walk fails only when some block of the file resolves through, or to, an unreadable block |
| `Ext4.ExtentTree` | internal/ext4/ext4.go:263-299 | Leaves found and visits left together never exceed the budget |
| `Ext4.WalkExtents` | internal/ext4/ext4.go:263-299 | The recursive extent walk, its depth strictly falling, places the initialized leaves and spends the budget exactly as the tree says, and fails exactly when the tree is corrupt or a leaf unreadable |
| `Ext4.ExtentBytes` | internal/ext4/ext4.go:241-299 | With leaves that do not overlap, every byte is the mapped image byte, or zero where no initialized leaf covers it |
| `Ext4.Place` | internal/ext4/ext4.go:241-254 | Placing an extent copies each block that starts inside the file and leaves all other bytes |
| `Ext4.Contents` | internal/ext4/ext4.go:233-260 | The file is what its extents or its block map say block by block; it fails exactly for inline data, an impossible size, a corrupt tree or an unreadable block |
| `Ext4Written.TreeRead` | internal/ext4/ext4.go:263-299 | An extent tree stored in an image, its nodes in the blocks the index entries name, is read as its written leaves in order for one visit an entry, and refused exactly when it is deeper, or has more entries, than allowed |
| `Ext4Written.BlockMapLayout` | internal/ext4/ext4.go:303-343 | A block of a file is the direct pointer of its number, or reached by the digits of its number to the base of pointers a block through the single, double or triple indirect block; a hole beyond |
| `Ext4Dir.Search` | internal/ext4/ext4.go:358-375 | The two loops scan the whole blocks of the directory for the first live entry of the name, stopping at a broken record |
| `Ext4Dir.BlocksExact` | internal/ext4/ext4.go:345-375 | In a well-formed directory that is the first live entry of that name, and 0 when there is none |
| `Ext4Written.BlockRead` | internal/ext4/ext4.go:358-375 | A directory block written as records one behind the other holds exactly their entries |
| `Ext4Dir.NamedFound` | internal/ext4/ext4.go:345-375 | A name some live entry has is found |
| `Ext4Dir.Lookup` | internal/ext4/ext4.go:348-376 | It refuses directories over 16 MiB and otherwise answers the scan of the directory's contents |
| `LibrarySync.AddedIsFresh` | internal/librarysync/librarysync.go:229-248 | Ahead of the oldest anchored song, the songs the anchor does not know are exactly those added since it was saved and still present |
| `LibrarySync.StillSince` | internal/librarysync/librarysync.go:193-278 | Further additions in front and removals anywhere keep the relation between the anchored library and the present one |
| `LibrarySync.ConsumedMeans` | internal/librarysync/submit.go:109-133 | An answer settles an album for good exactly when it is accepted, either duplicate, or one of the three permanent rejections |
| `LibrarySync.Watcher.ScanUntil` | internal/librarysync/librarysync.go:312-342 | It answers a prefix of the library, capped, and says whether the wanted song is in it; no only when the pages ended or the cap was reached, and nothing only when a page fails |
| `LibrarySync.Watcher.SaveAnchor` | internal/librarysync/librarysync.go:295-308 | An anchor is saved only when no reset came since it was loaded; a reset in flight leaves none |
| `LibrarySync.Watcher.ResetAnchor` | internal/librarysync/librarysync.go:344-357 | It clears the anchor and makes every pass in flight stale, or changes nothing when the store fails |
| `LibrarySync.Watcher.GiveUpOnAlbum` | internal/librarysync/submit.go:156-172 | Over the history of its lookups since an anchor was last saved, an album is given up exactly when the last three all failed with a client error |
| `LibrarySync.Watcher.LookUpAlbums` | internal/librarysync/submit.go:51-80 | A pass looks each album up once, submits exactly those found and leaves those without an entry, and gives up exactly those whose last three lookups, each of a different pass, failed with a client error |
| `LibrarySync.Watcher.SubmitAlbums` | internal/librarysync/submit.go:25-120 | Every album of an added song is either settled (an answer for good to its submission, no catalog entry, given up) or pending, never both, and given up exactly after three failed lookups in a row |
| `LibrarySync.Watcher.Pass` | internal/librarysync/librarysync.go:193-278 | It fails exactly when something fails; what counts as added is exactly what came since the anchor was saved; the anchor moves only when no album of it is pending, and then to the newest songs scanned; a reset during the pass always leaves no anchor |
| `LibrarySync.Watcher.Run` | internal/librarysync/librarysync.go:134-187 | Over any run of passes, resets and library changes, whenever there is an anchor every song is accounted for, once and for good: there when a pass took the whole library as had, without an album, or of an album submitted and consumed, given up or without catalog entry; but for those in front added since the anchor was saved, which the next pass to find it adds |
| `LibrarySync.AlbumsOf` | internal/librarysync/submit.go:31-45 | The albums of the added songs, each once |
| `LogStore.Store.Append` | internal/logging/store.go:82-95 | The ring is always the last records with contiguous sequences, as many as it has room for |
| `LogStore.Store.OldestMatches` | internal/logging/store.go:171-189 | The first matches after the cursor, in order |
| `LogStore.Store.NewestMatches` | internal/logging/store.go:191-207 | The last matches of all held ones, in order |
| `LogStore.PartsSelect` | internal/logging/store.go:208-231 | Each part of a filter works on its own: leaving it out lets in exactly what it alone kept out, by time, level, attribute or text, and an empty filter selects every record |
| `LogStore.Store.List` | internal/logging/store.go:114-136 | Truncated holds exactly when a record after the cursor was evicted; a page from a live cursor holds every match up to its next cursor; any page after a cursor, a truncated one too, is the first matches up to the limit among the records still held, and goes on behind the last of them; without a cursor it is the newest matches |
| `LogStore.Paged` | internal/logging/store.go:125-133 | One match beyond the limit tells where a page ends, and the page then holds every match up to there |
| `LogStore.Follow` | internal/logging/store.go:114-136 | Following next cursors across concurrent appends returns what the pages read have: every match between the first and the last cursor, once and in order, until a page says truncated |
| `LogStore.Fanout.Subscribe` | internal/logging/store.go:142-162 | The backlog and the registration are one step, so the stream starts where the backlog ends; the backlog is all held matches after a cursor, or the newest ones up to the limit |
| `LogStore.Fanout.Append` | internal/logging/store.go:82-109 | Every subscriber's stream stays exactly the matches since it subscribed, or is closed at a record it had no room for; no channel is closed twice, and its backlog stays what it was when it subscribed |
| `LogStore.Fanout.Cancel` | internal/logging/store.go:154-161 | The channel is closed once; a second call does nothing |
| `LogStore.NoHole` | internal/logging/store.go:138-162 | Backlog and everything put have no hole and end with the newest match up to now, or up to where the store closed the channel; they are all matches after the cursor if and only if no match was evicted before it subscribed and no limit cut the backlog |
| `LogStore.Fanout.WholeStream` | internal/logging/store.go:138-162 | That holds of every stream a store ever opened, registered or closed, at any time |
| `CoverCache.CoverCache.Enter` | internal/media/cover.go:81-97 | A key being fetched or retained is joined, a retained one moved to the back with the others in their order; otherwise the only fetch of the key starts |
| `CoverCache.CoverCache.Evict` | internal/media/cover.go:118-132 | The longest most-recent suffix that fits is kept, and the map loses exactly the covers evicted |
| `CoverCache.CoverCache.Finish` | internal/media/cover.go:100-115 | A failed fetch leaves the map; a fetched cover is the newest and the longest fitting suffix stays; the byte total is exact and within the limit |
| `CoverCache.CoverCache.FetchOne` | internal/media/cover.go:81-116 | All callers of one fetch get its outcome, among any other callers' fetches and evictions; only one who joined a fetch not yet done goes away without |

## Left out

- SQL, HTTP, JSON, ffmpeg, the music and wrapper clients, Widevine, the desktop, console, command line and demo programs: foreign calls and user interface; a download is an arbitrary step that never writes a job's status, a hook an arbitrary success or failure.
- `internal/fairplay`: generated tables with no visible meaning to prove against.
- Startup recovery racing other calls: it runs once, before the workers start.
- The dispatcher's shutdown wait, retries of one hook and its bound on parallel hooks: a dispatch after shutdown launches no hook, which is one of the open choices, and a hook still waiting may fail at once.
- The writer in `AlacFrames` takes a Rice limit of at least 1, for with 0 no coded residual can be read, and runs of at most 65535 zeros.
- The creation hook and job_queued event of a job cancelled between its insert and its dispatch: they may follow the terminal event, and the stream's claim is about the hooks of the terminal event. Motion artwork events and events of a later retry are outside it too.
- Item progress events pruned when a job ends: claims about the log are about events still stored when read.
- Job items, their resets on retry and their endings on cancel, and the item counters in payloads.
- JobStream.Stream.EventsExhausted: an observation that would wait for the manager's lock counts as no.
- Readers and the hub: the streams treat wakes as arbitrary, which covers every behaviour of the hub; the hub's own guarantee is stated separately.
- AlacRepair.Idempotent: needs packets apart from the headers of atoms before moov as well as from moov and each other; SecondRepairExact is the exact condition without that.
- Machine words in MP4 and ext4 offsets: positions are mathematical integers, so the wrap of a position plus an atom size is not modelled; 32-bit wrap is kept in the bit reader, the Rice history and the chunk count.
- JobFollow.FollowJob: on success hooks are at their end exactly when nothing of them was hidden from the last snapshot, not always as its comment says.
- DownloadsFeed.Converged: says nothing of a job whose own latest milestone could not be filed, because the code does not file it again.
- Sse.CursorRoundTrip: only ASCII white space around a cursor is trimmed.
- An unterminated last line of exactly 8 MiB: the scanner may report it or fail; it delivers nothing either way.
- DownloadsFeed.Feed.PushProgress: progress values are arbitrary numbers per job; how a job's progress is computed from its items is not modelled.
- Status counts in feed messages and the order of the job list: they do not bear on which jobs a client shows with which status.
- JobSubmit.Admission.SubmitBatch: ids drawn for new jobs are taken to be new; the validator's answers are given.
- RequestGate.RequestGate.Acquire: the semaphore and the token bucket answer freely; the semaphore's own guarantees are in `Semaphore`.
- Semaphore.Semaphore.Enter: the arrival counter is unbounded.
- `Ext4.Contents`: every read inside the image succeeds; superblock and inode parsing and the path walk are not modelled.
- LibrarySync.Watcher.Pass: the library does not change within one pass and an added song's id is new.
- Album names, notices and status texts of the library watcher, its schedule and its token.
- CoverCache.CoverCache.FetchOne: the order in which a job tries several artwork addresses is not modelled.
- Log text search beyond a lowercased substring, and the collection of attributes into search text.
- Token cache, canonical keys, configuration, disc totals, codec lists, presets and redaction: they would only add easy members.
