# mirrortools, modelled and proved in Dafny

mirrortools keeps local mirrors of remote sites. This project models the parts of it that
carry state across crashes or share it between goroutines, and proves what they guarantee.
`dafny verify dfyconfig.toml` checks everything.

**The mirrord job queue.** `JobTable` says what each SQL statement does to the jobs table;
`Store` has a method per Store call, proved against it; `ClaimOrder` is about the order of
claims. `QueueModel` is the transition system: the dispatcher, workers, operators, crashes
and restarts, one action per critical section or Store call, in any interleaving. `Queue` is
the Queue object itself, each method proved to be exactly its action (or actions).
`QueueSafety` has what holds of every run. `QueueExclusive` is about one worker per job and the
concurrency limit, which the program keeps in some runs and not in others: it says exactly in
which. `QueueDrain` proves that under fair scheduling the queue drains. `LogHub` is the log
fan-out.

**The crawlers.** `HttpModel`/`HttpMirror` and `FtpModel`/`FtpMirror` are the id-ordered
worklists over a table that survives crashes: a run can stop before any database write, any
request can fail, and a body sent without its length can end early unnoticed. The result is
about what is on record when some run finally ends cleanly, as every run does in which nothing
fails. `FtpDownload` is the byte-level resume of one file. `GopherModel`/`GopherCrawl` is the
mutually recursive depth-first crawl with its set of selectors seen, over any number of runs in
which the peer may also close a connection early.

**Incremental state.** `ImapSync` is one mailbox mirrored by UID; `PhotoNames` the allocation of
file names in gphotos with its index, over whole runs; `BinaryCookies` the cookie-file decoder,
proved to undo an encoder of the layout the source documents.

Conventions. A row id is a position in a sequence, since ids are handed out in order and rows
are never deleted. `if *` and `:= *` stand for what the program does not control: the network,
the disk, a crash. A parameter `faulty`, or a field `steady` that rules it out, says whether such
things may go wrong at all, so that what a run achieves can be stated for the case where they do
not. Contracts of the main operations say in plain terms what becomes of rows, files and names;
where one uses a defined notion (a scope, a place, a candidate name, the order of claims), a lemma
spells that notion out (`ScopeSpelled`, `PathSpelled`, `FollowedSpelled`, `ClaimComparesTo` and
others). A `universe` is a finite set the
remote side cannot lead out of; it is needed only for termination.

## Findings

Where the code and its comments or documentation differ, the model follows the code.

- internal/daemon/queue.go:74-80: the configured concurrency of mirrord (its flag and its config
  file) has no effect: `Start` always overwrites it with the stored limit, which is 2 where none
  was stored (`JobQueue.ConfiguredLimitIgnored`).
- internal/daemon/queue.go:190-198: a worker's outcome and its deferred cleanup are separate steps.
  A job requeued in between can be claimed again, the old cleanup then removes the new worker's
  entry, and more jobs run than the limit allows (`QueueExclusive.LateCleanupBreaksLimit`). Workers
  and activeJobs agree exactly in the runs in which no worker is started for a job that still has
  one (`QueueExclusive.OneWorkerPerJob`), and in these the limit holds.
- internal/daemon/store.go:423-448: `RetryJob` has no state guard, so retrying a running job gives it
  a second worker (`QueueExclusive.RetryBreaksExclusion`). A job is never executed twice at a time
  exactly in the runs in which none is claimed while it still executes
  (`QueueExclusive.OneExecutionPerJob`); operators who requeue only idle jobs are enough for that.
- internal/daemon/store.go:173-206: recovery can queue a job whose retries are used up, so with
  crashes a job can be claimed max_retries + 1 times (`QueueSafety.CrashBoundIsReached`). The comment
  on `RecoverOrphanedJobs` says that jobs out of retries fail; they are quarantined.
- httpmirror/httpmirror.go:279-300: any answer but a redirect ends the search for the start URL's
  final location, a 5xx too, and what it has arrived at is stored as the root of all later runs
  (`HttpModel.BusyMakesWrongRoot`). The stored root is right if and only if the redirects end within
  ten and none of the URLs that redirect answered busy (`HttpModel.RootIsEnd`).
- ftpmirror/ftpmirror.go:241-282: with `-update` ftpmirror re-checks everything except a start path
  that is a single file: once done it is never looked at again (`FtpMirror.ResetRequeuesRoot`, which
  says exactly when).
- httpmirror/httpmirror.go:488-542: a body sent without its length ends where the server closes the
  connection, so one cut short is saved, and its row done with the validators of the whole; the
  links that did not come are never queued, and when a run with `-update` then gets a 304 nothing
  is made good (`HttpMirror.CutShortStays`). What a clean run misses is only what is reached
  through such bodies, and it misses nothing if all bodies come with their length
  (`HttpMirror.Crawler.MirrorAgainAndAgain`).
- imap/imap.go:504-511: a run cut off inside the writing of `.uidvalidity` or `.last-uid` leaves an
  empty file (`ImapSync.Maildir.WriteMarkers`, which says exactly when), and every later run of that
  mailbox fails (`ImapSync.StuckForGood`; `ImapSync.Maildir.MirrorMailbox` fails if and only if a marker
  it needs does not parse).
- gopher/gopher.go:360-386: a plain item ends where the peer closes the connection, so if it closes
  early what has arrived is renamed into place as the whole, although the comment says that no
  truncated file is ever left at the real name; and as a file that is there is not asked for
  again (gopher/gopher.go:240-246), no later run makes it good
  (`GopherCrawl.Crawler.ClosedEarly`, `GopherCrawl.NotMadeGood`). After a run without faults a
  reachable file is whole if and only if no transfer of it was ever closed early
  (`GopherCrawl.Crawler.MirrorAgainAndAgain`).
- gopher/gopher.go:312-319: nothing is kept of an empty response, so an empty file is asked for
  again on every run (`GopherCrawl.NotMadeGood`). Besides the menus, what a second fault-free run
  asks for again is exactly what has an empty response (`GopherCrawl.Crawler.MirrorTwice`).
- gphotos/gphotos.go:866-891: a file found under an item's name and not in the index is taken for the
  item's own, though a run cut off between writing a file and saving the index, or a failure after
  the first of several companions, leaves files of other items there
  (`PhotoNames.WrongAdoption`). An item is adopted if and only if the first free name for it is found
  on disk, and gets another's file if and only if that file is another's
  (`PhotoNames.Library.OneItem`, and `PhotoNames.Library.Fetch` for thumbnails and companions). Of all
  the files a run records, those are another item's that lay on disk unlisted when the run began
  and were another's then, and no others, temp names aside (`PhotoNames.Library.Mirror`).
- gphotos/gphotos.go:648-673: the documented layout of a cookie lists the comment offset first; the
  decoder reads domain, name, path, value and then comment. The code's order is the one modelled.

## Model

| member | source | states |
|---|---|---|
| JobStore.Store.RecoverOrphanedJobs | internal/daemon/store.go:173-206 | afterwards no row is running: one with retries left is queued again with one more counted, any other is quarantined; returns how many were queued again |
| JobStore.Store.EnqueueJob | internal/daemon/store.go:209-246 | adds a queued row under a fresh id and changes no other |
| JobStore.Store.ClaimNextJob | internal/daemon/store.go:264-316 | reports an empty queue iff nothing is queued; else marks running a queued row that no queued row sorts before, and only that one |
| JobStore.Store.FinishJob | internal/daemon/store.go:318-330 | sets the state whatever it was, and nothing else |
| JobStore.Store.FailAndRetryJob | internal/daemon/store.go:332-379 | counts a retry; queued again while fewer than max_retries are counted, else quarantined; reports which |
| JobStore.Store.OperateOn | internal/daemon/store.go:382-523 | each operator statement on one job: which states its WHERE clause accepts, what the row is then set to, retries back to 0 for a retry and an unquarantine, and that nothing else changes; reports whether it applied |
| JobStore.Store.BatchAction | internal/daemon/store.go:854-945 | a batch changes exactly the chosen rows its statement accepts, each as the single statement would, by prefix only those in the states allowed for it, and returns their number |
| JobStore.Store.GetQueueConfig | internal/daemon/store.go:674-700 | the stored settings, unpaused and 2 where nothing is stored |
| JobTable.StrLessCompares | internal/daemon/store.go:267-316 | strings compare by the first character that differs, and a proper prefix sorts first |
| ClaimOrder.IdleSiteFirst | internal/daemon/store.go:267-316 | while idle sites have queued top-priority jobs the next claim is such a job, of the first of these sites in order, and makes that site busy |
| ClaimOrder.ClaimComparesTo | internal/daemon/store.go:267-316 | against any other queued job the one claimed has no lower priority, then no busier site, then the first site, the first path and the oldest creation time |
| ClaimOrder.FairShare | internal/daemon/store.go:267-316 | m undisturbed claims serve m distinct idle sites in order, when that many have queued jobs of the top priority |
| ClaimOrder.AncestorFirst | internal/daemon/store.go:267-316 | a job is never claimed while one of its site and priority with a path that is a proper prefix of its own is queued |
| ClaimOrder.AncestorsClaimedFirst | internal/daemon/store.go:267-316 | over any undisturbed run of claims, an ancestor path comes before its descendants |
| QueueModel.MapsStep | internal/daemon/queue.go:64-243 | every action keeps the in-memory maps, counters and settings consistent with the workers |
| QueueModel.RowsStep | internal/daemon/store.go:175-523 | every action keeps ids bounded and waiting rows within their retry budget |
| QueueModel.OwnedStep | internal/daemon/queue.go:114-243 | every action keeps each running row in the dispatcher's hand or with a worker that has not written its outcome |
| QueueModel.InvExec | internal/daemon/queue.go:64-419 | all three hold after every finite run of actions, crashes and restarts among them |
| JobQueue.Queue.Start | internal/daemon/queue.go:63-88 | Start is the model's restart: recovery, the stored settings, empty maps |
| JobQueue.Queue.Check | internal/daemon/queue.go:114-140 | the loop's check is the model's: returns on stop, goes on to claim iff unpaused and below the limit |
| JobQueue.Queue.ClaimNext | internal/daemon/queue.go:142-158 | takes the row ClaimNextJob gives in hand, or goes back to the top when there is none |
| JobQueue.Queue.Register | internal/daemon/queue.go:160-169 | enters the job in both maps and starts its worker |
| JobQueue.Queue.WriteOutcome | internal/daemon/queue.go:204-243 | a cancelled worker's job becomes cancelled, whatever its executor returned; otherwise success completes it, a fatal error quarantines it, and a failure counts one retry and queues it again while fewer than max_retries are counted, else quarantines it; no other row or column changes |
| JobQueue.Queue.CleanUp | internal/daemon/queue.go:190-198 | the deferred cleanup removes the job's map entries, whoever they belong to by now |
| JobQueue.Queue.Enqueue | internal/daemon/queue.go:245-267 | adds a queued row with the queue's own retry limit |
| JobQueue.Queue.PauseOrResume | internal/daemon/queue.go:269-287 | sets the flag in memory, then stores it |
| JobQueue.Queue.SetConcurrency | internal/daemon/queue.go:290-302 | refuses a limit below 1; otherwise sets it in memory, then stores it |
| JobQueue.Queue.CancelEach | internal/daemon/queue.go:360-392 | the loop over running contexts cancels exactly the chosen jobs' workers, in whatever order the map yields them |
| JobQueue.Queue.CancelJob | internal/daemon/queue.go:305-315 | a running job's worker, the one its entry names, is told to stop and its row left alone; otherwise the row is cancelled if it is queued, running or paused |
| JobQueue.Queue.QuarantineJob | internal/daemon/queue.go:339-348 | cancels the context, then quarantines the row |
| JobQueue.Queue.OperateOn | internal/daemon/queue.go:317-357 | pausing, resuming, retrying and unquarantining one job go straight to its row, with no look at whether a worker has it |
| JobQueue.Queue.BatchJobs | internal/daemon/queue.go:360-392 | cancels the chosen contexts (by prefix, those of any state), then applies the batch |
| JobQueue.Queue.Stop | internal/daemon/queue.go:90-100 | tells the dispatcher to return, then cancels and forgets every context |
| JobQueue.Queue.StopReturns | internal/daemon/queue.go:91-103 | Stop returns only with the dispatcher gone and all workers finished |
| JobQueue.ConfiguredLimitIgnored | internal/daemon/queue.go:74-80 | after Start the limit is the stored one, or 2, for any configured value |
| QueueSafety.RunningIsOwned | internal/daemon/queue.go:114-243 | in every reachable state of a daemon that is up a running row is in the dispatcher's hand or has a worker yet to write its outcome |
| QueueSafety.NoneRunningAcrossRestart | internal/daemon/queue.go:64-103 | no row is running right after recovery, nor when Stop returns |
| QueueSafety.BudgetHolds | internal/daemon/store.go:175-431 | at every moment the claims of a job since its last reset are covered by its counted retries |
| QueueSafety.ClaimsBounded | internal/daemon/store.go:175-431 | at most max_retries + 1 claims between operator resets, over any interleaving, crashes and restarts |
| QueueSafety.ClaimsBoundedWithoutCrash | internal/daemon/store.go:334-431 | at most max_retries if the daemon never crashes, restarts through Stop allowed |
| QueueSafety.CrashBoundIsReached | internal/daemon/store.go:173-206 | a run with one crash in which a job with max_retries 1 is claimed twice |
| QueueSafety.PauseStopsClaims | internal/daemon/queue.go:124-158 | once a pause has taken effect at most one more job is claimed before a resume, none unless the dispatcher had passed its check |
| QueueSafety.LoweredLimitHolds | internal/daemon/queue.go:124-168 | after the limit is lowered to n with a jobs active, never more than max(n, a + 1) are until it is raised |
| QueueExclusive.OneWorkerPerJob | internal/daemon/queue.go:160-198 | over every run: workers, their jobs and activeJobs correspond one to one at every moment if and only if no worker was ever started for a job that still had one |
| QueueExclusive.ActiveBounded | internal/daemon/queue.go:124-198 | in every run activeJobs, with what the dispatcher is about to add, stays within the largest limit in force so far |
| QueueExclusive.LiveWorkersBounded | internal/daemon/queue.go:124-198 | so do the live workers in every run in which no worker was started for a job that still had one |
| QueueExclusive.OneExecutionPerJob | internal/daemon/queue.go:142-243 | over every run: no job is ever executed twice at a time, or held while executing, if and only if none was claimed while it was still executing |
| QueueExclusive.RespectfulIsExclusive | internal/daemon/store.go:423-523 | operators who retry and unquarantine only jobs nobody holds or executes are enough for exclusive execution, however late cleanups come |
| QueueExclusive.CarefulRuns | internal/daemon/queue.go:160-243 | if besides that each cleanup directly follows its outcome, no job ever has two workers and the limit holds for the workers themselves |
| QueueExclusive.LateCleanupBreaksLimit | internal/daemon/queue.go:190-243 | a run with late cleanup, and submissions as the only operator actions, that ends with three workers under a limit of 2 |
| QueueExclusive.RetryBreaksExclusion | internal/daemon/store.go:423-448 | a run in which retrying a running job gives it two workers |
| QueueDrain.MovesExist | internal/daemon/queue.go:114-243 | no state is stuck: in an open queue every actor has a move |
| QueueDrain.MovePot | internal/daemon/queue.go:114-243 | no move raises the potential, and one that leaves it alone changes no row and ends no execution |
| QueueDrain.QueueDrains | internal/daemon/queue.go:114-243 | from any reachable state that is up, unpaused and not stopping, every fair behaviour without operators gets to where nothing is queued, claimed or running any more |
| QueueDrain.FairBehaviourExists | internal/daemon/queue.go:114-243 | every open state has a fair behaviour starting from it |
| LogHub.Ring.Push | internal/daemon/loghub.go:43-50 | shifting a full buffer down in place and appending drops exactly its oldest line |
| LogHub.Hub.Remember | internal/daemon/loghub.go:32-50 | the job's own buffer, made if missing, is pushed to in place and no other changes: each holds the last ringSize lines broadcast since the last Clear |
| LogHub.Hub.FanOut | internal/daemon/loghub.go:52-60 | each live subscriber of the job with room left gets the line at the end of its channel; a full channel and everyone else's stay as they are |
| LogHub.Hub.Broadcast | internal/daemon/loghub.go:32-62 | the two together keep every subscription in agreement with the full history |
| LogHub.Hub.Subscribe | internal/daemon/loghub.go:65-86 | returns the last ringSize lines since the last Clear, copied to an array no buffer uses, and a new channel that starts right after them |
| LogHub.Hub.SnapshotStands | internal/daemon/loghub.go:65-86 | however many lines of whatever jobs follow and shift the buffers, the snapshot stays what it was |
| LogHub.Hub.Unsubscribe | internal/daemon/loghub.go:89-100 | removes and closes that channel only |
| LogHub.Hub.Clear | internal/daemon/loghub.go:102-107 | drops the job's buffer and nothing else |
| LogHub.Hub.RecentIsHistoryEnd | internal/daemon/loghub.go:32-50 | for a job never cleared the buffer is the end of its full broadcast history |
| LogHub.Hub.SubscriberGets | internal/daemon/loghub.go:32-86 | what a subscriber gets is an in-order selection of what was broadcast after it subscribed; while its channel was never full, snapshot and lines are one gap-free stretch reaching to the end |
| HttpModel.DirOf | httpmirror/httpmirror.go:601-606 | the path up to and including its last slash, or a slash if it has none |
| HttpModel.ScopeSpelled | httpmirror/httpmirror.go:571-606 | a URL is in scope iff it has the root's scheme and host and its path begins with the root's path up to the last slash |
| HttpModel.ReachesIsLeast | httpmirror/httpmirror.go:470-557 | reachability by links, requisites and redirects is the least closed set with the root |
| HttpModel.EnqueuedGrows | httpmirror/httpmirror.go:545-557 | enqueue records an acceptable URL once, never loses a row, and can only drop a requisite flag |
| HttpModel.EnqueuedSpelled | httpmirror/httpmirror.go:545-557 | a link out of the scope adds nothing, a new URL gets one pending row at the end, a known one keeps all but its requisite flag, which a link takes away |
| HttpModel.GrownKeepsNamed | httpmirror/httpmirror.go:470-557 | enqueuing keeps every stored validator's body fully expanded on record |
| HttpModel.SettledIsComplete | httpmirror/httpmirror.go:311-345 | if all rows are finished and every finished row's children are on record, so is everything the root leads to, in both cases but for what bodies cut short would have named |
| HttpModel.RedirectsRecorded | httpmirror/httpmirror.go:443-457 | and so is the whole chain of redirects of a URL still flagged a requisite, wherever it leads |
| HttpModel.ClosuresCoincide | httpmirror/httpmirror.go:443-457 | if no URL of the scope redirects out of it, requisite flags make no difference to what is reachable |
| HttpModel.RootIsEnd | httpmirror/httpmirror.go:263-304 | the root found is where the redirects of the start URL end if and only if they end within ten and no request at a URL that redirects was answered busy |
| HttpModel.BusyMakesWrongRoot | httpmirror/httpmirror.go:279-300 | a start URL that has moved and whose first answer is busy becomes the root itself |
| HttpMirror.Crawler.EnqueueKids | httpmirror/httpmirror.go:501-540 | what is on record afterwards is what was, and of an HTML page in scope the links in scope and all requisites, of a listing the entries in scope without a query, of a stylesheet its references, and nothing of anything else |
| HttpMirror.Crawler.Save | httpmirror/httpmirror.go:470-543 | the row is done only once its file is in place and everything the body, or the part of it that came, leads to is on record, wherever the run is cut off; cut off after the rename it leaves the file torn: newer than its row's validators; a body cut short passes for whole, and only one sent without its length can be |
| HttpMirror.Crawler.TakeRedirect | httpmirror/httpmirror.go:446-457 | a redirect's target is put on record if the row is a requisite or the target in scope, and not otherwise, and the row is done without validators |
| HttpMirror.Crawler.KeepUnchanged | httpmirror/httpmirror.go:443-457 | a 304 parses nothing and misses nothing: the current body's expansion is already on record, and the file is that body unless it is torn; but what was cut short stays so |
| HttpMirror.Crawler.Answer | httpmirror/httpmirror.go:438-465 | each class of answer, to the validators sent exactly if the file is there and the row has any, does to the row what it should: busy or broken is transient, a refusal or a redirect to nowhere permanent; nothing but the row's own children is added |
| HttpMirror.Crawler.Fetch | httpmirror/httpmirror.go:412-465 | one request, which if nothing fails is conclusive: the row is done for a body or a redirect, a failure permanent only for a URL that is refused or moved nowhere |
| HttpMirror.Crawler.Retry | httpmirror/httpmirror.go:350-379 | at most three requests, and three before giving up on transient failures; the row is done or as it was |
| HttpMirror.Crawler.Process | httpmirror/httpmirror.go:347-379 | the row then is done, failed or in error as the last attempt ended; done means a body or a redirect, failed a refusal or a redirect to nowhere, and exactly an error is counted; nothing but its own children is added |
| HttpMirror.Crawler.Run | httpmirror/httpmirror.go:306-345 | ends, processes each row at most once in id order, leaves nothing pending, adds nothing that is not reachable |
| HttpMirror.Crawler.ResolveStart | httpmirror/httpmirror.go:263-304 | the root is what the search over the answers given arrives at, stored once unless cut off or without an answer, and from then on read back |
| HttpMirror.Crawler.Begin | httpmirror/httpmirror.go:223-234 | with -update every row is pending again, otherwise those in error; validators are kept, and the root is on record |
| HttpMirror.Crawler.CompleteTells | httpmirror/httpmirror.go:412-557 | what a complete mirror has on record: the root, and with each URL the links in scope and requisites of its page, the entries of its listing, its stylesheet's references and its redirect's target; and a done page's file is its current body unless torn or cut short |
| HttpMirror.Crawler.Mirror | httpmirror/httpmirror.go:164-246 | if nothing fails the run is clean; a clean run has every row done or failed, and if it re-checked everything, or its predecessors saw the same web, is complete for that web; every row that is no requisite has the root's scheme and host and a path inside the root's directory; an update run makes the table true to the web it saw once past its reset, even if cut off; across changing webs validators stay truthful and a finished row's file is the body they name unless a cut between rename and markDone tore it, and a run tears one file at most |
| HttpMirror.Crawler.MirrorAgainAndAgain | httpmirror/httpmirror.go:164-345 | after any number of runs cut off anywhere, a clean one leaves on record all that the root leads to otherwise than through bodies cut short, and exactly the closure of the root if there are none, as when all are sent with their length; no row but a requisite's is outside the root's scheme, host and directory; each row done or failed with its expansion, redirects of requisites wherever they lead among it; every local file is the body its URL has unless that was cut short |
| HttpMirror.Crawler.UpdateThenResume | httpmirror/httpmirror.go:164-246 | whatever came before, once an update run has got past its reset plain re-runs over the same web finish what it began: a clean one is complete; a stored root stays whatever they see |
| HttpMirror.CutShortStays | httpmirror/httpmirror.go:438-543 | a site and a history in which a page cut short is done, its link unknown, and stays so through a run with -update |
| FtpModel.TreeInScope | ftpmirror/ftpmirror.go:398-401 | every row of a table built from one root is in scope |
| FtpModel.ChildLater | ftpmirror/ftpmirror.go:363-396 | a child's id is above its parent's |
| FtpModel.EvolvedAhead | ftpmirror/ftpmirror.go:414-443 | listing a directory touches only rows after its own, so what is requeued is still to come |
| FtpModel.UpsertFaithful | ftpmirror/ftpmirror.go:499-544 | recording a listed item keeps every row standing for something on the server |
| FtpModel.FinishedReflects | ftpmirror/ftpmirror.go:243-257 | a finished table whose done directories have their listings on record reflects the whole tree, but for what lies under a refused path |
| FtpMirror.ResetRequeuesRoot | ftpmirror/ftpmirror.go:241-247 | -update looks at the root again iff it is a directory or not done |
| FtpMirror.Crawler.Upsert | ftpmirror/ftpmirror.go:360-396 | a new entry is queued; a known one is left alone without -update; with it, it is queued again if anything listed has changed or, for a file, if it is not on disk or not of the size listed, and stays as it is otherwise |
| FtpMirror.Crawler.RecordItem | ftpmirror/ftpmirror.go:516-542 | an entry without a usable name or a symbolic link leaves the table alone; a folder or file not on record gets a pending row with what was listed of it |
| FtpMirror.Crawler.ListDir | ftpmirror/ftpmirror.go:499-544 | success means every usable file and folder listed is on record as listed, and after -update queued or current |
| FtpMirror.Crawler.Process | ftpmirror/ftpmirror.go:445-492 | after at most three attempts, and three before giving up on transient failures, the row is done, failed or in error as the last one ended; a file that is done was downloaded, exactly an error is counted, and no other directory's listing is lost |
| FtpMirror.Crawler.Run | ftpmirror/ftpmirror.go:409-443 | ends with nothing pending; a table with nothing pending is left alone |
| FtpMirror.Crawler.AddRoot | ftpmirror/ftpmirror.go:272-308 | adds at most the root's own row, as a directory iff the server enters it, and only to an empty table |
| FtpMirror.Crawler.Mirror | ftpmirror/ftpmirror.go:178-257 | if nothing fails the run is clean; a clean run has every row done or failed, and if it was an update or all earlier runs saw the same server, every file and folder on the server is done as listed or under something refused; after -update such a file was downloaded now or is on disk with the size listed; a start path that is a finished file is not touched |
| FtpMirror.Crawler.MirrorAgainAndAgain | ftpmirror/ftpmirror.go:178-257 | the same after any number of runs cut off anywhere over one server, and everything on record is on the server as listed |
| FtpDownload.Transfer.Retrieve | ftpmirror/ftpmirror.go:584-606 | the transfer starts where asked, or at 0 if the server refuses a restart |
| FtpDownload.Transfer.Copy | ftpmirror/ftpmirror.go:608-623 | the temp file grows along the remote bytes, however the stream or the writing breaks off |
| FtpDownload.Transfer.Attempt | ftpmirror/ftpmirror.go:572-661 | the temp file stays a prefix of the remote bytes; the file is replaced only by one of at least the listed size; without faults it is all there after sending only what the temp file lacked, or all of it if that already had the listed size |
| FtpDownload.Transfer.Attempts | ftpmirror/ftpmirror.go:572-661 | over any attempts at an unchanged file of its listed size the local file is untouched or complete, and one attempt without faults completes it |
| GopherModel.PlacesArePlain | gopher/gopher.go:208-222 | a selector has a place exactly if its path is at or below the root's, and the place is that path, made of plain names |
| GopherModel.PathSpelled | gopher/gopher.go:208-222 | the path of a selector of plain names is these names; one more name goes below it, an empty one or a dot changes nothing, and two dots go one up but not above the top |
| GopherModel.FollowedSpelled | gopher/gopher.go:426-441 | an entry is followed iff its type is one of the eight, its host the site's but for upper and lower case, and its port the site's |
| GopherModel.PlaceTells | gopher/gopher.go:235-247 | what is on disk at a reachable selector's place is a directory if it is a menu and else its own file, whole exactly if no transfer of it was closed early, a proper part from the front if one was |
| GopherModel.OnDiskIffAnswered | gopher/gopher.go:312-325 | of what has been dealt with, a file is there exactly for what is no menu and has a non-empty response |
| GopherModel.FinishedTrans | gopher/gopher.go:229-274 | what one part of a crawl has finished stays finished through the next |
| GopherModel.WentAll | gopher/gopher.go:162-206 | a crawl that starts with nothing seen and finishes has dealt with everything reachable, requested once unless its file was there, and left it whole unless a transfer was closed early |
| GopherModel.AskedAgain | gopher/gopher.go:312-319 | once all is mirrored the next fault-free run asks for a reachable selector again if and only if it is a menu or its response is empty |
| GopherModel.TinyIsTame | gopher/gopher.go:388-451 | the conditions the gopher results ask of a site can be met, by a menu with two files below it, one of them empty |
| GopherCrawl.Crawler.Get | gopher/gopher.go:224-274 | terminates; the selector is seen to, each new selector is requested at most five times, and without faults once, with all it names seen to |
| GopherCrawl.Crawler.GetNew | gopher/gopher.go:248-274 | a selector is given up only after five requests, and without faults asked for once |
| GopherCrawl.Crawler.Fetch | gopher/gopher.go:276-325 | one request, saved as a menu or as a file as its type or its content says, or nothing if nothing arrives; what has arrived when the peer closes passes for the whole |
| GopherCrawl.Crawler.WriteFile | gopher/gopher.go:354-386 | on success the file is what arrived before the peer closed, whole exactly if that is all of it; on failure there is no file; no other file changes |
| GopherCrawl.Crawler.ReadMenu | gopher/gopher.go:388-451 | without faults every entry worth following is seen to and the info lines are saved in order |
| GopherCrawl.Crawler.Mirror | gopher/gopher.go:142-206 | whatever goes wrong, the disk holds only what is reachable, under its own name and whole unless its transfer was closed early, a file once there never changes, and nothing is seen to but the start and what an entry of a reachable menu names, of one of the eight types and on this host and port; without faults all of that is seen to, each fetched exactly once unless its file was there, and is on disk, a menu as a directory with its info lines in 00README |
| GopherCrawl.Crawler.MirrorAgainAndAgain | gopher/gopher.go:142-206 | after any number of runs onto whatever earlier ones left, one without faults ends with everything reachable there, each whole if and only if no transfer of it was ever closed early |
| GopherCrawl.Crawler.ClosedEarly | gopher/gopher.go:360-386 | a file whose transfer the peer closed after some of its bytes is exactly these bytes after any number of further runs |
| GopherCrawl.Crawler.MirrorTwice | gopher/gopher.go:224-325 | of two runs in a row without faults the second requests exactly the menus and what has an empty response |
| GopherCrawl.NotMadeGood | gopher/gopher.go:312-386 | a site and a history of runs in which a file cut short by its peer stays so and an empty file is requested again |
| ImapSync.FlagStringSpells | imap/imap.go:367-395 | the suffix is in ascending order and has D, F, P, R, S, T exactly for draft, flagged, forwarded, answered, seen, deleted |
| ImapSync.LastFlagsSpelled | imap/imap.go:410-446 | of several items with flags the last one counts, and without any there are none |
| ImapSync.Maildir.LoadLastUid | imap/imap.go:484-528 | fails iff a marker that is needed does not parse; else the stored UID, or 0 on a first run |
| ImapSync.Maildir.WriteMessage | imap/imap.go:397-459 | with the items in any order: on success the message is in cur/ with its own body, under the letters of exactly the flags of the last item that has any, in ascending order, and it is never added beside an older copy; it succeeds if nothing fails and the body comes after the UID |
| ImapSync.Maildir.WriteMarkers | imap/imap.go:504-511 | what each crash point leaves behind; markers that parse no longer do if and only if the writing is cut off between emptying a file and filling it |
| ImapSync.Maildir.FetchAll | imap/imap.go:292-331 | when the FETCH ends well, as it does if nothing fails, every message of the mailbox is in cur/ and none has a UID above the new mark; each new file has the flags its response carried |
| ImapSync.Maildir.MirrorMailbox | imap/imap.go:276-338 | at every crash point each message up to .last-uid has exactly one file with its body, new ones with the flags they were sent with, and .last-uid does not decrease; a run gets going iff the markers parse, and then ends well if nothing fails |
| ImapSync.Maildir.MirrorOverTheYears | imap/imap.go:276-338 | over an evolving mailbox and any number of interrupted runs, a run that ends well leaves every message once; after a marker error none gets anywhere |
| ImapSync.StuckForGood | imap/imap.go:484-528 | a first run cut off there, and every later run over an evolving mailbox fails, for any number of them |
| PhotoNames.DecimalInjective | gphotos/gphotos.go:887 | different numbers have different decimals |
| PhotoNames.DecimalSpells | gphotos/gphotos.go:887 | the decimal of a number is made of digits, stands for it, and has no zero in front |
| PhotoNames.ExtSpelled | gphotos/gphotos.go:871-873 | a name is its base and its extension, which starts at the last dot of the last element and is empty if there is none |
| PhotoNames.TargetSpelled | gphotos/gphotos.go:1311-1320 | the file name is the date folder's names and then the item's own, or its key if it has none |
| PhotoNames.CandidatesDiffer | gphotos/gphotos.go:875-888 | no candidate name is tried twice |
| PhotoNames.TakenAreMany | gphotos/gphotos.go:875-888 | if the first n candidates are in use then at least n names are |
| PhotoNames.FirstFreeIsOne | gphotos/gphotos.go:875-888 | the first free name is unique, so that it determines what the search finds |
| PhotoNames.Library.Resolve | gphotos/gphotos.go:846-891 | the name itself or, with the first number from 2 on, base, hyphen, number, extension: the first of these not in use, within one try more than there are names in use; it is claimed, and taken as found iff a file has that name |
| PhotoNames.RecordKeeps | gphotos/gphotos.go:1275-1283 | recording unclaimed names keeps the index free of names listed twice |
| PhotoNames.Library.Write | gphotos/gphotos.go:1016-1043 | the file appears as received in full or not at all, then as written for that item; nothing else changes but a temp file, which stays behind if the rename fails |
| PhotoNames.Library.Fetch | gphotos/gphotos.go:987-1014 | a thumbnail or companion gets the first free name, is taken as found iff a file has that name, and is another item's afterwards iff that file was |
| PhotoNames.Library.FetchCompanions | gphotos/gphotos.go:1150-1191 | all companions are on disk and listed in order, each under the first name free when its turn came, or none is listed while their names stay claimed |
| PhotoNames.Library.FetchThumb | gphotos/gphotos.go:987-1014 | a video claims the first name free for its base with .jpg, which is listed after it exactly if it was had; anything else claims and gets none |
| PhotoNames.Library.FetchExtras | gphotos/gphotos.go:1494-1512 | the thumbnail and then the companions follow the first name, each only if had, and all are had if nothing fails |
| PhotoNames.Library.OneItem | gphotos/gphotos.go:1469-1512 | a new item gets the first free name; a file found there is adopted, whoever it was written for, without a change on disk; else it is downloaded and recorded under names nobody had, or skipped with its name claimed: first its own name, then, if the lower-cased extension is one of the eleven of videos, the thumbnail if it was had, under the first name free for its base with .jpg, then the companions if they were asked for and all were had, in order, and nothing else; the file is another item's afterwards iff one found there was |
| PhotoNames.Library.Filter | gphotos/gphotos.go:1427-1443 | the items up to the first one too old, less those the index has |
| PhotoNames.Library.Mirror | gphotos/gphotos.go:1337-1533 | at every crash point no name is in the saved index twice, old entries are kept, what new ones list is on disk, and no file that was there is lost or changed unless its name ends in .gphotos-tmp; a file a new entry lists is another item's if and only if it lay on disk unlisted when the run began and was another's then, temp names aside; no more items are adopted than there were such strays and temp files; a finished run accounts for every item up to the first too old or an empty page, and if nothing fails all of these are in the saved index, each new entry beginning with a name of its item |
| PhotoNames.WrongAdoption | gphotos/gphotos.go:866-891 | an item that gets as its own a file written for another |
| BinaryCookies.RecordConsumes | gphotos/gphotos.go:779-842 | the lengths telescope, so a record takes exactly its size iff its first field starts right after the header |
| BinaryCookies.FieldSpelled | gphotos/gphotos.go:792-817 | a field is the bytes before the first NUL of its span, and refused iff its bounds are reversed or the span is longer than what is left |
| BinaryCookies.RefusedEarly | gphotos/gphotos.go:685-785 | a file without its magic, a page without its tag, and either, or a record, that ends too early, are refused |
| BinaryCookies.RecordSpelled | gphotos/gphotos.go:661-672 | a record byte by byte: nine little-endian words, the end mark, two times, and the fields with their NULs, at the offsets given |
| BinaryCookies.PageSpelled | gphotos/gphotos.go:655-660 | a page: its tag, the count and the offsets in little-endian words, the end mark, its records |
| BinaryCookies.FileSpelled | gphotos/gphotos.go:648-654 | a file: its magic, the count and the page sizes in big-endian words, its pages |
| BinaryCookies.RecordRoundTrip | gphotos/gphotos.go:661-672 | decoding a record as laid out gives back its NUL-free fields whatever trailer follows the value, and stops at its end |
| BinaryCookies.PageRoundTrip | gphotos/gphotos.go:655-660 | decoding a page gives back its cookies, whatever its offsets say |
| BinaryCookies.FileRoundTrip | gphotos/gphotos.go:648-673 | decoding a file gives back the cookies of all its pages, whatever follows them |
| BinaryCookies.Reader.ReadField | gphotos/gphotos.go:792-817 | the field's bytes up to the first NUL, failing iff the bounds are reversed or the data too short |
| BinaryCookies.Reader.ParseRecord | gphotos/gphotos.go:779-842 | advances the reader exactly as decoding a record says and fails exactly when that does |
| BinaryCookies.Reader.ParsePage | gphotos/gphotos.go:741-777 | likewise for a page |
| BinaryCookies.ParseFile | gphotos/gphotos.go:685-720 | likewise for a file, up to the filtering of cookies |

## Left out

- Transport, authentication, REST handlers, the web interface, command lines and configuration files: plumbing; the network appears as arbitrary outcomes.
- Link extraction, listing detection, CSS, URL parsing and normalization, regular expressions, prefix matching of batches: a page comes with its links, a batch with the ids its prefix matches.
- Database errors other than the process stopping there: a run that meets one and goes on is not modelled.
- `archiveorg`, `sourceforge`, `groupsio`, `rsync`, `git`, `icloud`: linear loops, or in the last case an offset that moves past failed items, so that completeness does not hold.
- JobTable: columns no statement branches on (texts, methods, timestamps other than the creation time) are not represented.
- JobQueue.Queue.Register: starting the goroutine and entering it in the maps are one action, as both happen before the mutex is released or can be observed.
- QueueDrain.QueueDrains: is about behaviours in which every executor returns and each actor's turn comes again.
- LogHub.Hub.Remember: a buffer has its full backing array from the start; how append grows one is not modelled.
- HttpMirror.Crawler.MirrorAgainAndAgain: where a URL of the scope redirects out of it, whether the target is on record depends on the flag its row happens to have when it is fetched, so what is on record then lies between the closures without and with these redirects; files are kept by URL, while the program's local paths can coincide.
- HttpMirror.Crawler.Mirror: one start URL per database, as with one root the check for rows of another scope never fires; detection of git repositories at the start URL is not modelled.
- HttpMirror.Crawler.Save: of a body cut short the part is of the same kind and names no more than the whole; that a listing or a page can be mistaken for the other, or a link resolved without a base element that has not come, is not modelled.
- FtpMirror.Crawler.Mirror: one start path per database, a start path of a kind given from the start, and a listing that names nothing usable twice and stays the same during a run; symbolic links only take a place on disk, and their targets and following them locally are not modelled.
- FtpDownload.Transfer.Attempts: the listed size is known and right; with an unknown size Attempt promises only a prefix of the remote bytes, and a file that changes remotely between attempts is not modelled.
- GopherCrawl.Crawler.Mirror: is given the selector and the type that the start URL spells; assumes one type and one place of its own per selector, no places below a file, and nothing named 00README or ending in the temp suffix.
- GopherCrawl.Crawler.Fetch: a menu cut short loses whole lines only, and a start of unknown type looks like a menu or not however much of its first piece arrives.
- GopherModel.FollowedSpelled: upper and lower case of ASCII letters only.
- ImapSync.Maildir.MirrorMailbox: a changed UIDVALIDITY (messages are then still skipped by UID) and directory names with glob characters are not modelled; a marker's few bytes are written at once.
- ImapSync.Maildir.WriteMessage: a literal comes whole or with an error, as its length is announced; how the client library reports a connection lost inside one is not part of this model.
- PhotoNames.Library.Resolve: a Stat that fails for another reason than a missing file is not distinguished from one that finds it.
- PhotoNames.Library.OneItem: of an extension only ASCII letters are lowered.
- PhotoNames.Library.Write: the choice between photo and video bytes and the checks of content types are part of what can fail; whether what was received is all the server has is not modelled.
- BinaryCookies.ParseFile: allocation limits for absurd counts, the conversion of times and the filtering by host and expiry are not modelled.
