# Print-job broker: a Dafny model

This project models the core of a campus printing service. Students register,
top up their A4 balance, submit print jobs to named printers, and cancel jobs.
For each printer, a background dispatcher serves that printer's queue oldest
first. Administrators toggle printers on and off, query the printing history
and list maintenance windows.

The document store behind both routers is one class, `Database.Store`. It has
one field per collection:

- `students` and `printers` are maps keyed by student id and printer name.
- `waiting_sessions` is a sequence in insertion order. That is the `_id`
  order the dispatcher sorts on.
- The two history collections, `transactions` and `maintenances`, are
  sequences.
- The user router's process-wide `active_printers` flags are a map.

The modules are:

- `Seqs` holds the generic pieces: `Option`, and `Filter`, `FirstIndex`,
  `Map` and `RemoveAt` on sequences. These are what a `find`, a `find_one`
  sorted by `_id`, and a `delete_one` do to a collection kept in insertion
  order. Lemmas say how filters behave under appends, updates and removals.
- `Records` holds the records, the status strings, the startup printer list,
  the area of a printer name and the per-printer status write.
- `Jobs` holds the pure part of the user router:
  - the query filters and views;
  - the checks a submission makes, in order;
  - the job a submission inserts;
  - what a cancellation does to the job collection;
  - `RunFrom`, a whole dispatcher run as a function of the collection and of
    what happens to each held job during its hold, with the lemmas about it.
- `Database` holds the store.
- `UserRouter` holds the user router's handlers as methods on the store,
  including the dispatcher loop. The loop is proved to do what `RunFrom`
  says.
- `AdminRouter` holds the admin router:
  - both printer toggles;
  - the build of the history query's filter;
  - the `setdefault` normalization of each row;
  - the maintenance filter.

The dispatcher's 30-second hold is where other requests can act on the held
job. The model makes that a parameter, `hold: nat -> HoldEvent`, which says
what happens during the k-th hold:

- `NoCancel`: nothing happens to the job.
- `CancelledDuringHold`: one cancellation request flips the WAITING job to
  CANCELLED, so the re-read sees CANCELLED and the dispatcher deletes the job.
- `DeletedDuringHold`: a second cancellation request hard-deletes the job. The
  re-read then finds nothing, subscripting `None` raises, and the task dies.
  The printer stays UNAVAILABLE and `active_printers[p]` stays true. The model
  returns this as the `Crashed` outcome.

Where the code and the service's documented contract differ, the model
follows the code. These are the differences the model makes visible:

- Submission refuses only the exact status `"UNAVAILABLE"`, not every status
  other than AVAILABLE.
- Submission debits `pages*copies*copies` sheets, while the job records
  `pages*copies` pages (`Jobs.ChargeExceedsQueuedPages`).
- Top-up rejects only a missing or zero quantity or price, not every
  non-positive one.
- Cancelling a job that is no longer WAITING, whether already CANCELLED or
  COMPLETE, hard-deletes it (`Jobs.CancelSettledDeletes`). A COMPLETE job
  then drops out of `/completed_jobs`.
- A WAITING job cancelled before its dispatcher reaches it is never purged.
  The dispatcher's query only asks for WAITING jobs, so the CANCELLED skip
  after it never runs, and the job stays in the collection, invisible to
  every queue.
- The dispatcher marks itself active inside the background task, not
  atomically with the submission that schedules it.
- A dispatcher that dies leaves its activity flag set (see `Crashed` above).

## Model

| member | source | states |
|---|---|---|
| Records.Area | routers/user.py:248 | `split('-')[0]`: the result is a prefix of the name, contains no '-', and is followed by '-' or the end of the name |
| Records.AreaUnique | routers/user.py:248 | any prefix with those three properties is the area, so `Area`'s contract determines it |
| Records.AreaOfKnownPrinters | routers/user.py:195-199 | worked cases: the area of "B1-01" is "B1", of "B10-01" is "B10", and of the dash-free "LIB" is "LIB" |
| Records.WithStatus | routers/user.py:300 | a `$set` of a printer's status changes only that printer's status, keeps the key set, and leaves a missing printer missing |
| Records.WithStatusTwice | routers/user.py:339-340 | a later status write to the same printer overrides an earlier one |
| Jobs.PrinterQueue | routers/user.py:343-349 | `/printer_queue`: the WAITING jobs of the printer in insertion order (counted by `Jobs.QueueViewsCount`) |
| Jobs.CompletedJobs | routers/user.py:352-358 | `/completed_jobs`: the COMPLETE jobs of the printer in insertion order (counted by `Jobs.QueueViewsCount`) |
| Jobs.QueueViewsCount | routers/user.py:343-358 | each view lists every stored job of the printer in its status exactly as often as it is stored, and no other job |
| Jobs.AvailablePrinters | routers/user.py:116-119 | `/get_available_printers`: names of stored printers only, those whose status is exactly "AVAILABLE" |
| Jobs.AcceptsJobs | routers/user.py:227-229 | the submission's printer check: the printer exists and its status is not exactly "UNAVAILABLE" |
| Jobs.Debited | routers/user.py:241-243 | the student after a submission: the balance plus the charge is the old balance, the printed count rises by `copies`, and no other field changes |
| Jobs.NewJob | routers/user.py:248-261 | the inserted job is WAITING, not completed, on the printer at its place and area, records the given ids and copies, and its pages times `copies` is the charge |
| Jobs.MarkComplete | routers/user.py:311-314 | the dispatcher's `$set` of status COMPLETE and the completion time |
| Jobs.HistoryOf | routers/user.py:315-324 | the `printing_history` row written for a completed job |
| Jobs.AdminDocOf | routers/user.py:325-335 | the `admin_printing_history` document written for a completed job, with student name and area |
| Jobs.NextWaitingIsQueueHead | routers/user.py:284-286 | the job the dispatcher picks is the head of the ordered queue `/printer_queue` shows, is on that printer and WAITING, and there is none exactly when that queue is empty |
| Jobs.AppendJoinsQueueTail | routers/user.py:249-261 | an inserted job joins the back of its printer's WAITING queue and no other queue changes |
| Jobs.AvailablePrintersAcceptJobs | routers/user.py:116-119 | every printer `/get_available_printers` lists passes the submission's printer check |
| Jobs.SubmitCheck | routers/user.py:227-239 | the three refusals in their order, each as an if-and-only-if: printer missing or UNAVAILABLE, then student missing, then balance below `pages*copies*copies`; no error exactly when all three pass |
| Jobs.ChargeExceedsQueuedPages | routers/user.py:231-254 | the debit is the recorded job's `pages` times `copies`, and it exceeds that count whenever more than one copy of a non-empty document is asked for |
| Jobs.Cancel | routers/user.py:134-152 | an unknown file id fails with SessionNotFound; without `dele` nothing changes; with `dele` the first job with the id is flipped exactly when it is WAITING (same length, that job now CANCELLED) and deleted exactly when it is not (one job fewer) |
| Jobs.CancelSettledDeletes | routers/user.py:139-148 | a job that is no longer WAITING is deleted outright, and a COMPLETE one leaves its printer's `/completed_jobs` while every other printer's view stays |
| Jobs.CancelTwiceDeletes | routers/user.py:139-146 | a WAITING job is flipped to CANCELLED in place by the first cancellation and deleted by the second |
| Jobs.CancelOnlyShrinksQueues | routers/user.py:139-146 | a known file id always succeeds; a flip removes exactly that job from its printer's WAITING queue; a deletion or an ignored request leaves every queue as it was |
| Jobs.AfterHold | routers/user.py:304-314 | serving the held job strictly shrinks the printer's WAITING queue (the loop's termination measure) |
| Jobs.ServeDropsHead | routers/user.py:284-314 | serving takes the head off the printer's queue, leaves other printers' jobs and cancelled jobs alone, and adds exactly the completed job to `/completed_jobs` when no cancellation came |
| Jobs.RunFrom | routers/user.py:280-335 | the dispatcher loop as a function: it completes no more jobs than it holds, holds no more than the printer's WAITING queue, and holds at least one job when it crashes; the lemmas below state what it does |
| Jobs.RunConsumesQueue | routers/user.py:280-335 | a run holds a prefix of the printer's queue in order and leaves the rest of the queue waiting; a drained run held the whole queue |
| Jobs.RunSparesBystanders | routers/user.py:284-286 | a run leaves the jobs of other printers and the cancelled jobs exactly as they were, in order |
| Jobs.RunCompletesJobs | routers/user.py:311-314 | after a run, the COMPLETE jobs of the printer are those before it plus the completed forms of the jobs it completed |
| Jobs.RunCompletesSurvivors | routers/user.py:305-314 | a run completes exactly the held jobs whose hold saw no cancellation, in order |
| Jobs.RunCrashesOnDeletion | routers/user.py:303-304 | a run crashes exactly when some hold saw a deletion, and that hold was the last one |
| Jobs.SurvivorsWithoutCancellation | routers/user.py:305-314 | with no cancellation during any hold, every held job survives |
| Jobs.RunWithoutCancellation | routers/user.py:280-335 | with no cancellation, a run drains the queue and completes every job of it in insertion order |
| UserRouter.AddPersonalInformation | routers/user.py:38-51 | a student id already on file is refused with no change; otherwise exactly that student is added, so every student stays filed under its own id |
| UserRouter.CreateTransaction | routers/user.py:162-187 | a missing or zero quantity or price, then an unknown student, are refused with no change; otherwise the balance rises by exactly the quantity and one transaction row is appended |
| UserRouter.Upserted | routers/user.py:202-207 | an upserted printer is AVAILABLE with no note and keeps its other fields |
| UserRouter.UpsertAvailable | routers/user.py:202-207 | after the loop, exactly the old printers and the listed names are present; listed ones are upserted, others untouched |
| UserRouter.InitPrinters | routers/user.py:195-207 | the same for the fourteen startup printers |
| UserRouter.PrintDocument | routers/user.py:212-270 | a refusal is exactly `SubmitCheck`'s error and changes nothing; a success debits exactly `pages*copies*copies` (never below zero), adds `copies` to the printed count, appends exactly one WAITING job with `pages*copies` pages and the printer's area to the back of its queue, changes no other job, and schedules a dispatcher exactly when none is marked active |
| UserRouter.ConfirmPrinting | routers/user.py:127-156 | a request without a file id fails with no change; otherwise the collection and outcome are those of `Cancel` |
| UserRouter.ServeHeldJob | routers/user.py:299-335 | after the hold the job is deleted with no history when cancelled, or set COMPLETE with exactly one user history row and one admin document |
| UserRouter.StopIdle | routers/user.py:288-292 | a pass that finds no WAITING job sets the printer AVAILABLE and ends the run drained |
| UserRouter.StopCrashed | routers/user.py:303-304 | a pass whose job was deleted during the hold ends the run as a crash, with the printer UNAVAILABLE |
| UserRouter.ServeHeld | routers/user.py:299-335 | a pass whose job survived the hold keeps the loop invariant and strictly shrinks the queue |
| UserRouter.ServeStep | routers/user.py:280-335 | one pass either ends the run as `RunFrom` says, or keeps the loop invariant and strictly shrinks the printer's WAITING queue |
| UserRouter.ServeQueue | routers/user.py:280-338 | the loop terminates; the jobs it holds and completes and the collection it leaves are `RunFrom`'s; each completed job has its history row and document; the printer ends AVAILABLE when drained and UNAVAILABLE when crashed |
| UserRouter.ProcessPrinterQueue | routers/user.py:273-340 | the same for the whole task: a drained run ends with the flag false and the printer AVAILABLE, and a crashed one with the flag still true and the printer UNAVAILABLE |
| AdminRouter.Toggled | routers/admin.py:127-151 | AVAILABLE and UNAVAILABLE swap, each as an if-and-only-if, and any other status is left alone |
| AdminRouter.ToggleTwiceRestores | routers/admin.py:127-151 | toggling a printer twice by name restores the printer collection |
| AdminRouter.TogglePrinterStatus | routers/admin.py:112-155 | an unknown name fails with no change; otherwise only that printer's status changes, to its toggled status, and an unknown status stays |
| AdminRouter.LegacyToggled | routers/admin.py:50 | the result is always lower case, and it is "available" exactly when the old status was "unavailable" |
| AdminRouter.LegacyToggleCases | routers/admin.py:50 | the two lower-case statuses swap; an upper-case AVAILABLE goes to "unavailable" and does not come back by toggling twice |
| AdminRouter.LegacyToggleKeepsAccepting | routers/admin.py:50-52 | switching an AVAILABLE printer "off" with the legacy toggle leaves it accepting submissions |
| AdminRouter.ToggleStatusById | routers/admin.py:45-53 | an unknown printer id fails with no change; otherwise a printer carrying that id gets the legacy-toggled status and nothing else changes |
| AdminRouter.BuildFilters | routers/admin.py:59-66 | a document matches the built filter exactly when it has each supplied argument among area, printer and studentId; omitted or empty arguments constrain nothing |
| AdminRouter.Normalize | routers/admin.py:94-99 | no existing field changes; each of the five fields is added when missing, from its source field or else its fallback |
| AdminRouter.NormalizeIdempotent | routers/admin.py:94-99 | normalizing twice is normalizing once |
| AdminRouter.NormalizeKeepsRequested | routers/admin.py:94-99 | a normalized row still has what was asked for |
| AdminRouter.DispatcherDocNormalized | routers/admin.py:94-99 | an admin document the dispatcher writes comes out of the query with its file name, time, copies, student name and place |
| AdminRouter.GetPrintingHistory | routers/admin.py:56-101 | the answer is the stored documents asked for, in insertion order, each normalized |
| AdminRouter.HistoryRowsRequested | routers/admin.py:89-101 | every row of the answer has what was asked for |
| AdminRouter.HistoryQueryComplete | routers/admin.py:89-101 | every stored document that has what was asked for appears, normalized, in the answer |
| AdminRouter.GetMaintenances | routers/admin.py:20-24 | with `ended` true, the ENDED maintenances in insertion order, each exactly as often as it is stored; otherwise all of them, in order |

## Left out

- I/O is replaced. The HTTP layer, the header that carries the student id,
  the log output and the response texts are not modelled. Each failure is an
  `Error` value. The broad `except` blocks turn every failure into a 500; the
  model keeps each error's own kind instead of that code.
- The clock is a parameter. The router computes one timestamp at import.
  The model takes it as the `now` parameter and leaves out the UTC+7
  conversion and formatting.
- The random ten-digit `fileId` is a parameter; nothing makes it unique.
- The history query's `time_filter` (routers/admin.py:67-86) is left out.
  It compares ISO strings against the clock.
- `get_pdf` (GridFS streaming) is left out. So are the user router's own
  history, session and transaction views, `add_maintenance`,
  `add_file_type`, `get_student_information` and `get_all_printers_status`.
- Concurrency is left out. `BackgroundTasks` scheduling is only a boolean
  result of `UserRouter.PrintDocument`: whether a dispatcher is scheduled.
  The hold is the only point where anything else acts, and it can only
  cancel or delete the held job. Submissions during a run, two dispatchers
  of one printer, and the race on `active_printers` are not modelled.
- UserRouter.ProcessPrinterQueue: the flag is cleared after the loop rather
  than just before leaving it. Nothing reads the flag in between, so the
  final state is the same.
- The CANCELLED skip right after the dispatcher's query
  (routers/user.py:294-298) is unreachable, because the query asks for WAITING
  jobs. So jobs cancelled while still WAITING are never purged; they stay in
  the collection, invisible to every queue.
- AdminRouter.TogglePrinterStatus: the branch where the re-read sees
  AVAILABLE (routers/admin.py:139-145) is unreachable in a sequential run and
  is proved so. The model answers `None` for an unknown status, where the
  handler returns nothing.
- AdminRouter.ToggleStatusById: printers are keyed by name, so when several
  carry the same `printerId` one of them is chosen. The store would update
  the first it meets.
- AdminRouter.Normalize: the five `setdefault` calls are one map merge. No
  call reads a field an earlier one writes, so the order does not matter.
- Stored documents: `admin_printing_history` documents are maps of string
  and integer fields, the other collections are records with the fields
  the routers write, and `_id` is not modelled (order stands in for it).
- UserRouter.PrintDocument: `pages` and `copies` are integers. A missing
  value, which makes the handler's multiplication raise, is not modelled.
- UserRouter.CreateTransaction: the title and payment texts of the
  transaction row are kept as the two numbers they are rendered from.
