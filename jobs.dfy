/** The pure parts of the user router: the filters its queries use, the checks
    `print_document` makes before it writes, the records it and the dispatcher
    write, and what a cancellation request does to the job collection. */
module Jobs {
  import opened Seqs
  import opened Records

  /** `{"printer": p, "status": "WAITING"}`, the filter of the dispatcher and
      of `/printer_queue`. */
  function Queued(p: string): Job -> bool {
    (j: Job) => j.printer == p && j.status == Waiting
  }

  /** `{"printer": p, "status": "COMPLETE"}`, the filter of `/completed_jobs`. */
  function CompleteOn(p: string): Job -> bool {
    (j: Job) => j.printer == p && j.status == Complete
  }

  /** The jobs the dispatcher of `p` neither selects nor completes: those of
      other printers and those already cancelled. */
  function Bystander(p: string): Job -> bool {
    (j: Job) => j.printer != p || j.status == Cancelled
  }

  /** `{"fileId": fileId}`, the filter of `/confirm_printing`. */
  function HasFileId(fileId: string): Job -> bool {
    (j: Job) => j.fileId == fileId
  }

  /** `/printer_queue`: the WAITING jobs of `p`, oldest first. */
  function PrinterQueue(jobs: seq<Job>, p: string): seq<Job> {
    Filter(jobs, Queued(p))
  }

  /** The job the dispatcher of `p` picks next: the oldest WAITING one. */
  function NextWaiting(jobs: seq<Job>, p: string): Option<nat> {
    FirstIndex(jobs, Queued(p))
  }

  /** `/completed_jobs`: the COMPLETE jobs of `p`. */
  function CompletedJobs(jobs: seq<Job>, p: string): seq<Job> {
    Filter(jobs, CompleteOn(p))
  }

  /** The two per-printer views list each stored job of `p` in the right
      status as often as it is stored, and nothing else. */
  lemma QueueViewsCount(jobs: seq<Job>, p: string)
    ensures forall j :: multiset(PrinterQueue(jobs, p))[j] ==
                        (if j.printer == p && j.status == Waiting then multiset(jobs)[j] else 0)
    ensures forall j :: multiset(CompletedJobs(jobs, p))[j] ==
                        (if j.printer == p && j.status == Complete then multiset(jobs)[j] else 0)
  {
    FilterCount(jobs, Queued(p));
    FilterCount(jobs, CompleteOn(p));
  }

  /** `/get_available_printers`: the names whose status is exactly "AVAILABLE". */
  function AvailablePrinters(printers: map<string, Printer>): (r: set<string>)
    ensures r <= printers.Keys
  {
    set n | n in printers && printers[n].status == AVAILABLE
  }

  /** The job the dispatcher picks is the head of the queue `/printer_queue`
      shows, and there is none exactly when that queue is empty. */
  lemma NextWaitingIsQueueHead(jobs: seq<Job>, p: string)
    ensures NextWaiting(jobs, p).None? <==> PrinterQueue(jobs, p) == []
    ensures NextWaiting(jobs, p).Some? ==>
      var i := NextWaiting(jobs, p).value;
      PrinterQueue(jobs, p)[0] == jobs[i] && jobs[i].printer == p && jobs[i].status == Waiting
  {
    FirstIndexIsHead(jobs, Queued(p));
  }

  /** A job appended to the collection joins the back of its printer's queue
      and leaves every other printer's queue as it was. */
  lemma AppendJoinsQueueTail(jobs: seq<Job>, job: Job, p: string)
    ensures PrinterQueue(jobs + [job], p) ==
      PrinterQueue(jobs, p) + (if job.printer == p && job.status == Waiting then [job] else [])
  {
    FilterAppend(jobs, [job], Queued(p));
    assert [job][1..] == [];
  }

  /** `print_document`'s printer check: the printer exists and its status is
      not exactly "UNAVAILABLE". */
  predicate AcceptsJobs(printers: map<string, Printer>, name: string) {
    name in printers && printers[name].status != UNAVAILABLE
  }

  /** Every printer `/get_available_printers` lists passes the printer check. */
  lemma AvailablePrintersAcceptJobs(printers: map<string, Printer>, name: string)
    requires name in AvailablePrinters(printers)
    ensures AcceptsJobs(printers, name)
  {
  }

  /** The A4 sheets a submission debits: the page count times the copies,
      times the copies again. */
  function Charge(pages: int, copies: int): int {
    pages * copies * copies
  }

  /** The checks of `print_document`, in order; `None` when all pass. */
  function SubmitCheck(printers: map<string, Printer>, students: map<string, Student>,
                       studentId: string, printer: string, pages: int, copies: int): (e: Option<Error>)
    ensures e == Some(PrinterUnavailable) <==> !AcceptsJobs(printers, printer)
    ensures e == Some(StudentNotFound) <==> AcceptsJobs(printers, printer) && studentId !in students
    ensures e == Some(NotEnoughPages) <==>
      AcceptsJobs(printers, printer) && studentId in students && students[studentId].numberOfA4 < Charge(pages, copies)
    ensures e.None? <==>
      AcceptsJobs(printers, printer) && studentId in students && students[studentId].numberOfA4 >= Charge(pages, copies)
  {
    if !AcceptsJobs(printers, printer) then Some(PrinterUnavailable)
    else if studentId !in students then Some(StudentNotFound)
    else if students[studentId].numberOfA4 < Charge(pages, copies) then Some(NotEnoughPages)
    else None
  }

  /** The student record after a successful submission: the charge is taken
      off the balance, `copies` is added to the printed count, and nothing
      else changes. */
  function Debited(s: Student, pages: int, copies: int): (r: Student)
    ensures r.numberOfA4 + Charge(pages, copies) == s.numberOfA4
    ensures r.numberOfPrintedDocs - s.numberOfPrintedDocs == copies
    ensures r.(numberOfA4 := s.numberOfA4, numberOfPrintedDocs := s.numberOfPrintedDocs) == s
  {
    s.(numberOfA4 := s.numberOfA4 - Charge(pages, copies),
       numberOfPrintedDocs := s.numberOfPrintedDocs + copies)
  }

  /** The job a successful submission inserts: WAITING on the printer, at
      the printer's place and area, recording `pages * copies` pages, which
      the charge is `copies` times, and not completed yet. */
  function NewJob(s: Student, studentId: string, fileName: string, fileId: string,
                  pages: int, copies: int, printer: string, now: string): (r: Job)
    ensures r.status == Waiting && r.completionTime == None
    ensures r.printer == printer && r.place == printer && r.area == Area(printer)
    ensures r.pages * copies == Charge(pages, copies)
    ensures r.studentName == s.name && r.studentId == studentId && r.fileId == fileId && r.copies == copies
  {
    Job(s.name, studentId, fileName, fileId, pages * copies, printer, printer, copies,
        Area(printer), Waiting, now, None)
  }

  /** The debit exceeds the page count the job records whenever more than one
      copy of a non-empty document is asked for: the job keeps
      `pages * copies`, the student pays that many sheets `copies` times. */
  lemma ChargeExceedsQueuedPages(s: Student, studentId: string, fileName: string, fileId: string,
                                 pages: int, copies: int, printer: string, now: string)
    requires pages > 0 && copies > 1
    ensures Charge(pages, copies) == NewJob(s, studentId, fileName, fileId, pages, copies, printer, now).pages * copies
    ensures Charge(pages, copies) > NewJob(s, studentId, fileName, fileId, pages, copies, printer, now).pages
  {
    var t := pages * copies;
    assert t > 0 by {
      assert pages * copies >= pages * 1;
    }
    assert t * copies >= t * 2;
  }

  /** What `/confirm_printing` reports on success. */
  datatype CancelOutcome = Flipped | Deleted | Ignored

  datatype Cancellation = Cancellation(jobs: seq<Job>, outcome: CancelOutcome)

  /** `/confirm_printing` on the job collection: the first job with the file
      id is looked up; with `dele` a WAITING job becomes CANCELLED and any
      other is deleted; without `dele` nothing changes. */
  function Cancel(jobs: seq<Job>, fileId: string, dele: bool): (r: Result<Cancellation>)
    ensures r.Err? <==> FirstIndex(jobs, HasFileId(fileId)).None?
    ensures r.Err? ==> r.error == SessionNotFound
    ensures r.Ok? && !dele ==> r.value == Cancellation(jobs, Ignored)
    ensures r.Ok? && dele ==>
      var i := FirstIndex(jobs, HasFileId(fileId)).value;
      && (r.value.outcome == Flipped <==> jobs[i].status == Waiting)
      && (r.value.outcome == Deleted <==> jobs[i].status != Waiting)
      && (r.value.outcome == Flipped ==> |r.value.jobs| == |jobs| && r.value.jobs[i].status == Cancelled)
      && (r.value.outcome == Deleted ==> |r.value.jobs| == |jobs| - 1)
  {
    match FirstIndex(jobs, HasFileId(fileId))
    case None => Err(SessionNotFound)
    case Some(i) =>
      if !dele then Ok(Cancellation(jobs, Ignored))
      else if jobs[i].status == Waiting then Ok(Cancellation(jobs[i := jobs[i].(status := Cancelled)], Flipped))
      else Ok(Cancellation(RemoveAt(jobs, i), Deleted))
  }

  /** Cancelling a WAITING job twice first flips it to CANCELLED, in place,
      and then deletes it. */
  lemma CancelTwiceDeletes(jobs: seq<Job>, fileId: string, i: nat)
    requires FirstIndex(jobs, HasFileId(fileId)) == Some(i) && jobs[i].status == Waiting
    ensures Cancel(jobs, fileId, true) == Ok(Cancellation(jobs[i := jobs[i].(status := Cancelled)], Flipped))
    ensures Cancel(Cancel(jobs, fileId, true).value.jobs, fileId, true) == Ok(Cancellation(RemoveAt(jobs, i), Deleted))
  {
    var flipped := jobs[i := jobs[i].(status := Cancelled)];
    FirstIndexUnique(flipped, i, HasFileId(fileId));
    assert RemoveAt(flipped, i) == RemoveAt(jobs, i);
  }

  /** Cancelling a job that is no longer WAITING (already CANCELLED, or
      COMPLETE) deletes it outright; a COMPLETE one drops out of its
      printer's `/completed_jobs`, and every other printer's view stays. */
  lemma CancelSettledDeletes(jobs: seq<Job>, fileId: string, i: nat, p: string)
    requires FirstIndex(jobs, HasFileId(fileId)) == Some(i) && jobs[i].status != Waiting
    ensures Cancel(jobs, fileId, true) == Ok(Cancellation(RemoveAt(jobs, i), Deleted))
    ensures multiset(CompletedJobs(RemoveAt(jobs, i), p)) ==
      multiset(CompletedJobs(jobs, p)) - (if jobs[i].printer == p && jobs[i].status == Complete then multiset{jobs[i]} else multiset{})
  {
    FilterRemove(jobs, i, CompleteOn(p));
  }

  /** A cancellation never puts a job into any printer's queue: flipping takes
      the flipped job out of its printer's queue and a deletion or an ignored
      request leaves every queue as it was. */
  lemma CancelOnlyShrinksQueues(jobs: seq<Job>, fileId: string, dele: bool, i: nat, p: string)
    requires FirstIndex(jobs, HasFileId(fileId)) == Some(i)
    ensures Cancel(jobs, fileId, dele).Ok?
    ensures var c := Cancel(jobs, fileId, dele).value;
      && (c.outcome == Flipped ==>
            multiset(PrinterQueue(c.jobs, p)) ==
            multiset(PrinterQueue(jobs, p)) - (if jobs[i].printer == p then multiset{jobs[i]} else multiset{}))
      && (c.outcome != Flipped ==> PrinterQueue(c.jobs, p) == PrinterQueue(jobs, p))
  {
    if dele {
      if jobs[i].status == Waiting {
        FilterUpdateOut(jobs, i, jobs[i].(status := Cancelled), Queued(p));
      } else {
        FilterRemoveOutside(jobs, i, Queued(p));
      }
    }
  }

  /** What happens to the held job during the dispatcher's 30-second hold:
      no cancellation request reaches it; one does (it was WAITING, so it
      is flipped to CANCELLED); or a second one does (it is no longer
      WAITING, so it is deleted). */
  datatype HoldEvent = NoCancel | CancelledDuringHold | DeletedDuringHold

  /** How a dispatcher run ends: the queue ran dry, or the re-read after a
      hold found no job and the task died. */
  datatype DispatchOutcome = Drained | Crashed

  /** The `$set` of status COMPLETE and completion time. */
  function MarkComplete(now: string): Job -> Job {
    (j: Job) => j.(status := Complete, completionTime := Some(now))
  }

  /** The `printing_history` row written for a completed job. */
  function HistoryOf(now: string): Job -> HistoryRow {
    (j: Job) => HistoryRow(j.studentId, now, j.fileName, j.pages, j.place, j.printer, j.copies, j.fileId)
  }

  /** The `admin_printing_history` document written for a completed job. */
  function AdminDocOf(now: string): Job -> Doc {
    (j: Job) => map[
      "studentName" := Str(j.studentName),
      "studentId" := Str(j.studentId),
      "time" := Str(now),
      "fileName" := Str(j.fileName),
      "pages" := Int(j.pages),
      "place" := Str(j.place),
      "printer" := Str(j.printer),
      "area" := Str(j.area),
      "copies" := Int(j.copies)]
  }

  /** The job collection after job `i` of the queue was held and `e`
      happened during the hold: a job left alone is set COMPLETE; a job
      cancelled once is CANCELLED at the re-read and deleted by the
      dispatcher; a job cancelled twice was deleted by the second request. */
  function AfterHold(w: seq<Job>, i: nat, e: HoldEvent, now: string, p: string): (r: seq<Job>)
    requires NextWaiting(w, p) == Some(i)
    ensures |PrinterQueue(r, p)| < |PrinterQueue(w, p)|
  {
    if e == NoCancel then
      FilterUpdateFirst(w, i, MarkComplete(now)(w[i]), Queued(p));
      w[i := MarkComplete(now)(w[i])]
    else
      FilterRemoveFirst(w, i, Queued(p));
      RemoveAt(w, i)
  }

  /** Serving the next WAITING job of `p` takes it off the head of the queue,
      leaves the jobs of other printers and the cancelled ones alone, and
      adds its completed form to the COMPLETE jobs when nothing cancelled it. */
  lemma ServeDropsHead(w: seq<Job>, p: string, now: string, i: nat, e: HoldEvent)
    requires NextWaiting(w, p) == Some(i)
    ensures PrinterQueue(w, p) != [] && PrinterQueue(w, p)[0] == w[i]
    ensures PrinterQueue(AfterHold(w, i, e, now, p), p) == PrinterQueue(w, p)[1..]
    ensures Filter(AfterHold(w, i, e, now, p), Bystander(p)) == Filter(w, Bystander(p))
    ensures multiset(CompletedJobs(AfterHold(w, i, e, now, p), p)) ==
      multiset(CompletedJobs(w, p)) + (if e == NoCancel then multiset{MarkComplete(now)(w[i])} else multiset{})
  {
    NextWaitingIsQueueHead(w, p);
    if e == NoCancel {
      var done := MarkComplete(now)(w[i]);
      FilterUpdateFirst(w, i, done, Queued(p));
      FilterUpdateOutside(w, i, done, Bystander(p));
      FilterUpdateInto(w, i, done, CompleteOn(p));
    } else {
      FilterRemoveFirst(w, i, Queued(p));
      FilterRemoveOutside(w, i, Bystander(p));
      FilterRemoveOutside(w, i, CompleteOn(p));
    }
  }

  /** The result of a dispatcher run: how it ended, the job collection it
      left, the jobs it held in order, and the ones it completed. */
  datatype Run = Run(outcome: DispatchOutcome, waiting: seq<Job>, held: seq<Job>, completed: seq<Job>)

  /** A dispatcher run of `p` over the job collection `w`, from hold number
      `k` on: serve the oldest WAITING job until there is none, or until a
      job deleted during its hold ends the run. */
  function RunFrom(w: seq<Job>, p: string, now: string, hold: nat -> HoldEvent, k: nat): (r: Run)
    ensures |r.completed| <= |r.held| <= |PrinterQueue(w, p)|
    ensures r.outcome == Crashed ==> r.held != []
    decreases |PrinterQueue(w, p)|
  {
    match NextWaiting(w, p)
    case None => Run(Drained, w, [], [])
    case Some(i) =>
      var e := hold(k);
      if e == DeletedDuringHold then Run(Crashed, AfterHold(w, i, e, now, p), [w[i]], [])
      else
        var rest := RunFrom(AfterHold(w, i, e, now, p), p, now, hold, k + 1);
        Run(rest.outcome, rest.waiting, [w[i]] + rest.held,
            (if e == NoCancel then [w[i]] else []) + rest.completed)
  }

  /** A run already `held` jobs and `completed` some of them before `r`. */
  function Resume(held: seq<Job>, completed: seq<Job>, r: Run): Run {
    Run(r.outcome, r.waiting, held + r.held, completed + r.completed)
  }

  /** Resuming twice is resuming once with both prefixes. */
  lemma ResumeTwice(held: seq<Job>, completed: seq<Job>, held2: seq<Job>, completed2: seq<Job>, r: Run)
    ensures Resume(held, completed, Resume(held2, completed2, r)) == Resume(held + held2, completed + completed2, r)
  {
    assert held + (held2 + r.held) == (held + held2) + r.held;
    assert completed + (completed2 + r.completed) == (completed + completed2) + r.completed;
  }

  /** The jobs held from hold number `k` on whose hold saw no cancellation. */
  function Survivors(held: seq<Job>, hold: nat -> HoldEvent, k: nat): (r: seq<Job>)
    ensures |r| <= |held|
  {
    if held == [] then []
    else (if hold(k) == NoCancel then [held[0]] else []) + Survivors(held[1..], hold, k + 1)
  }

  /** One step of a run, unfolded. */
  lemma RunUnfolds(w: seq<Job>, p: string, now: string, hold: nat -> HoldEvent, k: nat)
    ensures NextWaiting(w, p).None? ==> RunFrom(w, p, now, hold, k) == Run(Drained, w, [], [])
    ensures NextWaiting(w, p).Some? ==>
      var i, e := NextWaiting(w, p).value, hold(k);
      RunFrom(w, p, now, hold, k) ==
        if e == DeletedDuringHold then Run(Crashed, AfterHold(w, i, e, now, p), [w[i]], [])
        else Resume([w[i]], if e == NoCancel then [w[i]] else [], RunFrom(AfterHold(w, i, e, now, p), p, now, hold, k + 1))
  {
  }

  /** A run over a collection with no WAITING job of `p` drains at once. */
  lemma RunStopsWhenEmpty(w: seq<Job>, p: string, now: string, hold: nat -> HoldEvent, k: nat)
    requires NextWaiting(w, p).None?
    ensures RunFrom(w, p, now, hold, k) == Run(Drained, w, [], [])
  {
  }

  /** A run whose next held job is deleted during its hold ends there. */
  lemma RunStopsOnDeletion(w: seq<Job>, p: string, now: string, hold: nat -> HoldEvent, k: nat, i: nat)
    requires NextWaiting(w, p) == Some(i) && hold(k) == DeletedDuringHold
    ensures RunFrom(w, p, now, hold, k) == Run(Crashed, RemoveAt(w, i), [w[i]], [])
  {
  }

  /** A run whose next held job survives its hold goes on with one job fewer
      in the queue. */
  lemma RunContinues(w: seq<Job>, p: string, now: string, hold: nat -> HoldEvent, k: nat, i: nat)
    requires NextWaiting(w, p) == Some(i) && hold(k) != DeletedDuringHold
    ensures |PrinterQueue(AfterHold(w, i, hold(k), now, p), p)| < |PrinterQueue(w, p)|
    ensures RunFrom(w, p, now, hold, k) ==
      Resume([w[i]], if hold(k) == NoCancel then [w[i]] else [], RunFrom(AfterHold(w, i, hold(k), now, p), p, now, hold, k + 1))
  {
    ServeDropsHead(w, p, now, i, hold(k));
  }

  /** A run holds the front of the printer's queue, in order, and leaves the
      rest of the queue waiting; a run that drains holds all of it. */
  lemma {:induction false} RunConsumesQueue(w: seq<Job>, p: string, now: string, hold: nat -> HoldEvent, k: nat)
    ensures var r, q := RunFrom(w, p, now, hold, k), PrinterQueue(w, p);
      && |r.held| <= |q| && r.held == q[..|r.held|]
      && PrinterQueue(r.waiting, p) == q[|r.held|..]
      && (r.outcome == Drained ==> r.held == q)
    decreases |PrinterQueue(w, p)|
  {
    NextWaitingIsQueueHead(w, p);
    match NextWaiting(w, p)
    case None =>
      RunStopsWhenEmpty(w, p, now, hold, k);
    case Some(i) =>
      var q := PrinterQueue(w, p);
      var e := hold(k);
      ServeDropsHead(w, p, now, i, e);
      if e == DeletedDuringHold {
        RunStopsOnDeletion(w, p, now, hold, k, i);
        PrefixCons(q, []);
      } else {
        RunContinues(w, p, now, hold, k, i);
        var w' := AfterHold(w, i, e, now, p);
        RunConsumesQueue(w', p, now, hold, k + 1);
        PrefixCons(q, RunFrom(w', p, now, hold, k + 1).held);
      }
  }

  /** A run never touches the jobs of other printers or the cancelled ones. */
  lemma {:induction false} RunSparesBystanders(w: seq<Job>, p: string, now: string, hold: nat -> HoldEvent, k: nat)
    ensures Filter(RunFrom(w, p, now, hold, k).waiting, Bystander(p)) == Filter(w, Bystander(p))
    decreases |PrinterQueue(w, p)|
  {
    RunUnfolds(w, p, now, hold, k);
    if next: nat :| NextWaiting(w, p) == Some(next) {
      var e := hold(k);
      ServeDropsHead(w, p, now, next, e);
      if e != DeletedDuringHold {
        RunSparesBystanders(AfterHold(w, next, e, now, p), p, now, hold, k + 1);
      }
    }
  }

  /** The COMPLETE jobs of `p` after a run are those before it plus the
      completed forms of the jobs the run completed. */
  lemma {:induction false} RunCompletesJobs(w: seq<Job>, p: string, now: string, hold: nat -> HoldEvent, k: nat)
    ensures var r := RunFrom(w, p, now, hold, k);
      multiset(CompletedJobs(r.waiting, p)) == multiset(CompletedJobs(w, p)) + multiset(Map(r.completed, MarkComplete(now)))
    decreases |PrinterQueue(w, p)|
  {
    match NextWaiting(w, p)
    case None =>
      RunStopsWhenEmpty(w, p, now, hold, k);
    case Some(i) =>
      var e := hold(k);
      ServeDropsHead(w, p, now, i, e);
      if e == DeletedDuringHold {
        RunStopsOnDeletion(w, p, now, hold, k, i);
      } else {
        RunContinues(w, p, now, hold, k, i);
        var w' := AfterHold(w, i, e, now, p);
        RunCompletesJobs(w', p, now, hold, k + 1);
        var front := if e == NoCancel then [w[i]] else [];
        CompletesStep(w, w', p, RunFrom(w, p, now, hold, k), RunFrom(w', p, now, hold, k + 1),
                      front, MarkComplete(now), e == NoCancel, w[i]);
      }
  }

  /** One pass of `RunCompletesJobs`, on values: the pass added `x`'s
      completed form to the COMPLETE jobs when it survived, and the rest of
      the run `rest` added the completed forms of its own. */
  lemma CompletesStep(w: seq<Job>, w': seq<Job>, p: string, r: Run, rest: Run,
                      front: seq<Job>, m: Job -> Job, survived: bool, x: Job)
    requires front == (if survived then [x] else [])
    requires r.waiting == rest.waiting && r.completed == front + rest.completed
    requires multiset(CompletedJobs(w', p)) == multiset(CompletedJobs(w, p)) + (if survived then multiset{m(x)} else multiset{})
    requires multiset(CompletedJobs(rest.waiting, p)) == multiset(CompletedJobs(w', p)) + multiset(Map(rest.completed, m))
    ensures multiset(CompletedJobs(r.waiting, p)) == multiset(CompletedJobs(w, p)) + multiset(Map(r.completed, m))
  {
    MapConcat(front, rest.completed, m);
    assert multiset(Map(front, m)) == if survived then multiset{m(x)} else multiset{};
  }

  /** A run completes exactly the held jobs whose hold saw no cancellation. */
  lemma {:induction false} RunCompletesSurvivors(w: seq<Job>, p: string, now: string, hold: nat -> HoldEvent, k: nat)
    ensures var r := RunFrom(w, p, now, hold, k);
      r.completed == Survivors(r.held, hold, k)
    decreases |PrinterQueue(w, p)|
  {
    RunUnfolds(w, p, now, hold, k);
    if next: nat :| NextWaiting(w, p) == Some(next) {
      var e := hold(k);
      ServeDropsHead(w, p, now, next, e);
      if e == DeletedDuringHold {
        assert [w[next]][1..] == [];
      } else {
        var w' := AfterHold(w, next, e, now, p);
        RunCompletesSurvivors(w', p, now, hold, k + 1);
        var rest := RunFrom(w', p, now, hold, k + 1);
        assert ([w[next]] + rest.held)[1..] == rest.held;
      }
    }
  }

  /** A run crashes exactly when a hold saw the job deleted, and then that
      was the last hold. */
  lemma {:induction false} RunCrashesOnDeletion(w: seq<Job>, p: string, now: string, hold: nat -> HoldEvent, k: nat)
    ensures var r := RunFrom(w, p, now, hold, k);
      && (r.outcome == Crashed ==> |r.held| > 0)
      && forall j :: k <= j < k + |r.held| ==>
           (hold(j) == DeletedDuringHold <==> r.outcome == Crashed && j == k + |r.held| - 1)
    decreases |PrinterQueue(w, p)|
  {
    match NextWaiting(w, p)
    case None =>
      RunUnfolds(w, p, now, hold, k);
    case Some(i) =>
      if hold(k) == DeletedDuringHold {
        RunStopsOnDeletion(w, p, now, hold, k, i);
      } else {
        RunContinues(w, p, now, hold, k, i);
        var w' := AfterHold(w, i, hold(k), now, p);
        RunCrashesOnDeletion(w', p, now, hold, k + 1);
        var r, rest := RunFrom(w, p, now, hold, k), RunFrom(w', p, now, hold, k + 1);
        assert |r.held| == 1 + |rest.held| && r.outcome == rest.outcome;
        forall j | k <= j < k + |r.held|
          ensures hold(j) == DeletedDuringHold <==> r.outcome == Crashed && j == k + |r.held| - 1
        {
          if j == k {
            assert rest.outcome == Crashed ==> |rest.held| > 0;
          }
        }
      }
  }

  /** Every held job whose hold saw no cancellation survives. */
  lemma {:induction false} SurvivorsWithoutCancellation(held: seq<Job>, hold: nat -> HoldEvent, k: nat)
    requires forall j :: k <= j < k + |held| ==> hold(j) == NoCancel
    ensures Survivors(held, hold, k) == held
  {
    if held != [] {
      SurvivorsWithoutCancellation(held[1..], hold, k + 1);
    }
  }

  /** With no cancellation during any hold a run drains the whole queue and
      completes every job of it, in queue order. */
  lemma RunWithoutCancellation(w: seq<Job>, p: string, now: string, hold: nat -> HoldEvent)
    requires forall j :: hold(j) == NoCancel
    ensures var r := RunFrom(w, p, now, hold, 0);
      r.outcome == Drained && r.held == PrinterQueue(w, p) && r.completed == r.held
  {
    var r := RunFrom(w, p, now, hold, 0);
    RunCrashesOnDeletion(w, p, now, hold, 0);
    if |r.held| > 0 {
      assert hold(|r.held| - 1) != DeletedDuringHold;
    }
    RunConsumesQueue(w, p, now, hold, 0);
    RunCompletesSurvivors(w, p, now, hold, 0);
    SurvivorsWithoutCancellation(r.held, hold, 0);
  }

  /** The tables the dispatcher writes, as values. */
  datatype Tables = Tables(waiting: seq<Job>, printers: map<string, Printer>, history: seq<HistoryRow>, adminHistory: seq<Doc>)

  /** What the dispatcher loop of `p` keeps while it runs, started on `t0`:
      the rest of its run finishes `RunFrom` of the starting queue, every
      completed job has its history row and document, and the printer is
      UNAVAILABLE once a job was taken. */
  ghost predicate Serving(p: string, now: string, hold: nat -> HoldEvent, t0: Tables, t: Tables, held: seq<Job>, completed: seq<Job>)
  {
    && Resume(held, completed, RunFrom(t.waiting, p, now, hold, |held|)) == RunFrom(t0.waiting, p, now, hold, 0)
    && t.history == t0.history + Map(completed, HistoryOf(now))
    && t.adminHistory == t0.adminHistory + Map(completed, AdminDocOf(now))
    && t.printers == if held == [] then t0.printers else WithStatus(t0.printers, p, UNAVAILABLE)
  }

  /** What the dispatcher loop of `p` has done when it stops, started on
      `t0`. */
  ghost predicate Served(p: string, now: string, hold: nat -> HoldEvent, t0: Tables, t: Tables,
                         outcome: DispatchOutcome, held: seq<Job>, completed: seq<Job>)
  {
    && RunFrom(t0.waiting, p, now, hold, 0) == Run(outcome, t.waiting, held, completed)
    && t.history == t0.history + Map(completed, HistoryOf(now))
    && t.adminHistory == t0.adminHistory + Map(completed, AdminDocOf(now))
    && (outcome == Drained ==> t.printers == WithStatus(t0.printers, p, AVAILABLE))
    && (outcome == Crashed ==> t.printers == WithStatus(t0.printers, p, UNAVAILABLE))
  }

  /** A pass that stops after the loop kept `Serving` leaves it `Served`. */
  lemma PassServed(p: string, now: string, hold: nat -> HoldEvent, t0: Tables, t1: Tables, t2: Tables,
                   held: seq<Job>, completed: seq<Job>, outcome: DispatchOutcome, taken: seq<Job>, done: seq<Job>)
    requires Serving(p, now, hold, t0, t1, held, completed)
    requires RunFrom(t1.waiting, p, now, hold, |held|) == Run(outcome, t2.waiting, taken, done)
    requires t2.history == t1.history + Map(done, HistoryOf(now))
    requires t2.adminHistory == t1.adminHistory + Map(done, AdminDocOf(now))
    requires outcome == Drained ==> t2.printers == WithStatus(t1.printers, p, AVAILABLE)
    requires outcome == Crashed ==> t2.printers == WithStatus(t1.printers, p, UNAVAILABLE)
    ensures Served(p, now, hold, t0, t2, outcome, held + taken, completed + done)
  {
    MapLogAppend(t0.history, t1.history, t2.history, completed, done, HistoryOf(now));
    MapLogAppend(t0.adminHistory, t1.adminHistory, t2.adminHistory, completed, done, AdminDocOf(now));
    WithStatusTwice(t0.printers, p, UNAVAILABLE, AVAILABLE);
    WithStatusTwice(t0.printers, p, UNAVAILABLE, UNAVAILABLE);
  }

  /** A pass that serves one job after the loop kept `Serving` keeps it. */
  lemma PassServing(p: string, now: string, hold: nat -> HoldEvent, t0: Tables, t1: Tables, t2: Tables,
                    held: seq<Job>, completed: seq<Job>, taken: seq<Job>, done: seq<Job>)
    requires Serving(p, now, hold, t0, t1, held, completed)
    requires |taken| == 1
    requires RunFrom(t1.waiting, p, now, hold, |held|) == Resume(taken, done, RunFrom(t2.waiting, p, now, hold, |held| + 1))
    requires t2.history == t1.history + Map(done, HistoryOf(now))
    requires t2.adminHistory == t1.adminHistory + Map(done, AdminDocOf(now))
    requires t2.printers == WithStatus(t1.printers, p, UNAVAILABLE)
    ensures Serving(p, now, hold, t0, t2, held + taken, completed + done)
  {
    MapLogAppend(t0.history, t1.history, t2.history, completed, done, HistoryOf(now));
    MapLogAppend(t0.adminHistory, t1.adminHistory, t2.adminHistory, completed, done, AdminDocOf(now));
    WithStatusTwice(t0.printers, p, UNAVAILABLE, UNAVAILABLE);
    assert |held + taken| == |held| + 1;
    ResumeTwice(held, completed, taken, done, RunFrom(t2.waiting, p, now, hold, |held| + 1));
  }
}
