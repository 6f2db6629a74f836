/** The user router's operations on the store: registration, top-up, the
    startup printer upsert, job submission, cancellation and the per-printer
    dispatcher loop. Each is a method on the shared store; the HTTP layer,
    the student-id header and the timestamp the router computes once at
    import (`now`) are parameters. */
module UserRouter {
  import opened Seqs
  import opened Records
  import opened Jobs
  import opened Database

  /** `/add_personal_information`: a student id already on file is refused. */
  method AddPersonalInformation(db: Store, info: Student) returns (r: Result<()>)
    requires db.Valid()
    modifies db`students
    ensures db.Valid()
    ensures r.Err? <==> info.studentId in old(db.students)
    ensures r.Err? ==> r.error == StudentExists && db.students == old(db.students)
    ensures r.Ok? ==> db.students == old(db.students)[info.studentId := info]
  {
    if info.studentId in db.students {
      return Err(StudentExists);
    }
    db.students := db.students[info.studentId := info];
    r := Ok(());
  }

  /** Python truthiness of an optional number: present and not zero. */
  predicate Truthy(x: Option<int>) {
    x.Some? && x.value != 0
  }

  /** `/create_transaction`: quantity and price must both be present and
      non-zero and the student must exist; then the balance rises by the
      quantity and one transaction row is appended. */
  method CreateTransaction(db: Store, studentId: string, quantity: Option<int>, price: Option<int>, now: string)
    returns (r: Result<()>)
    requires db.Valid()
    modifies db`students, db`transactions
    ensures db.Valid()
    ensures r.Ok? <==> Truthy(quantity) && Truthy(price) && studentId in old(db.students)
    ensures !Truthy(quantity) || !Truthy(price) ==> r == Err(MissingQuantityOrPrice)
    ensures Truthy(quantity) && Truthy(price) && studentId !in old(db.students) ==> r == Err(StudentNotFound)
    ensures r.Err? ==> db.students == old(db.students) && db.transactions == old(db.transactions)
    ensures r.Ok? ==>
      var s := old(db.students)[studentId];
      && db.students == old(db.students)[studentId := s.(numberOfA4 := s.numberOfA4 + quantity.value)]
      && db.transactions == old(db.transactions) + [Transaction(studentId, now, quantity.value, price.value)]
  {
    if !Truthy(quantity) || !Truthy(price) {
      return Err(MissingQuantityOrPrice);
    }
    if studentId !in db.students {
      return Err(StudentNotFound);
    }
    var student := db.students[studentId];
    db.students := db.students[studentId := student.(numberOfA4 := student.numberOfA4 + quantity.value)];
    db.transactions := db.transactions + [Transaction(studentId, now, quantity.value, price.value)];
    r := Ok(());
  }

  /** The startup loop: every known printer is upserted with status
      AVAILABLE and no note. An existing record keeps its other fields;
      printers not in the list are untouched. */
  method InitPrinters(db: Store)
    requires db.Valid()
    modifies db`printers
    ensures db.Valid()
    ensures forall n :: n in db.printers <==> n in old(db.printers) || n in PrinterNames
    ensures forall n :: n in PrinterNames ==> db.printers[n] == Upserted(old(db.printers), n)
    ensures forall n :: n in old(db.printers) && n !in PrinterNames ==> db.printers[n] == old(db.printers)[n]
  {
    UpsertAvailable(db, PrinterNames);
  }

  /** The record the startup upsert leaves under `name`. */
  function Upserted(printers: map<string, Printer>, name: string): (r: Printer)
    ensures r.status == AVAILABLE && r.note == None
    ensures r.printerId == if name in printers then printers[name].printerId else None
  {
    if name in printers then printers[name].(status := AVAILABLE, note := None)
    else Printer(AVAILABLE, None, None)
  }

  /** The upsert loop over a list of names. */
  method UpsertAvailable(db: Store, names: seq<string>)
    requires db.Valid()
    modifies db`printers
    ensures db.Valid()
    ensures forall n :: n in db.printers <==> n in old(db.printers) || n in names
    ensures forall n :: n in names ==> db.printers[n] == Upserted(old(db.printers), n)
    ensures forall n :: n in old(db.printers) && n !in names ==> db.printers[n] == old(db.printers)[n]
  {
    for i := 0 to |names|
      invariant forall n :: n in db.printers <==> n in old(db.printers) || n in names[..i]
      invariant forall n :: n in names[..i] ==> db.printers[n] == Upserted(old(db.printers), n)
      invariant forall n :: n in old(db.printers) && n !in names[..i] ==> db.printers[n] == old(db.printers)[n]
    {
      var name := names[i];
      var record := if name in db.printers
        then db.printers[name].(status := AVAILABLE, note := None)
        else Printer(AVAILABLE, None, None);
      db.printers := db.printers[name := record];
      assert names[..i + 1] == names[..i] + [name];
    }
    assert names[..|names|] == names;
  }

  /** `/print_document`. The printer must exist and not be "UNAVAILABLE",
      the student must exist and hold at least `pages * copies * copies`
      sheets; otherwise nothing changes. On success that many sheets are
      debited, `copies` is added to the printed-document count and one
      WAITING job recording `pages * copies` pages joins the back of the
      printer's queue. The result says whether a dispatcher task is
      scheduled: only when no loop has marked the printer active. */
  method PrintDocument(db: Store, studentId: string, fileName: string, pages: int, copies: int,
                       printer: string, fileId: string, now: string) returns (r: Result<bool>)
    requires db.Valid()
    modifies db`students, db`waiting
    ensures db.Valid()
    ensures r.Err? <==> SubmitCheck(old(db.printers), old(db.students), studentId, printer, pages, copies).Some?
    ensures r.Err? ==>
      && SubmitCheck(old(db.printers), old(db.students), studentId, printer, pages, copies) == Some(r.error)
      && db.students == old(db.students) && db.waiting == old(db.waiting)
    ensures r.Ok? ==>
      var s := old(db.students)[studentId];
      var job := NewJob(s, studentId, fileName, fileId, pages, copies, printer, now);
      && db.students == old(db.students)[studentId := Debited(s, pages, copies)]
      && db.students[studentId].numberOfA4 == s.numberOfA4 - pages * copies * copies >= 0
      && db.waiting == old(db.waiting) + [job]
      && PrinterQueue(db.waiting, printer) == PrinterQueue(old(db.waiting), printer) + [job]
      && r.value == !(printer in db.activePrinters && db.activePrinters[printer])
  {
    if printer !in db.printers || db.printers[printer].status == UNAVAILABLE {
      return Err(PrinterUnavailable);
    }
    var totalPages := pages * copies;
    if studentId !in db.students {
      return Err(StudentNotFound);
    }
    var student := db.students[studentId];
    var requiredPages := totalPages * copies;
    if student.numberOfA4 < requiredPages {
      return Err(NotEnoughPages);
    }
    db.students := db.students[studentId := student.(numberOfA4 := student.numberOfA4 - requiredPages)];
    db.students := db.students[studentId := db.students[studentId].(numberOfPrintedDocs := student.numberOfPrintedDocs + copies)];
    var job := Job(student.name, studentId, fileName, fileId, totalPages, printer, printer, copies,
                   Area(printer), Waiting, now, None);
    db.waiting := db.waiting + [job];
    AppendJoinsQueueTail(old(db.waiting), job, printer);
    r := Ok(!(printer in db.activePrinters && db.activePrinters[printer]));
  }

  /** `/confirm_printing`: a request without a file id fails; otherwise it
      does to the job collection what `Cancel` says. */
  method ConfirmPrinting(db: Store, fileId: Option<string>, dele: bool) returns (r: Result<CancelOutcome>)
    requires db.Valid()
    modifies db`waiting
    ensures db.Valid()
    ensures fileId.None? ==> r == Err(MissingFileId) && db.waiting == old(db.waiting)
    ensures fileId.Some? ==>
      match Cancel(old(db.waiting), fileId.value, dele)
      case Err(e) => r == Err(e) && db.waiting == old(db.waiting)
      case Ok(c) => r == Ok(c.outcome) && db.waiting == c.jobs
  {
    if fileId.None? {
      return Err(MissingFileId);
    }
    var found := FirstIndex(db.waiting, HasFileId(fileId.value));
    if found.None? {
      return Err(SessionNotFound);
    }
    var i := found.value;
    if dele {
      if db.waiting[i].status == Waiting {
        db.waiting := db.waiting[i := db.waiting[i].(status := Cancelled)];
        return Ok(Flipped);
      }
      db.waiting := RemoveAt(db.waiting, i);
      return Ok(Deleted);
    }
    r := Ok(Ignored);
  }

  /** The rest of one pass of the dispatcher loop once the next job `i` of
      `p` is held and `e` (a cancellation or none) happened during the hold:
      the job is re-read; a CANCELLED one is deleted, any other is set
      COMPLETE and recorded in both history collections. */
  method ServeHeldJob(db: Store, p: string, now: string, i: nat, e: HoldEvent)
    requires db.Valid() && NextWaiting(db.waiting, p) == Some(i) && e != DeletedDuringHold
    modifies db`waiting, db`history, db`adminHistory
    ensures db.Valid()
    ensures db.waiting == AfterHold(old(db.waiting), i, e, now, p)
    ensures db.history == old(db.history) + (if e == NoCancel then [HistoryOf(now)(old(db.waiting)[i])] else [])
    ensures db.adminHistory == old(db.adminHistory) + (if e == NoCancel then [AdminDocOf(now)(old(db.waiting)[i])] else [])
  {
    var job := db.waiting[i];
    // The 30-second hold: a cancellation request flips the WAITING job.
    if e == CancelledDuringHold {
      db.waiting := db.waiting[i := job.(status := Cancelled)];
    }
    // The re-read of the job's status after the hold.
    if db.waiting[i].status == Cancelled {
      assert RemoveAt(db.waiting, i) == RemoveAt(old(db.waiting), i);
      db.waiting := RemoveAt(db.waiting, i);
    } else {
      db.waiting := db.waiting[i := MarkComplete(now)(job)];
      db.history := db.history + [HistoryOf(now)(job)];
      db.adminHistory := db.adminHistory + [AdminDocOf(now)(job)];
    }
  }

  /** The collections the dispatcher writes, as values. */
  ghost function TablesOf(db: Store): Tables
    reads db
  {
    Tables(db.waiting, db.printers, db.history, db.adminHistory)
  }

  /** One pass of the dispatcher loop of `p`, the `hold(|held|)` event
      applying to the job it holds: with no WAITING job left the loop stops
      drained; otherwise the printer is set UNAVAILABLE and the oldest
      WAITING job held, and a deletion during the hold stops the loop as a
      crash while any other event lets it serve the job and go on. `t0` is
      what the loop started on; `Serving` and `Served` say what it keeps
      and what it has done. */
  method ServeStep(db: Store, p: string, now: string, hold: nat -> HoldEvent, ghost t0: Tables, held: seq<Job>, completed: seq<Job>)
    returns (stop: bool, outcome: DispatchOutcome, held': seq<Job>, completed': seq<Job>)
    requires db.Valid() && Serving(p, now, hold, t0, TablesOf(db), held, completed)
    modifies db`waiting, db`printers, db`history, db`adminHistory
    ensures db.Valid()
    ensures stop ==> Served(p, now, hold, t0, TablesOf(db), outcome, held', completed')
    ensures !stop ==>
      && Serving(p, now, hold, t0, TablesOf(db), held', completed')
      && |PrinterQueue(db.waiting, p)| < |PrinterQueue(old(db.waiting), p)|
  {
    ghost var t1 := TablesOf(db);
    var next := NextWaiting(db.waiting, p);
    if next.None? {
      stop, outcome := true, Drained;
      held', completed' := StopIdle(db, p, now, hold, t0, held, completed);
      return;
    }
    // The query only returns WAITING jobs, so the CANCELLED skip that
    // follows it in `process_printer_queue` never runs.
    var i := next.value;
    db.printers := WithStatus(db.printers, p, UNAVAILABLE);
    if hold(|held|) == DeletedDuringHold {
      stop, outcome := true, Crashed;
      held', completed' := StopCrashed(db, p, now, hold, t0, t1, held, completed, i);
      return;
    }
    stop, outcome := false, Drained;
    held', completed' := ServeHeld(db, p, now, hold, t0, t1, held, completed, i);
  }

  /** The end of a pass that found no WAITING job: the printer is set
      AVAILABLE and the loop has done all it does. */
  method StopIdle(db: Store, p: string, now: string, hold: nat -> HoldEvent, ghost t0: Tables,
                  held: seq<Job>, completed: seq<Job>)
    returns (held': seq<Job>, completed': seq<Job>)
    requires db.Valid() && Serving(p, now, hold, t0, TablesOf(db), held, completed)
    requires NextWaiting(db.waiting, p) == None
    modifies db`printers
    ensures db.Valid()
    ensures Served(p, now, hold, t0, TablesOf(db), Drained, held', completed')
  {
    ghost var t1 := TablesOf(db);
    RunStopsWhenEmpty(db.waiting, p, now, hold, |held|);
    db.printers := WithStatus(db.printers, p, AVAILABLE);
    assert Map([], HistoryOf(now)) == [] && Map([], AdminDocOf(now)) == [];
    PassServed(p, now, hold, t0, t1, TablesOf(db), held, completed, Drained, [], []);
    return held + [], completed + [];
  }

  /** The end of a pass whose held job `i` was deleted during the hold: the
      re-read by _id finds nothing and subscripting it raises, so the loop
      dies with the printer UNAVAILABLE. */
  method StopCrashed(db: Store, p: string, now: string, hold: nat -> HoldEvent, ghost t0: Tables, ghost t1: Tables,
                     held: seq<Job>, completed: seq<Job>, i: nat)
    returns (held': seq<Job>, completed': seq<Job>)
    requires db.Valid() && Serving(p, now, hold, t0, t1, held, completed)
    requires db.waiting == t1.waiting && db.history == t1.history && db.adminHistory == t1.adminHistory
    requires db.printers == WithStatus(t1.printers, p, UNAVAILABLE)
    requires NextWaiting(db.waiting, p) == Some(i) && hold(|held|) == DeletedDuringHold
    modifies db`waiting
    ensures db.Valid()
    ensures Served(p, now, hold, t0, TablesOf(db), Crashed, held', completed')
  {
    var job := db.waiting[i];
    RunStopsOnDeletion(db.waiting, p, now, hold, |held|, i);
    // The deletion is the other request's.
    db.waiting := RemoveAt(db.waiting, i);
    assert Map([], HistoryOf(now)) == [] && Map([], AdminDocOf(now)) == [];
    PassServed(p, now, hold, t0, t1, TablesOf(db), held, completed, Crashed, [job], []);
    return held + [job], completed + [];
  }

  /** The end of a pass that held job `i` and saw no deletion: serving it
      keeps what the loop keeps. */
  method ServeHeld(db: Store, p: string, now: string, hold: nat -> HoldEvent, ghost t0: Tables, ghost t1: Tables,
                   held: seq<Job>, completed: seq<Job>, i: nat)
    returns (held': seq<Job>, completed': seq<Job>)
    requires db.Valid() && Serving(p, now, hold, t0, t1, held, completed)
    requires db.waiting == t1.waiting && db.history == t1.history && db.adminHistory == t1.adminHistory
    requires db.printers == WithStatus(t1.printers, p, UNAVAILABLE)
    requires NextWaiting(db.waiting, p) == Some(i) && hold(|held|) != DeletedDuringHold
    modifies db`waiting, db`history, db`adminHistory
    ensures db.Valid()
    ensures Serving(p, now, hold, t0, TablesOf(db), held', completed')
    ensures |PrinterQueue(db.waiting, p)| < |PrinterQueue(old(db.waiting), p)|
  {
    var job := db.waiting[i];
    var e := hold(|held|);
    RunContinues(db.waiting, p, now, hold, |held|, i);
    ServeHeldJob(db, p, now, i, e);
    if e == NoCancel {
      assert Map([job], HistoryOf(now)) == [HistoryOf(now)(job)];
      assert Map([job], AdminDocOf(now)) == [AdminDocOf(now)(job)];
      PassServing(p, now, hold, t0, t1, TablesOf(db), held, completed, [job], [job]);
      return held + [job], completed + [job];
    }
    assert Map([], HistoryOf(now)) == [] && Map([], AdminDocOf(now)) == [];
    PassServing(p, now, hold, t0, t1, TablesOf(db), held, completed, [job], []);
    return held + [job], completed + [];
  }

  /** The loop of the dispatcher of `p`: turns until one stops. The jobs
      it holds and completes and the collection it leaves are those of
      `RunFrom`; each completed job has its history row and document; the
      printer ends AVAILABLE after the queue drains and UNAVAILABLE after a
      crash. */
  method ServeQueue(db: Store, p: string, now: string, hold: nat -> HoldEvent)
    returns (outcome: DispatchOutcome, held: seq<Job>, completed: seq<Job>)
    requires db.Valid()
    modifies db`waiting, db`printers, db`history, db`adminHistory
    ensures db.Valid()
    ensures Served(p, now, hold, old(TablesOf(db)), TablesOf(db), outcome, held, completed)
  {
    ghost var t0 := TablesOf(db);
    held, completed := [], [];
    assert Resume(held, completed, RunFrom(db.waiting, p, now, hold, 0)) == RunFrom(db.waiting, p, now, hold, 0);
    while true
      invariant db.Valid()
      invariant Serving(p, now, hold, t0, TablesOf(db), held, completed)
      decreases |PrinterQueue(db.waiting, p)|
    {
      var stop;
      stop, outcome, held, completed := ServeStep(db, p, now, hold, t0, held, completed);
      if stop {
        return;
      }
    }
  }

  /** The background dispatcher of printer `p`. It marks itself active, then
      repeatedly takes the oldest WAITING job of `p`, sets the printer
      UNAVAILABLE and holds; `hold(k)` is what the environment does to the
      k-th held job meanwhile. A job cancelled during the hold is deleted
      without history; any other is set COMPLETE and gets one
      `printing_history` row and one `admin_printing_history` document.
      When no WAITING job is left the flag is cleared and the printer set
      AVAILABLE. A job deleted during its hold makes the re-read fail: the
      task dies with the flag still set and the printer UNAVAILABLE.
      The jobs it holds and completes and the collection it leaves are
      those of `RunFrom`; the lemmas beside `RunFrom` say what they are. */
  method ProcessPrinterQueue(db: Store, p: string, now: string, hold: nat -> HoldEvent)
    returns (outcome: DispatchOutcome, held: seq<Job>, completed: seq<Job>)
    requires db.Valid()
    modifies db`activePrinters, db`waiting, db`printers, db`history, db`adminHistory
    ensures db.Valid()
    ensures var r := RunFrom(old(db.waiting), p, now, hold, 0);
      && outcome == r.outcome && held == r.held && completed == r.completed
      && db.waiting == r.waiting
    ensures db.history == old(db.history) + Map(completed, HistoryOf(now))
    ensures db.adminHistory == old(db.adminHistory) + Map(completed, AdminDocOf(now))
    ensures outcome == Drained ==>
      && db.activePrinters == old(db.activePrinters)[p := false]
      && db.printers == WithStatus(old(db.printers), p, AVAILABLE)
    ensures outcome == Crashed ==>
      && db.activePrinters == old(db.activePrinters)[p := true]
      && db.printers == WithStatus(old(db.printers), p, UNAVAILABLE)
  {
    db.activePrinters := db.activePrinters[p := true];
    outcome, held, completed := ServeQueue(db, p, now, hold);
    if outcome == Drained {
      // The loop clears the flag where it finds the queue empty, just before
      // leaving; nothing reads the flag in between. After the loop
      // `process_printer_queue` writes AVAILABLE once more.
      UpdateTwice(old(db.activePrinters), p, true, false);
      db.activePrinters := db.activePrinters[p := false];
      WithStatusTwice(old(db.printers), p, AVAILABLE, AVAILABLE);
      db.printers := WithStatus(db.printers, p, AVAILABLE);
    }
  }
}
