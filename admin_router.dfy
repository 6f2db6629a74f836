/** The admin router of the broker: the two printer toggles, the filtered
    and defaulted view of `admin_printing_history`, and the maintenance list.
    The toggles change the shared store; the queries only read it. */
module AdminRouter {
  import opened Seqs
  import opened Records
  import opened Jobs
  import opened Database

  // ----- toggle by name -----

  /** The status the name-based toggle writes over `status`: AVAILABLE and
      UNAVAILABLE swap, and any other status is left alone (`None`). */
  function Toggled(status: string): (r: Option<string>)
    ensures r == Some(UNAVAILABLE) <==> status == AVAILABLE
    ensures r == Some(AVAILABLE) <==> status == UNAVAILABLE
    ensures r.None? <==> status != AVAILABLE && status != UNAVAILABLE
  {
    if status == AVAILABLE then Some(UNAVAILABLE)
    else if status == UNAVAILABLE then Some(AVAILABLE)
    else None
  }

  /** Toggling a printer twice by name restores the printer collection. */
  lemma ToggleTwiceRestores(printers: map<string, Printer>, name: string)
    requires name in printers && Toggled(printers[name].status).Some?
    ensures var t := Toggled(printers[name].status).value;
      && Toggled(t) == Some(printers[name].status)
      && WithStatus(WithStatus(printers, name, t), name, printers[name].status) == printers
  {
    var s := printers[name].status;
    var t := Toggled(s).value;
    WithStatusTwice(printers, name, t, s);
    assert printers[name].(status := s) == printers[name];
  }

  /** `toggle_printer_status(printer_name)`. An unknown name fails and
      changes nothing. AVAILABLE becomes UNAVAILABLE. UNAVAILABLE is
      re-read, and the re-read sees the same status (nothing runs in
      between), so it becomes AVAILABLE. Any other status is left as it is
      and the handler answers nothing (`Ok(None)`). Only that printer's
      status changes. */
  method TogglePrinterStatus(db: Store, name: string) returns (r: Result<Option<string>>)
    requires db.Valid()
    modifies db`printers
    ensures db.Valid()
    ensures name !in old(db.printers) ==> r == Err(PrinterNotFound) && db.printers == old(db.printers)
    ensures name in old(db.printers) ==>
      var t := Toggled(old(db.printers)[name].status);
      && r == Ok(t)
      && db.printers == (if t.Some? then WithStatus(old(db.printers), name, t.value) else old(db.printers))
  {
    if name !in db.printers {
      return Err(PrinterNotFound);
    }
    var printer := db.printers[name];
    if printer.status == AVAILABLE {
      db.printers := WithStatus(db.printers, name, UNAVAILABLE);
      return Ok(Some(UNAVAILABLE));
    } else if printer.status == UNAVAILABLE {
      // The re-read: only a write between the two reads could make it
      // AVAILABLE, and none happens in a sequential run.
      var updated := db.printers[name];
      if updated.status == AVAILABLE {
        assert false;
      }
      db.printers := WithStatus(db.printers, name, AVAILABLE);
      return Ok(Some(AVAILABLE));
    }
    return Ok(None);
  }

  // ----- legacy toggle by printer id -----

  /** The status the legacy toggle writes over `status`, in lower case:
      "unavailable" becomes "available" and every other status, the
      upper-case ones included, becomes "unavailable". */
  function LegacyToggled(status: string): (r: string)
    ensures r == LegacyAvailable || r == LegacyUnavailable
    ensures r == LegacyAvailable <==> status == LegacyUnavailable
  {
    if status == LegacyUnavailable then LegacyAvailable else LegacyUnavailable
  }

  /** The legacy toggle swaps the two lower-case statuses, but it sends the
      upper-case AVAILABLE to "unavailable", and a second toggle then gives
      "available" rather than AVAILABLE. */
  lemma LegacyToggleCases()
    ensures LegacyToggled(LegacyToggled(LegacyAvailable)) == LegacyAvailable
    ensures LegacyToggled(LegacyToggled(LegacyUnavailable)) == LegacyUnavailable
    ensures LegacyToggled(AVAILABLE) == LegacyUnavailable
    ensures LegacyToggled(LegacyToggled(AVAILABLE)) != AVAILABLE
  {
  }

  /** Switching an AVAILABLE printer off with the legacy toggle does not
      stop `print_document` from queueing jobs on it: "unavailable" is not
      the exact string its check refuses. */
  lemma LegacyToggleKeepsAccepting(printers: map<string, Printer>, name: string)
    requires name in printers && printers[name].status == AVAILABLE
    ensures AcceptsJobs(WithStatus(printers, name, LegacyToggled(printers[name].status)), name)
  {
  }

  /** Whether some printer carries `printerId == id`. */
  predicate HasPrinterId(printers: map<string, Printer>, id: string) {
    exists name :: name in printers && printers[name].printerId == Some(id)
  }

  /** The legacy `toggle_status` by printer id. Printers are keyed by name
      here, so when several carry the id one of them is chosen where the
      store would take the first. An unknown id fails and changes nothing.
      Otherwise that printer's status becomes `LegacyToggled` of the old
      one and the new status is returned. */
  method ToggleStatusById(db: Store, id: string) returns (r: Result<string>, ghost name: string)
    requires db.Valid()
    modifies db`printers
    ensures db.Valid()
    ensures !HasPrinterId(old(db.printers), id) ==> r == Err(PrinterNotFound) && db.printers == old(db.printers)
    ensures HasPrinterId(old(db.printers), id) ==>
      && name in old(db.printers) && old(db.printers)[name].printerId == Some(id)
      && r == Ok(LegacyToggled(old(db.printers)[name].status))
      && db.printers == WithStatus(old(db.printers), name, r.value)
  {
    if !HasPrinterId(db.printers, id) {
      return Err(PrinterNotFound), "";
    }
    var n :| n in db.printers && db.printers[n].printerId == Some(id);
    var newStatus := if db.printers[n].status == LegacyUnavailable then LegacyAvailable else LegacyUnavailable;
    db.printers := WithStatus(db.printers, n, newStatus);
    return Ok(newStatus), n;
  }

  // ----- printing history query -----

  /** Whether an optional query argument is given: present and, as Python
      truthiness has it, not the empty string. */
  predicate Supplied(x: Option<string>) {
    x.Some? && x.value != ""
  }

  /** Whether document `d` satisfies the equality filter `f`. */
  predicate Matches(f: map<string, string>, d: Doc) {
    forall k :: k in f ==> k in d && d[k] == Str(f[k])
  }

  /** What a caller of the history query asks for: each supplied argument
      among area, printer and studentId equals the document's field. */
  predicate Requested(area: Option<string>, printer: Option<string>, studentId: Option<string>, d: Doc) {
    && (Supplied(area) ==> "area" in d && d["area"] == Str(area.value))
    && (Supplied(printer) ==> "printer" in d && d["printer"] == Str(printer.value))
    && (Supplied(studentId) ==> "studentId" in d && d["studentId"] == Str(studentId.value))
  }

  /** The step-by-step build of the `filters` dict of the history query.
      A document matches the result exactly when it has what was asked for,
      and an argument left out constrains nothing. */
  method BuildFilters(area: Option<string>, printer: Option<string>, studentId: Option<string>)
    returns (f: map<string, string>)
    ensures f.Keys <= {"area", "printer", "studentId"}
    ensures forall d :: Matches(f, d) <==> Requested(area, printer, studentId, d)
  {
    f := map[];
    if Supplied(area) {
      f := f["area" := area.value];
    }
    if Supplied(printer) {
      f := f["printer" := printer.value];
    }
    if Supplied(studentId) {
      f := f["studentId" := studentId.value];
    }
  }

  /** `d.get(key, fallback)`. */
  function GetOr(d: Doc, key: string, fallback: Value): Value {
    if key in d then d[key] else fallback
  }

  /** The fields every row of the history query carries. */
  const DefaultedFields: set<string> := {"docName", "printTime", "studentName", "copies", "place"}

  /** What `setdefault` puts in defaulted field `k` of `d` when it is
      missing: the value of its source field, or the fallback. */
  function Default(d: Doc, k: string): Value {
    if k == "docName" then GetOr(d, "fileName", Str("Unknown"))
    else if k == "printTime" then GetOr(d, "time", Str("Unknown"))
    else if k == "studentName" then GetOr(d, "studentId", Str("Unknown"))
    else if k == "copies" then GetOr(d, "copy", Int(1))
    else GetOr(d, "printer", Str("Unknown"))
  }

  /** The five `setdefault` calls the history query applies to each
      document. No call reads a field an earlier one writes, so together
      they add the default of every missing defaulted field at once. No
      field already present changes; each missing one is filled from its
      source field, or from the fallback when that is missing too. */
  function Normalize(d: Doc): (r: Doc)
    ensures r.Keys == d.Keys + DefaultedFields
    ensures forall k :: k in d ==> r[k] == d[k]
    ensures "docName" !in d ==> r["docName"] == GetOr(d, "fileName", Str("Unknown"))
    ensures "printTime" !in d ==> r["printTime"] == GetOr(d, "time", Str("Unknown"))
    ensures "studentName" !in d ==> r["studentName"] == GetOr(d, "studentId", Str("Unknown"))
    ensures "copies" !in d ==> r["copies"] == GetOr(d, "copy", Int(1))
    ensures "place" !in d ==> r["place"] == GetOr(d, "printer", Str("Unknown"))
  {
    d + map k | k in DefaultedFields && k !in d :: Default(d, k)
  }

  /** Normalizing twice changes nothing more. */
  lemma NormalizeIdempotent(d: Doc)
    ensures Normalize(Normalize(d)) == Normalize(d)
  {
    var r := Normalize(d);
    assert Normalize(r).Keys == r.Keys;
  }

  /** The document the dispatcher writes for job `j` at `now` comes out of
      the history query with its name, time and copies, and the student's
      name it already had. */
  lemma DispatcherDocNormalized(now: string, j: Job)
    ensures var r := Normalize(AdminDocOf(now)(j));
      && r["docName"] == Str(j.fileName)
      && r["printTime"] == Str(now)
      && r["studentName"] == Str(j.studentName)
      && r["copies"] == Int(j.copies)
      && r["place"] == Str(j.place)
  {
    var d := AdminDocOf(now)(j);
    assert "docName" !in d && "printTime" !in d;
    assert d["fileName"] == Str(j.fileName) && d["time"] == Str(now);
  }

  /** The history query's selection, as a filter function. */
  function RequestedBy(area: Option<string>, printer: Option<string>, studentId: Option<string>): Doc -> bool {
    (d: Doc) => Requested(area, printer, studentId, d)
  }

  /** `get_printing_history` without its time filter: the documents of
      `admin_printing_history` that have what was asked for, in insertion
      order, each with its missing fields defaulted. Every row has what was
      asked for, and every stored document that has it is in the answer,
      normalized. */
  method GetPrintingHistory(db: Store, area: Option<string>, printer: Option<string>, studentId: Option<string>)
    returns (rows: seq<Doc>)
    ensures rows == Map(Filter(db.adminHistory, RequestedBy(area, printer, studentId)), Normalize)
    ensures forall k :: 0 <= k < |rows| ==> Requested(area, printer, studentId, rows[k])
    ensures forall d :: d in db.adminHistory && Requested(area, printer, studentId, d) ==> Normalize(d) in rows
  {
    var filters := BuildFilters(area, printer, studentId);
    var found := Filter(db.adminHistory, (d: Doc) => Matches(filters, d));
    FilterCongruent(db.adminHistory, (d: Doc) => Matches(filters, d), RequestedBy(area, printer, studentId));
    rows := found;
    var i := 0;
    while i < |rows|
      invariant 0 <= i <= |rows| == |found|
      invariant forall j :: 0 <= j < i ==> rows[j] == Normalize(found[j])
      invariant forall j :: i <= j < |rows| ==> rows[j] == found[j]
    {
      rows := rows[i := Normalize(rows[i])];
      i := i + 1;
    }
    assert rows == Map(found, Normalize);
    HistoryRowsRequested(db.adminHistory, area, printer, studentId);
    HistoryQueryComplete(db.adminHistory, area, printer, studentId);
  }

  /** Normalizing only adds fields, so a document keeps what it was asked for. */
  lemma NormalizeKeepsRequested(area: Option<string>, printer: Option<string>, studentId: Option<string>, d: Doc)
    requires Requested(area, printer, studentId, d)
    ensures Requested(area, printer, studentId, Normalize(d))
  {
  }

  /** Every row of a history query's answer has what was asked for. */
  lemma HistoryRowsRequested(docs: seq<Doc>, area: Option<string>, printer: Option<string>, studentId: Option<string>)
    ensures var rows := Map(Filter(docs, RequestedBy(area, printer, studentId)), Normalize);
      forall k :: 0 <= k < |rows| ==> Requested(area, printer, studentId, rows[k])
  {
    var found := Filter(docs, RequestedBy(area, printer, studentId));
    FilterMembers(docs, RequestedBy(area, printer, studentId));
    forall k | 0 <= k < |found|
      ensures Requested(area, printer, studentId, Normalize(found[k]))
    {
      assert found[k] in found;
      NormalizeKeepsRequested(area, printer, studentId, found[k]);
    }
  }

  /** Every stored document that has what was asked for appears, normalized,
      in the history query's answer. */
  lemma HistoryQueryComplete(docs: seq<Doc>, area: Option<string>, printer: Option<string>, studentId: Option<string>)
    ensures var rows := Map(Filter(docs, RequestedBy(area, printer, studentId)), Normalize);
      forall d :: d in docs && Requested(area, printer, studentId, d) ==> Normalize(d) in rows
  {
    var found := Filter(docs, RequestedBy(area, printer, studentId));
    var rows := Map(found, Normalize);
    FilterMembers(docs, RequestedBy(area, printer, studentId));
    forall d | d in docs && Requested(area, printer, studentId, d)
      ensures Normalize(d) in rows
    {
      var k :| 0 <= k < |found| && found[k] == d;
      assert rows[k] == Normalize(d);
    }
  }

  // ----- maintenances -----

  function IsEnded(m: Maintenance): bool {
    m.status == ENDED
  }

  /** `get_maintenances(ended)`: with `ended` true, the ENDED maintenances
      in the order they were added, each as often as it is stored; with
      `ended` false or missing, all of them. */
  function GetMaintenances(db: Store, ended: Option<bool>): (r: seq<Maintenance>)
    reads db
    ensures ended == Some(true) ==>
      && r == Filter(db.maintenances, IsEnded)
      && (forall k :: 0 <= k < |r| ==> r[k].status == ENDED)
      && (forall m :: m in r <==> m in db.maintenances && m.status == ENDED)
      && (forall m :: multiset(r)[m] == if m.status == ENDED then multiset(db.maintenances)[m] else 0)
    ensures ended != Some(true) ==> r == db.maintenances
  {
    if ended == Some(true) then
      FilterMembers(db.maintenances, IsEnded);
      FilterCount(db.maintenances, IsEnded);
      var r := Filter(db.maintenances, IsEnded);
      assert forall k :: 0 <= k < |r| ==> r[k] in r;
      r
    else db.maintenances
  }
}
