/** The records the broker keeps in its document store: students, printers,
    print jobs (`waiting_sessions`), history rows, transactions and
    maintenance windows, with the status strings the routers compare against. */
module Records {
  import opened Seqs

  /** Printer statuses written by the user router and the name-based toggle. */
  const AVAILABLE: string := "AVAILABLE"
  const UNAVAILABLE: string := "UNAVAILABLE"

  /** The lower-case statuses of the legacy toggle by printer id. */
  const LegacyAvailable: string := "available"
  const LegacyUnavailable: string := "unavailable"

  /** The maintenance status `get_maintenances` filters on. */
  const ENDED: string := "ENDED"

  /** The printers upserted as AVAILABLE when the user router is loaded. */
  const PrinterNames: seq<string> := [
    "B1-01", "B1-02", "B1-03", "B1-04", "B1-05",
    "A4-01", "A4-02", "A4-03", "B4-01", "B4-02",
    "C4-01", "C4-02", "C6-01", "B10-01"
  ]

  datatype Student = Student(
    name: string,
    studentId: string,
    email: string,
    faculty: string,
    numberOfA4: int,
    numberOfPrintedDocs: int)

  /** A printer document; it is keyed by name in the store. `printerId` is the
      field the legacy toggle looks printers up by; startup never sets it. */
  datatype Printer = Printer(status: string, note: Option<string>, printerId: Option<string>)

  /** The statuses a job passes through. Nothing ever writes ONGOING. */
  datatype JobStatus = Waiting | Cancelled | Complete

  /** A `waiting_sessions` document. */
  datatype Job = Job(
    studentName: string,
    studentId: string,
    fileName: string,
    fileId: string,
    pages: int,
    printer: string,
    place: string,
    copies: int,
    area: string,
    status: JobStatus,
    submissionTime: string,
    completionTime: Option<string>)

  /** A `printing_history` row (the student-facing history). */
  datatype HistoryRow = HistoryRow(
    studentId: string,
    time: string,
    fileName: string,
    pages: int,
    place: string,
    printer: string,
    copies: int,
    fileId: string)

  /** Field values of a schemaless document; a missing field is a missing key. */
  datatype Value = Str(s: string) | Int(i: int)
  type Doc = map<string, Value>

  /** A `transactions` row; the title and payment texts are rendered from
      these two numbers. */
  datatype Transaction = Transaction(studentId: string, time: string, quantity: int, price: int)

  datatype Maintenance = Maintenance(
    title: string,
    description: string,
    startTime: string,
    duration: int,
    status: string)

  /** Every way an operation of the routers can fail. */
  datatype Error =
    | PrinterUnavailable
    | StudentNotFound
    | NotEnoughPages
    | MissingFileId
    | SessionNotFound
    | MissingQuantityOrPrice
    | StudentExists
    | PrinterNotFound

  datatype Result<T> = Ok(value: T) | Err(error: Error)

  /** `name.split('-')[0]`: the printer name up to its first '-', or the
      whole name when it has none. */
  function Area(name: string): (a: string)
    ensures a <= name
    ensures '-' !in a
    ensures |a| < |name| ==> name[|a|] == '-'
  {
    if name == [] || name[0] == '-' then ""
    else [name[0]] + Area(name[1..])
  }

  lemma AreaOfKnownPrinters()
    ensures Area("B1-01") == "B1"
    ensures Area("B10-01") == "B10"
    ensures Area("LIB") == "LIB"
  {
    AreaUnique("B1-01", "B1");
    AreaUnique("B10-01", "B10");
    AreaUnique("LIB", "LIB");
  }

  /** The contract of `Area` pins its result down: any prefix of `name` free
      of '-' and followed by '-' or the end of `name` is the area. */
  lemma AreaUnique(name: string, a: string)
    requires a <= name && '-' !in a && (|a| < |name| ==> name[|a|] == '-')
    ensures Area(name) == a
  {
  }

  /** The `update_one({"name": name}, {"$set": {"status": status}})` of the
      routers: a missing printer is left missing. */
  function WithStatus(printers: map<string, Printer>, name: string, status: string): (r: map<string, Printer>)
    ensures r.Keys == printers.Keys
    ensures forall n :: n in r && n != name ==> r[n] == printers[n]
    ensures name in r ==> r[name] == printers[name].(status := status)
  {
    if name in printers then printers[name := printers[name].(status := status)] else printers
  }

  /** A later status write to the same printer overrides an earlier one. */
  lemma WithStatusTwice(printers: map<string, Printer>, name: string, a: string, b: string)
    ensures WithStatus(WithStatus(printers, name, a), name, b) == WithStatus(printers, name, b)
  {
  }
}
