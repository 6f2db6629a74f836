/** The document store both routers share, one field per collection, plus the
    user router's process-wide `active_printers` flags. Sequences keep their
    documents in insertion order, which is the order of their `_id`s. */
module Database {
  import opened Seqs
  import opened Records

  class Store {
    /** `students`, keyed by studentId. */
    var students: map<string, Student>
    /** `printers`, keyed by name. */
    var printers: map<string, Printer>
    /** `waiting_sessions`, in insertion order. */
    var waiting: seq<Job>
    /** `printing_history`, append-only. */
    var history: seq<HistoryRow>
    /** `admin_printing_history`, append-only and schemaless. */
    var adminHistory: seq<Doc>
    /** `transactions`, append-only. */
    var transactions: seq<Transaction>
    /** `active_printers`: whether a dispatcher loop has marked itself running. */
    var activePrinters: map<string, bool>
    /** `maintenances`, in insertion order. */
    var maintenances: seq<Maintenance>

    /** Each student is filed under its own id, and each job's area and place
        are derived from its printer name. */
    ghost predicate Valid()
      reads this
    {
      && (forall id :: id in students ==> students[id].studentId == id)
      && (forall i :: 0 <= i < |waiting| ==> JobShaped(waiting[i]))
    }

    static predicate JobShaped(j: Job) {
      j.area == Area(j.printer) && j.place == j.printer
    }

    constructor ()
      ensures Valid()
      ensures students == map[] && printers == map[] && waiting == []
      ensures history == [] && adminHistory == [] && transactions == [] && activePrinters == map[]
      ensures maintenances == []
    {
      students, printers, waiting := map[], map[], [];
      history, adminHistory, transactions, activePrinters := [], [], [], map[];
      maintenances := [];
    }
  }
}
