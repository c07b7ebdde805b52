/** The monitoring store file and the session that appends to it. */
module Store {
  import opened Wrappers
  import opened Entries

  /** The store file as the dashboard finds it. `Blank` is a file that exists but has no
      bytes. A `Table` without the "Is Anomaly" column holds legacy rows whose flag was never
      written, so their `isAnomaly` field carries no information. */
  datatype StoreFile =
    | Absent
    | Blank
    | Table(hasAnomalyColumn: bool, rows: seq<Record>)

  /** The rows the dashboard works on: nothing when the file is absent or empty, otherwise
      the stored rows with a missing "Is Anomaly" column filled in as false. */
  function Load(file: StoreFile): (data: seq<Record>)
    ensures !file.Table? ==> data == []
    ensures file.Table? ==> |data| == |file.rows|
    ensures file.Table? ==>
      forall i :: 0 <= i < |data| ==> data[i] == file.rows[i].(isAnomaly := data[i].isAnomaly)
    ensures file.Table? && file.hasAnomalyColumn ==> data == file.rows
    ensures file.Table? && !file.hasAnomalyColumn ==> forall r :: r in data ==> !r.isAnomaly
  {
    match file
    case Table(hasColumn, rows) =>
      if hasColumn then rows
      else seq(|rows|, i requires 0 <= i < |rows| => rows[i].(isAnomaly := false))
    case _ => []
  }

  /** The outcome of pressing "Add". */
  datatype Submission =
    | Rejected    // the value field was empty
    | Saved       // the entry was written to the store
    | SaveFailed  // the store file is zero bytes long and could not be read back

  /** The dashboard session: the store file and the buffer of entries not yet written. */
  class Dashboard {
    var file: StoreFile
    var pending: seq<Record>

    /** Entries stay pending only when writing them failed, which happens only on a blank file. */
    ghost predicate Valid()
      reads this
    {
      pending != [] ==> file == Blank
    }

    /** The rows a filter or analysis pass reads. */
    function Rows(): seq<Record>
      reads this
    {
      Load(file)
    }

    /** A new session over whatever is on disk, with an empty buffer. */
    constructor (onDisk: StoreFile)
      ensures Valid()
      ensures file == onDisk && pending == []
    {
      file := onDisk;
      pending := [];
    }

    /** "Reset Data": clear the buffer and delete the store file. */
    method Reset()
      modifies this
      ensures Valid()
      ensures file == Absent && pending == [] && Rows() == []
    {
      pending := [];
      file := Absent;
    }

    /** "Add": validate the form, buffer the entry, concatenate the buffer onto the stored
        rows, rewrite the store and clear the buffer. */
    method Submit(form: Form, today: Day) returns (outcome: Submission)
      requires Valid()
      modifies this
      ensures Valid()
      ensures outcome == Rejected <==> form.value == ""
      ensures outcome == Rejected ==> file == old(file) && pending == old(pending)
      ensures outcome == SaveFailed <==> form.value != "" && old(file) == Blank
      ensures outcome == SaveFailed ==>
        file == old(file) && pending == old(pending) + [BuildEntry(form, today).value]
      ensures outcome == Saved ==>
        Rows() == old(Rows()) + [BuildEntry(form, today).value] &&
        file == Table(true, Rows()) && pending == []
    {
      var entry := BuildEntry(form, today);
      if entry.None? {
        return Rejected;
      }
      pending := pending + [entry.value];
      match file {
        case Blank =>
          // the add path reads the existing file without the size check that loading makes
          return SaveFailed;
        case Absent =>
          file := Table(true, pending);
        case Table(_, _) =>
          file := Table(true, Load(file) + pending);
      }
      pending := [];
      return Saved;
    }
  }
}
