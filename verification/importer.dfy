/** The file-level driver of the product processor (`process_file`): map
    the CSV headers, slice the rows into batches, run every row of a batch
    against one unit of work, commit it or roll it back as a whole, and
    report the result.

    Whether a batch's commit succeeds is decided outside the processor (by
    the database); it is a parameter `commitOk` indexed by the 1-based batch
    number. Whether a code names a system product is the parameter
    `isSystem`. */
module Importer {
  import opened Wrappers
  import opened Batching
  import opened Processor

  /** Accepted header names for each field, in order of preference. */
  const CodeColumns: seq<string> := ["Product/Service"]
  const DescriptionColumns: seq<string> := ["Product/Service Description"]

  const MissingColumnsMessage: string := "Missing required columns in CSV file"
  /** The message of the exception that a zero batch size raises where the
      batch count is computed. */
  const ZeroDivisionMessage: string := "integer division or modulo by zero"

  /** A CSV file as read: its header and its rows. */
  datatype Table = Table(columns: set<string>, rows: seq<Row>)

  /** Every row has exactly the header's columns. */
  predicate WellFormed(t: Table) {
    forall i :: 0 <= i < |t.rows| ==> t.rows[i].Keys == t.columns
  }

  predicate AllHaveColumns(rows: seq<Row>, m: HeaderMapping) {
    forall i :: 0 <= i < |rows| ==> HasColumns(rows[i], m)
  }

  predicate BatchesHaveColumns(batches: seq<seq<Row>>, m: HeaderMapping) {
    forall b :: 0 <= b < |batches| ==> AllHaveColumns(batches[b], m)
  }

  /** The result `process_file` returns. */
  datatype RunResult = RunResult(success: bool, stats: Stats, errors: seq<ErrorRecord>)

  /** The processor and database after a file, with the returned result. */
  datatype FileOutcome = FileOutcome(state: ImportState, result: RunResult)

  /** Index of the first of `names` that is a column, if any. */
  function FirstPresent(names: seq<string>, columns: set<string>): (r: Option<nat>)
    ensures r.Some? ==> r.value < |names| && names[r.value] in columns
    ensures r.Some? ==> forall j :: 0 <= j < r.value ==> names[j] !in columns
    ensures r.None? <==> forall j :: 0 <= j < |names| ==> names[j] !in columns
    decreases |names|
  {
    if names == [] then None
    else if names[0] in columns then Some(0)
    else match FirstPresent(names[1..], columns)
      case None => None
      case Some(k) => Some(k + 1)
  }

  /** Maps each field to the first of its accepted headers present in the
      file; fails when some field has none. */
  function MapHeaders(columns: set<string>): (r: Option<HeaderMapping>)
    ensures r.Some? <==> "Product/Service" in columns && "Product/Service Description" in columns
    ensures r.Some? ==> r.value == HeaderMapping("Product/Service", "Product/Service Description")
  {
    var code := FirstPresent(CodeColumns, columns);
    var description := FirstPresent(DescriptionColumns, columns);
    if code.Some? && description.Some? then
      Some(HeaderMapping(CodeColumns[code.value], DescriptionColumns[description.value]))
    else None
  }

  /** Runs a batch's rows in one unit of work. A committed batch keeps the
      rows' writes; a failed one discards them, but the processed codes,
      counters and error records the rows produced stay, and it also counts
      one error of its own. */
  function ProcessBatch(s: ImportState, batch: seq<Row>, m: HeaderMapping, isSystem: string -> bool,
                        committed: bool): (r: ImportState)
    requires AllHaveColumns(batch, m)
    ensures s.store.Keys <= r.store.Keys
    ensures committed ==> r.store == ProcessRows(s, batch, m, isSystem).store
    ensures !committed ==> r.store == s.store
    ensures r.processed == ProcessRows(s, batch, m, isSystem).processed
    ensures r.errors == ProcessRows(s, batch, m, isSystem).errors
    ensures r.stats.successfulBatches == s.stats.successfulBatches + (if committed then 1 else 0)
    ensures r.stats.failedBatches == s.stats.failedBatches + (if committed then 0 else 1)
    ensures r.stats.totalErrors == s.stats.totalErrors + (if committed then 0 else 1)
    ensures var t := ProcessRows(s, batch, m, isSystem);
            && r.stats.totalProducts == t.stats.totalProducts
            && r.stats.created == t.stats.created
            && r.stats.updated == t.stats.updated
            && r.stats.skipped == t.stats.skipped
            && r.stats.validationErrors == t.stats.validationErrors
  {
    var t := ProcessRows(s, batch, m, isSystem);
    if committed then
      t.(stats := t.stats.(successfulBatches := t.stats.successfulBatches + 1))
    else
      t.(store := s.store,
         stats := t.stats.(failedBatches := t.stats.failedBatches + 1,
                           totalErrors := t.stats.totalErrors + 1))
  }

  /** Runs the batches in order; `number` is the 1-based number of the
      first one. Every batch is counted once, as successful or failed, and
      each failed one adds one to `totalErrors`. */
  function RunBatches(s: ImportState, batches: seq<seq<Row>>, m: HeaderMapping, isSystem: string -> bool,
                      commitOk: nat -> bool, number: nat): (r: ImportState)
    requires BatchesHaveColumns(batches, m)
    ensures s.processed <= r.processed
    ensures s.store.Keys <= r.store.Keys
    ensures CountersGrow(s.stats, r.stats)
    ensures Extends(s.errors, r.errors)
    ensures (r.stats.successfulBatches - s.stats.successfulBatches)
          + (r.stats.failedBatches - s.stats.failedBatches) == |batches|
    ensures r.stats.totalErrors - s.stats.totalErrors == r.stats.failedBatches - s.stats.failedBatches
    decreases |batches|
  {
    if batches == [] then s
    else
      var t := ProcessBatch(s, batches[0], m, isSystem, commitOk(number));
      var r := RunBatches(t, batches[1..], m, isSystem, commitOk, number + 1);
      ExtendsTransitive(s.errors, t.errors, r.errors);
      r
  }

  /** The error record for a file that could not be processed. */
  function FileError(message: string, file: string): ErrorRecord {
    ErrorRecord(FileProcessingFailure, message, FileContext(file))
  }

  /** A file-level failure: the error is recorded and the run reports
      failure; nothing else changes. */
  function Fail(s: ImportState, message: string, file: string): (r: FileOutcome)
    ensures !r.result.success
    ensures r.state == s.(errors := s.errors + [FileError(message, file)])
    ensures r.result.stats == r.state.stats && r.result.errors == r.state.errors
  {
    var t := s.(errors := s.errors + [FileError(message, file)]);
    FileOutcome(t, RunResult(false, t.stats, t.errors))
  }

  /** `process_file` once the CSV has been read and the system products set
      up: the result reports the processor's cumulative counters and
      errors, and success only when no batch has failed. */
  function ProcessFile(s: ImportState, table: Table, batchSize: int, isSystem: string -> bool,
                       commitOk: nat -> bool, file: string): (r: FileOutcome)
    requires WellFormed(table)
    ensures r.result.stats == r.state.stats && r.result.errors == r.state.errors
    ensures r.result.success ==> r.state.stats.failedBatches == 0
    ensures MapHeaders(table.columns).None? ==> !r.result.success && r.state.store == s.store
    ensures batchSize <= 0 ==> r.state.store == s.store && r.state.processed == s.processed
  {
    match MapHeaders(table.columns)
    case None => Fail(s, MissingColumnsMessage, file)
    case Some(m) =>
      if batchSize == 0 then Fail(s, ZeroDivisionMessage, file)
      else
        // A negative size makes the range of batch starts empty.
        var batches := if batchSize < 0 then [] else Batches(table.rows, batchSize);
        assert BatchesHaveColumns(batches, m) by {
          if batchSize > 0 {
            ConcatMembers(batches, table.rows);
          }
        }
        var t := RunBatches(s, batches, m, isSystem, commitOk, 1);
        FileOutcome(t, RunResult(t.stats.failedBatches == 0, t.stats, t.errors))
  }

  /** Every row of every batch is a row of the concatenation. */
  lemma {:induction false} ConcatMembers(batches: seq<seq<Row>>, rows: seq<Row>)
    requires Concat(batches) == rows
    ensures forall b, i :: 0 <= b < |batches| && 0 <= i < |batches[b]| ==> batches[b][i] in rows
    decreases |batches|
  {
    if batches != [] {
      ConcatMembers(batches[1..], Concat(batches[1..]));
      assert rows == batches[0] + Concat(batches[1..]);
      forall b, i | 0 <= b < |batches| && 0 <= i < |batches[b]|
        ensures batches[b][i] in rows
      {
        if b == 0 {
          assert rows[i] == batches[0][i];
        } else {
          assert batches[b] == batches[1..][b - 1];
        }
      }
    }
  }

  /** Running the batches of `rows[start..]` is running the batch that
      starts at `start` and then the batches after it. */
  lemma RunBatchesFrom(st: ImportState, rows: seq<Row>, start: nat, size: nat, m: HeaderMapping,
                       isSystem: string -> bool, commitOk: nat -> bool, number: nat)
    requires size > 0 && start < |rows|
    requires BatchesHaveColumns(Batches(rows[start..], size), m)
    ensures var stop := Min(start + size, |rows|);
            && AllHaveColumns(rows[start..stop], m)
            && BatchesHaveColumns(Batches(rows[stop..], size), m)
            && RunBatches(st, Batches(rows[start..], size), m, isSystem, commitOk, number)
               == RunBatches(ProcessBatch(st, rows[start..stop], m, isSystem, commitOk(number)),
                             Batches(rows[stop..], size), m, isSystem, commitOk, number + 1)
  {
    var stop := Min(start + size, |rows|);
    var rest := Batches(rows[start..], size);
    BatchesUnfold(rows[start..], size);
    assert rows[start..][..stop - start] == rows[start..stop];
    assert rows[start..][stop - start..] == rows[stop..];
    assert rest[0] == rows[start..stop];
    assert rest[1..] == Batches(rows[stop..], size);
    assert forall b :: 0 <= b < |rest| - 1 ==> rest[1..][b] == rest[b + 1];
  }

  /** The batch loop of `process_file`: batch starts run over
      `range(0, n, size)`, batch numbers count from 1, and each batch is
      committed or rolled back before the next starts. */
  method RunBatchLoop(s: ImportState, rows: seq<Row>, size: nat, m: HeaderMapping,
                      isSystem: string -> bool, commitOk: nat -> bool) returns (st: ImportState)
    requires size > 0 && AllHaveColumns(rows, m)
    ensures BatchesHaveColumns(Batches(rows, size), m)
    ensures st == RunBatches(s, Batches(rows, size), m, isSystem, commitOk, 1)
  {
    assert BatchesHaveColumns(Batches(rows, size), m) by {
      ConcatMembers(Batches(rows, size), rows);
    }
    assert rows[0..] == rows;
    st := s;
    var start := 0;
    var number := 1;
    while start < |rows|
      invariant 0 <= start <= |rows|
      invariant BatchesHaveColumns(Batches(rows[start..], size), m)
      invariant RunBatches(st, Batches(rows[start..], size), m, isSystem, commitOk, number)
                == RunBatches(s, Batches(rows, size), m, isSystem, commitOk, 1)
      decreases |rows| - start
    {
      var stop := Min(start + size, |rows|);
      RunBatchesFrom(st, rows, start, size, m, isSystem, commitOk, number);
      st := ProcessBatch(st, rows[start..stop], m, isSystem, commitOk(number));
      start := stop;
      number := number + 1;
    }
    assert rows[start..] == [];
  }

  /** `process_file` as a procedure: header mapping, then the batch loop,
      then the result. */
  method ProcessFileMethod(s: ImportState, table: Table, batchSize: int, isSystem: string -> bool,
                           commitOk: nat -> bool, file: string) returns (r: FileOutcome)
    requires WellFormed(table)
    ensures r == ProcessFile(s, table, batchSize, isSystem, commitOk, file)
  {
    var mapping := MapHeaders(table.columns);
    if mapping.None? {
      return Fail(s, MissingColumnsMessage, file);
    }
    var m := mapping.value;
    if batchSize == 0 {
      return Fail(s, ZeroDivisionMessage, file);
    }
    var st := s;
    if batchSize > 0 {
      st := RunBatchLoop(s, table.rows, batchSize, m, isSystem, commitOk);
    }
    return FileOutcome(st, RunResult(st.stats.failedBatches == 0, st.stats, st.errors));
  }
}
