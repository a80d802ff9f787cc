/** The state the product processor carries through an import and its
    per-row step (`_process_row`): normalise the row's code and description,
    validate them, skip duplicates and system products, then create the
    product, update its description, or leave it alone.

    The database is a map from product code to product; the processor's own
    state is the set of codes processed so far, the counters, and the
    append-only list of error records. */
module Processor {
  import opened Wrappers
  import opened Text
  import opened Validation

  /** One CSV row, already read as strings, keyed by column header. */
  type Row = map<string, string>

  /** The CSV column each field of the processor is read from. */
  datatype HeaderMapping = HeaderMapping(codeColumn: string, descriptionColumn: string)

  /** A product as the processor writes it; `name` starts out as the code. */
  datatype Product = Product(code: string, name: string, description: string)

  /** The products table, keyed by product code. */
  type Store = map<string, Product>

  /** The processor's counters. */
  datatype Stats = Stats(
    totalProducts: nat,
    created: nat,
    updated: nat,
    skipped: nat,
    validationErrors: nat,
    successfulBatches: nat,
    failedBatches: nat,
    totalErrors: nat)
  {
    /** Rows that passed validation and were counted one way or another. */
    function Handled(): nat {
      created + updated + skipped
    }
  }

  const ZeroStats := Stats(0, 0, 0, 0, 0, 0, 0, 0)

  /** The category an error record is filed under: `validation` for a
      row's validation messages, `file_processing` for a file that could
      not be processed. */
  datatype Category = ValidationFailure | FileProcessingFailure

  /** What an error record carries besides its message: the offending row,
      or the path of the file that could not be processed. */
  datatype Context = RowContext(row: Row) | FileContext(file: string)

  datatype ErrorRecord = ErrorRecord(category: Category, message: string, context: Context)

  /** The database together with everything the processor remembers. */
  datatype ImportState = ImportState(
    store: Store,
    processed: set<string>,
    stats: Stats,
    errors: seq<ErrorRecord>)

  /** A processor that has not seen any row, over the given database. */
  function Fresh(store: Store): ImportState {
    ImportState(store, {}, ZeroStats, [])
  }

  predicate HasColumns(row: Row, m: HeaderMapping) {
    m.codeColumn in row && m.descriptionColumn in row
  }

  /** Codes are trimmed and upper-cased before they are validated or looked
      up: the result is the trimmed code, character by character equal to it
      when case is ignored, with no lower-case letter and no whitespace at
      either end. */
  function NormalizeCode(raw: string): (r: string)
    ensures NoLower(r)
    ensures |r| <= |raw|
    ensures |r| == |Strip(raw)|
    ensures forall i :: 0 <= i < |r| ==> LowerChar(r[i]) == LowerChar(Strip(raw)[i])
    ensures r == [] || (!IsSpace(r[0]) && !IsSpace(r[|r| - 1]))
  {
    ToUpper(Strip(raw))
  }

  /** Descriptions are trimmed: the result is the slice of the raw value
      between its leading and trailing whitespace, it has no whitespace at
      either end, and trimming it again changes nothing. */
  function NormalizeDescription(raw: string): (r: string)
    ensures |r| <= |raw|
    ensures var i := SkipSpaces(raw, 0);
              && i <= |raw| - |r| && r == raw[i..i + |r|]
              && (forall k :: 0 <= k < i ==> IsSpace(raw[k]))
              && (forall k :: i + |r| <= k < |raw| ==> IsSpace(raw[k]))
    ensures r == [] || (!IsSpace(r[0]) && !IsSpace(r[|r| - 1]))
    ensures Strip(r) == r
  {
    StripUnchanged(Strip(raw));
    Strip(raw)
  }

  function RowCode(row: Row, m: HeaderMapping): string
    requires HasColumns(row, m)
  {
    NormalizeCode(row[m.codeColumn])
  }

  function RowDescription(row: Row, m: HeaderMapping): string
    requires HasColumns(row, m)
  {
    NormalizeDescription(row[m.descriptionColumn])
  }

  /** The validation messages a row produces. */
  function RowMessages(row: Row, m: HeaderMapping): seq<Message>
    requires HasColumns(row, m)
  {
    ValidateProductData(RowCode(row, m), RowDescription(row, m))
  }

  /** One `validation` error record per message, each carrying the row. */
  function ValidationRecords(messages: seq<Message>, row: Row): (r: seq<ErrorRecord>)
    ensures |r| == |messages|
    ensures forall i :: 0 <= i < |r| ==> r[i].category == ValidationFailure && r[i].context == RowContext(row)
    ensures forall i :: 0 <= i < |r| ==> r[i].message == messages[i].Wording()
  {
    seq(|messages|, i requires 0 <= i < |messages| =>
      ErrorRecord(ValidationFailure, messages[i].Wording(), RowContext(row)))
  }

  /** `b` extends `a` without touching what `a` already held. */
  predicate Extends<T(==)>(a: seq<T>, b: seq<T>) {
    |a| <= |b| && b[..|a|] == a
  }

  lemma ExtendsTransitive<T>(a: seq<T>, b: seq<T>, c: seq<T>)
    requires Extends(a, b) && Extends(b, c)
    ensures Extends(a, c)
  {
    assert c[..|a|] == c[..|b|][..|a|];
  }

  /** No counter went down between `s` and `t`. */
  predicate CountersGrow(s: Stats, t: Stats) {
    && s.totalProducts <= t.totalProducts
    && s.created <= t.created
    && s.updated <= t.updated
    && s.skipped <= t.skipped
    && s.validationErrors <= t.validationErrors
    && s.successfulBatches <= t.successfulBatches
    && s.failedBatches <= t.failedBatches
    && s.totalErrors <= t.totalErrors
  }

  /** Processes one row. A row either fails validation (and only its error
      records and the validation counter change) or is counted exactly once
      as created, updated or skipped; processed codes and counters only
      grow, the error list only grows, and the batch counters are not
      touched. */
  function ProcessRow(s: ImportState, row: Row, m: HeaderMapping, isSystem: string -> bool): (r: ImportState)
    requires HasColumns(row, m)
    ensures s.processed <= r.processed
    ensures s.store.Keys <= r.store.Keys
    ensures r.processed - s.processed <= r.store.Keys
    ensures CountersGrow(s.stats, r.stats)
    ensures Extends(s.errors, r.errors)
    ensures r.stats.successfulBatches == s.stats.successfulBatches
    ensures r.stats.failedBatches == s.stats.failedBatches
    ensures r.stats.totalErrors == s.stats.totalErrors
    ensures r.stats.validationErrors - s.stats.validationErrors == |r.errors| - |s.errors| <= 4
    ensures r.stats.Handled() <= s.stats.Handled() + 1
    ensures r.stats.validationErrors == s.stats.validationErrors
        <==> r.stats.Handled() == s.stats.Handled() + 1
  {
    Step(s, row, RowCode(row, m), RowDescription(row, m), RowMessages(row, m), isSystem)
  }

  /** The decision `_process_row` takes once the row's code and description
      are normalised and validated. */
  function Step(s: ImportState, row: Row, code: string, description: string, messages: seq<Message>,
                isSystem: string -> bool): (r: ImportState)
    ensures s.processed <= r.processed
    ensures s.store.Keys <= r.store.Keys
    ensures r.processed - s.processed <= r.store.Keys
    ensures r.store.Keys - s.store.Keys <= r.processed - s.processed
    ensures messages == [] ==> code in r.processed || isSystem(code)
    ensures CountersGrow(s.stats, r.stats)
    ensures Extends(s.errors, r.errors)
    ensures r.stats.successfulBatches == s.stats.successfulBatches
    ensures r.stats.failedBatches == s.stats.failedBatches
    ensures r.stats.totalErrors == s.stats.totalErrors
    ensures r.stats.validationErrors - s.stats.validationErrors == |r.errors| - |s.errors|
         == (if messages == [] then 0 else |messages|)
    ensures r.stats.Handled() == s.stats.Handled() + (if messages == [] then 1 else 0)
  {
    if messages != [] then RejectRow(s, row, messages)
    else if code in s.processed || isSystem(code) then SkipRow(s)
    else AcceptRow(s, code, description)
  }

  /** A row that failed validation: its messages are recorded and counted. */
  function RejectRow(s: ImportState, row: Row, messages: seq<Message>): ImportState {
    s.(stats := s.stats.(validationErrors := s.stats.validationErrors + |messages|),
       errors := s.errors + ValidationRecords(messages, row))
  }

  /** A duplicate or a system product: only counted as skipped. */
  function SkipRow(s: ImportState): ImportState {
    s.(stats := s.stats.(skipped := s.stats.skipped + 1))
  }

  /** A valid code seen for the first time: remembered and counted, then
      the product is created, or its description updated, or left alone. */
  function AcceptRow(s: ImportState, code: string, description: string): ImportState {
    var processed := s.processed + {code};
    var stats := s.stats.(totalProducts := s.stats.totalProducts + 1);
    if code in s.store then
      var product := s.store[code];
      if description != [] && description != product.description then
        s.(store := s.store[code := product.(description := description)],
           processed := processed,
           stats := stats.(updated := stats.updated + 1))
      else
        s.(processed := processed, stats := stats.(skipped := stats.skipped + 1))
    else
      s.(store := s.store[code := Product(code, code, description)],
         processed := processed,
         stats := stats.(created := stats.created + 1))
  }

  /** Processes rows in order, each seeing the state the previous ones left. */
  function ProcessRows(s: ImportState, rows: seq<Row>, m: HeaderMapping, isSystem: string -> bool): (r: ImportState)
    requires forall i :: 0 <= i < |rows| ==> HasColumns(rows[i], m)
    ensures s.processed <= r.processed
    ensures s.store.Keys <= r.store.Keys
    ensures r.processed - s.processed <= r.store.Keys
    ensures CountersGrow(s.stats, r.stats)
    ensures Extends(s.errors, r.errors)
    ensures r.stats.successfulBatches == s.stats.successfulBatches
    ensures r.stats.failedBatches == s.stats.failedBatches
    ensures r.stats.totalErrors == s.stats.totalErrors
    ensures r.stats.validationErrors - s.stats.validationErrors == |r.errors| - |s.errors|
    ensures r.stats.Handled() - s.stats.Handled() <= |rows|
    decreases |rows|
  {
    if rows == [] then s
    else
      var t := ProcessRows(s, rows[..|rows| - 1], m, isSystem);
      var r := ProcessRow(t, rows[|rows| - 1], m, isSystem);
      ExtendsTransitive(s.errors, t.errors, r.errors);
      r
  }

  /** The fold's last step: the last row, on the state the others left. */
  lemma ProcessRowsLast(s: ImportState, rows: seq<Row>, m: HeaderMapping, isSystem: string -> bool)
    requires forall i :: 0 <= i < |rows| ==> HasColumns(rows[i], m)
    requires rows != []
    ensures ProcessRows(s, rows, m, isSystem)
         == ProcessRow(ProcessRows(s, rows[..|rows| - 1], m, isSystem), rows[|rows| - 1], m, isSystem)
  {
  }
}
