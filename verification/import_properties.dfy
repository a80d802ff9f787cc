/** What a whole file does: the failure paths, the success flag, the number
    of batches, the all-or-nothing commit of each batch and its visible
    consequences, and the invariants a run preserves. */
module ImportProperties {
  import opened Text
  import opened Validation
  import opened Batching
  import opened Processor
  import opened RowProperties
  import opened Importer

  /** A file without the product-code or the description column is
      rejected as a whole: the run fails, one `file_processing` error is
      recorded, and nothing else changes. */
  lemma MissingColumnsFails(s: ImportState, table: Table, batchSize: int, isSystem: string -> bool,
                            commitOk: nat -> bool, file: string)
    requires WellFormed(table)
    requires "Product/Service" !in table.columns || "Product/Service Description" !in table.columns
    ensures var r := ProcessFile(s, table, batchSize, isSystem, commitOk, file);
            && !r.result.success
            && r.state.store == s.store
            && r.state.processed == s.processed
            && r.state.stats == s.stats
            && r.state.errors == s.errors + [ErrorRecord(FileProcessingFailure, MissingColumnsMessage, FileContext(file))]
  {
  }

  /** A batch size of zero fails the file when the batch count is computed:
      one `file_processing` record carrying the division error is added,
      and nothing else changes. */
  lemma ZeroBatchSizeFails(s: ImportState, table: Table, isSystem: string -> bool,
                           commitOk: nat -> bool, file: string)
    requires WellFormed(table) && MapHeaders(table.columns).Some?
    ensures var r := ProcessFile(s, table, 0, isSystem, commitOk, file);
            && !r.result.success
            && r.state == s.(errors := s.errors + [ErrorRecord(FileProcessingFailure, ZeroDivisionMessage, FileContext(file))])
  {
  }

  /** `success` is read off the cumulative failed-batch counter, which no
      file resets: once a batch has failed, every later file run by the same
      processor reports failure, and the counter stays positive for the
      file after it. */
  lemma FailedBatchIsSticky(s: ImportState, table: Table, batchSize: int, isSystem: string -> bool,
                            commitOk: nat -> bool, file: string)
    requires WellFormed(table) && s.stats.failedBatches > 0
    ensures var r := ProcessFile(s, table, batchSize, isSystem, commitOk, file);
            !r.result.success && r.state.stats.failedBatches > 0
  {
  }

  /** With the columns found and a positive batch size, a file is its
      batches run from number 1, and success means no failed batch. */
  lemma FileRunsBatches(s: ImportState, table: Table, batchSize: int, isSystem: string -> bool,
                        commitOk: nat -> bool, file: string)
    requires WellFormed(table) && MapHeaders(table.columns).Some? && batchSize > 0
    ensures var m := MapHeaders(table.columns).value;
            var batches := Batches(table.rows, batchSize);
            var r := ProcessFile(s, table, batchSize, isSystem, commitOk, file);
            && |batches| == (|table.rows| + batchSize - 1) / batchSize
            && AllHaveColumns(table.rows, m)
            && BatchesHaveColumns(batches, m)
            && r.state == RunBatches(s, batches, m, isSystem, commitOk, 1)
            && (r.result.success <==> r.state.stats.failedBatches == 0)
  {
    var m := MapHeaders(table.columns).value;
    var batches := Batches(table.rows, batchSize);
    assert |batches| == (|table.rows| + batchSize - 1) / batchSize;
    ConcatMembers(batches, table.rows);
  }

  /** Once the columns are found and the batch size is usable, the run
      succeeds exactly when the processor's failed-batch counter is zero. */
  lemma SuccessIffNoFailedBatch(s: ImportState, table: Table, batchSize: int, isSystem: string -> bool,
                                commitOk: nat -> bool, file: string)
    requires WellFormed(table) && MapHeaders(table.columns).Some? && batchSize != 0
    ensures var r := ProcessFile(s, table, batchSize, isSystem, commitOk, file);
            r.result.success <==> r.state.stats.failedBatches == 0
  {
  }

  /** A positive batch size runs `ceil(n / size)` batches, each counted as
      successful or failed. */
  lemma BatchCountIsCeiling(s: ImportState, table: Table, batchSize: int, isSystem: string -> bool,
                            commitOk: nat -> bool, file: string)
    requires WellFormed(table) && MapHeaders(table.columns).Some? && batchSize > 0
    ensures var r := ProcessFile(s, table, batchSize, isSystem, commitOk, file);
            (r.state.stats.successfulBatches - s.stats.successfulBatches)
            + (r.state.stats.failedBatches - s.stats.failedBatches)
            == (|table.rows| + batchSize - 1) / batchSize
  {
    FileRunsBatches(s, table, batchSize, isSystem, commitOk, file);
  }

  /** The commits of batches `from` to `from + count - 1` all succeed. */
  predicate AllCommitted(commitOk: nat -> bool, from: nat, count: int) {
    forall j :: from <= j < from + count ==> commitOk(j)
  }

  /** Running batches from the first one on: the first batch's outcome,
      then the rest. */
  lemma RunBatchesStep(s: ImportState, batches: seq<seq<Row>>, m: HeaderMapping,
                       isSystem: string -> bool, commitOk: nat -> bool, number: nat)
    requires BatchesHaveColumns(batches, m) && batches != []
    ensures AllHaveColumns(batches[0], m) && BatchesHaveColumns(batches[1..], m)
    ensures var t := ProcessBatch(s, batches[0], m, isSystem, commitOk(number));
            RunBatches(s, batches, m, isSystem, commitOk, number)
            == RunBatches(t, batches[1..], m, isSystem, commitOk, number + 1)
  {
    assert AllHaveColumns(batches[0], m);
  }

  /** The commits of batches `from` to `from + count` all succeed exactly
      when the first does and those after it do. */
  lemma AllCommittedStep(commitOk: nat -> bool, from: nat, count: int)
    requires count > 0
    ensures AllCommitted(commitOk, from, count) <==> commitOk(from) && AllCommitted(commitOk, from + 1, count - 1)
  {
    if commitOk(from) && AllCommitted(commitOk, from + 1, count - 1) {
      forall j | from <= j < from + count
        ensures commitOk(j)
      {
        if j > from {
          assert from + 1 <= j < from + 1 + (count - 1);
        }
      }
    }
  }

  /** No batch fails exactly when every batch's commit succeeds. */
  lemma {:induction false} NoFailureIffAllCommitted(s: ImportState, batches: seq<seq<Row>>, m: HeaderMapping,
                                                    isSystem: string -> bool, commitOk: nat -> bool, number: nat)
    requires BatchesHaveColumns(batches, m)
    ensures RunBatches(s, batches, m, isSystem, commitOk, number).stats.failedBatches == s.stats.failedBatches
        <==> AllCommitted(commitOk, number, |batches|)
    decreases |batches|
  {
    if batches != [] {
      RunBatchesStep(s, batches, m, isSystem, commitOk, number);
      AllCommittedStep(commitOk, number, |batches|);
      var t := ProcessBatch(s, batches[0], m, isSystem, commitOk(number));
      NoFailureIffAllCommitted(t, batches[1..], m, isSystem, commitOk, number + 1);
    }
  }

  /** A processor that has never seen a failed batch reports success for a
      file exactly when the commit of every one of its batches succeeds. */
  lemma FreshRunSucceedsIffAllCommitted(s: ImportState, table: Table, batchSize: int, isSystem: string -> bool,
                                        commitOk: nat -> bool, file: string)
    requires WellFormed(table) && MapHeaders(table.columns).Some? && batchSize > 0
    requires s.stats.failedBatches == 0
    ensures ProcessFile(s, table, batchSize, isSystem, commitOk, file).result.success
        <==> AllCommitted(commitOk, 1, (|table.rows| + batchSize - 1) / batchSize)
  {
    FileRunsBatches(s, table, batchSize, isSystem, commitOk, file);
    NoFailureIffAllCommitted(s, Batches(table.rows, batchSize), MapHeaders(table.columns).value,
                             isSystem, commitOk, 1);
  }

  /** Processing one more row is one more step of the fold. */
  lemma ProcessRowsSnoc(s: ImportState, rows: seq<Row>, row: Row, m: HeaderMapping, isSystem: string -> bool)
    requires AllHaveColumns(rows, m) && HasColumns(row, m)
    ensures AllHaveColumns(rows + [row], m)
    ensures ProcessRows(s, rows + [row], m, isSystem) == ProcessRow(ProcessRows(s, rows, m, isSystem), row, m, isSystem)
  {
    var r := rows + [row];
    assert r[..|r| - 1] == rows;
    assert r[|r| - 1] == row;
  }

  /** Processing two runs of rows one after the other is processing them
      together. */
  lemma {:induction false} ProcessRowsAppend(s: ImportState, a: seq<Row>, b: seq<Row>, m: HeaderMapping,
                                             isSystem: string -> bool)
    requires AllHaveColumns(a, m) && AllHaveColumns(b, m)
    ensures AllHaveColumns(a + b, m)
    ensures ProcessRows(s, a + b, m, isSystem) == ProcessRows(ProcessRows(s, a, m, isSystem), b, m, isSystem)
    decreases |b|
  {
    ProcessRowsAppendColumns(a, b, m);
    if b == [] {
      assert a + b == a;
    } else {
      var b' := b[..|b| - 1];
      var last := b[|b| - 1];
      assert AllHaveColumns(b', m) && HasColumns(last, m);
      assert b == b' + [last];
      assert a + b == (a + b') + [last];
      ProcessRowsAppendColumns(a, b', m);
      ProcessRowsAppend(s, a, b', m, isSystem);
      ProcessRowsSnoc(s, a + b', last, m, isSystem);
      ProcessRowsSnoc(ProcessRows(s, a, m, isSystem), b', last, m, isSystem);
    }
  }

  /** The processor with its successful-batch counter set to `x`. */
  function WithSuccessfulBatches(s: ImportState, x: nat): ImportState {
    s.(stats := s.stats.(successfulBatches := x))
  }

  /** Rows never read or write the successful-batch counter. */
  lemma RowIgnoresBatchCounter(s: ImportState, row: Row, m: HeaderMapping, isSystem: string -> bool, x: nat)
    requires HasColumns(row, m)
    ensures ProcessRow(WithSuccessfulBatches(s, x), row, m, isSystem)
         == WithSuccessfulBatches(ProcessRow(s, row, m, isSystem), x)
  {
    StepIgnoresBatchCounter(s, row, RowCode(row, m), RowDescription(row, m), RowMessages(row, m), isSystem, x);
  }

  lemma StepIgnoresBatchCounter(s: ImportState, row: Row, code: string, description: string,
                                messages: seq<Message>, isSystem: string -> bool, x: nat)
    ensures Step(WithSuccessfulBatches(s, x), row, code, description, messages, isSystem)
         == WithSuccessfulBatches(Step(s, row, code, description, messages, isSystem), x)
  {
  }

  lemma {:induction false} RowsIgnoreBatchCounter(s: ImportState, rows: seq<Row>, m: HeaderMapping,
                                                  isSystem: string -> bool, x: nat)
    requires AllHaveColumns(rows, m)
    ensures ProcessRows(WithSuccessfulBatches(s, x), rows, m, isSystem)
         == WithSuccessfulBatches(ProcessRows(s, rows, m, isSystem), x)
    decreases |rows|
  {
    if rows != [] {
      var prefix := rows[..|rows| - 1];
      RowsIgnoreBatchCounter(s, prefix, m, isSystem, x);
      RowIgnoresBatchCounter(ProcessRows(s, prefix, m, isSystem), rows[|rows| - 1], m, isSystem, x);
    }
  }

  /** Every row of the batches has the mapped columns. */
  lemma {:induction false} ConcatHasColumns(batches: seq<seq<Row>>, m: HeaderMapping)
    requires BatchesHaveColumns(batches, m)
    ensures AllHaveColumns(Concat(batches), m)
    decreases |batches|
  {
    if batches != [] {
      ConcatHasColumns(batches[1..], m);
      ProcessRowsAppendColumns(batches[0], Concat(batches[1..]), m);
    }
  }

  lemma ProcessRowsAppendColumns(a: seq<Row>, b: seq<Row>, m: HeaderMapping)
    requires AllHaveColumns(a, m) && AllHaveColumns(b, m)
    ensures AllHaveColumns(a + b, m)
  {
    assert forall i :: 0 <= i < |a + b| ==> (a + b)[i] in a || (a + b)[i] in b;
  }

  /** When every commit succeeds, batching is invisible: the run ends in
      the state that processing all rows in one go reaches, apart from the
      successful-batch counter, which counts the batches. */
  lemma {:induction false} CommittedBatchesAreUnbatched(s: ImportState, batches: seq<seq<Row>>, m: HeaderMapping,
                                                        isSystem: string -> bool, commitOk: nat -> bool, number: nat)
    requires BatchesHaveColumns(batches, m)
    requires AllCommitted(commitOk, number, |batches|)
    ensures AllHaveColumns(Concat(batches), m)
    ensures RunBatches(s, batches, m, isSystem, commitOk, number)
         == WithSuccessfulBatches(ProcessRows(s, Concat(batches), m, isSystem),
                                  s.stats.successfulBatches + |batches|)
    decreases |batches|
  {
    ConcatHasColumns(batches, m);
    if batches != [] {
      var first := batches[0];
      var rest := batches[1..];
      ConcatHasColumns(rest, m);
      var u := ProcessRows(s, first, m, isSystem);
      var t := ProcessBatch(s, first, m, isSystem, true);
      assert t == WithSuccessfulBatches(u, s.stats.successfulBatches + 1);
      CommittedBatchesAreUnbatched(t, rest, m, isSystem, commitOk, number + 1);
      RowsIgnoreBatchCounter(u, Concat(rest), m, isSystem, s.stats.successfulBatches + 1);
      ProcessRowsAppend(s, first, Concat(rest), m, isSystem);
    }
  }

  /** At file level: with every commit succeeding, the database, the
      processed codes and the errors are those of processing the rows
      without batches. */
  lemma AllCommittedFileIsUnbatched(s: ImportState, table: Table, batchSize: int, isSystem: string -> bool,
                                    commitOk: nat -> bool, file: string)
    requires WellFormed(table) && MapHeaders(table.columns).Some? && batchSize > 0
    requires AllCommitted(commitOk, 1, (|table.rows| + batchSize - 1) / batchSize)
    ensures var m := MapHeaders(table.columns).value;
            var r := ProcessFile(s, table, batchSize, isSystem, commitOk, file);
            && AllHaveColumns(table.rows, m)
            && r.state.store == ProcessRows(s, table.rows, m, isSystem).store
            && r.state.processed == ProcessRows(s, table.rows, m, isSystem).processed
            && r.state.errors == ProcessRows(s, table.rows, m, isSystem).errors
  {
    FileRunsBatches(s, table, batchSize, isSystem, commitOk, file);
    CommittedBatchesAreUnbatched(s, Batches(table.rows, batchSize), MapHeaders(table.columns).value,
                                 isSystem, commitOk, 1);
  }

  /** A batch keeps the invariant whether it commits or rolls back, and
      every key it adds to the database is a code it processed. */
  lemma BatchPreservesInvariant(s: ImportState, batch: seq<Row>, m: HeaderMapping, isSystem: string -> bool,
                                committed: bool)
    requires AllHaveColumns(batch, m) && Invariant(s, isSystem)
    ensures var r := ProcessBatch(s, batch, m, isSystem, committed);
            && Invariant(r, isSystem)
            && r.store.Keys - s.store.Keys <= r.processed - s.processed
  {
    RowsPreserveInvariant(s, batch, m, isSystem);
  }

  lemma {:induction false} BatchesPreserveInvariant(s: ImportState, batches: seq<seq<Row>>, m: HeaderMapping,
                                                    isSystem: string -> bool, commitOk: nat -> bool, number: nat)
    requires BatchesHaveColumns(batches, m) && Invariant(s, isSystem)
    ensures var r := RunBatches(s, batches, m, isSystem, commitOk, number);
            && Invariant(r, isSystem)
            && r.store.Keys - s.store.Keys <= r.processed - s.processed
    decreases |batches|
  {
    if batches != [] {
      RunBatchesStep(s, batches, m, isSystem, commitOk, number);
      BatchPreservesInvariant(s, batches[0], m, isSystem, commitOk(number));
      var t := ProcessBatch(s, batches[0], m, isSystem, commitOk(number));
      BatchesPreserveInvariant(t, batches[1..], m, isSystem, commitOk, number + 1);
      var r := RunBatches(t, batches[1..], m, isSystem, commitOk, number + 1);
      forall k | k in r.store.Keys - s.store.Keys
        ensures k in r.processed - s.processed
      {
        if k in t.store.Keys {
          assert k in t.processed - s.processed;
        } else {
          assert k in r.processed - t.processed;
        }
      }
    }
  }

  /** A file keeps the invariant: from a fresh processor, `totalProducts`
      is the number of processed codes, creations plus updates never exceed
      it, every processed code is valid, upper-case and not a system
      product, and every product is stored under its own code. In
      particular every product the file adds to the database has a valid,
      upper-case code that names no system product. */
  lemma FilePreservesInvariant(s: ImportState, table: Table, batchSize: int, isSystem: string -> bool,
                               commitOk: nat -> bool, file: string)
    requires WellFormed(table) && Invariant(s, isSystem)
    ensures var r := ProcessFile(s, table, batchSize, isSystem, commitOk, file).state;
            && Invariant(r, isSystem)
            && forall k :: k in r.store && k !in s.store ==> ValidCode(k) && NoLower(k) && !isSystem(k)
  {
    if MapHeaders(table.columns).Some? && batchSize > 0 {
      FileRunsBatches(s, table, batchSize, isSystem, commitOk, file);
      BatchesPreserveInvariant(s, Batches(table.rows, batchSize), MapHeaders(table.columns).value,
                               isSystem, commitOk, 1);
      var r := ProcessFile(s, table, batchSize, isSystem, commitOk, file).state;
      forall k | k in r.store && k !in s.store
        ensures ValidCode(k) && NoLower(k) && !isSystem(k)
      {
        assert k in r.store.Keys - s.store.Keys;
        assert k in r.processed;
      }
    } else {
      FileWithoutBatchesKeepsData(s, table, batchSize, isSystem, commitOk, file);
    }
  }

  /** A file that runs no batch (missing columns, or a batch size that is
      not positive) leaves the database, the processed codes and the
      counters alone. */
  lemma FileWithoutBatchesKeepsData(s: ImportState, table: Table, batchSize: int, isSystem: string -> bool,
                                    commitOk: nat -> bool, file: string)
    requires WellFormed(table)
    requires MapHeaders(table.columns).None? || batchSize <= 0
    ensures var r := ProcessFile(s, table, batchSize, isSystem, commitOk, file).state;
            r.store == s.store && r.processed == s.processed && r.stats == s.stats
  {
  }

  /** A processed code missing from the database stays missing for every
      later batch. */
  lemma {:induction false} BatchesKeepProcessedCodeAbsent(
    s: ImportState, batches: seq<seq<Row>>, m: HeaderMapping, isSystem: string -> bool,
    commitOk: nat -> bool, number: nat, code: string)
    requires BatchesHaveColumns(batches, m)
    requires code in s.processed && code !in s.store
    ensures code !in RunBatches(s, batches, m, isSystem, commitOk, number).store
    decreases |batches|
  {
    if batches != [] {
      ProcessedAbsentCodeStaysAbsent(s, batches[0], m, isSystem, code);
      var t := ProcessBatch(s, batches[0], m, isSystem, commitOk(number));
      BatchesKeepProcessedCodeAbsent(t, batches[1..], m, isSystem, commitOk, number + 1, code);
    }
  }

  /** Running a batch followed by more batches. */
  lemma RunBatchesCons(s: ImportState, batch: seq<Row>, rest: seq<seq<Row>>, m: HeaderMapping,
                       isSystem: string -> bool, commitOk: nat -> bool, number: nat)
    requires AllHaveColumns(batch, m) && BatchesHaveColumns(rest, m)
    ensures BatchesHaveColumns([batch] + rest, m)
    ensures RunBatches(s, [batch] + rest, m, isSystem, commitOk, number)
         == RunBatches(ProcessBatch(s, batch, m, isSystem, commitOk(number)), rest, m, isSystem, commitOk, number + 1)
  {
    var batches := [batch] + rest;
    assert batches[0] == batch && batches[1..] == rest;
    assert forall b :: 0 < b < |batches| ==> batches[b] == rest[b - 1];
  }

  /** A code the processor has processed but the database lacks (the
      product of a rolled-back batch) stays missing through any later file
      run by the same processor: every row with that code is skipped as a
      duplicate. */
  lemma LostProductStaysLost(s: ImportState, table: Table, batchSize: int, isSystem: string -> bool,
                             commitOk: nat -> bool, file: string, code: string)
    requires WellFormed(table)
    requires code in s.processed && code !in s.store
    ensures var r := ProcessFile(s, table, batchSize, isSystem, commitOk, file).state;
            code in r.processed && code !in r.store
  {
    if MapHeaders(table.columns).Some? && batchSize > 0 {
      FileRunsBatches(s, table, batchSize, isSystem, commitOk, file);
      BatchesKeepProcessedCodeAbsent(s, Batches(table.rows, batchSize), MapHeaders(table.columns).value,
                                     isSystem, commitOk, 1, code);
    }
  }

  /** A rolled-back batch discards its rows' database writes but not their
      counting: every row is still counted as handled or invalid, the
      validation counter still grows by the rows' messages, `totalProducts`
      still counts every code the batch newly processed, and the batch
      itself adds one to `totalErrors`. */
  lemma RolledBackBatchCountsRows(s: ImportState, batch: seq<Row>, m: HeaderMapping, isSystem: string -> bool)
    requires AllHaveColumns(batch, m)
    ensures var r := ProcessBatch(s, batch, m, isSystem, false);
            && r.store == s.store
            && r.stats.Handled() - s.stats.Handled() + InvalidRows(batch, m) == |batch|
            && r.stats.validationErrors - s.stats.validationErrors == MessageCount(batch, m)
            && r.stats.totalProducts - s.stats.totalProducts == |r.processed| - |s.processed|
            && r.stats.totalErrors == s.stats.totalErrors + 1
  {
    RowsAccounted(s, batch, m, isSystem);
    RowsCountProducts(s, batch, m, isSystem);
  }

  /** A product a batch would create ends up in the database exactly when
      that batch commits: a rolled-back batch leaves its codes in the
      processed set, so every later row with the same code is skipped as a
      duplicate and the product is never created during this processor's
      life. */
  lemma NewProductSurvivesIffCommitted(
    s: ImportState, batch: seq<Row>, rest: seq<seq<Row>>, m: HeaderMapping, isSystem: string -> bool,
    commitOk: nat -> bool, number: nat, code: string)
    requires AllHaveColumns(batch, m) && BatchesHaveColumns(rest, m)
    requires code !in s.processed && code !in s.store
    ensures BatchesHaveColumns([batch] + rest, m)
    ensures code in ProcessRows(s, batch, m, isSystem).processed
        ==> (code in RunBatches(s, [batch] + rest, m, isSystem, commitOk, number).store <==> commitOk(number))
  {
    RunBatchesCons(s, batch, rest, m, isSystem, commitOk, number);
    if code in ProcessRows(s, batch, m, isSystem).processed {
      var t := ProcessBatch(s, batch, m, isSystem, commitOk(number));
      if commitOk(number) {
        assert code in t.store;
      } else {
        BatchesKeepProcessedCodeAbsent(t, rest, m, isSystem, commitOk, number + 1, code);
      }
    }
  }
}
