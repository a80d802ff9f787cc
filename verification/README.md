# Product import, modelled in Dafny

This project models the product processor of the sales-data importer
(`importer/processors/product.py`). The processor reads a CSV export of
products and services and brings a products table up to date. It:

- maps the CSV headers to the two fields it needs (the product code and the
  description);
- splits the rows into batches of a fixed size;
- runs every row of a batch through one unit of work, and commits or rolls
  back that unit as a whole;
- reports success only when no batch has failed.

Each row goes through these steps in order:

1. The code is trimmed and upper-cased, and the description is trimmed.
2. Both are checked by three validators: the code's format, the
   description's length, and two business rules (no `TEST-` products, no
   deprecated products).
3. A row that passes validation is skipped when its code was already
   processed or names a system product.
4. Otherwise its product is created, its description is updated, or it is
   left alone.

The model is functional. The database is a map from product code to product.
The processor's memory is the set of processed codes, its counters and an
append-only list of error records. The per-row step is a pure function,
folded over the rows of a batch and then over the batches. A batch commits
its writes to the map or discards them. It never discards the processed
codes, the counters or the error records.

Files:

- `wrappers.dfy`: `Option`.
- `text.dfy`: Python's `strip`, `upper`, `lower`, `isalnum` and `startswith`.
- `validation.dfy`: the three validators and their messages.
- `processor.dfy`: the import state and the per-row step.
- `row_properties.dfy`: what a row does, case by case, and the invariants
  that rows keep.
- `batching.dfy`: slicing rows into batches.
- `importer.dfy`: header mapping, batch commit or rollback, the file driver
  as a function and as a loop.
- `import_properties.dfy`: file-level properties. These cover the failure
  paths, the success flag, the batch count, batching being invisible when
  every commit succeeds, invariants, and products lost to a rolled-back
  batch.

Behaviour worth knowing, all proved below:

- The processor's set of processed codes, its counters and its error list
  live as long as the processor. They are not reset between files or when a
  batch rolls back. `success` is computed from the cumulative
  `failed_batches`, so once any batch has failed, every later file processed
  by the same processor also reports failure
  (`ImportProperties.FailedBatchIsSticky`).
- A rolled-back batch leaves its codes in the processed set. A product that
  such a batch would have created is then skipped as a duplicate by every
  later row with that code, so it is not created during that processor's
  life. Within the file this is `ImportProperties.NewProductSurvivesIffCommitted`;
  across later files it is `ImportProperties.LostProductStaysLost`.
- A batch size of zero makes the batch-count division raise. The outer
  handler turns that into a `file_processing` error
  (`ImportProperties.ZeroBatchSizeFails`).
- A negative batch size produces no batches at all, and the run reports
  success unless an earlier batch had failed
  (`ImportProperties.FileWithoutBatchesKeepsData`,
  `ImportProperties.SuccessIffNoFailedBatch`).
- A rolled-back batch discards only its database writes. Its rows still
  count towards `total_products`, `created`, `updated`, `skipped` and
  `validation_errors`, and the batch adds one to `total_errors`
  (`ImportProperties.RolledBackBatchCountsRows`).

Parameters standing for code that is not part of this model:

- `isSystem` stands for `is_system_product`.
- `commitOk(n)` is the outcome of the commit of batch number `n`, counting
  from 1.

## Model

| member | source | states |
|---|---|---|
| Text.SkipSpaces | importer/processors/product.py:203 | leading part of `strip()`: the index returned is the first non-whitespace position at or after the start, and everything skipped is whitespace |
| Text.TrimEnd | importer/processors/product.py:203 | trailing part of `strip()`: the end returned has no whitespace just before it (unless the range is empty), and everything cut off is whitespace |
| Text.Strip | importer/processors/product.py:203-204 | `strip()` yields a contiguous slice of the input with only whitespace around it and none at its own ends |
| Text.ToUpper | importer/processors/product.py:203 | `upper()` keeps the length, leaves no lower-case letter, and agrees with the input character by character when case is ignored |
| Text.ToLower | importer/processors/product.py:194 | `lower()` keeps the length, leaves no upper-case letter, and agrees with the input when case is ignored |
| Text.StripUnchanged | importer/processors/product.py:203-204 | a string with no whitespace at either end is its own `strip()` |
| Text.StripIdempotent | importer/processors/product.py:203-204 | trimming an already trimmed value changes nothing |
| Text.ToUpperFixpoint | importer/processors/product.py:203 | upper-casing is idempotent; a string is its own upper-case form iff it has no lower-case letter |
| Text.LowerStartsWith | importer/processors/product.py:194 | `s.lower().startswith(p)` for a lower-case `p` holds iff the first `len(p)` characters of `s` match `p` ignoring case |
| Text.UpperPrefixIgnoresCase | importer/processors/product.py:191 | an upper-cased string starts with the upper-cased form of a lower-case prefix iff its lower-cased form starts with that prefix |
| Validation.AllCodeChars | importer/processors/product.py:149 | the character scan is true iff every character is alphanumeric or one of `-_.` |
| Validation.ValidateProductCode | importer/processors/product.py:144-151 | no message iff the code is non-empty, at most 50 long and uses only allowed characters; "required" iff empty, "too long" iff over 50, "invalid characters" iff within length with a bad character: the first failing check decides |
| Validation.ValidateDescription | importer/processors/product.py:162-166 | the description is optional; the only possible message is "too long", reported iff it is longer than 500 |
| Validation.ValidateProductData | importer/processors/product.py:178-197 | no messages iff the code is valid, the description is at most 500 long, the code does not start with `TEST-` and the description is not deprecated; at most 4 messages in check order; the first one is the code validator's message iff the code is invalid; each later message appears iff its rule fails |
| Validation.RuleMessages | importer/processors/product.py:190-195 | the two business rules add their messages in order, each iff its rule fires |
| Validation.FieldAndRuleMessages | importer/processors/product.py:185-195 | the description message, if any, precedes the rule messages; membership of each message matches its check |
| Validation.Collect | importer/processors/product.py:178-197 | appending the four checks' outcomes keeps check order, is empty iff no check failed, and starts with the code message iff there is one |
| Validation.CollectMembers | importer/processors/product.py:185-195 | the collected list holds the description, test and deprecated messages exactly when their checks fail |
| Validation.DeprecatedIgnoresCase | importer/processors/product.py:194 | the deprecated rule fires iff the first ten characters spell "deprecated" in any casing |
| Processor.NormalizeCode | importer/processors/product.py:203 | the normalised code is the trimmed raw code upper-cased: same length as the trimmed code, equal to it character by character ignoring case, with no lower-case letter and no whitespace at either end |
| Processor.NormalizeDescription | importer/processors/product.py:204 | the trimmed raw description: the slice of the raw value between its leading and trailing whitespace, with no whitespace at either end, so trimming it again changes nothing |
| Processor.ValidationRecords | importer/processors/product.py:209-214 | one `validation` record per message, in order, each carrying the message text and the row |
| Processor.ProcessRow | importer/processors/product.py:199-255 | processed codes, database keys, counters and errors only grow; new processed codes are in the database; batch counters untouched; validation counter grows by the number of new error records (at most 4); the row is counted as created, updated or skipped iff it recorded no validation error |
| Processor.Step | importer/processors/product.py:206-255 | the row decision on a normalised code and description: a row with messages appends exactly that many error records and counts them; otherwise it is handled exactly once; every key the step adds is a newly processed code, and every newly processed code is a key (an accepted code for an existing product is processed without adding a key); a valid code ends up processed or is a system product |
| Processor.ProcessRows | importer/processors/product.py:90-91 | the rows of a batch in order: processed codes, keys, counters and errors only grow, batch counters untouched, at most one handled row per row |
| RowProperties.InvalidRowOnlyRecordsErrors | importer/processors/product.py:206-215 | an invalid row appends one `validation` record per message after the old ones and bumps only the validation counter by their number; database and processed codes unchanged |
| RowProperties.DuplicateOrSystemRowOnlySkips | importer/processors/product.py:217-223 | a valid row whose code was processed already or is a system product only bumps `skipped` |
| RowProperties.AcceptedRowCountedOnce | importer/processors/product.py:224-226 | an accepted row adds its code to the processed set, bumps `total_products`, and bumps exactly one of created, updated, skipped; no error recorded |
| RowProperties.ExistingProductDescription | importer/processors/product.py:235-243 | an existing product changes iff the incoming description is non-empty and differs, then takes that description and bumps `updated`; code, name and other products never change |
| RowProperties.NewProductCreated | importer/processors/product.py:244-255 | an unknown product is stored under its code with name equal to the code and the row's description, and `created` is bumped |
| RowProperties.RowGrowsStoreByProcessed | importer/processors/product.py:224-255 | every key a row adds to the database is a code the row just processed |
| RowProperties.RowAccounted | importer/processors/product.py:206-255 | a row is either handled once (created, updated or skipped) or fails validation, and the validation counter grows by its message count |
| RowProperties.RowCountsProducts | importer/processors/product.py:218-226 | a row bumps `total_products` exactly when it adds its code to the processed set |
| RowProperties.StepCountsProducts | importer/processors/product.py:217-226 | the decision step bumps `total_products` exactly when it adds a code to the processed set |
| RowProperties.RowRemembersValidCode | importer/processors/product.py:217-224 | after a valid row, its code is processed or is a system product |
| RowProperties.KnownRowChangesNothing | importer/processors/product.py:206-223 | an invalid, duplicate or system row leaves the database and processed codes as they were |
| RowProperties.TestRuleIgnoresCase | importer/processors/product.py:203-206 | because codes are upper-cased before validation, the `TEST-` rule of line 191 fires iff the trimmed raw code starts with "test-" in any casing |
| RowProperties.NormalizeCodeIdempotent | importer/processors/product.py:203 | normalising a normalised code changes nothing |
| RowProperties.FreshInvariant | importer/processors/product.py:38-48 | a processor with no processed codes and zeroed counters satisfies the invariant over a database keyed by code |
| RowProperties.RowPreservesInvariant | importer/processors/product.py:217-255 | one row keeps the invariant (processed codes valid, upper-case, not system; products keyed by their code; `total_products` equals the number of processed codes; created plus updated at most `total_products`) and adds only just-processed keys |
| RowProperties.StepPreservesInvariant | importer/processors/product.py:217-255 | the row decision keeps the invariant for any code that is valid and upper-case whenever it draws no message |
| RowProperties.RowsPreserveInvariant | importer/processors/product.py:90-91 | the rows of a batch keep the invariant and add only processed keys |
| RowProperties.RowsAccounted | importer/processors/product.py:206-255 | over any rows, handled rows plus invalid rows equal the number of rows, and the validation counter grows by the total message count |
| RowProperties.RowsCountProducts | importer/processors/product.py:218-226 | over any rows, `total_products` grows by the number of codes newly added to the processed set |
| RowProperties.ProcessedAbsentCodeStaysAbsent | importer/processors/product.py:218-220 | a processed code missing from the database is never added by later rows |
| RowProperties.ValidRowRemembered | importer/processors/product.py:217-224 | after processing rows, each valid row's code is processed or a system product |
| RowProperties.LastValidRowRemembered | importer/processors/product.py:217-224 | after a run of rows ending in a valid row, that row's code is processed or a system product |
| RowProperties.KnownRowsChangeNothing | importer/processors/product.py:206-223 | rows whose valid codes are all processed or system products leave the database and processed codes untouched |
| RowProperties.ReimportChangesNothing | importer/processors/product.py:217-224 | processing the same rows a second time changes neither the database nor the processed codes |
| Batching.Batches | importer/processors/product.py:81-85 | batches laid end to end are the rows; there are `ceil(n / size)` of them; each is non-empty and at most `size` long; all but the last are full |
| Batching.BatchesUnfold | importer/processors/product.py:84-85 | the first batch is the first `size` rows (or all of them) and the rest are the batches of the remaining rows |
| Batching.CeilStep | importer/processors/product.py:81 | removing one full batch decreases the batch count by one; up to `size` rows make one batch |
| Importer.FirstPresent | importer/processors/product.py:71-75 | the first accepted header name that is a column, or none iff no name is a column |
| Importer.MapHeaders | importer/processors/product.py:69-78 | the mapping exists iff both `Product/Service` and `Product/Service Description` are columns, and then maps to them |
| Importer.ProcessBatch | importer/processors/product.py:87-101 | a committed batch keeps the rows' database writes and bumps `successful_batches`; a failed one restores the database and bumps `failed_batches` and `total_errors`; either way the processed codes, errors and row counters (`total_products`, `created`, `updated`, `skipped`, `validation_errors`) are those the rows left |
| Importer.RunBatches | importer/processors/product.py:84-101 | over the batches, processed codes, keys, counters and errors only grow; each batch is counted once as successful or failed; `total_errors` grows exactly as `failed_batches` does |
| Importer.Fail | importer/processors/product.py:120-133 | a file-level failure appends one `file_processing` record, reports failure, and changes nothing else |
| Importer.ProcessFile | importer/processors/product.py:66-133 | from the database as `initialize_system_products` left it: the result reports the processor's counters and errors; success implies no failed batch; missing columns fail without touching the database further; a non-positive batch size changes neither the database nor the processed codes |
| Importer.RunBatchesFrom | importer/processors/product.py:84-85 | running the batches from row `start` is running the batch `start..start+size` and then the batches after it |
| Importer.RunBatchLoop | importer/processors/product.py:84-101 | the loop over `range(0, n, size)` with batch numbers from 1 computes the same state as the batch fold |
| Importer.ProcessFileMethod | importer/processors/product.py:66-118 | the procedural driver computes what the functional model of `process_file` does |
| ImportProperties.MissingColumnsFails | importer/processors/product.py:120-133 | after system-product initialisation, a file lacking either column (the raise at line 78) fails with exactly one `file_processing` record "Missing required columns in CSV file" and nothing else changes |
| ImportProperties.FileRunsBatches | importer/processors/product.py:80-113 | with columns found and a positive size, a file is its `ceil(n / size)` batches run from number 1, and success means no failed batch |
| ImportProperties.FileWithoutBatchesKeepsData | importer/processors/product.py:77-84 | a file that runs no batch keeps the database, processed codes and counters |
| ImportProperties.SuccessIffNoFailedBatch | importer/processors/product.py:112-113 | once the columns are found and the size is non-zero, success holds iff `failed_batches` is zero |
| ImportProperties.ZeroBatchSizeFails | importer/processors/product.py:120-133 | a zero batch size (the division at line 81) fails the file with one `file_processing` record carrying the division error, and nothing else changes |
| ImportProperties.FailedBatchIsSticky | importer/processors/product.py:97-113 | once `failed_batches` is positive, every later file reports failure and the counter stays positive |
| ImportProperties.BatchCountIsCeiling | importer/processors/product.py:81-84 | successful plus failed batches grow by exactly `ceil(n / size)` |
| ImportProperties.AllCommittedStep | importer/processors/product.py:84 | all commits from batch `j` on succeed iff batch `j`'s does and those after it do |
| ImportProperties.NoFailureIffAllCommitted | importer/processors/product.py:93-99 | the failed-batch counter does not move iff every batch's commit succeeds |
| ImportProperties.FreshRunSucceedsIffAllCommitted | importer/processors/product.py:84-113 | for a processor with no failed batch yet, the file succeeds iff the commit of every one of its batches succeeds |
| ImportProperties.ProcessRowsAppend | importer/processors/product.py:90-91 | processing two runs of rows one after the other equals processing them together |
| ImportProperties.RowIgnoresBatchCounter | importer/processors/product.py:206-255 | the row step neither reads nor writes `successful_batches` |
| ImportProperties.StepIgnoresBatchCounter | importer/processors/product.py:206-255 | the row decision neither reads nor writes `successful_batches` |
| ImportProperties.RowsIgnoreBatchCounter | importer/processors/product.py:90-91 | neither do the rows of a batch |
| ImportProperties.CommittedBatchesAreUnbatched | importer/processors/product.py:84-95 | when every commit succeeds, running batches equals processing all rows at once, apart from `successful_batches`, which counts the batches |
| ImportProperties.AllCommittedFileIsUnbatched | importer/processors/product.py:80-95 | with every commit succeeding, a file leaves the database, processed codes and errors that unbatched processing would |
| ImportProperties.BatchPreservesInvariant | importer/processors/product.py:87-101 | a batch keeps the invariant whether it commits or rolls back, and adds only processed keys |
| ImportProperties.BatchesPreserveInvariant | importer/processors/product.py:84-101 | all batches keep the invariant and add only processed keys |
| ImportProperties.FilePreservesInvariant | importer/processors/product.py:66-133 | after system-product initialisation, a file keeps the invariant, and every product its rows add has a valid, upper-case code that is not a system product |
| ImportProperties.BatchesKeepProcessedCodeAbsent | importer/processors/product.py:97-101 | a processed code missing from the database stays missing through later batches |
| ImportProperties.LostProductStaysLost | importer/processors/product.py:217-220 | a code that is processed but missing from the database stays processed and missing through any later file run by the same processor |
| ImportProperties.NewProductSurvivesIffCommitted | importer/processors/product.py:87-101 | a product that a batch creates ends up in the database iff that batch commits |
| ImportProperties.RolledBackBatchCountsRows | importer/processors/product.py:87-101 | a rolled-back batch leaves the database as it was, yet every row is still counted as handled or invalid, `validation_errors` still grows by the rows' messages, `total_products` still counts every newly processed code, and `total_errors` grows by one |

## Left out

- Text.ToUpper, Text.ToLower: upper-case and lower-case only ASCII letters; Python's `upper()` and `lower()` map every cased Unicode letter, and some of them change length.
- Text.IsAlnum (inside Validation.ValidateProductCode): only ASCII letters and digits count as alphanumeric; Python's `isalnum()` also accepts other Unicode letters and digits.
- Reading the CSV with pandas and `str()` coercion of cells, which turns an empty cell into `"nan"`: rows are modelled as maps from header to an already extracted string, and every row of a file has the header's columns.
- Importer.ProcessFile: the state it starts from is the processor and the database as they are after `initialize_system_products` (importer/processors/product.py:61-64). The writes that call makes, in its own unit of work, are not modelled, so the file-level claims about the database (nothing changes on a missing column; every added product has a valid, non-system code) cover only what happens from line 66 on.
- Importer.ProcessFile: the result's `stats` is the processor's own counter dictionary (importer/processors/product.py:115 and 130), not a copy. A later file therefore changes the stats of every earlier result, and a caller that writes to a result writes to the processor's counters. The model returns a snapshot of the counters taken when the file ends.
- Failures of `read_csv` and of `initialize_system_products`: these raise before any row is read and end in the same `file_processing` path as a missing column. They depend on I/O and code that is not part of this model.
- `is_system_product` and the system-product table: the parameter `isSystem`.
- SQLAlchemy sessions, queries, autoflush and the reason a commit fails: the parameter `commitOk`, which decides per batch number whether the commit succeeds. A rollback restores the database map as it was before the batch.
- `generate_uuid`, `createdAt` and `modifiedAt` timestamps: products carry only code, name and description.
- A NULL stored description: the stored description is always a string, so a NULL behaves like a description that differs from a non-empty incoming one.
- `ErrorTracker`, `log_summary` and `get_summary`: errors are an append-only list of records (category, message, row or file). The summary built from them is not modelled.
- Logging and the `print` progress lines: no effect on the state.
- The generic exception handler of `_process_row` (importer/processors/product.py:257-263): nothing in the modelled row step can raise.
- `BaseProcessor` (`importer/processors/base.py`) is not part of this model. The counters `successful_batches`, `failed_batches` and `total_errors` it owns are assumed to start at zero. `batch_size` is taken as given.
- Importer.ZeroDivisionMessage: the message recorded for a zero batch size is the text of Python's `ZeroDivisionError` for integer floor division. That text differs between Python versions.
- The invoice processor and the command-line entry point are not part of this model.
