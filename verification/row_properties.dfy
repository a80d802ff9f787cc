/** What one processed row does to the import state, case by case, and the
    invariants that rows preserve. */
module RowProperties {
  import opened Text
  import opened Validation
  import opened Processor

  /** A row that fails validation adds one `validation` record per message
      and bumps the validation counter by the number of messages; the
      database, the processed codes and every other counter stay as they
      were. */
  lemma InvalidRowOnlyRecordsErrors(s: ImportState, row: Row, m: HeaderMapping, isSystem: string -> bool)
    requires HasColumns(row, m)
    ensures var r := ProcessRow(s, row, m, isSystem);
            var messages := RowMessages(row, m);
            messages != [] ==>
              && r.store == s.store
              && r.processed == s.processed
              && r.stats == s.stats.(validationErrors := s.stats.validationErrors + |messages|)
              && |r.errors| == |s.errors| + |messages|
              && r.errors[..|s.errors|] == s.errors
              && forall i :: 0 <= i < |messages| ==>
                   r.errors[|s.errors| + i] == ErrorRecord(ValidationFailure, messages[i].Wording(), RowContext(row))
  {
    StepRejects(s, row, RowCode(row, m), RowDescription(row, m), RowMessages(row, m), isSystem);
  }

  /** The decision step on a row with messages only records them. */
  lemma StepRejects(s: ImportState, row: Row, code: string, description: string,
                    messages: seq<Message>, isSystem: string -> bool)
    ensures var r := Step(s, row, code, description, messages, isSystem);
            messages != [] ==>
              && r.store == s.store
              && r.processed == s.processed
              && r.stats == s.stats.(validationErrors := s.stats.validationErrors + |messages|)
              && |r.errors| == |s.errors| + |messages|
              && r.errors[..|s.errors|] == s.errors
              && forall i :: 0 <= i < |messages| ==>
                   r.errors[|s.errors| + i] == ErrorRecord(ValidationFailure, messages[i].Wording(), RowContext(row))
  {
    if messages != [] {
      var r := Step(s, row, code, description, messages, isSystem);
      assert r.errors == s.errors + ValidationRecords(messages, row);
    }
  }

  /** A valid row whose code was already processed, or names a system
      product, only bumps `skipped`. */
  lemma DuplicateOrSystemRowOnlySkips(s: ImportState, row: Row, m: HeaderMapping, isSystem: string -> bool)
    requires HasColumns(row, m) && RowMessages(row, m) == []
    requires RowCode(row, m) in s.processed || isSystem(RowCode(row, m))
    ensures ProcessRow(s, row, m, isSystem) == s.(stats := s.stats.(skipped := s.stats.skipped + 1))
  {
  }

  /** An accepted row (valid, new, not a system product) adds its code to
      the processed set, bumps `totalProducts`, and is counted exactly once
      as created, updated or skipped; no error is recorded. */
  lemma AcceptedRowCountedOnce(s: ImportState, row: Row, m: HeaderMapping, isSystem: string -> bool)
    requires HasColumns(row, m) && RowMessages(row, m) == []
    requires RowCode(row, m) !in s.processed && !isSystem(RowCode(row, m))
    ensures var r := ProcessRow(s, row, m, isSystem);
            && r.processed == s.processed + {RowCode(row, m)}
            && |r.processed| == |s.processed| + 1
            && r.stats.totalProducts == s.stats.totalProducts + 1
            && r.stats.Handled() == s.stats.Handled() + 1
            && r.stats.validationErrors == s.stats.validationErrors
            && r.errors == s.errors
  {
  }

  /** An accepted row for a product already in the database changes at
      most that product's description: it takes the row's description
      exactly when that is non-empty and differs, which is also exactly when
      `updated` is bumped; the code and name never change. */
  lemma ExistingProductDescription(s: ImportState, row: Row, m: HeaderMapping, isSystem: string -> bool)
    requires HasColumns(row, m) && RowMessages(row, m) == []
    requires RowCode(row, m) !in s.processed && !isSystem(RowCode(row, m))
    requires RowCode(row, m) in s.store
    ensures var r := ProcessRow(s, row, m, isSystem);
            var code := RowCode(row, m);
            var description := RowDescription(row, m);
            var before := s.store[code];
            && r.store.Keys == s.store.Keys
            && (forall k :: k in s.store && k != code ==> r.store[k] == s.store[k])
            && r.store[code].code == before.code
            && r.store[code].name == before.name
            && (r.store[code] != before <==> description != [] && description != before.description)
            && (r.store[code] != before ==> r.store[code].description == description)
            && (r.stats.updated == s.stats.updated + 1 <==> r.store[code] != before)
            && r.stats.created == s.stats.created
  {
  }

  /** An accepted row for an unknown product creates it, named after its
      code and carrying the row's description, and bumps `created`. */
  lemma NewProductCreated(s: ImportState, row: Row, m: HeaderMapping, isSystem: string -> bool)
    requires HasColumns(row, m) && RowMessages(row, m) == []
    requires RowCode(row, m) !in s.processed && !isSystem(RowCode(row, m))
    requires RowCode(row, m) !in s.store
    ensures var r := ProcessRow(s, row, m, isSystem);
            var code := RowCode(row, m);
            && r.store == s.store[code := Product(code, code, RowDescription(row, m))]
            && r.stats.created == s.stats.created + 1
            && r.stats.updated == s.stats.updated
            && r.stats.skipped == s.stats.skipped
  {
  }

  /** Every key a row adds to the database is a code it has just
      processed. */
  lemma RowGrowsStoreByProcessed(s: ImportState, row: Row, m: HeaderMapping, isSystem: string -> bool)
    requires HasColumns(row, m)
    ensures var r := ProcessRow(s, row, m, isSystem);
            r.store.Keys - s.store.Keys <= r.processed - s.processed
  {
  }

  /** A row is either counted once as created, updated or skipped, or
      fails validation and adds its messages to the validation counter. */
  lemma RowAccounted(s: ImportState, row: Row, m: HeaderMapping, isSystem: string -> bool)
    requires HasColumns(row, m)
    ensures var r := ProcessRow(s, row, m, isSystem);
            && r.stats.Handled() - s.stats.Handled() + (if RowMessages(row, m) != [] then 1 else 0) == 1
            && r.stats.validationErrors - s.stats.validationErrors == |RowMessages(row, m)|
  {
  }

  /** `totalProducts` counts the codes a row newly processes: one for an
      accepted row, none otherwise. */
  lemma RowCountsProducts(s: ImportState, row: Row, m: HeaderMapping, isSystem: string -> bool)
    requires HasColumns(row, m)
    ensures var r := ProcessRow(s, row, m, isSystem);
            r.stats.totalProducts - s.stats.totalProducts == |r.processed| - |s.processed|
  {
    StepCountsProducts(s, row, RowCode(row, m), RowDescription(row, m), RowMessages(row, m), isSystem);
  }

  /** The decision step bumps `totalProducts` exactly when it adds a code to
      the processed set. */
  lemma StepCountsProducts(s: ImportState, row: Row, code: string, description: string,
                           messages: seq<Message>, isSystem: string -> bool)
    ensures var r := Step(s, row, code, description, messages, isSystem);
            r.stats.totalProducts - s.stats.totalProducts == |r.processed| - |s.processed|
  {
    if messages == [] && code !in s.processed && !isSystem(code) {
      assert |s.processed + {code}| == |s.processed| + 1;
    }
  }

  /** After a valid row, its code is processed or names a system product. */
  lemma RowRemembersValidCode(s: ImportState, row: Row, m: HeaderMapping, isSystem: string -> bool)
    requires HasColumns(row, m) && RowMessages(row, m) == []
    ensures RowCode(row, m) in ProcessRow(s, row, m, isSystem).processed || isSystem(RowCode(row, m))
  {
  }

  /** A row that is invalid, a duplicate or a system product leaves the
      database and the processed codes as they were. */
  lemma KnownRowChangesNothing(s: ImportState, row: Row, m: HeaderMapping, isSystem: string -> bool)
    requires HasColumns(row, m)
    ensures (RowMessages(row, m) == [] ==> RowCode(row, m) in s.processed || isSystem(RowCode(row, m)))
        ==> (&& ProcessRow(s, row, m, isSystem).store == s.store
             && ProcessRow(s, row, m, isSystem).processed == s.processed)
  {
    if RowMessages(row, m) != [] {
      InvalidRowOnlyRecordsErrors(s, row, m, isSystem);
    } else if RowCode(row, m) in s.processed || isSystem(RowCode(row, m)) {
      DuplicateOrSystemRowOnlySkips(s, row, m, isSystem);
    }
  }

  /** Because codes are upper-cased before validation, the `TEST-` rule
      rejects a code in any casing: it fires exactly when the trimmed raw
      code starts with "test-" once lower-cased. */
  lemma TestRuleIgnoresCase(raw: string, description: string)
    ensures TestProductNotAllowed in ValidateProductData(NormalizeCode(raw), description)
        <==> StartsWith(ToLower(Strip(raw)), "test-")
  {
    UpperPrefixIgnoresCase(Strip(raw), "test-");
    assert ToUpper("test-") == TestPrefix;
  }

  /** Normalising a normalised code changes nothing. */
  lemma NormalizeCodeIdempotent(raw: string)
    ensures NormalizeCode(NormalizeCode(raw)) == NormalizeCode(raw)
  {
    var t := Strip(raw);
    var u := ToUpper(t);
    assert forall i :: 0 <= i < |t| ==> (IsSpace(u[i]) <==> IsSpace(t[i]));
    StripUnchanged(u);
    ToUpperFixpoint(t);
  }

  /** Every processed code is a valid, upper-case code that is not a system
      product. */
  predicate ProcessedCodesValid(s: ImportState, isSystem: string -> bool) {
    forall k :: k in s.processed ==> ValidCode(k) && NoLower(k) && !isSystem(k)
  }

  /** Every product is stored under its own code. */
  predicate StoreKeyedByCode(store: Store) {
    forall k :: k in store ==> store[k].code == k
  }

  /** The counter relations that hold for a processor started from zero:
      `totalProducts` counts the processed codes, and creations plus
      updates never exceed it. */
  predicate CountersConsistent(s: ImportState) {
    && s.stats.totalProducts == |s.processed|
    && s.stats.created + s.stats.updated <= s.stats.totalProducts
  }

  predicate Invariant(s: ImportState, isSystem: string -> bool) {
    ProcessedCodesValid(s, isSystem) && StoreKeyedByCode(s.store) && CountersConsistent(s)
  }

  lemma FreshInvariant(store: Store, isSystem: string -> bool)
    requires StoreKeyedByCode(store)
    ensures Invariant(Fresh(store), isSystem)
  {
  }

  /** One row preserves the invariant, and every key it adds to the
      database is a code it has just processed. */
  lemma RowPreservesInvariant(s: ImportState, row: Row, m: HeaderMapping, isSystem: string -> bool)
    requires HasColumns(row, m)
    requires Invariant(s, isSystem)
    ensures var r := ProcessRow(s, row, m, isSystem);
            && Invariant(r, isSystem)
            && r.store.Keys - s.store.Keys <= r.processed - s.processed
  {
    StepPreservesInvariant(s, row, RowCode(row, m), RowDescription(row, m), RowMessages(row, m), isSystem);
  }

  /** The row step keeps the invariant for any code that, when it has no
      validation message, is valid and upper-case. */
  lemma StepPreservesInvariant(s: ImportState, row: Row, code: string, description: string,
                               messages: seq<Message>, isSystem: string -> bool)
    requires Invariant(s, isSystem)
    requires messages == [] ==> ValidCode(code) && NoLower(code)
    ensures Invariant(Step(s, row, code, description, messages, isSystem), isSystem)
  {
    if messages == [] && code !in s.processed && !isSystem(code) {
      var r := AcceptRow(s, code, description);
      assert r.processed == s.processed + {code};
      assert |r.processed| == |s.processed| + 1;
      assert ProcessedCodesValid(r, isSystem);
      assert StoreKeyedByCode(r.store);
    }
  }

  /** Rows preserve the invariant, and every key they add to the database
      is a code processed along the way. */
  lemma {:induction false} RowsPreserveInvariant(s: ImportState, rows: seq<Row>, m: HeaderMapping, isSystem: string -> bool)
    requires forall i :: 0 <= i < |rows| ==> HasColumns(rows[i], m)
    requires Invariant(s, isSystem)
    ensures var r := ProcessRows(s, rows, m, isSystem);
            && Invariant(r, isSystem)
            && r.store.Keys - s.store.Keys <= r.processed - s.processed
    decreases |rows|
  {
    if rows != [] {
      var t := ProcessRows(s, rows[..|rows| - 1], m, isSystem);
      RowsPreserveInvariant(s, rows[..|rows| - 1], m, isSystem);
      var r := ProcessRow(t, rows[|rows| - 1], m, isSystem);
      assert ProcessRows(s, rows, m, isSystem) == r;
      RowPreservesInvariant(t, rows[|rows| - 1], m, isSystem);
      forall k | k in r.store.Keys - s.store.Keys
        ensures k in r.processed - s.processed
      {
        if k in t.store.Keys {
          assert k in t.processed - s.processed;
        } else {
          assert k in r.processed - t.processed;
        }
      }
    }
  }

  /** Number of rows that fail validation. */
  function InvalidRows(rows: seq<Row>, m: HeaderMapping): (n: nat)
    requires forall i :: 0 <= i < |rows| ==> HasColumns(rows[i], m)
    ensures n <= |rows|
    decreases |rows|
  {
    if rows == [] then 0
    else InvalidRows(rows[..|rows| - 1], m) + (if RowMessages(rows[|rows| - 1], m) != [] then 1 else 0)
  }

  /** Number of validation messages the rows produce. */
  function MessageCount(rows: seq<Row>, m: HeaderMapping): nat
    requires forall i :: 0 <= i < |rows| ==> HasColumns(rows[i], m)
    decreases |rows|
  {
    if rows == [] then 0
    else MessageCount(rows[..|rows| - 1], m) + |RowMessages(rows[|rows| - 1], m)|
  }

  /** Every row is accounted for: the rows counted as created, updated or
      skipped plus the rows that failed validation are all the rows, and
      the validation counter grows by the number of messages the rows
      produce. */
  lemma {:induction false} RowsAccounted(s: ImportState, rows: seq<Row>, m: HeaderMapping, isSystem: string -> bool)
    requires forall i :: 0 <= i < |rows| ==> HasColumns(rows[i], m)
    ensures var r := ProcessRows(s, rows, m, isSystem);
            && r.stats.Handled() - s.stats.Handled() + InvalidRows(rows, m) == |rows|
            && r.stats.validationErrors - s.stats.validationErrors == MessageCount(rows, m)
    decreases |rows|
  {
    if rows != [] {
      var t := ProcessRows(s, rows[..|rows| - 1], m, isSystem);
      RowsAccounted(s, rows[..|rows| - 1], m, isSystem);
      ProcessRowsLast(s, rows, m, isSystem);
      RowAccounted(t, rows[|rows| - 1], m, isSystem);
    }
  }

  /** Over any run of rows, `totalProducts` grows by the number of codes
      newly added to the processed set. */
  lemma {:induction false} RowsCountProducts(s: ImportState, rows: seq<Row>, m: HeaderMapping, isSystem: string -> bool)
    requires forall i :: 0 <= i < |rows| ==> HasColumns(rows[i], m)
    ensures var r := ProcessRows(s, rows, m, isSystem);
            r.stats.totalProducts - s.stats.totalProducts == |r.processed| - |s.processed|
    decreases |rows|
  {
    if rows != [] {
      var t := ProcessRows(s, rows[..|rows| - 1], m, isSystem);
      RowsCountProducts(s, rows[..|rows| - 1], m, isSystem);
      ProcessRowsLast(s, rows, m, isSystem);
      RowCountsProducts(t, rows[|rows| - 1], m, isSystem);
    }
  }

  /** A processed code missing from the database stays missing, whatever
      rows follow: every later row with that code is skipped as a
      duplicate. */
  lemma {:induction false} ProcessedAbsentCodeStaysAbsent(
    s: ImportState, rows: seq<Row>, m: HeaderMapping, isSystem: string -> bool, code: string)
    requires forall i :: 0 <= i < |rows| ==> HasColumns(rows[i], m)
    requires code in s.processed && code !in s.store
    ensures code !in ProcessRows(s, rows, m, isSystem).store
    decreases |rows|
  {
    if rows != [] {
      var t := ProcessRows(s, rows[..|rows| - 1], m, isSystem);
      ProcessedAbsentCodeStaysAbsent(s, rows[..|rows| - 1], m, isSystem, code);
      ProcessRowsLast(s, rows, m, isSystem);
      RowGrowsStoreByProcessed(t, rows[|rows| - 1], m, isSystem);
    }
  }

  /** After the rows have been processed, the code of each valid row is
      processed or names a system product. */
  lemma {:induction false} ValidRowRemembered(s: ImportState, rows: seq<Row>, m: HeaderMapping, isSystem: string -> bool, i: nat)
    requires forall j :: 0 <= j < |rows| ==> HasColumns(rows[j], m)
    requires i < |rows| && RowMessages(rows[i], m) == []
    ensures RowCode(rows[i], m) in ProcessRows(s, rows, m, isSystem).processed || isSystem(RowCode(rows[i], m))
    decreases |rows|
  {
    var prefix := rows[..|rows| - 1];
    if i == |rows| - 1 {
      LastValidRowRemembered(s, rows, m, isSystem);
    } else {
      assert prefix[i] == rows[i];
      ValidRowRemembered(s, prefix, m, isSystem, i);
      PrefixProcessedKept(s, rows, m, isSystem);
    }
  }

  lemma LastValidRowRemembered(s: ImportState, rows: seq<Row>, m: HeaderMapping, isSystem: string -> bool)
    requires forall j :: 0 <= j < |rows| ==> HasColumns(rows[j], m)
    requires rows != [] && RowMessages(rows[|rows| - 1], m) == []
    ensures var code := RowCode(rows[|rows| - 1], m);
            code in ProcessRows(s, rows, m, isSystem).processed || isSystem(code)
  {
    ProcessRowsLast(s, rows, m, isSystem);
  }

  /** The last row keeps the codes the earlier rows processed. */
  lemma PrefixProcessedKept(s: ImportState, rows: seq<Row>, m: HeaderMapping, isSystem: string -> bool)
    requires forall j :: 0 <= j < |rows| ==> HasColumns(rows[j], m)
    requires rows != []
    ensures ProcessRows(s, rows[..|rows| - 1], m, isSystem).processed <= ProcessRows(s, rows, m, isSystem).processed
  {
    ProcessRowsLast(s, rows, m, isSystem);
  }

  /** Rows whose codes are all already processed (or invalid, or system
      products) leave the database and the processed set untouched. */
  lemma {:induction false} KnownRowsChangeNothing(s: ImportState, rows: seq<Row>, m: HeaderMapping, isSystem: string -> bool)
    requires forall i :: 0 <= i < |rows| ==> HasColumns(rows[i], m)
    requires forall i :: 0 <= i < |rows| && RowMessages(rows[i], m) == [] ==>
               RowCode(rows[i], m) in s.processed || isSystem(RowCode(rows[i], m))
    ensures ProcessRows(s, rows, m, isSystem).store == s.store
    ensures ProcessRows(s, rows, m, isSystem).processed == s.processed
    decreases |rows|
  {
    if rows != [] {
      var prefix := rows[..|rows| - 1];
      var t := ProcessRows(s, prefix, m, isSystem);
      assert forall i :: 0 <= i < |prefix| ==> rows[i] == prefix[i];
      KnownRowsChangeNothing(s, prefix, m, isSystem);
      ProcessRowsLast(s, rows, m, isSystem);
      KnownRowChangesNothing(t, rows[|rows| - 1], m, isSystem);
    }
  }

  /** Importing the same rows a second time changes nothing in the
      database: every valid row is now a duplicate or a system product. */
  lemma ReimportChangesNothing(s: ImportState, rows: seq<Row>, m: HeaderMapping, isSystem: string -> bool)
    requires forall i :: 0 <= i < |rows| ==> HasColumns(rows[i], m)
    ensures var once := ProcessRows(s, rows, m, isSystem);
            var twice := ProcessRows(once, rows, m, isSystem);
            twice.store == once.store && twice.processed == once.processed
  {
    var once := ProcessRows(s, rows, m, isSystem);
    forall i | 0 <= i < |rows| && RowMessages(rows[i], m) == []
      ensures RowCode(rows[i], m) in once.processed || isSystem(RowCode(rows[i], m))
    {
      ValidRowRemembered(s, rows, m, isSystem, i);
    }
    KnownRowsChangeNothing(once, rows, m, isSystem);
  }
}
