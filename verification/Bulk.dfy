/** Bulk writes: `_bulk_write` and `_bulk_best_effort` of `_async/database.py`, batch sizing of
    `_core/bulk.py`, and the column arrays of `postgres/unnest.py`. */
module Bulk {
  import opened Wrappers

  // -- batch sizing --

  const PG_MAX_BIND_PARAMS := 65535

  datatype BulkLimits = BulkLimits(maxRows: int, maxParams: int, maxPayloadBytes: Option<int>)

  function Min(a: int, b: int): int {
    if a <= b then a else b
  }

  function Max(a: int, b: int): int {
    if a >= b then a else b
  }

  /** None and 0 both mean that no size was asked for. */
  function Asked(requested: Option<int>, limits: BulkLimits): int {
    if requested.Some? && requested.value != 0 then requested.value else limits.maxRows
  }

  predicate BoundsBytes(limits: BulkLimits, rowBytes: Option<nat>) {
    limits.maxPayloadBytes.Some? && rowBytes.Some? && rowBytes.value > 0
  }

  /** A batch of `n` rows is within every limit. */
  predicate Fits(n: int, columns: int, requested: Option<int>, limits: BulkLimits, rowBytes: Option<nat>) {
    && n <= Asked(requested, limits) && n <= limits.maxRows && n * columns <= limits.maxParams
    && (BoundsBytes(limits, rowBytes) ==> n * rowBytes.value <= limits.maxPayloadBytes.value)
  }

  /** `rowBytes` is the estimate for the sample row. The largest batch within every limit, or one
      row if not even that fits. */
  function ResolveBatchRows(columns: int, requested: Option<int>, limits: BulkLimits,
                            rowBytes: Option<nat>): (r: int)
    ensures r >= 1
    ensures columns > 0 && r > 1 ==> Fits(r, columns, requested, limits, rowBytes)
    ensures columns > 0 ==> !Fits(r + 1, columns, requested, limits, rowBytes)
    ensures columns <= 0 ==> r == Max(Asked(requested, limits), 1)
  {
    if columns <= 0 then Max(Asked(requested, limits), 1)
    else
      LargestQuotient(limits.maxParams, columns);
      var byParams := Max(limits.maxParams / columns, 1);
      var ceiling := Min(Min(Asked(requested, limits), limits.maxRows), byParams);
      if BoundsBytes(limits, rowBytes) then
        LargestQuotient(limits.maxPayloadBytes.value, rowBytes.value);
        Max(Min(ceiling, Max(limits.maxPayloadBytes.value / rowBytes.value, 1)), 1)
      else Max(ceiling, 1)
  }

  /** In terms of the settings: more than one row only within the size asked for, or else the default,
      the largest size, the parameters and the bytes, where they are known; and one row more would be
      beyond one of them. */
  lemma BatchIsLargestWithin(columns: int, requested: Option<int>, limits: BulkLimits, rowBytes: Option<nat>)
    requires columns > 0
    ensures var r := ResolveBatchRows(columns, requested, limits, rowBytes);
            var bytes := limits.maxPayloadBytes.Some? && rowBytes.Some? && rowBytes.value > 0;
            && (r > 1 ==>
                  && r <= limits.maxRows && r * columns <= limits.maxParams
                  && (requested.Some? && requested.value != 0 ==> r <= requested.value)
                  && (bytes ==> r * rowBytes.value <= limits.maxPayloadBytes.value))
            && (|| r + 1 > limits.maxRows || (r + 1) * columns > limits.maxParams
                || (requested.Some? && requested.value != 0 && r + 1 > requested.value)
                || (bytes && (r + 1) * rowBytes.value > limits.maxPayloadBytes.value))
  {
    var r := ResolveBatchRows(columns, requested, limits, rowBytes);
    assert r > 1 ==> Fits(r, columns, requested, limits, rowBytes);
    assert !Fits(r + 1, columns, requested, limits, rowBytes);
  }

  lemma LargestQuotient(total: int, unit: int)
    requires unit > 0
    ensures forall n: int :: n <= total / unit ==> n * unit <= total
    ensures forall n: int :: n > total / unit ==> n * unit > total
  {
    forall n: int ensures n <= total / unit <==> n * unit <= total {
      Quotient(total, unit, n);
    }
  }

  lemma Quotient(total: int, unit: int, n: int)
    requires unit > 0
    ensures n <= total / unit <==> n * unit <= total
  {
    var q := total / unit;
    assert q * unit <= total < q * unit + unit;
    if n <= q {
      assert n * unit <= q * unit;
    } else {
      assert n * unit >= (q + 1) * unit;
    }
  }

  /** A statement binds at most 65535 parameters exactly when a single row does. */
  lemma StatementFitsWhenRowDoes(columns: int, requested: Option<int>, limits: BulkLimits, rowBytes: Option<nat>)
    requires columns > 0 && limits.maxParams == PG_MAX_BIND_PARAMS
    ensures var r := ResolveBatchRows(columns, requested, limits, rowBytes);
            r * columns <= PG_MAX_BIND_PARAMS <==> columns <= PG_MAX_BIND_PARAMS
  {
    var r := ResolveBatchRows(columns, requested, limits, rowBytes);
    if r > 1 {
      assert Fits(r, columns, requested, limits, rowBytes);
      assert columns <= r * columns;
    }
  }

  lemma SlicesFit<R>(batches: seq<seq<R>>, columns: nat, requested: Option<int>, limits: BulkLimits,
                     rowBytes: Option<nat>)
    requires limits.maxParams == PG_MAX_BIND_PARAMS && columns <= PG_MAX_BIND_PARAMS
    requires forall i :: 0 <= i < |batches| ==> |batches[i]| <= ResolveBatchRows(columns, requested, limits, rowBytes)
    ensures forall i :: 0 <= i < |batches| ==> |batches[i]| * columns <= PG_MAX_BIND_PARAMS
  {
    var r := ResolveBatchRows(columns, requested, limits, rowBytes);
    if columns > 0 {
      StatementFitsWhenRowDoes(columns, requested, limits, rowBytes);
      forall i | 0 <= i < |batches| ensures |batches[i]| * columns <= PG_MAX_BIND_PARAMS {
        Times(|batches[i]|, r, columns);
      }
    }
  }

  lemma Times(x: nat, y: nat, z: nat)
    requires x <= y
    ensures x * z <= y * z
  {}

  function Flatten<R>(batches: seq<seq<R>>): seq<R> {
    if batches == [] then [] else batches[0] + Flatten(batches[1..])
  }

  lemma {:induction false} FlattenSnoc<R>(batches: seq<seq<R>>, last: seq<R>)
    ensures Flatten(batches + [last]) == Flatten(batches) + last
  {
    if batches == [] {
      assert [last][1..] == [];
    } else {
      assert (batches + [last])[1..] == batches[1..] + [last];
      FlattenSnoc(batches[1..], last);
    }
  }

  /** Contiguous slices; only the last one may be short. */
  method IterBatches<R>(rows: seq<R>, batchSize: int) returns (batches: seq<seq<R>>)
    ensures Flatten(batches) == rows
    ensures var size := Max(batchSize, 1);
            forall i :: 0 <= i < |batches| ==>
              0 < |batches[i]| <= size && (i < |batches| - 1 ==> |batches[i]| == size)
  {
    var size := if batchSize <= 0 then 1 else batchSize;
    batches := [];
    var start := 0;
    while start < |rows|
      invariant 0 <= start
      invariant Flatten(batches) == rows[..Min(start, |rows|)]
      invariant forall i :: 0 <= i < |batches| ==>
                  0 < |batches[i]| <= size && (start <= |rows| || i < |batches| - 1 ==> |batches[i]| == size)
      decreases |rows| - start
    {
      var end := Min(start + size, |rows|);
      FlattenSnoc(batches, rows[start..end]);
      batches := batches + [rows[start..end]];
      assert rows[..end] == rows[..start] + rows[start..end];
      start := start + size;
    }
    assert rows[..|rows|] == rows;
  }

  // -- what one statement does --

  /** A statement on its own connection: it fails, or it is committed, or the error comes from
      COMMIT itself, which leaves `table` behind. `touched` is the row count the driver reports. */
  datatype Attempt<T> = Failed | Lost(table: T, touched: nat) | Done(table: T, touched: nat)

  /** What the n-th statement sent would do to this table: a batch, or one row of a batch that failed. */
  datatype Server<!T, !R> = Server(batch: (nat, T, seq<R>) -> Attempt<T>, row: (nat, T, R) -> Attempt<T>)

  /** Inserting one row, if the table takes it. */
  type Insert<!T, !R> = (T, R) -> Option<T>

  datatype FailureMode = Atomic | BestEffort | SplitOnFailure

  datatype Progress<T> = Progress(table: T, tries: nat, written: nat, dropped: nat)

  /** A reported count of 0, or none, is taken to mean the whole batch. */
  function Credit(touched: nat, size: nat): nat {
    if touched > 0 then touched else size
  }

  function TryRows<T, R>(server: Server<T, R>, p: Progress<T>, rows: seq<R>): Progress<T>
    decreases |rows|
  {
    if rows == [] then p
    else TryRows(server, AfterRow(p, server.row(p.tries, p.table, rows[0])), rows[1..])
  }

  function AfterRow<T>(p: Progress<T>, a: Attempt<T>): Progress<T> {
    match a
    case Done(t, _) => Progress(t, p.tries + 1, p.written + 1, p.dropped)
    case Failed => Progress(p.table, p.tries + 1, p.written, p.dropped + 1)
    case Lost(t, _) => Progress(t, p.tries + 1, p.written + 1, p.dropped + 1)
  }

  /** The count is taken before the commit, so it stays when the commit fails. */
  function AfterBatch<T>(p: Progress<T>, a: Attempt<T>, size: nat): Progress<T> {
    match a
    case Failed => Progress(p.table, p.tries + 1, p.written, p.dropped)
    case _ => Progress(a.table, p.tries + 1, p.written + Credit(a.touched, size), p.dropped)
  }

  function TryBatch<T, R>(server: Server<T, R>, p: Progress<T>, mode: FailureMode, batch: seq<R>): Progress<T> {
    var a := server.batch(p.tries, p.table, batch);
    var q := AfterBatch(p, a, |batch|);
    if a.Done? then q else Recover(server, q, mode, batch)
  }

  function Recover<T, R>(server: Server<T, R>, p: Progress<T>, mode: FailureMode, batch: seq<R>): Progress<T> {
    if mode != SplitOnFailure then Progress(p.table, p.tries, p.written, p.dropped + |batch|)
    else TryRows(server, p, batch)
  }

  function TryBatches<T, R>(server: Server<T, R>, p: Progress<T>, mode: FailureMode,
                            batches: seq<seq<R>>): Progress<T>
    decreases |batches|
  {
    if batches == [] then p else TryBatches(server, TryBatch(server, p, mode, batches[0]), mode, batches[1..])
  }

  // -- the reference: one row at a time --

  function Skipping<T, R>(insert: Insert<T, R>, t: T, rows: seq<R>): T {
    if rows == [] then t
    else match insert(t, rows[0])
         case Some(t') => Skipping(insert, t', rows[1..])
         case None => Skipping(insert, t, rows[1..])
  }

  /** How many rows go in that way. */
  function Kept<T, R>(insert: Insert<T, R>, t: T, rows: seq<R>): (n: nat)
    ensures n <= |rows|
  {
    if rows == [] then 0
    else match insert(t, rows[0])
         case Some(t') => 1 + Kept(insert, t', rows[1..])
         case None => Kept(insert, t, rows[1..])
  }

  function AllInserted<T, R>(insert: Insert<T, R>, t: T, rows: seq<R>): Option<T> {
    if rows == [] then Some(t)
    else match insert(t, rows[0])
         case Some(t') => AllInserted(insert, t', rows[1..])
         case None => None
  }

  /** What a row leaves behind is decided by the table and the row; an error in COMMIT may hide that it
      went in. */
  predicate RowSettled<T(==), R>(server: Server<T, R>, insert: Insert<T, R>, n: nat, t: T, r: R) {
    match server.row(n, t, r)
    case Failed => insert(t, r) == None
    case Done(t', _) => insert(t, r) == Some(t')
    case Lost(t', _) => insert(t, r) == Some(t') || (insert(t, r) == None && t' == t)
  }

  predicate RowDecided<T(==), R>(server: Server<T, R>, insert: Insert<T, R>, n: nat, t: T, r: R) {
    RowSettled(server, insert, n, t, r) && !server.row(n, t, r).Lost?
  }

  predicate BatchAgrees<T(==), R>(server: Server<T, R>, insert: Insert<T, R>, n: nat, t: T, rows: seq<R>) {
    match server.batch(n, t, rows)
    case Failed => true
    case Lost(t', _) => t' == t
    case Done(t', _) => AllInserted(insert, t, rows) == Some(t')
  }

  /** Whether a single row goes in depends on the table and the row alone. */
  ghost predicate RowsDecide<T(!new), R(!new)>(server: Server<T, R>, insert: Insert<T, R>) {
    forall n, t, r :: RowDecided(server, insert, n, t, r)
  }

  ghost predicate RowsSettle<T(!new), R(!new)>(server: Server<T, R>, insert: Insert<T, R>) {
    forall n, t, r :: RowSettled(server, insert, n, t, r)
  }

  /** A batch may fail at any time and for any reason, but then it leaves nothing behind; if it
      succeeds, each of its rows went in. */
  ghost predicate AllOrNothing<T(!new), R(!new)>(server: Server<T, R>, insert: Insert<T, R>) {
    forall n, t, rows :: BatchAgrees(server, insert, n, t, rows)
  }

  ghost predicate NothingLost<T(!new), R(!new)>(server: Server<T, R>) {
    && (forall n, t, rows :: !server.batch(n, t, rows).Lost?)
    && forall n, t, r :: !server.row(n, t, r).Lost?
  }

  lemma {:induction false} AllInsertedSkipsNone<T, R>(insert: Insert<T, R>, t: T, rows: seq<R>)
    ensures AllInserted(insert, t, rows).Some? <==> Kept(insert, t, rows) == |rows|
    ensures AllInserted(insert, t, rows).Some? ==>
              AllInserted(insert, t, rows).value == Skipping(insert, t, rows)
  {
    if rows != [] {
      match insert(t, rows[0])
      case Some(t') => AllInsertedSkipsNone(insert, t', rows[1..]);
      case None =>
    }
  }

  lemma {:induction false} SkippingConcat<T, R>(insert: Insert<T, R>, t: T, a: seq<R>, b: seq<R>)
    ensures Skipping(insert, t, a + b) == Skipping(insert, Skipping(insert, t, a), b)
    ensures Kept(insert, t, a + b) == Kept(insert, t, a) + Kept(insert, Skipping(insert, t, a), b)
    decreases |a|
  {
    if a == [] {
      assert a + b == b;
    } else {
      assert (a + b)[0] == a[0] && (a + b)[1..] == a[1..] + b;
      match insert(t, a[0])
      case Some(t') => SkippingConcat(insert, t', a[1..], b);
      case None => SkippingConcat(insert, t, a[1..], b);
    }
  }

  lemma {:induction false} RowsSkip<T(!new), R(!new)>(server: Server<T, R>, insert: Insert<T, R>,
                                                      p: Progress<T>, rows: seq<R>)
    requires RowsDecide(server, insert)
    ensures var q := TryRows(server, p, rows);
            && q.table == Skipping(insert, p.table, rows)
            && q.written == p.written + Kept(insert, p.table, rows)
            && q.dropped == p.dropped + |rows| - Kept(insert, p.table, rows)
    decreases |rows|
  {
    if rows != [] {
      assert RowDecided(server, insert, p.tries, p.table, rows[0]);
      RowsSkip(server, insert, AfterRow(p, server.row(p.tries, p.table, rows[0])), rows[1..]);
    }
  }

  /** How far the reported count of a batch is from its size. */
  function Excess<T, R>(server: Server<T, R>, p: Progress<T>, batch: seq<R>): int {
    match server.batch(p.tries, p.table, batch)
    case Failed => 0
    case Lost(_, touched) => Credit(touched, |batch|)
    case Done(_, touched) => Credit(touched, |batch|) - |batch|
  }

  function TotalExcess<T, R>(server: Server<T, R>, p: Progress<T>, mode: FailureMode, batches: seq<seq<R>>): int
    decreases |batches|
  {
    if batches == [] then 0
    else Excess(server, p, batches[0])
         + TotalExcess(server, TryBatch(server, p, mode, batches[0]), mode, batches[1..])
  }

  lemma BatchSkips<T(!new), R(!new)>(server: Server<T, R>, insert: Insert<T, R>, p: Progress<T>, batch: seq<R>)
    requires RowsDecide(server, insert) && BatchAgrees(server, insert, p.tries, p.table, batch)
    ensures var q := TryBatch(server, p, SplitOnFailure, batch);
            && q.table == Skipping(insert, p.table, batch)
            && q.written == p.written + Kept(insert, p.table, batch) + Excess(server, p, batch)
            && q.dropped == p.dropped + |batch| - Kept(insert, p.table, batch)
  {
    var a := server.batch(p.tries, p.table, batch);
    if a.Done? {
      AllInsertedSkipsNone(insert, p.table, batch);
    } else {
      RowsSkip(server, insert, AfterBatch(p, a, |batch|), batch);
    }
  }

  /** Main result: splitting a failed batch means the same as inserting the rows one at a time and
      skipping the ones that fail, whatever the batches are and whichever of them fail. */
  lemma {:induction false} SplitIsRowByRow<T(!new), R(!new)>(
      server: Server<T, R>, insert: Insert<T, R>, p: Progress<T>, batches: seq<seq<R>>)
    requires RowsDecide(server, insert) && AllOrNothing(server, insert)
    ensures var q, rows := TryBatches(server, p, SplitOnFailure, batches), Flatten(batches);
            && q.table == Skipping(insert, p.table, rows)
            && q.dropped == p.dropped + |rows| - Kept(insert, p.table, rows)
            && q.written == p.written + Kept(insert, p.table, rows) + TotalExcess(server, p, SplitOnFailure, batches)
    decreases |batches|
  {
    if batches != [] {
      assert BatchAgrees(server, insert, p.tries, p.table, batches[0]);
      BatchSkips(server, insert, p, batches[0]);
      SplitIsRowByRow(server, insert, TryBatch(server, p, SplitOnFailure, batches[0]), batches[1..]);
      SkippingConcat(insert, p.table, batches[0], Flatten(batches[1..]));
    }
  }

  /** So neither the table nor the number of dropped rows depends on the batch size. */
  lemma BatchSizeDoesNotMatter<T(!new), R(!new)>(
      server: Server<T, R>, insert: Insert<T, R>, p: Progress<T>, a: seq<seq<R>>, b: seq<seq<R>>)
    requires RowsDecide(server, insert) && AllOrNothing(server, insert) && Flatten(a) == Flatten(b)
    ensures var q, r := TryBatches(server, p, SplitOnFailure, a), TryBatches(server, p, SplitOnFailure, b);
            q.table == r.table && q.dropped == r.dropped
  {
    SplitIsRowByRow(server, insert, p, a);
    SplitIsRowByRow(server, insert, p, b);
  }

  // -- when the counts add up --

  predicate AddsUp<T, R>(server: Server<T, R>, p: Progress<T>, mode: FailureMode, batches: seq<seq<R>>) {
    var q := TryBatches(server, p, mode, batches);
    q.written + q.dropped == p.written + p.dropped + |Flatten(batches)|
  }

  predicate NoneEmpty<R>(batches: seq<seq<R>>) {
    forall i :: 0 <= i < |batches| ==> batches[i] != []
  }

  /** The driver reports the size of the batch or nothing, and COMMIT itself never fails. */
  predicate ExactCount<T, R>(server: Server<T, R>, n: nat, t: T, rows: seq<R>) {
    match server.batch(n, t, rows)
    case Failed => true
    case Lost(_, _) => false
    case Done(_, touched) => touched == 0 || touched == |rows|
  }

  /** No row of a recovery run fails in its own COMMIT: such a row counts as written and as dropped. */
  predicate RowsCommit<T, R>(server: Server<T, R>, n: nat, t: T, rows: seq<R>)
    decreases |rows|
  {
    rows == [] ||
    match server.row(n, t, rows[0])
    case Failed => RowsCommit(server, n + 1, t, rows[1..])
    case Done(t', _) => RowsCommit(server, n + 1, t', rows[1..])
    case Lost(_, _) => false
  }

  /** What a caller needs of the server for one batch: an exact count, and commits that do not fail. */
  predicate CountsOnce<T, R>(server: Server<T, R>, mode: FailureMode, n: nat, t: T, rows: seq<R>) {
    && ExactCount(server, n, t, rows)
    && (mode == SplitOnFailure && server.batch(n, t, rows).Failed? ==> RowsCommit(server, n + 1, t, rows))
  }

  lemma {:induction false} RowsCount<T, R>(server: Server<T, R>, p: Progress<T>, rows: seq<R>)
    ensures var q := TryRows(server, p, rows);
            && q.written + q.dropped >= p.written + p.dropped + |rows|
            && (q.written + q.dropped == p.written + p.dropped + |rows| <==> RowsCommit(server, p.tries, p.table, rows))
    decreases |rows|
  {
    if rows != [] {
      RowsCount(server, AfterRow(p, server.row(p.tries, p.table, rows[0])), rows[1..]);
    }
  }

  lemma BatchCounts<T, R>(server: Server<T, R>, p: Progress<T>, mode: FailureMode, batch: seq<R>)
    requires batch != []
    ensures var q := TryBatch(server, p, mode, batch);
            q.written + q.dropped == p.written + p.dropped + |batch|
            <==> CountsOnce(server, mode, p.tries, p.table, batch)
  {
    var a := server.batch(p.tries, p.table, batch);
    if !a.Done? && mode == SplitOnFailure {
      RowsCount(server, AfterBatch(p, a, |batch|), batch);
    }
  }

  lemma {:induction false} AllCountedOnce<T(!new), R(!new)>(
      server: Server<T, R>, p: Progress<T>, mode: FailureMode, batches: seq<seq<R>>)
    requires NoneEmpty(batches)
    requires forall n, t, rows :: rows != [] ==> CountsOnce(server, mode, n, t, rows)
    ensures AddsUp(server, p, mode, batches)
    decreases |batches|
  {
    if batches != [] {
      assert CountsOnce(server, mode, p.tries, p.table, batches[0]);
      BatchCounts(server, p, mode, batches[0]);
      AllCountedOnce(server, TryBatch(server, p, mode, batches[0]), mode, batches[1..]);
    }
  }

  lemma OneBatchAddsUp<T, R>(server: Server<T, R>, mode: FailureMode, n: nat, t: T, rows: seq<R>)
    requires rows != []
    ensures AddsUp(server, Progress(t, n, 0, 0), mode, [rows]) <==> CountsOnce(server, mode, n, t, rows)
  {
    var p := Progress(t, n, 0, 0);
    BatchCounts(server, p, mode, rows);
    assert [rows][1..] == [];
    assert TryBatches(server, p, mode, [rows]) == TryBatch(server, p, mode, rows);
    assert Flatten([rows]) == rows + [] == rows;
  }

  ghost predicate AlwaysAddsUp<T(!new), R(!new)>(server: Server<T, R>, mode: FailureMode) {
    forall p, batches :: NoneEmpty(batches) ==> AddsUp(server, p, mode, batches)
  }

  /** Main result, for every server. Every row is counted once, as written or as dropped, in every run
      over non-empty batches, exactly when every batch statement reports its size or nothing, none fails
      in COMMIT, and neither does a row of a failed batch that is split. */
  lemma CountsAddUpExactlyWhen<T(!new), R(!new)>(server: Server<T, R>, mode: FailureMode)
    ensures AlwaysAddsUp(server, mode)
            <==> forall n, t, rows :: rows != [] ==> CountsOnce(server, mode, n, t, rows)
  {
    if forall n, t, rows :: rows != [] ==> CountsOnce(server, mode, n, t, rows) {
      forall p, batches | NoneEmpty(batches) ensures AddsUp(server, p, mode, batches) {
        AllCountedOnce(server, p, mode, batches);
      }
    } else {
      var n, t, rows :| rows != [] && !CountsOnce(server, mode, n, t, rows);
      OneBatchAddsUp(server, mode, n, t, rows);
      assert NoneEmpty([rows]);
    }
  }

  ghost predicate ExactCounts<T(!new), R(!new)>(server: Server<T, R>) {
    forall n, t, rows :: rows != [] ==> ExactCount(server, n, t, rows)
  }

  lemma {:induction false} NoLossCommits<T(!new), R(!new)>(server: Server<T, R>, n: nat, t: T, rows: seq<R>)
    requires n > 0 && forall m: nat, t, r :: m > 0 ==> !server.row(m, t, r).Lost?
    ensures RowsCommit(server, n, t, rows)
    decreases |rows|
  {
    if rows != [] {
      match server.row(n, t, rows[0])
      case Failed => NoLossCommits(server, n + 1, t, rows[1..]);
      case Done(t', _) => NoLossCommits(server, n + 1, t', rows[1..]);
      case Lost(_, _) => assert false;
    }
  }

  /** The same seen by a caller who knows how the server treats single rows. Without splitting, exact
      counts are all it takes. With splitting they suffice, whichever batches fail, exactly when no row
      sent after a batch fails in COMMIT. */
  lemma ExactCountsSufficeExactlyWhen<T(!new), R(!new)>(row: (nat, T, R) -> Attempt<T>, mode: FailureMode)
    ensures (forall batch :: ExactCounts(Server(batch, row)) ==> AlwaysAddsUp(Server(batch, row), mode))
            <==> (mode == SplitOnFailure ==> forall n: nat, t, r :: n > 0 ==> !row(n, t, r).Lost?)
  {
    if mode == SplitOnFailure && exists n: nat, t, r :: n > 0 && row(n, t, r).Lost? {
      var n: nat, t, r :| n > 0 && row(n, t, r).Lost?;
      var server := Server((_, _, _) => Failed, row);
      assert !CountsOnce(server, mode, n - 1, t, [r]);
      CountsAddUpExactlyWhen(server, mode);
      assert ExactCounts(server);
    } else {
      forall batch | ExactCounts(Server(batch, row)) ensures AlwaysAddsUp(Server(batch, row), mode) {
        var server := Server(batch, row);
        forall n: nat, t, rows | rows != [] ensures CountsOnce(server, mode, n, t, rows) {
          assert ExactCount(server, n, t, rows);
          if mode == SplitOnFailure {
            NoLossCommits(server, n + 1, t, rows);
          }
        }
        CountsAddUpExactlyWhen(server, mode);
      }
    }
  }

  /** The driver reports one row per row, or nothing: a plain insert. */
  ghost predicate PlainCounts<T(!new), R(!new)>(server: Server<T, R>) {
    forall n, t, rows ::
      server.batch(n, t, rows).Done? ==>
        server.batch(n, t, rows).touched == |rows| || server.batch(n, t, rows).touched == 0
  }

  lemma {:induction false} PlainInsertsAddUp<T(!new), R(!new)>(
      server: Server<T, R>, p: Progress<T>, batches: seq<seq<R>>)
    requires PlainCounts(server) && NothingLost(server) && NoneEmpty(batches)
    ensures AddsUp(server, p, SplitOnFailure, batches) && TotalExcess(server, p, SplitOnFailure, batches) == 0
    decreases |batches|
  {
    if batches != [] {
      assert !server.batch(p.tries, p.table, batches[0]).Lost?;
      NoLossCommits(server, p.tries + 1, p.table, batches[0]);
      BatchCounts(server, p, SplitOnFailure, batches[0]);
      PlainInsertsAddUp(server, TryBatch(server, p, SplitOnFailure, batches[0]), batches[1..]);
    }
  }

  /** A batch of one row goes in exactly when the row does. */
  predicate SingleAgrees<T(==), R>(server: Server<T, R>, insert: Insert<T, R>, n: nat, t: T, r: R) {
    match server.batch(n, t, [r])
    case Failed => insert(t, r) == None
    case Done(t', _) => insert(t, r) == Some(t')
    case Lost(t', _) => insert(t, r) == Some(t') || (insert(t, r) == None && t' == t)
  }

  /** Best effort only keeps whole batches, so its result is that of row by row when they have one
      row each. */
  lemma {:induction false} BestEffortBySingleRows<T(!new), R(!new)>(
      server: Server<T, R>, insert: Insert<T, R>, p: Progress<T>, batches: seq<seq<R>>)
    requires forall n, t, r :: SingleAgrees(server, insert, n, t, r)
    requires forall i :: 0 <= i < |batches| ==> |batches[i]| == 1
    ensures TryBatches(server, p, BestEffort, batches).table == Skipping(insert, p.table, Flatten(batches))
    decreases |batches|
  {
    if batches != [] {
      var batch := batches[0];
      assert batch == [batch[0]];
      assert SingleAgrees(server, insert, p.tries, p.table, batch[0]);
      BestEffortBySingleRows(server, insert, TryBatch(server, p, BestEffort, batch), batches[1..]);
      assert Flatten(batches)[0] == batch[0] && Flatten(batches)[1..] == Flatten(batches[1..]);
    }
  }

  /** A statement fails exactly for its rows, and nothing is lost. */
  predicate BatchExact<T(==), R>(server: Server<T, R>, insert: Insert<T, R>, n: nat, t: T, rows: seq<R>) {
    match server.batch(n, t, rows)
    case Failed => AllInserted(insert, t, rows) == None
    case Done(t', _) => AllInserted(insert, t, rows) == Some(t')
    case Lost(_, _) => false
  }

  predicate KeepsSameRows<T(==), R>(server: Server<T, R>, insert: Insert<T, R>, p: Progress<T>, batches: seq<seq<R>>) {
    TryBatches(server, p, BestEffort, batches).table == Skipping(insert, p.table, Flatten(batches))
  }

  /** A table that row `a` changes refuses row `b` neither before nor after. */
  predicate NoMixing<T(==), R>(insert: Insert<T, R>, t: T, a: R, b: R) {
    insert(t, a).Some? && insert(t, a).value != t ==> insert(t, b).Some? && insert(insert(t, a).value, b).Some?
  }

  lemma {:induction false} NothingChanges<T(!new), R(!new)>(insert: Insert<T, R>, t: T, rows: seq<R>, refused: R)
    requires (forall t, a, b :: NoMixing(insert, t, a, b)) && insert(t, refused) == None
    ensures Skipping(insert, t, rows) == t
  {
    if rows != [] {
      assert NoMixing(insert, t, rows[0], refused);
      NothingChanges(insert, t, rows[1..], refused);
    }
  }

  lemma {:induction false} AllAccepted<T(!new), R(!new)>(insert: Insert<T, R>, t: T, rows: seq<R>)
    requires (forall t, a, b :: NoMixing(insert, t, a, b)) && forall r :: insert(t, r).Some?
    ensures AllInserted(insert, t, rows).Some?
    decreases |rows|
  {
    if rows != [] {
      var next := insert(t, rows[0]).value;
      forall r ensures insert(next, r).Some? {
        assert NoMixing(insert, t, rows[0], r);
      }
      AllAccepted(insert, next, rows[1..]);
    }
  }

  lemma {:induction false} AllOrNone<T(!new), R(!new)>(insert: Insert<T, R>, t: T, rows: seq<R>)
    requires forall t, a, b :: NoMixing(insert, t, a, b)
    ensures AllInserted(insert, t, rows).Some? || Skipping(insert, t, rows) == t
  {
    if rows != [] {
      var a := rows[0];
      if insert(t, a) == None {
        NothingChanges(insert, t, rows[1..], a);
      } else if insert(t, a).value == t {
        AllOrNone(insert, t, rows[1..]);
      } else {
        forall r ensures insert(insert(t, a).value, r).Some? {
          assert NoMixing(insert, t, a, r);
        }
        AllAccepted(insert, insert(t, a).value, rows[1..]);
      }
    }
  }

  lemma {:induction false} UnmixedIsRowByRow<T(!new), R(!new)>(
      server: Server<T, R>, insert: Insert<T, R>, p: Progress<T>, batches: seq<seq<R>>)
    requires forall n, t, rows :: BatchExact(server, insert, n, t, rows)
    requires forall t, a, b :: NoMixing(insert, t, a, b)
    ensures KeepsSameRows(server, insert, p, batches)
    decreases |batches|
  {
    if batches != [] {
      assert BatchExact(server, insert, p.tries, p.table, batches[0]);
      AllOrNone(insert, p.table, batches[0]);
      AllInsertedSkipsNone(insert, p.table, batches[0]);
      UnmixedIsRowByRow(server, insert, TryBatch(server, p, BestEffort, batches[0]), batches[1..]);
      SkippingConcat(insert, p.table, batches[0], Flatten(batches[1..]));
    }
  }

  lemma TwoRows<T, R>(insert: Insert<T, R>, t: T, a: R, b: R)
    ensures var t' := if insert(t, a).Some? then insert(t, a).value else t;
            && Skipping(insert, t, [a, b]) == (if insert(t', b).Some? then insert(t', b).value else t')
            && (insert(t, a) == None || insert(t', b) == None ==> AllInserted(insert, t, [a, b]) == None)
  {
    var t' := if insert(t, a).Some? then insert(t, a).value else t;
    var one, none: seq<R> := [b], [];
    assert [a, b][0] == a && [a, b][1..] == one && one[0] == b && one[1..] == none;
    assert Skipping(insert, t', one)
        == if insert(t', b).Some? then Skipping(insert, insert(t', b).value, none) else Skipping(insert, t', none);
    assert Skipping(insert, t, [a, b]) == Skipping(insert, t', one);
    assert insert(t, a).Some? ==> AllInserted(insert, t, [a, b]) == AllInserted(insert, t', [b]);
  }

  lemma MixedBatch<T(!new), R(!new)>(server: Server<T, R>, insert: Insert<T, R>, t: T, rows: seq<R>)
    requires BatchExact(server, insert, 0, t, rows) && AllInserted(insert, t, rows) == None
    requires Skipping(insert, t, rows) != t
    ensures !KeepsSameRows(server, insert, Progress(t, 0, 0, 0), [rows])
  {
    var p := Progress(t, 0, 0, 0);
    assert [rows][1..] == [] && Flatten([rows]) == rows + [] == rows;
    assert TryBatches(server, p, BestEffort, [rows]) == TryBatch(server, p, BestEffort, rows);
  }

  /** Main result. Best effort keeps the rows that row by row keeps, in every run, exactly when no table
      has both a row that changes it and one that is refused before or after that. */
  lemma BestEffortExactlyWhen<T(!new), R(!new)>(server: Server<T, R>, insert: Insert<T, R>)
    requires forall n, t, rows :: BatchExact(server, insert, n, t, rows)
    ensures (forall p, batches :: KeepsSameRows(server, insert, p, batches))
            <==> forall t, a, b :: NoMixing(insert, t, a, b)
  {
    if forall t, a, b :: NoMixing(insert, t, a, b) {
      forall p, batches ensures KeepsSameRows(server, insert, p, batches) {
        UnmixedIsRowByRow(server, insert, p, batches);
      }
    } else {
      var t, a, b :| !NoMixing(insert, t, a, b);
      var rows := if insert(t, b) == None then [b, a] else [a, b];
      TwoRows(insert, t, rows[0], rows[1]);
      assert rows == [rows[0], rows[1]];
      assert BatchExact(server, insert, 0, t, rows);
      MixedBatch(server, insert, t, rows);
    }
  }

  // -- atomic mode --

  /** The batches of one transaction up to the first that fails; the table is the transaction's own. */
  datatype Tx<T> = Tx(ok: bool, progress: Progress<T>)

  function TryAtomic<T, R>(server: Server<T, R>, p: Progress<T>, batches: seq<seq<R>>): Tx<T>
    decreases |batches|
  {
    if batches == [] then Tx(true, p)
    else
      var a := server.batch(p.tries, p.table, batches[0]);
      if a.Done? then TryAtomic(server, AfterBatch(p, a, |batches[0]|), batches[1..])
      else Tx(false, p.(tries := p.tries + 1))
  }

  lemma {:induction false} AllInsertedConcat<T, R>(insert: Insert<T, R>, t: T, a: seq<R>, b: seq<R>)
    ensures AllInserted(insert, t, a + b) == match AllInserted(insert, t, a)
                                             case Some(t') => AllInserted(insert, t', b)
                                             case None => None
    decreases |a|
  {
    if a == [] {
      assert a + b == b;
    } else {
      assert (a + b)[0] == a[0] && (a + b)[1..] == a[1..] + b;
      match insert(t, a[0])
      case Some(t') => AllInsertedConcat(insert, t', a[1..], b);
      case None =>
    }
  }

  /** An atomic write that gets as far as its commit has put every row in, whatever the batches. */
  lemma {:induction false} AtomicPutsAllIn<T(!new), R(!new)>(
      server: Server<T, R>, insert: Insert<T, R>, p: Progress<T>, batches: seq<seq<R>>)
    requires AllOrNothing(server, insert) && TryAtomic(server, p, batches).ok
    ensures AllInserted(insert, p.table, Flatten(batches)) == Some(TryAtomic(server, p, batches).progress.table)
    decreases |batches|
  {
    if batches != [] {
      var a := server.batch(p.tries, p.table, batches[0]);
      assert BatchAgrees(server, insert, p.tries, p.table, batches[0]);
      AtomicPutsAllIn(server, insert, AfterBatch(p, a, |batches[0]|), batches[1..]);
      AllInsertedConcat(insert, p.table, batches[0], Flatten(batches[1..]));
    }
  }

  /** When a statement fails only because one of its rows does, it gets that far exactly when every
      row can go in. */
  lemma {:induction false} AtomicSucceedsExactlyWhen<T(!new), R(!new)>(
      server: Server<T, R>, insert: Insert<T, R>, p: Progress<T>, batches: seq<seq<R>>)
    requires AllOrNothing(server, insert)
    requires forall n, t, rows :: AllInserted(insert, t, rows).Some? ==> server.batch(n, t, rows).Done?
    ensures TryAtomic(server, p, batches).ok <==> AllInserted(insert, p.table, Flatten(batches)).Some?
    decreases |batches|
  {
    if batches != [] {
      var a := server.batch(p.tries, p.table, batches[0]);
      assert BatchAgrees(server, insert, p.tries, p.table, batches[0]);
      AllInsertedConcat(insert, p.table, batches[0], Flatten(batches[1..]));
      if a.Done? {
        AtomicSucceedsExactlyWhen(server, insert, AfterBatch(p, a, |batches[0]|), batches[1..]);
      }
    }
  }

  // -- the code --

  class Session<T(!new), R(!new)> {
    const server: Server<T, R>
    var table: T
    var tries: nat

    constructor (server: Server<T, R>, table: T)
      ensures this.server == server && this.table == table && tries == 0
    {
      this.server, this.table, tries := server, table, 0;
    }

    function Now(written: nat, dropped: nat): Progress<T>
      reads this
    {
      Progress(table, tries, written, dropped)
    }

    /** One statement in a scope of its own. */
    method Send(rows: seq<R>) returns (a: Attempt<T>)
      modifies this
      ensures a == server.batch(old(tries), old(table), rows) && tries == old(tries) + 1
      ensures table == if a.Failed? then old(table) else a.table
    {
      a := server.batch(tries, table, rows);
      tries := tries + 1;
      if !a.Failed? {
        table := a.table;
      }
    }

    method SendRow(row: R) returns (a: Attempt<T>)
      modifies this
      ensures a == server.row(old(tries), old(table), row) && tries == old(tries) + 1
      ensures table == if a.Failed? then old(table) else a.table
    {
      a := server.row(tries, table, row);
      tries := tries + 1;
      if !a.Failed? {
        table := a.table;
      }
    }

    method BulkBestEffort(mode: FailureMode, batches: seq<seq<R>>) returns (written: nat, dropped: nat)
      requires mode != Atomic
      modifies this
      ensures Now(written, dropped) == TryBatches(server, old(Now(0, 0)), mode, batches)
    {
      written, dropped := 0, 0;
      var i := 0;
      while i < |batches|
        invariant 0 <= i <= |batches|
        invariant TryBatches(server, Now(written, dropped), mode, batches[i..])
               == TryBatches(server, old(Now(0, 0)), mode, batches)
      {
        var batch := batches[i];
        ghost var before := Now(written, dropped);
        assert batches[i..][0] == batch && batches[i..][1..] == batches[i + 1..];
        var a := Send(batch);
        if !a.Failed? {
          written := written + Credit(a.touched, |batch|);
        }
        assert Now(written, dropped) == AfterBatch(before, a, |batch|);
        if !a.Done? {
          if mode != SplitOnFailure {
            dropped := dropped + |batch|;
          } else {
            var w, d := RowByRow(batch, written, dropped);
            written, dropped := w, d;
          }
        }
        assert Now(written, dropped) == TryBatch(server, before, mode, batch);
        i := i + 1;
      }
    }

    /** What split_on_failure does with a failed batch. */
    method RowByRow(batch: seq<R>, written0: nat, dropped0: nat) returns (written: nat, dropped: nat)
      modifies this
      ensures Now(written, dropped) == TryRows(server, old(Now(written0, dropped0)), batch)
    {
      written, dropped := written0, dropped0;
      var j := 0;
      while j < |batch|
        invariant 0 <= j <= |batch|
        invariant TryRows(server, Now(written, dropped), batch[j..])
               == TryRows(server, old(Now(written0, dropped0)), batch)
      {
        assert batch[j..][0] == batch[j] && batch[j..][1..] == batch[j + 1..];
        var a := SendRow(batch[j]);
        if !a.Failed? {
          written := written + 1;
        }
        if !a.Done? {
          dropped := dropped + 1;
        }
        j := j + 1;
      }
    }

    /** All batches in one transaction; None: an exception. */
    method BulkAtomic(batches: seq<seq<R>>, commit: Ending) returns (r: Option<nat>)
      modifies this
      ensures var tx := TryAtomic(server, old(Now(0, 0)), batches);
              && tries == tx.progress.tries
              && table == (if tx.ok && (commit == Confirmed || commit == Ending.Lost(true)) then tx.progress.table
                           else old(table))
              && r == if tx.ok && commit == Confirmed then Some(tx.progress.written) else None
    {
      var work, i := table, 0;
      var written: nat := 0;
      while i < |batches|
        invariant 0 <= i <= |batches| && table == old(table)
        invariant TryAtomic(server, Progress(work, tries, written, 0), batches[i..])
               == TryAtomic(server, old(Now(0, 0)), batches)
      {
        assert batches[i..][0] == batches[i] && batches[i..][1..] == batches[i + 1..];
        var a := server.batch(tries, work, batches[i]);
        tries := tries + 1;
        if !a.Done? {
          return None;
        }
        work, written := a.table, written + Credit(a.touched, |batches[i]|);
        i := i + 1;
      }
      if commit == Confirmed || commit == Ending.Lost(true) {
        table := work;
      }
      r := if commit == Confirmed then Some(written) else None;
    }

    /** `_bulk_write`. Whatever the batch size turns out to be, split_on_failure leaves the table that
        inserting row by row would, and atomic mode leaves that table only if no row was skipped. */
    method BulkWrite(rows: seq<R>, columns: nat, mode: FailureMode, batchSize: Option<int>, limits: BulkLimits,
                     rowBytes: Option<nat>, commit: Ending, ghost insert: Insert<T, R>)
        returns (r: Option<nat>, ghost batches: seq<seq<R>>)
      modifies this
      ensures rows == [] ==> r == Some(0) && table == old(table) && tries == old(tries)
      ensures Flatten(batches) == rows
      ensures forall i :: 0 <= i < |batches| ==>
                0 < |batches[i]| <= ResolveBatchRows(columns, batchSize, limits, rowBytes)
      ensures limits.maxParams == PG_MAX_BIND_PARAMS && columns <= PG_MAX_BIND_PARAMS ==>
                forall i :: 0 <= i < |batches| ==> |batches[i]| * columns <= PG_MAX_BIND_PARAMS
      ensures mode != Atomic ==>
                var p := TryBatches(server, old(Now(0, 0)), mode, batches);
                table == p.table && tries == p.tries && r == Some(p.written)
      ensures mode == Atomic && rows != [] ==>
                var tx := TryAtomic(server, old(Now(0, 0)), batches);
                && table == (if tx.ok && (commit == Confirmed || commit == Ending.Lost(true)) then tx.progress.table
                             else old(table))
                && r == if tx.ok && commit == Confirmed then Some(tx.progress.written) else None
      ensures mode == SplitOnFailure && RowsDecide(server, insert) && AllOrNothing(server, insert) ==>
                && r.Some? && table == Skipping(insert, old(table), rows)
                && (PlainCounts(server) && NothingLost(server) ==> r.value == Kept(insert, old(table), rows))
      ensures mode == SplitOnFailure && Honest(server, insert) && (forall t, rows :: RepeatsQuietly(insert, t, rows)) ==>
                table == Skipping(insert, old(table), rows)
      ensures mode == Atomic && AllOrNothing(server, insert) ==>
                && (table == old(table) || AllInserted(insert, old(table), rows) == Some(table))
                && (r.Some? ==> AllInserted(insert, old(table), rows) == Some(table))
    {
      if rows == [] {
        return Some(0), [];
      }
      var size := ResolveBatchRows(columns, batchSize, limits, rowBytes);
      var slices := IterBatches(rows, size);
      batches := slices;
      if limits.maxParams == PG_MAX_BIND_PARAMS && columns <= PG_MAX_BIND_PARAMS {
        SlicesFit(slices, columns, batchSize, limits, rowBytes);
      }
      ghost var start := Now(0, 0);
      if mode == Atomic {
        r := BulkAtomic(slices, commit);
        if AllOrNothing(server, insert) && TryAtomic(server, start, batches).ok {
          AtomicPutsAllIn(server, insert, start, batches);
        }
      } else {
        var written, dropped := BulkBestEffort(mode, slices);
        r := Some(written);
        if mode == SplitOnFailure && Honest(server, insert) && forall t, rows :: RepeatsQuietly(insert, t, rows) {
          QuietIsRowByRow(server, insert, start, batches);
        }
        if mode == SplitOnFailure && RowsDecide(server, insert) && AllOrNothing(server, insert) {
          SplitIsRowByRow(server, insert, start, batches);
          if PlainCounts(server) && NothingLost(server) {
            PlainInsertsAddUp(server, start, batches);
          }
        }
      }
    }
  }

  // -- lost commits --

  lemma {:induction false} RowsSettleTable<T(!new), R(!new)>(server: Server<T, R>, insert: Insert<T, R>,
                                                             p: Progress<T>, rows: seq<R>)
    requires RowsSettle(server, insert)
    ensures TryRows(server, p, rows).table == Skipping(insert, p.table, rows)
    decreases |rows|
  {
    if rows != [] {
      assert RowSettled(server, insert, p.tries, p.table, rows[0]);
      RowsSettleTable(server, insert, AfterRow(p, server.row(p.tries, p.table, rows[0])), rows[1..]);
    }
  }

  /** After an error in COMMIT the rows are inserted again, on top of whatever that commit left. */
  lemma RowsRepeatAfterLostCommit<T(!new), R(!new)>(
      server: Server<T, R>, insert: Insert<T, R>, p: Progress<T>, batch: seq<R>)
    requires RowsSettle(server, insert) && server.batch(p.tries, p.table, batch).Lost?
    ensures var left := server.batch(p.tries, p.table, batch).table;
            TryBatch(server, p, SplitOnFailure, batch).table == Skipping(insert, left, batch)
  {
    RowsSettleTable(server, insert, AfterBatch(p, server.batch(p.tries, p.table, batch), |batch|), batch);
  }

  /** An error in COMMIT leaves the old table or the whole batch. */
  predicate BatchHonest<T(==), R>(server: Server<T, R>, insert: Insert<T, R>, n: nat, t: T, rows: seq<R>) {
    match server.batch(n, t, rows)
    case Failed => true
    case Lost(t', _) => t' == t || AllInserted(insert, t, rows) == Some(t')
    case Done(t', _) => AllInserted(insert, t, rows) == Some(t')
  }

  ghost predicate Honest<T(!new), R(!new)>(server: Server<T, R>, insert: Insert<T, R>) {
    RowsSettle(server, insert) && forall n, t, rows :: BatchHonest(server, insert, n, t, rows)
  }

  /** Sending rows again that all went in changes nothing. */
  predicate RepeatsQuietly<T(==), R>(insert: Insert<T, R>, t: T, rows: seq<R>) {
    match AllInserted(insert, t, rows)
    case Some(t') => Skipping(insert, t', rows) == t'
    case None => true
  }

  predicate IsRowByRow<T(==), R>(server: Server<T, R>, insert: Insert<T, R>, p: Progress<T>, batches: seq<seq<R>>) {
    TryBatches(server, p, SplitOnFailure, batches).table == Skipping(insert, p.table, Flatten(batches))
  }

  lemma QuietBatch<T(!new), R(!new)>(server: Server<T, R>, insert: Insert<T, R>, p: Progress<T>, batch: seq<R>)
    requires RowsSettle(server, insert) && BatchHonest(server, insert, p.tries, p.table, batch)
    requires RepeatsQuietly(insert, p.table, batch)
    ensures TryBatch(server, p, SplitOnFailure, batch).table == Skipping(insert, p.table, batch)
  {
    AllInsertedSkipsNone(insert, p.table, batch);
    var a := server.batch(p.tries, p.table, batch);
    if !a.Done? {
      RowsSettleTable(server, insert, AfterBatch(p, a, |batch|), batch);
    }
  }

  lemma {:induction false} QuietIsRowByRow<T(!new), R(!new)>(
      server: Server<T, R>, insert: Insert<T, R>, p: Progress<T>, batches: seq<seq<R>>)
    requires Honest(server, insert) && forall t, rows :: RepeatsQuietly(insert, t, rows)
    ensures IsRowByRow(server, insert, p, batches)
    decreases |batches|
  {
    if batches != [] {
      assert BatchHonest(server, insert, p.tries, p.table, batches[0]);
      assert RepeatsQuietly(insert, p.table, batches[0]);
      QuietBatch(server, insert, p, batches[0]);
      QuietIsRowByRow(server, insert, TryBatch(server, p, SplitOnFailure, batches[0]), batches[1..]);
      SkippingConcat(insert, p.table, batches[0], Flatten(batches[1..]));
    }
  }

  /** A server whose every commit of a batch takes effect and is reported lost. */
  function LosingReplies<T, R>(insert: Insert<T, R>): Server<T, R> {
    Server((n: nat, t: T, rows: seq<R>) => match AllInserted(insert, t, rows)
                                           case Some(t') => Attempt.Lost(t', 0)
                                           case None => Failed,
           (n: nat, t: T, r: R) => match insert(t, r)
                                   case Some(t') => Done(t', 1)
                                   case None => Failed)
  }

  lemma LosingRepeats<T(!new), R(!new)>(insert: Insert<T, R>, t: T, rows: seq<R>)
    requires AllInserted(insert, t, rows).Some?
    ensures Honest(LosingReplies(insert), insert)
    ensures TryBatches(LosingReplies(insert), Progress(t, 0, 0, 0), SplitOnFailure, [rows]).table
         == Skipping(insert, AllInserted(insert, t, rows).value, rows)
    ensures Skipping(insert, t, Flatten([rows])) == AllInserted(insert, t, rows).value
  {
    var server, p := LosingReplies(insert), Progress(t, 0, 0, 0);
    assert forall n: nat, t: T, r :: RowSettled(server, insert, n, t, r);
    assert forall n: nat, t: T, rows :: BatchHonest(server, insert, n, t, rows);
    RowsRepeatAfterLostCommit(server, insert, p, rows);
    assert [rows][1..] == [];
    assert TryBatches(server, p, SplitOnFailure, [rows]) == TryBatch(server, p, SplitOnFailure, rows);
    AllInsertedSkipsNone(insert, t, rows);
    assert Flatten([rows]) == rows + [] == rows;
  }

  /** Main result. Splitting stays row by row in every run of every server that may lose commits exactly
      when repeating an inserted batch changes nothing. */
  lemma LostCommitsHarmlessExactlyWhen<T(!new), R(!new)>(insert: Insert<T, R>)
    ensures (forall server: Server<T, R>, p, batches ::
               Honest(server, insert) ==> IsRowByRow(server, insert, p, batches))
            <==> forall t, rows :: RepeatsQuietly(insert, t, rows)
  {
    if forall t, rows :: RepeatsQuietly(insert, t, rows) {
      forall server: Server<T, R>, p, batches | Honest(server, insert)
        ensures IsRowByRow(server, insert, p, batches)
      {
        QuietIsRowByRow(server, insert, p, batches);
      }
    } else {
      var t, rows :| !RepeatsQuietly(insert, t, rows);
      LosingRepeats(insert, t, rows);
      assert !IsRowByRow(LosingReplies(insert), insert, Progress(t, 0, 0, 0), [rows]);
    }
  }

  /** A table with a unique key that rejects duplicates. */
  function UniqueInsert<K(==), V>(t: map<K, V>, r: (K, V)): Option<map<K, V>> {
    if r.0 in t then None else Some(t[r.0 := r.1])
  }

  lemma {:induction false} PresentIsSkipped<K, V>(t: map<K, V>, rows: seq<(K, V)>)
    requires forall i :: 0 <= i < |rows| ==> rows[i].0 in t
    ensures Skipping(UniqueInsert, t, rows) == t
  {
    if rows != [] {
      assert rows[0].0 in t;
      PresentIsSkipped(t, rows[1..]);
    }
  }

  lemma {:induction false} InsertedIsPresent<K, V>(t: map<K, V>, rows: seq<(K, V)>)
    requires AllInserted(UniqueInsert, t, rows).Some?
    ensures var t' := AllInserted(UniqueInsert, t, rows).value;
            t.Keys <= t'.Keys && forall i :: 0 <= i < |rows| ==> rows[i].0 in t'
    decreases |rows|
  {
    if rows != [] {
      InsertedIsPresent(UniqueInsert(t, rows[0]).value, rows[1..]);
    }
  }

  /** With a unique key lost commits are harmless. */
  lemma UniqueKeyRepeatsQuietly<K, V>(t: map<K, V>, rows: seq<(K, V)>)
    ensures RepeatsQuietly(UniqueInsert, t, rows)
  {
    if AllInserted(UniqueInsert, t, rows).Some? {
      InsertedIsPresent(t, rows);
      PresentIsSkipped(AllInserted(UniqueInsert, t, rows).value, rows);
    }
  }

  /** A table without any key. */
  function Append<R>(t: seq<R>, r: R): Option<seq<R>> {
    Some(t + [r])
  }

  lemma {:induction false} AppendsAll<R>(t: seq<R>, rows: seq<R>)
    ensures Skipping(Append, t, rows) == t + rows && AllInserted(Append, t, rows) == Some(t + rows)
    decreases |rows|
  {
    if rows == [] {
      assert t + rows == t;
    } else {
      AppendsAll(t + [rows[0]], rows[1..]);
      assert t + [rows[0]] + rows[1..] == t + rows;
    }
  }

  /** Without one, every lost commit that took effect stores its batch twice. */
  lemma LostCommitDuplicates<R(!new)>(t: seq<R>, rows: seq<R>)
    ensures TryBatches(LosingReplies(Append), Progress(t, 0, 0, 0), SplitOnFailure, [rows]).table == t + rows + rows
  {
    AppendsAll(t, rows);
    LosingRepeats(Append, t, rows);
    AppendsAll(t + rows, rows);
  }

  // -- results that depend on the batch size --

  /** A table that takes no negative number. */
  function Accepts(n: nat, t: seq<int>, rows: seq<int>): Attempt<seq<int>> {
    if forall i :: 0 <= i < |rows| ==> rows[i] >= 0 then Done(t + rows, |rows|) else Failed
  }

  function NoNegatives(): Server<seq<int>, int> {
    Server(Accepts, (n: nat, t: seq<int>, r: int) => Accepts(n, t, [r]))
  }

  lemma BestEffortDependsOnBatchSize()
    ensures TryBatches(NoNegatives(), Progress([], 0, 0, 0), BestEffort, [[1, -1]]) == Progress([], 1, 0, 2)
    ensures TryBatches(NoNegatives(), Progress([], 0, 0, 0), BestEffort, [[1], [-1]]) == Progress([1], 2, 1, 1)
  {
    assert [1, -1][1] < 0 && [-1][0] < 0;
    assert Accepts(0, [], [1, -1]).Failed? && Accepts(1, [1], [-1]).Failed?;
    assert [] + [1] == [1];
    assert [[1, -1]][1..] == [] && [[1], [-1]][1..] == [[-1]] && [[-1]][1..] == [];
    var p := TryBatch(NoNegatives(), Progress([], 0, 0, 0), BestEffort, [1]);
    assert p == Progress([1], 1, 1, 0);
    assert TryBatch(NoNegatives(), p, BestEffort, [-1]) == Progress([1], 2, 1, 1);
  }

  /** INSERT ... ON CONFLICT DO NOTHING on a table of unique values: only new rows are touched. */
  function DoNothing(n: nat, t: set<int>, rows: seq<int>): Attempt<set<int>>
    decreases |rows|
  {
    if rows == [] then Done(t, 0)
    else
      var rest := DoNothing(n, t + {rows[0]}, rows[1..]);
      if rest.Done? then Done(rest.table, rest.touched + if rows[0] in t then 0 else 1) else Failed
  }

  function IgnoringDuplicates(): Server<set<int>, int> {
    Server(DoNothing, (n: nat, t: set<int>, r: int) => DoNothing(n, t, [r]))
  }

  lemma DoNothingOne(n: nat, t: set<int>, r: int)
    ensures DoNothing(n, t, [r]) == Done(t + {r}, if r in t then 0 else 1)
  {
    assert [r][1..] == [];
    assert DoNothing(n, t + {r}, []) == Done(t + {r}, 0);
  }

  lemma OneConflictInBatch()
    ensures TryBatches(IgnoringDuplicates(), Progress({5}, 0, 0, 0), SplitOnFailure, [[5, 6]]) == Progress({5, 6}, 1, 1, 0)
  {
    assert [5, 6][1..] == [6] && {5} + {5} == {5} && {5} + {6} == {5, 6};
    DoNothingOne(0, {5}, 6);
    assert DoNothing(0, {5}, [5, 6]) == Done({5, 6}, 1);
    assert [[5, 6]][1..] == [];
  }

  lemma OneConflictAlone()
    ensures TryBatches(IgnoringDuplicates(), Progress({5}, 0, 0, 0), SplitOnFailure, [[5], [6]]) == Progress({5, 6}, 2, 2, 0)
  {
    DoNothingOne(0, {5}, 5);
    DoNothingOne(1, {5}, 6);
    assert {5} + {5} == {5} && {5} + {6} == {5, 6};
    var p := TryBatch(IgnoringDuplicates(), Progress({5}, 0, 0, 0), SplitOnFailure, [5]);
    assert p == Progress({5}, 1, 1, 0);
    assert TryBatch(IgnoringDuplicates(), p, SplitOnFailure, [6]) == Progress({5, 6}, 2, 2, 0);
    assert [[5], [6]][1..] == [[6]] && [[6]][1..] == [];
  }

  /** The reported total then depends on the batch size, and a batch of nothing but conflicts counts
      as written. */
  lemma ConflictsMiscount()
    ensures var start := Progress({5}, 0, 0, 0);
            var together, alone := TryBatches(IgnoringDuplicates(), start, SplitOnFailure, [[5, 6]]),
                                   TryBatches(IgnoringDuplicates(), start, SplitOnFailure, [[5], [6]]);
            together.table == alone.table == {5, 6} && together.written == 1 && alone.written == 2
  {
    OneConflictInBatch();
    OneConflictAlone();
  }

  // -- unnest --

  predicate HasColumns<V>(row: map<string, V>, columns: seq<string>) {
    forall i :: 0 <= i < |columns| ==> columns[i] in row
  }

  /** One array per column; None: some row lacks a column and the lookup raises. */
  function ColumnarParams<V>(rows: seq<map<string, V>>, columns: seq<string>): Option<map<string, seq<V>>> {
    if forall i :: 0 <= i < |rows| ==> HasColumns(rows[i], columns)
    then Some(map c | c in columns :: Column(rows, columns, c))
    else None
  }

  function Column<V>(rows: seq<map<string, V>>, columns: seq<string>, c: string): (r: seq<V>)
    requires c in columns && forall i :: 0 <= i < |rows| ==> HasColumns(rows[i], columns)
    ensures |r| == |rows| && forall i :: 0 <= i < |rows| ==> c in rows[i] && r[i] == rows[i][c]
  {
    if rows == [] then []
    else
      var k :| 0 <= k < |columns| && columns[k] == c;
      assert HasColumns(rows[0], columns);
      assert columns[k] in rows[0];
      [rows[0][c]] + Column(rows[1..], columns, c)
  }

  /** Row `i` of `SELECT * FROM unnest(...)` over equally long arrays. */
  function Unnested<V>(arrays: map<string, seq<V>>, i: nat): map<string, V>
    requires forall c :: c in arrays ==> i < |arrays[c]|
  {
    map c | c in arrays :: arrays[c][i]
  }

  /** Reading the arrays back gives each row, cut to the columns: the very row exactly when it has no
      further ones. */
  lemma TransposeRoundTrip<V>(rows: seq<map<string, V>>, columns: seq<string>, i: nat)
    requires i < |rows| && ColumnarParams(rows, columns).Some?
    ensures var arrays := ColumnarParams(rows, columns).value;
            && (forall c :: c in arrays ==> |arrays[c]| == |rows|)
            && Unnested(arrays, i) == (map c | c in columns && c in rows[i] :: rows[i][c])
            && (Unnested(arrays, i) == rows[i] <==> forall c :: c in rows[i] ==> c in columns)
  {
    var arrays := ColumnarParams(rows, columns).value;
    assert HasColumns(rows[i], columns);
    forall c | c in columns ensures c in arrays && c in rows[i] && arrays[c][i] == rows[i][c] {
      assert arrays[c] == Column(rows, columns, c);
    }
    var row := Unnested(arrays, i);
    assert forall c :: c in row <==> c in columns;
    if forall c :: c in rows[i] ==> c in columns {
      assert row == rows[i];
    }
  }
}
