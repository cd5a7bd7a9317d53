/** Properties of the sparse matrix model: the CSR expansion walks the
    storage in order and agrees with element lookup, the builder reads back
    exactly the triplets written into its buffer, `clear` empties it for the
    next build, and a build that fails after setting the built flag locks
    the builder. */
module SparseMatrixProperties {
  import opened Results
  import opened DataTypes
  import opened SparseMatrices

  // ---------------------------------------------------------------------
  // CSR expansion

  /** Row pointers that never decrease, over the first `k` rows. */
  predicate Monotone(rowPtr: seq<int>, k: nat)
    requires k < |rowPtr|
  {
    forall i :: 0 <= i < k ==> rowPtr[i] <= rowPtr[i + 1]
  }

  lemma {:induction false} SpanShape(i: int, colIdx: seq<int>, lo: int, hi: int)
    requires lo <= hi && RangeInBounds(colIdx, lo, hi)
    ensures |Span(i, colIdx, lo, hi)| == hi - lo
    ensures forall j :: 0 <= j < hi - lo ==> Span(i, colIdx, lo, hi)[j] == Entry(i, colIdx[lo + j], lo + j)
    decreases hi - lo
  {
    if lo < hi {
      SpanShape(i, colIdx, lo + 1, hi);
    }
  }

  /** Expansion of monotone row pointers yields one entry per stored value,
      in storage order: entry j is position `rowPtr[0] + j`. */
  lemma {:induction false} ExpansionWalksStorage(rowPtr: seq<int>, colIdx: seq<int>, k: nat)
    requires RowsInBounds(rowPtr, colIdx, k) && Monotone(rowPtr, k)
    ensures |CsrEntries(rowPtr, colIdx, k)| == rowPtr[k] - rowPtr[0]
    ensures forall j :: 0 <= j < |CsrEntries(rowPtr, colIdx, k)| ==>
              CsrEntries(rowPtr, colIdx, k)[j].slot == rowPtr[0] + j
              && 0 <= rowPtr[0] + j < |colIdx|
              && CsrEntries(rowPtr, colIdx, k)[j].col == colIdx[rowPtr[0] + j]
  {
    if k > 0 {
      assert RowsInBounds(rowPtr, colIdx, k - 1);
      ExpansionWalksStorage(rowPtr, colIdx, k - 1);
      SpanShape(k - 1, colIdx, rowPtr[k - 1], rowPtr[k]);
      var prev := CsrEntries(rowPtr, colIdx, k - 1);
      var row := RowEntries(rowPtr, colIdx, k - 1);
      var all := CsrEntries(rowPtr, colIdx, k);
      assert all == prev + row;
      forall j | 0 <= j < |all|
        ensures all[j].slot == rowPtr[0] + j && 0 <= rowPtr[0] + j < |colIdx|
                && all[j].col == colIdx[rowPtr[0] + j]
      {
        if j < |prev| {
          assert all[j] == prev[j];
        } else {
          assert all[j] == row[j - |prev|];
        }
      }
    }
  }

  lemma {:induction false} SpanRows(i: int, colIdx: seq<int>, lo: int, hi: int)
    requires RangeInBounds(colIdx, lo, hi)
    ensures forall e :: e in Span(i, colIdx, lo, hi) ==> e.row == i
    decreases hi - lo
  {
    if lo < hi {
      SpanRows(i, colIdx, lo + 1, hi);
    }
  }

  /** Every entry of the first `k` rows names a row below `k`. */
  lemma {:induction false} ExpansionRowsBelow(rowPtr: seq<int>, colIdx: seq<int>, k: nat)
    requires RowsInBounds(rowPtr, colIdx, k) && Monotone(rowPtr, k)
    ensures forall e :: e in CsrEntries(rowPtr, colIdx, k) ==> 0 <= e.row < k
  {
    if k > 0 {
      assert RowsInBounds(rowPtr, colIdx, k - 1);
      ExpansionRowsBelow(rowPtr, colIdx, k - 1);
      SpanRows(k - 1, colIdx, rowPtr[k - 1], rowPtr[k]);
    }
  }

  /** The first entry at (row, col) in a list of entries. */
  function FindEntry(es: seq<Entry>, row: int, col: int): (r: Option<Entry>)
    ensures r.Some? ==> r.value in es && r.value.row == row && r.value.col == col
    ensures r.None? ==> forall e :: e in es ==> !(e.row == row && e.col == col)
  {
    if |es| == 0 then None
    else if es[0].row == row && es[0].col == col then Some(es[0])
    else FindEntry(es[1..], row, col)
  }

  lemma {:induction false} FindEntryAppend(a: seq<Entry>, b: seq<Entry>, row: int, col: int)
    ensures FindEntry(a + b, row, col) == if FindEntry(a, row, col).Some? then FindEntry(a, row, col) else FindEntry(b, row, col)
  {
    if |a| > 0 {
      assert (a + b)[1..] == a[1..] + b;
      FindEntryAppend(a[1..], b, row, col);
    } else {
      assert a + b == b;
    }
  }

  /** Searching one row's span for a column finds the first matching
      position, exactly as the lookup scan does. */
  lemma {:induction false} FindInSpan(i: int, colIdx: seq<int>, col: int, lo: int, hi: int)
    requires RangeInBounds(colIdx, lo, hi)
    ensures FindEntry(Span(i, colIdx, lo, hi), i, col)
            == match FirstMatch(colIdx, col, lo, hi)
               case Some(p) => Some(Entry(i, col, p))
               case None => None
    decreases hi - lo
  {
    if lo < hi {
      var s := Span(i, colIdx, lo, hi);
      assert s[0] == Entry(i, colIdx[lo], lo);
      assert s[1..] == Span(i, colIdx, lo + 1, hi);
      FindInSpan(i, colIdx, col, lo + 1, hi);
    }
  }

  /** Looking up (row, col) in the expansion finds the entry whose value
      `get_element_from_csr` returns: the expansion and the lookup agree. */
  lemma {:induction false} ExpansionAgreesWithLookup(rowPtr: seq<int>, colIdx: seq<int>, k: nat, row: nat, col: int)
    requires RowsInBounds(rowPtr, colIdx, k) && Monotone(rowPtr, k)
    requires row < k
    ensures FindEntry(CsrEntries(rowPtr, colIdx, k), row, col)
            == match FirstMatch(colIdx, col, rowPtr[row], rowPtr[row + 1])
               case Some(p) => Some(Entry(row, col, p))
               case None => None
  {
    assert RowsInBounds(rowPtr, colIdx, k - 1);
    var prefix := CsrEntries(rowPtr, colIdx, k - 1);
    var last := RowEntries(rowPtr, colIdx, k - 1);
    FindEntryAppend(prefix, last, row, col);
    if row == k - 1 {
      ExpansionRowsBelow(rowPtr, colIdx, k - 1);
      assert FindEntry(prefix, row, col).None?;
      FindInSpan(row, colIdx, col, rowPtr[row], rowPtr[row + 1]);
    } else {
      ExpansionAgreesWithLookup(rowPtr, colIdx, k - 1, row, col);
      SpanRows(k - 1, colIdx, rowPtr[k - 1], rowPtr[k]);
      assert FindEntry(last, row, col).None?;
    }
  }

  /** The value lookup returns is the value of that first expanded entry,
      or zero when the expansion has none at (row, col). */
  lemma LookupIsFirstExpandedValue<V>(rowPtr: seq<int>, colIdx: seq<int>, values: seq<V>, zero: V, k: nat, row: nat, col: int)
    requires RowsInBounds(rowPtr, colIdx, k) && Monotone(rowPtr, k) && |values| == |colIdx|
    requires row < k
    ensures var f := FindEntry(CsrEntries(rowPtr, colIdx, k), row, col);
            (f.Some? ==> 0 <= f.value.slot < |values| && CsrValue(row, col, rowPtr, colIdx, values, zero) == values[f.value.slot])
            && (f.None? ==> CsrValue(row, col, rowPtr, colIdx, values, zero) == zero)
  {
    ExpansionAgreesWithLookup(rowPtr, colIdx, k, row, col);
  }

  // ---------------------------------------------------------------------
  // Builder buffer

  function Flatten(ts: seq<Triplet>): (words: seq<int>)
    ensures |words| == 3 * |ts|
  {
    if |ts| == 0 then [] else [ts[0].row, ts[0].col, ts[0].bits] + Flatten(ts[1..])
  }

  lemma {:induction false} FlattenIndex(ts: seq<Triplet>)
    ensures forall i :: 0 <= i < |ts| ==>
              Flatten(ts)[3 * i] == ts[i].row && Flatten(ts)[3 * i + 1] == ts[i].col && Flatten(ts)[3 * i + 2] == ts[i].bits
  {
    if |ts| > 0 {
      FlattenIndex(ts[1..]);
      forall i | 1 <= i < |ts|
        ensures Flatten(ts)[3 * i] == ts[i].row && Flatten(ts)[3 * i + 1] == ts[i].col && Flatten(ts)[3 * i + 2] == ts[i].bits
      {
        assert ts[1..][i - 1] == ts[i];
        assert Flatten(ts)[3 * i] == Flatten(ts[1..])[3 * (i - 1)];
      }
    }
  }

  /** What a kernel leaves in the buffer after appending the triplets `ts`:
      the count in slot 0, the triplets from slot 1 on, and whatever the
      buffer already held after them (`clear` zeroes only slot 0, so a
      reused buffer keeps the words of an earlier, longer fill). */
  function Write(data: seq<int>, ts: seq<Triplet>): (data': seq<int>)
    requires 1 + 3 * |ts| <= |data|
    ensures |data'| == |data|
    ensures data'[0] == |ts| && data'[1 + 3 * |ts|..] == data[1 + 3 * |ts|..]
  {
    [|ts|] + Flatten(ts) + data[1 + 3 * |ts|..]
  }

  /** Reading back what was written gives the same triplets, whatever
      the buffer held before. */
  lemma DecodeWrite(data: seq<int>, ts: seq<Triplet>)
    requires 1 + 3 * |ts| <= |data|
    ensures DecodeTriplets(Write(data, ts), |ts|) == ts
  {
    var data' := Write(data, ts);
    FlattenIndex(ts);
    forall i | 0 <= i < |ts|
      ensures data'[1 + 3 * i] == ts[i].row && data'[2 + 3 * i] == ts[i].col && data'[3 + 3 * i] == ts[i].bits
    {
      assert data'[1 + 3 * i] == Flatten(ts)[3 * i];
      assert data'[2 + 3 * i] == Flatten(ts)[3 * i + 1];
      assert data'[3 + 3 * i] == Flatten(ts)[3 * i + 2];
    }
  }

  /** Building from a buffer a kernel filled with the triplets `ts` yields
      a matrix of exactly those triplets, in order, whatever the buffer
      held before. */
  lemma BuildReadsWhatWasWritten(b: Builder, data: seq<int>, ts: seq<Triplet>)
    requires ValidBuilder(b) && !b.built
    requires |data| == BufferLength(b) && |ts| <= b.maxNumTriplets
    requires MakeSparseMatrix(b.rows, b.cols, b.dtype, b.storageFormat).Ok?
    ensures Build(b, Write(data, ts)).result.Ok?
    ensures Build(b, Write(data, ts)).result.value.0.triplets == ts
  {
    DecodeWrite(data, ts);
  }

  /** A buffer reused for a second, shorter fill still holds words of the
      first fill after the new count; the second build reads only the new
      triplets. */
  lemma ReusedBufferReadsOnlyNewTriplets(b: Builder, data: seq<int>, ts1: seq<Triplet>, ts2: seq<Triplet>)
    requires ValidBuilder(b) && !b.built
    requires |data| == BufferLength(b) && |ts1| <= b.maxNumTriplets && |ts2| <= b.maxNumTriplets
    requires MakeSparseMatrix(b.rows, b.cols, b.dtype, b.storageFormat).Ok?
    ensures var first := Build(b, Write(data, ts1));
            first.result.Ok? && first.result.value.0.triplets == ts1
            && |first.data| == |data|
            && var second := Build(first.builder, Write(first.data, ts2));
               second.result.Ok? && second.result.value.0.triplets == ts2
  {
    BuildReadsWhatWasWritten(b, data, ts1);
    var first := Build(b, Write(data, ts1));
    BuildReadsWhatWasWritten(first.builder, first.data, ts2);
  }

  /** `clear` at the end of a build empties the buffer for the next one:
      building again straight away succeeds with no triplets. */
  lemma RebuildAfterBuildIsEmpty(b: Builder, data: seq<int>)
    requires ValidBuilder(b)
    requires |data| == BufferLength(b)
    requires 0 <= data[0] <= b.maxNumTriplets
    requires Build(b, data).result.Ok?
    ensures var first := Build(b, data);
            var second := Build(first.builder, first.data);
            second.result.Ok? && second.result.value.0.triplets == []
  {
  }

  /** A builder over `i32` passes the constructor's size check but not the
      factory, and the failed build leaves it marked built: the next build
      reports the flag, not the data type. */
  lemma FailedBuildLocksBuilder(rows: int, cols: int, maxNumTriplets: nat, data: seq<int>)
    requires |data| == 3 * maxNumTriplets + 1 && data[0] == 0
    ensures NewBuilder(rows, cols, maxNumTriplets, I32, "col_major").Ok?
    ensures var b := NewBuilder(rows, cols, maxNumTriplets, I32, "col_major").value;
            var first := Build(b, data);
            first.result == Err(UnsupportedMatrix("i32", "col_major"))
            && Build(first.builder, first.data).result == Err(AlreadyBuilt)
  {
  }

  /** The factory's table: f32 and f64 in either storage order, nothing else. */
  lemma FactoryTable(rows: int, cols: int)
    ensures MakeSparseMatrix(rows, cols, F64, "row_major") == Ok(Matrix(rows, cols, F64, RowMajor, []))
    ensures MakeSparseMatrix(rows, cols, F32, "col_major") == Ok(Matrix(rows, cols, F32, ColMajor, []))
    ensures MakeSparseMatrix(rows, cols, F32, "csr") == Err(UnknownStorageFormat("csr"))
    ensures MakeSparseMatrix(rows, cols, I64, "row_major") == Err(UnsupportedMatrix("i64", "row_major"))
  {
  }
}
