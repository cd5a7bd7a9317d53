/** Sparse matrix construction (`quadrants/program/sparse_matrix.cpp`):
    element lookup in compressed sparse row (CSR) storage, the expansion of
    CSR storage into (row, column) triplets, the triplet builder with its
    buffer layout and built flag, and the (data type, storage format)
    factory.  Numeric values stay opaque: a triplet carries the raw word
    its value was read from, and a CSR entry carries the index of its value. */
module SparseMatrices {
  import opened Results
  import opened DataTypes

  datatype StorageOrder = ColMajor | RowMajor

  datatype SparseError =
    | ElementSizeNot4Or8
    | UnknownStorageFormat(format: string)
    | UnsupportedMatrix(dtype: string, format: string)
    | AlreadyBuilt

  // ---------------------------------------------------------------------
  // CSR lookup

  /** The reads of row `[lo, hi)` stay inside the column array (an empty
      or reversed range reads nothing). */
  predicate RangeInBounds(colIdx: seq<int>, lo: int, hi: int)
  {
    lo >= hi || (0 <= lo && hi <= |colIdx|)
  }

  /** The first position in `[lo, hi)` holding column `col`. */
  function FirstMatch(colIdx: seq<int>, col: int, lo: int, hi: int): (r: Option<int>)
    requires RangeInBounds(colIdx, lo, hi)
    ensures r.Some? ==> lo <= r.value < hi && colIdx[r.value] == col
    ensures r.Some? ==> forall j :: lo <= j < r.value ==> colIdx[j] != col
    ensures r.None? ==> forall j :: lo <= j < hi ==> colIdx[j] != col
    decreases hi - lo
  {
    if lo >= hi then None
    else if colIdx[lo] == col then Some(lo)
    else FirstMatch(colIdx, col, lo + 1, hi)
  }

  /** The value CSR storage holds at (row, col): the value of the first
      entry of the row with that column, or zero. */
  function CsrValue<V>(row: int, col: int, rowPtr: seq<int>, colIdx: seq<int>, values: seq<V>, zero: V): V
    requires 0 <= row && row + 1 < |rowPtr| && |values| == |colIdx|
    requires RangeInBounds(colIdx, rowPtr[row], rowPtr[row + 1])
  {
    match FirstMatch(colIdx, col, rowPtr[row], rowPtr[row + 1])
    case Some(i) => values[i]
    case None => zero
  }

  /** `get_element_from_csr`: scan the row's entries, return the first
      value stored under `col`, else zero. */
  method GetElementFromCsr<V>(row: int, col: int, rowPtr: seq<int>, colIdx: seq<int>, values: seq<V>, zero: V)
    returns (v: V)
    requires 0 <= row && row + 1 < |rowPtr| && |values| == |colIdx|
    requires RangeInBounds(colIdx, rowPtr[row], rowPtr[row + 1])
    ensures v == CsrValue(row, col, rowPtr, colIdx, values, zero)
  {
    var lo := rowPtr[row];
    var hi := rowPtr[row + 1];
    var i := lo;
    while i < hi
      invariant lo <= i && (lo < hi ==> i <= hi)
      invariant RangeInBounds(colIdx, i, hi)
      invariant FirstMatch(colIdx, col, lo, hi) == FirstMatch(colIdx, col, i, hi)
      decreases hi - i
    {
      if col == colIdx[i] {
        return values[i];
      }
      i := i + 1;
    }
    return zero;
  }

  // ---------------------------------------------------------------------
  // CSR expansion

  /** An expanded entry: its row, its column and the index of its value. */
  datatype Entry = Entry(row: int, col: int, slot: int)

  /** Every row's reads stay inside the column array. */
  predicate RowsInBounds(rowPtr: seq<int>, colIdx: seq<int>, nRows: nat)
  {
    nRows < |rowPtr| && forall i :: 0 <= i < nRows ==> RangeInBounds(colIdx, rowPtr[i], rowPtr[i + 1])
  }

  /** The entries stored at positions `[lo, hi)`, all in row `i`: the inner
      loop of the expansion. */
  function Span(i: int, colIdx: seq<int>, lo: int, hi: int): seq<Entry>
    requires RangeInBounds(colIdx, lo, hi)
    decreases hi - lo
  {
    if lo >= hi then [] else [Entry(i, colIdx[lo], lo)] + Span(i, colIdx, lo + 1, hi)
  }

  /** The entries of row `i`, in storage order. */
  function RowEntries(rowPtr: seq<int>, colIdx: seq<int>, i: nat): seq<Entry>
    requires i + 1 < |rowPtr| && RangeInBounds(colIdx, rowPtr[i], rowPtr[i + 1])
  {
    Span(i, colIdx, rowPtr[i], rowPtr[i + 1])
  }

  /** The expansion loop of `print_triplets_from_csr`: rows 0 .. k-1, each
      contributing `row[i+1] - row[i]` entries in order. */
  function CsrEntries(rowPtr: seq<int>, colIdx: seq<int>, k: nat): seq<Entry>
    requires RowsInBounds(rowPtr, colIdx, k)
  {
    if k == 0 then [] else CsrEntries(rowPtr, colIdx, k - 1) + RowEntries(rowPtr, colIdx, k - 1)
  }

  // ---------------------------------------------------------------------
  // Factory

  /** `format_map`: the storage format names the factory understands. */
  function StorageOrderOf(format: string): Option<StorageOrder>
  {
    if format == "col_major" then Some(ColMajor)
    else if format == "row_major" then Some(RowMajor)
    else None
  }

  /** A matrix as the model sees it: its dimensions, element type, storage
      order and the triplets it was built from. */
  datatype Matrix = Matrix(rows: int, cols: int, dtype: PrimitiveType, order: StorageOrder, triplets: seq<Triplet>)

  /** A triplet read from the builder's buffer; `bits` is the raw word the
      value is reinterpreted from. */
  datatype Triplet = Triplet(row: int, col: int, bits: int)

  /** `make_sparse_matrix`: an unknown storage format fails the format
      lookup; otherwise the (type name, order) pair must be one of the four
      registered ones. */
  function MakeSparseMatrix(rows: int, cols: int, dt: PrimitiveType, format: string): (r: Result<Matrix, SparseError>)
    ensures r.Ok? <==> dt in {F32, F64} && format in {"col_major", "row_major"}
    ensures StorageOrderOf(format).None? ==> r == Err(UnknownStorageFormat(format))
    ensures r.Ok? ==> r.value == Matrix(rows, cols, dt, StorageOrderOf(format).value, [])
  {
    match StorageOrderOf(format)
    case None => Err(UnknownStorageFormat(format))
    case Some(order) =>
      var name := Name(dt);
      if name == "f32" || name == "f64" then
        NameIdentifies(dt, F32);
        NameIdentifies(dt, F64);
        Ok(Matrix(rows, cols, dt, order, []))
      else Err(UnsupportedMatrix(name, format))
  }

  // ---------------------------------------------------------------------
  // Builder

  /** `SparseMatrixBuilder`'s state, without the buffer (which the model
      passes alongside, since kernels write it). */
  datatype Builder = Builder(
    rows: int,
    cols: int,
    maxNumTriplets: nat,
    dtype: PrimitiveType,
    storageFormat: string,
    built: bool,
    numTriplets: nat)

  /** The constructor: the element type must be 4 or 8 bytes wide. */
  function NewBuilder(rows: int, cols: int, maxNumTriplets: nat, dtype: PrimitiveType, format: string): (r: Result<Builder, SparseError>)
    ensures r.Ok? <==> Size(dtype) == 4 || Size(dtype) == 8
    ensures r.Err? ==> r.error == ElementSizeNot4Or8
    ensures r.Ok? ==> !r.value.built && r.value.numTriplets == 0
    ensures r.Ok? ==> r.value.maxNumTriplets == maxNumTriplets && r.value.dtype == dtype
                      && r.value.storageFormat == format && r.value.rows == rows && r.value.cols == cols
  {
    var size := Size(dtype);
    if size == 4 || size == 8 then Ok(Builder(rows, cols, maxNumTriplets, dtype, format, false, 0))
    else Err(ElementSizeNot4Or8)
  }

  /** The builder's standing invariant, established by the constructor. */
  predicate ValidBuilder(b: Builder)
  {
    Size(b.dtype) == 4 || Size(b.dtype) == 8
  }

  /** `create_ndarray`: the buffer's length in elements, one count slot
      followed by room for `maxNumTriplets` triplets. */
  function BufferLength(b: Builder): nat
  {
    3 * b.maxNumTriplets + 1
  }

  /** The word width `build` reads the buffer with. */
  datatype Layout = Int32Words | Int64Words

  /** Triplet i sits in slots 1+3i, 2+3i and 3+3i. */
  function DecodeTriplets(data: seq<int>, count: nat): (ts: seq<Triplet>)
    requires 1 + 3 * count <= |data|
    ensures |ts| == count
  {
    seq(count, i requires 0 <= i < count => Triplet(data[1 + 3 * i], data[2 + 3 * i], data[3 + 3 * i]))
  }

  /** `clear`: reset the built flag and the count, and zero the count slot. */
  function Clear(b: Builder, data: seq<int>): (r: (Builder, seq<int>))
    requires |data| > 0
    ensures !r.0.built && r.0.numTriplets == 0
    ensures |r.1| == |data| && r.1[0] == 0 && r.1[1..] == data[1..]
    ensures r.0 == b.(built := false, numTriplets := 0)
  {
    var d := data[0 := 0];
    assert d[1..] == data[1..];
    (b.(built := false, numTriplets := 0), d)
  }

  /** What a call to `build` leaves behind: the builder, the buffer and
      either the matrix (with the word layout it was read with) or an error. */
  datatype BuildOutcome = BuildOutcome(builder: Builder, data: seq<int>, result: Result<(Matrix, Layout), SparseError>)

  /** `build`: refuse a builder already marked built, mark it built, make
      the matrix, read the count and the triplets with the word width of the
      element type, then `clear`.  A failure after the flag is set leaves
      the builder marked built. */
  function Build(b: Builder, data: seq<int>): (r: BuildOutcome)
    requires ValidBuilder(b)
    requires |data| == BufferLength(b)
    requires 0 <= data[0] <= b.maxNumTriplets
    ensures b.built ==> r == BuildOutcome(b, data, Err(AlreadyBuilt))
    ensures r.result.Ok? ==> !b.built && !r.builder.built && r.builder.numTriplets == 0
    ensures r.result.Ok? ==> |r.data| == |data| && r.data[0] == 0 && r.data[1..] == data[1..]
    ensures r.result.Ok? ==> |r.result.value.0.triplets| == data[0]
    ensures r.result.Ok? ==> forall i :: 0 <= i < data[0] ==>
              r.result.value.0.triplets[i] == Triplet(data[1 + 3 * i], data[2 + 3 * i], data[3 + 3 * i])
    ensures r.result.Ok? ==> (r.result.value.1 == Int32Words <==> Size(b.dtype) == 4)
    ensures r.result.Err? ==> r.builder.built && r.data == data
    ensures r.result.Ok? <==> !b.built && MakeSparseMatrix(b.rows, b.cols, b.dtype, b.storageFormat).Ok?
  {
    if b.built then BuildOutcome(b, data, Err(AlreadyBuilt))
    else
      var marked := b.(built := true);
      match MakeSparseMatrix(b.rows, b.cols, b.dtype, b.storageFormat)
      case Err(e) => BuildOutcome(marked, data, Err(e))
      case Ok(m) =>
        var layout := if Size(b.dtype) == 4 then Int32Words else Int64Words;
        var count := data[0];
        var read := marked.(numTriplets := count);
        var triplets := DecodeTriplets(data, count);
        var (cleared, data') := Clear(read, data);
        BuildOutcome(cleared, data', Ok((m.(triplets := triplets), layout)))
  }
}
