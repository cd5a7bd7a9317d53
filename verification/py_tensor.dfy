/** The shape logic of the Python-backend tensor wrapper
    (`python/quadrants/lang/_py_tensor.py`): the batch shape set up by
    `create_tensor`/`_setup_views`, the `shape` property that prefers it,
    the `_T_tc` view that moves the last batch dimension to the front,
    index-key normalisation, `__getitem__` on 0-d tensors and the no-argument
    `transpose`.

    torch storage is abstracted: a view is its size plus a function from
    indices to elements, and whatever torch's own indexing does with a
    normalised key is outside the model.  The numpy views (`_np`, `_T_np`)
    mirror `_tc` and `_T_tc` and are not modelled separately. */
module PyTensors {
  import opened Results

  /** A tensor as seen through one view: its size and its elements. */
  datatype View<V> = View(size: seq<nat>, at: seq<nat> -> V)

  /** What `_setup_views` attaches, plus the view itself (`_tc` is the
      tensor itself).  `batchShape` is `None` for a tensor built directly. */
  datatype Tensor<V> = Tensor(tc: View<V>, tTc: View<V>, batchShape: Option<seq<nat>>)

  datatype TensorError = DimensionOutOfRange | AmbiguousTruthValue | TransposeNeeds2D

  /** Python's `size[:n]`, which stops at the end of the sequence. */
  function Take(size: seq<nat>, n: nat): (r: seq<nat>)
    ensures |r| == (if n <= |size| then n else |size|)
    ensures r <= size
  {
    if n <= |size| then size[..n] else size
  }

  /** The `shape` property: the batch shape when set, else the real size. */
  function Shape<V>(t: Tensor<V>): (s: seq<nat>)
    ensures t.batchShape.Some? ==> s == t.batchShape.value
    ensures t.batchShape.None? ==> s == t.tc.size
  {
    match t.batchShape
    case Some(b) => b
    case None => t.tc.size
  }

  /** Move entry `d` of an index (or size) to the front. */
  function MovedIndex(idx: seq<nat>, d: nat): (r: seq<nat>)
    requires d < |idx|
    ensures |r| == |idx| && r[0] == idx[d]
  {
    [idx[d]] + idx[..d] + idx[d + 1..]
  }

  /** Put the front entry back at position `d`: the inverse of `MovedIndex`. */
  function UnmovedIndex(idx: seq<nat>, d: nat): (r: seq<nat>)
    requires d < |idx|
    ensures |r| == |idx| && r[d] == idx[0]
  {
    idx[1..d + 1] + [idx[0]] + idx[d + 1..]
  }

  /** `tensor.movedim(d, 0)`: dimension `d` becomes the first one and the
      others keep their order; element `MovedIndex(i)` of the result is
      element `i` of the input. */
  function MoveToFront<V>(v: View<V>, d: nat): (r: View<V>)
    requires d < |v.size|
    ensures r.size == MovedIndex(v.size, d)
  {
    View(MovedIndex(v.size, d), idx => if |idx| > d then v.at(UnmovedIndex(idx, d)) else v.at(idx))
  }

  /** `_setup_views(tensor, batch_ndim)`: `_T_tc` moves dimension
      `batch_ndim - 1` to the front when there are at least two batch
      dimensions (torch refuses a dimension past the end), and the batch
      shape is the first `batch_ndim` entries of the size. */
  function SetupViews<V>(v: View<V>, batchNdim: nat): (r: Result<Tensor<V>, TensorError>)
    ensures r.Err? <==> 1 < batchNdim && |v.size| < batchNdim
    ensures r.Ok? ==> r.value.tc == v && r.value.batchShape == Some(Take(v.size, batchNdim))
    ensures r.Ok? && batchNdim <= 1 ==> r.value.tTc == v
    ensures r.Ok? && batchNdim > 1 ==> r.value.tTc == MoveToFront(v, batchNdim - 1)
  {
    if batchNdim > 1 then
      if batchNdim - 1 < |v.size| then Ok(Tensor(v, MoveToFront(v, batchNdim - 1), Some(Take(v.size, batchNdim))))
      else Err(DimensionOutOfRange)
    else Ok(Tensor(v, v, Some(Take(v.size, batchNdim))))
  }

  /** `create_tensor(shape, dtype, batch_ndim)`: a zero tensor of the given
      size; an omitted `batch_ndim` makes every dimension a batch one. */
  function CreateTensor<V>(shape: seq<nat>, batchNdim: Option<nat>, zero: V): (r: Result<Tensor<V>, TensorError>)
    ensures batchNdim.None? ==> r.Ok? && Shape(r.value) == shape
    ensures r.Ok? ==> r.value.tc.size == shape
  {
    var b := if batchNdim.Some? then batchNdim.value else |shape|;
    SetupViews(View(shape, _ => zero), b)
  }

  // ---------------------------------------------------------------------
  // Index keys

  /** An indexing key.  A tensor key records whether it is a
      `MyTorchTensor`, its size, and its elements in row-major order. A
      Python bool is an `IntKey` (`False` is 0); `OtherKey` is a slice,
      `None` or `Ellipsis`, none of which equals 0. Float keys are not
      modelled. */
  datatype Key =
    | IntKey(i: int)
    | TensorKey(mine: bool, size: seq<nat>, elems: seq<int>)
    | ListKey(items: seq<Key>)
    | TupleKey(items: seq<Key>)
    | OtherKey

  function Product(s: seq<nat>): nat
  {
    if |s| == 0 then 1 else s[0] * Product(s[1..])
  }

  predicate WellFormedTensor(k: Key)
  {
    k.TensorKey? ==> |k.elems| == Product(k.size)
  }

  /** Tensor keys, at the top and directly inside a tuple or list, hold as
      many elements as their size says. */
  predicate WellFormedKey(k: Key)
  {
    WellFormedTensor(k)
    && ((k.TupleKey? || k.ListKey?) ==> forall i :: 0 <= i < |k.items| ==> WellFormedTensor(k.items[i]))
  }

  predicate IsZeroDim(k: Key)
  {
    k.TensorKey? && |k.size| == 0
  }

  /** A 0-d tensor inside a tuple becomes the int it holds. */
  function IntOfScalar(k: Key): (r: Key)
    requires WellFormedTensor(k)
    ensures !IsZeroDim(r)
    ensures !IsZeroDim(k) ==> r == k
    ensures IsZeroDim(k) ==> r == IntKey(k.elems[0])
  {
    if IsZeroDim(k) then IntKey(k.elems[0]) else k
  }

  /** `_unpack_key`. */
  function UnpackKey(k: Key): (r: Key)
    requires WellFormedKey(k)
    ensures WellFormedTensor(r)
    ensures k.TensorKey? && k.mine && |k.size| == 1 ==>
              r.TupleKey? && |r.items| == k.size[0] == |k.elems|
              && forall i :: 0 <= i < |r.items| ==> r.items[i] == IntKey(k.elems[i])
    ensures k.ListKey? && |k.items| == 1 ==> r == k.items[0]
    ensures k.TupleKey? ==> r.TupleKey? && |r.items| == |k.items|
    ensures k.TupleKey? ==> forall i :: 0 <= i < |r.items| ==> !IsZeroDim(r.items[i])
    ensures k.TupleKey? ==> forall i :: 0 <= i < |r.items| ==> !IsZeroDim(k.items[i]) ==> r.items[i] == k.items[i]
    ensures k.TupleKey? ==> forall i :: 0 <= i < |k.items| && IsZeroDim(k.items[i]) ==>
              r.items[i] == IntKey(k.items[i].elems[0])
    ensures k.TupleKey? && (forall i :: 0 <= i < |k.items| ==> !k.items[i].TensorKey?) ==> r == k
    ensures (k.TensorKey? && !(k.mine && |k.size| == 1)) || (k.ListKey? && |k.items| != 1) ==> r == k
    ensures k.IntKey? || k.OtherKey? ==> r == k
  {
    match k
    case TensorKey(mine, size, elems) =>
      if mine && |size| == 1 then
        assert Product(size) == size[0];
        TupleKey(seq(size[0], i requires 0 <= i < size[0] => IntKey(elems[i])))
      else k
    case ListKey(items) =>
      if |items| == 1 then items[0] else k
    case TupleKey(items) =>
      if exists i :: 0 <= i < |items| && items[i].TensorKey? then
        TupleKey(seq(|items|, i requires 0 <= i < |items| => IntOfScalar(items[i])))
      else
        assert forall i :: 0 <= i < |items| ==> !IsZeroDim(items[i]);
        k
    case _ => k
  }

  /** Python's `key == 0` in a boolean context: a tensor compares
      element-wise and only a one-element result has a truth value. */
  function EqualsZero(k: Key): (r: Result<bool, TensorError>)
    requires WellFormedTensor(k)
    ensures r.Err? <==> k.TensorKey? && |k.elems| != 1
    ensures r.Ok? && r.value ==> k.IntKey? || k.TensorKey?
  {
    match k
    case IntKey(i) => Ok(i == 0)
    case TensorKey(_, _, elems) => if |elems| == 1 then Ok(elems[0] == 0) else Err(AmbiguousTruthValue)
    case _ => Ok(false)
  }

  /** The outcome of `__getitem__`: the tensor's only element, or torch's
      own indexing applied with the normalised key. */
  datatype Item<V> = Scalar(value: V) | TorchIndex(key: Key)

  /** `__getitem__`: normalise the key; a non-tuple key equal to 0 on a 0-d
      tensor returns its element. */
  function GetItem<V>(t: Tensor<V>, k: Key): (r: Result<Item<V>, TensorError>)
    requires WellFormedKey(k)
    ensures r.Ok? && r.value.Scalar? ==> t.tc.size == [] && r.value.value == t.tc.at([])
    ensures t.tc.size == [] && UnpackKey(k) == IntKey(0) ==> r == Ok(Scalar(t.tc.at([])))
    ensures UnpackKey(k).TupleKey? ==> r == Ok(TorchIndex(UnpackKey(k)))
    ensures r.Ok? && r.value.TorchIndex? ==> r.value.key == UnpackKey(k)
    ensures r.Ok? ==> (r.value.Scalar? <==>
              t.tc.size == [] && !UnpackKey(k).TupleKey? && EqualsZero(UnpackKey(k)) == Ok(true))
    ensures r.Err? <==> !UnpackKey(k).TupleKey? && EqualsZero(UnpackKey(k)).Err?
    ensures r.Err? ==> r.error == AmbiguousTruthValue
  {
    var key := UnpackKey(k);
    if key.TupleKey? then Ok(TorchIndex(key))
    else
      var zero :- EqualsZero(key);
      if zero && t.tc.size == [] then Ok(Scalar(t.tc.at([]))) else Ok(TorchIndex(key))
  }

  // ---------------------------------------------------------------------
  // Transpose

  function Swap01(idx: seq<nat>): (r: seq<nat>)
    requires |idx| == 2
    ensures |r| == 2 && r[0] == idx[1] && r[1] == idx[0]
  {
    [idx[1], idx[0]]
  }

  /** `transpose()` with no arguments: only a 2-D tensor, whose two
      dimensions are swapped. */
  function Transpose<V>(v: View<V>): (r: Result<View<V>, TensorError>)
    ensures r.Ok? <==> |v.size| == 2
    ensures r.Ok? ==> r.value.size == Swap01(v.size)
    ensures r.Ok? ==> forall idx :: |idx| == 2 ==> r.value.at(idx) == v.at(Swap01(idx))
  {
    if |v.size| != 2 then Err(TransposeNeeds2D)
    else Ok(View(Swap01(v.size), idx => if |idx| == 2 then v.at(Swap01(idx)) else v.at(idx)))
  }
}

/** Properties of the tensor wrapper: the batch-shape cases of the tests,
    `_T_tc` as an index permutation with an inverse, the no-argument
    transpose as an involution, and the key normalisation cases. */
module PyTensorProperties {
  import opened Results
  import opened PyTensors

  /** `MovedIndex` and `UnmovedIndex` undo each other. */
  lemma MovedIndexRoundTrip(idx: seq<nat>, d: nat)
    requires d < |idx|
    ensures UnmovedIndex(MovedIndex(idx, d), d) == idx
    ensures MovedIndex(UnmovedIndex(idx, d), d) == idx
  {
    var m := MovedIndex(idx, d);
    assert m[1..d + 1] == idx[..d];
    assert m[d + 1..] == idx[d + 1..];
    assert idx[..d] + [idx[d]] + idx[d + 1..] == idx;
    var u := UnmovedIndex(idx, d);
    assert u[..d] == idx[1..d + 1];
    assert u[d + 1..] == idx[d + 1..];
    assert [idx[0]] + idx[1..d + 1] + idx[d + 1..] == idx;
  }

  /** Element `i` of a tensor is element `MovedIndex(i)` of its `movedim`
      view: the view only renames positions. */
  lemma MoveToFrontKeepsElements<V>(v: View<V>, d: nat, idx: seq<nat>)
    requires d < |v.size| && d < |idx|
    ensures MoveToFront(v, d).at(MovedIndex(idx, d)) == v.at(idx)
  {
    MovedIndexRoundTrip(idx, d);
  }

  /** Without `batch_ndim`, every dimension is a batch one: the shape is the
      size. */
  lemma DefaultBatchIsWholeShape<V>(shape: seq<nat>, zero: V)
    ensures CreateTensor(shape, None, zero).Ok?
    ensures Shape(CreateTensor(shape, None, zero).value) == shape
    ensures CreateTensor(shape, None, zero).value.batchShape == Some(shape)
  {
  }

  /** With `batch_ndim = b` (at most the rank), the shape is the first `b`
      entries of the size and the size itself is unchanged. */
  lemma BatchShapeIsPrefix<V>(shape: seq<nat>, b: nat, zero: V)
    requires b <= |shape|
    ensures CreateTensor(shape, Some(b), zero).Ok?
    ensures Shape(CreateTensor(shape, Some(b), zero).value) == shape[..b]
    ensures CreateTensor(shape, Some(b), zero).value.tc.size == shape
  {
  }

  /** A vec3 field over (10, 4): size (10, 4, 3), shape (10, 4), and
      `_T_tc` has size (4, 10, 3) with element (1, 2, k) being element
      (2, 1, k) of the tensor. */
  lemma Vec3OverTwoBatchDims<V>(zero: V, k: nat)
    ensures var r := CreateTensor([10, 4, 3], Some(2), zero);
            r.Ok? && Shape(r.value) == [10, 4] && r.value.tTc.size == [4, 10, 3]
            && r.value.tTc.at([1, 2, k]) == r.value.tc.at([2, 1, k])
  {
    var v := View([10, 4, 3], _ => zero);
    assert MovedIndex([10, 4, 3], 1) == [4, 10, 3];
    assert [10, 4, 3][..2] == [10, 4];
    MoveToFrontKeepsElements(v, 1, [2, 1, k]);
    assert MovedIndex([2, 1, k], 1) == [1, 2, k];
  }

  /** With a single batch dimension `_T_tc` is the tensor itself. */
  lemma OneBatchDimNoMove<V>(shape: seq<nat>, zero: V)
    ensures CreateTensor(shape, Some(1), zero).Ok?
    ensures CreateTensor(shape, Some(1), zero).value.tTc == CreateTensor(shape, Some(1), zero).value.tc
  {
  }

  /** Asking for more batch dimensions than the tensor has fails in
      `movedim`. */
  lemma TooManyBatchDims<V>(shape: seq<nat>, b: nat, zero: V)
    requires b > 1 && b > |shape|
    ensures CreateTensor(shape, Some(b), zero) == Err(DimensionOutOfRange)
  {
  }

  /** `batch_ndim = 0` sets an empty batch shape, so `shape` is empty even
      for a non-empty tensor. */
  lemma ZeroBatchDimsEmptyShape<V>(shape: seq<nat>, zero: V)
    ensures CreateTensor(shape, Some(0), zero).Ok?
    ensures Shape(CreateTensor(shape, Some(0), zero).value) == []
  {
  }

  /** Transposing twice gives back every element and the size. */
  lemma TransposeInvolution<V>(v: View<V>, idx: seq<nat>)
    requires |v.size| == 2 && |idx| == 2
    ensures Transpose(Transpose(v).value).Ok?
    ensures Transpose(Transpose(v).value).value.size == v.size
    ensures Transpose(Transpose(v).value).value.at(idx) == v.at(idx)
  {
    assert Swap01(Swap01(idx)) == idx;
    assert Swap01(Swap01(v.size)) == v.size;
  }

  function Matrix2x3(idx: seq<nat>): int
  {
    if |idx| == 2 && idx[0] < 2 && idx[1] < 3 then [[1, 2, 3], [4, 5, 6]][idx[0]][idx[1]] else 0
  }

  /** `MyTorchTensor([[1, 2, 3], [4, 5, 6]]).transpose()` has size (3, 2)
      and entries (0, 0) = 1, (0, 1) = 4, (2, 1) = 6. */
  lemma TransposeTwoByThree()
    ensures var r := Transpose(View([2, 3], Matrix2x3));
            r.Ok? && r.value.size == [3, 2]
            && r.value.at([0, 0]) == 1 && r.value.at([0, 1]) == 4 && r.value.at([2, 1]) == 6
  {
    var r := Transpose(View([2, 3], Matrix2x3));
    assert Swap01([0, 1]) == [1, 0];
    assert Swap01([2, 1]) == [1, 2];
    assert Swap01([0, 0]) == [0, 0];
  }

  /** A one-element list indexes a 0-d tensor like its element does. */
  lemma ZeroDimIndexedByZero<V>(t: Tensor<V>)
    requires t.tc.size == []
    ensures GetItem(t, IntKey(0)) == Ok(Scalar(t.tc.at([])))
    ensures GetItem(t, ListKey([IntKey(0)])) == Ok(Scalar(t.tc.at([])))
  {
  }

  /** A 1-D `MyTorchTensor` key becomes a tuple of ints, which goes to
      torch's indexing even on a 0-d tensor. */
  lemma TensorKeyBecomesTuple<V>(t: Tensor<V>, i: int)
    ensures UnpackKey(TensorKey(true, [1], [i])) == TupleKey([IntKey(i)])
    ensures GetItem(t, TensorKey(true, [1], [i])) == Ok(TorchIndex(TupleKey([IntKey(i)])))
  {
    assert UnpackKey(TensorKey(true, [1], [i])).items == [IntKey(i)];
  }

  /** A plain torch 1-D key is left alone; with more than one element its
      comparison with 0 has no truth value. */
  lemma PlainTensorKeyAmbiguous<V>(t: Tensor<V>)
    ensures UnpackKey(TensorKey(false, [2], [0, 0])) == TensorKey(false, [2], [0, 0])
    ensures GetItem(t, TensorKey(false, [2], [0, 0])) == Err(AmbiguousTruthValue)
  {
  }

  /** Inside a tuple, 0-d tensors become ints and everything else stays. */
  lemma TupleScalarsBecomeInts(a: int, b: int)
    ensures UnpackKey(TupleKey([TensorKey(false, [], [a]), IntKey(b), OtherKey]))
            == TupleKey([IntKey(a), IntKey(b), OtherKey])
  {
    var items := [TensorKey(false, [], [a]), IntKey(b), OtherKey];
    assert items[0].TensorKey?;
    var r := UnpackKey(TupleKey(items));
    assert r.items == [IntKey(a), IntKey(b), OtherKey];
  }

  /** A tuple without tensors is returned unchanged. */
  lemma TupleWithoutTensorsUnchanged(items: seq<Key>)
    requires forall i :: 0 <= i < |items| ==> !items[i].TensorKey?
    ensures UnpackKey(TupleKey(items)) == TupleKey(items)
  {
  }

  /** Normalisation is not idempotent: a nested one-element list loses one
      level per call. */
  lemma UnpackPeelsOneListLevel(i: int)
    ensures UnpackKey(ListKey([ListKey([IntKey(i)])])) == ListKey([IntKey(i)])
    ensures UnpackKey(UnpackKey(ListKey([ListKey([IntKey(i)])]))) == IntKey(i)
  {
  }
}
