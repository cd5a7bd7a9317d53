/** The integer and sequence logic of the DLPack exporters
    (`quadrants/python/dlpack_funcs.cpp`): which backends may export, the
    torch version check and its one-time cache, the element type table, the
    axis-ordering rule over the dense SNode path, shape and stride assembly,
    and the choice between a byte offset and a shifted data pointer.

    Raw pointers and device types come from `get_raw_ptr`, which is outside
    the model: they are inputs here.  Shapes and strides are unbounded
    integers (the source stores them as `int64_t`). */
module DLPack {
  import opened Results
  import opened DataTypes

  datatype Arch = X64 | Arm64 | Cuda | Metal | Amdgpu | Vulkan | OpenGl | Gles

  datatype DLPackError =
    | UnsupportedArch
    | NotAllDense
    | NotAllocated
    | MetalFieldNeedsNewerTorch
    | NonPrimitiveType
    | UnsupportedDataType
    | AxesNotInOrder

  // ---------------------------------------------------------------------
  // Backends

  predicate IsCpu(a: Arch)
  {
    a == X64 || a == Arm64
  }

  /** `validate_arch`: only CPU, CUDA, Metal and AMDGPU backends export. */
  function ValidateArch(a: Arch): (r: Result<(), DLPackError>)
    ensures r.Ok? <==> a in {X64, Arm64, Cuda, Metal, Amdgpu}
    ensures r.Err? ==> r.error == UnsupportedArch
  {
    if !IsCpu(a) && a != Cuda && a != Metal && a != Amdgpu then Err(UnsupportedArch) else Ok(())
  }

  // ---------------------------------------------------------------------
  // Torch version

  datatype Version = Version(major: int, minor: int, patch: int)

  /** `check_torch_version_lte`: is `v` at most (major, minor, patch)? */
  function VersionLte(v: Version, major: int, minor: int, patch: int): (r: bool)
    ensures r <==> (v.major, v.minor, v.patch) == (major, minor, patch) || VersionLt(v, Version(major, minor, patch))
  {
    if v.major < major then true
    else if v.major > major then false
    else if v.minor < minor then true
    else if v.minor > minor then false
    else v.patch <= patch
  }

  /** Strict lexicographic order on versions, the reference `VersionLte` is
      proved against. */
  predicate VersionLt(a: Version, b: Version)
  {
    a.major < b.major
    || (a.major == b.major && a.minor < b.minor)
    || (a.major == b.major && a.minor == b.minor && a.patch < b.patch)
  }

  predicate IsSpace(c: char)
  {
    c == ' ' || c == '\t' || c == '\n' || c == '\r' || c == 11 as char || c == 12 as char
  }

  predicate IsDigit(c: char)
  {
    '0' <= c <= '9'
  }

  predicate AllDigits(s: string)
  {
    forall i :: 0 <= i < |s| ==> IsDigit(s[i])
  }

  function DigitValue(c: char): nat
    requires IsDigit(c)
  {
    c as int - '0' as int
  }

  /** Value of a decimal digit string, most significant digit first. */
  function DigitsValue(ds: string): nat
    requires AllDigits(ds)
  {
    if |ds| == 0 then 0 else DigitsValue(ds[..|ds| - 1]) * 10 + DigitValue(ds[|ds| - 1])
  }

  /** Length of the run of decimal digits at the front of `s`. */
  function LeadingDigits(s: string): (n: nat)
    ensures n <= |s|
    ensures AllDigits(s[..n])
    ensures n < |s| ==> !IsDigit(s[n])
  {
    if |s| > 0 && IsDigit(s[0]) then
      var k := LeadingDigits(s[1..]);
      assert s[..1 + k] == [s[0]] + s[1..][..k];
      1 + k
    else 0
  }

  function SkipSpaces(s: string): (t: string)
    ensures |t| <= |s|
    ensures |t| > 0 ==> !IsSpace(t[0])
  {
    if |s| > 0 && IsSpace(s[0]) then SkipSpaces(s[1..]) else s
  }

  /** One `%d` conversion of `sscanf`: optional white space, an optional
      sign and at least one digit.  `None` is a matching failure, after
      which `sscanf` assigns nothing more. */
  function ScanInt(s: string): (r: Option<(int, string)>)
    ensures r.Some? ==> |r.value.1| < |s|
  {
    var t := SkipSpaces(s);
    var neg := |t| > 0 && t[0] == '-';
    var u := if |t| > 0 && (t[0] == '-' || t[0] == '+') then t[1..] else t;
    var k := LeadingDigits(u);
    if k == 0 then None
    else
      var v: int := DigitsValue(u[..k]);
      Some((if neg then -v else v, u[k..]))
  }

  /** The literal `.` of the format must be the next character. */
  function ScanDot(s: string): Option<string>
  {
    if |s| > 0 && s[0] == '.' then Some(s[1..]) else None
  }

  /** `sscanf(version, "%d.%d.%d", ...)` with every field defaulting to 0:
      fields after the first failed conversion keep their default. */
  function ScanVersion(s: string): Version
  {
    match ScanInt(s)
    case None => Version(0, 0, 0)
    case Some((a, rest)) => ScanMinor(a, rest)
  }

  /** The rest of the scan once the major number `a` has been read. */
  function ScanMinor(a: int, s: string): Version
  {
    match ScanDot(s)
    case None => Version(a, 0, 0)
    case Some(t) =>
      match ScanInt(t)
      case None => Version(a, 0, 0)
      case Some((b, rest)) => ScanPatch(a, b, rest)
  }

  /** The rest of the scan once major `a` and minor `b` have been read. */
  function ScanPatch(a: int, b: int, s: string): Version
  {
    match ScanDot(s)
    case None => Version(a, b, 0)
    case Some(t) =>
      match ScanInt(t)
      case None => Version(a, b, 0)
      case Some((c, _)) => Version(a, b, c)
  }

  function DigitChar(d: nat): (c: char)
    requires d < 10
    ensures IsDigit(c) && DigitValue(c) == d
  {
    ('0' as int + d) as char
  }

  /** Decimal spelling of a natural number, no leading zeros. */
  function Decimal(n: nat): (s: string)
    ensures |s| >= 1 && AllDigits(s)
  {
    if n < 10 then [DigitChar(n)] else Decimal(n / 10) + [DigitChar(n % 10)]
  }

  // ---------------------------------------------------------------------
  // Byte offset support, computed once

  /** The two function-local statics of `torch_supports_byte_offset`. */
  datatype ByteOffsetCache = Unchecked | Checked(supports: bool)

  /** `torch_supports_byte_offset`: the first call reads the torch version
      and caches whether it is newer than 2.9.1; every later call returns
      the cached answer, whatever the installed version says. */
  function TorchSupportsByteOffset(cache: ByteOffsetCache, torchVersion: string): (r: (bool, ByteOffsetCache))
    ensures r.1 == Checked(r.0)
    ensures cache.Checked? ==> r.0 == cache.supports
    ensures cache.Unchecked? ==> (r.0 <==> VersionLt(Version(2, 9, 1), ScanVersion(torchVersion)))
  {
    match cache
    case Checked(b) => (b, cache)
    case Unchecked =>
      var b := !VersionLte(ScanVersion(torchVersion), 2, 9, 1);
      (b, Checked(b))
  }

  // ---------------------------------------------------------------------
  // Element types

  /** DLPack's `DLDataTypeCode`. */
  datatype TypeCode = DLInt | DLUInt | DLFloat | DLBool

  /** The numeric value of each code in DLPack's `dlpack.h`. */
  function CodeValue(c: TypeCode): nat
  {
    match c
    case DLInt => 0
    case DLUInt => 1
    case DLFloat => 2
    case DLBool => 6
  }

  /** `get_type_info`: the (code, bits) pair DLPack uses for an element type. */
  function TypeInfo(dt: DataType): (r: Result<(TypeCode, nat), DLPackError>)
    ensures dt.NonPrimitive? ==> r == Err(NonPrimitiveType)
    ensures dt.Primitive? ==> (r.Ok? <==> dt.prim in {I32, I64, F32, F64, U1})
    ensures dt.Primitive? && r.Err? ==> r.error == UnsupportedDataType
    ensures r.Ok? ==> r.value.1 == 8 * Size(dt.prim)
    ensures r.Ok? ==> (r.value.0 == DLFloat <==> IsFloat(dt.prim))
    ensures r.Ok? ==> (r.value.0 == DLBool <==> dt.prim == U1)
    ensures r.Ok? ==> r.value.0 != DLUInt
  {
    match dt
    case NonPrimitive => Err(NonPrimitiveType)
    case Primitive(p) =>
      match p
      case I32 => Ok((DLInt, 32))
      case I64 => Ok((DLInt, 64))
      case F32 => Ok((DLFloat, 32))
      case F64 => Ok((DLFloat, 64))
      case U1 => Ok((DLBool, 8))
      case _ => Err(UnsupportedDataType)
  }

  // ---------------------------------------------------------------------
  // Axis ordering

  datatype SNodeType = Root | Dense | Place | Other

  /** An SNode as the axis check sees it: its type and which physical axes
      its extractors have active. */
  datatype SNode = SNode(kind: SNodeType, active: seq<bool>)

  function Iota(n: nat): seq<int>
  {
    seq(n, i => i)
  }

  predicate ActiveIn(ext: seq<bool>, a: int)
  {
    0 <= a < |ext| && ext[a]
  }

  /** Axes below `upTo`, in index order, active in `node` but not in its
      parent.  The root's missing parent is the empty extractor list. */
  function NewAxes(parent: seq<bool>, node: seq<bool>, upTo: nat): seq<int>
    requires upTo <= |node|
  {
    if upTo == 0 then []
    else
      var a := upTo - 1;
      NewAxes(parent, node, a) + (if node[a] && !ActiveIn(parent, a) then [a] else [])
  }

  function ParentActive(path: seq<SNode>, i: nat): seq<bool>
    requires i < |path|
  {
    if i == 0 then [] else path[i - 1].active
  }

  function NodeAxes(path: seq<SNode>, i: nat): seq<int>
    requires i < |path|
  {
    if path[i].kind == Dense then NewAxes(ParentActive(path, i), path[i].active, |path[i].active|) else []
  }

  /** The memory layout order of the first `k` nodes of a root-to-leaf path. */
  function LayoutOrder(path: seq<SNode>, k: nat): seq<int>
    requires k <= |path|
  {
    if k == 0 then [] else LayoutOrder(path, k - 1) + NodeAxes(path, k - 1)
  }

  /** The rule the exporter enforces: the newly activated axes, read from
      the root down, are exactly 0, 1, ..., ndim - 1. */
  predicate AxesInOrder(path: seq<SNode>, ndim: nat)
  {
    LayoutOrder(path, |path|) == Iota(ndim)
  }

  /** `validate_axis_ordering`, given the root-to-leaf path the source
      collects by following parent pointers. */
  method ValidateAxisOrdering(path: seq<SNode>, ndim: nat) returns (r: Result<(), DLPackError>)
    ensures r.Ok? <==> AxesInOrder(path, ndim)
    ensures r.Err? ==> r.error == AxesNotInOrder
  {
    var order: seq<int> := [];
    var i := 0;
    while i < |path|
      invariant 0 <= i <= |path|
      invariant order == LayoutOrder(path, i)
    {
      var node := path[i];
      if node.kind == Dense {
        var parent := if i == 0 then [] else path[i - 1].active;
        var axes := CollectNewAxes(parent, node.active);
        order := order + axes;
      }
      i := i + 1;
    }
    var inOrder := IsIota(order, ndim);
    if inOrder {
      r := Ok(());
    } else {
      r := Err(AxesNotInOrder);
    }
  }

  /** The inner loop of `validate_axis_ordering` over one dense node. */
  method CollectNewAxes(parent: seq<bool>, node: seq<bool>) returns (axes: seq<int>)
    ensures axes == NewAxes(parent, node, |node|)
  {
    axes := [];
    var a := 0;
    while a < |node|
      invariant 0 <= a <= |node|
      invariant axes == NewAxes(parent, node, a)
    {
      if node[a] {
        var wasInParent := a < |parent| && parent[a];
        if !wasInParent {
          axes := axes + [a];
        }
      }
      a := a + 1;
    }
  }

  /** The final comparison of `validate_axis_ordering`: the collected order
      has `ndim` entries and entry i is i. */
  method IsIota(order: seq<int>, ndim: nat) returns (b: bool)
    ensures b <==> order == Iota(ndim)
  {
    if |order| != ndim {
      return false;
    }
    var k := 0;
    while k < |order|
      invariant 0 <= k <= |order|
      invariant forall j :: 0 <= j < k ==> order[j] == j
    {
      if order[k] != k {
        assert order[k] != Iota(ndim)[k];
        return false;
      }
      k := k + 1;
    }
    assert order == Iota(ndim);
    return true;
  }

  // ---------------------------------------------------------------------
  // Shapes and strides

  function Product(s: seq<int>): int
  {
    if |s| == 0 then 1 else s[0] * Product(s[1..])
  }

  /** Row-major strides, in elements: each axis steps over the product of
      the extents after it. */
  function Strides(shape: seq<int>): (st: seq<int>)
    ensures |st| == |shape|
    ensures forall i :: 0 <= i < |shape| ==> st[i] == Product(shape[i + 1..])
  {
    if |shape| == 0 then []
    else
      var rest := Strides(shape[1..]);
      assert forall i :: 1 <= i < |shape| ==> shape[i + 1..] == shape[1..][i..];
      [Product(shape[1..])] + rest
  }

  /** `calc_strides`: the last stride is 1 and each earlier one is the next
      stride times the next extent. */
  method CalcStrides(shape: seq<int>) returns (strides: seq<int>)
    ensures strides == Strides(shape)
    ensures |shape| > 0 ==> strides[|shape| - 1] == 1
    ensures forall i :: 0 <= i < |shape| - 1 ==> strides[i] == strides[i + 1] * shape[i + 1]
  {
    var n := |shape|;
    if n == 0 {
      return [];
    }
    strides := [1];
    assert shape[n - 1..][1..] == [];
    var i := n - 2;
    while i >= 0
      invariant -1 <= i <= n - 2
      invariant strides == Strides(shape[i + 1..])
    {
      assert shape[i..][1..] == shape[i + 1..];
      assert shape[i + 1..][1..] == shape[i + 2..];
      strides := [strides[0] * shape[i + 1]] + strides;
      i := i - 1;
    }
    assert shape[0..] == shape;
    StridesStep(shape);
  }

  lemma {:induction false} StridesStep(shape: seq<int>)
    ensures |shape| > 0 ==> Strides(shape)[|shape| - 1] == 1
    ensures forall i :: 0 <= i < |shape| - 1 ==> Strides(shape)[i] == Strides(shape)[i + 1] * shape[i + 1]
  {
    if |shape| > 0 {
      assert shape[|shape|..] == [];
    }
    forall i | 0 <= i < |shape| - 1
      ensures Strides(shape)[i] == Strides(shape)[i + 1] * shape[i + 1]
    {
      assert shape[i + 1..] == [shape[i + 1]] + shape[i + 2..];
    }
  }

  /** Shape of a field export: the SNode's extents along its `ndim` axes,
      then n for a vector or matrix element, then m for a matrix element.
      The caller passes an element dimensionality of 0, 1 or 2. */
  function FieldShape(axisSizes: seq<int>, elementNdim: int, n: int, m: int): (sh: seq<int>)
    requires 0 <= elementNdim <= 2
    ensures |sh| == |axisSizes| + elementNdim
    ensures sh[..|axisSizes|] == axisSizes
    ensures elementNdim >= 1 ==> sh[|axisSizes|] == n
    ensures elementNdim == 2 ==> sh[|axisSizes| + 1] == m
  {
    axisSizes + (if elementNdim == 0 then [] else if elementNdim == 1 then [n] else [n, m])
  }

  // ---------------------------------------------------------------------
  // Data pointer and byte offset

  const PointerSpace: nat := 0x1_0000_0000_0000_0000

  /** Where a field's data starts: `(pointer, byte_offset)`.  A non-negative
      offset into the SNode tree goes into `byte_offset` when torch accepts
      one; otherwise the pointer itself is advanced (as a 64-bit integer),
      which Metal cannot do.  A negative offset is ignored. */
  function FieldData(arch: Arch, rawPtr: nat, fieldOffset: int, supportsByteOffset: bool): (r: Result<(nat, int), DLPackError>)
    requires rawPtr < PointerSpace
    ensures r.Err? <==> fieldOffset >= 0 && !supportsByteOffset && arch == Metal
    ensures r.Err? ==> r.error == MetalFieldNeedsNewerTorch
    ensures r.Ok? ==> r.value.0 < PointerSpace && r.value.1 >= 0
    ensures r.Ok? && fieldOffset >= 0 && supportsByteOffset ==> r.value == (rawPtr, fieldOffset)
    ensures r.Ok? && (fieldOffset < 0 || supportsByteOffset) ==> r.value.0 == rawPtr
  {
    if fieldOffset >= 0 then
      if supportsByteOffset then Ok((rawPtr, fieldOffset))
      else if arch == Metal then Err(MetalFieldNeedsNewerTorch)
      else Ok(((rawPtr + fieldOffset) % PointerSpace, 0))
    else Ok((rawPtr, 0))
  }

  /** The byte a consumer reads first: pointer plus byte offset. */
  function FirstByte(data: (nat, int)): int
  {
    data.0 + data.1
  }

  // ---------------------------------------------------------------------
  // Exports

  /** The fields of the exported `DLTensor` the model tracks. */
  datatype DLTensor = DLTensor(
    data: nat,
    deviceType: nat,
    deviceId: nat,
    ndim: nat,
    code: TypeCode,
    bits: nat,
    lanes: nat,
    shape: seq<int>,
    strides: seq<int>,
    byteOffset: int)

  /** What `get_raw_ptr` hands back: an address and a DLPack device type. */
  datatype RawPointer = RawPointer(address: nat, deviceType: nat)

  /** The SNode facts a field export reads. */
  datatype FieldInfo = FieldInfo(
    pathAllDense: bool,
    path: seq<SNode>,
    dt: DataType,
    numActiveIndices: nat,
    axisSizes: seq<int>,
    treeAllocated: bool,
    offsetInTree: int)

  /** `field_to_dlpack`.  The byte-offset cache is threaded through: it is
      consulted (and filled) only when the field offset is non-negative,
      and it keeps its new value even when a later step fails. */
  function FieldToDLPack(
    arch: Arch, f: FieldInfo, raw: RawPointer, cache: ByteOffsetCache, torchVersion: string,
    elementNdim: int, n: int, m: int): (r: (Result<DLTensor, DLPackError>, ByteOffsetCache))
    requires raw.address < PointerSpace
    requires 0 <= elementNdim <= 2
    requires |f.axisSizes| == f.numActiveIndices
    ensures !f.pathAllDense ==> r.0 == Err(NotAllDense)
    ensures r.0.Ok? <==>
              && f.pathAllDense && ValidateArch(arch).Ok? && f.treeAllocated
              && FieldData(arch, raw.address, f.offsetInTree,
                           f.offsetInTree >= 0 && TorchSupportsByteOffset(cache, torchVersion).0).Ok?
              && TypeInfo(f.dt).Ok? && AxesInOrder(f.path, f.numActiveIndices)
    ensures r.0.Ok? ==> AxesInOrder(f.path, f.numActiveIndices)
    ensures r.0.Ok? ==> r.0.value.ndim == f.numActiveIndices + elementNdim == |r.0.value.shape|
    ensures r.0.Ok? ==> r.0.value.strides == Strides(r.0.value.shape)
    ensures r.0.Ok? ==> r.0.value.shape == FieldShape(f.axisSizes, elementNdim, n, m)
    ensures r.0.Ok? ==> r.0.value.shape[..f.numActiveIndices] == f.axisSizes
    ensures r.0.Ok? ==> TypeInfo(f.dt) == Ok((r.0.value.code, r.0.value.bits)) && r.0.value.lanes == 1
    ensures r.0.Ok? && f.offsetInTree >= 0 ==>
              FieldData(arch, raw.address, f.offsetInTree, TorchSupportsByteOffset(cache, torchVersion).0)
                == Ok((r.0.value.data, r.0.value.byteOffset))
    ensures r.0.Ok? && f.offsetInTree < 0 ==> r.0.value.data == raw.address && r.0.value.byteOffset == 0
    ensures r.0.Ok? ==> r.1 == (if f.offsetInTree >= 0 then TorchSupportsByteOffset(cache, torchVersion).1 else cache)
    ensures r.1.Unchecked? ==> cache.Unchecked?
  {
    if !f.pathAllDense then (Err(NotAllDense), cache)
    else if ValidateArch(arch).Err? then (Err(UnsupportedArch), cache)
    else if !f.treeAllocated then (Err(NotAllocated), cache)
    else
      var (supports, cache') :=
        if f.offsetInTree >= 0 then TorchSupportsByteOffset(cache, torchVersion) else (false, cache);
      var data := FieldData(arch, raw.address, f.offsetInTree, supports);
      if data.Err? then (Err(data.error), cache')
      else
        var info := TypeInfo(f.dt);
        if info.Err? then (Err(info.error), cache')
        else if !AxesInOrder(f.path, f.numActiveIndices) then (Err(AxesNotInOrder), cache')
        else
          var shape := FieldShape(f.axisSizes, elementNdim, n, m);
          (Ok(DLTensor(data.value.0, raw.deviceType, 0, |shape|, info.value.0, info.value.1, 1,
                       shape, Strides(shape), data.value.1)), cache')
  }

  /** `ndarray_to_dlpack`: the ndarray's total shape, row-major strides and
      a zero byte offset. */
  function NdarrayToDLPack(arch: Arch, totalShape: seq<int>, dt: DataType, raw: RawPointer): (r: Result<DLTensor, DLPackError>)
    ensures ValidateArch(arch).Err? ==> r == Err(UnsupportedArch)
    ensures r.Ok? <==> ValidateArch(arch).Ok? && TypeInfo(dt).Ok?
    ensures r.Ok? ==> r.value.shape == totalShape && r.value.ndim == |totalShape|
    ensures r.Ok? ==> r.value.byteOffset == 0 && r.value.data == raw.address
    ensures r.Ok? ==> r.value.strides == Strides(totalShape)
    ensures r.Ok? ==> TypeInfo(dt) == Ok((r.value.code, r.value.bits)) && r.value.lanes == 1
  {
    if ValidateArch(arch).Err? then Err(UnsupportedArch)
    else
      var info := TypeInfo(dt);
      if info.Err? then Err(info.error)
      else Ok(DLTensor(raw.address, raw.deviceType, 0, |totalShape|, info.value.0, info.value.1, 1,
                       totalShape, Strides(totalShape), 0))
  }
}
