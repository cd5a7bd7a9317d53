/** Properties of the DLPack export model: the version check is a
    lexicographic order and survives the `sscanf` round trip, the byte
    offset answer is fixed by the first call, the axis rule accepts the
    ordinary i, j, k layout and rejects the i, k, j one, strides address
    every element inside the buffer, and both ways of applying the field
    offset reach the same byte. */
module DLPackProperties {
  import opened Results
  import opened DataTypes
  import opened DLPack

  // ---------------------------------------------------------------------
  // Version comparison

  /** The "at most" check is a total order on versions. */
  lemma VersionLteIsTotalOrder(a: Version, b: Version, c: Version)
    ensures VersionLte(a, a.major, a.minor, a.patch)
    ensures VersionLte(a, b.major, b.minor, b.patch) || VersionLte(b, a.major, a.minor, a.patch)
    ensures VersionLte(a, b.major, b.minor, b.patch) && VersionLte(b, a.major, a.minor, a.patch) ==> a == b
    ensures VersionLte(a, b.major, b.minor, b.patch) && VersionLte(b, c.major, c.minor, c.patch)
            ==> VersionLte(a, c.major, c.minor, c.patch)
  {
  }

  lemma {:induction false} DigitsValueSnoc(ds: string, c: char)
    requires AllDigits(ds) && IsDigit(c)
    ensures AllDigits(ds + [c])
    ensures DigitsValue(ds + [c]) == DigitsValue(ds) * 10 + DigitValue(c)
  {
    assert (ds + [c])[..|ds|] == ds;
  }

  /** `Decimal` spells the number `DigitsValue` reads. */
  lemma {:induction false} DecimalValue(n: nat)
    ensures DigitsValue(Decimal(n)) == n
  {
    if n >= 10 {
      DecimalValue(n / 10);
      DigitsValueSnoc(Decimal(n / 10), DigitChar(n % 10));
    }
  }

  lemma {:induction false} LeadingDigitsOfDigits(ds: string, rest: string)
    requires AllDigits(ds)
    requires rest == [] || !IsDigit(rest[0])
    ensures LeadingDigits(ds + rest) == |ds|
  {
    if |ds| > 0 {
      assert (ds + rest)[1..] == ds[1..] + rest;
      LeadingDigitsOfDigits(ds[1..], rest);
    } else {
      assert ds + rest == rest;
    }
  }

  /** One `%d` conversion reads back a decimal number and stops at the
      first non-digit. */
  lemma ScanIntDecimal(n: nat, rest: string)
    requires rest == [] || !IsDigit(rest[0])
    ensures ScanInt(Decimal(n) + rest) == Some((n, rest))
  {
    var s := Decimal(n) + rest;
    assert s[0] == Decimal(n)[0];
    assert SkipSpaces(s) == s;
    LeadingDigitsOfDigits(Decimal(n), rest);
    assert s[..|Decimal(n)|] == Decimal(n);
    assert s[|Decimal(n)|..] == rest;
    DecimalValue(n);
  }

  lemma DropDot(x: string)
    ensures ScanDot("." + x) == Some(x)
  {
    assert ("." + x)[1..] == x;
  }

  lemma ConcatAssoc6<T>(x0: seq<T>, x1: seq<T>, x2: seq<T>, x3: seq<T>, x4: seq<T>, x5: seq<T>)
    ensures x0 + x1 + x2 + x3 + x4 + x5 == x0 + (x1 + (x2 + (x3 + (x4 + x5))))
  {
  }

  lemma ScanPatchDecimal(a: int, b: int, c: nat, suffix: string)
    requires suffix == [] || !IsDigit(suffix[0])
    ensures ScanPatch(a, b, "." + (Decimal(c) + suffix)) == Version(a, b, c)
  {
    DropDot(Decimal(c) + suffix);
    ScanIntDecimal(c, suffix);
  }

  lemma ScanMinorDecimal(a: int, b: nat, c: nat, suffix: string)
    requires suffix == [] || !IsDigit(suffix[0])
    ensures ScanMinor(a, "." + (Decimal(b) + ("." + (Decimal(c) + suffix)))) == Version(a, b, c)
  {
    var t := "." + (Decimal(c) + suffix);
    DropDot(Decimal(b) + t);
    ScanIntDecimal(b, t);
    ScanPatchDecimal(a, b, c, suffix);
  }

  /** `sscanf("%d.%d.%d")` recovers the three numbers of a version string,
      whatever non-digit suffix (a build tag such as "+cu118") follows. */
  lemma ScanVersionRoundTrip(a: nat, b: nat, c: nat, suffix: string)
    requires suffix == [] || !IsDigit(suffix[0])
    ensures ScanVersion(Decimal(a) + "." + Decimal(b) + "." + Decimal(c) + suffix) == Version(a, b, c)
  {
    var t := "." + (Decimal(b) + ("." + (Decimal(c) + suffix)));
    ConcatAssoc6(Decimal(a), ".", Decimal(b), ".", Decimal(c), suffix);
    ScanIntDecimal(a, t);
    ScanMinorDecimal(a, b, c, suffix);
  }

  /** A version string with only two fields leaves the patch level at 0. */
  lemma ScanVersionShort(a: nat, b: nat)
    ensures ScanVersion(Decimal(a) + "." + Decimal(b)) == Version(a, b, 0)
  {
    var t := "." + Decimal(b);
    assert Decimal(a) + "." + Decimal(b) == Decimal(a) + t;
    ScanIntDecimal(a, t);
    DropDot(Decimal(b));
    assert Decimal(b) + [] == Decimal(b);
    ScanIntDecimal(b, []);
    assert ScanDot([]) == None;
  }

  // ---------------------------------------------------------------------
  // Byte offset cache

  lemma SingleDigit(d: nat)
    requires d < 10
    ensures Decimal(d) == [DigitChar(d)]
  {
  }

  /** Torch 2.9.1 does not take byte offsets, whatever build tag (such as
      "+cu118") follows the version number. */
  lemma ByteOffsetRefusedAt291(tag: string)
    requires tag == [] || !IsDigit(tag[0])
    ensures !TorchSupportsByteOffset(Unchecked, "2.9.1" + tag).0
  {
    SingleDigit(2);
    SingleDigit(9);
    SingleDigit(1);
    ScanVersionRoundTrip(2, 9, 1, tag);
    var s1 := Decimal(2) + ".";
    assert s1 == "2.";
    var s2 := s1 + Decimal(9);
    assert s2 == "2.9";
    var s3 := s2 + ".";
    assert s3 == "2.9.";
    var s4 := s3 + Decimal(1);
    assert s4 == "2.9.1";
  }

  /** Torch 2.10.0 takes byte offsets. */
  lemma ByteOffsetAcceptedAt2100()
    ensures TorchSupportsByteOffset(Unchecked, "2.10.0").0
  {
    SingleDigit(2);
    SingleDigit(1);
    SingleDigit(0);
    assert Decimal(10) == Decimal(1) + [DigitChar(0)];
    ScanVersionRoundTrip(2, 10, 0, []);
    var s1 := Decimal(2) + ".";
    assert s1 == "2.";
    var s2 := s1 + Decimal(10);
    assert s2 == "2.10";
    var s3 := s2 + ".";
    assert s3 == "2.10.";
    var s4 := s3 + Decimal(0);
    assert s4 == "2.10.0";
    assert s4 + [] == "2.10.0";
  }

  /** "2.9" reads as 2.9.0, which is not newer than 2.9.1. */
  lemma ByteOffsetRefusedAt29()
    ensures !TorchSupportsByteOffset(Unchecked, "2.9").0
  {
    SingleDigit(2);
    SingleDigit(9);
    ScanVersionShort(2, 9);
    var s1 := Decimal(2) + ".";
    assert s1 == "2.";
    assert s1 + Decimal(9) == "2.9";
  }

  /** The answer is fixed by the first call: a second call, whatever version
      string it is given, returns the same answer and keeps the cache. */
  lemma ByteOffsetComputedOnce(cache: ByteOffsetCache, v1: string, v2: string)
    ensures var (b1, c1) := TorchSupportsByteOffset(cache, v1);
            TorchSupportsByteOffset(c1, v2) == (b1, c1)
  {
  }

  // ---------------------------------------------------------------------
  // Axis ordering

  function Falses(w: nat): seq<bool>
  {
    seq(w, _ => false)
  }

  /** Extractors with the first `n` of `w` axes active. */
  function FirstActive(n: nat, w: nat): seq<bool>
  {
    seq(w, a => a < n)
  }

  lemma {:induction false} NewAxesOfFirst(n: nat, w: nat, upTo: nat)
    requires n <= w && upTo <= w
    ensures NewAxes(Falses(w), FirstActive(n, w), upTo) == Iota(if upTo < n then upTo else n)
  {
    if upTo > 0 {
      NewAxesOfFirst(n, w, upTo - 1);
      var k := if upTo < n then upTo else n;
      var k' := if upTo - 1 < n then upTo - 1 else n;
      if upTo - 1 < n {
        assert Iota(k') + [upTo - 1] == Iota(k);
      } else {
        assert k == k';
      }
    }
  }

  /** `root.dense(ijk, ...).place(x)`: one dense node activating axes
      0..n-1 under a root with none passes with `ndim = n`. */
  lemma {:induction false} PlainDenseFieldAccepted(n: nat, w: nat)
    requires n <= w
    ensures AxesInOrder([SNode(Root, Falses(w)), SNode(Dense, FirstActive(n, w)), SNode(Place, FirstActive(n, w))], n)
  {
    var path := [SNode(Root, Falses(w)), SNode(Dense, FirstActive(n, w)), SNode(Place, FirstActive(n, w))];
    NewAxesOfFirst(n, w, w);
    assert NodeAxes(path, 0) == [];
    assert NodeAxes(path, 1) == Iota(n);
    assert NodeAxes(path, 2) == [];
    assert LayoutOrder(path, 1) == [];
    assert LayoutOrder(path, 2) == Iota(n);
  }

  /** `root.dense(i, 3).dense(k, 2).dense(j, 4).place(x)`: the axes appear
      as 0, 2, 1, so the export refuses the field. */
  lemma NonSequencedAxesRejected()
    ensures var path := [SNode(Root, [false, false, false]),
                         SNode(Dense, [true, false, false]),
                         SNode(Dense, [true, false, true]),
                         SNode(Dense, [true, true, true]),
                         SNode(Place, [true, true, true])];
            LayoutOrder(path, |path|) == [0, 2, 1] && !AxesInOrder(path, 3)
  {
    var path := [SNode(Root, [false, false, false]),
                 SNode(Dense, [true, false, false]),
                 SNode(Dense, [true, false, true]),
                 SNode(Dense, [true, true, true]),
                 SNode(Place, [true, true, true])];
    assert NodeAxes(path, 0) == [];
    assert NewAxes([false, false, false], [true, false, false], 3) == [0];
    assert NodeAxes(path, 1) == [0];
    assert NewAxes([true, false, false], [true, false, true], 3) == [2];
    assert NodeAxes(path, 2) == [2];
    assert NewAxes([true, false, true], [true, true, true], 3) == [1];
    assert NodeAxes(path, 3) == [1];
    assert NodeAxes(path, 4) == [];
    assert LayoutOrder(path, 5) == [0, 2, 1];
    assert Iota(3)[1] == 1;
  }

  // ---------------------------------------------------------------------
  // Strides

  predicate InBounds(idx: seq<int>, shape: seq<int>)
  {
    |idx| == |shape| && forall k :: 0 <= k < |idx| ==> 0 <= idx[k] < shape[k]
  }

  /** Element offset of a multi-index: the dot product with the strides. */
  function Offset(idx: seq<int>, strides: seq<int>): int
    requires |idx| == |strides|
  {
    if |idx| == 0 then 0 else idx[0] * strides[0] + Offset(idx[1..], strides[1..])
  }

  lemma {:induction false} ProductNonNegative(shape: seq<int>)
    requires forall k :: 0 <= k < |shape| ==> shape[k] >= 0
    ensures Product(shape) >= 0
  {
    if |shape| > 0 {
      ProductNonNegative(shape[1..]);
    }
  }

  lemma MulStep(i: int, n: int, p: int, rest: int)
    requires 0 <= i < n && p >= 0 && 0 <= rest < p
    ensures 0 <= i * p + rest < n * p
  {
    assert i * p <= (n - 1) * p;
  }

  /** Row-major strides keep every in-bounds element inside the buffer:
      its offset lies in [0, product of the extents). */
  lemma {:induction false} OffsetInBuffer(idx: seq<int>, shape: seq<int>)
    requires InBounds(idx, shape)
    ensures 0 <= Offset(idx, Strides(shape)) < Product(shape)
  {
    if |idx| > 0 {
      assert InBounds(idx[1..], shape[1..]);
      OffsetInBuffer(idx[1..], shape[1..]);
      assert Strides(shape)[1..] == Strides(shape[1..]);
      MulStep(idx[0], shape[0], Product(shape[1..]), Offset(idx[1..], Strides(shape[1..])));
    }
  }

  // ---------------------------------------------------------------------
  // Field offset

  /** Shifting the pointer and recording a byte offset address the same
      first byte (when the shift does not wrap the 64-bit address); a
      negative offset is dropped. */
  lemma FieldOffsetSameByte(arch: Arch, rawPtr: nat, fieldOffset: int, supports: bool)
    requires rawPtr < PointerSpace
    requires rawPtr + fieldOffset < PointerSpace
    requires FieldData(arch, rawPtr, fieldOffset, supports).Ok?
    ensures FirstByte(FieldData(arch, rawPtr, fieldOffset, supports).value)
            == rawPtr + (if fieldOffset >= 0 then fieldOffset else 0)
  {
  }

  /** Without byte-offset support, a field at a non-zero offset moves the
      data pointer instead (on every backend but Metal). */
  lemma OldTorchShiftsPointer(arch: Arch, rawPtr: nat, fieldOffset: nat)
    requires rawPtr + fieldOffset < PointerSpace
    requires arch != Metal
    ensures FieldData(arch, rawPtr, fieldOffset, false) == Ok((rawPtr + fieldOffset, 0))
  {
  }

  // ---------------------------------------------------------------------
  // Field and ndarray exports agree

  /** A field export describes its memory exactly as an ndarray export of
      the same total shape and element type would, except for where the
      data starts: same rank, shape, strides and element type. */
  lemma FieldMatchesNdarray(
    arch: Arch, f: FieldInfo, raw: RawPointer, cache: ByteOffsetCache, torchVersion: string,
    elementNdim: int, n: int, m: int)
    requires raw.address < PointerSpace
    requires 0 <= elementNdim <= 2
    requires |f.axisSizes| == f.numActiveIndices
    requires FieldToDLPack(arch, f, raw, cache, torchVersion, elementNdim, n, m).0.Ok?
    ensures var t := FieldToDLPack(arch, f, raw, cache, torchVersion, elementNdim, n, m).0.value;
            var u := NdarrayToDLPack(arch, FieldShape(f.axisSizes, elementNdim, n, m), f.dt, raw);
            u.Ok? && t.shape == u.value.shape && t.strides == u.value.strides && t.ndim == u.value.ndim
            && t.code == u.value.code && t.bits == u.value.bits && t.lanes == u.value.lanes
            && t.deviceType == u.value.deviceType
  {
  }

  /** At offset 0 the data pointer is the tree's own pointer, whichever
      way the offset is passed. */
  lemma FieldDataAtZero(arch: Arch, address: nat)
    requires address < PointerSpace
    ensures forall supports :: FieldData(arch, address, 0, supports).Ok? ==>
              FieldData(arch, address, 0, supports) == Ok((address, 0))
  {
  }

  /** A field at offset 0 of its tree exports exactly like an ndarray. */
  lemma FieldAtTreeStartIsNdarray(
    arch: Arch, f: FieldInfo, raw: RawPointer, cache: ByteOffsetCache, torchVersion: string,
    elementNdim: int, n: int, m: int)
    requires raw.address < PointerSpace
    requires 0 <= elementNdim <= 2
    requires |f.axisSizes| == f.numActiveIndices
    requires f.offsetInTree == 0
    requires FieldToDLPack(arch, f, raw, cache, torchVersion, elementNdim, n, m).0.Ok?
    ensures FieldToDLPack(arch, f, raw, cache, torchVersion, elementNdim, n, m).0
            == NdarrayToDLPack(arch, FieldShape(f.axisSizes, elementNdim, n, m), f.dt, raw)
  {
    FieldDataAtZero(arch, raw.address);
    var info := TypeInfo(f.dt);
    assert info.Ok?;
    var shape := FieldShape(f.axisSizes, elementNdim, n, m);
    var t := DLTensor(raw.address, raw.deviceType, 0, |shape|, info.value.0, info.value.1, 1,
                      shape, Strides(shape), 0);
    assert FieldToDLPack(arch, f, raw, cache, torchVersion, elementNdim, n, m).0 == Ok(t);
    assert NdarrayToDLPack(arch, shape, f.dt, raw) == Ok(t);
  }

  /** Exporting a field at a non-negative offset always settles the cache. */
  lemma FieldExportFillsCache(
    arch: Arch, f: FieldInfo, raw: RawPointer, cache: ByteOffsetCache, torchVersion: string,
    elementNdim: int, n: int, m: int)
    requires raw.address < PointerSpace
    requires 0 <= elementNdim <= 2
    requires |f.axisSizes| == f.numActiveIndices
    requires f.pathAllDense && ValidateArch(arch).Ok? && f.treeAllocated && f.offsetInTree >= 0
    ensures FieldToDLPack(arch, f, raw, cache, torchVersion, elementNdim, n, m).1.Checked?
  {
  }

  /** The backends the exporter refuses, Vulkan among them, fail right
      after the dense-tree check for fields, and first for ndarrays. */
  lemma VulkanRefused(f: FieldInfo, raw: RawPointer, cache: ByteOffsetCache, torchVersion: string, shape: seq<int>, dt: DataType)
    requires raw.address < PointerSpace
    requires |f.axisSizes| == f.numActiveIndices
    requires f.pathAllDense
    ensures FieldToDLPack(Vulkan, f, raw, cache, torchVersion, 0, 0, 0) == (Err(UnsupportedArch), cache)
    ensures NdarrayToDLPack(Vulkan, shape, dt, raw) == Err(UnsupportedArch)
  {
  }
}
