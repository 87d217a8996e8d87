/** Activation tensors of the pipeline stage protocol and the 64-bit arithmetic
    on their shapes. */
module TensorShape {
  import opened Options
  import IndexKeys

  type Byte = IndexKeys.Byte

  const MAX_TENSOR_BYTES := 67_108_864
  const MAX_RANK := 8
  const MAX_INT64: int := 0x7fff_ffff_ffff_ffff
  const TWO_63: int := 0x8000_0000_0000_0000
  const TWO_64: int := 0x1_0000_0000_0000_0000

  type Int64 = x: int | -0x8000_0000_0000_0000 <= x < 0x8000_0000_0000_0000

  /** What a 64-bit multiplication or addition leaves of an exact result. */
  function Wrap(x: int): Int64 { (x + TWO_63) % TWO_64 - TWO_63 }

  lemma WrapInRange(x: int)
    requires -TWO_63 <= x < TWO_63
    ensures Wrap(x) == x
  {
  }

  datatype DType = Float16 | BFloat16 | Float32 | Int64Type | Uint8 | Unsupported(name: string)

  function ElementSize(d: DType): Option<nat>
  {
    match d
    case Float16 => Some(2)
    case BFloat16 => Some(2)
    case Float32 => Some(4)
    case Int64Type => Some(8)
    case Uint8 => Some(1)
    case Unsupported(_) => None
  }

  datatype Tensor = Tensor(dtype: DType, shape: seq<Int64>, data: seq<Byte>)

  /** The exact number of elements. */
  function Product(shape: seq<Int64>): int
  {
    if shape == [] then 1 else Product(shape[..|shape| - 1]) * shape[|shape| - 1]
  }

  ghost predicate Positive(shape: seq<Int64>) { forall i :: 0 <= i < |shape| ==> shape[i] > 0 }

  lemma MulGrows(a: int, d: int)
    requires a >= 1 && d >= 1
    ensures a <= a * d
  {
  }

  lemma {:induction false} PrefixProduct(shape: seq<Int64>, i: nat)
    requires Positive(shape) && i <= |shape|
    ensures 1 <= Product(shape[..i]) <= Product(shape)
    decreases |shape| - i, i
  {
    if i < |shape| {
      PrefixProduct(shape, i + 1);
      ProductPositive(shape, i);
      assert shape[..i + 1][..i] == shape[..i];
      MulGrows(Product(shape[..i]), shape[i]);
    } else {
      ProductPositive(shape, i);
      assert shape[..i] == shape;
    }
  }

  lemma {:induction false} ProductPositive(shape: seq<Int64>, i: nat)
    requires Positive(shape) && i <= |shape|
    ensures Product(shape[..i]) >= 1
  {
    if i > 0 {
      ProductPositive(shape, i - 1);
      assert shape[..i][..i - 1] == shape[..i - 1];
      MulGrows(Product(shape[..i - 1]), shape[i - 1]);
    }
  }

  /** The overflow test before each multiplication is exact. */
  lemma DivisionGuard(a: int, d: int, limit: int)
    requires d > 0 && a >= 0 && limit >= 0
    ensures a > limit / d <==> a * d > limit
  {
    var q := limit / d;
    assert limit == q * d + limit % d;
    if a > q { MulLeq(q + 1, a, d); } else { MulLeq(a, q, d); }
  }

  lemma MulLeq(a: int, b: int, d: int)
    requires a <= b && d >= 0
    ensures a * d <= b * d
  {
  }

  /** The element count, when every dimension is positive and the count fits. */
  ghost function Elements(shape: seq<Int64>): Option<Int64>
  {
    if Positive(shape) && Product(shape) <= MAX_INT64 then ElementsFit(shape); Some(Product(shape)) else None
  }

  lemma ElementsFit(shape: seq<Int64>)
    requires Positive(shape)
    ensures Product(shape) >= 1
  {
    PrefixProduct(shape, |shape|);
    assert shape[..|shape|] == shape;
  }

  /** The loop both Validate and tensorPayloadLength run. No multiplication in
      it ever wraps, and it gives up exactly when the exact count does not fit. */
  method CountElements(shape: seq<Int64>) returns (r: Option<Int64>)
    ensures r == Elements(shape)
  {
    var elements: Int64 := 1;
    for i := 0 to |shape|
      invariant Positive(shape[..i]) && 1 <= elements == Product(shape[..i]) <= MAX_INT64
    {
      var dimension := shape[i];
      if dimension <= 0 { return None; }
      DivisionGuard(elements, dimension, MAX_INT64);
      assert shape[..i + 1][..i] == shape[..i];
      if elements > MAX_INT64 / dimension {
        TooManyElements(shape, i);
        return None;
      }
      MulGrows(elements, dimension);
      WrapInRange(elements * dimension);
      elements := Wrap(elements * dimension);
    }
    assert shape[..|shape|] == shape;
    r := Some(elements);
  }

  lemma TooManyElements(shape: seq<Int64>, i: nat)
    requires i < |shape| && Product(shape[..i + 1]) > MAX_INT64
    ensures Elements(shape) == None
  {
    if Positive(shape) { PrefixProduct(shape, i + 1); }
  }

  ghost predicate RankOk(t: Tensor) { 1 <= |t.shape| <= MAX_RANK }

  /** The exact payload size, when the metadata makes sense at all. */
  ghost function ExactBytes(t: Tensor): Option<int>
  {
    if ElementSize(t.dtype).None? || !RankOk(t) || Elements(t.shape).None? then None
    else Some(Elements(t.shape).value * ElementSize(t.dtype).value)
  }

  ghost predicate ValidTensor(t: Tensor)
  {
    ExactBytes(t).Some? && ExactBytes(t).value <= MAX_TENSOR_BYTES && |t.data| == ExactBytes(t).value
  }

  method Validate(t: Tensor) returns (ok: bool)
    ensures ok == ValidTensor(t)
  {
    if ElementSize(t.dtype).None? { return false; }
    var size := ElementSize(t.dtype).value;
    if |t.shape| == 0 || |t.shape| > MAX_RANK { return false; }
    var counted := CountElements(t.shape);
    if counted.None? { return false; }
    ElementsFit(t.shape);
    DivisionGuard(counted.value, size, MAX_TENSOR_BYTES);
    if counted.value > MAX_TENSOR_BYTES / size { return false; }
    var expected := counted.value * size;
    return |t.data| == expected;
  }

  /** tensorPayloadLength: the last product is taken before its bound check. */
  ghost function PayloadLength(t: Tensor): Option<Int64>
  {
    if ExactBytes(t).None? then None
    else
      var bytes := Wrap(ExactBytes(t).value);
      if bytes > MAX_TENSOR_BYTES then None else Some(bytes)
  }

  method TensorPayloadLength(t: Tensor) returns (r: Option<Int64>)
    ensures r == PayloadLength(t)
  {
    if ElementSize(t.dtype).None? { return None; }
    if |t.shape| == 0 || |t.shape| > MAX_RANK { return None; }
    var counted := CountElements(t.shape);
    if counted.None? { return None; }
    var bytes := Wrap(counted.value * ElementSize(t.dtype).value);
    if bytes > MAX_TENSOR_BYTES { return None; }
    r := Some(bytes);
  }

  /** The count again, from the first dimension on. */
  ghost function Volume(shape: seq<Int64>): int
  {
    if shape == [] then 1 else shape[0] * Volume(shape[1..])
  }

  lemma {:induction false} ProductIsVolume(shape: seq<Int64>)
    ensures Product(shape) == Volume(shape)
    decreases |shape|
  {
    if |shape| == 1 {
      assert Volume(shape[1..]) == 1 && Product(shape[..0]) == 1;
    } else if |shape| > 1 {
      var first, middle, last := shape[0], shape[1..|shape| - 1], shape[|shape| - 1];
      ProductIsVolume(shape[..|shape| - 1]);
      ProductIsVolume(shape[1..]);
      ProductIsVolume(middle);
      assert shape[..|shape| - 1][1..] == middle && shape[1..][..|shape| - 2] == middle;
      MulAssociates(first, Volume(middle), last);
    }
  }

  lemma MulAssociates(a: int, b: int, c: int)
    ensures (a * b) * c == a * (b * c)
  {
  }

  /** A tensor is accepted exactly when it has one to eight positive
      dimensions, a supported element type, at most 64 MiB and as many bytes as
      its elements take: two per 16-bit float, four per 32-bit float, eight per
      64-bit integer and one per byte. */
  lemma ValidIff(t: Tensor)
    ensures ValidTensor(t) <==>
            && 1 <= |t.shape| <= 8 && (forall i :: 0 <= i < |t.shape| ==> t.shape[i] >= 1)
            && |t.data| <= 67_108_864
            && match t.dtype
               case Float16 => |t.data| == Volume(t.shape) * 2
               case BFloat16 => |t.data| == Volume(t.shape) * 2
               case Float32 => |t.data| == Volume(t.shape) * 4
               case Int64Type => |t.data| == Volume(t.shape) * 8
               case Uint8 => |t.data| == Volume(t.shape)
               case Unsupported(_) => false
  {
    ProductIsVolume(t.shape);
  }

  /** What the caller wants: the exact size, or nothing above the limit. */
  ghost function WantedLength(t: Tensor): Option<int>
  {
    if ExactBytes(t).Some? && ExactBytes(t).value <= MAX_TENSOR_BYTES then ExactBytes(t) else None
  }

  lemma ExactBytesPositive(t: Tensor)
    requires ExactBytes(t).Some?
    ensures ExactBytes(t).value >= 1
  {
    ElementsFit(t.shape);
    MulGrows(Elements(t.shape).value, ElementSize(t.dtype).value);
  }

  /** It is that exactly when the size is within the limit, or its residue
      modulo 2^64 lies between the limit and 2^63. In particular whenever the
      size fits in 64 bits. */
  lemma PayloadLengthExactIff(t: Tensor)
    ensures PayloadLength(t) == WantedLength(t)
       <==> (ExactBytes(t).Some? && ExactBytes(t).value > MAX_TENSOR_BYTES ==> MAX_TENSOR_BYTES < ExactBytes(t).value % TWO_64 < TWO_63)
  {
    if ExactBytes(t).Some? {
      ExactBytesPositive(t);
      WrapByResidue(ExactBytes(t).value);
    }
  }

  lemma WrapByResidue(x: nat)
    ensures Wrap(x) == if x % TWO_64 < TWO_63 then x % TWO_64 else x % TWO_64 - TWO_64
    ensures x % TWO_64 >= TWO_63 <==> x / TWO_63 % 2 == 1
  {
    var q, r := x / TWO_64, x % TWO_64;
    assert x == q * TWO_64 + r;
    if r < TWO_63 {
      assert x + TWO_63 == q * TWO_64 + (r + TWO_63);
      assert x / TWO_63 == 2 * q;
    } else {
      assert x + TWO_63 == (q + 1) * TWO_64 + (r - TWO_63);
      assert x / TWO_63 == 2 * q + 1;
    }
  }

  /** The length is negative exactly when bit 63 of the exact size is set. */
  lemma NegativeLengthIff(t: Tensor)
    ensures PayloadLength(t).Some? && PayloadLength(t).value < 0
       <==> ExactBytes(t).Some? && ExactBytes(t).value / TWO_63 % 2 == 1
  {
    if ExactBytes(t).Some? {
      ExactBytesPositive(t);
      WrapByResidue(ExactBytes(t).value);
    }
  }

  /** 2^61 four-byte elements measure as -2^63. */
  lemma HugeShapeMeasuresNegative()
    ensures var t := Tensor(Float32, [0x2000_0000_0000_0000], []);
            PayloadLength(t) == Some(-0x8000_0000_0000_0000) && WantedLength(t) == None && !ValidTensor(t)
  {
    var shape: seq<Int64> := [0x2000_0000_0000_0000];
    assert shape[..0] == [];
    assert Product(shape) == 0x2000_0000_0000_0000;
  }

  /** On every tensor Validate accepts, the length is the data's. */
  lemma ValidPayloadLength(t: Tensor)
    requires ValidTensor(t)
    ensures PayloadLength(t) == Some(|t.data|)
    ensures forall i :: 0 <= i <= |t.shape| ==> 1 <= Product(t.shape[..i]) <= MAX_TENSOR_BYTES
  {
    ExactBytesPositive(t);
    WrapInRange(ExactBytes(t).value);
    MulGrows(Elements(t.shape).value, ElementSize(t.dtype).value);
    forall i | 0 <= i <= |t.shape| ensures 1 <= Product(t.shape[..i]) <= MAX_TENSOR_BYTES { PrefixProduct(t.shape, i); }
  }

  /** The first shape where they part: 2^62 four-byte elements measure as none. */
  lemma HugeShapeMeasuresZero()
    ensures var t := Tensor(Float32, [0x4000_0000_0000_0000], []);
            PayloadLength(t) == Some(0) && WantedLength(t) == None && !ValidTensor(t)
  {
    var shape: seq<Int64> := [0x4000_0000_0000_0000];
    assert shape[..0] == [];
    assert Product(shape) == 0x4000_0000_0000_0000;
  }
}
