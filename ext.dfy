/**
 * Rust-side value types (`ext::Array` and `ffi::FFI`): the four GL scalar
 * types, fixed-size arrays `[T; N]` of them, and shared references `&T`.
 */
module Ext {
  import opened Glsl

  /** A Rust value type: a scalar, `[T; N]` or `&T`. */
  datatype RustType =
    | RScalar(s: Scalar)
    | RArray(elem: RustType, len: nat)
    | RRef(target: RustType)

  /** `ext::Array` is implemented for `f32`, `f64`, `i32`, `u32` and nested arrays of them. */
  predicate IsExtArray(t: RustType)
  {
    match t
    case RScalar(s) => IsScalarType(s)
    case RArray(e, _) => IsExtArray(e)
    case RRef(_) => false
  }

  /** `Array::SIZE`: 1 for a scalar and N * T::SIZE for `[T; N]`. */
  function Size(t: RustType): nat
    requires IsExtArray(t)
  {
    match t
    case RScalar(_) => 1
    case RArray(e, n) => n * Size(e)
  }

  /** `Array::Type`: a scalar is its own element type; `[T; N]` has element type T. */
  function ElemType(t: RustType): (e: RustType)
    requires IsExtArray(t)
    ensures IsExtArray(e)
  {
    match t
    case RScalar(_) => t
    case RArray(e, _) => e
  }

  /** The scalar at the bottom of nested arrays. */
  function Base(t: RustType): (s: Scalar)
    requires IsExtArray(t)
    ensures IsScalarType(s)
  {
    match t
    case RScalar(s) => s
    case RArray(e, _) => Base(e)
  }

  /** The extents of nested arrays, outermost first. */
  function Extents(t: RustType): seq<nat>
    requires IsExtArray(t)
  {
    match t
    case RScalar(_) => []
    case RArray(e, n) => [n] + Extents(e)
  }

  function Product(s: seq<nat>): nat
  {
    if |s| == 0 then 1 else s[0] * Product(s[1..])
  }

  // ---------------------------------------------------------------------
  // Properties

  /** `SIZE` is the number of scalars: the product of all extents. */
  lemma {:induction false} SizeIsProduct(t: RustType)
    requires IsExtArray(t)
    ensures Size(t) == Product(Extents(t))
  {
    if t.RArray? {
      SizeIsProduct(t.elem);
      assert Extents(t)[1..] == Extents(t.elem);
    }
  }

  /** `Type` applied k times. */
  function ElemTypeIter(t: RustType, k: nat): (e: RustType)
    requires IsExtArray(t)
    ensures IsExtArray(e)
  {
    if k == 0 then t else ElemTypeIter(ElemType(t), k - 1)
  }

  /**
   * `Type` goes one level down at a time: applied once per extent it
   * reaches the base scalar, and every fewer application still leaves an
   * array.
   */
  lemma {:induction false} ElemTypeReachesBase(t: RustType, k: nat)
    requires IsExtArray(t)
    ensures ElemTypeIter(t, |Extents(t)|) == RScalar(Base(t))
    ensures k < |Extents(t)| ==> ElemTypeIter(t, k).RArray?
  {
    if t.RArray? {
      assert |Extents(t)| == 1 + |Extents(t.elem)|;
      ElemTypeReachesBase(t.elem, if k == 0 then 0 else k - 1);
    }
  }

  /**
   * `[[f32; C]; R]` has SIZE R * C, the FFI size of `Mat<f32, R, C>`;
   * likewise for `f64`.
   */
  lemma MatrixArraySize(s: Scalar, r: nat, c: nat)
    requires (s == F32 || s == F64) && VecSize(r) && VecSize(c)
    ensures Size(RArray(RArray(RScalar(s), c), r)) == r * c == FfiSize(MatT(s, r, c))
  {
  }
}
