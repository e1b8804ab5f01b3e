/**
 * GLSL types (`glsl::glsl`): scalars, vectors, matrices and arrays, with the
 * `Type` marker, the FFI size and primitive of every type, and its
 * `Subtype` family.
 *
 * Rust encodes a GLSL type as a Rust type and its properties as trait
 * impls; here a GLSL type is a value of `GlslType` and each trait impl is a
 * case of a predicate or a function. The same datatype also serves as the
 * type universe of the `layout` modules, whose `types::Mat` and
 * `types::Array` have the same shape.
 */
module Glsl {

  /** The component types: `f32`, `f64`, `i32`, `u32` and `bool`. */
  datatype Scalar = F32 | F64 | I32 | U32 | Bool

  /**
   * `Vec<T, N>`, `Mat<T, R, C>` (R vectors of C components; `Mat2x3` is
   * `Mat<f32, 2, 3>`), `Array<T, N>`, and the placeholder `Unimplemented`.
   */
  datatype GlslType =
    | ScalarT(s: Scalar)
    | VecT(s: Scalar, n: nat)
    | MatT(s: Scalar, r: nat, c: nat)
    | ArrayT(elem: GlslType, len: nat)
    | Unimplemented

  /** `marker::VecSize`: implemented for `Const<2>`, `Const<3>` and `Const<4>` only. */
  predicate VecSize(n: nat)
  {
    n == 2 || n == 3 || n == 4
  }

  /** `ScalarType`: `f32`, `f64`, `i32` and `u32`; the `bool` impl is commented out. */
  predicate IsScalarType(s: Scalar)
  {
    s != Bool
  }

  /**
   * `marker::Type`: scalar types; `Vec<T, N>` over a scalar type with a
   * legal size; `Mat<T, R, C>` over `f32` or `f64` with legal R and C; and
   * `Array<T, N>` of any type.
   */
  predicate IsType(t: GlslType)
  {
    match t
    case ScalarT(s) => IsScalarType(s)
    case VecT(s, n) => IsScalarType(s) && VecSize(n)
    case MatT(s, r, c) => (s == F32 || s == F64) && VecSize(r) && VecSize(c)
    case ArrayT(e, _) => IsType(e)
    case Unimplemented => false
  }

  /** `FFI::SIZE`: 1, N, R * C and N * T::SIZE. */
  function FfiSize(t: GlslType): nat
    requires IsType(t)
  {
    match t
    case ScalarT(_) => 1
    case VecT(_, n) => n
    case MatT(_, r, c) => r * c
    case ArrayT(e, n) => n * FfiSize(e)
  }

  /** `FFI::Primitive`: the scalar type every component has. */
  function Primitive(t: GlslType): (p: Scalar)
    requires IsType(t)
    ensures IsScalarType(p)
  {
    match t
    case ScalarT(s) => s
    case VecT(s, _) => s
    case MatT(s, _, _) => s
    case ArrayT(e, _) => Primitive(e)
  }

  /** `marker::Subtype`: `Scalar`, `Vector`, `Matrix` and `Array<S>`. */
  datatype Subtype = SubScalar | SubVector | SubMatrix | SubArray(of: Subtype)

  /** `Type::Subtype`; the subtype of `Array<T, N>` is `Array<T::Subtype>`. */
  function SubtypeOf(t: GlslType): Subtype
    requires IsType(t)
  {
    match t
    case ScalarT(_) => SubScalar
    case VecT(_, _) => SubVector
    case MatT(_, _, _) => SubMatrix
    case ArrayT(e, _) => SubArray(SubtypeOf(e))
  }

  /** Array nesting depth of a subtype, and of a type. */
  function SubtypeDepth(st: Subtype): nat
  {
    match st
    case SubArray(inner) => 1 + SubtypeDepth(inner)
    case _ => 0
  }

  function ArrayDepth(t: GlslType): nat
  {
    match t
    case ArrayT(e, _) => 1 + ArrayDepth(e)
    case _ => 0
  }

  /** No array in `t` has length 0. */
  predicate NoEmptyArray(t: GlslType)
  {
    match t
    case ArrayT(e, n) => n > 0 && NoEmptyArray(e)
    case _ => true
  }

  /** The number of components of `t`: the product of all its extents. */
  function Components(t: GlslType): nat
  {
    match t
    case ScalarT(_) => 1
    case VecT(_, n) => n
    case MatT(_, r, c) => r * c
    case ArrayT(e, n) => n * Components(e)
    case Unimplemented => 0
  }

  /**
   * Reference rule of The OpenGL Shading Language 4.60, section 4.4.1: a
   * scalar or a vector takes one location, except that `dvec3` and `dvec4`
   * take two; an array of N elements takes N times its element; a matrix
   * takes as many locations as an array of its column vectors (in the Rust
   * naming, R vectors of C components).
   */
  function StandardLocations(t: GlslType): nat
  {
    match t
    case ScalarT(_) => 1
    case VecT(s, n) => if s == F64 && n >= 3 then 2 else 1
    case MatT(s, r, c) => r * (if s == F64 && c >= 3 then 2 else 1)
    case ArrayT(e, n) => n * StandardLocations(e)
    case Unimplemented => 0
  }

  // ---------------------------------------------------------------------
  // Properties

  /** Vector and matrix extents of a valid type are 2, 3 or 4. */
  lemma TypeExtents(t: GlslType)
    requires IsType(t)
    ensures t.VecT? ==> 2 <= t.n <= 4 && t.s != Bool
    ensures t.MatT? ==> 2 <= t.r <= 4 && 2 <= t.c <= 4 && (t.s == F32 || t.s == F64)
  {
  }

  /** The FFI size of a valid type is its number of components. */
  lemma {:induction false} FfiSizeIsComponents(t: GlslType)
    requires IsType(t)
    ensures FfiSize(t) == Components(t)
  {
    if t.ArrayT? { FfiSizeIsComponents(t.elem); }
  }

  /** A valid type has at least one component iff none of its arrays is empty. */
  lemma {:induction false} FfiSizePositive(t: GlslType)
    requires IsType(t)
    ensures FfiSize(t) > 0 <==> NoEmptyArray(t)
  {
    if t.ArrayT? { FfiSizePositive(t.elem); }
  }

  /** An array's subtype records exactly one `Array` wrapper per array level. */
  lemma {:induction false} SubtypeDepthIsArrayDepth(t: GlslType)
    requires IsType(t)
    ensures SubtypeDepth(SubtypeOf(t)) == ArrayDepth(t)
    ensures ArrayDepth(t) == 0 <==> !SubtypeOf(t).SubArray?
  {
    if t.ArrayT? { SubtypeDepthIsArrayDepth(t.elem); }
  }

  /** Arrays inherit size and primitive from their element type. */
  lemma ArrayOfType(t: GlslType, n: nat)
    requires IsType(t)
    ensures IsType(ArrayT(t, n))
    ensures FfiSize(ArrayT(t, n)) == n * FfiSize(t)
    ensures Primitive(ArrayT(t, n)) == Primitive(t)
    ensures SubtypeOf(ArrayT(t, n)) == SubArray(SubtypeOf(t))
  {
  }
}
