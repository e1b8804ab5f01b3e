/**
 * Location counts of GLSL types (`glsl::location`, trait `Location` with
 * `N_USED_LOCATIONS`). A type without an impl has no count; a count that
 * the Rust code computes with `panic!` is `None`.
 */
module Location {
  import opened Wrappers
  import opened Glsl
  import opened Valid

  /**
   * `Location<Vector<DIM>>` of a component type: 1 for `f32`, `i32` and
   * `u32` at every DIM; for `f64` 1 at DIM 2, 2 at DIM 3 or 4, and a
   * compile-time panic at any other DIM.
   */
  function VectorLocations(s: Scalar, dim: nat): (r: Option<nat>)
    requires HasVectorLocationImpl(s)
    ensures r.None? <==> s == F64 && !VecDim(dim)
    ensures r == Some(2) <==> s == F64 && (dim == 3 || dim == 4)
    ensures r.Some? ==> r.value == 1 || r.value == 2
  {
    if s == F64 then
      if dim == 2 then Some(1) else if dim == 3 || dim == 4 then Some(2) else None
    else
      Some(1)
  }

  /**
   * The types with a `Location` impl: the four scalars, `GVec<T, DIM>` with
   * `T: ForVector<DIM>`, `Array<T, N>` with `T: Type + Location`, and
   * `Mat<T, R, C>` with `T: ForMatrix<R, C>`.
   */
  predicate HasLocation(t: GlslType)
  {
    match t
    case ScalarT(s) => HasVectorLocationImpl(s)
    case VecT(s, dim) => ForVector(s, dim)
    case ArrayT(e, _) => IsType(e) && HasLocation(e)
    case MatT(s, r, c) => ForMatrix(s, r, c)
    case Unimplemented => false
  }

  /**
   * `N_USED_LOCATIONS`: 1 for a scalar, the component's vector count for a
   * `GVec`, `T::N_USED_LOCATIONS * N` for an array, and the count of
   * `Array<GVec<T, C>, R>` for a matrix.
   */
  function NUsedLocations(t: GlslType): (n: nat)
    requires HasLocation(t)
    ensures n == StandardLocations(t)
    decreases Height(t)
  {
    match t
    case ScalarT(_) => 1
    case VecT(s, dim) => VectorLocations(s, dim).value
    case ArrayT(e, n) => NUsedLocations(e) * n
    case MatT(s, r, c) =>
      assert IsType(VecT(s, c)) && HasLocation(VecT(s, c));
      NUsedLocations(ArrayT(VecT(s, c), r))
  }

  /** A termination measure under which a matrix sits above an array of its rows. */
  function Height(t: GlslType): nat
  {
    match t
    case ArrayT(e, _) => 1 + Height(e)
    case MatT(_, _, _) => 3
    case _ => 1
  }

  // ---------------------------------------------------------------------
  // Properties

  /** Every type with a location count is a valid GLSL type. */
  lemma {:induction false} LocationIsType(t: GlslType)
    requires HasLocation(t)
    ensures IsType(t)
  {
    if t.ArrayT? { LocationIsType(t.elem); }
  }

  /** A type without empty arrays uses at least one location. */
  lemma {:induction false} LocationsPositive(t: GlslType)
    requires HasLocation(t) && NoEmptyArray(t)
    ensures NUsedLocations(t) >= 1
  {
    if t.ArrayT? { LocationsPositive(t.elem); }
  }

  /** `Mat<f64, 4, 4>` uses 4 * 2 = 8 locations, and `Mat<f32, 4, 4>` uses 4. */
  lemma MatrixExamples()
    ensures NUsedLocations(MatT(F64, 4, 4)) == 8
    ensures NUsedLocations(MatT(F32, 4, 4)) == 4
    ensures NUsedLocations(MatT(F64, 3, 2)) == 3
  {
  }
}
