/**
 * Location counts of `glsl::layout` (trait `Layout` with
 * `LOCATION_COUNT`), over the types of `glsl::types`, where a matrix is a
 * vector of vectors. Unlike `glsl::location`, this table also covers
 * `bool`, `bvec` and the `Unimplemented` placeholder.
 */
module Layout {
  import opened Glsl
  import Location

  /**
   * The types with a `Layout` impl: `Unimplemented`, the five scalars,
   * vectors of any component at a legal size, `Array<T, N>` of a type with
   * a layout, and `Mat<T, ROW, COL>` where T and `Vec<T, COL>` have one.
   */
  predicate HasLayout(t: GlslType)
    decreases Location.Height(t)
  {
    match t
    case Unimplemented => true
    case ScalarT(_) => true
    case VecT(_, n) => VecSize(n)
    case ArrayT(e, _) => HasLayout(e)
    case MatT(s, r, c) => HasLayout(ScalarT(s)) && VecSize(r) && VecSize(c) && HasLayout(VecT(s, c))
  }

  /**
   * `LOCATION_COUNT`: 0 for `Unimplemented`; 1 for a scalar and for vec,
   * ivec, uvec and bvec; for dvec a match on the size (2 gives 1, 3 or 4
   * give 2, anything else panics, which `VecSize` rules out);
   * `T::LOCATION_COUNT * N` for an array; and the count of
   * `Array<Vec<T, COL>, ROW>` for a matrix.
   */
  function LocationCount(t: GlslType): (n: nat)
    requires HasLayout(t)
    ensures n == 0 <==> Components(t) == 0
    decreases Location.Height(t)
  {
    match t
    case Unimplemented => 0
    case ScalarT(_) => 1
    case VecT(s, size) =>
      if s == F64 then
        // `VecSize` leaves 2, 3 and 4, so the panicking arm is unreachable
        if size == 2 then 1 else 2
      else 1
    case ArrayT(e, n) => LocationCount(e) * n
    case MatT(s, r, c) =>
      assert Location.Height(ArrayT(VecT(s, c), r)) == 2;
      LocationCount(ArrayT(VecT(s, c), r))
  }

  /** Some part of `t` is the `Unimplemented` placeholder. */
  predicate ContainsUnimplemented(t: GlslType)
  {
    match t
    case Unimplemented => true
    case ArrayT(e, _) => ContainsUnimplemented(e)
    case _ => false
  }

  // ---------------------------------------------------------------------
  // Properties

  /**
   * Apart from the placeholder, `glsl::layout` follows the location rule
   * of The OpenGL Shading Language 4.60, section 4.4.1.
   */
  lemma {:induction false} LayoutIsStandard(t: GlslType)
    requires HasLayout(t) && !ContainsUnimplemented(t)
    ensures LocationCount(t) == StandardLocations(t)
    decreases Location.Height(t)
  {
    match t
    case ScalarT(_) =>
    case VecT(_, _) =>
    case ArrayT(e, _) => LayoutIsStandard(e);
    case MatT(s, r, c) =>
      assert Location.Height(ArrayT(VecT(s, c), r)) == 2;
      LayoutIsStandard(ArrayT(VecT(s, c), r));
  }

  /** Every `glsl::Type` has a `LOCATION_COUNT`, and it follows the standard rule. */
  lemma {:induction false} TypeHasLayout(t: GlslType)
    requires IsType(t)
    ensures HasLayout(t) && !ContainsUnimplemented(t)
    ensures LocationCount(t) == StandardLocations(t)
  {
    if t.ArrayT? { TypeHasLayout(t.elem); }
    LayoutIsStandard(t);
  }

  /**
   * `glsl::location` and `glsl::layout` agree: every type with a
   * `N_USED_LOCATIONS` has a `LOCATION_COUNT`, and the two are equal.
   */
  lemma {:induction false} LocationAgreesWithLayout(t: GlslType)
    requires Location.HasLocation(t)
    ensures HasLayout(t) && !ContainsUnimplemented(t)
    ensures LocationCount(t) == Location.NUsedLocations(t)
  {
    if t.ArrayT? { LocationAgreesWithLayout(t.elem); }
    LayoutIsStandard(t);
  }

  /**
   * `bool` and `bvec` have a layout but no location impl, and the
   * placeholder uses no location at all, even inside an array.
   */
  lemma LayoutOnly(n: nat, k: nat)
    requires VecSize(n)
    ensures HasLayout(VecT(Bool, n)) && !Location.HasLocation(VecT(Bool, n))
    ensures HasLayout(ScalarT(Bool)) && !Location.HasLocation(ScalarT(Bool))
    ensures LocationCount(ArrayT(Unimplemented, k)) == 0
  {
  }

  /** dvec2 uses 1 location, dvec3 and dvec4 use 2, and `DMat4x4` uses 8. */
  lemma DoubleExamples()
    ensures LocationCount(VecT(F64, 2)) == 1
    ensures LocationCount(VecT(F64, 3)) == 2 && LocationCount(VecT(F64, 4)) == 2
    ensures LocationCount(MatT(F64, 4, 4)) == 8
    ensures LocationCount(MatT(I32, 3, 2)) == 3
  {
  }
}
