/**
 * The older location table of `object::program::layout`. It has instances
 * for vec, ivec, uvec and bvec, for dvec2, dvec3 and dvec4 one by one, for
 * its own `Array<T, N>`, and for `Mat<T, Row, Col>` under the bound
 * `T: Layout`. There are no scalar instances.
 */
module ProgramLayout {
  import opened Glsl
  import Location
  import Layout

  /**
   * The types with an instance. A matrix needs its component type T to
   * have a layout, and no scalar has one, so no matrix does either.
   */
  predicate HasOldLayout(t: GlslType)
    decreases Location.Height(t)
  {
    match t
    case VecT(_, n) => VecSize(n)
    case ArrayT(e, _) => HasOldLayout(e)
    case MatT(s, r, c) => HasOldLayout(ScalarT(s)) && VecSize(r) && VecSize(c)
    case ScalarT(_) => false
    case Unimplemented => false
  }

  /**
   * `LOCATION_COUNT` of the older table. Only vectors and arrays have an
   * instance, so the matrix instance's count never arises.
   */
  function OldLocationCount(t: GlslType): (n: nat)
    requires HasOldLayout(t)
    ensures n == StandardLocations(t)
  {
    if t.VecT? then
      if t.s == F64 then
        if t.n == 2 then 1 else 2  // `DVec<2>`, then `DVec<3>` and `DVec<4>`
      else 1
    else
      OldLayoutShape(t);
      OldLocationCount(t.elem) * t.len
  }

  /** Only vectors and arrays have an instance in the older table. */
  lemma OldLayoutShape(t: GlslType)
    requires HasOldLayout(t)
    ensures t.VecT? || t.ArrayT?
  {
  }

  // ---------------------------------------------------------------------
  // Properties

  /** No matrix type (and no array of one) has an instance in the older table. */
  lemma {:induction false} NoOldMatrix(t: GlslType)
    requires t.MatT? || (t.ArrayT? && t.elem.MatT?)
    ensures !HasOldLayout(t)
  {
    var m := if t.MatT? then t else t.elem;
    assert !HasOldLayout(ScalarT(m.s));
  }

  /**
   * The older table agrees with `glsl::layout` on every type both define:
   * each type with an old instance has a new one with the same count.
   */
  lemma {:induction false} OldAgreesWithLayout(t: GlslType)
    requires HasOldLayout(t)
    ensures Layout.HasLayout(t) && !Layout.ContainsUnimplemented(t)
    ensures OldLocationCount(t) == Layout.LocationCount(t)
  {
    if t.ArrayT? { OldAgreesWithLayout(t.elem); }
    Layout.LayoutIsStandard(t);
  }
}
