/**
 * Compatibility between Rust values and GLSL types (`glsl::compatible`):
 * the `compatible!` table, the two array rules, and the relation between
 * a list of vertex attributes and a list of shader inputs.
 */
module Compatible {
  import opened HList
  import opened Glsl
  import opened Ext
  import opened Interface

  /**
   * `GLSL::Layout`, the Rust array a GLSL type's data is laid out as: a
   * scalar is its own layout, `Vec<T, N>` is `[T; N]`, `Mat<T, R, C>` is
   * `[[T; C]; R]` (the layouts the glm impls name), and `Array<T, N>` is
   * `[T::Layout; N]`.
   */
  function GlslLayout(t: GlslType): (r: RustType)
    requires IsType(t)
    ensures IsExtArray(r)
  {
    match t
    case ScalarT(s) => RScalar(s)
    case VecT(s, n) => RArray(RScalar(s), n)
    case MatT(s, r, c) => RArray(RArray(RScalar(s), c), r)
    case ArrayT(e, n) => RArray(GlslLayout(e), n)
  }

  /**
   * `ffi::FFI<Layout = GLSL::Layout>` with `GLSL: glsl::Type`: `gl`
   * implements `FFI` (the four scalars and `[S; N]` of an `FFI` type, each
   * its own layout; nothing implements it for `&T`), and that layout is
   * the GLSL type's.
   */
  predicate SameLayout(gl: RustType, glsl: GlslType)
  {
    IsExtArray(gl) && IsType(glsl) && gl == GlslLayout(glsl)
  }

  /**
   * `Compatible<GLSL> for GL`: the supertrait's equal layouts, and one of
   * the impls:
   *  - `f32`, `f64`, `i32`, `u32` with themselves;
   *  - `[S; N]` with the N-vector of S, for S in `f32`, `i32`, `u32`, `f64` and N in 2..4;
   *  - `[[S; C]; R]` with `Mat<S, R, C>`, for S in `f32`, `f64`;
   *  - `&GL` with `Array<GLSL, N>` for every N, when GL is compatible with GLSL;
   *  - `[GL; N]` with `Array<GLSL, N>`, when GL is compatible with GLSL.
   */
  predicate Compatible(gl: RustType, glsl: GlslType)
    decreases gl, 1
  {
    SameLayout(gl, glsl)
    && (TableImpl(gl, glsl) || RefImpl(gl, glsl) || ArrayImpl(gl, glsl))
  }

  /** The `compatible!` table: the scalars, vectors and matrices. */
  predicate TableImpl(gl: RustType, glsl: GlslType)
  {
    (gl.RScalar? && glsl == ScalarT(gl.s) && IsScalarType(gl.s))
    || (gl.RArray? && gl.elem.RScalar? && glsl == VecT(gl.elem.s, gl.len)
        && IsScalarType(gl.elem.s) && VecSize(gl.len))
    || (gl.RArray? && gl.elem.RArray? && gl.elem.elem.RScalar?
        && glsl == MatT(gl.elem.elem.s, gl.len, gl.elem.len)
        && (gl.elem.elem.s == F32 || gl.elem.elem.s == F64) && VecSize(gl.len) && VecSize(gl.elem.len))
  }

  /** The where-clause of `Compatible<Array<GLSL, N>> for &GL`. */
  predicate RefImpl(gl: RustType, glsl: GlslType)
    decreases gl, 0
  {
    gl.RRef? && glsl.ArrayT? && IsType(glsl.elem) && Compatible(gl.target, glsl.elem)
  }

  /** The where-clause of `Compatible<Array<GLSL, N>> for [GL; N]`. */
  predicate ArrayImpl(gl: RustType, glsl: GlslType)
    decreases gl, 0
  {
    gl.RArray? && glsl.ArrayT? && glsl.len == gl.len && IsType(glsl.elem) && Compatible(gl.elem, glsl.elem)
  }

  // ---------------------------------------------------------------------
  // Vertex attributes against shader inputs

  /** `AttributeDecl<A, ATTRIBUTE_INDEX>`: a declared vertex attribute of Rust type A. */
  datatype AttributeDecl = AttributeDecl(ty: RustType, index: nat)

  /**
   * The input an attribute at index k feeds, `InParameterBinding<P, k>`,
   * under the bounds `A: ffi::FFI<Layout = P::Layout>`, `A: Compatible<P>`
   * and `P: glsl::Type`.
   */
  predicate Feeds(a: AttributeDecl, p: Variable)
  {
    p.storage == In && p.layout == AtLocation(a.index) && IsType(p.ty)
    && SameLayout(a.ty, p.ty) && Compatible(a.ty, p.ty)
  }

  /**
   * `hlist::Compatible`: `()` with `()`, and `(AS, A)` with `(PS, P)` when
   * A feeds P at the same index and AS is compatible with PS.
   */
  predicate CompatibleList(attrs: LList<AttributeDecl>, inputs: LList<Variable>)
  {
    match (attrs, inputs)
    case (LNil, LNil) => true
    case (LCons(as_, a), LCons(ps, p)) => Feeds(a, p) && CompatibleList(as_, ps)
    case _ => false
  }

  // ---------------------------------------------------------------------
  // Properties

  /** A GLSL type's layout holds as many scalars as the type, all of its primitive. */
  lemma {:induction false} LayoutMeasures(t: GlslType)
    requires IsType(t)
    ensures Size(GlslLayout(t)) == FfiSize(t)
    ensures Base(GlslLayout(t)) == Primitive(t)
  {
    if t.ArrayT? {
      LayoutMeasures(t.elem);
    }
  }

  /**
   * Compatibility means matching layouts: the Rust side is an `FFI` array
   * and the GLSL side a valid type with the same number of components and
   * the same primitive.
   */
  lemma CompatibleLayout(gl: RustType, glsl: GlslType)
    requires Compatible(gl, glsl)
    ensures IsExtArray(gl) && IsType(glsl)
    ensures Size(gl) == FfiSize(glsl)
    ensures Base(gl) == Primitive(glsl)
  {
    LayoutMeasures(glsl);
  }

  /**
   * The impls admit exactly the pairs whose layouts match: every valid
   * GLSL type has one compatible Rust type, its layout.
   */
  lemma {:induction false} CompatibleIffSameLayout(gl: RustType, glsl: GlslType)
    ensures Compatible(gl, glsl) <==> SameLayout(gl, glsl)
  {
    if SameLayout(gl, glsl) && glsl.ArrayT? {
      CompatibleIffSameLayout(gl.elem, glsl.elem);
    }
  }

  /** Only valid GLSL types have a compatible Rust type. */
  lemma {:induction false} CompatibleIsType(gl: RustType, glsl: GlslType)
    requires Compatible(gl, glsl)
    ensures IsType(glsl)
  {
  }

  /** The table gives every vector and matrix its unique Rust counterpart. */
  lemma TableEntries(s: Scalar, r: nat, c: nat)
    requires VecSize(r) && VecSize(c)
    ensures Compatible(RArray(RScalar(s), r), VecT(s, r)) <==> s != Bool
    ensures Compatible(RArray(RArray(RScalar(s), c), r), MatT(s, r, c)) <==> (s == F32 || s == F64)
    ensures !Compatible(RArray(RScalar(s), c), VecT(s, r)) || r == c
  {
  }

  /**
   * No reference implements `ffi::FFI`, so the `&GL` impl admits no pair:
   * a reference is compatible with nothing, not even an array of what it
   * refers to.
   */
  lemma RefRuleAdmitsNothing(t: RustType, glsl: GlslType)
    ensures !Compatible(RRef(t), glsl)
    ensures !Compatible(RRef(RScalar(F32)), ArrayT(ScalarT(F32), 3))
  {
  }

  /**
   * Attribute lists and input lists are compatible iff they have the same
   * length and each attribute feeds the input at its position, at the same
   * index.
   */
  lemma {:induction false} CompatibleListIff(attrs: LList<AttributeDecl>, inputs: LList<Variable>)
    ensures CompatibleList(attrs, inputs) <==>
              |LElems(attrs)| == |LElems(inputs)|
              && forall i :: 0 <= i < |LElems(attrs)| ==> Feeds(LElems(attrs)[i], LElems(inputs)[i])
  {
    match (attrs, inputs)
    case (LNil, LNil) =>
    case (LCons(as_, a), LCons(ps, p)) =>
      CompatibleListIff(as_, ps);
      var sa, sp := LElems(as_), LElems(ps);
      assert LElems(attrs) == sa + [a] && LElems(inputs) == sp + [p];
      if |LElems(attrs)| == |LElems(inputs)| && forall i :: 0 <= i < |LElems(attrs)| ==> Feeds(LElems(attrs)[i], LElems(inputs)[i]) {
        assert Feeds(LElems(attrs)[|sa|], LElems(inputs)[|sp|]);
        forall i | 0 <= i < |sa| ensures Feeds(sa[i], sp[i]) {
          assert Feeds(LElems(attrs)[i], LElems(inputs)[i]);
        }
      }
      if CompatibleList(attrs, inputs) {
        forall i | 0 <= i < |LElems(attrs)| ensures Feeds(LElems(attrs)[i], LElems(inputs)[i]) {
          if i < |sa| {
            assert LElems(attrs)[i] == sa[i] && LElems(inputs)[i] == sp[i];
          }
        }
      }
    case (LNil, LCons(_, _)) =>
    case (LCons(_, _), LNil) =>
  }

  /**
   * Inputs fed by a compatible attribute list at strictly increasing
   * indices that leave room for each input's locations form a valid
   * `glsl::binding` input list.
   */
  lemma {:induction false} FedInputsValid(attrs: LList<AttributeDecl>, inputs: LList<Variable>)
    requires CompatibleList(attrs, inputs) && inputs.LCons?
    requires |LElems(attrs)| == |LElems(inputs)|
    requires forall i :: 0 <= i < |LElems(inputs)| - 1 ==>
               LElems(attrs)[i].index + StandardLocations(LElems(inputs)[i].ty) <= LElems(attrs)[i + 1].index
    ensures ConstFnValid(BindingTable, inputs)
  {
    CompatibleListIff(attrs, inputs);
    ConstFnValidIffAdjacent(BindingTable, inputs);
    var s := LElems(inputs);
    forall i | 0 <= i < |s| - 1 ensures PairValid(BindingTable, s[i], s[i + 1]) {
      assert Feeds(LElems(attrs)[i], s[i]) && Feeds(LElems(attrs)[i + 1], s[i + 1]);
      assert SlotCount(BindingTable, s[i].ty).Some? && SlotCount(BindingTable, s[i + 1].ty).Some?;
    }
  }
}
