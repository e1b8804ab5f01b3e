/**
 * Uniform definitions and their matching against shader declarations, as
 * `src/object/program/uniform.rs` writes them.
 *
 * Here the pending (unmatched) declarations are a right-folded list, the
 * inverse of the shader's left-folded declaration list, and `match_uniform`
 * discharges its head, so declarations are matched in the order they were
 * declared.
 */
module ObjectUniform {
  import opened Wrappers
  import opened HList
  import opened Glsl
  import opened Ext
  import Compatible
  import opened Interface

  /** `Definition<GLU, GLSLU, LOCATION>`: a Rust value type, the GLSL type it feeds and its location. */
  datatype Definition = Definition(gl: RustType, ty: GlslType, location: nat)

  /** `marker::Definitions`: every definition's Rust type is compatible with its GLSL type. */
  predicate AllCompatible(values: LList<Definition>)
  {
    forall i :: 0 <= i < |LElems(values)| ==> Compatible.Compatible(LElems(values)[i].gl, LElems(values)[i].ty)
  }

  /** `Definitions { values, locations }`. */
  datatype Definitions = Definitions(values: LList<Definition>, locations: seq<nat>)

  /** `Definitions::new`: no values and no locations. */
  function NewDefinitions(): (d: Definitions)
    ensures LElems(d.values) == [] && d.locations == [] && AllCompatible(d.values)
  {
    Definitions(LNil, [])
  }

  /** A uniform declaration `Declaration<U, LOCATION>`, written as its variable. */
  predicate IsDeclaration(v: Variable)
  {
    v.storage == Uniform && v.layout.AtLocation? && IsType(v.ty)
  }

  /**
   * `Definitions::define`: one more definition at the end; `locations` is
   * carried over unchanged. The value must be compatible with the GLSL type.
   */
  function Define(d: Definitions, gl: RustType, at: Variable): (r: Definitions)
    requires IsDeclaration(at) && Compatible.Compatible(gl, at.ty)
    ensures LElems(r.values) == LElems(d.values) + [Definition(gl, at.ty, at.layout.n)]
    ensures r.locations == d.locations
    ensures AllCompatible(d.values) ==> AllCompatible(r.values)
  {
    Definitions(LAppend(d.values, Definition(gl, at.ty, at.layout.n)), d.locations)
  }

  /** `Uniforms { definitions, declarations }`: the definitions and the declarations still to match. */
  datatype Uniforms = Uniforms(definitions: Definitions, unmatched: RList<Variable>)

  /** `Uniforms::default`: nothing defined, nothing to match. */
  function DefaultUniforms(): (u: Uniforms)
    ensures LElems(u.definitions.values) == [] && u.definitions.locations == [] && u.unmatched == RNil
  {
    Uniforms(NewDefinitions(), RNil)
  }

  /**
   * `Uniforms::new`: the given definitions. The pending list lives only in
   * the type, which the caller chooses, so it is a parameter here.
   */
  function NewUniforms(defs: Definitions, pending: RList<Variable>): (u: Uniforms)
    ensures u.definitions == defs && u.unmatched == pending
  {
    Uniforms(defs, pending)
  }

  /** `Uniforms::define` (only when nothing is pending): a new definition, still nothing pending. */
  function DefineUniform(u: Uniforms, gl: RustType, at: Variable): (r: Uniforms)
    requires u.unmatched == RNil && IsDeclaration(at) && Compatible.Compatible(gl, at.ty)
    ensures r.definitions == Define(u.definitions, gl, at) && r.unmatched == RNil
  {
    NewUniforms(Define(u.definitions, gl, at), RNil)
  }

  /** `add_unmatched` (only when nothing is pending): the same definitions and a new pending list. */
  function AddUnmatched(u: Uniforms, pending: RList<Variable>): (r: Uniforms)
    requires u.unmatched == RNil
    ensures r.definitions == u.definitions && r.unmatched == pending
  {
    NewUniforms(u.definitions, pending)
  }

  /** `DUS: Selector<Definition<GLU, HUUS, LOCATION>, IDX>`: some definition has this type and location. */
  predicate Selects(values: LList<Definition>, at: Variable)
  {
    exists k :: 0 <= k < LLength(values) && LFind(values, k).ty == at.ty && AtLocation(LFind(values, k).location) == at.layout
  }

  /** The bounds of `match_uniform`: `at` is the pending head and a definition selects it. */
  predicate CanMatch(u: Uniforms, at: Variable)
  {
    u.unmatched.RCons? && u.unmatched.head == at && Selects(u.definitions.values, at)
  }

  /** `match_uniform`: the head of the pending list is discharged; the definitions stay. */
  function MatchUniform(u: Uniforms, at: Variable): (r: Uniforms)
    requires CanMatch(u, at)
    ensures r.definitions == u.definitions
    ensures [at] + RElems(r.unmatched) == RElems(u.unmatched)
  {
    NewUniforms(u.definitions, u.unmatched.tail)
  }

  /** A sequence of `match_uniform` calls; `None` where one of them would not type-check. */
  function MatchAll(u: Uniforms, ats: seq<Variable>): Option<Uniforms>
    decreases |ats|
  {
    if ats == [] then Some(u)
    else if CanMatch(u, ats[0]) then MatchAll(MatchUniform(u, ats[0]), ats[1..])
    else None
  }

  /**
   * A sequence of matches empties the pending list exactly when it is the
   * pending list in order, each element selected by a definition.
   */
  lemma {:induction false} MatchAllIff(u: Uniforms, ats: seq<Variable>)
    ensures (MatchAll(u, ats).Some? && MatchAll(u, ats).value.unmatched == RNil)
            <==> (ats == RElems(u.unmatched) && forall i :: 0 <= i < |ats| ==> Selects(u.definitions.values, ats[i]))
    ensures MatchAll(u, ats).Some? ==> MatchAll(u, ats).value.definitions == u.definitions
    decreases |ats|
  {
    if ats != [] && CanMatch(u, ats[0]) {
      var u' := MatchUniform(u, ats[0]);
      MatchAllIff(u', ats[1..]);
      if ats[1..] == RElems(u'.unmatched) {
        assert ats == [ats[0]] + ats[1..];
      }
      assert forall i :: 0 <= i < |ats| - 1 ==> ats[1..][i] == ats[i + 1];
    }
  }

  /**
   * A shader's declarations `us` become pending as `us.invert()`, so the
   * matches that clear them are the declarations in declaration order.
   */
  lemma DeclarationOrder(u: Uniforms, us: LList<Variable>, ats: seq<Variable>)
    requires u.unmatched == RNil
    ensures (MatchAll(AddUnmatched(u, LInvert(us)), ats).Some? && MatchAll(AddUnmatched(u, LInvert(us)), ats).value.unmatched == RNil)
            <==> (ats == LElems(us) && forall i :: 0 <= i < |ats| ==> Selects(u.definitions.values, ats[i]))
  {
    MatchAllIff(AddUnmatched(u, LInvert(us)), ats);
  }
}
