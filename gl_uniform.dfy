/**
 * Uniform definitions, declarations and their matching, as
 * `src/gl/uniform.rs` writes them.
 *
 * Definitions carry values; declarations are what shaders say they use.
 * Both are left-folded lists. A `Matcher` holds the program's definitions
 * and the declarations of the shader being attached, and `bind` discharges
 * those declarations one at a time, from the last one backwards.
 */
module GlUniform {
  import opened Wrappers
  import opened HList
  import opened Glsl
  import opened Ext
  import Compatible
  import opened Interface

  /** `Definition<U, LOCATION>`: a uniform's GLSL type, its location and its flattened value. */
  datatype Definition = Definition(ty: GlslType, location: nat, value: seq<int>)

  /** `UniformBinding<U, LOCATION>`: a uniform variable of a type at a location. */
  predicate IsUniformBinding(v: Variable)
  {
    v.storage == Uniform && v.layout.AtLocation? && IsType(v.ty)
  }

  /**
   * `Definition::new`: the Rust value `flat`, of a type `gl` compatible with
   * `ty`, is stored as its flat slice, so the definition holds exactly as
   * many scalars as the GLSL type has components.
   */
  function NewDefinition(gl: RustType, ty: GlslType, location: nat, flat: seq<int>): (d: Definition)
    requires Compatible.Compatible(gl, ty) && |flat| == Size(gl)
    ensures d.ty == ty && d.location == location && d.value == flat
    ensures |d.value| == FfiSize(ty)
  {
    Compatible.CompatibleLayout(gl, ty);
    Definition(ty, location, flat)
  }

  /** `Definitions::define`: a new definition at the end; the earlier ones unchanged. */
  function Define(defs: LList<Definition>, binding: Variable, gl: RustType, flat: seq<int>): (r: LList<Definition>)
    requires IsUniformBinding(binding)
    requires Compatible.Compatible(gl, binding.ty) && |flat| == Size(gl)
    ensures LElems(r) == LElems(defs) + [Definition(binding.ty, binding.layout.n, flat)]
  {
    LAppend(defs, NewDefinition(gl, binding.ty, binding.layout.n, flat))
  }

  /** The binding a definition stands for: same type, same location. */
  function BindingOf(d: Definition): Variable
  {
    Variable(Uniform, AtLocation(d.location), d.ty)
  }

  /** `Definitions::AsDeclarations`: one binding per definition, in the same order. */
  function AsDeclarations(defs: LList<Definition>): (r: LList<Variable>)
    ensures |LElems(r)| == |LElems(defs)|
    ensures forall i :: 0 <= i < |LElems(defs)| ==>
              LElems(r)[i] == Variable(Uniform, AtLocation(LElems(defs)[i].location), LElems(defs)[i].ty)
  {
    match defs
    case LNil => LNil
    case LCons(init, d) => LCons(AsDeclarations(init), BindingOf(d))
  }

  /** Defining a uniform adds exactly its binding to the declarations it stands for. */
  lemma DefineAsDeclarations(defs: LList<Definition>, binding: Variable, gl: RustType, flat: seq<int>)
    requires IsUniformBinding(binding)
    requires Compatible.Compatible(gl, binding.ty) && |flat| == Size(gl)
    ensures AsDeclarations(Define(defs, binding, gl, flat)) == LAppend(AsDeclarations(defs), binding)
  {
    var a := AsDeclarations(Define(defs, binding, gl, flat));
    var b := LAppend(AsDeclarations(defs), binding);
    assert LElems(a) == LElems(b);
    LElemsInjective(a, b);
  }

  // ---------------------------------------------------------------------
  // Declarations

  /** `Declarations<M, Decls>`: a list of bindings, mutable while a shader is built. */
  datatype Declarations = Declarations(mutable: bool, list: LList<Variable>)

  /** `declare`: one more binding at the end. */
  function Declare(d: Declarations, v: Variable): (r: Declarations)
    requires d.mutable && IsUniformBinding(v)
    ensures r.mutable && LElems(r.list) == LElems(d.list) + [v]
  {
    d.(list := LAppend(d.list, v))
  }

  /** `into_immutable`: the same list, frozen. */
  function IntoImmutable(d: Declarations): (r: Declarations)
    requires d.mutable
    ensures !r.mutable && r.list == d.list
  {
    Declarations(false, d.list)
  }

  /**
   * `Declarations::bind`: only on a frozen non-empty list, and only with the
   * last binding; that binding is removed.
   */
  function BindLast(d: Declarations, b: Variable): (r: Declarations)
    requires !d.mutable && d.list.LCons? && d.list.last == b
    ensures !r.mutable && LElems(r.list) + [b] == LElems(d.list)
  {
    Declarations(false, d.list.init)
  }

  // ---------------------------------------------------------------------
  // Matching

  datatype Matcher = Matcher(definitions: LList<Definition>, declarations: Declarations)

  /** `Matcher::set_definitions` / `Matcher::new`: the definitions and nothing to match yet. */
  function NewMatcher(defs: LList<Definition>): (m: Matcher)
    ensures m.definitions == defs && !m.declarations.mutable && m.declarations.list == LNil
  {
    Matcher(defs, Declarations(false, LNil))
  }

  /** `set_declarations`: only when nothing is left to match; the definitions stay. */
  function SetDeclarations(m: Matcher, d: Declarations): (r: Matcher)
    requires m.declarations.list == LNil && d.mutable
    ensures r.definitions == m.definitions && r.declarations == IntoImmutable(d)
  {
    m.(declarations := IntoImmutable(d))
  }

  /** `Defs: Find<Definition<U, LOCATION>, IDX>`: some definition has the binding's type and location. */
  predicate Defines(defs: LList<Definition>, b: Variable)
  {
    exists k :: 0 <= k < LLength(defs) && BindingOf(LFind(defs, k)) == b
  }

  /** The bounds of `Matcher::bind`: `b` is the last pending declaration and it is defined. */
  predicate CanBind(m: Matcher, b: Variable)
  {
    !m.declarations.mutable && m.declarations.list.LCons? && m.declarations.list.last == b
    && Defines(m.definitions, b)
  }

  /** `Matcher::bind`: the last pending declaration is discharged; the definitions stay. */
  function Bind(m: Matcher, b: Variable): (r: Matcher)
    requires CanBind(m, b)
    ensures r.definitions == m.definitions && !r.declarations.mutable
    ensures LElems(r.declarations.list) + [b] == LElems(m.declarations.list)
  {
    m.(declarations := BindLast(m.declarations, b))
  }

  /** A sequence of `bind` calls; `None` where one of them would not type-check. */
  function BindAll(m: Matcher, bs: seq<Variable>): Option<Matcher>
    decreases |bs|
  {
    if bs == [] then Some(m)
    else if CanBind(m, bs[0]) then BindAll(Bind(m, bs[0]), bs[1..])
    else None
  }

  /**
   * The pending declarations are fully matched by a sequence of binds exactly
   * when the sequence is the declarations in reverse order, each of them
   * defined; the definitions are never touched.
   */
  lemma {:induction false} BindAllIff(m: Matcher, bs: seq<Variable>)
    requires !m.declarations.mutable
    ensures (BindAll(m, bs).Some? && BindAll(m, bs).value.declarations.list == LNil)
            <==> (bs == Rev(LElems(m.declarations.list)) && forall i :: 0 <= i < |bs| ==> Defines(m.definitions, bs[i]))
    ensures BindAll(m, bs).Some? ==> BindAll(m, bs).value.definitions == m.definitions
    ensures BindAll(m, bs).Some? ==> !BindAll(m, bs).value.declarations.mutable
    decreases |bs|
  {
    var l := m.declarations.list;
    if bs == [] {
      if l.LCons? {
        assert |LElems(l)| > 0;
        RevLength(LElems(l));
      }
    } else if CanBind(m, bs[0]) {
      var m' := Bind(m, bs[0]);
      BindAllIff(m', bs[1..]);
      assert LElems(l) == LElems(l.init) + [l.last];
      assert Rev(LElems(l)) == [l.last] + Rev(LElems(l.init));
      assert m'.declarations.list == l.init;
      if bs == Rev(LElems(l)) {
        assert bs[1..] == Rev(LElems(l.init));
      }
      if bs[1..] == Rev(LElems(l.init)) {
        assert bs == [bs[0]] + bs[1..];
      }
      assert forall i :: 0 <= i < |bs| - 1 ==> bs[1..][i] == bs[i + 1];
    } else {
      RevLength(LElems(l));
    }
  }
}
