/**
 * Shaders with an entry point (`Main`) and library shaders (`Lib`,
 * `Shared`), as `src/gl/shader/main.rs`, `src/object/shader/main.rs`,
 * `src/gl/shader/lib.rs` and `src/object/shader/shared.rs` define them.
 *
 * A `Main` records in its type the input and output parameters of its
 * entry point and the uniforms it declares; the value is only the compiled
 * shader. The model keeps the lists beside the shader.
 */
module ShaderMain {
  import opened HList
  import opened Glsl
  import opened Interface
  import opened Shader

  datatype Main = Main(shader: Shader, ins: LList<Variable>, outs: LList<Variable>, uniforms: LList<Variable>)

  /** `InParameterBinding<T, LOCATION>` with `T: glsl::Type`. */
  predicate IsInParameter(v: Variable)
  {
    v.storage == In && v.layout.AtLocation? && IsType(v.ty)
  }

  /** `OutParameterBinding<T, LOCATION>` with `T: glsl::Type`. */
  predicate IsOutParameter(v: Variable)
  {
    v.storage == Out && v.layout.AtLocation? && IsType(v.ty)
  }

  predicate AllIn(l: LList<Variable>)
  {
    forall i :: 0 <= i < |LElems(l)| ==> IsInParameter(LElems(l)[i])
  }

  predicate AllOut(l: LList<Variable>)
  {
    forall i :: 0 <= i < |LElems(l)| ==> IsOutParameter(LElems(l)[i])
  }

  /**
   * `Main::new`: wraps the compiled shader; the parameter and uniform lists
   * are the ones the caller's type names.
   */
  function New(s: Shader, ins: LList<Variable>, outs: LList<Variable>, uniforms: LList<Variable>): (m: Main)
    requires s.compiled
    ensures m.shader == s && m.ins == ins && m.outs == outs && m.uniforms == uniforms
  {
    Main(s, ins, outs, uniforms)
  }

  /** `into_main` (src/gl/shader/mod.rs): no parameters yet, and the shader's own uniform declarations. */
  function IntoMain(s: Shader): (m: Main)
    requires s.compiled
    ensures m.shader == s && m.ins == LNil && m.outs == LNil && m.uniforms == s.decls
  {
    New(s, LNil, LNil, s.decls)
  }

  /** `input`: one more input at the end; outputs, uniforms and shader unchanged. */
  function Input(m: Main, v: Variable): (r: Main)
    requires IsInParameter(v)
    ensures LElems(r.ins) == LElems(m.ins) + [v]
    ensures r.outs == m.outs && r.uniforms == m.uniforms && r.shader == m.shader
  {
    m.(ins := LAppend(m.ins, v))
  }

  /** `output`: one more output at the end; inputs, uniforms and shader unchanged. */
  function Output(m: Main, v: Variable): (r: Main)
    requires IsOutParameter(v)
    ensures LElems(r.outs) == LElems(m.outs) + [v]
    ensures r.ins == m.ins && r.uniforms == m.uniforms && r.shader == m.shader
  {
    m.(outs := LAppend(m.outs, v))
  }

  /** `inputs`: a whole list concatenated onto the inputs. */
  function Inputs(m: Main, l: LList<Variable>): (r: Main)
    requires AllIn(l)
    ensures LElems(r.ins) == LElems(m.ins) + LElems(l)
    ensures r.outs == m.outs && r.uniforms == m.uniforms && r.shader == m.shader
  {
    m.(ins := LConcat(m.ins, l))
  }

  /** `outputs`: a whole list concatenated onto the outputs. */
  function Outputs(m: Main, l: LList<Variable>): (r: Main)
    requires AllOut(l)
    ensures LElems(r.outs) == LElems(m.outs) + LElems(l)
    ensures r.ins == m.ins && r.uniforms == m.uniforms && r.shader == m.shader
  {
    m.(outs := LConcat(m.outs, l))
  }

  /** Adding a list of inputs at once is adding them one by one. */
  lemma InputsSnoc(m: Main, l: LList<Variable>, v: Variable)
    requires AllIn(l) && IsInParameter(v)
    ensures AllIn(LAppend(l, v))
    ensures Inputs(m, LAppend(l, v)) == Input(Inputs(m, l), v)
  {
    var a := Inputs(m, LAppend(l, v));
    var b := Input(Inputs(m, l), v);
    assert LElems(a.ins) == LElems(b.ins);
    LElemsInjective(a.ins, b.ins);
  }

  /** Adding a list of outputs at once is adding them one by one. */
  lemma OutputsSnoc(m: Main, l: LList<Variable>, v: Variable)
    requires AllOut(l) && IsOutParameter(v)
    ensures AllOut(LAppend(l, v))
    ensures Outputs(m, LAppend(l, v)) == Output(Outputs(m, l), v)
  {
    var a := Outputs(m, LAppend(l, v));
    var b := Output(Outputs(m, l), v);
    assert LElems(a.outs) == LElems(b.outs);
    LElemsInjective(a.outs, b.outs);
  }

  /** Inputs and outputs are independent: declaring them in either order gives the same shader. */
  lemma InputOutputCommute(m: Main, i: Variable, o: Variable)
    requires IsInParameter(i) && IsOutParameter(o)
    ensures Output(Input(m, i), o) == Input(Output(m, o), i)
  {
  }

  /** `Lib` (src/gl/shader/lib.rs) and `Shared` (src/object/shader/shared.rs): a compiled shader to link against. */
  datatype Lib = Lib(shader: Shader, uniforms: LList<Variable>)

  /** `Lib::new` / `Shared::new` / `into_shared`: the same compiled shader, with its declarations. */
  function IntoShared(s: Shader): (l: Lib)
    requires s.compiled
    ensures l.shader == s && l.uniforms == s.decls
  {
    Lib(s, s.decls)
  }
}
