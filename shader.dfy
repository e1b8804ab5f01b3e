/**
 * Shader objects: creation, uniform declarations, sources and compilation.
 *
 * `src/gl/shader/mod.rs` carries the uniform declarations of a shader in its
 * type and reads the info log as checked UTF-8; the two `internal.rs`
 * shaders declare no uniforms and take the log unchecked. The compilation
 * state of the type-state (`Uncompiled` / `Compiled`) is the `compiled` flag.
 */
module Shader {
  import opened Wrappers
  import opened HList
  import opened Interface
  import opened Driver
  import opened Object
  import opened InfoLog
  import Utf8
  import opened Stage

  /** A shader: its object, its target, whether it is compiled, and its declared uniforms. */
  datatype Shader = Shader(base: ObjectBase, target: Target, compiled: bool, decls: LList<Variable>)

  /**
   * `create` / `Shader::create` (all three files): a new uncompiled shader
   * with no declarations, whose object is one new shader name.
   */
  method Create(gl: Gl, target: Target) returns (s: Shader)
    modifies gl
    ensures fresh(s.base) && s.base.kind == ShaderObj && s.base.name == old(gl.State().next)
    ensures s.target == target && !s.compiled && s.decls == LNil
    ensures gl.trace == old(gl.trace) + [Driver.Create(ShaderObj, 1)]
  {
    var base := new ObjectBase.Default(gl, ShaderObj);
    s := Shader(base, target, false, LNil);
  }

  // ---------------------------------------------------------------------
  // Uniform declarations (src/gl/shader/mod.rs)

  /** `TransparentUniformVariable<U, LOCATION>`: a uniform at a location. */
  predicate IsUniformBinding(v: Variable)
  {
    v.storage == Uniform && v.layout.AtLocation?
  }

  predicate AllUniformBindings(l: LList<Variable>)
  {
    forall i :: 0 <= i < |LElems(l)| ==> IsUniformBinding(LElems(l)[i])
  }

  /** `uniform`: one more declaration at the end; object and state unchanged. */
  function DeclareUniform(s: Shader, v: Variable): (r: Shader)
    requires !s.compiled && IsUniformBinding(v)
    ensures r.base == s.base && r.target == s.target && !r.compiled
    ensures LElems(r.decls) == LElems(s.decls) + [v]
  {
    s.(decls := LAppend(s.decls, v))
  }

  /** `uniforms`: a whole list of declarations concatenated at the end. */
  function DeclareUniforms(s: Shader, l: LList<Variable>): (r: Shader)
    requires !s.compiled && AllUniformBindings(l)
    ensures r.base == s.base && r.target == s.target && !r.compiled
    ensures LElems(r.decls) == LElems(s.decls) + LElems(l)
  {
    s.(decls := LConcat(s.decls, l))
  }

  /** Declaring a list at once is declaring its elements one after another. */
  lemma DeclareUniformsSnoc(s: Shader, l: LList<Variable>, v: Variable)
    requires !s.compiled && AllUniformBindings(l) && IsUniformBinding(v)
    ensures AllUniformBindings(LAppend(l, v))
    ensures DeclareUniforms(s, LAppend(l, v)) == DeclareUniform(DeclareUniforms(s, l), v)
  {
    assert LElems(LAppend(l, v)) == LElems(l) + [v];
    var a := DeclareUniforms(s, LAppend(l, v));
    var b := DeclareUniform(DeclareUniforms(s, l), v);
    assert LElems(a.decls) == LElems(b.decls);
    LElemsInjective(a.decls, b.decls);
  }

  // ---------------------------------------------------------------------
  // Sources

  /** The byte length of each source string, in order. */
  function Lengths(sources: seq<seq<bv8>>): (r: seq<nat>)
    ensures |r| == |sources|
    ensures forall i :: 0 <= i < |sources| ==> r[i] == |sources[i]|
  {
    if sources == [] then [] else Lengths(sources[..|sources| - 1]) + [|sources[|sources| - 1]|]
  }

  function Sum(s: seq<nat>): nat
  {
    if s == [] then 0 else Sum(s[..|s| - 1]) + s[|s| - 1]
  }

  /** The text the driver sees: the sources one after another. */
  function Joined(sources: seq<seq<bv8>>): seq<bv8>
  {
    if sources == [] then [] else Joined(sources[..|sources| - 1]) + sources[|sources| - 1]
  }

  /** The lengths passed cover the whole source text, with nothing counted twice or left out. */
  lemma {:induction false} LengthsCoverSource(sources: seq<seq<bv8>>)
    ensures Sum(Lengths(sources)) == |Joined(sources)|
  {
    if sources != [] {
      var init := sources[..|sources| - 1];
      LengthsCoverSource(init);
      assert Lengths(sources)[..|sources| - 1] == Lengths(init);
    }
  }

  /**
   * `source` (all three files): one `ShaderSource` call with count = the
   * number of strings and one byte length per string, in order.
   */
  method Source(gl: Gl, s: Shader, sources: seq<seq<bv8>>)
    requires !s.compiled
    modifies gl
    ensures gl.trace == old(gl.trace) + [ShaderSource(s.base.name, |sources|, Lengths(sources))]
  {
    var lengths := Lengths(sources);
    gl.Issue(ShaderSource(s.base.name, |sources|, lengths));
  }

  // ---------------------------------------------------------------------
  // Compilation

  /** How `info_log` turns the buffer into a string. */
  datatype LogReading = CheckedUtf8 | UncheckedUtf8

  /** The outcome of `compile` as the info log decides it. */
  datatype Verdict = Success | Failure(log: seq<bv8>) | Panic

  /**
   * `info_log().map_or(Ok(..), Err)`: no log is success, any log is failure;
   * the checked reading panics on text that is not UTF-8.
   */
  function CompileVerdict(reading: LogReading, q: Query): (r: Verdict)
    requires Answered(q)
    ensures r.Success? <==> q.length <= 0
    ensures r.Failure? ==> q.length > 0 && r.log == Text(q)
    ensures r.Panic? <==> reading == CheckedUtf8 && q.length > 0 && !Utf8.Valid(Text(q))
  {
    match reading
    case UncheckedUtf8 =>
      (match Unchecked(q) case None => Success case Some(t) => Failure(t))
    case CheckedUtf8 =>
      CheckedAgrees(q);
      (match CheckedLog(q) case NoLog => Success case Log(t) => Failure(t) case NotUtf8Panic => Panic)
  }

  /** A log that is valid UTF-8, even only warnings, makes compilation fail with that log. */
  lemma ValidLogFails(reading: LogReading, q: Query)
    requires Answered(q) && q.length > 0 && Utf8.Valid(Text(q))
    ensures CompileVerdict(reading, q) == Failure(Text(q))
  {
  }

  /** `retype_to_compiled`: the same object, target and declarations, now compiled. */
  function RetypeToCompiled(s: Shader): (r: Shader)
    requires !s.compiled
    ensures r.compiled && r.base == s.base && r.target == s.target && r.decls == s.decls
  {
    s.(compiled := true)
  }

  datatype Compilation = Compiled(shader: Shader) | Failed(log: seq<bv8>) | Panicked

  /**
   * `compile` (all three files): `CompileShader`, then the info log decides.
   * `info_log` is evaluated before `Ok(self.retype_to_compiled())`, which
   * moves the shader into the default value of `map_or`; when there is a
   * log that value is dropped, and a panic unwinds through it, so in both
   * cases the shader object is deleted.
   */
  method Compile(gl: Gl, s: Shader, reading: LogReading, q: Query) returns (r: Compilation)
    requires !s.compiled && Answered(q)
    modifies gl
    ensures r.Compiled? <==> CompileVerdict(reading, q).Success?
    ensures r.Failed? <==> CompileVerdict(reading, q).Failure?
    ensures r.Compiled? ==> r.shader == RetypeToCompiled(s)
    ensures r.Failed? ==> r.log == CompileVerdict(reading, q).log
    ensures gl.trace == old(gl.trace) + [CompileShader(s.base.name)]
                        + (if r.Compiled? then [] else [Delete(s.base.kind, [s.base.name])])
  {
    gl.Issue(CompileShader(s.base.name));
    var verdict := CompileVerdict(reading, q);
    var compiled := RetypeToCompiled(s);
    match verdict
    case Success =>
      r := Compiled(compiled);
    case Failure(log) =>
      compiled.base.Drop(gl);
      r := Failed(log);
    case Panic =>
      compiled.base.Drop(gl);
      r := Panicked;
  }

  /** A failed or panicking compile leaves the shader's name deleted in the driver. */
  lemma FailedCompileFreesShader(s: State, name: nat)
    ensures Handle(ShaderObj, name) !in Run(s, [CompileShader(name), Delete(ShaderObj, [name])]).live
    ensures Run(s, [CompileShader(name), Delete(ShaderObj, [name])]).freed == s.freed + [Handle(ShaderObj, name)]
  {
    RunTwo(s, CompileShader(name), Delete(ShaderObj, [name]));
  }
}
