/**
 * The program builder of the `gl` tree (`src/gl/program/builder.rs`).
 *
 * In Rust the builder's type records the target of the last main shader,
 * the program's inputs, the last stage's outputs, the uniform definitions
 * and the declarations still waiting to be matched; each impl block offers
 * the calls that are legal in that state. Here those type parameters are
 * fields, every call is a function whose precondition is the impl block's
 * bounds, and an `expect` that panics is a `None` result.
 */
module GlBuilder {
  import opened Wrappers
  import opened HList
  import opened Interface
  import opened Driver
  import opened InfoLog
  import opened Stage
  import opened ShaderMain
  import GlUniform
  import GlProgram

  /**
   * `MaybeTarget`: `ts::None` (a fresh builder), `ts::Some<ts::Some<Vertex>>`
   * (the only state `vertex_main` is defined on), or `ts::Some<T>`.
   */
  datatype Position = NoTarget | BeforeVertex | At(target: Target)

  /**
   * `Builder<Target, Ins, Outs, Defs, Decls>`: the position, the parameter
   * lists, the definitions and pending declarations of the type, the matcher
   * and the stages.
   */
  datatype Builder = Builder(
    position: Position,
    ins: LList<Variable>,
    outs: LList<Variable>,
    defs: LList<GlUniform.Definition>,
    decls: LList<Variable>,
    matcher: Option<GlUniform.Matcher>,
    stages: Stages)

  /** The matcher, when there is one, has the type's definitions and pending declarations. */
  predicate MatcherAgrees(b: Builder)
  {
    b.matcher.Some? ==>
      b.matcher.value.definitions == b.defs && b.matcher.value.declarations == GlUniform.Declarations(false, b.decls)
  }

  /** `new` / `default`: no target, no matcher, no stage. */
  function New(): (b: Builder)
    ensures b.position == NoTarget && b.matcher.None? && b.stages == NoStages
    ensures b.ins == LNil && b.outs == LNil && b.defs == LNil && b.decls == LNil
    ensures MatcherAgrees(b)
  {
    Builder(NoTarget, LNil, LNil, LNil, LNil, None, NoStages)
  }

  // ---------------------------------------------------------------------
  // Retyping helpers

  /** `self.matcher.map(|inner| inner.set_declarations(decls))` with the declarations of a shader. */
  function Redeclare(b: Builder, decls: LList<Variable>): (r: Option<GlUniform.Matcher>)
    requires MatcherAgrees(b) && b.decls == LNil
    ensures r.Some? <==> b.matcher.Some?
    ensures r.Some? ==> r.value.definitions == b.defs && r.value.declarations == GlUniform.Declarations(false, decls)
  {
    match b.matcher
    case None => None
    case Some(m) => Some(GlUniform.SetDeclarations(m, GlUniform.Declarations(true, decls)))
  }

  /**
   * `attach_main`: moves to `next` with the new outputs and the main
   * shader's declarations pending; the inputs and every stage stay.
   */
  function AttachMain(b: Builder, next: Target, outs: LList<Variable>, decls: LList<Variable>): (r: Builder)
    requires b.position != NoTarget && b.decls == LNil && MatcherAgrees(b)
    ensures r.position == At(next) && r.ins == b.ins && r.outs == outs && r.decls == decls
    ensures r.defs == b.defs && r.stages == b.stages && (r.matcher.Some? <==> b.matcher.Some?)
    ensures MatcherAgrees(r)
  {
    Builder(At(next), b.ins, outs, b.defs, decls, Redeclare(b, decls), b.stages)
  }

  /**
   * `attach_lib`: the library's declarations become pending, the parameter
   * lists and stages stay, and the target is `Vertex`, whatever it was.
   * Only `vertex_shared` calls it, where the target is `Vertex` already.
   */
  function AttachLib(b: Builder, decls: LList<Variable>): (r: Builder)
    requires b.position != NoTarget && b.decls == LNil && MatcherAgrees(b)
    ensures r.position == At(Vertex) && r.ins == b.ins && r.outs == b.outs && r.decls == decls
    ensures r.defs == b.defs && r.stages == b.stages && (r.matcher.Some? <==> b.matcher.Some?)
    ensures MatcherAgrees(r)
  {
    Builder(At(Vertex), b.ins, b.outs, b.defs, decls, Redeclare(b, decls), b.stages)
  }

  /** `attach_vertex_main`: as `attach_main` to `Vertex`, and the inputs are set as well. */
  function AttachVertexMain(b: Builder, ins: LList<Variable>, outs: LList<Variable>, decls: LList<Variable>): (r: Builder)
    requires b.position != NoTarget && b.decls == LNil && MatcherAgrees(b)
    ensures r.position == At(Vertex) && r.ins == ins && r.outs == outs && r.decls == decls
    ensures r.defs == b.defs && r.stages == b.stages && (r.matcher.Some? <==> b.matcher.Some?)
    ensures MatcherAgrees(r)
  {
    Builder(At(Vertex), ins, outs, b.defs, decls, Redeclare(b, decls), b.stages)
  }

  // ---------------------------------------------------------------------
  // Uniforms

  /**
   * The closure passed to `uniforms` must turn `Matcher<Defs, Decls>` into
   * `Matcher<Defs, ()>`; it is modelled as the sequence of `bind` calls it
   * makes, and it type-checks when they discharge every pending declaration.
   */
  predicate Closes(defs: LList<GlUniform.Definition>, decls: LList<Variable>, bs: seq<Variable>)
  {
    var r := GlUniform.BindAll(GlUniform.Matcher(defs, GlUniform.Declarations(false, decls)), bs);
    r.Some? && r.value.declarations.list == LNil
  }

  /** A closure closes the pending declarations exactly when it binds them last to first, each one defined. */
  lemma ClosesIff(defs: LList<GlUniform.Definition>, decls: LList<Variable>, bs: seq<Variable>)
    ensures Closes(defs, decls, bs) <==> (bs == Rev(LElems(decls)) && forall i :: 0 <= i < |bs| ==> GlUniform.Defines(defs, bs[i]))
  {
    GlUniform.BindAllIff(GlUniform.Matcher(defs, GlUniform.Declarations(false, decls)), bs);
  }

  predicate CanUniforms(b: Builder, bs: seq<Variable>)
  {
    b.position != NoTarget && MatcherAgrees(b) && Closes(b.defs, b.decls, bs)
  }

  /** `uniforms`: the matcher, if any, goes through the closure; nothing is pending after it. */
  function Uniforms(b: Builder, bs: seq<Variable>): (r: Builder)
    requires CanUniforms(b, bs)
    ensures r.decls == LNil && r.position == b.position && r.stages == b.stages
    ensures r.ins == b.ins && r.outs == b.outs && r.defs == b.defs
    ensures (r.matcher.Some? <==> b.matcher.Some?) && MatcherAgrees(r)
  {
    GlUniform.BindAllIff(GlUniform.Matcher(b.defs, GlUniform.Declarations(false, b.decls)), bs);
    var m := match b.matcher
             case None => None
             case Some(m) => GlUniform.BindAll(m, bs);
    b.(decls := LNil, matcher := m)
  }

  // ---------------------------------------------------------------------
  // Stage transitions

  /** The bounds of `vertex_main`: the pre-vertex state with `()` parameter and declaration lists. */
  predicate CanVertexMain(b: Builder, v: Main)
  {
    b.position == BeforeVertex && b.ins == LNil && b.outs == LNil && b.decls == LNil
    && v.shader.target == Vertex && MatcherAgrees(b)
  }

  /** `vertex_main`: installs the vertex stage and takes the shader's parameters and declarations. */
  function VertexMain(b: Builder, v: Main): (r: Builder)
    requires CanVertexMain(b, v)
    ensures r.position == At(Vertex) && r.stages == Set(b.stages, Vertex, Some(NewStage(v.shader.base.name)))
    ensures r.ins == v.ins && r.outs == v.outs && r.decls == v.uniforms && r.defs == b.defs
    ensures MatcherAgrees(r)
  {
    AttachVertexMain(b.(stages := Set(b.stages, Vertex, Some(NewStage(v.shader.base.name)))), v.ins, v.outs, v.uniforms)
  }

  /**
   * The bounds of every `*_main` after the vertex stage: the impl block of
   * the current target offers the main shader's target, nothing is pending,
   * and the shader takes as inputs exactly the current outputs' matching
   * inputs (`Outs::Inputs`).
   */
  predicate CanAttachMain(b: Builder, m: Main)
  {
    b.position.At? && Follows(b.position.target, m.shader.target) && b.decls == LNil
    && (forall v | v in LElems(b.outs) :: IsOutput(v))
    && m.ins == MatchingInputs(b.outs) && MatcherAgrees(b)
  }

  /**
   * `tess_control_main`, `tess_evaluation_main`, `geometry_main`,
   * `fragment_main`: the stage of the shader's target becomes a new stage
   * with no libraries, replacing what was there; the builder moves forward
   * in the pipeline, to that target.
   */
  function AttachMainStage(b: Builder, m: Main): (r: Builder)
    requires CanAttachMain(b, m)
    ensures r.position == At(m.shader.target) && Rank(b.position.target) < Rank(m.shader.target)
    ensures Get(r.stages, m.shader.target) == Some(NewStage(m.shader.base.name))
    ensures forall t :: t != m.shader.target ==> Get(r.stages, t) == Get(b.stages, t)
    ensures r.ins == b.ins && r.outs == m.outs && r.decls == m.uniforms && r.defs == b.defs
    ensures MatcherAgrees(r)
  {
    FollowsIsNextTarget(b.position.target, m.shader.target);
    NextTargetTable(m.shader.target, b.position.target);
    var t := m.shader.target;
    AttachMain(b.(stages := Set(b.stages, t, Some(NewStage(m.shader.base.name)))), t, m.outs, m.uniforms)
  }

  /**
   * The bounds of every `*_shared`: a library of the current target,
   * nothing pending. Their `Outs: glsl::Parameters<Out> + MatchingInputs`
   * bound is not repeated: a builder's outputs are always a main shader's
   * output list, which meets it.
   */
  predicate CanAttachShared(b: Builder, l: Lib)
  {
    b.position.At? && b.position.target != Compute && l.shader.target == b.position.target
    && b.decls == LNil && MatcherAgrees(b)
  }

  /**
   * `vertex_shared`, `tess_control_shared`, ..., `fragment_shared`: the
   * library is pushed onto the current stage, or `expect` panics when that
   * stage is unset. `vertex_shared` retypes through `attach_lib`, the others
   * through `attach_main` to their own target with the outputs unchanged;
   * either way the builder stays where it was.
   */
  function AttachShared(b: Builder, l: Lib): (r: Option<Builder>)
    requires CanAttachShared(b, l)
    ensures r.None? <==> Get(b.stages, b.position.target).None?
    ensures r.Some? ==> Get(r.value.stages, b.position.target) == Some(Push(Get(b.stages, b.position.target).value, l.shader.base.name))
    ensures r.Some? ==> forall t :: t != b.position.target ==> Get(r.value.stages, t) == Get(b.stages, t)
    ensures r.Some? ==> r.value.position == b.position && r.value.ins == b.ins && r.value.outs == b.outs
    ensures r.Some? ==> r.value.decls == l.uniforms && MatcherAgrees(r.value)
  {
    match PushShared(b.stages, b.position.target, l.shader.base.name)
    case None => None
    case Some(st) =>
      if b.position.target == Vertex then Some(AttachLib(b.(stages := st), l.uniforms))
      else Some(AttachMain(b.(stages := st), b.position.target, b.outs, l.uniforms))
  }

  // ---------------------------------------------------------------------
  // Runs of builder calls

  datatype Op = VertexMainOp(v: Main) | MainOp(m: Main) | SharedOp(l: Lib) | UniformsOp(bs: seq<Variable>)

  /** One builder call; `None` where it does not type-check or panics. */
  function Apply(b: Builder, op: Op): (r: Option<Builder>)
    requires MatcherAgrees(b)
    ensures r.Some? ==> MatcherAgrees(r.value)
  {
    match op
    case VertexMainOp(v) => if CanVertexMain(b, v) then Some(VertexMain(b, v)) else None
    case MainOp(m) => if CanAttachMain(b, m) then Some(AttachMainStage(b, m)) else None
    case SharedOp(l) => if CanAttachShared(b, l) then AttachShared(b, l) else None
    case UniformsOp(bs) => if CanUniforms(b, bs) then Some(Uniforms(b, bs)) else None
  }

  function ApplyAll(b: Builder, ops: seq<Op>): Option<Builder>
    requires MatcherAgrees(b)
    decreases |ops|
  {
    if ops == [] then Some(b)
    else match Apply(b, ops[0])
      case None => None
      case Some(b') => ApplyAll(b', ops[1..])
  }

  /**
   * `new` is `ts::None`, and no impl block is defined on it; calls that make
   * `ts::Some<ts::Some<Vertex>>` do not exist either, so a fresh builder
   * admits no call at all.
   */
  lemma NewAdmitsNothing(ops: seq<Op>)
    requires ops != []
    ensures ApplyAll(New(), ops).None?
  {
    assert Apply(New(), ops[0]).None?;
  }

  /** Where a builder stands on a target, the vertex stage and that target's stage are set. */
  predicate StagesSet(b: Builder)
  {
    b.position.At? ==> b.stages.vertex.Some? && Get(b.stages, b.position.target).Some?
  }

  lemma ApplyKeepsStagesSet(b: Builder, op: Op)
    requires MatcherAgrees(b) && StagesSet(b) && Apply(b, op).Some?
    ensures StagesSet(Apply(b, op).value)
  {
    match op
    case VertexMainOp(v) =>
    case MainOp(m) =>
      FollowsIsNextTarget(b.position.target, m.shader.target);
      NextTargetTable(m.shader.target, b.position.target);
    case SharedOp(l) =>
    case UniformsOp(bs) =>
  }

  lemma {:induction false} ApplyAllKeepsStagesSet(b: Builder, ops: seq<Op>)
    requires MatcherAgrees(b) && StagesSet(b) && ApplyAll(b, ops).Some?
    ensures StagesSet(ApplyAll(b, ops).value)
    decreases |ops|
  {
    if ops != [] {
      ApplyKeepsStagesSet(b, ops[0]);
      ApplyAllKeepsStagesSet(Apply(b, ops[0]).value, ops[1..]);
    }
  }

  /**
   * Along any run of calls from the vertex stage on, `build`'s `expect`s on
   * the vertex and fragment stages cannot fire: a builder that reaches
   * `Fragment` has both.
   */
  lemma ReachedFragmentIsComplete(b: Builder, ops: seq<Op>)
    requires MatcherAgrees(b) && StagesSet(b)
    requires ApplyAll(b, ops).Some? && ApplyAll(b, ops).value.position == At(Fragment)
    ensures BuildOrder(ApplyAll(b, ops).value.stages).complete
  {
    ApplyAllKeepsStagesSet(b, ops);
  }

  // ---------------------------------------------------------------------
  // Build

  datatype Built = Linked(program: GlProgram.Program) | LinkFailed(log: seq<bv8>) | Panicked

  /**
   * `build` (only at `Fragment`, with nothing pending): `expect` on the
   * matcher panics before anything is issued; otherwise the program is
   * created with the matcher's definitions, the stages are attached in
   * pipeline order, and the program is linked. A panic after the program
   * was created unwinds through it and deletes it.
   */
  method Build(gl: Gl, b: Builder, linked: bool, q: Query) returns (r: Built)
    requires b.position == At(Fragment) && b.decls == LNil && MatcherAgrees(b) && Answered(q)
    modifies gl
    ensures r.Panicked? <==> (b.matcher.None? || !BuildOrder(b.stages).complete)
    ensures r.Linked? <==> (b.matcher.Some? && BuildOrder(b.stages).complete && ProgramLog(linked, q).None?)
    ensures r.LinkFailed? ==> r.log == ProgramLog(linked, q).value
    ensures r.Linked? ==> r.program.declarations == GlUniform.AsDeclarations(b.defs)
                          && r.program.base.name == old(gl.State().next)
    ensures b.matcher.None? ==> gl.trace == old(gl.trace)
    ensures b.matcher.Some? ==> gl.trace == old(gl.trace) + BuildCalls(old(gl.State().next), b.stages, r.Linked?)
  {
    if b.matcher.None? {
      return Panicked;
    }
    ghost var start := gl.trace;
    var program := GlProgram.CreateWithUniforms(gl, b.matcher.value.definitions);
    var complete := AttachInOrder(gl, program.base.name, b.stages);
    ghost var front := [Create(ProgramObj, 1)] + PlanCalls(program.base.name, BuildOrder(b.stages).stages);
    SeqAssoc(start, [Create(ProgramObj, 1)], PlanCalls(program.base.name, BuildOrder(b.stages).stages));
    assert gl.trace == start + front;
    r := Finish(gl, program, complete, linked, q);
    SeqAssoc(start, front, Ending(program.base.name, complete, r.Linked?));
  }

  /** The end of `build`: the panic on a missing fragment stage, or the link. */
  method Finish(gl: Gl, program: GlProgram.Program, complete: bool, linked: bool, q: Query) returns (r: Built)
    requires Answered(q) && program.base.kind == ProgramObj
    modifies gl
    ensures r.Panicked? <==> !complete
    ensures r.Linked? <==> complete && ProgramLog(linked, q).None?
    ensures r.LinkFailed? ==> r.log == ProgramLog(linked, q).value
    ensures r.Linked? ==> r.program == program
    ensures gl.trace == old(gl.trace) + Ending(program.base.name, complete, r.Linked?)
  {
    if !complete {
      program.base.Drop(gl);
      return Panicked;
    }
    var linkage := GlProgram.Link(gl, program, linked, q);
    match linkage
    case Ok(p) =>
      r := Linked(p);
    case Err(log) =>
      r := LinkFailed(log);
  }
}
