/**
 * The program builder of the `object` tree (`src/object/program/builder.rs`)
 * and the attach relations written for it (`src/object/program/attach.rs`).
 *
 * The builder's type records the target of the last main shader, the
 * program inputs, the last outputs, the uniform definitions and the
 * declarations still to match. Each stage is optional; `build` checks the
 * vertex and fragment stages with `expect`. Every `*_main` and `*_shared`
 * call leaves the shader's uniform declarations pending, and only
 * `bind_uniforms` clears them, so pending declarations block every other
 * step.
 */
module ObjectBuilder {
  import opened Wrappers
  import opened HList
  import opened Interface
  import opened Driver
  import opened InfoLog
  import opened Stage
  import opened ShaderMain
  import opened ObjectUniform
  import ObjectProgram

  /**
   * `Builder<T, IS, OS, DUS, UUS>`: the target, the inputs and outputs, the
   * uniforms (definitions and unmatched declarations) and the six optional
   * stages.
   */
  datatype Builder = Builder(target: Target, ins: LList<Variable>, outs: LList<Variable>, uniforms: Uniforms, stages: Stages)

  /** No definitions and no pending declarations: the `(DUS, UUS) = ((), ())` of `Builder::new`. */
  predicate NoUniforms(b: Builder)
  {
    b.uniforms.definitions.values == LNil && b.uniforms.unmatched == RNil
  }

  /** `Builder::new` / `Default`: at `Vertex`, no parameters, no uniforms, no stages. */
  function New(): (b: Builder)
    ensures b.target == Vertex && b.ins == LNil && b.outs == LNil && NoUniforms(b)
    ensures forall t :: Get(b.stages, t).None?
  {
    Builder(Vertex, LNil, LNil, DefaultUniforms(), NoStages)
  }

  /** The impl block of `uniforms`: `Builder<Vertex, (), (), (), ()>`. */
  predicate IsFresh(b: Builder)
  {
    b.target == Vertex && b.ins == LNil && b.outs == LNil && NoUniforms(b)
  }

  /**
   * `uniforms(definer)`: `defs` is what the definer returns for
   * `Definitions::new()`; `retype_definitions` installs them with nothing
   * pending and resets the parameters.
   */
  function DefineUniforms(b: Builder, defs: Definitions): (r: Builder)
    requires IsFresh(b) && AllCompatible(defs.values)
    ensures r.target == Vertex && r.ins == LNil && r.outs == LNil
    ensures r.uniforms.definitions == defs && r.uniforms.unmatched == RNil
    ensures r.stages == b.stages
  {
    Builder(Vertex, LNil, LNil, NewUniforms(defs, RNil), b.stages)
  }

  /** The impl block of `vertex_main`: `Builder<Vertex, (), (), DUS, ()>`. */
  predicate CanVertexMain(b: Builder, v: Main)
  {
    b.target == Vertex && b.ins == LNil && b.outs == LNil && b.uniforms.unmatched == RNil
    && v.shader.target == Vertex
  }

  /**
   * `vertex_main`: the vertex stage is set to the shader, the parameters
   * become the shader's, and its declarations become pending, inverted
   * (`retype_vertex_attach`).
   */
  function VertexMain(b: Builder, v: Main): (r: Builder)
    requires CanVertexMain(b, v)
    ensures r.target == Vertex && r.ins == v.ins && r.outs == v.outs
    ensures r.stages.vertex == Some(NewStage(v.shader.base.name))
    ensures forall t :: t != Vertex ==> Get(r.stages, t) == Get(b.stages, t)
    ensures r.uniforms.definitions == b.uniforms.definitions
    ensures RElems(r.uniforms.unmatched) == LElems(v.uniforms)
  {
    Builder(Vertex, v.ins, v.outs, AddUnmatched(b.uniforms, LInvert(v.uniforms)),
            Set(b.stages, Vertex, Some(NewStage(v.shader.base.name))))
  }

  /**
   * The bounds of every `*_main` past the vertex stage: a transition of the
   * impl blocks, nothing pending, outputs that `MatchingInputs` accepts, and
   * a shader whose inputs are `OS::Inputs`.
   */
  predicate CanAttachMain(b: Builder, m: Main)
  {
    Follows(b.target, m.shader.target) && b.uniforms.unmatched == RNil
    && (forall v | v in LElems(b.outs) :: IsOutput(v))
    && m.ins == MatchingInputs(b.outs)
  }

  /**
   * `tesselation_control_main`, `tesselation_evaluation_main`,
   * `geometry_main`, `fragment_main`: the shader's stage is set anew, the
   * target moves on, the outputs become the shader's and its declarations
   * become pending (`retype_attach`).
   */
  function AttachMain(b: Builder, m: Main): (r: Builder)
    requires CanAttachMain(b, m)
    ensures r.target == m.shader.target && Rank(r.target) > Rank(b.target)
    ensures r.ins == b.ins && r.outs == m.outs
    ensures Get(r.stages, m.shader.target) == Some(NewStage(m.shader.base.name))
    ensures forall t :: t != m.shader.target ==> Get(r.stages, t) == Get(b.stages, t)
    ensures r.uniforms.definitions == b.uniforms.definitions
    ensures RElems(r.uniforms.unmatched) == LElems(m.uniforms)
  {
    Builder(m.shader.target, b.ins, m.outs, AddUnmatched(b.uniforms, LInvert(m.uniforms)),
            Set(b.stages, m.shader.target, Some(NewStage(m.shader.base.name))))
  }

  /**
   * The bounds of every `*_shared`: a library of the current target
   * (`Compute` has none), nothing pending, and, except at `Fragment`,
   * outputs that `MatchingInputs` accepts.
   */
  predicate CanAttachShared(b: Builder, l: Lib)
  {
    b.target != Compute && l.shader.target == b.target && b.uniforms.unmatched == RNil
    && (b.target != Fragment ==> forall v | v in LElems(b.outs) :: IsOutput(v))
  }

  /**
   * `vertex_shared`, `tesselation_control_shared`, ... `fragment_shared`:
   * push the library onto the current stage (`None`: `expect` panics on an
   * unset stage), keep the target and parameters, and leave the library's
   * declarations pending. `vertex_shared` goes through a clone of the
   * uniforms and `retype_unmatched_uniforms`, to the same effect.
   */
  function AttachShared(b: Builder, l: Lib): (r: Option<Builder>)
    requires CanAttachShared(b, l)
    ensures r.None? <==> Get(b.stages, b.target).None?
    ensures r.Some? ==> r.value.target == b.target && r.value.ins == b.ins && r.value.outs == b.outs
    ensures r.Some? ==> Get(r.value.stages, b.target) == Some(Push(Get(b.stages, b.target).value, l.shader.base.name))
    ensures r.Some? ==> forall t :: t != b.target ==> Get(r.value.stages, t) == Get(b.stages, t)
    ensures r.Some? ==> r.value.uniforms.definitions == b.uniforms.definitions
    ensures r.Some? ==> RElems(r.value.uniforms.unmatched) == LElems(l.uniforms)
  {
    match PushShared(b.stages, b.target, l.shader.base.name)
    case None => None
    case Some(st) => Some(b.(uniforms := AddUnmatched(b.uniforms, LInvert(l.uniforms)), stages := st))
  }

  /**
   * The bound of `bind_uniforms`: a declaration is pending, and the matcher
   * (a sequence of `match_uniform` calls, one per element of `ats`) leaves
   * none.
   */
  predicate CanBindUniforms(b: Builder, ats: seq<Variable>)
  {
    b.uniforms.unmatched.RCons?
    && MatchAll(b.uniforms, ats).Some? && MatchAll(b.uniforms, ats).value.unmatched == RNil
  }

  /** `bind_uniforms`: the matcher's result replaces the uniforms; nothing else changes. */
  function BindUniforms(b: Builder, ats: seq<Variable>): (r: Builder)
    requires CanBindUniforms(b, ats)
    ensures r.uniforms.unmatched == RNil && r.uniforms.definitions == b.uniforms.definitions
    ensures r.target == b.target && r.ins == b.ins && r.outs == b.outs && r.stages == b.stages
  {
    MatchAllIff(b.uniforms, ats);
    b.(uniforms := MatchAll(b.uniforms, ats).value)
  }

  /**
   * After a main shader, `bind_uniforms` accepts exactly the matches that
   * take the shader's declarations in declaration order, each selected by a
   * definition.
   */
  lemma BindAfterMain(b: Builder, m: Main, ats: seq<Variable>)
    requires CanAttachMain(b, m) && m.uniforms != LNil
    ensures CanBindUniforms(AttachMain(b, m), ats)
            <==> (ats == LElems(m.uniforms) && forall i :: 0 <= i < |ats| ==> Selects(b.uniforms.definitions.values, ats[i]))
  {
    DeclarationOrder(b.uniforms, m.uniforms, ats);
  }

  /** The same holds after a library. */
  lemma BindAfterShared(b: Builder, l: Lib, ats: seq<Variable>)
    requires CanAttachShared(b, l) && AttachShared(b, l).Some? && l.uniforms != LNil
    ensures CanBindUniforms(AttachShared(b, l).value, ats)
            <==> (ats == LElems(l.uniforms) && forall i :: 0 <= i < |ats| ==> Selects(b.uniforms.definitions.values, ats[i]))
  {
    DeclarationOrder(b.uniforms, l.uniforms, ats);
  }

  // ---------------------------------------------------------------------
  // attach.rs

  /**
   * `generic_attach` on the stage of `t`: an unset stage gets the shader as
   * its main, a set one gets it as one more library. The vertex impl pushes
   * onto `self.vertex.shared` as though the field were not an `Option`; the
   * model pushes when the stage is set and has no result otherwise.
   */
  function GenericAttach(st: Stages, t: Target, shader: nat): (r: Option<Stages>)
    ensures t != Vertex ==> r.Some?
    ensures r.Some? ==> Get(r.value, t).Some?
                        && Members(Get(r.value, t).value)
                           == (if Get(st, t).Some? then Members(Get(st, t).value) else []) + [shader]
    ensures r.Some? ==> forall u :: u != t ==> Get(r.value, u) == Get(st, u)
    ensures t == Vertex ==> (r.Some? <==> st.vertex.Some?)
  {
    if t == Vertex then PushShared(st, Vertex, shader)
    else match Get(st, t)
      case Some(s) => Some(Set(st, t, Some(Push(s, shader))))
      case None => Some(Set(st, t, Some(NewStage(shader))))
  }

  /**
   * `AttachShared::attach` for `Builder<T, IS, OS, DUS, ()>` and a library
   * of target `T`: `generic_attach`, with everything else, the uniforms
   * included, unchanged.
   */
  function AttachSharedGeneric(b: Builder, l: Lib): (r: Option<Builder>)
    requires b.uniforms.unmatched == RNil && l.shader.target == b.target
    ensures r.Some? ==> r.value.target == b.target && r.value.ins == b.ins && r.value.outs == b.outs
                        && r.value.uniforms == b.uniforms
  {
    match GenericAttach(b.stages, b.target, l.shader.base.name)
    case None => None
    case Some(st) => Some(b.(stages := st))
  }

  /**
   * The trait attaches a library to a set stage just as the builder's
   * `*_shared` method does, except that it leaves no declarations pending;
   * where the stage is unset, the method panics and the trait makes the
   * library the stage's main shader.
   */
  lemma GenericAgainstMethod(b: Builder, l: Lib)
    requires CanAttachShared(b, l)
    ensures AttachShared(b, l).Some? ==>
              AttachSharedGeneric(b, l).Some? && AttachSharedGeneric(b, l).value.stages == AttachShared(b, l).value.stages
    ensures AttachShared(b, l).None? && b.target != Vertex ==>
              AttachSharedGeneric(b, l).Some? && Get(AttachSharedGeneric(b, l).value.stages, b.target) == Some(NewStage(l.shader.base.name))
  {
    var t := b.target;
    if Get(b.stages, t).Some? && t != Vertex {
      assert PushShared(b.stages, t, l.shader.base.name) == Some(Set(b.stages, t, Some(Push(Get(b.stages, t).value, l.shader.base.name))));
    }
  }

  /**
   * `AttachMain` asks for `GenericAttach<Shader = NT>` of a builder at `CT`,
   * which makes `NT` and `CT` the same target, and for a `NextTarget` entry
   * for `(NT, CT)`; the table has no entry of that shape, so no builder
   * implements it.
   */
  lemma AttachMainHasNoInstance(t: Target)
    ensures NextTarget(t, t).None?
  {
  }

  // ---------------------------------------------------------------------
  // Runs of calls

  datatype Op =
    | UniformsOp(defs: Definitions)
    | VertexMainOp(v: Main)
    | MainOp(m: Main)
    | SharedOp(l: Lib)
    | BindOp(ats: seq<Variable>)

  /** One builder call; `None` where its impl block does not apply or it panics. */
  function Apply(b: Builder, op: Op): Option<Builder>
  {
    match op
    case UniformsOp(defs) =>
      if IsFresh(b) && AllCompatible(defs.values) then Some(DefineUniforms(b, defs)) else None
    case VertexMainOp(v) =>
      if CanVertexMain(b, v) then Some(VertexMain(b, v)) else None
    case MainOp(m) =>
      if CanAttachMain(b, m) then Some(AttachMain(b, m)) else None
    case SharedOp(l) =>
      if CanAttachShared(b, l) then AttachShared(b, l) else None
    case BindOp(ats) =>
      if CanBindUniforms(b, ats) then Some(BindUniforms(b, ats)) else None
  }

  function ApplyAll(b: Builder, ops: seq<Op>): Option<Builder>
    decreases |ops|
  {
    if ops == [] then Some(b)
    else match Apply(b, ops[0])
      case None => None
      case Some(b') => ApplyAll(b', ops[1..])
  }

  /** Past the vertex target, the builder holds the stage of its target. */
  predicate TargetSet(b: Builder)
  {
    b.target != Vertex ==> Get(b.stages, b.target).Some?
  }

  lemma ApplyKeepsTargetSet(b: Builder, op: Op)
    requires TargetSet(b) && Apply(b, op).Some?
    ensures TargetSet(Apply(b, op).value)
  {
  }

  lemma {:induction false} ApplyAllKeepsTargetSet(b: Builder, ops: seq<Op>)
    requires TargetSet(b) && ApplyAll(b, ops).Some?
    ensures TargetSet(ApplyAll(b, ops).value)
    decreases |ops|
  {
    if ops != [] {
      ApplyKeepsTargetSet(b, ops[0]);
      ApplyAllKeepsTargetSet(Apply(b, ops[0]).value, ops[1..]);
    }
  }

  /**
   * For a builder reached from `new`, `build`'s `expect` on the fragment
   * stage cannot fire; the one on the vertex stage fires exactly when
   * `vertex_main` was never called.
   */
  lemma ReachedFragment(ops: seq<Op>)
    requires ApplyAll(New(), ops).Some? && ApplyAll(New(), ops).value.target == Fragment
    ensures ApplyAll(New(), ops).value.stages.fragment.Some?
    ensures BuildOrder(ApplyAll(New(), ops).value.stages).complete <==> ApplyAll(New(), ops).value.stages.vertex.Some?
  {
    ApplyAllKeepsTargetSet(New(), ops);
  }

  /**
   * The `Vertex` impl block does not ask for a vertex stage: straight from
   * `new`, `fragment_main` reaches `build`, whose `expect` on the vertex
   * stage then panics.
   */
  lemma FragmentWithoutVertex(m: Main)
    requires m.shader.target == Fragment && m.ins == LNil && m.uniforms == LNil
    ensures ApplyAll(New(), [MainOp(m)]).Some?
    ensures ApplyAll(New(), [MainOp(m)]).value.target == Fragment
    ensures !BuildOrder(ApplyAll(New(), [MainOp(m)]).value.stages).complete
  {
    assert CanAttachMain(New(), m);
    var b := AttachMain(New(), m);
    assert b.stages.vertex.None?;
    assert [MainOp(m)][1..] == [];
  }

  // ---------------------------------------------------------------------
  // build

  datatype Built = Linked(program: ObjectProgram.Program) | LinkFailed(log: seq<bv8>) | Panicked

  /**
   * `build` (only at `Fragment`, with nothing pending): a new program, the
   * stages in pipeline order with `expect` on the vertex and fragment
   * stages, then `link`. A panic unwinds through the program and deletes it.
   */
  method Build(gl: Gl, b: Builder, q: Query) returns (r: Built)
    requires b.target == Fragment && b.uniforms.unmatched == RNil && Answered(q)
    modifies gl
    ensures r.Panicked? <==> !BuildOrder(b.stages).complete
    ensures r.Linked? <==> BuildOrder(b.stages).complete && q.length <= 0
    ensures r.LinkFailed? ==> r.log == Text(q)
    ensures r.Linked? ==> r.program.base.name == old(gl.State().next)
    ensures gl.trace == old(gl.trace) + BuildCalls(old(gl.State().next), b.stages, r.Linked?)
  {
    ghost var start := gl.trace;
    var program := ObjectProgram.Default(gl);
    var complete := AttachInOrder(gl, program.base.name, b.stages);
    ghost var front := [Create(ProgramObj, 1)] + PlanCalls(program.base.name, BuildOrder(b.stages).stages);
    SeqAssoc(start, [Create(ProgramObj, 1)], PlanCalls(program.base.name, BuildOrder(b.stages).stages));
    r := Finish(gl, program, complete, q);
    SeqAssoc(start, front, Ending(program.base.name, complete, r.Linked?));
  }

  /** The end of `build`: the panic on a missing stage, or the link. */
  method Finish(gl: Gl, program: ObjectProgram.Program, complete: bool, q: Query) returns (r: Built)
    requires Answered(q) && program.base.kind == ProgramObj
    modifies gl
    ensures r.Panicked? <==> !complete
    ensures r.Linked? <==> complete && q.length <= 0
    ensures r.LinkFailed? ==> r.log == Text(q)
    ensures r.Linked? ==> r.program == program
    ensures gl.trace == old(gl.trace) + Ending(program.base.name, complete, r.Linked?)
  {
    if !complete {
      program.base.Drop(gl);
      return Panicked;
    }
    var linkage := ObjectProgram.Link(gl, program, q);
    match linkage
    case Ok(p) =>
      r := Linked(p);
    case Err(log) =>
      r := LinkFailed(log);
  }
}
