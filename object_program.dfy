/**
 * Programs of the `object` tree and the older program builder that lives
 * beside them (`src/object/program/mod.rs`).
 *
 * This builder keeps the vertex stage outside any `Option`: it is given to
 * `new`. Its type records the target of the last main shader, the program
 * inputs and the last outputs; a main shader must take as input exactly
 * the outputs so far.
 */
module ObjectProgram {
  import opened Wrappers
  import opened HList
  import opened Interface
  import opened Driver
  import opened Object
  import opened InfoLog
  import opened Stage
  import opened ShaderMain

  /** `Program<I, O>`: the owned program object; the parameter lists are type-level only. */
  datatype Program = Program(base: ObjectBase)

  /** `Program::default`: one new program object from `ProgramAllocator`. */
  method Default(gl: Gl) returns (p: Program)
    modifies gl
    ensures p.base.kind == ProgramObj && p.base.name == old(gl.State().next)
    ensures Handle(ProgramObj, p.base.name) in gl.State().live
    ensures gl.trace == old(gl.trace) + [Create(ProgramObj, 1)]
  {
    var base := new ObjectBase.Default(gl, ProgramObj);
    p := Program(base);
  }

  /**
   * `link`: `LinkProgram`, then `info_log`, which here does not ask for the
   * link status and reads the log unchecked. On a log the program, moved
   * into `Ok` before the log is looked at, is dropped.
   */
  method Link(gl: Gl, p: Program, q: Query) returns (r: Result<Program, seq<bv8>>)
    requires Answered(q)
    modifies gl
    ensures r.Ok? <==> q.length <= 0
    ensures r.Ok? ==> r.value == p
    ensures r.Err? ==> r.error == Text(q)
    ensures gl.trace == old(gl.trace) + [LinkProgram(p.base.name)]
                        + (if r.Ok? then [] else [Delete(p.base.kind, [p.base.name])])
  {
    gl.Issue(LinkProgram(p.base.name));
    match Unchecked(q)
    case None =>
      r := Ok(p);
    case Some(msg) =>
      p.base.Drop(gl);
      r := Err(msg);
  }

  /**
   * Without the status check, a program that linked but left a log (a
   * warning) fails here, while the `gl` tree's `link` accepts it.
   */
  lemma LinkedWithLogDiffers(q: Query)
    requires Answered(q) && q.length > 0
    ensures Outcome(Unchecked(q)) == Err(Text(q))
    ensures Outcome(ProgramLog(true, q)) == Ok(())
  {
  }

  // ---------------------------------------------------------------------
  // The older builder

  /**
   * `Builder<T, I, O>`: the target, the parameter lists and the stages. The
   * vertex stage is always present (`stages.vertex` is `Some`).
   */
  datatype Builder = Builder(target: Target, ins: LList<Variable>, outs: LList<Variable>, stages: Stages)

  predicate HasVertex(b: Builder)
  {
    b.stages.vertex.Some?
  }

  /** `Builder::new(vs)`: the vertex stage from `vs`, every other stage `None`. */
  function New(vs: Main): (b: Builder)
    requires vs.shader.target == Vertex
    ensures b.target == Vertex && b.ins == vs.ins && b.outs == vs.outs && HasVertex(b)
    ensures b.stages.vertex == Some(NewStage(vs.shader.base.name))
    ensures forall t :: t != Vertex ==> Get(b.stages, t).None?
  {
    Builder(Vertex, vs.ins, vs.outs, Set(NoStages, Vertex, Some(NewStage(vs.shader.base.name))))
  }

  /**
   * The targets the impl blocks move to when a main shader of target
   * `attached` is given at `current`. From `Vertex`,
   * `tesselation_evaluation_main` returns a builder typed as
   * tessellation control.
   */
  function MainTarget(current: Target, attached: Target): Option<Target>
  {
    match (current, attached)
    case (Vertex, TessControl) => Some(TessControl)
    case (Vertex, TessEvaluation) => Some(TessControl)
    case (Vertex, Geometry) => Some(Geometry)
    case (Vertex, Fragment) => Some(Fragment)
    case (TessControl, TessEvaluation) => Some(TessEvaluation)
    case (TessEvaluation, Geometry) => Some(Geometry)
    case (TessEvaluation, Fragment) => Some(Fragment)
    case (Geometry, Fragment) => Some(Fragment)
    case _ => None
  }

  /**
   * This builder offers every transition of the `NextTarget` table, and one
   * more: a tessellation evaluation shader straight after the vertex stage,
   * which lands on the tessellation control target.
   */
  lemma MainTargetAgainstTable(current: Target, attached: Target)
    ensures (current, attached) != (Vertex, TessEvaluation) ==> MainTarget(current, attached) == NextTarget(attached, current)
    ensures MainTarget(Vertex, TessEvaluation) == Some(TessControl) && NextTarget(TessEvaluation, Vertex).None?
  {
  }

  /** The bounds of every `*_main`: a transition exists and the shader's inputs are the outputs so far (`Main<_, O, _>`). */
  predicate CanAttachMain(b: Builder, m: Main)
  {
    MainTarget(b.target, m.shader.target).Some? && m.ins == b.outs
  }

  /** Every `*_main`: the stage of the shader's target is set anew, then `retype`. */
  function AttachMain(b: Builder, m: Main): (r: Builder)
    requires CanAttachMain(b, m)
    ensures r.target == MainTarget(b.target, m.shader.target).value && r.ins == b.ins && r.outs == m.outs
    ensures Get(r.stages, m.shader.target) == Some(NewStage(m.shader.base.name))
    ensures forall t :: t != m.shader.target ==> Get(r.stages, t) == Get(b.stages, t)
    ensures HasVertex(b) ==> HasVertex(r)
  {
    Builder(MainTarget(b.target, m.shader.target).value, b.ins, m.outs,
            Set(b.stages, m.shader.target, Some(NewStage(m.shader.base.name))))
  }

  /** The bounds of every `*_shared`: a library of the current target (`Compute` has no impl block). */
  predicate CanAttachShared(b: Builder, l: Lib)
  {
    b.target != Compute && l.shader.target == b.target
  }

  /**
   * `vertex_shared` pushes onto the vertex stage; the other `*_shared` push
   * onto their stage or panic in `expect` when it is unset. The target stays.
   */
  function AttachShared(b: Builder, l: Lib): (r: Option<Builder>)
    requires CanAttachShared(b, l)
    ensures r.None? <==> Get(b.stages, b.target).None?
    ensures r.Some? ==> r.value.target == b.target && r.value.ins == b.ins && r.value.outs == b.outs
    ensures r.Some? ==> Get(r.value.stages, b.target) == Some(Push(Get(b.stages, b.target).value, l.shader.base.name))
    ensures r.Some? ==> forall t :: t != b.target ==> Get(r.value.stages, t) == Get(b.stages, t)
  {
    match PushShared(b.stages, b.target, l.shader.base.name)
    case None => None
    case Some(st) => Some(b.(stages := st))
  }

  /** On a builder that holds its vertex stage, `vertex_shared` never panics. */
  lemma VertexSharedNeverPanics(b: Builder, l: Lib)
    requires HasVertex(b) && b.target == Vertex && l.shader.target == Vertex
    ensures AttachShared(b, l).Some? && HasVertex(AttachShared(b, l).value)
  {
  }

  /**
   * After `tesselation_evaluation_main` straight from the vertex stage, the
   * builder is typed as tessellation control while that stage is unset, so
   * `tesselation_control_shared` always panics.
   */
  lemma EvaluationFromVertexThenSharedPanics(b: Builder, m: Main, l: Lib)
    requires b.target == Vertex && b.stages.tessControl.None? && m.shader.target == TessEvaluation && m.ins == b.outs
    requires l.shader.target == TessControl
    ensures CanAttachMain(b, m) && AttachMain(b, m).target == TessControl
    ensures CanAttachShared(AttachMain(b, m), l) && AttachShared(AttachMain(b, m), l).None?
  {
  }

  // ---------------------------------------------------------------------
  // build

  /**
   * What `build` attaches as written: the vertex stage, the tessellation pair
   * when both are set, geometry when set, and then, where the fragment
   * stage was meant, the geometry stage a second time.
   */
  function AsWrittenPlan(st: Stages): seq<(Target, ShaderStage)>
    requires st.vertex.Some?
  {
    WithGeometry(st, Front(st))
  }

  /**
   * The plan as written never contains the fragment stage, and it contains
   * the geometry stage twice when there is one.
   */
  lemma AsWrittenMissesFragment(st: Stages)
    requires st.vertex.Some?
    ensures forall i :: 0 <= i < |AsWrittenPlan(st)| ==> AsWrittenPlan(st)[i].0 != Fragment
    ensures st.geometry.Some? ==>
              |AsWrittenPlan(st)| >= 3
              && AsWrittenPlan(st)[|AsWrittenPlan(st)| - 1] == (Geometry, st.geometry.value)
              && AsWrittenPlan(st)[|AsWrittenPlan(st)| - 2] == (Geometry, st.geometry.value)
    ensures st.geometry.None? ==> AsWrittenPlan(st) == Front(st)
  {
    var front := WithTessellation(st, [(Vertex, st.vertex.value)]);
    assert forall i :: 0 <= i < |front| ==> front[i].0 != Fragment;
  }

  /** The intended plan, with the fragment stage: it always ends with it when the builder has one. */
  lemma IntendedPlanAttachesFragment(st: Stages)
    requires st.vertex.Some? && st.fragment.Some?
    ensures BuildOrder(st).complete
    ensures BuildOrder(st).stages == Front(st) + [(Fragment, st.fragment.value)]
  {
  }

  /** `build` as written: the program, the as-written plan, then `link`. */
  method BuildAsWritten(gl: Gl, b: Builder, q: Query) returns (r: Result<Program, seq<bv8>>)
    requires b.target == Fragment && HasVertex(b) && Answered(q)
    modifies gl
    ensures r.Ok? <==> q.length <= 0
    ensures gl.trace == old(gl.trace) + [Create(ProgramObj, 1)] + PlanCalls(old(gl.State().next), AsWrittenPlan(b.stages))
                        + [LinkProgram(old(gl.State().next))]
                        + (if r.Ok? then [] else [Delete(ProgramObj, [old(gl.State().next)])])
  {
    var program := Default(gl);
    ghost var start := gl.trace;
    AttachFront(gl, program.base.name, b.stages);
    ghost var done := AttachGeometry(gl, program.base.name, start, Front(b.stages), b.stages);
    r := Link(gl, program, q);
  }

  /**
   * `build` with the last branch testing the fragment stage: the program,
   * the stages in pipeline order with the fragment stage last, then `link`.
   */
  method Build(gl: Gl, b: Builder, q: Query) returns (r: Result<Program, seq<bv8>>)
    requires b.target == Fragment && HasVertex(b) && Answered(q)
    modifies gl
    ensures r.Ok? <==> q.length <= 0
    ensures gl.trace == old(gl.trace) + [Create(ProgramObj, 1)] + PlanCalls(old(gl.State().next), BuildOrder(b.stages).stages)
                        + [LinkProgram(old(gl.State().next))]
                        + (if r.Ok? then [] else [Delete(ProgramObj, [old(gl.State().next)])])
  {
    var program := Default(gl);
    var complete := AttachInOrder(gl, program.base.name, b.stages);
    r := Link(gl, program, q);
  }
}
