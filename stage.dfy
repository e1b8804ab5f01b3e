/**
 * Shader targets, the stage transition table, and program stages.
 *
 * Both program builders keep one optional `ShaderStage` per target, a main
 * shader plus the library shaders linked with it, and `build` attaches the
 * stages in pipeline order. Shaders are referred to by their driver names.
 */
module Stage {
  import opened Wrappers
  import opened Driver

  /** The shader targets of `target::shader`. */
  datatype Target = Vertex | TessControl | TessEvaluation | Geometry | Fragment | Compute

  /** Position in the graphics pipeline; `Compute` is outside it. */
  function Rank(t: Target): nat
  {
    match t
    case Vertex => 0
    case TessControl => 1
    case TessEvaluation => 2
    case Geometry => 3
    case Fragment => 4
    case Compute => 5
  }

  predicate IsTessellation(t: Target)
  {
    t == TessControl || t == TessEvaluation
  }

  // ---------------------------------------------------------------------
  // Transitions

  /**
   * `NextTarget` of `src/object/program/attach.rs`: attaching a main shader
   * of target `attached` to a builder at `current` moves it to `Next`.
   */
  function NextTarget(attached: Target, current: Target): (r: Option<Target>)
    ensures r.Some? ==> r.value == attached && Rank(current) < Rank(attached) < Rank(Compute)
    ensures r.None? <==> attached == Vertex || attached == Compute || current == Fragment || current == Compute
                         || (attached == TessControl && current != Vertex)
                         || (attached == TessEvaluation && current != TessControl)
                         || (attached == Geometry && current != Vertex && current != TessEvaluation)
                         || (attached == Fragment && current == TessControl)
  {
    match (attached, current)
    case (TessControl, Vertex) => Some(TessControl)
    case (Geometry, Vertex) => Some(Geometry)
    case (Fragment, Vertex) => Some(Fragment)
    case (TessEvaluation, TessControl) => Some(TessEvaluation)
    case (Geometry, TessEvaluation) => Some(Geometry)
    case (Fragment, TessEvaluation) => Some(Fragment)
    case (Fragment, Geometry) => Some(Fragment)
    case _ => None
  }

  /** The seven (attached, current) pairs of the table, written out. */
  const Entries: seq<(Target, Target)> := [
    (TessControl, Vertex), (Geometry, Vertex), (Fragment, Vertex),
    (TessEvaluation, TessControl),
    (Geometry, TessEvaluation), (Fragment, TessEvaluation),
    (Fragment, Geometry)]

  /**
   * The table has exactly seven entries, and in each the next target is the
   * attached shader's own target: nothing follows `Fragment` or `Compute`,
   * and neither `Vertex` nor `Compute` is ever a successor.
   */
  lemma NextTargetTable(attached: Target, current: Target)
    ensures NextTarget(attached, current).Some? <==> (attached, current) in Entries
    ensures |Entries| == 7 && forall i, j :: 0 <= i < j < |Entries| ==> Entries[i] != Entries[j]
    ensures NextTarget(attached, current).Some? ==>
              NextTarget(attached, current).value == attached
              && attached != Vertex && attached != Compute
              && current != Fragment && current != Compute
              && Rank(current) < Rank(attached)
  {
  }

  /**
   * The transitions the impl blocks of both `Builder`s offer: from `current`
   * a `*_main` of target `next` can be attached.
   */
  predicate Follows(current: Target, next: Target)
  {
    match current
    case Vertex => next == TessControl || next == Geometry || next == Fragment
    case TessControl => next == TessEvaluation
    case TessEvaluation => next == Geometry || next == Fragment
    case Geometry => next == Fragment
    case _ => false
  }

  /** The builders' impl blocks and the `NextTarget` table describe the same transitions. */
  lemma FollowsIsNextTarget(current: Target, next: Target)
    ensures Follows(current, next) <==> NextTarget(next, current) == Some(next)
  {
  }

  /**
   * The target sequences the impl blocks allow, from `Vertex` to `Fragment`:
   * each step is a transition of `Follows`.
   */
  predicate IsPath(ts: seq<Target>)
  {
    forall i :: 0 <= i < |ts| - 1 ==> Follows(ts[i], ts[i + 1])
  }

  /** The complete paths from `t` to `Fragment`. */
  function PathsFrom(t: Target): set<seq<Target>>
  {
    match t
    case Fragment => {[Fragment]}
    case Geometry => {[Geometry, Fragment]}
    case TessEvaluation => {[TessEvaluation, Geometry, Fragment], [TessEvaluation, Fragment]}
    case TessControl => {[TessControl, TessEvaluation, Geometry, Fragment], [TessControl, TessEvaluation, Fragment]}
    case Vertex => {[Vertex, TessControl, TessEvaluation, Geometry, Fragment], [Vertex, TessControl, TessEvaluation, Fragment],
                    [Vertex, Geometry, Fragment], [Vertex, Fragment]}
    case Compute => {}
  }

  lemma ConsPath(t: Target, rest: seq<Target>)
    requires |rest| >= 1 && Follows(t, rest[0]) && rest in PathsFrom(rest[0])
    ensures [t] + rest in PathsFrom(t)
  {
    var F, G, TE, TC := [Fragment], [Geometry, Fragment], [TessEvaluation, Geometry, Fragment], [TessEvaluation, Fragment];
    if rest == F {
      assert [t] + rest == [t, Fragment];
    } else if rest == G {
      assert [t] + rest == [t, Geometry, Fragment];
    } else if rest == TE {
      assert [t] + rest == [t, TessEvaluation, Geometry, Fragment];
    } else if rest == TC {
      assert [t] + rest == [t, TessEvaluation, Fragment];
    } else if rest == [TessControl] + TE {
      assert [t] + rest == [t, TessControl, TessEvaluation, Geometry, Fragment];
    } else {
      assert rest == [TessControl] + TC;
      assert [t] + rest == [t, TessControl, TessEvaluation, Fragment];
    }
  }

  lemma {:induction false} PathSuffix(ts: seq<Target>)
    requires |ts| >= 1 && IsPath(ts) && ts[|ts| - 1] == Fragment
    ensures ts in PathsFrom(ts[0])
    decreases |ts|
  {
    if |ts| == 1 {
      assert ts == [Fragment];
    } else {
      var rest := ts[1..];
      assert IsPath(rest) by {
        forall i | 0 <= i < |rest| - 1 ensures Follows(rest[i], rest[i + 1]) {
          assert Follows(ts[i + 1], ts[i + 2]);
        }
      }
      PathSuffix(rest);
      assert Follows(ts[0], ts[1]);
      assert ts == [ts[0]] + rest;
      ConsPath(ts[0], rest);
    }
  }

  /**
   * Every run of the type-state from `Vertex` that ends at `Fragment`, where
   * `build` lives, passes through the stages in one of four orders:
   * tessellation comes as a control/evaluation pair, and geometry is optional.
   */
  lemma PipelineShapes(ts: seq<Target>)
    requires |ts| >= 1 && ts[0] == Vertex && ts[|ts| - 1] == Fragment
    ensures IsPath(ts) <==> ts in PathsFrom(Vertex)
  {
    if IsPath(ts) {
      PathSuffix(ts);
    }
  }

  // ---------------------------------------------------------------------
  // Stages

  /** `ShaderStage`: the main shader of a stage and the libraries linked with it, by name. */
  datatype ShaderStage = ShaderStage(main: nat, libs: seq<nat>)

  /** `ShaderStage::new`: the given main shader and no libraries. */
  function NewStage(main: nat): (s: ShaderStage)
    ensures s.main == main && |s.libs| == 0
  {
    ShaderStage(main, [])
  }

  /** `libs.push` / `shared.push`. */
  function Push(s: ShaderStage, lib: nat): (r: ShaderStage)
    ensures r.main == s.main && r.libs == s.libs + [lib]
  {
    s.(libs := s.libs + [lib])
  }

  /** The shaders of a stage in the order `attach` attaches them: main first, then each library. */
  function Members(s: ShaderStage): (r: seq<nat>)
    ensures |r| == |s.libs| + 1 && r[0] == s.main && r[1..] == s.libs
  {
    [s.main] + s.libs
  }

  /** The optional stage of each target, as the builders hold them. */
  datatype Stages = Stages(
    vertex: Option<ShaderStage>,
    tessControl: Option<ShaderStage>,
    tessEvaluation: Option<ShaderStage>,
    geometry: Option<ShaderStage>,
    fragment: Option<ShaderStage>,
    compute: Option<ShaderStage>)

  const NoStages := Stages(None, None, None, None, None, None)

  function Get(st: Stages, t: Target): Option<ShaderStage>
  {
    match t
    case Vertex => st.vertex
    case TessControl => st.tessControl
    case TessEvaluation => st.tessEvaluation
    case Geometry => st.geometry
    case Fragment => st.fragment
    case Compute => st.compute
  }

  /** Assigning the field of one target leaves every other field unchanged. */
  function Set(st: Stages, t: Target, v: Option<ShaderStage>): (r: Stages)
    ensures Get(r, t) == v
    ensures forall u :: u != t ==> Get(r, u) == Get(st, u)
  {
    match t
    case Vertex => st.(vertex := v)
    case TessControl => st.(tessControl := v)
    case TessEvaluation => st.(tessEvaluation := v)
    case Geometry => st.(geometry := v)
    case Fragment => st.(fragment := v)
    case Compute => st.(compute := v)
  }

  /**
   * `*_shared`: push a library onto the stage of `t`; `None` is the panic of
   * `expect` when that stage was never set.
   */
  function PushShared(st: Stages, t: Target, lib: nat): (r: Option<Stages>)
    ensures r.None? <==> Get(st, t).None?
    ensures r.Some? ==> Get(r.value, t) == Some(Push(Get(st, t).value, lib))
    ensures r.Some? ==> forall u :: u != t ==> Get(r.value, u) == Get(st, u)
  {
    match Get(st, t)
    case None => None
    case Some(s) => Some(Set(st, t, Some(Push(s, lib))))
  }

  // ---------------------------------------------------------------------
  // Build order

  /**
   * What `build` attaches, in order, and whether it got past both `expect`s
   * (`complete`). It attaches the vertex stage; tessellation control and
   * evaluation only when both are set; geometry when set; then fragment.
   * A missing vertex stage stops it before anything is attached, a missing
   * fragment stage after the others.
   */
  datatype Plan = Plan(stages: seq<(Target, ShaderStage)>, complete: bool)

  /** A complete plan names every stage that is set, except compute and a lone tessellation stage. */
  lemma CompletePlanCovers(st: Stages, all: seq<(Target, ShaderStage)>)
    requires st.vertex.Some? && st.fragment.Some?
    requires all == Front(st) + [(Fragment, st.fragment.value)]
    ensures forall t :: Get(st, t).Some? && t != Compute && (IsTessellation(t) ==> st.tessControl.Some? && st.tessEvaluation.Some?) ==>
              exists i :: 0 <= i < |all| && all[i].0 == t
  {
    forall t | Get(st, t).Some? && t != Compute && (IsTessellation(t) ==> st.tessControl.Some? && st.tessEvaluation.Some?)
      ensures exists i :: 0 <= i < |all| && all[i].0 == t
    {
      match t
      case Vertex => assert all[0].0 == t;
      case TessControl => assert all[1].0 == t;
      case TessEvaluation => assert all[2].0 == t;
      case Geometry => assert all[|all| - 2].0 == t;
      case Fragment => assert all[|all| - 1].0 == t;
    }
  }

  function BuildOrder(st: Stages): (p: Plan)
    ensures p.complete <==> st.vertex.Some? && st.fragment.Some?
    ensures forall i :: 0 <= i < |p.stages| ==> Get(st, p.stages[i].0) == Some(p.stages[i].1)
    ensures forall i, j :: 0 <= i < j < |p.stages| ==> Rank(p.stages[i].0) < Rank(p.stages[j].0)
    ensures forall i :: 0 <= i < |p.stages| ==> p.stages[i].0 != Compute
    ensures st.vertex.Some? ==> |p.stages| >= 1 && p.stages[0].0 == Vertex
    ensures p.complete ==> p.stages[|p.stages| - 1].0 == Fragment
    ensures forall i :: 0 <= i < |p.stages| && IsTessellation(p.stages[i].0) ==>
              st.tessControl.Some? && st.tessEvaluation.Some?
    ensures p.complete ==>
              forall t :: Get(st, t).Some? && t != Compute && (IsTessellation(t) ==> st.tessControl.Some? && st.tessEvaluation.Some?) ==>
                exists i :: 0 <= i < |p.stages| && p.stages[i].0 == t
  {
    if st.vertex.None? then Plan([], false)
    else if st.fragment.None? then Plan(Front(st), false)
    else
      var all := Front(st) + [(Fragment, st.fragment.value)];
      CompletePlanCovers(st, all);
      Plan(all, true)
  }

  /** The stages `build` attaches before it looks at the fragment stage. */
  function Front(st: Stages): seq<(Target, ShaderStage)>
    requires st.vertex.Some?
  {
    WithGeometry(st, WithTessellation(st, [(Vertex, st.vertex.value)]))
  }

  function WithTessellation(st: Stages, done: seq<(Target, ShaderStage)>): seq<(Target, ShaderStage)>
  {
    if st.tessControl.Some? && st.tessEvaluation.Some?
    then done + [(TessControl, st.tessControl.value)] + [(TessEvaluation, st.tessEvaluation.value)]
    else done
  }

  function WithGeometry(st: Stages, done: seq<(Target, ShaderStage)>): seq<(Target, ShaderStage)>
  {
    if st.geometry.Some? then done + [(Geometry, st.geometry.value)] else done
  }

  // ---------------------------------------------------------------------
  // Attaching

  /** The `AttachShader` calls of attaching one stage to `program`. */
  function StageCalls(program: nat, s: ShaderStage): (r: seq<Call>)
    ensures |r| == |Members(s)|
    ensures forall i :: 0 <= i < |r| ==> r[i] == AttachShader(program, Members(s)[i])
  {
    AttachEach(program, Members(s))
  }

  function AttachEach(program: nat, shaders: seq<nat>): (r: seq<Call>)
    ensures |r| == |shaders|
    ensures forall i :: 0 <= i < |r| ==> r[i] == AttachShader(program, shaders[i])
  {
    if shaders == [] then [] else AttachEach(program, shaders[..|shaders| - 1]) + [AttachShader(program, shaders[|shaders| - 1])]
  }

  /** The (program, shader) pairs an attach records. */
  function Pairs(program: nat, shaders: seq<nat>): (r: seq<(nat, nat)>)
    ensures |r| == |shaders| && forall i :: 0 <= i < |r| ==> r[i] == (program, shaders[i])
  {
    if shaders == [] then [] else Pairs(program, shaders[..|shaders| - 1]) + [(program, shaders[|shaders| - 1])]
  }

  /** Attaching shaders one by one records them with the driver in the same order. */
  lemma {:induction false} AttachEachRecords(s: State, program: nat, shaders: seq<nat>)
    ensures Run(s, AttachEach(program, shaders)).attached == s.attached + Pairs(program, shaders)
    ensures Run(s, AttachEach(program, shaders)).live == s.live
    decreases |shaders|
  {
    if shaders == [] {
      assert Pairs(program, shaders) == [];
      assert AttachEach(program, shaders) == [];
    } else {
      var init := shaders[..|shaders| - 1];
      var c := AttachShader(program, shaders[|shaders| - 1]);
      var cs := AttachEach(program, shaders);
      assert cs[..|cs| - 1] == AttachEach(program, init);
      assert cs[|cs| - 1] == c;
      assert Pairs(program, shaders) == Pairs(program, init) + [(program, shaders[|shaders| - 1])];
      AttachEachRecords(s, program, init);
      assert Run(s, cs) == Step(Run(s, AttachEach(program, init)), c);
    }
  }

  /**
   * `Program::attach` (both trees): `AttachShader` for the main shader, then
   * one for each library, in push order.
   */
  method AttachStage(gl: Gl, program: nat, s: ShaderStage)
    modifies gl
    ensures gl.trace == old(gl.trace) + StageCalls(program, s)
  {
    var shaders := Members(s);
    gl.Issue(AttachShader(program, s.main));
    var i := 1;
    while i < |shaders|
      invariant 1 <= i <= |shaders|
      invariant gl.trace == old(gl.trace) + AttachEach(program, shaders[..i])
    {
      assert shaders[..i + 1][..i] == shaders[..i];
      gl.Issue(AttachShader(program, shaders[i]));
      i := i + 1;
    }
    assert shaders[..i] == shaders;
  }

  /** The stages of a plan, each expanded to its members, in order. */
  function PlanShaders(stages: seq<(Target, ShaderStage)>): seq<nat>
  {
    if stages == [] then [] else PlanShaders(stages[..|stages| - 1]) + Members(stages[|stages| - 1].1)
  }

  lemma AttachEachConcat(program: nat, a: seq<nat>, b: seq<nat>)
    ensures AttachEach(program, a + b) == AttachEach(program, a) + AttachEach(program, b)
  {
  }

  /** The calls of attaching the stages of a plan one after another. */
  function PlanCalls(program: nat, stages: seq<(Target, ShaderStage)>): seq<Call>
  {
    if stages == [] then [] else PlanCalls(program, stages[..|stages| - 1]) + StageCalls(program, stages[|stages| - 1].1)
  }

  lemma AttachSnoc(program: nat, done: seq<(Target, ShaderStage)>, x: (Target, ShaderStage))
    ensures PlanCalls(program, done + [x]) == PlanCalls(program, done) + StageCalls(program, x.1)
  {
    assert (done + [x])[..|done|] == done;
  }

  lemma SeqAssoc(a: seq<Call>, b: seq<Call>, c: seq<Call>)
    ensures a + b + c == a + (b + c)
  {
  }

  /** Attaching a plan attaches its shaders, stage by stage, each main shader before its libraries. */
  lemma {:induction false} PlanCallsAttachEach(program: nat, stages: seq<(Target, ShaderStage)>)
    ensures PlanCalls(program, stages) == AttachEach(program, PlanShaders(stages))
  {
    if stages != [] {
      PlanCallsAttachEach(program, stages[..|stages| - 1]);
      AttachEachConcat(program, PlanShaders(stages[..|stages| - 1]), Members(stages[|stages| - 1].1));
    }
  }

  /** Attaching a plan records every shader of it with the driver, paired with the program, in plan order. */
  lemma PlanRecords(s: State, program: nat, stages: seq<(Target, ShaderStage)>)
    ensures Run(s, PlanCalls(program, stages)).attached == s.attached + Pairs(program, PlanShaders(stages))
    ensures Run(s, PlanCalls(program, stages)).live == s.live
  {
    PlanCallsAttachEach(program, stages);
    AttachEachRecords(s, program, PlanShaders(stages));
  }

  /**
   * The attach half of `build` (both trees): the vertex stage (`expect`), the
   * tessellation pair when both halves are set, geometry when set, then the
   * fragment stage (`expect`). `complete` is false where an `expect` panics;
   * the calls made before the panic stay issued.
   */
  method AttachInOrder(gl: Gl, program: nat, st: Stages) returns (complete: bool)
    modifies gl
    ensures complete == BuildOrder(st).complete
    ensures gl.trace == old(gl.trace) + PlanCalls(program, BuildOrder(st).stages)
  {
    if st.vertex.None? {
      return false;
    }
    AttachFront(gl, program, st);
    if st.fragment.None? {
      return false;
    }
    ghost var all := Attach(gl, program, old(gl.trace), Front(st), (Fragment, st.fragment.value));
    complete := true;
  }

  method AttachFront(gl: Gl, program: nat, st: Stages)
    requires st.vertex.Some?
    modifies gl
    ensures gl.trace == old(gl.trace) + PlanCalls(program, Front(st))
  {
    ghost var start := gl.trace;
    assert gl.trace == start + PlanCalls(program, []);
    ghost var done := Attach(gl, program, start, [], (Vertex, st.vertex.value));
    done := AttachTessellation(gl, program, start, done, st);
    done := AttachGeometry(gl, program, start, done, st);
  }

  method AttachTessellation(gl: Gl, program: nat, ghost start: seq<Call>, ghost done: seq<(Target, ShaderStage)>, st: Stages)
    returns (ghost done': seq<(Target, ShaderStage)>)
    requires gl.trace == start + PlanCalls(program, done)
    modifies gl
    ensures done' == WithTessellation(st, done)
    ensures gl.trace == start + PlanCalls(program, done')
  {
    done' := done;
    if st.tessControl.Some? && st.tessEvaluation.Some? {
      done' := Attach(gl, program, start, done', (TessControl, st.tessControl.value));
      done' := Attach(gl, program, start, done', (TessEvaluation, st.tessEvaluation.value));
    }
  }

  method AttachGeometry(gl: Gl, program: nat, ghost start: seq<Call>, ghost done: seq<(Target, ShaderStage)>, st: Stages)
    returns (ghost done': seq<(Target, ShaderStage)>)
    requires gl.trace == start + PlanCalls(program, done)
    modifies gl
    ensures done' == WithGeometry(st, done)
    ensures gl.trace == start + PlanCalls(program, done')
  {
    done' := done;
    if st.geometry.Some? {
      done' := Attach(gl, program, start, done', (Geometry, st.geometry.value));
    }
  }

  /**
   * One stage of `build`: with the stages `done` attached since `start`,
   * attaching `x` extends both by one stage.
   */
  method Attach(gl: Gl, program: nat, ghost start: seq<Call>, ghost done: seq<(Target, ShaderStage)>, x: (Target, ShaderStage))
    returns (ghost done': seq<(Target, ShaderStage)>)
    requires gl.trace == start + PlanCalls(program, done)
    modifies gl
    ensures done' == done + [x]
    ensures gl.trace == start + PlanCalls(program, done')
  {
    AttachStage(gl, program, x.1);
    done' := done + [x];
    AttachSnoc(program, done, x);
    SeqAssoc(start, PlanCalls(program, done), StageCalls(program, x.1));
  }

  // ---------------------------------------------------------------------
  // The calls of build

  /**
   * The calls of `build` after the attachments: a delete when an `expect`
   * panicked, else the link and, unless the program is `kept`, a delete.
   */
  function Ending(name: nat, complete: bool, kept: bool): seq<Call>
  {
    if !complete then [Delete(ProgramObj, [name])]
    else if kept then [LinkProgram(name)]
    else [LinkProgram(name), Delete(ProgramObj, [name])]
  }

  /** The calls of a `build` that creates a program named `name`. */
  function BuildCalls(name: nat, st: Stages, kept: bool): seq<Call>
  {
    ([Create(ProgramObj, 1)] + PlanCalls(name, BuildOrder(st).stages)) + Ending(name, BuildOrder(st).complete, kept)
  }

  lemma CreateThenAttach(s: State, name: nat, stages: seq<(Target, ShaderStage)>)
    requires name == s.next
    ensures Run(s, [Create(ProgramObj, 1)] + PlanCalls(name, stages)).attached == s.attached + Pairs(name, PlanShaders(stages))
    ensures Handle(ProgramObj, name) in Run(s, [Create(ProgramObj, 1)] + PlanCalls(name, stages)).live
  {
    RunSingle(s, Create(ProgramObj, 1));
    assert Handle(ProgramObj, name) in Fresh(ProgramObj, s.next, 1);
    PlanRecords(Run(s, [Create(ProgramObj, 1)]), name, stages);
    RunConcat(s, [Create(ProgramObj, 1)], PlanCalls(name, stages));
  }

  lemma EndingEffect(s: State, name: nat, complete: bool, kept: bool)
    ensures Run(s, Ending(name, complete, kept)).attached == s.attached
    ensures Handle(ProgramObj, name) in s.live ==>
              (Handle(ProgramObj, name) in Run(s, Ending(name, complete, kept)).live <==> complete && kept)
  {
    if !complete {
      RunSingle(s, Delete(ProgramObj, [name]));
    } else if kept {
      RunSingle(s, LinkProgram(name));
    } else {
      RunTwo(s, LinkProgram(name), Delete(ProgramObj, [name]));
    }
  }

  /**
   * A `build` that gets as far as creating the program records the plan's
   * shaders with it, in order, and only a kept program stays live.
   */
  lemma BuildEffect(s: State, name: nat, st: Stages, kept: bool)
    requires name == s.next
    ensures Run(s, BuildCalls(name, st, kept)).attached == s.attached + Pairs(name, PlanShaders(BuildOrder(st).stages))
    ensures Handle(ProgramObj, name) in Run(s, BuildCalls(name, st, kept)).live <==> BuildOrder(st).complete && kept
  {
    var front := [Create(ProgramObj, 1)] + PlanCalls(name, BuildOrder(st).stages);
    CreateThenAttach(s, name, BuildOrder(st).stages);
    EndingEffect(Run(s, front), name, BuildOrder(st).complete, kept);
    RunConcat(s, front, Ending(name, BuildOrder(st).complete, kept));
  }
}
