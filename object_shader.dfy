/**
 * The stage-typed shaders of `src/object/shader.rs`: a shader is a bare
 * object name tagged with its stage, allocated per slot with the stage's
 * token; a `ProgramBuilder` holds at most one shader per stage, and a
 * `Program` holds the shapes a pipeline may take.
 */
module ObjectShader {
  import opened Wrappers
  import opened Driver
  import opened Stage
  import opened Allocator
  import GlError

  /** `Object(Name)`: a plain, copyable name. */
  datatype Object = Object(name: nat)

  /** `Shader<S>`: an object and, in its type, its stage. */
  datatype Shader = Shader(base: Object, stage: Target)

  /** `Const<GLenum>::VALUE` of each stage: the shader-type tokens of the OpenGL 4.6 Core Profile. */
  function StageToken(t: Target): nat
  {
    match t
    case Vertex => 0x8B31
    case TessControl => 0x8E88
    case TessEvaluation => 0x8E87
    case Geometry => 0x8DD9
    case Fragment => 0x8B30
    case Compute => 0x91B9
  }

  /** Every stage has a token of its own. */
  lemma StageTokensDistinct(a: Target, b: Target)
    ensures StageToken(a) == StageToken(b) ==> a == b
  {
  }

  /** `Into<Object>`: the shader's object. */
  function IntoObject(s: Shader): (o: Object)
  {
    s.base
  }

  /** `From<Object>`: the object, typed with the stage `S`. */
  function FromObject(o: Object, stage: Target): (s: Shader)
  {
    Shader(o, stage)
  }

  /** Converting to an object and back keeps the handle, and the stage is the type's. */
  lemma ObjectRoundTrip(o: Object, s: Shader)
    ensures IntoObject(FromObject(o, s.stage)) == o
    ensures FromObject(IntoObject(s), s.stage) == s
    ensures FromObject(o, s.stage).stage == s.stage
  {
  }

  /**
   * `Resource::initialize`: one `CreateShader(S::VALUE)` per slot, each name
   * written into its slot; always `Ok`.
   */
  method Initialize(gl: Gl, stage: Target, names: array<nat>) returns (r: Result<(), seq<GlError.Error>>)
    modifies gl, names
    ensures r == Ok(())
    ensures gl.trace == old(gl.trace) + EachCreate(ShaderObj, names.Length)
    ensures forall i :: 0 <= i < names.Length ==> names[i] == old(gl.State().next) + i
  {
    AllocateEach(gl, ShaderObj, names);
    r := Ok(());
  }

  /** `Resource::free`: one `DeleteShader` per name, in order; always `Ok`. */
  method Free(gl: Gl, names: seq<nat>) returns (r: Result<(), seq<GlError.Error>>)
    modifies gl
    ensures r == Ok(())
    ensures gl.trace == old(gl.trace) + EachDelete(ShaderObj, names)
  {
    FreeEach(gl, ShaderObj, names);
    r := Ok(());
  }

  /** After `initialize` on fresh slots, the names written are live shader objects. */
  lemma InitializeMakesLive(s: State, n: nat, i: nat)
    requires i < n
    ensures Handle(ShaderObj, s.next + i) in Run(s, EachCreate(ShaderObj, n)).live
  {
    EachCreateIsBatch(s, ShaderObj, n);
    assert Handle(ShaderObj, s.next + i) in Fresh(ShaderObj, s.next, n);
  }

  /**
   * `ProgramBuilder`: the program's object and one optional shader per
   * stage. `Attach<S>` stores a shader in the field of its stage.
   */
  class ProgramBuilder {
    var base: Object
    var vertex: Option<Shader>
    var tessControl: Option<Shader>
    var tessEvaluation: Option<Shader>
    var geometry: Option<Shader>
    var fragment: Option<Shader>
    var compute: Option<Shader>

    /** The field of stage `t`. */
    function Slot(t: Target): Option<Shader>
      reads this
    {
      match t
      case Vertex => vertex
      case TessControl => tessControl
      case TessEvaluation => tessEvaluation
      case Geometry => geometry
      case Fragment => fragment
      case Compute => compute
    }

    /** Each field holds a shader of its own stage (`Option<Shader<S>>`). */
    predicate Typed()
      reads this
    {
      forall t :: Slot(t).Some? ==> Slot(t).value.stage == t
    }

    /**
     * `Attach<S>::attach`: the shader goes into its stage's field, replacing
     * what was there; every other field is unchanged.
     */
    method Attach(s: Shader)
      modifies this
      ensures Slot(s.stage) == Some(s)
      ensures forall t :: t != s.stage ==> Slot(t) == old(Slot(t))
      ensures base == old(base)
      ensures old(Typed()) ==> Typed()
    {
      match s.stage
      case Vertex => vertex := Some(s);
      case TessControl => tessControl := Some(s);
      case TessEvaluation => tessEvaluation := Some(s);
      case Geometry => geometry := Some(s);
      case Fragment => fragment := Some(s);
      case Compute => compute := Some(s);
    }
  }

  /**
   * `Program`: a vertex and a fragment shader always, tessellation only as a
   * control and evaluation pair, geometry and compute optionally.
   * `ProgramConfiguration` holds nothing and is left out.
   */
  datatype Program = Program(
    base: Object,
    vertex: Shader,
    tessellation: Option<(Shader, Shader)>,
    geometry: Option<Shader>,
    fragment: Shader,
    compute: Option<Shader>)

  /** The stage types of the fields. */
  predicate WellTyped(p: Program)
  {
    p.vertex.stage == Vertex && p.fragment.stage == Fragment
    && (p.tessellation.Some? ==> p.tessellation.value.0.stage == TessControl && p.tessellation.value.1.stage == TessEvaluation)
    && (p.geometry.Some? ==> p.geometry.value.stage == Geometry)
    && (p.compute.Some? ==> p.compute.value.stage == Compute)
  }

  /** The shaders a program holds, in pipeline order. */
  function Shaders(p: Program): seq<Shader>
  {
    [p.vertex]
    + (if p.tessellation.Some? then [p.tessellation.value.0, p.tessellation.value.1] else [])
    + (if p.geometry.Some? then [p.geometry.value] else [])
    + [p.fragment]
    + (if p.compute.Some? then [p.compute.value] else [])
  }

  function StagesOf(ss: seq<Shader>): (r: seq<Target>)
    ensures |r| == |ss|
    ensures forall i :: 0 <= i < |ss| ==> r[i] == ss[i].stage
  {
    if ss == [] then [] else [ss[0].stage] + StagesOf(ss[1..])
  }

  /**
   * Every well-typed program has a vertex and a fragment shader, has a
   * tessellation control shader exactly when it has an evaluation shader,
   * and holds at most one shader per stage.
   */
  lemma ProgramShape(p: Program)
    requires WellTyped(p)
    ensures Vertex in StagesOf(Shaders(p)) && Fragment in StagesOf(Shaders(p))
    ensures TessControl in StagesOf(Shaders(p)) <==> TessEvaluation in StagesOf(Shaders(p))
    ensures forall i, j :: 0 <= i < j < |Shaders(p)| ==> Shaders(p)[i].stage != Shaders(p)[j].stage
  {
    var ss := Shaders(p);
    var ts := StagesOf(ss);
    assert ts[0] == Vertex;
    var k := if p.tessellation.Some? then 3 else 1;
    k := if p.geometry.Some? then k + 1 else k;
    assert ss[k] == p.fragment;
    assert ts[k] == Fragment;
    if p.tessellation.Some? {
      assert ts[1] == TessControl && ts[2] == TessEvaluation;
    } else {
      assert forall i :: 0 <= i < |ts| ==> ts[i] != TessControl && ts[i] != TessEvaluation;
    }
  }
}
