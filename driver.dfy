/**
 * An abstract OpenGL driver: the part of the GL server state that the
 * gpu-bulwark wrappers change, and the calls they issue.
 *
 * The driver itself is foreign code. It is modelled as a deterministic
 * state machine: `Step` gives the effect of one call and `Run` the effect
 * of a sequence of calls. `Gl` is the mutable handle through which the
 * wrapper classes issue calls; it remembers the calls issued (`trace`), so
 * each wrapper method can state exactly which state-changing calls it makes,
 * in order (queries are not recorded),
 * and lemmas about `Run` say what those calls achieve.
 *
 * Values the driver returns from queries (info-log lengths, link status)
 * are parameters of the wrapper methods, not part of this state.
 */
module Driver {

  /** The object namespaces. */
  datatype Kind = BufferObj | VertexArrayObj | ShaderObj | ProgramObj | TextureObj

  datatype Handle = Handle(kind: Kind, name: nat)

  /**
   * Buffer binding targets. Their token values live in the bindings crate
   * and are not part of this model; only ARRAY_BUFFER is singled out,
   * because vertex attribute pointers read it.
   */
  datatype BufferTarget = ArrayBuffer | ElementArrayBuffer | UniformBuffer | OtherBuffer(id: nat)

  /** A binding point: a buffer target, the vertex array, the current program, a texture target. */
  datatype BindPoint =
    | BufferPoint(target: BufferTarget)
    | VertexArrayPoint
    | ProgramPoint
    | TexturePoint(texTarget: nat)

  /** What `VertexAttribPointer` records for one attribute of a vertex array. */
  datatype Pointer = Pointer(buffer: nat, size: nat, ty: nat, normalized: bool, stride: nat, offset: nat)

  /** One `BufferData` upload: the buffer bound at the time, the byte count and the usage token. */
  datatype Upload = Upload(buffer: nat, bytes: nat, usage: nat)

  datatype Call =
    | Create(kind: Kind, count: nat)
    | Delete(kind: Kind, names: seq<nat>)
    | Bind(point: BindPoint, name: nat)
    | BufferData(target: BufferTarget, bytes: nat, usage: nat)
    | MapBuffer(target: BufferTarget, access: nat)
    | UnmapBuffer(target: BufferTarget)
    | VertexAttribPointer(index: nat, size: nat, ty: nat, normalized: bool, stride: nat, offset: nat)
    | EnableVertexAttribArray(index: nat)
    | ShaderSource(shader: nat, count: nat, lengths: seq<nat>)
    | CompileShader(shader: nat)
    | AttachShader(program: nat, shader: nat)
    | LinkProgram(program: nat)
    | TexStorage2D(texTarget: nat, levels: nat, format: nat, width: nat, height: nat)
    | TexSubImage2D(texTarget: nat, level: nat, x: int, y: int, width: nat, height: nat, format: nat, ty: nat)

  /**
   * `next` is the next name the driver hands out; names are never reused,
   * and 0 is never a name. `freed` logs every handle passed to a delete
   * call, so a handle deleted twice appears twice. `pointers` and
   * `enabled` are keyed by (vertex array, attribute index).
   */
  datatype State = State(
    next: nat,
    live: set<Handle>,
    freed: seq<Handle>,
    bindings: map<BindPoint, nat>,
    pointers: map<(nat, nat), Pointer>,
    enabled: set<(nat, nat)>,
    uploads: seq<Upload>,
    attached: seq<(nat, nat)>)

  const Initial := State(1, {}, [], map[], map[], {}, [], [])

  /** The name bound at `p`; 0 when nothing is. */
  function Bound(s: State, p: BindPoint): nat
  {
    if p in s.bindings then s.bindings[p] else 0
  }

  function Fresh(kind: Kind, from: nat, count: nat): set<Handle>
  {
    set i | from <= i < from + count :: Handle(kind, i)
  }

  function Handles(kind: Kind, names: seq<nat>): (r: seq<Handle>)
    ensures |r| == |names|
    ensures forall i :: 0 <= i < |names| ==> r[i] == Handle(kind, names[i])
  {
    if names == [] then [] else [Handle(kind, names[0])] + Handles(kind, names[1..])
  }

  /** The effect of one call. Calls with no modelled effect leave the state unchanged. */
  function Step(s: State, c: Call): State
  {
    match c
    case Create(kind, n) =>
      s.(next := s.next + n, live := s.live + Fresh(kind, s.next, n))
    case Delete(kind, names) =>
      s.(live := s.live - (set n | n in names :: Handle(kind, n)), freed := s.freed + Handles(kind, names))
    case Bind(p, name) =>
      s.(bindings := s.bindings[p := name])
    case BufferData(t, bytes, usage) =>
      s.(uploads := s.uploads + [Upload(Bound(s, BufferPoint(t)), bytes, usage)])
    case VertexAttribPointer(i, size, ty, norm, stride, offset) =>
      s.(pointers := s.pointers[(Bound(s, VertexArrayPoint), i) :=
                                 Pointer(Bound(s, BufferPoint(ArrayBuffer)), size, ty, norm, stride, offset)])
    case EnableVertexAttribArray(i) =>
      s.(enabled := s.enabled + {(Bound(s, VertexArrayPoint), i)})
    case AttachShader(p, sh) =>
      s.(attached := s.attached + [(p, sh)])
    case _ => s
  }

  /** The effect of a sequence of calls, issued front to back. */
  function Run(s: State, cs: seq<Call>): State
  {
    if cs == [] then s else Step(Run(s, cs[..|cs| - 1]), cs[|cs| - 1])
  }

  lemma {:induction false} RunConcat(s: State, a: seq<Call>, b: seq<Call>)
    ensures Run(s, a + b) == Run(Run(s, a), b)
  {
    if b == [] {
      assert a + b == a;
    } else {
      assert (a + b)[..|a + b| - 1] == a + b[..|b| - 1];
      RunConcat(s, a, b[..|b| - 1]);
    }
  }

  lemma RunSingle(s: State, c: Call)
    ensures Run(s, [c]) == Step(s, c)
  {
    assert [c][..0] == [];
  }

  lemma RunTwo(s: State, a: Call, b: Call)
    ensures Run(s, [a, b]) == Step(Step(s, a), b)
  {
    assert [a, b][..1] == [a];
    RunSingle(s, a);
  }

  lemma RunThree(s: State, a: Call, b: Call, c: Call)
    ensures Run(s, [a, b, c]) == Step(Step(Step(s, a), b), c)
  {
    assert [a, b, c][..2] == [a, b];
    RunTwo(s, a, b);
  }

  /** The invariant every reachable state keeps: live handles are named between 1 and `next`. */
  predicate Consistent(s: State)
  {
    1 <= s.next
    && (forall h :: h in s.live ==> 1 <= h.name < s.next)
  }

  lemma {:induction false} StepKeepsConsistent(s: State, c: Call)
    requires Consistent(s)
    ensures Consistent(Step(s, c))
  {
    match c
    case Create(kind, n) =>
      var t := Step(s, c);
      forall h | h in t.live ensures 1 <= h.name < t.next {
        if h !in s.live {
          assert h in Fresh(kind, s.next, n);
        }
      }
    case _ =>
  }

  /** Every state reached from the initial state by any calls is consistent. */
  lemma {:induction false} RunKeepsConsistent(s: State, cs: seq<Call>)
    requires Consistent(s)
    ensures Consistent(Run(s, cs))
  {
    if cs != [] {
      RunKeepsConsistent(s, cs[..|cs| - 1]);
      StepKeepsConsistent(Run(s, cs[..|cs| - 1]), cs[|cs| - 1]);
    }
  }

  /** Binding 0 at a point after anything leaves it unbound. */
  lemma UnbindClears(s: State, p: BindPoint, name: nat)
    ensures Bound(Run(s, [Bind(p, name), Bind(p, 0)]), p) == 0
    ensures Bound(Run(s, [Bind(p, name)]), p) == name
  {
    RunSingle(s, Bind(p, name));
    RunConcat(s, [Bind(p, name)], [Bind(p, 0)]);
    RunSingle(Step(s, Bind(p, name)), Bind(p, 0));
    assert [Bind(p, name)] + [Bind(p, 0)] == [Bind(p, name), Bind(p, 0)];
  }

  /**
   * The mutable driver handle. `trace` is every call issued through it,
   * oldest first, and the server state is the effect of those calls on the
   * initial state.
   */
  class Gl {
    var trace: seq<Call>

    function State(): State
      reads this
    {
      Run(Initial, trace)
    }

    constructor ()
      ensures trace == [] && State() == Initial
    {
      trace := [];
    }

    /** Issue one call. */
    method Issue(c: Call)
      modifies this
      ensures trace == old(trace) + [c]
      ensures State() == Step(old(State()), c)
    {
      assert (trace + [c])[..|trace|] == trace;
      trace := trace + [c];
    }

    /**
     * `glCreateBuffers(n, names)` and its kin: one call makes `names.Length`
     * new objects and writes their names into the slots, in order.
     */
    method CreateInto(kind: Kind, names: array<nat>)
      modifies this, names
      ensures trace == old(trace) + [Create(kind, names.Length)]
      ensures forall i :: 0 <= i < names.Length ==> names[i] == old(State().next) + i
      ensures forall i :: 0 <= i < names.Length ==> Handle(kind, names[i]) !in old(State().live)
      ensures forall i :: 0 <= i < names.Length ==> Handle(kind, names[i]) in State().live
    {
      var first := State().next;
      RunKeepsConsistent(Initial, trace);
      Issue(Create(kind, names.Length));
      var i := 0;
      while i < names.Length
        modifies names
        invariant 0 <= i <= names.Length
        invariant forall j :: 0 <= j < i ==> names[j] == first + j
      {
        names[i] := first + i;
        i := i + 1;
      }
      forall j | 0 <= j < names.Length
        ensures Handle(kind, names[j]) in State().live
      {
        assert Handle(kind, names[j]) in Fresh(kind, first, names.Length);
      }
    }

    /** `glCreateShader` / `glCreateProgram`: one new object, whose name is returned. */
    method CreateOne(kind: Kind) returns (name: nat)
      modifies this
      ensures trace == old(trace) + [Create(kind, 1)]
      ensures name == old(State().next) && State().next == name + 1
      ensures Handle(kind, name) !in old(State().live) && Handle(kind, name) in State().live
    {
      name := State().next;
      RunKeepsConsistent(Initial, trace);
      Issue(Create(kind, 1));
      assert Handle(kind, name) in Fresh(kind, name, 1);
    }
  }
}
