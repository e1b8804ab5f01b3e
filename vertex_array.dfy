/**
 * Vertex array objects: `src/gl/vertex_array.rs` (explicit bind and unbind
 * calls) and `src/gl/vertex_array/vertex_array.rs` (bind guards).
 *
 * Both keep, beside the driver object, the list of attached attributes and
 * the common vertex count; attaching a buffer of another length panics.
 * The driver records, for each (vertex array, attribute index), the
 * buffer that was bound to ARRAY_BUFFER when `VertexAttribPointer` ran.
 */
module VertexArray {
  import opened HList
  import opened Driver
  import opened Object
  import opened Types
  import Buffer

  /** One attached attribute: the source buffer, the attribute index, and the attribute type's component count and primitive. */
  datatype Attribute = Attribute(buffer: nat, index: nat, components: nat, primitive: Primitive)

  /** `VertexArraySemantics` / `VertexArrayState`: the attributes and the vertex count. */
  datatype Semantics = Semantics(attributes: LList<Attribute>, length: nat)

  const NoAttributes := Semantics(LNil, 0)

  /**
   * `VertexArraySemantics::attach` / `VertexArrayState::attach`: the new
   * attribute goes last, the earlier ones stay, and the length becomes the
   * buffer's.
   */
  function AttachSemantics(s: Semantics, a: Attribute, bufferLength: nat): (r: Semantics)
    ensures LElems(r.attributes) == LElems(s.attributes) + [a]
    ensures r.length == bufferLength
  {
    Semantics(LAppend(s.attributes, a), bufferLength)
  }

  /** The `gl::call!` block of both `attach`es: declare the attribute pointer, then enable it. */
  function DeclareCalls(a: Attribute): seq<Call>
  {
    [VertexAttribPointer(a.index, a.components, GlType(a.primitive), false, 0, 0), EnableVertexAttribArray(a.index)]
  }

  /** The calls `VertexArray::attach` of `src/gl/vertex_array.rs` makes. */
  function AttachCalls(vao: nat, buffer: nat, a: Attribute): seq<Call>
  {
    [Driver.Bind(VertexArrayPoint, vao), Driver.Bind(BufferPoint(ArrayBuffer), buffer)]
    + DeclareCalls(a)
    + [Driver.Bind(VertexArrayPoint, 0), Driver.Bind(BufferPoint(ArrayBuffer), 0)]
  }

  /**
   * The calls of `VertexArray::attach` in `src/gl/vertex_array/vertex_array.rs`,
   * as written: the guard of the second `buffer.bind()` is a temporary, so
   * it is dropped — binding 0 — before `VertexAttribPointer`; the two named
   * guards are dropped at the end, the buffer's first.
   */
  function GuardedAttachCallsAsWritten(vao: nat, buffer: nat, a: Attribute): seq<Call>
  {
    [Driver.Bind(VertexArrayPoint, vao), Driver.Bind(BufferPoint(ArrayBuffer), buffer)]
    + [Driver.Bind(BufferPoint(ArrayBuffer), buffer), Driver.Bind(BufferPoint(ArrayBuffer), 0)]
    + DeclareCalls(a)
    + [Driver.Bind(BufferPoint(ArrayBuffer), 0), Driver.Bind(VertexArrayPoint, 0)]
  }

  /** The same without the stray `buffer.bind();` statement. */
  function GuardedAttachCalls(vao: nat, buffer: nat, a: Attribute): seq<Call>
  {
    [Driver.Bind(VertexArrayPoint, vao), Driver.Bind(BufferPoint(ArrayBuffer), buffer)]
    + DeclareCalls(a)
    + [Driver.Bind(BufferPoint(ArrayBuffer), 0), Driver.Bind(VertexArrayPoint, 0)]
  }

  /** Run a pointer declaration and enable against a state where `vao` and `buffer` are bound. */
  lemma {:induction false} DeclareEffect(s: State, vao: nat, buffer: nat, a: Attribute)
    requires Bound(s, VertexArrayPoint) == vao && Bound(s, BufferPoint(ArrayBuffer)) == buffer
    ensures var t := Run(s, DeclareCalls(a));
            (vao, a.index) in t.pointers
            && t.pointers[(vao, a.index)] == Pointer(buffer, a.components, GlType(a.primitive), false, 0, 0)
            && (vao, a.index) in t.enabled
            && Bound(t, VertexArrayPoint) == vao
  {
    RunTwo(s, VertexAttribPointer(a.index, a.components, GlType(a.primitive), false, 0, 0), EnableVertexAttribArray(a.index));
  }

  /** After the unbinding pair, neither the vertex array nor ARRAY_BUFFER is bound, and pointers are kept. */
  lemma {:induction false} UnbindBoth(t: State, first: BindPoint, second: BindPoint)
    requires {first, second} == {VertexArrayPoint, BufferPoint(ArrayBuffer)}
    ensures var u := Run(t, [Driver.Bind(first, 0), Driver.Bind(second, 0)]);
            Bound(u, VertexArrayPoint) == 0 && Bound(u, BufferPoint(ArrayBuffer)) == 0
            && u.pointers == t.pointers && u.enabled == t.enabled
  {
    RunTwo(t, Driver.Bind(first, 0), Driver.Bind(second, 0));
    assert first == VertexArrayPoint || first == BufferPoint(ArrayBuffer);
  }

  /**
   * `src/gl/vertex_array.rs`: the attribute at `a.index` of `vao` reads from
   * `buffer` with `a.components` components of the primitive's type, not
   * normalized, stride 0, offset 0, and is enabled; afterwards both the
   * vertex array and ARRAY_BUFFER are unbound.
   */
  lemma {:induction false} AttachEffect(s: State, vao: nat, buffer: nat, a: Attribute)
    ensures var t := Run(s, AttachCalls(vao, buffer, a));
            (vao, a.index) in t.pointers
            && t.pointers[(vao, a.index)] == Pointer(buffer, a.components, GlType(a.primitive), false, 0, 0)
            && (vao, a.index) in t.enabled
            && Bound(t, VertexArrayPoint) == 0 && Bound(t, BufferPoint(ArrayBuffer)) == 0
  {
    var bind := [Driver.Bind(VertexArrayPoint, vao), Driver.Bind(BufferPoint(ArrayBuffer), buffer)];
    var decl := DeclareCalls(a);
    var unbind := [Driver.Bind(VertexArrayPoint, 0), Driver.Bind(BufferPoint(ArrayBuffer), 0)];
    assert AttachCalls(vao, buffer, a) == bind + decl + unbind;
    RunConcat(s, bind + decl, unbind);
    RunConcat(s, bind, decl);
    RunTwo(s, bind[0], bind[1]);
    DeclareEffect(Run(s, bind), vao, buffer, a);
    UnbindBoth(Run(s, bind + decl), VertexArrayPoint, BufferPoint(ArrayBuffer));
  }

  /**
   * As written, `src/gl/vertex_array/vertex_array.rs` declares the
   * attribute while ARRAY_BUFFER is 0: the attribute is recorded with no buffer at all.
   */
  lemma {:induction false} GuardedAttachLosesBuffer(s: State, vao: nat, buffer: nat, a: Attribute)
    ensures var t := Run(s, GuardedAttachCallsAsWritten(vao, buffer, a));
            (vao, a.index) in t.pointers && t.pointers[(vao, a.index)].buffer == 0
            && Bound(t, VertexArrayPoint) == 0 && Bound(t, BufferPoint(ArrayBuffer)) == 0
  {
    var bind := [Driver.Bind(VertexArrayPoint, vao), Driver.Bind(BufferPoint(ArrayBuffer), buffer)];
    var stray := [Driver.Bind(BufferPoint(ArrayBuffer), buffer), Driver.Bind(BufferPoint(ArrayBuffer), 0)];
    var decl := DeclareCalls(a);
    var unbind := [Driver.Bind(BufferPoint(ArrayBuffer), 0), Driver.Bind(VertexArrayPoint, 0)];
    assert GuardedAttachCallsAsWritten(vao, buffer, a) == bind + stray + decl + unbind;
    RunConcat(s, bind + stray + decl, unbind);
    RunConcat(s, bind + stray, decl);
    RunConcat(s, bind, stray);
    RunTwo(s, bind[0], bind[1]);
    RunTwo(Run(s, bind), stray[0], stray[1]);
    DeclareEffect(Run(s, bind + stray), vao, 0, a);
    UnbindBoth(Run(s, bind + stray + decl), BufferPoint(ArrayBuffer), VertexArrayPoint);
  }

  /** Without the stray bind, the guarded version records the buffer, like the explicit one. */
  lemma {:induction false} GuardedAttachEffect(s: State, vao: nat, buffer: nat, a: Attribute)
    ensures var t := Run(s, GuardedAttachCalls(vao, buffer, a));
            (vao, a.index) in t.pointers
            && t.pointers[(vao, a.index)] == Pointer(buffer, a.components, GlType(a.primitive), false, 0, 0)
            && (vao, a.index) in t.enabled
            && Bound(t, VertexArrayPoint) == 0 && Bound(t, BufferPoint(ArrayBuffer)) == 0
  {
    var bind := [Driver.Bind(VertexArrayPoint, vao), Driver.Bind(BufferPoint(ArrayBuffer), buffer)];
    var decl := DeclareCalls(a);
    var unbind := [Driver.Bind(BufferPoint(ArrayBuffer), 0), Driver.Bind(VertexArrayPoint, 0)];
    assert GuardedAttachCalls(vao, buffer, a) == bind + decl + unbind;
    RunConcat(s, bind + decl, unbind);
    RunConcat(s, bind, decl);
    RunTwo(s, bind[0], bind[1]);
    DeclareEffect(Run(s, bind), vao, buffer, a);
    UnbindBoth(Run(s, bind + decl), BufferPoint(ArrayBuffer), VertexArrayPoint);
  }

  /**
   * `o.bind();` as a statement: the guard is a temporary, created and
   * dropped within the statement.
   */
  method BindTemporary(gl: Gl, o: ObjectBase, point: BindPoint)
    modifies gl
    ensures gl.trace == old(gl.trace) + [Driver.Bind(point, o.name), Driver.Bind(point, 0)]
  {
    var guard := o.Bind(gl, point);
    guard.Drop(gl);
  }

  /** Issue `DeclareCalls(a)`. */
  method Declare(gl: Gl, a: Attribute)
    modifies gl
    ensures gl.trace == old(gl.trace) + DeclareCalls(a)
  {
    gl.Issue(VertexAttribPointer(a.index, a.components, GlType(a.primitive), false, 0, 0));
    gl.Issue(EnableVertexAttribArray(a.index));
  }

  /** `VertexArray<A>` of `src/gl/vertex_array.rs`, fed by buffers of `src/object/buffer/mod.rs`. */
  class ResourceVertexArray {
    const handle: ObjectBase
    var semantics: Semantics

    /** `VertexArray::create`: no attributes, length 0. */
    constructor Create(gl: Gl)
      modifies gl
      ensures semantics == NoAttributes
      ensures handle.kind == VertexArrayObj && handle.name == old(gl.State().next)
      ensures gl.trace == old(gl.trace) + [Driver.Create(VertexArrayObj, 1)]
    {
      var o := new ObjectBase.Default(gl, VertexArrayObj);
      handle := o;
      semantics := NoAttributes;
    }

    /** `len`. */
    function Len(): nat
      reads this
    {
      semantics.length
    }

    /**
     * `attach::<INDEX, A>(buffer)`. Returns false for the "buffers must be
     * the same length" panic, which happens before any call; otherwise
     * issues `AttachCalls` and appends the attribute.
     */
    method Attach(gl: Gl, buffer: Buffer.ObjectBuffer, index: nat, components: nat, primitive: Primitive)
      returns (ok: bool)
      requires buffer.target == ArrayBuffer
      modifies this, gl
      ensures ok <==> Buffer.NextLength(old(semantics.length), buffer.length).Some?
      ensures ok ==> semantics == AttachSemantics(old(semantics), Attribute(buffer.handle.name, index, components, primitive), buffer.length)
                     && gl.trace == old(gl.trace) + AttachCalls(handle.name, buffer.handle.name, Attribute(buffer.handle.name, index, components, primitive))
      ensures !ok ==> semantics == old(semantics) && gl.trace == old(gl.trace)
    {
      if semantics.length > 0 && semantics.length != buffer.length {
        return false;
      }
      gl.Issue(Driver.Bind(VertexArrayPoint, handle.name));
      buffer.Bind(gl);
      Declare(gl, Attribute(buffer.handle.name, index, components, primitive));
      gl.Issue(Driver.Bind(VertexArrayPoint, 0));
      buffer.Unbind(gl);
      semantics := AttachSemantics(semantics, Attribute(buffer.handle.name, index, components, primitive), buffer.length);
      ok := true;
    }
  }

  /** `VertexArray<Attrs>` of `src/gl/vertex_array/vertex_array.rs`, fed by buffers of `src/gl/buffer/mod.rs`. */
  class GuardedVertexArray {
    const handle: ObjectBase
    var phantoms: Semantics

    /** `VertexArray::create`: no attributes, length 0. */
    constructor Create(gl: Gl)
      modifies gl
      ensures phantoms == NoAttributes
      ensures handle.kind == VertexArrayObj && handle.name == old(gl.State().next)
      ensures gl.trace == old(gl.trace) + [Driver.Create(VertexArrayObj, 1)]
    {
      var o := new ObjectBase.Default(gl, VertexArrayObj);
      handle := o;
      phantoms := NoAttributes;
    }

    /** `len`. */
    function Len(): nat
      reads this
    {
      phantoms.length
    }

    /**
     * `attach::<A, INDEX>(binding, buffer)` as written, with the stray
     * `buffer.bind();`. Returns false for the length panic.
     */
    method AttachAsWritten(gl: Gl, buffer: Buffer.GlBuffer, index: nat, components: nat, primitive: Primitive)
      returns (ok: bool)
      requires buffer.target == ArrayBuffer
      modifies this, gl
      ensures ok <==> Buffer.NextLength(old(phantoms.length), buffer.length).Some?
      ensures ok ==> phantoms == AttachSemantics(old(phantoms), Attribute(buffer.handle.name, index, components, primitive), buffer.length)
                     && gl.trace == old(gl.trace)
                        + GuardedAttachCallsAsWritten(handle.name, buffer.handle.name, Attribute(buffer.handle.name, index, components, primitive))
      ensures !ok ==> phantoms == old(phantoms) && gl.trace == old(gl.trace)
    {
      if phantoms.length > 0 && phantoms.length != buffer.length {
        return false;
      }
      var vaoBind := handle.Bind(gl, VertexArrayPoint);
      var bufferBind := buffer.handle.Bind(gl, BufferPoint(ArrayBuffer));
      BindTemporary(gl, buffer.handle, BufferPoint(ArrayBuffer));
      Declare(gl, Attribute(buffer.handle.name, index, components, primitive));
      phantoms := AttachSemantics(phantoms, Attribute(buffer.handle.name, index, components, primitive), buffer.length);
      bufferBind.Drop(gl);
      vaoBind.Drop(gl);
      ok := true;
    }

    /** `attach` without the stray bind: the attribute reads from `buffer`. */
    method Attach(gl: Gl, buffer: Buffer.GlBuffer, index: nat, components: nat, primitive: Primitive)
      returns (ok: bool)
      requires buffer.target == ArrayBuffer
      modifies this, gl
      ensures ok <==> Buffer.NextLength(old(phantoms.length), buffer.length).Some?
      ensures ok ==> phantoms == AttachSemantics(old(phantoms), Attribute(buffer.handle.name, index, components, primitive), buffer.length)
                     && gl.trace == old(gl.trace)
                        + GuardedAttachCalls(handle.name, buffer.handle.name, Attribute(buffer.handle.name, index, components, primitive))
      ensures !ok ==> phantoms == old(phantoms) && gl.trace == old(gl.trace)
    {
      if phantoms.length > 0 && phantoms.length != buffer.length {
        return false;
      }
      var vaoBind := handle.Bind(gl, VertexArrayPoint);
      var bufferBind := buffer.handle.Bind(gl, BufferPoint(ArrayBuffer));
      Declare(gl, Attribute(buffer.handle.name, index, components, primitive));
      phantoms := AttachSemantics(phantoms, Attribute(buffer.handle.name, index, components, primitive), buffer.length);
      bufferBind.Drop(gl);
      vaoBind.Drop(gl);
      ok := true;
    }
  }
}
