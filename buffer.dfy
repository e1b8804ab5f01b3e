/**
 * Buffer objects: `src/gl/buffer/mod.rs` (a buffer of elements of one Rust
 * type, with the "no reallocation" rule and mapped views) and
 * `src/object/buffer/mod.rs` (the older buffer typed by its GLSL format).
 *
 * The contents of a buffer are not modelled: an upload is logged by the
 * driver with its byte count, and a mapped view is described by its
 * length. The usage tokens (`STATIC_DRAW`, ...) are parameters.
 */
module Buffer {
  import opened Wrappers
  import opened Driver
  import opened Object
  import opened Glsl
  import opened Ext
  import opened Types
  import opened Compatible

  /** `MapBuffer` access tokens (OpenGL registry header `glcorearb.h`). */
  const READ_ONLY: nat := 0x88B8
  const READ_WRITE: nat := 0x88BA

  /**
   * The length rule of `Buffer::data`: a buffer that holds data keeps its
   * length; `None` is the panic "realocating buffers with mutable storage
   * is not supported".
   */
  function NextLength(length: nat, n: nat): (r: Option<nat>)
    ensures r.None? <==> (length > 0 && length != n)
    ensures r.Some? ==> r.value == n
  {
    if length > 0 && length != n then None else Some(n)
  }

  /**
   * A fresh buffer accepts any length; a filled buffer accepts only its own
   * length, and keeps it; an empty upload leaves the buffer fresh, so the
   * upload after it may have any length.
   */
  lemma NoReallocation(length: nat, n: nat, m: nat)
    ensures NextLength(0, n) == Some(n)
    ensures NextLength(length, length) == Some(length)
    ensures NextLength(NextLength(0, 0).value, m) == Some(m)
    ensures 0 < n && n != m ==> NextLength(n, m).None?
  {
  }

  /** The calls of one upload: bind the buffer, `BufferData`, unbind. */
  function DataCalls(target: BufferTarget, name: nat, bytes: nat, usage: nat): seq<Call>
  {
    [Driver.Bind(BufferPoint(target), name), BufferData(target, bytes, usage), Driver.Bind(BufferPoint(target), 0)]
  }

  /**
   * An upload is logged against the buffer being uploaded, with the given
   * byte count and usage, and afterwards nothing is bound at the target;
   * every other binding point is untouched.
   */
  lemma {:induction false} DataEffect(s: State, target: BufferTarget, name: nat, bytes: nat, usage: nat, q: BindPoint)
    ensures Run(s, DataCalls(target, name, bytes, usage)).uploads == s.uploads + [Upload(name, bytes, usage)]
    ensures Bound(Run(s, DataCalls(target, name, bytes, usage)), BufferPoint(target)) == 0
    ensures q != BufferPoint(target) ==> Bound(Run(s, DataCalls(target, name, bytes, usage)), q) == Bound(s, q)
  {
    RunThree(s, Driver.Bind(BufferPoint(target), name), BufferData(target, bytes, usage), Driver.Bind(BufferPoint(target), 0));
  }

  /** `Buffer<T, GL>` of `src/gl/buffer/mod.rs`: `elemBytes` is `size_of::<GL>()`. */
  class GlBuffer {
    const target: BufferTarget
    const elemBytes: nat
    const handle: ObjectBase
    var length: nat

    /** `Buffer::create`: a new buffer object holding nothing. */
    constructor Create(gl: Gl, target: BufferTarget, elemBytes: nat)
      modifies gl
      ensures this.target == target && this.elemBytes == elemBytes && length == 0
      ensures handle.kind == BufferObj && handle.name == old(gl.State().next)
      ensures gl.trace == old(gl.trace) + [Driver.Create(BufferObj, 1)]
    {
      this.target := target;
      this.elemBytes := elemBytes;
      var o := new ObjectBase.Default(gl, BufferObj);
      handle := o;
      length := 0;
    }

    /** `len`: the element count of the last successful `data` call, 0 for a new buffer. */
    function Len(): (r: nat)
      reads this
      ensures r == length
    {
      length
    }

    /**
     * `data::<U>(data)`. Returns false for the reallocation panic, which
     * happens before any call. Otherwise the buffer is bound through a
     * guard, `size_of::<GL>() * data.len()` bytes are uploaded with the
     * usage token, the length becomes `data.len()`, and the guard's drop
     * unbinds the target.
     */
    method Data<V>(gl: Gl, data: seq<V>, usage: nat) returns (ok: bool)
      modifies this, gl
      ensures ok <==> NextLength(old(length), |data|).Some?
      ensures ok ==> length == |data|
                     && gl.trace == old(gl.trace) + DataCalls(target, handle.name, elemBytes * |data|, usage)
      ensures !ok ==> length == old(length) && gl.trace == old(gl.trace)
    {
      if length > 0 && length != |data| {
        return false;
      }
      var binder := handle.Bind(gl, BufferPoint(target));
      gl.Issue(BufferData(target, elemBytes * |data|, usage));
      length := |data|;
      binder.Drop(gl);
      ok := true;
    }

    /** `map()`: a read-only view of `len()` elements. */
    method Map(gl: Gl) returns (view: Mapped)
      modifies gl
      ensures fresh(view) && view.buffer == this && view.len == length && view.access == READ_ONLY
      ensures gl.trace == old(gl.trace) + MapCalls(target, handle.name, READ_ONLY)
    {
      view := new Mapped(gl, this, READ_ONLY);
    }

    /** `map_mut()`: a read-write view of `len()` elements. */
    method MapMut(gl: Gl) returns (view: Mapped)
      modifies gl
      ensures fresh(view) && view.buffer == this && view.len == length && view.access == READ_WRITE
      ensures gl.trace == old(gl.trace) + MapCalls(target, handle.name, READ_WRITE)
    {
      view := new Mapped(gl, this, READ_WRITE);
    }
  }

  /** The calls of `MappedRef::new` / `MappedMut::new`: bind, map, and the guard's unbind. */
  function MapCalls(target: BufferTarget, name: nat, access: nat): seq<Call>
  {
    [Driver.Bind(BufferPoint(target), name), MapBuffer(target, access), Driver.Bind(BufferPoint(target), 0)]
  }

  /** `MappedRef` and `MappedMut`: a view of `len` elements of a mapped buffer. */
  class Mapped {
    const buffer: GlBuffer
    const access: nat
    const len: nat

    constructor (gl: Gl, buffer: GlBuffer, access: nat)
      modifies gl
      ensures this.buffer == buffer && this.access == access && len == buffer.length
      ensures gl.trace == old(gl.trace) + MapCalls(buffer.target, buffer.handle.name, access)
    {
      var binding := buffer.handle.Bind(gl, BufferPoint(buffer.target));
      gl.Issue(MapBuffer(buffer.target, access));
      binding.Drop(gl);
      this.buffer := buffer;
      this.access := access;
      this.len := buffer.length;
    }

    /** Dropping a view binds the buffer, unmaps it, and the guard's drop unbinds. */
    method Drop(gl: Gl)
      modifies gl
      ensures gl.trace == old(gl.trace)
              + [Driver.Bind(BufferPoint(buffer.target), buffer.handle.name), UnmapBuffer(buffer.target),
                 Driver.Bind(BufferPoint(buffer.target), 0)]
    {
      var binding := buffer.handle.Bind(gl, BufferPoint(buffer.target));
      gl.Issue(UnmapBuffer(buffer.target));
      binding.Drop(gl);
    }
  }

  // ---------------------------------------------------------------------
  // src/object/buffer/mod.rs

  /** `size_of` of a Rust value type; a shared reference is one 64-bit pointer. */
  function ByteSize(t: RustType): nat
  {
    match t
    case RScalar(s) => if IsScalarType(s) then SizeOf(OfScalar(s)) else 1
    case RArray(e, n) => n * ByteSize(e)
    case RRef(_) => 8
  }

  /** The size of a reference-free value is its scalar count times the size of its scalar. */
  lemma {:induction false} ByteSizeOfArray(t: RustType)
    requires IsExtArray(t)
    ensures ByteSize(t) == Ext.Size(t) * SizeOf(OfScalar(Base(t)))
  {
    match t
    case RScalar(_) =>
    case RArray(e, n) =>
      ByteSizeOfArray(e);
      assert ByteSize(t) == n * (Ext.Size(e) * SizeOf(OfScalar(Base(e))));
  }

  /** `size_of::<GLSL::Primitive>()`: the bytes of one component of the format. */
  function PrimitiveBytes(glsl: GlslType): nat
    requires IsType(glsl)
  {
    SizeOf(OfScalar(Glsl.Primitive(glsl)))
  }

  /** `Buffer<T, GLSL>` of `src/object/buffer/mod.rs`, whose format is the GLSL type `glsl`. */
  class ObjectBuffer {
    const target: BufferTarget
    const glsl: GlslType
    const handle: ObjectBase
    var length: nat

    /** `Buffer::create`: a new buffer object of length 0. */
    constructor Create(gl: Gl, target: BufferTarget, glsl: GlslType)
      modifies gl
      ensures this.target == target && this.glsl == glsl && length == 0
      ensures handle.kind == BufferObj && handle.name == old(gl.State().next)
      ensures gl.trace == old(gl.trace) + [Driver.Create(BufferObj, 1)]
    {
      this.target := target;
      this.glsl := glsl;
      var o := new ObjectBase.Default(gl, BufferObj);
      handle := o;
      length := 0;
    }

    /** `Bind::bind`. */
    method Bind(gl: Gl)
      modifies gl
      ensures gl.trace == old(gl.trace) + [Driver.Bind(BufferPoint(target), handle.name)]
    {
      gl.Issue(Driver.Bind(BufferPoint(target), handle.name));
    }

    /** `Bind::unbind`. */
    method Unbind(gl: Gl)
      modifies gl
      ensures gl.trace == old(gl.trace) + [Driver.Bind(BufferPoint(target), 0)]
    {
      gl.Issue(Driver.Bind(BufferPoint(target), 0));
    }

    /**
     * `data::<U, GL>(data)` as written: the length is set with no
     * reallocation check, and the byte count is
     * `size_of::<GLSL::Primitive>() * data.len()`, one component per element.
     */
    method DataAsWritten<V>(gl: Gl, glType: RustType, data: seq<V>, usage: nat)
      requires Compatible.Compatible(glType, glsl)
      modifies this, gl
      ensures length == |data|
      ensures IsType(glsl)
      ensures gl.trace == old(gl.trace) + DataCalls(target, handle.name, PrimitiveBytes(glsl) * |data|, usage)
    {
      CompatibleIsType(glType, glsl);
      Bind(gl);
      gl.Issue(BufferData(target, PrimitiveBytes(glsl) * |data|, usage));
      length := |data|;
      Unbind(gl);
    }

    /** `data` with the byte count of the slice actually passed: `size_of::<GL>() * data.len()`. */
    method Data<V>(gl: Gl, glType: RustType, data: seq<V>, usage: nat)
      requires Compatible.Compatible(glType, glsl)
      modifies this, gl
      ensures length == |data|
      ensures gl.trace == old(gl.trace) + DataCalls(target, handle.name, ByteSize(glType) * |data|, usage)
    {
      Bind(gl);
      gl.Issue(BufferData(target, ByteSize(glType) * |data|, usage));
      length := |data|;
      Unbind(gl);
    }
  }

  /**
   * The corrected upload covers the whole slice: every element is
   * `FfiSize(glsl)` components of the format's primitive.
   */
  lemma UploadCoversData(glType: RustType, glsl: GlslType, n: nat)
    requires Compatible.Compatible(glType, glsl)
    ensures IsType(glsl) && ByteSize(glType) * n == PrimitiveBytes(glsl) * FfiSize(glsl) * n
  {
    CompatibleLayout(glType, glsl);
    ByteSizeOfArray(glType);
    var b, k := PrimitiveBytes(glsl), FfiSize(glsl);
    assert ByteSize(glType) == k * b;
    assert (k * b) * n == b * k * n;
  }

  /**
   * As written, uploading n values of `[f32; 3]` into a `vec3` buffer sends
   * 4 * n bytes, a third of the 12 * n the slice holds.
   */
  lemma AsWrittenUndersizes(n: nat)
    requires n > 0
    ensures Compatible.Compatible(RArray(RScalar(Scalar.F32), 3), VecT(Scalar.F32, 3))
    ensures PrimitiveBytes(VecT(Scalar.F32, 3)) * n == 4 * n
    ensures ByteSize(RArray(RScalar(Scalar.F32), 3)) * n == 12 * n
  {
  }
}
