/**
 * The C++ RAII wrapper of the presentation samples
 * (`presentation/c-samples/wrapper.hpp`), over the same abstract driver as
 * the Rust wrappers. Each class keeps the driver name in `name`; every
 * method that needs a binding binds, issues its call and binds 0 again.
 *
 * `CHECK_GL_ERROR` expands to nothing (its `RT_CHECK` switch is commented
 * out), so no method reads the error queue. A failed compile or link shows
 * the info log in a message box and ends the process: here that is an
 * `Exit` outcome carrying the box's title and text, after which nothing
 * else runs. Destructors are explicit `Drop` calls.
 */
module CppWrapper {
  import opened Wrappers
  import opened Driver
  import GlError

  /** `GetGLErrorString`: the eight codes of the switch by name, everything else unknown. */
  function ErrorString(err: nat): (r: string)
    ensures |r| > 0
    ensures r != "Unknown error"
            <==> err == GlError.NO_ERROR || GlError.INVALID_ENUM <= err <= GlError.INVALID_FRAMEBUFFER_OPERATION
  {
    if err == GlError.NO_ERROR then "No error"
    else if err == GlError.INVALID_ENUM then "Invalid enum"
    else if err == GlError.INVALID_VALUE then "Invalid value"
    else if err == GlError.INVALID_OPERATION then "Invalid operation"
    else if err == GlError.STACK_OVERFLOW then "Stack overflow"
    else if err == GlError.STACK_UNDERFLOW then "Stack underflow"
    else if err == GlError.OUT_OF_MEMORY then "Out of memory"
    else if err == GlError.INVALID_FRAMEBUFFER_OPERATION then "Invalid framebuffer operation"
    else "Unknown error"
  }

  /**
   * Against the error decoder of the Rust crate: the C++ table names
   * NO_ERROR and every code the decoder accepts except CONTEXT_LOST, gives
   * them distinct strings, and calls every other code unknown.
   */
  lemma ErrorStringAgainstDecoder(err: nat, other: nat)
    ensures ErrorString(err) != "Unknown error"
            <==> err == GlError.NO_ERROR || (GlError.New(err).Some? && err != GlError.CONTEXT_LOST)
    ensures ErrorString(err) != "Unknown error" && ErrorString(err) == ErrorString(other) ==> err == other
  {
  }

  /** The message box shown before `exit(-1)`. */
  datatype Exit = Exit(title: string, text: string)

  /** The info logs are read into a 512-character array: at most 511 characters and the terminator. */
  const LogBuffer: nat := 512

  /** What `glGetShaderInfoLog` / `glGetProgramInfoLog` with a 512-character buffer leave in it. */
  function Shown(log: string): string
  {
    if |log| < LogBuffer then log else log[..LogBuffer - 1]
  }

  /** The text shown is the log, cut to what fits in the buffer. */
  lemma ShownIsLogPrefix(log: string)
    ensures |Shown(log)| < LogBuffer
    ensures Shown(log) <= log
    ensures |log| < LogBuffer ==> Shown(log) == log
    ensures |log| >= LogBuffer ==> |Shown(log)| == LogBuffer - 1
  {
  }

  /** `Object`: the default constructor leaves the name 0, which no object has. */
  class Object {
    var name: nat

    constructor ()
      ensures name == 0
    {
      name := 0;
    }

    /** `Name()`. */
    function Name(): (n: nat)
      reads this
      ensures n == name
    {
      name
    }
  }

  /**
   * `Buffer<T>`: `elemSize` is `sizeof(T)`. There is no destructor: a
   * buffer's name is never deleted.
   */
  class Buffer<T> {
    var name: nat
    const target: BufferTarget
    const elemSize: nat

    /** `glCreateBuffers(1, &name)`. */
    constructor (gl: Gl, target: BufferTarget, elemSize: nat)
      modifies gl
      ensures this.target == target && this.elemSize == elemSize
      ensures name == old(gl.State().next) && Handle(BufferObj, name) in gl.State().live
      ensures gl.trace == old(gl.trace) + [Create(BufferObj, 1)]
    {
      var n := gl.CreateOne(BufferObj);
      this.target := target;
      this.elemSize := elemSize;
      name := n;
    }

    /** `Buffer<T>::Array()`: a buffer for `GL_ARRAY_BUFFER`. */
    static method Array(gl: Gl, elemSize: nat) returns (b: Buffer<T>)
      modifies gl
      ensures fresh(b) && b.target == ArrayBuffer && b.elemSize == elemSize
      ensures b.name == old(gl.State().next)
      ensures gl.trace == old(gl.trace) + [Create(BufferObj, 1)]
    {
      b := new Buffer(gl, ArrayBuffer, elemSize);
    }

    method Bind(gl: Gl)
      modifies gl
      ensures gl.trace == old(gl.trace) + [Driver.Bind(BufferPoint(target), name)]
      ensures gl.State() == Step(old(gl.State()), Driver.Bind(BufferPoint(target), name))
    {
      gl.Issue(Driver.Bind(BufferPoint(target), name));
    }

    method Unbind(gl: Gl)
      modifies gl
      ensures gl.trace == old(gl.trace) + [Driver.Bind(BufferPoint(target), 0)]
      ensures gl.State() == Step(old(gl.State()), Driver.Bind(BufferPoint(target), 0))
    {
      gl.Issue(Driver.Bind(BufferPoint(target), 0));
    }

    /**
     * `Data`: bind, upload `sizeof(T) * data.size()` bytes, unbind. The
     * upload lands in this buffer, the target is left unbound and every
     * other binding is as it was.
     */
    method Data(gl: Gl, data: seq<T>, usage: nat)
      modifies gl
      ensures gl.trace == old(gl.trace) + [Driver.Bind(BufferPoint(target), name),
                                           BufferData(target, elemSize * |data|, usage),
                                           Driver.Bind(BufferPoint(target), 0)]
      ensures gl.State().uploads == old(gl.State().uploads) + [Upload(name, elemSize * |data|, usage)]
      ensures Bound(gl.State(), BufferPoint(target)) == 0
      ensures forall p :: p != BufferPoint(target) ==> Bound(gl.State(), p) == Bound(old(gl.State()), p)
      ensures gl.State().live == old(gl.State().live)
    {
      Bind(gl);
      gl.Issue(BufferData(target, elemSize * |data|, usage));
      Unbind(gl);
    }
  }

  /** `VertexArray`: there is no destructor either. */
  class VertexArray {
    var name: nat

    /** `glCreateVertexArrays(1, &name)`. */
    constructor (gl: Gl)
      modifies gl
      ensures name == old(gl.State().next) && Handle(VertexArrayObj, name) in gl.State().live
      ensures gl.trace == old(gl.trace) + [Create(VertexArrayObj, 1)]
    {
      var n := gl.CreateOne(VertexArrayObj);
      name := n;
    }

    method Bind(gl: Gl)
      modifies gl
      ensures gl.trace == old(gl.trace) + [Driver.Bind(VertexArrayPoint, name)]
      ensures gl.State() == Step(old(gl.State()), Driver.Bind(VertexArrayPoint, name))
    {
      gl.Issue(Driver.Bind(VertexArrayPoint, name));
    }

    method Unbind(gl: Gl)
      modifies gl
      ensures gl.trace == old(gl.trace) + [Driver.Bind(VertexArrayPoint, 0)]
      ensures gl.State() == Step(old(gl.State()), Driver.Bind(VertexArrayPoint, 0))
    {
      gl.Issue(Driver.Bind(VertexArrayPoint, 0));
    }

    /**
     * `VertexAttribPointer`: with this array and the buffer bound, attribute
     * `index` reads `size` components of `type`, not normalized, with stride
     * `size * sizeof(T)` from offset 0, and is enabled; then both are
     * unbound. The attribute pointer records what is bound at ARRAY_BUFFER, which is
     * the given buffer only when that buffer's target is ARRAY_BUFFER.
     */
    method VertexAttribPointer<T>(gl: Gl, index: nat, buffer: Buffer<T>, size: nat, ty: nat)
      modifies gl
      ensures gl.trace == old(gl.trace) + [Driver.Bind(VertexArrayPoint, name),
                                           Driver.Bind(BufferPoint(buffer.target), buffer.name),
                                           Driver.VertexAttribPointer(index, size, ty, false, size * buffer.elemSize, 0),
                                           EnableVertexAttribArray(index),
                                           Driver.Bind(BufferPoint(buffer.target), 0),
                                           Driver.Bind(VertexArrayPoint, 0)]
      ensures (name, index) in gl.State().pointers
      ensures gl.State().pointers[(name, index)]
              == Pointer(if buffer.target == ArrayBuffer then buffer.name else Bound(old(gl.State()), BufferPoint(ArrayBuffer)),
                         size, ty, false, size * buffer.elemSize, 0)
      ensures (name, index) in gl.State().enabled
      ensures Bound(gl.State(), VertexArrayPoint) == 0 && Bound(gl.State(), BufferPoint(buffer.target)) == 0
    {
      Bind(gl);
      buffer.Bind(gl);
      gl.Issue(Driver.VertexAttribPointer(index, size, ty, false, size * buffer.elemSize, 0));
      gl.Issue(EnableVertexAttribArray(index));
      buffer.Unbind(gl);
      Unbind(gl);
    }
  }

  /** The shader-type tokens of `Shader::Vertex` and `Shader::Fragment`, as in the OpenGL 4.6 Core Profile. */
  const VERTEX_SHADER: nat := 0x8B31
  const FRAGMENT_SHADER: nat := 0x8B30

  class Shader {
    var name: nat
    const target: nat

    constructor Named(target: nat, name: nat)
      ensures this.target == target && this.name == name
    {
      this.target := target;
      this.name := name;
    }

    /**
     * `Shader(target, source)`: create, one null-terminated source string
     * (a null lengths array), compile. `compiled` is the driver's
     * COMPILE_STATUS and `log` its info log; on failure the log is shown and
     * the process exits.
     */
    static method Compile(gl: Gl, target: nat, compiled: bool, log: string) returns (r: Result<Shader, Exit>)
      modifies gl
      ensures r.Ok? <==> compiled
      ensures r.Ok? ==> fresh(r.value) && r.value.target == target && r.value.name == old(gl.State().next)
      ensures r.Err? ==> r.error == Exit("Shader Compilation Error", Shown(log))
      ensures Handle(ShaderObj, old(gl.State().next)) in gl.State().live
      ensures gl.trace == old(gl.trace) + [Create(ShaderObj, 1),
                                           ShaderSource(old(gl.State().next), 1, []),
                                           CompileShader(old(gl.State().next))]
    {
      var n := gl.CreateOne(ShaderObj);
      gl.Issue(ShaderSource(n, 1, []));
      gl.Issue(CompileShader(n));
      if compiled {
        var s := new Shader.Named(target, n);
        r := Ok(s);
      } else {
        r := Err(Exit("Shader Compilation Error", Shown(log)));
      }
    }

    /** `Shader::Vertex`. */
    static method Vertex(gl: Gl, compiled: bool, log: string) returns (r: Result<Shader, Exit>)
      modifies gl
      ensures r.Ok? <==> compiled
      ensures r.Ok? ==> fresh(r.value) && r.value.target == VERTEX_SHADER && r.value.name == old(gl.State().next)
      ensures r.Err? ==> r.error == Exit("Shader Compilation Error", Shown(log))
      ensures gl.trace == old(gl.trace) + [Create(ShaderObj, 1),
                                           ShaderSource(old(gl.State().next), 1, []),
                                           CompileShader(old(gl.State().next))]
    {
      r := Compile(gl, VERTEX_SHADER, compiled, log);
    }

    /** `Shader::Fragment`. */
    static method Fragment(gl: Gl, compiled: bool, log: string) returns (r: Result<Shader, Exit>)
      modifies gl
      ensures r.Ok? <==> compiled
      ensures r.Ok? ==> fresh(r.value) && r.value.target == FRAGMENT_SHADER && r.value.name == old(gl.State().next)
      ensures r.Err? ==> r.error == Exit("Shader Compilation Error", Shown(log))
      ensures gl.trace == old(gl.trace) + [Create(ShaderObj, 1),
                                           ShaderSource(old(gl.State().next), 1, []),
                                           CompileShader(old(gl.State().next))]
    {
      r := Compile(gl, FRAGMENT_SHADER, compiled, log);
    }

    /** `~Shader`: `glDeleteShader(name)`. */
    method Drop(gl: Gl)
      modifies gl
      ensures gl.trace == old(gl.trace) + [Delete(ShaderObj, [name])]
      ensures Handle(ShaderObj, name) !in gl.State().live
      ensures gl.State().live == old(gl.State().live) - {Handle(ShaderObj, name)}
    {
      gl.Issue(Delete(ShaderObj, [name]));
    }
  }

  class Program {
    var name: nat

    /** `glCreateProgram()`. */
    constructor (gl: Gl)
      modifies gl
      ensures name == old(gl.State().next) && Handle(ProgramObj, name) in gl.State().live
      ensures gl.trace == old(gl.trace) + [Create(ProgramObj, 1)]
    {
      var n := gl.CreateOne(ProgramObj);
      name := n;
    }

    method AttachShader(gl: Gl, shader: Shader)
      modifies gl
      ensures gl.trace == old(gl.trace) + [Driver.AttachShader(name, shader.name)]
      ensures gl.State().attached == old(gl.State().attached) + [(name, shader.name)]
    {
      gl.Issue(Driver.AttachShader(name, shader.name));
    }

    /**
     * `Link`: `glLinkProgram`; `linked` is the driver's LINK_STATUS, and on
     * failure the log is shown and the process exits.
     */
    method Link(gl: Gl, linked: bool, log: string) returns (exit: Option<Exit>)
      modifies gl
      ensures exit.None? <==> linked
      ensures exit.Some? ==> exit.value == Exit("Program Linking Error", Shown(log))
      ensures gl.trace == old(gl.trace) + [LinkProgram(name)]
    {
      gl.Issue(LinkProgram(name));
      if linked {
        exit := None;
      } else {
        exit := Some(Exit("Program Linking Error", Shown(log)));
      }
    }

    /** `Use`: `glUseProgram(name)`, left bound. */
    method Use(gl: Gl)
      modifies gl
      ensures gl.trace == old(gl.trace) + [Driver.Bind(ProgramPoint, name)]
      ensures Bound(gl.State(), ProgramPoint) == name
    {
      gl.Issue(Driver.Bind(ProgramPoint, name));
    }

    /** `~Program`: `glDeleteProgram(name)`. */
    method Drop(gl: Gl)
      modifies gl
      ensures gl.trace == old(gl.trace) + [Delete(ProgramObj, [name])]
      ensures gl.State().live == old(gl.State().live) - {Handle(ProgramObj, name)}
    {
      gl.Issue(Delete(ProgramObj, [name]));
    }
  }

  /** `GL_TEXTURE_2D`, the target of `Texture::CreateWithStorage2D`. */
  const TEXTURE_2D: nat := 0x0DE1

  class Texture {
    var name: nat
    const target: nat

    /** `glGenTextures(1, &name)`. */
    constructor (gl: Gl, target: nat)
      modifies gl
      ensures this.target == target
      ensures name == old(gl.State().next) && Handle(TextureObj, name) in gl.State().live
      ensures gl.trace == old(gl.trace) + [Create(TextureObj, 1)]
    {
      var n := gl.CreateOne(TextureObj);
      this.target := target;
      name := n;
    }

    /** `CreateWithStorage2D`: a texture for `GL_TEXTURE_2D`, without any storage yet. */
    static method CreateWithStorage2D(gl: Gl) returns (t: Texture)
      modifies gl
      ensures fresh(t) && t.target == TEXTURE_2D && t.name == old(gl.State().next)
      ensures gl.trace == old(gl.trace) + [Create(TextureObj, 1)]
    {
      t := new Texture(gl, TEXTURE_2D);
    }

    method Bind(gl: Gl)
      modifies gl
      ensures gl.trace == old(gl.trace) + [Driver.Bind(TexturePoint(target), name)]
      ensures gl.State() == Step(old(gl.State()), Driver.Bind(TexturePoint(target), name))
    {
      gl.Issue(Driver.Bind(TexturePoint(target), name));
    }

    method Unbind(gl: Gl)
      modifies gl
      ensures gl.trace == old(gl.trace) + [Driver.Bind(TexturePoint(target), 0)]
      ensures gl.State() == Step(old(gl.State()), Driver.Bind(TexturePoint(target), 0))
    {
      gl.Issue(Driver.Bind(TexturePoint(target), 0));
    }

    /** `Storage2D`: immutable storage of exactly one level, between a bind and an unbind. */
    method Storage2D(gl: Gl, internalFormat: nat, width: nat, height: nat)
      modifies gl
      ensures gl.trace == old(gl.trace) + [Driver.Bind(TexturePoint(target), name),
                                           TexStorage2D(target, 1, internalFormat, width, height),
                                           Driver.Bind(TexturePoint(target), 0)]
      ensures Bound(gl.State(), TexturePoint(target)) == 0
      ensures forall p :: p != TexturePoint(target) ==> Bound(gl.State(), p) == Bound(old(gl.State()), p)
    {
      Bind(gl);
      gl.Issue(TexStorage2D(target, 1, internalFormat, width, height));
      Unbind(gl);
    }

    /**
     * `SubImage2D`: a write into level 0 at the given offset and size, passed
     * on whatever they are: nothing checks them against the storage.
     */
    method SubImage2D(gl: Gl, x: int, y: int, width: nat, height: nat, format: nat, ty: nat)
      modifies gl
      ensures gl.trace == old(gl.trace) + [Driver.Bind(TexturePoint(target), name),
                                           TexSubImage2D(target, 0, x, y, width, height, format, ty),
                                           Driver.Bind(TexturePoint(target), 0)]
      ensures Bound(gl.State(), TexturePoint(target)) == 0
      ensures forall p :: p != TexturePoint(target) ==> Bound(gl.State(), p) == Bound(old(gl.State()), p)
    {
      Bind(gl);
      gl.Issue(TexSubImage2D(target, 0, x, y, width, height, format, ty));
      Unbind(gl);
    }

    /** `~Texture`: `glDeleteTextures(1, &name)`. */
    method Drop(gl: Gl)
      modifies gl
      ensures gl.trace == old(gl.trace) + [Delete(TextureObj, [name])]
      ensures gl.State().live == old(gl.State().live) - {Handle(TextureObj, name)}
    {
      gl.Issue(Delete(TextureObj, [name]));
    }
  }
}
