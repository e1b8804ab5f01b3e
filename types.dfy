/**
 * Integer and primitive-type tables (`src/types.rs`, `src/gl/types.rs`,
 * `src/gl/primitive.rs`; the `u31` type is the same in all three).
 *
 * Token values are those of the OpenGL registry header (`glcorearb.h`):
 * the data-type tokens of the OpenGL 4.6 Core Profile specification.
 */
module Types {
  import opened Wrappers
  import Glsl

  /** Rust's `i32`. */
  newtype i32 = x: int | -0x8000_0000 <= x < 0x8000_0000

  /** `u31`: an `i32` that `new` has checked to be non-negative. */
  datatype U31 = U31(inner: i32)

  /** `u31::default()`: the derived default holds 0. */
  const DefaultU31 := U31(0)

  /** `u31::new`; `None` is the panic on a negative value. */
  function NewU31(inner: i32): (r: Option<U31>)
    ensures r.None? <==> inner < 0
    ensures r.Some? ==> 0 <= r.value.inner
  {
    if inner < 0 then None else Some(U31(inner))
  }

  function Get(u: U31): i32
  {
    u.inner
  }

  /** `get(new(x)) == x` for every accepted value, so a `u31` ranges over exactly 0 .. 2^31 - 1. */
  lemma GetNew(x: i32)
    ensures 0 <= x ==> Get(NewU31(x).value) == x
    ensures x < 0 ==> NewU31(x) == None
    ensures Get(DefaultU31) == 0 && NewU31(0) == Some(DefaultU31)
  {
  }

  const BYTE: nat := 0x1400
  const UNSIGNED_BYTE: nat := 0x1401
  const SHORT: nat := 0x1402
  const UNSIGNED_SHORT: nat := 0x1403
  const INT: nat := 0x1404
  const UNSIGNED_INT: nat := 0x1405
  const FLOAT: nat := 0x1406
  const DOUBLE: nat := 0x140A
  const HALF_FLOAT: nat := 0x140B
  const FIXED: nat := 0x140C

  /** The `Primitive` types: the CPU-side scalars OpenGL can read. */
  datatype Primitive = U8 | U16 | U32 | I8 | I16 | I32 | F32 | F64

  /** `Primitive::GL_TYPE` (`TYPE_ID` in `src/gl/primitive.rs`). */
  function GlType(p: Primitive): nat
  {
    match p
    case U8 => UNSIGNED_BYTE
    case U16 => UNSIGNED_SHORT
    case U32 => UNSIGNED_INT
    case I8 => BYTE
    case I16 => SHORT
    case I32 => INT
    case F32 => FLOAT
    case F64 => DOUBLE
  }

  /** `size_of` of each primitive, in bytes. */
  function SizeOf(p: Primitive): (n: nat)
    ensures n in {1, 2, 4, 8}
  {
    match p
    case U8 | I8 => 1
    case U16 | I16 => 2
    case U32 | I32 | F32 => 4
    case F64 => 8
  }

  /** The primitive a GLSL scalar is stored as on the CPU side. */
  function OfScalar(s: Glsl.Scalar): (p: Primitive)
    requires Glsl.IsScalarType(s)
    ensures p in {F32, F64, I32, U32}
  {
    match s
    case F32 => F32
    case F64 => F64
    case I32 => I32
    case U32 => U32
  }

  /** Each primitive has its own type token. */
  lemma GlTypeInjective(p: Primitive, q: Primitive)
    ensures GlType(p) == GlType(q) ==> p == q
    ensures BYTE <= GlType(p) <= DOUBLE
  {
  }

  /** The `Type` kinds of `src/gl/types.rs`. */
  datatype Kind = Integer | Float

  /** The types `src/gl/types.rs` gives a `Type` instance: the primitives and the two 16-bit wrappers. */
  datatype GlDataType = Prim(p: Primitive) | Fixed16 | Float16

  /** `Type::ID`. */
  function TypeId(t: GlDataType): nat
  {
    match t
    case Prim(p) => GlType(p)
    case Fixed16 => FIXED
    case Float16 => HALF_FLOAT
  }

  /** `Type::Kind`. */
  function KindOf(t: GlDataType): Kind
  {
    match t
    case Prim(F32) | Prim(F64) | Fixed16 | Float16 => Float
    case Prim(_) => Integer
  }

  /**
   * The integer types are exactly the 8-, 16- and 32-bit signed and
   * unsigned integers; the float kind is the two 16-bit wrappers and f32,
   * f64. Distinct types have distinct tokens, and a token agrees with the
   * primitive's `GL_TYPE`.
   */
  lemma KindTable(t: GlDataType, u: GlDataType)
    ensures KindOf(t) == Integer <==> t in {Prim(U8), Prim(U16), Prim(U32), Prim(I8), Prim(I16), Prim(I32)}
    ensures KindOf(t) == Float <==> t in {Fixed16, Float16, Prim(F32), Prim(F64)}
    ensures TypeId(t) == TypeId(u) ==> t == u
  {
  }
}
