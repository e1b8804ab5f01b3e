/**
 * Texture targets (`src/gl/texture/target.rs`): how many dimensions the
 * storage of each target has, which targets take internal (immutable)
 * storage, and each target's token, as in the OpenGL 4.6 Core Profile.
 */
module TextureTarget {
  import opened Wrappers

  datatype TexTarget =
    | D1 | D2 | D3 | D1Array | D2Array | Rectangle | Buffer
    | CubeMap | CubeMapArray | D2MultiSample | D2MultiSampleArray

  /** `Dimensionality::Dimensions`: the length of the `[usize; N]` of each target. */
  function Dimensions(t: TexTarget): nat
  {
    match t
    case D1 => 1
    case Buffer => 1
    case D2 => 2
    case Rectangle => 2
    case D1Array => 2
    case CubeMap => 2
    case D2MultiSample => 2
    case D3 => 3
    case CubeMapArray => 3
    case D2Array => 3
    case D2MultiSampleArray => 3
  }

  /** The three rows of the dimensionality table, read both ways. */
  lemma DimensionsTable(t: TexTarget)
    ensures Dimensions(t) == 1 <==> t in {D1, Buffer}
    ensures Dimensions(t) == 2 <==> t in {D2, Rectangle, D1Array, CubeMap, D2MultiSample}
    ensures Dimensions(t) == 3 <==> t in {D3, CubeMapArray, D2Array, D2MultiSampleArray}
  {
  }

  /** `Array<T>`: the array target over a base target. */
  function ArrayOf(t: TexTarget): Option<TexTarget>
  {
    match t
    case D1 => Some(D1Array)
    case D2 => Some(D2Array)
    case CubeMap => Some(CubeMapArray)
    case D2MultiSample => Some(D2MultiSampleArray)
    case _ => None
  }

  /** Every array target has one dimension more than its base, and no array target is itself a base. */
  lemma ArrayAddsDimension(t: TexTarget)
    ensures ArrayOf(t).Some? ==> Dimensions(ArrayOf(t).value) == Dimensions(t) + 1
    ensures ArrayOf(t).Some? ==> ArrayOf(ArrayOf(t).value).None?
  {
  }

  /** `storage::marker::Internal`: every target but `Buffer`. */
  predicate InternalStorage(t: TexTarget)
  {
    t != Buffer
  }

  /** `impl_target!`: each target's token. */
  function Token(t: TexTarget): nat
  {
    match t
    case D1 => 0x0DE0                  // TEXTURE_1D
    case D2 => 0x0DE1                  // TEXTURE_2D
    case D3 => 0x806F                  // TEXTURE_3D
    case D1Array => 0x8C18             // TEXTURE_1D_ARRAY
    case D2Array => 0x8C1A             // TEXTURE_2D_ARRAY
    case Rectangle => 0x84F5           // TEXTURE_RECTANGLE
    case Buffer => 0x8C2A              // TEXTURE_BUFFER
    case CubeMap => 0x8513             // TEXTURE_CUBE_MAP
    case CubeMapArray => 0x9009        // TEXTURE_CUBE_MAP_ARRAY
    case D2MultiSample => 0x9100       // TEXTURE_2D_MULTISAMPLE
    case D2MultiSampleArray => 0x9102  // TEXTURE_2D_MULTISAMPLE_ARRAY
  }

  /** No two targets share a token, and only `Buffer` lacks internal storage. */
  lemma TargetsDistinct(a: TexTarget, b: TexTarget)
    ensures Token(a) == Token(b) ==> a == b
    ensures !InternalStorage(a) <==> Token(a) == 0x8C2A
  {
  }
}
