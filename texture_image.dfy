/**
 * Sized internal formats of textures (`src/gl/texture/image.rs`): the
 * components of a format and the base format they derive, the formats the
 * `impl_format!` table defines, with their tokens and base formats
 * (tables 8.11 and 8.12 of the OpenGL 4.6 Core Profile), and the separate
 * bit-depth table `size::ValidFor`.
 */
module TextureImage {
  import opened Wrappers

  datatype Components = R | RG | RGB | RGBA

  /** The `Type` parameter: `()` (unsigned normalized), `SNORM`, `F`, `I`, `UI`. */
  datatype Kind = Unorm | Snorm | Float | Int | UInt

  /** The base formats and their tokens: `RED`, `RG`, `RGB`, `RGBA`. */
  datatype BaseFormat = RedBase | RgBase | RgbBase | RgbaBase

  function BaseToken(b: BaseFormat): nat
  {
    match b
    case RedBase => 0x1903
    case RgBase => 0x8227
    case RgbBase => 0x1907
    case RgbaBase => 0x1908
  }

  /** `Components::DerivedBaseFormat`: `R` derives `RED`; the others are their own base format. */
  function DerivedBaseFormat(c: Components): BaseFormat
  {
    match c
    case R => RedBase
    case RG => RgBase
    case RGB => RgbBase
    case RGBA => RgbaBase
  }

  /** A sized format `Format<Components, BIT_DEPTH, Type>`. */
  datatype Format = Format(components: Components, depth: nat, kind: Kind)

  /** One row of `impl_format!`: the format's token and the base format it names. */
  datatype Entry = Entry(id: nat, base: BaseFormat)

  function UnormRow(c: Components, depth: nat): Option<Entry>
  {
    match (c, depth)
    case (R, 8) => Some(Entry(0x8229, RedBase))     // R8
    case (R, 16) => Some(Entry(0x822A, RedBase))    // R16
    case (RG, 8) => Some(Entry(0x822B, RgBase))     // RG8
    case (RG, 16) => Some(Entry(0x822C, RgBase))    // RG16
    case (RGB, 4) => Some(Entry(0x804F, RgbBase))   // RGB4
    case (RGB, 5) => Some(Entry(0x8050, RgbBase))   // RGB5
    case (RGB, 8) => Some(Entry(0x8051, RgbBase))   // RGB8
    case (RGB, 10) => Some(Entry(0x8052, RgbBase))  // RGB10
    case (RGB, 12) => Some(Entry(0x8053, RgbBase))  // RGB12
    case (RGB, 16) => Some(Entry(0x8054, RgbBase))  // RGB16
    case (RGBA, 2) => Some(Entry(0x8055, RgbaBase)) // RGBA2
    case (RGBA, 4) => Some(Entry(0x8056, RgbaBase)) // RGBA4
    case (RGBA, 8) => Some(Entry(0x8058, RgbaBase)) // RGBA8
    case (RGBA, 12) => Some(Entry(0x805A, RgbaBase))// RGBA12
    case (RGBA, 16) => Some(Entry(0x805B, RgbaBase))// RGBA16
    case _ => None
  }

  function SnormRow(c: Components, depth: nat): Option<Entry>
  {
    match (c, depth)
    case (R, 8) => Some(Entry(0x8F94, RedBase))     // R8_SNORM
    case (RG, 8) => Some(Entry(0x8F95, RgBase))     // RG8_SNORM
    case (RGB, 8) => Some(Entry(0x8F96, RgbBase))   // RGB8_SNORM
    case (RGBA, 8) => Some(Entry(0x8F97, RgbaBase)) // RGBA8_SNORM
    case (R, 16) => Some(Entry(0x8F98, RedBase))    // R16_SNORM
    case (RG, 16) => Some(Entry(0x8F99, RgBase))    // RG16_SNORM
    case (RGB, 16) => Some(Entry(0x8F9A, RgbBase))  // RGB16_SNORM
    case (RGBA, 16) => Some(Entry(0x8F9B, RgbaBase))// RGBA16_SNORM
    case _ => None
  }

  function FloatRow(c: Components, depth: nat): Option<Entry>
  {
    match (c, depth)
    case (R, 16) => Some(Entry(0x822D, RedBase))    // R16F
    case (RG, 16) => Some(Entry(0x822F, RgBase))    // RG16F
    case (RGB, 16) => Some(Entry(0x881B, RgbBase))  // RGB16F
    case (RGBA, 16) => Some(Entry(0x881A, RgbaBase))// RGBA16F
    case (R, 32) => Some(Entry(0x822E, RedBase))    // R32F
    case (RG, 32) => Some(Entry(0x8230, RgBase))    // RG32F
    case (RGB, 32) => Some(Entry(0x8815, RgbBase))  // RGB32F
    case (RGBA, 32) => Some(Entry(0x8814, RgbaBase))// RGBA32F
    case _ => None
  }

  function IntRow(c: Components, depth: nat): Option<Entry>
  {
    match (c, depth)
    case (R, 8) => Some(Entry(0x8231, RedBase))     // R8I
    case (R, 16) => Some(Entry(0x8233, RedBase))    // R16I
    case (R, 32) => Some(Entry(0x8235, RedBase))    // R32I
    case (RG, 8) => Some(Entry(0x8237, RgBase))     // RG8I
    case (RG, 16) => Some(Entry(0x8239, RgBase))    // RG16I
    case (RG, 32) => Some(Entry(0x823B, RgBase))    // RG32I
    case (RGB, 8) => Some(Entry(0x8D8F, RgbBase))   // RGB8I
    case (RGB, 16) => Some(Entry(0x8D89, RgbBase))  // RGB16I
    case (RGB, 32) => Some(Entry(0x8D83, RgbBase))  // RGB32I
    case (RGBA, 8) => Some(Entry(0x8D8E, RgbaBase)) // RGBA8I
    case (RGBA, 16) => Some(Entry(0x8D88, RgbaBase))// RGBA16I
    case (RGBA, 32) => Some(Entry(0x8D82, RgbaBase))// RGBA32I
    case _ => None
  }

  function UIntRow(c: Components, depth: nat): Option<Entry>
  {
    match (c, depth)
    case (R, 8) => Some(Entry(0x8232, RedBase))     // R8UI
    case (R, 16) => Some(Entry(0x8234, RedBase))    // R16UI
    case (R, 32) => Some(Entry(0x8236, RedBase))    // R32UI
    case (RG, 8) => Some(Entry(0x8238, RgBase))     // RG8UI
    case (RG, 16) => Some(Entry(0x823A, RgBase))    // RG16UI
    case (RG, 32) => Some(Entry(0x823C, RgBase))    // RG32UI
    case (RGB, 8) => Some(Entry(0x8D7D, RgbBase))   // RGB8UI
    case (RGB, 16) => Some(Entry(0x8D77, RgbBase))  // RGB16UI
    case (RGB, 32) => Some(Entry(0x8D71, RgbBase))  // RGB32UI
    case (RGBA, 8) => Some(Entry(0x8D7C, RgbaBase)) // RGBA8UI
    case (RGBA, 16) => Some(Entry(0x8D76, RgbaBase))// RGBA16UI
    case (RGBA, 32) => Some(Entry(0x8D70, RgbaBase))// RGBA32UI
    case _ => None
  }

  /** `marker::Format` for `f`: its `ID` and `BaseFormat`, or `None` where the table has no row. */
  function FormatEntry(f: Format): Option<Entry>
  {
    match f.kind
    case Unorm => UnormRow(f.components, f.depth)
    case Snorm => SnormRow(f.components, f.depth)
    case Float => FloatRow(f.components, f.depth)
    case Int => IntRow(f.components, f.depth)
    case UInt => UIntRow(f.components, f.depth)
  }

  /** The format a token names, for the tokens of the table. */
  function FormatOf(id: nat): (r: Option<Format>)
    ensures r.Some? ==> FormatEntry(r.value).Some? && FormatEntry(r.value).value.id == id
  {
    match id
    case 0x8229 => Some(Format(R, 8, Unorm))
    case 0x822A => Some(Format(R, 16, Unorm))
    case 0x822B => Some(Format(RG, 8, Unorm))
    case 0x822C => Some(Format(RG, 16, Unorm))
    case 0x804F => Some(Format(RGB, 4, Unorm))
    case 0x8050 => Some(Format(RGB, 5, Unorm))
    case 0x8051 => Some(Format(RGB, 8, Unorm))
    case 0x8052 => Some(Format(RGB, 10, Unorm))
    case 0x8053 => Some(Format(RGB, 12, Unorm))
    case 0x8054 => Some(Format(RGB, 16, Unorm))
    case 0x8055 => Some(Format(RGBA, 2, Unorm))
    case 0x8056 => Some(Format(RGBA, 4, Unorm))
    case 0x8058 => Some(Format(RGBA, 8, Unorm))
    case 0x805A => Some(Format(RGBA, 12, Unorm))
    case 0x805B => Some(Format(RGBA, 16, Unorm))
    case 0x8F94 => Some(Format(R, 8, Snorm))
    case 0x8F95 => Some(Format(RG, 8, Snorm))
    case 0x8F96 => Some(Format(RGB, 8, Snorm))
    case 0x8F97 => Some(Format(RGBA, 8, Snorm))
    case 0x8F98 => Some(Format(R, 16, Snorm))
    case 0x8F99 => Some(Format(RG, 16, Snorm))
    case 0x8F9A => Some(Format(RGB, 16, Snorm))
    case 0x8F9B => Some(Format(RGBA, 16, Snorm))
    case 0x822D => Some(Format(R, 16, Float))
    case 0x822F => Some(Format(RG, 16, Float))
    case 0x881B => Some(Format(RGB, 16, Float))
    case 0x881A => Some(Format(RGBA, 16, Float))
    case 0x822E => Some(Format(R, 32, Float))
    case 0x8230 => Some(Format(RG, 32, Float))
    case 0x8815 => Some(Format(RGB, 32, Float))
    case 0x8814 => Some(Format(RGBA, 32, Float))
    case 0x8231 => Some(Format(R, 8, Int))
    case 0x8233 => Some(Format(R, 16, Int))
    case 0x8235 => Some(Format(R, 32, Int))
    case 0x8237 => Some(Format(RG, 8, Int))
    case 0x8239 => Some(Format(RG, 16, Int))
    case 0x823B => Some(Format(RG, 32, Int))
    case 0x8D8F => Some(Format(RGB, 8, Int))
    case 0x8D89 => Some(Format(RGB, 16, Int))
    case 0x8D83 => Some(Format(RGB, 32, Int))
    case 0x8D8E => Some(Format(RGBA, 8, Int))
    case 0x8D88 => Some(Format(RGBA, 16, Int))
    case 0x8D82 => Some(Format(RGBA, 32, Int))
    case 0x8232 => Some(Format(R, 8, UInt))
    case 0x8234 => Some(Format(R, 16, UInt))
    case 0x8236 => Some(Format(R, 32, UInt))
    case 0x8238 => Some(Format(RG, 8, UInt))
    case 0x823A => Some(Format(RG, 16, UInt))
    case 0x823C => Some(Format(RG, 32, UInt))
    case 0x8D7D => Some(Format(RGB, 8, UInt))
    case 0x8D77 => Some(Format(RGB, 16, UInt))
    case 0x8D71 => Some(Format(RGB, 32, UInt))
    case 0x8D7C => Some(Format(RGBA, 8, UInt))
    case 0x8D76 => Some(Format(RGBA, 16, UInt))
    case 0x8D70 => Some(Format(RGBA, 32, UInt))
    case _ => None
  }

  /** Every format's `BaseFormat` is the base format its components derive. */
  lemma BaseFormatIsDerived(f: Format)
    requires FormatEntry(f).Some?
    ensures FormatEntry(f).value.base == DerivedBaseFormat(f.components)
  {
  }

  /** The bit depths the table defines, per kind. */
  lemma DepthsPerKind(f: Format)
    ensures f.kind == Unorm ==>
              (FormatEntry(f).Some? <==>
                 match f.components
                 case R => f.depth in {8, 16}
                 case RG => f.depth in {8, 16}
                 case RGB => f.depth in {4, 5, 8, 10, 12, 16}
                 case RGBA => f.depth in {2, 4, 8, 12, 16})
    ensures f.kind == Snorm ==> (FormatEntry(f).Some? <==> f.depth in {8, 16})
    ensures f.kind == Float ==> (FormatEntry(f).Some? <==> f.depth in {16, 32})
    ensures f.kind in {Int, UInt} ==> (FormatEntry(f).Some? <==> f.depth in {8, 16, 32})
  {
  }

  /** A listed format's token names that format and no other. */
  lemma TokenNamesFormat(f: Format)
    requires FormatEntry(f).Some?
    ensures FormatOf(FormatEntry(f).value.id) == Some(f)
  {
  }

  /** So the listed formats have pairwise different tokens. */
  lemma TokensDistinct(f: Format, g: Format)
    requires FormatEntry(f).Some? && FormatEntry(g).Some?
    requires FormatEntry(f).value.id == FormatEntry(g).value.id
    ensures f == g
  {
    TokenNamesFormat(f);
    TokenNamesFormat(g);
  }

  /** `size::ValidFor<C, T>`: the bit depths it allows, only for `T = ()`. */
  predicate ValidFor(depth: nat, c: Components, kind: Kind)
  {
    kind == Unorm &&
    match depth
    case 2 => c == RGBA
    case 4 => c in {RGBA, RGB}
    case 12 => c in {RGBA, RGB}
    case 5 => c == RGB
    case 10 => c == RGB
    case 8 => c == RGBA
    case 16 => c in {RGBA, RGB}
    case _ => false
  }

  /**
   * `ValidFor` allows only formats the table defines, but not all of them:
   * `R8`, `RG8`, `RGB8`, `R16`, `RG16` and every non-normalized format are
   * defined yet not valid for it.
   */
  lemma ValidForIsNarrower(f: Format)
    ensures ValidFor(f.depth, f.components, f.kind) ==> FormatEntry(f).Some?
    ensures FormatEntry(Format(RGB, 8, Unorm)).Some? && !ValidFor(8, RGB, Unorm)
    ensures FormatEntry(Format(R, 8, Unorm)).Some? && !ValidFor(8, R, Unorm)
    ensures FormatEntry(Format(RG, 16, Unorm)).Some? && !ValidFor(16, RG, Unorm)
    ensures f.kind != Unorm ==> !ValidFor(f.depth, f.components, f.kind)
  {
  }
}
