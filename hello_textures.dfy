/**
 * The generated texture of the `hello_textures` example
 * (`examples/src/hello_textures.rs`): a 256 by 256 RGB image, stored row
 * by row, whose red channel is the wrapping 8-bit sum of the coordinates.
 */
module HelloTextures {
  /** `u8`. */
  newtype U8 = x: int | 0 <= x < 256

  /** `[u8; 3]`. */
  datatype Pixel = Pixel(red: U8, green: U8, blue: U8)

  const Width: nat := 256
  const Height: nat := 256

  /** `x as u8`: truncation to the low eight bits. */
  function AsU8(n: nat): (b: U8)
    ensures n < 256 ==> b as int == n
  {
    (n % 256) as U8
  }

  /** `u8::wrapping_add`: the sum modulo 256. */
  function WrappingAdd(a: U8, b: U8): (s: U8)
    ensures s as int == (a as int + b as int) % 256
    ensures a as int + b as int < 256 ==> s as int == a as int + b as int
    ensures a as int + b as int >= 256 ==> s as int == a as int + b as int - 256
  {
    ((a as int + b as int) % 256) as U8
  }

  /** The pixel at column `x` of row `y`. */
  function PixelAt(x: nat, y: nat): Pixel
  {
    Pixel(WrappingAdd(AsU8(x), AsU8(y)), AsU8(y), AsU8(x))
  }

  /**
   * `generate_256x256_texture`: rows `y` in order, and in each row the
   * columns `x` in order, each pushing its pixel. Entry `i` is the pixel of
   * column `i % 256` in row `i / 256`.
   */
  method Generate() returns (texture: seq<Pixel>)
    ensures |texture| == Width * Height
    ensures forall i :: 0 <= i < |texture| ==> texture[i] == PixelAt(i % Width, i / Width)
  {
    texture := [];
    var y := 0;
    while y < Height
      invariant 0 <= y <= Height
      invariant |texture| == y * Width
      invariant forall i :: 0 <= i < |texture| ==> texture[i] == PixelAt(i % Width, i / Width)
    {
      var x := 0;
      while x < Width
        invariant 0 <= x <= Width
        invariant |texture| == y * Width + x
        invariant forall i :: 0 <= i < |texture| ==> texture[i] == PixelAt(i % Width, i / Width)
      {
        RowMajor(x, y);
        texture := texture + [PixelAt(x, y)];
        x := x + 1;
      }
      y := y + 1;
    }
  }

  /** Index `y * 256 + x` names column `x` of row `y`, and back. */
  lemma RowMajor(x: nat, y: nat)
    requires x < Width
    ensures (y * Width + x) % Width == x && (y * Width + x) / Width == y
  {
    var i := y * Width + x;
    assert i == Width * y + x;
  }

  /**
   * Read by coordinates: the pixel at row `y`, column `x` of the generated
   * texture has red `(x + y) mod 256`, green `y` and blue `x`.
   */
  lemma GeneratedPixel(texture: seq<Pixel>, x: nat, y: nat)
    requires |texture| == Width * Height
    requires forall i :: 0 <= i < |texture| ==> texture[i] == PixelAt(i % Width, i / Width)
    requires x < Width && y < Height
    ensures y * Width + x < |texture|
    ensures texture[y * Width + x].red as int == (x + y) % 256
    ensures texture[y * Width + x].green as int == y
    ensures texture[y * Width + x].blue as int == x
  {
    RowMajor(x, y);
    assert y * Width + x < (y + 1) * Width <= Height * Width;
    assert texture[y * Width + x] == PixelAt(x, y);
  }
}
