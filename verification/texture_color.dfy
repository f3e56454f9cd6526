/** `create_texture_color`: the bytes of a texture filled with one colour,
    four bytes per pixel (blue, green, red and an opaque alpha for the
    `Bgra8Unorm` textures of the engine). */
module TextureColor {
  import opened Bytes

  /** The four bytes of one pixel: the low three bytes of `color`, lowest
      first (so that they reassemble its low 24 bits), then 0xFF. */
  function Pixel(color: bv32): (p: seq<byte>)
    ensures |p| == 4
    ensures (p[0] as bv32) | ((p[1] as bv32) << 8) | ((p[2] as bv32) << 16) == color & 0xFF_FFFF
    ensures p[3] == 0xFF
  {
    [(color & 0xFF) as byte, ((color >> 8) & 0xFF) as byte, ((color >> 16) & 0xFF) as byte, 0xFF]
  }

  /** `n` copies of `p`, back to back. */
  function Tile(p: seq<byte>, n: nat): seq<byte>
  {
    if n == 0 then [] else Tile(p, n - 1) + p
  }

  /** Byte `j` of copy `i` of the tiling is byte `j` of `p`. */
  lemma {:induction false} TileAt(p: seq<byte>, n: nat, i: nat, j: nat)
    requires i < n && j < |p|
    ensures |Tile(p, n)| == n * |p|
    ensures i * |p| + j < n * |p|
    ensures Tile(p, n)[i * |p| + j] == p[j]
    decreases n
  {
    TileLength(p, n - 1);
    if i < n - 1 {
      TileAt(p, n - 1, i, j);
    } else {
      assert i * |p| == (n - 1) * |p|;
    }
  }

  lemma {:induction false} TileLength(p: seq<byte>, n: nat)
    ensures |Tile(p, n)| == n * |p|
    decreases n
  {
    if n > 0 {
      TileLength(p, n - 1);
    }
  }

  /** `width * height` on `u32`, wrapping as a release build does. */
  function PixelCount(width: u32, height: u32): (r: u32)
    ensures width * height < 0x1_0000_0000 ==> r == width * height
  {
    TruncU32(width * height)
  }

  /** The byte generation of `create_texture_color`: one pixel per index of
      `0..width * height`. */
  method CreateTextureColor(color: bv32, width: u32, height: u32) returns (bytes: seq<byte>)
    ensures |bytes| == 4 * PixelCount(width, height)
    ensures bytes == Tile(Pixel(color), PixelCount(width, height))
  {
    var count := PixelCount(width, height);
    var pixel := Pixel(color);
    bytes := [];
    for index := 0 to count
      invariant |bytes| == 4 * index
      invariant bytes == Tile(pixel, index)
    {
      bytes := bytes + pixel;
    }
  }

  /** Every pixel of the generated texture carries the colour's blue, green
      and red bytes and an opaque alpha. */
  lemma TextureColorPixel(color: bv32, count: nat, i: nat, j: nat)
    requires i < count && j < 4
    ensures 4 * i + 3 < |Tile(Pixel(color), count)|
    ensures Tile(Pixel(color), count)[4 * i + j] == Pixel(color)[j]
    ensures Tile(Pixel(color), count)[4 * i + 3] == 0xFF
  {
    TileAt(Pixel(color), count, i, j);
    TileAt(Pixel(color), count, i, 3);
  }

  /** The top byte of `color` never reaches the output. */
  lemma AlphaIgnored(c1: bv32, c2: bv32, count: nat)
    requires c1 & 0xFF_FFFF == c2 & 0xFF_FFFF
    ensures Pixel(c1) == Pixel(c2)
    ensures Tile(Pixel(c1), count) == Tile(Pixel(c2), count)
  {
    assert c1 & 0xFF == (c1 & 0xFF_FFFF) & 0xFF;
    assert c2 & 0xFF == (c2 & 0xFF_FFFF) & 0xFF;
    assert (c1 >> 8) & 0xFF == ((c1 & 0xFF_FFFF) >> 8) & 0xFF;
    assert (c2 >> 8) & 0xFF == ((c2 & 0xFF_FFFF) >> 8) & 0xFF;
    assert (c1 >> 16) & 0xFF == ((c1 & 0xFF_FFFF) >> 16) & 0xFF;
    assert (c2 >> 16) & 0xFF == ((c2 & 0xFF_FFFF) >> 16) & 0xFF;
  }
}
