/**
 * Pixel-to-character mapping of `AsciiPixelConverter` (src/image_converter.rs):
 * the intensity of a pixel is the truncated mean of its red, green and blue
 * channels, and that intensity, wrapped modulo the palette length, picks a
 * palette entry.
 */
module Converter {

  import opened Arithmetic

  /** An unsigned 8-bit channel value (`u8`). */
  type Byte = x: int | 0 <= x < 256

  /** A pixel as the image library hands it over: the four channels R, G, B, A (`[u8; 4]`). */
  type Pixel = p: seq<Byte> | |p| == 4 witness [0, 0, 0, 0]

  /**
   * The brightness of a pixel: the sum of the first three channels, widened to
   * 32 bits (it cannot overflow, being at most 765), divided by 3 with
   * truncation. The alpha channel takes no part.
   */
  function Intensity(p: Pixel): (i: nat)
    ensures i <= 255
    ensures 3 * i <= ChannelSum(p) < 3 * i + 3
  {
    ChannelSum(p) / 3
  }

  /** The sum of the red, green and blue channels, computed in a wider integer type. */
  function ChannelSum(p: Pixel): int
  {
    p[0] as int + p[1] as int + p[2] as int
  }

  /** Changing the alpha channel never changes the intensity. */
  lemma IntensityIgnoresAlpha(p: Pixel, alpha: Byte)
    ensures Intensity(p[3 := alpha]) == Intensity(p)
  {
  }

  /** A gray pixel (R = G = B, what a grayscale image yields) has its gray level as intensity. */
  lemma IntensityOfGray(v: Byte, alpha: Byte)
    ensures Intensity([v, v, v, alpha]) == v
  {
  }

  /**
   * `safe_extract`: the palette entry at `idx` wrapped around the palette
   * length. The `%` by the length faults on an empty palette, so the palette
   * must be non-empty.
   */
  function SafeExtract(data: seq<char>, idx: nat): (c: char)
    requires |data| > 0
    ensures c in data
    ensures idx < |data| ==> c == data[idx]
  {
    data[idx % |data|]
  }

  /** Indices that differ by the palette length pick the same entry. */
  lemma SafeExtractPeriodic(data: seq<char>, idx: nat)
    requires |data| > 0
    ensures SafeExtract(data, idx + |data|) == SafeExtract(data, idx)
  {
    var n := |data|;
    DivModUnique(idx + n, n, idx / n + 1, idx % n);
  }

  /**
   * `AsciiPixelConverter::convert`: the character of a pixel. It is always a
   * palette entry; a one-character palette maps every pixel to that
   * character; and as long as the intensity is below the palette length no
   * wrap-around takes place.
   */
  function Convert(palette: seq<char>, p: Pixel): (c: char)
    requires |palette| > 0
    ensures c in palette
    ensures |palette| == 1 ==> c == palette[0]
    ensures Intensity(p) < |palette| ==> c == palette[Intensity(p)]
  {
    SafeExtract(palette, Intensity(p))
  }

  /** The alpha channel never changes the character of a pixel. */
  lemma ConvertIgnoresAlpha(palette: seq<char>, p: Pixel, alpha: Byte)
    requires |palette| > 0
    ensures Convert(palette, p[3 := alpha]) == Convert(palette, p)
  {
    IntensityIgnoresAlpha(p, alpha);
  }

  /**
   * Intensities that differ by the palette length alias to the same character:
   * the quantisation wraps rather than saturating.
   */
  lemma ConvertWraps(palette: seq<char>, p: Pixel, q: Pixel)
    requires |palette| > 0
    requires Intensity(q) == Intensity(p) + |palette|
    ensures Convert(palette, q) == Convert(palette, p)
  {
    SafeExtractPeriodic(palette, Intensity(p));
  }
}
