/**
 * The about page's black-and-white conversion: the luminosity-weighted gray of each
 * RGBA pixel, written back into the red, green and blue bytes of the canvas buffer.
 * Buffer bytes are those of a `Uint8ClampedArray`, whose stores round and clamp.
 */
module Grayscale {

  newtype byte = x: int | 0 <= x < 256

  /**
   * The store conversion of a `Uint8ClampedArray` (the ToUint8Clamp operation of
   * ECMA-262): clamp to 0..255, then round to the nearest integer, ties to even.
   */
  function ToUint8Clamp(x: real): (b: byte)
    ensures x <= 0.0 ==> b == 0
    ensures x >= 255.0 ==> b == 255
    ensures 0.0 <= x <= 255.0 ==> x - 0.5 <= b as real <= x + 0.5
  {
    if x <= 0.0 then 0
    else if x >= 255.0 then 255
    else
      var f := x.Floor;
      if (f as real) + 0.5 < x then (f + 1) as byte
      else if x < (f as real) + 0.5 then f as byte
      else if f % 2 == 1 then (f + 1) as byte
      else f as byte
  }

  /** A value exactly halfway between two bytes is stored as the even one. */
  lemma ClampTiesToEven(x: real)
    requires 0.0 <= x <= 255.0 && (x - 0.5).Floor as real == x - 0.5
    ensures ToUint8Clamp(x) % 2 == 0
  {
    var h := (x - 0.5).Floor;
    assert x.Floor == h;
  }

  /** A whole number in range is stored as it is. */
  lemma ClampKeepsWhole(b: byte)
    ensures ToUint8Clamp(b as real) == b
  {
  }

  /** Rounding a value that lies between two bytes gives a byte between them. */
  lemma ClampBetween(x: real, lo: byte, hi: byte)
    requires lo as real <= x <= hi as real
    ensures lo <= ToUint8Clamp(x) <= hi
  {
  }

  /** The luminosity formula: 0.299 red + 0.587 green + 0.114 blue, exactly. */
  function Luminance(r: byte, g: byte, b: byte): (l: real)
    ensures 0.0 <= l <= 255.0
  {
    0.299 * (r as real) + 0.587 * (g as real) + 0.114 * (b as real)
  }

  function Min3(a: byte, b: byte, c: byte): byte {
    if a <= b && a <= c then a else if b <= c then b else c
  }

  function Max3(a: byte, b: byte, c: byte): byte {
    if a >= b && a >= c then a else if b >= c then b else c
  }

  /** The weights sum to 1, so the luminance lies between the darkest and brightest channel. */
  lemma LuminanceBetween(r: byte, g: byte, b: byte)
    ensures Min3(r, g, b) as real <= Luminance(r, g, b) <= Max3(r, g, b) as real
  {
    var lo, hi := Min3(r, g, b) as real, Max3(r, g, b) as real;
    assert 0.299 * lo + 0.587 * lo + 0.114 * lo <= Luminance(r, g, b);
    assert Luminance(r, g, b) <= 0.299 * hi + 0.587 * hi + 0.114 * hi;
  }

  /** A gray pixel has its own value as luminance. */
  lemma LuminanceOfGray(v: byte)
    ensures Luminance(v, v, v) == v as real
  {
  }

  /** The gray the conversion stores for a pixel with these red, green and blue bytes. */
  function Gray(r: byte, g: byte, b: byte): (v: byte)
    ensures Luminance(r, g, b) - 0.5 <= v as real <= Luminance(r, g, b) + 0.5
  {
    ToUint8Clamp(Luminance(r, g, b))
  }

  /** A gray pixel is converted to itself. */
  lemma GrayOfGray(v: byte)
    ensures Gray(v, v, v) == v
  {
    LuminanceOfGray(v);
    ClampKeepsWhole(v);
  }

  /** A pixel after the conversion: its gray three times, then its alpha. */
  function ConvertedPixel(r: byte, g: byte, b: byte, a: byte): (p: seq<byte>)
    ensures |p| == 4 && p[0] == p[1] == p[2] && p[3] == a
  {
    var v := Gray(r, g, b);
    [v, v, v, a]
  }

  /**
   * The buffer after the conversion, pixel by pixel: every red, green and blue byte
   * holds its pixel's gray, every alpha byte is kept.
   */
  function Grayscaled(s: seq<byte>): (r: seq<byte>)
    requires |s| % 4 == 0
    ensures |r| == |s|
    decreases |s|
  {
    if |s| == 0 then []
    else
      var n := |s| - 4;
      Grayscaled(s[..n]) + ConvertedPixel(s[n], s[n + 1], s[n + 2], s[n + 3])
  }

  /** Each pixel after the conversion: three equal gray bytes and the old alpha. */
  lemma {:induction false} GrayscaledPixel(s: seq<byte>, p: nat)
    requires |s| % 4 == 0 && p % 4 == 0 && p + 3 < |s|
    ensures var r := Grayscaled(s);
            && r[p] == Gray(s[p], s[p + 1], s[p + 2]) && r[p + 1] == r[p] && r[p + 2] == r[p]
            && r[p + 3] == s[p + 3]
    decreases |s|
  {
    var n := |s| - 4;
    var front := s[..n];
    var r := Grayscaled(s);
    assert r == Grayscaled(front) + ConvertedPixel(s[n], s[n + 1], s[n + 2], s[n + 3]);
    if p < n {
      PixelFits(p, n);
      GrayscaledPixel(front, p);
      assert front[p] == s[p] && front[p + 1] == s[p + 1] && front[p + 2] == s[p + 2] && front[p + 3] == s[p + 3];
    } else {
      assert p == n;
    }
  }

  /** No alpha byte changes. */
  lemma GrayscaledKeepsAlpha(s: seq<byte>, i: nat)
    requires |s| % 4 == 0 && i < |s| && i % 4 == 3
    ensures Grayscaled(s)[i] == s[i]
  {
    GrayscaledPixel(s, i - 3);
  }

  /** The gray of a pixel lies between its darkest and its brightest channel. */
  lemma GrayWithinPixel(s: seq<byte>, p: nat)
    requires |s| % 4 == 0 && p % 4 == 0 && p + 3 < |s|
    ensures Min3(s[p], s[p + 1], s[p + 2]) <= Grayscaled(s)[p] <= Max3(s[p], s[p + 1], s[p + 2])
  {
    GrayscaledPixel(s, p);
    LuminanceBetween(s[p], s[p + 1], s[p + 2]);
    ClampBetween(Luminance(s[p], s[p + 1], s[p + 2]), Min3(s[p], s[p + 1], s[p + 2]), Max3(s[p], s[p + 1], s[p + 2]));
  }

  /** Converting an already converted buffer changes nothing. */
  lemma {:induction false} GrayscaledIdempotent(s: seq<byte>)
    requires |s| % 4 == 0
    ensures Grayscaled(Grayscaled(s)) == Grayscaled(s)
    decreases |s|
  {
    if |s| > 0 {
      var n := |s| - 4;
      var front := s[..n];
      var v := Gray(s[n], s[n + 1], s[n + 2]);
      var r := Grayscaled(front) + [v, v, v, s[n + 3]];
      assert Grayscaled(s) == r;
      GrayscaledIdempotent(front);
      assert r[..n] == Grayscaled(front);
      assert Gray(v, v, v) == v by {
        GrayOfGray(v);
      }
    }
  }

  /** In a buffer of whole pixels, a pixel that starts inside it ends inside it. */
  lemma PixelFits(i: nat, n: nat)
    requires i % 4 == 0 && n % 4 == 0 && i < n
    ensures i + 4 <= n
  {
  }

  /**
   * The conversion loop: one pixel per step, the luminance written into red, green and
   * blue; the result is `Grayscaled` of the buffer it started from.
   */
  method ApplyLuminosity(data: array<byte>)
    requires data.Length % 4 == 0
    modifies data
    ensures data[..] == Grayscaled(old(data[..]))
  {
    ghost var original := data[..];
    ghost var target := Grayscaled(original);
    var i := 0;
    while i < data.Length
      invariant 0 <= i <= data.Length && i % 4 == 0
      invariant forall j :: 0 <= j < data.Length ==> data[j] == if j < i then target[j] else original[j]
    {
      PixelFits(i, data.Length);
      var average := Luminance(data[i], data[i + 1], data[i + 2]);
      // each of the three stores converts the same luminance, so it is converted once
      var gray := ToUint8Clamp(average);
      assert gray == target[i] == target[i + 1] == target[i + 2] && target[i + 3] == data[i + 3] by {
        GrayscaledPixel(original, i);
      }
      data[i] := gray;
      data[i + 1] := gray;
      data[i + 2] := gray;
      i := i + 4;
    }
    assert data[..] == target;
  }
}
