/** `ImageProcessor.horizontalConvolve`, `verticalConvolve` and
    `separableConvolve`: 1-D weight vectors slid along rows or columns of an
    RGBA buffer, with taps beyond the border clamped onto the edge. */
module Convolution {
  import opened Buffers

  /** `Math.min(hi, Math.max(0, v))`. */
  function Clamp(v: int, hi: int): int
  {
    var lo := if v < 0 then 0 else v;
    if hi < lo then hi else lo
  }

  /** A clamped tap coordinate is a valid column (row) index, and a
      coordinate already inside is left alone. */
  lemma TapInBounds(v: int, size: nat)
    requires 0 < size
    ensures 0 <= Clamp(v, size - 1) < size
    ensures 0 <= v < size ==> Clamp(v, size - 1) == v
    ensures v < 0 ==> Clamp(v, size - 1) == 0
    ensures size <= v ==> Clamp(v, size - 1) == size - 1
  {
  }

  /** `opaque ? 1 : 0`. */
  function AlphaFactor(isOpaque: bool): real
  {
    if isOpaque then 1.0 else 0.0
  }

  /** `a + alphaFac * (255 - a)`. */
  function Alpha(a: real, alphaFac: real): real
  {
    a + alphaFac * (255.0 - a)
  }

  /** A truthy `opaque` forces alpha to 255; otherwise alpha is convolved
      like the colour channels. */
  lemma AlphaCases(a: real, isOpaque: bool)
    ensures isOpaque ==> Alpha(a, AlphaFactor(isOpaque)) == 255.0
    ensures !isOpaque ==> Alpha(a, AlphaFactor(isOpaque)) == a
  {
  }

  /** The pixel that horizontal tap k of cell (y, x) reads: the column
      x + k - side/2 clamped into the row, so the tap never leaves it. */
  function HSource(width: nat, height: nat, side: nat, y: nat, x: nat, k: nat): (p: nat)
    requires y < height && x < width
    ensures p < width * height
  {
    var sx := Clamp(x + k - side / 2, width - 1);
    TapInBounds(x + k - side / 2, width);
    RowMajorBound(width, height, y, sx);
    y * width + sx
  }

  /** The pixel that vertical tap k of cell (y, x) reads: the row
      y + k - side/2 clamped into the column, so the tap never leaves it. */
  function VSource(width: nat, height: nat, side: nat, y: nat, x: nat, k: nat): (p: nat)
    requires y < height && x < width
    ensures p < width * height
  {
    var sy := Clamp(y + k - side / 2, height - 1);
    TapInBounds(y + k - side / 2, height);
    RowMajorBound(width, height, sy, x);
    sy * width + x
  }

  /** A horizontal tap stays in the cell's row, a vertical tap in its
      column. */
  lemma TapsStayInLine(width: nat, height: nat, side: nat, y: nat, x: nat, k: nat)
    requires y < height && x < width
    ensures HSource(width, height, side, y, x, k) / width == y
    ensures VSource(width, height, side, y, x, k) % width == x
  {
    TapInBounds(x + k - side / 2, width);
    TapInBounds(y + k - side / 2, height);
    RowMajorDivMod(width, y, Clamp(x + k - side / 2, width - 1));
    RowMajorDivMod(width, Clamp(y + k - side / 2, height - 1), x);
  }

  /** Channel c of cell (y, x) after the first n horizontal taps, added in
      the loop's order. */
  function HTaps(pixels: seq<real>, width: nat, height: nat, weights: seq<real>,
                 y: nat, x: nat, c: nat, n: nat): real
    requires y < height && x < width && c < 4 && n <= |weights|
    requires width * height * 4 <= |pixels|
  {
    if n == 0 then 0.0
    else
      HTaps(pixels, width, height, weights, y, x, c, n - 1)
        + pixels[4 * HSource(width, height, |weights|, y, x, n - 1) + c] * weights[n - 1]
  }

  /** Channel c of cell (y, x) after the first n vertical taps. */
  function VTaps(pixels: seq<real>, width: nat, height: nat, weights: seq<real>,
                 y: nat, x: nat, c: nat, n: nat): real
    requires y < height && x < width && c < 4 && n <= |weights|
    requires width * height * 4 <= |pixels|
  {
    if n == 0 then 0.0
    else
      VTaps(pixels, width, height, weights, y, x, c, n - 1)
        + pixels[4 * VSource(width, height, |weights|, y, x, n - 1) + c] * weights[n - 1]
  }

  /** Entry k of the horizontal convolution's output. */
  function HorizontalAt(pixels: seq<real>, width: nat, height: nat, weights: seq<real>,
                        isOpaque: bool, k: nat): real
    requires k < width * height * 4 <= |pixels|
  {
    PixelOfIndex(width, height, k / 4);
    var y, x, c := k / 4 / width, k / 4 % width, k % 4;
    var s := HTaps(pixels, width, height, weights, y, x, c, |weights|);
    if c == 3 then Alpha(s, AlphaFactor(isOpaque)) else s
  }

  /** Entry k of the vertical convolution's output. */
  function VerticalAt(pixels: seq<real>, width: nat, height: nat, weights: seq<real>,
                      isOpaque: bool, k: nat): real
    requires k < width * height * 4 <= |pixels|
  {
    PixelOfIndex(width, height, k / 4);
    var y, x, c := k / 4 / width, k / 4 % width, k % 4;
    var s := VTaps(pixels, width, height, weights, y, x, c, |weights|);
    if c == 3 then Alpha(s, AlphaFactor(isOpaque)) else s
  }

  function HorizontalImage(pixels: seq<real>, width: nat, height: nat, weights: seq<real>,
                           isOpaque: bool): (out: seq<real>)
    requires width * height * 4 <= |pixels|
    ensures |out| == width * height * 4
  {
    seq(width * height * 4, k requires 0 <= k < width * height * 4 =>
      HorizontalAt(pixels, width, height, weights, isOpaque, k))
  }

  function VerticalImage(pixels: seq<real>, width: nat, height: nat, weights: seq<real>,
                         isOpaque: bool): (out: seq<real>)
    requires width * height * 4 <= |pixels|
    ensures |out| == width * height * 4
  {
    seq(width * height * 4, k requires 0 <= k < width * height * 4 =>
      VerticalAt(pixels, width, height, weights, isOpaque, k))
  }

  /** `separableConvolve`: vertical pass with `vertWeights`, then horizontal
      pass with `horizWeights`, both with the same `isOpaque`. */
  function SeparableImage(pixels: seq<real>, width: nat, height: nat,
                          horizWeights: seq<real>, vertWeights: seq<real>, isOpaque: bool): (out: seq<real>)
    requires width * height * 4 <= |pixels|
    ensures |out| == width * height * 4
  {
    HorizontalImage(VerticalImage(pixels, width, height, vertWeights, isOpaque),
                    width, height, horizWeights, isOpaque)
  }


  /** Cell (y, x) of the horizontal pass: the four channel sums of the
      `cx` loop. */
  method HorizontalCell(pixels: seq<real>, width: nat, height: nat, weights: seq<real>,
                        y: nat, x: nat) returns (r: real, g: real, b: real, a: real)
    requires y < height && x < width
    requires width * height * 4 <= |pixels|
    ensures r == HTaps(pixels, width, height, weights, y, x, 0, |weights|)
    ensures g == HTaps(pixels, width, height, weights, y, x, 1, |weights|)
    ensures b == HTaps(pixels, width, height, weights, y, x, 2, |weights|)
    ensures a == HTaps(pixels, width, height, weights, y, x, 3, |weights|)
  {
    var side := |weights|;
    r, g, b, a := 0.0, 0.0, 0.0, 0.0;
    var cx := 0;
    while cx < side
      invariant 0 <= cx <= side
      invariant r == HTaps(pixels, width, height, weights, y, x, 0, cx)
      invariant g == HTaps(pixels, width, height, weights, y, x, 1, cx)
      invariant b == HTaps(pixels, width, height, weights, y, x, 2, cx)
      invariant a == HTaps(pixels, width, height, weights, y, x, 3, cx)
    {
      var poffset := 4 * HSource(width, height, side, y, x, cx);
      var wt := weights[cx];
      r := r + pixels[poffset] * wt;
      g := g + pixels[poffset + 1] * wt;
      b := b + pixels[poffset + 2] * wt;
      a := a + pixels[poffset + 3] * wt;
      cx := cx + 1;
    }
  }

  /** Where cell (y, x) lands in the horizontal output: its four channel sums
      at flat offsets 4 (y width + x) + c, alpha through `alphaFac`. */
  lemma HorizontalImageAt(pixels: seq<real>, width: nat, height: nat, weights: seq<real>,
                        isOpaque: bool, y: nat, x: nat, offset: nat)
    requires y < height && x < width && offset == (y * width + x) * 4
    requires width * height * 4 <= |pixels|
    ensures offset + 4 <= width * height * 4
    ensures var image := HorizontalImage(pixels, width, height, weights, isOpaque);
      && image[offset] == HTaps(pixels, width, height, weights, y, x, 0, |weights|)
      && image[offset + 1] == HTaps(pixels, width, height, weights, y, x, 1, |weights|)
      && image[offset + 2] == HTaps(pixels, width, height, weights, y, x, 2, |weights|)
      && image[offset + 3] == Alpha(HTaps(pixels, width, height, weights, y, x, 3, |weights|), AlphaFactor(isOpaque))
  {
    RowMajorBound(width, height, y, x);
    RowMajorDivMod(width, y, x);
    Quad(y * width + x, 0);
    Quad(y * width + x, 1);
    Quad(y * width + x, 2);
    Quad(y * width + x, 3);
  }

  /** Cell (y, x) of the horizontal pass: its four sums stored at the
      cell's offset, alpha through `alphaFac`. */
  method HorizontalPixel(pixels: seq<real>, width: nat, height: nat, weights: seq<real>,
                 isOpaque: bool, output: array<real>, y: nat, x: nat)
    requires y < height && x < width && width * height * 4 <= |pixels|
    requires output.Length == width * height * 4
    modifies output
    ensures (y * width + x) * 4 + 4 <= output.Length
    ensures forall k :: 0 <= k < output.Length && !((y * width + x) * 4 <= k < (y * width + x) * 4 + 4) ==>
      output[k] == old(output[k])
    ensures forall k :: (y * width + x) * 4 <= k < (y * width + x) * 4 + 4 ==>
      output[k] == HorizontalImage(pixels, width, height, weights, isOpaque)[k]
  {
    ghost var image := HorizontalImage(pixels, width, height, weights, isOpaque);
    RowMajorBound(width, height, y, x);
    var offset := (y * width + x) * 4;
    HorizontalImageAt(pixels, width, height, weights, isOpaque, y, x, offset);
    var alphaFac := AlphaFactor(isOpaque);
    var r, g, b, a := HorizontalCell(pixels, width, height, weights, y, x);
    output[offset] := r;
    output[offset + 1] := g;
    output[offset + 2] := b;
    output[offset + 3] := Alpha(a, alphaFac);
    forall k | offset <= k < offset + 4
      ensures output[k] == image[k]
    {
      assert k == offset || k == offset + 1 || k == offset + 2 || k == offset + 3;
    }
  }

  /** Row y of the horizontal pass, written cell by cell after the rows
      above it. */
  method HorizontalRow(pixels: seq<real>, width: nat, height: nat, weights: seq<real>,
               isOpaque: bool, output: array<real>, y: nat)
    requires y < height && width * height * 4 <= |pixels|
    requires output.Length == width * height * 4
    requires forall k :: 0 <= k < y * width * 4 ==>
      output[k] == HorizontalImage(pixels, width, height, weights, isOpaque)[k]
    modifies output
    ensures (y + 1) * width * 4 <= width * height * 4
    ensures forall k :: 0 <= k < (y + 1) * width * 4 ==>
      output[k] == HorizontalImage(pixels, width, height, weights, isOpaque)[k]
  {
    ghost var image := HorizontalImage(pixels, width, height, weights, isOpaque);
    RowEnd(width, height, y);
    var x := 0;
    while x < width
      invariant 0 <= x <= width
      invariant forall k :: 0 <= k < (y * width + x) * 4 ==> output[k] == image[k]
    {
      HorizontalPixel(pixels, width, height, weights, isOpaque, output, y, x);
      x := x + 1;
    }
  }

  method HorizontalConvolve(pixels: seq<real>, width: nat, height: nat, weights: seq<real>,
                     isOpaque: bool) returns (output: array<real>)
    requires width * height * 4 <= |pixels|
    ensures output[..] == HorizontalImage(pixels, width, height, weights, isOpaque)
  {
    ghost var image := HorizontalImage(pixels, width, height, weights, isOpaque);
    output := new real[width * height * 4];
    var y := 0;
    while y < height
      invariant 0 <= y <= height
      invariant forall k :: 0 <= k < y * width * 4 ==> output[k] == image[k]
    {
      HorizontalRow(pixels, width, height, weights, isOpaque, output, y);
      y := y + 1;
    }
    assert height * width * 4 == |image|;
  }


  /** Cell (y, x) of the vertical pass: the four channel sums of the
      `cy` loop. */
  method VerticalCell(pixels: seq<real>, width: nat, height: nat, weights: seq<real>,
                      y: nat, x: nat) returns (r: real, g: real, b: real, a: real)
    requires y < height && x < width
    requires width * height * 4 <= |pixels|
    ensures r == VTaps(pixels, width, height, weights, y, x, 0, |weights|)
    ensures g == VTaps(pixels, width, height, weights, y, x, 1, |weights|)
    ensures b == VTaps(pixels, width, height, weights, y, x, 2, |weights|)
    ensures a == VTaps(pixels, width, height, weights, y, x, 3, |weights|)
  {
    var side := |weights|;
    r, g, b, a := 0.0, 0.0, 0.0, 0.0;
    var cy := 0;
    while cy < side
      invariant 0 <= cy <= side
      invariant r == VTaps(pixels, width, height, weights, y, x, 0, cy)
      invariant g == VTaps(pixels, width, height, weights, y, x, 1, cy)
      invariant b == VTaps(pixels, width, height, weights, y, x, 2, cy)
      invariant a == VTaps(pixels, width, height, weights, y, x, 3, cy)
    {
      var poffset := 4 * VSource(width, height, side, y, x, cy);
      var wt := weights[cy];
      r := r + pixels[poffset] * wt;
      g := g + pixels[poffset + 1] * wt;
      b := b + pixels[poffset + 2] * wt;
      a := a + pixels[poffset + 3] * wt;
      cy := cy + 1;
    }
  }

  /** Where cell (y, x) lands in the vertical output: its four channel sums
      at flat offsets 4 (y width + x) + c, alpha through `alphaFac`. */
  lemma VerticalImageAt(pixels: seq<real>, width: nat, height: nat, weights: seq<real>,
                        isOpaque: bool, y: nat, x: nat, offset: nat)
    requires y < height && x < width && offset == (y * width + x) * 4
    requires width * height * 4 <= |pixels|
    ensures offset + 4 <= width * height * 4
    ensures var image := VerticalImage(pixels, width, height, weights, isOpaque);
      && image[offset] == VTaps(pixels, width, height, weights, y, x, 0, |weights|)
      && image[offset + 1] == VTaps(pixels, width, height, weights, y, x, 1, |weights|)
      && image[offset + 2] == VTaps(pixels, width, height, weights, y, x, 2, |weights|)
      && image[offset + 3] == Alpha(VTaps(pixels, width, height, weights, y, x, 3, |weights|), AlphaFactor(isOpaque))
  {
    RowMajorBound(width, height, y, x);
    RowMajorDivMod(width, y, x);
    Quad(y * width + x, 0);
    Quad(y * width + x, 1);
    Quad(y * width + x, 2);
    Quad(y * width + x, 3);
  }

  /** Cell (y, x) of the vertical pass: its four sums stored at the
      cell's offset, alpha through `alphaFac`. */
  method VerticalPixel(pixels: seq<real>, width: nat, height: nat, weights: seq<real>,
               isOpaque: bool, output: array<real>, y: nat, x: nat)
    requires y < height && x < width && width * height * 4 <= |pixels|
    requires output.Length == width * height * 4
    modifies output
    ensures (y * width + x) * 4 + 4 <= output.Length
    ensures forall k :: 0 <= k < output.Length && !((y * width + x) * 4 <= k < (y * width + x) * 4 + 4) ==>
      output[k] == old(output[k])
    ensures forall k :: (y * width + x) * 4 <= k < (y * width + x) * 4 + 4 ==>
      output[k] == VerticalImage(pixels, width, height, weights, isOpaque)[k]
  {
    ghost var image := VerticalImage(pixels, width, height, weights, isOpaque);
    RowMajorBound(width, height, y, x);
    var offset := (y * width + x) * 4;
    VerticalImageAt(pixels, width, height, weights, isOpaque, y, x, offset);
    var alphaFac := AlphaFactor(isOpaque);
    var r, g, b, a := VerticalCell(pixels, width, height, weights, y, x);
    output[offset] := r;
    output[offset + 1] := g;
    output[offset + 2] := b;
    output[offset + 3] := Alpha(a, alphaFac);
    forall k | offset <= k < offset + 4
      ensures output[k] == image[k]
    {
      assert k == offset || k == offset + 1 || k == offset + 2 || k == offset + 3;
    }
  }

  /** Row y of the vertical pass, written cell by cell after the rows
      above it. */
  method VerticalRow(pixels: seq<real>, width: nat, height: nat, weights: seq<real>,
             isOpaque: bool, output: array<real>, y: nat)
    requires y < height && width * height * 4 <= |pixels|
    requires output.Length == width * height * 4
    requires forall k :: 0 <= k < y * width * 4 ==>
      output[k] == VerticalImage(pixels, width, height, weights, isOpaque)[k]
    modifies output
    ensures (y + 1) * width * 4 <= width * height * 4
    ensures forall k :: 0 <= k < (y + 1) * width * 4 ==>
      output[k] == VerticalImage(pixels, width, height, weights, isOpaque)[k]
  {
    ghost var image := VerticalImage(pixels, width, height, weights, isOpaque);
    RowEnd(width, height, y);
    var x := 0;
    while x < width
      invariant 0 <= x <= width
      invariant forall k :: 0 <= k < (y * width + x) * 4 ==> output[k] == image[k]
    {
      VerticalPixel(pixels, width, height, weights, isOpaque, output, y, x);
      x := x + 1;
    }
  }

  method VerticalConvolve(pixels: seq<real>, width: nat, height: nat, weights: seq<real>,
                   isOpaque: bool) returns (output: array<real>)
    requires width * height * 4 <= |pixels|
    ensures output[..] == VerticalImage(pixels, width, height, weights, isOpaque)
  {
    ghost var image := VerticalImage(pixels, width, height, weights, isOpaque);
    output := new real[width * height * 4];
    var y := 0;
    while y < height
      invariant 0 <= y <= height
      invariant forall k :: 0 <= k < y * width * 4 ==> output[k] == image[k]
    {
      VerticalRow(pixels, width, height, weights, isOpaque, output, y);
      y := y + 1;
    }
    assert height * width * 4 == |image|;
  }



  method SeparableConvolve(pixels: seq<real>, width: nat, height: nat,
                           horizWeights: seq<real>, vertWeights: seq<real>, isOpaque: bool)
    returns (output: array<real>)
    requires width * height * 4 <= |pixels|
    ensures output[..] == SeparableImage(pixels, width, height, horizWeights, vertWeights, isOpaque)
  {
    var vertical := VerticalConvolve(pixels, width, height, vertWeights, isOpaque);
    output := HorizontalConvolve(vertical[..], width, height, horizWeights, isOpaque);
  }

  // ---------------------------------------------------------------------
  // Properties

  /** Channel c of pixel p. */
  function Channel(img: seq<real>, p: nat, c: nat): real
    requires 4 * p + c < |img|
  {
    img[4 * p + c]
  }

  /** Channel c holds the value v at each of the first n pixels. */
  ghost predicate Flat(img: seq<real>, n: nat, c: nat, v: real)
  {
    c < 4 && 4 * n <= |img| && forall p :: 0 <= p < n ==> Channel(img, p, c) == v
  }

  lemma FlatAt(img: seq<real>, n: nat, c: nat, v: real, p: nat)
    requires Flat(img, n, c, v) && p < n
    ensures Channel(img, p, c) == v
  {
  }

  /** One more tap adds the tapped pixel's channel times its weight. */
  lemma HTapsStep(pixels: seq<real>, width: nat, height: nat, weights: seq<real>,
                  y: nat, x: nat, c: nat, n: nat)
    requires y < height && x < width && c < 4 && 0 < n <= |weights|
    requires width * height * 4 <= |pixels|
    ensures var src := HSource(width, height, |weights|, y, x, n - 1);
      4 * src + c < |pixels| &&
      HTaps(pixels, width, height, weights, y, x, c, n)
        == HTaps(pixels, width, height, weights, y, x, c, n - 1) + Channel(pixels, src, c) * weights[n - 1]
  {
  }

  lemma VTapsStep(pixels: seq<real>, width: nat, height: nat, weights: seq<real>,
                  y: nat, x: nat, c: nat, n: nat)
    requires y < height && x < width && c < 4 && 0 < n <= |weights|
    requires width * height * 4 <= |pixels|
    ensures var src := VSource(width, height, |weights|, y, x, n - 1);
      4 * src + c < |pixels| &&
      VTaps(pixels, width, height, weights, y, x, c, n)
        == VTaps(pixels, width, height, weights, y, x, c, n - 1) + Channel(pixels, src, c) * weights[n - 1]
  {
  }

  /** Over a flat channel every tap reads v, so n taps give v times the sum
      of the first n weights (see `ScaledSum`). */
  lemma {:induction false} HTapsFlat(pixels: seq<real>, width: nat, height: nat, weights: seq<real>,
                                     y: nat, x: nat, c: nat, n: nat, v: real)
    requires y < height && x < width && c < 4 && n <= |weights|
    requires width * height * 4 <= |pixels| && Flat(pixels, width * height, c, v)
    ensures HTaps(pixels, width, height, weights, y, x, c, n) == ScaledSumTo(v, weights, n)
  {
    if n > 0 {
      HTapsFlat(pixels, width, height, weights, y, x, c, n - 1, v);
      var src := HSource(width, height, |weights|, y, x, n - 1);
      FlatAt(pixels, width * height, c, v, src);
      HTapsStep(pixels, width, height, weights, y, x, c, n);
    }
  }

  lemma {:induction false} VTapsFlat(pixels: seq<real>, width: nat, height: nat, weights: seq<real>,
                                     y: nat, x: nat, c: nat, n: nat, v: real)
    requires y < height && x < width && c < 4 && n <= |weights|
    requires width * height * 4 <= |pixels| && Flat(pixels, width * height, c, v)
    ensures VTaps(pixels, width, height, weights, y, x, c, n) == ScaledSumTo(v, weights, n)
  {
    if n > 0 {
      VTapsFlat(pixels, width, height, weights, y, x, c, n - 1, v);
      var src := VSource(width, height, |weights|, y, x, n - 1);
      FlatAt(pixels, width * height, c, v, src);
      VTapsStep(pixels, width, height, weights, y, x, c, n);
    }
  }

  /** Pixel p of the horizontal output, channel c, in terms of its cell. */
  lemma HorizontalAtPixel(pixels: seq<real>, width: nat, height: nat, weights: seq<real>,
                        isOpaque: bool, p: nat, c: nat)
    requires p < width * height && c < 4 && width * height * 4 <= |pixels|
    ensures width > 0 && p / width < height
    ensures 4 * p + c < width * height * 4
    ensures HorizontalImage(pixels, width, height, weights, isOpaque)[4 * p + c]
      == var s := HTaps(pixels, width, height, weights, p / width, p % width, c, |weights|);
         if c == 3 then Alpha(s, AlphaFactor(isOpaque)) else s
  {
    PixelOfIndex(width, height, p);
    assert (4 * p + c) / 4 == p && (4 * p + c) % 4 == c;
  }

  lemma VerticalAtPixel(pixels: seq<real>, width: nat, height: nat, weights: seq<real>,
                      isOpaque: bool, p: nat, c: nat)
    requires p < width * height && c < 4 && width * height * 4 <= |pixels|
    ensures width > 0 && p / width < height
    ensures 4 * p + c < width * height * 4
    ensures VerticalImage(pixels, width, height, weights, isOpaque)[4 * p + c]
      == var s := VTaps(pixels, width, height, weights, p / width, p % width, c, |weights|);
         if c == 3 then Alpha(s, AlphaFactor(isOpaque)) else s
  {
    PixelOfIndex(width, height, p);
    assert (4 * p + c) / 4 == p && (4 * p + c) % 4 == c;
  }

  /** A channel that is v everywhere comes out of the horizontal pass as
      v * sum(weights) everywhere (alpha too unless `opaque`). */
  lemma HorizontalFlatAt(pixels: seq<real>, width: nat, height: nat, weights: seq<real>,
                     isOpaque: bool, c: nat, v: real, p: nat)
    requires c < 4 && (c < 3 || !isOpaque) && p < width * height
    requires width * height * 4 <= |pixels| && Flat(pixels, width * height, c, v)
    ensures 4 * p + c < width * height * 4
    ensures Channel(HorizontalImage(pixels, width, height, weights, isOpaque), p, c) == v * Sum(weights)
  {
    PixelOfIndex(width, height, p);
    var sum := HTaps(pixels, width, height, weights, p / width, p % width, c, |weights|);
    assert sum == v * Sum(weights) by {
      HTapsFlat(pixels, width, height, weights, p / width, p % width, c, |weights|, v);
      ScaledSum(v, weights, |weights|);
    }
    assert Channel(HorizontalImage(pixels, width, height, weights, isOpaque), p, c)
      == if c == 3 then Alpha(sum, AlphaFactor(isOpaque)) else sum by {
      HorizontalAtPixel(pixels, width, height, weights, isOpaque, p, c);
    }
  }

  lemma HorizontalFlat(pixels: seq<real>, width: nat, height: nat, weights: seq<real>,
               isOpaque: bool, c: nat, v: real)
    requires c < 4 && (c < 3 || !isOpaque)
    requires width * height * 4 <= |pixels| && Flat(pixels, width * height, c, v)
    ensures Flat(HorizontalImage(pixels, width, height, weights, isOpaque), width * height, c, v * Sum(weights))
  {
    var out := HorizontalImage(pixels, width, height, weights, isOpaque);
    forall p | 0 <= p < width * height
      ensures Channel(out, p, c) == v * Sum(weights)
    {
      HorizontalFlatAt(pixels, width, height, weights, isOpaque, c, v, p);
    }
  }


  lemma VerticalFlatAt(pixels: seq<real>, width: nat, height: nat, weights: seq<real>,
                   isOpaque: bool, c: nat, v: real, p: nat)
    requires c < 4 && (c < 3 || !isOpaque) && p < width * height
    requires width * height * 4 <= |pixels| && Flat(pixels, width * height, c, v)
    ensures 4 * p + c < width * height * 4
    ensures Channel(VerticalImage(pixels, width, height, weights, isOpaque), p, c) == v * Sum(weights)
  {
    PixelOfIndex(width, height, p);
    var sum := VTaps(pixels, width, height, weights, p / width, p % width, c, |weights|);
    assert sum == v * Sum(weights) by {
      VTapsFlat(pixels, width, height, weights, p / width, p % width, c, |weights|, v);
      ScaledSum(v, weights, |weights|);
    }
    assert Channel(VerticalImage(pixels, width, height, weights, isOpaque), p, c)
      == if c == 3 then Alpha(sum, AlphaFactor(isOpaque)) else sum by {
      VerticalAtPixel(pixels, width, height, weights, isOpaque, p, c);
    }
  }

  lemma VerticalFlat(pixels: seq<real>, width: nat, height: nat, weights: seq<real>,
             isOpaque: bool, c: nat, v: real)
    requires c < 4 && (c < 3 || !isOpaque)
    requires width * height * 4 <= |pixels| && Flat(pixels, width * height, c, v)
    ensures Flat(VerticalImage(pixels, width, height, weights, isOpaque), width * height, c, v * Sum(weights))
  {
    var out := VerticalImage(pixels, width, height, weights, isOpaque);
    forall p | 0 <= p < width * height
      ensures Channel(out, p, c) == v * Sum(weights)
    {
      VerticalFlatAt(pixels, width, height, weights, isOpaque, c, v, p);
    }
  }


  /** A truthy `opaque` makes every alpha of either pass exactly 255. */
  lemma OpaqueAlpha(pixels: seq<real>, width: nat, height: nat, weights: seq<real>)
    requires width * height * 4 <= |pixels|
    ensures Flat(HorizontalImage(pixels, width, height, weights, true), width * height, 3, 255.0)
    ensures Flat(VerticalImage(pixels, width, height, weights, true), width * height, 3, 255.0)
  {
    forall p | 0 <= p < width * height
      ensures Channel(HorizontalImage(pixels, width, height, weights, true), p, 3) == 255.0
      ensures Channel(VerticalImage(pixels, width, height, weights, true), p, 3) == 255.0
    {
      HorizontalAtPixel(pixels, width, height, weights, true, p, 3);
      VerticalAtPixel(pixels, width, height, weights, true, p, 3);
    }
  }

  /** A channel that is v everywhere leaves the vertical pass as
      w = v * sum(vertWeights) everywhere, and the horizontal pass then as
      w * sum(horizWeights): v * sum(vert) * sum(horiz) in all. */
  lemma SeparableFlat(pixels: seq<real>, width: nat, height: nat,
                      horizWeights: seq<real>, vertWeights: seq<real>, isOpaque: bool,
                      c: nat, v: real, w: real)
    requires c < 4 && (c < 3 || !isOpaque)
    requires width * height * 4 <= |pixels| && Flat(pixels, width * height, c, v)
    requires w == v * Sum(vertWeights)
    ensures Flat(VerticalImage(pixels, width, height, vertWeights, isOpaque), width * height, c, w)
    ensures Flat(SeparableImage(pixels, width, height, horizWeights, vertWeights, isOpaque),
                 width * height, c, w * Sum(horizWeights))
  {
    VerticalFlat(pixels, width, height, vertWeights, isOpaque, c, v);
    HorizontalFlat(VerticalImage(pixels, width, height, vertWeights, isOpaque),
                   width, height, horizWeights, isOpaque, c, w);
  }
}
