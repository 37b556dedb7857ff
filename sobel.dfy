/** Sobel edge detection: the grayscale image convolved with the Sobel
    sign and scale vectors in both orders, and the length of the resulting
    gradient written back as an opaque gray image. */
module Sobel {
  import opened Buffers
  import opened HostMath
  import opened Grayscale
  import opened Convolution

  /** The derivative taps [-1, 0, 1]. */
  const SignVector: seq<real> := [-1.0, 0.0, 1.0]

  /** The smoothing taps [1, 2, 1]. */
  const ScaleVector: seq<real> := [1.0, 2.0, 1.0]

  /** Length of the gradient (h, v). */
  function Magnitude(m: MathLib, h: real, v: real): real
  {
    m.sqrt(h * h + v * v)
  }

  /** The `fillRGBA` grayscale of the input, read as numbers. */
  function GrayReals(pixels: seq<byte>): (g: seq<real>)
    requires |pixels| % 4 == 0
    ensures |g| == |pixels|
  {
    AsReals(GrayscaleImage(pixels, true))
  }

  /** `vertical`: the sign vector across each row, the scale vector down
      each column. */
  function VerticalGradient(pixels: seq<byte>, width: nat, height: nat): (g: seq<real>)
    requires |pixels| == width * height * 4
    ensures |g| == width * height * 4
  {
    SeparableImage(GrayReals(pixels), width, height, SignVector, ScaleVector, false)
  }

  /** `horizontal`: the scale vector across each row, the sign vector down
      each column. */
  function HorizontalGradient(pixels: seq<byte>, width: nat, height: nat): (g: seq<real>)
    requires |pixels| == width * height * 4
    ensures |g| == width * height * 4
  {
    SeparableImage(GrayReals(pixels), width, height, ScaleVector, SignVector, false)
  }

  /** The edge image built from the two gradient images: in the colour
      channels the gradient length of the pixel's first channel, in alpha
      255. */
  function Edges(m: MathLib, horizontal: seq<real>, vertical: seq<real>): (out: seq<real>)
    requires |horizontal| == |vertical|
    ensures |out| == |horizontal|
  {
    seq(|horizontal|, k requires 0 <= k < |horizontal| =>
      if k % 4 == 3 then 255.0
      else Magnitude(m, horizontal[k - k % 4], vertical[k - k % 4]))
  }

  /** The image `sobel` returns. */
  function EdgeImage(m: MathLib, pixels: seq<byte>, width: nat, height: nat): (out: seq<real>)
    requires |pixels| == width * height * 4
    ensures |out| == width * height * 4
  {
    Edges(m, HorizontalGradient(pixels, width, height), VerticalGradient(pixels, width, height))
  }

  /** The same image stored into a Uint8ClampedArray. */
  function EdgeBytes(edges: seq<real>): (b: seq<byte>)
    ensures |b| == |edges|
  {
    seq(|edges|, k requires 0 <= k < |edges| => ToUint8Clamp(edges[k]))
  }

  /** Pixel p of the edge image: three copies of the gradient length of its
      first channel, then 255. */
  lemma EdgeLayout(m: MathLib, horizontal: seq<real>, vertical: seq<real>, p: nat)
    requires |horizontal| == |vertical| && 4 * p + 4 <= |horizontal|
    ensures var e, g := Edges(m, horizontal, vertical), Magnitude(m, horizontal[4 * p], vertical[4 * p]);
      e[4 * p] == g && e[4 * p + 1] == g && e[4 * p + 2] == g && e[4 * p + 3] == 255.0
  {
    Quad(p, 0);
    Quad(p, 1);
    Quad(p, 2);
    Quad(p, 3);
  }

  /** Writes pixel p of the edge image into the output and, clamped, into
      the input buffer, extending the finished prefix by one pixel. */
  method WritePixel(output: array<real>, pixels: array<byte>, ghost edges: seq<real>, p: nat, magnitude: real)
    requires 4 * p + 4 <= output.Length == pixels.Length == |edges|
    requires forall k :: 0 <= k < 4 * p ==> output[k] == edges[k] && pixels[k] == ToUint8Clamp(edges[k])
    requires edges[4 * p] == edges[4 * p + 1] == edges[4 * p + 2] == magnitude && edges[4 * p + 3] == 255.0
    modifies output, pixels
    ensures forall k :: 0 <= k < 4 * p + 4 ==> output[k] == edges[k] && pixels[k] == ToUint8Clamp(edges[k])
  {
    output[4 * p] := magnitude;
    output[4 * p + 1] := magnitude;
    output[4 * p + 2] := magnitude;
    output[4 * p + 3] := 255.0;
    pixels[4 * p] := ToUint8Clamp(magnitude);
    pixels[4 * p + 1] := ToUint8Clamp(magnitude);
    pixels[4 * p + 2] := ToUint8Clamp(magnitude);
    pixels[4 * p + 3] := 255;
    forall k | 4 * p <= k < 4 * p + 4
      ensures output[k] == edges[k] && pixels[k] == ToUint8Clamp(edges[k])
    {
      assert k == 4 * p || k == 4 * p + 1 || k == 4 * p + 2 || k == 4 * p + 3;
    }
  }

  /** `sobel`: returns the edge image and overwrites the input pixels with
      it, clamped to bytes. */
  method SobelEdges(m: MathLib, pixels: array<byte>, width: nat, height: nat) returns (output: array<real>)
    requires pixels.Length == width * height * 4
    modifies pixels
    ensures output[..] == EdgeImage(m, old(pixels[..]), width, height)
    ensures pixels[..] == EdgeBytes(output[..])
  {
    var verticalImage, horizontalImage := Gradients(pixels[..], width, height);
    var vertical, horizontal := verticalImage[..], horizontalImage[..];
    ghost var edges := Edges(m, horizontal, vertical);
    var n := width * height;
    output := new real[4 * n];
    var p := 0;
    while p < n
      invariant 0 <= p <= n && output.Length == pixels.Length == 4 * n
      invariant forall k :: 0 <= k < 4 * p ==> output[k] == edges[k] && pixels[k] == ToUint8Clamp(edges[k])
    {
      EdgeLayout(m, horizontal, vertical, p);
      var magnitude := Magnitude(m, horizontal[4 * p], vertical[4 * p]);
      WritePixel(output, pixels, edges, p, magnitude);
      p := p + 1;
    }
  }

  /** The two convolutions of the grayscale image. */
  method Gradients(pixels: seq<byte>, width: nat, height: nat) returns (vertical: array<real>, horizontal: array<real>)
    requires |pixels| == width * height * 4
    ensures vertical[..] == VerticalGradient(pixels, width, height)
    ensures horizontal[..] == HorizontalGradient(pixels, width, height)
  {
    var gray := ToGrayscale(pixels, true);
    var grayReals := AsReals(gray.value[..]);
    vertical := SeparableConvolve(grayReals, width, height, SignVector, ScaleVector, false);
    horizontal := SeparableConvolve(grayReals, width, height, ScaleVector, SignVector, false);
  }

  // ---------------------------------------------------------------------
  // Properties

  /** Under the host's square root, the gradient length is the non-negative
      root of h^2 + v^2 and vanishes exactly when both components do. */
  lemma MagnitudeFacts(m: MathLib, h: real, v: real)
    requires Sound(m)
    ensures 0.0 <= Magnitude(m, h, v)
    ensures Magnitude(m, h, v) * Magnitude(m, h, v) == h * h + v * v
    ensures Magnitude(m, h, v) == 0.0 <==> h == 0.0 && v == 0.0
  {
    SquarePositive(h);
    SquarePositive(v);
    if h == 0.0 && v == 0.0 {
      assert h * h + v * v == 0.0;
    } else {
      assert 0.0 < h * h + v * v;
    }
  }

  /** Every pixel of the edge image is an opaque gray whose level is the
      gradient length: zero exactly where both gradients vanish. */
  lemma EdgesAreOpaqueGray(m: MathLib, horizontal: seq<real>, vertical: seq<real>, p: nat)
    requires Sound(m) && |horizontal| == |vertical| && 4 * p + 4 <= |horizontal|
    ensures var e := Edges(m, horizontal, vertical);
      e[4 * p] == e[4 * p + 1] == e[4 * p + 2] && e[4 * p + 3] == 255.0 && 0.0 <= e[4 * p]
    ensures Edges(m, horizontal, vertical)[4 * p] == 0.0 <==>
      horizontal[4 * p] == 0.0 && vertical[4 * p] == 0.0
  {
    EdgeLayout(m, horizontal, vertical, p);
    MagnitudeFacts(m, horizontal[4 * p], vertical[4 * p]);
  }

  /** The first n pixels share the red, green and blue of pixel 0. */
  ghost predicate SameColour(pixels: seq<byte>, n: nat)
  {
    4 * n <= |pixels| &&
    forall p :: 0 <= p < n ==>
      pixels[4 * p] == pixels[0] && pixels[4 * p + 1] == pixels[1] && pixels[4 * p + 2] == pixels[2]
  }

  /** [-1, 0, 1] cancels a constant; [1, 2, 1] multiplies it by 4. */
  lemma VectorSums()
    ensures Sum(SignVector) == 0.0 && Sum(ScaleVector) == 4.0
  {
    assert SumTo(SignVector, 1) == -1.0 && SumTo(SignVector, 2) == -1.0;
    assert SumTo(ScaleVector, 1) == 1.0 && SumTo(ScaleVector, 2) == 3.0;
  }

  /** The grayscale of a single-colour image is flat in its first channel. */
  lemma SameColourFlatGray(pixels: seq<byte>, n: nat)
    requires |pixels| == 4 * n && 0 < n && SameColour(pixels, n)
    ensures Flat(GrayReals(pixels), n, 0, PixelLuma(pixels, 0) as real)
  {
    var g := GrayReals(pixels);
    forall p | 0 <= p < n
      ensures Channel(g, p, 0) == PixelLuma(pixels, 0) as real
    {
      GrayscaleLayout(pixels, p);
      assert PixelLuma(pixels, p) == PixelLuma(pixels, 0);
    }
  }

  /** Both Sobel convolutions of an image whose first channel is constant
      are 0 in that channel. */
  lemma FlatSobelGradients(gray: seq<real>, width: nat, height: nat, luma: real)
    requires width * height * 4 <= |gray| && Flat(gray, width * height, 0, luma)
    ensures Flat(SeparableImage(gray, width, height, SignVector, ScaleVector, false), width * height, 0, 0.0)
    ensures Flat(SeparableImage(gray, width, height, ScaleVector, SignVector, false), width * height, 0, 0.0)
  {
    VectorSums();
    SeparableFlat(gray, width, height, SignVector, ScaleVector, false, 0, luma, luma * 4.0);
    SeparableFlat(gray, width, height, ScaleVector, SignVector, false, 0, luma, luma * 0.0);
  }

  /** An image of a single colour has no edges: every colour channel of
      the edge image is 0. */
  lemma SameColourHasNoEdges(m: MathLib, pixels: seq<byte>, width: nat, height: nat)
    requires Sound(m) && |pixels| == width * height * 4 && SameColour(pixels, width * height)
    ensures forall k :: 0 <= k < width * height * 4 && k % 4 != 3 ==> EdgeImage(m, pixels, width, height)[k] == 0.0
  {
    if width * height == 0 {
      return;
    }
    var n := width * height;
    var gray, luma := GrayReals(pixels), PixelLuma(pixels, 0) as real;
    SameColourFlatGray(pixels, n);
    FlatSobelGradients(gray, width, height, luma);
    FlatGradientsNoEdges(m, HorizontalGradient(pixels, width, height), VerticalGradient(pixels, width, height), width * height);
  }

  /** Gradients that are 0 in every pixel's first channel give an edge
      image that is 0 in every colour channel. */
  lemma FlatGradientsNoEdges(m: MathLib, horizontal: seq<real>, vertical: seq<real>, n: nat)
    requires Sound(m) && |horizontal| == |vertical| == 4 * n
    requires Flat(horizontal, n, 0, 0.0) && Flat(vertical, n, 0, 0.0)
    ensures forall k :: 0 <= k < 4 * n && k % 4 != 3 ==> Edges(m, horizontal, vertical)[k] == 0.0
  {
    forall k | 0 <= k < 4 * n && k % 4 != 3
      ensures Edges(m, horizontal, vertical)[k] == 0.0
    {
      var p := k / 4;
      FlatAt(vertical, n, 0, 0.0, p);
      FlatAt(horizontal, n, 0, 0.0, p);
      EdgesAreOpaqueGray(m, horizontal, vertical, p);
      assert k == 4 * p || k == 4 * p + 1 || k == 4 * p + 2;
    }
  }
}
