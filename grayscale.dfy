/** `ImageProcessor.grayscale`: one luma per pixel from 16-bit fixed-point
    weights applied to the pixel's little-endian 32-bit word. */
module Grayscale {
  import opened Buffers

  /** A pixel's four bytes as the little-endian word a Uint32Array view
      reads: byte 0 is the low byte, byte 3 (alpha) the high byte. */
  function Word(b0: byte, b1: byte, b2: byte, b3: byte): int
  {
    b0 + 256 * b1 + 65536 * b2 + 16777216 * b3
  }

  /** The shifts and masks of the luma expression pick single bytes of the
      word: `c & 0xff` is byte 0, `c >>> 8 & 0xff` byte 1, `c >>> 16 & 0xff`
      byte 2 and `c & 0xff000000` keeps byte 3 in place. */
  lemma WordChannels(b0: byte, b1: byte, b2: byte, b3: byte)
    ensures Word(b0, b1, b2, b3) % 256 == b0
    ensures Word(b0, b1, b2, b3) / 256 % 256 == b1
    ensures Word(b0, b1, b2, b3) / 65536 % 256 == b2
    ensures Word(b0, b1, b2, b3) / 16777216 == b3
  {
    var c := Word(b0, b1, b2, b3);
    assert c == b0 + 256 * (b1 + 256 * b2 + 65536 * b3);
    assert c / 256 == b1 + 256 * (b2 + 256 * b3);
    assert c / 65536 == b2 + 256 * b3;
  }

  /** The word `luma * 0x10101 | (c & 0xff000000)` that the fill branch
      stores is, byte by byte, [luma, luma, luma, alpha]. */
  lemma FilledWordBytes(luma: byte, alpha: byte)
    ensures luma * 0x10101 + alpha * 0x1000000 == Word(luma, luma, luma, alpha)
  {
  }

  /** The luma as written. The 13933/65536 weight (0.2126) meets byte 2 and
      the 4732/65536 weight (0.0722) meets byte 0; `>>> 16` floors. */
  function Luma(b0: byte, b1: byte, b2: byte): int
  {
    (b2 * 13933 + b1 * 46871 + b0 * 4732) / 65536
  }

  /** The weights total 65536, so the luma is a weighted mean of the three
      channels: it lies between their minimum and maximum, fits a byte, and
      a grey keeps its level. */
  lemma LumaIsMean(b0: byte, b1: byte, b2: byte)
    ensures Min3(b0, b1, b2) <= Luma(b0, b1, b2) <= Max3(b0, b1, b2)
    ensures 0 <= Luma(b0, b1, b2) <= 255
    ensures b0 == b1 == b2 ==> Luma(b0, b1, b2) == b0
  {
    var s := b2 * 13933 + b1 * 46871 + b0 * 4732;
    var lo, hi := Min3(b0, b1, b2), Max3(b0, b1, b2);
    assert lo * 65536 <= s <= hi * 65536;
    DivBetween(s, lo, hi);
  }

  function Min3(a: int, b: int, c: int): int
  {
    if a <= b && a <= c then a else if b <= c then b else c
  }

  function Max3(a: int, b: int, c: int): int
  {
    if a >= b && a >= c then a else if b >= c then b else c
  }

  lemma DivBetween(s: int, lo: int, hi: int)
    requires lo * 65536 <= s <= hi * 65536
    ensures lo <= s / 65536 <= hi
  {
  }

  /** Luma of pixel p of an RGBA buffer, as the code computes it. */
  function PixelLuma(pixels: seq<byte>, p: nat): (l: byte)
    requires 4 * p + 3 < |pixels|
    ensures Min3(pixels[4 * p], pixels[4 * p + 1], pixels[4 * p + 2]) <= l
    ensures l <= Max3(pixels[4 * p], pixels[4 * p + 1], pixels[4 * p + 2])
  {
    LumaIsMean(pixels[4 * p], pixels[4 * p + 1], pixels[4 * p + 2]);
    Luma(pixels[4 * p], pixels[4 * p + 1], pixels[4 * p + 2])
  }

  /** The bytes `grayscale` returns: [l, l, l, alpha] per pixel with
      `fillRGBA`, a single l per pixel without. */
  function GrayscaleImage(pixels: seq<byte>, fillRGBA: bool): seq<byte>
    requires |pixels| % 4 == 0
  {
    if fillRGBA then
      seq(|pixels|, k requires 0 <= k < |pixels| =>
        if k % 4 == 3 then pixels[k] else PixelLuma(pixels, k / 4))
    else
      seq(|pixels| / 4, p requires 0 <= p < |pixels| / 4 => PixelLuma(pixels, p))
  }

  /** What the host throws when a buffer whose length is not a multiple of
      4 is viewed as a `Uint32Array`. */
  const WordViewError: string := "RangeError: byte length of Uint32Array should be a multiple of 4"

  /** `grayscale`: the buffer is viewed as 32-bit words, which fails unless
      its length is a multiple of 4; then one loop per `fillRGBA` branch,
      each iteration handling one word. */
  method ToGrayscale(pixels: seq<byte>, fillRGBA: bool) returns (r: Result<array<byte>>)
    ensures r.Err? <==> |pixels| % 4 != 0
    ensures r.Err? ==> r.message == WordViewError
    ensures r.Ok? ==> r.value[..] == GrayscaleImage(pixels, fillRGBA)
    ensures r.Ok? && fillRGBA ==> r.value.Length == |pixels|
    ensures r.Ok? && !fillRGBA ==> r.value.Length == |pixels| / 4
  {
    if |pixels| % 4 != 0 {
      return Err(WordViewError);
    }
    var gray;
    if fillRGBA {
      gray := FillLoop(pixels);
    } else {
      gray := LumaLoop(pixels);
    }
    r := Ok(gray);
  }

  /** The `fillRGBA` loop: [l, l, l, alpha] per word. */
  method FillLoop(pixels: seq<byte>) returns (gray: array<byte>)
    requires |pixels| % 4 == 0
    ensures gray[..] == GrayscaleImage(pixels, true)
  {
    var len := |pixels| / 4;
    ghost var image := GrayscaleImage(pixels, true);
    gray := new byte[|pixels|];
    var i := 0;
    while i < len
      invariant 0 <= i <= len
      invariant forall k :: 0 <= k < 4 * i ==> gray[k] == image[k]
    {
      FillPixel(pixels, gray, i);
      i := i + 1;
    }
  }

  /** One iteration of the `fillRGBA` loop: word i becomes [l, l, l, alpha]. */
  method FillPixel(pixels: seq<byte>, gray: array<byte>, i: nat)
    requires |pixels| % 4 == 0 && i < |pixels| / 4 && gray.Length == |pixels|
    requires forall k :: 0 <= k < 4 * i ==> gray[k] == GrayscaleImage(pixels, true)[k]
    modifies gray
    ensures forall k :: 0 <= k < 4 * i + 4 ==> gray[k] == GrayscaleImage(pixels, true)[k]
  {
    ghost var image := GrayscaleImage(pixels, true);
    var luma := PixelLuma(pixels, i);
    GrayscaleLayout(pixels, i);
    gray[4 * i] := luma;
    gray[4 * i + 1] := luma;
    gray[4 * i + 2] := luma;
    gray[4 * i + 3] := pixels[4 * i + 3];
    forall k | 4 * i <= k < 4 * i + 4
      ensures gray[k] == image[k]
    {
      assert k == 4 * i || k == 4 * i + 1 || k == 4 * i + 2 || k == 4 * i + 3;
    }
  }

  /** The plain loop: one luma per word. */
  method LumaLoop(pixels: seq<byte>) returns (gray: array<byte>)
    requires |pixels| % 4 == 0
    ensures gray[..] == GrayscaleImage(pixels, false)
  {
    var len := |pixels| / 4;
    ghost var image := GrayscaleImage(pixels, false);
    gray := new byte[len];
    var i := 0;
    while i < len
      invariant 0 <= i <= len
      invariant forall k :: 0 <= k < i ==> gray[k] == image[k]
    {
      gray[i] := PixelLuma(pixels, i);
      i := i + 1;
    }
  }

  /** Pixel by pixel: three copies of the luma and the input alpha with
      `fillRGBA`, the luma alone without. */
  lemma GrayscaleLayout(pixels: seq<byte>, p: nat)
    requires |pixels| % 4 == 0 && p < |pixels| / 4
    ensures 4 * p + 3 < |GrayscaleImage(pixels, true)|
    ensures GrayscaleImage(pixels, true)[4 * p] == PixelLuma(pixels, p)
    ensures GrayscaleImage(pixels, true)[4 * p + 1] == PixelLuma(pixels, p)
    ensures GrayscaleImage(pixels, true)[4 * p + 2] == PixelLuma(pixels, p)
    ensures GrayscaleImage(pixels, true)[4 * p + 3] == pixels[4 * p + 3]
    ensures GrayscaleImage(pixels, false)[p] == PixelLuma(pixels, p)
  {
    Quad(p, 0);
    Quad(p, 1);
    Quad(p, 2);
    Quad(p, 3);
  }

  // ---------------------------------------------------------------------
  // The intended weights

  /** Luma with the ITU-R BT.709-6 (Part 1, item 3.2) weights on the
      channels they belong to: 13933/65536 on red, 4732/65536 on blue. */
  function LumaBt709(r: byte, g: byte, b: byte): int
  {
    (r * 13933 + g * 46871 + b * 4732) / 65536
  }

  /** The corrected luma is the floor of the BT.709 weighted sum, up to the
      rounding of the weights to 16 bits. */
  lemma LumaBt709Accuracy(r: byte, g: byte, b: byte)
    ensures -1.01 < LumaBt709(r, g, b) as real - (0.2126 * r as real + 0.7152 * g as real + 0.0722 * b as real) < 0.01
  {
    var s := r * 13933 + g * 46871 + b * 4732;
    var l := s / 65536;
    assert l * 65536 <= s < l * 65536 + 65536;
    assert s as real == 13933.0 * r as real + 46871.0 * g as real + 4732.0 * b as real;
    WeightedBounds(r as real, g as real, b as real, l as real);
  }

  lemma WeightedBounds(r: real, g: real, b: real, l: real)
    requires 0.0 <= r <= 255.0 && 0.0 <= g <= 255.0 && 0.0 <= b <= 255.0
    requires l * 65536.0 <= 13933.0 * r + 46871.0 * g + 4732.0 * b < l * 65536.0 + 65536.0
    ensures -1.01 < l - (0.2126 * r + 0.7152 * g + 0.0722 * b) < 0.01
  {
  }

  /** What the code computes is the corrected luma with red and blue
      exchanged. */
  lemma LumaSwapsRedAndBlue(r: byte, g: byte, b: byte)
    ensures Luma(r, g, b) == LumaBt709(b, g, r)
  {
  }

  /** Pure red: the code gives 18, BT.709 gives 54. */
  lemma PureRedLuma()
    ensures Luma(255, 0, 0) == 18
    ensures LumaBt709(255, 0, 0) == 54
    ensures LumaBt709(255, 0, 0) as real - 0.2126 * 255.0 < 0.01
  {
  }
}
