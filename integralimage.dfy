/** Integral images: the summed-area table (SAT) of the pixel intensities,
    of their squares and of the Sobel edge image, and the tilted
    summed-area table (RSAT), all filled in one row-major scan. Each table
    entry is computed from entries written earlier in the same scan; an
    index below 0 reads 0. */
module IntegralImage {
  import opened Buffers
  import opened HostMath
  import opened Sobel

  // ---------------------------------------------------------------------
  // Intensities

  /** `~~(r * 0.299 + g * 0.587 + b * 0.114)`: the BT.601-weighted luma,
      truncated (the weighted sum is never negative, so truncation is the
      floor). */
  function Luma601(r: byte, g: byte, b: byte): (l: int)
    ensures 0 <= l <= 255
  {
    (r as real * 0.299 + g as real * 0.587 + b as real * 0.114).Floor
  }

  /** Intensity of pixel p of an RGBA buffer. */
  function Intensity(pixels: seq<byte>, p: nat): (l: int)
    requires 4 * p + 2 < |pixels|
    ensures 0 <= l <= 255
  {
    Luma601(pixels[4 * p], pixels[4 * p + 1], pixels[4 * p + 2])
  }

  /** The intensities of the first n pixels. */
  function Intensities(pixels: seq<byte>, n: nat): (s: seq<real>)
    requires 4 * n <= |pixels|
    ensures |s| == n
  {
    seq(n, p requires 0 <= p < n => Intensity(pixels, p) as real)
  }

  /** Their squares, `pixel * pixel`. */
  function SquaredIntensities(pixels: seq<byte>, n: nat): (s: seq<real>)
    requires 4 * n <= |pixels|
    ensures |s| == n
  {
    seq(n, p requires 0 <= p < n => (Intensity(pixels, p) * Intensity(pixels, p)) as real)
  }

  /** `pixelAbove || 0`: the intensity of the pixel one row up, 0 in the
      top row (where the read lands before the buffer and yields NaN,
      which `~~` turns into 0). */
  function AboveIntensities(pixels: seq<byte>, width: nat, n: nat): (s: seq<real>)
    requires 4 * n <= |pixels|
    ensures |s| == n
  {
    seq(n, p requires 0 <= p < n => if p < width then 0.0 else Intensity(pixels, p - width) as real)
  }

  /** `pixelsSobel[w]`: the first channel of each pixel of the edge image. */
  function FirstChannels(edges: seq<real>, n: nat): (s: seq<real>)
    requires 4 * n <= |edges|
    ensures |s| == n
  {
    seq(n, p requires 0 <= p < n => edges[4 * p])
  }

  // ---------------------------------------------------------------------
  // The tables as written

  /** SAT entry k as the scan computes it:
      SAT[k] = SAT[k - width] + SAT[k - 1] + I[k] - SAT[k - width - 1],
      where only a negative index reads 0. */
  function Sat(vals: seq<real>, width: nat, k: int): real
    requires 0 < width && k < |vals|
    decreases k + 1
  {
    if k < 0 then 0.0
    else Sat(vals, width, k - width) + Sat(vals, width, k - 1) + vals[k] - Sat(vals, width, k - width - 1)
  }

  /** The whole SAT. */
  function SatTable(vals: seq<real>, width: nat): (t: seq<real>)
    requires 0 < width
    ensures |t| == |vals|
  {
    seq(|vals|, k requires 0 <= k < |vals| => Sat(vals, width, k))
  }

  /** RSAT entry k as the scan computes it:
      RSAT[k] = RSAT[k - width - 1] + RSAT[k - width + 1] - RSAT[k - 2 width] + I[k] + Iabove[k],
      where only a negative index reads 0. With a one-pixel-wide image the
      middle read is entry k itself, before it is written: the table's
      initial content `init[k]`. */
  function Rsat(vals: seq<real>, above: seq<real>, init: seq<real>, width: nat, k: int): real
    requires 0 < width && |above| == |init| == |vals| && k < |vals|
    decreases k + 1
  {
    if k < 0 then 0.0
    else
      var upLeft := Rsat(vals, above, init, width, k - width - 1);
      var upRight := if k - width + 1 < 0 then 0.0
                     else if width == 1 then init[k]
                     else Rsat(vals, above, init, width, k - width + 1);
      var twoUp := Rsat(vals, above, init, width, k - 2 * width);
      upLeft + upRight - twoUp + vals[k] + above[k]
  }

  /** The whole RSAT. */
  function RsatTable(vals: seq<real>, above: seq<real>, init: seq<real>, width: nat): (t: seq<real>)
    requires 0 < width && |above| == |init| == |vals|
    ensures |t| == |vals|
  {
    seq(|vals|, k requires 0 <= k < |vals| => Rsat(vals, above, init, width, k))
  }

  /** In the top row the SAT is the running sum of the row. */
  lemma {:induction false} SatTopRow(vals: seq<real>, width: nat, p: nat)
    requires 0 < width && p < width && p < |vals|
    ensures Sat(vals, width, p) == SumTo(vals, p + 1)
  {
    if 0 < p {
      SatTopRow(vals, width, p - 1);
    }
  }

  /** In the top row of an image at least two pixels wide, the RSAT entry
      is the pixel itself, except in the last column, where the up-right
      read lands on the row's first entry and adds the first pixel. */
  lemma RsatTopRow(vals: seq<real>, above: seq<real>, init: seq<real>, width: nat, p: nat)
    requires 2 <= width && p < width && p < |vals| && |above| == |init| == |vals|
    requires forall k :: 0 <= k < width && k < |above| ==> above[k] == 0.0
    ensures p < width - 1 ==> Rsat(vals, above, init, width, p) == vals[p]
    ensures p == width - 1 ==> Rsat(vals, above, init, width, p) == vals[0] + vals[p]
  {
    assert above[p] == 0.0;
    if p == width - 1 {
      assert above[0] == 0.0;
      assert Rsat(vals, above, init, width, 0) == vals[0];
    }
  }

  /** The top row of `AboveIntensities` is zero. */
  lemma AboveTopRow(pixels: seq<byte>, width: nat, n: nat)
    requires 4 * n <= |pixels|
    ensures forall k :: 0 <= k < width && k < n ==> AboveIntensities(pixels, width, n)[k] == 0.0
  {
  }

  /** The SAT as written: entry (1, 0) of a 2 x 2 image of ones is 4, not
      the 2 of the rectangle it should cover, because the left read of
      column 0 wraps to the last entry of the row above. */
  lemma SatColumnZeroWraps()
    ensures Sat([1.0, 1.0, 1.0, 1.0], 2, 2) == 4.0
    ensures RectSum([1.0, 1.0, 1.0, 1.0], 2, 2, 1, 0) == 2.0
  {
    var v := [1.0, 1.0, 1.0, 1.0];
    assert Sat(v, 2, 0) == 1.0;
    assert Sat(v, 2, 1) == 2.0;
    assert Pixel(v, 2, 2, 0, 0) == 1.0 && Pixel(v, 2, 2, 1, 0) == 1.0;
    assert RowPrefix(v, 2, 2, 0, 0) == 1.0;
    assert RectSum(v, 2, 2, 0, 0) == 1.0;
  }

  // ---------------------------------------------------------------------
  // The tables as intended

  /** Pixel (y, x) of a row-major table. */
  function Pixel(vals: seq<real>, width: nat, height: nat, y: nat, x: nat): real
    requires |vals| == width * height && y < height && x < width
  {
    RowMajorBound(width, height, y, x);
    vals[y * width + x]
  }

  /** The sum of row y from column 0 to column x. */
  function RowPrefix(vals: seq<real>, width: nat, height: nat, y: nat, x: int): real
    requires |vals| == width * height && y < height && x < width
    decreases x + 1
  {
    if x < 0 then 0.0 else RowPrefix(vals, width, height, y, x - 1) + Pixel(vals, width, height, y, x)
  }

  /** The sum of the rectangle from (0, 0) to (y, x), both corners
      included: what SAT(x, y) stands for. */
  function RectSum(vals: seq<real>, width: nat, height: nat, y: int, x: int): real
    requires |vals| == width * height && y < height && x < width
    decreases y + 1
  {
    if y < 0 || x < 0 then 0.0 else RectSum(vals, width, height, y - 1, x) + RowPrefix(vals, width, height, y, x)
  }

  /** The SAT recurrence on (y, x), with a read left of column 0 or above
      row 0 giving 0 instead of wrapping. */
  function CorrectedSat(vals: seq<real>, width: nat, height: nat, y: int, x: int): real
    requires |vals| == width * height && y < height && x < width
    decreases y + x + 2
  {
    if y < 0 || x < 0 then 0.0
    else
      CorrectedSat(vals, width, height, y - 1, x) + CorrectedSat(vals, width, height, y, x - 1)
      + Pixel(vals, width, height, y, x) - CorrectedSat(vals, width, height, y - 1, x - 1)
  }

  /** With the corrected reads every entry is the sum of its rectangle. */
  lemma {:induction false} CorrectedSatIsRectSum(vals: seq<real>, width: nat, height: nat, y: int, x: int)
    requires |vals| == width * height && y < height && x < width
    ensures CorrectedSat(vals, width, height, y, x) == RectSum(vals, width, height, y, x)
    decreases y + x + 2
  {
    if 0 <= y && 0 <= x {
      CorrectedSatIsRectSum(vals, width, height, y - 1, x);
      CorrectedSatIsRectSum(vals, width, height, y, x - 1);
      CorrectedSatIsRectSum(vals, width, height, y - 1, x - 1);
    }
  }

  /** Hence a rectangle's sum is read off four entries of the corrected
      table. */
  lemma CorrectedSatRectangle(vals: seq<real>, width: nat, height: nat, y0: nat, x0: nat, y1: nat, x1: nat)
    requires |vals| == width * height && y0 <= y1 < height && x0 <= x1 < width
    ensures CorrectedSat(vals, width, height, y1, x1) - CorrectedSat(vals, width, height, y0 - 1, x1)
          - CorrectedSat(vals, width, height, y1, x0 - 1) + CorrectedSat(vals, width, height, y0 - 1, x0 - 1)
          == BlockSum(vals, width, height, y0, y1, x0, x1)
  {
    CorrectedSatIsRectSum(vals, width, height, y1, x1);
    CorrectedSatIsRectSum(vals, width, height, y0 - 1, x1);
    CorrectedSatIsRectSum(vals, width, height, y1, x0 - 1);
    CorrectedSatIsRectSum(vals, width, height, y0 - 1, x0 - 1);
    BlockSumSplit(vals, width, height, y0, y1, x0, x1);
  }

  /** The sum of rows y0..y1, columns x0..x1. */
  function BlockSum(vals: seq<real>, width: nat, height: nat, y0: nat, y1: int, x0: nat, x1: nat): real
    requires |vals| == width * height && y1 < height && x0 <= x1 < width
    decreases y1 + 1
  {
    if y1 < y0 then 0.0
    else BlockSum(vals, width, height, y0, y1 - 1, x0, x1)
         + RowPrefix(vals, width, height, y1, x1) - RowPrefix(vals, width, height, y1, x0 - 1)
  }

  /** A block is a difference of rectangles. */
  lemma {:induction false} BlockSumSplit(vals: seq<real>, width: nat, height: nat, y0: nat, y1: int, x0: nat, x1: nat)
    requires |vals| == width * height && y0 - 1 <= y1 < height && x0 <= x1 < width
    ensures BlockSum(vals, width, height, y0, y1, x0, x1)
         == RectSum(vals, width, height, y1, x1) - RectSum(vals, width, height, y0 - 1, x1)
          - RectSum(vals, width, height, y1, x0 - 1) + RectSum(vals, width, height, y0 - 1, x0 - 1)
    decreases y1 + 1
  {
    if y0 <= y1 {
      BlockSumSplit(vals, width, height, y0, y1 - 1, x0, x1);
    }
  }

  // ---------------------------------------------------------------------
  // The scan

  /** `T[k] || 0` for an index below the cell being written: a negative
      index reads `undefined`, which `|| 0` turns into 0. */
  function Cell(t: array<real>, k: int): real
    reads t
    requires k < t.Length
  {
    if 0 <= k then t[k] else 0.0
  }

  /** The first p entries of t hold `spec`, the rest still hold `init`. */
  ghost predicate Scanned(t: array<real>, spec: seq<real>, init: seq<real>, p: nat)
    reads t
  {
    t.Length == |spec| == |init| && p <= t.Length &&
    (forall k :: 0 <= k < p ==> t[k] == spec[k]) &&
    (forall k :: p <= k < t.Length ==> t[k] == init[k])
  }

  /** `Scanned` for an output the caller may have left out. */
  ghost predicate OptScanned(t: Option<array<real>>, spec: seq<real>, init: seq<real>, p: nat)
    reads if t.Some? then {t.value} else {}
  {
    t.Some? ==> Scanned(t.value, spec, init, p)
  }

  /** `computePixelValueSAT_`: writes SAT entry p from the entries above,
      to the left and diagonally up-left. */
  method ComputePixelValueSat(t: array<real>, ghost vals: seq<real>, ghost init: seq<real>,
                              width: nat, p: nat, pixel: real)
    requires 0 < width && p < |vals| && pixel == vals[p]
    requires Scanned(t, SatTable(vals, width), init, p)
    modifies t
    ensures Scanned(t, SatTable(vals, width), init, p + 1)
  {
    ghost var spec := SatTable(vals, width);
    SatCell(t, vals, init, width, p, p - width);
    SatCell(t, vals, init, width, p, p - 1);
    SatCell(t, vals, init, width, p, p - width - 1);
    t[p] := Cell(t, p - width) + Cell(t, p - 1) + pixel - Cell(t, p - width - 1);
    assert t[p] == spec[p];
  }

  /** An entry before the scan position reads as the SAT says. */
  lemma SatCell(t: array<real>, vals: seq<real>, init: seq<real>, width: nat, p: nat, k: int)
    requires 0 < width && p < |vals| && k < p
    requires Scanned(t, SatTable(vals, width), init, p)
    ensures Cell(t, k) == Sat(vals, width, k)
  {
    if 0 <= k {
      assert t[k] == SatTable(vals, width)[k];
    }
  }

  /** An entry before the scan position reads as the RSAT says. */
  lemma RsatCell(t: array<real>, vals: seq<real>, above: seq<real>, init: seq<real>, width: nat, p: nat, k: int)
    requires 0 < width && p < |vals| == |above| == |init| && k < p
    requires Scanned(t, RsatTable(vals, above, init, width), init, p)
    ensures Cell(t, k) == Rsat(vals, above, init, width, k)
  {
    if 0 <= k {
      assert t[k] == RsatTable(vals, above, init, width)[k];
    }
  }

  /** `computePixelValueRSAT_`: writes RSAT entry p from the entries
      up-left, up-right and two rows up. */
  method ComputePixelValueRsat(t: array<real>, ghost vals: seq<real>, ghost above: seq<real>,
                               ghost init: seq<real>, width: nat, p: nat, pixel: real, pixelAbove: real)
    requires 0 < width && p < |vals| == |above| == |init| && pixel == vals[p] && pixelAbove == above[p]
    requires Scanned(t, RsatTable(vals, above, init, width), init, p)
    modifies t
    ensures Scanned(t, RsatTable(vals, above, init, width), init, p + 1)
  {
    ghost var spec := RsatTable(vals, above, init, width);
    RsatCell(t, vals, above, init, width, p, p - width - 1);
    if width != 1 {
      RsatCell(t, vals, above, init, width, p, p - width + 1);
    }
    RsatCell(t, vals, above, init, width, p, p - width - width);
    t[p] := Cell(t, p - width - 1) + Cell(t, p - width + 1) - Cell(t, p - width - width) + pixel + pixelAbove;
    assert t[p] == spec[p];
  }

  /** The four optional outputs. */
  function Outputs(sum: Option<array<real>>, square: Option<array<real>>,
                   tilted: Option<array<real>>, sobel: Option<array<real>>): set<array<real>>
  {
    (if sum.Some? then {sum.value} else {}) + (if square.Some? then {square.value} else {}) +
    (if tilted.Some? then {tilted.value} else {}) + (if sobel.Some? then {sobel.value} else {})
  }

  /** No two of the outputs given are the same array. */
  predicate Separate(sum: Option<array<real>>, square: Option<array<real>>,
                     tilted: Option<array<real>>, sobel: Option<array<real>>)
  {
    (sum.Some? && square.Some? ==> sum.value != square.value) &&
    (sum.Some? && tilted.Some? ==> sum.value != tilted.value) &&
    (sum.Some? && sobel.Some? ==> sum.value != sobel.value) &&
    (square.Some? && tilted.Some? ==> square.value != tilted.value) &&
    (square.Some? && sobel.Some? ==> square.value != sobel.value) &&
    (tilted.Some? && sobel.Some? ==> tilted.value != sobel.value)
  }

  /** The initial content of an output; n zeros when it is left out. */
  function Initial(t: Option<array<real>>, n: nat): (s: seq<real>)
    reads if t.Some? then {t.value} else {}
    requires t.Some? ==> t.value.Length == n
    ensures |s| == n
  {
    if t.Some? then t.value[..] else seq(n, _ => 0.0)
  }

  const MissingOutputMessage: string :=
    "You should specify at least one output array in the order: sum, square, tilted, sobel."

  /** `computeIntegralImage`. `argumentCount` is `arguments.length`; an
      output the caller did not pass is `None`. With fewer than four
      arguments it throws and changes nothing. Otherwise, when a Sobel
      table is asked for, `sobel` first overwrites `pixels` with its edge
      image; then every table given is filled from the (possibly
      overwritten) pixels. */
  method ComputeIntegralImage(m: MathLib, pixels: array<byte>, width: nat, height: nat,
                              sum: Option<array<real>>, square: Option<array<real>>,
                              tilted: Option<array<real>>, sobel: Option<array<real>>,
                              argumentCount: nat)
    returns (r: Result<()>)
    requires pixels.Length == width * height * 4
    requires sum.Some? ==> 4 <= argumentCount
    requires square.Some? ==> 5 <= argumentCount
    requires tilted.Some? ==> 6 <= argumentCount
    requires sobel.Some? ==> 7 <= argumentCount
    requires Separate(sum, square, tilted, sobel)
    requires forall t :: t in Outputs(sum, square, tilted, sobel) ==> t.Length == width * height
    modifies pixels, Outputs(sum, square, tilted, sobel)
    ensures r.Err? <==> argumentCount < 4
    ensures r.Err? ==>
      r.message == MissingOutputMessage && unchanged(pixels) && unchanged(Outputs(sum, square, tilted, sobel))
    ensures r.Ok? ==>
      var edges := EdgeImage(m, old(pixels[..]), width, height);
      var source := if sobel.Some? then EdgeBytes(edges) else old(pixels[..]);
      var n := width * height;
      && pixels[..] == source
      && (0 < width ==>
        && (sum.Some? ==> sum.value[..] == SatTable(Intensities(source, n), width))
        && (square.Some? ==> square.value[..] == SatTable(SquaredIntensities(source, n), width))
        && (tilted.Some? ==>
              tilted.value[..] ==
              RsatTable(Intensities(source, n), AboveIntensities(source, width, n), old(tilted.value[..]), width))
        && (sobel.Some? ==> sobel.value[..] == SatTable(FirstChannels(edges, n), width)))
  {
    if argumentCount < 4 {
      return Err(MissingOutputMessage);
    }
    var n := width * height;
    ghost var edges := EdgeImage(m, pixels[..], width, height);
    var pixelsSobel: seq<real> := [];
    if sobel.Some? {
      var output := SobelEdges(m, pixels, width, height);
      pixelsSobel := output[..];
    }
    if 0 < width {
      ScanTables(pixels, width, height, sum, square, tilted, sobel, pixelsSobel);
    }
    return Ok(());
  }

  /** The row-major scan of `computeIntegralImage` over pixels that no
      longer change: every table given is filled from the pixel
      intensities (the Sobel table from the first channel of `pixelsSobel`). */
  method ScanTables(pixels: array<byte>, width: nat, height: nat,
                    sum: Option<array<real>>, square: Option<array<real>>,
                    tilted: Option<array<real>>, sobel: Option<array<real>>, pixelsSobel: seq<real>)
    requires 0 < width && pixels.Length == width * height * 4
    requires sobel.Some? ==> |pixelsSobel| == width * height * 4
    requires Separate(sum, square, tilted, sobel)
    requires forall t :: t in Outputs(sum, square, tilted, sobel) ==> t.Length == width * height
    modifies Outputs(sum, square, tilted, sobel)
    ensures
      var n := width * height;
      && (sum.Some? ==> sum.value[..] == SatTable(Intensities(pixels[..], n), width))
      && (square.Some? ==> square.value[..] == SatTable(SquaredIntensities(pixels[..], n), width))
      && (tilted.Some? ==>
            tilted.value[..] ==
            RsatTable(Intensities(pixels[..], n), AboveIntensities(pixels[..], width, n), old(tilted.value[..]), width))
      && (sobel.Some? ==> sobel.value[..] == SatTable(FirstChannels(pixelsSobel, n), width))
  {
    var n := width * height;
    ghost var sumInit, squareInit, tiltedInit, sobelInit := Initial(sum, n), Initial(square, n), Initial(tilted, n), Initial(sobel, n);
    ghost var vals, squares, above := Intensities(pixels[..], n), SquaredIntensities(pixels[..], n), AboveIntensities(pixels[..], width, n);
    ghost var edgeVals := if sobel.Some? then FirstChannels(pixelsSobel, n) else [];
    ScanRows(pixels, width, height, sum, square, tilted, sobel, pixelsSobel,
             vals, squares, above, edgeVals, sumInit, squareInit, tiltedInit, sobelInit);
    if sum.Some? { ScannedAll(sum.value, SatTable(vals, width), sumInit); }
    if square.Some? { ScannedAll(square.value, SatTable(squares, width), squareInit); }
    if tilted.Some? { ScannedAll(tilted.value, RsatTable(vals, above, tiltedInit, width), tiltedInit); }
    if sobel.Some? { ScannedAll(sobel.value, SatTable(edgeVals, width), sobelInit); }
  }

  /** A table scanned to its end holds its specification. */
  lemma ScannedAll(t: array<real>, spec: seq<real>, init: seq<real>)
    requires Scanned(t, spec, init, t.Length)
    ensures t[..] == spec
  {
  }

  /** The outer loop of the scan: row by row. */
  method ScanRows(pixels: array<byte>, width: nat, height: nat,
                  sum: Option<array<real>>, square: Option<array<real>>,
                  tilted: Option<array<real>>, sobel: Option<array<real>>, pixelsSobel: seq<real>,
                  ghost vals: seq<real>, ghost squares: seq<real>, ghost above: seq<real>, ghost edgeVals: seq<real>,
                  ghost sumInit: seq<real>, ghost squareInit: seq<real>, ghost tiltedInit: seq<real>,
                  ghost sobelInit: seq<real>)
    requires 0 < width && pixels.Length == width * height * 4 && |tiltedInit| == width * height
    requires Separate(sum, square, tilted, sobel)
    requires vals == Intensities(pixels[..], width * height)
    requires squares == SquaredIntensities(pixels[..], width * height)
    requires above == AboveIntensities(pixels[..], width, width * height)
    requires sobel.Some? ==> |pixelsSobel| == width * height * 4 && edgeVals == FirstChannels(pixelsSobel, width * height)
    requires OptScanned(sum, SatTable(vals, width), sumInit, 0)
    requires OptScanned(square, SatTable(squares, width), squareInit, 0)
    requires OptScanned(tilted, RsatTable(vals, above, tiltedInit, width), tiltedInit, 0)
    requires OptScanned(sobel, SatTable(edgeVals, width), sobelInit, 0)
    modifies Outputs(sum, square, tilted, sobel)
    ensures OptScanned(sum, SatTable(vals, width), sumInit, width * height)
    ensures OptScanned(square, SatTable(squares, width), squareInit, width * height)
    ensures OptScanned(tilted, RsatTable(vals, above, tiltedInit, width), tiltedInit, width * height)
    ensures OptScanned(sobel, SatTable(edgeVals, width), sobelInit, width * height)
  {
    var i := 0;
    while i < height
      invariant 0 <= i <= height
      invariant OptScanned(sum, SatTable(vals, width), sumInit, i * width)
      invariant OptScanned(square, SatTable(squares, width), squareInit, i * width)
      invariant OptScanned(tilted, RsatTable(vals, above, tiltedInit, width), tiltedInit, i * width)
      invariant OptScanned(sobel, SatTable(edgeVals, width), sobelInit, i * width)
    {
      RowEnd(width, height, i);
      ScanRow(pixels, width, height, i, sum, square, tilted, sobel, pixelsSobel,
              vals, squares, above, edgeVals, sumInit, squareInit, tiltedInit, sobelInit);
      i := i + 1;
    }
    assert i * width == width * height;
  }

  /** The inner loop of the scan: row i, pixel by pixel. */
  method ScanRow(pixels: array<byte>, width: nat, height: nat, i: nat,
                 sum: Option<array<real>>, square: Option<array<real>>,
                 tilted: Option<array<real>>, sobel: Option<array<real>>, pixelsSobel: seq<real>,
                 ghost vals: seq<real>, ghost squares: seq<real>, ghost above: seq<real>, ghost edgeVals: seq<real>,
                 ghost sumInit: seq<real>, ghost squareInit: seq<real>, ghost tiltedInit: seq<real>,
                 ghost sobelInit: seq<real>)
    requires 0 < width && i < height && pixels.Length == width * height * 4 && |tiltedInit| == width * height
    requires Separate(sum, square, tilted, sobel)
    requires vals == Intensities(pixels[..], width * height)
    requires squares == SquaredIntensities(pixels[..], width * height)
    requires above == AboveIntensities(pixels[..], width, width * height)
    requires sobel.Some? ==> |pixelsSobel| == width * height * 4 && edgeVals == FirstChannels(pixelsSobel, width * height)
    requires OptScanned(sum, SatTable(vals, width), sumInit, i * width)
    requires OptScanned(square, SatTable(squares, width), squareInit, i * width)
    requires OptScanned(tilted, RsatTable(vals, above, tiltedInit, width), tiltedInit, i * width)
    requires OptScanned(sobel, SatTable(edgeVals, width), sobelInit, i * width)
    modifies Outputs(sum, square, tilted, sobel)
    ensures OptScanned(sum, SatTable(vals, width), sumInit, i * width + width)
    ensures OptScanned(square, SatTable(squares, width), squareInit, i * width + width)
    ensures OptScanned(tilted, RsatTable(vals, above, tiltedInit, width), tiltedInit, i * width + width)
    ensures OptScanned(sobel, SatTable(edgeVals, width), sobelInit, i * width + width)
  {
    var j := 0;
    while j < width
      invariant 0 <= j <= width
      invariant OptScanned(sum, SatTable(vals, width), sumInit, i * width + j)
      invariant OptScanned(square, SatTable(squares, width), squareInit, i * width + j)
      invariant OptScanned(tilted, RsatTable(vals, above, tiltedInit, width), tiltedInit, i * width + j)
      invariant OptScanned(sobel, SatTable(edgeVals, width), sobelInit, i * width + j)
    {
      RowMajorBound(width, height, i, j);
      ScanPixel(pixels, width, width * height, i * width + j, sum, square, tilted, sobel, pixelsSobel,
                vals, squares, above, edgeVals, sumInit, squareInit, tiltedInit, sobelInit);
      j := j + 1;
    }
  }

  /** One iteration of the scan: the intensity of pixel p (the pixel at
      byte offset `w = 4 p`) goes into every table given. */
  method ScanPixel(pixels: array<byte>, width: nat, n: nat, p: nat,
                   sum: Option<array<real>>, square: Option<array<real>>,
                   tilted: Option<array<real>>, sobel: Option<array<real>>, pixelsSobel: seq<real>,
                   ghost vals: seq<real>, ghost squares: seq<real>, ghost above: seq<real>, ghost edgeVals: seq<real>,
                   ghost sumInit: seq<real>, ghost squareInit: seq<real>, ghost tiltedInit: seq<real>,
                   ghost sobelInit: seq<real>)
    requires 0 < width && p < n && pixels.Length == n * 4 && |tiltedInit| == n
    requires Separate(sum, square, tilted, sobel)
    requires vals == Intensities(pixels[..], n)
    requires squares == SquaredIntensities(pixels[..], n)
    requires above == AboveIntensities(pixels[..], width, n)
    requires sobel.Some? ==> |pixelsSobel| == n * 4 && edgeVals == FirstChannels(pixelsSobel, n)
    requires OptScanned(sum, SatTable(vals, width), sumInit, p)
    requires OptScanned(square, SatTable(squares, width), squareInit, p)
    requires OptScanned(tilted, RsatTable(vals, above, tiltedInit, width), tiltedInit, p)
    requires OptScanned(sobel, SatTable(edgeVals, width), sobelInit, p)
    modifies Outputs(sum, square, tilted, sobel)
    ensures OptScanned(sum, SatTable(vals, width), sumInit, p + 1)
    ensures OptScanned(square, SatTable(squares, width), squareInit, p + 1)
    ensures OptScanned(tilted, RsatTable(vals, above, tiltedInit, width), tiltedInit, p + 1)
    ensures OptScanned(sobel, SatTable(edgeVals, width), sobelInit, p + 1)
  {
    var pixel := Intensity(pixels[..], p);
    if sum.Some? {
      ComputePixelValueSat(sum.value, vals, sumInit, width, p, pixel as real);
    }
    if square.Some? {
      ComputePixelValueSat(square.value, squares, squareInit, width, p, (pixel * pixel) as real);
    }
    if tilted.Some? {
      var pixelAbove := if p < width then 0 else Intensity(pixels[..], p - width);
      ComputePixelValueRsat(tilted.value, vals, above, tiltedInit, width, p, pixel as real, pixelAbove as real);
    }
    if sobel.Some? {
      ComputePixelValueSat(sobel.value, edgeVals, sobelInit, width, p, pixelsSobel[4 * p]);
    }
  }
}
