# Pill swallower image processing, modelled in Dafny

This project models the image-processing core of the pill-swallower web app and proves properties of that model. The core has three parts.

- **`ImageProcessor`** (`src/imageprocessing/image.js`) works on flat RGBA byte buffers. A pixel at column x and row y starts at offset `(y*width+x)*4`. The operations are:
  - integer luma reduction (`grayscale`);
  - edge-clamped horizontal, vertical and separable convolutions;
  - the Gaussian blur kernel;
  - the Sobel operator, which also overwrites its input;
  - summed-area and tilted summed-area tables (`computeIntegralImage` and its two cell helpers);
  - histogram equalisation.
- **`ColorTracker`** (`src/imageprocessing/colors.ts`) is a class whose `track` sets the canvas size and the group-size limits, then passes the contours found by `floodfill` to a handler. `floodfill` runs `findShapes`, which follows paths of near-white pixels. The class also has a second segmenter, `trackColor_`, a layered breadth-first search that grows regions of similar colour.
- **Colour-space functions** (`src/imageprocessing/colorprocessing.ts`):
  - sRGB decoding (IEC 61966-2-1);
  - CIE XYZ and CIELAB conversion under the D65 white point;
  - LCh hue;
  - the Euclidean Lab distance behind `compareRGB`.

## How the model is built

- The imperative code is modelled as Dafny methods with loops, over arrays where the source uses typed arrays. Each method is proved equal to a specification function over sequences, and the properties are lemmas about those functions. For `trackColor_` the specification functions are recursive references that follow its loops (`VisitOf`, `StepOf`, `ExpandFrom`, `SeedOf`, `TrackFrom`, `TrackColorOf`). The region invariants are proved on the methods' loops, and lemmas about the references prove what the loops do not state.
  - In the integral-image helpers, each method writes one cell of a table the caller owns.
  - `sobel` overwrites its input array.
  - `equalizeHist` accumulates its histogram in place.
- The nested loops of `trackColor_` are split into methods: one search pass (`Step`, `Visit`), one seed's search (`Expand`, `Seed`), one row of seeds (`TrackRow`) and the rows (`ScanRows`).
- `ColorTracker` is a class with the fields `width`, `height`, `minGroupSize` and `maxGroupSize`. `maxGroupSize` is `Infinity` until `track` sets it.
- The host's transcendental functions are an explicit parameter, the `HostMath.MathLib` record of `sqrt`, `pow`, `exp` and `atan`. `HostMath.Sound` states the only facts the proofs rely on. `Math.PI` is a literal constant.
- Numbers are exact reals and integers. A store into a `Uint8ClampedArray` is modelled with ECMAScript's ToUint8Clamp: clamp to 0..255, rounding halves to even. The host is taken to be little-endian.

The files, one module each:

- `buffers.dfy`: bytes, results, sums and index arithmetic.
- `hostmath.dfy`: the host math parameter and its facts.
- `colorprocessing.dfy`: the colour-space functions.
- `grayscale.dfy`: `grayscale`.
- `convolution.dfy`: the three convolutions.
- `blur.dfy`: the blur kernel and `blur`.
- `sobel.dfy`: `sobel`.
- `integralimage.dfy`: the integral image and its cell helpers.
- `equalize.dfy`: `equalizeHist`.
- `floodfill.dfy`: `findShapes`.
- `colortracker.dfy`: the `ColorTracker` class and `trackColor_`.

## Model

| member | source | states |
|---|---|---|
| Buffers.ToUint8Clamp | src/imageprocessing/image.js:352-355 | A real stored into a clamped byte buffer becomes a byte in 0..255. |
| ColorProcessing.RbgToSRgb | src/imageprocessing/colorprocessing.ts:7-9 | Each byte channel is divided by 255. |
| ColorProcessing.SRgbToLinearRgb | src/imageprocessing/colorprocessing.ts:41-49 | A channel up to 0.04045 is divided by 12.92. Above that it is `pow((c + 0.055) / 1.055, 2.4)`. |
| ColorProcessing.RbgToLinearRgb | src/imageprocessing/colorprocessing.ts:11-18 | The three scaled channels are decoded one by one. |
| ColorProcessing.RgbToXyz | src/imageprocessing/colorprocessing.ts:24-32 | The decoded channels go through the fixed 3×3 matrix, and each axis is then multiplied by 100. |
| ColorProcessing.LabF | src/imageprocessing/colorprocessing.ts:64-67 | A ratio above 0.008856 gives its cube root. Otherwise it gives `v·7.787 + 16/116`. |
| ColorProcessing.XyzToLab | src/imageprocessing/colorprocessing.ts:62-72 | Each axis is divided by its D65 white value (95.047, 100, 108.883) and companded. Then L = 116·fy − 16, a = 500·(fx − fy) and b = 200·(fy − fz). |
| ColorProcessing.RgbToLab | src/imageprocessing/colorprocessing.ts:74-76 | RGB goes to XYZ and then to Lab. |
| ColorProcessing.RadiansToDegrees | src/imageprocessing/colorprocessing.ts:119-121 | Radians are multiplied by 180/π. |
| ColorProcessing.AbToHue | src/imageprocessing/colorprocessing.ts:95-117 | The four axis cases are tested in the source's order. Otherwise the result is the arctangent of b/a in degrees, plus a bias of 0, 180 or 360 by quadrant. |
| ColorProcessing.LabToLch | src/imageprocessing/colorprocessing.ts:82-86 | l is kept, c = sqrt(a² + b²), and h is the hue of (a, b). |
| ColorProcessing.EuclidianDistance | src/imageprocessing/colorprocessing.ts:128-133 | The square root of the sum of `pow(d, 2)` over the three Lab differences. |
| ColorProcessing.Hue | src/imageprocessing/colorprocessing.ts:135-137 | The hue of the colour's Lab (a, b). |
| ColorProcessing.CompareRgb | src/imageprocessing/colorprocessing.ts:139-143 | The Euclidean distance between the two colours' Lab values. |
| ColorProcessing.NeutralAxis | src/imageprocessing/colorprocessing.ts:62-72 | Every XYZ colour t·(95.047, 100, 108.883) gets a = b = 0 and L = 116·f(t) − 16, for all t. |
| ColorProcessing.SRgbInUnitInterval | src/imageprocessing/colorprocessing.ts:7-9 | Byte channels in 0..255 map into [0, 1]. |
| ColorProcessing.DecodeSigns | src/imageprocessing/colorprocessing.ts:41-49 | Decoding maps 0 to 0. On the linear segment (c ≤ 0.04045) the result lies in [0, c]. A positive channel decodes to a positive value. |
| ColorProcessing.LinearOfGrey | src/imageprocessing/colorprocessing.ts:11-18 | A grey colour linearises channel by channel to the same value. |
| ColorProcessing.LuminanceOfGrey | src/imageprocessing/colorprocessing.ts:24-32 | For a grey the Y row of the matrix sums to 1, so Y is 100 times the decoded channel. |
| ColorProcessing.XyzOfBlack | src/imageprocessing/colorprocessing.ts:24-32 | Black maps to the XYZ origin. |
| ColorProcessing.LabReferencePoints | src/imageprocessing/colorprocessing.ts:59-76 | The D65 white point (95.047, 100, 108.883) maps to Lab (100, 0, 0). The XYZ origin and RGB black map to Lab (0, 0, 0). |
| ColorProcessing.LabOfWhite | src/imageprocessing/colorprocessing.ts:62-72 | The D65 white point (95.047, 100, 108.883) maps to Lab (100, 0, 0). |
| ColorProcessing.LabOfOrigin | src/imageprocessing/colorprocessing.ts:62-72 | The XYZ origin maps to Lab (0, 0, 0). |
| ColorProcessing.AtanDegrees | src/imageprocessing/colorprocessing.ts:116-121 | The arctangent in degrees lies strictly inside (-90, 90) and has the sign of its argument. |
| ColorProcessing.HueRange | src/imageprocessing/colorprocessing.ts:95-117 | Axis cases: a ≥ 0, b = 0 gives 0; a < 0, b = 0 gives 180; a = 0, b > 0 gives 90; a = 0, b < 0 gives 270. Off the axes the hue falls in its quadrant's open interval. The hue is always in [0, 360). |
| ColorProcessing.LchChroma | src/imageprocessing/colorprocessing.ts:82-86 | LCh keeps l. The chroma c is non-negative, c² = a² + b², and c = 0 iff a = b = 0. The hue is in [0, 360). |
| ColorProcessing.DistanceMetric | src/imageprocessing/colorprocessing.ts:128-133 | The Lab distance is symmetric and non-negative, and it is 0 iff the two colours are equal. |
| ColorProcessing.CompareRgbSymmetric | src/imageprocessing/colorprocessing.ts:139-143 | `compareRGB(c, c) == 0`, `compareRGB(a, b) == compareRGB(b, a)`, and the result is non-negative. |
| ColorProcessing.HueInRange | src/imageprocessing/colorprocessing.ts:135-137 | `hue` is in [0, 360). |
| Grayscale.Word | src/imageprocessing/image.js:173-182 | A pixel's four bytes read as the 32-bit word of a little-endian `Uint32Array` view: byte 0 is the lowest byte and alpha the highest. |
| Grayscale.Luma | src/imageprocessing/image.js:189 | The luma exactly as written: `(byte2·13933 + byte1·46871 + byte0·4732) >>> 16`, which floors. Byte 2 is blue and byte 0 is red. |
| Grayscale.WordChannels | src/imageprocessing/image.js:173-182 | A pixel read as a little-endian 32-bit word holds byte k at bits 8k..8k+7. |
| Grayscale.FilledWordBytes | src/imageprocessing/image.js:190 | `luma * 0x10101 \| alpha << 24` is the word whose bytes are [luma, luma, luma, alpha]. |
| Grayscale.LumaIsMean | src/imageprocessing/image.js:189 | The luma lies between the smallest and largest channel, so it is in 0..255, and a grey pixel keeps its value. |
| Grayscale.PixelLuma | src/imageprocessing/image.js:182-189 | A pixel's luma lies between its smallest and largest colour byte. |
| Grayscale.GrayscaleImage | src/imageprocessing/image.js:171-202 | With `fillRGBA` each pixel becomes `[l, l, l, a]`. Without it each pixel becomes the single byte l. |
| Grayscale.ToGrayscale | src/imageprocessing/image.js:171-202 | It fails with the RangeError of the 32-bit view iff the buffer length is not a multiple of 4. Otherwise the output is the specified grayscale image. It has the input's length with `fillRGBA` and a quarter of it without. |
| Grayscale.FillLoop | src/imageprocessing/image.js:179-191 | The filling loop produces the `[l, l, l, a]` image. |
| Grayscale.FillPixel | src/imageprocessing/image.js:182-190 | One pass of the filling loop: word i becomes `[l, l, l, alpha]`, so the written prefix that matches the filled image grows by one pixel. |
| Grayscale.LumaLoop | src/imageprocessing/image.js:193-198 | The plain loop produces one luma byte per pixel. |
| Grayscale.GrayscaleLayout | src/imageprocessing/image.js:171-202 | Pixel p of the filled image is `[l, l, l, a]`, with l its luma and a its own alpha. Without filling, byte p is l. |
| Grayscale.LumaSwapsRedAndBlue | src/imageprocessing/image.js:189 | The luma as written is the BT.709 luma with red and blue exchanged. |
| Grayscale.LumaBt709 | src/imageprocessing/image.js:184-189 | The corrected luma: 13933/65536 on red, 46871/65536 on green and 4732/65536 on blue, floored. |
| Grayscale.PureRedLuma | src/imageprocessing/image.js:189 | Pure red gets luma 18 as written and 54 with the BT.709 weights. |
| Grayscale.LumaBt709Accuracy | src/imageprocessing/image.js:184-189 | With the weights on the right bytes, the integer luma is within (-1.01, 0.01) of 0.2126 R + 0.7152 G + 0.0722 B. |
| Convolution.Clamp | src/imageprocessing/image.js:237 | `Math.min(hi, Math.max(0, v))`: negative values go to 0 and values above hi go to hi. |
| Convolution.AlphaFactor | src/imageprocessing/image.js:224 | `opaque ? 1 : 0`. |
| Convolution.Alpha | src/imageprocessing/image.js:248 | The stored alpha `a + alphaFac·(255 − a)`. |
| Convolution.HSource | src/imageprocessing/image.js:236-238 | Horizontal tap k of cell (y, x) reads row y at column x + k − ⌊side/2⌋ clamped into [0, width − 1]. The pixel it reads is inside the image. |
| Convolution.VSource | src/imageprocessing/image.js:285-287 | Vertical tap k of cell (y, x) reads column x at row y + k − ⌊side/2⌋ clamped into [0, height − 1]. The pixel it reads is inside the image. |
| Convolution.HTaps | src/imageprocessing/image.js:235-244 | The channel sum after the first n horizontal taps, each adding `pixels[poffset + c] * weightsVector[cx]` in the loop's order. |
| Convolution.VTaps | src/imageprocessing/image.js:284-293 | The channel sum after the first n vertical taps, each adding `pixels[poffset + c] * weightsVector[cy]` in the loop's order. |
| Convolution.HorizontalAt | src/imageprocessing/image.js:228-248 | Output entry k of the horizontal pass: the full tap sum of its pixel's channel. The alpha channel goes through `a + alphaFac·(255 − a)`. |
| Convolution.VerticalAt | src/imageprocessing/image.js:277-297 | Output entry k of the vertical pass: the full tap sum of its pixel's channel. The alpha channel goes through `a + alphaFac·(255 − a)`. |
| Convolution.TapInBounds | src/imageprocessing/image.js:237 | A clamped tap coordinate lies in [0, size - 1]. It is unchanged inside the image and pinned to the nearest edge outside. |
| Convolution.TapsStayInLine | src/imageprocessing/image.js:235-238 | Horizontal taps stay in the output pixel's row and vertical taps in its column. |
| Convolution.AlphaCases | src/imageprocessing/image.js:224-248 | With `opaque` the alpha is exactly 255. Otherwise it is the convolved alpha. |
| Convolution.HorizontalImage | src/imageprocessing/image.js:220-252 | The horizontal pass, cell by cell, has length width·height·4. |
| Convolution.VerticalImage | src/imageprocessing/image.js:269-301 | The vertical pass, cell by cell, has length width·height·4. |
| Convolution.SeparableImage | src/imageprocessing/image.js:319-322 | The vertical pass with the vertical weights, then the horizontal pass with the horizontal weights, both with the same `isOpaque`. |
| Convolution.HorizontalCell | src/imageprocessing/image.js:231-244 | The tap loop computes the weighted sums of all four channels. |
| Convolution.HorizontalImageAt | src/imageprocessing/image.js:245-248 | Output cell `(y*width+x)*4 + c` holds the channel's tap sum, and alpha gets the opaque rule. |
| Convolution.HorizontalPixel | src/imageprocessing/image.js:228-248 | One pass of the `x` loop writes the four cells of pixel (y, x) with their values in `HorizontalImage` and leaves every other cell unchanged. |
| Convolution.HorizontalRow | src/imageprocessing/image.js:227-249 | The `x` loop over row y extends the prefix of the output that equals `HorizontalImage` from y rows to y + 1 rows. |
| Convolution.HorizontalConvolve | src/imageprocessing/image.js:220-252 | The output is the specified horizontal convolution, of length width·height·4. |
| Convolution.VerticalCell | src/imageprocessing/image.js:280-293 | The tap loop computes the weighted sums of all four channels. |
| Convolution.VerticalImageAt | src/imageprocessing/image.js:294-297 | Output cell `(y*width+x)*4 + c` holds the channel's tap sum, and alpha gets the opaque rule. |
| Convolution.VerticalPixel | src/imageprocessing/image.js:277-297 | One pass of the `x` loop writes the four cells of pixel (y, x) with their values in `VerticalImage` and leaves every other cell unchanged. |
| Convolution.VerticalRow | src/imageprocessing/image.js:276-298 | The `x` loop over row y extends the prefix of the output that equals `VerticalImage` from y rows to y + 1 rows. |
| Convolution.VerticalConvolve | src/imageprocessing/image.js:269-301 | The output is the specified vertical convolution, of length width·height·4. |
| Convolution.SeparableConvolve | src/imageprocessing/image.js:319-322 | The output is the vertical pass followed by the horizontal pass. |
| Convolution.HTapsFlat | src/imageprocessing/image.js:235-244 | On a channel that is v everywhere, the horizontal tap sum is v times the sum of the weights so far. |
| Convolution.VTapsFlat | src/imageprocessing/image.js:284-293 | On a channel that is v everywhere, the vertical tap sum is v times the sum of the weights so far. |
| Convolution.HorizontalFlat | src/imageprocessing/image.js:220-252 | A channel constant at v comes out constant at v·Σweights. |
| Convolution.VerticalFlat | src/imageprocessing/image.js:269-301 | A channel constant at v comes out constant at v·Σweights. |
| Convolution.OpaqueAlpha | src/imageprocessing/image.js:245-248 | With `opaque`, both passes make alpha 255 everywhere. |
| Convolution.SeparableFlat | src/imageprocessing/image.js:319-322 | A channel constant at c comes out constant at c·Σvert·Σhoriz. |
| Blur.Ceil | src/imageprocessing/image.js:23 | `Math.ceil`: the least integer that is not below d. |
| Blur.KernelLength | src/imageprocessing/image.js:23 | `Math.ceil(diameter)`, plus 1 when that is even. |
| Blur.Kernel | src/imageprocessing/image.js:22-39 | The kernel has `KernelLength` taps, each raw Gaussian weight divided by the sum of all of them. |
| Blur.KernelLengthShape | src/imageprocessing/image.js:23 | For a diameter above 1 the kernel length is odd, at least 3, and between d and d + 2. |
| Blur.Rho | src/imageprocessing/image.js:22-25 | The standard deviation exceeds 1/3. |
| Blur.GaussianFactor | src/imageprocessing/image.js:26-27 | The normalising factor is positive. |
| Blur.RhoFactor | src/imageprocessing/image.js:28 | The exponent factor `-1 / (2·rho·rho)`. |
| Blur.RawWeight | src/imageprocessing/image.js:30-33 | Tap i weighs the Gaussian at distance i − ⌊len/2⌋ from the middle tap. |
| Blur.RawKernel | src/imageprocessing/image.js:31-36 | The first loop's `weights`: one raw weight per tap, `KernelLength` of them. |
| Blur.Divided | src/imageprocessing/image.js:37-39 | The second loop's division: each weight divided by the sum, with the length unchanged. |
| Blur.Gaussian | src/imageprocessing/image.js:33 | Every Gaussian value is positive. |
| Blur.KernelPositive | src/imageprocessing/image.js:31-39 | Every normalised weight is positive. |
| Blur.RawPositive | src/imageprocessing/image.js:31-36 | Every raw weight is positive. |
| Blur.PositiveSum | src/imageprocessing/image.js:29-36 | A sum of positive weights is non-negative, and positive once it has a term, so `wsum` is positive. |
| Blur.SumDivided | src/imageprocessing/image.js:37-39 | Dividing every weight by t divides their sum by t. |
| Blur.KernelNormalised | src/imageprocessing/image.js:29-39 | The weights sum to 1 after the division loop. |
| Blur.KernelSymmetric | src/imageprocessing/image.js:30-33 | Taps at equal distance from the middle carry equal weight. |
| Blur.GaussianKernel | src/imageprocessing/image.js:22-39 | Both loops produce the normalised kernel. |
| Blur.GaussianBlur | src/imageprocessing/image.js:17-41 | It fails with "Diameter should be greater than 1." iff \|diameter\| ≤ 1. Otherwise it returns the separable convolution with that kernel both ways. |
| Blur.BlurImage | src/imageprocessing/image.js:40 | The blurred image: the separable convolution with the kernel in both directions and `opaque` false. |
| Blur.BlurKeepsFlatChannel | src/imageprocessing/image.js:17-41 | A channel that is constant everywhere, alpha included, passes through the blur unchanged. |
| Sobel.Magnitude | src/imageprocessing/image.js:347 | `Math.sqrt(h*h + v*v)`. |
| Sobel.VerticalGradient | src/imageprocessing/image.js:341 | `vertical`: the filled grayscale convolved with `[-1,0,1]` along rows and `[1,2,1]` down columns, with `opaque` absent and so false. It has width·height·4 values. |
| Sobel.GrayReals | src/imageprocessing/image.js:337 | `grayscale(pixels, width, height, true)` read as numbers, as long as the input. |
| Sobel.HorizontalGradient | src/imageprocessing/image.js:342 | `horizontal`: the filled grayscale convolved with `[1,2,1]` along rows and `[-1,0,1]` down columns, with `opaque` false. It has width·height·4 values. |
| Sobel.Edges | src/imageprocessing/image.js:344-351 | The colour cells of each pixel hold the magnitude of the two gradients at the pixel's first cell, and alpha holds 255. The length is the gradients' length. |
| Sobel.EdgeBytes | src/imageprocessing/image.js:352-355 | The edge values stored into the input's clamped bytes, one per cell, with the length unchanged. |
| Sobel.WritePixel | src/imageprocessing/image.js:345-355 | One pass of the loop writes pixel p of the edge image into `output` and, clamped, into `pixels`, so the finished prefix grows by one pixel. |
| Sobel.EdgeImage | src/imageprocessing/image.js:336-359 | The edge image of width·height·4 values is built from the two gradients of the grayscale image. |
| Sobel.EdgeLayout | src/imageprocessing/image.js:344-351 | Every edge pixel is `[p, p, p, 255]`, where p is the gradient magnitude. |
| Sobel.MagnitudeFacts | src/imageprocessing/image.js:347 | The magnitude is non-negative, its square is h² + v², and it is 0 iff both gradients are 0. |
| Sobel.Gradients | src/imageprocessing/image.js:337-342 | The gradients are the two separable convolutions of the filled grayscale image with `[-1,0,1]` and `[1,2,1]`. |
| Sobel.SobelEdges | src/imageprocessing/image.js:336-359 | It returns the edge image of the original pixels and overwrites `pixels` with that image stored as clamped bytes. |
| Sobel.EdgesAreOpaqueGray | src/imageprocessing/image.js:344-356 | Edge pixels are opaque grey, non-negative, and 0 exactly where both gradients vanish. |
| Sobel.VectorSums | src/imageprocessing/image.js:339-340 | `[-1,0,1]` sums to 0 and `[1,2,1]` sums to 4. |
| Sobel.FlatSobelGradients | src/imageprocessing/image.js:339-342 | A flat grey channel has zero gradients in both directions. |
| Sobel.FlatGradientsNoEdges | src/imageprocessing/image.js:344-351 | Zero gradients give a zero edge value in every colour byte. |
| Sobel.SameColourHasNoEdges | src/imageprocessing/image.js:336-358 | An image of one colour has edge value 0 in every colour byte. |
| IntegralImage.Luma601 | src/imageprocessing/image.js:74 | The BT.601 luma of three bytes is an integer in 0..255. |
| IntegralImage.Intensity | src/imageprocessing/image.js:73-74 | A pixel's intensity is an integer in 0..255. |
| IntegralImage.Intensities | src/imageprocessing/image.js:73-74 | The `~~` BT.601 intensity of each of the first n pixels, n values. |
| IntegralImage.SquaredIntensities | src/imageprocessing/image.js:79 | The squares `pixel * pixel` of those intensities, n values. |
| IntegralImage.AboveIntensities | src/imageprocessing/image.js:82-84 | `pixelAbove \|\| 0`: 0 in the top row, otherwise the intensity of the pixel one row up. n values. |
| IntegralImage.FirstChannels | src/imageprocessing/image.js:87 | `pixelsSobel[w]`: the first channel of each pixel of the edge image, n values. |
| IntegralImage.SatTable | src/imageprocessing/image.js:129-132 | The whole SAT, one `Sat` entry per pixel, as long as the values it sums. |
| IntegralImage.Sat | src/imageprocessing/image.js:129-132 | SAT[k] = SAT[k − w] + SAT[k − 1] + I[k] − SAT[k − w − 1], where only a negative index reads 0. |
| IntegralImage.RsatTable | src/imageprocessing/image.js:109-112 | The whole tilted table, one `Rsat` entry per pixel, as long as the values it sums. |
| IntegralImage.Rsat | src/imageprocessing/image.js:109-112 | RSAT[k] = RSAT[k − w − 1] + RSAT[k − w + 1] − RSAT[k − 2w] + I[k] + Iabove[k], where only a negative index reads 0. On a one-pixel-wide image the middle read is the cell's own initial content. |
| IntegralImage.Cell | src/imageprocessing/image.js:131 | `T[k] \|\| 0`, as read here and at line 111, for a cell below the one being written: a negative index reads 0, and any other index reads the table's current content. |
| IntegralImage.ComputePixelValueSat | src/imageprocessing/image.js:129-132 | Writing cell p extends the scanned prefix of the SAT by one cell: `SAT[p-width] + SAT[p-1] + I - SAT[p-width-1]`, with negative indices read as 0. |
| IntegralImage.ComputePixelValueRsat | src/imageprocessing/image.js:109-112 | Writing cell p extends the scanned prefix of the tilted table by one cell: `RSAT[p-width-1] + RSAT[p-width+1] - RSAT[p-2·width] + I + Iabove`, with negative indices read as 0. |
| IntegralImage.ScanRows | src/imageprocessing/image.js:71-90 | The `i` loop takes every requested table from no scanned cells to all width·height cells equal to its specification. It writes only the output tables. |
| IntegralImage.ScanRow | src/imageprocessing/image.js:72-89 | The `j` loop over row i extends every requested table's scanned prefix by one row. |
| IntegralImage.ScanPixel | src/imageprocessing/image.js:73-88 | One pass: cell p of every requested table gets its specified value, so each scanned prefix grows by one cell. |
| IntegralImage.ScanTables | src/imageprocessing/image.js:71-90 | The row-major scan fills every requested table with its specification. |
| IntegralImage.ComputeIntegralImage | src/imageprocessing/image.js:63-91 | It fails iff fewer than 4 arguments are given, and then nothing changes. When a Sobel table is requested, `pixels` is first overwritten by the edge image. Every requested table then equals the SAT, squared SAT or tilted table of that source. The Sobel table is the SAT of the edge image's first channel. |
| IntegralImage.SatTopRow | src/imageprocessing/image.js:129-132 | Row 0 of the SAT holds the prefix sums of row 0. |
| IntegralImage.RsatTopRow | src/imageprocessing/image.js:109-112 | On row 0 the tilted table is the pixel's own intensity, except at the last column. There the up-right read lands on the current row's first cell. |
| IntegralImage.AboveTopRow | src/imageprocessing/image.js:82-84 | On row 0 the intensity above is read as 0. |
| IntegralImage.SatColumnZeroWraps | src/imageprocessing/image.js:129-132 | On a 2×2 image of ones the written SAT at (row 1, column 0) is 4. The sum of the rectangle it should cover is 2. |
| IntegralImage.CorrectedSatIsRectSum | src/imageprocessing/image.js:114-132 | The recurrence with row and column guards gives the sum over the rectangle from (0, 0) to (y, x). |
| IntegralImage.RectSum | src/imageprocessing/image.js:114-117 | The sum of the pixels in the rectangle from (0, 0) to (y, x), the value the documented SAT holds. |
| IntegralImage.CorrectedSat | src/imageprocessing/image.js:114-117 | The documented recurrence SAT(x, y) = SAT(x, y−1) + SAT(x−1, y) + I(x, y) − SAT(x−1, y−1), where reads left of column 0 or above row 0 give 0. |
| IntegralImage.CorrectedSatRectangle | src/imageprocessing/image.js:114-117 | Four corrected SAT corners give the sum of any axis-aligned block. |
| Equalize.CountAtMost | src/imageprocessing/image.js:375-384 | The number of pixels whose value is at most v, and 0 for v < 0. |
| Equalize.Scaled | src/imageprocessing/image.js:386-387 | `count * norm` with `norm = 255 / N`. |
| Equalize.Cumulative | src/imageprocessing/image.js:380-384 | The cumulative count for v is the number of values ≤ v plus `histogram[0]` once more. |
| Equalize.Level | src/imageprocessing/image.js:386-387 | The level is `floor(count·255/N + 0.5)` stored into a clamped byte. |
| Equalize.Equalized | src/imageprocessing/image.js:369-390 | Each pixel is replaced by the level of its own cumulative count, and the output has the input's length. |
| Equalize.Count | src/imageprocessing/image.js:375-378 | A histogram bin never exceeds the number of pixels. |
| Equalize.CountValues | src/imageprocessing/image.js:372-378 | The first loop copies the input and counts every value. |
| Equalize.Accumulate | src/imageprocessing/image.js:380-384 | After the `prev` loop, bin v holds the number of pixels ≤ v plus `histogram[0]`. |
| Equalize.WriteLevels | src/imageprocessing/image.js:386-387 | The last loop writes each pixel's level. |
| Equalize.EqualizeHist | src/imageprocessing/image.js:369-390 | The output is a fresh array of the input's length holding the specified equalised image. |
| Equalize.CountAtMostAll | src/imageprocessing/image.js:375-378 | Every pixel is counted: the count up to 255 is the pixel count. |
| Equalize.CumulativeMonotone | src/imageprocessing/image.js:380-384 | Cumulative counts do not decrease with the value. |
| Equalize.CumulativeTotal | src/imageprocessing/image.js:380-384 | The last cumulative count is N + `histogram[0]`, not N. |
| Equalize.ClampInteger | src/imageprocessing/image.js:387 | Storing an integer clamps it to 0..255. |
| Equalize.LevelMonotone | src/imageprocessing/image.js:386-387 | `floor(count·255/N + 0.5)`, clamped, does not decrease as the count grows. |
| Equalize.EqualizedMonotone | src/imageprocessing/image.js:369-390 | A pixel no brighter than another is mapped to a level no higher. |
| Equalize.BlackMeetsWhite | src/imageprocessing/image.js:380-387 | One black and one white pixel both become 255 as written. The corrected version maps them to 128 and 255. |
| Equalize.CorrectedInRange | src/imageprocessing/image.js:386-387 | Without the extra bin, `count·255/N` already lies in [0, 255] and the brightest value maps to 255. |
| Equalize.CorrectedEqualized | src/imageprocessing/image.js:369-390 | The corrected equalisation: each pixel becomes the level of the number of pixels at most its value. The output has the input's length. |
| Equalize.ScaledBound | src/imageprocessing/image.js:386-387 | A count of at most N scales into [0, 255], and N itself scales to 255. |
| Equalize.FullLevel | src/imageprocessing/image.js:386-387 | A count of N gives level 255. |
| Equalize.CorrectedMonotone | src/imageprocessing/image.js:369-390 | The corrected equalisation is also order-preserving. |
| FloodFill.IsEdge | src/imageprocessing/colors.ts:218 | R, G and B are all above 200. An offset whose bytes lie outside the buffer is not an edge. |
| FloodFill.Open | src/imageprocessing/colors.ts:233-234 | A candidate the walk may step to: unmarked and an edge. |
| FloodFill.AnyOpen | src/imageprocessing/colors.ts:235-239 | The inner `some`: some neighbour is unmarked and an edge. |
| FloodFill.Scan | src/imageprocessing/colors.ts:219-252 | The outer `for` from offset id: walk from id, keep the path if long enough, and go on at id + 4 until the buffer ends. |
| FloodFill.Kept | src/imageprocessing/colors.ts:245-250 | A path is appended to the shapes iff it has at least 100 offsets. Otherwise the shapes are unchanged. |
| FloodFill.Offsets | src/imageprocessing/colors.ts:172-186 | The eight steps of `neighbors` in its order: ±4 and ±4·width and their four sums. |
| FloodFill.Shapes | src/imageprocessing/colors.ts:217-253 | The shapes the scan from offset 0 collects, with no marks and no shapes to start. |
| FloodFill.InRange | src/imageprocessing/colors.ts:185 | The filter keeps, in order, only offsets inside the bounds. |
| FloodFill.Neighbors | src/imageprocessing/colors.ts:172-186 | Every neighbour indexes the buffer. |
| FloodFill.InRangeMembers | src/imageprocessing/colors.ts:185 | Whatever the filter keeps is one of the steps away and inside the bounds. |
| FloodFill.InRangeComplete | src/imageprocessing/colors.ts:185 | Every step that lands inside the bounds is kept. |
| FloodFill.NeighborsAreOffsets | src/imageprocessing/colors.ts:172-186 | Every neighbour is one of the eight steps (±4, ±4·width and their sums) away. |
| FloodFill.NeighborsComplete | src/imageprocessing/colors.ts:172-186 | Every one of the eight steps that lands inside the buffer is a neighbour. |
| FloodFill.RowEndWraps | src/imageprocessing/colors.ts:172-186 | The step right from a row's last pixel lands on the next row's first pixel. |
| FloodFill.Cracker | src/imageprocessing/colors.ts:232-240 | A successor, when there is one, is an unmarked near-white neighbour. |
| FloodFill.NoLookahead | src/imageprocessing/colors.ts:232-240 | The inner `some` never rejects a candidate, so the successor is the first unmarked near-white neighbour in order. |
| FloodFill.FirstOpen | src/imageprocessing/colors.ts:232-234 | The first unmarked near-white entry of the list, if any. |
| FloodFill.Walk | src/imageprocessing/colors.ts:221-243 | A walk only adds marks, and every mark stays inside the buffer. |
| FloodFill.WalkStep | src/imageprocessing/colors.ts:225-241 | One step, case by case: a marked node ends the walk and an unmarked non-edge ends it after marking. An edge joins the path and the walk continues at its successor. A missing successor or one at offset 0 ends the walk. |
| FloodFill.WalkPath | src/imageprocessing/colors.ts:221-243 | The start is marked and, if on the path, first on it. Path members were unmarked before, are marked after, are near-white and distinct, and each is a neighbour of the one before. |
| FloodFill.ZeroSuccessorDropped | src/imageprocessing/colors.ts:241 | If the first open neighbour is offset 0, `if (cracker)` drops it and the path ends at the current node. |
| FloodFill.Visit | src/imageprocessing/colors.ts:226-241 | One pass of the inner loop either finishes the walk or returns the successor. The rest of the walk from there completes it. |
| FloodFill.FollowEdges | src/imageprocessing/colors.ts:221-243 | The inner loop, whose work list holds at most one offset, computes the walk. |
| FloodFill.FindShapes | src/imageprocessing/colors.ts:217-253 | The outer loop collects exactly the specified shapes. |
| FloodFill.ScanFound | src/imageprocessing/colors.ts:219-252 | Scanning from any aligned start keeps every collected shape valid. |
| FloodFill.ShapesProperties | src/imageprocessing/colors.ts:217-253 | Every shape has at least 100 offsets, all near-white, and no offset is in two shapes or twice in one. Shapes come in increasing order of their first offset, which is a pixel boundary inside the buffer. |
| ColorTracking.Above | src/imageprocessing/colors.ts:137 | `n > maxGroupSize`: never for `Infinity`, and n > bound for a number. |
| ColorTracking.PixelColor | src/imageprocessing/colors.ts:89-93 | The R, G and B bytes at an offset, as the seed colour and as `nextcolor` at lines 113-117. |
| ColorTracking.RowOf | src/imageprocessing/colors.ts:142 | `Math.floor(id / (4 * width))`. |
| ColorTracking.ColumnOf | src/imageprocessing/colors.ts:143 | `Math.floor((id - y * 4 * width) / 4)`. |
| ColorTracking.TrackOffsets | src/imageprocessing/colors.ts:40-52 | The eight steps of this segmenter's `neighbors` in its order: left, up-left, up, down-left, up-right, right, down-right, down. |
| ColorTracking.TrackNeighbors | src/imageprocessing/colors.ts:40-54 | At most eight neighbours, each in (0, length). |
| ColorTracking.TrackNeighborsExact | src/imageprocessing/colors.ts:40-54 | An offset is a neighbour iff it is one of the eight steps away and in (0, length), so offset 0 never is. Neighbours of a pixel are pixels. |
| ColorTracking.NeighborIsPixel | src/imageprocessing/colors.ts:40-54 | A neighbour of a pixel is one of the eight steps away, in (0, length), and itself a pixel. |
| ColorTracking.Position | src/imageprocessing/colors.ts:142-143 | The floored row and column locate the pixel: the column lies in [0, width) and the offset is `(y*width + x)*4`. |
| ColorTracking.Pushes | src/imageprocessing/colors.ts:152-155 | Only unmarked neighbours are queued, at most one per neighbour. |
| ColorTracking.PushUnmarked | src/imageprocessing/colors.ts:152-155 | The `forEach` appends the unmarked neighbours in order. |
| ColorTracking.EnqueueOk | src/imageprocessing/colors.ts:152-156 | Queueing a pixel's unmarked neighbours and a `null` queues only pixels, and at most nine entries. |
| ColorTracking.Enqueue | src/imageprocessing/colors.ts:152-156 | After an accepted pixel its unmarked neighbours are queued, then a `null`. |
| ColorTracking.VisitOf | src/imageprocessing/colors.ts:111-156 | Reference for one visit, in three cases. A colour not within 40 of the seed colour is a miss: queue and region unchanged, misses + 1, and a stop iff the misses exceed 8. A match on a region above `maxGroupSize` empties it and stops. Any other match appends the pixel with its layer, column, row and the seed colour, and queues its unmarked neighbours and a `null`, without stopping. |
| ColorTracking.StepOf | src/imageprocessing/colors.ts:99-157 | Reference for one pass. The head is shifted off. A `null` increments the layer and clears the misses, and a marked offset changes nothing else. Neither stops. An unmarked offset is marked and visited. |
| ColorTracking.StepShrinks | src/imageprocessing/colors.ts:99-157 | A pass keeps the queue to pixels and the marks inside the buffer, only adds marks, and decreases 10·(unmarked) + queue length. |
| ColorTracking.ExpandFrom | src/imageprocessing/colors.ts:99-157 | Reference for the `while (queue.length)` loop: passes until the queue is empty or a pass stops. The queue stays on pixels and marks are only added. |
| ColorTracking.SeedOf | src/imageprocessing/colors.ts:85-163 | Reference for one seed. A marked seed moves the offset by 4 and changes nothing else. Otherwise the seed and a `null` are queued behind the leftover queue, and the search runs from layer 0 with the seed's colour. Its region is appended iff it has at least `minGroupSize` pixels, and the offset stays. |
| ColorTracking.TrackFrom | src/imageprocessing/colors.ts:83-165 | Reference for the nested `for` loops: `count` more seeds, each from the state the previous one left. |
| ColorTracking.TrackColorOf | src/imageprocessing/colors.ts:38-168 | Reference for `trackColor_`: width·height seeds from offset 0, with an empty queue, no marks and no regions. |
| ColorTracking.ExpandExtends | src/imageprocessing/colors.ts:99-157 | With `maxGroupSize` at `Infinity`, the region a search ends with extends the one it had. |
| ColorTracking.SeedFirst | src/imageprocessing/colors.ts:85-157 | A seed searched from an empty queue is marked, so the next iteration moves past it. With `maxGroupSize` at `Infinity` its region starts with the seed at layer 0, and the region is kept when `minGroupSize` ≤ 1. |
| ColorTracking.Visit | src/imageprocessing/colors.ts:111-156 | The visit equals `VisitOf`. An accepted pixel is within colour distance 40 of the seed colour, and the region stays well-formed. |
| ColorTracking.Step | src/imageprocessing/colors.ts:99-157 | The pass equals `StepOf`. Each pass marks at most one offset, the region stays well-formed, and the pass decreases the termination measure. |
| ColorTracking.Expand | src/imageprocessing/colors.ts:99-157 | The search equals `ExpandFrom` from layer 0 with no misses. Its region holds members newly marked in it, distinct, in layer order and at most `maxGroupSize + 1` in number. |
| ColorTracking.Seed | src/imageprocessing/colors.ts:85-163 | The seed equals `SeedOf`. The regions stay segmented and marked, and a kept region carries the seed's colour. |
| ColorTracking.AddRegion | src/imageprocessing/colors.ts:159-163 | A kept region of newly marked pixels shares no offset with earlier regions. |
| ColorTracking.TrackFromSeed | src/imageprocessing/colors.ts:83-165 | Taking one seed off the front of `TrackFrom` leaves the rest of the loops from the state `SeedOf` gives. |
| ColorTracking.TrackRow | src/imageprocessing/colors.ts:84-164 | One row of `width` seeds equals `width` steps of `TrackFrom` and keeps the regions segmented and marked. |
| ColorTracking.ScanRows | src/imageprocessing/colors.ts:83-165 | The rows of seeds equal `TrackFrom` over height·width seeds from the given state, and the regions they leave are segmented. |
| ColorTracking.ColorTracker.constructor | src/imageprocessing/colors.ts:17-26 | The fields start at `maxGroupSize = Infinity`, `width = height = 0` and `minGroupSize = 200`. |
| ColorTracking.ColorTracker.Floodfill | src/imageprocessing/colors.ts:170-256 | `floodfill` returns exactly the shapes of `findShapes`. |
| ColorTracking.ColorTracker.Track | src/imageprocessing/colors.ts:387-403 | It sets `width` and `height` to the canvas size, `maxGroupSize` to 0.2·w·h and `minGroupSize` to 0.0005·w·h. The handler receives the flood fill's shapes. |
| ColorTracking.ColorTracker.TrackColor | src/imageprocessing/colors.ts:38-168 | The result equals `TrackColorOf` on the tracker's fields. Every region has at least `minGroupSize` and at most `maxGroupSize + 1` pixels. Each pixel is within colour distance 40 of its region's seed colour and carries its own column and row. Layers never decrease, and no offset is in two regions or twice in one. |

## Left out

- Floating point: every computation is in exact reals. `Float32Array` rounding in the convolutions, the blur weights and the Sobel output is not modelled.
- IntegralImage.Luma601: the luma is the floor of the exact weighted sum, not of the sum in double precision. The two differ: in doubles `1*0.299 + 1*0.587 + 1*0.114` is 0.9999999999999999, so `~~` gives 0 where `Luma601(1, 1, 1)` is 1. The same happens for 65 of the 256 grey levels (1, 2, 4, 8, …, 254), each coming out one lower. After the Sobel overwrite every pixel is grey, so the Sobel table of the source is often below the modelled one.
- `Math.sqrt`, `Math.pow`, `Math.exp` and `Math.atan` are parameters of the model. The proofs rely only on the facts in `HostMath.Sound`, so numeric accuracy of Lab values, Gaussian weights and Sobel magnitudes is not claimed.
- Canvas I/O (`getContext`, `getImageData`), every `drawPoint` call, the `debugger` statements and the `hist` debug counter are not modelled. None of them affects a result. `track` receives the canvas size and bytes as arguments.
- `findBG` and `getPills` in `floodfill` are not modelled, because they are never called. The commented-out code is not modelled either.
- `src/app/page.tsx`, the camera and UI wiring, is not part of this model.
- `degreesToRadians` is not modelled, because nothing in the core calls it.
- Typed-array reinterpretation is modelled by reading bytes directly on a little-endian host. `grayscale` views the whole of `pixels.buffer`, and the model takes that buffer to be `pixels` itself. The RangeError text is the one a common host uses; the text itself is host-dependent.
- The `node === null` branch of `findShapes` and the `id === undefined` branch of `trackColor_` are not modelled. Both need an empty work list, which the loop conditions exclude.
- `ColorTracking.ColorTracker.TrackColor`: requires `pixels.length == 4·width·height`, the size of the canvas data the tracker is meant for. With a shorter buffer the source reads `undefined` bytes and compares NaN colours, which the model does not represent.
- Convolution.HorizontalConvolve: requires `width·height·4 ≤ pixels.length`, the full buffer its documentation describes. With a shorter buffer the source reads `undefined` and computes NaN, which the model does not represent.
- Convolution.VerticalConvolve: requires `width·height·4 ≤ pixels.length`, the full buffer its documentation describes. With a shorter buffer the source reads `undefined` and computes NaN, which the model does not represent.
- Convolution.SeparableConvolve: requires `width·height·4 ≤ pixels.length`, the full buffer its documentation describes. With a shorter buffer the source reads `undefined` and computes NaN, which the model does not represent.
- Blur.GaussianBlur: requires `width·height·4 ≤ pixels.length`, the full buffer its documentation describes. With a shorter buffer the source reads `undefined` and computes NaN, which the model does not represent.
- Sobel.SobelEdges: requires `pixels.length == width·height·4`. The source also accepts other lengths, and the model does not describe them. A longer buffer has only its first width·height·4 bytes read and overwritten. A length that is not a multiple of 4 makes the grayscale step throw its RangeError, which `Grayscale.ToGrayscale` models as `Err`.
- IntegralImage.ComputeIntegralImage: requires `pixels.length == width·height·4`. The source also accepts other lengths, and the model does not describe them. Without a Sobel table, a missing byte reads as `undefined`, the sum becomes NaN and `~~` turns it into intensity 0, while extra bytes are ignored. With a Sobel table, the Sobel step's constraints above apply.
- `Sobel.SobelEdges`: the source writes the edge image back into `pixels` with the clamped-byte conversion. The model states this through ToUint8Clamp, not through `Float32Array` values.
- `IntegralImage.ComputeIntegralImage`: the output tables must be distinct arrays. When one array is passed for two tables, the source interleaves their writes in it, and the model does not describe that case.
- `IntegralImage.ComputeIntegralImage`: table contents are stated for `0 < width`. With `width == 0` there are no pixels and no table is written.

## Findings

| source | as written | input that shows it | evidently intended | confidence | as-written member | corrected member |
|---|---|---|---|---|---|---|
| src/imageprocessing/image.js:189 | On a little-endian host `c & 0xff` is red and `c >>> 16` is blue, so 13933 weights blue and 4732 weights red. | Pure red (255, 0, 0) gives luma 18. | BT.709 luma 0.2126 R + 0.7152 G + 0.0722 B, which gives 54. | not executed | Grayscale.PureRedLuma | Grayscale.LumaBt709Accuracy |
| src/imageprocessing/image.js:129-132 | Only negative indices read as 0, so at column 0 the `SAT[w-1]` term reads the previous row's last cell. | On a 2×2 image of ones, the SAT at (row 1, column 0) is 4. | The sum over the rectangle from (0, 0) to the cell, which is 2. | not executed | IntegralImage.SatColumnZeroWraps | IntegralImage.CorrectedSatIsRectSum |
| src/imageprocessing/image.js:380-384 | `prev` starts at `histogram[0]` and bin 0 then adds it again, so every cumulative count carries an extra `histogram[0]`. | The pixels [0, 255] both map to 255. | A cumulative count of pixels ≤ v, giving [128, 255]. | not executed | Equalize.BlackMeetsWhite | Equalize.CorrectedInRange |
