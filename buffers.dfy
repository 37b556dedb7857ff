/** Shared vocabulary of the pixel-buffer components: bytes, optional values,
    error results, the host's byte-store conversion and row-major index facts. */
module Buffers {

  /** One channel of a Uint8Array / Uint8ClampedArray. */
  type byte = x: int | 0 <= x < 256

  datatype Option<T> = None | Some(value: T)

  /** A thrown `Error` becomes `Err` with the error's message. */
  datatype Result<T> = Ok(value: T) | Err(message: string)

  /** Byte channels seen as JavaScript numbers. */
  function AsReals(s: seq<byte>): (r: seq<real>)
    ensures |r| == |s|
    ensures forall i :: 0 <= i < |s| ==> r[i] == s[i] as real
  {
    seq(|s|, i requires 0 <= i < |s| => s[i] as real)
  }

  /** Sum of the first n entries, accumulated from the left. */
  function SumTo(s: seq<real>, n: nat): real
    requires n <= |s|
  {
    if n == 0 then 0.0 else SumTo(s, n - 1) + s[n - 1]
  }

  /** Sum of a weight vector. */
  function Sum(s: seq<real>): real
  {
    SumTo(s, |s|)
  }

  /** The first n weights each applied to the same value v, accumulated
      from the left. */
  function ScaledSumTo(v: real, s: seq<real>, n: nat): real
    requires n <= |s|
  {
    if n == 0 then 0.0 else ScaledSumTo(v, s, n - 1) + v * s[n - 1]
  }

  /** Weighting a constant is scaling the weights' sum. */
  lemma {:induction false} ScaledSum(v: real, s: seq<real>, n: nat)
    requires n <= |s|
    ensures ScaledSumTo(v, s, n) == v * SumTo(s, n)
  {
    if n > 0 {
      ScaledSum(v, s, n - 1);
      var a, b := SumTo(s, n - 1), s[n - 1];
      assert v * (a + b) == v * a + v * b;
    }
  }

  /** ECMAScript ToUint8Clamp: what storing a number into a
      Uint8ClampedArray keeps (clamp to [0, 255], round half to even). */
  function ToUint8Clamp(v: real): (r: byte)
    ensures v <= 0.0 ==> r == 0
    ensures 255.0 <= v ==> r == 255
    ensures 0.0 <= v <= 255.0 ==> -0.5 <= r as real - v <= 0.5
  {
    if v <= 0.0 then 0
    else if 255.0 <= v then 255
    else
      var f := v.Floor;
      if f as real + 0.5 < v then f + 1
      else if v < f as real + 0.5 then f
      else if f % 2 == 1 then f + 1
      else f
  }

  lemma MulLeft(a: int, b: int, c: nat)
    requires a <= b
    ensures a * c <= b * c
  {
  }

  /** The flat pixel index of an in-image cell lies inside the image. */
  lemma RowMajorBound(width: nat, height: nat, y: nat, x: nat)
    requires y < height && x < width
    ensures y * width + x < width * height
  {
    MulLeft(y + 1, height, width);
    assert (y + 1) * width == y * width + width;
  }

  /** Row y of a width * height image ends inside the image. */
  lemma RowEnd(width: nat, height: nat, y: nat)
    requires y < height
    ensures y * width + width == (y + 1) * width <= width * height
  {
    MulLeft(y + 1, height, width);
  }

  /** A flat pixel index determines its row and column. */
  lemma RowMajorDivMod(width: nat, y: nat, x: nat)
    requires x < width
    ensures (y * width + x) / width == y
    ensures (y * width + x) % width == x
  {
    var p := y * width + x;
    var q, r := p / width, p % width;
    assert p == q * width + r;
    assert (q - y) * width == x - r;
    if q - y >= 1 {
      MulLeft(1, q - y, width);
    } else if q - y <= -1 {
      MulLeft(y - q, -1, width);
      MulLeft(1, y - q, width);
    }
  }

  /** Every pixel index below `width * height` is a cell of the image. */
  lemma PixelOfIndex(width: nat, height: nat, p: nat)
    requires p < width * height
    ensures width > 0
    ensures p / width < height && p % width < width
    ensures (p / width) * width + p % width == p
  {
    var y := p / width;
    if y >= height {
      MulLeft(height, y, width);
    }
  }

  /** Channel c of cell (y, x) sits at flat offset (y * width + x) * 4 + c
      of a width * height RGBA buffer, and that offset gives the cell back. */
  lemma FlatIndex(width: nat, height: nat, y: nat, x: nat, c: nat)
    requires y < height && x < width && c < 4
    ensures (y * width + x) * 4 + c < width * height * 4
    ensures ((y * width + x) * 4 + c) / 4 == y * width + x
    ensures ((y * width + x) * 4 + c) % 4 == c
    ensures ((y * width + x) * 4 + c) / 4 / width == y
    ensures ((y * width + x) * 4 + c) / 4 % width == x
  {
    RowMajorBound(width, height, y, x);
    RowMajorDivMod(width, y, x);
  }

  /** Channel c of pixel p sits at flat offset 4 * p + c. */
  lemma Quad(p: nat, c: nat)
    requires c < 4
    ensures (4 * p + c) / 4 == p && (4 * p + c) % 4 == c
  {
  }
}
