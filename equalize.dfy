/** `ImageProcessor.equalizeHist`: histogram equalisation of a byte
    buffer. Each value is replaced by its cumulative count scaled to
    [0, 255]; the cumulative counts are built in place in the histogram. */
module Equalize {
  import opened Buffers

  // ---------------------------------------------------------------------
  // Counting

  /** How many entries of s equal v. */
  function Count(s: seq<byte>, v: int): (c: nat)
    ensures c <= |s|
  {
    if |s| == 0 then 0
    else Count(s[..|s| - 1], v) + (if s[|s| - 1] == v then 1 else 0)
  }

  /** How many entries of s are at most v. */
  function CountAtMost(s: seq<byte>, v: int): nat
    decreases v + 1
  {
    if v < 0 then 0 else CountAtMost(s, v - 1) + Count(s, v)
  }

  /** The cumulative count the code builds for v: the number of entries
      at most v, plus one extra count of the zeros, since `prev` starts at
      `histogram[0]` and is added to `histogram[0]` as well. */
  function Cumulative(s: seq<byte>, v: int): nat
  {
    CountAtMost(s, v) + Count(s, 0)
  }

  /** `count * norm` with `norm = 255 / n`. */
  function Scaled(count: nat, n: nat): real
    requires 0 < n
  {
    count as real * (255.0 / n as real)
  }

  /** `(count * norm + 0.5) | 0` stored into a Uint8ClampedArray: the
      scaled count rounded half up (`| 0` truncates, which is the floor for
      these non-negative values), then clamped to [0, 255]. */
  function Level(count: nat, n: nat): (r: byte)
    requires 0 < n
  {
    ToUint8Clamp((Scaled(count, n) + 0.5).Floor as real)
  }

  /** The output of `equalizeHist`. */
  function Equalized(pixels: seq<byte>): (r: seq<byte>)
    ensures |r| == |pixels|
  {
    seq(|pixels|, i requires 0 <= i < |pixels| => Level(Cumulative(pixels, pixels[i]), |pixels|))
  }

  // ---------------------------------------------------------------------
  // The method

  /** `equalizeHist`. `width` and `height` are not read. */
  method EqualizeHist(pixels: seq<byte>, width: int, height: int) returns (equalized: array<byte>)
    ensures fresh(equalized)
    ensures equalized[..] == Equalized(pixels)
  {
    equalized := new byte[|pixels|];
    var histogram := new int[256];
    for i := 0 to 256
      invariant forall v :: 0 <= v < i ==> histogram[v] == 0
    {
      histogram[i] := 0;
    }
    CountValues(pixels, equalized, histogram);
    Accumulate(histogram, pixels);
    if 0 < |pixels| {
      WriteLevels(pixels, histogram[..], equalized);
    }
  }

  /** The last loop of `equalizeHist`: each pixel's cumulative count,
      scaled by `norm = 255 / n` and rounded, is stored into the output. */
  method WriteLevels(pixels: seq<byte>, cumulative: seq<int>, equalized: array<byte>)
    requires 0 < |pixels| == equalized.Length && |cumulative| == 256
    requires forall v :: 0 <= v < 256 ==> cumulative[v] == Cumulative(pixels, v)
    modifies equalized
    ensures equalized[..] == Equalized(pixels)
  {
    var norm := 255.0 / |pixels| as real;
    for i := 0 to |pixels|
      invariant forall k :: 0 <= k < i ==> equalized[k] == Equalized(pixels)[k]
    {
      assert cumulative[pixels[i]] as real * norm == Scaled(Cumulative(pixels, pixels[i]), |pixels|);
      equalized[i] := ToUint8Clamp((cumulative[pixels[i]] as real * norm + 0.5).Floor as real);
    }
  }

  /** The first loop of `equalizeHist`: copies the pixels and counts each
      value into a zeroed histogram. */
  method CountValues(pixels: seq<byte>, equalized: array<byte>, histogram: array<int>)
    requires equalized.Length == |pixels| && histogram.Length == 256
    requires forall v :: 0 <= v < 256 ==> histogram[v] == 0
    modifies equalized, histogram
    ensures equalized[..] == pixels
    ensures forall v :: 0 <= v < 256 ==> histogram[v] == Count(pixels, v)
  {
    for i := 0 to |pixels|
      invariant equalized[..i] == pixels[..i]
      invariant forall v :: 0 <= v < 256 ==> histogram[v] == Count(pixels[..i], v)
    {
      equalized[i] := pixels[i];
      assert pixels[..i + 1][..i] == pixels[..i];
      histogram[pixels[i]] := histogram[pixels[i]] + 1;
    }
    assert pixels[..|pixels|] == pixels;
    assert equalized[..] == equalized[..|pixels|];
  }

  /** The second loop of `equalizeHist`: turns the counts into cumulative
      counts in place, `prev` starting at `histogram[0]`. */
  method Accumulate(histogram: array<int>, ghost pixels: seq<byte>)
    requires histogram.Length == 256
    requires forall v :: 0 <= v < 256 ==> histogram[v] == Count(pixels, v)
    modifies histogram
    ensures forall v :: 0 <= v < 256 ==> histogram[v] == Cumulative(pixels, v)
  {
    var prev := histogram[0];
    for i := 0 to 256
      invariant forall v :: 0 <= v < i ==> histogram[v] == Cumulative(pixels, v)
      invariant forall v :: i <= v < 256 ==> histogram[v] == Count(pixels, v)
      invariant prev == Cumulative(pixels, i - 1)
    {
      histogram[i] := histogram[i] + prev;
      prev := histogram[i];
    }
  }

  // ---------------------------------------------------------------------
  // Properties

  /** Every entry is at most 255, so counting up to 255 counts them all. */
  lemma {:induction false} CountAtMostAll(s: seq<byte>)
    ensures CountAtMost(s, 255) == |s|
  {
    if |s| == 0 {
      CountAtMostEmpty(s, 255);
    } else {
      var init, x := s[..|s| - 1], s[|s| - 1];
      assert s == init + [x];
      CountAtMostAll(init);
      CountAtMostLast(init, x, 255);
    }
  }

  /** Nothing is counted in an empty sequence. */
  lemma {:induction false} CountAtMostEmpty(s: seq<byte>, v: int)
    requires |s| == 0
    ensures CountAtMost(s, v) == 0
    decreases v + 1
  {
    if 0 <= v {
      CountAtMostEmpty(s, v - 1);
    }
  }

  /** Appending x adds one to the counts at or above x. */
  lemma {:induction false} CountAtMostLast(s: seq<byte>, x: byte, v: int)
    ensures CountAtMost(s + [x], v) == CountAtMost(s, v) + (if x <= v then 1 else 0)
    decreases v + 1
  {
    if 0 <= v {
      CountAtMostLast(s, x, v - 1);
      assert (s + [x])[..|s|] == s;
      assert Count(s + [x], v) == Count(s, v) + (if x == v then 1 else 0);
    }
  }

  /** The cumulative count never falls as v grows. */
  lemma {:induction false} CumulativeMonotone(s: seq<byte>, v: int, v': int)
    requires v <= v'
    ensures Cumulative(s, v) <= Cumulative(s, v')
    decreases v' - v
  {
    if v < v' {
      CumulativeMonotone(s, v, v' - 1);
    }
  }

  /** The level never falls as the count grows. */
  lemma LevelMonotone(count: nat, count': nat, n: nat)
    requires 0 < n && count <= count'
    ensures Level(count, n) <= Level(count', n)
  {
    ScaleMonotone(count as real, count' as real, 255.0 / n as real);
    RoundClampMonotone(Scaled(count, n), Scaled(count', n));
  }

  /** Rounding half up and clamping keeps the order. */
  lemma RoundClampMonotone(x: real, x': real)
    requires x <= x'
    ensures ToUint8Clamp((x + 0.5).Floor as real) <= ToUint8Clamp((x' + 0.5).Floor as real)
  {
    FloorMonotone(x + 0.5, x' + 0.5);
    ClampMonotone((x + 0.5).Floor, (x' + 0.5).Floor);
  }

  lemma ScaleMonotone(a: real, b: real, q: real)
    requires a <= b && 0.0 <= q
    ensures a * q <= b * q
  {
  }

  lemma FloorMonotone(a: real, b: real)
    requires a <= b
    ensures a.Floor <= b.Floor
  {
  }

  /** Clamping an integer keeps the order. */
  lemma ClampMonotone(f: int, f': int)
    requires f <= f'
    ensures ToUint8Clamp(f as real) <= ToUint8Clamp(f' as real)
  {
    ClampInteger(f);
    ClampInteger(f');
  }

  /** An integer in range is stored as it is. */
  lemma ClampInteger(f: int)
    ensures 0 <= f <= 255 ==> ToUint8Clamp(f as real) == f
    ensures f < 0 ==> ToUint8Clamp(f as real) == 0
    ensures 255 < f ==> ToUint8Clamp(f as real) == 255
  {
    assert (f as real).Floor == f;
  }

  /** Equalisation keeps the order of the values: a darker input never
      comes out brighter. */
  lemma EqualizedMonotone(pixels: seq<byte>, i: nat, j: nat)
    requires i < |pixels| && j < |pixels| && pixels[i] <= pixels[j]
    ensures Equalized(pixels)[i] <= Equalized(pixels)[j]
  {
    CumulativeMonotone(pixels, pixels[i], pixels[j]);
    LevelMonotone(Cumulative(pixels, pixels[i]), Cumulative(pixels, pixels[j]), |pixels|);
  }

  /** The last cumulative count is the length plus the number of zeros. */
  lemma CumulativeTotal(s: seq<byte>)
    ensures Cumulative(s, 255) == |s| + Count(s, 0)
  {
    CountAtMostAll(s);
  }

  /** As written: with one black and one white pixel, black comes out as
      255, the same as white, because its count of 1 is doubled to 2 of 2;
      counting only the pixels at most 0 gives 128. */
  lemma BlackMeetsWhite(s: seq<byte>)
    requires s == [0, 255]
    ensures Equalized(s) == [255, 255]
    ensures CorrectedEqualized(s) == [128, 255]
  {
    assert s[..1] == [0];
    assert Count(s, 0) == 1;
    assert CountAtMost(s, 0) == 1;
    CumulativeTotal(s);
    CountAtMostAll(s);
    assert Level(2, 2) == 255 by {
      ScaledBound(2, 2);
      assert (255.0 + 0.5).Floor == 255;
      ClampInteger(255);
    }
    assert Level(3, 2) == 255 by {
      assert Scaled(3, 2) == 382.5;
      assert (382.5 + 0.5).Floor == 383;
      ClampInteger(383);
    }
    assert Level(1, 2) == 128 by {
      assert Scaled(1, 2) == 127.5;
      assert (127.5 + 0.5).Floor == 128;
      ClampInteger(128);
    }
  }

  // ---------------------------------------------------------------------
  // The intended equalisation

  /** Each value replaced by the scaled count of entries at most it: the
      cumulative distribution without the extra zeros. */
  function CorrectedEqualized(pixels: seq<byte>): (r: seq<byte>)
    ensures |r| == |pixels|
  {
    seq(|pixels|, i requires 0 <= i < |pixels| => Level(CountAtMost(pixels, pixels[i]), |pixels|))
  }

  /** Without the extra zeros the scaled count already lies in [0, 255]
      before clamping, and the brightest value present maps to 255. */
  lemma CorrectedInRange(pixels: seq<byte>, v: byte)
    requires 0 < |pixels|
    ensures 0.0 <= Scaled(CountAtMost(pixels, v), |pixels|) <= 255.0
    ensures v == 255 ==> Level(CountAtMost(pixels, v), |pixels|) == 255
  {
    CumulativeMonotone(pixels, v, 255);
    CountAtMostAll(pixels);
    ScaledBound(CountAtMost(pixels, v), |pixels|);
    if v == 255 {
      FullLevel(|pixels|);
    }
  }

  /** A count of at most n scales into [0, 255], and n scales to 255. */
  lemma ScaledBound(count: nat, n: nat)
    requires 0 < n && count <= n
    ensures 0.0 <= Scaled(count, n) <= 255.0
    ensures count == n ==> Scaled(count, n) == 255.0
  {
    var q := 255.0 / n as real;
    ScaleMonotone(0.0, count as real, q);
    ScaleMonotone(count as real, n as real, q);
    UnitScale(n as real);
  }

  /** All n pixels counted gives the top level. */
  lemma FullLevel(n: nat)
    requires 0 < n
    ensures Level(n, n) == 255
  {
    ScaledBound(n, n);
    assert (255.0 + 0.5).Floor == 255;
    ClampInteger(255);
  }

  lemma UnitScale(n: real)
    requires 0.0 < n
    ensures n * (255.0 / n) == 255.0
  {
  }

  /** The corrected equalisation keeps the order of the values too. */
  lemma CorrectedMonotone(pixels: seq<byte>, i: nat, j: nat)
    requires i < |pixels| && j < |pixels| && pixels[i] <= pixels[j]
    ensures CorrectedEqualized(pixels)[i] <= CorrectedEqualized(pixels)[j]
  {
    CumulativeMonotone(pixels, pixels[i], pixels[j]);
    LevelMonotone(CountAtMost(pixels, pixels[i]), CountAtMost(pixels, pixels[j]), |pixels|);
  }
}
