/** Gaussian blur: a normalised, symmetric Gaussian kernel applied as a
    separable convolution (vertical pass, then horizontal pass). */
module Blur {
  import opened Buffers
  import opened HostMath
  import opened Convolution

  /** `Math.ceil`. */
  function Ceil(d: real): (r: int)
    ensures d <= r as real < d + 1.0
  {
    var f := d.Floor;
    if f as real == d then f else f + 1
  }

  /** Number of taps: the diameter rounded up, bumped to the next odd count. */
  function KernelLength(diameter: real): int
  {
    Ceil(diameter) + (1 - Ceil(diameter) % 2)
  }

  /** A diameter above 1 gives an odd kernel of at least three taps that
      covers the diameter. */
  lemma KernelLengthShape(diameter: real)
    requires 1.0 < diameter
    ensures KernelLength(diameter) % 2 == 1
    ensures 3 <= KernelLength(diameter)
    ensures diameter <= KernelLength(diameter) as real <= diameter + 2.0
  {
  }

  /** The Gaussian's standard deviation for a given diameter. */
  function Rho(diameter: real): (r: real)
    requires 1.0 < diameter
    ensures 1.0 / 3.0 < r
  {
    (diameter / 2.0 + 0.5) / 3.0
  }

  /** The square root of 2 pi a b is positive for positive a and b (the
      kernel uses it with a == b == rho). */
  lemma AreaRootPositive(m: MathLib, a: real, b: real)
    requires Positive(m) && 0.0 < a && 0.0 < b
    ensures 0.0 < m.sqrt(2.0 * Pi * (a * b))
  {
    assert 0.0 < a * b;
  }

  /** 1 / sqrt(2 pi rho^2), the Gaussian's normalising factor. */
  function GaussianFactor(m: MathLib, rho: real): (g: real)
    requires Positive(m) && 0.0 < rho
    ensures 0.0 < g
  {
    AreaRootPositive(m, rho, rho);
    InversePositive(m.sqrt(2.0 * Pi * (rho * rho)));
    1.0 / m.sqrt(2.0 * Pi * (rho * rho))
  }

  lemma InversePositive(q: real)
    requires 0.0 < q
    ensures 0.0 < 1.0 / q
  {
  }

  /** -1 / (2 rho^2), the exponent's factor. */
  function RhoFactor(rho: real): real
    requires 0.0 < rho
  {
    -1.0 / (2.0 * rho * rho)
  }

  /** The Gaussian with standard deviation rho at a squared distance sq
      from its centre. */
  function Gaussian(m: MathLib, rho: real, sq: int): (g: real)
    requires Positive(m) && 0.0 < rho
    ensures 0.0 < g
  {
    GaussianFactor(m, rho) * m.exp(sq as real * RhoFactor(rho))
  }

  /** Unnormalised weight of tap i: the Gaussian at the tap's distance from
      the middle tap. */
  function RawWeight(m: MathLib, diameter: real, i: int): real
    requires Positive(m) && 1.0 < diameter
  {
    var x := i - KernelLength(diameter) / 2;
    Gaussian(m, Rho(diameter), x * x)
  }

  function RawKernel(m: MathLib, diameter: real): (r: seq<real>)
    requires Positive(m) && 1.0 < diameter
    ensures |r| == KernelLength(diameter)
  {
    KernelLengthShape(diameter);
    seq(KernelLength(diameter), i => RawWeight(m, diameter, i))
  }

  /** Each weight divided by t. */
  function Divided(s: seq<real>, t: real): (r: seq<real>)
    requires t != 0.0
    ensures |r| == |s|
  {
    seq(|s|, i requires 0 <= i < |s| => s[i] / t)
  }

  /** The blur kernel: each raw weight divided by the sum of all of them. */
  function Kernel(m: MathLib, diameter: real): (r: seq<real>)
    requires Positive(m) && 1.0 < diameter
    ensures |r| == KernelLength(diameter)
  {
    var raw := RawKernel(m, diameter);
    RawSumPositive(m, diameter);
    Divided(raw, Sum(raw))
  }

  /** The raw weights have a positive sum. */
  lemma RawSumPositive(m: MathLib, diameter: real)
    requires Positive(m) && 1.0 < diameter
    ensures 0.0 < Sum(RawKernel(m, diameter))
  {
    var raw := RawKernel(m, diameter);
    RawPositive(m, diameter);
    PositiveSum(raw, |raw|);
  }

  /** Every raw weight is positive. */
  lemma RawPositive(m: MathLib, diameter: real)
    requires Positive(m) && 1.0 < diameter
    ensures forall i :: 0 <= i < |RawKernel(m, diameter)| ==> 0.0 < RawKernel(m, diameter)[i]
  {
  }

  /** A non-empty prefix of positive entries has a positive sum. */
  lemma {:induction false} PositiveSum(s: seq<real>, n: nat)
    requires n <= |s|
    requires forall i :: 0 <= i < |s| ==> 0.0 < s[i]
    ensures 0 < n ==> 0.0 < SumTo(s, n)
    ensures 0.0 <= SumTo(s, n)
  {
    if n > 0 {
      PositiveSum(s, n - 1);
    }
  }

  /** Dividing every entry by t divides the sum by t. */
  lemma {:induction false} SumDivided(s: seq<real>, t: real, n: nat)
    requires t != 0.0 && n <= |s|
    ensures SumTo(Divided(s, t), n) == SumTo(s, n) / t
  {
    if n > 0 {
      SumDivided(s, t, n - 1);
      var a, b := SumTo(s, n - 1), s[n - 1];
      assert a / t + b / t == (a + b) / t;
    }
  }

  /** The kernel's weights add up to 1, so blurring keeps the average
      brightness. */
  lemma KernelNormalised(m: MathLib, diameter: real)
    requires Positive(m) && 1.0 < diameter
    ensures Sum(Kernel(m, diameter)) == 1.0
  {
    var raw := RawKernel(m, diameter);
    RawSumPositive(m, diameter);
    SumDivided(raw, Sum(raw), |raw|);
    assert Sum(raw) / Sum(raw) == 1.0;
  }

  /** Every kernel weight is positive. */
  lemma KernelPositive(m: MathLib, diameter: real)
    requires Positive(m) && 1.0 < diameter
    ensures forall i :: 0 <= i < |Kernel(m, diameter)| ==> 0.0 < Kernel(m, diameter)[i]
  {
    var raw := RawKernel(m, diameter);
    RawPositive(m, diameter);
    RawSumPositive(m, diameter);
    forall i | 0 <= i < |raw|
      ensures 0.0 < Kernel(m, diameter)[i]
    {
      assert Kernel(m, diameter)[i] == raw[i] / Sum(raw);
    }
  }

  /** Taps at the same distance from the middle carry the same weight. */
  lemma KernelSymmetric(m: MathLib, diameter: real, i: nat)
    requires Positive(m) && 1.0 < diameter && i < KernelLength(diameter)
    ensures Kernel(m, diameter)[i] == Kernel(m, diameter)[KernelLength(diameter) - 1 - i]
  {
    var len := KernelLength(diameter);
    KernelLengthShape(diameter);
    var x, x' := i - len / 2, (len - 1 - i) - len / 2;
    assert x' == -x;
    assert x' * x' == x * x;
    var raw := RawKernel(m, diameter);
    assert raw[i] == raw[len - 1 - i];
    RawSumPositive(m, diameter);
  }

  /** Computes the kernel: raw Gaussian weights and their running sum, then
      each weight divided by that sum. */
  method GaussianKernel(m: MathLib, diameter: real) returns (weights: array<real>)
    requires Positive(m) && 1.0 < diameter
    ensures weights[..] == Kernel(m, diameter)
  {
    var len := KernelLength(diameter);
    KernelLengthShape(diameter);
    weights := new real[len];
    var rho := (diameter / 2.0 + 0.5) / 3.0;
    assert rho == Rho(diameter);
    var wsum := 0.0;
    var middle := len / 2;
    ghost var raw := RawKernel(m, diameter);
    var i := 0;
    while i < len
      invariant 0 <= i <= len
      invariant forall k :: 0 <= k < i ==> weights[k] == raw[k]
      invariant wsum == SumTo(raw, i)
    {
      var x := i - middle;
      var gx := Gaussian(m, rho, x * x);
      weights[i] := gx;
      wsum := wsum + gx;
      i := i + 1;
    }
    RawSumPositive(m, diameter);
    var j := 0;
    while j < weights.Length
      invariant 0 <= j <= len
      invariant forall k :: 0 <= k < j ==> weights[k] == raw[k] / wsum
      invariant forall k :: j <= k < len ==> weights[k] == raw[k]
    {
      weights[j] := weights[j] / wsum;
      j := j + 1;
    }
  }

  /** Blurs an RGBA image with a Gaussian of the given diameter (its sign is
      ignored); a diameter of at most 1 is rejected. */
  method GaussianBlur(m: MathLib, pixels: seq<real>, width: nat, height: nat, diameter: real)
    returns (r: Result<array<real>>)
    requires Positive(m) && width * height * 4 <= |pixels|
    ensures r.Err? <==> -1.0 <= diameter <= 1.0
    ensures r.Err? ==> r.message == "Diameter should be greater than 1."
    ensures r.Ok? ==>
      var d := if diameter < 0.0 then -diameter else diameter;
      1.0 < d &&
      r.value[..] == SeparableImage(pixels, width, height, Kernel(m, d), Kernel(m, d), false)
  {
    var d := if diameter < 0.0 then -diameter else diameter;
    if d <= 1.0 {
      return Err("Diameter should be greater than 1.");
    }
    var weights := GaussianKernel(m, d);
    var output := SeparableConvolve(pixels, width, height, weights[..], weights[..], false);
    return Ok(output);
  }

  /** The specification of a successful blur. */
  function BlurImage(m: MathLib, pixels: seq<real>, width: nat, height: nat, diameter: real): seq<real>
    requires Positive(m) && width * height * 4 <= |pixels| && 1.0 < diameter
  {
    SeparableImage(pixels, width, height, Kernel(m, diameter), Kernel(m, diameter), false)
  }

  /** A channel that holds the same value everywhere, alpha included, comes
      out of the blur unchanged. */
  lemma BlurKeepsFlatChannel(m: MathLib, pixels: seq<real>, width: nat, height: nat,
                             diameter: real, c: nat, v: real)
    requires Positive(m) && 1.0 < diameter && c < 4
    requires width * height * 4 <= |pixels| && Flat(pixels, width * height, c, v)
    ensures Flat(BlurImage(m, pixels, width, height, diameter), width * height, c, v)
  {
    var k := Kernel(m, diameter);
    KernelNormalised(m, diameter);
    UnitFactor(v, Sum(k));
    SeparableFlat(pixels, width, height, k, k, false, c, v, v);
  }

  lemma UnitFactor(v: real, s: real)
    requires s == 1.0
    ensures v * s == v
  {
  }
}
