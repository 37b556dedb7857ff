/** Colour-space conversions of the tracker's colour mode: byte RGB to sRGB,
    linear RGB, CIE XYZ, CIELAB and LCh, the Euclidean Lab distance and the
    hue. All functions are pure; the host's `Math` functions arrive in `m`. */
module ColorProcessing {
  import opened HostMath

  datatype Rgb = Rgb(r: real, g: real, b: real)
  datatype Xyz = Xyz(x: real, y: real, z: real)
  datatype Lab = Lab(l: real, a: real, b: real)
  datatype Lch = Lch(l: real, c: real, h: real)

  /** Scales byte channels (0..255) into the unit interval. */
  function RbgToSRgb(c: Rgb): Rgb
  {
    Rgb(c.r / 255.0, c.g / 255.0, c.b / 255.0)
  }

  /** The sRGB decoding of one gamma-encoded channel (IEC 61966-2-1,
      section 5.2): a linear segment near black, a power curve above it. */
  function SRgbToLinearRgb(m: MathLib, color: real): real
  {
    if color <= 0.04045 then color / 12.92
    else m.pow((color + 0.055) / 1.055, 2.4)
  }

  function RbgToLinearRgb(m: MathLib, rgb: Rgb): Rgb
  {
    var s := RbgToSRgb(rgb);
    Rgb(SRgbToLinearRgb(m, s.r), SRgbToLinearRgb(m, s.g), SRgbToLinearRgb(m, s.b))
  }

  /** Linear RGB through the fixed 3x3 matrix, every axis scaled by 100. */
  function RgbToXyz(m: MathLib, rgb: Rgb): Xyz
  {
    var lin := RbgToLinearRgb(m, rgb);
    var x := 0.4124 * lin.r + 0.3576 * lin.g + 0.1805 * lin.b;
    var y := 0.2126 * lin.r + 0.7152 * lin.g + 0.0722 * lin.b;
    var z := 0.0193 * lin.r + 0.1192 * lin.g + 0.9505 * lin.b;
    Xyz(x * 100.0, y * 100.0, z * 100.0)
  }

  /** Reference white of illuminant D65 (2 degree observer), per axis. */
  const D65: seq<real> := [95.047, 100.0, 108.883]

  /** The CIELAB companding function (CIE 15:2004, section 8.2.1). */
  function LabF(m: MathLib, v: real): real
  {
    if v > 0.008856 then m.pow(v, 1.0 / 3.0) else v * 7.787 + 16.0 / 116.0
  }

  function XyzToLab(m: MathLib, c: Xyz): Lab
  {
    var fx := LabF(m, c.x / D65[0]);
    var fy := LabF(m, c.y / D65[1]);
    var fz := LabF(m, c.z / D65[2]);
    Lab(116.0 * fy - 16.0, 500.0 * (fx - fy), 200.0 * (fy - fz))
  }

  function RgbToLab(m: MathLib, rgb: Rgb): Lab
  {
    XyzToLab(m, RgbToXyz(m, rgb))
  }

  function RadiansToDegrees(radians: real): real
  {
    radians * (180.0 / Pi)
  }

  /** Hue angle in degrees of the (a, b) chroma plane: exact values on the
      axes, otherwise the arctangent of b/a shifted by a quadrant bias. */
  function AbToHue(m: MathLib, a: real, b: real): real
  {
    if a >= 0.0 && b == 0.0 then 0.0
    else if a < 0.0 && b == 0.0 then 180.0
    else if a == 0.0 && b > 0.0 then 90.0
    else if a == 0.0 && b < 0.0 then 270.0
    else
      var xBias :=
        if a > 0.0 && b > 0.0 then 0.0
        else if a < 0.0 then 180.0
        else if a > 0.0 && b < 0.0 then 360.0
        else 0.0;
      RadiansToDegrees(m.atan(b / a)) + xBias
  }

  function LabToLch(m: MathLib, lab: Lab): Lch
  {
    Lch(lab.l, m.sqrt(lab.a * lab.a + lab.b * lab.b), AbToHue(m, lab.a, lab.b))
  }

  function EuclidianDistance(m: MathLib, p: Lab, q: Lab): real
  {
    var dl := m.pow(p.l - q.l, 2.0);
    var da := m.pow(p.a - q.a, 2.0);
    var db := m.pow(p.b - q.b, 2.0);
    m.sqrt(dl + da + db)
  }

  function Hue(m: MathLib, rgb: Rgb): real
  {
    var lab := RgbToLab(m, rgb);
    AbToHue(m, lab.a, lab.b)
  }

  /** The colour-similarity primitive of the tracker. */
  function CompareRgb(m: MathLib, a: Rgb, b: Rgb): real
  {
    EuclidianDistance(m, RgbToLab(m, a), RgbToLab(m, b))
  }

  // ---------------------------------------------------------------------
  // Properties

  /** The arctangent, read in degrees, stays strictly inside (-90, 90) and
      has the sign of its argument. */
  lemma AtanDegrees(m: MathLib, t: real)
    requires Sound(m)
    ensures -90.0 < RadiansToDegrees(m.atan(t)) < 90.0
    ensures 0.0 < t ==> 0.0 < RadiansToDegrees(m.atan(t))
    ensures t < 0.0 ==> RadiansToDegrees(m.atan(t)) < 0.0
  {
    var r := m.atan(t);
    var k := 180.0 / Pi;
    assert -Pi / 2.0 < r < Pi / 2.0;
    assert r * k < (Pi / 2.0) * k;
    assert (Pi / 2.0) * k == 90.0;
    assert (-Pi / 2.0) * k < r * k;
    assert (-Pi / 2.0) * k == -90.0;
    if 0.0 < t {
      assert 0.0 < r;
      assert 0.0 < r * k;
    }
    if t < 0.0 {
      assert r < 0.0;
      assert r * k < 0.0;
    }
  }

  /** The hue is exact on the four half-axes, lies in the quadrant of
      (a, b) everywhere else, and always falls in [0, 360). */
  lemma HueRange(m: MathLib, a: real, b: real)
    requires Sound(m)
    ensures a >= 0.0 && b == 0.0 ==> AbToHue(m, a, b) == 0.0
    ensures a < 0.0 && b == 0.0 ==> AbToHue(m, a, b) == 180.0
    ensures a == 0.0 && b > 0.0 ==> AbToHue(m, a, b) == 90.0
    ensures a == 0.0 && b < 0.0 ==> AbToHue(m, a, b) == 270.0
    ensures a > 0.0 && b > 0.0 ==> 0.0 < AbToHue(m, a, b) < 90.0
    ensures a < 0.0 && b > 0.0 ==> 90.0 < AbToHue(m, a, b) < 180.0
    ensures a < 0.0 && b < 0.0 ==> 180.0 < AbToHue(m, a, b) < 270.0
    ensures a > 0.0 && b < 0.0 ==> 270.0 < AbToHue(m, a, b) < 360.0
    ensures 0.0 <= AbToHue(m, a, b) < 360.0
  {
    if a != 0.0 && b != 0.0 {
      var t := b / a;
      AtanDegrees(m, t);
      if a > 0.0 && b > 0.0 {
        assert 0.0 < t;
      } else if a < 0.0 && b < 0.0 {
        assert 0.0 < t;
      } else if a < 0.0 {
        assert t < 0.0;
      } else {
        assert t < 0.0;
      }
    }
  }

  /** Chroma is the non-negative root of a*a + b*b, zero exactly for a
      neutral colour; lightness passes through and the hue is in range. */
  lemma LchChroma(m: MathLib, lab: Lab)
    requires Sound(m)
    ensures LabToLch(m, lab).l == lab.l
    ensures 0.0 <= LabToLch(m, lab).c
    ensures LabToLch(m, lab).c * LabToLch(m, lab).c == lab.a * lab.a + lab.b * lab.b
    ensures LabToLch(m, lab).c == 0.0 <==> lab.a == 0.0 && lab.b == 0.0
    ensures 0.0 <= LabToLch(m, lab).h < 360.0
  {
    SquarePositive(lab.a);
    SquarePositive(lab.b);
    HueRange(m, lab.a, lab.b);
    if lab.a != 0.0 || lab.b != 0.0 {
      assert 0.0 < lab.a * lab.a + lab.b * lab.b;
    }
  }

  /** The Lab distance is a symmetric, non-negative measure that is zero
      exactly between identical colours. */
  lemma DistanceMetric(m: MathLib, p: Lab, q: Lab)
    requires Sound(m)
    ensures EuclidianDistance(m, p, q) == EuclidianDistance(m, q, p)
    ensures 0.0 <= EuclidianDistance(m, p, q)
    ensures EuclidianDistance(m, p, q) == 0.0 <==> p == q
  {
    var dl, da, db := p.l - q.l, p.a - q.a, p.b - q.b;
    assert (-dl) * (-dl) == dl * dl;
    assert (-da) * (-da) == da * da;
    assert (-db) * (-db) == db * db;
    SquarePositive(dl);
    SquarePositive(da);
    SquarePositive(db);
    if p != q {
      assert dl != 0.0 || da != 0.0 || db != 0.0;
      assert 0.0 < dl * dl + da * da + db * db;
    }
  }

  /** Comparing a colour with itself gives 0, and the comparison does not
      depend on the order of its arguments. */
  lemma CompareRgbSymmetric(m: MathLib, a: Rgb, b: Rgb)
    requires Sound(m)
    ensures CompareRgb(m, a, a) == 0.0
    ensures CompareRgb(m, a, b) == CompareRgb(m, b, a)
    ensures 0.0 <= CompareRgb(m, a, b)
  {
    DistanceMetric(m, RgbToLab(m, a), RgbToLab(m, a));
    DistanceMetric(m, RgbToLab(m, a), RgbToLab(m, b));
  }

  /** A grey linearises channel by channel to the same value. */
  lemma LinearOfGrey(m: MathLib, v: real)
    ensures RbgToLinearRgb(m, Rgb(v, v, v)) == Rgb(SRgbToLinearRgb(m, v / 255.0), SRgbToLinearRgb(m, v / 255.0), SRgbToLinearRgb(m, v / 255.0))
  {
    var s := RbgToSRgb(Rgb(v, v, v));
    assert s == Rgb(v / 255.0, v / 255.0, v / 255.0);
  }

  /** The Y row of the matrix sums to one, so a grey's luminance is 100
      times its linearised channel. */
  lemma LuminanceOfGrey(m: MathLib, v: real)
    ensures RgbToXyz(m, Rgb(v, v, v)).y == 100.0 * SRgbToLinearRgb(m, v / 255.0)
  {
    LinearOfGrey(m, v);
    var l := SRgbToLinearRgb(m, v / 255.0);
    assert (0.2126 * l + 0.7152 * l + 0.0722 * l) * 100.0 == 100.0 * l;
  }

  /** Black decodes to the XYZ origin. */
  lemma XyzOfBlack(m: MathLib)
    ensures RgbToXyz(m, Rgb(0.0, 0.0, 0.0)) == Xyz(0.0, 0.0, 0.0)
  {
    LinearOfGrey(m, 0.0);
    assert SRgbToLinearRgb(m, 0.0 / 255.0) == 0.0;
    assert RbgToLinearRgb(m, Rgb(0.0, 0.0, 0.0)) == Rgb(0.0, 0.0, 0.0);
  }

  /** The D65 white point maps to L = 100 with no chroma, and the XYZ
      origin (hence black) maps to L = 0 with no chroma. */
  lemma LabReferencePoints(m: MathLib)
    requires Sound(m)
    ensures XyzToLab(m, Xyz(95.047, 100.0, 108.883)) == Lab(100.0, 0.0, 0.0)
    ensures XyzToLab(m, Xyz(0.0, 0.0, 0.0)) == Lab(0.0, 0.0, 0.0)
    ensures RgbToLab(m, Rgb(0.0, 0.0, 0.0)) == Lab(0.0, 0.0, 0.0)
  {
    LabOfWhite(m);
    LabOfOrigin(m);
    XyzOfBlack(m);
  }

  lemma LabOfWhite(m: MathLib)
    requires Sound(m)
    ensures XyzToLab(m, Xyz(95.047, 100.0, 108.883)) == Lab(100.0, 0.0, 0.0)
  {
    assert 95.047 / D65[0] == 1.0 && 100.0 / D65[1] == 1.0 && 108.883 / D65[2] == 1.0;
    assert LabF(m, 1.0) == 1.0;
  }

  /** Every XYZ colour proportional to the D65 white lies on the neutral
      axis: no chroma, and a lightness that depends on the scale alone. */
  lemma NeutralAxis(m: MathLib, t: real)
    ensures XyzToLab(m, Xyz(95.047 * t, 100.0 * t, 108.883 * t)) == Lab(116.0 * LabF(m, t) - 16.0, 0.0, 0.0)
  {
    assert 95.047 * t / D65[0] == t && 100.0 * t / D65[1] == t && 108.883 * t / D65[2] == t;
  }

  lemma LabOfOrigin(m: MathLib)
    ensures XyzToLab(m, Xyz(0.0, 0.0, 0.0)) == Lab(0.0, 0.0, 0.0)
  {
    assert 0.0 / D65[0] == 0.0 && 0.0 / D65[1] == 0.0 && 0.0 / D65[2] == 0.0;
    assert LabF(m, 0.0) == 16.0 / 116.0;
  }

  /** Byte channels land in the unit interval, the domain of the decoding. */
  lemma SRgbInUnitInterval(c: Rgb)
    requires 0.0 <= c.r <= 255.0 && 0.0 <= c.g <= 255.0 && 0.0 <= c.b <= 255.0
    ensures 0.0 <= RbgToSRgb(c).r <= 1.0
    ensures 0.0 <= RbgToSRgb(c).g <= 1.0
    ensures 0.0 <= RbgToSRgb(c).b <= 1.0
  {
  }

  /** The decoding keeps black at zero, shrinks the linear segment, and
      gives a positive value for every positive channel. */
  lemma DecodeSigns(m: MathLib, color: real)
    requires Sound(m)
    ensures color == 0.0 ==> SRgbToLinearRgb(m, color) == 0.0
    ensures 0.0 <= color <= 0.04045 ==> 0.0 <= SRgbToLinearRgb(m, color) <= color
    ensures 0.0 < color ==> 0.0 < SRgbToLinearRgb(m, color)
  {
  }

  /** The hue of any colour is an angle in [0, 360). */
  lemma HueInRange(m: MathLib, rgb: Rgb)
    requires Sound(m)
    ensures 0.0 <= Hue(m, rgb) < 360.0
  {
    var lab := RgbToLab(m, rgb);
    HueRange(m, lab.a, lab.b);
  }
}
