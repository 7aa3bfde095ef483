/** Stateless math kernel shared by every interpolation module: clamping,
    colour conversions, point and quaternion blending, squared distances,
    float-to-long rounding and pixel unpacking. Scalars are exact reals. */
module MathTrig {

  datatype Vec3 = Vec3(x: real, y: real, z: real)

  datatype Quat = Quat(w: real, x: real, y: real, z: real)

  const Origin: Vec3 := Vec3(0.0, 0.0, 0.0)

  function Abs(v: real): real {
    if v < 0.0 then -v else v
  }

  /** Distance between two scalars. */
  function Gap(u: real, v: real): real {
    Abs(u - v)
  }

  // ---------------------------------------------------------------------
  // Clamping
  // ---------------------------------------------------------------------

  /** Clamp to the unit interval. Both spellings in the source (the `if`
      chain and `max(0, min(1, v))`) denote this function. The result is
      the point of [0,1] nearest to `v`. */
  function Clamp01(v: real): (r: real)
    ensures 0.0 <= r <= 1.0
    ensures 0.0 <= v <= 1.0 ==> r == v
    ensures forall u :: InUnit(u) ==> Gap(r, v) <= Gap(u, v)
  {
    if v < 0.0 then 0.0 else if v > 1.0 then 1.0 else v
  }

  // ---------------------------------------------------------------------
  // Colours
  // ---------------------------------------------------------------------

  type Byte = b: int | 0 <= b < 256

  datatype ColorRGB = ColorRGB(red: real, green: real, blue: real)

  datatype ColorARGB = ColorARGB(alpha: real, red: real, green: real, blue: real)

  datatype ColorByte = ColorByte(alpha: Byte, red: Byte, green: Byte, blue: Byte)

  predicate InUnit(v: real) {
    0.0 <= v <= 1.0
  }

  predicate RgbInUnit(c: ColorRGB) {
    InUnit(c.red) && InUnit(c.green) && InUnit(c.blue)
  }

  predicate ArgbInUnit(c: ColorARGB) {
    InUnit(c.alpha) && InUnit(c.red) && InUnit(c.green) && InUnit(c.blue)
  }

  /** A byte channel read as a fraction of full intensity. */
  function ByteToUnit(b: Byte): (v: real)
    ensures InUnit(v)
    ensures v * 255.0 == b as real
  {
    b as real / 255.0
  }

  /** A float channel stored as a byte: clamp, scale by 255, and truncate
      (the unsigned-char cast of a non-negative value). The result is the
      largest byte whose fraction does not exceed the clamped channel. */
  function UnitToByte(v: real): (b: Byte)
    ensures b as real <= Clamp01(v) * 255.0 < b as real + 1.0
    ensures v <= 0.0 ==> b == 0
    ensures v >= 1.0 ==> b == 255
  {
    var s := Clamp01(v) * 255.0;
    var f := s.Floor;
    assert 0 <= f <= 255;
    f
  }

  function RgbFromFloats(r: real, g: real, b: real): (c: ColorRGB)
    ensures RgbInUnit(c)
    ensures InUnit(r) && InUnit(g) && InUnit(b) ==> c == ColorRGB(r, g, b)
    ensures r < 0.0 ==> c.red == 0.0
    ensures r > 1.0 ==> c.red == 1.0
    ensures g < 0.0 ==> c.green == 0.0
    ensures g > 1.0 ==> c.green == 1.0
    ensures b < 0.0 ==> c.blue == 0.0
    ensures b > 1.0 ==> c.blue == 1.0
  {
    ColorRGB(Clamp01(r), Clamp01(g), Clamp01(b))
  }

  function RgbFromBytes(o: ColorByte): (c: ColorRGB)
    ensures RgbInUnit(c)
    ensures c.red * 255.0 == o.red as real && c.green * 255.0 == o.green as real
    ensures c.blue * 255.0 == o.blue as real
  {
    ColorRGB(ByteToUnit(o.red), ByteToUnit(o.green), ByteToUnit(o.blue))
  }

  /** Drops the alpha channel without clamping. */
  function RgbFromArgb(o: ColorARGB): (c: ColorRGB)
    ensures c.red == o.red && c.green == o.green && c.blue == o.blue
  {
    ColorRGB(o.red, o.green, o.blue)
  }

  function ArgbFromFloats(a: real, r: real, g: real, b: real): (c: ColorARGB)
    ensures ArgbInUnit(c)
    ensures InUnit(a) && InUnit(r) && InUnit(g) && InUnit(b) ==> c == ColorARGB(a, r, g, b)
    ensures a < 0.0 ==> c.alpha == 0.0
    ensures a > 1.0 ==> c.alpha == 1.0
    ensures r < 0.0 ==> c.red == 0.0
    ensures r > 1.0 ==> c.red == 1.0
    ensures g < 0.0 ==> c.green == 0.0
    ensures g > 1.0 ==> c.green == 1.0
    ensures b < 0.0 ==> c.blue == 0.0
    ensures b > 1.0 ==> c.blue == 1.0
  {
    ColorARGB(Clamp01(a), Clamp01(r), Clamp01(g), Clamp01(b))
  }

  function ArgbFromBytes(o: ColorByte): (c: ColorARGB)
    ensures ArgbInUnit(c)
    ensures c.alpha * 255.0 == o.alpha as real && c.red * 255.0 == o.red as real
    ensures c.green * 255.0 == o.green as real && c.blue * 255.0 == o.blue as real
  {
    ColorARGB(ByteToUnit(o.alpha), ByteToUnit(o.red), ByteToUnit(o.green), ByteToUnit(o.blue))
  }

  /** An opaque colour: alpha is full. */
  function ArgbFromRgb(o: ColorRGB): (c: ColorARGB)
    ensures c.alpha == 1.0
    ensures c.red == o.red && c.green == o.green && c.blue == o.blue
  {
    ColorARGB(1.0, o.red, o.green, o.blue)
  }

  /** Dropping and re-adding alpha loses only the alpha channel; adding and
      dropping it is the identity. */
  lemma RgbArgbRoundTrip(o: ColorARGB, c: ColorRGB)
    ensures ArgbFromRgb(RgbFromArgb(o)) == o.(alpha := 1.0)
    ensures RgbFromArgb(ArgbFromRgb(c)) == c
  {
  }

  /** The four-float byte constructor, arguments in alpha, red, green, blue order. */
  function ByteFromFloats(a: real, r: real, g: real, b: real): (c: ColorByte)
    ensures c.alpha == UnitToByte(a) && c.red == UnitToByte(r)
    ensures c.green == UnitToByte(g) && c.blue == UnitToByte(b)
  {
    ColorByte(UnitToByte(a), UnitToByte(r), UnitToByte(g), UnitToByte(b))
  }

  function ByteFromRgb(o: ColorRGB): (c: ColorByte)
    ensures c.alpha == 255
    ensures c == ByteFromFloats(1.0, o.red, o.green, o.blue)
  {
    ByteFromFloats(1.0, o.red, o.green, o.blue)
  }

  /** Each channel becomes the largest byte not above its clamped fraction
      of 255; a channel already in the unit interval is floored as it is. */
  function ByteFromArgb(o: ColorARGB): (c: ColorByte)
    ensures c == ByteFromFloats(o.alpha, o.red, o.green, o.blue)
    ensures c.alpha as real <= Clamp01(o.alpha) * 255.0 < c.alpha as real + 1.0
    ensures c.red as real <= Clamp01(o.red) * 255.0 < c.red as real + 1.0
    ensures c.green as real <= Clamp01(o.green) * 255.0 < c.green as real + 1.0
    ensures c.blue as real <= Clamp01(o.blue) * 255.0 < c.blue as real + 1.0
    ensures ArgbInUnit(o) ==>
      && c.alpha as real <= o.alpha * 255.0 < c.alpha as real + 1.0
      && c.red as real <= o.red * 255.0 < c.red as real + 1.0
      && c.green as real <= o.green * 255.0 < c.green as real + 1.0
      && c.blue as real <= o.blue * 255.0 < c.blue as real + 1.0
    ensures o.alpha <= 0.0 ==> c.alpha == 0
    ensures o.alpha >= 1.0 ==> c.alpha == 255
  {
    ByteFromFloats(o.alpha, o.red, o.green, o.blue)
  }

  /** A byte survives the trip to a float channel and back. */
  lemma ByteChannelRoundTrip(b: Byte)
    ensures UnitToByte(ByteToUnit(b)) == b
  {
    var v := ByteToUnit(b);
    assert Clamp01(v) == v;
    assert v * 255.0 == b as real;
    assert (b as real).Floor == b;
  }

  /** Every byte colour survives conversion to floats and back. */
  lemma ColorByteRoundTrip(c: ColorByte)
    ensures ByteFromArgb(ArgbFromBytes(c)) == c
  {
    ByteChannelRoundTrip(c.alpha);
    ByteChannelRoundTrip(c.red);
    ByteChannelRoundTrip(c.green);
    ByteChannelRoundTrip(c.blue);
  }

  /** A float channel stored as a byte and read back loses less than one
      step of 1/255 and never rounds up. */
  lemma UnitChannelQuantisation(v: real)
    ensures ByteToUnit(UnitToByte(v)) <= Clamp01(v) < ByteToUnit(UnitToByte(v)) + 1.0 / 255.0
  {
    var b := UnitToByte(v);
    var u := ByteToUnit(b);
    assert u * 255.0 == b as real;
    assert b as real <= Clamp01(v) * 255.0 < b as real + 1.0;
    assert u * 255.0 <= Clamp01(v) * 255.0;
    assert Clamp01(v) * 255.0 < (u + 1.0 / 255.0) * 255.0;
  }

  // ---------------------------------------------------------------------
  // Pixels
  // ---------------------------------------------------------------------

  const Pixel32Bound: nat := 0x1_0000_0000

  /** The byte field `(p >> shift) & 0xFF` of a 32-bit pixel, with the
      shift written as its power of two. */
  function Field(p: nat, unit: nat): Byte
    requires unit in {1, 0x100, 0x1_0000, 0x100_0000}
  {
    (p / unit) % 256
  }

  /** Unpacks a 32-bit ARGB pixel: alpha in bits 24-31, red 16-23, green 8-15,
      blue 0-7, each channel as a fraction of 255. */
  function Pixel32ToArgb(p: nat): (c: ColorARGB)
    requires p < Pixel32Bound
    ensures ArgbInUnit(c)
    ensures c.alpha * 255.0 == Field(p, 0x100_0000) as real && c.red * 255.0 == Field(p, 0x1_0000) as real
    ensures c.green * 255.0 == Field(p, 0x100) as real && c.blue * 255.0 == Field(p, 1) as real
  {
    ColorARGB(
      ByteToUnit(Field(p, 0x100_0000)),
      ByteToUnit(Field(p, 0x1_0000)),
      ByteToUnit(Field(p, 0x100)),
      ByteToUnit(Field(p, 1)))
  }

  /** Packs four byte channels into a pixel, alpha in the top byte. */
  function PackPixel(c: ColorByte): (p: nat)
    ensures p < Pixel32Bound
  {
    c.alpha * 0x100_0000 + c.red * 0x1_0000 + c.green * 0x100 + c.blue
  }

  /** A pixel is the weighted sum of its four byte fields. */
  lemma PixelDecompose(p: nat)
    requires p < Pixel32Bound
    ensures p == Field(p, 0x100_0000) * 0x100_0000 + Field(p, 0x1_0000) * 0x1_0000
               + Field(p, 0x100) * 0x100 + Field(p, 1)
  {
    var q1 := p / 0x100;
    var q2 := q1 / 0x100;
    var q3 := q2 / 0x100;
    assert p == q1 * 0x100 + p % 0x100;
    assert q1 == q2 * 0x100 + q1 % 0x100;
    assert q2 == q3 * 0x100 + q2 % 0x100;
    assert p == q2 * 0x1_0000 + (q1 % 0x100) * 0x100 + p % 0x100;
    assert p / 0x1_0000 == q2;
    assert p == q3 * 0x100_0000 + (q2 % 0x100) * 0x1_0000 + (q1 % 0x100) * 0x100 + p % 0x100;
    assert p / 0x100_0000 == q3;
  }

  /** Unpacking a pixel and re-quantising the channels reproduces the pixel. */
  lemma PixelRoundTrip(p: nat)
    requires p < Pixel32Bound
    ensures PackPixel(ByteFromArgb(Pixel32ToArgb(p))) == p
  {
    var bytes := ColorByte(Field(p, 0x100_0000), Field(p, 0x1_0000), Field(p, 0x100), Field(p, 1));
    assert Pixel32ToArgb(p) == ArgbFromBytes(bytes);
    ColorByteRoundTrip(bytes);
    PixelDecompose(p);
  }

  /** Packing byte channels and unpacking the pixel gives back each channel. */
  lemma PackRoundTrip(c: ColorByte)
    ensures Field(PackPixel(c), 0x100_0000) == c.alpha && Field(PackPixel(c), 0x1_0000) == c.red
    ensures Field(PackPixel(c), 0x100) == c.green && Field(PackPixel(c), 1) == c.blue
  {
    var p := PackPixel(c);
    assert p == (c.alpha * 0x100 + c.red) * 0x1_0000 + (c.green * 0x100 + c.blue);
    assert p / 0x1_0000 == c.alpha * 0x100 + c.red;
    assert p == ((c.alpha * 0x100 + c.red) * 0x100 + c.green) * 0x100 + c.blue;
    assert p / 0x100 == (c.alpha * 0x100 + c.red) * 0x100 + c.green;
    assert p == c.alpha * 0x100_0000 + (c.red * 0x1_0000 + c.green * 0x100 + c.blue);
    assert p / 0x100_0000 == c.alpha;
  }

  // ---------------------------------------------------------------------
  // Points
  // ---------------------------------------------------------------------

  /** Scalar linear blend `a + (b - a) * t`, used for node scales. */
  function Mix(a: real, b: real, t: real): (r: real)
    ensures t == 0.0 ==> r == a
    ensures t == 1.0 ==> r == b
    ensures a == b ==> r == a
  {
    a + (b - a) * t
  }

  /** For `t` in [0,1] the scalar blend stays between its endpoints. */
  lemma MixBetween(a: real, b: real, t: real)
    requires 0.0 <= t <= 1.0
    ensures a <= b ==> a <= Mix(a, b, t) <= b
    ensures b <= a ==> b <= Mix(a, b, t) <= a
  {
    var d := b - a;
    ProductBetween(d, t);
    assert Mix(a, b, t) == a + d * t;
  }

  lemma ProductBetween(d: real, t: real)
    ensures 0.0 <= t <= 1.0 && 0.0 <= d ==> 0.0 <= d * t <= d
    ensures 0.0 <= t <= 1.0 && d < 0.0 ==> d <= d * t <= 0.0
  {
    if t < 0.0 || t > 1.0 {
    } else if 0.0 <= d {
      MulNonneg(d, t);
      MulMono(d, t, 1.0);
    } else {
      var e := -d;
      MulNonneg(e, t);
      MulMono(e, t, 1.0);
      assert d * t == -(e * t);
    }
  }

  lemma MulNonneg(x: real, y: real)
    requires x >= 0.0 && y >= 0.0
    ensures x * y >= 0.0
  {
  }

  lemma MulMono(x: real, y: real, z: real)
    requires x >= 0.0 && y <= z
    ensures x * y <= x * z
  {
    MulNonneg(x, z - y);
    assert x * (z - y) == x * z - x * y;
  }

  /** Point linear blend, coordinate by coordinate; `t` is not clamped here. */
  function Lerp(a: Vec3, b: Vec3, t: real): (o: Vec3)
    ensures t == 0.0 ==> o == a
    ensures t == 1.0 ==> o == b
    ensures a == b ==> o == a
  {
    Vec3(Mix(a.x, b.x, t), Mix(a.y, b.y, t), Mix(a.z, b.z, t))
  }

  function Sq(v: real): (r: real)
    ensures r >= 0.0
  {
    v * v
  }

  /** Squared distance in the plane. */
  function DistanceSquared2(x1: real, y1: real, x2: real, y2: real): (d: real)
    ensures d >= 0.0
    ensures x1 == x2 && y1 == y2 ==> d == 0.0
  {
    Sq(x1 - x2) + Sq(y1 - y2)
  }

  /** Exact squared Euclidean distance, no epsilon. */
  function DistanceSquared(a: Vec3, b: Vec3): (d: real)
    ensures d >= 0.0
    ensures a == b ==> d == 0.0
  {
    Sq(a.x - b.x) + Sq(a.y - b.y) + Sq(a.z - b.z)
  }

  function MagnitudeSquared(a: Vec3): (m: real)
    ensures m == DistanceSquared(a, Origin)
  {
    Sq(a.x) + Sq(a.y) + Sq(a.z)
  }

  lemma DistanceSymmetric(a: Vec3, b: Vec3)
    ensures DistanceSquared(a, b) == DistanceSquared(b, a)
  {
    assert Sq(a.x - b.x) == Sq(b.x - a.x);
    assert Sq(a.y - b.y) == Sq(b.y - a.y);
    assert Sq(a.z - b.z) == Sq(b.z - a.z);
  }

  /** A blended point lies `t` of the way along the segment: its squared
      distance from `a` is `t^2` times the segment's, and from `b` `(1-t)^2` times. */
  lemma LerpDistance(a: Vec3, b: Vec3, t: real)
    ensures DistanceSquared(a, Lerp(a, b, t)) == t * t * DistanceSquared(a, b)
    ensures DistanceSquared(Lerp(a, b, t), b) == (1.0 - t) * (1.0 - t) * DistanceSquared(a, b)
  {
    var o := Lerp(a, b, t);
    assert a.x - o.x == (a.x - b.x) * t;
    assert a.y - o.y == (a.y - b.y) * t;
    assert a.z - o.z == (a.z - b.z) * t;
    ScaledDistance(a, o, a, b, t);
    assert o.x - b.x == (a.x - b.x) * (1.0 - t);
    assert o.y - b.y == (a.y - b.y) * (1.0 - t);
    assert o.z - b.z == (a.z - b.z) * (1.0 - t);
    ScaledDistance(o, b, a, b, 1.0 - t);
  }

  /** Scaling every coordinate difference by `s` scales the squared
      distance by `s^2`. */
  lemma ScaledDistance(p: Vec3, q: Vec3, a: Vec3, b: Vec3, s: real)
    requires p.x - q.x == (a.x - b.x) * s
    requires p.y - q.y == (a.y - b.y) * s
    requires p.z - q.z == (a.z - b.z) * s
    ensures DistanceSquared(p, q) == s * s * DistanceSquared(a, b)
  {
    ScaledSquare(a.x - b.x, s);
    ScaledSquare(a.y - b.y, s);
    ScaledSquare(a.z - b.z, s);
    SumScaled(Sq(a.x - b.x), Sq(a.y - b.y), Sq(a.z - b.z), s * s);
  }

  lemma SumScaled(p: real, q: real, r: real, k: real)
    ensures k * p + k * q + k * r == k * (p + q + r)
  {
  }

  lemma ScaledSquare(d: real, t: real)
    ensures Sq(d * t) == t * t * Sq(d)
  {
  }

  // ---------------------------------------------------------------------
  // Rounding
  // ---------------------------------------------------------------------

  /** Range of the 32-bit `long` the rounding returns. */
  const LongMin: int := -0x8000_0000
  const LongMax: int := 0x7FFF_FFFF

  /** Conversion toward zero, as a float-to-integer cast does. */
  function Trunc(f: real): (i: int)
    ensures 0.0 <= f ==> i as real <= f < i as real + 1.0
    ensures f < 0.0 ==> f <= i as real < f + 1.0
  {
    if f >= 0.0 then f.Floor else -((-f).Floor)
  }

  /** Rounding to a long: half up for non-negative inputs, toward zero for
      negative ones. Inputs are those for which neither the cast nor the
      increment leaves the 32-bit range. */
  function FastFtol(f: real): (r: int)
    requires LongMin as real - 1.0 < f < LongMax as real + 0.5
    ensures LongMin <= r <= LongMax
    ensures 0.0 <= f ==> r as real - 0.5 <= f < r as real + 0.5
    ensures f < 0.0 ==> r == Trunc(f)
  {
    var i := Trunc(f);
    if f - i as real < 0.5 then i else i + 1
  }

  /** For negative inputs the rounding is a truncation: the result is the
      least integer not below the input. */
  lemma FastFtolNegativeIsCeiling(f: real)
    requires LongMin as real - 1.0 < f < 0.0
    ensures f <= FastFtol(f) as real < f + 1.0
  {
  }

  // ---------------------------------------------------------------------
  // Quaternions
  // ---------------------------------------------------------------------

  /** Library numerics the model does not compute: the square root used to
      renormalise, and the `acos`/`sin` spherical branch of the blend
      (given the start, the hemisphere-corrected end and `t`). */
  datatype Trig = Trig(sqrt: real -> real, slerp: (Quat, Quat, real) -> Quat)

  function Dot(a: Quat, b: Quat): real {
    a.w * b.w + a.x * b.x + a.y * b.y + a.z * b.z
  }

  function Negate(q: Quat): Quat {
    Quat(-q.w, -q.x, -q.y, -q.z)
  }

  function Scale(q: Quat, s: real): Quat {
    Quat(q.w * s, q.x * s, q.y * s, q.z * s)
  }

  /** Above this cosine the blend is linear. */
  const LinearThreshold: real := 0.9995

  /** The end quaternion moved into the start's hemisphere, so the blend
      takes the short way round. */
  function Hemisphere(a: Quat, b: Quat): (bb: Quat)
    ensures Dot(a, bb) >= 0.0
    ensures bb == b || bb == Negate(b)
    ensures Dot(a, b) >= 0.0 ==> bb == b
  {
    if Dot(a, b) < 0.0 then Negate(b) else b
  }

  function QuatMix(a: Quat, b: Quat, t: real): Quat {
    Quat(Mix(a.w, b.w, t), Mix(a.x, b.x, t), Mix(a.y, b.y, t), Mix(a.z, b.z, t))
  }

  /** Division by the root of the squared norm. A zero root, where floats
      would produce infinities, leaves the quaternion as it is. With a root
      that is true at the squared norm the result is a unit quaternion
      pointing the same way as the input. */
  function Renormalize(q: Quat, sqrt: real -> real): (r: Quat)
    ensures sqrt(Dot(q, q)) == 0.0 ==> r == q
    ensures sqrt(Dot(q, q)) > 0.0 ==> exists s: real {:trigger Scale(q, s)} :: s > 0.0 && r == Scale(q, s)
    ensures sqrt(Dot(q, q)) > 0.0 && sqrt(Dot(q, q)) * sqrt(Dot(q, q)) == Dot(q, q) ==> Dot(r, r) == 1.0
  {
    var n := sqrt(Dot(q, q));
    if n == 0.0 then q
    else
      var s := 1.0 / n;
      if n > 0.0 && n * n == Dot(q, q) then ScaleByRootIsUnit(q, n); Scale(q, s) else Scale(q, s)
  }

  /** Whether the linear branch is taken for these endpoints. */
  predicate LinearBranch(a: Quat, b: Quat) {
    Dot(a, Hemisphere(a, b)) > LinearThreshold
  }

  /** `interpolate_quat`: hemisphere flip, linear blend above the threshold
      or the spherical branch otherwise, then renormalisation. */
  function QuatBlend(a: Quat, b: Quat, t: real, trig: Trig): (out: Quat)
    ensures LinearBranch(a, b) ==> out == Renormalize(QuatMix(a, Hemisphere(a, b), t), trig.sqrt)
    ensures !LinearBranch(a, b) ==> out == Renormalize(trig.slerp(a, Hemisphere(a, b), t), trig.sqrt)
    ensures var raw := if LinearBranch(a, b) then QuatMix(a, Hemisphere(a, b), t) else trig.slerp(a, Hemisphere(a, b), t);
      trig.sqrt(Dot(raw, raw)) > 0.0 && trig.sqrt(Dot(raw, raw)) * trig.sqrt(Dot(raw, raw)) == Dot(raw, raw) ==>
        Dot(out, out) == 1.0
  {
    var bb := Hemisphere(a, b);
    var raw := if Dot(a, bb) > LinearThreshold then QuatMix(a, bb, t) else trig.slerp(a, bb, t);
    Renormalize(raw, trig.sqrt)
  }

  /** Blending a unit quaternion with itself takes the linear branch and
      returns it unchanged, for any `t`. */
  lemma QuatBlendSame(a: Quat, t: real, trig: Trig)
    requires Dot(a, a) == 1.0
    requires trig.sqrt(1.0) == 1.0
    ensures LinearBranch(a, a)
    ensures QuatBlend(a, a, t, trig) == a
  {
    assert Hemisphere(a, a) == a;
    assert QuatMix(a, a, t) == a;
    assert Scale(a, 1.0) == a;
  }

  /** At `t == 0` the linear branch returns the (unit) start quaternion. */
  lemma QuatBlendStart(a: Quat, b: Quat, trig: Trig)
    requires Dot(a, a) == 1.0
    requires trig.sqrt(1.0) == 1.0
    requires LinearBranch(a, b)
    ensures QuatBlend(a, b, 0.0, trig) == a
  {
    assert QuatMix(a, Hemisphere(a, b), 0.0) == a;
    assert Scale(a, 1.0) == a;
  }

  /** Dividing a quaternion by a true root of its squared norm gives unit
      length. */
  lemma ScaleByRootIsUnit(q: Quat, n: real)
    requires n > 0.0
    requires n * n == Dot(q, q)
    ensures Dot(Scale(q, 1.0 / n), Scale(q, 1.0 / n)) == 1.0
  {
    var s := 1.0 / n;
    var r := Scale(q, s);
    assert Dot(r, r) == Dot(q, q) * (s * s);
    assert s * s * (n * n) == 1.0;
  }
}
