/**
 * The colour comparator: 8-bit non-premultiplied RGBA colours, the channel
 * distance `delta`, the wrapping four-channel sum `diff`, the strict
 * tolerance test `isSame`, and the quarter-intensity `dim` used by the
 * compositor.
 */
module Colours {

  /** An 8-bit channel value, the range of an unsigned byte. */
  type Byte = n: int | 0 <= n < 256

  /** A non-premultiplied RGBA colour with 8-bit channels. */
  datatype Colour = Colour(r: Byte, g: Byte, b: Byte, a: Byte)

  /** The zero colour, reported by an image for every point outside its bounds. */
  const Transparent: Colour := Colour(0, 0, 0, 0)

  function Abs(n: int): (r: nat)
  {
    if n < 0 then -n else n
  }

  /** Addition of two bytes in unsigned 8-bit arithmetic: the sum wraps modulo 256. */
  function AddByte(p: Byte, q: Byte): (r: Byte)
  {
    (p + q) % 256
  }

  /** The distance between two channel values. */
  function Delta(p: Byte, q: Byte): (d: Byte)
    ensures d == Abs(p - q)
    ensures p == q + d || q == p + d
  {
    if p > q then p - q else q - p
  }

  /** The plain Manhattan distance of two colours over all four channels, without wrap-around. */
  function Manhattan(c1: Colour, c2: Colour): (r: nat)
  {
    Abs(c1.r - c2.r) + Abs(c1.g - c2.g) + Abs(c1.b - c2.b) + Abs(c1.a - c2.a)
  }

  /**
   * The four channel distances added up as bytes. Because every partial sum
   * wraps, the result is the Manhattan distance reduced modulo 256.
   */
  function Diff(c1: Colour, c2: Colour): (d: Byte)
    ensures d == Manhattan(c1, c2) % 256
  {
    var r := Delta(c1.r, c2.r);
    var g := Delta(c1.g, c2.g);
    var b := Delta(c1.b, c2.b);
    var a := Delta(c1.a, c2.a);
    var rg := AddByte(r, g);
    var rgb := AddByte(rg, b);
    assert rgb == (r + g + b) % 256 by {
      WrapLeft(r + g, b);
    }
    assert AddByte(rgb, a) == (r + g + b + a) % 256 by {
      WrapLeft(r + g + b, a);
    }
    AddByte(rgb, a)
  }

  /** Reducing the left summand first does not change a sum modulo 256. */
  lemma WrapLeft(s: nat, t: nat)
    ensures (s % 256 + t) % 256 == (s + t) % 256
  {
    var q := s / 256;
    assert s == 256 * q + s % 256;
    assert s + t == 256 * q + (s % 256 + t);
    ModShift(s % 256 + t, q);
  }

  lemma {:induction false} ModShift(n: nat, q: nat)
    ensures (256 * q + n) % 256 == n % 256
  {
    if q > 0 {
      ModShift(n, q - 1);
      assert 256 * q + n == 256 * (q - 1) + n + 256;
    }
  }

  /** Two colours are "the same" when their wrapped distance is strictly below the tolerance. */
  predicate IsSame(c1: Colour, c2: Colour, tolerance: Byte)
  {
    Diff(c1, c2) < tolerance
  }

  /** The quarter-intensity copy of a colour, alpha kept. */
  function Dim(c: Colour): (r: Colour)
  {
    Colour(c.r / 4, c.g / 4, c.b / 4, c.a)
  }

  /** Dimming keeps alpha and takes each colour channel to a quarter, rounded down. */
  lemma DimChannels(c: Colour)
    ensures Dim(c).a == c.a
    ensures 4 * Dim(c).r <= c.r < 4 * Dim(c).r + 4
    ensures 4 * Dim(c).g <= c.g < 4 * Dim(c).g + 4
    ensures 4 * Dim(c).b <= c.b < 4 * Dim(c).b + 4
  {
  }

  lemma DeltaSymmetric(p: Byte, q: Byte)
    ensures Delta(p, q) == Delta(q, p)
  {
  }

  lemma DiffSymmetric(c1: Colour, c2: Colour)
    ensures Diff(c1, c2) == Diff(c2, c1)
  {
  }

  lemma IsSameSymmetric(c1: Colour, c2: Colour, tolerance: Byte)
    ensures IsSame(c1, c2, tolerance) <==> IsSame(c2, c1, tolerance)
  {
    DiffSymmetric(c1, c2);
  }

  /** The test is strict: a distance equal to the tolerance is not "the same". */
  lemma IsSameStrict(c1: Colour, c2: Colour, tolerance: Byte)
    requires Diff(c1, c2) == tolerance
    ensures !IsSame(c1, c2, tolerance)
  {
  }

  /** A colour is the same as itself exactly when the tolerance is positive. */
  lemma IsSameReflexive(c: Colour, tolerance: Byte)
    ensures IsSame(c, c, tolerance) <==> tolerance > 0
  {
    assert Manhattan(c, c) == 0;
  }

  /** Below the wrap-around point the test is the plain Manhattan-distance test. */
  lemma IsSameWithoutWrap(c1: Colour, c2: Colour, tolerance: Byte)
    requires Manhattan(c1, c2) < 256
    ensures IsSame(c1, c2, tolerance) <==> Manhattan(c1, c2) < tolerance
  {
    var m := Manhattan(c1, c2);
    assert Diff(c1, c2) == m by {
      assert m % 256 == m;
    }
  }

  /**
   * Two opaque colours that differ by 255 in red and 1 in green are 256
   * apart, which wraps to 0: they count as the same under every positive
   * tolerance.
   */
  lemma WrapAroundExample()
    ensures Manhattan(Colour(0, 0, 0, 255), Colour(255, 1, 0, 255)) == 256
    ensures forall t: Byte :: t > 0 ==> IsSame(Colour(0, 0, 0, 255), Colour(255, 1, 0, 255), t)
  {
    var black, red := Colour(0, 0, 0, 255), Colour(255, 1, 0, 255);
    assert Manhattan(black, red) == 256;
    assert Diff(black, red) == 0;
  }

  /** Dimming leaves a colour unchanged exactly when its red, green and blue are all 0. */
  lemma DimFixedPoint(c: Colour)
    ensures Dim(c) == c <==> c.r == 0 && c.g == 0 && c.b == 0
  {
  }

}
