/** The interpolation arithmetic of the unlock animation: linear
    interpolation of scalars and vectors, and the cubic ease-in-out curve,
    all over exact reals. */
module Tweening {

  datatype Vec3 = Vec3(x: real, y: real, z: real)

  function Min(a: real, b: real): (r: real)
    ensures r <= a && r <= b
    ensures r == a || r == b
  {
    if a < b then a else b
  }

  function Abs(x: real): (r: real)
    ensures 0.0 <= r
    ensures r == x || r == -x
  {
    if x < 0.0 then -x else x
  }

  /** Scalar interpolation in the form `(1 - w) * a + w * b`. */
  function Lerp(a: real, b: real, w: real): (r: real)
    ensures w == 0.0 ==> r == a
    ensures w == 1.0 ==> r == b
    ensures 0.0 <= w <= 1.0 && a <= b ==> a <= r <= b
    ensures 0.0 <= w <= 1.0 && b <= a ==> b <= r <= a
  {
    var r := (1.0 - w) * a + w * b;
    assert 0.0 <= w <= 1.0 ==> (a <= b ==> a <= r <= b) && (b <= a ==> b <= r <= a) by {
      if 0.0 <= w <= 1.0 {
        LerpBounds(a, b, w, r);
      }
    }
    r
  }

  lemma LerpBounds(a: real, b: real, w: real, r: real)
    requires 0.0 <= w <= 1.0 && r == (1.0 - w) * a + w * b
    ensures a <= b ==> a <= r <= b
    ensures b <= a ==> b <= r <= a
  {
    LerpShift(a, b, w);
    var d := b - a;
    var k := w * d;
    assert r == a + k;
    if a <= b {
      ScaleUnit(w, d);
    } else {
      var nd := a - b;
      ScaleUnit(w, nd);
      NegateFactor(w, nd);
      assert nd == -d;
    }
  }

  lemma LerpShift(a: real, b: real, w: real)
    ensures (1.0 - w) * a + w * b == a + w * (b - a)
  {
  }

  lemma NegateFactor(w: real, d: real)
    ensures w * -d == -(w * d)
    ensures w * (-d) == -(w * d)
  {
  }

  /** A weight in [0, 1] scales a non-negative amount to at most itself. */
  lemma ScaleUnit(w: real, d: real)
    requires 0.0 <= w <= 1.0 && 0.0 <= d
    ensures 0.0 <= w * d <= d
  {
    assert 0.0 <= w * d;
    assert d - w * d == (1.0 - w) * d;
    assert 0.0 <= (1.0 - w) * d;
  }

  /** Vector interpolation, component by component, in the form
      `a + (b - a) * w`. */
  function LerpVec(a: Vec3, b: Vec3, w: real): (r: Vec3)
    ensures w == 0.0 ==> r == a
    ensures w == 1.0 ==> r == b
    ensures r.x == Lerp(a.x, b.x, w) && r.y == Lerp(a.y, b.y, w) && r.z == Lerp(a.z, b.z, w)
  {
    Vec3(a.x + (b.x - a.x) * w, a.y + (b.y - a.y) * w, a.z + (b.z - a.z) * w)
  }

  function Cube(x: real): (c: real)
  {
    x * x * x
  }

  /** Standard ease-in-out cubic: `4t^3` on the first half of the run,
      `1 - (2 - 2t)^3 / 2` on the second. */
  function Ease(t: real): (e: real)
    ensures t == 0.0 ==> e == 0.0
    ensures t == 1.0 ==> e == 1.0
    ensures t == 0.5 ==> e == 0.5
    ensures 0.0 <= t <= 1.0 ==> 0.0 <= e <= 1.0
  {
    var e := if t < 0.5 then 4.0 * Cube(t) else 1.0 - Cube(-2.0 * t + 2.0) / 2.0;
    assert 0.0 <= t <= 1.0 ==> 0.0 <= e <= 1.0 by {
      if 0.0 <= t < 0.5 {
        CubeMonotone(t, 0.5);
        CubeMonotone(0.0, t);
      } else if 0.5 <= t <= 1.0 {
        CubeMonotone(-2.0 * t + 2.0, 1.0);
        CubeMonotone(0.0, -2.0 * t + 2.0);
      }
    }
    e
  }

  /** Multiplying by a non-negative factor keeps the order of two reals. */
  lemma MulMono(c: real, x: real, y: real)
    requires 0.0 <= c && x <= y
    ensures c * x <= c * y
  {
    assert 0.0 <= c * (y - x);
    assert c * y - c * x == c * (y - x);
  }

  lemma MulMonoRight(x: real, y: real, c: real)
    requires 0.0 <= c && x <= y
    ensures x * c <= y * c
  {
    MulMono(c, x, y);
    assert x * c == c * x && y * c == c * y;
  }

  lemma CubeMonotone(a: real, b: real)
    requires 0.0 <= a <= b
    ensures Cube(a) <= Cube(b)
  {
    assert a * a <= b * b by {
      assert a * a <= a * b;
      assert a * b <= b * b;
    }
    assert a * a * a <= b * b * a;
    assert b * b * a <= b * b * b;
  }

  /** Both halves of the curve meet at the midpoint, so the curve is
      continuous there. */
  lemma EaseBranchesMeet()
    ensures 4.0 * Cube(0.5) == 0.5
    ensures 1.0 - Cube(-2.0 * 0.5 + 2.0) / 2.0 == 0.5
  {
  }

  /** The eased progress never goes backwards on [0, 1]. */
  lemma EaseMonotone(t1: real, t2: real)
    requires 0.0 <= t1 <= t2 <= 1.0
    ensures Ease(t1) <= Ease(t2)
  {
    if t2 < 0.5 {
      CubeMonotone(t1, t2);
    } else if t1 < 0.5 {
      CubeMonotone(t1, 0.5);
      CubeMonotone(-2.0 * t2 + 2.0, 1.0);
    } else {
      CubeMonotone(-2.0 * t2 + 2.0, -2.0 * t1 + 2.0);
    }
  }

  /** Moving the weight toward 1 never moves an interpolated value away from
      its target `b`. */
  lemma LerpApproaches(a: real, b: real, w1: real, w2: real)
    requires 0.0 <= w1 <= w2 <= 1.0
    ensures Abs(Lerp(a, b, w2) - b) <= Abs(Lerp(a, b, w1) - b)
  {
    LerpFromEnd(a, b, w1);
    LerpFromEnd(a, b, w2);
    ShrinkToward(1.0 - w1, 1.0 - w2, a - b);
  }

  /** A smaller non-negative factor gives a product no larger in size. */
  lemma ShrinkToward(u1: real, u2: real, d: real)
    requires 0.0 <= u2 <= u1
    ensures Abs(u2 * d) <= Abs(u1 * d)
  {
    AbsScale(u1, d);
    AbsScale(u2, d);
    var m := Abs(d);
    MulMonoRight(u2, u1, m);
  }

  lemma AbsScale(u: real, d: real)
    requires 0.0 <= u
    ensures Abs(u * d) == u * Abs(d)
  {
    if d < 0.0 {
      NegateFactor(u, d);
      MulMono(u, d, 0.0);
    } else {
      MulMono(u, 0.0, d);
    }
  }

  /** The distance of an interpolated value from its target `b`. */
  lemma LerpFromEnd(a: real, b: real, w: real)
    ensures Lerp(a, b, w) - b == (1.0 - w) * (a - b)
  {
    assert (1.0 - w) * a + w * b - b == (1.0 - w) * (a - b);
  }
}
