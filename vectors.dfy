/**
 * Three-component vectors as three.js `Vector3` uses them, over exact reals
 * instead of IEEE doubles, and the per-frame interpolation `lerp`.
 */
module Vectors {

  datatype Vec3 = Vec3(x: real, y: real, z: real)

  const Zero: Vec3 := Vec3(0.0, 0.0, 0.0)
  const Up: Vec3 := Vec3(0.0, 1.0, 0.0)

  function Add(a: Vec3, b: Vec3): Vec3 {
    Vec3(a.x + b.x, a.y + b.y, a.z + b.z)
  }

  function Sub(a: Vec3, b: Vec3): Vec3 {
    Vec3(a.x - b.x, a.y - b.y, a.z - b.z)
  }

  function Scale(a: Vec3, s: real): Vec3 {
    Vec3(a.x * s, a.y * s, a.z * s)
  }

  /**
   * `Vector3.lerp(t, alpha)`: every coordinate moves by the fraction `alpha`
   * of its distance to `t`. What is left of the gap is `1 - alpha` of it,
   * and a vector already at its target does not move.
   */
  function Lerp(v: Vec3, t: Vec3, alpha: real): (r: Vec3)
    ensures Sub(t, r) == Scale(Sub(t, v), 1.0 - alpha)
    ensures v == t ==> r == v
    ensures alpha == 1.0 ==> r == t
  {
    Vec3(v.x + (t.x - v.x) * alpha, v.y + (t.y - v.y) * alpha, v.z + (t.z - v.z) * alpha)
  }

  function Pow(b: real, n: nat): real {
    if n == 0 then 1.0 else b * Pow(b, n - 1)
  }

  /** The position after `n` frames that each lerp toward the same target. */
  function Settle(v: Vec3, t: Vec3, alpha: real, n: nat): Vec3
    decreases n
  {
    if n == 0 then v else Settle(Lerp(v, t, alpha), t, alpha, n - 1)
  }

  /**
   * After `n` frames toward a fixed target the gap is `(1 - alpha)^n` of the
   * first gap: the smoothing is exponential and counts frames, not time.
   */
  lemma {:induction false} SettleGap(v: Vec3, t: Vec3, alpha: real, n: nat)
    ensures Sub(t, Settle(v, t, alpha, n)) == Scale(Sub(t, v), Pow(1.0 - alpha, n))
    decreases n
  {
    if n > 0 {
      var w := Lerp(v, t, alpha);
      var g, b, p := Sub(t, v), 1.0 - alpha, Pow(1.0 - alpha, n - 1);
      calc {
        Sub(t, Settle(v, t, alpha, n));
        Sub(t, Settle(w, t, alpha, n - 1));
        { SettleGap(w, t, alpha, n - 1); }
        Scale(Sub(t, w), p);
        Scale(Scale(g, b), p);
        { ScaleScale(g, b, p); }
        Scale(g, b * p);
      }
    }
  }

  lemma ScaleScale(g: Vec3, a: real, b: real)
    ensures Scale(Scale(g, a), b) == Scale(g, a * b)
  {
    assert g.x * a * b == g.x * (a * b);
    assert g.y * a * b == g.y * (a * b);
    assert g.z * a * b == g.z * (a * b);
  }

  /** For a damping factor in [0, 1] the remaining fraction `(1 - alpha)^n` lies in [0, 1]. */
  lemma {:induction false} PowUnit(b: real, n: nat)
    requires 0.0 <= b <= 1.0
    ensures 0.0 <= Pow(b, n) <= 1.0
  {
    if n > 0 {
      PowUnit(b, n - 1);
      var p := Pow(b, n - 1);
      assert 0.0 <= b * p;
      assert b * p <= p by {
        assert (1.0 - b) * p >= 0.0;
      }
    }
  }

  /**
   * Vector length and normalisation, which three.js computes with a square
   * root in floating point. The model takes them as given functions.
   */
  datatype Geometry = Geometry(normalize: Vec3 -> Vec3, length: Vec3 -> real)

  /**
   * three.js divides by `length() || 1`, so the zero vector normalises to
   * itself and has length zero.
   */
  predicate FixesZero(g: Geometry) {
    g.normalize(Zero) == Zero && g.length(Zero) == 0.0
  }
}
