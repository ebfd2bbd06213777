/**
  The trapezoidal membership function of the fuzzy controller and the
  fuzzy-set record it is evaluated on.
 */
module Membership {

  /** One row of the fuzzy-set table: a set name and its four breakpoints. */
  datatype FuzzySet = FuzzySet(name: string, a: real, b: real, c: real, d: real)

  /** The breakpoints are ordered: ramp up on [a, b], plateau on [b, c], ramp down on [c, d]. */
  predicate WellFormed(s: FuzzySet)
  {
    s.a <= s.b <= s.c <= s.d
  }

  /**
    Degree of membership of `x` in the trapezoid (a, b, c, d), following the
    if/elif chain of the controller. The two "degenerate edge" guards of
    `trapezoid_mf` (`b == a` inside the rising branch, `d == c` inside the falling
    branch) can never be taken: the branch they sit in is empty when the two
    breakpoints coincide, which the `assert false` in each proves. The function
    is total for every choice of breakpoints, ordered or not, and never divides
    by zero.
   */
  function Trapezoid(x: real, a: real, b: real, c: real, d: real): (r: real)
    ensures 0.0 <= r <= 1.0
    ensures x < a ==> r == 0.0
    ensures a <= x && b <= x <= c ==> r == 1.0
  {
    if x < a then 0.0
    else if a <= x < b then
      (if b == a then assert false; 1.0 else RatioInUnit(x - a, b - a); (x - a) / (b - a))
    else if b <= x <= c then 1.0
    else if c < x <= d then
      (if d == c then assert false; 1.0 else RatioInUnit(d - x, d - c); (d - x) / (d - c))
    else 0.0
  }

  /** Degree of membership of `x` in the set `s`. */
  function Degree(x: real, s: FuzzySet): real
  {
    Trapezoid(x, s.a, s.b, s.c, s.d)
  }

  /** Outside the support [a, d] the degree is 0, on the closed plateau [b, c] it is 1. */
  lemma TrapezoidSupport(x: real, a: real, b: real, c: real, d: real)
    requires a <= b <= c <= d
    ensures x < a || x > d ==> Trapezoid(x, a, b, c, d) == 0.0
    ensures b <= x <= c ==> Trapezoid(x, a, b, c, d) == 1.0
    ensures Trapezoid(x, a, b, c, d) > 0.0 ==> a <= x <= d
  {
  }

  /** On the rising edge the degree is (x - a) / (b - a), on the falling edge (d - x) / (d - c). */
  lemma TrapezoidEdges(x: real, a: real, b: real, c: real, d: real)
    requires a <= b <= c <= d
    ensures a <= x < b ==> Trapezoid(x, a, b, c, d) == (x - a) / (b - a)
    ensures c < x <= d ==> Trapezoid(x, a, b, c, d) == (d - x) / (d - c)
  {
  }

  /** A vertical edge counts as inside: with a == b the value at a is 1, with c == d the value at d is 1. */
  lemma TrapezoidDegenerateEdges(a: real, b: real, c: real, d: real)
    requires a <= b <= c <= d
    ensures a == b ==> Trapezoid(a, a, b, c, d) == 1.0
    ensures c == d ==> Trapezoid(d, a, b, c, d) == 1.0
  {
  }

  /** With strictly sloped edges the corners of the support have degree 0 and the plateau ends degree 1. */
  lemma TrapezoidCorners(a: real, b: real, c: real, d: real)
    requires a < b <= c < d
    ensures Trapezoid(a, a, b, c, d) == 0.0
    ensures Trapezoid(b, a, b, c, d) == 1.0
    ensures Trapezoid(c, a, b, c, d) == 1.0
    ensures Trapezoid(d, a, b, c, d) == 0.0
  {
  }

  /** The degree never decreases on the rising edge [a, b]. */
  lemma TrapezoidRising(x: real, y: real, a: real, b: real, c: real, d: real)
    requires a <= b <= c <= d
    requires a <= x <= y <= b
    ensures Trapezoid(x, a, b, c, d) <= Trapezoid(y, a, b, c, d)
  {
    if y < b {
      assert (x - a) / (b - a) <= (y - a) / (b - a) by {
        DivMonotone(x - a, y - a, b - a);
      }
    }
  }

  /** The degree never increases on the falling edge [c, d]. */
  lemma TrapezoidFalling(x: real, y: real, a: real, b: real, c: real, d: real)
    requires a <= b <= c <= d
    requires c <= x <= y <= d
    ensures Trapezoid(x, a, b, c, d) >= Trapezoid(y, a, b, c, d)
  {
    if c < x {
      assert (d - y) / (d - c) <= (d - x) / (d - c) by {
        DivMonotone(d - y, d - x, d - c);
      }
    }
  }

  /** A ratio of a part to a positive whole lies in [0, 1]. */
  lemma RatioInUnit(p: real, w: real)
    requires 0.0 <= p <= w && w > 0.0
    ensures 0.0 <= p / w <= 1.0
  {
    assert p / w * w == p;
  }

  lemma DivMonotone(p: real, q: real, w: real)
    requires p <= q && w > 0.0
    ensures p / w <= q / w
  {
    assert q / w - p / w == (q - p) / w;
  }
}
