/** Angle arithmetic shared by the coordinate transform and the rise/set solver: degree and
    radian conversion, the trigonometric functions as an abstract parameter, Python's float
    `%`, and the clamp used before an inverse cosine. */
module Angles {

  /** `math.pi`. */
  const Pi: real := 3.141592653589793

  /** `math.radians`, `degrees_to_radians`. */
  function Radians(degrees: real): real {
    degrees * Pi / 180.0
  }

  /** `math.degrees`, `radians_to_degrees`. */
  function Degrees(radians: real): real {
    radians * 180.0 / Pi
  }

  /** The functions of Python's `math` module that the engine calls, taking and giving
      radians. Their accuracy is not modelled; only the facts in WellBehaved are. */
  datatype TrigFunctions = TrigFunctions(
    sin: real -> real,
    cos: real -> real,
    asin: real -> real,
    acos: real -> real)

  /** The facts the engine relies on: the ranges of the inverse functions, and that no
      floating-point cosine is ever exactly zero (no double is an odd multiple of pi/2), so the
      engine's divisions by products of cosines never divide by zero. */
  ghost predicate WellBehaved(t: TrigFunctions) {
    && (forall x :: t.cos(x) != 0.0)
    && (forall y :: -Pi / 2.0 <= t.asin(y) <= Pi / 2.0)
    && (forall y :: -1.0 <= y <= 1.0 ==> 0.0 <= t.acos(y) <= Pi)
  }

  /** Sine is odd and cosine even, stated for pairs of opposite arguments; only the mirror
      symmetry of the rise/set regimes needs it. */
  ghost predicate HasParity(t: TrigFunctions) {
    && (forall x, y :: x + y == 0.0 ==> t.sin(x) == -t.sin(y))
    && (forall x, y :: x + y == 0.0 ==> t.cos(x) == t.cos(y))
  }

  type Trig = t: TrigFunctions | WellBehaved(t)
    witness TrigFunctions(x => 0.0, x => 1.0, y => 0.0, y => 0.0)

  /** An arcsine, in degrees, lies in [-90, 90]. */
  lemma AsinDegrees(trig: Trig, y: real)
    ensures -90.0 <= Degrees(trig.asin(y)) <= 90.0
  {
    var a := trig.asin(y);
    assert -Pi / 2.0 <= a <= Pi / 2.0;
    assert Degrees(a) == a * (180.0 / Pi);
  }

  /** An arccosine of a value in [-1, 1], in degrees, lies in [0, 180]. */
  lemma AcosDegrees(trig: Trig, y: real)
    requires -1.0 <= y <= 1.0
    ensures 0.0 <= Degrees(trig.acos(y)) <= 180.0
  {
    var a := trig.acos(y);
    assert 0.0 <= a <= Pi;
    assert Degrees(a) == a * (180.0 / Pi);
  }

  lemma NonzeroProduct(a: real, b: real)
    requires a != 0.0 && b != 0.0
    ensures a * b != 0.0
  {
  }

  function Abs(x: real): real {
    if x < 0.0 then -x else x
  }

  function Max(a: real, b: real): real {
    if a >= b then a else b
  }

  function Min(a: real, b: real): real {
    if a <= b then a else b
  }

  /** `max(-1.0, min(1.0, x))`: the nearest point of [-1, 1]. */
  function Clamp(x: real): (r: real)
    ensures -1.0 <= r <= 1.0
    ensures -1.0 <= x <= 1.0 ==> r == x
    ensures x < -1.0 ==> r == -1.0
    ensures x > 1.0 ==> r == 1.0
  {
    Max(-1.0, Min(1.0, x))
  }

  lemma PositiveProduct(a: real, b: real)
    requires a > 0.0 && b > 0.0
    ensures a * b > 0.0
  {
  }

  lemma FloorModBounds(x: real, m: real, q: real, f: real)
    requires m > 0.0 && f <= q < f + 1.0 && m * q == x
    ensures 0.0 <= x - m * f < m
  {
    var d := q - f;
    assert x - m * f == m * d;
    PositiveProduct(m, 1.0 - d);
    assert m * (1.0 - d) == m - m * d;
    if d > 0.0 { PositiveProduct(m, d); }
  }

  /** q is an integer. */
  predicate IsWhole(q: real) {
    q.Floor as real == q
  }

  lemma WholeQuotient(k: int, m: real)
    requires m > 0.0
    ensures IsWhole((m * (k as real)) / m)
  {
    assert (m * (k as real)) / m == k as real;
  }

  /** Python's `x % m` for floats and m > 0: the remainder takes the sign of m and differs
      from x by a whole number of m's. */
  function FloorMod(x: real, m: real): (r: real)
    requires m > 0.0
    ensures 0.0 <= r < m
    ensures IsWhole((x - r) / m)
  {
    var q := x / m;
    var k := q.Floor;
    FloorModBounds(x, m, q, k as real);
    WholeQuotient(k, m);
    x - m * (k as real)
  }

  lemma FloorOfWhole(n: int)
    ensures IsWhole(n as real) && (n as real).Floor == n
  {
  }

  lemma WholeAdd(a: real, b: real)
    requires IsWhole(a) && IsWhole(b)
    ensures IsWhole(a + b) && IsWhole(-a)
  {
    var i, j := a.Floor, b.Floor;
    assert a + b == (i + j) as real;
    assert -a == (-i) as real;
    FloorOfWhole(i + j);
    FloorOfWhole(-i);
  }
}
