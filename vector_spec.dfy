/** Exact arithmetic over component sequences: the vocabulary in which the
    Vector class and the Functions library are specified.

    Components are Dafny `real`s, so sums, differences, products and
    quotients are exact; the IEEE-754 rounding of the Java `double`s is not
    modelled.  The two transcendental library calls the Java code makes are
    not computed: they are supplied as the fields of a `MathLib` value. */
module VectorSpec {

  /** The library calls whose results the model takes as given:
      `sqrt` stands for `Math.sqrt`, and `angle(c1, c2)` for the private
      `Vector.angleBetweenVectors(double[], double[])`, an `acos` of a
      quotient that the model does not evaluate. */
  datatype MathLib = MathLib(sqrt: real -> real, angle: (seq<real>, seq<real>) -> real)
  {
    /** The one fact the model relies on about `Math.sqrt`: on a
        non-negative argument it returns the non-negative square root. */
    ghost predicate Valid()
    {
      forall x: real :: 0.0 <= x ==> 0.0 <= sqrt(x) && sqrt(x) * sqrt(x) == x
    }
  }

  /** Whether `x` holds a whole number, as the components of a vector
      built from integer endpoints do (a unit vector's need not). */
  predicate IsIntegral(x: real)
  {
    x == x.Floor as real
  }

  /** Java's narrowing of a `double` to an `int` (`(int) x`, and the implicit
      cast in `int0 *= x`): the fraction is dropped, rounding toward zero.
      Saturation at the `int` bounds is not modelled. */
  function Trunc(x: real): int
  {
    if 0.0 <= x then x.Floor else -((-x).Floor)
  }

  /** `Trunc` rounds toward zero: it is the whole number nearest `x` on
      the side of zero. */
  lemma TruncBounds(x: real)
    ensures 0.0 <= x ==> 0 <= Trunc(x) && Trunc(x) as real <= x < Trunc(x) as real + 1.0
    ensures x < 0.0 ==> Trunc(x) <= 0 && Trunc(x) as real - 1.0 < x <= Trunc(x) as real
  {
  }

  /** Converting a product of integers to `real` multiplies the converted
      factors. */
  lemma {:induction false} NatMulToReal(i: int, j: nat)
    ensures (i * j) as real == i as real * j as real
  {
    if j > 0 {
      NatMulToReal(i, j - 1);
      assert i * j == i * (j - 1) + i;
      assert i as real * j as real == i as real * (j - 1) as real + i as real;
    }
  }

  lemma IntMulToReal(i: int, j: int)
    ensures (i * j) as real == i as real * j as real
  {
    if j >= 0 {
      NatMulToReal(i, j);
    } else {
      NatMulToReal(i, -j);
      assert i * j == -(i * -j);
      assert i as real * j as real == -(i as real * (-j) as real);
    }
  }

  /** Java's `acc *= x` on an `int` accumulator `acc` and a `double` `x`:
      the product is computed as a double and narrowed back to `int`.  When
      `x` is a whole number the product is one too and the narrowing is
      written as the exact integer product; `MulAssignIsNarrowing` shows
      that both branches are the narrowing of the product. */
  function MulAssign(acc: int, x: real): int
  {
    if IsIntegral(x) then acc * x.Floor else Trunc(acc as real * x)
  }

  /** Multiplying an `int` accumulator by a whole number and narrowing the
      product back loses nothing. */
  lemma MulAssignIntegral(acc: int, x: real)
    requires IsIntegral(x)
    ensures MulAssign(acc, x) as real == acc as real * x
  {
    IntMulToReal(acc, x.Floor);
  }

  /** `MulAssign` is, for every accumulator and factor, the narrowing of
      the exact product. */
  lemma MulAssignIsNarrowing(acc: int, x: real)
    ensures MulAssign(acc, x) == Trunc(acc as real * x)
  {
    if IsIntegral(x) {
      MulAssignIntegral(acc, x);
      var p := acc * x.Floor;
      assert acc as real * x == p as real;
      assert Trunc(p as real) == p;
    }
  }

  /** Converting a sum of three integers to `real` adds the converted
      terms. */
  lemma SumToReal(t0: int, t1: int, t2: int, x0: real, x1: real, x2: real)
    requires t0 as real == x0 && t1 as real == x1 && t2 as real == x2
    ensures (t0 + t1 + t2) as real == x0 + x1 + x2
  {
  }

  /** The sum of the squares of the components, the quantity whose square
      root is a vector's magnitude.  It is accumulated from the front, as
      the loop in `calculateMagnitude` does. */
  function SumSquares(c: seq<real>): (r: real)
    ensures 0.0 <= r
  {
    if c == [] then 0.0
    else SumSquares(c[..|c| - 1]) + c[|c| - 1] * c[|c| - 1]
  }

  /** The real dot product of two sequences of equal length. */
  function Dot(a: seq<real>, b: seq<real>): real
    requires |a| == |b|
  {
    if a == [] then 0.0
    else Dot(a[..|a| - 1], b[..|b| - 1]) + a[|a| - 1] * b[|b| - 1]
  }

  /** `c` with every component multiplied by `s`. */
  function Scale(c: seq<real>, s: real): seq<real>
  {
    seq(|c|, i requires 0 <= i < |c| => c[i] * s)
  }

  /** `c` with every component divided by `d`. */
  function Quotient(c: seq<real>, d: real): seq<real>
    requires d != 0.0
  {
    seq(|c|, i requires 0 <= i < |c| => c[i] / d)
  }

  /** The componentwise difference `a - b`. */
  function Minus(a: seq<real>, b: seq<real>): seq<real>
    requires |a| == |b|
  {
    seq(|a|, i requires 0 <= i < |a| => a[i] - b[i])
  }

  /** `n` zero components, the unwritten tail of a zero-initialised array. */
  function Zeros(n: nat): seq<real>
  {
    seq(n, _ => 0.0)
  }

  /** Every suffix of a run of zeros is a run of zeros. */
  lemma ZeroSuffix(z: seq<real>, n: nat)
    requires n <= |z| && z == Zeros(|z|)
    ensures z[n..] == Zeros(|z| - n)
  {
  }

  /** Whether every operand has a component at index `k`. */
  predicate HasColumn(cs: seq<seq<real>>, k: nat)
  {
    forall i :: 0 <= i < |cs| ==> k < |cs[i]|
  }

  /** The sum of the `k`-th components of all operands, accumulated from
      the first operand to the last, starting from zero. */
  function ColumnSum(cs: seq<seq<real>>, k: nat): real
    requires HasColumn(cs, k)
  {
    if cs == [] then 0.0
    else ColumnSum(cs[..|cs| - 1], k) + cs[|cs| - 1][k]
  }

  /** The product of the `k`-th components of all operands. */
  function ColumnProduct(cs: seq<seq<real>>, k: nat): real
    requires HasColumn(cs, k)
  {
    if cs == [] then 1.0
    else ColumnProduct(cs[..|cs| - 1], k) * cs[|cs| - 1][k]
  }

  /** The number of occurrences of `ch` in `s`. */
  function Count(s: string, ch: char): nat
  {
    if s == [] then 0
    else (if s[0] == ch then 1 else 0) + Count(s[1..], ch)
  }

  /** Summing a column over a concatenation of operand lists is summing
      over each part: addition may be regrouped. */
  lemma {:induction false} ColumnSumAppend(xs: seq<seq<real>>, ys: seq<seq<real>>, k: nat)
    requires HasColumn(xs, k) && HasColumn(ys, k)
    ensures HasColumn(xs + ys, k)
    ensures ColumnSum(xs + ys, k) == ColumnSum(xs, k) + ColumnSum(ys, k)
  {
    if ys == [] {
      assert xs + ys == xs;
    } else {
      var n := |ys| - 1;
      assert (xs + ys)[..|xs + ys| - 1] == xs + ys[..n];
      ColumnSumAppend(xs, ys[..n], k);
    }
  }

  /** Scaling every component by `s` scales the sum of squares by `s * s`;
      hence the magnitude of `s * v` is `|s|` times that of `v`. */
  lemma {:induction false} SumSquaresScale(c: seq<real>, s: real)
    ensures SumSquares(Scale(c, s)) == s * s * SumSquares(c)
  {
    if c != [] {
      var n := |c| - 1;
      ScalePrefix(c, s, n);
      SumSquaresScale(c[..n], s);
      var t := Scale(c, s);
      assert t[n] == c[n] * s;
      calc {
        SumSquares(t);
        SumSquares(t[..n]) + t[n] * t[n];
        s * s * SumSquares(c[..n]) + (c[n] * s) * (c[n] * s);
        s * s * (SumSquares(c[..n]) + c[n] * c[n]);
        s * s * SumSquares(c);
      }
    }
  }

  /** A prefix of a scaled sequence is the scaled prefix. */
  lemma ScalePrefix(c: seq<real>, s: real, n: nat)
    requires n <= |c|
    ensures Scale(c, s)[..n] == Scale(c[..n], s)
  {
    forall i | 0 <= i < n
      ensures Scale(c, s)[..n][i] == Scale(c[..n], s)[i]
    {
    }
  }

  /** Dividing by `d` is scaling by `1 / d`. */
  lemma QuotientIsScale(c: seq<real>, d: real)
    requires d != 0.0
    ensures Quotient(c, d) == Scale(c, 1.0 / d)
  {
    forall i | 0 <= i < |c|
      ensures Quotient(c, d)[i] == Scale(c, 1.0 / d)[i]
    {
      assert c[i] / d == c[i] * (1.0 / d);
    }
  }

  /** Dividing every component by the magnitude `mag` gives a sequence
      whose sum of squares is one. */
  lemma SumSquaresQuotient(c: seq<real>, mag: real)
    requires mag != 0.0 && mag * mag == SumSquares(c)
    ensures SumSquares(Quotient(c, mag)) == 1.0
  {
    var inv := 1.0 / mag;
    QuotientIsScale(c, mag);
    SumSquaresScale(c, inv);
    InverseSquare(mag);
  }

  /** The absolute value. */
  function Abs(x: real): real
  {
    if x < 0.0 then -x else x
  }

  /** Scaling by `s` multiplies the magnitude, the square root of the sum
      of squares, by `|s|`. */
  lemma ScaleMagnitude(c: seq<real>, s: real, m: MathLib)
    requires m.Valid()
    ensures m.sqrt(SumSquares(Scale(c, s))) == Abs(s) * m.sqrt(SumSquares(c))
  {
    SumSquaresScale(c, s);
    ScaleRoot(m, SumSquares(c), SumSquares(Scale(c, s)), s);
  }

  /** The root of `s * s * x` is `|s|` times the root of `x`. */
  lemma ScaleRoot(m: MathLib, x: real, xs: real, s: real)
    requires m.Valid() && 0.0 <= x && xs == s * s * x
    ensures m.sqrt(xs) == Abs(s) * m.sqrt(x)
  {
    var r := m.sqrt(x);
    assert 0.0 <= r && r * r == x;
    AbsSquare(s, r, x);
    SqrtOfSquare(m, xs, Abs(s) * r);
  }

  /** A valid `sqrt` returns the non-negative root it is given. */
  lemma SqrtOfSquare(m: MathLib, x: real, y: real)
    requires m.Valid() && 0.0 <= x && 0.0 <= y && y * y == x
    ensures m.sqrt(x) == y
  {
    assert 0.0 <= m.sqrt(x) && m.sqrt(x) * m.sqrt(x) == x;
    SquareRootUnique(m.sqrt(x), y);
  }

  /** `|s| * r` is a non-negative square root of `s * s * x` when `r` is
      one of `x`. */
  lemma AbsSquare(s: real, r: real, x: real)
    requires 0.0 <= r && r * r == x
    ensures 0.0 <= Abs(s) * r && (Abs(s) * r) * (Abs(s) * r) == s * s * x
  {
    assert Abs(s) * Abs(s) == s * s;
    assert (Abs(s) * r) * (Abs(s) * r) == (Abs(s) * Abs(s)) * (r * r);
  }

  /** Zeros appended to a sequence leave its sum of squares unchanged. */
  lemma {:induction false} SumSquaresPadded(c: seq<real>, n: nat)
    ensures SumSquares(c + Zeros(n)) == SumSquares(c)
  {
    if n > 0 {
      var p := c + Zeros(n);
      assert p[..|p| - 1] == c + Zeros(n - 1);
      SumSquaresPadded(c, n - 1);
    } else {
      assert c + Zeros(0) == c;
    }
  }

  /** The dot product of a sequence with itself is its sum of squares. */
  lemma {:induction false} DotSelf(c: seq<real>)
    ensures Dot(c, c) == SumSquares(c)
  {
    if c != [] {
      DotSelf(c[..|c| - 1]);
    }
  }

  /** The dot product of two three-component sequences, written out. */
  lemma Dot3(a: seq<real>, b: seq<real>)
    requires |a| == 3 && |b| == 3
    ensures Dot(a, b) == a[0] * b[0] + a[1] * b[1] + a[2] * b[2]
  {
    var a2, b2 := a[..2], b[..2];
    var a1, b1 := a2[..1], b2[..1];
    assert a1[..0] == [] && b1[..0] == [];
    assert Dot(a1, b1) == a[0] * b[0];
    assert Dot(a2, b2) == Dot(a1, b1) + a[1] * b[1];
    assert Dot(a, b) == Dot(a2, b2) + a[2] * b[2];
  }

  /** The dot product of two two-component sequences, written out. */
  lemma Dot2(a: seq<real>, b: seq<real>)
    requires |a| == 2 && |b| == 2
    ensures Dot(a, b) == a[0] * b[0] + a[1] * b[1]
  {
    var a1, b1 := a[..1], b[..1];
    assert a1[..0] == [] && b1[..0] == [];
    assert Dot(a1, b1) == a[0] * b[0];
  }

  /** The count of a character in a concatenation adds up. */
  lemma {:induction false} CountAppend(a: string, b: string, ch: char)
    ensures Count(a + b, ch) == Count(a, ch) + Count(b, ch)
  {
    if a == [] {
      assert a + b == b;
    } else {
      assert (a + b)[1..] == a[1..] + b;
      CountAppend(a[1..], b, ch);
    }
  }

  /** A non-negative number has one non-negative square root. */
  lemma SquareRootUnique(r: real, s: real)
    requires 0.0 <= r && 0.0 <= s && r * r == s * s
    ensures r == s
  {
    SquareMonotone(r, s);
    SquareMonotone(s, r);
  }

  /** Squaring is strictly increasing on the non-negative reals. */
  lemma SquareMonotone(r: real, s: real)
    requires 0.0 <= s
    ensures s < r ==> s * s < r * r
  {
    if s < r {
      assert r * r - s * s == (r - s) * (r + s);
      PositiveProduct(r - s, r + s);
    }
  }

  lemma PositiveProduct(x: real, y: real)
    requires 0.0 < x && 0.0 < y
    ensures 0.0 < x * y
  {
  }

  /** The square of `1 / d` times the square of `d` is one. */
  lemma InverseSquare(d: real)
    requires d != 0.0
    ensures (1.0 / d) * (1.0 / d) * (d * d) == 1.0
  {
    var inv := 1.0 / d;
    assert inv * d == 1.0;
    assert inv * inv * (d * d) == (inv * d) * (inv * d);
  }

  /** Dividing two numbers by `d` each and multiplying them is dividing
      their product by `d * d`. */
  lemma DivideTwice(x: real, y: real, d: real)
    requires d != 0.0
    ensures (x / d) * (y / d) == x * (y / (d * d))
  {
    var inv := 1.0 / d;
    assert x / d == x * inv && y / d == y * inv;
    InverseSquare(d);
    assert y / (d * d) == y * (inv * inv);
  }

  /** The square of a non-zero number is positive. */
  lemma SquarePositive(d: real)
    requires d != 0.0
    ensures 0.0 < d * d
  {
    if d < 0.0 {
      PositiveProduct(-d, -d);
    } else {
      PositiveProduct(d, d);
    }
  }

  /** Removing `q` times `b` from `a` lowers the dot product with `b` by
      `q` times the sum of the squares of `b`, written out for three
      components. */
  lemma ResidualDot3(a0: real, a1: real, a2: real, b0: real, b1: real, b2: real, q: real)
    ensures (a0 - b0 * q) * b0 + (a1 - b1 * q) * b1 + (a2 - b2 * q) * b2
         == (a0 * b0 + a1 * b1 + a2 * b2) - q * (b0 * b0 + b1 * b1 + b2 * b2)
  {
  }

  /** Scaling `c / d` by `x / d` is scaling `c` by `x / (d * d)`. */
  lemma ScaleQuotient(c: seq<real>, x: real, d: real)
    requires d != 0.0
    ensures Scale(Quotient(c, d), x / d) == Scale(c, x / (d * d))
  {
    var lhs, rhs := Scale(Quotient(c, d), x / d), Scale(c, x / (d * d));
    forall k | 0 <= k < |c|
      ensures lhs[k] == rhs[k]
    {
      DivideTwice(c[k], x, d);
    }
  }

  /** Removing from `a` its component along `b` leaves a vector orthogonal
      to `b`, for three-component `a` and `b` where `mag`, the length of
      `b`, is not zero. */
  lemma ResidualOrthogonal(a: seq<real>, b: seq<real>, mag: real)
    requires |a| == 3 && |b| == 3 && mag != 0.0 && mag * mag == Dot(b, b)
    ensures Dot(Minus(a, Scale(b, Dot(a, b) / (mag * mag))), b) == 0.0
  {
    SquarePositive(mag);
    var d := Dot(a, b);
    var q := d / (mag * mag);
    var r := Minus(a, Scale(b, q));
    assert |r| == 3 && r[0] == a[0] - b[0] * q && r[1] == a[1] - b[1] * q && r[2] == a[2] - b[2] * q;
    Dot3(a, b);
    Dot3(b, b);
    Dot3(r, b);
    ResidualDot3(a[0], a[1], a[2], b[0], b[1], b[2], q);
    assert q * (mag * mag) == d;
  }

  /** Scaling `c` by its dot product with itself over the square of its
      length gives `c` back. */
  lemma ScaleBySelf(c: seq<real>, mag: real)
    requires mag != 0.0 && mag * mag == Dot(c, c)
    ensures Scale(c, Dot(c, c) / (mag * mag)) == c
  {
    var inv := 1.0 / mag;
    InverseSquare(mag);
    assert Dot(c, c) / (mag * mag) == inv * inv * (mag * mag);
    assert Dot(c, c) / (mag * mag) == 1.0;
    var t := Scale(c, 1.0);
    forall k | 0 <= k < |c|
      ensures t[k] == c[k]
    {
    }
    assert t == c;
  }

  /** `ScaleBySelf` for a magnitude given by the sum of squares. */
  lemma ScaleByNorm(c: seq<real>, mag: real)
    requires mag != 0.0 && mag * mag == SumSquares(c)
    ensures Scale(c, Dot(c, c) / (mag * mag)) == c
  {
    DotSelf(c);
    ScaleBySelf(c, mag);
  }

  /** The square root of one is one, whatever `Math.sqrt` does elsewhere. */
  lemma SqrtOfOne(m: MathLib)
    requires m.Valid()
    ensures m.sqrt(1.0) == 1.0
  {
    SquareRootUnique(m.sqrt(1.0), 1.0);
  }
}
