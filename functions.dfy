/** The static vector-algebra library `vectorVisualizer.math.Functions`.

    Every operation reads the component arrays of its operands through
    `getComponents` and, where it returns a vector, fills a fresh local
    array and wraps it in a new `Vector` (so the result is initialised:
    type tag, magnitude and direction are set).  Three quirks of the source
    are kept:
    - in `addition`, `subtraction` and the `Vector` overloads of `dProduct`
      the `if` that should guard the z-component update ends in a stray `;`,
      so the update always runs and every operand needs three components;
    - `subtraction` starts from zero and so negates the first operand too;
    - `dProduct` keeps running products, not sums, in `int` accumulators and
      narrows to `int` after every multiplication. */
module Functions {
  import opened VectorSpec
  import opened Vectors

  /** Every operand has a component array with at least `n` entries. */
  ghost predicate HaveComponents(vs: seq<Vector>, n: nat)
    reads set i | 0 <= i < |vs| :: vs[i]
  {
    forall i :: 0 <= i < |vs| ==> vs[i].components != null && n <= vs[i].components.Length
  }

  /** The component sequences of the operands, in order. */
  ghost function Operands(vs: seq<Vector>): (cs: seq<seq<real>>)
    requires HaveComponents(vs, 0)
    reads set i | 0 <= i < |vs| :: vs[i], set i | 0 <= i < |vs| :: vs[i].components
    ensures |cs| == |vs|
    ensures forall i :: 0 <= i < |vs| ==> cs[i] == vs[i].components[..]
  {
    if vs == [] then []
    else Operands(vs[..|vs| - 1]) + [vs[|vs| - 1].components[..]]
  }

  /** The first three column sums of the operands. */
  function Sum3(cs: seq<seq<real>>): seq<real>
    requires HasColumn(cs, 2)
  {
    [ColumnSum(cs, 0), ColumnSum(cs, 1), ColumnSum(cs, 2)]
  }

  /** Taking one more operand into the sums adds its first three components. */
  lemma Sum3Step(cs: seq<seq<real>>, i: nat)
    requires i < |cs| && HasColumn(cs, 2)
    ensures HasColumn(cs[..i + 1], 2) && HasColumn(cs[..i], 2)
    ensures Sum3(cs[..i + 1]) == [Sum3(cs[..i])[0] + cs[i][0], Sum3(cs[..i])[1] + cs[i][1], Sum3(cs[..i])[2] + cs[i][2]]
  {
    assert cs[..i + 1][..i] == cs[..i];
  }

  /** The loop of `addition`: a fresh array of three running sums over the
      operands' first three components. */
  method ColumnSums(vs: seq<Vector>, ghost cs: seq<seq<real>>) returns (comps: array<real>)
    requires HaveComponents(vs, 3) && cs == Operands(vs)
    ensures fresh(comps) && comps[..] == Sum3(cs)
  {
    comps := new real[3][0.0, 0.0, 0.0];
    for i := 0 to |vs|
      invariant comps[..] == Sum3(cs[..i])
    {
      Sum3Step(cs, i);
      var c := vs[i].GetComponents();
      comps[0] := comps[0] + c[0];
      comps[1] := comps[1] + c[1];
      // `if (vector.getType() == VectorType.threeD);` guards nothing.
      comps[2] := comps[2] + c[2];
    }
    assert cs[..|vs|] == cs;
  }

  /** `addition`: the componentwise sum of the operands' first three
      components, starting from zero, always as a three-dimensional
      vector; no operands give the zero vector. */
  method Addition(vs: seq<Vector>, m: MathLib) returns (r: Vector)
    requires HaveComponents(vs, 3)
    ensures fresh(r) && fresh(r.components) && r.Initialized(m) && r.vtype == Some(ThreeD)
    ensures r.Components() == Sum3(Operands(vs))
    ensures vs == [] ==> r.Components() == [0.0, 0.0, 0.0]
  {
    ghost var cs := Operands(vs);
    var comps := ColumnSums(vs, cs);
    r := new Vector.FromComponents(comps, m);
    assert HaveComponents(vs, 3) && Operands(vs) == cs;
    assert r.Components() == Sum3(cs);
  }

  /** The loop of `subtraction`: a fresh array of three running
      differences, starting from zero, over the operands' first three
      components. */
  method ColumnDifferences(vs: seq<Vector>, ghost cs: seq<seq<real>>) returns (comps: array<real>)
    requires HaveComponents(vs, 3) && cs == Operands(vs)
    ensures fresh(comps) && comps[..] == Scale(Sum3(cs), -1.0)
  {
    comps := new real[3][0.0, 0.0, 0.0];
    for i := 0 to |vs|
      invariant comps[0] == -ColumnSum(cs[..i], 0)
      invariant comps[1] == -ColumnSum(cs[..i], 1)
      invariant comps[2] == -ColumnSum(cs[..i], 2)
    {
      Sum3Step(cs, i);
      var c := vs[i].GetComponents();
      comps[0] := comps[0] - c[0];
      comps[1] := comps[1] - c[1];
      // `if (vector.getType() == VectorType.threeD);` guards nothing.
      comps[2] := comps[2] - c[2];
    }
    assert cs[..|vs|] == cs;
  }

  /** `subtraction`: starting from zero, every operand is subtracted, so
      the result is the negated componentwise sum `-v1 - v2 - ...`, first
      operand included, always as a three-dimensional vector. */
  method Subtraction(vs: seq<Vector>, m: MathLib) returns (r: Vector)
    requires HaveComponents(vs, 3)
    ensures fresh(r) && fresh(r.components) && r.Initialized(m) && r.vtype == Some(ThreeD)
    ensures r.Components() == Scale(Sum3(Operands(vs)), -1.0)
  {
    ghost var cs := Operands(vs);
    var comps := ColumnDifferences(vs, cs);
    r := new Vector.FromComponents(comps, m);
    assert HaveComponents(vs, 3) && Operands(vs) == cs;
    assert r.Components() == Scale(Sum3(cs), -1.0);
  }

  /** The loop of `scalarMult`: every entry of `c` times `scalar` is
      written to the same index of `out`; the entries of `out` beyond `c`'s
      length are left alone. */
  method ScaleInto(c: array<real>, scalar: real, out: array<real>)
    requires c != out && c.Length <= out.Length
    modifies out
    ensures out[..] == Scale(c[..], scalar) + old(out[c.Length..])
  {
    for i := 0 to c.Length
      invariant forall j :: 0 <= j < i ==> out[j] == c[j] * scalar
      invariant forall j :: i <= j < out.Length ==> out[j] == old(out[j])
    {
      out[i] := c[i] * scalar;
    }
    assert out[..] == Scale(c[..], scalar) + old(out[c.Length..]) by {
      forall j | 0 <= j < out.Length
        ensures out[j] == (Scale(c[..], scalar) + old(out[c.Length..]))[j]
      {
      }
    }
  }

  /** The loop of `unitVector`: every entry of `c` divided by `d` is
      written to the same index of `out`; the entries of `out` beyond `c`'s
      length are left alone. */
  method DivideInto(c: array<real>, d: real, out: array<real>)
    requires c != out && c.Length <= out.Length && d != 0.0
    modifies out
    ensures out[..] == Quotient(c[..], d) + old(out[c.Length..])
  {
    for i := 0 to c.Length
      invariant forall j :: 0 <= j < i ==> out[j] == c[j] / d
      invariant forall j :: i <= j < out.Length ==> out[j] == old(out[j])
    {
      out[i] := c[i] / d;
    }
    assert out[..] == Quotient(c[..], d) + old(out[c.Length..]) by {
      forall j | 0 <= j < out.Length
        ensures out[j] == (Quotient(c[..], d) + old(out[c.Length..]))[j]
      {
      }
    }
  }

  /** A fresh array of two zeros, or of three when `v` is three-dimensional,
      as `scalarMult` and `unitVector` allocate it. */
  method ZeroArray(v: Vector) returns (a: array<real>)
    ensures fresh(a) && a.Length == Width(v.vtype) && a[..] == Zeros(a.Length)
  {
    a := new real[2][0.0, 0.0];
    if v.GetType() == Some(ThreeD) {
      a := new real[3][0.0, 0.0, 0.0];
    }
  }

  /** `scalarMult`: a new array of two components, or three when `v` is
      three-dimensional, whose first entries are `v`'s components times
      `scalar`; entries beyond `v`'s own components stay zero. */
  method ScalarMult(v: Vector, scalar: real, m: MathLib) returns (r: Vector)
    requires v.components != null && v.components.Length <= Width(v.vtype)
    ensures fresh(r) && fresh(r.components) && r.Initialized(m)
    ensures r.Components() == Scale(v.Components(), scalar) + Zeros(Width(v.vtype) - v.components.Length)
  {
    var components := ZeroArray(v);
    var c := v.GetComponents();
    ZeroSuffix(components[..], c.Length);
    ScaleInto(c, scalar, components);
    r := new Vector.FromComponents(components, m);
  }

  /** `unitVector`: as `ScalarMult`, but each component is divided by the
      stored magnitude, which must not be zero. */
  method UnitVector(v: Vector, m: MathLib) returns (r: Vector)
    requires v.components != null && v.components.Length <= Width(v.vtype)
    requires v.magnitude != 0.0
    ensures fresh(r) && fresh(r.components) && r.Initialized(m)
    ensures r.Components() == Quotient(v.Components(), v.magnitude) + Zeros(Width(v.vtype) - v.components.Length)
  {
    var components := ZeroArray(v);
    var c := v.GetComponents();
    ZeroSuffix(components[..], c.Length);
    DivideInto(c, v.GetMagnitude(), components);
    r := new Vector.FromComponents(components, m);
  }

  /** The value of one `int` accumulator of `dProduct`: starting from
      `start`, the `k`-th component of each operand in turn is multiplied
      in, and the product is narrowed to `int` after every step. */
  function TruncatedProduct(start: int, cs: seq<seq<real>>, k: nat): int
    requires HasColumn(cs, k)
  {
    if cs == [] then start
    else MulAssign(TruncatedProduct(start, cs[..|cs| - 1], k), cs[|cs| - 1][k])
  }

  /** The z accumulator of the `double[]` overload of `dProduct`, where the
      `if (c.length == 3)` guard has no stray `;`: only operands with exactly
      three components are multiplied in. */
  function GuardedProduct(start: int, cs: seq<seq<real>>): int
  {
    if cs == [] then start
    else
      var acc := GuardedProduct(start, cs[..|cs| - 1]);
      var c := cs[|cs| - 1];
      if |c| == 3 then MulAssign(acc, c[2]) else acc
  }

  /** What the `Vector` overloads of `dProduct` return for operands `cs`:
      the x and y accumulators start at 1, the z accumulator at 1 only when
      the first operand has exactly three components, and the three are
      added at the end. */
  function DProductValue(cs: seq<seq<real>>): int
    requires 1 <= |cs| && HasColumn(cs, 2)
  {
    TruncatedProduct(1, cs, 0) + TruncatedProduct(1, cs, 1)
      + TruncatedProduct(if |cs[0]| == 3 then 1 else 0, cs, 2)
  }

  /** `dProduct(Vector... v1)`. */
  method DProduct(v1: seq<Vector>) returns (r: int)
    requires 1 <= |v1| && HaveComponents(v1, 3)
    ensures r == DProductValue(Operands(v1))
  {
    ghost var cs := Operands(v1);
    var int0, int1, int2 := 1, 1, 0;
    if v1[0].GetComponents().Length == 3 {
      int2 := 1;
    }
    ghost var start2 := int2;
    for i := 0 to |v1|
      invariant int0 == TruncatedProduct(1, cs[..i], 0)
      invariant int1 == TruncatedProduct(1, cs[..i], 1)
      invariant int2 == TruncatedProduct(start2, cs[..i], 2)
    {
      assert cs[..i + 1][..i] == cs[..i];
      var c := v1[i].GetComponents();
      int0 := MulAssign(int0, c[0]);
      int1 := MulAssign(int1, c[1]);
      // `if (vector.getType() == VectorType.threeD);` guards nothing.
      int2 := MulAssign(int2, c[2]);
    }
    assert cs[..|v1|] == cs;
    r := int0 + int1 + int2;
  }

  /** `dProduct(ArrayList<Vector> vectors)`: the same computation over a
      list, so it agrees with `DProduct` on the same operands. */
  method DProductList(vectors: seq<Vector>) returns (r: int)
    requires 1 <= |vectors| && HaveComponents(vectors, 3)
    ensures r == DProductValue(Operands(vectors))
  {
    ghost var cs := Operands(vectors);
    var int0, int1, int2 := 1, 1, 0;
    if vectors[0].GetComponents().Length == 3 {
      int2 := 1;
    }
    ghost var start2 := int2;
    var i := 0;
    while i < |vectors|
      invariant 0 <= i <= |vectors|
      invariant int0 == TruncatedProduct(1, cs[..i], 0)
      invariant int1 == TruncatedProduct(1, cs[..i], 1)
      invariant int2 == TruncatedProduct(start2, cs[..i], 2)
    {
      assert cs[..i + 1][..i] == cs[..i];
      var c := vectors[i].GetComponents();
      int0 := MulAssign(int0, c[0]);
      int1 := MulAssign(int1, c[1]);
      // `if (vector.getType() == VectorType.threeD);` guards nothing.
      int2 := MulAssign(int2, c[2]);
      i := i + 1;
    }
    assert cs[..|vectors|] == cs;
    r := int0 + int1 + int2;
  }

  /** What the `double[]` overload of `dProduct` returns for operands `cs`. */
  function DProductComponentsValue(cs: seq<seq<real>>): int
    requires 1 <= |cs| && HasColumn(cs, 1)
  {
    TruncatedProduct(1, cs, 0) + TruncatedProduct(1, cs, 1)
      + GuardedProduct(if |cs[0]| == 3 then 1 else 0, cs)
  }

  /** `dProduct(double[]... c1)`: as `DProduct`, but over bare component
      arrays, and the z component is multiplied in only for operands with
      exactly three components, so two components each suffice. */
  method DProductComponents(c1: seq<seq<real>>) returns (r: int)
    requires 1 <= |c1| && HasColumn(c1, 1)
    ensures r == DProductComponentsValue(c1)
  {
    var int0, int1, int2 := 1, 1, 0;
    if |c1[0]| == 3 {
      int2 := 1;
    }
    ghost var start2 := int2;
    for i := 0 to |c1|
      invariant int0 == TruncatedProduct(1, c1[..i], 0)
      invariant int1 == TruncatedProduct(1, c1[..i], 1)
      invariant int2 == GuardedProduct(start2, c1[..i])
    {
      assert c1[..i + 1][..i] == c1[..i];
      var c := c1[i];
      int0 := MulAssign(int0, c[0]);
      int1 := MulAssign(int1, c[1]);
      if |c| == 3 {
        int2 := MulAssign(int2, c[2]);
      }
    }
    assert c1[..|c1|] == c1;
    r := int0 + int1 + int2;
  }

  /** `determinant` of the 2x2 matrix whose rows are `arr[0]` and `arr[1]`
      (only their first two entries are read).  A matrix with two equal
      rows, or a zero row, is singular. */
  function Determinant(arr: seq<seq<real>>): (r: real)
    requires |arr| >= 2 && |arr[0]| >= 2 && |arr[1]| >= 2
    ensures arr[0][..2] == arr[1][..2] ==> r == 0.0
    ensures arr[0][0] == 0.0 && arr[0][1] == 0.0 ==> r == 0.0
  {
    (arr[0][0] * arr[1][1]) - (arr[0][1] * arr[1][0])
  }

  /** The components `cProduct` computes from the first three components of
      `a` and `b`: three 2x2 determinants, the middle one negated. */
  function Cross(a: seq<real>, b: seq<real>): seq<real>
    requires |a| >= 3 && |b| >= 3
  {
    [ Determinant([[a[1], a[2]], [b[1], b[2]]]),
      -Determinant([[a[0], a[2]], [b[0], b[2]]]),
      Determinant([[a[0], a[1]], [b[0], b[1]]]) ]
  }

  /** `cProduct`: the cross product of the first three components of `v1`
      and `v2`, always as a three-dimensional vector.  (The source first
      builds a throw-away zero vector; that allocation is not modelled.) */
  method CProduct(v1: Vector, v2: Vector, m: MathLib) returns (r: Vector)
    requires v1.components != null && 3 <= v1.components.Length
    requires v2.components != null && 3 <= v2.components.Length
    ensures fresh(r) && fresh(r.components) && r.Initialized(m) && r.vtype == Some(ThreeD)
    ensures r.Components() == Cross(v1.Components(), v2.Components())
  {
    var a, b := v1.GetComponents(), v2.GetComponents();
    var components := new real[3][0.0, 0.0, 0.0];
    var det1 := [[a[1], a[2]], [b[1], b[2]]];
    var det2 := [[a[0], a[2]], [b[0], b[2]]];
    var det3 := [[a[0], a[1]], [b[0], b[1]]];
    components[0] := Determinant(det1);
    components[1] := -Determinant(det2);
    components[2] := Determinant(det3);
    r := new Vector.FromComponents(components, m);
  }

  /** What `comp` returns for operand components `a` and `b` and a stored
      magnitude `mag` of `b`: the narrowed `dProduct` over `mag`. */
  function CompValue(a: seq<real>, b: seq<real>, mag: real): real
    requires |a| >= 3 && |b| >= 3 && mag != 0.0
  {
    DProductValue([a, b]) as real / mag
  }

  /** `comp`: the scalar projection of `v1` onto `v2`, the (narrowed) dot
      product divided by `v2`'s stored magnitude, which must not be zero. */
  method Comp(v1: Vector, v2: Vector) returns (r: real)
    requires v1.components != null && 3 <= v1.components.Length
    requires v2.components != null && 3 <= v2.components.Length
    requires v2.magnitude != 0.0
    ensures r == CompValue(v1.Components(), v2.Components(), v2.magnitude)
  {
    var d := DProduct([v1, v2]);
    assert Operands([v1, v2]) == [v1.Components(), v2.Components()];
    r := d as real / v2.GetMagnitude();
  }

  /** The components `proj` returns for a second operand `b` of magnitude
      `mag` and a scalar projection `comp`: the unit vector of `b` scaled
      by `comp`. */
  function Projection(b: seq<real>, comp: real, mag: real): seq<real>
    requires mag != 0.0
  {
    Scale(Quotient(b, mag), comp)
  }

  /** `proj`: the vector projection of `v1` onto `v2`, `scalarMult(
      unitVector(v2), comp(v1, v2))`.  `comp` needs three components and
      `unitVector` no more than the type allows, so `v2` is a
      three-dimensional vector with exactly three components. */
  method Proj(v1: Vector, v2: Vector, m: MathLib) returns (r: Vector)
    requires v1.components != null && 3 <= v1.components.Length
    requires v2.components != null && v2.components.Length == 3 && v2.vtype == Some(ThreeD)
    requires v2.magnitude != 0.0
    ensures fresh(r) && fresh(r.components) && r.Initialized(m)
    ensures r.Components()
         == Projection(v2.Components(), CompValue(v1.Components(), v2.Components(), v2.magnitude), v2.magnitude)
  {
    var u := UnitVector(v2, m);
    var c := Comp(v1, v2);
    ghost var unit := Quotient(v2.Components(), v2.magnitude);
    assert u.Components() == unit by {
      assert unit + Zeros(0) == unit;
    }
    r := ScalarMult(u, c, m);
    assert r.Components() == Scale(unit, c) by {
      assert Scale(unit, c) + Zeros(0) == Scale(unit, c);
    }
  }

  // Properties of the library's results.

  /** Summing a list of operands in two parts and adding the partial sums
      gives the sum of the whole list. */
  lemma AdditionRegroups(xs: seq<seq<real>>, ys: seq<seq<real>>)
    requires HasColumn(xs, 2) && HasColumn(ys, 2)
    ensures HasColumn(xs + ys, 2)
    ensures Sum3(xs + ys) == [Sum3(xs)[0] + Sum3(ys)[0], Sum3(xs)[1] + Sum3(ys)[1], Sum3(xs)[2] + Sum3(ys)[2]]
  {
    ColumnSumAppend(xs, ys, 0);
    ColumnSumAppend(xs, ys, 1);
    ColumnSumAppend(xs, ys, 2);
  }

  /** `subtraction` of a single vector negates it rather than returning it. */
  lemma SubtractionOfOneNegates(a: seq<real>)
    requires |a| >= 3
    ensures Scale(Sum3([a]), -1.0) == [-a[0], -a[1], -a[2]]
  {
    assert [a][..0] == [];
    forall k | 0 <= k < 3
      ensures Scale(Sum3([a]), -1.0)[k] == -a[k]
    {
      assert ColumnSum([a], k) == 0.0 + a[k];
    }
  }

  /** While every factor is a whole number, an `int` accumulator started
      at 1 loses nothing to narrowing: it holds the exact product. */
  lemma {:induction false} TruncatedProductOfIntegers(cs: seq<seq<real>>, k: nat)
    requires HasColumn(cs, k)
    requires forall i :: 0 <= i < |cs| ==> IsIntegral(cs[i][k])
    ensures TruncatedProduct(1, cs, k) as real == ColumnProduct(cs, k)
  {
    if cs != [] {
      var n := |cs| - 1;
      TruncatedProductOfIntegers(cs[..n], k);
      var acc := TruncatedProduct(1, cs[..n], k);
      var x := cs[n][k];
      assert TruncatedProduct(1, cs, k) == MulAssign(acc, x);
      MulAssignIntegral(acc, x);
    }
  }

  /** An accumulator started at 0 stays 0, whatever the factors. */
  lemma {:induction false} TruncatedProductOfZero(cs: seq<seq<real>>, k: nat)
    requires HasColumn(cs, k)
    ensures TruncatedProduct(0, cs, k) == 0
  {
    if cs != [] {
      TruncatedProductOfZero(cs[..|cs| - 1], k);
      assert 0.0 * cs[|cs| - 1][k] == 0.0;
    }
  }

  /** The column products of two operands. */
  lemma ColumnProductOfPair(a: seq<real>, b: seq<real>, k: nat)
    requires k < |a| && k < |b|
    ensures ColumnProduct([a, b], k) == a[k] * b[k]
  {
    assert [a, b][..1] == [a];
    assert [a][..0] == [];
    assert ColumnProduct([a], k) == 1.0 * a[k];
    assert ColumnProduct([a, b], k) == ColumnProduct([a], k) * b[k];
  }

  /** For two operands with three or more whole-number components,
      `dProduct` is the sum of the products of the x and y components, plus
      that of the z components when the first operand has exactly three. */
  lemma DProductOfIntegers(a: seq<real>, b: seq<real>)
    requires |a| >= 3 && |b| >= 3
    requires forall k :: 0 <= k < 3 ==> IsIntegral(a[k]) && IsIntegral(b[k])
    ensures DProductValue([a, b]) as real
              == a[0] * b[0] + a[1] * b[1] + (if |a| == 3 then a[2] * b[2] else 0.0)
  {
    var cs := [a, b];
    var z := if |a| == 3 then 1 else 0;
    var t0, t1, t2 := TruncatedProduct(1, cs, 0), TruncatedProduct(1, cs, 1), TruncatedProduct(z, cs, 2);
    assert DProductValue(cs) == t0 + t1 + t2;
    TruncatedProductOfIntegers(cs, 0);
    TruncatedProductOfIntegers(cs, 1);
    ColumnProductOfPair(a, b, 0);
    ColumnProductOfPair(a, b, 1);
    var last := if |a| == 3 then a[2] * b[2] else 0.0;
    if |a| == 3 {
      TruncatedProductOfIntegers(cs, 2);
      ColumnProductOfPair(a, b, 2);
    } else {
      TruncatedProductOfZero(cs, 2);
    }
    assert t2 as real == last;
    assert (t0 + t1 + t2) as real == t0 as real + t1 as real + t2 as real;
  }

  /** On three-component whole-number operands `dProduct` is the dot
      product, and so it does not depend on the order of the operands. */
  lemma DProductIsDot(a: seq<real>, b: seq<real>)
    requires |a| == 3 && |b| == 3
    requires forall k :: 0 <= k < 3 ==> IsIntegral(a[k]) && IsIntegral(b[k])
    ensures DProductValue([a, b]) as real == Dot(a, b)
    ensures DProductValue([a, b]) == DProductValue([b, a])
  {
    DProductOfIntegers(a, b);
    DProductOfIntegers(b, a);
    Dot3(a, b);
  }

  /** With a fractional component the order of the operands matters: the
      accumulator is narrowed after the first factor. */
  lemma DProductDependsOnOrder()
    ensures DProductValue([[0.5, 0.0, 0.0], [2.0, 0.0, 0.0]]) == 0
    ensures DProductValue([[2.0, 0.0, 0.0], [0.5, 0.0, 0.0]]) == 1
  {
    var a: seq<real>, b: seq<real> := [0.5, 0.0, 0.0], [2.0, 0.0, 0.0];
    assert [a, b][..1] == [a] && [b, a][..1] == [b];
    assert [a][..0] == [] && [b][..0] == [];
    assert MulAssign(1, 0.5) == 0 && MulAssign(0, 2.0) == 0;
    assert MulAssign(1, 2.0) == 2 && MulAssign(2, 0.5) == 1;
    assert MulAssign(1, 0.0) == 0 && MulAssign(0, 0.0) == 0;
    assert TruncatedProduct(1, [a], 0) == MulAssign(1, 0.5) == 0;
    assert TruncatedProduct(1, [b], 0) == MulAssign(1, 2.0) == 2;
    assert TruncatedProduct(1, [a, b], 0) == 0 && TruncatedProduct(1, [b, a], 0) == 1;
    forall k | 1 <= k <= 2
      ensures TruncatedProduct(1, [a, b], k) == 0 && TruncatedProduct(1, [b, a], k) == 0
    {
      assert TruncatedProduct(1, [a], k) == 0 && TruncatedProduct(1, [b], k) == 0;
    }
  }

  /** For two whole-number operands of equal length, two or three, the
      `double[]` overload of `dProduct` is the dot product. */
  lemma DProductComponentsIsDot(a: seq<real>, b: seq<real>)
    requires |a| == |b| && 2 <= |a| <= 3
    requires forall k :: 0 <= k < |a| ==> IsIntegral(a[k]) && IsIntegral(b[k])
    ensures DProductComponentsValue([a, b]) as real == Dot(a, b)
  {
    if |a| == 3 {
      DProductComponentsOfTriples(a, b);
      Dot3(a, b);
    } else {
      DProductComponentsOfPairs(a, b);
      Dot2(a, b);
    }
  }

  lemma DProductComponentsOfTriples(a: seq<real>, b: seq<real>)
    requires |a| == 3 && |b| == 3
    requires forall k :: 0 <= k < 3 ==> IsIntegral(a[k]) && IsIntegral(b[k])
    ensures DProductComponentsValue([a, b]) as real == a[0] * b[0] + a[1] * b[1] + a[2] * b[2]
  {
    var cs := [a, b];
    var t0, t1, t2 := TruncatedProduct(1, cs, 0), TruncatedProduct(1, cs, 1), GuardedProduct(1, cs);
    assert DProductComponentsValue(cs) == t0 + t1 + t2;
    TruncatedProductOfPair(a, b, 0);
    TruncatedProductOfPair(a, b, 1);
    GuardedProductOfPair(a, b);
    SumToReal(t0, t1, t2, a[0] * b[0], a[1] * b[1], a[2] * b[2]);
  }

  lemma DProductComponentsOfPairs(a: seq<real>, b: seq<real>)
    requires |a| == 2 && |b| == 2
    requires forall k :: 0 <= k < 2 ==> IsIntegral(a[k]) && IsIntegral(b[k])
    ensures DProductComponentsValue([a, b]) as real == a[0] * b[0] + a[1] * b[1]
  {
    var cs := [a, b];
    var t0, t1, t2 := TruncatedProduct(1, cs, 0), TruncatedProduct(1, cs, 1), GuardedProduct(0, cs);
    assert DProductComponentsValue(cs) == t0 + t1 + t2;
    TruncatedProductOfPair(a, b, 0);
    TruncatedProductOfPair(a, b, 1);
    GuardedProductOfShortPair(a, b);
    SumToReal(t0, t1, t2, a[0] * b[0], a[1] * b[1], 0.0);
  }

  /** For two operands whose `k`-th components are whole numbers, the
      accumulator for column `k` holds their product. */
  lemma TruncatedProductOfPair(a: seq<real>, b: seq<real>, k: nat)
    requires k < |a| && k < |b| && IsIntegral(a[k]) && IsIntegral(b[k])
    ensures TruncatedProduct(1, [a, b], k) as real == a[k] * b[k]
  {
    TruncatedProductOfIntegers([a, b], k);
    ColumnProductOfPair(a, b, k);
  }

  /** The z accumulator of the `double[]` overload for two three-component
      operands with whole z components holds the product of those. */
  lemma GuardedProductOfPair(a: seq<real>, b: seq<real>)
    requires |a| == 3 && |b| == 3 && IsIntegral(a[2]) && IsIntegral(b[2])
    ensures GuardedProduct(1, [a, b]) as real == a[2] * b[2]
  {
    assert [a, b][..1] == [a] && [a][..0] == [];
    assert GuardedProduct(1, [a][..0]) == 1;
    var g1 := GuardedProduct(1, [a]);
    assert g1 == MulAssign(1, a[2]);
    MulAssignIntegral(1, a[2]);
    MulAssignIntegral(g1, b[2]);
  }

  /** For two two-component operands the z accumulator starts at 0 and is
      never multiplied. */
  lemma GuardedProductOfShortPair(a: seq<real>, b: seq<real>)
    requires |a| == 2 && |b| == 2
    ensures GuardedProduct(0, [a, b]) == 0
  {
    assert [a, b][..1] == [a] && [a][..0] == [];
    assert GuardedProduct(0, [a][..0]) == 0;
    assert GuardedProduct(0, [a]) == 0;
  }

  /** Swapping the rows of a 2x2 matrix negates its determinant. */
  lemma DeterminantSwapRows(arr: seq<seq<real>>)
    requires |arr| >= 2 && |arr[0]| >= 2 && |arr[1]| >= 2
    ensures Determinant([arr[1], arr[0]]) == -Determinant(arr)
  {
  }

  /** The determinants add up to the textbook cross product
      `(a1 b2 - a2 b1, a2 b0 - a0 b2, a0 b1 - a1 b0)`. */
  lemma CrossIsStandard(a: seq<real>, b: seq<real>)
    requires |a| >= 3 && |b| >= 3
    ensures Cross(a, b) == [a[1] * b[2] - a[2] * b[1], a[2] * b[0] - a[0] * b[2], a[0] * b[1] - a[1] * b[0]]
  {
    assert Determinant([[a[1], a[2]], [b[1], b[2]]]) == a[1] * b[2] - a[2] * b[1];
    assert -Determinant([[a[0], a[2]], [b[0], b[2]]]) == a[2] * b[0] - a[0] * b[2];
    assert Determinant([[a[0], a[1]], [b[0], b[1]]]) == a[0] * b[1] - a[1] * b[0];
  }

  /** The cross product is orthogonal to both operands. */
  lemma CrossOrthogonal(a: seq<real>, b: seq<real>)
    requires |a| >= 3 && |b| >= 3
    ensures Dot(Cross(a, b), a[..3]) == 0.0
    ensures Dot(Cross(a, b), b[..3]) == 0.0
  {
    CrossIsStandard(a, b);
    Dot3(Cross(a, b), a[..3]);
    Dot3(Cross(a, b), b[..3]);
  }

  /** Exchanging the operands negates the cross product; crossing a vector
      with itself gives the zero vector. */
  lemma CrossAnticommutes(a: seq<real>, b: seq<real>)
    requires |a| >= 3 && |b| >= 3
    ensures Cross(b, a) == Scale(Cross(a, b), -1.0)
    ensures Cross(a, a) == [0.0, 0.0, 0.0]
  {
    CrossIsStandard(a, b);
    CrossIsStandard(b, a);
    CrossIsStandard(a, a);
  }

  /** Dividing the components of a vector by its magnitude gives a vector
      of magnitude one. */
  lemma UnitVectorHasMagnitudeOne(c: seq<real>, mag: real, m: MathLib)
    requires m.Valid()
    requires mag == m.sqrt(SumSquares(c)) && mag != 0.0
    ensures m.sqrt(SumSquares(Quotient(c, mag))) == 1.0
  {
    assert mag * mag == SumSquares(c);
    SumSquaresQuotient(c, mag);
    SqrtOfOne(m);
  }

  /** For whole-number operands `comp(a, b)` is the textbook scalar
      projection, the real dot product over the magnitude of `b`. */
  lemma CompOfIntegers(a: seq<real>, b: seq<real>, mag: real)
    requires |a| == 3 && |b| == 3
    requires forall k :: 0 <= k < 3 ==> IsIntegral(a[k]) && IsIntegral(b[k])
    requires mag != 0.0
    ensures CompValue(a, b, mag) == Dot(a, b) / mag
  {
    DProductIsDot(a, b);
  }

  /** `proj(a, b)` for whole-number operands, written out: `b` scaled by
      the dot product over the squared magnitude. */
  lemma ProjectionOfIntegers(a: seq<real>, b: seq<real>, mag: real)
    requires |a| == 3 && |b| == 3
    requires forall k :: 0 <= k < 3 ==> IsIntegral(a[k]) && IsIntegral(b[k])
    requires mag != 0.0
    ensures Projection(b, CompValue(a, b, mag), mag) == Scale(b, Dot(a, b) / (mag * mag))
  {
    CompOfIntegers(a, b, mag);
    ScaleQuotient(b, Dot(a, b), mag);
  }

  /** For whole-number operands, what remains of `a` after removing
      `proj(a, b)` is orthogonal to `b`, when `mag` is `b`'s magnitude. */
  lemma ProjectionResidualOrthogonal(a: seq<real>, b: seq<real>, mag: real)
    requires |a| == 3 && |b| == 3
    requires forall k :: 0 <= k < 3 ==> IsIntegral(a[k]) && IsIntegral(b[k])
    requires mag != 0.0 && mag * mag == SumSquares(b)
    ensures Dot(Minus(a, Projection(b, CompValue(a, b, mag), mag)), b) == 0.0
  {
    CompOfIntegers(a, b, mag);
    assert Dot(Minus(a, Projection(b, Dot(a, b) / mag, mag)), b) == 0.0 by {
      ScaleQuotient(b, Dot(a, b), mag);
      DotSelf(b);
      ResidualOrthogonal(a, b, mag);
    }
  }

  /** For a whole-number vector, `proj(a, a)` gives `a` back. */
  lemma ProjectionOntoSelf(a: seq<real>, mag: real)
    requires |a| == 3 && forall k :: 0 <= k < 3 ==> IsIntegral(a[k])
    requires mag != 0.0 && mag * mag == SumSquares(a)
    ensures Projection(a, CompValue(a, a, mag), mag) == a
  {
    CompOfIntegers(a, a, mag);
    assert Projection(a, Dot(a, a) / mag, mag) == a by {
      ScaleQuotient(a, Dot(a, a), mag);
      ScaleByNorm(a, mag);
    }
  }

  /** With fractional components, as a unit vector has, the narrowed
      `dProduct` makes `proj(a, a)` the zero vector instead of `a`. */
  lemma ProjectionOfFractions(mag: real)
    requires mag != 0.0
    ensures DProductValue([[0.5, 0.5, 0.5], [0.5, 0.5, 0.5]]) == 0
    ensures CompValue([0.5, 0.5, 0.5], [0.5, 0.5, 0.5], mag) == 0.0
    ensures Projection([0.5, 0.5, 0.5], CompValue([0.5, 0.5, 0.5], [0.5, 0.5, 0.5], mag), mag) == [0.0, 0.0, 0.0]
  {
    var a: seq<real> := [0.5, 0.5, 0.5];
    assert [a, a][..1] == [a] && [a][..0] == [];
    assert MulAssign(1, 0.5) == 0 && MulAssign(0, 0.5) == 0;
    forall k | 0 <= k < 3
      ensures TruncatedProduct(1, [a, a], k) == 0
    {
      assert TruncatedProduct(1, [a], k) == MulAssign(1, 0.5) == 0;
    }
    var p := Projection(a, 0.0 / mag, mag);
    assert p == [0.0, 0.0, 0.0];
  }

  /** `scalarMult` multiplies the magnitude by `|scalar|`: the zeros it
      pads the result with add nothing to the sum of squares. */
  lemma ScalarMultMagnitude(c: seq<real>, scalar: real, n: nat, m: MathLib)
    requires m.Valid()
    ensures m.sqrt(SumSquares(Scale(c, scalar) + Zeros(n))) == Abs(scalar) * m.sqrt(SumSquares(c))
  {
    SumSquaresPadded(Scale(c, scalar), n);
    ScaleMagnitude(c, scalar, m);
  }
}
