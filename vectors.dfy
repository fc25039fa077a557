/** The vector value class of `vectorVisualizer.vectors.Vector`.

    A `Vector` holds its components, a 2-D/3-D type tag, and the magnitude
    and direction angles derived from the components when it is built.  The
    fields are nullable as in Java: the endpoint constructors leave every
    field unset when their length check fails, and the no-argument
    constructor leaves the type unset.  The constructors that take a
    component array keep the caller's array itself, not a copy. */
module Vectors {
  import opened VectorSpec

  /** `Vector.VectorType`. */
  datatype VectorType = TwoD | ThreeD

  /** A Java reference that may be null. */
  datatype Option<T> = None | Some(value: T)

  /** How many components the library allocates for a vector with this
      type tag: the source only ever asks whether the tag is `threeD`, so a
      tag that is unset behaves as two-dimensional. */
  function Width(t: Option<VectorType>): nat
  {
    if t == Some(ThreeD) then 3 else 2
  }

  /** The direction angles `calculateDirection` stores for components `c`:
      the angle to each standard axis, three of them when `threeD` holds
      and two otherwise. */
  function DirectionOf(c: seq<real>, threeD: bool, m: MathLib): seq<real>
  {
    if threeD then [m.angle(c, [1.0, 0.0, 0.0]), m.angle(c, [0.0, 1.0, 0.0]), m.angle(c, [0.0, 0.0, 1.0])]
    else [m.angle(c, [1.0, 0.0]), m.angle(c, [0.0, 1.0])]
  }

  /** The parts written one after another with `sep` between neighbours. */
  function Join(parts: seq<string>, sep: string): string
  {
    if |parts| == 0 then ""
    else if |parts| == 1 then parts[0]
    else Join(parts[..|parts| - 1], sep) + sep + parts[|parts| - 1]
  }

  /** Each of the numbers `c` written by `show`. */
  function Shown(show: real -> string, c: seq<real>): seq<string>
  {
    seq(|c|, i requires 0 <= i < |c| => show(c[i]))
  }

  /** The length check of the endpoint constructors. */
  predicate EndpointsValid(n1: nat, n2: nat)
  {
    2 <= n1 <= 3 && 2 <= n2 <= 3 && n1 == n2
  }

  class Vector {
    var magnitude: real
    var direction: array?<real>
    var components: array?<real>
    var vtype: Option<VectorType>
    var vectorID: int

    /** The current contents of the component array. */
    ghost function Components(): seq<real>
      reads this, components
      requires components != null
    {
      components[..]
    }

    /** The state `init` leaves behind: the type tag says whether there are
        exactly two components, the magnitude is the square root of the sum
        of squares, and there is one direction angle per axis. */
    ghost predicate Initialized(m: MathLib)
      reads this, components, direction
    {
      components != null && direction != null &&
      vtype == Some(if components.Length == 2 then TwoD else ThreeD) &&
      magnitude == m.sqrt(SumSquares(components[..])) &&
      direction[..] == DirectionOf(components[..], vtype == Some(ThreeD), m)
    }

    /** The state an endpoint constructor leaves behind when its length
        check fails: every field keeps Java's default. */
    ghost predicate Unset()
      reads this
    {
      components == null && direction == null && vtype == None &&
      magnitude == 0.0 && vectorID == 0
    }

    /** Converts integer coordinates to doubles, exactly. */
    static method IntArrToDoubleArr(intArr: array<int>) returns (arr: array<real>)
      ensures fresh(arr) && arr.Length == intArr.Length
      ensures forall i :: 0 <= i < arr.Length ==> arr[i] == intArr[i] as real
      ensures forall i :: 0 <= i < arr.Length ==> IsIntegral(arr[i]) && arr[i].Floor == intArr[i]
    {
      arr := new real[intArr.Length];
      for i := 0 to intArr.Length
        invariant forall j :: 0 <= j < i ==> arr[j] == intArr[j] as real
      {
        arr[i] := intArr[i] as real;
      }
    }

    /** The displacement from point `p1` to point `p2`, componentwise. */
    static method Displacement(p1: array<real>, p2: array<real>) returns (c: array<real>)
      requires p1.Length <= p2.Length
      ensures fresh(c) && c.Length == p1.Length
      ensures forall i :: 0 <= i < c.Length ==> c[i] == p2[i] - p1[i]
    {
      c := new real[p1.Length];
      for i := 0 to p1.Length
        invariant forall j :: 0 <= j < i ==> c[j] == p2[j] - p1[j]
      {
        c[i] := p2[i] - p1[i];
      }
    }

    /** `Vector(double[] p1, double[] p2)`: the vector from `p1` to `p2`,
        with ID 0, when both points have the same length 2 or 3; otherwise
        the constructor returns at once and nothing is set. */
    constructor FromPoints(p1: array<real>, p2: array<real>, m: MathLib)
      ensures EndpointsValid(p1.Length, p2.Length) ==>
                fresh(components) && fresh(direction) && Initialized(m) && vectorID == 0 &&
                components.Length == p1.Length &&
                forall i :: 0 <= i < p1.Length ==> components[i] == p2[i] - p1[i]
      ensures !EndpointsValid(p1.Length, p2.Length) ==> Unset()
    {
      magnitude, direction, components, vtype, vectorID := 0.0, null, null, None, 0;
      new;
      if EndpointsValid(p1.Length, p2.Length) {
        var c := Displacement(p1, p2);
        components := c;
        vectorID := 0;
        Init(m);
      }
    }

    /** `Vector(double[] p1, double[] p2, int ID, float a, float r, float g, float b)`:
        as `FromPoints`, but the vector takes the given ID (the colour is
        not modelled). */
    constructor FromPointsWithID(p1: array<real>, p2: array<real>, id: int, m: MathLib)
      ensures EndpointsValid(p1.Length, p2.Length) ==>
                fresh(components) && fresh(direction) && Initialized(m) && vectorID == id &&
                components.Length == p1.Length &&
                forall i :: 0 <= i < p1.Length ==> components[i] == p2[i] - p1[i]
      ensures !EndpointsValid(p1.Length, p2.Length) ==> Unset()
    {
      magnitude, direction, components, vtype, vectorID := 0.0, null, null, None, 0;
      new;
      if EndpointsValid(p1.Length, p2.Length) {
        var c := Displacement(p1, p2);
        components := c;
        vectorID := id;
        Init(m);
      }
    }

    /** `Vector(double[] c)`: a vector over the caller's own array `c`.
        There is no length check; two components at least are needed because
        the direction angles read indices 0 and 1. */
    constructor FromComponents(c: array<real>, m: MathLib)
      requires 2 <= c.Length
      ensures components == c && fresh(direction) && Initialized(m) && vectorID == 0
    {
      magnitude, direction, components, vtype, vectorID := 0.0, null, c, None, 0;
      new;
      Init(m);
    }

    /** `Vector(double[] c, int ID, int a, int r, int g, int b)` and
        `Vector(double[] c, int ID, Color color)`: as `FromComponents`, with
        the given ID (the colour is not modelled). */
    constructor FromComponentsWithID(c: array<real>, id: int, m: MathLib)
      requires 2 <= c.Length
      ensures components == c && fresh(direction) && Initialized(m) && vectorID == id
    {
      magnitude, direction, components, vtype, vectorID := 0.0, null, c, None, id;
      new;
      Init(m);
    }

    /** `Vector()`: zero components, magnitude 0 and a single zero direction
        angle; the type tag is left unset. */
    constructor Zero()
      ensures fresh(components) && fresh(direction)
      ensures components[..] == [0.0, 0.0, 0.0] && direction[..] == [0.0]
      ensures magnitude == 0.0 && vtype == None && vectorID == 0
    {
      magnitude := 0.0;
      direction := new real[1][0.0];
      components := new real[3][0.0, 0.0, 0.0];
      vtype, vectorID := None, 0;
    }

    /** `init`: sets the type tag from the number of components (any count
        other than two counts as three-dimensional), then the magnitude and
        the direction angles. */
    method Init(m: MathLib)
      requires components != null && 2 <= components.Length
      modifies this
      ensures components == old(components) && vectorID == old(vectorID)
      ensures fresh(direction) && Initialized(m)
    {
      if components.Length == 2 {
        vtype := Some(TwoD);
      } else {
        vtype := Some(ThreeD);
      }
      magnitude := CalculateMagnitude(m);
      CalculateDirection(m);
    }

    /** The magnitude of components `c1`: the square root of the sum of
        their squares, accumulated one component at a time. */
    static method MagnitudeOf(c1: array<real>, m: MathLib) returns (r: real)
      ensures r == m.sqrt(SumSquares(c1[..]))
      ensures m.Valid() ==> 0.0 <= r && r * r == SumSquares(c1[..])
    {
      var sqrtInside := 0.0;
      for i := 0 to c1.Length
        invariant sqrtInside == SumSquares(c1[..i])
      {
        assert c1[..i + 1][..i] == c1[..i];
        sqrtInside := sqrtInside + c1[i] * c1[i];
      }
      assert c1[..c1.Length] == c1[..];
      r := m.sqrt(sqrtInside);
    }

    /** The magnitude of this vector's components. */
    method CalculateMagnitude(m: MathLib) returns (r: real)
      requires components != null
      ensures r == m.sqrt(SumSquares(components[..]))
      ensures m.Valid() ==> 0.0 <= r && r * r == SumSquares(components[..])
    {
      r := MagnitudeOf(components, m);
    }

    /** `calculateDirection`: the angle to the x, y (and, for a
        three-dimensional vector, z) axis.  The source also computes an
        angle to a zero "z axis" for a two-dimensional vector and discards
        it; that value is not modelled. */
    method CalculateDirection(m: MathLib)
      requires components != null && 2 <= components.Length
      modifies this`direction
      ensures fresh(direction)
      ensures direction.Length == Width(vtype)
      ensures direction[..] == DirectionOf(components[..], vtype == Some(ThreeD), m)
    {
      var xVector, yVector := [1.0, 0.0], [0.0, 1.0];
      if vtype == Some(ThreeD) {
        xVector, yVector := [1.0, 0.0, 0.0], [0.0, 1.0, 0.0];
      }
      var angleAlpha := m.angle(components[..], xVector);
      var angleBeta := m.angle(components[..], yVector);
      if vtype == Some(ThreeD) {
        var angleGamma := m.angle(components[..], [0.0, 0.0, 1.0]);
        direction := new real[3][angleAlpha, angleBeta, angleGamma];
      } else {
        direction := new real[2][angleAlpha, angleBeta];
      }
    }

    /** `getUnitVector`: a new three-component vector, each component the
        corresponding one of this vector divided by its magnitude, with the
        same ID.  Index 2 is read whatever the type, so three components
        are needed. */
    method GetUnitVector(m: MathLib) returns (r: Vector)
      requires components != null && 3 <= components.Length && magnitude != 0.0
      ensures fresh(r) && fresh(r.components) && r.Initialized(m)
      ensures r.vectorID == vectorID && r.vtype == Some(ThreeD)
      ensures r.Components() == Quotient(Components()[..3], magnitude)
    {
      var c := new real[3];
      c[0] := components[0] / magnitude;
      c[1] := components[1] / magnitude;
      c[2] := components[2] / magnitude;
      r := new Vector.FromComponentsWithID(c, vectorID, m);
    }

    /** `getID`: the stored identifier. */
    function GetID(): (r: int)
      reads this
      ensures r == vectorID
    {
      vectorID
    }

    /** `getComponents`: the component array itself, not a copy, so a
        caller that writes to it changes this vector. */
    function GetComponents(): (r: array?<real>)
      reads this
      ensures r == components
    {
      components
    }

    /** `getType`: the type tag, which may be unset. */
    function GetType(): (r: Option<VectorType>)
      reads this
      ensures r == vtype
    {
      vtype
    }

    /** `getMagnitude`: the magnitude stored when the vector was built;
        it is not recomputed after the components change. */
    function GetMagnitude(): (r: real)
      reads this
      ensures r == magnitude
    {
      magnitude
    }

    /** `getDirection`: the direction array itself, not a copy. */
    function GetDirection(): (r: array?<real>)
      reads this
      ensures r == direction
    {
      direction
    }

    /** `toString`: `<c0, c1>`, or `<c0, c1, c2>` for a three-dimensional
        vector, each number written by `show` (Java's `Double.toString`).
        Because `show` never writes a comma, the text holds one comma fewer
        than the number of components shown. */
    function ToString(show: real -> string): (s: string)
      reads this, components
      requires components != null && Width(vtype) <= components.Length
      ensures s == "<" + Join(Shown(show, components[..Width(vtype)]), ", ") + ">"
      ensures 2 <= |s| && s[0] == '<' && s[|s| - 1] == '>'
      ensures (forall x :: ',' !in show(x)) ==> Count(s, ',') == Width(vtype) - 1
    {
      var output := "<" + show(components[0]) + ", " + show(components[1]);
      var output := if vtype == Some(ThreeD) then output + ", " + show(components[2]) else output;
      ToStringCommas(output, show, components[..], vtype == Some(ThreeD));
      ToStringText(output, show, components[..], vtype == Some(ThreeD));
      output + ">"
    }
  }

  /** The text `Vector.ToString` builds is the shown components joined by
      ", " between angle brackets. */
  lemma ToStringText(output: string, show: real -> string, c: seq<real>, threeD: bool)
    requires (if threeD then 3 else 2) <= |c|
    requires output == if threeD then "<" + show(c[0]) + ", " + show(c[1]) + ", " + show(c[2])
                                 else "<" + show(c[0]) + ", " + show(c[1])
    ensures output == "<" + Join(Shown(show, c[..if threeD then 3 else 2]), ", ")
  {
    var two := Shown(show, c[..2]);
    assert two[..1] == [show(c[0])];
    assert Join(two, ", ") == show(c[0]) + ", " + show(c[1]);
    if threeD {
      var three := Shown(show, c[..3]);
      assert three[..2] == two;
      assert Join(three, ", ") == show(c[0]) + ", " + show(c[1]) + ", " + show(c[2]);
    }
  }

  /** The comma count behind `Vector.ToString`'s contract. */
  lemma ToStringCommas(output: string, show: real -> string, c: seq<real>, threeD: bool)
    requires (if threeD then 3 else 2) <= |c|
    requires output == if threeD then "<" + show(c[0]) + ", " + show(c[1]) + ", " + show(c[2])
                                 else "<" + show(c[0]) + ", " + show(c[1])
    ensures (forall x :: ',' !in show(x)) ==> Count(output + ">", ',') == if threeD then 2 else 1
  {
    if forall x :: ',' !in show(x) {
      forall x ensures Count(show(x), ',') == 0 {
        NoOccurrence(show(x), ',');
      }
      var s0, s1 := show(c[0]), show(c[1]);
      CountAppend("<", s0, ',');
      CountAppend("<" + s0, ", ", ',');
      CountAppend("<" + s0 + ", ", s1, ',');
      var head := "<" + s0 + ", " + s1;
      if threeD {
        var s2 := show(c[2]);
        CountAppend(head, ", ", ',');
        CountAppend(head + ", ", s2, ',');
        CountAppend(head + ", " + s2, ">", ',');
      } else {
        CountAppend(head, ">", ',');
      }
    }
  }

  /** A character that does not occur is counted zero times. */
  lemma {:induction false} NoOccurrence(s: string, ch: char)
    requires ch !in s
    ensures Count(s, ch) == 0
  {
    if s != [] {
      NoOccurrence(s[1..], ch);
    }
  }

  /** A vector that has been initialised holds its Euclidean norm: the
      magnitude is non-negative and squares to the sum of squares. */
  lemma MagnitudeIsNorm(v: Vector, m: MathLib)
    requires m.Valid() && v.Initialized(m)
    ensures 0.0 <= v.magnitude && v.magnitude * v.magnitude == SumSquares(v.Components())
  {
  }
}
