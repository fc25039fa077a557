# Vector Visualizer: the vector-algebra engine in Dafny

This project models the arithmetic core of the Vector Visualizer, a JavaFX program that draws 2-D and 3-D vectors. The core is two Java classes:

- `vectorVisualizer.vectors.Vector` is the vector value class. It holds the component array, a 2-D/3-D type tag, the magnitude and the direction angles.
- `vectorVisualizer.math.Functions` is the static library of vector operations:
  - addition and subtraction of any number of vectors;
  - scalar multiplication and a unit vector;
  - three overloads of `dProduct`;
  - the cross product, built from 2x2 determinants;
  - the scalar projection `comp` and the vector projection `proj`.

The model has three modules:

- `VectorSpec` (`vector_spec.dfy`) is exact arithmetic over component sequences, used to specify the other two modules:
  - sums of squares, dot products and scaling;
  - column sums and products over a list of operands;
  - Java's narrowing of a `double` to an `int`;
  - the `MathLib` parameter that stands for `Math.sqrt` and the `acos`-based angle routine.
- `Vectors` (`vectors.dfy`) models `Vector.java`. `Vector` is a class with the Java fields:
  - the fields are nullable, as in Java;
  - the constructors and `init` assign those fields step by step;
  - the loops of `intArrToDoubleArr`, the endpoint constructors and `calculateMagnitude` are `for` loops with invariants.
- `Functions` (`functions.dfy`) models `Functions.java`. Each operation is a method whose loop fills a fresh array or updates the `int` accumulators, as the Java does. Each is proved against a function on sequences, and lemmas relate those functions.

The model keeps three quirks of the code.

- In `addition`, in `subtraction` and in the `Vector` overloads of `dProduct`, the `if` meant to guard the z-component update ends in a stray `;`. The update therefore always runs, so every operand needs three components. A vector that is typed two-dimensional but has three components contributes its third one.
- `subtraction` starts from the zero vector, so it returns `-v1 - v2 - ... - vn`. The first operand is negated too.
- `dProduct` does not compute a sum of products. It keeps a running product per axis in an `int`, narrows to `int` after every `*=`, and adds the three accumulators at the end. For two vectors with whole-number components this is the dot product, and the model proves so. With fractional components the result depends on the order of the operands, and the model proves that too.

Three results therefore differ from textbook vector algebra, and the model proves each one as the code computes it:

- Subtraction of `v1, v2, ..., vn` is `-v1 - v2 - ... - vn`, not `v1 - v2 - ... - vn` (`SubtractionOfOneNegates`).
- Adding or subtracting zero operands is not an error. It returns the zero vector `[0, 0, 0]`.
- `dProduct`, and with it `comp` and `proj`, is the real dot product only for whole-number components (`DProductIsDot`, `CompOfIntegers`). With fractional components it can depend on operand order (`DProductDependsOnOrder`). It can also collapse to zero: `proj([0.5, 0.5, 0.5], [0.5, 0.5, 0.5])` is the zero vector (`ProjectionOfFractions`).

## Model

| member | source | states |
|---|---|---|
| Vectors.Vector.IntArrToDoubleArr | src/vectorVisualizer/vectors/Vector.java:57-65 | A fresh array of the same length, each entry equal to the integer at that index and a whole number. |
| Vectors.Vector.Displacement | src/vectorVisualizer/vectors/Vector.java:79-82 | A fresh array as long as `p1`, with entry `i` equal to `p2[i] - p1[i]`. |
| Vectors.Vector.FromPoints | src/vectorVisualizer/vectors/Vector.java:73-89 | When both points have the same length, 2 or 3, the new vector has ID 0 and components `p2[i] - p1[i]`, and is initialised. Otherwise every field keeps its default. |
| Vectors.Vector.FromPointsWithID | src/vectorVisualizer/vectors/Vector.java:102-119 | As `FromPoints`, but the vector takes the given ID. Failing the length check leaves every field at its default, the ID included. |
| Vectors.Vector.FromComponents | src/vectorVisualizer/vectors/Vector.java:125-129 | The vector keeps the caller's array itself, not a copy, has ID 0, and is initialised. |
| Vectors.Vector.FromComponentsWithID | src/vectorVisualizer/vectors/Vector.java:140-164 | As `FromComponents`, with the given ID. |
| Vectors.Vector.Zero | src/vectorVisualizer/vectors/Vector.java:183-188 | Components `[0, 0, 0]`, direction `[0]`, magnitude 0, and no type tag. |
| Vectors.Vector.Init | src/vectorVisualizer/vectors/Vector.java:169-178 | Afterwards the tag is `twoD` iff there are exactly two components, and `threeD` for any other count. The magnitude is the square root of the sum of squares. There is one direction angle per axis. The components and the ID are unchanged. |
| Vectors.Vector.MagnitudeOf | src/vectorVisualizer/vectors/Vector.java:210-219 | The loop adds up exactly the sum of squares of the components, and the result is its square root. Given a valid `sqrt`, the result is non-negative and squares to that sum. |
| Vectors.Vector.CalculateMagnitude | src/vectorVisualizer/vectors/Vector.java:194-203 | The same as `MagnitudeOf`, for the vector's own components. |
| Vectors.Vector.CalculateDirection | src/vectorVisualizer/vectors/Vector.java:225-255 | A fresh direction array holding the angles to the x and y axes, plus the z axis for a `threeD` vector. It has three entries for `threeD` and two otherwise. |
| Vectors.Vector.GetUnitVector | src/vectorVisualizer/vectors/Vector.java:282-295 | Always a three-component `threeD` vector with the same ID, each component being this one's divided by the magnitude. Index 2 is read whatever the type, so three components are required. |
| Vectors.Vector.GetID | src/vectorVisualizer/vectors/Vector.java:300-303 | Returns the stored ID. |
| Vectors.Vector.GetComponents | src/vectorVisualizer/vectors/Vector.java:308-311 | Returns the component array itself, not a copy. |
| Vectors.Vector.GetType | src/vectorVisualizer/vectors/Vector.java:316-319 | Returns the type tag, which may be unset. |
| Vectors.Vector.GetMagnitude | src/vectorVisualizer/vectors/Vector.java:324-327 | Returns the stored magnitude, which is not recomputed. |
| Vectors.Vector.GetDirection | src/vectorVisualizer/vectors/Vector.java:332-335 | Returns the direction array itself, not a copy. |
| Vectors.Vector.ToString | src/vectorVisualizer/vectors/Vector.java:349-361 | The text is `<`, then the first two components (three for a `threeD` vector) written by the formatter and joined by `", "`, then `>`. When the formatter writes no commas, the text has one comma for a 2-D vector and two for a 3-D one. |
| Vectors.ToStringText | src/vectorVisualizer/vectors/Vector.java:353-358 | The text `ToString` builds in each branch is the shown components joined by `", "`. |
| Vectors.ToStringCommas | src/vectorVisualizer/vectors/Vector.java:353-358 | The comma count of the text `ToString` builds, in both of its branches. |
| Vectors.MagnitudeIsNorm | src/vectorVisualizer/vectors/Vector.java:194-203 | An initialised vector's magnitude is its Euclidean norm: non-negative, with a square equal to the sum of squares. |
| VectorSpec.TruncBounds | src/vectorVisualizer/math/Functions.java:87-91 | The narrowing `(int)` cast rounds toward zero. It never moves away from zero, and it moves by less than one. |
| VectorSpec.MulAssignIsNarrowing | src/vectorVisualizer/math/Functions.java:87-91 | `acc *= x` on an `int` gives the narrowed exact product `(int)(acc * x)`. |
| VectorSpec.MulAssignIntegral | src/vectorVisualizer/math/Functions.java:87-91 | When `x` is a whole number, `acc *= x` loses nothing. |
| VectorSpec.SumSquaresScale | src/vectorVisualizer/math/Functions.java:59-70 | Scaling every component by `s` scales the sum of squares by `s * s`. |
| VectorSpec.ScaleMagnitude | src/vectorVisualizer/math/Functions.java:59-70 | Scaling every component by `s` scales the magnitude, the square root of the sum of squares, by `|s|`. |
| VectorSpec.SumSquaresQuotient | src/vectorVisualizer/math/Functions.java:177-188 | Dividing every component by the magnitude leaves a sum of squares of one. |
| Functions.ColumnSums | src/vectorVisualizer/math/Functions.java:18-27 | The loop of `addition` leaves each of the three entries equal to the sum of that component over all operands. |
| Functions.Addition | src/vectorVisualizer/math/Functions.java:16-30 | An initialised `threeD` vector over a fresh array whose `k`-th component is the sum of the operands' `k`-th components, for k < 3. Zero operands give `[0, 0, 0]`. Every operand needs three components. |
| Functions.AdditionRegroups | src/vectorVisualizer/math/Functions.java:16-30 | Adding two lists of operands separately and adding the results is the same as adding the joined list. |
| Functions.ColumnDifferences | src/vectorVisualizer/math/Functions.java:39-48 | The loop of `subtraction` leaves each of the three entries equal to minus the sum of that component over all operands. |
| Functions.Subtraction | src/vectorVisualizer/math/Functions.java:37-51 | An initialised `threeD` vector whose components are the negated sums `-v1 - v2 - ...`, the first operand included. |
| Functions.SubtractionOfOneNegates | src/vectorVisualizer/math/Functions.java:37-51 | `subtraction` of a single vector returns that vector negated, not the vector itself. |
| Functions.ZeroArray | src/vectorVisualizer/math/Functions.java:61-64 | A fresh array of zeros, with three entries for a `threeD` vector and two otherwise. |
| Functions.ScaleInto | src/vectorVisualizer/math/Functions.java:66-67 | Each entry of the source array times the scalar is written to the same index. Later entries of the target keep their values. |
| Functions.ScalarMult | src/vectorVisualizer/math/Functions.java:59-70 | An initialised vector with as many components as the type tag allows. Its leading components are `v`'s times the scalar, and any it does not fill stay zero. `v` is not changed. |
| Functions.ScalarMultMagnitude | src/vectorVisualizer/math/Functions.java:59-70 | The components `scalarMult` produces, zero padding included, have magnitude `|s|` times that of `v`. |
| Functions.DivideInto | src/vectorVisualizer/math/Functions.java:184-185 | Each entry of the source array divided by `d` is written to the same index. Later entries of the target keep their values. |
| Functions.UnitVector | src/vectorVisualizer/math/Functions.java:177-188 | As `ScalarMult`, with each component divided by the stored magnitude, which must not be zero. |
| Functions.UnitVectorHasMagnitudeOne | src/vectorVisualizer/math/Functions.java:177-188 | Dividing a vector by its non-zero magnitude gives a vector of magnitude exactly one. |
| Functions.DProduct | src/vectorVisualizer/math/Functions.java:77-95 | The result is `DProductValue` of the operands' components. The x and y accumulators start at 1, and the z accumulator starts at 1 only when the first operand has three components. Every operand's first three components are multiplied in, with narrowing, and the three accumulators are added. |
| Functions.DProductList | src/vectorVisualizer/math/Functions.java:102-120 | The same value as `DProduct` for the same operands, so the two overloads agree. |
| Functions.DProductComponents | src/vectorVisualizer/math/Functions.java:127-144 | The same computation over bare arrays, except that the z factor is multiplied in only for operands of exactly three components. Two components per operand suffice. |
| Functions.TruncatedProductOfIntegers | src/vectorVisualizer/math/Functions.java:85-92 | While every factor is a whole number, an accumulator started at 1 holds the exact product of the column. |
| Functions.TruncatedProductOfZero | src/vectorVisualizer/math/Functions.java:81-91 | An accumulator started at 0 stays 0 whatever is multiplied in. |
| Functions.DProductOfIntegers | src/vectorVisualizer/math/Functions.java:77-95 | For two operands with whole-number components, the result is `a0*b0 + a1*b1`, plus `a2*b2` exactly when the first operand has three components. |
| Functions.DProductIsDot | src/vectorVisualizer/math/Functions.java:77-95 | For two three-component operands with whole-number components, the result is the real dot product and does not depend on the order of the operands. |
| Functions.DProductDependsOnOrder | src/vectorVisualizer/math/Functions.java:85-94 | With a fractional component the result does depend on the order: `[0.5,0,0]` then `[2,0,0]` give 0, while the reverse order gives 1. |
| Functions.DProductComponentsIsDot | src/vectorVisualizer/math/Functions.java:127-144 | For two whole-number operands of equal length, 2 or 3, the `double[]` overload is the real dot product. |
| Functions.DProductComponentsOfTriples | src/vectorVisualizer/math/Functions.java:127-144 | For two whole-number operands of three components, the `double[]` overload is `a0*b0 + a1*b1 + a2*b2`. |
| Functions.DProductComponentsOfPairs | src/vectorVisualizer/math/Functions.java:127-144 | For two whole-number operands of two components, the `double[]` overload is `a0*b0 + a1*b1`, because the z accumulator starts at 0. |
| Functions.TruncatedProductOfPair | src/vectorVisualizer/math/Functions.java:135-138 | For two operands whose `k`-th components are whole numbers, that accumulator ends at their product. |
| Functions.GuardedProductOfPair | src/vectorVisualizer/math/Functions.java:132-140 | For two three-component operands with whole z components, the guarded z accumulator ends at the product of the z components. |
| Functions.GuardedProductOfShortPair | src/vectorVisualizer/math/Functions.java:132-140 | For two two-component operands, the guarded z accumulator starts at 0 and stays 0. |
| Functions.Determinant | src/vectorVisualizer/math/Functions.java:218-221 | A 2x2 matrix with two equal rows, or with a zero first row, has determinant zero. |
| Functions.DeterminantSwapRows | src/vectorVisualizer/math/Functions.java:218-221 | Swapping the two rows negates the determinant. |
| Functions.CProduct | src/vectorVisualizer/math/Functions.java:151-170 | An initialised `threeD` vector over a fresh array holding the three determinants of the operands' first three components, the middle one negated. Both operands need three components. |
| Functions.CrossIsStandard | src/vectorVisualizer/math/Functions.java:158-164 | These determinants are the textbook cross product `(a1 b2 - a2 b1, a2 b0 - a0 b2, a0 b1 - a1 b0)`. |
| Functions.CrossOrthogonal | src/vectorVisualizer/math/Functions.java:151-170 | The cross product is orthogonal to both operands under the real dot product. |
| Functions.CrossAnticommutes | src/vectorVisualizer/math/Functions.java:151-170 | Swapping the operands negates the cross product, and a vector crossed with itself is the zero vector. |
| Functions.Comp | src/vectorVisualizer/math/Functions.java:207-210 | The `dProduct` of the two operands divided by the second operand's stored, non-zero magnitude. |
| Functions.Proj | src/vectorVisualizer/math/Functions.java:196-199 | The unit vector of `v2` scaled by `comp(v1, v2)`. `v2` must be a `threeD` vector of exactly three components with a non-zero magnitude. |
| Functions.CompOfIntegers | src/vectorVisualizer/math/Functions.java:207-210 | For whole-number operands, `comp(a, b)` is the textbook scalar projection `a.b / |b|`. |
| Functions.ProjectionOfIntegers | src/vectorVisualizer/math/Functions.java:196-210 | For whole-number operands, `proj(a, b)` is `b` scaled by `a.b / |b|^2`, the textbook vector projection. |
| Functions.ProjectionResidualOrthogonal | src/vectorVisualizer/math/Functions.java:196-199 | For whole-number operands, what remains of `a` after the program's `proj(a, b)` is removed is orthogonal to `b`. |
| Functions.ProjectionOntoSelf | src/vectorVisualizer/math/Functions.java:196-199 | For whole-number components, the program's `proj(a, a)` returns `a`. |
| Functions.ProjectionOfFractions | src/vectorVisualizer/math/Functions.java:196-210 | For `a = [0.5, 0.5, 0.5]`, `dProduct(a, a)` narrows to 0, so `comp(a, a)` is 0 and `proj(a, a)` is the zero vector, not `a`. |

## Left out

- The JavaFX and jzy3d layers are not modelled: `Vector.display`, `Menu`, `Graph`, the colour fields, `getColor` and the colour parameters of the constructors. `Menu.java` and `Graph.java` are not part of this model.
- `Math.sqrt` is not computed. It is the `sqrt` field of a `MathLib` parameter, and `MathLib.Valid` states the only fact used: on a non-negative argument it returns the non-negative square root.
- `angleBetweenVectors` is not computed. Both overloads are `acos` of a floating-point quotient. The private overload that `calculateDirection` uses is the `angle` field of `MathLib`. The public static overload `angleBetweenVectors(Vector, Vector)` is not modelled.
- Java's `Double.toString` is not modelled. `Vectors.Vector.ToString` takes the number formatter as a parameter.
- IEEE-754 rounding, NaN and Infinity are not modelled. Components are exact reals. Dividing by a zero magnitude, which in Java yields NaN or Infinity, is excluded by a precondition in `UnitVector`, `GetUnitVector`, `Comp` and `Proj`.
- Index and null exceptions are preconditions, not modelled outcomes:
  - the three components that `addition`, `subtraction`, `cProduct`, `getUnitVector` and the `Vector` overloads of `dProduct` read;
  - the two components that the direction angles read;
  - the room that `scalarMult` and `unitVector` need when a vector has more components than its type allows.
- Functions.DProduct: Java's saturation of the narrowing cast at the `int` bounds, and `int` overflow in `*=` and in the final sum, are not modelled. The accumulators are unbounded integers.
- Functions.DProductList: the same `int` saturation and overflow are not modelled.
- Functions.DProductComponents: the same `int` saturation and overflow are not modelled.
- Functions.CProduct: the throw-away `new Vector()` that `cProduct` allocates before building its result is not modelled.
- Vectors.Vector.CalculateDirection: for a 2-D vector the source also computes an angle to a zero "z axis" and discards it. That value is not modelled.
- The operand lists are sequences. This covers `Vector...`, `ArrayList<Vector>` and `double[]...`. The `double[]...` operands are modelled as values, because `dProduct` only reads them.
