/** Unity's vector and colour values, and the engine's floating-point
    arithmetic.

    Every float and vector operation the shapes perform rounds in the
    engine, so the model does no arithmetic on them: a computed value is
    the term that names the operations producing it (`Add(Lit(a), Scale(k,
    n))` is `a + k * n` as the engine evaluates it). Equal terms denote
    equal engine values, so an equation proved between terms holds of the
    floats as well. The only places where the shapes branch on a computed
    value are the two comparisons of `Engine`. */
module Vectors {

  /** A literal Vector3, as stored in the anchor array. */
  datatype Vec3 = Vec3(x: real, y: real, z: real)
  datatype Vec2 = Vec2(x: real, y: real)
  datatype Color = Color(r: real, g: real, b: real, a: real)

  /** A float computed by the engine. */
  datatype Num =
    | Real(real)           // a literal, or an int converted to float
    | FNeg(Num)            // -a
    | FSub(Num, Num)       // a - b
    | FMul(Num, Num)       // a * b
    | FDiv(Num, Num)       // a / b (infinite or NaN on a zero divisor)
    | Dot(Vec, Vec)        // Vector3.Dot
    | Angle(Vec, Vec)      // Vector3.Angle, in degrees
    | Y(Vec)               // the y component

  /** A Vector3 computed by the engine. */
  datatype Vec =
    | Lit(Vec3)            // a stored or constant vector
    | Make(Num, Num, Num)  // new Vector3(x, y, z)
    | Add(Vec, Vec)        // a + b
    | Sub(Vec, Vec)        // a - b
    | Neg(Vec)             // -a
    | Scale(Num, Vec)      // k * a
    | Cross(Vec, Vec)      // Vector3.Cross
    | Normalized(Vec)      // a.normalized
    | Rotate(Num, Vec, Vec) // Quaternion.AngleAxis(degrees, axis) * a

  const Up := Lit(Vec3(0.0, 1.0, 0.0))
  const Down := Lit(Vec3(0.0, -1.0, 0.0))
  const Forward := Lit(Vec3(0.0, 0.0, 1.0))

  /** The engine's verdict on the two comparisons the shapes make: the pairs
      that Unity's `Vector3 ==` (a comparison within a tolerance) accepts,
      and the floats that are greater than zero. */
  datatype Engine = Engine(same: iset<(Vec, Vec)>, positive: iset<Num>)
}
