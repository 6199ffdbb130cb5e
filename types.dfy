/** Value records and the word type of the scene buffer (engine.h:5-49). */
module Types {

  /** The exclusive bound of `uint32_t` and `unsigned int`. */
  const U32_LIMIT: int := 0x1_0000_0000

  /** A `uint32_t` or `unsigned int` value. */
  type u32 = n: int | 0 <= n < 0x1_0000_0000

  /**
   * The value of one `float` component. The codec only copies these; the one
   * comparison in the core (the triangle index check) compares the value.
   * NaN, infinities and rounding are not modelled.
   */
  type Flt = real

  datatype Vec2 = Vec2(x: Flt, y: Flt)
  datatype Vec3 = Vec3(x: Flt, y: Flt, z: Flt)
  datatype Quat = Quat(a: Flt, i: Flt, j: Flt, k: Flt)

  /**
   * One 32-bit word of the scene buffer, tagged with the view it was written
   * through: a `uint32_t` count (`U`) or a `float` component (`F`).
   */
  datatype Word = U(n: u32) | F(v: Flt)

  datatype Option<T> = None | Some(value: T)

  /** The exceptions the attach operations throw. */
  datatype ValidationError =
    | TriangleReferencesMissingVertex   // std::runtime_error in Geometry::loadTriangles
    | NormalsCountMismatch              // std::invalid_argument in Mesh::loadNormals
    | UVsCountMismatch                  // std::invalid_argument in Mesh::loadUVs

  datatype Status = Success | Failure(error: ValidationError)
}
