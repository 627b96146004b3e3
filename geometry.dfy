/** The engine's value types that a terrain mesh is made of.

    Unity's `Vector3`, `Vector2` and `Color` are structs of single-precision
    floats; here their components are exact reals. */
module Geometry {

  /** A vertex position: `x` and `z` span the horizontal grid, `y` is the height. */
  datatype Vector3 = Vector3(x: real, y: real, z: real)

  /** A texture coordinate `(u, v)`, stored as Unity's `Vector2(x, y)`. */
  datatype Vector2 = Vector2(x: real, y: real)

  /** A vertex colour as the colour gradient returns it. */
  datatype Color = Color(r: real, g: real, b: real, a: real)
}
