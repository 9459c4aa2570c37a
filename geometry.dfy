/** Coordinates handed over by the 3D scene. The model only copies them; no arithmetic is done on them. */
module Geometry {
  datatype Vec3 = Vec3(x: real, y: real, z: real)

  const Origin := Vec3(0.0, 0.0, 0.0)
}
