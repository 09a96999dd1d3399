/** Machine integer widths used by the C++ sources, and the small fixed-size
    vector and matrix values (Eigen::Vector4f / Matrix4f, QVector3D /
    QMatrix4x4) the core computes with. Floats are modelled as `real`. */
module MathTypes {

  type int32 = x: int | -0x8000_0000 <= x < 0x8000_0000
  type uint32 = x: int | 0 <= x < 0x1_0000_0000
  type uint64 = x: int | 0 <= x < 0x1_0000_0000_0000_0000
  type uint16 = x: int | 0 <= x < 0x1_0000
  type uint8 = x: int | 0 <= x < 0x100

  const INT32_MAX: int := 0x7fff_ffff

  datatype Vec3 = Vec3(x: real, y: real, z: real)

  datatype Vec4 = Vec4(x: real, y: real, z: real, w: real)

  /** A 4x4 matrix given row by row. */
  datatype Mat4 = Mat4(r0: Vec4, r1: Vec4, r2: Vec4, r3: Vec4)

  function Dot(a: Vec4, b: Vec4): real {
    a.x * b.x + a.y * b.y + a.z * b.z + a.w * b.w
  }

  /** Matrix times column vector. */
  function MulVec(m: Mat4, p: Vec4): Vec4 {
    Vec4(Dot(m.r0, p), Dot(m.r1, p), Dot(m.r2, p), Dot(m.r3, p))
  }

  const Identity4: Mat4 :=
    Mat4(Vec4(1.0, 0.0, 0.0, 0.0),
         Vec4(0.0, 1.0, 0.0, 0.0),
         Vec4(0.0, 0.0, 1.0, 0.0),
         Vec4(0.0, 0.0, 0.0, 1.0))

  const Zero3: Vec3 := Vec3(0.0, 0.0, 0.0)
}
