/** The per-pixel geometry of transformToPointCloudData: depth scaling,
    pinhole unprojection with fixed intrinsics, the pose matrix built from the
    quaternion formula, and the six floats emitted for one pixel. */
module Unprojection {
  import opened MathTypes
  import opened PointCloudData

  /** Pinhole intrinsics: principal point and focal lengths. */
  datatype Intrinsics = Intrinsics(cx: real, cy: real, focalX: real, focalY: real) {
    predicate Invertible() {
      focalX != 0.0 && focalY != 0.0
    }
  }

  /** A raw 16-bit depth sample scaled to the distance along the optical axis. */
  function ScaledDepth(d: uint16): (z: real)
    ensures 0.0 <= z < 1000.0
    ensures z == 0.0 <==> d == 0
    ensures z * 65536.0 / 1000.0 == d as real
  {
    d as real * 1000.0 / 65536.0
  }

  /** The homogeneous camera-space point of pixel (row `v`, column `u`) at
      depth `z`. The row-derived coordinate is stored FIRST and the
      column-derived one second. */
  function CameraPoint(k: Intrinsics, v: nat, u: nat, z: real): (p: Vec4)
    requires k.Invertible()
    ensures p.z == z && p.w == 1.0
    ensures z == 0.0 ==> p.x == 0.0 && p.y == 0.0
  {
    var colDerived := -(u as real - k.cx) / k.focalX * z;
    var rowDerived := (v as real - k.cy) / k.focalY * z;
    Vec4(rowDerived, colDerived, z, 1.0)
  }

  /** Unprojection inverts the pinhole projection: projecting the camera point
      of pixel (v, u) at a nonzero depth back through the same intrinsics
      recovers the row from the FIRST coordinate and the column from the
      second. */
  lemma CameraPointProjectsBack(k: Intrinsics, v: nat, u: nat, z: real)
    requires k.Invertible() && z != 0.0
    ensures var p := CameraPoint(k, v, u, z);
            && k.cy + k.focalY * p.x / z == v as real
            && k.cx - k.focalX * p.y / z == u as real
  {
  }

  /** The rotation block of the pose matrix, entry by entry as the
      reconstruction writes it, from the four stored quaternion components in
      their stored order; its translation column is zero. */
  function LiteralRotation(qx: real, qy: real, qz: real, qw: real): Mat4 {
    Mat4(Vec4(2.0 * (qx * qx + qy * qy) - 1.0, 2.0 * (qy * qz - qx * qw), 2.0 * (qy * qw + qx * qz), 0.0),
         Vec4(2.0 * (qy * qz + qx * qw), 2.0 * (qx * qx + qz * qz) - 1.0, 2.0 * (qz * qw - qx * qy), 0.0),
         Vec4(2.0 * (qy * qw - qx * qz), 2.0 * (qz * qw + qx * qy), 2.0 * (qx * qx + qw * qw) - 1.0, 0.0),
         Vec4(0.0, 0.0, 0.0, 1.0))
  }

  /** The 4x4 pose matrix: the literal rotation block with the camera
      position as its translation column. */
  function Transformation(pose: TrajectoryData): (m: Mat4)
    ensures m.r3 == Vec4(0.0, 0.0, 0.0, 1.0)
    ensures m.r0.w == pose.camX && m.r1.w == pose.camY && m.r2.w == pose.camZ
  {
    var r := LiteralRotation(pose.qx, pose.qy, pose.qz, pose.qw);
    Mat4(r.r0.(w := pose.camX), r.r1.(w := pose.camY), r.r2.(w := pose.camZ), r.r3)
  }

  /** For the quaternion (0, 0, 0, 1) the rotation block of the pose matrix
      is diag(-1, -1, 1), not the identity. */
  lemma ScalarLastIdentityFlips(pose: TrajectoryData)
    requires pose.qx == 0.0 && pose.qy == 0.0 && pose.qz == 0.0 && pose.qw == 1.0
    ensures var m := Transformation(pose);
            && m.r0 == Vec4(-1.0, 0.0, 0.0, pose.camX)
            && m.r1 == Vec4(0.0, -1.0, 0.0, pose.camY)
            && m.r2 == Vec4(0.0, 0.0, 1.0, pose.camZ)
  {
  }

  /** Reference definition: the textbook rotation matrix of the quaternion
      w + xi + yj + zk (Hamilton convention), with a zero translation. */
  function QuaternionRotation(w: real, x: real, y: real, z: real): Mat4 {
    Mat4(Vec4(1.0 - 2.0 * (y * y + z * z), 2.0 * (x * y - z * w), 2.0 * (x * z + y * w), 0.0),
         Vec4(2.0 * (x * y + z * w), 1.0 - 2.0 * (x * x + z * z), 2.0 * (y * z - x * w), 0.0),
         Vec4(2.0 * (x * z - y * w), 2.0 * (y * z + x * w), 1.0 - 2.0 * (x * x + y * y), 0.0),
         Vec4(0.0, 0.0, 0.0, 1.0))
  }

  /** The rotation block of a 4x4 matrix with its translation column zeroed. */
  function RotationBlock(m: Mat4): Mat4 {
    Mat4(m.r0.(w := 0.0), m.r1.(w := 0.0), m.r2.(w := 0.0), m.r3)
  }

  /** The world-space position of a homogeneous camera-space point. */
  function WorldPoint(pose: TrajectoryData, cam: Vec4): (p: Vec3)
    ensures cam == Vec4(0.0, 0.0, 0.0, 1.0) ==> p == Vec3(pose.camX, pose.camY, pose.camZ)
  {
    var t := MulVec(Transformation(pose), cam);
    Vec3(t.x, t.y, t.z)
  }

  /** The six floats appended for pixel (row `v`, column `u`): the world
      position, then red, green, blue taken from the stored blue-green-red
      pixel. A zero depth sample puts the point at the pose's translation. */
  function PixelPoint(k: Intrinsics, depth: DepthImage, color: ColorImage,
                      pose: TrajectoryData, v: nat, u: nat): (p: seq<real>)
    requires k.Invertible()
    requires v < depth.rows && u < depth.cols && v < color.rows && u < color.cols
    ensures |p| == 6
    ensures p[3] == color.at[v][u].red as real
    ensures p[4] == color.at[v][u].green as real
    ensures p[5] == color.at[v][u].blue as real
    ensures depth.at[v][u] == 0 ==> p[..3] == [pose.camX, pose.camY, pose.camZ]
  {
    var z := ScaledDepth(depth.at[v][u]);
    var cam := CameraPoint(k, v, u, z);
    assert depth.at[v][u] == 0 ==> cam == Vec4(0.0, 0.0, 0.0, 1.0);
    var world := WorldPoint(pose, cam);
    var c := color.at[v][u];
    [world.x, world.y, world.z, c.red as real, c.green as real, c.blue as real]
  }

  /** For a unit quaternion, the literal entries are the textbook rotation
      of the quaternion whose scalar part is the FIRST stored component. */
  lemma LiteralRotationIsScalarFirst(qx: real, qy: real, qz: real, qw: real)
    requires qx * qx + qy * qy + qz * qz + qw * qw == 1.0
    ensures LiteralRotation(qx, qy, qz, qw) == QuaternionRotation(qx, qy, qz, qw)
  {
  }

  /** The literal formula is the textbook rotation of a unit quaternion whose
      scalar part is the FIRST stored component: (w, x, y, z) = (qx, qy, qz, qw). */
  lemma LiteralFormulaIsScalarFirstRotation(pose: TrajectoryData)
    requires pose.qx * pose.qx + pose.qy * pose.qy + pose.qz * pose.qz + pose.qw * pose.qw == 1.0
    ensures RotationBlock(Transformation(pose)) == QuaternionRotation(pose.qx, pose.qy, pose.qz, pose.qw)
  {
    LiteralRotationIsScalarFirst(pose.qx, pose.qy, pose.qz, pose.qw);
    assert RotationBlock(Transformation(pose)) == LiteralRotation(pose.qx, pose.qy, pose.qz, pose.qw);
  }
}
