/**
 * The small vector types of the `glam` library that the voxel layer uses,
 * with exactly the arithmetic the core relies on.
 *
 * `UVec3` components are `u32` in the source; they are `nat` here and the
 * only operation that can leave the `u32` range, `SaturatingAddSigned`,
 * clamps explicitly. Float vectors (`Vec3`, `Vec2`) hold `real`, so the
 * model is exact where the source rounds: f32 cannot represent every
 * integer above 2^24, so `u32 as f32` rounds such coordinates.
 */
module Geometry {

  const U32_MAX: int := 0xFFFF_FFFF

  datatype UVec3 = UVec3(x: nat, y: nat, z: nat)
  datatype IVec3 = IVec3(x: int, y: int, z: int)
  datatype Vec3 = Vec3(x: real, y: real, z: real)
  datatype Vec2 = Vec2(x: real, y: real)

  /** A rotation quaternion; the voxel layer only ever uses the identity. */
  datatype Quat = Quat(x: real, y: real, z: real, w: real)

  const QUAT_IDENTITY: Quat := Quat(0.0, 0.0, 0.0, 1.0)
  const VEC3_ONE: Vec3 := Vec3(1.0, 1.0, 1.0)

  /** Position, rotation and scale of a rendered object. */
  datatype Transform = Transform(position: Vec3, rotation: Quat, scale: Vec3)

  /** One `u32` component plus a signed offset, clamped to `[0, u32::MAX]`. */
  function SaturatingAdd(a: nat, d: int): (r: nat)
    requires a <= U32_MAX
    ensures r <= U32_MAX
    ensures 0 <= a + d <= U32_MAX ==> r == a + d
    ensures a + d < 0 ==> r == 0
    ensures a + d > U32_MAX ==> r == U32_MAX
  {
    if a + d < 0 then 0 else if a + d > U32_MAX then U32_MAX else a + d
  }

  /** `UVec3::saturating_add_signed`: componentwise saturating addition. */
  function SaturatingAddSigned(p: UVec3, d: IVec3): (r: UVec3)
    requires p.x <= U32_MAX && p.y <= U32_MAX && p.z <= U32_MAX
    ensures r.x == SaturatingAdd(p.x, d.x)
    ensures r.y == SaturatingAdd(p.y, d.y)
    ensures r.z == SaturatingAdd(p.z, d.z)
  {
    UVec3(SaturatingAdd(p.x, d.x), SaturatingAdd(p.y, d.y), SaturatingAdd(p.z, d.z))
  }

  /** `u32`-to-`f32` conversion of each component, taken exactly (the source rounds above 2^24). */
  function ToVec3(p: UVec3): Vec3 {
    Vec3(p.x as real, p.y as real, p.z as real)
  }
}
