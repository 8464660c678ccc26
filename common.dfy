/** Engine value types the game code works with: 2D/3D vectors, the rotation
    quaternion and the transform of an entity. Components are reals; f32
    rounding is not modelled. */
module Common {

  datatype Option<T> = None | Some(value: T)

  datatype Vec2 = Vec2(x: real, y: real)

  datatype Vec3 = Vec3(x: real, y: real, z: real)

  datatype Quat = Quat(x: real, y: real, z: real, w: real)

  /** An entity's placement: only `translation` is touched by the game systems. */
  datatype Transform = Transform(translation: Vec3, rotation: Quat, scale: Vec3)

  const IDENTITY: Quat := Quat(0.0, 0.0, 0.0, 1.0)
  const ONE: Vec3 := Vec3(1.0, 1.0, 1.0)

  /** `Transform { translation, ..default() }` */
  function AtTranslation(translation: Vec3): Transform
  {
    Transform(translation, IDENTITY, ONE)
  }

  /** `f32::min` (NaN operands are not modelled). */
  function Min(a: real, b: real): real
  {
    if a <= b then a else b
  }

  /** `f32::max` (NaN operands are not modelled). */
  function Max(a: real, b: real): real
  {
    if a >= b then a else b
  }

  function Abs(a: real): real
  {
    if a < 0.0 then -a else a
  }
}
