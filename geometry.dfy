/** Values shared by every part of the annotation pipeline: bytes, vectors,
    colours and the primitives that a line batch holds. Engine geometry
    (quaternion rotation, trigonometry) is not computed: a rotated point is
    kept symbolically as origin, rotation and local offset. */
module Geometry {

  /** An 8-bit channel (uint8 in the source). */
  newtype byte = x: int | 0 <= x < 256

  /** A world-space vector (FVector); single-precision rounding is not modelled. */
  datatype Vec = Vec(x: real, y: real, z: real)

  function Add(a: Vec, b: Vec): Vec
  {
    Vec(a.x + b.x, a.y + b.y, a.z + b.z)
  }

  function Sub(a: Vec, b: Vec): Vec
  {
    Vec(a.x - b.x, a.y - b.y, a.z - b.z)
  }

  function Scale(k: real, a: Vec): Vec
  {
    Vec(k * a.x, k * a.y, k * a.z)
  }

  /** A rotation (FQuat); carried through unchanged, never evaluated. */
  datatype Quat = Quat(x: real, y: real, z: real, w: real)

  const IdentityQuat: Quat := Quat(0.0, 0.0, 0.0, 1.0)

  /** A vertex of a drawn primitive: an explicit world position, or
      `origin + rotation.RotateVector(offset)`. */
  datatype Point = At(v: Vec) | Rotated(origin: Vec, rotation: Quat, offset: Vec)

  /** FColor, channels in R, G, B, A order. */
  datatype Color = Color(r: byte, g: byte, b: byte, a: byte)

  const White: Color := Color(255, 255, 255, 255)

  /** ESceneDepthPriorityGroup::SDPG_World, the depth priority of every annotation. */
  const SdpgWorld: byte := 0

  /** What a line batch records for one draw call. */
  datatype Primitive =
    | Line(start: Point, end: Point, color: Color, depthPriority: byte, thickness: real)
    | SolidBox(center: Vec, extent: Vec, rotation: Quat, color: Color, depthPriority: byte)
    | Capsule(center: Vec, halfHeight: real, radius: real, rotation: Quat, color: Color,
              depthPriority: byte, thickness: real)
    | Mesh(vertices: seq<Point>, indices: seq<int>, color: Color, depthPriority: byte)
}
