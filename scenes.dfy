/** The frame data the passes read: scenes and cameras keyed by name, and the
    arguments and target each pass invocation receives. All of it is
    read-only while a pass records its commands. */
module Scenes {
  import opened Gfx

  /** A scene-side point light: three attenuation coefficients, a position
      and a colour. */
  datatype Light = Light(
    center: Vec3,
    propagationConstant: F32,
    propagationLinear: F32,
    propagationRSquare: F32,
    color: Vec4)

  /** A drawable entity: its mesh, its ambient and diffuse colours and its
      model transform. */
  datatype Fragment = Fragment(
    buffer: VertexBuffer,
    slice: Slice,
    ka: Vec4,
    kd: Vec4,
    transform: Mat4)

  /** Fragments and lights, each in insertion order. */
  datatype Scene = Scene(fragments: seq<Fragment>, lights: seq<Light>)

  datatype Camera = Camera(projection: Mat4, view: Mat4)

  /** Everything a frame may draw, looked up by the names in a pass argument. */
  datatype Frame = Frame(scenes: map<string, Scene>, cameras: map<string, Camera>)

  /** The colour target and the depth target a pass draws into. */
  datatype ColorBuffer = ColorBuffer(color: ColorView, outputDepth: DepthView)

  /** Argument of the clear pass. */
  datatype ClearArg = ClearArg(color: Vec4)

  /** Argument of each draw pass: which scene to draw through which camera. */
  datatype DrawArg = DrawArg(scene: string, camera: string)
}
