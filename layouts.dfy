/** The GPU-side records and per-draw pipeline data of the three draw
    pipelines (`flat`, `shaded`, `wireframe`). */
module Layouts {
  import opened Gfx

  /** One slot of the light constant buffer: three vec4 fields, so that the
      layout is 16-byte aligned. */
  datatype PointLight = PointLight(propagation: Vec4, center: Vec4, color: Vec4)

  /** The data bound into one draw call, per pipeline. */
  datatype PipelineData =
    | FlatData(
        vbuf: VertexBuffer, ka: Vec4, model: Mat4, view: Mat4, proj: Mat4,
        outKa: ColorView, outDepth: DepthView)
    | ShadedData(
        vbuf: VertexBuffer, ka: Vec4, kd: Vec4, lightCount: int, lights: Buffer,
        model: Mat4, view: Mat4, proj: Mat4, outKa: ColorView, outDepth: DepthView)
    | WireframeData(
        vbuf: VertexBuffer, ka: Vec4, model: Mat4, view: Mat4, proj: Mat4,
        outKa: ColorView)
}
