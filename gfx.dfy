/** The part of the gfx graphics abstraction that the forward passes touch:
    the plain float payloads they copy into pipeline data and the opaque
    resource handles they bind. Nothing here computes on a float. */
module Gfx {

  /** A Rust `f32`, kept as its IEEE-754 bit pattern. The passes only copy
      floats, so equality of bit patterns is all the model needs. */
  datatype F32 = F32(bits: bv32)

  /** 0.0 */
  const Zero: F32 := F32(0)
  /** 1.0 */
  const One: F32 := F32(0x3F80_0000)

  /** `[f32; 3]` */
  datatype Vec3 = Vec3(x: F32, y: F32, z: F32)

  /** `[f32; 4]` */
  datatype Vec4 = Vec4(x: F32, y: F32, z: F32, w: F32)

  /** `[0., 0., 0., 0.]` */
  const ZeroVec4: Vec4 := Vec4(Zero, Zero, Zero, Zero)

  /** `[[f32; 4]; 4]`, four `Vec4`s in the order the graphics library lays them out */
  datatype Mat4 = Mat4(m0: Vec4, m1: Vec4, m2: Vec4, m3: Vec4)

  /** Handle to a vertex buffer of `VertexPosNormal`. */
  datatype VertexBuffer = VertexBuffer(id: nat)

  /** The draw range of a mesh (`gfx::Slice`). */
  datatype Slice = Slice(id: nat)

  /** A compiled pipeline state object. */
  datatype PipelineState = PipelineState(id: nat)

  /** A render-target view (colour image). */
  datatype ColorView = ColorView(id: nat)

  /** A depth-stencil view. */
  datatype DepthView = DepthView(id: nat)

  /** Handle to a GPU buffer, with the number of elements it was created for. */
  datatype Buffer = Buffer(id: nat, len: nat)

  datatype Result<T, E> = Ok(value: T) | Err(error: E)
}
