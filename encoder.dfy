/** The command encoder: a recorder that appends commands to a stream which
    is submitted to the GPU later, outside the passes. */
module Encoding {
  import opened Gfx
  import opened Layouts

  datatype Command =
    | ClearColor(colorView: ColorView, color: Vec4)
    | ClearDepth(depthView: DepthView, depth: F32)
    | UpdateBuffer(buffer: Buffer, contents: seq<PointLight>, offset: nat)
    | Draw(slice: Slice, pso: PipelineState, data: PipelineData)

  /** A buffer write that does not fit: the end it asks for and the buffer's
      length. */
  datatype UpdateError = OutOfBounds(target: nat, source: nat)

  class Encoder {
    /** Every command recorded so far, oldest first. */
    var commands: seq<Command>

    constructor ()
      ensures commands == []
    {
      commands := [];
    }

    method Clear(view: ColorView, color: Vec4)
      modifies this
      ensures commands == old(commands) + [Command.ClearColor(view, color)]
    {
      commands := commands + [Command.ClearColor(view, color)];
    }

    method ClearDepth(view: DepthView, depth: F32)
      modifies this
      ensures commands == old(commands) + [Command.ClearDepth(view, depth)]
    {
      commands := commands + [Command.ClearDepth(view, depth)];
    }

    /** Records a write of `data` at element `offset` of `buffer`, or refuses
        it, recording nothing, when it would run past the buffer's end. */
    method UpdateBuffer(buffer: Buffer, data: seq<PointLight>, offset: nat)
      returns (r: Result<(), UpdateError>)
      modifies this
      ensures r.Ok? <==> offset + |data| <= buffer.len
      ensures r.Ok? ==> commands == old(commands) + [Command.UpdateBuffer(buffer, data, offset)]
      ensures r.Err? ==> r.error == OutOfBounds(offset + |data|, buffer.len)
      ensures r.Err? ==> commands == old(commands)
    {
      if offset + |data| <= buffer.len {
        commands := commands + [Command.UpdateBuffer(buffer, data, offset)];
        r := Ok(());
      } else {
        r := Err(OutOfBounds(offset + |data|, buffer.len));
      }
    }

    method Draw(slice: Slice, pso: PipelineState, data: PipelineData)
      modifies this
      ensures commands == old(commands) + [Command.Draw(slice, pso, data)]
    {
      commands := commands + [Command.Draw(slice, pso, data)];
    }
  }
}
