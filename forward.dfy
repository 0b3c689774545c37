/** The forward passes: each records its commands into the frame's encoder.
    `Clear` clears colour and depth; `DrawNoShading`, `DrawShaded` and
    `Wireframe` draw every fragment of one scene through one camera. */
module Forward {
  import opened Gfx
  import opened Scenes
  import opened Layouts
  import opened Encoding
  import opened LightPacking

  /** Why an invocation stops (a Rust panic): a name the frame does not
      hold, or a light buffer write that does not fit. */
  datatype Panic = MissingScene | MissingCamera | LightsOutOfBounds(cause: UpdateError)

  datatype Outcome = Completed | Panicked(reason: Panic)

  /** The pass objects: each owns its pipeline state; the shaded pass also
      owns its light constant buffer. */
  datatype Clear = Clear
  datatype DrawNoShading = DrawNoShading(pso: PipelineState)
  datatype DrawShaded = DrawShaded(lights: Buffer, pso: PipelineState)
  {
    /** The light buffer is the one made for `LightCapacity` slots. */
    predicate Valid()
    {
      lights.len == LightCapacity
    }
  }
  datatype Wireframe = Wireframe(pso: PipelineState)

  /** Assembles a shaded pass from the constant buffer the factory created
      with `LightCapacity` slots and the compiled lit pipeline. */
  function NewDrawShaded(lightsId: nat, pso: PipelineState): (p: DrawShaded)
    ensures p.Valid() && p.pso == pso
    ensures p.lights.id == lightsId
  {
    DrawShaded(Buffer(lightsId, LightCapacity), pso)
  }

  /** The scene and the camera an argument names; the scene is looked up
      first. */
  function Resolve(frame: Frame, arg: DrawArg): (r: Result<(Scene, Camera), Panic>)
    ensures r.Ok? <==> arg.scene in frame.scenes && arg.camera in frame.cameras
    ensures r.Ok? ==> r.value == (frame.scenes[arg.scene], frame.cameras[arg.camera])
    ensures r.Err? ==> r.error == if arg.scene !in frame.scenes then MissingScene else MissingCamera
  {
    if arg.scene !in frame.scenes then Err(MissingScene)
    else if arg.camera !in frame.cameras then Err(MissingCamera)
    else Ok((frame.scenes[arg.scene], frame.cameras[arg.camera]))
  }

  /** What one draw binds, per pipeline. */
  datatype Pipeline =
    | FlatPipeline(pso: PipelineState)
    | ShadedPipeline(pso: PipelineState, lights: Buffer, lightCount: int)
    | WireframePipeline(pso: PipelineState)

  /** The draw of one fragment through a pipeline, a camera and a target. */
  function DrawOf(p: Pipeline, camera: Camera, target: ColorBuffer, e: Fragment): Command
  {
    match p
    case FlatPipeline(pso) =>
      Draw(e.slice, pso, FlatData(e.buffer, e.ka, e.transform, camera.view, camera.projection,
                                  target.color, target.outputDepth))
    case ShadedPipeline(pso, lights, lightCount) =>
      Draw(e.slice, pso, ShadedData(e.buffer, e.ka, e.kd, lightCount, lights, e.transform,
                                    camera.view, camera.projection, target.color, target.outputDepth))
    case WireframePipeline(pso) =>
      Draw(e.slice, pso, WireframeData(e.buffer, e.ka, e.transform, camera.view, camera.projection,
                                       target.color))
  }

  /** The draws of a fragment list: exactly one per fragment, in fragment
      order. */
  function DrawEach(p: Pipeline, camera: Camera, target: ColorBuffer, fragments: seq<Fragment>)
    : (r: seq<Command>)
    ensures |r| == |fragments|
    ensures forall i :: 0 <= i < |fragments| ==> r[i] == DrawOf(p, camera, target, fragments[i])
  {
    if fragments == [] then []
    else
      var n := |fragments| - 1;
      DrawEach(p, camera, target, fragments[..n]) + [DrawOf(p, camera, target, fragments[n])]
  }

  /** One step of the `for e in &scene.fragments` loops. */
  lemma DrawEachStep(p: Pipeline, camera: Camera, target: ColorBuffer, fragments: seq<Fragment>, i: nat)
    requires i < |fragments|
    ensures DrawEach(p, camera, target, fragments[..i + 1])
         == DrawEach(p, camera, target, fragments[..i]) + [DrawOf(p, camera, target, fragments[i])]
  {
    assert fragments[..i + 1][..i] == fragments[..i];
  }

  // ---- What each pass records, as functions of its inputs ----

  function ClearCommands(arg: ClearArg, target: ColorBuffer): seq<Command>
  {
    [ClearColor(target.color, arg.color), ClearDepth(target.outputDepth, One)]
  }

  function DrawNoShadingCommands(pass: DrawNoShading, arg: DrawArg, target: ColorBuffer, frame: Frame)
    : Result<seq<Command>, Panic>
  {
    match Resolve(frame, arg)
    case Err(p) => Err(p)
    case Ok((scene, camera)) => Ok(DrawEach(FlatPipeline(pass.pso), camera, target, scene.fragments))
  }

  /** The light buffer write, then one shaded draw per fragment bound to the
      pre-padding light count; a write that does not fit panics first. */
  function DrawShadedCommands(pass: DrawShaded, arg: DrawArg, target: ColorBuffer, frame: Frame)
    : Result<seq<Command>, Panic>
  {
    match Resolve(frame, arg)
    case Err(p) => Err(p)
    case Ok((scene, camera)) =>
      var lights := PaddedLights(scene.lights);
      if |lights| <= pass.lights.len then
        var p := ShadedPipeline(pass.pso, pass.lights, AsI32(|scene.lights|));
        Ok([UpdateBuffer(pass.lights, lights, 0)] + DrawEach(p, camera, target, scene.fragments))
      else
        Err(LightsOutOfBounds(OutOfBounds(|lights|, pass.lights.len)))
  }

  function WireframeCommands(pass: Wireframe, arg: DrawArg, target: ColorBuffer, frame: Frame)
    : Result<seq<Command>, Panic>
  {
    match Resolve(frame, arg)
    case Err(p) => Err(p)
    case Ok((scene, camera)) => Ok(DrawEach(WireframePipeline(pass.pso), camera, target, scene.fragments))
  }

  /** The encoder after an invocation whose recording is `spec`: on success
      the commands are appended; on a panic nothing is. */
  ghost predicate Recorded(spec: Result<seq<Command>, Panic>, o: Outcome, before: seq<Command>, after: seq<Command>)
  {
    match spec
    case Ok(cmds) => o == Completed && after == before + cmds
    case Err(p) => o == Panicked(p) && after == before
  }

  // ---- The passes ----

  /** Clears the colour target to `arg.color`, then the depth target to 1.0. */
  method ApplyClear(pass: Clear, arg: ClearArg, target: ColorBuffer, frame: Frame, encoder: Encoder)
    modifies encoder
    ensures encoder.commands == old(encoder.commands) + ClearCommands(arg, target)
  {
    encoder.Clear(target.color, arg.color);
    encoder.ClearDepth(target.outputDepth, One);
  }

  method ApplyDrawNoShading(pass: DrawNoShading, arg: DrawArg, target: ColorBuffer, frame: Frame,
                            encoder: Encoder)
    returns (o: Outcome)
    modifies encoder
    ensures Recorded(DrawNoShadingCommands(pass, arg, target, frame), o, old(encoder.commands), encoder.commands)
  {
    if arg.scene !in frame.scenes {
      return Panicked(MissingScene);
    }
    var scene := frame.scenes[arg.scene];
    if arg.camera !in frame.cameras {
      return Panicked(MissingCamera);
    }
    var camera := frame.cameras[arg.camera];
    var p := FlatPipeline(pass.pso);
    var i := 0;
    while i < |scene.fragments|
      invariant i <= |scene.fragments|
      invariant encoder.commands == old(encoder.commands) + DrawEach(p, camera, target, scene.fragments[..i])
    {
      var e := scene.fragments[i];
      encoder.Draw(e.slice, pass.pso,
                   FlatData(e.buffer, e.ka, e.transform, camera.view, camera.projection,
                            target.color, target.outputDepth));
      DrawEachStep(p, camera, target, scene.fragments, i);
      i := i + 1;
    }
    assert scene.fragments[..i] == scene.fragments;
    o := Completed;
  }

  method ApplyDrawShaded(pass: DrawShaded, arg: DrawArg, target: ColorBuffer, frame: Frame,
                         encoder: Encoder)
    returns (o: Outcome)
    modifies encoder
    ensures Recorded(DrawShadedCommands(pass, arg, target, frame), o, old(encoder.commands), encoder.commands)
  {
    if arg.scene !in frame.scenes {
      return Panicked(MissingScene);
    }
    var scene := frame.scenes[arg.scene];
    if arg.camera !in frame.cameras {
      return Panicked(MissingCamera);
    }
    var camera := frame.cameras[arg.camera];
    var lights, count := PackLightBuffer(scene.lights);
    var written := encoder.UpdateBuffer(pass.lights, lights, 0);
    if written.Err? {
      return Panicked(LightsOutOfBounds(written.error));
    }
    var p := ShadedPipeline(pass.pso, pass.lights, AsI32(count));
    ghost var start := old(encoder.commands) + [UpdateBuffer(pass.lights, lights, 0)];
    var i := 0;
    while i < |scene.fragments|
      invariant i <= |scene.fragments|
      invariant encoder.commands == start + DrawEach(p, camera, target, scene.fragments[..i])
    {
      var e := scene.fragments[i];
      encoder.Draw(e.slice, pass.pso,
                   ShadedData(e.buffer, e.ka, e.kd, AsI32(count), pass.lights, e.transform,
                              camera.view, camera.projection, target.color, target.outputDepth));
      DrawEachStep(p, camera, target, scene.fragments, i);
      i := i + 1;
    }
    assert scene.fragments[..i] == scene.fragments;
    o := Completed;
  }

  method ApplyWireframe(pass: Wireframe, arg: DrawArg, target: ColorBuffer, frame: Frame,
                        encoder: Encoder)
    returns (o: Outcome)
    modifies encoder
    ensures Recorded(WireframeCommands(pass, arg, target, frame), o, old(encoder.commands), encoder.commands)
  {
    if arg.scene !in frame.scenes {
      return Panicked(MissingScene);
    }
    var scene := frame.scenes[arg.scene];
    if arg.camera !in frame.cameras {
      return Panicked(MissingCamera);
    }
    var camera := frame.cameras[arg.camera];
    var p := WireframePipeline(pass.pso);
    var i := 0;
    while i < |scene.fragments|
      invariant i <= |scene.fragments|
      invariant encoder.commands == old(encoder.commands) + DrawEach(p, camera, target, scene.fragments[..i])
    {
      var e := scene.fragments[i];
      encoder.Draw(e.slice, pass.pso,
                   WireframeData(e.buffer, e.ka, e.transform, camera.view, camera.projection,
                                 target.color));
      DrawEachStep(p, camera, target, scene.fragments, i);
      i := i + 1;
    }
    assert scene.fragments[..i] == scene.fragments;
    o := Completed;
  }
}
