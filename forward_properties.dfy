/** What the forward passes promise about the commands they record, stated
    against the recording functions of `Forward`. */
module ForwardProperties {
  import opened Gfx
  import opened Scenes
  import opened Layouts
  import opened Encoding
  import opened LightPacking
  import opened Forward

  /** `c` draws fragment `e` with pipeline state `pso`, through `camera`, into
      the colour view of `target`: the bindings all three draw pipelines share. */
  predicate DrawsFragment(c: Command, pso: PipelineState, e: Fragment, camera: Camera, target: ColorBuffer)
  {
    && c.Draw?
    && c.slice == e.slice && c.pso == pso
    && c.data.vbuf == e.buffer && c.data.ka == e.ka && c.data.model == e.transform
    && c.data.view == camera.view && c.data.proj == camera.projection
    && c.data.outKa == target.color
  }

  /** The unlit and wireframe passes panic exactly when the frame lacks the
      scene or the camera their argument names. On a missing name all three
      draw passes panic, reporting a missing scene before a missing camera.
      The shaded pass can also panic with both names present (too many
      lights); its full condition is `DrawShadedRecordsWriteThenDraws`. */
  lemma DrawPassesPanicOnMissingNames(flat: DrawNoShading, shaded: DrawShaded, wire: Wireframe,
                                      arg: DrawArg, target: ColorBuffer, frame: Frame)
    ensures var r := DrawNoShadingCommands(flat, arg, target, frame);
      r.Err? <==> arg.scene !in frame.scenes || arg.camera !in frame.cameras
    ensures var r := WireframeCommands(wire, arg, target, frame);
      r.Err? <==> arg.scene !in frame.scenes || arg.camera !in frame.cameras
    ensures arg.scene !in frame.scenes ==>
      && DrawNoShadingCommands(flat, arg, target, frame) == Err(MissingScene)
      && DrawShadedCommands(shaded, arg, target, frame) == Err(MissingScene)
      && WireframeCommands(wire, arg, target, frame) == Err(MissingScene)
    ensures arg.scene in frame.scenes && arg.camera !in frame.cameras ==>
      && DrawNoShadingCommands(flat, arg, target, frame) == Err(MissingCamera)
      && DrawShadedCommands(shaded, arg, target, frame) == Err(MissingCamera)
      && WireframeCommands(wire, arg, target, frame) == Err(MissingCamera)
  {
  }

  /** The unlit pass records one draw per fragment of the scene, in fragment
      order, binding the fragment, the camera and both targets, and nothing
      else. */
  lemma DrawNoShadingDrawsEachFragment(pass: DrawNoShading, arg: DrawArg, target: ColorBuffer, frame: Frame)
    requires arg.scene in frame.scenes && arg.camera in frame.cameras
    ensures var fragments := frame.scenes[arg.scene].fragments;
      var camera := frame.cameras[arg.camera];
      && DrawNoShadingCommands(pass, arg, target, frame).Ok?
      && var cmds := DrawNoShadingCommands(pass, arg, target, frame).value;
      && |cmds| == |fragments|
      && forall i :: 0 <= i < |fragments| ==>
           && DrawsFragment(cmds[i], pass.pso, fragments[i], camera, target)
           && cmds[i].data.FlatData?
           && cmds[i].data.outDepth == target.outputDepth
  {
  }

  /** The wireframe pass records one draw per fragment, in fragment order,
      into the colour view only. */
  lemma WireframeDrawsEachFragment(pass: Wireframe, arg: DrawArg, target: ColorBuffer, frame: Frame)
    requires arg.scene in frame.scenes && arg.camera in frame.cameras
    ensures var fragments := frame.scenes[arg.scene].fragments;
      var camera := frame.cameras[arg.camera];
      && WireframeCommands(pass, arg, target, frame).Ok?
      && var cmds := WireframeCommands(pass, arg, target, frame).value;
      && |cmds| == |fragments|
      && forall i :: 0 <= i < |fragments| ==>
           DrawsFragment(cmds[i], pass.pso, fragments[i], camera, target) && cmds[i].data.WireframeData?
  {
  }

  /** The shaded pass completes exactly when both names resolve and the scene
      has at most `LightCapacity` lights; it then records one write of the
      whole padded light list at offset 0, followed by one draw per fragment
      in fragment order, each bound to the light buffer and to the number of
      scene lights, not to the capacity. */
  lemma DrawShadedRecordsWriteThenDraws(pass: DrawShaded, arg: DrawArg, target: ColorBuffer, frame: Frame)
    requires pass.Valid()
    ensures DrawShadedCommands(pass, arg, target, frame).Ok? <==>
      && arg.scene in frame.scenes && arg.camera in frame.cameras
      && |frame.scenes[arg.scene].lights| <= LightCapacity
    ensures DrawShadedCommands(pass, arg, target, frame).Ok? ==>
      var scene := frame.scenes[arg.scene];
      var camera := frame.cameras[arg.camera];
      var cmds := DrawShadedCommands(pass, arg, target, frame).value;
      && |cmds| == 1 + |scene.fragments|
      && cmds[0] == UpdateBuffer(pass.lights, PaddedLights(scene.lights), 0)
      && |cmds[0].contents| == pass.lights.len
      && forall i :: 0 <= i < |scene.fragments| ==>
           && DrawsFragment(cmds[1 + i], pass.pso, scene.fragments[i], camera, target)
           && cmds[1 + i].data.ShadedData?
           && cmds[1 + i].data.kd == scene.fragments[i].kd
           && cmds[1 + i].data.lights == pass.lights
           && cmds[1 + i].data.lightCount == |scene.lights|
           && cmds[1 + i].data.outDepth == target.outputDepth
  {
    if DrawShadedCommands(pass, arg, target, frame).Ok? {
      AsI32Exact(|frame.scenes[arg.scene].lights|);
    }
  }

  /** A scene with more lights than the buffer holds is not truncated: the
      write of all of them is refused and the pass panics before any draw. */
  lemma DrawShadedOverflowPanics(pass: DrawShaded, arg: DrawArg, target: ColorBuffer, frame: Frame)
    requires pass.Valid()
    requires arg.scene in frame.scenes && arg.camera in frame.cameras
    requires |frame.scenes[arg.scene].lights| > LightCapacity
    ensures DrawShadedCommands(pass, arg, target, frame)
         == Err(LightsOutOfBounds(OutOfBounds(|frame.scenes[arg.scene].lights|, LightCapacity)))
  {
  }

  /** What the lit shader sees after the write: its loop over the first
      `lightCount` slots reads back exactly the scene's lights, in order, and
      every later slot is the zero slot. */
  lemma ShaderSeesSceneLights(pass: DrawShaded, arg: DrawArg, target: ColorBuffer, frame: Frame, k: nat)
    requires pass.Valid()
    requires DrawShadedCommands(pass, arg, target, frame).Ok?
    requires k < |frame.scenes[arg.scene].fragments|
    ensures var scene := frame.scenes[arg.scene];
      var cmds := DrawShadedCommands(pass, arg, target, frame).value;
      var n := cmds[1 + k].data.lightCount;
      && 0 <= n <= |cmds[0].contents|
      && UnpackLights(cmds[0].contents[..n]) == scene.lights
      && forall j :: n <= j < |cmds[0].contents| ==> cmds[0].contents[j] == ZeroLight
  {
    var scene := frame.scenes[arg.scene];
    DrawShadedRecordsWriteThenDraws(pass, arg, target, frame);
    UnpackPackLights(scene.lights);
  }

  // ---- The clear pass on the targets it clears ----

  /** The uniform value each colour and depth view was last cleared to. */
  datatype Surfaces = Surfaces(colors: map<ColorView, Vec4>, depths: map<DepthView, F32>)

  /** The effect of one command on the cleared values; only clears change
      them, and a clear overwrites its whole view. */
  function ClearStep(s: Surfaces, c: Command): Surfaces
  {
    match c
    case ClearColor(v, color) => s.(colors := s.colors[v := color])
    case ClearDepth(v, depth) => s.(depths := s.depths[v := depth])
    case _ => s
  }

  /** The effect of the clears among `cmds`, in order. Writes and draws are
      not interpreted. */
  function ReplayClears(s: Surfaces, cmds: seq<Command>): Surfaces
    decreases |cmds|
  {
    if cmds == [] then s else ReplayClears(ClearStep(s, cmds[0]), cmds[1..])
  }

  lemma {:induction false} ReplayClearsAppend(s: Surfaces, a: seq<Command>, b: seq<Command>)
    ensures ReplayClears(s, a + b) == ReplayClears(ReplayClears(s, a), b)
    decreases |a|
  {
    if a != [] {
      assert (a + b)[0] == a[0] && (a + b)[1..] == a[1..] + b;
      ReplayClearsAppend(ClearStep(s, a[0]), a[1..], b);
    } else {
      assert a + b == b;
    }
  }

  /** After the clear pass the colour view holds `arg.color`, the depth view
      holds 1.0, and every other view is untouched. */
  lemma ClearResetsTarget(arg: ClearArg, target: ColorBuffer, s: Surfaces)
    ensures var t := ReplayClears(s, ClearCommands(arg, target));
      && t.colors == s.colors[target.color := arg.color]
      && t.depths == s.depths[target.outputDepth := One]
  {
    var cmds := ClearCommands(arg, target);
    assert cmds[1..][1..] == [];
    var afterColor := ClearStep(s, cmds[0]);
    assert ReplayClears(s, cmds) == ReplayClears(afterColor, cmds[1..]);
    assert ReplayClears(afterColor, cmds[1..]) == ReplayClears(ClearStep(afterColor, cmds[1]), []);
  }

  /** Recording the clear pass twice leaves the targets as recording it once. */
  lemma ClearIsIdempotent(arg: ClearArg, target: ColorBuffer, s: Surfaces)
    ensures var cmds := ClearCommands(arg, target);
      ReplayClears(s, cmds + cmds) == ReplayClears(s, cmds)
  {
    var cmds := ClearCommands(arg, target);
    ReplayClearsAppend(s, cmds, cmds);
    ClearResetsTarget(arg, target, s);
    ClearResetsTarget(arg, target, ReplayClears(s, cmds));
    var once := ReplayClears(s, cmds);
    assert once.colors[target.color := arg.color] == once.colors;
    assert once.depths[target.outputDepth := One] == once.depths;
  }
}
