# Forward render passes, modelled in Dafny

This project models the forward-rendering passes of the amethyst renderer
(`src/renderer/src/pass/forward.rs`). Each pass is invoked once per frame
with an argument, a colour/depth target, the frame's scenes and cameras, and
a command encoder. The pass records commands into the encoder:

- `Clear` records a colour clear with the argument's colour, then a depth clear to 1.0.
- `DrawNoShading` looks up the scene and camera by name and records one flat draw per fragment, in fragment order.
- `Wireframe` does the same with the wireframe pipeline, into the colour view only.
- `DrawShaded` first packs the scene's point lights into GPU records. It pads the list with all-zero records up to the 512 slots of its constant buffer and records one write of that list at offset 0. It then records one shaded draw per fragment. Each draw gets the number of scene lights, not 512, as `u_LightCount`.

Files:

- `gfx.dfy` (`Gfx`): float payloads and resource handles. An `f32` is kept as its bit pattern (`F32(bits: bv32)`), because the passes only copy floats.
- `scenes.dfy` (`Scenes`): lights, fragments, scenes, cameras, the frame and the pass arguments.
- `layouts.dfy` (`Layouts`): the GPU `PointLight` record and the per-draw data of the `flat`, `shaded` and `wireframe` pipelines.
- `encoder.dfy` (`Encoding`): the encoder, a class whose `commands` sequence grows as commands are recorded. A buffer write that would run past the buffer's end is refused and records nothing.
- `light_packing.dfy` (`LightPacking`): `pad`, the light record mapping, and the padding loop of `DrawShaded::apply` as a method with loop invariants.
- `forward.dfy` (`Forward`): the recording functions of each pass and the four `apply` methods. Each method is proved to append exactly what its function gives, or nothing when it panics.
- `forward_properties.dfy` (`ForwardProperties`): what the recorded commands mean. This covers ordering, bindings, the light count, overflow, missing names, and the effect of the clear pass on its targets.

A Rust panic is modelled as an `Outcome` of `Panicked(reason)`. This covers indexing a `HashMap` with a missing key (the scene is looked up first) and the `.unwrap()` of a refused buffer write. In both cases the encoder is left as it was.

The shaded pass does not cap the light list at 512. One might expect it to keep only the first 512 lights and bind a light count of at most 512, but the code does not truncate. With N > 512 lights the padding loop adds nothing, the N-record write does not fit the 512-slot buffer, and `update_buffer(..).unwrap()` panics before any draw. `DrawShadedOverflowPanics` states this.

## Model

| member | source | states |
|---|---|---|
| `LightPacking.Pad` | src/renderer/src/pass/forward.rs:214-216 | the first three components are the input's and the fourth is 0 |
| `LightPacking.PadXyz` | src/renderer/src/pass/forward.rs:214-216 | every vec4 with fourth component 0 is the padding of its first three (pad is invertible on its image) |
| `LightPacking.PackLight` | src/renderer/src/pass/forward.rs:230-234 | a packed record has zero padding in `propagation` and `center`, and reading it back gives the scene light (constant, linear, r², centre, colour) |
| `LightPacking.PackUnpackLight` | src/renderer/src/pass/forward.rs:230-234 | every record with zero padding is the packing of the light it describes |
| `LightPacking.PackLights` | src/renderer/src/pass/forward.rs:230-234 | one record per scene light, record i is the packing of light i (scene order kept) |
| `LightPacking.UnpackPackLights` | src/renderer/src/pass/forward.rs:230-234 | reading back the packed list gives exactly the scene's lights |
| `LightPacking.ZeroLights` | src/renderer/src/pass/forward.rs:238-242 | n records, each with `propagation`, `color` and `center` all `[0,0,0,0]` |
| `LightPacking.PaddedLights` | src/renderer/src/pass/forward.rs:230-243 | length is 512 when N <= 512 and N otherwise; the first N records are the packed lights; every later record is the zero record |
| `LightPacking.PackLightBuffer` | src/renderer/src/pass/forward.rs:230-243 | the map-then-push loop returns `count == N` and a vector of length max(N, 512) whose first N entries are the packed lights and whose rest are zero records |
| `LightPacking.AsI32` | src/renderer/src/pass/forward.rs:255 | `count as i32` lies in the i32 range and agrees with the count modulo 2^32 |
| `LightPacking.AsI32Exact` | src/renderer/src/pass/forward.rs:255 | a count below 2^31 (so any count up to 512) is passed unchanged |
| `Forward.NewDrawShaded` | src/renderer/src/pass/forward.rs:198-211 | the shaded pass owns a light buffer of exactly 512 slots and the given pipeline |
| `Forward.Resolve` | src/renderer/src/pass/forward.rs:149-150 | the lookup succeeds iff both names are in the frame and yields that scene and camera; otherwise a missing scene is reported before a missing camera |
| `Forward.DrawEach` | src/renderer/src/pass/forward.rs:153-167 | exactly one draw per fragment, draw i being the draw of fragment i |
| `Encoding.Encoder.UpdateBuffer` | src/renderer/src/pass/forward.rs:244 | the write is recorded iff the offset plus the number of records written is at most the buffer's length in records; otherwise it returns `OutOfBounds` with that end and the length, and records nothing (the behaviour the overflow panic rests on) |
| `Forward.ApplyClear` | src/renderer/src/pass/forward.rs:107-112 | appends exactly a colour clear of `target.color` with `arg.color`, then a depth clear of `target.output_depth` with 1.0 |
| `Forward.ApplyDrawNoShading` | src/renderer/src/pass/forward.rs:146-168 | on resolved names, appends exactly the flat draws of the scene's fragments in order; on a missing name, panics and records nothing |
| `Forward.ApplyDrawShaded` | src/renderer/src/pass/forward.rs:224-265 | appends the light write followed by the shaded draws, or panics with nothing recorded on a missing name or a write that does not fit |
| `Forward.ApplyWireframe` | src/renderer/src/pass/forward.rs:302-323 | on resolved names, appends exactly the wireframe draws of the scene's fragments in order; on a missing name, panics and records nothing |
| `ForwardProperties.DrawPassesPanicOnMissingNames` | src/renderer/src/pass/forward.rs:149-150 | the unlit and wireframe passes fail iff the scene or the camera is missing (the same lookup is at lines 227-228 and 305-306); on a missing name all three draw passes panic, with `MissingScene` before `MissingCamera`; the shaded pass's full condition (names resolve and N <= 512) is `DrawShadedRecordsWriteThenDraws` |
| `ForwardProperties.DrawNoShadingDrawsEachFragment` | src/renderer/src/pass/forward.rs:153-167 | one command per fragment, command i draws fragment i (slice, buffer, ka, transform) with the camera's view and projection into both targets, and nothing else |
| `ForwardProperties.WireframeDrawsEachFragment` | src/renderer/src/pass/forward.rs:309-322 | one command per fragment, command i draws fragment i with the camera into the colour view, and nothing else |
| `ForwardProperties.DrawShadedRecordsWriteThenDraws` | src/renderer/src/pass/forward.rs:236-264 | completes iff names resolve and N <= 512; then exactly one whole-buffer write at offset 0 comes first, followed by one draw per fragment in order, each with kd, the light buffer and `light_count == N` |
| `ForwardProperties.DrawShadedOverflowPanics` | src/renderer/src/pass/forward.rs:236-244 | with N > 512 lights the N-record write is out of bounds and the pass panics; nothing is truncated |
| `ForwardProperties.ShaderSeesSceneLights` | src/renderer/src/pass/forward.rs:236-256 | in every shaded draw, the first `light_count` slots of the written buffer read back as the scene's lights in order, and all later slots are zero records |
| `ForwardProperties.ClearResetsTarget` | src/renderer/src/pass/forward.rs:110-111 | after the clear pass the colour view holds `arg.color`, the depth view holds 1.0, and no other view changes |
| `ForwardProperties.ClearIsIdempotent` | src/renderer/src/pass/forward.rs:110-111 | recording the clear pass twice leaves the targets as recording it once |

## Left out

- The GLSL shader sources (forward.rs:9-95) are not modelled. They hold the lit shading formula, which is floating-point arithmetic, and the geometry shader that turns each triangle into a closed line strip. They are text compiled by the graphics library.
- Pipeline and buffer construction through `gfx::Factory` (`DrawNoShading::new`, `DrawShaded::new`, `Wireframe::new`) is not modelled. These are foreign calls, and their only logic is `.unwrap()` on compile or link results. The compiled pipeline is an opaque handle. For the shaded pass, only the 512-slot capacity of its light buffer is kept (`NewDrawShaded`).
- The `gfx_pipeline!` and `gfx_defines!` layouts are kept only as the fields of the per-draw data records. Their shader binding names and depth-test presets are not modelled.
- Cloning resource handles, submitting commands to the GPU, and depth testing are not modelled. A handle is a value, and the encoder only records commands.
- `f32` arithmetic is not modelled. Floats are copied as bit patterns.
- The `Pass` trait is not modelled as a trait. Each pass has its own `Apply…` method with its own argument type. The three draw passes share one argument type, `DrawArg`, holding a scene name and a camera name.
- The encoder's `update_buffer` is modelled by its bounds check, counted in records. The library compares byte sizes, which is the same check scaled by the record size. Its early return for an empty slice is not modelled, because the pass always writes at least 512 records.
- `ForwardProperties.ReplayClears` interprets only clear commands. What draws write into the colour and depth images is not modelled.
