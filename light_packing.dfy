/** How the shaded pass turns a scene's lights into the contents of its
    fixed-size light constant buffer, and the light count the shader loops to. */
module LightPacking {
  import opened Gfx
  import opened Scenes
  import opened Layouts

  /** Number of slots in the light constant buffer and in the shader's
      `MAX_NUM_TOTAL_LIGHTS` array. */
  const LightCapacity: nat := 512

  /** The first three components of a vec4. */
  function Xyz(v: Vec4): Vec3
  {
    Vec3(v.x, v.y, v.z)
  }

  /** Widens a position to a vec4 whose fourth component is 0: it keeps the
      position and adds nothing else. */
  function Pad(x: Vec3): (r: Vec4)
    ensures Xyz(r) == x
    ensures r.w == Zero
  {
    Vec4(x.x, x.y, x.z, Zero)
  }

  /** Padding is undone by `Xyz`, and every vec4 with a zero fourth
      component is the padding of its first three. */
  lemma PadXyz(v: Vec4)
    requires v.w == Zero
    ensures Pad(Xyz(v)) == v
  {
  }

  /** The slot a scene light occupies in the buffer. */
  function PackLight(l: Light): (r: PointLight)
    ensures IsPacked(r)
    ensures UnpackLight(r) == l
  {
    PointLight(
      Vec4(l.propagationConstant, l.propagationLinear, l.propagationRSquare, Zero),
      Pad(l.center),
      l.color)
  }

  /** A slot whose two padding components are 0. */
  predicate IsPacked(r: PointLight)
  {
    r.propagation.w == Zero && r.center.w == Zero
  }

  /** The scene light a slot describes, as the shader reads it. */
  function UnpackLight(r: PointLight): Light
  {
    Light(Xyz(r.center), r.propagation.x, r.propagation.y, r.propagation.z, r.color)
  }

  /** Packing loses nothing: a slot with zero padding is the packing of the
      light it describes. */
  lemma PackUnpackLight(r: PointLight)
    requires IsPacked(r)
    ensures PackLight(UnpackLight(r)) == r
  {
    PadXyz(r.center);
  }

  /** The all-zero slot that fills the buffer past the active lights. */
  const ZeroLight: PointLight := PointLight(ZeroVec4, ZeroVec4, ZeroVec4)

  /** The scene's lights packed one for one, in scene order. */
  function PackLights(lights: seq<Light>): (r: seq<PointLight>)
    ensures |r| == |lights|
    ensures forall i :: 0 <= i < |lights| ==> r[i] == PackLight(lights[i])
  {
    if lights == [] then [] else [PackLight(lights[0])] + PackLights(lights[1..])
  }

  /** The lights a sequence of slots describes, in order. */
  function UnpackLights(slots: seq<PointLight>): seq<Light>
  {
    if slots == [] then [] else [UnpackLight(slots[0])] + UnpackLights(slots[1..])
  }

  /** Reading back the packed lights gives the scene's lights. */
  lemma {:induction false} UnpackPackLights(lights: seq<Light>)
    ensures UnpackLights(PackLights(lights)) == lights
  {
    if lights != [] {
      assert PackLights(lights)[1..] == PackLights(lights[1..]);
      UnpackPackLights(lights[1..]);
    }
  }

  /** `n` zero slots. */
  function ZeroLights(n: nat): (r: seq<PointLight>)
    ensures |r| == n
    ensures forall i :: 0 <= i < n ==> r[i] == ZeroLight
  {
    if n == 0 then [] else ZeroLights(n - 1) + [ZeroLight]
  }

  /** The contents written to the light buffer for a scene: its packed lights
      followed by zero slots up to the capacity. There is no cap: more lights
      than the capacity are all kept, and the result is then longer than the
      buffer. */
  function PaddedLights(lights: seq<Light>): (r: seq<PointLight>)
    ensures |r| == if |lights| <= LightCapacity then LightCapacity else |lights|
    ensures r[..|lights|] == PackLights(lights)
    ensures forall i :: 0 <= i < |lights| ==> r[i] == PackLight(lights[i])
    ensures forall i :: |lights| <= i < |r| ==> r[i] == ZeroLight
  {
    if |lights| < LightCapacity then
      PackLights(lights) + ZeroLights(LightCapacity - |lights|)
    else
      PackLights(lights)
  }

  /** Packs the scene's lights, then appends zero slots one at a time while
      fewer than `LightCapacity` are present. `count` is the number of scene
      lights, taken before the padding. */
  method PackLightBuffer(sceneLights: seq<Light>) returns (lights: seq<PointLight>, count: nat)
    ensures count == |sceneLights|
    ensures |lights| == if count <= LightCapacity then LightCapacity else count
    ensures forall i :: 0 <= i < count ==> lights[i] == PackLight(sceneLights[i])
    ensures forall i :: count <= i < |lights| ==> lights[i] == ZeroLight
    ensures lights == PaddedLights(sceneLights)
  {
    lights := PackLights(sceneLights);
    count := |lights|;
    while |lights| < LightCapacity
      invariant count <= |lights|
      invariant count < LightCapacity ==> |lights| <= LightCapacity
      invariant count >= LightCapacity ==> |lights| == count
      invariant lights[..count] == PackLights(sceneLights)
      invariant forall i :: count <= i < |lights| ==> lights[i] == ZeroLight
      decreases LightCapacity - |lights|
    {
      lights := lights + [ZeroLight];
    }
    assert lights[..count] == PaddedLights(sceneLights)[..count];
    assert lights == PaddedLights(sceneLights);
  }

  /** Rust's `n as i32` for a `usize`: the low 32 bits read as two's
      complement. */
  function AsI32(n: nat): (r: int)
    ensures -0x8000_0000 <= r < 0x8000_0000
    ensures (n - r) % 0x1_0000_0000 == 0
  {
    var low := n % 0x1_0000_0000;
    if low < 0x8000_0000 then low else low - 0x1_0000_0000
  }

  /** A count that fits in an i32 survives the cast, so any light count up to
      the capacity reaches the shader unchanged. */
  lemma AsI32Exact(n: nat)
    requires n < 0x8000_0000
    ensures AsI32(n) == n
  {
  }
}
