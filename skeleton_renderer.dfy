/**
 * The Skia skeleton renderer of the 4.1 runtime adapter: one pass over the skeleton's draw
 * order that turns each slot's attachment into a textured-triangle draw call.
 *
 * The Spine runtime pieces it calls are parameters: ComputeWorldVertices and the clipper's
 * triangle clipping are the two functions of `Runtime`; the clipper's start/end bookkeeping
 * is the small state machine `Clipper`. Skia drawing is recorded as a trace of `Event`s.
 */
module SkeletonRenderer {
  import opened Wrappers
  import Skia

  /** The Spine slot blend modes. */
  datatype BlendMode = Normal | Additive | Multiply | Screen

  /** An attachment's texture region; only an atlas region points at an atlas page. */
  datatype TextureRegion = AtlasRegion(pageObject: Skia.PageObject) | PlainRegion

  /** A clipping polygon, ending at the slot whose data index is `endSlot` (if any). */
  datatype ClipMask = ClipMask(name: string, endSlot: Option<nat>)

  datatype Attachment =
    | RegionAttachment(region: TextureRegion, color: Skia.ColorF, uvs: seq<real>)
    | MeshAttachment(region: TextureRegion, color: Skia.ColorF, worldVerticesLength: nat,
                     triangles: seq<int>, uvs: seq<real>)
    | ClippingAttachment(mask: ClipMask)
    | OtherAttachment(kind: string)  // bounding boxes, paths, points: nothing to draw

  /** A slot in draw order: its slot data index, blend mode, attachment, colour and optional dark colour. */
  datatype Slot = Slot(data: nat, blendMode: BlendMode, attachment: Option<Attachment>, color: Skia.ColorF,
                       hasSecondColor: bool, r2: real, g2: real, b2: real)

  datatype Skeleton = Skeleton(drawOrder: seq<Slot>, color: Skia.ColorF)

  /** A slot's geometry: a vertex buffer with the number of vertices in use, an index list with its count, and UVs. */
  datatype Geometry = Geometry(vertices: seq<real>, verticesCount: nat, indices: seq<int>, indicesCount: nat,
                               uvs: seq<real>)

  /** What the clipper hands back: the backing arrays of its clipped lists with their element counts. */
  datatype ClipOutput = ClipOutput(vertices: seq<real>, vertexFloats: nat, triangles: seq<int>, triangleCount: nat,
                                   uvs: seq<real>)

  /** The runtime calls the renderer makes and does not define. */
  datatype Runtime = Runtime(
    computeWorldVertices: (Slot, Attachment) -> seq<real>,
    clipTriangles: (ClipMask, Slot, Geometry) -> ClipOutput)

  /** The clipper: idle, or clipping against the mask started at a slot. */
  datatype Clipper = Idle | Active(mask: ClipMask, slot: Slot)

  /** ClipStart is ignored while a clip is already active. */
  function ClipStart(c: Clipper, slot: Slot, mask: ClipMask): Clipper {
    if c.Active? then c else Active(mask, slot)
  }

  /** ClipEnd(slot) ends the active clip only at the mask's end slot. */
  function ClipEndAt(c: Clipper, slot: Slot): Clipper {
    if c.Active? && c.mask.endSlot == Some(slot.data) then Idle else c
  }

  /** The state one slot hands to the next: the clipper, the current bitmap and the number of shaders made so far. */
  datatype DrawState = DrawState(clipper: Clipper, rendererObject: Option<Skia.SKBitmap>, shaders: nat)

  const InitialState := DrawState(Idle, None, 0)

  /** The arguments of one DrawVertices call; `shader` is the serial number of the shader in use. */
  datatype DrawCall = DrawCall(positions: seq<Skia.SKPoint>, textures: seq<Skia.SKPoint>, indices: seq<int>,
                               blendMode: Skia.SKBlendMode, color: Skia.ColorF, dark: Skia.ColorF,
                               shader: nat, blur: bool)

  /** What Draw does, in order; slot numbers are draw-order positions. */
  datatype Event =
    | ClipStartCalled(slot: nat)
    | ShaderCreated(bitmap: Skia.SKBitmap, serial: nat)
    | DrawVertices(call: DrawCall)
    | ClipEndCalledFor(slot: nat)
    | ClipEndCalled

  datatype StepResult = StepResult(state: DrawState, events: seq<Event>, failed: bool)

  /** The events of a whole Draw; `failed` means an IndexOutOfRangeException ended it. */
  datatype DrawOutcome = DrawOutcome(events: seq<Event>, failed: bool)

  const QuadTriangles: seq<int> := [0, 1, 2, 2, 3, 0]

  /** The bitmap behind a region: present only for an atlas region whose page holds an SKBitmap. */
  function GetRendererObject(region: TextureRegion): (r: Option<Skia.SKBitmap>)
    ensures r.Some? <==> region.AtlasRegion? && region.pageObject.BitmapObject?
    ensures r.Some? ==> r.value == region.pageObject.bitmap
  {
    if region.AtlasRegion? && region.pageObject.BitmapObject? then Some(region.pageObject.bitmap) else None
  }

  /** Slot blend mode to Skia blend mode. */
  function MapBlendMode(mode: BlendMode): (r: Skia.SKBlendMode)
    ensures r == Skia.Plus <==> mode == Additive
    ensures r == Skia.Multiply <==> mode == Multiply
    ensures r == Skia.Screen <==> mode == Screen
    ensures r == Skia.SrcOver <==> mode == Normal
  {
    match mode
    case Additive => Skia.Plus
    case Multiply => Skia.Multiply
    case Screen => Skia.Screen
    case _ => Skia.SrcOver
  }

  datatype Tint = Tint(color: Skia.ColorF, dark: Skia.ColorF)

  /** The light and dark vertex colours of a slot. */
  function ComposeTint(skeleton: Skia.ColorF, slot: Slot, attachment: Skia.ColorF, premul: bool): Tint {
    var a := skeleton.a * slot.color.a * attachment.a;
    var m := if premul then a else 1.0;
    var darkAlpha := if premul then 1.0 else 0.0;
    Tint(Skia.ColorF(skeleton.r * slot.color.r * attachment.r * m,
                     skeleton.g * slot.color.g * attachment.g * m,
                     skeleton.b * slot.color.b * attachment.b * m, a),
         if slot.hasSecondColor then Skia.ColorF(slot.r2 * a, slot.g2 * a, slot.b2 * a, darkAlpha)
         else Skia.ColorF(0.0, 0.0, 0.0, darkAlpha))
  }

  /** The length of the vertex buffer: 8 floats, or the mesh's length when that is larger. */
  function VertexBufferLength(worldVerticesLength: nat): nat {
    if 8 < worldVerticesLength then worldVerticesLength else 8
  }

  /** A zero-filled buffer of `length` floats after ComputeWorldVertices wrote `world` into its first `count`. */
  function WrittenBuffer(length: nat, world: seq<real>, count: nat): seq<real> {
    seq(length, j requires 0 <= j < length => if j < count && j < |world| then world[j] else 0.0)
  }

  /** The geometry of a region or mesh attachment whose page has a bitmap, before clipping. */
  datatype Prepared = Prepared(bitmap: Skia.SKBitmap, color: Skia.ColorF, geometry: Geometry)

  /** The buffer, counts, indices and UVs a region or mesh attachment yields. */
  function AttachmentGeometry(slot: Slot, a: Attachment, rt: Runtime): Geometry
    requires a.RegionAttachment? || a.MeshAttachment?
  {
    var world := rt.computeWorldVertices(slot, a);
    if a.RegionAttachment? then Geometry(WrittenBuffer(8, world, 8), 4, QuadTriangles, 6, a.uvs)
    else
      var n := a.worldVerticesLength;
      Geometry(WrittenBuffer(VertexBufferLength(n), world, n), n / 2, a.triangles, |a.triangles|, a.uvs)
  }

  function Prepare(slot: Slot, rt: Runtime): Option<Prepared> {
    if slot.attachment.None? then None
    else
      var a := slot.attachment.value;
      if !(a.RegionAttachment? || a.MeshAttachment?) || GetRendererObject(a.region).None? then None
      else Some(Prepared(GetRendererObject(a.region).value, a.color, AttachmentGeometry(slot, a, rt)))
  }

  /** The geometry after the clipper, when it is active, has replaced it. */
  function ClipGeometry(c: Clipper, g: Geometry, rt: Runtime): Geometry {
    if c.Idle? then g
    else
      var out := rt.clipTriangles(c.mask, c.slot, g);
      Geometry(out.vertices, out.vertexFloats / 2, out.triangles, out.triangleCount, out.uvs)
  }

  /** The local SetRendererObject: a new shader only when the bitmap is not the current one. */
  function SetRendererObject(st: DrawState, bitmap: Skia.SKBitmap): (DrawState, seq<Event>) {
    if st.rendererObject == Some(bitmap) then (st, [])
    else (st.(rendererObject := Some(bitmap), shaders := st.shaders + 1), [ShaderCreated(bitmap, st.shaders + 1)])
  }

  /** The pairing loop runs without an index error iff the buffer has even length and the UVs are at least as long. */
  predicate Pairable(vertices: seq<real>, uvs: seq<real>) {
    |vertices| % 2 == 0 && |vertices| <= |uvs|
  }

  function Positions(vertices: seq<real>): seq<Skia.SKPoint>
    requires |vertices| % 2 == 0
  {
    seq(|vertices| / 2, k requires 0 <= k < |vertices| / 2 => Skia.SKPoint(vertices[2 * k], vertices[2 * k + 1]))
  }

  function TextureCoords(uvs: seq<real>, count: nat, bitmap: Skia.SKBitmap): seq<Skia.SKPoint>
    requires 2 * count <= |uvs|
  {
    seq(count, k requires 0 <= k < count =>
      Skia.SKPoint(bitmap.width as real * uvs[2 * k], bitmap.height as real * uvs[2 * k + 1]))
  }

  /** The (ushort) cast of C#'s unchecked conversion. */
  function ToUShort(x: int): int {
    x % 65536
  }

  function NarrowIndices(indices: seq<int>): seq<int> {
    seq(|indices|, k requires 0 <= k < |indices| => ToUShort(indices[k]))
  }

  /** One iteration of the draw-order loop, for the slot at draw-order position i. */
  function SlotStep(st: DrawState, i: nat, slot: Slot, skeletonColor: Skia.ColorF, rt: Runtime): StepResult {
    if slot.attachment.Some? && slot.attachment.value.ClippingAttachment? then
      StepResult(st.(clipper := ClipStart(st.clipper, slot, slot.attachment.value.mask)), [ClipStartCalled(i)], false)
    else
      match Prepare(slot, rt)
      case None => StepResult(st, [], false)
      case Some(p) =>
        var (st1, created) := SetRendererObject(st, p.bitmap);
        var blendMode := MapBlendMode(slot.blendMode);
        var tint := ComposeTint(skeletonColor, slot, p.color, p.bitmap.alphaType == Skia.Premul);
        var g := ClipGeometry(st1.clipper, p.geometry, rt);
        if g.verticesCount == 0 || g.indicesCount == 0 then StepResult(st1, created, false)
        else if !Pairable(g.vertices, g.uvs) then StepResult(st1, created, true)
        else
          var call := DrawCall(Positions(g.vertices), TextureCoords(g.uvs, |g.vertices| / 2, p.bitmap),
                               NarrowIndices(g.indices), blendMode, tint.color, tint.dark, st1.shaders,
                               blendMode == Skia.Plus);
          StepResult(st1.(clipper := ClipEndAt(st1.clipper, slot)), created + [DrawVertices(call), ClipEndCalledFor(i)], false)
  }

  /** The events of the loop from draw-order position i on, followed by the final ClipEnd(). */
  function DrawFrom(skeleton: Skeleton, i: nat, st: DrawState, rt: Runtime): DrawOutcome
    requires i <= |skeleton.drawOrder|
    decreases |skeleton.drawOrder| - i
  {
    if i == |skeleton.drawOrder| then DrawOutcome([ClipEndCalled], false)
    else
      var r := SlotStep(st, i, skeleton.drawOrder[i], skeleton.color, rt);
      if r.failed then DrawOutcome(r.events, true)
      else
        var rest := DrawFrom(skeleton, i + 1, r.state, rt);
        DrawOutcome(r.events + rest.events, rest.failed)
  }

  /** Everything one Draw call does. */
  function DrawSpec(skeleton: Skeleton, rt: Runtime): DrawOutcome {
    DrawFrom(skeleton, 0, InitialState, rt)
  }

  /** The loop that builds the position and texture-coordinate lists, one pair of floats at a time. */
  method PairVertices(vertices: seq<real>, uvs: seq<real>, bitmap: Skia.SKBitmap)
    returns (positions: seq<Skia.SKPoint>, textures: seq<Skia.SKPoint>, ok: bool)
    ensures ok <==> Pairable(vertices, uvs)
    ensures ok ==> positions == Positions(vertices) && textures == TextureCoords(uvs, |vertices| / 2, bitmap)
  {
    positions, textures := [], [];
    var index := 0;
    while index < |vertices|
      invariant index % 2 == 0 && index <= |vertices| && index <= |uvs|
      invariant |positions| == |textures| == index / 2
      invariant forall k :: 0 <= k < index / 2 ==> positions[k] == Skia.SKPoint(vertices[2 * k], vertices[2 * k + 1])
      invariant forall k :: 0 <= k < index / 2 ==>
        textures[k] == Skia.SKPoint(bitmap.width as real * uvs[2 * k], bitmap.height as real * uvs[2 * k + 1])
    {
      if index + 1 >= |vertices| || index + 1 >= |uvs| {
        return positions, textures, false;
      }
      positions := positions + [Skia.SKPoint(vertices[index], vertices[index + 1])];
      textures := textures + [Skia.SKPoint(bitmap.width as real * uvs[index], bitmap.height as real * uvs[index + 1])];
      index := index + 2;
    }
    assert index == |vertices| && 2 * (index / 2) == index;
    var expected := TextureCoords(uvs, index / 2, bitmap);
    assert |expected| == |textures|;
    forall k | 0 <= k < index / 2 ensures expected[k] == textures[k] {
    }
    ok := true;
  }

  /**
   * The region and mesh branches: ComputeWorldVertices into the 8-float buffer, reallocated
   * (zero-filled) when a mesh needs more, with the attachment's index list and UVs.
   */
  method FillGeometry(slot: Slot, a: Attachment, rt: Runtime) returns (g: Geometry)
    requires a.RegionAttachment? || a.MeshAttachment?
    ensures g == AttachmentGeometry(slot, a, rt)
  {
    var vertices := new real[8](_ => 0.0);
    var world := rt.computeWorldVertices(slot, a);
    if a.RegionAttachment? {
      forall j | 0 <= j < 8 && j < |world| {
        vertices[j] := world[j];
      }
      assert vertices[..] == WrittenBuffer(8, world, 8);
      g := Geometry(vertices[..], 4, QuadTriangles, 6, a.uvs);
    } else {
      var vertexCount := a.worldVerticesLength;
      if vertices.Length < vertexCount {
        vertices := new real[vertexCount](_ => 0.0);
      }
      forall j | 0 <= j < vertexCount && j < |world| {
        vertices[j] := world[j];
      }
      assert vertices[..] == WrittenBuffer(VertexBufferLength(vertexCount), world, vertexCount);
      g := Geometry(vertices[..], vertexCount / 2, a.triangles, |a.triangles|, a.uvs);
    }
  }

  /** The body of the draw-order loop for one slot. */
  method DrawSlot(st: DrawState, i: nat, slot: Slot, skeletonColor: Skia.ColorF, rt: Runtime)
    returns (next: DrawState, events: seq<Event>, failed: bool)
    ensures StepResult(next, events, failed) == SlotStep(st, i, slot, skeletonColor, rt)
  {
    next, events, failed := st, [], false;
    var attachment := slot.attachment;

    if attachment.Some? && attachment.value.ClippingAttachment? {
      next := next.(clipper := ClipStart(next.clipper, slot, attachment.value.mask));
      events := [ClipStartCalled(i)];
      return;
    }
    if attachment.None? || !(attachment.value.RegionAttachment? || attachment.value.MeshAttachment?) {
      return;
    }
    var a := attachment.value;
    var found := GetRendererObject(a.region);
    if found.None? {
      return;
    }
    var bitmap := found.value;
    if next.rendererObject != Some(bitmap) {
      next := next.(rendererObject := Some(bitmap), shaders := next.shaders + 1);
      events := [ShaderCreated(bitmap, next.shaders)];
    }

    var g := FillGeometry(slot, a, rt);
    var buffer, verticesCount, indices, indicesCount, uvs := g.vertices, g.verticesCount, g.indices, g.indicesCount, g.uvs;
    var premul := bitmap.alphaType == Skia.Premul;
    var blendMode := MapBlendMode(slot.blendMode);
    var tint := ComposeTint(skeletonColor, slot, a.color, premul);

    if next.clipper.Active? {
      var out := rt.clipTriangles(next.clipper.mask, next.clipper.slot, Geometry(buffer, verticesCount, indices, indicesCount, uvs));
      buffer, verticesCount, indices, indicesCount, uvs := out.vertices, out.vertexFloats / 2, out.triangles, out.triangleCount, out.uvs;
    }
    if verticesCount == 0 || indicesCount == 0 {
      return;
    }
    var positions, textures, ok := PairVertices(buffer, uvs, bitmap);
    if !ok {
      failed := true;
      return;
    }
    var call := DrawCall(positions, textures, NarrowIndices(indices), blendMode, tint.color, tint.dark, next.shaders,
                         blendMode == Skia.Plus);
    events := events + [DrawVertices(call), ClipEndCalledFor(i)];
    next := next.(clipper := ClipEndAt(next.clipper, slot));
  }

  /** One unfolding of DrawFrom, in terms of the step's result. */
  lemma DrawFromUnfold(skeleton: Skeleton, i: nat, st: DrawState, rt: Runtime, r: StepResult)
    requires i < |skeleton.drawOrder| && r == SlotStep(st, i, skeleton.drawOrder[i], skeleton.color, rt)
    ensures r.failed ==> DrawFrom(skeleton, i, st, rt) == DrawOutcome(r.events, true)
    ensures !r.failed ==>
      var rest := DrawFrom(skeleton, i + 1, r.state, rt);
      DrawFrom(skeleton, i, st, rt) == DrawOutcome(r.events + rest.events, rest.failed)
  {
  }

  /** Draw: every slot in draw order, then ClipEnd(). */
  method Draw(skeleton: Skeleton, rt: Runtime) returns (events: seq<Event>, failed: bool)
    ensures DrawOutcome(events, failed) == DrawSpec(skeleton, rt)
  {
    var st := InitialState;
    events, failed := [], false;
    for i := 0 to |skeleton.drawOrder|
      invariant DrawSpec(skeleton, rt)
        == DrawOutcome(events + DrawFrom(skeleton, i, st, rt).events, DrawFrom(skeleton, i, st, rt).failed)
    {
      var next, evs, f := DrawSlot(st, i, skeleton.drawOrder[i], skeleton.color, rt);
      DrawFromUnfold(skeleton, i, st, rt, StepResult(next, evs, f));
      if f {
        events, failed := events + evs, true;
        return;
      }
      assert events + DrawFrom(skeleton, i, st, rt).events == (events + evs) + DrawFrom(skeleton, i + 1, next, rt).events;
      events, st := events + evs, next;
    }
    events := events + [ClipEndCalled];
  }
}
