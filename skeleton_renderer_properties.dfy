/** What the draw pipeline of SkeletonRenderer guarantees, stated over its specification functions. */
module SkeletonRendererProperties {
  import opened Wrappers
  import Skia
  import opened SkeletonRenderer

  predicate IsDraw(e: Event) { e.DrawVertices? }

  predicate NoDraws(events: seq<Event>) {
    forall k :: 0 <= k < |events| ==> !events[k].DrawVertices?
  }

  /** A clipping attachment only starts the clip; a slot with no attachment, an unknown one, or a region or mesh whose page has no SKBitmap is skipped outright. */
  lemma SkippedSlotsDrawNothing(st: DrawState, i: nat, slot: Slot, color: Skia.ColorF, rt: Runtime)
    ensures slot.attachment.Some? && slot.attachment.value.ClippingAttachment? ==>
      SlotStep(st, i, slot, color, rt)
        == StepResult(st.(clipper := ClipStart(st.clipper, slot, slot.attachment.value.mask)), [ClipStartCalled(i)], false)
    ensures slot.attachment.None? || slot.attachment.value.OtherAttachment? ==>
      SlotStep(st, i, slot, color, rt) == StepResult(st, [], false)
    ensures slot.attachment.Some? && (slot.attachment.value.RegionAttachment? || slot.attachment.value.MeshAttachment?)
            && GetRendererObject(slot.attachment.value.region).None? ==>
      SlotStep(st, i, slot, color, rt) == StepResult(st, [], false)
  {
  }

  /** A region attachment on a bitmap page is a quad: 4 vertices in an 8-float buffer, indices 0,1,2,2,3,0. */
  lemma RegionIsQuad(slot: Slot, rt: Runtime)
    requires slot.attachment.Some? && slot.attachment.value.RegionAttachment?
    requires GetRendererObject(slot.attachment.value.region).Some?
    ensures Prepare(slot, rt).Some?
    ensures var g := Prepare(slot, rt).value.geometry;
      g.verticesCount == 4 && g.indicesCount == 6 && g.indices == [0, 1, 2, 2, 3, 0] && |g.vertices| == 8
  {
  }

  /** A mesh uses WorldVerticesLength >> 1 vertices; its buffer is the 8-float one unless that is too short. */
  lemma MeshBuffer(slot: Slot, rt: Runtime)
    requires slot.attachment.Some? && slot.attachment.value.MeshAttachment?
    requires GetRendererObject(slot.attachment.value.region).Some?
    ensures Prepare(slot, rt).Some?
    ensures var a := slot.attachment.value; var g := Prepare(slot, rt).value.geometry;
      g.verticesCount == a.worldVerticesLength / 2 && g.indices == a.triangles && g.indicesCount == |a.triangles|
      && |g.vertices| >= 8 && |g.vertices| >= a.worldVerticesLength
      && (|g.vertices| == 8 || |g.vertices| == a.worldVerticesLength)
  {
  }

  /**
   * A slot whose geometry, after clipping, has no vertices or no indices draws nothing and does
   * not reach ClipEnd(slot): the clipper is left as it was.
   */
  lemma EmptyGeometryDrawsNothing(st: DrawState, i: nat, slot: Slot, color: Skia.ColorF, rt: Runtime)
    requires Prepare(slot, rt).Some? && !(slot.attachment.value.ClippingAttachment?)
    requires var g := ClipGeometry(st.clipper, Prepare(slot, rt).value.geometry, rt);
      g.verticesCount == 0 || g.indicesCount == 0
    ensures var r := SlotStep(st, i, slot, color, rt);
      !r.failed && NoDraws(r.events) && ClipEndCalledFor(i) !in r.events && r.state.clipper == st.clipper
  {
  }

  /**
   * A drawn slot emits one DrawVertices call and then ClipEnd(slot). The call's lists have one
   * entry per float pair of the whole buffer, not per vertex in use; position k is the k-th pair
   * and texture coordinate k is the k-th UV pair scaled by the bitmap size. The blur filter is
   * set iff the blend mode is Plus, that is iff the slot blends additively.
   */
  lemma DrawnSlotCall(st: DrawState, i: nat, slot: Slot, color: Skia.ColorF, rt: Runtime)
    requires Prepare(slot, rt).Some? && !(slot.attachment.value.ClippingAttachment?)
    requires var r := SlotStep(st, i, slot, color, rt); !r.failed && !NoDraws(r.events)
    ensures var r := SlotStep(st, i, slot, color, rt);
      var p := Prepare(slot, rt).value;
      var st1 := SetRendererObject(st, p.bitmap).0;
      var g := ClipGeometry(st1.clipper, p.geometry, rt);
      |r.events| >= 2 && r.events[|r.events| - 1] == ClipEndCalledFor(i) && r.events[|r.events| - 2].DrawVertices?
      && var call := r.events[|r.events| - 2].call;
      |call.positions| == |call.textures| == |g.vertices| / 2
      && (forall k :: 0 <= k < |call.positions| ==>
            call.positions[k] == Skia.SKPoint(g.vertices[2 * k], g.vertices[2 * k + 1])
            && call.textures[k] == Skia.SKPoint(p.bitmap.width as real * g.uvs[2 * k],
                                                 p.bitmap.height as real * g.uvs[2 * k + 1]))
      && var t := ComposeTint(color, slot, p.color, p.bitmap.alphaType == Skia.Premul);
      call.color == t.color && call.dark == t.dark
      && call.indices == NarrowIndices(g.indices) && call.shader == st1.shaders
      && (call.blur <==> call.blendMode == Skia.Plus)
      && (call.blur <==> slot.blendMode == Additive)
      && call.blendMode == MapBlendMode(slot.blendMode)
      && r.state.clipper == ClipEndAt(st1.clipper, slot)
  {
  }

  /**
   * The pairing loop walks the whole buffer, so UVs shorter than the buffer raise an index error.
   * A mesh of fewer than four vertices (UVs as long as WorldVerticesLength, under the 8-float
   * buffer) makes the slot fail when it is drawn unclipped.
   */
  lemma SmallMeshFailsUnclipped(st: DrawState, i: nat, slot: Slot, color: Skia.ColorF, rt: Runtime)
    requires st.clipper.Idle?
    requires slot.attachment.Some? && slot.attachment.value.MeshAttachment?
    requires GetRendererObject(slot.attachment.value.region).Some?
    requires var a := slot.attachment.value;
      2 <= a.worldVerticesLength < 8 && |a.uvs| == a.worldVerticesLength && |a.triangles| > 0
    ensures SlotStep(st, i, slot, color, rt).failed
  {
    var st1 := SetRendererObject(st, Prepare(slot, rt).value.bitmap).0;
    assert st1.clipper == st.clipper;
  }

  /** Premultiplied tint is straight tint with red, green and blue scaled by the alpha; the dark alpha is 1 instead of 0. */
  lemma PremulScalesStraightTint(skeleton: Skia.ColorF, slot: Slot, attachment: Skia.ColorF)
    ensures var p := ComposeTint(skeleton, slot, attachment, true);
      var s := ComposeTint(skeleton, slot, attachment, false);
      var a := skeleton.a * slot.color.a * attachment.a;
      p.color == Skia.ColorF(s.color.r * a, s.color.g * a, s.color.b * a, a) && s.color.a == a
      && p.dark.a == 1.0 && s.dark.a == 0.0
      && (p.dark.r, p.dark.g, p.dark.b) == (s.dark.r, s.dark.g, s.dark.b)
  {
  }

  // ---- ClipEnd() is called once, at the end ----

  function CountClipEnd(events: seq<Event>): nat {
    if events == [] then 0 else CountClipEnd(events[..|events| - 1]) + (if events[|events| - 1] == ClipEndCalled then 1 else 0)
  }

  lemma {:induction false} CountClipEndAppend(a: seq<Event>, b: seq<Event>)
    ensures CountClipEnd(a + b) == CountClipEnd(a) + CountClipEnd(b)
    decreases |b|
  {
    if b == [] {
      assert a + b == a;
    } else {
      assert (a + b)[..|a + b| - 1] == a + b[..|b| - 1];
      CountClipEndAppend(a, b[..|b| - 1]);
    }
  }

  lemma SlotStepNoClipEnd(st: DrawState, i: nat, slot: Slot, color: Skia.ColorF, rt: Runtime)
    ensures CountClipEnd(SlotStep(st, i, slot, color, rt).events) == 0
  {
    var r := SlotStep(st, i, slot, color, rt);
    assert forall k :: 0 <= k < |r.events| ==> r.events[k] != ClipEndCalled;
    NoClipEndCountsZero(r.events);
  }

  lemma {:induction false} NoClipEndCountsZero(events: seq<Event>)
    requires forall k :: 0 <= k < |events| ==> events[k] != ClipEndCalled
    ensures CountClipEnd(events) == 0
    decreases |events|
  {
    if events != [] {
      NoClipEndCountsZero(events[..|events| - 1]);
    }
  }

  lemma {:induction false} DrawFromClipEnd(skeleton: Skeleton, i: nat, st: DrawState, rt: Runtime)
    requires i <= |skeleton.drawOrder|
    ensures var o := DrawFrom(skeleton, i, st, rt);
      CountClipEnd(o.events) == (if o.failed then 0 else 1)
      && (!o.failed ==> o.events[|o.events| - 1] == ClipEndCalled)
    decreases |skeleton.drawOrder| - i
  {
    if i == |skeleton.drawOrder| {
      assert CountClipEnd([ClipEndCalled]) == CountClipEnd([]) + 1;
    } else {
      var r := SlotStep(st, i, skeleton.drawOrder[i], skeleton.color, rt);
      SlotStepNoClipEnd(st, i, skeleton.drawOrder[i], skeleton.color, rt);
      if !r.failed {
        DrawFromClipEnd(skeleton, i + 1, r.state, rt);
        CountClipEndAppend(r.events, DrawFrom(skeleton, i + 1, r.state, rt).events);
      }
    }
  }

  /** A Draw that completes ends with ClipEnd() and calls it nowhere else; one that fails never calls it. */
  lemma ClipEndOnceAfterLoop(skeleton: Skeleton, rt: Runtime)
    ensures var o := DrawSpec(skeleton, rt);
      CountClipEnd(o.events) == (if o.failed then 0 else 1)
      && (!o.failed ==> o.events[|o.events| - 1] == ClipEndCalled)
  {
    DrawFromClipEnd(skeleton, 0, InitialState, rt);
  }

  // ---- Shader caching ----

  /** The bitmaps of the ShaderCreated events, in order. */
  function ShaderBitmaps(events: seq<Event>): seq<Skia.SKBitmap> {
    if events == [] then []
    else ShaderBitmaps(events[..|events| - 1])
         + (if events[|events| - 1].ShaderCreated? then [events[|events| - 1].bitmap] else [])
  }

  lemma {:induction false} ShaderBitmapsAppend(a: seq<Event>, b: seq<Event>)
    ensures ShaderBitmaps(a + b) == ShaderBitmaps(a) + ShaderBitmaps(b)
    decreases |b|
  {
    if b == [] {
      assert a + b == a;
    } else {
      assert (a + b)[..|a + b| - 1] == a + b[..|b| - 1];
      ShaderBitmapsAppend(a, b[..|b| - 1]);
    }
  }

  predicate NoRepeatInARow(s: seq<Skia.SKBitmap>) {
    forall k :: 0 < k < |s| ==> s[k - 1] != s[k]
  }

  /** The events of one slot: nothing, the clip start, or the shader creation (if any) followed by the draw and ClipEnd(slot). */
  lemma SlotStepShape(st: DrawState, i: nat, slot: Slot, color: Skia.ColorF, rt: Runtime)
    ensures var r := SlotStep(st, i, slot, color, rt);
      (r.events == [] && r.state == st)
      || (r.events == [ClipStartCalled(i)] && r.state.rendererObject == st.rendererObject && r.state.shaders == st.shaders)
      || (Prepare(slot, rt).Some?
          && var (st1, created) := SetRendererObject(st, Prepare(slot, rt).value.bitmap);
          r.state.rendererObject == st1.rendererObject && r.state.shaders == st1.shaders
          && (r.events == created || exists c :: r.events == created + [DrawVertices(c), ClipEndCalledFor(i)]))
  {
  }

  /** One slot creates at most one shader, and only for a bitmap that is not the current one, which it then becomes. */
  lemma SlotStepShader(st: DrawState, i: nat, slot: Slot, color: Skia.ColorF, rt: Runtime)
    ensures var r := SlotStep(st, i, slot, color, rt);
      (ShaderBitmaps(r.events) == [] && r.state.rendererObject == st.rendererObject && r.state.shaders == st.shaders)
      || (exists b :: ShaderBitmaps(r.events) == [b] && Some(b) != st.rendererObject
                      && r.state.rendererObject == Some(b) && r.state.shaders == st.shaders + 1)
  {
    var r := SlotStep(st, i, slot, color, rt);
    SlotStepShape(st, i, slot, color, rt);
    if r.events == [] || r.events == [ClipStartCalled(i)] {
      assert ShaderBitmaps(r.events) == [] by {
        if r.events != [] { assert ShaderBitmaps(r.events) == ShaderBitmaps([]) + []; }
      }
    } else {
      var p := Prepare(slot, rt).value;
      var created := SetRendererObject(st, p.bitmap).1;
      var cs: seq<Skia.SKBitmap> := if created == [] then [] else [p.bitmap];
      assert ShaderBitmaps(created) == cs by {
        if created != [] { assert ShaderBitmaps(created) == ShaderBitmaps([]) + [p.bitmap]; }
      }
      if r.events != created {
        var c :| r.events == created + [DrawVertices(c), ClipEndCalledFor(i)];
        var tail := [DrawVertices(c), ClipEndCalledFor(i)];
        assert ShaderBitmaps(tail) == [] by {
          assert tail[..1] == [DrawVertices(c)];
          assert ShaderBitmaps(tail) == ShaderBitmaps([DrawVertices(c)]) + [];
          assert ShaderBitmaps([DrawVertices(c)]) == ShaderBitmaps([]) + [];
        }
        ShaderBitmapsAppend(created, tail);
      }
      assert ShaderBitmaps(r.events) == cs;
    }
  }

  lemma {:induction false} DrawFromShaders(skeleton: Skeleton, i: nat, st: DrawState, rt: Runtime)
    requires i <= |skeleton.drawOrder|
    ensures var s := ShaderBitmaps(DrawFrom(skeleton, i, st, rt).events);
      NoRepeatInARow(s) && (|s| > 0 ==> Some(s[0]) != st.rendererObject)
    decreases |skeleton.drawOrder| - i
  {
    if i == |skeleton.drawOrder| {
      assert ShaderBitmaps([ClipEndCalled]) == ShaderBitmaps([]) + [];
    } else {
      var r := SlotStep(st, i, skeleton.drawOrder[i], skeleton.color, rt);
      SlotStepShader(st, i, skeleton.drawOrder[i], skeleton.color, rt);
      if !r.failed {
        var rest := DrawFrom(skeleton, i + 1, r.state, rt).events;
        DrawFromShaders(skeleton, i + 1, r.state, rt);
        ShaderBitmapsAppend(r.events, rest);
      }
    }
  }

  /**
   * The shader is recreated only when the bitmap changes: no two consecutive shader creations in
   * a Draw are for the same bitmap, so slots in a row on one bitmap share a shader.
   */
  lemma ShaderRecreatedOnlyOnBitmapChange(skeleton: Skeleton, rt: Runtime)
    ensures NoRepeatInARow(ShaderBitmaps(DrawSpec(skeleton, rt).events))
  {
    DrawFromShaders(skeleton, 0, InitialState, rt);
  }

  /** A slot on the current bitmap creates no shader and draws with the current one. */
  lemma SameBitmapReusesShader(st: DrawState, i: nat, slot: Slot, color: Skia.ColorF, rt: Runtime)
    requires Prepare(slot, rt).Some? && !(slot.attachment.value.ClippingAttachment?)
    requires st.rendererObject == Some(Prepare(slot, rt).value.bitmap)
    ensures var r := SlotStep(st, i, slot, color, rt);
      r.state.shaders == st.shaders && r.state.rendererObject == st.rendererObject
      && forall k :: 0 <= k < |r.events| ==> !r.events[k].ShaderCreated? && (r.events[k].DrawVertices? ==> r.events[k].call.shader == st.shaders)
  {
  }
}
