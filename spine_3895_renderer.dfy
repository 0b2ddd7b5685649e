/** The renderer adapter for the 3.8 runtime. */
module Spine3895Renderers {
  import opened Wrappers
  import opened Exceptions
  import opened Paths
  import opened SpineAnimations
  import opened AnimationStates
  import opened RendererCommon
  import opened TrackProperties

  /**
   * The adapter's animation state, skeleton data and skeleton renderer (None / false until a
   * successful Initialize), the runtime calls made on its skeleton and animation state, and the
   * runtime's static Bone.yDown flag as this adapter sets it.
   */
  class Spine3895Renderer {
    var animationState: Option<AnimationState>
    var skeletonData: Option<SkeletonData>
    var hasSkeletonRenderer: bool
    var frames: seq<FrameOp>
    var yDown: bool

    /** Everything is initialized together, from one skeleton data, and tracks sit at their index. */
    predicate Valid()
      reads this
    {
      (animationState.Some? <==> skeletonData.Some?) && (hasSkeletonRenderer <==> animationState.Some?) &&
      (animationState.Some? ==>
        animationState.value.animationNames == skeletonData.value.animationNames &&
        animationState.value.defaultMix == DefaultMix && Indexed(animationState.value.tracks))
    }

    constructor ()
      ensures Valid() && animationState.None? && skeletonData.None? && !hasSkeletonRenderer
      ensures frames == [] && !yDown
    {
      animationState := None;
      skeletonData := None;
      hasSkeletonRenderer := false;
      frames := [];
      yDown := false;
    }

    /**
     * Initialize(atlasFile, skeletonFile): anything but two existing files throws
     * InvalidOperationException before any change. Otherwise yDown is set, and the skeleton is
     * read with the JSON loader for a ".json" file and the binary loader otherwise, at scale 1;
     * a failed load leaves the adapter as it was. After a load the animation state (default mix
     * 0.3, no tracks), the skeleton (one world-transform update) and the renderer are new.
     */
    method Initialize(path: seq<Option<string>>, fileExists: string -> bool, load: LoadRequest -> Result<SkeletonData, Error>)
      returns (outcome: Outcome<Error>)
      requires Valid()
      modifies this
      ensures Valid()
      ensures !ValidPaths(path, fileExists) ==> outcome == Fail(InvalidOperation) && unchanged(this)
      ensures ValidPaths(path, fileExists) ==> yDown
      ensures ValidPaths(path, fileExists) && load(RequestFor(path, fileExists)).Failure? ==>
        outcome == Fail(load(RequestFor(path, fileExists)).error) &&
        animationState == old(animationState) && skeletonData == old(skeletonData) &&
        hasSkeletonRenderer == old(hasSkeletonRenderer) && frames == old(frames)
      ensures ValidPaths(path, fileExists) && load(RequestFor(path, fileExists)).Success? ==>
        var data := load(RequestFor(path, fileExists)).value;
        outcome == Pass && skeletonData == Some(data) &&
        animationState == Some(AnimationState(data.animationNames, DefaultMix, [])) &&
        hasSkeletonRenderer && frames == [WorldTransformUpdate]
    {
      if !ValidPaths(path, fileExists) {
        return Fail(InvalidOperation);
      }
      var atlasFile, skeletonFile := path[0].value, path[1].value;
      yDown := true;
      var loaded: Result<SkeletonData, Error>;
      if GetExtension(skeletonFile) == ".json" {
        loaded := load(LoadRequest(atlasFile, skeletonFile, SkeletonJson, 1.0));
      } else {
        loaded := load(LoadRequest(atlasFile, skeletonFile, SkeletonBinary, 1.0));
      }
      if loaded.Failure? {
        return Fail(loaded.error);
      }
      skeletonData := Some(loaded.value);
      animationState := Some(AnimationState(loaded.value.animationNames, DefaultMix, []));
      frames := [WorldTransformUpdate];
      hasSkeletonRenderer := true;
      outcome := Pass;
    }

    /**
     * SetAnimation(animation): clear the tracks, then set the one requested; its exception (a null
     * request, an unknown name, a negative index) leaves the tracks cleared. Before Initialize
     * the animation state is null.
     */
    method SetAnimation(animation: SpineAnimation?) returns (outcome: Outcome<Error>)
      requires Valid()
      modifies this
      ensures Valid()
      ensures old(animationState).None? ==> outcome == Fail(NullReference) && unchanged(this)
      ensures old(animationState).Some? ==>
        var applied := SetAll(ClearTracks(old(animationState).value), [Snapshot(animation)]);
        animationState == Some(applied.state) &&
        outcome == (if applied.error.Some? then Fail(applied.error.value) else Pass)
      ensures skeletonData == old(skeletonData) && hasSkeletonRenderer == old(hasSkeletonRenderer)
      ensures frames == old(frames) && yDown == old(yDown)
    {
      if animationState.None? {
        return Fail(NullReference);
      }
      var cleared := ClearTracks(animationState.value);
      animationState := Some(cleared);
      var r := SetAnimationInternal(cleared, Snapshot(animation));
      if r.Failure? {
        return Fail(r.error);
      }
      SetAnimationInternalKeepsIndexed(cleared, Snapshot(animation));
      animationState := Some(r.value);
      outcome := Pass;
    }

    /**
     * SetAnimations(animations): a null or empty array throws ArgumentNullException before any
     * change; otherwise the tracks are cleared and the requests set in order, the first exception
     * ending the loop with the earlier requests in effect.
     */
    method SetAnimations(animations: Option<seq<SpineAnimation?>>) returns (outcome: Outcome<Error>)
      requires Valid()
      modifies this
      ensures Valid()
      ensures (animations.None? || |animations.value| == 0) ==> outcome == Fail(ArgumentNull) && unchanged(this)
      ensures animations.Some? && |animations.value| > 0 && old(animationState).None? ==>
        outcome == Fail(NullReference) && unchanged(this)
      ensures animations.Some? && |animations.value| > 0 && old(animationState).Some? ==>
        var applied := SetAll(ClearTracks(old(animationState).value), Snapshots(animations.value));
        animationState == Some(applied.state) &&
        outcome == (if applied.error.Some? then Fail(applied.error.value) else Pass)
      ensures skeletonData == old(skeletonData) && hasSkeletonRenderer == old(hasSkeletonRenderer)
      ensures frames == old(frames) && yDown == old(yDown)
    {
      if animations.None? || |animations.value| == 0 {
        return Fail(ArgumentNull);
      }
      if animationState.None? {
        return Fail(NullReference);
      }
      var anims := animations.value;
      ghost var reqs := Snapshots(anims);
      var st := ClearTracks(animationState.value);
      animationState := Some(st);
      for i := 0 to |anims|
        invariant animationState == Some(st) && Valid()
        invariant SetAll(ClearTracks(old(animationState).value), reqs) == SetAll(st, reqs[i..])
        invariant skeletonData == old(skeletonData) && hasSkeletonRenderer == old(hasSkeletonRenderer)
        invariant frames == old(frames) && yDown == old(yDown)
      {
        assert reqs[i..][1..] == reqs[i + 1..];
        var r := SetAnimationInternal(st, Snapshot(anims[i]));
        if r.Failure? {
          return Fail(r.error);
        }
        SetAnimationInternalKeepsIndexed(st, Snapshot(anims[i]));
        st := r.value;
        animationState := Some(st);
      }
      outcome := Pass;
    }

    /**
     * GetCurrentAnimations: before Initialize the animation state is null; otherwise the read-back
     * succeeds exactly when no track position is empty, and lists each track at its own index.
     */
    function GetCurrentAnimations(): (r: Result<seq<AnimationInfo>, Error>)
      reads this
      ensures animationState.None? ==> r == Failure(NullReference)
      ensures animationState.Some? ==>
        (r.Success? <==> forall k :: 0 <= k < |animationState.value.tracks| ==> animationState.value.tracks[k].Some?)
      ensures r.Failure? ==> r.error == NullReference
      ensures Valid() && r.Success? ==>
        |r.value| == |animationState.value.tracks| &&
        forall k :: 0 <= k < |r.value| ==> r.value[k].trackIndex == k && r.value[k] == InfoOf(animationState.value.tracks[k].value)
    {
      if animationState.None? then Failure(NullReference) else CurrentAnimations(animationState.value.tracks)
    }

    /** GetAnimations: the skeleton's animation names, which are the names SetAnimation accepts. */
    function GetAnimations(): (r: Result<seq<string>, Error>)
      reads this
      ensures skeletonData.None? ==> r == Failure(NullReference)
      ensures Valid() && skeletonData.Some? ==> r == Success(animationState.value.animationNames)
    {
      if skeletonData.None? then Failure(NullReference) else Success(skeletonData.value.animationNames)
    }

    /** NextFrame(delta): advance the animation state, apply it to the skeleton, update the world transform. */
    method NextFrame(delta: real) returns (outcome: Outcome<Error>)
      requires Valid()
      modifies this
      ensures Valid()
      ensures old(animationState).None? ==> outcome == Fail(NullReference) && unchanged(this)
      ensures old(animationState).Some? ==>
        outcome == Pass && frames == old(frames) + [StateUpdate(delta), StateApply, WorldTransformUpdate]
      ensures animationState == old(animationState) && skeletonData == old(skeletonData)
      ensures hasSkeletonRenderer == old(hasSkeletonRenderer) && yDown == old(yDown)
    {
      if animationState.None? {
        return Fail(NullReference);
      }
      frames := frames + [StateUpdate(delta), StateApply, WorldTransformUpdate];
      outcome := Pass;
    }
  }
}
