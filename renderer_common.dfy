/**
 * What the two renderer adapters share: the argument check and loader choice of Initialize,
 * the way a track request is handed to the runtime, and the read-back of the current tracks.
 * The adapters differ only in the runtime version they drive.
 */
module RendererCommon {
  import opened Wrappers
  import opened Exceptions
  import opened Paths
  import opened SpineAnimations
  import opened AnimationStates

  datatype LoaderKind = SkeletonJson | SkeletonBinary

  /** A skeleton load: the atlas file, the skeleton file, the loader reading it and its scale. */
  datatype LoadRequest = LoadRequest(atlasFile: string, skeletonFile: string, loader: LoaderKind, scale: real)

  /** The loaded skeleton data, reduced to the names of its animations in declaration order. */
  datatype SkeletonData = SkeletonData(animationNames: seq<string>)

  /** The runtime calls the adapters make on their animation state and skeleton. */
  datatype FrameOp = StateUpdate(delta: real) | StateApply | WorldTransformUpdate

  /** The default mix duration Initialize gives the animation-state data. */
  const DefaultMix: real := 0.3

  /** Initialize's guard: exactly two paths, neither null, both naming existing files. */
  predicate ValidPaths(path: seq<Option<string>>, fileExists: string -> bool) {
    |path| == 2 && path[0].Some? && path[1].Some? && fileExists(path[0].value) && fileExists(path[1].value)
  }

  /** The JSON loader for a ".json" extension, the binary loader for anything else. */
  function LoaderFor(skeletonFile: string): (k: LoaderKind)
    ensures k == SkeletonJson <==> EndsWith(skeletonFile, ".json")
  {
    JsonExtensionIffSuffix(skeletonFile);
    if GetExtension(skeletonFile) == ".json" then SkeletonJson else SkeletonBinary
  }

  /** The load Initialize performs for valid paths: the chosen loader at scale 1. */
  function RequestFor(path: seq<Option<string>>, fileExists: string -> bool): (r: LoadRequest)
    requires ValidPaths(path, fileExists)
    ensures r.atlasFile == path[0].value && r.skeletonFile == path[1].value && r.scale == 1.0
    ensures r.loader == LoaderFor(path[1].value)
  {
    LoadRequest(path[0].value, path[1].value, LoaderFor(path[1].value), 1.0)
  }

  /** The entry a track request becomes, and the track properties an entry reads back as. */
  function EntryOf(a: AnimationInfo): TrackEntry {
    TrackEntry(a.trackIndex, a.name, a.loop, a.timescale)
  }

  function InfoOf(e: TrackEntry): AnimationInfo {
    AnimationInfo(e.trackIndex, e.animationName, e.loop, e.timeScale)
  }

  /** Whether the runtime takes a request: non-null, a known animation, a non-negative index. */
  predicate Accepted(s: AnimationState, a: Option<AnimationInfo>) {
    a.Some? && a.value.name in s.animationNames && a.value.trackIndex >= 0
  }

  /** The exception a refused request raises. */
  function RefusalOf(s: AnimationState, a: Option<AnimationInfo>): Error {
    if a.None? then NullReference
    else if a.value.name !in s.animationNames then Argument
    else IndexOutOfRange
  }

  /**
   * SetAnimationInternal: the runtime's SetAnimation with the request's index, name and loop flag,
   * then the request's time scale written into the returned entry. A null request throws before
   * reaching the runtime.
   */
  function SetAnimationInternal(s: AnimationState, a: Option<AnimationInfo>): (r: Result<AnimationState, Error>)
    ensures r.Success? <==> Accepted(s, a)
    ensures r.Failure? ==> r.error == RefusalOf(s, a)
    ensures r.Success? ==> r.value.animationNames == s.animationNames && r.value.defaultMix == s.defaultMix
    ensures r.Success? ==> |r.value.tracks| == (if a.value.trackIndex < |s.tracks| then |s.tracks| else a.value.trackIndex + 1)
    ensures r.Success? ==> forall k: nat ::
      TrackAt(r.value.tracks, k) == if k == a.value.trackIndex then Some(EntryOf(a.value)) else TrackAt(s.tracks, k)
  {
    if a.None? then Failure(NullReference)
    else
      match SetAnimation(s, a.value.trackIndex, a.value.name, a.value.loop)
      case Failure(e) => Failure(e)
      case Success(s1) =>
        var k: nat := a.value.trackIndex;
        assert TrackAt(s1.tracks, k).Some?;
        var entry := s1.tracks[k].value;
        Success(s1.(tracks := s1.tracks[k := Some(entry.(timeScale := a.value.timescale))]))
  }

  /** Every entry in the track list sits at its own track index. */
  predicate Indexed(tracks: seq<Option<TrackEntry>>) {
    forall k :: 0 <= k < |tracks| && tracks[k].Some? ==> tracks[k].value.trackIndex == k
  }

  /** The state after a sequence of requests, and the exception of the first refused one. */
  datatype Applied = Applied(state: AnimationState, error: Option<Error>)

  /** The adapters' foreach over SetAnimationInternal: requests in order, stopping at the first exception. */
  function SetAll(s: AnimationState, reqs: seq<Option<AnimationInfo>>): Applied
    decreases |reqs|
  {
    if |reqs| == 0 then Applied(s, None)
    else
      match SetAnimationInternal(s, reqs[0])
      case Failure(e) => Applied(s, Some(e))
      case Success(s1) => SetAll(s1, reqs[1..])
  }

  /**
   * GetCurrentAnimations: every position of the track list read back as track properties. The
   * projection dereferences each position, so an empty position throws NullReferenceException.
   */
  function CurrentAnimations(tracks: seq<Option<TrackEntry>>): Result<seq<AnimationInfo>, Error> {
    if forall k :: 0 <= k < |tracks| ==> tracks[k].Some? then
      Success(seq(|tracks|, k requires 0 <= k < |tracks| => InfoOf(tracks[k].value)))
    else Failure(NullReference)
  }
}
