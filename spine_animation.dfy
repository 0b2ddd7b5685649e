/** The track record the view model edits and hands to the renderers. */
module SpineAnimations {
  import opened Wrappers

  /** An observable object with four editable properties; tracks are told apart by identity. */
  class SpineAnimation {
    var trackIndex: int
    var name: string
    var loop: bool
    var timescale: real

    constructor (trackIndex: int, name: string, loop: bool, timescale: real)
      ensures this.trackIndex == trackIndex && this.name == name
      ensures this.loop == loop && this.timescale == timescale
    {
      this.trackIndex := trackIndex;
      this.name := name;
      this.loop := loop;
      this.timescale := timescale;
    }
  }

  /** The four properties of a track at one moment. */
  datatype AnimationInfo = AnimationInfo(trackIndex: int, name: string, loop: bool, timescale: real)

  /** The properties of a possibly null track (None for null). */
  function Snapshot(a: SpineAnimation?): Option<AnimationInfo>
    reads a
  {
    if a == null then None else Some(AnimationInfo(a.trackIndex, a.name, a.loop, a.timescale))
  }

  function Snapshots(s: seq<SpineAnimation?>): (r: seq<Option<AnimationInfo>>)
    reads s
    ensures |r| == |s| && forall k :: 0 <= k < |s| ==> r[k] == Snapshot(s[k])
  {
    seq(|s|, k reads s requires 0 <= k < |s| => Snapshot(s[k]))
  }
}

/**
 * The Spine runtime's AnimationState as the renderers use it. Its track list is indexed by track
 * number: ClearTracks empties it, SetAnimation grows it to index + 1 with empty (null) positions
 * in between and replaces the entry at the index.
 */
module AnimationStates {
  import opened Wrappers
  import opened Exceptions

  datatype TrackEntry = TrackEntry(trackIndex: int, animationName: string, loop: bool, timeScale: real)

  /** The skeleton's animation names, the default mix duration and the track list. */
  datatype AnimationState = AnimationState(animationNames: seq<string>, defaultMix: real, tracks: seq<Option<TrackEntry>>)

  function ClearTracks(s: AnimationState): (r: AnimationState)
    ensures r.tracks == [] && r.animationNames == s.animationNames && r.defaultMix == s.defaultMix
  {
    s.(tracks := [])
  }

  /** The track at an index; None for an empty position or one past the end of the list. */
  function TrackAt(tracks: seq<Option<TrackEntry>>, k: nat): Option<TrackEntry> {
    if k < |tracks| then tracks[k] else None
  }

  /** The list with `e` stored at index k, grown with empty positions when k is past its end. */
  function Place(tracks: seq<Option<TrackEntry>>, k: nat, e: TrackEntry): (r: seq<Option<TrackEntry>>)
    ensures |r| == if k < |tracks| then |tracks| else k + 1
    ensures forall j: nat :: TrackAt(r, j) == if j == k then Some(e) else TrackAt(tracks, j)
  {
    if k < |tracks| then tracks[k := Some(e)] else tracks + seq(k - |tracks|, _ => None) + [Some(e)]
  }

  /**
   * SetAnimation(trackIndex, animationName, loop): an unknown animation name throws
   * ArgumentException, a negative index IndexOutOfRangeException; otherwise a new entry with time
   * scale 1 replaces the track at that index.
   */
  function SetAnimation(s: AnimationState, trackIndex: int, animationName: string, loop: bool): (r: Result<AnimationState, Error>)
    ensures animationName !in s.animationNames ==> r == Failure(Argument)
    ensures animationName in s.animationNames && trackIndex < 0 ==> r == Failure(IndexOutOfRange)
    ensures r.Success? ==> r.value.animationNames == s.animationNames && r.value.defaultMix == s.defaultMix
  {
    if animationName !in s.animationNames then Failure(Argument)
    else if trackIndex < 0 then Failure(IndexOutOfRange)
    else Success(s.(tracks := Place(s.tracks, trackIndex, TrackEntry(trackIndex, animationName, loop, 1.0))))
  }
}
