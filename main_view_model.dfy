/**
 * The main window's view model: the file selection, the runtime version, the loaded renderer and
 * the list of animation tracks the user edits. File pickers and the check for existing files are
 * parameters; the renderers are the two adapters.
 */
module MainViewModels {
  import opened Wrappers
  import opened Exceptions
  import opened SpineAnimations
  import opened RendererCommon
  import opened SpineVersions
  import opened Spine3895Renderers
  import opened Spine4100Renderers

  // ---------------------------------------------------------------- 32-bit track indices

  const Int32Min: int := -0x8000_0000
  const Int32Max: int := 0x7fff_ffff

  predicate IsInt32(x: int) {
    Int32Min <= x <= Int32Max
  }

  /** C#'s unchecked int arithmetic: the value congruent to x modulo 2^32 in the int range. */
  function WrapInt32(x: int): (r: int)
    ensures IsInt32(r) && (r - x) % 0x1_0000_0000 == 0
    ensures IsInt32(x) ==> r == x
  {
    (x - Int32Min) % 0x1_0000_0000 + Int32Min
  }

  /** The largest index (MaxBy's element's TrackIndex). */
  function MaxIndex(indices: seq<int>): (m: int)
    requires |indices| > 0
    ensures m in indices && forall x :: x in indices ==> x <= m
  {
    if |indices| == 1 then indices[0]
    else
      var rest := MaxIndex(indices[1..]);
      assert forall x :: x in indices[1..] ==> x in indices;
      assert forall x :: x in indices ==> x == indices[0] || x in indices[1..];
      if indices[0] >= rest then indices[0] else rest
  }

  /** AddAnimationTrack's index: 0 for no tracks, otherwise one more than the largest, unchecked. */
  function NextTrackIndex(indices: seq<int>): int {
    if |indices| < 1 then 0 else WrapInt32(MaxIndex(indices) + 1)
  }

  /** Below the top of the int range the new index is a 32-bit value above every existing one. */
  lemma NextTrackIndexIsFresh(indices: seq<int>)
    requires |indices| == 0 || MaxIndex(indices) < Int32Max
    requires forall x :: x in indices ==> IsInt32(x)
    ensures IsInt32(NextTrackIndex(indices))
    ensures forall x :: x in indices ==> x < NextTrackIndex(indices)
  {
  }

  /** At the top it wraps to int.MinValue, below every existing index. */
  lemma NextTrackIndexWrapsAtMax(indices: seq<int>)
    requires |indices| > 0 && MaxIndex(indices) == Int32Max
    requires forall x :: x in indices ==> IsInt32(x)
    ensures NextTrackIndex(indices) == Int32Min
    ensures forall x :: x in indices ==> NextTrackIndex(indices) <= x
  {
    var n := MaxIndex(indices) + 1;
    assert n - Int32Min == 0x1_0000_0000;
    assert (n - Int32Min) % 0x1_0000_0000 == 0;
  }

  function TrackIndices(tracks: seq<SpineAnimation>): (r: seq<int>)
    reads set t | t in tracks
    ensures |r| == |tracks| && forall k :: 0 <= k < |tracks| ==> r[k] == tracks[k].trackIndex
  {
    seq(|tracks|, k reads set t | t in tracks requires 0 <= k < |tracks| => tracks[k].trackIndex)
  }

  // ---------------------------------------------------------------- List.Remove

  /** The position of the first occurrence of x. */
  function IndexOf<T(==)>(s: seq<T>, x: T): (i: nat)
    requires x in s
    ensures i < |s| && s[i] == x && x !in s[..i]
  {
    if s[0] == x then 0
    else
      assert x in s[1..];
      var j := IndexOf(s[1..], x);
      assert s[..j + 1] == [s[0]] + s[1..][..j];
      j + 1
  }

  /** List.Remove: drops the first occurrence (by reference for tracks), if there is one. */
  function RemoveFirst<T(==)>(s: seq<T>, x: T): (r: seq<T>)
    ensures x !in s ==> r == s
    ensures x in s ==> r == s[..IndexOf(s, x)] + s[IndexOf(s, x) + 1..]
    decreases |s|
  {
    if |s| == 0 then s
    else if s[0] == x then s[1..]
    else
      var rest := RemoveFirst(s[1..], x);
      assert x in s ==> x in s[1..];
      if x in s then
        var j := IndexOf(s[1..], x);
        assert IndexOf(s, x) == j + 1;
        assert s[..j + 1] == [s[0]] + s[1..][..j] && s[j + 2..] == s[1..][j + 1..];
        [s[0]] + rest
      else [s[0]] + rest
  }

  /** Removing a present element removes exactly one copy of it; otherwise nothing changes. */
  lemma {:induction false} RemoveFirstShrinks<T>(s: seq<T>, x: T)
    ensures x in s ==> |RemoveFirst(s, x)| == |s| - 1
    ensures multiset(RemoveFirst(s, x)) == if x in s then multiset(s) - multiset{x} else multiset(s)
    decreases |s|
  {
    if |s| > 0 {
      assert s == [s[0]] + s[1..];
      if s[0] != x {
        RemoveFirstShrinks(s[1..], x);
      }
    }
  }

  // ---------------------------------------------------------------- file dialogs

  /** The filters of the two pickers. */
  const AtlasExtensions: string := "*.atlas"
  const SkeletonExtensions: string := "*.skel|*.json"

  /** String.Split on one character: the maximal separator-free pieces, in order. */
  function Split(s: string, sep: char): (parts: seq<string>)
    ensures |parts| > 0 && Join(parts, sep) == s
    ensures forall k :: 0 <= k < |parts| ==> sep !in parts[k]
    decreases |s|
  {
    if |s| == 0 then [""]
    else
      var rest := Split(s[1..], sep);
      if s[0] == sep then
        assert ([""] + rest)[1..] == rest;
        [""] + rest
      else
        SplitConsPiece(s[0], rest, sep);
        [[s[0]] + rest[0]] + rest[1..]
  }

  /** Prepending a non-separator character to the first piece prepends it to the joined text. */
  lemma SplitConsPiece(c: char, rest: seq<string>, sep: char)
    requires |rest| > 0 && c != sep && sep !in rest[0]
    ensures Join([[c] + rest[0]] + rest[1..], sep) == [c] + Join(rest, sep)
    ensures sep !in [c] + rest[0]
  {
    var parts := [[c] + rest[0]] + rest[1..];
    if |rest| > 1 {
      assert parts[1..] == rest[1..];
    }
  }

  /** The pieces joined back with the separator between them. */
  function Join(parts: seq<string>, sep: char): string
    requires |parts| > 0
    decreases |parts|
  {
    if |parts| == 1 then parts[0] else parts[0] + [sep] + Join(parts[1..], sep)
  }

  /** OpenFileDialogAsync's pattern list: the pieces between '|', or the whole string when it has none. */
  function FilterPatterns(extensions: string): seq<string> {
    if '|' in extensions then Split(extensions, '|') else [extensions]
  }

  /** A separator-free text is one piece. */
  lemma {:induction false} SplitPlain(a: string, sep: char)
    requires sep !in a
    ensures Split(a, sep) == [a]
    decreases |a|
  {
    if |a| > 0 {
      SplitPlain(a[1..], sep);
      assert [a[0]] + a[1..] == a;
    }
  }

  /** A separator-free first piece is split off whole. */
  lemma {:induction false} SplitFirstPiece(a: string, sep: char, t: string)
    requires sep !in a
    ensures Split(a + [sep] + t, sep) == [a] + Split(t, sep)
    decreases |a|
  {
    var s := a + [sep] + t;
    if |a| == 0 {
      assert s[1..] == t;
    } else {
      assert s[1..] == a[1..] + [sep] + t;
      SplitFirstPiece(a[1..], sep, t);
      assert [a[0]] + a[1..] == a;
    }
  }

  /** Splitting undoes joining separator-free pieces, so the split of a text is its only such decomposition. */
  lemma {:induction false} SplitJoin(parts: seq<string>, sep: char)
    requires |parts| > 0 && forall k :: 0 <= k < |parts| ==> sep !in parts[k]
    ensures Split(Join(parts, sep), sep) == parts
    decreases |parts|
  {
    if |parts| == 1 {
      SplitPlain(parts[0], sep);
    } else {
      SplitJoin(parts[1..], sep);
      SplitFirstPiece(parts[0], sep, Join(parts[1..], sep));
      assert [parts[0]] + parts[1..] == parts;
    }
  }

  /** The contains-check is redundant: without a '|' the split is the whole string. */
  lemma FilterPatternsIsSplit(extensions: string)
    ensures FilterPatterns(extensions) == Split(extensions, '|')
  {
    if '|' !in extensions {
      SplitPlain(extensions, '|');
    }
  }

  /** The atlas picker's single pattern is kept whole. */
  lemma FilterPatternsOfOne(a: string)
    requires '|' !in a
    ensures FilterPatterns(a) == [a]
  {
    SplitPlain(a, '|');
  }

  /** The skeleton picker's "a|b" gives the two patterns a and b. */
  lemma FilterPatternsOfTwo(a: string, b: string)
    requires '|' !in a && '|' !in b
    ensures FilterPatterns(a + ['|'] + b) == [a, b]
  {
    var parts := [a, b];
    assert parts[1..] == [b];
    assert Join(parts, '|') == a + ['|'] + b;
    SplitJoin(parts, '|');
    FilterPatternsIsSplit(a + ['|'] + b);
  }

  /** The picker's result: the one chosen file, or the empty string when none (or several) was chosen. */
  function PickedPath(picked: seq<string>): (path: string)
    ensures |picked| == 1 ==> path == picked[0]
    ensures |picked| != 1 ==> path == ""
  {
    if |picked| == 1 then picked[0] else ""
  }

  // ---------------------------------------------------------------- command guards

  /** Char.IsWhiteSpace: the Unicode space separators, line and paragraph separators, and the controls U+0009-U+000D, U+0085. */
  predicate IsWhiteSpace(c: char) {
    '\U{0009}' <= c <= '\U{000D}' || c == '\U{0020}' || c == '\U{0085}' || c == '\U{00A0}' ||
    c == '\U{1680}' || '\U{2000}' <= c <= '\U{200A}' || c == '\U{2028}' || c == '\U{2029}' ||
    c == '\U{202F}' || c == '\U{205F}' || c == '\U{3000}'
  }

  predicate IsNullOrWhiteSpace(s: Option<string>) {
    s.None? || forall i :: 0 <= i < |s.value| ==> IsWhiteSpace(s.value[i])
  }

  /** A path the load command accepts: non-null, with at least one visible character. */
  predicate HasVisibleText(s: Option<string>) {
    s.Some? && exists i :: 0 <= i < |s.value| && !IsWhiteSpace(s.value[i])
  }

  function NonNull(t: SpineAnimation?): SpineAnimation
    requires t != null
  {
    t
  }

  /** The renderer the view model holds: one adapter or the other. */
  datatype RendererRef = Renderer38(r38: Spine3895Renderer) | Renderer41(r41: Spine4100Renderer)

  function RendererObject(r: RendererRef): object {
    match r
    case Renderer38(a) => a
    case Renderer41(b) => b
  }

  /** The adapter is freshly initialized with `data`: its renderer, no tracks, one world-transform update. */
  predicate LoadedWith(r: RendererRef, data: SkeletonData)
    reads RendererObject(r)
  {
    match r
    case Renderer38(a) =>
      a.Valid() && a.skeletonData == Some(data) && a.hasSkeletonRenderer && a.frames == [WorldTransformUpdate] &&
      a.animationState == Some(AnimationStates.AnimationState(data.animationNames, DefaultMix, []))
    case Renderer41(b) =>
      b.Valid() && b.skeletonData == Some(data) && b.hasSkeletonRenderer && b.frames == [WorldTransformUpdate] &&
      b.animationState == Some(AnimationStates.AnimationState(data.animationNames, DefaultMix, []))
  }

  class MainViewModel {
    var isPaneOpen: bool
    var atlasFile: Option<string>
    var skeletonFile: Option<string>
    var spineRenderer: Option<RendererRef>
    var animations: Option<seq<string>>
    var currentTrack: SpineAnimation?
    var tracks: seq<SpineAnimation>
    const spineVersions: seq<string>
    var selectedSpineVersion: Option<string>

    /**
     * The pane starts open with nothing selected or loaded; the version list holds the EnumMember
     * values of SpineVersion with the first selected. The designer gets two sample tracks.
     */
    constructor (designMode: bool)
      ensures isPaneOpen && atlasFile.None? && skeletonFile.None? && spineRenderer.None? && currentTrack == null
      ensures spineVersions == VersionNames() && selectedSpineVersion == Some(EnumMemberValue(Spine38))
      ensures !designMode ==> tracks == [] && animations.None?
      ensures designMode ==>
        |tracks| == 2 && fresh(tracks[0]) && fresh(tracks[1]) && tracks[0] != tracks[1] &&
        Snapshot(tracks[0]) == Some(AnimationInfo(0, "Idle", false, 1.0)) &&
        Snapshot(tracks[1]) == Some(AnimationInfo(1, "Blink", false, 1.0)) &&
        animations == Some(["Idle", "Blink"])
    {
      isPaneOpen := true;
      atlasFile := None;
      skeletonFile := None;
      spineRenderer := None;
      currentTrack := null;
      spineVersions := VersionNames();
      if designMode {
        var idle := new SpineAnimation(0, "Idle", false, 1.0);
        var blink := new SpineAnimation(1, "Blink", false, 1.0);
        tracks := [idle, blink];
        animations := Some(["Idle", "Blink"]);
      } else {
        tracks := [];
        animations := None;
      }
      selectedSpineVersion := Some(VersionNames()[0]);
    }

    predicate HasCurrentTrackSelected()
      reads this
    {
      currentTrack != null
    }

    predicate CanAddAnimationTrack()
      reads this
    {
      spineRenderer.Some?
    }

    predicate CanDeleteAnimationTrack()
      reads this
    {
      currentTrack != null
    }

    /** Loading is enabled exactly when both paths have a visible character. */
    predicate CanLoadSpineModel()
      reads this
      ensures CanLoadSpineModel() <==> HasVisibleText(atlasFile) && HasVisibleText(skeletonFile)
    {
      !IsNullOrWhiteSpace(atlasFile) && !IsNullOrWhiteSpace(skeletonFile)
    }

    method TogglePanel()
      modifies this
      ensures isPaneOpen == !old(isPaneOpen)
      ensures atlasFile == old(atlasFile) && skeletonFile == old(skeletonFile) && spineRenderer == old(spineRenderer)
      ensures animations == old(animations) && currentTrack == old(currentTrack) && tracks == old(tracks)
      ensures selectedSpineVersion == old(selectedSpineVersion)
    {
      isPaneOpen := !isPaneOpen;
    }

    /** Toggling the pane twice restores it. */
    method TogglePanelTwice()
      modifies this
      ensures isPaneOpen == old(isPaneOpen) && atlasFile == old(atlasFile) && skeletonFile == old(skeletonFile)
      ensures spineRenderer == old(spineRenderer) && animations == old(animations)
      ensures currentTrack == old(currentTrack) && tracks == old(tracks)
      ensures selectedSpineVersion == old(selectedSpineVersion)
    {
      TogglePanel();
      TogglePanel();
    }

    /**
     * OpenFileDialogAsync: shows a single-file picker filtered by the '|'-separated patterns and
     * yields the chosen path, or the empty string when not exactly one file was chosen.
     */
    method OpenFileDialog(extensions: string, picked: seq<string>) returns (patterns: seq<string>, path: string)
      ensures |patterns| > 0 && Join(patterns, '|') == extensions
      ensures forall k :: 0 <= k < |patterns| ==> '|' !in patterns[k]
      ensures path == "" || (|picked| == 1 && path == picked[0])
      ensures |picked| == 1 ==> path == picked[0]
    {
      patterns := FilterPatterns(extensions);
      FilterPatternsIsSplit(extensions);
      path := PickedPath(picked);
    }

    /** Picks the atlas file with the "*.atlas" filter. */
    method OpenAtlasFileDialog(picked: seq<string>)
      modifies this
      ensures atlasFile == Some(PickedPath(picked))
      ensures isPaneOpen == old(isPaneOpen) && skeletonFile == old(skeletonFile) && spineRenderer == old(spineRenderer)
      ensures animations == old(animations) && currentTrack == old(currentTrack) && tracks == old(tracks)
      ensures selectedSpineVersion == old(selectedSpineVersion)
    {
      var patterns, path := OpenFileDialog(AtlasExtensions, picked);
      atlasFile := Some(path);
    }

    /** Picks the skeleton file with the "*.skel" and "*.json" filters. */
    method OpenSkelFileDialog(picked: seq<string>)
      modifies this
      ensures skeletonFile == Some(PickedPath(picked))
      ensures isPaneOpen == old(isPaneOpen) && atlasFile == old(atlasFile) && spineRenderer == old(spineRenderer)
      ensures animations == old(animations) && currentTrack == old(currentTrack) && tracks == old(tracks)
      ensures selectedSpineVersion == old(selectedSpineVersion)
    {
      var patterns, path := OpenFileDialog(SkeletonExtensions, picked);
      skeletonFile := Some(path);
    }

    /**
     * AddAnimationTrack: appends a new looping track at time scale 1 playing the first animation,
     * on the next track index, and selects it. Without an animation list the command throws
     * NullReferenceException, with an empty one ArgumentOutOfRangeException, before any change.
     */
    method AddAnimationTrack() returns (outcome: Outcome<Error>)
      modifies this
      ensures old(animations).None? ==> outcome == Fail(NullReference) && unchanged(this)
      ensures old(animations) == Some([]) ==> outcome == Fail(ArgumentOutOfRange) && unchanged(this)
      ensures old(animations).Some? && |old(animations).value| > 0 ==>
        outcome == Pass && |tracks| == |old(tracks)| + 1 && tracks[..|old(tracks)|] == old(tracks) &&
        fresh(tracks[|old(tracks)|]) && currentTrack == tracks[|old(tracks)|] &&
        Snapshot(currentTrack) == Some(AnimationInfo(NextTrackIndex(TrackIndices(old(tracks))), old(animations).value[0], true, 1.0)) &&
        CanDeleteAnimationTrack()
      ensures isPaneOpen == old(isPaneOpen) && atlasFile == old(atlasFile) && skeletonFile == old(skeletonFile)
      ensures spineRenderer == old(spineRenderer) && animations == old(animations) && selectedSpineVersion == old(selectedSpineVersion)
    {
      var maxIndex := NextTrackIndex(TrackIndices(tracks));
      if animations.None? {
        return Fail(NullReference);
      }
      if |animations.value| == 0 {
        return Fail(ArgumentOutOfRange);
      }
      var track := new SpineAnimation(maxIndex, animations.value[0], true, 1.0);
      tracks := tracks + [track];
      currentTrack := track;
      outcome := Pass;
    }

    /**
     * DeleteAnimationTrack: removes the selected track (its first occurrence, by identity) and
     * selects the first remaining track, or none.
     */
    method DeleteAnimationTrack()
      modifies this
      ensures tracks == if old(currentTrack) == null then old(tracks) else RemoveFirst(old(tracks), NonNull(old(currentTrack)))
      ensures currentTrack == if |tracks| > 0 then tracks[0] else null
      ensures CanDeleteAnimationTrack() <==> |tracks| > 0
      ensures isPaneOpen == old(isPaneOpen) && atlasFile == old(atlasFile) && skeletonFile == old(skeletonFile)
      ensures spineRenderer == old(spineRenderer) && animations == old(animations) && selectedSpineVersion == old(selectedSpineVersion)
    {
      if currentTrack != null {
        tracks := RemoveFirst(tracks, NonNull(currentTrack));
      }
      if |tracks| > 0 {
        currentTrack := tracks[0];
      } else {
        currentTrack := null;
      }
    }

    /** ApplyAnimations: reassigns the same tracks so that the view re-applies them to the renderer. */
    method ApplyAnimations()
      modifies this
      ensures tracks == old(tracks) && currentTrack == old(currentTrack)
      ensures isPaneOpen == old(isPaneOpen) && atlasFile == old(atlasFile) && skeletonFile == old(skeletonFile)
      ensures spineRenderer == old(spineRenderer) && animations == old(animations) && selectedSpineVersion == old(selectedSpineVersion)
    {
      tracks := tracks[..];
    }

    /**
     * LoadSpineModel: clears the tracks, looks up the selected version, initializes a new 4.1
     * adapter for "4.1" and a 3.8 adapter otherwise, takes its animation names, keeps it, and adds
     * a first track. An exception from the lookup or from Initialize ends the command with the
     * tracks cleared and the old renderer kept; an empty animation list fails at the first track.
     */
    method LoadSpineModel(fileExists: string -> bool, load: LoadRequest -> Result<SkeletonData, Error>)
      returns (outcome: Outcome<Error>)
      modifies this
      ensures isPaneOpen == old(isPaneOpen) && atlasFile == old(atlasFile) && skeletonFile == old(skeletonFile)
      ensures selectedSpineVersion == old(selectedSpineVersion)
      ensures GetSpineVersion(old(selectedSpineVersion)).Failure? ==>
        outcome == Fail(NullReference) && tracks == [] && currentTrack == old(currentTrack) &&
        spineRenderer == old(spineRenderer) && animations == old(animations)
      ensures GetSpineVersion(old(selectedSpineVersion)).Success? && !ValidPaths([old(atlasFile), old(skeletonFile)], fileExists) ==>
        outcome == Fail(InvalidOperation) && tracks == [] && currentTrack == old(currentTrack) &&
        spineRenderer == old(spineRenderer) && animations == old(animations)
      ensures GetSpineVersion(old(selectedSpineVersion)).Success? && ValidPaths([old(atlasFile), old(skeletonFile)], fileExists) ==>
        var loaded := load(RequestFor([old(atlasFile), old(skeletonFile)], fileExists));
        (loaded.Failure? ==>
          outcome == Fail(loaded.error) && tracks == [] && currentTrack == old(currentTrack) &&
          spineRenderer == old(spineRenderer) && animations == old(animations)) &&
        (loaded.Success? ==>
          animations == Some(loaded.value.animationNames) && CanAddAnimationTrack() &&
          fresh(RendererObject(spineRenderer.value)) && LoadedWith(spineRenderer.value, loaded.value) &&
          (spineRenderer.value.Renderer41? <==> GetSpineVersion(old(selectedSpineVersion)).value == Spine41))
      ensures GetSpineVersion(old(selectedSpineVersion)).Success? && ValidPaths([old(atlasFile), old(skeletonFile)], fileExists) ==>
        var loaded := load(RequestFor([old(atlasFile), old(skeletonFile)], fileExists));
        (loaded.Success? && |loaded.value.animationNames| == 0 ==>
          outcome == Fail(ArgumentOutOfRange) && tracks == [] && currentTrack == old(currentTrack)) &&
        (loaded.Success? && |loaded.value.animationNames| > 0 ==>
          outcome == Pass && |tracks| == 1 && fresh(tracks[0]) && currentTrack == tracks[0] &&
          Snapshot(tracks[0]) == Some(AnimationInfo(0, loaded.value.animationNames[0], true, 1.0)))
    {
      tracks := [];
      var version := GetSpineVersion(selectedSpineVersion);
      if version.Failure? {
        return Fail(version.error);
      }
      var path := [atlasFile, skeletonFile];
      var names: seq<string>;
      var renderer: RendererRef;
      if version.value == Spine41 {
        var r := new Spine4100Renderer();
        var init := r.Initialize(path, fileExists, load);
        if init.Fail? {
          return init;
        }
        var got := r.GetAnimations();
        names := got.value;
        renderer := Renderer41(r);
      } else {
        var r := new Spine3895Renderer();
        var init := r.Initialize(path, fileExists, load);
        if init.Fail? {
          return init;
        }
        var got := r.GetAnimations();
        names := got.value;
        renderer := Renderer38(r);
      }
      animations := Some(names);
      spineRenderer := Some(renderer);
      outcome := AddAnimationTrack();
    }
  }
}
