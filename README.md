# SpineViewer core, modelled in Dafny

SpineViewer is an Avalonia desktop viewer for Spine skeletal animations. The user picks an
atlas and a skeleton file and a runtime version ("3.8" or "4.1"). The view model builds the
runtime adapter for that version and loads the model. The user then edits a list of animation
tracks, which the adapter applies to the runtime's animation state. Each frame, the 4.1 Skia
renderer draws the skeleton's attachments onto a canvas.

The model covers these parts:

- **`SkeletonRenderer`** (`skeleton_renderer.dfy`, properties in `skeleton_renderer_properties.dfy`).
  This is the Skia renderer's `Draw`.
  - The draw-order loop is a `method` with a loop invariant.
  - It is proved equal to `DrawSpec`, a recursive function over the draw order that emits one event per canvas or clipper call: `ClipStart`, shader creation, `DrawVertices`, `ClipEnd(slot)`, and the final `ClipEnd()`.
  - The pairing loop (`PairVertices`) and the vertex buffer fill (`FillGeometry`, over an `array`) are methods, each proved against its own function.
  - Spine's clipper is a small state machine. `ComputeWorldVertices` and the clipper's triangle output are parameters (`Runtime`).
- **`Spine3895Renderers` / `Spine4100Renderers`**: the two runtime adapters. Each is a class whose fields are the adapter's mutable members:
  - the animation state and skeleton data, as values;
  - whether a skeleton renderer exists;
  - the frame operations applied to the skeleton;
  - whether this adapter has set the runtime's static `Bone.yDown`.

  `RendererCommon` holds what both adapters share: the loader choice, `SetAnimationInternal`, the foreach of `SetAnimations` as `SetAll`, and the track read-back. `AnimationStates` is the part of the Spine runtime's `AnimationState` that the adapters reach: a track list indexed by track number, with empty positions.
- **`MainViewModels`**: the view model as a class, with these parts:
  - its observable fields;
  - the track commands (add, delete, apply) and their enable predicates;
  - the file dialogs, with the picked files as a parameter;
  - the version lookup and the dispatch of `LoadSpineModel` to an adapter.

  C#'s unchecked `int` arithmetic in the next track index is written out as 32-bit wrap-around. `List.Remove` removes the first occurrence by reference.
- **`SpineAnimations`**: the `SpineAnimation` track object (a class, as it is mutable and compared by reference) and its value snapshot.
- **`SpineTextureLoader`**: `Load` stores the decoded bitmap on the page and back-fills zero page sizes. `Unload` only disposes `SKImage` textures.
- **`PathToFileNameConverter`** with **`Paths`**: `Path.GetFileName` and `Path.GetExtension` on strings.
- **`SpineVersions`**: the `SpineVersion` enum, its `EnumMember` values, and the reflection lookup.

C# exceptions are modelled as `Outcome`/`Result` values carrying an `Exceptions.Error`. A method
that throws part-way keeps the state changes made before the throw. Null references are
`Option` values, or `SpineAnimation?`.

Some behaviours are modelled as written even though they look unintended:

- The draw loop pairs floats over the whole vertex buffer, which is at least 8 floats, rather than over the vertices in use. A mesh of fewer than four vertices whose UVs are as long as its world vertices therefore fails with an index error when drawn unclipped (`SmallMeshFailsUnclipped`).
- A clipped slot uses the clipper's whole output arrays.
- Slots that are skipped, or whose geometry is empty, do not reach `ClipEnd(slot)`.
- `GetCurrentAnimations` throws `NullReferenceException` when the track list has a gap. So after `SetAnimation` on a track index other than 0, the read-back fails (`SingleTrackReadBack`).
- `LoadSpineModel` with a skeleton that has no animations keeps the new renderer and the empty list, then fails with `ArgumentOutOfRangeException` when it adds the first track.
- An unknown or null selected version makes `GetSpineVersion` dereference null.
- A null element passed to `SetAnimations` ends the loop and leaves the earlier requests applied.

## Model

| member | source | states |
|---|---|---|
| SkeletonRenderer.Draw | SpineViewer/Spine/Runtimes/4100/Skia/SkeletonRenderer.cs:40-188 | The events of a draw (every slot in draw order, stopping at the first exception, then `ClipEnd()`) equal `DrawSpec` |
| SkeletonRenderer.DrawSlot | SpineViewer/Spine/Runtimes/4100/Skia/SkeletonRenderer.cs:56-185 | One iteration of the draw-order loop produces exactly the state, events and failure of `SlotStep` |
| SkeletonRenderer.FillGeometry | SpineViewer/Spine/Runtimes/4100/Skia/SkeletonRenderer.cs:89-113 | Region: world vertices in the 8-float buffer, 4 vertices, the quad triangles and the region UVs. Mesh: the buffer reallocated when too short, WorldVerticesLength/2 vertices, and the mesh triangles and UVs |
| SkeletonRenderer.PairVertices | SpineViewer/Spine/Runtimes/4100/Skia/SkeletonRenderer.cs:160-167 | Succeeds iff the UVs cover every float pair of the buffer. Then the k-th position is the k-th vertex pair, and the k-th texture coordinate is the k-th UV pair scaled by the bitmap size |
| SkeletonRenderer.GetRendererObject | SpineViewer/Spine/Runtimes/4100/Skia/SkeletonRenderer.cs:190-196 | A bitmap only for an atlas region whose page object is an SKBitmap, otherwise null |
| SkeletonRenderer.MapBlendMode | SpineViewer/Spine/Runtimes/4100/Skia/SkeletonRenderer.cs:120-133 | Normal, Additive, Multiply and Screen map to SrcOver, Plus, Multiply and Screen |
| SkeletonRendererProperties.SkippedSlotsDrawNothing | SpineViewer/Spine/Runtimes/4100/Skia/SkeletonRenderer.cs:89-117 | A clipping attachment only starts the clip. A missing or unknown attachment, or one without an SKBitmap page, draws and changes nothing |
| SkeletonRendererProperties.RegionIsQuad | SpineViewer/Spine/Runtimes/4100/Skia/SkeletonRenderer.cs:89-98 | A region is 4 vertices in an 8-float buffer with indices 0,1,2,2,3,0 |
| SkeletonRendererProperties.MeshBuffer | SpineViewer/Spine/Runtimes/4100/Skia/SkeletonRenderer.cs:99-113 | A mesh has WorldVerticesLength/2 vertices and the mesh triangles. Its buffer is 8 floats, or WorldVerticesLength floats when that is longer |
| SkeletonRendererProperties.EmptyGeometryDrawsNothing | SpineViewer/Spine/Runtimes/4100/Skia/SkeletonRenderer.cs:157-158 | Geometry without vertices or indices after clipping draws nothing and skips `ClipEnd(slot)` |
| SkeletonRendererProperties.DrawnSlotCall | SpineViewer/Spine/Runtimes/4100/Skia/SkeletonRenderer.cs:136-184 | A drawn slot ends with `DrawVertices` then `ClipEnd(slot)`. The call holds one position and texture point per buffer pair, the slot's tint and dark colour (premultiplied iff the bitmap is), the indices narrowed to ushort, and the current shader. Blur iff Plus iff Additive; blend mode mapped |
| SkeletonRendererProperties.SmallMeshFailsUnclipped | SpineViewer/Spine/Runtimes/4100/Skia/SkeletonRenderer.cs:160-167 | A mesh of 1 to 3 vertices with UVs as long as its world vertices fails with an index error when unclipped |
| SkeletonRendererProperties.PremulScalesStraightTint | SpineViewer/Spine/Runtimes/4100/Skia/SkeletonRenderer.cs:136-144 | The premultiplied tint is the straight tint with RGB scaled by alpha. The dark alpha is 1 premultiplied and 0 straight |
| SkeletonRendererProperties.SlotStepNoClipEnd | SpineViewer/Spine/Runtimes/4100/Skia/SkeletonRenderer.cs:54-185 | No slot step calls the final `ClipEnd()` |
| SkeletonRendererProperties.DrawFromClipEnd | SpineViewer/Spine/Runtimes/4100/Skia/SkeletonRenderer.cs:54-186 | From any slot on, `ClipEnd()` is called once, last, iff the loop does not fail |
| SkeletonRendererProperties.ClipEndOnceAfterLoop | SpineViewer/Spine/Runtimes/4100/Skia/SkeletonRenderer.cs:186 | A completed draw calls `ClipEnd()` exactly once, as its last event. A failed draw never calls it |
| SkeletonRendererProperties.SlotStepShape | SpineViewer/Spine/Runtimes/4100/Skia/SkeletonRenderer.cs:56-185 | One slot emits nothing, just the clip start, or an optional shader creation followed by a draw and `ClipEnd(slot)` |
| SkeletonRendererProperties.SlotStepShader | SpineViewer/Spine/Runtimes/4100/Skia/SkeletonRenderer.cs:78-84 | One slot creates at most one shader, only for a bitmap other than the current one, which then becomes current |
| SkeletonRendererProperties.DrawFromShaders | SpineViewer/Spine/Runtimes/4100/Skia/SkeletonRenderer.cs:54-84 | The shader bitmaps of the remaining loop never repeat in a row, and the first differs from the current bitmap |
| SkeletonRendererProperties.ShaderRecreatedOnlyOnBitmapChange | SpineViewer/Spine/Runtimes/4100/Skia/SkeletonRenderer.cs:78-84 | Across a draw, consecutive shader creations are for different bitmaps |
| SkeletonRendererProperties.SameBitmapReusesShader | SpineViewer/Spine/Runtimes/4100/Skia/SkeletonRenderer.cs:78-84 | A slot on the current bitmap creates no shader and draws with the current shader |
| SkeletonRendererProperties.CountClipEndAppend | SpineViewer/Spine/Runtimes/4100/Skia/SkeletonRenderer.cs:184-186 | ClipEnd counts add over concatenated event lists |
| SkeletonRendererProperties.ShaderBitmapsAppend | SpineViewer/Spine/Runtimes/4100/Skia/SkeletonRenderer.cs:78-84 | Shader creations distribute over concatenated event lists |
| Spine4100Renderers.Spine4100Renderer.Initialize | SpineViewer/Spine/Renderers/Spine_4100_Renderer.cs:18-47 | Anything but two existing paths gives InvalidOperation with no change. Otherwise yDown is set and the JSON or binary loader runs at scale 1. A failed load keeps the state; success gives mix 0.3, no tracks, one world transform, and a renderer |
| Spine4100Renderers.Spine4100Renderer.SetAnimation | SpineViewer/Spine/Renderers/Spine_4100_Renderer.cs:49-53 | Null state gives NullReference. Otherwise the tracks are cleared and the one request is set; its error leaves the tracks cleared |
| Spine4100Renderers.Spine4100Renderer.SetAnimations | SpineViewer/Spine/Renderers/Spine_4100_Renderer.cs:55-63 | Null or empty gives ArgumentNull with no change. Otherwise the tracks are cleared and the requests are applied in order, stopping at the first exception (`SetAll`) |
| Spine4100Renderers.Spine4100Renderer.GetCurrentAnimations | SpineViewer/Spine/Renderers/Spine_4100_Renderer.cs:71-75 | Succeeds iff no track position is empty, otherwise NullReference. Each result sits at its own track index and reads back its entry |
| Spine4100Renderers.Spine4100Renderer.GetAnimations | SpineViewer/Spine/Renderers/Spine_4100_Renderer.cs:77-78 | The skeleton's animation names, which are the names the animation state accepts. NullReference before Initialize |
| Spine4100Renderers.Spine4100Renderer.Draw | SpineViewer/Spine/Renderers/Spine_4100_Renderer.cs:80-81 | Nothing without a renderer, otherwise exactly `DrawSpec` of the pose |
| Spine4100Renderers.Spine4100Renderer.NextFrame | SpineViewer/Spine/Renderers/Spine_4100_Renderer.cs:83-88 | Appends Update(delta), Apply, UpdateWorldTransform in that order. NullReference and no change before Initialize |
| Spine4100Renderers.Spine4100Renderer.constructor | SpineViewer/Spine/Renderers/Spine_4100_Renderer.cs:12-16 | Starts with no state, data or renderer |
| Spine3895Renderers.Spine3895Renderer.Initialize | SpineViewer/Spine/Renderers/Spine_3895_Renderer.cs:18-58 | As for 4.1: the guard, yDown, the loader chosen by the ".json" extension at scale 1, mix 0.3, and the new state, skeleton and renderer |
| Spine3895Renderers.Spine3895Renderer.SetAnimation | SpineViewer/Spine/Renderers/Spine_3895_Renderer.cs:60-64 | Clear, then the one request, via `SetAll` |
| Spine3895Renderers.Spine3895Renderer.SetAnimations | SpineViewer/Spine/Renderers/Spine_3895_Renderer.cs:66-74 | Null or empty gives ArgumentNull. Otherwise clear and apply the requests in order, stopping at the first exception |
| Spine3895Renderers.Spine3895Renderer.GetCurrentAnimations | SpineViewer/Spine/Renderers/Spine_3895_Renderer.cs:82-86 | Succeeds iff there is no gap. Entries are read back at their own indices |
| Spine3895Renderers.Spine3895Renderer.GetAnimations | SpineViewer/Spine/Renderers/Spine_3895_Renderer.cs:88-89 | The skeleton's animation names |
| Spine3895Renderers.Spine3895Renderer.NextFrame | SpineViewer/Spine/Renderers/Spine_3895_Renderer.cs:94-99 | Update, Apply, UpdateWorldTransform in order |
| Spine3895Renderers.Spine3895Renderer.constructor | SpineViewer/Spine/Renderers/Spine_3895_Renderer.cs:12-16 | Starts with no state, data or renderer |
| RendererCommon.LoaderFor | SpineViewer/Spine/Renderers/Spine_4100_Renderer.cs:31-33 | The JSON loader iff the skeleton path ends in ".json", case-sensitively |
| RendererCommon.RequestFor | SpineViewer/Spine/Renderers/Spine_4100_Renderer.cs:31-36 | The load reads the given atlas and skeleton files at scale 1, with the loader `LoaderFor` picks for the skeleton file |
| RendererCommon.SetAnimationInternal | SpineViewer/Spine/Renderers/Spine_4100_Renderer.cs:65-69 | Succeeds iff the request is non-null, its name is known and its index is non-negative. The error otherwise is NullReference, Argument or IndexOutOfRange. On success only the request's index changes, to its entry with the request's time scale |
| AnimationStates.ClearTracks | SpineViewer/Spine/Renderers/Spine_4100_Renderer.cs:51 | Empties the track list and keeps the names and the mix |
| AnimationStates.Place | SpineViewer/Spine/Renderers/Spine_4100_Renderer.cs:67 | The track list grows just enough to hold the index. Only that index changes |
| AnimationStates.SetAnimation | SpineViewer/Spine/Renderers/Spine_4100_Renderer.cs:67 | An unknown name gives Argument, and a negative index gives IndexOutOfRange. The names and the mix are kept |
| TrackProperties.SetAllSucceedsIff | SpineViewer/Spine/Renderers/Spine_4100_Renderer.cs:60-62 | A batch raises no exception iff every request is accepted in turn |
| TrackProperties.SetAllStopsAtFirstRefusal | SpineViewer/Spine/Renderers/Spine_4100_Renderer.cs:60-62 | When the first j requests are accepted and the next is refused, the result is that refusal, with exactly the first j applied |
| TrackProperties.SetAllLastWins | SpineViewer/Spine/Renderers/Spine_4100_Renderer.cs:60-62 | After an accepted batch, each index holds the last request for it, or its old entry. The list length is the larger of the old length and the highest index plus one |
| TrackProperties.SetAllKeepsInvariant | SpineViewer/Spine/Renderers/Spine_4100_Renderer.cs:60-62 | A batch keeps every entry at its own index, and keeps the names and the mix |
| TrackProperties.SetAnimationInternalKeepsIndexed | SpineViewer/Spine/Renderers/Spine_4100_Renderer.cs:65-69 | One request keeps every entry at its own index |
| TrackProperties.ReadBackAfterSetAll | SpineViewer/Spine/Renderers/Spine_4100_Renderer.cs:55-75 | After clearing and an accepted batch, the read-back succeeds iff the requests cover 0..max. The result is then the last request per index |
| TrackProperties.ClearedBatchHoldsLastRequests | SpineViewer/Spine/Renderers/Spine_4100_Renderer.cs:60-62 | After clearing, an accepted batch leaves exactly the last request for each index |
| TrackProperties.ReadBackOfLastRequests | SpineViewer/Spine/Renderers/Spine_4100_Renderer.cs:71-75 | A list of last requests reads back iff it has no gap |
| TrackProperties.SetAnimationPopulatesOnlyItsIndex | SpineViewer/Spine/Renderers/Spine_4100_Renderer.cs:49-53 | After an accepted SetAnimation, exactly the requested index holds an entry, and it is that request's entry |
| TrackProperties.SingleTrackReadBack | SpineViewer/Spine/Renderers/Spine_4100_Renderer.cs:49-75 | After SetAnimation the read-back is that one track iff its index is 0, otherwise NullReference |
| TrackProperties.SpanBoundsRequests | SpineViewer/Spine/Renderers/Spine_4100_Renderer.cs:60-62 | Every requested index lies below the batch's span |
| TrackProperties.LastFor | SpineViewer/Spine/Renderers/Spine_4100_Renderer.cs:60-62 | The last request for an index exists iff some request has that index, and is one of the requests |
| TrackProperties.LastForIsLast | SpineViewer/Spine/Renderers/Spine_4100_Renderer.cs:60-62 | LastFor is the request at j when no later request is for the same track |
| SpineAnimations.SpineAnimation.constructor | SpineViewer/Spine/SpineAnimation.cs:5-18 | The four properties take the constructor's arguments |
| SpineAnimations.Snapshots | SpineViewer/Spine/Renderers/Spine_4100_Renderer.cs:61-62 | One snapshot per element, in order |
| SpineTextureLoader.Load | SpineViewer/Spine/Runtimes/4100/Skia/SpineTextureLoader.cs:10-25 | An open or decode failure throws before the page changes. Otherwise the page holds the bitmap and its size is back-filled |
| SpineTextureLoader.BackFilledSize | SpineViewer/Spine/Runtimes/4100/Skia/SpineTextureLoader.cs:20-24 | The bitmap size when either dimension is zero, otherwise the recorded size. Non-zero for a non-empty bitmap |
| SpineTextureLoader.BackFillIdempotent | SpineViewer/Spine/Runtimes/4100/Skia/SpineTextureLoader.cs:20-24 | Back-filling twice with the same non-empty bitmap changes nothing |
| SpineTextureLoader.UnloadFootprint | SpineViewer/Spine/Runtimes/4100/Skia/SpineTextureLoader.cs:27-31 | Unload may change something iff the texture is an SKImage, and then only that image |
| SpineTextureLoader.Unload | SpineViewer/Spine/Runtimes/4100/Skia/SpineTextureLoader.cs:27-31 | Disposes an SKImage. The SKBitmap that Load stores is not touched |
| PathToFileNameConverter.Convert | SpineViewer/Converters/PathToFileNameConverter.cs:11-19 | File name iff a string bound to a string-assignable target. Null iff null. Otherwise an InvalidCast notification. The name is `GetFileName` of the path: its separator-free suffix after the last separator |
| PathToFileNameConverter.ConvertBack | SpineViewer/Converters/PathToFileNameConverter.cs:21-24 | Always NotSupported |
| PathToFileNameConverter.ConvertIdempotent | SpineViewer/Converters/PathToFileNameConverter.cs:11-19 | Converting a converted name gives the same name |
| Paths.GetFileName | SpineViewer/Converters/PathToFileNameConverter.cs:14 | A separator-free suffix that is the whole path or follows a separator |
| Paths.GetFileNameOfPlainName | SpineViewer/Converters/PathToFileNameConverter.cs:14 | A separator-free string is its own file name |
| Paths.GetFileNameIdempotent | SpineViewer/Converters/PathToFileNameConverter.cs:14 | GetFileName twice equals GetFileName once |
| Paths.GetExtension | SpineViewer/Spine/Renderers/Spine_4100_Renderer.cs:31 | Empty, or a suffix of at least two characters that starts with its only '.' and contains no separator |
| Paths.ExtensionFromLastDot | SpineViewer/Spine/Renderers/Spine_4100_Renderer.cs:31 | A '.' that is not the last character, with no '.' or separator after it, starts the extension, so the extension is non-empty exactly when such a '.' exists |
| Paths.ScanFindsDot | SpineViewer/Spine/Renderers/Spine_4100_Renderer.cs:31 | The backward scan stops at that '.' from any point after it |
| Paths.JsonExtensionIffSuffix | SpineViewer/Spine/Renderers/Spine_4100_Renderer.cs:31 | The extension is ".json" iff the path ends in ".json" |
| SpineVersions.VersionNames | SpineViewer/SpineVersion.cs:5-11 | The EnumMember values in declaration order |
| SpineVersions.VersionNamesInOrder | SpineViewer/SpineVersion.cs:5-11 | The values are "3.8" then "4.1" |
| SpineVersions.FirstWithValue | SpineViewer/ViewModels/MainViewModel.cs:154-158 | A member with the value. None iff no member has it |
| SpineVersions.FirstWithValueIsFirst | SpineViewer/ViewModels/MainViewModel.cs:154-158 | The result is the first member carrying the value, as FirstOrDefault returns |
| SpineVersions.GetSpineVersion | SpineViewer/ViewModels/MainViewModel.cs:152-160 | Succeeds iff the string is one of the values, giving the member that carries it. Otherwise NullReference |
| SpineVersions.GetSpineVersionInvertsValue | SpineViewer/ViewModels/MainViewModel.cs:152-160 | Every offered value looks up its own member |
| MainViewModels.WrapInt32 | SpineViewer/ViewModels/MainViewModel.cs:83 | The result is in int32 range, congruent to the input mod 2^32, and equal to the input when it is in range |
| MainViewModels.MaxIndex | SpineViewer/ViewModels/MainViewModel.cs:83 | The highest track index, bounding all of them |
| MainViewModels.NextTrackIndexIsFresh | SpineViewer/ViewModels/MainViewModel.cs:83 | When every index is below int.MaxValue, the new index is an int32 greater than every existing one |
| MainViewModels.NextTrackIndexWrapsAtMax | SpineViewer/ViewModels/MainViewModel.cs:83 | A track at int.MaxValue makes the next index int.MinValue, by unchecked overflow |
| MainViewModels.TrackIndices | SpineViewer/ViewModels/MainViewModel.cs:83 | The tracks' indices in order |
| MainViewModels.IndexOf | SpineViewer/ViewModels/MainViewModel.cs:97 | The first position of an element that is present |
| MainViewModels.RemoveFirst | SpineViewer/ViewModels/MainViewModel.cs:96-98 | Without the element, the list is unchanged. Otherwise the list without its first occurrence |
| MainViewModels.RemoveFirstShrinks | SpineViewer/ViewModels/MainViewModel.cs:96-98 | One element shorter iff present, and the multiset loses exactly that element |
| MainViewModels.Split | SpineViewer/ViewModels/MainViewModel.cs:136-138 | At least one piece. The pieces joined with the separator give the input, and no piece holds the separator |
| MainViewModels.SplitPlain | SpineViewer/ViewModels/MainViewModel.cs:136-138 | A string without the separator splits into itself |
| MainViewModels.SplitFirstPiece | SpineViewer/ViewModels/MainViewModel.cs:136-138 | A separator-free first piece is split off whole |
| MainViewModels.SplitJoin | SpineViewer/ViewModels/MainViewModel.cs:136-138 | Splitting the join of separator-free pieces gives the pieces back |
| MainViewModels.FilterPatternsIsSplit | SpineViewer/ViewModels/MainViewModel.cs:136-138 | The picker patterns are the split of the extensions at the bar character; the contains-check changes nothing |
| MainViewModels.FilterPatternsOfOne | SpineViewer/ViewModels/MainViewModel.cs:74 | A single separator-free pattern is the only filter |
| MainViewModels.FilterPatternsOfTwo | SpineViewer/ViewModels/MainViewModel.cs:78 | Two bar-free patterns joined by a bar give exactly those two filters |
| MainViewModels.PickedPath | SpineViewer/ViewModels/MainViewModel.cs:147-149 | The one picked path, or "" unless exactly one file was picked |
| MainViewModels.MainViewModel.constructor | SpineViewer/ViewModels/MainViewModel.cs:53-66 | The pane is open, nothing is loaded, and the versions list the enum values with the first selected. In design mode there are two sample tracks |
| MainViewModels.MainViewModel.CanLoadSpineModel | SpineViewer/ViewModels/MainViewModel.cs:130-131 | Enabled iff both paths have a non-white-space character |
| MainViewModels.MainViewModel.TogglePanel | SpineViewer/ViewModels/MainViewModel.cs:68-70 | Flips the pane and changes nothing else |
| MainViewModels.MainViewModel.TogglePanelTwice | SpineViewer/ViewModels/MainViewModel.cs:68-70 | Toggling twice restores the pane and leaves every other field as it was |
| MainViewModels.MainViewModel.OpenFileDialog | SpineViewer/ViewModels/MainViewModel.cs:133-150 | The patterns join back to the extensions with no bar character inside. The path is the single pick, or "" |
| MainViewModels.MainViewModel.OpenAtlasFileDialog | SpineViewer/ViewModels/MainViewModel.cs:72-74 | The atlas path becomes the picked path. Nothing else changes |
| MainViewModels.MainViewModel.OpenSkelFileDialog | SpineViewer/ViewModels/MainViewModel.cs:76-78 | The skeleton path becomes the picked path. Nothing else changes |
| MainViewModels.MainViewModel.AddAnimationTrack | SpineViewer/ViewModels/MainViewModel.cs:80-91 | No animations gives NullReference; an empty list gives ArgumentOutOfRange; neither changes anything. Otherwise a fresh looping track (next index, first animation) is appended and selected, which enables Delete |
| MainViewModels.MainViewModel.DeleteAnimationTrack | SpineViewer/ViewModels/MainViewModel.cs:93-105 | The selected track's first occurrence is removed by reference, and the first remaining track, or none, is selected. Delete stays enabled iff tracks remain |
| MainViewModels.MainViewModel.ApplyAnimations | SpineViewer/ViewModels/MainViewModel.cs:107-111 | The same tracks are reassigned. Nothing else changes |
| MainViewModels.MainViewModel.LoadSpineModel | SpineViewer/ViewModels/MainViewModel.cs:113-129 | Clears the tracks. A failed version lookup, path guard or load keeps the old renderer. On load, the 4.1 adapter iff "4.1", freshly initialized with the data, and Add is enabled. Then one track (0, first name, loop, 1), or ArgumentOutOfRange if there are no names |

## Left out

- File system, file picker and canvas: file existence, `File.OpenRead`, the picked files, the decoded bitmap, and the skeleton loader's result are parameters. The Skia canvas is an event list. Reading atlas and skeleton files is not modelled.
- Spine runtime internals are parameters or records, not computations:
  - `ComputeWorldVertices` and `SkeletonClipping.ClipTriangles` give their output through `Runtime`;
  - `AnimationState.Update`/`Apply` and `UpdateWorldTransform` are recorded as frame operations;
  - animation mixing and timing are not modelled.
- Floating point (`float` colours, UVs, time scale, default mix) is modelled as `real`, without rounding.
- Exception messages, `using` disposal of the file stream, and the old shader's `Dispose` are left out. The shader is counted, not disposed.
- Spine3895Renderers.Spine3895Renderer: `Draw` is left out, because the 3.8 runtime's own Skia renderer is not part of this model. The 4.1 adapter's `Draw` is modelled, with the pose passed in.
- Spine4100Renderers.Spine4100Renderer.Draw: takes the skeleton pose as a parameter instead of reading the adapter's `Skeleton` object, whose bones the runtime computes.
- `Bone.yDown` is a static field of each runtime, shared by every adapter of that runtime and never reset. The model keeps one flag per adapter, recording whether that adapter set it. A new adapter may find the real flag already true, which the constructors' `!yDown` does not capture.
- Paths.GetFileName: only '/' and '\\' are separators, as on Windows; on Linux and macOS a '\\' is an ordinary character, so there the model's file name of a path containing '\\' is shorter than the real one. Windows volume roots (`C:`) are not treated as separators.
- Spine3895Renderers.Spine3895Renderer.GetCurrentAnimations: returns track values rather than new `SpineAnimation` objects. The same holds for the 4.1 adapter.
- MainViewModels.MainViewModel: property-change and can-execute notifications, the `Scale` property, and Avalonia binding are left out. `LoadSpineModel` calls `AddAnimationTrack` directly, since `RelayCommand.Execute` does not re-check `CanExecute`. The enable predicates `CanAddAnimationTrack`, `CanDeleteAnimationTrack` and `HasCurrentTrackSelected` are stated through the commands' contracts.
- MainViewModels.MainViewModel.constructor: design mode is a parameter instead of `Design.IsDesignMode`.
- The async dialog's title and filter name only label the picker, and are left out.
- `App`, `SpineViewControl` and `ISpineRenderer` wire the view to the adapters and are not part of this model.
