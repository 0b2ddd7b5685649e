/**
 * What a batch of track requests leaves in the runtime's track list, and what the adapters'
 * GetCurrentAnimations then reads back.
 */
module TrackProperties {
  import opened Wrappers
  import opened Exceptions
  import opened SpineAnimations
  import opened AnimationStates
  import opened RendererCommon

  function Max(a: nat, b: nat): nat {
    if a < b then b else a
  }

  /** The last non-null request for track k, if any. */
  function LastFor(reqs: seq<Option<AnimationInfo>>, k: nat): (r: Option<AnimationInfo>)
    ensures r.Some? ==> r.value.trackIndex == k && r in reqs
    ensures r.Some? <==> exists j :: 0 <= j < |reqs| && reqs[j].Some? && reqs[j].value.trackIndex == k
    decreases |reqs|
  {
    if |reqs| == 0 then None
    else
      var later := LastFor(reqs[1..], k);
      assert forall j :: 0 < j < |reqs| ==> reqs[j] == reqs[1..][j - 1];
      if later.Some? then later
      else if reqs[0].Some? && reqs[0].value.trackIndex == k then reqs[0]
      else None
  }

  /** LastFor picks the request at j when no later request is for the same track. */
  lemma {:induction false} LastForIsLast(reqs: seq<Option<AnimationInfo>>, k: nat, j: nat)
    requires j < |reqs| && reqs[j].Some? && reqs[j].value.trackIndex == k
    requires forall j' :: j < j' < |reqs| ==> !(reqs[j'].Some? && reqs[j'].value.trackIndex == k)
    ensures LastFor(reqs, k) == reqs[j]
    decreases |reqs|
  {
    var rest := reqs[1..];
    if j == 0 {
      assert forall j' :: 0 <= j' < |rest| ==> rest[j'] == reqs[j' + 1];
      assert LastFor(rest, k).None?;
    } else {
      assert rest[j - 1] == reqs[j];
      assert forall j' :: j - 1 < j' < |rest| ==> rest[j'] == reqs[j' + 1];
      LastForIsLast(rest, k, j - 1);
    }
  }

  /** One more than the largest non-negative track index requested (0 for none). */
  function Span(reqs: seq<Option<AnimationInfo>>): nat
    decreases |reqs|
  {
    if |reqs| == 0 then 0
    else if reqs[0].Some? && reqs[0].value.trackIndex >= 0 then Max(reqs[0].value.trackIndex + 1, Span(reqs[1..]))
    else Span(reqs[1..])
  }

  /** Every track index below the span was requested. */
  predicate Covers(reqs: seq<Option<AnimationInfo>>) {
    forall k: nat :: k < Span(reqs) ==> LastFor(reqs, k).Some?
  }

  /** The properties GetCurrentAnimations should read back: the last request of each index. */
  function LastRequests(reqs: seq<Option<AnimationInfo>>): seq<AnimationInfo>
    requires Covers(reqs)
  {
    seq(Span(reqs), k requires 0 <= k < Span(reqs) => LastFor(reqs, k).value)
  }

  lemma {:induction false} SpanBoundsRequests(reqs: seq<Option<AnimationInfo>>, k: nat)
    requires LastFor(reqs, k).Some?
    ensures k < Span(reqs)
    decreases |reqs|
  {
    if LastFor(reqs[1..], k).Some? {
      SpanBoundsRequests(reqs[1..], k);
    }
  }

  /** One accepted request keeps every entry at its own index. */
  lemma SetAnimationInternalKeepsIndexed(s: AnimationState, a: Option<AnimationInfo>)
    requires Indexed(s.tracks) && Accepted(s, a)
    ensures Indexed(SetAnimationInternal(s, a).value.tracks)
  {
    var s1 := SetAnimationInternal(s, a).value;
    forall k | 0 <= k < |s1.tracks| && s1.tracks[k].Some?
      ensures s1.tracks[k].value.trackIndex == k
    {
      assert s1.tracks[k] == TrackAt(s1.tracks, k);
      assert k < |s.tracks| ==> s.tracks[k] == TrackAt(s.tracks, k);
    }
  }

  /**
   * A batch, whether or not it goes through, changes only the track list, and keeps every entry
   * at its own index.
   */
  lemma {:induction false} SetAllKeepsInvariant(s: AnimationState, reqs: seq<Option<AnimationInfo>>)
    requires Indexed(s.tracks)
    ensures SetAll(s, reqs).state.animationNames == s.animationNames
    ensures SetAll(s, reqs).state.defaultMix == s.defaultMix
    ensures Indexed(SetAll(s, reqs).state.tracks)
    decreases |reqs|
  {
    if |reqs| > 0 && SetAnimationInternal(s, reqs[0]).Success? {
      SetAnimationInternalKeepsIndexed(s, reqs[0]);
      SetAllKeepsInvariant(SetAnimationInternal(s, reqs[0]).value, reqs[1..]);
    }
  }

  /** A batch goes through exactly when the runtime accepts every request in it. */
  lemma {:induction false} SetAllSucceedsIff(s: AnimationState, reqs: seq<Option<AnimationInfo>>)
    ensures SetAll(s, reqs).error.None? <==> forall j :: 0 <= j < |reqs| ==> Accepted(s, reqs[j])
    decreases |reqs|
  {
    if |reqs| > 0 && Accepted(s, reqs[0]) {
      var s1 := SetAnimationInternal(s, reqs[0]).value;
      SetAllSucceedsIff(s1, reqs[1..]);
      assert forall j :: 0 < j < |reqs| ==> reqs[j] == reqs[1..][j - 1];
    }
  }

  /**
   * A refused request ends the batch with its exception; the requests before it have taken
   * effect and the ones after it have not.
   */
  lemma {:induction false} SetAllStopsAtFirstRefusal(s: AnimationState, reqs: seq<Option<AnimationInfo>>, j: nat)
    requires j < |reqs| && !Accepted(s, reqs[j])
    requires forall i :: 0 <= i < j ==> Accepted(s, reqs[i])
    ensures SetAll(s, reqs) == Applied(SetAll(s, reqs[..j]).state, Some(RefusalOf(s, reqs[j])))
    decreases j
  {
    if j > 0 {
      var s1 := SetAnimationInternal(s, reqs[0]).value;
      assert reqs[1..][j - 1] == reqs[j];
      assert reqs[..j][1..] == reqs[1..][..j - 1];
      SetAllStopsAtFirstRefusal(s1, reqs[1..], j - 1);
    }
  }

  /**
   * After an accepted batch each track holds the entry of the last request for its index, the
   * remaining tracks are as before, and the list is as long as the larger of its old length and
   * the span of the batch.
   */
  lemma {:induction false} SetAllLastWins(s: AnimationState, reqs: seq<Option<AnimationInfo>>)
    requires forall j :: 0 <= j < |reqs| ==> Accepted(s, reqs[j])
    ensures |SetAll(s, reqs).state.tracks| == Max(|s.tracks|, Span(reqs))
    ensures forall k: nat ::
      TrackAt(SetAll(s, reqs).state.tracks, k) ==
        if LastFor(reqs, k).Some? then Some(EntryOf(LastFor(reqs, k).value)) else TrackAt(s.tracks, k)
    decreases |reqs|
  {
    if |reqs| > 0 {
      var s1 := SetAnimationInternal(s, reqs[0]).value;
      assert forall j :: 0 < j < |reqs| ==> reqs[j] == reqs[1..][j - 1];
      SetAllLastWins(s1, reqs[1..]);
    }
  }

  /** The track list an accepted batch leaves behind after ClearTracks, position by position. */
  predicate HoldsLastRequests(tracks: seq<Option<TrackEntry>>, reqs: seq<Option<AnimationInfo>>) {
    |tracks| == Span(reqs) &&
    forall k: nat :: k < |tracks| ==>
      tracks[k] == if LastFor(reqs, k).Some? then Some(EntryOf(LastFor(reqs, k).value)) else None
  }

  lemma ClearedBatchHoldsLastRequests(s: AnimationState, reqs: seq<Option<AnimationInfo>>)
    requires forall j :: 0 <= j < |reqs| ==> Accepted(s, reqs[j])
    ensures HoldsLastRequests(SetAll(ClearTracks(s), reqs).state.tracks, reqs)
  {
    var c := ClearTracks(s);
    assert forall j :: 0 <= j < |reqs| ==> Accepted(c, reqs[j]);
    SetAllLastWins(c, reqs);
    var tracks := SetAll(c, reqs).state.tracks;
    forall k: nat | k < |tracks|
      ensures tracks[k] == if LastFor(reqs, k).Some? then Some(EntryOf(LastFor(reqs, k).value)) else None
    {
      assert tracks[k] == TrackAt(tracks, k);
    }
  }

  lemma ReadBackOfLastRequests(tracks: seq<Option<TrackEntry>>, reqs: seq<Option<AnimationInfo>>)
    requires HoldsLastRequests(tracks, reqs)
    ensures CurrentAnimations(tracks).Success? <==> Covers(reqs)
    ensures Covers(reqs) ==> CurrentAnimations(tracks) == Success(LastRequests(reqs))
  {
    if Covers(reqs) {
      assert forall k :: 0 <= k < |tracks| ==> tracks[k].Some?;
      var infos := seq(|tracks|, k requires 0 <= k < |tracks| => InfoOf(tracks[k].value));
      assert CurrentAnimations(tracks) == Success(infos);
      assert infos == LastRequests(reqs);
    } else {
      var k: nat :| k < Span(reqs) && LastFor(reqs, k).None?;
      assert tracks[k].None?;
    }
  }

  /**
   * The round trip through the adapters: after clearing the tracks and applying an accepted batch,
   * GetCurrentAnimations succeeds exactly when the batch covers every index below its span, and
   * then reads back the last request of each index, in index order.
   */
  lemma ReadBackAfterSetAll(s: AnimationState, reqs: seq<Option<AnimationInfo>>)
    requires forall j :: 0 <= j < |reqs| ==> Accepted(s, reqs[j])
    ensures CurrentAnimations(SetAll(ClearTracks(s), reqs).state.tracks).Success? <==> Covers(reqs)
    ensures Covers(reqs) ==> CurrentAnimations(SetAll(ClearTracks(s), reqs).state.tracks) == Success(LastRequests(reqs))
  {
    ClearedBatchHoldsLastRequests(s, reqs);
    ReadBackOfLastRequests(SetAll(ClearTracks(s), reqs).state.tracks, reqs);
  }

  /** After the adapters' SetAnimation exactly the requested track index holds an entry. */
  lemma SetAnimationPopulatesOnlyItsIndex(s: AnimationState, a: AnimationInfo)
    requires Accepted(s, Some(a))
    ensures forall k: nat :: TrackAt(SetAll(ClearTracks(s), [Some(a)]).state.tracks, k).Some? <==> k == a.trackIndex
    ensures TrackAt(SetAll(ClearTracks(s), [Some(a)]).state.tracks, a.trackIndex) == Some(EntryOf(a))
  {
    var c := ClearTracks(s);
    SetAllLastWins(c, [Some(a)]);
    assert [Some(a)][1..] == [];
  }

  /**
   * The adapters' SetAnimation clears the tracks and sets one: reading back succeeds only for
   * track 0, since any other index leaves empty positions below it.
   */
  lemma SingleTrackReadBack(s: AnimationState, a: AnimationInfo)
    requires Accepted(s, Some(a))
    ensures CurrentAnimations(SetAll(ClearTracks(s), [Some(a)]).state.tracks) ==
      if a.trackIndex == 0 then Success([a]) else Failure(NullReference)
  {
    var reqs := [Some(a)];
    ReadBackAfterSetAll(s, reqs);
    assert Span(reqs[1..]) == 0;
    assert Span(reqs) == a.trackIndex + 1;
    if a.trackIndex == 0 {
      assert LastRequests(reqs) == [a];
    } else {
      assert LastFor(reqs, 0).None?;
    }
  }
}
