/** What the observation-segment contract asks of a segment before it is measured. */
module SegmentContract {
  import opened Wrappers
  import opened GateGeometry
  import opened SegmentContinuity

  ghost predicate InOrder(obs: seq<Observation>) {
    forall i, j :: 0 <= i < j < |obs| ==>
      obs[i].timestampMs < obs[j].timestampMs && obs[i].frameIndex < obs[j].frameIndex
  }

  ghost predicate BeforeOpenGap(obs: seq<Observation>, open: Option<int>) {
    open.Some? ==> forall i :: 0 <= i < |obs| ==> obs[i].timestampMs < open.value
  }

  /** The gap lies between two consecutive observations and ends at the second. */
  predicate Between(obs: seq<Observation>, i: nat, g: ClosedGap) {
    0 < i < |obs| && obs[i - 1].timestampMs < g.startMs <= obs[i].timestampMs == g.endMs
  }

  ghost predicate GapBetween(obs: seq<Observation>, g: ClosedGap) {
    exists i :: Between(obs, i, g)
  }

  ghost predicate GapsApart(gaps: seq<ClosedGap>, open: Option<int>) {
    && (forall j, k :: 0 <= j < k < |gaps| ==> gaps[j].endMs < gaps[k].startMs)
    && (open.Some? ==> forall j :: 0 <= j < |gaps| ==> gaps[j].endMs < open.value)
  }

  ghost predicate GapsContract(obs: seq<Observation>, gaps: seq<ClosedGap>, open: Option<int>) {
    GapsApart(gaps, open) && forall j :: 0 <= j < |gaps| ==> GapBetween(obs, gaps[j])
  }

  lemma BetweenIsFirst(obs: seq<Observation>, at: nat, g: ClosedGap)
    requires InOrder(obs) && g.startMs < g.endMs && at <= |obs|
    requires forall k :: 0 <= k < at ==> obs[k].timestampMs < g.startMs
    requires at < |obs| ==> obs[at].timestampMs >= g.startMs
    ensures GapBetween(obs, g) <==> 0 < at < |obs| && obs[at].timestampMs == g.endMs
  {
    forall i | Between(obs, i, g) ensures i == at {
    }
    if 0 < at < |obs| && obs[at].timestampMs == g.endMs {
      assert Between(obs, at, g);
    }
  }

  ghost predicate StartsRise(gaps: seq<ClosedGap>) {
    forall j :: 0 <= j < |gaps| ==> gaps[j].startMs < gaps[j].endMs
  }

  /** The single forward scan over observations decides the whole gap contract. */
  method CheckGaps(obs: seq<Observation>, gaps: seq<ClosedGap>, open: Option<int>) returns (ok: bool)
    requires InOrder(obs) && StartsRise(gaps)
    ensures ok <==> GapsContract(obs, gaps, open)
  {
    var observationIndex := 0;
    for j := 0 to |gaps|
      invariant 0 <= observationIndex <= |obs|
      invariant GapsContract(obs, gaps[..j], open)
      invariant j > 0 ==> forall k :: 0 <= k < observationIndex ==> obs[k].timestampMs < gaps[j - 1].startMs
      invariant j == 0 ==> observationIndex == 0
    {
      var gap := gaps[j];
      if (j > 0 && gaps[j - 1].endMs >= gap.startMs) || (open.Some? && gap.endMs >= open.value) {
        return false;
      }
      while observationIndex < |obs| && obs[observationIndex].timestampMs < gap.startMs
        invariant 0 <= observationIndex <= |obs|
        invariant forall k :: 0 <= k < observationIndex ==> obs[k].timestampMs < gap.startMs
      {
        observationIndex := observationIndex + 1;
      }
      BetweenIsFirst(obs, observationIndex, gap);
      if !(observationIndex > 0 && observationIndex < |obs| && obs[observationIndex].timestampMs == gap.endMs) {
        return false;
      }
      ExtendContract(obs, gaps, j, open);
    }
    assert gaps[..|gaps|] == gaps;
    return true;
  }

  lemma ExtendContract(obs: seq<Observation>, gaps: seq<ClosedGap>, j: nat, open: Option<int>)
    requires j < |gaps| && StartsRise(gaps) && GapsContract(obs, gaps[..j], open) && GapBetween(obs, gaps[j])
    requires j > 0 ==> gaps[j - 1].endMs < gaps[j].startMs
    requires open.Some? ==> gaps[j].endMs < open.value
    ensures GapsContract(obs, gaps[..j + 1], open)
  {
    var more := gaps[..j + 1];
    forall a, b | 0 <= a < b < |more| ensures more[a].endMs < more[b].startMs {
      if b == j && a < j - 1 {
        assert gaps[..j][a].endMs < gaps[..j][j - 1].startMs;
      } else if b < j {
        assert gaps[..j][a].endMs < gaps[..j][b].startMs;
      }
    }
    forall a | 0 <= a < |more| ensures GapBetween(obs, more[a]) && (open.Some? ==> more[a].endMs < open.value) {
      assert a < j ==> more[a] == gaps[..j][a];
    }
  }

  /** Every accepted tiling satisfies the contract: accepted segments need no second check. */
  lemma TilingMeetsContract(frames: seq<Frame>, s: nat, obs: seq<Observation>, gaps: seq<ClosedGap>, open: Option<int>)
    requires Increasing(frames) && Tiled(frames, s, s + 1, obs, gaps, open)
    ensures InOrder(obs) && BeforeOpenGap(obs, open)
    ensures StartsRise(gaps) && GapsContract(obs, gaps, open)
  {
    TilingOrdersObservations(frames, s, obs, gaps, open);
    forall j | 0 <= j < |gaps|
      ensures GapBetween(obs, gaps[j]) && gaps[j].startMs < gaps[j].endMs
      ensures open.Some? ==> gaps[j].endMs < open.value
    {
      assert GapPlaced(frames, s + 1, obs, gaps[j]);
      TilingPlacesGap(frames, s, obs, gaps, open, j);
    }
  }

  lemma TilingEndsBeforeOpenGap(frames: seq<Frame>, s: nat, obs: seq<Observation>, gaps: seq<ClosedGap>, open: Option<int>)
    requires Increasing(frames) && Tiled(frames, s, s + 1, obs, gaps, open)
    ensures BeforeOpenGap(obs, open)
  {
    forall i | 0 <= i < |obs| ensures open.Some? ==> obs[i].timestampMs < open.value {
      assert ObservedFrom(frames, s, obs[i]);
      var k: nat :| s <= k < |frames| && Shows(frames[k], obs[i]);
      ShownAt(frames, k, obs, i);
      assert TiledOnce(frames[k], obs, gaps, open);
    }
  }

  lemma LaterHasLargerIndex(frames: seq<Frame>, s: nat, a: Observation, b: Observation)
    requires Increasing(frames) && ObservedFrom(frames, s, a) && ObservedFrom(frames, s, b)
    requires a.timestampMs < b.timestampMs
    ensures a.frameIndex < b.frameIndex
  {
    var k: nat :| s <= k < |frames| && Shows(frames[k], a);
    var m: nat :| s <= m < |frames| && Shows(frames[m], b);
    assert k < m;
  }

  lemma TilingOrdersObservations(frames: seq<Frame>, s: nat, obs: seq<Observation>, gaps: seq<ClosedGap>, open: Option<int>)
    requires Increasing(frames) && Tiled(frames, s, s + 1, obs, gaps, open)
    ensures InOrder(obs) && BeforeOpenGap(obs, open)
  {
    TilingEndsBeforeOpenGap(frames, s, obs, gaps, open);
    hide BeforeOpenGap, GapsOk, FramesOk, Increasing, ObservedFrom, FrameAt;
    forall i, j | 0 <= i < j < |obs| ensures obs[i].frameIndex < obs[j].frameIndex {
      LaterHasLargerIndex(frames, s, obs[i], obs[j]);
    }
  }

  lemma ObservedOutsideGap(frames: seq<Frame>, s: nat, obs: seq<Observation>, gaps: seq<ClosedGap>, open: Option<int>, i: nat, j: nat)
    requires ObservationsOk(frames, s, obs) && FramesOk(frames, s, obs, gaps, open) && i < |obs| && j < |gaps|
    ensures obs[i].timestampMs < gaps[j].startMs || obs[i].timestampMs >= gaps[j].endMs
  {
    assert ObservedFrom(frames, s, obs[i]);
    var k: nat :| s <= k < |frames| && Shows(frames[k], obs[i]);
    ShownAt(frames, k, obs, i);
    assert TiledOnce(frames[k], obs, gaps, open);
    assert !Inside(frames[k], gaps[j]);
  }

  lemma TilingPlacesGap(frames: seq<Frame>, s: nat, obs: seq<Observation>, gaps: seq<ClosedGap>, open: Option<int>, j: nat)
    requires Increasing(frames) && Tiled(frames, s, s + 1, obs, gaps, open) && j < |gaps|
    ensures GapBetween(obs, gaps[j])
    ensures open.Some? ==> gaps[j].endMs < open.value
  {
    TilingOrdersObservations(frames, s, obs, gaps, open);
    FirstFrameObserved(frames, s, obs, gaps, open, j);
    assert GapPlaced(frames, s + 1, obs, gaps[j]);
    var i: nat :| i < |obs| && obs[i].timestampMs == gaps[j].endMs;
    hide FramesOk, GapsOk, ObservationsOk, GapPlaced;
    assert i > 0;
    ObservedOutsideGap(frames, s, obs, gaps, open, i - 1, j);
    assert Between(obs, i, gaps[j]);
  }

  /** The seed frame is the first observation, before every gap. */
  lemma FirstFrameObserved(frames: seq<Frame>, s: nat, obs: seq<Observation>, gaps: seq<ClosedGap>, open: Option<int>, j: nat)
    requires Increasing(frames) && Tiled(frames, s, s + 1, obs, gaps, open) && j < |gaps|
    ensures obs != [] && obs[0].timestampMs < gaps[j].startMs
  {
    assert GapPlaced(frames, s + 1, obs, gaps[j]);
    var m: nat :| s + 1 <= m < |frames| && frames[m].timestampMs == gaps[j].startMs;
    assert frames[s].timestampMs < frames[m].timestampMs;
    CursorFrame(frames, s, s + 1, obs, gaps, open);
    hide Tiled, GapPlaced, Increasing;
  }
}
