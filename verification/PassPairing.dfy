/**
 Pairing time-ordered events into passes.  The machine remembers a pending
 entry and whether a gap came last; its meaning is local: what becomes of an
 event depends on its neighbours in the ordered list.
 */
module PassPairing {
  import opened Wrappers
  import opened GateGeometry
  import opened CornerRanking
  import opened SegmentContinuity
  import opened SegmentContract
  import opened CornerMeasurement

  const MAX_CORNER_EVIDENCE_PASSES := 10_000

  // ----- ordering the events -----

  function InsertByTime(es: seq<Event>, e: Event): seq<Event> {
    if es == [] || Time(es[|es| - 1]) <= Time(e) then es + [e]
    else InsertByTime(es[..|es| - 1], e) + [es[|es| - 1]]
  }

  /** A stable sort by time. */
  function ByTime(es: seq<Event>): seq<Event> {
    if es == [] then [] else InsertByTime(ByTime(es[..|es| - 1]), es[|es| - 1])
  }

  ghost predicate Chronological(es: seq<Event>) {
    forall i, j :: 0 <= i < j < |es| ==> Time(es[i]) <= Time(es[j])
  }

  lemma {:induction false} InsertByTimeMultiset(es: seq<Event>, e: Event)
    ensures multiset(InsertByTime(es, e)) == multiset(es) + multiset{e}
  {
    if es != [] && Time(es[|es| - 1]) > Time(e) {
      assert es == es[..|es| - 1] + [es[|es| - 1]];
      InsertByTimeMultiset(es[..|es| - 1], e);
    }
  }

  lemma {:induction false} InsertByTimeOrder(es: seq<Event>, e: Event)
    requires Chronological(es)
    ensures Chronological(InsertByTime(es, e))
  {
    if es != [] && Time(es[|es| - 1]) > Time(e) {
      var front, last := es[..|es| - 1], es[|es| - 1];
      InsertByTimeOrder(front, e);
      InsertByTimeBefore(front, e, last);
    }
  }

  lemma {:induction false} InsertByTimeBefore(es: seq<Event>, e: Event, last: Event)
    requires Time(e) <= Time(last) && forall i :: 0 <= i < |es| ==> Time(es[i]) <= Time(last)
    ensures forall i :: 0 <= i < |InsertByTime(es, e)| ==> Time(InsertByTime(es, e)[i]) <= Time(last)
  {
    if es != [] && Time(es[|es| - 1]) > Time(e) {
      InsertByTimeBefore(es[..|es| - 1], e, last);
    }
  }

  lemma {:induction false} ByTimeFacts(es: seq<Event>)
    ensures multiset(ByTime(es)) == multiset(es) && Chronological(ByTime(es))
  {
    if es != [] {
      assert es == es[..|es| - 1] + [es[|es| - 1]];
      ByTimeFacts(es[..|es| - 1]);
      InsertByTimeMultiset(ByTime(es[..|es| - 1]), es[|es| - 1]);
      InsertByTimeOrder(ByTime(es[..|es| - 1]), es[|es| - 1]);
    }
  }

  // ----- the meaning: what becomes of each event -----

  datatype Fields = Fields(
    entry: Option<GateCrossing>,
    exit: Option<GateCrossing>,
    durationMs: Option<real>,
    eligible: bool,
    exclusion: Option<Exclusion>)

  /** The last event before `n` that is not an exit is a gap. */
  predicate AfterGap(es: seq<Event>, n: nat)
    requires n <= |es|
  {
    n > 0 && (es[n - 1].GapEvent? || (es[n - 1].ExitEvent? && AfterGap(es, n - 1)))
  }

  function Unpaired(entry: Option<GateCrossing>, exit: Option<GateCrossing>, why: Exclusion): Fields {
    Fields(entry, exit, None, false, Some(why))
  }

  /** The pass an event opens: an entry always one, an exit only when no entry directly precedes it. */
  function PassAt(es: seq<Event>, i: nat, openEnded: bool): Option<Fields>
    requires i < |es|
  {
    match es[i]
    case GapEvent(_) => None
    case ExitEvent(exit) =>
      if i > 0 && es[i - 1].EntryEvent? then None
      else Some(Unpaired(None, Some(exit), if AfterGap(es, i) then TrackingGap else GateOrder))
    case EntryEvent(entry) =>
      if i + 1 == |es| then Some(Unpaired(Some(entry), None, if openEnded then TrackingGap else RaceWindow))
      else match es[i + 1]
        case GapEvent(_) => Some(Unpaired(Some(entry), None, TrackingGap))
        case EntryEvent(_) => Some(Unpaired(Some(entry), None, GateOrder))
        case ExitEvent(exit) =>
          Some(Fields(Some(entry), Some(exit), Some(exit.timestampMs - entry.timestampMs), true, None))
  }

  function PassesUpTo(es: seq<Event>, n: nat, openEnded: bool): seq<Fields>
    requires n <= |es|
  {
    if n == 0 then []
    else
      var pass := PassAt(es, n - 1, openEnded);
      if pass.Some? then PassesUpTo(es, n - 1, openEnded) + [pass.value]
      else PassesUpTo(es, n - 1, openEnded)
  }

  function Passes(es: seq<Event>, openEnded: bool): seq<Fields> {
    PassesUpTo(es, |es|, openEnded)
  }

  function CreateCornerPass(corner: EvidenceCorner, ordinal: nat, f: Fields): CornerPass {
    CornerPass(corner.id, corner.key, corner.order, ordinal,
               f.entry, f.exit, f.durationMs, f.eligible, f.exclusion, None, None, false)
  }

  /** Unranked passes, numbered from one. */
  function Numbered(corner: EvidenceCorner, fields: seq<Fields>): seq<CornerPass> {
    seq(|fields|, i requires 0 <= i < |fields| => CreateCornerPass(corner, i + 1, fields[i]))
  }

  lemma NumberedSnoc(corner: EvidenceCorner, fields: seq<Fields>, f: Fields)
    ensures Numbered(corner, fields + [f]) == Numbered(corner, fields) + [CreateCornerPass(corner, |fields| + 1, f)]
  {
  }

  lemma {:induction false} PassesGrow(es: seq<Event>, n: nat, m: nat, openEnded: bool)
    requires n <= m <= |es|
    ensures |PassesUpTo(es, n, openEnded)| <= |PassesUpTo(es, m, openEnded)|
    decreases m
  {
    if n < m {
      PassesGrow(es, n, m - 1, openEnded);
    }
  }

  // ----- the machine -----

  /** The event loop; it gives up when the shared budget of passes is spent. */
  method PairEventsIntoPasses(corner: EvidenceCorner, es: seq<Event>, openEnded: bool, budget: nat)
    returns (ok: bool, passes: seq<CornerPass>)
    requires budget <= MAX_CORNER_EVIDENCE_PASSES
    ensures ok <==> budget + |Passes(es, openEnded)| <= MAX_CORNER_EVIDENCE_PASSES
    ensures ok ==> passes == Numbered(corner, Passes(es, openEnded))
  {
    passes := [];
    var entry: Option<GateCrossing> := None;
    var afterGap := false;
    ghost var fields: seq<Fields> := [];
    for n := 0 to |es|
      invariant entry.Some? <==> n > 0 && es[n - 1].EntryEvent?
      invariant entry.Some? ==> entry.value == es[n - 1].crossing
      invariant afterGap == AfterGap(es, n)
      invariant fields == PassesUpTo(es, if entry.Some? then n - 1 else n, openEnded)
      invariant passes == Numbered(corner, fields)
      invariant budget + |passes| <= MAX_CORNER_EVIDENCE_PASSES
    {
      var pass: Option<Fields> := None;
      match es[n] {
        case GapEvent(_) =>
          if entry.Some? {
            pass := Some(Unpaired(entry, None, TrackingGap));
          }
          entry, afterGap := None, true;
        case EntryEvent(crossing) =>
          if entry.Some? {
            pass := Some(Unpaired(entry, None, GateOrder));
          }
          entry, afterGap := Some(crossing), false;
        case ExitEvent(crossing) =>
          if entry.None? {
            pass := Some(Unpaired(None, Some(crossing), if afterGap then TrackingGap else GateOrder));
          } else {
            pass := Some(Fields(entry, Some(crossing), Some(crossing.timestampMs - entry.value.timestampMs), true, None));
            entry := None;
          }
      }
      if pass.Some? {
        if budget + |passes| >= MAX_CORNER_EVIDENCE_PASSES {
          PassesGrow(es, if entry.Some? then n else n + 1, |es|, openEnded);
          return false, [];
        }
        NumberedSnoc(corner, fields, pass.value);
        passes := passes + [CreateCornerPass(corner, |passes| + 1, pass.value)];
        fields := fields + [pass.value];
      }
    }
    if entry.Some? {
      if budget + |passes| >= MAX_CORNER_EVIDENCE_PASSES {
        return false, [];
      }
      var pass := Unpaired(entry, None, if openEnded then TrackingGap else RaceWindow);
      NumberedSnoc(corner, fields, pass);
      passes := passes + [CreateCornerPass(corner, |passes| + 1, pass)];
    }
    return true, passes;
  }

  // ----- every crossing lands in exactly one pass -----

  function Crossings(es: seq<Event>): seq<GateCrossing> {
    if es == [] then []
    else if es[|es| - 1].GapEvent? then Crossings(es[..|es| - 1])
    else Crossings(es[..|es| - 1]) + [es[|es| - 1].crossing]
  }

  function Used(f: Fields): seq<GateCrossing> {
    (if f.entry.Some? then [f.entry.value] else []) + (if f.exit.Some? then [f.exit.value] else [])
  }

  function AllUsed(fields: seq<Fields>): seq<GateCrossing> {
    if fields == [] then [] else AllUsed(fields[..|fields| - 1]) + Used(fields[|fields| - 1])
  }

  lemma AllUsedSnoc(fields: seq<Fields>, f: Fields)
    ensures AllUsed(fields + [f]) == AllUsed(fields) + Used(f)
  {
    assert (fields + [f])[..|fields|] == fields;
  }

  predicate LooksAhead(es: seq<Event>, n: nat)
    requires n <= |es|
  {
    0 < n < |es| && es[n - 1].EntryEvent? && es[n].ExitEvent?
  }

  lemma {:induction false} UsedUpTo(es: seq<Event>, n: nat, openEnded: bool)
    requires n <= |es|
    ensures AllUsed(PassesUpTo(es, n, openEnded))
         == Crossings(es[..n]) + if LooksAhead(es, n) then [es[n].crossing] else []
  {
    if n > 0 {
      UsedUpTo(es, n - 1, openEnded);
      assert es[..n][..n - 1] == es[..n - 1];
      var pass := PassAt(es, n - 1, openEnded);
      if pass.Some? {
        AllUsedSnoc(PassesUpTo(es, n - 1, openEnded), pass.value);
      }
    }
  }

  /** The crossings used by the passes, in order, are the crossings of the events, in order. */
  lemma EveryCrossingOnce(es: seq<Event>, openEnded: bool)
    ensures AllUsed(Passes(es, openEnded)) == Crossings(es)
  {
    UsedUpTo(es, |es|, openEnded);
    assert es[..|es|] == es;
  }

  // ----- eligible passes -----

  /** An eligible pass is an entry directly followed by an exit. */
  lemma {:induction false} EligibleIsAdjacent(es: seq<Event>, n: nat, openEnded: bool, f: Fields) returns (i: nat)
    requires n <= |es| && f in PassesUpTo(es, n, openEnded) && f.eligible
    ensures i + 1 < |es| && es[i].EntryEvent? && es[i + 1].ExitEvent?
    ensures f.entry == Some(es[i].crossing) && f.exit == Some(es[i + 1].crossing)
    ensures f.durationMs == Some(Time(es[i + 1]) - Time(es[i]))
  {
    var pass := PassAt(es, n - 1, openEnded);
    if pass == Some(f) {
      i := n - 1;
    } else {
      i := EligibleIsAdjacent(es, n - 1, openEnded, f);
    }
  }

  ghost predicate OrderingOf(es: seq<Event>, raw: seq<Event>) {
    multiset(es) == multiset(raw) && Chronological(es)
  }

  lemma SameMember(es: seq<Event>, raw: seq<Event>, e: Event)
    requires multiset(es) == multiset(raw)
    ensures e in raw <==> e in es
  {
    assert e in raw <==> e in multiset(raw);
    assert e in es <==> e in multiset(es);
  }

  lemma GapEventIsThere(corner: EvidenceCorner, obs: seq<Observation>, gaps: seq<ClosedGap>, open: Option<int>, j: nat)
    requires Placed(obs, gaps, open) && j < |gaps|
    ensures GapEvent(gaps[j].startMs) in Events(corner, obs, gaps, |obs|)
  {
    OneEventPerGap(corner, obs, gaps, open);
    assert GapStarts(gaps)[j] == GapEvent(gaps[j].startMs);
    GapEventsMembers(Events(corner, obs, gaps, |obs|), GapEvent(gaps[j].startMs));
  }

  lemma GapBesidePass(corner: EvidenceCorner, obs: seq<Observation>, gaps: seq<ClosedGap>, open: Option<int>, es: seq<Event>, i: nat, j: nat)
    requires Placed(obs, gaps, open) && j < |gaps|
    requires OrderingOf(es, Events(corner, obs, gaps, |obs|))
    requires i + 1 < |es| && es[i].EntryEvent? && es[i + 1].ExitEvent?
    ensures Time(es[i + 1]) < gaps[j].startMs as real || gaps[j].endMs as real < Time(es[i])
  {
    assert gaps[j].startMs < gaps[j].endMs;
    hide Placed, Events, Chronological, ClearOfGaps;
    var raw := Events(corner, obs, gaps, |obs|);
    CrossingsAreClear(corner, obs, gaps, open, |obs|);
    SameMember(es, raw, es[i]);
    SameMember(es, raw, es[i + 1]);
    GapEventIsThere(corner, obs, gaps, open, j);
    SameMember(es, raw, GapEvent(gaps[j].startMs));
    var k: nat :| k < |es| && es[k] == GapEvent(gaps[j].startMs);
    ApartInTime(gaps, es, i, j, k);
  }

  lemma ApartInTime(gaps: seq<ClosedGap>, es: seq<Event>, i: nat, j: nat, k: nat)
    requires Chronological(es) && j < |gaps| && i + 1 < |es| && k < |es|
    requires es[i].EntryEvent? && es[i + 1].ExitEvent? && es[k] == GapEvent(gaps[j].startMs)
    requires ClearOfGaps(gaps, es[i]) && ClearOfGaps(gaps, es[i + 1]) && gaps[j].startMs < gaps[j].endMs
    ensures Time(es[i + 1]) < gaps[j].startMs as real || gaps[j].endMs as real < Time(es[i])
  {
    assert k < i || i + 1 < k;
    assert Time(es[k]) <= Time(es[i]) || Time(es[i + 1]) <= Time(es[k]);
  }

  /**
   Every eligible pass of a well-placed segment lasts a non-negative time, and
   every closed gap of the segment lies entirely before or after it.
   */
  lemma EligiblePassesAreSound(corner: EvidenceCorner, obs: seq<Observation>, gaps: seq<ClosedGap>, open: Option<int>, f: Fields)
    requires Placed(obs, gaps, open)
    requires f in Passes(ByTime(Events(corner, obs, gaps, |obs|)), open.Some?) && f.eligible
    ensures f.entry.Some? && f.exit.Some?
    ensures f.durationMs == Some(f.exit.value.timestampMs - f.entry.value.timestampMs) && f.durationMs.value >= 0.0
    ensures forall j :: 0 <= j < |gaps| ==>
              f.exit.value.timestampMs < gaps[j].startMs as real || gaps[j].endMs as real < f.entry.value.timestampMs
  {
    hide Placed, Events, ByTime;
    var raw := Events(corner, obs, gaps, |obs|);
    var es := ByTime(raw);
    ByTimeFacts(raw);
    var i := EligibleIsAdjacent(es, |es|, open.Some?, f);
    forall j | 0 <= j < |gaps|
      ensures Time(es[i + 1]) < gaps[j].startMs as real || gaps[j].endMs as real < Time(es[i])
    {
      GapBesidePass(corner, obs, gaps, open, es, i, j);
    }
  }

  lemma {:induction false} GapEventsMembers(es: seq<Event>, e: Event)
    requires e in GapEvents(es)
    ensures e in es
  {
    if e != es[|es| - 1] {
      GapEventsMembers(es[..|es| - 1], e);
    }
  }

  // ----- the whole measurement -----

  const MAX_CORNER_EVIDENCE_OPERATIONS := 10_000_000

  predicate WithinBudget(frameCount: nat, cornerCount: nat) {
    && frameCount <= MAX_CORNER_EVIDENCE_FRAMES
    && cornerCount >= 1
    && frameCount * cornerCount <= MAX_CORNER_EVIDENCE_OPERATIONS
  }

  function CornerFields(corner: EvidenceCorner, segment: Segment): seq<Fields> {
    Passes(ByTime(Events(corner, segment.observations, segment.gaps, |segment.observations|)), segment.openGapMs.Some?)
  }

  lemma {:induction false} PassesMeasured(es: seq<Event>, n: nat, openEnded: bool)
    requires n <= |es|
    ensures forall f :: f in PassesUpTo(es, n, openEnded) ==> f.eligible ==> f.durationMs.Some? && f.entry.Some?
  {
    if n > 0 {
      PassesMeasured(es, n - 1, openEnded);
    }
  }

  lemma NumberedMeasured(corner: EvidenceCorner, segment: Segment)
    ensures AllMeasured(Numbered(corner, CornerFields(corner, segment)))
  {
    var es := ByTime(Events(corner, segment.observations, segment.gaps, |segment.observations|));
    PassesMeasured(es, |es|, segment.openGapMs.Some?);
    forall i | 0 <= i < |CornerFields(corner, segment)|
      ensures Measured(Numbered(corner, CornerFields(corner, segment))[i])
    {
      assert CornerFields(corner, segment)[i] in CornerFields(corner, segment);
    }
  }

  /** The numbered, ranked passes of one corner. */
  ghost function CornerPasses(corner: EvidenceCorner, segment: Segment, tolerance: real): seq<CornerPass> {
    NumberedMeasured(corner, segment);
    RankedAll(Numbered(corner, CornerFields(corner, segment)), tolerance)
  }

  method MeasureCorner(corner: EvidenceCorner, segment: Segment, tolerance: real, budget: nat)
    returns (ok: bool, passes: seq<CornerPass>)
    requires Placed(segment.observations, segment.gaps, segment.openGapMs)
    requires tolerance >= 0.0 && budget <= MAX_CORNER_EVIDENCE_PASSES
    ensures ok <==> budget + |CornerPasses(corner, segment, tolerance)| <= MAX_CORNER_EVIDENCE_PASSES
    ensures ok ==> passes == CornerPasses(corner, segment, tolerance)
  {
    var events := CollectEvents(corner, segment.observations, segment.gaps, segment.openGapMs);
    ok, passes := PairEventsIntoPasses(corner, ByTime(events), segment.openGapMs.Some?, budget);
    if ok {
      NumberedMeasured(corner, segment);
      passes := RankCornerPasses(passes, tolerance);
    }
  }

  ghost function AllCornerPasses(corners: seq<EvidenceCorner>, segment: Segment, tolerance: real): seq<CornerPass> {
    if corners == [] then []
    else AllCornerPasses(corners[..|corners| - 1], segment, tolerance)
         + CornerPasses(corners[|corners| - 1], segment, tolerance)
  }

  lemma NoCorners(segment: Segment, tolerance: real)
    ensures AllCornerPasses([], segment, tolerance) == []
  {
  }

  lemma NextCorner(corners: seq<EvidenceCorner>, n: nat, segment: Segment, tolerance: real)
    requires n < |corners|
    ensures AllCornerPasses(corners[..n + 1], segment, tolerance)
         == AllCornerPasses(corners[..n], segment, tolerance) + CornerPasses(corners[n], segment, tolerance)
  {
    assert corners[..n + 1][..n] == corners[..n];
  }

  lemma {:induction false} PassesAccumulate(corners: seq<EvidenceCorner>, n: nat, segment: Segment, tolerance: real)
    requires n <= |corners|
    ensures |AllCornerPasses(corners[..n], segment, tolerance)| <= |AllCornerPasses(corners, segment, tolerance)|
    decreases |corners| - n
  {
    if n < |corners| {
      assert corners[..n + 1][..n] == corners[..n];
      PassesAccumulate(corners, n + 1, segment, tolerance);
    } else {
      assert corners[..n] == corners;
    }
  }

  /** The frame duration within which passes tie, when the frame rate is a usable one. */
  function TieTolerance(numerator: int, denominator: int): Option<real> {
    if numerator == 0 then None
    else
      var tolerance := (1000 * denominator) as real / numerator as real;
      if tolerance <= 0.0 then None else Some(tolerance)
  }

  /** Passes tie within the duration of one frame, which a rate has when it is positive. */
  lemma TieToleranceMeans(numerator: int, denominator: int)
    ensures TieTolerance(numerator, denominator).Some? <==> numerator * denominator > 0
    ensures TieTolerance(numerator, denominator).Some? ==>
              TieTolerance(numerator, denominator).value * numerator as real == 1000.0 * denominator as real
  {
    if numerator != 0 {
      var n, d := numerator as real, (1000 * denominator) as real;
      var tolerance := d / n;
      assert tolerance * n == d;
      if numerator > 0 {
        assert tolerance > 0.0 <==> d > 0.0;
        assert numerator * denominator > 0 <==> denominator > 0;
      } else {
        assert tolerance > 0.0 <==> d < 0.0;
        assert numerator * denominator > 0 <==> denominator < 0;
      }
    }
  }

  /**
   A segment is measured exactly when it is within budget, is an accepted
   tiling, has a usable frame rate, and all its corners together stay within
   the budget of passes; the result is every corner's passes in corner order.
   */
  method MeasureAcceptedSegment(input: Input, corners: seq<EvidenceCorner>, numerator: int, denominator: int)
    returns (passes: Option<seq<CornerPass>>)
    requires Increasing(input.frames)
    ensures passes.Some? <==>
              && |input.segment.observations| <= 100_000 && |corners| >= 1
              && |input.segment.observations| * |corners| <= 10_000_000
              && Accepted(input)
              && numerator * denominator > 0
              && |AllCornerPasses(corners, input.segment, TieTolerance(numerator, denominator).value)| <= 10_000
    ensures passes.Some? ==>
              passes.value == AllCornerPasses(corners, input.segment, TieTolerance(numerator, denominator).value)
  {
    TieToleranceMeans(numerator, denominator);
    if !WithinBudget(|input.segment.observations|, |corners|) {
      return None;
    }
    var accepted := AssertObservationContinuity(input);
    if !accepted {
      return None;
    }
    var tolerance := TieTolerance(numerator, denominator);
    if tolerance.None? {
      return None;
    }
    AcceptedIsPlaced(input);
    hide Accepted, Placed, CornerPasses, TieTolerance, WithinBudget, AllCornerPasses;
    NoCorners(input.segment, tolerance.value);
    assert corners[..0] == [];
    var all: seq<CornerPass> := [];
    for n := 0 to |corners|
      invariant all == AllCornerPasses(corners[..n], input.segment, tolerance.value)
      invariant |all| <= MAX_CORNER_EVIDENCE_PASSES
    {
      var ok, more := MeasureCorner(corners[n], input.segment, tolerance.value, |all|);
      NextCorner(corners, n, input.segment, tolerance.value);
      if !ok {
        PassesAccumulate(corners, n + 1, input.segment, tolerance.value);
        return None;
      }
      all := all + more;
    }
    assert corners[..|corners|] == corners;
    return Some(all);
  }

  lemma AcceptedIsPlaced(input: Input)
    requires Increasing(input.frames) && Accepted(input)
    ensures Placed(input.segment.observations, input.segment.gaps, input.segment.openGapMs)
  {
    var s: nat :| SeedAt(input, s) && AcceptedFrom(input.frames, s, input.segment);
    TilingMeetsContract(input.frames, s, input.segment.observations, input.segment.gaps, input.segment.openGapMs);
  }
}
