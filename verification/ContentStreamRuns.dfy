/** What a windowed stream delivers, requests and ends with, for any chunking and any cancellation. */
module ContentStreamRuns {
  import opened Wrappers
  import opened ByteRange
  import opened ContentStream

  function Concat(chunks: seq<Bytes>): Bytes {
    if chunks == [] then [] else Concat(chunks[..|chunks| - 1]) + chunks[|chunks| - 1]
  }

  lemma {:induction false} ConcatFirst(chunks: seq<Bytes>)
    requires chunks != []
    ensures Concat(chunks) == chunks[0] + Concat(chunks[1..])
  {
    var front := chunks[..|chunks| - 1];
    if front != [] {
      ConcatFirst(front);
      assert chunks[1..][..|chunks[1..]| - 1] == front[1..];
    }
  }

  lemma ConcatAppend(chunks: seq<Bytes>, chunk: Bytes)
    ensures Concat(chunks + [chunk]) == Concat(chunks) + chunk
  {
    assert (chunks + [chunk])[..|chunks|] == chunks;
  }

  /** A range cut into consecutive windows of at most the read size. */
  function Windows(offset: nat, length: nat): (w: seq<Range>)
    ensures length > 0 ==> w != [] && w[0] == Range(offset, MinNat(length, READ_WINDOW))
    decreases length
  {
    if length == 0 then []
    else
      var window := MinNat(length, READ_WINDOW);
      [Range(offset, window)] + Windows(offset + window, length - window)
  }

  /** Some window of these has the byte at this position. */
  predicate InSome(windows: seq<Range>, position: int) {
    exists k :: 0 <= k < |windows| && Covers(windows[k], position)
  }

  lemma InSomeOfMore(first: Range, rest: seq<Range>, position: int)
    ensures InSome([first] + rest, position) <==> Covers(first, position) || InSome(rest, position)
  {
    var all := [first] + rest;
    if Covers(first, position) {
      assert Covers(all[0], position);
    }
    if InSome(rest, position) {
      var k :| 0 <= k < |rest| && Covers(rest[k], position);
      assert Covers(all[k + 1], position);
    }
  }

  /** The windows are contiguous, non-empty, at most 8 MiB, and cover the range exactly. */
  lemma {:induction false} WindowsTile(offset: nat, length: nat, position: int)
    ensures forall k :: 0 <= k < |Windows(offset, length)| ==> 1 <= Windows(offset, length)[k].length <= 8_388_608
    ensures forall k :: 0 <= k < |Windows(offset, length)| - 1 ==>
              Windows(offset, length)[k].offset + Windows(offset, length)[k].length == Windows(offset, length)[k + 1].offset
    ensures InSome(Windows(offset, length), position) <==> offset <= position < offset + length
    decreases length
  {
    if length > 0 {
      var window := MinNat(length, READ_WINDOW);
      var rest := Windows(offset + window, length - window);
      WindowsTile(offset + window, length - window, position);
      assert Windows(offset, length) == [Range(offset, window)] + rest;
      InSomeOfMore(Range(offset, window), rest, position);
    }
  }

  // ----- the invariant -----

  /** Offsets, counts and requested windows agree with each other. */
  predicate Sound(s: Stream, range: Range) {
    && Within(s)
    && s.windows != []
    && s.offset + s.remaining == range.offset + range.length
    && |Concat(s.output)| == s.offset - range.offset
    && s.windows + Windows(s.offset + s.windowRemaining, s.remaining - s.windowRemaining)
       == Windows(range.offset, range.length)
    && (s.status.Open? && !s.cancelled && s.reader.None? ==> s.windowRemaining == 0)
    && (s.status.Closed? ==> s.remaining == 0 && s.reader.None?)
  }

  /** Storage answers with bytes of the object, as many as it likes, wherever the etag is the object's. */
  predicate Honest(storage: Storage, etag: nat, object_: Bytes, range: Range) {
    forall k :: 0 <= k < |Windows(range.offset, range.length)|
                && storage(k).Content? && storage(k).etag == etag ==>
      && Windows(range.offset, range.length)[k].offset <= |object_|
      && Concat(storage(k).body.chunks) <= object_[Windows(range.offset, range.length)[k].offset..]
  }

  predicate Carries(s: Stream, object_: Bytes, range: Range) {
    && range.offset <= s.offset <= |object_|
    && Concat(s.output) == object_[range.offset..s.offset]
    && (s.reader.Some? ==> Concat(s.reader.value.chunks) <= object_[s.offset..])
  }

  /** One answer is for the same object, does not fail, and has exactly the window's bytes. */
  predicate Good(storage: Storage, etag: nat, range: Range, k: nat)
    requires k < |Windows(range.offset, range.length)|
  {
    && storage(k).Content? && storage(k).etag == etag && !storage(k).body.fails
    && |Concat(storage(k).body.chunks)| == Windows(range.offset, range.length)[k].length
  }

  predicate AllGood(storage: Storage, etag: nat, range: Range) {
    forall k :: 0 <= k < |Windows(range.offset, range.length)| ==> Good(storage, etag, range, k)
  }

  /** Finished windows were good; the current one is good so far; an error has a reason. */
  predicate Tracks(s: Stream, storage: Storage, etag: nat, range: Range)
    requires s.windows != [] && |s.windows| <= |Windows(range.offset, range.length)|
  {
    var current := |s.windows| - 1;
    && (s.status.Errored? ==> !AllGood(storage, etag, range))
    && (!s.status.Errored? && !s.cancelled ==>
         && (forall k :: 0 <= k < current ==> Good(storage, etag, range, k))
         && (s.reader.None? ==> Good(storage, etag, range, current))
         && (s.reader.Some? ==>
              && storage(current).Content? && storage(current).etag == etag
              && s.reader.value.fails == storage(current).body.fails
              && |Concat(s.reader.value.chunks)| + Windows(range.offset, range.length)[current].length
                 == |Concat(storage(current).body.chunks)| + s.windowRemaining))
  }

  predicate Inv(s: Stream, storage: Storage, etag: nat, object_: Bytes, range: Range) {
    && Sound(s, range)
    && |s.windows| <= |Windows(range.offset, range.length)|
    && Tracks(s, storage, etag, range)
    && (Honest(storage, etag, object_, range) ==> Carries(s, object_, range))
  }

  // ----- reading -----

  lemma ReadIsSound(s: Stream, range: Range, cancelArrives: bool)
    requires Sound(s, range) && s.status.Open? && !s.cancelled && s.reader.Some?
    ensures Sound(ReadChunk(s, cancelArrives).stream, range)
  {
    hide Windows, Concat;
    var t := ReadChunk(s, cancelArrives).stream;
    if s.reader.value.chunks != [] {
      ConcatAppend(s.output, s.reader.value.chunks[0]);
    }
    assert t.windows == s.windows && t.offset + t.windowRemaining == s.offset + s.windowRemaining;
    assert t.remaining - t.windowRemaining == s.remaining - s.windowRemaining;
  }

  lemma ReadCarries(s: Stream, object_: Bytes, range: Range, cancelArrives: bool)
    requires Within(s) && s.reader.Some? && Carries(s, object_, range)
    ensures Carries(ReadChunk(s, cancelArrives).stream, object_, range)
  {
    var body := s.reader.value;
    if body.chunks != [] {
      ConcatFirst(body.chunks);
      ConcatAppend(s.output, body.chunks[0]);
    }
    hide Concat;
  }

  lemma ReadKeeps(s: Stream, storage: Storage, etag: nat, object_: Bytes, range: Range, cancelArrives: bool)
    requires Inv(s, storage, etag, object_, range) && s.status.Open? && !s.cancelled && s.reader.Some?
    ensures Inv(ReadChunk(s, cancelArrives).stream, storage, etag, object_, range)
  {
    ReadTracks(s, storage, etag, range, cancelArrives);
    ReadIsSound(s, range, cancelArrives);
    if Carries(s, object_, range) {
      ReadCarries(s, object_, range, cancelArrives);
    }
    hide Tracks, Honest, Windows, Carries, Sound;
    assert ReadChunk(s, cancelArrives).stream.windows == s.windows;
  }

  lemma ReadTracks(s: Stream, storage: Storage, etag: nat, range: Range, cancelArrives: bool)
    requires Sound(s, range) && |s.windows| <= |Windows(range.offset, range.length)|
    requires Tracks(s, storage, etag, range) && s.status.Open? && !s.cancelled && s.reader.Some?
    ensures Tracks(ReadChunk(s, cancelArrives).stream, storage, etag, range)
  {
    hide Honest, Windows;
    var body := s.reader.value;
    var current := |s.windows| - 1;
    if body.chunks != [] {
      ConcatFirst(body.chunks);
    }
    if ReadChunk(s, cancelArrives).stream.status.Errored? {
      assert !Good(storage, etag, range, current);
    }
  }

  // ----- opening a window -----

  lemma WindowsUnfold(s: Stream, range: Range)
    requires Sound(s, range) && s.status.Open? && !s.cancelled && s.reader.None? && s.remaining > 0
    ensures |s.windows| < |Windows(range.offset, range.length)|
    ensures Windows(range.offset, range.length)[|s.windows|] == Range(s.offset, MinNat(s.remaining, READ_WINDOW))
    ensures var window := MinNat(s.remaining, READ_WINDOW);
            s.windows + [Range(s.offset, window)] + Windows(s.offset + window, s.remaining - window)
            == Windows(range.offset, range.length)
  {
    var window := MinNat(s.remaining, READ_WINDOW);
    var rest := Windows(s.offset, s.remaining);
    assert rest == [Range(s.offset, window)] + Windows(s.offset + window, s.remaining - window);
    assert s.windows + rest == Windows(range.offset, range.length);
    assert (s.windows + rest)[|s.windows|] == rest[0];
  }

  lemma OpenKeeps(s: Stream, storage: Storage, etag: nat, object_: Bytes, range: Range, cancelArrives: bool)
    requires Inv(s, storage, etag, object_, range)
    requires s.status.Open? && !s.cancelled && s.reader.None? && s.remaining > 0
    ensures Inv(OpenWindow(s, storage, etag, cancelArrives).stream, storage, etag, object_, range)
  {
    hide Windows, Concat, Tracks, Good, Sound, Honest, Carries;
    WindowsUnfold(s, range);
    OpenTracks(s, storage, etag, range, cancelArrives);
    OpenIsSound(s, storage, etag, range, cancelArrives);
    if Honest(storage, etag, object_, range) {
      OpenCarries(s, storage, etag, object_, range, cancelArrives);
    }
  }

  lemma OpenIsSound(s: Stream, storage: Storage, etag: nat, range: Range, cancelArrives: bool)
    requires Sound(s, range) && s.status.Open? && !s.cancelled && s.reader.None? && s.remaining > 0
    ensures Sound(OpenWindow(s, storage, etag, cancelArrives).stream, range)
    ensures |OpenWindow(s, storage, etag, cancelArrives).stream.windows| == |s.windows| + 1
  {
    WindowsUnfold(s, range);
    hide Windows, Concat;
  }

  lemma OpenCarries(s: Stream, storage: Storage, etag: nat, object_: Bytes, range: Range, cancelArrives: bool)
    requires Sound(s, range) && Honest(storage, etag, object_, range) && Carries(s, object_, range)
    requires s.status.Open? && !s.cancelled && s.reader.None? && s.remaining > 0
    ensures Carries(OpenWindow(s, storage, etag, cancelArrives).stream, object_, range)
  {
    WindowsUnfold(s, range);
    hide Windows, Concat, Sound;
  }

  lemma OpenTracks(s: Stream, storage: Storage, etag: nat, range: Range, cancelArrives: bool)
    requires Sound(s, range) && |s.windows| < |Windows(range.offset, range.length)|
    requires Windows(range.offset, range.length)[|s.windows|] == Range(s.offset, MinNat(s.remaining, READ_WINDOW))
    requires Tracks(s, storage, etag, range)
    requires s.status.Open? && !s.cancelled && s.reader.None? && s.remaining > 0
    ensures Tracks(OpenWindow(s, storage, etag, cancelArrives).stream, storage, etag, range)
  {
    hide Windows, Concat;
    var t := OpenWindow(s, storage, etag, cancelArrives).stream;
    assert t.status.Errored? ==> !Good(storage, etag, range, |s.windows|);
  }

  // ----- pulling -----

  lemma {:induction false} LoopKeeps(s: Stream, storage: Storage, etag: nat, object_: Bytes, range: Range, cancelAt: nat)
    requires Inv(s, storage, etag, object_, range) && s.status.Open?
    ensures Inv(PullLoop(s, storage, etag, cancelAt), storage, etag, object_, range)
    decreases if s.reader.Some? then 1 else 0
  {
    hide Tracks, Honest, Windows, Carries, Concat;
    if s.cancelled {
    } else if s.reader.None? && s.remaining == 0 {
      CloseKeeps(s, storage, etag, object_, range);
    } else if s.reader.None? {
      OpenKeeps(s, storage, etag, object_, range, cancelAt == 0);
      var turn := OpenWindow(s, storage, etag, cancelAt == 0);
      if turn.Go? {
        ReadKeeps(turn.stream, storage, etag, object_, range, cancelAt == 1);
      }
    } else {
      ReadKeeps(s, storage, etag, object_, range, cancelAt == 0);
      var read := ReadChunk(s, cancelAt == 0);
      if read.Go? {
        LoopKeeps(read.stream, storage, etag, object_, range, if cancelAt == 0 then 0 else cancelAt - 1);
      }
    }
  }

  lemma CloseKeeps(s: Stream, storage: Storage, etag: nat, object_: Bytes, range: Range)
    requires Inv(s, storage, etag, object_, range) && s.status.Open? && !s.cancelled
    requires s.reader.None? && s.remaining == 0
    ensures Inv(s.(status := Closed), storage, etag, object_, range)
  {
    hide Honest, Windows, Concat, Good, AllGood;
  }

  datatype Event = Pulled(cancelAt: nat) | CancelCalled

  function Take(s: Stream, storage: Storage, etag: nat, event: Event): Stream
    requires Within(s)
  {
    match event
    case Pulled(cancelAt) => Pull(s, storage, etag, cancelAt)
    case CancelCalled => Cancelled(s, true)
  }

  lemma {:induction false} LoopStaysWithin(s: Stream, storage: Storage, etag: nat, cancelAt: nat)
    requires Within(s)
    ensures Within(PullLoop(s, storage, etag, cancelAt))
    decreases if s.reader.Some? then 1 else 0
  {
    if !s.cancelled && s.reader.Some? {
      var read := ReadChunk(s, cancelAt == 0);
      if read.Go? {
        LoopStaysWithin(read.stream, storage, etag, if cancelAt == 0 then 0 else cancelAt - 1);
      }
    }
  }

  function Run(s: Stream, storage: Storage, etag: nat, events: seq<Event>): Stream
    requires Within(s)
    decreases events
  {
    if events == [] then s
    else
      LoopStaysWithin(s, storage, etag, if events[0].Pulled? then events[0].cancelAt else 0);
      Run(Take(s, storage, etag, events[0]), storage, etag, events[1..])
  }

  lemma {:induction false} RunKeeps(
      s: Stream, storage: Storage, etag: nat, object_: Bytes, range: Range, events: seq<Event>)
    requires Within(s) && Inv(s, storage, etag, object_, range)
    ensures Inv(Run(s, storage, etag, events), storage, etag, object_, range)
    decreases events
  {
    hide Tracks, Honest, Windows, Carries, Concat, PullLoop;
    if events != [] {
      if events[0].Pulled? && s.status.Open? {
        LoopKeeps(s, storage, etag, object_, range, events[0].cancelAt);
      }
      if events[0].CancelCalled? {
        CancelKeeps(s, storage, etag, object_, range);
      }
      LoopStaysWithin(s, storage, etag, if events[0].Pulled? then events[0].cancelAt else 0);
      RunKeeps(Take(s, storage, etag, events[0]), storage, etag, object_, range, events[1..]);
    }
  }

  lemma CancelKeeps(s: Stream, storage: Storage, etag: nat, object_: Bytes, range: Range)
    requires Inv(s, storage, etag, object_, range)
    ensures Inv(Cancelled(s, true), storage, etag, object_, range)
  {
    hide Honest, Windows, Concat, Good, AllGood;
  }

  lemma StartedInv(storage: Storage, etag: nat, object_: Bytes, range: Range)
    requires range.length > 0 && storage(0).Content? && storage(0).etag == etag
    ensures Inv(Started(storage(0).body, range), storage, etag, object_, range)
  {
    var s := Started(storage(0).body, range);
    var window := MinNat(range.length, READ_WINDOW);
    var all := Windows(range.offset, range.length);
    assert all == [Range(range.offset, window)] + Windows(range.offset + window, range.length - window);
    assert Concat([]) == [];
    hide Windows, Concat;
  }

  // ----- what the stream promises -----

  /** From a first content of the object, whatever is pulled and whenever it is cancelled. */
  function Streamed(storage: Storage, etag: nat, range: Range, events: seq<Event>): Stream
    requires storage(0).Content?
  {
    Run(Started(storage(0).body, range), storage, etag, events)
  }

  /** What was delivered is always the object's bytes from the range's start; a closed stream delivered all of them. */
  lemma DeliversTheRange(storage: Storage, etag: nat, object_: Bytes, range: Range, events: seq<Event>)
    requires range.length > 0 && storage(0).Content? && storage(0).etag == etag
    requires Honest(storage, etag, object_, range)
    ensures var s := Streamed(storage, etag, range, events);
            && range.offset <= s.offset <= |object_|
            && Concat(s.output) == object_[range.offset..s.offset]
            && (s.status.Closed? ==>
                 range.offset + range.length <= |object_|
                 && Concat(s.output) == object_[range.offset..range.offset + range.length])
  {
    StartedInv(storage, etag, object_, range);
    RunKeeps(Started(storage(0).body, range), storage, etag, object_, range, events);
    hide Concat, Windows, Tracks;
  }

  /** Whatever storage answers, a closed stream delivered exactly as many bytes as were requested. */
  lemma ClosedIsComplete(storage: Storage, etag: nat, range: Range, events: seq<Event>)
    requires range.length > 0 && storage(0).Content? && storage(0).etag == etag
    ensures var s := Streamed(storage, etag, range, events);
            s.status.Closed? ==> |Concat(s.output)| == range.length
  {
    StartedInv(storage, etag, [], range);
    RunKeeps(Started(storage(0).body, range), storage, etag, [], range, events);
    hide Concat, Windows, Tracks;
  }

  /** The storage reads are the range's windows in order: a prefix of them always, all of them when closed. */
  lemma WindowsInOrder(storage: Storage, etag: nat, range: Range, events: seq<Event>)
    requires range.length > 0 && storage(0).Content? && storage(0).etag == etag
    ensures var s := Streamed(storage, etag, range, events);
            && s.windows <= Windows(range.offset, range.length)
            && (s.status.Closed? ==> s.windows == Windows(range.offset, range.length))
  {
    StartedInv(storage, etag, [], range);
    RunKeeps(Started(storage(0).body, range), storage, etag, [], range, events);
    var s := Streamed(storage, etag, range, events);
    assert Windows(s.offset, 0) == [];
    hide Concat, Tracks;
  }

  /** A stream closes only when every window was answered whole; it errors only when some window was not. */
  lemma EndsForAReason(storage: Storage, etag: nat, range: Range, events: seq<Event>)
    requires range.length > 0 && storage(0).Content? && storage(0).etag == etag
    ensures var s := Streamed(storage, etag, range, events);
            && (s.status.Closed? && !s.cancelled ==> AllGood(storage, etag, range))
            && (s.status.Errored? ==> !AllGood(storage, etag, range))
  {
    StartedInv(storage, etag, [], range);
    RunKeeps(Started(storage(0).body, range), storage, etag, [], range, events);
    WindowsInOrder(storage, etag, range, events);
    hide Concat, Windows, Good, Honest, Carries, Streamed;
  }

  // ----- every stream that is pulled on ends -----

  /** The chunks that answers `k` up to `n` hold. */
  function ChunksFrom(storage: Storage, k: nat, n: nat): nat
    decreases n - k
  {
    if k >= n then 0
    else (if storage(k).Content? then |storage(k).body.chunks| else 0) + ChunksFrom(storage, k + 1, n)
  }

  /** The chunks still to be delivered if nothing goes wrong. */
  function Left(s: Stream, storage: Storage, n: nat): nat {
    (if s.reader.Some? then |s.reader.value.chunks| else 0) + ChunksFrom(storage, |s.windows|, n)
  }

  const NEVER := 3

  /** A pull without cancellation ends the stream or delivers one chunk. */
  lemma {:induction false} PullDeliversOrEnds(
      s: Stream, storage: Storage, etag: nat, object_: Bytes, range: Range, cancelAt: nat)
    requires Inv(s, storage, etag, object_, range) && s.status.Open? && !s.cancelled
    requires cancelAt >= if s.reader.Some? then NEVER else 2
    ensures var t := PullLoop(s, storage, etag, cancelAt);
            var n := |Windows(range.offset, range.length)|;
            !t.cancelled && (t.status.Open? ==> Left(s, storage, n) == Left(t, storage, n) + 1)
    decreases if s.reader.Some? then 1 else 0
  {
    hide Tracks, Honest, Windows, Carries, Concat;
    var n := |Windows(range.offset, range.length)|;
    if s.reader.None? && s.remaining > 0 {
      WindowsUnfold(s, range);
      var turn := OpenWindow(s, storage, etag, false);
      if turn.Go? {
        assert ChunksFrom(storage, |s.windows|, n) ==
               |storage(|s.windows|).body.chunks| + ChunksFrom(storage, |s.windows| + 1, n);
      }
    } else if s.reader.Some? {
      ReadKeeps(s, storage, etag, object_, range, false);
      var read := ReadChunk(s, false);
      if read.Go? {
        PullDeliversOrEnds(read.stream, storage, etag, object_, range, cancelAt - 1);
      }
    }
  }

  function Pulls(n: nat): seq<Event> {
    seq(n, _ => Pulled(NEVER))
  }

  lemma {:induction false} PulledOnEnds(
      s: Stream, storage: Storage, etag: nat, object_: Bytes, range: Range, pulls: nat)
    requires Within(s) && Inv(s, storage, etag, object_, range) && !s.cancelled
    requires pulls > Left(s, storage, |Windows(range.offset, range.length)|)
    ensures var t := Run(s, storage, etag, Pulls(pulls)); !t.status.Open? && !t.cancelled
    decreases pulls
  {
    hide Inv, Windows, PullLoop, Left;
    assert Pulls(pulls)[1..] == Pulls(pulls - 1);
    LoopStaysWithin(s, storage, etag, NEVER);
    if s.status.Open? {
      LoopKeeps(s, storage, etag, object_, range, NEVER);
      PullDeliversOrEnds(s, storage, etag, object_, range, NEVER);
      var t := PullLoop(s, storage, etag, NEVER);
      if t.status.Open? {
        PulledOnEnds(t, storage, etag, object_, range, pulls - 1);
      } else {
        EndedStays(t, storage, etag, pulls - 1);
      }
    } else {
      EndedStays(s, storage, etag, pulls - 1);
    }
  }

  lemma {:induction false} EndedStays(s: Stream, storage: Storage, etag: nat, pulls: nat)
    requires Within(s) && !s.status.Open?
    ensures Run(s, storage, etag, Pulls(pulls)) == s
    decreases pulls
  {
    if pulls > 0 {
      assert Pulls(pulls)[1..] == Pulls(pulls - 1);
      EndedStays(s, storage, etag, pulls - 1);
    }
  }

  /**
   Pulled on without cancellation, a stream ends within one pull more than there are chunks: it
   closes exactly when every window was answered for the same object with exactly its bytes, and
   a short, long, failing or changed answer ends it in an error.
   */
  lemma ClosesExactlyWhenAllGood(storage: Storage, etag: nat, range: Range, pulls: nat)
    requires range.length > 0 && storage(0).Content? && storage(0).etag == etag
    requires pulls > ChunksFrom(storage, 0, |Windows(range.offset, range.length)|)
    ensures var s := Streamed(storage, etag, range, Pulls(pulls));
            && (s.status.Closed? <==> AllGood(storage, etag, range))
            && (s.status.Errored? <==> !AllGood(storage, etag, range))
  {
    var start := Started(storage(0).body, range);
    StartedInv(storage, etag, [], range);
    var n := |Windows(range.offset, range.length)|;
    assert ChunksFrom(storage, 0, n) == |storage(0).body.chunks| + ChunksFrom(storage, 1, n);
    hide Inv, Windows, Good, PullLoop, AllGood;
    PulledOnEnds(start, storage, etag, [], range, pulls);
    EndsForAReason(storage, etag, range, Pulls(pulls));
  }
}
