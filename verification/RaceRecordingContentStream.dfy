/** The content stream as its methods change it, and what holds between any two of its calls. */
module PlaybackStream {
  import opened Wrappers
  import opened ByteRange
  import opened ContentStream
  import opened ContentStreamRuns

  /** The stream keeps its invariant, whatever object storage may be honest about. */
  ghost predicate Kept(s: Stream, storage: Storage, etag: nat, range: Range) {
    forall object_: Bytes :: Inv(s, storage, etag, object_, range)
  }

  lemma KeptMeans(s: Stream, storage: Storage, etag: nat, range: Range)
    requires Kept(s, storage, etag, range)
    ensures Sound(s, range)
    ensures s.windows <= Windows(range.offset, range.length)
    ensures s.status.Closed? ==> |Concat(s.output)| == range.length
    ensures s.status.Errored? ==> !AllGood(storage, etag, range)
  {
    assert Inv(s, storage, etag, [], range);
    hide Windows, Concat, Honest, Carries, Good, AllGood;
  }

  lemma KeptWithin(s: Stream, storage: Storage, etag: nat, range: Range)
    requires Kept(s, storage, etag, range)
    ensures Within(s)
  {
    KeptMeans(s, storage, etag, range);
  }

  /** What was delivered so far is the object's bytes from the range's start. */
  lemma KeptDelivers(s: Stream, storage: Storage, etag: nat, range: Range, object_: Bytes)
    requires Kept(s, storage, etag, range) && Honest(storage, etag, object_, range)
    ensures range.offset <= s.offset <= |object_| && Concat(s.output) == object_[range.offset..s.offset]
  {
    hide Sound, Tracks, Concat, Honest;
    assert Inv(s, storage, etag, object_, range);
  }

  lemma StartedKept(storage: Storage, etag: nat, range: Range)
    requires range.length > 0 && storage(0).Content? && storage(0).etag == etag
    ensures Kept(Started(storage(0).body, range), storage, etag, range)
  {
    hide Inv;
    forall object_: Bytes ensures Inv(Started(storage(0).body, range), storage, etag, object_, range) {
      StartedInv(storage, etag, object_, range);
    }
  }

  lemma OpenKept(s: Stream, storage: Storage, etag: nat, range: Range, cancelArrives: bool)
    requires Kept(s, storage, etag, range)
    requires s.status.Open? && !s.cancelled && s.reader.None? && s.remaining > 0
    ensures Kept(OpenWindow(s, storage, etag, cancelArrives).stream, storage, etag, range)
    ensures s.windows + [Range(s.offset, MinNat(s.remaining, READ_WINDOW))] <= Windows(range.offset, range.length)
  {
    hide Inv, Windows;
    KeptMeans(s, storage, etag, range);
    NextWindow(s, range);
    forall object_: Bytes ensures Inv(OpenWindow(s, storage, etag, cancelArrives).stream, storage, etag, object_, range) {
      assert Inv(s, storage, etag, object_, range);
      OpenKeeps(s, storage, etag, object_, range, cancelArrives);
    }
  }

  lemma NextWindow(s: Stream, range: Range)
    requires Sound(s, range) && s.status.Open? && !s.cancelled && s.reader.None? && s.remaining > 0
    ensures s.windows + [Range(s.offset, MinNat(s.remaining, READ_WINDOW))] <= Windows(range.offset, range.length)
  {
    WindowsUnfold(s, range);
    hide Windows;
  }

  lemma ReadKept(s: Stream, storage: Storage, etag: nat, range: Range, cancelArrives: bool)
    requires Kept(s, storage, etag, range) && Within(s) && s.status.Open? && !s.cancelled && s.reader.Some?
    ensures Kept(ReadChunk(s, cancelArrives).stream, storage, etag, range)
  {
    hide Inv;
    forall object_: Bytes ensures Inv(ReadChunk(s, cancelArrives).stream, storage, etag, object_, range) {
      assert Inv(s, storage, etag, object_, range);
      ReadKeeps(s, storage, etag, object_, range, cancelArrives);
    }
  }

  lemma PullKept(s: Stream, storage: Storage, etag: nat, range: Range, cancelAt: nat)
    requires Kept(s, storage, etag, range) && Within(s)
    ensures Kept(Pull(s, storage, etag, cancelAt), storage, etag, range)
  {
    hide Inv, PullLoop;
    forall object_: Bytes ensures Inv(Pull(s, storage, etag, cancelAt), storage, etag, object_, range) {
      assert Inv(s, storage, etag, object_, range);
      if s.status.Open? {
        LoopKeeps(s, storage, etag, object_, range, cancelAt);
      }
    }
  }

  lemma CancelKept(s: Stream, storage: Storage, etag: nat, range: Range)
    requires Kept(s, storage, etag, range)
    ensures Kept(Cancelled(s, true), storage, etag, range)
  {
    hide Inv;
    forall object_: Bytes ensures Inv(Cancelled(s, true), storage, etag, object_, range) {
      assert Inv(s, storage, etag, object_, range);
      CancelKeeps(s, storage, etag, object_, range);
    }
  }

  class RaceRecordingContentStream {
    const storage: Storage
    const etag: nat
    ghost const range: Range
    var reader: Option<Body>
    var offset: nat
    var remaining: nat
    var windowRemaining: nat
    var cancelled: bool
    var status: Status
    var output: seq<Bytes>
    var windows: seq<Range>

    ghost function View(): Stream
      reads this
    {
      Stream(reader, offset, remaining, windowRemaining, cancelled, status, output, windows)
    }

    ghost predicate Valid()
      reads this
    {
      Kept(View(), storage, etag, range)
    }

    constructor (first: Body, etag: nat, range: Range, storage: Storage)
      requires range.length > 0 && storage(0) == Content(etag, first)
      ensures Valid() && View() == Started(first, range)
      ensures this.storage == storage && this.etag == etag && this.range == range
    {
      this.storage, this.etag, this.range := storage, etag, range;
      reader := Some(first);
      offset, remaining := range.offset, range.length;
      windowRemaining := MinNat(range.length, READ_WINDOW);
      cancelled, status, output := false, Open, [];
      windows := [Range(range.offset, MinNat(range.length, READ_WINDOW))];
      new;
      hide Kept;
      StartedKept(storage, etag, range);
    }

    method Fails()
      modifies this`status
      ensures View() == Fail(old(View()))
    {
      if !cancelled {
        status := Errored;
      }
    }

    /**
     The next storage read is the range's next window.  Its content is read on only if it is the same
     object's and nobody cancelled; otherwise the stream ends, in an error unless it was cancelled.
     */
    method OpenReader(cancelArrives: bool) returns (ok: bool)
      requires Valid() && status.Open? && !cancelled && reader.None? && remaining > 0
      modifies this
      ensures Valid()
      ensures (if ok then Go(View()) else Stop(View())) == OpenWindow(old(View()), storage, etag, cancelArrives)
      ensures |windows| == old(|windows|) + 1 && old(windows) <= windows <= Windows(range.offset, range.length)
      ensures ok <==> !cancelArrives && storage(old(|windows|)).Content? && storage(old(|windows|)).etag == etag
      ensures ok ==> status.Open? && reader == Some(storage(old(|windows|)).body)
      ensures !ok ==> cancelled == cancelArrives && (status.Errored? <==> !cancelArrives)
      ensures offset == old(offset) && remaining == old(remaining) && output == old(output) && Within(View())
    {
      hide Kept, Windows;
      OpenKept(View(), storage, etag, range, cancelArrives);
      windowRemaining := MinNat(remaining, READ_WINDOW);
      var content := storage(|windows|);
      windows := windows + [Range(offset, windowRemaining)];
      cancelled := cancelArrives;
      if content.ReadThrows? {
        Fails();
        return false;
      }
      if cancelled {
        return false;
      }
      if content.etag != etag {
        Fails();
        return false;
      }
      reader := Some(content.body);
      return true;
    }

    /** A chunk that fits is delivered, and the end of a complete window goes on to the next one. */
    method ReadOnce(cancelArrives: bool) returns (stops: bool)
      requires Valid() && Within(View()) && status.Open? && !cancelled && reader.Some?
      modifies this
      ensures Valid() && Within(View())
      ensures (if stops then Stop(View()) else Go(View())) == ReadChunk(old(View()), cancelArrives)
      ensures !stops ==> !cancelArrives && status.Open? && reader.None? && windowRemaining == 0
    {
      hide Kept;
      ReadKept(View(), storage, etag, range, cancelArrives);
      var body := reader.value;
      cancelled := cancelArrives;
      if body.chunks == [] && body.fails {
        Fails();
        return true;
      }
      if cancelled {
        return true;
      }
      if body.chunks == [] {
        reader := None;
        if windowRemaining != 0 {
          Fails();
          return true;
        }
        return false;
      }
      var chunk := body.chunks[0];
      if |chunk| > windowRemaining {
        Fails();
        return true;
      }
      reader := Some(body.(chunks := body.chunks[1..]));
      windowRemaining := windowRemaining - |chunk|;
      remaining := remaining - |chunk|;
      offset := offset + |chunk|;
      output := output + [chunk];
      return true;
    }

    method PullOnce(cancelAt: nat)
      requires Valid() && status.Open?
      modifies this
      ensures Valid()
      ensures old(Within(View())) && View() == Pull(old(View()), storage, etag, cancelAt)
    {
      hide Kept, Windows, Sound, ReadChunk;
      KeptWithin(View(), storage, etag, range);
      PullKept(View(), storage, etag, range, cancelAt);
      var waits := 0;
      ghost var pulled := Pull(View(), storage, etag, cancelAt);
      while !cancelled
        invariant Valid() && Within(View()) && status.Open? && waits <= cancelAt
        invariant PullLoop(View(), storage, etag, cancelAt - waits) == pulled
        decreases if reader.Some? then 1 else 0
      {
        if reader.None? {
          if remaining == 0 {
            status := Closed;
            return;
          }
          var ok := OpenReader(waits == cancelAt);
          waits := waits + 1;
          if !ok {
            return;
          }
        }
        var stops := ReadOnce(waits == cancelAt);
        waits := waits + 1;
        if stops {
          return;
        }
      }
    }

    method Cancel()
      requires Valid()
      modifies this`cancelled
      ensures Valid() && View() == Cancelled(old(View()), true)
    {
      hide Kept;
      CancelKept(View(), storage, etag, range);
      cancelled := true;
    }
  }
}
