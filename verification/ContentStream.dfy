/** A requested range delivered from bounded storage reads, one pull at a time. */
module ContentStream {
  import opened Wrappers
  import opened ByteRange

  const READ_WINDOW := 8 * 1024 * 1024

  type Bytes = seq<bv8>

  /** What a body still has to give: chunks, and then an end or a failure. */
  datatype Body = Body(chunks: seq<Bytes>, fails: bool)

  datatype Answer = Content(etag: nat, body: Body) | ReadThrows

  datatype Status = Open | Closed | Errored

  /** `windows` are the storage reads requested so far, the caller's first one included. */
  datatype Stream = Stream(
    reader: Option<Body>,
    offset: nat,
    remaining: nat,
    windowRemaining: nat,
    cancelled: bool,
    status: Status,
    output: seq<Bytes>,
    windows: seq<Range>)

  /** Storage's answer to each read, in order; the first was read before the stream began. */
  type Storage = nat -> Answer

  function MinNat(a: nat, b: nat): nat {
    if a < b then a else b
  }

  predicate Within(s: Stream) {
    s.windowRemaining <= s.remaining
  }

  function Started(first: Body, range: Range): Stream {
    var window := MinNat(range.length, READ_WINDOW);
    Stream(Some(first), range.offset, range.length, window, false, Open, [], [Range(range.offset, window)])
  }

  // ----- one pull, as a function -----

  /** A failure inside a pull: the stream errors unless the consumer cancelled it. */
  function Fail(s: Stream): Stream {
    if s.cancelled then s else s.(status := Errored)
  }

  function Cancelled(s: Stream, arrives: bool): Stream {
    s.(cancelled := s.cancelled || arrives)
  }

  datatype Turn = Stop(stream: Stream) | Go(stream: Stream)

  /** Request the next window and take its reader. */
  function OpenWindow(s: Stream, storage: Storage, etag: nat, cancelArrives: bool): Turn {
    var window := MinNat(s.remaining, READ_WINDOW);
    var answer := storage(|s.windows|);
    var asked := Cancelled(s.(windowRemaining := window, windows := s.windows + [Range(s.offset, window)]), cancelArrives);
    match answer
    case ReadThrows => Stop(Fail(asked))
    case Content(tag, body) =>
      if asked.cancelled then Stop(asked)
      else if tag != etag then Stop(Fail(asked))
      else Go(asked.(reader := Some(body)))
  }

  /** Read once: a chunk is delivered and ends the pull, an end of a complete window goes on. */
  function ReadChunk(s: Stream, cancelArrives: bool): (t: Turn)
    requires s.reader.Some? && Within(s)
    ensures t.Go? ==> s.windowRemaining == 0 && t.stream.reader.None? && Within(t.stream)
  {
    var body := s.reader.value;
    var waited := Cancelled(s, cancelArrives);
    if body.chunks == [] && body.fails then Stop(Fail(waited))
    else if waited.cancelled then Stop(waited)
    else if body.chunks == [] then
      var released := waited.(reader := None);
      if s.windowRemaining != 0 then Stop(Fail(released)) else Go(released)
    else
      var chunk := body.chunks[0];
      if |chunk| > s.windowRemaining then Stop(Fail(waited))
      else
        Stop(waited.(reader := Some(body.(chunks := body.chunks[1..])),
                     windowRemaining := s.windowRemaining - |chunk|,
                     remaining := s.remaining - |chunk|,
                     offset := s.offset + |chunk|,
                     output := s.output + [chunk]))
  }

  /** `cancelAt` is the wait of this pull, from 0, during which a cancellation arrives. */
  function PullLoop(s: Stream, storage: Storage, etag: nat, cancelAt: nat): Stream
    requires Within(s)
    decreases if s.reader.Some? then 1 else 0
  {
    if s.cancelled then s
    else if s.reader.None? && s.remaining == 0 then s.(status := Closed)
    else if s.reader.None? then
      var turn := OpenWindow(s, storage, etag, cancelAt == 0);
      if turn.Stop? then turn.stream
      else ReadChunk(turn.stream, cancelAt == 1).stream
    else
      var read := ReadChunk(s, cancelAt == 0);
      if read.Stop? then read.stream
      else PullLoop(read.stream, storage, etag, if cancelAt == 0 then 0 else cancelAt - 1)
  }

  /** A stream that is over is not pulled again. */
  function Pull(s: Stream, storage: Storage, etag: nat, cancelAt: nat): Stream
    requires Within(s)
  {
    if s.status.Open? then PullLoop(s, storage, etag, cancelAt) else s
  }
}
