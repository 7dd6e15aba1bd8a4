/** How a playback request is answered: refused, from one storage read, or from bounded windows. */
module RecordingPlayback {
  import opened Wrappers
  import opened ByteRange
  import opened ContentStream
  import opened ContentStreamRuns

  /** `precondition` is the status that the conditional headers call for, and `current` whether If-Range holds. */
  datatype Request = Request(precondition: Option<nat>, range: Option<string>, current: bool, head: bool)

  datatype Response =
    | Refused(status: nat)
    | HeadersOnly(status: nat, length: nat)
    | OneRead(status: nat, length: nat, read: Option<Range>)    // no range reads the whole object
    | Windowed(status: nat, length: nat, requested: Range)

  /** The answer; a refused range comes with 416, and a range that is used with 206. */
  function Respond(r: Request, size: nat): Response {
    if r.precondition.Some? then Refused(r.precondition.value)
    else
      var ranged := r.range.Some? && r.current;
      var range := if ranged then ParseSingleByteRange(r.range.value, size) else None;
      if ranged && range.None? then Refused(416)
      else
        var status := if range.Some? then 206 else 200;
        var requested := if range.Some? then range.value else Range(0, size);
        if r.head then HeadersOnly(status, requested.length)
        else if requested.length > READ_WINDOW then Windowed(status, requested.length, requested)
        else OneRead(status, requested.length, range)
  }

  // ----- which bytes are asked for -----

  /** The specifier a Range header writes down, if it is one. */
  function SpecIn(value: string): Option<Spec> {
    var texts := Match(Trim(value));
    if texts.None? then None
    else
      var (a, b) := texts.value;
      if (a == "" && b == "") || !AllDigits(a) || !AllDigits(b) then None else Some(SpecOf(a, b))
  }

  predicate UsesRange(r: Request) {
    r.range.Some? && r.current
  }

  /** The bytes a request asks for: those of its range, or all of them. */
  predicate AsksFor(r: Request, size: nat, position: int) {
    if UsesRange(r) then SpecIn(r.range.value).Some? && Wants(SpecIn(r.range.value).value, size, position)
    else 0 <= position < size
  }

  /** The range can be used: one specifier, some byte of which there is, in numbers that are safe. */
  predicate Usable(value: string, size: nat) {
    SpecIn(value).Some? && Satisfiable(SpecIn(value).value, size) && Safe(SpecIn(value).value)
  }

  /** The positions a response is about. */
  function About(response: Response, size: nat): Range
    requires response.OneRead? || response.Windowed?
  {
    match response
    case OneRead(_, _, read) => if read.Some? then read.value else Range(0, size)
    case Windowed(_, _, requested) => requested
  }

  lemma ParsedIsUsable(value: string, size: nat)
    requires size <= MAX_SAFE_INTEGER
    ensures var parsed := ParseSingleByteRange(value, size);
            && (parsed.Some? <==> Usable(value, size))
            && (parsed.Some? ==> Selects(SpecIn(value).value, size, parsed.value))
  {
    if Match(Trim(value)).Some? {
      MatchMeans(Trim(value));
      var (a, b) := Match(Trim(value)).value;
      hide Match, Trim;
      if !(a == "" && b == "") {
        ParsedTexts(value, size, a, b);
      }
    }
  }

  /**
   A request that no precondition stops is refused exactly when its range is in force and cannot be
   used.  Otherwise the answer is about exactly the bytes asked for, and they are read in windows
   exactly when they are more than one window; a HEAD request gets the status and length of the full answer.
   */
  lemma RespondMeans(r: Request, size: nat)
    requires size <= MAX_SAFE_INTEGER
    ensures var a := Respond(r, size);
            && (r.precondition.Some? ==> a == Refused(r.precondition.value))
            && (r.precondition.None? ==>
                 && (a.Refused? <==> UsesRange(r) && !Usable(r.range.value, size))
                 && (a.Refused? ==> a.status == 416)
                 && (!a.Refused? ==> a.status == if UsesRange(r) then 206 else 200)
                 && (a.HeadersOnly? <==> r.head && !a.Refused?)
                 && (a.HeadersOnly? ==>
                      var full := Respond(r.(head := false), size); a == HeadersOnly(full.status, full.length))
                 && (a.Windowed? ==> a.length > 8_388_608) && (a.OneRead? ==> a.length <= 8_388_608)
                 && (a.Windowed? || a.OneRead? ==>
                      && About(a, size).length == a.length && About(a, size).offset + a.length <= size
                      && forall p: int :: Covers(About(a, size), p) <==> AsksFor(r, size, p)))
  {
    if UsesRange(r) {
      ParsedIsUsable(r.range.value, size);
    }
    hide ParseSingleByteRange, SpecIn, Wants, Satisfiable, Safe;
  }

  // ----- what arrives -----

  /** The storage reads of an answer, the first one included, as long as its stream goes on to the end. */
  function Reads(response: Response, size: nat): seq<Range>
    requires response.OneRead? || response.Windowed?
  {
    if response.OneRead? then [About(response, size)] else Windows(response.requested.offset, response.requested.length)
  }

  /** Whatever is asked for, no storage read is longer than a window, and together they are what was asked for. */
  lemma ReadsAreBounded(r: Request, size: nat, position: int)
    requires size <= MAX_SAFE_INTEGER && (Respond(r, size).OneRead? || Respond(r, size).Windowed?)
    ensures var all := Reads(Respond(r, size), size);
            && (forall k :: 0 <= k < |all| ==> all[k].length <= 8_388_608)
            && (InSome(all, position) <==> AsksFor(r, size, position))
  {
    RespondMeans(r, size);
    var a := Respond(r, size);
    hide AsksFor, Respond, Windows;
    if a.Windowed? {
      WindowsTile(a.requested.offset, a.requested.length, position);
    } else {
      var only := About(a, size);
      assert Reads(a, size)[0] == only;
      assert Covers(only, position) <==> AsksFor(r, size, position);
    }
  }

  /** Storage answers the first read with bytes of the object from its offset, as many as it likes. */
  predicate FirstIsHonest(answer: Answer, object_: Bytes, read: Range) {
    answer.Content? ==> read.offset <= |object_| && Concat(answer.body.chunks) <= object_[read.offset..]
  }

  /** What a client has received when its body ended without an error; one read's body is passed on as it is. */
  function Received(response: Response, storage: Storage, events: seq<Event>): Option<Bytes>
    requires response.OneRead? || response.Windowed?
    requires storage(0).Content?
  {
    if response.OneRead? then
      if storage(0).body.fails then None else Some(Concat(storage(0).body.chunks))
    else
      var s := Streamed(storage, storage(0).etag, response.requested, events);
      if s.status.Closed? then Some(Concat(s.output)) else None
  }

  /**
   A body from windows that ends without an error is the whole of what was asked for.  A body from
   one read is passed on unread: it is the object's bytes from the right position, and the whole of
   what was asked for exactly when storage answered with as many.
   */
  lemma ReceivedIsTheRange(r: Request, object_: Bytes, storage: Storage, events: seq<Event>)
    requires |object_| <= MAX_SAFE_INTEGER && storage(0).Content?
    requires Respond(r, |object_|).OneRead? || Respond(r, |object_|).Windowed?
    requires var a := Respond(r, |object_|);
             (a.OneRead? ==> FirstIsHonest(storage(0), object_, About(a, |object_|)))
             && (a.Windowed? ==> Honest(storage, storage(0).etag, object_, a.requested))
    ensures var a := Respond(r, |object_|);
            var about := About(a, |object_|);
            var received := Received(a, storage, events);
            var asked := object_[about.offset..about.offset + about.length];
            && (forall p: int :: Covers(about, p) <==> AsksFor(r, |object_|, p))
            && (received.Some? ==> received.value <= object_[about.offset..])
            && (received.Some? && a.Windowed? ==> received.value == asked)
            && (received.Some? && a.OneRead? ==> (received.value == asked <==> |received.value| == a.length))
  {
    hide AsksFor, Respond, Windows, Concat, Honest, Streamed, Received, Usable, FirstIsHonest;
    RespondMeans(r, |object_|);
    var a := Respond(r, |object_|);
    if a.Windowed? {
      WindowsDeliver(a, object_, storage, events);
    } else {
      OneReadDelivers(a, object_, storage, events);
    }
  }

  lemma WindowsDeliver(a: Response, object_: Bytes, storage: Storage, events: seq<Event>)
    requires a.Windowed? && storage(0).Content? && a.requested.length > 0
    requires Honest(storage, storage(0).etag, object_, a.requested)
    requires a.requested.offset + a.requested.length <= |object_|
    ensures var received := Received(a, storage, events);
            received.Some? ==> received.value == object_[a.requested.offset..a.requested.offset + a.requested.length]
                               && received.value <= object_[a.requested.offset..]
  {
    hide Streamed, Concat, Honest;
    DeliversTheRange(storage, storage(0).etag, object_, a.requested, events);
  }

  lemma OneReadDelivers(a: Response, object_: Bytes, storage: Storage, events: seq<Event>)
    requires a.OneRead? && storage(0).Content? && FirstIsHonest(storage(0), object_, About(a, |object_|))
    requires About(a, |object_|).length == a.length && About(a, |object_|).offset + a.length <= |object_|
    ensures var about := About(a, |object_|);
            var received := Received(a, storage, events);
            received.Some? ==>
              && received.value <= object_[about.offset..]
              && (received.value == object_[about.offset..about.offset + about.length] <==> |received.value| == a.length)
  {
    hide Concat, About;
    var about := About(a, |object_|);
    assert object_[about.offset..][..about.length] == object_[about.offset..about.offset + about.length];
  }

  /** A short answer to the only read is passed on as it is, under the length that was promised. */
  lemma ShortReadIsPassedOn(object_: Bytes, n: nat, storage: Storage, events: seq<Event>)
    requires n < |object_| <= READ_WINDOW
    requires storage(0).Content? && storage(0).body == Body([object_[..n]], false)
    ensures var a := Respond(Request(None, None, false, false), |object_|);
            && a == OneRead(200, |object_|, None)
            && FirstIsHonest(storage(0), object_, About(a, |object_|))
            && Received(a, storage, events) == Some(object_[..n])
  {
    var chunks := [object_[..n]];
    assert chunks[..0] == [];
    assert Concat(chunks) == Concat([]) + object_[..n] == object_[..n];
    assert storage(0).body.chunks == chunks;
    assert object_[..n] <= object_[0..];
  }
}
