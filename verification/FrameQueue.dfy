/**
 The queue of frame requests of one recording as the steps its promises take: a call
 runs up to its first wait, the job at the head of the queue runs up to its load, the
 load ends, and a caller that waits goes on.
 */
module FrameQueue {
  import opened Wrappers
  import opened FrameCache

  const MAX_PENDING := 4

  datatype Job = Job(id: nat, command: Command, loading: bool)

  /** A job's promise: open, or settled with a frame or with the load's error. */
  datatype Outcome = Open | Fulfilled(frame: Frame) | Failed

  datatype Promise = Promise(command: Command, outcome: Outcome)

  datatype Caller =
    | Waiting(command: Command, job: nat, owner: bool)
    | Done(command: Command, answer: Option<Frame>)
    | Busy(command: Command)

  datatype State = State(
    cache: Cache,
    pending: map<Command, nat>,
    jobs: seq<Job>,
    promises: map<nat, Promise>,
    callers: map<nat, Caller>,
    nextJob: nat)

  function ForRequest(result: Frame, includeImage: bool): Frame {
    result.(image := if includeImage then result.image else None)
  }

  function WithImage(command: Command): Command {
    command.(includeImage := true)
  }

  /** The command's own key first, and the key of the frame with its image for a request without one. */
  function ReadEither(c: Cache, command: Command, now: int, later: int): Reading {
    var own := Read(c, command, now);
    if own.found.Some? || command.includeImage then own else Read(own.cache, WithImage(command), later)
  }

  function PendingFor(pending: map<Command, nat>, command: Command): Option<nat> {
    if command in pending then Some(pending[command])
    else if !command.includeImage && WithImage(command) in pending then Some(pending[WithImage(command)])
    else None
  }

  function Goes(s: State, pid: nat, c: Caller): State {
    s.(callers := s.callers[pid := c])
  }

  function SelectStep(s: State, pid: nat, command: Command, now: int, later: int): State {
    var cached := ReadEither(s.cache, command, now, later);
    var s' := s.(cache := cached.cache);
    if cached.found.Some? then Goes(s', pid, Done(command, Some(ForRequest(cached.found.value, command.includeImage))))
    else
      var joined := PendingFor(s.pending, command);
      if joined.Some? then Goes(s', pid, Waiting(command, joined.value, false))
      else if |s.pending| >= MAX_PENDING then Goes(s', pid, Busy(command))
      else
        Goes(s'.(jobs := s.jobs + [Job(s.nextJob, command, false)],
                 pending := s.pending[command := s.nextJob],
                 promises := s.promises[s.nextJob := Promise(command, Open)],
                 nextJob := s.nextJob + 1),
             pid, Waiting(command, s.nextJob, true))
  }

  function Settle(s: State, outcome: Outcome): State
    requires s.jobs != []
  {
    s.(jobs := s.jobs[1..], promises := s.promises[s.jobs[0].id := Promise(s.jobs[0].command, outcome)])
  }

  function StartStep(s: State, now: int, later: int): State
    requires s.jobs != [] && !s.jobs[0].loading
  {
    var command := s.jobs[0].command;
    var available := ReadEither(s.cache, command, now, later);
    var s' := s.(cache := available.cache);
    if available.found.Some? then Settle(s', Fulfilled(ForRequest(available.found.value, command.includeImage)))
    else s'.(jobs := s.jobs[0 := s.jobs[0].(loading := true)])
  }

  function LoadedStep(s: State, outcome: Option<Frame>, now: int): State
    requires s.jobs != [] && s.jobs[0].loading
  {
    var s' :=
      if outcome.Some? then s.(cache := Remember(s.cache, s.jobs[0].command, outcome.value, now)) else s;
    Settle(s', if outcome.Some? then Fulfilled(outcome.value) else Failed)
  }

  predicate CanResume(s: State, pid: nat) {
    pid in s.callers && s.callers[pid].Waiting?
    && s.callers[pid].job in s.promises && !s.promises[s.callers[pid].job].outcome.Open?
  }

  function ResumeStep(s: State, pid: nat): State
    requires CanResume(s, pid)
  {
    var c := s.callers[pid];
    var outcome := s.promises[c.job].outcome;
    var answer := if outcome.Fulfilled? then Some(ForRequest(outcome.frame, c.command.includeImage)) else None;
    var s' := if c.owner then s.(pending := s.pending - {c.command}) else s;
    Goes(s', pid, Done(c.command, answer))
  }

  function Empty(): State {
    State(Cache([], 0), map[], [], map[], map[], 0)
  }

  // ----- runs -----

  datatype Step =
    | SelectCall(pid: nat, command: Command, now: int, later: int)
    | StartHead(now: int, later: int)
    | LoadEnds(outcome: Option<Frame>, now: int)
    | Resume(pid: nat)

  predicate Possible(s: State, step: Step) {
    match step
    case SelectCall(pid, _, _, _) => pid !in s.callers
    case StartHead(_, _) => s.jobs != [] && !s.jobs[0].loading
    case LoadEnds(_, _) => s.jobs != [] && s.jobs[0].loading
    case Resume(pid) => CanResume(s, pid)
  }

  function Take(s: State, step: Step): State {
    if !Possible(s, step) then s
    else
      match step
      case SelectCall(pid, command, now, later) => SelectStep(s, pid, command, now, later)
      case StartHead(now, later) => StartStep(s, now, later)
      case LoadEnds(outcome, now) => LoadedStep(s, outcome, now)
      case Resume(pid) => ResumeStep(s, pid)
  }

  function Run(s: State, steps: seq<Step>): State
    decreases steps
  {
    if steps == [] then s else Run(Take(s, steps[0]), steps[1..])
  }
}
