/** When every load agrees with the recording, every answer is what loading directly would give. */
module FrameQueueRuns {
  import opened Wrappers
  import opened FrameCache
  import opened FrameQueue
  import opened FrameQueueInvariant

  /** What a frame of the recording is, with its image. */
  type Loader = string -> Frame

  /** A load agrees with the recording; without an image asked for, it may carry any image. */
  predicate Conforms(loader: Loader, command: Command, frame: Frame) {
    && frame.facts == loader(command.frame).facts
    && (command.includeImage ==> frame == loader(command.frame))
  }

  /** What loading the command directly and masking the image answers. */
  function Expected(loader: Loader, command: Command): Frame {
    ForRequest(loader(command.frame), command.includeImage)
  }

  lemma ServedAnswersAreExpected(loader: Loader, key: Command, command: Command, frame: Frame)
    requires Conforms(loader, key, frame) && Serves(key, command)
    ensures ForRequest(frame, command.includeImage) == Expected(loader, command)
    ensures Conforms(loader, command, ForRequest(frame, command.includeImage))
  {
  }

  ghost predicate EntriesConform(loader: Loader, entries: seq<Entry>) {
    forall e :: e in entries ==> Conforms(loader, e.key, e.result)
  }

  predicate OutcomeConforms(loader: Loader, promise: Promise) {
    promise.outcome.Fulfilled? ==> Conforms(loader, promise.command, promise.outcome.frame)
  }

  ghost predicate PromisesConform(loader: Loader, s: State) {
    forall id :: id in s.promises ==> OutcomeConforms(loader, s.promises[id])
  }

  predicate AnswerConforms(loader: Loader, c: Caller) {
    c.Done? && c.answer.Some? ==> c.answer.value == Expected(loader, c.command)
  }

  ghost predicate AnswersConform(loader: Loader, s: State) {
    forall pid :: pid in s.callers ==> AnswerConforms(loader, s.callers[pid])
  }

  ghost predicate AllConforms(loader: Loader, s: State) {
    EntriesConform(loader, s.cache.entries) && PromisesConform(loader, s) && AnswersConform(loader, s)
  }

  lemma ReadConforms(loader: Loader, c: Cache, command: Command, now: int, later: int)
    requires CacheOk(c) && EntriesConform(loader, c.entries)
    ensures var r := ReadEither(c, command, now, later);
            && EntriesConform(loader, r.cache.entries)
            && (r.found.Some? ==>
                 && ForRequest(r.found.value, command.includeImage) == Expected(loader, command)
                 && Conforms(loader, command, ForRequest(r.found.value, command.includeImage)))
  {
    hide CacheOk, ReadEither, Conforms;
    ReadEitherKeeps(c, command, now, later);
    var r := ReadEither(c, command, now, later);
    if r.found.Some? {
      var e :| e in c.entries && Answers(e, command, now, later) && e.result == r.found.value;
      ServedAnswersAreExpected(loader, e.key, command, e.result);
    }
  }

  lemma SelectConforms(loader: Loader, s: State, pid: nat, command: Command, now: int, later: int)
    requires CacheOk(s.cache) && AllConforms(loader, s)
    ensures AllConforms(loader, SelectStep(s, pid, command, now, later))
  {
    ReadConforms(loader, s.cache, command, now, later);
    hide CacheOk, ReadEither, EntriesConform, Conforms, Expected, ForRequest;
  }

  lemma SettleConforms(loader: Loader, s: State, outcome: Outcome)
    requires AllConforms(loader, s) && s.jobs != []
    requires OutcomeConforms(loader, Promise(s.jobs[0].command, outcome))
    ensures AllConforms(loader, Settle(s, outcome))
  {
    hide EntriesConform, OutcomeConforms;
  }

  lemma StartConforms(loader: Loader, s: State, now: int, later: int)
    requires CacheOk(s.cache) && AllConforms(loader, s) && s.jobs != [] && !s.jobs[0].loading
    ensures AllConforms(loader, StartStep(s, now, later))
  {
    var command := s.jobs[0].command;
    ReadConforms(loader, s.cache, command, now, later);
    hide CacheOk, ReadEither, EntriesConform, Conforms, Expected, ForRequest;
    var available := ReadEither(s.cache, command, now, later);
    if available.found.Some? {
      SettleConforms(loader, s.(cache := available.cache), Fulfilled(ForRequest(available.found.value, command.includeImage)));
    }
  }

  lemma LoadedConforms(loader: Loader, s: State, outcome: Option<Frame>, now: int)
    requires Inv(s) && AllConforms(loader, s) && s.jobs != [] && s.jobs[0].loading
    requires outcome.Some? ==> Conforms(loader, s.jobs[0].command, outcome.value)
    ensures AllConforms(loader, LoadedStep(s, outcome, now))
  {
    var command := s.jobs[0].command;
    assert JobOk(s, 0);
    if outcome.Some? {
      RememberKeeps(s.cache, command, outcome.value, now);
      hide Inv, CacheOk, Remember, Conforms;
      SettleConforms(loader, s.(cache := Remember(s.cache, command, outcome.value, now)), Fulfilled(outcome.value));
    } else {
      SettleConforms(loader, s, Failed);
    }
  }

  lemma ResumeConforms(loader: Loader, s: State, pid: nat)
    requires Inv(s) && AllConforms(loader, s) && CanResume(s, pid)
    ensures AllConforms(loader, ResumeStep(s, pid))
  {
    var c := s.callers[pid];
    var promise := s.promises[c.job];
    assert CallerOk(s, c) && OutcomeConforms(loader, promise);
    if promise.outcome.Fulfilled? {
      ServedAnswersAreExpected(loader, promise.command, c.command, promise.outcome.frame);
    }
    hide Inv, Conforms, Expected, ForRequest, Serves;
  }

  // ----- whole runs -----

  /** Every load that ends with a frame in this run agrees with the recording. */
  predicate Faithful(loader: Loader, s: State, steps: seq<Step>)
    decreases steps
  {
    steps == []
    || ((steps[0].LoadEnds? && steps[0].outcome.Some? && Possible(s, steps[0]) ==>
           Conforms(loader, s.jobs[0].command, steps[0].outcome.value))
        && Faithful(loader, Take(s, steps[0]), steps[1..]))
  }

  lemma StepConforms(loader: Loader, s: State, step: Step)
    requires Inv(s) && AllConforms(loader, s)
    requires step.LoadEnds? && step.outcome.Some? && Possible(s, step) ==>
               Conforms(loader, s.jobs[0].command, step.outcome.value)
    ensures AllConforms(loader, Take(s, step))
  {
    assert CacheOk(s.cache);
    hide Inv, CacheOk, AllConforms, Conforms, SelectStep, StartStep, LoadedStep, ResumeStep;
    if Possible(s, step) {
      match step
      case SelectCall(pid, command, now, later) => SelectConforms(loader, s, pid, command, now, later);
      case StartHead(now, later) => StartConforms(loader, s, now, later);
      case LoadEnds(outcome, now) => LoadedConforms(loader, s, outcome, now);
      case Resume(pid) => ResumeConforms(loader, s, pid);
    }
  }

  lemma {:induction false} RunConforms(loader: Loader, s: State, steps: seq<Step>)
    requires Inv(s) && AllConforms(loader, s) && Faithful(loader, s, steps)
    ensures AllConforms(loader, Run(s, steps))
    decreases steps
  {
    hide Inv, AllConforms, Take, Conforms;
    if steps != [] {
      StepKeeps(s, steps[0]);
      StepConforms(loader, s, steps[0]);
      RunConforms(loader, Take(s, steps[0]), steps[1..]);
    }
  }

  /** Every answer, cached, joined or loaded, is what loading directly and masking the image gives. */
  lemma AnswersAreLoads(loader: Loader, steps: seq<Step>, pid: nat)
    requires Faithful(loader, Empty(), steps)
    ensures var s := Run(Empty(), steps);
            pid in s.callers && s.callers[pid].Done? && s.callers[pid].answer.Some? ==>
              s.callers[pid].answer.value == Expected(loader, s.callers[pid].command)
  {
    RunConforms(loader, Empty(), steps);
    var s := Run(Empty(), steps);
    assert pid in s.callers ==> AnswerConforms(loader, s.callers[pid]);
  }
}
