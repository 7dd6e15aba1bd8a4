/** The queue of frame requests as its methods change it, and what its callers may rely on. */
module FrameRequests {
  import opened Wrappers
  import opened FrameCache
  import opened FrameQueue
  import opened FrameQueueInvariant

  // ----- what each call means -----

  predicate Found(c: Cache, command: Command, now: int, later: int) {
    exists e :: e in c.entries && Answers(e, command, now, later)
  }

  /** The answer is a live entry's frame, masked for the command. */
  predicate AnsweredFrom(c: Cache, command: Command, now: int, later: int, answer: Frame) {
    exists e :: e in c.entries && Answers(e, command, now, later) && answer == ForRequest(e.result, command.includeImage)
  }

  predicate Joinable(pending: map<Command, nat>, command: Command) {
    exists key :: key in pending && Serves(key, command)
  }

  predicate JoinedTo(pending: map<Command, nat>, command: Command, job: nat) {
    exists key :: key in pending && Serves(key, command) && pending[key] == job
  }

  predicate OtherCallersStay(s: State, t: State, pid: nat) {
    && t.callers.Keys == s.callers.Keys + {pid}
    && forall p :: p in s.callers && p != pid ==> t.callers[p] == s.callers[p]
  }

  predicate PromisesStay(s: State, t: State) {
    forall id :: id in s.promises ==> id in t.promises && t.promises[id] == s.promises[id]
  }

  /**
   A call is answered from a live entry if there is one, else joins a pending request that serves it,
   else is turned away if four are pending, else is queued last under a job of its own.
   */
  predicate Selected(s: State, t: State, pid: nat, command: Command, now: int, later: int) {
    && OtherCallersStay(s, t, pid) && PromisesStay(s, t)
    && (forall e :: e in t.cache.entries ==> e in s.cache.entries)
    && if Found(s.cache, command, now, later) then
         && t.jobs == s.jobs && t.pending == s.pending
         && t.callers[pid].Done? && t.callers[pid].command == command && t.callers[pid].answer.Some?
         && AnsweredFrom(s.cache, command, now, later, t.callers[pid].answer.value)
       else if Joinable(s.pending, command) then
         && t.jobs == s.jobs && t.pending == s.pending
         && t.callers[pid].Waiting? && t.callers[pid].command == command && !t.callers[pid].owner
         && JoinedTo(s.pending, command, t.callers[pid].job)
       else if |s.pending| == MAX_PENDING then
         t.jobs == s.jobs && t.pending == s.pending && t.callers[pid] == Busy(command)
       else
         && t.callers[pid].Waiting? && t.callers[pid].command == command && t.callers[pid].owner
         && var job := t.callers[pid].job;
            && job !in s.promises && job in t.promises && t.promises[job] == Promise(command, Open)
            && t.jobs == s.jobs + [Job(job, command, false)] && t.pending == s.pending[command := job]
  }

  /** The job at the head is settled from a live entry if there is one, and otherwise it alone loads, for a key not cached. */
  predicate Started(s: State, t: State, now: int, later: int)
    requires s.jobs != [] && s.jobs[0].id in s.promises
  {
    var head := s.jobs[0];
    && t.callers == s.callers && t.pending == s.pending
    && (forall e :: e in t.cache.entries ==> e in s.cache.entries)
    && if Found(s.cache, head.command, now, later) then
         && t.jobs == s.jobs[1..]
         && head.id in t.promises && t.promises[head.id].outcome.Fulfilled?
         && AnsweredFrom(s.cache, head.command, now, later, t.promises[head.id].outcome.frame)
         && t.promises == s.promises[head.id := t.promises[head.id]]
       else
         && t.promises == s.promises && !HasKey(t.cache.entries, head.command)
         && t.jobs == [head.(loading := true)] + s.jobs[1..]
  }

  /** Whether a frame may be kept, and then can be read back for its lifetime. */
  ghost predicate ReadBack(c: Cache, command: Command, frame: Frame, now: int) {
    forall later :: Read(c, command, later).found == if later < now + 120_000 then Some(frame) else None
  }

  /** The job at the head is settled with what the load ended with, and a frame that fits is kept; a failure keeps nothing. */
  ghost predicate Loaded(s: State, t: State, outcome: Option<Frame>, now: int)
    requires s.jobs != []
  {
    var head := s.jobs[0];
    && t.callers == s.callers && t.pending == s.pending && t.jobs == s.jobs[1..]
    && (forall i :: 0 <= i < |t.jobs| ==> !t.jobs[i].loading)
    && t.promises == s.promises[head.id := Promise(head.command, if outcome.Some? then Fulfilled(outcome.value) else Failed)]
    && if outcome.Some? && 2 * |KeptText(head.command, outcome.value)| + 512 <= 4_194_304
       then ReadBack(t.cache, head.command, outcome.value, now)
       else t.cache == s.cache
  }

  /** A caller gets the masked frame of a request that serves it, or the load's failure; an owner gives up exactly its own place. */
  predicate WentOn(s: State, t: State, pid: nat)
    requires CanResume(s, pid)
  {
    var c := s.callers[pid];
    var promise := s.promises[c.job];
    && OtherCallersStay(s, t, pid) && t.cache == s.cache && t.jobs == s.jobs && t.promises == s.promises
    && Serves(promise.command, c.command)
    && t.callers[pid].Done? && t.callers[pid].command == c.command
    && (promise.outcome.Failed? ==> t.callers[pid].answer == None)
    && (promise.outcome.Fulfilled? ==>
         t.callers[pid].answer == Some(ForRequest(promise.outcome.frame, c.command.includeImage)))
    && t.pending.Keys == s.pending.Keys - (if c.owner then {c.command} else {})
    && (forall key :: key in t.pending ==> t.pending[key] == s.pending[key])
    && |t.pending| == |s.pending| - if c.owner then 1 else 0
  }

  lemma NewKeyKeeps(c: Cache, key: Command, result: Frame, now: int)
    requires CacheOk(c)
    ensures !HasKey(c.entries, key) ==> CacheOk(Remember(c, key, result, now))
  {
    hide HasKey, CacheOk, Remember;
    if !HasKey(c.entries, key) {
      RememberKeeps(c, key, result, now);
    }
  }

  lemma InvCache(s: State)
    requires Inv(s)
    ensures CacheOk(s.cache)
  {
  }

  lemma ReadMeans(c: Cache, command: Command, now: int, later: int)
    requires CacheOk(c)
    ensures var r := ReadEither(c, command, now, later);
            && (forall e :: e in r.cache.entries ==> e in c.entries)
            && (r.found.None? ==> !HasKey(r.cache.entries, command))
            && (r.found.Some? <==> Found(c, command, now, later))
            && (r.found.Some? ==> AnsweredFrom(c, command, now, later, ForRequest(r.found.value, command.includeImage)))
  {
    hide CacheOk, ReadEither, Answers, HasKey;
    ReadEitherKeeps(c, command, now, later);
  }

  lemma JoinMeans(pending: map<Command, nat>, command: Command)
    ensures PendingFor(pending, command).Some? <==> Joinable(pending, command)
    ensures PendingFor(pending, command).Some? ==> JoinedTo(pending, command, PendingFor(pending, command).value)
  {
    assert forall key :: Serves(key, command) ==> key == command || key == WithImage(command);
    assert Serves(command, command);
    assert !command.includeImage ==> Serves(WithImage(command), command);
  }

  lemma OneCallerChanges(s: State, t: State, pid: nat)
    requires pid in t.callers && t.callers == s.callers[pid := t.callers[pid]]
    ensures OtherCallersStay(s, t, pid)
  {
  }

  lemma OnePromiseIsNew(s: State, t: State, id: nat)
    requires id !in s.promises
    requires t.promises == s.promises || (id in t.promises && t.promises == s.promises[id := t.promises[id]])
    ensures PromisesStay(s, t)
  {
  }

  lemma SelectMeans(s: State, pid: nat, command: Command, now: int, later: int)
    requires Inv(s) && pid !in s.callers
    ensures Inv(SelectStep(s, pid, command, now, later))
    ensures Selected(s, SelectStep(s, pid, command, now, later), pid, command, now, later)
  {
    assert CacheOk(s.cache) && s.nextJob !in s.promises && |s.pending| <= MAX_PENDING;
    hide Inv, CacheOk, Selected, SelectStep;
    SelectKeeps(s, pid, command, now, later);
    SelectAnswers(s, pid, command, now, later);
  }

  /** What a call does to each field, apart from the cache it read. */
  lemma SelectChanges(s: State, pid: nat, command: Command, now: int, later: int)
    requires s.nextJob !in s.promises
    ensures var t := SelectStep(s, pid, command, now, later);
            var r := ReadEither(s.cache, command, now, later);
            var joined := PendingFor(s.pending, command);
            var queues := r.found.None? && joined.None? && |s.pending| < MAX_PENDING;
            && OtherCallersStay(s, t, pid) && PromisesStay(s, t) && t.cache == r.cache && pid in t.callers
            && t.callers[pid] ==
                 (if r.found.Some? then Done(command, Some(ForRequest(r.found.value, command.includeImage)))
                  else if joined.Some? then Waiting(command, joined.value, false)
                  else if |s.pending| >= MAX_PENDING then Busy(command)
                  else Waiting(command, s.nextJob, true))
            && (if queues then
                  && s.nextJob in t.promises && t.promises[s.nextJob] == Promise(command, Open)
                  && t.jobs == s.jobs + [Job(s.nextJob, command, false)] && t.pending == s.pending[command := s.nextJob]
                else t.jobs == s.jobs && t.pending == s.pending)
  {
    hide ReadEither, PendingFor, ForRequest, OtherCallersStay, PromisesStay;
    var r := ReadEither(s.cache, command, now, later);
    var joined := PendingFor(s.pending, command);
    var t := SelectStep(s, pid, command, now, later);
    if r.found.None? && joined.None? && |s.pending| < MAX_PENDING {
      assert t.promises == s.promises[s.nextJob := Promise(command, Open)];
      OneCallerChanges(s, t, pid);
      OnePromiseIsNew(s, t, s.nextJob);
    } else {
      assert t == Goes(s.(cache := r.cache), pid, t.callers[pid]);
      OneCallerChanges(s, t, pid);
      OnePromiseIsNew(s, t, s.nextJob);
    }
  }

  lemma SelectAnswers(s: State, pid: nat, command: Command, now: int, later: int)
    requires CacheOk(s.cache) && pid !in s.callers && s.nextJob !in s.promises && |s.pending| <= MAX_PENDING
    ensures Selected(s, SelectStep(s, pid, command, now, later), pid, command, now, later)
  {
    hide CacheOk, ReadEither, PendingFor, Found, AnsweredFrom, Joinable, JoinedTo, ForRequest, HasKey, OtherCallersStay,
      PromisesStay;
    ReadMeans(s.cache, command, now, later);
    JoinMeans(s.pending, command);
    SelectChanges(s, pid, command, now, later);
    hide SelectStep;
  }

  lemma HeadIsPromised(s: State)
    requires Inv(s) && s.jobs != []
    ensures s.jobs[0].id in s.promises
  {
    assert JobOk(s, 0);
  }

  lemma StartMeans(s: State, now: int, later: int)
    requires Inv(s) && s.jobs != [] && !s.jobs[0].loading
    ensures Inv(StartStep(s, now, later))
    ensures s.jobs[0].id in s.promises && Started(s, StartStep(s, now, later), now, later)
  {
    hide Inv, CacheOk, Started, StartStep;
    InvCache(s);
    HeadIsPromised(s);
    StartKeeps(s, now, later);
    StartAnswers(s, now, later);
  }

  lemma StartAnswers(s: State, now: int, later: int)
    requires CacheOk(s.cache) && s.jobs != [] && !s.jobs[0].loading && s.jobs[0].id in s.promises
    ensures Started(s, StartStep(s, now, later), now, later)
  {
    hide CacheOk, ReadEither, Found, AnsweredFrom, ForRequest, HasKey;
    ReadMeans(s.cache, s.jobs[0].command, now, later);
    assert s.jobs == [s.jobs[0]] + s.jobs[1..];
  }

  lemma LoadedMeans(s: State, outcome: Option<Frame>, now: int)
    requires Inv(s) && s.jobs != [] && s.jobs[0].loading
    ensures Inv(LoadedStep(s, outcome, now))
    ensures Loaded(s, LoadedStep(s, outcome, now), outcome, now)
  {
    LoadedKeeps(s, outcome, now);
    var head := s.jobs[0];
    assert JobOk(s, 0) && !HasKey(s.cache.entries, head.command) && CacheOk(s.cache);
    forall i | 0 <= i < |s.jobs[1..]| ensures !s.jobs[1..][i].loading {
      assert JobOk(s, i + 1);
    }
    hide Inv, CacheOk, Remember, Read, HasKey, Charge, KeptText;
    if outcome.Some? && 2 * |KeptText(head.command, outcome.value)| + 512 <= 4_194_304 {
      forall later
        ensures Read(Remember(s.cache, head.command, outcome.value, now), head.command, later).found
                == if later < now + 120_000 then Some(outcome.value) else None
      {
        RememberThenRead(s.cache, head.command, outcome.value, now, later);
      }
    } else if outcome.Some? {
      ChargeMeans(head.command, outcome.value);
      TooLargeIsNotKept(s.cache, head.command, outcome.value, now);
    }
  }

  lemma TooLargeIsNotKept(c: Cache, key: Command, result: Frame, now: int)
    requires Charge(key, result) > MAX_CACHE_BYTES
    ensures Remember(c, key, result, now) == c
  {
  }

  lemma CallerIsServed(s: State, pid: nat)
    requires Inv(s) && CanResume(s, pid)
    ensures var c := s.callers[pid];
            Serves(s.promises[c.job].command, c.command) && (c.owner ==> c.command in s.pending)
  {
    assert CallerOk(s, s.callers[pid]);
  }

  lemma ResumeMeans(s: State, pid: nat)
    requires Inv(s) && CanResume(s, pid)
    ensures Inv(ResumeStep(s, pid))
    ensures WentOn(s, ResumeStep(s, pid), pid)
  {
    hide Inv, WentOn, ResumeStep, Serves;
    ResumeKeeps(s, pid);
    CallerIsServed(s, pid);
    ResumeAnswers(s, pid);
  }

  lemma ResumeAnswers(s: State, pid: nat)
    requires CanResume(s, pid)
    requires var c := s.callers[pid];
             Serves(s.promises[c.job].command, c.command) && (c.owner ==> c.command in s.pending)
    ensures WentOn(s, ResumeStep(s, pid), pid)
  {
    hide ForRequest, Serves, OtherCallersStay;
    OneCallerChanges(s, ResumeStep(s, pid), pid);
    var c := s.callers[pid];
    if c.owner {
      assert (s.pending - {c.command}).Keys == s.pending.Keys - {c.command};
    }
  }

  // ----- the queue -----

  class SubjectFrameQueue {
    var entries: seq<Entry>
    var cacheBytes: int
    var pending: map<Command, nat>
    var jobs: seq<Job>
    var promises: map<nat, Promise>
    var callers: map<nat, Caller>
    var nextJob: nat

    ghost function Kept(): Cache
      reads this`entries, this`cacheBytes
    {
      Cache(entries, cacheBytes)
    }

    ghost function View(): State
      reads this
    {
      State(Kept(), pending, jobs, promises, callers, nextJob)
    }

    /** The accounts add up within their bounds, and every place taken has a caller that gives it back. */
    ghost predicate Valid()
      reads this
    {
      Inv(View())
    }

    constructor ()
      ensures Valid() && View() == Empty()
    {
      entries, cacheBytes, pending, jobs, promises, callers, nextJob := [], 0, map[], [], map[], map[], 0;
    }

    method ReadEntry(key: Command, now: int) returns (found: Option<Frame>)
      requires CacheOk(Kept())
      modifies this`entries, this`cacheBytes
      ensures Reading(Kept(), found) == Read(old(Kept()), key, now)
      ensures CacheOk(Kept())
      ensures found.Some? <==> exists e :: e in old(entries) && e.key == key && e.expiresAt > now
      ensures found.Some? ==> entries != [] && entries[|entries| - 1].key == key && entries[|entries| - 1].result == found.value
      ensures forall e :: e in entries <==> e in old(entries) && (e.key != key || e.expiresAt > now)
    {
      ReadKeeps(Kept(), key, now);
      var i := IndexOf(entries, key);
      if i == |entries| {
        return None;
      }
      var entry := entries[i];
      entries := Without(entries, i);
      if entry.expiresAt <= now {
        cacheBytes := cacheBytes - entry.bytes;
        return None;
      }
      entries := entries + [entry];
      return Some(entry.result);
    }

    method ReadForCommand(command: Command, now: int, later: int) returns (found: Option<Frame>)
      requires CacheOk(Kept())
      modifies this`entries, this`cacheBytes
      ensures CacheOk(Kept())
      ensures Reading(Kept(), found) == ReadEither(old(Kept()), command, now, later)
    {
      hide CacheOk, Read;
      found := ReadEntry(command, now);
      if found.None? && !command.includeImage {
        found := ReadEntry(WithImage(command), later);
      }
    }

    /** The loop needs no guard for an empty cache: while it runs there is an oldest entry. */
    method RememberFrame(key: Command, result: Frame, now: int)
      requires CacheOk(Kept())
      modifies this`entries, this`cacheBytes
      ensures Kept() == Remember(old(Kept()), key, result, now)
      ensures !HasKey(old(entries), key) ==> CacheOk(Kept())
    {
      hide HasKey;
      NewKeyKeeps(Kept(), key, result, now);
      var bytes := Charge(key, result);
      if bytes > MAX_CACHE_BYTES {
        return;
      }
      while |entries| >= MAX_CACHE_ENTRIES || cacheBytes + bytes > MAX_CACHE_BYTES
        invariant CacheOk(Kept())
        invariant Evict(Kept(), bytes) == Evict(old(Kept()), bytes)
        decreases |entries|
      {
        hide CacheOk, Evict;
        FullIsNotEmpty(Kept(), bytes);
        DropOldestKeeps(Kept());
        EvictStep(Kept(), bytes);
        var oldest := entries[0];
        entries := entries[1..];
        cacheBytes := cacheBytes - oldest.bytes;
      }
      hide CacheOk, Put;
      entries := Put(entries, Entry(key, result, now + CACHE_TTL_MS, bytes));
      cacheBytes := cacheBytes + bytes;
    }

    method Select(pid: nat, command: Command, now: int, later: int)
      requires Valid() && pid !in callers
      modifies this
      ensures Valid()
      ensures View() == SelectStep(old(View()), pid, command, now, later)
      ensures Selected(old(View()), View(), pid, command, now, later)
    {
      hide Inv, CacheOk, Selected, ReadEither, PendingFor, ForRequest;
      InvCache(View());
      SelectMeans(View(), pid, command, now, later);
      var cached := ReadForCommand(command, now, later);
      if cached.Some? {
        callers := callers[pid := Done(command, Some(ForRequest(cached.value, command.includeImage)))];
        return;
      }
      var joined := PendingFor(pending, command);
      if joined.Some? {
        callers := callers[pid := Waiting(command, joined.value, false)];
        return;
      }
      if |pending| >= MAX_PENDING {
        callers := callers[pid := Busy(command)];
        return;
      }
      jobs := jobs + [Job(nextJob, command, false)];
      promises := promises[nextJob := Promise(command, Open)];
      pending := pending[command := nextJob];
      callers := callers[pid := Waiting(command, nextJob, true)];
      nextJob := nextJob + 1;
    }

    method StartHead(now: int, later: int)
      requires Valid() && jobs != [] && !jobs[0].loading
      modifies this
      ensures Valid()
      ensures View() == StartStep(old(View()), now, later)
      ensures old(jobs[0].id) in old(promises) && Started(old(View()), View(), now, later)
    {
      hide Inv, CacheOk, Started, ReadEither, ForRequest;
      InvCache(View());
      StartMeans(View(), now, later);
      var head := jobs[0];
      var available := ReadForCommand(head.command, now, later);
      if available.Some? {
        SettleHead(Fulfilled(ForRequest(available.value, head.command.includeImage)));
      } else {
        jobs := jobs[0 := head.(loading := true)];
      }
    }

    method SettleHead(outcome: Outcome)
      requires jobs != []
      modifies this`jobs, this`promises
      ensures View() == Settle(old(View()), outcome)
    {
      promises := promises[jobs[0].id := Promise(jobs[0].command, outcome)];
      jobs := jobs[1..];
    }

    method LoadEnded(outcome: Option<Frame>, now: int)
      requires Valid() && jobs != [] && jobs[0].loading
      modifies this
      ensures Valid()
      ensures View() == LoadedStep(old(View()), outcome, now)
      ensures Loaded(old(View()), View(), outcome, now)
    {
      hide Inv, CacheOk, Loaded, Remember;
      InvCache(View());
      LoadedMeans(View(), outcome, now);
      if outcome.Some? {
        RememberFrame(jobs[0].command, outcome.value, now);
      }
      SettleHead(if outcome.Some? then Fulfilled(outcome.value) else Failed);
    }

    method Resume(pid: nat)
      requires Valid() && CanResume(View(), pid)
      modifies this
      ensures Valid()
      ensures View() == ResumeStep(old(View()), pid)
      ensures WentOn(old(View()), View(), pid)
    {
      hide Inv, WentOn, ForRequest;
      ResumeMeans(View(), pid);
      var caller := callers[pid];
      var outcome := promises[caller.job].outcome;
      var answer := None;
      if outcome.Fulfilled? {
        answer := Some(ForRequest(outcome.frame, caller.command.includeImage));
      }
      if caller.owner {
        pending := pending - {caller.command};
      }
      callers := callers[pid := Done(caller.command, answer)];
    }
  }
}
