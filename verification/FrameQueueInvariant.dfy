/** What the frame queue keeps, whatever calls and loads come in whatever order and at whatever times. */
module FrameQueueInvariant {
  import opened Wrappers
  import opened FrameCache
  import opened FrameQueue

  /** A result for `key` can answer `command`. */
  predicate Serves(key: Command, command: Command) {
    key == command || (!command.includeImage && key == WithImage(command))
  }

  predicate JobOk(s: State, i: nat)
    requires i < |s.jobs|
  {
    var job := s.jobs[i];
    && job.id in s.promises && s.promises[job.id] == Promise(job.command, Open)
    && job.command in s.pending && s.pending[job.command] == job.id
    && (job.loading ==> i == 0 && !HasKey(s.cache.entries, job.command))
  }

  ghost predicate JobsOk(s: State) {
    && (forall i :: 0 <= i < |s.jobs| ==> JobOk(s, i))
    && (forall i, j :: 0 <= i < j < |s.jobs| ==> s.jobs[i].id != s.jobs[j].id)
  }

  ghost predicate PromisesOk(s: State) {
    forall id :: id in s.promises ==> id < s.nextJob
  }

  /** The caller that queued the pending job still waits for it. */
  ghost predicate Owned(s: State, key: Command)
    requires key in s.pending
  {
    exists pid :: pid in s.callers && s.callers[pid] == Waiting(key, s.pending[key], true)
  }

  ghost predicate PendingOk(s: State) {
    && |s.pending| <= MAX_PENDING
    && forall key :: key in s.pending ==>
         s.pending[key] in s.promises && s.promises[s.pending[key]].command == key
  }

  ghost predicate AllOwned(s: State) {
    forall key :: key in s.pending ==> Owned(s, key)
  }

  ghost predicate CallerOk(s: State, c: Caller) {
    match c
    case Waiting(command, job, owner) =>
      && job in s.promises && Serves(s.promises[job].command, command)
      && (owner ==> command in s.pending && s.pending[command] == job)
    case _ => true
  }

  ghost predicate CallersOk(s: State) {
    forall pid :: pid in s.callers ==> CallerOk(s, s.callers[pid])
  }

  ghost predicate OwnersApart(s: State) {
    forall p, q :: p in s.callers && q in s.callers && p != q
                   && s.callers[p].Waiting? && s.callers[p].owner && s.callers[q].Waiting? && s.callers[q].owner
                   ==> s.callers[p].job != s.callers[q].job
  }

  ghost predicate Inv(s: State) {
    && CacheOk(s.cache)
    && JobsOk(s) && PromisesOk(s) && PendingOk(s) && AllOwned(s)
    && CallersOk(s) && OwnersApart(s)
  }

  // ----- reading -----

  /** An entry that answers the command: its own, or the one with the image for a request without. */
  predicate Answers(e: Entry, command: Command, now: int, later: int) {
    || (e.key == command && e.expiresAt > now)
    || (!command.includeImage && e.key == WithImage(command) && e.expiresAt > later)
  }

  /** Reading finds a frame exactly when a live entry answers, keeps the accounts and drops no other entry. */
  lemma ReadEitherKeeps(c: Cache, command: Command, now: int, later: int)
    requires CacheOk(c)
    ensures var r := ReadEither(c, command, now, later);
            && CacheOk(r.cache)
            && (forall e :: e in r.cache.entries ==> e in c.entries)
            && (forall e :: e in c.entries && !Serves(e.key, command) ==> e in r.cache.entries)
            && (r.found.None? ==> !HasKey(r.cache.entries, command))
            && (r.found.Some? <==> exists e :: e in c.entries && Answers(e, command, now, later))
            && (r.found.Some? ==> exists e :: e in c.entries && Answers(e, command, now, later) && e.result == r.found.value)
  {
    hide CacheOk, Read;
    var own := Read(c, command, now);
    ReadKeeps(c, command, now);
    ReadSubset(c, own.cache);
    if own.found.None? && !command.includeImage {
      var other := Read(own.cache, WithImage(command), later);
      ReadKeeps(own.cache, WithImage(command), later);
      ReadSubset(own.cache, other.cache);
    }
  }

  lemma ReadSubset(c: Cache, d: Cache)
    requires forall e :: e in d.entries ==> e in c.entries
    ensures forall key :: HasKey(d.entries, key) ==> HasKey(c.entries, key)
  {
    forall key | HasKey(d.entries, key) ensures HasKey(c.entries, key) {
      var i :| 0 <= i < |d.entries| && d.entries[i].key == key;
      assert d.entries[i] in c.entries;
    }
  }

  // ----- one step -----

  /** Changing only the cache, to one with no new keys, disturbs nobody. */
  lemma CacheStable(s: State, cache: Cache)
    requires Inv(s) && CacheOk(cache)
    requires forall key :: HasKey(cache.entries, key) ==> HasKey(s.cache.entries, key)
    ensures Inv(s.(cache := cache))
  {
    var t := s.(cache := cache);
    hide CacheOk, CallerOk, HasKey;
    assert JobsOk(t) by {
      forall i | 0 <= i < |t.jobs| ensures JobOk(t, i) {
        assert JobOk(s, i);
      }
    }
    assert CallersOk(t) by {
      forall pid | pid in t.callers ensures CallerOk(t, t.callers[pid]) {
        assert CallerOk(s, s.callers[pid]);
        CallerStable(s, t, s.callers[pid]);
      }
    }
  }

  lemma CallerStable(s: State, t: State, c: Caller)
    requires CallerOk(s, c)
    requires forall id :: id in s.promises ==> id in t.promises && t.promises[id].command == s.promises[id].command
    requires c.Waiting? && c.owner && c.command in s.pending && s.pending[c.command] == c.job ==>
               c.command in t.pending && t.pending[c.command] == c.job
    ensures CallerOk(t, c)
  {
  }

  /** A caller that owns no promise comes or goes on. */
  lemma AnsweringKeeps(s: State, pid: nat, c: Caller)
    requires Inv(s) && CallerOk(s, c) && !(c.Waiting? && c.owner)
    requires pid !in s.callers
    ensures Inv(Goes(s, pid, c))
  {
    var t := Goes(s, pid, c);
    hide CacheOk, HasKey;
    assert JobsOk(t) by {
      forall i | 0 <= i < |t.jobs| ensures JobOk(t, i) {
        assert JobOk(s, i);
      }
    }
    assert AllOwned(t) by {
      forall key | key in t.pending ensures Owned(t, key) {
        assert Owned(s, key);
        var p :| p in s.callers && s.callers[p] == Waiting(key, s.pending[key], true);
        assert t.callers[p] == Waiting(key, t.pending[key], true);
      }
    }
  }

  lemma NewJobKeeps(s: State, pid: nat, command: Command)
    requires Inv(s) && pid !in s.callers && command !in s.pending && |s.pending| < MAX_PENDING
    ensures Inv(
              Goes(s.(jobs := s.jobs + [Job(s.nextJob, command, false)],
                      pending := s.pending[command := s.nextJob],
                      promises := s.promises[s.nextJob := Promise(command, Open)],
                      nextJob := s.nextJob + 1),
                   pid, Waiting(command, s.nextJob, true)))
  {
    var t := Goes(s.(jobs := s.jobs + [Job(s.nextJob, command, false)],
                     pending := s.pending[command := s.nextJob],
                     promises := s.promises[s.nextJob := Promise(command, Open)],
                     nextJob := s.nextJob + 1),
                  pid, Waiting(command, s.nextJob, true));
    hide CacheOk, HasKey;
    assert s.nextJob !in s.promises;
    assert JobsOk(t) by {
      forall i | 0 <= i < |t.jobs| ensures JobOk(t, i) {
        if i < |s.jobs| { assert JobOk(s, i); }
      }
      forall i, j | 0 <= i < j < |t.jobs| ensures t.jobs[i].id != t.jobs[j].id {
        assert JobOk(s, i);
      }
    }
    NewJobKeepsCallers(s, t, pid, command);
    NewJobKeepsPending(s, t, pid, command);
  }

  lemma NewJobKeepsCallers(s: State, t: State, pid: nat, command: Command)
    requires CallersOk(s) && OwnersApart(s) && PromisesOk(s) && pid !in s.callers
    requires command !in s.pending
    requires t.pending == s.pending[command := s.nextJob] && t.nextJob == s.nextJob + 1
    requires t.promises == s.promises[s.nextJob := Promise(command, Open)]
    requires t.callers == s.callers[pid := Waiting(command, s.nextJob, true)]
    ensures CallersOk(t) && OwnersApart(t) && PromisesOk(t)
  {
    assert s.nextJob !in s.promises;
    forall p | p in t.callers ensures CallerOk(t, t.callers[p]) {
      if p != pid {
        assert CallerOk(s, s.callers[p]);
        CallerStable(s, t, s.callers[p]);
      }
    }
    forall p | p in s.callers && s.callers[p].Waiting? ensures s.callers[p].job != s.nextJob {
      assert CallerOk(s, s.callers[p]);
    }
  }

  lemma NewJobKeepsPending(s: State, t: State, pid: nat, command: Command)
    requires PendingOk(s) && AllOwned(s) && PromisesOk(s) && pid !in s.callers
    requires command !in s.pending && |s.pending| < MAX_PENDING
    requires t.pending == s.pending[command := s.nextJob]
    requires t.promises == s.promises[s.nextJob := Promise(command, Open)]
    requires t.callers == s.callers[pid := Waiting(command, s.nextJob, true)]
    ensures PendingOk(t) && AllOwned(t)
  {
    forall key | key in t.pending ensures Owned(t, key) {
      if key == command {
        assert t.callers[pid] == Waiting(key, t.pending[key], true);
      } else {
        assert Owned(s, key);
        var p :| p in s.callers && s.callers[p] == Waiting(key, s.pending[key], true);
        assert t.callers[p] == Waiting(key, t.pending[key], true);
      }
    }
  }

  lemma SelectKeeps(s: State, pid: nat, command: Command, now: int, later: int)
    requires Inv(s) && pid !in s.callers
    ensures Inv(SelectStep(s, pid, command, now, later))
  {
    hide CacheOk, HasKey, ReadEither, JobsOk, AllOwned, OwnersApart, PromisesOk, CallersOk;
    var cached := ReadEither(s.cache, command, now, later);
    ReadEitherKeeps(s.cache, command, now, later);
    ReadSubset(s.cache, cached.cache);
    var s' := s.(cache := cached.cache);
    CacheStable(s, cached.cache);
    if cached.found.Some? {
      AnsweringKeeps(s', pid, Done(command, Some(ForRequest(cached.found.value, command.includeImage))));
    } else {
      var joined := PendingFor(s.pending, command);
      if joined.Some? {
        AnsweringKeeps(s', pid, Waiting(command, joined.value, false));
      } else if |s.pending| >= MAX_PENDING {
        AnsweringKeeps(s', pid, Busy(command));
      } else {
        NewJobKeeps(s', pid, command);
      }
    }
  }

  /** The head job ends well or badly; afterwards nothing loads. */
  lemma SettleKeeps(s: State, outcome: Outcome)
    requires Inv(s) && s.jobs != [] && !outcome.Open?
    ensures Inv(Settle(s, outcome))
    ensures forall i :: 0 <= i < |Settle(s, outcome).jobs| ==> !Settle(s, outcome).jobs[i].loading
  {
    var t := Settle(s, outcome);
    hide CacheOk, HasKey;
    assert JobOk(s, 0);
    forall i | 0 <= i < |t.jobs| ensures JobOk(t, i) && !t.jobs[i].loading {
      assert JobOk(s, i + 1);
    }
    forall pid | pid in t.callers ensures CallerOk(t, t.callers[pid]) {
      assert CallerOk(s, s.callers[pid]);
      CallerStable(s, t, s.callers[pid]);
    }
    OwnersStay(s, t);
  }

  lemma OwnersStay(s: State, t: State)
    requires AllOwned(s) && t.pending == s.pending && t.callers == s.callers
    ensures AllOwned(t)
  {
    forall key | key in t.pending ensures Owned(t, key) {
      assert Owned(s, key);
    }
  }

  lemma LoadingKeeps(s: State)
    requires Inv(s) && s.jobs != [] && !HasKey(s.cache.entries, s.jobs[0].command)
    ensures Inv(s.(jobs := s.jobs[0 := s.jobs[0].(loading := true)]))
  {
    var t := s.(jobs := s.jobs[0 := s.jobs[0].(loading := true)]);
    hide CacheOk, HasKey;
    forall i | 0 <= i < |t.jobs| ensures JobOk(t, i) {
      assert JobOk(s, i);
    }
    forall pid | pid in t.callers ensures CallerOk(t, t.callers[pid]) {
      assert CallerOk(s, s.callers[pid]);
      CallerStable(s, t, s.callers[pid]);
    }
    OwnersStay(s, t);
  }

  lemma StartKeeps(s: State, now: int, later: int)
    requires Inv(s) && s.jobs != [] && !s.jobs[0].loading
    ensures Inv(StartStep(s, now, later))
  {
    hide CacheOk, HasKey, ReadEither, JobsOk, AllOwned, OwnersApart, PromisesOk, CallersOk;
    var command := s.jobs[0].command;
    var available := ReadEither(s.cache, command, now, later);
    ReadEitherKeeps(s.cache, command, now, later);
    ReadSubset(s.cache, available.cache);
    var s' := s.(cache := available.cache);
    CacheStable(s, available.cache);
    if available.found.Some? {
      SettleKeeps(s', Fulfilled(ForRequest(available.found.value, command.includeImage)));
    } else {
      LoadingKeeps(s');
    }
  }

  /** While nothing loads the cache may take any new entry. */
  lemma CacheChanges(s: State, cache: Cache)
    requires Inv(s) && CacheOk(cache)
    requires forall i :: 0 <= i < |s.jobs| ==> !s.jobs[i].loading
    ensures Inv(s.(cache := cache))
  {
    var t := s.(cache := cache);
    hide CacheOk, HasKey;
    forall i | 0 <= i < |t.jobs| ensures JobOk(t, i) {
      assert JobOk(s, i);
    }
    forall pid | pid in t.callers ensures CallerOk(t, t.callers[pid]) {
      assert CallerOk(s, s.callers[pid]);
      CallerStable(s, t, s.callers[pid]);
    }
    OwnersStay(s, t);
  }

  lemma LoadedKeeps(s: State, outcome: Option<Frame>, now: int)
    requires Inv(s) && s.jobs != [] && s.jobs[0].loading
    ensures Inv(LoadedStep(s, outcome, now))
  {
    assert JobOk(s, 0);
    hide CacheOk, HasKey, JobsOk, AllOwned, OwnersApart, PromisesOk, CallersOk, JobOk, PendingOk, Remember;
    var command := s.jobs[0].command;
    if outcome.Some? {
      var t := Settle(s, Fulfilled(outcome.value));
      SettleKeeps(s, Fulfilled(outcome.value));
      RememberKeeps(s.cache, command, outcome.value, now);
      var cache := Remember(s.cache, command, outcome.value, now);
      CacheChanges(t, cache);
      assert LoadedStep(s, outcome, now) == t.(cache := cache);
    } else {
      SettleKeeps(s, Failed);
    }
  }

  /** An owner that goes on takes its own pending entry with it, and no other. */
  lemma ResumeKeeps(s: State, pid: nat)
    requires Inv(s) && CanResume(s, pid)
    ensures Inv(ResumeStep(s, pid))
  {
    var c := s.callers[pid];
    var t := ResumeStep(s, pid);
    assert CallerOk(s, c);
    hide CacheOk, HasKey, Serves, ForRequest;
    ResumeKeepsJobs(s, t, pid);
    ResumeKeepsOthers(s, t, pid);
    ResumeKeepsPending(s, t, pid);
  }

  /** What resuming changes. */
  ghost predicate Resumed(s: State, t: State, pid: nat)
    requires CanResume(s, pid)
  {
    var c := s.callers[pid];
    && t.pending == (if c.owner then s.pending - {c.command} else s.pending)
    && t.promises == s.promises && t.jobs == s.jobs && t.cache == s.cache && t.nextJob == s.nextJob
    && pid in t.callers && t.callers == s.callers[pid := t.callers[pid]] && t.callers[pid].Done?
  }

  lemma ResumeKeepsJobs(s: State, t: State, pid: nat)
    requires CanResume(s, pid) && Resumed(s, t, pid) && JobsOk(s)
    requires s.callers[pid].owner ==>
               s.callers[pid].command in s.pending && s.pending[s.callers[pid].command] == s.callers[pid].job
    ensures JobsOk(t)
  {
    hide HasKey;
    forall i | 0 <= i < |t.jobs| ensures JobOk(t, i) {
      assert JobOk(s, i);
    }
  }

  lemma ResumeKeepsOthers(s: State, t: State, pid: nat)
    requires CanResume(s, pid) && Resumed(s, t, pid) && CallersOk(s) && OwnersApart(s)
    requires CallerOk(t, t.callers[pid])
    ensures CallersOk(t) && OwnersApart(t)
  {
    hide Serves;
    forall p | p in t.callers && p != pid ensures CallerOk(t, t.callers[p]) {
      assert CallerOk(s, s.callers[p]);
      assert CallerOk(s, s.callers[pid]);
      CallerStable(s, t, s.callers[p]);
    }
  }

  lemma ResumeKeepsPending(s: State, t: State, pid: nat)
    requires CanResume(s, pid) && Resumed(s, t, pid) && PendingOk(s) && AllOwned(s)
    ensures PendingOk(t) && AllOwned(t)
  {
    assert t.pending.Keys <= s.pending.Keys;
    SmallerMap(t.pending, s.pending);
    forall key | key in t.pending ensures Owned(t, key) {
      assert Owned(s, key);
      var p :| p in s.callers && s.callers[p] == Waiting(key, s.pending[key], true);
      assert t.callers[p] == Waiting(key, t.pending[key], true);
    }
  }

  lemma SmallerMap(small: map<Command, nat>, large: map<Command, nat>)
    requires small.Keys <= large.Keys
    ensures |small| <= |large|
  {
    assert |small.Keys| + |large.Keys - small.Keys| == |large.Keys|;
  }

  // ----- whole runs -----

  lemma StepKeeps(s: State, step: Step)
    requires Inv(s)
    ensures Inv(Take(s, step))
  {
    hide Inv, SelectStep, StartStep, LoadedStep, ResumeStep;
    if Possible(s, step) {
      match step
      case SelectCall(pid, command, now, later) => SelectKeeps(s, pid, command, now, later);
      case StartHead(now, later) => StartKeeps(s, now, later);
      case LoadEnds(outcome, now) => LoadedKeeps(s, outcome, now);
      case Resume(pid) => ResumeKeeps(s, pid);
    }
  }

  lemma {:induction false} RunKeeps(s: State, steps: seq<Step>)
    requires Inv(s)
    ensures Inv(Run(s, steps))
    decreases steps
  {
    hide Inv, Take;
    if steps != [] {
      StepKeeps(s, steps[0]);
      RunKeeps(Take(s, steps[0]), steps[1..]);
    }
  }

  /** The cache stays within its bounds and its accounts always add up. */
  lemma CacheStaysBounded(steps: seq<Step>)
    ensures var c := Run(Empty(), steps).cache;
            c.bytes == SumBytes(c.entries) && c.bytes <= 4_194_304 && |c.entries| <= 8
            && KeysApart(c.entries)
  {
    RunKeeps(Empty(), steps);
  }

  /** At most one load runs, for a key the cache does not hold: what it ends with overwrites nothing. */
  lemma OneLoadForANewKey(steps: seq<Step>, i: nat)
    ensures var s := Run(Empty(), steps);
            i < |s.jobs| && s.jobs[i].loading ==> i == 0 && !HasKey(s.cache.entries, s.jobs[0].command)
  {
    RunKeeps(Empty(), steps);
    var s := Run(Empty(), steps);
    if i < |s.jobs| {
      assert JobOk(s, i);
    }
  }

  /** No two unsettled jobs are for one key. */
  lemma OneJobPerKey(steps: seq<Step>, i: nat, j: nat)
    ensures var s := Run(Empty(), steps);
            i < j < |s.jobs| ==> s.jobs[i].command != s.jobs[j].command
  {
    RunKeeps(Empty(), steps);
    var s := Run(Empty(), steps);
    if i < j < |s.jobs| {
      assert JobOk(s, i) && JobOk(s, j);
    }
  }

  function JobKeys(jobs: seq<Job>): set<Command> {
    set i | 0 <= i < |jobs| :: jobs[i].command
  }

  lemma {:induction false} DistinctJobs(jobs: seq<Job>)
    requires forall i, j :: 0 <= i < j < |jobs| ==> jobs[i].command != jobs[j].command
    ensures |JobKeys(jobs)| == |jobs|
  {
    if jobs != [] {
      var last := jobs[|jobs| - 1];
      var front := jobs[..|jobs| - 1];
      DistinctJobs(front);
      assert JobKeys(jobs) == JobKeys(front) + {last.command};
      assert last.command !in JobKeys(front);
    }
  }

  /** At most four jobs are unsettled, each still pending. */
  lemma FewJobs(steps: seq<Step>)
    ensures var s := Run(Empty(), steps); |s.jobs| <= |s.pending| <= 4
  {
    RunKeeps(Empty(), steps);
    var s := Run(Empty(), steps);
    forall i, j | 0 <= i < j < |s.jobs| ensures s.jobs[i].command != s.jobs[j].command {
      OneJobPerKey(steps, i, j);
    }
    DistinctJobs(s.jobs);
    forall i | 0 <= i < |s.jobs| ensures s.jobs[i].command in s.pending {
      assert JobOk(s, i);
    }
    var jobs := JobKeys(s.jobs);
    assert jobs <= s.pending.Keys;
    assert |jobs| + |s.pending.Keys - jobs| == |s.pending.Keys|;
  }

  /** A queue nobody waits on is empty: no failure or shortcut leaves a place taken. */
  lemma IdleQueueIsEmpty(steps: seq<Step>)
    requires forall pid :: pid in Run(Empty(), steps).callers ==> !Run(Empty(), steps).callers[pid].Waiting?
    ensures Run(Empty(), steps).pending == map[] && Run(Empty(), steps).jobs == []
  {
    RunKeeps(Empty(), steps);
    var s := Run(Empty(), steps);
    assert s.pending.Keys == {};
    FewJobs(steps);
  }
}
