/** What the server can do from any state it can reach: that an eviction happens when it is due and only
    then, that an unload disposes of the worker, and that a handler can always have its work done. The
    invariant says what never happens; these say what the steps are for. */
module ServerProgress {
  import opened Wrappers
  import opened WorkerProcess
  import opened ServerProtocol

  /** The state a list of steps leads to from s. */
  ghost function After(s: State, steps: seq<Step>): (t: Option<State>)
    requires Inv(s)
    ensures t.Some? ==> Inv(t.value)
    decreases |steps|
  {
    if steps == [] then Some(s)
    else
      NextKeepsInv(s, steps[0]);
      match Next(s, steps[0])
      case None => None
      case Some(t) => After(t, steps[1..])
  }

  lemma AfterFirst(s: State, step: Step, rest: seq<Step>)
    requires Inv(s) && Next(s, step).Some?
    ensures Inv(Next(s, step).value)
    ensures After(s, [step] + rest) == After(Next(s, step).value, rest)
    ensures After(s, [step]) == Next(s, step)
  {
    NextKeepsInv(s, step);
    assert ([step] + rest)[1..] == rest;
  }

  lemma {:induction false} AfterAll(s: State, steps: seq<Step>, more: seq<Step>)
    requires Inv(s) && After(s, steps).Some?
    ensures After(s, steps + more) == After(After(s, steps).value, more)
    decreases |steps|
  {
    hide Inv, Next;
    RecordExists(s);
    if steps == [] {
      assert steps + more == more;
    } else {
      NextKeepsInv(s, steps[0]);
      AfterAll(Next(s, steps[0]).value, steps[1..], more);
      assert (steps + more)[1..] == steps[1..] + more;
    }
  }

  lemma WorkEffect(s: State, p: int, act: Act)
    requires HandlesExist(s.rec, s.children) && p in s.children
    ensures Next(s, Work(p, act)) == Some(s.(children := s.children[p := Advance(s.children[p], act)]))
  {
  }

  lemma AcquireEffect(s: State, tid: int)
    requires HandlesExist(s.rec, s.children) && s.holder == None && tid in s.threads && s.threads[tid].Queued?
    ensures Next(s, Acquire(tid)) == Some(Acquired(s, tid, s.threads[tid].job))
  {
  }

  lemma RecordExists(s: State)
    requires Inv(s)
    ensures HandlesExist(s.rec, s.children) && s.rec.pid == s.rec.fd
  {
  }

  // ---------------------------------------------------------------------------------------
  // The watchdog and the unload
  // ---------------------------------------------------------------------------------------

  lemma WatchdogStarts(s: State)
    requires HandlesExist(s.rec, s.children) && s.holder == None
    ensures Next(s, WatchdogLock) == Some(s.(holder := Some(Holder(Watchdog, Checking))))
  {
  }

  lemma WatchdogDecides(s: State, expired: bool)
    requires HandlesExist(s.rec, s.children) && s.holder == Some(Holder(Watchdog, Checking))
    ensures Next(s, WatchdogCheck(expired)) ==
            Some(if s.inFlight == 0 && s.rec.pid.Some? && expired then MovedTo(s, Condemned).(newcomers := {})
                 else MovedTo(s, Finished))
  {
  }

  lemma WatchdogEnds(s: State)
    requires HandlesExist(s.rec, s.children) && s.holder.Some? && s.holder.value.who == Watchdog
    ensures s.holder.value.at == Condemned ==> Next(s, WatchdogKill) == Some(MovedTo(WorkerKilled(s), Finished))
    ensures s.holder.value.at == Finished ==> Next(s, Release) == Some(s.(holder := None))
  {
  }

  lemma FreeKnows(s: State)
    requires Inv(s) && s.holder == None
    ensures HandlesExist(s.rec, s.children) && s.rec.pid == s.rec.fd && s.inFlight == |GuardedThreads(s.threads)|
    ensures KilledChildren(s.rec, s.children) ==
              if s.rec.pid == None then s.children else s.children[s.rec.pid.value :=
                s.children[s.rec.pid.value].(phase := Gone, kills := 1, reaps := 1, closes := 1)]
  {
    if s.rec.pid.Some? {
      assert InUse(s, s.rec.pid.value) && Untouched(s.children[s.rec.pid.value]);
    }
  }

  /** The watchdog leaves everything as it is while its timer has not expired, a guard is alive or there is
      no worker. */
  lemma WatchdogStays(s: State, expired: bool)
    requires Reachable(s) && s.holder == None
    requires expired ==> GuardedThreads(s.threads) != {} || s.rec.pid == None
    ensures After(s, [WatchdogLock, WatchdogCheck(expired), Release]) == Some(s)
  {
    hide Inv, Next;
    FreeKnows(s);
    assert expired ==> s.inFlight != 0 || s.rec.pid == None;
    var looking := s.(holder := Some(Holder(Watchdog, Checking)));
    WatchdogStarts(s);
    AfterFirst(s, WatchdogLock, [WatchdogCheck(expired), Release]);
    WatchdogDecides(looking, expired);
    AfterFirst(looking, WatchdogCheck(expired), [Release]);
    WatchdogEnds(MovedTo(looking, Finished));
    AfterFirst(MovedTo(looking, Finished), Release, []);
  }

  /** Otherwise it disposes of the worker and disturbs nothing else. */
  lemma WatchdogEvicts(s: State)
    requires Reachable(s) && s.holder == None && GuardedThreads(s.threads) == {} && s.rec.pid.Some?
    ensures s.rec.pid.value in s.children
    ensures After(s, [WatchdogLock, WatchdogCheck(true), WatchdogKill, Release]) ==
              Some(s.(rec := s.rec.(pid := None, fd := None), newcomers := {},
                      children := s.children[s.rec.pid.value :=
                        s.children[s.rec.pid.value].(phase := Gone, kills := 1, reaps := 1, closes := 1)]))
  {
    hide Inv, Next, KilledChildren;
    FreeKnows(s);
    var looking := s.(holder := Some(Holder(Watchdog, Checking)));
    var condemned := MovedTo(looking, Condemned).(newcomers := {});
    var killed := MovedTo(WorkerKilled(condemned), Finished);
    WatchdogStarts(s);
    AfterFirst(s, WatchdogLock, [WatchdogCheck(true), WatchdogKill, Release]);
    WatchdogDecides(looking, true);
    AfterFirst(looking, WatchdogCheck(true), [WatchdogKill, Release]);
    WatchdogEnds(condemned);
    AfterFirst(condemned, WatchdogKill, [Release]);
    WatchdogEnds(killed);
    AfterFirst(killed, Release, []);
  }

  predicate Evicting(s: State) {
    s.holder.Some? && s.holder.value.at == Condemned
  }

  lemma EvictingStep(s: State, h: Holder, step: Step)
    requires HandlesExist(s.rec, s.children) && s.holder == Some(h)
    requires HolderNext(s, h, step).Some? && Evicting(HolderNext(s, h, step).value)
    ensures HolderNext(s, h, step).value.rec == s.rec
    ensures step == WatchdogCheck(true) && s.inFlight == 0 && s.rec.pid.Some?
  {
    hide WorkerKilled, Dismissed, Popped, Recorded, CountRequest;
  }

  lemma EvictingBefore(s: State, step: Step)
    requires HandlesExist(s.rec, s.children) && Next(s, step).Some? && Evicting(Next(s, step).value)
    ensures Next(s, step).value.rec == s.rec
    ensures Evicting(s) || (step == WatchdogCheck(true) && s.inFlight == 0 && s.rec.pid.Some?)
  {
    hide HolderNext;
    if s.holder.Some? && HolderNext(s, s.holder.value, step).Some? {
      if Evicting(HolderNext(s, s.holder.value, step).value) {
        EvictingStep(s, s.holder.value, step);
      }
    }
  }

  /** Whatever else has happened in the meantime, the watchdog that is about to evict has looked, with its
      timer expired and no guard alive, and found the worker that is still there. */
  lemma {:induction false} EvictionWasDue(backend: Backend, defaultGpu: string, steps: seq<Step>) returns (k: nat)
    requires Run(backend, defaultGpu, steps).Some? && Evicting(Run(backend, defaultGpu, steps).value)
    ensures k < |steps| && steps[k] == WatchdogCheck(true) && Run(backend, defaultGpu, steps[..k]).Some?
    ensures var s := Run(backend, defaultGpu, steps[..k]).value;
            && (forall t :: t in s.threads ==> !s.threads[t].job.Guarded())
            && s.rec.pid.Some? && s.rec == Run(backend, defaultGpu, steps).value.rec
  {
    hide Inv, Next;
    var n := |steps| - 1;
    var s := Run(backend, defaultGpu, steps[..n]).value;
    RecordExists(s);
    EvictingBefore(s, steps[n]);
    if Evicting(s) {
      k := EvictionWasDue(backend, defaultGpu, steps[..n]);
      assert steps[..n][..k] == steps[..k];
    } else {
      InFlightCountsGuards(s);
      k := n;
    }
  }

  lemma UnloadEffect(s: State, tid: int)
    requires HandlesExist(s.rec, s.children) && s.holder == Some(Holder(Handler(tid), Killing))
    requires tid in s.threads && s.threads[tid] == Inside(Unload)
    ensures Next(s, UnloadKill) == Some(MovedTo(WorkerKilled(s), Finished))
    ensures var t := MovedTo(WorkerKilled(s), Finished);
            HandlesExist(t.rec, t.children) &&
            Next(t, Release) == Some(t.(holder := None, threads := s.threads[tid := Leaving(Unload)]))
  {
  }

  /** An unload that gets the mutex disposes of the worker, if there is one, and changes nothing else. */
  lemma UnloadDisposes(s: State, tid: int)
    requires Reachable(s) && s.holder == None && tid in s.threads && s.threads[tid] == Queued(Unload)
    ensures s.rec.pid.Some? ==> s.rec.pid.value in s.children
    ensures After(s, [Acquire(tid), UnloadKill, Release]) ==
              Some(s.(rec := s.rec.(pid := None, fd := None), threads := s.threads[tid := Leaving(Unload)],
                      targets := s.targets + [""],
                      children := if s.rec.pid == None then s.children else s.children[s.rec.pid.value :=
                        s.children[s.rec.pid.value].(phase := Gone, kills := 1, reaps := 1, closes := 1)]))
  {
    hide Inv, Next, KilledChildren;
    FreeKnows(s);
    var inside := Acquired(s, tid, Unload);
    var killed := MovedTo(WorkerKilled(inside), Finished);
    AcquireEffect(s, tid);
    AfterFirst(s, Acquire(tid), [UnloadKill, Release]);
    UnloadEffect(inside, tid);
    AfterFirst(inside, UnloadKill, [Release]);
    AfterFirst(killed, Release, []);
    assert inside.threads[tid := Leaving(Unload)] == s.threads[tid := Leaving(Unload)];
  }

  // ---------------------------------------------------------------------------------------
  // The handlers can do their work
  // ---------------------------------------------------------------------------------------

  /** The recorded worker is there and waits for requests. */
  predicate Live(s: State) {
    s.rec.pid.Some? && s.rec.pid.value in s.children && s.children[s.rec.pid.value].phase == Ready
  }

  lemma WorkerKnown(s: State)
    requires Inv(s) && s.holder.Some? && s.holder.value.at.Serving? && Live(s)
    ensures var c, job := s.children[s.rec.pid.value], s.holder.value.at.job;
            c.inbox == [] && c.outbox == [] && c.backend == job.backend && c.gpu == s.rec.gpu
  {
  }

  lemma SuitsWhileServing(s: State)
    requires Inv(s) && s.holder.Some? && s.holder.value.at.Serving?
    ensures Suits(s, s.holder.value.at.job)
  {
  }

  /** A new worker can be brought up to its greeting. */
  lemma SpawnCanSucceed(s: State, job: Job) returns (steps: seq<Step>, t: State)
    requires Inv(s) && s.holder.Some? && s.holder.value.at == Spawning(job)
    ensures After(s, steps) == Some(t) && Inv(t) && Live(t)
    ensures t.holder == Some(s.holder.value.(at := Serving(job, Rounds(job))))
    ensures t == s.(rec := t.rec, children := t.children, holder := t.holder) && t.rec.nextGpu == s.rec.nextGpu
  {
    hide Inv, Next;
    var p := UpperBound(s.children.Keys);
    HolderKnows(s);
    var launched := Launched(s, job, p);
    var c := launched.children[p];
    var loaded := launched.(children := launched.children[p := Advance(c, LoadModels)]);
    t := Greeted(loaded, job, p).value;
    steps := [SpawnOk(p), Work(p, LoadModels), ReadGreeting];
    SpawnEffect(s, job, p);
    AfterFirst(s, SpawnOk(p), [Work(p, LoadModels), ReadGreeting]);
    WorkEffect(launched, p, LoadModels);
    AfterFirst(launched, Work(p, LoadModels), [ReadGreeting]);
    GreetingEffect(loaded, job, p);
    AfterFirst(loaded, ReadGreeting, []);
  }

  /** `ensure_worker_locked` can succeed unless the worker it would keep has died. */
  lemma EnsureCanSucceed(s: State, job: Job) returns (steps: seq<Step>, t: State)
    requires Inv(s) && s.holder.Some? && s.holder.value.at == Ensuring(job)
    requires Matches(s.rec, job.backend) ==> Live(s)
    ensures After(s, steps) == Some(t) && Inv(t) && Live(t)
    ensures t.holder == Some(s.holder.value.(at := Serving(job, Rounds(job))))
    ensures t == s.(rec := t.rec, children := t.children, holder := t.holder) && t.rec.nextGpu == s.rec.nextGpu
  {
    hide Inv, Next;
    HolderKnows(s);
    EnsureEffect(s, job);
    AfterFirst(s, Ensure, []);
    if Matches(s.rec, job.backend) {
      steps, t := [Ensure], MovedTo(s, Serving(job, Rounds(job)));
    } else {
      var spawning := MovedTo(WorkerKilled(s), Spawning(job));
      steps, t := SpawnCanSucceed(spawning, job);
      AfterFirst(s, Ensure, steps);
      steps := [Ensure] + steps;
    }
  }

  /** The worker's half of a round: it takes the request and answers it. */
  lemma WorkerCanAnswer(s: State, p: int, request: Frame) returns (t: State)
    requires Inv(s) && p in s.children && request.kind.Request?
    requires var c := s.children[p]; c.phase == Ready && c.inbox == [request] && c.outbox == []
    ensures var reply := Frame(Response(request.kind.family), request.reqId, request.origin);
            t == s.(children := s.children[p := s.children[p].(inbox := [], outbox := [reply])])
    ensures After(s, [Work(p, Take), Work(p, Reply)]) == Some(t) && Inv(t)
  {
    hide Inv, Next;
    RecordExists(s);
    var reply := Frame(Response(request.kind.family), request.reqId, request.origin);
    t := s.(children := s.children[p := s.children[p].(inbox := [], outbox := [reply])]);
    var taken := s.(children := s.children[p := s.children[p].(inbox := [], phase := Busy(request))]);
    assert Advance(s.children[p], Take) == taken.children[p];
    WorkEffect(s, p, Take);
    AfterFirst(s, Work(p, Take), [Work(p, Reply)]);
    RecordExists(taken);
    assert [] + [reply] == [reply];
    assert Advance(taken.children[p], Reply) == t.children[p];
    assert taken.children[p := t.children[p]] == t.children;
    WorkEffect(taken, p, Reply);
    AfterFirst(taken, Work(p, Reply), []);
  }

  /** A worker that is there can answer a request. */
  lemma RoundCanSucceed(s: State, job: Job, left: nat) returns (steps: seq<Step>, t: State)
    requires Inv(s) && s.holder.Some? && s.holder.value.at == Serving(job, left) && job.Serve? && left > 0 && Live(s)
    ensures After(s, steps) == Some(t) && Inv(t)
    ensures var reply := Frame(Response(job.family), s.rec.nextReqId, s.requests);
            var answer := Accepted(job, s.requests, reply, job.backend, s.rec.gpu, WantedGpu(s.rec));
            t == MovedTo(CountRequest(s), Serving(job, left - 1)).(accepted := s.accepted + [answer])
  {
    hide Inv, Next, After;
    RecordExists(s);
    WorkerKnown(s);
    var p := s.rec.fd.value;
    var c := s.children[p];
    var request := Frame(Request(job.family), s.rec.nextReqId, s.requests);
    SendEffect(s, job, left, p);
    var sent := MovedTo(Sent(s, p, request), Awaiting(job, left - 1, request));
    assert [] + [request] == [request];
    AfterFirst(s, SendOk, []);
    var answered := WorkerCanAnswer(sent, p, request);
    AfterAll(s, [SendOk], [Work(p, Take), Work(p, Reply)]);
    RecordExists(answered);
    ReadEffect(answered, job, left - 1, request, p);
    t := Read(answered, job, left - 1, request, p).value;
    AfterFirst(answered, ReadReply, []);
    steps := [SendOk] + [Work(p, Take), Work(p, Reply)];
    AfterAll(s, steps, [ReadReply]);
    steps := steps + [ReadReply];
    assert answered.children[p].outbox[1..] == [] && t.children[p] == c;
    assert t.children == s.children;
  }

  /** From s on, n requests of the job have been made and answered, by the recorded worker. */
  predicate Answered(s: State, t: State, job: Job, n: nat) {
    && job.Serve? && t.requests == s.requests + n && |t.accepted| == |s.accepted| + n && s.accepted <= t.accepted
    && forall i :: |s.accepted| <= i < |t.accepted| ==>
         var a := t.accepted[i];
         && a.job == job && a.origin == a.reply.origin == s.requests + i - |s.accepted|
         && a.reply.kind == Response(job.family) && a.backend == job.backend && a.gpu == s.rec.gpu
  }

  /** So can every round of a handler be. */
  lemma {:induction false} RoundsCanSucceed(s: State, job: Job, left: nat) returns (steps: seq<Step>, t: State)
    requires Inv(s) && s.holder.Some? && s.holder.value.at == Serving(job, left) && job.Serve? && Live(s)
    ensures After(s, steps) == Some(t) && Inv(t) && Answered(s, t, job, left)
    ensures t == MovedTo(s, Serving(job, 0)).(rec := t.rec, requests := t.requests, accepted := t.accepted)
    ensures t.rec == s.rec.(nextReqId := t.rec.nextReqId)
    decreases left
  {
    hide Inv, Next;
    if left == 0 {
      steps, t := [], s;
    } else {
      var first, mid := RoundCanSucceed(s, job, left);
      var rest;
      rest, t := RoundsCanSucceed(mid, job, left - 1);
      AfterAll(s, first, rest);
      steps := first + rest;
      assert t.accepted[|s.accepted|] == mid.accepted[|s.accepted|];
    }
  }

  lemma AnsweredAlike(s: State, t: State, s1: State, t1: State, job: Job, n: nat)
    requires Answered(s, t, job, n)
    requires s1.requests == s.requests && s1.accepted == s.accepted && s1.rec.gpu == s.rec.gpu
    requires t1.requests == t.requests && t1.accepted == t.accepted
    ensures Answered(s1, t1, job, n)
  {
  }

  lemma StopEffect(s: State, tid: int, job: Job)
    requires HandlesExist(s.rec, s.children) && s.holder == Some(Holder(Handler(tid), Serving(job, 0)))
    requires tid in s.threads && s.threads[tid] == Inside(job)
    ensures Next(s, StopServing) == Some(MovedTo(s, Finished))
    ensures Next(MovedTo(s, Finished), Release) ==
            Some(s.(holder := None, threads := s.threads[tid := Leaving(job)]))
  {
  }

  /** What a handler does with the mutex can succeed. */
  lemma WorkCanSucceed(s: State, job: Job) returns (steps: seq<Step>, t: State)
    requires Inv(s) && s.holder.Some? && s.holder.value.at == Ensuring(job)
    requires Matches(s.rec, job.backend) ==> Live(s)
    ensures After(s, steps) == Some(t) && Inv(t) && Live(t)
    ensures t.holder == Some(s.holder.value.(at := Serving(job, 0))) && t.threads == s.threads
    ensures t.rec.nextGpu == s.rec.nextGpu
    ensures job.Serve? ==> Answered(s.(rec := t.rec), t, job, job.count)
  {
    hide Inv, Next;
    steps, t := EnsureCanSucceed(s, job);
    if job.Serve? {
      var rounds, done := RoundsCanSucceed(t, job, job.count);
      AfterAll(s, steps, rounds);
      steps, t := steps + rounds, done;
    }
  }

  /** A handler that waits for a free mutex can get it, make all its requests and have them answered on the
      backend and the GPU it asked for, and let go of the mutex, unless the worker it would keep has died. */
  lemma HandlerCanSucceed(s: State, tid: int, job: Job) returns (steps: seq<Step>, t: State)
    requires Reachable(s) && s.holder == None && tid in s.threads && s.threads[tid] == Queued(job) && !job.Unload?
    requires Matches(TakeGpu(s.rec, TargetOf(job)), job.backend) ==> Live(s)
    ensures After(s, steps) == Some(t) && t.holder == None && t.threads == s.threads[tid := Leaving(job)]
    ensures Live(t) && t.rec.backend == job.backend && t.rec.gpu == WantedGpu(t.rec)
    ensures t.rec.nextGpu == if job.Serve? && job.target != "" then job.target else s.rec.nextGpu
    ensures job.Serve? ==> Answered(s.(rec := t.rec), t, job, job.count)
  {
    hide Inv, Next, Answered;
    RecordExists(s);
    AcquireEffect(s, tid);
    AfterFirst(s, Acquire(tid), []);
    var inside := Acquired(s, tid, job);
    var work, done := WorkCanSucceed(inside, job);
    AfterAll(s, [Acquire(tid)], work);
    steps := [Acquire(tid)] + work;
    RecordExists(done);
    SuitsWhileServing(done);
    StopEffect(done, tid, job);
    AfterFirst(done, StopServing, [Release]);
    AfterFirst(MovedTo(done, Finished), Release, []);
    AfterAll(s, steps, [StopServing, Release]);
    steps := steps + [StopServing, Release];
    t := done.(holder := None, threads := done.threads[tid := Leaving(job)]);
    if job.Serve? {
      AnsweredAlike(inside.(rec := done.rec), done, s.(rec := t.rec), t, job, job.count);
    }
  }
}
