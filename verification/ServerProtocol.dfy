/** The server side of src/server: request handlers, unloading, preloading and the idle watchdog,
    all sharing one mutex and one worker process, as a transition system. Every interleaving of
    threads, worker acts and crashes is a list of `Step`s. Time is left open: the watchdog may find
    its timer expired or not. */
module ServerProtocol {
  import opened Wrappers
  import opened WorkerProcess

  // ---------------------------------------------------------------------------------------
  // The fields of `ServerState` guarded by the mutex
  // ---------------------------------------------------------------------------------------

  /** `pid` and `fd` name a child by its key in `State.children`; None is -1. */
  datatype Record = Record(
    pid: Option<int>, fd: Option<int>, backend: Backend, gpu: string,
    nextGpu: string, defaultGpu: string, nextReqId: int)

  const REQ_ID_MODULUS := 0x1_0000_0000

  /** The GPU an `ensure_worker_locked` call asks for. */
  function WantedGpu(r: Record): string {
    if r.nextGpu == "" then r.defaultGpu else r.nextGpu
  }

  /** `take_request_gpu_locked`: an empty target leaves the previous one in place. */
  function TakeGpu(r: Record, target: string): Record {
    if target == "" then r else r.(nextGpu := target)
  }

  predicate Matches(r: Record, backend: Backend) {
    r.pid.Some? && r.backend == backend && r.gpu == WantedGpu(r)
  }

  /** SIGKILL and waitpid on one process. */
  function KilledAndReaped(children: map<int, Child>, p: int): map<int, Child>
    requires p in children
  {
    children[p := children[p].(phase := Gone, kills := children[p].kills + 1, reaps := children[p].reaps + 1)]
  }

  function Closed(children: map<int, Child>, p: int): map<int, Child>
    requires p in children
  {
    children[p := children[p].(closes := children[p].closes + 1)]
  }

  predicate HandlesExist(r: Record, children: map<int, Child>) {
    (r.pid.Some? ==> r.pid.value in children) && (r.fd.Some? ==> r.fd.value in children)
  }

  /** `kill_worker_locked`: the record it leaves. */
  function KilledRecord(r: Record): Record {
    r.(pid := None, fd := None)
  }

  /** `kill_worker_locked`: what it does to the processes. */
  function KilledChildren(r: Record, children: map<int, Child>): map<int, Child>
    requires HandlesExist(r, children)
  {
    var reaped := if r.pid.Some? then KilledAndReaped(children, r.pid.value) else children;
    if r.fd.Some? then Closed(reaped, r.fd.value) else reaped
  }

  // ---------------------------------------------------------------------------------------
  // Threads
  // ---------------------------------------------------------------------------------------

  /** A handler's work: `Serve` is a request handler making up to `count` round trips under one
      lock, with an `InFlightGuard`; `Load` and `Unload` are the admin handlers, without one. */
  datatype Job =
    | Serve(backend: Backend, target: string, family: Family, count: nat)
    | Load(backend: Backend)
    | Unload
  {
    predicate Guarded() {
      Serve?
    }
  }

  datatype Outer = Queued(job: Job) | Inside(job: Job) | Leaving(job: Job)

  datatype Who = Handler(tid: int) | Watchdog

  /** Where the holder of the mutex stands. */
  datatype At =
    | Ensuring(job: Job)
    | Spawning(job: Job)
    | Greeting(job: Job, child: int)
    | Serving(job: Job, left: nat)
    | Awaiting(job: Job, left: nat, request: Frame)
    | Killing
    | Checking
    | Condemned
    | Finished

  datatype Holder = Holder(who: Who, at: At)

  /** A reply handed to a handler: the request it was taken for, and who produced it. */
  datatype Accepted = Accepted(job: Job, origin: int, reply: Frame, backend: Backend, gpu: string, wanted: string)

  datatype State = State(
    rec: Record,
    children: map<int, Child>,
    holder: Option<Holder>,
    threads: map<int, Outer>,
    inFlight: int,
    newcomers: set<int>,          // handlers that entered since the watchdog last checked
    requests: nat,            // requests sent so far
    accepted: seq<Accepted>,
    targets: seq<string>)     // every target taken so far

  datatype Step =
    | Enter(tid: int, job: Job)
    | Abandon(tid: int)
    | Acquire(tid: int)
    | Ensure
    | SpawnOk(pid: int)
    | SpawnFail
    | ReadGreeting
    | SendOk
    | SendFail
    | ReadReply
    | ReadFail
    | RejectReply
    | StopServing
    | UnloadKill
    | WatchdogLock
    | WatchdogCheck(expired: bool)
    | WatchdogKill
    | Release
    | Leave(tid: int)
    | Work(pid: int, act: Act)

  function Init(backend: Backend, defaultGpu: string): State {
    State(Record(None, None, backend, "", "", defaultGpu, 1), map[], None, map[], 0, {}, 0, [], [])
  }

  function MovedTo(s: State, at: At): State
    requires s.holder.Some?
  {
    s.(holder := Some(s.holder.value.(at := at)))
  }

  function WorkerKilled(s: State): State
    requires HandlesExist(s.rec, s.children)
  {
    s.(rec := KilledRecord(s.rec), children := KilledChildren(s.rec, s.children))
  }

  function Rounds(job: Job): nat {
    if job.Serve? then job.count else 0
  }

  /** The value of `next_req_id` after n requests. */
  function ReqIdOf(n: int): int {
    (n + 1) % REQ_ID_MODULUS
  }

  /** The GPU a handler names; "" if it names none. */
  function TargetOf(job: Job): string {
    match job
    case Serve(_, target, _, _) => target
    case Load(_) => ""
    case Unload => ""
  }

  function Acquired(s: State, tid: int, job: Job): State {
    var at := match job
      case Serve(_, _, _, _) => Ensuring(job)
      case Load(_) => Ensuring(job)
      case Unload => Killing;
    var target := TargetOf(job);
    s.(holder := Some(Holder(Handler(tid), at)),
       threads := s.threads[tid := Inside(job)],
       rec := TakeGpu(s.rec, target),
       targets := s.targets + [target])
  }

  function CountRequest(s: State): State {
    s.(requests := s.requests + 1, rec := s.rec.(nextReqId := (s.rec.nextReqId + 1) % REQ_ID_MODULUS))
  }

  /** A child that did not become the worker is killed, reaped and closed. */
  function Dismissed(s: State, p: int): State
    requires p in s.children
  {
    s.(children := Closed(KilledAndReaped(s.children, p), p))
  }

  /** The server has read the first frame of child p's queue. */
  function Popped(s: State, p: int): State
    requires p in s.children && s.children[p].outbox != []
  {
    s.(children := s.children[p := s.children[p].(outbox := s.children[p].outbox[1..])])
  }

  /** The end of `ensure_worker_locked`: the first frame must be HELLO. */
  function Greeted(s: State, job: Job, p: int): Option<State>
    requires s.holder.Some? && p in s.children && !job.Unload?
  {
    var c := s.children[p];
    if c.outbox == [] then
      if c.phase == Gone then Some(MovedTo(Dismissed(s, p), Finished)) else None
    else if c.outbox[0].kind == Hello then
      Some(MovedTo(Popped(s, p).(rec := s.rec.(pid := Some(p), fd := Some(p), backend := job.backend)),
                   Serving(job, Rounds(job))))
    else
      Some(MovedTo(Dismissed(Popped(s, p), p), Finished))
  }

  function Recorded(s: State, job: Job, origin: int, reply: Frame, c: Child): State {
    s.(accepted := s.accepted + [Accepted(job, origin, reply, c.backend, c.gpu, WantedGpu(s.rec))])
  }

  /** The receiving half of `request_locked`. */
  function Read(s: State, job: Job, left: nat, request: Frame, p: int): Option<State>
    requires s.holder.Some? && HandlesExist(s.rec, s.children) && s.rec.fd == Some(p) && job.Serve?
  {
    var c := s.children[p];
    if c.outbox == [] then
      if c.phase == Gone then Some(MovedTo(WorkerKilled(s), Finished)) else None
    else
      var reply := c.outbox[0];
      if reply.kind == Err then Some(MovedTo(Popped(s, p), Finished))
      else if reply.kind != Response(job.family) then Some(MovedTo(WorkerKilled(Popped(s, p)), Finished))
      else Some(MovedTo(Recorded(Popped(s, p), job, request.origin, reply, c), Serving(job, left)))
  }

  /** The steps of whoever holds the mutex. */
  function HolderNext(s: State, h: Holder, step: Step): Option<State>
    requires HandlesExist(s.rec, s.children) && s.holder == Some(h)
  {
    match (h.at, step)
    case (Ensuring(job), Ensure) =>
      if job.Unload? then None
      else if Matches(s.rec, job.backend)
      then Some(MovedTo(s, Serving(job, Rounds(job))))
      else if s.rec.pid.Some? then Some(MovedTo(WorkerKilled(s), Spawning(job)))
      else Some(MovedTo(s, Spawning(job)))
    case (Spawning(job), SpawnOk(pid)) =>
      if pid in s.children || job.Unload? then None
      else
        var want := WantedGpu(s.rec);
        Some(MovedTo(s.(rec := s.rec.(gpu := want), children := s.children[pid := Spawned(job.backend, want)]),
                 Greeting(job, pid)))
    case (Spawning(job), SpawnFail) =>
      Some(MovedTo(s.(rec := s.rec.(gpu := WantedGpu(s.rec))), Finished))
    case (Greeting(job, pid), ReadGreeting) =>
      if pid !in s.children || job.Unload? then None else Greeted(s, job, pid)
    case (Serving(job, left), SendOk) =>
      if left == 0 || !job.Serve? || s.rec.fd == None then None
      else
        var request := Frame(Request(job.family), s.rec.nextReqId, s.requests);
        var c := s.children[s.rec.fd.value];
        Some(MovedTo(CountRequest(s).(children := s.children[s.rec.fd.value := c.(inbox := c.inbox + [request])]),
                 Awaiting(job, left - 1, request)))
    case (Serving(job, left), SendFail) =>
      if left == 0 || !job.Serve? then None else Some(MovedTo(WorkerKilled(CountRequest(s)), Finished))
    case (Awaiting(job, left, request), ReadReply) =>
      if s.rec.fd == None || !job.Serve? then None else Read(s, job, left, request, s.rec.fd.value)
    case (Greeting(job, pid), ReadFail) =>
      if pid !in s.children then None else Some(MovedTo(Dismissed(s, pid), Finished))
    case (Awaiting(job, left, request), ReadFail) => Some(MovedTo(WorkerKilled(s), Finished))
    case (Serving(job, left), RejectReply) => Some(MovedTo(WorkerKilled(s), Finished))
    case (Serving(job, left), StopServing) => Some(MovedTo(s, Finished))
    case (Killing, UnloadKill) => Some(MovedTo(WorkerKilled(s), Finished))
    case (Checking, WatchdogCheck(expired)) =>
      if s.inFlight == 0 && s.rec.pid.Some? && expired then Some(MovedTo(s, Condemned).(newcomers := {}))
      else Some(MovedTo(s, Finished))
    case (Condemned, WatchdogKill) => Some(MovedTo(WorkerKilled(s), Finished))
    case (Finished, Release) =>
      if h.who.Handler? && (h.who.tid !in s.threads || !s.threads[h.who.tid].Inside?) then None
      else
        Some(s.(holder := None,
                threads := if h.who.Watchdog? then s.threads
                           else s.threads[h.who.tid := Leaving(s.threads[h.who.tid].job)]))
    case _ => None
  }

  /** The effect of one step, or None when it is not possible. */
  function Next(s: State, step: Step): Option<State>
    requires HandlesExist(s.rec, s.children)
  {
    match step
    case Enter(tid, job) =>
      if tid in s.threads then None
      else Some(s.(threads := s.threads[tid := Queued(job)],
                   inFlight := if job.Guarded() then s.inFlight + 1 else s.inFlight,
                   newcomers := s.newcomers + {tid}))
    case Abandon(tid) =>
      if tid in s.threads && s.threads[tid].Queued?
      then Some(s.(threads := s.threads[tid := Leaving(s.threads[tid].job)])) else None
    case Acquire(tid) =>
      if tid in s.threads && s.threads[tid].Queued? && s.holder == None
      then Some(Acquired(s, tid, s.threads[tid].job)) else None
    case Leave(tid) =>
      if tid in s.threads && s.threads[tid].Leaving?
      then Some(s.(threads := s.threads - {tid},
                   inFlight := if s.threads[tid].job.Guarded() then s.inFlight - 1 else s.inFlight,
                   newcomers := s.newcomers - {tid}))
      else None
    case WatchdogLock =>
      if s.holder == None then Some(s.(holder := Some(Holder(Watchdog, Checking)))) else None
    case Work(pid, act) =>
      if pid in s.children then Some(s.(children := s.children[pid := Advance(s.children[pid], act)])) else None
    case _ =>
      if s.holder.Some? then HolderNext(s, s.holder.value, step) else None
  }

  // ---------------------------------------------------------------------------------------
  // The invariant
  // ---------------------------------------------------------------------------------------

  /** Child p is the recorded worker, or the one a handler is greeting. */
  predicate InUse(s: State, p: int) {
    || s.rec.pid == Some(p)
    || (s.holder.Some? && s.holder.value.at.Greeting? && s.holder.value.at.child == p)
  }

  predicate Untouched(c: Child) {
    c.kills == 0 && c.reaps == 0 && c.closes == 0
  }

  /** Killed, reaped and closed, each exactly once. */
  predicate Disposed(c: Child) {
    c.phase == Gone && c.kills == 1 && c.reaps == 1 && c.closes == 1
  }

  ghost predicate ChildrenAccounted(s: State) {
    forall p :: p in s.children ==> if InUse(s, p) then Untouched(s.children[p]) else Disposed(s.children[p])
  }

  predicate RecordTrue(s: State) {
    && s.rec.pid == s.rec.fd
    && (s.rec.pid.Some? ==>
          && s.rec.pid.value in s.children
          && s.children[s.rec.pid.value].backend == s.rec.backend
          && s.children[s.rec.pid.value].gpu == s.rec.gpu)
    && s.rec.nextReqId == ReqIdOf(s.requests)
  }

  predicate WorkerQuiet(s: State) {
    s.rec.pid.Some? ==> s.rec.pid.value in s.children && Quiet(s.children[s.rec.pid.value])
  }

  /** The recorded worker is the one the job asked for. */
  predicate Suits(s: State, job: Job) {
    !job.Unload? && Matches(s.rec, job.backend)
  }

  /** What the holder of the mutex may rely on. */
  predicate HolderSound(s: State, at: At) {
    match at
    case Spawning(job) => s.rec.pid == None && !job.Unload?
    case Greeting(job, p) =>
      && s.rec.pid == None && !job.Unload? && p in s.children && Starting(s.children[p])
      && s.children[p].backend == job.backend && s.children[p].gpu == s.rec.gpu == WantedGpu(s.rec)
    case Serving(job, _) => Suits(s, job) && WorkerQuiet(s)
    case Awaiting(job, _, request) =>
      && Suits(s, job) && job.Serve? && request.kind == Request(job.family)
      && 0 <= request.origin < s.requests && request.reqId == ReqIdOf(request.origin)
      && s.rec.pid.value in s.children && Carrying(s.children[s.rec.pid.value], request)
    case Ensuring(job) => WorkerQuiet(s) && !job.Unload?
    case _ => WorkerQuiet(s)
  }

  predicate MutexSound(s: State) {
    if s.holder == None then WorkerQuiet(s) else HolderSound(s, s.holder.value.at)
  }

  /** A reply taken for a request carries that request's number and was made for it, by a worker on
      the backend and GPU its handler wanted. */
  predicate OwnReply(a: Accepted, requests: nat) {
    && a.job.Serve? && 0 <= a.origin < requests
    && a.reply.origin == a.origin && a.reply.reqId == ReqIdOf(a.origin)
    && a.reply.kind == Response(a.job.family)
    && a.backend == a.job.backend && a.gpu == a.wanted
    && (a.job.target != "" ==> a.wanted == a.job.target)
  }

  predicate RepliesOwn(s: State) {
    forall i :: 0 <= i < |s.accepted| ==> OwnReply(s.accepted[i], s.requests)
  }

  /** Handlers whose `InFlightGuard` is alive. */
  function GuardedThreads(threads: map<int, Outer>): set<int> {
    set t | t in threads && threads[t].job.Guarded()
  }

  /** The holder of the mutex stands where its own job can take it. */
  predicate HolderKnown(h: Holder, threads: map<int, Outer>) {
    match h.who
    case Watchdog => h.at.Checking? || h.at.Condemned? || h.at.Finished?
    case Handler(t) =>
      && t in threads && threads[t].Inside?
      && match h.at
         case Ensuring(job) => threads[t].job == job
         case Spawning(job) => threads[t].job == job
         case Greeting(job, _) => threads[t].job == job
         case Serving(job, _) => threads[t].job == job
         case Awaiting(job, _, _) => threads[t].job == job
         case Killing => threads[t].job == Unload
         case Finished => true
         case _ => false
  }

  /** Exactly the handler that holds the mutex is inside. */
  ghost predicate ThreadsSound(s: State) {
    && (forall t :: t in s.threads && s.threads[t].Inside? ==>
          s.holder.Some? && s.holder.value.who == Handler(t))
    && (s.holder.Some? ==> HolderKnown(s.holder.value, s.threads))
    && s.inFlight == |GuardedThreads(s.threads)|
  }

  /** Once the watchdog has decided to evict, every live guard is newer than that decision. */
  ghost predicate EvictionFair(s: State) {
    s.holder.Some? && s.holder.value.at == Condemned ==> GuardedThreads(s.threads) <= s.newcomers
  }

  /** While a handler is inside, the GPU its request names is the one to be used. */
  predicate TargetTaken(s: State) {
    s.holder.Some? && s.holder.value.who.Handler? && s.holder.value.who.tid in s.threads ==>
      var job := s.threads[s.holder.value.who.tid].job;
      job.Serve? && job.target != "" ==> s.rec.nextGpu == job.target
  }

  /** An unload that is through has left no worker. */
  predicate UnloadDone(s: State) {
    s.holder.Some? && s.holder.value.who.Handler? && s.holder.value.who.tid in s.threads ==>
      s.threads[s.holder.value.who.tid].job.Unload? && s.holder.value.at.Finished? ==> s.rec.pid == None
  }

  function LastTarget(targets: seq<string>): string {
    if targets == [] then ""
    else if targets[|targets| - 1] != "" then targets[|targets| - 1]
    else LastTarget(targets[..|targets| - 1])
  }

  ghost predicate Inv(s: State) {
    && RecordTrue(s) && ChildrenAccounted(s) && MutexSound(s) && RepliesOwn(s)
    && ThreadsSound(s) && EvictionFair(s) && TargetTaken(s) && UnloadDone(s) && s.rec.nextGpu == LastTarget(s.targets)
  }

  lemma InvInit(backend: Backend, defaultGpu: string)
    ensures Inv(Init(backend, defaultGpu))
  {
  }

  // ---------------------------------------------------------------------------------------
  // Every step keeps it
  // ---------------------------------------------------------------------------------------

  lemma {:induction false} WorkKeepsInv(s: State, pid: int, act: Act)
    requires Inv(s) && pid in s.children
    ensures Inv(Next(s, Work(pid, act)).value)
  {
    AdvanceKeeps(s.children[pid], act);
  }

  lemma GuardAdded(threads: map<int, Outer>, tid: int, job: Job)
    requires tid !in threads
    ensures var after := GuardedThreads(threads[tid := Queued(job)]);
            && after <= GuardedThreads(threads) + {tid}
            && |after| == |GuardedThreads(threads)| + if job.Guarded() then 1 else 0
  {
    var before, after := GuardedThreads(threads), GuardedThreads(threads[tid := Queued(job)]);
    if job.Guarded() {
      assert after == before + {tid};
    } else {
      assert after == before;
    }
  }

  lemma {:induction false} EnterKeepsInv(s: State, tid: int, job: Job)
    requires Inv(s)
    ensures var t := Next(s, Enter(tid, job)); t.Some? ==> Inv(t.value)
  {
    if tid !in s.threads {
      GuardAdded(s.threads, tid, job);
    }
  }

  lemma {:induction false} AbandonKeepsInv(s: State, tid: int)
    requires Inv(s)
    ensures var t := Next(s, Abandon(tid)); t.Some? ==> Inv(t.value)
  {
    if tid in s.threads {
      assert GuardedThreads(s.threads[tid := Leaving(s.threads[tid].job)]) == GuardedThreads(s.threads);
    }
  }

  lemma {:induction false} AcquireKeepsInv(s: State, tid: int)
    requires Inv(s)
    ensures var t := Next(s, Acquire(tid)); t.Some? ==> Inv(t.value)
  {
    if tid in s.threads {
      var job := s.threads[tid].job;
      assert GuardedThreads(s.threads[tid := Inside(job)]) == GuardedThreads(s.threads);
      assert (s.targets + [TargetOf(job)])[..|s.targets|] == s.targets;
    }
  }

  lemma {:induction false} LeaveKeepsInv(s: State, tid: int)
    requires Inv(s)
    ensures var t := Next(s, Leave(tid)); t.Some? ==> Inv(t.value)
  {
    assert GuardedThreads(s.threads - {tid}) == GuardedThreads(s.threads) - {tid};
  }

  /** `kill_worker_locked` disposes of the recorded worker and of nothing else. */
  lemma {:induction false} KillKeeps(s: State, at: At)
    requires Inv(s) && s.holder.Some? && !s.holder.value.at.Greeting?
    requires at == Finished || (s.holder.value.at.Ensuring? && at == Spawning(s.holder.value.at.job))
    ensures Inv(MovedTo(WorkerKilled(s), at))
  {
  }

  lemma {:induction false} EnsureKeepsInv(s: State, step: Step)
    requires Inv(s) && s.holder.Some?
    requires step.Ensure? || step.SpawnOk? || step.SpawnFail?
    ensures Next(s, step).Some? ==> Inv(Next(s, step).value)
  {
    if s.holder.value.at.Ensuring? && step.Ensure? {
      KillKeeps(s, Spawning(s.holder.value.at.job));
    }
  }

  lemma {:induction false} WelcomeKeeps(s: State, job: Job, p: int)
    requires Inv(s) && s.holder.Some? && s.holder.value.at == Greeting(job, p)
    requires p in s.children && s.children[p].outbox != [] && s.children[p].outbox[0].kind == Hello
    ensures Next(s, ReadGreeting).Some? && Inv(Next(s, ReadGreeting).value)
  {
  }

  lemma {:induction false} DismissKeeps(s: State, p: int, rest: seq<Frame>)
    requires Inv(s) && s.holder.Some? && s.holder.value.at.Greeting? && s.holder.value.at.child == p
    requires p in s.children
    ensures Inv(MovedTo(Dismissed(s.(children := s.children[p := s.children[p].(outbox := rest)]), p), Finished))
    ensures rest == s.children[p].outbox ==> s.(children := s.children[p := s.children[p].(outbox := rest)]) == s
  {
    if rest == s.children[p].outbox {
      assert s.children[p := s.children[p].(outbox := rest)] == s.children;
    }
  }

  lemma {:induction false} GreetingKeepsInv(s: State)
    requires Inv(s) && s.holder.Some?
    ensures Next(s, ReadGreeting).Some? ==> Inv(Next(s, ReadGreeting).value)
  {
    if s.holder.value.at.Greeting? {
      var job, p := s.holder.value.at.job, s.holder.value.at.child;
      var c := s.children[p];
      if c.outbox == [] {
        DismissKeeps(s, p, c.outbox);
      } else if c.outbox[0].kind == Hello {
        WelcomeKeeps(s, job, p);
      } else {
        DismissKeeps(s, p, c.outbox[1..]);
      }
    }
  }

  lemma NextReqId(n: nat)
    ensures (ReqIdOf(n) + 1) % REQ_ID_MODULUS == ReqIdOf(n + 1)
  {
  }

  lemma {:induction false} SendKeepsInv(s: State)
    requires Inv(s) && s.holder.Some?
    ensures Next(s, SendOk).Some? ==> Inv(Next(s, SendOk).value)
  {
    NextReqId(s.requests);
  }

  lemma {:induction false} SendFailKeepsInv(s: State)
    requires Inv(s) && s.holder.Some?
    ensures Next(s, SendFail).Some? ==> Inv(Next(s, SendFail).value)
  {
    NextReqId(s.requests);
    if s.holder.value.at.Serving? {
      KillKeeps(CountRequest(s), Finished);
    }
  }

  lemma {:induction false} AwaitingKnows(s: State)
    requires Inv(s) && s.holder.Some? && s.holder.value.at.Awaiting?
    ensures HandlesExist(s.rec, s.children) && s.rec.fd.Some? && s.rec.pid == s.rec.fd
    ensures s.holder.value.at.job.Serve?
  {
  }

  lemma {:induction false} ReadEffect(s: State, job: Job, left: nat, request: Frame, p: int)
    requires s.holder.Some? && s.holder.value.at == Awaiting(job, left, request)
    requires HandlesExist(s.rec, s.children) && s.rec.fd == Some(p) && job.Serve?
    ensures Next(s, ReadReply) == Read(s, job, left, request, p)
  {
  }

  /** Taking the worker's one reply leaves it quiet. */
  lemma {:induction false} PopKeeps(s: State, p: int)
    requires Inv(s) && s.holder.Some? && s.holder.value.at.Awaiting? && s.rec.fd == Some(p)
    requires s.children[p].outbox != []
    ensures Answers(s.children[p].outbox[0], s.holder.value.at.request)
    ensures Inv(MovedTo(Popped(s, p), Finished)) && Quiet(Popped(s, p).children[p])
  {
  }

  /** So does taking a reply that is handed to the handler. */
  lemma {:induction false} AcceptKeeps(s: State, p: int)
    requires Inv(s) && s.holder.Some? && s.holder.value.at.Awaiting? && s.rec.fd == Some(p)
    requires s.children[p].outbox != []
    ensures var at, c := s.holder.value.at, s.children[p];
            c.outbox[0].kind == Response(at.job.family) ==>
              Inv(MovedTo(Recorded(Popped(s, p), at.job, at.request.origin, c.outbox[0], c), Serving(at.job, at.left)))
  {
  }

  lemma {:induction false} ReadKeepsInv(s: State)
    requires Inv(s) && s.holder.Some?
    ensures Next(s, ReadReply).Some? ==> Inv(Next(s, ReadReply).value)
  {
    if s.holder.value.at.Awaiting? {
      AwaitingKnows(s);
      var at, p := s.holder.value.at, s.rec.fd.value;
      ReadEffect(s, at.job, at.left, at.request, p);
      hide Inv, Next, HolderNext, Read, WorkerKilled, Popped, Recorded;
      if s.children[p].outbox == [] {
        KillKeeps(s, Finished);
      } else {
        PopKeeps(s, p);
        AcceptKeeps(s, p);
      }
    }
  }

  lemma {:induction false} ReadFailEffect(s: State)
    requires HandlesExist(s.rec, s.children) && s.holder.Some?
    ensures Next(s, ReadFail) ==
      match s.holder.value.at
      case Greeting(_, p) => if p in s.children then Some(MovedTo(Dismissed(s, p), Finished)) else None
      case Awaiting(_, _, _) => Some(MovedTo(WorkerKilled(s), Finished))
      case _ => None
  {
  }

  /** `recv_frame` failing, whatever the worker does. */
  lemma {:induction false} ReadFailKeepsInv(s: State)
    requires Inv(s) && s.holder.Some?
    ensures Next(s, ReadFail).Some? ==> Inv(Next(s, ReadFail).value)
  {
    ReadFailEffect(s);
    hide Inv, Next, HolderNext, WorkerKilled, Dismissed;
    if s.holder.value.at.Greeting? && s.holder.value.at.child in s.children {
      var p := s.holder.value.at.child;
      DismissKeeps(s, p, s.children[p].outbox);
    } else if s.holder.value.at.Awaiting? {
      KillKeeps(s, Finished);
    }
  }

  lemma {:induction false} KillEffect(s: State, step: Step)
    requires HandlesExist(s.rec, s.children) && s.holder.Some?
    requires step.RejectReply? || step.UnloadKill? || step.WatchdogKill?
    ensures Next(s, step).Some? ==>
              Next(s, step).value == MovedTo(WorkerKilled(s), Finished) && !s.holder.value.at.Greeting?
  {
  }

  lemma {:induction false} KillStepKeepsInv(s: State, step: Step)
    requires Inv(s) && s.holder.Some?
    requires step.RejectReply? || step.UnloadKill? || step.WatchdogKill?
    ensures Next(s, step).Some? ==> Inv(Next(s, step).value)
  {
    KillEffect(s, step);
    hide Inv, Next, HolderNext, WorkerKilled;
    if !s.holder.value.at.Greeting? {
      KillKeeps(s, Finished);
    }
  }

  lemma {:induction false} CheckKeepsInv(s: State, expired: bool)
    requires Inv(s) && s.holder.Some?
    ensures Next(s, WatchdogCheck(expired)).Some? ==> Inv(Next(s, WatchdogCheck(expired)).value)
  {
    assert s.inFlight == 0 ==> GuardedThreads(s.threads) == {};
  }

  lemma {:induction false} ReleaseKeepsInv(s: State)
    requires Inv(s) && s.holder.Some?
    ensures Next(s, Release).Some? ==> Inv(Next(s, Release).value)
  {
    if s.holder.value.who.Handler? {
      var tid := s.holder.value.who.tid;
      assert GuardedThreads(s.threads[tid := Leaving(s.threads[tid].job)]) == GuardedThreads(s.threads);
    }
  }

  lemma {:induction false} HolderStepKeepsInv(s: State, step: Step)
    requires Inv(s) && s.holder.Some?
    requires !step.Enter? && !step.Abandon? && !step.Acquire? && !step.Leave? && !step.WatchdogLock? && !step.Work?
    ensures Next(s, step).Some? ==> Inv(Next(s, step).value)
  {
    match step
    case Ensure => EnsureKeepsInv(s, step);
    case SpawnOk(_) => EnsureKeepsInv(s, step);
    case SpawnFail => EnsureKeepsInv(s, step);
    case ReadGreeting => GreetingKeepsInv(s);
    case SendOk => SendKeepsInv(s);
    case SendFail => SendFailKeepsInv(s);
    case ReadReply => ReadKeepsInv(s);
    case ReadFail => ReadFailKeepsInv(s);
    case WatchdogCheck(expired) => CheckKeepsInv(s, expired);
    case Release => ReleaseKeepsInv(s);
    case StopServing =>
    case _ => KillStepKeepsInv(s, step);
  }

  /** Every step of every thread, worker act or crash keeps the invariant. */
  lemma {:induction false} NextKeepsInv(s: State, step: Step)
    requires Inv(s)
    ensures Next(s, step).Some? ==> Inv(Next(s, step).value)
  {
    match step
    case Enter(tid, job) => EnterKeepsInv(s, tid, job);
    case Abandon(tid) => AbandonKeepsInv(s, tid);
    case Acquire(tid) => AcquireKeepsInv(s, tid);
    case Leave(tid) => LeaveKeepsInv(s, tid);
    case WatchdogLock =>
    case Work(pid, act) =>
      if pid in s.children {
        WorkKeepsInv(s, pid, act);
      }
    case _ =>
      if s.holder.Some? {
        HolderStepKeepsInv(s, step);
      }
  }

  // ---------------------------------------------------------------------------------------
  // Whole runs
  // ---------------------------------------------------------------------------------------

  /** The state after a list of steps, or None if one of them was not possible. */
  ghost function Run(backend: Backend, defaultGpu: string, steps: seq<Step>): (s: Option<State>)
    ensures s.Some? ==> Inv(s.value)
  {
    if steps == [] then
      InvInit(backend, defaultGpu);
      Some(Init(backend, defaultGpu))
    else
      var last := steps[|steps| - 1];
      match Run(backend, defaultGpu, steps[..|steps| - 1])
      case None => None
      case Some(s) =>
        NextKeepsInv(s, last);
        Next(s, last)
  }

  ghost predicate Reachable(s: State) {
    exists backend, defaultGpu, steps :: Run(backend, defaultGpu, steps) == Some(s)
  }

  /** Every reply any handler ever accepted was produced for the request it had sent, by a worker on
      the backend it had asked for and on the GPU it had named, although the request number is never
      compared. */
  lemma RepliesMatchRequests(s: State, i: nat)
    requires Reachable(s) && i < |s.accepted|
    ensures var a := s.accepted[i];
            && a.reply.origin == a.origin && a.reply.reqId == ReqIdOf(a.origin)
            && a.job.Serve? && a.reply.kind == Response(a.job.family)
            && a.backend == a.job.backend && a.gpu == a.wanted
            && (a.job.target != "" ==> a.gpu == a.job.target)
  {
  }

  /** What a handler finds in the queue while it waits is the answer to its own request, so the
      "unexpected worker response" branch of `request_locked` is never taken. */
  lemma NoUnexpectedReply(s: State)
    requires Reachable(s) && s.holder.Some? && s.holder.value.at.Awaiting?
    ensures s.rec.fd.Some? && s.rec.fd.value in s.children
    ensures var c := s.children[s.rec.fd.value];
            c.outbox != [] ==> |c.outbox| == 1 && Answers(c.outbox[0], s.holder.value.at.request)
  {
    assert Inv(s);
  }

  /** Request numbers start at 1 and repeat after 2^32 requests and not before, so they alone could not match
      a reply to its request. */
  lemma RequestNumbersRepeat(m: nat, n: nat)
    requires m <= n
    ensures ReqIdOf(0) == 1
    ensures ReqIdOf(m) == ReqIdOf(n) <==> (n - m) % 0x1_0000_0000 == 0
  {
  }

  /** Whenever the mutex is free, no worker is recorded or both its queues are empty. */
  lemma QuietWhenUnlocked(s: State)
    requires Reachable(s) && s.holder == None
    ensures s.rec.pid == s.rec.fd
    ensures s.rec.pid.Some? ==> s.rec.pid.value in s.children && Quiet(s.children[s.rec.pid.value])
  {
  }

  /** Whenever the mutex is free, every process ever spawned is the recorded worker, untouched, or
      has been killed, reaped and closed, each exactly once. */
  lemma NoProcessLost(s: State, p: int)
    requires Reachable(s) && s.holder == None && p in s.children
    ensures if s.rec.pid == Some(p) then Untouched(s.children[p]) else Disposed(s.children[p])
  {
  }

  /** `ensure_worker_locked` returns normally only into a state where the recorded worker exists, is
      quiet and runs on the backend and GPU that were asked for, which is the GPU the job names if it
      names one. */
  lemma EnsuredWorkerSuits(s: State, job: Job, left: nat)
    requires Reachable(s) && s.holder.Some? && s.holder.value.at == Serving(job, left)
    ensures s.rec.pid.Some? && s.rec.pid.value in s.children
    ensures var c := s.children[s.rec.pid.value];
            c.backend == s.rec.backend == job.backend && c.gpu == s.rec.gpu == WantedGpu(s.rec) && Quiet(c)
    ensures job.Serve? && job.target != "" ==> s.rec.gpu == job.target
  {
  }

  /** The job thread tid entered with last. */
  function EnteredJob(steps: seq<Step>, tid: int): Option<Job> {
    if steps == [] then None
    else
      var last := steps[|steps| - 1];
      if last.Enter? && last.tid == tid then Some(last.job) else EnteredJob(steps[..|steps| - 1], tid)
  }

  /** The targets of the requests that got the mutex, in order; "" for one that names none. */
  function NamedTargets(steps: seq<Step>): seq<string> {
    if steps == [] then []
    else
      var before, last := steps[..|steps| - 1], steps[|steps| - 1];
      match if last.Acquire? then EnteredJob(before, last.tid) else None
      case None => NamedTargets(before)
      case Some(job) => NamedTargets(before) + [if job.Serve? then job.target else ""]
  }

  predicate SameJobs(s: State, t: State) {
    && t.threads.Keys == s.threads.Keys && (forall h :: h in s.threads ==> t.threads[h].job == s.threads[h].job)
    && t.targets == s.targets && t.rec.defaultGpu == s.rec.defaultGpu
  }

  lemma {:induction false} HolderKeepsJobs(s: State, h: Holder, step: Step)
    requires HandlesExist(s.rec, s.children) && s.holder == Some(h)
    requires HolderNext(s, h, step).Some?
    ensures SameJobs(s, HolderNext(s, h, step).value)
  {
  }

  /** Only Enter brings jobs, and only Acquire takes targets. */
  lemma {:induction false} JobsOf(s: State, step: Step)
    requires HandlesExist(s.rec, s.children) && Next(s, step).Some?
    ensures var t := Next(s, step).value;
            && t.rec.defaultGpu == s.rec.defaultGpu
            && (forall h :: h in t.threads ==>
                  if step.Enter? && step.tid == h then t.threads[h].job == step.job
                  else h in s.threads && t.threads[h].job == s.threads[h].job)
            && (step.Acquire? ==> step.tid in s.threads)
            && t.targets ==
                 if step.Acquire? then s.targets + [TargetOf(s.threads[step.tid].job)] else s.targets
  {
    hide HolderNext;
    if s.holder.Some? && HolderNext(s, s.holder.value, step).Some? {
      HolderKeepsJobs(s, s.holder.value, step);
    }
  }

  /** Each thread works on the job it entered with, and the targets are those of the jobs. */
  lemma {:induction false} JobsAreEntered(backend: Backend, defaultGpu: string, steps: seq<Step>)
    requires Run(backend, defaultGpu, steps).Some?
    ensures var s := Run(backend, defaultGpu, steps).value;
            && (forall t :: t in s.threads ==> EnteredJob(steps, t) == Some(s.threads[t].job))
            && s.targets == NamedTargets(steps) && s.rec.defaultGpu == defaultGpu
  {
    hide Next;
    if steps != [] {
      var before := steps[..|steps| - 1];
      JobsAreEntered(backend, defaultGpu, before);
      JobsOf(Run(backend, defaultGpu, before).value, steps[|steps| - 1]);
    }
  }

  lemma {:induction false} LastTargetIs(targets: seq<string>, i: nat)
    requires i < |targets| && targets[i] != "" && forall j :: i < j < |targets| ==> targets[j] == ""
    ensures LastTarget(targets) == targets[i]
  {
    if i < |targets| - 1 {
      LastTargetIs(targets[..|targets| - 1], i);
    }
  }

  lemma {:induction false} NoTargetIs(targets: seq<string>)
    requires forall j :: 0 <= j < |targets| ==> targets[j] == ""
    ensures LastTarget(targets) == ""
  {
    if targets != [] {
      NoTargetIs(targets[..|targets| - 1]);
    }
  }

  /** In every run the GPU wanted is the last one any request named, and the default if none did. */
  lemma WantedIsLastTarget(backend: Backend, defaultGpu: string, steps: seq<Step>)
    requires Run(backend, defaultGpu, steps).Some?
    ensures var wanted, named := WantedGpu(Run(backend, defaultGpu, steps).value.rec), NamedTargets(steps);
            && ((forall i :: 0 <= i < |named| ==> named[i] == "") ==> wanted == defaultGpu)
            && (forall i :: 0 <= i < |named| && named[i] != "" && (forall j :: i < j < |named| ==> named[j] == "") ==>
                  wanted == named[i])
  {
    JobsAreEntered(backend, defaultGpu, steps);
    var named := NamedTargets(steps);
    if forall i :: 0 <= i < |named| ==> named[i] == "" {
      NoTargetIs(named);
    }
    forall i | 0 <= i < |named| && named[i] != "" && forall j :: i < j < |named| ==> named[j] == ""
      ensures WantedGpu(Run(backend, defaultGpu, steps).value.rec) == named[i]
    {
      LastTargetIs(named, i);
    }
  }

  /** The counter the watchdog reads is the number of live guards. */
  lemma InFlightCountsGuards(s: State)
    requires Reachable(s)
    ensures s.inFlight == |GuardedThreads(s.threads)|
    ensures s.inFlight == 0 ==> forall t :: t in s.threads ==> !s.threads[t].job.Guarded()
  {
    assert Inv(s);
    if s.inFlight == 0 {
      forall t | t in s.threads
        ensures t !in GuardedThreads(s.threads)
      {
        assert GuardedThreads(s.threads) == {};
      }
    }
  }

  /** When the watchdog kills the worker, no handler is between its ensure and its reply, and no live
      guard is older than the watchdog's last look at the counter. */
  lemma EvictionDisturbsNobody(s: State)
    requires Reachable(s) && Next(s, WatchdogKill).Some?
    ensures s.holder.value.who == Watchdog && forall t :: t in s.threads ==> !s.threads[t].Inside?
    ensures s.rec.pid.Some? ==> s.rec.pid.value in s.children && Quiet(s.children[s.rec.pid.value])
    ensures GuardedThreads(s.threads) <= s.newcomers
  {
    assert Inv(s);
  }

  lemma {:induction false} UpperBound(keys: set<int>) returns (bound: int)
    ensures 0 < bound && forall k :: k in keys ==> k < bound
  {
    if k :| k in keys {
      bound := UpperBound(keys - {k});
      if bound <= k {
        bound := k + 1;
      }
      assert keys == (keys - {k}) + {k};
    } else {
      bound := 1;
    }
  }

  // ---------------------------------------------------------------------------------------
  // What each step does when the holder of the mutex stands before it
  // ---------------------------------------------------------------------------------------

  lemma HolderKnows(s: State)
    requires Inv(s) && s.holder.Some?
    ensures HandlesExist(s.rec, s.children) && s.rec.pid == s.rec.fd
    ensures s.holder.value.at.Ensuring? ==> !s.holder.value.at.job.Unload?
    ensures s.holder.value.at.Spawning? ==> s.rec.pid == None && !s.holder.value.at.job.Unload?
    ensures s.holder.value.at.Greeting? ==> s.rec.gpu == WantedGpu(s.rec)
    ensures s.holder.value.at.Serving? || s.holder.value.at.Awaiting? ==> s.rec.pid.Some?
  {
  }

  lemma EnsureEffect(s: State, job: Job)
    requires HandlesExist(s.rec, s.children) && s.rec.pid == s.rec.fd
    requires s.holder.Some? && s.holder.value.at == Ensuring(job) && !job.Unload?
    ensures Next(s, Ensure) ==
      Some(if Matches(s.rec, job.backend) then MovedTo(s, Serving(job, Rounds(job)))
           else MovedTo(WorkerKilled(s), Spawning(job)))
  {
  }

  function Launched(s: State, job: Job, pid: int): State
    requires s.holder.Some? && !job.Unload?
  {
    var want := WantedGpu(s.rec);
    MovedTo(s.(rec := s.rec.(gpu := want), children := s.children[pid := Spawned(job.backend, want)]),
            Greeting(job, pid))
  }

  lemma SpawnEffect(s: State, job: Job, pid: int)
    requires HandlesExist(s.rec, s.children) && s.holder.Some? && s.holder.value.at == Spawning(job) && !job.Unload?
    ensures pid !in s.children ==> Next(s, SpawnOk(pid)) == Some(Launched(s, job, pid))
    ensures Next(s, SpawnFail) == Some(MovedTo(s.(rec := s.rec.(gpu := WantedGpu(s.rec))), Finished))
  {
  }

  lemma GreetingEffect(s: State, job: Job, pid: int)
    requires HandlesExist(s.rec, s.children) && pid in s.children && !job.Unload?
    requires s.holder.Some? && s.holder.value.at == Greeting(job, pid)
    ensures Next(s, ReadGreeting) == Greeted(s, job, pid)
  {
  }

  function Sent(s: State, p: int, request: Frame): State
    requires p in s.children
  {
    var c := s.children[p];
    CountRequest(s).(children := s.children[p := c.(inbox := c.inbox + [request])])
  }

  lemma SendEffect(s: State, job: Job, left: nat, p: int)
    requires HandlesExist(s.rec, s.children) && s.rec.fd == Some(p)
    requires s.holder.Some? && s.holder.value.at == Serving(job, left) && left > 0 && job.Serve?
    ensures var request := Frame(Request(job.family), s.rec.nextReqId, s.requests);
            Next(s, SendOk) == Some(MovedTo(Sent(s, p, request), Awaiting(job, left - 1, request)))
    ensures Next(s, SendFail) == Some(MovedTo(WorkerKilled(CountRequest(s)), Finished))
  {
  }
}
