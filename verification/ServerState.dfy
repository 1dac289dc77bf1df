/** `ServerState` of src/server/server_state.cpp as it runs: the three methods that need the mutex,
    calling the kernel and updating the fields. A ghost trace records which steps of
    `ServerProtocol` each method performs, so what is proved of every interleaving holds of them. */
module ServerState {
  import opened Wrappers
  import opened WorkerProcess
  import opened ServerProtocol

  function AdvanceAll(c: Child, acts: seq<Act>): Child {
    if acts == [] then c else Advance(AdvanceAll(c, acts[..|acts| - 1]), acts[|acts| - 1])
  }

  lemma AdvanceOnce(c: Child, acts: seq<Act>, act: Act)
    ensures AdvanceAll(c, acts + [act]) == Advance(AdvanceAll(c, acts), act)
  {
  }

  /** A system call and what it returned. */
  datatype SysCall =
    | Spawns(backend: Backend, gpu: string, pid: int)
    | Kills(pid: int)
    | Waits(pid: int)
    | Closes(fd: int)
    | Sends(fd: int, frame: Frame, ok: bool)
    | Receives(fd: int, received: Option<Frame>)

  /** The system calls. A child's key stands for its pid and for the parent's end of its socket. `log` is
      every call made so far. */
  class Kernel {
    var children: map<int, Child>
    ghost var log: seq<SysCall>

    constructor ()
      ensures children == map[] && log == []
    {
      children := map[];
      log := [];
    }

    /** `spawn_worker`: -1, or a process that has never existed before. */
    method Spawn(backend: Backend, gpu: string) returns (pid: int)
      modifies this
      ensures log == old(log) + [Spawns(backend, gpu, pid)]
      ensures pid == -1 ==> children == old(children)
      ensures pid != -1 ==>
        pid > 0 && pid !in old(children) && children == old(children)[pid := Spawned(backend, gpu)]
    {
      if * {
        pid := -1;
      } else {
        ghost var bound := UpperBound(children.Keys);
        assert bound > 0 && bound !in children;
        pid :| pid > 0 && pid !in children;
        children := children[pid := Spawned(backend, gpu)];
      }
      log := log + [Spawns(backend, gpu, pid)];
    }

    method Kill(pid: int)
      requires pid in children
      modifies this
      ensures var c := old(children)[pid]; children == old(children)[pid := c.(phase := Gone, kills := c.kills + 1)]
      ensures log == old(log) + [Kills(pid)]
    {
      log := log + [Kills(pid)];
      children := children[pid := children[pid].(phase := Gone, kills := children[pid].kills + 1)];
    }

    /** `waitpid` returns once the process is gone. */
    method Wait(pid: int)
      requires pid in children && children[pid].phase == Gone
      modifies this
      ensures children == old(children)[pid := old(children)[pid].(reaps := old(children)[pid].reaps + 1)]
      ensures log == old(log) + [Waits(pid)]
    {
      log := log + [Waits(pid)];
      children := children[pid := children[pid].(reaps := children[pid].reaps + 1)];
    }

    method Close(fd: int)
      requires fd in children
      modifies this
      ensures children == Closed(old(children), fd)
      ensures log == old(log) + [Closes(fd)]
    {
      log := log + [Closes(fd)];
      children := Closed(children, fd);
    }

    /** `send_frame`: the whole frame, or failure. */
    method Send(fd: int, f: Frame) returns (ok: bool)
      requires fd in children
      modifies this
      ensures log == old(log) + [Sends(fd, f, ok)]
      ensures !ok ==> children == old(children)
      ensures ok ==> children == old(children)[fd := old(children)[fd].(inbox := old(children)[fd].inbox + [f])]
    {
      if * {
        ok := false;
      } else {
        ok := true;
        children := children[fd := children[fd].(inbox := children[fd].inbox + [f])];
      }
      log := log + [Sends(fd, f, ok)];
    }

    /** `recv_frame`: the worker runs until a frame arrives; or the call fails, because the process is gone
        or for any other reason. */
    method Receive(fd: int) returns (frame: Option<Frame>, ghost acts: seq<Act>)
      requires fd in children
      modifies this
      ensures var c := AdvanceAll(old(children)[fd], acts);
              match frame
              case Some(f) =>
                c.outbox != [] && f == c.outbox[0] && children == old(children)[fd := c.(outbox := c.outbox[1..])]
              case None => children == old(children)[fd := c]
      ensures log == old(log) + [Receives(fd, frame)]
    {
      acts := [];
      var c := children[fd];
      var steps: nat := *;
      while steps > 0
        invariant c == AdvanceAll(children[fd], acts)
        modifies {}
      {
        var act: Act := *;
        AdvanceOnce(children[fd], acts, act);
        c, acts := Advance(c, act), acts + [act];
        steps := steps - 1;
      }
      var fails: bool := *;
      if c.outbox == [] || fails {
        frame := None;
        children := children[fd := c];
      } else {
        frame := Some(c.outbox[0]);
        children := children[fd := c.(outbox := c.outbox[1..])];
      }
      log := log + [Receives(fd, frame)];
    }
  }

  // ---------------------------------------------------------------------------------------
  // Traces
  // ---------------------------------------------------------------------------------------

  function Works(pid: int, acts: seq<Act>): seq<Step> {
    seq(|acts|, i requires 0 <= i < |acts| => Work(pid, acts[i]))
  }

  lemma RunOneMore(backend: Backend, gpu: string, trace: seq<Step>, step: Step, s: State)
    requires Run(backend, gpu, trace) == Some(s)
    ensures Run(backend, gpu, trace + [step]) == Next(s, step)
  {
  }

  function Worked(s: State, pid: int, acts: seq<Act>): State
    requires pid in s.children
  {
    s.(children := s.children[pid := AdvanceAll(s.children[pid], acts)])
  }

  lemma NextWork(s: State, pid: int, act: Act)
    requires Inv(s) && pid in s.children
    ensures Next(s, Work(pid, act)) == Some(Worked(s, pid, [act]))
  {
    AdvanceOnce(s.children[pid], [], act);
    assert [] + [act] == [act];
  }

  lemma WorkedOnce(s: State, pid: int, acts: seq<Act>, act: Act)
    requires pid in s.children
    ensures Worked(Worked(s, pid, acts), pid, [act]) == Worked(s, pid, acts + [act])
  {
    AdvanceOnce(s.children[pid], acts, act);
    AdvanceOnce(AdvanceAll(s.children[pid], acts), [], act);
    assert [] + [act] == [act];
    var c := AdvanceAll(s.children[pid], acts + [act]);
    assert s.children[pid := AdvanceAll(s.children[pid], acts)][pid := c] == s.children[pid := c];
  }

  lemma {:induction false} RunWorks(
      backend: Backend, gpu: string, trace: seq<Step>, pid: int, acts: seq<Act>, s: State)
    requires Run(backend, gpu, trace) == Some(s) && pid in s.children
    ensures Run(backend, gpu, trace + Works(pid, acts)) == Some(Worked(s, pid, acts))
  {
    hide Inv, Next, Run;
    if acts == [] {
      assert trace + Works(pid, acts) == trace;
      assert s.children[pid := s.children[pid]] == s.children;
    } else {
      var m := |acts| - 1;
      RunWorks(backend, gpu, trace, pid, acts[..m], s);
      var mid := Worked(s, pid, acts[..m]);
      RunOneMore(backend, gpu, trace + Works(pid, acts[..m]), Work(pid, acts[m]), mid);
      NextWork(mid, pid, acts[m]);
      WorkedOnce(s, pid, acts[..m], acts[m]);
      assert acts == acts[..m] + [acts[m]];
      assert trace + Works(pid, acts) == trace + Works(pid, acts[..m]) + [Work(pid, acts[m])];
    }
  }

  // ---------------------------------------------------------------------------------------
  // The server's side
  // ---------------------------------------------------------------------------------------

  /** How a round trip ends. `Refused` is the worker's own error reply: the worker stays. */
  datatype Outcome = Replied(reply: Frame) | Refused(message: Frame) | Broken

  /** How it must end: what was sent and received decides. */
  function OutcomeOf(sent: bool, received: Option<Frame>, family: Family): Outcome {
    if !sent || received == None then Broken
    else if received.value.kind == Err then Refused(received.value)
    else if received.value.kind == Response(family) then Replied(received.value)
    else Broken
  }

  /** The calls of `kill_worker_locked`. */
  function KillCalls(r: Record): seq<SysCall> {
    (if r.pid.Some? then [Kills(r.pid.value), Waits(r.pid.value)] else [])
    + if r.fd.Some? then [Closes(r.fd.value)] else []
  }

  /** The calls of `request_locked`. */
  function RequestCalls(r: Record, request: Frame, sent: bool, received: Option<Frame>, family: Family): seq<SysCall>
    requires r.fd.Some?
  {
    [Sends(r.fd.value, request, sent)] + (if sent then [Receives(r.fd.value, received)] else [])
    + if OutcomeOf(sent, received, family).Broken? then KillCalls(r) else []
  }

  predicate Greets(first: Option<Frame>) {
    first.Some? && first.value.kind == Hello
  }

  /** The calls that start a worker: out with it again unless it says HELLO. */
  function StartCalls(backend: Backend, want: string, pid: int, first: Option<Frame>): seq<SysCall> {
    [Spawns(backend, want, pid)]
    + if pid < 0 then []
      else [Receives(pid, first)] + if Greets(first) then [] else [Kills(pid), Waits(pid), Closes(pid)]
  }

  /** The calls of `ensure_worker_locked`: none if the recorded worker suits; otherwise out with the old one
      and in with a new one. */
  function EnsureCalls(r: Record, backend: Backend, pid: int, first: Option<Frame>): seq<SysCall> {
    if Matches(r, backend) then []
    else (if r.pid.Some? then KillCalls(r) else []) + StartCalls(backend, WantedGpu(r), pid, first)
  }

  class ServerState {
    const kernel: Kernel
    const startBackend: Backend
    const defaultGpu: string
    var workerPid: int
    var workerFd: int
    var workerBackend: Backend
    var workerGpu: string
    var nextGpu: string
    var nextReqId: int
    var requests: nat   // how many requests were sent: the origin of the next one
    ghost var trace: seq<Step>
    ghost var state: State

    ghost function Rec(): Record
      reads this
    {
      Record(if workerPid > 0 then Some(workerPid) else None, if workerFd >= 0 then Some(workerFd) else None,
             workerBackend, workerGpu, nextGpu, defaultGpu, nextReqId)
    }

    /** The fields and the processes are those of s. */
    ghost predicate Mirrors(s: State)
      reads this, kernel
    {
      s.rec == Rec() && s.children == kernel.children && s.requests == requests
    }

    ghost predicate Sane()
      reads this, kernel
    {
      (workerPid == -1 || workerPid > 0) && workerFd >= -1 && forall p :: p in kernel.children ==> p > 0
    }

    /** The fields and the processes are what the steps in `trace` lead to. */
    ghost predicate Valid()
      reads this, kernel
    {
      Run(startBackend, defaultGpu, trace) == Some(state) && Mirrors(state) && Sane()
    }

    /** Where the holder of the mutex stands. */
    ghost predicate StandsAt(at: At)
      reads this
    {
      state.holder.Some? && state.holder.value.at == at
    }

    /** Nothing outside the holder, the worker and the counters has changed since s. */
    ghost predicate SameElsewhere(s: State)
      reads this
    {
      && state.threads == s.threads && state.accepted == s.accepted && state.targets == s.targets
      && (state.holder.Some? && s.holder.Some? && state.holder.value.who == s.holder.value.who)
      && state.rec.nextGpu == s.rec.nextGpu && state.rec.defaultGpu == s.rec.defaultGpu
      && state.rec.nextReqId == s.rec.nextReqId && state.requests == s.requests
    }

    constructor (backend: Backend, defaultGpu: string)
      ensures Valid() && fresh(kernel) && state == Init(backend, defaultGpu)
    {
      kernel := new Kernel();
      startBackend, this.defaultGpu := backend, defaultGpu;
      workerPid, workerFd, workerBackend, workerGpu, nextGpu, nextReqId, requests := -1, -1, backend, "", "", 1, 0;
      trace, state := [], Init(backend, defaultGpu);
    }

    /** Extends the trace by one step once the fields have been updated accordingly. */
    ghost method Took(step: Step, next: State)
      requires Run(startBackend, defaultGpu, trace) == Some(state)
      requires HandlesExist(state.rec, state.children) && Next(state, step) == Some(next)
      requires Mirrors(next) && Sane()
      modifies `trace, `state
      ensures Valid() && trace == old(trace) + [step] && state == next
    {
      RunOneMore(startBackend, defaultGpu, trace, step, state);
      state := next;
      trace := trace + [step];
    }

    /** Extends the trace by what a worker did while the server waited. */
    ghost method LetWork(pid: int, acts: seq<Act>)
      requires Run(startBackend, defaultGpu, trace) == Some(state) && pid in state.children
      modifies `trace, `state
      ensures Run(startBackend, defaultGpu, trace) == Some(state) && trace == old(trace) + Works(pid, acts)
      ensures state == Worked(old(state), pid, acts)
    {
      RunWorks(startBackend, defaultGpu, trace, pid, acts, state);
      state := Worked(state, pid, acts);
      trace := trace + Works(pid, acts);
    }

    /** `kill_worker_locked`. */
    method KillWorkerLocked()
      requires HandlesExist(Rec(), kernel.children)
      modifies `workerPid, `workerFd, kernel
      ensures Rec() == KilledRecord(old(Rec())) && workerPid == -1 && workerFd <= -1
      ensures kernel.children == KilledChildren(old(Rec()), old(kernel.children))
      ensures kernel.log == old(kernel.log) + KillCalls(old(Rec()))
      ensures old(Sane()) ==> Sane()
    {
      if workerPid > 0 {
        kernel.Kill(workerPid);
        kernel.Wait(workerPid);
      }
      if workerFd >= 0 {
        kernel.Close(workerFd);
        workerFd := -1;
      }
      workerPid := -1;
    }

    /** `recv_frame` from child p, with what the child did meanwhile in the trace. */
    method Hear(p: int) returns (frame: Option<Frame>)
      requires Valid() && p in kernel.children
      modifies kernel, `trace, `state
      ensures kernel.log == old(kernel.log) + [Receives(p, frame)]
      ensures Run(startBackend, defaultGpu, trace) == Some(state) && Sane() && old(trace) <= trace
      ensures state == old(state).(children := state.children) && p in state.children
      ensures match frame
              case Some(f) =>
                && state.children[p].outbox != [] && f == state.children[p].outbox[0]
                && kernel.children == Popped(state, p).children
              case None => kernel.children == state.children
    {
      hide Inv, Next, Run, HolderNext, AdvanceAll;
      ghost var acts;
      frame, acts := kernel.Receive(p);
      LetWork(p, acts);
      assert frame.Some? ==> kernel.children == Popped(state, p).children;
      assert frame.None? ==> kernel.children == state.children;
    }

    /** A worker that did not greet is killed, reaped and closed. */
    method Dismiss(pid: int)
      requires pid in kernel.children
      modifies kernel
      ensures kernel.log == old(kernel.log) + [Kills(pid), Waits(pid), Closes(pid)]
      ensures kernel.children == Closed(KilledAndReaped(old(kernel.children), pid), pid)
    {
      kernel.Kill(pid);
      kernel.Wait(pid);
      kernel.Close(pid);
    }

    /** The first frame of a new worker must be HELLO, or the worker is disposed of. */
    method AwaitGreeting(pid: int, backend: Backend, ghost job: Job) returns (ok: bool, ghost first: Option<Frame>)
      requires Valid() && StandsAt(Greeting(job, pid)) && pid in kernel.children
      requires !job.Unload? && job.backend == backend && workerPid == -1 && workerFd == -1
      modifies this, kernel
      ensures Valid() && old(trace) < trace && SameElsewhere(old(state))
      ensures ok ==> StandsAt(Serving(job, Rounds(job))) && Matches(Rec(), backend)
      ensures !ok ==> StandsAt(Finished) && workerPid == -1 && workerFd == -1
      ensures ok == Greets(first) && (ok ==> workerPid == pid && workerFd == pid)
      ensures kernel.log == old(kernel.log) + [Receives(pid, first)]
                            + if ok then [] else [Kills(pid), Waits(pid), Closes(pid)]
    {
      hide Inv, Next, Run, HolderNext, Quiet, Starting, Carrying, WorkerKilled, KilledChildren;
      var frame := Hear(pid);
      first := frame;
      HolderKnows(state);
      if frame == None {
        ReadFailEffect(state);
        Dismiss(pid);
        Took(ReadFail, MovedTo(Dismissed(state, pid), Finished));
        return false, first;
      }
      GreetingEffect(state, job, pid);
      if frame.value.kind != Hello {
        Dismiss(pid);
        Took(ReadGreeting, Greeted(state, job, pid).value);
        return false, first;
      }
      workerPid, workerFd, workerBackend := pid, pid, backend;
      Took(ReadGreeting, Greeted(state, job, pid).value);
      return true, first;
    }

    /** The second half of `ensure_worker_locked`: spawn, then wait for the greeting. */
    method StartWorker(backend: Backend, want: string, ghost job: Job)
        returns (ok: bool, ghost pid: int, ghost first: Option<Frame>)
      requires Valid() && StandsAt(Spawning(job)) && !job.Unload? && job.backend == backend
      requires want == WantedGpu(Rec())
      modifies this, kernel
      ensures Valid() && old(trace) < trace && SameElsewhere(old(state))
      ensures ok ==> StandsAt(Serving(job, Rounds(job))) && Matches(Rec(), backend)
      ensures !ok ==> StandsAt(Finished) && workerPid == -1 && workerFd == -1
      ensures ok <==> pid >= 0 && Greets(first)
      ensures ok ==> workerPid == pid && workerFd == pid
      ensures kernel.log == old(kernel.log) + StartCalls(backend, want, pid, first)
    {
      hide Inv, Next, Run, HolderNext;
      HolderKnows(state);
      var child := kernel.Spawn(backend, want);
      pid, first := child, None;
      SpawnEffect(state, job, child);
      workerGpu := want;
      if child < 0 {
        Took(SpawnFail, MovedTo(state.(rec := state.rec.(gpu := want)), Finished));
        return false, pid, first;
      }
      Took(SpawnOk(child), Launched(state, job, child));
      ok, first := AwaitGreeting(child, backend, job);
    }

    /** The worker that does not suit, if there is one, goes. */
    method Retire(ghost job: Job)
      requires Valid() && StandsAt(Ensuring(job)) && !job.Unload? && !Matches(Rec(), job.backend)
      modifies this, kernel
      ensures Valid() && old(trace) < trace && SameElsewhere(old(state))
      ensures StandsAt(Spawning(job)) && WantedGpu(Rec()) == WantedGpu(old(Rec()))
      ensures nextGpu == old(nextGpu) && workerPid == -1
      ensures kernel.log == old(kernel.log) + if old(Rec()).pid.Some? then KillCalls(old(Rec())) else []
    {
      hide Inv, Next, Run, HolderNext, Greeted;
      HolderKnows(state);
      EnsureEffect(state, job);
      if workerPid > 0 {
        KillWorkerLocked();
      }
      Took(Ensure, MovedTo(WorkerKilled(state), Spawning(job)));
    }

    /** The worker that suits stays. */
    ghost method Keep(job: Job)
      requires Valid() && StandsAt(Ensuring(job)) && !job.Unload? && Matches(Rec(), job.backend)
      modifies `trace, `state
      ensures Valid() && old(trace) < trace && SameElsewhere(old(state)) && StandsAt(Serving(job, Rounds(job)))
    {
      hide Inv, Next, Run, HolderNext, Greeted, KilledChildren;
      HolderKnows(state);
      EnsureEffect(state, job);
      Took(Ensure, MovedTo(state, Serving(job, Rounds(job))));
    }

    /** `ensure_worker_locked`; false stands for the exception. */
    method EnsureWorkerLocked(backend: Backend, ghost job: Job)
        returns (ok: bool, ghost pid: int, ghost first: Option<Frame>)
      requires Valid() && StandsAt(Ensuring(job)) && !job.Unload? && job.backend == backend
      modifies this, kernel
      ensures Valid() && old(trace) < trace && SameElsewhere(old(state))
      ensures ok ==> StandsAt(Serving(job, Rounds(job))) && Matches(Rec(), backend)
      ensures !ok ==> StandsAt(Finished) && workerPid == -1 && workerFd == -1
      ensures ok <==> Matches(old(Rec()), backend) || (pid >= 0 && Greets(first))
      ensures ok ==> workerPid == if Matches(old(Rec()), backend) then old(workerPid) else pid
      ensures kernel.log == old(kernel.log) + EnsureCalls(old(Rec()), backend, pid, first)
    {
      hide Inv, Next, Run, HolderNext, Greeted, WorkerKilled, KilledChildren, KillCalls, StartCalls, Sane, Mirrors;
      pid, first := -1, None;
      var want := if nextGpu == "" then defaultGpu else nextGpu;
      if workerPid > 0 && workerBackend == backend && workerGpu == want {
        Keep(job);
        return true, pid, first;
      }
      Retire(job);
      ok, pid, first := StartWorker(backend, want, job);
    }

    /** The sending half of `request_locked`. */
    method SendRequest(family: Family, ghost job: Job, ghost left: nat) returns (ghost request: Frame, sent: bool)
      requires Valid() && StandsAt(Serving(job, left)) && left > 0 && job.Serve? && job.family == family
      modifies this, kernel
      ensures Valid() && old(trace) < trace && state.threads == old(state.threads)
      ensures requests == old(requests) + 1 && nextReqId == (old(nextReqId) + 1) % 0x1_0000_0000
      ensures request == Frame(Request(family), old(nextReqId), old(requests))
      ensures sent ==> StandsAt(Awaiting(job, left - 1, request)) && workerPid == old(workerPid)
      ensures !sent ==> StandsAt(Finished) && workerPid == -1 && workerFd == -1
      ensures old(Rec()).fd.Some? && request.kind == Request(family)
      ensures kernel.log == old(kernel.log) + [Sends(old(workerFd), request, sent)]
                            + if sent then [] else KillCalls(old(Rec()))
      ensures sent ==> Rec() == old(Rec()).(nextReqId := nextReqId)
    {
      hide Inv, Next, Run, HolderNext, KilledChildren;
      HolderKnows(state);
      SendEffect(state, job, left, workerFd);
      var frame := Frame(Request(family), nextReqId, requests);
      request := frame;
      nextReqId, requests := (nextReqId + 1) % REQ_ID_MODULUS, requests + 1;
      sent := kernel.Send(workerFd, frame);
      if sent {
        Took(SendOk, MovedTo(Sent(state, workerFd, request), Awaiting(job, left - 1, request)));
      } else {
        KillWorkerLocked();
        Took(SendFail, MovedTo(WorkerKilled(CountRequest(state)), Finished));
      }
    }

    /** The receiving half of `request_locked`. */
    method ReceiveReply(wanted: Kind, ghost job: Job, ghost left: nat, ghost request: Frame)
        returns (outcome: Outcome, ghost received: Option<Frame>)
      requires Valid() && StandsAt(Awaiting(job, left, request)) && job.Serve? && wanted == Response(job.family)
      modifies this, kernel
      ensures Valid() && old(trace) < trace && state.threads == old(state.threads)
      ensures requests == old(requests) && nextReqId == old(nextReqId)
      ensures match outcome
              case Replied(reply) =>
                && StandsAt(Serving(job, left)) && workerPid == old(workerPid)
                && reply == Frame(wanted, request.reqId, request.origin)
              case Refused(message) =>
                && StandsAt(Finished) && workerPid == old(workerPid)
                && message == Frame(Err, request.reqId, request.origin)
              case Broken => StandsAt(Finished) && workerPid == -1 && workerFd == -1
      ensures outcome == OutcomeOf(true, received, job.family)
      ensures kernel.log == old(kernel.log) + [Receives(old(workerFd), received)]
                            + if outcome.Broken? then KillCalls(old(Rec())) else []
    {
      hide Inv, Next, Run, HolderNext, KilledChildren, KilledRecord, Quiet, Carrying;
      HolderKnows(state);
      var fd := workerFd;
      var frame := Hear(fd);
      received := frame;
      HolderKnows(state);
      if frame == None {
        ReadFailEffect(state);
        KillWorkerLocked();
        Took(ReadFail, MovedTo(WorkerKilled(state), Finished));
        return Broken, received;
      }
      ReadEffect(state, job, left, request, fd);
      ghost var next := Read(state, job, left, request, fd).value;
      if frame.value.kind == Err {
        PopKeeps(state, fd);
        Took(ReadReply, next);
        return Refused(frame.value), received;
      }
      if frame.value.kind != wanted {
        KillWorkerLocked();
        Took(ReadReply, next);
        return Broken, received;
      }
      PopKeeps(state, fd);
      Took(ReadReply, next);
      return Replied(frame.value), received;
    }

    /** `request_locked`. Whatever happens, exactly one request number is used up. A reply is only
        returned if it is the worker's answer to this very request. */
    method RequestLocked(family: Family, ghost job: Job, ghost left: nat)
        returns (outcome: Outcome, ghost sent: bool, ghost received: Option<Frame>)
      requires Valid() && StandsAt(Serving(job, left)) && left > 0 && job.Serve? && job.family == family
      modifies this, kernel
      ensures Valid() && old(trace) < trace && state.threads == old(state.threads)
      ensures requests == old(requests) + 1 && nextReqId == (old(nextReqId) + 1) % 0x1_0000_0000
      ensures match outcome
              case Replied(reply) =>
                && StandsAt(Serving(job, left - 1)) && workerPid == old(workerPid)
                && reply == Frame(Response(family), old(nextReqId), old(requests))
              case Refused(message) =>
                && StandsAt(Finished) && workerPid == old(workerPid)
                && message == Frame(Err, old(nextReqId), old(requests))
              case Broken => StandsAt(Finished) && workerPid == -1 && workerFd == -1
      ensures outcome == OutcomeOf(sent, received, family) && old(Rec()).fd.Some?
      ensures var request := Frame(Request(family), old(nextReqId), old(requests));
              kernel.log == old(kernel.log) + RequestCalls(old(Rec()), request, sent, received, family)
    {
      hide Inv, Next, Run, HolderNext;
      ghost var request;
      var gone: bool;
      request, gone := SendRequest(family, job, left);
      sent, received := gone, None;
      if !gone {
        return Broken, sent, received;
      }
      outcome, received := ReceiveReply(Response(family), job, left - 1, request);
    }
  }
}
