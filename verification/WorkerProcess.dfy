/** One worker process and the two frame queues of its socket pair: the loop of `run_worker` in
    src/server/worker.cpp, seen from outside. Frames are whole here; `FrameIo` proves that the byte
    stream delivers them whole. `origin` numbers the requests of a run without ever wrapping. It
    exists only to state which request a frame belongs to: no transition looks at it. */
module WorkerProcess {
  datatype Backend = Cpu | Gpu

  datatype Family = Matte | Depth | Siglip | Parts

  datatype Kind = Hello | Err | Request(family: Family) | Response(family: Family)

  datatype Frame = Frame(kind: Kind, reqId: int, origin: int)

  const HELLO_FRAME := Frame(Hello, 0, -1)
  const LOAD_ERROR_FRAME := Frame(Err, 0, -1)

  datatype Phase = Loading | Ready | Busy(request: Frame) | Gone

  /** `inbox` travels towards the worker, `outbox` towards the server. The three counters record
      what the server did to the process and to its descriptor. */
  datatype Child = Child(
    backend: Backend, gpu: string, phase: Phase, inbox: seq<Frame>, outbox: seq<Frame>,
    kills: nat, reaps: nat, closes: nat)

  function Spawned(backend: Backend, gpu: string): Child {
    Child(backend, gpu, Loading, [], [], 0, 0, 0)
  }

  /** What a worker may do next. `Drop` is a request that gets no reply: an unknown frame type, or
      a reply above the frame limit. `Crash` leaves frames already sent readable. */
  datatype Act = LoadModels | FailLoad | Take | Reply | ReplyError | Drop | Crash

  function Answer(c: Child, kind: Kind): Child
    requires c.phase.Busy?
  {
    c.(phase := Ready, outbox := c.outbox + [Frame(kind, c.phase.request.reqId, c.phase.request.origin)])
  }

  /** One worker transition; an act that is not possible changes nothing. */
  function Advance(c: Child, a: Act): Child {
    match a
    case LoadModels =>
      if c.phase == Loading then c.(phase := Ready, outbox := c.outbox + [HELLO_FRAME]) else c
    case FailLoad =>
      if c.phase == Loading then c.(phase := Gone, outbox := c.outbox + [LOAD_ERROR_FRAME]) else c
    case Take =>
      if c.phase == Ready && c.inbox != [] then c.(phase := Busy(c.inbox[0]), inbox := c.inbox[1..]) else c
    case Reply =>
      if c.phase.Busy? && c.phase.request.kind.Request? then Answer(c, Response(c.phase.request.kind.family))
      else c
    case ReplyError =>
      if c.phase.Busy? then Answer(c, Err) else c
    case Drop =>
      if c.phase.Busy? then c.(phase := Ready) else c
    case Crash =>
      c.(phase := Gone)
  }

  predicate AtRest(c: Child) {
    c.phase == Ready || c.phase == Gone
  }

  /** Nothing is under way. */
  predicate Quiet(c: Child) {
    AtRest(c) && c.inbox == [] && c.outbox == []
  }

  /** A reply the worker may give to request f. */
  predicate Answers(reply: Frame, f: Frame) {
    && f.kind.Request?
    && reply.origin == f.origin && reply.reqId == f.reqId
    && (reply.kind == Err || reply.kind == Response(f.kind.family))
  }

  /** Request f is the only thing under way: not yet taken, being handled, answered or dropped. */
  predicate Carrying(c: Child, f: Frame) {
    || (AtRest(c) && c.inbox == [f] && c.outbox == [])
    || (c.phase == Busy(f) && c.inbox == [] && c.outbox == [])
    || (AtRest(c) && c.inbox == [] && |c.outbox| == 1 && Answers(c.outbox[0], f))
    || Quiet(c)
  }

  /** A new worker before its first frame has been read. */
  predicate Starting(c: Child) {
    && c.inbox == []
    && match c.phase
       case Loading => c.outbox == []
       case Ready => c.outbox == [HELLO_FRAME]
       case Gone => c.outbox == [] || c.outbox == [HELLO_FRAME] || c.outbox == [LOAD_ERROR_FRAME]
       case Busy(_) => false
  }

  /** The server side of the process, which no worker act touches. */
  predicate SameHandle(c: Child, d: Child) {
    && c.backend == d.backend && c.gpu == d.gpu
    && c.kills == d.kills && c.reaps == d.reaps && c.closes == d.closes
  }

  lemma AdvanceKeeps(c: Child, a: Act)
    ensures Quiet(c) ==> Quiet(Advance(c, a))
    ensures Starting(c) ==> Starting(Advance(c, a))
    ensures forall f: Frame :: f.kind.Request? && Carrying(c, f) ==> Carrying(Advance(c, a), f)
    ensures SameHandle(c, Advance(c, a))
    ensures c.phase == Gone ==> Advance(c, a) == c
  {
  }
}
