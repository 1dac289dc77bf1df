/** The framed byte stream of src/server/server_ipc.cpp: a 12-byte header of three 32-bit words and a
    payload, moved by system calls that may transfer part of what was asked, be interrupted or fail.
    Header words are in the byte order of the supported machines, least significant byte first. */
module FrameIo {
  import opened Bytes

  const MAX_PAYLOAD := 512 * 1024 * 1024
  const HEADER_SIZE := 12

  datatype Frame = Frame(kind: u32, reqId: u32, payload: seq<byte>)

  datatype IpcError = OK | EofClean | EofMidFrame | SocketError | PayloadTooBig

  predicate Fits(f: Frame) {
    |f.payload| <= MAX_PAYLOAD
  }

  function HeaderBytes(kind: u32, len: u32, reqId: u32): (s: seq<byte>)
    ensures |s| == HEADER_SIZE
    ensures FromLe32(s[..4]) == kind && FromLe32(s[4..8]) == len && FromLe32(s[8..]) == reqId
  {
    var s := Le32(kind) + Le32(len) + Le32(reqId);
    assert s[..4] == Le32(kind) && s[4..8] == Le32(len) && s[8..] == Le32(reqId);
    s
  }

  /** The bytes of one frame on the wire. */
  function Encode(f: Frame): seq<byte>
    requires Fits(f)
  {
    HeaderBytes(f.kind, |f.payload| as u32, f.reqId) + f.payload
  }

  // ---------------------------------------------------------------------------------------
  // System calls
  // ---------------------------------------------------------------------------------------

  /** What the kernel does with the next call: move up to n bytes, deliver a signal, or fail. */
  datatype Event = Transfer(n: nat) | Interrupt | Refuse

  /** Calls make progress unless a signal interrupts them. */
  predicate Benign(script: seq<Event>) {
    forall i :: 0 <= i < |script| ==> script[i].Interrupt? || (script[i].Transfer? && script[i].n > 0)
  }

  datatype CallResult = Moved(n: nat) | Interrupted | Failed

  function Smaller(a: nat, b: nat): nat {
    if a <= b then a else b
  }

  function Joined(parts: seq<seq<byte>>): seq<byte> {
    if parts == [] then [] else parts[0] + Joined(parts[1..])
  }

  /** One end of a socket pair. `incoming` is everything the peer has sent or will send before it
      closes its end. After `script` has run out, every call moves all it can. */
  class Socket {
    var incoming: seq<byte>
    var outgoing: seq<byte>
    var script: seq<Event>

    constructor (incoming: seq<byte>, script: seq<Event>)
      ensures this.incoming == incoming && this.script == script && outgoing == []
    {
      this.incoming, this.outgoing, this.script := incoming, [], script;
    }

    /** `read` into buf[at..]; no bytes are moved only at the end of the stream. */
    method Read(buf: array<byte>, at: nat) returns (r: CallResult)
      requires at < buf.Length
      modifies `incoming, `script, buf
      ensures script == if old(script) == [] then [] else old(script)[1..]
      ensures r.Interrupted? ==> old(script) != []
      ensures r.Failed? ==> !Benign(old(script))
      ensures r.Moved? ==>
        && r.n <= buf.Length - at && r.n <= |old(incoming)|
        && (r.n == 0 ==> old(incoming) == [])
        && buf[..at] == old(buf[..at]) && buf[at..at + r.n] == old(incoming)[..r.n]
        && incoming == old(incoming)[r.n..]
      ensures !r.Moved? ==> incoming == old(incoming) && buf[..] == old(buf[..])
    {
      var event := if script == [] then Transfer(buf.Length) else script[0];
      script := if script == [] then [] else script[1..];
      match event
      case Interrupt => return Interrupted;
      case Refuse => return Failed;
      case Transfer(n) =>
        var k := Smaller(Smaller(if n == 0 then 1 else n, buf.Length - at), |incoming|);
        forall i | at <= i < at + k {
          buf[i] := incoming[i - at];
        }
        incoming := incoming[k..];
        return Moved(k);
    }

    /** `write` and `writev`: the parts are sent one after the other, possibly not to the end. */
    method Write(parts: seq<seq<byte>>) returns (r: CallResult)
      requires |Joined(parts)| > 0
      modifies `outgoing, `script
      ensures script == if old(script) == [] then [] else old(script)[1..]
      ensures r.Interrupted? ==> old(script) != []
      ensures r.Failed? || r == Moved(0) ==> !Benign(old(script))
      ensures r.Moved? ==> r.n <= |Joined(parts)| && outgoing == old(outgoing) + Joined(parts)[..r.n]
      ensures !r.Moved? ==> outgoing == old(outgoing)
    {
      var all := Joined(parts);
      var event := if script == [] then Transfer(|all|) else script[0];
      script := if script == [] then [] else script[1..];
      match event
      case Interrupt => return Interrupted;
      case Refuse => return Failed;
      case Transfer(n) =>
        outgoing := outgoing + all[..Smaller(n, |all|)];
        return Moved(Smaller(n, |all|));
    }
  }

  // ---------------------------------------------------------------------------------------
  // Sending
  // ---------------------------------------------------------------------------------------

  lemma NextPiece(s: seq<byte>, done: nat, n: nat)
    requires done + n <= |s|
    ensures s[..done] + s[done..][..n] == s[..done + n]
  {
  }

  lemma JoinedOne(a: seq<byte>)
    ensures Joined([a]) == a
  {
  }

  /** `write_exact`: all bytes in order, or a proper prefix and failure. */
  method WriteExact(socket: Socket, bytes: seq<byte>) returns (ok: bool, ghost sent: nat)
    modifies socket`outgoing, socket`script
    ensures sent <= |bytes| && socket.outgoing == old(socket.outgoing) + bytes[..sent]
    ensures ok <==> sent == |bytes|
    ensures Benign(old(socket.script)) ==> ok && Benign(socket.script)
  {
    var done := 0;
    while done < |bytes|
      invariant 0 <= done <= |bytes|
      invariant socket.outgoing == old(socket.outgoing) + bytes[..done]
      invariant Benign(old(socket.script)) ==> Benign(socket.script)
      decreases |socket.script|, |bytes| - done
    {
      JoinedOne(bytes[done..]);
      var w := socket.Write([bytes[done..]]);
      if w.Moved? && w.n > 0 {
        NextPiece(bytes, done, w.n);
        done := done + w.n;
        continue;
      }
      if w.Interrupted? {
        continue;
      }
      return false, done;
    }
    return true, done;
  }

  lemma JoinedTwo(a: seq<byte>, b: seq<byte>)
    ensures Joined([a, b]) == a + b
  {
    assert [a, b][1..] == [b];
    JoinedOne(b);
  }

  /** The two io-vectors describe exactly the bytes that have not been sent. */
  lemma PartsAreTheRest(header: seq<byte>, payload: seq<byte>, done: nat, parts: seq<seq<byte>>)
    requires |header| == HEADER_SIZE && done < HEADER_SIZE + |payload|
    requires parts == (if done < HEADER_SIZE then [header[done..]] else [])
                      + [payload[if done > HEADER_SIZE then done - HEADER_SIZE else 0..]]
    ensures Joined(parts) == (header + payload)[done..]
  {
    if done < HEADER_SIZE {
      JoinedTwo(header[done..], payload);
      assert payload[0..] == payload;
    } else {
      JoinedOne(payload[done - HEADER_SIZE..]);
    }
  }

  /** `send_frame`: the wire carries the whole frame, or a proper prefix of it and failure; a
      payload above the limit sends nothing. */
  method SendFrame(socket: Socket, kind: u32, reqId: u32, payload: seq<byte>) returns (ok: bool, ghost sent: nat)
    modifies socket`outgoing, socket`script
    ensures |payload| > 512 * 1024 * 1024 ==> !ok && socket.outgoing == old(socket.outgoing)
    ensures |payload| <= 512 * 1024 * 1024 ==>
      var wire := Encode(Frame(kind, reqId, payload));
      && sent <= |wire| && socket.outgoing == old(socket.outgoing) + wire[..sent]
      && (ok <==> sent == |wire|)
      && (Benign(old(socket.script)) ==> ok && Benign(socket.script))
  {
    hide HeaderBytes, Joined, Le32, FromLe32;
    if |payload| > MAX_PAYLOAD {
      return false, 0;
    }
    var header := HeaderBytes(kind, |payload| as u32, reqId);
    if |payload| == 0 {
      assert Encode(Frame(kind, reqId, payload)) == header;
      ok, sent := WriteExact(socket, header);
      return;
    }
    ghost var wire := Encode(Frame(kind, reqId, payload));
    var total := HEADER_SIZE + |payload|;
    var done := 0;
    while done < total
      invariant 0 <= done <= total == |wire|
      invariant socket.outgoing == old(socket.outgoing) + wire[..done]
      invariant Benign(old(socket.script)) ==> Benign(socket.script)
      decreases |socket.script|, total - done
    {
      var parts := [];
      var headerSkip := Smaller(done, HEADER_SIZE);
      if headerSkip < HEADER_SIZE {
        parts := parts + [header[headerSkip..]];
      }
      var payloadSkip := if done > HEADER_SIZE then done - HEADER_SIZE else 0;
      parts := parts + [payload[payloadSkip..]];
      PartsAreTheRest(header, payload, done, parts);
      var w := socket.Write(parts);
      if w.Moved? && w.n > 0 {
        NextPiece(wire, done, w.n);
        done := done + w.n;
        continue;
      }
      if w.Interrupted? {
        continue;
      }
      return false, done;
    }
    return true, done;
  }

  // ---------------------------------------------------------------------------------------
  // Receiving
  // ---------------------------------------------------------------------------------------

  /** The error of a stream that ends before `wanted` bytes. */
  function Shortage(stream: seq<byte>, wanted: nat): IpcError {
    if wanted <= |stream| then OK else if stream == [] then EofClean else EofMidFrame
  }

  /** `read_exact`: fills the buffer with the next bytes of the stream. Signals and short reads
      leave no trace: only the length of the stream decides the outcome. */
  method ReadExact(socket: Socket, buf: array<byte>) returns (ok: bool, e: IpcError)
    modifies socket`incoming, socket`script, buf
    ensures ok ==>
      && buf.Length <= |old(socket.incoming)| && e == OK
      && buf[..] == old(socket.incoming)[..buf.Length]
      && socket.incoming == old(socket.incoming)[buf.Length..]
    ensures !ok ==> (e == SocketError && !Benign(old(socket.script))) ||
                    (e == Shortage(old(socket.incoming), buf.Length) && e != OK && socket.incoming == [])
    ensures Benign(old(socket.script)) ==> Benign(socket.script) && (ok <==> buf.Length <= |old(socket.incoming)|)
  {
    var got := 0;
    while got < buf.Length
      invariant 0 <= got <= buf.Length && got <= |old(socket.incoming)|
      invariant buf[..got] == old(socket.incoming)[..got]
      invariant socket.incoming == old(socket.incoming)[got..]
      invariant Benign(old(socket.script)) ==> Benign(socket.script)
      decreases |socket.script|, buf.Length - got
    {
      var r := socket.Read(buf, got);
      if r.Moved? && r.n > 0 {
        assert buf[..got + r.n] == buf[..got] + buf[got..got + r.n];
        got := got + r.n;
        continue;
      }
      if r.Moved? {
        return false, if got == 0 then EofClean else EofMidFrame;
      }
      if r.Interrupted? {
        continue;
      }
      return false, SocketError;
    }
    return true, OK;
  }

  /** What one `recv_frame` makes of a stream when no call fails. */
  datatype Reception = Got(frame: Frame, rest: seq<byte>) | Lost(error: IpcError)

  function Receive(stream: seq<byte>): Reception {
    if |stream| < HEADER_SIZE then Lost(Shortage(stream, HEADER_SIZE))
    else
      var kind, len, reqId := FromLe32(stream[..4]), FromLe32(stream[4..8]), FromLe32(stream[8..12]);
      var body := stream[HEADER_SIZE..];
      if len as int > MAX_PAYLOAD then Lost(PayloadTooBig)
      else if len as int <= |body| then Got(Frame(kind, reqId, body[..len]), body[len..])
      else Lost(Shortage(body, len as int))
  }

  /** `recv_frame`. */
  method RecvFrame(socket: Socket) returns (ok: bool, frame: Frame, e: IpcError)
    modifies socket`incoming, socket`script
    ensures var r := Receive(old(socket.incoming));
            && (ok ==> r == Got(frame, socket.incoming) && e == OK)
            && (!ok ==> r == Lost(e) || (e == SocketError && !Benign(old(socket.script))))
            && (Benign(old(socket.script)) ==> Benign(socket.script) && (ok <==> r.Got?))
  {
    var header := new byte[HEADER_SIZE];
    frame := Frame(0, 0, []);
    ok, e := ReadExact(socket, header);
    if !ok {
      return;
    }
    ghost var stream := old(socket.incoming);
    assert header[..4] == stream[..4] && header[4..8] == stream[4..8] && header[8..] == stream[8..12];
    var kind, len, reqId := FromLe32(header[..4]), FromLe32(header[4..8]), FromLe32(header[8..]);
    if len as int > MAX_PAYLOAD {
      return false, frame, PayloadTooBig;
    }
    var payload := new byte[len as int];
    if len == 0 {
      assert payload[..] == [];
      return true, Frame(kind, reqId, payload[..]), OK;
    }
    ok, e := ReadExact(socket, payload);
    frame := Frame(kind, reqId, payload[..]);
  }

  // ---------------------------------------------------------------------------------------
  // What the peer receives
  // ---------------------------------------------------------------------------------------

  lemma ReceiveEncoded(f: Frame, rest: seq<byte>)
    requires Fits(f)
    ensures Receive(Encode(f) + rest) == Got(f, rest)
  {
  }

  /** A frame cut short is reported as missing, never as another frame. */
  lemma ReceiveCut(f: Frame, cut: nat)
    requires Fits(f) && cut < |Encode(f)|
    ensures Receive(Encode(f)[..cut]) == Lost(if cut == 0 || cut == HEADER_SIZE then EofClean else EofMidFrame)
  {
  }

  /** `EofClean` does not mean a frame boundary: it is also reported when the stream ends right
      after a complete header that announces a payload, and in no other case. */
  lemma EofCleanExactly(stream: seq<byte>)
    ensures Receive(stream) == Lost(EofClean) <==>
      stream == [] || (|stream| == 12 && 0 < FromLe32(stream[4..8]) as int <= 512 * 1024 * 1024)
  {
  }

  predicate AllFit(frames: seq<Frame>) {
    forall i :: 0 <= i < |frames| ==> Fits(frames[i])
  }

  function EncodeAll(frames: seq<Frame>): seq<byte>
    requires AllFit(frames)
  {
    if frames == [] then [] else Encode(frames[0]) + EncodeAll(frames[1..])
  }

  /** All frames a reader takes from a stream before the first error, and that error. */
  function ReceiveAll(stream: seq<byte>): (seq<Frame>, IpcError)
    decreases |stream|
  {
    match Receive(stream)
    case Lost(e) => ([], e)
    case Got(frame, rest) =>
      var (frames, e) := ReceiveAll(rest);
      ([frame] + frames, e)
  }

  lemma ReceivedIsGone(stream: seq<byte>)
    ensures Receive(stream).Got? ==> |Receive(stream).rest| < |stream|
  {
  }

  /** What is received in front goes in front. */
  lemma {:induction false} ReceiveNext(done: seq<Frame>, stream: seq<byte>, frame: Frame, rest: seq<byte>)
    requires Receive(stream) == Got(frame, rest)
    ensures done + ReceiveAll(stream).0 == (done + [frame]) + ReceiveAll(rest).0
    ensures ReceiveAll(stream).1 == ReceiveAll(rest).1
  {
    hide Receive;
  }

  lemma {:induction false} NoneReceived(stream: seq<byte>, e: IpcError)
    requires Receive(stream) == Lost(e)
    ensures ReceiveAll(stream) == ([], e)
  {
  }

  /** The receiving side of the worker's loop: frame after frame until the first error. Signals and short
      reads leave no trace, and a failing call loses only what comes after it. */
  method RecvFrames(socket: Socket) returns (frames: seq<Frame>, e: IpcError)
    modifies socket`incoming, socket`script
    ensures frames <= ReceiveAll(old(socket.incoming)).0
    ensures (frames, e) == ReceiveAll(old(socket.incoming)) || (e == SocketError && !Benign(old(socket.script)))
  {
    hide Receive, ReceiveAll, Benign;
    frames := [];
    while true
      invariant Benign(old(socket.script)) ==> Benign(socket.script)
      invariant ReceiveAll(old(socket.incoming)).0 == frames + ReceiveAll(socket.incoming).0
      invariant ReceiveAll(old(socket.incoming)).1 == ReceiveAll(socket.incoming).1
      decreases |socket.incoming|
    {
      ghost var stream := socket.incoming;
      ReceivedIsGone(stream);
      var ok, frame, err := RecvFrame(socket);
      if !ok {
        if Receive(stream) == Lost(err) {
          NoneReceived(stream, err);
          assert frames + [] == frames;
        }
        return frames, err;
      }
      ReceiveNext(frames, stream, frame, socket.incoming);
      frames := frames + [frame];
    }
  }

  /** The reader of a concatenation of frames gets back exactly those frames. */
  lemma {:induction false} StreamRoundTrip(frames: seq<Frame>)
    requires AllFit(frames)
    ensures ReceiveAll(EncodeAll(frames)) == (frames, EofClean)
  {
    hide Receive, Encode;
    if frames == [] {
      EofCleanExactly([]);
    } else {
      ReceiveEncoded(frames[0], EncodeAll(frames[1..]));
      StreamRoundTrip(frames[1..]);
      assert [frames[0]] + frames[1..] == frames;
    }
  }

  /** Wherever the writer dies, the reader gets the frames that were complete and nothing else. */
  lemma {:induction false} CutStreamKeepsWholeFrames(frames: seq<Frame>, cut: nat) returns (whole: nat)
    requires AllFit(frames) && cut <= |EncodeAll(frames)|
    ensures whole <= |frames| && |EncodeAll(frames[..whole])| <= cut
    ensures whole < |frames| ==> cut < |EncodeAll(frames[..whole])| + |Encode(frames[whole])|
    ensures ReceiveAll(EncodeAll(frames)[..cut]).0 == frames[..whole]
    ensures ReceiveAll(EncodeAll(frames)[..cut]).1 == EofClean || ReceiveAll(EncodeAll(frames)[..cut]).1 == EofMidFrame
  {
    hide Receive, Encode;
    if frames == [] {
      EofCleanExactly([]);
      whole := 0;
    } else if cut < |Encode(frames[0])| {
      whole := 0;
      assert EncodeAll(frames)[..cut] == Encode(frames[0])[..cut];
      ReceiveCut(frames[0], cut);
    } else {
      var n := |Encode(frames[0])|;
      whole := CutStreamKeepsWholeFrames(frames[1..], cut - n);
      assert EncodeAll(frames)[..cut] == Encode(frames[0]) + EncodeAll(frames[1..])[..cut - n];
      ReceiveEncoded(frames[0], EncodeAll(frames[1..])[..cut - n]);
      whole := whole + 1;
      assert frames[..whole][1..] == frames[1..][..whole - 1];
      assert frames[..whole] == [frames[0]] + frames[1..][..whole - 1];
    }
  }
}
