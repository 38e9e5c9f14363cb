/** The outgoing half of one connection: `sendToClient`, `handleWrite`, the pong reply and `disconnectClient` of
    gateway/src/EpollServer.cpp, over the write buffer and write flag of gateway/include/Connection.h. The kernel may
    take any part of the bytes offered, say EAGAIN, or fail. The history starts after the WebSocket upgrade. */
module ConnectionIo {
  import opened WsFrames
  import opened WebSocketCodec

  /** `wire` is what the kernel took, `handed` everything handed over for sending while the connection was live,
      `sent` the same as frames (WebSocket only); `interest` says whether epoll watches for writability. */
  datatype Io = Io(live: bool, websocket: bool, buffer: seq<Byte>, pending: bool, interest: bool,
                   wire: seq<Byte>, handed: seq<Byte>, sent: seq<WsFrame>)

  /** How a write loop over some bytes ends, and after how many of them. */
  datatype Flush = Flushed | Blocked(n: nat) | Broken(n: nat) {
    predicate Fits(data: seq<Byte>) {
      Flushed? || n < |data|
    }
  }

  datatype Event =
    | SendMsg(msg: seq<Byte>, result: Flush, ctlOk: bool)
    | Ping(payload: seq<Byte>, ctlOk: bool)
    | Writable(result: Flush, ctlOk: bool)
    | Drop

  function Closed(s: Io): Io {
    s.(live := false, buffer := [], pending := false, interest := false)
  }

  function TextFrame(msg: seq<Byte>): WsFrame { MakeFrame(true, OP_TEXT, msg) }

  function PongFrame(data: seq<Byte>): WsFrame { MakeFrame(true, OP_PONG, data) }

  /** The bytes `sendToClient` sends for a message. */
  function Wrap(websocket: bool, msg: seq<Byte>): seq<Byte>
    requires |msg| < U64
  {
    if websocket then EncodeServer(TextFrame(msg)) else msg
  }

  function Send(s: Io, msg: seq<Byte>, r: Flush, ctlOk: bool): Io
    requires |msg| < U64 && r.Fits(Wrap(s.websocket, msg))
  {
    if !s.live then s else
    var data := Wrap(s.websocket, msg);
    var s1 := s.(handed := s.handed + data, sent := s.sent + [TextFrame(msg)]);
    if s.buffer != [] then s1.(buffer := s.buffer + data) else
    match r
    case Flushed => s1.(wire := s.wire + data)
    case Broken(n) => Closed(s1.(wire := s.wire + data[..n]))
    case Blocked(n) =>
      var s2 := s1.(wire := s.wire + data[..n], buffer := data[n..]);
      if s.pending then s2 else if ctlOk then s2.(pending := true, interest := true) else Closed(s2)
  }

  function Pong(s: Io, payload: seq<Byte>, ctlOk: bool): Io
    requires |payload| < U64
  {
    if !s.live then s else
    var data := EncodeServer(PongFrame(payload));
    s.(buffer := s.buffer + data, handed := s.handed + data, sent := s.sent + [PongFrame(payload)],
       pending := true, interest := s.interest || (ctlOk && !s.pending))
  }

  function OnWritable(s: Io, r: Flush, ctlOk: bool): Io
    requires r.Fits(s.buffer)
  {
    if !s.live then s else
    match if s.buffer == [] then Flushed else r
    case Flushed => s.(wire := s.wire + s.buffer, buffer := [], pending := false, interest := s.interest && !ctlOk)
    case Blocked(n) => s.(wire := s.wire + s.buffer[..n], buffer := s.buffer[n..])
    case Broken(n) => Closed(s.(wire := s.wire + s.buffer[..n]))
  }

  ghost predicate Possible(s: Io, e: Event) {
    match e
    case SendMsg(msg, r, _) => |msg| < U64 && r.Fits(Wrap(s.websocket, msg))
    case Ping(payload, _) => s.websocket && |payload| < U64
    case Writable(r, _) => r.Fits(s.buffer)
    case Drop => true
  }

  ghost function Step(s: Io, e: Event): Io
    requires Possible(s, e)
  {
    match e
    case SendMsg(msg, r, ctlOk) => Send(s, msg, r, ctlOk)
    case Ping(payload, ctlOk) => Pong(s, payload, ctlOk)
    case Writable(r, ctlOk) => OnWritable(s, r, ctlOk)
    case Drop => if s.live then Closed(s) else s
  }

  // ---------- The methods ----------

  class Connection {
    const websocket: bool
    var live: bool
    var writeBuffer: seq<Byte>
    var writePending: bool
    var interest: bool
    ghost var wire: seq<Byte>
    ghost var handed: seq<Byte>
    ghost var sent: seq<WsFrame>

    ghost function State(): Io
      reads this
    {
      Io(live, websocket, writeBuffer, writePending, interest, wire, handed, sent)
    }

    constructor (ws: bool)
      ensures State() == Start(ws)
    {
      websocket, live, writeBuffer, writePending, interest := ws, true, [], false, false;
      wire, handed, sent := [], [], [];
    }

    /** write(2) on a non-blocking socket: any positive count, EAGAIN, or an error. */
    method Write(data: seq<Byte>) returns (n: int, again: bool)
      requires data != []
      modifies `wire
      ensures n <= |data| && (n > 0 ==> wire == old(wire) + data[..n]) && (n <= 0 ==> wire == old(wire))
    {
      var k: nat := *;
      again := *;
      if 0 < k <= |data| {
        n := k;
        wire := wire + data[..n];
      } else {
        n := -1;
      }
    }

    /** epoll_ctl(EPOLL_CTL_MOD, EPOLLIN, with EPOLLOUT when `out`). */
    method Watch(out: bool) returns (ok: bool)
      modifies `interest
      ensures interest == if ok then out else old(interest)
    {
      ok := *;
      if ok {
        interest := out;
      }
    }

    /** The write loop common to `sendToClient` and `handleWrite`. */
    method WriteAll(data: seq<Byte>) returns (total: nat, failed: bool)
      modifies `wire
      ensures total <= |data| && wire == old(wire) + data[..total]
      ensures failed ==> total < |data|
    {
      total, failed := 0, false;
      while total < |data|
        invariant total <= |data| && wire == old(wire) + data[..total]
      {
        var n, again := Write(data[total..]);
        if n > 0 {
          assert data[..total] + data[total..][..n] == data[..total + n];
          total := total + n;
        } else {
          return total, !again;
        }
      }
    }

    method Disconnect()
      modifies this
      ensures State() == if old(live) then Closed(old(State())) else old(State())
    {
      if live {
        writeBuffer, writePending, interest, live := [], false, false, false;
      }
    }

    method SendToClient(msg: seq<Byte>) returns (ghost r: Flush, ghost ctlOk: bool)
      requires |msg| < U64
      modifies this
      ensures r.Fits(Wrap(websocket, msg)) && State() == Send(old(State()), msg, r, ctlOk)
    {
      hide EncodeServer, DecodeFrame, MakeFrame;
      r, ctlOk := Flushed, true;
      if !live { return; }
      var data := msg;
      if websocket {
        data := EncodeText(msg);
      }
      assert data == Wrap(websocket, msg);
      hide Wrap;
      handed, sent := handed + data, sent + [TextFrame(msg)];
      if writeBuffer != [] {
        writeBuffer := writeBuffer + data;
        return;
      }
      var total, failed := WriteAll(data);
      if total == |data| {
        assert data[..total] == data;
        return;
      }
      if failed {
        r := Broken(total);
        Disconnect();
        return;
      }
      r := Blocked(total);
      writeBuffer := data[total..];
      if !writePending {
        writePending := true;
        var ok := Watch(true);
        ctlOk := ok;
        if !ok {
          Disconnect();
        }
      }
    }

    /** The PING case of `handleWsControlFrame`; the result of epoll_ctl is not looked at. */
    method OnPing(payload: seq<Byte>) returns (ghost ctlOk: bool)
      requires websocket && live && |payload| < U64
      modifies this
      ensures State() == Pong(old(State()), payload, ctlOk)
    {
      hide EncodeServer;
      ctlOk := false;
      var data := EncodePong(payload);
      writeBuffer := writeBuffer + data;
      handed, sent := handed + data, sent + [PongFrame(payload)];
      if !writePending {
        writePending := true;
        var ok := Watch(true);
        ctlOk := ok;
      }
    }

    method HandleWrite() returns (ghost r: Flush, ghost ctlOk: bool)
      modifies this
      ensures r.Fits(old(writeBuffer)) && State() == OnWritable(old(State()), r, ctlOk)
    {
      r, ctlOk := Flushed, true;
      if !live { return; }
      if writeBuffer == [] {
        writePending := false;
        var ok := Watch(false);
        ctlOk := ok;
        return;
      }
      var total, failed := WriteAll(writeBuffer);
      if total == |writeBuffer| {
        assert writeBuffer[..total] == writeBuffer;
        writeBuffer := [];
        writePending := false;
        var ok := Watch(false);
        ctlOk := ok;
      } else if failed {
        r := Broken(total);
        Disconnect();
      } else {
        r := Blocked(total);
        writeBuffer := writeBuffer[total..];
      }
    }
  }

  // ---------- Conservation and wakeups ----------

  function Start(websocket: bool): Io {
    Io(true, websocket, [], false, false, [], [], [])
  }

  ghost predicate Conserved(s: Io) {
    && (s.live ==> s.wire + s.buffer == s.handed)
    && (!s.live ==> s.buffer == [] && !s.pending && s.wire <= s.handed)
    && AllSendable(s.sent) && (s.websocket ==> s.handed == EncodeStream(s.sent))
    && (s.pending <==> s.buffer != [])
  }

  /** Unsent bytes are never left without a wakeup. */
  ghost predicate Awake(s: Io) {
    s.live && s.buffer != [] ==> s.interest
  }

  lemma {:induction false} StreamAppend(fs: seq<WsFrame>, f: WsFrame)
    requires AllSendable(fs) && Sendable(f)
    ensures AllSendable(fs + [f]) && EncodeStream(fs + [f]) == EncodeStream(fs) + EncodeServer(f)
    decreases |fs|
  {
    hide EncodeServer;
    if fs == [] {
      assert EncodeStream([f]) == EncodeServer(f) + EncodeStream([]);
      assert [] + [f] == [f];
    } else {
      assert (fs + [f])[1..] == fs[1..] + [f];
      StreamAppend(fs[1..], f);
    }
  }

  lemma SplitAt(wire: seq<Byte>, data: seq<Byte>, n: nat)
    requires n <= |data|
    ensures (wire + data[..n]) + data[n..] == wire + data && wire + data[..n] <= wire + data
  {
    assert data == data[..n] + data[n..];
  }

  lemma SendConserves(s: Io, msg: seq<Byte>, r: Flush, ctlOk: bool)
    requires Conserved(s) && |msg| < U64 && r.Fits(Wrap(s.websocket, msg))
    ensures Conserved(Send(s, msg, r, ctlOk))
    ensures Awake(s) ==> Awake(Send(s, msg, r, ctlOk))
  {
    hide EncodeServer, EncodeStream;
    if s.live {
      var data := Wrap(s.websocket, msg);
      StreamAppend(s.sent, TextFrame(msg));
      if s.buffer != [] {
        assert s.wire + (s.buffer + data) == (s.wire + s.buffer) + data;
      } else {
        assert s.wire + s.buffer == s.wire;
        SplitAt(s.wire, data, if r.Flushed? then |data| else r.n);
        assert data[..|data|] == data;
      }
    }
  }

  lemma WritableConserves(s: Io, r: Flush, ctlOk: bool)
    requires Conserved(s) && r.Fits(s.buffer)
    ensures Conserved(OnWritable(s, r, ctlOk))
    ensures Awake(s) ==> Awake(OnWritable(s, r, ctlOk))
  {
    hide EncodeStream;
    if s.live && !r.Flushed? {
      SplitAt(s.wire, s.buffer, r.n);
    }
  }

  lemma PongConserves(s: Io, payload: seq<Byte>, ctlOk: bool)
    requires Conserved(s) && s.websocket && |payload| < U64
    ensures Conserved(Pong(s, payload, ctlOk))
  {
    if s.live {
      var data := EncodeServer(PongFrame(payload));
      assert |data| >= 2;
      hide EncodeServer, EncodeStream;
      StreamAppend(s.sent, PongFrame(payload));
      assert s.wire + (s.buffer + data) == (s.wire + s.buffer) + data;
    }
  }

  /** The unchecked epoll_ctl of the ping branch: the wakeup is lost exactly when that call fails while writability
      is not already being watched for. */
  lemma PongWakes(s: Io, payload: seq<Byte>, ctlOk: bool)
    requires Conserved(s) && Awake(s) && s.live && s.websocket && |payload| < U64
    ensures Awake(Pong(s, payload, ctlOk)) <==> ctlOk || s.interest
  {
    assert |EncodeServer(PongFrame(payload))| >= 2;
    hide EncodeStream;
  }

  ghost predicate IsRun(states: seq<Io>, events: seq<Event>) {
    && |states| == |events| + 1
    && forall i {:trigger events[i]} :: 0 <= i < |events| ==>
         Possible(states[i], events[i]) && states[i + 1] == Step(states[i], events[i])
  }

  /** A ping on a live connection finds epoll_ctl working, or writability already watched for. */
  ghost predicate Registered(s: Io, e: Event) {
    e.Ping? && s.live ==> e.ctlOk || s.interest
  }

  ghost predicate PingsRegistered(states: seq<Io>, events: seq<Event>, n: nat) {
    forall i {:trigger events[i]} :: 0 <= i < n && i < |events| && i < |states| ==> Registered(states[i], events[i])
  }

  ghost predicate AlwaysAwake(states: seq<Io>, n: nat) {
    forall k :: 0 <= k <= n && k < |states| ==> Awake(states[k])
  }

  lemma StepConserves(s: Io, e: Event)
    requires Possible(s, e) && Conserved(s)
    ensures Conserved(Step(s, e))
    ensures Awake(s) ==> (Awake(Step(s, e)) <==> Registered(s, e))
  {
    hide Conserved, Send, Pong, OnWritable, Wrap;
    match e
    case SendMsg(msg, r, ctlOk) => SendConserves(s, msg, r, ctlOk);
    case Ping(payload, ctlOk) =>
      PongConserves(s, payload, ctlOk);
      if !s.live {
        DeadPong(s, payload, ctlOk);
      } else if Awake(s) {
        PongWakes(s, payload, ctlOk);
      }
    case Writable(r, ctlOk) => WritableConserves(s, r, ctlOk);
    case Drop => DropConserves(s);
  }

  lemma DeadPong(s: Io, payload: seq<Byte>, ctlOk: bool)
    requires !s.live && |payload| < U64
    ensures Pong(s, payload, ctlOk) == s
  {
  }

  lemma DropConserves(s: Io)
    requires Conserved(s)
    ensures Conserved(Step(s, Drop)) && (Awake(s) ==> Awake(Step(s, Drop)))
  {
    hide EncodeStream;
    if s.live {
      assert s.wire <= s.wire + s.buffer;
    }
  }

  /** Every run of sends, pings, short writes, EAGAINs, errors and write events. */
  lemma {:induction false} RunConserves(states: seq<Io>, events: seq<Event>, websocket: bool, k: nat)
    requires IsRun(states, events) && states[0] == Start(websocket) && k < |states|
    ensures Conserved(states[k]) && states[k].websocket == websocket
  {
    if k == 0 {
      assert EncodeStream([]) == [] && AllSendable([]);
    } else {
      RunConserves(states, events, websocket, k - 1);
      var s, e := states[k - 1], events[k - 1];
      assert states[k] == Step(s, e);
      StepConserves(s, e);
      hide Conserved;
    }
  }

  /** No wakeup is lost up to a point in a run exactly when every ping until then was registered. */
  lemma {:induction false} AwakeIff(states: seq<Io>, events: seq<Event>, websocket: bool, n: nat)
    requires IsRun(states, events) && states[0] == Start(websocket) && n < |states|
    ensures AlwaysAwake(states, n) <==> PingsRegistered(states, events, n)
  {
    if n > 0 {
      var k := n - 1;
      assert Possible(states[k], events[k]) && states[k + 1] == Step(states[k], events[k]);
      AwakeIff(states, events, websocket, k);
      RunConserves(states, events, websocket, k);
      assert AlwaysAwake(states, n) <==> AlwaysAwake(states, k) && Awake(states[n]);
      assert PingsRegistered(states, events, n) <==>
             PingsRegistered(states, events, k) && Registered(states[k], events[k]);
      hide Possible, Step, Conserved, Registered, PingsRegistered, Awake;
      StepConserves(states[k], events[k]);
    }
  }

  /** What the application hands over in an event, and in some events. */
  function OfferedBy(websocket: bool, e: Event): seq<Byte> {
    match e
    case SendMsg(msg, _, _) => if |msg| < U64 then Wrap(websocket, msg) else []
    case Ping(payload, _) => if |payload| < U64 then EncodeServer(PongFrame(payload)) else []
    case _ => []
  }

  function Offered(websocket: bool, events: seq<Event>): seq<Byte>
    decreases |events|
  {
    if events == [] then [] else
    Offered(websocket, events[..|events| - 1]) + OfferedBy(websocket, events[|events| - 1])
  }

  lemma StepHands(s: Io, e: Event)
    requires Possible(s, e) && Step(s, e).live
    ensures var t := Step(s, e);
            s.live && t.websocket == s.websocket && t.handed == s.handed + OfferedBy(s.websocket, e)
  {
    hide EncodeServer;
    assert s.handed + [] == s.handed;
  }

  /** While the connection lives, wire and buffer together are all of it, in order. */
  lemma {:induction false} NothingLost(states: seq<Io>, events: seq<Event>, websocket: bool, k: nat)
    requires IsRun(states, events) && states[0] == Start(websocket) && k < |states| && states[k].live
    ensures states[k].wire + states[k].buffer == Offered(websocket, events[..k])
  {
    HandedIsOffered(states, events, websocket, k);
    RunConserves(states, events, websocket, k);
  }

  lemma {:induction false} HandedIsOffered(states: seq<Io>, events: seq<Event>, websocket: bool, k: nat)
    requires IsRun(states, events) && states[0] == Start(websocket) && k < |states| && states[k].live
    ensures states[k].handed == Offered(websocket, events[..k]) && states[k].websocket == websocket
  {
    if k > 0 {
      var s, e := states[k - 1], events[k - 1];
      assert Possible(s, e) && states[k] == Step(s, e);
      assert events[..k][..k - 1] == events[..k - 1];
      hide Step, OfferedBy, Possible;
      StepHands(s, e);
      HandedIsOffered(states, events, websocket, k - 1);
    }
  }

  /** Whatever was flushed, a client of a WebSocket connection sees whole messages in the order of sending. */
  lemma WireShowsWholeFrames(states: seq<Io>, events: seq<Event>, k: nat)
    requires IsRun(states, events) && states[0] == Start(true) && k < |states|
    ensures AllSendable(states[k].sent) && Shows(states[k].wire, states[k].sent)
  {
    RunConserves(states, events, true, k);
    var s := states[k];
    assert s.wire <= EncodeStream(s.sent) by {
      if s.live {
        assert s.wire <= s.wire + s.buffer;
      }
    }
    PrefixDecodes(s.sent, s.wire);
  }

  // ---------- In the application's own terms ----------

  /** What the application sends on a plain connection: its messages, one behind the other, as they are. */
  function Messages(events: seq<Event>): seq<Byte>
    decreases |events|
  {
    if events == [] then [] else
    Messages(events[..|events| - 1]) + match events[|events| - 1] case SendMsg(msg, _, _) => msg case _ => []
  }

  /** On a WebSocket connection: a final text frame (opcode 1) for a message, a final pong (opcode 10) with the ping's
      own payload for a ping. */
  function Frames(events: seq<Event>): seq<WsFrame>
    decreases |events|
  {
    if events == [] then [] else
    Frames(events[..|events| - 1]) + match events[|events| - 1]
                                     case SendMsg(msg, _, _) => [WsFrame(true, 1, false, msg)]
                                     case Ping(payload, _) => [WsFrame(true, 10, true, payload)]
                                     case _ => []
  }

  lemma StepPlain(s: Io, e: Event)
    requires Possible(s, e) && !s.websocket
    ensures !Step(s, e).websocket
    ensures Step(s, e).handed ==
            if s.live then s.handed + (match e case SendMsg(msg, _, _) => msg case _ => []) else s.handed
    ensures Step(s, e).live ==> s.live
  {
    assert s.handed + [] == s.handed;
  }

  /** A plain connection carries the messages and nothing else: all of them while it lives, a prefix after that. */
  lemma {:induction false} PlainBytesKept(states: seq<Io>, events: seq<Event>, k: nat)
    requires IsRun(states, events) && states[0] == Start(false) && k < |states|
    ensures !states[k].websocket && states[k].handed <= Messages(events[..k])
    ensures states[k].live ==> states[k].handed == Messages(events[..k])
  {
    if k > 0 {
      var s, e := states[k - 1], events[k - 1];
      assert Possible(s, e) && states[k] == Step(s, e);
      assert events[..k][..k - 1] == events[..k - 1];
      PlainBytesKept(states, events, k - 1);
      StepPlain(s, e);
      hide Step, Possible, IsRun;
    }
  }

  lemma PlainWire(states: seq<Io>, events: seq<Event>, k: nat)
    requires IsRun(states, events) && states[0] == Start(false) && k < |states|
    ensures states[k].live ==> states[k].wire + states[k].buffer == Messages(events[..k])
    ensures states[k].wire <= Messages(events[..k])
  {
    RunConserves(states, events, false, k);
    PlainBytesKept(states, events, k);
    hide IsRun, Messages, EncodeStream;
    if states[k].live {
      assert states[k].wire <= states[k].wire + states[k].buffer;
    }
  }

  lemma StepFrames(s: Io, e: Event)
    requires Possible(s, e) && s.websocket
    ensures Step(s, e).websocket && (Step(s, e).live ==> s.live)
    ensures Step(s, e).sent == if !s.live then s.sent else s.sent + match e
              case SendMsg(msg, _, _) => [WsFrame(true, 1, false, msg)]
              case Ping(payload, _) => [WsFrame(true, 10, true, payload)]
              case _ => []
  {
    assert s.sent + [] == s.sent;
  }

  lemma {:induction false} FramesKept(states: seq<Io>, events: seq<Event>, k: nat)
    requires IsRun(states, events) && states[0] == Start(true) && k < |states|
    ensures states[k].websocket && states[k].sent <= Frames(events[..k]) && AllSendable(Frames(events[..k]))
    ensures states[k].live ==> states[k].sent == Frames(events[..k])
  {
    if k > 0 {
      var s, e := states[k - 1], events[k - 1];
      assert Possible(s, e) && states[k] == Step(s, e);
      assert events[..k][..k - 1] == events[..k - 1];
      FramesKept(states, events, k - 1);
      StepFrames(s, e);
      SendableFrames(s, e);
      hide Step, Possible, IsRun, Sendable;
    }
  }

  lemma SendableFrames(s: Io, e: Event)
    requires Possible(s, e)
    ensures match e case SendMsg(msg, _, _) => Sendable(WsFrame(true, 1, false, msg))
                    case Ping(payload, _) => Sendable(WsFrame(true, 10, true, payload))
                    case _ => true
  {
  }

  /** Whatever was flushed and whether the connection still lives, the client sees a prefix of exactly these frames. */
  lemma ClientSees(states: seq<Io>, events: seq<Event>, k: nat)
    requires IsRun(states, events) && states[0] == Start(true) && k < |states|
    ensures AllSendable(Frames(events[..k])) && Shows(states[k].wire, Frames(events[..k]))
  {
    RunConserves(states, events, true, k);
    FramesKept(states, events, k);
    var s, fs := states[k], Frames(events[..k]);
    assert s.wire <= EncodeStream(s.sent) by {
      if s.live {
        assert s.wire <= s.wire + s.buffer;
      }
    }
    hide IsRun, Frames, Shows;
    StreamPrefix(s.sent, fs);
    PrefixDecodes(fs, s.wire);
  }

  lemma {:induction false} StreamPrefix(fs: seq<WsFrame>, gs: seq<WsFrame>)
    requires AllSendable(gs) && fs <= gs
    ensures AllSendable(fs) && EncodeStream(fs) <= EncodeStream(gs)
    decreases |fs|
  {
    hide EncodeServer, Sendable;
    if fs != [] {
      assert fs[0] == gs[0] && fs[1..] <= gs[1..];
      StreamPrefix(fs[1..], gs[1..]);
    }
  }

  /** A connection survives everything but a write error, an epoll_ctl that fails when its first bytes have to wait, and
      the end of the connection itself. */
  lemma LivesIff(s: Io, e: Event)
    requires Possible(s, e)
    ensures Step(s, e).live <==> s.live && match e
              case SendMsg(_, r, ctlOk) => s.buffer == [] ==> !r.Broken? && (r.Blocked? && !s.pending ==> ctlOk)
              case Ping(_, _) => true
              case Writable(r, _) => s.buffer == [] || !r.Broken?
              case Drop => false
  {
  }

  /** The kernel takes all: then nothing is left behind. Before it does, a send does not write past waiting bytes. */
  lemma FlushedMeansSent(s: Io, msg: seq<Byte>, r: Flush, ctlOk: bool)
    requires Conserved(s) && s.live && |msg| < U64 && r.Fits(Wrap(s.websocket, msg))
    ensures var t := OnWritable(s, Flushed, ctlOk);
            t.live && t.wire == t.handed == s.handed && t.buffer == [] && !t.pending
    ensures var t := Send(s, msg, r, ctlOk); s.buffer != [] ==> t.live && t.wire == s.wire
    ensures var t := Send(s, msg, Flushed, ctlOk); s.buffer == [] ==> t.live && t.wire == t.handed && t.buffer == []
  {
    hide EncodeStream, EncodeServer;
    assert s.wire + [] == s.wire;
  }

  /** When epoll no longer watches a live connection for writability, everything handed over is on the wire. */
  lemma QuietMeansSent(states: seq<Io>, events: seq<Event>, websocket: bool, k: nat)
    requires IsRun(states, events) && states[0] == Start(websocket) && k < |states| &&
             PingsRegistered(states, events, k)
    requires states[k].live && !states[k].interest
    ensures states[k].wire == states[k].handed && !states[k].pending
  {
    RunConserves(states, events, websocket, k);
    AwakeIff(states, events, websocket, k);
    assert Awake(states[k]);
    hide EncodeStream;
    assert states[k].wire + [] == states[k].wire;
  }
}
