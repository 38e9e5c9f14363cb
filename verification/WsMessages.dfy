/** Fragment reassembly: the part of `handleWsRead` that turns frames into messages (gateway/src/EpollServer.cpp
    lines 1047-1071) with the three helpers at the end of gateway/src/WebSocketCodec.cpp. */
module WsMessages {
  import opened WsFrames
  import opened WsReads
  import opened WsContract

  datatype Assembly = Assembly(inFragmented: bool, fragmentOpcode: Byte, buffer: seq<Byte>,
                               messages: seq<seq<Byte>>, pongs: seq<seq<Byte>>, open: bool)

  const FRESH: Assembly := Assembly(false, 0, [], [], [], true)

  predicate NeedsReassembly(f: WsFrame, inFragmented: bool) {
    inFragmented || !f.fin || f.opcode == OP_CONTINUATION
  }

  /** One frame: `messages` logs what goes to `handleMessage`, `pongs` the ping payloads answered. */
  function Handle(s: Assembly, f: WsFrame): Assembly {
    if !s.open then s
    else if f.isControl then
      if f.opcode == OP_PING then s.(pongs := s.pongs + [f.payload])
      else if f.opcode == OP_CLOSE then s.(open := false)
      else s
    else if NeedsReassembly(f, s.inFragmented) then
      var s1 := if s.inFragmented then s else s.(inFragmented := true, fragmentOpcode := f.opcode);
      var whole := s1.buffer + f.payload;
      if f.fin then s1.(messages := s1.messages + [whole], buffer := [], inFragmented := false)
      else s1.(buffer := whole)
    else s.(messages := s.messages + [f.payload])
  }

  function Run(s: Assembly, fs: seq<WsFrame>): Assembly
    decreases |fs|
  {
    if fs == [] then s else Run(Handle(s, fs[0]), fs[1..])
  }

  class WsSession {
    var inFragmented: bool
    var fragmentOpcode: Byte
    var reassemblyBuf: seq<Byte>
    var messages: seq<seq<Byte>>
    var pongs: seq<seq<Byte>>
    var open: bool

    ghost function State(): Assembly
      reads this
    {
      Assembly(inFragmented, fragmentOpcode, reassemblyBuf, messages, pongs, open)
    }

    constructor ()
      ensures State() == FRESH
    {
      inFragmented, fragmentOpcode, reassemblyBuf := false, 0, [];
      messages, pongs, open := [], [], true;
    }

    method AppendToReassembly(f: WsFrame)
      modifies `reassemblyBuf
      ensures reassemblyBuf == old(reassemblyBuf) + f.payload
    {
      reassemblyBuf := reassemblyBuf + f.payload;
    }

    method FinalizeReassembly() returns (message: seq<Byte>)
      modifies `reassemblyBuf
      ensures message == old(reassemblyBuf) && reassemblyBuf == []
    {
      message := reassemblyBuf;
      reassemblyBuf := [];
    }

    method OnFrame(f: WsFrame)
      requires open
      modifies this
      ensures State() == Handle(old(State()), f)
    {
      if f.isControl {
        if f.opcode == OP_PING {
          pongs := pongs + [f.payload];
        } else if f.opcode == OP_CLOSE {
          open := false;
        }
        return;
      }
      if NeedsReassembly(f, inFragmented) {
        if !inFragmented {
          inFragmented := true;
          fragmentOpcode := f.opcode;
        }
        AppendToReassembly(f);
        if f.fin {
          var message := FinalizeReassembly();
          inFragmented := false;
          messages := messages + [message];
        }
      } else {
        messages := messages + [f.payload];
      }
    }

    method OnFrames(fs: seq<WsFrame>)
      modifies this
      ensures State() == Run(old(State()), fs)
    {
      for i := 0 to |fs|
        invariant Run(State(), fs[i..]) == Run(old(State()), fs)
      {
        if open {
          OnFrame(fs[i]);
        }
      }
    }
  }

  // ---------- What a sender may do (sections 5.4 and 5.5) ----------

  /** A message is a first fragment and any number of continuation fragments. */
  datatype Message = Message(opcode: Byte, first: seq<Byte>, more: seq<seq<Byte>>) {
    predicate WellFormed() {
      0 < opcode < 8
    }

    function Payload(): seq<Byte> {
      first + Concat(more)
    }

    function Frames(): seq<WsFrame> {
      [WsFrame(more == [], opcode, false, first)] + Continuations(more)
    }
  }

  function Continuations(parts: seq<seq<Byte>>): seq<WsFrame> {
    if parts == [] then [] else [WsFrame(|parts| == 1, 0, false, parts[0])] + Continuations(parts[1..])
  }

  function AllFrames(ms: seq<Message>): seq<WsFrame> {
    if ms == [] then [] else ms[0].Frames() + AllFrames(ms[1..])
  }

  function Payloads(ms: seq<Message>): seq<seq<Byte>> {
    if ms == [] then [] else [ms[0].Payload()] + Payloads(ms[1..])
  }

  ghost predicate AllMessages(ms: seq<Message>) {
    forall i :: 0 <= i < |ms| ==> ms[i].WellFormed()
  }

  /** Control frames may come between any two fragments. */
  function DataFrames(fs: seq<WsFrame>): seq<WsFrame> {
    if fs == [] then [] else (if fs[0].isControl then [] else [fs[0]]) + DataFrames(fs[1..])
  }

  function PingPayloads(fs: seq<WsFrame>): seq<seq<Byte>> {
    if fs == [] then [] else
    (if fs[0].isControl && fs[0].opcode == 9 then [fs[0].payload] else []) + PingPayloads(fs[1..])
  }

  ghost predicate NoClose(fs: seq<WsFrame>) {
    forall i :: 0 <= i < |fs| ==> !(fs[i].isControl && fs[i].opcode == 8)
  }

  // ---------- Reassembly is right ----------

  /** Whatever frames arrive, in whatever order: no half message is kept outside a fragmented message. */
  lemma {:induction false} BufferEmptyOutsideMessages(fs: seq<WsFrame>, s: Assembly)
    requires !s.inFragmented ==> s.buffer == []
    ensures var t := Run(s, fs); (!t.inFragmented ==> t.buffer == []) && s.messages <= t.messages
    decreases |fs|
  {
    if fs != [] {
      BufferEmptyOutsideMessages(fs[1..], Handle(s, fs[0]));
    }
  }

  lemma {:induction false} RunAppend(s: Assembly, a: seq<WsFrame>, b: seq<WsFrame>)
    ensures Run(s, a + b) == Run(Run(s, a), b)
    decreases |a|
  {
    if a == [] {
      assert a + b == b;
    } else {
      assert (a + b)[1..] == a[1..] + b;
      RunAppend(Handle(s, a[0]), a[1..], b);
    }
  }

  lemma {:induction false} ControlFramesTransparent(s: Assembly, fs: seq<WsFrame>)
    requires s.open && NoClose(fs)
    ensures Run(s, fs) == Run(s, DataFrames(fs)).(pongs := s.pongs + PingPayloads(fs))
    decreases |fs|
  {
    if fs == [] {
      assert s.pongs + [] == s.pongs;
    } else {
      ControlFramesTransparent(Handle(s, fs[0]), fs[1..]);
      if fs[0].isControl {
        ControlFirst(s, fs[0], fs[1..]);
      } else {
        DataFirst(s, fs[0], fs[1..]);
      }
      assert fs == [fs[0]] + fs[1..];
    }
  }

  lemma ControlFirst(s: Assembly, f: WsFrame, rest: seq<WsFrame>)
    requires s.open && f.isControl && f.opcode != OP_CLOSE
    requires var s1 := Handle(s, f); Run(s1, rest) == Run(s1, DataFrames(rest)).(pongs := s1.pongs + PingPayloads(rest))
    ensures var fs := [f] + rest; Run(s, fs) == Run(s, DataFrames(fs)).(pongs := s.pongs + PingPayloads(fs))
  {
    hide Run, DataFrames, PingPayloads, Handle;
    RunFirst(s, f, rest);
    ControlStep(s, f, rest);
    OnlyData(rest);
    PongsAside(s, Handle(s, f).pongs, DataFrames(rest));
  }

  lemma RunFirst(s: Assembly, f: WsFrame, rest: seq<WsFrame>)
    ensures Run(s, [f] + rest) == Run(Handle(s, f), rest)
  {
    hide Handle;
    assert ([f] + rest)[1..] == rest;
  }

  lemma ControlStep(s: Assembly, f: WsFrame, rest: seq<WsFrame>)
    requires s.open && f.isControl && f.opcode != OP_CLOSE
    ensures var s1, fs := Handle(s, f), [f] + rest;
            && s1 == s.(pongs := s1.pongs) && s.pongs + PingPayloads(fs) == s1.pongs + PingPayloads(rest)
            && DataFrames(fs) == DataFrames(rest)
  {
    assert ([f] + rest)[1..] == rest;
    assert [] + DataFrames(rest) == DataFrames(rest);
  }

  lemma DataFirst(s: Assembly, f: WsFrame, rest: seq<WsFrame>)
    requires s.open && !f.isControl
    requires var s1 := Handle(s, f); Run(s1, rest) == Run(s1, DataFrames(rest)).(pongs := s1.pongs + PingPayloads(rest))
    ensures var fs := [f] + rest; Run(s, fs) == Run(s, DataFrames(fs)).(pongs := s.pongs + PingPayloads(fs))
  {
    var fs, s1 := [f] + rest, Handle(s, f);
    assert s1.pongs == s.pongs;
    hide Handle;
    assert fs[1..] == rest && DataFrames(fs) == [f] + DataFrames(rest) && DataFrames(fs)[1..] == DataFrames(rest);
    assert [] + PingPayloads(rest) == PingPayloads(rest) && PingPayloads(fs) == PingPayloads(rest);
    hide DataFrames, PingPayloads;
  }

  lemma {:induction false} OnlyData(fs: seq<WsFrame>)
    ensures forall i :: 0 <= i < |DataFrames(fs)| ==> !DataFrames(fs)[i].isControl
    decreases |fs|
  {
    if fs != [] {
      OnlyData(fs[1..]);
    }
  }

  /** Data frames neither read nor write the pong log. */
  lemma {:induction false} PongsAside(s: Assembly, pongs: seq<seq<Byte>>, fs: seq<WsFrame>)
    requires forall i :: 0 <= i < |fs| ==> !fs[i].isControl
    ensures Run(s.(pongs := pongs), fs) == Run(s, fs).(pongs := pongs)
    decreases |fs|
  {
    if fs != [] {
      PongsAside(Handle(s, fs[0]), pongs, fs[1..]);
    }
  }

  lemma {:induction false} RunContinuations(s: Assembly, parts: seq<seq<Byte>>)
    requires s.open && s.inFragmented && parts != []
    ensures Run(s, Continuations(parts)) ==
            s.(messages := s.messages + [s.buffer + Concat(parts)], buffer := [], inFragmented := false)
    decreases |parts|
  {
    var f := MakeFrame(|parts| == 1, OP_CONTINUATION, parts[0]);
    var fs := Continuations(parts);
    assert fs[0] == f && fs[1..] == Continuations(parts[1..]);
    if |parts| == 1 {
      assert Concat(parts) == parts[0];
    } else {
      var s1 := Handle(s, f);
      RunContinuations(s1, parts[1..]);
      assert s.buffer + Concat(parts) == s1.buffer + Concat(parts[1..]);
    }
  }

  lemma RunMessage(s: Assembly, m: Message)
    requires s.open && !s.inFragmented && s.buffer == [] && m.WellFormed()
    ensures var t := Run(s, m.Frames());
            t == s.(messages := s.messages + [m.Payload()], fragmentOpcode := t.fragmentOpcode)
  {
    var fs := m.Frames();
    assert fs[1..] == Continuations(m.more);
    if m.more == [] {
      assert m.Payload() == m.first;
    } else {
      assert [] + m.first == m.first;
      RunContinuations(Handle(s, fs[0]), m.more);
    }
  }

  lemma {:induction false} RunMessages(s: Assembly, ms: seq<Message>)
    requires s.open && !s.inFragmented && s.buffer == [] && AllMessages(ms)
    ensures var t := Run(s, AllFrames(ms));
            t == s.(messages := s.messages + Payloads(ms), fragmentOpcode := t.fragmentOpcode)
    decreases |ms|
  {
    if ms == [] {
      assert s.messages + [] == s.messages;
    } else {
      var m, rest := ms[0], ms[1..];
      assert AllFrames(ms) == m.Frames() + AllFrames(rest);
      assert Payloads(ms) == [m.Payload()] + Payloads(rest);
      hide Handle, Run, AllFrames, Payloads, Message.Frames, Message.Payload;
      RunAppend(s, m.Frames(), AllFrames(rest));
      RunMessage(s, m);
      var s1 := Run(s, m.Frames());
      RunMessages(s1, rest);
      Regroup(s.messages, [m.Payload()], Payloads(rest), []);
    }
  }

  /** Any messages, split into any fragments, with pings and pongs anywhere in between: exactly the messages are
      dispatched, in order, nothing is left over, and every ping is answered with its own payload. */
  lemma Reassembles(ms: seq<Message>, fs: seq<WsFrame>)
    requires AllMessages(ms) && NoClose(fs) && DataFrames(fs) == AllFrames(ms)
    ensures var t := Run(FRESH, fs);
            && t.messages == Payloads(ms) && t.pongs == PingPayloads(fs)
            && t.buffer == [] && !t.inFragmented && t.open
  {
    ControlFramesTransparent(FRESH, fs);
    RunMessages(FRESH, ms);
    assert [] + Payloads(ms) == Payloads(ms);
    assert [] + PingPayloads(fs) == PingPayloads(fs);
  }

  /** While frames are still coming in, what has been dispatched is a prefix of the messages. */
  lemma DispatchedSoFar(ms: seq<Message>, fs: seq<WsFrame>, k: nat)
    requires AllMessages(ms) && NoClose(fs) && DataFrames(fs) == AllFrames(ms) && k <= |fs|
    ensures Run(FRESH, fs[..k]).messages <= Payloads(ms)
  {
    Reassembles(ms, fs);
    assert fs == fs[..k] + fs[k..];
    RunAppend(FRESH, fs[..k], fs[k..]);
    BufferEmptyOutsideMessages(fs[..k], FRESH);
    BufferEmptyOutsideMessages(fs[k..], Run(FRESH, fs[..k]));
  }

  /** The payload bytes of the data frames, one behind the other. */
  function DataBytes(fs: seq<WsFrame>): seq<Byte> {
    if fs == [] then [] else (if fs[0].isControl then [] else fs[0].payload) + DataBytes(fs[1..])
  }

  /** The opcode remembered is that of the frame that started the message, also of a stray continuation. */
  lemma OpcodeRemembered(s: Assembly, f: WsFrame)
    ensures Handle(s, f).fragmentOpcode ==
            if s.open && !f.isControl && !s.inFragmented && (!f.fin || f.opcode == 0) then f.opcode
            else s.fragmentOpcode
    ensures s.open && !f.isControl ==> (Handle(s, f).inFragmented <==> !f.fin)
  {
  }

  function FinalFrames(fs: seq<WsFrame>): nat {
    if fs == [] then 0 else (if !fs[0].isControl && fs[0].fin then 1 else 0) + FinalFrames(fs[1..])
  }

  /** Whatever data frames come in whatever order, well formed or not: every payload byte is in a dispatched message or
      in the buffer, in order, and every final frame dispatches one message. */
  lemma {:induction false} PayloadsConserved(s: Assembly, fs: seq<WsFrame>)
    requires (!s.inFragmented ==> s.buffer == []) && Run(s, fs).open
    ensures var t := Run(s, fs);
            && Concat(t.messages) + t.buffer == Concat(s.messages) + s.buffer + DataBytes(fs)
            && |t.messages| == |s.messages| + FinalFrames(fs)
    decreases |fs|
  {
    if fs == [] {
      assert s.buffer + [] == s.buffer && Concat(s.messages) + s.buffer + [] == Concat(s.messages) + s.buffer;
    } else {
      OpenBefore(s, fs);
      HandleConserves(s, fs[0]);
      PayloadsConserved(Handle(s, fs[0]), fs[1..]);
      hide Handle, Concat;
      var p := if fs[0].isControl then [] else fs[0].payload;
      assert (Concat(s.messages) + s.buffer + p) + DataBytes(fs[1..]) == Concat(s.messages) + s.buffer + DataBytes(fs);
    }
  }

  lemma {:induction false} OpenBefore(s: Assembly, fs: seq<WsFrame>)
    requires fs != [] && Run(s, fs).open
    ensures s.open && Handle(s, fs[0]).open
  {
    if !Handle(s, fs[0]).open {
      StaysClosed(Handle(s, fs[0]), fs[1..]);
    }
  }

  lemma HandleConserves(s: Assembly, f: WsFrame)
    requires (!s.inFragmented ==> s.buffer == []) && s.open && Handle(s, f).open
    ensures var t := Handle(s, f);
            && (!t.inFragmented ==> t.buffer == [])
            && Concat(t.messages) + t.buffer == Concat(s.messages) + s.buffer + (if f.isControl then [] else f.payload)
            && |t.messages| == |s.messages| + (if !f.isControl && f.fin then 1 else 0)
  {
    var t := Handle(s, f);
    if !f.isControl {
      var whole := s.buffer + f.payload;
      ConcatAppend(s.messages, [whole]);
      ConcatOne(whole);
      hide Concat;
      assert [] + f.payload == f.payload;
      assert Concat(s.messages) + s.buffer + f.payload == Concat(s.messages) + whole;
      assert Concat(s.messages) + whole + [] == Concat(s.messages) + whole;
    } else {
      assert Concat(s.messages) + s.buffer + [] == Concat(s.messages) + s.buffer;
    }
  }

  lemma ConcatOne(x: seq<Byte>)
    ensures Concat([x]) == x
  {
    assert [x][1..] == [] && x + [] == x;
  }

  lemma {:induction false} ConcatAppend(a: seq<seq<Byte>>, b: seq<seq<Byte>>)
    ensures Concat(a + b) == Concat(a) + Concat(b)
  {
    if a == [] {
      assert a + b == b && [] + Concat(b) == Concat(b);
    } else {
      assert (a + b)[1..] == a[1..] + b;
      ConcatAppend(a[1..], b);
    }
  }

  /** A close frame ends the session: nothing behind it is dispatched or answered. */
  lemma CloseEnds(s: Assembly, before: seq<WsFrame>, fin: bool, reason: seq<Byte>, after: seq<WsFrame>)
    ensures Run(s, before + [WsFrame(fin, 8, true, reason)] + after) == Run(s, before).(open := false)
  {
    var close := WsFrame(fin, 8, true, reason);
    RunAppend(s, before + [close], after);
    RunAppend(s, before, [close]);
    RunFirst(Run(s, before), close, []);
    assert [close] + [] == [close];
    assert Handle(Run(s, before), close) == Run(s, before).(open := false);
    assert Run(Run(s, before).(open := false), []) == Run(s, before).(open := false);
    hide Run, Handle;
    StaysClosed(Run(s, before).(open := false), after);
  }

  lemma {:induction false} StaysClosed(s: Assembly, fs: seq<WsFrame>)
    requires !s.open
    ensures Run(s, fs) == s
    decreases |fs|
  {
    if fs != [] {
      StaysClosed(Handle(s, fs[0]), fs[1..]);
    }
  }

  /** The payloads of the pings among some client frames. */
  function ClientPings(cs: seq<ClientFrame>): seq<seq<Byte>> {
    if cs == [] then [] else (if cs[0].opcode == 9 then [cs[0].payload] else []) + ClientPings(cs[1..])
  }

  lemma {:induction false} PingsOfPlains(cs: seq<ClientFrame>)
    requires AllWellFormed(cs)
    ensures PingPayloads(Plains(cs)) == ClientPings(cs)
  {
    if cs != [] {
      ControlIff(cs[0].fin, cs[0].opcode, cs[0].payload);
      PingsOfPlains(cs[1..]);
      assert Plains(cs)[1..] == Plains(cs[1..]);
    }
  }

  /** Parser and reassembly together, over the bytes on the wire. */
  lemma WireToMessages(limit: nat, cs: seq<ClientFrame>, ms: seq<Message>)
    requires AllWellFormed(cs) && forall i :: 0 <= i < |cs| ==> |cs[i].payload| <= limit
    requires AllMessages(ms) && NoClose(Plains(cs)) && DataFrames(Plains(cs)) == AllFrames(ms)
    ensures var t := Run(FRESH, ParseAll(limit, EncodeClients(cs)).0);
            t.messages == Payloads(ms) && t.pongs == ClientPings(cs) && t.open
  {
    hide EncodeClient, ParseAll;
    StreamRoundTrip(limit, cs);
    PingsOfPlains(cs);
    Reassembles(ms, Plains(cs));
  }
}
