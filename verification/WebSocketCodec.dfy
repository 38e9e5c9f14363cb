/** gateway/src/WebSocketCodec.cpp as written: the frame encoders, the XOR mask and the resumable frame parser,
    together with the read loop of gateway/src/EpollServer.cpp that drives the parser. */
module WebSocketCodec {
  import opened WsFrames

  // ---------- Encoders ----------

  /** `n >> (8 * k)` on an unsigned 64-bit length. */
  function ShiftRight(n: nat, k: nat): nat {
    if k == 0 then n else ShiftRight(n, k - 1) / 256
  }

  method AppendFrameHeader(frame: seq<Byte>, fin: bool, opcode: Byte, masked: bool, payloadLen: nat, maskKey: seq<Byte>)
    returns (out: seq<Byte>)
    requires payloadLen < U64
    ensures out == frame + Header(fin, opcode, masked, MinimalForm(payloadLen), payloadLen) +
            (if masked then maskKey else [])
  {
    var b0: Byte := (if fin then 0x80 else 0x00) + opcode % 16;
    var b1: Byte := if masked then 0x80 else 0x00;
    if payloadLen <= 125 {
      out := frame + [b0, b1 + payloadLen];
    } else if payloadLen <= 65535 {
      out := frame + [b0, b1 + 126, payloadLen / 256 % 256, payloadLen % 256];
      assert ToBigEndian(payloadLen, 2) == [payloadLen / 256 % 256, payloadLen % 256];
    } else {
      out := frame + [b0, b1 + 127];
      ghost var start := out;
      for i := 8 downto 0
        invariant out == start + ToBigEndian(ShiftRight(payloadLen, i), 8 - i)
      {
        out := out + [ShiftRight(payloadLen, i) % 256];
      }
    }
    if masked {
      out := out + maskKey;
    }
  }

  method ApplyMask(data: seq<Byte>, maskKey: seq<Byte>) returns (out: seq<Byte>)
    requires |maskKey| == 4
    ensures out == Mask(data, maskKey)
    ensures forall i, k: nat {:trigger Bit(out[i], k)} :: 0 <= i < |data| && k < 8 ==>
              Bit(out[i], k) == (Bit(data[i], k) + Bit(maskKey[i % 4], k)) % 2
  {
    out := data;
    for i := 0 to |data|
      invariant |out| == |data|
      invariant forall j :: 0 <= j < |data| ==> out[j] == if j < i then Xor(data[j], maskKey[j % 4]) else data[j]
    {
      out := out[i := Xor(out[i], maskKey[i % 4])];
    }
    forall i, k: nat | 0 <= i < |data| && k < 8
      ensures Bit(Mask(data, maskKey)[i], k) == (Bit(data[i], k) + Bit(maskKey[i % 4], k)) % 2
    {
      MaskBits(data, maskKey, i, k);
    }
  }

  /** The body shared by the five encoders: a final, unmasked frame that decodes to exactly the payload given. */
  method EncodeWhole(opcode: Byte, data: seq<Byte>) returns (frame: seq<Byte>)
    requires opcode < 16 && |data| < U64
    ensures frame == EncodeServer(MakeFrame(true, opcode, data))
    ensures DecodeFrame(frame) == Whole(MakeFrame(true, opcode, data), false, |frame|)
  {
    var header := AppendFrameHeader([], true, opcode, false, |data|, []);
    frame := header + data;
    ServerRoundTrip(MakeFrame(true, opcode, data), []);
    assert frame + [] == frame;
  }

  method EncodeText(text: seq<Byte>) returns (frame: seq<Byte>)
    requires |text| < U64
    ensures frame == EncodeServer(MakeFrame(true, OP_TEXT, text))
    ensures DecodeFrame(frame) == Whole(WsFrame(true, 1, false, text), false, |frame|)
  {
    frame := EncodeWhole(OP_TEXT, text);
  }

  method EncodeBinary(data: seq<Byte>) returns (frame: seq<Byte>)
    requires |data| < U64
    ensures DecodeFrame(frame) == Whole(WsFrame(true, 2, false, data), false, |frame|)
  {
    frame := EncodeWhole(OP_BINARY, data);
  }

  method EncodePong(data: seq<Byte>) returns (frame: seq<Byte>)
    requires |data| < U64
    ensures frame == EncodeServer(MakeFrame(true, OP_PONG, data))
    ensures DecodeFrame(frame) == Whole(WsFrame(true, 10, true, data), false, |frame|)
  {
    frame := EncodeWhole(OP_PONG, data);
  }

  /** The status code travels big-endian in front of the reason. */
  method EncodeClose(code: nat, reason: seq<Byte>) returns (frame: seq<Byte>)
    requires code < 65536 && |reason| + 2 < U64
    ensures var d := DecodeFrame(frame);
            && d.Whole? && !d.masked && d.size == |frame| && d.frame.opcode == 8 && d.frame.isControl && d.frame.fin
            && |d.frame.payload| >= 2 && BigEndian(d.frame.payload[..2]) == code && d.frame.payload[2..] == reason
            && d.frame.payload[0] == code / 256 && d.frame.payload[1] == code % 256
  {
    var payload: seq<Byte> := [code / 256 % 256, code % 256];
    assert BigEndian(payload) == code by {
      assert payload[..1] == [code / 256];
      assert BigEndian(payload[..1]) == BigEndian([]) * 256 + code / 256;
    }
    ghost var head := payload;
    payload := payload + reason;
    assert payload[..2] == head;
    frame := EncodeWhole(OP_CLOSE, payload);
  }

  // ---------- The parser, stage by stage ----------

  datatype Stage = HeaderBasic | HeaderExtendedLen | HeaderMaskKey | Payload | Complete

  datatype ParseState = ParseState(stage: Stage, fin: bool, opcode: Byte, masked: bool, maskKey: seq<Byte>,
                                   payloadLength: nat, bytesConsumed: nat, bytesNeeded: nat)
  {
    /** What every call leaves true, for the payload limit `limit`. */
    ghost predicate Valid(limit: nat) {
      && |maskKey| == 4 && payloadLength < U64
      && (stage == HeaderExtendedLen ==> bytesConsumed < bytesNeeded <= 8)
      && (stage == HeaderMaskKey ==> bytesConsumed <= 4)
      && (stage == Payload ==> bytesConsumed <= bytesNeeded == payloadLength <= limit)
    }

    /** `reset()` does not touch the mask key. */
    function Reset(): ParseState {
      ParseState(HeaderBasic, false, 0, false, maskKey, 0, 0, 0)
    }
  }

  function Min(x: nat, y: nat): nat { if x < y then x else y }

  /** `len = (len << 8) | b` for each byte, in 64 bits. */
  function Accumulate(len: nat, bs: seq<Byte>): (r: nat)
    requires len < U64
    ensures r < U64
  {
    if bs == [] then len else (Accumulate(len, bs[..|bs| - 1]) * 256 + bs[|bs| - 1]) % U64
  }

  function BasicStage(limit: nat, s: ParseState, buf: seq<Byte>): (r: (ParseState, seq<Byte>))
    requires s.Valid(limit) && s.stage == HeaderBasic
    ensures r.0.Valid(limit)
  {
    if |buf| < 2 then (s, buf) else
    var s1 := s.(fin := buf[0] >= 128, opcode := buf[0] % 16, masked := buf[1] >= 128);
    if !s1.masked then (s1, buf) else
    var code := buf[1] % 128;
    var s2 := s1.(payloadLength := code, bytesConsumed := 0);
    if code == 126 then (s2.(stage := HeaderExtendedLen, bytesNeeded := 2), buf[2..])
    else if code == 127 then (s2.(stage := HeaderExtendedLen, bytesNeeded := 8), buf[2..])
    else (s2.(stage := HeaderMaskKey, bytesNeeded := 4), buf[2..])
  }

  function ExtendedLenStage(limit: nat, s: ParseState, buf: seq<Byte>): (r: (ParseState, seq<Byte>))
    requires s.Valid(limit) && s.stage == HeaderExtendedLen
    ensures r.0.Valid(limit) && |r.1| <= |buf|
  {
    var avail := Min(|buf|, s.bytesNeeded - s.bytesConsumed);
    var s1 := s.(payloadLength := Accumulate(s.payloadLength, buf[..avail]), bytesConsumed := s.bytesConsumed + avail);
    if s1.bytesConsumed >= s1.bytesNeeded && avail != 0
    then (s1.(stage := HeaderMaskKey, bytesNeeded := 4, bytesConsumed := 0), buf[avail..])
    else (s1, buf[avail..])
  }

  function MaskKeyStage(limit: nat, s: ParseState, buf: seq<Byte>): (r: (ParseState, seq<Byte>))
    requires s.Valid(limit) && s.stage == HeaderMaskKey
    ensures r.0.Valid(limit) && |r.1| <= |buf|
  {
    var c, avail := s.bytesConsumed, Min(|buf|, 4 - s.bytesConsumed);
    var s1 := s.(maskKey := s.maskKey[..c] + buf[..avail] + s.maskKey[c + avail..], bytesConsumed := c + avail);
    if c + avail >= 4 && avail != 0 && s.payloadLength <= limit
    then (s1.(stage := Payload, bytesNeeded := s.payloadLength, bytesConsumed := 0), buf[avail..])
    else (s1, buf[avail..])
  }

  datatype Parsed = Parsed(ok: bool, state: ParseState, buffer: seq<Byte>, frame: WsFrame)

  function PayloadStage(limit: nat, s: ParseState, buf: seq<Byte>, frame: WsFrame): (r: Parsed)
    requires s.Valid(limit) && s.stage == Payload
    ensures r.state.Valid(limit) && (r.ok ==> |r.buffer| < |buf|)
  {
    var avail := Min(|buf|, s.bytesNeeded - s.bytesConsumed);
    if avail == 0 then Parsed(false, s, buf, frame) else
    var payload, s1 := frame.payload + buf[..avail], s.(bytesConsumed := s.bytesConsumed + avail);
    if s1.bytesConsumed >= s1.bytesNeeded
    then Parsed(true, s1.Reset(), buf[avail..], MakeFrame(s.fin, s.opcode, Mask(payload, s.maskKey)))
    else Parsed(false, s1, buf[avail..], frame.(payload := payload))
  }

  function AfterLength(limit: nat, s: ParseState, buf: seq<Byte>, frame: WsFrame): (r: Parsed)
    requires s.Valid(limit)
    ensures r.state.Valid(limit)
    ensures r.ok ==> |r.buffer| < |buf|
  {
    var (s', buf') := if s.stage == HeaderMaskKey then MaskKeyStage(limit, s, buf) else (s, buf);
    if s'.stage == Payload then PayloadStage(limit, s', buf', frame) else Parsed(false, s', buf', frame)
  }

  /** One call of `tryParseFrame`. */
  function TryParse(limit: nat, s: ParseState, buf: seq<Byte>, frame: WsFrame): (r: Parsed)
    requires s.Valid(limit)
    ensures r.state.Valid(limit)
    ensures r.ok ==> |r.buffer| < |buf|
  {
    if buf == [] then Parsed(false, s, buf, frame) else
    if s.stage == HeaderBasic then
      var (s1, b1) := BasicStage(limit, s, buf);
      Parsed(false, s1, b1, frame)
    else
      var (s1, b1) := if s.stage == HeaderExtendedLen then ExtendedLenStage(limit, s, buf) else (s, buf);
      AfterLength(limit, s1, b1, frame)
  }

  const FRESH_FRAME: WsFrame := WsFrame(false, 0, false, [])

  /** The inner `while (true)` of `handleWsRead`: every round parses into a fresh frame. */
  function Drain(limit: nat, s: ParseState, buf: seq<Byte>): (r: (seq<WsFrame>, ParseState, seq<Byte>))
    requires s.Valid(limit)
    ensures r.1.Valid(limit)
    decreases |buf|
  {
    var p := TryParse(limit, s, buf, FRESH_FRAME);
    if !p.ok then ([], p.state, p.buffer) else
    var (fs, s', b') := Drain(limit, p.state, p.buffer);
    ([p.frame] + fs, s', b')
  }

  /** The frames handed on while the reads `chunks` come in. */
  function Feed(limit: nat, s: ParseState, buf: seq<Byte>, chunks: seq<seq<Byte>>): seq<WsFrame>
    requires s.Valid(limit)
    decreases |chunks|
  {
    if chunks == [] then [] else
    var (fs, s', b') := Drain(limit, s, buf + chunks[0]);
    fs + Feed(limit, s', b', chunks[1..])
  }

  /** The parser and raw buffer of one WebSocket connection. `delivered` logs the frames given to the caller. */
  class WsReader {
    const maxPayloadSize: nat
    var stage: Stage
    var fin: bool
    var opcode: Byte
    var masked: bool
    var maskKey: seq<Byte>
    var payloadLength: nat
    var bytesConsumed: nat
    var bytesNeeded: nat
    var rawBuffer: seq<Byte>
    var delivered: seq<WsFrame>

    ghost function State(): ParseState
      reads this
    {
      ParseState(stage, fin, opcode, masked, maskKey, payloadLength, bytesConsumed, bytesNeeded)
    }

    ghost predicate Valid()
      reads this
    {
      State().Valid(maxPayloadSize)
    }

    constructor (limit: nat)
      ensures Valid() && maxPayloadSize == limit && stage == HeaderBasic
      ensures rawBuffer == [] && delivered == []
    {
      maxPayloadSize := limit;
      stage, fin, opcode, masked, maskKey := HeaderBasic, false, 0, false, [0, 0, 0, 0];
      payloadLength, bytesConsumed, bytesNeeded := 0, 0, 0;
      rawBuffer, delivered := [], [];
    }

    method Reset()
      modifies this
      ensures State() == old(State()).Reset() && unchanged(`rawBuffer, `delivered)
    {
      stage, fin, opcode, masked := HeaderBasic, false, 0, false;
      payloadLength, bytesConsumed, bytesNeeded := 0, 0, 0;
    }

    method ReadExtendedLength(avail: nat)
      requires avail <= |rawBuffer| && payloadLength < U64
      modifies `payloadLength
      ensures payloadLength == Accumulate(old(payloadLength), rawBuffer[..avail])
    {
      for i := 0 to avail
        invariant payloadLength == Accumulate(old(payloadLength), rawBuffer[..i])
      {
        assert rawBuffer[..i + 1][..i] == rawBuffer[..i];
        payloadLength := (payloadLength * 256 + rawBuffer[i]) % U64;
      }
    }

    method ReadMaskKey(avail: nat)
      requires |maskKey| == 4 && avail <= |rawBuffer| && bytesConsumed + avail <= 4
      modifies `maskKey
      ensures var c := bytesConsumed;
              maskKey == old(maskKey)[..c] + rawBuffer[..avail] + old(maskKey)[c + avail..]
    {
      var c := bytesConsumed;
      for i := 0 to avail
        invariant |maskKey| == 4
        invariant forall k :: 0 <= k < 4 ==> maskKey[k] == if c <= k < c + i then rawBuffer[k - c] else old(maskKey)[k]
      {
        maskKey := maskKey[c + i := rawBuffer[i]];
      }
    }

    method ParseBasic()
      requires Valid() && stage == HeaderBasic
      modifies this
      ensures unchanged(`delivered) && (State(), rawBuffer) == BasicStage(maxPayloadSize, old(State()), old(rawBuffer))
    {
      if |rawBuffer| < 2 { return; }
      var b0, b1 := rawBuffer[0], rawBuffer[1];
      fin := b0 >= 128;
      opcode := b0 % 16;
      masked := b1 >= 128;
      if !masked { return; }
      payloadLength := b1 % 128;
      if payloadLength == 126 {
        stage, bytesNeeded, bytesConsumed := HeaderExtendedLen, 2, 0;
      } else if payloadLength == 127 {
        stage, bytesNeeded, bytesConsumed := HeaderExtendedLen, 8, 0;
      } else {
        stage, bytesNeeded, bytesConsumed := HeaderMaskKey, 4, 0;
      }
      rawBuffer := rawBuffer[2..];
    }

    /** `done` says that the stage is finished and parsing goes on. */
    method ParseExtendedLen() returns (done: bool)
      requires Valid() && stage == HeaderExtendedLen
      modifies this
      ensures unchanged(`delivered) &&
              (State(), rawBuffer) == ExtendedLenStage(maxPayloadSize, old(State()), old(rawBuffer))
      ensures done <==> stage != HeaderExtendedLen
    {
      var avail := Min(|rawBuffer|, bytesNeeded - bytesConsumed);
      if avail == 0 { return false; }
      ReadExtendedLength(avail);
      bytesConsumed := bytesConsumed + avail;
      rawBuffer := rawBuffer[avail..];
      if bytesConsumed >= bytesNeeded {
        stage, bytesNeeded, bytesConsumed := HeaderMaskKey, 4, 0;
        return true;
      }
      return false;
    }

    method ParseMaskKey() returns (done: bool)
      requires Valid() && stage == HeaderMaskKey
      modifies this
      ensures unchanged(`delivered) &&
              (State(), rawBuffer) == MaskKeyStage(maxPayloadSize, old(State()), old(rawBuffer))
      ensures done <==> stage != HeaderMaskKey
    {
      var avail := Min(|rawBuffer|, 4 - bytesConsumed);
      if avail == 0 {
        assert maskKey == maskKey[..bytesConsumed] + [] + maskKey[bytesConsumed..];
        return false;
      }
      ReadMaskKey(avail);
      bytesConsumed := bytesConsumed + avail;
      rawBuffer := rawBuffer[avail..];
      if bytesConsumed >= 4 {
        if payloadLength > maxPayloadSize { return false; }
        stage, bytesNeeded, bytesConsumed := Payload, payloadLength, 0;
        return true;
      }
      return false;
    }

    method ParsePayload(given: WsFrame) returns (ok: bool, frame: WsFrame)
      requires Valid() && stage == Payload
      modifies this
      ensures unchanged(`delivered)
      ensures Parsed(ok, State(), rawBuffer, frame) == PayloadStage(maxPayloadSize, old(State()), old(rawBuffer), given)
    {
      frame := given;
      var avail := Min(|rawBuffer|, bytesNeeded - bytesConsumed);
      if avail == 0 { return false, frame; }
      frame := frame.(payload := frame.payload + rawBuffer[..avail]);
      bytesConsumed := bytesConsumed + avail;
      rawBuffer := rawBuffer[avail..];
      if bytesConsumed >= bytesNeeded {
        var plain := ApplyMask(frame.payload, maskKey);
        frame := WsFrame(fin, opcode, opcode / 8 % 2 == 1, plain);
        Reset();
        return true, frame;
      }
      return false, frame;
    }

    method TryParseFrame(given: WsFrame) returns (ok: bool, frame: WsFrame)
      requires Valid()
      modifies this
      ensures Valid() && unchanged(`delivered)
      ensures Parsed(ok, State(), rawBuffer, frame) == TryParse(maxPayloadSize, old(State()), old(rawBuffer), given)
    {
      hide BasicStage, ExtendedLenStage, MaskKeyStage, PayloadStage;
      ok, frame := false, given;
      if rawBuffer == [] { return; }
      if stage == HeaderBasic {
        ParseBasic();
        return;
      }
      if stage == HeaderExtendedLen {
        var done := ParseExtendedLen();
        if !done { return; }
      }
      if stage == HeaderMaskKey {
        var done := ParseMaskKey();
        if !done { return; }
      }
      if stage == Payload {
        ok, frame := ParsePayload(given);
      }
    }

    /** One successful `read()` of `handleWsRead`: append, then parse until no frame comes out. */
    method OnRead(chunk: seq<Byte>)
      requires Valid()
      modifies this
      ensures Valid()
      ensures var (fs, s', b') := Drain(maxPayloadSize, old(State()), old(rawBuffer) + chunk);
              delivered == old(delivered) + fs && State() == s' && rawBuffer == b'
    {
      hide TryParse;
      rawBuffer := rawBuffer + chunk;
      ghost var all := Drain(maxPayloadSize, State(), rawBuffer);
      while true
        invariant Valid()
        invariant var (fs, s', b') := Drain(maxPayloadSize, State(), rawBuffer);
                  old(delivered) + all.0 == delivered + fs && all.1 == s' && all.2 == b'
        decreases |rawBuffer|
      {
        var hasFrame, frame := TryParseFrame(FRESH_FRAME);
        if !hasFrame {
          if stage == Payload && payloadLength > maxPayloadSize {
            assert false;  // the 1009 reply: an oversize frame never reaches the Payload stage
          }
          break;
        }
        delivered := delivered + [frame];
      }
    }

    /** A run of successful reads, over any number of `handleWsRead` calls. */
    method HandleWsRead(chunks: seq<seq<Byte>>)
      requires Valid()
      modifies this
      ensures Valid()
      ensures delivered == old(delivered) + Feed(maxPayloadSize, old(State()), old(rawBuffer), chunks)
    {
      hide Drain;
      for i := 0 to |chunks|
        invariant Valid()
        invariant delivered + Feed(maxPayloadSize, State(), rawBuffer, chunks[i..])
               == old(delivered) + Feed(maxPayloadSize, old(State()), old(rawBuffer), chunks)
      {
        OnRead(chunks[i]);
      }
    }
  }
}
