/** The parser that gateway/include/WebSocketCodec.h lines 122-132 promises. It is the code of WebSocketCodec.cpp
    with five repairs, marked (1) to (5); WsReads says what the code does without them.
      (1) the extended length accumulates from 0, not from the 126/127 marker       (WebSocketCodec.cpp:253, 283-284)
      (2) after the basic header the call goes on with the bytes that are there     (WebSocketCodec.cpp:274)
      (3) an empty payload completes                                                (WebSocketCodec.cpp:329)
      (4) a partial payload is kept with the parse state, not in the caller's frame (WebSocketCodec.cpp:332)
      (5) an oversize frame moves on to the Payload stage, where the caller looks   (WebSocketCodec.cpp:311-315) */
module WsContract {
  import opened WsFrames
  import opened WebSocketCodec
  import opened WsReads

  datatype Verdict = NeedMore | Unmasked | TooBig | Got(frame: WsFrame, size: nat)

  /** What the bytes at the front of a client stream amount to. */
  function Judge(limit: nat, bs: seq<Byte>): (v: Verdict)
    ensures v.Got? ==> 2 <= v.size <= |bs|
  {
    if |bs| < 2 then NeedMore
    else if bs[1] < 128 then Unmasked
    else if |bs| < HeaderWidth(bs[1]) then NeedMore
    else if PayloadLength(bs) > limit then TooBig
    else match DecodeFrame(bs) case Incomplete => NeedMore case Whole(frame, _, size) => Got(frame, size)
  }

  /** The frames of a client stream, the bytes behind them, and why the stream stops there. */
  function ParseAll(limit: nat, bs: seq<Byte>): (r: (seq<WsFrame>, seq<Byte>, Verdict))
    decreases |bs|
  {
    var v := Judge(limit, bs);
    if !v.Got? then ([], bs, v) else
    var (fs, rest, end) := ParseAll(limit, bs[v.size..]);
    ([v.frame] + fs, rest, end)
  }

  lemma {:induction false} BigEndianBound(bs: seq<Byte>)
    ensures BigEndian(bs) < Pow256(|bs|)
  {
    if bs != [] {
      BigEndianBound(bs[..|bs| - 1]);
    }
  }

  lemma BigEndianFits(bs: seq<Byte>)
    requires |bs| <= 8
    ensures BigEndian(bs) < U64
  {
    BigEndianBound(bs);
    PowersOf256();
    PowMonotone(|bs|, 8);
  }

  lemma {:induction false} PowMonotone(a: nat, b: nat)
    requires a <= b
    ensures 1 <= Pow256(a) <= Pow256(b)
  {
    if a < b {
      PowMonotone(a, b - 1);
    } else if a > 0 {
      PowMonotone(a - 1, a - 1);
    }
  }

  /** The header fields depend only on the header bytes. */
  lemma HeaderLocal(seen: seq<Byte>, more: seq<Byte>)
    requires |seen| >= 2 && |seen| >= 2 + ExtWidth(seen[1])
    ensures PayloadLength(seen + more) == PayloadLength(seen)
  {
    assert (seen + more)[..|seen|] == seen;
    PayloadLengthLocal(seen + more, |seen|);
  }

  datatype Progress = Progress(stage: Stage, fin: bool, opcode: Byte, maskKey: seq<Byte>, payloadLength: nat,
                               bytesConsumed: nat, bytesNeeded: nat, partial: seq<Byte>)

  /** The state `s` is what the consumed bytes `seen` of the frame in progress leave behind. */
  ghost predicate Tracks(limit: nat, s: Progress, seen: seq<Byte>) {
    && |s.maskKey| == 4 && (s.stage != Payload ==> s.partial == [])
    && s.stage != Complete
    && if s.stage == HeaderBasic then seen == [] else
         && |seen| >= 2 && seen[1] >= 128 && s.fin == (seen[0] >= 128) && s.opcode == seen[0] % 16
         && var w, h := 2 + ExtWidth(seen[1]), HeaderWidth(seen[1]);
         if s.stage == HeaderExtendedLen then
           && s.bytesConsumed < s.bytesNeeded == w - 2 && |seen| == 2 + s.bytesConsumed
           && s.payloadLength == BigEndian(seen[2..])
         else if s.stage == HeaderMaskKey then
           && |seen| == w + s.bytesConsumed && s.bytesConsumed < 4 == s.bytesNeeded
           && s.payloadLength == PayloadLength(seen) && s.maskKey[..s.bytesConsumed] == seen[w..]
         else
           && |seen| == h + s.bytesConsumed && s.bytesConsumed <= s.bytesNeeded == s.payloadLength
           && s.payloadLength == PayloadLength(seen) && s.maskKey == seen[h - 4..h] && s.partial == seen[h..]
           && (s.payloadLength > limit ==> s.bytesConsumed == 0)
  }

  /** A state in which the next call has something to wait for: the payload is not already complete. */
  ghost predicate Open(limit: nat, s: Progress, seen: seq<Byte>) {
    Tracks(limit, s, seen) && (s.stage == Payload && s.payloadLength <= limit ==> s.bytesConsumed < s.bytesNeeded)
  }

  ghost predicate Oversize(limit: nat, s: Progress) {
    s.stage == Payload && s.payloadLength > limit
  }

  lemma StageFacts(limit: nat, s: Progress, seen: seq<Byte>)
    requires Tracks(limit, s, seen)
    ensures |s.maskKey| == 4 && s.stage != Complete && (s.stage == HeaderBasic ==> seen == [])
    ensures s.stage == HeaderExtendedLen ==>
              s.bytesConsumed < s.bytesNeeded <= 8 && |seen| == 2 + s.bytesConsumed &&
                  s.payloadLength == BigEndian(seen[2..])
    ensures s.stage == HeaderMaskKey ==> s.bytesConsumed < 4
    ensures s.stage == Payload ==> s.bytesConsumed <= s.bytesNeeded == s.payloadLength
  {
    hide BigEndian, PayloadLength;
  }

  lemma BasicVerdict(limit: nat, bs: seq<Byte>)
    requires |bs| < 2 || bs[1] < 128
    ensures Judge(limit, bs) == NeedMore || Judge(limit, bs) == Unmasked
  {
  }

  function AfterBasic(key: seq<Byte>, b0: Byte, b1: Byte): Progress {
    if b1 % 128 == 126 then Progress(HeaderExtendedLen, b0 >= 128, b0 % 16, key, 0, 0, 2, [])
    else if b1 % 128 == 127 then Progress(HeaderExtendedLen, b0 >= 128, b0 % 16, key, 0, 0, 8, [])
    else Progress(HeaderMaskKey, b0 >= 128, b0 % 16, key, b1 % 128, 0, 4, [])
  }

  lemma BasicTracks(limit: nat, key: seq<Byte>, head: seq<Byte>)
    requires |head| == 2 && head[1] >= 128 && |key| == 4
    ensures Tracks(limit, AfterBasic(key, head[0], head[1]), head)
  {
    assert head[2..] == [] && key[..0] == [];
  }

  lemma ExtendedTracks(limit: nat, s: Progress, seen: seq<Byte>, bytes: seq<Byte>)
    requires Tracks(limit, s, seen) && s.stage == HeaderExtendedLen && s.bytesConsumed + |bytes| <= s.bytesNeeded
    ensures var n, c := BigEndian(seen[2..] + bytes), s.bytesConsumed + |bytes|;
            Tracks(limit, if c < s.bytesNeeded then s.(payloadLength := n, bytesConsumed := c)
                          else s.(payloadLength := n, stage := HeaderMaskKey, bytesNeeded := 4, bytesConsumed := 0),
                              seen + bytes)
  {
    hide BigEndian;
    var all := seen + bytes;
    assert all[0] == seen[0] && all[1] == seen[1];
    assert all[2..] == seen[2..] + bytes;
    if |all| == 2 + s.bytesNeeded {
      assert all[2..2 + s.bytesNeeded] == all[2..];
      assert s.maskKey[..0] == all[2 + s.bytesNeeded..];
    }
  }

  lemma WholeTail<T>(s: seq<T>, a: nat, b: nat)
    requires a <= b == |s|
    ensures s[a..b] == s[a..] && s[b..] == []
  {
  }

  lemma MaskTracks(limit: nat, s: Progress, seen: seq<Byte>, bytes: seq<Byte>, key: seq<Byte>)
    requires Tracks(limit, s, seen) && s.stage == HeaderMaskKey && s.bytesConsumed + |bytes| <= 4
    requires |key| == 4 && key[..s.bytesConsumed + |bytes|] == s.maskKey[..s.bytesConsumed] + bytes
    ensures var c := s.bytesConsumed + |bytes|;
            Tracks(limit, if c < 4 then s.(maskKey := key, bytesConsumed := c)
                          else s.(maskKey := key, stage := Payload, bytesNeeded := s.payloadLength, bytesConsumed := 0),
                              seen + bytes)
  {
    var all, w := seen + bytes, 2 + ExtWidth(seen[1]);
    assert all[0] == seen[0] && all[1] == seen[1];
    HeaderLocal(seen, bytes);
    hide PayloadLength;
    assert all[w..] == seen[w..] + bytes;
    if |all| == w + 4 {
      WholeTail(all, w, w + 4);
      assert key[..4] == key;
    }
  }

  lemma PayloadTracks(limit: nat, s: Progress, seen: seq<Byte>, bytes: seq<Byte>)
    requires Tracks(limit, s, seen) && s.stage == Payload && s.payloadLength <= limit
    requires s.bytesConsumed + |bytes| <= s.bytesNeeded
    ensures Tracks(limit, s.(partial := s.partial + bytes, bytesConsumed := s.bytesConsumed + |bytes|), seen + bytes)
  {
    var all, h := seen + bytes, HeaderWidth(seen[1]);
    assert all[0] == seen[0] && all[1] == seen[1];
    HeaderLocal(seen, bytes);
    hide PayloadLength;
    assert all[h..] == seen[h..] + bytes && all[h - 4..h] == seen[h - 4..h];
  }

  lemma WaitingNeedsMore(limit: nat, s: Progress, seen: seq<Byte>)
    requires Open(limit, s, seen) && !Oversize(limit, s)
    ensures Judge(limit, seen) == NeedMore
  {
    hide BigEndian, Mask;
  }

  lemma OversizeStops(limit: nat, s: Progress, seen: seq<Byte>, buf: seq<Byte>)
    requires Tracks(limit, s, seen) && Oversize(limit, s)
    ensures Judge(limit, seen + buf) == TooBig
  {
    HeaderLocal(seen, buf);
    hide BigEndian, Mask, PayloadLength;
    assert (seen + buf)[1] == seen[1];
  }

  lemma PayloadComplete(limit: nat, s: Progress, seen: seq<Byte>, buf: seq<Byte>)
    requires Tracks(limit, s, seen) && s.stage == Payload && s.payloadLength <= limit &&
             s.bytesConsumed == s.bytesNeeded
    ensures Judge(limit, seen + buf) == Got(MakeFrame(s.fin, s.opcode, Mask(s.partial, s.maskKey)), |seen|)
    ensures (seen + buf)[|seen|..] == buf
  {
    hide BigEndian, Mask, PayloadLength, DecodeFrame;
    var all, h, n := seen + buf, HeaderWidth(seen[1]), s.payloadLength;
    FrontSlices(seen, buf, h);
    HeaderLocal(seen, buf);
    FrameDecodes(all, h, n);
  }

  lemma FrontSlices(seen: seq<Byte>, buf: seq<Byte>, h: nat)
    requires 4 <= h <= |seen|
    ensures var all := seen + buf;
            && all[0] == seen[0] && all[1] == seen[1]
            && all[h..|seen|] == seen[h..] && all[h - 4..h] == seen[h - 4..h] && all[|seen|..] == buf
  {
  }

  /** The parser of one connection; `seen` are the consumed bytes of the frame in progress. */
  class FrameParser {
    const limit: nat
    var stage: Stage
    var fin: bool
    var opcode: Byte
    var maskKey: seq<Byte>
    var payloadLength: nat
    var bytesConsumed: nat
    var bytesNeeded: nat
    var partial: seq<Byte>  // (4)
    var rawBuffer: seq<Byte>
    var delivered: seq<WsFrame>
    var closed: bool
    ghost var seen: seq<Byte>
    ghost var received: seq<Byte>

    ghost function State(): Progress
      reads this
    {
      Progress(stage, fin, opcode, maskKey, payloadLength, bytesConsumed, bytesNeeded, partial)
    }

    ghost predicate Valid()
      reads this
    {
      Tracks(limit, State(), seen)
    }

    ghost predicate Waiting()
      reads this
    {
      Open(limit, State(), seen)
    }

    /** Everything received but not yet turned into frames. */
    ghost function Pending(): seq<Byte>
      reads this
    {
      seen + rawBuffer
    }

    constructor (max: nat)
      ensures Waiting() && limit == max && Pending() == [] && stage == HeaderBasic
      ensures delivered == [] && received == [] && !closed
    {
      limit := max;
      stage, fin, opcode, maskKey := HeaderBasic, false, 0, [0, 0, 0, 0];
      payloadLength, bytesConsumed, bytesNeeded, partial := 0, 0, 0, [];
      rawBuffer, delivered, closed, seen, received := [], [], false, [], [];
    }

    method Take(k: nat) returns (bytes: seq<Byte>)
      requires k <= |rawBuffer|
      modifies `rawBuffer, `seen
      ensures bytes == old(rawBuffer)[..k] && rawBuffer == old(rawBuffer)[k..] && seen == old(seen) + bytes
      ensures Pending() == old(Pending())
    {
      bytes := rawBuffer[..k];
      rawBuffer := rawBuffer[k..];
      seen := seen + bytes;
    }

    method ReadExtendedLength(bytes: seq<Byte>, ghost before: seq<Byte>)
      requires payloadLength == BigEndian(before) && |before| + |bytes| <= 8
      modifies `payloadLength
      ensures payloadLength == BigEndian(before + bytes)
    {
      assert before + bytes[..0] == before;
      for i := 0 to |bytes|
        invariant payloadLength == BigEndian(before + bytes[..i])
      {
        BigEndianFits(before + bytes[..i + 1]);
        assert (before + bytes[..i + 1])[..|before| + i] == before + bytes[..i];
        payloadLength := (payloadLength * 256 + bytes[i]) % U64;
      }
      assert bytes[..|bytes|] == bytes;
    }

    method ReadMaskKey(bytes: seq<Byte>)
      requires |maskKey| == 4 && bytesConsumed + |bytes| <= 4
      modifies `maskKey
      ensures |maskKey| == 4 && maskKey[..bytesConsumed + |bytes|] == old(maskKey)[..bytesConsumed] + bytes
    {
      for i := 0 to |bytes|
        invariant |maskKey| == 4 && maskKey[..bytesConsumed + i] == old(maskKey)[..bytesConsumed] + bytes[..i]
      {
        maskKey := maskKey[bytesConsumed + i := bytes[i]];
      }
      assert bytes[..|bytes|] == bytes;
    }

    method SetHeader(b0: Byte, b1: Byte)
      modifies this
      ensures State() == AfterBasic(maskKey, b0, b1)
      ensures unchanged(`delivered, `closed, `received, `rawBuffer, `seen, `maskKey)
    {
      fin, opcode, bytesConsumed, partial := b0 >= 128, b0 % 16, 0, [];
      var code := b1 % 128;
      if code == 126 {
        stage, bytesNeeded, payloadLength := HeaderExtendedLen, 2, 0;  // (1)
      } else if code == 127 {
        stage, bytesNeeded, payloadLength := HeaderExtendedLen, 8, 0;  // (1)
      } else {
        stage, bytesNeeded, payloadLength := HeaderMaskKey, 4, code;
      }
    }

    method ParseBasic() returns (done: bool)
      requires Valid() && stage == HeaderBasic
      modifies this
      ensures Valid() && Pending() == old(Pending()) && unchanged(`delivered, `closed, `received)
      ensures done ==> stage == HeaderExtendedLen || stage == HeaderMaskKey
      ensures !done ==>
                stage == HeaderBasic && (Judge(limit, Pending()) == NeedMore || Judge(limit, Pending()) == Unmasked)
    {
      hide Tracks, Judge;
      StageFacts(limit, State(), seen);
      assert Pending() == rawBuffer;
      if |rawBuffer| < 2 || rawBuffer[1] < 128 {
        BasicVerdict(limit, rawBuffer);
        return false;
      }
      var head := Take(2);
      assert seen == head;
      BasicTracks(limit, maskKey, head);
      SetHeader(head[0], head[1]);
      return true;  // (2)
    }

    method ParseExtendedLen() returns (done: bool)
      requires Valid() && stage == HeaderExtendedLen
      modifies this
      ensures Valid() && Pending() == old(Pending()) && unchanged(`delivered, `closed, `received)
      ensures done ==> stage == HeaderMaskKey
      ensures !done ==> stage == HeaderExtendedLen && rawBuffer == []
    {
      hide Tracks, BigEndian;
      StageFacts(limit, State(), seen);
      var avail := Min(|rawBuffer|, bytesNeeded - bytesConsumed);
      var bytes := Take(avail);
      ReadExtendedLength(bytes, old(seen)[2..]);
      ExtendedTracks(limit, old(State()), old(seen), bytes);
      bytesConsumed := bytesConsumed + avail;
      if bytesConsumed < bytesNeeded { return false; }
      stage, bytesNeeded, bytesConsumed := HeaderMaskKey, 4, 0;
      return true;
    }

    method ParseMaskKey() returns (done: bool)
      requires Valid() && stage == HeaderMaskKey
      modifies this
      ensures Valid() && Pending() == old(Pending()) && unchanged(`delivered, `closed, `received)
      ensures done ==> stage == Payload && payloadLength <= limit
      ensures !done ==> (stage == HeaderMaskKey && rawBuffer == []) || Oversize(limit, State())
    {
      hide Tracks, Judge;
      StageFacts(limit, State(), seen);
      var avail := Min(|rawBuffer|, 4 - bytesConsumed);
      var bytes := Take(avail);
      ReadMaskKey(bytes);
      MaskTracks(limit, old(State()), old(seen), bytes, maskKey);
      bytesConsumed := bytesConsumed + avail;
      if bytesConsumed < 4 { return false; }
      stage, bytesNeeded, bytesConsumed := Payload, payloadLength, 0;
      return payloadLength <= limit;  // (5)
    }

    method ParsePayload() returns (ok: bool, frame: WsFrame)
      requires Valid() && stage == Payload && payloadLength <= limit
      modifies this
      ensures Waiting() && unchanged(`delivered, `closed, `received)
      ensures !ok ==> rawBuffer == [] && !Oversize(limit, State()) && stage == Payload && Pending() == old(Pending())
      ensures ok ==> var v := Judge(limit, old(Pending()));
                     v.Got? && v.frame == frame && stage == HeaderBasic &&
                         Pending() == rawBuffer == old(Pending())[v.size..]
    {
      hide Tracks, Judge, Mask;
      StageFacts(limit, State(), seen);
      frame := FRESH_FRAME;
      var avail := Min(|rawBuffer|, bytesNeeded - bytesConsumed);
      var bytes := Take(avail);
      PayloadTracks(limit, old(State()), old(seen), bytes);
      partial := partial + bytes;
      bytesConsumed := bytesConsumed + avail;
      if bytesConsumed < bytesNeeded { return false, frame; }  // (3)
      PayloadComplete(limit, State(), seen, rawBuffer);
      var plain := ApplyMask(partial, maskKey);
      frame := WsFrame(fin, opcode, opcode / 8 % 2 == 1, plain);
      Reset();
      return true, frame;
    }

    method Reset()
      requires |maskKey| == 4
      modifies this
      ensures Waiting() && stage == HeaderBasic && Pending() == rawBuffer
      ensures unchanged(`delivered, `closed, `received, `rawBuffer)
    {
      stage, fin, opcode, payloadLength, bytesConsumed, bytesNeeded := HeaderBasic, false, 0, 0, 0, 0;
      partial, seen := [], [];
    }

    /** Exactly one frame, or no progress possible: the verdict on everything pending decides. */
    method TryParseFrame() returns (ok: bool, frame: WsFrame)
      requires Waiting()
      modifies this
      ensures Waiting() && unchanged(`delivered, `closed, `received)
      ensures ok <==> Judge(limit, old(Pending())).Got?
      ensures ok ==> var v := Judge(limit, old(Pending()));
                     frame == v.frame && stage == HeaderBasic && Pending() == old(Pending())[v.size..]
      ensures !ok ==> Pending() == old(Pending()) && (Oversize(limit, State()) <==> Judge(limit, Pending()) == TooBig)
    {
      hide Tracks, Judge;
      StageFacts(limit, State(), seen);
      NothingPending(limit);
      ok, frame := false, FRESH_FRAME;
      if rawBuffer != [] && stage == HeaderBasic {
        var done := ParseBasic();
        if !done { return; }
      }
      if rawBuffer != [] && stage == HeaderExtendedLen {
        var done := ParseExtendedLen();
        if !done {
          NotYet();
          return;
        }
      }
      if rawBuffer != [] && stage == HeaderMaskKey {
        var done := ParseMaskKey();
        if !done {
          NotYet();
          return;
        }
      }
      if stage == Payload && payloadLength <= limit {
        ok, frame := ParsePayload();
        if ok { return; }
      }
      NotYet();
    }

    lemma NotYet()
      requires Waiting() && (rawBuffer == [] || Oversize(limit, State()))
      ensures Judge(limit, Pending()) == if Oversize(limit, State()) then TooBig else NeedMore
    {
      hide Tracks, Judge;
      if Oversize(limit, State()) {
        OversizeStops(limit, State(), seen, rawBuffer);
      } else {
        WaitingNeedsMore(limit, State(), seen);
        assert Pending() == seen;
      }
    }

    /** The connection so far, whatever the reads were. */
    ghost predicate Faithful()
      reads this
    {
      && Waiting() && (delivered, Pending(), Judge(limit, Pending())) == ParseAll(limit, received)
      && (closed <==> Judge(limit, Pending()) == TooBig)
    }

    /** One successful `read()`. */
    method OnRead(chunk: seq<Byte>)
      requires Faithful() && !closed
      modifies this
      ensures Faithful() && received == old(received) + chunk
    {
      hide Judge, Tracks, Open;
      ParseMore(limit, received, chunk);
      ghost var all := ParseAll(limit, received + chunk);
      assert Pending() + chunk == seen + (rawBuffer + chunk);
      received := received + chunk;
      rawBuffer := rawBuffer + chunk;
      while true
        invariant Waiting() && !closed && received == old(received) + chunk
        invariant var (fs, rest, end) := ParseAll(limit, Pending()); all == (delivered + fs, rest, end)
        decreases |Pending()|
      {
        var ok, frame := TryParseFrame();
        if !ok {
          assert delivered + [] == delivered;
          closed := stage == Payload && payloadLength > limit;
          return;
        }
        ghost var fs := ParseAll(limit, Pending()).0;
        assert delivered + ([frame] + fs) == (delivered + [frame]) + fs;
        delivered := delivered + [frame];
      }
    }

    /** Any number of reads, up to the 1009 close: what was delivered, and whether the connection was closed, depends
        on the bytes received and not on how they were cut into reads. */
    method HandleWsRead(chunks: seq<seq<Byte>>)
      requires Faithful()
      modifies this
      ensures Waiting()
      ensures var (fs, _, end) := ParseAll(limit, old(received) + Concat(chunks));
              delivered == fs && (closed <==> end == TooBig)
    {
      hide ParseAll, Judge, Tracks, Open;
      for i := 0 to |chunks|
        invariant Faithful()
        invariant received + Concat(chunks[i..]) == old(received) + Concat(chunks)
      {
        if closed {
          ClosedForGood(limit, received, Concat(chunks[i..]));
          return;
        }
        OnRead(chunks[i]);
      }
      assert received + [] == received;
    }
  }

  lemma EndOfStream(limit: nat, bs: seq<Byte>, rest: seq<Byte>)
    requires ParseAll(limit, bs).1 == rest
    ensures ParseAll(limit, bs).2 == Judge(limit, rest)
    decreases |bs|
  {
    hide Judge;
    if Judge(limit, bs).Got? {
      EndOfStream(limit, bs[Judge(limit, bs).size..], rest);
    }
  }

  lemma TooBigStays(limit: nat, x: seq<Byte>, y: seq<Byte>)
    requires Judge(limit, x) == TooBig
    ensures Judge(limit, x + y) == TooBig
  {
    HeaderLocal(x, y);
    hide PayloadLength;
    assert (x + y)[1] == x[1];
  }

  lemma {:induction false} ClosedForGood(limit: nat, x: seq<Byte>, y: seq<Byte>)
    requires ParseAll(limit, x).2 == TooBig
    ensures ParseAll(limit, x + y).0 == ParseAll(limit, x).0 && ParseAll(limit, x + y).2 == TooBig
  {
    EndOfStream(limit, x, ParseAll(limit, x).1);
    TooBigStays(limit, ParseAll(limit, x).1, y);
    ParseMore(limit, x, y);
  }

  lemma NothingPending(limit: nat)
    ensures Judge(limit, []) == NeedMore
  {
  }

  /** A verdict on the front of a stream (a frame, an unmasked frame, an oversize one) is final. */
  lemma JudgeLocal(limit: nat, x: seq<Byte>, y: seq<Byte>)
    requires Judge(limit, x) != NeedMore
    ensures Judge(limit, x + y) == Judge(limit, x)
  {
    assert (x + y)[..|x|] == x;
    assert (x + y)[1] == x[1];
    match Judge(limit, x)
    case Got(_, _) =>
      HeaderLocal(x, y);
      DecodeExtends(x, y);
      hide DecodeFrame, PayloadLength;
    case TooBig => TooBigStays(limit, x, y);
    case Unmasked =>
  }

  lemma DecodeExtends(x: seq<Byte>, y: seq<Byte>)
    requires DecodeFrame(x).Whole?
    ensures DecodeFrame(x + y) == DecodeFrame(x)
  {
    var h, n := HeaderWidth(x[1]), PayloadLength(x);
    HeaderLocal(x, y);
    assert (x + y)[..|x|] == x;
    DecodeLocalWhole(x + y, |x|, h, n);
  }

  lemma {:induction false} ParseMore(limit: nat, x: seq<Byte>, y: seq<Byte>)
    ensures var (fs, rest, _) := ParseAll(limit, x);
            var (gs, rest', end') := ParseAll(limit, rest + y);
            ParseAll(limit, x + y) == (fs + gs, rest', end')
    decreases |x|
  {
    hide ParseAll, Judge;
    var v := Judge(limit, x);
    ParseOne(limit, x);
    if v.Got? {
      var x' := x[v.size..];
      var (fs, rest, _) := ParseAll(limit, x');
      var gs := ParseAll(limit, rest + y).0;
      JudgeLocal(limit, x, y);
      ParseOne(limit, x + y);
      assert (x + y)[v.size..] == x' + y;
      ParseMore(limit, x', y);
      assert [v.frame] + (fs + gs) == ([v.frame] + fs) + gs;
    } else {
      assert [] + ParseAll(limit, x + y).0 == ParseAll(limit, x + y).0;
    }
  }

  lemma ParseOne(limit: nat, bs: seq<Byte>)
    ensures var v := Judge(limit, bs);
            ParseAll(limit, bs) == if !v.Got? then ([], bs, v) else
                                   var (fs, rest, end) := ParseAll(limit, bs[v.size..]);
                                   ([v.frame] + fs, rest, end)
  {
    hide Judge;
  }

  /** An unmasked frame stops the stream for good: what came before it is all that is ever delivered. */
  lemma UnmaskedStops(limit: nat, fs: seq<ClientFrame>, bad: seq<Byte>)
    requires AllWellFormed(fs) && (forall i :: 0 <= i < |fs| ==> |fs[i].payload| <= limit)
    requires |bad| >= 2 && bad[1] < 128
    ensures ParseAll(limit, EncodeClients(fs) + bad) == (Plains(fs), bad, Unmasked)
  {
    StreamRoundTrip(limit, fs);
    ParseMore(limit, EncodeClients(fs), bad);
    assert [] + bad == bad;
    assert Plains(fs) + [] == Plains(fs);
  }

  /** Every list of masked client frames within the limit comes back as sent, in any length form. */
  lemma {:induction false} StreamRoundTrip(limit: nat, fs: seq<ClientFrame>)
    requires AllWellFormed(fs) && forall i :: 0 <= i < |fs| ==> |fs[i].payload| <= limit
    ensures ParseAll(limit, EncodeClients(fs)) == (Plains(fs), [], NeedMore)
    decreases |fs|
  {
    if fs == [] {
      NothingPending(limit);
    } else {
      var f, rest := fs[0], EncodeClients(fs[1..]);
      JudgeClient(limit, f, rest);
      FrameParts(f, rest);
      hide Judge, EncodeClient;
      StreamRoundTrip(limit, fs[1..]);
    }
  }

  lemma JudgeClient(limit: nat, f: ClientFrame, rest: seq<Byte>)
    requires f.WellFormed()
    ensures Judge(limit, EncodeClient(f) + rest) == if |f.payload| <= limit then Got(f.Plain(), f.Size()) else TooBig
  {
    var n := |f.payload|;
    var header := Header(f.fin, f.opcode, true, f.form, n);
    var more := f.key + Mask(f.payload, f.key) + rest;
    Regroup(header, f.key, Mask(f.payload, f.key), rest);
    HeaderDecodes(f.fin, f.opcode, true, f.form, n, more);
    ClientRoundTrip(f, rest);
    hide Header, DecodeFrame, PayloadLength, Mask;
  }

  /** The contract, for whole connections: whatever the cutting into reads, exactly the frames that were sent. */
  method Receive(fs: seq<ClientFrame>, chunks: seq<seq<Byte>>, limit: nat) returns (frames: seq<WsFrame>)
    requires AllWellFormed(fs) && forall i :: 0 <= i < |fs| ==> |fs[i].payload| <= limit
    requires Concat(chunks) == EncodeClients(fs)
    ensures frames == Plains(fs)
  {
    hide Judge, Tracks, Open, EncodeClients, Concat, Plains;
    var parser := new FrameParser(limit);
    NothingPending(limit);
    parser.HandleWsRead(chunks);
    StreamRoundTrip(limit, fs);
    assert [] + Concat(chunks) == Concat(chunks);
    frames := parser.delivered;
  }
}
