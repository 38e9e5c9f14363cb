/** The WebSocket wire format of RFC 6455, sections 5.2 and 5.3: what the bytes of a frame are, and a
    reference decoder that is independent of the gateway's code. */
module WsFrames {
  /** A byte, by its value. `b & 0x80 != 0` is `b >= 128`, `b & 0x7F` is `b % 128` and `b & 0x0F` is `b % 16`. */
  type Byte = b: int | 0 <= b < 256

  const U64: nat := 0x1_0000_0000_0000_0000

  const OP_CONTINUATION: Byte := 0x0
  const OP_TEXT: Byte := 0x1
  const OP_BINARY: Byte := 0x2
  const OP_CLOSE: Byte := 0x8
  const OP_PING: Byte := 0x9
  const OP_PONG: Byte := 0xA

  datatype WsFrame = WsFrame(fin: bool, opcode: Byte, isControl: bool, payload: seq<Byte>)

  /** The three ways section 5.2 can write a payload length. */
  datatype LengthForm = Len7 | Len16 | Len64 {
    function Width(): nat {
      match this case Len7 => 0 case Len16 => 2 case Len64 => 8
    }

    predicate Fits(n: nat) {
      match this case Len7 => n <= 125 case Len16 => n < 65536 case Len64 => n < U64
    }
  }

  /** A frame as a client sends it: masked, in any length form that can hold the length. */
  datatype ClientFrame = ClientFrame(fin: bool, opcode: Byte, form: LengthForm, key: seq<Byte>, payload: seq<Byte>) {
    predicate WellFormed() {
      opcode < 16 && |key| == 4 && form.Fits(|payload|)
    }

    function HeaderSize(): nat {
      2 + form.Width() + 4
    }

    function Size(): nat {
      HeaderSize() + |payload|
    }

    /** What the receiving application is to see. */
    function Plain(): WsFrame {
      MakeFrame(fin, opcode, payload)
    }
  }

  function MakeFrame(fin: bool, opcode: Byte, payload: seq<Byte>): WsFrame {
    WsFrame(fin, opcode, opcode / 8 % 2 == 1, payload)
  }

  // ---------- Big-endian numbers ----------

  function BigEndian(bs: seq<Byte>): nat {
    if bs == [] then 0 else BigEndian(bs[..|bs| - 1]) * 256 + bs[|bs| - 1]
  }

  function ToBigEndian(n: nat, width: nat): (bs: seq<Byte>)
    ensures |bs| == width
  {
    if width == 0 then [] else ToBigEndian(n / 256, width - 1) + [n % 256]
  }

  function Pow256(k: nat): nat {
    if k == 0 then 1 else 256 * Pow256(k - 1)
  }

  lemma {:induction false} BigEndianInverse(n: nat, width: nat)
    requires n < Pow256(width)
    ensures BigEndian(ToBigEndian(n, width)) == n
  {
    if width != 0 {
      BigEndianInverse(n / 256, width - 1);
      assert ToBigEndian(n, width)[..width - 1] == ToBigEndian(n / 256, width - 1);
    }
  }

  lemma PowersOf256()
    ensures Pow256(0) == 1 && Pow256(2) == 65536 && Pow256(8) == U64
  {
    assert Pow256(3) == 0x100_0000;
    assert Pow256(5) == 0x100_0000_0000;
    assert Pow256(7) == 0x100_0000_0000_0000;
  }

  // ---------- Masking (section 5.3) ----------

  function Pow2(k: nat): nat {
    if k == 0 then 1 else 2 * Pow2(k - 1)
  }

  /** Exclusive or of the low `k` bits, lowest bit first. */
  function XorBits(x: nat, y: nat, k: nat): (r: nat)
    requires x < Pow2(k) && y < Pow2(k)
    ensures r < Pow2(k)
  {
    if k == 0 then 0 else (x + y) % 2 + 2 * XorBits(x / 2, y / 2, k - 1)
  }

  function Xor(x: Byte, y: Byte): (r: Byte) {
    assert Pow2(4) == 16 && Pow2(8) == 16 * Pow2(4);
    XorBits(x, y, 8)
  }

  function Mask(data: seq<Byte>, key: seq<Byte>): (out: seq<Byte>)
    requires |key| == 4
    ensures |out| == |data|
  {
    seq(|data|, i requires 0 <= i < |data| => Xor(data[i], key[i % 4]))
  }

  /** Bit k of x, lowest first. */
  function Bit(x: nat, k: nat): nat {
    if k == 0 then x % 2 else Bit(x / 2, k - 1)
  }

  lemma {:induction false} XorBitsAt(x: nat, y: nat, n: nat, k: nat)
    requires x < Pow2(n) && y < Pow2(n) && k < n
    ensures Bit(XorBits(x, y, n), k) == (Bit(x, k) + Bit(y, k)) % 2
  {
    var r := XorBits(x / 2, y / 2, n - 1);
    var z := XorBits(x, y, n);
    LowBits(x, y, r);
    if k > 0 {
      XorBitsAt(x / 2, y / 2, n - 1, k - 1);
    }
    hide XorBits, Pow2;
  }

  lemma LowBits(x: nat, y: nat, r: nat)
    ensures var z := (x + y) % 2 + 2 * r; z / 2 == r && z % 2 == (x % 2 + y % 2) % 2
  {
  }

  /** Masking is the exclusive or, bit by bit, of byte i and byte i mod 4 of the key. */
  lemma MaskBits(data: seq<Byte>, key: seq<Byte>, i: nat, k: nat)
    requires |key| == 4 && i < |data| && k < 8
    ensures Bit(Mask(data, key)[i], k) == (Bit(data[i], k) + Bit(key[i % 4], k)) % 2
  {
    assert Pow2(4) == 16 && Pow2(8) == 16 * Pow2(4);
    XorBitsAt(data[i], key[i % 4], 8, k);
  }

  /** And its eight bits determine a byte. */
  lemma {:induction false} BitsDetermine(x: nat, y: nat, n: nat)
    requires x < Pow2(n) && y < Pow2(n) && forall k: nat :: k < n ==> Bit(x, k) == Bit(y, k)
    ensures x == y
  {
    if n > 0 {
      assert Bit(x, 0) == Bit(y, 0);
      forall k: nat | k < n - 1 ensures Bit(x / 2, k) == Bit(y / 2, k) {
        assert Bit(x, k + 1) == Bit(y, k + 1);
      }
      BitsDetermine(x / 2, y / 2, n - 1);
    }
  }

  lemma MaskInvolution(data: seq<Byte>, key: seq<Byte>)
    requires |key| == 4
    ensures Mask(Mask(data, key), key) == data
  {
    forall i | 0 <= i < |data| ensures Mask(Mask(data, key), key)[i] == data[i] {
      Cancel(data[i], key[i % 4]);
    }
  }

  lemma Cancel(x: Byte, k: Byte)
    ensures Xor(Xor(x, k), k) == x
  {
    assert Pow2(4) == 16 && Pow2(8) == 16 * Pow2(4);
    CancelBits(x, k, 8);
  }

  lemma {:induction false} CancelBits(x: nat, y: nat, k: nat)
    requires x < Pow2(k) && y < Pow2(k)
    ensures XorBits(XorBits(x, y, k), y, k) == x
  {
    if k != 0 {
      var r := XorBits(x / 2, y / 2, k - 1);
      LowBit(x, y, r);
      CancelBits(x / 2, y / 2, k - 1);
    }
  }

  lemma LowBit(x: nat, y: nat, r: nat)
    ensures var z := (x + y) % 2 + 2 * r; z / 2 == r && (z + y) % 2 == x % 2
  {
  }

  // ---------- Encoding ----------

  function MinimalForm(n: nat): LengthForm {
    if n <= 125 then Len7 else if n <= 65535 then Len16 else Len64
  }

  function LengthCode(form: LengthForm, n: nat): (code: Byte)
    requires form.Fits(n)
    ensures code < 128
  {
    match form case Len7 => n case Len16 => 126 case Len64 => 127
  }

  function Header(fin: bool, opcode: Byte, masked: bool, form: LengthForm, n: nat): (bs: seq<Byte>)
    requires form.Fits(n)
    ensures |bs| == 2 + form.Width()
  {
    [(if fin then 0x80 else 0x00) + opcode % 16, (if masked then 0x80 else 0x00) + LengthCode(form, n)]
    + ToBigEndian(n, form.Width())
  }

  /** The control frames are those with the fourth opcode bit (section 5.5). */
  lemma ControlIff(fin: bool, opcode: Byte, payload: seq<Byte>)
    requires opcode < 16
    ensures MakeFrame(fin, opcode, payload) == WsFrame(fin, opcode, opcode >= 8, payload)
  {
  }

  /** Byte k of n, lowest first. */
  function ByteOf(n: nat, k: nat): nat {
    if k == 0 then n % 256 else ByteOf(n / 256, k - 1)
  }

  lemma {:induction false} NetworkOrder(n: nat, width: nat, i: nat)
    requires i < width
    ensures ToBigEndian(n, width)[i] == ByteOf(n, width - 1 - i)
  {
    if i < width - 1 {
      NetworkOrder(n / 256, width - 1, i);
    }
  }

  /** The header bytes of section 5.2 in numbers: FIN and opcode, MASK and length code, and the extended length with its
      most significant byte first. */
  lemma HeaderBytes(fin: bool, opcode: Byte, masked: bool, form: LengthForm, n: nat, i: nat)
    requires opcode < 16 && form.Fits(n) && i < form.Width()
    ensures var bs := Header(fin, opcode, masked, form, n);
            && bs[0] == (if fin then 128 else 0) + opcode
            && bs[1] == (if masked then 128 else 0) + (match form case Len7 => n case Len16 => 126 case Len64 => 127)
            && |bs| == 2 + (match form case Len7 => 0 case Len16 => 2 case Len64 => 8)
            && bs[2 + i] == ByteOf(n, form.Width() - 1 - i)
  {
    NetworkOrder(n, form.Width(), i);
  }

  /** The same for the form without an extended length. */
  lemma ShortHeader(fin: bool, opcode: Byte, masked: bool, n: nat)
    requires opcode < 16 && n <= 125
    ensures Header(fin, opcode, masked, Len7, n) == [(if fin then 128 else 0) + opcode, (if masked then 128 else 0) + n]
  {
    assert ToBigEndian(n, 0) == [];
  }

  function EncodeServer(f: WsFrame): seq<Byte>
    requires |f.payload| < U64
  {
    Header(f.fin, f.opcode, false, MinimalForm(|f.payload|), |f.payload|) + f.payload
  }

  function EncodeClient(f: ClientFrame): (bs: seq<Byte>)
    requires f.WellFormed()
    ensures |bs| == f.Size()
  {
    Header(f.fin, f.opcode, true, f.form, |f.payload|) + f.key + Mask(f.payload, f.key)
  }

  // ---------- Reference decoder ----------

  datatype Decoded = Incomplete | Whole(frame: WsFrame, masked: bool, size: nat)

  function ExtWidth(b1: Byte): nat {
    if b1 % 128 == 126 then 2 else if b1 % 128 == 127 then 8 else 0
  }

  function HeaderWidth(b1: Byte): nat {
    2 + ExtWidth(b1) + (if b1 >= 128 then 4 else 0)
  }

  function PayloadLength(bs: seq<Byte>): nat
    requires |bs| >= 2 && |bs| >= 2 + ExtWidth(bs[1])
  {
    if ExtWidth(bs[1]) == 0 then bs[1] % 128 else BigEndian(bs[2..2 + ExtWidth(bs[1])])
  }

  function DecodeFrame(bs: seq<Byte>): (d: Decoded)
    ensures d.Whole? ==> 2 <= d.size <= |bs|
  {
    if |bs| < 2 || |bs| < HeaderWidth(bs[1]) then Incomplete else
    var h, n := HeaderWidth(bs[1]), PayloadLength(bs);
    if |bs| < h + n then Incomplete else
    var masked := bs[1] >= 128;
    var body := bs[h..h + n];
    Whole(MakeFrame(bs[0] >= 128, bs[0] % 16, if masked then Mask(body, bs[h - 4..h]) else body), masked, h + n)
  }

  lemma HeaderDecodes(fin: bool, opcode: Byte, masked: bool, form: LengthForm, n: nat, rest: seq<Byte>)
    requires opcode < 16 && form.Fits(n)
    ensures var bs := Header(fin, opcode, masked, form, n) + rest;
            && (bs[0] >= 128) == fin && bs[0] % 16 == opcode && (bs[1] >= 128) == masked
            && bs[1] % 128 == LengthCode(form, n)
            && ExtWidth(bs[1]) == form.Width() && PayloadLength(bs) == n
  {
    var bs := Header(fin, opcode, masked, form, n) + rest;
    if !form.Len7? {
      PowersOf256();
      BigEndianInverse(n, form.Width());
      assert bs[2..2 + form.Width()] == ToBigEndian(n, form.Width());
    }
  }

  // ---------- Round trips ----------

  lemma FrameDecodes(bs: seq<Byte>, h: nat, n: nat)
    requires |bs| >= h + n && h >= 2 && HeaderWidth(bs[1]) == h && PayloadLength(bs) == n
    ensures var masked := bs[1] >= 128;
            var body := bs[h..h + n];
            && (masked ==> h >= 6)
            && DecodeFrame(bs) ==
               Whole(MakeFrame(bs[0] >= 128, bs[0] % 16, if masked then Mask(body, bs[h - 4..h]) else body),
                                           masked, h + n)
  {
    hide Mask, MakeFrame, BigEndian, PayloadLength, HeaderWidth;
    HeaderRoom(bs[1]);
  }

  lemma HeaderRoom(b1: Byte)
    ensures HeaderWidth(b1) >= if b1 >= 128 then 6 else 2
  {
  }

  lemma Middle<T>(a: seq<T>, b: seq<T>, c: seq<T>)
    ensures (a + b) + c == a + (b + c) && (a + (b + c))[|a|..|a| + |b|] == b
  {
  }

  lemma ServerRoundTrip(f: WsFrame, rest: seq<Byte>)
    requires |f.payload| < U64 && f.opcode < 16 && f == MakeFrame(f.fin, f.opcode, f.payload)
    ensures DecodeFrame(EncodeServer(f) + rest) == Whole(f, false, |EncodeServer(f)|)
  {
    var n, form := |f.payload|, MinimalForm(|f.payload|);
    HeaderDecodes(f.fin, f.opcode, false, form, n, f.payload + rest);
    var header := Header(f.fin, f.opcode, false, form, n);
    assert EncodeServer(f) == header + f.payload;
    hide Header, DecodeFrame, PayloadLength, MinimalForm, MakeFrame, LengthCode, BigEndian, EncodeServer;
    var bs := header + (f.payload + rest);
    Middle(header, f.payload, rest);
    FrameDecodes(bs, |header|, n);
  }

  lemma Regroup<T>(a: seq<T>, b: seq<T>, c: seq<T>, d: seq<T>)
    ensures a + b + c + d == a + (b + c + d)
  {
  }

  lemma ClientRoundTrip(f: ClientFrame, rest: seq<Byte>)
    requires f.WellFormed()
    ensures DecodeFrame(EncodeClient(f) + rest) == Whole(f.Plain(), true, f.Size())
  {
    var n, h := |f.payload|, f.HeaderSize();
    var more := f.key + Mask(f.payload, f.key) + rest;
    HeaderDecodes(f.fin, f.opcode, true, f.form, n, more);
    MaskInvolution(f.payload, f.key);
    hide Header, DecodeFrame, PayloadLength, Mask;
    var header := Header(f.fin, f.opcode, true, f.form, n);
    var bs := header + more;
    assert EncodeClient(f) + rest == bs by {
      Regroup(header, f.key, Mask(f.payload, f.key), rest);
    }
    assert bs[h - 4..h] == f.key;
    assert bs[h..h + n] == Mask(f.payload, f.key);
    FrameDecodes(bs, h, n);
  }

  lemma PayloadLengthLocal(bs: seq<Byte>, k: nat)
    requires 2 <= k <= |bs| && k >= 2 + ExtWidth(bs[1])
    ensures PayloadLength(bs[..k]) == PayloadLength(bs)
  {
    var w := 2 + ExtWidth(bs[1]);
    assert bs[..k][2..w] == bs[2..w];
  }

  lemma DecodeLocalHeader(bs: seq<Byte>, k: nat)
    requires DecodeFrame(bs).Whole? && k < DecodeFrame(bs).size
    ensures DecodeFrame(bs[..k]) == Incomplete
  {
    if k >= 2 && k >= HeaderWidth(bs[1]) {
      PayloadLengthLocal(bs, k);
    }
  }

  /** A decoded frame is fixed by the bytes it covers: more change nothing, fewer leave it incomplete. */
  lemma DecodeLocal(bs: seq<Byte>, k: nat)
    requires DecodeFrame(bs).Whole? && k <= |bs|
    ensures DecodeFrame(bs[..k]) == if k < DecodeFrame(bs).size then Incomplete else DecodeFrame(bs)
  {
    if k < DecodeFrame(bs).size {
      DecodeLocalHeader(bs, k);
    } else {
      DecodeLocalWhole(bs, k, HeaderWidth(bs[1]), PayloadLength(bs));
    }
  }

  lemma DecodeLocalWhole(bs: seq<Byte>, k: nat, h: nat, n: nat)
    requires 2 <= h <= h + n <= k <= |bs| && HeaderWidth(bs[1]) == h && PayloadLength(bs) == n
    ensures DecodeFrame(bs[..k]) == DecodeFrame(bs)
  {
    hide DecodeFrame, Mask, PayloadLength;
    var p := bs[..k];
    assert p[0] == bs[0] && p[1] == bs[1];
    PayloadLengthLocal(bs, k);
    FrameDecodes(bs, h, n);
    FrameDecodes(p, h, n);
    SliceOfPrefix(bs, k, h, h + n);
    if bs[1] >= 128 {
      SliceOfPrefix(bs, k, h - 4, h);
    }
  }

  lemma SliceOfPrefix<T>(s: seq<T>, k: nat, a: nat, b: nat)
    requires a <= b <= k <= |s|
    ensures s[..k][a..b] == s[a..b]
  {
  }

  // ---------- Streams of server frames ----------

  ghost predicate Sendable(f: WsFrame) {
    |f.payload| < U64 && f.opcode < 16 && f == MakeFrame(f.fin, f.opcode, f.payload)
  }

  ghost predicate AllSendable(fs: seq<WsFrame>) {
    forall i :: 0 <= i < |fs| ==> Sendable(fs[i])
  }

  ghost function EncodeStream(fs: seq<WsFrame>): seq<Byte>
    requires AllSendable(fs)
  {
    if fs == [] then [] else EncodeServer(fs[0]) + EncodeStream(fs[1..])
  }

  /** All the whole frames at the front of a byte string, and the unfinished bytes behind them. */
  function DecodeStream(bs: seq<Byte>): (r: (seq<WsFrame>, seq<Byte>))
    decreases |bs|
  {
    var d := DecodeFrame(bs);
    if d.Incomplete? then ([], bs) else
    var (fs, tail) := DecodeStream(bs[d.size..]);
    ([d.frame] + fs, tail)
  }

  lemma StreamStep(f: WsFrame, rest: seq<Byte>)
    requires Sendable(f)
    ensures var (fs, tail) := DecodeStream(rest);
            DecodeStream(EncodeServer(f) + rest) == ([f] + fs, tail)
  {
    ServerRoundTrip(f, rest);
    hide DecodeFrame, EncodeServer;
    assert (EncodeServer(f) + rest)[|EncodeServer(f)|..] == rest;
  }

  /** A proper prefix of a frame is unfinished. */
  lemma PartialFrame(f: WsFrame, part: seq<Byte>)
    requires Sendable(f) && part < EncodeServer(f)
    ensures DecodeFrame(part) == Incomplete && DecodeStream(part) == ([], part)
  {
    ServerRoundTrip(f, []);
    hide DecodeFrame, EncodeServer;
    var e := EncodeServer(f);
    assert e + [] == e && e[..|part|] == part;
    DecodeLocal(e, |part|);
  }

  lemma EncodeFirst(f: WsFrame, fs: seq<WsFrame>)
    requires Sendable(f) && AllSendable(fs)
    ensures AllSendable([f] + fs) && EncodeStream([f] + fs) == EncodeServer(f) + EncodeStream(fs)
  {
    hide EncodeServer;
    assert ([f] + fs)[1..] == fs;
  }

  /** `wire` decodes to a prefix of the frames `fs` and a proper part of the next frame, and holds nothing else. */
  ghost predicate Shows(wire: seq<Byte>, fs: seq<WsFrame>)
    requires AllSendable(fs)
  {
    var (seen, tail) := DecodeStream(wire);
    && seen <= fs && EncodeStream(seen) + tail == wire
    && (|seen| == |fs| ==> tail == [])
    && (|seen| < |fs| ==> tail < EncodeServer(fs[|seen|]))
  }

  lemma ShowsOneMore(wire: seq<Byte>, f: WsFrame, fs: seq<WsFrame>)
    requires Sendable(f) && AllSendable(fs) && Shows(wire, fs)
    ensures AllSendable([f] + fs) && Shows(EncodeServer(f) + wire, [f] + fs)
  {
    hide DecodeFrame, EncodeServer, DecodeStream;
    StreamStep(f, wire);
    var (seen, tail) := DecodeStream(wire);
    EncodeFirst(f, seen);
    hide EncodeStream;
    var e := EncodeServer(f);
    assert (e + EncodeStream(seen)) + tail == e + (EncodeStream(seen) + tail);
  }

  lemma ShowsPart(wire: seq<Byte>, fs: seq<WsFrame>)
    requires AllSendable(fs) && fs != [] && wire < EncodeServer(fs[0])
    ensures Shows(wire, fs)
  {
    hide DecodeFrame, EncodeServer, DecodeStream;
    PartialFrame(fs[0], wire);
    NothingDecodes();
  }

  /** Cutting the wire anywhere: a client that has seen any byte prefix of the concatenated frames decodes
      a prefix of the frame list, and what is left over is a proper part of the next frame. */
  lemma {:induction false} PrefixDecodes(fs: seq<WsFrame>, wire: seq<Byte>)
    requires AllSendable(fs) && wire <= EncodeStream(fs)
    ensures Shows(wire, fs)
    decreases |fs|
  {
    hide DecodeFrame, EncodeServer, DecodeStream;
    if fs == [] {
      assert wire == [];
      NothingDecodes();
    } else {
      var e := EncodeServer(fs[0]);
      if |wire| >= |e| {
        hide Shows;
        assert EncodeStream(fs)[..|e|] == e && EncodeStream(fs)[|e|..] == EncodeStream(fs[1..]);
        assert wire == e + wire[|e|..] && fs == [fs[0]] + fs[1..];
        PrefixDecodes(fs[1..], wire[|e|..]);
        ShowsOneMore(wire[|e|..], fs[0], fs[1..]);
      } else {
        assert EncodeStream(fs)[..|wire|] == e[..|wire|];
        ShowsPart(wire, fs);
      }
    }
  }

  lemma NothingDecodes()
    ensures DecodeStream([]) == ([], []) && EncodeStream([]) == []
  {
  }

  /** Two frame lists with the same bytes are the same list. */
  lemma UniquelyDecodable(fs: seq<WsFrame>, gs: seq<WsFrame>)
    requires AllSendable(fs) && AllSendable(gs) && EncodeStream(fs) == EncodeStream(gs)
    ensures fs == gs
  {
    WholeStreamDecodes(fs);
    WholeStreamDecodes(gs);
  }

  lemma {:induction false} WholeStreamDecodes(fs: seq<WsFrame>)
    requires AllSendable(fs)
    ensures DecodeStream(EncodeStream(fs)) == (fs, [])
    decreases |fs|
  {
    hide DecodeFrame, EncodeServer;
    if fs == [] {
      NothingDecodes();
    } else {
      WholeStreamDecodes(fs[1..]);
      StreamStep(fs[0], EncodeStream(fs[1..]));
      assert fs == [fs[0]] + fs[1..];
    }
  }

  /** Section 5.2 asks for the fewest length bytes; no form that can hold `n` is shorter than the chosen one,
      and any other form that can hold it is longer. */
  lemma MinimalFormIsShortest(n: nat, other: LengthForm)
    requires n < U64 && other.Fits(n) && other != MinimalForm(n)
    ensures MinimalForm(n).Fits(n)
    ensures |Header(true, OP_TEXT, false, MinimalForm(n), n)| < |Header(true, OP_TEXT, false, other, n)|
  {
  }
}
