/** When the parser as written delivers what a client sent. The header promises one frame per call whenever a
    whole frame is buffered; the code does not do that, and this file says for which frames and which cuttings of
    the byte stream into reads it nevertheless hands on exactly the frames that were sent. */
module WsReads {
  import opened WsFrames
  import opened WebSocketCodec

  ghost predicate AllWellFormed(fs: seq<ClientFrame>) {
    forall i :: 0 <= i < |fs| ==> fs[i].WellFormed()
  }

  ghost function EncodeClients(fs: seq<ClientFrame>): seq<Byte>
    requires AllWellFormed(fs)
  {
    if fs == [] then [] else EncodeClient(fs[0]) + EncodeClients(fs[1..])
  }

  ghost function Plains(fs: seq<ClientFrame>): seq<WsFrame> {
    if fs == [] then [] else [fs[0].Plain()] + Plains(fs[1..])
  }

  function Concat(chunks: seq<seq<Byte>>): seq<Byte> {
    if chunks == [] then [] else chunks[0] + Concat(chunks[1..])
  }

  function Sizes(chunks: seq<seq<Byte>>): (r: seq<nat>)
    ensures |r| == |chunks|
  {
    if chunks == [] then [] else [|chunks[0]|] + Sizes(chunks[1..])
  }

  // ---------- The condition ----------

  /** Frames whose length the parser reads correctly and whose payload it can finish. */
  predicate Readable(limit: nat, f: ClientFrame) {
    !f.form.Len16? && 1 <= |f.payload| <= limit
  }

  datatype Arrival = Never | At(have: nat, later: seq<nat>)

  /** Read on until the two basic header bytes are there. `have` counts bytes received from the frame's start. */
  function Notice(have: nat, sizes: seq<nat>): (r: Arrival)
    ensures r.At? ==> |r.later| <= |sizes|
    decreases |sizes|
  {
    if have >= 2 then At(have, sizes) else if sizes == [] then Never else Notice(have + sizes[0], sizes[1..])
  }

  /** At least one more read; the first one that leaves payload bytes in hand must leave all of them. */
  function Finish(f: ClientFrame, have: nat, sizes: seq<nat>): (r: Arrival)
    ensures r.At? ==> |r.later| < |sizes|
    decreases |sizes|
  {
    if sizes == [] then Never else
    var now := have + sizes[0];
    if now <= f.HeaderSize() then Finish(f, now, sizes[1..])
    else if now < f.Size() then Never
    else At(now - f.Size(), sizes[1..])
  }

  /** Can be checked from the frames and the read sizes alone. */
  predicate OnTime(limit: nat, fs: seq<ClientFrame>, have: nat, sizes: seq<nat>)
    decreases |fs|
  {
    fs == [] ||
    (Readable(limit, fs[0]) &&
     match Notice(have, sizes)
     case Never => false
     case At(h1, s1) =>
       match Finish(fs[0], h1, s1)
       case Never => false
       case At(h2, s2) => OnTime(limit, fs[1..], h2, s2))
  }

  // ---------- What the parser knows after q bytes of a frame ----------

  ghost function LengthBytes(f: ClientFrame): seq<Byte>
    requires f.WellFormed()
  {
    ToBigEndian(|f.payload|, f.form.Width())
  }

  /** The length the code ends up with: the accumulator starts at the 126 or 127 marker. */
  ghost function ReadLength(f: ClientFrame): (n: nat)
    requires f.WellFormed()
    ensures n < U64
  {
    Accumulate(LengthCode(f.form, |f.payload|), LengthBytes(f))
  }

  lemma AccumulateValue(len: nat, bs: seq<Byte>)
    requires len < U64
    ensures Accumulate(len, bs) == (len * Pow256(|bs|) + BigEndian(bs)) % U64
  {
    AccumulateShifted(len, bs);
  }

  /** `len` moved up by k bytes. */
  function Shifted(len: nat, k: nat): nat {
    len * Pow256(k)
  }

  lemma ShiftedNext(len: nat, k: nat)
    ensures Shifted(len, 0) == len && Shifted(len, k + 1) == 256 * Shifted(len, k)
  {
    MulShift(len, Pow256(k), 0);
  }

  lemma {:induction false} AccumulateShifted(len: nat, bs: seq<Byte>)
    requires len < U64
    ensures Accumulate(len, bs) == (Shifted(len, |bs|) + BigEndian(bs)) % U64
  {
    hide Shifted;
    ShiftedNext(len, 0);
    if bs != [] {
      var init, last := bs[..|bs| - 1], bs[|bs| - 1];
      AccumulateShifted(len, init);
      ShiftedNext(len, |init|);
      ModShift(Shifted(len, |init|) + BigEndian(init), last);
    }
  }

  lemma MulShift(len: nat, p: nat, b: nat)
    ensures (len * p + b) * 256 == len * (256 * p) + b * 256
  {
  }

  lemma ModShift(x: nat, b: Byte)
    ensures (x % U64 * 256 + b) % U64 == (x * 256 + b) % U64
  {
    var q, low := x / U64, x % U64;
    assert x == low + q * U64;
    assert x * 256 + b == (low * 256 + b) + (q * 256) * U64;
    ModMultiple(low * 256 + b, q * 256);
  }

  lemma ModMultiple(x: nat, k: nat)
    ensures (x + k * U64) % U64 == x % U64
  {
  }

  lemma {:induction false} AccumulateSplit(len: nat, a: seq<Byte>, b: seq<Byte>)
    requires len < U64
    ensures Accumulate(Accumulate(len, a), b) == Accumulate(len, a + b)
    decreases |b|
  {
    if b == [] {
      assert a + b == a;
    } else {
      AccumulateSplit(len, a, b[..|b| - 1]);
      assert (a + b)[..|a + b| - 1] == a + b[..|b| - 1];
    }
  }

  lemma MarkerStays(n: nat)
    requires n < 65536
    ensures (126 * 65536 + n) % U64 == 126 * 65536 + n
  {
  }

  lemma MarkerGoes(n: nat)
    requires n < U64
    ensures (127 * U64 + n) % U64 == n
  {
  }

  /** The 64-bit form shifts its marker out of the word; the 16-bit form does not. */
  lemma ReadLengthValue(f: ClientFrame)
    requires f.WellFormed()
    ensures ReadLength(f) == |f.payload| + (if f.form.Len16? then 126 * 65536 else 0)
  {
    var n, code := |f.payload|, LengthCode(f.form, |f.payload|);
    if f.form.Len7? {
      assert LengthBytes(f) == [];
    } else {
      PowersOf256();
      BigEndianInverse(n, f.form.Width());
      AccumulateValue(code, LengthBytes(f));
      hide Accumulate, BigEndian, ToBigEndian, Pow256;
      if f.form.Len16? {
        MarkerStays(n);
      } else {
        MarkerGoes(n);
      }
    }
  }

  ghost predicate Knows(limit: nat, s: ParseState, f: ClientFrame, q: nat)
    requires f.WellFormed()
  {
    var w, h := f.form.Width(), f.HeaderSize();
    && s.Valid(limit) && s.fin == f.fin && s.opcode == f.opcode && 2 <= q
    && if q < 2 + w then
         && s.stage == HeaderExtendedLen && s.bytesConsumed == q - 2 && s.bytesNeeded == w
         && s.payloadLength == Accumulate(LengthCode(f.form, |f.payload|), LengthBytes(f)[..q - 2])
       else if q < h then
         && s.stage == HeaderMaskKey && s.bytesConsumed == q - 2 - w && s.payloadLength == ReadLength(f)
         && s.maskKey[..q - 2 - w] == f.key[..q - 2 - w]
       else
         && s.stage == Payload && s.bytesConsumed == q - h && s.bytesNeeded == |f.payload| && s.maskKey == f.key
  }

  /** No further byte changes anything. */
  ghost predicate Stuck(limit: nat, s: ParseState) {
    && s.Valid(limit)
    && (|| (s.stage == HeaderMaskKey && s.bytesConsumed == 4 && s.payloadLength > limit)
        || (s.stage == Payload && s.bytesNeeded == 0))
  }

  // ---------- One call, stage by stage ----------

  /** `all` starts with the bytes of `f`. */
  ghost predicate Carries(all: seq<Byte>, f: ClientFrame)
    requires f.WellFormed()
  {
    var w, h, n := f.form.Width(), f.HeaderSize(), |f.payload|;
    && |all| >= f.Size()
    && (all[0] >= 128) == f.fin && all[0] % 16 == f.opcode && all[1] == 128 + LengthCode(f.form, n)
    && all[2..2 + w] == LengthBytes(f) && all[2 + w..h] == f.key && all[h..h + n] == Mask(f.payload, f.key)
  }

  lemma FrameParts(f: ClientFrame, rest: seq<Byte>)
    requires f.WellFormed()
    ensures Carries(EncodeClient(f) + rest, f)
    ensures (EncodeClient(f) + rest)[f.Size()..] == rest
  {
    var ext, masked := LengthBytes(f), Mask(f.payload, f.key);
    var b1 := 128 + LengthCode(f.form, |f.payload|);
    var head: seq<Byte> := [(if f.fin then 128 else 0) + f.opcode, b1];
    assert EncodeClient(f) == head + ext + f.key + masked;
    Slices(head, ext, f.key, masked, rest);
    hide Mask, ToBigEndian, LengthBytes, LengthCode, EncodeClient;
    var all := EncodeClient(f) + rest;
    assert all[..2] == head && all[0] == head[0] && all[1] == head[1];
  }

  lemma Slices<T>(a: seq<T>, b: seq<T>, c: seq<T>, d: seq<T>, e: seq<T>)
    ensures var all, i, j, k := a + b + c + d + e, |a + b|, |a + b + c|, |a + b + c + d|;
            all[..|a|] == a && all[|a|..i] == b && all[i..j] == c && all[j..k] == d && all[k..] == e
  {
  }

  lemma BasicStep(limit: nat, s: ParseState, buf: seq<Byte>, f: ClientFrame, all: seq<Byte>)
    requires f.WellFormed() && s.Valid(limit) && s.stage == HeaderBasic && Carries(all, f) && buf <= all
    ensures var p := TryParse(limit, s, buf, FRESH_FRAME);
            && !p.ok
            && (|buf| < 2 ==> p.state == s && p.buffer == buf)
            && (|buf| >= 2 ==> Knows(limit, p.state, f, 2) && p.buffer == buf[2..])
  {
    hide Mask, AfterLength;
    if |buf| >= 2 {
      var code := LengthCode(f.form, |f.payload|);
      assert buf[0] == all[0] && buf[1] == all[1] && buf[1] % 128 == code;
      assert LengthBytes(f)[..0] == [] && Accumulate(code, []) == code;
      assert f.form.Len7? ==> LengthBytes(f) == [];
      hide ToBigEndian, Accumulate;
      assert forall key: seq<Byte> | |key| == 4 :: key[..0] == [];
    }
  }

  /** `buf` holds the bytes of `all` from position `q` on, as far as they have come in. */
  ghost predicate InHand(all: seq<Byte>, q: nat, buf: seq<Byte>) {
    q <= |all| && buf <= all[q..]
  }

  lemma PrefixTail(all: seq<Byte>, buf: seq<Byte>, q: nat, q1: nat)
    requires InHand(all, q, buf) && q <= q1 <= q + |buf|
    ensures InHand(all, q1, buf[q1 - q..])
  {
  }

  lemma Window(all: seq<Byte>, buf: seq<Byte>, q: nat, a: nat, b: nat, len: nat)
    requires a <= q <= q + len <= b <= |all| && len <= |buf| && InHand(all, q, buf)
    ensures buf[..len] == all[a..b][q - a..q - a + len]
  {
    forall i | 0 <= i < len ensures buf[..len][i] == all[a..b][q - a..q - a + len][i] {
      assert buf[i] == all[q..][i] == all[q + i];
    }
  }

  /** The extended-length loop against the length bytes `ext`, of which `c` were read before. */
  lemma ExtendedBytes(limit: nat, s: ParseState, buf: seq<Byte>, len: nat, ext: seq<Byte>, c: nat, k: nat)
    requires s.Valid(limit) && s.stage == HeaderExtendedLen && len < U64
    requires s.bytesConsumed == c < s.bytesNeeded == |ext| && s.payloadLength == Accumulate(len, ext[..c])
    requires k == Min(|buf|, |ext| - c) && k > 0 && buf[..k] == ext[c..c + k]
    ensures var n := Accumulate(len, ext[..c + k]);
            ExtendedLenStage(limit, s, buf) ==
              (if c + k < |ext| then s.(payloadLength := n, bytesConsumed := c + k)
               else s.(payloadLength := n, stage := HeaderMaskKey, bytesNeeded := 4, bytesConsumed := 0), buf[k..])
  {
    hide Accumulate;
    AccumulateSplit(len, ext[..c], ext[c..c + k]);
    assert ext[..c] + ext[c..c + k] == ext[..c + k];
  }

  lemma ExtendedStep(limit: nat, s: ParseState, buf: seq<Byte>, f: ClientFrame, q: nat, all: seq<Byte>)
    requires f.WellFormed() && Knows(limit, s, f, q) && q < 2 + f.form.Width() && buf != []
    requires Carries(all, f) && InHand(all, q, buf)
    ensures var (s1, b1) := ExtendedLenStage(limit, s, buf);
            var q1 := Min(q + |buf|, 2 + f.form.Width());
            Knows(limit, s1, f, q1) && b1 == buf[q1 - q..]
  {
    hide InHand, Accumulate, LengthCode, ToBigEndian, ExtendedLenStage, Mask;
    var w, ext := f.form.Width(), LengthBytes(f);
    var avail := Min(|buf|, 2 + w - q);
    Window(all, buf, q, 2, 2 + w, avail);
    ExtendedBytes(limit, s, buf, LengthCode(f.form, |f.payload|), ext, q - 2, avail);
    assert ext[..w] == ext;
    assert f.key[..0] == s.maskKey[..0] == [];
  }

  lemma MaskBytes(limit: nat, s: ParseState, buf: seq<Byte>, key: seq<Byte>, c: nat, k: nat)
    requires s.Valid(limit) && s.stage == HeaderMaskKey && |key| == 4
    requires s.bytesConsumed == c < 4 && s.maskKey[..c] == key[..c] && k == Min(|buf|, 4 - c) &&
             buf[..k] == key[c..c + k]
    ensures var (s1, b1) := MaskKeyStage(limit, s, buf);
            && b1 == buf[k..] && |s1.maskKey| == 4
            && (c + k < 4 ==>
                s1.maskKey[..c + k] == key[..c + k] && s1 == s.(maskKey := s1.maskKey, bytesConsumed := c + k))
            && (c + k == 4 && s.payloadLength > limit ==> s1 == s.(maskKey := key, bytesConsumed := 4))
            && (c + k == 4 && s.payloadLength <= limit ==>
                s1 == s.(maskKey := key, stage := Payload, bytesNeeded := s.payloadLength, bytesConsumed := 0))
  {
    KeyGrows(s.maskKey, key, c, k);
  }

  lemma MaskStep(limit: nat, s: ParseState, buf: seq<Byte>, f: ClientFrame, q: nat, all: seq<Byte>)
    requires f.WellFormed() && limit < 126 * 65536 && Knows(limit, s, f, q) && 2 + f.form.Width() <= q < f.HeaderSize()
    requires Carries(all, f) && InHand(all, q, buf)
    ensures var (s1, b1) := MaskKeyStage(limit, s, buf);
            var q1 := Min(q + |buf|, f.HeaderSize());
            && b1 == buf[q1 - q..]
            && if q1 < f.HeaderSize() || Readable(limit, f) then Knows(limit, s1, f, q1) else Stuck(limit, s1)
  {
    hide InHand, LengthBytes, LengthCode, ReadLength, MaskKeyStage, Mask, Knows;
    var start, h := 2 + f.form.Width(), f.HeaderSize();
    var avail := Min(|buf|, h - q);
    Window(all, buf, q, start, h, avail);
    hide Carries;
    ReadLengthValue(f);
    KnowsMask(limit, s, f, q);
    MaskBytes(limit, s, buf, f.key, q - start, avail);
    var s1 := MaskKeyStage(limit, s, buf).0;
    if q + avail < h {
      KnowsMask(limit, s1, f, q + avail);
    } else {
      KnowsPayload(limit, s1, f);
    }
  }

  /** `Knows` inside the mask key, and at the end of it. */
  lemma KnowsMask(limit: nat, s: ParseState, f: ClientFrame, q: nat)
    requires f.WellFormed() && 2 + f.form.Width() <= q < f.HeaderSize()
    ensures var c := q - 2 - f.form.Width();
            Knows(limit, s, f, q) <==>
              s.Valid(limit) && s.fin == f.fin && s.opcode == f.opcode && s.stage == HeaderMaskKey
              && s.bytesConsumed == c && s.payloadLength == ReadLength(f) && s.maskKey[..c] == f.key[..c]
  {
    hide ReadLength, LengthBytes, LengthCode, Accumulate;
  }

  lemma KnowsPayload(limit: nat, s: ParseState, f: ClientFrame)
    requires f.WellFormed()
    ensures Knows(limit, s, f, f.HeaderSize()) <==>
              s.Valid(limit) && s.fin == f.fin && s.opcode == f.opcode && s.stage == Payload && s.bytesConsumed == 0
              && s.bytesNeeded == |f.payload| && s.maskKey == f.key
  {
    hide ReadLength, LengthBytes, LengthCode, Accumulate;
  }

  lemma KeyGrows(key: seq<Byte>, target: seq<Byte>, c: nat, k: nat)
    requires |key| == |target| == 4 && c + k <= 4 && key[..c] == target[..c]
    ensures var key' := key[..c] + target[c..c + k] + key[c + k..];
            key'[..c + k] == target[..c + k] && (c + k == 4 ==> key' == target)
  {
    assert target[..c] + target[c..c + k] == target[..c + k];
  }

  lemma PayloadStep(limit: nat, s: ParseState, buf: seq<Byte>, f: ClientFrame, q: nat, all: seq<Byte>)
    requires f.WellFormed() && Knows(limit, s, f, q) && f.HeaderSize() <= q < f.Size()
    requires Carries(all, f) && InHand(all, q, buf)
    ensures var p := PayloadStage(limit, s, buf, FRESH_FRAME);
            if q + |buf| < f.Size() then
              !p.ok && p.buffer == [] && Knows(limit, p.state, f, q + |buf|)
            else
              && p.ok && p.buffer == buf[f.Size() - q..] && p.state == s.(bytesConsumed := |f.payload|).Reset()
              && |p.frame.payload| == f.Size() - q && (q == f.HeaderSize() ==> p.frame == f.Plain())
  {
    hide InHand, LengthBytes, LengthCode, Mask;
    var n, h := |f.payload|, f.HeaderSize();
    if q + |buf| >= f.Size() {
      var taken := buf[..f.Size() - q];
      assert FRESH_FRAME.payload + taken == taken;
      if q == h {
        Window(all, buf, q, h, h + n, n);
        assert Mask(f.payload, f.key)[0..n] == Mask(f.payload, f.key);
        MaskInvolution(f.payload, f.key);
      }
    }
  }

  /** What a call with `buf` in hand makes of a state that knows `q` bytes of `f`. */
  ghost predicate Outcome(limit: nat, f: ClientFrame, q: nat, buf: seq<Byte>, p: Parsed)
    requires f.WellFormed() && q <= f.Size()
  {
    var now := q + |buf|;
    if !Readable(limit, f) then
      !p.ok && if now < f.HeaderSize() then p.buffer == [] && Knows(limit, p.state, f, now) else Stuck(limit, p.state)
    else if now < f.Size() then
      !p.ok && p.buffer == [] && Knows(limit, p.state, f, now)
    else
      && p.ok && p.buffer == buf[Min(f.Size() - q, |buf|)..] && p.state.Valid(limit) && p.state.stage == HeaderBasic
      && (q <= f.HeaderSize() ==> p.frame == f.Plain())
      && (q > f.HeaderSize() ==> |p.frame.payload| < |f.payload|)
  }

  /** Bytes taken by an earlier stage of the same call count as known. */
  lemma OutcomeEarlier(limit: nat, f: ClientFrame, q: nat, q1: nat, buf: seq<Byte>, p: Parsed)
    requires f.WellFormed() && q <= q1 <= f.HeaderSize() && q1 - q <= |buf|
    requires Outcome(limit, f, q1, buf[q1 - q..], p)
    ensures Outcome(limit, f, q, buf, p)
  {
    hide Knows, Stuck;
    if q + |buf| >= f.Size() {
      assert buf[q1 - q..][f.Size() - q1..] == buf[f.Size() - q..];
    }
  }

  lemma PayloadOutcome(limit: nat, s: ParseState, buf: seq<Byte>, f: ClientFrame, q: nat, all: seq<Byte>)
    requires f.WellFormed() && Readable(limit, f) && Knows(limit, s, f, q) && f.HeaderSize() <= q < f.Size()
    requires Carries(all, f) && InHand(all, q, buf)
    ensures s.Valid(limit) && s.stage == Payload && Outcome(limit, f, q, buf, PayloadStage(limit, s, buf, FRESH_FRAME))
  {
    hide InHand, Carries, PayloadStage;
    PayloadStep(limit, s, buf, f, q, all);
  }

  lemma MaskOutcome(limit: nat, s: ParseState, buf: seq<Byte>, f: ClientFrame, q: nat, all: seq<Byte>)
    requires f.WellFormed() && limit < 126 * 65536 && Knows(limit, s, f, q) && 2 + f.form.Width() <= q < f.HeaderSize()
    requires Carries(all, f) && InHand(all, q, buf)
    ensures Outcome(limit, f, q, buf, AfterLength(limit, s, buf, FRESH_FRAME))
  {
    hide InHand, Carries, PayloadStage, MaskKeyStage, Knows, Outcome, Stuck;
    var q1 := Min(q + |buf|, f.HeaderSize());
    KnowsStage(limit, s, f, q);
    MaskStep(limit, s, buf, f, q, all);
    var (s1, b1) := MaskKeyStage(limit, s, buf);
    if q1 < f.HeaderSize() {
      KnowsStage(limit, s1, f, q1);
      StillInHeader(limit, s1, f, q, buf);
    } else if Readable(limit, f) {
      PrefixTail(all, buf, q, q1);
      PayloadOutcome(limit, s1, b1, f, q1, all);
      OutcomeEarlier(limit, f, q, q1, buf, PayloadStage(limit, s1, b1, FRESH_FRAME));
    } else {
      StuckOutcome(limit, s1, f, q, buf, b1);
    }
  }

  lemma StillInHeader(limit: nat, s: ParseState, f: ClientFrame, q: nat, buf: seq<Byte>)
    requires f.WellFormed() && q + |buf| < f.HeaderSize() && Knows(limit, s, f, q + |buf|)
    ensures Outcome(limit, f, q, buf, Parsed(false, s, [], FRESH_FRAME))
  {
    hide Knows;
  }

  lemma StuckOutcome(limit: nat, s: ParseState, f: ClientFrame, q: nat, buf: seq<Byte>, left: seq<Byte>)
    requires f.WellFormed() && q <= f.HeaderSize() <= q + |buf| && !Readable(limit, f) && Stuck(limit, s)
    ensures s.Valid(limit)
    ensures Outcome(limit, f, q, buf, if s.stage == Payload then PayloadStage(limit, s, left, FRESH_FRAME)
                                      else Parsed(false, s, left, FRESH_FRAME))
  {
    hide Knows;
  }

  lemma TailStep(limit: nat, s: ParseState, buf: seq<Byte>, f: ClientFrame, q: nat, all: seq<Byte>)
    requires f.WellFormed() && limit < 126 * 65536 && Knows(limit, s, f, q) && 2 + f.form.Width() <= q
    requires q < if Readable(limit, f) then f.Size() else f.HeaderSize()
    requires Carries(all, f) && InHand(all, q, buf)
    ensures s.Valid(limit) && Outcome(limit, f, q, buf, AfterLength(limit, s, buf, FRESH_FRAME))
  {
    hide InHand, Carries, PayloadStage, MaskKeyStage, Outcome;
    if q < f.HeaderSize() {
      MaskOutcome(limit, s, buf, f, q, all);
    } else {
      PayloadOutcome(limit, s, buf, f, q, all);
    }
  }

  lemma ExtendedOutcome(limit: nat, s: ParseState, buf: seq<Byte>, f: ClientFrame, q: nat, all: seq<Byte>)
    requires f.WellFormed() && limit < 126 * 65536 && Knows(limit, s, f, q) && q < 2 + f.form.Width() && buf != []
    requires Carries(all, f) && InHand(all, q, buf)
    ensures s.Valid(limit) && s.stage == HeaderExtendedLen
    ensures var (s1, b1) := ExtendedLenStage(limit, s, buf);
            Outcome(limit, f, q, buf, AfterLength(limit, s1, b1, FRESH_FRAME))
  {
    hide InHand, AfterLength, ExtendedLenStage, Carries, Knows, Outcome, Readable;
    ExtendedStep(limit, s, buf, f, q, all);
    KnowsStage(limit, s, f, q);
    var (s1, b1) := ExtendedLenStage(limit, s, buf);
    var w2, q1 := 2 + f.form.Width(), Min(q + |buf|, 2 + f.form.Width());
    PrefixTail(all, buf, q, q1);
    KnowsStage(limit, s1, f, q1);
    if q1 == w2 {
      TailStep(limit, s1, b1, f, w2, all);
      OutcomeEarlier(limit, f, q, w2, buf, AfterLength(limit, s1, b1, FRESH_FRAME));
    } else {
      StaysExtended(limit, s1, b1);
      StillInHeader(limit, s1, f, q, buf);
    }
  }

  /** One call in the middle of a frame. */
  lemma ParseStep(limit: nat, s: ParseState, buf: seq<Byte>, f: ClientFrame, q: nat, all: seq<Byte>)
    requires f.WellFormed() && limit < 126 * 65536 && Knows(limit, s, f, q)
    requires q < if Readable(limit, f) then f.Size() else f.HeaderSize()
    requires Carries(all, f) && InHand(all, q, buf)
    ensures s.Valid(limit) && Outcome(limit, f, q, buf, TryParse(limit, s, buf, FRESH_FRAME))
  {
    KnowsStage(limit, s, f, q);
    if buf != [] {
      hide InHand, AfterLength, ExtendedLenStage, Carries, Knows, Outcome;
      if q < 2 + f.form.Width() {
        ExtendedOutcome(limit, s, buf, f, q, all);
      } else {
        TailStep(limit, s, buf, f, q, all);
      }
    }
  }

  lemma StaysExtended(limit: nat, s: ParseState, buf: seq<Byte>)
    requires s.Valid(limit) && s.stage == HeaderExtendedLen
    ensures AfterLength(limit, s, buf, FRESH_FRAME) == Parsed(false, s, buf, FRESH_FRAME)
  {
  }

  lemma KnowsStage(limit: nat, s: ParseState, f: ClientFrame, q: nat)
    requires f.WellFormed() && Knows(limit, s, f, q)
    ensures s.Valid(limit) && q >= 2
    ensures s.stage ==
            if q < 2 + f.form.Width() then HeaderExtendedLen else if q < f.HeaderSize() then HeaderMaskKey else Payload
  {
  }

  // ---------- Whole runs ----------

  /** Finish the reads in hand, then take the remaining ones. */
  ghost function Resume(limit: nat, s: ParseState, buf: seq<Byte>, chunks: seq<seq<Byte>>): seq<WsFrame>
    requires s.Valid(limit)
  {
    var (fs, s', b') := Drain(limit, s, buf);
    fs + Feed(limit, s', b', chunks)
  }

  /** What is still to come, in hand or not, is `all` from position `q`. */
  ghost predicate Ahead(all: seq<Byte>, q: nat, buf: seq<Byte>, chunks: seq<seq<Byte>>) {
    q <= |all| && buf + Concat(chunks) == all[q..]
  }

  lemma AheadPrefix(all: seq<Byte>, q: nat, buf: seq<Byte>, chunks: seq<seq<Byte>>)
    requires Ahead(all, q, buf, chunks)
    ensures InHand(all, q, buf)
  {
  }

  lemma AheadRead(all: seq<Byte>, q: nat, buf: seq<Byte>, chunks: seq<seq<Byte>>)
    requires Ahead(all, q, buf, chunks) && chunks != []
    ensures Ahead(all, q, buf + chunks[0], chunks[1..])
  {
    assert buf + chunks[0] + Concat(chunks[1..]) == buf + Concat(chunks);
  }

  lemma AheadTake(all: seq<Byte>, q: nat, buf: seq<Byte>, chunks: seq<seq<Byte>>, k: nat)
    requires Ahead(all, q, buf, chunks) && k <= |buf|
    ensures Ahead(all, q + k, buf[k..], chunks)
  {
    assert (buf + Concat(chunks))[k..] == buf[k..] + Concat(chunks);
  }

  /** One read: a frame comes out and parsing resumes behind it, or the read is used up. */
  lemma FeedStep(limit: nat, s: ParseState, buf: seq<Byte>, chunks: seq<seq<Byte>>)
    requires s.Valid(limit) && chunks != []
    ensures var p := TryParse(limit, s, buf + chunks[0], FRESH_FRAME);
            Feed(limit, s, buf, chunks) == if p.ok then [p.frame] + Resume(limit, p.state, p.buffer, chunks[1..])
                                           else Feed(limit, p.state, p.buffer, chunks[1..])
  {
    hide TryParse, Drain, Feed, Resume;
    var b, rest := buf + chunks[0], chunks[1..];
    var p := TryParse(limit, s, b, FRESH_FRAME);
    FeedOpen(limit, s, buf, chunks);
    DrainOpen(limit, s, b);
    if p.ok {
      ResumeOpen(limit, p.state, p.buffer, rest);
      var d := Drain(limit, p.state, p.buffer);
      FirstApart(p.frame, d.0, Feed(limit, d.1, d.2, rest));
    } else {
      NothingInFront(Feed(limit, p.state, p.buffer, rest));
    }
  }

  lemma FirstApart<T>(x: T, a: seq<T>, b: seq<T>)
    ensures ([x] + a) + b == [x] + (a + b)
  {
  }

  lemma NothingInFront<T>(a: seq<T>)
    ensures [] + a == a
  {
  }

  lemma DrainOpen(limit: nat, s: ParseState, buf: seq<Byte>)
    requires s.Valid(limit)
    ensures var p := TryParse(limit, s, buf, FRESH_FRAME);
            if !p.ok then Drain(limit, s, buf) == ([], p.state, p.buffer) else
            var rest := Drain(limit, p.state, p.buffer);
            Drain(limit, s, buf) == ([p.frame] + rest.0, rest.1, rest.2)
  {
    hide TryParse;
  }

  lemma FeedOpen(limit: nat, s: ParseState, buf: seq<Byte>, chunks: seq<seq<Byte>>)
    requires s.Valid(limit) && chunks != []
    ensures var d := Drain(limit, s, buf + chunks[0]);
            Feed(limit, s, buf, chunks) == d.0 + Feed(limit, d.1, d.2, chunks[1..])
  {
    hide Drain;
  }

  lemma ResumeOpen(limit: nat, s: ParseState, buf: seq<Byte>, chunks: seq<seq<Byte>>)
    requires s.Valid(limit)
    ensures var d := Drain(limit, s, buf);
            Resume(limit, s, buf, chunks) == d.0 + Feed(limit, d.1, d.2, chunks)
  {
    hide Drain, Feed;
  }

  lemma ResumeStep(limit: nat, s: ParseState, buf: seq<Byte>, chunks: seq<seq<Byte>>)
    requires s.Valid(limit) && !TryParse(limit, s, buf, FRESH_FRAME).ok
    ensures var p := TryParse(limit, s, buf, FRESH_FRAME);
            Resume(limit, s, buf, chunks) == Feed(limit, p.state, p.buffer, chunks)
  {
    hide TryParse, Feed;
  }

  lemma ReadMore(limit: nat, s: ParseState, buf: seq<Byte>, chunks: seq<seq<Byte>>)
    requires s.Valid(limit) && chunks != []
    ensures Feed(limit, s, buf, chunks) == Resume(limit, s, buf + chunks[0], chunks[1..])
  {
    hide Drain;
  }

  lemma {:induction false} StuckFeed(limit: nat, s: ParseState, buf: seq<Byte>, chunks: seq<seq<Byte>>)
    requires Stuck(limit, s)
    ensures Feed(limit, s, buf, chunks) == []
    decreases |chunks|
  {
    if chunks != [] {
      StuckParse(limit, s, buf + chunks[0]);
      FeedStep(limit, s, buf, chunks);
      hide TryParse, Drain;
      StuckFeed(limit, s, TryParse(limit, s, buf + chunks[0], FRESH_FRAME).buffer, chunks[1..]);
    }
  }

  lemma StuckParse(limit: nat, s: ParseState, buf: seq<Byte>)
    requires Stuck(limit, s)
    ensures var p := TryParse(limit, s, buf, FRESH_FRAME); !p.ok && p.state == s
  {
    if s.stage == HeaderMaskKey {
      assert s.maskKey[..4] + [] + s.maskKey[4..] == s.maskKey;
    }
  }

  /** The parser knows `q` bytes of `f` and can still learn from it; its remaining bytes are in hand or to come. */
  ghost predicate Reading(limit: nat, s: ParseState, buf: seq<Byte>, f: ClientFrame, q: nat, chunks: seq<seq<Byte>>,
                          all: seq<Byte>) {
    && f.WellFormed() && limit < 126 * 65536 && Knows(limit, s, f, q)
    && q < (if Readable(limit, f) then f.Size() else f.HeaderSize())
    && Carries(all, f) && Ahead(all, q, buf, chunks)
  }

  /** One read in the middle of a frame. */
  lemma OneRead(limit: nat, s: ParseState, buf: seq<Byte>, f: ClientFrame, q: nat, chunks: seq<seq<Byte>>,
                all: seq<Byte>)
    requires Reading(limit, s, buf, f, q, chunks, all) && chunks != []
    ensures s.Valid(limit)
    ensures var buf1 := buf + chunks[0];
            var p := TryParse(limit, s, buf1, FRESH_FRAME);
            && Outcome(limit, f, q, buf1, p)
            && Feed(limit, s, buf, chunks) == (if p.ok then [p.frame] + Resume(limit, p.state, p.buffer, chunks[1..])
                                               else Feed(limit, p.state, p.buffer, chunks[1..]))
            && (q + |buf1| < f.Size() ==> Ahead(all, q + |buf1|, [], chunks[1..]))
            && (q + |buf1| >= f.Size() ==> Ahead(all, f.Size(), buf1[f.Size() - q..], chunks[1..]))
  {
    hide InHand, TryParse, Knows, Carries, Drain, Resume, Ahead, Outcome;
    KnowsStage(limit, s, f, q);
    var buf1 := buf + chunks[0];
    FeedStep(limit, s, buf, chunks);
    AheadRead(all, q, buf, chunks);
    AheadPrefix(all, q, buf1, chunks[1..]);
    ParseStep(limit, s, buf1, f, q, all);
    var k := Min(f.Size() - q, |buf1|);
    AheadTake(all, q, buf1, chunks[1..], k);
    assert k == |buf1| ==> buf1[k..] == [];
  }

  /** One read inside the payload: more of it is still missing, or the frame comes out too short. */
  lemma LostRead(limit: nat, s: ParseState, f: ClientFrame, q: nat, chunks: seq<seq<Byte>>, all: seq<Byte>)
    requires Reading(limit, s, [], f, q, chunks, all) && Readable(limit, f) && f.HeaderSize() < q && chunks != []
    ensures s.Valid(limit)
    ensures var p, got := TryParse(limit, s, [] + chunks[0], FRESH_FRAME), Feed(limit, s, [], chunks);
            if p.ok then got != [] && |got[0].payload| < |f.payload|
            else && Reading(limit, p.state, [], f, q + |[] + chunks[0]|, chunks[1..], all)
                 && got == Feed(limit, p.state, [], chunks[1..])
  {
    hide TryParse, Knows, Carries, Feed, Resume, Ahead, Outcome;
    OneRead(limit, s, [], f, q, chunks, all);
    InPayload(limit, f, q, [] + chunks[0], TryParse(limit, s, [] + chunks[0], FRESH_FRAME));
  }

  /** A call inside the payload of a readable frame. */
  lemma InPayload(limit: nat, f: ClientFrame, q: nat, buf: seq<Byte>, p: Parsed)
    requires f.WellFormed() && f.HeaderSize() < q <= f.Size() && Readable(limit, f) && Outcome(limit, f, q, buf, p)
    ensures p.ok <==> q + |buf| >= f.Size()
    ensures p.ok ==> |p.frame.payload| < |f.payload|
    ensures !p.ok ==> p.buffer == [] && Knows(limit, p.state, f, q + |buf|)
  {
    hide Knows;
  }

  /** A payload cut after some of its bytes were parsed: those bytes are lost. */
  lemma {:induction false} LostBytes(limit: nat, s: ParseState, f: ClientFrame, q: nat, chunks: seq<seq<Byte>>,
                                     all: seq<Byte>)
    requires Reading(limit, s, [], f, q, chunks, all) && Readable(limit, f) && f.HeaderSize() < q
    ensures s.Valid(limit)
    ensures var got := Feed(limit, s, [], chunks);
            got == [] || |got[0].payload| < |f.payload|
    decreases |chunks|
  {
    hide TryParse, Knows, Carries, Feed, Ahead, Readable;
    KnowsStage(limit, s, f, q);
    hide Reading;
    if chunks == [] {
      NothingFed(limit, s, []);
    } else {
      LostRead(limit, s, f, q, chunks, all);
      var p := TryParse(limit, s, [] + chunks[0], FRESH_FRAME);
      if !p.ok {
        LostBytes(limit, p.state, f, q + |[] + chunks[0]|, chunks[1..], all);
      }
    }
  }

  /** A frame that cannot be read: it never comes out, nor does anything after it. */
  lemma {:induction false} NeverComesOut(limit: nat, s: ParseState, buf: seq<Byte>, f: ClientFrame, q: nat,
                                         chunks: seq<seq<Byte>>, all: seq<Byte>)
    requires Reading(limit, s, buf, f, q, chunks, all) && !Readable(limit, f)
    ensures s.Valid(limit) && Feed(limit, s, buf, chunks) == []
    decreases |chunks|
  {
    hide TryParse, Knows, Carries, Drain, Resume, Ahead;
    KnowsStage(limit, s, f, q);
    if chunks != [] {
      OneRead(limit, s, buf, f, q, chunks, all);
      var buf1 := buf + chunks[0];
      var p := TryParse(limit, s, buf1, FRESH_FRAME);
      if q + |buf1| < f.HeaderSize() {
        NeverComesOut(limit, p.state, [], f, q + |buf1|, chunks[1..], all);
      } else {
        StuckFeed(limit, p.state, p.buffer, chunks[1..]);
      }
    }
  }

  lemma FinishOpen(limit: nat, f: ClientFrame, have: nat, chunks: seq<seq<Byte>>)
    ensures Finish(f, have, Sizes(chunks)) ==
      if chunks == [] then Never else
      var now := have + |chunks[0]|;
      if now <= f.HeaderSize() then Finish(f, now, Sizes(chunks[1..]))
      else if now < f.Size() then Never
      else At(now - f.Size(), Sizes(chunks[1..]))
  {
    if chunks != [] {
      assert Sizes(chunks)[1..] == Sizes(chunks[1..]);
    }
  }

  lemma NothingFed(limit: nat, s: ParseState, buf: seq<Byte>)
    requires s.Valid(limit)
    ensures Feed(limit, s, buf, []) == []
  {
  }

  /** The parser is inside the header of a readable frame, whose remaining bytes are in hand or still to come. */
  ghost predicate Amid(limit: nat, s: ParseState, buf: seq<Byte>, f: ClientFrame, q: nat, chunks: seq<seq<Byte>>,
                       all: seq<Byte>) {
    Reading(limit, s, buf, f, q, chunks, all) && Readable(limit, f) && q <= f.HeaderSize()
  }

  /** A call inside the header of a readable frame. */
  lemma WholeOrMore(limit: nat, f: ClientFrame, q: nat, buf: seq<Byte>, p: Parsed)
    requires f.WellFormed() && q <= f.HeaderSize() && Readable(limit, f) && Outcome(limit, f, q, buf, p)
    ensures q + |buf| < f.Size() ==> !p.ok && p.buffer == [] && Knows(limit, p.state, f, q + |buf|)
    ensures q + |buf| >= f.Size() ==>
              && p.ok && p.frame == f.Plain() && p.buffer == buf[f.Size() - q..]
              && p.state.Valid(limit) && p.state.stage == HeaderBasic
  {
    hide Knows;
  }

  lemma AmidFacts(limit: nat, s: ParseState, buf: seq<Byte>, f: ClientFrame, q: nat, chunks: seq<seq<Byte>>,
                  all: seq<Byte>)
    requires Amid(limit, s, buf, f, q, chunks, all)
    ensures s.Valid(limit) && f.HeaderSize() < f.Size()
  {
    KnowsStage(limit, s, f, q);
  }

  /** One read amid a frame that brings all of it. */
  lemma AmidWhole(limit: nat, s: ParseState, buf: seq<Byte>, f: ClientFrame, q: nat, chunks: seq<seq<Byte>>,
                  all: seq<Byte>)
    requires Amid(limit, s, buf, f, q, chunks, all) && chunks != []
    requires q + |buf + chunks[0]| >= f.Size()
    ensures s.Valid(limit)
    ensures var p, now, rest := TryParse(limit, s, buf + chunks[0], FRESH_FRAME), q + |buf + chunks[0]|, chunks[1..];
            && p.state.Valid(limit) && p.state.stage == HeaderBasic && |p.buffer| == now - f.Size()
            && Feed(limit, s, buf, chunks) == [f.Plain()] + Resume(limit, p.state, p.buffer, rest)
            && Ahead(all, f.Size(), p.buffer, rest)
  {
    hide TryParse, Knows, Carries, Feed, Resume, Ahead, Outcome;
    OneRead(limit, s, buf, f, q, chunks, all);
    WholeOrMore(limit, f, q, buf + chunks[0], TryParse(limit, s, buf + chunks[0], FRESH_FRAME));
  }

  /** One that brings no more than header. */
  lemma AmidHeader(limit: nat, s: ParseState, buf: seq<Byte>, f: ClientFrame, q: nat, chunks: seq<seq<Byte>>,
                   all: seq<Byte>)
    requires Amid(limit, s, buf, f, q, chunks, all) && chunks != []
    requires q + |buf + chunks[0]| <= f.HeaderSize()
    ensures s.Valid(limit)
    ensures var p, now, rest := TryParse(limit, s, buf + chunks[0], FRESH_FRAME), q + |buf + chunks[0]|, chunks[1..];
            && Amid(limit, p.state, [], f, now, rest, all)
            && Feed(limit, s, buf, chunks) == Feed(limit, p.state, [], rest)
  {
    hide TryParse, Knows, Carries, Feed, Resume, Ahead, Outcome;
    AmidFacts(limit, s, buf, f, q, chunks, all);
    OneRead(limit, s, buf, f, q, chunks, all);
    WholeOrMore(limit, f, q, buf + chunks[0], TryParse(limit, s, buf + chunks[0], FRESH_FRAME));
  }

  /** One that brings a part of the payload, which is lost. */
  lemma AmidLost(limit: nat, s: ParseState, buf: seq<Byte>, f: ClientFrame, q: nat, chunks: seq<seq<Byte>>,
                 all: seq<Byte>)
    requires Amid(limit, s, buf, f, q, chunks, all) && chunks != []
    requires f.HeaderSize() < q + |buf + chunks[0]| < f.Size()
    ensures s.Valid(limit)
    ensures var got := Feed(limit, s, buf, chunks); got == [] || |got[0].payload| < |f.payload|
  {
    hide TryParse, Knows, Carries, Feed, Resume, Ahead, Outcome;
    OneRead(limit, s, buf, f, q, chunks, all);
    WholeOrMore(limit, f, q, buf + chunks[0], TryParse(limit, s, buf + chunks[0], FRESH_FRAME));
    hide Amid;
    var p := TryParse(limit, s, buf + chunks[0], FRESH_FRAME);
    LostBytes(limit, p.state, f, q + |buf + chunks[0]|, chunks[1..], all);
  }

  /** From the noticed header on: delivered whole exactly when `Finish` says so. */
  lemma {:induction false} MidRun(limit: nat, s: ParseState, buf: seq<Byte>, f: ClientFrame, q: nat,
                                  chunks: seq<seq<Byte>>, all: seq<Byte>)
    returns (s': ParseState, buf': seq<Byte>, chunks': seq<seq<Byte>>)
    requires Amid(limit, s, buf, f, q, chunks, all)
    ensures s.Valid(limit)
    ensures var got := Feed(limit, s, buf, chunks);
            match Finish(f, q + |buf|, Sizes(chunks))
            case Never => got == [] || |got[0].payload| < |f.payload|
            case At(have, later) =>
              && s'.Valid(limit) && s'.stage == HeaderBasic && |buf'| == have && Sizes(chunks') == later
              && got == [f.Plain()] + Resume(limit, s', buf', chunks') && Ahead(all, f.Size(), buf', chunks')
    decreases |chunks|
  {
    hide TryParse, Knows, Carries, Feed, Resume, Ahead, Finish, Sizes;
    AmidFacts(limit, s, buf, f, q, chunks, all);
    s', buf', chunks' := s, buf, chunks;
    FinishOpen(limit, f, q + |buf|, chunks);
    hide Amid;
    if chunks == [] {
      NothingFed(limit, s, buf);
    } else {
      var p, now := TryParse(limit, s, buf + chunks[0], FRESH_FRAME), q + |buf + chunks[0]|;
      if now >= f.Size() {
        AmidWhole(limit, s, buf, f, q, chunks, all);
        s', buf', chunks' := p.state, p.buffer, chunks[1..];
      } else if now <= f.HeaderSize() {
        AmidHeader(limit, s, buf, f, q, chunks, all);
        s', buf', chunks' := MidRun(limit, p.state, [], f, now, chunks[1..], all);
      } else {
        AmidLost(limit, s, buf, f, q, chunks, all);
      }
    }
  }

  lemma MoreToCome(buf: seq<Byte>, f: ClientFrame, chunks: seq<seq<Byte>>, all: seq<Byte>)
    requires f.WellFormed() && Carries(all, f) && Ahead(all, 0, buf, chunks) && |buf| < 2
    ensures chunks != []
  {
    hide LengthBytes, LengthCode, Mask;
    assert |all| >= 2;
  }

  /** From the start of a frame until its two basic header bytes have been parsed. */
  lemma {:induction false} StartRun(limit: nat, s: ParseState, buf: seq<Byte>, f: ClientFrame,
                                    chunks: seq<seq<Byte>>, all: seq<Byte>)
    returns (s': ParseState, buf': seq<Byte>, chunks': seq<seq<Byte>>)
    requires f.WellFormed() && s.Valid(limit) && s.stage == HeaderBasic && Carries(all, f) && Ahead(all, 0, buf, chunks)
    ensures match Notice(|buf|, Sizes(chunks))
            case Never => Resume(limit, s, buf, chunks) == []
            case At(have, later) =>
              && s'.Valid(limit) && Knows(limit, s', f, 2) && 2 + |buf'| == have && Sizes(chunks') == later
              && Resume(limit, s, buf, chunks) == Feed(limit, s', buf', chunks') && Ahead(all, 2, buf', chunks')
    decreases |chunks|
  {
    hide InHand, TryParse, Knows, Carries, Ahead, Drain, Resume, Feed;
    assert all[0..] == all;
    s', buf', chunks' := s, buf, chunks;
    AheadPrefix(all, 0, buf, chunks);
    BasicStep(limit, s, buf, f, all);
    var p := TryParse(limit, s, buf, FRESH_FRAME);
    ResumeStep(limit, s, buf, chunks);
    if |buf| >= 2 {
      KnowsStage(limit, p.state, f, 2);
      AheadTake(all, 0, buf, chunks, 2);
      s', buf', chunks' := p.state, p.buffer, chunks;
    } else {
      MoreToCome(buf, f, chunks, all);
      AheadRead(all, 0, buf, chunks);
      ReadMore(limit, s, buf, chunks);
      s', buf', chunks' := StartRun(limit, s, buf + chunks[0], f, chunks[1..], all);
    }
  }

  lemma {:induction false} NothingToRead(limit: nat, s: ParseState, chunks: seq<seq<Byte>>)
    requires s.Valid(limit) && Concat(chunks) == []
    ensures Feed(limit, s, [], chunks) == []
    decreases |chunks|
  {
    if chunks != [] {
      assert chunks[0] == [] && [] + chunks[0] == [];
      NothingToRead(limit, s, chunks[1..]);
    }
  }

  /** The first frame comes out whole, and parsing resumes behind it, exactly when it is readable and on time. */
  lemma FirstFrame(limit: nat, s: ParseState, buf: seq<Byte>, f: ClientFrame, chunks: seq<seq<Byte>>, all: seq<Byte>)
    returns (s': ParseState, buf': seq<Byte>, chunks': seq<seq<Byte>>)
    requires f.WellFormed() && limit < 126 * 65536 && s.Valid(limit) && s.stage == HeaderBasic
    requires Carries(all, f) && Ahead(all, 0, buf, chunks)
    ensures var got, n := Resume(limit, s, buf, chunks), Notice(|buf|, Sizes(chunks));
            if Readable(limit, f) && n.At? && Finish(f, n.have, n.later).At? then
              var d := Finish(f, n.have, n.later);
              && s'.Valid(limit) && s'.stage == HeaderBasic && |buf'| == d.have && Sizes(chunks') == d.later
              && got == [f.Plain()] + Resume(limit, s', buf', chunks') && Ahead(all, f.Size(), buf', chunks')
            else got == [] || |got[0].payload| < |f.payload|
  {
    hide Carries, Ahead, Resume, Feed, Notice, Finish, Sizes, Knows;
    var s1, buf1, chunks1 := StartRun(limit, s, buf, f, chunks, all);
    s', buf', chunks' := s1, buf1, chunks1;
    if Notice(|buf|, Sizes(chunks)).At? {
      if Readable(limit, f) {
        s', buf', chunks' := MidRun(limit, s1, buf1, f, 2, chunks1, all);
      } else {
        NeverComesOut(limit, s1, buf1, f, 2, chunks1, all);
      }
    }
  }

  /** The parser as written hands on exactly the frames sent if and only if every frame is readable and on time. */
  lemma {:induction false} DeliversFrom(limit: nat, s: ParseState, buf: seq<Byte>, fs: seq<ClientFrame>,
                                        chunks: seq<seq<Byte>>)
    requires limit < 126 * 65536 && s.Valid(limit) && s.stage == HeaderBasic
    requires AllWellFormed(fs) && buf + Concat(chunks) == EncodeClients(fs)
    ensures Resume(limit, s, buf, chunks) == Plains(fs) <==> OnTime(limit, fs, |buf|, Sizes(chunks))
    decreases |fs|
  {
    hide TryParse, Knows, Carries, EncodeClient;
    if fs == [] {
      assert buf == [] && Concat(chunks) == [];
      NothingParses(limit, s);
      NothingToRead(limit, s, chunks);
    } else {
      var f, all := fs[0], EncodeClients(fs);
      FrameParts(f, EncodeClients(fs[1..]));
      assert all[0..] == all && Ahead(all, 0, buf, chunks);
      assert Plains(fs) == [f.Plain()] + Plains(fs[1..]);
      hide Resume, Feed, Notice, Finish, Sizes, Readable, Plains;
      var s', buf', chunks' := FirstFrame(limit, s, buf, f, chunks, all);
      var n := Notice(|buf|, Sizes(chunks));
      if Readable(limit, f) && n.At? && Finish(f, n.have, n.later).At? {
        DeliversFrom(limit, s', buf', fs[1..], chunks');
        SameTail(f.Plain(), Resume(limit, s', buf', chunks'), Plains(fs[1..]));
      }
    }
  }

  lemma NothingParses(limit: nat, s: ParseState)
    requires s.Valid(limit)
    ensures Drain(limit, s, []) == ([], s, [])
  {
  }

  lemma SameTail<T>(x: T, a: seq<T>, b: seq<T>)
    ensures [x] + a == [x] + b <==> a == b
  {
    assert ([x] + a)[1..] == a && ([x] + b)[1..] == b;
  }

  const START: ParseState := ParseState(HeaderBasic, false, 0, false, [0, 0, 0, 0], 0, 0, 0)

  /** A fresh connection: every list of frames, every cutting of its bytes into reads. */
  lemma DeliversExactly(limit: nat, fs: seq<ClientFrame>, chunks: seq<seq<Byte>>)
    requires limit < 126 * 65536 && AllWellFormed(fs) && Concat(chunks) == EncodeClients(fs)
    ensures Feed(limit, START, [], chunks) == Plains(fs) <==> OnTime(limit, fs, 0, Sizes(chunks))
  {
    hide EncodeClients, OnTime, Plains, Resume, Feed;
    assert [] + Concat(chunks) == Concat(chunks);
    DeliversFrom(limit, START, [], fs, chunks);
    ResumeFromStart(limit, chunks);
  }

  lemma ResumeFromStart(limit: nat, chunks: seq<seq<Byte>>)
    ensures START.Valid(limit) && Resume(limit, START, [], chunks) == Feed(limit, START, [], chunks)
  {
    NothingParses(limit, START);
    hide TryParse, Feed;
  }

  // ---------- Consequences ----------

  /** Each frame costs a read of its own, and the first one a read more. */
  lemma {:induction false} OneReadPerFrame(limit: nat, fs: seq<ClientFrame>, have: nat, sizes: seq<nat>)
    requires OnTime(limit, fs, have, sizes)
    ensures |fs| <= |sizes| && (have < 2 && fs != [] ==> |fs| < |sizes|)
    decreases |fs|
  {
    if fs != [] {
      var h1 := Notice(have, sizes);
      var h2 := Finish(fs[0], h1.have, h1.later);
      OneReadPerFrame(limit, fs[1..], h2.have, h2.later);
    }
  }

  /** However the bytes are cut, n > 0 frames in n reads or fewer are not delivered as sent. */
  lemma TooFewReads(limit: nat, fs: seq<ClientFrame>, chunks: seq<seq<Byte>>)
    requires limit < 126 * 65536 && AllWellFormed(fs) && Concat(chunks) == EncodeClients(fs)
    requires fs != [] && |chunks| <= |fs|
    ensures Feed(limit, START, [], chunks) != Plains(fs)
  {
    DeliversExactly(limit, fs, chunks);
    if OnTime(limit, fs, 0, Sizes(chunks)) {
      OneReadPerFrame(limit, fs, 0, Sizes(chunks));
    }
  }

  /** A client that uses minimal length forms is heard exactly only if no payload is empty or between 126 and 65535
      bytes long. */
  lemma {:induction false} OnlyReadableLengths(limit: nat, fs: seq<ClientFrame>, have: nat, sizes: seq<nat>, i: nat)
    requires OnTime(limit, fs, have, sizes) && i < |fs| && fs[i].form == MinimalForm(|fs[i].payload|)
    ensures var n := |fs[i].payload|; 1 <= n <= 125 || 65536 <= n <= limit
    decreases |fs|
  {
    if i > 0 {
      var h1 := Notice(have, sizes);
      var h2 := Finish(fs[0], h1.have, h1.later);
      OnlyReadableLengths(limit, fs[1..], h2.have, h2.later, i - 1);
    }
  }

  // ---------- Which frames can be heard at all ----------

  ghost predicate AllReadable(limit: nat, fs: seq<ClientFrame>) {
    forall i :: 0 <= i < |fs| ==> Readable(limit, fs[i])
  }

  /** `chunks` is a cutting of the bytes of `fs` that delivers them exactly. */
  ghost predicate Hears(limit: nat, fs: seq<ClientFrame>, chunks: seq<seq<Byte>>)
    requires AllWellFormed(fs)
  {
    Concat(chunks) == EncodeClients(fs) && Feed(limit, START, [], chunks) == Plains(fs)
  }

  /** The buffer of one `read()`. */
  const READ_SIZE: nat := 1024

  ghost predicate AsRead(sizes: seq<nat>) {
    forall i :: 0 <= i < |sizes| ==> 1 <= sizes[i] <= READ_SIZE
  }

  function Sum(sizes: seq<nat>): nat {
    if sizes == [] then 0 else sizes[0] + Sum(sizes[1..])
  }

  function CutAt(bs: seq<Byte>, sizes: seq<nat>): seq<seq<Byte>>
    requires Sum(sizes) == |bs|
  {
    if sizes == [] then [] else [bs[..sizes[0]]] + CutAt(bs[sizes[0]..], sizes[1..])
  }

  /** All sizes that add up are the sizes of a cutting. */
  lemma {:induction false} CutFits(bs: seq<Byte>, sizes: seq<nat>)
    requires Sum(sizes) == |bs|
    ensures Concat(CutAt(bs, sizes)) == bs && Sizes(CutAt(bs, sizes)) == sizes
    decreases |sizes|
  {
    if sizes != [] {
      var first, rest := bs[..sizes[0]], CutAt(bs[sizes[0]..], sizes[1..]);
      CutFits(bs[sizes[0]..], sizes[1..]);
      assert ([first] + rest)[1..] == rest;
      assert bs == first + bs[sizes[0]..];
    }
  }

  /** Reads for a frame of n bytes: the first brings at least the two basic header bytes, the last all that is missing;
      when it can be done at all, none is longer than the read buffer. */
  function FrameReads(n: nat): seq<nat>
    requires n >= 7
  {
    if n <= READ_SIZE + 2 || n > 2 * READ_SIZE + 1 then [2, n - 2]
    else if n <= 2 * READ_SIZE then [n - READ_SIZE, READ_SIZE]
    else [1, READ_SIZE, READ_SIZE]
  }

  ghost function AllReads(limit: nat, fs: seq<ClientFrame>): seq<nat>
    requires AllReadable(limit, fs)
  {
    if fs == [] then [] else
    assert AllReadable(limit, fs[1..]);
    FrameReads(fs[0].Size()) + AllReads(limit, fs[1..])
  }

  lemma ReadsOnTime(limit: nat, f: ClientFrame, rest: seq<nat>)
    requires Readable(limit, f)
    ensures Sum(FrameReads(f.Size()) + rest) == f.Size() + Sum(rest)
    ensures var n := Notice(0, FrameReads(f.Size()) + rest);
            n.At? && Finish(f, n.have, n.later) == At(0, rest)
    ensures f.Size() <= 2 * READ_SIZE + 1 ==> AsRead(FrameReads(f.Size()))
  {
    var own := FrameReads(f.Size());
    var all := own + rest;
    assert all[0] == own[0] && all[1] == own[1];
    if |own| == 2 {
      assert all[1..][1..] == rest;
    } else {
      var s1, s2 := all[1..], all[1..][1..];
      assert s2[0] == READ_SIZE && s2[1..] == rest;
      assert Sum(s1) == READ_SIZE + Sum(s2);
      assert Notice(1, s1) == At(READ_SIZE + 1, s2);
    }
  }

  lemma {:induction false} AllReadsOnTime(limit: nat, fs: seq<ClientFrame>)
    requires AllWellFormed(fs) && AllReadable(limit, fs)
    ensures OnTime(limit, fs, 0, AllReads(limit, fs)) && Sum(AllReads(limit, fs)) == |EncodeClients(fs)|
    ensures (forall i :: 0 <= i < |fs| ==> fs[i].Size() <= 2 * READ_SIZE + 1) ==> AsRead(AllReads(limit, fs))
  {
    if fs != [] {
      AllReadsOnTime(limit, fs[1..]);
      hide EncodeClient, FrameReads, Notice, Finish, Sum, Readable;
      ReadsOnTime(limit, fs[0], AllReads(limit, fs[1..]));
    }
  }

  lemma {:induction false} OnTimeReadable(limit: nat, fs: seq<ClientFrame>, have: nat, sizes: seq<nat>)
    requires OnTime(limit, fs, have, sizes)
    ensures AllReadable(limit, fs)
    decreases |fs|
  {
    if fs != [] {
      var h1 := Notice(have, sizes);
      var h2 := Finish(fs[0], h1.have, h1.later);
      hide Readable;
      OnTimeReadable(limit, fs[1..], h2.have, h2.later);
    }
  }

  /** The cutting that hears readable frames. */
  lemma ReadableHeard(limit: nat, fs: seq<ClientFrame>) returns (chunks: seq<seq<Byte>>)
    requires limit < 126 * 65536 && AllWellFormed(fs) && AllReadable(limit, fs)
    ensures Hears(limit, fs, chunks)
    ensures (forall i :: 0 <= i < |fs| ==> fs[i].Size() <= 2 * READ_SIZE + 1) ==> AsRead(Sizes(chunks))
  {
    hide Feed, Plains, EncodeClients, OnTime, AllReads, AsRead;
    AllReadsOnTime(limit, fs);
    chunks := CutAt(EncodeClients(fs), AllReads(limit, fs));
    CutFits(EncodeClients(fs), AllReads(limit, fs));
    DeliversExactly(limit, fs, chunks);
  }

  /** Some cutting delivers the frames exactly if and only if every one of them is readable. */
  lemma HeardIff(limit: nat, fs: seq<ClientFrame>)
    requires limit < 126 * 65536 && AllWellFormed(fs)
    ensures (exists chunks :: Hears(limit, fs, chunks)) <==> AllReadable(limit, fs)
  {
    hide Feed, Plains, EncodeClients;
    if AllReadable(limit, fs) {
      var chunks := ReadableHeard(limit, fs);
    }
    if chunks :| Hears(limit, fs, chunks) {
      DeliversExactly(limit, fs, chunks);
      OnTimeReadable(limit, fs, 0, Sizes(chunks));
    }
  }

  /** With the read buffer of 1024 bytes the first frame of a connection has two reads, and one byte before them. */
  lemma FirstFrameFits(limit: nat, fs: seq<ClientFrame>, sizes: seq<nat>)
    requires OnTime(limit, fs, 0, sizes) && AsRead(sizes) && fs != []
    ensures fs[0].Size() <= 2 * READ_SIZE + 1
    ensures fs[0].form == MinimalForm(|fs[0].payload|) ==> 1 <= |fs[0].payload| <= 125
  {
    NoticeBound(0, sizes);
    var n := Notice(0, sizes);
    FinishBound(fs[0], n.have, n.later);
  }

  lemma {:induction false} NoticeBound(have: nat, sizes: seq<nat>)
    requires have < 2 && AsRead(sizes)
    ensures var n := Notice(have, sizes); n.At? ==> n.have <= READ_SIZE + 1 && AsRead(n.later)
    decreases |sizes|
  {
    if sizes != [] && have + sizes[0] < 2 {
      NoticeBound(have + sizes[0], sizes[1..]);
    }
  }

  lemma {:induction false} FinishBound(f: ClientFrame, have: nat, sizes: seq<nat>)
    requires have <= READ_SIZE + 1 && AsRead(sizes) && Finish(f, have, sizes).At?
    ensures f.Size() <= 2 * READ_SIZE + 1
    decreases |sizes|
  {
    if have + sizes[0] <= f.HeaderSize() {
      FinishBound(f, have + sizes[0], sizes[1..]);
    }
  }

  /** For one frame this is exact: reads of at most 1024 bytes can deliver it if and only if it is readable and at
      most 2049 bytes long in all. */
  lemma HeardInReadsIff(limit: nat, f: ClientFrame)
    requires limit < 126 * 65536 && f.WellFormed()
    ensures (exists chunks :: AsRead(Sizes(chunks)) && Hears(limit, [f], chunks))
            <==> Readable(limit, f) && f.Size() <= 2 * READ_SIZE + 1
  {
    hide Feed, Plains, EncodeClients, Sizes;
    if Readable(limit, f) && f.Size() <= 2 * READ_SIZE + 1 {
      var chunks := ReadableHeard(limit, [f]);
    }
    if chunks :| AsRead(Sizes(chunks)) && Hears(limit, [f], chunks) {
      DeliversExactly(limit, [f], chunks);
      OnTimeReadable(limit, [f], 0, Sizes(chunks));
      assert Readable(limit, [f][0]);
      FirstFrameFits(limit, [f], Sizes(chunks));
    }
  }

  // ---------- Unmasked frames ----------

  /** A client that does not mask its first frame is never heard. */
  lemma {:induction false} UnmaskedSilent(limit: nat, s: ParseState, buf: seq<Byte>, chunks: seq<seq<Byte>>)
    requires s.Valid(limit) && s.stage == HeaderBasic
    requires var all := buf + Concat(chunks); |all| >= 2 && all[1] < 128
    ensures Feed(limit, s, buf, chunks) == []
    decreases |chunks|
  {
    if chunks != [] {
      var b := buf + chunks[0];
      assert buf + Concat(chunks) == b + Concat(chunks[1..]);
      UnmaskedParse(limit, s, b);
      FeedStep(limit, s, buf, chunks);
      hide TryParse, Feed, Concat;
      UnmaskedSilent(limit, TryParse(limit, s, b, FRESH_FRAME).state, b, chunks[1..]);
    }
  }

  lemma UnmaskedParse(limit: nat, s: ParseState, buf: seq<Byte>)
    requires s.Valid(limit) && s.stage == HeaderBasic && (|buf| >= 2 ==> buf[1] < 128)
    ensures var p := TryParse(limit, s, buf, FRESH_FRAME);
            !p.ok && p.state.Valid(limit) && p.state.stage == HeaderBasic && p.buffer == buf
  {
  }

  /** The contract fails on a two-byte text message that arrives in one piece: nothing is delivered. */
  lemma HelloInOneRead()
    ensures var f := ClientFrame(true, OP_TEXT, Len7, [1, 2, 3, 4], [72, 105]);
            f.WellFormed() && Feed(65536, START, [], [EncodeClient(f)]) == []
  {
    var f := ClientFrame(true, OP_TEXT, Len7, [1, 2, 3, 4], [72, 105]);
    var e := EncodeClient(f);
    FrameParts(f, []);
    assert e + [] == e;
    BasicStep(65536, START, e, f, e);
    hide EncodeClient, TryParse;
    assert [] + e == e;
  }
}
