/** The message ratchet of gateway/src/E2EECrypto.cpp with symbolic cryptography: HMAC is a constructor, and a sealed
    box opens under the key and nonce that sealed it and under no other. */
module Ratchet {
  datatype Option<T> = None | Some(value: T)

  type Nonce = int

  datatype Key = Root(id: int) | Hmac(key: Key, tag: int)

  datatype Box = Box(key: Key, nonce: Nonce, plaintext: string)

  /** A ciphertext as received: a nonce before a sealed box, or `size` bytes that no seal produced. */
  datatype Wire = Packet(nonce: Nonce, box: Box) | Scrap(size: nat)

  const NONCE_BYTES: nat := 12
  const TAG_BYTES: nat := 16
  const MSG_KEY_CONSTANT: int := 1
  const CHAIN_KEY_CONSTANT: int := 2
  const COUNTER: int := 0x1_0000_0000_0000_0000

  function Size(w: Wire): nat {
    match w
    case Packet(_, box) => NONCE_BYTES + |box.plaintext| + TAG_BYTES
    case Scrap(size) => size
  }

  predicate LongEnough(w: Wire) {
    Size(w) >= NONCE_BYTES + TAG_BYTES
  }

  function Open(key: Key, w: Wire): Option<string> {
    match w
    case Packet(nonce, box) => if box.key == key && box.nonce == nonce then Some(box.plaintext) else None
    case Scrap(_) => None
  }

  /** The 64-bit counters wrap around. */
  function Wrap(n: int): int {
    n % COUNTER
  }

  datatype State = Chains(sendChain: Key, recvChain: Key, sendCount: int, recvCount: int, lastNonce: Nonce)

  datatype Op = Send(plaintext: string, nonce: Nonce) | Receive(w: Wire)

  // ---------- The session ----------

  /** One operation on a session, its ciphertext (if it sends) and its plaintext (if it opens something). */
  function Step(s: State, op: Op): (State, Option<Wire>, Option<string>) {
    match op
    case Send(p, n) =>
      (s.(sendChain := Hmac(s.sendChain, CHAIN_KEY_CONSTANT), sendCount := Wrap(s.sendCount + 1), lastNonce := n),
       Some(Packet(n, Box(Hmac(s.sendChain, MSG_KEY_CONSTANT), n, p))), None)
    case Receive(w) =>
      if !LongEnough(w) then (s, None, None) else
      var text := Open(Hmac(s.recvChain, MSG_KEY_CONSTANT), w);
      (s.(recvChain := Hmac(s.recvChain, CHAIN_KEY_CONSTANT),
          recvCount := if text.Some? then Wrap(s.recvCount + 1) else s.recvCount), None, text)
  }

  class Session {
    var sendChain: Key
    var recvChain: Key
    var sendCount: int
    var recvCount: int
    var lastNonce: Nonce

    ghost function State(): State
      reads this
    {
      Chains(sendChain, recvChain, sendCount, recvCount, lastNonce)
    }

    constructor (sendRoot: Key, recvRoot: Key, nonce: Nonce)
      ensures State() == Chains(sendRoot, recvRoot, 0, 0, nonce)
    {
      sendChain, recvChain, sendCount, recvCount, lastNonce := sendRoot, recvRoot, 0, 0, nonce;
    }

    method RatchetStep(chain: Key) returns (next: Key, messageKey: Key)
      ensures messageKey == Hmac(chain, 0x01) && next == Hmac(chain, 0x02)
      ensures next != messageKey && next != chain && messageKey != chain
      ensures !Derives(next, chain) && !Derives(next, messageKey) && !Derives(messageKey, next)
    {
      NotFromItself(chain, CHAIN_KEY_CONSTANT);
      NotFromItself(chain, MSG_KEY_CONSTANT);

      messageKey := Hmac(chain, MSG_KEY_CONSTANT);
      next := Hmac(chain, CHAIN_KEY_CONSTANT);
    }

    /** `nonce` is the random one this call draws. */
    method EncryptMessage(plaintext: string, nonce: Nonce) returns (ciphertext: Wire)
      modifies this
      ensures (State(), Some(ciphertext), None) == Step(old(State()), Send(plaintext, nonce))
      ensures ciphertext == Packet(nonce, Box(Hmac(old(sendChain), 0x01), nonce, plaintext))
      ensures sendChain == Hmac(old(sendChain), 0x02) && recvChain == old(recvChain) && lastNonce == nonce
      ensures sendCount == (old(sendCount) + 1) % 0x1_0000_0000_0000_0000 && recvCount == old(recvCount)
    {
      var next, messageKey := RatchetStep(sendChain);
      sendChain := next;
      ciphertext := Packet(nonce, Box(messageKey, nonce, plaintext));
      sendCount := Wrap(sendCount + 1);
      lastNonce := nonce;
    }

    /** The chain moves before the seal is checked, so also when the check fails; the count moves only afterwards. */
    method DecryptMessage(ciphertext: Wire) returns (plaintext: Option<string>)
      modifies this
      ensures (State(), None, plaintext) == Step(old(State()), Receive(ciphertext))
      ensures Size(ciphertext) < 28 ==> plaintext == None && State() == old(State())
      ensures Size(ciphertext) >= 28 ==> recvChain == Hmac(old(recvChain), 0x02)
      ensures recvCount == if plaintext.Some? then (old(recvCount) + 1) % 0x1_0000_0000_0000_0000 else old(recvCount)
      ensures plaintext.Some? ==> ciphertext.Packet? && ciphertext.box.key == Hmac(old(recvChain), 0x01)
      ensures sendChain == old(sendChain) && sendCount == old(sendCount) && lastNonce == old(lastNonce)
    {
      if Size(ciphertext) < NONCE_BYTES + TAG_BYTES { return None; }
      var next, messageKey := RatchetStep(recvChain);
      recvChain := next;
      plaintext := Open(messageKey, ciphertext);
      if plaintext == None { return; }
      recvCount := Wrap(recvCount + 1);
    }
  }

  // ---------- The key chain ----------

  function Chain(root: Key, n: nat): Key {
    if n == 0 then root else Hmac(Chain(root, n - 1), CHAIN_KEY_CONSTANT)
  }

  function MessageKey(root: Key, n: nat): Key {
    Hmac(Chain(root, n), MSG_KEY_CONSTANT)
  }

  function Height(k: Key): nat {
    match k case Root(_) => 0 case Hmac(inner, _) => 1 + Height(inner)
  }

  lemma {:induction false} ChainHeight(root: Key, n: nat)
    ensures Height(Chain(root, n)) == Height(root) + n
  {
    if n > 0 {
      ChainHeight(root, n - 1);
    }
  }

  /** No key comes twice along a chain, and no message key is ever a chain key. */
  lemma KeysAreFresh(root: Key, i: nat, j: nat)
    ensures Chain(root, i) == Chain(root, j) <==> i == j
    ensures MessageKey(root, i) == MessageKey(root, j) <==> i == j
    ensures MessageKey(root, i) != Chain(root, j)
  {
    ChainHeight(root, i);
    ChainHeight(root, j);
  }

  /** What a holder of `from` can compute: HMAC applies to any key in hand, with any constant, and has no inverse. */
  ghost predicate Derives(from: Key, k: Key) {
    k == from || (k.Hmac? && Derives(from, k.key))
  }

  lemma {:induction false} DerivesHigher(from: Key, k: Key)
    requires Derives(from, k)
    ensures k == from || Height(k) > Height(from)
  {
    if k != from {
      DerivesHigher(from, k.key);
    }
  }

  lemma NotFromItself(chain: Key, tag: int)
    ensures chain != Hmac(chain, tag) && !Derives(Hmac(chain, tag), chain)
    ensures forall other :: other != tag ==> !Derives(Hmac(chain, tag), Hmac(chain, other))
  {
    assert Height(Hmac(chain, tag)) == Height(chain) + 1;
    if Derives(Hmac(chain, tag), chain) {
      DerivesHigher(Hmac(chain, tag), chain);
    }
  }

  lemma {:induction false} ChainDerives(root: Key, n: nat, i: nat)
    requires n <= i
    ensures Derives(Chain(root, n), Chain(root, i))
  {
    if n < i {
      ChainDerives(root, n, i - 1);
    }
  }

  /** Forward secrecy: from the chain key of position n, exactly the message keys from position n on can be computed. */
  lemma ForwardSecrecy(root: Key, n: nat, i: nat)
    ensures Derives(Chain(root, n), MessageKey(root, i)) <==> i >= n
  {
    if i >= n {
      ChainDerives(root, n, i);
    } else {
      ChainHeight(root, n);
      ChainHeight(root, i);
      KeysAreFresh(root, i, n);
      if Derives(Chain(root, n), MessageKey(root, i)) {
        DerivesHigher(Chain(root, n), MessageKey(root, i));
      }
    }
  }

  // ---------- Runs: sends and receives in any order ----------

  ghost function After(s: State, ops: seq<Op>): State {
    if ops == [] then s else Step(After(s, ops[..|ops| - 1]), ops[|ops| - 1]).0
  }

  ghost function Sent(s: State, ops: seq<Op>): seq<Wire> {
    if ops == [] then [] else
    var (_, wire, _) := Step(After(s, ops[..|ops| - 1]), ops[|ops| - 1]);
    Sent(s, ops[..|ops| - 1]) + if wire.Some? then [wire.value] else []
  }

  ghost function Opened(s: State, ops: seq<Op>): seq<string> {
    if ops == [] then [] else
    var (_, _, text) := Step(After(s, ops[..|ops| - 1]), ops[|ops| - 1]);
    Opened(s, ops[..|ops| - 1]) + if text.Some? then [text.value] else []
  }

  function Sends(ops: seq<Op>): seq<Op> {
    if ops == [] then [] else
    Sends(ops[..|ops| - 1]) + if ops[|ops| - 1].Send? then [ops[|ops| - 1]] else []
  }

  /** The received ciphertexts that pass the length check. */
  function Attempts(ops: seq<Op>): seq<Wire> {
    if ops == [] then [] else
    var op := ops[|ops| - 1];
    Attempts(ops[..|ops| - 1]) + if op.Receive? && LongEnough(op.w) then [op.w] else []
  }

  /** What `attempts` yield when attempt k is tried with message key k. */
  function Readable(root: Key, attempts: seq<Wire>): seq<string> {
    if attempts == [] then [] else
    var n := |attempts| - 1;
    var text := Open(MessageKey(root, n), attempts[n]);
    Readable(root, attempts[..n]) + if text.Some? then [text.value] else []
  }

  /** The send chain counts sends; the receive chain counts attempts, the failed ones too. */
  lemma {:induction false} WhereTheChainsStand(s: State, ops: seq<Op>)
    ensures var t := After(s, ops);
            && t.sendChain == Chain(s.sendChain, |Sends(ops)|) && t.recvChain == Chain(s.recvChain, |Attempts(ops)|)
    ensures Opened(s, ops) == Readable(s.recvChain, Attempts(ops))
  {
    if ops != [] {
      var before := ops[..|ops| - 1];
      WhereTheChainsStand(s, before);
      var attempts := Attempts(ops);
      hide Open, Wrap;
      if attempts != Attempts(before) {
        assert attempts[..|attempts| - 1] == Attempts(before);
      }
    }
  }

  /** The counters count the messages sent and, unlike the receive chain, only the messages opened. */
  lemma {:induction false} WhereTheCountersStand(s: State, ops: seq<Op>)
    requires s.sendCount == s.recvCount == 0
    ensures After(s, ops).sendCount == Wrap(|Sends(ops)|) && After(s, ops).recvCount == Wrap(|Opened(s, ops)|)
  {
    if ops != [] {
      WhereTheCountersStand(s, ops[..|ops| - 1]);
      WrapStep(|Sends(ops[..|ops| - 1])|);
      WrapStep(|Opened(s, ops[..|ops| - 1])|);
      hide Wrap, Open;
    }
  }

  lemma WrapStep(n: nat)
    ensures Wrap(Wrap(n) + 1) == Wrap(n + 1)
  {
  }

  lemma {:induction false} SentWires(s: State, ops: seq<Op>, j: nat)
    requires j < |Sends(ops)|
    ensures |Sent(s, ops)| == |Sends(ops)| && Sends(ops)[j].Send?
    ensures var op := Sends(ops)[j];
            Sent(s, ops)[j] == Packet(op.nonce, Box(MessageKey(s.sendChain, j), op.nonce, op.plaintext))
  {
    var before := ops[..|ops| - 1];
    WhereTheChainsStand(s, before);
    if |Sends(before)| == 0 {
      NothingSent(s, before);
    } else {
      SentWires(s, before, if j < |Sends(before)| then j else 0);
    }
  }

  lemma {:induction false} NothingSent(s: State, ops: seq<Op>)
    ensures Sends(ops) == [] ==> Sent(s, ops) == []
  {
    if ops != [] {
      NothingSent(s, ops[..|ops| - 1]);
    }
  }

  /** Fewer than 28 bytes, a nonce and a tag, are not an attempt; from 28 on they are. */
  lemma AttemptsFrom28(ops: seq<Op>, w: Wire)
    ensures Attempts(ops + [Receive(w)]) == Attempts(ops) + if Size(w) >= 28 then [w] else []
    ensures forall s :: Size(w) < 28 ==> Step(s, Receive(w)) == (s, None, None)
  {
    assert (ops + [Receive(w)])[..|ops|] == ops;
  }

  // ---------- Alignment ----------

  /** The receiver tries the j-th sent message as its k-th attempt: it opens if and only if j == k. */
  lemma Alignment(a: State, sending: seq<Op>, b: State, receiving: seq<Op>, j: nat)
    requires a.sendChain == b.recvChain && j < |Sends(sending)|
    ensures Sends(sending)[j].Send? && j < |Sent(a, sending)| && LongEnough(Sent(a, sending)[j])
    ensures Step(After(b, receiving), Receive(Sent(a, sending)[j])).2 ==
            if |Attempts(receiving)| == j then Some(Sends(sending)[j].plaintext) else None
  {
    SentWires(a, sending, j);
    WhereTheChainsStand(b, receiving);
    KeysAreFresh(b.recvChain, |Attempts(receiving)|, j);
  }

  /** `sent` are the sender's ciphertexts, message k under key k. */
  ghost predicate FromChain(root: Key, sent: seq<Wire>) {
    forall k :: 0 <= k < |sent| ==>
      sent[k].Packet? && sent[k].box.key == MessageKey(root, k) && sent[k].box.nonce == sent[k].nonce
  }

  /** The network may alter, drop, repeat, reorder and invent, but cannot seal under the sender's message keys. */
  ghost predicate Unforged(root: Key, sent: seq<Wire>, attempts: seq<Wire>) {
    forall i, k: nat :: 0 <= i < |attempts| && attempts[i].Packet? && attempts[i].box.key == MessageKey(root, k) ==>
      k < |sent| && sent[k].Packet? && attempts[i].box == sent[k].box
  }

  function Texts(sent: seq<Wire>): seq<string>
    requires forall k :: 0 <= k < |sent| ==> sent[k].Packet?
  {
    seq(|sent|, k requires 0 <= k < |sent| => sent[k].box.plaintext)
  }

  /** Whatever the network does, attempt k opens exactly when it is the k-th sent message, unaltered. */
  lemma OpensExactly(root: Key, sent: seq<Wire>, attempts: seq<Wire>, k: nat)
    requires FromChain(root, sent) && Unforged(root, sent, attempts) && k < |attempts|
    ensures Open(MessageKey(root, k), attempts[k]).Some? <==> k < |sent| && attempts[k] == sent[k]
  {
  }

  /** Places n to m of the attempts open nothing. */
  ghost predicate Mute(root: Key, attempts: seq<Wire>, n: nat, m: nat) {
    forall k :: n <= k < m && k < |attempts| ==> Open(MessageKey(root, k), attempts[k]) == None
  }

  lemma {:induction false} ReadableMute(root: Key, attempts: seq<Wire>, n: nat, m: nat)
    requires n <= m <= |attempts| && Mute(root, attempts, n, m)
    ensures Readable(root, attempts[..m]) == Readable(root, attempts[..n])
  {
    if n < m {
      assert attempts[..m][..m - 1] == attempts[..m - 1];
      assert Open(MessageKey(root, m - 1), attempts[m - 1]) == None;
      hide Open;
      ReadableMute(root, attempts, n, m - 1);
    }
  }

  ghost predicate Same(attempts: seq<Wire>, sent: seq<Wire>, n: nat, m: nat) {
    forall k :: n <= k < m && k < |attempts| && k < |sent| ==> attempts[k] == sent[k]
  }

  lemma {:induction false} ReadableInOrder(root: Key, sent: seq<Wire>, attempts: seq<Wire>, n: nat, m: nat)
    requires FromChain(root, sent) && n <= m <= |sent| && m <= |attempts| && Same(attempts, sent, n, m)
    ensures Readable(root, attempts[..m]) == Readable(root, attempts[..n]) + Texts(sent[n..m])
  {
    if n < m {
      ReadableInOrder(root, sent, attempts, n, m - 1);
      assert Open(MessageKey(root, m - 1), attempts[m - 1]) == Some(sent[m - 1].box.plaintext);
      assert attempts[..m][..m - 1] == attempts[..m - 1] && attempts[..m][m - 1] == attempts[m - 1];
      TextsNext(sent, n, m);
      hide Open, FromChain, Same, Texts;
    }
  }

  lemma TextsNext(sent: seq<Wire>, n: nat, m: nat)
    requires n < m <= |sent| && forall k :: 0 <= k < |sent| ==> sent[k].Packet?
    ensures Texts(sent[n..m]) == Texts(sent[n..m - 1]) + [sent[m - 1].box.plaintext]
  {
  }

  /** Where the stream goes on in order, `shift` places off, it opens again if and only if it is not off at all, that
      is, if the fault before it used up as many attempts as messages. */
  lemma RecoversIff(root: Key, sent: seq<Wire>, attempts: seq<Wire>, k: nat, shift: int)
    requires FromChain(root, sent) && Unforged(root, sent, attempts) && k < |attempts|
    requires 0 <= k + shift < |sent| && attempts[k] == sent[k + shift]
    ensures Open(MessageKey(root, k), attempts[k]).Some? <==> shift == 0
  {
    OpensExactly(root, sent, attempts, k);
    KeysAreFresh(root, k, k + shift);
  }

  /** From attempt n up to m none is the message that belongs there. */
  ghost predicate Faulty(attempts: seq<Wire>, sent: seq<Wire>, n: nat, m: nat) {
    forall k :: n <= k < m && k < |attempts| && k < |sent| ==> attempts[k] != sent[k]
  }

  /** From attempt n on the stream goes on in order, `shift` places off. */
  ghost predicate GoesOn(attempts: seq<Wire>, sent: seq<Wire>, n: nat, shift: int) {
    forall k {:trigger attempts[k]} :: n <= k < |attempts| ==> 0 <= k + shift < |sent| && attempts[k] == sent[k + shift]
  }

  lemma NothingOpens(root: Key, sent: seq<Wire>, attempts: seq<Wire>, n: nat, resume: nat, shift: int)
    requires FromChain(root, sent) && Unforged(root, sent, attempts) && resume <= |attempts|
    requires Faulty(attempts, sent, n, resume) && GoesOn(attempts, sent, resume, shift)
    ensures Mute(root, attempts, n, if shift == 0 then resume else |attempts|)
  {
    hide FromChain, Unforged, Open;
    forall k: nat | n <= k < |attempts| && (shift != 0 || k < resume)
      ensures Open(MessageKey(root, k), attempts[k]) == None
    {
      OpensExactly(root, sent, attempts, k);
      if k >= resume {
        RecoversIff(root, sent, attempts, k, shift);
      }
    }
  }

  /** The n first messages in order, one fault, and the rest of the stream in order, `shift` places off. With a shift
      (a forgery or repeat put in, a message lost) nothing opens any more; without one only the fault is missing. */
  lemma AfterOneFault(root: Key, sent: seq<Wire>, attempts: seq<Wire>, n: nat, resume: nat, shift: int)
    requires FromChain(root, sent) && Unforged(root, sent, attempts)
    requires n <= |sent| && n <= resume <= |attempts| && Same(attempts, sent, 0, n)
    requires Faulty(attempts, sent, n, resume) && GoesOn(attempts, sent, resume, shift)
    ensures shift != 0 ==> Readable(root, attempts) == Texts(sent[..n])
    ensures shift == 0 && resume < |attempts| ==>
              |attempts| <= |sent| && Readable(root, attempts) == Texts(sent[..n]) + Texts(sent[resume..|attempts|])
  {
    hide Open, Unforged, Readable, Texts;
    NothingOpens(root, sent, attempts, n, resume, shift);
    OpenedUpTo(root, sent, attempts, n, if shift == 0 then resume else |attempts|);
    assert attempts[..|attempts|] == attempts;
    if shift == 0 && resume < |attempts| {
      var last := attempts[|attempts| - 1];
      assert Same(attempts, sent, resume, |attempts|);
      hide GoesOn, Faulty, Same;
      ReadableInOrder(root, sent, attempts, resume, |attempts|);
    }
  }

  lemma OpenedUpTo(root: Key, sent: seq<Wire>, attempts: seq<Wire>, n: nat, upto: nat)
    requires FromChain(root, sent) && n <= |sent| && n <= upto <= |attempts|
    requires Same(attempts, sent, 0, n) && Mute(root, attempts, n, upto)
    ensures Readable(root, attempts[..upto]) == Texts(sent[..n])
  {
    ReadableMute(root, attempts, n, upto);
    ReadableInOrder(root, sent, attempts, 0, n);
    assert sent[0..n] == sent[..n] && attempts[..0] == [];
    hide Same, Mute, FromChain, Open;
  }

  /** A message altered in its own place costs that message and no other. */
  lemma AlteredInPlace(root: Key, sent: seq<Wire>, n: nat, w: Wire, k: nat)
    requires FromChain(root, sent) && n < |sent| && k < |sent| && w != sent[n] && Unforged(root, sent, sent[n := w])
    ensures Open(MessageKey(root, k), sent[n := w][k]).Some? <==> k != n
    ensures Readable(root, sent[n := w]) == Texts(sent[..n]) + Texts(sent[n + 1..])
  {
    var attempts := sent[n := w];
    OpensExactly(root, sent, attempts, k);
    hide Open, Unforged, FromChain, Readable, Texts;
    if n + 1 < |sent| {
      AfterOneFault(root, sent, attempts, n, n + 1, 0);
      assert sent[n + 1..|attempts|] == sent[n + 1..];
    } else {
      AfterOneFault(root, sent, attempts, n, n + 1, 1);
      NoTexts(sent[n + 1..]);
    }
  }

  lemma NoTexts(sent: seq<Wire>)
    requires sent == []
    ensures Texts(sent) == []
  {
  }

  /** Every attempt opens exactly when the attempts are the sent stream, in order and without a gap. */
  lemma {:induction false} AllOpenIff(root: Key, sent: seq<Wire>, attempts: seq<Wire>)
    requires FromChain(root, sent) && Unforged(root, sent, attempts)
    ensures |Readable(root, attempts)| <= |attempts|
    ensures |Readable(root, attempts)| == |attempts| <==> |attempts| <= |sent| && attempts == sent[..|attempts|]
  {
    if attempts != [] {
      var n := |attempts| - 1;
      assert Unforged(root, sent, attempts[..n]);
      AllOpenIff(root, sent, attempts[..n]);
      OpensExactly(root, sent, attempts, n);
      if n < |sent| {
        assert sent[..n + 1] == sent[..n] + [sent[n]];
        assert attempts == attempts[..n] + [attempts[n]];
      }
    }
  }
}
