/** Reading from a plain TCP client, `handleTcpRead` of gateway/src/EpollServer.cpp: detection of a metrics request or a
    WebSocket upgrade, splitting into lines, and the overflow check. */
module TcpLines {
  const LIMIT: nat := 65536
  const METRICS: string := "GET /metrics"
  const UPGRADE: string := "Upgrade: websocket"
  const HEADER_END: string := "\r\n\r\n"

  // ---------- Newline splitting ----------

  predicate Unbroken(s: string) {
    forall i :: 0 <= i < |s| ==> s[i] != '\n'
  }

  /** The bytes after the last newline. */
  function Tail(s: string): (t: string)
    ensures Unbroken(t) && |t| <= |s|
  {
    if s == "" || s[|s| - 1] == '\n' then "" else Tail(s[..|s| - 1]) + [s[|s| - 1]]
  }

  /** The lines that a newline ends. */
  function Lines(s: string): seq<string> {
    if s == "" then [] else
    Lines(s[..|s| - 1]) + if s[|s| - 1] == '\n' then [Tail(s[..|s| - 1])] else []
  }

  function Join(lines: seq<string>): string {
    if lines == [] then "" else Join(lines[..|lines| - 1]) + lines[|lines| - 1] + "\n"
  }

  ghost predicate NoNewlines(lines: seq<string>) {
    forall i :: 0 <= i < |lines| ==> Unbroken(lines[i])
  }

  lemma OneByteMore(s: string, c: char)
    ensures Lines(s + [c]) == if c == '\n' then Lines(s) + [Tail(s)] else Lines(s)
    ensures Tail(s + [c]) == if c == '\n' then "" else Tail(s) + [c]
  {
    assert (s + [c])[..|s|] == s;
  }

  lemma OneLineMore(lines: seq<string>, line: string)
    ensures Join(lines + [line]) == Join(lines) + line + "\n"
  {
    assert (lines + [line])[..|lines|] == lines;
  }

  /** Lines and tail rebuild the text. */
  lemma {:induction false} Rebuild(s: string)
    ensures Join(Lines(s)) + Tail(s) == s && NoNewlines(Lines(s))
  {
    if s != "" {
      var most, c := s[..|s| - 1], s[|s| - 1];
      assert s == most + [c];
      Rebuild(most);
      OneByteMore(most, c);
      OneLineMore(Lines(most), Tail(most));
      hide Lines, Join;
    }
  }

  lemma AppendOne<T>(a: seq<T>, b: seq<T>, x: T)
    ensures a + (b + [x]) == (a + b) + [x]
  {
  }

  lemma {:induction false} SplitAppend(a: string, b: string)
    ensures Lines(a + b) == Lines(a) + Lines(Tail(a) + b) && Tail(a + b) == Tail(Tail(a) + b)
  {
    hide Lines, Tail;
    if b == "" {
      assert a + b == a && Tail(a) + b == Tail(a);
      TailAlone(Tail(a));
    } else {
      var most, c := b[..|b| - 1], b[|b| - 1];
      SplitAppend(a, most);
      OneByteMore(a + most, c);
      OneByteMore(Tail(a) + most, c);
      AppendOne(a, most, c);
      AppendOne(Tail(a), most, c);
      assert b == most + [c];
      AppendOne(Lines(a), Lines(Tail(a) + most), Tail(a + most));
    }
  }

  lemma {:induction false} TailAlone(t: string)
    requires Unbroken(t)
    ensures Lines(t) == [] && Tail(t) == t
  {
    if t != "" {
      TailAlone(t[..|t| - 1]);
    }
  }

  /** The split is the only way to write a text as ended lines and an unended rest. */
  lemma {:induction false} OnlySplit(lines: seq<string>, t: string)
    requires NoNewlines(lines) && Unbroken(t)
    ensures Lines(Join(lines) + t) == lines && Tail(Join(lines) + t) == t
  {
    hide Lines, Tail, Unbroken;
    TailAlone(t);
    if lines == [] {
      assert Join(lines) + t == t;
    } else {
      var most, last := lines[..|lines| - 1], lines[|lines| - 1];
      assert Join(lines) == Join(most) + last + ['\n'] && lines == most + [last];
      hide Join;
      OnlySplit(most, last);
      OneByteMore(Join(most) + last, '\n');
      SplitAppend(Join(most) + last + ['\n'], t);
      NothingBefore(t);
    }
  }

  lemma EndedLine(line: string)
    requires Unbroken(line)
    ensures Lines(line + ['\n']) == [line] && Tail(line + ['\n']) == ""
  {
    hide Lines, Tail;
    TailAlone(line);
    OneByteMore(line, '\n');
  }

  lemma FirstLine(line: string, rest: string)
    requires Unbroken(line)
    ensures Lines(line + ['\n'] + rest) == [line] + Lines(rest) && Tail(line + ['\n'] + rest) == Tail(rest)
  {
    hide Lines, Tail;
    EndedLine(line);
    SplitAppend(line + ['\n'], rest);
    NothingBefore(rest);
  }

  lemma NothingBefore(s: string)
    ensures "" + s == s
  {
  }

  // ---------- One connection ----------

  ghost predicate At(s: string, p: string, i: int) {
    0 <= i <= |s| && p <= s[i..]
  }

  ghost predicate Contains(s: string, p: string) {
    exists i :: At(s, p, i)
  }

  /** The first occurrence, or -1. */
  function Find(s: string, p: string): (i: int)
    ensures i == -1 ==> !Contains(s, p)
    ensures i != -1 ==> At(s, p, i) && forall j :: At(s, p, j) ==> i <= j
  {
    if p <= s then 0 else
    if s == "" then -1 else
    FindShift(s, p);
    var i := Find(s[1..], p);
    if i == -1 then -1 else i + 1
  }

  lemma FoundIff(s: string, p: string)
    ensures Contains(s, p) <==> Find(s, p) != -1
    ensures Contains(s, p) ==> 0 <= Find(s, p) <= |s| - |p|
  {
  }

  lemma FindShift(s: string, p: string)
    requires s != "" && !(p <= s)
    ensures forall i {:trigger At(s, p, i)} :: At(s, p, i) <==> At(s[1..], p, i - 1)
  {
    assert s[0..] == s;
    forall i: int {:trigger At(s, p, i)} | 0 < i <= |s| ensures s[i..] == s[1..][i - 1..] {
    }
  }

  /** The first newline, or -1. */
  function FindNewline(s: string): (i: int)
    ensures i == -1 <==> Unbroken(s)
    ensures i != -1 ==> 0 <= i < |s| && s[i] == '\n' && Unbroken(s[..i])
  {
    if s == "" then -1 else
    if s[0] == '\n' then 0 else
    var i := FindNewline(s[1..]);
    assert forall k :: 0 < k < |s| ==> s[k] == s[1..][k - 1];
    if i == -1 then -1 else i + 1
  }

  datatype Phase = Open | Closed | WebSocket

  /** `raw` is what an upgrade passes on to the WebSocket reader; `responses` counts the metrics pages written. */
  datatype Conn = Conn(buffer: string, phase: Phase, handled: seq<string>, raw: string, responses: nat)

  /** One successful read, and whether an upgrade attempted on it would succeed. */
  datatype Piece = Piece(data: string, upgrades: bool)

  datatype Ending = WouldBlock | Eof | Failed

  ghost function SplitOff(c: Conn, b: string): Conn {
    c.(buffer := Tail(b), handled := c.handled + Lines(b), phase := if |Tail(b)| > LIMIT then Closed else Open)
  }

  ghost function Take(c: Conn, p: Piece): Conn {
    var b := c.buffer + p.data;
    if c.phase != Open then c
    else if Contains(b, METRICS) && Contains(b, HEADER_END) then
      c.(buffer := "", phase := Closed, responses := c.responses + 1)
    else if Contains(b, UPGRADE) && Contains(b, HEADER_END) then
      var rest := b[Find(b, HEADER_END) + |HEADER_END|..];
      if p.upgrades then c.(buffer := "", phase := WebSocket, raw := rest) else SplitOff(c, rest)
    else SplitOff(c, b)
  }

  ghost function Feed(c: Conn, pieces: seq<Piece>): Conn {
    if pieces == [] then c else Take(Feed(c, pieces[..|pieces| - 1]), pieces[|pieces| - 1])
  }

  class TcpConnection {
    var readBuffer: string
    var phase: Phase
    var raw: string
    var responses: nat
    ghost var handled: seq<string>    // the lines given to handleMessage

    ghost function State(): Conn
      reads this
    {
      Conn(readBuffer, phase, handled, raw, responses)
    }

    constructor ()
      ensures State() == Conn("", Open, [], "", 0)
    {
      readBuffer, phase, raw, responses, handled := "", Open, "", 0, [];
    }

    method SplitLines()
      modifies `readBuffer, `handled
      ensures readBuffer == Tail(old(readBuffer)) && handled == old(handled) + Lines(old(readBuffer))
    {
      while true
        invariant handled + Lines(readBuffer) == old(handled) + Lines(old(readBuffer))
        invariant Tail(readBuffer) == Tail(old(readBuffer))
        decreases |readBuffer|
      {
        var pos := FindNewline(readBuffer);
        if pos == -1 { break; }
        assert readBuffer == readBuffer[..pos] + ['\n'] + readBuffer[pos + 1..];
        FirstLine(readBuffer[..pos], readBuffer[pos + 1..]);
        handled := handled + [readBuffer[..pos]];
        readBuffer := readBuffer[pos + 1..];
      }
      TailAlone(readBuffer);
    }

    method TakePiece(p: Piece)
      requires phase == Open
      modifies this
      ensures State() == Take(old(State()), p)
    {
      hide Contains, Find, Lines, Tail, At;
      readBuffer := readBuffer + p.data;
      var headerEnd := Find(readBuffer, HEADER_END);
      var metrics, upgrade := Find(readBuffer, METRICS), Find(readBuffer, UPGRADE);
      FoundIff(readBuffer, HEADER_END);
      FoundIff(readBuffer, METRICS);
      FoundIff(readBuffer, UPGRADE);
      if metrics != -1 && headerEnd != -1 {
        responses := responses + 1;
        readBuffer := "";
        phase := Closed;
        return;
      }
      if upgrade != -1 && headerEnd != -1 {
        readBuffer := readBuffer[headerEnd + |HEADER_END|..];
        if p.upgrades {
          phase, raw, readBuffer := WebSocket, readBuffer, "";
          return;
        }
      }
      SplitLines();
      if |readBuffer| > LIMIT {
        phase := Closed;
      }
    }

    /** The reads of one readable event: `pieces` until the kernel has no more, the peer is gone or an error comes; a
        connection that is closed or upgraded on the way reads no further. */
    method HandleTcpRead(pieces: seq<Piece>, ending: Ending)
      requires phase == Open
      modifies this
      ensures var c := Feed(old(State()), pieces);
              State() == if c.phase == Open && ending != WouldBlock then c.(phase := Closed) else c
    {
      ghost var start := State();
      var i := 0;
      while i < |pieces|
        invariant i <= |pieces| && phase == Open && State() == Feed(start, pieces[..i])
      {
        TakePiece(pieces[i]);
        assert pieces[..i + 1][..i] == pieces[..i];
        i := i + 1;
        if phase != Open {
          FeedStops(start, pieces, i);
          return;
        }
      }
      assert pieces[..i] == pieces;
      if ending != WouldBlock {
        phase := Closed;
      }
    }
  }

  lemma {:induction false} FeedStops(c: Conn, pieces: seq<Piece>, i: nat)
    requires i <= |pieces| && Feed(c, pieces[..i]).phase != Open
    ensures Feed(c, pieces) == Feed(c, pieces[..i])
  {
    if i < |pieces| {
      var n := |pieces| - 1;
      assert pieces[..n][..i] == pieces[..i];
      FeedStops(c, pieces[..n], i);
    } else {
      assert pieces[..i] == pieces;
    }
  }

  // ---------- Metrics and upgrades ----------

  /** `request` is what precedes `rest` up to and with the first end of an HTTP header. */
  ghost predicate IsRequest(request: string, rest: string) {
    && |request| >= 4 && At(request + rest, "\r\n\r\n", |request| - 4)
    && forall j :: At(request + rest, "\r\n\r\n", j) ==> |request| - 4 <= j
  }

  lemma RequestFound(request: string, rest: string)
    requires IsRequest(request, rest)
    ensures Contains(request + rest, HEADER_END) && Find(request + rest, HEADER_END) + |HEADER_END| == |request|
    ensures (request + rest)[|request|..] == rest
  {
    FoundIff(request + rest, HEADER_END);
    assert At(request + rest, HEADER_END, Find(request + rest, HEADER_END));
  }

  /** An upgrade that works hands on exactly the bytes behind the request, and handles no line. */
  lemma UpgradeHandsOn(c: Conn, data: string, request: string, rest: string)
    requires c.phase == Open && c.buffer + data == request + rest && IsRequest(request, rest)
    requires Contains(request + rest, "Upgrade: websocket") && !Contains(request + rest, "GET /metrics")
    ensures Take(c, Piece(data, true)) == Conn("", WebSocket, c.handled, rest, c.responses)
  {
    RequestFound(request, rest);
    hide Contains, Find, IsRequest;
  }

  /** One that fails drops the request, and the bytes behind it are split into lines. */
  lemma FailedUpgradeSplits(c: Conn, data: string, request: string, rest: string)
    requires c.phase == Open && c.buffer + data == request + rest && IsRequest(request, rest)
    requires Contains(request + rest, "Upgrade: websocket") && !Contains(request + rest, "GET /metrics")
    ensures var t := Take(c, Piece(data, false));
            && t.handled == c.handled + Lines(rest) && t.buffer == Tail(rest) && t.raw == c.raw
            && t.responses == c.responses && (t.phase == Open <==> |Tail(rest)| <= 65536) && t.phase != WebSocket
  {
    RequestFound(request, rest);
    hide Contains, Find, IsRequest, Lines, Tail;
  }

  /** A metrics request is answered once and the connection closed, whatever else is in the buffer. */
  lemma MetricsAnswered(c: Conn, p: Piece)
    requires c.phase == Open
    ensures var b, t := c.buffer + p.data, Take(c, p);
            if Contains(b, "GET /metrics") && Contains(b, "\r\n\r\n") then
              t == Conn("", Closed, c.handled, c.raw, c.responses + 1)
            else t.responses == c.responses
  {
    hide Contains, Find, Lines, Tail;
  }

  // ---------- Every byte of every stream ----------

  /** What became of a piece of the stream: a handled line, or the header of an upgrade request. */
  datatype Part = Line(text: string) | Request(text: string)

  function Flat(log: seq<Part>): string {
    if log == [] then "" else
    Flat(log[..|log| - 1]) + match log[|log| - 1] case Line(text) => text + "\n" case Request(text) => text
  }

  function LinesOf(log: seq<Part>): seq<string> {
    if log == [] then [] else
    LinesOf(log[..|log| - 1]) + match log[|log| - 1] case Line(text) => [text] case Request(_) => []
  }

  ghost predicate RequestsEnd(log: seq<Part>) {
    forall i :: 0 <= i < |log| && log[i].Request? ==> At(log[i].text, "\r\n\r\n", |log[i].text| - 4)
  }

  function LineParts(lines: seq<string>): seq<Part> {
    if lines == [] then [] else LineParts(lines[..|lines| - 1]) + [Line(lines[|lines| - 1])]
  }

  lemma {:induction false} LinePartsFlat(lines: seq<string>)
    ensures Flat(LineParts(lines)) == Join(lines) && LinesOf(LineParts(lines)) == lines && RequestsEnd(LineParts(lines))
    ensures forall i :: 0 <= i < |LineParts(lines)| ==> LineParts(lines)[i].Line?
  {
    if lines != [] {
      var most, last := lines[..|lines| - 1], lines[|lines| - 1];
      LinePartsFlat(most);
      var log := LineParts(most) + [Line(last)];
      assert LineParts(lines) == log && Join(lines) == Join(most) + last + "\n";
      hide LineParts, Join;
      assert log[..|log| - 1] == LineParts(most);
      FlatNext(log);
      hide Flat, LinesOf;
      assert most + [last] == lines;
      assert Join(most) + (last + "\n") == Join(most) + last + "\n";
    }
  }

  lemma {:induction false} LogAppend(a: seq<Part>, b: seq<Part>)
    ensures Flat(a + b) == Flat(a) + Flat(b) && LinesOf(a + b) == LinesOf(a) + LinesOf(b)
    decreases |b|
  {
    if b == [] {
      assert a + b == a && Flat(a) + "" == Flat(a) && LinesOf(a) + [] == LinesOf(a);
    } else {
      var most, last := b[..|b| - 1], b[|b| - 1];
      assert (a + b)[..|a + b| - 1] == a + most;
      LogAppend(a, most);
      hide Flat, LinesOf;
      FlatNext(a + b);
      FlatNext(b);
    }
  }

  lemma FlatNext(log: seq<Part>)
    requires log != []
    ensures var most, last := log[..|log| - 1], log[|log| - 1];
            && Flat(log) == Flat(most) + (match last case Line(text) => text + "\n" case Request(text) => text)
            && LinesOf(log) == LinesOf(most) + (match last case Line(text) => [text] case Request(_) => [])
  {
  }

  lemma RequestFlat(text: string)
    ensures Flat([Request(text)]) == text && LinesOf([Request(text)]) == []
  {
    FlatNext([Request(text)]);
    assert [Request(text)][..0] == [] && "" + text == text;
  }

  /** `log` accounts for every byte of `text` that `t` does not still hold, and for the lines handled since `handled`;
      the last thing before an upgrade is its request. */
  ghost predicate Accounts(log: seq<Part>, text: string, handled: seq<string>, t: Conn) {
    && text == Flat(log) + t.buffer + t.raw && t.handled == handled + LinesOf(log) && RequestsEnd(log)
    && (t.phase == WebSocket ==> log != [] && log[|log| - 1].Request?) && (t.phase != WebSocket ==> t.raw == "")
  }

  lemma SplitAccounts(c: Conn, b: string)
    requires c.raw == ""
    ensures Accounts(LineParts(Lines(b)), b, c.handled, SplitOff(c, b))
  {
    LinePartsFlat(Lines(b));
    Rebuild(b);
    hide Flat, LinesOf, Lines, Tail, Join, LineParts, RequestsEnd;
    NothingBehind(b);
  }

  lemma NothingBehind<T>(s: seq<T>)
    ensures s + [] == s
  {
  }

  lemma RequestAccounts(c: Conn, request: string, rest: string)
    requires At(request, "\r\n\r\n", |request| - 4)
    ensures Accounts([Request(request)], request + rest, c.handled, c.(buffer := "", phase := WebSocket, raw := rest))
  {
    RequestFlat(request);
    hide Flat, LinesOf;
    NothingBehind(c.handled);
    NothingBehind(request);
  }

  lemma AccountsNext(log: seq<Part>, text: string, handled: seq<string>, c: Conn, data: string, parts: seq<Part>,
                     t: Conn)
    requires Accounts(log, text, handled, c) && c.phase != WebSocket && Accounts(parts, c.buffer + data, c.handled, t)
    ensures Accounts(log + parts, text + data, handled, t)
  {
    LogAppend(log, parts);
    hide Flat, LinesOf;
    NothingBehind(Flat(log) + c.buffer);
    var x, y := Flat(log), Flat(parts);
    assert text + data == x + (c.buffer + data);
    assert x + (y + t.buffer + t.raw) == x + y + t.buffer + t.raw;
    assert handled + LinesOf(log) + LinesOf(parts) == handled + (LinesOf(log) + LinesOf(parts));
  }

  lemma FailedAccounts(c: Conn, request: string, rest: string)
    requires At(request, "\r\n\r\n", |request| - 4) && c.raw == ""
    ensures Accounts([Request(request)] + LineParts(Lines(rest)), request + rest, c.handled, SplitOff(c, rest))
  {
    var dropped := c.(buffer := "", phase := Open);
    assert SplitOff(dropped, rest) == SplitOff(c, rest);
    hide SplitOff, Lines, LineParts;
    assert Accounts([Request(request)], request, c.handled, dropped) by {
      RequestFlat(request);
      NothingBehind(c.handled);
      NothingBehind(request);
    }
    SplitAccounts(dropped, rest);
    NothingBefore(rest);
    hide Accounts;
    AccountsNext([Request(request)], request, c.handled, dropped, rest, LineParts(Lines(rest)), SplitOff(c, rest));
  }

  ghost predicate Asks(b: string) {
    Contains(b, UPGRADE) && Contains(b, HEADER_END)
  }

  lemma TakeCases(c: Conn, p: Piece)
    requires c.phase == Open && Take(c, p).responses == c.responses
    ensures var b := c.buffer + p.data;
            if Asks(b) then
              var n := Find(b, HEADER_END) + |HEADER_END|;
              && 4 <= n <= |b| && At(b[..n], "\r\n\r\n", n - 4)
              && Take(c, p) == if p.upgrades then c.(buffer := "", phase := WebSocket, raw := b[n..])
                               else SplitOff(c, b[n..])
            else Take(c, p) == SplitOff(c, b)
  {
    hide Contains, Find, At, SplitOff;
    var b := c.buffer + p.data;
    if Asks(b) {
      RequestEnds(b);
    }
  }

  /** One read that is no metrics request. */
  lemma TakeAccounts(c: Conn, p: Piece) returns (parts: seq<Part>)
    requires c.phase == Open && c.raw == "" && Take(c, p).responses == c.responses
    ensures Accounts(parts, c.buffer + p.data, c.handled, Take(c, p))
  {
    hide Find, Accounts, SplitOff, Take, Asks, Lines, LineParts;
    var b := c.buffer + p.data;
    TakeCases(c, p);
    if Asks(b) {
      var n := Find(b, HEADER_END) + |HEADER_END|;
      assert b == b[..n] + b[n..];
      if p.upgrades {
        parts := [Request(b[..n])];
        RequestAccounts(c, b[..n], b[n..]);
      } else {
        parts := [Request(b[..n])] + LineParts(Lines(b[n..]));
        FailedAccounts(c, b[..n], b[n..]);
      }
    } else {
      parts := LineParts(Lines(b));
      SplitAccounts(c, b);
    }
  }

  lemma CutBehind(b: string, p: string, i: int)
    requires At(b, p, i)
    ensures i + |p| <= |b| && At(b[..i + |p|], p, i)
  {
    assert b[..i + |p|][i..] == b[i..][..|p|];
  }

  lemma RequestEnds(b: string)
    requires Contains(b, HEADER_END)
    ensures var n := Find(b, HEADER_END) + |HEADER_END|; 4 <= n <= |b| && At(b[..n], "\r\n\r\n", n - 4)
  {
    hide At, Contains;
    FoundIff(b, HEADER_END);
    CutBehind(b, HEADER_END, Find(b, HEADER_END));
  }

  // ---------- Every cutting of a stream into reads ----------

  const START: Conn := Conn("", Open, [], "", 0)

  ghost function Stream(pieces: seq<Piece>): string {
    if pieces == [] then "" else Stream(pieces[..|pieces| - 1]) + pieces[|pieces| - 1].data
  }

  /** Nothing that could be taken for an HTTP request. */
  ghost predicate NoMarkers(s: string) {
    !Contains(s, HEADER_END) || (!Contains(s, METRICS) && !Contains(s, UPGRADE))
  }

  lemma ContainsInside(s: string, from: nat, to: nat, p: string)
    requires from <= to <= |s| && Contains(s[from..to], p)
    ensures Contains(s, p)
  {
    var i :| At(s[from..to], p, i);
    assert At(s, p, from + i);
  }

  lemma NoMarkersInside(s: string, from: nat, to: nat)
    requires from <= to <= |s| && NoMarkers(s)
    ensures NoMarkers(s[from..to])
  {
    forall p: string | Contains(s[from..to], p) ensures Contains(s, p) {
      ContainsInside(s, from, to, p);
    }
  }

  /** No unfinished line was over the limit when a read ended. */
  ghost predicate TailsFit(pieces: seq<Piece>, n: nat) {
    forall k :: 0 <= k <= n && k <= |pieces| ==> |Tail(Stream(pieces[..k]))| <= 65536
  }

  lemma StreamStep(pieces: seq<Piece>, k: nat)
    requires k < |pieces|
    ensures Stream(pieces[..k + 1]) == Stream(pieces[..k]) + pieces[k].data
  {
    assert pieces[..k + 1][..k] == pieces[..k];
  }

  lemma FeedStep(pieces: seq<Piece>, k: nat)
    requires k < |pieces|
    ensures Feed(START, pieces[..k + 1]) == Take(Feed(START, pieces[..k]), pieces[k])
  {
    hide Take, START;
    assert pieces[..k + 1][..k] == pieces[..k];
  }

  lemma {:induction false} StreamPrefix(pieces: seq<Piece>, k: nat)
    requires k <= |pieces|
    ensures Stream(pieces[..k]) <= Stream(pieces)
    decreases |pieces| - k
  {
    if k < |pieces| {
      StreamStep(pieces, k);
      StreamPrefix(pieces, k + 1);
    } else {
      assert pieces[..k] == pieces;
    }
  }

  lemma TakeQuiet(c: Conn, p: Piece)
    requires c.phase == Open && NoMarkers(c.buffer + p.data)
    ensures Take(c, p) == SplitOff(c, c.buffer + p.data)
  {
    hide Contains, SplitOff;
  }

  lemma SplitOffAgain(s: string, data: string)
    ensures var c := SplitOff(START, s); SplitOff(c, c.buffer + data) == SplitOff(START, s + data)
  {
    hide Lines, Tail;
    SplitAppend(s, data);
    assert START.handled + Lines(s) + Lines(Tail(s) + data) == START.handled + (Lines(s) + Lines(Tail(s) + data));
  }

  /** The buffer before a split is a piece of the stream. */
  lemma BufferQuiet(s: string, data: string, all: string)
    requires s + data <= all && NoMarkers(all)
    ensures NoMarkers(Tail(s) + data)
  {
    hide NoMarkers, Lines, Tail, Join;
    Rebuild(s);
    var from, to := |Join(Lines(s))|, |s + data|;
    assert s == Join(Lines(s)) + Tail(s);
    assert all[from..to] == (s + data)[from..] == Tail(s) + data;
    NoMarkersInside(all, from, to);
  }

  /** While no tail has overflowed, the reads have the effect of splitting all bytes at once. */
  lemma {:induction false} SplitsAsOne(pieces: seq<Piece>, n: nat)
    requires n <= |pieces| && NoMarkers(Stream(pieces)) && (n == 0 || TailsFit(pieces, n - 1))
    ensures Feed(START, pieces[..n]) == SplitOff(START, Stream(pieces[..n]))
  {
    if n > 0 {
      var k := n - 1;
      assert |Tail(Stream(pieces[..k]))| <= LIMIT;
      assert k == 0 || TailsFit(pieces, k - 1);
      SplitsAsOne(pieces, k);
      hide NoMarkers, TailsFit, Take, Feed, Stream, Tail, Lines;
      StreamStep(pieces, k);
      FeedStep(pieces, k);
      StreamPrefix(pieces, n);
      var s := Stream(pieces[..k]);
      BufferQuiet(s, pieces[k].data, Stream(pieces));
      TakeQuiet(SplitOff(START, s), pieces[k]);
      SplitOffAgain(s, pieces[k].data);
    }
  }

  lemma TailsFitStep(pieces: seq<Piece>, n: nat)
    requires n <= |pieces|
    ensures TailsFit(pieces, n) <==> (n == 0 || TailsFit(pieces, n - 1)) && |Tail(Stream(pieces[..n]))| <= LIMIT
  {
  }

  lemma SplitOffOpen(c: Conn, b: string)
    ensures SplitOff(c, b).phase == Open <==> |Tail(b)| <= LIMIT
  {
  }

  lemma SurvivesSoFar(pieces: seq<Piece>, n: nat)
    requires n <= |pieces| && NoMarkers(Stream(pieces)) && (n == 0 || TailsFit(pieces, n - 1))
    ensures Feed(START, pieces[..n]).phase == Open <==> TailsFit(pieces, n)
    ensures Feed(START, pieces[..n]) == SplitOff(START, Stream(pieces[..n]))
  {
    hide NoMarkers, Feed, Stream, Tail, Lines, TailsFit, START, SplitOff;
    TailsFitStep(pieces, n);
    SplitsAsOne(pieces, n);
    SplitOffOpen(START, Stream(pieces[..n]));
  }

  lemma StaysClosed(pieces: seq<Piece>, k: nat)
    requires k < |pieces| && Feed(START, pieces[..k]).phase != Open
    ensures Feed(START, pieces[..k + 1]) == Feed(START, pieces[..k])
  {
    hide Feed, START, Contains, SplitOff;
    FeedStep(pieces, k);
  }

  /** A connection survives exactly when every tail fitted; a surviving one has handled the newline split of the stream
      and holds the rest, and one that was cut off has handled the split of what it had read. */
  lemma {:induction false} SurvivesExactly(pieces: seq<Piece>, n: nat) returns (m: nat)
    requires n <= |pieces| && NoMarkers(Stream(pieces))
    ensures Feed(START, pieces[..n]).phase == Open <==> TailsFit(pieces, n)
    ensures m <= n && (TailsFit(pieces, n) ==> m == n) &&
            Feed(START, pieces[..n]) == SplitOff(START, Stream(pieces[..m]))
  {
    hide NoMarkers, Feed, Stream, Tail, Lines, Take, TailsFit, START, SplitOff;
    TailsFitStep(pieces, n);
    if n == 0 || TailsFit(pieces, n - 1) {
      m := n;
      SurvivesSoFar(pieces, n);
    } else {
      m := SurvivesExactly(pieces, n - 1);
      StaysClosed(pieces, n - 1);
    }
  }

  /** Every byte read is in a handled line, is the newline that ended one, or is still buffered. */
  lemma NothingDropped(pieces: seq<Piece>)
    requires NoMarkers(Stream(pieces)) && Feed(START, pieces).phase == Open
    ensures var c := Feed(START, pieces);
            Join(c.handled) + c.buffer == Stream(pieces) && NoNewlines(c.handled) && Unbroken(c.buffer)
  {
    assert pieces[..|pieces|] == pieces;
    var _ := SurvivesExactly(pieces, |pieces|);
    hide NoMarkers, Feed, Tail, Lines, Stream, Join;
    SplitsAsOne(pieces, |pieces|);
    Rebuild(Stream(pieces));
    assert START.handled + Lines(Stream(pieces)) == Lines(Stream(pieces));
  }

  /** And for any stream at all, upgrades that work or fail included: as long as no metrics page was asked for, the
      bytes read are, in order, handled lines, request headers, and what is buffered or was handed on. A connection
      that was upgraded had the header of its request just before those. */
  lemma {:induction false} EveryByte(pieces: seq<Piece>, n: nat) returns (m: nat, log: seq<Part>)
    requires n <= |pieces| && Feed(START, pieces[..n]).responses == 0
    ensures m <= n && (Feed(START, pieces[..n]).phase == Open ==> m == n)
    ensures Accounts(log, Stream(pieces[..m]), [], Feed(START, pieces[..n]))
  {
    if n == 0 {
      m, log := 0, [];
      assert Stream(pieces[..0]) == "" && Feed(START, pieces[..0]) == START;
    } else {
      hide Feed, Stream, Take, Accounts, START;
      var c, p := Feed(START, pieces[..n - 1]), pieces[n - 1];
      FeedStep(pieces, n - 1);
      MetricsCount(c, p);
      m, log := EveryByte(pieces, n - 1);
      if c.phase == Open {
        OpenRaw(log, Stream(pieces[..m]), c);
        StreamStep(pieces, n - 1);
        var parts := TakeAccounts(c, p);
        AccountsNext(log, Stream(pieces[..m]), [], c, p.data, parts, Take(c, p));
        m, log := n, log + parts;
      } else {
        StaysClosed(pieces, n - 1);
      }
    }
  }

  lemma OpenRaw(log: seq<Part>, text: string, c: Conn)
    requires Accounts(log, text, [], c) && c.phase == Open
    ensures c.raw == ""
  {
  }

  lemma MetricsCount(c: Conn, p: Piece)
    ensures c.responses <= Take(c, p).responses
  {
    hide Contains, Find, Lines, Tail;
  }

  ghost predicate AllShort(s: string) {
    |Tail(s)| <= 65536 && forall i :: 0 <= i < |Lines(s)| ==> |Lines(s)[i]| <= 65536
  }

  lemma {:induction false} ShortPrefixes(s: string, k: nat)
    requires AllShort(s) && k <= |s|
    ensures |Tail(s[..k])| <= LIMIT
    decreases |s|
  {
    if k < |s| {
      var t := s[..|s| - 1];
      assert t[..k] == s[..k];
      if s[|s| - 1] == '\n' {
        assert Lines(s)[|Lines(t)|] == Tail(t);
      }
      forall i | 0 <= i < |Lines(t)| ensures |Lines(t)[i]| <= LIMIT {
        assert Lines(s)[i] == Lines(t)[i];
      }
      ShortPrefixes(t, k);
    } else {
      assert s[..k] == s;
    }
  }

  /** However a stream of short lines is cut into reads, the lines handled are the same. */
  lemma ChunkIndependent(pieces: seq<Piece>)
    requires NoMarkers(Stream(pieces)) && AllShort(Stream(pieces))
    ensures TailsFit(pieces, |pieces|)
    ensures Feed(START, pieces) == Conn(Tail(Stream(pieces)), Open, Lines(Stream(pieces)), "", 0)
  {
    hide NoMarkers, Feed, Tail, Lines, Stream;
    forall k | 0 <= k <= |pieces| ensures |Tail(Stream(pieces[..k]))| <= LIMIT {
      StreamPrefix(pieces, k);
      ShortPrefixes(Stream(pieces), |Stream(pieces[..k])|);
      assert Stream(pieces)[..|Stream(pieces[..k])|] == Stream(pieces[..k]);
    }
    assert pieces[..|pieces|] == pieces;
    SplitsAsOne(pieces, |pieces|);
  }

  ghost function ByteByByte(s: string): seq<Piece> {
    seq(|s|, i requires 0 <= i < |s| => Piece([s[i]], false))
  }

  lemma {:induction false} ByteStream(s: string, k: nat)
    requires k <= |s|
    ensures Stream(ByteByByte(s)[..k]) == s[..k]
  {
    if k > 0 {
      ByteStream(s, k - 1);
      StreamStep(ByteByByte(s), k - 1);
    }
  }

  lemma {:induction false} LongLine(s: string, i: nat) returns (k: nat)
    requires i < |Lines(s)|
    ensures k < |s| && Tail(s[..k]) == Lines(s)[i] && s[k] == '\n'
  {
    var t := s[..|s| - 1];
    if i < |Lines(t)| {
      k := LongLine(t, i);
      assert t[..k] == s[..k];
    } else {
      k := |s| - 1;
    }
  }

  /** The length limit is exact: a stream is safe from every cutting if and only if all its lines are short. */
  lemma SafeIffShort(s: string)
    requires NoMarkers(s)
    ensures (forall pieces :: Stream(pieces) == s ==> Feed(START, pieces).phase == Open) <==> AllShort(s)
  {
    forall pieces | AllShort(s) && Stream(pieces) == s ensures Feed(START, pieces).phase == Open {
      ChunkIndependent(pieces);
    }
    if !AllShort(s) {
      var pieces := ByteByByte(s);
      assert pieces[..|s|] == pieces && s[..|s|] == s;
      ByteStream(s, |s|);
      var k := |s|;
      if i :| 0 <= i < |Lines(s)| && |Lines(s)[i]| > LIMIT {
        k := LongLine(s, i);
      }
      ByteStream(s, k);
      assert s[..|s|] == s;
      var _ := SurvivesExactly(pieces, |s|);
    }
  }

  /** A line at least one read longer than the limit is never handled: in every cutting some read ends inside it. */
  lemma HugeLineCloses(pieces: seq<Piece>, i: nat)
    requires NoMarkers(Stream(pieces)) && i < |Lines(Stream(pieces))| && |Lines(Stream(pieces))[i]| >= 65536 + 1024
    requires forall k :: 0 <= k < |pieces| ==> |pieces[k].data| <= 1024
    ensures Feed(START, pieces).phase == Closed
  {
    var s := Stream(pieces);
    var end := LongLine(s, i);
    var k := ReadHolding(pieces, end);
    StreamPrefix(pieces, k);
    StreamStep(pieces, k);
    TailShrinks(s[..end], |Stream(pieces[..k])|);
    assert s[..end][..|Stream(pieces[..k])|] == Stream(pieces[..k]);
    assert pieces[..|pieces|] == pieces;
    assert !TailsFit(pieces, |pieces|);
    var m := SurvivesExactly(pieces, |pieces|);
  }

  lemma {:induction false} ReadHolding(pieces: seq<Piece>, at: nat) returns (k: nat)
    requires at < |Stream(pieces)|
    ensures k < |pieces| && |Stream(pieces[..k])| <= at < |Stream(pieces[..k + 1])|
  {
    var n := |pieces| - 1;
    if at < |Stream(pieces[..n])| {
      k := ReadHolding(pieces[..n], at);
      assert pieces[..n][..k] == pieces[..k] && pieces[..n][..k + 1] == pieces[..k + 1];
    } else {
      k := n;
      assert pieces[..k + 1] == pieces;
    }
  }

  lemma {:induction false} TailShrinks(s: string, k: nat)
    requires k <= |s| && |Tail(s)| >= |s| - k
    ensures |Tail(s[..k])| == |Tail(s)| - (|s| - k)
  {
    if k < |s| {
      assert s[..|s| - 1][..k] == s[..k];
      TailShrinks(s[..|s| - 1], k);
    } else {
      assert s[..k] == s;
    }
  }
}
