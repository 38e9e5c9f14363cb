/** The priority queue of outgoing messages (gateway/src/PriorityQueue.cpp, gateway/include/PriorityQueue.h), the
    fan-out to a user's devices and the drain in the server loop (gateway/src/EpollServer.cpp). The heap is a multiset:
    which of several equally urgent messages comes first is not determined. */
module PriorityQueue {
  datatype Priority = Urgent | Normal | Bulk

  datatype PriorityMessage = PriorityMessage(payload: string, targetFd: int, priority: Priority)

  function Rank(p: Priority): int {
    match p
    case Urgent => 0
    case Normal => 1
    case Bulk => 2
  }

  /** `operator<`: the greatest element of the heap is the one with the smallest number. */
  predicate Less(a: PriorityMessage, b: PriorityMessage) {
    Rank(a.priority) > Rank(b.priority)
  }

  /** No message in `q` is greater than `m`. */
  predicate IsTop(q: multiset<PriorityMessage>, m: PriorityMessage) {
    m in q && forall o :: o in q ==> !Less(m, o)
  }

  lemma {:induction false} TopExists(q: multiset<PriorityMessage>)
    requires q != multiset{}
    ensures exists m :: IsTop(q, m)
    decreases |q|
  {
    var m :| m in q;
    if o :| o in q && Less(m, o) {
      var rest := q - multiset{m};
      assert o in rest;
      TopExists(rest);
      var t :| IsTop(rest, t);
      assert IsTop(q, t);
    } else {
      assert IsTop(q, m);
    }
  }

  /** What one call of `sendToUser` queues: a message for every entry of the device list. */
  function Copies(fds: seq<int>, payload: string, p: Priority): multiset<PriorityMessage> {
    if fds == [] then multiset{}
    else Copies(fds[..|fds| - 1], payload, p) + multiset{PriorityMessage(payload, fds[|fds| - 1], p)}
  }

  lemma {:induction false} OneCopyPerDevice(fds: seq<int>, payload: string, p: Priority, m: PriorityMessage)
    ensures Copies(fds, payload, p)[m] ==
            if m.payload == payload && m.priority == p then multiset(fds)[m.targetFd] else 0
  {
    if fds != [] {
      OneCopyPerDevice(fds[..|fds| - 1], payload, p, m);
      assert fds == fds[..|fds| - 1] + [fds[|fds| - 1]];
    }
  }

  ghost predicate MostUrgentFirst(s: seq<PriorityMessage>) {
    forall i, j :: 0 <= i < j < |s| ==> !Less(s[i], s[j])
  }

  /** The order the classes promise: everything urgent before everything else, everything bulk after everything else. */
  ghost predicate UrgentThenBulk(s: seq<PriorityMessage>) {
    forall i, j :: 0 <= i < j < |s| ==>
      (s[j].priority == Urgent ==> s[i].priority == Urgent) && (s[i].priority == Bulk ==> s[j].priority == Bulk)
  }

  lemma OrderOfClasses(s: seq<PriorityMessage>)
    ensures MostUrgentFirst(s) <==> UrgentThenBulk(s)
  {
    forall i, j | 0 <= i < j < |s|
      ensures !Less(s[i], s[j]) <==>
              (s[j].priority == Urgent ==> s[i].priority == Urgent) && (s[i].priority == Bulk ==> s[j].priority == Bulk)
    {
    }
  }

  ghost predicate NoMoreUrgentLeft(popped: seq<PriorityMessage>, q: multiset<PriorityMessage>) {
    forall i, o :: 0 <= i < |popped| && o in q ==> !Less(popped[i], o)
  }

  lemma PopKeepsOrder(popped: seq<PriorityMessage>, q: multiset<PriorityMessage>, m: PriorityMessage,
                      rest: multiset<PriorityMessage>)
    requires MostUrgentFirst(popped) && NoMoreUrgentLeft(popped, q) && IsTop(q, m) && rest + multiset{m} == q
    ensures MostUrgentFirst(popped + [m]) && NoMoreUrgentLeft(popped + [m], rest)
  {
    assert forall o :: o in rest ==> o in q;
  }

  /** The payloads for one connection, in the order in which they were taken from the queue. */
  function For(s: seq<PriorityMessage>, fd: int): seq<string> {
    if s == [] then []
    else For(s[..|s| - 1], fd) + if s[|s| - 1].targetFd == fd then [s[|s| - 1].payload] else []
  }

  function HandedTo(h: seq<(int, string)>, fd: int): seq<string> {
    if h == [] then []
    else HandedTo(h[..|h| - 1], fd) + if h[|h| - 1].0 == fd then [h[|h| - 1].1] else []
  }

  class Queue {
    var queue: multiset<PriorityMessage>

    constructor ()
      ensures queue == multiset{}
    {
      queue := multiset{};
    }

    method Push(payload: string, targetFd: int, priority: Priority)
      modifies this
      ensures queue == old(queue) + multiset{PriorityMessage(payload, targetFd, priority)}
    {
      queue := queue + multiset{PriorityMessage(payload, targetFd, priority)};
    }

    method Pop() returns (m: PriorityMessage)
      modifies this
      ensures old(queue) == multiset{} ==> m.targetFd == -1 && queue == multiset{}
      ensures old(queue) != multiset{} ==> IsTop(old(queue), m) && queue + multiset{m} == old(queue)
      ensures forall o :: o in queue ==>
                (o.priority == Urgent ==> m.priority == Urgent) && (m.priority == Bulk ==> o.priority == Bulk)
    {
      if queue == multiset{} {
        var payload, priority := *, *;
        return PriorityMessage(payload, -1, priority);
      }
      TopExists(queue);
      m :| IsTop(queue, m);
      queue := queue - multiset{m};
    }

    method Clear()
      modifies this
      ensures queue == multiset{}
    {
      while queue != multiset{}
        decreases |queue|
      {
        var m := Pop();
      }
    }
  }

  class Server {
    const queue: Queue
    var userMap: map<string, seq<int>>
    var live: set<int>
    ghost var handed: seq<(int, string)>    // what sendToClient accepted for a live connection

    constructor ()
      ensures queue.queue == multiset{} && userMap == map[] && live == {} && handed == [] && fresh(queue)
    {
      queue := new Queue();
      userMap, live, handed := map[], {}, [];
    }

    method SendToUser(username: string, msg: string, priority: Priority)
      modifies queue
      ensures queue.queue == old(queue.queue) +
                if username in userMap then Copies(userMap[username], msg, priority) else multiset{}
    {
      if username !in userMap { return; }
      var fds := userMap[username];
      for i := 0 to |fds|
        invariant queue.queue == old(queue.queue) + Copies(fds[..i], msg, priority)
      {
        queue.Push(msg, fds[i], priority);
        assert fds[..i + 1][..i] == fds[..i];
      }
      assert fds[..|fds|] == fds;
    }

    /** A write error disconnects the client; nothing else about the connection matters here. */
    method SendToClient(fd: int, msg: string)
      modifies `live, `handed
      ensures handed == if fd in old(live) then old(handed) + [(fd, msg)] else old(handed)
      ensures live == old(live) || live == old(live) - {fd}
    {
      if fd !in live { return; }
      handed := handed + [(fd, msg)];
      var failed := *;
      if failed {
        live := live - {fd};
      }
    }

    /** Ends with an empty queue, having taken out exactly what was in it, most urgent first; a connection that is
        still live got every message meant for it, in that order, and nothing else. */
    method DrainQueue() returns (ghost popped: seq<PriorityMessage>)
      modifies queue, `live, `handed
      ensures queue.queue == multiset{}
      ensures multiset(popped) == old(queue.queue) && MostUrgentFirst(popped) && UrgentThenBulk(popped)
      ensures live <= old(live)
      ensures GotTheirs(live, old(handed), handed, popped)
    {
      popped := [];
      assert GotTheirs(live, handed, handed, popped);
      while queue.queue != multiset{}
        invariant multiset(popped) + queue.queue == old(queue.queue) && MostUrgentFirst(popped)
        invariant NoMoreUrgentLeft(popped, queue.queue)
        invariant live <= old(live)
        invariant GotTheirs(live, old(handed), handed, popped)
        decreases |queue.queue|
      {
        hide MostUrgentFirst, NoMoreUrgentLeft, IsTop, GotTheirs;
        ghost var q, before, were := queue.queue, handed, live;
        var m := queue.Pop();
        PopKeepsOrder(popped, q, m, queue.queue);
        if m.targetFd != -1 {
          SendToClient(m.targetFd, m.payload);
        }
        HandedOneMore(were, old(handed), before, popped, m, live);
        popped := popped + [m];
      }
      OrderOfClasses(popped);
    }
  }

  /** Between the histories `h` and `now`, every live connection was handed its messages of `popped`, in order. */
  ghost predicate GotTheirs(live: set<int>, h: seq<(int, string)>, now: seq<(int, string)>,
                            popped: seq<PriorityMessage>) {
    forall fd :: fd in live && fd != -1 ==> HandedTo(now, fd) == HandedTo(h, fd) + For(popped, fd)
  }

  lemma HandedOneMore(live: set<int>, h: seq<(int, string)>, now: seq<(int, string)>, popped: seq<PriorityMessage>,
                      m: PriorityMessage, after: set<int>)
    requires GotTheirs(live, h, now, popped) && after <= live
    ensures GotTheirs(after, h,
                      if m.targetFd in live && m.targetFd != -1 then now + [(m.targetFd, m.payload)] else now,
                      popped + [m])
  {
    assert (popped + [m])[..|popped|] == popped;
    assert (now + [(m.targetFd, m.payload)])[..|now|] == now;
  }

  // ---------- What the order determines ----------

  function MoreUrgentThan(s: seq<PriorityMessage>, rank: int): nat {
    if s == [] then 0 else (if Rank(s[0].priority) < rank then 1 else 0) + MoreUrgentThan(s[1..], rank)
  }

  /** In a drain, the messages below a rank fill exactly the first places. */
  lemma {:induction false} Band(s: seq<PriorityMessage>, rank: int, k: nat)
    requires MostUrgentFirst(s) && k < |s|
    ensures Rank(s[k].priority) < rank <==> k < MoreUrgentThan(s, rank)
  {
    if k > 0 {
      Band(s[1..], rank, k - 1);
    } else if Rank(s[0].priority) >= rank {
      NoneMoreUrgent(s, rank);
    }
  }

  lemma {:induction false} NoneMoreUrgent(s: seq<PriorityMessage>, rank: int)
    requires forall i :: 0 <= i < |s| ==> Rank(s[i].priority) >= rank
    ensures MoreUrgentThan(s, rank) == 0
  {
    if s != [] {
      NoneMoreUrgent(s[1..], rank);
    }
  }

  lemma {:induction false} CountSplit(s: seq<PriorityMessage>, t: seq<PriorityMessage>, rank: int)
    ensures MoreUrgentThan(s + t, rank) == MoreUrgentThan(s, rank) + MoreUrgentThan(t, rank)
  {
    if s == [] {
      assert s + t == t;
    } else {
      assert (s + t)[1..] == s[1..] + t;
      CountSplit(s[1..], t, rank);
    }
  }

  lemma CountWithout(t: seq<PriorityMessage>, m: PriorityMessage, rank: int) returns (rest: seq<PriorityMessage>)
    requires m in t
    ensures multiset(t) == multiset{m} + multiset(rest)
    ensures MoreUrgentThan(t, rank) == MoreUrgentThan([m], rank) + MoreUrgentThan(rest, rank)
  {
    var k :| 0 <= k < |t| && t[k] == m;
    var before, after := t[..k], t[k + 1..];
    assert t == before + ([m] + after);
    CountSplit(before, [m] + after, rank);
    CountSplit([m], after, rank);
    CountSplit(before, after, rank);
    rest := before + after;
  }

  lemma {:induction false} CountPermuted(s: seq<PriorityMessage>, t: seq<PriorityMessage>, rank: int)
    requires multiset(s) == multiset(t)
    ensures MoreUrgentThan(s, rank) == MoreUrgentThan(t, rank)
    decreases |s|
  {
    if s == [] {
      assert |t| == |multiset(t)| == 0;
    } else {
      hide MoreUrgentThan;
      var m := s[0];
      assert m in multiset(s);
      assert m in t;
      var others := CountWithout(s, m, rank);
      var rest := CountWithout(t, m, rank);
      MultisetCancel(m, multiset(others), multiset(rest));
      assert |s| == |multiset(s)| == 1 + |others|;
      CountPermuted(others, rest, rank);
    }
  }

  lemma MultisetCancel<T>(x: T, a: multiset<T>, b: multiset<T>)
    requires multiset{x} + a == multiset{x} + b
    ensures a == b
  {
    assert a == multiset{x} + a - multiset{x};
    assert b == multiset{x} + b - multiset{x};
  }

  lemma SameBand(s: seq<PriorityMessage>, t: seq<PriorityMessage>, rank: int, k: nat)
    requires multiset(s) == multiset(t) && MostUrgentFirst(s) && MostUrgentFirst(t) && k < |s| == |t|
    ensures Rank(s[k].priority) < rank <==> Rank(t[k].priority) < rank
  {
    Band(s, rank, k);
    Band(t, rank, k);
    CountPermuted(s, t, rank);
  }

  /** However the heap breaks ties, two drains of the same messages carry the same priority in every place. */
  lemma TiesDoNotMatter(s: seq<PriorityMessage>, t: seq<PriorityMessage>, k: nat)
    requires multiset(s) == multiset(t) && MostUrgentFirst(s) && MostUrgentFirst(t) && k < |s|
    ensures |s| == |t| && s[k].priority == t[k].priority
  {
    assert |s| == |multiset(s)| == |multiset(t)| == |t|;
    SameBand(s, t, 1, k);
    SameBand(s, t, 2, k);
  }

  // ---------- Many loop rounds ----------

  /** One push, or one drain with what it took out. */
  datatype Event = Queued(m: PriorityMessage) | Round(popped: seq<PriorityMessage>)

  ghost function Waiting(events: seq<Event>): multiset<PriorityMessage> {
    if events == [] then multiset{}
    else match events[|events| - 1]
         case Queued(m) => Waiting(events[..|events| - 1]) + multiset{m}
         case Round(_) => multiset{}
  }

  /** Every drain does what `DrainQueue` promises. */
  ghost predicate IsHistory(events: seq<Event>) {
    forall i :: 0 <= i < |events| && events[i].Round? ==>
      multiset(events[i].popped) == Waiting(events[..i]) && MostUrgentFirst(events[i].popped)
  }

  ghost function Pushed(events: seq<Event>): multiset<PriorityMessage> {
    if events == [] then multiset{}
    else Pushed(events[..|events| - 1]) +
         match events[|events| - 1] case Queued(m) => multiset{m} case Round(_) => multiset{}
  }

  ghost function Emitted(events: seq<Event>): seq<PriorityMessage> {
    if events == [] then []
    else Emitted(events[..|events| - 1]) + match events[|events| - 1] case Queued(_) => [] case Round(popped) => popped
  }

  /** Over any run, what went out and what waits make up what was pushed. */
  lemma {:induction false} NothingLostOrRepeated(events: seq<Event>)
    requires IsHistory(events)
    ensures multiset(Emitted(events)) + Waiting(events) == Pushed(events)
  {
    if events != [] {
      var n := |events| - 1;
      forall i | 0 <= i < n ensures events[..n][..i] == events[..i] {
      }
      NothingLostOrRepeated(events[..n]);
    }
  }

  lemma {:induction false} WaitsUntil(events: seq<Event>, i: nat, j: nat, m: PriorityMessage)
    requires i < j <= |events| && events[i] == Queued(m) && forall l :: i < l < j ==> events[l].Queued?
    ensures m in Waiting(events[..j])
    decreases j
  {
    assert events[..j][..j - 1] == events[..j - 1];
    if j > i + 1 {
      WaitsUntil(events, i, j - 1, m);
    }
  }

  /** No message starves: the first drain after its push takes it, behind at most the messages as urgent as itself. */
  lemma NextRoundTakesIt(events: seq<Event>, i: nat, j: nat, m: PriorityMessage)
    requires IsHistory(events) && i < j < |events| && events[i] == Queued(m) && events[j].Round?
    requires forall l :: i < l < j ==> events[l].Queued?
    ensures exists k :: 0 <= k < |events[j].popped| && events[j].popped[k] == m &&
                        k < MoreUrgentThan(events[j].popped, Rank(m.priority) + 1)
  {
    WaitsUntil(events, i, j, m);
    var popped := events[j].popped;
    assert m in multiset(popped);
    var k :| 0 <= k < |popped| && popped[k] == m;
    Band(popped, Rank(m.priority) + 1, k);
  }
}
