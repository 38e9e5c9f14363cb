/** The ACK retry protocol: gateway/src/AckTracker.cpp and the pass that drives it, `checkAckRetries` of
    gateway/src/EpollServer.cpp. `time(nullptr)` is a clock that never runs backwards; each call may see it later. */
module AckTracker {
  import opened Maps

  type MsgId = string

  datatype AckEntry = AckEntry(msgId: MsgId, targetUser: string, payload: string, targetFd: int,
                               sendTime: int, retryCount: nat, nextRetry: int)

  const MAX_RETRIES: nat := 3
  const ACK_TIMEOUT_SECONDS: int := 300

  /** `1 << k`. */
  function Shift(k: nat): (r: nat)
    ensures r >= 1
  {
    if k == 0 then 1 else 2 * Shift(k - 1)
  }

  type Table = map<MsgId, AckEntry>

  // ---------- The five operations ----------

  function NewEntry(id: MsgId, user: string, payload: string, fd: int, now: int): AckEntry {
    AckEntry(id, user, payload, fd, now, 0, now + 1)
  }

  predicate Due(limit: nat, e: AckEntry, now: int) {
    e.retryCount < limit && now >= e.nextRetry
  }

  /** `markRetryDone` at time `now`; ids no longer pending are skipped. */
  function MarkDone(limit: nat, p: Table, id: MsgId, now: int): Table {
    if id !in p then p else
    var e := p[id].(retryCount := p[id].retryCount + 1);
    p[id := if e.retryCount < limit then e.(nextRetry := now + Shift(e.retryCount)) else e]
  }

  function Dead(limit: nat, p: Table): (r: Table)
    ensures forall id :: id in r <==> id in p && p[id].retryCount >= limit
    ensures forall id :: id in r ==> r[id] == p[id]
  {
    map id | id in p && p[id].retryCount >= limit :: p[id]
  }

  function Alive(limit: nat, p: Table): (r: Table)
    ensures forall id :: id in r <==> id in p && p[id].retryCount < limit
    ensures forall id :: id in r ==> r[id] == p[id]
  {
    map id | id in p && p[id].retryCount < limit :: p[id]
  }

  predicate Expired(limit: nat, e: AckEntry, now: int) {
    now - e.sendTime > ACK_TIMEOUT_SECONDS && e.retryCount >= limit
  }

  /** The marks of one pass: `ids[i]` is marked at time `times[i]`. */
  function MarkAll(limit: nat, p: Table, ids: seq<MsgId>, times: seq<int>): Table
    requires |ids| == |times|
    decreases |ids|
  {
    if ids == [] then p else
    MarkDone(limit, MarkAll(limit, p, ids[..|ids| - 1], times[..|ids| - 1]), ids[|ids| - 1], times[|ids| - 1])
  }

  // ---------- The class ----------

  class Clock {
    var now: int

    constructor (start: int)
      ensures now == start
    {
      now := start;
    }

    method Time() returns (t: int)
      modifies this
      ensures old(now) <= t == now
    {
      var step: nat :| step >= 0;
      now := now + step;
      t := now;
    }
  }

  ghost predicate ListsEntries(es: seq<AckEntry>, p: Table) {
    && |es| == |p|
    && (forall i, j :: 0 <= i < j < |es| ==> es[i].msgId != es[j].msgId)
    && (forall i :: 0 <= i < |es| ==> es[i].msgId in p && p[es[i].msgId] == es[i])
  }

  /** A list that has one entry for each key has them all. */
  lemma ListsAll(es: seq<AckEntry>, p: Table)
    requires ListsEntries(es, p) && Filed(p)
    ensures forall e: AckEntry :: e in es <==> e.msgId in p && p[e.msgId] == e
  {
    var ids := set i | 0 <= i < |es| :: es[i].msgId;
    DistinctIds(es);
    assert ids <= p.Keys;
    SameSize(ids, p.Keys);
    forall e: AckEntry | e.msgId in p && p[e.msgId] == e ensures e in es {
      assert e.msgId in ids;
    }
  }

  lemma {:induction false} DistinctIds(es: seq<AckEntry>)
    requires forall i, j :: 0 <= i < j < |es| ==> es[i].msgId != es[j].msgId
    ensures |set i | 0 <= i < |es| :: es[i].msgId| == |es|
  {
    if es != [] {
      var n := |es| - 1;
      DistinctIds(es[..n]);
      var most := set i | 0 <= i < n :: es[i].msgId;
      assert most == set i | 0 <= i < |es[..n]| :: es[..n][i].msgId;
      assert (set i | 0 <= i < |es| :: es[i].msgId) == most + {es[n].msgId};
      assert es[n].msgId !in most;
    }
  }

  lemma SameSize<T>(a: set<T>, b: set<T>)
    requires a <= b && |a| == |b|
    ensures a == b
  {
    if x :| x in b && x !in a {
      SubsetSize(a, b - {x});
    }
  }

  lemma {:induction false} SubsetSize<T>(a: set<T>, b: set<T>)
    requires a <= b
    ensures |a| <= |b|
  {
    if x :| x in a {
      SubsetSize(a - {x}, b - {x});
    }
  }

  /** What `CheckAckRetries` resends and marks is a pass in the sense of the runs below: every due entry, once. */
  lemma PassIsPoll(p: Table, at: int, resent: seq<AckEntry>, times: seq<int>, end: int)
    requires Filed(p) && ListsEntries(resent, DueEntries(MAX_RETRIES, p, at))
    requires |times| == |resent| && Ordered(at, times, end)
    ensures IsPoll(MAX_RETRIES, p, at, Ids(resent), times, end)
    ensures forall id :: id in Ids(resent) <==> id in p && p[id].retryCount < 3 && at >= p[id].nextRetry
  {
    var due := DueEntries(MAX_RETRIES, p, at);
    ListsAll(resent, due);
    forall id | id in p && Due(MAX_RETRIES, p[id], at) ensures id in Ids(resent) {
      assert due[id] in resent;
      var i :| 0 <= i < |resent| && resent[i] == due[id];
      assert Ids(resent)[i] == id;
    }
  }

  lemma ShiftNumbers()
    ensures Shift(0) == 1 && Shift(1) == 2 && Shift(2) == 4 && Shift(3) == 8
  {
    assert Shift(1) == 2 && Shift(2) == 4;
  }

  lemma ListsOneMore(es: seq<AckEntry>, p: Table, e: AckEntry)
    requires ListsEntries(es, p) && e.msgId !in p
    ensures ListsEntries(es + [e], p[e.msgId := e])
  {
  }

  function DueEntries(limit: nat, p: Table, now: int): Table {
    map id | id in p && Due(limit, p[id], now) :: p[id]
  }

  /** Every entry is filed under its own id. */
  ghost predicate Filed(p: Table) {
    forall id :: id in p ==> p[id].msgId == id
  }

  class Tracker {
    const clock: Clock
    var pending: Table

    constructor (c: Clock)
      ensures clock == c && pending == map[]
    {
      clock, pending := c, map[];
    }

    method TrackMessage(id: MsgId, user: string, payload: string, fd: int)
      modifies this, clock
      ensures clock.now >= old(clock.now)
      ensures pending == old(pending)[id := NewEntry(id, user, payload, fd, clock.now)]
      ensures pending[id] == AckEntry(id, user, payload, fd, clock.now, 0, clock.now + 1)
    {
      var now := clock.Time();
      var entry := AckEntry(id, user, payload, fd, now, 0, now + 1);
      pending := pending[id := entry];
    }

    method AcknowledgeMessage(id: MsgId) returns (ok: bool)
      modifies this
      ensures ok == (id in old(pending)) && pending == old(pending) - {id}
    {
      if id !in pending {
        assert pending == pending - {id};
        return false;
      }
      pending := pending - {id};
      return true;
    }

    /** Exactly the due entries, each once, in the map's arbitrary order. */
    method GetPendingRetries() returns (retries: seq<AckEntry>)
      requires Filed(pending)
      modifies clock
      ensures clock.now >= old(clock.now)
      ensures ListsEntries(retries, DueEntries(MAX_RETRIES, pending, clock.now))
      ensures forall e: AckEntry :: e in retries <==>
                e.msgId in pending && pending[e.msgId] == e && e.retryCount < 3 && clock.now >= e.nextRetry
    {
      var now := clock.Time();
      retries := [];
      var left := pending.Keys;
      ghost var seen: Table := map[];
      while left != {}
        modifies {}
        invariant left <= pending.Keys
        invariant forall id :: id in seen <==> id in pending && id !in left && Due(MAX_RETRIES, pending[id], now)
        invariant forall id :: id in seen ==> seen[id] == pending[id]
        invariant ListsEntries(retries, seen)
        decreases left
      {
        var id :| id in left;
        left := left - {id};
        var entry := pending[id];
        if Due(MAX_RETRIES, entry, now) {
          ListsOneMore(retries, seen, entry);
          retries := retries + [entry];
          seen := seen[id := entry];
        }
      }
      assert seen == DueEntries(MAX_RETRIES, pending, now);
      ListsAll(retries, seen);
    }

    method MarkRetryDone(id: MsgId)
      modifies this, clock
      ensures clock.now >= old(clock.now) && pending == MarkDone(MAX_RETRIES, old(pending), id, clock.now)
      ensures id in old(pending) && old(pending)[id].retryCount == 0 ==> pending[id].nextRetry == clock.now + 2
      ensures id in old(pending) && old(pending)[id].retryCount == 1 ==> pending[id].nextRetry == clock.now + 4
      ensures id in old(pending) ==> pending[id].retryCount == old(pending)[id].retryCount + 1
    {
      ShiftNumbers();
      if id !in pending { return; }
      var entry := pending[id].(retryCount := pending[id].retryCount + 1);
      var now := clock.Time();
      if entry.retryCount < MAX_RETRIES {
        entry := entry.(nextRetry := now + Shift(entry.retryCount));
      }
      pending := pending[id := entry];
    }

    method DrainDeadLetters() returns (dead: seq<AckEntry>)
      requires Filed(pending)
      modifies this
      ensures ListsEntries(dead, Dead(MAX_RETRIES, old(pending))) && pending == Alive(MAX_RETRIES, old(pending))
    {
      dead := [];
      var left := pending.Keys;
      ghost var start, seen: Table := pending, map[];
      while left != {}
        invariant left <= start.Keys && left <= pending.Keys
        invariant forall id :: id in pending <==> id in start && (id in left || start[id].retryCount < MAX_RETRIES)
        invariant forall id :: id in pending ==> pending[id] == start[id]
        invariant forall id :: id in seen <==> id in start && id !in left && start[id].retryCount >= MAX_RETRIES
        invariant forall id :: id in seen ==> seen[id] == start[id]
        invariant ListsEntries(dead, seen)
        decreases left
      {
        var id :| id in left;
        left := left - {id};
        if pending[id].retryCount >= MAX_RETRIES {
          ListsOneMore(dead, seen, pending[id]);
          dead := dead + [pending[id]];
          seen := seen[id := pending[id]];
          pending := pending - {id};
        }
      }
      assert seen == Dead(MAX_RETRIES, start) && pending == Alive(MAX_RETRIES, start);
    }

    method PurgeExpired()
      modifies this, clock
      ensures clock.now >= old(clock.now)
      ensures pending == Purge(MAX_RETRIES, old(pending), clock.now)
      ensures forall id :: id in pending <==>
                id in old(pending) && !(clock.now - old(pending)[id].sendTime > 300 && old(pending)[id].retryCount >= 3)
    {
      var now := clock.Time();
      var left := pending.Keys;
      while left != {}
        modifies `pending
        invariant left <= old(pending).Keys
        invariant pending == map id | id in old(pending) && (id in left || !Expired(MAX_RETRIES, old(pending)[id], now))
                               :: old(pending)[id]
        decreases left
      {
        var id :| id in left;
        left := left - {id};
        if Expired(MAX_RETRIES, pending[id], now) {
          pending := pending - {id};
        }
      }
    }

    /** One pass of the event loop: resend and mark every due entry, then take out the dead ones. `resent` and `dead`
        are what goes to `sendToClient` and to the dead-letter mailboxes. */
    method CheckAckRetries() returns (resent: seq<AckEntry>, dead: seq<AckEntry>, ghost at: int, ghost times: seq<int>)
      requires Filed(pending)
      modifies this, clock
      ensures old(clock.now) <= at <= clock.now && |times| == |resent| && Ordered(at, times, clock.now)
      ensures ListsEntries(resent, DueEntries(MAX_RETRIES, old(pending), at))
      ensures var marked := MarkAll(MAX_RETRIES, old(pending), Ids(resent), times);
              pending == Alive(MAX_RETRIES, marked) && ListsEntries(dead, Dead(MAX_RETRIES, marked))
      ensures Filed(pending)
    {
      resent := GetPendingRetries();
      at, times := clock.now, [];
      for i := 0 to |resent|
        invariant |times| == i && Ordered(at, times, clock.now) && old(clock.now) <= at
        invariant pending == MarkAll(MAX_RETRIES, old(pending), Ids(resent)[..i], times)
      {
        hide Alive, Dead, Due, MarkDone, MarkAll;
        MarkRetryDone(resent[i].msgId);
        MarkOneMore(MAX_RETRIES, old(pending), Ids(resent), times, i, clock.now);
        times := times + [clock.now];
      }
      assert Ids(resent)[..|resent|] == Ids(resent);
      MarksStayFiled(MAX_RETRIES, old(pending), Ids(resent), times);
      dead := DrainDeadLetters();
    }
  }

  function Ids(es: seq<AckEntry>): (ids: seq<MsgId>)
    ensures |ids| == |es| && forall i :: 0 <= i < |es| ==> ids[i] == es[i].msgId
  {
    seq(|es|, i requires 0 <= i < |es| => es[i].msgId)
  }

  lemma MarkOneMore(limit: nat, p: Table, ids: seq<MsgId>, times: seq<int>, i: nat, now: int)
    requires i < |ids| && |times| == i
    ensures MarkAll(limit, p, ids[..i + 1], times + [now]) ==
            MarkDone(limit, MarkAll(limit, p, ids[..i], times), ids[i], now)
  {
    hide MarkDone;
    assert (times + [now])[..i] == times && ids[..i + 1][..i] == ids[..i];
  }

  ghost predicate Ordered(from: int, times: seq<int>, to: int) {
    && from <= to
    && (forall i :: 0 <= i < |times| ==> from <= times[i] <= to)
    && (forall i, j :: 0 <= i < j < |times| ==> times[i] <= times[j])
  }

  function Purge(limit: nat, p: Table, now: int): Table {
    map id | id in p && !Expired(limit, p[id], now) :: p[id]
  }

  lemma {:induction false} MarksStayFiled(limit: nat, p: Table, ids: seq<MsgId>, times: seq<int>)
    requires Filed(p) && |ids| == |times|
    ensures Filed(MarkAll(limit, p, ids, times))
    decreases |ids|
  {
    if ids != [] {
      MarksStayFiled(limit, p, ids[..|ids| - 1], times[..|ids| - 1]);
    }
  }

  /** Each id in the list is marked once, at its own time; all others are left alone. */
  lemma {:induction false} MarkAllPointwise(limit: nat, p: Table, ids: seq<MsgId>, times: seq<int>, id: MsgId)
    requires |ids| == |times| && forall i, j :: 0 <= i < j < |ids| ==> ids[i] != ids[j]
    ensures MarkAll(limit, p, ids, times).Keys == p.Keys
    ensures id in p && id !in ids ==> MarkAll(limit, p, ids, times)[id] == p[id]
    ensures forall i :: 0 <= i < |ids| && ids[i] == id && id in p ==>
              MarkAll(limit, p, ids, times)[id] == MarkDone(limit, p, id, times[i])[id]
    decreases |ids|
  {
    if ids != [] {
      var n := |ids| - 1;
      MarkAllPointwise(limit, p, ids[..n], times[..n], id);
      assert id in ids ==> id == ids[n] || id in ids[..n];
      assert id == ids[n] ==> id !in ids[..n];
    }
  }

  // ---------- Runs ----------

  /** Besides the table: which ids were acknowledged or given up, how often each was resent, and at which times ids
      were given up. `limit` stands for MAX_RETRIES. */
  datatype World = World(now: int, pending: Table, acked: set<MsgId>, dead: map<MsgId, (int, AckEntry)>,
      resends: map<MsgId, nat>)

  datatype Action =
    | Track(id: MsgId, user: string, payload: string, fd: int, at: int)
    | Ack(id: MsgId)
    | Poll(at: int, ids: seq<MsgId>, times: seq<int>, end: int)

  function Resends(w: World, id: MsgId): nat {
    if id in w.resends then w.resends[id] else 0
  }

  ghost predicate IsPoll(limit: nat, p: Table, at: int, ids: seq<MsgId>, times: seq<int>, end: int) {
    && |ids| == |times| && Ordered(at, times, end)
    && (forall i, j :: 0 <= i < j < |ids| ==> ids[i] != ids[j])
    && (forall id :: id in ids <==> id in p && Due(limit, p[id], at))
  }

  /** Ids are tracked once: a client that reuses one starts the entry over. */
  ghost predicate Enabled(limit: nat, w: World, a: Action) {
    match a
    case Track(id, _, _, _, at) => at >= w.now && id !in w.pending && id !in w.acked && id !in w.dead
    case Ack(_) => true
    case Poll(at, ids, times, end) => at >= w.now && IsPoll(limit, w.pending, at, ids, times, end)
  }

  ghost function Act(limit: nat, w: World, a: Action): World
    requires Enabled(limit, w, a)
  {
    match a
    case Track(id, user, payload, fd, at) =>
      w.(now := at, pending := w.pending[id := NewEntry(id, user, payload, fd, at)], resends := w.resends[id := 0])
    case Ack(id) =>
      if id in w.pending then w.(pending := w.pending - {id}, acked := w.acked + {id}) else w
    case Poll(at, ids, times, end) =>
      var marked := MarkAll(limit, w.pending, ids, times);
      var gone := Dead(limit, marked);
      w.(now := end, pending := Alive(limit, marked),
         dead := w.dead + (map id | id in gone :: (end, gone[id])),
         resends := w.resends + (map id | id in ids :: Resends(w, id) + 1))
  }

  ghost predicate IsRun(limit: nat, worlds: seq<World>, actions: seq<Action>) {
    && |worlds| == |actions| + 1
    && worlds[0].pending == map[] && worlds[0].acked == {} && worlds[0].dead == map[] && worlds[0].resends == map[]
    && forall i {:trigger actions[i]} :: 0 <= i < |actions| ==>
         Enabled(limit, worlds[i], actions[i]) && worlds[i + 1] == Act(limit, worlds[i], actions[i])
  }

  /** Backoff in closed form, and the count of resends. */
  ghost predicate EntryOk(limit: nat, w: World, id: MsgId)
    requires id in w.pending
  {
    var e := w.pending[id];
    && e.retryCount < limit && Resends(w, id) == e.retryCount
    && e.nextRetry >= e.sendTime + Shift(e.retryCount + 1) - 1
  }

  ghost predicate DeadOk(limit: nat, w: World, id: MsgId)
    requires id in w.dead
  {
    var (t, e) := w.dead[id];
    e.retryCount == limit && Resends(w, id) == limit && t >= e.sendTime + Shift(limit) - 1
  }

  ghost predicate IdOk(limit: nat, w: World, id: MsgId) {
    && (id in w.pending ==> EntryOk(limit, w, id) && id !in w.acked && id !in w.dead)
    && (id in w.acked ==> id !in w.dead && Resends(w, id) <= limit)
    && (id in w.dead ==> DeadOk(limit, w, id))
    && (id in w.resends <==> id in w.pending || id in w.acked || id in w.dead)
  }

  ghost function Marked(limit: nat, w: World, a: Action): Table
    requires a.Poll? && Enabled(limit, w, a)
  {
    MarkAll(limit, w.pending, a.ids, a.times)
  }

  ghost predicate IsDue(limit: nat, w: World, a: Action, id: MsgId)
    requires a.Poll?
  {
    id in w.pending && Due(limit, w.pending[id], a.at)
  }

  /** The gateway's pass in numbers: an entry found due for the first time is next due two seconds after it was marked,
      and the second time four seconds. */
  lemma PassInNumbers(w: World, a: Action, id: MsgId)
    requires a.Poll? && Enabled(3, w, a) && id in w.pending
    requires w.pending[id].retryCount < 3 && a.at >= w.pending[id].nextRetry
    ensures var n, marked := w.pending[id].retryCount, Marked(3, w, a);
            && id in marked && marked[id].retryCount == n + 1
            && (n == 0 ==> a.at + 2 <= marked[id].nextRetry <= a.end + 2)
            && (n == 1 ==> a.at + 4 <= marked[id].nextRetry <= a.end + 4)
  {
    MarkedAt(3, w, a, id);
    ShiftNumbers();
    hide MarkAll, Enabled, Shift;
  }

  /** One poll, seen from one id: untouched unless due; otherwise counted, and put off by the next backoff step. */
  lemma MarkedAt(limit: nat, w: World, a: Action, id: MsgId)
    requires a.Poll? && Enabled(limit, w, a)
    ensures id in a.ids <==> IsDue(limit, w, a, id)
    ensures var marked := Marked(limit, w, a);
            && (id in marked <==> id in w.pending)
            && (id in marked && !IsDue(limit, w, a, id) ==> marked[id] == w.pending[id])
            && (IsDue(limit, w, a, id) ==>
                  var e := w.pending[id].(retryCount := w.pending[id].retryCount + 1);
                  if e.retryCount < limit then
                    marked[id] == e.(nextRetry := marked[id].nextRetry) &&
                    a.at + Shift(e.retryCount) <= marked[id].nextRetry <= a.end + Shift(e.retryCount)
                  else marked[id] == e && a.end >= a.at)
  {
    MarkAllPointwise(limit, w.pending, a.ids, a.times, id);
    hide MarkAll, Shift;
    if id in a.ids {
      var i :| 0 <= i < |a.ids| && a.ids[i] == id;
      assert a.at <= a.times[i] <= a.end;
    }
  }

  lemma PollAt(limit: nat, w: World, a: Action, id: MsgId)
    requires a.Poll? && Enabled(limit, w, a)
    ensures var w', marked := Act(limit, w, a), Marked(limit, w, a);
            && w'.acked == w.acked
            && Resends(w', id) == Resends(w, id) + (if IsDue(limit, w, a, id) then 1 else 0)
            && (id in w'.resends <==> id in w.resends || IsDue(limit, w, a, id))
            && (id in w'.pending <==> id in marked && marked[id].retryCount < limit)
            && (id in w'.pending ==> w'.pending[id] == marked[id])
            && (if id in marked && marked[id].retryCount >= limit
                then id in w'.dead && w'.dead[id] == (a.end, marked[id])
                else (id in w'.dead <==> id in w.dead) && (id in w.dead ==> w'.dead[id] == w.dead[id]))
  {
    MarkedAt(limit, w, a, id);
    hide MarkAll, Shift, IsDue, Enabled;
  }

  lemma ActIdOk(limit: nat, w: World, a: Action, id: MsgId)
    requires limit >= 1 && Enabled(limit, w, a) && IdOk(limit, w, id)
    ensures IdOk(limit, Act(limit, w, a), id)
  {
    if a.Poll? {
      PollAt(limit, w, a, id);
      MarkedAt(limit, w, a, id);
      hide Act, Enabled, Marked;
    } else {
      assert Shift(1) == 2;
      hide Shift;
    }
  }

  /** In every reachable state: each tracked id is pending, acknowledged or dead-lettered, never two of these; it has
      been resent `retry_count` times, at most `limit` times in all; its next retry is no earlier than
      send + 2^(retry_count + 1) - 1; and it was given up only after `limit` resends and 2^limit - 1 seconds. */
  lemma {:induction false} Lifecycle(limit: nat, worlds: seq<World>, actions: seq<Action>, k: nat, id: MsgId)
    requires limit >= 1 && IsRun(limit, worlds, actions) && k < |worlds|
    ensures IdOk(limit, worlds[k], id)
  {
    if k > 0 {
      Lifecycle(limit, worlds, actions, k - 1, id);
      assert Enabled(limit, worlds[k - 1], actions[k - 1]) &&
          worlds[k - 1 + 1] == Act(limit, worlds[k - 1], actions[k - 1]);
      hide Act, Enabled;
      ActIdOk(limit, worlds[k - 1], actions[k - 1], id);
    }
  }

  /** End states are final: an id is acknowledged or given up at most once. */
  lemma {:induction false} EndsOnce(limit: nat, worlds: seq<World>, actions: seq<Action>, j: nat, k: nat, id: MsgId)
    requires limit >= 1 && IsRun(limit, worlds, actions) && j <= k < |worlds|
    ensures id in worlds[j].acked ==> id in worlds[k].acked && id !in worlds[k].pending && id !in worlds[k].dead
    ensures id in worlds[j].dead ==>
              id in worlds[k].dead && worlds[k].dead[id] == worlds[j].dead[id] && id !in worlds[k].pending
    decreases k - j
  {
    Lifecycle(limit, worlds, actions, k, id);
    if j < k && (id in worlds[j].acked || id in worlds[j].dead) {
      EndsOnce(limit, worlds, actions, j, k - 1, id);
      assert Enabled(limit, worlds[k - 1], actions[k - 1]) &&
          worlds[k - 1 + 1] == Act(limit, worlds[k - 1], actions[k - 1]);
      hide Act, Enabled, IdOk;
      EndsStay(limit, worlds[k - 1], actions[k - 1], id);
    }
  }

  lemma EndsStay(limit: nat, w: World, a: Action, id: MsgId)
    requires Enabled(limit, w, a) && id !in w.pending
    ensures var w' := Act(limit, w, a);
            && (id in w.acked ==> id in w'.acked && id !in w'.pending)
            && (id in w.dead ==> id in w'.dead && w'.dead[id] == w.dead[id] && id !in w'.pending)
            && (id in w.acked && id !in w.dead ==> id !in w'.dead)
  {
    if a.Poll? {
      PollAt(limit, w, a, id);
      MarkedAt(limit, w, a, id);
      hide Act, Enabled, Marked;
    }
  }

  /** With the gateway's three retries: given up no earlier than seven seconds after the first send. */
  lemma SevenSeconds(worlds: seq<World>, actions: seq<Action>, k: nat, id: MsgId)
    requires IsRun(MAX_RETRIES, worlds, actions) && k < |worlds| && id in worlds[k].dead
    ensures var (t, e) := worlds[k].dead[id]; t >= e.sendTime + 7 && Resends(worlds[k], id) == 3
  {
    Lifecycle(MAX_RETRIES, worlds, actions, k, id);
    assert Shift(1) == 2 && Shift(2) == 4;
  }

  /** How many polls between two positions found the entry due. */
  ghost function DuePolls(limit: nat, worlds: seq<World>, actions: seq<Action>, j: nat, k: nat, id: MsgId): nat
    requires j <= k < |worlds| == |actions| + 1
    decreases k - j
  {
    if j == k then 0 else
    DuePolls(limit, worlds, actions, j, k - 1, id) +
    if actions[k - 1].Poll? && IsDue(limit, worlds[k - 1], actions[k - 1], id) then 1 else 0
  }

  /** After `n` due polls: still pending with that count, or dead-lettered at the limit. */
  ghost predicate Tally(limit: nat, w: World, id: MsgId, n: nat) {
    n <= limit && if n < limit then id in w.pending && w.pending[id].retryCount == n
                  else id in w.dead && id !in w.pending
  }

  lemma TallyStart(limit: nat, w: World, a: Action)
    requires limit >= 1 && a.Track? && Enabled(limit, w, a)
    ensures Tally(limit, Act(limit, w, a), a.id, 0)
  {
  }

  lemma TallyStep(limit: nat, w: World, a: Action, id: MsgId, n: nat)
    requires Enabled(limit, w, a) && IdOk(limit, w, id) && a != Ack(id) && Tally(limit, w, id, n)
    ensures Tally(limit, Act(limit, w, a), id, n + if a.Poll? && IsDue(limit, w, a, id) then 1 else 0)
  {
    NextEntry(limit, w, a, id);
    hide Act, Enabled;
  }

  ghost predicate NeverAcked(actions: seq<Action>, from: nat, to: nat, id: MsgId) {
    forall i {:trigger actions[i]} :: from <= i < to && i < |actions| ==> actions[i] != Ack(id)
  }

  /** A run that tracks `id` in action `j` and does not acknowledge it up to world `k`. */
  ghost predicate Unacked(limit: nat, worlds: seq<World>, actions: seq<Action>, j: nat, k: nat, id: MsgId) {
    limit >= 1 && IsRun(limit, worlds, actions) && j < k < |worlds| == |actions| + 1 &&
    actions[j].Track? && actions[j].id == id && NeverAcked(actions, j + 1, k, id)
  }

  lemma UnackedBefore(limit: nat, worlds: seq<World>, actions: seq<Action>, j: nat, k: nat, id: MsgId)
    requires Unacked(limit, worlds, actions, j, k, id) && j + 1 < k
    ensures Unacked(limit, worlds, actions, j, k - 1, id) && actions[k - 1] != Ack(id)
  {
    hide IsRun;
  }

  /** An entry that is never acknowledged leaves after exactly `limit` due polls, not before and not after. */
  lemma {:induction false} LeavesAfterLimit(limit: nat, worlds: seq<World>, actions: seq<Action>, j: nat, k: nat,
                                            id: MsgId)
    requires Unacked(limit, worlds, actions, j, k, id)
    ensures Tally(limit, worlds[k], id, DuePolls(limit, worlds, actions, j + 1, k, id))
    decreases k - j
  {
    hide IsDue, IsRun, Tally, NeverAcked;
    if k == j + 1 {
      TallyFirst(limit, worlds, actions, j);
    } else {
      UnackedBefore(limit, worlds, actions, j, k, id);
      LeavesAfterLimit(limit, worlds, actions, j, k - 1, id);
      hide Unacked;
      TallyNext(limit, worlds, actions, k - 1, id, DuePolls(limit, worlds, actions, j + 1, k - 1, id));
    }
  }

  // ---------- How long it can take ----------

  /** Time does not get more than d seconds past the moment at which `id` falls due without a pass that is then over. */
  ghost predicate Prompt(worlds: seq<World>, id: MsgId, j: nat, k: nat, d: nat) {
    forall i :: j < i < k && i + 1 < |worlds| && id in worlds[i].pending ==>
      worlds[i + 1].now <= worlds[i].pending[id].nextRetry + d
  }

  /** The latest moment at which an entry with n retries used up can fall due. */
  function DueBy(sent: int, n: nat, d: nat): int {
    sent + Shift(n + 1) - 1 + n * d
  }

  lemma DueByNext(sent: int, n: nat, d: nat)
    ensures DueBy(sent, n + 1, d) == DueBy(sent, n, d) + d + Shift(n + 1)
    ensures DueBy(sent, 0, d) == sent + 1
  {
    assert (n + 1) * d == n * d + d && 0 * d == 0;
  }

  lemma {:induction false} DueByGrows(sent: int, n: nat, m: nat, d: nat)
    requires n <= m
    ensures DueBy(sent, n, d) <= DueBy(sent, m, d)
    decreases m
  {
    if n < m {
      DueByGrows(sent, n, m - 1, d);
      DueByNext(sent, m - 1, d);
    }
  }

  /** Pending and not overdue by more than d, or given up in time. */
  ghost predicate Timely(limit: nat, w: World, id: MsgId, sent: int, d: nat)
    requires limit >= 1
  {
    && (id in w.pending || id in w.dead)
    && (id in w.pending ==> var e := w.pending[id];
          e.retryCount < limit && e.nextRetry <= DueBy(sent, e.retryCount, d) && w.now <= e.nextRetry + d)
    && (id in w.dead ==> w.dead[id].0 <= DueBy(sent, limit - 1, d) + d)
  }

  lemma TimelyStep(limit: nat, w: World, a: Action, id: MsgId, sent: int, d: nat)
    requires limit >= 1 && Enabled(limit, w, a) && IdOk(limit, w, id) && a != Ack(id) && Timely(limit, w, id, sent, d)
    requires id in w.pending ==> Act(limit, w, a).now <= w.pending[id].nextRetry + d
    ensures Timely(limit, Act(limit, w, a), id, sent, d)
  {
    hide DueBy;
    if a.Poll? {
      assert Act(limit, w, a).now == a.end && a.at <= a.end;
      hide Act, Enabled, Marked, Shift;
      TimelyPoll(limit, w, a, id, sent, d);
    }
  }

  lemma TimelyPoll(limit: nat, w: World, a: Action, id: MsgId, sent: int, d: nat)
    requires limit >= 1 && a.Poll? && Enabled(limit, w, a) && IdOk(limit, w, id) && Timely(limit, w, id, sent, d)
    requires Act(limit, w, a).now == a.end && a.at <= a.end
    requires id in w.pending ==> a.end <= w.pending[id].nextRetry + d
    ensures Timely(limit, Act(limit, w, a), id, sent, d)
  {
    hide Act, Enabled, Marked, Shift, DueBy;
    PollAt(limit, w, a, id);
    MarkedAt(limit, w, a, id);
    if id in w.pending {
      DueByNext(sent, w.pending[id].retryCount, d);
    }
  }

  lemma {:induction false} TimelyRun(limit: nat, worlds: seq<World>, actions: seq<Action>, j: nat, k: nat, id: MsgId,
                                     d: nat)
    requires Unacked(limit, worlds, actions, j, k, id) && Prompt(worlds, id, j, k, d)
    ensures Timely(limit, worlds[k], id, actions[j].at, d)
    decreases k - j
  {
    RunAt(limit, worlds, actions, k - 1);
    hide IsRun, Act, Enabled;
    if k == j + 1 {
      TimelyFirst(limit, worlds[j], actions[j], d);
    } else {
      UnackedBefore(limit, worlds, actions, j, k, id);
      TimelyRun(limit, worlds, actions, j, k - 1, id, d);
      Lifecycle(limit, worlds, actions, k - 1, id);
      hide Unacked, Timely, IdOk;
      TimelyStep(limit, worlds[k - 1], actions[k - 1], id, actions[j].at, d);
    }
  }

  lemma TimelyFirst(limit: nat, w: World, a: Action, d: nat)
    requires limit >= 1 && a.Track? && Enabled(limit, w, a)
    ensures Timely(limit, Act(limit, w, a), a.id, a.at, d)
  {
    DueByNext(a.at, 0, d);
  }

  lemma RunAt(limit: nat, worlds: seq<World>, actions: seq<Action>, i: nat)
    requires IsRun(limit, worlds, actions) && i < |actions|
    ensures Enabled(limit, worlds[i], actions[i]) && worlds[i + 1] == Act(limit, worlds[i], actions[i])
  {
    hide Enabled, Act;
    var a := actions[i];
  }

  /** With passes that are over at most d seconds after an entry falls due, an entry never acknowledged is given up by
      send + 2^N - 1 + N * d: at any later time it is dead-lettered, and it was in time. */
  lemma GivenUpBy(limit: nat, worlds: seq<World>, actions: seq<Action>, j: nat, k: nat, id: MsgId, d: nat)
    requires Unacked(limit, worlds, actions, j, k, id) && Prompt(worlds, id, j, k, d)
    ensures var latest := actions[j].at + Shift(limit) - 1 + limit * d;
            && (worlds[k].now > latest ==> id in worlds[k].dead)
            && (id in worlds[k].dead ==> worlds[k].dead[id].0 <= latest)
  {
    TimelyRun(limit, worlds, actions, j, k, id, d);
    hide Unacked, Prompt, Shift, Timely;
    TimelyMeans(limit, worlds[k], id, actions[j].at, d);
  }

  lemma TimelyMeans(limit: nat, w: World, id: MsgId, sent: int, d: nat)
    requires limit >= 1 && Timely(limit, w, id, sent, d)
    ensures var latest := sent + Shift(limit) - 1 + limit * d;
            && (w.now > latest ==> id in w.dead) && (id in w.dead ==> w.dead[id].0 <= latest)
  {
    assert (limit - 1) * d + d == limit * d;
    assert DueBy(sent, limit - 1, d) + d == sent + Shift(limit) - 1 + limit * d;
    hide Shift, DueBy;
    if id in w.pending {
      DueByGrows(sent, w.pending[id].retryCount, limit - 1, d);
    }
  }

  /** For the gateway's three retries: by seven seconds and three times d. */
  lemma GivenUpInNumbers(worlds: seq<World>, actions: seq<Action>, j: nat, k: nat, id: MsgId, d: nat)
    requires Unacked(MAX_RETRIES, worlds, actions, j, k, id) && Prompt(worlds, id, j, k, d)
    ensures worlds[k].now > actions[j].at + 7 + 3 * d ==> id in worlds[k].dead
    ensures id in worlds[k].dead ==> worlds[k].dead[id].0 <= actions[j].at + 7 + 3 * d
  {
    GivenUpBy(MAX_RETRIES, worlds, actions, j, k, id, d);
    ShiftNumbers();
    hide Unacked, Prompt, Shift;
  }

  lemma TallyFirst(limit: nat, worlds: seq<World>, actions: seq<Action>, i: nat)
    requires limit >= 1 && IsRun(limit, worlds, actions) && i < |actions| && actions[i].Track?
    ensures Tally(limit, worlds[i + 1], actions[i].id, 0)
  {
    hide Tally, Act, Enabled;
    TallyStart(limit, worlds[i], actions[i]);
  }

  lemma TallyNext(limit: nat, worlds: seq<World>, actions: seq<Action>, i: nat, id: MsgId, n: nat)
    requires limit >= 1 && IsRun(limit, worlds, actions) && i < |actions|
    requires Tally(limit, worlds[i], id, n) && actions[i] != Ack(id)
    ensures Tally(limit, worlds[i + 1], id,
                  n + if actions[i].Poll? && IsDue(limit, worlds[i], actions[i], id) then 1 else 0)
  {
    hide Tally, Act, Enabled, IdOk, IsDue;
    Lifecycle(limit, worlds, actions, i, id);
    TallyStep(limit, worlds[i], actions[i], id, n);
  }

  /** One action, seen from a pending entry that is not acknowledged. */
  lemma NextEntry(limit: nat, w: World, a: Action, id: MsgId)
    requires Enabled(limit, w, a) && IdOk(limit, w, id) && a != Ack(id) && (id in w.pending || id in w.dead)
    ensures var w' := Act(limit, w, a);
            if id !in w.pending then id in w'.dead && id !in w'.pending
            else var n := w.pending[id].retryCount + (if a.Poll? && IsDue(limit, w, a, id) then 1 else 0);
                 if n < limit then id in w'.pending && w'.pending[id].retryCount == n
                 else id in w'.dead && id !in w'.pending
  {
    if a.Poll? {
      PollAt(limit, w, a, id);
      MarkedAt(limit, w, a, id);
      hide Act, Enabled, Marked, Shift;
    }
  }

  // ---------- Progress ----------

  /** Retries still to come. */
  ghost function Left(limit: nat, p: Table): nat
    decreases |p|
  {
    if p == map[] then 0 else
    var id := Pick(p);
    (if p[id].retryCount < limit then limit - p[id].retryCount else 0) + Left(limit, p - {id})
  }

  lemma {:induction false} LeftSplit(limit: nat, p: Table, id: MsgId)
    requires id in p
    ensures Left(limit, p) == (if p[id].retryCount < limit then limit - p[id].retryCount else 0) + Left(limit, p - {id})
    decreases |p|
  {
    var v := Pick(p);
    if v != id {
      LeftSplit(limit, p - {v}, id);
      LeftSplit(limit, p - {id}, v);
      assert p - {v} - {id} == p - {id} - {v};
    }
  }

  /** Every single mark of a due entry uses up one retry. */
  lemma MarkUsesOne(limit: nat, p: Table, id: MsgId, now: int)
    requires id in p && p[id].retryCount < limit
    ensures Left(limit, MarkDone(limit, p, id, now)) + 1 == Left(limit, p)
  {
    var p' := MarkDone(limit, p, id, now);
    LeftSplit(limit, p, id);
    LeftSplit(limit, p', id);
    assert p' - {id} == p - {id};
  }

  lemma {:induction false} MarksUseAll(limit: nat, p: Table, ids: seq<MsgId>, times: seq<int>)
    requires |ids| == |times| && (forall i, j :: 0 <= i < j < |ids| ==> ids[i] != ids[j])
    requires forall i :: 0 <= i < |ids| ==> ids[i] in p && p[ids[i]].retryCount < limit
    ensures Left(limit, MarkAll(limit, p, ids, times)) + |ids| == Left(limit, p)
    decreases |ids|
  {
    if ids != [] {
      var n := |ids| - 1;
      MarksUseAll(limit, p, ids[..n], times[..n]);
      MarkAllPointwise(limit, p, ids[..n], times[..n], ids[n]);
      assert ids[n] !in ids[..n];
      MarkUsesOne(limit, MarkAll(limit, p, ids[..n], times[..n]), ids[n], times[n]);
    }
  }

  lemma {:induction false} DrainKeepsLeft(limit: nat, p: Table)
    ensures Left(limit, Alive(limit, p)) == Left(limit, p)
    decreases |p|
  {
    if p != map[] {
      var id := Pick(p);
      DrainKeepsLeft(limit, p - {id});
      if p[id].retryCount < limit {
        LeftSplit(limit, Alive(limit, p), id);
        assert Alive(limit, p) - {id} == Alive(limit, p - {id});
      } else {
        assert Alive(limit, p) == Alive(limit, p - {id});
      }
    }
  }

  /** The sum of limit - retry_count over the pending entries falls by one for every due retry of a pass. */
  lemma PollUsesRetries(limit: nat, w: World, a: Action)
    requires a.Poll? && Enabled(limit, w, a)
    ensures Left(limit, Act(limit, w, a).pending) + |a.ids| == Left(limit, w.pending)
  {
    MarksUseAll(limit, w.pending, a.ids, a.times);
    DrainKeepsLeft(limit, MarkAll(limit, w.pending, a.ids, a.times));
  }

  /** After a pass nothing pending has exhausted its retries, so `purgeExpired` finds nothing to remove. */
  lemma NothingToPurge(limit: nat, p: Table, ids: seq<MsgId>, times: seq<int>, now: int)
    requires |ids| == |times|
    ensures var left := Alive(limit, MarkAll(limit, p, ids, times)); Purge(limit, left, now) == left
  {
  }
}
