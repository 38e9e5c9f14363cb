/** Offline mailboxes in Redis: the scripts of `pushMessage` and `drainPendingUsers`, the LPOP loop of `popMessages`
    (gateway/src/RedisClient.cpp) and the pass that uses them, `pushOfflineMessages` (gateway/src/EpollServer.cpp).
    Every script or command is one atomic step of any number of gateways. */
module Mailbox {
  import opened Maps

  type User = string
  type Msg = string

  /** `pushed` and `popped` are histories; a pop records which gateway got the message. */
  datatype Store = Store(queues: map<User, seq<Msg>>, pending: set<User>,
                         pushed: seq<(User, Msg)>, popped: seq<(nat, User, Msg)>)
  {
    /** A list key that does not exist reads as empty. */
    function Queue(u: User): seq<Msg> {
      if u in queues then queues[u] else []
    }
  }

  /** RPUSH and SADD in one script. */
  function Push(s: Store, u: User, m: Msg): Store {
    if u == "" then s else
    s.(queues := s.queues[u := s.Queue(u) + [m]], pending := s.pending + {u}, pushed := s.pushed + [(u, m)])
  }

  /** SMEMBERS and DEL in one script. */
  function Drain(s: Store): Store {
    s.(pending := {})
  }

  /** LPOP; a list that becomes empty is removed. */
  function Pop(s: Store, g: nat, u: User): Store {
    var q := s.Queue(u);
    if q == [] then s else
    s.(queues := if |q| == 1 then s.queues - {u} else s.queues[u := q[1..]], popped := s.popped + [(g, u, q[0])])
  }

  // ---------- The client methods ----------

  class Redis {
    var queues: map<User, seq<Msg>>
    var pending: set<User>
    ghost var pushed: seq<(User, Msg)>
    ghost var popped: seq<(nat, User, Msg)>

    ghost function State(): Store
      reads this
    {
      Store(queues, pending, pushed, popped)
    }

    constructor ()
      ensures State() == EMPTY
    {
      queues, pending, pushed, popped := map[], {}, [], [];
    }

    method PushMessage(target: User, msg: Msg) returns (ok: bool)
      modifies this
      ensures State() == Push(old(State()), target, msg) && ok == (target != "")
    {
      if target == "" { return false; }
      queues := queues[target := (if target in queues then queues[target] else []) + [msg]];
      pending := pending + {target};
      pushed := pushed + [(target, msg)];
      return true;
    }

    /** The order of SMEMBERS is arbitrary, but every member comes once. */
    method DrainPendingUsers() returns (users: seq<User>)
      modifies this
      ensures State() == Drain(old(State())) && Lists(users, old(pending))
    {
      users := [];
      var left := pending;
      ghost var taken: set<User> := {};
      while left != {}
        modifies {}
        invariant Lists(users, taken) && taken !! left && taken + left == pending
        decreases left
      {
        hide Lists;
        var u :| u in left;
        ListOneMore(users, taken, u);
        users, left, taken := users + [u], left - {u}, taken + {u};
      }
      pending := {};
    }

    method Lpop(ghost g: nat, u: User) returns (found: bool, msg: Msg)
      modifies this
      ensures State() == Pop(old(State()), g, u)
      ensures found == (old(State()).Queue(u) != []) && (found ==> msg == old(State()).Queue(u)[0])
    {
      if u !in queues || queues[u] == [] { return false, ""; }
      var q := queues[u];
      queues := if |q| == 1 then queues - {u} else queues[u := q[1..]];
      popped := popped + [(g, u, q[0])];
      return true, q[0];
    }

    /** Undisturbed, the LPOP loop takes the whole queue in order and touches no other. */
    method PopMessages(ghost g: nat, target: User) returns (msgs: seq<Msg>)
      modifies this
      ensures State() == PopAll(old(State()), g, target)
      ensures target != "" ==> msgs == old(State()).Queue(target) && State().Queue(target) == []
      ensures target == "" ==> msgs == [] && State() == old(State())
      ensures forall u :: u != target ==> State().Queue(u) == old(State()).Queue(u)
      ensures pending == old(pending) && pushed == old(pushed)
      ensures PoppedFrom(popped, target) == PoppedFrom(old(popped), target) + msgs
    {
      msgs := [];
      ghost var start := State();
      PopAllEmpties(start, g, target);
      if target == "" { return; }
      hide PoppedFrom, Pop, Store.Queue, PopAll;
      while true
        invariant PopAll(State(), g, target) == PopAll(start, g, target)
        invariant msgs + State().Queue(target) == start.Queue(target)
        decreases |State().Queue(target)|
      {
        ghost var before := State();
        PopAllStep(before, g, target);
        var found, msg := Lpop(g, target);
        if !found { break; }
        Regroup(msgs, [msg], State().Queue(target));
        msgs := msgs + [msg];
      }
    }

    /** Undisturbed, one pass empties every mailbox that was marked pending. */
    method PushOfflineMessages(ghost g: nat) returns (delivered: seq<(User, seq<Msg>)>)
      modifies this
      ensures pending == {} && pushed == old(pushed)
      ensures forall u :: u != "" && u in old(pending) ==> State().Queue(u) == []
      ensures forall u :: u !in old(pending) ==> State().Queue(u) == old(State()).Queue(u)
      ensures forall i :: 0 <= i < |delivered| && delivered[i].0 != "" ==>
                delivered[i].0 in old(pending) && delivered[i].1 == old(State()).Queue(delivered[i].0)
      ensures |delivered| == |old(pending)|
      ensures forall i, j :: 0 <= i < j < |delivered| ==> delivered[i].0 != delivered[j].0
    {
      delivered := [];
      ghost var start := State();
      var users := DrainPendingUsers();
      hide Serve, Drain, PopAll, Delivers, Lists, PoppedFrom;
      NothingServed(start, g, users);
      for i := 0 to |users|
        invariant State() == Serve(Drain(start), g, users[..i]) && |delivered| == i && Delivers(delivered, users, start)
      {
        ServeNext(start, g, users, i);
        var msgs := PopMessages(g, users[i]);
        DeliversNext(delivered, users, start, msgs);
        delivered := delivered + [(users[i], msgs)];
      }
      assert users[..|users|] == users;
      ServedAll(start, g, users);
      DeliveredAll(delivered, users, start);
    }
  }

  /** The batches delivered so far are those of the first users, each with its whole mailbox. */
  ghost predicate Delivers(delivered: seq<(User, seq<Msg>)>, users: seq<User>, s: Store) {
    |delivered| <= |users| &&
    forall j :: 0 <= j < |delivered| ==>
      delivered[j].0 == users[j] && (users[j] != "" ==> delivered[j].1 == s.Queue(users[j]))
  }

  lemma NothingServed(s: Store, g: nat, users: seq<User>)
    ensures Serve(Drain(s), g, users[..0]) == Drain(s) && Delivers([], users, s)
  {
    hide Drain;
  }

  lemma DeliversNext(delivered: seq<(User, seq<Msg>)>, users: seq<User>, s: Store, msgs: seq<Msg>)
    requires Delivers(delivered, users, s) && |delivered| < |users|
    requires users[|delivered|] != "" ==> msgs == s.Queue(users[|delivered|])
    ensures Delivers(delivered + [(users[|delivered|], msgs)], users, s)
  {
  }

  lemma DeliveredAll(delivered: seq<(User, seq<Msg>)>, users: seq<User>, s: Store)
    requires Lists(users, s.pending) && Delivers(delivered, users, s) && |delivered| == |users|
    ensures |delivered| == |s.pending|
    ensures forall i :: 0 <= i < |delivered| && delivered[i].0 != "" ==>
              delivered[i].0 in s.pending && delivered[i].1 == s.Queue(delivered[i].0)
    ensures forall i, j :: 0 <= i < j < |delivered| ==> delivered[i].0 != delivered[j].0
    ensures forall u :: u in users <==> u in s.pending
  {
  }

  lemma ServedAll(s: Store, g: nat, users: seq<User>)
    ensures var t := Serve(Drain(s), g, users);
            && t.pending == {} && t.pushed == s.pushed
            && forall u :: t.Queue(u) == if u in users && u != "" then [] else s.Queue(u)
  {
    var t := Serve(Drain(s), g, users);
    hide Serve;
    ServeEmpties(Drain(s), g, users, "");
    forall u ensures t.Queue(u) == if u in users && u != "" then [] else s.Queue(u) {
      ServeEmpties(Drain(s), g, users, u);
    }
  }

  /** The pass has not been at user i yet when its turn comes. */
  lemma ServeNext(s: Store, g: nat, users: seq<User>, i: nat)
    requires i < |users| && Lists(users, s.pending)
    ensures Serve(Drain(s), g, users[..i + 1]) == PopAll(Serve(Drain(s), g, users[..i]), g, users[i])
    ensures Serve(Drain(s), g, users[..i]).Queue(users[i]) == s.Queue(users[i])
  {
    hide Serve, PopAll;
    ServeStep(Drain(s), g, users, i);
    ServeEmpties(Drain(s), g, users[..i], users[i]);
    OneUserMore(users, i);
  }

  lemma OneUserMore(users: seq<User>, i: nat)
    requires i < |users|
    ensures (forall j, k :: 0 <= j < k < |users| ==> users[j] != users[k]) ==> users[i] !in users[..i]
  {
  }

  /** LPOP until the list is empty. */
  ghost function PopAll(s: Store, g: nat, u: User): Store
    decreases |s.Queue(u)|
  {
    if u == "" || s.Queue(u) == [] then s else PopQueue(s, g, u, u); PopAll(Pop(s, g, u), g, u)
  }

  lemma PopAllStep(s: Store, g: nat, u: User)
    requires u != ""
    ensures PopAll(s, g, u) == if s.Queue(u) == [] then s else PopAll(Pop(s, g, u), g, u)
    ensures s.Queue(u) != [] ==> s.Queue(u) == [s.Queue(u)[0]] + Pop(s, g, u).Queue(u)
  {
    if s.Queue(u) != [] {
      PopQueue(s, g, u, u);
    }
    hide Pop;
  }

  lemma {:induction false} PopAllEmpties(s: Store, g: nat, u: User)
    ensures var t := PopAll(s, g, u);
            && t.pending == s.pending && t.pushed == s.pushed && (u != "" ==> t.Queue(u) == [])
            && PoppedFrom(t.popped, u) == PoppedFrom(s.popped, u) + (if u != "" then s.Queue(u) else [])
            && forall v :: v != u ==> t.Queue(v) == s.Queue(v)
    decreases |s.Queue(u)|
  {
    if u != "" && s.Queue(u) != [] {
      var q, next := s.Queue(u), Pop(s, g, u);
      forall v ensures s.Queue(v) == (if v == u then [q[0]] else []) + next.Queue(v)
        ensures next.pending == s.pending && next.pushed == s.pushed && next.popped == s.popped + [(g, u, q[0])]
      {
        PopQueue(s, g, u, v);
      }
      PoppedAppend(s.popped, (g, u, q[0]), u);
      hide Pop, PoppedFrom;
      PopAllEmpties(next, g, u);
      Regroup(PoppedFrom(s.popped, u), [q[0]], next.Queue(u));
    }
  }

  /** The pass over the drained users. */
  ghost function Serve(s: Store, g: nat, users: seq<User>): Store {
    if users == [] then s else PopAll(Serve(s, g, users[..|users| - 1]), g, users[|users| - 1])
  }

  lemma ServeStep(s: Store, g: nat, users: seq<User>, i: nat)
    requires i < |users|
    ensures Serve(s, g, users[..i + 1]) == PopAll(Serve(s, g, users[..i]), g, users[i])
  {
    hide PopAll;
    assert users[..i + 1][..i] == users[..i];
  }

  lemma {:induction false} ServeEmpties(s: Store, g: nat, users: seq<User>, u: User)
    ensures var t := Serve(s, g, users);
            && t.pending == s.pending && t.pushed == s.pushed
            && t.Queue(u) == if u in users && u != "" then [] else s.Queue(u)
  {
    if users != [] {
      var most, last := users[..|users| - 1], users[|users| - 1];
      assert u in users <==> u in most || u == last;
      ServeEmpties(s, g, most, u);
      PopAllEmpties(Serve(s, g, most), g, last);
      hide PopAll;
    }
  }

  const EMPTY: Store := Store(map[], {}, [], [])

  /** `users` lists the set without repetition. */
  ghost predicate Lists(users: seq<User>, members: set<User>) {
    && |users| == |members|
    && (forall i, j :: 0 <= i < j < |users| ==> users[i] != users[j])
    && (forall u :: u in users <==> u in members)
  }

  // ---------- Interleavings ----------

  /** `todo[g]` is what gateway g drained and has not finished; it is at the LPOP loop of the first name. */
  datatype World = World(store: Store, todo: seq<seq<User>>)

  datatype Action = DoPush(u: User, m: Msg) | DoDrain(g: nat, order: seq<User>) | DoPop(g: nat)

  ghost predicate Enabled(w: World, a: Action) {
    match a
    case DoPush(_, _) => true
    case DoDrain(g, order) => g < |w.todo| && w.todo[g] == [] && Lists(order, w.store.pending)
    case DoPop(g) => g < |w.todo| && w.todo[g] != []
  }

  ghost function Act(w: World, a: Action): World
    requires Enabled(w, a)
  {
    match a
    case DoPush(u, m) => w.(store := Push(w.store, u, m))
    case DoDrain(g, order) => World(Drain(w.store), w.todo[g := order])
    case DoPop(g) =>
      var u := w.todo[g][0];
      if w.store.Queue(u) == [] then w.(todo := w.todo[g := w.todo[g][1..]]) else w.(store := Pop(w.store, g, u))
  }

  /** Any number of gateways, started idle on an empty Redis. */
  ghost predicate IsRun(worlds: seq<World>, actions: seq<Action>) {
    && |worlds| == |actions| + 1
    && worlds[0].store == EMPTY && (forall g :: 0 <= g < |worlds[0].todo| ==> worlds[0].todo[g] == [])
    && forall i {:trigger actions[i]} :: 0 <= i < |actions| ==>
         Enabled(worlds[i], actions[i]) && worlds[i + 1] == Act(worlds[i], actions[i])
  }

  ghost predicate OnSomeList(w: World, u: User) {
    exists g :: 0 <= g < |w.todo| && u in w.todo[g]
  }

  ghost predicate NoneStranded(w: World) {
    forall u :: w.store.Queue(u) != [] ==> u in w.store.pending || OnSomeList(w, u)
  }

  // ---------- No stranded mailbox ----------

  lemma StaysOnList(w: World, g: nat, list: seq<User>, u: User)
    requires g < |w.todo| && OnSomeList(w, u) && (u in w.todo[g] ==> u in list)
    ensures OnSomeList(w.(todo := w.todo[g := list]), u)
  {
    var h :| 0 <= h < |w.todo| && u in w.todo[h];
    assert u in w.todo[g := list][h];
  }

  lemma ActStrandsNone(w: World, a: Action)
    requires Enabled(w, a) && NoneStranded(w)
    ensures NoneStranded(Act(w, a))
  {
    var w' := Act(w, a);
    forall u | w'.store.Queue(u) != [] ensures u in w'.store.pending || OnSomeList(w', u) {
      match a
      case DoPush(_, _) =>
        if OnSomeList(w, u) {
          var h :| 0 <= h < |w.todo| && u in w.todo[h];
          assert u in w'.todo[h];
        }
      case DoDrain(g, order) =>
        if u in w.store.pending {
          assert u in w'.todo[g];
        } else {
          StaysOnList(w, g, order, u);
        }
      case DoPop(g) =>
        assert w.store.Queue(u) != [];
        if OnSomeList(w, u) {
          if w.store.Queue(w.todo[g][0]) == [] {
            StaysOnList(w, g, w.todo[g][1..], u);
          } else {
            StaysOnList(w, g, w.todo[g], u);
          }
        }
    }
  }

  /** In every reachable state a non-empty queue is marked pending or on some gateway's list. */
  lemma {:induction false} NoStrandedMailbox(worlds: seq<World>, actions: seq<Action>, k: nat)
    requires IsRun(worlds, actions) && k < |worlds|
    ensures NoneStranded(worlds[k])
  {
    if k > 0 {
      NoStrandedMailbox(worlds, actions, k - 1);
      assert Enabled(worlds[k - 1], actions[k - 1]) && worlds[k - 1 + 1] == Act(worlds[k - 1], actions[k - 1]);
      ActStrandsNone(worlds[k - 1], actions[k - 1]);
    }
  }

  // ---------- Exactly once, in order ----------

  lemma ListOneMore(users: seq<User>, members: set<User>, u: User)
    requires Lists(users, members) && u !in members
    ensures Lists(users + [u], members + {u})
  {
  }

  function PushedTo(history: seq<(User, Msg)>, u: User): seq<Msg>
    decreases |history|
  {
    if history == [] then [] else
    var last := history[|history| - 1];
    PushedTo(history[..|history| - 1], u) + if last.0 == u then [last.1] else []
  }

  function PoppedFrom(history: seq<(nat, User, Msg)>, u: User): seq<Msg>
    decreases |history|
  {
    if history == [] then [] else
    var last := history[|history| - 1];
    PoppedFrom(history[..|history| - 1], u) + if last.1 == u then [last.2] else []
  }

  /** What gateway `g` took from u's mailbox. */
  function Batch(history: seq<(nat, User, Msg)>, g: nat, u: User): seq<Msg>
    decreases |history|
  {
    if history == [] then [] else
    var last := history[|history| - 1];
    Batch(history[..|history| - 1], g, u) + if last.0 == g && last.1 == u then [last.2] else []
  }

  lemma PushedAppend(history: seq<(User, Msg)>, e: (User, Msg), u: User)
    ensures PushedTo(history + [e], u) == PushedTo(history, u) + if e.0 == u then [e.1] else []
  {
    assert (history + [e])[..|history|] == history;
  }

  lemma PoppedAppend(history: seq<(nat, User, Msg)>, e: (nat, User, Msg), u: User)
    ensures PoppedFrom(history + [e], u) == PoppedFrom(history, u) + if e.1 == u then [e.2] else []
  {
    assert (history + [e])[..|history|] == history;
  }

  ghost predicate Fifo(s: Store, u: User) {
    PushedTo(s.pushed, u) == PoppedFrom(s.popped, u) + s.Queue(u)
  }

  lemma PushQueue(s: Store, v: User, m: Msg, u: User)
    requires v != ""
    ensures Push(s, v, m).Queue(u) == s.Queue(u) + if u == v then [m] else []
    ensures Push(s, v, m).pushed == s.pushed + [(v, m)] && Push(s, v, m).popped == s.popped
  {
  }

  lemma PushFifo(s: Store, v: User, m: Msg, u: User)
    requires Fifo(s, u)
    ensures Fifo(Push(s, v, m), u)
  {
    hide PushedTo, PoppedFrom;
    if v != "" {
      PushQueue(s, v, m, u);
      PushedAppend(s.pushed, (v, m), u);
      hide Push;
      Regroup(PoppedFrom(s.popped, u), s.Queue(u), if u == v then [m] else []);
    }
  }

  lemma Regroup<T>(a: seq<T>, b: seq<T>, c: seq<T>)
    ensures (a + b) + c == a + (b + c)
  {
  }

  /** LPOP moves the head of the queue to the end of the history. */
  lemma PopQueue(s: Store, g: nat, v: User, u: User)
    requires s.Queue(v) != []
    ensures var t, q := Pop(s, g, v), s.Queue(v);
            && t.pushed == s.pushed && t.popped == s.popped + [(g, v, q[0])]
            && t.pending == s.pending && s.Queue(u) == (if u == v then [q[0]] else []) + t.Queue(u)
  {
  }

  lemma PopFifo(s: Store, g: nat, v: User, u: User)
    requires Fifo(s, u)
    ensures Fifo(Pop(s, g, v), u)
  {
    hide PushedTo, PoppedFrom;
    var q := s.Queue(v);
    if q != [] {
      PopQueue(s, g, v, u);
      PoppedAppend(s.popped, (g, v, q[0]), u);
      var t := Pop(s, g, v);
      hide Pop;
      Regroup(PoppedFrom(s.popped, u), if u == v then [q[0]] else [], t.Queue(u));
    }
  }

  lemma ActFifo(w: World, a: Action, u: User)
    requires Enabled(w, a) && Fifo(w.store, u)
    ensures Fifo(Act(w, a).store, u)
  {
    hide Push, Pop;
    match a
    case DoPush(v, m) => PushFifo(w.store, v, m, u);
    case DoDrain(_, _) =>
    case DoPop(g) => PopFifo(w.store, g, w.todo[g][0], u);
  }

  /** The push history of a mailbox is what all gateways popped from it, in LPOP order, followed by the queue. */
  lemma {:induction false} ExactlyOnceFifo(worlds: seq<World>, actions: seq<Action>, k: nat, u: User)
    requires IsRun(worlds, actions) && k < |worlds|
    ensures var s := worlds[k].store; PushedTo(s.pushed, u) == PoppedFrom(s.popped, u) + s.Queue(u)
  {
    FifoAt(worlds, actions, k, u);
  }

  lemma {:induction false} FifoAt(worlds: seq<World>, actions: seq<Action>, k: nat, u: User)
    requires IsRun(worlds, actions) && k < |worlds|
    ensures Fifo(worlds[k].store, u)
  {
    if k > 0 {
      RunAt(worlds, actions, k - 1);
      hide IsRun, Act, Enabled, Fifo;
      FifoAt(worlds, actions, k - 1, u);
      ActFifo(worlds[k - 1], actions[k - 1], u);
    }
  }

  /** What the run's pushes offer to a mailbox; an empty name is refused. */
  function OfferedTo(actions: seq<Action>, u: User): seq<Msg>
    decreases |actions|
  {
    if actions == [] || u == "" then [] else
    OfferedTo(actions[..|actions| - 1], u) +
    match actions[|actions| - 1] case DoPush(v, m) => (if v == u then [m] else []) case _ => []
  }

  lemma ActOffers(w: World, a: Action, u: User)
    requires Enabled(w, a)
    ensures PushedTo(Act(w, a).store.pushed, u) ==
            PushedTo(w.store.pushed, u) +
            match a case DoPush(v, m) => (if v == u && u != "" then [m] else []) case _ => []
  {
    hide PushedTo;
    match a
    case DoPush(v, m) =>
      if v != "" {
        PushQueue(w.store, v, m, u);
        PushedAppend(w.store.pushed, (v, m), u);
        hide Push;
      }
    case DoDrain(_, _) =>
    case DoPop(g) =>
      var v := w.todo[g][0];
      if w.store.Queue(v) != [] {
        PopQueue(w.store, g, v, v);
        hide Pop;
      }
  }

  lemma {:induction false} HistoryIsOffers(worlds: seq<World>, actions: seq<Action>, k: nat, u: User)
    requires IsRun(worlds, actions) && k < |worlds|
    ensures PushedTo(worlds[k].store.pushed, u) == OfferedTo(actions[..k], u)
  {
    if k > 0 {
      RunAt(worlds, actions, k - 1);
      hide IsRun, Act, Enabled, PushedTo, OfferedTo;
      HistoryIsOffers(worlds, actions, k - 1, u);
      ActOffers(worlds[k - 1], actions[k - 1], u);
      OfferedNext(actions, k - 1, u);
    }
  }

  lemma RunAt(worlds: seq<World>, actions: seq<Action>, i: nat)
    requires IsRun(worlds, actions) && i < |actions|
    ensures Enabled(worlds[i], actions[i]) && worlds[i + 1] == Act(worlds[i], actions[i])
  {
    hide Enabled, Act;
    var a := actions[i];
  }

  lemma OfferedNext(actions: seq<Action>, i: nat, u: User)
    requires i < |actions|
    ensures OfferedTo(actions[..i + 1], u) == OfferedTo(actions[..i], u) +
            match actions[i] case DoPush(v, m) => (if v == u && u != "" then [m] else []) case _ => []
  {
    assert actions[..i + 1][..i] == actions[..i];
  }

  /** End to end: the messages pushed for a user are those popped from the mailbox, in order, and those still queued. */
  lemma PushedIsPoppedOrQueued(worlds: seq<World>, actions: seq<Action>, k: nat, u: User)
    requires IsRun(worlds, actions) && k < |worlds|
    ensures var s := worlds[k].store; OfferedTo(actions[..k], u) == PoppedFrom(s.popped, u) + s.Queue(u)
  {
    HistoryIsOffers(worlds, actions, k, u);
    ExactlyOnceFifo(worlds, actions, k, u);
    hide IsRun, PushedTo, PoppedFrom;
  }

  /** `a` is `b` with some elements left out. */
  ghost predicate Subsequence<T>(a: seq<T>, b: seq<T>)
    decreases |b|
  {
    a == [] ||
    (b != [] && ((a[|a| - 1] == b[|b| - 1] && Subsequence(a[..|a| - 1], b[..|b| - 1])) || Subsequence(a, b[..|b| - 1])))
  }

  lemma SubsequenceExtends<T>(a: seq<T>, b: seq<T>, tail: seq<T>)
    requires Subsequence(a, b)
    ensures Subsequence(a, b + tail)
    decreases |tail|
  {
    if tail == [] {
      assert b + tail == b;
    } else {
      SubsequenceExtends(a, b, tail[..|tail| - 1]);
      assert (b + tail)[..|b + tail| - 1] == b + tail[..|tail| - 1];
    }
  }

  lemma {:induction false} BatchOfPopped(history: seq<(nat, User, Msg)>, g: nat, u: User)
    ensures Subsequence(Batch(history, g, u), PoppedFrom(history, u))
    decreases |history|
  {
    if history != [] {
      var init, last := history[..|history| - 1], history[|history| - 1];
      var a, b := Batch(init, g, u), PoppedFrom(init, u);
      BatchOfPopped(init, g, u);
      if last.1 == u {
        SubsequenceExtends(a, b, [last.2]);
        assert (a + [last.2])[..|a|] == a && (b + [last.2])[..|b|] == b;
        assert a + [] == a;
      } else {
        assert a + [] == a && b + [] == b;
      }
    }
  }

  /** Each gateway sees an in-order subsequence of the mailbox's history. */
  lemma BatchInOrder(worlds: seq<World>, actions: seq<Action>, k: nat, g: nat, u: User)
    requires IsRun(worlds, actions) && k < |worlds|
    ensures Subsequence(Batch(worlds[k].store.popped, g, u), PushedTo(worlds[k].store.pushed, u))
  {
    var s := worlds[k].store;
    ExactlyOnceFifo(worlds, actions, k, u);
    BatchOfPopped(s.popped, g, u);
    SubsequenceExtends(Batch(s.popped, g, u), PoppedFrom(s.popped, u), s.Queue(u));
  }

  // ---------- The passes run dry ----------

  ghost function Queued(m: map<User, seq<Msg>>): nat
    decreases |m|
  {
    if m == map[] then 0 else var u := Pick(m); |m[u]| + Queued(m - {u})
  }

  lemma {:induction false} QueuedSplit(m: map<User, seq<Msg>>, u: User)
    requires u in m
    ensures Queued(m) == |m[u]| + Queued(m - {u})
    decreases |m|
  {
    var v := Pick(m);
    if v != u {
      QueuedSplit(m - {v}, u);
      QueuedSplit(m - {u}, v);
      assert m - {v} - {u} == m - {u} - {v};
    }
  }

  lemma PopQueued(s: Store, g: nat, u: User)
    requires s.Queue(u) != []
    ensures Queued(Pop(s, g, u).queues) + 1 == Queued(s.queues)
  {
    var m, m' := s.queues, Pop(s, g, u).queues;
    QueuedSplit(m, u);
    if u in m' {
      QueuedSplit(m', u);
      assert m' - {u} == m - {u};
    }
  }

  ghost function Listed(todo: seq<seq<User>>): nat {
    if todo == [] then 0 else |todo[0]| + Listed(todo[1..])
  }

  lemma {:induction false} ListedUpdate(todo: seq<seq<User>>, g: nat, list: seq<User>)
    requires g < |todo|
    ensures Listed(todo[g := list]) + |todo[g]| == Listed(todo) + |list|
    decreases |todo|
  {
    if g > 0 {
      assert todo[g := list][1..] == todo[1..][g - 1 := list];
      ListedUpdate(todo[1..], g - 1, list);
    } else {
      assert todo[g := list][1..] == todo[1..];
    }
  }

  /** Queued messages plus list entries, where a pending mark counts for the entry it will become and the drain. */
  ghost function Work(w: World): nat {
    2 * |w.store.pending| + Listed(w.todo) + Queued(w.store.queues)
  }

  /** An idle poll: nothing pending, nothing done. */
  ghost predicate Idle(w: World, a: Action) {
    a.DoDrain? && w.store.pending == {}
  }

  lemma ActWorks(w: World, a: Action)
    requires Enabled(w, a) && !a.DoPush?
    ensures if Idle(w, a) then Act(w, a) == w else Work(Act(w, a)) < Work(w)
  {
    match a
    case DoDrain(g, order) =>
      ListedUpdate(w.todo, g, order);
      if w.store.pending == {} {
        assert w.todo[g := []] == w.todo;
      } else {
        var u :| u in w.store.pending;
        assert |w.store.pending - {u}| < |w.store.pending|;
      }
    case DoPop(g) =>
      if w.store.Queue(w.todo[g][0]) == [] {
        ListedUpdate(w.todo, g, w.todo[g][1..]);
      } else {
        PopQueued(w.store, g, w.todo[g][0]);
      }
  }

  /** The actions of a run from position `k` on that are not idle polls. */
  ghost function Effective(worlds: seq<World>, actions: seq<Action>, k: nat): nat
    requires |worlds| == |actions| + 1 && k <= |actions|
    decreases |actions| - k
  {
    if k == |actions| then 0 else (if Idle(worlds[k], actions[k]) then 0 else 1) + Effective(worlds, actions, k + 1)
  }

  /** Once pushes have stopped, no scheduler can keep the gateways busy for more than `Work` steps. */
  lemma {:induction false} PassesTerminate(worlds: seq<World>, actions: seq<Action>, k: nat)
    requires IsRun(worlds, actions) && k <= |actions| && forall i :: k <= i < |actions| ==> !actions[i].DoPush?
    ensures Effective(worlds, actions, k) + Work(worlds[|actions|]) <= Work(worlds[k])
    decreases |actions| - k
  {
    if k < |actions| {
      assert Enabled(worlds[k], actions[k]) && worlds[k + 1] == Act(worlds[k], actions[k]);
      ActWorks(worlds[k], actions[k]);
      PassesTerminate(worlds, actions, k + 1);
    }
  }

  /** And when there is nothing left to do, every mailbox is empty. */
  lemma DryMeansEmpty(worlds: seq<World>, actions: seq<Action>, k: nat)
    requires IsRun(worlds, actions) && k < |worlds|
    requires forall a :: Enabled(worlds[k], a) && !a.DoPush? ==> Idle(worlds[k], a)
    requires worlds[k].todo != []
    ensures forall u :: worlds[k].store.Queue(u) == []
  {
    var w := worlds[k];
    NoStrandedMailbox(worlds, actions, k);
    forall g | 0 <= g < |w.todo| ensures w.todo[g] == [] {
      assert Enabled(w, DoPop(g)) ==> Idle(w, DoPop(g));
    }
    var order := Listing(w.store.pending);
    assert Enabled(w, DoDrain(0, order));
  }

  lemma Listing(members: set<User>) returns (users: seq<User>)
    ensures Lists(users, members)
    decreases members
  {
    if members == {} {
      users := [];
    } else {
      var u :| u in members;
      users := Listing(members - {u});
      users := users + [u];
    }
  }
}
