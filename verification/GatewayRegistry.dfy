/** Gateway discovery, gateway/src/GatewayRegistry.cpp: registrations and heartbeats in Redis, discovery with eviction
    of silent gateways, and the choice of the least loaded one. */
module GatewayRegistry {
  type Id = string

  datatype Node = Node(gatewayId: Id, host: string, port: int, region: string, connections: int, load: real,
                       healthy: bool, lastHeartbeat: int, startedAt: int)

  const HEARTBEAT_TIMEOUT_SECONDS: int := 30
  const NO_NODE: Node := Node("", "", 0, "", 0, 0.0, false, 0, 0)

  predicate Stale(n: Node, now: int) {
    now - n.lastHeartbeat > HEARTBEAT_TIMEOUT_SECONDS
  }

  function CalculateLoad(connections: int, maxConnections: int): real {
    if maxConnections <= 0 then 0.0 else
    var ratio := connections as real / maxConnections as real;
    if ratio < 1.0 then ratio else 1.0
  }

  lemma LoadIsAShare(connections: int, more: int, maxConnections: int)
    requires 0 <= connections <= more
    ensures 0.0 <= CalculateLoad(connections, maxConnections) <= CalculateLoad(more, maxConnections) <= 1.0
    ensures maxConnections > 0 ==>
            (CalculateLoad(connections, maxConnections) == 1.0 <==> connections >= maxConnections)
    ensures 0 < maxConnections && connections <= maxConnections ==>
            CalculateLoad(connections, maxConnections) * maxConnections as real == connections as real
    ensures maxConnections <= 0 ==> CalculateLoad(connections, maxConnections) == 0.0
  {
    if maxConnections > 0 {
      var m := maxConnections as real;
      DivideOrder(0.0, connections as real, m);
      DivideOrder(connections as real, more as real, m);
      DivideOrder(connections as real, m, m);
      DivideOrder(more as real, m, m);
      assert 0.0 / m == 0.0 && m / m == 1.0;
      assert connections as real / m * m == connections as real;
    }
  }

  lemma DivideOrder(a: real, b: real, m: real)
    requires m > 0.0
    ensures a / m <= b / m <==> a <= b
    ensures a / m < b / m <==> a < b
  {
    var x, y := a / m, b / m;
    assert x * m == a && y * m == b;
    if x < y {
      MultiplyOrder(x, y, m);
    } else if y < x {
      MultiplyOrder(y, x, m);
    }
  }

  lemma MultiplyOrder(x: real, y: real, m: real)
    requires x < y && m > 0.0
    ensures x * m < y * m
  {
  }

  // ---------- The methods, one gateway undisturbed ----------

  /** The entries a discovery at time `now` reports. */
  function Fresh(info: map<Id, Node>, active: set<Id>, now: int): (r: map<Id, Node>)
    ensures forall id :: id in r <==> id in active && id in info && now - info[id].lastHeartbeat <= 30
    ensures forall id :: id in r ==> r[id] == info[id].(healthy := true)
  {
    map id | id in active && id in info && !Stale(info[id], now) :: info[id].(healthy := true)
  }

  function Evicted(info: map<Id, Node>, active: set<Id>, now: int): (r: set<Id>)
    ensures forall id :: id in r <==> id in active && id in info && now - info[id].lastHeartbeat > 30
  {
    set id | id in active && id in info && Stale(info[id], now)
  }

  ghost predicate Reports(nodes: seq<Node>, r: map<Id, Node>) {
    && |nodes| == |r|
    && (forall id :: id in r ==> r[id] in nodes)
    && (forall n :: n in nodes ==> exists id :: id in r && r[id] == n)
  }

  class Registry {
    var info: map<Id, Node>
    var active: set<Id>
    var clock: int

    constructor ()
      ensures info == map[] && active == {}
    {
      info, active, clock := map[], {}, 0;
    }

    method Time() returns (now: int)
      modifies `clock
      ensures now == clock >= old(clock)
    {
      var step: nat :| step >= 0;
      clock := clock + step;
      now := clock;
    }

    method RegisterGateway(id: Id, host: string, port: int, region: string)
      modifies this
      ensures clock >= old(clock) && active == old(active) + {id}
      ensures info.Keys == old(info).Keys + {id} && (forall g :: g in old(info) && g != id ==> info[g] == old(info)[g])
      ensures old(clock) <= info[id].lastHeartbeat <= clock && info[id].gatewayId == id && info[id].region == region
      ensures info[id].host == host && info[id].port == port && info[id].load == 0.0
      ensures info[id].connections == 0 && info[id].healthy && old(clock) <= info[id].startedAt <= clock
    {
      var beat := Time();
      var started := Time();
      info := info[id := Node(id, host, port, region, 0, 0.0, true, beat, started)];
      active := active + {id};
    }

    method UnregisterGateway(id: Id)
      modifies `info, `active
      ensures info == old(info) - {id} && active == old(active) - {id}
    {
      active := active - {id};
      info := info - {id};
    }

    /** Rewrites the hash only: a gateway that was evicted does not come back this way. */
    method SendHeartbeat(id: Id, host: string, port: int, region: string, connections: int, load: real)
      modifies `info, `clock
      ensures clock >= old(clock)
      ensures info.Keys == old(info).Keys + {id} && (forall g :: g in old(info) && g != id ==> info[g] == old(info)[g])
      ensures old(clock) <= info[id].lastHeartbeat <= clock && info[id].gatewayId == id && info[id].region == region
      ensures info[id].host == host && info[id].port == port && info[id].load == load &&
              info[id].connections == connections && info[id].healthy
    {
      var beat := Time();
      var started := Time();
      info := info[id := Node(id, host, port, region, connections, load, true, beat, started)];
    }

    method DiscoverGateways() returns (nodes: seq<Node>)
      modifies `active, `clock
      ensures clock >= old(clock)
      ensures Reports(nodes, Fresh(info, old(active), clock))
      ensures active == old(active) - Evicted(info, old(active), clock)
    {
      var now := Time();
      nodes := [];
      var left := active;
      ghost var members := active;
      ghost var seen: map<Id, Node> := map[];
      while left != {}
        modifies `active
        invariant left <= members
        invariant forall id :: id in active <==> id in members && (id in left || id !in Evicted(info, members, now))
        invariant forall id :: id in seen <==> id in Fresh(info, members, now) && id !in left
        invariant forall id :: id in seen ==> seen[id] == Fresh(info, members, now)[id]
        invariant Reports(nodes, seen)
        decreases left
      {
        var id :| id in left;
        left := left - {id};
        if id in info {
          var node := info[id];
          if Stale(node, now) {
            active := active - {id};
          } else {
            node := node.(healthy := true);
            ReportsOneMore(nodes, seen, id, node);
            nodes := nodes + [node];
            seen := seen[id := node];
          }
        }
      }
      assert seen == Fresh(info, members, now);
    }

    method DiscoverGatewaysByRegion(region: string) returns (nodes: seq<Node>, ghost alive: seq<Node>)
      modifies `active, `clock
      ensures clock >= old(clock) && Reports(alive, Fresh(info, old(active), clock))
      ensures active == old(active) - Evicted(info, old(active), clock)
      ensures forall n :: n in nodes <==> n in alive && n.region == region
    {
      var found := DiscoverGateways();
      alive, nodes := found, [];
      for i := 0 to |found|
        invariant forall n :: n in nodes <==> n in found[..i] && n.region == region
      {
        if found[i].region == region {
          nodes := nodes + [found[i]];
        }
      }
    }

    method MinLoad(nodes: seq<Node>) returns (best: Node)
      requires nodes != []
      ensures best in nodes && forall n :: n in nodes ==> best.load <= n.load
    {
      best := nodes[0];
      for i := 1 to |nodes|
        invariant best in nodes && forall j :: 0 <= j < i ==> best.load <= nodes[j].load
      {
        if nodes[i].load < best.load {
          best := nodes[i];
        }
      }
    }

    /** `regional` and `all` are what the one or two discoveries found, at times `t1` and `t2`. */
    method SelectBestGateway(region: string)
      returns (best: Node, ghost alive: seq<Node>, ghost all: seq<Node>, ghost t1: int)
      modifies `active, `clock
      ensures old(clock) <= t1 <= clock && Reports(alive, Fresh(info, old(active), t1))
      ensures (exists n :: n in alive && n.region == region) ==>
                best in alive && best.region == region &&
                forall n :: n in alive && n.region == region ==> best.load <= n.load
      ensures !(exists n :: n in alive && n.region == region) ==>
                && Reports(all, Fresh(info, old(active) - Evicted(info, old(active), t1), clock))
                && (all == [] ==> best == NO_NODE)
                && (all != [] ==> best in all && forall n :: n in all ==> best.load <= n.load)
    {
      hide Reports, Fresh, Evicted;
      var regional;
      regional, alive := DiscoverGatewaysByRegion(region);
      t1, all := clock, alive;
      if regional != [] {
        best := MinLoad(regional);
        return;
      }
      assert forall n :: n in alive && n.region == region ==> n in regional;
      var everywhere := DiscoverGateways();
      all := everywhere;
      if everywhere == [] { return NO_NODE, alive, all, t1; }
      best := MinLoad(everywhere);
    }
  }

  lemma ReportsOneMore(nodes: seq<Node>, r: map<Id, Node>, id: Id, n: Node)
    requires Reports(nodes, r) && id !in r
    ensures Reports(nodes + [n], r[id := n])
  {
    var more := r[id := n];
    forall m | m in nodes + [n] ensures exists g :: g in more && more[g] == m {
      if m in nodes {
        var g :| g in r && r[g] == m;
        assert g in more && more[g] == m;
      } else {
        assert more[id] == m;
      }
    }
  }

  // ---------- Many gateways, command by command ----------

  /** A discovery in progress: the time it last read, the members still to look up, the one found stale and not yet
      removed, and the nodes found. */
  datatype Discovery = Discovery(now: int, todo: seq<Id>, doomed: seq<Id>, found: seq<Node>)

  datatype World = World(info: map<Id, Node>, active: set<Id>, clock: int, ds: seq<Discovery>)

  datatype Action =
    | Store(id: Id, node: Node)        // HSET, by a registration or a heartbeat
    | Join(id: Id)                     // SADD, second half of a registration
    | Leave(id: Id)                    // SREM, first half of an unregistration
    | Erase(id: Id)                    // DEL, its second half
    | Tick(t: int)
    | Begin(d: nat, order: seq<Id>)    // SMEMBERS
    | ReadClock(d: nat)
    | Lookup(d: nat)
    | Remove(d: nat)

  ghost predicate Enabled(w: World, a: Action) {
    match a
    case Store(id, node) => node.gatewayId == id && node.lastHeartbeat <= w.clock
    case Join(_) => true
    case Leave(_) => true
    case Erase(_) => true
    case ReadClock(d) => d < |w.ds|
    case Tick(t) => t >= w.clock
    case Begin(d, order) => d < |w.ds| && w.ds[d].todo == [] && w.ds[d].doomed == [] &&
                            forall id :: id in order <==> id in w.active
    case Lookup(d) => d < |w.ds| && w.ds[d].todo != [] && w.ds[d].doomed == []
    case Remove(d) => d < |w.ds| && w.ds[d].doomed != []
  }

  ghost function Act(w: World, a: Action): World
    requires Enabled(w, a)
  {
    match a
    case Store(id, node) => w.(info := w.info[id := node])
    case Join(id) => w.(active := w.active + {id})
    case Leave(id) => w.(active := w.active - {id})
    case Erase(id) => w.(info := w.info - {id})
    case ReadClock(d) => w.(ds := w.ds[d := w.ds[d].(now := w.clock)])
    case Tick(t) => w.(clock := t)
    case Begin(d, order) => w.(ds := w.ds[d := Discovery(w.clock, order, [], [])])
    case Lookup(d) =>
      var x, id := w.ds[d].(todo := w.ds[d].todo[1..]), w.ds[d].todo[0];
      w.(ds := w.ds[d := if id !in w.info then x
                         else if Stale(w.info[id], x.now) then x.(doomed := [id])
                         else x.(found := x.found + [w.info[id].(healthy := true)])])
    case Remove(d) => w.(active := w.active - {w.ds[d].doomed[0]}, ds := w.ds[d := w.ds[d].(doomed := [])])
  }

  /** One lookup of discovery `d`, with the removal it may decide on. */
  ghost function Visit(w: World, d: nat): World
    requires d < |w.ds| && w.ds[d].todo != [] && w.ds[d].doomed == []
  {
    var t := Act(w, Lookup(d));
    if t.ds[d].doomed == [] then t else Act(t, Remove(d))
  }

  /** The rest of discovery `d`, with no other command in between. */
  ghost function Finish(w: World, d: nat): World
    requires d < |w.ds| && w.ds[d].doomed == []
    decreases |w.ds[d].todo|
  {
    if w.ds[d].todo == [] then w else Finish(Visit(w, d), d)
  }

  function Members(order: seq<Id>): set<Id> {
    set id | id in order
  }

  /** Undisturbed, the commands of a discovery do what `DiscoverGateways` does. */
  lemma {:induction false} Undisturbed(w: World, d: nat)
    requires d < |w.ds| && w.ds[d].doomed == []
    ensures var x, t := w.ds[d], Finish(w, d);
            && d < |t.ds| && t.info == w.info && t.active == w.active - Evicted(w.info, Members(x.todo), x.now)
            && forall n :: n in t.ds[d].found <==> n in x.found || n in Fresh(w.info, Members(x.todo), x.now).Values
    decreases |w.ds[d].todo|
  {
    if w.ds[d].todo != [] {
      VisitOne(w, d);
      Undisturbed(Visit(w, d), d);
    }
  }

  lemma VisitOne(w: World, d: nat)
    requires d < |w.ds| && w.ds[d].todo != [] && w.ds[d].doomed == []
    ensures var x, t := w.ds[d], Visit(w, d); var (id, rest) := (x.todo[0], x.todo[1..]);
            && t.info == w.info && |t.ds| == |w.ds| && t.ds[d] == x.(todo := rest, found := t.ds[d].found)
            && t.active == w.active - Evicted(w.info, {id}, x.now)
            && Members(x.todo) == {id} + Members(rest)
            && var r := Fresh(w.info, {id}, x.now);
               t.ds[d].found == x.found + if id in r then [r[id]] else []
  {
  }

  ghost predicate Sane(w: World) {
    && (forall id :: id in w.info ==> w.info[id].gatewayId == id)
    && (forall d :: 0 <= d < |w.ds| ==> w.ds[d].now <= w.clock && |w.ds[d].doomed| <= 1)
  }

  /** Any number of gateways and discoverers, from any sane state. */
  ghost predicate IsRun(worlds: seq<World>, actions: seq<Action>) {
    && |worlds| == |actions| + 1 && Sane(worlds[0])
    && forall i {:trigger actions[i]} :: 0 <= i < |actions| ==>
         Enabled(worlds[i], actions[i]) && worlds[i + 1] == Act(worlds[i], actions[i])
  }

  lemma RunStep(worlds: seq<World>, actions: seq<Action>, i: nat)
    requires IsRun(worlds, actions) && i < |actions|
    ensures Enabled(worlds[i], actions[i]) && worlds[i + 1] == Act(worlds[i], actions[i])
  {
    hide Enabled, Act;
    var a := actions[i];
  }

  lemma {:induction false} StaysSane(worlds: seq<World>, actions: seq<Action>, k: nat)
    requires IsRun(worlds, actions) && k < |worlds|
    ensures Sane(worlds[k]) && |worlds[k].ds| == |worlds[0].ds|
  {
    if k > 0 {
      StaysSane(worlds, actions, k - 1);
      RunStep(worlds, actions, k - 1);
    }
  }

  /** The last heartbeat of `id` is at most 30 seconds old. */
  ghost predicate Alive(w: World, id: Id) {
    id in w.info && w.clock - w.info[id].lastHeartbeat <= 30
  }

  ghost predicate AliveThroughout(worlds: seq<World>, id: Id, i: nat, k: nat) {
    forall j :: i <= j <= k && j < |worlds| ==> Alive(worlds[j], id)
  }

  /** In the active set, and no discovery is about to remove it. */
  ghost predicate Secure(w: World, id: Id) {
    id in w.active && forall d :: 0 <= d < |w.ds| ==> id !in w.ds[d].doomed
  }

  lemma SecureStep(w: World, a: Action, id: Id)
    requires Enabled(w, a) && Sane(w) && Secure(w, id) && Alive(w, id) && a != Leave(id)
    ensures Secure(Act(w, a), id)
  {
  }

  ghost predicate StaysRegistered(actions: seq<Action>, id: Id, i: nat, k: nat) {
    forall j {:trigger actions[j]} :: i <= j < k && j < |actions| ==> actions[j] != Leave(id)
  }

  /** From a secure moment on, a registered gateway whose heartbeats never lag by more than 30 seconds is never evicted,
      whatever the discoveries of other gateways do between its commands. */
  lemma {:induction false} NeverEvicted(worlds: seq<World>, actions: seq<Action>, id: Id, i: nat, k: nat)
    requires IsRun(worlds, actions) && i <= k < |worlds| && Secure(worlds[i], id)
    requires AliveThroughout(worlds, id, i, k) && StaysRegistered(actions, id, i, k)
    ensures Secure(worlds[k], id)
    decreases k
  {
    if i < k {
      NeverEvicted(worlds, actions, id, i, k - 1);
      RunStep(worlds, actions, k - 1);
      StaysSane(worlds, actions, k - 1);
      hide IsRun, Act, Enabled, Secure, Sane;
      assert Alive(worlds[k - 1], id) && Alive(worlds[k], id);
      SecureStep(worlds[k - 1], actions[k - 1], id);
    }
  }

  ghost predicate Covered(w: World, d: nat, id: Id)
    requires d < |w.ds|
  {
    id in w.ds[d].todo || exists n :: n in w.ds[d].found && n.gatewayId == id
  }

  lemma CoveredStep(w: World, a: Action, d: nat, id: Id)
    requires Enabled(w, a) && Sane(w) && d < |w.ds| && Covered(w, d, id) && Alive(w, id) && !(a.Begin? && a.d == d)
    ensures Covered(Act(w, a), d, id)
  {
    if id in w.ds[d].todo {
      if a.Lookup? && a.d == d && w.ds[d].todo[0] == id {
        assert Act(w, a).ds[d].found[|w.ds[d].found|].gatewayId == id;
      }
    } else {
      var n :| n in w.ds[d].found && n.gatewayId == id;
      assert n in Act(w, a).ds[d].found;
    }
  }

  /** Such a gateway appears in every discovery that starts and ends while it is alive. */
  lemma {:induction false} AlwaysDiscovered(worlds: seq<World>, actions: seq<Action>, id: Id, d: nat, i: nat, k: nat)
    requires IsRun(worlds, actions) && i < k < |worlds| && Secure(worlds[i], id)
    requires AliveThroughout(worlds, id, i, k) && StaysRegistered(actions, id, i, k)
    requires actions[i].Begin? && actions[i].d == d &&
             forall j :: i < j < k ==> !(actions[j].Begin? && actions[j].d == d)
    ensures d < |worlds[k].ds| && Covered(worlds[k], d, id)
    ensures worlds[k].ds[d].todo == [] ==> exists n :: n in worlds[k].ds[d].found && n.gatewayId == id
    decreases k
  {
    RunStep(worlds, actions, k - 1);
    RunStep(worlds, actions, i);
    StaysSane(worlds, actions, k - 1);
    StaysSane(worlds, actions, k);
    StaysSane(worlds, actions, i);
    if k > i + 1 {
      AlwaysDiscovered(worlds, actions, id, d, i, k - 1);
      hide IsRun, Act, Enabled, Secure, Sane;
      assert Alive(worlds[k - 1], id);
      CoveredStep(worlds[k - 1], actions[k - 1], d, id);
    }
  }

  // ---------- From the registration on ----------

  /** Not registered, and no discovery has it in hand. */
  ghost predicate Unknown(w: World, id: Id) {
    id !in w.active && forall d :: 0 <= d < |w.ds| ==> id !in w.ds[d].todo && id !in w.ds[d].doomed
  }

  lemma UnknownStep(w: World, a: Action, id: Id)
    requires Enabled(w, a) && Unknown(w, id)
    ensures a != Join(id) ==> Unknown(Act(w, a), id)
    ensures a == Join(id) ==> Secure(Act(w, a), id)
  {
  }

  /** Action `i` is the first registration of `id` after world `start`, where nobody knew it. */
  ghost predicate Registers(worlds: seq<World>, actions: seq<Action>, id: Id, start: nat, i: nat) {
    && start <= i < |actions| && i < |worlds| && Unknown(worlds[start], id) && actions[i] == Join(id)
    && forall j {:trigger actions[j]} :: start <= j < i ==> actions[j] != Join(id)
  }

  lemma {:induction false} UnknownUntil(worlds: seq<World>, actions: seq<Action>, id: Id, start: nat, i: nat, k: nat)
    requires IsRun(worlds, actions) && Registers(worlds, actions, id, start, i) && start <= k <= i
    ensures Unknown(worlds[k], id)
    decreases k
  {
    if start < k {
      UnknownUntil(worlds, actions, id, start, i, k - 1);
      RunStep(worlds, actions, k - 1);
      hide IsRun, Act, Enabled, Unknown;
      UnknownStep(worlds[k - 1], actions[k - 1], id);
    }
  }

  lemma RegisteredSecure(worlds: seq<World>, actions: seq<Action>, id: Id, start: nat, i: nat)
    requires IsRun(worlds, actions) && Registers(worlds, actions, id, start, i)
    ensures i + 1 < |worlds| && Secure(worlds[i + 1], id)
  {
    UnknownUntil(worlds, actions, id, start, i, i);
    RunStep(worlds, actions, i);
    hide Act, Enabled, Unknown, Secure;
    UnknownStep(worlds[i], actions[i], id);
  }

  /** A gateway that registers and then keeps its heartbeat within 30 seconds is never evicted, whatever discoveries any
      others run at any time. */
  lemma RegisteredNeverEvicted(worlds: seq<World>, actions: seq<Action>, id: Id, start: nat, i: nat, k: nat)
    requires IsRun(worlds, actions) && Registers(worlds, actions, id, start, i) && i < k < |worlds|
    requires AliveThroughout(worlds, id, i + 1, k) && StaysRegistered(actions, id, i + 1, k)
    ensures Secure(worlds[k], id)
  {
    RegisteredSecure(worlds, actions, id, start, i);
    hide IsRun, Registers, Secure;
    NeverEvicted(worlds, actions, id, i + 1, k);
  }

  /** And every discovery begun (action `b`) after its registration finds it. */
  lemma RegisteredAlwaysDiscovered(worlds: seq<World>, actions: seq<Action>, id: Id, start: nat, i: nat,
                                   d: nat, b: nat, k: nat)
    requires IsRun(worlds, actions) && Registers(worlds, actions, id, start, i) && i < b < k < |worlds|
    requires AliveThroughout(worlds, id, i + 1, k) && StaysRegistered(actions, id, i + 1, k)
    requires actions[b].Begin? && actions[b].d == d &&
             forall j :: b < j < k ==> !(actions[j].Begin? && actions[j].d == d)
    ensures d < |worlds[k].ds| && Covered(worlds[k], d, id)
    ensures worlds[k].ds[d].todo == [] ==> exists n :: n in worlds[k].ds[d].found && n.gatewayId == id
  {
    assert AliveThroughout(worlds, id, i + 1, b) && StaysRegistered(actions, id, i + 1, b);
    RegisteredNeverEvicted(worlds, actions, id, start, i, b);
    hide Registers, Secure, Covered;
    AlwaysDiscovered(worlds, actions, id, d, b, k);
  }

  /** Once out of the active set, only a new registration brings a gateway back; heartbeats do not. */
  lemma {:induction false} StaysAbsent(worlds: seq<World>, actions: seq<Action>, id: Id, i: nat, k: nat)
    requires IsRun(worlds, actions) && i <= k < |worlds| && id !in worlds[i].active
    requires forall j {:trigger actions[j]} :: i <= j < k ==> actions[j] != Join(id)
    ensures id !in worlds[k].active
    decreases k
  {
    if i < k {
      StaysAbsent(worlds, actions, id, i, k - 1);
      RunStep(worlds, actions, k - 1);
      hide IsRun;
    }
  }

  lemma UncoveredStep(w: World, a: Action, d: nat, id: Id)
    requires Enabled(w, a) && Sane(w) && d < |w.ds| && id !in w.active
    requires !Covered(w, d, id) || (a.Begin? && a.d == d)
    ensures !Covered(Act(w, a), d, id)
  {
  }

  /** A discovery begun after the eviction does not report the gateway either. */
  lemma {:induction false} StaysUnreported(worlds: seq<World>, actions: seq<Action>, id: Id, d: nat, i: nat, k: nat)
    requires IsRun(worlds, actions) && i < k < |worlds| && id !in worlds[i].active
    requires actions[i].Begin? && actions[i].d == d &&
             forall j {:trigger actions[j]} :: i <= j < k ==> actions[j] != Join(id)
    ensures d < |worlds[k].ds| && !Covered(worlds[k], d, id)
    decreases k
  {
    RunStep(worlds, actions, i);
    StaysSane(worlds, actions, i);
    StaysSane(worlds, actions, k - 1);
    if k == i + 1 {
      UncoveredStep(worlds[i], actions[i], d, id);
    } else {
      StaysUnreported(worlds, actions, id, d, i, k - 1);
      StaysAbsent(worlds, actions, id, i, k - 1);
      RunStep(worlds, actions, k - 1);
      hide IsRun, Act, Enabled, Sane, Covered;
      UncoveredStep(worlds[k - 1], actions[k - 1], d, id);
    }
  }

  // ---------- The removal that comes late ----------

  /** `Secure` is exactly what a live gateway needs: without it, and only then, a next command other than its own
      unregistration takes it out of the active set. */
  lemma SecureIff(w: World, id: Id)
    requires Sane(w) && id in w.active && Alive(w, id)
    ensures Secure(w, id) <==> forall a :: Enabled(w, a) && a != Leave(id) ==> id in Act(w, a).active
  {
    if d :| 0 <= d < |w.ds| && id in w.ds[d].doomed {
      assert Enabled(w, Remove(d)) && id !in Act(w, Remove(d)).active;
    }
  }

  function NodeAt(id: Id, t: int): Node {
    NO_NODE.(gatewayId := id, lastHeartbeat := t)
  }

  /** A run from an empty registry with one discoverer, in which `id` never unregisters, up to the world `w`. */
  ghost predicate Reaches(worlds: seq<World>, actions: seq<Action>, id: Id, w: World) {
    && IsRun(worlds, actions) && worlds[0] == World(map[], {}, 0, [Discovery(0, [], [], [])])
    && StaysRegistered(actions, id, 0, |actions|) && worlds[|actions|] == w
  }

  lemma OneCommandMore(worlds: seq<World>, actions: seq<Action>, id: Id, w: World, a: Action)
    returns (worlds': seq<World>, actions': seq<Action>)
    requires Reaches(worlds, actions, id, w) && Enabled(w, a) && a != Leave(id)
    ensures worlds' == worlds + [Act(w, a)] && actions' == actions + [a] && Reaches(worlds', actions', id, Act(w, a))
  {
    hide Enabled, Act, Sane;
    worlds', actions' := worlds + [Act(w, a)], actions + [a];
  }

  /** A gateway silent for 31 seconds is found by a discovery, which is about to remove it. */
  lemma FoundSilent(id: Id) returns (worlds: seq<World>, actions: seq<Action>)
    ensures Reaches(worlds, actions, id, World(map[id := NodeAt(id, 0)], {id}, 31, [Discovery(31, [], [id], [])]))
  {
    var w0 := World(map[], {}, 0, [Discovery(0, [], [], [])]);
    worlds, actions := [w0], [];
    assert Reaches(worlds, actions, id, w0);
    hide Reaches;
    var w1 := Act(w0, Store(id, NodeAt(id, 0)));
    worlds, actions := OneCommandMore(worlds, actions, id, w0, Store(id, NodeAt(id, 0)));
    var w2 := Act(w1, Join(id));
    worlds, actions := OneCommandMore(worlds, actions, id, w1, Join(id));
    var w3 := Act(w2, Tick(31));
    worlds, actions := OneCommandMore(worlds, actions, id, w2, Tick(31));
    var w4 := Act(w3, Begin(0, [id]));
    worlds, actions := OneCommandMore(worlds, actions, id, w3, Begin(0, [id]));
    assert w4.ds == [Discovery(31, [id], [], [])];
    worlds, actions := OneCommandMore(worlds, actions, id, w4, Lookup(0));
    assert [id][1..] == [];
    assert Act(w4, Lookup(0)).ds == [Discovery(31, [], [id], [])];
  }

  /** It does happen: the gateway registers again before that removal, and is then taken out of the active set with its
      heartbeat up to date. */
  lemma LateRemoval(id: Id) returns (worlds: seq<World>, actions: seq<Action>)
    ensures IsRun(worlds, actions) && worlds[0] == World(map[], {}, 0, [Discovery(0, [], [], [])])
    ensures StaysRegistered(actions, id, 0, |actions|)
    ensures var n := |actions| - 1;
            && n >= 0 && actions[n] == Remove(0)
            && Alive(worlds[n], id) && id in worlds[n].active && Alive(worlds[n + 1], id) && id !in worlds[n + 1].active
  {
    worlds, actions := FoundSilent(id);
    var w5 := World(map[id := NodeAt(id, 0)], {id}, 31, [Discovery(31, [], [id], [])]);
    var w6 := World(map[id := NodeAt(id, 31)], {id}, 31, [Discovery(31, [], [id], [])]);
    var w7 := w6.(clock := 32);
    assert Act(w5, Store(id, NodeAt(id, 31))) == w6;
    assert Act(w6, Join(id)) == w6;
    assert Alive(w7, id) && Alive(Act(w7, Remove(0)), id) && id !in Act(w7, Remove(0)).active;
    hide IsRun, Alive, StaysRegistered, Reaches;
    worlds, actions := OneCommandMore(worlds, actions, id, w5, Store(id, NodeAt(id, 31)));
    worlds, actions := OneCommandMore(worlds, actions, id, w6, Join(id));
    worlds, actions := OneCommandMore(worlds, actions, id, w6, Tick(32));
    worlds, actions := OneCommandMore(worlds, actions, id, w7, Remove(0));
    ReachesMeans(worlds, actions, id, Act(w7, Remove(0)));
  }

  lemma ReachesMeans(worlds: seq<World>, actions: seq<Action>, id: Id, w: World)
    requires Reaches(worlds, actions, id, w)
    ensures IsRun(worlds, actions) && worlds[0] == World(map[], {}, 0, [Discovery(0, [], [], [])])
    ensures StaysRegistered(actions, id, 0, |actions|) && |worlds| == |actions| + 1 && worlds[|actions|] == w
  {
    hide Enabled, Act, Sane;
  }
}
