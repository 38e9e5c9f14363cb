/** Who is online where: the login and logout scripts of gateway/src/RedisClient.cpp against the connection tables of
    any number of gateways (`performLogin` and `disconnectClient` of gateway/src/EpollServer.cpp). A script is one
    atomic step; the table updates before and after it are steps of their own, and the gateways interleave freely. */
module Presence {
  type User = string
  type Fd = nat

  // ---------- Redis ----------

  datatype Directory = Directory(devices: map<User, set<(nat, Fd)>>, online: set<User>) {
    /** A set key that does not exist reads as empty. */
    function Devices(u: User): set<(nat, Fd)> {
      if u in devices then devices[u] else {}
    }
  }

  function LoginScript(d: Directory, g: nat, fd: Fd, u: User): Directory {
    Directory(d.devices[u := d.Devices(u) + {(g, fd)}], d.online + {u})
  }

  function LogoutScript(d: Directory, g: nat, fd: Fd, u: User): Directory {
    var left := d.Devices(u) - {(g, fd)};
    if left == {} then Directory(d.devices - {u}, d.online - {u}) else d.(devices := d.devices[u := left])
  }

  // ---------- One gateway's tables ----------

  /** `conns` gives the login name of each connection, "" before login; `userMap` lists the connections of a user. */
  datatype Tables = Tables(conns: map<Fd, User>, userMap: map<User, seq<Fd>>) {
    predicate LoggedInAs(fd: Fd, u: User) {
      u != "" && fd in conns && conns[fd] == u
    }

    predicate Lists(fd: Fd, u: User) {
      u in userMap && fd in userMap[u]
    }
  }

  function Without(fds: seq<Fd>, fd: Fd): (r: seq<Fd>)
    ensures fd !in r
    ensures forall x :: x != fd ==> (x in r <==> x in fds)
  {
    if fds == [] then [] else if fds[0] == fd then Without(fds[1..], fd) else [fds[0]] + Without(fds[1..], fd)
  }

  predicate NoDuplicates(fds: seq<Fd>) {
    forall i, j :: 0 <= i < j < |fds| ==> fds[i] != fds[j]
  }

  lemma {:induction false} WithoutKeepsDistinct(fds: seq<Fd>, fd: Fd)
    requires NoDuplicates(fds)
    ensures NoDuplicates(Without(fds, fd))
  {
    if fds != [] {
      forall i, j | 0 <= i < j < |fds[1..]| ensures fds[1..][i] != fds[1..][j] {
        assert fds[i + 1] != fds[j + 1];
      }
      WithoutKeepsDistinct(fds[1..], fd);
      assert fds[0] !in fds[1..];
    }
  }

  function RecordLogin(t: Tables, fd: Fd, u: User): Tables {
    Tables(t.conns[fd := u], t.userMap[u := (if u in t.userMap then t.userMap[u] else []) + [fd]])
  }

  function Unlist(t: Tables, fd: Fd, u: User): Tables
    requires u in t.userMap
  {
    t.(userMap := t.userMap[u := Without(t.userMap[u], fd)])
  }

  function Forget(t: Tables, fd: Fd, u: User): Tables {
    Tables(t.conns - {fd}, if u in t.userMap && t.userMap[u] == [] then t.userMap - {u} else t.userMap)
  }

  // ---------- The methods ----------

  class Redis {
    var devices: map<User, set<(nat, Fd)>>
    var online: set<User>

    ghost function State(): Directory
      reads this
    {
      Directory(devices, online)
    }

    constructor ()
      ensures State() == Directory(map[], {})
    {
      devices, online := map[], {};
    }

    method UserLogin(username: User, g: nat, fd: Fd) returns (result: int)
      modifies this
      ensures username == "" ==> result == -1 && State() == old(State())
      ensures username != "" ==> result == 1 && State() == LoginScript(old(State()), g, fd, username)
    {
      if username == "" { return -1; }
      devices := devices[username := (if username in devices then devices[username] else {}) + {(g, fd)}];
      online := online + {username};
      return 1;
    }

    method UserLogout(username: User, g: nat, fd: Fd) returns (ok: bool)
      modifies this
      ensures username == "" ==> !ok && State() == old(State())
      ensures username != "" ==> ok && State() == LogoutScript(old(State()), g, fd, username)
    {
      if username == "" { return false; }
      var left := (if username in devices then devices[username] else {}) - {(g, fd)};
      if left == {} {
        devices, online := devices - {username}, online - {username};
      } else {
        devices := devices[username := left];
      }
      return true;
    }
  }

  class Server {
    const gatewayId: nat
    const redis: Redis
    var connections: map<Fd, User>
    var userMap: map<User, seq<Fd>>

    ghost function State(): Tables
      reads this
    {
      Tables(connections, userMap)
    }

    constructor (id: nat, shared: Redis)
      ensures gatewayId == id && redis == shared && State() == Tables(map[], map[])
    {
      gatewayId, redis, connections, userMap := id, shared, map[], map[];
    }

    method HandleAccept(fd: Fd)
      requires fd !in connections
      modifies this
      ensures State() == old(State()).(conns := old(connections)[fd := ""])
    {
      connections := connections[fd := ""];
    }

    method PerformLogin(fd: Fd, name: User) returns (ok: bool)
      requires fd in connections
      modifies this, redis
      ensures ok == (name != "")
      ensures !ok ==> State() == old(State()) && redis.State() == old(redis.State())
      ensures ok ==> State() == RecordLogin(old(State()), fd, name)
      ensures ok ==> redis.State() == LoginScript(old(redis.State()), gatewayId, fd, name)
    {
      if name == "" { return false; }
      var result := redis.UserLogin(name, gatewayId, fd);
      if result == 1 {
        connections := connections[fd := name];
        userMap := userMap[name := (if name in userMap then userMap[name] else []) + [fd]];
        return true;
      }
      return false;
    }

    /** `fds.erase(std::remove(...))`: every copy goes, the order of the rest stays. */
    method Remove(fds: seq<Fd>, fd: Fd) returns (r: seq<Fd>)
      ensures r == Without(fds, fd)
    {
      r := [];
      for i := 0 to |fds|
        invariant r + Without(fds[i..], fd) == Without(fds, fd)
      {
        if fds[i] != fd {
          r := r + [fds[i]];
        }
      }
    }

    method DisconnectClient(fd: Fd)
      modifies this, redis
      ensures fd !in old(connections) ==> State() == old(State()) && redis.State() == old(redis.State())
      ensures fd in old(connections) ==>
                var t, u := old(State()), old(connections)[fd];
                if u == "" || u !in t.userMap then
                  State() == t.(conns := t.conns - {fd}) && redis.State() == old(redis.State())
                else
                  State() == Forget(Unlist(t, fd, u), fd, u) &&
                      redis.State() == LogoutScript(old(redis.State()), gatewayId, fd, u)
    {
      if fd !in connections { return; }
      var username := connections[fd];
      if username != "" && username in userMap {
        var fds := Remove(userMap[username], fd);
        userMap := userMap[username := fds];
        var _ := redis.UserLogout(username, gatewayId, fd);
        if fds == [] {
          userMap := userMap - {username};
        }
      }
      connections := connections - {fd};
    }
  }

  // ---------- Interleaved gateways ----------

  /** Where a gateway is in an operation: the login script has run, the tables have dropped the connection, or the
      logout script has run. */
  datatype Doing = Idle | Recording(fd: Fd, u: User) | Leaving(fd: Fd, u: User) | Closing(fd: Fd, u: User)

  datatype Gateway = Gateway(tables: Tables, doing: Doing)

  datatype World = World(redis: Directory, gws: seq<Gateway>)

  datatype Action =
    | Accept(g: nat, fd: Fd)
    | LoginCall(g: nat, fd: Fd, u: User)
    | LoginReturn(g: nat)
    | HangUp(g: nat, fd: Fd)
    | LogoutCall(g: nat)
    | LogoutReturn(g: nat)

  ghost predicate Enabled(w: World, a: Action) {
    && a.g < |w.gws|
    && var gw := w.gws[a.g];
       match a
       case Accept(_, fd) => gw.doing.Idle? && fd !in gw.tables.conns
       case LoginCall(_, fd, u) => gw.doing.Idle? && fd in gw.tables.conns && u != ""
       case LoginReturn(_) => gw.doing.Recording?
       case HangUp(_, fd) => gw.doing.Idle? && fd in gw.tables.conns
       case LogoutCall(_) => gw.doing.Leaving?
       case LogoutReturn(_) => gw.doing.Closing?
  }

  ghost function Local(gw: Gateway, a: Action): Gateway {
    var t, doing := gw.tables, gw.doing;
    match a
    case Accept(_, fd) => gw.(tables := t.(conns := t.conns[fd := ""]))
    case LoginCall(_, fd, u) => gw.(doing := Recording(fd, u))
    case LoginReturn(_) => if doing.Recording? then Gateway(RecordLogin(t, doing.fd, doing.u), Idle) else gw
    case HangUp(_, fd) =>
      if fd !in t.conns then gw else
      var u := t.conns[fd];
      if u == "" || u !in t.userMap then gw.(tables := t.(conns := t.conns - {fd}))
      else Gateway(Unlist(t, fd, u), Leaving(fd, u))
    case LogoutCall(_) => if doing.Leaving? then gw.(doing := Closing(doing.fd, doing.u)) else gw
    case LogoutReturn(_) => if doing.Closing? then Gateway(Forget(t, doing.fd, doing.u), Idle) else gw
  }

  ghost function Script(d: Directory, gw: Gateway, a: Action): Directory {
    match a
    case LoginCall(g, fd, u) => LoginScript(d, g, fd, u)
    case LogoutCall(g) => if gw.doing.Leaving? then LogoutScript(d, g, gw.doing.fd, gw.doing.u) else d
    case _ => d
  }

  ghost function Act(w: World, a: Action): World
    requires Enabled(w, a)
  {
    World(Script(w.redis, w.gws[a.g], a), w.gws[a.g := Local(w.gws[a.g], a)])
  }

  ghost predicate IsRun(worlds: seq<World>, actions: seq<Action>) {
    && |worlds| == |actions| + 1
    && worlds[0].redis == Directory(map[], {})
    && (forall g: nat :: 0 <= g < |worlds[0].gws| ==> worlds[0].gws[g] == Gateway(Tables(map[], map[]), Idle))
    && forall i {:trigger actions[i]} :: 0 <= i < |actions| ==>
         Enabled(worlds[i], actions[i]) && worlds[i + 1] == Act(worlds[i], actions[i])
  }

  // ---------- One login, one logout ----------

  /** A login nobody disturbs makes that connection, and it alone, present under that name. */
  lemma LoginDone(w: World, g: nat, fd: Fd, u: User)
    requires Enabled(w, LoginCall(g, fd, u))
    ensures Enabled(Act(w, LoginCall(g, fd, u)), LoginReturn(g))
    ensures var t := Act(Act(w, LoginCall(g, fd, u)), LoginReturn(g)); var x, y := w.gws[g].tables, t.gws[g].tables;
            && t.gws == w.gws[g := t.gws[g]] && t.gws[g].doing.Idle?
            && (forall v, d :: d in t.redis.Devices(v) <==> d in w.redis.Devices(v) || (v == u && d == (g, fd)))
            && t.redis.online == w.redis.online + {u}
            && (forall f: Fd, v :: y.LoggedInAs(f, v) <==> if f == fd then v == u else x.LoggedInAs(f, v))
            && (forall f: Fd, v :: y.Lists(f, v) <==> x.Lists(f, v) || (f == fd && v == u))
            && y.userMap[u] == (if u in x.userMap then x.userMap[u] else []) + [fd]
  {
  }

  /** Removing a connection from a list keeps the others, each as often as before and in the same order. */
  lemma {:induction false} WithoutParts(a: seq<Fd>, b: seq<Fd>, fd: Fd)
    ensures Without(a + b, fd) == Without(a, fd) + Without(b, fd)
    ensures forall x :: Without([x], fd) == if x == fd then [] else [x]
  {
    forall x ensures Without([x], fd) == if x == fd then [] else [x] {
      assert [x][1..] == [];
    }
    if a == [] {
      assert a + b == b;
    } else {
      assert (a + b)[1..] == a[1..] + b;
      WithoutParts(a[1..], b, fd);
    }
  }

  /** A logged-in connection that ends leaves nothing behind; the user is online as long as there are other devices. */
  lemma LogoutDone(w: World, g: nat, fd: Fd, u: User)
    requires Enabled(w, HangUp(g, fd)) && w.gws[g].tables.LoggedInAs(fd, u) && w.gws[g].tables.Lists(fd, u)
    ensures Enabled(Act(w, HangUp(g, fd)), LogoutCall(g))
    ensures Enabled(Act(Act(w, HangUp(g, fd)), LogoutCall(g)), LogoutReturn(g))
    ensures var t := Act(Act(Act(w, HangUp(g, fd)), LogoutCall(g)), LogoutReturn(g));
            var x, y := w.gws[g].tables, t.gws[g].tables;
            && t.gws == w.gws[g := t.gws[g]] && t.gws[g].doing.Idle?
            && (forall v, d :: d in t.redis.Devices(v) <==> d in w.redis.Devices(v) && !(v == u && d == (g, fd)))
            && (forall v :: v != u ==> (v in t.redis.online <==> v in w.redis.online))
            && (t.redis.Devices(u) == {} ==> u !in t.redis.online)
            && (t.redis.Devices(u) != {} ==> (u in t.redis.online <==> u in w.redis.online))
            && y.conns == x.conns - {fd}
            && (forall f: Fd, v :: y.Lists(f, v) <==> x.Lists(f, v) && !(f == fd && v == u))
  {
    hide Without;
    var w1 := Act(w, HangUp(g, fd));
    var w2 := Act(w1, LogoutCall(g));
    assert w2.gws[g] == w1.gws[g].(doing := Closing(fd, u));
  }

  /** A connection that ends before it logged in changes nothing but the gateway's connections. */
  lemma AnonymousHangUp(w: World, g: nat, fd: Fd)
    requires Enabled(w, HangUp(g, fd)) && w.gws[g].tables.conns[fd] == ""
    ensures var t := Act(w, HangUp(g, fd));
            t.redis == w.redis && t.gws[g].doing.Idle? && t.gws[g].tables.userMap == w.gws[g].tables.userMap &&
            t.gws[g].tables.conns == w.gws[g].tables.conns - {fd}
  {
  }

  // ---------- What presence should say ----------

  /** Between two operations of gateway g: Redis, the user map and the connections agree about g, with no duplicate
      and no empty entry. */
  ghost predicate Exact(w: World, g: nat)
    requires g < |w.gws|
  {
    var t := w.gws[g].tables;
    && (forall fd: Fd, u :: (g, fd) in w.redis.Devices(u) <==> t.LoggedInAs(fd, u))
    && (forall fd: Fd, u :: t.Lists(fd, u) <==> t.LoggedInAs(fd, u))
    && (forall u :: u in t.userMap ==> t.userMap[u] != [] && NoDuplicates(t.userMap[u]))
  }

  ghost predicate OnlineMeansDevices(d: Directory) {
    forall u :: u in d.online <==> d.Devices(u) != {}
  }

  ghost predicate AlwaysExact(worlds: seq<World>, n: nat) {
    forall k: nat, g: nat :: 0 <= k < n <= |worlds| && 0 <= g < |worlds[k].gws| && worlds[k].gws[g].doing.Idle? ==>
        Exact(worlds[k], g)
  }

  /** The login completed by an action is on a connection that was not logged in yet. */
  ghost predicate FirstLogin(w: World, a: Action)
    requires Enabled(w, a)
  {
    a.LoginReturn? ==> var t, fd := w.gws[a.g].tables, w.gws[a.g].doing.fd; fd in t.conns ==> t.conns[fd] == ""
  }

  ghost predicate OnlyFirstLogins(worlds: seq<World>, actions: seq<Action>, n: nat)
    requires IsRun(worlds, actions) && n <= |actions|
  {
    forall i :: 0 <= i < n ==> FirstLogin(worlds[i], actions[i])
  }

  // ---------- The invariant, mid-operation included ----------

  ghost predicate Entered(gw: Gateway, fd: Fd, u: User) {
    match gw.doing
    case Recording(f, n) => gw.tables.LoggedInAs(fd, u) || (fd == f && u == n)
    case Closing(f, _) => gw.tables.LoggedInAs(fd, u) && fd != f
    case _ => gw.tables.LoggedInAs(fd, u)
  }

  ghost predicate Mapped(gw: Gateway, fd: Fd, u: User) {
    match gw.doing
    case Leaving(f, _) => gw.tables.LoggedInAs(fd, u) && fd != f
    case Closing(f, _) => gw.tables.LoggedInAs(fd, u) && fd != f
    case _ => gw.tables.LoggedInAs(fd, u)
  }

  ghost predicate DoingOk(gw: Gateway) {
    match gw.doing
    case Idle => true
    case Recording(f, n) => f in gw.tables.conns && n != ""
    case Leaving(f, n) => gw.tables.LoggedInAs(f, n) && n in gw.tables.userMap
    case Closing(f, n) => gw.tables.LoggedInAs(f, n) && n in gw.tables.userMap
  }

  ghost predicate TablesOk(gw: Gateway) {
    && (forall fd: Fd, u :: gw.tables.Lists(fd, u) <==> Mapped(gw, fd, u))
    && (forall u :: u in gw.tables.userMap ==> NoDuplicates(gw.tables.userMap[u]))
    && (forall u :: u in gw.tables.userMap && gw.tables.userMap[u] == [] ==>
                      (gw.doing.Leaving? || gw.doing.Closing?) && gw.doing.u == u)
    && DoingOk(gw)
  }

  ghost predicate EntriesOk(d: Directory, gw: Gateway, g: nat) {
    forall fd: Fd, u :: (g, fd) in d.Devices(u) <==> Entered(gw, fd, u)
  }

  ghost predicate Consistent(w: World) {
    && OnlineMeansDevices(w.redis)
    && forall g: nat :: 0 <= g < |w.gws| ==> TablesOk(w.gws[g]) && EntriesOk(w.redis, w.gws[g], g)
  }

  lemma ScriptLeavesOthers(d: Directory, gw: Gateway, a: Action, g: nat, fd: Fd, u: User)
    requires g != a.g
    ensures (g, fd) in Script(d, gw, a).Devices(u) <==> (g, fd) in d.Devices(u)
  {
  }

  lemma ScriptOnline(d: Directory, gw: Gateway, a: Action)
    requires OnlineMeansDevices(d)
    ensures OnlineMeansDevices(Script(d, gw, a))
  {
    var d' := Script(d, gw, a);
    forall u ensures u in d'.online <==> d'.Devices(u) != {} {
      if a.LoginCall? && u == a.u {
        assert (a.g, a.fd) in d'.Devices(u);
      }
    }
  }

  /** A connection that hangs up is found in the user map. */
  ghost predicate CanHangUp(gw: Gateway, a: Action) {
    a.HangUp? && a.fd in gw.tables.conns && gw.tables.conns[a.fd] != "" ==> gw.tables.Lists(a.fd, gw.tables.conns[a.fd])
  }

  lemma DoingStep(gw: Gateway, a: Action, w: World)
    requires Enabled(w, a) && gw == w.gws[a.g] && DoingOk(gw) && CanHangUp(gw, a)
    ensures DoingOk(Local(gw, a))
  {
  }

  lemma ListStep(gw: Gateway, a: Action, w: World, fd: Fd, u: User)
    requires Enabled(w, a) && gw == w.gws[a.g] && DoingOk(gw) && CanHangUp(gw, a) && FirstLogin(w, a)
    requires gw.tables.Lists(fd, u) <==> Mapped(gw, fd, u)
    ensures Local(gw, a).tables.Lists(fd, u) <==> Mapped(Local(gw, a), fd, u)
  {
  }

  lemma EntryStep(d: Directory, gw: Gateway, a: Action, w: World, fd: Fd, u: User)
    requires Enabled(w, a) && gw == w.gws[a.g] && DoingOk(gw) && CanHangUp(gw, a) && FirstLogin(w, a)
    requires (a.g, fd) in d.Devices(u) <==> Entered(gw, fd, u)
    ensures (a.g, fd) in Script(d, gw, a).Devices(u) <==> Entered(Local(gw, a), fd, u)
  {
  }

  lemma DistinctStep(gw: Gateway, a: Action, w: World, u: User)
    requires Enabled(w, a) && gw == w.gws[a.g] && TablesOk(gw) && FirstLogin(w, a)
    requires u in Local(gw, a).tables.userMap
    ensures NoDuplicates(Local(gw, a).tables.userMap[u])
    ensures Local(gw, a).tables.userMap[u] == [] ==>
              (Local(gw, a).doing.Leaving? || Local(gw, a).doing.Closing?) && Local(gw, a).doing.u == u
  {
    var t := gw.tables;
    if a.LoginReturn? {
      assert !t.Lists(gw.doing.fd, gw.doing.u) by {
        assert !Mapped(gw, gw.doing.fd, gw.doing.u);
      }
    } else if a.HangUp? && t.conns[a.fd] == u && u in t.userMap {
      WithoutKeepsDistinct(t.userMap[u], a.fd);
    }
  }

  lemma TablesStep(gw: Gateway, a: Action, w: World)
    requires Enabled(w, a) && gw == w.gws[a.g] && TablesOk(gw) && FirstLogin(w, a)
    ensures CanHangUp(gw, a) && TablesOk(Local(gw, a))
  {
    var gw' := Local(gw, a);
    if a.HangUp? {
      assert gw.tables.Lists(a.fd, gw.tables.conns[a.fd]) <==> Mapped(gw, a.fd, gw.tables.conns[a.fd]);
    }
    DoingStep(gw, a, w);
    forall fd: Fd, u ensures gw'.tables.Lists(fd, u) <==> Mapped(gw', fd, u) {
      assert gw.tables.Lists(fd, u) <==> Mapped(gw, fd, u);
      ListStep(gw, a, w, fd, u);
    }
    forall u | u in gw'.tables.userMap
      ensures NoDuplicates(gw'.tables.userMap[u])
      ensures gw'.tables.userMap[u] == [] ==> (gw'.doing.Leaving? || gw'.doing.Closing?) && gw'.doing.u == u
    {
      DistinctStep(gw, a, w, u);
    }
    hide Local, NoDuplicates, Mapped, DoingOk;
  }

  lemma EntriesStep(d: Directory, gw: Gateway, a: Action, w: World)
    requires Enabled(w, a) && gw == w.gws[a.g] && TablesOk(gw) && FirstLogin(w, a) && EntriesOk(d, gw, a.g)
    ensures EntriesOk(Script(d, gw, a), Local(gw, a), a.g)
  {
    TablesStep(gw, a, w);
    hide Local, Script, Mapped, Entered, NoDuplicates;
    forall fd: Fd, u ensures (a.g, fd) in Script(d, gw, a).Devices(u) <==> Entered(Local(gw, a), fd, u) {
      EntryStep(d, gw, a, w, fd, u);
    }
  }

  lemma ActConsistent(w: World, a: Action)
    requires Enabled(w, a) && Consistent(w) && FirstLogin(w, a)
    ensures Consistent(Act(w, a))
  {
    var w' := Act(w, a);
    ScriptOnline(w.redis, w.gws[a.g], a);
    TablesStep(w.gws[a.g], a, w);
    EntriesStep(w.redis, w.gws[a.g], a, w);
    hide TablesOk, Script, Local;
    forall g: nat | 0 <= g < |w'.gws| && g != a.g ensures EntriesOk(w'.redis, w'.gws[g], g) {
      forall fd: Fd, u ensures (g, fd) in w'.redis.Devices(u) <==> Entered(w'.gws[g], fd, u) {
        ScriptLeavesOthers(w.redis, w.gws[a.g], a, g, fd, u);
      }
    }
  }

  lemma ConsistentMeansExact(w: World, g: nat)
    requires Consistent(w) && g < |w.gws| && w.gws[g].doing.Idle?
    ensures Exact(w, g)
  {
    assert TablesOk(w.gws[g]) && EntriesOk(w.redis, w.gws[g], g);
  }

  /** A second login on a connection that is already logged in leaves a stale or a double entry at once. */
  lemma SecondLoginBreaks(w: World, a: Action)
    requires Enabled(w, a) && Consistent(w) && !FirstLogin(w, a)
    ensures Act(w, a).gws[a.g].doing.Idle? && !Exact(Act(w, a), a.g)
  {
    var gw := w.gws[a.g];
    var fd, u := gw.doing.fd, gw.doing.u;
    assert TablesOk(gw) && EntriesOk(w.redis, gw, a.g);
    var v := gw.tables.conns[fd];
    assert v != "" && gw.tables.LoggedInAs(fd, v);
    var t' := Act(w, a).gws[a.g].tables;
    if v == u {
      assert gw.tables.Lists(fd, u);
      var i :| 0 <= i < |gw.tables.userMap[u]| && gw.tables.userMap[u][i] == fd;
      assert t'.userMap[u][i] == t'.userMap[u][|gw.tables.userMap[u]|] == fd;
    } else {
      assert Entered(gw, fd, v) && (a.g, fd) in w.redis.Devices(v);
      assert !t'.LoggedInAs(fd, v);
    }
  }

  /** Presence is exact between operations throughout a run if and only if no connection logs in twice. */
  lemma {:induction false} ExactIffFirstLogins(worlds: seq<World>, actions: seq<Action>, n: nat)
    requires IsRun(worlds, actions) && n <= |actions|
    ensures AlwaysExact(worlds, n + 1) <==> OnlyFirstLogins(worlds, actions, n)
    ensures OnlyFirstLogins(worlds, actions, n) ==> Consistent(worlds[n])
  {
    if n == 0 {
      ConsistentEverywhere(worlds, 0);
    } else {
      ExactIffFirstLogins(worlds, actions, n - 1);
      RunStep(worlds, actions, n - 1);
      var w, a := worlds[n - 1], actions[n - 1];
      LoginsSplit(worlds, actions, n);
      ExactSplit(worlds, n);
      hide Consistent, Exact, FirstLogin, Act, IsRun, Enabled, AlwaysExact, OnlyFirstLogins;
      if OnlyFirstLogins(worlds, actions, n - 1) {
        if FirstLogin(w, a) {
          ActConsistent(w, a);
          ConsistentEverywhere(worlds, n);
        } else {
          SecondLoginBreaks(w, a);
        }
      }
    }
  }

  /** One gateway on an empty Redis, up to the world `w`. */
  ghost predicate Reaches(worlds: seq<World>, actions: seq<Action>, w: World) {
    IsRun(worlds, actions) && |worlds[0].gws| == 1 && worlds[|actions|] == w
  }

  lemma OneActionMore(worlds: seq<World>, actions: seq<Action>, w: World, a: Action)
    returns (worlds': seq<World>, actions': seq<Action>)
    requires Reaches(worlds, actions, w) && Enabled(w, a)
    ensures worlds' == worlds + [Act(w, a)] && actions' == actions + [a] && Reaches(worlds', actions', Act(w, a))
  {
    hide Enabled, Act;
    worlds', actions' := worlds + [Act(w, a)], actions + [a];
  }

  lemma FirstLoginRun(fd: Fd, u: User) returns (worlds: seq<World>, actions: seq<Action>)
    requires u != ""
    ensures Reaches(worlds, actions, World(Directory(map[u := {(0, fd)}], {u}),
                                           [Gateway(Tables(map[fd := u], map[u := [fd]]), Idle)])) && |actions| == 3
  {
    var w0 := World(Directory(map[], {}), [Gateway(Tables(map[], map[]), Idle)]);
    worlds, actions := [w0], [];
    assert Reaches(worlds, actions, w0);
    hide Reaches;
    var w1 := Act(w0, Accept(0, fd));
    worlds, actions := OneActionMore(worlds, actions, w0, Accept(0, fd));
    var w2 := Act(w1, LoginCall(0, fd, u));
    worlds, actions := OneActionMore(worlds, actions, w1, LoginCall(0, fd, u));
    var w3 := Act(w2, LoginReturn(0));
    worlds, actions := OneActionMore(worlds, actions, w2, LoginReturn(0));
    assert w1.redis.Devices(u) + {(0, fd)} == {(0, fd)};
    assert w3.redis.devices == map[u := {(0, fd)}] && w3.redis.online == {u};
    assert [] + [fd] == [fd];
    assert w3.gws[0].tables.conns == map[fd := u] && w3.gws[0].tables.userMap == map[u := [fd]];
    assert w3.gws == [Gateway(Tables(map[fd := u], map[u := [fd]]), Idle)];
  }

  /** It happens in five steps: a connection that logs in under a second name stays present under the first. */
  lemma SecondLoginRun(fd: Fd, u: User, v: User) returns (worlds: seq<World>, actions: seq<Action>)
    requires u != "" && v != "" && u != v
    ensures IsRun(worlds, actions) && |actions| == 5 && |worlds[5].gws| == 1
    ensures var w := worlds[5];
            && w.gws[0].doing.Idle? && w.gws[0].tables.LoggedInAs(fd, v) && !w.gws[0].tables.LoggedInAs(fd, u)
            && (0, fd) in w.redis.Devices(u) && w.gws[0].tables.Lists(fd, u) && u in w.redis.online
  {
    var w3 := World(Directory(map[u := {(0, fd)}], {u}), [Gateway(Tables(map[fd := u], map[u := [fd]]), Idle)]);
    worlds, actions := FirstLoginRun(fd, u);
    hide Reaches;
    var w4 := Act(w3, LoginCall(0, fd, v));
    worlds, actions := OneActionMore(worlds, actions, w3, LoginCall(0, fd, v));
    var w5 := Act(w4, LoginReturn(0));
    worlds, actions := OneActionMore(worlds, actions, w4, LoginReturn(0));
    ReachesMeans(worlds, actions, w5);
  }

  lemma ReachesMeans(worlds: seq<World>, actions: seq<Action>, w: World)
    requires Reaches(worlds, actions, w)
    ensures IsRun(worlds, actions) && |worlds| == |actions| + 1 && worlds[|actions|] == w
  {
    hide Enabled, Act;
  }

  lemma RunStep(worlds: seq<World>, actions: seq<Action>, i: nat)
    requires IsRun(worlds, actions) && i < |actions|
    ensures Enabled(worlds[i], actions[i]) && worlds[i + 1] == Act(worlds[i], actions[i])
  {
    hide Enabled, Act;
    var a := actions[i];
  }

  lemma LoginsSplit(worlds: seq<World>, actions: seq<Action>, n: nat)
    requires IsRun(worlds, actions) && 0 < n <= |actions|
    ensures Enabled(worlds[n - 1], actions[n - 1])
    ensures OnlyFirstLogins(worlds, actions, n) <==>
            OnlyFirstLogins(worlds, actions, n - 1) && FirstLogin(worlds[n - 1], actions[n - 1])
  {
    RunStep(worlds, actions, n - 1);
    hide Enabled, Act, FirstLogin;
  }

  lemma ExactSplit(worlds: seq<World>, n: nat)
    requires n < |worlds|
    ensures AlwaysExact(worlds, n + 1) <==>
            AlwaysExact(worlds, n) &&
            forall g: nat :: g < |worlds[n].gws| && worlds[n].gws[g].doing.Idle? ==> Exact(worlds[n], g)
  {
    hide Exact;
  }

  lemma ConsistentEverywhere(worlds: seq<World>, k: nat)
    requires k < |worlds| && Consistent(worlds[k])
    ensures forall g: nat :: 0 <= g < |worlds[k].gws| && worlds[k].gws[g].doing.Idle? ==> Exact(worlds[k], g)
  {
    forall g: nat | 0 <= g < |worlds[k].gws| && worlds[k].gws[g].doing.Idle? ensures Exact(worlds[k], g) {
      ConsistentMeansExact(worlds[k], g);
    }
  }

  // ---------- What holds with repeated logins, too ----------

  ghost predicate NotForgotten(w: World) {
    && OnlineMeansDevices(w.redis)
    && forall g: nat :: 0 <= g < |w.gws| ==> Remembered(w.redis, w.gws[g], g)
  }

  ghost predicate Remembered(d: Directory, gw: Gateway, g: nat) {
    && (forall fd: Fd, u :: Entered(gw, fd, u) ==> (g, fd) in d.Devices(u))
    && (forall fd: Fd, u :: Mapped(gw, fd, u) ==> gw.tables.Lists(fd, u))
    && DoingOk(gw)
  }

  lemma EntryKept(d: Directory, gw: Gateway, a: Action, w: World, fd: Fd, u: User)
    requires Enabled(w, a) && gw == w.gws[a.g] && DoingOk(gw) && CanHangUp(gw, a)
    requires Entered(gw, fd, u) ==> (a.g, fd) in d.Devices(u)
    ensures Entered(Local(gw, a), fd, u) ==> (a.g, fd) in Script(d, gw, a).Devices(u)
  {
  }

  lemma ListKept(gw: Gateway, a: Action, w: World, fd: Fd, u: User)
    requires Enabled(w, a) && gw == w.gws[a.g] && DoingOk(gw) && CanHangUp(gw, a)
    requires Mapped(gw, fd, u) ==> gw.tables.Lists(fd, u)
    ensures Mapped(Local(gw, a), fd, u) ==> Local(gw, a).tables.Lists(fd, u)
  {
  }

  lemma ActRemembers(d: Directory, gw: Gateway, a: Action, w: World)
    requires Enabled(w, a) && gw == w.gws[a.g] && Remembered(d, gw, a.g)
    ensures Remembered(Script(d, gw, a), Local(gw, a), a.g)
  {
    if a.HangUp? {
      assert Mapped(gw, a.fd, gw.tables.conns[a.fd]) ==> gw.tables.Lists(a.fd, gw.tables.conns[a.fd]);
    }
    DoingStep(gw, a, w);
    hide Local, Script, Mapped, Entered, DoingOk, CanHangUp;
    forall fd: Fd, u | Entered(Local(gw, a), fd, u) ensures (a.g, fd) in Script(d, gw, a).Devices(u) {
      EntryKept(d, gw, a, w, fd, u);
    }
    forall fd: Fd, u | Mapped(Local(gw, a), fd, u) ensures Local(gw, a).tables.Lists(fd, u) {
      ListKept(gw, a, w, fd, u);
    }
  }

  /** In every run, relogins included: online_users names exactly the users with a device, and every logged-in
      connection of an idle gateway has its entry in Redis and in the user map. */
  lemma {:induction false} LoggedInIsPresent(worlds: seq<World>, actions: seq<Action>, k: nat)
    requires IsRun(worlds, actions) && k < |worlds|
    ensures NotForgotten(worlds[k])
    ensures forall g: nat, fd: Fd, u ::
              (0 <= g < |worlds[k].gws| && worlds[k].gws[g].doing.Idle? &&
                  worlds[k].gws[g].tables.LoggedInAs(fd, u)) ==>
              (g, fd) in worlds[k].redis.Devices(u) && worlds[k].gws[g].tables.Lists(fd, u) &&
                  u in worlds[k].redis.online
  {
    if k > 0 {
      LoggedInIsPresent(worlds, actions, k - 1);
      var w, a := worlds[k - 1], actions[k - 1];
      assert Enabled(w, a) && worlds[k - 1 + 1] == Act(w, a);
      NotForgottenStep(w, a);
    }
    forall g: nat, fd: Fd, u | 0 <= g < |worlds[k].gws| && worlds[k].gws[g].doing.Idle? &&
        worlds[k].gws[g].tables.LoggedInAs(fd, u)
      ensures (g, fd) in worlds[k].redis.Devices(u) && worlds[k].gws[g].tables.Lists(fd, u) &&
              u in worlds[k].redis.online
    {
      assert Remembered(worlds[k].redis, worlds[k].gws[g], g);
      assert Entered(worlds[k].gws[g], fd, u) && Mapped(worlds[k].gws[g], fd, u);
    }
  }

  lemma NotForgottenStep(w: World, a: Action)
    requires Enabled(w, a) && NotForgotten(w)
    ensures NotForgotten(Act(w, a))
  {
    var w' := Act(w, a);
    ScriptOnline(w.redis, w.gws[a.g], a);
    ActRemembers(w.redis, w.gws[a.g], a, w);
    hide Script, Local;
    forall g: nat | 0 <= g < |w'.gws| && g != a.g ensures Remembered(w'.redis, w'.gws[g], g) {
      forall fd: Fd, u | Entered(w'.gws[g], fd, u) ensures (g, fd) in w'.redis.Devices(u) {
        ScriptLeavesOthers(w.redis, w.gws[a.g], a, g, fd, u);
      }
    }
  }
}
