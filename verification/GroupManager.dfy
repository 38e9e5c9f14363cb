/** The two-way group index of gateway/src/GroupManager.cpp: rooms and member sets by group, group sets by user. Each
    operation runs as a whole. Redis keys are typed instead of prefixed strings. */
module GroupManager {
  type User = string

  /** `NoGroup` is the empty id that a failed INCR leaves behind; `Numbered(n)` is "g_n"; clients may send anything. */
  datatype GroupId = NoGroup | Numbered(n: nat) | Other(text: string)

  datatype Room = Room(name: string, creator: User, createdAt: int)

  /** A set key that does not exist reads as empty; `counter` is the INCR counter. */
  datatype Index = Index(rooms: map<GroupId, Room>, members: map<GroupId, set<User>>, groups: map<User, set<GroupId>>,
                         counter: nat)
  {
    function Members(g: GroupId): set<User> {
      if g in members then members[g] else {}
    }

    function Groups(u: User): set<GroupId> {
      if u in groups then groups[u] else {}
    }

    /** HGET room:g name, "" when there is no room. */
    function NameOf(g: GroupId): string {
      if g in rooms then rooms[g].name else ""
    }

    function CreatorOf(g: GroupId): User {
      if g in rooms then rooms[g].creator else ""
    }
  }

  function AddMember(s: Index, g: GroupId, u: User): Index {
    s.(members := s.members[g := s.Members(g) + {u}], groups := s.groups[u := s.Groups(u) + {g}])
  }

  function RemoveMember(s: Index, g: GroupId, u: User): Index {
    s.(members := if g in s.members then s.members[g := s.members[g] - {u}] else s.members,
       groups := if u in s.groups then s.groups[u := s.groups[u] - {g}] else s.groups)
  }

  /** `incrOk` says whether INCR worked; its failure is logged, and the group is created under the empty id. */
  function Create(s: Index, name: string, creator: User, now: int, incrOk: bool): (Index, GroupId) {
    if name == "" || creator == "" then (s, NoGroup) else
    var s1 := if incrOk then s.(counter := s.counter + 1) else s;
    var g := if incrOk then Numbered(s1.counter) else NoGroup;
    (AddMember(s1.(rooms := s1.rooms[g := Room(name, creator, now)]), g, creator), g)
  }

  function Join(s: Index, g: GroupId, u: User): (Index, bool) {
    if g == NoGroup || u == "" || s.NameOf(g) == "" || u in s.Members(g) then (s, false) else (AddMember(s, g, u), true)
  }

  function Leave(s: Index, g: GroupId, u: User): (Index, bool) {
    if g == NoGroup || u == "" then (s, false) else (RemoveMember(s, g, u), true)
  }

  function Dissolve(s: Index, g: GroupId, requester: User): (Index, bool) {
    if s.CreatorOf(g) != requester then (s, false) else
    (s.(rooms := s.rooms - {g}, members := s.members - {g},
        groups := map u | u in s.groups :: if u in s.Members(g) then s.groups[u] - {g} else s.groups[u]), true)
  }

  // ---------- The methods, command by command ----------

  class Manager {
    var rooms: map<GroupId, Room>
    var members: map<GroupId, set<User>>
    var groups: map<User, set<GroupId>>
    var counter: nat

    ghost function State(): Index
      reads this
    {
      Index(rooms, members, groups, counter)
    }

    constructor ()
      ensures State() == EMPTY
    {
      rooms, members, groups, counter := map[], map[], map[], 0;
    }

    method MembersAdd(g: GroupId, u: User)
      modifies `members
      ensures members == old(members)[g := old(State()).Members(g) + {u}]
    {
      members := members[g := (if g in members then members[g] else {}) + {u}];
    }

    method GroupsAdd(u: User, g: GroupId)
      modifies `groups
      ensures groups == old(groups)[u := old(State()).Groups(u) + {g}]
    {
      groups := groups[u := (if u in groups then groups[u] else {}) + {g}];
    }

    method MembersRemove(g: GroupId, u: User)
      modifies `members
      ensures members == if g in old(members) then old(members)[g := old(members)[g] - {u}] else old(members)
    {
      if g in members {
        members := members[g := members[g] - {u}];
      }
    }

    method GroupsRemove(u: User, g: GroupId)
      modifies `groups
      ensures groups == if u in old(groups) then old(groups)[u := old(groups)[u] - {g}] else old(groups)
    {
      if u in groups {
        groups := groups[u := groups[u] - {g}];
      }
    }

    method GenerateGroupId(incrOk: bool) returns (g: GroupId)
      modifies `counter
      ensures incrOk ==> counter == old(counter) + 1 && g == Numbered(counter)
      ensures !incrOk ==> counter == old(counter) && g == NoGroup
    {
      if !incrOk { return NoGroup; }
      counter := counter + 1;
      return Numbered(counter);
    }

    method CreateGroup(name: string, creator: User, now: int, incrOk: bool) returns (g: GroupId)
      modifies this
      ensures (State(), g) == Create(old(State()), name, creator, now, incrOk)
    {
      if name == "" || creator == "" { return NoGroup; }
      g := GenerateGroupId(incrOk);
      rooms := rooms[g := Room(name, creator, now)];
      MembersAdd(g, creator);
      GroupsAdd(creator, g);
    }

    method JoinGroup(g: GroupId, u: User) returns (ok: bool)
      modifies this
      ensures (State(), ok) == Join(old(State()), g, u)
    {
      if g == NoGroup || u == "" { return false; }
      if (if g in rooms then rooms[g].name else "") == "" { return false; }
      if u in (if g in members then members[g] else {}) { return false; }
      MembersAdd(g, u);
      GroupsAdd(u, g);
      return true;
    }

    method LeaveGroup(g: GroupId, u: User) returns (ok: bool)
      modifies this
      ensures (State(), ok) == Leave(old(State()), g, u)
    {
      if g == NoGroup || u == "" { return false; }
      MembersRemove(g, u);
      GroupsRemove(u, g);
      return true;
    }

    /** SMEMBERS once, then one SREM per member, then the two DELs. */
    method DissolveGroup(g: GroupId, requester: User) returns (ok: bool)
      modifies this
      ensures (State(), ok) == Dissolve(old(State()), g, requester)
    {
      if (if g in rooms then rooms[g].creator else "") != requester { return false; }
      var left := if g in members then members[g] else {};
      ghost var all := left;
      while left != {}
        modifies `groups
        invariant left <= all && groups.Keys == old(groups).Keys
        invariant forall u :: u in groups ==>
                    groups[u] == if u in all && u !in left then old(groups)[u] - {g} else old(groups)[u]
        decreases left
      {
        var u :| u in left;
        GroupsRemove(u, g);
        left := left - {u};
      }
      assert all == old(State()).Members(g);
      assert groups == Dissolve(old(State()), g, requester).0.groups;
      members := members - {g};
      rooms := rooms - {g};
      return true;
    }
  }

  const EMPTY: Index := Index(map[], map[], map[], 0)

  // ---------- Agreement over all runs ----------

  datatype Op =
    | DoCreate(name: string, creator: User, now: int, incrOk: bool)
    | DoJoin(g: GroupId, u: User)
    | DoLeave(g: GroupId, u: User)
    | DoDissolve(g: GroupId, requester: User)

  function Step(s: Index, op: Op): Index {
    match op
    case DoCreate(name, creator, now, incrOk) => Create(s, name, creator, now, incrOk).0
    case DoJoin(g, u) => Join(s, g, u).0
    case DoLeave(g, u) => Leave(s, g, u).0
    case DoDissolve(g, requester) => Dissolve(s, g, requester).0
  }

  function Run(s: Index, ops: seq<Op>): Index
    decreases |ops|
  {
    if ops == [] then s else Step(Run(s, ops[..|ops| - 1]), ops[|ops| - 1])
  }

  /** u is a member of g exactly when g is one of u's groups. */
  ghost predicate Agrees(s: Index) {
    forall g, u :: u in s.Members(g) <==> g in s.Groups(u)
  }

  /** Groups with members have a room, every room has a name and a creator, and numbers in use were handed out. */
  ghost predicate Housed(s: Index) {
    && (forall g :: s.Members(g) != {} ==> g in s.rooms)
    && (forall g :: g in s.rooms ==> s.rooms[g].name != "" && s.rooms[g].creator != "")
    && (forall n: nat :: Numbered(n) in s.rooms ==> 1 <= n <= s.counter)
  }

  lemma StepAgreesAt(s: Index, op: Op, g: GroupId, u: User)
    requires u in s.Members(g) <==> g in s.Groups(u)
    ensures u in Step(s, op).Members(g) <==> g in Step(s, op).Groups(u)
  {
    hide AddMember, RemoveMember;
    match op
    case DoCreate(name, creator, now, incrOk) =>
      var s1 := if incrOk then s.(counter := s.counter + 1) else s;
      var h := Create(s, name, creator, now, incrOk).1;
      AddAgrees(s1.(rooms := s1.rooms[h := Room(name, creator, now)]), h, creator, g, u);
    case DoJoin(h, v) => AddAgrees(s, h, v, g, u);
    case DoLeave(h, v) => RemoveAgrees(s, h, v, g, u);
    case DoDissolve(_, _) =>
  }

  lemma AddAgrees(s: Index, h: GroupId, v: User, g: GroupId, u: User)
    ensures u in AddMember(s, h, v).Members(g) <==> u in s.Members(g) || (g == h && u == v)
    ensures g in AddMember(s, h, v).Groups(u) <==> g in s.Groups(u) || (g == h && u == v)
  {
  }

  lemma RemoveAgrees(s: Index, h: GroupId, v: User, g: GroupId, u: User)
    ensures u in RemoveMember(s, h, v).Members(g) <==> u in s.Members(g) && !(g == h && u == v)
    ensures g in RemoveMember(s, h, v).Groups(u) <==> g in s.Groups(u) && !(g == h && u == v)
  {
  }

  lemma StepHoused(s: Index, op: Op, g: GroupId)
    requires Housed(s)
    ensures var t := Step(s, op);
            && s.counter <= t.counter && (t.Members(g) != {} ==> g in t.rooms)
            && (g in t.rooms ==>
                  t.rooms[g].name != "" && t.rooms[g].creator != "" && (g.Numbered? ==> 1 <= g.n <= t.counter))
  {
    assert s.Members(g) != {} ==> g in s.rooms;
    match op
    case DoCreate(_, _, _, _) => HousedCreate(s, op, g);
    case DoJoin(h, v) => MembersAfter(s, h, v, g); hide AddMember;
    case DoLeave(h, v) => MembersAfter(s, h, v, g); hide RemoveMember;
    case DoDissolve(_, _) =>
  }

  lemma HousedCreate(s: Index, op: Op, g: GroupId)
    requires Housed(s) && op.DoCreate?
    ensures var t := Step(s, op);
            && s.counter <= t.counter && (t.Members(g) != {} ==> g in t.rooms)
            && (g in t.rooms ==>
                  t.rooms[g].name != "" && t.rooms[g].creator != "" && (g.Numbered? ==> 1 <= g.n <= t.counter))
  {
    if Creates(op) {
      var s1 := if op.incrOk then s.(counter := s.counter + 1) else s;
      var h := Create(s, op.name, op.creator, op.now, op.incrOk).1;
      var s2 := s1.(rooms := s1.rooms[h := Room(op.name, op.creator, op.now)]);
      assert Step(s, op) == AddMember(s2, h, op.creator);
      MembersAfter(s2, h, op.creator, g);
      hide Step, Create, AddMember;
      assert s2.Members(g) == s.Members(g);
    }
  }

  lemma MembersAfter(s: Index, h: GroupId, v: User, g: GroupId)
    ensures var t := AddMember(s, h, v);
            t.rooms == s.rooms && t.counter == s.counter && t.Members(g) == s.Members(g) + if g == h then {v} else {}
    ensures var t := RemoveMember(s, h, v);
            t.rooms == s.rooms && t.counter == s.counter && t.Members(g) == s.Members(g) - if g == h then {v} else {}
  {
  }

  lemma StepAgrees(s: Index, op: Op)
    requires Agrees(s) && Housed(s)
    ensures Agrees(Step(s, op)) && Housed(Step(s, op))
  {
    hide Step;
    forall g, u ensures u in Step(s, op).Members(g) <==> g in Step(s, op).Groups(u) {
      StepAgreesAt(s, op, g, u);
    }
    forall g: GroupId
      ensures Step(s, op).Members(g) != {} ==> g in Step(s, op).rooms
      ensures g in Step(s, op).rooms ==> Step(s, op).rooms[g].name != "" && Step(s, op).rooms[g].creator != ""
      ensures g in Step(s, op).rooms && g.Numbered? ==> 1 <= g.n <= Step(s, op).counter
    {
      StepHoused(s, op, g);
    }
  }

  /** After any sequence of operations, failed INCRs included, the two directions of the index agree. */
  lemma {:induction false} IndexAgreement(ops: seq<Op>)
    ensures var s := Run(EMPTY, ops); Agrees(s) && Housed(s)
    decreases |ops|
  {
    if ops != [] {
      IndexAgreement(ops[..|ops| - 1]);
      StepAgrees(Run(EMPTY, ops[..|ops| - 1]), ops[|ops| - 1]);
    }
  }

  lemma {:induction false} CounterGrows(s: Index, ops: seq<Op>)
    ensures s.counter <= Run(s, ops).counter
    decreases |ops|
  {
    if ops != [] {
      CounterGrows(s, ops[..|ops| - 1]);
    }
  }

  lemma {:induction false} RunSplit(s: Index, a: seq<Op>, b: seq<Op>)
    ensures Run(s, a + b) == Run(Run(s, a), b)
    decreases |b|
  {
    if b == [] {
      assert a + b == a;
    } else {
      assert (a + b)[..|a + b| - 1] == a + b[..|b| - 1];
      RunSplit(s, a, b[..|b| - 1]);
    }
  }

  /** The id a successful creation returns was never returned before and named no room or member set at any earlier
      moment, whatever happened in between. */
  lemma FreshIds(before: seq<Op>, between: seq<Op>, name: string, creator: User, now: int)
    requires name != "" && creator != ""
    ensures var s := Run(EMPTY, before);
            var (_, g) := Create(Run(EMPTY, before + between), name, creator, now, true);
            g.Numbered? && g.n > s.counter && g !in s.rooms && s.Members(g) == {}
  {
    IndexAgreement(before);
    RunSplit(EMPTY, before, between);
    CounterGrows(Run(EMPTY, before), between);
  }

  /** A creation that the code carries out. */
  predicate Creates(op: Op) {
    op.DoCreate? && op.name != "" && op.creator != ""
  }

  /** The id that operation `i` handed out. */
  function IdOf(ops: seq<Op>, i: nat): GroupId
    requires i < |ops| && Creates(ops[i])
  {
    Create(Run(EMPTY, ops[..i]), ops[i].name, ops[i].creator, ops[i].now, ops[i].incrOk).1
  }

  ghost predicate HandedOut(ops: seq<Op>, g: GroupId) {
    exists i :: 0 <= i < |ops| && Creates(ops[i]) && IdOf(ops, i) == g
  }

  ghost predicate FailedBefore(ops: seq<Op>) {
    exists i :: 0 <= i < |ops| && Creates(ops[i]) && !ops[i].incrOk
  }

  lemma HandedOutBelow(ops: seq<Op>, i: nat)
    requires i < |ops| && Creates(ops[i])
    ensures var g := IdOf(ops, i);
            if ops[i].incrOk then g.Numbered? && g.n <= Run(EMPTY, ops).counter else g == NoGroup
  {
    hide Create, Step, Run;
    CreateId(Run(EMPTY, ops[..i]), ops[i]);
    RunOneMore(ops, i);
    CounterSince(ops, i + 1);
  }

  lemma CounterSince(ops: seq<Op>, k: nat)
    requires k <= |ops|
    ensures Run(EMPTY, ops[..k]).counter <= Run(EMPTY, ops).counter
  {
    hide Run;
    assert ops == ops[..k] + ops[k..];
    RunSplit(EMPTY, ops[..k], ops[k..]);
    CounterGrows(Run(EMPTY, ops[..k]), ops[k..]);
  }

  lemma RunOneMore(ops: seq<Op>, i: nat)
    requires i < |ops|
    ensures Run(EMPTY, ops[..i + 1]) == Step(Run(EMPTY, ops[..i]), ops[i])
  {
    hide Step;
    assert ops[..i + 1][..i] == ops[..i];
  }

  lemma CreateId(s: Index, op: Op)
    requires Creates(op)
    ensures var g := Create(s, op.name, op.creator, op.now, op.incrOk).1;
            if op.incrOk then g == Numbered(Step(s, op).counter) else g == NoGroup
  {
  }

  /** An id is handed out a second time exactly when INCR fails now and has failed in a creation before. */
  lemma ReusedIff(ops: seq<Op>, name: string, creator: User, now: int, incrOk: bool)
    requires name != "" && creator != ""
    ensures HandedOut(ops, Create(Run(EMPTY, ops), name, creator, now, incrOk).1) <==> !incrOk && FailedBefore(ops)
  {
    var g := Create(Run(EMPTY, ops), name, creator, now, incrOk).1;
    forall i | 0 <= i < |ops| && Creates(ops[i]) ensures IdOf(ops, i) == g <==> !incrOk && !ops[i].incrOk {
      HandedOutBelow(ops, i);
    }
  }

  /** What a reuse does, at any time: the new room replaces the old one, whose members become members of the new. */
  lemma ReuseMixes(ops: seq<Op>, name: string, creator: User, now: int)
    requires name != "" && creator != ""
    ensures var s := Run(EMPTY, ops); var (t, g) := Create(s, name, creator, now, false);
            && t.rooms[g] == Room(name, creator, now) && t.Members(g) == s.Members(g) + {creator}
            && forall u :: g in t.Groups(u) <==> u in s.Members(g) || u == creator
  {
    IndexAgreement(ops);
    var s := Run(EMPTY, ops);
    forall u ensures NoGroup in s.Groups(u) <==> u in s.Members(NoGroup) {
    }
  }

  /** After a dissolve that succeeds nothing refers to the group any more; all other groups are as before. */
  lemma DissolveForgets(ops: seq<Op>, g: GroupId, requester: User)
    requires Dissolve(Run(EMPTY, ops), g, requester).1
    ensures var s, t := Run(EMPTY, ops), Dissolve(Run(EMPTY, ops), g, requester).0;
            && g !in t.rooms && t.Members(g) == {} && (forall u :: g !in t.Groups(u))
            && (forall h :: h != g ==> t.Members(h) == s.Members(h) && (h in t.rooms <==> h in s.rooms))
            && (forall u, h :: h != g ==> (h in t.Groups(u) <==> h in s.Groups(u)))
  {
    var s := Run(EMPTY, ops);
    IndexAgreement(ops);
    forall u ensures g !in Dissolve(s, g, requester).0.Groups(u) {
      assert u in s.Members(g) <==> g in s.Groups(u);
    }
  }

  /** A join works exactly for a named user who is not yet in an existing group, and adds just that membership. */
  lemma JoinAdds(ops: seq<Op>, g: GroupId, u: User)
    ensures var s := Run(EMPTY, ops); var (t, ok) := Join(s, g, u);
            && (ok <==> g != NoGroup && u != "" && g in s.rooms && u !in s.Members(g)) && t.rooms == s.rooms
            && if ok then OneMore(s, t, g, u) else t == s
  {
    IndexAgreement(ops);
    var s := Run(EMPTY, ops);
    hide Run, AddMember;
    MembersAfter(s, g, u, g);
    AddsOne(s, g, u);
  }

  /** The memberships of `t` are those of `s` and (g, u). */
  ghost predicate OneMore(s: Index, t: Index, g: GroupId, u: User) {
    && (forall h, v :: v in t.Members(h) <==> v in s.Members(h) || (h == g && v == u))
    && (forall h, v :: h in t.Groups(v) <==> h in s.Groups(v) || (h == g && v == u))
  }

  ghost predicate OneLess(s: Index, t: Index, g: GroupId, u: User) {
    && (forall h, v :: v in t.Members(h) <==> v in s.Members(h) && !(h == g && v == u))
    && (forall h, v :: h in t.Groups(v) <==> h in s.Groups(v) && !(h == g && v == u))
  }

  lemma AddsOne(s: Index, g: GroupId, u: User)
    ensures OneMore(s, AddMember(s, g, u), g, u)
  {
    var t := AddMember(s, g, u);
    hide AddMember;
    forall h, v ensures v in t.Members(h) <==> v in s.Members(h) || (h == g && v == u) {
      AddAgrees(s, g, u, h, v);
    }
    forall h, v ensures h in t.Groups(v) <==> h in s.Groups(v) || (h == g && v == u) {
      AddAgrees(s, g, u, h, v);
    }
  }

  lemma RemovesOne(s: Index, g: GroupId, u: User)
    ensures OneLess(s, RemoveMember(s, g, u), g, u)
  {
    var t := RemoveMember(s, g, u);
    hide RemoveMember;
    forall h, v ensures v in t.Members(h) <==> v in s.Members(h) && !(h == g && v == u) {
      RemoveAgrees(s, g, u, h, v);
    }
    forall h, v ensures h in t.Groups(v) <==> h in s.Groups(v) && !(h == g && v == u) {
      RemoveAgrees(s, g, u, h, v);
    }
  }

  /** A leave takes away just that membership, whether there was one or not. */
  lemma LeaveRemoves(s: Index, g: GroupId, u: User)
    ensures var (t, ok) := Leave(s, g, u);
            && (ok <==> g != NoGroup && u != "") && t.rooms == s.rooms
            && if ok then OneLess(s, t, g, u) else t == s
  {
    hide RemoveMember, OneLess;
    MembersAfter(s, g, u, g);
    RemovesOne(s, g, u);
  }

  /** A creation with a name and a creator makes the room and the creator its only new member. */
  lemma CreateAdds(s: Index, name: string, creator: User, now: int, incrOk: bool)
    ensures var (t, g) := Create(s, name, creator, now, incrOk);
            if name == "" || creator == "" then t == s && g == NoGroup else
              && t.rooms == s.rooms[g := Room(name, creator, now)]
              && g == (if incrOk then Numbered(s.counter + 1) else NoGroup) && OneMore(s, t, g, creator)
  {
    var s1 := if incrOk then s.(counter := s.counter + 1) else s;
    var g := Create(s, name, creator, now, incrOk).1;
    var s2 := s1.(rooms := s1.rooms[g := Room(name, creator, now)]);
    hide AddMember, OneMore;
    AddsOne(s2, g, creator);
    MembersAfter(s2, g, creator, g);
    SameMembers(s, s2, AddMember(s2, g, creator), g, creator);
  }

  lemma SameMembers(s: Index, s2: Index, t: Index, g: GroupId, u: User)
    requires s2.members == s.members && s2.groups == s.groups && OneMore(s2, t, g, u)
    ensures OneMore(s, t, g, u)
  {
    forall h ensures s2.Members(h) == s.Members(h) {
    }
    forall v ensures s2.Groups(v) == s.Groups(v) {
    }
    hide Index.Members, Index.Groups;
  }

  /** A group is dissolved by its creator and nobody else. */
  lemma DissolvedIff(ops: seq<Op>, g: GroupId, requester: User)
    requires requester != ""
    ensures var s := Run(EMPTY, ops); var (t, ok) := Dissolve(s, g, requester);
            (ok <==> g in s.rooms && s.rooms[g].creator == requester) && (!ok ==> t == s)
  {
  }

  /** Joining and leaving undo each other. */
  lemma JoinThenLeave(ops: seq<Op>, g: GroupId, u: User)
    requires Join(Run(EMPTY, ops), g, u).1
    ensures var s := Run(EMPTY, ops); var t := Leave(Join(s, g, u).0, g, u).0;
            (forall h :: t.Members(h) == s.Members(h)) && (forall v :: t.Groups(v) == s.Groups(v)) && t.rooms == s.rooms
  {
    IndexAgreement(ops);
    var s := Run(EMPTY, ops);
    assert u !in s.Members(g) && g !in s.Groups(u);
  }
}
