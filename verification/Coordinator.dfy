/** Joining, leaving and expiring: every change of a group's membership bumps its generation and reassigns
    (src/broker/groups.rs). */
module Coordinator {
  import opened Bytes
  import opened Messages
  import opened Groups

  datatype Member = Member(topics: seq<str>, sessionTimeout: nat, lastHeartbeat: nat)

  datatype Group = Group(generation: nat, members: map<str, Member>, assignment: Assignment)

  datatype JoinOutcome = JoinOutcome(memberId: str, generation: nat, assignment: seq<Owned>)

  /** `counted` is what each topic had when the group was last reassigned. */
  datatype State = State(groups: map<str, Group>, nextMember: nat, counted: map<str, Counts>)

  function Subs(members: map<str, Member>): (s: Subscriptions)
    ensures s.Keys == members.Keys
  {
    map id | id in members :: members[id].topics
  }

  function Digits(n: nat): str {
    if n < 10 then [0x30 + n] else Digits(n / 10) + [0x30 + n % 10]
  }

  /** "m-" and the number. */
  function MemberName(n: nat): str { [0x6D, 0x2D] + Digits(n) }

  function Reassigned(g: Group, members: map<str, Member>, counts: Counts): Group {
    Group(g.generation + 1, members, Assigned(Subs(members), counts))
  }

  function GroupOf(s: State, group: str): Group {
    if group in s.groups then s.groups[group] else Group(0, map[], map[])
  }

  /** An unknown or empty member id gets a new one. */
  function IdFor(s: State, group: str, memberId: str): str {
    if memberId == [] || memberId !in GroupOf(s, group).members then MemberName(s.nextMember) else memberId
  }

  function AfterJoin(s: State, group: str, memberId: str, timeout: nat, topics: seq<str>, now: nat,
                     counts: Counts): State {
    var g := GroupOf(s, group);
    var m := Member(topics, timeout, now);
    if memberId == [] || memberId !in g.members then
      var id := MemberName(s.nextMember);
      State(s.groups[group := Reassigned(g, g.members[id := m], counts)], s.nextMember + 1, s.counted[group := counts])
    else if g.members[memberId].topics != topics then
      s.(groups := s.groups[group := Reassigned(g, g.members[memberId := m], counts)],
          counted := s.counted[group := counts])
    else s.(groups := s.groups[group := g.(members := g.members[memberId := m])])
  }

  function HeartbeatError(s: State, group: str, memberId: str, generation: nat): ErrorCode {
    if group !in s.groups || memberId !in s.groups[group].members then UnknownMember
    else if generation != s.groups[group].generation then StaleGeneration
    else NoError
  }

  function AfterHeartbeat(s: State, group: str, memberId: str, now: nat): State {
    if group !in s.groups || memberId !in s.groups[group].members then s
    else
      var g := s.groups[group];
      s.(groups := s.groups[group := g.(members := g.members[memberId := g.members[memberId].(lastHeartbeat := now)])])
  }

  function AfterLeave(s: State, group: str, memberId: str, counts: Counts): State {
    if group !in s.groups || memberId !in s.groups[group].members then s
    else
      var g := s.groups[group];
      s.(groups := s.groups[group := Reassigned(g, g.members - {memberId}, counts)],
          counted := s.counted[group := counts])
  }

  function Silent(members: map<str, Member>, now: nat): set<str> {
    set id | id in members && now > members[id].lastHeartbeat + members[id].sessionTimeout
  }

  function ExpiredGroup(g: Group, now: nat, counts: Counts): Group {
    if Silent(g.members, now) == {} then g else Reassigned(g, g.members - Silent(g.members, now), counts)
  }

  function ExpiredGroups(groups: map<str, Group>, now: nat, counts: Counts): (r: map<str, Group>)
    ensures r.Keys == groups.Keys
    ensures forall group {:trigger r[group]} :: group in r ==> r[group] == ExpiredGroup(groups[group], now, counts)
  {
    map group | group in groups :: ExpiredGroup(groups[group], now, counts)
  }

  /** The counts that each group's assignment is over, after some have been reassigned over `counts`. */
  function ExpiredCounts(groups: map<str, Group>, counted: map<str, Counts>, now: nat,
                         counts: Counts): (r: map<str, Counts>)
    requires groups.Keys == counted.Keys
    ensures r.Keys == counted.Keys
    ensures forall group {:trigger r[group]} :: group in r ==>
              r[group] == if Silent(groups[group].members, now) != {} then counts else counted[group]
  {
    map group | group in counted :: if Silent(groups[group].members, now) != {} then counts else counted[group]
  }

  function AfterExpire(s: State, now: nat, counts: Counts): State
    requires s.groups.Keys == s.counted.Keys
  {
    s.(groups := ExpiredGroups(s.groups, now, counts), counted := ExpiredCounts(s.groups, s.counted, now, counts))
  }

  // ---------------------------------------------------------------- invariants

  /** Every group's assignment is the range assignment of its members over the counts of the last bump. */
  ghost predicate Inv(s: State) {
    && s.counted.Keys == s.groups.Keys
    && forall group {:trigger s.groups[group]} :: group in s.groups ==> GroupOk(s.groups[group], s.counted[group])
  }

  ghost predicate GroupOk(g: Group, counts: Counts) {
    g.generation > 0 && g.assignment == Assigned(Subs(g.members), counts)
  }

  /** A later state of a group: a higher generation, or the same members' subscriptions and the same assignment. */
  ghost predicate GroupLater(a: Group, b: Group) {
    a.generation < b.generation
    || (a.generation == b.generation && a.assignment == b.assignment && Subs(a.members) == Subs(b.members))
  }

  ghost predicate Later(s: State, t: State) {
    && s.groups.Keys <= t.groups.Keys
    && forall group {:trigger s.groups[group]} {:trigger t.groups[group]} :: group in s.groups && group in t.groups
         ==> GroupLater(s.groups[group], t.groups[group])
  }

  datatype Event =
    | Join(group: str, memberId: str, timeout: nat, topics: seq<str>, now: nat, counts: Counts)
    | Beat(group: str, memberId: str, now: nat)
    | Leave(group: str, memberId: str, counts: Counts)
    | Expire(now: nat, counts: Counts)

  function Apply(s: State, e: Event): State
    requires s.groups.Keys == s.counted.Keys
  {
    match e
    case Join(group, memberId, timeout, topics, now, counts) =>
        AfterJoin(s, group, memberId, timeout, topics, now, counts)
    case Beat(group, memberId, now) => AfterHeartbeat(s, group, memberId, now)
    case Leave(group, memberId, counts) => AfterLeave(s, group, memberId, counts)
    case Expire(now, counts) => AfterExpire(s, now, counts)
  }

  ghost predicate Run(s: State, events: seq<Event>, t: State)
    decreases |events|
  {
    if events == [] then s == t else s.groups.Keys == s.counted.Keys && Run(Apply(s, events[0]), events[1..], t)
  }

  lemma SameSubs(members: map<str, Member>, id: str, m: Member)
    requires id in members && members[id].topics == m.topics
    ensures Subs(members[id := m]) == Subs(members)
  {
  }

  /** One group takes a later, good state. */
  lemma PutGroup(s: State, t: State, group: str)
    requires Inv(s) && group in t.groups && group in t.counted
    requires t.groups == s.groups[group := t.groups[group]] && t.counted == s.counted[group := t.counted[group]]
    requires GroupOk(t.groups[group], t.counted[group])
    requires group in s.groups ==> GroupLater(s.groups[group], t.groups[group])
    ensures Inv(t) && Later(s, t)
  {
    hide GroupOk;
    forall g | g in s.groups ensures GroupLater(s.groups[g], t.groups[g]) {
    }
  }

  lemma StateSame(s: State)
    requires Inv(s)
    ensures Later(s, s)
  {
    hide Subs, GroupOk;
  }

  lemma ReassignedOk(g: Group, members: map<str, Member>, counts: Counts)
    ensures GroupOk(Reassigned(g, members, counts), counts) && GroupLater(g, Reassigned(g, members, counts))
  {
    hide Assigned, Subs;
  }

  lemma KeysMatch(s: State)
    requires Inv(s)
    ensures s.groups.Keys == s.counted.Keys
  {
    hide GroupOk;
  }

  lemma JoinStep(s: State, e: Event)
    requires Inv(s) && e.Join?
    ensures s.groups.Keys == s.counted.Keys
    ensures Inv(Apply(s, e)) && Later(s, Apply(s, e))
  {
    KeysMatch(s);
    hide Assigned, MemberName, GroupOk, GroupLater, Reassigned, Inv, Later;
    var g := GroupOf(s, e.group);
    var m := Member(e.topics, e.timeout, e.now);
    var t := Apply(s, e);
    if e.memberId == [] || e.memberId !in g.members {
      ReassignedOk(g, g.members[MemberName(s.nextMember) := m], e.counts);
    } else if g.members[e.memberId].topics != e.topics {
      ReassignedOk(g, g.members[e.memberId := m], e.counts);
    } else {
      SameSubs(g.members, e.memberId, m);
      SameGroup(s, e.group, g, g.members[e.memberId := m]);
    }
    PutGroup(s, t, e.group);
  }

  lemma SameGroup(s: State, group: str, g: Group, members: map<str, Member>)
    requires Inv(s) && g == GroupOf(s, group) && Subs(members) == Subs(g.members) && g.members != map[]
    ensures group in s.groups && group in s.counted && GroupOk(g.(members := members), s.counted[group])
    ensures GroupLater(g, g.(members := members))
    ensures s.counted == s.counted[group := s.counted[group]]
  {
    hide Assigned, Subs;
  }

  lemma BeatStep(s: State, e: Event)
    requires Inv(s) && e.Beat?
    ensures s.groups.Keys == s.counted.Keys
    ensures Inv(Apply(s, e)) && Later(s, Apply(s, e))
  {
    KeysMatch(s);
    hide GroupOk, GroupLater, Inv, Later;
    StateSame(s);
    if e.group in s.groups && e.memberId in s.groups[e.group].members {
      var g := s.groups[e.group];
      var m := g.members[e.memberId].(lastHeartbeat := e.now);
      SameSubs(g.members, e.memberId, m);
      SameGroup(s, e.group, g, g.members[e.memberId := m]);
      PutGroup(s, Apply(s, e), e.group);
    }
  }

  lemma LeaveStep(s: State, e: Event)
    requires Inv(s) && e.Leave?
    ensures s.groups.Keys == s.counted.Keys
    ensures Inv(Apply(s, e)) && Later(s, Apply(s, e))
  {
    KeysMatch(s);
    hide GroupOk, GroupLater, Inv, Later, Reassigned;
    StateSame(s);
    if e.group in s.groups && e.memberId in s.groups[e.group].members {
      ReassignedOk(s.groups[e.group], s.groups[e.group].members - {e.memberId}, e.counts);
      PutGroup(s, Apply(s, e), e.group);
    }
  }

  lemma ExpireStep(s: State, e: Event)
    requires Inv(s) && e.Expire?
    ensures s.groups.Keys == s.counted.Keys
    ensures Inv(Apply(s, e)) && Later(s, Apply(s, e))
  {
    hide GroupOk, GroupLater, ExpiredGroup, ExpiredGroups, ExpiredCounts, Silent;
    var t := Apply(s, e);
    forall group | group in s.groups
      ensures GroupOk(t.groups[group], t.counted[group]) && GroupLater(s.groups[group], t.groups[group])
    {
      ExpireKeeps(s.groups[group], s.counted[group], e.now, e.counts);
    }
  }

  lemma ExpireKeeps(g: Group, old_: Counts, now: nat, counts: Counts)
    requires GroupOk(g, old_)
    ensures GroupOk(ExpiredGroup(g, now, counts), if Silent(g.members, now) != {} then counts else old_)
    ensures GroupLater(g, ExpiredGroup(g, now, counts))
  {
    hide GroupOk, GroupLater, Reassigned, Silent;
    ReassignedOk(g, g.members - Silent(g.members, now), counts);
    SameLater(g);
  }

  lemma SameLater(g: Group)
    ensures GroupLater(g, g)
  {
  }

  lemma LaterLater(s: State, t: State, u: State)
    requires Later(s, t) && Later(t, u)
    ensures Later(s, u)
  {
    hide Subs;
  }

  lemma LaterSame(s: State)
    ensures Later(s, s)
  {
    hide Subs;
  }

  /** Over any run the assignments stay range assignments, no group's generation goes back, and a generation
      determines who is assigned what. */
  lemma {:induction false} RunKeeps(s: State, events: seq<Event>, t: State)
    requires Inv(s) && Run(s, events, t)
    ensures Inv(t) && Later(s, t)
    decreases |events|
  {
    hide Inv, Later, Apply;
    if events == [] {
      LaterSame(s);
    } else {
      var m := Apply(s, events[0]);
      match events[0] {
        case Join(_, _, _, _, _, _) => JoinStep(s, events[0]);
        case Beat(_, _, _) => BeatStep(s, events[0]);
        case Leave(_, _, _) => LeaveStep(s, events[0]);
        case Expire(_, _) => ExpireStep(s, events[0]);
      }
      RunKeeps(m, events[1..], t);
      LaterLater(s, m, t);
    }
  }

  /** In every reachable state each partition of each known, subscribed topic has exactly one owner in the group. */
  lemma OneOwnerInGroup(s: State, events: seq<Event>, t: State, group: str, topic: str, p: u32)
    requires Inv(s) && Run(s, events, t) && group in t.groups
    ensures group in t.counted
    ensures var g, counts := t.groups[group], t.counted[group];
            && ((exists id :: Owns(g.assignment, id, topic, p)) <==>
                topic in counts && p < counts[topic] && exists id :: id in g.members && topic in g.members[id].topics)
            && (forall a, b :: Owns(g.assignment, a, topic, p) && Owns(g.assignment, b, topic, p) ==> a == b)
            && (forall id :: Owns(g.assignment, id, topic, p) ==> id in g.members && topic in g.members[id].topics)
  {
    RunKeeps(s, events, t);
    hide Run, Assigned, Owns;
    ExactlyOneOwner(Subs(t.groups[group].members), t.counted[group], topic, p);
  }

  /** A member that has missed a rebalance is fenced: once a group has gone to a later generation, or its members,
      their subscriptions or its assignment are others, every heartbeat and every fenced commit under an earlier
      generation is refused, whatever happens afterwards. */
  lemma ZombieIsFenced(s: State, events: seq<Event>, t: State, group: str, memberId: str, generation: nat)
    requires Inv(s) && Run(s, events, t) && group in s.groups && generation <= s.groups[group].generation
    ensures group in t.groups
    ensures var g, h := s.groups[group], t.groups[group];
            g.generation < h.generation || g.assignment != h.assignment || Subs(g.members) != Subs(h.members) ==>
              HeartbeatError(t, group, memberId, generation) in {StaleGeneration, UnknownMember}
    ensures var g, h := s.groups[group], t.groups[group];
            HeartbeatError(t, group, memberId, generation) == NoError <==>
              memberId in h.members && generation == g.generation == h.generation
  {
    RunKeeps(s, events, t);
    hide Run, GroupOk, Subs;
  }

  // ---------------------------------------------------------------- each request, over the fields

  /** A join puts the member in the group: under the next unused name if it has none there, and under its own
      otherwise. The generation grows, and the topics are shared out again, exactly if the member is new or has
      changed its topics. */
  lemma JoinIs(s: State, group: str, memberId: str, timeout: nat, topics: seq<str>, now: nat, counts: Counts)
    ensures var t := AfterJoin(s, group, memberId, timeout, topics, now, counts);
            var g := if group in s.groups then s.groups[group] else Group(0, map[], map[]);
            var isNew := memberId == [] || memberId !in g.members;
            var id := if isNew then MemberName(s.nextMember) else memberId;
            var changed := isNew || g.members[memberId].topics != topics;
            && t.groups.Keys == s.groups.Keys + {group}
            && (forall other :: other in s.groups && other != group ==> t.groups[other] == s.groups[other])
            && t.groups[group].members == g.members[id := Member(topics, timeout, now)]
            && t.groups[group].generation == g.generation + (if changed then 1 else 0)
            && t.groups[group].assignment
               == (if changed then Assigned(Subs(t.groups[group].members), counts) else g.assignment)
            && t.nextMember == s.nextMember + (if isNew then 1 else 0)
  {
    hide Assigned, Subs, MemberName;
  }

  /** A member that leaves is gone, everyone else stays, the generation grows and the topics are shared out again. */
  lemma LeaveIs(s: State, group: str, memberId: str, counts: Counts)
    ensures var t := AfterLeave(s, group, memberId, counts);
            if group in s.groups && memberId in s.groups[group].members
            then
              && t.groups.Keys == s.groups.Keys && t.nextMember == s.nextMember
              && (forall other :: other in s.groups && other != group ==> t.groups[other] == s.groups[other])
              && memberId !in t.groups[group].members
              && t.groups[group].members.Keys == s.groups[group].members.Keys - {memberId}
              && (forall id :: id in t.groups[group].members ==>
                    t.groups[group].members[id] == s.groups[group].members[id])
              && t.groups[group].generation == s.groups[group].generation + 1
              && t.groups[group].assignment == Assigned(Subs(t.groups[group].members), counts)
            else t == s
  {
    hide Assigned, Subs;
  }

  /** Expiry takes out exactly the members that have been silent for longer than their timeout. The groups that lose
      one go to their next generation and share their topics out again; the others stay as they are. */
  lemma ExpireIs(s: State, now: nat, counts: Counts, group: str)
    requires Inv(s) && group in s.groups
    ensures s.groups.Keys == s.counted.Keys
    ensures var t := AfterExpire(s, now, counts);
            && t.groups.Keys == s.groups.Keys && t.nextMember == s.nextMember
            && var g, h := s.groups[group], t.groups[group];
               && (forall id :: id in h.members <==>
                     id in g.members && now <= g.members[id].lastHeartbeat + g.members[id].sessionTimeout)
               && (forall id :: id in h.members ==> h.members[id] == g.members[id])
               && if h.members == g.members then h == g
                  else h.generation == g.generation + 1 && h.assignment == Assigned(Subs(h.members), counts)
  {
    hide Assigned, Subs, GroupOk;
    var g := s.groups[group];
    var gone := Silent(g.members, now);
    assert forall id :: id in gone <==>
                          id in g.members && now > g.members[id].lastHeartbeat + g.members[id].sessionTimeout;
    if gone != {} {
      var id :| id in gone;
      var h := AfterExpire(s, now, counts).groups[group];
      assert h == Reassigned(g, g.members - gone, counts);
      assert id in g.members && id !in h.members;
    }
  }

  // ---------------------------------------------------------------- names of members

  /** Every member has a name that was given out before `next`. */
  ghost predicate NamesGivenOut(s: State) {
    forall group, id :: group in s.groups && id in s.groups[group].members ==> GivenOut(id, s.nextMember)
  }

  ghost predicate GivenOut(id: str, next: nat) {
    exists n: nat :: n < next && id == MemberName(n)
  }

  lemma {:induction false} DigitsDiffer(a: nat, b: nat)
    requires Digits(a) == Digits(b)
    ensures a == b
    decreases a
  {
    var x, y := Digits(a), Digits(b);
    assert x[|x| - 1] == y[|y| - 1];
    DigitsSome(a / 10);
    DigitsSome(b / 10);
    if a >= 10 && b >= 10 {
      assert Digits(a / 10) == x[..|x| - 1] == y[..|y| - 1] == Digits(b / 10);
      DigitsDiffer(a / 10, b / 10);
    }
  }

  lemma DigitsSome(n: nat)
    ensures |Digits(n)| > 0
  {
  }

  lemma NewNameIsFree(s: State, group: str)
    requires NamesGivenOut(s) && group in s.groups
    ensures MemberName(s.nextMember) !in s.groups[group].members
  {
    var id := MemberName(s.nextMember);
    if id in s.groups[group].members {
      assert GivenOut(id, s.nextMember);
      var n: nat :| n < s.nextMember && id == MemberName(n);
      assert Digits(n) == MemberName(n)[2..] == MemberName(s.nextMember)[2..] == Digits(s.nextMember);
      DigitsDiffer(n, s.nextMember);
    }
  }

  lemma NamesStay(s: State, e: Event)
    requires NamesGivenOut(s) && s.groups.Keys == s.counted.Keys
    ensures NamesGivenOut(Apply(s, e))
  {
    hide Assigned, MemberName, Subs, Silent;
    var t := Apply(s, e);
    forall group, id | group in t.groups && id in t.groups[group].members ensures GivenOut(id, t.nextMember) {
      if group in s.groups && id in s.groups[group].members {
        assert GivenOut(id, s.nextMember);
        var n: nat :| n < s.nextMember && id == MemberName(n);
        assert n < t.nextMember;
      } else {
        assert id == MemberName(s.nextMember) && s.nextMember < t.nextMember;
      }
    }
  }

  lemma {:induction false} RunKeepsNames(s: State, events: seq<Event>, t: State)
    requires NamesGivenOut(s) && Run(s, events, t)
    ensures NamesGivenOut(t)
    decreases |events|
  {
    hide Apply, NamesGivenOut;
    if events != [] {
      NamesStay(s, events[0]);
      RunKeepsNames(Apply(s, events[0]), events[1..], t);
    }
  }

  /** After any run from an empty coordinator, whoever joins without a name in the group takes nobody's place: everyone
      else keeps theirs, and the group grows by one. */
  lemma NewMemberIsNew(events: seq<Event>, t: State, group: str, memberId: str, timeout: nat, topics: seq<str>,
                       now: nat, counts: Counts)
    requires Run(State(map[], 1, map[]), events, t)
    ensures var g := GroupOf(t, group).members;
            var h := GroupOf(AfterJoin(t, group, memberId, timeout, topics, now, counts), group).members;
            memberId == [] || memberId !in g ==>
              |h| == |g| + 1 && forall id :: id in g ==> id in h && h[id] == g[id]
  {
    RunKeepsNames(State(map[], 1, map[]), events, t);
    hide MemberName, Assigned, Subs, Run, NamesGivenOut;
    if group in t.groups {
      NewNameIsFree(t, group);
    }
  }

  /** The groups outside `left` have been expired. */
  ghost predicate ExpiredSoFar(gs: map<str, Group>, cs: map<str, Counts>, groups: map<str, Group>,
                               counted: map<str, Counts>, left: set<str>, now: nat, counts: Counts) {
    && GroupsSoFar(gs, groups, left, now, counts)
    && CountsSoFar(gs, cs, counted, left, now, counts)
  }

  ghost predicate GroupsSoFar(gs: map<str, Group>, groups: map<str, Group>, left: set<str>, now: nat, counts: Counts) {
    && gs.Keys == groups.Keys
    && forall g {:trigger groups[g]} :: g in groups ==>
         groups[g] == if g in left then gs[g] else ExpiredGroup(gs[g], now, counts)
  }

  ghost predicate CountsSoFar(gs: map<str, Group>, cs: map<str, Counts>, counted: map<str, Counts>, left: set<str>,
                              now: nat, counts: Counts) {
    && gs.Keys == cs.Keys == counted.Keys
    && forall g {:trigger counted[g]} :: g in counted ==>
         counted[g] == if g !in left && Silent(gs[g].members, now) != {} then counts else cs[g]
  }

  lemma NoneExpired(gs: map<str, Group>, cs: map<str, Counts>, now: nat, counts: Counts)
    requires gs.Keys == cs.Keys
    ensures ExpiredSoFar(gs, cs, gs, cs, gs.Keys, now, counts)
  {
    hide ExpiredGroup, Silent;
  }

  lemma NextExpired(gs: map<str, Group>, cs: map<str, Counts>, groups: map<str, Group>, counted: map<str, Counts>,
                    left: set<str>, group: str, now: nat, counts: Counts)
    requires ExpiredSoFar(gs, cs, groups, counted, left, now, counts) && group in left && left <= gs.Keys
    ensures group in groups && group in counted
    ensures var after := groups[group := ExpiredGroup(groups[group], now, counts)];
            var over := if Silent(groups[group].members, now) != {} then counted[group := counts] else counted;
            ExpiredSoFar(gs, cs, after, over, left - {group}, now, counts)
  {
    hide ExpiredGroup, Silent;
    assert groups[group] == gs[group];
    NextGroup(gs, groups, left, group, ExpiredGroup(groups[group], now, counts), now, counts);
    NextCounts(gs, cs, counted, left, group, now, counts);
  }

  lemma NextGroup(gs: map<str, Group>, groups: map<str, Group>, left: set<str>, group: str, x: Group, now: nat,
                  counts: Counts)
    requires GroupsSoFar(gs, groups, left, now, counts) && group in left && left <= gs.Keys
    requires x == ExpiredGroup(gs[group], now, counts)
    ensures GroupsSoFar(gs, groups[group := x], left - {group}, now, counts)
  {
    hide ExpiredGroup;
  }

  lemma NextCounts(gs: map<str, Group>, cs: map<str, Counts>, counted: map<str, Counts>, left: set<str>, group: str,
                   now: nat, counts: Counts)
    requires CountsSoFar(gs, cs, counted, left, now, counts) && group in left && left <= gs.Keys
    ensures var over := if Silent(gs[group].members, now) != {} then counted[group := counts] else counted;
            CountsSoFar(gs, cs, over, left - {group}, now, counts)
  {
    hide Silent;
  }

  lemma AllExpired(gs: map<str, Group>, cs: map<str, Counts>, groups: map<str, Group>, counted: map<str, Counts>,
                   now: nat, counts: Counts)
    requires ExpiredSoFar(gs, cs, groups, counted, {}, now, counts)
    ensures groups == ExpiredGroups(gs, now, counts) && counted == ExpiredCounts(gs, cs, now, counts)
  {
    hide ExpiredGroup, Silent, ExpiredGroups, ExpiredCounts;
  }

  /** The silent members of these groups. */
  ghost function SilentIn(groups: map<str, Group>, names: set<str>, now: nat): set<(str, str)> {
    set g, id | g in names && g in groups && id in Silent(groups[g].members, now) :: (g, id)
  }

  lemma NobodyYet(groups: map<str, Group>, now: nat)
    ensures SilentIn(groups, {}, now) == {}
  {
  }

  lemma OneMoreGroup(groups: map<str, Group>, names: set<str>, group: str, now: nat)
    requires group in groups && group !in names
    ensures |SilentIn(groups, names + {group}, now)|
         == |SilentIn(groups, names, now)| + |Silent(groups[group].members, now)|
  {
    hide Silent;
    var ids := Silent(groups[group].members, now);
    var pairs := set id | id in ids :: (group, id);
    PairsCount(group, ids);
    assert SilentIn(groups, names + {group}, now) == SilentIn(groups, names, now) + pairs;
    assert SilentIn(groups, names, now) !! pairs;
  }

  lemma {:induction false} PairsCount(group: str, ids: set<str>)
    ensures |set id | id in ids :: (group, id)| == |ids|
    decreases |ids|
  {
    if ids == {} {
      assert (set id | id in ids :: (group, id)) == {};
    } else {
      var x :| x in ids;
      PairsCount(group, ids - {x});
      assert (set id | id in ids :: (group, id)) == (set id | id in ids - {x} :: (group, id)) + {(group, x)};
    }
  }

  lemma SameMembers(gs: map<str, Group>, cs: map<str, Counts>, groups: map<str, Group>, counted: map<str, Counts>,
                    left: set<str>, group: str, now: nat, counts: Counts)
    requires ExpiredSoFar(gs, cs, groups, counted, left, now, counts) && group in left && left <= gs.Keys
    ensures group in gs && group in groups && groups[group] == gs[group]
  {
    hide ExpiredGroup, Silent;
  }

  class GroupCoordinator {
    var groups: map<str, Group>
    var nextMember: nat
    ghost var counted: map<str, Counts>

    ghost function Now(): State
      reads this
    {
      State(groups, nextMember, counted)
    }

    constructor ()
      ensures Now() == State(map[], 1, map[]) && Inv(Now())
    {
      groups, nextMember, counted := map[], 1, map[];
    }

    /** A new member bumps the generation; a member that comes back does so only with other topics. */
    method Join(group: str, memberId: str, timeout: nat, topics: seq<str>, now: nat, counts: Counts)
      returns (r: JoinOutcome)
      modifies this
      ensures Now() == AfterJoin(old(Now()), group, memberId, timeout, topics, now, counts)
      ensures group in groups && r.memberId == IdFor(old(Now()), group, memberId)
          && r.generation == groups[group].generation
      ensures r.assignment == if r.memberId in groups[group].assignment
          then groups[group].assignment[r.memberId] else []
    {
      hide Assigned, Subs, MemberName;
      var g := if group in groups then groups[group] else Group(0, map[], map[]);
      var id, changed;
      if memberId == [] || memberId !in g.members {
        id, changed := MemberName(nextMember), true;
        nextMember := nextMember + 1;
        g := g.(members := g.members[id := Member(topics, timeout, now)]);
      } else {
        id, changed := memberId, g.members[memberId].topics != topics;
        g := g.(members := g.members[memberId := Member(topics, timeout, now)]);
      }
      if changed {
        var assignment := Assign(Subs(g.members), counts);
        g := Group(g.generation + 1, g.members, assignment);
        counted := counted[group := counts];
      }
      groups := groups[group := g];
      r := JoinOutcome(id, g.generation, if id in g.assignment then g.assignment[id] else []);
    }

    method Heartbeat(group: str, memberId: str, generation: nat, now: nat) returns (error: ErrorCode)
      modifies this
      ensures Now() == AfterHeartbeat(old(Now()), group, memberId, now)
      ensures error == HeartbeatError(old(Now()), group, memberId, generation)
      ensures var present := group in old(groups) && memberId in old(groups)[group].members;
              && (error == NoError <==> present && generation == old(groups)[group].generation)
              && (error == StaleGeneration <==> present && generation != old(groups)[group].generation)
              && (error == UnknownMember <==> !present)
              && (!present ==> groups == old(groups))
              && (present ==>
                    var g := old(groups)[group];
                    groups == old(groups)[group := g.(members := g.members[memberId :=
                                                      g.members[memberId].(lastHeartbeat := now)])])
    {
      if group !in groups || memberId !in groups[group].members {
        return UnknownMember;
      }
      var g := groups[group];
      groups := groups[group := g.(members := g.members[memberId := g.members[memberId].(lastHeartbeat := now)])];
      return if generation != g.generation then StaleGeneration else NoError;
    }

    method Leave(group: str, memberId: str, counts: Counts) returns (error: ErrorCode)
      modifies this
      ensures Now() == AfterLeave(old(Now()), group, memberId, counts)
      ensures error == NoError <==> group in old(groups) && memberId in old(groups)[group].members
      ensures error != NoError ==> error == UnknownMember && groups == old(groups)
      ensures error == NoError ==>
                && memberId !in groups[group].members
                && groups[group].members.Keys == old(groups)[group].members.Keys - {memberId}
                && groups[group].generation == old(groups)[group].generation + 1
    {
      LeaveIs(Now(), group, memberId, counts);
      hide Assigned, Subs;
      if group !in groups || memberId !in groups[group].members {
        return UnknownMember;
      }
      var g := groups[group];
      var members := g.members - {memberId};
      var assignment := Assign(Subs(members), counts);
      groups := groups[group := Group(g.generation + 1, members, assignment)];
      counted := counted[group := counts];
      return NoError;
    }

    /** A fenced commit passes exactly for a present member with the present generation. */
    method CheckCommit(group: str, memberId: str, generation: nat) returns (error: ErrorCode)
      ensures error == if memberId == [] then NoError else HeartbeatError(Now(), group, memberId, generation)
      ensures var present := group in groups && memberId in groups[group].members;
              && (error == NoError <==>
                    memberId == [] || (present && generation == groups[group].generation))
              && (error == StaleGeneration <==>
                    memberId != [] && present && generation != groups[group].generation)
              && (error == UnknownMember <==> memberId != [] && !present)
    {
      if memberId == [] {
        return NoError;
      }
      if group !in groups || memberId !in groups[group].members {
        return UnknownMember;
      }
      return if generation != groups[group].generation then StaleGeneration else NoError;
    }

    /** Evicts the members that have been silent past their timeout, group by group, and says how many. */
    method Expire(now: nat, counts: Counts) returns (evicted: nat)
      requires counted.Keys == groups.Keys
      modifies this
      ensures Now() == AfterExpire(old(Now()), now, counts)
      ensures evicted == |SilentIn(old(groups), old(groups).Keys, now)|
    {
      hide ExpiredGroup, Silent, ExpiredGroups, ExpiredCounts, ExpiredSoFar, SilentIn;
      var left := groups.Keys;
      evicted := 0;
      ghost var gs, cs := groups, counted;
      NoneExpired(gs, cs, now, counts);
      NobodyYet(gs, now);
      assert gs.Keys - left == {};
      while left != {}
        invariant left <= gs.Keys && nextMember == old(nextMember)
        invariant ExpiredSoFar(gs, cs, groups, counted, left, now, counts)
        invariant evicted == |SilentIn(gs, gs.Keys - left, now)|
        decreases |left|
      {
        var group :| group in left;
        NextExpired(gs, cs, groups, counted, left, group, now, counts);
        SameMembers(gs, cs, groups, counted, left, group, now, counts);
        OneMoreGroup(gs, gs.Keys - left, group, now);
        assert gs.Keys - (left - {group}) == gs.Keys - left + {group};
        var dead, g := ExpireOne(groups[group], now, counts);
        groups := groups[group := g];
        if dead > 0 {
          counted := counted[group := counts];
        }
        evicted := evicted + dead;
        left := left - {group};
      }
      AllExpired(gs, cs, groups, counted, now, counts);
      assert gs.Keys - {} == gs.Keys;
    }

    static method ExpireOne(g: Group, now: nat, counts: Counts) returns (evicted: nat, r: Group)
      ensures r == ExpiredGroup(g, now, counts) && evicted == |Silent(g.members, now)|
    {
      hide Assigned, Subs, Silent;
      var dead := Silent(g.members, now);
      evicted, r := |dead|, g;
      if dead != {} {
        var members := g.members - dead;
        var assignment := Assign(Subs(members), counts);
        r := Group(g.generation + 1, members, assignment);
      }
    }
  }
}
