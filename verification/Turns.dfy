/** The leaders that the runs of LogDivergence rely on are leaders that the controller publishes: brokers can take
    turns, and each comes back into the ISR while another leads (src/controller/mod.rs). */
module LeaderTurns {
  import opened Wrappers
  import opened Bytes
  import opened Messages
  import opened ClusterState
  import LogAgreement
  import LogDivergence

  /** The registered brokers, those alive among them, and a time by which each was last heard. */
  ghost predicate Up(s: State, all: set<u32>, alive: set<u32>, clock: nat) {
    && s.brokers.Keys == all && AliveIds(s.brokers) == alive
    && forall id {:trigger s.brokers[id]} :: id in all ==> id < ID_LIMIT && s.brokers[id].lastHeartbeat <= clock
  }

  /** `x` leads the partition in epoch `e`. */
  ghost predicate Led(s: State, topic: str, i: nat, x: u32, e: nat, isr: set<u32>, replicas: set<u32>) {
    && x < ID_LIMIT && topic in s.topics && i < |s.topics[topic]| && i < U32_RANGE
    && var p := s.topics[topic][i];
       && p.leader == x && p.leaderEpoch == e
       && (forall id :: id in p.isr <==> id in isr) && (forall id :: id in p.replicas <==> id in replicas)
  }

  /** The metadata of the partition. */
  ghost predicate Shows(s: State, topic: str, i: nat, m: LogAgreement.Meta) {
    && topic in s.topics && i < |s.topics[topic]| && s.topics[topic][i].leaderEpoch < U64_RANGE
    && MetaOf(s.topics[topic][i]) == m
  }

  lemma LeaderShows(s: State, topic: str, i: nat, x: u32, e: u64, isr: set<u32>, replicas: set<u32>)
    requires Led(s, topic, i, x, e, isr, replicas)
    ensures Shows(s, topic, i, LogAgreement.Meta(e, Some(x)))
  {
  }

  // ---------------------------------------------------------------- runs

  lemma OneEvent(s: State, e: Event)
    requires Enabled(e)
    ensures Run(s, [e], Apply(s, e))
  {
    hide Apply;
    assert Run(Apply(s, e), [], Apply(s, e));
  }

  lemma {:induction false} RunsOn(s: State, first: seq<Event>, t: State, then_: seq<Event>, u: State)
    requires Run(s, first, t) && Run(t, then_, u)
    ensures Run(s, first + then_, u)
    decreases |first|
  {
    hide Apply;
    if first == [] {
      assert first + then_ == then_;
    } else {
      RunsOn(Apply(s, first[0]), first[1..], t, then_, u);
      assert (first + then_)[1..] == first[1..] + then_;
    }
  }

  lemma TwoEvents(s: State, x: Event, y: Event)
    requires Enabled(x) && Enabled(y)
    ensures Run(s, [x, y], Apply(Apply(s, x), y))
  {
    hide Run, Apply, Enabled;
    OneEvent(s, x);
    OneEvent(Apply(s, x), y);
    RunsOn(s, [x], Apply(s, x), [y], Apply(Apply(s, x), y));
    assert [x] + [y] == [x, y];
  }

  // ---------------------------------------------------------------- one partition among its brokers

  lemma {:induction false} RegisterAll(s: State, ids: set<u32>, all: set<u32>)
    returns (events: seq<Event>, t: State)
    requires s.topics == map[] && Up(s, all, all, 0) && forall id :: id in ids ==> id < ID_LIMIT
    ensures Run(s, events, t) && t.topics == map[] && Up(t, all + ids, all + ids, 0)
    decreases |ids|
  {
    hide Up, Apply;
    if ids == {} {
      events, t := [], s;
      assert all + ids == all;
    } else {
      hide Run;
      var x :| x in ids;
      var register := Register(x, [], [], 0);
      OneRegisters(s, x, all);
      OneEvent(s, register);
      var rest, u := RegisterAll(Apply(s, register), ids - {x}, all + {x});
      assert all + {x} + (ids - {x}) == all + ids;
      RunsOn(s, [register], Apply(s, register), rest, u);
      events, t := [register] + rest, u;
    }
  }

  lemma OneRegisters(s: State, x: u32, all: set<u32>)
    requires s.topics == map[] && Up(s, all, all, 0) && x < ID_LIMIT
    ensures var t := Apply(s, Register(x, [], [], 0)); t.topics == map[] && Up(t, all + {x}, all + {x}, 0)
  {
  }

  /** Brokers register and a topic is created over all of them: any one of them leads some partition. */
  lemma Begins(topic: str, ids: set<u32>, x: u32) returns (i: nat, events: seq<Event>, t: State)
    requires x in ids && |ids| <= MAX_PARTITIONS && forall id :: id in ids ==> id < ID_LIMIT
    ensures Run(Empty(), events, t) && Up(t, ids, ids, 0) && Led(t, topic, i, x, 1, ids, ids)
  {
    var first, m := RegisterAll(Empty(), ids, {});
    assert {} + ids == ids;
    var create := Create(topic, |ids|, |ids|);
    var alive := Sorted(AliveIds(m.brokers));
    hide Run, Sorted, Shows;
    i := Created(m, topic, ids, x, alive);
    t := Apply(m, create);
    OneEvent(m, create);
    hide Apply, Led, Up;
    RunsOn(Empty(), first, m, [create], t);
    events := first + [create];
  }

  lemma Created(s: State, topic: str, ids: set<u32>, x: u32, alive: seq<u32>) returns (i: nat)
    requires s.topics == map[] && Up(s, ids, ids, 0) && x in ids && |ids| <= MAX_PARTITIONS
    requires alive == Sorted(AliveIds(s.brokers))
    ensures var t := Apply(s, Create(topic, |ids|, |ids|)); Up(t, ids, ids, 0) && Led(t, topic, i, x, 1, ids, ids)
  {
    hide Sorted, NoRepeats, NewPart, NewParts, AfterCreate, Led;
    assert NoRepeats(alive) && forall id :: id in alive <==> id in ids;
    CountEach(alive, ids);
    i :| 0 <= i < |alive| && alive[i] == x;
    Placed(s, topic, alive);
    NewLed(Apply(s, Create(topic, |ids|, |ids|)), topic, ids, alive, i);
  }

  lemma NewLed(t: State, topic: str, ids: set<u32>, alive: seq<u32>, i: nat)
    requires i < |alive| <= MAX_PARTITIONS && NoRepeats(alive) && alive[i] < ID_LIMIT
    requires t.topics == map[topic := NewParts(alive, |alive|, |alive|)] && forall id :: id in alive <==> id in ids
    ensures Led(t, topic, i, alive[i], 1, ids, ids)
  {
    hide NewPart, NewParts, NoRepeats;
    LeadsNew(alive, i);
    assert t.topics[topic][i] == NewPart(alive, i, |alive|);
  }

  lemma Placed(s: State, topic: str, alive: seq<u32>)
    requires s.topics == map[] && 0 < |alive| <= MAX_PARTITIONS
    ensures var t := AfterCreate(s, topic, |alive|, |alive|, alive);
            t.brokers == s.brokers && t.topics == map[topic := NewParts(alive, |alive|, |alive|)]
  {
    hide NewParts;
    assert CreateError(s, topic, |alive|, |alive|, alive) == NoError;
  }

  /** With as many replicas as brokers, each broker is one; the first is the broker whose turn it is. */
  lemma LeadsNew(alive: seq<u32>, i: nat)
    requires i < |alive| && NoRepeats(alive)
    ensures var p := NewPart(alive, i, |alive|);
            && p.leader == AsI32(alive[i]) && p.leaderEpoch == 1 && p.isr == p.replicas
            && forall id :: id in p.replicas <==> id in alive
  {
    hide ReplicasOf, NoRepeats;
    var n := |alive|;
    var r := ReplicasOf(alive, i, n);
    SmallRemainder(i, n);
    assert r[0] == alive[(i + 0) % n];
    forall id ensures id in r <==> id in alive {
      RoundHasAll(alive, i, r, id);
    }
  }

  lemma RoundHasAll(alive: seq<u32>, i: nat, r: seq<u32>, id: u32)
    requires i < |alive| == |r|
    requires forall d {:trigger r[d]} :: 0 <= d < |r| ==> r[d] == alive[(i + d) % |alive|]
    ensures id in r <==> id in alive
  {
    if id in alive {
      var k :| 0 <= k < |alive| && alive[k] == id;
      var d := Turn(i, k, |alive|);
      assert r[d] == id;
    }
  }

  lemma Turn(i: nat, k: nat, n: nat) returns (d: nat)
    requires i < n && k < n
    ensures d < n && (i + d) % n == k
  {
    if i <= k {
      d := k - i;
      SmallRemainder(k, n);
    } else {
      d := k + n - i;
      OnceAround(k, n);
    }
  }

  lemma SmallRemainder(k: nat, n: nat)
    requires k < n
    ensures k % n == k
  {
  }

  lemma OnceAround(k: nat, n: nat)
    requires k < n
    ensures (k + n) % n == k
  {
  }

  /** `y` beats, everyone else falls silent and is swept away: `y` leads the next epoch. */
  lemma TakesOver(s: State, topic: str, i: nat, x: u32, y: u32, e: nat, isr: set<u32>, replicas: set<u32>,
                  all: set<u32>, alive: set<u32>, clock: nat) returns (events: seq<Event>, t: State)
    requires Up(s, all, alive, clock) && Led(s, topic, i, x, e, isr, replicas)
    requires x in alive && y in alive && y in isr && x != y
    ensures Run(s, events, t) && Up(t, all, {y}, clock + 2) && Led(t, topic, i, y, e + 1, {y}, replicas)
  {
    events := [Beat(y, clock + 2), Sweep(clock + 2, 1)];
    var m := Apply(s, events[0]);
    t := Apply(m, events[1]);
    KeepsBeating(s, y, all, alive, clock);
    SweptAway(m, topic, i, x, y, e, isr, replicas, all, alive, clock);
    hide Apply, Run, Up, Led;
    TwoEvents(s, events[0], events[1]);
  }

  lemma KeepsBeating(s: State, y: u32, all: set<u32>, alive: set<u32>, clock: nat)
    requires Up(s, all, alive, clock) && y in alive
    ensures var m := Apply(s, Beat(y, clock + 2));
            && m.topics == s.topics && Up(m, all, alive, clock + 2) && m.brokers[y].lastHeartbeat == clock + 2
            && forall id {:trigger m.brokers[id]} :: id in all && id != y ==> m.brokers[id].lastHeartbeat <= clock
  {
  }

  lemma SweptAway(m: State, topic: str, i: nat, x: u32, y: u32, e: nat, isr: set<u32>, replicas: set<u32>,
                  all: set<u32>, alive: set<u32>, clock: nat)
    requires Up(m, all, alive, clock + 2) && Led(m, topic, i, x, e, isr, replicas)
    requires x in alive && y in alive && y in isr && x != y && m.brokers[y].lastHeartbeat == clock + 2
    requires forall id {:trigger m.brokers[id]} :: id in all && id != y ==> m.brokers[id].lastHeartbeat <= clock
    ensures var t := Apply(m, Sweep(clock + 2, 1));
            Up(t, all, {y}, clock + 2) && Led(t, topic, i, y, e + 1, {y}, replicas)
  {
    SweptTo(m, x, y, all, alive, clock);
    ElectsFrom(m.topics[topic][i], y);
    hide FirstAlive, Retained, AfterSweep, Up, Elected;
    assert ElectedAll(m.topics, {y})[topic][i] == Elected(m.topics[topic][i], {y});
  }

  lemma SweptTo(m: State, x: u32, y: u32, all: set<u32>, alive: set<u32>, clock: nat)
    requires Up(m, all, alive, clock + 2) && x in alive && y in alive && x != y
    requires m.brokers[y].lastHeartbeat == clock + 2
    requires forall id {:trigger m.brokers[id]} :: id in all && id != y ==> m.brokers[id].lastHeartbeat <= clock
    ensures var t := AfterSweep(m, clock + 2, 1);
            Up(t, all, {y}, clock + 2) && t.topics == ElectedAll(m.topics, {y})
  {
    hide ElectedAll;
    assert Expired(m.brokers[x], clock + 2, 1);
    assert AliveIds(Swept(m.brokers, clock + 2, 1)) == {y};
  }

  /** A live member of the ISR, the only one, is elected when the leader is gone. */
  lemma ElectsFrom(p: PartState, y: u32)
    requires p.leader != y && y in p.isr && y < ID_LIMIT
    ensures var q := Elected(p, {y});
            && q.leader == y && q.leaderEpoch == p.leaderEpoch + 1 && q.replicas == p.replicas
            && forall id :: id in q.isr <==> id == y
  {
    assert FirstAlive(p.isr, {y}) == Some(y);
  }

  /** `x` comes back, and its new leader asks for it to be in the ISR again. */
  lemma ComesBack(s: State, topic: str, i: nat, x: u32, y: u32, e: nat, isr: set<u32>, replicas: set<u32>,
                  all: set<u32>, alive: set<u32>, clock: nat) returns (events: seq<Event>, t: State)
    requires Up(s, all, alive, clock) && Led(s, topic, i, y, e, isr, replicas)
    requires x in all && x !in alive && y in alive && x in replicas && y in replicas
    ensures Run(s, events, t) && Up(t, all, alive + {x}, clock) && Led(t, topic, i, y, e, {x, y}, replicas)
  {
    events := [Beat(x, clock), Alter(topic, i, e, [y, x])];
    var m := Apply(s, events[0]);
    t := Apply(m, events[1]);
    Revived(s, topic, i, x, y, e, isr, replicas, all, alive, clock);
    assert y in [y, x] && forall id :: id in [y, x] <==> id in {x, y};
    Altered(m, topic, i, y, e, isr, replicas, [y, x], {x, y});
    hide Apply, Run, Led;
    TwoEvents(s, events[0], events[1]);
  }

  lemma Revived(s: State, topic: str, i: nat, x: u32, y: u32, e: nat, isr: set<u32>, replicas: set<u32>,
                all: set<u32>, alive: set<u32>, clock: nat)
    requires Up(s, all, alive, clock) && Led(s, topic, i, y, e, isr, replicas)
    requires x in all && x !in alive && y in alive
    ensures var m := Apply(s, Beat(x, clock));
            Up(m, all, alive + {x}, clock) && Led(m, topic, i, y, e, isr, replicas)
  {
    var m := AfterBeat(s, x, clock);
    assert AliveIds(m.brokers) == alive + {x};
    assert m.topics[topic][i] == s.topics[topic][i];
  }

  lemma Altered(s: State, topic: str, i: nat, y: u32, e: nat, isr: set<u32>, replicas: set<u32>, next: seq<u32>,
                ids: set<u32>)
    requires Led(s, topic, i, y, e, isr, replicas) && y in next
    requires ids <= replicas && forall id :: id in next <==> id in ids
    ensures var t := Apply(s, Alter(topic, i, e, next));
            t.brokers == s.brokers && Led(t, topic, i, y, e, ids, replicas)
  {
    assert AlterError(s, topic, i, e, next) == NoError;
  }

  /** `x` leads alone, falls silent with everyone else, and leads the next epoch when it comes back. */
  lemma LeadsAgain(s: State, topic: str, i: nat, x: u32, e: nat, isr: set<u32>, replicas: set<u32>, all: set<u32>,
                   alive: set<u32>, clock: nat) returns (events: seq<Event>, t: State)
    requires Up(s, all, alive, clock) && Led(s, topic, i, x, e, isr, replicas) && x in alive && x in replicas
    ensures Run(s, events, t) && Up(t, all, {x}, clock + 2) && Led(t, topic, i, x, e + 1, {x}, replicas)
  {
    var alter, sweep, beat := Alter(topic, i, e, [x]), Sweep(clock + 2, 1), Beat(x, clock + 2);
    var m := Apply(s, alter);
    Altered(s, topic, i, x, e, isr, replicas, [x], {x});
    AllSwept(m, topic, i, x, e, replicas, all, alive, clock);
    var u := Apply(m, sweep);
    t := Apply(u, beat);
    hide Apply, Run, Up, Led;
    TwoEvents(s, alter, sweep);
    OneEvent(u, beat);
    RunsOn(s, [alter, sweep], u, [beat], t);
    events := [alter, sweep] + [beat];
  }

  lemma AllSwept(m: State, topic: str, i: nat, x: u32, e: nat, replicas: set<u32>, all: set<u32>, alive: set<u32>,
                 clock: nat)
    requires Up(m, all, alive, clock) && Led(m, topic, i, x, e, {x}, replicas) && x in alive
    ensures var t := Apply(Apply(m, Sweep(clock + 2, 1)), Beat(x, clock + 2));
            Up(t, all, {x}, clock + 2) && Led(t, topic, i, x, e + 1, {x}, replicas)
  {
    assert Expired(m.brokers[x], clock + 2, 1);
    var p := m.topics[topic][i];
    var u := AfterSweep(m, clock + 2, 1);
    assert AliveIds(u.brokers) == {};
    assert u.topics[topic][i] == p.(leader := -1);
    var t := AfterBeat(u, x, clock + 2);
    assert AliveIds(t.brokers) == {x};
    ElectsFrom(u.topics[topic][i], x);
    hide Elected, FirstAlive, Retained;
  }

  // ---------------------------------------------------------------- the leaders of the runs

  /** Some run of the controller shows a partition with exactly the metadata that the run of
      `LogDivergence.Divergence` publishes, in that order. */
  lemma DivergenceIsPublished(topic: str)
    returns (i: nat, s1: State, s2: State, s3: State, first: seq<Event>, second: seq<Event>, third: seq<Event>)
    ensures Run(Empty(), first, s1) && Run(s1, second, s2) && Run(s2, third, s3)
    ensures Shows(s1, topic, i, LogDivergence.M1) && Shows(s2, topic, i, LogDivergence.M2)
    ensures Shows(s3, topic, i, LogDivergence.M3)
  {
    hide Run, Up, Led, Shows;
    var x, y := LogDivergence.C, LogDivergence.B;
    var all := {x, y};
    i, first, s1 := Begins(topic, all, x);
    second, s2 := TakesOver(s1, topic, i, x, y, 1, all, all, all, all, 0);
    var back, m := ComesBack(s2, topic, i, x, y, 2, {y}, all, all, {y}, 2);
    assert {y} + {x} == all;
    var next: seq<Event>;
    next, s3 := TakesOver(m, topic, i, y, x, 2, all, all, all, all, 2);
    RunsOn(s2, back, m, next, s3);
    third := back + next;
    LeaderShows(s1, topic, i, x, 1, all, all);
    LeaderShows(s2, topic, i, y, 2, {y}, all);
    LeaderShows(s3, topic, i, x, 3, {x}, all);
  }

  /** The same for the run of `LogDivergence.LateRead`, with its three brokers. */
  lemma LateReadIsPublished(topic: str)
    returns (i: nat, s1: State, s2: State, first: seq<Event>, second: seq<Event>)
    ensures Run(Empty(), first, s1) && Run(s1, second, s2) && s1.brokers.Keys == s2.brokers.Keys
    ensures s1.brokers.Keys == {LogDivergence.B, LogDivergence.C, LogDivergence.D}
    ensures Shows(s1, topic, i, LogDivergence.N1) && Shows(s2, topic, i, LogDivergence.N2)
  {
    hide Run, Led, Shows;
    var x, y := LogDivergence.B, LogDivergence.D;
    var all := {x, LogDivergence.C, y};
    i, first, s1 := Begins(topic, all, x);
    second, s2 := TakesOver(s1, topic, i, x, y, 1, all, all, all, all, 0);
    LeaderShows(s1, topic, i, x, 1, all, all);
    LeaderShows(s2, topic, i, y, 2, {y}, all);
  }

  /** And for the run of `LogDivergence.SecondCut`, whose first leader leads two epochs in a row. */
  lemma SecondCutIsPublished(topic: str)
    returns (i: nat, s1: State, s2: State, s3: State, first: seq<Event>, second: seq<Event>, third: seq<Event>)
    ensures Run(Empty(), first, s1) && Run(s1, second, s2) && Run(s2, third, s3)
    ensures Shows(s1, topic, i, LogDivergence.M1) && Shows(s2, topic, i, LogDivergence.P2)
    ensures Shows(s3, topic, i, LogDivergence.P3)
  {
    hide Run, Up, Led, Shows;
    var x, y := LogDivergence.C, LogDivergence.B;
    var all := {x, y};
    i, first, s1 := Begins(topic, all, x);
    second, s2 := LeadsAgain(s1, topic, i, x, 1, all, all, all, all, 0);
    var back, m := ComesBack(s2, topic, i, y, x, 2, {x}, all, all, {x}, 2);
    assert {x} + {y} == all && {y, x} == all;
    var next: seq<Event>;
    next, s3 := TakesOver(m, topic, i, x, y, 2, all, all, all, all, 2);
    RunsOn(s2, back, m, next, s3);
    third := back + next;
    LeaderShows(s1, topic, i, x, 1, all, all);
    LeaderShows(s2, topic, i, x, 2, {x}, all);
    LeaderShows(s3, topic, i, y, 3, {y}, all);
  }
}
