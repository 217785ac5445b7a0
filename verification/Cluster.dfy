/** The controller's state and what each request does to it (src/controller/mod.rs). Pure: the object that does it
    is in Controller.dfy. */
module ClusterState {
  import opened Wrappers
  import opened Bytes
  import opened Messages
  import opened PartitionLog
  import LogAgreement

  datatype BrokerState = BrokerState(addr: str, peerAddr: str, alive: bool, lastHeartbeat: nat)

  /** `leader` is a broker id, or -1 when the partition is offline. */
  datatype PartState = PartState(leader: i32, leaderEpoch: nat, replicas: seq<u32>, isr: seq<u32>)

  datatype State = State(version: nat, brokers: map<u32, BrokerState>, topics: map<str, seq<PartState>>)

  /** Ids are below 2^31, so that a leader fits the signed field that holds it. */
  const ID_LIMIT: nat := 0x8000_0000

  const MAX_PARTITIONS := 1024

  function AliveIds(brokers: map<u32, BrokerState>): set<u32> {
    set id | id in brokers && brokers[id].alive
  }

  // ---------------------------------------------------------------- election

  function FirstAlive(isr: seq<u32>, alive: set<u32>): (r: Option<u32>)
    ensures r.Some? ==> r.value in isr && r.value in alive
    ensures r.None? ==> forall id :: id in isr ==> id !in alive
  {
    if isr == [] then None
    else if isr[0] in alive then Some(isr[0])
    else FirstAlive(isr[1..], alive)
  }

  function Retained(isr: seq<u32>, alive: set<u32>): (r: seq<u32>)
    ensures forall id :: id in r <==> id in isr && id in alive
  {
    if isr == [] then []
    else
      var rest := Retained(isr[..|isr| - 1], alive);
      assert isr == isr[..|isr| - 1] + [isr[|isr| - 1]];
      if isr[|isr| - 1] in alive then rest + [isr[|isr| - 1]] else rest
  }

  /** `r` is `isr` without what is dead, in the same order and each as often as before: `at` says where each comes
      from. */
  ghost predicate LiveOf(r: seq<u32>, isr: seq<u32>, alive: set<u32>, at: seq<nat>) {
    && |at| == |r|
    && (forall i {:trigger at[i]} :: 0 <= i < |at| ==> at[i] < |isr| && r[i] == isr[at[i]] && r[i] in alive)
    && (forall i, j {:trigger at[i], at[j]} :: 0 <= i < j < |at| ==> at[i] < at[j])
    && forall k {:trigger isr[k]} :: 0 <= k < |isr| && isr[k] in alive ==> k in at
  }

  lemma OneMoreLive(r: seq<u32>, isr: seq<u32>, alive: set<u32>, at: seq<nat>, id: u32)
    requires LiveOf(r, isr, alive, at)
    ensures if id in alive then LiveOf(r + [id], isr + [id], alive, at + [|isr|]) else LiveOf(r, isr + [id], alive, at)
  {
    var more, now := isr + [id], if id in alive then at + [|isr|] else at;
    forall k {:trigger more[k]} | 0 <= k < |more| && more[k] in alive ensures k in now {
      if k < |isr| {
        assert isr[k] in alive;
      } else {
        assert now[|at|] == k;
      }
    }
  }

  lemma {:induction false} RetainedInOrder(isr: seq<u32>, alive: set<u32>) returns (at: seq<nat>)
    ensures LiveOf(Retained(isr, alive), isr, alive, at)
  {
    at := [];
    if isr != [] {
      hide LiveOf;
      var n := |isr| - 1;
      at := RetainedInOrder(isr[..n], alive);
      OneMoreLive(Retained(isr[..n], alive), isr[..n], alive, at, isr[n]);
      assert isr == isr[..n] + [isr[n]];
      if isr[n] in alive {
        at := at + [n];
      }
    }
  }

  /** A partition whose leader is dead or missing gets the first live member of its ISR, or goes offline. */
  function Elected(p: PartState, alive: set<u32>): PartState {
    if p.leader >= 0 && p.leader in alive then p
    else
      match FirstAlive(p.isr, alive)
      case Some(id) => PartState(AsI32(id), p.leaderEpoch + 1, p.replicas, Retained(p.isr, alive))
      case None => p.(leader := -1)
  }

  function ElectedIn(ps: seq<PartState>, alive: set<u32>): (r: seq<PartState>)
    ensures |r| == |ps| && forall i {:trigger r[i]} :: 0 <= i < |ps| ==> r[i] == Elected(ps[i], alive)
  {
    seq(|ps|, i requires 0 <= i < |ps| => Elected(ps[i], alive))
  }

  function ElectedAll(topics: map<str, seq<PartState>>, alive: set<u32>): (r: map<str, seq<PartState>>)
    ensures r.Keys == topics.Keys
    ensures forall name {:trigger r[name]} :: name in r ==> r[name] == ElectedIn(topics[name], alive)
  {
    map name | name in topics :: ElectedIn(topics[name], alive)
  }

  // ---------------------------------------------------------------- requests

  datatype Event =
    | Register(id: u32, addr: str, peerAddr: str, now: nat)
    | Beat(id: u32, now: nat)
    | Create(topic: str, partitions: u32, replicationFactor: u32)
    | Alter(topic: str, partition: u32, leaderEpoch: nat, isr: seq<u32>)
    | Sweep(now: nat, timeout: nat)
    | Restart(now: nat)

  /** What follows a mutation: a new version if it changed anything. */
  function Commit(s: State, changed: bool): State {
    if changed then s.(version := s.version + 1) else s
  }

  function WithElection(s: State): State {
    s.(topics := ElectedAll(s.topics, AliveIds(s.brokers)))
  }

  function AfterRegister(s: State, id: u32, addr: str, peerAddr: str, now: nat): State {
    var known := id in s.brokers && s.brokers[id].alive && s.brokers[id].addr == addr
        && s.brokers[id].peerAddr == peerAddr;
    var t := WithElection(s.(brokers := s.brokers[id := BrokerState(addr, peerAddr, true, now)]));
    Commit(t, !known || t.topics != s.topics)
  }

  function AfterBeat(s: State, id: u32, now: nat): State {
    if id !in s.brokers then s
    else
      var b := s.brokers[id];
      var t := s.(brokers := s.brokers[id := b.(alive := true, lastHeartbeat := now)]);
      if b.alive then t
      else
        var e := WithElection(t);
        Commit(e, e.topics != s.topics)
  }

  /** The replicas of partition `p`: consecutive live brokers, wrapping around. */
  function ReplicasOf(alive: seq<u32>, p: nat, rf: nat): (r: seq<u32>)
    requires alive != []
    ensures |r| == rf && forall i {:trigger r[i]} :: 0 <= i < rf ==> r[i] == alive[(p + i) % |alive|]
  {
    seq(rf, i requires 0 <= i < rf => alive[(p + i) % |alive|])
  }

  function NewPart(alive: seq<u32>, p: nat, rf: nat): PartState
    requires alive != [] && rf > 0
  {
    var replicas := ReplicasOf(alive, p, rf);
    PartState(AsI32(replicas[0]), 1, replicas, replicas)
  }

  function NewParts(alive: seq<u32>, n: nat, rf: nat): (r: seq<PartState>)
    requires alive != [] && rf > 0
    ensures |r| == n && forall p {:trigger r[p]} :: 0 <= p < n ==> r[p] == NewPart(alive, p, rf)
  {
    seq(n, p requires 0 <= p < n => NewPart(alive, p, rf))
  }

  /** `alive` lists the live brokers in ascending order. */
  function CreateError(s: State, topic: str, partitions: u32, rf: u32, alive: seq<u32>): ErrorCode {
    if topic in s.topics then TopicExists
    else if partitions == 0 || partitions > MAX_PARTITIONS || AtLeastOne(rf) > |alive| then Malformed
    else NoError
  }

  function AtLeastOne(rf: u32): u32 { if rf == 0 then 1 else rf }

  function AfterCreate(s: State, topic: str, partitions: u32, rf: u32, alive: seq<u32>): State {
    if CreateError(s, topic, partitions, rf, alive) != NoError then s
    else Commit(s.(topics := s.topics[topic := NewParts(alive, partitions, AtLeastOne(rf))]), true)
  }

  function AlterError(s: State, topic: str, partition: u32, leaderEpoch: nat, isr: seq<u32>): ErrorCode {
    if topic !in s.topics || partition >= |s.topics[topic]| then UnknownTopicOrPartition
    else
      var p := s.topics[topic][partition];
      if leaderEpoch != p.leaderEpoch then FencedEpoch
      else if isr == [] || LeaderId(p.leader) !in isr || exists id :: id in isr && id !in p.replicas then Malformed
      else NoError
  }

  /** The leader field read as an unsigned id: -1 becomes one that no broker has. */
  function LeaderId(leader: i32): u32 { if leader < 0 then leader + U32_RANGE else leader }

  function AfterAlter(s: State, topic: str, partition: u32, leaderEpoch: nat, isr: seq<u32>): State {
    if AlterError(s, topic, partition, leaderEpoch, isr) != NoError then s
    else
      var ps := s.topics[topic];
      var p := ps[partition];
      if p.isr == isr then s
      else Commit(s.(topics := s.topics[topic := ps[partition := p.(isr := isr)]]), true)
  }

  /** A broker that has been silent for longer than the timeout. */
  predicate Expired(b: BrokerState, now: nat, timeout: nat) {
    b.alive && now > b.lastHeartbeat + timeout
  }

  function Swept(brokers: map<u32, BrokerState>, now: nat, timeout: nat): (r: map<u32, BrokerState>)
    ensures r.Keys == brokers.Keys
  {
    map id | id in brokers :: if Expired(brokers[id], now, timeout) then brokers[id].(alive := false) else brokers[id]
  }

  function AfterSweep(s: State, now: nat, timeout: nat): State {
    if forall id :: id in s.brokers ==> !Expired(s.brokers[id], now, timeout) then s
    else Commit(WithElection(s.(brokers := Swept(s.brokers, now, timeout))), true)
  }

  /** What a snapshot keeps: everything but who is alive. */
  function Dead(s: State, now: nat): State {
    s.(brokers := map id | id in s.brokers :: s.brokers[id].(alive := false, lastHeartbeat := now))
  }

  // ---------------------------------------------------------------- invariants

  /** The ISR is a non-empty part of distinct replicas and holds the leader when there is one. */
  ghost predicate PartOk(p: PartState) {
    && p.leaderEpoch >= 1
    && p.replicas != [] && NoRepeats(p.replicas) && (forall id :: id in p.replicas ==> id < ID_LIMIT)
    && p.isr != [] && (forall id :: id in p.isr ==> id in p.replicas)
    && (p.leader == -1 || (p.leader >= 0 && p.leader in p.isr))
  }

  /** There is a leader exactly when some member of the ISR is alive, and it is alive itself. */
  ghost predicate Available(p: PartState, alive: set<u32>) {
    && (p.leader >= 0 ==> p.leader in alive)
    && (p.leader >= 0 <==> exists id :: id in p.isr && id in alive)
  }

  ghost predicate TopicsOk(topics: map<str, seq<PartState>>) {
    forall name, i {:trigger topics[name][i]} :: name in topics && 0 <= i < |topics[name]| ==> PartOk(topics[name][i])
  }

  ghost predicate StateOk(s: State) {
    TopicsOk(s.topics) && forall id :: id in s.brokers ==> id < ID_LIMIT
  }

  ghost predicate AllAvailable(s: State) {
    forall name, i {:trigger s.topics[name][i]} ::
      name in s.topics && 0 <= i < |s.topics[name]| ==> Available(s.topics[name][i], AliveIds(s.brokers))
  }

  // ---------------------------------------------------------------- one partition over time

  /** What one event may do: change the ISR only, take the leader away, or elect a member of the previous ISR
      under the next epoch. */
  predicate PartStep(p: PartState, q: PartState) {
    && q.replicas == p.replicas
    && (|| (q.leaderEpoch == p.leaderEpoch && (q.leader == p.leader || q.leader == -1))
        || (q.leaderEpoch == p.leaderEpoch + 1 && q.leader >= 0 && q.leader in p.isr))
  }

  /** Any number of events later: a later epoch, or the same one with the same leader or none. */
  predicate PartLater(p: PartState, q: PartState) {
    && q.replicas == p.replicas
    && (p.leaderEpoch < q.leaderEpoch || (p.leaderEpoch == q.leaderEpoch && (q.leader == p.leader || q.leader == -1)))
  }

  /** Election keeps a partition good, makes it available, and takes the new leader from the ISR. */
  lemma ElectionKeeps(p: PartState, alive: set<u32>)
    requires PartOk(p)
    ensures var q := Elected(p, alive); PartOk(q) && Available(q, alive) && PartStep(p, q)
  {
    hide NoRepeats, Retained;
    if !(p.leader >= 0 && p.leader in alive) {
      var r := FirstAlive(p.isr, alive);
      hide FirstAlive;
      if r.Some? {
        assert r.value in p.replicas;
        assert r.value in Retained(p.isr, alive);
      }
    } else {
      assert p.leader in p.isr && p.leader in alive;
    }
  }

  /** Who is elected, among whom: a partition whose leader is alive is left alone; any other gets the first live
      member of its ISR under the next epoch, with the live members as its ISR, or no leader if there is none. */
  lemma ElectionIs(brokers: map<u32, BrokerState>, topics: map<str, seq<PartState>>, name: str, i: nat)
    requires name in topics && i < |topics[name]| && PartOk(topics[name][i])
    ensures var r := ElectedAll(topics, AliveIds(brokers));
            && r.Keys == topics.Keys && |r[name]| == |topics[name]|
            && var p, q := topics[name][i], r[name][i];
               if p.leader >= 0 && p.leader in brokers && brokers[p.leader].alive then q == p
               else if exists k :: 0 <= k < |p.isr| && p.isr[k] in brokers && brokers[p.isr[k]].alive
               then
                 && q.leaderEpoch == p.leaderEpoch + 1 && q.replicas == p.replicas
                 && (exists k :: 0 <= k < |p.isr| && q.leader == p.isr[k] && q.leader in brokers
                       && brokers[q.leader].alive
                       && forall j :: 0 <= j < k ==> p.isr[j] in brokers ==> !brokers[p.isr[j]].alive)
                 && (forall id :: id in q.isr <==> id in p.isr && id in brokers && brokers[id].alive)
                 && q.isr == Retained(p.isr, AliveIds(brokers))
               else q == p.(leader := -1)
  {
    var p := topics[name][i];
    var alive := AliveIds(brokers);
    hide Retained, NoRepeats;
    var k := FirstAliveAt(p.isr, alive);
    hide FirstAlive;
    if k < |p.isr| {
      assert p.isr[k] in p.isr;
    }
  }

  lemma {:induction false} FirstAliveAt(isr: seq<u32>, alive: set<u32>) returns (k: nat)
    ensures k <= |isr| && forall j :: 0 <= j < k ==> isr[j] !in alive
    ensures if k < |isr| then isr[k] in alive && FirstAlive(isr, alive) == Some(isr[k])
            else FirstAlive(isr, alive) == None
    decreases |isr|
  {
    if isr == [] || isr[0] in alive {
      k := 0;
    } else {
      var n := FirstAliveAt(isr[1..], alive);
      k := n + 1;
    }
  }

  // ---------------------------------------------------------------- the whole state over time

  ghost predicate TopicsStep(a: map<str, seq<PartState>>, b: map<str, seq<PartState>>) {
    && a.Keys <= b.Keys
    && (forall name {:trigger b[name]} {:trigger a[name]} :: name in a ==> |a[name]| == |b[name]|)
    && forall name, i {:trigger a[name][i]} {:trigger b[name][i]} ::
         name in a && name in b && 0 <= i < |a[name]| && i < |b[name]| ==> PartStep(a[name][i], b[name][i])
  }

  ghost predicate TopicsLater(a: map<str, seq<PartState>>, b: map<str, seq<PartState>>) {
    && a.Keys <= b.Keys
    && (forall name {:trigger b[name]} {:trigger a[name]} :: name in a ==> |a[name]| == |b[name]|)
    && forall name, i {:trigger a[name][i]} {:trigger b[name][i]} ::
         name in a && name in b && 0 <= i < |a[name]| && i < |b[name]| ==> PartLater(a[name][i], b[name][i])
  }

  /** The published metadata, apart from its version: addresses and topics. */
  ghost predicate SameMetadata(s: State, t: State) {
    && s.topics == t.topics && s.brokers.Keys == t.brokers.Keys
    && forall id {:trigger s.brokers[id]} {:trigger t.brokers[id]} :: id in s.brokers ==>
         s.brokers[id].addr == t.brokers[id].addr && s.brokers[id].peerAddr == t.brokers[id].peerAddr
  }

  ghost predicate Versioned(s: State, t: State) {
    t.version > s.version || (t.version == s.version && SameMetadata(s, t))
  }

  lemma ElectionStep(topics: map<str, seq<PartState>>, alive: set<u32>)
    requires TopicsOk(topics)
    ensures TopicsStep(topics, ElectedAll(topics, alive)) && TopicsOk(ElectedAll(topics, alive))
    ensures forall name, i {:trigger ElectedAll(topics, alive)[name][i]} ::
              name in topics && 0 <= i < |topics[name]| ==> Available(ElectedAll(topics, alive)[name][i], alive)
  {
    hide ElectedAll, ElectedIn, Elected, PartOk, Available, PartStep;
    var after := ElectedAll(topics, alive);
    forall name, i | name in topics && 0 <= i < |topics[name]|
      ensures PartOk(after[name][i]) && Available(after[name][i], alive) && PartStep(topics[name][i], after[name][i])
    {
      ElectionKeeps(topics[name][i], alive);
    }
  }

  lemma SameTopics(topics: map<str, seq<PartState>>)
    ensures TopicsStep(topics, topics)
  {
  }

  // ---------------------------------------------------------------- each event

  /** A registration or a revival elects everywhere, so it restores availability from any state. */
  lemma RegisterStep(s: State, id: u32, addr: str, peerAddr: str, now: nat)
    requires StateOk(s) && id < ID_LIMIT
    ensures var t := AfterRegister(s, id, addr, peerAddr, now);
            StateOk(t) && AllAvailable(t) && TopicsStep(s.topics, t.topics) && Versioned(s, t)
  {
    hide ElectedAll, TopicsOk, TopicsStep, Available;
    var b := s.brokers[id := BrokerState(addr, peerAddr, true, now)];
    ElectionStep(s.topics, AliveIds(b));
  }

  lemma BeatStep(s: State, id: u32, now: nat)
    requires StateOk(s)
    ensures var t := AfterBeat(s, id, now);
            && StateOk(t) && TopicsStep(s.topics, t.topics) && Versioned(s, t)
            && (AllAvailable(s) || (id in s.brokers && !s.brokers[id].alive) ==> AllAvailable(t))
  {
    hide ElectedAll, TopicsOk, TopicsStep, Available;
    SameTopics(s.topics);
    if id in s.brokers {
      var b := s.brokers[id := s.brokers[id].(alive := true, lastHeartbeat := now)];
      if s.brokers[id].alive {
        assert AliveIds(b) == AliveIds(s.brokers);
      } else {
        ElectionStep(s.topics, AliveIds(b));
      }
    }
  }

  lemma SweepStep(s: State, now: nat, timeout: nat)
    requires StateOk(s)
    ensures var t := AfterSweep(s, now, timeout);
            && StateOk(t) && TopicsStep(s.topics, t.topics) && Versioned(s, t)
            && (AllAvailable(s) ==> AllAvailable(t))
  {
    hide ElectedAll, TopicsOk, TopicsStep, Available;
    SameTopics(s.topics);
    ElectionStep(s.topics, AliveIds(Swept(s.brokers, now, timeout)));
  }

  /** Numbers less than `n` apart have different remainders. */
  lemma RemaindersDiffer(a: nat, b: nat, n: nat)
    requires a < b < a + n
    ensures a % n != b % n
  {
    assert a == n * (a / n) + a % n && b == n * (b / n) + b % n;
    QuotientsDiffer(n, a / n, a % n, b / n, b % n);
  }

  lemma QuotientsDiffer(n: nat, x: nat, r: nat, y: nat, q: nat)
    requires n * x + r < n * y + q < n * x + r + n
    ensures r != q
  {
    if y <= x {
      MulGrows(n, y, x);
    } else {
      MulGrows(n, x + 1, y);
    }
  }

  lemma MulGrows(n: nat, u: nat, v: nat)
    requires u <= v
    ensures n * u <= n * v
  {
  }

  /** Consecutive entries of a list, no more than it has, wrap around without repeating. */
  lemma WrapsOnce(alive: seq<u32>, p: nat, rf: nat)
    requires alive != [] && rf <= |alive| && NoRepeats(alive)
    ensures NoRepeats(ReplicasOf(alive, p, rf))
  {
    var r := ReplicasOf(alive, p, rf);
    hide ReplicasOf;
    forall i, j | 0 <= i < j < rf ensures r[i] != r[j] {
      RemaindersDiffer(p + i, p + j, |alive|);
      TwoDiffer(alive, (p + i) % |alive|, (p + j) % |alive|);
    }
  }

  lemma TwoDiffer(s: seq<u32>, i: nat, j: nat)
    requires NoRepeats(s) && i < |s| && j < |s| && i != j
    ensures s[i] != s[j]
  {
  }

  lemma NewPartOk(alive: seq<u32>, p: nat, rf: nat, live: set<u32>)
    requires alive != [] && 0 < rf <= |alive| && NoRepeats(alive)
    requires forall id :: id in alive ==> id < ID_LIMIT && id in live
    ensures PartOk(NewPart(alive, p, rf)) && Available(NewPart(alive, p, rf), live)
  {
    WrapsOnce(alive, p, rf);
    var r := ReplicasOf(alive, p, rf);
    assert forall i {:trigger r[i]} :: 0 <= i < rf ==> r[i] in alive;
    hide ReplicasOf, NoRepeats;
    assert r[0] in r && r[0] in live;
  }

  lemma CreateStep(s: State, topic: str, partitions: u32, rf: u32, alive: seq<u32>)
    requires StateOk(s) && NoRepeats(alive) && forall id :: id in alive <==> id in AliveIds(s.brokers)
    ensures var t := AfterCreate(s, topic, partitions, rf, alive);
            && StateOk(t) && TopicsStep(s.topics, t.topics) && Versioned(s, t)
            && (AllAvailable(s) ==> AllAvailable(t))
  {
    hide PartOk, Available, NoRepeats, NewPart;
    SameTopics(s.topics);
    if CreateError(s, topic, partitions, rf, alive) == NoError {
      var parts := NewParts(alive, partitions, AtLeastOne(rf));
      hide NewParts, PartStep;
      forall p | 0 <= p < |parts| ensures PartOk(parts[p]) && Available(parts[p], AliveIds(s.brokers)) {
        NewPartOk(alive, p, AtLeastOne(rf), AliveIds(s.brokers));
      }
      NewTopicStep(s.topics, topic, parts);
    }
  }

  lemma NewTopicStep(topics: map<str, seq<PartState>>, topic: str, parts: seq<PartState>)
    requires topic !in topics
    ensures TopicsStep(topics, topics[topic := parts])
  {
  }

  /** An accepted ISR change keeps the partition good and its leader; an offline partition accepts none. */
  lemma AlterPart(p: PartState, isr: seq<u32>, alive: set<u32>)
    requires PartOk(p) && isr != [] && LeaderId(p.leader) in isr && forall id :: id in isr ==> id in p.replicas
    ensures var q := p.(isr := isr);
            && p.leader >= 0 && PartOk(q) && PartStep(p, q) && (Available(p, alive) ==> Available(q, alive))
  {
    hide NoRepeats;
    assert LeaderId(p.leader) in p.replicas;
    assert p.leader >= 0 && p.leader in isr;
  }

  lemma AlterStep(s: State, topic: str, partition: u32, leaderEpoch: nat, isr: seq<u32>)
    requires StateOk(s)
    ensures var t := AfterAlter(s, topic, partition, leaderEpoch, isr);
            && StateOk(t) && TopicsStep(s.topics, t.topics) && Versioned(s, t)
            && (AllAvailable(s) ==> AllAvailable(t))
  {
    hide PartOk, Available, LeaderId;
    SameTopics(s.topics);
    if AlterError(s, topic, partition, leaderEpoch, isr) == NoError {
      var p := s.topics[topic][partition];
      AlterPart(p, isr, AliveIds(s.brokers));
      OnePartStep(s.topics, topic, partition, p.(isr := isr));
    }
  }

  lemma OnePartStep(topics: map<str, seq<PartState>>, topic: str, i: nat, q: PartState)
    requires topic in topics && i < |topics[topic]| && PartStep(topics[topic][i], q)
    ensures TopicsStep(topics, topics[topic := topics[topic][i := q]])
  {
  }

  lemma RestartStep(s: State, now: nat)
    requires StateOk(s)
    ensures StateOk(Dead(s, now)) && TopicsStep(s.topics, Dead(s, now).topics) && Versioned(s, Dead(s, now))
  {
    hide PartOk;
    SameTopics(s.topics);
  }

  // ---------------------------------------------------------------- each request, over the fields

  /** A registration enters the broker as alive under its addresses and elects everywhere. It takes a new version
      unless the broker was alive under the same addresses and no election changed anything. */
  lemma RegisterIs(s: State, id: u32, addr: str, peerAddr: str, now: nat)
    ensures var t := AfterRegister(s, id, addr, peerAddr, now);
            && t.brokers.Keys == s.brokers.Keys + {id}
            && t.brokers[id] == BrokerState(addr, peerAddr, true, now)
            && (forall other :: other in s.brokers && other != id ==> t.brokers[other] == s.brokers[other])
            && t.topics == ElectedAll(s.topics, AliveIds(t.brokers))
            && t.version == s.version + if id in s.brokers && s.brokers[id].alive && s.brokers[id].addr == addr
                                           && s.brokers[id].peerAddr == peerAddr && t.topics == s.topics then 0 else 1
  {
    hide ElectedAll, AliveIds;
  }

  /** A heartbeat of an unknown broker changes nothing. One of a known broker renews it, and if it had been declared
      dead it elects, under a new version if that changed anything. */
  lemma BeatIs(s: State, id: u32, now: nat)
    ensures var t := AfterBeat(s, id, now);
            if id !in s.brokers then t == s
            else
              && t.brokers == s.brokers[id := s.brokers[id].(alive := true, lastHeartbeat := now)]
              && t.topics == (if s.brokers[id].alive then s.topics else ElectedAll(s.topics, AliveIds(t.brokers)))
              && t.version == s.version + if t.topics == s.topics then 0 else 1
  {
    hide ElectedAll, AliveIds;
  }

  /** A topic is created if and only if its name is new, it has 1 to 1024 partitions, and as many brokers are alive as
      it wants replicas. Each partition then has that many distinct live brokers, from its own number on around
      the ids in ascending order; they are its ISR, the first of them leads, in epoch 1. */
  lemma CreateIs(s: State, topic: str, partitions: u32, rf: u32)
    requires StateOk(s)
    ensures var alive := Sorted(AliveIds(s.brokers));
            var t := AfterCreate(s, topic, partitions, rf, alive);
            var error := CreateError(s, topic, partitions, rf, alive);
            && (forall id :: id in alive <==> id in s.brokers && s.brokers[id].alive)
            && (error == NoError <==> topic !in s.topics && 1 <= partitions <= 1024 && 1 <= |alive| && rf <= |alive|)
            && (error == TopicExists <==> topic in s.topics)
            && (error != NoError && error != TopicExists ==> error == Malformed)
            && (error != NoError ==> t == s)
            && (error == NoError ==>
                  && t.brokers == s.brokers && t.version == s.version + 1
                  && t.topics.Keys == s.topics.Keys + {topic}
                  && (forall name :: name in s.topics ==> t.topics[name] == s.topics[name])
                  && |t.topics[topic]| == partitions
                  && forall p {:trigger t.topics[topic][p]} :: 0 <= p < partitions ==>
                       NewlyPlaced(t.topics[topic][p], alive, p, if rf == 0 then 1 else rf))
  {
    var alive := Sorted(AliveIds(s.brokers));
    hide Sorted, NewPart, NewlyPlaced, NoRepeats;
    if CreateError(s, topic, partitions, rf, alive) == NoError {
      forall p: nat ensures NewlyPlaced(NewPart(alive, p, AtLeastOne(rf)), alive, p, AtLeastOne(rf)) {
        PlacedAround(alive, p, AtLeastOne(rf));
      }
    }
  }

  /** `q` is partition `p` of a new topic with `rf` replicas. */
  ghost predicate NewlyPlaced(q: PartState, alive: seq<u32>, p: nat, rf: nat)
    requires alive != []
  {
    && |q.replicas| == rf && NoRepeats(q.replicas) && q.isr == q.replicas
    && (forall i {:trigger q.replicas[i]} :: 0 <= i < rf ==> q.replicas[i] == alive[(p + i) % |alive|])
    && q.leaderEpoch == 1 && rf > 0 && q.leader == q.replicas[0]
  }

  lemma PlacedAround(alive: seq<u32>, p: nat, rf: nat)
    requires 0 < rf <= |alive| && NoRepeats(alive) && forall id :: id in alive ==> id < ID_LIMIT
    ensures NewlyPlaced(NewPart(alive, p, rf), alive, p, rf)
  {
    WrapsOnce(alive, p, rf);
    hide NoRepeats;
    var r := ReplicasOf(alive, p, rf);
    assert r[0] == alive[p % |alive|] && alive[p % |alive|] in alive;
  }

  /** An ISR change is refused unless it names an existing partition in its present epoch, and a set of replicas with
      the leader in it. Refused it changes nothing; accepted it makes the ISR what was asked for and changes
      nothing else, under a new version if the ISR was another. */
  lemma AlterIs(s: State, topic: str, partition: u32, leaderEpoch: nat, isr: seq<u32>)
    ensures var t := AfterAlter(s, topic, partition, leaderEpoch, isr);
            var error := AlterError(s, topic, partition, leaderEpoch, isr);
            if topic !in s.topics || partition >= |s.topics[topic]| then error == UnknownTopicOrPartition && t == s
            else
              var p := s.topics[topic][partition];
              && (error == FencedEpoch <==> leaderEpoch != p.leaderEpoch)
              && (error == NoError <==>
                    && leaderEpoch == p.leaderEpoch && isr != []
                    && (if p.leader >= 0 then p.leader else p.leader + 0x1_0000_0000) in isr
                    && forall id :: id in isr ==> id in p.replicas)
              && (error != NoError && error != FencedEpoch ==> error == Malformed)
              && (error != NoError ==> t == s)
              && (error == NoError ==>
                    && t.brokers == s.brokers && t.version == s.version + (if p.isr == isr then 0 else 1)
                    && t.topics == s.topics[topic := s.topics[topic][partition := p.(isr := isr)]])
  {
    if AlterError(s, topic, partition, leaderEpoch, isr) == NoError {
      var ps := s.topics[topic];
      if ps[partition].isr == isr {
        assert ps[partition := ps[partition].(isr := isr)] == ps;
      }
    }
  }

  /** A request of a leader that has been replaced is always refused: over any run that has elected again in the
      partition since. */
  lemma StaleLeaderIsFenced(s: State, events: seq<Event>, t: State, topic: str, i: u32, isr: seq<u32>)
    requires StateOk(s) && Run(s, events, t) && topic in s.topics && i < |s.topics[topic]|
    ensures topic in t.topics && i < |t.topics[topic]|
    ensures var p, q := s.topics[topic][i], t.topics[topic][i];
            p.leader >= 0 && q.leader >= 0 && q.leader != p.leader ==>
              && AlterError(t, topic, i, p.leaderEpoch, isr) == FencedEpoch
              && Apply(t, Alter(topic, i, p.leaderEpoch, isr)) == t
  {
    OneLeaderPerEpoch(s, events, t, topic, i);
  }

  /** A sweep declares dead exactly the live brokers that have been silent for longer than the timeout. If there are any
      it elects, under a new version. */
  lemma SweepIs(s: State, now: nat, timeout: nat)
    ensures var t := AfterSweep(s, now, timeout);
            var any := exists id :: id in s.brokers && s.brokers[id].alive
                                    && now > s.brokers[id].lastHeartbeat + timeout;
            && t.brokers.Keys == s.brokers.Keys
            && (forall id {:trigger t.brokers[id]} :: id in s.brokers ==>
                  t.brokers[id] == if s.brokers[id].alive && now > s.brokers[id].lastHeartbeat + timeout
                                   then s.brokers[id].(alive := false) else s.brokers[id])
            && t.topics == (if any then ElectedAll(s.topics, AliveIds(t.brokers)) else s.topics)
            && t.version == s.version + if any then 1 else 0
  {
    hide ElectedAll, AliveIds;
    assert (forall id :: id in s.brokers ==> !Expired(s.brokers[id], now, timeout)) <==>
           !exists id :: id in s.brokers && s.brokers[id].alive && now > s.brokers[id].lastHeartbeat + timeout;
  }

  // ---------------------------------------------------------------- runs

  /** The ids in ascending order. */
  function Sorted(ids: set<u32>): (r: seq<u32>)
    ensures NoRepeats(r) && forall id :: id in r <==> id in ids
    ensures forall i, j {:trigger r[i], r[j]} :: 0 <= i < j < |r| ==> r[i] < r[j]
  {
    if ids == {} then []
    else
      var m := Least(ids);
      [m] + Sorted(ids - {m})
  }

  predicate Enabled(e: Event) {
    e.Register? ==> e.id < ID_LIMIT
  }

  function Apply(s: State, e: Event): State {
    match e
    case Register(id, addr, peerAddr, now) => AfterRegister(s, id, addr, peerAddr, now)
    case Beat(id, now) => AfterBeat(s, id, now)
    case Create(topic, partitions, rf) => AfterCreate(s, topic, partitions, rf, Sorted(AliveIds(s.brokers)))
    case Alter(topic, partition, leaderEpoch, isr) => AfterAlter(s, topic, partition, leaderEpoch, isr)
    case Sweep(now, timeout) => AfterSweep(s, now, timeout)
    case Restart(now) => Dead(s, now)
  }

  ghost predicate Run(s: State, events: seq<Event>, t: State)
    decreases |events|
  {
    if events == [] then s == t
    else Enabled(events[0]) && Run(Apply(s, events[0]), events[1..], t)
  }

  lemma EventStep(s: State, e: Event)
    requires StateOk(s) && Enabled(e)
    ensures var t := Apply(s, e);
            && StateOk(t) && TopicsStep(s.topics, t.topics) && Versioned(s, t)
            && (AllAvailable(s) && !e.Restart? ==> AllAvailable(t))
  {
    hide StateOk, AllAvailable, TopicsStep, Versioned, AfterRegister, AfterBeat,
        AfterCreate, AfterAlter, AfterSweep, Dead;
    match e
    case Register(id, addr, peerAddr, now) => RegisterStep(s, id, addr, peerAddr, now);
    case Beat(id, now) => BeatStep(s, id, now);
    case Create(topic, partitions, rf) => CreateStep(s, topic, partitions, rf, Sorted(AliveIds(s.brokers)));
    case Alter(topic, partition, leaderEpoch, isr) => AlterStep(s, topic, partition, leaderEpoch, isr);
    case Sweep(now, timeout) => SweepStep(s, now, timeout);
    case Restart(now) => RestartStep(s, now);
  }

  lemma StepThenLater(a: map<str, seq<PartState>>, b: map<str, seq<PartState>>, c: map<str, seq<PartState>>)
    requires TopicsStep(a, b) && TopicsLater(b, c)
    ensures TopicsLater(a, c)
  {
    forall name, i | name in a && name in c && 0 <= i < |a[name]| && i < |c[name]|
      ensures PartLater(a[name][i], c[name][i])
    {
      assert PartStep(a[name][i], b[name][i]) && PartLater(b[name][i], c[name][i]);
    }
    forall name | name in a ensures |a[name]| == |c[name]| {
      assert |a[name]| == |b[name]| && |b[name]| == |c[name]|;
    }
  }

  lemma LaterSame(a: map<str, seq<PartState>>)
    ensures TopicsLater(a, a)
  {
  }

  lemma VersionThenLater(s: State, t: State, u: State)
    requires Versioned(s, t) && Versioned(t, u)
    ensures Versioned(s, u)
  {
  }

  /** Over any run, restarts included: partitions stay good, epochs never go back and no epoch of a partition gets
      a second leader, and states with equal versions publish equal metadata. Without a restart every
      partition with a live ISR member keeps a leader. */
  lemma {:induction false} RunKeeps(s: State, events: seq<Event>, t: State)
    requires StateOk(s) && Run(s, events, t)
    ensures StateOk(t) && TopicsLater(s.topics, t.topics) && Versioned(s, t)
    ensures AllAvailable(s) && (forall e :: e in events ==> !e.Restart?) ==> AllAvailable(t)
    decreases |events|
  {
    hide StateOk, AllAvailable, TopicsStep, TopicsLater, Apply, Enabled;
    if events == [] {
      LaterSame(s.topics);
    } else {
      EventStep(s, events[0]);
      var m := Apply(s, events[0]);
      RunKeeps(m, events[1..], t);
      StepThenLater(s.topics, m.topics, t.topics);
      hide Versioned;
      VersionThenLater(s, m, t);
      assert forall e :: e in events[1..] ==> e in events;
    }
  }

  /** In two states of one run, a partition that has the same epoch in both and a leader in both has the same
      leader in both. */
  lemma OneLeaderPerEpoch(s: State, events: seq<Event>, t: State, topic: str, i: nat)
    requires StateOk(s) && Run(s, events, t) && topic in s.topics && i < |s.topics[topic]|
    ensures topic in t.topics && i < |t.topics[topic]|
    ensures var p, q := s.topics[topic][i], t.topics[topic][i];
            && p.leaderEpoch <= q.leaderEpoch && q.replicas == p.replicas
            && (p.leaderEpoch == q.leaderEpoch && p.leader >= 0 && q.leader >= 0 ==> p.leader == q.leader)
  {
    RunKeeps(s, events, t);
    hide Run, StateOk, Versioned;
    assert topic in t.topics && |s.topics[topic]| == |t.topics[topic]|;
    assert PartLater(s.topics[topic][i], t.topics[topic][i]);
  }

  /** What a broker reads as the partition's metadata. */
  function MetaOf(p: PartState): LogAgreement.Meta
    requires p.leaderEpoch < U64_RANGE
  {
    LogAgreement.Meta(p.leaderEpoch, if p.leader >= 0 then Some(p.leader) else None)
  }

  /** The metadata that log agreement assumes of the controller is what the controller publishes: any two states
      of a run, in order, show metadata that may follow one another. */
  lemma PublishesInOrder(s: State, events: seq<Event>, t: State, topic: str, i: nat)
    requires StateOk(s) && Run(s, events, t) && topic in s.topics && i < |s.topics[topic]|
    ensures topic in t.topics && i < |t.topics[topic]|
    ensures var p, q := s.topics[topic][i], t.topics[topic][i];
            q.leaderEpoch < U64_RANGE ==>
              p.leaderEpoch <= q.leaderEpoch && LogAgreement.Succeeds(MetaOf(p), MetaOf(q))
  {
    RunKeeps(s, events, t);
    hide Run, StateOk, Versioned;
    assert topic in t.topics && |s.topics[topic]| == |t.topics[topic]|;
    assert PartLater(s.topics[topic][i], t.topics[topic][i]);
  }

  function Empty(): State { State(0, map[], map[]) }
}
