/** The controller: it owns the leader, epoch and ISR of every partition, elects leaders from the ISR, and writes every
    change to its snapshot before it answers (src/controller/mod.rs). */
module ControllerProcess {
  import opened Wrappers
  import opened Bytes
  import opened Messages
  import opened Proto
  import opened ClusterState
  import opened Snapshot

  /** A state that the snapshot format can hold: lengths as on the wire, counters of 64 bits. */
  ghost predicate Storable(s: State) {
    && s.version < U64_RANGE && |s.brokers| < U32_RANGE && |s.topics| < U32_RANGE
    && (forall id {:trigger s.brokers[id]} :: id in s.brokers
         ==> Short(s.brokers[id].addr) && Short(s.brokers[id].peerAddr))
    && (forall name {:trigger s.topics[name]} :: name in s.topics ==> Short(name) && Each(s.topics[name], StorablePart))
  }

  lemma StorableListed(s: State, ids: seq<u32>, names: seq<str>)
    requires Storable(s) && NoRepeats(ids) && NoRepeats(names)
    requires (forall id :: id in ids <==> id in s.brokers) && forall name :: name in names <==> name in s.topics
    ensures StorableContents(ContentsOf(s, ids, names))
  {
    CountEach(ids, s.brokers.Keys);
    CountEach(names, s.topics.Keys);
    hide Short, StorablePart, NoRepeats;
    var c := ContentsOf(s, ids, names);
    hide ContentsOf;
    forall i | 0 <= i < |c.brokers| ensures StorableBroker(c.brokers[i]) {
      assert ids[i] in s.brokers;
    }
    forall i | 0 <= i < |c.topics| ensures StorableEntry(c.topics[i]) {
      assert names[i] in s.topics;
    }
  }

  class Controller {
    var version: nat
    var brokers: map<u32, BrokerState>
    var topics: map<str, seq<PartState>>
    /** The snapshot file; a write replaces it whole. */
    var file: Option<seq<byte>>

    function Now(): State
      reads this
    {
      State(version, brokers, topics)
    }

    /** Whatever the controller has published is in its snapshot. */
    ghost predicate Saved()
      reads this
    {
      FileHolds(file, Now())
    }

    constructor Of(s: State, file: Option<seq<byte>>)
      ensures Now() == s && this.file == file
    {
      version, brokers, topics, this.file := s.version, s.brokers, s.topics, file;
    }

    /** Starts from a snapshot file, or empty without one; None when the file is not a snapshot. Starting from
        the snapshot of `s` gives `s` with every broker held dead. */
    static method Start(file: Option<seq<byte>>, now: nat, ghost s: State) returns (r: Option<Controller>)
      ensures file.None? ==> r.Some?
      ensures file.Some? ==> (r.Some? <==> Loaded(file.value, now).Some?)
      ensures r.Some? ==> fresh(r.value) && r.value.file == file
      ensures r.Some? ==> r.value.Now() == if file.None? then Empty() else Loaded(file.value, now).value
      ensures FileHolds(file, s) ==> r.Some? && r.value.Now() == Dead(s, now) && r.value.Saved()
      ensures r.Some? ==> forall id :: id in r.value.brokers ==> !r.value.brokers[id].alive
      ensures FileHolds(file, s) ==>
                && r.value.version == s.version && r.value.topics == s.topics && r.value.brokers.Keys == s.brokers.Keys
                && forall id :: id in s.brokers ==>
                     r.value.brokers[id].addr == s.brokers[id].addr
                     && r.value.brokers[id].peerAddr == s.brokers[id].peerAddr
    {
      hide Loaded;
      if file.Some? {
        LoadedDead(file.value, now);
      }
      if FileHolds(file, s) {
        DeadAgain(file, s, now);
      }
      if file.None? {
        var c := new Controller.Of(Empty(), file);
        return Some(c);
      }
      var loaded := Loaded(file.value, now);
      if loaded.None? {
        return None;
      }
      var c := new Controller.Of(loaded.value, file);
      return Some(c);
    }

    /** Writes the whole state, brokers by id and topics in some order of their names. */
    method Persist()
      requires Storable(Now())
      modifies `file
      ensures Saved()
    {
      hide Storable, Loaded, Encoded, Sorted, Dead, ContentsOf, StorableContents;
      var ids := Sorted(brokers.Keys);
      var names: seq<str> := [];
      var left := topics.Keys;
      while left != {}
        invariant left <= topics.Keys && NoRepeats(names)
        invariant forall name :: name in names <==> name in topics && name !in left
        decreases |left|
      {
        var name :| name in left;
        OneMoreName(names, name);
        names, left := names + [name], left - {name};
      }
      StorableListed(Now(), ids, names);
      file := Some(Encoded(ContentsOf(Now(), ids, names)));
      forall now: nat ensures Loaded(file.value, now) == Some(Dead(Now(), now)) {
        SnapshotRoundTrip(Now(), ids, names, now);
      }
    }

    /** Runs after every mutation: a change gets a version and is saved before anyone can see it. */
    method Mutated(changed: bool, ghost before: State)
      requires Storable(Commit(Now(), changed)) && (!changed ==> FileHolds(file, before) && SameDead(before, Now()))
      modifies `version, `file
      ensures Now() == old(Commit(Now(), changed)) && Saved()
    {
      hide Storable;
      if changed {
        version := version + 1;
        Persist();
      } else {
        StillSaved(before);
      }
    }

    lemma StillSaved(before: State)
      requires FileHolds(file, before) && SameDead(before, Now())
      ensures Saved()
    {
      hide Loaded;
      forall now: nat ensures Dead(Now(), now) == Dead(before, now) {
      }
    }

    /** Elects wherever the leader is dead or missing, and says whether anything changed. */
    method ElectWhereNeeded() returns (changed: bool)
      modifies `topics
      ensures topics == ElectedAll(old(topics), AliveIds(brokers)) && changed == (topics != old(topics))
    {
      hide AliveIds, ElectedSoFar, ElectedAll;
      var alive := AliveIds(brokers);
      var left := topics.Keys;
      changed := false;
      ghost var first := topics;
      NoneElected(first, alive);
      while left != {}
        invariant left <= first.Keys && ElectedSoFar(first, topics, left, alive, changed)
        decreases |left|
      {
        var name :| name in left;
        NextElected(first, topics, left, name, alive, changed);
        var parts, moved := ElectIn(topics[name], alive);
        topics := topics[name := parts];
        changed, left := changed || moved, left - {name};
      }
      EveryoneElected(first, topics, alive, changed);
    }

    method ElectIn(parts: seq<PartState>, alive: set<u32>) returns (r: seq<PartState>, changed: bool)
      ensures r == ElectedIn(parts, alive) && changed == (r != parts)
    {
      hide FirstAlive, Retained;
      r, changed := parts, false;
      for i := 0 to |parts|
        invariant |r| == |parts| && changed == (r != parts)
        invariant forall j {:trigger r[j]} ::
            0 <= j < |r| ==> r[j] == if j < i then Elected(parts[j], alive) else parts[j]
      {
        var p := r[i];
        if !(p.leader >= 0 && p.leader in alive) {
          var candidate := FirstAlive(p.isr, alive);
          if candidate.Some? {
            r := r[i := PartState(AsI32(candidate.value), p.leaderEpoch + 1, p.replicas, Retained(p.isr, alive))];
            assert r[i] != parts[i];
            changed := true;
          } else if p.leader != -1 {
            r := r[i := p.(leader := -1)];
            assert r[i] != parts[i];
            changed := true;
          }
        }
      }
    }

    method Register(id: u32, addr: str, peerAddr: str, now: nat) returns (reply: Response)
      requires Saved() && Storable(AfterRegister(Now(), id, addr, peerAddr, now))
      modifies this
      ensures Saved() && Now() == AfterRegister(old(Now()), id, addr, peerAddr, now)
      ensures version < U64_RANGE && reply == RegisterBrokerReply(NoError, version)
    {
      hide Storable, ElectedAll, Loaded;
      ghost var before := Now();
      var known := id in brokers;
      var same := known && brokers[id].alive && brokers[id].addr == addr && brokers[id].peerAddr == peerAddr;
      brokers := brokers[id := BrokerState(addr, peerAddr, true, now)];
      var elected := ElectWhereNeeded();
      Mutated(!same || elected, before);
      VersionFits(Now());
      reply := RegisterBrokerReply(NoError, version);
    }

    method Beat(id: u32, now: nat) returns (reply: Response)
      requires Saved() && Storable(AfterBeat(Now(), id, now))
      modifies this
      ensures Saved() && Now() == AfterBeat(old(Now()), id, now)
      ensures version < U64_RANGE
      ensures reply == BrokerHeartbeatReply(if id in old(brokers) then NoError else UnknownMember, version)
    {
      hide Storable, ElectedAll, Loaded;
      ghost var before := Now();
      VersionFits(AfterBeat(Now(), id, now));
      if id !in brokers {
        return BrokerHeartbeatReply(UnknownMember, version);
      }
      var wasDead := !brokers[id].alive;
      brokers := brokers[id := brokers[id].(alive := true, lastHeartbeat := now)];
      var changed := false;
      if wasDead {
        changed := ElectWhereNeeded();
      }
      Mutated(changed, before);
      reply := BrokerHeartbeatReply(NoError, version);
    }

    method Create(topic: str, partitions: u32, replicationFactor: u32) returns (reply: Response)
      requires Saved()
      requires Storable(AfterCreate(Now(), topic, partitions, replicationFactor, Sorted(AliveIds(brokers))))
      modifies this
      ensures Saved()
      ensures Now() == AfterCreate(old(Now()), topic, partitions, replicationFactor, Sorted(AliveIds(old(brokers))))
      ensures reply == CreateTopicReply(CreateError(old(Now()), topic, partitions, replicationFactor,
                                                    Sorted(AliveIds(old(brokers)))))
    {
      hide Storable, Loaded, Sorted, AliveIds, NewPart;
      ghost var before := Now();
      var rf := AtLeastOne(replicationFactor);
      if topic in topics {
        return CreateTopicReply(TopicExists);
      }
      var alive := Sorted(AliveIds(brokers));
      if partitions == 0 || partitions > MAX_PARTITIONS || rf > |alive| {
        return CreateTopicReply(Malformed);
      }
      var parts := BuildParts(alive, partitions, rf);
      topics := topics[topic := parts];
      Mutated(true, before);
      reply := CreateTopicReply(NoError);
    }

    method BuildParts(alive: seq<u32>, n: nat, rf: nat) returns (parts: seq<PartState>)
      requires 0 < rf <= |alive|
      ensures parts == NewParts(alive, n, rf)
    {
      parts := [];
      for p := 0 to n
        invariant |parts| == p && forall q {:trigger parts[q]} :: 0 <= q < p ==> parts[q] == NewPart(alive, q, rf)
      {
        var replicas: seq<u32> := [];
        for i := 0 to rf
          invariant |replicas| == i && forall j {:trigger replicas[j]} ::
              0 <= j < i ==> replicas[j] == alive[(p + j) % |alive|]
        {
          replicas := replicas + [alive[(p + i) % |alive|]];
        }
        assert replicas == ReplicasOf(alive, p, rf);
        parts := parts + [PartState(AsI32(replicas[0]), 1, replicas, replicas)];
      }
    }

    method Alter(topic: str, partition: u32, leaderEpoch: u64, isr: seq<u32>) returns (reply: Response)
      requires Saved() && Storable(AfterAlter(Now(), topic, partition, leaderEpoch, isr))
      modifies this
      ensures Saved() && Now() == AfterAlter(old(Now()), topic, partition, leaderEpoch, isr)
      ensures version < U64_RANGE
      ensures reply == AlterIsrReply(AlterError(old(Now()), topic, partition, leaderEpoch, isr), version)
      ensures topic in old(topics) && partition < |old(topics)[topic]| ==>
                var p := old(topics)[topic][partition];
                && (reply.error == FencedEpoch <==> leaderEpoch != p.leaderEpoch)
                && (reply.error == NoError <==>
                      && leaderEpoch == p.leaderEpoch && isr != []
                      && (if p.leader >= 0 then p.leader else p.leader + 0x1_0000_0000) in isr
                      && forall id :: id in isr ==> id in p.replicas)
                && (reply.error == NoError ==>
                      && brokers == old(brokers) && version == old(version) + (if p.isr == isr then 0 else 1)
                      && topics == old(topics)[topic := old(topics)[topic][partition := p.(isr := isr)]])
      ensures reply.error == NoError ==> topic in old(topics) && partition < |old(topics)[topic]|
      ensures reply.error != NoError ==> Now() == old(Now()) && file == old(file)
    {
      AlterIs(Now(), topic, partition, leaderEpoch, isr);
      hide Storable, Loaded;
      ghost var before := Now();
      VersionFits(AfterAlter(Now(), topic, partition, leaderEpoch, isr));
      if topic !in topics || partition >= |topics[topic]| {
        return AlterIsrReply(UnknownTopicOrPartition, version);
      }
      var p := topics[topic][partition];
      if leaderEpoch != p.leaderEpoch {
        return AlterIsrReply(FencedEpoch, version);
      }
      if isr == [] || LeaderId(p.leader) !in isr || exists id :: id in isr && id !in p.replicas {
        return AlterIsrReply(Malformed, version);
      }
      if p.isr == isr {
        return AlterIsrReply(NoError, version);
      }
      topics := topics[topic := topics[topic][partition := p.(isr := isr)]];
      Mutated(true, before);
      reply := AlterIsrReply(NoError, version);
    }

    /** Declares silent brokers dead, and elects if there were any. */
    method Sweep(now: nat, timeout: nat)
      requires Saved() && Storable(AfterSweep(Now(), now, timeout))
      modifies this
      ensures Saved() && Now() == AfterSweep(old(Now()), now, timeout)
    {
      hide Storable, ElectedAll, Loaded, Expired;
      ghost var before := Now();
      var changed := MarkDead(now, timeout);
      if changed {
        var _ := ElectWhereNeeded();
      }
      Mutated(changed, before);
    }

    method MarkDead(now: nat, timeout: nat) returns (changed: bool)
      modifies `brokers
      ensures changed == !forall id :: id in old(brokers) ==> !Expired(old(brokers)[id], now, timeout)
      ensures brokers == if changed then Swept(old(brokers), now, timeout) else old(brokers)
    {
      hide MarkedSoFar, Expired, Swept;
      changed := false;
      var left := brokers.Keys;
      ghost var first := brokers;
      NoneMarked(first, now, timeout);
      while left != {}
        invariant left <= first.Keys && MarkedSoFar(first, brokers, left, now, timeout, changed)
        decreases |left|
      {
        var id :| id in left;
        NextMarked(first, brokers, left, id, now, timeout, changed);
        if Expired(brokers[id], now, timeout) {
          brokers := brokers[id := brokers[id].(alive := false)];
          changed := true;
        }
        left := left - {id};
      }
      AllMarked(first, brokers, now, timeout, changed);
    }
  }

  /** The brokers outside `left` have been looked at, and `changed` says whether one of them had expired. */
  ghost predicate MarkedSoFar(first: map<u32, BrokerState>, brokers: map<u32, BrokerState>, left: set<u32>, now: nat,
                              timeout: nat, changed: bool) {
    && brokers.Keys == first.Keys
    && (forall id {:trigger brokers[id]} :: id in brokers ==>
          brokers[id] == if id !in left && Expired(first[id], now, timeout)
              then first[id].(alive := false) else first[id])
    && (changed <==> exists id :: id in first && id !in left && Expired(first[id], now, timeout))
  }

  lemma NoneMarked(first: map<u32, BrokerState>, now: nat, timeout: nat)
    ensures MarkedSoFar(first, first, first.Keys, now, timeout, false)
  {
    hide Expired;
  }

  lemma NextMarked(first: map<u32, BrokerState>, brokers: map<u32, BrokerState>, left: set<u32>, id: u32, now: nat,
                   timeout: nat, changed: bool)
    requires MarkedSoFar(first, brokers, left, now, timeout, changed) && id in left && left <= first.Keys
    ensures id in brokers && brokers[id] == first[id]
    ensures if Expired(first[id], now, timeout)
            then MarkedSoFar(first, brokers[id := brokers[id].(alive := false)], left - {id}, now, timeout, true)
            else MarkedSoFar(first, brokers, left - {id}, now, timeout, changed)
  {
    hide Expired;
  }

  lemma AllMarked(first: map<u32, BrokerState>, brokers: map<u32, BrokerState>, now: nat, timeout: nat, changed: bool)
    requires MarkedSoFar(first, brokers, {}, now, timeout, changed)
    ensures changed == !forall id :: id in first ==> !Expired(first[id], now, timeout)
    ensures brokers == if changed then Swept(first, now, timeout) else first
  {
    hide Expired;
  }

  /** The file is the snapshot of `s`; without a file, nothing has happened yet. */
  ghost predicate FileHolds(file: Option<seq<byte>>, s: State) {
    if file.None? then s == Empty() else forall now: nat :: Loaded(file.value, now) == Some(Dead(s, now))
  }

  lemma DeadAgain(file: Option<seq<byte>>, s: State, now: nat)
    requires FileHolds(file, s)
    ensures FileHolds(file, Dead(s, now)) && (file.None? ==> Dead(s, now) == Empty())
  {
    hide Loaded;
    forall n: nat ensures Dead(Dead(s, now), n) == Dead(s, n) {
    }
  }

  lemma VersionFits(s: State)
    requires Storable(s)
    ensures s.version < U64_RANGE
  {
  }

  lemma OneMoreName(names: seq<str>, name: str)
    requires NoRepeats(names) && name !in names
    ensures NoRepeats(names + [name])
  {
  }

  /** The topics outside `left` have had their elections, and `changed` says whether that changed anything. */
  ghost predicate ElectedSoFar(first: map<str, seq<PartState>>, topics: map<str, seq<PartState>>, left: set<str>,
                               alive: set<u32>, changed: bool) {
    && topics.Keys == first.Keys && changed == (topics != first)
    && forall name {:trigger topics[name]} :: name in topics ==>
         topics[name] == if name in left then first[name] else ElectedIn(first[name], alive)
  }

  lemma NoneElected(first: map<str, seq<PartState>>, alive: set<u32>)
    ensures ElectedSoFar(first, first, first.Keys, alive, false)
  {
    hide ElectedIn;
  }

  lemma NextElected(first: map<str, seq<PartState>>, topics: map<str, seq<PartState>>, left: set<str>, name: str,
                    alive: set<u32>, changed: bool)
    requires ElectedSoFar(first, topics, left, alive, changed) && name in left && left <= first.Keys
    ensures name in topics
    ensures var parts := ElectedIn(topics[name], alive);
            ElectedSoFar(first, topics[name := parts], left - {name}, alive, changed || parts != topics[name])
  {
    hide ElectedIn;
    ElectedOne(topics, first, name, ElectedIn(topics[name], alive));
  }

  lemma EveryoneElected(first: map<str, seq<PartState>>, topics: map<str, seq<PartState>>, alive: set<u32>,
                        changed: bool)
    requires ElectedSoFar(first, topics, {}, alive, changed)
    ensures topics == ElectedAll(first, alive) && changed == (topics != first)
  {
    hide ElectedIn, ElectedAll;
  }

  lemma ElectedOne(before: map<str, seq<PartState>>, first: map<str, seq<PartState>>, name: str, parts: seq<PartState>)
    requires name in before && name in first && before[name] == first[name]
    ensures before[name := parts] == first <==> before == first && parts == first[name]
  {
    assert before[name := parts][name := before[name]] == before;
    if before[name := parts] == first {
      assert first[name := first[name]] == first;
    }
  }

  /** Two states that differ in who is alive at most: their snapshots are the same. */
  ghost predicate SameDead(s: State, t: State) {
    s.version == t.version && SameMetadata(s, t)
  }
}
