/** The controller's snapshot file (`persist_snapshot` and `load_snapshot`, src/controller/mod.rs). */
module Snapshot {
  import opened Wrappers
  import opened Bytes
  import opened Messages
  import opened Wire
  import opened WireIO
  import opened Proto
  import opened ClusterState

  const MAGIC: u32 := 0x524C_4332

  const BROKER := FStruct([FU32, FStr, FStr])
  const PART := FStruct([FI32, FU64, FList(FU32), FList(FU32)])
  const TOPIC := FStruct([FStr, FList(PART)])
  const SNAPSHOT := FStruct([FU32, FU64, FList(BROKER), FList(TOPIC)])

  datatype BrokerEntry = BrokerEntry(id: u32, addr: str, peerAddr: str)
  datatype TopicEntry = TopicEntry(name: str, parts: seq<PartState>)
  datatype Contents = Contents(version: nat, brokers: seq<BrokerEntry>, topics: seq<TopicEntry>)

  function BrokerVal(b: BrokerEntry): Val { VStruct([VNum(b.id), VBytes(b.addr), VBytes(b.peerAddr)]) }
  function PartVal(p: PartState): Val {
    VStruct([VNum(p.leader), VNum(p.leaderEpoch), VList(Nums(p.replicas)), VList(Nums(p.isr))])
  }
  function EntryVal(t: TopicEntry): Val { VStruct([VBytes(t.name), VList(Mapped(PartVal, t.parts))]) }
  function ContentsVal(c: Contents): Val {
    VStruct([VNum(MAGIC), VNum(c.version), VList(Mapped(BrokerVal, c.brokers)), VList(Mapped(EntryVal, c.topics))])
  }

  function ToBroker(v: Val): BrokerEntry {
    BrokerEntry(ToU32(Proto.Part(v, 0)), ToBytes(Proto.Part(v, 1)), ToBytes(Proto.Part(v, 2)))
  }
  function ToPart(v: Val): PartState {
    PartState(ToI32(Proto.Part(v, 0)), ToU64(Proto.Part(v, 1)), ToIds(Proto.Part(v, 2)), ToIds(Proto.Part(v, 3)))
  }
  function ToEntry(v: Val): TopicEntry { TopicEntry(ToBytes(Proto.Part(v, 0)),
      Mapped(ToPart, Items(Proto.Part(v, 1)))) }
  function ToContents(v: Val): Contents {
    Contents(ToU64(Proto.Part(v, 1)), Mapped(ToBroker, Items(Proto.Part(v, 2))),
        Mapped(ToEntry, Items(Proto.Part(v, 3))))
  }

  // ---------------------------------------------------------------- what fits

  predicate StorableBroker(b: BrokerEntry) { Short(b.addr) && Short(b.peerAddr) }
  predicate StorablePart(p: PartState) {
    p.leaderEpoch < U64_RANGE && |p.replicas| < U32_RANGE && |p.isr| < U32_RANGE
  }
  predicate StorableEntry(t: TopicEntry) { Short(t.name) && Each(t.parts, StorablePart) }
  predicate StorableContents(c: Contents) {
    c.version < U64_RANGE && Each(c.brokers, StorableBroker) && Each(c.topics, StorableEntry)
  }

  lemma PartFits(p: PartState)
    ensures StorablePart(p) <==> Fits(PART, PartVal(p))
  {
    hide Nums;
    IdsFit(p.replicas);
    IdsFit(p.isr);
    assert PART.fields[0] == FI32 && PART.fields[1] == FU64 && PART.fields[2] == FList(FU32)
        && PART.fields[3] == FList(FU32);
  }

  lemma EntryFits(t: TopicEntry)
    ensures StorableEntry(t) <==> Fits(TOPIC, EntryVal(t))
  {
    hide Mapped, PartVal, StorablePart, Each;
    forall p ensures StorablePart(p) <==> Fits(PART, PartVal(p)) {
      PartFits(p);
    }
    ListFitsEach(PART, PartVal, StorablePart, t.parts);
    assert TOPIC.fields[0] == FStr && TOPIC.fields[1] == FList(PART);
  }

  lemma BrokerFits(b: BrokerEntry)
    ensures StorableBroker(b) <==> Fits(BROKER, BrokerVal(b))
  {
    assert BROKER.fields[0] == FU32 && BROKER.fields[1] == FStr && BROKER.fields[2] == FStr;
  }

  lemma ContentsFit(c: Contents)
    requires StorableContents(c)
    ensures Fits(SNAPSHOT, ContentsVal(c))
  {
    hide Mapped, BrokerVal, EntryVal, StorableBroker, StorableEntry, Each, Fits;
    forall b ensures StorableBroker(b) <==> Fits(BROKER, BrokerVal(b)) {
      BrokerFits(b);
    }
    forall t ensures StorableEntry(t) <==> Fits(TOPIC, EntryVal(t)) {
      EntryFits(t);
    }
    ListFitsEach(BROKER, BrokerVal, StorableBroker, c.brokers);
    ListFitsEach(TOPIC, EntryVal, StorableEntry, c.topics);
    U32Fits(MAGIC);
    U64Fits(c.version);
    StructFits(SNAPSHOT.fields, ContentsVal(c).parts);
  }

  // ---------------------------------------------------------------- reading back

  lemma PartBack(p: PartState)
    requires p.leaderEpoch < U64_RANGE
    ensures ToPart(PartVal(p)) == p
  {
    hide Nums, ToIds;
    IdsBack(p.replicas);
    IdsBack(p.isr);
  }

  lemma EntryBack(t: TopicEntry)
    requires StorableEntry(t)
    ensures ToEntry(EntryVal(t)) == t
  {
    hide Mapped, PartVal, ToPart;
    forall i | 0 <= i < |t.parts| ensures ToPart(PartVal(t.parts[i])) == t.parts[i] {
      PartBack(t.parts[i]);
    }
    MappedBack(PartVal, ToPart, t.parts);
  }

  lemma ContentsBack(c: Contents)
    requires StorableContents(c)
    ensures ToContents(ContentsVal(c)) == c
  {
    hide Mapped, EntryVal, ToEntry, BrokerVal, ToBroker, StorableEntry;
    forall i | 0 <= i < |c.topics| ensures ToEntry(EntryVal(c.topics[i])) == c.topics[i] {
      EntryBack(c.topics[i]);
    }
    MappedBack(EntryVal, ToEntry, c.topics);
    forall i | 0 <= i < |c.brokers| ensures ToBroker(BrokerVal(c.brokers[i])) == c.brokers[i] {
      BrokerBack(c.brokers[i]);
    }
    MappedBack(BrokerVal, ToBroker, c.brokers);
  }

  lemma BrokerBack(b: BrokerEntry)
    ensures ToBroker(BrokerVal(b)) == b
  {
  }

  // ---------------------------------------------------------------- states

  /** What a snapshot of the state lists, given the order of the ids and of the names. */
  function ContentsOf(s: State, ids: seq<u32>, names: seq<str>): (c: Contents)
    requires (forall id :: id in ids ==> id in s.brokers) && forall name :: name in names ==> name in s.topics
    ensures c.version == s.version && |c.brokers| == |ids| && |c.topics| == |names|
    ensures forall i {:trigger c.brokers[i]} :: 0 <= i < |ids| ==>
              c.brokers[i] == BrokerEntry(ids[i], s.brokers[ids[i]].addr, s.brokers[ids[i]].peerAddr)
    ensures forall i {:trigger c.topics[i]} ::
        0 <= i < |names| ==> c.topics[i] == TopicEntry(names[i], s.topics[names[i]])
  {
    Contents(s.version,
             seq(|ids|, i requires 0 <= i < |ids| =>
                 BrokerEntry(ids[i], s.brokers[ids[i]].addr, s.brokers[ids[i]].peerAddr)),
             seq(|names|, i requires 0 <= i < |names| => TopicEntry(names[i], s.topics[names[i]])))
  }

  /** Inserting entry by entry; nobody is alive until heard of again. */
  function BrokersOf(es: seq<BrokerEntry>, now: nat): map<u32, BrokerState> {
    if es == [] then map[]
    else
      var e := es[|es| - 1];
      BrokersOf(es[..|es| - 1], now)[e.id := BrokerState(e.addr, e.peerAddr, false, now)]
  }

  lemma {:induction false} NobodyAlive(es: seq<BrokerEntry>, now: nat)
    ensures forall id {:trigger id in BrokersOf(es, now)} :: id in BrokersOf(es, now) ==> !BrokersOf(es, now)[id].alive
    decreases |es|
  {
    if es != [] {
      NobodyAlive(es[..|es| - 1], now);
    }
  }

  /** Whatever snapshot is loaded, nobody is alive. */
  lemma LoadedDead(file: seq<byte>, now: nat)
    ensures var s := Loaded(file, now);
            s.Some? ==> forall id {:trigger id in s.value.brokers} ::
                id in s.value.brokers ==> !s.value.brokers[id].alive
  {
    hide DecBody, DecU32, BrokersOf, ToContents;
    var v := DecBody(SNAPSHOT, file, 0);
    if v.Ok? {
      NobodyAlive(ToContents(v.value).brokers, now);
    }
  }

  function TopicsOf(es: seq<TopicEntry>): map<str, seq<PartState>> {
    if es == [] then map[] else TopicsOf(es[..|es| - 1])[es[|es| - 1].name := es[|es| - 1].parts]
  }

  function Encoded(c: Contents): seq<byte>
    requires StorableContents(c)
  {
    ContentsFit(c);
    Enc(SNAPSHOT, ContentsVal(c))
  }

  /** None when the file is not a snapshot. */
  function Loaded(file: seq<byte>, now: nat): Option<State> {
    var magic := DecU32(file, 0);
    if magic.Err? || magic.value.0 != MAGIC then None
    else
      var v := DecBody(SNAPSHOT, file, 0);
      if v.Err? then None
      else
        var c := ToContents(v.value);
        Some(State(c.version, BrokersOf(c.brokers, now), TopicsOf(c.topics)))
  }

  lemma {:induction false} BrokersBack(s: State, ids: seq<u32>, es: seq<BrokerEntry>, now: nat)
    requires |es| == |ids| && forall id :: id in ids ==> id in s.brokers
    requires forall i {:trigger es[i]} :: 0 <= i < |ids| ==>
               es[i] == BrokerEntry(ids[i], s.brokers[ids[i]].addr, s.brokers[ids[i]].peerAddr)
    ensures var m := BrokersOf(es, now);
            && (forall id :: id in m <==> id in ids)
            && forall id {:trigger m[id]} :: id in m ==> m[id] == s.brokers[id].(alive := false, lastHeartbeat := now)
    decreases |ids|
  {
    if ids != [] {
      var rest := ids[..|ids| - 1];
      assert ids == rest + [ids[|ids| - 1]];
      BrokersBack(s, rest, es[..|es| - 1], now);
      assert es[|es| - 1].id == ids[|ids| - 1];
    }
  }

  lemma {:induction false} TopicsBack(s: State, names: seq<str>, es: seq<TopicEntry>)
    requires |es| == |names| && forall name :: name in names ==> name in s.topics
    requires forall i {:trigger es[i]} :: 0 <= i < |names| ==> es[i] == TopicEntry(names[i], s.topics[names[i]])
    ensures var m := TopicsOf(es);
            && (forall name :: name in m <==> name in names)
            && forall name {:trigger m[name]} :: name in m ==> m[name] == s.topics[name]
    decreases |names|
  {
    if names != [] {
      var rest := names[..|names| - 1];
      assert names == rest + [names[|names| - 1]];
      TopicsBack(s, rest, es[..|es| - 1]);
      assert es[|es| - 1].name == names[|names| - 1];
    }
  }

  /** Loading a snapshot gives back the state that was stored, with every broker held dead. */
  lemma SnapshotRoundTrip(s: State, ids: seq<u32>, names: seq<str>, now: nat)
    requires (forall id :: id in ids <==> id in s.brokers) && forall name :: name in names <==> name in s.topics
    requires StorableContents(ContentsOf(s, ids, names))
    ensures Loaded(Encoded(ContentsOf(s, ids, names)), now) == Some(Dead(s, now))
  {
    hide ContentsOf, StorableContents, Encoded, Loaded, BrokersOf, TopicsOf;
    var c := ContentsOf(s, ids, names);
    LoadedIs(c, now);
    BrokersBack(s, ids, c.brokers, now);
    TopicsBack(s, names, c.topics);
    assert BrokersOf(c.brokers, now) == Dead(s, now).brokers;
    assert TopicsOf(c.topics) == s.topics;
  }

  lemma LoadedIs(c: Contents, now: nat)
    requires StorableContents(c)
    ensures Loaded(Encoded(c), now) == Some(State(c.version, BrokersOf(c.brokers, now), TopicsOf(c.topics)))
  {
    ContentsFit(c);
    ContentsBack(c);
    hide StorableContents, Enc, DecBody, Fits, ContentsVal, ToContents, BrokersOf, TopicsOf, DecU32;
    MagicFirst(c);
    BodyReadsBack(SNAPSHOT, ContentsVal(c), []);
    assert [] + Enc(SNAPSHOT, ContentsVal(c)) == Enc(SNAPSHOT, ContentsVal(c));
  }

  lemma MagicFirst(c: Contents)
    requires Fits(SNAPSHOT, ContentsVal(c))
    ensures var e := Enc(SNAPSHOT, ContentsVal(c)); DecU32(e, 0).Ok? && DecU32(e, 0).value.0 == MAGIC
  {
    var v := ContentsVal(c);
    var e := Enc(SNAPSHOT, v);
    assert e == EncFields(SNAPSHOT, v.parts, 4);
    FieldAt(SNAPSHOT, v.parts, 0, 4);
    hide Enc, EncFields, GetU32, PutU32;
    GetPutU32(MAGIC);
    assert EncFields(SNAPSHOT, v.parts, 0) == [] by { NoFields(SNAPSHOT, v.parts); }
    assert Enc(FU32, VNum(MAGIC)) == PutU32(MAGIC) by { EncOfU32(MAGIC); }
    assert e[0..4] == PutU32(MAGIC);
  }

  lemma NoFields(f: Fmt, parts: seq<Val>)
    requires f.FStruct?
    ensures EncFields(f, parts, 0) == []
  {
  }

  lemma EncOfU32(n: u32)
    ensures Enc(FU32, VNum(n)) == PutU32(n)
  {
  }
}
