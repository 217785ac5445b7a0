/** The group coordinator: membership, generations and range assignment (src/broker/groups.rs). Times are readings of a
    monotone clock. */
module Groups {
  import opened Wrappers
  import opened Bytes
  import opened Messages
  import opened Names

  type Subscriptions = map<str, seq<str>>

  /** How many partitions each known topic has. */
  type Counts = map<str, u32>

  function CountOf(counts: Counts, topic: str): Option<u32> {
    if topic in counts then Some(counts[topic]) else None
  }

  type Assignment = map<str, seq<Owned>>

  // ---------------------------------------------------------------- the shares of one topic

  /** The first partition of the `i`th of `n` members. */
  function Start(partitions: nat, n: nat, i: nat): nat
    requires n > 0
  {
    i * (partitions / n) + Min(i, partitions % n)
  }

  /** How many partitions the `i`th member takes: the remainder goes to the front. */
  function Take(partitions: nat, n: nat, i: nat): nat
    requires n > 0
  {
    partitions / n + if i < partitions % n then 1 else 0
  }

  lemma SharesChain(partitions: nat, n: nat, i: nat)
    requires n > 0
    ensures Start(partitions, n, i) + Take(partitions, n, i) == Start(partitions, n, i + 1)
    ensures Start(partitions, n, 0) == 0
  {
    assert (i + 1) * (partitions / n) == i * (partitions / n) + partitions / n;
  }

  lemma StartIs(partitions: nat, n: nat, i: nat)
    requires n > 0
    ensures var per, extra := partitions / n, partitions % n;
            var first := i * per + if i < extra then i else extra;
            && Start(partitions, n, i) == first
            && Start(partitions, n, i + 1) == first + per + if i < extra then 1 else 0
  {
    SharesChain(partitions, n, i);
  }

  lemma SharesEnd(partitions: nat, n: nat)
    requires n > 0
    ensures Start(partitions, n, n) == partitions
  {
  }

  lemma {:induction false} SharesGrow(partitions: nat, n: nat, i: nat, j: nat)
    requires n > 0 && i <= j
    ensures Start(partitions, n, i) <= Start(partitions, n, j)
    decreases j - i
  {
    hide Start, Take;
    if i < j {
      SharesChain(partitions, n, j - 1);
      SharesGrow(partitions, n, i, j - 1);
    }
  }

  /** The one member that takes partition `p`. */
  lemma {:induction false} TakerOf(partitions: nat, n: nat, p: nat, k: nat) returns (i: nat)
    requires n > 0 && k <= n && p < Start(partitions, n, k)
    ensures i < k && Start(partitions, n, i) <= p < Start(partitions, n, i + 1)
    decreases k
  {
    hide Start, Take;
    SharesChain(partitions, n, 0);
    if p < Start(partitions, n, k - 1) {
      i := TakerOf(partitions, n, p, k - 1);
    } else {
      i := k - 1;
    }
  }

  function Chunk(topic: str, first: nat, take: nat): (r: seq<Owned>)
    requires first + take <= U32_RANGE
    ensures |r| == take && forall j {:trigger r[j]} :: 0 <= j < take ==> r[j] == Owned(topic, first + j)
  {
    seq(take, j requires 0 <= j < take => Owned(topic, first + j))
  }

  lemma ShareFits(partitions: u32, n: nat, i: nat)
    requires i < n
    ensures Start(partitions, n, i) + Take(partitions, n, i) <= partitions
  {
    hide Start, Take;
    SharesChain(partitions, n, i);
    SharesGrow(partitions, n, i + 1, n);
    SharesEnd(partitions, n);
  }

  function ShareOf(topic: str, partitions: u32, n: nat, i: nat): seq<Owned>
    requires i < n
  {
    ShareFits(partitions, n, i);
    Chunk(topic, Start(partitions, n, i), Take(partitions, n, i))
  }

  // ---------------------------------------------------------------- the whole assignment

  function Subscribed(subs: Subscriptions, topic: str): set<str> {
    set id | id in subs && topic in subs[id]
  }

  function TopicsOf(subs: Subscriptions): set<str> {
    set id, t | id in subs && t in subs[id] :: t
  }

  /** The first `k` of the subscribers have been given their shares. */
  function Shared(out: Assignment, topic: str, partitions: u32, members: seq<str>, k: nat): (r: Assignment)
    requires k <= |members| && forall id :: id in members ==> id in out
    ensures r.Keys == out.Keys
  {
    if k == 0 then out
    else
      var prev := Shared(out, topic, partitions, members, k - 1);
      var id := members[k - 1];
      prev[id := prev[id] + ShareOf(topic, partitions, |members|, k - 1)]
  }

  function AfterTopic(out: Assignment, subs: Subscriptions, counts: Counts, topic: str): (r: Assignment)
    requires out.Keys == subs.Keys
    ensures r.Keys == out.Keys
  {
    var members := SortedNames(Subscribed(subs, topic));
    if CountOf(counts, topic).None? then out
    else Shared(out, topic, CountOf(counts, topic).value, members, |members|)
  }

  function AfterTopics(subs: Subscriptions, counts: Counts, topics: seq<str>): (r: Assignment)
    ensures r.Keys == subs.Keys
  {
    if topics == [] then map id | id in subs :: []
    else AfterTopic(AfterTopics(subs, counts, topics[..|topics| - 1]), subs, counts, topics[|topics| - 1])
  }

  function Assigned(subs: Subscriptions, counts: Counts): Assignment {
    AfterTopics(subs, counts, SortedNames(TopicsOf(subs)))
  }

  // ---------------------------------------------------------------- what the assignment gives

  /** The share of `id` in a topic that has these subscribers. */
  ghost predicate InShare(partitions: u32, members: seq<str>, id: str, p: nat) {
    exists i {:trigger members[i]} :: 0 <= i < |members| && members[i] == id
      && Start(partitions, |members|, i) <= p < Start(partitions, |members|, i + 1)
  }

  lemma ShareHolds(topic: str, partitions: u32, n: nat, i: nat, o: Owned)
    requires i < n
    ensures o in ShareOf(topic, partitions, n, i)
            <==> o.topic == topic && Start(partitions, n, i) <= o.partition < Start(partitions, n, i + 1)
  {
    hide Start, Take;
    SharesChain(partitions, n, i);
    ShareFits(partitions, n, i);
    var share := ShareOf(topic, partitions, n, i);
    if o.topic == topic && Start(partitions, n, i) <= o.partition < Start(partitions, n, i + 1) {
      assert share[o.partition - Start(partitions, n, i)] == o;
    }
  }

  /** Sharing a topic out adds to each subscriber exactly its own share. */
  lemma {:induction false} SharedHolds(out: Assignment, topic: str, partitions: u32, members: seq<str>, k: nat, id: str)
    returns (i: nat)
    requires k <= |members| && NoRepeats(members) && (forall m :: m in members ==> m in out) && id in out
    ensures var r := Shared(out, topic, partitions, members, k);
            if id in members[..k]
            then i < k && members[i] == id && r[id] == out[id] + ShareOf(topic, partitions, |members|, i)
            else r[id] == out[id]
    decreases k
  {
    hide ShareOf;
    i := 0;
    if k > 0 {
      var j := SharedHolds(out, topic, partitions, members, k - 1, id);
      assert members[..k] == members[..k - 1] + [members[k - 1]];
      i := if members[k - 1] == id then k - 1 else j;
    }
  }

  /** What a member owns after one more topic. */
  lemma TopicHolds(out: Assignment, subs: Subscriptions, counts: Counts, topic: str, id: str, o: Owned)
    requires out.Keys == subs.Keys && id in subs
    ensures o in AfterTopic(out, subs, counts, topic)[id] <==>
            o in out[id]
            || (o.topic == topic && CountOf(counts, topic).Some?
                && InShare(CountOf(counts, topic).value, SortedNames(Subscribed(subs, topic)), id, o.partition))
  {
    hide ShareOf, SortedNames, Start;
    var members := SortedNames(Subscribed(subs, topic));
    if CountOf(counts, topic).Some? {
      var partitions := CountOf(counts, topic).value;
      var i := SharedHolds(out, topic, partitions, members, |members|, id);
      assert members[..|members|] == members;
      if id in members {
        ShareHolds(topic, partitions, |members|, i, o);
        assert forall j :: 0 <= j < |members| && members[j] == id ==> j == i;
      }
    }
  }

  /** What a member owns of each topic, independently of the order in which topics are shared out. */
  lemma {:induction false} TopicsHold(subs: Subscriptions, counts: Counts, topics: seq<str>, id: str, o: Owned)
    requires id in subs
    ensures o in AfterTopics(subs, counts, topics)[id] <==>
            o.topic in topics && CountOf(counts, o.topic).Some?
            && InShare(CountOf(counts, o.topic).value, SortedNames(Subscribed(subs, o.topic)), id, o.partition)
    decreases |topics|
  {
    hide InShare, AfterTopic, SortedNames, Subscribed;
    if topics != [] {
      var rest, last := topics[..|topics| - 1], topics[|topics| - 1];
      TopicsHold(subs, counts, rest, id, o);
      TopicHolds(AfterTopics(subs, counts, rest), subs, counts, last, id, o);
      assert topics == rest + [last];
    }
  }

  ghost predicate Owns(a: Assignment, id: str, topic: str, p: u32) {
    id in a && Owned(topic, p) in a[id]
  }

  /** A member owns exactly its share of a topic. */
  lemma OwnsShare(subs: Subscriptions, counts: Counts, id: str, topic: str, p: u32)
    ensures Owns(Assigned(subs, counts), id, topic, p) <==>
            CountOf(counts, topic).Some? && InShare(CountOf(counts, topic).value,
                SortedNames(Subscribed(subs, topic)), id, p)
  {
    hide AfterTopics, SortedNames, Start;
    var members := SortedNames(Subscribed(subs, topic));
    if CountOf(counts, topic).Some? && InShare(CountOf(counts, topic).value, members, id, p) {
      assert id in members;
      assert id in subs && topic in subs[id];
      assert topic in TopicsOf(subs);
    }
    hide InShare, TopicsOf, Subscribed;
    if id in subs {
      TopicsHold(subs, counts, SortedNames(TopicsOf(subs)), id, Owned(topic, p));
    }
  }

  lemma OneShareEach(partitions: u32, members: seq<str>, a: str, b: str, p: nat)
    requires InShare(partitions, members, a, p) && InShare(partitions, members, b, p)
    ensures a == b && p < partitions
  {
    hide Start;
    var n := |members|;
    var i :| 0 <= i < n && members[i] == a && Start(partitions, n, i) <= p < Start(partitions, n, i + 1);
    var j :| 0 <= j < n && members[j] == b && Start(partitions, n, j) <= p < Start(partitions, n, j + 1);
    if i < j {
      SharesGrow(partitions, n, i + 1, j);
    } else if j < i {
      SharesGrow(partitions, n, j + 1, i);
    }
    SharesGrow(partitions, n, i + 1, n);
    SharesEnd(partitions, n);
  }

  lemma SomeShare(partitions: u32, members: seq<str>, p: nat) returns (id: str)
    requires members != [] && p < partitions
    ensures InShare(partitions, members, id, p)
  {
    hide Start;
    SharesEnd(partitions, |members|);
    var i := TakerOf(partitions, |members|, p, |members|);
    id := members[i];
  }

  /** Every partition of every known topic that someone subscribes to has exactly one owner, and it is a
      subscriber; nobody owns anything else. */
  lemma ExactlyOneOwner(subs: Subscriptions, counts: Counts, topic: str, p: u32)
    ensures (exists id :: Owns(Assigned(subs, counts), id, topic, p))
            <==> topic in counts && p < counts[topic] && exists id :: id in subs && topic in subs[id]
    ensures forall a, b ::
        Owns(Assigned(subs, counts), a, topic, p) && Owns(Assigned(subs, counts), b, topic, p) ==> a == b
    ensures forall id :: Owns(Assigned(subs, counts), id, topic, p) ==> id in subs && topic in subs[id]
  {
    SomeSubscriber(subs, topic);
    hide Assigned, Owns, InShare, Subscribed;
    var members := SortedNames(Subscribed(subs, topic));
    hide SortedNames;
    forall id | Owns(Assigned(subs, counts), id, topic, p)
      ensures CountOf(counts, topic).Some? && id in Subscribed(subs, topic) && p < CountOf(counts, topic).value
    {
      OwnsShare(subs, counts, id, topic, p);
      ShareIsSubscriber(CountOf(counts, topic).value, members, id, p);
      OneShareEach(CountOf(counts, topic).value, members, id, id, p);
    }
    forall a, b | Owns(Assigned(subs, counts), a, topic, p)
        && Owns(Assigned(subs, counts), b, topic, p) ensures a == b {
      OwnsShare(subs, counts, a, topic, p);
      OwnsShare(subs, counts, b, topic, p);
      OneShareEach(CountOf(counts, topic).value, members, a, b, p);
    }
    if CountOf(counts, topic).Some? && p < CountOf(counts, topic).value && Subscribed(subs, topic) != {} {
      NotEmpty(members, Subscribed(subs, topic));
      var id := SomeShare(CountOf(counts, topic).value, members, p);
      OwnsShare(subs, counts, id, topic, p);
    }
  }

  lemma SomeSubscriber(subs: Subscriptions, topic: str)
    ensures Subscribed(subs, topic) != {} <==> exists id :: id in subs && topic in subs[id]
    ensures forall id :: id in Subscribed(subs, topic) <==> id in subs && topic in subs[id]
  {
    if id :| id in subs && topic in subs[id] {
      assert id in Subscribed(subs, topic);
    }
  }

  lemma NotEmpty(members: seq<str>, ids: set<str>)
    requires (forall id :: id in members <==> id in ids) && ids != {}
    ensures members != []
  {
    var id :| id in ids;
    assert id in members;
  }

  lemma ShareIsSubscriber(partitions: u32, members: seq<str>, id: str, p: nat)
    requires InShare(partitions, members, id, p)
    ensures id in members
  {
  }

  /** The subscribers of a topic take its partitions in ascending order of their ids, each a stretch of `per` or
      `per + 1`, the longer ones first. */
  lemma SharesAreEven(subs: Subscriptions, counts: Counts, topic: str, i: nat)
    requires topic in counts && i < |SortedNames(Subscribed(subs, topic))|
    ensures var members := SortedNames(Subscribed(subs, topic));
            var per, extra := counts[topic] / |members|, counts[topic] % |members|;
            var first := i * per + if i < extra then i else extra;
            && (forall id :: id in members <==> id in subs && topic in subs[id])
            && (forall j, k :: 0 <= j < k < |members| ==> NameLeq(members[j], members[k]))
            && forall p: u32 :: Owns(Assigned(subs, counts), members[i], topic, p)
                   <==> first <= p < first + per + if i < extra then 1 else 0
  {
    hide Assigned, Owns, SortedNames, Subscribed, Start, NameLeq;
    var members := SortedNames(Subscribed(subs, topic));
    var partitions := counts[topic];
    SomeSubscriber(subs, topic);
    StartIs(partitions, |members|, i);
    var per, extra := partitions / |members|, partitions % |members|;
    var first := i * per + if i < extra then i else extra;
    forall p: u32 ensures Owns(Assigned(subs, counts), members[i], topic, p)
        <==> first <= p < first + per + if i < extra then 1 else 0 {
      OwnsShare(subs, counts, members[i], topic, p);
      assert forall j :: 0 <= j < |members| && members[j] == members[i] ==> j == i;
    }
  }

  // ---------------------------------------------------------------- computing it

  /** `assign`: each topic's partitions in order, in chunks, across its subscribers in order of id. */
  method Assign(subs: Subscriptions, counts: Counts) returns (out: Assignment)
    ensures out == Assigned(subs, counts)
  {
    hide AfterTopic, SortedNames, TopicsOf;
    out := map id | id in subs :: [];
    var topics := SortedNames(TopicsOf(subs));
    assert topics[..0] == [];
    for k := 0 to |topics|
      invariant out == AfterTopics(subs, counts, topics[..k])
    {
      assert topics[..k + 1][..k] == topics[..k];
      out := AssignTopic(out, subs, counts, topics[k]);
    }
    assert topics[..|topics|] == topics;
  }

  method AssignTopic(out: Assignment, subs: Subscriptions, counts: Counts, topic: str) returns (r: Assignment)
    requires out.Keys == subs.Keys
    ensures r == AfterTopic(out, subs, counts, topic)
  {
    hide SortedNames, CountOf, Shared;
    r := out;
    var partitions := CountOf(counts, topic);
    if partitions.None? {
      return;
    }
    var members := SortedNames(Subscribed(subs, topic));
    if members == [] {
      assert Shared(out, topic, partitions.value, members, 0) == out by {
        SharedNone(out, topic, partitions.value, members);
      }
      return;
    }
    r := ShareOut(out, topic, partitions.value, members);
  }

  lemma SharedNone(out: Assignment, topic: str, partitions: u32, members: seq<str>)
    requires forall id :: id in members ==> id in out
    ensures Shared(out, topic, partitions, members, 0) == out
  {
  }

  lemma SharedMore(out: Assignment, topic: str, partitions: u32, members: seq<str>, i: nat)
    requires i < |members| && forall id :: id in members ==> id in out
    ensures members[i] in out
    ensures var prev := Shared(out, topic, partitions, members, i);
            Shared(out, topic, partitions, members, i + 1)
            == prev[members[i] := prev[members[i]] + ShareOf(topic, partitions, |members|, i)]
  {
    hide ShareOf;
    assert members[i] in members;
  }

  method ShareOut(out: Assignment, topic: str, partitions: u32, members: seq<str>) returns (r: Assignment)
    requires members != [] && forall id :: id in members ==> id in out
    ensures r == Shared(out, topic, partitions, members, |members|)
  {
    hide Start, Take, ShareOf, Shared, Chunk;
    SharedNone(out, topic, partitions, members);
    r := out;
    var n := |members|;
    var per, extra := partitions / n, partitions % n;
    var next := 0;
    SharesChain(partitions, n, 0);
    for i := 0 to n
      invariant next == Start(partitions, n, i)
      invariant r == Shared(out, topic, partitions, members, i)
    {
      var take := per + if i < extra then 1 else 0;
      TakeIs(partitions, n, i, take);
      SharesChain(partitions, n, i);
      ShareFits(partitions, n, i);
      assert members[i] in members;
      var slots := Give(r[members[i]], topic, next, take);
      ShareIs(topic, partitions, n, i);
      SharedMore(out, topic, partitions, members, i);
      r := r[members[i] := slots];
      next := next + take;
    }
  }

  method Give(slots: seq<Owned>, topic: str, first: nat, take: nat) returns (r: seq<Owned>)
    requires first + take <= U32_RANGE
    ensures r == slots + Chunk(topic, first, take)
  {
    r := slots;
    for p := first to first + take
      invariant r == slots + Chunk(topic, first, p - first)
    {
      assert Chunk(topic, first, p - first + 1) == Chunk(topic, first, p - first) + [Owned(topic, p)];
      r := r + [Owned(topic, p)];
    }
  }

  lemma TakeIs(partitions: nat, n: nat, i: nat, take: nat)
    requires n > 0 && take == partitions / n + if i < partitions % n then 1 else 0
    ensures take == Take(partitions, n, i)
  {
  }

  lemma ShareIs(topic: str, partitions: u32, n: nat, i: nat)
    requires i < n
    ensures Start(partitions, n, i) + Take(partitions, n, i) <= partitions
    ensures ShareOf(topic, partitions, n, i) == Chunk(topic, Start(partitions, n, i), Take(partitions, n, i))
  {
    ShareFits(partitions, n, i);
  }
}
