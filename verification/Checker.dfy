/** The offline checker: a decision procedure over what clients saw (src/checker/mod.rs). Violations are reported by the
    index of the delivery, or by the first hole of a partition, instead of by a sentence. */
module Checker {
  import opened Bytes
  import opened Messages
  import opened PartitionLog

  datatype Produced = Produced(id: u64, topic: str)

  datatype Consumed = Consumed(consumer: str, generation: u64, topic: str, partition: u32, offset: u64, id: u64)

  datatype Stream = Stream(consumer: str, generation: u64, topic: str, partition: u32)
  datatype Place = Place(topic: str, partition: u32, offset: u64)
  datatype Part = Part(topic: str, partition: u32)

  datatype Gap = Gap(part: Part, firstHole: u64)

  datatype Report = Report(
    producedAcked: nat,
    consumedTotal: nat,
    distinctConsumed: nat,
    missingIds: seq<u64>,
    duplicateDeliveries: nat,
    monotonicityViolations: seq<nat>,
    divergentOffsets: seq<nat>,
    offsetGaps: seq<Gap>)
  {
    predicate IsOk() {
      missingIds == [] && monotonicityViolations == [] && divergentOffsets == [] && offsetGaps == []
    }
  }

  function StreamOf(c: Consumed): Stream { Stream(c.consumer, c.generation, c.topic, c.partition) }
  function PlaceOf(c: Consumed): Place { Place(c.topic, c.partition, c.offset) }
  function PartOf(c: Consumed): Part { Part(c.topic, c.partition) }

  // ---------------------------------------------------------------- the contract

  /** At-least-once: every acked id was delivered. */
  ghost predicate Delivered(ps: seq<Produced>, cs: seq<Consumed>) {
    forall i {:trigger ps[i]} :: 0 <= i < |ps| ==> ps[i].id in Ids(cs)
  }

  function Ids(cs: seq<Consumed>): set<u64> {
    set i | 0 <= i < |cs| :: cs[i].id
  }

  /** Within each stream the offsets strictly increase. */
  ghost predicate Ascends(cs: seq<Consumed>) {
    forall i, j {:trigger cs[i], cs[j]} ::
      0 <= i < j < |cs| && StreamOf(cs[i]) == StreamOf(cs[j]) ==> cs[i].offset < cs[j].offset
  }

  /** One log, one truth: each place holds one id. */
  ghost predicate OneId(cs: seq<Consumed>) {
    forall i, j {:trigger cs[i], cs[j]} ::
      0 <= i < |cs| && 0 <= j < |cs| && PlaceOf(cs[i]) == PlaceOf(cs[j]) ==> cs[i].id == cs[j].id
  }

  function Offsets(cs: seq<Consumed>, p: Part): set<u64> {
    set i | 0 <= i < |cs| && PartOf(cs[i]) == p :: cs[i].offset
  }

  /** Each partition's delivered offsets are exactly those from 0 to the greatest. */
  ghost predicate Contiguous(cs: seq<Consumed>) {
    forall i, o: u64 {:trigger cs[i], o in Offsets(cs, PartOf(cs[i]))} ::
      0 <= i < |cs| && o <= cs[i].offset ==> o in Offsets(cs, PartOf(cs[i]))
  }

  // ---------------------------------------------------------------- counting deliveries

  /** Deliveries beyond the first, over all ids. */
  function Excess(counts: map<u64, nat>): nat
    requires forall id {:trigger counts[id]} :: id in counts ==> counts[id] > 0
    decreases |counts|
  {
    if counts == map[] then 0
    else
      var id := Least(counts.Keys);
      assert |counts - {id}| < |counts| by { Smaller(counts, id); }
      counts[id] - 1 + Excess(counts - {id})
  }

  lemma Smaller(counts: map<u64, nat>, id: u64)
    requires id in counts
    ensures |counts - {id}| < |counts|
  {
    assert counts.Keys == (counts - {id}).Keys + {id};
  }

  /** The sum does not depend on the order in which ids are taken. */
  lemma {:induction false} ExcessAt(counts: map<u64, nat>, id: u64)
    requires (forall x {:trigger counts[x]} :: x in counts ==> counts[x] > 0) && id in counts
    ensures forall x {:trigger (counts - {id})[x]} :: x in counts - {id} ==> (counts - {id})[x] > 0
    ensures Excess(counts) == counts[id] - 1 + Excess(counts - {id})
    decreases |counts|
  {
    var first := Least(counts.Keys);
    Smaller(counts, first);
    if first != id {
      ExcessAt(counts - {first}, id);
      Smaller(counts, id);
      ExcessAt(counts - {id}, first);
      assert counts - {first} - {id} == counts - {id} - {first};
    }
  }

  lemma ExcessMore(counts: map<u64, nat>, id: u64)
    requires forall x {:trigger counts[x]} :: x in counts ==> counts[x] > 0
    ensures var after := counts[id := if id in counts then counts[id] + 1 else 1];
            && (forall x {:trigger after[x]} :: x in after ==> after[x] > 0)
            && Excess(after) == Excess(counts) + if id in counts then 1 else 0
  {
    var after := counts[id := if id in counts then counts[id] + 1 else 1];
    hide Excess;
    ExcessAt(after, id);
    if id in counts {
      ExcessAt(counts, id);
      assert after - {id} == counts - {id};
    } else {
      assert after - {id} == counts;
    }
  }

  lemma IdsGrow(cs: seq<Consumed>, n: nat)
    requires n < |cs|
    ensures Ids(cs[..n + 1]) == Ids(cs[..n]) + {cs[n].id}
  {
    assert cs[..n + 1] == cs[..n] + [cs[n]];
    var a, b := Ids(cs[..n + 1]), Ids(cs[..n]) + {cs[n].id};
    forall x | x in b ensures x in a {
      if x in Ids(cs[..n]) {
        var i :| 0 <= i < n && cs[..n][i].id == x;
        assert cs[..n + 1][i].id == x;
      } else {
        assert cs[..n + 1][n].id == x;
      }
    }
    forall x | x in a ensures x in b {
      var i :| 0 <= i < n + 1 && cs[..n + 1][i].id == x;
      assert i < n ==> cs[..n][i].id == x;
    }
  }

  /** The counts of the first `n` deliveries. */
  ghost predicate Counted(counts: map<u64, nat>, cs: seq<Consumed>, n: nat) {
    && n <= |cs|
    && (forall id {:trigger counts[id]} :: id in counts ==> counts[id] > 0)
    && counts.Keys == Ids(cs[..n]) && Excess(counts) + |Ids(cs[..n])| == n
  }

  lemma CountedNone(cs: seq<Consumed>)
    ensures Counted(map[], cs, 0)
  {
    assert Ids(cs[..0]) == {};
  }

  lemma CountedMore(counts: map<u64, nat>, cs: seq<Consumed>, n: nat)
    requires n < |cs| && Counted(counts, cs, n)
    ensures var id := cs[n].id; Counted(counts[id := if id in counts then counts[id] + 1 else 1], cs, n + 1)
  {
    hide Excess, Ids;
    ExcessMore(counts, cs[n].id);
    IdsGrow(cs, n);
  }

  lemma CountedAll(counts: map<u64, nat>, cs: seq<Consumed>)
    requires Counted(counts, cs, |cs|)
    ensures forall id {:trigger counts[id]} :: id in counts ==> counts[id] > 0
    ensures counts.Keys == Ids(cs) && Excess(counts) + |Ids(cs)| == |cs|
  {
    hide Excess, Ids;
    assert cs[..|cs|] == cs;
  }

  lemma OffsetsGrow(cs: seq<Consumed>, n: nat, p: Part)
    requires n < |cs|
    ensures Offsets(cs[..n + 1], p) == Offsets(cs[..n], p) + if PartOf(cs[n]) == p then {cs[n].offset} else {}
  {
    assert cs[..n + 1] == cs[..n] + [cs[n]];
    var a, b := Offsets(cs[..n + 1], p), Offsets(cs[..n], p) + if PartOf(cs[n]) == p then {cs[n].offset} else {};
    forall x | x in b ensures x in a {
      if x in Offsets(cs[..n], p) {
        var i :| 0 <= i < n && PartOf(cs[..n][i]) == p && cs[..n][i].offset == x;
        assert cs[..n + 1][i].offset == x;
      } else {
        assert cs[..n + 1][n].offset == x;
      }
    }
    forall x | x in a ensures x in b {
      var i :| 0 <= i < n + 1 && PartOf(cs[..n + 1][i]) == p && cs[..n + 1][i].offset == x;
      assert i < n ==> cs[..n][i].offset == x;
    }
  }

  // ---------------------------------------------------------------- the pigeonhole

  function UpTo(max: nat): (s: set<nat>)
    ensures forall o: nat :: o in s <==> o <= max
  {
    if max == 0 then {0} else UpTo(max - 1) + {max}
  }

  lemma {:induction false} UpToSize(max: nat)
    ensures |UpTo(max)| == max + 1
  {
    if max > 0 {
      UpToSize(max - 1);
      assert UpTo(max) == UpTo(max - 1) + {max} && max !in UpTo(max - 1);
    }
  }

  /** As many different offsets as fit below the greatest means all of them. */
  lemma Pigeonhole(offsets: set<nat>, max: nat)
    requires forall o :: o in offsets ==> o <= max
    ensures |offsets| == max + 1 <==> forall o: nat :: o <= max ==> o in offsets
  {
    UpToSize(max);
    var all := UpTo(max);
    assert offsets <= all;
    Subset(offsets, all);
    if |offsets| == max + 1 {
      assert offsets == all;
    }
    if forall o: nat :: o <= max ==> o in offsets {
      assert all <= offsets;
      assert offsets == all;
    }
  }

  lemma {:induction false} Subset(a: set<nat>, b: set<nat>)
    requires a <= b
    ensures |a| <= |b| && (|a| == |b| ==> a == b)
    decreases |b|
  {
    if b != {} {
      var x :| x in b;
      Subset(a - {x}, b - {x});
      if x in a {
        assert a == (a - {x}) + {x} && b == (b - {x}) + {x};
      } else {
        assert a - {x} == a;
      }
    }
  }

  function Greatest(s: set<u64>): (m: u64)
    requires s != {}
    ensures m in s && forall x :: x in s ==> x <= m
  {
    var m := GreatestBelow(s, U64_RANGE);
    m
  }

  // ---------------------------------------------------------------- the checker

  /** The first offset up to `max` that is missing. */
  method FirstHole(offsets: set<u64>, max: u64) returns (hole: u64)
    requires exists o: nat :: o <= max && o !in offsets
    ensures hole <= max && hole !in offsets && forall o: u64 :: o < hole ==> o in offsets
  {
    var o := 0;
    while o in offsets
      invariant o <= max && forall x: u64 :: x < o ==> x in offsets
      decreases max - o
    {
      o := o + 1;
    }
    hole := o;
  }

  predicate Increasing(s: seq<nat>) {
    forall i, j {:trigger s[i], s[j]} :: 0 <= i < j < |s| ==> s[i] < s[j]
  }

  lemma Pushed(s: seq<nat>, n: nat)
    requires Increasing(s) && forall m :: m in s ==> m < n
    ensures Increasing(s + [n]) && forall m: nat :: m in s + [n] <==> m in s || m == n
  {
    forall i, j | 0 <= i < j < |s + [n]| ensures (s + [n])[i] < (s + [n])[j] {
      assert s[i] in s;
    }
  }

  function SortedIds(ids: set<u64>): (r: seq<u64>)
    ensures forall id :: id in r <==> id in ids
    ensures r == [] <==> ids == {}
    ensures Increasing(r)
  {
    if ids == {} then []
    else
      var m := Least(ids);
      [m] + SortedIds(ids - {m})
  }

  class History {
    var produced: seq<Produced>
    var consumed: seq<Consumed>

    constructor ()
      ensures produced == [] && consumed == []
    {
      produced, consumed := [], [];
    }

    method RecordProduced(id: u64, topic: str)
      modifies `produced
      ensures produced == old(produced) + [Produced(id, topic)]
    {
      produced := produced + [Produced(id, topic)];
    }

    method RecordConsumed(consumer: str, generation: u64, topic: str, partition: u32, offset: u64, id: u64)
      modifies `consumed
      ensures consumed == old(consumed) + [Consumed(consumer, generation, topic, partition, offset, id)]
    {
      consumed := consumed + [Consumed(consumer, generation, topic, partition, offset, id)];
    }

    /** How often each id was delivered. */
    method CountIds() returns (counts: map<u64, nat>)
      ensures forall id {:trigger counts[id]} :: id in counts ==> counts[id] > 0
      ensures counts.Keys == Ids(consumed) && Excess(counts) + |Ids(consumed)| == |consumed|
    {
      hide Counted;
      counts := map[];
      CountedNone(consumed);
      for n := 0 to |consumed|
        invariant Counted(counts, consumed, n)
      {
        var id := consumed[n].id;
        CountedMore(counts, consumed, n);
        counts := counts[id := if id in counts then counts[id] + 1 else 1];
      }
      CountedAll(counts, consumed);
    }

    method SumExcess(counts: map<u64, nat>) returns (sum: nat)
      requires forall id {:trigger counts[id]} :: id in counts ==> counts[id] > 0
      ensures sum == Excess(counts)
    {
      hide Excess;
      var left := counts;
      sum := 0;
      while left != map[]
        invariant forall id {:trigger left[id]} :: id in left ==> left[id] > 0
        invariant sum + Excess(left) == Excess(counts)
        decreases |left|
      {
        var id :| id in left;
        ExcessAt(left, id);
        Smaller(left, id);
        sum := sum + (left[id] - 1);
        left := left - {id};
      }
      assert Excess(map[]) == 0 by { NothingYet([]); }
    }

    method Missing(counts: map<u64, nat>) returns (missing: seq<u64>)
      requires counts.Keys == Ids(consumed)
      ensures forall id :: id in missing <==> id !in Ids(consumed) && exists i ::
          0 <= i < |produced| && produced[i].id == id
      ensures missing == [] <==> Delivered(produced, consumed)
      ensures Increasing(missing)
    {
      hide Ids, SortedIds;
      var ids: set<u64> := {};
      for n := 0 to |produced|
        invariant forall id :: id in ids <==> id !in Ids(consumed) && exists i :: 0 <= i < n && produced[i].id == id
      {
        if produced[n].id !in counts {
          ids := ids + {produced[n].id};
        }
      }
      missing := SortedIds(ids);
      if ids == {} {
        forall i | 0 <= i < |produced| ensures produced[i].id in Ids(consumed) {
          assert produced[i].id !in ids;
        }
      } else {
        var id :| id in ids;
      }
    }

    /** Exactly the deliveries whose offset does not pass the previous one of their stream, each once. */
    method Rewinds() returns (bad: seq<nat>)
      ensures bad == [] <==> Ascends(consumed)
      ensures Increasing(bad) && forall n: nat :: n in bad <==> n < |consumed| && StepsBack(consumed, n)
    {
      hide StreamOf, Ascends, Tracks, StepsBack, Increasing;
      bad := [];
      var last: map<Stream, u64> := map[];
      ghost var at: map<Stream, nat> := map[];
      NothingYet(consumed);
      for n := 0 to |consumed|
        invariant Tracks(consumed, n, last, at)
        invariant bad == [] <==> Ascends(consumed[..n])
        invariant Increasing(bad) && forall m: nat :: m in bad <==> m < n && StepsBack(consumed, m)
      {
        var c := consumed[n];
        var s := StreamOf(c);
        TracksNext(consumed, n, last, at);
        Pushed(bad, n);
        if s in last && c.offset <= last[s] {
          bad := bad + [n];
        }
        last, at := last[s := c.offset], at[s := n];
      }
      assert consumed[..|consumed|] == consumed;
    }

    /** Exactly the deliveries whose id is not the one first seen at their place, each once. */
    method Divergent() returns (bad: seq<nat>)
      ensures bad == [] <==> OneId(consumed)
      ensures Increasing(bad) && forall n: nat :: n in bad <==> n < |consumed| && Differs(consumed, n)
    {
      hide PlaceOf, OneId, FirstSeen, Differs, Increasing;
      bad := [];
      var ids: map<Place, u64> := map[];
      NothingYet(consumed);
      for n := 0 to |consumed|
        invariant FirstSeen(consumed, n, ids)
        invariant bad == [] <==> OneId(consumed[..n])
        invariant Increasing(bad) && forall m: nat :: m in bad <==> m < n && Differs(consumed, m)
      {
        var c := consumed[n];
        OneMoreId(consumed, n, ids);
        NotedDecides(consumed, n, ids);
        FirstSeenNext(consumed, n, ids);
        Pushed(bad, n);
        if PlaceOf(c) in ids && ids[PlaceOf(c)] != c.id {
          bad := bad + [n];
        } else {
          ids := ids[PlaceOf(c) := c.id];
        }
      }
      assert consumed[..|consumed|] == consumed;
    }

    method Verify() returns (r: Report)
      ensures r.IsOk() <==> Delivered(produced, consumed) && Ascends(consumed) && OneId(consumed)
      ensures forall id :: id in r.missingIds <==> id !in Ids(consumed) && exists i ::
          0 <= i < |produced| && produced[i].id == id
      ensures Increasing(r.missingIds)
      ensures forall n: nat :: n in r.monotonicityViolations <==> n < |consumed| && StepsBack(consumed, n)
      ensures forall n: nat :: n in r.divergentOffsets <==> n < |consumed| && Differs(consumed, n)
      ensures r.producedAcked == |produced| && r.consumedTotal == |consumed| && r.distinctConsumed == |Ids(consumed)|
      ensures r.duplicateDeliveries == |consumed| - |Ids(consumed)| && r.offsetGaps == []
    {
      hide Ids, Excess, Delivered, Ascends, OneId, StepsBack, Differs, Increasing;
      var counts := CountIds();
      var missing := Missing(counts);
      var duplicates := SumExcess(counts);
      var rewinds := Rewinds();
      var divergent := Divergent();
      assert |counts| == |counts.Keys|;
      r := Report(|produced|, |consumed|, |counts|, missing, duplicates, rewinds, divergent, []);
    }

    /** The delivered offsets of each partition. */
    method SeenOffsets() returns (seen: map<Part, set<u64>>)
      ensures forall p {:trigger seen[p]} :: p in seen ==> seen[p] == Offsets(consumed, p) && seen[p] != {}
      ensures forall i {:trigger consumed[i]} :: 0 <= i < |consumed| ==> PartOf(consumed[i]) in seen
    {
      hide Offsets, PartOf;
      seen := map[];
      NothingYet(consumed);
      for n := 0 to |consumed|
        invariant forall p {:trigger seen[p]} :: p in seen ==> seen[p] == Offsets(consumed[..n], p) && seen[p] != {}
        invariant forall p :: p !in seen ==> Offsets(consumed[..n], p) == {}
        invariant forall i {:trigger consumed[i]} :: 0 <= i < n ==> PartOf(consumed[i]) in seen
      {
        var p := PartOf(consumed[n]);
        forall q ensures Offsets(consumed[..n + 1], q) == Offsets(consumed[..n], q) + if p == q
            then {consumed[n].offset} else {} {
          OffsetsGrow(consumed, n, q);
        }
        seen := seen[p := (if p in seen then seen[p] else {}) + {consumed[n].offset}];
      }
      assert consumed[..|consumed|] == consumed;
    }

    /** `verify`, and that every partition was read without a hole from offset 0 on. */
    method VerifyFromStart() returns (r: Report)
      ensures r.IsOk() <==>
                Delivered(produced, consumed) && Ascends(consumed) && OneId(consumed) && Contiguous(consumed)
      ensures r.offsetGaps == [] <==> Contiguous(consumed)
      ensures forall p :: (exists g :: g in r.offsetGaps && g.part == p)
                          <==> Offsets(consumed, p) != {} && !Whole(Offsets(consumed, p))
      ensures forall g :: g in r.offsetGaps ==> IsFirstHole(Offsets(consumed, g.part), g.firstHole)
      ensures r.duplicateDeliveries == |consumed| - |Ids(consumed)|
    {
      hide Ids, Delivered, Ascends, OneId, Contiguous, Offsets, Whole, IsFirstHole, StepsBack, Differs, Increasing;
      r := Verify();
      var seen := SeenOffsets();
      var gaps := Gaps(seen);
      GapsDecide(consumed, seen);
      SeenIsAll(consumed, seen);
      r := r.(offsetGaps := gaps);
    }

    method Gaps(seen: map<Part, set<u64>>) returns (gaps: seq<Gap>)
      requires forall p {:trigger seen[p]} :: p in seen ==> seen[p] != {}
      ensures gaps == [] <==> forall p {:trigger seen[p]} :: p in seen ==> Whole(seen[p])
      ensures forall p :: (exists g :: g in gaps && g.part == p) <==> p in seen && !Whole(seen[p])
      ensures forall g :: g in gaps ==> g.part in seen && IsFirstHole(seen[g.part], g.firstHole)
    {
      hide Whole, IsFirstHole;
      gaps := [];
      var left := seen.Keys;
      while left != {}
        invariant left <= seen.Keys
        invariant gaps == [] <==> forall p {:trigger seen[p]} :: p in seen && p !in left ==> Whole(seen[p])
        invariant forall p :: (exists g :: g in gaps && g.part == p) <==> p in seen && p !in left && !Whole(seen[p])
        invariant forall g :: g in gaps ==> g.part in seen && IsFirstHole(seen[g.part], g.firstHole)
        decreases |left|
      {
        var p :| p in left;
        var max: int := Greatest(seen[p]);
        WholeByCount(seen[p]);
        if |seen[p]| != max + 1 {
          var hole := FirstHole(seen[p], max);
          assert IsFirstHole(seen[p], hole) by { HoleIsFirst(seen[p], hole); }
          ghost var g := Gap(p, hole);
          assert g in gaps + [g] && g.part == p;
          gaps := gaps + [Gap(p, hole)];
        }
        left := left - {p};
      }
    }
  }

  /** No offset is missing up to the greatest. */
  ghost predicate Whole(offsets: set<u64>)
    requires offsets != {}
  {
    forall o: u64 :: o <= Greatest(offsets) ==> o in offsets
  }

  /** The least offset that was not delivered, although a later one was. */
  ghost predicate IsFirstHole(offsets: set<u64>, hole: u64) {
    && hole !in offsets && (forall o: u64 :: o < hole ==> o in offsets)
    && exists o :: o in offsets && o > hole
  }

  lemma HoleIsFirst(offsets: set<u64>, hole: u64)
    requires offsets != {} && hole !in offsets && hole <= Greatest(offsets)
    requires forall o: u64 :: o < hole ==> o in offsets
    ensures IsFirstHole(offsets, hole)
  {
    assert Greatest(offsets) in offsets;
  }

  lemma WholeByCount(offsets: set<u64>)
    requires offsets != {}
    ensures Whole(offsets) <==> |offsets| == Greatest(offsets) + 1
    ensures |offsets| != Greatest(offsets) + 1 ==> exists o: nat :: o <= Greatest(offsets) && o !in offsets
  {
    var nats: set<nat> := offsets;
    Pigeonhole(nats, Greatest(offsets));
    if Whole(offsets) {
      forall o: nat | o <= Greatest(offsets) ensures o in offsets {
        var x: u64 := o;
        assert x in offsets;
      }
    }
  }

  lemma GapsDecide(cs: seq<Consumed>, seen: map<Part, set<u64>>)
    requires forall p {:trigger seen[p]} :: p in seen ==> seen[p] == Offsets(cs, p) && seen[p] != {}
    requires forall i {:trigger cs[i]} :: 0 <= i < |cs| ==> PartOf(cs[i]) in seen
    ensures (forall p {:trigger seen[p]} :: p in seen ==> Whole(seen[p])) <==> Contiguous(cs)
  {
    if forall p {:trigger seen[p]} :: p in seen ==> Whole(seen[p]) {
      forall i, o: u64 | 0 <= i < |cs| && o <= cs[i].offset ensures o in Offsets(cs, PartOf(cs[i])) {
        var p := PartOf(cs[i]);
        assert Whole(seen[p]) && cs[i].offset in Offsets(cs, p);
      }
    }
    if Contiguous(cs) {
      forall p | p in seen ensures Whole(seen[p]) {
        var m := Greatest(seen[p]);
        var i :| 0 <= i < |cs| && PartOf(cs[i]) == p && cs[i].offset == m;
        forall o: u64 | o <= m ensures o in seen[p] {
          assert o in Offsets(cs, PartOf(cs[i]));
        }
      }
    }
  }

  lemma SeenIsAll(cs: seq<Consumed>, seen: map<Part, set<u64>>)
    requires forall p {:trigger seen[p]} :: p in seen ==> seen[p] == Offsets(cs, p) && seen[p] != {}
    requires forall i {:trigger cs[i]} :: 0 <= i < |cs| ==> PartOf(cs[i]) in seen
    ensures forall p {:trigger Offsets(cs, p)} :: p in seen <==> Offsets(cs, p) != {}
  {
  }

  lemma NothingYet(cs: seq<Consumed>)
    ensures cs[..0] == [] && Ids([]) == {} && Ascends([]) && OneId([])
    ensures forall p :: Offsets([], p) == {}
    ensures Excess(map[]) == 0
    ensures Tracks(cs, 0, map[], map[]) && FirstSeen(cs, 0, map[]) && Increasing([])
  {
  }

  // ---------------------------------------------------------------- streams and places

  /** `at` gives the last delivery of each stream among the first `n`. */
  ghost predicate LastSeen(cs: seq<Consumed>, n: nat, at: map<Stream, nat>) {
    && n <= |cs|
    && (forall s {:trigger at[s]} :: s in at ==> at[s] < n && StreamOf(cs[at[s]]) == s)
    && (forall i {:trigger cs[i]} :: 0 <= i < n ==> StreamOf(cs[i]) in at && i <= at[StreamOf(cs[i])])
  }

  /** The delivery before the `n`th in its stream had no smaller offset. */
  ghost predicate StepsBack(cs: seq<Consumed>, n: nat)
    requires n < |cs|
  {
    exists i {:trigger cs[i]} ::
      0 <= i < n && StreamOf(cs[i]) == StreamOf(cs[n]) && cs[n].offset <= cs[i].offset
      && forall k {:trigger cs[k]} :: i < k < n ==> StreamOf(cs[k]) != StreamOf(cs[n])
  }

  lemma LastDecides(cs: seq<Consumed>, n: nat, at: map<Stream, nat>)
    requires n < |cs| && LastSeen(cs, n, at)
    ensures StepsBack(cs, n) <==> StreamOf(cs[n]) in at && cs[n].offset <= cs[at[StreamOf(cs[n])]].offset
  {
    hide StreamOf;
    var s := StreamOf(cs[n]);
    if s in at {
      var i := at[s];
      assert StreamOf(cs[i]) == s && forall k {:trigger cs[k]} :: i < k < n ==> StreamOf(cs[k]) != s;
    }
  }

  lemma LastSeenNext(cs: seq<Consumed>, n: nat, at: map<Stream, nat>)
    requires n < |cs| && LastSeen(cs, n, at)
    ensures LastSeen(cs, n + 1, at[StreamOf(cs[n]) := n])
  {
    hide StreamOf;
  }

  /** One more delivery keeps the streams ascending exactly when it passes the last of its stream. */
  lemma OneMoreAscends(cs: seq<Consumed>, n: nat, at: map<Stream, nat>)
    requires n < |cs| && LastSeen(cs, n, at)
    ensures Ascends(cs[..n + 1]) <==>
            Ascends(cs[..n])
            && (StreamOf(cs[n]) in at ==> cs[at[StreamOf(cs[n])]].offset < cs[n].offset)
  {
    hide StreamOf;
    var s := StreamOf(cs[n]);
    if Ascends(cs[..n + 1]) {
      assert Ascends(cs[..n]) by {
        forall i, j | 0 <= i < j < n && StreamOf(cs[..n][i]) == StreamOf(cs[..n][j])
          ensures cs[..n][i].offset < cs[..n][j].offset
        {
          assert cs[..n + 1][i].offset < cs[..n + 1][j].offset;
        }
      }
      if s in at {
        assert cs[..n + 1][at[s]].offset < cs[..n + 1][n].offset;
      }
    }
    if Ascends(cs[..n]) && (s in at ==> cs[at[s]].offset < cs[n].offset) {
      var longer := cs[..n + 1];
      forall i, j | 0 <= i < j < |longer| && StreamOf(longer[i]) == StreamOf(longer[j])
        ensures longer[i].offset < longer[j].offset
      {
        if j < n {
          assert cs[..n][i].offset < cs[..n][j].offset;
        } else {
          assert StreamOf(cs[i]) in at;
          assert i == at[s] || cs[..n][i].offset < cs[..n][at[s]].offset;
        }
      }
    }
  }

  /** `last` gives the offset of the last delivery of each stream among the first `n`. */
  ghost predicate Tracks(cs: seq<Consumed>, n: nat, last: map<Stream, u64>, at: map<Stream, nat>) {
    && LastSeen(cs, n, at) && last.Keys == at.Keys
    && forall s {:trigger at[s]} :: s in at ==> last[s] == cs[at[s]].offset
  }

  lemma TracksNext(cs: seq<Consumed>, n: nat, last: map<Stream, u64>, at: map<Stream, nat>)
    requires n < |cs| && Tracks(cs, n, last, at)
    ensures var s := StreamOf(cs[n]);
            && (StepsBack(cs, n) <==> s in last && cs[n].offset <= last[s])
            && (Ascends(cs[..n + 1]) <==> Ascends(cs[..n]) && !StepsBack(cs, n))
            && Tracks(cs, n + 1, last[s := cs[n].offset], at[s := n])
  {
    hide StreamOf, Ascends, StepsBack;
    OneMoreAscends(cs, n, at);
    LastDecides(cs, n, at);
    LastSeenNext(cs, n, at);
  }

  /** The first delivery at a place, among the first `n`. */
  ghost predicate IsFirstAt(cs: seq<Consumed>, n: nat, p: Place, i: nat) {
    i < n <= |cs| && PlaceOf(cs[i]) == p && forall k {:trigger cs[k]} :: 0 <= k < i ==> PlaceOf(cs[k]) != p
  }

  ghost predicate FirstIdIs(cs: seq<Consumed>, n: nat, p: Place, id: u64) {
    n <= |cs| && exists i: nat :: i < n && IsFirstAt(cs, n, p, i) && cs[i].id == id
  }

  /** The `n`th delivery does not have the id that was first delivered at its place. */
  ghost predicate Differs(cs: seq<Consumed>, n: nat)
    requires n < |cs|
  {
    exists i: nat :: i < n && IsFirstAt(cs, n, PlaceOf(cs[n]), i) && cs[i].id != cs[n].id
  }

  /** `ids` gives the id first delivered at each place among the first `n` deliveries. */
  ghost predicate FirstSeen(cs: seq<Consumed>, n: nat, ids: map<Place, u64>) {
    && n <= |cs|
    && (forall p {:trigger ids[p]} :: p in ids ==> FirstIdIs(cs, n, p, ids[p]))
    && (forall i {:trigger cs[i]} :: 0 <= i < n ==> PlaceOf(cs[i]) in ids)
  }

  /** The first delivery at a place stays the first, and a place has only one. */
  lemma FirstStays(cs: seq<Consumed>, n: nat, p: Place, i: nat, j: nat)
    requires n < |cs| && IsFirstAt(cs, n, p, i)
    ensures IsFirstAt(cs, n + 1, p, i)
    ensures IsFirstAt(cs, n, p, j) ==> i == j
  {
    hide PlaceOf;
  }

  lemma SeenAt(cs: seq<Consumed>, n: nat, ids: map<Place, u64>, p: Place) returns (i: nat)
    requires FirstSeen(cs, n, ids) && p in ids
    ensures i < n <= |cs| && IsFirstAt(cs, n, p, i) && PlaceOf(cs[i]) == p && cs[i].id == ids[p]
  {
    i :| i < n && IsFirstAt(cs, n, p, i) && cs[i].id == ids[p];
  }

  /** The id noted for a place decides whether a delivery there differs. */
  lemma NotedDecides(cs: seq<Consumed>, n: nat, ids: map<Place, u64>)
    requires n < |cs| && FirstSeen(cs, n, ids)
    ensures var p := PlaceOf(cs[n]); Differs(cs, n) <==> p in ids && ids[p] != cs[n].id
  {
    hide PlaceOf, IsFirstAt, FirstSeen;
    var p := PlaceOf(cs[n]);
    if p in ids {
      var i := SeenAt(cs, n, ids, p);
      forall j: nat | IsFirstAt(cs, n, p, j) ensures i == j {
        FirstStays(cs, n, p, i, j);
      }
    } else {
      FirstHere(cs, n, ids);
    }
  }

  lemma FirstSeenNext(cs: seq<Consumed>, n: nat, ids: map<Place, u64>)
    requires n < |cs| && FirstSeen(cs, n, ids)
    ensures var p := PlaceOf(cs[n]);
            FirstSeen(cs, n + 1, if p in ids && ids[p] != cs[n].id then ids else ids[p := cs[n].id])
  {
    hide PlaceOf, IsFirstAt, FirstSeen, FirstIdIs;
    var p := PlaceOf(cs[n]);
    var next := if p in ids && ids[p] != cs[n].id then ids else ids[p := cs[n].id];
    forall q | q in next ensures FirstIdIs(cs, n + 1, q, next[q]) {
      FirstOfNext(cs, n, ids, q);
    }
    forall i | 0 <= i < n + 1 ensures PlaceOf(cs[i]) in next {
      if i < n { Noted(cs, n, ids, i); }
    }
    AllNoted(cs, n + 1, next);
  }

  lemma AllNoted(cs: seq<Consumed>, n: nat, ids: map<Place, u64>)
    requires n <= |cs|
    requires forall p {:trigger ids[p]} :: p in ids ==> FirstIdIs(cs, n, p, ids[p])
    requires forall i {:trigger cs[i]} :: 0 <= i < n ==> PlaceOf(cs[i]) in ids
    ensures FirstSeen(cs, n, ids)
  {
    hide PlaceOf, IsFirstAt, FirstIdIs;
  }

  lemma FirstOfNext(cs: seq<Consumed>, n: nat, ids: map<Place, u64>, q: Place)
    requires n < |cs| && FirstSeen(cs, n, ids) && (q in ids || q == PlaceOf(cs[n]))
    ensures FirstIdIs(cs, n + 1, q, if q in ids then ids[q] else cs[n].id)
  {
    hide PlaceOf, IsFirstAt, FirstSeen;
    if q in ids {
      var i := SeenAt(cs, n, ids, q);
      FirstStays(cs, n, q, i, i);
    } else {
      FirstHere(cs, n, ids);
    }
  }

  lemma FirstHere(cs: seq<Consumed>, n: nat, ids: map<Place, u64>)
    requires n < |cs| && FirstSeen(cs, n, ids) && PlaceOf(cs[n]) !in ids
    ensures IsFirstAt(cs, n + 1, PlaceOf(cs[n]), n) && !exists i: nat :: IsFirstAt(cs, n, PlaceOf(cs[n]), i)
  {
    hide PlaceOf;
  }

  lemma OneMoreId(cs: seq<Consumed>, n: nat, ids: map<Place, u64>)
    requires n < |cs| && FirstSeen(cs, n, ids)
    ensures OneId(cs[..n + 1]) <==> OneId(cs[..n]) && !Differs(cs, n)
  {
    hide PlaceOf, IsFirstAt, Differs, FirstSeen;
    var p := PlaceOf(cs[n]);
    NotedDecides(cs, n, ids);
    if OneId(cs[..n + 1]) {
      ShorterOneId(cs, n);
      if p in ids {
        var i := SeenAt(cs, n, ids, p);
        assert cs[..n + 1][i].id == cs[..n + 1][n].id;
      }
    }
    if OneId(cs[..n]) && (p in ids ==> ids[p] == cs[n].id) {
      LongerOneId(cs, n, ids);
    }
  }

  lemma ShorterOneId(cs: seq<Consumed>, n: nat)
    requires n < |cs| && OneId(cs[..n + 1])
    ensures OneId(cs[..n])
  {
    hide PlaceOf;
    forall i, j | 0 <= i < n && 0 <= j < n && PlaceOf(cs[..n][i]) == PlaceOf(cs[..n][j])
      ensures cs[..n][i].id == cs[..n][j].id
    {
      assert cs[..n + 1][i].id == cs[..n + 1][j].id;
    }
  }

  lemma LongerOneId(cs: seq<Consumed>, n: nat, ids: map<Place, u64>)
    requires n < |cs| && FirstSeen(cs, n, ids) && OneId(cs[..n])
    requires PlaceOf(cs[n]) in ids ==> ids[PlaceOf(cs[n])] == cs[n].id
    ensures OneId(cs[..n + 1])
  {
    hide PlaceOf, IsFirstAt, FirstSeen;
    var longer := cs[..n + 1];
    forall i, j | 0 <= i < |longer| && 0 <= j < |longer| && PlaceOf(longer[i]) == PlaceOf(longer[j])
      ensures longer[i].id == longer[j].id
    {
      IdAgrees(cs, n, ids, i);
      IdAgrees(cs, n, ids, j);
      if i < n && j < n {
        assert cs[..n][i].id == cs[..n][j].id;
      }
    }
  }

  lemma Noted(cs: seq<Consumed>, n: nat, ids: map<Place, u64>, i: nat)
    requires FirstSeen(cs, n, ids) && i < n
    ensures i < |cs| && PlaceOf(cs[i]) in ids
  {
  }

  /** With one id for each place so far, an earlier delivery at the place of the `n`th has the id noted there. */
  lemma IdAgrees(cs: seq<Consumed>, n: nat, ids: map<Place, u64>, i: nat)
    requires n < |cs| && FirstSeen(cs, n, ids) && OneId(cs[..n]) && i <= n
    ensures i < n && PlaceOf(cs[i]) == PlaceOf(cs[n]) ==> PlaceOf(cs[n]) in ids && cs[i].id == ids[PlaceOf(cs[n])]
  {
    hide PlaceOf, IsFirstAt, FirstSeen;
    var p := PlaceOf(cs[n]);
    if i < n && PlaceOf(cs[i]) == p {
      assert p in ids by { Noted(cs, n, ids, i); }
      var k := SeenAt(cs, n, ids, p);
      assert cs[..n][i].id == cs[..n][k].id;
    }
  }
}
