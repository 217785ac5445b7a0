/** The high-water mark and the queue of acks=all produces that wait for it (src/broker/cluster.rs). Pure. */
module HighWatermark {
  import opened Bytes

  /** When a follower last asked for an offset at or past the log end, and what it asked for last. */
  datatype Progress = Progress(offset: nat, caughtUp: nat)

  datatype Waiting = Waiting(last: nat, base: nat, count: nat, ticket: nat)

  /** A follower that has not fetched yet counts as having nothing. */
  function Matched(m: map<u32, Progress>, id: u32): nat {
    if id in m then m[id].offset else 0
  }

  /** The least of the log end and the match offsets of the other members of the ISR. */
  function Covered(isr: seq<u32>, self: u32, m: map<u32, Progress>, logEnd: nat): nat {
    if isr == [] then logEnd
    else
      var rest := Covered(isr[..|isr| - 1], self, m, logEnd);
      var id := isr[|isr| - 1];
      if id != self && Matched(m, id) < rest then Matched(m, id) else rest
  }

  /** It is a lower bound, and the greatest one. */
  lemma {:induction false} CoveredIsLeast(isr: seq<u32>, self: u32, m: map<u32, Progress>, logEnd: nat)
    ensures Covered(isr, self, m, logEnd) <= logEnd
    ensures forall id :: id in isr && id != self ==> Covered(isr, self, m, logEnd) <= Matched(m, id)
    ensures Covered(isr, self, m, logEnd) == logEnd
         || exists id :: id in isr && id != self && Covered(isr, self, m, logEnd) == Matched(m, id)
    decreases |isr|
  {
    if isr != [] {
      var rest, id := isr[..|isr| - 1], isr[|isr| - 1];
      CoveredIsLeast(rest, self, m, logEnd);
      assert isr == rest + [id];
    }
  }

  /** The entries that the mark has passed, in order, wherever they stand in the queue. */
  function Passed(q: seq<Waiting>, hwm: nat): seq<Waiting> {
    if q == [] then []
    else Passed(q[..|q| - 1], hwm) + if q[|q| - 1].last < hwm then [q[|q| - 1]] else []
  }

  function NotPassed(q: seq<Waiting>, hwm: nat): seq<Waiting> {
    if q == [] then []
    else NotPassed(q[..|q| - 1], hwm) + if q[|q| - 1].last < hwm then [] else [q[|q| - 1]]
  }

  lemma {:induction false} PassedAre(q: seq<Waiting>, hwm: nat, w: Waiting)
    ensures w in Passed(q, hwm) <==> w in q && w.last < hwm
    ensures w in NotPassed(q, hwm) <==> w in q && w.last >= hwm
    decreases |q|
  {
    if q != [] {
      var rest, x := q[..|q| - 1], q[|q| - 1];
      PassedAre(rest, hwm, w);
      assert q == rest + [x];
      PassedGrows(rest, x, hwm);
      hide Passed, NotPassed;
    }
  }

  lemma {:induction false} DrainCounts(q: seq<Waiting>, hwm: nat)
    ensures multiset(Passed(q, hwm)) + multiset(NotPassed(q, hwm)) == multiset(q)
    decreases |q|
  {
    if q != [] {
      var rest, x := q[..|q| - 1], q[|q| - 1];
      DrainCounts(rest, hwm);
      assert q == rest + [x];
      PassedGrows(rest, x, hwm);
      hide Passed, NotPassed;
    }
  }

  /** Every entry goes to one side, by the test alone, and none is lost or doubled. */
  lemma DrainSplits(q: seq<Waiting>, hwm: nat)
    ensures multiset(Passed(q, hwm)) + multiset(NotPassed(q, hwm)) == multiset(q)
    ensures forall w {:trigger w in Passed(q, hwm)} :: w in Passed(q, hwm) <==> w in q && w.last < hwm
    ensures forall w {:trigger w in NotPassed(q, hwm)} :: w in NotPassed(q, hwm) <==> w in q && w.last >= hwm
  {
    DrainCounts(q, hwm);
    hide Passed, NotPassed;
    forall w
      ensures w in Passed(q, hwm) <==> w in q && w.last < hwm
      ensures w in NotPassed(q, hwm) <==> w in q && w.last >= hwm
    {
      PassedAre(q, hwm, w);
    }
  }

  lemma PassedGrows(q: seq<Waiting>, w: Waiting, hwm: nat)
    ensures Passed(q + [w], hwm) == Passed(q, hwm) + if w.last < hwm then [w] else []
    ensures NotPassed(q + [w], hwm) == NotPassed(q, hwm) + if w.last < hwm then [] else [w]
    ensures Passed([], hwm) == [] == NotPassed([], hwm)
  {
    assert (q + [w])[..|q|] == q;
  }
}
