/** What a leader decides on its own: where its high-water mark stands, which produces it has answered, and which
    ISR it asks for (src/broker/cluster.rs, src/broker/mod.rs). Pure: the object that holds these fields is in
    Replica.dfy. Times are readings of a monotone clock. */
module Leadership {
  import opened Wrappers
  import opened Bytes
  import opened RecordCodec
  import opened HighWatermark

  /** The fields of a replica that matter while it leads. */
  datatype Leader = Leader(
    self: u32,
    replicas: seq<u32>,
    isr: seq<u32>,
    progress: map<u32, Progress>,
    since: nat,
    hwm: nat,
    waiting: seq<Waiting>)

  // ---------------------------------------------------------------- the mark

  function Mark(l: Leader, logEnd: nat): nat {
    Max(l.hwm, Covered(l.isr, l.self, l.progress, logEnd))
  }

  /** `advance_hwm`: the mark moves up to what the ISR covers, and what it passes no longer waits. */
  function Advanced(l: Leader, logEnd: nat): Leader {
    l.(hwm := Mark(l, logEnd), waiting := NotPassed(l.waiting, Mark(l, logEnd)))
  }

  function Answered(l: Leader, logEnd: nat): seq<Waiting> {
    Passed(l.waiting, Mark(l, logEnd))
  }

  /** A follower has asked for `offset`. It counts as caught up only if that is the log end. */
  function Noted(l: Leader, follower: u32, offset: nat, now: nat, logEnd: nat): Leader {
    var caughtUp := if offset >= logEnd then now
                    else if follower in l.progress then l.progress[follower].caughtUp else l.since;
    l.(progress := l.progress[follower := Progress(offset, caughtUp)])
  }

  // ---------------------------------------------------------------- the ISR that it asks for

  /** Whether a follower has caught up within the lag window; one that never fetched is measured from the
      moment this leader took over. */
  predicate Recent(m: map<u32, Progress>, id: u32, leaderSince: nat, now: nat, lag: nat) {
    now <= (if id in m then m[id].caughtUp else leaderSince) + lag
  }

  /** The leader and every recent follower, in the order of `replicas`. */
  function DesiredIsr(replicas: seq<u32>, self: u32, m: map<u32, Progress>, leaderSince: nat, now: nat,
                      lag: nat): seq<u32> {
    if replicas == [] then [self]
    else
      var id := replicas[|replicas| - 1];
      DesiredIsr(replicas[..|replicas| - 1], self, m, leaderSince, now, lag)
      + if id != self && Recent(m, id, leaderSince, now, lag) then [id] else []
  }

  /** The proposal names the leader and exactly the followers that caught up within the lag window, whatever they
      hold; one that has never fetched has the window since this leader took over. */
  lemma {:induction false} DesiredIsRecent(replicas: seq<u32>, self: u32, m: map<u32, Progress>, leaderSince: nat,
                                           now: nat, lag: nat, id: u32)
    ensures id in DesiredIsr(replicas, self, m, leaderSince, now, lag)
            <==> (id == self
                  || (id in replicas && if id in m then now <= m[id].caughtUp + lag else now <= leaderSince + lag))
    decreases |replicas|
  {
    if replicas != [] {
      var rest, last := replicas[..|replicas| - 1], replicas[|replicas| - 1];
      assert replicas == rest + [last];
      DesiredIsRecent(rest, self, m, leaderSince, now, lag, id);
    }
  }

  predicate Ascending(s: seq<u32>) {
    forall i, j {:trigger s[i], s[j]} :: 0 <= i < j < |s| ==> s[i] <= s[j]
  }

  function InsertId(s: seq<u32>, x: u32): (r: seq<u32>)
    requires Ascending(s)
    ensures Ascending(r) && multiset(r) == multiset(s) + multiset{x}
    ensures forall i {:trigger r[i]} :: 0 <= i < |r| ==> r[i] == x || r[i] in s
  {
    if s == [] then [x]
    else if x <= s[0] then [x] + s
    else
      assert s == [s[0]] + s[1..];
      AscendingTail(s);
      var rest := InsertId(s[1..], x);
      HeadFirst(s[0], rest, s, x);
      [s[0]] + rest
  }

  /** The ids in ascending order (`sort_unstable`). */
  function SortIds(s: seq<u32>): (r: seq<u32>)
    ensures Ascending(r) && multiset(r) == multiset(s)
  {
    if s == [] then []
    else
      assert s == s[..|s| - 1] + [s[|s| - 1]];
      InsertId(SortIds(s[..|s| - 1]), s[|s| - 1])
  }

  /** The ISR to ask for, if it is another set than the present one. */
  function Proposal(l: Leader, now: nat, lag: nat): Option<seq<u32>> {
    var desired := DesiredIsr(l.replicas, l.self, l.progress, l.since, now, lag);
    if multiset(desired) == multiset(l.isr) then None else Some(SortIds(desired))
  }

  /** The ISR that the leader wants: the one it asks for, or the one that it has and would not change. */
  function Wanted(l: Leader, now: nat, lag: nat): seq<u32> {
    match Proposal(l, now, lag)
    case Some(isr) => isr
    case None => l.isr
  }

  lemma WantedIsRecent(l: Leader, now: nat, lag: nat)
    ensures forall id :: id in Wanted(l, now, lag) <==>
              (id == l.self
               || (id in l.replicas && if id in l.progress then now <= l.progress[id].caughtUp + lag
                                       else now <= l.since + lag))
  {
    hide SortIds, DesiredIsr;
    var desired := DesiredIsr(l.replicas, l.self, l.progress, l.since, now, lag);
    forall id
      ensures id in desired <==>
              (id == l.self
               || (id in l.replicas && if id in l.progress then now <= l.progress[id].caughtUp + lag
                                       else now <= l.since + lag))
    {
      DesiredIsRecent(l.replicas, l.self, l.progress, l.since, now, lag, id);
    }
    assert forall id :: id in Wanted(l, now, lag) <==> id in multiset(Wanted(l, now, lag));
    assert forall id :: id in desired <==> id in multiset(desired);
  }

  /** A fetch at the log end keeps a follower in the ISR that the leader wants for exactly the lag from then on; a
      fetch short of it changes nothing about that, for no follower. */
  lemma FetchCountsForLag(l: Leader, follower: u32, offset: nat, fetched: nat, logEnd: nat, now: nat, lag: nat)
    requires follower in l.replicas && follower != l.self
    ensures var after := Advanced(Noted(l, follower, offset, fetched, logEnd), logEnd);
            && (offset >= logEnd ==> (follower in Wanted(after, now, lag) <==> now <= fetched + lag))
            && (offset < logEnd ==> (follower in Wanted(after, now, lag) <==> follower in Wanted(l, now, lag)))
            && (forall id :: id != follower ==> (id in Wanted(after, now, lag) <==> id in Wanted(l, now, lag)))
  {
    hide Wanted, Covered, NotPassed;
    var after := Advanced(Noted(l, follower, offset, fetched, logEnd), logEnd);
    WantedIsRecent(after, now, lag);
    WantedIsRecent(l, now, lag);
  }

  lemma SortedIsUnique(a: seq<u32>, b: seq<u32>)
    requires Ascending(a) && Ascending(b) && multiset(a) == multiset(b)
    ensures a == b
  {
    hide Ascending;
    if a != [] && b != [] {
      SameHead(a, b);
      TailsMatch(a, b);
      AscendingTail(a);
      AscendingTail(b);
      SortedIsUnique(a[1..], b[1..]);
      assert a == [a[0]] + a[1..] && b == [b[0]] + b[1..];
    } else {
      assert |multiset(a)| == |a| && |multiset(b)| == |b|;
    }
  }

  lemma SameHead(a: seq<u32>, b: seq<u32>)
    requires Ascending(a) && Ascending(b) && multiset(a) == multiset(b) && a != [] && b != []
    ensures a[0] == b[0]
  {
    hide Ascending;
    assert a[0] in multiset(b) && b[0] in multiset(a);
    FirstIsLeast(a, b[0]);
    FirstIsLeast(b, a[0]);
  }

  lemma TailsMatch(a: seq<u32>, b: seq<u32>)
    requires multiset(a) == multiset(b) && a != [] && b != [] && a[0] == b[0]
    ensures multiset(a[1..]) == multiset(b[1..])
  {
    assert a == [a[0]] + a[1..] && b == [b[0]] + b[1..];
    assert multiset(a[1..]) == multiset(a) - multiset{a[0]};
    assert multiset(b[1..]) == multiset(b) - multiset{b[0]};
  }

  lemma HeadFirst(first: u32, rest: seq<u32>, s: seq<u32>, x: u32)
    requires Ascending(rest) && Ascending(s) && s != [] && s[0] == first <= x
    requires forall i {:trigger rest[i]} :: 0 <= i < |rest| ==> rest[i] == x || rest[i] in s[1..]
    ensures Ascending([first] + rest)
  {
    forall i | 0 <= i < |rest| ensures first <= rest[i] {
      if rest[i] in s[1..] {
        FirstIsLeast(s, rest[i]);
      }
    }
  }

  lemma AscendingTail(a: seq<u32>)
    requires Ascending(a) && a != []
    ensures Ascending(a[1..])
  {
  }

  lemma FirstIsLeast(s: seq<u32>, x: u32)
    requires Ascending(s) && x in s
    ensures s[0] <= x
  {
  }

  // ---------------------------------------------------------------- what it serves

  /** A contiguous run from `offset` of records below the mark. */
  ghost predicate CommittedRun(records: seq<Record>, start: nat, offset: nat, hwm: nat, out: seq<Record>) {
    && start <= offset && offset + |out| <= start + |records|
    && out == records[offset - start..offset - start + |out|]
    && (out != [] ==> offset + |out| <= hwm)
  }
}
