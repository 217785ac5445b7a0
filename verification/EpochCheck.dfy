/** The epoch check: where a follower cuts its log, and exactly when that is far enough (src/broker/cluster.rs,
    src/storage/epoch.rs). Pure. */
module EpochReconciliation {
  import opened Wrappers
  import opened Bytes
  import opened RecordCodec
  import opened EpochHistory
  import opened Follower

  /** Where the records of entry `i` end. */
  function EndAt(h: seq<EpochStart>, i: nat, logEnd: nat): nat
    requires i < |h|
  {
    if i + 1 < |h| then h[i + 1].start else logEnd
  }

  ghost predicate Ordered(h: seq<EpochStart>, logEnd: nat) {
    && Monotone(h) && Within(h, logEnd)
    && forall i {:trigger h[i]} :: 0 <= i < |h| ==> h[i].epoch > 0
  }

  /** Up to the end of each epoch that it lists, the replica holds what that epoch's leader wrote. */
  ghost predicate Agrees(n: Node, written: map<u64, seq<Record>>) {
    && Ordered(n.history, |n.log|)
    && forall i {:trigger n.history[i]} :: 0 <= i < |n.history| ==> EntryAgrees(n, i, written)
  }

  ghost predicate EntryAgrees(n: Node, i: nat, written: map<u64, seq<Record>>)
    requires i < |n.history|
  {
    && n.history[i].epoch in written
    && EndAt(n.history, i, |n.log|) <= |n.log|
    && n.log[..EndAt(n.history, i, |n.log|)] <= written[n.history[i].epoch]
  }

  /** Some epoch that both list covers the first `t` records of both. */
  ghost predicate Shared(f: seq<EpochStart>, fEnd: nat, l: seq<EpochStart>, lEnd: nat, t: nat) {
    t == 0 ||
    exists i, j {:trigger f[i], l[j]} ::
      0 <= i < |f| && 0 <= j < |l| && f[i].epoch == l[j].epoch && t <= EndAt(f, i, fEnd) && t <= EndAt(l, j, lEnd)
  }

  /** Where the follower's log ends after the check. */
  function Target(f: seq<EpochStart>, fEnd: nat, l: seq<EpochStart>, lEnd: nat): nat {
    Min(EndOf(l, CurrentEpoch(f), lEnd), fEnd)
  }

  /** The epoch is listed and has not ended before `t`. */
  ghost predicate Covers(h: seq<EpochStart>, logEnd: nat, e: u64, t: nat) {
    exists i {:trigger h[i]} :: 0 <= i < |h| && h[i].epoch == e && t <= EndAt(h, i, logEnd)
  }

  /** The follower itself, or whoever answers it together with an epoch that both list, vouches for the first
      `t` records being those of epoch `e`. */
  ghost predicate Linked(f: seq<EpochStart>, fEnd: nat, l: seq<EpochStart>, lEnd: nat, e: u64, t: nat) {
    t == 0 || Covers(f, fEnd, e, t) || (Shared(f, fEnd, l, lEnd, t) && Covers(l, lEnd, e, t))
  }

  /** A follower that lists the epoch already does not lose it by the cut. */
  ghost predicate KeepsLast(f: seq<EpochStart>, fEnd: nat, e: u64, x: nat) {
    f != [] && CurrentEpoch(f) == e && x < fEnd ==> f[|f| - 1].start < x
  }

  /** The condition on the answer to a follower that reconciles for epoch `e`, over the two checkpoints. */
  ghost predicate SoundAnswer(f: seq<EpochStart>, fEnd: nat, l: seq<EpochStart>, lEnd: nat, e: u64) {
    && Linked(f, fEnd, l, lEnd, e, Target(f, fEnd, l, lEnd))
    && KeepsLast(f, fEnd, e, EndOf(l, CurrentEpoch(f), lEnd))
  }

  // ---------------------------------------------------------------- the check is far enough if ...

  lemma SharedAgrees(f: Node, l: Node, t: nat, written: map<u64, seq<Record>>)
    requires Agrees(f, written) && Agrees(l, written)
    requires Shared(f.history, |f.log|, l.history, |l.log|, t)
    ensures t <= |f.log| && t <= |l.log| && f.log[..t] <= l.log
  {
    if t > 0 {
      var i, j :| 0 <= i < |f.history| && 0 <= j < |l.history| && f.history[i].epoch == l.history[j].epoch
        && t <= EndAt(f.history, i, |f.log|) && t <= EndAt(l.history, j, |l.log|);
      hide Ordered, EndAt;
      assert EntryAgrees(f, i, written) && EntryAgrees(l, j, written);
      var w := written[f.history[i].epoch];
      PrefixOf(f.log, EndAt(f.history, i, |f.log|), t, w);
      PrefixOf(l.log, EndAt(l.history, j, |l.log|), t, w);
    }
  }

  lemma PrefixOf(s: seq<Record>, n: nat, t: nat, w: seq<Record>)
    requires t <= n <= |s| && s[..n] <= w
    ensures t <= |w| && s[..t] == w[..t]
  {
    assert s[..n][..t] == s[..t];
  }

  lemma TargetInside(f: seq<EpochStart>, fEnd: nat, l: seq<EpochStart>, lEnd: nat)
    requires Monotone(l) && Within(l, lEnd)
    ensures Target(f, fEnd, l, lEnd) <= fEnd && Target(f, fEnd, l, lEnd) <= lEnd
  {
    hide EndOf;
    EndOfGrows(l, CurrentEpoch(f), CurrentEpoch(f), lEnd);
  }

  /** The usual case: the leader lists the follower's last epoch, or nothing that old. */
  lemma ListedIsShared(f: seq<EpochStart>, fEnd: nat, l: seq<EpochStart>, lEnd: nat)
    requires Ordered(f, fEnd) && Ordered(l, lEnd)
    requires (exists j {:trigger l[j]} :: 0 <= j < |l| && l[j].epoch == CurrentEpoch(f))
          || (forall j {:trigger l[j]} :: 0 <= j < |l| ==> l[j].epoch > CurrentEpoch(f))
    ensures Shared(f, fEnd, l, lEnd, Target(f, fEnd, l, lEnd))
  {
    hide CountUpTo;
    var a := CurrentEpoch(f);
    if j :| 0 <= j < |l| && l[j].epoch == a {
      if f != [] {
        CountUpToIs(l, a, j + 1);
        var i := |f| - 1;
        assert f[i].epoch == l[j].epoch;
      }
    } else {
      CountUpToIs(l, a, 0);
    }
  }

  // ---------------------------------------------------------------- a leader that still leads

  /** Whoever lists `e` last vouches for all of its log, so all that is left of the condition is an epoch that
      both list. */
  lemma LastCoversAll(f: seq<EpochStart>, fEnd: nat, l: seq<EpochStart>, lEnd: nat, e: u64, t: nat)
    requires l != [] && CurrentEpoch(l) == e && t <= lEnd
    ensures Covers(l, lEnd, e, t)
    ensures Linked(f, fEnd, l, lEnd, e, t) <==> Shared(f, fEnd, l, lEnd, t)
  {
    var j := |l| - 1;
    assert l[j].epoch == e && EndAt(l, j, lEnd) == lEnd;
  }

  lemma LinkedAgrees(f: Node, l: Node, e: u64, t: nat, written: map<u64, seq<Record>>)
    requires Agrees(f, written) && Agrees(l, written) && t <= |f.log|
    requires Linked(f.history, |f.log|, l.history, |l.log|, e, t) && t > 0
    ensures e in written && f.log[..t] <= written[e]
  {
    hide Ordered, Shared, Covers;
    if Covers(f.history, |f.log|, e, t) {
      CoveredAgrees(f, e, t, written);
    } else {
      SharedAgrees(f, l, t, written);
      CoveredAgrees(l, e, t, written);
      assert f.log[..t] == l.log[..t];
    }
  }

  /** Up to where an epoch that it lists ends, a replica has what that epoch's leader wrote. */
  lemma CoveredAgrees(n: Node, e: u64, t: nat, written: map<u64, seq<Record>>)
    requires Agrees(n, written) && Covers(n.history, |n.log|, e, t)
    ensures e in written && t <= |n.log| && n.log[..t] <= written[e]
  {
    var i :| 0 <= i < |n.history| && n.history[i].epoch == e && t <= EndAt(n.history, i, |n.log|);
    hide Ordered, EndAt;
    assert EntryAgrees(n, i, written);
    PrefixOf(n.log, EndAt(n.history, i, |n.log|), t, written[e]);
  }

  lemma LastIsKept(f: seq<EpochStart>, fEnd: nat, e: u64, x: nat)
    requires Ordered(f, fEnd) && CurrentEpoch(f) == e > 0
    ensures KeepsLast(f, fEnd, e, x) <==> (x < fEnd ==> CurrentEpoch(f[..KeptEntries(f, x)]) == e)
  {
    hide KeptEntries;
    KeptIsBelow(f, x);
    var k := KeptEntries(f, x);
    if x < fEnd && k < |f| && k > 0 {
      assert f[k - 1].epoch < f[|f| - 1].epoch;
    }
    assert f[|f| - 1].start < x ==> k == |f| && f[..k] == f;
  }

  // ---------------------------------------------------------------- ... and only if

  /** For every pair of logs with these histories, what the follower keeps is of epoch `e`, and what it goes on
      to append is recorded under `e`. */
  ghost predicate AlwaysSafe(f: seq<EpochStart>, fEnd: nat, l: seq<EpochStart>, lEnd: nat, e: u64) {
    && (forall fn: Node, ln: Node, written: map<u64, seq<Record>> {:trigger Agrees(fn, written), Agrees(ln, written)} ::
          Describes(fn, f, fEnd, written) && Describes(ln, l, lEnd, written) && e in written ==>
            fn.log[..Min(Target(f, fEnd, l, lEnd), |fn.log|)] <= written[e])
    && (CurrentEpoch(f) == e && EndOf(l, e, lEnd) < fEnd ==>
          CurrentEpoch(f[..KeptEntries(f, EndOf(l, e, lEnd))]) == e)
  }

  /** A replica with this checkpoint, consistent with what each epoch's leader wrote. */
  ghost predicate Describes(n: Node, h: seq<EpochStart>, logEnd: nat, written: map<u64, seq<Record>>) {
    n.history == h && |n.log| == logEnd && Agrees(n, written)
  }

  /** Zeros up to `c`, then `mark`. */
  function Marked(n: nat, c: nat, mark: i64): (s: seq<Record>)
    requires n < U64_RANGE
    ensures |s| == n
    ensures forall k {:trigger s[k]} :: 0 <= k < n ==> s[k] == Record(k, if k < c then 0 else mark, None, [])
  {
    seq(n, k requires 0 <= k < n => Record(k, if k < c then 0 else mark, None, []))
  }

  function EpochsOf(h: seq<EpochStart>): set<u64> {
    set i | 0 <= i < |h| :: h[i].epoch
  }

  /** What the leaders of these epochs wrote, if all agree below `c` and those in `first` go on alike. */
  ghost function Terms(epochs: set<u64>, first: set<u64>, n: nat, c: nat): (m: map<u64, seq<Record>>)
    requires n < U64_RANGE
    ensures m.Keys == epochs
    ensures forall e {:trigger m[e]} :: e in epochs ==> m[e] == Marked(n, c, if e in first then 1 else 2)
  {
    map e | e in epochs :: Marked(n, c, if e in first then 1 else 2)
  }

  /** A log that leaves the common part where its covering epochs do agrees with them. */
  lemma MarkedAgrees(h: seq<EpochStart>, logEnd: nat, t: nat, mark: i64, n: nat, epochs: set<u64>, first: set<u64>)
    requires Ordered(h, logEnd) && logEnd <= n < U64_RANGE && t > 0 && EpochsOf(h) <= epochs
    requires mark == 1 || mark == 2
    requires forall e {:trigger e in first} :: Covers(h, logEnd, e, t) ==> (e in first <==> mark == 1)
    ensures Describes(NodeData(Marked(logEnd, t - 1, mark), h), h, logEnd, Terms(epochs, first, n, t - 1))
  {
    hide Ordered, EndAt, Marked, Terms;
    OrderedInside(h, logEnd);
    var log, written := Marked(logEnd, t - 1, mark), Terms(epochs, first, n, t - 1);
    forall i | 0 <= i < |h| ensures EntryAgrees(NodeData(log, h), i, written) {
      var e := h[i].epoch;
      assert e in EpochsOf(h);
      EndInside(h, i, logEnd);
      assert t <= EndAt(h, i, logEnd) ==> Covers(h, logEnd, e, t);
      SamePart(logEnd, EndAt(h, i, logEnd), n, t - 1, mark, if e in first then 1 else 2);
    }
  }

  lemma EndInside(h: seq<EpochStart>, i: nat, logEnd: nat)
    requires Within(h, logEnd) && i < |h|
    ensures EndAt(h, i, logEnd) <= logEnd
  {
  }

  lemma SamePart(a: nat, end: nat, n: nat, c: nat, mark: i64, other: i64)
    requires end <= a <= n < U64_RANGE && (end > c ==> mark == other)
    ensures Marked(a, c, mark)[..end] <= Marked(n, c, other)
  {
    hide Marked;
  }

  /** The check is safe whatever the logs hold, exactly when its condition on the two checkpoints holds. */
  lemma CheckIsExact(f: seq<EpochStart>, fEnd: nat, l: seq<EpochStart>, lEnd: nat, e: u64)
    requires Ordered(f, fEnd) && Ordered(l, lEnd) && fEnd < U64_RANGE && lEnd < U64_RANGE && e > 0
    ensures AlwaysSafe(f, fEnd, l, lEnd, e) <==> SoundAnswer(f, fEnd, l, lEnd, e)
  {
    hide Agrees, Linked, Target, Ordered, KeepsLast, EndOf, KeptEntries;
    var t := Target(f, fEnd, l, lEnd);
    OrderedInside(l, lEnd);
    TargetInside(f, fEnd, l, lEnd);
    if CurrentEpoch(f) == e {
      LastIsKept(f, fEnd, e, EndOf(l, e, lEnd));
    } else {
      LastIsOther(f, fEnd, e, EndOf(l, CurrentEpoch(f), lEnd));
    }
    if Linked(f, fEnd, l, lEnd, e, t) {
      forall fn: Node, ln: Node, written: map<u64, seq<Record>> |
        Describes(fn, f, fEnd, written) && Describes(ln, l, lEnd, written) && e in written
        ensures fn.log[..Min(t, |fn.log|)] <= written[e]
      {
        if t > 0 {
          LinkedAgrees(fn, ln, e, t, written);
        }
      }
    } else {
      Diverges(f, fEnd, l, lEnd, e, t);
    }
  }

  lemma LastIsOther(f: seq<EpochStart>, fEnd: nat, e: u64, x: nat)
    requires CurrentEpoch(f) != e
    ensures KeepsLast(f, fEnd, e, x)
  {
  }

  lemma OrderedInside(h: seq<EpochStart>, logEnd: nat)
    requires Ordered(h, logEnd)
    ensures Monotone(h) && Within(h, logEnd)
  {
  }

  /** Which epochs go the way of the follower's log in the counterexample: not `e`. */
  ghost function Others(f: seq<EpochStart>, fEnd: nat, l: seq<EpochStart>, lEnd: nat, e: u64, t: nat): (r: set<u64>)
    ensures forall x {:trigger x in r} ::
              x in r <==> x in EpochsOf(f) + EpochsOf(l) && x != e
                          && (Shared(f, fEnd, l, lEnd, t) || Covers(f, fEnd, x, t))
  {
    set x | x in EpochsOf(f) + EpochsOf(l) && x != e && (Shared(f, fEnd, l, lEnd, t) || Covers(f, fEnd, x, t))
  }

  lemma OthersFit(f: seq<EpochStart>, fEnd: nat, l: seq<EpochStart>, lEnd: nat, e: u64, t: nat)
    requires !Linked(f, fEnd, l, lEnd, e, t)
    ensures var first := Others(f, fEnd, l, lEnd, e, t);
            && (forall x {:trigger x in first} :: Covers(f, fEnd, x, t) ==> x in first)
            && (forall x {:trigger x in first} :: Covers(l, lEnd, x, t) ==>
                  (x in first <==> Shared(f, fEnd, l, lEnd, t)))
  {
    hide Shared, Covers, EpochsOf;
    forall x | Covers(f, fEnd, x, t) ensures x in Others(f, fEnd, l, lEnd, e, t) {
      CoversListed(f, fEnd, x, t);
    }
    forall x | Covers(l, lEnd, x, t)
      ensures x in Others(f, fEnd, l, lEnd, e, t) <==> Shared(f, fEnd, l, lEnd, t)
    {
      CoversListed(l, lEnd, x, t);
      if Covers(f, fEnd, x, t) {
        NotBoth(f, fEnd, l, lEnd, x, t);
      }
    }
  }

  /** Terms that both logs of the counterexample agree with. */
  ghost function CounterTerms(f: seq<EpochStart>, fEnd: nat, l: seq<EpochStart>, lEnd: nat, e: u64, t: nat)
    : map<u64, seq<Record>>
    requires fEnd < U64_RANGE && lEnd < U64_RANGE && t > 0
  {
    Terms(EpochsOf(f) + EpochsOf(l) + {e}, Others(f, fEnd, l, lEnd, e, t), if fEnd < lEnd then lEnd else fEnd, t - 1)
  }

  lemma FollowerSide(f: seq<EpochStart>, fEnd: nat, l: seq<EpochStart>, lEnd: nat, e: u64, t: nat)
    requires Ordered(f, fEnd) && fEnd < U64_RANGE && lEnd < U64_RANGE && t > 0 && !Linked(f, fEnd, l, lEnd, e, t)
    ensures Describes(NodeData(Marked(fEnd, t - 1, 1), f), f, fEnd, CounterTerms(f, fEnd, l, lEnd, e, t))
  {
    OthersFit(f, fEnd, l, lEnd, e, t);
    hide Ordered, Marked, Terms, Covers, Linked, EpochsOf, Others, Shared, Describes;
    MarkedAgrees(f, fEnd, t, 1, if fEnd < lEnd then lEnd else fEnd, EpochsOf(f) + EpochsOf(l) + {e},
                 Others(f, fEnd, l, lEnd, e, t));
  }

  lemma LeaderSide(f: seq<EpochStart>, fEnd: nat, l: seq<EpochStart>, lEnd: nat, e: u64, t: nat, mark: i64)
    requires Ordered(l, lEnd) && fEnd < U64_RANGE && lEnd < U64_RANGE && t > 0 && !Linked(f, fEnd, l, lEnd, e, t)
    requires mark == if Shared(f, fEnd, l, lEnd, t) then 1 else 2
    ensures Describes(NodeData(Marked(lEnd, t - 1, mark), l), l, lEnd, CounterTerms(f, fEnd, l, lEnd, e, t))
  {
    OthersFit(f, fEnd, l, lEnd, e, t);
    hide Ordered, Marked, Terms, Covers, Linked, EpochsOf, Others, Shared, Describes;
    MarkedAgrees(l, lEnd, t, mark, if fEnd < lEnd then lEnd else fEnd, EpochsOf(f) + EpochsOf(l) + {e},
                 Others(f, fEnd, l, lEnd, e, t));
  }

  lemma EpochSide(f: seq<EpochStart>, fEnd: nat, l: seq<EpochStart>, lEnd: nat, e: u64, t: nat)
    requires fEnd < U64_RANGE && lEnd < U64_RANGE && 0 < t <= fEnd && t <= lEnd
    ensures var written := CounterTerms(f, fEnd, l, lEnd, e, t);
            e in written && t <= |written[e]| && written[e][t - 1] == Record(t - 1, 2, None, [])
  {
    hide Marked, EpochsOf, Shared, Covers;
    MarkAt(if fEnd < lEnd then lEnd else fEnd, t - 1, 2);
  }

  /** Two logs and a set of terms in which what the follower keeps is not of epoch `e`. */
  lemma Diverges(f: seq<EpochStart>, fEnd: nat, l: seq<EpochStart>, lEnd: nat, e: u64, t: nat)
    requires Ordered(f, fEnd) && Ordered(l, lEnd) && fEnd < U64_RANGE && lEnd < U64_RANGE
    requires !Linked(f, fEnd, l, lEnd, e, t) && t <= fEnd && t <= lEnd && t == Target(f, fEnd, l, lEnd)
    ensures !AlwaysSafe(f, fEnd, l, lEnd, e)
  {
    assert t > 0;
    hide *;
    var mark: i64 := if Shared(f, fEnd, l, lEnd, t) then 1 else 2;
    FollowerSide(f, fEnd, l, lEnd, e, t);
    LeaderSide(f, fEnd, l, lEnd, e, t, mark);
    EpochSide(f, fEnd, l, lEnd, e, t);
    MarkAt(fEnd, t - 1, 1);
    NotSafe(f, fEnd, l, lEnd, e, NodeData(Marked(fEnd, t - 1, 1), f), NodeData(Marked(lEnd, t - 1, mark), l),
            CounterTerms(f, fEnd, l, lEnd, e, t));
  }

  lemma MarkAt(n: nat, k: nat, mark: i64)
    requires k < n < U64_RANGE
    ensures Marked(n, k, mark)[k] == Record(k, mark, None, [])
  {
  }

  lemma NotSafe(f: seq<EpochStart>, fEnd: nat, l: seq<EpochStart>, lEnd: nat, e: u64, fn: Node, ln: Node,
                written: map<u64, seq<Record>>)
    requires Describes(fn, f, fEnd, written) && Describes(ln, l, lEnd, written) && e in written
    requires var t := Target(f, fEnd, l, lEnd);
             0 < t <= fEnd && t <= |written[e]| && fn.log[t - 1] != written[e][t - 1]
    ensures !AlwaysSafe(f, fEnd, l, lEnd, e)
  {
    hide Agrees, EndOf, KeptEntries, Target;
    var t := Target(f, fEnd, l, lEnd);
    assert Agrees(fn, written) && Agrees(ln, written);
    assert fn.log[..t][t - 1] != written[e][t - 1];
  }

  lemma CoversListed(h: seq<EpochStart>, logEnd: nat, e: u64, t: nat)
    requires Covers(h, logEnd, e, t)
    ensures e in EpochsOf(h)
  {
  }

  lemma NotBoth(f: seq<EpochStart>, fEnd: nat, l: seq<EpochStart>, lEnd: nat, e: u64, t: nat)
    requires Covers(f, fEnd, e, t) && Covers(l, lEnd, e, t)
    ensures Shared(f, fEnd, l, lEnd, t)
  {
  }

  // ---------------------------------------------------------------- asking twice

  /** The follower's checkpoint after the check. */
  function AfterCheck(f: seq<EpochStart>, fEnd: nat, t: nat): seq<EpochStart> {
    if t < fEnd then f[..KeptEntries(f, t)] else f
  }

  /** Something at or below `b` is listed, and nothing later begins before `t`. */
  ghost predicate EndsLate(l: seq<EpochStart>, b: u64, t: nat) {
    && (exists j {:trigger l[j]} :: 0 <= j < |l| && l[j].epoch <= b)
    && (forall j {:trigger l[j]} :: 0 <= j < |l| && l[j].epoch > b ==> l[j].start >= t)
  }

  lemma EndIsLate(l: seq<EpochStart>, b: u64, lEnd: nat, t: nat)
    requires Monotone(l) && 0 < t <= lEnd
    ensures EndOf(l, b, lEnd) >= t <==> EndsLate(l, b, t)
  {
    var n := CountUpTo(l, b);
    hide CountUpTo;
    if n > 0 {
      assert l[0].epoch <= b;
    }
    if n < |l| {
      assert l[n].epoch > b;
      forall j | n <= j < |l| ensures l[j].start >= l[n].start {
      }
    }
  }

  /** Where the follower's log ends after `n` checks with the same leader, if neither appends anything. */
  function EndAfter(f: seq<EpochStart>, fEnd: nat, l: seq<EpochStart>, lEnd: nat, n: nat): nat
    decreases n
  {
    if n == 0 then fEnd
    else
      var t := Target(f, fEnd, l, lEnd);
      EndAfter(AfterCheck(f, fEnd, t), t, l, lEnd, n - 1)
  }

  lemma {:induction false} StaysAt(f: seq<EpochStart>, fEnd: nat, l: seq<EpochStart>, lEnd: nat, n: nat)
    requires Target(f, fEnd, l, lEnd) == fEnd
    ensures EndAfter(f, fEnd, l, lEnd, n) == fEnd
    decreases n
  {
    hide Target;
    if n > 0 {
      StaysAt(f, fEnd, l, lEnd, n - 1);
    }
  }

  /** A follower that asks the same leader again loses nothing more, however often it asks, if and only if the first
      answer cut nothing, or everything, or else the leader has something at or below the last epoch that the cut
      has left the follower, and nothing later than that before where the log now ends. */
  lemma SecondCheckIsExact(f: seq<EpochStart>, fEnd: nat, l: seq<EpochStart>, lEnd: nat)
    requires Ordered(f, fEnd) && Ordered(l, lEnd)
    ensures var t := Target(f, fEnd, l, lEnd);
            (forall n {:trigger EndAfter(f, fEnd, l, lEnd, n)} :: n >= 1 ==> EndAfter(f, fEnd, l, lEnd, n) == t)
            <==> t == fEnd || t == 0 || EndsLate(l, CurrentEpoch(AfterCheck(f, fEnd, t)), t)
  {
    var t := Target(f, fEnd, l, lEnd);
    var g := AfterCheck(f, fEnd, t);
    NextCheckIsExact(f, fEnd, l, lEnd);
    hide Target, AfterCheck, EndsLate, Ordered, CurrentEpoch;
    if Target(g, t, l, lEnd) == t {
      forall n | n >= 1 ensures EndAfter(f, fEnd, l, lEnd, n) == t {
        StaysAt(g, t, l, lEnd, n - 1);
      }
    } else {
      assert EndAfter(AfterCheck(g, t, Target(g, t, l, lEnd)), Target(g, t, l, lEnd), l, lEnd, 0)
          == Target(g, t, l, lEnd);
      assert EndAfter(g, t, l, lEnd, 1) == Target(g, t, l, lEnd);
      assert EndAfter(f, fEnd, l, lEnd, 2) != t;
    }
  }

  lemma NextCheckIsExact(f: seq<EpochStart>, fEnd: nat, l: seq<EpochStart>, lEnd: nat)
    requires Ordered(f, fEnd) && Ordered(l, lEnd)
    ensures var t := Target(f, fEnd, l, lEnd);
            var g := AfterCheck(f, fEnd, t);
            Target(g, t, l, lEnd) == t <==> t == fEnd || t == 0 || EndsLate(l, CurrentEpoch(g), t)
  {
    hide EndOf, EndsLate, KeptEntries;
    var t := Target(f, fEnd, l, lEnd);
    OrderedInside(l, lEnd);
    TargetInside(f, fEnd, l, lEnd);
    if t > 0 {
      EndIsLate(l, CurrentEpoch(AfterCheck(f, fEnd, t)), lEnd, t);
    }
  }

  /** It happens: the first cut drops the follower's last epoch, and the second goes by the one before. Both
      answers meet their condition. `LogDivergence.SecondCut` is a run that gets there. */
  lemma SecondCheckCuts() returns (f: seq<EpochStart>, l: seq<EpochStart>)
    ensures Ordered(f, 8) && Ordered(l, 6)
    ensures SoundAnswer(f, 8, l, 6, 3) && Target(f, 8, l, 6) == 5
    ensures var g := AfterCheck(f, 8, 5); SoundAnswer(g, 5, l, 6, 3) && Target(g, 5, l, 6) == 3
  {
    f, l := [EpochStart(1, 0), EpochStart(2, 5)], [EpochStart(1, 0), EpochStart(2, 3), EpochStart(3, 5)];
    var g := [EpochStart(1, 0)];
    TwiceOrdered(f, l);
    TwiceEnds(f, l);
    assert f[..1] == g;
    assert AfterCheck(f, 8, 5) == g;
    hide *;
    LinkedBy(f, 8, l, 6, 1, 1, 2, 5);
    LinkedBy(g, 5, l, 6, 0, 0, 2, 3);
    TwiceSound(f, g, l);
  }

  lemma TwiceOrdered(f: seq<EpochStart>, l: seq<EpochStart>)
    requires f == [EpochStart(1, 0), EpochStart(2, 5)]
    requires l == [EpochStart(1, 0), EpochStart(2, 3), EpochStart(3, 5)]
    ensures Ordered(f, 8) && Ordered(l, 6)
  {
  }

  lemma TwiceEnds(f: seq<EpochStart>, l: seq<EpochStart>)
    requires f == [EpochStart(1, 0), EpochStart(2, 5)]
    requires l == [EpochStart(1, 0), EpochStart(2, 3), EpochStart(3, 5)]
    ensures EndOf(l, 2, 6) == 5 && EndOf(l, 1, 6) == 3 && KeptEntries(f, 5) == 1
    ensures EndAt(f, 1, 8) == 8 && EndAt(f[..1], 0, 5) == 5
    ensures EndAt(l, 0, 6) == 3 && EndAt(l, 1, 6) == 5 && EndAt(l, 2, 6) == 6
  {
    CountUpToIs(l, 2, 2);
    CountUpToIs(l, 1, 1);
    KeptIs(f, 5, 1);
    hide CountUpTo, KeptEntries;
  }

  lemma TwiceSound(f: seq<EpochStart>, g: seq<EpochStart>, l: seq<EpochStart>)
    requires |f| == 2 && |g| == 1 && |l| == 3 && f[1].epoch == 2 && g[0].epoch == 1 && l[2].epoch == 3
    requires EndOf(l, 2, 6) == 5 && EndOf(l, 1, 6) == 3
    requires Linked(f, 8, l, 6, 3, 5) && Linked(g, 5, l, 6, 3, 3)
    ensures SoundAnswer(f, 8, l, 6, 3) && Target(f, 8, l, 6) == 5
    ensures SoundAnswer(g, 5, l, 6, 3) && Target(g, 5, l, 6) == 3
  {
    hide EndOf, Linked;
  }

  lemma LinkedBy(f: seq<EpochStart>, fEnd: nat, l: seq<EpochStart>, lEnd: nat, i: nat, j: nat, k: nat, t: nat)
    requires i < |f| && j < |l| && k < |l| && f[i].epoch == l[j].epoch
    requires t <= EndAt(f, i, fEnd) && t <= EndAt(l, j, lEnd) && t <= EndAt(l, k, lEnd)
    ensures Linked(f, fEnd, l, lEnd, l[k].epoch, t)
  {
    hide EndAt;
  }

  // ---------------------------------------------------------------- fetched records

  /** For every log with this history, the records read are those that the leader of `e` wrote there. */
  ghost predicate AlwaysOfEpoch(l: seq<EpochStart>, lEnd: nat, e: u64, from: nat, count: nat)
    requires from + count <= lEnd
  {
    forall ln: Node, written: map<u64, seq<Record>> {:trigger Agrees(ln, written)} ::
      Describes(ln, l, lEnd, written) && e in written && from <= |written[e]| ==>
        ln.log[from..from + count] <= written[e][from..]
  }

  /** What a read gives a follower of epoch `e` is that epoch's, whatever the logs hold, exactly when the
      checkpoint of the replica that is read lists the epoch and says that it has not ended before. */
  lemma FetchIsExact(l: seq<EpochStart>, lEnd: nat, e: u64, from: nat, count: nat)
    requires Ordered(l, lEnd) && lEnd < U64_RANGE && from + count <= lEnd && count > 0
    ensures AlwaysOfEpoch(l, lEnd, e, from, count) <==> Covers(l, lEnd, e, from + count)
  {
    hide Agrees, Ordered, Covers, Marked, Terms;
    var t := from + count;
    if Covers(l, lEnd, e, t) {
      forall ln: Node, written: map<u64, seq<Record>> |
        Describes(ln, l, lEnd, written) && e in written && from <= |written[e]|
        ensures ln.log[from..t] <= written[e][from..]
      {
        CoveredAgrees(ln, e, t, written);
        assert ln.log[from..t] == ln.log[..t][from..];
      }
    } else {
      var epochs := EpochsOf(l) + {e};
      var first := epochs - {e};
      forall x | Covers(l, lEnd, x, t) ensures x in first {
        CoversListed(l, lEnd, x, t);
      }
      MarkedAgrees(l, lEnd, t, 1, lEnd, epochs, first);
      var written := Terms(epochs, first, lEnd, t - 1);
      var ln: Node := NodeData(Marked(lEnd, t - 1, 1), l);
      assert Agrees(ln, written);
      assert ln.log[from..t][count - 1] != written[e][from..][count - 1];
    }
  }
}
