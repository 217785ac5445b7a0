/** Where records come from: over any run of `LogAgreement`, all checkpoints that cover an offset trace its record
    back to the same epoch. From this it follows that no epoch check takes from a follower what its leader has
    written itself, in this epoch or in one that it led before. */
module Lineage {
  import opened Wrappers
  import opened Bytes
  import opened RecordCodec
  import opened EpochHistory
  import opened Follower
  import opened EpochReconciliation
  import opened LogAgreement

  /** For every epoch that has been led, the epochs in which the records that its leader began with were written. */
  type Births = map<u64, seq<u64>>

  /** The epoch under which a checkpoint lists offset `p`. */
  function EpochAt(h: seq<EpochStart>, p: nat): u64 {
    CurrentEpoch(h[..KeptEntries(h, p + 1)])
  }

  /** In which epoch the record at offset `p` of the log of `e` was written. */
  function Origin(births: Births, e: u64, p: nat): u64 {
    if e in births && p < |births[e]| then births[e][p] else e
  }

  /** What a replica passes on to the epoch that it is about to lead. */
  function Inherited(births: Births, n: Node): (b: seq<u64>)
    ensures |b| == |n.log|
    ensures forall p {:trigger b[p]} :: 0 <= p < |b| ==> b[p] == Origin(births, EpochAt(n.history, p), p)
  {
    seq(|n.log|, p requires 0 <= p < |n.log| => Origin(births, EpochAt(n.history, p), p))
  }

  function NextBirths(s: Cluster, births: Births, step: Step): Births
    requires Enabled(s, step)
  {
    if step.Adopt? && s.published[step.k].leader == Some(step.r) && s.published[step.k].epoch !in s.terms
    then births[s.published[step.k].epoch := Inherited(births, s.peers[step.r].node)] else births
  }

  // ---------------------------------------------------------------- the invariant

  /** Below `end`, epoch `e` and the checkpoint agree on where each record comes from. */
  ghost predicate Traces(h: seq<EpochStart>, births: Births, e: u64, end: nat) {
    forall p {:trigger Origin(births, e, p)} ::
      0 <= p < end ==> Origin(births, e, p) == Origin(births, EpochAt(h, p), p)
  }

  ghost predicate Rooted(h: seq<EpochStart>, logEnd: nat, births: Births) {
    forall i {:trigger h[i]} :: 0 <= i < |h| ==> Traces(h, births, h[i].epoch, EndAt(h, i, logEnd))
  }

  ghost predicate RoleTraces(p: Peer, births: Births) {
    match p.role
    case Fetching(e, _, _, _, _) => Traces(p.node.history, births, e, |p.node.log|)
    case Reconciling(e, _, _, answer) =>
      answer.Some? ==> Traces(p.node.history, births, e, Min(answer.value, |p.node.log|))
    case _ => true
  }

  /** Where a replica lists an epoch that it led itself, it starts where it began to lead. */
  ghost predicate OwnStarts(terms: map<u64, Term>, births: Births, r: Id, h: seq<EpochStart>) {
    forall i {:trigger h[i]} :: 0 <= i < |h| ==>
      (h[i].epoch in terms && h[i].epoch in births && terms[h[i].epoch].leader == r
       ==> h[i].start == |births[h[i].epoch]|)
  }

  ghost predicate PeerLine(terms: map<u64, Term>, births: Births, r: Id, p: Peer) {
    && Rooted(p.node.history, |p.node.log|, births) && RoleTraces(p, births)
    && OwnStarts(terms, births, r, p.node.history)
  }

  ghost predicate BirthsOk(births: Births) {
    forall e {:trigger births[e]} :: e in births ==>
      forall p {:trigger births[e][p]} :: 0 <= p < |births[e]| ==> births[e][p] <= e
  }

  ghost predicate Line(s: Cluster, births: Births) {
    && births.Keys == s.terms.Keys && BirthsOk(births)
    && forall r {:trigger s.peers[r]} :: r in s.peers ==> PeerLine(s.terms, births, r, s.peers[r])
  }

  // ---------------------------------------------------------------- checkpoints

  lemma OriginBelow(births: Births, e: u64, p: nat)
    requires BirthsOk(births)
    ensures Origin(births, e, p) <= e
  {
  }

  lemma EpochAtIs(h: seq<EpochStart>, p: nat, i: nat)
    requires Monotone(h) && i < |h| && h[i].start <= p && (i + 1 < |h| ==> p < h[i + 1].start)
    ensures EpochAt(h, p) == h[i].epoch
  {
    hide KeptEntries;
    KeptIsBelow(h, p + 1);
    assert i + 1 < |h| ==> h[i + 1].start >= p + 1;
    assert KeptEntries(h, p + 1) == i + 1;
  }

  /** Offsets further on are listed under later epochs. */
  lemma EpochAtGrows(h: seq<EpochStart>, p: nat, q: nat)
    requires Monotone(h) && p <= q
    ensures EpochAt(h, p) <= EpochAt(h, q) <= CurrentEpoch(h)
  {
    hide KeptEntries;
    KeptIsBelow(h, p + 1);
    KeptIsBelow(h, q + 1);
    var m, n := KeptEntries(h, p + 1), KeptEntries(h, q + 1);
    assert n < |h| ==> h[n].start >= q + 1;
    assert 0 < m < n ==> h[m - 1].epoch < h[n - 1].epoch;
    assert 0 < n < |h| ==> h[n - 1].epoch < h[|h| - 1].epoch;
  }

  lemma EpochAtEnd(h: seq<EpochStart>, logEnd: nat, p: nat)
    requires Monotone(h) && Within(h, logEnd) && logEnd <= p
    ensures EpochAt(h, p) == CurrentEpoch(h)
  {
    hide KeptEntries;
    KeptIsBelow(h, p + 1);
    assert KeptEntries(h, p + 1) == |h|;
    assert h[..|h|] == h;
  }

  lemma EpochAtStamp(h: seq<EpochStart>, logEnd: u64, e: u64, p: nat)
    requires Monotone(h + [EpochStart(e, logEnd)]) && Monotone(h)
    ensures EpochAt(h + [EpochStart(e, logEnd)], p) == if p < logEnd then EpochAt(h, p) else e
  {
    hide KeptEntries;
    var m := h + [EpochStart(e, logEnd)];
    if p >= logEnd {
      EpochAtIs(m, p, |h|);
    } else {
      KeptIsBelow(m, p + 1);
      KeptIsBelow(h, p + 1);
      var n, k := KeptEntries(h, p + 1), KeptEntries(m, p + 1);
      assert m[|h|].start == logEnd;
      assert k <= |h|;
      SameCount(h, m, n, k, p + 1);
      assert m[..k] == h[..n];
    }
  }

  lemma SameCount(h: seq<EpochStart>, m: seq<EpochStart>, n: nat, k: nat, x: nat)
    requires h <= m && n <= |h| && k <= |h|
    requires forall i {:trigger h[i]} :: 0 <= i < |h| ==> (i < n <==> h[i].start < x)
    requires forall i {:trigger m[i]} :: 0 <= i < |m| ==> (i < k <==> m[i].start < x)
    ensures n == k
  {
    assert n < |h| ==> m[n] == h[n];
    assert k < |h| ==> m[k] == h[k];
  }

  lemma EpochAtCut(h: seq<EpochStart>, offset: nat, p: nat)
    requires Monotone(h) && p < offset
    ensures EpochAt(h[..KeptEntries(h, offset)], p) == EpochAt(h, p)
  {
    hide KeptEntries;
    KeptIsBelow(h, offset);
    var c := h[..KeptEntries(h, offset)];
    KeptIsBelow(h, p + 1);
    KeptIsBelow(c, p + 1);
    var n, k := KeptEntries(h, p + 1), KeptEntries(c, p + 1);
    assert |c| < |h| ==> h[|c|].start >= offset;
    assert n <= |c|;
    SameCount(c, h, k, n, p + 1);
    assert c[..k] == h[..n];
  }

  // ---------------------------------------------------------------- one node

  lemma StampRooted(n: Node, e: u64, births: Births)
    requires Ordered(n.history, |n.log|) && e > CurrentEpoch(n.history)
    requires Rooted(n.history, |n.log|, births) && Traces(n.history, births, e, |n.log|)
    ensures var m := Stamped(n, e);
            && m == NodeData(n.log, n.history + [EpochStart(e, |n.log|)])
            && Rooted(m.history, |m.log|, births) && Traces(m.history, births, e, |m.log|)
  {
    StampOrdered(n.history, |n.log|, e);
    var m := Stamped(n, e);
    assert m == NodeData(n.log, n.history + [EpochStart(e, |n.log|)]);
    hide Ordered, Stamped, Origin, EpochAt;
    StampMonotone(n.history, |n.log|, e);
    forall p | 0 <= p < |n.log| ensures EpochAt(m.history, p) == EpochAt(n.history, p) {
      EpochAtStamp(n.history, |n.log|, e, p);
    }
    forall i | 0 <= i < |m.history|
      ensures Traces(m.history, births, m.history[i].epoch, EndAt(m.history, i, |m.log|))
    {
      if i < |n.history| {
        assert Traces(n.history, births, n.history[i].epoch, EndAt(n.history, i, |n.log|));
        assert EndAt(m.history, i, |m.log|) == EndAt(n.history, i, |n.log|);
        EndWithin(n, i);
      }
    }
  }

  lemma EndWithin(n: Node, i: nat)
    requires Ordered(n.history, |n.log|) && i < |n.history|
    ensures EndAt(n.history, i, |n.log|) <= |n.log|
  {
  }

  lemma StampMonotone(h: seq<EpochStart>, logEnd: u64, e: u64)
    requires Ordered(h, logEnd) && Ordered(h + [EpochStart(e, logEnd)], logEnd)
    ensures Monotone(h) && Monotone(h + [EpochStart(e, logEnd)])
  {
  }

  /** What is appended under the last epoch is listed under it. */
  lemma GrowRooted(n: Node, m: Node, births: Births)
    requires Ordered(n.history, |n.log|) && m.history == n.history && |n.log| <= |m.log|
    requires Rooted(n.history, |n.log|, births)
    ensures Rooted(m.history, |m.log|, births)
    ensures n.history != [] && Traces(n.history, births, CurrentEpoch(n.history), |n.log|) ==>
              Traces(m.history, births, CurrentEpoch(m.history), |m.log|)
  {
    OrderedInside(n.history, |n.log|);
    hide Ordered, Traces;
    if n.history != [] && Traces(n.history, births, CurrentEpoch(n.history), |n.log|) {
      LastTraces(n.history, births, |n.log|, |m.log|);
    }
    forall i | 0 <= i < |m.history|
      ensures Traces(m.history, births, m.history[i].epoch, EndAt(m.history, i, |m.log|))
    {
      assert Traces(n.history, births, n.history[i].epoch, EndAt(n.history, i, |n.log|));
      if i == |n.history| - 1 {
        LastTraces(n.history, births, |n.log|, |m.log|);
      }
    }
  }

  lemma LastTraces(h: seq<EpochStart>, births: Births, a: nat, b: nat)
    requires Monotone(h) && Within(h, a) && Traces(h, births, CurrentEpoch(h), a)
    ensures Traces(h, births, CurrentEpoch(h), b)
  {
    hide Origin, EpochAt, Monotone, Within;
    forall p | a <= p < b ensures EpochAt(h, p) == CurrentEpoch(h) {
      EpochAtEnd(h, a, p);
    }
  }

  lemma CutRooted(n: Node, offset: nat, births: Births)
    requires Ordered(n.history, |n.log|) && offset <= |n.log| && Rooted(n.history, |n.log|, births)
    ensures var m := CutAt(n, offset);
            && Rooted(m.history, |m.log|, births)
            && forall e :: Traces(n.history, births, e, offset) ==> Traces(m.history, births, e, offset)
  {
    OrderedInside(n.history, |n.log|);
    hide Ordered, Origin, EpochAt, KeptEntries;
    var m := CutAt(n, offset);
    forall p | 0 <= p < offset ensures EpochAt(m.history, p) == EpochAt(n.history, p) {
      EpochAtCut(n.history, offset, p);
    }
    forall i | 0 <= i < |m.history|
      ensures Traces(m.history, births, m.history[i].epoch, EndAt(m.history, i, |m.log|))
    {
      assert Traces(n.history, births, n.history[i].epoch, EndAt(n.history, i, |n.log|));
      CutEnd(n.history, i, |n.log|, offset);
    }
  }

  /** What vouches for the answer also says where the kept records come from. */
  lemma LinkedTraces(f: seq<EpochStart>, fEnd: nat, l: seq<EpochStart>, lEnd: nat, e: u64, t: nat, births: Births)
    requires Rooted(f, fEnd, births) && Rooted(l, lEnd, births) && Linked(f, fEnd, l, lEnd, e, t)
    ensures Traces(f, births, e, t)
  {
    hide EndAt, EpochAt, Origin;
    if t > 0 {
      if i :| 0 <= i < |f| && f[i].epoch == e && t <= EndAt(f, i, fEnd) {
        assert Traces(f, births, f[i].epoch, EndAt(f, i, fEnd));
      } else {
        var i, j :| 0 <= i < |f| && 0 <= j < |l| && f[i].epoch == l[j].epoch
          && t <= EndAt(f, i, fEnd) && t <= EndAt(l, j, lEnd);
        var k :| 0 <= k < |l| && l[k].epoch == e && t <= EndAt(l, k, lEnd);
        assert Traces(f, births, f[i].epoch, EndAt(f, i, fEnd)) && Traces(l, births, l[j].epoch, EndAt(l, j, lEnd));
        assert Traces(l, births, l[k].epoch, EndAt(l, k, lEnd));
        forall p | 0 <= p < t ensures Origin(births, e, p) == Origin(births, EpochAt(f, p), p) {
          assert Origin(births, f[i].epoch, p) == Origin(births, l[j].epoch, p);
        }
      }
    }
  }

  // ---------------------------------------------------------------- step by step

  ghost predicate Good(s: Cluster, births: Births) {
    Inv(s) && Line(s, births)
  }

  lemma NodeOrdered(s: Cluster, r: Id)
    requires Inv(s) && r in s.peers
    ensures Ordered(s.peers[r].node.history, |s.peers[r].node.log|) && Agrees(s.peers[r].node, Logs(s.terms))
  {
    hide TermsOk, LeadersSeen, PublishedOk, RoleOk, LeaderOk, ViewOk, Ordered;
    assert PeerOk(s.published, s.terms, r, s.peers[r]);
  }

  /** One peer changes, and no term begins. */
  lemma OneLine(s: Cluster, t: Cluster, births: Births, r: Id)
    requires Line(s, births) && r in s.peers && r in t.peers && t.peers == s.peers[r := t.peers[r]]
    requires t.terms.Keys == s.terms.Keys && forall e :: e in s.terms ==> t.terms[e].leader == s.terms[e].leader
    requires PeerLine(t.terms, births, r, t.peers[r])
    ensures Line(t, births)
  {
    hide Rooted, RoleTraces, BirthsOk;
    forall q | q in t.peers ensures PeerLine(t.terms, births, q, t.peers[q]) {
      if q != r {
        assert PeerLine(s.terms, births, q, s.peers[q]);
      }
    }
  }

  /** ... and nothing in its node. */
  lemma SameNodeLine(s: Cluster, t: Cluster, births: Births, r: Id)
    requires Line(s, births) && r in s.peers && r in t.peers && t.peers == s.peers[r := t.peers[r]]
    requires t.terms == s.terms && t.peers[r].node == s.peers[r].node && RoleTraces(t.peers[r], births)
    ensures Line(t, births)
  {
    hide Rooted, RoleTraces, BirthsOk, OwnStarts;
    assert PeerLine(s.terms, births, r, s.peers[r]);
    OneLine(s, t, births, r);
  }

  lemma PublishLine(s: Cluster, births: Births, m: Meta)
    requires Line(s, births) && Enabled(s, Publish(m))
    ensures Line(Apply(s, Publish(m)), births)
  {
    hide PeerLine, BirthsOk;
  }

  /** Letting a request in, reading for a fetch and stopping leave the node alone and bring no answer. */
  lemma RoleLine(s: Cluster, births: Births, step: Step)
    requires Line(s, births) && Enabled(s, step)
    requires step.ArriveCheck? || step.ArriveFetch? || step.AnswerFetch? || step.Stop?
    ensures Line(Apply(s, step), births)
  {
    hide Rooted, BirthsOk, OwnStarts, Traces;
    assert PeerLine(s.terms, births, step.r, s.peers[step.r]);
    SameNodeLine(s, Apply(s, step), births, step.r);
  }

  lemma AppendLine(s: Cluster, births: Births, r: Id, record: Record)
    requires Good(s, births) && Enabled(s, AppendOne(r, record))
    ensures Line(Apply(s, AppendOne(r, record)), births)
  {
    hide Inv, Line, PeerLine, Agrees, Ordered;
    NodeOrdered(s, r);
    AppendedLine(s, births, r, record);
    OneLine(s, Apply(s, AppendOne(r, record)), births, r);
  }

  lemma AppendedLine(s: Cluster, births: Births, r: Id, record: Record)
    requires Line(s, births) && Enabled(s, AppendOne(r, record))
    requires Ordered(s.peers[r].node.history, |s.peers[r].node.log|)
    ensures var t := Apply(s, AppendOne(r, record)); PeerLine(t.terms, births, r, t.peers[r])
  {
    hide Rooted, BirthsOk, Ordered, Traces;
    assert PeerLine(s.terms, births, r, s.peers[r]);
    GrowRooted(s.peers[r].node, Apply(s, AppendOne(r, record)).peers[r].node, births);
  }

  lemma AnswerLine(s: Cluster, births: Births, r: Id)
    requires Good(s, births) && Enabled(s, AnswerCheck(r)) && SoundCheck(s, AnswerCheck(r))
    ensures Line(Apply(s, AnswerCheck(r)), births)
  {
    hide Inv, Rooted, BirthsOk, OwnStarts, Traces, Linked, EndOf, KeepsLast;
    var f, q := s.peers[r].node, s.peers[r].role.leader;
    var l := s.peers[q].node;
    assert PeerLine(s.terms, births, r, s.peers[r]) && PeerLine(s.terms, births, q, s.peers[q]);
    LinkedTraces(f.history, |f.log|, l.history, |l.log|, s.peers[r].role.epoch,
                 Target(f.history, |f.log|, l.history, |l.log|), births);
    SameNodeLine(s, Apply(s, AnswerCheck(r)), births, r);
  }

  lemma OwnCut(terms: map<u64, Term>, births: Births, r: Id, h: seq<EpochStart>, k: nat)
    requires OwnStarts(terms, births, r, h) && k <= |h|
    ensures OwnStarts(terms, births, r, h[..k])
  {
  }

  lemma ReconcileLine(s: Cluster, births: Births, r: Id)
    requires Good(s, births) && Enabled(s, Reconcile(r))
    ensures Line(Apply(s, Reconcile(r)), births)
  {
    NodeOrdered(s, r);
    hide Inv, Rooted, BirthsOk, OwnStarts, Traces, KeptEntries, Agrees, Ordered;
    var n, x := s.peers[r].node, s.peers[r].role.answer.value;
    assert PeerLine(s.terms, births, r, s.peers[r]);
    if x < |n.log| {
      CutRooted(n, x, births);
      OwnCut(s.terms, births, r, n.history, KeptEntries(n.history, x));
    }
    OneLine(s, Apply(s, Reconcile(r)), births, r);
  }

  lemma OwnStamp(terms: map<u64, Term>, births: Births, r: Id, h: seq<EpochStart>, e: u64, start: u64)
    requires OwnStarts(terms, births, r, h)
    requires e in terms && terms[e].leader == r && e in births ==> start == |births[e]|
    ensures OwnStarts(terms, births, r, h + [EpochStart(e, start)])
  {
  }

  /** A follower does not fetch in an epoch that it led. */
  lemma FollowsOther(s: Cluster, r: Id)
    requires Inv(s) && r in s.peers && s.peers[r].role.Fetching? && s.peers[r].role.epoch in s.terms
    ensures s.terms[s.peers[r].role.epoch].leader != r
  {
    hide LeadersSeen, PublishedOk, Agrees, LeaderOk;
    var e, l := s.peers[r].role.epoch, s.peers[r].role.leader;
    assert PeerOk(s.published, s.terms, r, s.peers[r]);
    assert TermOk(s.published, e, s.terms[e]);
    var k :| 0 <= k < |s.published| && s.published[k] == Meta(e, Some(l));
  }

  lemma DeliverLine(s: Cluster, births: Births, r: Id, count: nat)
    requires Good(s, births) && Enabled(s, Deliver(r, count))
    ensures Line(Apply(s, Deliver(r, count)), births)
  {
    hide Inv, PeerLine, BirthsOk, Agrees, Ordered, Delivered;
    NodeOrdered(s, r);
    FetchingFits(s, r);
    if s.peers[r].role.epoch in s.terms {
      FollowsOther(s, r);
    }
    DeliveredRooted(s, births, r, count);
    OneLine(s, Apply(s, Deliver(r, count)), births, r);
  }

  lemma FetchingFits(s: Cluster, r: Id)
    requires Inv(s) && r in s.peers && s.peers[r].role.Fetching?
    ensures var p, e := s.peers[r], s.peers[r].role.epoch;
            && CurrentEpoch(p.node.history) <= e && e > 0
            && (p.role.local >= e ==> CurrentEpoch(p.node.history) == e)
  {
    hide LeadersSeen, TermsOk, Agrees, LeaderOk;
    assert PeerOk(s.published, s.terms, r, s.peers[r]);
    EpochPositive(s.published, s.peers[r].view);
  }

  lemma DeliveredRooted(s: Cluster, births: Births, r: Id, count: nat)
    requires Line(s, births) && Enabled(s, Deliver(r, count))
    requires Ordered(s.peers[r].node.history, |s.peers[r].node.log|)
    requires var p, e := s.peers[r], s.peers[r].role.epoch;
             && (e in s.terms ==> s.terms[e].leader != r)
             && CurrentEpoch(p.node.history) <= e && e > 0
             && (p.role.local >= e ==> CurrentEpoch(p.node.history) == e)
    ensures PeerLine(s.terms, births, r, Delivered(s.peers[r], count))
  {
    hide Line, Rooted, OwnStarts, Traces, Ordered, Fetched;
    var p, e := s.peers[r], s.peers[r].role.epoch;
    FetcherLine(s, births, r);
    FetchedRooted(s.terms, births, r, p.node, p.role.local, e, Continuing(p), count);
  }

  lemma FetcherLine(s: Cluster, births: Births, r: Id)
    requires Line(s, births) && r in s.peers && s.peers[r].role.Fetching?
    ensures var n := s.peers[r].node;
            && Rooted(n.history, |n.log|, births) && OwnStarts(s.terms, births, r, n.history)
            && Traces(n.history, births, s.peers[r].role.epoch, |n.log|)
  {
    hide Rooted, OwnStarts, Traces;
    assert PeerLine(s.terms, births, r, s.peers[r]);
  }

  lemma FetchedRooted(terms: map<u64, Term>, births: Births, r: Id, n: Node, local: u64, e: u64,
                      records: seq<Record>, count: nat)
    requires Ordered(n.history, |n.log|) && Rooted(n.history, |n.log|, births) && OwnStarts(terms, births, r, n.history)
    requires Traces(n.history, births, e, |n.log|) && (e in terms ==> terms[e].leader != r)
    requires CurrentEpoch(n.history) <= e && e > 0 && (local >= e ==> CurrentEpoch(n.history) == e)
    requires count <= |records| && |n.log| + count < U64_RANGE
    ensures var m := Fetched(n, local, e, records, count);
            && Rooted(m.history, |m.log|, births) && OwnStarts(terms, births, r, m.history)
            && Traces(m.history, births, e, |m.log|)
  {
    hide Rooted, OwnStarts, Traces, Ordered, Stamped;
    var m := Fetched(n, local, e, records, count);
    if CurrentEpoch(n.history) < e {
      StampRooted(n, e, births);
      OwnStamp(terms, births, r, n.history, e, |n.log|);
      StampOrdered(n.history, |n.log|, e);
      GrowRooted(Stamped(n, e), m, births);
    } else {
      StampKnown(n, e);
      GrowRooted(n, m, births);
    }
  }

  // ---------------------------------------------------------------- adopting an epoch

  lemma FreshOrigin(births: Births, e: u64, b: seq<u64>, x: u64, p: nat)
    requires x != e
    ensures Origin(births[e := b], x, p) == Origin(births, x, p)
  {
  }

  /** A checkpoint that does not list the new epoch. */
  lemma FreshTraces(h: seq<EpochStart>, births: Births, e: u64, b: seq<u64>, x: u64, end: nat)
    requires Traces(h, births, x, end) && x != e && CurrentEpoch(h) < e && Monotone(h)
    ensures Traces(h, births[e := b], x, end)
  {
    hide Origin, EpochAt;
    forall p | 0 <= p < end ensures Origin(births[e := b], x, p) == Origin(births[e := b], EpochAt(h, p), p) {
      EpochAtGrows(h, p, p);
      FreshOrigin(births, e, b, x, p);
      FreshOrigin(births, e, b, EpochAt(h, p), p);
      assert Origin(births, x, p) == Origin(births, EpochAt(h, p), p);
    }
  }

  lemma FreshUnlisted(h: seq<EpochStart>, births: Births, e: u64, b: seq<u64>, x: u64, end: nat)
    requires Traces(h, births, x, end) && x != e && e > 0
    requires forall i {:trigger h[i]} :: 0 <= i < |h| ==> h[i].epoch != e
    ensures Traces(h, births[e := b], x, end)
  {
    hide Origin;
    forall p | 0 <= p < end ensures Origin(births[e := b], x, p) == Origin(births[e := b], EpochAt(h, p), p) {
      FreshOrigin(births, e, b, x, p);
      FreshOrigin(births, e, b, EpochAt(h, p), p);
      assert Origin(births, x, p) == Origin(births, EpochAt(h, p), p);
    }
  }

  /** An epoch that nobody has led is listed nowhere, and whoever is to follow it has kept nothing. */
  lemma NotYetListed(s: Cluster, q: Id, e: u64)
    requires Inv(s) && q in s.peers && e !in s.terms
    ensures var p := s.peers[q];
            && (forall i {:trigger p.node.history[i]} :: 0 <= i < |p.node.history| ==> p.node.history[i].epoch != e)
            && (p.role.Fetching? && p.role.epoch == e ==> p.node.log == [])
            && (p.role.Reconciling? && p.role.epoch == e && p.role.answer.Some? ==>
                  Min(p.role.answer.value, |p.node.log|) == 0)
  {
    hide TermsOk, LeadersSeen, PublishedOk, LeaderOk, ViewOk;
    var p := s.peers[q];
    assert PeerOk(s.published, s.terms, q, p);
    forall i | 0 <= i < |p.node.history| ensures p.node.history[i].epoch != e {
      assert EntryAgrees(p.node, i, Logs(s.terms));
    }
    if p.role.Reconciling? && p.role.epoch == e && p.role.answer.Some? {
      assert p.node.log[..Min(p.role.answer.value, |p.node.log|)] <= [];
    }
  }

  lemma FreshPeer(s: Cluster, births: Births, q: Id, e: u64, t: Term, b: seq<u64>)
    requires Good(s, births) && q in s.peers && e !in s.terms && e > 0
    ensures PeerLine(s.terms[e := t], births[e := b], q, s.peers[q])
  {
    hide Inv, BirthsOk;
    NotYetListed(s, q, e);
    var p := s.peers[q];
    assert PeerLine(s.terms, births, q, p);
    hide Rooted, OwnStarts, RoleTraces, Traces;
    FreshRooted(p.node.history, |p.node.log|, births, e, b);
    FreshRoles(p, births, e, b);
    FreshStarts(s.terms, births, q, p.node.history, e, t, b);
  }

  lemma FreshRooted(h: seq<EpochStart>, logEnd: nat, births: Births, e: u64, b: seq<u64>)
    requires Rooted(h, logEnd, births) && e > 0
    requires forall i {:trigger h[i]} :: 0 <= i < |h| ==> h[i].epoch != e
    ensures Rooted(h, logEnd, births[e := b])
  {
    hide Traces, EndAt;
    forall i | 0 <= i < |h| ensures Traces(h, births[e := b], h[i].epoch, EndAt(h, i, logEnd)) {
      FreshUnlisted(h, births, e, b, h[i].epoch, EndAt(h, i, logEnd));
    }
  }

  lemma FreshStarts(terms: map<u64, Term>, births: Births, r: Id, h: seq<EpochStart>, e: u64, t: Term, b: seq<u64>)
    requires OwnStarts(terms, births, r, h) && forall i {:trigger h[i]} :: 0 <= i < |h| ==> h[i].epoch != e
    ensures OwnStarts(terms[e := t], births[e := b], r, h)
  {
  }

  lemma FreshRoles(p: Peer, births: Births, e: u64, b: seq<u64>)
    requires RoleTraces(p, births) && e > 0
    requires forall i {:trigger p.node.history[i]} :: 0 <= i < |p.node.history| ==> p.node.history[i].epoch != e
    requires p.role.Fetching? && p.role.epoch == e ==> p.node.log == []
    requires p.role.Reconciling? && p.role.epoch == e && p.role.answer.Some? ==>
               Min(p.role.answer.value, |p.node.log|) == 0
    ensures RoleTraces(p, births[e := b])
  {
    hide Traces;
    match p.role
    case Idle =>
    case Leading(_) =>
    case Reconciling(x, _, _, answer) =>
      if answer.Some? {
        FreshRole(p.node.history, births, e, b, x, Min(answer.value, |p.node.log|));
      }
    case Fetching(x, _, _, _, _) => FreshRole(p.node.history, births, e, b, x, |p.node.log|);
  }

  lemma FreshRole(h: seq<EpochStart>, births: Births, e: u64, b: seq<u64>, x: u64, end: nat)
    requires Traces(h, births, x, end) && (x == e ==> end == 0) && e > 0
    requires forall i {:trigger h[i]} :: 0 <= i < |h| ==> h[i].epoch != e
    ensures Traces(h, births[e := b], x, end)
  {
    if x != e {
      FreshUnlisted(h, births, e, b, x, end);
    }
  }

  /** The new leader's own checkpoint: the new epoch inherits what was listed. */
  lemma LeaderLine(births: Births, e: u64, n: Node)
    requires Ordered(n.history, |n.log|) && e > CurrentEpoch(n.history) && e > 0
    requires Rooted(n.history, |n.log|, births[e := Inherited(births, n)])
    ensures Stamped(n, e) == NodeData(n.log, n.history + [EpochStart(e, |n.log|)])
    ensures Rooted(Stamped(n, e).history, |n.log|, births[e := Inherited(births, n)])
  {
    var b := Inherited(births, n);
    var later := births[e := b];
    OrderedInside(n.history, |n.log|);
    forall p | 0 <= p < |n.log| ensures Origin(later, e, p) == Origin(later, EpochAt(n.history, p), p) {
      EpochAtGrows(n.history, p, p);
      FreshOrigin(births, e, b, EpochAt(n.history, p), p);
      assert b[p] == Origin(births, EpochAt(n.history, p), p);
    }
    hide Ordered, Inherited, Origin, EpochAt, Stamped;
    StampRooted(n, e, later);
  }

  lemma InheritedOk(births: Births, e: u64, n: Node)
    requires BirthsOk(births) && Monotone(n.history) && CurrentEpoch(n.history) < e
    ensures BirthsOk(births[e := Inherited(births, n)])
  {
    var b := Inherited(births, n);
    forall p | 0 <= p < |b| ensures b[p] <= e {
      EpochAtGrows(n.history, p, p);
      OriginBelow(births, EpochAt(n.history, p), p);
    }
  }

  lemma AdoptNewLine(s: Cluster, births: Births, r: Id, k: nat)
    requires Good(s, births) && Enabled(s, Adopt(r, k)) && s.published[k].leader == Some(r)
    requires s.published[k].epoch !in s.terms
    ensures Line(Apply(s, Adopt(r, k)), NextBirths(s, births, Adopt(r, k)))
  {
    var e, n := s.published[k].epoch, s.peers[r].node;
    NewEpochIsLater(s, r, k);
    NotLeadingYet(s, r, e);
    NodeOrdered(s, r);
    PositiveIn(s, k);
    OrderedInside(n.history, |n.log|);
    var t := Apply(s, Adopt(r, k));
    var later := NextBirths(s, births, Adopt(r, k));
    InheritedOk(births, e, n);
    hide BirthsOk, PeerLine, Ordered, Agrees;
    forall q | q in s.peers ensures PeerLine(t.terms, later, q, s.peers[q]) {
      FreshPeer(s, births, q, e, t.terms[e], later[e]);
    }
    hide Inv;
    NewLeaderLine(s, births, r, k, t.terms);
    AllLines(s, t, later, r);
  }

  lemma PositiveIn(s: Cluster, k: nat)
    requires Inv(s) && k < |s.published|
    ensures s.published[k].epoch > 0
  {
    hide TermsOk, LeadersSeen, PublishedOk, PeerOk;
    EpochPositive(s.published, k);
  }

  lemma NewLeaderLine(s: Cluster, births: Births, r: Id, k: nat, terms: map<u64, Term>)
    requires r in s.peers && k < |s.published|
    requires var e, n := s.published[k].epoch, s.peers[r].node;
             && Ordered(n.history, |n.log|) && e > CurrentEpoch(n.history) && e > 0
             && PeerLine(terms, births[e := Inherited(births, n)], r, s.peers[r])
    ensures var e, n := s.published[k].epoch, s.peers[r].node;
            PeerLine(terms, births[e := Inherited(births, n)], r, Peer(k, Stamped(n, e), Leading(e)))
  {
    var e, n := s.published[k].epoch, s.peers[r].node;
    hide Ordered, Inherited, Rooted, Traces, OwnStarts, Stamped;
    LeaderLine(births, e, n);
    OwnStamp(terms, births[e := Inherited(births, n)], r, n.history, e, |n.log|);
  }

  lemma AllLines(s: Cluster, t: Cluster, later: Births, r: Id)
    requires r in s.peers && r in t.peers && t.peers == s.peers[r := t.peers[r]]
    requires later.Keys == t.terms.Keys && BirthsOk(later)
    requires forall q {:trigger s.peers[q]} :: q in s.peers ==> PeerLine(t.terms, later, q, s.peers[q])
    requires PeerLine(t.terms, later, r, t.peers[r])
    ensures Line(t, later)
  {
    hide BirthsOk, PeerLine;
  }

  /** A role that is not a new epoch's leader's brings no answer. */
  lemma AdoptedRole(s: Cluster, births: Births, r: Id, k: nat)
    requires Line(s, births) && Enabled(s, Adopt(r, k))
    ensures RoleTraces(Adopted(s.peers[r], r, k, s.published[k]), births)
  {
    hide Rooted, BirthsOk, OwnStarts, Traces, Stamped;
    assert PeerLine(s.terms, births, r, s.peers[r]);
  }

  lemma AdoptLine(s: Cluster, births: Births, r: Id, k: nat)
    requires Good(s, births) && Enabled(s, Adopt(r, k))
    ensures Line(Apply(s, Adopt(r, k)), NextBirths(s, births, Adopt(r, k)))
  {
    hide Inv, Line, PeerLine, BirthsOk, Stamped;
    if s.published[k].leader == Some(r) && s.published[k].epoch !in s.terms {
      AdoptNewLine(s, births, r, k);
    } else {
      if s.published[k].leader == Some(r) {
        ResumesTerm(s, r, k);
        StampKnown(s.peers[r].node, s.published[k].epoch);
      }
      AdoptedRole(s, births, r, k);
      SameNodeLine(s, Apply(s, Adopt(r, k)), births, r);
    }
  }

  // ---------------------------------------------------------------- every run

  lemma StepLine(s: Cluster, births: Births, step: Step)
    requires Good(s, births) && Enabled(s, step) && SoundCheck(s, step) && SoundFetch(s, step)
    ensures Good(Apply(s, step), NextBirths(s, births, step))
  {
    LogAgreement.StepKeeps(s, step);
    hide Inv, Line, SoundCheck, SoundFetch;
    match step
    case Publish(m) => PublishLine(s, births, m);
    case Adopt(r, k) => AdoptLine(s, births, r, k);
    case AppendOne(r, record) => AppendLine(s, births, r, record);
    case AnswerCheck(r) => AnswerLine(s, births, r);
    case Reconcile(r) => ReconcileLine(s, births, r);
    case Deliver(r, count) => DeliverLine(s, births, r, count);
    case ArriveCheck(_) => RoleLine(s, births, step);
    case ArriveFetch(_) => RoleLine(s, births, step);
    case AnswerFetch(_, _) => RoleLine(s, births, step);
    case Stop(_) => RoleLine(s, births, step);
  }

  /** In every state of a sound run, every replica's checkpoint traces each of its records to one epoch. */
  lemma {:induction false} RunLine(s: Cluster, steps: seq<Step>, t: Cluster, births: Births) returns (b: Births)
    requires Good(s, births) && Run(s, steps, t) && SoundChecks(s, steps) && SoundFetches(s, steps)
    ensures Good(t, b)
    decreases |steps|
  {
    hide Good, SoundCheck, SoundFetch, Apply, Enabled, NextBirths;
    b := births;
    if steps != [] {
      StepLine(s, births, steps[0]);
      b := RunLine(Apply(s, steps[0]), steps[1..], t, NextBirths(s, births, steps[0]));
    }
  }

  lemma InitLine(s: Cluster)
    requires Init(s)
    ensures Good(s, map[])
  {
    InitIsGood(s);
    hide Inv;
  }

  // ---------------------------------------------------------------- what a leader wrote itself

  /** `p` lies in entry `j` of the checkpoint, an epoch that `r` led. */
  ghost predicate Wrote(terms: map<u64, Term>, r: Id, l: seq<EpochStart>, lEnd: nat, j: nat, p: nat)
    requires j < |l|
  {
    l[j].epoch in terms && terms[l[j].epoch].leader == r && l[j].start <= p < EndAt(l, j, lEnd)
  }

  lemma WroteThere(terms: map<u64, Term>, births: Births, r: Id, l: seq<EpochStart>, lEnd: nat, j: nat, p: nat, x: nat)
    requires Monotone(l) && Rooted(l, lEnd, births) && OwnStarts(terms, births, r, l) && births.Keys == terms.Keys
    requires j < |l| && x < |l| && Wrote(terms, r, l, lEnd, j, p) && p < EndAt(l, x, lEnd)
    ensures Origin(births, l[x].epoch, p) == l[j].epoch
  {
    EpochAtIs(l, p, j);
    assert Traces(l, births, l[x].epoch, EndAt(l, x, lEnd));
    hide EpochAt;
    assert l[j].start == |births[l[j].epoch]|;
  }

  /** Whatever a sound answer of a leader leaves a follower of what that leader wrote itself, in an epoch that it
      lists, the follower lists nothing earlier last. */
  lemma KeptIsLater(terms: map<u64, Term>, births: Births, r: Id, f: seq<EpochStart>, fEnd: nat,
                    l: seq<EpochStart>, lEnd: nat, e: u64, j: nat, p: nat)
    requires Ordered(f, fEnd) && Ordered(l, lEnd) && Rooted(f, fEnd, births) && Rooted(l, lEnd, births)
    requires OwnStarts(terms, births, r, l) && births.Keys == terms.Keys && BirthsOk(births)
    requires Linked(f, fEnd, l, lEnd, e, Target(f, fEnd, l, lEnd)) && l != [] && CurrentEpoch(l) == e
    requires j < |l| && Wrote(terms, r, l, lEnd, j, p) && p < Target(f, fEnd, l, lEnd)
    ensures CurrentEpoch(AfterCheck(f, fEnd, Target(f, fEnd, l, lEnd))) >= l[j].epoch
  {
    hide Ordered, KeptEntries, EpochAt, BirthsOk, Linked, Target, Wrote, AfterCheck, Monotone, Within, Rooted,
      OwnStarts, Origin, EndAt;
    var t := Target(f, fEnd, l, lEnd);
    OrderedInside(f, fEnd);
    OrderedInside(l, lEnd);
    TargetInside(f, fEnd, l, lEnd);
    LastListed(f, fEnd, t);
    EpochAtGrows(f, p, t - 1);
    OriginBelow(births, EpochAt(f, p), p);
    var x := SharedOrigin(f, fEnd, l, lEnd, e, t, births, p);
    WroteThere(terms, births, r, l, lEnd, j, p, x);
  }

  lemma LastListed(f: seq<EpochStart>, fEnd: nat, t: nat)
    requires Monotone(f) && 0 < t <= fEnd
    ensures CurrentEpoch(AfterCheck(f, fEnd, t)) >= EpochAt(f, t - 1)
  {
    hide KeptEntries;
    EpochAtGrows(f, t - 1, t - 1);
  }

  /** An entry of the answering checkpoint that gives an offset the follower's origin. */
  lemma SharedOrigin(f: seq<EpochStart>, fEnd: nat, l: seq<EpochStart>, lEnd: nat, e: u64, t: nat, births: Births,
                     p: nat) returns (x: nat)
    requires Rooted(f, fEnd, births) && Linked(f, fEnd, l, lEnd, e, t) && p < t <= lEnd
    requires l != [] && CurrentEpoch(l) == e
    ensures x < |l| && p < EndAt(l, x, lEnd)
    ensures Origin(births, l[x].epoch, p) == Origin(births, EpochAt(f, p), p)
  {
    hide EpochAt, Origin;
    if i :| 0 <= i < |f| && f[i].epoch == e && t <= EndAt(f, i, fEnd) {
      assert Traces(f, births, f[i].epoch, EndAt(f, i, fEnd));
      x := |l| - 1;
    } else {
      var i, j :| 0 <= i < |f| && 0 <= j < |l| && f[i].epoch == l[j].epoch
        && t <= EndAt(f, i, fEnd) && t <= EndAt(l, j, lEnd);
      assert Traces(f, births, f[i].epoch, EndAt(f, i, fEnd));
      x := j;
    }
  }

  /** A follower that lists nothing earlier than an entry of the leader's last is cut no further than where that
      entry ends. */
  lemma AnswerIsLater(l: seq<EpochStart>, lEnd: nat, a: u64, j: nat)
    requires Ordered(l, lEnd) && j < |l| && a >= l[j].epoch
    ensures EndOf(l, a, lEnd) >= EndAt(l, j, lEnd)
  {
    var n := CountUpTo(l, a);
    hide CountUpTo;
    assert n > j;
    if n < |l| && j + 1 < |l| {
      assert l[j + 1].start <= l[n].start;
    }
  }

  /** A second check that cuts more takes nothing that the leader wrote itself and that the first check left. */
  lemma SecondCheckKeepsOwn(terms: map<u64, Term>, births: Births, r: Id, f: seq<EpochStart>, fEnd: nat,
                            l: seq<EpochStart>, lEnd: nat, e: u64, j: nat, p: nat)
    requires Ordered(f, fEnd) && Ordered(l, lEnd) && Rooted(f, fEnd, births) && Rooted(l, lEnd, births)
    requires OwnStarts(terms, births, r, l) && births.Keys == terms.Keys && BirthsOk(births)
    requires Linked(f, fEnd, l, lEnd, e, Target(f, fEnd, l, lEnd)) && l != [] && CurrentEpoch(l) == e
    requires j < |l| && Wrote(terms, r, l, lEnd, j, p) && p < Target(f, fEnd, l, lEnd)
    ensures var t := Target(f, fEnd, l, lEnd); p < Target(AfterCheck(f, fEnd, t), t, l, lEnd)
  {
    KeptIsLater(terms, births, r, f, fEnd, l, lEnd, e, j, p);
    hide Ordered, Linked, AfterCheck, Rooted, OwnStarts, EndOf, BirthsOk;
    var t := Target(f, fEnd, l, lEnd);
    AnswerIsLater(l, lEnd, CurrentEpoch(AfterCheck(f, fEnd, t)), j);
  }
}
