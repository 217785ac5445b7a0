/** Building blocks for runs of `LogAgreement`: what one step does to one broker, whatever the others are. */
module ClusterRuns {
  import opened Wrappers
  import opened Bytes
  import opened RecordCodec
  import opened EpochHistory
  import opened Follower
  import opened EpochReconciliation
  import opened LogAgreement

  /** A run in which every answer and every read meets its condition. */
  ghost predicate SoundRun(s: Cluster, steps: seq<Step>, t: Cluster) {
    Run(s, steps, t) && SoundChecks(s, steps) && SoundFetches(s, steps)
  }

  // ---------------------------------------------------------------- putting runs together

  lemma {:induction false} RunsOn(s: Cluster, first: seq<Step>, t: Cluster, then_: seq<Step>, u: Cluster)
    requires Run(s, first, t) && Run(t, then_, u)
    ensures Run(s, first + then_, u)
    ensures SoundChecks(s, first) && SoundChecks(t, then_) ==> SoundChecks(s, first + then_)
    ensures SoundFetches(s, first) && SoundFetches(t, then_) ==> SoundFetches(s, first + then_)
    decreases |first|
  {
    hide Apply, Enabled, SoundCheck, SoundFetch;
    if first == [] {
      assert first + then_ == then_;
    } else {
      RunsOn(Apply(s, first[0]), first[1..], t, then_, u);
      assert (first + then_)[1..] == first[1..] + then_;
    }
  }

  lemma RunOne(s: Cluster, x: Step, t: Cluster)
    requires Enabled(s, x) && t == Apply(s, x)
    ensures Run(s, [x], t)
    ensures SoundCheck(s, x) ==> SoundChecks(s, [x])
    ensures SoundFetch(s, x) ==> SoundFetches(s, [x])
  {
    hide Apply, Enabled, SoundCheck, SoundFetch;
    assert Run(t, [], t);
  }

  /** One more step. */
  lemma RunMore(s: Cluster, steps: seq<Step>, t: Cluster, x: Step, u: Cluster)
    requires Run(s, steps, t) && Enabled(t, x) && u == Apply(t, x)
    ensures Run(s, steps + [x], u)
    ensures SoundChecks(s, steps) && SoundCheck(t, x) ==> SoundChecks(s, steps + [x])
    ensures SoundFetches(s, steps) && SoundFetch(t, x) ==> SoundFetches(s, steps + [x])
  {
    RunOne(t, x, u);
    hide Apply, Enabled, Run, SoundChecks, SoundFetches, SoundCheck, SoundFetch;
    RunsOn(s, steps, t, [x], u);
  }

  lemma SoundMore(s: Cluster, steps: seq<Step>, t: Cluster, x: Step, u: Cluster)
    requires SoundRun(s, steps, t) && Enabled(t, x) && u == Apply(t, x) && SoundCheck(t, x) && SoundFetch(t, x)
    ensures SoundRun(s, steps + [x], u)
  {
    hide Apply, Enabled, Run, SoundChecks, SoundFetches, SoundCheck, SoundFetch;
    RunMore(s, steps, t, x, u);
  }

  lemma SoundOn(s: Cluster, first: seq<Step>, t: Cluster, then_: seq<Step>, u: Cluster)
    requires SoundRun(s, first, t) && SoundRun(t, then_, u)
    ensures SoundRun(s, first + then_, u)
  {
    hide Run, SoundChecks, SoundFetches;
    RunsOn(s, first, t, then_, u);
  }

  /** Only answers and reads carry a condition. */
  lemma Harmless(s: Cluster, x: Step)
    ensures !x.AnswerCheck? ==> SoundCheck(s, x)
    ensures !x.AnswerFetch? ==> SoundFetch(s, x)
  {
    hide Enabled;
  }

  lemma WithTwice(s: Cluster, r: Id, p: Peer, q: Peer)
    ensures With(With(s, r, p), r, q) == With(s, r, q)
  {
  }

  // ---------------------------------------------------------------- one step of one broker

  lemma Publishes(s: Cluster, m: Meta)
    requires m.epoch > 0 && (s.published != [] ==> Succeeds(s.published[|s.published| - 1], m))
    ensures Enabled(s, Publish(m)) && Apply(s, Publish(m)) == s.(published := s.published + [m])
  {
  }

  /** A broker begins to lead an epoch that nobody has led. */
  lemma Leads1(s: Cluster, r: Id, k: nat, p: Peer)
    requires r in s.peers && s.peers[r].view <= k < |s.published| && s.published[k].leader == Some(r)
    requires !Leads(s.peers[r], s.published[k].epoch) && s.published[k].epoch !in s.terms
    requires p == Peer(k, Stamped(s.peers[r].node, s.published[k].epoch), Leading(s.published[k].epoch))
    ensures Enabled(s, Adopt(r, k))
    ensures Apply(s, Adopt(r, k)) == With(s.(terms := s.terms[s.published[k].epoch := Term(r, p.node.log)]), r, p)
  {
    hide Stamped;
  }

  lemma Writes(s: Cluster, r: Id, e: u64, record: Record, p: Peer)
    requires r in s.peers && s.peers[r].role == Leading(e) && e in s.terms && |s.peers[r].node.log| + 1 < U64_RANGE
    requires p == s.peers[r].(node := NodeData(s.peers[r].node.log + [record], s.peers[r].node.history))
    ensures Enabled(s, AppendOne(r, record))
    ensures Apply(s, AppendOne(r, record))
         == With(s.(terms := s.terms[e := Term(s.terms[e].leader, s.terms[e].log + [record])]), r, p)
  {
  }

  lemma Turns(s: Cluster, r: Id, k: nat, e: u64, l: Id)
    requires r in s.peers && s.peers[r].view <= k < |s.published| && s.published[k] == Meta(e, Some(l)) && l != r
    requires !(IsFollower(s.peers[r].role) && s.peers[r].role.epoch == e)
    ensures Enabled(s, Adopt(r, k))
    ensures Apply(s, Adopt(r, k)) == With(s, r, Peer(k, s.peers[r].node, Reconciling(e, l, false, None)))
  {
  }

  lemma Asks(s: Cluster, r: Id, e: u64, l: Id)
    requires r in s.peers && s.peers[r].role == Reconciling(e, l, false, None)
    requires l in s.peers && s.peers[l].role.Leading?
    ensures Enabled(s, ArriveCheck(r))
    ensures Apply(s, ArriveCheck(r)) == With(s, r, s.peers[r].(role := Reconciling(e, l, true, None)))
  {
  }

  lemma Answers(s: Cluster, r: Id, e: u64, l: Id, x: nat)
    requires r in s.peers && s.peers[r].role == Reconciling(e, l, true, None) && l in s.peers
    requires x == EndOf(s.peers[l].node.history, CurrentEpoch(s.peers[r].node.history), |s.peers[l].node.log|)
    ensures Enabled(s, AnswerCheck(r))
    ensures Apply(s, AnswerCheck(r)) == With(s, r, s.peers[r].(role := Reconciling(e, l, true, Some(x))))
    ensures SoundCheck(s, AnswerCheck(r))
            <==> SoundAnswer(s.peers[r].node.history, |s.peers[r].node.log|, s.peers[l].node.history,
                             |s.peers[l].node.log|, e)
  {
    hide EndOf, SoundAnswer;
  }

  lemma Cuts(s: Cluster, r: Id, e: u64, l: Id, x: nat)
    requires r in s.peers && s.peers[r].role == Reconciling(e, l, true, Some(x))
    ensures Enabled(s, Reconcile(r))
    ensures var p := s.peers[r];
            Apply(s, Reconcile(r)) == With(s, r, Peer(p.view, Reconciled(p.node, x),
                                                      Fetching(e, l, CurrentEpoch(p.node.history), false, None)))
  {
    hide Reconciled;
  }

  lemma LetsIn(s: Cluster, r: Id, e: u64, l: Id, local: u64)
    requires r in s.peers && s.peers[r].role == Fetching(e, l, local, false, None)
    requires l in s.peers && Leads(s.peers[l], e)
    ensures Enabled(s, ArriveFetch(r))
    ensures Apply(s, ArriveFetch(r)) == With(s, r, s.peers[r].(role := Fetching(e, l, local, true, None)))
  {
  }

  lemma Reads(s: Cluster, r: Id, e: u64, l: Id, local: u64, records: seq<Record>)
    requires r in s.peers && s.peers[r].role == Fetching(e, l, local, true, None) && l in s.peers
    requires var end := |s.peers[r].node.log|;
             end + |records| <= |s.peers[l].node.log| && records == s.peers[l].node.log[end..end + |records|]
    ensures Enabled(s, AnswerFetch(r, |records|))
    ensures Apply(s, AnswerFetch(r, |records|))
         == With(s, r, s.peers[r].(role := Fetching(e, l, local, true,
                                                    Some(FetchResponse(|s.peers[r].node.log|, records)))))
    ensures |records| > 0 ==>
              (SoundFetch(s, AnswerFetch(r, |records|))
               <==> Covers(s.peers[l].node.history, |s.peers[l].node.log|, e, |s.peers[r].node.log| + |records|))
  {
    hide Covers;
  }

  lemma Takes(s: Cluster, r: Id, e: u64, l: Id, local: u64, records: seq<Record>)
    requires r in s.peers && |s.peers[r].node.log| + |records| < U64_RANGE
    requires s.peers[r].role == Fetching(e, l, local, true, Some(FetchResponse(|s.peers[r].node.log|, records)))
    ensures Enabled(s, Deliver(r, |records|))
    ensures Apply(s, Deliver(r, |records|))
         == With(s, r, Peer(s.peers[r].view, Fetched(s.peers[r].node, local, e, records, |records|),
                            Fetching(e, l, if e > local then e else local, false, None)))
  {
    hide Fetched;
  }

  // ---------------------------------------------------------------- a follower at work

  function Joining(r: Id, k: nat): seq<Step> { [Adopt(r, k), ArriveCheck(r), AnswerCheck(r), Reconcile(r)] }

  /** A broker turns to a leader and reconciles. */
  lemma Joins(s: Cluster, r: Id, k: nat, e: u64, l: Id, x: nat) returns (t: Cluster)
    requires r in s.peers && s.peers[r].view <= k < |s.published| && s.published[k] == Meta(e, Some(l)) && l != r
    requires !(IsFollower(s.peers[r].role) && s.peers[r].role.epoch == e)
    requires l in s.peers && s.peers[l].role.Leading?
    requires x == EndOf(s.peers[l].node.history, CurrentEpoch(s.peers[r].node.history), |s.peers[l].node.log|)
    ensures var n := s.peers[r].node;
            t == With(s, r, Peer(k, Reconciled(n, x), Fetching(e, l, CurrentEpoch(n.history), false, None)))
    ensures Run(s, Joining(r, k), t) && SoundFetches(s, Joining(r, k))
    ensures var f, g := s.peers[r].node, s.peers[l].node;
            SoundAnswer(f.history, |f.log|, g.history, |g.log|, e) ==> SoundChecks(s, Joining(r, k))
  {
    hide Apply, Enabled, Run, SoundChecks, SoundFetches, SoundCheck, SoundFetch, EndOf, Reconciled, SoundAnswer, With;
    var n := s.peers[r].node;
    var a := With(s, r, Peer(k, n, Reconciling(e, l, false, None)));
    var b := With(s, r, Peer(k, n, Reconciling(e, l, true, None)));
    var c := With(s, r, Peer(k, n, Reconciling(e, l, true, Some(x))));
    t := With(s, r, Peer(k, Reconciled(n, x), Fetching(e, l, CurrentEpoch(n.history), false, None)));
    Peers(s, r, l, Peer(k, n, Reconciling(e, l, false, None)));
    Peers(s, r, l, Peer(k, n, Reconciling(e, l, true, None)));
    Peers(s, r, l, Peer(k, n, Reconciling(e, l, true, Some(x))));
    Turns(s, r, k, e, l);
    Asks(a, r, e, l);
    WithTwice(s, r, a.peers[r], b.peers[r]);
    Answers(b, r, e, l, x);
    WithTwice(s, r, b.peers[r], c.peers[r]);
    Cuts(c, r, e, l, x);
    WithTwice(s, r, c.peers[r],
              Peer(k, Reconciled(n, x), Fetching(e, l, CurrentEpoch(n.history), false, None)));
    FourSteps(s, Adopt(r, k), a, ArriveCheck(r), b, AnswerCheck(r), c, Reconcile(r), t);
    Harmless(s, Adopt(r, k));
    Harmless(a, ArriveCheck(r));
    Harmless(b, AnswerCheck(r));
    Harmless(c, Reconcile(r));
  }

  lemma Peers(s: Cluster, r: Id, l: Id, p: Peer)
    requires l in s.peers && l != r
    ensures r in With(s, r, p).peers && With(s, r, p).peers[r] == p
    ensures l in With(s, r, p).peers && With(s, r, p).peers[l] == s.peers[l]
  {
  }

  lemma FourSteps(s: Cluster, x: Step, a: Cluster, y: Step, b: Cluster, z: Step, c: Cluster, w: Step, t: Cluster)
    requires Enabled(s, x) && Apply(s, x) == a && Enabled(a, y) && Apply(a, y) == b
    requires Enabled(b, z) && Apply(b, z) == c && Enabled(c, w) && Apply(c, w) == t
    ensures Run(s, [x, y, z, w], t)
    ensures SoundCheck(s, x) && SoundCheck(a, y) && SoundCheck(b, z) && SoundCheck(c, w) ==>
              SoundChecks(s, [x, y, z, w])
    ensures SoundFetch(s, x) && SoundFetch(a, y) && SoundFetch(b, z) && SoundFetch(c, w) ==>
              SoundFetches(s, [x, y, z, w])
  {
    RunOne(s, x, a);
    hide Apply, Enabled, Run, SoundChecks, SoundFetches, SoundCheck, SoundFetch;
    RunMore(s, [x], a, y, b);
    assert [x] + [y] == [x, y];
    RunMore(s, [x, y], b, z, c);
    assert [x, y] + [z] == [x, y, z];
    RunMore(s, [x, y, z], c, w, t);
    assert [x, y, z] + [w] == [x, y, z, w];
  }

  function Copying(r: Id, count: nat): seq<Step> { [ArriveFetch(r), AnswerFetch(r, count), Deliver(r, count)] }

  /** A follower copies the next records of a leader that leads. */
  lemma Copies(s: Cluster, r: Id, e: u64, l: Id, local: u64, records: seq<Record>) returns (t: Cluster)
    requires r in s.peers && s.peers[r].role == Fetching(e, l, local, false, None) && l != r
    requires l in s.peers && Leads(s.peers[l], e) && s.peers[l].node.history != []
    requires CurrentEpoch(s.peers[l].node.history) == e && |records| > 0
    requires var end := |s.peers[r].node.log|;
             && end + |records| <= |s.peers[l].node.log| && records == s.peers[l].node.log[end..end + |records|]
             && end + |records| < U64_RANGE
    ensures var p := s.peers[r];
            t == With(s, r, Peer(p.view, Fetched(p.node, local, e, records, |records|),
                                 Fetching(e, l, if e > local then e else local, false, None)))
    ensures SoundRun(s, Copying(r, |records|), t)
  {
    hide Apply, Enabled, Run, SoundChecks, SoundFetches, SoundCheck, SoundFetch, Fetched, Covers, With;
    var p := s.peers[r];
    var asked := p.(role := Fetching(e, l, local, true, None));
    var told := p.(role := Fetching(e, l, local, true, Some(FetchResponse(|p.node.log|, records))));
    var a, b := With(s, r, asked), With(s, r, told);
    Peers(s, r, l, asked);
    Peers(s, r, l, told);
    LetsIn(s, r, e, l, local);
    Reads(a, r, e, l, local, records);
    WithTwice(s, r, asked, told);
    Takes(b, r, e, l, local, records);
    var done := Peer(p.view, Fetched(p.node, local, e, records, |records|),
                     Fetching(e, l, if e > local then e else local, false, None));
    t := With(s, r, done);
    WithTwice(s, r, told, done);
    LastCoversAll([], 0, s.peers[l].node.history, |s.peers[l].node.log|, e, |p.node.log| + |records|);
    Harmless(s, ArriveFetch(r));
    Harmless(a, AnswerFetch(r, |records|));
    Harmless(b, Deliver(r, |records|));
    ThreeSteps(s, ArriveFetch(r), a, AnswerFetch(r, |records|), b, Deliver(r, |records|), t);
  }

  lemma ThreeSteps(s: Cluster, x: Step, a: Cluster, y: Step, b: Cluster, z: Step, t: Cluster)
    requires Enabled(s, x) && Apply(s, x) == a && Enabled(a, y) && Apply(a, y) == b
    requires Enabled(b, z) && Apply(b, z) == t
    requires SoundCheck(s, x) && SoundCheck(a, y) && SoundCheck(b, z)
    requires SoundFetch(s, x) && SoundFetch(a, y) && SoundFetch(b, z)
    ensures SoundRun(s, [x, y, z], t)
  {
    RunOne(s, x, a);
    hide Apply, Enabled, Run, SoundChecks, SoundFetches, SoundCheck, SoundFetch;
    RunMore(s, [x], a, y, b);
    assert [x] + [y] == [x, y];
    RunMore(s, [x, y], b, z, t);
    assert [x, y] + [z] == [x, y, z];
  }

  // ---------------------------------------------------------------- a leader at work

  /** The controller names a broker that has led no such epoch, and it begins to lead. */
  lemma Starts(s: Cluster, r: Id, e: u64, n: Node) returns (t: Cluster)
    requires r in s.peers && s.peers[r].view <= |s.published| && e > 0 && e !in s.terms && !Leads(s.peers[r], e)
    requires s.published != [] ==> Succeeds(s.published[|s.published| - 1], Meta(e, Some(r)))
    requires n == Stamped(s.peers[r].node, e)
    ensures var m := Meta(e, Some(r));
            && t == Cluster(s.published + [m], s.peers[r := Peer(|s.published|, n, Leading(e))],
                            s.terms[e := Term(r, n.log)])
            && SoundRun(s, [Publish(m), Adopt(r, |s.published|)], t)
  {
    hide Apply, Enabled, Run, SoundChecks, SoundFetches, SoundCheck, SoundFetch, Stamped;
    var m, k := Meta(e, Some(r)), |s.published|;
    Publishes(s, m);
    var a := s.(published := s.published + [m]);
    var p := Peer(k, n, Leading(e));
    Leads1(a, r, k, p);
    t := Cluster(s.published + [m], s.peers[r := p], s.terms[e := Term(r, n.log)]);
    RunOne(s, Publish(m), a);
    Harmless(s, Publish(m));
    Harmless(a, Adopt(r, k));
    RunMore(s, [Publish(m)], a, Adopt(r, k), t);
    assert [Publish(m)] + [Adopt(r, k)] == [Publish(m), Adopt(r, k)];
  }

  /** ... and appends a record. */
  lemma StartsAndWrites(s: Cluster, r: Id, e: u64, record: Record, n: Node) returns (t: Cluster)
    requires r in s.peers && s.peers[r].view <= |s.published| && e > 0 && e !in s.terms && !Leads(s.peers[r], e)
    requires s.published != [] ==> Succeeds(s.published[|s.published| - 1], Meta(e, Some(r)))
    requires n == Stamped(s.peers[r].node, e) && |n.log| + 1 < U64_RANGE
    ensures var m := Meta(e, Some(r));
            && t == Cluster(s.published + [m],
                            s.peers[r := Peer(|s.published|, NodeData(n.log + [record], n.history), Leading(e))],
                            s.terms[e := Term(r, n.log + [record])])
            && SoundRun(s, [Publish(m), Adopt(r, |s.published|), AppendOne(r, record)], t)
  {
    hide Apply, Enabled, Run, SoundChecks, SoundFetches, SoundCheck, SoundFetch, Stamped;
    var m, k := Meta(e, Some(r)), |s.published|;
    var a := Starts(s, r, e, n);
    var p := Peer(k, NodeData(n.log + [record], n.history), Leading(e));
    Writes(a, r, e, record, p);
    t := Cluster(s.published + [m], s.peers[r := p], s.terms[e := Term(r, n.log + [record])]);
    assert t.peers == a.peers[r := p];
    assert t.terms == a.terms[e := Term(r, n.log + [record])];
    Harmless(a, AppendOne(r, record));
    SoundMore(s, [Publish(m), Adopt(r, k)], a, AppendOne(r, record), t);
    assert [Publish(m), Adopt(r, k)] + [AppendOne(r, record)] == [Publish(m), Adopt(r, k), AppendOne(r, record)];
  }

  /** An answer that leaves a follower of another epoch nothing is always good. */
  lemma NothingKept(f: seq<EpochStart>, fEnd: nat, l: seq<EpochStart>, lEnd: nat, e: u64)
    requires CurrentEpoch(f) != e && (fEnd == 0 || EndOf(l, CurrentEpoch(f), lEnd) == 0)
    ensures SoundAnswer(f, fEnd, l, lEnd, e)
  {
    hide EndOf;
  }
}
