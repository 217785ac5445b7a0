/** Three runs from an empty cluster that show what `LogAgreement` and `EpochReconciliation` cannot promise. In the
    first the leader does not list the follower's last epoch, answers with the end of an older one, and the follower
    keeps a record that the leader never had. In the second a fetch is let in while its leader leads, and read after
    the leader has become a follower of the next epoch. In the third every condition is met, and a follower that
    asks twice loses a record that it has and its leader has. */
module LogDivergence {
  import opened Wrappers
  import opened Bytes
  import opened RecordCodec
  import opened EpochHistory
  import opened Follower
  import opened EpochReconciliation
  import opened LogAgreement
  import opened ClusterRuns

  const B: Id := 2
  const C: Id := 3
  const D: Id := 4
  const X: Record := Record(0, 0, None, [])
  const Y: Record := Record(0, 1, None, [])
  const Z: Record := Record(1, 0, None, [])

  const FRESH := Peer(0, NodeData([], []), Idle)

  function Two(ms: seq<Meta>, b: Peer, c: Peer, terms: map<u64, Term>): Cluster {
    Cluster(ms, map[B := b, C := c], terms)
  }

  function Start(): Cluster { Two([], FRESH, FRESH, map[]) }

  lemma StampFresh(log: seq<Record>, h: seq<EpochStart>, e: u64)
    requires |log| < U64_RANGE && e > CurrentEpoch(h) && (h != [] ==> h[|h| - 1].start <= |log|)
    ensures Stamped(NodeData(log, h), e) == NodeData(log, h + [EpochStart(e, |log|)])
  {
  }

  // ---------------------------------------------------------------- an answer that keeps too much

  const M1 := Meta(1, Some(C))
  const M2 := Meta(2, Some(B))
  const M3 := Meta(3, Some(C))
  const C1 := Peer(0, NodeData([X], [EpochStart(1, 0)]), Leading(1))
  const B2 := Peer(1, NodeData([Y], [EpochStart(2, 0)]), Leading(2))
  const C3 := Peer(2, NodeData([X], [EpochStart(1, 0), EpochStart(3, 1)]), Leading(3))
  const B3 := Peer(2, B2.node, Fetching(3, C, 2, false, None))
  const TERM1: map<u64, Term> := map[1 := Term(C, [X])]
  const TERMS2: map<u64, Term> := map[1 := Term(C, [X]), 2 := Term(B, [Y])]
  const TERMS3: map<u64, Term> := map[1 := Term(C, [X]), 2 := Term(B, [Y]), 3 := Term(C, [X])]

  function Mid1(): Cluster { Two([M1], FRESH, C1, TERM1) }
  function Mid2(): Cluster { Two([M1, M2], B2, C1, TERMS2) }
  function Mid3(): Cluster { Two([M1, M2, M3], B2, C3, TERMS3) }
  function End(): Cluster { Two([M1, M2, M3], B3, C3, TERMS3) }

  /** C leads epoch 1 and appends X, which nobody fetches. */
  lemma Epoch1() returns (steps: seq<Step>)
    ensures SoundRun(Start(), steps, Mid1()) && forall x :: x in steps ==> !x.Stop?
  {
    StampFresh([], [], 1);
    hide SoundRun, Stamped;
    var t := StartsAndWrites(Start(), C, 1, X, NodeData([], [EpochStart(1, 0)]));
    assert [] + [X] == [X] && [] + [M1] == [M1] && t.peers == Mid1().peers && t.terms == TERM1;
    steps := [Publish(M1), Adopt(C, 0), AppendOne(C, X)];
  }

  /** B leads epoch 2 from an empty log and appends Y. */
  lemma Epoch2() returns (steps: seq<Step>)
    ensures SoundRun(Mid1(), steps, Mid2()) && forall x :: x in steps ==> !x.Stop?
  {
    StampFresh([], [], 2);
    hide SoundRun, Stamped;
    var t := StartsAndWrites(Mid1(), B, 2, Y, NodeData([], [EpochStart(2, 0)]));
    assert [] + [Y] == [Y] && [M1] + [M2] == [M1, M2] && t.peers == Mid2().peers && t.terms == TERMS2;
    steps := [Publish(M2), Adopt(B, 1), AppendOne(B, Y)];
  }

  /** C, back from epoch 1, leads epoch 3. */
  lemma Epoch3() returns (steps: seq<Step>)
    ensures SoundRun(Mid2(), steps, Mid3())
  {
    StampFresh([X], [EpochStart(1, 0)], 3);
    hide SoundRun, Stamped;
    var t := Starts(Mid2(), C, 3, C3.node);
    assert [M1, M2] + [M3] == [M1, M2, M3] && t.peers == Mid3().peers && t.terms == TERMS3;
    steps := [Publish(M3), Adopt(C, 2)];
  }

  /** B follows, asks where epoch 2 ended, is told where epoch 1 did, and cuts nothing. */
  lemma Follow3()
    ensures Run(Mid3(), Joining(B, 2), End()) && SoundFetches(Mid3(), Joining(B, 2))
  {
    CountUpToIs(C3.node.history, 2, 1);
    hide CountUpTo, Run, SoundFetches, SoundChecks;
    assert EndOf(C3.node.history, 2, 1) == 1;
    hide EndOf;
    var t := Joins(Mid3(), B, 2, 3, C, 1);
    assert t.peers == End().peers;
  }

  /** Without the condition on the epoch check, a follower that has reconciled can hold a record that its
      leader does not. */
  lemma Divergence() returns (s: Cluster, steps: seq<Step>, t: Cluster)
    ensures Init(s) && Run(s, steps, t)
    ensures B in t.peers && C in t.peers && Leads(t.peers[C], 3)
    ensures t.peers[B].role == Fetching(3, C, 2, false, None)
    ensures |t.peers[B].node.log| == |t.peers[C].node.log| && !(t.peers[B].node.log <= t.peers[C].node.log)
    ensures SoundFetches(s, steps) && !SoundChecks(s, steps)
  {
    hide Run, SoundChecks, SoundFetches;
    s, t := Start(), End();
    assert t.peers[B].node.log[0] == Y && t.peers[C].node.log[0] == X && t.terms[3].log == [X];
    var one := Epoch1();
    var two := Epoch2();
    var three := Epoch3();
    Follow3();
    hide Start, Mid1, Mid2, Mid3, End;
    SoundOn(Start(), one, Mid1(), two, Mid2());
    SoundOn(Start(), one + two, Mid2(), three, Mid3());
    RunsOn(Start(), one + two + three, Mid3(), Joining(B, 2), End());
    steps := one + two + three + Joining(B, 2);
    if SoundChecks(s, steps) {
      Agreement(s, steps, t);
    }
  }

  // ---------------------------------------------------------------- a read that comes late

  const N1 := Meta(1, Some(B))
  const N2 := Meta(2, Some(D))
  const LED: seq<EpochStart> := [EpochStart(1, 0)]
  const LED2: seq<EpochStart> := [EpochStart(1, 0), EpochStart(2, 0)]
  const B1 := Peer(0, NodeData([], LED), Leading(1))
  const D2 := Peer(1, NodeData([Y], [EpochStart(2, 0)]), Leading(2))
  const BEHIND := Peer(1, NodeData([], LED), Fetching(2, D, 1, false, None))
  const AHEAD := Peer(1, NodeData([Y], LED2), Fetching(2, D, 2, false, None))
  const WAITS := Peer(0, NodeData([], []), Fetching(1, B, 0, true, None))
  const TOLD := Peer(0, NodeData([], []), Fetching(1, B, 0, true, Some(FetchResponse(0, [Y]))))
  const MISLED := Peer(0, NodeData([Y], LED), Fetching(1, B, 1, false, None))
  const ONE: map<u64, Term> := map[1 := Term(B, [])]
  const BOTH: map<u64, Term> := map[1 := Term(B, []), 2 := Term(D, [Y])]

  function Three(ms: seq<Meta>, b: Peer, c: Peer, d: Peer, terms: map<u64, Term>): Cluster {
    Cluster(ms, map[B := b, C := c, D := d], terms)
  }

  /** B leads epoch 1; C follows, and its first fetch is let in. */
  lemma LetIn() returns (steps: seq<Step>)
    ensures SoundRun(Three([], FRESH, FRESH, FRESH, map[]), steps, Three([N1], B1, WAITS, FRESH, ONE))
  {
    var s, led := Three([], FRESH, FRESH, FRESH, map[]), Three([N1], B1, FRESH, FRESH, ONE);
    var joined := Three([N1], B1, Peer(0, NodeData([], []), Fetching(1, B, 0, false, None)), FRESH, ONE);
    FirstLead(s, led);
    FirstJoin(led, joined);
    FirstFetch(joined);
    hide SoundRun, Three;
    SoundOn(s, [Publish(N1), Adopt(B, 0)], led, Joining(C, 0), joined);
    SoundOn(s, [Publish(N1), Adopt(B, 0)] + Joining(C, 0), joined, [ArriveFetch(C)],
            Three([N1], B1, WAITS, FRESH, ONE));
    steps := [Publish(N1), Adopt(B, 0)] + Joining(C, 0) + [ArriveFetch(C)];
  }

  lemma FirstLead(s: Cluster, led: Cluster)
    requires s == Three([], FRESH, FRESH, FRESH, map[]) && led == Three([N1], B1, FRESH, FRESH, ONE)
    ensures SoundRun(s, [Publish(N1), Adopt(B, 0)], led)
  {
    StampFresh([], [], 1);
    hide SoundRun, Stamped;
    var t := Starts(s, B, 1, NodeData([], LED));
    assert [] + [N1] == [N1] && t.peers == led.peers && t.terms == ONE;
  }

  lemma FirstFetch(joined: Cluster)
    requires joined == Three([N1], B1, Peer(0, NodeData([], []), Fetching(1, B, 0, false, None)), FRESH, ONE)
    ensures SoundRun(joined, [ArriveFetch(C)], Three([N1], B1, WAITS, FRESH, ONE))
  {
    LetsIn(joined, C, 1, B, 0);
    assert With(joined, C, WAITS).peers == map[B := B1, C := WAITS, D := FRESH];
    hide Apply, Enabled, Run, SoundCheck, SoundFetch, SoundChecks, SoundFetches;
    RunOne(joined, ArriveFetch(C), Three([N1], B1, WAITS, FRESH, ONE));
    Harmless(joined, ArriveFetch(C));
  }

  lemma FirstJoin(led: Cluster, joined: Cluster)
    requires led == Three([N1], B1, FRESH, FRESH, ONE)
    requires joined == Three([N1], B1, Peer(0, NodeData([], []), Fetching(1, B, 0, false, None)), FRESH, ONE)
    ensures SoundRun(led, Joining(C, 0), joined)
  {
    assert EndOf(LED, 0, 0) == 0;
    NothingKept([], 0, LED, 0, 1);
    hide Run, SoundChecks, SoundFetches, EndOf, SoundAnswer;
    var t := Joins(led, C, 0, 1, B, 0);
    assert t.peers == joined.peers;
  }

  /** D leads epoch 2 and writes Y, which B fetches. C's fetch still waits. */
  lemma MoveOn() returns (steps: seq<Step>)
    ensures SoundRun(Three([N1], B1, WAITS, FRESH, ONE), steps, Three([N1, N2], AHEAD, WAITS, D2, BOTH))
  {
    var s, led := Three([N1], B1, WAITS, FRESH, ONE), Three([N1, N2], B1, WAITS, D2, BOTH);
    StampFresh([], [], 2);
    hide Run, SoundChecks, SoundFetches, Stamped;
    var t := StartsAndWrites(s, D, 2, Y, NodeData([], [EpochStart(2, 0)]));
    assert [] + [Y] == [Y] && [N1] + [N2] == [N1, N2] && t.peers == led.peers && t.terms == BOTH;
    Turn2();
    Copy2();
    var first := [Publish(N2), Adopt(D, 1), AppendOne(D, Y)];
    hide Three;
    SoundOn(s, first, led, Joining(B, 1), Three([N1, N2], BEHIND, WAITS, D2, BOTH));
    SoundOn(s, first + Joining(B, 1), Three([N1, N2], BEHIND, WAITS, D2, BOTH), Copying(B, 1),
            Three([N1, N2], AHEAD, WAITS, D2, BOTH));
    steps := first + Joining(B, 1) + Copying(B, 1);
  }

  lemma Turn2()
    ensures SoundRun(Three([N1, N2], B1, WAITS, D2, BOTH), Joining(B, 1), Three([N1, N2], BEHIND, WAITS, D2, BOTH))
  {
    assert EndOf(D2.node.history, 1, 1) == 0;
    NothingKept(LED, 0, D2.node.history, 1, 2);
    hide Run, SoundChecks, SoundFetches, EndOf, SoundAnswer;
    var t := Joins(Three([N1, N2], B1, WAITS, D2, BOTH), B, 1, 2, D, 0);
    assert t.peers == map[B := BEHIND, C := WAITS, D := D2];
  }

  lemma Copy2()
    ensures SoundRun(Three([N1, N2], BEHIND, WAITS, D2, BOTH), Copying(B, 1), Three([N1, N2], AHEAD, WAITS, D2, BOTH))
  {
    StampFresh([], LED, 2);
    assert Fetched(BEHIND.node, 1, 2, [Y], 1) == AHEAD.node by {
      assert [] + [Y][..1] == [Y];
    }
    hide SoundRun, Fetched;
    assert [Y][0..1] == [Y];
    var t := Copies(Three([N1, N2], BEHIND, WAITS, D2, BOTH), B, 2, D, 1, [Y]);
    assert t.peers == map[B := AHEAD, C := WAITS, D := D2];
  }

  /** B reads its log for C's fetch of epoch 1, and finds what D wrote in epoch 2. */
  lemma ReadLate() returns (steps: seq<Step>)
    ensures var s, t := Three([N1, N2], AHEAD, WAITS, D2, BOTH), Three([N1, N2], AHEAD, MISLED, D2, BOTH);
            Run(s, steps, t) && SoundChecks(s, steps)
  {
    var s, t := Three([N1, N2], AHEAD, WAITS, D2, BOTH), Three([N1, N2], AHEAD, MISLED, D2, BOTH);
    var m := Three([N1, N2], AHEAD, TOLD, D2, BOTH);
    IsTold();
    IsMisled();
    hide Run, SoundChecks, SoundFetches, SoundCheck, SoundFetch, Apply, Enabled, Three;
    RunOne(s, AnswerFetch(C, 1), m);
    RunMore(s, [AnswerFetch(C, 1)], m, Deliver(C, 1), t);
    Harmless(s, AnswerFetch(C, 1));
    Harmless(m, Deliver(C, 1));
    steps := [AnswerFetch(C, 1)] + [Deliver(C, 1)];
  }

  lemma IsTold()
    ensures var s, t := Three([N1, N2], AHEAD, WAITS, D2, BOTH), Three([N1, N2], AHEAD, TOLD, D2, BOTH);
            Enabled(s, AnswerFetch(C, 1)) && Apply(s, AnswerFetch(C, 1)) == t
  {
    var s, t := Three([N1, N2], AHEAD, WAITS, D2, BOTH), Three([N1, N2], AHEAD, TOLD, D2, BOTH);
    hide SoundFetch, Apply, Enabled;
    assert [Y][0..1] == [Y];
    Reads(s, C, 1, B, 0, [Y]);
    assert With(s, C, TOLD).peers == t.peers;
  }

  lemma IsMisled()
    ensures var s, t := Three([N1, N2], AHEAD, TOLD, D2, BOTH), Three([N1, N2], AHEAD, MISLED, D2, BOTH);
            Enabled(s, Deliver(C, 1)) && Apply(s, Deliver(C, 1)) == t
  {
    var s, t := Three([N1, N2], AHEAD, TOLD, D2, BOTH), Three([N1, N2], AHEAD, MISLED, D2, BOTH);
    StampFresh([], [], 1);
    assert Fetched(WAITS.node, 0, 1, [Y], 1) == MISLED.node by {
      assert [] + [Y][..1] == [Y];
    }
    hide Fetched, Apply, Enabled;
    Takes(s, C, 1, B, 0, [Y]);
    assert With(s, C, MISLED).peers == t.peers;
  }

  /** Without the condition on reads, a follower can take a record of a later epoch for one of its own: every
      epoch check met its condition, and the follower lists under epoch 1 what epoch 1's leader never wrote. */
  lemma LateRead() returns (s: Cluster, steps: seq<Step>, t: Cluster)
    ensures Init(s) && Run(s, steps, t)
    ensures C in t.peers && t.peers[C].role == Fetching(1, B, 1, false, None) && t.peers[C].node.history == LED
    ensures 1 in t.terms && !(t.peers[C].node.log <= t.terms[1].log)
    ensures SoundChecks(s, steps) && !SoundFetches(s, steps)
  {
    hide Run, SoundChecks, SoundFetches;
    s, t := Three([], FRESH, FRESH, FRESH, map[]), Three([N1, N2], AHEAD, MISLED, D2, BOTH);
    assert t.peers[C].node.log == [Y] && t.terms[1].log == [];
    var first := LetIn();
    var second := MoveOn();
    var third := ReadLate();
    var mid, moved := Three([N1], B1, WAITS, FRESH, ONE), Three([N1, N2], AHEAD, WAITS, D2, BOTH);
    hide Three;
    SoundOn(s, first, mid, second, moved);
    RunsOn(s, first + second, moved, third, t);
    steps := first + second + third;
    if SoundFetches(s, steps) {
      Agreement(s, steps, t);
    }
  }

  // ---------------------------------------------------------------- asking twice

  const P2 := Meta(2, Some(C))
  const P3 := Meta(3, Some(B))
  const C2 := Peer(1, NodeData([X, Z], [EpochStart(1, 0), EpochStart(2, 1)]), Leading(2))
  const B2EMPTY := Peer(1, NodeData([], []), Fetching(2, C, 0, false, None))
  const B2COPY := Peer(1, NodeData([X], [EpochStart(2, 0)]), Fetching(2, C, 2, false, None))
  const B3LEADS := Peer(2, NodeData([X], [EpochStart(2, 0), EpochStart(3, 1)]), Leading(3))
  const CUT1 := Peer(2, NodeData([X], [EpochStart(1, 0)]), Fetching(3, B, 2, false, None))
  const CUT2 := Peer(2, NodeData([], []), Fetching(3, B, 1, false, None))
  const TWO: map<u64, Term> := map[1 := Term(C, [X]), 2 := Term(C, [X, Z])]
  const ALL: map<u64, Term> := map[1 := Term(C, [X]), 2 := Term(C, [X, Z]), 3 := Term(B, [X])]

  /** C leads epoch 2 too, and appends Z after X. */
  lemma Again2() returns (steps: seq<Step>)
    ensures SoundRun(Mid1(), steps, Two([M1, P2], FRESH, C2, TWO))
  {
    StampFresh([X], [EpochStart(1, 0)], 2);
    hide SoundRun, Stamped;
    var t := StartsAndWrites(Mid1(), C, 2, Z, NodeData([X], C2.node.history));
    assert [X] + [Z] == [X, Z] && [M1] + [P2] == [M1, P2];
    assert t.peers == map[B := FRESH, C := C2] && t.terms == TWO;
    steps := [Publish(P2), Adopt(C, 1), AppendOne(C, Z)];
  }

  /** B follows, and has copied X alone when it is elected. */
  lemma Half2() returns (steps: seq<Step>)
    ensures SoundRun(Two([M1, P2], FRESH, C2, TWO), steps, Two([M1, P2, P3], B3LEADS, C2, ALL))
  {
    HalfJoins();
    HalfCopies();
    HalfLeads();
    var s, a := Two([M1, P2], FRESH, C2, TWO), Two([M1, P2], B2EMPTY, C2, TWO);
    var b, t := Two([M1, P2], B2COPY, C2, TWO), Two([M1, P2, P3], B3LEADS, C2, ALL);
    hide SoundRun, Two;
    SoundOn(s, Joining(B, 1), a, Copying(B, 1), b);
    SoundOn(s, Joining(B, 1) + Copying(B, 1), b, [Publish(P3), Adopt(B, 2)], t);
    steps := Joining(B, 1) + Copying(B, 1) + [Publish(P3), Adopt(B, 2)];
  }

  lemma HalfJoins()
    ensures SoundRun(Two([M1, P2], FRESH, C2, TWO), Joining(B, 1), Two([M1, P2], B2EMPTY, C2, TWO))
  {
    assert EndOf(C2.node.history, 0, 2) == 0;
    NothingKept([], 0, C2.node.history, 2, 2);
    hide Run, SoundChecks, SoundFetches, EndOf, SoundAnswer;
    var t := Joins(Two([M1, P2], FRESH, C2, TWO), B, 1, 2, C, 0);
    assert t.peers == map[B := B2EMPTY, C := C2];
  }

  lemma HalfCopies()
    ensures SoundRun(Two([M1, P2], B2EMPTY, C2, TWO), Copying(B, 1), Two([M1, P2], B2COPY, C2, TWO))
  {
    StampFresh([], [], 2);
    assert Fetched(B2EMPTY.node, 0, 2, [X], 1) == B2COPY.node by {
      assert [] + [X][..1] == [X];
    }
    hide SoundRun, Fetched;
    assert [X, Z][0..1] == [X];
    var t := Copies(Two([M1, P2], B2EMPTY, C2, TWO), B, 2, C, 0, [X]);
    assert t.peers == map[B := B2COPY, C := C2];
  }

  lemma HalfLeads()
    ensures SoundRun(Two([M1, P2], B2COPY, C2, TWO), [Publish(P3), Adopt(B, 2)], Two([M1, P2, P3], B3LEADS, C2, ALL))
  {
    StampFresh([X], [EpochStart(2, 0)], 3);
    hide SoundRun, Stamped;
    var t := Starts(Two([M1, P2], B2COPY, C2, TWO), B, 3, B3LEADS.node);
    assert [M1, P2] + [P3] == [M1, P2, P3] && t.peers == map[B := B3LEADS, C := C2] && t.terms == ALL;
  }

  /** C reconciles with B, which lists its last epoch: Z goes, X stays, and so does epoch 1. */
  lemma FirstCut()
    ensures SoundRun(Two([M1, P2, P3], B3LEADS, C2, ALL), Joining(C, 2), Two([M1, P2, P3], B3LEADS, CUT1, ALL))
  {
    var f, l := C2.node.history, B3LEADS.node.history;
    CountUpToIs(l, 2, 1);
    KeptIs(f, 1, 1);
    assert f[..1] == CUT1.node.history && [X, Z][..1] == [X];
    hide CountUpTo, KeptEntries, SoundRun;
    assert EndOf(l, 2, 1) == 1;
    FirstIsSound(f, l);
    assert Reconciled(C2.node, 1) == CUT1.node;
    hide EndOf, SoundAnswer, Reconciled, Run, SoundChecks, SoundFetches;
    var t := Joins(Two([M1, P2, P3], B3LEADS, C2, ALL), C, 2, 3, B, 1);
    assert t.peers == map[B := B3LEADS, C := CUT1];
    SoundOf(Two([M1, P2, P3], B3LEADS, C2, ALL), Joining(C, 2), Two([M1, P2, P3], B3LEADS, CUT1, ALL));
  }

  lemma FirstIsSound(f: seq<EpochStart>, l: seq<EpochStart>)
    requires f == [EpochStart(1, 0), EpochStart(2, 1)] && l == [EpochStart(2, 0), EpochStart(3, 1)]
    requires EndOf(l, 2, 1) == 1
    ensures SoundAnswer(f, 2, l, 1, 3)
  {
    hide EndOf;
    LinkedBy(f, 2, l, 1, 1, 0, 1, 1);
  }

  lemma SoundOf(s: Cluster, steps: seq<Step>, t: Cluster)
    requires Run(s, steps, t) && SoundChecks(s, steps) && SoundFetches(s, steps)
    ensures SoundRun(s, steps, t)
  {
  }

  /** Its fetcher dies and starts again. C asks by epoch 1 now, of which B has nothing, and cuts everything. */
  lemma NextCut() returns (steps: seq<Step>)
    ensures SoundRun(Two([M1, P2, P3], B3LEADS, CUT1, ALL), steps, Two([M1, P2, P3], B3LEADS, CUT2, ALL))
  {
    var s := Two([M1, P2, P3], B3LEADS, CUT1, ALL);
    var idle := Two([M1, P2, P3], B3LEADS, CUT1.(role := Idle), ALL);
    assert Enabled(s, Stop(C)) && Apply(s, Stop(C)).peers == idle.peers;
    KeptIs(CUT1.node.history, 0, 0);
    assert CUT1.node.history[..0] == [] && [X][..0] == [];
    assert EndOf(B3LEADS.node.history, 1, 1) == 0;
    assert Reconciled(CUT1.node, 0) == CUT2.node;
    NothingKept(CUT1.node.history, 1, B3LEADS.node.history, 1, 3);
    hide Run, SoundChecks, SoundFetches, EndOf, SoundAnswer, KeptEntries, Reconciled;
    var t := Joins(idle, C, 2, 3, B, 0);
    assert t.peers == map[B := B3LEADS, C := CUT2];
    hide SoundCheck, SoundFetch, Apply, Enabled;
    RunOne(s, Stop(C), idle);
    Harmless(s, Stop(C));
    SoundOn(s, [Stop(C)], idle, Joining(C, 2), t);
    steps := [Stop(C)] + Joining(C, 2);
  }

  /** A follower that reconciles twice with one leader, which appends nothing meanwhile, can lose a record that
      both have, although every answer and every read met its condition. */
  lemma SecondCut() returns (s: Cluster, first: seq<Step>, m: Cluster, second: seq<Step>, t: Cluster)
    ensures Init(s) && SoundRun(s, first, m) && SoundRun(m, second, t)
    ensures B in m.peers && C in m.peers && B in t.peers && C in t.peers
    ensures Leads(m.peers[B], 3) && t.peers[B] == m.peers[B] && m.peers[B].node.log == [X]
    ensures m.peers[C].role.Fetching? && m.peers[C].role.epoch == 3 && m.peers[C].node.log == [X]
    ensures t.peers[C].role.Fetching? && t.peers[C].role.epoch == 3 && t.peers[C].node.log == []
  {
    s, m := Start(), Two([M1, P2, P3], B3LEADS, CUT1, ALL);
    t := Two([M1, P2, P3], B3LEADS, CUT2, ALL);
    assert m.peers == map[B := B3LEADS, C := CUT1] && t.peers == map[B := B3LEADS, C := CUT2];
    assert Init(s);
    hide SoundRun;
    var one := Epoch1();
    var two := Again2();
    var three := Half2();
    FirstCut();
    second := NextCut();
    var a, b := Two([M1, P2], FRESH, C2, TWO), Two([M1, P2, P3], B3LEADS, C2, ALL);
    hide Start, Mid1, Two;
    SoundOn(s, one, Mid1(), two, a);
    SoundOn(s, one + two, a, three, b);
    SoundOn(s, one + two + three, b, Joining(C, 2), m);
    first := one + two + three + Joining(C, 2);
  }
}
