/** acks=all within one leader epoch: appends, follower fetches in flight, ISR changes proposed by the clock and
    accepted later, and the high-water mark, in any order (src/broker/cluster.rs, src/broker/mod.rs). What the
    leader does is `Leadership`, which Replica.dfy implements; that followers hold prefixes of the leader's log
    comes from `LogAgreement`, see Durability.dfy. */
module AcksAll {
  import opened Wrappers
  import opened Bytes
  import opened RecordCodec
  import opened HighWatermark
  import opened Leadership

  type Id = u32

  /** `begin` is the log end when the epoch began. `followers` are those that have reconciled in this epoch, and
      `requests` their fetches in flight. `proposed` is an ISR that the controller has been asked for. `entered`
      are the acks=all produces that were let in, with the log end at that time. `parked` is every acks=all batch
      that ever waited, `acked` those answered since then. */
  datatype State = State(
    leader: Leader,
    minInsync: nat,
    begin: nat,
    log: seq<Record>,
    followers: map<Id, seq<Record>>,
    requests: set<(Id, nat)>,
    now: nat,
    lag: nat,
    proposed: Option<seq<Id>>,
    entered: map<nat, nat>,
    parked: seq<Waiting>,
    acked: seq<Waiting>)

  datatype Step =
    | Enter(ticket: nat)
    | Append(records: seq<Record>)
    | Park(w: Waiting)
    | Rejoin(f: Id, n: nat)
    | Ask(f: Id)
    | Handle(f: Id, offset: nat)
    | Receive(f: Id, count: nat)
    | Propose
    | AcceptIsr
    | RefuseIsr
    | Elapse(time: nat)
    | Refresh

  /** `advance_hwm`, for a leader whose fields are now `l`. */
  function Moved(s: State, l: Leader): State {
    s.(leader := Advanced(l, |s.log|), acked := s.acked + Answered(l, |s.log|))
  }

  /** Whoever has `b` records has whatever counts of the first `a`: all of them once they reach into this epoch,
      and every batch that ever waited. */
  ghost predicate Reaches(s: State, a: nat, b: nat) {
    && (a > s.begin ==> b >= a)
    && forall w {:trigger w in s.parked} :: w in s.parked && w.last < a ==> w.last < b
  }

  /** A produce is let in if the ISR has its minimum size then, and only then. A follower that reconciles once more
      loses nothing of this epoch and no batch that waited; `Durability` proves that it is so. */
  ghost predicate Enabled(s: State, step: Step) {
    match step
    case Enter(_) => |s.leader.isr| >= s.minInsync
    case Append(_) => true
    case Park(w) =>
      && w.count > 0 && w.last == w.base + w.count - 1 && w.last < |s.log|
      && w.ticket in s.entered && s.entered[w.ticket] <= w.base
    case Rejoin(f, n) =>
      && f != s.leader.self && n <= |s.log|
      && (f in s.followers ==> Reaches(s, |s.followers[f]|, n))
    case Ask(f) => f in s.followers
    case Handle(f, offset) => (f, offset) in s.requests
    case Receive(f, count) => f in s.followers && |s.followers[f]| + count <= |s.log|
    case Propose => s.proposed.None? && Proposal(s.leader, s.now, s.lag).Some?
    case AcceptIsr => s.proposed.Some?
    case RefuseIsr => s.proposed.Some?
    case Elapse(_) => true
    case Refresh => true
  }

  ghost function Apply(s: State, step: Step): State
    requires Enabled(s, step)
  {
    match step
    case Enter(ticket) => s.(entered := s.entered[ticket := |s.log|])
    case Append(records) => s.(log := s.log + records)
    case Park(w) =>
      Moved(s.(entered := s.entered - {w.ticket}, parked := s.parked + [w]),
            s.leader.(waiting := s.leader.waiting + [w]))
    case Rejoin(f, n) => s.(followers := s.followers[f := s.log[..n]])
    case Ask(f) => s.(requests := s.requests + {(f, |s.followers[f]|)})
    case Handle(f, offset) => Moved(s, Noted(s.leader, f, offset, s.now, |s.log|))
    case Receive(f, count) =>
      var end := |s.followers[f]|;
      s.(followers := s.followers[f := s.followers[f] + s.log[end..end + count]])
    case Propose => s.(proposed := Proposal(s.leader, s.now, s.lag))
    case AcceptIsr => Moved(s.(proposed := None), s.leader.(isr := s.proposed.value))
    case RefuseIsr => s.(proposed := None)
    case Elapse(time) => s.(now := s.now + time)
    case Refresh => Moved(s, s.leader)
  }

  /** Whoever joins the ISR is known to have whatever counts below the mark. The code does not check this. */
  ghost predicate Admits(s: State, step: Step) {
    step.AcceptIsr? && s.proposed.Some? ==> Known(s, s.proposed.value)
  }

  ghost predicate Known(s: State, isr: seq<Id>) {
    forall f {:trigger f in isr} :: f in isr && f != s.leader.self && f !in s.leader.isr ==>
      Reaches(s, s.leader.hwm, Matched(s.leader.progress, f))
  }

  /** A leader has just adopted the epoch. */
  ghost predicate Start(s: State) {
    && s.leader.self !in s.followers
    && (forall f {:trigger s.followers[f]} :: f in s.followers ==> s.followers[f] <= s.log)
    && s.requests == {} && s.leader.progress == map[] && s.acked == [] && s.leader.hwm <= s.begin == |s.log|
    && s.parked == s.leader.waiting && s.proposed == None && s.entered == map[]
    && forall w {:trigger w in s.leader.waiting} :: w in s.leader.waiting ==> s.leader.hwm <= w.last < |s.log|
  }

  ghost predicate Run(s: State, steps: seq<Step>, t: State)
    decreases |steps|
  {
    if steps == [] then s == t
    else Enabled(s, steps[0]) && Run(Apply(s, steps[0]), steps[1..], t)
  }

  ghost predicate AdmitsAll(s: State, steps: seq<Step>)
    decreases |steps|
  {
    steps == [] || (Admits(s, steps[0]) && (Enabled(s, steps[0]) ==> AdmitsAll(Apply(s, steps[0]), steps[1..])))
  }

  // ---------------------------------------------------------------- the invariant

  /** How many records a follower has. */
  function Len(s: State, f: Id): nat {
    if f in s.followers then |s.followers[f]| else 0
  }

  ghost predicate FollowersOk(s: State) {
    && s.leader.self !in s.followers
    && (forall f {:trigger s.followers[f]} :: f in s.followers ==> s.followers[f] <= s.log)
    && (forall q {:trigger q in s.requests} :: q in s.requests ==>
          q.0 in s.followers && Reaches(s, q.1, |s.followers[q.0]|))
    && (forall f {:trigger s.leader.progress[f]} :: f in s.leader.progress ==>
          f in s.followers && Reaches(s, s.leader.progress[f].offset, |s.followers[f]|))
  }

  /** Every other member of the ISR has whatever counts below the mark. */
  ghost predicate IsrHolds(s: State) {
    forall f {:trigger f in s.leader.isr} :: f in s.leader.isr && f != s.leader.self ==>
      Reaches(s, s.leader.hwm, Len(s, f))
  }

  ghost predicate QueueOk(s: State, first: nat) {
    && (forall w {:trigger w in s.leader.waiting} :: w in s.leader.waiting ==> first <= w.last < |s.log|)
    && (forall w {:trigger w in s.acked} :: w in s.acked ==> first <= w.last < s.leader.hwm)
    && multiset(s.parked) == multiset(s.leader.waiting) + multiset(s.acked)
    && (forall ticket {:trigger s.entered[ticket]} :: ticket in s.entered ==> s.begin <= s.entered[ticket])
  }

  /** `first` is where the mark stood when the epoch began. */
  ghost predicate Inv(s: State, first: nat) {
    && first <= s.begin <= |s.log| && first <= s.leader.hwm <= |s.log|
    && FollowersOk(s) && IsrHolds(s) && QueueOk(s, first)
  }

  lemma ReachesLess(s: State, a: nat, b: nat, x: nat, y: nat)
    requires Reaches(s, a, b) && x <= a && b <= y
    ensures Reaches(s, x, y)
  {
  }

  lemma ReachesOn(s: State, a: nat, b: nat, c: nat)
    requires Reaches(s, a, b) && Reaches(s, b, c)
    ensures Reaches(s, a, c)
  {
  }

  // ---------------------------------------------------------------- moving the mark

  lemma MatchedIsHeld(s: State, f: Id)
    requires FollowersOk(s)
    ensures Reaches(s, Matched(s.leader.progress, f), Len(s, f))
  {
  }

  lemma MovedKeepsIsr(s: State, l: Leader)
    requires s.leader == l && FollowersOk(s) && IsrHolds(s) && l.hwm <= |s.log|
    ensures var t := Moved(s, l);
            l.hwm <= t.leader.hwm <= |t.log| && FollowersOk(t) && IsrHolds(t)
  {
    var t := Moved(s, l);
    CoveredIsLeast(l.isr, l.self, l.progress, |s.log|);
    hide Covered, Passed, NotPassed, Matched, FollowersOk, Reaches;
    assert FollowersOk(t) by { SameFollowers(s, t); }
    forall f | f in t.leader.isr && f != t.leader.self ensures Reaches(t, t.leader.hwm, Len(t, f)) {
      if t.leader.hwm > l.hwm {
        MatchedIsHeld(s, f);
        ReachesLess(s, Matched(l.progress, f), Len(s, f), t.leader.hwm, Len(t, f));
      }
      SameReach(s, t, t.leader.hwm, Len(t, f));
    }
  }

  lemma SameReach(s: State, t: State, a: nat, b: nat)
    requires Reaches(s, a, b) && t.begin == s.begin && t.parked == s.parked
    ensures Reaches(t, a, b)
  {
  }

  lemma SameFollowers(s: State, t: State)
    requires FollowersOk(s) && t.leader.self == s.leader.self && t.followers == s.followers
    requires t.requests == s.requests && t.leader.progress == s.leader.progress && s.log <= t.log
    requires t.begin == s.begin && t.parked == s.parked
    ensures FollowersOk(t)
  {
  }

  lemma MovedKeepsQueue(s: State, l: Leader, first: nat)
    requires s.leader == l && QueueOk(s, first) && first <= l.hwm
    ensures QueueOk(Moved(s, l), first)
  {
    var t := Moved(s, l);
    DrainSplits(l.waiting, t.leader.hwm);
    hide Covered, Passed, NotPassed;
    assert l.hwm <= t.leader.hwm;
    forall w | w in t.acked ensures first <= w.last < t.leader.hwm {
      if w !in s.acked {
        assert w in Passed(l.waiting, t.leader.hwm);
      }
    }
  }

  /** The mark moves after the leader's fields have become `l`. */
  lemma MovedKeeps(s: State, l: Leader, first: nat)
    requires Inv(s.(leader := l), first)
    ensures Inv(Moved(s, l), first) && l.hwm <= Moved(s, l).leader.hwm
  {
    hide Covered, Passed, NotPassed, FollowersOk, IsrHolds, QueueOk;
    var m := s.(leader := l);
    MovedKeepsIsr(m, l);
    MovedKeepsQueue(m, l, first);
    assert Moved(s, l) == Moved(m, l);
  }

  // ---------------------------------------------------------------- step by step

  lemma SameIsr(s: State, t: State)
    requires IsrHolds(s) && t.leader.isr == s.leader.isr && t.leader.self == s.leader.self
    requires t.leader.hwm == s.leader.hwm && t.followers == s.followers && t.begin == s.begin && t.parked == s.parked
    ensures IsrHolds(t)
  {
  }

  lemma AppendKeeps(s: State, records: seq<Record>, first: nat)
    requires Inv(s, first)
    ensures Inv(Apply(s, Append(records)), first)
  {
    var t := Apply(s, Append(records));
    SameFollowers(s, t);
    SameIsr(s, t);
    hide FollowersOk, IsrHolds;
  }

  /** A batch of this epoch that begins to wait is new to everyone. */
  lemma ParkedReach(s: State, t: State, w: Waiting)
    requires t.begin == s.begin <= w.last && t.parked == s.parked + [w]
    ensures forall a, b {:trigger Reaches(t, a, b)} :: Reaches(s, a, b) ==> Reaches(t, a, b)
  {
    forall a, b | Reaches(s, a, b) ensures Reaches(t, a, b) {
    }
  }

  lemma ParkKeeps(s: State, w: Waiting, first: nat)
    requires Inv(s, first) && Enabled(s, Park(w))
    ensures Inv(Apply(s, Park(w)), first)
  {
    var l := s.leader.(waiting := s.leader.waiting + [w]);
    var m := s.(entered := s.entered - {w.ticket}, parked := s.parked + [w]);
    var n := m.(leader := l);
    ParkedReach(s, n, w);
    hide Reaches;
    assert FollowersOk(n);
    assert IsrHolds(n);
    hide FollowersOk, IsrHolds, Moved;
    MovedKeeps(m, l, first);
  }

  lemma AskKeeps(s: State, f: Id, first: nat)
    requires Inv(s, first) && Enabled(s, Ask(f))
    ensures Inv(Apply(s, Ask(f)), first)
  {
    var t := Apply(s, Ask(f));
    SameIsr(s, t);
    hide IsrHolds;
  }

  lemma HandleKeeps(s: State, f: Id, offset: nat, first: nat)
    requires Inv(s, first) && Enabled(s, Handle(f, offset))
    ensures Inv(Apply(s, Handle(f, offset)), first)
  {
    var l := Noted(s.leader, f, offset, s.now, |s.log|);
    var m := s.(leader := l);
    SameIsr(s, m);
    assert FollowersOk(m);
    hide FollowersOk, IsrHolds, Moved;
    MovedKeeps(s, l, first);
  }

  /** A follower that has no less than what counts of what it had. */
  lemma FollowerMoves(s: State, t: State, f: Id)
    requires FollowersOk(s) && IsrHolds(s) && f != s.leader.self && f in t.followers
    requires t == s.(followers := s.followers[f := t.followers[f]]) && t.followers[f] <= s.log
    requires Reaches(s, Len(s, f), |t.followers[f]|)
    ensures FollowersOk(t) && IsrHolds(t)
  {
    hide Reaches;
    forall a, b {:trigger Reaches(t, a, b)} | Reaches(s, a, b) ensures Reaches(t, a, b) {
      SameReach(s, t, a, b);
    }
    forall a | Reaches(s, a, Len(s, f)) ensures Reaches(t, a, Len(t, f)) {
      ReachesOn(s, a, Len(s, f), |t.followers[f]|);
    }
    forall g | g in t.leader.isr && g != t.leader.self ensures Reaches(t, t.leader.hwm, Len(t, g)) {
      assert Reaches(s, s.leader.hwm, Len(s, g));
    }
  }

  lemma ReceiveKeeps(s: State, f: Id, count: nat, first: nat)
    requires Inv(s, first) && Enabled(s, Receive(f, count))
    ensures Inv(Apply(s, Receive(f, count)), first)
  {
    var t := Apply(s, Receive(f, count));
    var end := |s.followers[f]|;
    assert t.followers[f] == s.log[..end + count];
    FollowerMoves(s, t, f);
    hide FollowersOk, IsrHolds;
  }

  lemma RejoinKeeps(s: State, f: Id, n: nat, first: nat)
    requires Inv(s, first) && Enabled(s, Rejoin(f, n))
    ensures Inv(Apply(s, Rejoin(f, n)), first)
  {
    var t := Apply(s, Rejoin(f, n));
    FollowerMoves(s, t, f);
    hide FollowersOk, IsrHolds;
  }

  lemma AcceptKeeps(s: State, first: nat)
    requires Inv(s, first) && Enabled(s, AcceptIsr) && Admits(s, AcceptIsr)
    ensures Inv(Apply(s, AcceptIsr), first)
  {
    var m := s.(proposed := None);
    var l := s.leader.(isr := s.proposed.value);
    var n := m.(leader := l);
    assert FollowersOk(n) by { SameFollowers(s, n); }
    hide FollowersOk, Moved, Matched, Reaches;
    forall f | f in l.isr && f != l.self ensures Reaches(n, l.hwm, Len(n, f)) {
      if f !in s.leader.isr {
        MatchedIsHeld(s, f);
        ReachesOn(s, l.hwm, Matched(s.leader.progress, f), Len(s, f));
      }
      SameReach(s, n, l.hwm, Len(n, f));
    }
    MovedKeeps(m, l, first);
  }

  lemma RefreshKeeps(s: State, first: nat)
    requires Inv(s, first)
    ensures Enabled(s, Refresh) && Inv(Apply(s, Refresh), first)
  {
    hide Inv, Moved;
    assert s.(leader := s.leader) == s;
    MovedKeeps(s, s.leader, first);
  }

  /** What concerns neither the logs nor the leader's fields. */
  lemma ClockKeeps(s: State, step: Step, first: nat)
    requires Inv(s, first) && Enabled(s, step)
    requires step.Propose? || step.RefuseIsr? || step.Elapse? || step.Enter?
    ensures Inv(Apply(s, step), first)
  {
    hide Proposal;
    var t := Apply(s, step);
    SameFollowers(s, t);
    SameIsr(s, t);
    hide FollowersOk, IsrHolds;
  }

  lemma StepKeeps(s: State, step: Step, first: nat)
    requires Inv(s, first) && Enabled(s, step) && Admits(s, step)
    ensures Inv(Apply(s, step), first) && Later(s, Apply(s, step))
  {
    StepIsLater(s, step);
    hide Inv, Admits, Apply, Enabled, Later;
    match step
    case Append(records) => AppendKeeps(s, records, first);
    case Park(w) => ParkKeeps(s, w, first);
    case Rejoin(f, n) => RejoinKeeps(s, f, n, first);
    case Ask(f) => AskKeeps(s, f, first);
    case Handle(f, offset) => HandleKeeps(s, f, offset, first);
    case Receive(f, count) => ReceiveKeeps(s, f, count, first);
    case AcceptIsr => AcceptKeeps(s, first);
    case Refresh => RefreshKeeps(s, first);
    case Enter(_) => ClockKeeps(s, step, first);
    case Propose => ClockKeeps(s, step, first);
    case RefuseIsr => ClockKeeps(s, step, first);
    case Elapse(_) => ClockKeeps(s, step, first);
  }

  /** The mark does not go back, the log only grows, and the leader and the beginning of its epoch stay. */
  ghost predicate Later(s: State, t: State) {
    s.leader.hwm <= t.leader.hwm && s.log <= t.log && t.leader.self == s.leader.self && t.begin == s.begin
  }

  lemma StepIsLater(s: State, step: Step)
    requires Enabled(s, step)
    ensures Later(s, Apply(s, step))
  {
    hide Covered, Passed, NotPassed, Proposal, Reaches;
  }

  lemma {:induction false} RunIsLater(s: State, steps: seq<Step>, t: State)
    requires Run(s, steps, t)
    ensures Later(s, t)
    decreases |steps|
  {
    hide Apply, Enabled;
    if steps != [] {
      StepIsLater(s, steps[0]);
      RunIsLater(Apply(s, steps[0]), steps[1..], t);
    }
  }

  lemma {:induction false} RunKeeps(s: State, steps: seq<Step>, t: State, first: nat)
    requires Inv(s, first) && Run(s, steps, t) && AdmitsAll(s, steps)
    ensures Inv(t, first)
    decreases |steps|
  {
    hide Inv, Admits, Apply, Enabled, Later;
    if steps != [] {
      StepKeeps(s, steps[0], first);
      RunKeeps(Apply(s, steps[0]), steps[1..], t, first);
    }
  }

  lemma StartIsGood(s: State)
    requires Start(s)
    ensures Inv(s, s.leader.hwm)
  {
    assert multiset(s.parked) == multiset(s.leader.waiting) + multiset(s.acked);
  }

  /** The log holds everything up to the batch's last record at this member of the ISR. */
  predicate HeldBy(t: State, w: Waiting, f: Id) {
    f == t.leader.self || (f in t.followers && w.last < |t.log| && t.log[..w.last + 1] <= t.followers[f])
  }

  /** Within one leader epoch: the mark never goes back and never passes the log end, the log below it never
      changes, every produce that waited is still waiting or was answered, once, and every answered batch is in the
      log of every member of the ISR, so whichever of them is elected next holds it. That includes batches of earlier
      epochs that still waited when this one began. */
  lemma AckedIsEverywhere(s: State, steps: seq<Step>, t: State)
    requires Start(s) && Run(s, steps, t) && AdmitsAll(s, steps)
    ensures s.leader.hwm <= t.leader.hwm <= |t.log| && s.log <= t.log
    ensures multiset(t.parked) == multiset(t.leader.waiting) + multiset(t.acked)
    ensures forall w {:trigger w in t.acked} :: w in t.acked ==> s.leader.hwm <= w.last < t.leader.hwm
    ensures forall w, f {:trigger w in t.acked, f in t.leader.isr} ::
              w in t.acked && f in t.leader.isr ==> HeldBy(t, w, f)
  {
    StartIsGood(s);
    RunKeeps(s, steps, t, s.leader.hwm);
    RunIsLater(s, steps, t);
    hide Start, Run, AdmitsAll;
    forall w, f | w in t.acked && f in t.leader.isr ensures HeldBy(t, w, f) {
      AckedIsHeld(t, s.leader.hwm, w, f);
    }
  }

  lemma AckedIsHeld(t: State, first: nat, w: Waiting, f: Id)
    requires Inv(t, first) && w in t.acked && f in t.leader.isr
    ensures HeldBy(t, w, f)
  {
    assert w in multiset(t.parked) && w in t.parked;
    if f != t.leader.self {
      assert w.last < Len(t, f);
      assert t.followers[f] <= t.log;
    }
  }

  // ---------------------------------------------------------------- what consumers see

  /** Any two fetches that the leader serves in one epoch agree on every offset that both return. */
  lemma FetchesAgree(s: State, steps: seq<Step>, t: State, o1: nat, out1: seq<Record>, o2: nat, out2: seq<Record>,
                     k: nat)
    requires Run(s, steps, t)
    requires CommittedRun(s.log, 0, o1, s.leader.hwm, out1) && CommittedRun(t.log, 0, o2, t.leader.hwm, out2)
    requires o1 <= k < o1 + |out1| && o2 <= k < o2 + |out2|
    ensures out1[k - o1] == out2[k - o2] && k < s.leader.hwm <= t.leader.hwm
  {
    RunIsLater(s, steps, t);
    assert out1[k - o1] == s.log[k] && out2[k - o2] == t.log[k];
  }

  // ---------------------------------------------------------------- what the code does not check

  /** The states that the leader of `s` cannot tell from `s`: it does not see its followers' logs, nor what is
      on its way to it. */
  ghost predicate LooksLike(s: State, t: State) {
    t.followers.Keys == s.followers.Keys && t == s.(followers := t.followers, requests := t.requests)
  }

  /** Whatever the followers hold, the new ISR has whatever counts below the mark. */
  ghost predicate AlwaysHeld(s: State, first: nat) {
    forall t :: LooksLike(s, t) && Inv(t, first) && Enabled(t, AcceptIsr) ==> IsrHolds(Apply(t, AcceptIsr))
  }

  /** The condition on admission is exact: from what a leader knows, a change of the ISR is safe if and only if
      whoever joins has fetched whatever counts below the mark. */
  lemma AdmissionIsExact(s: State, first: nat)
    requires Inv(s, first) && Enabled(s, AcceptIsr)
    ensures AlwaysHeld(s, first) <==> Admits(s, AcceptIsr)
  {
    hide Inv, IsrHolds, Apply, Matched, Reaches;
    if Admits(s, AcceptIsr) {
      forall t | LooksLike(s, t) && Inv(t, first) && Enabled(t, AcceptIsr)
        ensures IsrHolds(Apply(t, AcceptIsr))
      {
        SameKnown(s, t, s.proposed.value);
        AcceptKeeps(t, first);
        InvHolds(Apply(t, AcceptIsr), first);
      }
    } else {
      var f :| f in s.proposed.value && f != s.leader.self && f !in s.leader.isr
               && !Reaches(s, s.leader.hwm, Matched(s.leader.progress, f));
      var t := Behind(s, f, first);
      MarkStays(t);
      NotHeld(s, Apply(t, AcceptIsr), f);
    }
  }

  lemma SameKnown(s: State, t: State, isr: seq<Id>)
    requires Known(s, isr) && t.leader == s.leader && t.begin == s.begin && t.parked == s.parked
    ensures Known(t, isr)
  {
    hide Reaches;
    forall f | f in isr && f != t.leader.self && f !in t.leader.isr
      ensures Reaches(t, t.leader.hwm, Matched(t.leader.progress, f))
    {
      SameReach(s, t, t.leader.hwm, Matched(t.leader.progress, f));
    }
  }

  lemma InvHolds(t: State, first: nat)
    requires Inv(t, first)
    ensures IsrHolds(t)
  {
  }

  lemma MarkStays(s: State)
    requires Enabled(s, AcceptIsr)
    ensures var t := Apply(s, AcceptIsr);
            && t.leader.isr == s.proposed.value && t.leader.self == s.leader.self && t.followers == s.followers
            && s.leader.hwm <= t.leader.hwm && t.begin == s.begin && t.parked == s.parked
  {
  }

  lemma NotHeld(s: State, t: State, f: Id)
    requires f in t.leader.isr && f != t.leader.self && t.begin == s.begin && t.parked == s.parked
    requires s.leader.hwm <= t.leader.hwm && Len(t, f) <= Matched(s.leader.progress, f)
    requires !Reaches(s, s.leader.hwm, Matched(s.leader.progress, f))
    ensures !IsrHolds(t)
  {
    hide Reaches;
    if Reaches(t, t.leader.hwm, Len(t, f)) {
      ReachesLess(t, t.leader.hwm, Len(t, f), s.leader.hwm, Matched(s.leader.progress, f));
      SameReach(t, s, s.leader.hwm, Matched(s.leader.progress, f));
    }
  }

  /** A follower outside the ISR may hold no more than the leader knows of. */
  lemma Behind(s: State, f: Id, first: nat) returns (t: State)
    requires Inv(s, first) && f !in s.leader.isr
    ensures LooksLike(s, t) && Inv(t, first) && Len(t, f) <= Matched(s.leader.progress, f)
    ensures Enabled(s, AcceptIsr) ==> Enabled(t, AcceptIsr)
  {
    if f !in s.followers {
      return s;
    }
    var m := Matched(s.leader.progress, f);
    var known := s.followers[f][..Min(m, |s.followers[f]|)];
    t := s.(followers := s.followers[f := known], requests := {});
    assert t.followers.Keys == s.followers.Keys;
    BehindFollowers(s, t, f);
    BehindIsr(s, t, f);
    hide FollowersOk, QueueOk, IsrHolds;
  }

  lemma BehindFollowers(s: State, t: State, f: Id)
    requires FollowersOk(s) && f in s.followers && f in t.followers
    requires t == s.(followers := s.followers[f := t.followers[f]], requests := {})
    requires t.followers[f] == s.followers[f][..Min(Matched(s.leader.progress, f), |s.followers[f]|)]
    ensures FollowersOk(t)
  {
    hide Reaches;
    forall g | g in t.leader.progress
      ensures g in t.followers && Reaches(t, t.leader.progress[g].offset, |t.followers[g]|)
    {
      var m := s.leader.progress[g].offset;
      assert Reaches(s, m, |s.followers[g]|);
      if g == f && m <= |s.followers[g]| {
        ReachesSelf(s, m);
      }
      SameReach(s, t, m, |t.followers[g]|);
    }
  }

  lemma ReachesSelf(s: State, a: nat)
    ensures Reaches(s, a, a)
  {
  }

  lemma BehindIsr(s: State, t: State, f: Id)
    requires IsrHolds(s) && f !in s.leader.isr && f in t.followers
    requires t == s.(followers := s.followers[f := t.followers[f]], requests := {})
    ensures IsrHolds(t)
  {
    hide Reaches;
    forall g | g in t.leader.isr && g != t.leader.self ensures Reaches(t, t.leader.hwm, Len(t, g)) {
      SameReach(s, t, t.leader.hwm, Len(t, g));
    }
  }

  // ---------------------------------------------------------------- a follower admitted by the clock

  const X: Record := Record(0, 0, None, [])
  const W: Waiting := Waiting(0, 0, 1, 0)

  /** Brokers 1 to `n`. */
  function Ids(n: u32): (s: seq<Id>)
    ensures |s| == n && forall i {:trigger s[i]} :: 0 <= i < n ==> s[i] == i + 1
  {
    seq(n, i requires 0 <= i < n => (i + 1) as u32)
  }

  /** Broker 1 leads with 2 to `m` in the ISR and `m + 1` away. Of the ISR, those up to `i` have fetched its one
      record, for which an acks=all produce was let in. */
  ghost predicate Catching(s: State, m: u32, i: u32, minInsync: nat, lag: nat) {
    && 1 <= i <= m && m + 1 < U32_RANGE && minInsync <= m
    && s.leader.self == 1 && s.leader.replicas == Ids(m + 1) && s.leader.isr == Ids(m)
    && (forall f {:trigger f in s.leader.progress} :: f in s.leader.progress <==> 2 <= f <= i)
    && (forall f {:trigger s.leader.progress[f]} :: f in s.leader.progress ==> s.leader.progress[f] == Progress(1, 0))
    && s.leader.since == 0 && s.leader.waiting == [] && s.leader.hwm <= 1
    && s.minInsync == minInsync && s.begin == 0 && s.log == [X]
    && (forall f {:trigger f in s.followers} :: f in s.followers <==> 2 <= f <= m + 1)
    && (forall f {:trigger s.followers[f]} :: f in s.followers ==> s.followers[f] == if f <= i then [X] else [])
    && s.now == 0 && s.lag == lag && s.proposed == None
    && s.entered == map[0 := 0] && s.parked == [] && s.acked == []
  }

  lemma {:induction false} RunMore(s: State, steps: seq<Step>, t: State, step: Step)
    requires Run(s, steps, t) && Enabled(t, step)
    ensures Run(s, steps + [step], Apply(t, step))
    decreases |steps|
  {
    hide Apply, Enabled;
    if steps == [] {
      assert Run(Apply(t, step), [], Apply(t, step));
      assert steps + [step] == [step];
    } else {
      RunMore(Apply(s, steps[0]), steps[1..], t, step);
      assert (steps + [step])[1..] == steps[1..] + [step];
    }
  }

  function Alone(m: u32, minInsync: nat, lag: nat): State
    requires m + 1 < U32_RANGE
  {
    var all := Ids(m + 1);
    State(Leader(1, all, Ids(m), map[], 0, 0, []), minInsync, 0, [], map f | f in all && f != 1 :: [], {}, 0, lag,
          None, map[], [], [])
  }

  lemma Begins(m: u32, minInsync: nat, lag: nat) returns (steps: seq<Step>, t: State)
    requires 1 <= m && m + 1 < U32_RANGE && minInsync <= m
    ensures Start(Alone(m, minInsync, lag)) && Run(Alone(m, minInsync, lag), steps, t)
    ensures Catching(t, m, 1, minInsync, lag)
  {
    var s := Alone(m, minInsync, lag);
    forall f | 2 <= f <= m + 1 ensures f in s.followers {
      assert Ids(m + 1)[f - 1] == f;
    }
    steps := [];
    assert Run(s, [], s);
    RunMore(s, [], s, Enter(0));
    var a := Apply(s, Enter(0));
    assert [] + [X] == [X];
    t := Apply(a, Append([X]));
    hide Run;
    RunMore(s, [] + [Enter(0)], a, Append([X]));
    steps := [] + [Enter(0)] + [Append([X])];
  }

  /** Broker `i + 1` fetches the record and comes back for more. */
  lemma CatchOne(s: State, m: u32, i: u32, minInsync: nat, lag: nat) returns (a: State, b: State, t: State)
    requires Catching(s, m, i, minInsync, lag) && i < m
    ensures Enabled(s, Receive(i + 1, 1)) && Apply(s, Receive(i + 1, 1)) == a
    ensures Enabled(a, Ask(i + 1)) && Apply(a, Ask(i + 1)) == b
    ensures Enabled(b, Handle(i + 1, 1)) && Apply(b, Handle(i + 1, 1)) == t
    ensures Catching(t, m, i + 1, minInsync, lag)
  {
    hide Moved;
    var f := i + 1;
    assert s.followers[f] == [];
    a := Apply(s, Receive(f, 1));
    assert [] + s.log[0..1] == [X];
    b := Apply(a, Ask(f));
    t := Apply(b, Handle(f, 1));
    NothingWaits(b, Noted(b.leader, f, 1, 0, 1));
  }

  lemma NothingWaits(s: State, l: Leader)
    requires l.waiting == [] && l.hwm <= |s.log|
    ensures var t := Moved(s, l); t == s.(leader := l.(hwm := t.leader.hwm)) && t.leader.hwm <= |s.log|
  {
    CoveredIsLeast(l.isr, l.self, l.progress, |s.log|);
    hide Covered;
  }

  /** The mark reaches the log end when the whole ISR has. */
  lemma AllCovered(isr: seq<Id>, self: Id, progress: map<Id, Progress>, logEnd: nat)
    requires forall f {:trigger f in isr} :: f in isr && f != self ==> f in progress && progress[f].offset >= logEnd
    ensures Covered(isr, self, progress, logEnd) == logEnd
  {
    CoveredIsLeast(isr, self, progress, logEnd);
    hide Covered;
  }

  lemma {:induction false} CatchUp(s: State, steps: seq<Step>, t: State, m: u32, i: u32, minInsync: nat, lag: nat)
    returns (more: seq<Step>, u: State)
    requires Run(s, steps, t) && Catching(t, m, i, minInsync, lag)
    ensures Run(s, more, u) && Catching(u, m, m, minInsync, lag)
    decreases m - i
  {
    assert i <= m;
    hide Run, Catching, Apply, Enabled;
    if i == m {
      return steps, t;
    }
    var a, b, c := CatchOne(t, m, i, minInsync, lag);
    RunMore(s, steps, t, Receive(i + 1, 1));
    RunMore(s, steps + [Receive(i + 1, 1)], a, Ask(i + 1));
    RunMore(s, steps + [Receive(i + 1, 1)] + [Ask(i + 1)], b, Handle(i + 1, 1));
    more, u := CatchUp(s, steps + [Receive(i + 1, 1)] + [Ask(i + 1)] + [Handle(i + 1, 1)], c, m, i + 1, minInsync, lag);
  }

  /** The whole ISR has the batch, and it is answered. */
  lemma Answers(s: State, m: u32, minInsync: nat, lag: nat) returns (t: State)
    requires Catching(s, m, m, minInsync, lag)
    ensures Enabled(s, Park(W)) && Apply(s, Park(W)) == t
    ensures t.leader == s.leader.(hwm := 1) && t.acked == [W] && t.followers == s.followers && t.log == [X]
    ensures t.proposed == None && t.now == 0 && t.lag == lag
  {
    hide Moved;
    t := Apply(s, Park(W));
    assert [] + [W] == [W];
    OneIsAnswered(s.(entered := s.entered - {0}, parked := [W]), s.leader.(waiting := [W]));
  }

  lemma OneIsAnswered(s: State, l: Leader)
    requires l.waiting == [W] && l.hwm <= 1 == |s.log|
    requires forall f {:trigger f in l.isr} ::
               f in l.isr && f != l.self ==> f in l.progress && l.progress[f].offset >= 1
    ensures Moved(s, l) == s.(leader := l.(hwm := 1, waiting := []), acked := s.acked + [W])
  {
    AllCovered(l.isr, l.self, l.progress, 1);
    hide Covered, Passed, NotPassed;
    assert [] + [W] == [W];
    PassedGrows([], W, 1);
  }

  /** Everybody counts as recent: whoever has fetched did so now, and whoever has not is as recent as the leader. */
  lemma {:induction false} WantsAll(n: u32, progress: map<u32, Progress>, lag: nat)
    requires 1 <= n
    requires forall f {:trigger progress[f]} :: f in progress ==> progress[f] == Progress(1, 0)
    ensures DesiredIsr(Ids(n), 1, progress, 0, 0, lag) == Ids(n)
    decreases n
  {
    var s := Ids(n);
    if n == 1 {
      assert s[..0] == [];
      assert s == [1];
    } else {
      WantsAll(n - 1, progress, lag);
      assert s[..n - 1] == Ids(n - 1);
      assert s == s[..n - 1] + [n];
    }
  }

  lemma OtherSet(a: seq<Id>, b: seq<Id>)
    requires |a| != |b|
    ensures multiset(a) != multiset(b)
  {
    assert |multiset(a)| == |a| && |multiset(b)| == |b|;
  }

  lemma Proposes(s: State, m: u32, lag: nat)
    requires 1 <= m && m + 1 < U32_RANGE && s.leader.self == 1 && s.leader.replicas == Ids(m + 1)
    requires s.leader.isr == Ids(m) && s.leader.since == 0 && s.now == 0 && s.lag == lag && s.proposed == None
    requires forall f {:trigger s.leader.progress[f]} ::
               f in s.leader.progress ==> s.leader.progress[f] == Progress(1, 0)
    ensures Enabled(s, Propose) && Apply(s, Propose) == s.(proposed := Some(Ids(m + 1)))
  {
    hide DesiredIsr, SortIds;
    WantsAll(m + 1, s.leader.progress, lag);
    SortedIsUnique(SortIds(Ids(m + 1)), Ids(m + 1));
    OtherSet(Ids(m + 1), Ids(m));
  }

  /** For every minimum size of the ISR and every lag: a leader whose ISR has that size, and has all of its log,
      acknowledges a batch and then has a follower taken into the ISR on the strength of its clock alone, which
      has fetched nothing, may be elected and does not have the batch. */
  lemma LateAdmissionLosesAck(minInsync: nat, lag: nat) returns (late: Id, s: State, steps: seq<Step>, t: State)
    requires minInsync + 1 < U32_RANGE
    ensures Start(s) && Run(s, steps, t) && s.minInsync == minInsync && s.lag == lag && !AdmitsAll(s, steps)
    ensures late in t.leader.isr && late in t.followers && W in t.acked && t.followers[late] == [] && t.log == [X]
    ensures !HeldBy(t, W, late)
  {
    var m: u32 := if minInsync == 0 then 1 else minInsync;
    late, s := m + 1, Alone(m, minInsync, lag);
    var a, b, c;
    steps, a := Begins(m, minInsync, lag);
    steps, b := CatchUp(s, steps, a, m, 1, minInsync, lag);
    c := Answers(b, m, minInsync, lag);
    t := LetsIn(b, c, m, minInsync, lag);
    hide Run, Catching, Apply, Enabled, Start, AdmitsAll;
    RunMore(s, steps, b, Park(W));
    RunMore(s, steps + [Park(W)], c, Propose);
    RunMore(s, steps + [Park(W)] + [Propose], c.(proposed := Some(Ids(m + 1))), AcceptIsr);
    steps := steps + [Park(W)] + [Propose] + [AcceptIsr];
    if AdmitsAll(s, steps) {
      AckedIsEverywhere(s, steps, t);
    }
  }

  lemma LetsIn(b: State, c: State, m: u32, minInsync: nat, lag: nat) returns (t: State)
    requires Catching(b, m, m, minInsync, lag)
    requires c.leader == b.leader.(hwm := 1) && c.acked == [W] && c.followers == b.followers && c.log == [X]
    requires c.proposed == None && c.now == 0 && c.lag == lag
    ensures var p := c.(proposed := Some(Ids(m + 1)));
            && Enabled(c, Propose) && Apply(c, Propose) == p && Enabled(p, AcceptIsr) && Apply(p, AcceptIsr) == t
    ensures m + 1 in t.leader.isr && m + 1 in t.followers && W in t.acked && t.followers[m + 1] == []
    ensures t.log == [X] && t.leader.self == 1 && !HeldBy(t, W, m + 1)
  {
    Proposes(c, m, lag);
    InFollowers(b, m, minInsync, lag);
    hide Enabled, Apply, Catching;
    t := Joins(c, m);
  }

  lemma InFollowers(b: State, m: u32, minInsync: nat, lag: nat)
    requires Catching(b, m, m, minInsync, lag)
    ensures 1 <= m && m + 1 in b.followers && b.followers[m + 1] == [] && b.leader.self == 1
  {
  }

  lemma Joins(c: State, m: u32) returns (t: State)
    requires 1 <= m && m + 1 < U32_RANGE && c.acked == [W] && c.log == [X] && c.leader.self == 1
    requires m + 1 in c.followers && c.followers[m + 1] == []
    ensures var p := c.(proposed := Some(Ids(m + 1))); Enabled(p, AcceptIsr) && Apply(p, AcceptIsr) == t
    ensures m + 1 in t.leader.isr && m + 1 in t.followers && W in t.acked && t.followers[m + 1] == []
    ensures t.log == [X] && t.leader.self == 1 && !HeldBy(t, W, m + 1)
  {
    hide Covered, Passed, NotPassed;
    t := Apply(c.(proposed := Some(Ids(m + 1))), AcceptIsr);
    assert Ids(m + 1)[m] == m + 1;
    assert [X][..1] == [X];
  }
}
