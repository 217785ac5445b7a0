/** Log agreement over runs with any number of leader epochs. The controller publishes leaders, a leader adopts
    an epoch, records it and appends; a follower reconciles through the epoch check, then fetches (src/broker/
    cluster.rs, src/broker/mod.rs, src/storage/epoch.rs). A broker looks at its role when a request arrives, and
    reads its log or its checkpoint for the answer later, whatever has become of them by then. `terms` is what
    each epoch's leader has written. */
module LogAgreement {
  import opened Wrappers
  import opened Bytes
  import opened RecordCodec
  import opened EpochHistory
  import opened Follower
  import opened EpochReconciliation

  type Id = u32

  /** What the controller publishes about the partition; no leader means offline. */
  datatype Meta = Meta(epoch: u64, leader: Option<Id>)

  datatype Term = Term(leader: Id, log: seq<Record>)

  datatype FetchResponse = FetchResponse(offset: nat, records: seq<Record>)

  /** A follower's fetcher asks once where its last epoch ended, then fetches. `asked` says that its request has
      arrived and was let in; the answer or the response is in flight, or None. */
  datatype Role =
    | Idle
    | Leading(epoch: u64)
    | Reconciling(epoch: u64, leader: Id, asked: bool, answer: Option<nat>)
    | Fetching(epoch: u64, leader: Id, local: u64, asked: bool, response: Option<FetchResponse>)

  /** `view` is the newest metadata that the broker has applied. */
  datatype Peer = Peer(view: nat, node: Node, role: Role)

  datatype Cluster = Cluster(published: seq<Meta>, peers: map<Id, Peer>, terms: map<u64, Term>)

  // ---------------------------------------------------------------- the steps

  datatype Step =
    | Publish(meta: Meta)
    | Adopt(r: Id, k: nat)
    | AppendOne(r: Id, record: Record)
    | ArriveCheck(r: Id)
    | AnswerCheck(r: Id)
    | Reconcile(r: Id)
    | ArriveFetch(r: Id)
    | AnswerFetch(r: Id, count: nat)
    | Deliver(r: Id, count: nat)
    | Stop(r: Id)

  /** What the controller may publish after `a`: a later epoch, or the same one with the same leader or none. */
  predicate Succeeds(a: Meta, b: Meta) {
    a.epoch < b.epoch || (a.epoch == b.epoch && (b.leader == a.leader || b.leader.None?))
  }

  predicate Leads(p: Peer, epoch: u64) {
    p.role == Leading(epoch)
  }

  predicate IsFollower(role: Role) {
    role.Reconciling? || role.Fetching?
  }

  predicate Enabled(s: Cluster, step: Step) {
    match step
    case Publish(m) => m.epoch > 0 && (s.published != [] ==> Succeeds(s.published[|s.published| - 1], m))
    case Adopt(r, k) => r in s.peers && s.peers[r].view <= k < |s.published|
    case AppendOne(r, _) =>
      && r in s.peers && s.peers[r].role.Leading? && s.peers[r].role.epoch in s.terms
      && |s.peers[r].node.log| + 1 < U64_RANGE
    case ArriveCheck(r) =>
      && r in s.peers && s.peers[r].role.Reconciling? && !s.peers[r].role.asked
      && s.peers[r].role.leader in s.peers && s.peers[s.peers[r].role.leader].role.Leading?
    case AnswerCheck(r) =>
      && r in s.peers && s.peers[r].role.Reconciling? && s.peers[r].role.asked && s.peers[r].role.answer.None?
      && s.peers[r].role.leader in s.peers
    case Reconcile(r) => r in s.peers && s.peers[r].role.Reconciling? && s.peers[r].role.answer.Some?
    case ArriveFetch(r) =>
      && r in s.peers && s.peers[r].role.Fetching? && !s.peers[r].role.asked
      && s.peers[r].role.leader in s.peers && Leads(s.peers[s.peers[r].role.leader], s.peers[r].role.epoch)
    case AnswerFetch(r, count) =>
      && r in s.peers && s.peers[r].role.Fetching? && s.peers[r].role.asked && s.peers[r].role.response.None?
      && s.peers[r].role.leader in s.peers
      && |s.peers[r].node.log| + count <= |s.peers[s.peers[r].role.leader].node.log|
    case Deliver(r, count) =>
      && r in s.peers && s.peers[r].role.Fetching? && s.peers[r].role.response.Some?
      && count <= |Continuing(s.peers[r])| && |s.peers[r].node.log| + count < U64_RANGE
    case Stop(r) => r in s.peers
  }

  /** The records in the response, which the log refuses when they do not continue it. */
  function Continuing(p: Peer): seq<Record>
    requires p.role.Fetching? && p.role.response.Some?
  {
    if p.role.response.value.offset == |p.node.log| then p.role.response.value.records else []
  }

  /** A broker applies published metadata. Nothing happens to a fetcher, or a leader, of the same epoch. */
  function Adopted(p: Peer, r: Id, k: nat, m: Meta): Peer {
    if m.leader == Some(r) then
      if Leads(p, m.epoch) then p.(view := k) else Peer(k, Stamped(p.node, m.epoch), Leading(m.epoch))
    else if IsFollower(p.role) && p.role.epoch == m.epoch then p.(view := k)
    else Peer(k, p.node, if m.leader.Some? then Reconciling(m.epoch, m.leader.value, false, None) else Idle)
  }

  function Delivered(p: Peer, count: nat): Peer
    requires p.role.Fetching? && p.role.response.Some?
    requires count <= |Continuing(p)| && |p.node.log| + count < U64_RANGE
  {
    var role := p.role;
    var node := Fetched(p.node, role.local, role.epoch, Continuing(p), count);
    var local := if role.epoch > role.local then role.epoch else role.local;
    Peer(p.view, node,
         if count == |role.response.value.records| then Fetching(role.epoch, role.leader, local, false, None)
         else Idle)
  }

  function With(s: Cluster, r: Id, p: Peer): Cluster {
    s.(peers := s.peers[r := p])
  }

  function Apply(s: Cluster, step: Step): Cluster
    requires Enabled(s, step)
  {
    match step
    case Publish(m) => s.(published := s.published + [m])
    case Adopt(r, k) =>
      var m := s.published[k];
      var p := Adopted(s.peers[r], r, k, m);
      With(if p.role == Leading(m.epoch) && m.epoch !in s.terms
           then s.(terms := s.terms[m.epoch := Term(r, p.node.log)]) else s, r, p)
    case AppendOne(r, record) =>
      var p, e := s.peers[r], s.peers[r].role.epoch;
      var t := s.terms[e];
      With(s.(terms := s.terms[e := Term(t.leader, t.log + [record])]), r,
           p.(node := NodeData(p.node.log + [record], p.node.history)))
    case ArriveCheck(r) =>
      var role := s.peers[r].role;
      With(s, r, s.peers[r].(role := Reconciling(role.epoch, role.leader, true, role.answer)))
    case AnswerCheck(r) =>
      var p := s.peers[r];
      var l := s.peers[p.role.leader].node;
      With(s, r, p.(role := p.role.(answer := Some(EndOf(l.history, CurrentEpoch(p.node.history), |l.log|)))))
    case Reconcile(r) =>
      var p := s.peers[r];
      With(s, r, Peer(p.view, Reconciled(p.node, p.role.answer.value),
                      Fetching(p.role.epoch, p.role.leader, CurrentEpoch(p.node.history), false, None)))
    case ArriveFetch(r) =>
      var role := s.peers[r].role;
      With(s, r, s.peers[r].(role := Fetching(role.epoch, role.leader, role.local, true, role.response)))
    case AnswerFetch(r, count) =>
      var p := s.peers[r];
      var end := |p.node.log|;
      var l := s.peers[p.role.leader].node;
      With(s, r, p.(role := p.role.(response := Some(FetchResponse(end, l.log[end..end + count])))))
    case Deliver(r, count) => With(s, r, Delivered(s.peers[r], count))
    case Stop(r) => With(s, r, s.peers[r].(role := Idle))
  }

  // ---------------------------------------------------------------- runs

  ghost predicate Init(s: Cluster) {
    && s.published == [] && s.terms == map[]
    && forall r {:trigger s.peers[r]} :: r in s.peers ==> s.peers[r] == Peer(0, NodeData([], []), Idle)
  }

  ghost predicate Run(s: Cluster, steps: seq<Step>, t: Cluster)
    decreases |steps|
  {
    if steps == [] then s == t
    else Enabled(s, steps[0]) && Run(Apply(s, steps[0]), steps[1..], t)
  }

  /** The condition on the answer to one epoch check, over the two checkpoints. */
  ghost predicate SoundCheck(s: Cluster, step: Step) {
    step.AnswerCheck? && Enabled(s, step) ==>
      var f := s.peers[step.r].node;
      var l := s.peers[s.peers[step.r].role.leader].node;
      SoundAnswer(f.history, |f.log|, l.history, |l.log|, s.peers[step.r].role.epoch)
  }

  /** The condition on one read for a fetch: the checkpoint of whoever is read lists the fetcher's epoch and says
      that it has not ended before the last record read. */
  ghost predicate SoundFetch(s: Cluster, step: Step) {
    step.AnswerFetch? && step.count > 0 && Enabled(s, step) ==>
      var l := s.peers[s.peers[step.r].role.leader].node;
      Covers(l.history, |l.log|, s.peers[step.r].role.epoch, |s.peers[step.r].node.log| + step.count)
  }

  ghost predicate SoundChecks(s: Cluster, steps: seq<Step>)
    decreases |steps|
  {
    steps == [] ||
    (SoundCheck(s, steps[0]) && (Enabled(s, steps[0]) ==> SoundChecks(Apply(s, steps[0]), steps[1..])))
  }

  ghost predicate SoundFetches(s: Cluster, steps: seq<Step>)
    decreases |steps|
  {
    steps == [] ||
    (SoundFetch(s, steps[0]) && (Enabled(s, steps[0]) ==> SoundFetches(Apply(s, steps[0]), steps[1..])))
  }

  // ---------------------------------------------------------------- the invariant

  ghost predicate PublishedOk(ms: seq<Meta>) {
    && (forall i {:trigger ms[i]} :: 0 <= i < |ms| ==> ms[i].epoch > 0)
    && (forall i, j {:trigger ms[i], ms[j]} :: 0 <= i < j < |ms| ==> Succeeds(ms[i], ms[j]))
  }

  /** An epoch that has been led was published, and nobody but its leader can be published for it. */
  ghost predicate TermOk(ms: seq<Meta>, e: u64, t: Term) {
    && ms != [] && e <= ms[|ms| - 1].epoch
    && forall k {:trigger ms[k]} :: 0 <= k < |ms| && ms[k].epoch == e && ms[k].leader.Some?
         ==> ms[k].leader == Some(t.leader)
  }

  ghost predicate TermsOk(ms: seq<Meta>, terms: map<u64, Term>) {
    forall e {:trigger terms[e]} :: e in terms ==> TermOk(ms, e, terms[e])
  }

  function Logs(terms: map<u64, Term>): map<u64, seq<Record>> {
    map e | e in terms :: terms[e].log
  }

  /** What the leader of `e` has written, nothing before it has adopted the epoch. */
  function TermLog(terms: map<u64, Term>, e: u64): seq<Record> {
    if e in terms then terms[e].log else []
  }

  /** The broker's present metadata makes it the leader of `e`. */
  predicate Named(ms: seq<Meta>, view: nat, r: Id, e: u64) {
    view < |ms| && ms[view] == Meta(e, Some(r))
  }

  /** The controller has named the broker for the epoch. */
  ghost predicate NamedFor(ms: seq<Meta>, e: u64, l: Id) {
    exists k {:trigger ms[k]} :: 0 <= k < |ms| && ms[k] == Meta(e, Some(l))
  }

  ghost predicate ViewOk(ms: seq<Meta>, p: Peer) {
    && (if ms == [] then p.view == 0 else p.view < |ms|)
    && (CurrentEpoch(p.node.history) > 0 ==> p.view < |ms| && CurrentEpoch(p.node.history) <= ms[p.view].epoch)
  }

  /** A leader, running or restarted, has written what its epoch's log holds, and lists the epoch. */
  ghost predicate LeaderOk(ms: seq<Meta>, terms: map<u64, Term>, r: Id, p: Peer) {
    p.view < |ms| && ms[p.view].leader == Some(r) && ms[p.view].epoch in terms ==>
      && terms[ms[p.view].epoch] == Term(r, p.node.log)
      && CurrentEpoch(p.node.history) == ms[p.view].epoch
      && !IsFollower(p.role)
  }

  ghost predicate RoleOk(ms: seq<Meta>, terms: map<u64, Term>, r: Id, p: Peer) {
    match p.role
    case Idle => true
    case Leading(e) => Named(ms, p.view, r, e) && e in terms
    case Reconciling(e, l, asked, answer) =>
      && p.view < |ms| && ms[p.view].epoch == e && ms[p.view].leader != Some(r) && l != r && NamedFor(ms, e, l)
      && (answer.Some? ==> AnswerOk(p.node, e, answer.value, TermLog(terms, e)))
    case Fetching(e, l, local, asked, response) =>
      && p.view < |ms| && ms[p.view].epoch == e && ms[p.view].leader != Some(r) && l != r && NamedFor(ms, e, l)
      && p.node.log <= TermLog(terms, e) && (asked ==> e in terms)
      && (local >= e ==> CurrentEpoch(p.node.history) == e)
      && (response.Some? ==> asked && ResponseOk(response.value, terms[e].log))
  }

  /** The part of the follower's log that the answer keeps is the epoch's, and if the follower lists the epoch,
      the cut leaves it listed. */
  ghost predicate AnswerOk(n: Node, e: u64, x: nat, log: seq<Record>) {
    && n.log[..Min(x, |n.log|)] <= log
    && (CurrentEpoch(n.history) == e ==> CurrentEpoch(Reconciled(n, x).history) == e)
  }

  ghost predicate ResponseOk(b: FetchResponse, log: seq<Record>) {
    b.offset + |b.records| <= |log| && log[b.offset..b.offset + |b.records|] == b.records
  }

  ghost predicate PeerOk(ms: seq<Meta>, terms: map<u64, Term>, r: Id, p: Peer) {
    && Agrees(p.node, Logs(terms)) && ViewOk(ms, p) && LeaderOk(ms, terms, r, p) && RoleOk(ms, terms, r, p)
  }

  /** Whoever has led an epoch has not gone back before it. */
  ghost predicate LeadersSeen(s: Cluster) {
    forall e {:trigger s.terms[e]} :: e in s.terms ==> LeaderSeen(s, e, s.terms[e].leader)
  }

  ghost predicate LeaderSeen(s: Cluster, e: u64, r: Id) {
    r in s.peers && s.peers[r].view < |s.published| && s.published[s.peers[r].view].epoch >= e
  }

  ghost predicate Inv(s: Cluster) {
    && PublishedOk(s.published) && TermsOk(s.published, s.terms) && LeadersSeen(s)
    && forall r {:trigger s.peers[r]} :: r in s.peers ==> PeerOk(s.published, s.terms, r, s.peers[r])
  }

  // ---------------------------------------------------------------- one node

  /** A new epoch begins at the log end and claims nothing yet beyond what the log holds. */
  lemma StampKeeps(n: Node, e: u64, written: map<u64, seq<Record>>)
    requires Agrees(n, written) && e > CurrentEpoch(n.history) && e in written && n.log <= written[e]
    ensures Stamped(n, e) == NodeData(n.log, n.history + [EpochStart(e, |n.log|)])
    ensures Agrees(Stamped(n, e), written) && CurrentEpoch(Stamped(n, e).history) == e
  {
    var m := Stamped(n, e);
    StampOrdered(n.history, |n.log|, e);
    hide Ordered, Stamped;
    forall i | 0 <= i < |m.history| ensures EntryAgrees(m, i, written) {
      if i < |n.history| {
        assert EntryAgrees(n, i, written);
        assert EndAt(m.history, i, |m.log|) == EndAt(n.history, i, |n.log|);
      } else {
        assert m.log[..|m.log|] == m.log;
      }
    }
  }

  lemma StampOrdered(h: seq<EpochStart>, logEnd: u64, e: u64)
    requires Ordered(h, logEnd) && e > CurrentEpoch(h)
    ensures Ordered(h + [EpochStart(e, logEnd)], logEnd) && (h != [] ==> h[|h| - 1].start <= logEnd)
  {
  }

  /** Records appended under the last epoch must be that epoch's. */
  lemma AppendKeeps(n: Node, m: Node, written: map<u64, seq<Record>>)
    requires Agrees(n, written) && m.history == n.history && n.log <= m.log
    requires n.history != [] && CurrentEpoch(n.history) in written && m.log <= written[CurrentEpoch(n.history)]
    ensures Agrees(m, written)
  {
    AppendOrdered(n.history, |n.log|, |m.log|);
    hide Ordered;
    forall i | 0 <= i < |m.history| ensures EntryAgrees(m, i, written) {
      assert EntryAgrees(n, i, written);
      if i + 1 < |n.history| {
        assert m.log[..EndAt(m.history, i, |m.log|)] == n.log[..EndAt(n.history, i, |n.log|)];
      } else {
        assert m.log[..|m.log|] == m.log;
      }
    }
  }

  lemma AppendOrdered(h: seq<EpochStart>, end: nat, newEnd: nat)
    requires Ordered(h, end) && end <= newEnd
    ensures Ordered(h, newEnd)
  {
  }

  lemma CutKeeps(n: Node, offset: nat, written: map<u64, seq<Record>>)
    requires Agrees(n, written) && offset <= |n.log|
    ensures Agrees(CutAt(n, offset), written)
    ensures CurrentEpoch(CutAt(n, offset).history) <= CurrentEpoch(n.history)
  {
    hide KeptEntries, Ordered, EntryAgrees;
    var m := CutAt(n, offset);
    CutOrdered(n.history, |n.log|, offset);
    CutEpoch(n.history, |m.history|);
    forall i | 0 <= i < |m.history| ensures EntryAgrees(m, i, written) {
      assert m.history[i] == n.history[i];
      CutEntry(n, i, offset, written);
    }
  }

  lemma CutOrdered(h: seq<EpochStart>, logEnd: nat, offset: nat)
    requires Ordered(h, logEnd)
    ensures Ordered(h[..KeptEntries(h, offset)], offset) && Monotone(h)
  {
    hide KeptEntries;
    KeptIsBelow(h, offset);
  }

  lemma CutEntry(n: Node, i: nat, offset: nat, written: map<u64, seq<Record>>)
    requires Monotone(n.history) && offset <= |n.log| && i < KeptEntries(n.history, offset)
    requires EntryAgrees(n, i, written)
    ensures EntryAgrees(CutAt(n, offset), i, written)
  {
    hide KeptEntries, Monotone;
    var m := CutAt(n, offset);
    CutEnd(n.history, i, |n.log|, offset);
    var end := EndAt(m.history, i, offset);
    assert m.log[..end] == n.log[..EndAt(n.history, i, |n.log|)][..end];
  }

  lemma CutEpoch(h: seq<EpochStart>, k: nat)
    requires Monotone(h) && k <= |h|
    ensures CurrentEpoch(h[..k]) <= CurrentEpoch(h)
  {
  }

  lemma CutEnd(h: seq<EpochStart>, i: nat, logEnd: nat, offset: nat)
    requires Monotone(h) && offset <= logEnd && i < KeptEntries(h, offset)
    ensures EndAt(h[..KeptEntries(h, offset)], i, offset) <= EndAt(h, i, logEnd)
    ensures EndAt(h[..KeptEntries(h, offset)], i, offset) <= offset
  {
    hide KeptEntries;
  }

  /** Epochs' logs only grow, and what agrees keeps agreeing. */
  ghost predicate WrittenGrows(a: map<u64, seq<Record>>, b: map<u64, seq<Record>>) {
    forall e {:trigger a[e]} {:trigger b[e]} :: e in a ==> e in b && a[e] <= b[e]
  }

  lemma AgreesLater(n: Node, a: map<u64, seq<Record>>, b: map<u64, seq<Record>>)
    requires Agrees(n, a) && WrittenGrows(a, b)
    ensures Agrees(n, b)
  {
    hide Ordered, EndAt;
    forall i | 0 <= i < |n.history| ensures EntryAgrees(n, i, b) {
      assert EntryAgrees(n, i, a);
    }
  }

  // ---------------------------------------------------------------- what other peers keep

  ghost predicate TermsGrow(a: map<u64, Term>, b: map<u64, Term>) {
    forall e {:trigger a[e]} {:trigger b[e]} :: e in a ==> e in b && a[e].leader == b[e].leader && a[e].log <= b[e].log
  }

  lemma LogsGrow(a: map<u64, Term>, b: map<u64, Term>)
    requires TermsGrow(a, b)
    ensures WrittenGrows(Logs(a), Logs(b))
  {
  }

  lemma NamedLater(ms: seq<Meta>, more: seq<Meta>, e: u64, l: Id)
    requires NamedFor(ms, e, l) && ms <= more
    ensures NamedFor(more, e, l)
  {
    var k :| 0 <= k < |ms| && ms[k] == Meta(e, Some(l));
    assert more[k] == ms[k];
  }

  lemma RoleLater(ms: seq<Meta>, more: seq<Meta>, a: map<u64, Term>, b: map<u64, Term>, r: Id, p: Peer)
    requires RoleOk(ms, a, r, p) && ms <= more && TermsGrow(a, b)
    ensures RoleOk(more, b, r, p)
  {
    match p.role
    case Idle =>
    case Leading(e) =>
    case Reconciling(e, l, asked, answer) =>
      NamedLater(ms, more, e, l);
      assert TermLog(a, e) <= TermLog(b, e);
    case Fetching(e, l, local, asked, response) =>
      NamedLater(ms, more, e, l);
      assert TermLog(a, e) <= TermLog(b, e);
      if response.Some? {
        var x := response.value;
        assert b[e].log[x.offset..x.offset + |x.records|] == a[e].log[x.offset..x.offset + |x.records|];
      }
  }

  lemma PeerLater(ms: seq<Meta>, more: seq<Meta>, a: map<u64, Term>, b: map<u64, Term>, r: Id, p: Peer)
    requires PeerOk(ms, a, r, p) && ms <= more && TermsGrow(a, b)
    requires LeaderOk(more, b, r, p) && (if more == [] then p.view == 0 else p.view < |more|)
    ensures PeerOk(more, b, r, p)
  {
    hide LeaderOk, RoleOk, TermsGrow, Agrees;
    LogsGrow(a, b);
    AgreesLater(p.node, Logs(a), Logs(b));
    RoleLater(ms, more, a, b, r, p);
  }

  /** Only one broker can be named for an epoch. */
  lemma OneNamed(ms: seq<Meta>, i: nat, j: nat)
    requires PublishedOk(ms) && i < |ms| && j < |ms| && ms[i].epoch == ms[j].epoch
    requires ms[i].leader.Some? && ms[j].leader.Some?
    ensures ms[i].leader == ms[j].leader
  {
    if i < j {
      assert Succeeds(ms[i], ms[j]);
    } else if j < i {
      assert Succeeds(ms[j], ms[i]);
    }
  }

  lemma EpochsGrow(ms: seq<Meta>, i: nat, j: nat)
    requires PublishedOk(ms) && i <= j < |ms|
    ensures ms[i].epoch <= ms[j].epoch
    ensures ms[i].epoch == ms[j].epoch && ms[j].leader.Some? ==> ms[i].leader == ms[j].leader
  {
    if i < j {
      assert Succeeds(ms[i], ms[j]);
    }
  }

  /** A change to the term that `r` leads concerns no other peer's leadership. */
  lemma OthersLead(ms: seq<Meta>, a: map<u64, Term>, b: map<u64, Term>, e: u64, k: nat, r: Id, q: Id, p: Peer)
    requires PublishedOk(ms) && k < |ms| && ms[k] == Meta(e, Some(r)) && q != r
    requires forall x :: x in b && x != e ==> x in a && b[x] == a[x]
    requires LeaderOk(ms, a, q, p)
    ensures LeaderOk(ms, b, q, p)
  {
    if p.view < |ms| && ms[p.view].leader == Some(q) && ms[p.view].epoch == e {
      OneNamed(ms, p.view, k);
    }
  }

  /** A step that changes one peer, and perhaps the term that this peer leads. */
  lemma ChangeOne(s: Cluster, t: Cluster, r: Id)
    requires Inv(s) && r in s.peers && r in t.peers && t.peers == s.peers[r := t.peers[r]]
    requires t.published == s.published && TermsGrow(s.terms, t.terms) && TermsOk(t.published, t.terms)
    requires LeadersSeen(t) && PeerOk(t.published, t.terms, r, t.peers[r])
    requires forall q {:trigger s.peers[q]} :: q in s.peers && q != r ==> LeaderOk(t.published, t.terms, q, s.peers[q])
    ensures Inv(t)
  {
    hide PublishedOk, TermsOk, LeadersSeen, LeaderOk, TermsGrow, RoleOk, Agrees;
    forall q | q in t.peers ensures PeerOk(t.published, t.terms, q, t.peers[q]) {
      if q != r {
        PeerLater(s.published, t.published, s.terms, t.terms, q, s.peers[q]);
      }
    }
  }

  lemma TermsStay(a: map<u64, Term>)
    ensures TermsGrow(a, a)
  {
  }

  lemma SeenLater(s: Cluster, t: Cluster, r: Id)
    requires LeadersSeen(s) && r in s.peers && r in t.peers && t.peers == s.peers[r := t.peers[r]]
    requires t.published == s.published && t.terms == s.terms
    requires PublishedOk(s.published)
    requires s.published != [] ==> s.peers[r].view <= t.peers[r].view < |s.published|
    ensures LeadersSeen(t)
  {
    hide PublishedOk;
    forall e | e in t.terms ensures LeaderSeen(t, e, t.terms[e].leader) {
      var q := s.terms[e].leader;
      assert LeaderSeen(s, e, q);
      if q == r {
        EpochsGrow(s.published, s.peers[r].view, t.peers[r].view);
      }
    }
  }

  /** A step that changes one peer and no term. */
  lemma ChangePeer(s: Cluster, t: Cluster, r: Id)
    requires Inv(s) && r in s.peers && r in t.peers && t.peers == s.peers[r := t.peers[r]]
    requires t.published == s.published && t.terms == s.terms
    requires s.published != [] ==> s.peers[r].view <= t.peers[r].view < |s.published|
    requires PeerOk(t.published, t.terms, r, t.peers[r])
    ensures Inv(t)
  {
    hide PublishedOk, TermsOk, LeadersSeen, LeaderOk, TermsGrow, RoleOk, Agrees, ViewOk;
    TermsStay(s.terms);
    SeenLater(s, t, r);
    ChangeOne(s, t, r);
  }

  // ---------------------------------------------------------------- step by step

  lemma PublishKeeps(s: Cluster, m: Meta)
    requires Inv(s) && Enabled(s, Publish(m))
    ensures Inv(Apply(s, Publish(m)))
  {
    hide PeerOk, LeaderOk;
    var t := Apply(s, Publish(m));
    PublishedLater(s.published, m);
    forall e | e in t.terms ensures TermOk(t.published, e, t.terms[e]) && LeaderSeen(t, e, t.terms[e].leader) {
      assert TermOk(s.published, e, s.terms[e]) && LeaderSeen(s, e, s.terms[e].leader);
      TermLater(s.published, m, e, s.terms[e]);
    }
    hide PublishedOk, TermOk, LeadersSeen, LeaderSeen;
    TermsStay(s.terms);
    NoTermsYet(s);
    forall q | q in t.peers ensures PeerOk(t.published, t.terms, q, t.peers[q]) {
      PeerSeesMore(s.published, m, s.terms, q, s.peers[q]);
    }
  }

  lemma NoTermsYet(s: Cluster)
    requires TermsOk(s.published, s.terms)
    ensures s.published == [] ==> s.terms == map[]
  {
    if s.terms != map[] {
      var e :| e in s.terms;
      assert TermOk(s.published, e, s.terms[e]);
    }
  }

  lemma PublishedLater(ms: seq<Meta>, m: Meta)
    requires PublishedOk(ms) && m.epoch > 0 && (ms != [] ==> Succeeds(ms[|ms| - 1], m))
    ensures PublishedOk(ms + [m])
  {
    forall i | 0 <= i < |ms| ensures Succeeds(ms[i], m) {
      assert i < |ms| - 1 ==> Succeeds(ms[i], ms[|ms| - 1]);
    }
  }

  lemma TermLater(ms: seq<Meta>, m: Meta, e: u64, t: Term)
    requires TermOk(ms, e, t) && Succeeds(ms[|ms| - 1], m)
    ensures TermOk(ms + [m], e, t)
  {
  }

  lemma PeerSeesMore(ms: seq<Meta>, m: Meta, terms: map<u64, Term>, q: Id, p: Peer)
    requires PeerOk(ms, terms, q, p) && TermsGrow(terms, terms) && (ms == [] ==> terms == map[])
    ensures PeerOk(ms + [m], terms, q, p)
  {
    hide RoleOk, Agrees, TermsGrow;
    PeerLater(ms, ms + [m], terms, terms, q, p);
  }

  lemma StopKeeps(s: Cluster, r: Id)
    requires Inv(s) && Enabled(s, Stop(r))
    ensures Inv(Apply(s, Stop(r)))
  {
    hide PublishedOk, TermsOk, LeadersSeen, Agrees;
    var t := Apply(s, Stop(r));
    assert PeerOk(s.published, s.terms, r, s.peers[r]);
    ChangePeer(s, t, r);
  }

  /** What a running leader holds is exactly its term. */
  lemma LeaderIsTerm(s: Cluster, r: Id, e: u64)
    requires Inv(s) && r in s.peers && Leads(s.peers[r], e)
    ensures e in s.terms && s.terms[e] == Term(r, s.peers[r].node.log)
    ensures CurrentEpoch(s.peers[r].node.history) == e > 0
    ensures s.peers[r].view < |s.published| && s.published[s.peers[r].view] == Meta(e, Some(r))
  {
    hide TermsOk, LeadersSeen, Agrees;
    assert PeerOk(s.published, s.terms, r, s.peers[r]);
  }

  lemma AppendOneKeeps(s: Cluster, r: Id, record: Record)
    requires Inv(s) && Enabled(s, AppendOne(r, record))
    ensures Inv(Apply(s, AppendOne(r, record)))
  {
    hide LeadersSeen, PeerOk, TermsOk, PublishedOk, TermsGrow;
    var p := s.peers[r];
    var e := p.role.epoch;
    LeaderIsTerm(s, r, e);
    var t := Apply(s, AppendOne(r, record));
    ExtendTerm(s, e, record);
    AppendedPeer(s.published, s.terms, t.terms, r, p, record);
    forall q | q in s.peers && q != r ensures LeaderOk(t.published, t.terms, q, s.peers[q]) {
      LeadsStill(s, q);
      OthersLead(s.published, s.terms, t.terms, e, p.view, r, q, s.peers[q]);
    }
    SameLeaders(s, t, r);
    ChangeOne(s, t, r);
  }

  lemma LeadsStill(s: Cluster, q: Id)
    requires Inv(s) && q in s.peers
    ensures LeaderOk(s.published, s.terms, q, s.peers[q])
  {
    hide LeadersSeen, TermsOk, PublishedOk, LeaderOk, RoleOk, ViewOk, Agrees;
    assert PeerOk(s.published, s.terms, q, s.peers[q]);
  }

  lemma ExtendTerm(s: Cluster, e: u64, record: Record)
    requires TermsOk(s.published, s.terms) && e in s.terms
    ensures var b := s.terms[e := Term(s.terms[e].leader, s.terms[e].log + [record])];
            TermsGrow(s.terms, b) && TermsOk(s.published, b)
  {
    hide TermOk;
    var b := s.terms[e := Term(s.terms[e].leader, s.terms[e].log + [record])];
    assert TermOk(s.published, e, s.terms[e]);
    SameLeaderSameTerm(s.published, e, s.terms[e], b[e]);
  }

  lemma SameLeaderSameTerm(ms: seq<Meta>, e: u64, a: Term, b: Term)
    requires TermOk(ms, e, a) && a.leader == b.leader
    ensures TermOk(ms, e, b)
  {
  }

  lemma AppendedPeer(ms: seq<Meta>, a: map<u64, Term>, b: map<u64, Term>, r: Id, p: Peer, record: Record)
    requires PeerOk(ms, a, r, p) && p.role.Leading? && p.role.epoch in a
    requires a[p.role.epoch] == Term(r, p.node.log) && CurrentEpoch(p.node.history) == p.role.epoch > 0
    requires |p.node.log| + 1 < U64_RANGE && TermsGrow(a, b)
    requires b == a[p.role.epoch := Term(r, p.node.log + [record])]
    ensures PeerOk(ms, b, r, p.(node := NodeData(p.node.log + [record], p.node.history)))
  {
    hide Agrees, TermsGrow;
    LogsGrow(a, b);
    AgreesLater(p.node, Logs(a), Logs(b));
    AppendKeeps(p.node, NodeData(p.node.log + [record], p.node.history), Logs(b));
  }

  lemma SameLeaders(s: Cluster, t: Cluster, r: Id)
    requires LeadersSeen(s) && r in s.peers && r in t.peers && t.peers == s.peers[r := t.peers[r]]
    requires t.published == s.published && t.peers[r].view == s.peers[r].view
    requires t.terms.Keys == s.terms.Keys && forall e :: e in s.terms ==> t.terms[e].leader == s.terms[e].leader
    ensures LeadersSeen(t)
  {
    forall e | e in t.terms ensures LeaderSeen(t, e, t.terms[e].leader) {
      assert LeaderSeen(s, e, s.terms[e].leader);
    }
  }

  // ---------------------------------------------------------------- adopting an epoch

  /** An epoch that its leader has led before was left untouched in its log. */
  lemma ResumesTerm(s: Cluster, r: Id, k: nat)
    requires Inv(s) && r in s.peers && s.peers[r].view <= k < |s.published|
    requires s.published[k].leader == Some(r) && s.published[k].epoch in s.terms
    ensures var e := s.published[k].epoch;
            s.terms[e] == Term(r, s.peers[r].node.log) && CurrentEpoch(s.peers[r].node.history) == e
  {
    hide PublishedOk, Agrees, RoleOk;
    var e := s.published[k].epoch;
    assert TermOk(s.published, e, s.terms[e]) && LeaderSeen(s, e, s.terms[e].leader);
    EpochsGrow(s.published, s.peers[r].view, k);
    assert PeerOk(s.published, s.terms, r, s.peers[r]);
  }

  /** A new epoch is later than everything in its leader's history. */
  lemma NewEpochIsLater(s: Cluster, r: Id, k: nat)
    requires Inv(s) && r in s.peers && s.peers[r].view <= k < |s.published|
    requires s.published[k].epoch !in s.terms
    ensures CurrentEpoch(s.peers[r].node.history) < s.published[k].epoch
  {
    hide PublishedOk, TermsOk, LeadersSeen, RoleOk, LeaderOk;
    var n := s.peers[r].node;
    assert PeerOk(s.published, s.terms, r, s.peers[r]);
    EpochPositive(s.published, k);
    EpochsGrow(s.published, s.peers[r].view, k);
    if n.history != [] {
      assert EntryAgrees(n, |n.history| - 1, Logs(s.terms));
    }
  }

  lemma EpochPositive(ms: seq<Meta>, k: nat)
    requires PublishedOk(ms) && k < |ms|
    ensures ms[k].epoch > 0
  {
  }

  lemma AdoptFollowerKeeps(s: Cluster, r: Id, k: nat)
    requires Inv(s) && Enabled(s, Adopt(r, k)) && s.published[k].leader != Some(r)
    ensures Inv(Apply(s, Adopt(r, k)))
  {
    hide PublishedOk, TermsOk, LeadersSeen, Agrees;
    var t := Apply(s, Adopt(r, k));
    assert PeerOk(s.published, s.terms, r, s.peers[r]);
    EpochsGrow(s.published, s.peers[r].view, k);
    ChangePeer(s, t, r);
  }

  lemma AdoptAgainKeeps(s: Cluster, r: Id, k: nat)
    requires Inv(s) && Enabled(s, Adopt(r, k)) && s.published[k].leader == Some(r)
    requires s.published[k].epoch in s.terms
    ensures Inv(Apply(s, Adopt(r, k)))
  {
    hide PublishedOk, TermsOk, LeadersSeen, Agrees;
    var t := Apply(s, Adopt(r, k));
    ResumesTerm(s, r, k);
    assert PeerOk(s.published, s.terms, r, s.peers[r]);
    EpochsGrow(s.published, s.peers[r].view, k);
    ChangePeer(s, t, r);
  }

  lemma StartTerm(s: Cluster, r: Id, k: nat, log: seq<Record>)
    requires PublishedOk(s.published) && TermsOk(s.published, s.terms) && k < |s.published|
    requires s.published[k].leader == Some(r) && s.published[k].epoch !in s.terms
    ensures var b := s.terms[s.published[k].epoch := Term(r, log)];
            TermsGrow(s.terms, b) && TermsOk(s.published, b)
  {
    hide PublishedOk;
    var e := s.published[k].epoch;
    EpochsGrow(s.published, k, |s.published| - 1);
    forall i | 0 <= i < |s.published| && s.published[i].epoch == e && s.published[i].leader.Some?
      ensures s.published[i].leader == Some(r)
    {
      OneNamed(s.published, i, k);
    }
    assert TermOk(s.published, e, Term(r, log));
  }

  lemma NewLeader(ms: seq<Meta>, a: map<u64, Term>, b: map<u64, Term>, r: Id, p: Peer, k: nat)
    requires PeerOk(ms, a, r, p) && k < |ms| && ms[k].leader == Some(r) && TermsGrow(a, b)
    requires CurrentEpoch(p.node.history) < ms[k].epoch && b == a[ms[k].epoch := Term(r, p.node.log)]
    ensures PeerOk(ms, b, r, Peer(k, Stamped(p.node, ms[k].epoch), Leading(ms[k].epoch)))
    ensures Stamped(p.node, ms[k].epoch).log == p.node.log
  {
    hide Agrees, TermsGrow, Stamped;
    LogsGrow(a, b);
    AgreesLater(p.node, Logs(a), Logs(b));
    StampKeeps(p.node, ms[k].epoch, Logs(b));
  }

  lemma AdoptNewKeeps(s: Cluster, r: Id, k: nat)
    requires Inv(s) && Enabled(s, Adopt(r, k)) && s.published[k].leader == Some(r)
    requires s.published[k].epoch !in s.terms
    ensures Inv(Apply(s, Adopt(r, k)))
  {
    hide PublishedOk, TermsOk, LeadersSeen, PeerOk, LeaderOk, Stamped, TermsGrow;
    var e := s.published[k].epoch;
    NewEpochIsLater(s, r, k);
    var p := s.peers[r];
    NotLeadingYet(s, r, e);
    var t := Apply(s, Adopt(r, k));
    StartTerm(s, r, k, p.node.log);
    NewLeader(s.published, s.terms, s.terms[e := Term(r, p.node.log)], r, p, k);
    forall q | q in s.peers && q != r ensures LeaderOk(t.published, t.terms, q, s.peers[q]) {
      LeadsStill(s, q);
      OthersLead(s.published, s.terms, t.terms, e, k, r, q, s.peers[q]);
    }
    NewLeaderSeen(s, t, r, k);
    ChangeOne(s, t, r);
  }

  lemma NotLeadingYet(s: Cluster, r: Id, e: u64)
    requires Inv(s) && r in s.peers && e !in s.terms
    ensures !Leads(s.peers[r], e)
  {
    hide PublishedOk, TermsOk, LeadersSeen, Agrees;
    assert PeerOk(s.published, s.terms, r, s.peers[r]);
  }

  lemma NewLeaderSeen(s: Cluster, t: Cluster, r: Id, k: nat)
    requires LeadersSeen(s) && PublishedOk(s.published) && r in s.peers && r in t.peers
    requires s.peers[r].view <= k < |s.published| && t.peers == s.peers[r := t.peers[r]] && t.peers[r].view == k
    requires t.published == s.published
    requires exists log :: t.terms == s.terms[s.published[k].epoch := Term(r, log)]
    ensures LeadersSeen(t)
  {
    hide PublishedOk;
    forall e | e in t.terms ensures LeaderSeen(t, e, t.terms[e].leader) {
      if e != s.published[k].epoch {
        var q := s.terms[e].leader;
        assert LeaderSeen(s, e, q);
        if q == r {
          EpochsGrow(s.published, s.peers[r].view, k);
        }
      }
    }
  }

  // ---------------------------------------------------------------- the epoch check

  /** A replica whose last epoch is `e` holds a prefix of that term. */
  lemma LastEpochPrefix(n: Node, e: u64, written: map<u64, seq<Record>>)
    requires Agrees(n, written) && CurrentEpoch(n.history) == e > 0
    ensures e in written && n.log <= written[e]
  {
    hide Ordered;
    assert EntryAgrees(n, |n.history| - 1, written);
    assert n.log[..|n.log|] == n.log;
  }

  /** A history that ends with `e` says that `e` ends at the log end. */
  lemma LastEpochEnd(h: seq<EpochStart>, e: u64, logEnd: nat)
    requires Ordered(h, logEnd) && CurrentEpoch(h) == e > 0
    ensures EndOf(h, e, logEnd) == logEnd
  {
    hide CountUpTo;
    CountUpToIs(h, e, |h|);
  }

  lemma AnswerIsOk(f: Node, l: Node, e: u64, terms: map<u64, Term>)
    requires Agrees(f, Logs(terms)) && Agrees(l, Logs(terms)) && e > 0
    requires SoundAnswer(f.history, |f.log|, l.history, |l.log|, e)
    ensures AnswerOk(f, e, EndOf(l.history, CurrentEpoch(f.history), |l.log|), TermLog(terms, e))
  {
    hide EndOf, Ordered, Linked, KeepsLast, KeptEntries;
    var t := Target(f.history, |f.log|, l.history, |l.log|);
    if t > 0 {
      LinkedAgrees(f, l, e, t, Logs(terms));
    }
    if CurrentEpoch(f.history) == e {
      LastIsKept(f.history, |f.log|, e, EndOf(l.history, e, |l.log|));
    }
  }

  /** The replica that a follower names as its leader. */
  lemma LeaderOf(s: Cluster, r: Id) returns (l: Node, e: u64)
    requires Inv(s) && r in s.peers && IsFollower(s.peers[r].role) && s.peers[r].role.leader in s.peers
    ensures l == s.peers[s.peers[r].role.leader].node && e == s.peers[r].role.epoch > 0
    ensures Agrees(l, Logs(s.terms)) && Agrees(s.peers[r].node, Logs(s.terms))
  {
    hide TermsOk, LeadersSeen, Agrees, LeaderOk, ViewOk;
    var q := s.peers[r].role.leader;
    l, e := s.peers[q].node, s.peers[r].role.epoch;
    assert PeerOk(s.published, s.terms, q, s.peers[q]) && PeerOk(s.published, s.terms, r, s.peers[r]);
  }

  lemma ArriveCheckKeeps(s: Cluster, r: Id)
    requires Inv(s) && Enabled(s, ArriveCheck(r))
    ensures Inv(Apply(s, ArriveCheck(r)))
  {
    hide PublishedOk, TermsOk, LeadersSeen, Agrees, AnswerOk;
    var t := Apply(s, ArriveCheck(r));
    assert PeerOk(s.published, s.terms, r, s.peers[r]);
    ChangePeer(s, t, r);
  }

  lemma AnswerCheckKeeps(s: Cluster, r: Id)
    requires Inv(s) && Enabled(s, AnswerCheck(r)) && SoundCheck(s, AnswerCheck(r))
    ensures Inv(Apply(s, AnswerCheck(r)))
  {
    hide PublishedOk, TermsOk, LeadersSeen, Agrees, EndOf, AnswerOk, SoundAnswer;
    var t := Apply(s, AnswerCheck(r));
    var l, e := LeaderOf(s, r);
    AnswerIsOk(s.peers[r].node, l, e, s.terms);
    assert PeerOk(s.published, s.terms, r, s.peers[r]);
    ChangePeer(s, t, r);
  }

  lemma ReconciledPeer(n: Node, x: nat, e: u64, log: seq<Record>, written: map<u64, seq<Record>>)
    requires Agrees(n, written) && AnswerOk(n, e, x, log) && CurrentEpoch(n.history) <= e
    ensures Agrees(Reconciled(n, x), written) && Reconciled(n, x).log <= log
    ensures CurrentEpoch(Reconciled(n, x).history) <= CurrentEpoch(n.history)
    ensures CurrentEpoch(n.history) >= e ==> CurrentEpoch(Reconciled(n, x).history) == e
  {
    hide Agrees, KeptEntries;
    if x < |n.log| {
      CutKeeps(n, x, written);
    } else {
      assert n.log[..|n.log|] == n.log;
    }
  }

  lemma ReconcileKeeps(s: Cluster, r: Id)
    requires Inv(s) && Enabled(s, Reconcile(r))
    ensures Inv(Apply(s, Reconcile(r)))
  {
    hide PublishedOk, TermsOk, LeadersSeen, Agrees, AnswerOk, Reconciled;
    var t := Apply(s, Reconcile(r));
    var p := s.peers[r];
    assert PeerOk(s.published, s.terms, r, p);
    assert s.published != [];
    ReconciledPeer(p.node, p.role.answer.value, p.role.epoch, TermLog(s.terms, p.role.epoch),
                   Logs(s.terms));
    ChangePeer(s, t, r);
  }

  // ---------------------------------------------------------------- fetching

  lemma ArriveFetchKeeps(s: Cluster, r: Id)
    requires Inv(s) && Enabled(s, ArriveFetch(r))
    ensures Inv(Apply(s, ArriveFetch(r)))
  {
    hide PublishedOk, TermsOk, LeadersSeen, Agrees;
    var t := Apply(s, ArriveFetch(r));
    LeaderIsTerm(s, s.peers[r].role.leader, s.peers[r].role.epoch);
    assert PeerOk(s.published, s.terms, r, s.peers[r]);
    ChangePeer(s, t, r);
  }

  lemma AnswerFetchKeeps(s: Cluster, r: Id, count: nat)
    requires Inv(s) && Enabled(s, AnswerFetch(r, count)) && SoundFetch(s, AnswerFetch(r, count))
    ensures Inv(Apply(s, AnswerFetch(r, count)))
  {
    hide PublishedOk, TermsOk, LeadersSeen, Agrees, Covers;
    var t := Apply(s, AnswerFetch(r, count));
    var l, e := LeaderOf(s, r);
    assert PeerOk(s.published, s.terms, r, s.peers[r]);
    var from := |s.peers[r].node.log|;
    if count > 0 {
      CoveredAgrees(l, e, from + count, Logs(s.terms));
      assert l.log[from..from + count] == l.log[..from + count][from..];
    }
    ChangePeer(s, t, r);
  }

  // ---------------------------------------------------------------- while the leader still leads

  /** An answer from the leader of the follower's own epoch is good exactly when an epoch that both list covers
      what the follower keeps. */
  lemma LeaderAnswers(s: Cluster, r: Id)
    requires Inv(s) && Enabled(s, AnswerCheck(r)) && Leads(s.peers[s.peers[r].role.leader], s.peers[r].role.epoch)
    ensures var f, l := s.peers[r].node, s.peers[s.peers[r].role.leader].node;
            SoundCheck(s, AnswerCheck(r))
            <==> Shared(f.history, |f.log|, l.history, |l.log|, Target(f.history, |f.log|, l.history, |l.log|))
  {
    hide PublishedOk, TermsOk, LeadersSeen, Agrees, EndOf, Linked, Shared, PeerOk;
    var f := s.peers[r].node;
    var l, e := LeaderOf(s, r);
    LeaderIsTerm(s, s.peers[r].role.leader, e);
    EndsInside(l, e, CurrentEpoch(f.history), Logs(s.terms));
    LastCoversAll(f.history, |f.log|, l.history, |l.log|, e, Target(f.history, |f.log|, l.history, |l.log|));
    if CurrentEpoch(f.history) == e {
      LastEpochPrefix(f, e, Logs(s.terms));
    }
  }

  lemma EndsInside(l: Node, e: u64, a: u64, written: map<u64, seq<Record>>)
    requires Agrees(l, written) && CurrentEpoch(l.history) == e > 0
    ensures EndOf(l.history, a, |l.log|) <= |l.log| && EndOf(l.history, e, |l.log|) == |l.log|
  {
    hide EndOf;
    EndOfGrows(l.history, a, a, |l.log|);
    LastEpochEnd(l.history, e, |l.log|);
  }

  /** A read at a leader that still leads the fetcher's epoch is always good. */
  lemma LeaderReads(s: Cluster, r: Id, count: nat)
    requires Inv(s) && Enabled(s, AnswerFetch(r, count))
    requires Leads(s.peers[s.peers[r].role.leader], s.peers[r].role.epoch)
    ensures SoundFetch(s, AnswerFetch(r, count))
  {
    hide Inv, Covers;
    var q, e := s.peers[r].role.leader, s.peers[r].role.epoch;
    var l := s.peers[q].node;
    LeaderIsTerm(s, q, e);
    LastCoversAll([], 0, l.history, |l.log|, e, |s.peers[r].node.log| + count);
  }

  /** The first records of a response continue the follower's log as the term goes on. */
  lemma ResponseContinues(log: seq<Record>, b: FetchResponse, count: nat, term: seq<Record>)
    requires log <= term && ResponseOk(b, term) && b.offset == |log| && count <= |b.records|
    ensures log + b.records[..count] <= term
  {
    var more := log + b.records[..count];
    forall i | 0 <= i < |more| ensures i < |term| && more[i] == term[i] {
      if i >= |log| {
        assert term[b.offset..b.offset + |b.records|][i - |log|] == term[i];
      }
    }
  }

  lemma FetchedPeer(n: Node, local: u64, e: u64, records: seq<Record>, count: nat, written: map<u64, seq<Record>>)
    requires Agrees(n, written) && e in written && e > 0 && CurrentEpoch(n.history) <= e
    requires local >= e ==> CurrentEpoch(n.history) == e
    requires n.log <= written[e]
    requires count <= |records| && |n.log| + count < U64_RANGE && n.log + records[..count] <= written[e]
    ensures var m := Fetched(n, local, e, records, count);
            && Agrees(m, written) && m.log <= written[e] && CurrentEpoch(m.history) == e
            && m.log == n.log + records[..count]
  {
    hide Agrees, Stamped;
    var m := if e > local then Stamped(n, e) else n;
    if e > CurrentEpoch(n.history) {
      StampKeeps(n, e, written);
    } else {
      StampKnown(n, e);
    }
    AppendKeeps(m, m.(log := m.log + records[..count]), written);
  }

  lemma StampKnown(n: Node, e: u64)
    requires e <= CurrentEpoch(n.history)
    ensures Stamped(n, e) == n
  {
  }

  /** What a follower holds after a response is its epoch's, and recorded under it. */
  lemma DeliveredPeer(s: Cluster, r: Id, count: nat)
    requires Inv(s) && Enabled(s, Deliver(r, count))
    ensures var n, e := Delivered(s.peers[r], count).node, s.peers[r].role.epoch;
            && e in s.terms && n.log == s.peers[r].node.log + Continuing(s.peers[r])[..count] <= s.terms[e].log
            && Agrees(n, Logs(s.terms)) && CurrentEpoch(n.history) == e
  {
    hide TermsOk, LeadersSeen, Agrees, Stamped;
    var p := s.peers[r];
    assert PeerOk(s.published, s.terms, r, p);
    EpochPositive(s.published, p.view);
    var e, b := p.role.epoch, p.role.response.value;
    if b.offset == |p.node.log| {
      ResponseContinues(p.node.log, b, count, s.terms[e].log);
    } else {
      assert p.node.log + Continuing(p)[..count] == p.node.log;
    }
    FetchedPeer(p.node, p.role.local, e, Continuing(p), count, Logs(s.terms));
  }

  lemma DeliverKeeps(s: Cluster, r: Id, count: nat)
    requires Inv(s) && Enabled(s, Deliver(r, count))
    ensures Inv(Apply(s, Deliver(r, count)))
  {
    hide PublishedOk, TermsOk, LeadersSeen, Agrees, Fetched;
    var t := Apply(s, Deliver(r, count));
    assert PeerOk(s.published, s.terms, r, s.peers[r]);
    DeliveredPeer(s, r, count);
    ChangePeer(s, t, r);
  }

  // ---------------------------------------------------------------- every run

  lemma StepKeeps(s: Cluster, step: Step)
    requires Inv(s) && Enabled(s, step) && SoundCheck(s, step) && SoundFetch(s, step)
    ensures Inv(Apply(s, step))
  {
    hide Inv, SoundCheck, SoundFetch;
    match step
    case Publish(m) => PublishKeeps(s, m);
    case Adopt(r, k) =>
      if s.published[k].leader != Some(r) {
        AdoptFollowerKeeps(s, r, k);
      } else if s.published[k].epoch in s.terms {
        AdoptAgainKeeps(s, r, k);
      } else {
        AdoptNewKeeps(s, r, k);
      }
    case AppendOne(r, record) => AppendOneKeeps(s, r, record);
    case ArriveCheck(r) => ArriveCheckKeeps(s, r);
    case AnswerCheck(r) => AnswerCheckKeeps(s, r);
    case Reconcile(r) => ReconcileKeeps(s, r);
    case ArriveFetch(r) => ArriveFetchKeeps(s, r);
    case AnswerFetch(r, count) => AnswerFetchKeeps(s, r, count);
    case Deliver(r, count) => DeliverKeeps(s, r, count);
    case Stop(r) => StopKeeps(s, r);
  }

  lemma {:induction false} RunKeeps(s: Cluster, steps: seq<Step>, t: Cluster)
    requires Inv(s) && Run(s, steps, t) && SoundChecks(s, steps) && SoundFetches(s, steps)
    ensures Inv(t)
    decreases |steps|
  {
    hide Inv, SoundCheck, SoundFetch, Apply, Enabled;
    if steps != [] {
      StepKeeps(s, steps[0]);
      RunKeeps(Apply(s, steps[0]), steps[1..], t);
    }
  }

  lemma InitIsGood(s: Cluster)
    requires Init(s)
    ensures Inv(s)
  {
  }

  /** Log agreement. After any run in which every answer to an epoch check and every read for a fetch met its
      condition: every replica holds, up to the end of each epoch that it lists, what that epoch's one leader wrote; a
      running leader's log is exactly its term; and a follower that has reconciled holds a prefix of the term,
      so of its leader's log for as long as the leader leads. */
  lemma Agreement(s: Cluster, steps: seq<Step>, t: Cluster)
    requires Init(s) && Run(s, steps, t) && SoundChecks(s, steps) && SoundFetches(s, steps)
    ensures forall r, i {:trigger t.peers[r].node.history[i]} :: r in t.peers && 0 <= i < |t.peers[r].node.history| ==>
              var n := t.peers[r].node;
              var e := n.history[i].epoch;
              EndAt(n.history, i, |n.log|) <= |n.log| && e in t.terms
              && n.log[..EndAt(n.history, i, |n.log|)] <= t.terms[e].log
    ensures forall r {:trigger t.peers[r]} :: r in t.peers && t.peers[r].role.Leading? ==>
              t.peers[r].role.epoch in t.terms && t.terms[t.peers[r].role.epoch] == Term(r, t.peers[r].node.log)
    ensures forall r {:trigger t.peers[r]} :: r in t.peers && t.peers[r].role.Fetching? ==>
              t.peers[r].node.log <= TermLog(t.terms, t.peers[r].role.epoch)
  {
    InitIsGood(s);
    RunKeeps(s, steps, t);
    hide Run, SoundChecks, SoundFetches, Init;
    forall r, i | r in t.peers && 0 <= i < |t.peers[r].node.history|
      ensures var n := t.peers[r].node;
              var e := n.history[i].epoch;
              EndAt(n.history, i, |n.log|) <= |n.log| && e in t.terms
              && n.log[..EndAt(n.history, i, |n.log|)] <= t.terms[e].log
    {
      EntryOf(t, r, i);
    }
    forall r | r in t.peers && t.peers[r].role.Leading?
      ensures t.peers[r].role.epoch in t.terms && t.terms[t.peers[r].role.epoch] == Term(r, t.peers[r].node.log)
    {
      LeaderIsTerm(t, r, t.peers[r].role.epoch);
    }
    forall r | r in t.peers && t.peers[r].role.Fetching?
      ensures t.peers[r].node.log <= TermLog(t.terms, t.peers[r].role.epoch)
    {
      FollowerOf(t, r);
    }
  }

  lemma EntryOf(t: Cluster, r: Id, i: nat)
    requires Inv(t) && r in t.peers && i < |t.peers[r].node.history|
    ensures var n := t.peers[r].node;
            var e := n.history[i].epoch;
            EndAt(n.history, i, |n.log|) <= |n.log| && e in t.terms
            && n.log[..EndAt(n.history, i, |n.log|)] <= t.terms[e].log
  {
    hide PublishedOk, TermsOk, LeadersSeen, RoleOk, LeaderOk, ViewOk, EndAt;
    assert PeerOk(t.published, t.terms, r, t.peers[r]);
    assert EntryAgrees(t.peers[r].node, i, Logs(t.terms));
  }

  lemma FollowerOf(t: Cluster, r: Id)
    requires Inv(t) && r in t.peers && t.peers[r].role.Fetching?
    ensures t.peers[r].node.log <= TermLog(t.terms, t.peers[r].role.epoch)
  {
    hide PublishedOk, TermsOk, LeadersSeen, LeaderOk, ViewOk, Agrees;
    assert PeerOk(t.published, t.terms, r, t.peers[r]);
  }
}
