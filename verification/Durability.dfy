/** One leader epoch inside the replicated cluster: the steps of `LogAgreement` and the leader's own steps of
    `AcksAll` in any order, with followers that move on to later epochs while it still leads. What is acknowledged
    in the epoch is in the logs of the brokers themselves, and in that of its successor. */
module Durability {
  import opened Wrappers
  import opened Bytes
  import opened RecordCodec
  import opened HighWatermark
  import opened EpochHistory
  import opened Follower
  import opened EpochReconciliation
  import opened LogAgreement
  import opened Lineage
  import Leadership
  import AcksAll

  datatype Move = Net(step: Step) | Local(local: AcksAll.Step)

  /** Offsets below the beginning of the epoch that its leader wrote itself, with the epochs in which it did. */
  type Own = map<nat, u64>

  // ---------------------------------------------------------------- one state seen twice

  /** The brokers that fetch in epoch `e`, with their logs. */
  function Tracked(c: Cluster, e: u64): map<Id, seq<Record>> {
    map f | f in c.peers && c.peers[f].role.Fetching? && c.peers[f].role.epoch == e :: c.peers[f].node.log
  }

  /** The epoch that the broker's present metadata is of. */
  ghost predicate At(c: Cluster, f: Id, e: u64) {
    f in c.peers && c.peers[f].view < |c.published| && c.published[c.peers[f].view].epoch == e
  }

  /** What a checkpoint with this last epoch has of the leader's own records is listed no earlier. */
  ghost predicate Above(own: Own, a: u64, end: nat) {
    forall p {:trigger own[p]} :: p in own && p < end ==> a >= own[p]
  }

  /** A follower that has reconciled in the epoch and applied nothing later: whatever it has of the epoch is
      recorded under it. */
  ghost predicate Present(p: Peer, e: u64, begin: nat, own: Own, log: seq<Record>) {
    && p.node.log == log && (CurrentEpoch(p.node.history) == e || |log| <= begin)
    && Above(own, CurrentEpoch(p.node.history), |log|)
  }

  /** `y` is the first epoch after `e` that the controller has published. */
  ghost predicate NextEpoch(ms: seq<Meta>, e: u64, y: u64) {
    y > e && forall k {:trigger ms[k]} :: 0 <= k < |ms| ==> ms[k].epoch <= e || ms[k].epoch >= y
  }

  /** The broker has been named for the epoch after `e`, and has got there. */
  ghost predicate Heir(c: Cluster, e: u64, f: Id) {
    exists y {:trigger NextEpoch(c.published, e, y)} ::
      At(c, f, y) && NextEpoch(c.published, e, y) && NamedFor(c.published, y, f)
  }

  /** Of a follower that has moved on, its log is kept as it was then; the heir still has it. */
  ghost predicate FollowerMatches(c: Cluster, e: u64, begin: nat, own: Own, f: Id, log: seq<Record>) {
    && f in c.peers && c.peers[f].view < |c.published| && c.published[c.peers[f].view].epoch >= e
    && (At(c, f, e) ==> Present(c.peers[f], e, begin, own, log))
    && (Heir(c, e, f) ==> log <= c.peers[f].node.log)
  }

  /** An answer on its way cuts nothing of the epoch, leaves nothing else from where the epoch began, and leaves
      no record of the leader's own listed too early. */
  ghost predicate AnswerFits(p: Peer, e: u64, begin: nat, own: Own) {
    p.role.Reconciling? && p.role.epoch == e && p.role.answer.Some? ==>
      var x := p.role.answer.value;
      && (if CurrentEpoch(p.node.history) == e then x >= |p.node.log| else Min(x, |p.node.log|) <= begin)
      && Above(own, CurrentEpoch(Reconciled(p.node, x).history), Min(x, |p.node.log|))
  }

  /** An answer to a follower that has reconciled before takes none of the leader's own records. */
  ghost predicate AnswerSpares(p: Peer, e: u64, own: Own) {
    p.role.Reconciling? && p.role.epoch == e && p.role.answer.Some? ==>
      forall q {:trigger q in own} :: q in own && q < |p.node.log| ==> q < p.role.answer.value
  }

  ghost predicate OwnEntry(terms: map<u64, Term>, r: Id, n: Node, p: nat, x: u64) {
    exists j {:trigger n.history[j]} ::
      0 <= j < |n.history| && n.history[j].epoch == x && Wrote(terms, r, n.history, |n.log|, j, p)
  }

  ghost predicate OwnOk(c: Cluster, r: Id, begin: nat, own: Own) {
    r in c.peers && forall p {:trigger own[p]} :: p in own ==>
      p < begin && OwnEntry(c.terms, r, c.peers[r].node, p, own[p])
  }

  /** Whatever waited when the epoch began is the leader's own. */
  ghost predicate QueueIsOwn(s: AcksAll.State, own: Own) {
    forall w {:trigger w in s.parked} :: w in s.parked && w.last < s.begin ==> w.last in own
  }

  ghost predicate LeaderMatches(c: Cluster, s: AcksAll.State, e: u64, own: Own) {
    var r := s.leader.self;
    && r in c.peers && Leads(c.peers[r], e) && e > 0 && s.log == c.peers[r].node.log
    && c.peers[r].node.history != []
    && c.peers[r].node.history[|c.peers[r].node.history| - 1].epoch == e
    && c.peers[r].node.history[|c.peers[r].node.history| - 1].start == s.begin
    && OwnOk(c, r, s.begin, own) && QueueIsOwn(s, own)
  }

  /** What holds of one broker other than the leader. */
  ghost predicate PeerMatches(c: Cluster, s: AcksAll.State, e: u64, own: Own, f: Id) {
    && f in c.peers && AnswerFits(c.peers[f], e, s.begin, own)
    && (c.peers[f].role.Fetching? && c.peers[f].role.epoch == e ==> f in s.followers)
    && (f in s.followers ==> AnswerSpares(c.peers[f], e, own)
                             && FollowerMatches(c, e, s.begin, own, f, s.followers[f]))
  }

  ghost predicate Matches(c: Cluster, s: AcksAll.State, e: u64, own: Own) {
    && LeaderMatches(c, s, e, own) && s.leader.self !in s.followers && s.followers.Keys <= c.peers.Keys
    && forall f {:trigger c.peers[f]} :: f in c.peers ==> PeerMatches(c, s, e, own, f)
  }

  // ---------------------------------------------------------------- moves

  /** The leader keeps leading. Followers may move on. A fetch is sent by whoever fetches in the epoch, and
      arrives whenever it arrives. */
  ghost predicate Allowed(c: Cluster, s: AcksAll.State, e: u64, m: Move) {
    match m
    case Net(step) =>
      && Enabled(c, step) && SoundCheck(c, step) && SoundFetch(c, step)
      && s.leader.self in Apply(c, step).peers && Leads(Apply(c, step).peers[s.leader.self], e)
    case Local(step) =>
      && !step.Append? && !step.Rejoin? && !step.Receive?
      && (step.Ask? ==> step.f in Tracked(c, e))
      && AcksAll.Enabled(s, step) && AcksAll.Admits(s, step)
  }

  ghost function Take(s: AcksAll.State, step: AcksAll.Step): AcksAll.State {
    if AcksAll.Enabled(s, step) then AcksAll.Apply(s, step) else s
  }

  /** What a step of the cluster is to the leader and its followers. */
  ghost function Image(c: Cluster, s: AcksAll.State, e: u64, step: Step): AcksAll.State
    requires Enabled(c, step)
  {
    match step
    case AppendOne(q, record) => if q == s.leader.self then Take(s, AcksAll.Append([record])) else s
    case Reconcile(f) =>
      var p := c.peers[f];
      if p.role.epoch == e then Take(s, AcksAll.Rejoin(f, |Reconciled(p.node, p.role.answer.value).log|)) else s
    case ArriveFetch(f) =>
      if c.peers[f].role.epoch == e
      then Take(Take(s, AcksAll.Ask(f)), AcksAll.Handle(f, |c.peers[f].node.log|)) else s
    case Deliver(f, count) => if c.peers[f].role.epoch == e then Take(s, AcksAll.Receive(f, count)) else s
    case _ => s
  }

  ghost predicate Moves(c: Cluster, s: AcksAll.State, e: u64, ms: seq<Move>, d: Cluster, t: AcksAll.State)
    decreases |ms|
  {
    if ms == [] then c == d && s == t
    else
      && Allowed(c, s, e, ms[0])
      && match ms[0]
         case Net(step) => Moves(Apply(c, step), Image(c, s, e, step), e, ms[1..], d, t)
         case Local(step) => Moves(c, AcksAll.Apply(s, step), e, ms[1..], d, t)
  }

  // ---------------------------------------------------------------- the leader

  lemma OnlyLeader(c: Cluster, s: AcksAll.State, e: u64, own: Own, q: Id)
    requires Inv(c) && LeaderMatches(c, s, e, own) && NamedFor(c.published, e, q)
    ensures q == s.leader.self
  {
    hide TermsOk, LeadersSeen, PublishedOk, PeerOk, OwnOk, QueueIsOwn;
    var r := s.leader.self;
    LeaderIsTerm(c, r, e);
    var k :| 0 <= k < |c.published| && c.published[k] == Meta(e, Some(q));
    OneNamed(c.published, k, c.peers[r].view);
  }

  /** A broker whose present epoch is `e` follows nobody else and leads nothing. */
  lemma RolesOf(c: Cluster, s: AcksAll.State, e: u64, own: Own, q: Id)
    requires Inv(c) && LeaderMatches(c, s, e, own) && q in c.peers && q != s.leader.self
    ensures CurrentEpoch(c.peers[q].node.history) > 0 ==>
              c.peers[q].view < |c.published|
              && CurrentEpoch(c.peers[q].node.history) <= c.published[c.peers[q].view].epoch
    ensures c.peers[q].role.Leading? ==> c.peers[q].role.epoch != e && At(c, q, c.peers[q].role.epoch)
    ensures IsFollower(c.peers[q].role) ==>
              At(c, q, c.peers[q].role.epoch) && c.peers[q].role.leader != q
              && NamedFor(c.published, c.peers[q].role.epoch, c.peers[q].role.leader)
  {
    hide TermsOk, LeadersSeen, PublishedOk, Agrees, LeaderOk, OwnOk, QueueIsOwn;
    assert PeerOk(c.published, c.terms, q, c.peers[q]);
    if Leads(c.peers[q], e) {
      assert NamedFor(c.published, e, q) by { assert c.published[c.peers[q].view] == Meta(e, Some(q)); }
      OnlyLeader(c, s, e, own, q);
    }
  }

  /** What the leader answers leaves a follower nothing from where the epoch began, unless it is the epoch's. */
  lemma LeaderAnswerFits(c: Cluster, s: AcksAll.State, e: u64, own: Own, q: Id)
    requires Inv(c) && LeaderMatches(c, s, e, own) && q in c.peers
    ensures var l, a := c.peers[s.leader.self].node, CurrentEpoch(c.peers[q].node.history);
            && (a == e ==> EndOf(l.history, a, |l.log|) >= |c.peers[q].node.log|)
            && (a < e ==> EndOf(l.history, a, |l.log|) <= s.begin)
  {
    hide TermsOk, LeadersSeen, PublishedOk, RoleOk, LeaderOk, ViewOk, EndOf, OwnOk, QueueIsOwn;
    var l, a := c.peers[s.leader.self].node, CurrentEpoch(c.peers[q].node.history);
    LeaderIsTerm(c, s.leader.self, e);
    assert PeerOk(c.published, c.terms, q, c.peers[q]);
    assert PeerOk(c.published, c.terms, s.leader.self, c.peers[s.leader.self]);
    if a == e {
      LastEpochPrefix(c.peers[q].node, e, Logs(c.terms));
      LastEpochEnd(l.history, e, |l.log|);
    } else if a < e {
      EarlierEnds(l.history, a, |l.log|);
    }
  }

  lemma EarlierEnds(h: seq<EpochStart>, a: u64, logEnd: nat)
    requires Monotone(h) && h != [] && a < CurrentEpoch(h)
    ensures EndOf(h, a, logEnd) <= h[|h| - 1].start
  {
    var n := CountUpTo(h, a);
    assert h[|h| - 1].epoch > a;
    assert n < |h| - 1 ==> h[n].start <= h[|h| - 1].start;
  }

  /** ... and leaves its own records listed no earlier than it wrote them. */
  lemma LeaderAnswerAbove(c: Cluster, births: Births, s: AcksAll.State, e: u64, own: Own, q: Id)
    requires Lineage.Good(c, births) && LeaderMatches(c, s, e, own) && q in c.peers
    requires var f, l := c.peers[q].node, c.peers[s.leader.self].node;
             SoundAnswer(f.history, |f.log|, l.history, |l.log|, e)
    ensures var f, l := c.peers[q].node, c.peers[s.leader.self].node;
            var x := EndOf(l.history, CurrentEpoch(f.history), |l.log|);
            Above(own, CurrentEpoch(Reconciled(f, x).history), Min(x, |f.log|))
  {
    var r := s.leader.self;
    var f, l := c.peers[q].node, c.peers[r].node;
    Traced(c, births, q);
    Traced(c, births, r);
    hide Lineage.Good, Ordered, Rooted, OwnStarts, BirthsOk, Linked, EndOf, KeptEntries, QueueIsOwn, KeepsLast,
      OwnEntry, Above;
    OwnStayListed(c.terms, births, r, f.history, |f.log|, l, e, own);
  }

  lemma Traced(c: Cluster, births: Births, r: Id)
    requires Lineage.Good(c, births) && r in c.peers
    ensures births.Keys == c.terms.Keys && BirthsOk(births)
    ensures var n := c.peers[r].node;
            Ordered(n.history, |n.log|) && Rooted(n.history, |n.log|, births)
            && OwnStarts(c.terms, births, r, n.history)
  {
    Lineage.NodeOrdered(c, r);
    hide Inv, Ordered, Rooted, OwnStarts, BirthsOk, RoleTraces;
    assert PeerLine(c.terms, births, r, c.peers[r]);
  }

  lemma OwnStayListed(terms: map<u64, Term>, births: Births, r: Id, f: seq<EpochStart>, fEnd: nat, l: Node, e: u64,
                      own: Own)
    requires var h, lEnd := l.history, |l.log|;
             && Ordered(f, fEnd) && Ordered(h, lEnd) && Rooted(f, fEnd, births) && Rooted(h, lEnd, births)
             && OwnStarts(terms, births, r, h) && births.Keys == terms.Keys && BirthsOk(births)
             && Linked(f, fEnd, h, lEnd, e, Target(f, fEnd, h, lEnd)) && h != [] && CurrentEpoch(h) == e
    requires forall p {:trigger own[p]} :: p in own ==> OwnEntry(terms, r, l, p, own[p])
    ensures var t := Target(f, fEnd, l.history, |l.log|);
            Above(own, CurrentEpoch(AfterCheck(f, fEnd, t)), t)
  {
    hide Ordered, Rooted, OwnStarts, BirthsOk, Linked, Target, Wrote, AfterCheck;
    var t := Target(f, fEnd, l.history, |l.log|);
    forall p | p in own && p < t ensures CurrentEpoch(AfterCheck(f, fEnd, t)) >= own[p] {
      assert OwnEntry(terms, r, l, p, own[p]);
      var j :| 0 <= j < |l.history| && l.history[j].epoch == own[p] && Wrote(terms, r, l.history, |l.log|, j, p);
      KeptIsLater(terms, births, r, f, fEnd, l.history, |l.log|, e, j, p);
    }
  }

  /** An answer to a follower that lists none of the leader's own records too early spares them all. */
  lemma LeaderAnswerSpares(c: Cluster, s: AcksAll.State, e: u64, own: Own, q: Id)
    requires Inv(c) && LeaderMatches(c, s, e, own) && q in c.peers
    requires Above(own, CurrentEpoch(c.peers[q].node.history), |c.peers[q].node.log|)
    ensures var f, l := c.peers[q].node, c.peers[s.leader.self].node;
            forall p {:trigger p in own} :: p in own && p < |f.log| ==>
              p < EndOf(l.history, CurrentEpoch(f.history), |l.log|)
  {
    var r := s.leader.self;
    var f, l := c.peers[q].node, c.peers[r].node;
    Lineage.NodeOrdered(c, r);
    hide Inv, Ordered, Agrees, EndOf, QueueIsOwn;
    forall p | p in own && p < |f.log| ensures p < EndOf(l.history, CurrentEpoch(f.history), |l.log|) {
      assert OwnEntry(c.terms, r, l, p, own[p]);
      var j :| 0 <= j < |l.history| && l.history[j].epoch == own[p] && Wrote(c.terms, r, l.history, |l.log|, j, p);
      AnswerIsLater(l.history, |l.log|, CurrentEpoch(f.history), j);
    }
  }

  // ---------------------------------------------------------------- one move

  /** Nothing changes for whoever is neither changed nor published to. */
  lemma OthersMatch(c: Cluster, s: AcksAll.State, e: u64, own: Own, d: Cluster, t: AcksAll.State, f: Id)
    requires f in c.peers && f in d.peers && d.peers[f] == c.peers[f] && d.published == c.published
    requires t.begin == s.begin && (f in t.followers <==> f in s.followers)
    requires f in t.followers ==> t.followers[f] == s.followers[f]
    requires PeerMatches(c, s, e, own, f)
    ensures PeerMatches(d, t, e, own, f)
  {
    hide AnswerFits, AnswerSpares, Present, NextEpoch, NamedFor;
  }

  /** One broker other than the leader changes. */
  lemma OneChanges(c: Cluster, s: AcksAll.State, e: u64, own: Own, d: Cluster, t: AcksAll.State, q: Id)
    requires Matches(c, s, e, own) && q in c.peers && q in d.peers && q != s.leader.self
    requires d.peers == c.peers[q := d.peers[q]] && d.published == c.published
    requires forall x {:trigger c.terms[x]} :: x in c.terms ==> x in d.terms && d.terms[x].leader == c.terms[x].leader
    requires t.leader.self == s.leader.self && t.begin == s.begin && t.log == s.log && t.parked == s.parked
    requires forall f {:trigger f in s.followers} {:trigger f in t.followers} ::
               f != q ==> (f in t.followers <==> f in s.followers)
    requires forall f {:trigger t.followers[f]} :: f != q && f in t.followers ==> t.followers[f] == s.followers[f]
    requires PeerMatches(d, t, e, own, q)
    ensures Matches(d, t, e, own)
  {
    hide PeerMatches;
    SameOwn(c, d, s.leader.self, s.begin, own);
    hide OwnOk;
    assert t.followers.Keys <= d.peers.Keys by {
      assert forall f :: f in t.followers ==> f == q || f in s.followers.Keys;
    }
    forall f | f in d.peers ensures PeerMatches(d, t, e, own, f) {
      if f != q {
        assert PeerMatches(c, s, e, own, f);
        OthersMatch(c, s, e, own, d, t, f);
      }
    }
  }

  lemma SameOwn(c: Cluster, d: Cluster, r: Id, begin: nat, own: Own)
    requires OwnOk(c, r, begin, own) && r in d.peers && d.peers[r].node.history == c.peers[r].node.history
    requires |c.peers[r].node.log| <= |d.peers[r].node.log|
    requires forall x {:trigger c.terms[x]} :: x in c.terms ==> x in d.terms && d.terms[x].leader == c.terms[x].leader
    ensures OwnOk(d, r, begin, own)
  {
    var n, m := c.peers[r].node, d.peers[r].node;
    forall p | p in own ensures OwnEntry(d.terms, r, m, p, own[p]) {
      assert OwnEntry(c.terms, r, n, p, own[p]);
      var j :| 0 <= j < |n.history| && n.history[j].epoch == own[p] && Wrote(c.terms, r, n.history, |n.log|, j, p);
      assert m.history[j].epoch == own[p] && Wrote(d.terms, r, m.history, |m.log|, j, p);
    }
  }

  lemma TakeKeeps(s: AcksAll.State, step: AcksAll.Step, first: nat)
    requires AcksAll.Inv(s, first) && !step.AcceptIsr?
    ensures var t := Take(s, step);
            AcksAll.Inv(t, first) && t.begin == s.begin && t.leader.self == s.leader.self
  {
    hide AcksAll.Inv, AcksAll.Apply, AcksAll.Enabled;
    if AcksAll.Enabled(s, step) {
      AcksAll.StepKeeps(s, step, first);
    }
  }

  /** Later metadata does not make a broker the heir that it was not. */
  lemma HeirBefore(c: Cluster, e: u64, f: Id, m: Meta)
    requires Inv(c) && Enabled(c, Publish(m)) && f in c.peers && c.peers[f].view < |c.published|
    requires Heir(Apply(c, Publish(m)), e, f)
    ensures Heir(c, e, f)
  {
    hide TermsOk, LeadersSeen, PeerOk;
    var ms, more := c.published, c.published + [m];
    var y :| At(Apply(c, Publish(m)), f, y) && NextEpoch(more, e, y) && NamedFor(more, y, f);
    var k :| 0 <= k < |more| && more[k] == Meta(y, Some(f));
    var v := c.peers[f].view;
    assert more[v] == ms[v] && ms[v].epoch == y;
    if k == |ms| {
      EpochsGrow(ms, v, |ms| - 1);
      assert ms[|ms| - 1] == Meta(y, Some(f));
    } else {
      assert ms[k] == Meta(y, Some(f));
    }
    assert NextEpoch(ms, e, y) by {
      forall i | 0 <= i < |ms| ensures ms[i].epoch <= e || ms[i].epoch >= y {
        assert more[i] == ms[i];
      }
    }
  }

  lemma PublishMatches(c: Cluster, s: AcksAll.State, e: u64, own: Own, m: Meta)
    requires Inv(c) && Matches(c, s, e, own) && Enabled(c, Publish(m))
    ensures Matches(Apply(c, Publish(m)), s, e, own)
  {
    hide Inv, OwnOk, QueueIsOwn, PeerMatches;
    var d := Apply(c, Publish(m));
    SameOwn(c, d, s.leader.self, s.begin, own);
    forall f | f in d.peers ensures PeerMatches(d, s, e, own, f) {
      assert PeerMatches(c, s, e, own, f);
      PublishPeer(c, s, e, own, m, f);
    }
  }

  lemma PublishPeer(c: Cluster, s: AcksAll.State, e: u64, own: Own, m: Meta, f: Id)
    requires Inv(c) && Enabled(c, Publish(m)) && f in c.peers && PeerMatches(c, s, e, own, f)
    ensures PeerMatches(Apply(c, Publish(m)), s, e, own, f)
  {
    hide Inv, AnswerFits, AnswerSpares, Present, Heir;
    var d := Apply(c, Publish(m));
    if f in s.followers && Heir(d, e, f) {
      HeirBefore(c, e, f, m);
    }
  }

  lemma AdoptMatches(c: Cluster, s: AcksAll.State, e: u64, own: Own, q: Id, k: nat)
    requires Inv(c) && Matches(c, s, e, own) && Allowed(c, s, e, Net(Adopt(q, k)))
    ensures Matches(Apply(c, Adopt(q, k)), s, e, own)
  {
    hide Inv, PeerMatches, Stamped, OwnOk, QueueIsOwn;
    var d := Apply(c, Adopt(q, k));
    AdoptTerms(c, q, k);
    if q == s.leader.self {
      LeaderAdopts(c, s, e, own, q, k);
    } else {
      assert PeerMatches(c, s, e, own, q);
      OtherAdopts(c, s, e, own, q, k);
      OneChanges(c, s, e, own, d, s, q);
    }
  }

  lemma AdoptTerms(c: Cluster, q: Id, k: nat)
    requires Enabled(c, Adopt(q, k))
    ensures var d := Apply(c, Adopt(q, k));
            && (forall x {:trigger c.terms[x]} ::
                  x in c.terms ==> x in d.terms && d.terms[x].leader == c.terms[x].leader)
            && d.peers == c.peers[q := Adopted(c.peers[q], q, k, c.published[k])] && d.published == c.published
  {
    hide Stamped;
  }

  lemma LeaderAdopts(c: Cluster, s: AcksAll.State, e: u64, own: Own, q: Id, k: nat)
    requires Matches(c, s, e, own) && Allowed(c, s, e, Net(Adopt(q, k))) && q == s.leader.self
    ensures Matches(Apply(c, Adopt(q, k)), s, e, own)
  {
    AdoptTerms(c, q, k);
    hide AnswerFits, Stamped, Present, QueueIsOwn;
    var d := Apply(c, Adopt(q, k));
    assert d.peers == c.peers[q := c.peers[q].(view := k)];
    SameOwn(c, d, q, s.begin, own);
    hide OwnOk;
    forall f | f in d.peers ensures PeerMatches(d, s, e, own, f) {
      assert PeerMatches(c, s, e, own, f);
      if f == q {
        RoleNotReconciling(d.peers[q], e, s.begin, own);
      } else {
        OthersMatch(c, s, e, own, d, s, f);
      }
    }
  }

  lemma RoleNotReconciling(p: Peer, e: u64, begin: nat, own: Own)
    requires !p.role.Reconciling? || p.role.answer.None?
    ensures AnswerFits(p, e, begin, own) && AnswerSpares(p, e, own)
  {
  }

  lemma SameAnswer(p: Peer, q: Peer, e: u64, begin: nat, own: Own)
    requires q.role == p.role && (p.role.Reconciling? ==> q.node == p.node)
    ensures AnswerFits(p, e, begin, own) ==> AnswerFits(q, e, begin, own)
    ensures AnswerSpares(p, e, own) ==> AnswerSpares(q, e, own)
  {
  }

  lemma OtherAdopts(c: Cluster, s: AcksAll.State, e: u64, own: Own, q: Id, k: nat)
    requires Inv(c) && LeaderMatches(c, s, e, own) && Enabled(c, Adopt(q, k)) && q != s.leader.self
    requires PeerMatches(c, s, e, own, q)
    ensures PeerMatches(Apply(c, Adopt(q, k)), s, e, own, q)
  {
    hide Inv, Stamped, AnswerFits, AnswerSpares, FollowerMatches, LeaderMatches;
    AdoptTerms(c, q, k);
    var d := Apply(c, Adopt(q, k));
    if d.peers[q].role != c.peers[q].role {
      RoleNotReconciling(d.peers[q], e, s.begin, own);
    } else {
      SameAnswer(c.peers[q], d.peers[q], e, s.begin, own);
    }
    if q in s.followers {
      FollowerAdopts(c, s, e, own, q, k);
    }
  }

  lemma FollowerAdopts(c: Cluster, s: AcksAll.State, e: u64, own: Own, q: Id, k: nat)
    requires Inv(c) && LeaderMatches(c, s, e, own) && Enabled(c, Adopt(q, k)) && q != s.leader.self
    requires q in s.followers && FollowerMatches(c, e, s.begin, own, q, s.followers[q])
    ensures FollowerMatches(Apply(c, Adopt(q, k)), e, s.begin, own, q, s.followers[q])
  {
    hide Inv, Stamped, Present, NamedFor, NextEpoch, LeaderMatches, Heir, Adopted;
    AdoptTerms(c, q, k);
    ViewsGrow(c, q, k);
    AdoptedLog(c.peers[q], q, k, c.published[k]);
    var d := Apply(c, Adopt(q, k));
    if At(d, q, e) {
      NotNamed(c, s, e, own, q, k);
      AdoptedNode(c.peers[q], q, k, c.published[k]);
      SamePresent(c.peers[q], d.peers[q], e, s.begin, own, s.followers[q]);
    }
    if Heir(d, e, q) {
      HeirAt(d, e, q);
      HeirStays(c, e, q, k);
      if At(c, q, e) {
        PresentLog(c.peers[q], e, s.begin, own, s.followers[q]);
      }
    }
  }

  lemma PresentLog(p: Peer, e: u64, begin: nat, own: Own, log: seq<Record>)
    requires Present(p, e, begin, own, log)
    ensures p.node.log == log
  {
  }

  lemma NotNamed(c: Cluster, s: AcksAll.State, e: u64, own: Own, q: Id, k: nat)
    requires Inv(c) && LeaderMatches(c, s, e, own) && q != s.leader.self && k < |c.published|
    requires c.published[k].epoch == e
    ensures c.published[k].leader != Some(q)
  {
    hide Inv, LeaderMatches, NamedFor;
    if c.published[k].leader == Some(q) {
      NamedHere(c.published, k);
      OnlyLeader(c, s, e, own, q);
    }
  }

  lemma AdoptedNode(p: Peer, r: Id, k: nat, m: Meta)
    requires m.leader != Some(r)
    ensures Adopted(p, r, k, m).node == p.node && Adopted(p, r, k, m).view == k
  {
  }

  lemma HeirAt(c: Cluster, e: u64, f: Id)
    requires Heir(c, e, f)
    ensures c.peers[f].view < |c.published|
    ensures exists y {:trigger NextEpoch(c.published, e, y)} ::
              c.published[c.peers[f].view].epoch == y && NextEpoch(c.published, e, y) && NamedFor(c.published, y, f)
  {
    hide NextEpoch, NamedFor;
  }

  lemma ViewsGrow(c: Cluster, q: Id, k: nat)
    requires Inv(c) && Enabled(c, Adopt(q, k))
    ensures c.peers[q].view < |c.published| && c.published[c.peers[q].view].epoch <= c.published[k].epoch
  {
    hide PeerOk, TermsOk, LeadersSeen, PublishedOk;
    EpochsGrow(c.published, c.peers[q].view, k);
  }

  lemma AdoptedLog(p: Peer, r: Id, k: nat, m: Meta)
    ensures Adopted(p, r, k, m).node.log == p.node.log && Adopted(p, r, k, m).view == k
  {
  }

  lemma SamePresent(p: Peer, q: Peer, e: u64, begin: nat, own: Own, log: seq<Record>)
    requires Present(p, e, begin, own, log) && q.node == p.node
    ensures Present(q, e, begin, own, log)
  {
  }

  /** Whoever becomes the heir was at the epoch before, or the heir already. */
  lemma HeirStays(c: Cluster, e: u64, q: Id, k: nat)
    requires q in c.peers && c.peers[q].view < |c.published| && k < |c.published|
    requires e <= c.published[c.peers[q].view].epoch <= c.published[k].epoch
    requires exists y {:trigger NextEpoch(c.published, e, y)} ::
               c.published[k].epoch == y && NextEpoch(c.published, e, y) && NamedFor(c.published, y, q)
    ensures At(c, q, e) || Heir(c, e, q)
  {
    hide NamedFor;
    var y :| c.published[k].epoch == y && NextEpoch(c.published, e, y) && NamedFor(c.published, y, q);
    var x := c.published[c.peers[q].view].epoch;
    if x != e {
      assert x == y;
      assert At(c, q, y) && NextEpoch(c.published, e, y);
    }
  }

  lemma NamedHere(ms: seq<Meta>, k: nat)
    requires k < |ms| && ms[k].leader.Some?
    ensures NamedFor(ms, ms[k].epoch, ms[k].leader.value)
  {
  }

  /** The heir leads: it follows nobody in its epoch. */
  lemma HeirLeads(c: Cluster, s: AcksAll.State, e: u64, own: Own, q: Id)
    requires Inv(c) && LeaderMatches(c, s, e, own) && q in c.peers && q != s.leader.self && IsFollower(c.peers[q].role)
    ensures !Heir(c, e, q)
  {
    RolesOf(c, s, e, own, q);
    hide TermsOk, LeadersSeen, PeerOk, PublishedOk, LeaderMatches;
    var y, l := c.peers[q].role.epoch, c.peers[q].role.leader;
    if Heir(c, e, q) {
      var i :| 0 <= i < |c.published| && c.published[i] == Meta(y, Some(q));
      var j :| 0 <= j < |c.published| && c.published[j] == Meta(y, Some(l));
      OneNamed(c.published, i, j);
    }
  }

  lemma AppendMatches(c: Cluster, s: AcksAll.State, e: u64, own: Own, q: Id, record: Record)
    requires Inv(c) && Matches(c, s, e, own) && Enabled(c, AppendOne(q, record))
    ensures Matches(Apply(c, AppendOne(q, record)), Image(c, s, e, AppendOne(q, record)), e, own)
  {
    hide Inv, PeerMatches, LeaderMatches;
    if q == s.leader.self {
      LeaderAppends(c, s, e, own, record);
    } else {
      assert PeerMatches(c, s, e, own, q);
      OtherAppends(c, s, e, own, q, record);
      OneChanges(c, s, e, own, Apply(c, AppendOne(q, record)), s, q);
    }
  }

  lemma OtherAppends(c: Cluster, s: AcksAll.State, e: u64, own: Own, q: Id, record: Record)
    requires Inv(c) && LeaderMatches(c, s, e, own) && Enabled(c, AppendOne(q, record)) && q != s.leader.self
    requires PeerMatches(c, s, e, own, q)
    ensures PeerMatches(Apply(c, AppendOne(q, record)), s, e, own, q)
  {
    hide Inv, AnswerFits, AnswerSpares, Present, NextEpoch, NamedFor, LeaderMatches;
    var d := Apply(c, AppendOne(q, record));
    RoleNotReconciling(d.peers[q], e, s.begin, own);
    RolesOf(c, s, e, own, q);
    assert !At(d, q, e);
    assert Heir(d, e, q) ==> Heir(c, e, q);
  }

  lemma LeaderAppends(c: Cluster, s: AcksAll.State, e: u64, own: Own, record: Record)
    requires Matches(c, s, e, own) && Enabled(c, AppendOne(s.leader.self, record))
    ensures Matches(Apply(c, AppendOne(s.leader.self, record)), Take(s, AcksAll.Append([record])), e, own)
  {
    var q := s.leader.self;
    var d := Apply(c, AppendOne(q, record));
    var t := Take(s, AcksAll.Append([record]));
    SameOwn(c, d, q, s.begin, own);
    hide AnswerFits, AnswerSpares, Present, NextEpoch, NamedFor, OwnOk;
    forall f | f in d.peers ensures PeerMatches(d, t, e, own, f) {
      assert PeerMatches(c, s, e, own, f);
      if f == q {
        RoleNotReconciling(d.peers[q], e, s.begin, own);
      } else {
        OthersMatch(c, s, e, own, d, t, f);
      }
    }
  }

  lemma AnswerMatches(c: Cluster, births: Births, s: AcksAll.State, e: u64, own: Own, q: Id)
    requires Lineage.Good(c, births) && Matches(c, s, e, own)
    requires Enabled(c, AnswerCheck(q)) && SoundCheck(c, AnswerCheck(q))
    ensures Matches(Apply(c, AnswerCheck(q)), s, e, own)
  {
    hide Inv, Line, PeerMatches, SoundAnswer, EndOf;
    var d := Apply(c, AnswerCheck(q));
    assert q != s.leader.self;
    assert PeerMatches(c, s, e, own, q);
    if c.peers[q].role.epoch == e {
      AnswerInEpoch(c, births, s, e, own, q);
    } else {
      AnswerElsewhere(c, s, e, own, q);
    }
    hide LeaderMatches;
    OneChanges(c, s, e, own, d, s, q);
  }

  lemma AnswerElsewhere(c: Cluster, s: AcksAll.State, e: u64, own: Own, q: Id)
    requires Enabled(c, AnswerCheck(q)) && PeerMatches(c, s, e, own, q) && c.peers[q].role.epoch != e
    ensures PeerMatches(Apply(c, AnswerCheck(q)), s, e, own, q)
  {
    hide EndOf, FollowerMatches;
    if q in s.followers {
      SameFollower(c, Apply(c, AnswerCheck(q)), e, s.begin, own, q, s.followers[q]);
    }
  }

  /** The answer is the leader's, and it fits. */
  lemma AnswerInEpoch(c: Cluster, births: Births, s: AcksAll.State, e: u64, own: Own, q: Id)
    requires Enabled(c, AnswerCheck(q)) && c.peers[q].role.epoch == e && q != s.leader.self
    requires SoundCheck(c, AnswerCheck(q)) && PeerMatches(c, s, e, own, q)
    requires Lineage.Good(c, births) && LeaderMatches(c, s, e, own)
    ensures PeerMatches(Apply(c, AnswerCheck(q)), s, e, own, q)
  {
    hide Lineage.Good, Inv, LeaderMatches, Above, FollowerMatches, Reconciled, SoundAnswer, EndOf, AnswerFits,
      AnswerSpares, SoundCheck;
    InvOf(c, births);
    SoundOf(c, q);
    RolesOf(c, s, e, own, q);
    OnlyLeader(c, s, e, own, c.peers[q].role.leader);
    AnswerIsWell(c, births, s, e, own, q);
    if q in s.followers {
      AnswerIsSparing(c, s, e, own, q);
      SameFollower(c, Apply(c, AnswerCheck(q)), e, s.begin, own, q, s.followers[q]);
    }
  }

  lemma SoundOf(c: Cluster, q: Id)
    requires Enabled(c, AnswerCheck(q)) && SoundCheck(c, AnswerCheck(q))
    ensures var f, l := c.peers[q].node, c.peers[c.peers[q].role.leader].node;
            SoundAnswer(f.history, |f.log|, l.history, |l.log|, c.peers[q].role.epoch)
  {
    hide SoundAnswer;
  }

  lemma AnswerIsWell(c: Cluster, births: Births, s: AcksAll.State, e: u64, own: Own, q: Id)
    requires Lineage.Good(c, births) && LeaderMatches(c, s, e, own) && q in c.peers && s.leader.self in c.peers
    requires q != s.leader.self && c.peers[q].role.Reconciling? && c.peers[q].role.epoch == e
    requires var f, l := c.peers[q].node, c.peers[s.leader.self].node;
             SoundAnswer(f.history, |f.log|, l.history, |l.log|, e)
    ensures var p, l := c.peers[q], c.peers[s.leader.self].node;
            AnswerFits(p.(role := p.role.(answer := Some(EndOf(l.history, CurrentEpoch(p.node.history), |l.log|)))),
                       e, s.begin, own)
  {
    hide Inv, Line, EndOf, SoundAnswer, NamedFor, LeaderMatches, Above, Reconciled, AnswerFits;
    RolesOf(c, s, e, own, q);
    LeaderAnswerFits(c, s, e, own, q);
    LeaderAnswerAbove(c, births, s, e, own, q);
    var l := c.peers[s.leader.self].node;
    AnswersWell(c.peers[q], e, s.begin, own, EndOf(l.history, CurrentEpoch(c.peers[q].node.history), |l.log|));
  }

  lemma AnswerIsSparing(c: Cluster, s: AcksAll.State, e: u64, own: Own, q: Id)
    requires Inv(c) && LeaderMatches(c, s, e, own) && q in s.followers && At(c, q, e) && s.leader.self in c.peers
    requires FollowerMatches(c, e, s.begin, own, q, s.followers[q])
    requires c.peers[q].role.Reconciling? && c.peers[q].role.epoch == e
    ensures var p, l := c.peers[q], c.peers[s.leader.self].node;
            AnswerSpares(p.(role := p.role.(answer := Some(EndOf(l.history, CurrentEpoch(p.node.history), |l.log|)))),
                         e, own)
  {
    hide Inv, EndOf, LeaderMatches, Above, FollowerMatches, AnswerSpares;
    PresentAbove(c, e, s.begin, own, q, s.followers[q]);
    LeaderAnswerSpares(c, s, e, own, q);
    var l := c.peers[s.leader.self].node;
    AnswersSparing(c.peers[q], e, own, EndOf(l.history, CurrentEpoch(c.peers[q].node.history), |l.log|));
  }

  lemma AnswersWell(p: Peer, e: u64, begin: nat, own: Own, x: nat)
    requires p.role.Reconciling? && p.role.epoch == e && CurrentEpoch(p.node.history) <= e
    requires CurrentEpoch(p.node.history) == e ==> x >= |p.node.log|
    requires CurrentEpoch(p.node.history) < e ==> x <= begin
    requires Above(own, CurrentEpoch(Reconciled(p.node, x).history), Min(x, |p.node.log|))
    ensures AnswerFits(p.(role := p.role.(answer := Some(x))), e, begin, own)
  {
    hide Above, Reconciled;
  }

  lemma AnswersSparing(p: Peer, e: u64, own: Own, x: nat)
    requires p.role.Reconciling? && p.role.epoch == e
    requires forall q {:trigger q in own} :: q in own && q < |p.node.log| ==> q < x
    ensures AnswerSpares(p.(role := p.role.(answer := Some(x))), e, own)
  {
  }

  lemma PresentAbove(c: Cluster, e: u64, begin: nat, own: Own, f: Id, log: seq<Record>)
    requires FollowerMatches(c, e, begin, own, f, log) && At(c, f, e)
    ensures c.peers[f].node.log == log && Above(own, CurrentEpoch(c.peers[f].node.history), |log|)
  {
    hide Heir, Above;
  }

  lemma SameFollower(c: Cluster, d: Cluster, e: u64, begin: nat, own: Own, f: Id, log: seq<Record>)
    requires FollowerMatches(c, e, begin, own, f, log) && f in d.peers && d.published == c.published
    requires d.peers[f].node == c.peers[f].node && d.peers[f].view == c.peers[f].view
    ensures FollowerMatches(d, e, begin, own, f, log)
  {
    hide NextEpoch, NamedFor, Above;
  }

  /** A change of role alone, that brings no answer. */
  lemma RoleMatches(c: Cluster, s: AcksAll.State, e: u64, own: Own, q: Id, role: Role)
    requires Matches(c, s, e, own) && q in c.peers && q != s.leader.self
    requires !role.Reconciling? || role.answer.None? || (c.peers[q].role.Reconciling? && role.epoch
               == c.peers[q].role.epoch && role.answer == c.peers[q].role.answer)
    requires role.Fetching? ==> c.peers[q].role.Fetching? && role.epoch == c.peers[q].role.epoch
    ensures Matches(With(c, q, c.peers[q].(role := role)), s, e, own)
  {
    var d := With(c, q, c.peers[q].(role := role));
    assert PeerMatches(c, s, e, own, q);
    hide LeaderMatches, FollowerMatches, Above, Reconciled;
    if q in s.followers {
      SameFollower(c, d, e, s.begin, own, q, s.followers[q]);
    }
    assert PeerMatches(d, s, e, own, q);
    hide PeerMatches;
    OneChanges(c, s, e, own, d, s, q);
  }

  // ---------------------------------------------------------------- reconciling once more

  /** What a follower of the epoch keeps is enough for `AcksAll.Rejoin`. */
  lemma KeepsEnough(s: AcksAll.State, p: Peer, e: u64, own: Own)
    requires AnswerFits(p, e, s.begin, own) && AnswerSpares(p, e, own) && QueueIsOwn(s, own)
    requires p.role.Reconciling? && p.role.epoch == e && p.role.answer.Some?
    requires CurrentEpoch(p.node.history) == e || |p.node.log| <= s.begin
    ensures AcksAll.Reaches(s, |p.node.log|, |Reconciled(p.node, p.role.answer.value).log|)
  {
    hide Above, KeptEntries;
    var b := |Reconciled(p.node, p.role.answer.value).log|;
    forall w | w in s.parked && w.last < |p.node.log| ensures w.last < b {
      if w.last < s.begin {
        assert w.last in own;
      }
    }
  }

  lemma ReconciledFits(p: Peer, e: u64, begin: nat, own: Own, log: seq<Record>)
    requires p.role.Reconciling? && p.role.epoch == e && p.role.answer.Some?
    requires AnswerFits(p, e, begin, own) && AnswerOk(p.node, e, p.role.answer.value, log)
    ensures var n := Reconciled(p.node, p.role.answer.value);
            n.log <= log && Present(p.(node := n), e, begin, own, n.log)
  {
    hide KeptEntries, Above;
    if p.role.answer.value >= |p.node.log| {
      assert p.node.log[..|p.node.log|] == p.node.log;
    }
  }

  lemma AnswerOf(c: Cluster, s: AcksAll.State, e: u64, own: Own, q: Id)
    requires Enabled(c, Reconcile(q)) && c.peers[q].role.epoch == e
    requires Inv(c) && LeaderMatches(c, s, e, own)
    ensures AnswerOk(c.peers[q].node, e, c.peers[q].role.answer.value, s.log)
  {
    hide TermsOk, LeadersSeen, PublishedOk, Agrees, LeaderOk, NamedFor, OwnOk, QueueIsOwn, AnswerOk;
    LeaderIsTerm(c, s.leader.self, e);
    assert PeerOk(c.published, c.terms, q, c.peers[q]);
  }

  lemma NewPresent(c: Cluster, d: Cluster, e: u64, begin: nat, own: Own, f: Id, log: seq<Record>)
    requires f in d.peers && At(d, f, e) && Present(d.peers[f], e, begin, own, log)
    ensures FollowerMatches(d, e, begin, own, f, log)
  {
    hide NamedFor, Above;
  }

  lemma PresentFit(c: Cluster, e: u64, begin: nat, own: Own, f: Id, log: seq<Record>)
    requires FollowerMatches(c, e, begin, own, f, log) && At(c, f, e)
    ensures c.peers[f].node.log == log && (CurrentEpoch(c.peers[f].node.history) == e || |log| <= begin)
  {
    hide Heir, Above;
  }

  lemma ReconcileMatches(c: Cluster, s: AcksAll.State, e: u64, own: Own, q: Id)
    requires Inv(c) && Matches(c, s, e, own) && Enabled(c, Reconcile(q))
    ensures Matches(Apply(c, Reconcile(q)), Image(c, s, e, Reconcile(q)), e, own)
  {
    hide Inv, LeaderMatches, FollowerMatches, AnswerFits, AnswerSpares, Reconciled;
    assert q != s.leader.self by { NotTheLeader(c, s, e, own, q); }
    assert PeerMatches(c, s, e, own, q);
    RolesOf(c, s, e, own, q);
    if c.peers[q].role.epoch == e {
      ReconcileInEpoch(c, s, e, own, q);
    } else {
      ReconcileElsewhere(c, s, e, own, q);
    }
  }

  lemma NotTheLeader(c: Cluster, s: AcksAll.State, e: u64, own: Own, q: Id)
    requires LeaderMatches(c, s, e, own) && q in c.peers && IsFollower(c.peers[q].role)
    ensures q != s.leader.self
  {
  }

  lemma ReconcileElsewhere(c: Cluster, s: AcksAll.State, e: u64, own: Own, q: Id)
    requires Enabled(c, Reconcile(q)) && c.peers[q].role.epoch != e && At(c, q, c.peers[q].role.epoch)
    requires Inv(c) && Matches(c, s, e, own) && q != s.leader.self
    ensures Matches(Apply(c, Reconcile(q)), s, e, own)
  {
    hide Inv, LeaderMatches, Reconciled, Present;
    var d := Apply(c, Reconcile(q));
    assert PeerMatches(c, s, e, own, q);
    RoleNotReconciling(d.peers[q], e, s.begin, own);
    HeirLeads(c, s, e, own, q);
    if q in s.followers {
      MovedOn(c, d, e, s.begin, own, q, s.followers[q]);
    }
    hide AnswerFits, AnswerSpares, FollowerMatches;
    OneChanges(c, s, e, own, d, s, q);
  }

  /** Whoever has moved on and is not the heir may do what it likes. */
  lemma MovedOn(c: Cluster, d: Cluster, e: u64, begin: nat, own: Own, f: Id, log: seq<Record>)
    requires FollowerMatches(c, e, begin, own, f, log) && !At(c, f, e) && !Heir(c, e, f)
    requires f in d.peers && d.peers[f].view == c.peers[f].view && d.published == c.published
    ensures FollowerMatches(d, e, begin, own, f, log)
  {
    hide NextEpoch, NamedFor, Present;
    if Heir(d, e, f) {
      HeirAt(d, e, f);
    }
  }

  lemma ReconcileInEpoch(c: Cluster, s: AcksAll.State, e: u64, own: Own, q: Id)
    requires Enabled(c, Reconcile(q)) && c.peers[q].role.epoch == e && At(c, q, e)
    requires Inv(c) && Matches(c, s, e, own) && q != s.leader.self
    ensures Matches(Apply(c, Reconcile(q)), Image(c, s, e, Reconcile(q)), e, own)
  {
    hide Inv, Reconciled, Present, FollowerMatches, AnswerFits, AnswerSpares, OwnOk, AnswerOk;
    var d := Apply(c, Reconcile(q));
    assert PeerMatches(c, s, e, own, q);
    var n := Reconciled(c.peers[q].node, c.peers[q].role.answer.value);
    AnswerOf(c, s, e, own, q);
    ReconciledFits(c.peers[q], e, s.begin, own, s.log);
    if q in s.followers {
      PresentFit(c, e, s.begin, own, q, s.followers[q]);
      KeepsEnough(s, c.peers[q], e, own);
    }
    RejoinedTo(s, q, n.log);
    var t := Take(s, AcksAll.Rejoin(q, |n.log|));
    hide LeaderMatches;
    RoleNotReconciling(d.peers[q], e, s.begin, own);
    SamePresent(c.peers[q].(node := n), d.peers[q], e, s.begin, own, n.log);
    NewPresent(c, d, e, s.begin, own, q, n.log);
    OneChanges(c, s, e, own, d, t, q);
  }

  lemma RejoinedTo(s: AcksAll.State, q: Id, log: seq<Record>)
    requires q != s.leader.self && log <= s.log
    requires q in s.followers ==> AcksAll.Reaches(s, |s.followers[q]|, |log|)
    ensures Take(s, AcksAll.Rejoin(q, |log|)) == s.(followers := s.followers[q := log])
  {
    hide AcksAll.Reaches;
    assert s.log[..|log|] == log;
  }

  // ---------------------------------------------------------------- fetching

  /** A fetch concerns what the leader knows, not what anyone holds. */
  lemma LeaderOnly(c: Cluster, s: AcksAll.State, t: AcksAll.State, e: u64, own: Own)
    requires Matches(c, s, e, own) && t.followers == s.followers && t.log == s.log && t.begin == s.begin
    requires t.leader.self == s.leader.self
    requires forall w {:trigger w in t.parked} :: w in t.parked ==> w in s.parked || w.last >= s.begin
    ensures Matches(c, t, e, own)
  {
    hide OwnOk, AnswerFits, AnswerSpares, FollowerMatches;
    forall f | f in c.peers ensures PeerMatches(c, t, e, own, f) {
      assert PeerMatches(c, s, e, own, f);
    }
  }

  lemma ArriveMatches(c: Cluster, s: AcksAll.State, e: u64, own: Own, q: Id)
    requires Inv(c) && Matches(c, s, e, own) && Enabled(c, ArriveFetch(q))
    ensures Matches(Apply(c, ArriveFetch(q)), Image(c, s, e, ArriveFetch(q)), e, own)
  {
    hide Inv, Matches, Take, AcksAll.Enabled;
    NotLeaderIn(c, s, e, own, q);
    RoleMatches(c, s, e, own, q, Apply(c, ArriveFetch(q)).peers[q].role);
    if c.peers[q].role.epoch == e {
      AskedAndHandled(s, q, |c.peers[q].node.log|);
      LeaderOnly(Apply(c, ArriveFetch(q)), s, Image(c, s, e, ArriveFetch(q)), e, own);
    }
  }

  lemma NotLeaderIn(c: Cluster, s: AcksAll.State, e: u64, own: Own, q: Id)
    requires Matches(c, s, e, own) && q in c.peers && IsFollower(c.peers[q].role)
    ensures q != s.leader.self
  {
  }

  lemma AskedAndHandled(s: AcksAll.State, f: Id, offset: nat)
    ensures var t := Take(Take(s, AcksAll.Ask(f)), AcksAll.Handle(f, offset));
            && t.followers == s.followers && t.log == s.log && t.begin == s.begin && t.parked == s.parked
            && t.leader.self == s.leader.self
  {
  }

  lemma DeliverMatches(c: Cluster, s: AcksAll.State, e: u64, own: Own, q: Id, count: nat)
    requires Inv(c) && Matches(c, s, e, own) && Enabled(c, Deliver(q, count))
    ensures Matches(Apply(c, Deliver(q, count)), Image(c, s, e, Deliver(q, count)), e, own)
  {
    hide Inv, LeaderMatches, FollowerMatches, AnswerFits, AnswerSpares, Delivered;
    assert q != s.leader.self by { NotTheLeader(c, s, e, own, q); }
    assert PeerMatches(c, s, e, own, q);
    RolesOf(c, s, e, own, q);
    if c.peers[q].role.epoch == e {
      DeliverInEpoch(c, s, e, own, q, count);
    } else {
      DeliverElsewhere(c, s, e, own, q, count);
    }
  }

  lemma DeliveredRole(p: Peer, count: nat)
    requires p.role.Fetching? && p.role.response.Some?
    requires count <= |Continuing(p)| && |p.node.log| + count < U64_RANGE
    ensures var d := Delivered(p, count);
            d.view == p.view && !d.role.Reconciling? && (d.role.Fetching? ==> d.role.epoch == p.role.epoch)
  {
    hide Fetched;
  }

  lemma DeliverElsewhere(c: Cluster, s: AcksAll.State, e: u64, own: Own, q: Id, count: nat)
    requires Enabled(c, Deliver(q, count)) && c.peers[q].role.epoch != e && At(c, q, c.peers[q].role.epoch)
    requires Inv(c) && Matches(c, s, e, own) && q != s.leader.self
    ensures Matches(Apply(c, Deliver(q, count)), s, e, own)
  {
    hide Inv, LeaderMatches, Delivered, Present, FollowerMatches, AnswerFits, AnswerSpares;
    var d := Apply(c, Deliver(q, count));
    assert PeerMatches(c, s, e, own, q);
    DeliveredRole(c.peers[q], count);
    RoleNotReconciling(d.peers[q], e, s.begin, own);
    HeirLeads(c, s, e, own, q);
    if q in s.followers {
      MovedOn(c, d, e, s.begin, own, q, s.followers[q]);
    }
    OneChanges(c, s, e, own, d, s, q);
  }

  lemma DeliverInEpoch(c: Cluster, s: AcksAll.State, e: u64, own: Own, q: Id, count: nat)
    requires Enabled(c, Deliver(q, count)) && c.peers[q].role.epoch == e && At(c, q, e)
    requires Inv(c) && Matches(c, s, e, own) && q != s.leader.self
    ensures Matches(Apply(c, Deliver(q, count)), Take(s, AcksAll.Receive(q, count)), e, own)
  {
    hide Inv, Delivered, Present, FollowerMatches, AnswerFits, AnswerSpares, OwnOk;
    var d := Apply(c, Deliver(q, count));
    assert PeerMatches(c, s, e, own, q);
    PresentFit(c, e, s.begin, own, q, s.followers[q]);
    DeliveredPeer(c, q, count);
    LeaderIsTerm(c, s.leader.self, e);
    DeliveredRole(c.peers[q], count);
    RoleNotReconciling(d.peers[q], e, s.begin, own);
    var n := d.peers[q].node;
    ReceivedTo(s, q, count, n.log);
    ListedLast(c, s, own, e, d.peers[q]);
    NewPresent(c, d, e, s.begin, own, q, n.log);
    hide LeaderMatches;
    OneChanges(c, s, e, own, d, Take(s, AcksAll.Receive(q, count)), q);
  }

  lemma ReceivedTo(s: AcksAll.State, q: Id, count: nat, log: seq<Record>)
    requires q in s.followers && log <= s.log && |log| == |s.followers[q]| + count && s.followers[q] <= log
    ensures Take(s, AcksAll.Receive(q, count)) == s.(followers := s.followers[q := log])
  {
    var end := |s.followers[q]|;
    assert s.followers[q] + s.log[end..end + count] == log;
  }

  /** Nothing of the leader's own is of a later epoch. */
  lemma ListedLast(c: Cluster, s: AcksAll.State, own: Own, e: u64, p: Peer)
    requires Inv(c) && LeaderMatches(c, s, e, own) && CurrentEpoch(p.node.history) == e
    ensures Present(p, e, s.begin, own, p.node.log)
  {
    var r := s.leader.self;
    Lineage.NodeOrdered(c, r);
    hide Inv, Agrees, QueueIsOwn, Ordered, OwnEntry;
    forall q | q in own ensures e >= own[q] {
      EntryIsNoLater(c.terms, r, c.peers[r].node, q, own[q]);
    }
  }

  lemma EntryIsNoLater(terms: map<u64, Term>, r: Id, n: Node, p: nat, x: u64)
    requires OwnEntry(terms, r, n, p, x) && Ordered(n.history, |n.log|)
    ensures x <= CurrentEpoch(n.history)
  {
    hide Wrote, Ordered;
    var j :| 0 <= j < |n.history| && n.history[j].epoch == x;
    LastIsLatest(n.history, |n.log|, j);
  }

  lemma LastIsLatest(h: seq<EpochStart>, logEnd: nat, j: nat)
    requires Ordered(h, logEnd) && j < |h|
    ensures h[j].epoch <= h[|h| - 1].epoch
  {
  }

  // ---------------------------------------------------------------- every move

  lemma NetMatches(c: Cluster, births: Births, s: AcksAll.State, e: u64, own: Own, step: Step)
    requires Lineage.Good(c, births) && Matches(c, s, e, own) && Allowed(c, s, e, Net(step))
    ensures Matches(Apply(c, step), Image(c, s, e, step), e, own)
  {
    hide Inv, Line, Matches, SoundCheck, SoundFetch;
    match step
    case Publish(m) => PublishMatches(c, s, e, own, m);
    case Adopt(q, k) => AdoptMatches(c, s, e, own, q, k);
    case AppendOne(q, record) => AppendMatches(c, s, e, own, q, record);
    case ArriveCheck(q) => RoleMatches(c, s, e, own, q, Apply(c, step).peers[q].role);
    case AnswerCheck(q) => AnswerMatches(c, births, s, e, own, q);
    case Reconcile(q) => ReconcileMatches(c, s, e, own, q);
    case ArriveFetch(q) => ArriveMatches(c, s, e, own, q);
    case AnswerFetch(q, count) => RoleMatches(c, s, e, own, q, Apply(c, step).peers[q].role);
    case Deliver(q, count) => DeliverMatches(c, s, e, own, q, count);
    case Stop(q) => RoleMatches(c, s, e, own, q, Idle);
  }

  lemma ImageKeeps(c: Cluster, s: AcksAll.State, e: u64, step: Step, first: nat)
    requires AcksAll.Inv(s, first) && Enabled(c, step)
    ensures var t := Image(c, s, e, step);
            AcksAll.Inv(t, first) && t.begin == s.begin && t.leader.self == s.leader.self
  {
    hide AcksAll.Inv, Enabled, Take, Reconciled;
    match step
    case AppendOne(q, record) => TakeKeeps(s, AcksAll.Append([record]), first);
    case Reconcile(f) => ReconcileKeepsAcks(c, s, f, first);
    case ArriveFetch(f) => ArriveKeepsAcks(c, s, f, first);
    case Deliver(f, count) => TakeKeeps(s, AcksAll.Receive(f, count), first);
    case _ =>
  }

  lemma ReconcileKeepsAcks(c: Cluster, s: AcksAll.State, f: Id, first: nat)
    requires AcksAll.Inv(s, first) && Enabled(c, Reconcile(f))
    ensures var t := Take(s, AcksAll.Rejoin(f, |Reconciled(c.peers[f].node, c.peers[f].role.answer.value).log|));
            AcksAll.Inv(t, first) && t.begin == s.begin && t.leader.self == s.leader.self
  {
    hide AcksAll.Inv, Take, Reconciled;
    TakeKeeps(s, AcksAll.Rejoin(f, |Reconciled(c.peers[f].node, c.peers[f].role.answer.value).log|), first);
  }

  lemma ArriveKeepsAcks(c: Cluster, s: AcksAll.State, f: Id, first: nat)
    requires AcksAll.Inv(s, first) && Enabled(c, ArriveFetch(f))
    ensures var t := Take(Take(s, AcksAll.Ask(f)), AcksAll.Handle(f, |c.peers[f].node.log|));
            AcksAll.Inv(t, first) && t.begin == s.begin && t.leader.self == s.leader.self
  {
    hide AcksAll.Inv, Take;
    TakeKeeps(s, AcksAll.Ask(f), first);
    TakeKeeps(Take(s, AcksAll.Ask(f)), AcksAll.Handle(f, |c.peers[f].node.log|), first);
  }

  ghost predicate Good(c: Cluster, births: Births, s: AcksAll.State, e: u64, own: Own, first: nat) {
    Lineage.Good(c, births) && Matches(c, s, e, own) && AcksAll.Inv(s, first)
  }

  lemma NetKeeps(c: Cluster, births: Births, s: AcksAll.State, e: u64, own: Own, step: Step, first: nat)
    requires Good(c, births, s, e, own, first) && Allowed(c, s, e, Net(step))
    ensures Good(Apply(c, step), NextBirths(c, births, step), Image(c, s, e, step), e, own, first)
    ensures Image(c, s, e, step).begin == s.begin && Image(c, s, e, step).leader.self == s.leader.self
  {
    hide Lineage.Good, Inv, Matches, AcksAll.Inv, SoundCheck, SoundFetch, Image, Apply, Enabled, Leads, NextBirths;
    InvOf(c, births);
    StepLine(c, births, step);
    NetMatches(c, births, s, e, own, step);
    ImageKeeps(c, s, e, step, first);
  }

  lemma InvOf(c: Cluster, births: Births)
    requires Lineage.Good(c, births)
    ensures Inv(c)
  {
    hide Inv, Line;
  }

  lemma LocalKeeps(c: Cluster, births: Births, s: AcksAll.State, e: u64, own: Own, step: AcksAll.Step, first: nat)
    requires Good(c, births, s, e, own, first) && Allowed(c, s, e, Local(step))
    ensures Good(c, births, AcksAll.Apply(s, step), e, own, first)
    ensures AcksAll.Apply(s, step).begin == s.begin && AcksAll.Apply(s, step).leader.self == s.leader.self
  {
    LocalOnly(s, step, first);
    hide Lineage.Good, AcksAll.Inv, Matches, AcksAll.Enabled, AcksAll.Admits, AcksAll.Apply;
    AcksAll.StepKeeps(s, step, first);
    LeaderOnly(c, s, AcksAll.Apply(s, step), e, own);
  }

  lemma LocalOnly(s: AcksAll.State, step: AcksAll.Step, first: nat)
    requires AcksAll.Inv(s, first) && AcksAll.Enabled(s, step)
    requires !step.Append? && !step.Rejoin? && !step.Receive?
    ensures var t := AcksAll.Apply(s, step);
            && t.followers == s.followers && t.log == s.log && t.leader.self == s.leader.self && t.begin == s.begin
            && forall w {:trigger w in t.parked} :: w in t.parked ==> w in s.parked || w.last >= s.begin
  {
    hide AcksAll.FollowersOk, AcksAll.IsrHolds, Covered, Passed, NotPassed, Leadership.Proposal;
  }

  lemma {:induction false} MovesKeep(c: Cluster, births: Births, s: AcksAll.State, e: u64, own: Own, ms: seq<Move>,
                                     d: Cluster, t: AcksAll.State, first: nat) returns (later: Births)
    requires Good(c, births, s, e, own, first) && Moves(c, s, e, ms, d, t)
    ensures Good(d, later, t, e, own, first) && t.begin == s.begin && t.leader.self == s.leader.self
    decreases |ms|
  {
    hide Good, Apply, Image, AcksAll.Apply, Enabled, AcksAll.Enabled, AcksAll.Admits, SoundCheck, SoundFetch,
      NextBirths;
    later := births;
    if ms != [] {
      match ms[0]
      case Net(step) =>
        NetKeeps(c, births, s, e, own, step, first);
        later := MovesKeep(Apply(c, step), NextBirths(c, births, step), Image(c, s, e, step), e, own, ms[1..], d, t,
                           first);
      case Local(step) =>
        LocalKeeps(c, births, s, e, own, step, first);
        later := MovesKeep(c, births, AcksAll.Apply(s, step), e, own, ms[1..], d, t, first);
    }
  }

  // ---------------------------------------------------------------- from the first step of the cluster

  /** The record at `p` is one that the replica wrote itself, in an epoch that it led and still lists. */
  ghost predicate OwnRecord(terms: map<u64, Term>, r: Id, n: Node, p: nat) {
    exists j {:trigger n.history[j]} :: 0 <= j < |n.history| && Wrote(terms, r, n.history, |n.log|, j, p)
  }

  ghost function OwnOf(terms: map<u64, Term>, r: Id, n: Node): Own {
    map p | 0 <= p < |n.log| && OwnRecord(terms, r, n, p) :: EpochAt(n.history, p)
  }

  /** The leader of a new epoch begins with what its broker holds, and counts on whoever fetches from it. Whatever
      waits is a batch that it wrote itself; `AcksQueue` says how the queue comes to be like this. */
  ghost predicate Begins(b: Cluster, r: Id, k: nat, s: AcksAll.State)
    requires Enabled(b, Adopt(r, k))
  {
    var c, e := Apply(b, Adopt(r, k)), b.published[k].epoch;
    && AcksAll.Start(s) && s.leader.self == r && r in c.peers
    && s.log == c.peers[r].node.log && s.followers == Tracked(c, e)
    && forall w {:trigger w in s.leader.waiting} :: w in s.leader.waiting ==>
         OwnRecord(b.terms, r, b.peers[r].node, w.last)
  }

  function Begun(n: Node, e: u64): Node {
    NodeData(n.log, n.history + [EpochStart(e, |n.log|)])
  }

  lemma StampAtEnd(n: Node, e: u64)
    requires Ordered(n.history, |n.log|) && e > CurrentEpoch(n.history)
    ensures Stamped(n, e) == Begun(n, e)
  {
  }

  lemma OwnIsOk(terms: map<u64, Term>, later: map<u64, Term>, r: Id, n: Node, e: u64, p: nat)
    requires Ordered(n.history, |n.log|) && p in OwnOf(terms, r, n)
    requires forall x {:trigger terms[x]} :: x in terms ==> x in later && later[x].leader == terms[x].leader
    ensures p < |n.log|
    ensures OwnEntry(later, r, Begun(n, e), p, OwnOf(terms, r, n)[p])
  {
    OrderedInside(n.history, |n.log|);
    hide Ordered, EpochAt;
    var j :| 0 <= j < |n.history| && Wrote(terms, r, n.history, |n.log|, j, p);
    EpochAtIs(n.history, p, j);
    var m := Begun(n, e);
    assert m.history[j] == n.history[j] && Wrote(later, r, m.history, |m.log|, j, p);
  }

  /** The cluster when a broker has just begun to lead an epoch that nobody has led. */
  lemma NewLeader(b: Cluster, r: Id, k: nat)
    requires Enabled(b, Adopt(r, k)) && b.published[k].leader == Some(r) && b.published[k].epoch !in b.terms
    requires Inv(b)
    ensures var e, n := b.published[k].epoch, b.peers[r].node;
            && e > 0 && Ordered(n.history, |n.log|)
            && Apply(b, Adopt(r, k)) == Cluster(b.published, b.peers[r := Peer(k, Begun(n, e), Leading(e))],
                                                b.terms[e := Term(r, n.log)])
  {
    var e, n := b.published[k].epoch, b.peers[r].node;
    hide Inv, Stamped, Ordered, Agrees;
    NewEpochIsLater(b, r, k);
    NotLeadingYet(b, r, e);
    Lineage.NodeOrdered(b, r);
    PositiveIn(b, k);
    StampAtEnd(n, e);
  }

  lemma LeaderBegins(b: Cluster, r: Id, k: nat, s: AcksAll.State)
    requires Enabled(b, Adopt(r, k)) && b.published[k].leader == Some(r) && b.published[k].epoch !in b.terms
    requires Inv(b) && Begins(b, r, k, s)
    ensures LeaderMatches(Apply(b, Adopt(r, k)), s, b.published[k].epoch, OwnOf(b.terms, r, b.peers[r].node))
  {
    NewLeader(b, r, k);
    hide Inv, Ordered, OwnRecord, Apply, OwnOf, AcksAll.Start, OwnOk, QueueIsOwn;
    OwnBegins(b, r, Apply(b, Adopt(r, k)), b.published[k].epoch);
    QueueBegins(b.terms, r, b.peers[r].node, s);
  }

  lemma QueueBegins(terms: map<u64, Term>, r: Id, n: Node, s: AcksAll.State)
    requires AcksAll.Start(s) && s.log == n.log
    requires forall w {:trigger w in s.leader.waiting} :: w in s.leader.waiting ==> OwnRecord(terms, r, n, w.last)
    ensures QueueIsOwn(s, OwnOf(terms, r, n)) && s.begin == |n.log|
  {
    hide OwnRecord, EpochAt;
  }

  lemma OwnBegins(b: Cluster, r: Id, c: Cluster, e: u64)
    requires r in b.peers && Ordered(b.peers[r].node.history, |b.peers[r].node.log|) && e !in b.terms && r in c.peers
    requires c.peers[r].node == Begun(b.peers[r].node, e)
    requires c.terms == b.terms[e := Term(r, b.peers[r].node.log)]
    ensures OwnOk(c, r, |b.peers[r].node.log|, OwnOf(b.terms, r, b.peers[r].node))
  {
    hide Ordered, OwnRecord, EpochAt, OwnEntry;
    var n := b.peers[r].node;
    var own := OwnOf(b.terms, r, n);
    forall p | p in own ensures p < |n.log| && OwnEntry(c.terms, r, c.peers[r].node, p, own[p]) {
      OwnIsOk(b.terms, c.terms, r, n, e, p);
    }
  }

  /** Before anyone has led the epoch, its followers have kept nothing. */
  lemma NothingYet(b: Cluster, r: Id, k: nat, s: AcksAll.State, own: Own, f: Id)
    requires Enabled(b, Adopt(r, k)) && b.published[k].leader == Some(r) && b.published[k].epoch !in b.terms
    requires Inv(b) && Begins(b, r, k, s) && f in b.peers && f != r
    ensures PeerMatches(Apply(b, Adopt(r, k)), s, b.published[k].epoch, own, f)
  {
    var e, p := b.published[k].epoch, b.peers[f];
    NotYetListed(b, f, e);
    FetcherView(b, f);
    PositiveIn(b, k);
    AdoptTerms(b, r, k);
    hide Inv, Apply, AcksAll.Start, AnswerFits, AnswerSpares, FollowerMatches;
    var c := Apply(b, Adopt(r, k));
    assert c.peers[f] == p && c.published == b.published;
    EmptyAnswer(p, e, s.begin, own);
    if f in s.followers {
      EmptyFollower(c, e, s.begin, own, f);
      RoleNotReconciling(p, e, s.begin, own);
    }
  }

  lemma EmptyAnswer(p: Peer, e: u64, begin: nat, own: Own)
    requires e > 0
    requires forall i {:trigger p.node.history[i]} :: 0 <= i < |p.node.history| ==> p.node.history[i].epoch != e
    requires p.role.Reconciling? && p.role.epoch == e && p.role.answer.Some? ==>
               Min(p.role.answer.value, |p.node.log|) == 0
    ensures AnswerFits(p, e, begin, own)
  {
    hide Reconciled;
  }

  lemma EmptyFollower(c: Cluster, e: u64, begin: nat, own: Own, f: Id)
    requires f in c.peers && At(c, f, e) && c.peers[f].node.log == []
    ensures FollowerMatches(c, e, begin, own, f, [])
  {
    hide Heir;
    assert Present(c.peers[f], e, begin, own, []);
  }

  lemma FetcherView(b: Cluster, f: Id)
    requires Inv(b) && f in b.peers
    ensures b.peers[f].role.Fetching? ==> At(b, f, b.peers[f].role.epoch)
  {
    hide TermsOk, LeadersSeen, PublishedOk, Agrees, LeaderOk, ViewOk, NamedFor;
    assert PeerOk(b.published, b.terms, f, b.peers[f]);
  }

  lemma BeginMatches(b: Cluster, r: Id, k: nat, s: AcksAll.State)
    requires Enabled(b, Adopt(r, k)) && b.published[k].leader == Some(r) && b.published[k].epoch !in b.terms
    requires Inv(b) && Begins(b, r, k, s)
    ensures Matches(Apply(b, Adopt(r, k)), s, b.published[k].epoch, OwnOf(b.terms, r, b.peers[r].node))
  {
    var e, own := b.published[k].epoch, OwnOf(b.terms, r, b.peers[r].node);
    LeaderBegins(b, r, k, s);
    hide Inv, Stamped, LeaderMatches, OwnOf, OwnRecord;
    var c := Apply(b, Adopt(r, k));
    AdoptTerms(b, r, k);
    forall f | f in c.peers ensures PeerMatches(c, s, e, own, f) {
      if f == r {
        RoleNotReconciling(c.peers[r], e, s.begin, own);
      } else {
        NothingYet(b, r, k, s, own, f);
      }
    }
  }

  /** The log holds everything up to the batch's last record on both brokers, in the same form. */
  ghost predicate OnBroker(c: Cluster, w: Waiting, r: Id, f: Id) {
    && r in c.peers && f in c.peers && w.last < |c.peers[r].node.log|
    && c.peers[r].node.log[..w.last + 1] <= c.peers[f].node.log
  }

  lemma HeldOnBroker(d: Cluster, t: AcksAll.State, e: u64, own: Own, w: Waiting, f: Id, first: nat)
    requires Matches(d, t, e, own) && AcksAll.Inv(t, first) && w in t.acked && f in t.leader.isr
    requires f == t.leader.self || At(d, f, e) || Heir(d, e, f)
    ensures OnBroker(d, w, t.leader.self, f)
  {
    AcksAll.AckedIsHeld(t, first, w, f);
    hide AnswerFits, AnswerSpares, Above, OwnOk, NamedFor, AcksAll.FollowersOk, AcksAll.IsrHolds;
    if f != t.leader.self {
      assert PeerMatches(d, t, e, own, f);
    }
  }

  /** What a new leader acknowledges to acks=all produces is in the log of every broker of its ISR that has not
      moved on from its epoch, and in that of the broker that leads the next one: whoever of the ISR is elected
      has it, however long the old leader goes on and whatever reaches it late. That includes what still waited
      from epochs that it led before. The conditions are those of log agreement, and that whoever joins the ISR
      has fetched whatever counts below the mark. */
  lemma AckedIsOnEveryBroker(a: Cluster, steps: seq<Step>, b: Cluster, r: Id, k: nat, s: AcksAll.State,
                             moves: seq<Move>, d: Cluster, t: AcksAll.State)
    requires Init(a) && Run(a, steps, b) && SoundChecks(a, steps) && SoundFetches(a, steps)
    requires Enabled(b, Adopt(r, k)) && b.published[k].leader == Some(r) && b.published[k].epoch !in b.terms
    requires Begins(b, r, k, s) && Moves(Apply(b, Adopt(r, k)), s, b.published[k].epoch, moves, d, t)
    ensures var e := b.published[k].epoch;
            forall w, f {:trigger w in t.acked, f in t.leader.isr} ::
              w in t.acked && f in t.leader.isr && (f == r || At(d, f, e) || Heir(d, e, f)) ==> OnBroker(d, w, r, f)
  {
    var e := b.published[k].epoch;
    InitLine(a);
    var births := RunLine(a, steps, b, map[]);
    InvOf(b, births);
    BeginMatches(b, r, k, s);
    hide Init, Run, SoundChecks, SoundFetches, Inv, Line, Matches, AcksAll.Inv, Moves, Apply, Enabled, NextBirths, Heir;
    AdoptNewKeeps(b, r, k);
    AdoptLine(b, births, r, k);
    StartsWell(b, r, k, s);
    var own := OwnOf(b.terms, r, b.peers[r].node);
    var later := MovesKeep(Apply(b, Adopt(r, k)), NextBirths(b, births, Adopt(r, k)), s, e, own, moves, d, t,
                           s.leader.hwm);
    forall w, f | w in t.acked && f in t.leader.isr && (f == r || At(d, f, e) || Heir(d, e, f))
      ensures OnBroker(d, w, r, f)
    {
      HeldOnBroker(d, t, e, own, w, f, s.leader.hwm);
    }
  }

  lemma StartsWell(b: Cluster, r: Id, k: nat, s: AcksAll.State)
    requires Enabled(b, Adopt(r, k)) && Begins(b, r, k, s)
    ensures AcksAll.Inv(s, s.leader.hwm) && s.leader.self == r
  {
    AcksAll.StartIsGood(s);
  }
}
