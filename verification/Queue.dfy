/** The queue of acks=all produces of one broker over its whole life in the cluster: in the roles that it takes, and
    with batches that begin to wait later than they were appended (src/broker/mod.rs). Metadata that ends a broker's
    leadership refuses whatever waits; a batch that comes to the queue after that is not refused, and may be answered
    when the broker leads again. */
module AcksQueue {
  import opened Wrappers
  import opened Bytes
  import opened RecordCodec
  import opened HighWatermark
  import opened EpochHistory
  import opened Follower
  import opened EpochReconciliation
  import opened LogAgreement
  import opened Lineage
  import opened ClusterRuns
  import LogDivergence
  import Durability

  /** The broker's mark and queue. `taken` are the batches that its log took, with the epoch that it led then. */
  datatype Broker = Broker(c: Cluster, hwm: nat, taken: map<Waiting, u64>, waiting: seq<Waiting>)

  /** `Advance` is `advance_hwm`: the mark moves to what the ISR covers, or stays. After a cut it may lie past the log
      end, and then it can only stay. */
  datatype Act = Net(step: Step) | Take(w: Waiting) | Park(w: Waiting) | Advance(mark: nat)

  // ---------------------------------------------------------------- what happens to it

  /** Metadata that leaves a broker what it is, not a leader, in the same epoch. */
  predicate StaysFollower(c: Cluster, r: Id, k: nat)
    requires r in c.peers && k < |c.published|
  {
    !c.peers[r].role.Leading? && c.peers[r].view < |c.published|
    && c.published[c.peers[r].view].epoch == c.published[k].epoch
  }

  /** A broker that becomes a follower refuses whatever waits; one that is restarted forgets it. */
  ghost function AfterStep(b: Broker, r: Id, step: Step): Broker
    requires Enabled(b.c, step)
  {
    var t := b.(c := Apply(b.c, step));
    match step
    case Adopt(q, k) =>
      if q == r && b.c.published[k].leader != Some(r) && !StaysFollower(b.c, r, k) then t.(waiting := []) else t
    case Stop(q) =>
      if q == r && b.c.peers[r].role.Leading? then t.(hwm := 0, taken := map[], waiting := []) else t
    case _ => t
  }

  /** The mark of a leader passes what it passes. */
  function Drained(b: Broker, mark: nat): Broker {
    b.(hwm := mark, waiting := NotPassed(b.waiting, mark))
  }

  ghost predicate Allowed(b: Broker, r: Id, a: Act) {
    match a
    case Net(step) => Enabled(b.c, step) && SoundCheck(b.c, step) && SoundFetch(b.c, step)
    case Take(w) =>
      && r in b.c.peers && b.c.peers[r].role.Leading? && w !in b.taken
      && w.count > 0 && w.last == w.base + w.count - 1 && w.last < |b.c.peers[r].node.log|
      && var h := b.c.peers[r].node.history; h != [] && h[|h| - 1].start <= w.base
    case Park(w) => r in b.c.peers && w in b.taken
    case Advance(mark) =>
      && r in b.c.peers && b.c.peers[r].role.Leading?
      && (mark == b.hwm || b.hwm <= mark <= |b.c.peers[r].node.log|)
  }

  ghost function Next(b: Broker, r: Id, a: Act): Broker
    requires Allowed(b, r, a)
  {
    match a
    case Net(step) => AfterStep(b, r, step)
    case Take(w) => b.(taken := b.taken[w := b.c.peers[r].role.epoch])
    case Park(w) =>
      var t := b.(waiting := b.waiting + [w]);
      if b.c.peers[r].role.Leading? then Drained(t, b.hwm) else t
    case Advance(mark) => Drained(b, mark)
  }

  /** The batches that an act answers. */
  ghost function AnsweredBy(b: Broker, r: Id, a: Act): seq<Waiting>
    requires Allowed(b, r, a)
  {
    match a
    case Park(w) => if b.c.peers[r].role.Leading? then Passed(b.waiting + [w], b.hwm) else []
    case Advance(mark) => Passed(b.waiting, mark)
    case _ => []
  }

  /** A batch begins to wait while its broker still leads the epoch that it was appended in. The code does not
      check this. */
  ghost predicate Prompt(b: Broker, r: Id, a: Act)
    requires Allowed(b, r, a)
  {
    a.Park? ==> Leads(b.c.peers[r], b.taken[a.w])
  }

  ghost predicate Acts(b: Broker, r: Id, acts: seq<Act>, t: Broker)
    decreases |acts|
  {
    if acts == [] then b == t
    else Allowed(b, r, acts[0]) && Acts(Next(b, r, acts[0]), r, acts[1..], t)
  }

  ghost predicate AllPrompt(b: Broker, r: Id, acts: seq<Act>)
    decreases |acts|
  {
    acts == [] ||
    (Allowed(b, r, acts[0]) ==> Prompt(b, r, acts[0]) && AllPrompt(Next(b, r, acts[0]), r, acts[1..]))
  }

  // ---------------------------------------------------------------- the invariant

  /** The broker wrote the batch when it led the epoch. */
  ghost predicate WasTaken(terms: map<u64, Term>, births: Births, r: Id, w: Waiting, e: u64) {
    && e in terms && terms[e].leader == r && e in births && |births[e]| <= w.base
    && w.count > 0 && w.last == w.base + w.count - 1 && w.last < |terms[e].log|
  }

  /** The checkpoint lists the batch under the epoch. */
  ghost predicate Lists(n: Node, w: Waiting, e: u64) {
    exists j {:trigger n.history[j]} :: 0 <= j < |n.history| && n.history[j].epoch == e
      && n.history[j].start <= w.base && w.last < EndAt(n.history, j, |n.log|)
  }

  ghost predicate QueueOk(b: Broker, births: Births, r: Id) {
    && r in b.c.peers
    && (forall w {:trigger b.taken[w]} :: w in b.taken ==> WasTaken(b.c.terms, births, r, w, b.taken[w]))
    && (b.waiting != [] ==> b.c.peers[r].role.Leading?)
    && (forall w {:trigger w in b.waiting} :: w in b.waiting ==>
          w in b.taken && b.hwm <= w.last && Lists(b.c.peers[r].node, w, b.taken[w]))
  }

  ghost predicate Good(b: Broker, births: Births, r: Id) {
    Lineage.Good(b.c, births) && QueueOk(b, births, r)
  }

  lemma TakenLater(a: map<u64, Term>, d: map<u64, Term>, births: Births, later: Births, r: Id, w: Waiting, e: u64)
    requires WasTaken(a, births, r, w, e)
    requires forall x {:trigger a[x]} :: x in a ==> x in d && d[x].leader == a[x].leader && |a[x].log| <= |d[x].log|
    requires forall x {:trigger births[x]} :: x in births ==> x in later && later[x] == births[x]
    ensures WasTaken(d, later, r, w, e)
  {
  }

  lemma BirthsStay(c: Cluster, births: Births, step: Step)
    requires Enabled(c, step) && births.Keys == c.terms.Keys
    ensures var d, later := Apply(c, step).terms, NextBirths(c, births, step);
            && (forall x {:trigger c.terms[x]} ::
                  x in c.terms ==> x in d && d[x].leader == c.terms[x].leader && |c.terms[x].log| <= |d[x].log|)
            && (forall x {:trigger births[x]} :: x in births ==> x in later && later[x] == births[x])
  {
    hide Stamped, Reconciled, EndOf, Delivered, Inherited;
  }

  /** The log has grown, and perhaps a new epoch was stamped where it ended. */
  ghost predicate Extends(n: Node, m: Node) {
    && |n.log| <= |m.log| && n.history <= m.history
    && (m.history == n.history || (|m.history| == |n.history| + 1 && m.history[|n.history|].start == |n.log|))
  }

  lemma ListsLater(n: Node, m: Node, w: Waiting, e: u64)
    requires Lists(n, w, e) && Extends(n, m)
    ensures Lists(m, w, e)
  {
    var j :| 0 <= j < |n.history| && n.history[j].epoch == e && n.history[j].start <= w.base
             && w.last < EndAt(n.history, j, |n.log|);
    assert m.history[j] == n.history[j];
  }

  /** What a step leaves of a leader that goes on leading, or of a broker that does not lead. */
  lemma StepOfLeader(c: Cluster, r: Id, step: Step)
    requires Enabled(c, step) && r in c.peers && c.peers[r].role.Leading?
    ensures var d := Apply(c, step);
            r in d.peers && (step != Stop(r) && !(step.Adopt? && step.r == r && c.published[step.k].leader != Some(r))
            ==>
            d.peers[r].role.Leading? && Extends(c.peers[r].node, d.peers[r].node))
  {
    hide Reconciled, EndOf, Delivered;
  }

  lemma StepKeepsRole(c: Cluster, r: Id, step: Step)
    requires Enabled(c, step) && r in c.peers
    ensures r in Apply(c, step).peers
  {
    hide Reconciled, EndOf, Delivered, Stamped;
  }

  lemma NetKeeps(b: Broker, births: Births, r: Id, step: Step)
    requires Good(b, births, r) && Allowed(b, r, Net(step))
    ensures Good(AfterStep(b, r, step), NextBirths(b.c, births, step), r)
  {
    hide Lineage.Good, QueueOk, SoundCheck, SoundFetch, Enabled, NextBirths, Apply;
    BirthsMatch(b.c, births);
    StepLineOf(b.c, births, step);
    NetQueue(b, births, r, step);
  }

  lemma StepLineOf(c: Cluster, births: Births, step: Step)
    requires Lineage.Good(c, births) && Enabled(c, step) && SoundCheck(c, step) && SoundFetch(c, step)
    ensures Lineage.Good(Apply(c, step), NextBirths(c, births, step))
  {
    hide Inv, Line, Enabled, SoundCheck, SoundFetch, Apply, NextBirths;
    StepLine(c, births, step);
  }

  lemma NetQueue(b: Broker, births: Births, r: Id, step: Step)
    requires QueueOk(b, births, r) && Enabled(b.c, step) && births.Keys == b.c.terms.Keys
    ensures QueueOk(AfterStep(b, r, step), NextBirths(b.c, births, step), r)
  {
    hide WasTaken, Lists, Apply, Enabled, NextBirths;
    BirthsStay(b.c, births, step);
    StepKeepsRole(b.c, r, step);
    var t, later := AfterStep(b, r, step), NextBirths(b.c, births, step);
    forall w | w in t.taken ensures WasTaken(t.c.terms, later, r, w, t.taken[w]) {
      TakenLater(b.c.terms, t.c.terms, births, later, r, w, b.taken[w]);
    }
    if t.waiting != [] {
      WaitingStays(b, births, r, step);
    }
  }

  lemma BirthsMatch(c: Cluster, births: Births)
    requires Lineage.Good(c, births)
    ensures births.Keys == c.terms.Keys
  {
    hide Inv;
  }

  lemma WaitingStays(b: Broker, births: Births, r: Id, step: Step)
    requires QueueOk(b, births, r) && Enabled(b.c, step) && AfterStep(b, r, step).waiting != []
    ensures var t := AfterStep(b, r, step);
            && t.waiting == b.waiting && t.taken == b.taken && t.hwm == b.hwm && r in t.c.peers
            && t.c.peers[r].role.Leading?
            && forall w {:trigger w in t.waiting} :: w in t.waiting ==> Lists(t.c.peers[r].node, w, t.taken[w])
  {
    hide WasTaken, Lists, Apply, Enabled;
    StepOfLeader(b.c, r, step);
    var t := AfterStep(b, r, step);
    var n, m := b.c.peers[r].node, t.c.peers[r].node;
    forall w | w in t.waiting ensures Lists(m, w, t.taken[w]) {
      ListsLater(n, m, w, b.taken[w]);
    }
  }

  /** A leader lists its epoch from where it began. */
  lemma LeaderLists(c: Cluster, births: Births, r: Id, e: u64)
    requires Lineage.Good(c, births) && r in c.peers && Leads(c.peers[r], e)
    ensures e in c.terms && c.terms[e] == Term(r, c.peers[r].node.log) && e in births
    ensures var h := c.peers[r].node.history; h != [] && h[|h| - 1] == EpochStart(e, |births[e]|)
  {
    hide Inv, Line;
    LeaderIsTerm(c, r, e);
    LineOf(c, births, r);
    var h := c.peers[r].node.history;
    assert h[|h| - 1].epoch == e;
  }

  lemma LineOf(c: Cluster, births: Births, r: Id)
    requires Line(c, births) && r in c.peers
    ensures births.Keys == c.terms.Keys && OwnStarts(c.terms, births, r, c.peers[r].node.history)
  {
    hide BirthsOk, Rooted, RoleTraces, OwnStarts;
    assert PeerLine(c.terms, births, r, c.peers[r]);
  }

  lemma TakeKeeps(b: Broker, births: Births, r: Id, w: Waiting)
    requires Good(b, births, r) && Allowed(b, r, Take(w))
    ensures Good(Next(b, r, Take(w)), births, r)
  {
    hide Lineage.Good, Lists;
    LeaderLists(b.c, births, r, b.c.peers[r].role.epoch);
  }

  /** A batch that is parked in time is listed. */
  lemma PromptIsListed(b: Broker, births: Births, r: Id, w: Waiting)
    requires Good(b, births, r) && w in b.taken && Leads(b.c.peers[r], b.taken[w])
    ensures Lists(b.c.peers[r].node, w, b.taken[w])
  {
    hide Lineage.Good;
    LeaderLists(b.c, births, r, b.taken[w]);
    var h := b.c.peers[r].node.history;
    assert h[|h| - 1].epoch == b.taken[w];
  }

  lemma ParkKeeps(b: Broker, births: Births, r: Id, w: Waiting)
    requires Good(b, births, r) && Allowed(b, r, Park(w)) && Prompt(b, r, Park(w))
    ensures Good(Next(b, r, Park(w)), births, r)
  {
    PromptIsListed(b, births, r, w);
    hide Lineage.Good, QueueOk, Lists, Drained;
    var t := b.(waiting := b.waiting + [w]);
    ParkQueue(b, births, r, w);
    DrainQueue(t, births, r, b.hwm);
    SameCluster(t, b.hwm);
  }

  lemma ParkQueue(b: Broker, births: Births, r: Id, w: Waiting)
    requires QueueOk(b, births, r) && w in b.taken && b.c.peers[r].role.Leading?
    requires Lists(b.c.peers[r].node, w, b.taken[w])
    ensures Queued(b.(waiting := b.waiting + [w]), births, r)
  {
    hide Lists, WasTaken;
  }

  /** The same, but for where the mark stands. */
  ghost predicate Queued(b: Broker, births: Births, r: Id) {
    && r in b.c.peers && b.c.peers[r].role.Leading?
    && (forall w {:trigger b.taken[w]} :: w in b.taken ==> WasTaken(b.c.terms, births, r, w, b.taken[w]))
    && (forall w {:trigger w in b.waiting} :: w in b.waiting ==>
          w in b.taken && Lists(b.c.peers[r].node, w, b.taken[w]))
  }

  lemma DrainQueue(b: Broker, births: Births, r: Id, mark: nat)
    requires Queued(b, births, r)
    ensures QueueOk(Drained(b, mark), births, r)
  {
    hide Lists, WasTaken, NotPassed, Passed;
    DrainSplits(b.waiting, mark);
  }

  lemma SameCluster(b: Broker, mark: nat)
    ensures Drained(b, mark).c == b.c
  {
  }

  lemma AdvanceKeeps(b: Broker, births: Births, r: Id, mark: nat)
    requires Good(b, births, r) && Allowed(b, r, Advance(mark))
    ensures Good(Next(b, r, Advance(mark)), births, r)
  {
    hide Lineage.Good, Lists, WasTaken, Drained;
    DrainQueue(b, births, r, mark);
    SameCluster(b, mark);
  }

  lemma {:induction false} ActsKeep(b: Broker, births: Births, r: Id, acts: seq<Act>, t: Broker)
    returns (later: Births)
    requires Good(b, births, r) && Acts(b, r, acts, t) && AllPrompt(b, r, acts)
    ensures Good(t, later, r)
    decreases |acts|
  {
    hide Good, Allowed, Next, Prompt;
    later := births;
    if acts != [] {
      later := ActKeeps(b, births, r, acts[0]);
      later := ActsKeep(Next(b, r, acts[0]), later, r, acts[1..], t);
    }
  }

  lemma ActKeeps(b: Broker, births: Births, r: Id, a: Act) returns (later: Births)
    requires Good(b, births, r) && Allowed(b, r, a) && Prompt(b, r, a)
    ensures Good(Next(b, r, a), later, r)
  {
    hide Good, Allowed, Prompt, AfterStep, Drained;
    later := births;
    match a
    case Net(step) =>
      NetKeeps(b, births, r, step);
      later := NextsOf(b, births, r, step);
    case Take(w) => TakeKeeps(b, births, r, w);
    case Park(w) => ParkKeeps(b, births, r, w);
    case Advance(mark) => AdvanceKeeps(b, births, r, mark);
  }

  lemma NextsOf(b: Broker, births: Births, r: Id, step: Step) returns (later: Births)
    requires Allowed(b, r, Net(step)) && Good(b, births, r)
    ensures Good(Next(b, r, Net(step)), later, r)
  {
    hide Good, SoundCheck, SoundFetch, AfterStep;
    NetKeeps(b, births, r, step);
    later := NextBirths(b.c, births, step);
  }

  // ---------------------------------------------------------------- batches that wait in time

  /** The broker's log still holds what it wrote for the batch. */
  ghost predicate Intact(c: Cluster, r: Id, w: Waiting, e: u64) {
    && r in c.peers && e in c.terms && w.base <= w.last < |c.peers[r].node.log| && w.last < |c.terms[e].log|
    && c.peers[r].node.log[w.base..w.last + 1] == c.terms[e].log[w.base..w.last + 1]
  }

  lemma ListedIsIntact(c: Cluster, births: Births, r: Id, w: Waiting, e: u64)
    requires Lineage.Good(c, births) && r in c.peers && WasTaken(c.terms, births, r, w, e)
    requires Lists(c.peers[r].node, w, e)
    ensures Intact(c, r, w, e) && Durability.OwnRecord(c.terms, r, c.peers[r].node, w.last)
  {
    hide Inv, Line, Agrees, Ordered, Lists, Durability.OwnRecord;
    Lineage.NodeOrdered(c, r);
    ListedAgrees(c.peers[r].node, c.terms, w, e);
    ListedIsOwn(c.terms, r, c.peers[r].node, w, e);
  }

  lemma ListedAgrees(n: Node, terms: map<u64, Term>, w: Waiting, e: u64)
    requires Agrees(n, Logs(terms)) && Lists(n, w, e) && w.base <= w.last
    ensures e in terms && w.last < |n.log| && w.last < |terms[e].log|
    ensures n.log[w.base..w.last + 1] == terms[e].log[w.base..w.last + 1]
  {
    hide Ordered, EndAt;
    var j :| 0 <= j < |n.history| && n.history[j].epoch == e
             && n.history[j].start <= w.base && w.last < EndAt(n.history, j, |n.log|);
    assert EntryAgrees(n, j, Logs(terms));
    PrefixOf(n.log, EndAt(n.history, j, |n.log|), w.last + 1, terms[e].log);
    assert n.log[w.base..w.last + 1] == n.log[..w.last + 1][w.base..];
    assert terms[e].log[w.base..w.last + 1] == terms[e].log[..w.last + 1][w.base..];
  }

  lemma ListedIsOwn(terms: map<u64, Term>, r: Id, n: Node, w: Waiting, e: u64)
    requires Lists(n, w, e) && w.base <= w.last && e in terms && terms[e].leader == r
    ensures Durability.OwnRecord(terms, r, n, w.last)
  {
    hide EndAt;
    var j :| 0 <= j < |n.history| && n.history[j].epoch == e
             && n.history[j].start <= w.base && w.last < EndAt(n.history, j, |n.log|);
    assert Wrote(terms, r, n.history, |n.log|, j, w.last);
  }

  ghost predicate Fresh(b: Broker, r: Id) {
    Init(b.c) && r in b.c.peers && b.hwm == 0 && b.taken == map[] && b.waiting == []
  }

  /** Over any sound run of the cluster in which every batch begins to wait in time: only a leader has batches
      waiting, all past its mark; what waits, and what any further act answers, is still in its log as it wrote it
      for that batch, under an epoch that it led and lists. That is what `Durability.Begins` asks for. */
  lemma WaitingIsOwn(b: Broker, r: Id, acts: seq<Act>, t: Broker, a: Act)
    requires Fresh(b, r) && Acts(b, r, acts, t) && AllPrompt(b, r, acts)
    requires Allowed(t, r, a) && Prompt(t, r, a)
    ensures r in t.c.peers && (t.waiting != [] ==> t.c.peers[r].role.Leading?)
    ensures forall w {:trigger w in t.waiting} :: w in t.waiting ==>
              && w in t.taken && t.hwm <= w.last && Intact(t.c, r, w, t.taken[w])
              && Durability.OwnRecord(t.c.terms, r, t.c.peers[r].node, w.last)
    ensures forall w {:trigger w in AnsweredBy(t, r, a)} :: w in AnsweredBy(t, r, a) ==>
              w in t.taken && Intact(t.c, r, w, t.taken[w])
  {
    InitLine(b.c);
    hide Lineage.Good, Acts, AllPrompt, Intact, Init;
    assert Good(b, map[], r);
    var births := ActsKeep(b, map[], r, acts, t);
    hide WasTaken, Lists, Allowed, Passed, NotPassed, Durability.OwnRecord;
    forall w | w in t.waiting
      ensures Intact(t.c, r, w, t.taken[w]) && Durability.OwnRecord(t.c.terms, r, t.c.peers[r].node, w.last)
    {
      ListedIsIntact(t.c, births, r, w, t.taken[w]);
    }
    forall w | w in AnsweredBy(t, r, a) ensures w in t.taken && Intact(t.c, r, w, t.taken[w]) {
      WasWaiting(t, r, a, w);
      if w !in t.waiting {
        PromptIsListed(t, births, r, w);
        ListedIsIntact(t.c, births, r, w, t.taken[w]);
      }
    }
  }

  lemma WasWaiting(b: Broker, r: Id, a: Act, w: Waiting)
    requires Allowed(b, r, a) && w in AnsweredBy(b, r, a)
    ensures w in b.waiting || a == Park(w)
  {
    match a
    case Park(x) => DrainSplits(b.waiting + [x], b.hwm);
    case Advance(mark) => DrainSplits(b.waiting, mark);
    case _ =>
  }

  // ---------------------------------------------------------------- when an answer is true

  /** For every log with this checkpoint, a batch of epoch `e` is there as that epoch's leader wrote it. */
  ghost predicate AlwaysThere(l: seq<EpochStart>, lEnd: nat, e: u64, w: Waiting)
    requires w.base <= w.last < lEnd
  {
    forall ln: Node, written: map<u64, seq<Record>> {:trigger Agrees(ln, written)} ::
      Describes(ln, l, lEnd, written) && e in written && w.last < |written[e]| ==>
        ln.log[w.base..w.last + 1] == written[e][w.base..w.last + 1]
  }

  /** An answer to a batch is true, whatever the log holds, exactly when the checkpoint lists the batch's epoch and
      says that it has not ended before the batch's last record. A broker could look before it answers. */
  lemma AnswerIsExact(l: seq<EpochStart>, lEnd: nat, e: u64, w: Waiting)
    requires Ordered(l, lEnd) && lEnd < U64_RANGE && w.base <= w.last < lEnd
    ensures AlwaysThere(l, lEnd, e, w) <==> Covers(l, lEnd, e, w.last + 1)
  {
    hide Agrees, Ordered, Covers, Marked, Terms;
    var t := w.last + 1;
    if Covers(l, lEnd, e, t) {
      forall ln: Node, written: map<u64, seq<Record>> |
        Describes(ln, l, lEnd, written) && e in written && w.last < |written[e]|
        ensures ln.log[w.base..t] == written[e][w.base..t]
      {
        CoveredAgrees(ln, e, t, written);
        assert ln.log[w.base..t] == ln.log[..t][w.base..];
        assert written[e][w.base..t] == written[e][..t][w.base..];
      }
    } else {
      var epochs := EpochsOf(l) + {e};
      var first := epochs - {e};
      forall x | Covers(l, lEnd, x, t) ensures x in first {
        CoversListed(l, lEnd, x, t);
      }
      MarkedAgrees(l, lEnd, t, 1, lEnd, epochs, first);
      var written := Terms(epochs, first, lEnd, w.last);
      var ln: Node := NodeData(Marked(lEnd, w.last, 1), l);
      assert Agrees(ln, written);
      MarkAt(lEnd, w.last, 1);
      MarkAt(lEnd, w.last, 2);
      assert e in written && written[e] == Marked(lEnd, w.last, 2);
      LastDiffers(ln.log, written[e], w);
    }
  }

  lemma LastDiffers(a: seq<Record>, b: seq<Record>, w: Waiting)
    requires w.base <= w.last < |a| && w.last < |b| && a[w.last] != b[w.last]
    ensures a[w.base..w.last + 1] != b[w.base..w.last + 1]
  {
    assert a[w.base..w.last + 1][w.last - w.base] == a[w.last];
    assert b[w.base..w.last + 1][w.last - w.base] == b[w.last];
  }

  // ---------------------------------------------------------------- a batch that comes late

  const W: Waiting := Waiting(0, 0, 1, 0)
  const CUT := Peer(1, NodeData([], []), Fetching(2, LogDivergence.B, 1, false, None))
  const COPY := Peer(1, NodeData([LogDivergence.Y], [EpochStart(2, 0)]), Fetching(2, LogDivergence.B, 2, false, None))
  const BACK := Peer(2, NodeData([LogDivergence.Y], [EpochStart(2, 0), EpochStart(3, 1)]), Leading(3))
  const BACK_TERMS: map<u64, Term> :=
    map[1 := Term(LogDivergence.C, [LogDivergence.X]), 2 := Term(LogDivergence.B, [LogDivergence.Y]),
        3 := Term(LogDivergence.C, [LogDivergence.Y])]

  function FollowsAgain(c: Peer): Cluster {
    LogDivergence.Two([LogDivergence.M1, LogDivergence.M2], LogDivergence.B2, c, LogDivergence.TERMS2)
  }

  function LeadsAgain(): Cluster {
    LogDivergence.Two([LogDivergence.M1, LogDivergence.M2, LogDivergence.M3], LogDivergence.B2, BACK, BACK_TERMS)
  }

  lemma {:induction false} ActsOn(b: Broker, r: Id, first: seq<Act>, t: Broker, then_: seq<Act>, u: Broker)
    requires Acts(b, r, first, t) && Acts(t, r, then_, u)
    ensures Acts(b, r, first + then_, u)
    decreases |first|
  {
    hide Allowed, Next;
    if first == [] {
      assert first + then_ == then_;
    } else {
      ActsOn(Next(b, r, first[0]), r, first[1..], t, then_, u);
      assert (first + then_)[1..] == first[1..] + then_;
    }
  }

  lemma OneAct(b: Broker, r: Id, a: Act, t: Broker)
    requires Allowed(b, r, a) && Next(b, r, a) == t
    ensures Acts(b, r, [a], t)
  {
    hide Allowed, Next;
    assert Acts(t, r, [], t);
  }

  /** While nothing waits and nobody is restarted, a run of the cluster leaves the broker's queue alone. */
  lemma {:induction false} Quietly(b: Broker, r: Id, steps: seq<Step>, d: Cluster) returns (acts: seq<Act>)
    requires SoundRun(b.c, steps, d) && b.waiting == [] && forall x :: x in steps ==> !x.Stop?
    ensures Acts(b, r, acts, b.(c := d))
    decreases |steps|
  {
    hide Apply, Enabled, SoundCheck, SoundFetch;
    acts := [];
    if steps != [] {
      var x := steps[0];
      assert !x.Stop?;
      var t := b.(c := Apply(b.c, x));
      assert AfterStep(b, r, x) == t;
      OneAct(b, r, Net(x), t);
      assert forall y :: y in steps[1..] ==> y in steps;
      var rest := Quietly(t, r, steps[1..], d);
      hide Acts, Allowed, Next;
      ActsOn(b, r, [Net(x)], t, rest, b.(c := d));
      acts := [Net(x)] + rest;
    }
  }

  /** C becomes a follower of epoch 2, loses X and copies Y. */
  lemma LosesBatch()
    ensures SoundRun(LogDivergence.Mid2(), Joining(LogDivergence.C, 1) + Copying(LogDivergence.C, 1),
                     FollowsAgain(COPY))
  {
    var m, b := LogDivergence.Mid2(), LogDivergence.B;
    var l := LogDivergence.B2.node;
    assert EndOf(l.history, 1, 1) == 0;
    KeptIs(LogDivergence.C1.node.history, 0, 0);
    assert LogDivergence.C1.node.history[..0] == [] && [LogDivergence.X][..0] == [];
    assert Reconciled(LogDivergence.C1.node, 0) == CUT.node;
    NothingKept(LogDivergence.C1.node.history, 1, l.history, 1, 2);
    hide Run, SoundChecks, SoundFetches, EndOf, SoundAnswer, KeptEntries, Reconciled;
    var t := Joins(m, LogDivergence.C, 1, 2, b, 0);
    assert t.peers == FollowsAgain(CUT).peers;
    CopiesOther();
    SoundOn(m, Joining(LogDivergence.C, 1), FollowsAgain(CUT), Copying(LogDivergence.C, 1), FollowsAgain(COPY));
  }

  lemma CopiesOther()
    ensures SoundRun(FollowsAgain(CUT), Copying(LogDivergence.C, 1), FollowsAgain(COPY))
  {
    var y := LogDivergence.Y;
    LogDivergence.StampFresh([], [], 2);
    assert Fetched(CUT.node, 1, 2, [y], 1) == COPY.node by {
      assert [] + [y][..1] == [y];
    }
    hide SoundRun, Fetched;
    assert [y][0..1] == [y];
    var t := Copies(FollowsAgain(CUT), LogDivergence.C, 2, LogDivergence.B, 1, [y]);
    assert t.peers == FollowsAgain(COPY).peers;
  }

  /** ... and leads epoch 3. */
  lemma LeadsOnceMore()
    ensures SoundRun(FollowsAgain(COPY), [Publish(LogDivergence.M3), Adopt(LogDivergence.C, 2)], LeadsAgain())
  {
    LogDivergence.StampFresh([LogDivergence.Y], [EpochStart(2, 0)], 3);
    hide SoundRun, Stamped;
    var t := Starts(FollowsAgain(COPY), LogDivergence.C, 3, BACK.node);
    assert t.published == LeadsAgain().published && t.peers == LeadsAgain().peers && t.terms == BACK_TERMS;
  }

  lemma FirstStep(s: Cluster, x: Step, y: Step, t: Cluster)
    requires SoundRun(s, [x, y], t)
    ensures Enabled(s, x) && SoundCheck(s, x) && SoundFetch(s, x)
    ensures var m := Apply(s, x);
            Enabled(m, y) && SoundCheck(m, y) && SoundFetch(m, y) && Apply(m, y) == t
  {
    hide Apply, Enabled, SoundCheck, SoundFetch;
    assert [x, y][1..] == [y] && [y][1..] == [];
    assert Run(Apply(s, x), [y], t) && SoundChecks(Apply(s, x), [y]) && SoundFetches(Apply(s, x), [y]);
    assert Run(Apply(Apply(s, x), y), [], t);
  }

  /** The queue of a broker that comes to lead stays as it is. */
  lemma KeepsQueue(b: Broker) returns (acts: seq<Act>)
    requires b.c == FollowsAgain(COPY)
    ensures Acts(b, LogDivergence.C, acts, b.(c := LeadsAgain()))
  {
    var r, x, y := LogDivergence.C, Publish(LogDivergence.M3), Adopt(LogDivergence.C, 2);
    LeadsOnceMore();
    FirstStep(b.c, x, y, LeadsAgain());
    assert Apply(b.c, x).published[2] == LogDivergence.M3;
    hide Apply, Enabled, SoundCheck, SoundFetch, SoundRun, FollowsAgain, LeadsAgain;
    var m := b.(c := Apply(b.c, x));
    OneAct(b, r, Net(x), m);
    OneAct(m, r, Net(y), b.(c := LeadsAgain()));
    ActsOn(b, r, [Net(x)], m, [Net(y)], b.(c := LeadsAgain()));
    acts := [Net(x)] + [Net(y)];
  }

  /** C leads epoch 1 and takes the batch. */
  lemma TakesBatch() returns (acts: seq<Act>)
    ensures Acts(Broker(LogDivergence.Start(), 0, map[], []), LogDivergence.C, acts,
                 Broker(LogDivergence.Mid2(), 0, map[W := 1], []))
  {
    var r := LogDivergence.C;
    var b, m := Broker(LogDivergence.Start(), 0, map[], []), Broker(LogDivergence.Mid1(), 0, map[], []);
    var t, u := m.(taken := map[W := 1]), Broker(LogDivergence.Mid2(), 0, map[W := 1], []);
    assert Allowed(m, r, Take(W)) && Next(m, r, Take(W)) == t;
    var one := LogDivergence.Epoch1();
    var two := LogDivergence.Epoch2();
    hide Allowed, Next, SoundRun, Acts, LogDivergence.Start, LogDivergence.Mid1, LogDivergence.Mid2;
    var first := Quietly(b, r, one, LogDivergence.Mid1());
    OneAct(m, r, Take(W), t);
    var last := Quietly(t, r, two, LogDivergence.Mid2());
    ActsOn(b, r, first, m, [Take(W)], t);
    ActsOn(b, r, first + [Take(W)], t, last, u);
    acts := first + [Take(W)] + last;
  }

  /** C follows epoch 2 when the batch begins to wait: it is neither refused nor answered. */
  lemma ParksLate() returns (acts: seq<Act>)
    ensures Acts(Broker(LogDivergence.Mid2(), 0, map[W := 1], []), LogDivergence.C, acts,
                 Broker(FollowsAgain(COPY), 0, map[W := 1], [W]))
  {
    var r := LogDivergence.C;
    var u, v := Broker(LogDivergence.Mid2(), 0, map[W := 1], []), Broker(FollowsAgain(COPY), 0, map[W := 1], []);
    var w := v.(waiting := [W]);
    LosesBatch();
    assert [] + [W] == [W];
    assert Allowed(v, r, Park(W)) && Next(v, r, Park(W)) == w;
    var steps := Joining(r, 1) + Copying(r, 1);
    assert forall x :: x in steps ==> !x.Stop?;
    hide Allowed, Next, SoundRun, Acts, LogDivergence.Mid2, FollowsAgain;
    var lost := Quietly(u, r, steps, FollowsAgain(COPY));
    OneAct(v, r, Park(W), w);
    ActsOn(u, r, lost, v, [Park(W)], w);
    acts := lost + [Park(W)];
  }

  /** Without that, an answer can be false although everything else is as it should be: a batch is appended, its
      broker steps down and loses it, the batch begins to wait then, and when the broker leads again the mark passes
      where it was. */
  lemma LateParkIsFalse() returns (b: Broker, acts: seq<Act>, t: Broker)
    ensures Fresh(b, LogDivergence.C) && Acts(b, LogDivergence.C, acts, t)
    ensures Allowed(t, LogDivergence.C, Advance(1)) && W in AnsweredBy(t, LogDivergence.C, Advance(1))
    ensures W in t.taken && t.taken[W] == 1 && 1 in t.c.terms && t.c.terms[1].log == [LogDivergence.X]
    ensures LogDivergence.C in t.c.peers && t.c.peers[LogDivergence.C].node.log == [LogDivergence.Y]
    ensures !Intact(t.c, LogDivergence.C, W, 1) && !AllPrompt(b, LogDivergence.C, acts)
  {
    var r := LogDivergence.C;
    b, t := Broker(LogDivergence.Start(), 0, map[], []), Broker(LeadsAgain(), 0, map[W := 1], [W]);
    AnsweredFalsely(t);
    assert Fresh(b, r);
    hide Acts, AllPrompt, Allowed, Intact, Fresh, AnsweredBy, LeadsAgain, LogDivergence.Start;
    var first := TakesBatch();
    var next := ParksLate();
    var last := KeepsQueue(Broker(FollowsAgain(COPY), 0, map[W := 1], [W]));
    ActsOn(b, r, first, Broker(LogDivergence.Mid2(), 0, map[W := 1], []), next,
           Broker(FollowsAgain(COPY), 0, map[W := 1], [W]));
    ActsOn(b, r, first + next, Broker(FollowsAgain(COPY), 0, map[W := 1], [W]), last, t);
    acts := first + next + last;
    if AllPrompt(b, r, acts) {
      WaitingIsOwn(b, r, acts, t, Advance(1));
    }
  }

  lemma AnsweredFalsely(t: Broker)
    requires t == Broker(LeadsAgain(), 0, map[W := 1], [W])
    ensures Allowed(t, LogDivergence.C, Advance(1)) && W in AnsweredBy(t, LogDivergence.C, Advance(1))
    ensures Prompt(t, LogDivergence.C, Advance(1)) && !Intact(t.c, LogDivergence.C, W, 1)
    ensures W in t.taken && t.taken[W] == 1 && 1 in t.c.terms && t.c.terms[1].log == [LogDivergence.X]
    ensures LogDivergence.C in t.c.peers && t.c.peers[LogDivergence.C].node.log == [LogDivergence.Y]
  {
    PassedGrows([], W, 1);
    assert [] + [W] == [W];
    assert [LogDivergence.X][0..1] == [LogDivergence.X] && [LogDivergence.Y][0..1] == [LogDivergence.Y];
    assert [LogDivergence.X][0] != [LogDivergence.Y][0];
  }
}
