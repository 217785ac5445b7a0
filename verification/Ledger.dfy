/** The ledger of parked durable acknowledgements (src/broker/partition.rs). Pure. */
module AckLedger {
  import opened Wrappers
  import opened RecordCodec
  import opened Config
  import opened Messages
  import opened LogSpec
  import opened PartitionLog

  /** An append waiting for the flush that covers it. */
  datatype Pending = Pending(last: nat, base: nat, count: nat, ticket: nat)

  /** Base offset and count, or what went wrong. */
  type AppendResult = Result<(nat, nat), ErrorCode>

  /** What was sent on the reply channel `ticket`. */
  datatype Sent = Sent(ticket: nat, result: AppendResult)

  datatype Ledger = Ledger(pending: seq<Pending>, sent: seq<Sent>)

  predicate IsCovered(durable: Option<nat>, last: nat) {
    durable.Some? && durable.value >= last
  }

  /** Acknowledges the covered entries at the front of the queue, and no more. */
  function Drain(l: Ledger, durable: Option<nat>): Ledger
    decreases |l.pending|
  {
    if l.pending == [] || !IsCovered(durable, l.pending[0].last) then l
    else
      var p := l.pending[0];
      Drain(Ledger(l.pending[1..], l.sent + [Sent(p.ticket, Ok((p.base, p.count)))]), durable)
  }

  /** The answer to one append: what was appended before an error counts for nothing. */
  function Answer(l: Ledger, reply: Option<nat>, acks: Acks, base: Option<nat>, count: nat, error: Option<ErrorCode>,
                  next: nat, durable: Option<nat>, policy: FsyncPolicy): Ledger
    requires base.Some? ==> next > 0
  {
    if reply.None? then l
    else if error.Some? then l.(sent := l.sent + [Sent(reply.value, Err(error.value))])
    else if base.None? then l.(sent := l.sent + [Sent(reply.value, Ok((next, 0)))])
    else if AckedNow(acks, policy, durable, next - 1)
    then l.(sent := l.sent + [Sent(reply.value, Ok((base.value, count)))])
    else l.(pending := l.pending + [Pending(next - 1, base.value, count, reply.value)])
  }

  /** A broker that never flushes cannot promise more than "written". */
  predicate AckedNow(acks: Acks, policy: FsyncPolicy, durable: Option<nat>, last: nat) {
    match acks
    case AcksNone => true
    case Written => true
    case _ => policy == Os || IsCovered(durable, last)
  }

  // ---------------------------------------------------------------- what the ledger promises

  /** What was asked with a ticket: the acknowledgement, the log end when the append came, all its records, and what
      stopped it before its end, if anything did. */
  datatype Asked = Asked(acks: Acks, base: nat, records: seq<Record>, error: Option<ErrorCode>)

  predicate WantsDurable(acks: Acks) { acks == Durable || acks == All }

  /** The batch is in the log, at its offsets. */
  ghost predicate InLog(b: Asked, start: nat, records: seq<Record>) {
    && start <= b.base && b.base + |b.records| <= start + |records|
    && Part(records, start, b.base, b.base + |b.records|) == b.records
  }

  /** Every ticket is answered or waits, at most once. */
  ghost predicate OnceEach(l: Ledger) {
    && (forall i, j {:trigger l.sent[i], l.sent[j]} :: 0 <= i < j < |l.sent| ==> l.sent[i].ticket != l.sent[j].ticket)
    && (forall i, j {:trigger l.pending[i], l.pending[j]} ::
          0 <= i < j < |l.pending| ==> l.pending[i].ticket != l.pending[j].ticket)
    && (forall i, j {:trigger l.sent[i], l.pending[j]} ::
          0 <= i < |l.sent| && 0 <= j < |l.pending| ==> l.sent[i].ticket != l.pending[j].ticket)
  }

  predicate Used(l: Ledger, ticket: nat) {
    || (exists i {:trigger l.sent[i]} :: 0 <= i < |l.sent| && l.sent[i].ticket == ticket)
    || (exists i {:trigger l.pending[i]} :: 0 <= i < |l.pending| && l.pending[i].ticket == ticket)
  }

  /** Only a whole, non-empty batch that asked for durability waits. */
  ghost predicate Waits(p: Pending, asks: map<nat, Asked>) {
    && p.ticket in asks && asks[p.ticket].error.None? && WantsDurable(asks[p.ticket].acks)
    && p.base == asks[p.ticket].base && p.count == |asks[p.ticket].records| > 0
    && p.last == p.base + p.count - 1
  }

  /** Every entry waits for a real batch below `next`; the queue is in order of last offset. */
  ghost predicate Ordered(pending: seq<Pending>, asks: map<nat, Asked>, next: nat) {
    && (forall i {:trigger pending[i]} :: 0 <= i < |pending| ==> Waits(pending[i], asks) && pending[i].last < next)
    && (forall i, j {:trigger pending[i], pending[j]} :: 0 <= i < j < |pending| ==> pending[i].last < pending[j].last)
  }

  ghost predicate Uncovered(pending: seq<Pending>, durable: Option<nat>) {
    forall i {:trigger pending[i]} :: 0 <= i < |pending| ==> !IsCovered(durable, pending[i].last)
  }

  /** Every answer is the one that the ticket is owed: an append that was stopped gets its error, and any other gets its
      base offset and its length. If it asked for durability, and there is a policy to give it, that means that
      its last record is durable. */
  ghost predicate Truthful(s: Sent, asks: map<nat, Asked>, durable: Option<nat>, policy: FsyncPolicy) {
    && s.ticket in asks
    && var a := asks[s.ticket];
       match a.error
       case Some(e) => s.result == Err(e)
       case None =>
         && s.result == Ok((a.base, |a.records|))
         && (WantsDurable(a.acks) && policy != Os && a.records != [] ==> IsCovered(durable, a.base + |a.records| - 1))
  }

  ghost predicate AllTruthful(sent: seq<Sent>, asks: map<nat, Asked>, durable: Option<nat>, policy: FsyncPolicy) {
    forall i {:trigger sent[i]} :: 0 <= i < |sent| ==> Truthful(sent[i], asks, durable, policy)
  }

  // ---------------------------------------------------------------- draining

  /** How many entries are covered at the front. */
  function CoveredCount(pending: seq<Pending>, durable: Option<nat>): (n: nat)
    ensures n <= |pending|
    ensures forall i {:trigger pending[i]} :: 0 <= i < n ==> IsCovered(durable, pending[i].last)
    ensures n < |pending| ==> !IsCovered(durable, pending[n].last)
  {
    if pending == [] || !IsCovered(durable, pending[0].last) then 0 else 1 + CoveredCount(pending[1..], durable)
  }

  function Releases(pending: seq<Pending>): (s: seq<Sent>)
    ensures |s| == |pending|
    ensures forall i {:trigger s[i]} ::
        0 <= i < |s| ==> s[i] == Sent(pending[i].ticket, Ok((pending[i].base, pending[i].count)))
  {
    seq(|pending|, i requires 0 <= i < |pending| => Sent(pending[i].ticket, Ok((pending[i].base, pending[i].count))))
  }

  /** Draining moves exactly the covered front of the queue to the answers, in order. */
  lemma {:induction false} DrainMovesFront(l: Ledger, durable: Option<nat>)
    ensures var n := CoveredCount(l.pending, durable);
            Drain(l, durable) == Ledger(l.pending[n..], l.sent + Releases(l.pending[..n]))
    decreases |l.pending|
  {
    hide IsCovered, Releases;
    var n := CoveredCount(l.pending, durable);
    if l.pending == [] || !IsCovered(durable, l.pending[0].last) {
      ReleaseNone(l);
    } else {
      var p := l.pending[0];
      DrainMovesFront(Ledger(l.pending[1..], l.sent + [Sent(p.ticket, Ok((p.base, p.count)))]), durable);
      ReleaseOne(l, n);
    }
  }

  lemma ReleaseNone(l: Ledger)
    ensures l == Ledger(l.pending[0..], l.sent + Releases(l.pending[..0]))
  {
    assert l.sent + Releases(l.pending[..0]) == l.sent;
  }

  lemma ReleaseOne(l: Ledger, n: nat)
    requires 0 < n <= |l.pending|
    ensures var p := l.pending[0];
            && l.pending[1..][n - 1..] == l.pending[n..]
            && l.sent + [Sent(p.ticket, Ok((p.base, p.count)))] + Releases(l.pending[1..][..n - 1])
               == l.sent + Releases(l.pending[..n])
  {
    var p := l.pending[0];
    assert Releases(l.pending[..n]) == [Sent(p.ticket, Ok((p.base, p.count)))] + Releases(l.pending[1..][..n - 1]);
  }

  lemma DrainKeepsOnce(l: Ledger, durable: Option<nat>)
    requires OnceEach(l)
    ensures OnceEach(Drain(l, durable))
  {
    hide Drain, CoveredCount;
    DrainMovesFront(l, durable);
  }

  /** After draining nothing that waits is covered: the queue's order lets the front decide. */
  lemma DrainLeavesUncovered(l: Ledger, asks: map<nat, Asked>, durable: Option<nat>, next: nat, policy: FsyncPolicy)
    requires Ordered(l.pending, asks, next) && AllTruthful(l.sent, asks, durable, policy)
    ensures Ordered(Drain(l, durable).pending, asks, next) && Uncovered(Drain(l, durable).pending, durable)
    ensures AllTruthful(Drain(l, durable).sent, asks, durable, policy)
  {
    hide Drain;
    DrainMovesFront(l, durable);
    var n := CoveredCount(l.pending, durable);
    hide CoveredCount;
    forall i | n <= i < |l.pending| ensures !IsCovered(durable, l.pending[i].last) {
      assert l.pending[n].last <= l.pending[i].last;
    }
  }

  /** A flush of the whole log empties the queue. */
  lemma FlushEmpties(l: Ledger, asks: map<nat, Asked>, next: nat)
    requires Ordered(l.pending, asks, next)
    ensures Drain(l, LastOffset(next)).pending == []
  {
    hide Drain;
    DrainMovesFront(l, LastOffset(next));
  }

  // ---------------------------------------------------------------- the invariant

  predicate IsDirty(next: nat, durable: Option<nat>) {
    next > 0 && durable != Some(next - 1)
  }

  /** What the ledger keeps whatever is appended: exactly the tickets that were handed in are answered or wait, once
      each, every answer is the one owed, and the queue is in order. */
  ghost predicate LedgerSound(l: Ledger, asks: map<nat, Asked>, start: nat, records: seq<Record>,
                              durable: Option<nat>, policy: FsyncPolicy) {
    && OnceEach(l)
    && (forall t {:trigger t in asks} :: t in asks ==> Used(l, t))
    && Ordered(l.pending, asks, start + |records|)
    && AllTruthful(l.sent, asks, durable, policy)
    && AllInLog(asks, start, records)
    && (l.pending != [] ==> policy.Batch?)
  }

  /** What it keeps besides between commands from clients: nothing durable waits, and whatever waits has the flush
      timer running (`armed`). */
  ghost predicate LedgerInv(l: Ledger, asks: map<nat, Asked>, start: nat, records: seq<Record>,
                            durable: Option<nat>, armed: bool, policy: FsyncPolicy) {
    && LedgerSound(l, asks, start, records, durable, policy)
    && Uncovered(l.pending, durable) && (l.pending != [] ==> armed)
  }

  /** Every batch that was appended whole is in the log. */
  ghost predicate AllInLog(asks: map<nat, Asked>, start: nat, records: seq<Record>) {
    forall t {:trigger asks[t]} :: t in asks && asks[t].error.None? ==> InLog(asks[t], start, records)
  }

  function Ask(asks: map<nat, Asked>, reply: Option<nat>, a: Asked): map<nat, Asked> {
    if reply.Some? then asks[reply.value := a] else asks
  }

  lemma DurableGrowsCovered(sent: seq<Sent>, asks: map<nat, Asked>, d0: Option<nat>, d1: Option<nat>,
                            policy: FsyncPolicy)
    requires AllTruthful(sent, asks, d0, policy) && DurableGrows(d0, d1)
    ensures AllTruthful(sent, asks, d1, policy)
  {
  }

  lemma LogGrows(asks: map<nat, Asked>, start: nat, records: seq<Record>, more: seq<Record>)
    requires AllInLog(asks, start, records)
    ensures AllInLog(asks, start, records + more)
  {
    forall t | t in asks && asks[t].error.None? ensures InLog(asks[t], start, records + more) {
      PartGrows(records, more, start, asks[t].base, asks[t].base + |asks[t].records|);
    }
  }

  lemma NewBatchInLog(b: Asked, start: nat, records: seq<Record>, more: seq<Record>)
    requires b.base == start + |records| && b.records == more
    ensures InLog(b, start, records + more)
  {
    assert (records + more)[|records|..|records| + |more|] == more;
  }

  /** A queue stays in order when the log grows, and when a batch is added under a new ticket. */
  lemma QueueGrows(l: Ledger, asks: map<nat, Asked>, ticket: nat, b: Asked, next: nat, newNext: nat)
    requires Ordered(l.pending, asks, next) && next <= newNext && !Used(l, ticket)
    ensures Ordered(l.pending, asks, newNext)
    ensures Ordered(l.pending, asks[ticket := b], newNext)
  {
  }

  lemma AnswersKeepMeaning(l: Ledger, asks: map<nat, Asked>, ticket: nat, b: Asked, durable: Option<nat>,
                           policy: FsyncPolicy)
    requires AllTruthful(l.sent, asks, durable, policy) && !Used(l, ticket)
    ensures AllTruthful(l.sent, asks[ticket := b], durable, policy)
  {
  }

  lemma SendKeepsOnce(l: Ledger, s: Sent)
    requires OnceEach(l) && !Used(l, s.ticket)
    ensures OnceEach(l.(sent := l.sent + [s]))
  {
  }

  lemma ParkKeepsOnce(l: Ledger, p: Pending)
    requires OnceEach(l) && !Used(l, p.ticket)
    ensures OnceEach(l.(pending := l.pending + [p]))
  {
  }

  lemma AnswerKeepsOnce(l: Ledger, reply: Option<nat>, acks: Acks, base: Option<nat>, count: nat,
                        error: Option<ErrorCode>, next: nat, durable: Option<nat>, policy: FsyncPolicy)
    requires OnceEach(l) && (base.Some? ==> next > 0) && (reply.Some? ==> !Used(l, reply.value))
    ensures OnceEach(Answer(l, reply, acks, base, count, error, next, durable, policy))
  {
    hide Used, OnceEach, AckedNow;
    if reply.Some? {
      if error.Some? {
        SendKeepsOnce(l, Sent(reply.value, Err(error.value)));
      } else if base.None? {
        SendKeepsOnce(l, Sent(reply.value, Ok((next, 0))));
      } else if AckedNow(acks, policy, durable, next - 1) {
        SendKeepsOnce(l, Sent(reply.value, Ok((base.value, count))));
      } else {
        ParkKeepsOnce(l, Pending(next - 1, base.value, count, reply.value));
      }
    }
  }

  lemma AnswerUses(l: Ledger, reply: Option<nat>, acks: Acks, base: Option<nat>, count: nat, error: Option<ErrorCode>,
                   next: nat, durable: Option<nat>, policy: FsyncPolicy)
    requires base.Some? ==> next > 0
    ensures var m := Answer(l, reply, acks, base, count, error, next, durable, policy);
            && (forall t :: Used(l, t) ==> Used(m, t))
            && (reply.Some? ==> Used(m, reply.value))
  {
    hide AckedNow;
    var m := Answer(l, reply, acks, base, count, error, next, durable, policy);
    assert l.sent <= m.sent && l.pending <= m.pending;
    if reply.Some? {
      assert (|m.sent| > |l.sent| && m.sent[|l.sent|].ticket == reply.value)
          || (|m.pending| > |l.pending| && m.pending[|l.pending|].ticket == reply.value);
    }
  }

  lemma DrainUses(l: Ledger, durable: Option<nat>, t: nat)
    requires Used(l, t)
    ensures Used(Drain(l, durable), t)
  {
    hide Drain;
    DrainMovesFront(l, durable);
    var n, m := CoveredCount(l.pending, durable), Drain(l, durable);
    hide CoveredCount;
    if i :| 0 <= i < |l.sent| && l.sent[i].ticket == t {
      assert m.sent[i].ticket == t;
    } else {
      var i :| 0 <= i < |l.pending| && l.pending[i].ticket == t;
      if i < n {
        assert m.sent[|l.sent| + i].ticket == t;
      } else {
        assert m.pending[i - n].ticket == t;
      }
    }
  }

  lemma SendKeepsTruth(sent: seq<Sent>, s: Sent, asks: map<nat, Asked>, durable: Option<nat>, policy: FsyncPolicy)
    requires AllTruthful(sent, asks, durable, policy) && Truthful(s, asks, durable, policy)
    ensures AllTruthful(sent + [s], asks, durable, policy)
  {
    hide Truthful;
  }

  lemma ParkKeepsOrder(pending: seq<Pending>, p: Pending, asks: map<nat, Asked>, next: nat, newNext: nat)
    requires Ordered(pending, asks, next) && next <= p.last < newNext && Waits(p, asks)
    ensures Ordered(pending + [p], asks, newNext)
  {
    hide Waits;
  }

  /** The answer to an append is the one owed, or it waits behind everything that waits already. */
  lemma AnswerIsTrue(l: Ledger, asks: map<nat, Asked>, more: seq<Record>, reply: Option<nat>, a: Asked,
                     durable: Option<nat>, policy: FsyncPolicy)
    requires OnceEach(l) && Ordered(l.pending, asks, a.base) && AllTruthful(l.sent, asks, durable, policy)
    requires reply.Some? ==> !Used(l, reply.value)
    requires a.error.None? ==> more == a.records
    ensures var base := if more == [] then None else Some(a.base);
            var next := a.base + |more|;
            var m := Answer(l, reply, a.acks, base, |more|, a.error, next, durable, policy);
            && Ordered(m.pending, Ask(asks, reply, a), next)
            && AllTruthful(m.sent, Ask(asks, reply, a), durable, policy)
  {
    hide Used, Ordered, AllTruthful, OnceEach;
    var next := a.base + |more|;
    if reply.Some? {
      var t, after := reply.value, asks[reply.value := a];
      QueueGrows(l, asks, t, a, a.base, next);
      QueueGrows(l, asks, t, a, a.base, a.base);
      AnswersKeepMeaning(l, asks, t, a, durable, policy);
      if a.error.Some? {
        SendKeepsTruth(l.sent, Sent(t, Err(a.error.value)), after, durable, policy);
      } else if more == [] {
        SendKeepsTruth(l.sent, Sent(t, Ok((next, 0))), after, durable, policy);
      } else if AckedNow(a.acks, policy, durable, next - 1) {
        SendKeepsTruth(l.sent, Sent(t, Ok((a.base, |more|))), after, durable, policy);
      } else {
        ParkKeepsOrder(l.pending, Pending(next - 1, a.base, |more|, t), after, a.base, next);
      }
    } else {
      OrderedLater(l.pending, asks, a.base, next);
    }
  }

  lemma OrderedLater(pending: seq<Pending>, asks: map<nat, Asked>, next: nat, newNext: nat)
    requires Ordered(pending, asks, next) && next <= newNext
    ensures Ordered(pending, asks, newNext)
  {
  }

  lemma AskInLog(asks: map<nat, Asked>, start: nat, records: seq<Record>, more: seq<Record>, reply: Option<nat>,
                 a: Asked)
    requires AllInLog(asks, start, records) && a.base == start + |records| && (a.error.None? ==> more == a.records)
    ensures AllInLog(Ask(asks, reply, a), start, records + more)
  {
    hide InLog;
    LogGrows(asks, start, records, more);
    if a.error.None? {
      NewBatchInLog(a, start, records, more);
    }
  }

  /** While something waits, the log has an unflushed tail and the policy flushes by timer. */
  lemma WaitingIsDirty(l: Ledger, asks: map<nat, Asked>, durable: Option<nat>, next: nat)
    requires Ordered(l.pending, asks, next) && Uncovered(l.pending, durable) && l.pending != []
    ensures IsDirty(next, durable)
  {
    assert l.pending[0].last < next;
  }

  lemma DrainedFrom(l: Ledger, durable: Option<nat>)
    ensures Drain(l, durable).pending != [] ==> l.pending != []
  {
    hide Drain, CoveredCount;
    DrainMovesFront(l, durable);
  }

  /** Only a policy that flushes by bytes or time parks anything. */
  lemma OnlyBatchParks(l: Ledger, reply: Option<nat>, acks: Acks, base: Option<nat>, count: nat,
                       error: Option<ErrorCode>, next: nat, durable: Option<nat>, policy: FsyncPolicy)
    requires l.pending != [] ==> policy.Batch?
    requires base.Some? ==> next > 0 && (policy == Always ==> durable == Some(next - 1))
    ensures Answer(l, reply, acks, base, count, error, next, durable, policy).pending != [] ==> policy.Batch?
  {
  }

  /** Records appended for a follower leave answers true and the queue in order; nothing is drained. */
  lemma ReplicatedKeeps(l: Ledger, asks: map<nat, Asked>, start: nat, records: seq<Record>, more: seq<Record>,
                        d0: Option<nat>, d1: Option<nat>, policy: FsyncPolicy)
    requires LedgerSound(l, asks, start, records, d0, policy) && DurableGrows(d0, d1)
    ensures LedgerSound(l, asks, start, records + more, d1, policy)
  {
    hide Used, Ordered, AllTruthful, OnceEach, AllInLog, DurableGrows;
    DurableGrowsCovered(l.sent, asks, d0, d1, policy);
    OrderedLater(l.pending, asks, start + |records|, start + |records| + |more|);
    LogGrows(asks, start, records, more);
  }

  /** Whatever waits is durable already, or part of an unflushed tail. */
  lemma WaitsForFlush(l: Ledger, asks: map<nat, Asked>, start: nat, records: seq<Record>, durable: Option<nat>,
                      policy: FsyncPolicy)
    requires LedgerSound(l, asks, start, records, durable, policy)
    ensures forall i {:trigger l.pending[i]} :: 0 <= i < |l.pending| && !IsCovered(durable, l.pending[i].last) ==>
              IsDirty(start + |records|, durable)
  {
    hide Used, AllTruthful, OnceEach, AllInLog;
  }

  /** One append, answered and drained, keeps the ledger. `more` is what the log took of it. */
  lemma AppendKeeps(l: Ledger, asks: map<nat, Asked>, start: nat, records: seq<Record>, more: seq<Record>,
                    d0: Option<nat>, d1: Option<nat>, policy: FsyncPolicy, reply: Option<nat>, a: Asked)
    requires LedgerSound(l, asks, start, records, d0, policy) && DurableGrows(d0, d1)
    requires reply.Some? ==> !Used(l, reply.value)
    requires policy == Always && more != [] ==> d1 == Some(start + |records| + |more| - 1)
    requires a.base == start + |records| && (a.error.None? ==> more == a.records)
    ensures var next := start + |records| + |more|;
            var base := if more == [] then None else Some(a.base);
            var m := Drain(Answer(l, reply, a.acks, base, |more|, a.error, next, d1, policy), d1);
            LedgerInv(m, Ask(asks, reply, a), start, records + more, d1, IsDirty(next, d1), policy)
  {
    hide Used, Ordered, AllTruthful, OnceEach, AllInLog, Answer, Drain, Uncovered, IsDirty, DurableGrows;
    var next := a.base + |more|;
    var base := if more == [] then None else Some(a.base);
    var m := Answer(l, reply, a.acks, base, |more|, a.error, next, d1, policy);
    var after := Ask(asks, reply, a);
    DurableGrowsCovered(l.sent, asks, d0, d1, policy);
    AnswerIsTrue(l, asks, more, reply, a, d1, policy);
    AnswerKeepsOnce(l, reply, a.acks, base, |more|, a.error, next, d1, policy);
    DrainKeepsOnce(m, d1);
    DrainLeavesUncovered(m, after, d1, next, policy);
    AskInLog(asks, start, records, more, reply, a);
    AnswerUses(l, reply, a.acks, base, |more|, a.error, next, d1, policy);
    forall t | t in after ensures Used(Drain(m, d1), t) {
      DrainUses(m, d1, t);
    }
    OnlyBatchParks(l, reply, a.acks, base, |more|, a.error, next, d1, policy);
    DrainedFrom(m, d1);
    if Drain(m, d1).pending != [] {
      WaitingIsDirty(Drain(m, d1), after, d1, next);
    }
  }

  /** A flush keeps the ledger and leaves nothing waiting. */
  lemma FlushKeeps(l: Ledger, asks: map<nat, Asked>, start: nat, records: seq<Record>, d0: Option<nat>,
                   policy: FsyncPolicy)
    requires LedgerSound(l, asks, start, records, d0, policy) && DurableGrows(d0, LastOffset(start + |records|))
    ensures var d1 := LastOffset(start + |records|);
            Drain(l, d1).pending == [] && LedgerInv(Drain(l, d1), asks, start, records, d1, false, policy)
  {
    hide Used, Ordered, AllTruthful, OnceEach, AllInLog, Drain, Uncovered, DurableGrows, LastOffset;
    var d1 := LastOffset(start + |records|);
    DurableGrowsCovered(l.sent, asks, d0, d1, policy);
    DrainKeepsOnce(l, d1);
    DrainLeavesUncovered(l, asks, d1, start + |records|, policy);
    FlushEmpties(l, asks, start + |records|);
    forall t | t in asks ensures Used(Drain(l, d1), t) {
      DrainUses(l, d1, t);
    }
  }

  /** Whatever was acknowledged as durable is in the log that comes back after a crash: the records recovered
      are a prefix of what was written that reaches past the durable offset. */
  lemma AckedSurvives(l: Ledger, asks: map<nat, Asked>, start: nat, records: seq<Record>, durable: Option<nat>,
                      policy: FsyncPolicy, written: seq<Record>, recovered: seq<Record>, i: nat)
    requires LedgerSound(l, asks, start, records, durable, policy)
    requires records <= written && recovered <= written
    requires durable.Some? ==> durable.value < start + |recovered|
    requires i < |l.sent| && l.sent[i].result.Ok?
    ensures l.sent[i].ticket in asks
    ensures var b := asks[l.sent[i].ticket];
            && l.sent[i].result.value == (b.base, |b.records|)
            && (WantsDurable(b.acks) && policy != Os && b.records != [] ==> InLog(b, start, recovered))
  {
    assert Truthful(l.sent[i], asks, durable, policy);
    var b := asks[l.sent[i].ticket];
    hide Ordered, OnceEach, Used, AllTruthful;
    assert InLog(b, start, records);
    if WantsDurable(b.acks) && policy != Os && b.records != [] {
      var lo, hi := b.base - start, b.base - start + |b.records|;
      assert records[lo..hi] == written[lo..hi] == recovered[lo..hi];
    }
  }

  /** Answering and draining see no ticket but the one that was answered. */
  lemma NoOtherTickets(l: Ledger, reply: Option<nat>, acks: Acks, base: Option<nat>, count: nat,
                       error: Option<ErrorCode>, next: nat, durable: Option<nat>, policy: FsyncPolicy, t: nat)
    requires base.Some? ==> next > 0
    requires Used(Drain(Answer(l, reply, acks, base, count, error, next, durable, policy), durable), t)
    ensures Used(l, t) || reply == Some(t)
  {
    hide AckedNow;
    var a := Answer(l, reply, acks, base, count, error, next, durable, policy);
    DrainAddsNoTicket(a, durable, t);
    if i :| 0 <= i < |a.sent| && a.sent[i].ticket == t {
      assert i < |l.sent| ==> a.sent[i] == l.sent[i];
    } else {
      var i :| 0 <= i < |a.pending| && a.pending[i].ticket == t;
      assert i < |l.pending| ==> a.pending[i] == l.pending[i];
    }
  }

  lemma DrainAddsNoTicket(l: Ledger, durable: Option<nat>, t: nat)
    requires Used(Drain(l, durable), t)
    ensures Used(l, t)
  {
    hide Drain;
    DrainMovesFront(l, durable);
    var n, m := CoveredCount(l.pending, durable), Drain(l, durable);
    hide CoveredCount;
    if i :| 0 <= i < |m.sent| && m.sent[i].ticket == t {
      if i < |l.sent| {
        assert l.sent[i].ticket == t;
      } else {
        assert l.pending[i - |l.sent|].ticket == t;
      }
    } else {
      var i :| 0 <= i < |m.pending| && m.pending[i].ticket == t;
      assert l.pending[i + n].ticket == t;
    }
  }

  /** No answer is taken back. */
  lemma AnswersStay(l: Ledger, reply: Option<nat>, acks: Acks, base: Option<nat>, count: nat, error: Option<ErrorCode>,
                    next: nat, durable: Option<nat>, policy: FsyncPolicy)
    requires base.Some? ==> next > 0
    ensures l.sent <= Drain(Answer(l, reply, acks, base, count, error, next, durable, policy), durable).sent
    ensures l.sent <= Drain(l, durable).sent
  {
    hide Drain, AckedNow, CoveredCount;
    DrainMovesFront(Answer(l, reply, acks, base, count, error, next, durable, policy), durable);
    DrainMovesFront(l, durable);
  }

  /** What becomes of one append's ticket: a batch that stops early is refused at once, whatever was asked for it. A
      whole one is acknowledged at once if it is empty, asks for no durability, can never have it, or has it already,
      and else waits for its last record. */
  predicate Replied(before: Ledger, after: Ledger, ticket: nat, acks: Acks, base: nat, size: nat, count: nat,
                    durable: Option<nat>, policy: FsyncPolicy) {
    var n := |before.sent|;
    if count < size then |after.sent| > n && after.sent[n] == Sent(ticket, Err(Malformed))
    else if size == 0 || acks == AcksNone || acks == Written || policy == Os
            || (durable.Some? && durable.value + 1 >= base + size)
    then |after.sent| > n && after.sent[n] == Sent(ticket, Ok((base, size)))
    else |after.pending| > 0 && after.pending[|after.pending| - 1] == Pending(base + size - 1, base, size, ticket)
  }

  /** So it is after an append of `count` of the `size` records, at the log end `base`. */
  lemma AnswerIs(l: Ledger, ticket: nat, acks: Acks, base: nat, size: nat, count: nat, durable: Option<nat>,
                 policy: FsyncPolicy)
    requires count <= size
    ensures var error := if count < size then Some(Malformed) else None;
            var a := Answer(l, Some(ticket), acks, if count == 0 then None else Some(base), count, error, base + count,
                            durable, policy);
            Replied(l, Drain(a, durable), ticket, acks, base, size, count, durable, policy)
  {
    hide Drain;
    var error := if count < size then Some(Malformed) else None;
    var a := Answer(l, Some(ticket), acks, if count == 0 then None else Some(base), count, error, base + count, durable,
                    policy);
    DrainMovesFront(a, durable);
    var n := CoveredCount(a.pending, durable);
    hide CoveredCount;
    if |a.pending| > |l.pending| {
      assert !IsCovered(durable, a.pending[|l.pending|].last);
    }
  }
}
