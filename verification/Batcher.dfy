/** The output batcher: messages queue per topic and leave in batches, one send in flight
    at a time. */
module Batcher {
  import opened Levels

  datatype Keyed = Keyed(key: string, value: string)

  datatype TopicMessages = TopicMessages(topic: string, messages: seq<Keyed>)

  /** The queues in the order their topics were opened. */
  type Queues = seq<TopicMessages>

  function Total(qs: Queues): nat {
    if qs == [] then 0 else |qs[0].messages| + Total(qs[1..])
  }

  /** A topic's messages, in order. */
  function Of(qs: Queues, topic: string): seq<Keyed> {
    if qs == [] then [] else Mine(qs[0], topic) + Of(qs[1..], topic)
  }

  function Mine(q: TopicMessages, topic: string): seq<Keyed> {
    if q.topic == topic then q.messages else []
  }

  lemma OfHead(q: TopicMessages, qs: Queues, topic: string)
    ensures Of([q] + qs, topic) == Mine(q, topic) + Of(qs, topic)
    ensures Of([q], topic) == Mine(q, topic)
  {
    assert ([q] + qs)[1..] == qs && [q][1..] == [];
  }

  // ---------- queueing ----------

  function Push(qs: Queues, topic: string, m: Keyed): Queues {
    if qs == [] then [TopicMessages(topic, [m])]
    else if qs[0].topic == topic then [TopicMessages(topic, qs[0].messages + [m])] + qs[1..]
    else [qs[0]] + Push(qs[1..], topic, m)
  }

  predicate Distinct(qs: Queues) {
    forall i, j :: 0 <= i < j < |qs| ==> qs[i].topic != qs[j].topic
  }

  predicate Has(qs: Queues, topic: string) {
    exists i :: 0 <= i < |qs| && qs[i].topic == topic
  }

  lemma {:induction false} OfNone(qs: Queues, topic: string)
    requires !Has(qs, topic)
    ensures Of(qs, topic) == []
  {
    if qs != [] {
      assert qs[0].topic != topic;
      forall i | 0 <= i < |qs[1..]| ensures qs[1..][i].topic != topic {
        assert qs[1..][i] == qs[i + 1];
      }
      OfNone(qs[1..], topic);
    }
  }

  lemma {:induction false} PushIs(qs: Queues, topic: string, m: Keyed, t: string)
    requires Distinct(qs)
    ensures Of(Push(qs, topic, m), t) == if t == topic then Of(qs, t) + [m] else Of(qs, t)
    ensures Total(Push(qs, topic, m)) == Total(qs) + 1
  {
    if qs == [] {
      assert [m] + [] == [m];
    } else if qs[0].topic == topic {
      assert !Has(qs[1..], topic);
      OfNone(qs[1..], topic);
    } else {
      PushIs(qs[1..], topic, m, t);
    }
  }

  lemma {:induction false} PushDistinct(qs: Queues, topic: string, m: Keyed)
    requires Distinct(qs)
    ensures Distinct(Push(qs, topic, m))
    ensures forall q :: q in Push(qs, topic, m) ==> q.topic == topic || Has(qs, q.topic)
  {
    if qs != [] && qs[0].topic != topic {
      PushDistinct(qs[1..], topic, m);
      var rest := Push(qs[1..], topic, m);
      forall j | 0 <= j < |rest| ensures rest[j].topic != qs[0].topic {
        assert rest[j] in rest;
        if rest[j].topic != topic {
          var k :| 0 <= k < |qs[1..]| && qs[1..][k].topic == rest[j].topic;
          assert qs[k + 1].topic == rest[j].topic;
        }
      }
      forall q | q in Push(qs, topic, m) ensures q.topic == topic || Has(qs, q.topic) {
        if q == qs[0] {
          assert Has(qs, q.topic);
        } else if q.topic != topic {
          var k :| 0 <= k < |qs[1..]| && qs[1..][k].topic == q.topic;
          assert qs[k + 1].topic == q.topic;
        }
      }
    }
  }

  // ---------- taking a batch ----------

  datatype Taken = Taken(batch: Queues, rest: Queues)

  /** Whole queues while they fit the budget, then the front of the next one. */
  function Take(qs: Queues, budget: nat): Taken {
    if qs == [] || budget == 0 then Taken([], qs)
    else if |qs[0].messages| <= budget then
      var more := Take(qs[1..], budget - |qs[0].messages|);
      Taken([qs[0]] + more.batch, more.rest)
    else
      Taken([TopicMessages(qs[0].topic, qs[0].messages[..budget])],
            [TopicMessages(qs[0].topic, qs[0].messages[budget..])] + qs[1..])
  }

  lemma Regroup<T>(a: seq<T>, b: seq<T>, c: seq<T>)
    ensures (a + b) + c == a + (b + c)
  {
  }

  lemma Splices(q: TopicMessages, budget: nat, topic: string)
    requires budget < |q.messages|
    ensures Mine(TopicMessages(q.topic, q.messages[..budget]), topic) + Mine(TopicMessages(q.topic, q.messages[budget..]), topic) == Mine(q, topic)
  {
  }

  /** Nothing is lost, invented or reordered within a topic. */
  lemma {:induction false} TakeConserves(qs: Queues, budget: nat, topic: string)
    ensures Of(Take(qs, budget).batch, topic) + Of(Take(qs, budget).rest, topic) == Of(qs, topic)
  {
    if qs == [] || budget == 0 {
      assert [] + Of(qs, topic) == Of(qs, topic);
    } else if |qs[0].messages| <= budget {
      TakeConserves(qs[1..], budget - |qs[0].messages|, topic);
      var more := Take(qs[1..], budget - |qs[0].messages|);
      OfHead(qs[0], more.batch, topic);
      Regroup(Mine(qs[0], topic), Of(more.batch, topic), Of(more.rest, topic));
    } else {
      var front, back := TopicMessages(qs[0].topic, qs[0].messages[..budget]), TopicMessages(qs[0].topic, qs[0].messages[budget..]);
      OfHead(front, [], topic);
      OfHead(back, qs[1..], topic);
      Splices(qs[0], budget, topic);
      Regroup(Mine(front, topic), Mine(back, topic), Of(qs[1..], topic));
    }
  }

  /** A batch takes as much as fits. */
  lemma {:induction false} TakeFills(qs: Queues, budget: nat)
    ensures Total(Take(qs, budget).batch) == if Total(qs) < budget then Total(qs) else budget
    ensures Total(Take(qs, budget).rest) == Total(qs) - Total(Take(qs, budget).batch)
  {
    if qs != [] && budget > 0 {
      if |qs[0].messages| <= budget {
        TakeFills(qs[1..], budget - |qs[0].messages|);
      } else {
        var one := TopicMessages(qs[0].topic, qs[0].messages[..budget]);
        assert [one][1..] == [];
      }
    }
  }

  lemma {:induction false} TakeKeepsTopics(qs: Queues, budget: nat) returns (k: nat)
    ensures var rest := Take(qs, budget).rest;
            k + |rest| == |qs| && forall i :: 0 <= i < |rest| ==> rest[i].topic == qs[k + i].topic
  {
    if qs != [] && budget > 0 && |qs[0].messages| <= budget {
      k := TakeKeepsTopics(qs[1..], budget - |qs[0].messages|);
      k := k + 1;
    } else {
      k := 0;
    }
  }

  lemma TakeDistinct(qs: Queues, budget: nat)
    requires Distinct(qs)
    ensures Distinct(Take(qs, budget).rest)
  {
    var k := TakeKeepsTopics(qs, budget);
  }

  // ---------- the batcher as a state ----------

  /** `sent` lists the batches handed to the producer; the last is in flight while
      `sending`. `settled` counts the outcomes. */
  datatype State = State(queues: Queues, queued: nat, flushScheduled: bool, sending: bool, sent: seq<Queues>, settled: nat)

  /** A message is enqueued, the scheduled tick comes, or the send in flight settles. */
  datatype Event = Enqueue(topic: string, key: string, value: string) | Tick | Settle(ok: bool)

  function Start(): State {
    State([], 0, false, false, [], 0)
  }

  function Flush(st: State, maxQueued: nat): State {
    if st.sending || st.queued == 0 then st
    else
      var t := Take(st.queues, maxQueued);
      State(t.rest, Total(t.rest), st.flushScheduled, true, st.sent + [t.batch], st.settled)
  }

  function Queue(st: State, topic: string, m: Keyed): State {
    st.(queues := Push(st.queues, topic, m), queued := st.queued + 1)
  }

  function Step(st: State, e: Event, maxQueued: nat): State {
    match e
    case Enqueue(topic, key, value) =>
      var next := Queue(st, topic, Keyed(key, value));
      if next.queued >= maxQueued then Flush(next, maxQueued) else next.(flushScheduled := true)
    case Tick =>
      if st.flushScheduled then Flush(st.(flushScheduled := false), maxQueued) else st
    case Settle(ok) =>
      if st.sending then Flush(st.(sending := false, settled := st.settled + 1), maxQueued) else st
  }

  function Run(es: seq<Event>, maxQueued: nat): State {
    if es == [] then Start() else Step(Run(es[..|es| - 1], maxQueued), es[|es| - 1], maxQueued)
  }

  function Enqueued(es: seq<Event>, topic: string): seq<Keyed> {
    if es == [] then []
    else
      var e := es[|es| - 1];
      if e.Enqueue? && e.topic == topic then Enqueued(es[..|es| - 1], topic) + [Keyed(e.key, e.value)]
      else Enqueued(es[..|es| - 1], topic)
  }

  /** A topic's messages over the batches sent, in order. */
  function OfSent(sent: seq<Queues>, topic: string): seq<Keyed> {
    if sent == [] then [] else OfSent(sent[..|sent| - 1], topic) + Of(sent[|sent| - 1], topic)
  }

  /** At most one send is in flight, no batch is over the cap, and a queued message always
      has a send in flight or a flush scheduled. */
  predicate Sound(st: State, maxQueued: nat) {
    && Distinct(st.queues) && st.queued == Total(st.queues)
    && |st.sent| == st.settled + (if st.sending then 1 else 0)
    && (forall i :: 0 <= i < |st.sent| ==> Total(st.sent[i]) <= maxQueued)
    && (st.queued > 0 ==> st.sending || st.flushScheduled)
  }

  /** `Sound`, but for the pending flush. */
  predicate Counted(st: State, maxQueued: nat) {
    && Distinct(st.queues) && st.queued == Total(st.queues)
    && |st.sent| == st.settled + (if st.sending then 1 else 0)
    && (forall i :: 0 <= i < |st.sent| ==> Total(st.sent[i]) <= maxQueued)
  }

  lemma FlushSound(st: State, maxQueued: nat)
    requires Counted(st, maxQueued)
    ensures Sound(Flush(st, maxQueued), maxQueued)
  {
    TakeFills(st.queues, maxQueued);
    TakeDistinct(st.queues, maxQueued);
  }

  lemma QueueCounted(st: State, topic: string, m: Keyed, maxQueued: nat)
    requires Counted(st, maxQueued)
    ensures Counted(Queue(st, topic, m), maxQueued)
  {
    PushIs(st.queues, topic, m, topic);
    PushDistinct(st.queues, topic, m);
  }

  lemma StepSound(st: State, e: Event, maxQueued: nat)
    requires Sound(st, maxQueued)
    ensures Sound(Step(st, e, maxQueued), maxQueued)
  {
    match e
    case Enqueue(topic, key, value) =>
      QueueCounted(st, topic, Keyed(key, value), maxQueued);
      FlushSound(Queue(st, topic, Keyed(key, value)), maxQueued);
    case Tick =>
      FlushSound(st.(flushScheduled := false), maxQueued);
    case Settle(ok) =>
      if st.sending {
        FlushSound(st.(sending := false, settled := st.settled + 1), maxQueued);
      }
  }

  /** What a topic has had sent and queued, end to end. */
  function Flow(st: State, topic: string): seq<Keyed> {
    OfSent(st.sent, topic) + Of(st.queues, topic)
  }

  lemma FlushFlow(st: State, maxQueued: nat, topic: string)
    ensures Flow(Flush(st, maxQueued), topic) == Flow(st, topic)
  {
    var t := Take(st.queues, maxQueued);
    TakeConserves(st.queues, maxQueued, topic);
    assert (st.sent + [t.batch])[..|st.sent|] == st.sent;
    Regroup(OfSent(st.sent, topic), Of(t.batch, topic), Of(t.rest, topic));
  }

  lemma StepFlow(st: State, e: Event, maxQueued: nat, topic: string)
    requires Distinct(st.queues)
    ensures Flow(Step(st, e, maxQueued), topic)
            == if e.Enqueue? && e.topic == topic then Flow(st, topic) + [Keyed(e.key, e.value)] else Flow(st, topic)
  {
    match e
    case Enqueue(t, key, value) =>
      PushIs(st.queues, t, Keyed(key, value), topic);
      Regroup(OfSent(st.sent, topic), Of(st.queues, topic), [Keyed(key, value)]);
      FlushFlow(Queue(st, t, Keyed(key, value)), maxQueued, topic);
    case Tick =>
      FlushFlow(st.(flushScheduled := false), maxQueued, topic);
    case Settle(ok) =>
      FlushFlow(st.(sending := false, settled := st.settled + 1), maxQueued, topic);
  }

  lemma {:induction false} RunSound(es: seq<Event>, maxQueued: nat)
    ensures Sound(Run(es, maxQueued), maxQueued)
  {
    if es != [] {
      RunSound(es[..|es| - 1], maxQueued);
      StepSound(Run(es[..|es| - 1], maxQueued), es[|es| - 1], maxQueued);
    }
  }

  /** Over every run, per topic: the batches sent, then the queue, are what was enqueued, in
      order, whether sends succeed or fail. */
  lemma {:induction false} RunConserves(es: seq<Event>, maxQueued: nat, topic: string)
    ensures OfSent(Run(es, maxQueued).sent, topic) + Of(Run(es, maxQueued).queues, topic) == Enqueued(es, topic)
  {
    if es != [] {
      RunConserves(es[..|es| - 1], maxQueued, topic);
      RunSound(es[..|es| - 1], maxQueued);
      StepFlow(Run(es[..|es| - 1], maxQueued), es[|es| - 1], maxQueued, topic);
    }
  }

  // ---------- draining ----------

  /** Sends that settle one after the other, well or badly. */
  predicate Settles(es: seq<Event>) {
    forall i :: 0 <= i < |es| ==> es[i].Settle?
  }

  function RunFrom(st: State, es: seq<Event>, maxQueued: nat): State {
    if es == [] then st else Step(RunFrom(st, es[..|es| - 1], maxQueued), es[|es| - 1], maxQueued)
  }

  /** With nothing more enqueued, each settle sends the next batch, until the queues are empty
      and nothing is in flight. */
  lemma {:induction false} SettlesDrain(st: State, es: seq<Event>, maxQueued: nat)
    requires Sound(st, maxQueued) && st.sending && maxQueued > 0 && Settles(es)
    ensures var n, after := |es|, RunFrom(st, es, maxQueued);
            && Sound(after, maxQueued)
            && after.queued == (if n * maxQueued < st.queued then st.queued - n * maxQueued else 0)
            && (after.queued > 0 ==> after.sending)
            && (after.sending <==> n == 0 || (n - 1) * maxQueued < st.queued)
  {
    if es != [] {
      var rest := es[..|es| - 1];
      SettlesDrain(st, rest, maxQueued);
      var before := RunFrom(st, rest, maxQueued);
      StepSound(before, es[|es| - 1], maxQueued);
      TakeFills(before.queues, maxQueued);
      OneMore(|es|, maxQueued);
    }
  }

  lemma OneMore(n: nat, m: nat)
    requires n > 0
    ensures n * m == (n - 1) * m + m
  {
  }

  lemma TakeWhole(out: Queues, qs: Queues, budget: nat)
    requires qs != [] && budget > 0 && |qs[0].messages| <= budget
    ensures var t, more := Take(qs, budget), Take(qs[1..], budget - |qs[0].messages|);
            Taken(out + t.batch, t.rest) == Taken((out + [qs[0]]) + more.batch, more.rest)
  {
    Regroup(out, [qs[0]], Take(qs[1..], budget - |qs[0].messages|).batch);
  }

  lemma TakeFront(out: Queues, qs: Queues, budget: nat)
    requires qs != [] && budget > 0 && |qs[0].messages| > budget
    ensures var t, rest := Take(qs, budget), [TopicMessages(qs[0].topic, qs[0].messages[budget..])] + qs[1..];
            Taken(out + t.batch, t.rest)
            == Taken((out + [TopicMessages(qs[0].topic, qs[0].messages[..budget])]) + Take(rest, 0).batch, Take(rest, 0).rest)
  {
  }

  // ---------- the class ----------

  class EmitBatcher {
    const maxQueued: nat
    var queues: Queues
    var queued: nat
    var flushScheduled: bool
    var sending: bool
    var sent: seq<Queues>
    var settled: nat

    function Value(): State
      reads this
    {
      State(queues, queued, flushScheduled, sending, sent, settled)
    }

    constructor (maxQueued: nat)
      ensures Value() == Start() && this.maxQueued == maxQueued
    {
      this.maxQueued := maxQueued;
      queues, queued, flushScheduled, sending, sent, settled := [], 0, false, false, [], 0;
    }

    method EnqueueMessage(topic: string, key: string, value: string)
      requires Sound(Value(), maxQueued)
      modifies this
      ensures Value() == Step(old(Value()), Enqueue(topic, key, value), maxQueued) && Sound(Value(), maxQueued)
    {
      StepSound(Value(), Enqueue(topic, key, value), maxQueued);
      QueueCounted(Value(), topic, Keyed(key, value), maxQueued);
      queues := Push(queues, topic, Keyed(key, value));
      queued := queued + 1;
      if queued >= maxQueued {
        FlushQueues();
        return;
      }
      if !flushScheduled {
        flushScheduled := true;
      }
    }

    /** The scheduled tick. */
    method OnTick()
      requires Sound(Value(), maxQueued)
      modifies this
      ensures Value() == Step(old(Value()), Tick, maxQueued) && Sound(Value(), maxQueued)
    {
      StepSound(Value(), Tick, maxQueued);
      if flushScheduled {
        flushScheduled := false;
        FlushQueues();
      }
    }

    /** The send in flight settles, well or badly, and whatever queued meanwhile is flushed. */
    method OnSettle(ok: bool)
      requires Sound(Value(), maxQueued)
      modifies this
      ensures Value() == Step(old(Value()), Settle(ok), maxQueued) && Sound(Value(), maxQueued)
    {
      StepSound(Value(), Settle(ok), maxQueued);
      if sending {
        sending := false;
        settled := settled + 1;
        FlushQueues();
      }
    }

    method FlushQueues()
      requires queued == Total(queues)
      modifies this`queues, this`queued, this`sending, this`sent
      ensures Value() == Flush(old(Value()), maxQueued)
    {
      if sending || queued == 0 {
        return;
      }
      var batch := TakeBatch();
      sending := true;
      sent := sent + [batch];
    }

    /** Takes whole queues while they fit, and splices the front off the next. */
    method TakeBatch() returns (out: Queues)
      requires queued == Total(queues)
      modifies this`queues, this`queued
      ensures Taken(out, queues) == Take(old(queues), maxQueued) && queued == Total(queues)
    {
      out := [];
      var budget: nat := maxQueued;
      TakeFills(queues, budget);
      while queues != [] && budget > 0
        invariant Taken(out + Take(queues, budget).batch, Take(queues, budget).rest) == Take(old(queues), maxQueued)
        invariant queued == Total(queues)
        decreases budget + |queues|
      {
        var topic, messages := queues[0].topic, queues[0].messages;
        if |messages| <= budget {
          TakeWhole(out, queues, budget);
          out := out + [queues[0]];
          budget := budget - |messages|;
          queued := queued - |messages|;
          queues := queues[1..];
        } else {
          TakeFront(out, queues, budget);
          out := out + [TopicMessages(topic, messages[..budget])];
          assert Total([TopicMessages(topic, messages[budget..])] + queues[1..]) == queued - budget;
          queued := queued - budget;
          queues := [TopicMessages(topic, messages[budget..])] + queues[1..];
          budget := 0;
        }
      }
      assert out + [] == out;
    }
  }
}
