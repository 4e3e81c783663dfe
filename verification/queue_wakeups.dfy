/**
 * The wake-up protocol of the notification queue (crates/app/src/notification_queue.rs:98-146): any number of
 * MustDeliver producers, one consumer, any number of non-waiting enqueues, and `close`, interleaved at every
 * point where a task can be preempted. Each async loop is split at its three steps: create the waiter, pass
 * through the critical section, poll the waiter.
 */
module QueueWakeups {
  import opened NotificationQueues

  // ---------------------------------------------------------------- tokio's Notify

  /**
   * `permit` is the single stored permit, `calls` counts `notify_waiters` calls, `waiters` are the registered
   * waiters in registration order.
   */
  datatype Notify = Notify(permit: bool, calls: nat, waiters: seq<nat>)

  const FRESH_NOTIFY := Notify(false, 0, [])

  /** Wakes the longest registered waiter, or stores a permit. */
  function NotifyOne(n: Notify): (r: Notify) {
    if n.waiters == [] then n.(permit := true) else n.(waiters := n.waiters[1..])
  }

  /** Wakes every registered waiter and invalidates every snapshot; stores no permit. */
  function NotifyWaiters(n: Notify): (r: Notify) {
    n.(calls := n.calls + 1, waiters := [])
  }

  /** First poll of a waiter created when the call count was `snapshot`: does it complete at once? */
  predicate PollReady(n: Notify, snapshot: nat) {
    n.permit || n.calls != snapshot
  }

  /** The notifier after the first poll of waiter `id`. */
  function Poll(n: Notify, snapshot: nat, id: nat): (r: Notify) {
    if n.permit then n.(permit := false)
    else if n.calls != snapshot then n
    else n.(waiters := n.waiters + [id])
  }

  /** A registered waiter that is dropped leaves the list. */
  function Unregister(n: Notify, id: nat): (r: Notify) {
    n.(waiters := Without(n.waiters, id))
  }

  function Without(ids: seq<nat>, id: nat): (rest: seq<nat>)
    ensures forall x :: x in rest <==> x in ids && x != id
    ensures |rest| <= |ids|
  {
    if ids == [] then []
    else if ids[0] == id then Without(ids[1..], id)
    else [ids[0]] + Without(ids[1..], id)
  }

  // ---------------------------------------------------------------- tasks

  /** Where a task stands in one of the two loops. */
  datatype Pc =
    | Calling                 // about to create its waiter
    | Armed(snapshot: nat)    // waiter created, critical section ahead
    | Polling(snapshot: nat)  // critical section passed without success, first poll ahead
    | Parked                  // registered and not notified
    | Notified(one: bool)     // notified, by notify_one or by notify_waiters, and not resumed yet
    | Finished

  datatype Producer = Producer(item: Item, pc: Pc)

  datatype System = System(
    queue: QueueState,
    itemAvailable: Notify,
    spaceAvailable: Notify,
    consumer: Pc,
    producers: map<nat, Producer>)

  const CONSUMER: nat := 0
  const INITIAL := System(EMPTY_QUEUE, FRESH_NOTIFY, FRESH_NOTIFY, Calling, map[])

  datatype Act =
    | Produce(p: nat, item: Item)   // a producer calls enqueue with a MustDeliver item
    | ProducerArm(p: nat)
    | ProducerPass(p: nat)
    | ProducerPoll(p: nat)
    | ProducerResume(p: nat)
    | ProducerAbort(p: nat)         // the producer's future is dropped
    | Instant(item: Item)           // a Coalesce or Drop enqueue, which never waits
    | ConsumerArm
    | ConsumerPass
    | ConsumerPoll
    | ConsumerResume
    | ConsumerDrop                  // the recv future is dropped and recv is called again
    | CloseQueue

  predicate Full(capacity: nat, w: System) {
    |w.queue.items| >= capacity
  }

  predicate HasProducer(w: System, p: nat) {
    p in w.producers
  }

  predicate Enabled(w: System, a: Act) {
    match a
    case Produce(p, item) => p !in w.producers && item.kind == MustDeliver
    case ProducerArm(p) => HasProducer(w, p) && w.producers[p].pc == Calling
    case ProducerPass(p) => HasProducer(w, p) && w.producers[p].pc.Armed?
    case ProducerPoll(p) => HasProducer(w, p) && w.producers[p].pc.Polling?
    case ProducerResume(p) => HasProducer(w, p) && w.producers[p].pc.Notified?
    case ProducerAbort(p) => HasProducer(w, p)
    case Instant(item) => item.kind != MustDeliver
    case ConsumerArm => w.consumer == Calling
    case ConsumerPass => w.consumer.Armed?
    case ConsumerPoll => w.consumer.Polling?
    case ConsumerResume => w.consumer.Notified?
    case ConsumerDrop => w.consumer != Finished
    case CloseQueue => true
  }

  /** `item_available.notify_one()`: the consumer is the only task that waits there. */
  function SignalItem(w: System): (r: System) {
    w.(itemAvailable := NotifyOne(w.itemAvailable),
       consumer := if w.itemAvailable.waiters != [] then Notified(true) else w.consumer)
  }

  /** `space_available.notify_waiters()`: every parked producer becomes notified. */
  function SignalSpace(w: System): (r: System) {
    w.(spaceAvailable := NotifyWaiters(w.spaceAvailable),
       producers := map p | p in w.producers ::
         if p in w.spaceAvailable.waiters then w.producers[p].(pc := Notified(false)) else w.producers[p])
  }

  function SetProducer(w: System, p: nat, pc: Pc): (r: System)
    requires p in w.producers
  {
    w.(producers := w.producers[p := w.producers[p].(pc := pc)])
  }

  /** A Coalesce or Drop enqueue signals unless it was ignored (closed, or a new key on a full queue). */
  function InstantStep(capacity: nat, w: System, item: Item): (r: System) {
    var q := Apply(capacity, w.queue, Enqueue(item));
    var ignored := w.queue.closed ||
      (item.kind.Coalesce? && SlotOf(w.queue.items, item.kind.key).None? && Full(capacity, w));
    if ignored then w.(queue := q) else SignalItem(w.(queue := q))
  }

  function ProducerPassStep(capacity: nat, w: System, p: nat): (r: System)
    requires p in w.producers && w.producers[p].pc.Armed?
  {
    var producer := w.producers[p];
    if w.queue.closed then SetProducer(w, p, Finished)
    else if !Full(capacity, w) then
      SignalItem(SetProducer(w.(queue := w.queue.(items := w.queue.items + [producer.item])), p, Finished))
    else SetProducer(w, p, Polling(producer.pc.snapshot))
  }

  function ConsumerPassStep(w: System): (r: System)
    requires w.consumer.Armed?
  {
    if w.queue.items != [] then
      SignalSpace(w.(queue := w.queue.(items := w.queue.items[1..]), consumer := Calling))
    else if w.queue.closed then w.(consumer := Finished)
    else w.(consumer := Polling(w.consumer.snapshot))
  }

  /** Dropping a waiter that `notify_one` has chosen passes the notification on. */
  function ConsumerDropStep(w: System): (r: System) {
    match w.consumer
    case Parked => w.(itemAvailable := Unregister(w.itemAvailable, CONSUMER), consumer := Calling)
    case Notified(one) =>
      if one then w.(itemAvailable := NotifyOne(w.itemAvailable), consumer := Calling) else w.(consumer := Calling)
    case _ => w.(consumer := Calling)
  }

  function CloseStep(w: System): (r: System) {
    var woken := w.(queue := w.queue.(closed := true), itemAvailable := NotifyWaiters(w.itemAvailable),
                    consumer := if w.itemAvailable.waiters != [] then Notified(false) else w.consumer);
    SignalSpace(woken)
  }

  function Step(capacity: nat, w: System, a: Act): (r: System)
    requires Enabled(w, a)
  {
    match a
    case Produce(p, item) => w.(producers := w.producers[p := Producer(item, Calling)])
    case ProducerArm(p) => SetProducer(w, p, Armed(w.spaceAvailable.calls))
    case ProducerPass(p) => ProducerPassStep(capacity, w, p)
    case ProducerPoll(p) =>
      var snapshot := w.producers[p].pc.snapshot;
      var pc := if PollReady(w.spaceAvailable, snapshot) then Calling else Parked;
      SetProducer(w, p, pc).(spaceAvailable := Poll(w.spaceAvailable, snapshot, p))
    case ProducerResume(p) => SetProducer(w, p, Calling)
    case ProducerAbort(p) => w.(spaceAvailable := Unregister(w.spaceAvailable, p), producers := w.producers - {p})
    case Instant(item) => InstantStep(capacity, w, item)
    case ConsumerArm => w.(consumer := Armed(w.itemAvailable.calls))
    case ConsumerPass => ConsumerPassStep(w)
    case ConsumerPoll =>
      var snapshot := w.consumer.snapshot;
      w.(consumer := if PollReady(w.itemAvailable, snapshot) then Calling else Parked,
         itemAvailable := Poll(w.itemAvailable, snapshot, CONSUMER))
    case ConsumerResume => w.(consumer := Calling)
    case ConsumerDrop => ConsumerDropStep(w)
    case CloseQueue => CloseStep(w)
  }

  // ---------------------------------------------------------------- invariant

  /** A producer waits, or is about to, only on a full and open queue. */
  ghost predicate ProducerWaitsOnFull(capacity: nat, w: System, p: nat)
    requires p in w.producers
  {
    var pc := w.producers[p].pc;
    && (pc == Parked <==> p in w.spaceAvailable.waiters)
    && (pc.Armed? || pc.Polling? ==> pc.snapshot <= w.spaceAvailable.calls)
    && (pc == Parked ==> Full(capacity, w) && !w.queue.closed)
    && (pc.Polling? && pc.snapshot == w.spaceAvailable.calls ==> Full(capacity, w) && !w.queue.closed)
  }

  /** The consumer waits, or is about to without a permit, only on an empty and open queue. */
  ghost predicate ConsumerWaitsOnEmpty(w: System) {
    var n := w.itemAvailable;
    && n.waiters == (if w.consumer == Parked then [CONSUMER] else [])
    && (w.consumer.Armed? || w.consumer.Polling? ==> w.consumer.snapshot <= n.calls)
    && (w.consumer == Parked ==> w.queue.items == [] && !w.queue.closed && !n.permit)
    && (w.consumer.Polling? && w.consumer.snapshot == n.calls && !n.permit ==> w.queue.items == [] && !w.queue.closed)
    && (w.consumer == Finished ==> w.queue.items == [] && w.queue.closed)
  }

  ghost predicate Inv(capacity: nat, w: System) {
    && ConsumerWaitsOnEmpty(w)
    && !w.spaceAvailable.permit
    && (forall p :: p in w.spaceAvailable.waiters ==> p in w.producers)
    && (forall p :: p in w.producers ==> ProducerWaitsOnFull(capacity, w, p))
  }

  lemma StepInv(capacity: nat, w: System, a: Act)
    requires Inv(capacity, w) && Enabled(w, a)
    ensures Inv(capacity, Step(capacity, w, a))
  {
    StepConsumer(capacity, w, a);
    StepProducers(capacity, w, a);
  }

  lemma StepConsumer(capacity: nat, w: System, a: Act)
    requires Inv(capacity, w) && Enabled(w, a)
    ensures ConsumerWaitsOnEmpty(Step(capacity, w, a))
  {
  }

  lemma StepProducers(capacity: nat, w: System, a: Act)
    requires Inv(capacity, w) && Enabled(w, a)
    ensures var w' := Step(capacity, w, a);
            && !w'.spaceAvailable.permit
            && (forall p :: p in w'.spaceAvailable.waiters ==> p in w'.producers)
            && (forall p :: p in w'.producers ==> ProducerWaitsOnFull(capacity, w', p))
  {
    var w' := Step(capacity, w, a);
    forall p | p in w'.producers ensures ProducerWaitsOnFull(capacity, w', p) {
      assert p in w.producers ==> ProducerWaitsOnFull(capacity, w, p);
    }
  }

  // ---------------------------------------------------------------- whole runs

  /** Can `acts` be taken one after the other from `w`? */
  predicate Legal(capacity: nat, w: System, acts: seq<Act>)
    decreases |acts|
  {
    acts == [] || (Enabled(w, acts[0]) && Legal(capacity, Step(capacity, w, acts[0]), acts[1..]))
  }

  function After(capacity: nat, w: System, acts: seq<Act>): (r: System)
    requires Legal(capacity, w, acts)
    decreases |acts|
  {
    if acts == [] then w else After(capacity, Step(capacity, w, acts[0]), acts[1..])
  }

  lemma {:induction false} RunInv(capacity: nat, w: System, acts: seq<Act>)
    requires Inv(capacity, w) && Legal(capacity, w, acts)
    ensures Inv(capacity, After(capacity, w, acts))
    decreases |acts|
  {
    if acts != [] {
      StepInv(capacity, w, acts[0]);
      RunInv(capacity, Step(capacity, w, acts[0]), acts[1..]);
    }
  }

  ghost predicate SomeProducerParked(w: System) {
    exists p :: p in w.producers && w.producers[p].pc == Parked
  }

  /** No lost wake-up: in every reachable interleaving a parked task has a reason to wait. */
  lemma NoLostWakeup(capacity: nat, acts: seq<Act>)
    requires Legal(capacity, INITIAL, acts)
    ensures var w := After(capacity, INITIAL, acts);
            && (SomeProducerParked(w) ==> Full(capacity, w) && !w.queue.closed)
            && (w.consumer == Parked ==> w.queue.items == [] && !w.queue.closed)
            && (w.consumer == Finished ==> w.queue.items == [] && w.queue.closed)
  {
    RunInv(capacity, INITIAL, acts);
    var w := After(capacity, INITIAL, acts);
    forall p | p in w.producers && w.producers[p].pc == Parked ensures Full(capacity, w) && !w.queue.closed {
      assert ProducerWaitsOnFull(capacity, w, p);
    }
  }

  ghost predicate BothStuck(w: System) {
    w.consumer == Parked && SomeProducerParked(w)
  }

  lemma RunSnoc(capacity: nat, w: System, acts: seq<Act>, a: Act)
    requires Legal(capacity, w, acts) && Enabled(After(capacity, w, acts), a)
    ensures Legal(capacity, w, acts + [a])
    ensures After(capacity, w, acts + [a]) == Step(capacity, After(capacity, w, acts), a)
    decreases |acts|
  {
    if acts == [] {
      assert [] + [a] == [a];
    } else {
      RunSnoc(capacity, Step(capacity, w, acts[0]), acts[1..], a);
      assert (acts + [a])[1..] == acts[1..] + [a];
    }
  }

  /** A queue without room parks both sides. */
  lemma ZeroCapacityDeadlocks(item: Item)
    requires item.kind == MustDeliver
    ensures exists acts :: Legal(0, INITIAL, acts) && BothStuck(After(0, INITIAL, acts))
  {
    var acts := [];
    RunSnoc(0, INITIAL, acts, ConsumerArm);
    acts := acts + [ConsumerArm];
    RunSnoc(0, INITIAL, acts, ConsumerPass);
    acts := acts + [ConsumerPass];
    RunSnoc(0, INITIAL, acts, ConsumerPoll);
    acts := acts + [ConsumerPoll];
    RunSnoc(0, INITIAL, acts, Produce(1, item));
    acts := acts + [Produce(1, item)];
    RunSnoc(0, INITIAL, acts, ProducerArm(1));
    acts := acts + [ProducerArm(1)];
    RunSnoc(0, INITIAL, acts, ProducerPass(1));
    acts := acts + [ProducerPass(1)];
    RunSnoc(0, INITIAL, acts, ProducerPoll(1));
    acts := acts + [ProducerPoll(1)];
    var w := After(0, INITIAL, acts);
    assert 1 in w.producers && w.producers[1].pc == Parked;
  }

  /** Both sides are never stuck together, exactly for the queues that have room for an item. */
  lemma NeverBothStuck(capacity: nat)
    ensures capacity >= 1 <==>
            forall acts :: Legal(capacity, INITIAL, acts) ==> !BothStuck(After(capacity, INITIAL, acts))
  {
    forall acts | capacity >= 1 && Legal(capacity, INITIAL, acts)
      ensures !BothStuck(After(capacity, INITIAL, acts))
    {
      NoLostWakeup(capacity, acts);
    }
    if capacity == 0 {
      ZeroCapacityDeadlocks(Item(MustDeliver, 0, 0));
    }
  }

  // ---------------------------------------------------------------- bounded delivery

  predicate IsConsumerStep(a: Act) {
    a.ConsumerArm? || a.ConsumerPass? || a.ConsumerPoll? || a.ConsumerResume?
  }

  function ConsumerSteps(acts: seq<Act>): (r: nat) {
    if acts == [] then 0 else (if IsConsumerStep(acts[0]) then 1 else 0) + ConsumerSteps(acts[1..])
  }

  /** Does some step of the run hand an item to the consumer? */
  ghost predicate Delivers(capacity: nat, w: System, acts: seq<Act>)
    requires Legal(capacity, w, acts)
    decreases |acts|
  {
    acts != [] &&
    ((acts[0] == ConsumerPass && w.queue.items != []) || Delivers(capacity, Step(capacity, w, acts[0]), acts[1..]))
  }

  /** Steps the consumer still needs before it takes an item, when there is one. */
  function Distance(pc: Pc): (r: nat) {
    match pc
    case Armed(_) => 1
    case Calling => 2
    case Polling(_) => 3
    case Notified(_) => 3
    case _ => 0
  }

  lemma DistanceShrinks(capacity: nat, w: System, a: Act)
    requires capacity >= 1 && Inv(capacity, w) && Enabled(w, a) && w.queue.items != [] && a != ConsumerDrop
    requires !(a == ConsumerPass)
    ensures var w' := Step(capacity, w, a);
            && w'.queue.items != []
            && Distance(w'.consumer) + (if IsConsumerStep(a) then 1 else 0) <= Distance(w.consumer)
  {
  }

  /**
   * Nothing queued waits on a sleeping consumer: with an item in the queue, whatever the other tasks do, the
   * consumer takes one within three steps of its own unless its future is dropped.
   */
  lemma DeliveryWithinThreeSteps(capacity: nat, w: System, acts: seq<Act>)
    requires capacity >= 1 && Inv(capacity, w) && Legal(capacity, w, acts)
    requires w.queue.items != [] && ConsumerDrop !in acts
    requires ConsumerSteps(acts) >= 3
    ensures Delivers(capacity, w, acts)
  {
    DeliveryWithinDistance(capacity, w, acts);
  }

  lemma {:induction false} DeliveryWithinDistance(capacity: nat, w: System, acts: seq<Act>)
    requires capacity >= 1 && Inv(capacity, w) && Legal(capacity, w, acts)
    requires w.queue.items != [] && ConsumerDrop !in acts
    requires ConsumerSteps(acts) >= Distance(w.consumer) && ConsumerSteps(acts) >= 1
    ensures Delivers(capacity, w, acts)
    decreases |acts|
  {
    var a := acts[0];
    var w' := Step(capacity, w, a);
    if a != ConsumerPass {
      DistanceShrinks(capacity, w, a);
      StepInv(capacity, w, a);
      assert ConsumerWaitsOnEmpty(w');
      DeliveryWithinDistance(capacity, w', acts[1..]);
    }
  }

  /** A delivery notifies every producer that was parked, and so does closing the queue. */
  lemma DeliveryAndCloseUnpark(capacity: nat, w: System, a: Act)
    requires Inv(capacity, w) && Enabled(w, a)
    requires a == CloseQueue || (a == ConsumerPass && w.queue.items != [])
    ensures !SomeProducerParked(Step(capacity, w, a))
    ensures forall p :: p in w.producers && w.producers[p].pc == Parked ==>
              Step(capacity, w, a).producers[p] == w.producers[p].(pc := Notified(false))
  {
    forall p | p in w.producers
      ensures w.producers[p].pc == Parked <==> p in w.spaceAvailable.waiters
    {
      assert ProducerWaitsOnFull(capacity, w, p);
    }
  }

  // ---------------------------------------------------------------- the queue's own history

  /** The critical section a step goes through, if any. */
  function OpsOf(w: System, a: Act): (r: seq<Op>)
    requires Enabled(w, a)
  {
    match a
    case ProducerPass(p) => [Enqueue(w.producers[p].item)]
    case Instant(item) => [Enqueue(item)]
    case ConsumerPass => [Receive]
    case CloseQueue => [Close]
    case _ => []
  }

  function History(capacity: nat, w: System, acts: seq<Act>): (r: seq<Op>)
    requires Legal(capacity, w, acts)
    decreases |acts|
  {
    if acts == [] then [] else OpsOf(w, acts[0]) + History(capacity, Step(capacity, w, acts[0]), acts[1..])
  }

  ghost predicate WaitingItemsMustDeliver(w: System) {
    forall p :: p in w.producers ==> w.producers[p].item.kind == MustDeliver
  }

  lemma StepHistory(capacity: nat, w: System, a: Act)
    requires Enabled(w, a) && WaitingItemsMustDeliver(w)
    ensures WaitingItemsMustDeliver(Step(capacity, w, a))
    ensures |OpsOf(w, a)| <= 1
    ensures Step(capacity, w, a).queue ==
            if OpsOf(w, a) == [] then w.queue else Apply(capacity, w.queue, OpsOf(w, a)[0])
  {
  }

  function ApplyAll(capacity: nat, q: QueueState, ops: seq<Op>): (r: QueueState)
    decreases ops
  {
    if ops == [] then q else ApplyAll(capacity, Apply(capacity, q, ops[0]), ops[1..])
  }

  lemma ApplyAllIsRun(capacity: nat, before: seq<Op>, ops: seq<Op>)
    ensures ApplyAll(capacity, Run(capacity, before), ops) == Run(capacity, before + ops)
    decreases ops
  {
    if ops == [] {
      assert before + ops == before;
    } else {
      NotificationQueues.RunSnoc(capacity, before, ops[0]);
      ApplyAllIsRun(capacity, before + [ops[0]], ops[1..]);
      assert before + [ops[0]] + ops[1..] == before + ops;
    }
  }

  lemma ApplyAllPrepend(capacity: nat, q: QueueState, first: seq<Op>, rest: seq<Op>)
    requires |first| <= 1
    ensures ApplyAll(capacity, q, first + rest) ==
            ApplyAll(capacity, if first == [] then q else Apply(capacity, q, first[0]), rest)
  {
    if first == [] {
      assert first + rest == rest;
    } else {
      assert (first + rest)[1..] == rest;
    }
  }

  /** The interleaved queue is the sequential queue of its critical sections. */
  lemma {:induction false} InterleavingsAreHistories(capacity: nat, w: System, acts: seq<Act>)
    requires Legal(capacity, w, acts) && WaitingItemsMustDeliver(w)
    ensures After(capacity, w, acts).queue == ApplyAll(capacity, w.queue, History(capacity, w, acts))
    decreases |acts|
  {
    if acts != [] {
      var w' := Step(capacity, w, acts[0]);
      StepHistory(capacity, w, acts[0]);
      InterleavingsAreHistories(capacity, w', acts[1..]);
      ApplyAllPrepend(capacity, w.queue, OpsOf(w, acts[0]), History(capacity, w', acts[1..]));
    }
  }

  /** Every interleaving of producers, consumer and close delivers what the admission log says. */
  lemma InterleavingsRefineTheLog(capacity: nat, acts: seq<Act>)
    requires Legal(capacity, INITIAL, acts)
    ensures var trace := History(capacity, INITIAL, acts);
            Explains(capacity, After(capacity, INITIAL, acts).queue, LogOf(capacity, trace))
  {
    var trace := History(capacity, INITIAL, acts);
    InterleavingsAreHistories(capacity, INITIAL, acts);
    ApplyAllIsRun(capacity, [], trace);
    assert [] + trace == trace;
    EveryHistoryExplained(capacity, trace);
  }
}
