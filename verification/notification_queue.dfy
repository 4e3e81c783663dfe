/**
 * The UI's single ordered notification queue (crates/app/src/notification_queue.rs).
 *
 * Every method of the queue is one critical section under the same mutex, so a history of the queue is a
 * sequence of `Op`s. `Apply` is what one critical section does. `Log` is the admission log the queue is
 * measured against: one `Slot` per admission, in creation order, with the fate of each slot that has left.
 */
module NotificationQueues {
  import opened Wrappers

  /** Queue policy of an item; a coalesce key is any value with equality, a string here. */
  datatype NotificationClass = Coalesce(key: string) | Drop | MustDeliver

  /** A queued notification; `generation` is the tag the reader task stamps on it. */
  datatype Item = Item(kind: NotificationClass, generation: nat, payload: nat)

  datatype QueueState = QueueState(items: seq<Item>, closed: bool)

  const EMPTY_QUEUE := QueueState([], false)

  datatype Op = Enqueue(item: Item) | Receive | Close

  // ---------------------------------------------------------------- one critical section

  /** Position of the slot that holds `key`. */
  function SlotOf(items: seq<Item>, key: string): (slot: Option<nat>)
    ensures slot.Some? ==> slot.value < |items| && items[slot.value].kind == Coalesce(key)
    ensures slot.None? ==> forall i :: 0 <= i < |items| ==> items[i].kind != Coalesce(key)
  {
    if items == [] then None
    else if items[0].kind == Coalesce(key) then Some(0)
    else match SlotOf(items[1..], key)
      case None => None
      case Some(i) => Some(i + 1)
  }

  /** Coalesce: latest wins in place; a new key is discarded when the queue is full. */
  function ApplyCoalesce(capacity: nat, items: seq<Item>, key: string, item: Item): (r: seq<Item>) {
    match SlotOf(items, key)
    case Some(i) => items[i := item]
    case None => if |items| >= capacity then items else items + [item]
  }

  /** Drop: always appended; at capacity the front goes first, whatever its class. */
  function ApplyDrop(capacity: nat, items: seq<Item>, item: Item): (r: seq<Item>) {
    (if |items| >= capacity && items != [] then items[1..] else items) + [item]
  }

  /** MustDeliver: appended if there is room; otherwise the producer parks and nothing changes. */
  function ApplyMustDeliver(capacity: nat, items: seq<Item>, item: Item): (r: seq<Item>) {
    if |items| < capacity then items + [item] else items
  }

  function ApplyEnqueue(capacity: nat, items: seq<Item>, item: Item): (r: seq<Item>) {
    match item.kind
    case Coalesce(key) => ApplyCoalesce(capacity, items, key, item)
    case Drop => ApplyDrop(capacity, items, item)
    case MustDeliver => ApplyMustDeliver(capacity, items, item)
  }

  function Apply(capacity: nat, q: QueueState, op: Op): (r: QueueState) {
    match op
    case Enqueue(item) => if q.closed then q else q.(items := ApplyEnqueue(capacity, q.items, item))
    case Receive => if q.items == [] then q else q.(items := q.items[1..])
    case Close => q.(closed := true)
  }

  /** The queue after a whole history. */
  function Run(capacity: nat, trace: seq<Op>): (r: QueueState) {
    if trace == [] then EMPTY_QUEUE
    else Apply(capacity, Run(capacity, trace[..|trace| - 1]), trace[|trace| - 1])
  }

  /** What the consumer was handed over a whole history. */
  function Received(capacity: nat, trace: seq<Op>): (r: seq<Item>) {
    if trace == [] then []
    else
      var before := trace[..|trace| - 1];
      var q := Run(capacity, before);
      Received(capacity, before) + (if trace[|trace| - 1] == Receive && q.items != [] then [q.items[0]] else [])
  }

  lemma RunSnoc(capacity: nat, trace: seq<Op>, op: Op)
    ensures Run(capacity, trace + [op]) == Apply(capacity, Run(capacity, trace), op)
    ensures Received(capacity, trace + [op]) ==
            Received(capacity, trace)
            + (if op == Receive && Run(capacity, trace).items != [] then [Run(capacity, trace).items[0]] else [])
  {
    assert (trace + [op])[..|trace|] == trace;
  }

  // ---------------------------------------------------------------- the admission log

  /** An admission: the operation that created the slot and every value the slot has held. */
  datatype Slot = Slot(born: nat, values: seq<Item>)

  /** How a slot left the queue, and the operation that removed it. */
  datatype Fate = Delivered(at: nat) | Evicted(at: nat)

  datatype Log = Log(trace: seq<Op>, slots: seq<Slot>, fates: seq<Fate>)

  const EMPTY_LOG := Log([], [], [])

  ghost function Current(slot: Slot): (r: Item)
    requires slot.values != []
  {
    slot.values[|slot.values| - 1]
  }

  ghost function LogEnqueue(capacity: nat, items: seq<Item>, log: Log, item: Item): (r: Log) {
    var now := |log.trace|;
    var next := log.(trace := log.trace + [Enqueue(item)]);
    var admitted := next.(slots := log.slots + [Slot(now, [item])]);
    match item.kind
    case Coalesce(key) =>
      (match SlotOf(items, key)
       case Some(i) =>
         var at := |log.fates| + i;
         if at < |log.slots|
         then next.(slots := log.slots[at := log.slots[at].(values := log.slots[at].values + [item])])
         else next
       case None => if |items| >= capacity then next else admitted)
    case Drop =>
      if |items| >= capacity && items != [] then admitted.(fates := log.fates + [Evicted(now)]) else admitted
    case MustDeliver => if |items| < capacity then admitted else next
  }

  ghost function LogStep(capacity: nat, q: QueueState, log: Log, op: Op): (r: Log) {
    var next := log.(trace := log.trace + [op]);
    match op
    case Enqueue(item) => if q.closed then next else LogEnqueue(capacity, q.items, log, item)
    case Receive => if q.items == [] then next else next.(fates := log.fates + [Delivered(|log.trace|)])
    case Close => next
  }

  /** When slot `i` stopped receiving values: when it left, or now. */
  ghost function EndOf(log: Log, i: nat): (r: nat) {
    if i < |log.fates| then log.fates[i].at else |log.trace|
  }

  /** The last value enqueued for `key` by operations `lo..hi` while the queue was open. */
  ghost function LastEnqueued(trace: seq<Op>, key: string, lo: nat, hi: nat): (r: Option<Item>)
    requires lo <= hi <= |trace|
    decreases hi
  {
    if lo == hi then None
    else if trace[hi - 1].Enqueue? && trace[hi - 1].item.kind == Coalesce(key) && Close !in trace[..hi - 1]
    then Some(trace[hi - 1].item)
    else LastEnqueued(trace, key, lo, hi - 1)
  }

  lemma LastEnqueuedPrefix(trace: seq<Op>, op: Op, key: string, lo: nat, hi: nat)
    requires lo <= hi <= |trace|
    ensures LastEnqueued(trace + [op], key, lo, hi) == LastEnqueued(trace, key, lo, hi)
    decreases hi
  {
    if lo < hi {
      assert (trace + [op])[..hi - 1] == trace[..hi - 1];
      LastEnqueuedPrefix(trace, op, key, lo, hi - 1);
    }
  }

  /** Slots have left from the front only; the queue shows the current value of every slot still in it. */
  ghost predicate Shape(q: QueueState, log: Log) {
    && |log.slots| == |log.fates| + |q.items|
    && (forall i :: 0 <= i < |log.slots| ==> log.slots[i].values != [])
    && (forall i :: 0 <= i < |q.items| ==> q.items[i] == Current(log.slots[|log.fates| + i]))
  }

  ghost predicate DistinctKeys(items: seq<Item>) {
    forall i, j :: 0 <= i < j < |items| && items[i].kind.Coalesce? ==> items[i].kind != items[j].kind
  }

  /** The guard of the evicting branch: a Drop-class enqueue meets an open, non-empty queue at capacity. */
  predicate Evicts(capacity: nat, q: QueueState, op: Op) {
    op.Enqueue? && op.item.kind == Drop && !q.closed && |q.items| >= capacity && q.items != []
  }

  predicate EvictsAt(capacity: nat, trace: seq<Op>, t: nat)
    requires t < |trace|
  {
    Evicts(capacity, Run(capacity, trace[..t]), trace[t])
  }

  /** An eviction is an operation that meets the guard; a delivery is a receive. */
  ghost predicate FateJustified(capacity: nat, trace: seq<Op>, fate: Fate) {
    && fate.at < |trace|
    && match fate
       case Delivered(at) => trace[at] == Receive
       case Evicted(at) =>
         EvictsAt(capacity, trace, at)
  }

  ghost predicate FatesJustified(capacity: nat, log: Log) {
    forall i :: 0 <= i < |log.fates| ==> FateJustified(capacity, log.trace, log.fates[i])
  }

  /** What a slot holds, in terms of the history alone. */
  ghost predicate SlotMeaning(log: Log, i: nat)
    requires i < |log.slots|
  {
    var slot := log.slots[i];
    && slot.born < EndOf(log, i) <= |log.trace|
    && slot.values != []
    && log.trace[slot.born] == Enqueue(slot.values[0])
    && Close !in log.trace[..slot.born]
    && (forall v :: 0 <= v < |slot.values| ==> slot.values[v].kind == slot.values[0].kind)
    && match slot.values[0].kind
       case Coalesce(key) => LastEnqueued(log.trace, key, slot.born, EndOf(log, i)) == Some(Current(slot))
       case Drop => |slot.values| == 1
       case MustDeliver => |slot.values| == 1
  }

  ghost predicate SlotMeanings(log: Log) {
    forall i :: 0 <= i < |log.slots| ==> SlotMeaning(log, i)
  }

  /** The current values of the first `n` slots, without those evicted. */
  ghost function Survivors(log: Log, n: nat): (r: seq<Item>)
    requires n <= |log.slots|
    requires forall i :: 0 <= i < n ==> log.slots[i].values != []
  {
    if n == 0 then []
    else if n <= |log.fates| && log.fates[n - 1].Evicted? then Survivors(log, n - 1)
    else Survivors(log, n - 1) + [Current(log.slots[n - 1])]
  }

  /** The slots of a log are in creation order. */
  ghost predicate CreationOrder(log: Log) {
    && (forall i :: 0 <= i < |log.slots| ==> log.slots[i].born < |log.trace|)
    && (forall i, j :: 0 <= i < j < |log.slots| ==> log.slots[i].born < log.slots[j].born)
  }

  /** The refinement: `log` explains everything the queue holds and everything it has handed out. */
  ghost predicate Explains(capacity: nat, q: QueueState, log: Log) {
    && q == Run(capacity, log.trace)
    && (q.closed <==> Close in log.trace)
    && Shape(q, log)
    && DistinctKeys(q.items)
    && CreationOrder(log)
    && FatesJustified(capacity, log)
    && SlotMeanings(log)
    && |q.items| <= (if capacity == 0 then 1 else capacity)
    && Received(capacity, log.trace) == Survivors(log, |log.fates|)
  }

  lemma EmptyExplained(capacity: nat)
    ensures Explains(capacity, EMPTY_QUEUE, EMPTY_LOG)
  {
  }

  // ---------------------------------------------------------------- each operation keeps the refinement

  /** Survivors of the slots that had already left do not depend on what is logged later. */
  lemma SurvivorsStable(was: Log, now: Log, n: nat)
    requires n <= |was.fates| <= |now.fates| && n <= |was.slots| && n <= |now.slots|
    requires forall i :: 0 <= i < n ==> was.slots[i].values != [] && now.slots[i] == was.slots[i]
    requires forall i :: 0 <= i < n ==> now.fates[i] == was.fates[i]
    ensures Survivors(now, n) == Survivors(was, n)
  {
    if n > 0 {
      SurvivorsStable(was, now, n - 1);
    }
  }

  lemma FatesStable(capacity: nat, trace: seq<Op>, op: Op, fate: Fate)
    requires FateJustified(capacity, trace, fate)
    ensures FateJustified(capacity, trace + [op], fate)
  {
    assert (trace + [op])[..fate.at] == trace[..fate.at];
  }

  /** A slot untouched by `op` keeps its meaning. */
  lemma MeaningStable(was: Log, now: Log, op: Op, i: nat)
    requires i < |was.slots| && i < |now.slots| && SlotMeaning(was, i)
    requires now.trace == was.trace + [op] && now.slots[i] == was.slots[i]
    requires |was.fates| <= |now.fates| && now.fates[..|was.fates|] == was.fates
    requires i >= |was.fates| && i < |now.fates| ==> now.fates[i].at == |was.trace|
    requires i >= |now.fates| && was.slots[i].values[0].kind.Coalesce? ==>
               !op.Enqueue? || op.item.kind != was.slots[i].values[0].kind || Close in was.trace
    ensures SlotMeaning(now, i)
  {
    var slot := was.slots[i];
    assert now.trace[..slot.born] == was.trace[..slot.born];
    if slot.values[0].kind.Coalesce? {
      LastEnqueuedPrefix(was.trace, op, slot.values[0].kind.key, slot.born, EndOf(was, i));
      if i < |was.fates| {
        assert now.fates[i] == now.fates[..|was.fates|][i];
      } else {
        assert now.trace[..|was.trace|] == was.trace;
      }
    }
  }

  /** The slot that coalesces takes the new value. */
  lemma MeaningRewritten(was: Log, now: Log, item: Item, i: nat)
    requires |was.fates| <= i < |was.slots| && SlotMeaning(was, i) && Close !in was.trace
    requires item.kind.Coalesce? && item.kind == was.slots[i].values[0].kind
    requires now.trace == was.trace + [Enqueue(item)] && now.fates == was.fates && |now.slots| == |was.slots|
    requires now.slots[i] == was.slots[i].(values := was.slots[i].values + [item])
    ensures SlotMeaning(now, i)
  {
    assert now.trace[..was.slots[i].born] == was.trace[..was.slots[i].born];
    assert now.trace[..|was.trace|] == was.trace;
  }

  /** A slot just admitted holds the value that created it. */
  lemma MeaningAdmitted(was: Log, now: Log, item: Item)
    requires Close !in was.trace
    requires now.trace == was.trace + [Enqueue(item)] && |now.fates| <= |was.slots|
    requires now.slots == was.slots + [Slot(|was.trace|, [item])]
    ensures SlotMeaning(now, |was.slots|)
  {
    assert now.trace[..|was.trace|] == was.trace;
  }

  /** No queued slot has the key `op` enqueues, unless `op` is ignored. */
  ghost predicate NoSlotFor(q: QueueState, op: Op) {
    op.Enqueue? && op.item.kind.Coalesce? && !q.closed ==>
      forall i :: 0 <= i < |q.items| ==> q.items[i].kind != op.item.kind
  }

  /** `next` extends `log` by `op`; the slots it already had keep their values. */
  ghost predicate KeepsSlots(log: Log, next: Log, op: Op) {
    && next.trace == log.trace + [op]
    && |log.slots| <= |next.slots| && next.slots[..|log.slots|] == log.slots
    && |log.fates| <= |next.fates| <= |log.slots| && next.fates[..|log.fates|] == log.fates
    && forall i :: |log.fates| <= i < |next.fates| ==> next.fates[i].at == |log.trace|
  }

  lemma KeptMeanings(capacity: nat, q: QueueState, log: Log, next: Log, op: Op)
    requires Explains(capacity, q, log) && KeepsSlots(log, next, op) && NoSlotFor(q, op)
    ensures forall i :: 0 <= i < |log.slots| ==> SlotMeaning(next, i)
  {
    forall i | 0 <= i < |log.slots| ensures SlotMeaning(next, i) {
      assert next.slots[i] == next.slots[..|log.slots|][i];
      assert SlotMeaning(log, i);
      if i >= |next.fates| {
        assert q.items[i - |log.fates|] == Current(log.slots[i]);
      }
      MeaningStable(log, next, op, i);
    }
  }

  lemma RewrittenMeaning(capacity: nat, q: QueueState, log: Log, next: Log, item: Item, slot: nat, i: nat)
    requires Explains(capacity, q, log) && !q.closed && item.kind.Coalesce?
    requires slot < |q.items| && q.items[slot].kind == item.kind
    requires next.trace == log.trace + [Enqueue(item)] && next.fates == log.fates
    requires var at := |log.fates| + slot;
             next.slots == log.slots[at := log.slots[at].(values := log.slots[at].values + [item])]
    requires i < |log.slots|
    ensures SlotMeaning(next, i)
  {
    assert SlotMeaning(log, i);
    if i == |log.fates| + slot {
      assert q.items[slot] == Current(log.slots[i]);
      MeaningRewritten(log, next, item, i);
    } else {
      if i >= |log.fates| {
        assert q.items[i - |log.fates|] == Current(log.slots[i]);
        assert q.items[i - |log.fates|].kind != q.items[slot].kind;
      }
      MeaningStable(log, next, Enqueue(item), i);
    }
  }

  lemma RewrittenMeanings(capacity: nat, q: QueueState, log: Log, item: Item)
    requires Explains(capacity, q, log) && !q.closed && item.kind.Coalesce?
    requires SlotOf(q.items, item.kind.key).Some?
    ensures SlotMeanings(LogEnqueue(capacity, q.items, log, item))
  {
    var next := LogEnqueue(capacity, q.items, log, item);
    forall i | 0 <= i < |next.slots| ensures SlotMeaning(next, i) {
      RewrittenMeaning(capacity, q, log, next, item, SlotOf(q.items, item.kind.key).value, i);
    }
  }

  lemma StepSlots(capacity: nat, q: QueueState, log: Log, op: Op)
    requires Explains(capacity, q, log)
    ensures SlotMeanings(LogStep(capacity, q, log, op))
  {
    var next := LogStep(capacity, q, log, op);
    if op.Enqueue? && !q.closed && op.item.kind.Coalesce? && SlotOf(q.items, op.item.kind.key).Some? {
      RewrittenMeanings(capacity, q, log, op.item);
    } else {
      SlotsKept(capacity, q, log, op);
      KeptMeanings(capacity, q, log, next, op);
      if |next.slots| > |log.slots| {
        MeaningAdmitted(log, next, op.item);
      }
    }
  }

  lemma SlotsKept(capacity: nat, q: QueueState, log: Log, op: Op)
    requires Shape(q, log)
    requires op.Enqueue? && !q.closed && op.item.kind.Coalesce? ==> SlotOf(q.items, op.item.kind.key) == None
    ensures KeepsSlots(log, LogStep(capacity, q, log, op), op) && NoSlotFor(q, op)
  {
  }

  lemma StepFates(capacity: nat, q: QueueState, log: Log, op: Op)
    requires Explains(capacity, q, log)
    ensures FatesJustified(capacity, LogStep(capacity, q, log, op))
  {
    var next := LogStep(capacity, q, log, op);
    forall i | 0 <= i < |next.fates| ensures FateJustified(capacity, next.trace, next.fates[i]) {
      if i < |log.fates| {
        FatesStable(capacity, log.trace, op, log.fates[i]);
      } else {
        assert next.trace[..|log.trace|] == log.trace;
      }
    }
  }

  /** What leaves the queue leaves from its front, and only a receive hands it to the consumer. */
  lemma StepStream(capacity: nat, q: QueueState, log: Log, next: Log, op: Op)
    requires q == Run(capacity, log.trace) && Shape(q, log) && next.trace == log.trace + [op]
    requires Received(capacity, log.trace) == Survivors(log, |log.fates|)
    requires |log.fates| <= |next.fates| <= |log.slots| <= |next.slots|
    requires forall i :: 0 <= i < |next.slots| ==> next.slots[i].values != []
    requires next.fates[..|log.fates|] == log.fates && next.slots[..|log.fates|] == log.slots[..|log.fates|]
    requires |next.fates| == |log.fates| ==> op != Receive || q.items == []
    requires |next.fates| > |log.fates| ==>
               && |next.fates| == |log.fates| + 1
               && next.slots[|log.fates|] == log.slots[|log.fates|]
               && q.items != []
               && (op == Receive <==> next.fates[|log.fates|].Delivered?)
    ensures Received(capacity, next.trace) == Survivors(next, |next.fates|)
  {
    RunSnoc(capacity, log.trace, op);
    forall i | 0 <= i < |log.fates| ensures next.slots[i] == log.slots[i] && next.fates[i] == log.fates[i] {
      assert next.slots[i] == next.slots[..|log.fates|][i] && next.fates[i] == next.fates[..|log.fates|][i];
    }
    SurvivorsStable(log, next, |log.fates|);
    if |next.fates| > |log.fates| {
      assert q.items[0] == Current(log.slots[|log.fates|]);
    }
  }

  lemma RewrittenShape(capacity: nat, q: QueueState, log: Log, item: Item)
    requires Shape(q, log) && CreationOrder(log) && item.kind.Coalesce? && SlotOf(q.items, item.kind.key).Some?
    ensures Shape(q.(items := ApplyEnqueue(capacity, q.items, item)), LogEnqueue(capacity, q.items, log, item))
    ensures CreationOrder(LogEnqueue(capacity, q.items, log, item))
  {
    var i := SlotOf(q.items, item.kind.key).value;
    var at := |log.fates| + i;
    var slots := log.slots[at := log.slots[at].(values := log.slots[at].values + [item])];
    var next := Log(log.trace + [Enqueue(item)], slots, log.fates);
    assert LogEnqueue(capacity, q.items, log, item) == next && ApplyEnqueue(capacity, q.items, item) == q.items[i := item];
    ReplacedShape(q, log, next, item, i);
  }

  lemma ReplacedShape(q: QueueState, log: Log, next: Log, item: Item, i: nat)
    requires Shape(q, log) && CreationOrder(log) && i < |q.items|
    requires next.fates == log.fates && |next.trace| > |log.trace|
    requires var at := |log.fates| + i;
             next.slots == log.slots[at := log.slots[at].(values := log.slots[at].values + [item])]
    ensures Shape(q.(items := q.items[i := item]), next) && CreationOrder(next)
  {
    var items := q.items[i := item];
    forall k | 0 <= k < |items| ensures items[k] == Current(next.slots[|log.fates| + k]) {
      if k != i {
        assert next.slots[|log.fates| + k] == log.slots[|log.fates| + k];
      }
    }
  }

  lemma AdmittedShape(q: QueueState, log: Log, next: Log, item: Item)
    requires Shape(q, log) && CreationOrder(log)
    requires next.trace == log.trace + [Enqueue(item)] && next.fates == log.fates
    requires next.slots == log.slots + [Slot(|log.trace|, [item])]
    ensures Shape(q.(items := q.items + [item]), next) && CreationOrder(next)
  {
  }

  lemma DepartedShape(q: QueueState, log: Log, next: Log, fate: Fate)
    requires Shape(q, log) && q.items != []
    requires next.slots == log.slots && next.fates == log.fates + [fate]
    ensures Shape(q.(items := q.items[1..]), next)
  {
  }

  lemma StepShape(capacity: nat, q: QueueState, log: Log, op: Op)
    requires Shape(q, log) && CreationOrder(log)
    ensures Shape(Apply(capacity, q, op), LogStep(capacity, q, log, op))
    ensures CreationOrder(LogStep(capacity, q, log, op))
  {
    var next := LogStep(capacity, q, log, op);
    if op.Enqueue? && !q.closed {
      var item := op.item;
      if item.kind.Coalesce? && SlotOf(q.items, item.kind.key).Some? {
        RewrittenShape(capacity, q, log, item);
      } else if item.kind.Drop? && |q.items| >= capacity && q.items != [] {
        var front := log.(fates := next.fates);
        DepartedShape(q, log, front, Evicted(|log.trace|));
        AdmittedShape(q.(items := q.items[1..]), front, next, item);
      } else if |next.slots| > |log.slots| {
        AdmittedShape(q, log, next, item);
      }
    } else if op.Receive? && q.items != [] {
      DepartedShape(q, log, next, Delivered(|log.trace|));
    }
  }

  lemma StepItems(capacity: nat, q: QueueState, op: Op)
    requires DistinctKeys(q.items) && |q.items| <= (if capacity == 0 then 1 else capacity)
    ensures DistinctKeys(Apply(capacity, q, op).items)
    ensures |Apply(capacity, q, op).items| <= (if capacity == 0 then 1 else capacity)
  {
  }

  lemma StepReceived(capacity: nat, q: QueueState, log: Log, op: Op)
    requires q == Run(capacity, log.trace) && Shape(q, log)
    requires Received(capacity, log.trace) == Survivors(log, |log.fates|)
    requires Shape(Apply(capacity, q, op), LogStep(capacity, q, log, op))
    ensures var next := LogStep(capacity, q, log, op);
            Received(capacity, next.trace) == Survivors(next, |next.fates|)
  {
    StepStream(capacity, q, log, LogStep(capacity, q, log, op), op);
  }

  lemma StepTrace(capacity: nat, q: QueueState, log: Log, op: Op)
    requires q == Run(capacity, log.trace) && (q.closed <==> Close in log.trace)
    ensures var after, next := Apply(capacity, q, op), LogStep(capacity, q, log, op);
            && next.trace == log.trace + [op] && after == Run(capacity, next.trace)
            && (after.closed <==> Close in next.trace)
  {
    RunSnoc(capacity, log.trace, op);
  }

  /** Main step: whatever the operation, the extended log explains the new queue. */
  lemma StepExplained(capacity: nat, q: QueueState, log: Log, op: Op)
    requires Explains(capacity, q, log)
    ensures Explains(capacity, Apply(capacity, q, op), LogStep(capacity, q, log, op))
    ensures LogStep(capacity, q, log, op).trace == log.trace + [op]
  {
    StepTrace(capacity, q, log, op);
    StepShape(capacity, q, log, op);
    StepItems(capacity, q, op);
    assert SlotMeanings(LogStep(capacity, q, log, op)) by {
      StepSlots(capacity, q, log, op);
    }
    assert FatesJustified(capacity, LogStep(capacity, q, log, op)) by {
      StepFates(capacity, q, log, op);
    }
    StepReceived(capacity, q, log, op);
  }

  // ---------------------------------------------------------------- whole histories

  ghost function LogOf(capacity: nat, trace: seq<Op>): (r: Log) {
    if trace == [] then EMPTY_LOG
    else
      var before := trace[..|trace| - 1];
      LogStep(capacity, Run(capacity, before), LogOf(capacity, before), trace[|trace| - 1])
  }

  /** Every history of every queue is explained by its admission log. */
  lemma {:induction false} EveryHistoryExplained(capacity: nat, trace: seq<Op>)
    ensures LogOf(capacity, trace).trace == trace
    ensures Explains(capacity, Run(capacity, trace), LogOf(capacity, trace))
  {
    if trace == [] {
      EmptyExplained(capacity);
    } else {
      var before := trace[..|trace| - 1];
      EveryHistoryExplained(capacity, before);
      StepExplained(capacity, Run(capacity, before), LogOf(capacity, before), trace[|trace| - 1]);
      assert before + [trace[|trace| - 1]] == trace;
    }
  }

  /** The survivors of all slots are the survivors of the departed ones, then the queue itself. */
  lemma {:induction false} SurvivorsSplit(q: QueueState, log: Log, n: nat)
    requires Shape(q, log) && |log.fates| <= n <= |log.slots|
    ensures Survivors(log, n) == Survivors(log, |log.fates|) + q.items[..n - |log.fates|]
  {
    if n > |log.fates| {
      SurvivorsSplit(q, log, n - 1);
      var k := n - |log.fates|;
      assert Survivors(log, n) == Survivors(log, n - 1) + [q.items[k - 1]];
      assert q.items[..k] == q.items[..k - 1] + [q.items[k - 1]];
    }
  }

  /** What was handed out, followed by what is queued, is every admission in creation order minus the evicted. */
  lemma DeliveredThenQueued(capacity: nat, trace: seq<Op>)
    ensures var log := LogOf(capacity, trace);
            && Explains(capacity, Run(capacity, trace), log)
            && Received(capacity, trace) + Run(capacity, trace).items == Survivors(log, |log.slots|)
  {
    EveryHistoryExplained(capacity, trace);
    var q, log := Run(capacity, trace), LogOf(capacity, trace);
    SurvivorsSplit(q, log, |log.slots|);
    assert q.items[..|q.items|] == q.items;
  }

  /** The current values of the first `n` admissions, evicted or not. */
  ghost function Admitted(log: Log, n: nat): (r: seq<Item>)
    requires n <= |log.slots| && forall i :: 0 <= i < n ==> log.slots[i].values != []
  {
    if n == 0 then [] else Admitted(log, n - 1) + [Current(log.slots[n - 1])]
  }

  /** Survivors are fewer than admissions as soon as one was evicted. */
  lemma {:induction false} SurvivorsCount(log: Log, n: nat)
    requires n <= |log.slots| && forall i :: 0 <= i < n ==> log.slots[i].values != []
    ensures |Admitted(log, n)| == n
    ensures if exists i :: 0 <= i < n && i < |log.fates| && log.fates[i].Evicted? then |Survivors(log, n)| < n
            else Survivors(log, n) == Admitted(log, n)
  {
    if n > 0 {
      SurvivorsCount(log, n - 1);
    }
  }

  /** A slot created for this class was evicted. */
  ghost predicate SomeEvicted(log: Log, kind: NotificationClass)
    requires |log.fates| <= |log.slots| && forall i :: 0 <= i < |log.slots| ==> log.slots[i].values != []
  {
    exists i :: 0 <= i < |log.fates| && log.fates[i].Evicted? && log.slots[i].values[0].kind == kind
  }

  /** An operation met the guard with an item of this class at the front. */
  ghost predicate FrontEvicted(capacity: nat, trace: seq<Op>, kind: NotificationClass) {
    exists t :: 0 <= t < |trace| && EvictsAt(capacity, trace, t) && Run(capacity, trace[..t]).items[0].kind == kind
  }

  lemma FrontEvictedExtends(capacity: nat, trace: seq<Op>, op: Op, kind: NotificationClass)
    ensures FrontEvicted(capacity, trace + [op], kind) <==>
            || FrontEvicted(capacity, trace, kind)
            || (Evicts(capacity, Run(capacity, trace), op) && Run(capacity, trace).items[0].kind == kind)
  {
    var longer := trace + [op];
    assert longer[..|trace|] == trace;
    if t :| 0 <= t < |trace| && EvictsAt(capacity, trace, t) && Run(capacity, trace[..t]).items[0].kind == kind {
      assert longer[..t] == trace[..t] && EvictsAt(capacity, longer, t);
    }
    if t :| 0 <= t < |longer| && EvictsAt(capacity, longer, t) && Run(capacity, longer[..t]).items[0].kind == kind {
      if t < |trace| {
        assert longer[..t] == trace[..t] && EvictsAt(capacity, trace, t);
      }
    }
    if Evicts(capacity, Run(capacity, trace), op) {
      assert EvictsAt(capacity, longer, |trace|);
    }
  }

  /** An operation adds one Evicted fate exactly when it meets the guard, and leaves every slot's first value. */
  lemma StepEvicts(capacity: nat, q: QueueState, log: Log, op: Op)
    requires Shape(q, log)
    ensures var next := LogStep(capacity, q, log, op);
            && (if Evicts(capacity, q, op) then next.fates == log.fates + [Evicted(|log.trace|)]
                else next.fates == log.fates || next.fates == log.fates + [Delivered(|log.trace|)])
            && |log.slots| <= |next.slots|
            && forall i :: 0 <= i < |log.slots| ==> next.slots[i].values != [] && next.slots[i].values[0] == log.slots[i].values[0]
  {
  }

  lemma SomeEvictedExtends(log: Log, next: Log, fates: seq<Fate>, kind: NotificationClass)
    requires |log.fates| <= |log.slots| <= |next.slots| && |next.fates| <= |log.slots| && next.fates == log.fates + fates && |fates| <= 1
    requires forall i :: 0 <= i < |log.slots| ==> log.slots[i].values != []
    requires forall i :: 0 <= i < |next.slots| ==> next.slots[i].values != []
    requires forall i :: 0 <= i < |log.slots| ==> next.slots[i].values[0] == log.slots[i].values[0]
    ensures SomeEvicted(next, kind) <==>
            || SomeEvicted(log, kind)
            || (fates != [] && fates[0].Evicted? && log.slots[|log.fates|].values[0].kind == kind)
  {
    if i :| 0 <= i < |log.fates| && log.fates[i].Evicted? && log.slots[i].values[0].kind == kind {
      assert next.fates[i].Evicted?;
    }
    if fates != [] {
      assert next.fates[|log.fates|] == fates[0];
    }
  }

  lemma StepSomeEvicted(capacity: nat, q: QueueState, log: Log, op: Op, kind: NotificationClass)
    requires Shape(q, log) && SlotMeanings(log) && Shape(Apply(capacity, q, op), LogStep(capacity, q, log, op))
    ensures SomeEvicted(LogStep(capacity, q, log, op), kind) <==>
            SomeEvicted(log, kind) || (Evicts(capacity, q, op) && q.items[0].kind == kind)
  {
    var next := LogStep(capacity, q, log, op);
    StepEvicts(capacity, q, log, op);
    var fates := next.fates[|log.fates|..];
    assert next.fates == log.fates + fates && |fates| <= 1 && |next.fates| <= |log.slots| by {
      assert op.Receive? && q.items == [] ==> next.fates == log.fates;
    }
    SomeEvictedExtends(log, next, fates, kind);
    if Evicts(capacity, q, op) {
      assert SlotMeaning(log, |log.fates|) && q.items[0] == Current(log.slots[|log.fates|]);
    }
  }

  lemma LogOfSnoc(capacity: nat, trace: seq<Op>, op: Op)
    ensures LogOf(capacity, trace + [op]) == LogStep(capacity, Run(capacity, trace), LogOf(capacity, trace), op)
  {
    assert (trace + [op])[..|trace|] == trace;
  }

  lemma EvictedIffStep(capacity: nat, trace: seq<Op>, op: Op, kind: NotificationClass)
    requires Shape(Run(capacity, trace), LogOf(capacity, trace)) && SlotMeanings(LogOf(capacity, trace))
    requires Shape(Run(capacity, trace + [op]), LogOf(capacity, trace + [op]))
    requires SomeEvicted(LogOf(capacity, trace), kind) <==> FrontEvicted(capacity, trace, kind)
    ensures SomeEvicted(LogOf(capacity, trace + [op]), kind) <==> FrontEvicted(capacity, trace + [op], kind)
  {
    LogOfSnoc(capacity, trace, op);
    RunSnoc(capacity, trace, op);
    StepSomeEvicted(capacity, Run(capacity, trace), LogOf(capacity, trace), op, kind);
    FrontEvictedExtends(capacity, trace, op, kind);
  }

  lemma HistoryShape(capacity: nat, trace: seq<Op>)
    ensures Shape(Run(capacity, trace), LogOf(capacity, trace)) && SlotMeanings(LogOf(capacity, trace))
  {
    EveryHistoryExplained(capacity, trace);
  }

  /** Class by class: a slot is evicted exactly when an operation meets the guard with such an item at the front. */
  lemma {:induction false} EvictedIff(capacity: nat, trace: seq<Op>, kind: NotificationClass)
    ensures Shape(Run(capacity, trace), LogOf(capacity, trace))
    ensures SomeEvicted(LogOf(capacity, trace), kind) <==> FrontEvicted(capacity, trace, kind)
  {
    HistoryShape(capacity, trace);
    if trace != [] {
      var before, op := trace[..|trace| - 1], trace[|trace| - 1];
      HistoryShape(capacity, before);
      EvictedIff(capacity, before, kind);
      assert before + [op] == trace;
      EvictedIffStep(capacity, before, op, kind);
    }
  }

  /** Nothing admitted is lost exactly when no Drop-class enqueue meets an open, non-empty queue at capacity. */
  lemma NothingAdmittedIsLostIff(capacity: nat, trace: seq<Op>)
    ensures var log := LogOf(capacity, trace);
            && Explains(capacity, Run(capacity, trace), log)
            && (Received(capacity, trace) + Run(capacity, trace).items == Admitted(log, |log.slots|) <==>
                forall t :: 0 <= t < |trace| ==> !EvictsAt(capacity, trace, t))
  {
    DeliveredThenQueued(capacity, trace);
    var log := LogOf(capacity, trace);
    SurvivorsCount(log, |log.slots|);
    if i :| 0 <= i < |log.fates| && log.fates[i].Evicted? {
      EvictedIff(capacity, trace, log.slots[i].values[0].kind);
    }
    if t :| 0 <= t < |trace| && EvictsAt(capacity, trace, t) {
      EvictedIff(capacity, trace, Run(capacity, trace[..t]).items[0].kind);
    }
  }

  /** A MustDeliver admission is lost exactly when such an enqueue finds a MustDeliver item at the front. */
  lemma MustDeliverIsLostIff(capacity: nat, trace: seq<Op>)
    ensures var log := LogOf(capacity, trace);
            && Explains(capacity, Run(capacity, trace), log)
            && ((exists i :: 0 <= i < |log.fates| && log.fates[i].Evicted? && log.slots[i].values[0].kind == MustDeliver) <==>
                exists t :: 0 <= t < |trace| && EvictsAt(capacity, trace, t) && Run(capacity, trace[..t]).items[0].kind == MustDeliver)
  {
    EveryHistoryExplained(capacity, trace);
    EvictedIff(capacity, trace, MustDeliver);
  }

  /**
   * A history without Drop-class enqueues loses nothing it admitted. Production notifications are all Coalesce or
   * MustDeliver, so there every admitted MustDeliver item is delivered or still queued.
   */
  lemma NothingAdmittedIsLostWithoutDrop(capacity: nat, trace: seq<Op>)
    requires forall t :: 0 <= t < |trace| && trace[t].Enqueue? ==> trace[t].item.kind != Drop
    ensures var log := LogOf(capacity, trace);
            && Explains(capacity, Run(capacity, trace), log)
            && Received(capacity, trace) + Run(capacity, trace).items == Admitted(log, |log.slots|)
  {
    NothingAdmittedIsLostIff(capacity, trace);
  }

  /** The guard can be met with a MustDeliver item at the front: capacity one, a MustDeliver item, then a Drop-class one. */
  lemma MustDeliverCanBeEvicted(must: Item, drop: Item)
    requires must.kind == MustDeliver && drop.kind == Drop
    ensures var trace := [Enqueue(must), Enqueue(drop), Receive];
            Received(1, trace) == [drop] && Run(1, trace).items == []
  {
    var a: seq<Op> := [Enqueue(must)];
    var b := a + [Enqueue(drop)];
    var c := b + [Receive];
    assert Run(1, a) == QueueState([must], false) && Received(1, a) == [] by {
      RunSnoc(1, [], Enqueue(must));
      assert [] + [Enqueue(must)] == a;
    }
    assert Run(1, b) == QueueState([drop], false) && Received(1, b) == [] by {
      RunSnoc(1, a, Enqueue(drop));
    }
    assert Run(1, c) == QueueState([], false) && Received(1, c) == [drop] by {
      RunSnoc(1, b, Receive);
    }
    assert c == [Enqueue(must), Enqueue(drop), Receive];
  }

  /** The length bound is the capacity exactly when the capacity is at least one. */
  lemma CapacityIsTheBound(capacity: nat)
    ensures capacity >= 1 <==> forall trace :: |Run(capacity, trace).items| <= capacity
  {
    forall trace ensures |Run(capacity, trace).items| <= (if capacity == 0 then 1 else capacity) {
      EveryHistoryExplained(capacity, trace);
    }
    if capacity == 0 {
      var item := Item(Drop, 0, 0);
      RunSnoc(0, [], Enqueue(item));
      assert |Run(0, [] + [Enqueue(item)]).items| == 1;
    }
  }

  // ---------------------------------------------------------------- the queue object

  datatype RecvOutcome = Got(item: Item) | Ended | MustWait

  /**
   * The queue as an object. The two `async` operations are given by one pass of their retry loop, which is one
   * critical section; the loops and the wake-ups between passes are modelled in QueueWakeups.
   */
  class NotificationQueue {
    const capacity: nat
    var items: seq<Item>
    var closed: bool
    ghost var log: Log

    ghost function State(): (r: QueueState)
      reads this
    {
      QueueState(items, closed)
    }

    ghost predicate Valid()
      reads this
    {
      Explains(capacity, State(), log)
    }

    constructor (capacity: nat)
      ensures Valid() && this.capacity == capacity && State() == EMPTY_QUEUE && log == EMPTY_LOG
    {
      this.capacity := capacity;
      items, closed, log := [], false, EMPTY_LOG;
      new;
      EmptyExplained(capacity);
    }

    /** Records the critical section `op`, whose effect on the fields is already known to follow `Apply`. */
    ghost method Record(before: QueueState, op: Op)
      requires Explains(capacity, before, log) && State() == Apply(capacity, before, op)
      modifies this`log
      ensures Valid() && log.trace == old(log.trace) + [op]
    {
      StepExplained(capacity, before, log, op);
      log := LogStep(capacity, before, log, op);
    }

    method EnqueueCoalesce(key: string, item: Item)
      requires Valid() && item.kind == Coalesce(key)
      modifies this
      ensures Valid() && log.trace == old(log.trace) + [Enqueue(item)]
      ensures State() == Apply(capacity, old(State()), Enqueue(item))
    {
      ghost var before := State();
      if !closed {
        var i := 0;
        while i < |items| && items[i].kind != Coalesce(key)
          invariant 0 <= i <= |items|
          invariant forall j :: 0 <= j < i ==> items[j].kind != Coalesce(key)
        {
          i := i + 1;
        }
        assert DistinctKeys(items);
        if i < |items| {
          items := items[i := item];
        } else if |items| < capacity {
          items := items + [item];
        }
      }
      Record(before, Enqueue(item));
    }

    method EnqueueDrop(item: Item)
      requires Valid() && item.kind == Drop
      modifies this
      ensures Valid() && log.trace == old(log.trace) + [Enqueue(item)]
      ensures State() == Apply(capacity, old(State()), Enqueue(item))
    {
      ghost var before := State();
      if !closed {
        if |items| >= capacity && |items| > 0 {
          items := items[1..];
        }
        items := items + [item];
      }
      Record(before, Enqueue(item));
    }

    /** One pass of the producer's loop; `parked` tells that the caller has to wait for space. */
    method TryEnqueueMustDeliver(item: Item) returns (parked: bool)
      requires Valid() && item.kind == MustDeliver
      modifies this
      ensures Valid() && log.trace == old(log.trace) + [Enqueue(item)]
      ensures State() == Apply(capacity, old(State()), Enqueue(item))
      ensures parked <==> !old(closed) && |old(items)| >= capacity
      ensures !parked && !old(closed) ==> items == old(items) + [item]
    {
      ghost var before := State();
      parked := false;
      if !closed {
        if |items| < capacity {
          items := items + [item];
        } else {
          parked := true;
        }
      }
      Record(before, Enqueue(item));
    }

    /** One pass of the consumer's loop. */
    method TryRecv() returns (r: RecvOutcome)
      requires Valid()
      modifies this
      ensures Valid() && log.trace == old(log.trace) + [Receive]
      ensures State() == Apply(capacity, old(State()), Receive)
      ensures match r
              case Got(item) => old(items) == [item] + items
              case Ended => old(items) == [] && closed
              case MustWait => old(items) == [] && !closed
    {
      ghost var before := State();
      if |items| > 0 {
        r := Got(items[0]);
        items := items[1..];
      } else if closed {
        r := Ended;
      } else {
        r := MustWait;
      }
      Record(before, Receive);
    }

    method Close()
      requires Valid()
      modifies this
      ensures Valid() && log.trace == old(log.trace) + [Op.Close]
      ensures closed && items == old(items)
    {
      ghost var before := State();
      closed := true;
      Record(before, Op.Close);
    }
  }
}
