/**
 * Notifications across crashes (crates/app/src/service_client.rs:3165-3390, crates/app/src/update.rs:265-278), on
 * top of the supervision protocol and of the notification queue. A reader of generation g checks that g is still
 * current, stamps g on what it read and enqueues it; the UI takes an item, compares its stamp with the current
 * generation and applies it. Everything in between can interleave with crashes, except that a reader's check and
 * the Coalesce enqueue that follows it without waiting are one step.
 */
module GenerationSafety {
  import opened Wrappers
  import opened NotificationQueues
  import opened Supervisor

  /** What the UI is doing with the item it took. */
  datatype UiPc = Waiting | Holding(item: Item) | Cleared(item: Item)

  datatype Feed = Feed(
    client: Client,
    queue: QueueState,
    readers: map<nat, Item>,  // per generation: the MustDeliver item its reader has checked and not enqueued yet
    ui: UiPc,
    applied: seq<Item>)

  const QUIET := Feed(START, EMPTY_QUEUE, map[], Waiting, [])

  datatype FeedAct =
    | Lifecycle(act: Act)
    | ReadCoalesce(generation: nat, key: string, payload: nat)
    | ReadMustDeliver(generation: nat, payload: nat)
    | PushMustDeliver(generation: nat)   // one pass of the parked reader's loop
    | AbortReader(generation: nat)
    | UiTake
    | UiCheck(connected: bool)           // `connected`: the UI holds a client to ask
    | UiApply
    | CloseFeed

  predicate Possible(f: Feed, a: FeedAct) {
    match a
    case Lifecycle(act) => Supervisor.Enabled(f.client, act)
    case ReadCoalesce(g, _, _) => g !in f.readers
    case ReadMustDeliver(g, _) => g !in f.readers
    case PushMustDeliver(g) => g in f.readers
    case AbortReader(g) => g in f.readers
    case UiTake => f.ui == Waiting && f.queue.items != []
    case UiCheck(_) => f.ui.Holding?
    case UiApply => f.ui.Cleared?
    case CloseFeed => true
  }

  /** `reader_should_enqueue`. */
  predicate ReaderShouldEnqueue(captured: nat, live: nat) {
    captured == live
  }

  /** `notification_generation_should_dispatch`; every production notification carries a tag. */
  predicate ShouldDispatch(tagged: nat, live: nat) {
    tagged == live
  }

  function Move(capacity: nat, f: Feed, a: FeedAct): (r: Feed)
    requires Possible(f, a)
  {
    match a
    case Lifecycle(act) => f.(client := Supervisor.Step(f.client, act))
    case ReadCoalesce(g, key, payload) =>
      if ReaderShouldEnqueue(g, f.client.current)
      then f.(queue := Apply(capacity, f.queue, Enqueue(Item(Coalesce(key), g, payload))))
      else f
    case ReadMustDeliver(g, payload) =>
      if ReaderShouldEnqueue(g, f.client.current)
      then f.(readers := f.readers[g := Item(MustDeliver, g, payload)])
      else f
    case PushMustDeliver(g) =>
      var done := f.queue.closed || |f.queue.items| < capacity;
      f.(queue := Apply(capacity, f.queue, Enqueue(f.readers[g])),
         readers := if done then f.readers - {g} else f.readers)
    case AbortReader(g) => f.(readers := f.readers - {g})
    case UiTake => f.(queue := Apply(capacity, f.queue, Receive), ui := Holding(f.queue.items[0]))
    case UiCheck(connected) =>
      f.(ui := if connected && ShouldDispatch(f.ui.item.generation, f.client.current) then Cleared(f.ui.item) else Waiting)
    case UiApply => f.(applied := f.applied + [f.ui.item], ui := Waiting)
    case CloseFeed => f.(queue := Apply(capacity, f.queue, Close))
  }

  // ---------------------------------------------------------------- invariant

  /** No tag runs ahead of the current generation. */
  ghost predicate TagsBounded(f: Feed) {
    && (forall i :: 0 <= i < |f.queue.items| ==> f.queue.items[i].generation <= f.client.current)
    && (forall g :: g in f.readers ==> f.readers[g].generation == g <= f.client.current && f.readers[g].kind == MustDeliver)
    && (f.ui != Waiting ==> f.ui.item.generation <= f.client.current)
  }

  ghost predicate FeedInv(capacity: nat, f: Feed) {
    && Supervisor.Inv(f.client) && TagsBounded(f) && DistinctKeys(f.queue.items)
    && |f.queue.items| <= (if capacity == 0 then 1 else capacity)
  }

  /** An operation on the queue brings in no tag but that of the item it enqueues. */
  lemma ApplyTags(capacity: nat, q: QueueState, op: Op, bound: nat)
    requires forall i :: 0 <= i < |q.items| ==> q.items[i].generation <= bound
    requires op.Enqueue? ==> op.item.generation <= bound
    ensures forall i :: 0 <= i < |Apply(capacity, q, op).items| ==> Apply(capacity, q, op).items[i].generation <= bound
  {
  }

  /** The queue operation of a step, if any. */
  function OpOf(f: Feed, a: FeedAct): (r: Option<Op>)
    requires Possible(f, a)
  {
    match a
    case ReadCoalesce(g, key, payload) =>
      if ReaderShouldEnqueue(g, f.client.current) then Some(Enqueue(Item(Coalesce(key), g, payload))) else None
    case PushMustDeliver(g) => Some(Enqueue(f.readers[g]))
    case UiTake => Some(Receive)
    case CloseFeed => Some(Close)
    case _ => None
  }

  lemma MoveQueue(capacity: nat, f: Feed, a: FeedAct)
    requires Possible(f, a)
    ensures Move(capacity, f, a).queue == if OpOf(f, a).Some? then Apply(capacity, f.queue, OpOf(f, a).value) else f.queue
    ensures !a.Lifecycle? ==> Move(capacity, f, a).client == f.client
  {
  }

  lemma MoveTags(capacity: nat, f: Feed, a: FeedAct)
    requires Possible(f, a) && TagsBounded(f) && Generations(f.client)
    ensures TagsBounded(Move(capacity, f, a)) && f.client.current <= Move(capacity, f, a).client.current
  {
    MoveQueue(capacity, f, a);
    if a.Lifecycle? {
      GenerationGrows(f.client, a.act);
    } else if OpOf(f, a).Some? {
      ApplyTags(capacity, f.queue, OpOf(f, a).value, f.client.current);
    }
  }

  lemma MoveInv(capacity: nat, f: Feed, a: FeedAct)
    requires Possible(f, a) && FeedInv(capacity, f)
    ensures FeedInv(capacity, Move(capacity, f, a))
  {
    MoveTags(capacity, f, a);
    MoveQueue(capacity, f, a);
    if a.Lifecycle? {
      StepInv(f.client, a.act);
    }
    if OpOf(f, a).Some? {
      StepItems(capacity, f.queue, OpOf(f, a).value);
    }
  }

  // ---------------------------------------------------------------- coalesce slots only get fresher

  /** The tag of the slot that holds `key`. */
  function SlotTag(items: seq<Item>, key: string): (r: Option<nat>) {
    match SlotOf(items, key)
    case None => None
    case Some(i) => Some(items[i].generation)
  }

  lemma SlotOfUnique(items: seq<Item>, key: string, i: nat)
    requires DistinctKeys(items) && i < |items| && items[i].kind == Coalesce(key)
    ensures SlotOf(items, key) == Some(i)
  {
  }

  lemma ApplySlotTag(capacity: nat, q: QueueState, op: Op, key: string, bound: nat)
    requires DistinctKeys(q.items) && DistinctKeys(Apply(capacity, q, op).items)
    requires forall i :: 0 <= i < |q.items| ==> q.items[i].generation <= bound
    requires op.Enqueue? && op.item.kind.Coalesce? ==> op.item.generation == bound
    requires SlotTag(q.items, key).Some? && SlotTag(Apply(capacity, q, op).items, key).Some?
    ensures SlotTag(Apply(capacity, q, op).items, key).value >= SlotTag(q.items, key).value
  {
    var items, items' := q.items, Apply(capacity, q, op).items;
    var i := SlotOf(items, key).value;
    if op.Receive? && items != [] && i > 0 {
      assert items'[i - 1] == items[i];
      SlotOfUnique(items', key, i - 1);
    } else if op.Enqueue? && !q.closed && op.item.kind.Drop? && |items| >= capacity && items != [] && i > 0 {
      assert items'[i - 1] == items[i];
      SlotOfUnique(items', key, i - 1);
    } else if op.Enqueue? && !q.closed && op.item.kind != Coalesce(key) && !op.item.kind.Drop? {
      assert items'[i] == items[i];
      SlotOfUnique(items', key, i);
    }
  }

  /** While a key has a slot, the tag on the slot never goes down. */
  lemma CoalesceTagNeverGoesDown(capacity: nat, f: Feed, a: FeedAct, key: string)
    requires Possible(f, a) && FeedInv(capacity, f)
    requires SlotTag(f.queue.items, key).Some? && SlotTag(Move(capacity, f, a).queue.items, key).Some?
    ensures SlotTag(Move(capacity, f, a).queue.items, key).value >= SlotTag(f.queue.items, key).value
  {
    MoveInv(capacity, f, a);
    MoveQueue(capacity, f, a);
    if OpOf(f, a).Some? {
      ApplySlotTag(capacity, f.queue, OpOf(f, a).value, key, f.client.current);
    }
  }

  // ---------------------------------------------------------------- whole runs

  predicate FeedLegal(capacity: nat, f: Feed, acts: seq<FeedAct>)
    decreases acts
  {
    acts == [] || (Possible(f, acts[0]) && FeedLegal(capacity, Move(capacity, f, acts[0]), acts[1..]))
  }

  function FeedAfter(capacity: nat, f: Feed, acts: seq<FeedAct>): (r: Feed)
    requires FeedLegal(capacity, f, acts)
    decreases acts
  {
    if acts == [] then f else FeedAfter(capacity, Move(capacity, f, acts[0]), acts[1..])
  }

  lemma {:induction false} FeedRunInv(capacity: nat, f: Feed, acts: seq<FeedAct>)
    requires FeedInv(capacity, f) && FeedLegal(capacity, f, acts)
    ensures FeedInv(capacity, FeedAfter(capacity, f, acts))
    ensures f.applied <= FeedAfter(capacity, f, acts).applied
    decreases acts
  {
    if acts != [] {
      MoveInv(capacity, f, acts[0]);
      FeedRunInv(capacity, Move(capacity, f, acts[0]), acts[1..]);
    }
  }

  /** With `g` generations gone and none of their items past the UI's check, none is applied any more. */
  lemma {:induction false} NothingStaleFrom(capacity: nat, f: Feed, acts: seq<FeedAct>, g: nat)
    requires FeedInv(capacity, f) && FeedLegal(capacity, f, acts) && g <= f.client.current
    requires f.ui.Cleared? ==> f.ui.item.generation >= g
    ensures f.applied <= FeedAfter(capacity, f, acts).applied
    ensures var end := FeedAfter(capacity, f, acts).applied;
            forall i :: |f.applied| <= i < |end| ==> end[i].generation >= g
    decreases acts
  {
    if acts != [] {
      var f' := Move(capacity, f, acts[0]);
      MoveInv(capacity, f, acts[0]);
      MoveTags(capacity, f, acts[0]);
      NothingStaleFrom(capacity, f', acts[1..], g);
    }
  }

  /**
   * Generation safety. Take any reachable moment, for instance the one right after `handle_crash` raised the current
   * generation. Whatever is still queued, parked in a reader or held by the UI, from then on the UI applies nothing
   * tagged by an older reader, except the one item whose check it had already passed.
   */
  lemma StaleNeverApplied(capacity: nat, past: seq<FeedAct>, acts: seq<FeedAct>)
    requires FeedLegal(capacity, QUIET, past) && FeedLegal(capacity, FeedAfter(capacity, QUIET, past), acts)
    ensures var f := FeedAfter(capacity, QUIET, past);
            var end := FeedAfter(capacity, f, acts).applied;
            && f.applied <= end
            && forall i :: |f.applied| <= i < |end| && end[i].generation < f.client.current ==>
                 i == |f.applied| && f.ui == Cleared(end[i])
  {
    Supervisor.StartInv();
    FeedRunInv(capacity, QUIET, past);
    StaleOnlyIfCleared(capacity, FeedAfter(capacity, QUIET, past), acts, FeedAfter(capacity, QUIET, past).client.current);
  }

  lemma {:induction false} StaleOnlyIfCleared(capacity: nat, f: Feed, acts: seq<FeedAct>, g: nat)
    requires FeedInv(capacity, f) && FeedLegal(capacity, f, acts) && g <= f.client.current
    ensures f.applied <= FeedAfter(capacity, f, acts).applied
    ensures var end := FeedAfter(capacity, f, acts).applied;
            forall i :: |f.applied| <= i < |end| && end[i].generation < g ==> i == |f.applied| && f.ui == Cleared(end[i])
    decreases acts
  {
    if acts == [] {
    } else if f.ui.Cleared? {
      var f' := Move(capacity, f, acts[0]);
      MoveInv(capacity, f, acts[0]);
      MoveTags(capacity, f, acts[0]);
      if acts[0] == UiApply {
        NothingStaleFrom(capacity, f', acts[1..], g);
        assert FeedAfter(capacity, f', acts[1..]).applied[|f.applied|] == f'.applied[|f.applied|];
      } else {
        StaleOnlyIfCleared(capacity, f', acts[1..], g);
      }
    } else {
      NothingStaleFrom(capacity, f, acts, g);
    }
  }

  /** The run goes on from `f` and applies an item of a generation already gone. */
  ghost predicate AppliesStale(capacity: nat, f: Feed, acts: seq<FeedAct>) {
    FeedLegal(capacity, f, acts) &&
    exists i :: |f.applied| <= i < |FeedAfter(capacity, f, acts).applied|
                && FeedAfter(capacity, f, acts).applied[i].generation < f.client.current
  }

  /** Something stale can still be applied exactly when the UI holds a stale item whose check it has already passed. */
  lemma StaleAppliedIff(capacity: nat, f: Feed)
    requires FeedInv(capacity, f)
    ensures (exists acts :: AppliesStale(capacity, f, acts)) <==>
            f.ui.Cleared? && f.ui.item.generation < f.client.current
  {
    if acts :| AppliesStale(capacity, f, acts) {
      StaleOnlyIfCleared(capacity, f, acts, f.client.current);
    }
    if f.ui.Cleared? && f.ui.item.generation < f.client.current {
      var end := Move(capacity, f, UiApply);
      OneStep(capacity, f, UiApply);
      assert end.applied[|f.applied|] == f.ui.item;
      assert AppliesStale(capacity, f, [UiApply]);
    }
  }

  lemma OneStep(capacity: nat, f: Feed, a: FeedAct)
    requires Possible(f, a)
    ensures FeedLegal(capacity, f, [a]) && FeedAfter(capacity, f, [a]) == Move(capacity, f, a)
  {
    Prepended(capacity, f, a, Move(capacity, f, a), [], Move(capacity, f, a));
    assert [a] + [] == [a];
  }

  /** One step in front of a run. */
  lemma Prepended(capacity: nat, f: Feed, a: FeedAct, next: Feed, rest: seq<FeedAct>, end: Feed)
    requires Possible(f, a) && Move(capacity, f, a) == next
    requires FeedLegal(capacity, next, rest) && FeedAfter(capacity, next, rest) == end
    ensures FeedLegal(capacity, f, [a] + rest) && FeedAfter(capacity, f, [a] + rest) == end
  {
    assert ([a] + rest)[1..] == rest;
  }

  lemma {:induction false} Appended(capacity: nat, f: Feed, a: seq<FeedAct>, b: seq<FeedAct>)
    requires FeedLegal(capacity, f, a) && FeedLegal(capacity, FeedAfter(capacity, f, a), b)
    ensures FeedLegal(capacity, f, a + b)
    ensures FeedAfter(capacity, f, a + b) == FeedAfter(capacity, FeedAfter(capacity, f, a), b)
    decreases a
  {
    if a == [] {
      assert a + b == b;
    } else {
      Appended(capacity, Move(capacity, f, a[0]), a[1..], b);
      assert (a + b)[1..] == a[1..] + b;
    }
  }

  // ---------------------------------------------------------------- a stale item that is applied

  const GOES_WELL := Choice(None, true, Answer(7))
  const BOOT_GOES_WELL := Lifecycle(Boot(GOES_WELL))

  /** The first boot, from launch to ChildSpawned and from there to BootReady. */
  const SPAWNS: seq<FeedAct> := [BOOT_GOES_WELL, BOOT_GOES_WELL, BOOT_GOES_WELL, BOOT_GOES_WELL]
  const GETS_READY: seq<FeedAct> := [BOOT_GOES_WELL, BOOT_GOES_WELL, BOOT_GOES_WELL]

  /** A notification is read, taken and passes the check. */
  const PASSES_THE_CHECK: seq<FeedAct> := [ReadCoalesce(1, "boot", 0), UiTake, UiCheck(true)]

  /** The reader reports a crash and the handler runs up to the raised generation. */
  const CRASHES: seq<FeedAct> := [
    Lifecycle(Trigger(1)), Lifecycle(Handle(0, GOES_WELL)), Lifecycle(Handle(0, GOES_WELL)),
    Lifecycle(Handle(0, GOES_WELL)), Lifecycle(Handle(0, GOES_WELL))]

  function BootedClient(): (r: Client) {
    START.(state := Some(1), baseline := Some(7), boot := BootSucceeded,
           log := [Launch(1), Install(1), Emit(ChildSpawned), Emit(BootReady(7))])
  }

  function SpawnedClient(): (r: Client) {
    START.(state := Some(1), boot := BootAwaitingReady, log := [Launch(1), Install(1), Emit(ChildSpawned)])
  }

  lemma SpawnRun(capacity: nat)
    ensures FeedLegal(capacity, QUIET, SPAWNS)
    ensures FeedAfter(capacity, QUIET, SPAWNS) == QUIET.(client := SpawnedClient())
  {
    var go := BOOT_GOES_WELL;
    var s1 := QUIET.(client := START.(boot := BootLaunched, log := [Launch(1)]));
    var s2 := QUIET.(client := START.(state := Some(1), boot := BootPinging, log := [Launch(1), Install(1)]));
    var s3 := QUIET.(client := START.(state := Some(1), boot := BootGreeting, log := [Launch(1), Install(1)]));
    var end := QUIET.(client := SpawnedClient());
    OneStep(capacity, s3, go);
    Prepended(capacity, s2, go, s3, [go], end);
    Prepended(capacity, s1, go, s2, [go, go], end);
    Prepended(capacity, QUIET, go, s1, [go, go, go], end);
  }

  lemma ReadyRun(capacity: nat)
    ensures FeedLegal(capacity, QUIET.(client := SpawnedClient()), GETS_READY)
    ensures FeedAfter(capacity, QUIET.(client := SpawnedClient()), GETS_READY) == QUIET.(client := BootedClient())
  {
    var go := BOOT_GOES_WELL;
    var s4 := QUIET.(client := SpawnedClient());
    var s5 := QUIET.(client := SpawnedClient().(boot := BootStoring(7)));
    var s6 := QUIET.(client := SpawnedClient().(baseline := Some(7), boot := BootReporting(7)));
    var end := QUIET.(client := BootedClient());
    OneStep(capacity, s6, go);
    Prepended(capacity, s5, go, s6, [go], end);
    Prepended(capacity, s4, go, s5, [go, go], end);
  }

  lemma CheckRun(capacity: nat, f: Feed)
    requires capacity >= 1 && f.queue == EMPTY_QUEUE && f.readers == map[] && f.ui == Waiting && f.client.current == 1
    ensures FeedLegal(capacity, f, PASSES_THE_CHECK)
    ensures FeedAfter(capacity, f, PASSES_THE_CHECK) == f.(ui := Cleared(Item(Coalesce("boot"), 1, 0)))
  {
    var item := Item(Coalesce("boot"), 1, 0);
    var f1 := f.(queue := QueueState([item], false));
    var f2 := f.(ui := Holding(item));
    var end := f.(ui := Cleared(item));
    OneStep(capacity, f2, UiCheck(true));
    Prepended(capacity, f1, UiTake, f2, [UiCheck(true)], end);
    Prepended(capacity, f, ReadCoalesce(1, "boot", 0), f1, [UiTake, UiCheck(true)], end);
  }

  lemma CrashRun(capacity: nat, f: Feed)
    requires f.client == BootedClient()
    ensures FeedLegal(capacity, f, CRASHES)
    ensures FeedAfter(capacity, f, CRASHES) == f.(client := BootedClient().(state := None, current := 2, handlers := [Bumped(1)]))
  {
    var go := Lifecycle(Handle(0, GOES_WELL));
    var c := f.client;
    var f1 := f.(client := c.(handlers := [Entered(1)]));
    var f2 := f.(client := c.(handlers := [NotShutting(1)]));
    var f3 := f.(client := c.(handlers := [Booted(1)]));
    var f4 := f.(client := c.(state := None, handlers := [Taken(1)]));
    var end := f.(client := c.(state := None, current := 2, handlers := [Bumped(1)]));
    OneStep(capacity, f4, go);
    Prepended(capacity, f3, go, f4, [go], end);
    Prepended(capacity, f2, go, f3, [go, go], end);
    Prepended(capacity, f1, go, f2, [go, go, go], end);
    Prepended(capacity, f, Lifecycle(Trigger(1)), f1, [go, go, go, go], end);
  }

  /** A legal run in which it happens: checked against generation 1, applied once generation 2 is current. */
  lemma StaleItemIsApplied(capacity: nat)
    requires capacity >= 1
    ensures var past := SPAWNS + GETS_READY + PASSES_THE_CHECK + CRASHES;
            && FeedLegal(capacity, QUIET, past)
            && FeedAfter(capacity, QUIET, past).client.current == 2
            && AppliesStale(capacity, FeedAfter(capacity, QUIET, past), [UiApply])
  {
    SpawnRun(capacity);
    ReadyRun(capacity);
    Appended(capacity, QUIET, SPAWNS, GETS_READY);
    var booted := QUIET.(client := BootedClient());
    CheckRun(capacity, booted);
    Appended(capacity, QUIET, SPAWNS + GETS_READY, PASSES_THE_CHECK);
    var passed := booted.(ui := Cleared(Item(Coalesce("boot"), 1, 0)));
    CrashRun(capacity, passed);
    Appended(capacity, QUIET, SPAWNS + GETS_READY + PASSES_THE_CHECK, CRASHES);
    var f := passed.(client := BootedClient().(state := None, current := 2, handlers := [Bumped(1)]));
    var end := Move(capacity, f, UiApply);
    OneStep(capacity, f, UiApply);
    assert end.applied[0] == Item(Coalesce("boot"), 1, 0);
  }
}
