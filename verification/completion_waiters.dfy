/**
 * The completion rendezvous (crates/app/src/service_client.rs:164-330, 1857-2098): waiters for a run's completion
 * and the reader that routes completions meet in a map, in either order. Sync runs, calendar runs and calendar
 * action plans each have their own map with the same protocol.
 *
 * `subscribe_or_consume` is two critical sections, the sweep and the lookup, and time may pass between them.
 */
module CompletionWaiters {
  import opened Wrappers

  const LATCHED_COMPLETED_TTL: nat := 30_000

  /** A broadcast sender, by the number of its channel, or a result that came before any waiter. */
  datatype Entry = Pending(channel: nat) | Completed(result: nat, latchedAt: nat)

  // ---------------------------------------------------------------- the critical sections

  predicate Retained(entry: Entry, now: nat) {
    entry.Completed? ==> now < entry.latchedAt + LATCHED_COMPLETED_TTL
  }

  function Swept(entries: map<nat, Entry>, now: nat): (r: map<nat, Entry>) {
    map run | run in entries && Retained(entries[run], now) :: entries[run]
  }

  /** The map after a lookup: a latched result is taken out, a first waiter puts its channel in. */
  function Looked(entries: map<nat, Entry>, run: nat, channel: nat): (r: map<nat, Entry>) {
    if run !in entries then entries[run := Pending(channel)]
    else if entries[run].Completed? then entries - {run}
    else entries
  }

  /** The map after a route: waiters' channel goes, or the result is latched unless one already is. */
  function Routed(entries: map<nat, Entry>, now: nat, run: nat, result: nat): (r: map<nat, Entry>) {
    var kept := Swept(entries, now);
    if run !in kept then kept[run := Completed(result, now)]
    else if kept[run].Pending? then kept - {run}
    else kept
  }

  /** What a lookup tells the subscriber. */
  datatype Subscription = Consumed(result: nat) | Listen(channel: nat)

  /** The map as an object; `nextChannel` numbers the broadcast channels. */
  class PendingRuns {
    var entries: map<nat, Entry>
    var nextChannel: nat

    constructor ()
      ensures entries == map[] && nextChannel == 0
    {
      entries, nextChannel := map[], 0;
    }

    method SweepLatched(now: nat)
      modifies this`entries
      ensures entries == Swept(old(entries), now)
      ensures forall run :: run in entries ==> Retained(entries[run], now)
    {
      entries := map run | run in entries && Retained(entries[run], now) :: entries[run];
    }

    method SubscribeOrConsume(run: nat) returns (s: Subscription)
      modifies this
      ensures entries == Looked(old(entries), run, old(nextChannel)) && nextChannel >= old(nextChannel)
      ensures match s
              case Consumed(result) =>
                run in old(entries) && old(entries)[run].Completed? && old(entries)[run].result == result && run !in entries
              case Listen(channel) => run in entries && entries[run] == Pending(channel)
      ensures s.Listen? && run !in old(entries) ==> s.channel == old(nextChannel) < nextChannel
    {
      if run in entries {
        match entries[run]
        case Completed(result, _) =>
          s := Consumed(result);
          entries := entries - {run};
        case Pending(channel) => s := Listen(channel);
      } else {
        s := Listen(nextChannel);
        entries := entries[run := Pending(nextChannel)];
        nextChannel := nextChannel + 1;
      }
    }

    /** `sent` is the channel the result was broadcast on, if there was one. */
    method Route(now: nat, run: nat, result: nat) returns (sent: Option<nat>)
      modifies this`entries
      ensures entries == Routed(old(entries), now, run, result)
      ensures sent == if run in old(entries) && old(entries)[run].Pending? then Some(old(entries)[run].channel) else None
    {
      sent := None;
      entries := map r | r in entries && Retained(entries[r], now) :: entries[r];
      if run !in entries {
        entries := entries[run := Completed(result, now)];
      } else if entries[run].Pending? {
        sent := Some(entries[run].channel);
        entries := entries - {run};
      }
    }

    method FailAll()
      modifies this`entries
      ensures entries == map[]
    {
      entries := map[];
    }
  }

  // ---------------------------------------------------------------- subscribers, interleaved

  /** A subscriber; `inbox` and `closed` are its end of the broadcast channel. */
  datatype Subscriber =
    | SweepDone(run: nat, sweptAt: nat)
    | Listening(run: nat, channel: nat, inbox: Option<nat>, closed: bool)
    | Resolved(run: nat, result: nat)
    | Crashed(run: nat)

  /** A completion that was routed, and when. */
  datatype Routing = Routing(run: nat, result: nat, at: nat)

  datatype Hub = Hub(
    now: nat,
    entries: map<nat, Entry>,
    nextChannel: nat,
    subscribers: map<nat, Subscriber>,
    routings: seq<Routing>,   // history: every route so far
    latches: map<nat, nat>,   // history: for a run with a latched result, the route it came from
    handed: seq<nat>)         // history: the routes whose latched result a lookup has taken out

  const EMPTY_HUB := Hub(0, map[], 0, map[], [], map[], [])

  datatype Act =
    | Tick(millis: nat)
    | BeginSubscribe(s: nat, run: nat)
    | LookUp(s: nat)
    | RouteCompletion(run: nat, result: nat)
    | DrainAll                // crash: every sender is dropped, every latched result discarded
    | ReceiveResult(s: nat)
    | DropSubscriber(s: nat)

  predicate CanReceive(subscriber: Subscriber) {
    subscriber.Listening? && (subscriber.inbox.Some? || subscriber.closed)
  }

  predicate Possible(h: Hub, a: Act) {
    match a
    case Tick(_) => true
    case BeginSubscribe(s, _) => s !in h.subscribers
    case LookUp(s) => s in h.subscribers && h.subscribers[s].SweepDone?
    case RouteCompletion(_, _) => true
    case DrainAll => true
    case ReceiveResult(s) => s in h.subscribers && CanReceive(h.subscribers[s])
    case DropSubscriber(s) => s in h.subscribers
  }

  /** `send`, then the sender is dropped: the receivers that exist get the message and see the channel closed. */
  function Broadcast(subscribers: map<nat, Subscriber>, channel: nat, result: nat): (r: map<nat, Subscriber>) {
    map s | s in subscribers ::
      var subscriber := subscribers[s];
      if subscriber.Listening? && subscriber.channel == channel
      then subscriber.(inbox := Some(result), closed := true) else subscriber
  }

  function CloseAll(subscribers: map<nat, Subscriber>): (r: map<nat, Subscriber>) {
    map s | s in subscribers ::
      var subscriber := subscribers[s];
      if subscriber.Listening? then subscriber.(closed := true) else subscriber
  }

  function LookUpStep(h: Hub, s: nat): (r: Hub)
    requires s in h.subscribers && h.subscribers[s].SweepDone?
  {
    var run := h.subscribers[s].run;
    var entries := Looked(h.entries, run, h.nextChannel);
    if run in h.entries && h.entries[run].Completed? then
      var latched := h.entries[run];
      h.(entries := entries, subscribers := h.subscribers[s := Resolved(run, latched.result)],
         handed := if run in h.latches then h.handed + [h.latches[run]] else h.handed)
    else
      var channel := entries[run].channel;
      h.(entries := entries, subscribers := h.subscribers[s := Listening(run, channel, None, false)],
         nextChannel := if run in h.entries then h.nextChannel else h.nextChannel + 1)
  }

  function RouteStep(h: Hub, run: nat, result: nat): (r: Hub) {
    var waiting := run in h.entries && h.entries[run].Pending?;
    var latching := run !in Swept(h.entries, h.now);
    h.(latches := if latching then h.latches[run := |h.routings|] else h.latches,
       entries := Routed(h.entries, h.now, run, result),
       subscribers := if waiting then Broadcast(h.subscribers, h.entries[run].channel, result) else h.subscribers,
       routings := h.routings + [Routing(run, result, h.now)])
  }

  function ReceiveStep(subscriber: Subscriber): (r: Subscriber)
    requires CanReceive(subscriber)
  {
    if subscriber.inbox.Some? then Resolved(subscriber.run, subscriber.inbox.value) else Crashed(subscriber.run)
  }

  function Step(h: Hub, a: Act): (r: Hub)
    requires Possible(h, a)
  {
    match a
    case Tick(millis) => h.(now := h.now + millis)
    case BeginSubscribe(s, run) =>
      h.(entries := Swept(h.entries, h.now), subscribers := h.subscribers[s := SweepDone(run, h.now)])
    case LookUp(s) => LookUpStep(h, s)
    case RouteCompletion(run, result) => RouteStep(h, run, result)
    case DrainAll => h.(entries := map[], subscribers := CloseAll(h.subscribers))
    case ReceiveResult(s) => h.(subscribers := h.subscribers[s := ReceiveStep(h.subscribers[s])])
    case DropSubscriber(s) => h.(subscribers := h.subscribers - {s})
  }

  // ---------------------------------------------------------------- invariant

  ghost predicate WasRouted(h: Hub, run: nat, result: nat) {
    exists i :: 0 <= i < |h.routings| && h.routings[i].run == run && h.routings[i].result == result
  }

  /** An open listener is registered: the entry of its run is its own channel. A result in hand was routed for its run. */
  ghost predicate SubscriberOk(h: Hub, subscriber: Subscriber) {
    match subscriber
    case SweepDone(_, sweptAt) =>
      && sweptAt <= h.now
      && forall run :: run in h.entries ==> Retained(h.entries[run], sweptAt)
    case Listening(run, channel, inbox, closed) =>
      && channel < h.nextChannel
      && (!closed ==> inbox == None && run in h.entries && h.entries[run] == Pending(channel))
      && (inbox.Some? ==> WasRouted(h, run, inbox.value))
    case Resolved(run, result) => WasRouted(h, run, result)
    case Crashed(_) => true
  }

  ghost predicate EntriesOk(h: Hub) {
    && (forall run :: run in h.entries && h.entries[run].Completed? ==>
          && run in h.latches && h.latches[run] < |h.routings| && h.latches[run] !in h.handed
          && h.routings[h.latches[run]] == Routing(run, h.entries[run].result, h.entries[run].latchedAt)
          && h.entries[run].latchedAt <= h.now)
    && (forall i :: 0 <= i < |h.handed| ==> h.handed[i] < |h.routings|)
    && (forall i, j :: 0 <= i < j < |h.handed| ==> h.handed[i] != h.handed[j])
    && (forall run :: run in h.entries && h.entries[run].Pending? ==> h.entries[run].channel < h.nextChannel)
    && (forall r, r' :: r in h.entries && r' in h.entries && h.entries[r].Pending? && h.entries[r] == h.entries[r'] ==> r == r')
  }

  /** A channel in the map has only listeners of its own run, all of them open. */
  ghost predicate ListenersApart(h: Hub) {
    forall s, run ::
      (s in h.subscribers && h.subscribers[s].Listening? && run in h.entries
       && h.entries[run] == Pending(h.subscribers[s].channel))
      ==> run == h.subscribers[s].run && !h.subscribers[s].closed
  }

  ghost predicate Inv(h: Hub) {
    && EntriesOk(h) && ListenersApart(h)
    && forall s :: s in h.subscribers ==> SubscriberOk(h, h.subscribers[s])
  }

  lemma RoutedStays(h: Hub, h': Hub)
    requires h.routings <= h'.routings
    ensures forall run, result :: WasRouted(h, run, result) ==> WasRouted(h', run, result)
  {
    forall run, result | WasRouted(h, run, result) ensures WasRouted(h', run, result) {
      var i :| 0 <= i < |h.routings| && h.routings[i].run == run && h.routings[i].result == result;
      assert h'.routings[i] == h.routings[i];
    }
  }

  lemma StepInv(h: Hub, a: Act)
    requires Inv(h) && Possible(h, a)
    ensures Inv(Step(h, a))
  {
    match a
    case LookUp(s) =>
      LookUpEntries(h, s);
      LookUpListeners(h, s);
      LookUpSubscribers(h, s);
    case RouteCompletion(run, result) =>
      RouteEntries(h, run, result);
      RouteListeners(h, run, result);
      RouteSubscribers(h, run, result);
    case _ =>
      OtherEntries(h, a);
      OtherSubscribers(h, a);
  }

  lemma OtherEntries(h: Hub, a: Act)
    requires EntriesOk(h) && ListenersApart(h) && Possible(h, a) && !a.LookUp? && !a.RouteCompletion?
    ensures EntriesOk(Step(h, a)) && ListenersApart(Step(h, a))
  {
  }

  lemma OtherSubscribers(h: Hub, a: Act)
    requires Inv(h) && Possible(h, a) && !a.LookUp? && !a.RouteCompletion?
    ensures forall s :: s in Step(h, a).subscribers ==> SubscriberOk(Step(h, a), Step(h, a).subscribers[s])
  {
    var h' := Step(h, a);
    RoutedStays(h, h');
    forall s | s in h'.subscribers ensures SubscriberOk(h', h'.subscribers[s]) {
      assert s in h.subscribers ==> SubscriberOk(h, h.subscribers[s]);
    }
  }

  lemma LookUpEntries(h: Hub, s: nat)
    requires EntriesOk(h) && Possible(h, LookUp(s))
    ensures EntriesOk(LookUpStep(h, s))
  {
  }

  lemma LookUpListeners(h: Hub, s: nat)
    requires Inv(h) && Possible(h, LookUp(s))
    ensures ListenersApart(LookUpStep(h, s))
  {
    assert forall t :: t in h.subscribers && h.subscribers[t].Listening? ==> SubscriberOk(h, h.subscribers[t]);
  }

  lemma LookUpSubscribers(h: Hub, s: nat)
    requires Inv(h) && Possible(h, LookUp(s))
    ensures forall t :: t in LookUpStep(h, s).subscribers ==> SubscriberOk(LookUpStep(h, s), LookUpStep(h, s).subscribers[t])
  {
    var h' := LookUpStep(h, s);
    var run := h.subscribers[s].run;
    if run in h.entries && h.entries[run].Completed? {
      assert h'.routings[h.latches[run]].run == run;
      assert WasRouted(h', run, h.entries[run].result);
    }
    RoutedStays(h, h');
    forall t | t in h'.subscribers ensures SubscriberOk(h', h'.subscribers[t]) {
      assert SubscriberOk(h, h.subscribers[t]);
    }
  }

  lemma RouteEntries(h: Hub, run: nat, result: nat)
    requires EntriesOk(h)
    ensures EntriesOk(RouteStep(h, run, result))
  {
    var h' := RouteStep(h, run, result);
    assert h'.routings[|h.routings|] == Routing(run, result, h.now);
    assert h'.routings[..|h.routings|] == h.routings;
  }

  lemma RouteListeners(h: Hub, run: nat, result: nat)
    requires EntriesOk(h) && ListenersApart(h)
    ensures ListenersApart(RouteStep(h, run, result))
  {
  }

  lemma RouteSubscribers(h: Hub, run: nat, result: nat)
    requires Inv(h)
    ensures forall t :: t in RouteStep(h, run, result).subscribers ==>
              SubscriberOk(RouteStep(h, run, result), RouteStep(h, run, result).subscribers[t])
  {
    var h' := RouteStep(h, run, result);
    RoutedStays(h, h');
    assert h'.routings[|h.routings|] == Routing(run, result, h.now);
    assert WasRouted(h', run, result);
    forall t | t in h'.subscribers ensures SubscriberOk(h', h'.subscribers[t]) {
      assert SubscriberOk(h, h.subscribers[t]);
    }
  }

  // ---------------------------------------------------------------- whole runs

  predicate Legal(h: Hub, acts: seq<Act>)
    decreases acts
  {
    acts == [] || (Possible(h, acts[0]) && Legal(Step(h, acts[0]), acts[1..]))
  }

  function After(h: Hub, acts: seq<Act>): (r: Hub)
    requires Legal(h, acts)
    decreases acts
  {
    if acts == [] then h else After(Step(h, acts[0]), acts[1..])
  }

  lemma {:induction false} RunInv(h: Hub, acts: seq<Act>)
    requires Inv(h) && Legal(h, acts)
    ensures Inv(After(h, acts))
    decreases acts
  {
    if acts != [] {
      StepInv(h, acts[0]);
      RunInv(Step(h, acts[0]), acts[1..]);
    }
  }

  /**
   * A subscriber only ever gets a result routed for its own run, and each routed result is taken out of the latch
   * by one late subscriber at most.
   */
  lemma OwnResultHandedOnce(acts: seq<Act>)
    requires Legal(EMPTY_HUB, acts)
    ensures var h := After(EMPTY_HUB, acts);
            && (forall s :: s in h.subscribers && h.subscribers[s].Resolved? ==>
                  WasRouted(h, h.subscribers[s].run, h.subscribers[s].result))
            && (forall i, j :: 0 <= i < j < |h.handed| ==> h.handed[i] != h.handed[j])
  {
    RunInv(EMPTY_HUB, acts);
    var h := After(EMPTY_HUB, acts);
    forall s | s in h.subscribers && h.subscribers[s].Resolved?
      ensures WasRouted(h, h.subscribers[s].run, h.subscribers[s].result)
    {
      assert SubscriberOk(h, h.subscribers[s]);
    }
  }

  /** Registered, with nothing received and the channel open. */
  predicate Registered(h: Hub, s: nat, run: nat) {
    s in h.subscribers && h.subscribers[s].Listening? && h.subscribers[s].run == run && !h.subscribers[s].closed
  }

  /** Steps that neither end the wait of `s` for `run` nor complete it. */
  predicate Leaves(a: Act, s: nat, run: nat) {
    && a != DrainAll && a != DropSubscriber(s)
    && !(a.RouteCompletion? && a.run == run)
  }

  lemma StaysRegistered(h: Hub, a: Act, s: nat, run: nat)
    requires Inv(h) && Possible(h, a) && Registered(h, s, run) && Leaves(a, s, run)
    ensures Registered(Step(h, a), s, run)
  {
    assert SubscriberOk(h, h.subscribers[s]);
  }

  /** Registered until the route, the subscriber has the routed result in its inbox right after it. */
  lemma {:induction false} RegisteredUntilRouted(h: Hub, before: seq<Act>, s: nat, run: nat, result: nat)
    requires Inv(h) && Legal(h, before) && Registered(h, s, run)
    requires forall i :: 0 <= i < |before| ==> Leaves(before[i], s, run)
    ensures Inv(After(h, before)) && Registered(After(h, before), s, run)
    ensures Holds(RouteStep(After(h, before), run, result), s, run, result)
    decreases before
  {
    if before == [] {
      assert SubscriberOk(h, h.subscribers[s]);
    } else {
      StaysRegistered(h, before[0], s, run);
      StepInv(h, before[0]);
      RegisteredUntilRouted(Step(h, before[0]), before[1..], s, run, result);
    }
  }

  /** The result is in the subscriber's inbox, and its channel is gone from the map for good; or it has been received. */
  predicate Holds(h: Hub, s: nat, run: nat, result: nat) {
    s in h.subscribers &&
    match h.subscribers[s]
    case Listening(r, channel, inbox, closed) =>
      && r == run && inbox == Some(result) && channel < h.nextChannel
      && forall r' :: r' in h.entries ==> h.entries[r'] != Pending(channel)
    case Resolved(r, got) => r == run && got == result
    case _ => false
  }

  lemma StillHolds(h: Hub, a: Act, s: nat, run: nat, result: nat)
    requires Possible(h, a) && Holds(h, s, run, result) && a != DropSubscriber(s)
    ensures Holds(Step(h, a), s, run, result)
    ensures a == ReceiveResult(s) || h.subscribers[s].Resolved? ==> Step(h, a).subscribers[s] == Resolved(run, result)
  {
  }

  /** Whatever comes later, a crash included, the subscriber keeps the result, and has it once it received. */
  lemma {:induction false} HeldIsReceived(h: Hub, later: seq<Act>, s: nat, run: nat, result: nat)
    requires Legal(h, later) && Holds(h, s, run, result)
    requires forall i :: 0 <= i < |later| ==> later[i] != DropSubscriber(s)
    ensures Holds(After(h, later), s, run, result)
    ensures h.subscribers[s].Resolved? || ReceiveResult(s) in later ==> After(h, later).subscribers[s] == Resolved(run, result)
    decreases later
  {
    if later != [] {
      StillHolds(h, later[0], s, run, result);
      HeldIsReceived(Step(h, later[0]), later[1..], s, run, result);
    }
  }

  /**
   * A subscriber registered before the route gets the routed result: however long it waits and whatever happens to the
   * others before the route, unless a crash drains the map or the subscriber is dropped first; and whatever happens
   * after it, a crash included, the result it then receives is this one.
   */
  lemma RegisteredGetsTheResult(h: Hub, before: seq<Act>, s: nat, run: nat, result: nat, later: seq<Act>)
    requires Inv(h) && Legal(h, before) && Registered(h, s, run)
    requires forall i :: 0 <= i < |before| ==> Leaves(before[i], s, run)
    requires Legal(RouteStep(After(h, before), run, result), later)
    requires forall i :: 0 <= i < |later| ==> later[i] != DropSubscriber(s)
    ensures Registered(After(h, before), s, run)
    ensures RouteStep(After(h, before), run, result).subscribers[s].inbox == Some(result)
    ensures Holds(After(RouteStep(After(h, before), run, result), later), s, run, result)
    ensures ReceiveResult(s) in later ==>
              After(RouteStep(After(h, before), run, result), later).subscribers[s] == Resolved(run, result)
  {
    RegisteredUntilRouted(h, before, s, run, result);
    HeldIsReceived(RouteStep(After(h, before), run, result), later, s, run, result);
  }

  /** Only a crash makes a waiter fail: an open listener closed without a result was closed by a drain. */
  lemma OnlyADrainFails(h: Hub, a: Act, s: nat, run: nat)
    requires Inv(h) && Possible(h, a) && Registered(h, s, run) && a != DropSubscriber(s)
    requires var after := Step(h, a).subscribers[s]; after.Listening? && after.closed && after.inbox == None
    ensures a == DrainAll
  {
    if a.RouteCompletion? && a.run == run {
      RegisteredUntilRouted(h, [], s, run, a.result);
    } else if a != DrainAll {
      StaysRegistered(h, a, s, run);
    }
  }

  /** No crash and no lookup for this run. */
  predicate Undisturbed(h: Hub, acts: seq<Act>, run: nat)
    requires Legal(h, acts)
    decreases acts
  {
    acts == [] ||
    (&& acts[0] != DrainAll
     && !(acts[0].LookUp? && h.subscribers[acts[0].s].run == run)
     && Undisturbed(Step(h, acts[0]), acts[1..], run))
  }

  lemma {:induction false} TimeGoesOn(h: Hub, acts: seq<Act>)
    requires Legal(h, acts)
    ensures h.now <= After(h, acts).now
    decreases acts
  {
    if acts != [] {
      TimeGoesOn(Step(h, acts[0]), acts[1..]);
    }
  }

  lemma LatchStep(h: Hub, a: Act, run: nat)
    requires EntriesOk(h) && Possible(h, a) && a != DrainAll && !(a.LookUp? && h.subscribers[a.s].run == run)
    requires run in h.entries && h.entries[run].Completed?
    requires h.now < h.entries[run].latchedAt + LATCHED_COMPLETED_TTL
    ensures var h' := Step(h, a);
            run in h'.entries && h'.entries[run] == h.entries[run] && run in h'.latches && h'.latches[run] == h.latches[run]
  {
  }

  /** Within its TTL a latched result stays as it is, whatever else is routed, until someone looks it up or a crash comes. */
  lemma {:induction false} LatchStays(h: Hub, acts: seq<Act>, run: nat)
    requires Inv(h) && Legal(h, acts) && Undisturbed(h, acts, run)
    requires run in h.entries && h.entries[run].Completed?
    requires After(h, acts).now < h.entries[run].latchedAt + LATCHED_COMPLETED_TTL
    ensures Inv(After(h, acts))
    ensures run in After(h, acts).entries && After(h, acts).entries[run] == h.entries[run]
    ensures After(h, acts).latches[run] == h.latches[run]
    decreases acts
  {
    if acts != [] {
      TimeGoesOn(h, acts);
      LatchStep(h, acts[0], run);
      StepInv(h, acts[0]);
      LatchStays(Step(h, acts[0]), acts[1..], run);
    }
  }

  /** How often the latched result of route number `i` was handed out. */
  function TimesHanded(handed: seq<nat>, i: nat): (r: nat) {
    if handed == [] then 0
    else TimesHanded(handed[..|handed| - 1], i) + if handed[|handed| - 1] == i then 1 else 0
  }

  lemma {:induction false} HandedOnce(handed: seq<nat>, i: nat)
    requires forall j, k :: 0 <= j < k < |handed| ==> handed[j] != handed[k]
    ensures TimesHanded(handed, i) == if i in handed then 1 else 0
  {
    if handed != [] {
      var before := handed[..|handed| - 1];
      HandedOnce(before, i);
      assert handed == before + [handed[|handed| - 1]];
    }
  }

  lemma {:induction false} HandedGrows(h: Hub, acts: seq<Act>)
    requires Legal(h, acts)
    ensures h.handed <= After(h, acts).handed
    decreases acts
  {
    if acts != [] {
      HandedGrows(Step(h, acts[0]), acts[1..]);
    }
  }

  /**
   * With no entry for the run, the first result routed is kept: through anything but a crash, further results for the
   * same run included, the first late subscriber to look within the TTL gets it, and in every continuation it is handed
   * out exactly once.
   */
  lemma FirstResultServesOneLateSubscriber(
      h: Hub, run: nat, result: nat, acts: seq<Act>, s: nat, later: seq<Act>)
    requires Inv(h) && run !in Swept(h.entries, h.now)
    requires var latched := RouteStep(h, run, result);
             Legal(latched, acts) && Undisturbed(latched, acts, run) && After(latched, acts).now < h.now + LATCHED_COMPLETED_TTL
    requires var waiting := After(RouteStep(h, run, result), acts);
             Possible(waiting, LookUp(s)) && waiting.subscribers[s].run == run && Legal(LookUpStep(waiting, s), later)
    ensures var waiting := After(RouteStep(h, run, result), acts);
            && run in waiting.entries && waiting.entries[run] == Completed(result, h.now)
            && LookUpStep(waiting, s).subscribers[s] == Resolved(run, result)
            && TimesHanded(waiting.handed, |h.routings|) == 0
            && TimesHanded(After(LookUpStep(waiting, s), later).handed, |h.routings|) == 1
  {
    var latched := RouteStep(h, run, result);
    StepInv(h, RouteCompletion(run, result));
    LatchStays(latched, acts, run);
    var waiting := After(latched, acts);
    assert waiting.latches[run] == |h.routings| && waiting.latches[run] !in waiting.handed;
    HandedOnce(waiting.handed, |h.routings|);
    var served := LookUpStep(waiting, s);
    StepInv(waiting, LookUp(s));
    RunInv(served, later);
    HandedGrows(served, later);
    assert served.handed[|waiting.handed|] == |h.routings|;
    HandedOnce(After(served, later).handed, |h.routings|);
  }

  /** No latched result older than the TTL survives a route. */
  lemma RouteLeavesNothingStale(h: Hub, run: nat, result: nat)
    ensures var h' := RouteStep(h, run, result);
            forall r :: r in h'.entries && h'.entries[r].Completed? ==> h'.now - h'.entries[r].latchedAt < LATCHED_COMPLETED_TTL
  {
  }

  /**
   * A late subscriber takes the latched result, the entry is gone for everyone after it, and the result was within
   * its TTL when the subscriber swept.
   */
  lemma LateSubscriberTakesTheLatch(h: Hub, s: nat)
    requires Inv(h) && Possible(h, LookUp(s))
    requires h.subscribers[s].run in h.entries && h.entries[h.subscribers[s].run].Completed?
    ensures var run, h' := h.subscribers[s].run, LookUpStep(h, s);
            && h'.subscribers[s] == Resolved(run, h.entries[run].result)
            && run !in h'.entries
            && h.subscribers[s].sweptAt < h.entries[run].latchedAt + LATCHED_COMPLETED_TTL
  {
    assert SubscriberOk(h, h.subscribers[s]);
  }

  /** A second late subscriber is not served by the same completion: it waits for the next one. */
  lemma SecondLateSubscriberWaits(h: Hub, s: nat, t: nat)
    requires Inv(h) && s != t && Possible(h, LookUp(s)) && Possible(h, LookUp(t))
    requires h.subscribers[s].run == h.subscribers[t].run
    requires h.subscribers[s].run in h.entries && h.entries[h.subscribers[s].run].Completed?
    ensures Registered(LookUpStep(LookUpStep(h, s), t), t, h.subscribers[t].run)
  {
  }

  /** The result of route number `i` is waiting in the map for a late subscriber. */
  predicate Latched(h: Hub, run: nat, i: nat) {
    run in h.entries && h.entries[run].Completed? && run in h.latches && h.latches[run] == i
  }

  /**
   * A routed result is kept for late subscribers exactly when its run has no entry left after the sweep. So a
   * channel whose subscribers have all been dropped swallows the result: it counts as a waiter.
   */
  lemma RoutedResultIsLatchedIff(h: Hub, run: nat, result: nat)
    requires Inv(h)
    ensures Latched(RouteStep(h, run, result), run, |h.routings|) <==> run !in Swept(h.entries, h.now)
    ensures run in h.entries && h.entries[run].Pending? ==> run !in RouteStep(h, run, result).entries
  {
  }

  /**
   * A routed result reaches nobody, now or later, exactly when the swept map already has a fresh result for the run, or
   * a channel on which no subscriber listens any more.
   */
  lemma RoutedResultIsLostIff(h: Hub, run: nat, result: nat)
    requires Inv(h)
    ensures var h' := RouteStep(h, run, result);
            !Latched(h', run, |h.routings|) && (forall s :: s in h'.subscribers ==> h'.subscribers[s] == h.subscribers[s]) <==>
            && run in Swept(h.entries, h.now)
            && (h.entries[run].Completed? || forall s :: s in h.subscribers ==> !Registered(h, s, run))
  {
    RoutedResultIsLatchedIff(h, run, result);
    if run in h.entries && h.entries[run].Pending? {
      ListenersAreRegistered(h, run);
    }
  }

  /** Whoever listens on the run's channel is registered for the run, and only they are. */
  lemma ListenersAreRegistered(h: Hub, run: nat)
    requires Inv(h) && run in h.entries && h.entries[run].Pending?
    ensures forall s :: s in h.subscribers ==>
              (h.subscribers[s].Listening? && h.subscribers[s].channel == h.entries[run].channel <==> Registered(h, s, run))
  {
    assert forall s :: s in h.subscribers ==> SubscriberOk(h, h.subscribers[s]);
  }

  /** It happens: a subscriber gives up, its channel swallows the result, and the next subscriber waits in vain. */
  lemma AbandonedChannelSwallows(run: nat, result: nat)
    ensures var h := Step(Step(Step(EMPTY_HUB, BeginSubscribe(0, run)), LookUp(0)), DropSubscriber(0));
            var routed := Step(h, RouteCompletion(run, result));
            var end := Step(Step(routed, BeginSubscribe(1, run)), LookUp(1));
            && run !in routed.entries
            && Registered(end, 1, run) && end.subscribers[1].inbox == None && end.handed == []
  {
  }
}
