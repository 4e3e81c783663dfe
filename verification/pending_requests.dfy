/**
 * Requests in flight across crashes (crates/app/src/service_client.rs: `request_value`, `PendingGuard`,
 * `dispatch_response`, `fail_pending`), on top of the supervision protocol: every step of `Supervisor` is a step
 * here too, and the generation a request is sent to is the one `Supervisor` has installed.
 */
module PendingRequests {
  import opened Wrappers
  import opened Supervisor

  datatype Outcome = Response(id: nat, body: nat) | ServiceCrashed | TimedOut | NotConnected | Cancelled

  /** Where a call to `request_value` stands. */
  datatype CallPc =
    | Allocated                    // has its id
    | Registered                   // its sender is in the pending map, the guard is armed
    | Connected                    // has cloned the stdin sender of `generation`
    | Awaiting                     // bytes are sent
    | Finished(outcome: Outcome)

  /** `heartbeat` calls bring the stdin sender of their own generation along and skip the state lock. */
  datatype Call = Call(pc: CallPc, generation: Option<nat>, heartbeat: bool)

  datatype Ipc = Ipc(
    client: Client,
    nextId: nat,
    pending: set<nat>,
    calls: map<nat, Call>,
    mail: map<nat, Outcome>,     // what was sent into each call's oneshot channel
    todo: map<nat, set<nat>>,    // per crash handler: the ids it collected and has not failed yet
    drained: set<nat>)           // generations whose crash handler has failed everything pending

  const IDLE := Ipc(START, 1, {}, map[], map[], map[], {})

  datatype IpcAct =
    | Lifecycle(act: Act)
    | Collect(h: nat)              // fail_pending lists the pending ids
    | CollectAlso(h: nat, id: nat) // its iteration may meet an id that was inserted meanwhile
    | FailNext(h: nat, id: nat)    // and fails them one by one
    | ReaderFails(id: nat)         // a reader at end of file fails a pending id
    | Allocate
    | Register(id: nat)
    | Connect(id: nat)
    | Send(id: nat, ok: bool)
    | Respond(id: nat, body: nat)  // a response line arrives, for any id whatever
    | Take(id: nat)
    | Expire(id: nat)
    | Cancel(id: nat)
    | Beat(generation: nat)

  predicate At(s: Ipc, id: nat, pc: CallPc) {
    id in s.calls && s.calls[id].pc == pc
  }

  /** Between the insertion into the pending map and the end of the call. */
  predicate Live(call: Call) {
    call.pc.Registered? || call.pc.Connected? || call.pc.Awaiting?
  }

  /** Crash handler `h` is at the point where it fails everything pending. */
  predicate Draining(s: Ipc, h: nat) {
    h < |s.client.handlers| && s.client.handlers[h].Bumped?
  }

  predicate Passable(s: Ipc, a: Act) {
    Supervisor.Enabled(s.client, a) && (a.Handle? && Draining(s, a.h) ==> a.h in s.todo && s.todo[a.h] == {})
  }

  predicate Possible(s: Ipc, a: IpcAct) {
    match a
    case Lifecycle(act) => Passable(s, act)
    case Collect(h) => Draining(s, h) && h !in s.todo
    case CollectAlso(h, id) => h in s.todo && id in s.pending
    case FailNext(h, id) => h in s.todo && id in s.todo[h]
    case ReaderFails(id) => id in s.pending
    case Allocate => true
    case Register(id) => At(s, id, Allocated)
    case Connect(id) => At(s, id, Registered)
    case Send(id, _) => At(s, id, Connected)
    case Respond(_, _) => true
    case Take(id) => At(s, id, Awaiting) && id in s.mail
    case Expire(id) => At(s, id, Awaiting) && id !in s.mail
    case Cancel(id) => id in s.calls && Live(s.calls[id])
    case Beat(_) => true
  }

  /** Removes the sender and uses it; an id that is not pending is ignored. */
  function Resolve(s: Ipc, id: nat, outcome: Outcome): (r: Ipc) {
    if id in s.pending then s.(pending := s.pending - {id}, mail := s.mail[id := outcome]) else s
  }

  /** The call ends; an armed guard takes its entry out of the pending map. */
  function Finish(s: Ipc, id: nat, outcome: Outcome): (r: Ipc)
    requires id in s.calls
  {
    s.(pending := s.pending - {id}, calls := s.calls[id := s.calls[id].(pc := Finished(outcome))])
  }

  function LifecycleStep(s: Ipc, a: Act): (r: Ipc)
    requires Passable(s, a)
  {
    var next := s.(client := Supervisor.Step(s.client, a));
    if a.Handle? && Draining(s, a.h)
    then next.(todo := s.todo - {a.h}, drained := s.drained + {s.client.handlers[a.h].dying})
    else next
  }

  function Move(s: Ipc, a: IpcAct): (r: Ipc)
    requires Possible(s, a)
  {
    match a
    case Lifecycle(act) => LifecycleStep(s, act)
    case Collect(h) => s.(todo := s.todo[h := s.pending])
    case CollectAlso(h, id) => s.(todo := s.todo[h := s.todo[h] + {id}])
    case FailNext(h, id) => Resolve(s, id, ServiceCrashed).(todo := s.todo[h := s.todo[h] - {id}])
    case ReaderFails(id) => Resolve(s, id, ServiceCrashed)
    case Allocate => s.(nextId := s.nextId + 1, calls := s.calls[s.nextId := Call(Allocated, None, false)])
    case Register(id) =>
      s.(pending := s.pending + {id}, calls := s.calls[id := s.calls[id].(pc := Registered)])
    case Connect(id) =>
      if s.client.state.Some?
      then s.(calls := s.calls[id := s.calls[id].(pc := Connected, generation := s.client.state)])
      else Finish(s, id, NotConnected)
    case Send(id, ok) =>
      if ok then s.(calls := s.calls[id := s.calls[id].(pc := Awaiting)]) else Finish(s, id, ServiceCrashed)
    case Respond(id, body) => Resolve(s, id, Response(id, body))
    case Take(id) => s.(calls := s.calls[id := s.calls[id].(pc := Finished(s.mail[id]))])
    case Expire(id) => Finish(s, id, TimedOut)
    case Cancel(id) => Finish(s, id, Cancelled)
    case Beat(g) =>
      s.(nextId := s.nextId + 1, pending := s.pending + {s.nextId},
         calls := s.calls[s.nextId := Call(Connected, Some(g), true)])
  }

  // ---------------------------------------------------------------- invariant

  /** The pending map holds exactly the unresolved live calls. */
  ghost predicate PendingExact(s: Ipc) {
    && (forall id :: id in s.pending ==> id in s.calls && Live(s.calls[id]) && id !in s.mail)
    && (forall id :: id in s.calls && Live(s.calls[id]) ==> id in s.pending || id in s.mail)
  }

  /** Ids are used once; a channel only ever carries its own response or a crash. */
  ghost predicate IdsOwn(s: Ipc) {
    && (forall id :: id in s.calls ==> id < s.nextId)
    && (forall id :: id in s.mail ==> id in s.calls && s.calls[id].pc != Allocated)
    && (forall id :: id in s.mail ==> s.mail[id] == ServiceCrashed || (s.mail[id].Response? && s.mail[id].id == id))
    && (forall id :: id in s.calls && s.calls[id].pc.Finished? && s.calls[id].pc.outcome.Response? ==>
          id in s.mail && s.mail[id] == s.calls[id].pc.outcome)
  }

  /** A pending call of generation `g` is still on the list of whoever drains `g`. */
  ghost predicate OnTheList(s: Ipc, id: nat)
    requires id in s.calls
  {
    var call := s.calls[id];
    call.generation.Some? && !call.heartbeat ==>
      && call.generation.value !in s.drained
      && forall h :: h in s.todo && Draining(s, h) && s.client.handlers[h].dying == call.generation.value ==> id in s.todo[h]
  }

  ghost predicate Drains(s: Ipc) {
    && (forall h :: h in s.todo ==> Draining(s, h))
    && (forall g :: g in s.drained ==> g < s.client.current)
    && (forall id :: id in s.pending ==> id in s.calls && OnTheList(s, id))
    && (forall id :: id in s.calls && (s.calls[id].pc.Allocated? || s.calls[id].pc.Registered?) ==> s.calls[id].generation == None)
  }

  ghost predicate IpcInv(s: Ipc) {
    Supervisor.Inv(s.client) && PendingExact(s) && IdsOwn(s) && Drains(s)
  }

  lemma FinishPending(s: Ipc, id: nat, outcome: Outcome)
    requires PendingExact(s) && IdsOwn(s) && id in s.calls && Live(s.calls[id])
    requires outcome.Response? ==> id in s.mail && s.mail[id] == outcome
    ensures PendingExact(Finish(s, id, outcome)) && IdsOwn(Finish(s, id, outcome))
  {
  }

  lemma ResolvePending(s: Ipc, id: nat, outcome: Outcome)
    requires PendingExact(s) && IdsOwn(s) && (outcome == ServiceCrashed || (outcome.Response? && outcome.id == id))
    ensures PendingExact(Resolve(s, id, outcome)) && IdsOwn(Resolve(s, id, outcome))
  {
  }

  /** A live call that stays live, or the insertion of its sender. */
  lemma CallPending(s: Ipc, s': Ipc, id: nat, call: Call)
    requires PendingExact(s) && IdsOwn(s) && s'.mail == s.mail && s'.calls == s.calls[id := call]
    requires id < s'.nextId && s.nextId <= s'.nextId && Live(call) && id !in s.mail
    requires s'.pending == s.pending + {id}
    ensures PendingExact(s') && IdsOwn(s')
  {
  }

  lemma AdvancePending(s: Ipc, s': Ipc, id: nat, pc: CallPc, generation: Option<nat>)
    requires PendingExact(s) && IdsOwn(s) && s'.mail == s.mail && s'.nextId == s.nextId && s'.pending == s.pending
    requires id in s.calls && Live(s.calls[id])
    requires pc.Connected? || pc.Awaiting? || (id in s.mail && pc == Finished(s.mail[id]))
    requires s'.calls == s.calls[id := Call(pc, generation, s.calls[id].heartbeat)]
    ensures PendingExact(s') && IdsOwn(s')
  {
  }

  lemma ConnectOrSendPending(s: Ipc, a: IpcAct)
    requires Possible(s, a) && PendingExact(s) && IdsOwn(s) && (a.Connect? || a.Send? || a.Take?)
    ensures PendingExact(Move(s, a)) && IdsOwn(Move(s, a))
  {
    var s' := Move(s, a);
    match a
    case Connect(id) =>
      if s.client.state.Some? {
        AdvancePending(s, s', id, Connected, s.client.state);
      } else {
        FinishPending(s, id, NotConnected);
      }
    case Send(id, ok) =>
      if ok {
        AdvancePending(s, s', id, Awaiting, s.calls[id].generation);
      } else {
        FinishPending(s, id, ServiceCrashed);
      }
    case Take(id) => AdvancePending(s, s', id, Finished(s.mail[id]), s.calls[id].generation);
  }

  lemma NewcomerPending(s: Ipc, a: IpcAct)
    requires Possible(s, a) && PendingExact(s) && IdsOwn(s) && (a.Allocate? || a.Register? || a.Beat?)
    ensures PendingExact(Move(s, a)) && IdsOwn(Move(s, a))
  {
    var s' := Move(s, a);
    if a.Register? {
      CallPending(s, s', a.id, s'.calls[a.id]);
    } else if a.Beat? {
      CallPending(s, s', s.nextId, s'.calls[s.nextId]);
    }
  }

  lemma MovePending(s: Ipc, a: IpcAct)
    requires Possible(s, a) && PendingExact(s) && IdsOwn(s)
    ensures PendingExact(Move(s, a)) && IdsOwn(Move(s, a))
  {
    match a
    case Lifecycle(act) =>
    case Collect(h) =>
    case CollectAlso(h, id) =>
    case FailNext(h, id) => ResolvePending(s, id, ServiceCrashed);
    case ReaderFails(id) => ResolvePending(s, id, ServiceCrashed);
    case Respond(id, body) => ResolvePending(s, id, Response(id, body));
    case Expire(id) => FinishPending(s, id, TimedOut);
    case Cancel(id) => FinishPending(s, id, Cancelled);
    case Allocate => NewcomerPending(s, a);
    case Register(_) => NewcomerPending(s, a);
    case Beat(_) => NewcomerPending(s, a);
    case Connect(_) => ConnectOrSendPending(s, a);
    case Send(_, _) => ConnectOrSendPending(s, a);
    case Take(_) => ConnectOrSendPending(s, a);
  }

  lemma LifecycleDrains(s: Ipc, a: Act)
    requires Passable(s, a) && Generations(s.client) && Drains(s)
    ensures Drains(LifecycleStep(s, a))
  {
    GenerationGrows(s.client, a);
    if a.Handle? && Draining(s, a.h) {
      assert OwnerGeneration(s.client.handlers[a.h], s.client.current, |Installs(s.client.log)|, |Launches(s.client.log)|);
      DrainEnds(s, a.h, LifecycleStep(s, a));
    } else {
      DrainsCarried(s, LifecycleStep(s, a));
    }
  }

  /** The list of handler `h` is empty: nothing pending was sent to the generation it buried. */
  lemma DrainEnds(s: Ipc, h: nat, s': Ipc)
    requires Drains(s) && Draining(s, h) && h in s.todo && s.todo[h] == {}
    requires s.client.handlers[h].dying < s'.client.current && s.client.current <= s'.client.current
    requires |s.client.handlers| <= |s'.client.handlers|
    requires forall k :: 0 <= k < |s.client.handlers| && k != h ==> s'.client.handlers[k] == s.client.handlers[k]
    requires s'.todo == s.todo - {h} && s'.drained == s.drained + {s.client.handlers[h].dying}
    requires s'.pending == s.pending && s'.calls == s.calls
    ensures Drains(s')
  {
    forall id | id in s'.pending ensures OnTheList(s', id) {
      assert OnTheList(s, id);
    }
  }

  lemma DrainsCarried(s: Ipc, s': Ipc)
    requires Drains(s) && s'.todo == s.todo && s'.drained == s.drained && s'.pending == s.pending && s'.calls == s.calls
    requires s.client.current <= s'.client.current && |s.client.handlers| <= |s'.client.handlers|
    requires forall k :: k in s.todo ==> s'.client.handlers[k] == s.client.handlers[k]
    ensures Drains(s')
  {
    forall id | id in s'.pending ensures OnTheList(s', id) {
      assert OnTheList(s, id);
    }
  }

  /** Resolving or ending calls only shortens the lists. */
  lemma DrainsShrink(s: Ipc, s': Ipc)
    requires Drains(s) && s'.client == s.client && s'.drained == s.drained
    requires s'.pending <= s.pending && s'.todo.Keys == s.todo.Keys
    requires forall h, id :: h in s.todo && id in s'.pending && id in s.todo[h] ==> id in s'.todo[h]
    requires s'.calls.Keys == s.calls.Keys
    requires forall id :: id in s.calls ==> s'.calls[id].generation == s.calls[id].generation && s'.calls[id].heartbeat == s.calls[id].heartbeat
    requires forall id :: id in s.calls && (s'.calls[id].pc.Allocated? || s'.calls[id].pc.Registered?) ==> s.calls[id].generation == None
    ensures Drains(s')
  {
    forall id | id in s'.pending ensures OnTheList(s', id) {
      assert OnTheList(s, id);
    }
  }

  /** A new or newly connected call cannot belong to a generation that is being drained or has been. */
  lemma DrainsJoin(s: Ipc, s': Ipc, id: nat, call: Call)
    requires Drains(s) && s'.client == s.client && s'.drained == s.drained && s'.todo == s.todo
    requires s'.calls == s.calls[id := call] && s.pending <= s'.pending <= s.pending + {id}
    requires call.generation.Some? && !call.heartbeat ==>
               && call.generation == s.client.state && call.generation.value == s.client.current
               && NobodyOwns(s.client)
    requires call.pc.Allocated? || call.pc.Registered? ==> call.generation == None
    ensures Drains(s')
  {
    forall i | i in s'.pending ensures i in s'.calls && OnTheList(s', i) {
      if i != id {
        assert OnTheList(s, i);
      } else {
        forall h | h in s'.todo && Draining(s', h) ensures call.heartbeat || call.generation == None {
          assert Owns(s.client.handlers[h]);
        }
      }
    }
  }

  lemma FinishDrains(s: Ipc, id: nat, outcome: Outcome)
    requires Drains(s) && id in s.calls
    ensures Drains(Finish(s, id, outcome))
  {
    DrainsShrink(s, Finish(s, id, outcome));
  }

  lemma ResolveDrains(s: Ipc, id: nat, outcome: Outcome)
    requires Drains(s)
    ensures Drains(Resolve(s, id, outcome))
  {
    DrainsShrink(s, Resolve(s, id, outcome));
  }

  lemma FailNextDrains(s: Ipc, h: nat, id: nat)
    requires Drains(s) && h in s.todo
    ensures Drains(Resolve(s, id, ServiceCrashed).(todo := s.todo[h := s.todo[h] - {id}]))
  {
    DrainsShrink(s, Resolve(s, id, ServiceCrashed).(todo := s.todo[h := s.todo[h] - {id}]));
  }

  lemma AdvanceDrains(s: Ipc, id: nat, pc: CallPc)
    requires Drains(s) && id in s.calls && !pc.Allocated? && !pc.Registered?
    ensures Drains(s.(calls := s.calls[id := s.calls[id].(pc := pc)]))
  {
    DrainsShrink(s, s.(calls := s.calls[id := s.calls[id].(pc := pc)]));
  }

  lemma ConnectDrains(s: Ipc, id: nat)
    requires Drains(s) && At(s, id, Registered) && s.client.state.Some?
    requires s.client.state.value == s.client.current && NobodyOwns(s.client)
    ensures Drains(Move(s, Connect(id)))
  {
    DrainsJoin(s, Move(s, Connect(id)), id, Move(s, Connect(id)).calls[id]);
  }

  lemma NewcomerDrains(s: Ipc, a: IpcAct)
    requires Drains(s) && Possible(s, a) && (a.Allocate? || a.Register? || a.Beat?)
    ensures Drains(Move(s, a))
  {
    var id := if a.Register? then a.id else s.nextId;
    DrainsJoin(s, Move(s, a), id, Move(s, a).calls[id]);
  }

  lemma MoveDrains(s: Ipc, a: IpcAct)
    requires Possible(s, a) && Drains(s) && Generations(s.client) && SingleOwner(s.client)
    ensures Drains(Move(s, a))
  {
    match a
    case Lifecycle(act) => LifecycleDrains(s, act);
    case Collect(h) => CollectDrains(s, h);
    case CollectAlso(h, id) => DrainsShrink(s, Move(s, a));
    case FailNext(h, id) => FailNextDrains(s, h, id);
    case ReaderFails(id) => ResolveDrains(s, id, ServiceCrashed);
    case Allocate => NewcomerDrains(s, a);
    case Register(id) => NewcomerDrains(s, a);
    case Connect(id) =>
      if s.client.state.Some? {
        ConnectDrains(s, id);
      } else {
        FinishDrains(s, id, NotConnected);
      }
    case Send(id, ok) =>
      if ok {
        AdvanceDrains(s, id, Awaiting);
      } else {
        FinishDrains(s, id, ServiceCrashed);
      }
    case Respond(id, body) => ResolveDrains(s, id, Response(id, body));
    case Take(id) => AdvanceDrains(s, id, Finished(s.mail[id]));
    case Expire(id) => FinishDrains(s, id, TimedOut);
    case Cancel(id) => FinishDrains(s, id, Cancelled);
    case Beat(g) => NewcomerDrains(s, a);
  }

  lemma CollectDrains(s: Ipc, h: nat)
    requires Drains(s) && Draining(s, h)
    ensures Drains(s.(todo := s.todo[h := s.pending]))
  {
    var s' := s.(todo := s.todo[h := s.pending]);
    forall id | id in s'.pending ensures OnTheList(s', id) {
      assert OnTheList(s, id);
    }
  }

  lemma MoveInv(s: Ipc, a: IpcAct)
    requires Possible(s, a) && IpcInv(s)
    ensures IpcInv(Move(s, a))
  {
    MovePending(s, a);
    MoveDrains(s, a);
    if a.Lifecycle? {
      Supervisor.StepInv(s.client, a.act);
    }
  }

  // ---------------------------------------------------------------- whole runs

  predicate IpcLegal(s: Ipc, acts: seq<IpcAct>)
    decreases acts
  {
    acts == [] || (Possible(s, acts[0]) && IpcLegal(Move(s, acts[0]), acts[1..]))
  }

  function IpcAfter(s: Ipc, acts: seq<IpcAct>): (r: Ipc)
    requires IpcLegal(s, acts)
    decreases acts
  {
    if acts == [] then s else IpcAfter(Move(s, acts[0]), acts[1..])
  }

  lemma {:induction false} IpcRunInv(s: Ipc, acts: seq<IpcAct>)
    requires IpcInv(s) && IpcLegal(s, acts)
    ensures IpcInv(IpcAfter(s, acts))
    decreases acts
  {
    if acts != [] {
      MoveInv(s, acts[0]);
      IpcRunInv(Move(s, acts[0]), acts[1..]);
    }
  }

  lemma IdleInv()
    ensures IpcInv(IDLE)
  {
    Supervisor.StartInv();
  }

  lemma IpcReachable(acts: seq<IpcAct>)
    requires IpcLegal(IDLE, acts)
    ensures IpcInv(IpcAfter(IDLE, acts))
  {
    IdleInv();
    IpcRunInv(IDLE, acts);
  }

  /**
   * No request survives its incarnation: once the crash handler of generation `g` has failed everything pending, a
   * call that had obtained `g`'s stdin sender has its answer or is over. It is enough that the call registered its
   * sender before it looked at the state; a heartbeat ping, which does not look, is not covered.
   */
  lemma NoRequestSurvivesItsIncarnation(acts: seq<IpcAct>, id: nat)
    requires IpcLegal(IDLE, acts)
    requires var s := IpcAfter(IDLE, acts);
             id in s.calls && !s.calls[id].heartbeat && s.calls[id].generation.Some? && s.calls[id].generation.value in s.drained
    ensures var s := IpcAfter(IDLE, acts);
            && id !in s.pending
            && (id in s.mail || s.calls[id].pc.Finished?)
            && (id in s.mail ==> s.mail[id] == ServiceCrashed || (s.mail[id].Response? && s.mail[id].id == id))
  {
    IpcReachable(acts);
    var s := IpcAfter(IDLE, acts);
    assert id in s.pending ==> OnTheList(s, id);
  }

  /** A response reaches only the call that asked, and a call that is over leaves nothing behind in the pending map. */
  lemma OwnResponseAndNoLeak(acts: seq<IpcAct>, id: nat)
    requires IpcLegal(IDLE, acts) && id in IpcAfter(IDLE, acts).calls
    requires IpcAfter(IDLE, acts).calls[id].pc.Finished?
    ensures var s := IpcAfter(IDLE, acts);
            && id !in s.pending
            && (s.calls[id].pc.outcome.Response? ==> s.calls[id].pc.outcome.id == id)
  {
    IpcReachable(acts);
  }

  lemma MailKept(s: Ipc, a: IpcAct)
    requires PendingExact(s) && Possible(s, a)
    ensures forall id :: id in s.mail ==> id in Move(s, a).mail && Move(s, a).mail[id] == s.mail[id]
  {
  }

  lemma IdsAreFresh(s: Ipc, a: IpcAct)
    requires Possible(s, a)
    ensures s.nextId <= Move(s, a).nextId && s.calls.Keys <= Move(s, a).calls.Keys
    ensures forall id :: id in Move(s, a).calls && id !in s.calls ==> id == s.nextId
  {
  }

  /** One step never rewrites what a call was sent, nor hands out an id again. */
  lemma MailStep(s: Ipc, a: IpcAct)
    requires IpcInv(s) && Possible(s, a)
    ensures forall id :: id in s.mail ==> id in Move(s, a).mail && Move(s, a).mail[id] == s.mail[id]
    ensures s.nextId <= Move(s, a).nextId && s.calls.Keys <= Move(s, a).calls.Keys
    ensures forall id :: id in Move(s, a).calls && id !in s.calls ==> id == s.nextId
  {
    MailKept(s, a);
    IdsAreFresh(s, a);
  }

  /** At most one answer: what a call was sent stays what it was sent for the rest of the run. */
  lemma {:induction false} AnsweredOnce(s: Ipc, acts: seq<IpcAct>)
    requires IpcInv(s) && IpcLegal(s, acts)
    ensures forall id :: id in s.mail ==> id in IpcAfter(s, acts).mail && IpcAfter(s, acts).mail[id] == s.mail[id]
    decreases acts
  {
    if acts != [] {
      MoveInv(s, acts[0]);
      MailStep(s, acts[0]);
      AnsweredOnce(Move(s, acts[0]), acts[1..]);
    }
  }

  // ---------------------------------------------------------------- requests left behind

  /** A call sent to `g`'s child that has no answer yet. */
  predicate Waits(s: Ipc, id: nat, g: nat) {
    id in s.pending && id in s.calls && !s.calls[id].heartbeat && s.calls[id].generation == Some(g)
  }

  /** Someone still looks after `g`: it is installed, or its crash handler has yet to fail what is pending. */
  ghost predicate Attended(c: Client, g: nat) {
    c.state == Some(g) || exists h :: 0 <= h < |c.handlers| && (c.handlers[h] == Taken(g) || c.handlers[h] == Bumped(g))
  }

  ghost predicate NobodyLeftBehind(s: Ipc) {
    forall id, g :: Waits(s, id, g) ==> Attended(s.client, g)
  }

  /** The state goes without a crash handler taking it over: a failed boot, a failed handshake, a dropped client. */
  predicate TakesAside(c: Client, a: Act) {
    match a
    case Boot(_) => c.boot.BootElevating?
    case Handle(h, _) => h < |c.handlers| && c.handlers[h].TearingDown?
    case DropState => true
    case _ => false
  }

  /** It does so while a call to the installed child has no answer. */
  ghost predicate LeavesBehind(s: Ipc, a: IpcAct) {
    a.Lifecycle? && TakesAside(s.client, a.act) && s.client.state.Some? && exists id :: Waits(s, id, s.client.state.value)
  }

  lemma WaitsAfter(s: Ipc, a: IpcAct, id: nat, g: nat)
    requires Possible(s, a) && Drains(s) && Waits(Move(s, a), id, g)
    ensures Waits(s, id, g) || (a == Connect(id) && s.client.state == Some(g))
  {
  }

  /** An installed state stays, or the crash handler of its generation takes it. */
  lemma InstalledStillAttended(c: Client, a: Act, g: nat)
    requires SingleOwner(c) && Enabled(c, a) && c.state == Some(g) && !TakesAside(c, a)
    ensures Attended(Step(c, a), g)
  {
    var c' := Step(c, a);
    if a.Handle? && c.handlers[a.h] == Booted(g) {
      assert c'.handlers[a.h] == Taken(g);
    } else {
      assert c'.state == c.state;
    }
  }

  /** The crash handler stays, or gets to the point where it drains. */
  lemma HandlerStillAttends(c: Client, a: Act, g: nat, h: nat)
    requires Generations(c) && Enabled(c, a) && h < |c.handlers|
    requires c.handlers[h] == Taken(g) || (c.handlers[h] == Bumped(g) && !(a.Handle? && a.h == h))
    ensures Attended(Step(c, a), g)
  {
    GenerationGrows(c, a);
    assert Step(c, a).handlers[h] == Taken(g) || Step(c, a).handlers[h] == Bumped(g);
  }

  lemma StillAttended(s: Ipc, a: Act, id: nat, g: nat)
    requires IpcInv(s) && Passable(s, a) && Waits(s, id, g) && Attended(s.client, g)
    requires !(TakesAside(s.client, a) && s.client.state == Some(g))
    ensures Attended(Step(s.client, a), g)
  {
    var c := s.client;
    if c.state == Some(g) {
      InstalledStillAttended(c, a, g);
    } else {
      var h :| 0 <= h < |c.handlers| && (c.handlers[h] == Taken(g) || c.handlers[h] == Bumped(g));
      NotYetDrained(s, a, id, g);
      HandlerStillAttends(c, a, g, h);
    }
  }

  lemma StepLeavesBehindIff(s: Ipc, a: IpcAct)
    requires IpcInv(s) && Possible(s, a) && NobodyLeftBehind(s)
    ensures NobodyLeftBehind(Move(s, a)) <==> !LeavesBehind(s, a)
  {
    var s' := Move(s, a);
    if LeavesBehind(s, a) {
      var id :| Waits(s, id, s.client.state.value);
      assert Waits(s', id, s.client.state.value);
      Abandoned(s.client, a.act, s.client.state.value);
    } else {
      forall id, g | Waits(s', id, g) ensures Attended(s'.client, g) {
        WaitsAfter(s, a, id, g);
        if a.Lifecycle? {
          StillAttended(s, a.act, id, g);
        }
      }
    }
  }

  /** Nobody owns the succession while a state is installed, so nobody drains for a state that is taken aside. */
  lemma Abandoned(c: Client, a: Act, g: nat)
    requires Inv(c) && Enabled(c, a) && TakesAside(c, a) && c.state == Some(g)
    ensures !Attended(Step(c, a), g)
  {
    var c' := Step(c, a);
    forall h | 0 <= h < |c'.handlers| ensures c'.handlers[h] != Taken(g) && c'.handlers[h] != Bumped(g) {
      assert !Owns(c.handlers[h]);
    }
  }

  /** The handler that drains `g` cannot go on before the call has its answer. */
  lemma NotYetDrained(s: Ipc, a: Act, id: nat, g: nat)
    requires IpcInv(s) && Passable(s, a) && Waits(s, id, g)
    ensures forall h :: 0 <= h < |s.client.handlers| && s.client.handlers[h] == Bumped(g) ==> !(a.Handle? && a.h == h)
  {
    assert OnTheList(s, id);
  }

  ghost predicate NeverLeftBehind(s: Ipc, acts: seq<IpcAct>)
    requires IpcLegal(s, acts)
    decreases acts
  {
    NobodyLeftBehind(s) && (acts != [] ==> NeverLeftBehind(Move(s, acts[0]), acts[1..]))
  }

  ghost predicate NoStepLeavesBehind(s: Ipc, acts: seq<IpcAct>)
    requires IpcLegal(s, acts)
    decreases acts
  {
    acts != [] ==> !LeavesBehind(s, acts[0]) && NoStepLeavesBehind(Move(s, acts[0]), acts[1..])
  }

  lemma {:induction false} LeftBehindIff(s: Ipc, acts: seq<IpcAct>)
    requires IpcInv(s) && IpcLegal(s, acts) && NobodyLeftBehind(s)
    ensures NeverLeftBehind(s, acts) <==> NoStepLeavesBehind(s, acts)
    ensures NeverLeftBehind(s, acts) ==> NobodyLeftBehind(IpcAfter(s, acts))
    decreases acts
  {
    if acts != [] {
      var s' := Move(s, acts[0]);
      MoveInv(s, acts[0]);
      StepLeavesBehindIff(s, acts[0]);
      if !LeavesBehind(s, acts[0]) {
        LeftBehindIff(s', acts[1..]);
      }
    }
  }

  /**
   * Throughout a run every unanswered call is looked after (its child is installed, or the crash handler of its
   * generation has yet to fail it), exactly when no step takes a state aside while a call to it has no answer.
   */
  lemma RequestIsLeftBehindIff(acts: seq<IpcAct>)
    requires IpcLegal(IDLE, acts)
    ensures NeverLeftBehind(IDLE, acts) <==> NoStepLeavesBehind(IDLE, acts)
    ensures NeverLeftBehind(IDLE, acts) ==> NobodyLeftBehind(IpcAfter(IDLE, acts))
  {
    IdleInv();
    LeftBehindIff(IDLE, acts);
  }

  // ---------------------------------------------------------------- a request that is left behind

  const GOES_WELL := Choice(None, true, Answer(7))

  ghost predicate Reached(s: Ipc) {
    exists acts :: IpcLegal(IDLE, acts) && IpcAfter(IDLE, acts) == s
  }

  lemma {:induction false} Appended(s: Ipc, acts: seq<IpcAct>, a: IpcAct)
    requires IpcLegal(s, acts) && Possible(IpcAfter(s, acts), a)
    ensures IpcLegal(s, acts + [a]) && IpcAfter(s, acts + [a]) == Move(IpcAfter(s, acts), a)
    decreases acts
  {
    if acts == [] {
      assert [a][1..] == [];
      assert IpcLegal(Move(s, a), []);
      assert acts + [a] == [a];
    } else {
      Appended(Move(s, acts[0]), acts[1..], a);
      assert (acts + [a])[1..] == acts[1..] + [a];
    }
  }

  lemma Reach(s: Ipc, a: IpcAct)
    requires Reached(s) && Possible(s, a)
    ensures Reached(Move(s, a))
  {
    var acts :| IpcLegal(IDLE, acts) && IpcAfter(IDLE, acts) == s;
    Appended(IDLE, acts, a);
  }

  /** No call yet and nothing being drained. */
  predicate Quiet(s: Ipc) {
    s.calls == map[] && s.pending == {} && s.nextId == 1 && s.mail == map[] && s.todo == map[]
  }

  lemma BootGoes(s: Ipc) returns (s': Ipc)
    requires Reached(s) && Quiet(s) && BootMoves(s.client.boot)
    ensures Reached(s') && Quiet(s') && s'.client == BootStep(s.client, GOES_WELL)
  {
    s' := Move(s, Lifecycle(Boot(GOES_WELL)));
    Reach(s, Lifecycle(Boot(GOES_WELL)));
  }

  /** The only handler moves, whatever the history. */
  lemma HandlerGoes(s: Ipc, pc: HandlerPc, choice: Choice) returns (s': Ipc)
    requires Reached(s) && s.client.handlers == [pc] && !pc.Bumped? && !pc.HandingOff? && !pc.Done?
    ensures Reached(s') && s' == s.(client := s'.client)
    ensures s'.client == Effect(s.client, pc).(handlers := [NextPc(s.client, pc, choice)], log := s'.client.log)
  {
    s' := Move(s, Lifecycle(Handle(0, choice)));
    Reach(s, Lifecycle(Handle(0, choice)));
  }

  /** The first boot up to ChildSpawned. */
  lemma Boots() returns (s: Ipc)
    ensures Reached(s) && Quiet(s)
    ensures s.client == START.(state := Some(1), boot := BootAwaitingReady, log := s.client.log)
  {
    assert IpcLegal(IDLE, []) && IpcAfter(IDLE, []) == IDLE;
    s := BootGoes(IDLE);
    s := BootGoes(s);
    s := BootGoes(s);
    s := BootGoes(s);
  }

  /** The first boot succeeds. */
  lemma GetsReady(s0: Ipc) returns (s: Ipc)
    requires Reached(s0) && Quiet(s0) && s0.client.boot == BootAwaitingReady
    ensures Reached(s) && Quiet(s)
    ensures s.client == s0.client.(baseline := Some(7), boot := BootSucceeded, log := s.client.log)
  {
    s := BootGoes(s0);
    s := BootGoes(s);
    s := BootGoes(s);
  }

  /** A crash of its child is reported. */
  lemma Crashes(s0: Ipc) returns (s: Ipc)
    requires Reached(s0) && Quiet(s0) && s0.client.handlers == []
    ensures Reached(s) && Quiet(s) && s.client == s0.client.(handlers := [Entered(1)])
  {
    Reach(s0, Lifecycle(Trigger(1)));
    s := Move(s0, Lifecycle(Trigger(1)));
  }

  /** Its handler takes the state, raises the generation and fails what is pending: nothing. */
  lemma CrashIsDrained(s0: Ipc) returns (s: Ipc)
    requires Reached(s0) && Quiet(s0) && s0.client.handlers == [Entered(1)] && s0.client.state == Some(1) && s0.client.current == 1
    requires !s0.client.shuttingDown && s0.client.baseline.Some? && s0.client.crashes == 0
    ensures Reached(s) && Quiet(s) && s.client.handlers == [Drained(1)] && s.client.state == None && s.client.current == 2
    ensures !s.client.shuttingDown && s.client.crashes == 0
  {
    s := HandlerGoes(s0, Entered(1), GOES_WELL);
    s := HandlerGoes(s, NotShutting(1), GOES_WELL);
    s := HandlerGoes(s, Booted(1), GOES_WELL);
    s := HandlerGoes(s, Taken(1), GOES_WELL);
    Reach(s, Collect(0));
    s := Move(s, Collect(0));
    Reach(s, Lifecycle(Handle(0, GOES_WELL)));
    s := Move(s, Lifecycle(Handle(0, GOES_WELL)));
    assert s.todo == map[];
  }

  /** The backoff. */
  lemma BacksOff(s0: Ipc) returns (s: Ipc)
    requires Reached(s0) && Quiet(s0) && s0.client.handlers == [Drained(1)] && s0.client.current == 2
    requires !s0.client.shuttingDown && s0.client.crashes == 0
    ensures Reached(s) && Quiet(s) && s.client.handlers == [Respawning] && s.client.current == 2 && !s.client.shuttingDown
  {
    s := HandlerGoes(s0, Drained(1), GOES_WELL);
    var secs := Delay(s.client.backoff);
    s := HandlerGoes(s, Reaped(None), GOES_WELL);
    s := HandlerGoes(s, Doubling(None, secs), GOES_WELL);
    s := HandlerGoes(s, Announcing(None, secs), GOES_WELL);
    s := HandlerGoes(s, Sleeping(None), GOES_WELL);
    s := HandlerGoes(s, Counting(None), GOES_WELL);
  }

  /** The next child is launched and installed. */
  lemma Respawns(s0: Ipc) returns (s: Ipc)
    requires Reached(s0) && Quiet(s0) && s0.client.handlers == [Respawning] && s0.client.current == 2 && !s0.client.shuttingDown
    ensures Reached(s) && Quiet(s) && s.client.handlers == [Pinging(2)] && s.client.state == Some(2)
  {
    s := HandlerGoes(s0, Respawning, GOES_WELL);
    s := HandlerGoes(s, Gate(2), GOES_WELL);
    s := HandlerGoes(s, Launching(2), GOES_WELL);
    s := HandlerGoes(s, Launched(2), GOES_WELL);
    s := HandlerGoes(s, Installing(2), GOES_WELL);
  }

  /** A request goes to the new child. */
  lemma Asks(s0: Ipc) returns (s: Ipc)
    requires Reached(s0) && Quiet(s0) && s0.client.state == Some(2)
    ensures Reached(s) && s.client == s0.client && Waits(s, 1, 2)
  {
    Reach(s0, Allocate);
    s := Move(s0, Allocate);
    Reach(s, Register(1));
    s := Move(s, Register(1));
    Reach(s, Connect(1));
    s := Move(s, Connect(1));
  }

  /** The only handler is about to tear down the installed state, and this leaves a call behind. */
  ghost predicate EndsInTearDown(s: Ipc) {
    && s.client.handlers == [TearingDown(VersionMismatch)] && Waits(s, 1, 2)
    && Possible(s, Lifecycle(Handle(0, GOES_WELL)))
    && Waits(Move(s, Lifecycle(Handle(0, GOES_WELL))), 1, 2)
    && !Attended(Move(s, Lifecycle(Handle(0, GOES_WELL))).client, 2)
  }

  /** The new child turns out to speak another version of the protocol. */
  lemma TurnsOutWrong(s0: Ipc) returns (s: Ipc)
    requires Reached(s0) && s0.client.handlers == [Pinging(2)] && Waits(s0, 1, 2)
    ensures Reached(s) && EndsInTearDown(s)
  {
    s := HandlerGoes(s0, Pinging(2), Choice(None, true, WrongVersion));
  }

  /** A legal run after which the new child is torn down with a request unanswered. */
  lemma RequestIsLeftBehind()
    ensures exists acts :: IpcLegal(IDLE, acts) && EndsInTearDown(IpcAfter(IDLE, acts))
  {
    var s := Boots();
    s := GetsReady(s);
    s := Crashes(s);
    s := CrashIsDrained(s);
    s := BacksOff(s);
    s := Respawns(s);
    s := Asks(s);
    s := TurnsOutWrong(s);
  }
}
