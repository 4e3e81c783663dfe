/**
 * The consumer of the spawn events: `spawn_event_stream`, `BootingApp::update` and `App::update`
 * (crates/app/src/app.rs:592-629, 705-800, 932-946), fed by the event history of `Supervisor`.
 */
module BootApp {
  import opened Wrappers
  import opened Supervisor

  datatype Mode = Dark | Light

  /** Messages the Booting app acts on; `Other` stands for those it ignores. */
  datatype Message = Service(event: SpawnEvent) | AppearanceChanged(mode: Mode) | MainWindowClosed | ShutdownComplete | Other

  datatype AppState =
    | Booting(hasClient: bool, stash: Option<Mode>, exiting: bool)
    | Ready(mode: Mode, exiting: bool)
    | Panicked

  const BOOT := Booting(false, None, false)

  /** One message, as the two states of the app handle it. */
  function Handled(app: AppState, m: Message): (r: AppState) {
    match app
    case Booting(hasClient, stash, exiting) =>
      (match m
       case Service(ChildSpawned) => Booting(true, stash, exiting)
       case Service(BootReady(_)) =>
         // `expect("ServiceChildSpawned must precede ServiceBootReady")`
         if hasClient then Ready(if stash.Some? then stash.value else Dark, exiting) else Panicked
       case Service(Terminal(_)) => Booting(hasClient, stash, true)
       case AppearanceChanged(mode) => Booting(hasClient, Some(mode), exiting)
       case MainWindowClosed => Booting(hasClient, stash, true)
       case _ => app)
    case Ready(mode, exiting) =>
      (match m
       case Service(Terminal(_)) => Ready(mode, true)
       case AppearanceChanged(m') => Ready(m', exiting)
       case ShutdownComplete => Ready(mode, true)  // the shutdown that closing the window asked for
       case _ => app)
    case Panicked => Panicked
  }

  function HandledAll(app: AppState, ms: seq<Message>): (r: AppState) {
    if ms == [] then app else Handled(HandledAll(app, ms[..|ms| - 1]), ms[|ms| - 1])
  }

  /** The app as an object whose fields the handlers assign and take. */
  class App {
    var ready: bool
    var serviceClient: Option<nat>     // an opaque handle
    var appearanceMode: Option<Mode>
    var mode: Mode
    var exiting: bool
    var panicked: bool

    ghost function State(): (r: AppState)
      reads this
    {
      if panicked then Panicked
      else if ready then Ready(mode, exiting)
      else Booting(serviceClient.Some?, appearanceMode, exiting)
    }

    constructor ()
      ensures State() == BOOT
    {
      ready, serviceClient, appearanceMode, mode, exiting, panicked := false, None, None, Dark, false, false;
    }

    /** `App::update`; `client` is the handle a ChildSpawned message carries. */
    method Update(m: Message, client: nat)
      modifies this
      ensures State() == Handled(old(State()), m)
    {
      if panicked {
        return;
      }
      if ready {
        UpdateReady(m);
      } else {
        var transition := UpdateBooting(m, client);
        if transition {
          mode := Dark;
          if appearanceMode.Some? {
            mode := appearanceMode.value;
            appearanceMode := None;
          }
          ready := true;
        }
      }
    }

    /** `BootingApp::update`; tells whether the app moves to Ready. */
    method UpdateBooting(m: Message, client: nat) returns (transition: bool)
      requires !ready && !panicked
      modifies this
      ensures !ready && unchanged(`mode)
      ensures transition <==> m.Service? && m.event.BootReady? && old(serviceClient).Some?
      ensures transition ==> unchanged(`appearanceMode) && unchanged(`exiting) && serviceClient == None && !panicked
      ensures !transition ==> State() == Handled(old(State()), m)
    {
      transition := false;
      match m
      case Service(ChildSpawned) => serviceClient := Some(client);
      case Service(BootReady(_)) =>
        if serviceClient.Some? {
          serviceClient := None;
          transition := true;
        } else {
          panicked := true;
        }
      case Service(Terminal(_)) => exiting := true;
      case AppearanceChanged(mode) => appearanceMode := Some(mode);
      case MainWindowClosed => exiting := true;
      case _ =>
    }

    method UpdateReady(m: Message)
      requires ready && !panicked
      modifies this
      ensures State() == Handled(old(State()), m)
    {
      match m
      case Service(Terminal(_)) => exiting := true;
      case AppearanceChanged(m') => mode := m';
      case ShutdownComplete => exiting := true;
      case _ =>
    }
  }

  // ---------------------------------------------------------------- what the stream carries

  /** The events a history has emitted, in order. */
  function EventsOf(log: seq<Mark>): (r: seq<SpawnEvent>) {
    if log == [] then []
    else
      var last := log[|log| - 1];
      EventsOf(log[..|log| - 1]) + (if last.Emit? then [last.event] else [])
  }

  /** The events among the messages the app has received. */
  function EventsIn(ms: seq<Message>): (r: seq<SpawnEvent>) {
    if ms == [] then []
    else
      var last := ms[|ms| - 1];
      EventsIn(ms[..|ms| - 1]) + (if last.Service? then [last.event] else [])
  }

  ghost predicate SpawnBeforeReady(events: seq<SpawnEvent>) {
    forall j :: 0 <= j < |events| && events[j].BootReady? ==> ChildSpawned in events[..j]
  }

  lemma EmittedEvents(log: seq<Mark>, event: SpawnEvent)
    ensures event in EventsOf(log) <==> Emit(event) in log
  {
    if log != [] {
      EmittedEvents(log[..|log| - 1], event);
      assert log == log[..|log| - 1] + [log[|log| - 1]];
    }
  }

  lemma {:induction false} HistoryToStream(log: seq<Mark>)
    requires SpawnedFirst(log)
    ensures SpawnBeforeReady(EventsOf(log))
  {
    if log != [] {
      var before := log[..|log| - 1];
      forall j | 0 <= j < |before| && before[j].Emit? && before[j].event.BootReady?
        ensures Emit(ChildSpawned) in before[..j]
      {
        assert before[j] == log[j] && before[..j] == log[..j];
      }
      HistoryToStream(before);
      EmittedEvents(before, ChildSpawned);
      var events, all := EventsOf(before), EventsOf(log);
      forall j | 0 <= j < |all| && all[j].BootReady? ensures ChildSpawned in all[..j] {
        assert all[..j] == events[..j];
        if j == |events| {
          assert events[..j] == events;
        }
      }
    }
  }

  /** This message ends the app in this state: a Terminal, closing the splash, or the end of a shutdown. */
  predicate Ends(app: AppState, m: Message) {
    (m.Service? && m.event.Terminal?) || (app.Booting? && m.MainWindowClosed?) || (app.Ready? && m.ShutdownComplete?)
  }

  /** Some message received so far ended the app. */
  predicate Ended(ms: seq<Message>) {
    exists i :: 0 <= i < |ms| && Ends(HandledAll(BOOT, ms[..i]), ms[i])
  }

  lemma EndedExtends(before: seq<Message>, m: Message)
    ensures Ended(before + [m]) <==> Ended(before) || Ends(HandledAll(BOOT, before), m)
  {
    var ms := before + [m];
    assert ms[..|before|] == before;
    assert forall i :: 0 <= i < |before| ==> ms[i] == before[i] && ms[..i] == before[..i];
    if Ended(before) {
      var i :| 0 <= i < |before| && Ends(HandledAll(BOOT, before[..i]), before[i]);
      assert Ends(HandledAll(BOOT, ms[..i]), ms[i]);
    }
  }

  lemma OneMessageEnds(app: AppState, m: Message)
    ensures var next := Handled(app, m);
            next.Panicked? || (!app.Panicked? && (next.exiting <==> app.exiting || Ends(app, m)))
  {
  }

  /** Unless it panicked, the app exits exactly when some message ended it. */
  lemma {:induction false} ExitsWhenEnded(ms: seq<Message>)
    ensures HandledAll(BOOT, ms).Panicked? || (HandledAll(BOOT, ms).exiting <==> Ended(ms))
  {
    if ms != [] {
      var before, m := ms[..|ms| - 1], ms[|ms| - 1];
      ExitsWhenEnded(before);
      OneMessageEnds(HandledAll(BOOT, before), m);
      assert Ended(ms) <==> Ended(before) || Ends(HandledAll(BOOT, before), m) by {
        EndedExtends(before, m);
        assert before + [m] == ms;
      }
    }
  }

  /** The app follows the stream: it is Ready exactly when a BootReady arrived, with the latest appearance. */
  ghost predicate Follows(app: AppState, ms: seq<Message>) {
    match app
    case Booting(hasClient, stash, _) =>
      && (hasClient <==> ChildSpawned in EventsIn(ms))
      && stash == LastAppearance(ms)
      && (forall v :: BootReady(v) !in EventsIn(ms))
    case Ready(mode, _) =>
      && mode == (if LastAppearance(ms).Some? then LastAppearance(ms).value else Dark)
      && (exists v :: BootReady(v) in EventsIn(ms))
    case Panicked => false
  }

  function LastAppearance(ms: seq<Message>): (r: Option<Mode>) {
    if ms == [] then None
    else if ms[|ms| - 1].AppearanceChanged? then Some(ms[|ms| - 1].mode)
    else LastAppearance(ms[..|ms| - 1])
  }

  lemma {:induction false} StreamFollowed(ms: seq<Message>)
    requires SpawnBeforeReady(EventsIn(ms))
    ensures Follows(HandledAll(BOOT, ms), ms)
  {
    if ms != [] {
      var before, m := ms[..|ms| - 1], ms[|ms| - 1];
      var events, all := EventsIn(before), EventsIn(ms);
      forall j | 0 <= j < |events| && events[j].BootReady? ensures ChildSpawned in events[..j] {
        assert all[j] == events[j] && all[..j] == events[..j];
      }
      StreamFollowed(before);
      if m.Service? && m.event.BootReady? {
        assert all[|events|] == m.event && all[..|events|] == events;
      }
      assert forall e :: e in all <==> e in events || (m.Service? && m.event == e);
    }
  }

  lemma SpawnBeforeReadyPrefix(some: seq<SpawnEvent>, all: seq<SpawnEvent>)
    requires some <= all && SpawnBeforeReady(all)
    ensures SpawnBeforeReady(some)
  {
    forall j | 0 <= j < |some| && some[j].BootReady? ensures ChildSpawned in some[..j] {
      assert all[..j] == some[..j];
    }
  }

  /**
   * The app never hits its `expect`: whatever the supervision run, wherever the stream stops, and whatever other
   * messages arrive in between. It is Ready exactly when it has received a BootReady, shows the latest appearance,
   * and exits exactly when some message ended it.
   */
  lemma AppNeverPanics(acts: seq<Act>, ms: seq<Message>)
    requires Legal(START, acts)
    requires EventsIn(ms) <= EventsOf(After(START, acts).log)
    ensures Follows(HandledAll(BOOT, ms), ms)
    ensures !HandledAll(BOOT, ms).Panicked?
    ensures HandledAll(BOOT, ms).Ready? <==> exists v :: BootReady(v) in EventsIn(ms)
    ensures HandledAll(BOOT, ms).exiting <==> Ended(ms)
  {
    ExitsWhenEnded(ms);
    BootEvents(acts);
    HistoryToStream(After(START, acts).log);
    SpawnBeforeReadyPrefix(EventsIn(ms), EventsOf(After(START, acts).log));
    StreamFollowed(ms);
  }

  /** Without that order the `expect` does fire: the protocol is what keeps the app alive. */
  lemma UnspawnedReadyPanics(v: nat)
    ensures HandledAll(BOOT, [Service(BootReady(v))]).Panicked?
  {
    assert HandledAll(BOOT, [Service(BootReady(v))][..0]) == BOOT;
  }
}
