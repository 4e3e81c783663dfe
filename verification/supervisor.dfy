/**
 * Supervision of the Service child (crates/app/src/service_client.rs): the initial spawn flow, any number of
 * concurrent crash handlers, and shutdown, interleaved at every access to shared state.
 *
 * A step touches the shared fields at most once. What the operating system and the Service do (exit codes, launch
 * failures, replies, timeouts, when a task reports a crash and for which generation) is left open: it is a
 * parameter of the step. `log` is a history variable: nothing in the protocol reads it.
 */
module Supervisor {
  import opened Wrappers

  const BACKOFF_INITIAL_SECS: nat := 1
  const BACKOFF_MAX_SECS: nat := 30
  const CRASHLOOP_THRESHOLD: nat := 3

  /** Why the client gave up. Exit code `None` is a signal or a failed wait. */
  datatype Cause =
    | CleanExit
    | BootExit(code: int)
    | CrashLoop(exit: Option<int>)
    | InitialBootFailed(exit: Option<int>)
    | LaunchFailed
    | VersionMismatch
    | SchemaVersionChanged(was: nat, now: nat)
    | SchemaBaselineMissing
    | RequestFailed

  datatype SpawnEvent =
    | ChildSpawned
    | BootReady(schema: nat)
    | Terminal(cause: Cause)
    | HealthRespawning(attempt: nat, delay: nat)
    | HealthPersistentlyFailing
    | HealthHealthy

  /** Marks of the history: what was launched, installed and emitted, and the crash accounting. */
  datatype Mark =
    | Launch(generation: nat)
    | Install(generation: nat)
    | Record(count: nat)
    | Reset
    | Emit(event: SpawnEvent)

  /** How a request to the child ends; `Classified` is an error that already says how the boot failed. */
  datatype Reply = Answer(schema: nat) | WrongVersion | Crashed | Classified(exit: Option<int>) | OtherError

  /** The initial spawn flow (`run_spawn_flow`), at its accesses to shared state. */
  datatype BootPc =
    | BootLaunching
    | BootLaunched
    | BootPinging
    | BootElevating
    | BootFailing(cause: Cause)
    | BootGreeting
    | BootAwaitingReady
    | BootStoring(schema: nat)
    | BootReporting(schema: nat)
    | BootSucceeded
    | BootFailed
    | BootAbandoned

  /** A crash handler (`handle_crash`, `respawn`, `handshake_post_install`), at its accesses to shared state. */
  datatype HandlerPc =
    | Entered(dying: nat)                  // check is_shutting_down
    | NotShutting(dying: nat)              // check first_boot_ready
    | Booted(dying: nat)                   // take the state if it is still `dying`
    | Taken(dying: nat)                    // bump current_generation
    | Bumped(dying: nat)                   // fail everything pending
    | Drained(dying: nat)                  // wait for the child, check is_shutting_down
    | Reaped(exit: Option<int>)            // load the backoff
    | Doubling(exit: Option<int>, secs: nat)
    | Announcing(exit: Option<int>, secs: nat)
    | Sleeping(exit: Option<int>)          // check is_shutting_down, classify the exit code
    | Counting(exit: Option<int>)          // record the crash
    | Respawning                           // load current_generation
    | Gate(next: nat)                      // check is_shutting_down
    | Launching(next: nat)
    | Launched(next: nat)                  // check is_shutting_down
    | Installing(next: nat)
    | Pinging(next: nat)
    | Greeting(next: nat)
    | AwaitingReady(next: nat)
    | Comparing(schema: nat)
    | ResettingCrashes(schema: nat)
    | ResettingBackoff(schema: nat, recovered: bool)
    | Recovering(schema: nat)
    | Reporting(schema: nat)
    | TearingDown(cause: Cause)
    | Tripped(exit: Option<int>)
    | Ending(cause: Cause)
    | HandingOff
    | Done

  datatype Client = Client(
    state: Option<nat>,      // generation of the installed RunningState
    current: nat,            // current_generation
    shuttingDown: bool,
    baseline: Option<nat>,   // schema version in first_boot_ready
    crashes: nat,            // consecutive_crashes
    backoff: nat,            // current_backoff_secs
    boot: BootPc,
    handlers: seq<HandlerPc>,
    log: seq<Mark>)
  {
    function Marked(mark: Mark): (r: Client) {
      this.(log := log + [mark])
    }
  }

  const START := Client(None, 1, false, None, 0, BACKOFF_INITIAL_SECS, BootLaunching, [], [])

  /** The open part of a step. */
  datatype Choice = Choice(exit: Option<int>, ok: bool, reply: Reply)

  datatype Act =
    | Boot(choice: Choice)              // the initial spawn flow moves
    | Handle(h: nat, choice: Choice)    // crash handler `h` moves
    | Trigger(generation: nat)          // a reader or heartbeat task reports a crash
    | ShutDown                          // is_shutting_down is set
    | DropState                         // the client is dropped: the state goes

  // ---------------------------------------------------------------- crash accounting

  function NextBackoff(secs: nat): (r: nat) {
    if secs * 2 < BACKOFF_MAX_SECS then secs * 2 else BACKOFF_MAX_SECS
  }

  function Delay(backoff: nat): (r: nat) {
    if backoff < BACKOFF_INITIAL_SECS then BACKOFF_INITIAL_SECS else backoff
  }

  /** Exit codes that name a deterministic boot failure. */
  predicate IsBootExitCode(code: int) {
    70 <= code <= 74
  }

  // ---------------------------------------------------------------- the initial spawn flow

  predicate BootMoves(pc: BootPc) {
    !pc.BootSucceeded? && !pc.BootFailed? && !pc.BootAbandoned?
  }

  function BootStep(c: Client, choice: Choice): (r: Client)
    requires BootMoves(c.boot)
  {
    match c.boot
    case BootLaunching =>
      c.Marked(Launch(1)).(boot := if choice.ok then BootLaunched else BootFailing(LaunchFailed))
    case BootLaunched =>
      c.Marked(Install(1)).(state := Some(1), current := 1, boot := BootPinging)
    case BootPinging =>
      c.(boot := match choice.reply
                 case Answer(_) => BootGreeting
                 case WrongVersion => BootFailing(VersionMismatch)
                 case Classified(exit) => BootFailing(InitialBootFailed(exit))
                 case _ => BootElevating)
    case BootElevating => c.(state := None, boot := BootFailing(InitialBootFailed(choice.exit)))
    case BootFailing(cause) => c.Marked(Emit(Terminal(cause))).(boot := BootFailed)
    case BootGreeting =>
      if choice.ok then c.Marked(Emit(ChildSpawned)).(boot := BootAwaitingReady)
      else c.(boot := BootAbandoned)
    case BootAwaitingReady =>
      c.(boot := match choice.reply
                 case Answer(schema) => BootStoring(schema)
                 case Classified(exit) => BootFailing(InitialBootFailed(exit))
                 case _ => BootElevating)
    case BootStoring(schema) => c.(baseline := Some(schema), boot := BootReporting(schema))
    case BootReporting(schema) => c.Marked(Emit(BootReady(schema))).(boot := BootSucceeded)
    case _ => c
  }

  // ---------------------------------------------------------------- a crash handler

  /** What follows the backoff sleep. */
  function AfterSleep(shuttingDown: bool, exit: Option<int>): (r: HandlerPc) {
    if shuttingDown then Done
    else if exit == Some(0) then Ending(CleanExit)
    else if exit.Some? && IsBootExitCode(exit.value) then Ending(BootExit(exit.value))
    else Counting(exit)
  }

  function AfterReply(reply: Reply, next: HandlerPc): (r: HandlerPc) {
    match reply
    case Answer(_) => next
    case WrongVersion => TearingDown(VersionMismatch)
    case Crashed => HandingOff
    case _ => TearingDown(RequestFailed)
  }

  function Compare(baseline: Option<nat>, schema: nat): (r: HandlerPc) {
    match baseline
    case None => TearingDown(SchemaBaselineMissing)
    case Some(first) => if first == schema then ResettingCrashes(schema) else TearingDown(SchemaVersionChanged(first, schema))
  }

  /** Where the handler goes next, by what it reads. */
  function NextPc(c: Client, pc: HandlerPc, choice: Choice): (r: HandlerPc) {
    match pc
    case Entered(g) => if c.shuttingDown then Done else NotShutting(g)
    case NotShutting(g) => if c.baseline == None then Done else Booted(g)
    case Booted(g) => if c.state == Some(g) then Taken(g) else Done
    case Taken(g) => Bumped(g)
    case Bumped(g) => Drained(g)
    case Drained(_) => if c.shuttingDown then Done else Reaped(choice.exit)
    case Reaped(exit) => Doubling(exit, Delay(c.backoff))
    case Doubling(exit, secs) => Announcing(exit, secs)
    case Announcing(exit, secs) => Sleeping(exit)
    case Sleeping(exit) => AfterSleep(c.shuttingDown, exit)
    case Counting(exit) => if c.crashes + 1 >= CRASHLOOP_THRESHOLD then Tripped(exit) else Respawning
    case Tripped(exit) => Ending(CrashLoop(exit))
    case Respawning => Gate(c.current)
    case Gate(n) => if c.shuttingDown then Done else Launching(n)
    case Launching(n) => if choice.ok then Launched(n) else Ending(LaunchFailed)
    case Launched(n) => if c.shuttingDown then Done else Installing(n)
    case Installing(n) => Pinging(n)
    case Pinging(n) => AfterReply(choice.reply, Greeting(n))
    case Greeting(n) => AwaitingReady(n)
    case AwaitingReady(n) =>
      if choice.reply.Answer? then Comparing(choice.reply.schema) else AfterReply(choice.reply, Done)
    case Comparing(schema) => Compare(c.baseline, schema)
    case ResettingCrashes(schema) => ResettingBackoff(schema, c.crashes > 0)
    case ResettingBackoff(schema, recovered) => if recovered then Recovering(schema) else Reporting(schema)
    case Recovering(schema) => Reporting(schema)
    case TearingDown(cause) => Ending(cause)
    case _ => Done
  }

  /** What the handler writes to the shared fields. */
  function Effect(c: Client, pc: HandlerPc): (r: Client) {
    match pc
    case Booted(g) => if c.state == Some(g) then c.(state := None) else c
    case Taken(_) => c.(current := c.current + 1)
    case Doubling(_, secs) => c.(backoff := NextBackoff(secs))
    case Counting(_) => c.(crashes := c.crashes + 1)
    case Installing(n) => c.(state := Some(n), current := n)
    case ResettingCrashes(_) => c.(crashes := 0)
    case ResettingBackoff(_, _) => c.(backoff := BACKOFF_INITIAL_SECS)
    case TearingDown(_) => c.(state := None)
    case _ => c
  }

  /** The mark the handler leaves: at most one. */
  function Trace(c: Client, pc: HandlerPc): (r: seq<Mark>) {
    match pc
    case Announcing(_, secs) => [Emit(HealthRespawning(c.crashes + 1, secs))]
    case Counting(_) => [Record(c.crashes + 1)]
    case Tripped(_) => [Emit(HealthPersistentlyFailing)]
    case Launching(n) => [Launch(n)]
    case Installing(n) => [Install(n)]
    case Greeting(_) => [Emit(ChildSpawned)]
    case ResettingCrashes(_) => [Reset]
    case Recovering(_) => [Emit(HealthHealthy)]
    case Reporting(schema) => [Emit(BootReady(schema))]
    case Ending(cause) => [Emit(Terminal(cause))]
    case _ => []
  }

  function HandlerStep(c: Client, h: nat, choice: Choice): (r: Client)
    requires h < |c.handlers| && c.handlers[h] != Done
  {
    var pc := c.handlers[h];
    var moved := c.handlers[h := NextPc(c, pc, choice)];
    Effect(c, pc).(
      handlers := if pc.HandingOff? then moved + [Entered(c.current)] else moved,
      log := c.log + Trace(c, pc))
  }

  predicate Enabled(c: Client, a: Act) {
    match a
    case Boot(_) => BootMoves(c.boot)
    case Handle(h, _) => h < |c.handlers| && c.handlers[h] != Done
    case Trigger(_) => true
    case ShutDown => true
    case DropState => c.shuttingDown
  }

  function Step(c: Client, a: Act): (r: Client)
    requires Enabled(c, a)
  {
    match a
    case Boot(choice) => BootStep(c, choice)
    case Handle(h, choice) => HandlerStep(c, h, choice)
    case Trigger(g) => c.(handlers := c.handlers + [Entered(g)])
    case ShutDown => c.(shuttingDown := true)
    case DropState => c.(state := None)
  }

  // ---------------------------------------------------------------- single ownership

  /** Between taking the dying state and installing its successor. */
  predicate Owns(pc: HandlerPc) {
    pc.Taken? || pc.Bumped? || pc.Drained? || pc.Reaped? || pc.Doubling? || pc.Announcing? || pc.Sleeping? ||
    pc.Counting? || pc.Respawning? || pc.Gate? || pc.Launching? || pc.Launched? || pc.Installing?
  }

  predicate BootOwns(pc: BootPc) {
    pc.BootLaunching? || pc.BootLaunched?
  }

  ghost predicate NobodyOwns(c: Client) {
    forall h :: 0 <= h < |c.handlers| ==> !Owns(c.handlers[h])
  }

  /** At most one of: a state is installed, a handler owns the succession, the initial flow has not installed yet. */
  ghost predicate SingleOwner(c: Client) {
    && (c.state.Some? ==> NobodyOwns(c) && !BootOwns(c.boot))
    && (BootOwns(c.boot) ==> NobodyOwns(c))
    && (forall h, k :: 0 <= h < k < |c.handlers| ==> !(Owns(c.handlers[h]) && Owns(c.handlers[k])))
  }

  /** Until the first boot has succeeded no handler gets past its check. */
  predicate BeforeBoot(pc: HandlerPc) {
    pc.Entered? || pc.NotShutting? || pc.Done?
  }

  ghost predicate BaselineFirst(c: Client) {
    && (c.baseline == None ==> forall h :: 0 <= h < |c.handlers| ==> BeforeBoot(c.handlers[h]))
    && (c.baseline.Some? <==> c.boot.BootReporting? || c.boot.BootSucceeded?)
    && (c.boot.BootReporting? ==> c.baseline == Some(c.boot.schema))
  }

  lemma StepBaseline(c: Client, a: Act)
    requires Enabled(c, a) && BaselineFirst(c)
    ensures BaselineFirst(Step(c, a))
  {
  }

  /** What a handler's step leaves alone. */
  ghost predicate Framed(c: Client, h: nat, c': Client) {
    && h < |c.handlers| <= |c'.handlers|
    && (forall k :: 0 <= k < |c.handlers| && k != h ==> c'.handlers[k] == c.handlers[k])
    && (forall k :: |c.handlers| <= k < |c'.handlers| ==> c'.handlers[k] == Entered(c.current))
    && c'.boot == c.boot && c'.baseline == c.baseline && c'.shuttingDown == c.shuttingDown
  }

  /** Ownership passes from the installed state to the handler that takes it, and back when it installs. */
  ghost predicate OwnershipMoves(c: Client, h: nat, c': Client)
    requires Framed(c, h, c')
  {
    var pc, pc' := c.handlers[h], c'.handlers[h];
    && (Owns(pc') && !Owns(pc) ==> c.state.Some? && c'.state == None)
    && (c'.state.Some? ==> c'.state == c.state || (pc.Installing? && !Owns(pc')))
    && (Owns(pc) && Owns(pc') ==> c'.state == c.state)
  }

  lemma HandlerFrame(c: Client, h: nat, choice: Choice)
    requires Enabled(c, Handle(h, choice))
    ensures Framed(c, h, HandlerStep(c, h, choice))
  {
  }

  lemma HandlerOwnership(c: Client, h: nat, choice: Choice)
    requires Enabled(c, Handle(h, choice)) && Framed(c, h, HandlerStep(c, h, choice))
    ensures OwnershipMoves(c, h, HandlerStep(c, h, choice))
  {
  }

  lemma StepOwner(c: Client, a: Act)
    requires Enabled(c, a) && BaselineFirst(c) && SingleOwner(c)
    ensures SingleOwner(Step(c, a))
  {
    if a.Handle? {
      HandlerFrame(c, a.h, a.choice);
      HandlerOwnership(c, a.h, a.choice);
      HandlerOwner(c, a.h, Step(c, a));
    }
  }

  lemma HandlerOwner(c: Client, h: nat, c': Client)
    requires Framed(c, h, c') && OwnershipMoves(c, h, c') && SingleOwner(c) && BaselineFirst(c)
    ensures SingleOwner(c')
  {
    assert BootOwns(c.boot) ==> c.state == None && c.baseline == None;
  }

  // ---------------------------------------------------------------- generations

  function Launches(log: seq<Mark>): (r: seq<nat>) {
    if log == [] then []
    else
      var last := log[|log| - 1];
      Launches(log[..|log| - 1]) + (if last.Launch? then [last.generation] else [])
  }

  function Installs(log: seq<Mark>): (r: seq<nat>) {
    if log == [] then []
    else
      var last := log[|log| - 1];
      Installs(log[..|log| - 1]) + (if last.Install? then [last.generation] else [])
  }

  lemma MarkGenerations(log: seq<Mark>, mark: Mark)
    ensures Launches(log + [mark]) == Launches(log) + (if mark.Launch? then [mark.generation] else [])
    ensures Installs(log + [mark]) == Installs(log) + (if mark.Install? then [mark.generation] else [])
  {
    assert (log + [mark])[..|log|] == log;
  }

  /** 1, 2, 3, ... */
  ghost predicate Consecutive(generations: seq<nat>) {
    forall i :: 0 <= i < |generations| ==> generations[i] == i + 1
  }

  /** What the owner's program counter says about the counters: `installs` and `launches` done so far. */
  predicate OwnerGeneration(pc: HandlerPc, current: nat, installs: nat, launches: nat) {
    match pc
    case Taken(g) => g == current == installs == launches
    case Bumped(g) => g + 1 == current == installs + 1 && launches == installs
    case Drained(g) => g + 1 == current == installs + 1 && launches == installs
    case Gate(n) => n == current == installs + 1 && launches == installs
    case Launching(n) => n == current == installs + 1 && launches == installs
    case Launched(n) => n == current == installs + 1 && launches == n
    case Installing(n) => n == current == installs + 1 && launches == n
    case _ => Owns(pc) ==> current == installs + 1 && launches == installs
  }

  ghost predicate Generations(c: Client) {
    var installs, launches := |Installs(c.log)|, |Launches(c.log)|;
    && Consecutive(Launches(c.log)) && Consecutive(Installs(c.log))
    && installs <= launches <= installs + 1 && (c.baseline == None ==> launches <= 1)
    && (c.state.Some? ==> c.state.value == c.current == installs == launches)
    && (c.boot.BootLaunching? ==> c.current == 1 && installs == launches == 0)
    && (c.boot.BootLaunched? ==> c.current == 1 && installs == 0 && launches == 1)
    && (forall h :: 0 <= h < |c.handlers| ==> OwnerGeneration(c.handlers[h], c.current, installs, launches))
  }

  /** The marks a handler's step adds, seen through the two generation filters. */
  lemma HandlerMarks(c: Client, h: nat, choice: Choice)
    requires Enabled(c, Handle(h, choice))
    ensures var c' := HandlerStep(c, h, choice);
            && Launches(c'.log) == Launches(c.log) +
               (if c.handlers[h].Launching? then [c.handlers[h].next] else [])
            && Installs(c'.log) == Installs(c.log) +
               (if c.handlers[h].Installing? then [c.handlers[h].next] else [])
  {
    var c' := HandlerStep(c, h, choice);
    if c'.log != c.log {
      assert c'.log == c.log + [c'.log[|c.log|]];
      MarkGenerations(c.log, c'.log[|c.log|]);
    }
  }

  /** A handler's step, in terms of the counters alone. */
  lemma HandlerCounters(c: Client, h: nat, choice: Choice, installs: nat, launches: nat)
    requires Enabled(c, Handle(h, choice)) && OwnerGeneration(c.handlers[h], c.current, installs, launches)
    requires c.state.Some? ==> c.state.value == c.current == installs == launches
    ensures var c', pc := HandlerStep(c, h, choice), c.handlers[h];
            var installs' := if pc.Installing? then installs + 1 else installs;
            var launches' := if pc.Launching? then launches + 1 else launches;
            && OwnerGeneration(c'.handlers[h], c'.current, installs', launches')
            && (pc.Installing? ==> c'.state == Some(c'.current) && c'.current == installs' == launches')
            && (!Owns(pc) ==> c'.current == c.current)
  {
  }

  lemma ConsecutiveSnoc(generations: seq<nat>, next: nat)
    requires Consecutive(generations) && next == |generations| + 1
    ensures Consecutive(generations + [next])
  {
  }

  /** The generation counters after a handler's step. */
  ghost predicate GenerationsMove(c: Client, h: nat, c': Client)
    requires Framed(c, h, c')
  {
    var pc, installs, launches := c.handlers[h], |Installs(c'.log)|, |Launches(c'.log)|;
    && Consecutive(Launches(c'.log)) && Consecutive(Installs(c'.log))
    && OwnerGeneration(c'.handlers[h], c'.current, installs, launches)
    && (pc.Installing? ==> c'.state == Some(c'.current) && c'.current == installs == launches)
    && installs <= launches <= installs + 1
    && (!Owns(pc) ==> c'.current == c.current && installs == |Installs(c.log)| && launches == |Launches(c.log)|)
  }

  lemma HandlerGeneration(c: Client, h: nat, choice: Choice)
    requires Enabled(c, Handle(h, choice)) && Generations(c) && Framed(c, h, HandlerStep(c, h, choice))
    ensures GenerationsMove(c, h, HandlerStep(c, h, choice))
  {
    var pc, installs, launches := c.handlers[h], Installs(c.log), Launches(c.log);
    HandlerMarks(c, h, choice);
    assert OwnerGeneration(pc, c.current, |installs|, |launches|);
    HandlerCounters(c, h, choice, |installs|, |launches|);
    if pc.Launching? {
      ConsecutiveSnoc(launches, pc.next);
    }
    if pc.Installing? {
      ConsecutiveSnoc(installs, pc.next);
    }
  }

  lemma StepGenerations(c: Client, a: Act)
    requires Enabled(c, a) && BaselineFirst(c) && SingleOwner(c) && Generations(c)
    ensures Generations(Step(c, a))
  {
    match a
    case Boot(choice) => BootGenerations(c, choice);
    case Handle(h, choice) =>
      HandlerFrame(c, h, choice);
      HandlerOwnership(c, h, choice);
      HandlerGeneration(c, h, choice);
      OthersGenerations(c, h, HandlerStep(c, h, choice));
    case Trigger(_) =>
    case ShutDown =>
    case DropState =>
  }

  lemma BootMarks(c: Client, choice: Choice)
    requires BootMoves(c.boot)
    ensures var c' := BootStep(c, choice);
            && Launches(c'.log) == Launches(c.log) + (if c.boot.BootLaunching? then [1] else [])
            && Installs(c'.log) == Installs(c.log) + (if c.boot.BootLaunched? then [1] else [])
  {
    var c' := BootStep(c, choice);
    if c'.log != c.log {
      assert c'.log == c.log + [c'.log[|c.log|]];
      MarkGenerations(c.log, c'.log[|c.log|]);
    }
  }

  /** A step of the initial flow, in terms of the counters alone. */
  lemma BootCounters(c: Client, choice: Choice, installs: nat, launches: nat)
    requires BootMoves(c.boot)
    requires c.boot.BootLaunching? ==> c.current == 1 && installs == launches == 0
    requires c.boot.BootLaunched? ==> c.current == 1 && installs == 0 && launches == 1
    requires c.state.Some? ==> c.state.value == c.current == installs == launches
    ensures var c' := BootStep(c, choice);
            var installs' := if c.boot.BootLaunched? then 1 else installs;
            var launches' := if c.boot.BootLaunching? then 1 else launches;
            && c'.current == c.current && c'.handlers == c.handlers
            && (c'.state.Some? ==> c'.state == c.state || (c.boot.BootLaunched? && c'.state == Some(1)))
            && (c'.boot.BootLaunched? ==> c.boot.BootLaunching?) && !c'.boot.BootLaunching?
            && (c'.baseline == None ==> c.baseline == None)
  {
  }

  lemma BootGenerations(c: Client, choice: Choice)
    requires BootMoves(c.boot) && BaselineFirst(c) && SingleOwner(c) && Generations(c)
    ensures Generations(BootStep(c, choice))
  {
    var c', installs, launches := BootStep(c, choice), Installs(c.log), Launches(c.log);
    BootMarks(c, choice);
    BootCounters(c, choice, |installs|, |launches|);
    if c.boot.BootLaunching? {
      ConsecutiveSnoc(launches, 1);
    } else if c.boot.BootLaunched? {
      ConsecutiveSnoc(installs, 1);
    }
    assert forall h :: 0 <= h < |c'.handlers| && BootOwns(c.boot) ==> !Owns(c'.handlers[h]);
  }

  /** The step of one handler cannot disturb the generations seen by the others: they own nothing if it does. */
  lemma OthersGenerations(c: Client, h: nat, c': Client)
    requires Framed(c, h, c') && OwnershipMoves(c, h, c') && GenerationsMove(c, h, c')
    requires SingleOwner(c) && BaselineFirst(c) && Generations(c)
    ensures Generations(c')
  {
  }

  // ---------------------------------------------------------------- the crash loop bound

  /** Crashes recorded since the last successful boot. */
  function CrashesSince(log: seq<Mark>): (r: nat) {
    if log == [] then 0
    else match log[|log| - 1]
      case Reset => 0
      case Record(_) => CrashesSince(log[..|log| - 1]) + 1
      case _ => CrashesSince(log[..|log| - 1])
  }

  /** The latest of the launches and crash records. */
  function LastDecision(log: seq<Mark>): (r: Option<Mark>) {
    if log == [] then None
    else
      var last := log[|log| - 1];
      if last.Launch? || last.Record? then Some(last) else LastDecision(log[..|log| - 1])
  }

  predicate IsTrip(mark: Mark) {
    mark.Record? && mark.count >= CRASHLOOP_THRESHOLD
  }

  ghost predicate GaveUp(log: seq<Mark>) {
    exists i :: 0 <= i < |log| && IsTrip(log[i])
  }

  predicate BelowThreshold(decision: Option<Mark>) {
    decision.Some? && decision.value.Record? && decision.value.count < CRASHLOOP_THRESHOLD
  }

  /** Nothing is installed and nobody is left who could install anything. */
  ghost predicate Dead(c: Client) {
    c.state == None && NobodyOwns(c) && !BootOwns(c.boot)
  }

  /** A respawn launch directly follows a crash record below the threshold. */
  ghost predicate LaunchesFollowRecords(log: seq<Mark>) {
    forall j :: 0 <= j < |log| && log[j].Launch? && log[j].generation > 1 ==> BelowThreshold(LastDecision(log[..j]))
  }

  ghost predicate NoLaunchAfterTrip(log: seq<Mark>) {
    forall i, j :: 0 <= i < j < |log| && IsTrip(log[i]) ==> !log[j].Launch?
  }

  ghost predicate RecordsBounded(log: seq<Mark>) {
    forall i :: 0 <= i < |log| && log[i].Record? ==> 1 <= log[i].count <= CRASHLOOP_THRESHOLD
  }

  predicate DecidedToLaunch(pc: HandlerPc) {
    pc.Respawning? || pc.Gate? || pc.Launching?
  }

  predicate TripPending(pc: HandlerPc) {
    pc.Tripped? || (pc.Ending? && pc.cause.CrashLoop?)
  }

  ghost predicate TripReported(log: seq<Mark>) {
    exists i :: 0 <= i < |log| && log[i].Emit? && log[i].event.Terminal? && log[i].event.cause.CrashLoop?
  }

  ghost predicate CrashAccounting(c: Client) {
    && c.crashes == CrashesSince(c.log)
    && (GaveUp(c.log) ==> Dead(c))
    && (!GaveUp(c.log) ==> c.crashes < CRASHLOOP_THRESHOLD)
    && (forall h :: 0 <= h < |c.handlers| && DecidedToLaunch(c.handlers[h]) ==> BelowThreshold(LastDecision(c.log)))
    && (GaveUp(c.log) ==> TripReported(c.log) || exists h :: 0 <= h < |c.handlers| && TripPending(c.handlers[h]))
    && LaunchesFollowRecords(c.log) && NoLaunchAfterTrip(c.log) && RecordsBounded(c.log)
  }

  lemma MarkCrashes(log: seq<Mark>, mark: Mark)
    ensures CrashesSince(log + [mark]) ==
            match mark { case Reset => 0 case Record(_) => CrashesSince(log) + 1 case _ => CrashesSince(log) }
    ensures LastDecision(log + [mark]) == if mark.Launch? || mark.Record? then Some(mark) else LastDecision(log)
    ensures GaveUp(log + [mark]) <==> GaveUp(log) || IsTrip(mark)
    ensures TripReported(log) ==> TripReported(log + [mark])
  {
    var next := log + [mark];
    assert next[..|log|] == log && next[|log|] == mark;
    if GaveUp(log) {
      var i :| 0 <= i < |log| && IsTrip(log[i]);
      assert IsTrip(next[i]);
    }
    if TripReported(log) {
      var i :| 0 <= i < |log| && log[i].Emit? && log[i].event.Terminal? && log[i].event.cause.CrashLoop?;
      assert next[i] == log[i];
    }
  }

  lemma MarkHistory(log: seq<Mark>, mark: Mark)
    requires LaunchesFollowRecords(log) && NoLaunchAfterTrip(log) && RecordsBounded(log)
    requires mark.Launch? ==> !GaveUp(log) && (mark.generation > 1 ==> BelowThreshold(LastDecision(log)))
    requires mark.Record? ==> 1 <= mark.count <= CRASHLOOP_THRESHOLD
    ensures LaunchesFollowRecords(log + [mark]) && NoLaunchAfterTrip(log + [mark]) && RecordsBounded(log + [mark])
  {
    var next := log + [mark];
    forall j | 0 <= j < |next| && next[j].Launch? && next[j].generation > 1
      ensures BelowThreshold(LastDecision(next[..j]))
    {
      assert next[..j] == log[..j];
      if j == |log| {
        assert log[..j] == log;
      }
    }
  }

  /** Which mark a handler's step adds. */
  ghost predicate MarkAllowed(c: Client, pc: HandlerPc, mark: Mark) {
    && (mark.Launch? <==> pc.Launching?)
    && (mark.Install? <==> pc.Installing?)
    && (mark.Record? <==> pc.Counting?)
    && (mark.Record? ==> mark.count == c.crashes + 1)
    && (mark.Reset? <==> pc.ResettingCrashes?)
    && (pc.Ending? ==> mark == Emit(Terminal(pc.cause)))
  }

  ghost predicate MarkMoves(c: Client, h: nat, c': Client)
    requires Framed(c, h, c')
  {
    var pc := c.handlers[h];
    || (c'.log == c.log && !pc.Launching? && !pc.Counting? && !pc.ResettingCrashes? && !pc.Ending?)
    || (&& |c'.log| == |c.log| + 1 && c'.log == c.log + [c'.log[|c.log|]]
        && MarkAllowed(c, pc, c'.log[|c.log|]))
  }

  /** How a handler's step moves the crash counter and the two decisions it guards. */
  ghost predicate CrashMoves(c: Client, h: nat, c': Client)
    requires Framed(c, h, c')
  {
    var pc, pc' := c.handlers[h], c'.handlers[h];
    && c'.crashes == (if pc.Counting? then c.crashes + 1 else if pc.ResettingCrashes? then 0 else c.crashes)
    && (DecidedToLaunch(pc') ==>
          (DecidedToLaunch(pc) && !pc.Launching?) || (pc.Counting? && c'.crashes < CRASHLOOP_THRESHOLD))
    && (TripPending(pc) ==> TripPending(pc') || pc.Ending?)
    && (pc.Counting? && c'.crashes >= CRASHLOOP_THRESHOLD ==> TripPending(pc') && !Owns(pc'))
    && (pc.Counting? ==> c'.state == c.state)
  }

  lemma HandlerMark(c: Client, h: nat, choice: Choice)
    requires Enabled(c, Handle(h, choice)) && Framed(c, h, HandlerStep(c, h, choice))
    ensures MarkMoves(c, h, HandlerStep(c, h, choice))
  {
  }

  lemma HandlerCrash(c: Client, h: nat, choice: Choice)
    requires Enabled(c, Handle(h, choice)) && Framed(c, h, HandlerStep(c, h, choice))
    ensures CrashMoves(c, h, HandlerStep(c, h, choice))
  {
  }

  lemma StepAccounting(c: Client, a: Act)
    requires Enabled(c, a) && BaselineFirst(c) && SingleOwner(c) && CrashAccounting(c)
    ensures CrashAccounting(Step(c, a))
  {
    match a
    case Boot(choice) => BootAccounting(c, choice);
    case Handle(h, choice) =>
      var c' := HandlerStep(c, h, choice);
      HandlerFrame(c, h, choice);
      HandlerMark(c, h, choice);
      HandlerCrash(c, h, choice);
      HandlerOwnership(c, h, choice);
      if c'.log == c.log {
        SilentAccounting(c, h, c');
      } else {
        MarkedAccounting(c, h, c', c'.log[|c.log|]);
      }
    case Trigger(_) => TriggerAccounting(c, a.generation);
    case ShutDown =>
    case DropState =>
  }

  lemma SilentAccounting(c: Client, h: nat, c': Client)
    requires Framed(c, h, c') && MarkMoves(c, h, c') && CrashMoves(c, h, c') && OwnershipMoves(c, h, c')
    requires BaselineFirst(c) && SingleOwner(c) && CrashAccounting(c) && c'.log == c.log
    ensures CrashAccounting(c')
  {
    if GaveUp(c.log) && !TripReported(c.log) {
      var k :| 0 <= k < |c.handlers| && TripPending(c.handlers[k]);
      assert TripPending(c'.handlers[k]);
    }
  }

  lemma MarkedAccounting(c: Client, h: nat, c': Client, mark: Mark)
    requires Framed(c, h, c') && MarkMoves(c, h, c') && CrashMoves(c, h, c') && OwnershipMoves(c, h, c')
    requires BaselineFirst(c) && SingleOwner(c) && CrashAccounting(c) && c'.log == c.log + [mark]
    ensures CrashAccounting(c')
  {
    var pc := c.handlers[h];
    assert c'.log[|c.log|] == mark;
    MarkCrashes(c.log, mark);
    MarkHistory(c.log, mark);
    if pc.Ending? && pc.cause.CrashLoop? {
      assert c'.log[|c.log|] == mark;
      assert TripReported(c'.log);
    } else if GaveUp(c.log) && !TripReported(c.log) {
      var k :| 0 <= k < |c.handlers| && TripPending(c.handlers[k]);
      assert TripPending(c'.handlers[k]);
    }
  }

  lemma TriggerAccounting(c: Client, g: nat)
    requires CrashAccounting(c)
    ensures CrashAccounting(Step(c, Trigger(g)))
  {
    var c' := Step(c, Trigger(g));
    if GaveUp(c.log) && !TripReported(c.log) {
      var k :| 0 <= k < |c.handlers| && TripPending(c.handlers[k]);
      assert TripPending(c'.handlers[k]);
    }
  }

  /** The initial flow launches generation 1 first of all and never touches the crash counter. */
  ghost predicate BootMoved(c: Client, c': Client) {
    && c'.handlers == c.handlers && c'.crashes == c.crashes
    && (c'.state.Some? ==> c'.state == c.state || BootOwns(c.boot))
    && (BootOwns(c'.boot) ==> BootOwns(c.boot))
    && (c'.log == c.log ||
        (&& |c'.log| == |c.log| + 1 && c'.log == c.log + [c'.log[|c.log|]]
         && !c'.log[|c.log|].Record? && !c'.log[|c.log|].Reset?
         && (c'.log[|c.log|].Launch? ==> BootOwns(c.boot) && c'.log[|c.log|] == Launch(1))))
  }

  lemma BootMoving(c: Client, choice: Choice)
    requires BootMoves(c.boot)
    ensures BootMoved(c, BootStep(c, choice))
  {
  }

  lemma BootAccounting(c: Client, choice: Choice)
    requires BootMoves(c.boot) && BaselineFirst(c) && SingleOwner(c) && CrashAccounting(c)
    ensures CrashAccounting(BootStep(c, choice))
  {
    BootMoving(c, choice);
    BootMovedAccounting(c, BootStep(c, choice));
  }

  lemma BootMovedAccounting(c: Client, c': Client)
    requires BootMoved(c, c') && SingleOwner(c) && CrashAccounting(c)
    ensures CrashAccounting(c')
  {
    if c'.log != c.log {
      MarkCrashes(c.log, c'.log[|c.log|]);
      MarkHistory(c.log, c'.log[|c.log|]);
    }
  }

  // ---------------------------------------------------------------- the boot event protocol

  function Terminals(log: seq<Mark>): (r: nat) {
    if log == [] then 0
    else
      var last := log[|log| - 1];
      Terminals(log[..|log| - 1]) + (if last.Emit? && last.event.Terminal? then 1 else 0)
  }

  lemma MarkTerminals(log: seq<Mark>, mark: Mark)
    ensures Terminals(log + [mark]) == Terminals(log) + (if mark.Emit? && mark.event.Terminal? then 1 else 0)
  {
    assert (log + [mark])[..|log|] == log;
  }

  ghost predicate SpawnedFirst(log: seq<Mark>) {
    forall j :: 0 <= j < |log| && log[j].Emit? && log[j].event.BootReady? ==> Emit(ChildSpawned) in log[..j]
  }

  ghost predicate OneSchema(log: seq<Mark>, baseline: Option<nat>) {
    forall j :: 0 <= j < |log| && log[j].Emit? && log[j].event.BootReady? ==> baseline == Some(log[j].event.schema)
  }

  /** Delays the respawn loop can announce: 1, 2, 4, 8, 16, then 30. */
  predicate Rung(secs: nat) {
    secs == 1 || secs == 2 || secs == 4 || secs == 8 || secs == 16 || secs == 30
  }

  ghost predicate DelaysOnLadder(log: seq<Mark>) {
    forall j :: 0 <= j < |log| && log[j].Emit? && log[j].event.HealthRespawning? ==> Rung(log[j].event.delay)
  }

  ghost predicate BaselineNeverMissing(log: seq<Mark>) {
    Emit(Terminal(SchemaBaselineMissing)) !in log
  }

  /** What a handler's program counter says about the baseline and the backoff. */
  predicate HandlerEvents(pc: HandlerPc, baseline: Option<nat>) {
    && (pc.ResettingCrashes? || pc.ResettingBackoff? || pc.Recovering? || pc.Reporting? ==> baseline == Some(pc.schema))
    && (pc.TearingDown? || pc.Ending? ==> pc.cause != SchemaBaselineMissing)
    && (pc.Doubling? || pc.Announcing? ==> Rung(pc.secs))
  }

  predicate HasSpawned(pc: BootPc) {
    pc.BootAwaitingReady? || pc.BootStoring? || pc.BootReporting? || pc.BootSucceeded?
  }

  ghost predicate BootProtocol(c: Client) {
    && (HasSpawned(c.boot) ==> Emit(ChildSpawned) in c.log)
    && SpawnedFirst(c.log) && OneSchema(c.log, c.baseline)
    && Rung(c.backoff) && DelaysOnLadder(c.log) && BaselineNeverMissing(c.log)
    && (c.boot.BootFailing? ==> c.boot.cause != SchemaBaselineMissing)
    && (forall h :: 0 <= h < |c.handlers| ==> HandlerEvents(c.handlers[h], c.baseline))
    && (c.baseline == None ==> Terminals(c.log) == (if c.boot.BootFailed? then 1 else 0))
  }

  lemma MarkEvents(log: seq<Mark>, mark: Mark, baseline: Option<nat>)
    requires SpawnedFirst(log) && OneSchema(log, baseline) && DelaysOnLadder(log) && BaselineNeverMissing(log)
    requires mark.Emit? && mark.event.BootReady? ==> Emit(ChildSpawned) in log && baseline == Some(mark.event.schema)
    requires mark.Emit? && mark.event.HealthRespawning? ==> Rung(mark.event.delay)
    requires mark != Emit(Terminal(SchemaBaselineMissing))
    ensures var next := log + [mark];
            && SpawnedFirst(next) && OneSchema(next, baseline) && DelaysOnLadder(next) && BaselineNeverMissing(next)
            && (Emit(ChildSpawned) in log ==> Emit(ChildSpawned) in next)
  {
    var next := log + [mark];
    forall j | 0 <= j < |next| && next[j].Emit? && next[j].event.BootReady? ensures Emit(ChildSpawned) in next[..j] {
      assert next[..j] == log[..j];
      if j == |log| {
        assert log[..j] == log;
      }
    }
  }

  /** May a handler at `pc` add `mark`, given the baseline? */
  predicate EventAllowed(pc: HandlerPc, baseline: Option<nat>, mark: Mark) {
    && mark != Emit(Terminal(SchemaBaselineMissing))
    && (mark.Emit? && mark.event.BootReady? ==> baseline == Some(mark.event.schema))
    && (mark.Emit? && mark.event.HealthRespawning? ==> Rung(mark.event.delay))
    && (BeforeBoot(pc) ==> !mark.Emit?)
  }

  /** The event a handler's step emits, and the program counter it moves to. */
  ghost predicate EventMoves(c: Client, h: nat, c': Client)
    requires Framed(c, h, c')
  {
    && Rung(c'.backoff)
    && HandlerEvents(c'.handlers[h], c.baseline)
    && (c'.log == c.log ||
        (&& |c'.log| == |c.log| + 1 && c'.log == c.log + [c'.log[|c.log|]]
         && EventAllowed(c.handlers[h], c.baseline, c'.log[|c.log|])))
  }

  lemma HandlerRung(c: Client, h: nat, choice: Choice)
    requires Enabled(c, Handle(h, choice)) && Rung(c.backoff) && HandlerEvents(c.handlers[h], c.baseline)
    ensures Rung(HandlerStep(c, h, choice).backoff)
  {
  }

  /** The program counter a handler moves to keeps what its predecessor knew. */
  lemma HandlerKnows(c: Client, h: nat, choice: Choice)
    requires Enabled(c, Handle(h, choice)) && Rung(c.backoff) && HandlerEvents(c.handlers[h], c.baseline)
    requires c.baseline == None ==> BeforeBoot(c.handlers[h])
    ensures HandlerEvents(HandlerStep(c, h, choice).handlers[h], c.baseline)
  {
    assert HandlerEvents(NextPc(c, c.handlers[h], choice), c.baseline);
  }

  lemma HandlerEvent(c: Client, h: nat, choice: Choice)
    requires Enabled(c, Handle(h, choice)) && HandlerEvents(c.handlers[h], c.baseline)
    ensures var c' := HandlerStep(c, h, choice);
            c'.log == c.log ||
            (&& |c'.log| == |c.log| + 1 && c'.log == c.log + [c'.log[|c.log|]]
             && EventAllowed(c.handlers[h], c.baseline, c'.log[|c.log|]))
  {
  }

  lemma HandlerProtocol(c: Client, h: nat, c': Client)
    requires Framed(c, h, c') && EventMoves(c, h, c') && BaselineFirst(c) && BootProtocol(c)
    ensures BootProtocol(c')
  {
    if c'.log != c.log {
      var mark := c'.log[|c.log|];
      MarkEvents(c.log, mark, c.baseline);
      MarkTerminals(c.log, mark);
    }
  }

  /** The part of a step of the initial flow that the protocol depends on. */
  ghost predicate BootEventMoves(c: Client, c': Client) {
    && c'.handlers == c.handlers && c'.backoff == c.backoff
    && (c'.boot.BootFailing? ==> c'.boot.cause != SchemaBaselineMissing)
    && (c'.log == c.log ==> c'.boot.BootFailed? == c.boot.BootFailed?)
    && (c'.log == c.log && HasSpawned(c'.boot) ==> HasSpawned(c.boot))
    && (c'.log == c.log ||
        (&& |c'.log| == |c.log| + 1 && c'.log == c.log + [c'.log[|c.log|]]
         && var mark := c'.log[|c.log|];
            && mark != Emit(Terminal(SchemaBaselineMissing))
            && !(mark.Emit? && mark.event.HealthRespawning?)
            && (mark.Emit? && mark.event.BootReady? ==> HasSpawned(c.boot) && c.baseline == Some(mark.event.schema))
            && (HasSpawned(c'.boot) ==> HasSpawned(c.boot) || mark == Emit(ChildSpawned))
            && (c.baseline == None ==> (mark.Emit? && mark.event.Terminal? <==> c'.boot.BootFailed?) && !c.boot.BootFailed?)))
  }

  lemma BootEvent(c: Client, choice: Choice)
    requires BootMoves(c.boot) && BaselineFirst(c)
    requires c.boot.BootFailing? ==> c.boot.cause != SchemaBaselineMissing
    ensures BootEventMoves(c, BootStep(c, choice))
    ensures BootStep(c, choice).baseline == c.baseline ||
            (c.baseline == None && !BootStep(c, choice).boot.BootFailed? && BootStep(c, choice).log == c.log)
  {
  }

  lemma BootProtocolKept(c: Client, c': Client)
    requires BaselineFirst(c) && BootProtocol(c) && BootEventMoves(c, c')
    requires c'.baseline == c.baseline || (c.baseline == None && !c'.boot.BootFailed? && c'.log == c.log)
    ensures BootProtocol(c')
  {
    if c'.log != c.log {
      MarkEvents(c.log, c'.log[|c.log|], c.baseline);
      MarkTerminals(c.log, c'.log[|c.log|]);
    }
    if c'.baseline != c.baseline {
      forall h | 0 <= h < |c'.handlers| ensures HandlerEvents(c'.handlers[h], c'.baseline) {
        assert BeforeBoot(c.handlers[h]);
      }
    }
  }

  lemma StepProtocol(c: Client, a: Act)
    requires Enabled(c, a) && BaselineFirst(c) && BootProtocol(c)
    ensures BootProtocol(Step(c, a))
  {
    match a
    case Boot(choice) =>
      BootEvent(c, choice);
      BootProtocolKept(c, BootStep(c, choice));
    case Handle(h, choice) =>
      HandlerFrame(c, h, choice);
      HandlerRung(c, h, choice);
      HandlerKnows(c, h, choice);
      HandlerEvent(c, h, choice);
      HandlerProtocol(c, h, HandlerStep(c, h, choice));
    case Trigger(_) =>
    case ShutDown =>
    case DropState =>
  }

  // ---------------------------------------------------------------- whole runs

  predicate Legal(c: Client, acts: seq<Act>)
    decreases acts
  {
    acts == [] || (Enabled(c, acts[0]) && Legal(Step(c, acts[0]), acts[1..]))
  }

  function After(c: Client, acts: seq<Act>): (r: Client)
    requires Legal(c, acts)
    decreases acts
  {
    if acts == [] then c else After(Step(c, acts[0]), acts[1..])
  }

  ghost predicate Inv(c: Client) {
    BaselineFirst(c) && SingleOwner(c) && Generations(c) && CrashAccounting(c) && BootProtocol(c)
  }

  lemma StepInv(c: Client, a: Act)
    requires Inv(c) && Enabled(c, a)
    ensures Inv(Step(c, a))
  {
    StepBaseline(c, a);
    StepOwner(c, a);
    StepGenerations(c, a);
    StepAccounting(c, a);
    StepProtocol(c, a);
  }

  lemma {:induction false} RunInv(c: Client, acts: seq<Act>)
    requires Inv(c) && Legal(c, acts)
    ensures Inv(After(c, acts))
    decreases acts
  {
    if acts != [] {
      StepInv(c, acts[0]);
      RunInv(Step(c, acts[0]), acts[1..]);
    }
  }

  lemma StartInv()
    ensures Inv(START)
  {
  }

  /** Whatever is reachable satisfies the invariant. */
  lemma Reachable(acts: seq<Act>)
    requires Legal(START, acts)
    ensures Inv(After(START, acts))
  {
    StartInv();
    RunInv(START, acts);
  }

  /** The generation counter never goes down, and a step moves at most one existing handler. */
  lemma GenerationGrows(c: Client, a: Act)
    requires Enabled(c, a) && Generations(c)
    ensures var c' := Step(c, a);
            && c.current <= c'.current
            && |c.handlers| <= |c'.handlers|
            && forall k :: 0 <= k < |c.handlers| && !(a.Handle? && a.h == k) ==> c'.handlers[k] == c.handlers[k]
  {
    if a.Handle? {
      assert OwnerGeneration(c.handlers[a.h], c.current, |Installs(c.log)|, |Launches(c.log)|);
    }
  }

  /** The child is owned once, and installed generations are 1, 2, 3, ..., each launched exactly once before. */
  lemma SingleOwnership(acts: seq<Act>)
    requires Legal(START, acts)
    ensures var c := After(START, acts);
            && SingleOwner(c)
            && Consecutive(Installs(c.log)) && Consecutive(Launches(c.log))
            && |Installs(c.log)| <= |Launches(c.log)| <= |Installs(c.log)| + 1
            && (c.state.Some? ==> c.state.value == c.current == |Installs(c.log)|)
  {
    Reachable(acts);
  }

  lemma InstallIntoEmptySlot(c: Client, a: Act)
    requires Inv(c) && Enabled(c, a) && |Installs(Step(c, a).log)| > |Installs(c.log)|
    ensures c.state == None
  {
    match a
    case Boot(choice) => BootMarks(c, choice);
    case Handle(h, choice) => HandlerMarks(c, h, choice);
    case _ =>
  }

  /** Whoever installs a state installs it into an empty slot. */
  lemma InstallNeverOverwrites(acts: seq<Act>, a: Act)
    requires Legal(START, acts) && Enabled(After(START, acts), a)
    requires var c := After(START, acts); |Installs(Step(c, a).log)| > |Installs(c.log)|
    ensures After(START, acts).state == None
  {
    Reachable(acts);
    InstallIntoEmptySlot(After(START, acts), a);
  }

  /** The crash loop is bounded: the counter is exact, launches are earned, the third record is final and reported. */
  lemma CrashLoopBound(acts: seq<Act>)
    requires Legal(START, acts)
    ensures var c := After(START, acts);
            && c.crashes == CrashesSince(c.log)
            && RecordsBounded(c.log) && LaunchesFollowRecords(c.log) && NoLaunchAfterTrip(c.log)
            && (GaveUp(c.log) ==> Dead(c))
            && (GaveUp(c.log) ==> TripReported(c.log) || exists h :: 0 <= h < |c.handlers| && TripPending(c.handlers[h]))
            && DelaysOnLadder(c.log)
  {
    Reachable(acts);
  }

  /** Giving up is final: from then on nothing is ever launched or installed again. */
  lemma {:induction false} DeadForever(c: Client, acts: seq<Act>)
    requires Inv(c) && Dead(c) && Legal(c, acts)
    ensures Dead(After(c, acts))
    ensures Launches(After(c, acts).log) == Launches(c.log) && Installs(After(c, acts).log) == Installs(c.log)
    decreases acts
  {
    if acts != [] {
      var c' := Step(c, acts[0]);
      StepInv(c, acts[0]);
      DeadStep(c, acts[0]);
      DeadForever(c', acts[1..]);
    }
  }

  lemma DeadStep(c: Client, a: Act)
    requires Dead(c) && Enabled(c, a)
    ensures Dead(Step(c, a))
    ensures Launches(Step(c, a).log) == Launches(c.log) && Installs(Step(c, a).log) == Installs(c.log)
  {
    match a
    case Boot(choice) =>
      BootMarks(c, choice);
      BootMoving(c, choice);
    case Handle(h, choice) =>
      HandlerMarks(c, h, choice);
      HandlerFrame(c, h, choice);
      HandlerOwnership(c, h, choice);
    case _ =>
  }

  /** The boot events: ChildSpawned before any BootReady, one schema version for the whole run. */
  lemma BootEvents(acts: seq<Act>)
    requires Legal(START, acts)
    ensures var c := After(START, acts);
            && SpawnedFirst(c.log) && OneSchema(c.log, c.baseline) && BaselineNeverMissing(c.log)
  {
    Reachable(acts);
  }

  /** A failed first boot: exactly one Terminal, one launch at most, and no handler that could respawn. */
  lemma FailedBootIsTerminal(acts: seq<Act>)
    requires Legal(START, acts) && After(START, acts).boot == BootFailed
    ensures var c := After(START, acts);
            && Terminals(c.log) == 1 && |Launches(c.log)| <= 1
            && forall h :: 0 <= h < |c.handlers| ==> BeforeBoot(c.handlers[h])
  {
    Reachable(acts);
  }

  // ---------------------------------------------------------------- the two counters as an object

  function CountersOf(c: Client): (r: (nat, nat)) {
    (c.crashes, c.backoff)
  }

  /** `consecutive_crashes` and `current_backoff_secs`: each method does what the crash handler's steps do to a client. */
  class RespawnCounters {
    var consecutiveCrashes: nat
    var currentBackoffSecs: nat

    constructor ()
      ensures consecutiveCrashes == 0 && currentBackoffSecs == BACKOFF_INITIAL_SECS
      ensures CountersOf(START) == (consecutiveCrashes, currentBackoffSecs)
    {
      consecutiveCrashes, currentBackoffSecs := 0, BACKOFF_INITIAL_SECS;
    }

    method RecordConsecutiveCrash() returns (tripped: bool)
      modifies this`consecutiveCrashes
      ensures consecutiveCrashes == old(consecutiveCrashes) + 1
      ensures tripped <==> old(consecutiveCrashes) >= CRASHLOOP_THRESHOLD - 1
      ensures forall c: Client, exit, choice :: CountersOf(c) == old((consecutiveCrashes, currentBackoffSecs)) ==>
                NextPc(c, Counting(exit), choice) == if tripped then Tripped(exit) else Respawning
      ensures forall c: Client, exit :: CountersOf(c) == old((consecutiveCrashes, currentBackoffSecs)) ==>
                CountersOf(Effect(c, Counting(exit))) == (consecutiveCrashes, currentBackoffSecs)
    {
      consecutiveCrashes := consecutiveCrashes + 1;
      tripped := consecutiveCrashes >= CRASHLOOP_THRESHOLD;
    }

    method AdvanceRespawnBackoff() returns (secs: nat)
      modifies this`currentBackoffSecs
      ensures secs == Delay(old(currentBackoffSecs)) && currentBackoffSecs == NextBackoff(secs)
      ensures forall c: Client, exit, choice :: CountersOf(c) == old((consecutiveCrashes, currentBackoffSecs)) ==>
                NextPc(c, Reaped(exit), choice) == Doubling(exit, secs)
      ensures forall c: Client, exit :: CountersOf(c) == old((consecutiveCrashes, currentBackoffSecs)) ==>
                CountersOf(Effect(c, Doubling(exit, secs))) == (consecutiveCrashes, currentBackoffSecs)
    {
      secs := if currentBackoffSecs < BACKOFF_INITIAL_SECS then BACKOFF_INITIAL_SECS else currentBackoffSecs;
      currentBackoffSecs := if secs * 2 < BACKOFF_MAX_SECS then secs * 2 else BACKOFF_MAX_SECS;
    }

    method ResetAfterBoot()
      modifies this
      ensures consecutiveCrashes == 0 && currentBackoffSecs == BACKOFF_INITIAL_SECS
      ensures forall c: Client, schema, recovered ::
                CountersOf(Effect(Effect(c, ResettingCrashes(schema)), ResettingBackoff(schema, recovered))) ==
                (consecutiveCrashes, currentBackoffSecs)
    {
      consecutiveCrashes, currentBackoffSecs := 0, BACKOFF_INITIAL_SECS;
    }
  }

  function Pow2(n: nat): (r: nat) {
    if n == 0 then 1 else 2 * Pow2(n - 1)
  }

  /** The delay returned by the `i`-th advance after a reset, counting from 0. */
  function AdvanceDelay(i: nat): (r: nat) {
    if i == 0 then Delay(BACKOFF_INITIAL_SECS) else Delay(NextBackoff(AdvanceDelay(i - 1)))
  }

  lemma {:induction false} BackoffDoublesToTheCap(i: nat)
    ensures AdvanceDelay(i) == if Pow2(i) < BACKOFF_MAX_SECS then Pow2(i) else BACKOFF_MAX_SECS
    ensures Pow2(i) >= 1
  {
    if i > 0 {
      BackoffDoublesToTheCap(i - 1);
    }
  }
}
