/** Interleavings of direct sends, timer callbacks and flushes around the offline queue
    (adapter/messenger.go). A state is changed by one small step at a time: an atomic operation of
    one goroutine, a timer firing, or something the environment does. A run is any list of steps. */
module DeliveryRuns {
  import opened Common
  import opened Outcomes
  import opened Segments
  import opened OfflineQueue

  /** Where a goroutine stands. */
  datatype Thread =
    | Finished
    // SendGroupMessage / SendPrivateMessage
    | Sending(chunks: seq<Unit>)
    | SavingWhole(whole: Unit)
    | SavingChunks(chunks: seq<Unit>)
    // scheduleOfflineQueueFlush, called with or without the flush mutex held
    | Scheduling(inFlush: bool)
    | Arming(inFlush: bool)
    // the timer callback
    | TimerFired
    | CheckingStop
    | ReadingConnection
    | CheckingQueue
    // flushOfflineQueue, called by the timer callback or after a reconnect
    | AwaitingMutex(byTimer: bool)
    | RereadingConnection(byTimer: bool)
    | Taking
    | Flushing(rest: seq<Queued>, started: int, anyNotSent: bool)
    | Unlocking

  /** One attempt to send a unit, with what it put on the wire. */
  datatype Attempt = Attempt(id: nat, wire: seq<Segment>, outcome: Outcome, frames: nat, started: Option<int>)

  /** Configuration, the clock, and what the environment decides. */
  datatype Env = Env(enabled: bool, expire: int, now: int, connected: bool, stopped: bool)

  /** The messenger's fields, and the number of timers armed and not yet fired. */
  datatype Shared = Shared(queue: seq<Queued>, scheduled: bool, armed: nat, locked: bool)

  /** What happened so far. */
  datatype History = History(
    bodies: seq<seq<Element>>,   // bodies[id] is what unit id was created to say
    born: map<nat, int>,         // when a unit first entered the queue
    appended: seq<Queued>,       // everything saved since the queue was last taken
    ended: seq<nat>,             // units that will never be attempted again
    log: seq<Attempt>)

  datatype State = State(env: Env, shared: Shared, history: History, threads: seq<Thread>)

  datatype Step =
    | Tick(elapsed: nat)
    | SetConnected(up: bool)
    | Stop
    | Reconnect
    | Send(whole: seq<Element>, chunks: seq<seq<Element>>)
    | Fire
    | Run(thread: nat, outcome: Outcome, frames: nat)

  function Start(enabled: bool, expire: int): State {
    State(Env(enabled, expire, 0, false, false), Shared([], false, 0, false), History([], map[], [], [], []), [])
  }

  predicate Enabled(s: State, step: Step) {
    match step
    case Fire => s.shared.armed > 0
    case Run(t, outcome, frames) =>
      && t < |s.threads| && FramesFit(outcome, frames)
      && (s.threads[t].AwaitingMutex? && s.env.enabled ==> !s.shared.locked)
    case _ => true
  }

  function Next(s: State, step: Step): State
    requires Enabled(s, step)
  {
    match step
    case Tick(elapsed) => s.(env := s.env.(now := s.env.now + elapsed))
    case SetConnected(up) => s.(env := s.env.(connected := up))
    case Stop => s.(env := s.env.(stopped := true))
    case Reconnect => if s.env.enabled then Spawn(s, Effect(AwaitingMutex(false), s.shared, s.history)) else s
    case Send(whole, chunks) => Spawn(s, SendEffect(s, whole, chunks))
    case Fire => Spawn(s, Effect(TimerFired, s.shared.(armed := s.shared.armed - 1), s.history))
    case Run(t, outcome, frames) =>
      var e := RunEffect(s.env, s.threads[t], s.shared, s.history, outcome, frames);
      State(s.env, e.shared, e.history, s.threads[t := e.thread])
  }

  // ---- What one step of a goroutine does ----

  datatype Effect = Effect(thread: Thread, shared: Shared, history: History)

  function Spawn(s: State, e: Effect): State {
    State(s.env, e.shared, e.history, s.threads + [e.thread])
  }

  function UnitsFrom(first: nat, bodies: seq<seq<Element>>): (units: seq<Unit>)
    ensures |units| == |bodies|
    ensures forall i | 0 <= i < |bodies| :: units[i] == Unit(first + i, bodies[i])
  {
    seq(|bodies|, i requires 0 <= i < |bodies| => Unit(first + i, bodies[i]))
  }

  /** A new call reads the connection first: it will queue the message whole, or send its chunks. */
  function SendEffect(s: State, whole: seq<Element>, chunks: seq<seq<Element>>): Effect {
    var h := s.history;
    if s.env.enabled && !s.env.connected then
      Effect(SavingWhole(Unit(|h.bodies|, whole)), s.shared, h.(bodies := h.bodies + [whole]))
    else
      Effect(SendingOf(UnitsFrom(|h.bodies|, chunks)), s.shared, h.(bodies := h.bodies + chunks))
  }

  function SendingOf(chunks: seq<Unit>): Thread {
    if chunks == [] then Finished else Sending(chunks)
  }

  function Save(thread: Thread, sh: Shared, h: History, msg: Queued): Effect {
    var dropped := if |sh.queue| >= OFFLINE_QUEUE_MAX_SIZE then [sh.queue[0].unit.id] else [];
    Effect(thread, sh.(queue := Saved(sh.queue, msg)), h.(appended := h.appended + [msg], ended := h.ended + dropped))
  }

  /** A sender's save stamps the unit with the current time; a flush keeps the old stamp. */
  function Enter(thread: Thread, env: Env, sh: Shared, h: History, u: Unit): Effect {
    Save(thread, sh, h.(born := h.born[u.id := env.now]), Queued(u, env.now))
  }

  function Logged(h: History, u: Unit, outcome: Outcome, frames: nat, started: Option<int>): History {
    h.(log := h.log + [Attempt(u.id, SegmentsOf(u.elements), outcome, frames, started)])
  }

  function Ids(units: seq<Unit>): (ids: seq<nat>)
    ensures |ids| == |units| && forall i | 0 <= i < |units| :: ids[i] == units[i].id
  {
    seq(|units|, i requires 0 <= i < |units| => units[i].id)
  }

  function AfterScheduling(inFlush: bool): Thread {
    if inFlush then Unlocking else Finished
  }

  /** The next atomic operation of a goroutine. The outcome and the frames are the adapter's
      answer, used by steps that attempt a send. */
  function RunEffect(env: Env, thread: Thread, sh: Shared, h: History, outcome: Outcome, frames: nat): Effect {
    match thread
    case Finished => Effect(Finished, sh, h)
    case Sending(chunks) =>
      if chunks == [] then Effect(Finished, sh, h) else SendChunk(env, chunks, sh, h, outcome, frames)
    case SavingWhole(whole) => Enter(Scheduling(false), env, sh, h, whole)
    case SavingChunks(chunks) =>
      if chunks == [] then Effect(Scheduling(false), sh, h)
      else Enter(SavingChunks(chunks[1..]), env, sh, h, chunks[0])
    case Scheduling(inFlush) =>
      if !env.enabled || sh.scheduled then Effect(AfterScheduling(inFlush), sh, h)
      else Effect(Arming(inFlush), sh.(scheduled := true), h)
    case Arming(inFlush) => Effect(AfterScheduling(inFlush), sh.(armed := sh.armed + 1), h)
    case TimerFired => Effect(CheckingStop, sh.(scheduled := false), h)
    case CheckingStop => Effect(if env.stopped then Finished else ReadingConnection, sh, h)
    case ReadingConnection => Effect(if env.connected then AwaitingMutex(true) else CheckingQueue, sh, h)
    case CheckingQueue => Effect(if sh.queue != [] then Scheduling(false) else Finished, sh, h)
    case AwaitingMutex(byTimer) =>
      if !env.enabled then Effect(Finished, sh, h) else Effect(RereadingConnection(byTimer), sh.(locked := true), h)
    case RereadingConnection(_) => Effect(if env.connected then Taking else Unlocking, sh, h)
    case Taking =>
      Effect(if sh.queue == [] then Unlocking else Flushing(sh.queue, env.now, false),
             sh.(queue := []), h.(appended := []))
    case Flushing(rest, started, anyNotSent) =>
      if rest == [] then Effect(if anyNotSent then Scheduling(true) else Unlocking, sh, h)
      else FlushOne(env, rest, started, anyNotSent, sh, h, outcome, frames)
    case Unlocking => Effect(Finished, sh.(locked := false), h)
  }

  /** One chunk of a direct send: after a failure that chunk and the ones after it are queued, or
      none of them is ever attempted again. */
  function SendChunk(env: Env, chunks: seq<Unit>, sh: Shared, h: History, outcome: Outcome, frames: nat): Effect
    requires chunks != []
  {
    var tried := Logged(h, chunks[0], outcome, frames, None);
    if outcome.Sent? then Effect(SendingOf(chunks[1..]), sh, tried.(ended := h.ended + [chunks[0].id]))
    else if outcome.NotSent? && env.enabled then Effect(SavingChunks(chunks), sh, tried)
    else Effect(Finished, sh, tried.(ended := h.ended + Ids(chunks)))
  }

  function FlushOne(env: Env, rest: seq<Queued>, started: int, anyNotSent: bool, sh: Shared, h: History,
                    outcome: Outcome, frames: nat): Effect
    requires rest != []
  {
    var msg := rest[0];
    if Expired(msg, started, env.expire) then
      Effect(Flushing(rest[1..], started, anyNotSent), sh, h.(ended := h.ended + [msg.unit.id]))
    else
      var tried := Logged(h, msg.unit, outcome, frames, Some(started));
      if outcome.NotSent? then Save(Flushing(rest[1..], started, true), sh, tried, msg)
      else Effect(Flushing(rest[1..], started, anyNotSent), sh, tried.(ended := h.ended + [msg.unit.id]))
  }

  // ---- Runs ----

  ghost predicate Possible(s: State, steps: seq<Step>)
    decreases |steps|
  {
    steps == [] || (Enabled(s, steps[0]) && Possible(Next(s, steps[0]), steps[1..]))
  }

  ghost function After(s: State, steps: seq<Step>): State
    requires Possible(s, steps)
    decreases |steps|
  {
    if steps == [] then s else After(Next(s, steps[0]), steps[1..])
  }
}
