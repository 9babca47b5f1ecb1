/** The control loop and its polling workers as a step system. The main thread, every
    worker and the signal handlers take their steps in any order. */
module PollEngine {
  import opened Text
  import opened PollTables
  import Backend

  /** Where a worker is. Everything from Holding to Reported runs under the lock. */
  datatype Phase =
    | Fetching                // the HTTP request and the parse
    | Waiting                 // wants the lock
    | Holding                 // has the lock, nothing asked yet
    | Queried                 // the title query ran on the shared connection
    | Compared(insert: bool)  // its row was fetched and compared
    | SongStored
    | InfoStored
    | Reported                // "poll"/"ok" is in the status log, lock still held
    | Finished

  datatype Worker = Worker(server: Server, phase: Phase)

  datatype Report = Report(ok: bool, url: string)

  /** What the workers share. `order` is history, read by no step: the answering
      servers in the order in which they left the critical section. */
  datatype Shared = Shared(
    lock: Option<nat>,           // the worker that holds the database lock
    cursor: Option<string>,      // the row waiting on the shared connection
    tables: Tables,
    status: seq<Report>,         // the poll entries of the status log
    order: seq<Server>)

  /** Where the main thread is. */
  datatype Main =
    | LoopTop | Loading | CheckExit | CheckPause | Gathering | Launching
    | JoiningBatch | JoiningRest | CheckExitAgain | Sleeping | Stopped

  /** Read by no step: the contents found when the current database was first connected and
      when the current cycle began, and the length of `order` at those two moments. */
  datatype History = History(base: Tables, switchAt: nat, start: Tables, mark: nat)

  datatype State = State(
    main: Main, paused: bool, exiting: bool, reload: bool,
    loads: nat,                  // configuration loads begun so far
    params: Backend.Params,      // what both handles are connected with
    threads: int,                // the configured thread count
    pending: seq<Server>,        // member rows not yet fetched from the second handle
    servers: seq<Server>,        // this cycle's servers
    next: nat,                   // how many of them were launched
    workers: seq<Worker>,        // the threads not yet joined
    shared: Shared,
    history: History)

  datatype Action =
    | TogglePause | Terminate | Hangup                    // signals
    | Advance                                             // the main thread
    | Members(list: seq<Server>)                          // the main thread reads the member table
    | Load(file: Option<Backend.Config>, found: Tables)   // the main thread loads the configuration
    | Work(w: nat)                                        // one worker

  predicate IsSignal(a: Action) { a.TogglePause? || a.Terminate? || a.Hangup? }

  function Limit(s: State): (n: nat)
    ensures n > 0
  {
    if s.threads > 0 then s.threads else 1
  }

  predicate Critical(p: Phase) {
    p.Holding? || p.Queried? || p.Compared? || p.SongStored? || p.InfoStored? || p.Reported?
  }

  predicate AllFinished(workers: seq<Worker>) { forall w <- workers :: w.phase == Finished }

  // ----- One worker -----

  /** Where one step takes a worker. An unusable answer ends it without the lock. */
  function NextPhase(sh: Shared, wk: Worker): Phase {
    if wk.server.outcome.Unusable? then Finished
    else match wk.phase
    case Fetching => Waiting
    case Waiting => Holding
    case Holding => Queried
    case Queried => Compared(sh.cursor != Some(wk.server.outcome.title))
    case Compared(_) => SongStored
    case SongStored => InfoStored
    case InfoStored => Reported
    case Reported => Finished
    case Finished => Finished
  }

  /** What that step does to the shared state. Every query replaces the cursor. */
  function NextShared(sh: Shared, w: nat, wk: Worker): Shared {
    var srv := wk.server;
    if srv.outcome.Unusable? then sh.(status := sh.status + [Report(false, srv.url)])
    else match wk.phase
    case Fetching => sh
    case Waiting => sh.(lock := Some(w))
    case Holding => sh.(cursor := SelectRow(sh.tables, srv))
    case Queried => sh.(cursor := None)
    case Compared(insert) => if insert then sh.(cursor := None, tables := AddSong(sh.tables, srv)) else sh
    case SongStored => sh.(cursor := None, tables := AddInfo(sh.tables, srv))
    case InfoStored => sh.(status := sh.status + [Report(true, srv.url)])
    case Reported => sh.(lock := None, order := sh.order + [srv])
    case Finished => sh
  }

  function Moved(workers: seq<Worker>, w: nat, sh: Shared): seq<Worker>
    requires w < |workers|
  {
    workers[w := workers[w].(phase := NextPhase(sh, workers[w]))]
  }

  // ----- The main thread -----

  /** A new cycle reads the member table; its rows wait on the second handle. */
  function BeginCycle(s: State, list: seq<Server>): State {
    s.(main := Gathering, pending := list, servers := [], next := 0,
       history := s.history.(start := s.shared.tables, mark := |s.shared.order|))
  }

  /** A failed load changes nothing. A load that names the database in use reconnects to it,
      with new credentials perhaps, and drops the cursor. One that names another database
      finds what is there. */
  function Loaded(s: State, file: Option<Backend.Config>, found: Tables): State {
    var params := Backend.TryReload(s.params, file);
    if file.None? then s.(main := CheckExit)
    else if Backend.SameDatabase(params, s.params) then
      s.(main := CheckExit, params := params, shared := s.shared.(cursor := None))
    else
      var n := |s.shared.order|;
      s.(main := CheckExit, params := params, servers := [], next := 0,
         shared := s.shared.(cursor := None, tables := found),
         history := History(found, n, found, n))
  }

  function Launched(s: State): State
    requires s.next < |s.servers|
  {
    var workers := s.workers + [Worker(s.servers[s.next], Fetching)];
    s.(workers := workers, next := s.next + 1, main := if |workers| >= Limit(s) then JoiningBatch else Launching)
  }

  predicate MainCanAdvance(s: State) {
    match s.main
    case Loading => false
    case CheckPause => s.paused
    case JoiningBatch => AllFinished(s.workers)
    case JoiningRest => AllFinished(s.workers)
    case Stopped => false
    case _ => true
  }

  /** The steps of the main thread that need no answer from outside. */
  function Advanced(s: State): State
    requires MainCanAdvance(s)
  {
    match s.main
    case LoopTop =>
      if s.reload then s.(reload := false, loads := s.loads + 1, main := Loading) else s.(main := CheckExit)
    case CheckExit => s.(main := if s.exiting then Stopped else CheckPause)
    case CheckPause => s.(main := CheckExitAgain)
    case Gathering =>
      if s.exiting || s.pending == [] then s.(main := Launching)
      else s.(servers := s.servers + [s.pending[0]], pending := s.pending[1..])
    case Launching => if s.next < |s.servers| then Launched(s) else s.(main := JoiningRest)
    case JoiningBatch => s.(workers := [], main := Launching)
    case JoiningRest => s.(workers := [], main := CheckExitAgain)
    case CheckExitAgain => s.(main := if s.exiting then Stopped else Sleeping)
    case Sleeping => s.(main := LoopTop)
  }

  // ----- Steps and runs -----

  predicate Enabled(s: State, a: Action) {
    match a
    case TogglePause => true
    case Terminate => true
    case Hangup => true
    case Advance => MainCanAdvance(s)
    case Members(_) => s.main == CheckPause && !s.paused
    case Load(_, _) => s.main == Loading
    case Work(w) =>
      && w < |s.workers|
      && s.workers[w].phase != Finished
      && (s.workers[w].phase == Waiting ==> s.shared.lock == None)
  }

  function Step(s: State, a: Action): State
    requires Enabled(s, a)
  {
    match a
    case TogglePause => s.(paused := !s.paused)
    case Terminate => s.(exiting := true)
    case Hangup => s.(reload := true)
    case Advance => Advanced(s)
    case Members(list) => BeginCycle(s, list)
    case Load(file, found) => Loaded(s, file, found)
    case Work(w) =>
      s.(workers := Moved(s.workers, w, s.shared), shared := NextShared(s.shared, w, s.workers[w]))
  }

  /** The actions can be taken one after another, each one enabled when it is taken. */
  predicate Schedulable(s: State, actions: seq<Action>)
    decreases actions
  {
    actions == [] || (Enabled(s, actions[0]) && Schedulable(Step(s, actions[0]), actions[1..]))
  }

  function Exec(s: State, actions: seq<Action>): State
    requires Schedulable(s, actions)
    decreases actions
  {
    if actions == [] then s else Exec(Step(s, actions[0]), actions[1..])
  }

  /** The number of workers asked for. Without a usable setting it is the number of
      hardware threads. */
  function Threads(cfg: Backend.Config, hardware: nat): int { Backend.GetInt(cfg, "thread_count", hardware) }

  /** The state in which the control loop is entered. */
  function Initial(cfg: Backend.Config, hardware: nat, found: Tables): State {
    State(LoopTop, false, false, false, 0, Backend.StartParams(cfg), Threads(cfg, hardware), [], [], 0, [],
          Shared(None, None, found, [], []), History(found, 0, found, 0))
  }
}
