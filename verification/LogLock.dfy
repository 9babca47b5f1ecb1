/** The lock of the logger, which every thread and every signal handler takes. It is not
    recursive, so a handler that interrupts the thread holding it waits for itself. */
module LogLock {
  import opened Text
  import opened PollTables
  import opened PollEngine
  import opened PollInvariant
  import opened PollSignals
  import Backend

  datatype Signal = USR1 | USR2 | TERM | INT | HUP

  /** A call of the logger, by a thread's own code or by a handler that interrupted it. The
      handler of USR1 looks at the pause flag before it logs and sets it afterwards. */
  datatype Call = Call(handler: Option<Signal>, sawPaused: bool, holding: bool)

  /** The calls each thread is in, the innermost last; thread 0 is the main thread and
      thread w + 1 is worker w. The owner is the thread that holds the lock. */
  datatype Machine = Machine(base: State, calls: seq<seq<Call>>, owner: Option<nat>)

  datatype Move =
    | Own(a: Action)                    // a step of a thread's own code
    | StartCall(t: nat)                 // that code enters the logger
    | Deliver(t: nat, signal: Signal)   // a signal interrupts a thread
    | Acquire(t: nat)                   // the innermost call gets the lock
    | Release(t: nat)                   // it has written, and returns

  function ThreadOf(a: Action): nat { if a.Work? then a.w + 1 else 0 }

  predicate Joins(s: State, a: Action) { a.Advance? && (s.main.JoiningBatch? || s.main.JoiningRest?) }

  predicate Idle(m: Machine) { forall c <- m.calls :: c == [] }

  predicate Innermost(c: seq<Call>, holding: bool) { c != [] && c[|c| - 1].holding == holding }

  predicate Handling(c: seq<Call>, signal: Signal) { exists call <- c :: call.handler == Some(signal) }

  /** A thread inside the logger does not go on with its own code, a join waits for threads
      to return from all calls, and a signal is blocked during its own handler. */
  predicate Possible(m: Machine, v: Move) {
    match v
    case Own(a) =>
      && !IsSignal(a) && Enabled(m.base, a)
      && ThreadOf(a) < |m.calls| && m.calls[ThreadOf(a)] == []
      && (Joins(m.base, a) ==> Idle(m))
    case StartCall(t) => t < |m.calls| && m.calls[t] == [] && !m.base.main.Stopped?
    case Deliver(t, signal) => t < |m.calls| && !Handling(m.calls[t], signal) && !m.base.main.Stopped?
    case Acquire(t) => t < |m.calls| && Innermost(m.calls[t], false) && m.owner == None
    case Release(t) => t < |m.calls| && Innermost(m.calls[t], true)
  }

  /** What a handler does once it has logged. */
  function Handled(s: State, call: Call): State {
    match call.handler
    case None => s
    case Some(USR1) => s.(paused := !call.sawPaused)
    case Some(HUP) => s.(reload := true)
    case Some(_) => s.(exiting := true)
  }

  /** One list of calls for the main thread and each worker. */
  function Fitted(calls: seq<seq<Call>>, workers: nat): (r: seq<seq<Call>>)
    requires calls != []
    ensures r != []
  {
    if workers + 1 == |calls| then calls else if workers + 1 > |calls| then calls + [[]] else [calls[0]]
  }

  function Entered(m: Machine, t: nat, call: Call): Machine
    requires t < |m.calls|
  {
    m.(calls := m.calls[t := m.calls[t] + [call]])
  }

  function Apply(m: Machine, v: Move): (r: Machine)
    requires m.calls != [] && Possible(m, v)
    ensures r.calls != []
  {
    match v
    case Own(a) =>
      var s := Step(m.base, a);
      m.(base := s, calls := Fitted(m.calls, |s.workers|))
    case StartCall(t) => Entered(m, t, Call(None, false, false))
    case Deliver(t, signal) => Entered(m, t, Call(Some(signal), m.base.paused, false))
    case Acquire(t) =>
      var c := m.calls[t];
      m.(calls := m.calls[t := c[|c| - 1 := c[|c| - 1].(holding := true)]], owner := Some(t))
    case Release(t) =>
      var c := m.calls[t];
      m.(base := Handled(m.base, c[|c| - 1]), calls := m.calls[t := c[..|c| - 1]], owner := None)
  }

  function Start(cfg: Backend.Config, hardware: nat, found: Tables): Machine {
    Machine(Initial(cfg, hardware, found), [[]], None)
  }

  // ----- What every move keeps -----

  /** At most one call holds the lock, and it is one of the owner's. */
  ghost predicate LockIsOwned(calls: seq<seq<Call>>, owner: Option<nat>) {
    && (forall t, i :: 0 <= t < |calls| && 0 <= i < |calls[t]| && calls[t][i].holding ==> owner == Some(t))
    && (forall t, i, j :: 0 <= t < |calls| && 0 <= i < j < |calls[t]| ==> !(calls[t][i].holding && calls[t][j].holding))
    && (owner.Some? ==>
          && owner.value < |calls|
          && exists i :: 0 <= i < |calls[owner.value]| && calls[owner.value][i].holding)
  }

  ghost predicate MachineInv(m: Machine) {
    && Inv(m.base)
    && |m.calls| == |m.base.workers| + 1
    && LockIsOwned(m.calls, m.owner)
    && (m.base.main.Stopped? ==> m.calls == [[]])
  }

  lemma SignalKeepsInv(s: State, a: Action)
    requires Inv(s) && IsSignal(a)
    ensures Inv(Step(s, a)) && Step(s, a).workers == s.workers && Step(s, a).main == s.main
  {
    StepKeepsInv(s, a);
    hide Inv;
  }

  lemma HandledKeepsInv(s: State, call: Call)
    requires Inv(s)
    ensures Inv(Handled(s, call)) && Handled(s, call).workers == s.workers && Handled(s, call).main == s.main
  {
    hide Inv;
    SignalKeepsInv(s, TogglePause);
    SignalKeepsInv(s, Terminate);
    SignalKeepsInv(s, Hangup);
    assert call.handler == Some(USR1) && s.paused != call.sawPaused ==> Handled(s, call) == s;
  }

  lemma EnteredKeepsLock(calls: seq<seq<Call>>, owner: Option<nat>, t: nat, call: Call)
    requires LockIsOwned(calls, owner) && t < |calls| && !call.holding
    ensures LockIsOwned(calls[t := calls[t] + [call]], owner)
  {
    var calls': seq<seq<Call>> := calls[t := calls[t] + [call]];
    if owner.Some? {
      var i :| 0 <= i < |calls[owner.value]| && calls[owner.value][i].holding;
      assert calls'[owner.value][i].holding;
    }
  }

  lemma AcquireKeepsLock(calls: seq<seq<Call>>, t: nat)
    requires LockIsOwned(calls, None) && t < |calls| && Innermost(calls[t], false)
    ensures var c := calls[t];
            LockIsOwned(calls[t := c[|c| - 1 := c[|c| - 1].(holding := true)]], Some(t))
  {
    var c := calls[t];
    var calls': seq<seq<Call>> := calls[t := c[|c| - 1 := c[|c| - 1].(holding := true)]];
    assert calls'[t][|c| - 1].holding;
  }

  lemma ReleaseKeepsLock(calls: seq<seq<Call>>, owner: Option<nat>, t: nat)
    requires LockIsOwned(calls, owner) && t < |calls| && Innermost(calls[t], true)
    ensures owner == Some(t) && LockIsOwned(calls[t := calls[t][..|calls[t]| - 1]], None)
  {
    var c := calls[t];
    assert calls[t][|c| - 1].holding;
  }

  lemma FittedKeepsLock(calls: seq<seq<Call>>, owner: Option<nat>, workers: nat)
    requires LockIsOwned(calls, owner) && calls != []
    requires workers + 1 < |calls| ==> forall c <- calls :: c == []
    ensures LockIsOwned(Fitted(calls, workers), owner)
  {
    var calls' := Fitted(calls, workers);
    assert forall t :: 0 <= t < |calls| && t < |calls'| ==> calls'[t] == calls[t];
    if owner.Some? {
      var i :| 0 <= i < |calls[owner.value]| && calls[owner.value][i].holding;
      assert calls[owner.value] in calls;
      assert calls'[owner.value][i].holding;
    }
  }

  /** How a step of the code changes the number of workers. */
  lemma WorkersAfter(s: State, a: Action)
    requires PoolInv(s) && !IsSignal(a) && Enabled(s, a)
    ensures var s' := Step(s, a);
            && (|s'.workers| == |s.workers| || |s'.workers| == |s.workers| + 1 || (Joins(s, a) && s'.workers == []))
            && !s.main.Stopped?
            && (s'.main.Stopped? ==> a.Advance? && s.workers == [])
  {
    hide ServesLast, NextShared, SelectRow;
    if a.Advance? {
      assert Advanced(s).main.Stopped? ==> s.main.CheckExit? || s.main.CheckExitAgain?;
    }
  }

  lemma OwnKeepsInv(m: Machine, a: Action)
    requires MachineInv(m) && Possible(m, Own(a))
    ensures MachineInv(Apply(m, Own(a)))
  {
    StepKeepsInv(m.base, a);
    WorkersAfter(m.base, a);
    hide Inv, Enabled, Step, LockIsOwned, IsSignal;
    FittedKeepsLock(m.calls, m.owner, |Step(m.base, a).workers|);
  }

  lemma EntryKeepsInv(m: Machine, t: nat, call: Call)
    requires MachineInv(m) && t < |m.calls| && !call.holding && !m.base.main.Stopped?
    ensures MachineInv(Entered(m, t, call))
  {
    hide Inv, LockIsOwned;
    EnteredKeepsLock(m.calls, m.owner, t, call);
  }

  lemma AcquireKeepsInv(m: Machine, t: nat)
    requires MachineInv(m) && Possible(m, Acquire(t))
    ensures MachineInv(Apply(m, Acquire(t)))
  {
    hide Inv, LockIsOwned;
    AcquireKeepsLock(m.calls, t);
  }

  lemma ReleaseKeepsInv(m: Machine, t: nat)
    requires MachineInv(m) && Possible(m, Release(t))
    ensures MachineInv(Apply(m, Release(t)))
  {
    hide Inv, LockIsOwned, Handled;
    ReleaseKeepsLock(m.calls, m.owner, t);
    HandledKeepsInv(m.base, m.calls[t][|m.calls[t]| - 1]);
  }

  lemma MoveKeepsInv(m: Machine, v: Move)
    requires MachineInv(m) && Possible(m, v)
    ensures MachineInv(Apply(m, v))
  {
    hide MachineInv, Entered, Handled, Step, Enabled, Handling, Idle;
    match v
    case Own(a) => OwnKeepsInv(m, a);
    case StartCall(t) => EntryKeepsInv(m, t, Call(None, false, false));
    case Deliver(t, signal) => EntryKeepsInv(m, t, Call(Some(signal), m.base.paused, false));
    case Acquire(t) => AcquireKeepsInv(m, t);
    case Release(t) => ReleaseKeepsInv(m, t);
  }

  lemma StartInv(cfg: Backend.Config, hardware: nat, found: Tables)
    ensures MachineInv(Start(cfg, hardware, found))
  {
    InvInitially(cfg, hardware, found);
    hide Inv;
  }

  // ----- What a handler does -----

  /** Delivery enters the handler's call of the logger, which remembers the pause flag. */
  lemma DeliveryEnters(m: Machine, t: nat, signal: Signal)
    requires m.calls != [] && Possible(m, Deliver(t, signal))
    ensures var m' := Apply(m, Deliver(t, signal));
            && m'.base == m.base && m'.owner == m.owner
            && m'.calls == m.calls[t := m.calls[t] + [Call(Some(signal), m.base.paused, false)]]
  {
  }

  /** When the call returns, the handler has set its flag: SIGHUP asks for a reload, SIGTERM,
      SIGINT and SIGUSR2 for the exit, and SIGUSR1 leaves the pause opposite to what it was
      at delivery. Nothing else of the daemon's state changes. */
  lemma HandlersSetFlags(m: Machine, t: nat)
    requires m.calls != [] && Possible(m, Release(t))
    ensures var call, s, s' := m.calls[t][|m.calls[t]| - 1], m.base, Apply(m, Release(t)).base;
            && (call.handler == None ==> s' == s)
            && (call.handler == Some(HUP) ==> s'.reload && s'.(reload := s.reload) == s)
            && (call.handler == Some(TERM) || call.handler == Some(INT) || call.handler == Some(USR2) ==>
                  s'.exiting && s'.(exiting := s.exiting) == s)
            && (call.handler == Some(USR1) ==> s'.paused != call.sawPaused && s'.(paused := s.paused) == s)
    ensures Apply(m, Release(t)).owner == None
  {
  }

  // ----- The holder waits for itself -----

  /** The thread that holds the lock is in a handler that wants it. */
  predicate SelfLocked(m: Machine) {
    m.owner.Some? && m.owner.value < |m.calls| && Innermost(m.calls[m.owner.value], false)
  }

  /** The holder is in the logger, and if it does not wait for itself its innermost call
      is the one that holds. */
  lemma HolderIsInside(m: Machine)
    requires MachineInv(m) && m.owner.Some?
    ensures var t := m.owner.value;
            t < |m.calls| && m.calls[t] != [] && !Idle(m) && !m.base.main.Stopped?
            && (SelfLocked(m) || Innermost(m.calls[t], true))
    ensures forall t :: 0 <= t < |m.calls| && Innermost(m.calls[t], true) ==> m.owner == Some(t)
  {
    hide Inv;
    assert m.calls[m.owner.value] in m.calls;
  }

  /** The only way into this state: a signal is delivered to the thread that holds the lock. */
  lemma OnlyDeliveryToHolderLocks(m: Machine, v: Move)
    requires MachineInv(m) && Possible(m, v) && !SelfLocked(m)
    ensures SelfLocked(Apply(m, v)) <==> v.Deliver? && m.owner == Some(v.t)
  {
    if m.owner.Some? {
      HolderIsInside(m);
    }
    if v.Own? {
      OwnDoesNotLock(m, v.a);
    }
    hide Inv, Step, Enabled, Handled, LockIsOwned, Handling, Idle, Fitted;
  }

  lemma OwnDoesNotLock(m: Machine, a: Action)
    requires MachineInv(m) && Possible(m, Own(a))
    ensures SelfLocked(Apply(m, Own(a))) <==> SelfLocked(m)
  {
    WorkersAfter(m.base, a);
    if m.owner.Some? {
      HolderIsInside(m);
    }
    hide Inv, Step, Enabled, LockIsOwned, Idle;
  }

  /** There is no way out of it: no thread gets the lock or gives it back any more, so no
      handler takes effect, and the holder's own code stands still. */
  lemma SelfLockedStays(m: Machine, v: Move)
    requires MachineInv(m) && SelfLocked(m) && Possible(m, v)
    ensures SelfLocked(Apply(m, v)) && Apply(m, v).owner == m.owner
    ensures v.Own? || v.StartCall? || v.Deliver?
    ensures v.Own? ==> ThreadOf(v.a) != m.owner.value && !Joins(m.base, v.a)
    ensures !v.Own? ==> Apply(m, v).base == m.base
  {
    HolderIsInside(m);
    if v.Own? {
      WorkersAfter(m.base, v.a);
    }
    hide Inv, Step, Enabled, Handled, LockIsOwned, Handling, Idle;
  }

  // ----- Runs -----

  predicate Feasible(m: Machine, moves: seq<Move>)
    requires m.calls != []
    decreases moves
  {
    moves == [] || (Possible(m, moves[0]) && Feasible(Apply(m, moves[0]), moves[1..]))
  }

  function Run(m: Machine, moves: seq<Move>): (end: Machine)
    requires m.calls != [] && Feasible(m, moves)
    ensures end.calls != []
    decreases moves
  {
    if moves == [] then m else Run(Apply(m, moves[0]), moves[1..])
  }

  lemma {:induction false} MachineRunKeepsInv(m: Machine, moves: seq<Move>)
    requires MachineInv(m) && Feasible(m, moves)
    ensures MachineInv(Run(m, moves))
    decreases moves
  {
    if moves != [] {
      hide MachineInv, Possible, Apply;
      MoveKeepsInv(m, moves[0]);
      MachineRunKeepsInv(Apply(m, moves[0]), moves[1..]);
    }
  }

  function OwnSteps(moves: seq<Move>): nat {
    if moves == [] then 0 else (if moves[0].Own? then 1 else 0) + OwnSteps(moves[1..])
  }

  lemma OwnStepWhenSelfLocked(m: Machine, a: Action)
    requires MachineInv(m) && SelfLocked(m) && Possible(m, Own(a))
    ensures var s, s' := m.base, Step(m.base, a);
            && HangupBound(s') < HangupBound(s)
            && s'.exiting == s.exiting && s'.reload == s.reload && s'.paused == s.paused && s'.loads == s.loads
  {
    SelfLockedStays(m, Own(a));
    var s := m.base;
    if a.Work? {
      RanksAfterWork(s, a.w);
    } else {
      assert s.workers != [];
      assert s.main.Launching? && a.Advance?;
      BacklogAfterMain(s);
      DistancesAfterMain(s);
    }
  }

  /** From then on, whatever happens, the loop never ends, the code takes a bounded number of
      further steps, and no signal has any effect. */
  lemma {:induction false} SelfLockedForGood(m: Machine, moves: seq<Move>)
    requires MachineInv(m) && SelfLocked(m) && Feasible(m, moves)
    ensures var end := Run(m, moves);
            && SelfLocked(end) && !end.base.main.Stopped?
            && end.base.exiting == m.base.exiting && end.base.reload == m.base.reload
            && end.base.paused == m.base.paused && end.base.loads == m.base.loads
    ensures OwnSteps(moves) <= HangupBound(m.base)
    decreases moves
  {
    if moves == [] {
      assert m.calls[m.owner.value] in m.calls;
    } else {
      var v := moves[0];
      MoveKeepsInv(m, v);
      SelfLockedStays(m, v);
      if v.Own? {
        OwnStepWhenSelfLocked(m, v.a);
      }
      SelfLockedForGood(Apply(m, v), moves[1..]);
      hide Inv, Step, Enabled, Handled, LockIsOwned, HangupBound, Innermost;
    }
  }

  // ----- Otherwise the loop can end -----

  ghost predicate CanStop(m: Machine)
    requires m.calls != []
  {
    exists moves :: Feasible(m, moves) && Run(m, moves).base.main.Stopped?
  }

  lemma MoveThenStop(m: Machine, v: Move)
    requires m.calls != [] && Possible(m, v) && CanStop(Apply(m, v))
    ensures CanStop(m)
  {
    hide Possible, Apply;
    var moves :| Feasible(Apply(m, v), moves) && Run(Apply(m, v), moves).base.main.Stopped?;
    var all := [v] + moves;
    assert all[0] == v && all[1..] == moves;
    assert Feasible(m, all) && Run(m, all) == Run(Apply(m, v), moves);
  }

  lemma StoppedCanStop(m: Machine)
    requires m.calls != [] && m.base.main.Stopped?
    ensures CanStop(m)
  {
    assert Feasible(m, []) && Run(m, []) == m;
  }

  lemma OwnWhenIdle(m: Machine, a: Action)
    requires MachineInv(m) && Idle(m) && !IsSignal(a) && Enabled(m.base, a)
    ensures Possible(m, Own(a)) && Idle(Apply(m, Own(a))) && Apply(m, Own(a)).base == Step(m.base, a)
  {
    assert a.Work? ==> a.w < |m.base.workers|;
    hide Inv, Step, LockIsOwned;
    assert m.calls[ThreadOf(a)] in m.calls;
  }

  lemma {:induction false} ExitingStops(m: Machine)
    requires MachineInv(m) && Idle(m) && m.base.exiting
    ensures CanStop(m)
    decreases ExitBound(m.base)
  {
    if m.base.main.Stopped? {
      StoppedCanStop(m);
    } else {
      var a := NeverStuck(m.base);
      OwnWhenIdle(m, a);
      MoveKeepsInv(m, Own(a));
      ExitingStays(m.base, a);
      assert m.base.next <= |m.base.servers|;
      StepWhenExiting(m.base, a);
      hide *;
      ExitingStops(Apply(m, Own(a)));
      MoveThenStop(m, Own(a));
    }
  }

  lemma IdleIsUnlocked(m: Machine)
    requires MachineInv(m) && Idle(m)
    ensures m.owner == None && m.calls != [] && m.calls[0] == []
  {
    hide Inv;
    assert forall t :: 0 <= t < |m.calls| ==> m.calls[t] in m.calls;
  }

  lemma AcquireAlone(m: Machine, call: Call)
    requires m.calls != [] && m.calls[0] == [call] && !call.holding && m.owner == None
    ensures Possible(m, Acquire(0))
    ensures Apply(m, Acquire(0)) == m.(calls := m.calls[0 := [call.(holding := true)]], owner := Some(0))
  {
    assert [call][0 := call.(holding := true)] == [call.(holding := true)];
  }

  lemma ReleaseAlone(m: Machine, call: Call)
    requires m.calls != [] && m.calls[0] == [call] && call.holding
    ensures Possible(m, Release(0))
    ensures Apply(m, Release(0)) == m.(base := Handled(m.base, call), calls := m.calls[0 := []], owner := None)
  {
    assert [call][..0] == [];
  }

  lemma DeliverAlone(m: Machine, signal: Signal)
    requires m.calls != [] && m.calls[0] == [] && !m.base.main.Stopped?
    ensures Possible(m, Deliver(0, signal))
    ensures Apply(m, Deliver(0, signal)) == m.(calls := m.calls[0 := [Call(Some(signal), m.base.paused, false)]])
  {
    assert [] + [Call(Some(signal), m.base.paused, false)] == [Call(Some(signal), m.base.paused, false)];
  }

  /** A termination signal to the main thread while it is not in the logger. */
  lemma TerminateWhenIdle(m: Machine) returns (m1: Machine, m2: Machine, m3: Machine)
    requires m.owner == None && m.calls != [] && m.calls[0] == [] && !m.base.main.Stopped?
    ensures Possible(m, Deliver(0, TERM)) && m1 == Apply(m, Deliver(0, TERM))
    ensures Possible(m1, Acquire(0)) && m2 == Apply(m1, Acquire(0))
    ensures Possible(m2, Release(0)) && m3 == Apply(m2, Release(0))
    ensures m3.calls == m.calls && m3.base.exiting
  {
    hide Possible, Apply;
    var call := Call(Some(TERM), m.base.paused, false);
    DeliverAlone(m, TERM);
    m1 := Apply(m, Deliver(0, TERM));
    AcquireAlone(m1, call);
    m2 := Apply(m1, Acquire(0));
    ReleaseAlone(m2, call.(holding := true));
    m3 := Apply(m2, Release(0));
  }

  lemma SignalWhenIdle(m: Machine) returns (m3: Machine)
    requires MachineInv(m) && Idle(m) && !m.base.main.Stopped?
    ensures MachineInv(m3) && Idle(m3) && m3.base.exiting
    ensures m.calls != [] && m3.calls != [] && (CanStop(m3) ==> CanStop(m))
  {
    IdleIsUnlocked(m);
    hide MachineInv, Apply, Possible, CanStop;
    var m1, m2;
    m1, m2, m3 := TerminateWhenIdle(m);
    MoveKeepsInv(m, Deliver(0, TERM));
    MoveKeepsInv(m1, Acquire(0));
    MoveKeepsInv(m2, Release(0));
    if CanStop(m3) {
      MoveThenStop(m2, Release(0));
      MoveThenStop(m1, Acquire(0));
      MoveThenStop(m, Deliver(0, TERM));
    }
  }

  lemma IdleStops(m: Machine)
    requires MachineInv(m) && Idle(m)
    ensures CanStop(m)
  {
    IdleIsUnlocked(m);
    hide Inv, LockIsOwned, CanStop, Idle;
    if m.base.main.Stopped? {
      StoppedCanStop(m);
    } else {
      var m3 := SignalWhenIdle(m);
      ExitingStops(m3);
    }
  }

  function Total(calls: seq<seq<Call>>): nat {
    if calls == [] then 0 else Total(calls[..|calls| - 1]) + |calls[|calls| - 1]|
  }

  lemma {:induction false} TotalUpdate(calls: seq<seq<Call>>, t: nat, c: seq<Call>)
    requires t < |calls|
    ensures Total(calls[t := c]) + |calls[t]| == Total(calls) + |c|
  {
    var n := |calls| - 1;
    if t < n {
      TotalUpdate(calls[..n], t, c);
      assert calls[t := c][..n] == calls[..n][t := c];
    } else {
      assert calls[t := c][..n] == calls[..n];
    }
  }

  /** Some call can go on: the holder's to its end, or else any innermost call into the lock. */
  lemma CallGoesOn(m: Machine) returns (v: Move)
    requires MachineInv(m) && !SelfLocked(m) && !Idle(m)
    ensures Possible(m, v) && (v.Acquire? || v.Release?)
    ensures if m.owner == None
            then v.Acquire? && Apply(m, v).owner != None && Total(Apply(m, v).calls) == Total(m.calls)
            else v.Release? && Total(Apply(m, v).calls) < Total(m.calls)
  {
    hide Inv;
    if m.owner == None {
      var t :| 0 <= t < |m.calls| && m.calls[t] != [];
      var c := m.calls[t];
      v := Acquire(t);
      TotalUpdate(m.calls, t, c[|c| - 1 := c[|c| - 1].(holding := true)]);
    } else {
      var t := m.owner.value;
      var c := m.calls[t];
      v := Release(t);
      TotalUpdate(m.calls, t, c[..|c| - 1]);
    }
  }

  lemma {:induction false} UnlockedStops(m: Machine)
    requires MachineInv(m) && !SelfLocked(m)
    ensures CanStop(m)
    decreases Total(m.calls), if m.owner == None then 1 else 0
  {
    hide MachineInv, CanStop, Idle, SelfLocked;
    if Idle(m) {
      IdleStops(m);
    } else {
      NotEmpty(m);
      var v := CallGoesOn(m);
      MoveKeepsInv(m, v);
      OnlyDeliveryToHolderLocks(m, v);
      UnlockedStops(Apply(m, v));
      MoveThenStop(m, v);
    }
  }

  lemma NotEmpty(m: Machine)
    requires MachineInv(m)
    ensures m.calls != []
  {
    hide Inv, LockIsOwned;
  }

  /** From any state the loop can still end, in some schedule, exactly when the holder does
      not wait for itself. */
  lemma CanStopIffNotSelfLocked(m: Machine)
    requires MachineInv(m)
    ensures CanStop(m) <==> !SelfLocked(m)
  {
    hide MachineInv, SelfLocked;
    NotEmpty(m);
    if SelfLocked(m) && CanStop(m) {
      var moves :| Feasible(m, moves) && Run(m, moves).base.main.Stopped?;
      SelfLockedForGood(m, moves);
    }
    if !SelfLocked(m) {
      UnlockedStops(m);
    }
  }

  /** And while it does not, something other than a signal can happen until the loop ends. */
  lemma ProgressUnlessSelfLocked(m: Machine) returns (v: Move)
    requires MachineInv(m) && !SelfLocked(m) && !m.base.main.Stopped?
    ensures Possible(m, v) && (v.Own? || v.Acquire? || v.Release?)
  {
    if Idle(m) {
      var a := NeverStuck(m.base);
      OwnWhenIdle(m, a);
      v := Own(a);
    } else {
      v := CallGoesOn(m);
    }
  }

  // ----- The condition on a whole run -----

  /** At some point of the run a signal is delivered to the thread that holds the lock. */
  predicate HolderHit(m: Machine, moves: seq<Move>)
    requires m.calls != [] && Feasible(m, moves)
    decreases moves
  {
    moves != [] && ((moves[0].Deliver? && m.owner == Some(moves[0].t)) || HolderHit(Apply(m, moves[0]), moves[1..]))
  }

  lemma {:induction false} SelfLockedIffHolderHit(m: Machine, moves: seq<Move>)
    requires MachineInv(m) && !SelfLocked(m) && Feasible(m, moves)
    ensures SelfLocked(Run(m, moves)) <==> HolderHit(m, moves)
    decreases moves
  {
    if moves != [] {
      var v := moves[0];
      hide MachineInv, SelfLocked, Possible, Apply;
      NotEmpty(m);
      MoveKeepsInv(m, v);
      OnlyDeliveryToHolderLocks(m, v);
      if SelfLocked(Apply(m, v)) {
        SelfLockedForGood(Apply(m, v), moves[1..]);
      } else {
        SelfLockedIffHolderHit(Apply(m, v), moves[1..]);
      }
    }
  }

  /** After every run from start-up the loop can still end exactly when no signal was
      delivered to a thread while it held the lock of the logger. */
  lemma StopsIffHolderNeverHit(cfg: Backend.Config, hardware: nat, found: Tables, moves: seq<Move>)
    requires Feasible(Start(cfg, hardware, found), moves)
    ensures CanStop(Run(Start(cfg, hardware, found), moves)) <==> !HolderHit(Start(cfg, hardware, found), moves)
  {
    var m := Start(cfg, hardware, found);
    StartInv(cfg, hardware, found);
    assert !SelfLocked(m);
    hide *;
    MachineRunKeepsInv(m, moves);
    CanStopIffNotSelfLocked(Run(m, moves));
    SelfLockedIffHolderHit(m, moves);
  }

  /** It does happen: a SIGHUP that arrives while the main thread writes its first message. */
  lemma HangIsReachable(cfg: Backend.Config, hardware: nat, found: Tables)
    ensures var m, moves := Start(cfg, hardware, found), [StartCall(0), Acquire(0), Deliver(0, HUP)];
            Feasible(m, moves) && !CanStop(Run(m, moves))
  {
    var m, call := Start(cfg, hardware, found), Call(None, false, false);
    var moves := [StartCall(0), Acquire(0), Deliver(0, HUP)];
    StartAlone(m);
    hide Apply, Possible, CanStop, Start;
    var m1 := Apply(m, StartCall(0));
    AcquireAlone(m1, call);
    var m2 := Apply(m1, Acquire(0));
    HupPossible(m2, call.(holding := true));
    assert moves[1..] == [Acquire(0), Deliver(0, HUP)] && moves[1..][1..] == [Deliver(0, HUP)];
    assert moves[1..][1..][1..] == [];
    assert Feasible(m2, moves[1..][1..]);
    assert Feasible(m1, moves[1..]);
    assert HolderHit(m2, moves[1..][1..]);
    assert HolderHit(m1, moves[1..]);
    StopsIffHolderNeverHit(cfg, hardware, found, moves);
  }

  lemma StartAlone(m: Machine)
    requires m.calls == [[]] && !m.base.main.Stopped?
    ensures Possible(m, StartCall(0))
    ensures Apply(m, StartCall(0)) == m.(calls := [[Call(None, false, false)]])
  {
    assert [] + [Call(None, false, false)] == [Call(None, false, false)];
    assert m.calls[0 := [Call(None, false, false)]] == [[Call(None, false, false)]];
  }

  lemma HupPossible(m: Machine, call: Call)
    requires m.calls != [] && m.calls[0] == [call] && call.handler == None && !m.base.main.Stopped?
    ensures Possible(m, Deliver(0, HUP))
  {
  }
}
