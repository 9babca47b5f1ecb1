/** What signals do to the control loop, whenever they arrive. */
module PollSignals {
  import opened Text
  import opened PollTables
  import opened PollEngine
  import opened PollInvariant
  import Backend

  // ----- A measure of the work left -----

  function PhaseRank(p: Phase): nat {
    match p
    case Fetching => 8
    case Waiting => 7
    case Holding => 6
    case Queried => 5
    case Compared(_) => 4
    case SongStored => 3
    case InfoStored => 2
    case Reported => 1
    case Finished => 0
  }

  function WorkersRank(workers: seq<Worker>): nat {
    if workers == [] then 0 else WorkersRank(workers[..|workers| - 1]) + PhaseRank(workers[|workers| - 1].phase)
  }

  lemma {:induction false} WorkersRankUpdate(workers: seq<Worker>, w: nat, wk: Worker)
    requires w < |workers|
    ensures WorkersRank(workers[w := wk]) + PhaseRank(workers[w].phase)
            == WorkersRank(workers) + PhaseRank(wk.phase)
  {
    var n := |workers| - 1;
    if w < n {
      WorkersRankUpdate(workers[..n], w, wk);
      assert workers[w := wk][..n] == workers[..n][w := wk];
    } else {
      assert workers[w := wk][..n] == workers[..n];
    }
  }

  /** How far the main thread is from the end of the loop, when it is leaving. */
  function LeavingRank(m: Main): nat {
    match m
    case Stopped => 0
    case CheckExit => 1
    case CheckExitAgain => 1
    case Loading => 2
    case JoiningRest => 2
    case LoopTop => 3
    case Launching => 3
    case Sleeping => 4
    case JoiningBatch => 4
    case Gathering => 4
    case CheckPause => 5
  }

  /** How far it is from the top of the loop, where the reload flag is read. */
  function TopRank(m: Main): nat {
    match m
    case Stopped => 0
    case LoopTop => 1
    case Sleeping => 2
    case CheckExitAgain => 3
    case JoiningRest => 4
    case Launching => 5
    case JoiningBatch => 6
    case Gathering => 6
    case CheckPause => 7
    case CheckExit => 8
    case Loading => 9
  }

  /** Servers still to be launched in this cycle, each with all the steps it causes. */
  function LaunchRank(s: State): nat {
    if s.next <= |s.servers| then 10 * (|s.servers| - s.next) else 0
  }

  /** The steps that running and unlaunched workers still cause. */
  function Backlog(s: State): nat { WorkersRank(s.workers) + LaunchRank(s) }

  /** The distance to the top of the loop, member rows still to be gathered included. */
  function TopDistance(s: State): nat { TopRank(s.main) + if s.main.Gathering? then 11 * |s.pending| else 0 }

  function ExitBound(s: State): nat { Backlog(s) + LeavingRank(s.main) }

  function HangupBound(s: State): nat { Backlog(s) + TopDistance(s) }

  lemma RanksAfterWork(s: State, w: nat)
    requires Enabled(s, Work(w))
    ensures WorkersRank(Step(s, Work(w)).workers) < WorkersRank(s.workers)
    ensures LaunchRank(Step(s, Work(w))) == LaunchRank(s)
  {
    var wk := s.workers[w];
    WorkersRankUpdate(s.workers, w, wk.(phase := NextPhase(s.shared, wk)));
  }

  lemma {:induction false} JoinedRank(workers: seq<Worker>)
    requires AllFinished(workers)
    ensures WorkersRank(workers) == 0
  {
    if workers != [] {
      assert workers[|workers| - 1] in workers;
      JoinedRank(workers[..|workers| - 1]);
    }
  }

  lemma RanksAfterLaunch(s: State)
    requires s.next < |s.servers|
    ensures WorkersRank(Launched(s).workers) == WorkersRank(s.workers) + 8
    ensures LaunchRank(Launched(s)) == LaunchRank(s) - 10
  {
    var workers' := Launched(s).workers;
    assert workers'[..|workers'| - 1] == s.workers;
  }

  predicate Launches(s: State) { s.main.Launching? && s.next < |s.servers| }

  predicate Gathers(s: State) { s.main.Gathering? && !s.exiting && s.pending != [] }

  /** Launching moves a server from the list to the workers, joining drops finished
      workers, and gathering adds one server to the list. */
  lemma BacklogAfterMain(s: State)
    requires s.next <= |s.servers| && MainCanAdvance(s)
    ensures Backlog(Advanced(s)) == Backlog(s) + if Launches(s) then -2 else if Gathers(s) then 10 else 0
  {
    if Launches(s) {
      RanksAfterLaunch(s);
    } else if s.main.JoiningBatch? || s.main.JoiningRest? {
      JoinedRank(s.workers);
    } else {
      assert Advanced(s).workers == s.workers;
    }
  }

  lemma DistancesAfterMain(s: State)
    requires MainCanAdvance(s)
    ensures s.exiting ==> LeavingRank(Advanced(s).main) <= LeavingRank(s.main) + if Launches(s) then 1 else -1
    ensures !s.main.LoopTop? ==>
              TopDistance(Advanced(s)) <= TopDistance(s) + if Launches(s) then 1 else if Gathers(s) then -11 else -1
  {
  }

  // ----- Exit requests -----

  /** `exiting` is never cleared, and no server joins this cycle's list. */
  lemma ExitingStays(s: State, a: Action)
    requires s.exiting && Enabled(s, a)
    ensures var s' := Step(s, a); s'.exiting && (s'.servers == s.servers || s'.servers == [])
  {
    if a.Advance? {
      assert Advanced(s).exiting && Advanced(s).servers == s.servers;
    }
  }

  /** Every step but a signal brings the loop closer to its end. */
  lemma StepWhenExiting(s: State, a: Action)
    requires s.next <= |s.servers| && s.exiting && Enabled(s, a)
    ensures if IsSignal(a) then ExitBound(Step(s, a)) == ExitBound(s) else ExitBound(Step(s, a)) < ExitBound(s)
  {
    match a
    case Work(w) => RanksAfterWork(s, w);
    case Advance =>
      BacklogAfterMain(s);
      DistancesAfterMain(s);
    case _ =>
  }

  /** How many actions of a schedule are steps of the daemon. */
  function Steps(actions: seq<Action>): nat {
    if actions == [] then 0 else (if IsSignal(actions[0]) then 0 else 1) + Steps(actions[1..])
  }

  /** Once an exit was requested, the daemon takes a bounded number of further steps,
      whatever signals still arrive, and polls at most the servers already fetched. */
  lemma {:induction false} ExitIsBounded(s: State, actions: seq<Action>)
    requires Inv(s) && s.exiting && Schedulable(s, actions)
    ensures Exec(s, actions).exiting
    ensures Steps(actions) <= ExitBound(s)
    ensures Exec(s, actions).servers == s.servers || Exec(s, actions).servers == []
    decreases actions
  {
    if actions != [] {
      StepKeepsInv(s, actions[0]);
      ExitingStays(s, actions[0]);
      StepWhenExiting(s, actions[0]);
      ExitIsBounded(Step(s, actions[0]), actions[1..]);
    }
  }

  /** The daemon never gets stuck: until it has stopped, some step of it is enabled. */
  lemma NeverStuck(s: State) returns (a: Action)
    requires Inv(s) && !s.main.Stopped?
    ensures !IsSignal(a) && Enabled(s, a)
  {
    if s.main.Loading? {
      a := Load(None, s.shared.tables);
    } else if s.main.CheckPause? && !s.paused {
      a := Members([]);
    } else if (s.main.JoiningBatch? || s.main.JoiningRest?) && !AllFinished(s.workers) {
      match s.shared.lock
      case Some(w) => a := Work(w);
      case None =>
        var k :| 0 <= k < |s.workers| && s.workers[k].phase != Finished;
        a := Work(k);
    } else {
      a := Advance;
    }
  }

  /** So a schedule that cannot be continued has left the loop. */
  lemma OnlyStoppedIsFinal(s: State)
    requires Reachable(s)
    requires forall a: Action :: Enabled(s, a) ==> IsSignal(a)
    ensures s.main.Stopped?
  {
    ReachableInv(s);
    if !s.main.Stopped? {
      var a := NeverStuck(s);
    }
  }

  // ----- Reload requests -----

  function MembersCost(actions: seq<Action>): nat {
    if actions == [] then 0
    else (if actions[0].Members? then 11 * |actions[0].list| else 0) + MembersCost(actions[1..])
  }

  lemma StepAfterHangup(s: State, a: Action)
    requires s.next <= |s.servers| && s.reload && Enabled(s, a) && !(s.main.LoopTop? && a.Advance?)
    ensures var s' := Step(s, a);
            HangupBound(s') + (if IsSignal(a) then 0 else 1) <= HangupBound(s) + if a.Members? then 11 * |a.list| else 0
  {
    hide WorkersRank, NextShared, Moved, Backend.TryReload;
    match a
    case Work(w) => RanksAfterWork(s, w);
    case Advance =>
      BacklogAfterMain(s);
      DistancesAfterMain(s);
    case _ =>
  }

  /** The request stays pending until the top of the loop turns it into a load. */
  lemma RequestStays(s: State, a: Action)
    requires s.reload && Enabled(s, a)
    ensures var s' := Step(s, a);
            if s.main.LoopTop? && a.Advance? then s'.loads == s.loads + 1 else s'.loads == s.loads && s'.reload
  {
    if a.Advance? {
      assert Advanced(s).loads == s.loads || s.main.LoopTop?;
    }
  }

  lemma {:induction false} LoadsOnlyGrow(s: State, actions: seq<Action>)
    requires Schedulable(s, actions)
    ensures Exec(s, actions).loads >= s.loads
    decreases actions
  {
    if actions != [] {
      LoadsOnlyGrow(Step(s, actions[0]), actions[1..]);
    }
  }

  /** A reload request is never lost: along every schedule either a load begins after it,
      or the request is still pending and the number of steps taken is bounded by the work
      of the cycle in progress. As the daemon is never stuck, a load begins or it stops. */
  lemma {:induction false} HangupIsNotLost(s: State, actions: seq<Action>)
    requires Inv(s) && s.reload && Schedulable(s, actions)
    ensures var end := Exec(s, actions);
            || end.loads > s.loads
            || (end.reload && Steps(actions) <= HangupBound(s) + MembersCost(actions))
    decreases actions
  {
    if actions != [] {
      StepKeepsInv(s, actions[0]);
      RequestStays(s, actions[0]);
      var next := Step(s, actions[0]);
      if s.main.LoopTop? && actions[0].Advance? {
        LoadsOnlyGrow(next, actions[1..]);
      } else {
        StepAfterHangup(s, actions[0]);
        HangupIsNotLost(next, actions[1..]);
      }
    }
  }

  /** So a SIGHUP is heard, whatever the state it arrives in. */
  lemma HangupIsHeard(s: State, actions: seq<Action>)
    requires Inv(s) && Schedulable(s, [Hangup] + actions)
    ensures var end := Exec(s, [Hangup] + actions);
            || end.loads > s.loads
            || (end.reload && Steps(actions) <= HangupBound(s) + MembersCost(actions))
  {
    var all := [Hangup] + actions;
    assert all[0] == Hangup && all[1..] == actions;
    var s' := Step(s, Hangup);
    StepKeepsInv(s, Hangup);
    assert s'.reload && s'.loads == s.loads && HangupBound(s') == HangupBound(s);
    hide Inv, Step, Enabled, HangupBound;
    HangupIsNotLost(s', actions);
  }

  /** Each signal sets its flag, or flips the pause, and does nothing else. */
  lemma SignalsSetFlags(s: State)
    ensures Step(s, Hangup) == s.(reload := true)
    ensures Step(s, Terminate) == s.(exiting := true)
    ensures Step(s, TogglePause).paused != s.paused && Step(s, TogglePause).(paused := s.paused) == s
    ensures Step(Step(s, TogglePause), TogglePause) == s
  {
  }

  // ----- Pausing -----

  /** From a paused state no cycle begins until the next SIGUSR1. */
  lemma {:induction false} NoCycleWhilePaused(s: State, actions: seq<Action>)
    requires s.paused && Schedulable(s, actions) && forall a <- actions :: !a.TogglePause?
    ensures forall a <- actions :: !a.Members?
    ensures Exec(s, actions).paused
    decreases actions
  {
    if actions != [] {
      assert actions[0] in actions && forall a <- actions[1..] :: a in actions;
      PauseStays(s, actions[0]);
      NoCycleWhilePaused(Step(s, actions[0]), actions[1..]);
      assert actions == [actions[0]] + actions[1..];
    }
  }

  lemma PauseStays(s: State, a: Action)
    requires s.paused && Enabled(s, a) && !a.TogglePause?
    ensures Step(s, a).paused && !a.Members?
  {
    if a.Advance? {
      assert Advanced(s).paused;
    }
  }

  /** Past the check of the exit flag, a daemon that is not paused begins a cycle with
      whatever servers the member table holds, and does nothing else first. */
  lemma CycleBeginsUnlessPaused(s: State, list: seq<Server>)
    requires s.main.CheckPause? && !s.paused
    ensures Enabled(s, Members(list)) && !Enabled(s, Advance)
    ensures Step(s, Members(list)).pending == list && Step(s, Members(list)).servers == []
  {
  }

  /** Without signals the daemon begins its first cycle right away, on the tables it found,
      connected with the parameters of its configuration. */
  lemma FirstCycleBegins(cfg: Backend.Config, hardware: nat, found: Tables, list: seq<Server>)
    ensures var s, actions := Initial(cfg, hardware, found), [Advance, Advance, Members(list)];
            && Schedulable(s, actions)
            && var end := Exec(s, actions);
               && end.main.Gathering? && end.pending == list
               && end.shared.tables == found && end.shared.status == []
               && end.params == Backend.StartParams(cfg) && end.loads == 0
  {
    var s, actions := Initial(cfg, hardware, found), [Advance, Advance, Members(list)];
    hide Backend.StartParams, Threads;
    var t := Step(s, Advance);
    var u := Step(t, Advance);
    assert t.main.CheckExit? && u.main.CheckPause? && !u.paused;
    assert Enabled(u, Members(list));
    hide Step, Enabled;
    FirstAction(u, Members(list), []);
    assert [Members(list)] + [] == [Members(list)];
    FirstAction(t, Advance, [Members(list)]);
    assert [Advance] + [Members(list)] == [Advance, Members(list)];
    FirstAction(s, Advance, [Advance, Members(list)]);
    assert [Advance] + [Advance, Members(list)] == actions;
  }

  lemma FirstAction(s: State, a: Action, rest: seq<Action>)
    requires Enabled(s, a) && Schedulable(Step(s, a), rest)
    ensures Schedulable(s, [a] + rest) && Exec(s, [a] + rest) == Exec(Step(s, a), rest)
  {
    assert ([a] + rest)[1..] == rest;
  }

  /** The loop ends only when an exit was requested. */
  lemma {:induction false} StopsOnRequestOnly(s: State, actions: seq<Action>)
    requires Schedulable(s, actions) && !s.main.Stopped? && Exec(s, actions).main.Stopped?
    ensures s.exiting || exists a <- actions :: a.Terminate?
    decreases actions
  {
    if actions != [] && !s.exiting {
      var next := Step(s, actions[0]);
      assert actions[0] in actions && actions == [actions[0]] + actions[1..];
      if !actions[0].Terminate? {
        NotStoppedYet(s, actions[0]);
        StopsOnRequestOnly(next, actions[1..]);
        var a :| a in actions[1..] && a.Terminate?;
        assert a in actions;
      }
    }
  }

  lemma NotStoppedYet(s: State, a: Action)
    requires Enabled(s, a) && !s.exiting && !a.Terminate? && !s.main.Stopped?
    ensures !Step(s, a).exiting && !Step(s, a).main.Stopped?
  {
    if a.Advance? {
      assert !Advanced(s).exiting && !Advanced(s).main.Stopped?;
    }
  }

  /** A server without a usable answer is reported as an error and leaves everything else
      alone, the lock included. */
  lemma FailureIsReported(s: State, w: nat)
    requires Enabled(s, Work(w)) && s.workers[w].server.outcome.Unusable?
    ensures var s' := Step(s, Work(w));
            && s'.shared == s.shared.(status := s.shared.status + [Report(false, s.workers[w].server.url)])
            && s'.workers[w].phase == Finished
  {
  }

  // ----- Loads -----

  /** A load never runs beside a worker or inside the critical section, and it leaves usable
      parameters. If it fails nothing but the program counter moves. If it stays on the
      database, whatever else it changes, the tables and all that the theorems say about
      their history go on from where they were. */
  lemma LoadIsAllOrNothing(s: State, file: Option<Backend.Config>, found: Tables)
    requires Reachable(s) && Enabled(s, Load(file, found))
    ensures s.workers == [] && s.shared.lock == None
    ensures var s' := Step(s, Load(file, found));
            && Inv(s')
            && (file == None ==> s' == s.(main := CheckExit))
            && (file != None ==> s'.params == Backend.ReloadParams(s.params, file.value))
            && var same := s'.params.dbType == s.params.dbType && s'.params.host == s.params.host
                           && s'.params.port == s.params.port && s'.params.name == s.params.name;
               && (same ==>
                     && s'.shared.tables == s.shared.tables && s'.shared.order == s.shared.order
                     && s'.shared.status == s.shared.status && s'.history == s.history)
               && (!same ==> s'.shared.tables == found && s'.history.base == found)
  {
    ReachableInv(s);
    StepKeepsInv(s, Load(file, found));
    NobodyWorks(s);
    hide Inv, Backend.TryReload;
  }

  lemma NobodyWorks(s: State)
    requires Inv(s) && s.main.Loading?
    ensures s.workers == [] && s.shared.lock == None
  {
    hide DataInv, AccountInv;
  }

  /** A reload that changes the password only, on the same database. */
  lemma NewPasswordKeepsHistory(s: State, c: Backend.Config, found: Tables)
    requires Reachable(s) && s.main.Loading?
    requires Backend.ReloadParams(s.params, c).(pass := s.params.pass) == s.params
    ensures var s' := Step(s, Load(Some(c), found));
            s'.shared.tables == s.shared.tables && s'.history == s.history
  {
    var params := Backend.ReloadParams(s.params, c);
    assert params.(pass := s.params.pass).dbType == params.dbType;
    LoadIsAllOrNothing(s, Some(c), found);
  }
}
