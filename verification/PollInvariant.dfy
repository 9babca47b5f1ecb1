/** What every step of the poll engine keeps. */
module PollInvariant {
  import opened Text
  import opened PollTables
  import opened PollEngine
  import Backend

  // ----- The worker pool -----

  predicate IsMultiple(a: int, m: nat)
    requires m > 0
    decreases a
  {
    a == 0 || (a >= m && IsMultiple(a - m, m))
  }

  /** The unjoined workers serve the servers launched last, in list order. */
  ghost predicate ServesLast(workers: seq<Worker>, servers: seq<Server>, next: nat) {
    && |workers| <= next <= |servers|
    && forall k :: 0 <= k < |workers| ==> workers[k].server == servers[next - |workers| + k]
  }

  /** `live` workers in a batch that starts at a multiple of the limit, `next` of `total`
      servers launched; outside the pool code there are no workers. */
  ghost predicate Counted(m: Main, live: nat, next: nat, total: nat, limit: nat)
    requires limit > 0
  {
    match m
    case Gathering => live == 0 && next == 0
    case Launching => live < limit && IsMultiple(next - live, limit)
    case JoiningBatch => live == limit && IsMultiple(next - live, limit)
    case JoiningRest => live < limit && next == total && IsMultiple(next - live, limit)
    case _ => live == 0 && next == total
  }

  ghost predicate PoolInv(s: State) {
    && ServesLast(s.workers, s.servers, s.next)
    && Counted(s.main, |s.workers|, s.next, |s.servers|, Limit(s))
  }

  lemma PoolKeptByWork(s: State, w: nat)
    requires PoolInv(s) && Enabled(s, Work(w))
    ensures PoolInv(Step(s, Work(w)))
  {
    var workers' := Moved(s.workers, w, s.shared);
    assert forall k :: 0 <= k < |s.workers| ==> workers'[k].server == s.workers[k].server;
    assert ServesLast(workers', s.servers, s.next);
  }

  lemma PoolKeptByLaunch(s: State)
    requires PoolInv(s) && s.main.Launching? && s.next < |s.servers|
    ensures PoolInv(Launched(s))
  {
    assert |Launched(s).workers| == |s.workers| + 1 <= Limit(s);
  }

  lemma PoolKeptByMain(s: State)
    requires PoolInv(s) && MainCanAdvance(s)
    ensures PoolInv(Advanced(s))
  {
    if s.main.Launching? && s.next < |s.servers| {
      PoolKeptByLaunch(s);
    } else {
      var s' := Advanced(s);
      assert ServesLast(s'.workers, s'.servers, s'.next);
    }
  }

  lemma PoolKept(s: State, a: Action)
    requires PoolInv(s) && Enabled(s, a)
    ensures PoolInv(Step(s, a))
  {
    hide NextShared, Moved;
    match a
    case Advance => PoolKeptByMain(s);
    case Work(w) => PoolKeptByWork(s, w);
    case Members(list) => assert ServesLast([], [], 0);
    case Load(_, _) => assert ServesLast([], [], 0);
    case _ =>
  }

  // ----- Mutual exclusion -----

  /** Exactly the lock holder is in the critical section, and only answering servers
      get past the fetch. */
  ghost predicate LockInv(workers: seq<Worker>, lock: Option<nat>) {
    && (lock.Some? ==> lock.value < |workers| && Critical(workers[lock.value].phase))
    && (forall k :: 0 <= k < |workers| && Critical(workers[k].phase) ==> lock == Some(k))
    && (forall k :: 0 <= k < |workers| && workers[k].server.outcome.Unusable?
          ==> workers[k].phase.Fetching? || workers[k].phase.Finished?)
  }

  lemma LockKeptByWork(workers: seq<Worker>, sh: Shared, w: nat)
    requires LockInv(workers, sh.lock)
    requires w < |workers| && workers[w].phase != Finished
    requires workers[w].phase == Waiting ==> sh.lock == None
    ensures LockInv(Moved(workers, w, sh), NextShared(sh, w, workers[w]).lock)
  {
    var workers' := Moved(workers, w, sh);
    assert forall k :: 0 <= k < |workers| && k != w ==> workers'[k] == workers[k];
    assert workers'[w].server == workers[w].server;
  }

  lemma LockKeptByMain(s: State)
    requires LockInv(s.workers, s.shared.lock) && MainCanAdvance(s)
    ensures LockInv(Advanced(s).workers, Advanced(s).shared.lock)
  {
    if s.main.JoiningBatch? || s.main.JoiningRest? {
      assert forall k :: 0 <= k < |s.workers| ==> s.workers[k] in s.workers;
    } else if !s.main.Launching? {
      assert Advanced(s).workers == s.workers && Advanced(s).shared == s.shared;
    }
  }

  lemma LockKept(s: State, a: Action)
    requires LockInv(s.workers, s.shared.lock) && Enabled(s, a)
    ensures LockInv(Step(s, a).workers, Step(s, a).shared.lock)
  {
    match a
    case Work(w) => LockKeptByWork(s.workers, s.shared, w);
    case Advance => LockKeptByMain(s);
    case _ => assert Step(s, a).workers == s.workers && Step(s, a).shared.lock == s.shared.lock;
  }

  // ----- The tables and the status log -----

  function Urls(order: seq<Server>): seq<string> {
    if order == [] then [] else Urls(order[..|order| - 1]) + [order[|order| - 1].url]
  }

  /** The servers the status log reports as polled, oldest first. */
  function OkUrls(status: seq<Report>): seq<string> {
    if status == [] then []
    else
      var last := status[|status| - 1];
      OkUrls(status[..|status| - 1]) + if last.ok then [last.url] else []
  }

  lemma UrlsSnoc(order: seq<Server>, srv: Server)
    ensures Urls(order + [srv]) == Urls(order) + [srv.url]
  {
    assert (order + [srv])[..|order|] == order;
  }

  lemma OkUrlsSnoc(status: seq<Report>, r: Report)
    ensures OkUrls(status + [r]) == OkUrls(status) + if r.ok then [r.url] else []
  {
    assert (status + [r])[..|status|] == status;
  }

  /** How far the lock holder got, where `t` is what the tables held when it took the lock. */
  ghost predicate Midway(t: Tables, wk: Worker, sh: Shared) {
    var srv := wk.server;
    && srv.outcome.Answered?
    && OkUrls(sh.status) == Urls(sh.order) + (if wk.phase.Reported? then [srv.url] else [])
    && match wk.phase
       case Holding => sh.tables == t
       case Queried => sh.tables == t && sh.cursor == SelectRow(t, srv)
       case Compared(insert) => sh.tables == t && insert == Inserts(t, srv)
       case SongStored => sh.tables == StoreSong(t, srv)
       case InfoStored => sh.tables == Serve(t, srv)
       case Reported => sh.tables == Serve(t, srv)
       case _ => false
  }

  /** The tables are what polling one after another in the order of `order` makes of the
      contents found at the start, up to the progress of the lock holder. */
  ghost predicate DataInv(workers: seq<Worker>, sh: Shared, h: History) {
    && h.switchAt <= h.mark <= |sh.order|
    && h.start == Serial(h.base, sh.order[h.switchAt..h.mark])
    && (forall srv <- sh.order :: srv.outcome.Answered?)
    && var t := Serial(h.start, sh.order[h.mark..]);
       match sh.lock
       case None => sh.tables == t && OkUrls(sh.status) == Urls(sh.order)
       case Some(w) => w < |workers| && Midway(t, workers[w], sh)
  }

  /** Steps under the lock move the holder forward ... */
  lemma MidwayKept(t: Tables, wk: Worker, sh: Shared, w: nat)
    requires Midway(t, wk, sh) && !wk.phase.Reported?
    ensures Midway(t, wk.(phase := NextPhase(sh, wk)), NextShared(sh, w, wk))
  {
    if wk.phase.InfoStored? {
      OkUrlsSnoc(sh.status, Report(true, wk.server.url));
    }
  }

  /** ... and the last one commits it. */
  lemma DataKeptByCommit(workers: seq<Worker>, sh: Shared, h: History, w: nat)
    requires DataInv(workers, sh, h) && sh.lock == Some(w) && workers[w].phase.Reported?
    ensures DataInv(Moved(workers, w, sh), NextShared(sh, w, workers[w]), h)
  {
    var srv := workers[w].server;
    assert (sh.order + [srv])[h.mark..] == sh.order[h.mark..] + [srv];
    assert (sh.order + [srv])[h.switchAt..h.mark] == sh.order[h.switchAt..h.mark];
    SerialSnoc(h.start, sh.order[h.mark..], srv);
    UrlsSnoc(sh.order, srv);
    hide Serial, Urls, OkUrls, Serve;
  }

  /** Steps outside the lock touch neither the tables nor the cursor. */
  lemma DataKeptByOther(workers: seq<Worker>, sh: Shared, h: History, w: nat)
    requires DataInv(workers, sh, h) && LockInv(workers, sh.lock) && sh.lock != Some(w)
    requires w < |workers| && workers[w].phase != Finished
    requires workers[w].phase == Waiting ==> sh.lock == None
    ensures DataInv(Moved(workers, w, sh), NextShared(sh, w, workers[w]), h)
  {
    if workers[w].server.outcome.Unusable? {
      OkUrlsSnoc(sh.status, Report(false, workers[w].server.url));
    }
  }

  lemma DataAtCycleStart(s: State)
    requires DataInv(s.workers, s.shared, s.history) && s.shared.lock == None
    ensures DataInv(s.workers, s.shared, s.history.(start := s.shared.tables, mark := |s.shared.order|))
  {
    hide Urls, OkUrls, Midway, Serial;
    NothingServed(s.shared.tables);
    var h, order := s.history, s.shared.order;
    SerialConcat(h.base, order[h.switchAt..h.mark], order[h.mark..]);
    assert order[h.switchAt..] == order[h.switchAt..h.mark] + order[h.mark..];
    assert order[h.switchAt..|order|] == order[h.switchAt..];
    assert order[|order|..] == [];
  }

  lemma DataKeptByLoad(s: State, file: Option<Backend.Config>, found: Tables)
    requires DataInv(s.workers, s.shared, s.history) && s.shared.lock == None
    ensures var s' := Loaded(s, file, found); DataInv(s'.workers, s'.shared, s'.history)
  {
    var n := |s.shared.order|;
    assert s.shared.order[n..] == [] && s.shared.order[n..n] == [];
    NothingServed(found);
    hide Serial, Urls, OkUrls, Midway, Backend.TryReload, Backend.SameDatabase;
  }

  lemma NothingServed(t: Tables)
    ensures Serial(t, []) == t
  {
  }

  lemma DataKeptByMain(s: State)
    requires LockInv(s.workers, s.shared.lock) && DataInv(s.workers, s.shared, s.history) && MainCanAdvance(s)
    ensures var s' := Advanced(s); DataInv(s'.workers, s'.shared, s'.history)
  {
    hide Serial, Midway, Urls, OkUrls;
    if s.main.JoiningBatch? || s.main.JoiningRest? {
      assert forall k :: 0 <= k < |s.workers| ==> s.workers[k] in s.workers;
    }
  }

  lemma DataKept(s: State, a: Action)
    requires PoolInv(s) && LockInv(s.workers, s.shared.lock) && DataInv(s.workers, s.shared, s.history) && Enabled(s, a)
    ensures var s' := Step(s, a); DataInv(s'.workers, s'.shared, s'.history)
  {
    match a
    case Work(w) =>
      if s.shared.lock != Some(w) {
        DataKeptByOther(s.workers, s.shared, s.history, w);
      } else if s.workers[w].phase.Reported? {
        DataKeptByCommit(s.workers, s.shared, s.history, w);
      } else {
        MidwayKept(Serial(s.history.start, s.shared.order[s.history.mark..]), s.workers[w], s.shared, w);
      }
    case Members(_) => DataAtCycleStart(s);
    case Load(file, found) => DataKeptByLoad(s, file, found);
    case Advance => DataKeptByMain(s);
    case _ =>
  }

  // ----- Every answering server is committed once -----

  function Count(servers: seq<Server>, x: Server): nat {
    if servers == [] then 0
    else Count(servers[..|servers| - 1], x) + if servers[|servers| - 1] == x then 1 else 0
  }

  /** How many workers still have to commit `x`. */
  function Owed(workers: seq<Worker>, x: Server): nat {
    if workers == [] then 0
    else Owed(workers[..|workers| - 1], x) + Due(workers[|workers| - 1], x)
  }

  function Due(wk: Worker, x: Server): nat {
    if wk.phase != Finished && wk.server == x then 1 else 0
  }

  lemma CountSnoc(servers: seq<Server>, srv: Server, x: Server)
    ensures Count(servers + [srv], x) == Count(servers, x) + if srv == x then 1 else 0
  {
    assert (servers + [srv])[..|servers|] == servers;
  }

  lemma {:induction false} CountCons(srv: Server, servers: seq<Server>, x: Server)
    ensures Count([srv] + servers, x) == Count(servers, x) + if srv == x then 1 else 0
  {
    var all := [srv] + servers;
    if servers == [] {
      assert all[..0] == [];
    } else {
      CountCons(srv, servers[..|servers| - 1], x);
      assert all[..|all| - 1] == [srv] + servers[..|servers| - 1];
    }
  }

  lemma {:induction false} CountIsMultiplicity(servers: seq<Server>, x: Server)
    ensures Count(servers, x) == multiset(servers)[x]
  {
    if servers != [] {
      CountIsMultiplicity(servers[..|servers| - 1], x);
      assert servers == servers[..|servers| - 1] + [servers[|servers| - 1]];
    }
  }

  lemma {:induction false} CountAnswering(servers: seq<Server>, x: Server)
    ensures Count(Answering(servers), x) == if x.outcome.Answered? then Count(servers, x) else 0
  {
    if servers != [] {
      var front, last := servers[..|servers| - 1], servers[|servers| - 1];
      CountAnswering(front, x);
      if last.outcome.Answered? {
        CountSnoc(Answering(front), last, x);
      } else {
        assert Answering(servers) == Answering(front);
      }
    }
  }

  lemma {:induction false} OwedUpdate(workers: seq<Worker>, w: nat, wk: Worker, x: Server)
    requires w < |workers|
    ensures Owed(workers[w := wk], x) + Due(workers[w], x) == Owed(workers, x) + Due(wk, x)
  {
    var n := |workers| - 1;
    if w < n {
      OwedUpdate(workers[..n], w, wk, x);
      assert workers[w := wk][..n] == workers[..n][w := wk];
    } else {
      assert workers[w := wk][..n] == workers[..n];
    }
  }

  lemma {:induction false} NothingOwed(workers: seq<Worker>, x: Server)
    requires AllFinished(workers)
    ensures Owed(workers, x) == 0
  {
    if workers != [] {
      assert workers[|workers| - 1] in workers;
      NothingOwed(workers[..|workers| - 1], x);
    }
  }

  /** The polls of `x` that are committed, running or waiting. */
  function Total(committed: seq<Server>, workers: seq<Worker>, waiting: seq<Server>, x: Server): nat {
    Count(committed, x) + Owed(workers, x) + Count(waiting, x)
  }

  /** Together they are this cycle's polls of `x`. */
  ghost predicate Balanced(order: seq<Server>, mark: nat, workers: seq<Worker>, servers: seq<Server>, next: nat) {
    && mark <= |order|
    && next <= |servers|
    && forall x: Server :: x.outcome.Answered? ==>
         Total(order[mark..], workers, servers[next..], x) == Count(servers, x)
  }

  ghost predicate AccountInv(s: State) {
    Balanced(s.shared.order, s.history.mark, s.workers, s.servers, s.next)
  }

  lemma TotalKeptByWork(order: seq<Server>, mark: nat, workers: seq<Worker>, sh: Shared, w: nat,
                        waiting: seq<Server>, x: Server)
    requires mark <= |sh.order| && w < |workers| && workers[w].phase != Finished && x.outcome.Answered?
    requires order == NextShared(sh, w, workers[w]).order
    ensures Total(order[mark..], Moved(workers, w, sh), waiting, x) == Total(sh.order[mark..], workers, waiting, x)
  {
    var wk := workers[w];
    OwedUpdate(workers, w, wk.(phase := NextPhase(sh, wk)), x);
    if wk.server.outcome.Answered? && wk.phase.Reported? {
      assert order[mark..] == sh.order[mark..] + [wk.server];
      CountSnoc(sh.order[mark..], wk.server, x);
    }
  }

  lemma BalanceKeptByWork(s: State, w: nat)
    requires AccountInv(s) && Enabled(s, Work(w))
    ensures AccountInv(Step(s, Work(w)))
  {
    var order' := NextShared(s.shared, w, s.workers[w]).order;
    forall x: Server | x.outcome.Answered?
      ensures Total(order'[s.history.mark..], Moved(s.workers, w, s.shared), s.servers[s.next..], x)
              == Count(s.servers, x)
    {
      TotalKeptByWork(order', s.history.mark, s.workers, s.shared, w, s.servers[s.next..], x);
    }
  }

  lemma TotalKeptByLaunch(committed: seq<Server>, workers: seq<Worker>, srv: Server, waiting: seq<Server>, x: Server)
    ensures Total(committed, workers + [Worker(srv, Fetching)], waiting, x)
            == Total(committed, workers, [srv] + waiting, x)
  {
    CountCons(srv, waiting, x);
    var workers' := workers + [Worker(srv, Fetching)];
    assert workers'[..|workers|] == workers;
  }

  lemma BalanceKeptByLaunch(s: State)
    requires AccountInv(s) && s.next < |s.servers|
    ensures AccountInv(Launched(s))
  {
    var committed, waiting := s.shared.order[s.history.mark..], s.servers[s.next + 1..];
    assert s.servers[s.next..] == [s.servers[s.next]] + waiting;
    forall x: Server | x.outcome.Answered?
      ensures Total(committed, Launched(s).workers, waiting, x) == Count(s.servers, x)
    {
      TotalKeptByLaunch(committed, s.workers, s.servers[s.next], waiting, x);
    }
  }

  lemma BalanceKeptByJoin(s: State)
    requires AccountInv(s) && AllFinished(s.workers)
    ensures Balanced(s.shared.order, s.history.mark, [], s.servers, s.next)
  {
    forall x: Server | x.outcome.Answered? ensures Owed(s.workers, x) == 0 {
      NothingOwed(s.workers, x);
    }
  }

  lemma BalanceWhileGathering(order: seq<Server>, mark: nat, servers: seq<Server>, srv: Server)
    requires Balanced(order, mark, [], servers, 0)
    ensures Balanced(order, mark, [], servers + [srv], 0)
  {
    assert servers[0..] == servers;
    assert (servers + [srv])[0..] == servers + [srv];
  }

  lemma BalanceAtStart(order: seq<Server>)
    ensures Balanced(order, |order|, [], [], 0)
  {
    var none: seq<Server> := [];
    assert order[|order|..] == none && none[0..] == none;
  }

  lemma AccountKeptByMain(s: State)
    requires PoolInv(s) && AccountInv(s) && MainCanAdvance(s)
    ensures AccountInv(Advanced(s))
  {
    match s.main
    case Launching =>
      if s.next < |s.servers| {
        BalanceKeptByLaunch(s);
      }
    case Gathering =>
      if s.pending != [] {
        BalanceWhileGathering(s.shared.order, s.history.mark, s.servers, s.pending[0]);
      }
    case JoiningBatch => BalanceKeptByJoin(s);
    case JoiningRest => BalanceKeptByJoin(s);
    case _ =>
  }

  lemma AccountKept(s: State, a: Action)
    requires PoolInv(s) && AccountInv(s) && Enabled(s, a)
    ensures AccountInv(Step(s, a))
  {
    BalanceAtStart(s.shared.order);
    hide NextShared, Moved, Serial;
    match a
    case Work(w) => BalanceKeptByWork(s, w);
    case Advance => AccountKeptByMain(s);
    case _ =>
  }

  // ----- Together -----

  ghost predicate Inv(s: State) {
    && PoolInv(s)
    && LockInv(s.workers, s.shared.lock)
    && DataInv(s.workers, s.shared, s.history)
    && AccountInv(s)
    && Backend.Consistent(s.params)
  }

  lemma InvInitially(cfg: Backend.Config, hardware: nat, found: Tables)
    ensures Inv(Initial(cfg, hardware, found))
  {
  }

  lemma ParamsKept(s: State, a: Action)
    requires Backend.Consistent(s.params) && Enabled(s, a)
    ensures Backend.Consistent(Step(s, a).params)
  {
    if a.Load? {
      assert Backend.Consistent(Backend.TryReload(s.params, a.file));
    } else {
      assert Step(s, a).params == s.params;
    }
  }

  lemma StepKeepsInv(s: State, a: Action)
    requires Inv(s) && Enabled(s, a)
    ensures Inv(Step(s, a))
  {
    PoolKept(s, a);
    LockKept(s, a);
    DataKept(s, a);
    AccountKept(s, a);
    ParamsKept(s, a);
  }

  lemma {:induction false} RunKeepsInv(s: State, actions: seq<Action>)
    requires Inv(s) && Schedulable(s, actions)
    ensures Inv(Exec(s, actions))
    decreases actions
  {
    if actions != [] {
      StepKeepsInv(s, actions[0]);
      RunKeepsInv(Step(s, actions[0]), actions[1..]);
    }
  }

  /** The states the daemon can be in, under any schedule of threads and signals. */
  ghost predicate Reachable(s: State) {
    exists cfg, hardware, found, actions ::
      Schedulable(Initial(cfg, hardware, found), actions) && s == Exec(Initial(cfg, hardware, found), actions)
  }

  lemma ReachableInv(s: State)
    requires Reachable(s)
    ensures Inv(s)
  {
    var cfg, hardware, found, actions :|
      Schedulable(Initial(cfg, hardware, found), actions) && s == Exec(Initial(cfg, hardware, found), actions);
    InvInitially(cfg, hardware, found);
    RunKeepsInv(Initial(cfg, hardware, found), actions);
  }
}
