/** What the poll engine promises, under every interleaving of its workers with the
    main thread and with signals. */
module PollTheorems {
  import opened Text
  import opened PollTables
  import opened PollEngine
  import opened PollInvariant
  import Backend

  // ----- The worker pool -----

  /** A bounded fork-join: at most max(1, thread count) workers live, they serve the
      servers launched last and in list order, one batch after another; one of them at
      most is inside the critical section; none lives while a reload replaces handles or
      after the loop has ended, and a finished cycle has launched its whole list. */
  lemma PoolIsBoundedForkJoin(s: State)
    requires Reachable(s)
    ensures |s.workers| <= Limit(s) && |s.workers| <= s.next <= |s.servers|
    ensures forall k :: 0 <= k < |s.workers| ==> s.workers[k].server == s.servers[s.next - |s.workers| + k]
    ensures s.workers != [] ==> IsMultiple(s.next - |s.workers|, Limit(s))
    ensures forall j, k | 0 <= j < |s.workers| && 0 <= k < |s.workers| ::
              Critical(s.workers[j].phase) && Critical(s.workers[k].phase) ==> j == k
    ensures s.main.Loading? || s.main.Stopped? ==> s.workers == [] && s.shared.lock == None
    ensures s.main.CheckExitAgain? ==> s.next == |s.servers|
  {
    ReachableInv(s);
  }

  /** With a positive `thread_count` that many workers may live. With 0 it is one worker,
      and not one for each hardware thread unless there is just one. */
  lemma WorkerLimit(cfg: Backend.Config, hardware: nat, found: Tables)
    ensures var n, limit := Threads(cfg, hardware), Limit(Initial(cfg, hardware, found));
            && (limit == n <==> n > 0)
            && (n == 0 ==> limit == 1 && (limit == hardware <==> hardware == 1))
            && ("thread_count" !in cfg ==> n == hardware)
            && ("thread_count" in cfg && Stoi(cfg["thread_count"]).Some? ==> n == Stoi(cfg["thread_count"]).value)
  {
  }

  /** Eight hardware threads and `thread_count 0`, as in the sample configuration. */
  lemma ZeroThreadsIsOneWorker(found: Tables)
    ensures Limit(Initial(map["thread_count" := "0"], 8, found)) == 1
  {
    var cfg: Backend.Config := map["thread_count" := "0"];
    assert ToString(0) == "0";
    StoiOfToString(0, "");
    assert ToString(0) + "" == "0" && cfg["thread_count"] == "0";
  }

  // ----- Serializability -----

  /** The actions of one cycle after its member query. */
  predicate WithinCycle(actions: seq<Action>) { forall a <- actions :: !a.Members? && !a.Load? }

  ghost predicate Gathered(s: State, list: seq<Server>) {
    && s.servers + s.pending == list
    && (!s.main.Gathering? && !s.exiting ==> s.pending == [])
  }

  lemma GatheredKept(s: State, a: Action, list: seq<Server>)
    requires Gathered(s, list) && Enabled(s, a) && !a.Members? && !a.Load?
    ensures Gathered(Step(s, a), list) && Step(s, a).history == s.history
  {
    if s.main.Gathering? && a.Advance? && s.pending != [] {
      assert s.servers + [s.pending[0]] + s.pending[1..] == s.servers + s.pending;
    }
  }

  lemma {:induction false} CycleKeepsList(s: State, actions: seq<Action>, list: seq<Server>)
    requires Gathered(s, list) && Schedulable(s, actions) && WithinCycle(actions)
    ensures Gathered(Exec(s, actions), list) && Exec(s, actions).history == s.history
    decreases actions
  {
    if actions != [] {
      assert actions[0] in actions;
      GatheredKept(s, actions[0], list);
      CycleKeepsList(Step(s, actions[0]), actions[1..], list);
    }
  }

  lemma CycleKeepsInv(s: State, list: seq<Server>, actions: seq<Action>)
    requires Reachable(s) && Enabled(s, Members(list))
    requires Schedulable(Step(s, Members(list)), actions) && WithinCycle(actions)
    ensures var end := Exec(Step(s, Members(list)), actions);
            && Inv(end) && Gathered(end, list)
            && end.history.start == s.shared.tables
  {
    ReachableInv(s);
    StepKeepsInv(s, Members(list));
    RunKeepsInv(Step(s, Members(list)), actions);
    CycleKeepsList(Step(s, Members(list)), actions, list);
  }

  lemma OrderIsPermutation(s: State)
    requires Inv(s) && s.next == |s.servers| && s.workers == []
    ensures multiset(s.shared.order[s.history.mark..]) == multiset(Answering(s.servers))
  {
    var order, mark := s.shared.order, s.history.mark;
    assert s.servers[s.next..] == [];
    assert forall srv <- order[mark..] :: srv in order;
    forall x: Server ensures multiset(order[mark..])[x] == multiset(Answering(s.servers))[x] {
      CountIsMultiplicity(order[mark..], x);
      CountIsMultiplicity(Answering(s.servers), x);
      CountAnswering(s.servers, x);
      if x.outcome.Answered? {
        assert Total(order[mark..], s.workers, s.servers[s.next..], x) == Count(s.servers, x);
      }
    }
  }

  /** Every interleaving of a poll cycle ends with the tables that polling the answering
      servers of the cycle one after another, in some order, makes of the tables at its
      beginning. Unless the daemon is exiting, the cycle's servers are the whole list. */
  lemma CycleIsSerializable(s: State, list: seq<Server>, actions: seq<Action>)
    requires Reachable(s) && Enabled(s, Members(list))
    requires Schedulable(Step(s, Members(list)), actions) && WithinCycle(actions)
    requires Exec(Step(s, Members(list)), actions).main.CheckExitAgain?
    ensures var end := Exec(Step(s, Members(list)), actions);
            && end.servers <= list
            && (!end.exiting ==> end.servers == list)
            && exists order :: multiset(order) == multiset(Answering(end.servers))
                               && end.shared.tables == Serial(s.shared.tables, order)
  {
    CycleKeepsInv(s, list, actions);
    var end := Exec(Step(s, Members(list)), actions);
    OrderIsPermutation(end);
    assert end.shared.tables == Serial(s.shared.tables, end.shared.order[end.history.mark..]);
  }

  /** With distinct URLs the order does not matter: each URL's histories are those of
      polling the list from front to back. */
  lemma CycleHistoriesAreSequential(s: State, list: seq<Server>, actions: seq<Action>, url: string)
    requires Reachable(s) && Enabled(s, Members(list)) && DistinctUrls(list)
    requires Schedulable(Step(s, Members(list)), actions) && WithinCycle(actions)
    requires Exec(Step(s, Members(list)), actions).main.CheckExitAgain?
    ensures var end := Exec(Step(s, Members(list)), actions);
            && Titles(end.shared.tables.songs, url) == Titles(Serial(s.shared.tables, end.servers).songs, url)
            && Readings(end.shared.tables.infos, url) == Readings(Serial(s.shared.tables, end.servers).infos, url)
  {
    CycleIsSerializable(s, list, actions);
    hide Serial, Answering, Titles, Readings, Exec, Step, Reachable, Schedulable;
    var end := Exec(Step(s, Members(list)), actions);
    var order :| multiset(order) == multiset(Answering(end.servers))
                 && end.shared.tables == Serial(s.shared.tables, order);
    AnyOrderSameHistories(s.shared.tables, order, end.servers, url);
  }

  // ----- No repeated titles -----

  /** The servers whose title queries decided what the tables hold now. */
  function Deciding(s: State): seq<Server>
    requires s.history.switchAt <= |s.shared.order|
  {
    s.shared.order[s.history.switchAt..] +
    match s.shared.lock
    case None => []
    case Some(w) => if w < |s.workers| then [s.workers[w].server] else []
  }

  lemma SinceConnected(order: seq<Server>, h: History)
    requires h.switchAt <= h.mark <= |order| && h.start == Serial(h.base, order[h.switchAt..h.mark])
    ensures Serial(h.start, order[h.mark..]) == Serial(h.base, order[h.switchAt..])
  {
    SerialConcat(h.base, order[h.switchAt..h.mark], order[h.mark..]);
    assert order[h.switchAt..] == order[h.switchAt..h.mark] + order[h.mark..];
  }

  lemma SongsSoFar(s: State)
    requires DataInv(s.workers, s.shared, s.history)
    ensures s.shared.tables.songs == Serial(s.history.base, s.shared.order[s.history.switchAt..]).songs
            || s.shared.tables.songs == Serial(s.history.base, Deciding(s)).songs
  {
    SinceConnected(s.shared.order, s.history);
    hide Serial, Urls, OkUrls;
    if s.shared.lock.Some? {
      SerialSnoc(s.history.base, s.shared.order[s.history.switchAt..], s.workers[s.shared.lock.value].server);
    }
  }

  /** In every reachable state, across batches, cycles and reloads that stay on the database,
      no URL has gained two equal titles in a row, provided the title queries that decided
      succeeded. */
  lemma NoRepeatedTitles(s: State, url: string)
    requires Reachable(s)
    ensures s.history.switchAt <= |s.shared.order|
    ensures SelectsSucceed(Deciding(s)) ==>
              NoNewRepeats(Titles(s.history.base.songs, url), Titles(s.shared.tables.songs, url))
  {
    ReachableInv(s);
    if SelectsSucceed(Deciding(s)) {
      var order := s.shared.order[s.history.switchAt..];
      forall srv <- order ensures srv in Deciding(s) {
      }
      SongsSoFar(s);
      SerialNoRepeats(s.history.base, order, url);
      SerialNoRepeats(s.history.base, Deciding(s), url);
    }
  }

  /** And exactly: while the lock is free, a title was stored twice in a row if and only if
      some poll of its URL since the database was connected was blind. */
  lemma RepeatsExactlyWhenBlind(s: State, url: string)
    requires Reachable(s) && s.shared.lock == None
    ensures s.history.switchAt <= |s.shared.order|
    ensures var h := Titles(s.history.base.songs, url);
            NoNewRepeats(h, Titles(s.shared.tables.songs, url))
            <==> NoneBlind(h, ForUrl(s.shared.order[s.history.switchAt..], url))
  {
    ReachableInv(s);
    SongsSoFar(s);
    SerialRepeatsIffBlind(s.history.base, s.shared.order[s.history.switchAt..], url);
    assert s.shared.order[s.history.switchAt..] + [] == s.shared.order[s.history.switchAt..];
    hide NoneBlind, NoNewRepeats, Titles, Serial;
  }

  /** While the lock is free and all polls since the database was connected succeeded, each
      URL has the titles found there and then those it played, in the order of the polls,
      with equal neighbours collapsed: no change of song is missed. */
  lemma EveryChangeIsStored(s: State, url: string)
    requires Reachable(s) && s.shared.lock == None
    ensures s.history.switchAt <= |s.shared.order|
    ensures AllSucceed(s.shared.order[s.history.switchAt..]) ==>
              var h := Titles(s.history.base.songs, url);
              var played := Played(ForUrl(s.shared.order[s.history.switchAt..], url));
              Titles(s.shared.tables.songs, url) == h + Changes(h + played, |h|)
  {
    ReachableInv(s);
    SongsSoFar(s);
    var order := s.shared.order[s.history.switchAt..];
    assert order + [] == order;
    hide Titles, Serial, Played, Changes, AllSucceed;
    if AllSucceed(order) {
      SerialStoresChanges(s.history.base, order, url);
    }
  }

  // ----- Status log and database -----

  lemma {:induction false} UrlsAt(order: seq<Server>)
    ensures |Urls(order)| == |order|
    ensures forall k :: 0 <= k < |order| ==> Urls(order)[k] == order[k].url
  {
    if order != [] {
      UrlsAt(order[..|order| - 1]);
    }
  }

  lemma InfosSoFar(s: State)
    requires DataInv(s.workers, s.shared, s.history) && s.shared.lock == None
    ensures s.shared.tables.infos == s.history.base.infos + InfoRows(s.shared.order[s.history.switchAt..])
  {
    SinceConnected(s.shared.order, s.history);
    SerialInfos(s.history.base, s.shared.order[s.history.switchAt..]);
  }

  /** Outside the critical section, if the inserts succeeded, the k-th server-info row
      since the current database was connected and the k-th "ok" report since then name
      the same server. */
  lemma StatusFollowsDatabase(s: State)
    requires Reachable(s) && s.shared.lock == None
    ensures s.history.switchAt <= |s.shared.order| == |OkUrls(s.shared.status)|
    ensures InfosSucceed(s.shared.order[s.history.switchAt..]) ==>
              && s.history.base.infos <= s.shared.tables.infos
              && var infos := s.shared.tables.infos[|s.history.base.infos|..];
                 var oks := OkUrls(s.shared.status)[s.history.switchAt..];
                 |infos| == |oks| && forall k :: 0 <= k < |infos| ==> infos[k].url == oks[k]
  {
    ReachableInv(s);
    var order := s.shared.order;
    UrlsAt(order);
    if InfosSucceed(order[s.history.switchAt..]) {
      InfosSoFar(s);
      InfoRowsMatch(order[s.history.switchAt..]);
      assert s.shared.tables.infos[|s.history.base.infos|..] == InfoRows(order[s.history.switchAt..]);
    }
  }
}
