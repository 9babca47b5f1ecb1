/** The two tables a poll writes, and what polling servers one after another does
    to them. This is the meaning that every interleaving of workers must reach. */
module PollTables {
  import opened Text

  datatype Stats = Stats(current: int, peak: int, max: int, averageTime: int, streamHits: int)

  /** What the outside world answers to one worker: no usable document, or a title
      and statistics together with the success of its three database commands. */
  datatype Outcome =
    | Unusable
    | Answered(title: string, stats: Stats, selectOk: bool, songOk: bool, infoOk: bool)

  datatype Server = Server(url: string, outcome: Outcome)

  datatype SongRow = SongRow(url: string, title: string)
  datatype InfoRow = InfoRow(url: string, stats: Stats)

  /** Rows in the order of their insertion. */
  datatype Tables = Tables(songs: seq<SongRow>, infos: seq<InfoRow>)

  /** The newest title stored for a URL. */
  function Newest(songs: seq<SongRow>, url: string): Option<string> {
    if songs == [] then None
    else
      var last := songs[|songs| - 1];
      if last.url == url then Some(last.title) else Newest(songs[..|songs| - 1], url)
  }

  /** The row the title query leaves on the cursor. A failed query leaves none. */
  function SelectRow(t: Tables, srv: Server): Option<string>
    requires srv.outcome.Answered?
  {
    if srv.outcome.selectOk then Newest(t.songs, srv.url) else None
  }

  predicate Inserts(t: Tables, srv: Server)
    requires srv.outcome.Answered?
  {
    SelectRow(t, srv) != Some(srv.outcome.title)
  }

  function AddSong(t: Tables, srv: Server): Tables
    requires srv.outcome.Answered?
  {
    if srv.outcome.songOk then t.(songs := t.songs + [SongRow(srv.url, srv.outcome.title)]) else t
  }

  function AddInfo(t: Tables, srv: Server): Tables
    requires srv.outcome.Answered?
  {
    if srv.outcome.infoOk then t.(infos := t.infos + [InfoRow(srv.url, srv.outcome.stats)]) else t
  }

  function StoreSong(t: Tables, srv: Server): Tables
    requires srv.outcome.Answered?
  {
    if Inserts(t, srv) then AddSong(t, srv) else t
  }

  /** One server polled with nobody else around. */
  function Serve(t: Tables, srv: Server): Tables {
    if srv.outcome.Unusable? then t else AddInfo(StoreSong(t, srv), srv)
  }

  /** Servers polled one after another. */
  function Serial(t: Tables, order: seq<Server>): Tables {
    if order == [] then t else Serve(Serial(t, order[..|order| - 1]), order[|order| - 1])
  }

  lemma {:induction false} SerialConcat(t: Tables, a: seq<Server>, b: seq<Server>)
    ensures Serial(t, a + b) == Serial(Serial(t, a), b)
  {
    if b == [] {
      assert a + b == a;
    } else {
      assert (a + b)[..|a + b| - 1] == a + b[..|b| - 1];
      SerialConcat(t, a, b[..|b| - 1]);
    }
  }

  lemma SerialSnoc(t: Tables, a: seq<Server>, srv: Server)
    ensures Serial(t, a + [srv]) == Serve(Serial(t, a), srv)
  {
    assert (a + [srv])[..|a|] == a;
  }

  // ----- One URL at a time -----

  /** The titles stored for a URL, oldest first. */
  function Titles(songs: seq<SongRow>, url: string): seq<string> {
    if songs == [] then []
    else
      var last := songs[|songs| - 1];
      Titles(songs[..|songs| - 1], url) + if last.url == url then [last.title] else []
  }

  /** The statistics stored for a URL, oldest first. */
  function Readings(infos: seq<InfoRow>, url: string): seq<Stats> {
    if infos == [] then []
    else
      var last := infos[|infos| - 1];
      Readings(infos[..|infos| - 1], url) + if last.url == url then [last.stats] else []
  }

  function ForUrl(servers: seq<Server>, url: string): seq<Server> {
    if servers == [] then []
    else
      var last := servers[|servers| - 1];
      ForUrl(servers[..|servers| - 1], url) + if last.url == url then [last] else []
  }

  lemma {:induction false} NewestIsLastTitle(songs: seq<SongRow>, url: string)
    ensures var h := Titles(songs, url);
            Newest(songs, url) == if h == [] then None else Some(h[|h| - 1])
  {
    if songs != [] {
      NewestIsLastTitle(songs[..|songs| - 1], url);
    }
  }

  /** What one poll of its URL does to a title history. */
  function GrowTitles(h: seq<string>, srv: Server): seq<string> {
    if srv.outcome.Unusable? || !srv.outcome.songOk then h
    else if srv.outcome.selectOk && h != [] && h[|h| - 1] == srv.outcome.title then h
    else h + [srv.outcome.title]
  }

  function GrowReadings(h: seq<Stats>, srv: Server): seq<Stats> {
    if srv.outcome.Unusable? || !srv.outcome.infoOk then h else h + [srv.outcome.stats]
  }

  function TitlesAfter(h: seq<string>, servers: seq<Server>): seq<string> {
    if servers == [] then h else GrowTitles(TitlesAfter(h, servers[..|servers| - 1]), servers[|servers| - 1])
  }

  function ReadingsAfter(h: seq<Stats>, servers: seq<Server>): seq<Stats> {
    if servers == [] then h else GrowReadings(ReadingsAfter(h, servers[..|servers| - 1]), servers[|servers| - 1])
  }

  lemma OneMoreSong(songs: seq<SongRow>, row: SongRow, url: string)
    ensures Titles(songs + [row], url) == Titles(songs, url) + if row.url == url then [row.title] else []
  {
    assert (songs + [row])[..|songs|] == songs;
  }

  lemma OneMoreInfo(infos: seq<InfoRow>, row: InfoRow, url: string)
    ensures Readings(infos + [row], url) == Readings(infos, url) + if row.url == url then [row.stats] else []
  {
    assert (infos + [row])[..|infos|] == infos;
  }

  lemma ServeOneUrl(t: Tables, srv: Server, url: string)
    ensures Titles(Serve(t, srv).songs, url)
            == if srv.url == url then GrowTitles(Titles(t.songs, url), srv) else Titles(t.songs, url)
    ensures Readings(Serve(t, srv).infos, url)
            == if srv.url == url then GrowReadings(Readings(t.infos, url), srv) else Readings(t.infos, url)
  {
    hide Newest, Titles, Readings;
    if srv.outcome.Answered? {
      NewestIsLastTitle(t.songs, srv.url);
      OneMoreSong(t.songs, SongRow(srv.url, srv.outcome.title), url);
      OneMoreInfo(t.infos, InfoRow(srv.url, srv.outcome.stats), url);
    }
  }

  /** A URL's histories depend only on the polls of that URL. */
  lemma {:induction false} SerialOneUrl(t: Tables, order: seq<Server>, url: string)
    ensures Titles(Serial(t, order).songs, url) == TitlesAfter(Titles(t.songs, url), ForUrl(order, url))
    ensures Readings(Serial(t, order).infos, url) == ReadingsAfter(Readings(t.infos, url), ForUrl(order, url))
  {
    if order != [] {
      var front, last := order[..|order| - 1], order[|order| - 1];
      SerialOneUrl(t, front, url);
      ServeOneUrl(Serial(t, front), last, url);
      if last.url == url {
        assert ForUrl(order, url)[..|ForUrl(order, url)| - 1] == ForUrl(front, url);
      } else {
        assert ForUrl(order, url) == ForUrl(front, url);
      }
    }
  }

  // ----- Servers that answered -----

  function Answering(servers: seq<Server>): seq<Server> {
    if servers == [] then []
    else
      var last := servers[|servers| - 1];
      Answering(servers[..|servers| - 1]) + if last.outcome.Answered? then [last] else []
  }

  /** Servers whose fetch or parse failed add no rows. */
  lemma {:induction false} OnlyAnsweringMatter(t: Tables, servers: seq<Server>)
    ensures Serial(t, servers) == Serial(t, Answering(servers))
  {
    if servers != [] {
      var front, last := servers[..|servers| - 1], servers[|servers| - 1];
      OnlyAnsweringMatter(t, front);
      if last.outcome.Answered? {
        SerialSnoc(t, Answering(front), last);
      } else {
        assert Answering(servers) == Answering(front);
      }
    }
  }

  // ----- Orders of the same polls -----

  ghost predicate DistinctUrls(servers: seq<Server>) {
    forall i, j :: 0 <= i < j < |servers| ==> servers[i].url != servers[j].url
  }

  lemma {:induction false} ForUrlCount(servers: seq<Server>, url: string, srv: Server)
    ensures multiset(ForUrl(servers, url))[srv] == if srv.url == url then multiset(servers)[srv] else 0
  {
    if servers != [] {
      var front, last := servers[..|servers| - 1], servers[|servers| - 1];
      ForUrlCount(front, url, srv);
      assert servers == front + [last];
    }
  }

  lemma {:induction false} ForUrlDistinct(servers: seq<Server>, url: string)
    requires DistinctUrls(servers)
    ensures |ForUrl(servers, url)| <= 1
    ensures ForUrl(servers, url) != [] ==> exists k :: 0 <= k < |servers| && servers[k].url == url
  {
    if servers != [] {
      ForUrlDistinct(servers[..|servers| - 1], url);
    }
  }

  lemma SmallBagsEqual(a: seq<Server>, b: seq<Server>)
    requires multiset(a) == multiset(b) && |b| <= 1
    ensures a == b
  {
    assert |a| == |multiset(a)| == |b|;
    if |a| == 1 {
      assert a[0] in multiset(b);
    }
  }

  lemma SameForUrl(a: seq<Server>, b: seq<Server>, url: string)
    requires multiset(a) == multiset(b) && DistinctUrls(b)
    ensures ForUrl(a, url) == ForUrl(b, url)
  {
    forall srv ensures multiset(ForUrl(a, url))[srv] == multiset(ForUrl(b, url))[srv] {
      ForUrlCount(a, url, srv);
      ForUrlCount(b, url, srv);
    }
    ForUrlDistinct(b, url);
    SmallBagsEqual(ForUrl(a, url), ForUrl(b, url));
  }

  lemma {:induction false} AnsweringDistinct(servers: seq<Server>)
    requires DistinctUrls(servers)
    ensures DistinctUrls(Answering(servers))
    ensures forall srv <- Answering(servers) :: srv in servers
  {
    if servers != [] {
      var front, last := servers[..|servers| - 1], servers[|servers| - 1];
      AnsweringDistinct(front);
      forall srv <- Answering(front) ensures srv.url != last.url {
        var k :| 0 <= k < |front| && front[k] == srv;
        assert servers[k] == srv;
      }
    }
  }

  /** With distinct URLs, every order of the answering servers leaves the same
      histories as the order of the list. */
  lemma {:induction false} AnyOrderSameHistories(t: Tables, order: seq<Server>, servers: seq<Server>, url: string)
    requires multiset(order) == multiset(Answering(servers)) && DistinctUrls(servers)
    ensures Titles(Serial(t, order).songs, url) == Titles(Serial(t, servers).songs, url)
    ensures Readings(Serial(t, order).infos, url) == Readings(Serial(t, servers).infos, url)
  {
    AnsweringDistinct(servers);
    SameForUrl(order, Answering(servers), url);
    OnlyAnsweringMatter(t, servers);
    SerialOneUrl(t, order, url);
    SerialOneUrl(t, Answering(servers), url);
  }

  // ----- No repeated title -----

  /** `h` extends `h0`, and no added title equals the one before it. */
  ghost predicate NoNewRepeats(h0: seq<string>, h: seq<string>) {
    && h0 <= h
    && forall k :: 0 < k < |h| && |h0| <= k ==> h[k - 1] != h[k]
  }

  /** A poll that cannot see the newest title and finds the same one playing. */
  predicate Blind(h: seq<string>, srv: Server) {
    && srv.outcome.Answered? && srv.outcome.songOk && !srv.outcome.selectOk
    && h != [] && h[|h| - 1] == srv.outcome.title
  }

  /** No poll is blind on the history that the polls before it made. */
  ghost predicate NoneBlind(h: seq<string>, servers: seq<Server>) {
    forall k :: 0 <= k < |servers| ==> !Blind(TitlesAfter(h, servers[..k]), servers[k])
  }

  lemma GrowRepeats(h0: seq<string>, h: seq<string>, srv: Server)
    requires h0 <= h
    ensures h0 <= GrowTitles(h, srv)
    ensures NoNewRepeats(h0, GrowTitles(h, srv)) <==> NoNewRepeats(h0, h) && !Blind(h, srv)
  {
    var g := GrowTitles(h, srv);
    if g != h {
      assert g[..|h|] == h && g[|h|] == srv.outcome.title;
      assert h0 <= g;
      assert forall k :: 0 <= k < |h| ==> g[k] == h[k];
    }
  }

  lemma NoneBlindLast(h: seq<string>, front: seq<Server>, last: Server)
    ensures NoneBlind(h, front + [last]) <==> NoneBlind(h, front) && !Blind(TitlesAfter(h, front), last)
  {
    var all := front + [last];
    hide TitlesAfter, Blind;
    assert all[..|front|] == front && all[|front|] == last;
    assert forall k :: 0 <= k < |front| ==> all[..k] == front[..k] && all[k] == front[k];
    if NoneBlind(h, all) {
      forall k | 0 <= k < |front| ensures !Blind(TitlesAfter(h, front[..k]), front[k]) {
        assert !Blind(TitlesAfter(h, all[..k]), all[k]);
      }
      assert !Blind(TitlesAfter(h, all[..|front|]), all[|front|]);
    }
  }

  /** A title is stored twice in a row exactly when some poll is blind. */
  lemma {:induction false} RepeatsIffBlind(h: seq<string>, servers: seq<Server>)
    ensures h <= TitlesAfter(h, servers)
    ensures NoNewRepeats(h, TitlesAfter(h, servers)) <==> NoneBlind(h, servers)
    decreases servers
  {
    if servers != [] {
      var front, last := servers[..|servers| - 1], servers[|servers| - 1];
      RepeatsIffBlind(h, front);
      GrowRepeats(h, TitlesAfter(h, front), last);
      assert servers == front + [last];
      NoneBlindLast(h, front, last);
      hide NoneBlind, NoNewRepeats, Blind, GrowTitles;
    }
  }

  ghost predicate SelectsSucceed(servers: seq<Server>) {
    forall srv <- servers :: srv.outcome.Answered? ==> srv.outcome.selectOk
  }

  lemma {:induction false} ForUrlSubset(servers: seq<Server>, url: string)
    ensures forall srv <- ForUrl(servers, url) :: srv in servers
  {
    if servers != [] {
      ForUrlSubset(servers[..|servers| - 1], url);
    }
  }

  /** Polling one after another adds no title that repeats the one before it exactly when
      no poll of the URL is blind. */
  lemma SerialRepeatsIffBlind(t: Tables, order: seq<Server>, url: string)
    ensures var h := Titles(t.songs, url);
            NoNewRepeats(h, Titles(Serial(t, order).songs, url)) <==> NoneBlind(h, ForUrl(order, url))
  {
    SerialOneUrl(t, order, url);
    RepeatsIffBlind(Titles(t.songs, url), ForUrl(order, url));
  }

  lemma SerialNoRepeats(t: Tables, order: seq<Server>, url: string)
    requires SelectsSucceed(order)
    ensures NoNewRepeats(Titles(t.songs, url), Titles(Serial(t, order).songs, url))
  {
    SerialRepeatsIffBlind(t, order, url);
    ForUrlSubset(order, url);
    var polls := ForUrl(order, url);
    forall k | 0 <= k < |polls| ensures !Blind(TitlesAfter(Titles(t.songs, url), polls[..k]), polls[k]) {
      assert polls[k] in order;
    }
  }

  /** Leaving a database and coming back later adds up: what two stays leave has no new
      repeat either. */
  lemma StaysAddUp(h0: seq<string>, h1: seq<string>, h2: seq<string>)
    requires NoNewRepeats(h0, h1) && NoNewRepeats(h1, h2)
    ensures NoNewRepeats(h0, h2)
  {
    forall k | 0 < k < |h2| && |h0| <= k ensures h2[k - 1] != h2[k] {
      if k < |h1| {
        assert h2[k - 1] == h1[k - 1] && h2[k] == h1[k];
      }
    }
  }

  /** It rests on the select: when that query fails, the title just stored is stored again. */
  lemma FailedSelectRepeats(t: Tables, srv: Server)
    requires srv.outcome.Answered? && srv.outcome.songOk && !srv.outcome.selectOk
    ensures !NoNewRepeats(Titles(t.songs, srv.url), Titles(Serial(t, [srv, srv]).songs, srv.url))
  {
    var h, title := Titles(t.songs, srv.url), srv.outcome.title;
    GrowsAgain(h, srv);
    TwicePolled(t, srv);
    ServeOneUrl(t, srv, srv.url);
    ServeOneUrl(Serve(t, srv), srv, srv.url);
    hide *;
    RepeatIsNew(h, title);
  }

  lemma GrowsAgain(h: seq<string>, srv: Server)
    requires srv.outcome.Answered? && srv.outcome.songOk && !srv.outcome.selectOk
    ensures GrowTitles(GrowTitles(h, srv), srv) == h + [srv.outcome.title] + [srv.outcome.title]
  {
  }

  lemma TwicePolled(t: Tables, srv: Server)
    ensures Serial(t, [srv, srv]) == Serve(Serve(t, srv), srv)
  {
    SerialSnoc(t, [], srv);
    SerialSnoc(t, [srv], srv);
    assert [] + [srv] == [srv] && [srv] + [srv] == [srv, srv];
    hide Serve;
  }

  lemma RepeatIsNew(h: seq<string>, title: string)
    ensures !NoNewRepeats(h, h + [title] + [title])
  {
    var end, k := h + [title] + [title], |h| + 1;
    assert end[k - 1] == title == end[k];
  }

  // ----- What is stored -----

  /** A poll that succeeds leaves the title it found as the newest one. It adds a row, with
      exactly that title, if and only if the history was empty or ended differently. */
  lemma PollStoresTitle(t: Tables, srv: Server)
    requires srv.outcome.Answered? && srv.outcome.selectOk && srv.outcome.songOk
    ensures var h, g := Titles(t.songs, srv.url), Titles(Serve(t, srv).songs, srv.url);
            && g != [] && g[|g| - 1] == srv.outcome.title
            && (g == h + [srv.outcome.title] <==> h == [] || h[|h| - 1] != srv.outcome.title)
            && (g == h <==> h != [] && h[|h| - 1] == srv.outcome.title)
  {
    ServeOneUrl(t, srv, srv.url);
  }

  /** And it adds one row of statistics. */
  lemma PollStoresStats(t: Tables, srv: Server)
    requires srv.outcome.Answered? && srv.outcome.infoOk
    ensures Serve(t, srv).infos == t.infos + [InfoRow(srv.url, srv.outcome.stats)]
  {
  }

  /** The elements from position `from` on that differ from the one before them. */
  function Changes(all: seq<string>, from: nat): seq<string> {
    if |all| <= from then []
    else
      var n := |all| - 1;
      Changes(all[..n], from) + if n == 0 || all[n - 1] != all[n] then [all[n]] else []
  }

  /** The titles that servers played, in order. */
  function Played(servers: seq<Server>): seq<string> {
    if servers == [] then []
    else
      var last := servers[|servers| - 1];
      Played(servers[..|servers| - 1]) + if last.outcome.Answered? then [last.outcome.title] else []
  }

  ghost predicate AllSucceed(servers: seq<Server>) {
    forall srv <- servers :: srv.outcome.Answered? ==> srv.outcome.selectOk && srv.outcome.songOk
  }

  lemma OneMoreChange(all: seq<string>, title: string, from: nat)
    requires from <= |all|
    ensures Changes(all + [title], from)
            == Changes(all, from) + if all == [] || all[|all| - 1] != title then [title] else []
  {
    assert (all + [title])[..|all|] == all;
  }

  /** `g` is `h` followed by the changes of `all` behind it, and ends as `all` does. */
  predicate Collapsed(g: seq<string>, h: seq<string>, all: seq<string>) {
    && g == h + Changes(all, |h|)
    && (all == [] <==> g == []) && (all != [] ==> g[|g| - 1] == all[|all| - 1])
  }

  lemma GrowIsChange(h: seq<string>, all: seq<string>, g: seq<string>, srv: Server)
    requires srv.outcome.Answered? && srv.outcome.selectOk && srv.outcome.songOk
    requires |h| <= |all| && Collapsed(g, h, all)
    ensures Collapsed(GrowTitles(g, srv), h, all + [srv.outcome.title])
  {
    var title := srv.outcome.title;
    OneMoreChange(all, title, |h|);
    hide Changes;
    if all == [] || all[|all| - 1] != title {
      assert GrowTitles(g, srv) == g + [title];
      assert h + (Changes(all, |h|) + [title]) == h + Changes(all, |h|) + [title];
    } else {
      assert GrowTitles(g, srv) == g;
      assert Changes(all, |h|) + [] == Changes(all, |h|);
    }
  }

  /** Polls that all succeed leave the old titles and then those played, in order, with
      equal neighbours collapsed. */
  lemma {:induction false} TitlesAreChanges(h: seq<string>, servers: seq<Server>)
    requires AllSucceed(servers)
    ensures Collapsed(TitlesAfter(h, servers), h, h + Played(servers))
    decreases servers
  {
    if servers == [] {
      assert h + [] == h && Changes(h, |h|) == [];
    } else {
      var front, last := servers[..|servers| - 1], servers[|servers| - 1];
      assert last in servers && forall srv <- front :: srv in servers;
      TitlesAreChanges(h, front);
      hide Collapsed;
      var p := Played(front);
      if last.outcome.Answered? {
        GrowIsChange(h, h + p, TitlesAfter(h, front), last);
        assert h + (p + [last.outcome.title]) == h + p + [last.outcome.title];
      } else {
        assert p + [] == p;
      }
    }
  }

  lemma SerialStoresChanges(t: Tables, order: seq<Server>, url: string)
    requires AllSucceed(order)
    ensures var h := Titles(t.songs, url);
            Titles(Serial(t, order).songs, url) == h + Changes(h + Played(ForUrl(order, url)), |h|)
  {
    SerialOneUrl(t, order, url);
    ForUrlSubset(order, url);
    TitlesAreChanges(Titles(t.songs, url), ForUrl(order, url));
  }

  // ----- The server-info rows -----

  function InfoRows(order: seq<Server>): seq<InfoRow> {
    if order == [] then []
    else
      var last := order[|order| - 1];
      InfoRows(order[..|order| - 1]) +
      if last.outcome.Answered? && last.outcome.infoOk then [InfoRow(last.url, last.outcome.stats)] else []
  }

  lemma {:induction false} SerialInfos(t: Tables, order: seq<Server>)
    ensures Serial(t, order).infos == t.infos + InfoRows(order)
  {
    if order != [] {
      SerialInfos(t, order[..|order| - 1]);
    }
  }

  ghost predicate InfosSucceed(order: seq<Server>) {
    forall srv <- order :: srv.outcome.Answered? && srv.outcome.infoOk
  }

  lemma {:induction false} InfoRowsMatch(order: seq<Server>)
    requires InfosSucceed(order)
    ensures |InfoRows(order)| == |order|
    ensures forall k :: 0 <= k < |order| ==> InfoRows(order)[k] == InfoRow(order[k].url, order[k].outcome.stats)
  {
    if order != [] {
      assert order[|order| - 1] in order;
      InfoRowsMatch(order[..|order| - 1]);
    }
  }
}
