/** The news stream of `/api/tgnews` (server/index.js): the sources of a
    connection, and the scrape cycles that write every item not seen
    before on this connection, followed by one ping per source.  The
    scraper's answers are passed in, one per source and cycle; the log
    events, the time in a ping and the sixty-second timer are not
    modelled. */
module Stream {
  import opened Strings

  /** A scraped item; its other fields pass through unchanged. */
  datatype Item = Item(url: Text, text: Option<Text>, title: Option<Text>, media: seq<Text>)

  /** What the connection writes: an item with the source it came from,
      or a ping for a source. */
  datatype Event = Data(item: Item, source: Text) | Ping(source: Text)

  /** One source's scrape in one cycle. */
  datatype Scrape = Failed | Scraped(items: seq<Item>)

  // ---------------------------------------------------------------------
  // The sources of a connection
  // ---------------------------------------------------------------------

  /** The sources as written: a non-empty `urls` query is split at commas;
      without one the handler reads `tgSources`, a name bound nowhere in
      its scope, and throws. */
  function UrlsAsWritten(query: Text): (r: Option<seq<Text>>)
    ensures r.Some? <==> |query| > 0
    ensures r.Some? ==> |r.value| >= 1
  {
    if |query| > 0 then Some(Split(query, ",")) else None
  }

  /** The sources with the user's saved sources as the fallback. */
  function Urls(query: Text, saved: seq<Text>): (r: seq<Text>)
    ensures |query| > 0 ==> Some(r) == UrlsAsWritten(query)
    ensures |query| == 0 ==> r == saved
  {
    if |query| > 0 then Split(query, ",") else saved
  }

  /** A client with no source of its own sends an empty list, which the
      code as written cannot serve. */
  lemma EmptyListThrows(saved: seq<Text>)
    ensures Join([[]], ",") == ""
    ensures UrlsAsWritten(Join([[]], ",")).None?
    ensures Urls(Join([[]], ","), saved) == saved
  {
  }

  /** `req.query.history !== 'false'`. */
  function IncludeHistory(history: Option<Text>): (b: bool)
    ensures history.None? ==> b
    ensures !b <==> history == Some("false")
  {
    history != Some("false")
  }

  /** The client joins its source list with commas and the server splits
      it again: the list survives when no source holds a comma. */
  lemma {:induction false} SplitJoinedSources(urls: seq<Text>)
    requires |urls| >= 1
    requires forall i :: 0 <= i < |urls| ==> ',' !in urls[i]
    ensures Split(Join(urls, ","), ",") == urls
    decreases |urls|
  {
    if |urls| == 1 {
      SplitSingle(urls[0], ',');
    } else {
      SplitJoinedSources(urls[1..]);
      SplitAfterPiece(urls[0], ',', Join(urls[1..], ","));
      assert urls == [urls[0]] + urls[1..];
    }
  }

  /** A list of non-empty sources joins to a non-empty query. */
  lemma JoinedSourcesNonEmpty(urls: seq<Text>)
    requires |urls| >= 1 && |urls[0]| > 0
    ensures |Join(urls, ",")| > 0
  {
  }

  // ---------------------------------------------------------------------
  // A cycle, as a function of what was seen before
  // ---------------------------------------------------------------------

  /** The items' turn in a cycle: an item whose url was seen is skipped;
      any other is marked seen and written when `show` holds. */
  function ItemEvents(items: seq<Item>, source: Text, seen: set<Text>, show: bool): (r: (seq<Event>, set<Text>))
    ensures seen <= r.1 && |r.0| <= |items|
    decreases |items|
  {
    if |items| == 0 then ([], seen)
    else
      var (ev, s) := ItemEvents(items[..|items| - 1], source, seen, show);
      var it := items[|items| - 1];
      if it.url in s then (ev, s)
      else (ev + (if show then [Data(it, source)] else []), s + {it.url})
  }

  /** A whole cycle: each source in turn writes its new items, if its
      scrape succeeded, and then its ping, whether or not it did. */
  function CycleEvents(urls: seq<Text>, scrapes: seq<Scrape>, seen: set<Text>, show: bool): (r: (seq<Event>, set<Text>))
    requires |scrapes| == |urls|
    ensures seen <= r.1
    decreases |urls|
  {
    if |urls| == 0 then ([], seen)
    else
      var n := |urls| - 1;
      var (ev, s) := CycleEvents(urls[..n], scrapes[..n], seen, show);
      var (ev2, s2) := Turn(scrapes[n], urls[n], s, show);
      (ev + ev2, s2)
  }

  /** One source's turn: its new items, if the scrape succeeded, then its
      ping. */
  function Turn(scrape: Scrape, source: Text, seen: set<Text>, show: bool): (seq<Event>, set<Text>) {
    var (ev, s) := if scrape.Scraped? then ItemEvents(scrape.items, source, seen, show) else ([], seen);
    (ev + [Ping(source)], s)
  }

  /** The urls of some items. */
  function UrlSet(items: seq<Item>): (r: set<Text>)
    ensures forall i :: 0 <= i < |items| ==> items[i].url in r
    ensures forall u :: u in r ==> exists i :: 0 <= i < |items| && items[i].url == u
    decreases |items|
  {
    if |items| == 0 then {} else UrlSet(items[..|items| - 1]) + {items[|items| - 1].url}
  }

  /** The urls of the items written, in order. */
  function DataUrls(ev: seq<Event>): seq<Text>
    decreases |ev|
  {
    if |ev| == 0 then []
    else (if ev[0].Data? then [ev[0].item.url] else []) + DataUrls(ev[1..])
  }

  /** The sources of the pings written, in order. */
  function Pings(ev: seq<Event>): seq<Text>
    decreases |ev|
  {
    if |ev| == 0 then []
    else (if ev[0].Ping? then [ev[0].source] else []) + Pings(ev[1..])
  }

  lemma ConcatUrls(a: seq<Event>, b: seq<Event>)
    ensures DataUrls(a + b) == DataUrls(a) + DataUrls(b)
    ensures Pings(a + b) == Pings(a) + Pings(b)
  {
    ConcatData(a, b);
    ConcatPings(a, b);
  }

  lemma {:induction false} ConcatData(a: seq<Event>, b: seq<Event>)
    ensures DataUrls(a + b) == DataUrls(a) + DataUrls(b)
    decreases |a|
  {
    if |a| == 0 {
      assert a + b == b;
    } else {
      var ab := a + b;
      assert ab[0] == a[0] && ab[1..] == a[1..] + b;
      ConcatData(a[1..], b);
      var h := if a[0].Data? then [a[0].item.url] else [];
      assert DataUrls(ab) == h + (DataUrls(a[1..]) + DataUrls(b));
      assert h + (DataUrls(a[1..]) + DataUrls(b)) == (h + DataUrls(a[1..])) + DataUrls(b);
    }
  }

  lemma {:induction false} ConcatPings(a: seq<Event>, b: seq<Event>)
    ensures Pings(a + b) == Pings(a) + Pings(b)
    decreases |a|
  {
    if |a| == 0 {
      assert a + b == b;
    } else {
      var ab := a + b;
      assert ab[0] == a[0] && ab[1..] == a[1..] + b;
      ConcatPings(a[1..], b);
      var h := if a[0].Ping? then [a[0].source] else [];
      assert Pings(ab) == h + (Pings(a[1..]) + Pings(b));
      assert h + (Pings(a[1..]) + Pings(b)) == (h + Pings(a[1..])) + Pings(b);
    }
  }

  /** A single event's url and ping. */
  lemma OneEvent(e: Event)
    ensures DataUrls([e]) == (if e.Data? then [e.item.url] else [])
    ensures Pings([e]) == (if e.Ping? then [e.source] else [])
  {
    assert [e][1..] == [];
  }

  /** What is written and marked in one cycle. */
  predicate Fresh(seen: set<Text>, ev: seq<Event>, seen': set<Text>) {
    seen <= seen' && Distinct(DataUrls(ev))
    && (forall u :: u in DataUrls(ev) ==> u !in seen && u in seen')
  }

  lemma AppendFresh(seen: set<Text>, ev: seq<Event>, s: set<Text>, ev2: seq<Event>, s2: set<Text>)
    requires Fresh(seen, ev, s) && Fresh(s, ev2, s2)
    ensures Fresh(seen, ev + ev2, s2)
  {
    ConcatUrls(ev, ev2);
    var a, b := DataUrls(ev), DataUrls(ev2);
    forall i, j | 0 <= i < j < |a + b| ensures (a + b)[i] != (a + b)[j] {
      if i < |a| && j >= |a| {
        assert (a + b)[i] in a && (a + b)[j] in b;
      }
    }
  }

  /** An item's turn writes only items whose url was new, each once, and
      marks exactly the urls of its items; it writes nothing when not
      shown, and only items of its own source. */
  lemma {:induction false} ItemEventsFresh(items: seq<Item>, source: Text, seen: set<Text>, show: bool)
    ensures var (ev, s) := ItemEvents(items, source, seen, show);
      Fresh(seen, ev, s) && Pings(ev) == []
      && s == seen + UrlSet(items)
      && (!show ==> ev == [])
    decreases |items|
  {
    if |items| > 0 {
      var n := |items| - 1;
      var pre := items[..n];
      var it := items[n];
      ItemEventsFresh(pre, source, seen, show);
      var r := ItemEvents(pre, source, seen, show);
      assert ItemEvents(items, source, seen, show)
        == if it.url in r.1 then r else (r.0 + (if show then [Data(it, source)] else []), r.1 + {it.url});
      assert UrlSet(items) == UrlSet(pre) + {it.url};
      if it.url !in r.1 {
        NewItemFresh(seen, r.0, r.1, it, source, show);
      }
    }
  }

  /** The urls a turn writes when it shows its items: in the items'
      order, each url that was not seen before and is not the url of an
      earlier item. */
  function NewUrls(items: seq<Item>, seen: set<Text>): seq<Text>
    decreases |items|
  {
    if |items| == 0 then []
    else
      var n := |items| - 1;
      var u := items[n].url;
      NewUrls(items[..n], seen) + (if u in seen || u in UrlSet(items[..n]) then [] else [u])
  }

  /** A shown turn writes exactly the new urls of its items, in order. */
  lemma {:induction false} ItemEventsNew(items: seq<Item>, source: Text, seen: set<Text>)
    ensures DataUrls(ItemEvents(items, source, seen, true).0) == NewUrls(items, seen)
    decreases |items|
  {
    if |items| > 0 {
      var n := |items| - 1;
      var pre := items[..n];
      var it := items[n];
      ItemEventsNew(pre, source, seen);
      ItemEventsFresh(pre, source, seen, true);
      var r := ItemEvents(pre, source, seen, true);
      assert ItemEvents(items, source, seen, true)
        == if it.url in r.1 then r else (r.0 + [Data(it, source)], r.1 + {it.url});
      assert it.url in r.1 <==> it.url in seen || it.url in UrlSet(pre);
      assert NewUrls(items, seen) == NewUrls(pre, seen) + (if it.url in r.1 then [] else [it.url]);
      if it.url !in r.1 {
        ConcatUrls(r.0, [Data(it, source)]);
        OneEvent(Data(it, source));
      }
    }
  }

  /** The urls of every successful scrape of a cycle. */
  function ScrapedUrls(scrapes: seq<Scrape>): set<Text>
    decreases |scrapes|
  {
    if |scrapes| == 0 then {}
    else
      var n := |scrapes| - 1;
      ScrapedUrls(scrapes[..n]) + (if scrapes[n].Scraped? then UrlSet(scrapes[n].items) else {})
  }

  /** The urls a shown cycle writes: source by source, the new urls of
      each successful scrape against what was seen before the cycle and
      what the earlier scrapes of the cycle brought. */
  function CycleNewUrls(scrapes: seq<Scrape>, seen: set<Text>): seq<Text>
    decreases |scrapes|
  {
    if |scrapes| == 0 then []
    else
      var n := |scrapes| - 1;
      CycleNewUrls(scrapes[..n], seen)
        + (if scrapes[n].Scraped? then NewUrls(scrapes[n].items, seen + ScrapedUrls(scrapes[..n])) else [])
  }

  /** Writing an item whose url is new keeps the turn fresh. */
  lemma NewItemFresh(seen: set<Text>, ev: seq<Event>, s: set<Text>, it: Item, source: Text, show: bool)
    requires Fresh(seen, ev, s) && Pings(ev) == [] && it.url !in s
    ensures var ev' := ev + (if show then [Data(it, source)] else []);
      Fresh(seen, ev', s + {it.url}) && Pings(ev') == [] && (!show ==> ev' == ev)
  {
    var one: seq<Event> := if show then [Data(it, source)] else [];
    OneEvent(Data(it, source));
    AppendFresh(seen, ev, s, one, s + {it.url});
    ConcatUrls(ev, one);
  }

  /** A source's turn writes fresh items and exactly its own ping. */
  lemma TurnFresh(scrape: Scrape, source: Text, seen: set<Text>, show: bool)
    ensures var (ev, s) := Turn(scrape, source, seen, show);
      Fresh(seen, ev, s) && Pings(ev) == [source] && (!show ==> DataUrls(ev) == [])
    ensures Turn(scrape, source, seen, show).1 == seen + ScrapedUrls([scrape])
    ensures show ==> DataUrls(Turn(scrape, source, seen, show).0) == CycleNewUrls([scrape], seen)
  {
    TurnNew(scrape, source, seen, show);
    var (ev, s) := if scrape.Scraped? then ItemEvents(scrape.items, source, seen, show) else ([], seen);
    if scrape.Scraped? {
      ItemEventsFresh(scrape.items, source, seen, show);
    }
    var ping: seq<Event> := [Ping(source)];
    OneEvent(Ping(source));
    AppendFresh(seen, ev, s, ping, s);
    ConcatUrls(ev, ping);
  }

  /** What a turn marks, and what it writes when shown. */
  lemma TurnNew(scrape: Scrape, source: Text, seen: set<Text>, show: bool)
    ensures Turn(scrape, source, seen, show).1 == seen + ScrapedUrls([scrape])
    ensures show ==> DataUrls(Turn(scrape, source, seen, show).0) == CycleNewUrls([scrape], seen)
  {
    OneScrape(scrape, seen);
    var r := if scrape.Scraped? then ItemEvents(scrape.items, source, seen, show) else ([], seen);
    assert Turn(scrape, source, seen, show) == (r.0 + [Ping(source)], r.1);
    ConcatUrls(r.0, [Ping(source)]);
    OneEvent(Ping(source));
    if scrape.Scraped? {
      ItemEventsFresh(scrape.items, source, seen, show);
      if show {
        ItemEventsNew(scrape.items, source, seen);
      }
    }
  }

  /** Over a whole cycle: every written url is new and written once, the
      pings name the sources in order, one each, and nothing but pings is
      written when items are not shown; the cycle marks exactly the urls
      it scraped and, when shown, writes exactly the new ones, source by
      source in the items' order. */
  lemma CycleFresh(urls: seq<Text>, scrapes: seq<Scrape>, seen: set<Text>, show: bool)
    requires |scrapes| == |urls|
    ensures var (ev, s) := CycleEvents(urls, scrapes, seen, show);
      Fresh(seen, ev, s) && Pings(ev) == urls && (!show ==> DataUrls(ev) == [])
    ensures CycleEvents(urls, scrapes, seen, show).1 == seen + ScrapedUrls(scrapes)
    ensures show ==> DataUrls(CycleEvents(urls, scrapes, seen, show).0) == CycleNewUrls(scrapes, seen)
  {
    CycleWritesFresh(urls, scrapes, seen, show);
    CycleSeen(urls, scrapes, seen, show);
    if show {
      CycleNew(urls, scrapes, seen);
    }
  }

  /** The freshness and ping half of `CycleFresh`, by induction on the
      sources. */
  lemma {:induction false} CycleWritesFresh(urls: seq<Text>, scrapes: seq<Scrape>, seen: set<Text>, show: bool)
    requires |scrapes| == |urls|
    ensures var (ev, s) := CycleEvents(urls, scrapes, seen, show);
      Fresh(seen, ev, s) && Pings(ev) == urls && (!show ==> DataUrls(ev) == [])
    decreases |urls|
  {
    if |urls| > 0 {
      var n := |urls| - 1;
      CycleWritesFresh(urls[..n], scrapes[..n], seen, show);
      var (ev, s) := CycleEvents(urls[..n], scrapes[..n], seen, show);
      TurnFresh(scrapes[n], urls[n], s, show);
      var (ev2, s2) := Turn(scrapes[n], urls[n], s, show);
      AppendFresh(seen, ev, s, ev2, s2);
      ConcatUrls(ev, ev2);
      assert urls == urls[..n] + [urls[n]];
    }
  }

  /** What a cycle marks: what was seen and every url it scraped. */
  lemma {:induction false} CycleSeen(urls: seq<Text>, scrapes: seq<Scrape>, seen: set<Text>, show: bool)
    requires |scrapes| == |urls|
    ensures CycleEvents(urls, scrapes, seen, show).1 == seen + ScrapedUrls(scrapes)
    decreases |urls|
  {
    if |urls| > 0 {
      var n := |urls| - 1;
      CycleSeen(urls[..n], scrapes[..n], seen, show);
      var r := CycleEvents(urls[..n], scrapes[..n], seen, show);
      TurnNew(scrapes[n], urls[n], r.1, show);
      OneScrape(scrapes[n], r.1);
      assert CycleEvents(urls, scrapes, seen, show).1 == Turn(scrapes[n], urls[n], r.1, show).1;
    }
  }

  /** What a shown cycle writes: the new urls, source by source. */
  lemma {:induction false} CycleNew(urls: seq<Text>, scrapes: seq<Scrape>, seen: set<Text>)
    requires |scrapes| == |urls|
    ensures DataUrls(CycleEvents(urls, scrapes, seen, true).0) == CycleNewUrls(scrapes, seen)
    decreases |urls|
  {
    if |urls| > 0 {
      var n := |urls| - 1;
      CycleNew(urls[..n], scrapes[..n], seen);
      CycleSeen(urls[..n], scrapes[..n], seen, true);
      var r := CycleEvents(urls[..n], scrapes[..n], seen, true);
      TurnNew(scrapes[n], urls[n], r.1, true);
      OneScrape(scrapes[n], r.1);
      var r2 := Turn(scrapes[n], urls[n], r.1, true);
      assert CycleEvents(urls, scrapes, seen, true).0 == r.0 + r2.0;
      ConcatUrls(r.0, r2.0);
    }
  }

  /** The new urls and the scraped urls of a single scrape. */
  lemma OneScrape(scrape: Scrape, seen: set<Text>)
    ensures ScrapedUrls([scrape]) == if scrape.Scraped? then UrlSet(scrape.items) else {}
    ensures CycleNewUrls([scrape], seen) == if scrape.Scraped? then NewUrls(scrape.items, seen) else []
  {
    assert [scrape][..0] == [];
    assert ScrapedUrls([scrape][..0]) == {};
    assert CycleNewUrls([scrape][..0], seen) == [];
    assert seen + ScrapedUrls([scrape][..0]) == seen;
  }

  // ---------------------------------------------------------------------
  // A connection
  // ---------------------------------------------------------------------

  /** One open `/api/tgnews` connection. */
  class NewsStream {
    const urls: seq<Text>
    const includeHistory: bool
    var seen: set<Text>
    var initial: bool
    var events: seq<Event>

    /** No url is written twice on a connection, and every written url is
        marked seen. */
    predicate Valid()
      reads this
    {
      Distinct(DataUrls(events)) && forall u :: u in DataUrls(events) ==> u in seen
    }

    /** Whether this cycle writes items: always with history, otherwise
        from the second cycle on. */
    function Show(): bool
      reads this
    {
      includeHistory || !initial
    }

    /** Opening the connection: the sources, the history flag, nothing
        seen yet. */
    constructor(query: Text, history: Option<Text>, saved: seq<Text>)
      ensures Valid()
      ensures urls == Urls(query, saved) && includeHistory == IncludeHistory(history)
      ensures seen == {} && initial && events == []
    {
      urls := Urls(query, saved);
      includeHistory := IncludeHistory(history);
      seen := {};
      initial := true;
      events := [];
    }

    /** `sendItems()`, then `initial = false`: the first call is the one
        made on connecting, the later ones are the timer's. */
    method Cycle(scrapes: seq<Scrape>)
      requires Valid() && |scrapes| == |urls|
      modifies this
      ensures Valid()
      ensures events == old(events) + CycleEvents(urls, scrapes, old(seen), old(Show())).0
      ensures seen == CycleEvents(urls, scrapes, old(seen), old(Show())).1
      ensures !initial
    {
      var show := Show();
      ghost var start := events;
      ghost var seen0 := seen;
      var i := 0;
      while i < |urls|
        invariant 0 <= i <= |urls|
        invariant events == start + CycleEvents(urls[..i], scrapes[..i], seen0, show).0
        invariant seen == CycleEvents(urls[..i], scrapes[..i], seen0, show).1
      {
        assert urls[..i + 1][..i] == urls[..i] && scrapes[..i + 1][..i] == scrapes[..i];
        ghost var before := events;
        SourceTurn(scrapes[i], urls[i], show);
        assert events == start + (CycleEvents(urls[..i], scrapes[..i], seen0, show).0 + (events[|before|..]));
        i := i + 1;
      }
      assert urls[..|urls|] == urls && scrapes[..|scrapes|] == scrapes;
      CycleKeepsValid(start, seen0, urls, scrapes, show);
      initial := false;
    }

    /** One iteration of the loop over the sources; the ping is written
        in a `finally`, so also after a failed scrape. */
    method SourceTurn(scrape: Scrape, source: Text, show: bool)
      modifies this
      ensures events == old(events) + Turn(scrape, source, old(seen), show).0
      ensures seen == Turn(scrape, source, old(seen), show).1
      ensures initial == old(initial)
    {
      if scrape.Scraped? {
        SendSource(scrape.items, source, show);
      }
      events := events + [Ping(source)];
    }

    /** The loop over one source's items. */
    method SendSource(items: seq<Item>, source: Text, show: bool)
      modifies this
      ensures events == old(events) + ItemEvents(items, source, old(seen), show).0
      ensures seen == ItemEvents(items, source, old(seen), show).1
      ensures initial == old(initial)
    {
      ghost var start := events;
      ghost var seen0 := seen;
      var i := 0;
      while i < |items|
        invariant 0 <= i <= |items|
        invariant events == start + ItemEvents(items[..i], source, seen0, show).0
        invariant seen == ItemEvents(items[..i], source, seen0, show).1
        invariant initial == old(initial)
      {
        assert items[..i + 1][..i] == items[..i];
        var item := items[i];
        if item.url !in seen {
          seen := seen + {item.url};
          if show {
            events := events + [Data(item, source)];
          }
        }
        i := i + 1;
      }
      assert items[..|items|] == items;
    }
  }

  /** A cycle keeps a connection's written urls distinct and marked. */
  lemma CycleKeepsValid(start: seq<Event>, seen0: set<Text>, urls: seq<Text>, scrapes: seq<Scrape>, show: bool)
    requires |scrapes| == |urls|
    requires Distinct(DataUrls(start)) && forall u :: u in DataUrls(start) ==> u in seen0
    ensures var r := CycleEvents(urls, scrapes, seen0, show);
      Distinct(DataUrls(start + r.0)) && forall u :: u in DataUrls(start + r.0) ==> u in r.1
  {
    CycleFresh(urls, scrapes, seen0, show);
    var r := CycleEvents(urls, scrapes, seen0, show);
    AppendFresh({}, start, seen0, r.0, r.1);
    ConcatUrls(start, r.0);
  }
}
