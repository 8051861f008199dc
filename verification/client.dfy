/** The posting logic of an instance page (client/src/Instance.jsx): its
    list of Telegram sources, the guards that start scraping and posting,
    the single news stream it keeps open, and what it does with each item
    the stream delivers: it may score the item, may have it rewritten, and
    sends one post per selected channel.  The answers of the scoring and
    rewriting requests and the user's confirmation are passed in. */
module Client {
  import opened Strings
  import Score
  import Stream
  import Approval

  // ---------------------------------------------------------------------
  // The source list
  // ---------------------------------------------------------------------

  /** `addTgUrl`: a url not yet listed is appended. */
  function AddTgUrl(urls: seq<Text>, url: Text): (r: seq<Text>)
    ensures forall x :: x in r <==> x in urls || x == url
    ensures IsPrefixSeq(urls, r) && |r| <= |urls| + 1
    ensures url in urls ==> r == urls
  {
    if url in urls then urls else urls + [url]
  }

  /** `removeTgUrl`: every occurrence of the url is dropped. */
  function RemoveTgUrl(urls: seq<Text>, url: Text): (r: seq<Text>)
    ensures |r| <= |urls|
    decreases |urls|
  {
    if |urls| == 0 then []
    else (if urls[0] == url then [] else [urls[0]]) + RemoveTgUrl(urls[1..], url)
  }

  /** Adding keeps the list free of repeats, and adding again changes
      nothing. */
  lemma AddTgUrlSpec(urls: seq<Text>, url: Text)
    ensures Distinct(urls) ==> Distinct(AddTgUrl(urls, url))
    ensures AddTgUrl(AddTgUrl(urls, url), url) == AddTgUrl(urls, url)
  {
  }

  predicate IsPrefixSeq(a: seq<Text>, b: seq<Text>) {
    |a| <= |b| && b[..|a|] == a
  }

  /** Removing keeps every other url, in order, and leaves none of the
      removed one. */
  lemma {:induction false} RemoveTgUrlSpec(urls: seq<Text>, url: Text)
    ensures url !in RemoveTgUrl(urls, url)
    ensures forall x :: x in RemoveTgUrl(urls, url) <==> x in urls && x != url
    ensures url !in urls ==> RemoveTgUrl(urls, url) == urls
    ensures multiset(RemoveTgUrl(urls, url)) == multiset(urls)[url := 0]
    decreases |urls|
  {
    if |urls| > 0 {
      RemoveTgUrlSpec(urls[1..], url);
      assert urls == [urls[0]] + urls[1..];
      assert multiset(urls) == multiset([urls[0]]) + multiset(urls[1..]);
    }
  }

  /** Removing works piece by piece: the other urls keep their order. */
  lemma {:induction false} RemoveTgUrlAppend(a: seq<Text>, b: seq<Text>, url: Text)
    ensures RemoveTgUrl(a + b, url) == RemoveTgUrl(a, url) + RemoveTgUrl(b, url)
    decreases |a|
  {
    if |a| == 0 {
      assert a + b == b;
    } else {
      var head := if a[0] == url then [] else [a[0]];
      assert (a + b)[0] == a[0] && (a + b)[1..] == a[1..] + b;
      assert RemoveTgUrl(a + b, url) == head + RemoveTgUrl(a[1..] + b, url);
      RemoveTgUrlAppend(a[1..], b, url);
      assert RemoveTgUrl(a, url) == head + RemoveTgUrl(a[1..], url);
    }
  }

  /** Removing undoes adding. */
  lemma {:induction false} RemoveUndoesAdd(urls: seq<Text>, url: Text)
    requires url !in urls
    ensures RemoveTgUrl(AddTgUrl(urls, url), url) == urls
    decreases |urls|
  {
    if |urls| == 0 {
      assert RemoveTgUrl([url], url) == [] + RemoveTgUrl([], url);
    } else {
      RemoveUndoesAdd(urls[1..], url);
      assert (urls + [url])[1..] == urls[1..] + [url];
    }
  }

  // ---------------------------------------------------------------------
  // One item of the stream
  // ---------------------------------------------------------------------

  /** A value in a template literal: a missing one prints `undefined`. */
  function Show(t: Option<Text>): Text {
    if t.Some? then t.value else "undefined"
  }

  /** `a || b` on possibly missing texts. */
  function OrText(a: Option<Text>, b: Option<Text>): Option<Text> {
    if a.Some? && |a.value| > 0 then a else b
  }

  /** The text of a post made from an item: on the Telegram tab its text
      (or title) and its url, elsewhere its title in asterisks and its url. */
  function BaseText(tab: Text, item: Stream.Item): (r: Text)
    ensures tab == "tg" ==> IsSuffix("\n" + item.url, r) && IsPrefix(Show(OrText(item.text, item.title)), r)
    ensures tab != "tg" ==> IsPrefix("*" + Show(item.title) + "*\n", r) && IsSuffix(item.url, r)
    ensures tab == "tg" ==> |r| == |Show(OrText(item.text, item.title))| + 1 + |item.url|
    ensures tab != "tg" ==> |r| == |Show(item.title)| + 3 + |item.url|
  {
    if tab == "tg" then
      var head := Show(OrText(item.text, item.title));
      var r := head + "\n" + item.url;
      assert r[..|head|] == head && r[|r| - |"\n" + item.url|..] == "\n" + item.url;
      r
    else
      var head := "*" + Show(item.title) + "*\n";
      var r := head + item.url;
      assert r[..|head|] == head && r[|r| - |item.url|..] == item.url;
      r
  }

  /** The first media url ending in `.mp4` (case-sensitive), else the
      first media url, else none. */
  function PickMedia(media: seq<Text>): (m: Text)
    ensures (exists i :: 0 <= i < |media| && IsSuffix(".mp4", media[i])) ==>
      exists i :: 0 <= i < |media| && m == media[i] && IsSuffix(".mp4", m)
        && forall j :: 0 <= j < i ==> !IsSuffix(".mp4", media[j])
    ensures (forall i :: 0 <= i < |media| ==> !IsSuffix(".mp4", media[i])) ==>
      m == (if |media| > 0 then media[0] else "")
  {
    match FirstVideo(media)
    case Some(i) => media[i]
    case None => if |media| > 0 then media[0] else ""
  }

  function FirstVideo(media: seq<Text>): (r: Option<nat>)
    ensures r.Some? ==>
      r.value < |media| && IsSuffix(".mp4", media[r.value])
      && forall j :: 0 <= j < r.value ==> !IsSuffix(".mp4", media[j])
    ensures r.None? ==> forall j :: 0 <= j < |media| ==> !IsSuffix(".mp4", media[j])
    decreases |media|
  {
    if |media| == 0 then None
    else if IsSuffix(".mp4", media[0]) then Some(0)
    else match FirstVideo(media[1..])
      case None => None
      case Some(k) => Some(k + 1)
  }

  /** The client picks by exact suffix, the server by lower-cased suffix:
      an upper-case `.MP4` after a photo is not picked, although the
      server would send it as a video. */
  lemma UpperCaseVideoNotPicked()
    ensures PickMedia(["a.jpg", "b.MP4"]) == "a.jpg"
    ensures EndsWithIgnoreCase("b.MP4", ".mp4")
  {
    assert !IsSuffix(".mp4", "a.jpg") && !IsSuffix(".mp4", "b.MP4");
    assert Lower("b.MP4") == "b.mp4";
  }

  /** A request to `/api/post`; `text` and `id` may be missing. */
  datatype PostRequest = PostRequest(channel: Text, text: Option<Text>, media: Text, id: Option<Text>)

  /** `send(text)` as written: the same post, with the same id, to every
      channel. */
  function Send(channels: seq<Text>, text: Option<Text>, media: Text, postId: Text): (r: seq<PostRequest>)
    ensures |r| == |channels|
    ensures forall k :: 0 <= k < |r| ==> r[k] == PostRequest(channels[k], text, media, Some(postId))
  {
    seq(|channels|, k requires 0 <= k < |channels| => PostRequest(channels[k], text, media, Some(postId)))
  }

  /** The filter's `min_score` when it is a number, otherwise 7. */
  function Threshold(minScore: Option<Score.Ratio>): (t: Score.Ratio)
    requires minScore.Some? ==> Score.WellFormed(minScore.value)
    ensures Score.WellFormed(t)
    ensures minScore.None? ==> t == Score.Nat(7)
    ensures minScore.Some? ==> t == minScore.value
  {
    if minScore.Some? then minScore.value else Score.Nat(7)
  }

  /** `data.score > threshold`: a score equal to the threshold fails, and a
      reply without a score fails. */
  predicate Passes(score: Option<Score.Ratio>, threshold: Score.Ratio): (b: bool)
    ensures score.None? ==> !b
    ensures b ==> score.value != threshold
  {
    score.Some? && Score.Greater(score.value, threshold)
  }

  lemma PassesIsStrict(t: Score.Ratio)
    ensures !Passes(Some(t), t) && !Passes(None, t)
    ensures Score.WellFormed(t) ==> Passes(Some(Score.Ratio(t.num + 1, t.den)), t)
  {
  }

  /** What the page holds when an item arrives. */
  datatype Page = Page(
    tab: Text, channels: seq<Text>, filter: Text, minScore: Option<Score.Ratio>,
    author: Text, tgUrls: seq<Text>, posting: bool, connected: bool)

  predicate ValidPage(p: Page) {
    p.minScore.Some? ==> Score.WellFormed(p.minScore.value)
  }

  /** A filter or author is used unless it is unset or `none`. */
  predicate Chosen(id: Text) {
    |id| > 0 && id != "none"
  }

  /** The rewriting request's outcome. */
  datatype Rewrite = RewriteFailed | Rewritten(text: Option<Text>)

  /** What the page does with an item: the news list gains it in front;
      when posting, the text is scored if a filter is chosen, rewritten if
      an author is chosen and the score passed, and posted. */
  datatype Reaction = Reaction(news: seq<Stream.Item>, evaluate: Option<Text>, rewrite: Option<Text>, posts: seq<PostRequest>)

  function OnMessage(p: Page, news: seq<Stream.Item>, item: Stream.Item, postId: Text,
                     score: Option<Score.Ratio>, rewrite: Rewrite): (r: Reaction)
    requires ValidPage(p)
    ensures r.news == [item] + news
    ensures r.evaluate.Some? <==> p.posting && Chosen(p.filter)
    ensures r.evaluate.Some? ==> r.evaluate.value == BaseText(p.tab, item)
    ensures r.rewrite.Some? ==> p.posting && Chosen(p.author)
    ensures |r.posts| > 0 ==> p.posting && (Chosen(p.filter) ==> Passes(score, Threshold(p.minScore)))
  {
    var news' := [item] + news;
    if !p.posting then Reaction(news', None, None, [])
    else
      var base := BaseText(p.tab, item);
      var media := PickMedia(item.media);
      var evaluate := if Chosen(p.filter) then Some(base) else None;
      if Chosen(p.filter) && !Passes(score, Threshold(p.minScore)) then Reaction(news', evaluate, None, [])
      else if Chosen(p.author) then
        Reaction(news', evaluate, Some(base),
                 if rewrite.Rewritten? then SendPerChannel(p.channels, rewrite.text, media, postId) else [])
      else Reaction(news', evaluate, None, SendPerChannel(p.channels, Some(base), media, postId))
  }

  /** Posts go out only while posting, only for a passing score when a
      filter is chosen, one per channel under that channel's id with the
      picked media; with the item's own text when no author is chosen, and
      otherwise the item's text is sent for rewriting and the posts carry
      the rewritten text, or none go out when the rewrite fails. */
  lemma OnMessageSpec(p: Page, news: seq<Stream.Item>, item: Stream.Item, postId: Text,
                      score: Option<Score.Ratio>, rewrite: Rewrite)
    requires ValidPage(p)
    ensures var r := OnMessage(p, news, item, postId, score, rewrite);
      (|r.posts| == 0 || |r.posts| == |p.channels|)
      && (forall k :: 0 <= k < |r.posts| ==>
            r.posts[k].channel == p.channels[k] && r.posts[k].id == Some(postId + "-" + p.channels[k])
            && r.posts[k].media == PickMedia(item.media))
      && (p.posting && !Chosen(p.author) && (!Chosen(p.filter) || Passes(score, Threshold(p.minScore))) ==>
            r.posts == SendPerChannel(p.channels, Some(BaseText(p.tab, item)), PickMedia(item.media), postId))
      && (p.posting && Chosen(p.author) && (!Chosen(p.filter) || Passes(score, Threshold(p.minScore))) ==>
            r.rewrite == Some(BaseText(p.tab, item))
            && r.posts == if rewrite.Rewritten? then SendPerChannel(p.channels, rewrite.text, PickMedia(item.media), postId) else [])
      && (p.posting && Chosen(p.filter) && !Passes(score, Threshold(p.minScore)) ==> r.rewrite.None? && r.posts == [])
  {
  }

  // ---------------------------------------------------------------------
  // Starting
  // ---------------------------------------------------------------------

  /** The query of `/api/tgnews`: the sources joined with commas, and
      history on. */
  datatype StreamQuery = StreamQuery(urls: Text, history: Text)

  /** `tgUrls.join(',')`, which is empty for an empty list. */
  function JoinUrls(urls: seq<Text>): (r: Text)
    ensures |urls| == 0 ==> r == ""
    ensures |urls| >= 1 && (forall i :: 0 <= i < |urls| ==> ',' !in urls[i]) ==> Split(r, ",") == urls
  {
    JoinedUrlsSplit(urls);
    if |urls| == 0 then "" else Join(urls, ",")
  }

  lemma JoinedUrlsSplit(urls: seq<Text>)
    ensures |urls| >= 1 && (forall i :: 0 <= i < |urls| ==> ',' !in urls[i]) ==> Split(Join(urls, ","), ",") == urls
  {
    if |urls| >= 1 && forall i :: 0 <= i < |urls| ==> ',' !in urls[i] {
      Stream.SplitJoinedSources(urls);
    }
  }

  /** `connect`: a stream is opened only when none is open. */
  function Connect(p: Page, q: StreamQuery): (r: (Page, Option<StreamQuery>))
    ensures r.0.connected && r.0.(connected := p.connected) == p
    ensures r.1.Some? <==> !p.connected
    ensures r.1.Some? ==> r.1.value == q
  {
    if p.connected then (p, None) else (p.(connected := true), Some(q))
  }

  /** A second connect opens nothing. */
  lemma ConnectOnce(p: Page, q: StreamQuery, q2: StreamQuery)
    ensures Connect(Connect(p, q).0, q2).1 == None
    ensures Connect(p, q).0.connected
  {
  }

  /** Channels, a filter and an author are all chosen. */
  predicate Ready(p: Page) {
    |p.channels| > 0 && p.filter != "none" && p.author != "none"
  }

  const NotReady: Text := "Please select at least one channel, a filter and an author before starting."

  /** The outcome of a start button: an alert (or nothing, when the user
      declined), or the new page, the posts sent and the stream connection. */
  datatype Start = Refused(alert: Option<Text>) | Started(page: Page, posts: seq<PostRequest>, connection: Option<StreamQuery>)

  /** `startScraping`. */
  function StartScraping(p: Page): (s: Start)
    ensures s.Refused? ==> s.alert == Some(NotReady)
    ensures s.Started? ==>
      !s.page.posting && s.page.connected && s.posts == []
      && s.page.(posting := p.posting, connected := p.connected) == p
      && (s.connection.Some? <==> !p.connected)
      && (s.connection.Some? ==> s.connection.value == StreamQuery(JoinUrls(p.tgUrls), "true"))
  {
    if !Ready(p) then Refused(Some(NotReady))
    else
      var (p', connection) := Connect(p.(posting := false), StreamQuery(JoinUrls(p.tgUrls), "true"));
      Started(p', [], connection)
  }

  /** `startPosting`; `confirmed` is the user's answer to the dialog. */
  function StartPosting(p: Page, confirmed: bool): (s: Start)
    ensures s.Started? ==>
      s.page.posting && s.page.connected && |s.posts| == |p.channels|
      && (forall k :: 0 <= k < |s.posts| ==> s.posts[k] == PostRequest(p.channels[k], Some("Posting started"), "", None))
      && (s.connection.Some? <==> !p.connected)
      && (s.connection.Some? ==> s.connection.value == StreamQuery(JoinUrls(p.tgUrls), "true"))
  {
    if p.posting then Refused(Some("Posting is already started"))
    else if p.tab == "tg" && !Ready(p) then Refused(Some(NotReady))
    else if !confirmed then Refused(None)
    else
      var posts := seq(|p.channels|, k requires 0 <= k < |p.channels| =>
                       PostRequest(p.channels[k], Some("Posting started"), "", None));
      var (p', connection) := Connect(p.(posting := true), StreamQuery(JoinUrls(p.tgUrls), "true"));
      Started(p', posts, connection)
  }

  /** Scraping starts exactly when the page is ready. */
  lemma StartScrapingSpec(p: Page)
    ensures StartScraping(p).Started? <==> Ready(p)
  {
  }

  /** Posting starts only when not already posting and confirmed; the
      readiness guard applies on the Telegram tab only, so elsewhere it
      starts even without channels. */
  lemma StartPostingSpec(p: Page, confirmed: bool)
    ensures StartPosting(p, confirmed).Started? <==> !p.posting && confirmed && (p.tab == "tg" ==> Ready(p))
  {
  }

  /** In `startPosting`'s own text, off the Telegram tab posting starts
      even with no channel.  The page renders the controls that call
      `startPosting` on the Telegram tab only (client/src/Instance.jsx:326-337),
      so it never takes this path itself. */
  lemma StartPostingOffTgUnguarded(p: Page)
    requires !p.posting && p.tab != "tg" && |p.channels| == 0
    ensures StartPosting(p, true).Started? && StartPosting(p, true).posts == []
  {
  }

  /** The sources the page asks for are the sources the stream scrapes,
      when it has some and none holds a comma or is empty; with none, the
      stream falls back to the user's saved sources. */
  lemma StreamGetsSources(urls: seq<Text>, saved: seq<Text>)
    requires forall i :: 0 <= i < |urls| ==> |urls[i]| > 0 && ',' !in urls[i]
    ensures Stream.Urls(JoinUrls(urls), saved) == if |urls| == 0 then saved else urls
  {
    if |urls| > 0 {
      Stream.JoinedSourcesNonEmpty(urls);
      Stream.SplitJoinedSources(urls);
    }
  }

  // ---------------------------------------------------------------------
  // Several channels, one id
  // ---------------------------------------------------------------------

  /** The posts awaiting approval after the server has queued each
      request in turn (each one sets its id). */
  function Queue(awaiting: map<Text, Approval.Post>, posts: seq<Approval.Post>): map<Text, Approval.Post>
    decreases |posts|
  {
    if |posts| == 0 then awaiting else Queue(awaiting[posts[0].id := posts[0]], posts[1..])
  }

  /** The server's post for a request. */
  function Received(r: PostRequest, instanceId: Text, login: Text): Approval.Post {
    Approval.Post(if r.id.Some? then r.id.value else "", r.channel, r.text, r.media, instanceId, login)
  }

  function ReceivedAll(rs: seq<PostRequest>, instanceId: Text, login: Text): (ps: seq<Approval.Post>)
    ensures |ps| == |rs|
    ensures forall k :: 0 <= k < |rs| ==> ps[k] == Received(rs[k], instanceId, login)
  {
    seq(|rs|, k requires 0 <= k < |rs| => Received(rs[k], instanceId, login))
  }

  /** Posts that share an id leave only the last one waiting. */
  lemma {:induction false} QueueSameId(awaiting: map<Text, Approval.Post>, posts: seq<Approval.Post>, id: Text)
    requires |posts| > 0 && forall k :: 0 <= k < |posts| ==> posts[k].id == id
    ensures Queue(awaiting, posts) == awaiting[id := posts[|posts| - 1]]
    decreases |posts|
  {
    if |posts| > 1 {
      QueueSameId(awaiting[id := posts[0]], posts[1..], id);
      assert awaiting[id := posts[0]][id := posts[|posts| - 1]] == awaiting[id := posts[|posts| - 1]];
    }
  }

  /** As written, an item posted while two channels are selected leaves
      only the second channel's post waiting: both prompts carry the same
      id, and the first channel's post is gone. */
  lemma TwoChannelsOnePost(text: Text, postId: Text)
    ensures var posts := ReceivedAll(Send(["@a", "@b"], Some(text), "", postId), "i", "u");
      var q := Queue(map[], posts);
      q.Keys == {postId} && q[postId].channel == "@b"
  {
    var posts := ReceivedAll(Send(["@a", "@b"], Some(text), "", postId), "i", "u");
    QueueSameId(map[], posts, postId);
  }

  /** The intended requests: each channel's post under its own id. */
  function SendPerChannel(channels: seq<Text>, text: Option<Text>, media: Text, postId: Text): (r: seq<PostRequest>)
    ensures |r| == |channels|
    ensures forall k :: 0 <= k < |r| ==> r[k] == PostRequest(channels[k], text, media, Some(postId + "-" + channels[k]))
  {
    seq(|channels|, k requires 0 <= k < |channels| => PostRequest(channels[k], text, media, Some(postId + "-" + channels[k])))
  }

  /** Posts with distinct ids all stay waiting, each under its own id. */
  lemma {:induction false} QueueDistinctIds(awaiting: map<Text, Approval.Post>, posts: seq<Approval.Post>)
    requires forall i, j :: 0 <= i < j < |posts| ==> posts[i].id != posts[j].id
    ensures forall k :: 0 <= k < |posts| ==> posts[k].id in Queue(awaiting, posts) && Queue(awaiting, posts)[posts[k].id] == posts[k]
    decreases |posts|
  {
    if |posts| > 0 {
      var rest := posts[1..];
      QueueDistinctIds(awaiting[posts[0].id := posts[0]], rest);
      QueueKeeps(awaiting[posts[0].id := posts[0]], rest, posts[0].id);
      forall k | 1 <= k < |posts| ensures posts[k] == rest[k - 1] {
      }
    }
  }

  /** An id no later post uses keeps its entry. */
  lemma {:induction false} QueueKeeps(awaiting: map<Text, Approval.Post>, posts: seq<Approval.Post>, id: Text)
    requires id in awaiting && forall k :: 0 <= k < |posts| ==> posts[k].id != id
    ensures id in Queue(awaiting, posts) && Queue(awaiting, posts)[id] == awaiting[id]
    decreases |posts|
  {
    if |posts| > 0 {
      QueueKeeps(awaiting[posts[0].id := posts[0]], posts[1..], id);
    }
  }

  /** With an id per channel, every selected channel's post waits for
      approval. */
  lemma EveryChannelWaits(channels: seq<Text>, text: Option<Text>, media: Text, postId: Text, instanceId: Text, login: Text)
    requires Distinct(channels)
    ensures var posts := ReceivedAll(SendPerChannel(channels, text, media, postId), instanceId, login);
      var q := Queue(map[], posts);
      forall k :: 0 <= k < |channels| ==>
        postId + "-" + channels[k] in q && q[postId + "-" + channels[k]].channel == channels[k]
  {
    var posts := ReceivedAll(SendPerChannel(channels, text, media, postId), instanceId, login);
    forall i, j | 0 <= i < j < |posts| ensures posts[i].id != posts[j].id {
      var a, b := postId + "-" + channels[i], postId + "-" + channels[j];
      assert channels[i] != channels[j];
      assert a[|postId| + 1..] == channels[i] && b[|postId| + 1..] == channels[j];
    }
    QueueDistinctIds(map[], posts);
  }
}
