/** The approval pipeline of the server (server/index.js): the posts
    awaiting approval, the approvers who opted in through the bot, the
    approver lists derived from the instances, and the handlers that create,
    approve, cancel and re-illustrate posts over HTTP or through the bot's
    callback buttons.  Each handler runs to completion before the next, the
    bot calls it would make are appended to `outbox`, and what the outside
    world answers (whether a send succeeded, what the image API returned) is
    passed in. */
module Approval {
  import opened Strings
  import Emoji
  import Bot
  import ImageParams
  import Score

  // ---------------------------------------------------------------------
  // Data
  // ---------------------------------------------------------------------

  /** An instance: its id, its approver list when it has one (an array in
      the source; absent otherwise) and its image settings. */
  datatype Instance = Instance(id: Text, approvers: Option<seq<Text>>, image: ImageParams.ImageSettings)

  /** A user's store: instances, scraped sources, filter ids, emoji map (in
      `Object.entries` order) and the derived approver list. */
  datatype Store = Store(
    instances: seq<Instance>, tgSources: seq<Text>, filters: seq<Text>,
    emojis: Emoji.Entries, approvers: seq<Text>)

  const EmptyStore := Store([], [], [], [], [])

  /** A post awaiting approval.  `text` is absent when the request had
      none; an empty `media` is no media. */
  datatype Post = Post(id: Text, channel: Text, text: Option<Text>, media: Text, instanceId: Text, login: Text)

  /** The HTTP outcome of a handler. */
  datatype Status = Ok | Queued(id: Text) | BadRequest(error: Text) | NotFound | ServerError | Unhandled

  /** The answer of `POST /api/post` after publishing directly, as
      written: on failure the handler's `catch` names `instanceId`, which
      was declared inside the `try` block, so the handler itself throws;
      the framework's default handler then answers in place of the JSON
      error, and nothing is logged. */
  function DirectReplyAsWritten(published: bool): (s: Status)
    ensures s == Ok || s == Unhandled
    ensures s == Ok <==> published
  {
    if published then Ok else Unhandled
  }

  /** The intended answer: success, or a server error. */
  function DirectReply(published: bool): (s: Status)
    ensures s == Ok || s == ServerError
    ensures s == Ok <==> published
  {
    if published then Ok else ServerError
  }

  /** `text || ''`. */
  function OrEmpty(t: Option<Text>): Text {
    if t.Some? then t.value else ""
  }

  // ---------------------------------------------------------------------
  // Approver lists
  // ---------------------------------------------------------------------

  /** An instance's approvers, lower-cased; none when it has no list. */
  function Names(inst: Instance): (r: seq<Text>)
    ensures inst.approvers.None? ==> r == []
    ensures inst.approvers.Some? ==>
      |r| == |inst.approvers.value| && forall i :: 0 <= i < |r| ==> r[i] == Lower(inst.approvers.value[i])
  {
    if inst.approvers.None? then []
    else seq(|inst.approvers.value|, i requires 0 <= i < |inst.approvers.value| => Lower(inst.approvers.value[i]))
  }

  /** Every instance's approvers, lower-cased, in order. */
  function InstanceNames(instances: seq<Instance>): seq<Text>
    decreases |instances|
  {
    if |instances| == 0 then []
    else InstanceNames(instances[..|instances| - 1]) + Names(instances[|instances| - 1])
  }

  /** `set.add(x)` on a set kept in insertion order. */
  function Add(acc: seq<Text>, x: Text): seq<Text> {
    if x in acc then acc else acc + [x]
  }

  /** Adding the elements of `s` one by one. */
  function AddAll(acc: seq<Text>, s: seq<Text>): seq<Text>
    decreases |s|
  {
    if |s| == 0 then acc else Add(AddAll(acc, s[..|s| - 1]), s[|s| - 1])
  }

  /** The approver list `computeApprovers` stores: each lower-cased name of
      every instance's list, once, in the order first met. */
  function StoreApprovers(instances: seq<Instance>): (r: seq<Text>)
    ensures Distinct(r)
    ensures forall x :: x in r <==> x in InstanceNames(instances)
  {
    AddAllSpec([], InstanceNames(instances));
    AddAll([], InstanceNames(instances))
  }

  /** The store with its `k`-th instance given the approver list `list`
      and its approver list rebuilt; its other instances and other fields
      are kept. */
  function WithApprovers(store: Store, k: nat, list: seq<Text>): (r: Store)
    requires k < |store.instances|
    ensures |r.instances| == |store.instances| && r.instances[k].approvers == Some(list)
    ensures r.instances[k].(approvers := store.instances[k].approvers) == store.instances[k]
    ensures forall j :: 0 <= j < |store.instances| && j != k ==> r.instances[j] == store.instances[j]
    ensures r.(instances := store.instances, approvers := store.approvers) == store
    ensures r.approvers == StoreApprovers(r.instances)
  {
    var instances := store.instances[k := store.instances[k].(approvers := Some(list))];
    store.(instances := instances, approvers := StoreApprovers(instances))
  }

  /** `AddAll` keeps what it had, adds exactly the new elements, and adds
      no duplicate. */
  lemma {:induction false} AddAllSpec(acc: seq<Text>, s: seq<Text>)
    requires Distinct(acc)
    ensures Distinct(AddAll(acc, s))
    ensures forall x :: x in AddAll(acc, s) <==> x in acc || x in s
    decreases |s|
  {
    if |s| > 0 {
      var init := s[..|s| - 1];
      AddAllSpec(acc, init);
      assert s == init + [s[|s| - 1]];
      forall x ensures x in s <==> x in init || x == s[|s| - 1] {
      }
    }
  }

  /** The store's list holds each lower-cased approver of its instances,
      exactly once. */
  /** A name on any instance's list is, lower-cased, on the store's list. */
  lemma {:induction false} InstanceApproverListed(instances: seq<Instance>, k: nat, u: Text)
    requires k < |instances| && instances[k].approvers.Some? && u in instances[k].approvers.value
    ensures Lower(u) in StoreApprovers(instances)
    decreases |instances|
  {
    NamesIn(instances, k, u);
  }

  lemma {:induction false} NamesIn(instances: seq<Instance>, k: nat, u: Text)
    requires k < |instances| && instances[k].approvers.Some? && u in instances[k].approvers.value
    ensures Lower(u) in InstanceNames(instances)
    decreases |instances|
  {
    var last := |instances| - 1;
    if k == last {
      var i :| 0 <= i < |instances[k].approvers.value| && instances[k].approvers.value[i] == u;
      assert Names(instances[k])[i] == Lower(u);
    } else {
      NamesIn(instances[..last], k, u);
    }
  }

  /** The loops of `computeApprovers` over the instances and their
      approvers, adding each lower-cased name to an insertion-ordered set. */
  method CollectApprovers(instances: seq<Instance>) returns (names: seq<Text>)
    ensures names == StoreApprovers(instances)
  {
    names := [];
    var i := 0;
    while i < |instances|
      invariant 0 <= i <= |instances|
      invariant names == AddAll([], InstanceNames(instances[..i]))
    {
      names := AddInstance(names, InstanceNames(instances[..i]), instances[i]);
      assert instances[..i + 1][..i] == instances[..i];
      i := i + 1;
    }
    assert instances[..|instances|] == instances;
  }

  /** The inner loop: one instance's approvers added. */
  method AddInstance(names: seq<Text>, ghost prefix: seq<Text>, inst: Instance) returns (r: seq<Text>)
    requires names == AddAll([], prefix)
    ensures r == AddAll([], prefix + Names(inst))
  {
    r := names;
    if inst.approvers.None? {
      assert prefix + Names(inst) == prefix;
      return;
    }
    var list := inst.approvers.value;
    var j := 0;
    assert prefix + Names(inst)[..0] == prefix;
    while j < |list|
      invariant 0 <= j <= |list|
      invariant r == AddAll([], prefix + Names(inst)[..j])
    {
      assert prefix + Names(inst)[..j + 1] == (prefix + Names(inst)[..j]) + [Lower(list[j])];
      r := Add(r, Lower(list[j]));
      j := j + 1;
    }
    assert Names(inst)[..|list|] == Names(inst);
  }

  /** The union of every store's approver list: the `allApprovers` set. */
  function AllApprovers(stores: map<Text, Store>): set<Text> {
    set l, a | l in stores && a in stores[l].approvers :: a
  }

  function ApproversOf(stores: map<Text, Store>, logins: set<Text>): set<Text> {
    set l, a | l in logins && l in stores && a in stores[l].approvers :: a
  }

  /** The names an instance's posts are offered to: its own list when it
      has one, even an empty one, otherwise every approver. */
  function EligibleNames(store: Store, all: set<Text>, instanceId: Text): (r: set<Text>)
    ensures FindInstance(store.instances, instanceId).None? ==> r == all
    ensures forall u :: u in r ==>
      u in all || exists k :: 0 <= k < |store.instances| && store.instances[k].id == instanceId
                                && store.instances[k].approvers.Some? && u in store.instances[k].approvers.value
    ensures FindInstance(store.instances, instanceId).Some?
            && store.instances[FindInstance(store.instances, instanceId).value].approvers.Some? ==>
              forall u :: u in r <==> u in store.instances[FindInstance(store.instances, instanceId).value].approvers.value
    ensures FindInstance(store.instances, instanceId).Some? ==>
              store.instances[FindInstance(store.instances, instanceId).value].approvers.None? ==> r == all
  {
    match FindInstance(store.instances, instanceId)
    case Some(k) =>
      if store.instances[k].approvers.Some? then set u | u in store.instances[k].approvers.value else all
    case None => all
  }

  /** `instances.find(i => i.id === id)`: the index of the first match. */
  function FindInstance(instances: seq<Instance>, id: Text): (r: Option<nat>)
    ensures r.Some? ==>
      r.value < |instances| && instances[r.value].id == id && forall k :: 0 <= k < r.value ==> instances[k].id != id
    ensures r.None? ==> forall k :: 0 <= k < |instances| ==> instances[k].id != id
    decreases |instances|
  {
    if |instances| == 0 then None
    else if instances[0].id == id then Some(0)
    else match FindInstance(instances[1..], id)
      case None => None
      case Some(k) => Some(k + 1)
  }

  // ---------------------------------------------------------------------
  // Active approvers and targets
  // ---------------------------------------------------------------------

  /** The ids of an ordered map's entries are distinct. */
  predicate KeysDistinct(active: seq<(Text, Text)>) {
    forall i, j :: 0 <= i < j < |active| ==> active[i].0 != active[j].0
  }

  function KeyIndex(active: seq<(Text, Text)>, id: Text): (r: Option<nat>)
    ensures r.Some? ==> r.value < |active| && active[r.value].0 == id
    ensures r.None? ==> forall k :: 0 <= k < |active| ==> active[k].0 != id
    decreases |active|
  {
    if |active| == 0 then None
    else if active[0].0 == id then Some(0)
    else match KeyIndex(active[1..], id)
      case None => None
      case Some(k) => Some(k + 1)
  }

  /** `map.set(id, name)` on a `Map`: an existing entry keeps its place. */
  function SetEntry(active: seq<(Text, Text)>, id: Text, name: Text): (r: seq<(Text, Text)>)
    ensures (id, name) in r
    ensures |r| == |active| + (if KeyIndex(active, id).Some? then 0 else 1)
  {
    match KeyIndex(active, id)
    case Some(k) => assert active[k := (id, name)][k] == (id, name); active[k := (id, name)]
    case None => active + [(id, name)]
  }

  /** Setting an entry keeps the ids distinct, stores the name under the
      id, and leaves every other entry where it was. */
  lemma SetEntrySpec(active: seq<(Text, Text)>, id: Text, name: Text)
    requires KeysDistinct(active)
    ensures var r := SetEntry(active, id, name);
      KeysDistinct(r) && (id, name) in r
      && (forall k :: 0 <= k < |active| && active[k].0 != id ==> r[k] == active[k])
      && |r| == |active| + (if KeyIndex(active, id).Some? then 0 else 1)
  {
    var r := SetEntry(active, id, name);
    if KeyIndex(active, id).None? {
      assert r[|active|] == (id, name);
    } else {
      assert r[KeyIndex(active, id).value] == (id, name);
    }
  }

  /** The active approvers whose name is eligible, in the map's order. */
  function Targets(active: seq<(Text, Text)>, names: set<Text>): (t: seq<Text>)
    ensures |t| <= |active|
    decreases |active|
  {
    if |active| == 0 then []
    else (if active[0].1 in names then [active[0].0] else []) + Targets(active[1..], names)
  }

  /** An id is a target exactly when one of its entries has an eligible
      name. */
  lemma {:induction false} TargetsSpec(active: seq<(Text, Text)>, names: set<Text>, uid: Text)
    ensures uid in Targets(active, names) <==> exists k :: 0 <= k < |active| && active[k].0 == uid && active[k].1 in names
    decreases |active|
  {
    if |active| > 0 {
      TargetsSpec(active[1..], names, uid);
      if uid in Targets(active[1..], names) {
        var k :| 0 <= k < |active[1..]| && active[1..][k].0 == uid && active[1..][k].1 in names;
        assert active[k + 1] == active[1..][k];
      }
      if exists k :: 0 <= k < |active| && active[k].0 == uid && active[k].1 in names {
        var k :| 0 <= k < |active| && active[k].0 == uid && active[k].1 in names;
        if k > 0 {
          assert active[1..][k - 1] == active[k];
        }
      }
    }
  }

  /** Each active approver is a target at most once. */
  lemma {:induction false} TargetsDistinct(active: seq<(Text, Text)>, names: set<Text>)
    requires KeysDistinct(active)
    ensures Distinct(Targets(active, names))
    decreases |active|
  {
    if |active| > 0 {
      TargetsDistinct(active[1..], names);
      if active[0].1 in names {
        forall k | 0 <= k < |Targets(active[1..], names)| ensures Targets(active[1..], names)[k] != active[0].0 {
          var t := Targets(active[1..], names)[k];
          TargetsSpec(active[1..], names, t);
          var j :| 0 <= j < |active[1..]| && active[1..][j].0 == t && active[1..][j].1 in names;
          assert active[j + 1].0 == t;
        }
      }
    }
  }

  /** An instance whose approver list is empty offers its posts to no
      one, however many approvers are active. */
  lemma {:induction false} EmptyListNoTargets(active: seq<(Text, Text)>)
    ensures Targets(active, {}) == []
    decreases |active|
  {
    if |active| > 0 {
      EmptyListNoTargets(active[1..]);
    }
  }

  lemma EmptyInstanceListNoTargets(active: seq<(Text, Text)>, store: Store, all: set<Text>, instanceId: Text)
    requires FindInstance(store.instances, instanceId).Some?
    requires store.instances[FindInstance(store.instances, instanceId).value].approvers == Some([])
    ensures Targets(active, EligibleNames(store, all, instanceId)) == []
  {
    assert EligibleNames(store, all, instanceId) == {};
    EmptyListNoTargets(active);
  }

  // ---------------------------------------------------------------------
  // Messages
  // ---------------------------------------------------------------------

  /** The text an approver sees: the post's text with custom emoji, and the
      emoji that were replaced, if any. */
  function Decorate(text: Option<Text>, emojis: Emoji.Entries): (r: Text)
    ensures IsPrefix(Emoji.Substitute(OrEmpty(text), emojis), r)
    ensures |Emoji.SubstituteWithInfo(OrEmpty(text), emojis).1| == 0 ==> r == Emoji.Substitute(OrEmpty(text), emojis)
    ensures var replaced := Emoji.SubstituteWithInfo(OrEmpty(text), emojis).1;
      |replaced| > 0 ==> r == Emoji.Substitute(OrEmpty(text), emojis) + "\nReplaced: " + Join(replaced, ", ")
  {
    Emoji.WithInfoSameText(OrEmpty(text), emojis);
    var (t, replaced) := Emoji.SubstituteWithInfo(OrEmpty(text), emojis);
    t + (if |replaced| > 0 then "\nReplaced: " + Join(replaced, ", ") else "")
  }

  function PromptFor(post: Post, emojis: Emoji.Entries): Bot.Prompt {
    Bot.Prompt(post.id, post.channel, Decorate(post.text, emojis), post.media)
  }

  /** One approval request per target, in order. */
  function Requests(targets: seq<Text>, p: Bot.Prompt): (r: seq<Bot.Outbound>)
    ensures |r| == |targets|
    ensures forall i :: 0 <= i < |targets| ==> r[i] == Bot.ApprovalRequest(targets[i], p)
  {
    seq(|targets|, i requires 0 <= i < |targets| => Bot.ApprovalRequest(targets[i], p))
  }

  /** The requests for one more target extend those before it. */
  lemma RequestsStep(targets: seq<Text>, i: nat, p: Bot.Prompt)
    requires i < |targets|
    ensures Requests(targets[..i + 1], p) == Requests(targets[..i], p) + [Bot.ApprovalRequest(targets[i], p)]
  {
    assert targets[..i + 1][i] == targets[i];
  }

  /** `postToChannel(post)`: nothing when the post has no media and its
      emoji-processed text is blank; otherwise the video, photo or message
      for the channel. */
  function PostToChannel(post: Post, emojis: Emoji.Entries): (r: Option<Bot.Outbound>)
    ensures r.None? <==> |post.media| == 0 && Trim(Emoji.Substitute(OrEmpty(post.text), emojis)) == []
    ensures r.Some? ==> r.value == Bot.Deliver(post.channel, post.media, Emoji.Substitute(OrEmpty(post.text), emojis), [])
  {
    var processed := Emoji.Substitute(OrEmpty(post.text), emojis);
    if |post.media| == 0 && (|processed| == 0 || Trim(processed) == []) then None
    else Some(Bot.Deliver(post.channel, post.media, processed, []))
  }

  /** The channel gets a video exactly for `.mp4` media (in any case), a
      photo for other media, a message without media. */
  lemma PublishKind(post: Post, emojis: Emoji.Entries)
    requires PostToChannel(post, emojis).Some?
    ensures var o := PostToChannel(post, emojis).value;
      o.chat == post.channel && o.keyboard == []
      && (o.SendVideo? <==> |post.media| > 0 && EndsWithIgnoreCase(post.media, ".mp4"))
      && (o.SendPhoto? <==> |post.media| > 0 && !EndsWithIgnoreCase(post.media, ".mp4"))
      && (o.SendMessage? <==> |post.media| == 0)
  {
  }

  /** A post of blank text and no media that no active approver may
      approve is refused by `postToChannel`; as written the handler then
      throws instead of answering with its JSON server error. */
  lemma BlankDirectPostUnanswered()
    ensures var post := Post("1", "@news", Some(" "), "", "main", "admin");
      PostToChannel(post, []).None?
      && DirectReplyAsWritten(PostToChannel(post, []).Some?) == Unhandled
      && DirectReply(PostToChannel(post, []).Some?) == ServerError
  {
    var post := Post("1", "@news", Some(" "), "", "main", "admin");
    assert Emoji.Substitute(OrEmpty(post.text), []) == " ";
    TrimEmptyIffBlank(" ");
  }

  // ---------------------------------------------------------------------
  // Callback data
  // ---------------------------------------------------------------------

  predicate IsActionChar(c: char) {
    'a' <= c <= 'z' || c == '_'
  }

  /** `/^([a-z_]+):(.+)$/.exec(data)`: the action before the first colon,
      which must be a non-empty run of `[a-z_]`, and the non-empty rest,
      which `.` reads only when it holds no line terminator. */
  function ParseCallback(data: Text): (r: Option<(Text, Text)>)
    ensures r.Some? ==> IsAction(r.value.0) && |r.value.1| > 0 && !HasLineTerminator(r.value.1)
  {
    var k := IndexOf(data, ':');
    if k <= 0 then None
    else if exists i :: 0 <= i < k && !IsActionChar(data[i]) then None
    else if k + 1 == |data| || HasLineTerminator(data[k + 1..]) then None
    else Some((data[..k], data[k + 1..]))
  }

  predicate IsAction(a: Text) {
    |a| > 0 && forall i :: 0 <= i < |a| ==> IsActionChar(a[i])
  }

  /** Every button's data parses back into its action and post id, for
      any non-empty id without a line terminator. */
  lemma CallbackRoundTrip(action: Text, id: Text)
    requires IsAction(action) && |id| > 0 && !HasLineTerminator(id)
    ensures ParseCallback(Bot.CallbackData(action, id)) == Some((action, id))
  {
    var d := Bot.CallbackData(action, id);
    var k := |action|;
    assert d[k] == ':';
    forall i | 0 <= i < k ensures d[i] != ':' && IsActionChar(d[i]) {
      assert d[i] == action[i];
    }
    assert IndexOf(d, ':') == k;
    assert d[..k] == action && d[k + 1..] == id;
  }

  /** The three buttons of an approval prompt parse back. */
  lemma KeyboardRoundTrip(id: Text)
    requires |id| > 0 && !HasLineTerminator(id)
    ensures forall b :: b in Bot.ApprovalKeyboard(id) ==> ParseCallback(b.data).Some? && ParseCallback(b.data).value.1 == id
  {
    assert IsAction(Bot.Approve) && IsAction(Bot.ApproveImage) && IsAction(Bot.Cancel);
    CallbackRoundTrip(Bot.Approve, id);
    CallbackRoundTrip(Bot.ApproveImage, id);
    CallbackRoundTrip(Bot.Cancel, id);
  }

  /** Whatever parses is exactly the data of a button: the action, a colon
      and the id. */
  lemma ParseCallbackSound(data: Text)
    requires ParseCallback(data).Some?
    ensures var (a, id) := ParseCallback(data).value;
      data == Bot.CallbackData(a, id)
  {
    var k := IndexOf(data, ':');
    assert data == data[..k] + ":" + data[k + 1..];
  }

  /** An id with a line break cannot be acted on through the buttons. */
  lemma LineBreakIdNotParsed(action: Text, id: Text)
    requires IsAction(action) && HasLineTerminator(id)
    ensures ParseCallback(Bot.CallbackData(action, id)).None?
  {
    var d := Bot.CallbackData(action, id);
    var k := |action|;
    assert d[k] == ':';
    forall i | 0 <= i < k ensures d[i] != ':' {
      assert d[i] == action[i];
    }
    assert IndexOf(d, ':') == k;
    assert d[k + 1..] == id;
  }

  // ---------------------------------------------------------------------
  // The server
  // ---------------------------------------------------------------------

  /** A callback query: its id, its data, the message it came from (chat
      and message id) and the user who pressed the button. */
  datatype Query = Query(id: Text, data: Text, message: Option<(Text, Text)>, from: Text)

  /** What the image API did: failed, or returned (maybe) a first image. */
  datatype Generation = GenerationFailed | Generated(first: Option<ImageParams.ImageData>)

  /** The body of `/api/awaiting/:id/image`; an empty text is absent. */
  datatype ImageBody = ImageBody(model: Text, prompt: Text, quality: Text, size: Text)

  class Server {
    var stores: map<Text, Store>
    var allApprovers: set<Text>
    var awaiting: map<Text, Post>
    var active: seq<(Text, Text)>
    var outbox: seq<Bot.Outbound>
    var imageCalls: seq<ImageParams.ImageCall>

    /** Every store's approver list is derived from its instances, the
        global set is their union, and each bot user is active once. */
    predicate Valid()
      reads this
    {
      (forall l :: l in stores ==> stores[l].approvers == StoreApprovers(stores[l].instances))
      && allApprovers == AllApprovers(stores)
      && KeysDistinct(active)
    }

    constructor()
      ensures Valid()
      ensures stores == map[] && awaiting == map[] && active == [] && outbox == [] && imageCalls == []
    {
      stores := map[];
      allApprovers := {};
      awaiting := map[];
      active := [];
      outbox := [];
      imageCalls := [];
    }

    function StoreOf(login: Text): Store
      reads this
    {
      if login in stores then stores[login] else EmptyStore
    }

    /** The store of a waiting post's owner. */
    function OwnerStore(id: Text): Store
      reads this
    {
      if id in awaiting then StoreOf(awaiting[id].login) else EmptyStore
    }

    /** The instance a waiting post belongs to, if its owner has it. */
    function PostInstance(id: Text): (r: Option<nat>)
      reads this
      ensures id in awaiting && r.Some? ==>
        awaiting[id].login in stores && r.value < |stores[awaiting[id].login].instances|
    {
      if id in awaiting then FindInstance(StoreOf(awaiting[id].login).instances, awaiting[id].instanceId) else None
    }

    /** That instance's image settings; all missing without one. */
    function PostSettings(id: Text): ImageParams.ImageSettings
      reads this
    {
      match PostInstance(id)
      case Some(k) => StoreOf(awaiting[id].login).instances[k].image
      case None => NoSettings
    }

    /** What `generateImage` is given as the instance. */
    function InstanceSettings(id: Text): Option<ImageParams.ImageSettings>
      reads this
    {
      if PostInstance(id).Some? then Some(PostSettings(id)) else None
    }

    /** The names eligible to approve a post of `login`'s instance. */
    function Eligible(login: Text, instanceId: Text): set<Text>
      reads this
    {
      EligibleNames(StoreOf(login), allApprovers, instanceId)
    }

    // ----- approver bookkeeping -----

    /** `updateAllApprovers()`. */
    method UpdateAllApprovers()
      modifies this
      ensures allApprovers == AllApprovers(stores)
      ensures stores == old(stores) && awaiting == old(awaiting) && active == old(active)
      ensures outbox == old(outbox) && imageCalls == old(imageCalls)
    {
      var acc: set<Text> := {};
      var rest := stores.Keys;
      while rest != {}
        invariant rest <= stores.Keys
        invariant acc == ApproversOf(stores, stores.Keys - rest)
        invariant stores == old(stores) && awaiting == old(awaiting) && active == old(active)
        invariant outbox == old(outbox) && imageCalls == old(imageCalls)
        decreases rest
      {
        var l :| l in rest;
        var names := stores[l].approvers;
        var j := 0;
        ghost var before := acc;
        while j < |names|
          invariant 0 <= j <= |names|
          invariant acc == before + set a | a in names[..j]
          invariant stores == old(stores) && awaiting == old(awaiting) && active == old(active)
          invariant outbox == old(outbox) && imageCalls == old(imageCalls)
        {
          assert names[..j + 1] == names[..j] + [names[j]];
          acc := acc + {names[j]};
          j := j + 1;
        }
        assert names[..|names|] == names;
        AddLogin(stores, stores.Keys - rest, l);
        rest := rest - {l};
      }
      assert stores.Keys - rest == stores.Keys;
      SameApprovers(stores);
      allApprovers := acc;
    }

    /** `computeApprovers(login)`: the login's list is rebuilt from its
        instances and the global set follows. */
    method ComputeApprovers(login: Text)
      requires login in stores
      modifies this
      ensures stores == old(stores)[login := old(stores)[login].(approvers := StoreApprovers(old(stores)[login].instances))]
      ensures allApprovers == AllApprovers(stores)
      ensures awaiting == old(awaiting) && active == old(active)
      ensures outbox == old(outbox) && imageCalls == old(imageCalls)
    {
      var list := CollectApprovers(stores[login].instances);
      stores := stores[login := stores[login].(approvers := list)];
      UpdateAllApprovers();
    }

    /** `getStore(login)` for a login not loaded yet creates its store;
        here it starts empty. */
    method EnsureStore(login: Text)
      requires Valid()
      modifies this
      ensures Valid()
      ensures login in stores
      ensures stores == if login in old(stores) then old(stores) else old(stores)[login := EmptyStore]
      ensures allApprovers == old(allApprovers) && awaiting == old(awaiting) && active == old(active)
      ensures outbox == old(outbox) && imageCalls == old(imageCalls)
    {
      if login !in stores {
        NewStoreAddsNoApprover(stores, login);
        stores := stores[login := EmptyStore];
      }
    }

    // ----- instance approvers and sources (HTTP) -----

    /** `POST /api/instances/:id/approvers`: 404 without the instance, 400
        without a username; otherwise the name, without a leading `@` and
        lower-cased, joins the instance's list unless already on it, and the
        approver lists are recomputed. */
    method AddInstanceApprover(login: Text, instanceId: Text, username: Text) returns (status: Status)
      requires Valid()
      modifies this
      ensures Valid()
      ensures awaiting == old(awaiting) && active == old(active) && outbox == old(outbox)
      ensures FindInstance(old(StoreOf(login)).instances, instanceId).None? ==> status == NotFound
      ensures FindInstance(old(StoreOf(login)).instances, instanceId).Some? && |username| == 0 ==> status == BadRequest("username required")
      ensures status == Ok ==>
        login in stores && FindInstance(old(StoreOf(login)).instances, instanceId).Some?
        && |stores[login].instances| == |old(StoreOf(login)).instances|
        && var k := FindInstance(old(StoreOf(login)).instances, instanceId).value;
           var inst := stores[login].instances[k];
           inst.approvers.Some? && CleanName(username) in inst.approvers.value
           && CleanName(username) in allApprovers
      ensures status == Ok ==>
        login in old(stores) && FindInstance(old(StoreOf(login)).instances, instanceId).Some?
        && var k := FindInstance(old(StoreOf(login)).instances, instanceId).value;
           var before := old(StoreOf(login)).instances[k].approvers;
           var list := if before.Some? then before.value else [];
           stores == old(stores)[login := WithApprovers(old(StoreOf(login)), k,
             if CleanName(username) in list then list else list + [CleanName(username)])]
      ensures status != Ok ==> stores == old(stores)[login := old(StoreOf(login))]
      ensures imageCalls == old(imageCalls)
    {
      EnsureStore(login);
      var store := stores[login];
      var found := FindInstance(store.instances, instanceId);
      if found.None? {
        return NotFound;
      }
      if |username| == 0 {
        return BadRequest("username required");
      }
      var k := found.value;
      var inst := store.instances[k];
      var clean := CleanName(username);
      var list := if inst.approvers.Some? then inst.approvers.value else [];
      if clean !in list {
        list := list + [clean];
      }
      SetApprovers(login, k, list);
      ApproverComputed(stores, login, k, clean);
      status := Ok;
    }

    /** The login's `k`-th instance given the approver list `list`, and the
        approver lists recomputed. */
    method SetApprovers(login: Text, k: nat, list: seq<Text>)
      requires Valid() && login in stores && k < |stores[login].instances|
      modifies this
      ensures Valid()
      ensures stores.Keys == old(stores).Keys
      ensures stores[login].instances == old(stores[login].instances)[k := old(stores[login].instances[k]).(approvers := Some(list))]
      ensures stores == old(stores)[login := WithApprovers(old(stores)[login], k, list)]
      ensures awaiting == old(awaiting) && active == old(active)
      ensures outbox == old(outbox) && imageCalls == old(imageCalls)
    {
      var store := stores[login];
      var instances := store.instances[k := store.instances[k].(approvers := Some(list))];
      ghost var updated := WithApprovers(store, k, list);
      assert updated == store.(instances := instances, approvers := StoreApprovers(instances));
      stores := stores[login := store.(instances := instances)];
      ComputeApprovers(login);
      assert stores == old(stores)[login := updated];
    }

    /** `DELETE /api/instances/:id/approvers`: 404 without the instance, 400
        without a username; otherwise the first occurrence of the cleaned
        name leaves the instance's list, if it is there, and the approver
        lists are recomputed. */
    method RemoveInstanceApprover(login: Text, instanceId: Text, username: Text) returns (status: Status)
      requires Valid()
      modifies this
      ensures Valid()
      ensures awaiting == old(awaiting) && active == old(active) && outbox == old(outbox)
      ensures FindInstance(old(StoreOf(login)).instances, instanceId).None? ==> status == NotFound
      ensures FindInstance(old(StoreOf(login)).instances, instanceId).Some? && |username| == 0 ==> status == BadRequest("username required")
      ensures status == Ok ==>
        login in stores && FindInstance(old(StoreOf(login)).instances, instanceId).Some?
        && |stores[login].instances| == |old(StoreOf(login)).instances|
        && var k := FindInstance(old(StoreOf(login)).instances, instanceId).value;
           var before := old(StoreOf(login)).instances[k].approvers;
           stores[login].instances[k].approvers ==
             if before.Some? then Some(RemoveFirst(before.value, CleanName(username))) else None
      ensures status == Ok ==>
        login in old(stores) && FindInstance(old(StoreOf(login)).instances, instanceId).Some?
        && var k := FindInstance(old(StoreOf(login)).instances, instanceId).value;
           var before := old(StoreOf(login)).instances[k].approvers;
           stores == if before.Some? && CleanName(username) in before.value
             then old(stores)[login := WithApprovers(old(StoreOf(login)), k, RemoveFirst(before.value, CleanName(username)))]
             else old(stores)
      ensures status != Ok ==> stores == old(stores)[login := old(StoreOf(login))]
      ensures imageCalls == old(imageCalls)
    {
      EnsureStore(login);
      var store := stores[login];
      var found := FindInstance(store.instances, instanceId);
      if found.None? {
        return NotFound;
      }
      if |username| == 0 {
        return BadRequest("username required");
      }
      var k := found.value;
      var inst := store.instances[k];
      var clean := CleanName(username);
      if inst.approvers.Some? {
        var list := RemoveFirst(inst.approvers.value, clean);
        if list != inst.approvers.value {
          SetApprovers(login, k, list);
        }
      }
      status := Ok;
    }

    /** `POST /api/tg-sources`: 400 without a url; otherwise the url is
        appended unless the list has it already. */
    method AddTgSource(login: Text, url: Text) returns (status: Status)
      requires Valid()
      modifies this
      ensures Valid()
      ensures awaiting == old(awaiting) && active == old(active) && outbox == old(outbox)
      ensures allApprovers == old(allApprovers)
      ensures login in stores
      ensures |url| == 0 <==> status == BadRequest("url required")
      ensures status == Ok ==>
        stores[login].tgSources ==
          if url in old(StoreOf(login)).tgSources then old(StoreOf(login)).tgSources
          else old(StoreOf(login)).tgSources + [url]
      ensures stores[login].(tgSources := old(StoreOf(login)).tgSources) == old(StoreOf(login))
      ensures forall l :: l in old(stores) && l != login ==> l in stores && stores[l] == old(stores)[l]
      ensures stores.Keys == old(stores).Keys + {login} && imageCalls == old(imageCalls)
    {
      EnsureStore(login);
      ghost var before := stores;
      var store := stores[login];
      if |url| == 0 {
        return BadRequest("url required");
      }
      if url !in store.tgSources {
        stores := stores[login := store.(tgSources := store.tgSources + [url])];
        SameApproversOnOtherChange(before, stores, login);
      }
      status := Ok;
    }

    /** `DELETE /api/tg-sources`: 400 without a url; otherwise its first
        occurrence is removed, if any. */
    method RemoveTgSource(login: Text, url: Text) returns (status: Status)
      requires Valid()
      modifies this
      ensures Valid()
      ensures awaiting == old(awaiting) && active == old(active) && outbox == old(outbox)
      ensures allApprovers == old(allApprovers)
      ensures login in stores
      ensures |url| == 0 <==> status == BadRequest("url required")
      ensures status == Ok ==> stores[login].tgSources == RemoveFirst(old(StoreOf(login)).tgSources, url)
      ensures stores[login].(tgSources := old(StoreOf(login)).tgSources) == old(StoreOf(login))
      ensures forall l :: l in old(stores) && l != login ==> l in stores && stores[l] == old(stores)[l]
      ensures stores.Keys == old(stores).Keys + {login} && imageCalls == old(imageCalls)
    {
      EnsureStore(login);
      ghost var before := stores;
      var store := stores[login];
      if |url| == 0 {
        return BadRequest("url required");
      }
      var list := RemoveFirst(store.tgSources, url);
      if list != store.tgSources {
        stores := stores[login := store.(tgSources := list)];
        SameApproversOnOtherChange(before, stores, login);
      }
      status := Ok;
    }

    // ----- opting in -----

    /** `/start_approving`: a user whose lower-cased username is an approver
        becomes active (a later opt-in replaces the name in place) and is
        told so; anyone else is told they are not an approver. */
    method StartApproving(fromId: Text, username: Text)
      requires Valid()
      modifies this
      ensures Valid()
      ensures stores == old(stores) && allApprovers == old(allApprovers) && awaiting == old(awaiting)
      ensures imageCalls == old(imageCalls)
      ensures Lower(username) in allApprovers ==>
        active == SetEntry(old(active), fromId, Lower(username))
        && outbox == old(outbox) + [Bot.SendMessage(fromId, "You will now receive approval requests.", [])]
      ensures Lower(username) !in allApprovers ==>
        active == old(active) && outbox == old(outbox) + [Bot.SendMessage(fromId, "You are not an approver.", [])]
    {
      var name := Lower(username);
      if name in allApprovers {
        SetEntrySpec(active, fromId, name);
        active := SetEntry(active, fromId, name);
        outbox := outbox + [Bot.SendMessage(fromId, "You will now receive approval requests.", [])];
      } else {
        outbox := outbox + [Bot.SendMessage(fromId, "You are not an approver.", [])];
      }
    }

    // ----- sending -----

    /** The loop over `activeApprovers` that collects the eligible ids. */
    method EligibleTargets(names: set<Text>) returns (targets: seq<Text>)
      ensures targets == Targets(active, names)
    {
      targets := [];
      var i := 0;
      while i < |active|
        invariant 0 <= i <= |active|
        invariant targets + Targets(active[i..], names) == Targets(active, names)
      {
        assert active[i..][1..] == active[i + 1..];
        if active[i].1 in names {
          targets := targets + [active[i].0];
        }
        i := i + 1;
      }
    }

    /** One approval request per target. */
    method SendApprovalRequests(targets: seq<Text>, p: Bot.Prompt)
      modifies this
      ensures outbox == old(outbox) + Requests(targets, p)
      ensures stores == old(stores) && allApprovers == old(allApprovers) && awaiting == old(awaiting)
      ensures active == old(active) && imageCalls == old(imageCalls)
    {
      var i := 0;
      while i < |targets|
        invariant 0 <= i <= |targets|
        invariant outbox == old(outbox) + Requests(targets[..i], p)
        invariant stores == old(stores) && allApprovers == old(allApprovers) && awaiting == old(awaiting)
        invariant active == old(active) && imageCalls == old(imageCalls)
      {
        var request := Bot.ApprovalRequest(targets[i], p);
        RequestsStep(targets, i, p);
        outbox := outbox + [request];
        i := i + 1;
      }
      assert targets[..|targets|] == targets;
    }

    /** `postToChannel(post)`; `delivered` says whether Telegram accepted
        the call.  The answer is whether the post went out. */
    method Publish(post: Post, delivered: bool) returns (ok: bool)
      modifies this
      ensures var m := PostToChannel(post, StoreOf(post.login).emojis);
        outbox == old(outbox) + (if m.Some? then [m.value] else [])
        && ok == (m.Some? && delivered)
      ensures stores == old(stores) && allApprovers == old(allApprovers) && awaiting == old(awaiting)
      ensures active == old(active) && imageCalls == old(imageCalls)
    {
      var m := PostToChannel(post, StoreOf(post.login).emojis);
      if m.None? {
        return false;
      }
      outbox := outbox + [m.value];
      ok := delivered;
    }

    // ----- POST /api/post -----

    /** `POST /api/post` from `login`: 400 and no change without a channel,
        without both text and media, or without any active approver.
        Otherwise, when some active approver is eligible, the post is stored
        under the custom id (or the fresh one) and each eligible approver
        gets a request; when none is, the post is published directly. */
    method CreatePost(login: Text, channel: Text, text: Option<Text>, media: Text, instanceId: Text,
                      customId: Text, freshId: Text, delivered: bool) returns (status: Status)
      requires Valid() && |freshId| > 0
      modifies this
      ensures Valid()
      ensures stores == old(stores) && allApprovers == old(allApprovers) && active == old(active)
      ensures imageCalls == old(imageCalls)
      ensures |channel| == 0 ==> status == BadRequest("channel required")
      ensures |channel| > 0 && |OrEmpty(text)| == 0 && |media| == 0 ==> status == BadRequest("text or media required")
      ensures |channel| > 0 && (|OrEmpty(text)| > 0 || |media| > 0) && |active| == 0 ==>
        status == BadRequest("no active approvers")
      ensures status.BadRequest? ==> awaiting == old(awaiting) && outbox == old(outbox)
      ensures !status.BadRequest? ==>
        var targets := Targets(active, Eligible(login, instanceId));
        var id := if |customId| > 0 then customId else freshId;
        var post := Post(id, channel, text, media, instanceId, login);
        if |targets| > 0 then
          status == Queued(id) && awaiting == old(awaiting)[id := post]
          && outbox == old(outbox) + Requests(targets, PromptFor(post, StoreOf(login).emojis))
        else
          awaiting == old(awaiting)
          && var m := PostToChannel(post, StoreOf(login).emojis);
             outbox == old(outbox) + (if m.Some? then [m.value] else [])
             && status == DirectReply(m.Some? && delivered)
    {
      if |channel| == 0 {
        return BadRequest("channel required");
      }
      if |OrEmpty(text)| == 0 && |media| == 0 {
        return BadRequest("text or media required");
      }
      if |active| == 0 {
        return BadRequest("no active approvers");
      }
      var targets := EligibleTargets(Eligible(login, instanceId));
      var id := if |customId| > 0 then customId else freshId;
      var post := Post(id, channel, text, media, instanceId, login);
      if |targets| > 0 {
        awaiting := awaiting[id := post];
        SendApprovalRequests(targets, PromptFor(post, StoreOf(login).emojis));
        return Queued(id);
      }
      var ok := Publish(post, delivered);
      status := DirectReply(ok);
    }

    // ----- approve and cancel over HTTP -----

    /** `POST /api/awaiting/:id/approve`: 404 on an unknown id; otherwise
        the post is removed first and then published, removed even when
        publishing fails. */
    method ApproveHttp(id: Text, delivered: bool) returns (status: Status)
      requires Valid()
      modifies this
      ensures Valid()
      ensures stores == old(stores) && allApprovers == old(allApprovers) && active == old(active)
      ensures imageCalls == old(imageCalls)
      ensures id !in old(awaiting) ==> status == NotFound && awaiting == old(awaiting) && outbox == old(outbox)
      ensures id in old(awaiting) ==>
        awaiting == old(awaiting) - {id}
        && var m := PostToChannel(old(awaiting)[id], StoreOf(old(awaiting)[id].login).emojis);
           outbox == old(outbox) + (if m.Some? then [m.value] else [])
           && (status == Ok <==> m.Some? && delivered) && (status != Ok ==> status == ServerError)
    {
      if id !in awaiting {
        return NotFound;
      }
      var post := awaiting[id];
      awaiting := awaiting - {id};
      var ok := Publish(post, delivered);
      status := if ok then Ok else ServerError;
    }

    /** `POST /api/awaiting/:id/cancel`: 404 on an unknown id, otherwise the
        post is dropped. */
    method CancelHttp(id: Text) returns (status: Status)
      requires Valid()
      modifies this
      ensures Valid()
      ensures stores == old(stores) && allApprovers == old(allApprovers) && active == old(active)
      ensures outbox == old(outbox) && imageCalls == old(imageCalls)
      ensures id !in old(awaiting) ==> status == NotFound && awaiting == old(awaiting)
      ensures id in old(awaiting) ==> status == Ok && awaiting == old(awaiting) - {id}
    {
      if id !in awaiting {
        return NotFound;
      }
      awaiting := awaiting - {id};
      status := Ok;
    }

    // ----- a new image -----

    /** The shared tail of both image handlers: the image API is asked
        for an image, and on success the post gets its media (none when the
        reply had no image) and is offered again to the same eligible
        approvers.  The answer is whether the API answered. */
    method Regenerate(id: Text, model: Text, base: Text, generation: Generation) returns (ok: bool)
      requires Valid() && id in awaiting
      modifies this
      ensures Valid()
      ensures stores == old(stores) && allApprovers == old(allApprovers) && active == old(active)
      ensures imageCalls == old(imageCalls) + [ImageParams.ImageRequest(model, base, old(awaiting)[id].text, old(InstanceSettings(id)))]
      ensures ok <==> generation.Generated?
      ensures !ok ==> awaiting == old(awaiting) && outbox == old(outbox)
      ensures ok ==>
        var post := old(awaiting)[id].(media := OrEmpty(ImageParams.ImageUrl(generation.first)));
        awaiting == old(awaiting)[id := post]
        && outbox == old(outbox) + Requests(Targets(active, Eligible(post.login, post.instanceId)),
                                            PromptFor(post, StoreOf(post.login).emojis))
    {
      var post := awaiting[id];
      imageCalls := imageCalls + [ImageParams.ImageRequest(model, base, post.text, InstanceSettings(id))];
      if generation.GenerationFailed? {
        return false;
      }
      post := post.(media := OrEmpty(ImageParams.ImageUrl(generation.first)));
      awaiting := awaiting[id := post];
      var targets := EligibleTargets(Eligible(post.login, post.instanceId));
      SendApprovalRequests(targets, PromptFor(post, StoreOf(post.login).emojis));
      ok := true;
    }

    /** `POST /api/awaiting/:id/image`: 404 on an unknown id.  The body's
        model and prompt come before the instance's and the defaults; a
        quality or size in the body is stored on the instance first, which
        fails (500) when the post has no instance.  The post is never
        removed. */
    method ImageHttp(id: Text, body: ImageBody, generation: Generation) returns (status: Status)
      requires Valid()
      modifies this
      ensures Valid()
      ensures allApprovers == old(allApprovers) && active == old(active)
      ensures id !in old(awaiting) ==>
        status == NotFound && awaiting == old(awaiting)
        && outbox == old(outbox) && stores == old(stores) && imageCalls == old(imageCalls)
      ensures id in old(awaiting) && old(PostInstance(id)).None? && (|body.quality| > 0 || |body.size| > 0) ==>
        status == ServerError && awaiting == old(awaiting)
        && outbox == old(outbox) && stores == old(stores) && imageCalls == old(imageCalls)
      ensures id in old(awaiting) && old(PostInstance(id)).Some? ==>
        stores == WithSettings(old(stores), old(awaiting)[id].login, old(PostInstance(id)).value,
                               Requested(old(PostSettings(id)), body))
      ensures id in old(awaiting) && old(PostInstance(id)).None? ==> stores == old(stores)
      ensures id in old(awaiting) && (old(PostInstance(id)).Some? || (|body.quality| == 0 && |body.size| == 0)) ==>
        imageCalls == old(imageCalls) + [ImageParams.ImageRequest(
          ImageParams.Or(body.model, ImageParams.Or(old(PostSettings(id)).imageModel, ImageParams.DefaultModel)),
          ImageParams.Or(body.prompt, ImageParams.Or(old(PostSettings(id)).imagePrompt, ImageParams.DefaultPrompt)),
          old(awaiting)[id].text,
          if old(PostInstance(id)).Some? then Some(Requested(old(PostSettings(id)), body)) else None)]
        && (status == Ok <==> generation.Generated?)
        && (status != Ok ==> status == ServerError && awaiting == old(awaiting) && outbox == old(outbox))
        && (status == Ok ==>
              var p := old(awaiting)[id].(media := OrEmpty(ImageParams.ImageUrl(generation.first)));
              awaiting == old(awaiting)[id := p]
              && outbox == old(outbox) + Requests(Targets(active, Eligible(p.login, p.instanceId)),
                                                  PromptFor(p, StoreOf(p.login).emojis)))
    {
      if id !in awaiting {
        return NotFound;
      }
      var post := awaiting[id];
      var found := PostInstance(id);
      var settings := PostSettings(id);
      if found.None? && (|body.quality| > 0 || |body.size| > 0) {
        return ServerError;
      }
      if found.Some? {
        StorePostSettings(id, Requested(settings, body));
      }
      var ok := GenerateFor(id, post, settings, body, generation);
      status := if ok then Ok else ServerError;
    }

    /** `generateImage` with the body's model and prompt before the
        instance's settings and the defaults. */
    method GenerateFor(id: Text, post: Post, settings: ImageParams.ImageSettings,
                       body: ImageBody, generation: Generation) returns (ok: bool)
      requires Valid() && id in awaiting && post == awaiting[id]
      modifies this
      ensures Valid()
      ensures stores == old(stores) && allApprovers == old(allApprovers) && active == old(active)
      ensures imageCalls == old(imageCalls) + [ImageParams.ImageRequest(
        ImageParams.Or(body.model, ImageParams.Or(settings.imageModel, ImageParams.DefaultModel)),
        ImageParams.Or(body.prompt, ImageParams.Or(settings.imagePrompt, ImageParams.DefaultPrompt)),
        post.text, old(InstanceSettings(id)))]
      ensures ok <==> generation.Generated?
      ensures !ok ==> awaiting == old(awaiting) && outbox == old(outbox)
      ensures ok ==>
        var p := post.(media := OrEmpty(ImageParams.ImageUrl(generation.first)));
        awaiting == old(awaiting)[id := p]
        && outbox == old(outbox) + Requests(Targets(active, Eligible(p.login, p.instanceId)),
                                            PromptFor(p, StoreOf(p.login).emojis))
    {
      var model := ImageParams.Or(body.model, ImageParams.Or(settings.imageModel, ImageParams.DefaultModel));
      var base := ImageParams.Or(body.prompt, ImageParams.Or(settings.imagePrompt, ImageParams.DefaultPrompt));
      ok := Regenerate(id, model, base, generation);
    }

    /** The settings of the post's instance replaced; the post still finds
        that instance. */
    method StorePostSettings(id: Text, settings: ImageParams.ImageSettings)
      requires Valid() && id in awaiting && PostInstance(id).Some?
      modifies this
      ensures Valid()
      ensures stores == WithSettings(old(stores), old(awaiting)[id].login, old(PostInstance(id)).value, settings)
      ensures PostInstance(id) == old(PostInstance(id)) && InstanceSettings(id) == Some(settings)
      ensures allApprovers == old(allApprovers) && awaiting == old(awaiting) && active == old(active)
      ensures outbox == old(outbox) && imageCalls == old(imageCalls)
    {
      var post := awaiting[id];
      var k := PostInstance(id).value;
      StoreSettings(post.login, k, settings);
      SettingsKeepFind(old(stores)[post.login].instances, k, settings, post.instanceId);
    }

    /** `inst.imageQuality = …; inst.imageSize = …`: the settings of the
        login's `k`-th instance replaced; the approver lists are untouched. */
    method StoreSettings(login: Text, k: nat, settings: ImageParams.ImageSettings)
      requires Valid() && login in stores && k < |stores[login].instances|
      modifies this
      ensures Valid()
      ensures stores == WithSettings(old(stores), login, k, settings)
      ensures allApprovers == old(allApprovers) && awaiting == old(awaiting) && active == old(active)
      ensures outbox == old(outbox) && imageCalls == old(imageCalls)
    {
      SettingsKeepValid(stores, login, k, settings);
      stores := WithSettings(stores, login, k, settings);
    }

    // ----- the bot's callback buttons -----

    /** A press on an approval button.  Data that does not parse is
        ignored.  `approve` on a waiting post removes it, publishes it and
        answers; `cancel` on a waiting post removes it and answers; both then
        delete the prompt.  `approve_image` on a waiting post deletes the
        prompt, answers, tells the user an image is coming and regenerates,
        keeping the post; it never deletes the prompt afterwards.  Any other
        press deletes the prompt. */
    method Callback(q: Query, delivered: bool, generation: Generation)
      requires Valid()
      modifies this
      ensures Valid()
      ensures allApprovers == old(allApprovers) && active == old(active) && stores == old(stores)
      ensures ParseCallback(q.data).None? ==>
        awaiting == old(awaiting) && outbox == old(outbox) && imageCalls == old(imageCalls)
      ensures ParseCallback(q.data).Some? && ParseCallback(q.data).value.0 != Bot.ApproveImage ==>
        PressOutcome(old(awaiting), old(outbox), q, ParseCallback(q.data).value.0, ParseCallback(q.data).value.1,
                     delivered, awaiting, outbox, old(OwnerStore(ParseCallback(q.data).value.1)))
      ensures ParseCallback(q.data).Some? && ParseCallback(q.data).value.0 != Bot.ApproveImage ==>
        imageCalls == old(imageCalls)
      ensures ParseCallback(q.data).Some? && ParseCallback(q.data).value.0 == Bot.ApproveImage
              && ParseCallback(q.data).value.1 !in old(awaiting) ==>
        awaiting == old(awaiting) && outbox == old(outbox) && imageCalls == old(imageCalls)
      ensures ParseCallback(q.data).Some? && ParseCallback(q.data).value.0 == Bot.ApproveImage
              && ParseCallback(q.data).value.1 in old(awaiting) ==>
        var id := ParseCallback(q.data).value.1;
        imageCalls == old(imageCalls) + [ImageParams.ImageRequest(
          ImageParams.Or(old(PostSettings(id)).imageModel, ImageParams.DefaultModel),
          ImageParams.Or(old(PostSettings(id)).imagePrompt, ImageParams.DefaultPrompt),
          old(awaiting)[id].text, old(InstanceSettings(id)))]
        && (generation.GenerationFailed? ==>
              awaiting == old(awaiting)
              && outbox == old(outbox) + Notices(q) + [Bot.SendMessage(q.from, "Failed to generate image.", [])])
        && (generation.Generated? ==>
              var post := old(awaiting)[id].(media := OrEmpty(ImageParams.ImageUrl(generation.first)));
              awaiting == old(awaiting)[id := post]
              && outbox == old(outbox) + Notices(q) + Requests(Targets(active, Eligible(post.login, post.instanceId)),
                                                               PromptFor(post, StoreOf(post.login).emojis)))
    {
      var parsed := ParseCallback(q.data);
      if parsed.None? {
        return;
      }
      var action := parsed.value.0;
      var id := parsed.value.1;
      if action == Bot.ApproveImage {
        if id in awaiting {
          ImagePress(q, id, generation);
        }
      } else {
        ButtonPress(q, action, id, delivered);
      }
    }

    /** An `approve`, a `cancel` or an unknown action. */
    method ButtonPress(q: Query, action: Text, id: Text, delivered: bool)
      requires Valid() && action != Bot.ApproveImage
      modifies this
      ensures Valid()
      ensures allApprovers == old(allApprovers) && active == old(active) && stores == old(stores)
      ensures imageCalls == old(imageCalls)
      ensures PressOutcome(old(awaiting), old(outbox), q, action, id, delivered, awaiting, outbox,
                           old(OwnerStore(id)))
    {
      if action == Bot.Approve && id in awaiting {
        var post := awaiting[id];
        awaiting := awaiting - {id};
        var ok := Publish(post, delivered);
        outbox := outbox + [Bot.AnswerCallback(q.id, Some(if ok then "Approved" else "Failed to post"))];
      } else if action == Bot.Cancel && id in awaiting {
        awaiting := awaiting - {id};
        outbox := outbox + [Bot.AnswerCallback(q.id, Some("Cancelled"))];
      }
      outbox := outbox + DeletePrompt(q);
    }

    /** `approve_image` on a waiting post. */
    method ImagePress(q: Query, id: Text, generation: Generation)
      requires Valid() && id in awaiting
      modifies this
      ensures Valid()
      ensures allApprovers == old(allApprovers) && active == old(active) && stores == old(stores)
      ensures imageCalls == old(imageCalls) + [ImageParams.ImageRequest(
        ImageParams.Or(old(PostSettings(id)).imageModel, ImageParams.DefaultModel),
        ImageParams.Or(old(PostSettings(id)).imagePrompt, ImageParams.DefaultPrompt),
        old(awaiting)[id].text, old(InstanceSettings(id)))]
      ensures generation.GenerationFailed? ==>
        awaiting == old(awaiting)
        && outbox == old(outbox) + Notices(q) + [Bot.SendMessage(q.from, "Failed to generate image.", [])]
      ensures generation.Generated? ==>
        var post := old(awaiting)[id].(media := OrEmpty(ImageParams.ImageUrl(generation.first)));
        awaiting == old(awaiting)[id := post]
        && outbox == old(outbox) + Notices(q) + Requests(Targets(active, Eligible(post.login, post.instanceId)),
                                                         PromptFor(post, StoreOf(post.login).emojis))
    {
      var settings := PostSettings(id);
      outbox := outbox + Notices(q);
      var model := ImageParams.Or(settings.imageModel, ImageParams.DefaultModel);
      var base := ImageParams.Or(settings.imagePrompt, ImageParams.DefaultPrompt);
      var ok := Regenerate(id, model, base, generation);
      if !ok {
        outbox := outbox + [Bot.SendMessage(q.from, "Failed to generate image.", [])];
      }
    }

    // ----- scoring -----

    /** `POST /api/filters/:id/evaluate` once the model has replied with
        `reply`: 404 for an unknown filter, 400 without text, 500 without an
        API key; otherwise the score of the reply.  Nothing is removed or
        changed: the waiting post, if named, is put back as it was. */
    method Evaluate(login: Text, filterId: Text, text: Text, hasKey: bool, reply: Text)
      returns (status: Status, score: Score.Ratio)
      ensures filterId !in StoreOf(login).filters ==> status == NotFound
      ensures filterId in StoreOf(login).filters && |text| == 0 ==> status == BadRequest("text required")
      ensures filterId in StoreOf(login).filters && |text| > 0 && !hasKey ==> status == ServerError
      ensures status == Ok <==> filterId in StoreOf(login).filters && |text| > 0 && hasKey
      ensures status == Ok ==> score == Score.ReplyScore(reply)
    {
      score := Score.Nat(0);
      if filterId !in StoreOf(login).filters {
        return NotFound, score;
      }
      if |text| == 0 {
        return BadRequest("text required"), score;
      }
      if !hasKey {
        return ServerError, score;
      }
      score := Score.ReplyScore(reply);
      status := Ok;
    }
  }

  /** What a press of `approve`, `cancel` or an unknown action leaves:
      on a waiting post, `approve` removes it, publishes it and answers
      whether that worked, and `cancel` removes it and answers; the prompt is
      then deleted in every case, and nothing else happens.  `store` is the
      store of the post's owner. */
  predicate PressOutcome(awaiting: map<Text, Post>, outbox: seq<Bot.Outbound>, q: Query, action: Text, id: Text,
                         delivered: bool, awaiting': map<Text, Post>, outbox': seq<Bot.Outbound>, store: Store)
  {
    if action == Bot.Approve && id in awaiting then
      var m := PostToChannel(awaiting[id], store.emojis);
      awaiting' == awaiting - {id}
      && outbox' == outbox + (if m.Some? then [m.value] else [])
           + [Bot.AnswerCallback(q.id, Some(if m.Some? && delivered then "Approved" else "Failed to post"))]
           + DeletePrompt(q)
    else if action == Bot.Cancel && id in awaiting then
      awaiting' == awaiting - {id}
      && outbox' == outbox + [Bot.AnswerCallback(q.id, Some("Cancelled"))] + DeletePrompt(q)
    else
      awaiting' == awaiting && outbox' == outbox + DeletePrompt(q)
  }

  const NoSettings := ImageParams.ImageSettings("", "", "", "", [])

  /** The settings after the body's quality and size, when given, are
      stored. */
  function Requested(settings: ImageParams.ImageSettings, body: ImageBody): (r: ImageParams.ImageSettings)
    ensures r.imageQuality == ImageParams.Or(body.quality, settings.imageQuality)
    ensures r.imageSize == ImageParams.Or(body.size, settings.imageSize)
    ensures r.(imageQuality := settings.imageQuality, imageSize := settings.imageSize) == settings
  {
    var s := if |body.quality| > 0 then settings.(imageQuality := body.quality) else settings;
    if |body.size| > 0 then s.(imageSize := body.size) else s
  }

  /** The stores with the login's `k`-th instance given new settings. */
  function WithSettings(stores: map<Text, Store>, login: Text, k: nat, settings: ImageParams.ImageSettings): map<Text, Store>
    requires login in stores && k < |stores[login].instances|
  {
    var s := stores[login];
    stores[login := s.(instances := s.instances[k := s.instances[k].(image := settings)])]
  }

  /** What `approve_image` sends before generating: the prompt deleted,
      the press answered without text, and a note to the presser. */
  function Notices(q: Query): seq<Bot.Outbound> {
    DeletePrompt(q) + [Bot.AnswerCallback(q.id, None), Bot.SendMessage(q.from, "Generating image...", [])]
  }

  /** Deleting the message a button belongs to, when there is one. */
  function DeletePrompt(q: Query): seq<Bot.Outbound> {
    if q.message.Some? then [Bot.DeleteMessage(q.message.value.0, q.message.value.1)] else []
  }

  /** `String(username).replace(/^@/, '').toLowerCase()`. */
  function CleanName(username: Text): (r: Text)
    ensures Lower(r) == r
    ensures |r| == |username| - (if |username| > 0 && username[0] == '@' then 1 else 0)
    ensures var d := if |username| > 0 && username[0] == '@' then 1 else 0;
      forall i :: 0 <= i < |r| ==> r[i] == LowerAscii(username[i + d])
  {
    LowerIdempotent(if |username| > 0 && username[0] == '@' then username[1..] else username);
    Lower(if |username| > 0 && username[0] == '@' then username[1..] else username)
  }

  /** `splice(indexOf(x), 1)`: the first occurrence of `x` removed. */
  function RemoveFirst(s: seq<Text>, x: Text): (r: seq<Text>)
    ensures x !in s ==> r == s
    ensures x in s ==> |r| == |s| - 1
    decreases |s|
  {
    if |s| == 0 then []
    else if s[0] == x then s[1..]
    else [s[0]] + RemoveFirst(s[1..], x)
  }

  /** `indexOf(x)` on a list that has `x`. */
  function FirstIndex(s: seq<Text>, x: Text): (k: nat)
    requires x in s
    ensures k < |s| && s[k] == x
    ensures forall i :: 0 <= i < k ==> s[i] != x
    decreases |s|
  {
    if s[0] == x then 0 else 1 + FirstIndex(s[1..], x)
  }

  /** Removing the first occurrence keeps every other element, in order. */
  lemma {:induction false} RemoveFirstSpec(s: seq<Text>, x: Text)
    requires x in s
    ensures RemoveFirst(s, x) == s[..FirstIndex(s, x)] + s[FirstIndex(s, x) + 1..]
    decreases |s|
  {
    if s[0] != x {
      var t := s[1..];
      var k := FirstIndex(t, x);
      RemoveFirstSpec(t, x);
      assert s[..k + 1] == [s[0]] + t[..k];
      assert s[k + 2..] == t[k + 1..];
    }
  }

  // ---------------------------------------------------------------------
  // Facts about the approver set
  // ---------------------------------------------------------------------

  lemma AddLogin(stores: map<Text, Store>, done: set<Text>, l: Text)
    requires l in stores
    ensures ApproversOf(stores, done + {l}) == ApproversOf(stores, done) + set a | a in stores[l].approvers
  {
  }

  lemma SameApprovers(stores: map<Text, Store>)
    ensures ApproversOf(stores, stores.Keys) == AllApprovers(stores)
  {
  }

  lemma NewStoreAddsNoApprover(stores: map<Text, Store>, login: Text)
    requires login !in stores
    ensures AllApprovers(stores[login := EmptyStore]) == AllApprovers(stores)
    ensures StoreApprovers(EmptyStore.instances) == EmptyStore.approvers
  {
    var s := stores[login := EmptyStore];
    forall a ensures a in AllApprovers(s) <==> a in AllApprovers(stores) {
      if a in AllApprovers(s) {
        var l :| l in s && a in s[l].approvers;
        assert l != login;
      }
      if a in AllApprovers(stores) {
        var l :| l in stores && a in stores[l].approvers;
        assert l in s && s[l] == stores[l];
      }
    }
  }

  lemma SameApproversOnOtherChange(before: map<Text, Store>, after: map<Text, Store>, login: Text)
    requires login in before && after.Keys == before.Keys
    requires after[login].approvers == before[login].approvers
    requires forall l :: l in before && l != login ==> after[l] == before[l]
    ensures AllApprovers(after) == AllApprovers(before)
  {
    forall a ensures a in AllApprovers(after) <==> a in AllApprovers(before) {
      if a in AllApprovers(after) {
        var l :| l in after && a in after[l].approvers;
        assert a in before[l].approvers;
      }
      if a in AllApprovers(before) {
        var l :| l in before && a in before[l].approvers;
        assert a in after[l].approvers;
      }
    }
  }

  /** New image settings leave every instance's id where it was. */
  lemma SettingsKeepFind(instances: seq<Instance>, k: nat, settings: ImageParams.ImageSettings, id: Text)
    requires k < |instances|
    ensures FindInstance(instances[k := instances[k].(image := settings)], id) == FindInstance(instances, id)
  {
    var after := instances[k := instances[k].(image := settings)];
    assert forall i :: 0 <= i < |after| ==> after[i].id == instances[i].id;
  }

  /** New image settings keep every store's approver list what its
      instances make it, and the global set with it. */
  lemma SettingsKeepValid(stores: map<Text, Store>, login: Text, k: nat, settings: ImageParams.ImageSettings)
    requires login in stores && k < |stores[login].instances|
    requires forall l :: l in stores ==> stores[l].approvers == StoreApprovers(stores[l].instances)
    ensures var after := WithSettings(stores, login, k, settings);
      (forall l :: l in after ==> after[l].approvers == StoreApprovers(after[l].instances))
      && AllApprovers(after) == AllApprovers(stores)
  {
    var after := WithSettings(stores, login, k, settings);
    SetImageKeepsApprovers(stores, login, k, settings);
    assert StoreApprovers(after[login].instances) == StoreApprovers(stores[login].instances);
    SameApproversOnOtherChange(stores, after, login);
  }

  lemma SetImageKeepsApprovers(stores: map<Text, Store>, login: Text, k: nat, settings: ImageParams.ImageSettings)
    requires login in stores && k < |stores[login].instances|
    ensures var s := stores[login];
      var s2 := s.(instances := s.instances[k := s.instances[k].(image := settings)]);
      InstanceNames(s2.instances) == InstanceNames(s.instances)
  {
    var s := stores[login];
    SameNames(s.instances, s.instances[k := s.instances[k].(image := settings)]);
  }

  lemma {:induction false} SameNames(a: seq<Instance>, b: seq<Instance>)
    requires |a| == |b|
    requires forall i :: 0 <= i < |a| ==> a[i].approvers == b[i].approvers
    ensures InstanceNames(a) == InstanceNames(b)
    decreases |a|
  {
    if |a| > 0 {
      SameNames(a[..|a| - 1], b[..|b| - 1]);
    }
  }

  lemma ApproverComputed(stores: map<Text, Store>, login: Text, k: nat, clean: Text)
    requires login in stores && k < |stores[login].instances|
    requires stores[login].instances[k].approvers.Some? && clean in stores[login].instances[k].approvers.value
    requires stores[login].approvers == StoreApprovers(stores[login].instances)
    ensures clean == Lower(clean) ==> clean in AllApprovers(stores)
  {
    if clean == Lower(clean) {
      InstanceApproverListed(stores[login].instances, k, clean);
    }
  }
}
