/** The Telegram bot helper (bot/index.js): the registry of channels the bot
    administers, the identifier a channel link resolves through, the
    approval prompt it sends with its inline keyboard, and the pattern a
    `data:` URL must have.  Calls to the Telegram API are not made here:
    `getChat` is a directory passed in, and each message the bot would send
    is an `Outbound` value. */
module Bot {
  import opened Strings

  // ---------------------------------------------------------------------
  // Outbound bot calls
  // ---------------------------------------------------------------------

  /** An inline keyboard button: its text and its callback data. */
  datatype Button = Button(text: Text, data: Text)

  /** One call to the Telegram API, as the bot would issue it. */
  datatype Outbound =
    | SendMessage(chat: Text, text: Text, keyboard: seq<Button>)
    | SendPhoto(chat: Text, media: Text, caption: Text, keyboard: seq<Button>)
    | SendVideo(chat: Text, media: Text, caption: Text, keyboard: seq<Button>)
    | AnswerCallback(queryId: Text, answer: Option<Text>)
    | DeleteMessage(chat: Text, messageId: Text)

  /** The choice `postToChannel` and `sendApprovalRequest` share: no media
      (an empty string is falsy) sends a message, media whose lower-cased
      form ends in `.mp4` a video, any other media a photo. */
  function Deliver(chat: Text, media: Text, text: Text, keyboard: seq<Button>): (o: Outbound)
    ensures o.SendMessage? <==> |media| == 0
    ensures o.SendVideo? <==> |media| > 0 && EndsWithIgnoreCase(media, ".mp4")
    ensures o.SendPhoto? <==> |media| > 0 && !EndsWithIgnoreCase(media, ".mp4")
    ensures o.chat == chat && o.keyboard == keyboard
    ensures o.SendMessage? ==> o.text == text
    ensures !o.SendMessage? ==> o.media == media && o.caption == text
  {
    if |media| == 0 then SendMessage(chat, text, keyboard)
    else if EndsWithIgnoreCase(media, ".mp4") then SendVideo(chat, media, text, keyboard)
    else SendPhoto(chat, media, text, keyboard)
  }

  // ---------------------------------------------------------------------
  // The approval prompt
  // ---------------------------------------------------------------------

  /** What `sendApprovalRequest` reads of a post. */
  datatype Prompt = Prompt(id: Text, channel: Text, text: Text, media: Text)

  /** The callback data of a button: `<action>:<post id>`. */
  function CallbackData(action: Text, id: Text): (d: Text)
    ensures |d| == |action| + 1 + |id|
    ensures d[..|action|] == action && d[|action|] == ':' && d[|action| + 1..] == id
  {
    action + ":" + id
  }

  const Approve: Text := "approve"
  const ApproveImage: Text := "approve_image"
  const Cancel: Text := "cancel"

  function ApprovalKeyboard(id: Text): (k: seq<Button>)
    ensures |k| == 3
    ensures k[0].data == CallbackData(Approve, id)
    ensures k[1].data == CallbackData(ApproveImage, id)
    ensures k[2].data == CallbackData(Cancel, id)
  {
    [Button("Approve", CallbackData(Approve, id)),
     Button("Approve with new image", CallbackData(ApproveImage, id)),
     Button("Cancel", CallbackData(Cancel, id))]
  }

  function Caption(p: Prompt): (c: Text)
    ensures |c| == 18 + |p.channel| + |p.text|
    ensures c[..16] == "Approve post to " && c[16..16 + |p.channel|] == p.channel
    ensures c[16 + |p.channel|..18 + |p.channel|] == "?\n" && c[18 + |p.channel|..] == p.text
  {
    "Approve post to " + p.channel + "?\n" + p.text
  }

  /** `sendApprovalRequest(userId, post)`. */
  function ApprovalRequest(userId: Text, p: Prompt): (o: Outbound)
    ensures o.SendMessage? <==> |p.media| == 0
    ensures o.SendVideo? <==> |p.media| > 0 && EndsWithIgnoreCase(p.media, ".mp4")
    ensures o.SendPhoto? <==> |p.media| > 0 && !EndsWithIgnoreCase(p.media, ".mp4")
    ensures (o.SendMessage? || o.SendPhoto? || o.SendVideo?) && o.chat == userId && o.keyboard == ApprovalKeyboard(p.id)
    ensures !o.SendMessage? ==> o.media == p.media
    ensures (if o.SendMessage? then o.text else o.caption) == Caption(p)
  {
    Deliver(userId, p.media, Caption(p), ApprovalKeyboard(p.id))
  }

  /** The prompt's text names the channel and ends with the post's
      text. */
  lemma ApprovalRequestShape(userId: Text, p: Prompt)
    ensures var o := ApprovalRequest(userId, p);
      var body := if o.SendMessage? then o.text else o.caption;
         IsPrefix("Approve post to " + p.channel + "?\n", body) && IsSuffix(p.text, body)
  {
    var body := Caption(p);
    assert body[..|"Approve post to " + p.channel + "?\n"|] == "Approve post to " + p.channel + "?\n";
    assert body[|body| - |p.text|..] == p.text;
  }

  // ---------------------------------------------------------------------
  // resolveLink's identifier
  // ---------------------------------------------------------------------

  /** `t.me/` at `i`, letters in any case. */
  predicate TmeAt(s: Text, i: nat) {
    i + 5 <= |s| && LowerAscii(s[i]) == 't' && s[i + 1] == '.' && LowerAscii(s[i + 2]) == 'm'
    && LowerAscii(s[i + 3]) == 'e' && s[i + 4] == '/'
  }

  /** `/t\.me\/(.+)/i` can match at `i`: `.` needs one character that is
      not a line terminator after the slash. */
  predicate LinkMatchAt(s: Text, i: nat) {
    TmeAt(s, i) && i + 5 < |s| && !IsLineTerminator(s[i + 5])
  }

  /** The leftmost match at or after `i`: where its group starts. */
  function LinkMatch(s: Text, i: nat): (r: Option<nat>)
    requires i <= |s|
    ensures r.Some? ==> exists j :: i <= j && LinkMatchAt(s, j) && r.value == j + 5
    ensures r.None? ==> forall j :: i <= j <= |s| ==> !LinkMatchAt(s, j)
    decreases |s| - i
  {
    if i == |s| then None
    else if LinkMatchAt(s, i) then Some(i + 5)
    else LinkMatch(s, i + 1)
  }

  /** Where the identifier in the group ends: the first `/`, `?` or line
      terminator (which ends `.+`) at or after `j`, or the end. */
  function IdentifierEnd(s: Text, j: nat): (r: nat)
    requires j <= |s|
    ensures j <= r <= |s|
    ensures forall k :: j <= k < r ==> s[k] != '/' && s[k] != '?' && !IsLineTerminator(s[k])
    ensures r < |s| ==> s[r] == '/' || s[r] == '?' || IsLineTerminator(s[r])
    decreases |s| - j
  {
    if j == |s| || s[j] == '/' || s[j] == '?' || IsLineTerminator(s[j]) then j
    else IdentifierEnd(s, j + 1)
  }

  /** The identifier `resolveLink` asks `getChat` about. */
  function Identifier(link: Text): (r: Text)
    ensures LinkMatch(link, 0).None? ==> r == link
    ensures LinkMatch(link, 0).Some? ==> |r| > 0 && (r[0] == '@' || r[0] == '+')
  {
    match LinkMatch(link, 0)
    case None => link
    case Some(j) =>
      var name := link[j..IdentifierEnd(link, j)];
      if IsPrefix("@", name) || IsPrefix("+", name) then name else "@" + name
  }

  /** A link with no `t.me/` is used as it is. */
  lemma PlainLinkUnchanged(link: Text)
    requires forall i :: 0 <= i <= |link| ==> !LinkMatchAt(link, i)
    ensures Identifier(link) == link
  {
  }

  /** From a `t.me/` link the identifier is a handle (`@...`) or an invite
      (`+...`) with no `/`, `?` or line terminator: the path segment after
      `t.me/`, cut at its query or next segment. */
  lemma LinkIdentifierShape(link: Text)
    requires LinkMatch(link, 0).Some?
    ensures var id := Identifier(link);
      |id| > 0 && (id[0] == '@' || id[0] == '+')
      && forall k :: 1 <= k < |id| ==> id[k] != '/' && id[k] != '?' && !IsLineTerminator(id[k])
  {
    var j := LinkMatch(link, 0).value;
    var name := link[j..IdentifierEnd(link, j)];
    assert forall k :: 0 <= k < |name| ==> name[k] == link[j + k];
    HandleShape(name);
  }

  /** A name with no `/`, `?` or line terminator, given an `@` unless it
      has one or a `+` already, is a handle or an invite of that shape. */
  lemma HandleShape(name: Text)
    requires forall k :: 0 <= k < |name| ==> name[k] != '/' && name[k] != '?' && !IsLineTerminator(name[k])
    ensures var id := if IsPrefix("@", name) || IsPrefix("+", name) then name else "@" + name;
      |id| > 0 && (id[0] == '@' || id[0] == '+')
      && forall k :: 1 <= k < |id| ==> id[k] != '/' && id[k] != '?' && !IsLineTerminator(id[k])
  {
    if !(IsPrefix("@", name) || IsPrefix("+", name)) {
      var id := "@" + name;
      assert forall k :: 1 <= k < |id| ==> id[k] == name[k - 1];
    }
  }

  /** `https://t.me/<name>/<rest>` resolves through `@<name>`. */
  lemma ChannelLinkExample(prefix: Text, name: Text, rest: Text)
    requires forall i :: 0 <= i < |prefix| ==> !LinkMatchAt(prefix + "t.me/" + name + rest, i)
    requires |name| > 0 && name[0] != '@' && name[0] != '+'
    requires forall k :: 0 <= k < |name| ==> name[k] != '/' && name[k] != '?' && !IsLineTerminator(name[k])
    requires |rest| == 0 || rest[0] == '/' || rest[0] == '?'
    ensures Identifier(prefix + "t.me/" + name + rest) == "@" + name
  {
    var s := prefix + "t.me/" + name + rest;
    var p := |prefix|;
    ChannelLinkParts(prefix, name, rest);
    FirstLinkMatch(s, p);
    assert !IsPrefix("@", name) && !IsPrefix("+", name);
  }

  /** In such a link the match starts right after `prefix`, and the
      identifier is `name`. */
  lemma ChannelLinkParts(prefix: Text, name: Text, rest: Text)
    requires |name| > 0
    requires forall k :: 0 <= k < |name| ==> name[k] != '/' && name[k] != '?' && !IsLineTerminator(name[k])
    requires |rest| == 0 || rest[0] == '/' || rest[0] == '?'
    ensures var s, p := prefix + "t.me/" + name + rest, |prefix|;
      LinkMatchAt(s, p) && IdentifierEnd(s, p + 5) == p + 5 + |name| && s[p + 5..p + 5 + |name|] == name
  {
    var s := prefix + "t.me/" + name + rest;
    var p := |prefix|;
    assert s[p..p + 5] == "t.me/";
    assert s[p + 5] == name[0];
    forall k | p + 5 <= k < p + 5 + |name| ensures s[k] != '/' && s[k] != '?' && !IsLineTerminator(s[k]) {
      assert s[k] == name[k - p - 5];
    }
    if |rest| > 0 {
      assert s[p + 5 + |name|] == rest[0];
    }
    IdentifierEndUnique(s, p + 5, p + 5 + |name|);
    assert s[p + 5..p + 5 + |name|] == name;
  }

  lemma FirstLinkMatch(s: Text, p: nat)
    requires p <= |s| && LinkMatchAt(s, p)
    requires forall i :: 0 <= i < p ==> !LinkMatchAt(s, i)
    ensures LinkMatch(s, 0) == Some(p + 5)
  {
    FirstLinkMatchFrom(s, 0, p);
  }

  lemma {:induction false} FirstLinkMatchFrom(s: Text, i: nat, p: nat)
    requires i <= p <= |s| && LinkMatchAt(s, p)
    requires forall k :: i <= k < p ==> !LinkMatchAt(s, k)
    ensures LinkMatch(s, i) == Some(p + 5)
    decreases p - i
  {
    if i < p {
      FirstLinkMatchFrom(s, i + 1, p);
    }
  }

  lemma IdentifierEndUnique(s: Text, j: nat, r: nat)
    requires j <= r <= |s|
    requires forall k :: j <= k < r ==> s[k] != '/' && s[k] != '?' && !IsLineTerminator(s[k])
    requires r < |s| ==> s[r] == '/' || s[r] == '?' || IsLineTerminator(s[r])
    ensures IdentifierEnd(s, j) == r
  {
  }

  // ---------------------------------------------------------------------
  // The channel registry
  // ---------------------------------------------------------------------

  /** What the bot keeps of a channel: its title and `@username`, if any. */
  datatype ChannelInfo = ChannelInfo(title: Text, username: Option<Text>)

  /** A chat as `getChat` or a `my_chat_member` update reports it; an empty
      username stands for none. */
  datatype Chat = Chat(id: Text, kind: Text, title: Text, username: Text)

  function Info(c: Chat): ChannelInfo {
    ChannelInfo(c.title, if |c.username| > 0 then Some("@" + c.username) else None)
  }

  /** `resolveLink(link)`, with `chats` the chats `getChat` knows by
      identifier: the chat id and its info, or nothing when the lookup
      fails. */
  function ResolveLink(link: Text, chats: map<Text, Chat>): (r: Option<(Text, ChannelInfo)>)
    ensures r.Some? <==> Identifier(link) in chats
    ensures r.Some? ==>
      var c := chats[Identifier(link)];
      r.value.0 == c.id && r.value.1.title == c.title
      && (r.value.1.username.Some? <==> |c.username| > 0)
      && (r.value.1.username.Some? ==> r.value.1.username.value == "@" + c.username)
  {
    var id := Identifier(link);
    if id in chats then Some((chats[id].id, Info(chats[id]))) else None
  }

  /** The statuses that mean the bot administers a channel. */
  predicate IsAdminStatus(status: Text) {
    status == "administrator" || status == "creator"
  }

  /** The bot's `adminChannels` and `channelsByInstance` maps, and the last
      projection `persistChannels` wrote to the database. */
  class ChannelRegistry {
    var adminChannels: map<Text, ChannelInfo>
    var channelsByInstance: map<Text, set<Text>>
    var persisted: map<Text, map<Text, ChannelInfo>>

    constructor()
      ensures adminChannels == map[] && channelsByInstance == map[] && persisted == map[]
    {
      adminChannels := map[];
      channelsByInstance := map[];
      persisted := map[];
    }

    /** The channels of an instance the bot still administers. */
    function InstanceChannels(inst: Text): map<Text, ChannelInfo>
      reads this
    {
      var ids := if inst in channelsByInstance then channelsByInstance[inst] else {};
      map id | id in ids && id in adminChannels :: adminChannels[id]
    }

    /** The object `persistChannels` writes: every instance's channels. */
    function Projection(): map<Text, map<Text, ChannelInfo>>
      reads this
    {
      map inst | inst in channelsByInstance :: InstanceChannels(inst)
    }

    /** The loop shared by `listInstanceChannels` and `persistChannels`:
        the ids of `ids` that still have an entry, with that entry. */
    method CollectChannels(ids: set<Text>) returns (obj: map<Text, ChannelInfo>)
      ensures obj.Keys == ids * adminChannels.Keys
      ensures forall id :: id in obj ==> obj[id] == adminChannels[id]
    {
      obj := map[];
      var rest := ids;
      while rest != {}
        invariant rest <= ids
        invariant obj.Keys == (ids - rest) * adminChannels.Keys
        invariant forall id :: id in obj ==> obj[id] == adminChannels[id]
        decreases rest
      {
        var id :| id in rest;
        if id in adminChannels {
          obj := obj[id := adminChannels[id]];
        }
        rest := rest - {id};
      }
    }

    /** `listInstanceChannels(inst)`: exactly the ids in the instance's set
        that are still in `adminChannels`; an unknown instance has none. */
    method ListInstanceChannels(inst: Text) returns (obj: map<Text, ChannelInfo>)
      ensures inst in channelsByInstance ==> obj.Keys == channelsByInstance[inst] * adminChannels.Keys
      ensures inst !in channelsByInstance ==> obj == map[]
      ensures forall id :: id in obj ==> obj[id] == adminChannels[id]
      ensures obj == InstanceChannels(inst)
    {
      var ids := if inst in channelsByInstance then channelsByInstance[inst] else {};
      obj := CollectChannels(ids);
    }

    /** `listChannels()`: every administered channel. */
    method ListChannels() returns (obj: map<Text, ChannelInfo>)
      ensures obj == adminChannels
    {
      obj := map[];
      var rest := adminChannels.Keys;
      while rest != {}
        invariant rest <= adminChannels.Keys
        invariant obj.Keys == adminChannels.Keys - rest
        invariant forall id :: id in obj ==> obj[id] == adminChannels[id]
        decreases rest
      {
        var id :| id in rest;
        obj := obj[id := adminChannels[id]];
        rest := rest - {id};
      }
    }

    /** `persistChannels()`: writes, for every instance, the channels of its
        set that the bot still administers. */
    method PersistChannels()
      modifies this
      ensures adminChannels == old(adminChannels) && channelsByInstance == old(channelsByInstance)
      ensures persisted.Keys == channelsByInstance.Keys
      ensures forall inst :: inst in persisted ==>
        persisted[inst].Keys == channelsByInstance[inst] * adminChannels.Keys
        && forall id :: id in persisted[inst] ==> persisted[inst][id] == adminChannels[id]
      ensures persisted == Projection()
    {
      var obj: map<Text, map<Text, ChannelInfo>> := map[];
      var rest := channelsByInstance.Keys;
      while rest != {}
        invariant rest <= channelsByInstance.Keys
        invariant adminChannels == old(adminChannels) && channelsByInstance == old(channelsByInstance)
        invariant obj.Keys == channelsByInstance.Keys - rest
        invariant forall inst :: inst in obj ==> obj[inst] == InstanceChannels(inst)
        decreases rest
      {
        var inst :| inst in rest;
        var channels := CollectChannels(channelsByInstance[inst]);
        obj := obj[inst := channels];
        rest := rest - {inst};
      }
      persisted := obj;
    }

    /** `addChannel(instanceId, link)`: on a link that resolves, the channel
        is administered and belongs to the instance (whose set is created
        when absent), and the registry is persisted; otherwise nothing
        changes. */
    method AddChannel(instanceId: Text, link: Text, chats: map<Text, Chat>)
      returns (r: Option<(Text, ChannelInfo)>)
      modifies this
      ensures r == ResolveLink(link, chats)
      ensures r.None? ==> (adminChannels == old(adminChannels)
        && channelsByInstance == old(channelsByInstance) && persisted == old(persisted))
      ensures r.Some? ==> adminChannels == old(adminChannels)[r.value.0 := r.value.1]
      ensures r.Some? ==> (channelsByInstance.Keys == old(channelsByInstance).Keys + {instanceId}
        && channelsByInstance[instanceId]
           == (if instanceId in old(channelsByInstance) then old(channelsByInstance)[instanceId] else {}) + {r.value.0})
      ensures forall inst :: inst != instanceId && inst in old(channelsByInstance) ==>
        channelsByInstance[inst] == old(channelsByInstance)[inst]
      ensures r.Some? ==> persisted == Projection()
    {
      r := ResolveLink(link, chats);
      if r.None? {
        return;
      }
      var (id, info) := r.value;
      adminChannels := adminChannels[id := info];
      if instanceId !in channelsByInstance {
        channelsByInstance := channelsByInstance[instanceId := {}];
      }
      channelsByInstance := channelsByInstance[instanceId := channelsByInstance[instanceId] + {id}];
      PersistChannels();
    }

    /** The `my_chat_member` handler: updates about non-channel chats are
        ignored; becoming administrator or creator records the channel (over
        any earlier entry); any other status forgets a recorded channel.
        Each change is persisted. */
    method MyChatMember(chat: Chat, status: Text)
      modifies this
      ensures channelsByInstance == old(channelsByInstance)
      ensures chat.kind != "channel" ==> adminChannels == old(adminChannels) && persisted == old(persisted)
      ensures chat.kind == "channel" && IsAdminStatus(status) ==>
        adminChannels == old(adminChannels)[chat.id := Info(chat)] && persisted == Projection()
      ensures chat.kind == "channel" && !IsAdminStatus(status) && chat.id in old(adminChannels) ==>
        adminChannels == old(adminChannels) - {chat.id} && persisted == Projection()
      ensures chat.kind == "channel" && !IsAdminStatus(status) && chat.id !in old(adminChannels) ==>
        adminChannels == old(adminChannels) && persisted == old(persisted)
    {
      if chat.kind != "channel" {
        return;
      }
      var info := Info(chat);
      if IsAdminStatus(status) {
        adminChannels := adminChannels[chat.id := info];
        PersistChannels();
      } else if chat.id in adminChannels {
        adminChannels := adminChannels - {chat.id};
        PersistChannels();
      }
    }
  }

  /** A channel the bot no longer administers drops out of every
      instance's list, though the instance keeps its id. */
  lemma LostChannelNotListed(r: ChannelRegistry, inst: Text, id: Text)
    requires id !in r.adminChannels
    ensures id !in r.InstanceChannels(inst)
  {
  }

  // ---------------------------------------------------------------------
  // decodeDataUrl's pattern
  // ---------------------------------------------------------------------

  const Base64Marker: Text := ";base64,"

  predicate MarkerAt(s: Text, q: nat) {
    q + 8 <= |s| && s[q..q + 8] == Base64Marker
  }

  /** The last marker at or before `q` and after the first character of the
      media type: greedy `(.+)` gives back as little as it can. */
  function LastMarker(s: Text, q: int): (r: Option<nat>)
    ensures r.Some? ==> 6 <= r.value <= q && MarkerAt(s, r.value)
    ensures r.Some? ==> forall k :: r.value < k <= q ==> !MarkerAt(s, k)
    ensures r.None? ==> forall k :: 6 <= k <= q ==> !MarkerAt(s, k)
    decreases q
  {
    if q < 6 then None
    else if MarkerAt(s, q) then Some(q)
    else LastMarker(s, q - 1)
  }

  /** `/^data:(.+);base64,(.*)$/.exec(url)`: the base64 payload (group 2)
      when the URL matches, before any decoding. */
  function DataUrlPayload(s: Text): (r: Option<Text>)
    ensures r.Some? ==> IsPrefix("data:", s) && !HasLineTerminator(s)
    ensures r.Some? ==> |r.value| + 14 <= |s| && IsSuffix(r.value, s)
    ensures r.Some? ==> s[|s| - |r.value| - 8..|s| - |r.value|] == Base64Marker
    ensures r.Some? ==> forall q :: |s| - |r.value| - 8 < q <= |s| - 8 ==> !MarkerAt(s, q)
    ensures IsPrefix("data:", s) && !HasLineTerminator(s) && (exists q :: 6 <= q <= |s| - 8 && MarkerAt(s, q)) ==> r.Some?
  {
    if !IsPrefix("data:", s) || HasLineTerminator(s) then None
    else
      match LastMarker(s, |s| - 8)
      case None => None
      case Some(q) => Some(s[q + 8..])
  }

  /** A data URL built from a non-empty media type and a payload without `;`
      gives that payload back. */
  lemma DataUrlRoundTrip(mime: Text, payload: Text)
    requires |mime| > 0 && !HasLineTerminator(mime) && !HasLineTerminator(payload)
    requires forall k :: 0 <= k < |payload| ==> payload[k] != ';'
    ensures DataUrlPayload("data:" + mime + Base64Marker + payload) == Some(payload)
  {
    var s := "data:" + mime + Base64Marker + payload;
    var q := 5 + |mime|;
    assert s[..5] == "data:";
    assert s[q..q + 8] == Base64Marker;
    assert s[q + 8..] == payload;
    forall i | 0 <= i < |s| ensures !IsLineTerminator(s[i]) {
      if i < 5 {
        assert s[i] == "data:"[i];
      } else if i < q {
        assert s[i] == mime[i - 5];
      } else if i < q + 8 {
        assert s[i] == Base64Marker[i - q];
      } else {
        assert s[i] == payload[i - q - 8];
      }
    }
    forall k | q < k <= |s| - 8 ensures !MarkerAt(s, k) {
      if k < q + 8 {
        assert s[k] == Base64Marker[k - q];
      } else {
        assert s[k] == payload[k - q - 8];
      }
    }
    LastMarkerIs(s, q, |s| - 8);
  }

  lemma {:induction false} LastMarkerIs(s: Text, p: nat, q: int)
    requires 6 <= p <= q && MarkerAt(s, p)
    requires forall k :: p < k <= q ==> !MarkerAt(s, k)
    ensures LastMarker(s, q) == Some(p)
    decreases q
  {
    if q > p {
      LastMarkerIs(s, p, q - 1);
    }
  }

  /** A URL that is not a `data:` URL gives nothing. */
  lemma NotDataUrl(s: Text)
    requires !IsPrefix("data:", s)
    ensures DataUrlPayload(s) == None
  {
  }
}
