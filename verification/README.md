# tg-news-creator: the aggregation-and-approval pipeline in Dafny

tg-news-creator scrapes news from Telegram channels and posts it to the
user's own channels. Approvers can check each post first, through a
Telegram bot. This project models the logic that decides what happens to
a post and proves properties of that model.

- **Server** (`server/index.js`). Posts wait in `awaitingPosts` until an
  approver acts on them. Approvers opt in through `start_approving` and
  press inline buttons. The server builds its text transforms (custom
  emoji, emoji packs), reads a filter's score out of a model reply, and
  chooses the image parameters. It also deduplicates the `/api/tgnews`
  stream.
- **Bot** (`bot/index.js`). It keeps a registry of the channels it
  administers, normalises channel links, and encodes an approval prompt
  with its three buttons.
- **Instance page** (`client/src/Instance.jsx`). It decides, item by
  item, whether to score, rewrite and post. It also guards the start of
  scraping and posting.

Modules, one file each:

| module | file | models |
|---|---|---|
| `Strings` | strings.dfy | The JavaScript string operations the code relies on: `split`, `join`, global literal replacement, `trim`, `toLowerCase`, `indexOf`. |
| `Emoji` | emoji.dfy | `applyCustomEmojis`, `applyCustomEmojisWithInfo` and `parseEmojiPack`. |
| `Score` | score.dfy | The score of `/api/filters/:id/evaluate`: the first match of `\d+(?:\.\d+)?`, as an exact fraction. |
| `ImageParams` | image_params.dfy | `generateImage`'s prompt, quality, size and request kind, and the media URL it makes of the reply. |
| `Bot` | bot.dfy | The class `ChannelRegistry` (`adminChannels`, `channelsByInstance`, the persisted projection), `resolveLink`, `sendApprovalRequest` and `decodeDataUrl`'s pattern. |
| `Approval` | approval.dfy | The class `Server`: the stores, `allApprovers`, `awaitingPosts`, `activeApprovers`, the bot calls issued (`outbox`) and the image requests issued (`imageCalls`). It has one method per handler. |
| `Stream` | stream.dfy | The class `NewsStream`: one `/api/tgnews` connection, with its `seen` set, its `initial` flag and the events it writes. |
| `Client` | client.dfy | The page's pure decisions, as functions over a `Page` value. |

Telegram, OpenAI, the scrapers, the database, the clock and random ids
are not called. What they return is a parameter of the operation that
uses it: `delivered`, `generation`, `scrapes`, `chats`, `freshId`,
`reply`, `score`, `rewrite`, `confirmed`. Each bot call the server makes
is a value appended to `outbox`.

The model follows the code where the code and its own description
differ:

- **Eligible approvers.** An instance offers its posts to its own
  approver array whenever it has one, even an empty one. The whole
  approver set is used only when the array is missing. The names in the
  array are compared as stored, without lower-casing.
- **`startPosting` guard.** The guard on channels, filter and author
  applies on the Telegram tab only. The page renders the controls that
  call `startPosting` on that tab only (client/src/Instance.jsx:326-337),
  so the unguarded path is never taken from the page itself.
- **`.mp4` case.** The client picks a `.mp4` medium case-sensitively.
  The server tests the suffix case-insensitively.

Where the code has a defect, the model departs from it. The five defects
are listed under "## Findings". Each has a member that does what the code
does, with a lemma that shows the defect, and a corrected member. The
handlers and the page are built on the corrected members:

- the image request (`ImageParams.ImageRequest`) uses the corrected size
  and prompt, and so do the handlers that issue it (`Regenerate`,
  `GenerateFor`, `ImageHttp`, `ImagePress`, `Callback`);
- `Approval.Server.CreatePost` answers a failed direct publish with 500;
- `Client.OnMessage` gives each channel's post its own id;
- `Stream.NewsStream.constructor` falls back to the saved sources for an
  empty `urls` query.

The rows of these members describe the corrected program. "## Left out"
says, for each, what the code as written does instead.

## Model

| member | source | states |
|---|---|---|
| Strings.Split | server/index.js:400 | `split` always yields at least one piece |
| Strings.ReplaceAllIsSplitJoin | server/index.js:447-449 | global literal replacement is the same as splitting at the key and joining with the replacement |
| Strings.ReplaceAllSelf | server/index.js:447-449 | replacing a key by itself changes nothing |
| Strings.ReplaceAllAbsent | server/index.js:442-450 | text without the key is left as it is |
| Strings.SplitHeadIsPrefix | server/index.js:400 | the first piece of a split is a prefix of the input |
| Strings.SplitJoinRoundTrip | server/index.js:400 | joining the pieces with the separator gives the input back, and no piece holds the separator |
| Strings.SplitSingle | server/index.js:1411 | a text without the separator character splits to itself alone |
| Strings.SplitAfterPiece | server/index.js:482 | splitting at a character peels off the text before its first occurrence |
| Strings.JoinPieceAt | server/index.js:483-500 | each piece sits at its running offset in the joined text |
| Strings.JoinSeparatorAfter | server/index.js:483-500 | the separator follows every piece but the last |
| Strings.TrimStart | server/index.js:1040 | the result is a suffix of the input |
| Strings.TrimEnd | server/index.js:1040 | the result is a prefix of the input |
| Strings.TrimStartRemovesLeadingRun | server/index.js:487 | exactly the leading run of white space and line terminators is removed |
| Strings.TrimEndRemovesTrailingRun | server/index.js:487 | exactly the trailing run of white space and line terminators is removed |
| Strings.TrimEmptyIffBlank | server/index.js:1040 | a trimmed text is empty iff every character is white space or a line terminator |
| Strings.Lower | server/index.js:164 | lower-casing keeps the length and maps each character on its own |
| Strings.LowerIdempotent | server/index.js:164 | lower-casing a lower-cased text changes nothing |
| Strings.IndexOf | server/index.js:485 | the index of the first occurrence, or -1 exactly when there is none |
| Strings.IndexFrom | server/index.js:485 | the first occurrence at or after a position, or -1 when there is none |
| Emoji.ApplyCustomEmojis | server/index.js:441-452 | the loop yields the text after every applicable entry, in map order, has wrapped each of its occurrences |
| Emoji.ApplyCustomEmojisWithInfo | server/index.js:454-469 | the loop yields that text together with the keys found at their turn |
| Emoji.Substitute | server/index.js:441-452 | the text after every entry's turn; empty text stays empty |
| Emoji.SubstituteWithInfo | server/index.js:454-469 | at most one key is reported per entry, and empty text comes back with no key reported |
| Emoji.NothingToReplace | server/index.js:441-469 | text in which no applicable key occurs is unchanged, and nothing is reported |
| Emoji.WithInfoSameText | server/index.js:454-469 | the info variant returns the same text as `applyCustomEmojis` |
| Emoji.ReplacedAreMapKeys | server/index.js:459-466 | every reported key is an applicable entry's key, and with distinct keys none is reported twice |
| Emoji.SingleEntryWrapsEveryOccurrence | server/index.js:445-450 | with one entry, every occurrence is wrapped in `<tg-emoji emoji-id="ID">KEY</tg-emoji>` and the text between occurrences is kept |
| Emoji.SubstituteOne | server/index.js:459-466 | one entry whose key occurs wraps it and reports it |
| Emoji.GreetingExample | server/__tests__/emoji.test.js:21-38 | "Hi " plus an emoji mapped to an id gets the emoji wrapped and reports exactly that emoji; the emoji is any key of any length not starting with `H`, `i` or a space, so the test's multi-unit emoji is an instance |
| Emoji.FindEntity | server/index.js:490 | `find` gives the first entity whose offset lies in the line's window after its dash |
| Emoji.ReadLines | server/index.js:484-501 | each line is read at its own running offset |
| Emoji.ReadLineNoKey | server/index.js:485-488 | a line with no dash, or only blanks before it, yields nothing |
| Emoji.ReadLineWithKey | server/index.js:489-492 | a line with a key yields the first custom emoji in its window, if any |
| Emoji.StoreKey | server/index.js:492-498 | the id is stored under the key and, for a shortcode the library resolves to another emoji, under that emoji too |
| Emoji.AddLine | server/index.js:485-500 | one turn of the loop records what the line yields |
| Emoji.EmojiPack | server/index.js:478-503 | every id the pack stores is the id of one of the message's custom emoji |
| Emoji.CollectIds | server/index.js:490-498 | recording the lines in order stores only ids that came from the message's custom emoji |
| Emoji.ParseEmojiPack | server/index.js:478-503 | the loop builds the map of the lines' results, recorded in order |
| Emoji.LineStartsAt | server/index.js:483-500 | the running offset (`line.length + 1` per line) is where each line starts, so the searched window is the part of that line after its dash |
| Emoji.ReadLineUsesFirstEntity | server/index.js:489-492 | a line with a key yields that key with the id of the first custom emoji after the dash and before the line's end |
| Emoji.FirstInWindow | server/index.js:490 | `find` returns the first entity in the window |
| Emoji.NoneInWindow | server/index.js:490 | `find` finds nothing iff no entity lies in the window |
| Emoji.ReadLineSkips | server/index.js:485-491 | a line without a key, or without a custom emoji in its window, yields nothing |
| Emoji.RecordFacts | server/index.js:492-498 | recording keeps every stored key, stores the given key, and touches no key but it and its alias |
| Emoji.CollectKeepsKey | server/index.js:484-501 | a stored key stays stored: later lines may only overwrite its id |
| Emoji.CollectStoresEveryKey | server/index.js:484-501 | every line that yields an entry has its key in the result |
| Emoji.CollectOrigins | server/index.js:484-501 | every key in the result was stored by some line, under its own name or as an alias, with that line's id |
| Emoji.LastLineWins | server/index.js:492 | a key that no later line stores again keeps its line's id |
| Emoji.CollectUntouched | server/index.js:484-501 | lines that neither name a key nor alias to it leave its id alone |
| Emoji.NoDashNoEntries | server/index.js:485-486 | a text without a dash yields an empty pack |
| Emoji.PackExample | server/__tests__/emoji.test.js:40-52 | the test's two-line pack stores `id1` under `:smile:` and its emoji and `id2` under `:heart:` and its emoji, and nothing else |
| Emoji.AllSkipped | server/index.js:484-501 | lines that all yield nothing leave the map as it was |
| Score.DigitRun | server/index.js:1282 | the length of the maximal digit run at a position |
| Score.FirstDigit | server/index.js:1282 | the first digit at or after a position, with no digit before it |
| Score.ReplyScore | server/index.js:1281-1283 | the score is a well-formed non-negative fraction |
| Score.NoMatchIffNoDigit | server/index.js:1282-1283 | there is no match (score 0) iff the reply holds no digit |
| Score.MatchIsLeftmostToken | server/index.js:1282 | the match starts at the first digit and is a `\d+(\.\d+)?` token |
| Score.MatchToken | server/index.js:1282 | the greedy match at a digit is a number token |
| Score.FractionToken | server/index.js:1282 | digits, a dot and digits make a number token |
| Score.MatchIsGreedy | server/index.js:1282 | the match cannot be extended by a digit, nor by a fraction when it has none |
| Score.IntegerReply | server/index.js:1281-1283 | a bare integer reply scores that integer |
| Score.LeadingProseIgnored | server/index.js:1281-1283 | prose before the first digit does not change the score |
| Score.FractionReply | server/index.js:1281-1283 | a reply `<digits>.<digits>` scores that decimal fraction |
| Score.FractionWhollyMatched | server/index.js:1282 | such a reply is matched as a whole |
| Score.FractionValue | server/index.js:1283 | `parseFloat` of `a.b` is `ab / 10^len(b)` |
| ImageParams.PromptWithoutTextHasComma | server/index.js:400 | as written, a post without text leaves a comma where its text belongs; the corrected prompt leaves nothing |
| ImageParams.PromptAsWritten | server/index.js:400 | as written: every `{postText}` is replaced by the post's text, or by a comma when it has none |
| ImageParams.Prompt | server/index.js:400 | every `{postText}` is replaced by the post's text, or by nothing when it has none (corrected) |
| ImageParams.PromptFillsPlaceholder | server/index.js:400 | a template without `{postText}` is kept as it is |
| ImageParams.PromptAgreesWithText | server/index.js:400 | the written and the corrected prompt agree when the post has text |
| ImageParams.Quality | server/index.js:402-404 | a known quality is kept, anything else becomes `medium` |
| ImageParams.Size | server/index.js:405-407 | the size is one the model accepts: the requested one when allowed, else `1024x1024` |
| ImageParams.SizeAsWritten | server/index.js:405-407 | as written: always a size of the general list; for a model other than dall-e-2 a listed requested size is kept |
| ImageParams.DallE2SizeIgnored | server/index.js:405-407 | as written, dall-e-2 always gets 1024x1024, although 512x512 is in its list |
| ImageParams.SizeAgreesBeyondDallE2 | server/index.js:405-407 | for every other model the written and the corrected size agree |
| ImageParams.ImageRequest | server/index.js:399-431 | the request keeps the model, fills the prompt, picks an allowed quality and size, and edits exactly when the model takes reference images and the instance has some (corrected size and prompt) |
| ImageParams.ImageUrl | server/index.js:426-430 | the image's URL when it has one, otherwise a PNG data URL of its base64 data, otherwise nothing; a result is never empty |
| ImageParams.GeneratedDataUrlDecodes | server/index.js:417-418 | the data URL made of base64 data is one `decodeDataUrl` accepts, and it yields that data |
| Bot.Deliver | bot/index.js:244-252 | text without media, a video iff the media ends in `.mp4` in any case, a photo otherwise, to the given chat with the given keyboard |
| Bot.CallbackData | bot/index.js:239-241 | a button's data is the action, a colon and the post id |
| Bot.Caption | bot/index.js:243 | the caption is "Approve post to ", the channel, "?", a newline and the post text |
| Bot.ApprovalKeyboard | bot/index.js:238-242 | three buttons whose data are `approve:<id>`, `approve_image:<id>` and `cancel:<id>` |
| Bot.ApprovalRequest | bot/index.js:237-253 | the prompt goes to the approver with this post's three buttons; a message without media, a video for a `.mp4` medium in any case, a photo otherwise, carrying the medium; its text or caption is exactly `Caption(p)` |
| Bot.ApprovalRequestShape | bot/index.js:243 | the prompt's text starts `Approve post to <channel>?\n` and ends with the post's text |
| Bot.LinkMatch | bot/index.js:42 | the leftmost place where `/t\.me\/(.+)/i` matches, or none |
| Bot.IdentifierEnd | bot/index.js:45 | the identifier ends at the first `/`, `?` or line terminator |
| Bot.PlainLinkUnchanged | bot/index.js:42-44 | a link without `t.me/` is used as it is |
| Bot.Identifier | bot/index.js:42-49 | a link without `t.me/` is used as it is; from a link with one, the identifier starts with `@` or `+` |
| Bot.ResolveLink | bot/index.js:41-57 | a link resolves iff its identifier names a known chat; it yields that chat's id and title, and `@` followed by its username exactly when it has one |
| Bot.LinkIdentifierShape | bot/index.js:42-49 | from a `t.me/` link, the identifier is a handle or an invite, with no `/` or `?` |
| Bot.ChannelLinkExample | bot/index.js:42-49 | `https://t.me/<name>/<rest>` resolves through `@<name>` |
| Bot.FirstLinkMatch | bot/index.js:42 | the first position where the pattern matches is the match |
| Bot.IdentifierEndUnique | bot/index.js:45 | the identifier's end is determined by the first separator |
| Bot.ChannelRegistry.constructor | bot/index.js:30-31 | both maps start empty |
| Bot.ChannelRegistry.CollectChannels | bot/index.js:139-145 | the loop keeps exactly the ids that still have an entry, with that entry |
| Bot.ChannelRegistry.ListInstanceChannels | bot/index.js:138-146 | exactly the instance's ids still administered; an unknown instance has none |
| Bot.ChannelRegistry.ListChannels | bot/index.js:132-136 | every administered channel |
| Bot.ChannelRegistry.PersistChannels | bot/index.js:99-113 | writes, for every instance, the same projection `listInstanceChannels` gives, and changes no map |
| Bot.ChannelRegistry.AddChannel | bot/index.js:148-157 | a failed resolution changes nothing; a resolved channel is stored and added to the instance's set (created if absent), and no other instance changes |
| Bot.ChannelRegistry.MyChatMember | bot/index.js:115-130 | non-channels are ignored; admin or creator status stores the channel; any other status removes it if present, else nothing changes |
| Bot.LostChannelNotListed | bot/index.js:138-146 | a channel no longer administered drops out of every instance's list |
| Bot.LastMarker | bot/index.js:178 | the greedy `(.+)` ends at the last `;base64,` marker |
| Bot.DataUrlPayload | bot/index.js:177-181 | a match needs a `data:` prefix, no line terminator and a `;base64,` marker after a non-empty media type; the payload is the suffix that follows the last such marker, and a URL with such a marker matches |
| Bot.DataUrlRoundTrip | bot/index.js:177-181 | a data URL with a media type and a payload gives the payload back |
| Bot.LastMarkerIs | bot/index.js:178 | the last marker is the one the pattern uses |
| Bot.NotDataUrl | bot/index.js:177-179 | a URL not starting `data:` does not match |
| Approval.DirectReplyAsWritten | server/index.js:1078-1085 | as written, a failed direct publish leaves the handler's promise rejected, so the request gets the framework's default 500 (HTML), not the handler's JSON; success answers 200 |
| Approval.DirectReply | server/index.js:1078-1085 | success answers 200; a failed publish answers 500 |
| Approval.Names | server/index.js:162-166 | an instance with an array contributes each name lower-cased; one without contributes none |
| Approval.AddAllSpec | server/index.js:161-167 | the insertion-ordered set keeps what it had, gains exactly the new names, and holds no duplicate |
| Approval.StoreApprovers | server/index.js:159-170 | the store's list holds every lower-cased instance approver exactly once |
| Approval.InstanceApproverListed | server/index.js:159-170 | a name on any instance's list is, lower-cased, on the store's list |
| Approval.NamesIn | server/index.js:162-166 | a name on an instance's list is, lower-cased, among the instances' names |
| Approval.CollectApprovers | server/index.js:161-167 | the nested loops compute the store's approver list |
| Approval.AddInstance | server/index.js:163-165 | the inner loop adds one instance's names |
| Approval.FindInstance | server/index.js:1059 | the first instance with the id, or none exactly when no instance has it |
| Approval.KeyIndex | server/index.js:326 | the position of an id in the ordered map, or none exactly when it is absent |
| Approval.SetEntry | server/index.js:326 | after `Map.set` the entry is present; the list grows only for a new id |
| Approval.SetEntrySpec | server/index.js:326 | `Map.set` keeps the ids distinct, stores the name, keeps other entries in place, and appends only a new id |
| Approval.Targets | server/index.js:1061-1064 | at most one target per active approver |
| Approval.TargetsSpec | server/index.js:1061-1064 | an id is a target iff its active entry's name is eligible |
| Approval.TargetsDistinct | server/index.js:1061-1064 | no approver is targeted twice |
| Approval.EmptyListNoTargets | server/index.js:1060-1064 | an empty eligible list targets no one |
| Approval.EmptyInstanceListNoTargets | server/index.js:1059-1064 | an instance with an empty approver array offers its posts to no one, however many approvers are active |
| Approval.Requests | server/index.js:1069-1073 | one approval request per target, in order |
| Approval.PostToChannel | server/index.js:1038-1048 | nothing is sent iff there is no media and the emoji-processed text is blank; otherwise the delivery of that text |
| Approval.PublishKind | server/index.js:1043-1047 | a video iff the media ends in `.mp4` in any case, a photo for other media, a message without media |
| Approval.BlankDirectPostUnanswered | server/index.js:1078-1085 | a blank direct post gets the framework's default 500 (HTML) as written, not the handler's JSON error, and the handler's 500 when corrected |
| Approval.CallbackRoundTrip | server/index.js:264-266 | every button's data parses back into its action and id, for a non-empty id without a line terminator |
| Approval.ParseCallback | server/index.js:264-266 | what parses is a non-empty run of `[a-z_]` and a non-empty id without line terminators |
| Approval.KeyboardRoundTrip | server/index.js:264-266 | the three buttons of a prompt parse back to its post id |
| Approval.ParseCallbackSound | server/index.js:264-266 | whatever parses is exactly some button's data: the action, a colon and the id |
| Approval.LineBreakIdNotParsed | server/index.js:264-265 | an id holding a line terminator cannot be acted on through the buttons |
| Approval.Server.constructor | server/index.js:80-116 | no store, no waiting post, no active approver, and the invariant holds |
| Approval.Server.PostInstance | server/index.js:1005-1006 | the instance found belongs to the post's owner |
| Approval.Server.UpdateAllApprovers | server/index.js:83-88 | the global set becomes the union of the stores' lists; nothing else changes |
| Approval.Server.ComputeApprovers | server/index.js:159-170 | the login's list is rebuilt from its instances, and the global set follows |
| Approval.Server.EnsureStore | server/index.js:90-104 | a login gets a store when it has none; the invariant and the global set are kept |
| Approval.Server.AddInstanceApprover | server/index.js:898-911 | 404 without the instance, 400 without a username; otherwise the instance's list becomes the old list (none counts as empty) with the cleaned name appended unless already on it, the store's approver list is rebuilt, and every other instance, every other field, every other login and the image calls are unchanged; a failure changes no store beyond creating an empty one |
| Approval.Server.SetApprovers | server/index.js:905-908 | the login's store becomes `WithApprovers` of the old one: the instance gets the new list, no other instance, field or login changes, and the approver lists are recomputed from the instances |
| Approval.WithApprovers | server/index.js:905-908 | the store with one instance's list replaced keeps its other instances and fields, and its approver list is rebuilt from its instances |
| Approval.Server.RemoveInstanceApprover | server/index.js:913-926 | 404 without the instance, 400 without a username; otherwise, when the cleaned name is on the list, its first occurrence is removed and the store's approver list rebuilt, else nothing changes; every other instance, field, login and the image calls are unchanged |
| Approval.Server.AddTgSource | server/index.js:1113-1122 | 400 iff the url is missing; otherwise it is appended unless listed; the store's other fields, every other login and the image calls are unchanged |
| Approval.Server.RemoveTgSource | server/index.js:1124-1134 | 400 iff the url is missing; otherwise its first occurrence is removed; the store's other fields, every other login and the image calls are unchanged |
| Approval.Server.StartApproving | server/index.js:322-331 | an approver becomes active and is told so; anyone else is told they are not an approver; the stores, the approver set, the waiting posts and the image calls are unchanged |
| Approval.EligibleNames | server/index.js:1059 | an instance's own list, when it has one, is exactly the names its posts go to; without the instance, or for an instance without a list, every approver; no other name |
| Approval.Decorate | server/index.js:1070-1071 | the text sent for approval is the text with custom emoji substituted, followed, when some emoji were replaced, by a line `Replaced: ` listing them joined with `, ` |
| Approval.CleanName | server/index.js:904 | the cleaned name is the username without one leading `@`, each character lower-cased, so it is lower-case |
| Approval.Server.EligibleTargets | server/index.js:1061-1064 | the loop collects the eligible active approvers in map order |
| Approval.Server.SendApprovalRequests | server/index.js:1069-1073 | one request per target is appended, and nothing else changes |
| Approval.Server.Publish | server/index.js:1038-1048 | publishing appends the delivery when there is one, and succeeds iff there is one and Telegram accepts it |
| Approval.Server.CreatePost | server/index.js:1050-1086 | 400 without a channel, without text and media, or without active approvers; otherwise exactly one post waits under its id with one request per target, or with no target it is published directly (corrected program: a failed direct publish answers 500) |
| Approval.Server.ApproveHttp | server/index.js:984-996 | 404 on an unknown id; otherwise the post is removed before publishing, and the answer is 200 iff publishing worked, else 500 |
| Approval.Server.CancelHttp | server/index.js:1030-1036 | 404 on an unknown id; otherwise the post is removed |
| Approval.Server.Regenerate | server/index.js:1011-1022 | one image request is issued (corrected size and prompt); on an answer only the post's media changes and the eligible approvers are asked again; on a failure nothing else changes |
| Approval.Server.ImageHttp | server/index.js:998-1028 | 404 on an unknown id; quality and size are stored on the instance (500 without one); one image request with the body's model and prompt first and the stored quality and size (corrected size and prompt); 200 with the media replaced and the eligible approvers asked again, or 500 with the post and the bot calls unchanged; the post is never removed |
| Approval.Server.StorePostSettings | server/index.js:1005-1010 | the settings of the post's own instance are replaced, and the post still finds that instance |
| Approval.Server.GenerateFor | server/index.js:1007-1011 | the image call takes the body's model and prompt before the instance's and the defaults, the post's text and the instance's quality and size (corrected size and prompt); success replaces the media and asks the eligible approvers again, failure changes nothing else |
| Approval.Server.StoreSettings | server/index.js:1009-1010 | only the instance's image settings change; the approver lists are untouched |
| Approval.Server.Callback | server/index.js:263-320 | unparsable data changes nothing; approve and cancel act as the button says; approve_image on a waiting post deletes the prompt, tells the presser, issues the instance's image request (corrected size and prompt) and either replaces the media and asks the eligible approvers again or reports the failure; approve_image on an unknown post changes nothing |
| Approval.Server.ButtonPress | server/index.js:267-319 | approve removes, publishes and answers; cancel removes and answers; the prompt is deleted in every case |
| Approval.Server.ImagePress | server/index.js:278-309 | the prompt is deleted and the presser told; one image request with the instance's settings (corrected size and prompt); on success the media is replaced and the eligible approvers asked again; on failure the presser is told |
| Approval.Server.Evaluate | server/index.js:1264-1297 | 404, 400 or 500 in the source's order; otherwise the reply's score, and no post is removed or changed |
| Approval.Requested | server/index.js:1009-1010 | a quality or size given in the body replaces the instance's; every other setting is kept |
| Approval.RemoveFirst | server/index.js:920-922 | removing a name that is absent changes nothing; removing one present shortens the list by one |
| Approval.FirstIndex | server/index.js:1128 | `indexOf` gives the first position of the value |
| Approval.RemoveFirstSpec | server/index.js:1128-1130 | `splice(indexOf(x), 1)` keeps everything but the first occurrence, in order |
| Approval.NewStoreAddsNoApprover | server/index.js:90-104 | a new, empty store adds no approver |
| Approval.SameApproversOnOtherChange | server/index.js:83-88 | changing a store without changing its list keeps the global set |
| Approval.SetImageKeepsApprovers | server/index.js:1009-1010 | changing an instance's image settings leaves the instances' approver names unchanged |
| Approval.SameNames | server/index.js:162-166 | instances with the same approver arrays give the same names |
| Approval.ApproverComputed | server/index.js:904-908 | a lower-cased name on an instance's list is in the global set |
| Stream.Urls | server/index.js:1411 | a non-empty query is split at commas; an empty one falls back to the saved sources |
| Stream.UrlsAsWritten | server/index.js:1411 | as written, only a non-empty query yields sources, at least one |
| Stream.IncludeHistory | server/index.js:1412 | history is on unless the query says exactly `false`, and on when absent |
| Stream.EmptyListThrows | server/index.js:1411 | as written, an empty source list cannot be served; the corrected version uses the saved sources |
| Stream.SplitJoinedSources | server/index.js:1411 | the list the client joins comes back whole when no source holds a comma |
| Stream.JoinedSourcesNonEmpty | server/index.js:1411 | a list of non-empty sources makes a non-empty query |
| Stream.UrlSet | server/index.js:1421-1423 | exactly the urls of the items |
| Stream.ItemEvents | server/index.js:1421-1428 | the seen set only grows; at most one event per item, each an item of this source |
| Stream.CycleEvents | server/index.js:1416-1435 | the seen set only grows over a cycle |
| Stream.ItemEventsFresh | server/index.js:1421-1428 | the items' turn writes only unseen urls, each once, only when shown, each from its own source, and marks exactly the items' urls |
| Stream.ItemEventsNew | server/index.js:1421-1428 | a shown turn writes exactly `NewUrls`: the items' urls not seen before and not repeated earlier, in the items' order |
| Stream.TurnFresh | server/index.js:1417-1433 | a source's turn writes fresh items and then exactly its own ping; it marks the scraped urls and, shown, writes exactly their new urls in order |
| Stream.TurnNew | server/index.js:1417-1433 | a turn marks exactly the urls of a successful scrape and, shown, writes exactly their new urls in order |
| Stream.CycleFresh | server/index.js:1416-1435 | over a cycle every written url is new and written once, each source pings once in list order, and nothing is written when items are not shown; the cycle marks exactly the scraped urls and, shown, writes exactly `CycleNewUrls`: source by source, each scrape's new urls in order |
| Stream.CycleWritesFresh | server/index.js:1416-1435 | over a cycle every written url is new and written once, and the pings follow the source list |
| Stream.CycleSeen | server/index.js:1416-1435 | a cycle marks exactly what was seen plus every url of a successful scrape |
| Stream.CycleNew | server/index.js:1416-1435 | a shown cycle writes exactly the new urls of each successful scrape, source by source, in order |
| Stream.CycleKeepsValid | server/index.js:1413-1428 | a cycle appended to a connection's events keeps every written url distinct and seen |
| Stream.NewsStream.constructor | server/index.js:1411-1414 | the sources and history flag are set, nothing is seen, and the first cycle is pending |
| Stream.NewsStream.Cycle | server/index.js:1416-1438 | a cycle appends its events, marks its urls seen, keeps the connection's invariant, and ends the first cycle |
| Stream.NewsStream.SourceTurn | server/index.js:1418-1433 | one source's items, then its ping, even after a failed scrape |
| Stream.NewsStream.SendSource | server/index.js:1421-1428 | the loop over one source's items writes its turn's events |
| Client.RemoveTgUrl | client/src/Instance.jsx:86-88 | removing never lengthens the list |
| Client.AddTgUrl | client/src/Instance.jsx:82-84 | the result lists exactly the old urls and the new one, keeps the old list as its prefix, and grows by one at most; a url already listed leaves the list unchanged |
| Client.AddTgUrlSpec | client/src/Instance.jsx:82-84 | adding keeps the list free of repeats and is idempotent |
| Client.RemoveTgUrlSpec | client/src/Instance.jsx:86-88 | removing drops every occurrence and keeps every other url as often as it was there |
| Client.RemoveTgUrlAppend | client/src/Instance.jsx:86-88 | removing works piece by piece over a concatenation, so the other urls keep their order |
| Client.RemoveUndoesAdd | client/src/Instance.jsx:82-88 | removing undoes adding a new url |
| Client.BaseText | client/src/Instance.jsx:131-133 | on tab `tg` exactly the text (or title), a line break and the url; elsewhere exactly the title in asterisks, a line break and the url |
| Client.PickMedia | client/src/Instance.jsx:134 | the first `.mp4` medium, else the first medium, else none |
| Client.FirstVideo | client/src/Instance.jsx:134 | the first index ending in `.mp4`, or none exactly when there is none |
| Client.UpperCaseVideoNotPicked | client/src/Instance.jsx:134 | a `.MP4` medium after a photo is not picked, though the server would send it as a video |
| Client.Send | client/src/Instance.jsx:135-143 | as written, one request per channel, all with the same id |
| Client.Threshold | client/src/Instance.jsx:153 | the filter's minimum score when it has one, otherwise 7 |
| Client.Passes | client/src/Instance.jsx:155 | a missing score never passes, nor one equal to the threshold |
| Client.JoinUrls | client/src/Instance.jsx:202 | no sources join to the empty query; comma-free sources join to a query the server splits back into the same list |
| Client.PassesIsStrict | client/src/Instance.jsx:154 | a score equal to the threshold fails, a missing score fails, a greater one passes |
| Client.OnMessage | client/src/Instance.jsx:126-187 | the item is prepended to the news; its base text is scored exactly while posting with a filter chosen, and rewritten only while posting with an author chosen; posts go out only while posting and, with a filter, only for a passing score |
| Client.OnMessageSpec | client/src/Instance.jsx:126-187 | posts go out for every channel or none, each to its channel with the picked media, under its own id `postId-<channel>` (corrected program); with no author, the item's text; with an author, the item's text is sent for rewriting and the posts carry the rewritten text, or none go out when the rewrite fails; a failing score sends nothing |
| Client.Connect | client/src/Instance.jsx:118-124 | the page ends connected and is otherwise unchanged; the query is opened exactly when no stream was open |
| Client.ConnectOnce | client/src/Instance.jsx:118-119 | a second connect opens nothing |
| Client.StartScrapingSpec | client/src/Instance.jsx:195-205 | scraping starts iff channels, filter and author are chosen |
| Client.StartScraping | client/src/Instance.jsx:195-205 | a refusal carries the readiness alert; a start turns posting off, sends no post, keeps the rest of the page, and opens the stream on the joined sources only when none is open |
| Client.StartPostingSpec | client/src/Instance.jsx:207-229 | posting starts iff not already posting, confirmed, and (on tab `tg`) ready |
| Client.StartPosting | client/src/Instance.jsx:207-229 | a start turns posting on, tells each channel that posting started, and opens the stream on the joined sources only when none is open |
| Client.StartPostingOffTgUnguarded | client/src/Instance.jsx:211-214 | in `startPosting`'s own text, off the Telegram tab posting starts even with no channel; the page only offers it on that tab |
| Client.StreamGetsSources | client/src/Instance.jsx:201-203 | the stream scrapes exactly the page's sources, or the saved ones when the page has none (corrected program) |
| Client.ReceivedAll | server/index.js:1052-1067 | one server post per request |
| Client.QueueSameId | server/index.js:1068 | posts sharing an id leave only the last one waiting |
| Client.TwoChannelsOnePost | client/src/Instance.jsx:135-143 | as written, with two channels only the second channel's post waits for approval |
| Client.SendPerChannel | client/src/Instance.jsx:135-143 | one request per channel, each under an id of its own |
| Client.QueueDistinctIds | server/index.js:1068 | posts with distinct ids all wait, each under its own id |
| Client.QueueKeeps | server/index.js:1068 | an id no later post uses keeps its entry |
| Client.EveryChannelWaits | client/src/Instance.jsx:135-143 | with an id per channel, every selected channel's post waits for approval |

## Left out

- **Network and I/O.** Telegram, OpenAI, the scrapers and the database are not called. Their answers are parameters, and bot calls are values in `outbox`.
- **Clock and random ids.** Random post ids (`Date.now()` and `Math.random()`) are a parameter (`freshId`, `postId`).
- **Authentication and plumbing.** Express routing, authentication, CORS, logging, SSE headers and `EventEmitter` fan-out are plumbing.
- **Read-only handlers.** The GET handlers that only return state (`/api/instances/:id/approvers`, `/api/tg-sources`, `/api/awaiting`) are not modelled. The instance, filter and author CRUD handlers and user management are also left out.
- Approval.Server.EnsureStore: a store created by `getStore` starts empty. Loading the user's saved data from the database is not modelled.
- **Interleaving across `await`s.** Each handler is atomic. So the model does not capture how `generateImage`'s re-insert of the post (server/index.js:415, 426) can revive a post cancelled during generation. Likewise, the client's `onmessage` chain reads the current channels, filters and author when the scoring and rewriting answers arrive (client/src/Instance.jsx:136, 153, 156), while `Client.OnMessage` uses one snapshot of the page.
- **Timers.** The `setInterval` timer is a sequence of `Cycle` calls. Closing the connection is not modelled.
- **Ping time and log events.** A ping carries its source but not its time. Log events are not modelled.
- Approval.Server.Evaluate: the model's reply is a parameter, so a failed chat-completion call (the 500 of the `catch`) is not modelled. Token counting and the echoed content are not modelled either.
- Score.ReplyScore: `parseFloat` is modelled as an exact fraction, not a double. Rounding of very long numbers is not modelled.
- Client.Threshold: the filter's `min_score` is taken as given. Its parsing (a float) is not modelled, and a negative minimum is not representable.
- **Characters beyond the Basic Multilingual Plane.** A text is a sequence of Unicode characters, while JavaScript counts UTF-16 code units, so a character such as most emoji has length 1 here and 2 in the source. Search, replacement and splitting agree either way. Lengths, and the entity offsets `parseEmojiPack` compares (server/index.js:489-490), agree only for lines within the Basic Multilingual Plane.
- Strings.Lower: only ASCII letters are lower-cased. `toLowerCase` also folds other scripts.
- Emoji.ApplyCustomEmojis: a `$` pattern (`$&`, `$1`, …) in a key or id is copied literally. `String.prototype.replace` would expand it.
- Emoji.ParseEmojiPack: the emoji library's shortcode lookup (`emoji.get`) is a given map from shortcodes to emoji.
- **Emoji map order.** The order of `Object.entries` over the emoji map is the order of the given sequence.
- Bot.ChannelRegistry.AddChannel: `getChat` is a lookup in a given map of chats. A failed lookup is a failed resolution.
- **Channel loading.** `loadChannels` (bot/index.js:59-97) is not modelled. Neither is the bot's text wrapper around `sendMessage`.
- **Data-URL decoding.** The base64 decoding in `decodeDataUrl` and the download of `http` media in `sendPhoto` are not modelled. Only the pattern match is.
- **Rewrite replies.** A rewrite reply without a `text` field is a missing text (`Rewritten(None)`). The request then carries no text, as in the source.
- ImageParams.ImageRequest: built on the corrected `Size` and `Prompt`. As written (server/index.js:400-407), dall-e-2 always gets 1024x1024 (`SizeAsWritten`), and a post without text gets a comma in place of `{postText}` (`PromptAsWritten`).
- Approval.Server.Regenerate: its image request is the corrected `ImageRequest`; the request the code sends differs for dall-e-2 sizes and for posts without text.
- Approval.Server.GenerateFor: its image request is the corrected `ImageRequest`, as for `Regenerate`.
- Approval.Server.ImageHttp: its image request is the corrected `ImageRequest`, as for `Regenerate`.
- Approval.Server.ImagePress: its image request is the corrected `ImageRequest`, as for `Regenerate`.
- Approval.Server.Callback: on `approve_image`, its image request is the corrected `ImageRequest`, as for `Regenerate`.
- Approval.Server.CreatePost: a failed direct publish answers 500 (`DirectReply`). As written, the `catch` at server/index.js:1083 throws, so the request is answered by the framework's default 500 (HTML), not by the handler's JSON, and nothing is logged (`DirectReplyAsWritten`, `BlankDirectPostUnanswered`).
- Client.OnMessage: each channel's request carries `postId-<channel>` (`SendPerChannel`). As written (client/src/Instance.jsx:140), every channel's request carries the same `postId` (`Send`), and the server keeps only the last one waiting (`TwoChannelsOnePost`).
- Client.OnMessageSpec: states the per-channel ids of the corrected `OnMessage`, not the shared `postId` of client/src/Instance.jsx:140.
- Stream.NewsStream.constructor: an empty `urls` query falls back to the saved sources (`Urls`). As written, server/index.js:1411 throws (`UrlsAsWritten`, `EmptyListThrows`).
- Client.StreamGetsSources: the saved-sources case is the corrected `Urls`. As written, a page with no sources gets no stream (`EmptyListThrows`).
- **Client rendering.** The client's React rendering, its other components and its persistence of settings (`PUT /api/instances/:id`) are not modelled.

## Findings

| source | as written | input that shows it | evidently intended | confidence | as-written member | corrected member |
|---|---|---|---|---|---|---|
| server/index.js:405-407 | dall-e-2 sizes are checked against their own list, then against the general list, which lacks 256x256 and 512x512 | model `dall-e-2`, size `512x512`: the request asks for 1024x1024 | each model's size checked against its own list | not executed; high | ImageParams.DallE2SizeIgnored | ImageParams.Size |
| server/index.js:400 | `join(text)` with an undefined text joins with a comma | a post with only media and the template `{postText}`: the prompt is `,` | the placeholder replaced by nothing | not executed; high | ImageParams.PromptWithoutTextHasComma | ImageParams.Prompt |
| server/index.js:1083 | the `catch` reads `instanceId`, which is declared inside the `try` block, so the `catch` itself throws | a post with blank text and no media, no eligible approver: `postToChannel` rejects, the rejection escapes the handler, and the request gets the framework's default 500 (HTML) instead of the handler's JSON 500 | log the failure and answer `{ error }` with 500 | not executed; high | Approval.BlankDirectPostUnanswered | Approval.DirectReply |
| server/index.js:1411 | without a `urls` query the handler falls back to `tgSources`, a name not bound in its scope | a page with no sources sends `urls=` (empty): the handler throws | fall back to the user's saved sources | not executed; high | Stream.EmptyListThrows | Stream.Urls |
| client/src/Instance.jsx:135-143 | every channel's request carries the same `postId`, and the server keys waiting posts by id | two channels `@a` and `@b`: the second request replaces the first waiting post | one waiting post per channel | not executed; medium | Client.TwoChannelsOnePost | Client.SendPerChannel |
