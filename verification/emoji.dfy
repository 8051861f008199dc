/** The custom-emoji transforms of the server: substituting Telegram custom
    emoji into outgoing text (server/index.js `applyCustomEmojis`,
    `applyCustomEmojisWithInfo`) and reading an emoji pack sent to the bot
    (`parseEmojiPack`). */
module Emoji {
  import opened Strings

  /** A store's emoji map as `Object.entries` lists it: (literal emoji,
      custom emoji id) pairs in iteration order. */
  type Entries = seq<(Text, Text)>

  /** The markup that replaces one occurrence of `key`. */
  function Wrap(key: Text, id: Text): Text {
    "<tg-emoji emoji-id=\"" + id + "\">" + key + "</tg-emoji>"
  }

  /** Entries with an empty key or an empty id are skipped. */
  predicate Applies(e: (Text, Text)) {
    |e.0| > 0 && |e.1| > 0
  }

  /** One turn of the substitution loop. */
  function Step(text: Text, e: (Text, Text)): Text {
    if Applies(e) then ReplaceAll(text, e.0, Wrap(e.0, e.1)) else text
  }

  /** The text after every entry has had its turn, in map order; each turn
      works on the text the previous turns produced. */
  function Substitute(text: Text, entries: Entries): (r: Text)
    ensures |text| == 0 ==> r == text
    decreases |entries|
  {
    if |entries| == 0 then text else Substitute(Step(text, entries[0]), entries[1..])
  }

  /** The text and the keys that were found, as `applyCustomEmojisWithInfo`
      reports them: a key is listed when it occurs in the text at its turn. */
  function SubstituteWithInfo(text: Text, entries: Entries): (r: (Text, seq<Text>))
    ensures |r.1| <= |entries|
    ensures |text| == 0 ==> r == (text, [])
    decreases |entries|
  {
    if |entries| == 0 then (text, [])
    else
      var e := entries[0];
      if Applies(e) && Contains(text, e.0) then
        var rest := SubstituteWithInfo(ReplaceAll(text, e.0, Wrap(e.0, e.1)), entries[1..]);
        (rest.0, [e.0] + rest.1)
      else SubstituteWithInfo(text, entries[1..])
  }

  predicate NoKeyOccurs(text: Text, entries: Entries) {
    forall i :: 0 <= i < |entries| && Applies(entries[i]) ==> !Contains(text, entries[i].0)
  }

  predicate DistinctKeys(entries: Entries) {
    forall i, j :: 0 <= i < j < |entries| ==> entries[i].0 != entries[j].0
  }

  // -----------------------------------------------------------------------
  // The two loops of the source
  // -----------------------------------------------------------------------

  /** `applyCustomEmojis(text, login)` with `entries` the login's emoji map
      (an empty map when there is no login). */
  method ApplyCustomEmojis(text: Text, entries: Entries) returns (result: Text)
    ensures result == Substitute(text, entries)
  {
    if |text| == 0 {
      return text;
    }
    result := text;
    var i := 0;
    while i < |entries|
      invariant 0 <= i <= |entries|
      invariant Substitute(result, entries[i..]) == Substitute(text, entries)
    {
      assert entries[i..][1..] == entries[i + 1..];
      var (key, id) := entries[i];
      if |key| > 0 && |id| > 0 {
        result := ReplaceAll(result, key, Wrap(key, id));
      }
      i := i + 1;
    }
  }

  /** `applyCustomEmojisWithInfo(text, login)`. */
  method ApplyCustomEmojisWithInfo(text: Text, entries: Entries) returns (result: Text, replaced: seq<Text>)
    ensures (result, replaced) == SubstituteWithInfo(text, entries)
  {
    if |text| == 0 {
      NothingToReplace(text, entries);
      return text, [];
    }
    result, replaced := text, [];
    var i := 0;
    assert entries[0..] == entries;
    assert [] + SubstituteWithInfo(text, entries).1 == SubstituteWithInfo(text, entries).1;
    while i < |entries|
      invariant 0 <= i <= |entries|
      invariant var r := SubstituteWithInfo(result, entries[i..]);
        (r.0, replaced + r.1) == SubstituteWithInfo(text, entries)
    {
      assert entries[i..][1..] == entries[i + 1..];
      var (key, id) := entries[i];
      if |key| > 0 && |id| > 0 && Contains(result, key) {
        var r := SubstituteWithInfo(ReplaceAll(result, key, Wrap(key, id)), entries[i + 1..]);
        assert replaced + ([key] + r.1) == (replaced + [key]) + r.1;
        result := ReplaceAll(result, key, Wrap(key, id));
        replaced := replaced + [key];
      }
      i := i + 1;
    }
    assert replaced + [] == replaced;
  }

  // -----------------------------------------------------------------------
  // Properties
  // -----------------------------------------------------------------------

  /** Text in which no mapped key occurs comes back unchanged, with nothing
      reported. */
  lemma {:induction false} NothingToReplace(text: Text, entries: Entries)
    requires NoKeyOccurs(text, entries) || |text| == 0
    ensures Substitute(text, entries) == text
    ensures SubstituteWithInfo(text, entries) == (text, [])
    decreases |entries|
  {
    if |entries| > 0 {
      var e := entries[0];
      if Applies(e) {
        assert !Contains(text, e.0) by {
          if |text| > 0 { assert Applies(entries[0]); }
        }
        ReplaceAllAbsent(text, e.0, Wrap(e.0, e.1));
      }
      assert NoKeyOccurs(text, entries) ==> NoKeyOccurs(text, entries[1..]) by {
        if NoKeyOccurs(text, entries) {
          forall i | 0 <= i < |entries[1..]| && Applies(entries[1..][i])
            ensures !Contains(text, entries[1..][i].0)
          {
            assert entries[1..][i] == entries[i + 1];
          }
        }
      }
      NothingToReplace(text, entries[1..]);
    }
  }

  /** `applyCustomEmojisWithInfo` returns the same text as
      `applyCustomEmojis`. */
  lemma {:induction false} WithInfoSameText(text: Text, entries: Entries)
    ensures SubstituteWithInfo(text, entries).0 == Substitute(text, entries)
    decreases |entries|
  {
    if |entries| > 0 {
      var e := entries[0];
      if Applies(e) && !Contains(text, e.0) {
        ReplaceAllAbsent(text, e.0, Wrap(e.0, e.1));
      }
      WithInfoSameText(Step(text, e), entries[1..]);
    }
  }

  /** Every reported key belongs to an entry that applies, and when the
      map's keys are distinct (as an object's keys are) no key is reported
      twice. */
  lemma {:induction false} ReplacedAreMapKeys(text: Text, entries: Entries)
    ensures forall k :: k in SubstituteWithInfo(text, entries).1 ==>
      exists i :: 0 <= i < |entries| && entries[i].0 == k && Applies(entries[i])
    ensures DistinctKeys(entries) ==> Distinct(SubstituteWithInfo(text, entries).1)
    decreases |entries|
  {
    if |entries| > 0 {
      var e := entries[0];
      var next := if Applies(e) && Contains(text, e.0) then ReplaceAll(text, e.0, Wrap(e.0, e.1)) else text;
      ReplacedAreMapKeys(next, entries[1..]);
      var rest := SubstituteWithInfo(next, entries[1..]).1;
      forall k | k in rest
        ensures exists i :: 0 <= i < |entries| && entries[i].0 == k && Applies(entries[i])
      {
        var i :| 0 <= i < |entries[1..]| && entries[1..][i].0 == k && Applies(entries[1..][i]);
        assert entries[i + 1] == entries[1..][i];
      }
      if DistinctKeys(entries) {
        assert DistinctKeys(entries[1..]) by {
          forall i, j | 0 <= i < j < |entries[1..]| ensures entries[1..][i].0 != entries[1..][j].0 {
            assert entries[1..][i] == entries[i + 1] && entries[1..][j] == entries[j + 1];
          }
        }
        if Applies(e) && Contains(text, e.0) {
          assert e.0 !in rest by {
            forall k | k in rest ensures k != e.0 {
              var i :| 0 <= i < |entries[1..]| && entries[1..][i].0 == k && Applies(entries[1..][i]);
              assert entries[i + 1].0 != entries[0].0;
            }
          }
          var out := [e.0] + rest;
          forall i, j | 0 <= i < j < |out| ensures out[i] != out[j] {
            if i == 0 {
              assert out[j] == rest[j - 1];
            } else {
              assert out[i] == rest[i - 1] && out[j] == rest[j - 1];
            }
          }
        }
      }
    }
  }

  /** With a single entry, the result is the text cut at every occurrence of
      the key, joined with the wrapped key: each occurrence is wrapped and the
      text between occurrences is kept. */
  lemma SingleEntryWrapsEveryOccurrence(text: Text, key: Text, id: Text)
    requires |key| > 0 && |id| > 0
    ensures Substitute(text, [(key, id)]) == Join(Split(text, key), Wrap(key, id))
    ensures Join(Split(text, key), key) == text
  {
    ReplaceAllIsSplitJoin(text, key, Wrap(key, id));
    SplitJoinRoundTrip(text, key);
  }

  /** "Hi " followed by a key that does not start with one of its
      letters: the key occurs only at the end. */
  lemma ReplaceInGreeting(k: Text, w: Text)
    requires |k| > 0 && k[0] != 'H' && k[0] != 'i' && k[0] != ' '
    ensures ReplaceAll("Hi " + k, k, w) == "Hi " + w
    ensures Contains("Hi " + k, k)
  {
    var s := "Hi " + k;
    assert s[3..] == k && s[3..][|k|..] == [];
    assert IsPrefix(k, s[3..]);
    assert ReplaceAll(s[3..], k, w) == w + ReplaceAll([], k, w) == w;
    assert !IsPrefix(k, s[2..]) && !IsPrefix(k, s[1..]) && !IsPrefix(k, s);
    assert s[2..][0] == ' ' && s[2..][1..] == s[3..];
    assert ReplaceAll(s[2..], k, w) == " " + w;
    assert s[1..][0] == 'i' && s[1..][1..] == s[2..];
    assert ReplaceAll(s[1..], k, w) == "i " + w;
    assert s[0] == 'H';
    assert Contains(s[3..], k);
    assert Contains(s[2..], k);
    assert Contains(s[1..], k);
  }

  lemma SubstituteOne(text: Text, key: Text, id: Text)
    requires |key| > 0 && |id| > 0 && Contains(text, key)
    ensures Substitute(text, [(key, id)]) == ReplaceAll(text, key, Wrap(key, id))
    ensures SubstituteWithInfo(text, [(key, id)]) == (ReplaceAll(text, key, Wrap(key, id)), [key])
  {
    var e := [(key, id)];
    var t := ReplaceAll(text, key, Wrap(key, id));
    assert e[0] == (key, id) && e[1..] == [];
    assert SubstituteWithInfo(t, e[1..]) == (t, []);
    assert SubstituteWithInfo(text, e) == (t, [key] + []);
    assert [key] + [] == [key];
  }

  /** The example of server/__tests__/emoji.test.js: "Hi " and an emoji mapped to
      an id gets the emoji wrapped and reports it.  The emoji is any key,
      of any length, that does not start with `H`, `i` or a space. */
  lemma GreetingExample(key: Text, id: Text)
    requires |key| > 0 && key[0] != 'H' && key[0] != 'i' && key[0] != ' ' && |id| > 0
    ensures Substitute("Hi " + key, [(key, id)]) == "Hi " + Wrap(key, id)
    ensures SubstituteWithInfo("Hi " + key, [(key, id)]).1 == [key]
  {
    ReplaceInGreeting(key, Wrap(key, id));
    SubstituteOne("Hi " + key, key, id);
  }

  // -----------------------------------------------------------------------
  // Reading an emoji pack: lines "<emoji or :alias:> - <custom emoji>"
  // -----------------------------------------------------------------------

  /** The `type` of a message entity: `custom_emoji` or any other. */
  datatype EntityKind = CustomEmoji | OtherKind(name: Text)

  /** A message entity: its type, its offset in UTF-16 code units and, for
      a custom emoji, the id Telegram gives it. */
  datatype Entity = Entity(kind: EntityKind, offset: int, customEmojiId: Text)

  /** What one line yields: nothing, or the key it defines and the id of
      the custom emoji that follows its dash. */
  datatype LineResult = Skip | Found(key: Text, id: Text)

  /** The entity a line may use: a custom emoji starting in `[lo, hi)`. */
  predicate InWindow(e: Entity, lo: int, hi: int) {
    e.kind == CustomEmoji && lo <= e.offset < hi
  }

  /** `entities.find(...)`: the index of the first entity in the window. */
  function FindEntity(entities: seq<Entity>, lo: int, hi: int): (r: Option<nat>)
    ensures r.Some? ==> r.value < |entities| && InWindow(entities[r.value], lo, hi)
    decreases |entities|
  {
    if |entities| == 0 then None
    else if InWindow(entities[0], lo, hi) then Some(0)
    else
      match FindEntity(entities[1..], lo, hi)
      case None => None
      case Some(j) => Some(j + 1)
  }

  /** The text left of a line's first dash, trimmed, when it is not empty:
      the key the line defines. */
  function LineKey(line: Text): Option<Text> {
    var dash := IndexOf(line, '-');
    if dash == -1 then None
    else
      var regular := Trim(line[..dash]);
      if |regular| == 0 then None else Some(regular)
  }

  /** What the line that starts at `start` of the text yields: its key and
      the first custom emoji after its dash and before its end. */
  function ReadLine(line: Text, start: int, entities: seq<Entity>): LineResult {
    match LineKey(line)
    case None => Skip
    case Some(regular) =>
      match FindEntity(entities, start + IndexOf(line, '-') + 1, start + |line|)
      case None => Skip
      case Some(j) => Found(regular, entities[j].customEmojiId)
  }

  /** What each line of the text yields, each read at its own offset. */
  function ReadLines(lines: seq<Text>, entities: seq<Entity>): (r: seq<LineResult>)
    ensures |r| == |lines|
    ensures forall i :: 0 <= i < |lines| ==> r[i] == ReadLine(lines[i], Offset(lines, 1, i), entities)
  {
    seq(|lines|, i requires 0 <= i < |lines| => ReadLine(lines[i], Offset(lines, 1, i), entities))
  }

  /** The emoji library's lookup of a `:name:` shortcode: the emoji it
      stands for, when the library knows the name. */
  function Lookup(aliases: map<Text, Text>, name: Text): Option<Text> {
    if name in aliases then Some(aliases[name]) else None
  }

  /** `regular.startsWith(':') && regular.endsWith(':')`. */
  predicate IsShortcode(regular: Text) {
    IsPrefix(":", regular) && IsSuffix(":", regular)
  }

  /** The emoji a shortcode key also stores its id under, if any. */
  function AliasTarget(regular: Text, aliases: map<Text, Text>): Option<Text> {
    if IsShortcode(regular) && Lookup(aliases, regular).Some?
       && |Lookup(aliases, regular).value| > 0 && Lookup(aliases, regular).value != regular
    then Lookup(aliases, regular)
    else None
  }

  /** Records what a line yields: `id` under the key and, for a shortcode
      the emoji library knows, under the emoji it stands for as well. */
  function Record(acc: map<Text, Text>, r: LineResult, aliases: map<Text, Text>): map<Text, Text> {
    match r
    case Skip => acc
    case Found(regular, id) =>
      match AliasTarget(regular, aliases)
      case None => acc[regular := id]
      case Some(actual) => acc[regular := id][actual := id]
  }

  /** The map after recording the results in order. */
  function Collect(results: seq<LineResult>, aliases: map<Text, Text>, acc: map<Text, Text>): map<Text, Text>
    decreases |results|
  {
    if |results| == 0 then acc
    else Collect(results[1..], aliases, Record(acc, results[0], aliases))
  }

  /** The map `parseEmojiPack` returns for a message. */
  function EmojiPack(text: Text, entities: seq<Entity>, aliases: map<Text, Text>): (pack: map<Text, Text>)
    ensures forall key :: key in pack ==> IsCustomId(entities, pack[key])
  {
    var results := ReadLines(Split(text, "\n"), entities);
    CollectIds(results, aliases, map[], entities);
    Collect(results, aliases, map[])
  }

  /** `id` is the id of one of the message's custom emoji. */
  predicate IsCustomId(entities: seq<Entity>, id: Text) {
    exists j :: 0 <= j < |entities| && entities[j].kind == CustomEmoji && entities[j].customEmojiId == id
  }

  /** Every id the pack stores comes from a custom emoji of the message. */
  lemma {:induction false} CollectIds(results: seq<LineResult>, aliases: map<Text, Text>, acc: map<Text, Text>, entities: seq<Entity>)
    requires forall i :: 0 <= i < |results| ==> results[i] == Skip || IsCustomId(entities, results[i].id)
    requires forall key :: key in acc ==> IsCustomId(entities, acc[key])
    ensures forall key :: key in Collect(results, aliases, acc) ==> IsCustomId(entities, Collect(results, aliases, acc)[key])
    decreases |results|
  {
    if |results| > 0 {
      var next := Record(acc, results[0], aliases);
      assert forall key :: key in next ==> IsCustomId(entities, next[key]);
      assert forall i :: 0 <= i < |results[1..]| ==> results[1..][i] == results[i + 1];
      CollectIds(results[1..], aliases, next, entities);
    }
  }

  /** A line with no dash, or nothing but blanks before it, yields nothing. */
  lemma ReadLineNoKey(line: Text, start: int, entities: seq<Entity>, dash: int)
    requires dash == IndexOf(line, '-')
    requires dash == -1 || |Trim(line[..dash])| == 0
    ensures ReadLine(line, start, entities) == Skip
  {
  }

  /** A line with a key yields the first custom emoji in its window, if any. */
  lemma ReadLineWithKey(line: Text, start: int, entities: seq<Entity>, dash: int, found: Option<nat>)
    requires dash == IndexOf(line, '-') && dash != -1 && |Trim(line[..dash])| > 0
    requires found == FindEntity(entities, start + dash + 1, start + |line|)
    ensures found.Some? ==> ReadLine(line, start, entities) == Found(Trim(line[..dash]), entities[found.value].customEmojiId)
    ensures found.None? ==> ReadLine(line, start, entities) == Skip
  {
    assert LineKey(line) == Some(Trim(line[..dash]));
  }

  /** The store step of `parseEmojiPack`'s loop: `id` under the key and,
      for a shortcode the emoji library resolves, under its emoji too. */
  method StoreKey(acc: map<Text, Text>, regular: Text, id: Text, aliases: map<Text, Text>)
    returns (result: map<Text, Text>)
    ensures result == Record(acc, Found(regular, id), aliases)
  {
    result := acc[regular := id];
    if IsPrefix(":", regular) && IsSuffix(":", regular) {
      var actual := Lookup(aliases, regular);
      if actual.Some? && |actual.value| > 0 && actual.value != regular {
        result := result[actual.value := id];
      }
    }
  }

  /** The body of `parseEmojiPack`'s loop: the map after the line that
      starts at `offset` of the text. */
  method AddLine(acc: map<Text, Text>, line: Text, offset: int, entities: seq<Entity>,
                 aliases: map<Text, Text>) returns (result: map<Text, Text>)
    ensures result == Record(acc, ReadLine(line, offset, entities), aliases)
  {
    result := acc;
    var dash := IndexOf(line, '-');
    if dash == -1 {
      ReadLineNoKey(line, offset, entities, dash);
      return;
    }
    var regular := Trim(line[..dash]);
    if |regular| == 0 {
      ReadLineNoKey(line, offset, entities, dash);
      return;
    }
    var found := FindEntity(entities, offset + dash + 1, offset + |line|);
    ReadLineWithKey(line, offset, entities, dash, found);
    if found.Some? {
      result := StoreKey(acc, regular, entities[found.value].customEmojiId, aliases);
    }
  }

  /** `parseEmojiPack(msg)` with `text` the message text (empty when absent),
      `entities` its entities (empty when absent) and `aliases` the emoji
      library's shortcode table. */
  method ParseEmojiPack(text: Text, entities: seq<Entity>, aliases: map<Text, Text>)
    returns (result: map<Text, Text>)
    ensures result == EmojiPack(text, entities, aliases)
  {
    var lines := Split(text, "\n");
    ghost var results := ReadLines(lines, entities);
    ghost var pack := Collect(results, aliases, map[]);
    assert pack == EmojiPack(text, entities, aliases);
    result := map[];
    var offset := 0;
    var i := 0;
    assert results[0..] == results;
    while i < |lines|
      invariant 0 <= i <= |lines|
      invariant offset == Offset(lines, 1, i)
      invariant Collect(results[i..], aliases, result) == pack
    {
      ReadLineStep(lines, entities, aliases, result, i);
      result := AddLine(result, lines[i], offset, entities, aliases);
      offset := offset + |lines[i]| + 1;
      i := i + 1;
    }
    assert results[i..] == [];
  }

  /** Recording result `i` is one step of `Collect`. */
  lemma CollectStep(results: seq<LineResult>, aliases: map<Text, Text>, acc: map<Text, Text>, i: nat)
    requires i < |results|
    ensures Collect(results[i..], aliases, acc) == Collect(results[i + 1..], aliases, Record(acc, results[i], aliases))
  {
    assert results[i..][1..] == results[i + 1..];
  }

  /** Reading line `i` at its offset is step `i` of collecting the lines'
      results. */
  lemma ReadLineStep(lines: seq<Text>, entities: seq<Entity>, aliases: map<Text, Text>,
                     acc: map<Text, Text>, i: nat)
    requires i < |lines|
    ensures var results := ReadLines(lines, entities);
      Collect(results[i..], aliases, acc)
      == Collect(results[i + 1..], aliases, Record(acc, ReadLine(lines[i], Offset(lines, 1, i), entities), aliases))
  {
    CollectStep(ReadLines(lines, entities), aliases, acc, i);
  }

  /** Piece `i` of `Split(text, k)` sits at its running offset in `text`,
      and `k` follows every piece but the last. */
  lemma {:induction false} SplitPieceAt(text: Text, k: Text, i: nat)
    requires |k| > 0 && i < |Split(text, k)|
    ensures var o := Offset(Split(text, k), |k|, i);
      o + |Split(text, k)[i]| <= |text| && text[o..o + |Split(text, k)[i]|] == Split(text, k)[i]
    ensures var o := Offset(Split(text, k), |k|, i) + |Split(text, k)[i]|;
      i + 1 < |Split(text, k)| ==> o + |k| <= |text| && text[o..o + |k|] == k
  {
    var lines := Split(text, k);
    SplitJoinRoundTrip(text, k);
    JoinPieceAt(lines, k, i);
    if i + 1 < |lines| {
      JoinSeparatorAfter(lines, k, i);
    }
  }

  /** The running offset is where each line starts in the text, and a line
      feed follows every line but the last: the window searched for a line's
      custom emoji is the part of that very line after its dash. */
  lemma LineStartsAt(text: Text, i: nat)
    requires i < |Split(text, "\n")|
    ensures var lines := Split(text, "\n"); var o := Offset(lines, 1, i);
      o + |lines[i]| <= |text| && text[o..o + |lines[i]|] == lines[i]
    ensures var lines := Split(text, "\n"); var o := Offset(lines, 1, i);
      i + 1 < |lines| ==> o + |lines[i]| < |text| && text[o + |lines[i]|] == '\n'
  {
    SplitPieceAt(text, "\n", i);
    var lines := Split(text, "\n");
    var o := Offset(lines, 1, i) + |lines[i]|;
    if i + 1 < |lines| {
      assert text[o..o + 1][0] == text[o];
    }
  }

  // -----------------------------------------------------------------------
  // What the pack holds
  // -----------------------------------------------------------------------

  /** A line with a key yields that key with the id of the first custom
      emoji that starts after its dash and before its end. */
  lemma ReadLineUsesFirstEntity(line: Text, start: int, entities: seq<Entity>, j: nat)
    requires LineKey(line).Some? && j < |entities|
    requires InWindow(entities[j], start + IndexOf(line, '-') + 1, start + |line|)
    requires forall i :: 0 <= i < j ==> !InWindow(entities[i], start + IndexOf(line, '-') + 1, start + |line|)
    ensures ReadLine(line, start, entities) == Found(LineKey(line).value, entities[j].customEmojiId)
  {
    var dash := IndexOf(line, '-');
    FirstInWindow(entities, start + dash + 1, start + |line|, j);
    ReadLineWithKey(line, start, entities, dash, Some(j));
  }

  /** `find` returns the first entity in the window. */
  lemma {:induction false} FirstInWindow(entities: seq<Entity>, lo: int, hi: int, j: nat)
    requires j < |entities| && InWindow(entities[j], lo, hi)
    requires forall i :: 0 <= i < j ==> !InWindow(entities[i], lo, hi)
    ensures FindEntity(entities, lo, hi) == Some(j)
    decreases |entities|
  {
    if j > 0 {
      assert !InWindow(entities[0], lo, hi);
      assert entities[1..][j - 1] == entities[j];
      forall i | 0 <= i < j - 1 ensures !InWindow(entities[1..][i], lo, hi) {
        assert entities[1..][i] == entities[i + 1];
      }
      FirstInWindow(entities[1..], lo, hi, j - 1);
    }
  }

  /** `find` finds nothing exactly when no entity lies in the window. */
  lemma {:induction false} NoneInWindow(entities: seq<Entity>, lo: int, hi: int)
    ensures FindEntity(entities, lo, hi) == None <==>
      forall i :: 0 <= i < |entities| ==> !InWindow(entities[i], lo, hi)
    decreases |entities|
  {
    if |entities| > 0 && !InWindow(entities[0], lo, hi) {
      NoneInWindow(entities[1..], lo, hi);
      if FindEntity(entities[1..], lo, hi) == None {
        forall i | 0 <= i < |entities| ensures !InWindow(entities[i], lo, hi) {
          if i > 0 {
            assert entities[i] == entities[1..][i - 1];
          }
        }
      } else {
        var k := FindEntity(entities[1..], lo, hi).value;
        assert entities[k + 1] == entities[1..][k];
      }
    }
  }

  /** A line without a key, or with no custom emoji after its dash within
      the line, yields nothing. */
  lemma ReadLineSkips(line: Text, start: int, entities: seq<Entity>)
    requires LineKey(line).None? ||
      forall i :: 0 <= i < |entities| ==> !InWindow(entities[i], start + IndexOf(line, '-') + 1, start + |line|)
    ensures ReadLine(line, start, entities) == Skip
  {
    if LineKey(line).Some? {
      NoneInWindow(entities, start + IndexOf(line, '-') + 1, start + |line|);
    }
  }

  /** Recording keeps every key already stored, stores the key it is given,
      and changes no other key than that key and its alias target. */
  lemma RecordFacts(acc: map<Text, Text>, r: LineResult, aliases: map<Text, Text>, k: Text)
    ensures k in acc ==> k in Record(acc, r, aliases)
    ensures r.Found? ==> r.key in Record(acc, r, aliases) && Record(acc, r, aliases)[r.key] == r.id
    ensures k in Record(acc, r, aliases) ==>
      (k in acc && Record(acc, r, aliases)[k] == acc[k]) ||
      (r.Found? && (k == r.key || AliasTarget(r.key, aliases) == Some(k)) && Record(acc, r, aliases)[k] == r.id)
  {
  }

  /** A key once stored stays stored: later lines may only overwrite its id. */
  lemma {:induction false} CollectKeepsKey(results: seq<LineResult>, aliases: map<Text, Text>,
                                           acc: map<Text, Text>, k: Text)
    requires k in acc
    ensures k in Collect(results, aliases, acc)
    decreases |results|
  {
    if |results| > 0 {
      RecordFacts(acc, results[0], aliases, k);
      CollectKeepsKey(results[1..], aliases, Record(acc, results[0], aliases), k);
    }
  }

  /** Every line that yields an entry has its key in the result. */
  lemma {:induction false} CollectStoresEveryKey(results: seq<LineResult>, aliases: map<Text, Text>,
                                                 acc: map<Text, Text>, i: nat)
    requires i < |results| && results[i].Found?
    ensures results[i].key in Collect(results, aliases, acc)
    decreases |results|
  {
    var next := Record(acc, results[0], aliases);
    RecordFacts(acc, results[0], aliases, results[i].key);
    if i == 0 {
      CollectKeepsKey(results[1..], aliases, next, results[0].key);
    } else {
      assert results[1..][i - 1] == results[i];
      CollectStoresEveryKey(results[1..], aliases, next, i - 1);
    }
  }

  /** Every key in the result was stored by some entry, under its own key or
      its alias target, and holds the id of some entry. */
  lemma {:induction false} CollectOrigins(results: seq<LineResult>, aliases: map<Text, Text>,
                                          acc: map<Text, Text>, k: Text)
    requires k in Collect(results, aliases, acc)
    ensures (k in acc && Collect(results, aliases, acc)[k] == acc[k]) ||
      exists i :: 0 <= i < |results| && results[i].Found?
        && (results[i].key == k || AliasTarget(results[i].key, aliases) == Some(k))
        && results[i].id == Collect(results, aliases, acc)[k]
    decreases |results|
  {
    if |results| > 0 {
      var next := Record(acc, results[0], aliases);
      var out := Collect(results, aliases, acc);
      CollectOrigins(results[1..], aliases, next, k);
      if k in next && out[k] == next[k] {
        RecordFacts(acc, results[0], aliases, k);
      } else {
        var i :| 0 <= i < |results[1..]| && results[1..][i].Found?
          && (results[1..][i].key == k || AliasTarget(results[1..][i].key, aliases) == Some(k))
          && results[1..][i].id == out[k];
        assert results[i + 1] == results[1..][i];
      }
    }
  }

  /** Which line stored a key last decides its id: a key that no later line
      stores again keeps the id its line gave it. */
  lemma {:induction false} LastLineWins(results: seq<LineResult>, aliases: map<Text, Text>,
                                        acc: map<Text, Text>, i: nat)
    requires i < |results| && results[i].Found?
    requires forall j :: i < j < |results| && results[j].Found? ==>
      results[j].key != results[i].key && AliasTarget(results[j].key, aliases) != Some(results[i].key)
    ensures results[i].key in Collect(results, aliases, acc)
    ensures Collect(results, aliases, acc)[results[i].key] == results[i].id
    decreases |results|
  {
    var k := results[i].key;
    var next := Record(acc, results[0], aliases);
    if i == 0 {
      RecordFacts(acc, results[0], aliases, k);
      CollectUntouched(results[1..], aliases, next, k);
    } else {
      assert results[1..][i - 1] == results[i];
      forall j | i - 1 < j < |results[1..]| && results[1..][j].Found?
        ensures results[1..][j].key != k && AliasTarget(results[1..][j].key, aliases) != Some(k)
      {
        assert results[1..][j] == results[j + 1];
      }
      LastLineWins(results[1..], aliases, next, i - 1);
    }
  }

  /** Entries that neither name `k` nor alias to it leave `k`'s id alone. */
  lemma {:induction false} CollectUntouched(results: seq<LineResult>, aliases: map<Text, Text>,
                                            acc: map<Text, Text>, k: Text)
    requires k in acc
    requires forall j :: 0 <= j < |results| && results[j].Found? ==>
      results[j].key != k && AliasTarget(results[j].key, aliases) != Some(k)
    ensures k in Collect(results, aliases, acc) && Collect(results, aliases, acc)[k] == acc[k]
    decreases |results|
  {
    if |results| > 0 {
      var next := Record(acc, results[0], aliases);
      RecordFacts(acc, results[0], aliases, k);
      forall j | 0 <= j < |results[1..]| && results[1..][j].Found?
        ensures results[1..][j].key != k && AliasTarget(results[1..][j].key, aliases) != Some(k)
      {
        assert results[1..][j] == results[j + 1];
      }
      CollectUntouched(results[1..], aliases, next, k);
    }
  }

  /** A text without a dash yields an empty pack. */
  lemma NoDashNoEntries(text: Text, entities: seq<Entity>, aliases: map<Text, Text>)
    requires '-' !in text
    ensures EmojiPack(text, entities, aliases) == map[]
  {
    var lines := Split(text, "\n");
    var results := ReadLines(lines, entities);
    forall i | 0 <= i < |lines| ensures results[i] == Skip {
      NoDashLine(text, i);
      ReadLineNoKey(lines[i], Offset(lines, 1, i), entities, -1);
    }
    AllSkipped(results, aliases, map[]);
  }

  /** A line of a text without a dash has none either. */
  lemma NoDashLine(text: Text, i: nat)
    requires '-' !in text && i < |Split(text, "\n")|
    ensures IndexOf(Split(text, "\n")[i], '-') == -1
  {
    var lines := Split(text, "\n");
    SplitPieceAt(text, "\n", i);
    var o := Offset(lines, 1, i);
    assert lines[i] == text[o..o + |lines[i]|];
    assert '-' !in lines[i];
  }

  /** The example of server/__tests__/emoji.test.js: two lines, each a shortcode, a
      dash and a custom emoji (at offsets 10 and 22), store each id under
      its shortcode and under the emoji the shortcode stands for. */
  lemma PackExample(text: Text, smile: Text, heart: Text, aliases: map<Text, Text>)
    requires text == ":smile: - a\n:heart: - b"
    requires ":smile:" in aliases && aliases[":smile:"] == smile && |smile| > 0
    requires ":heart:" in aliases && aliases[":heart:"] == heart && |heart| > 0
    requires smile != ":smile:" && smile != ":heart:" && smile != heart
    requires heart != ":smile:" && heart != ":heart:"
    ensures EmojiPack(text, PackEntities(), aliases)
            == map[":smile:" := "id1", smile := "id1", ":heart:" := "id2", heart := "id2"]
  {
    var lines := PackSplit(text);
    assert PackKey(":smile:") && PackKey(":heart:");
    PackLineKey(":smile:", 'a');
    PackLineKey(":heart:", 'b');
    PackLines(lines[0], ":smile:", lines[1], ":heart:");
    PackCollect(smile, heart, aliases);
  }

  /** A key of the test's shape: seven characters, no dash, no blank at
      either end. */
  predicate PackKey(key: Text) {
    |key| == 7 && '-' !in key && !IsTrimmable(key[0]) && !IsTrimmable(key[6])
  }

  /** The entities of that test message. */
  function PackEntities(): seq<Entity> {
    [Entity(CustomEmoji, 10, "id1"), Entity(CustomEmoji, 22, "id2")]
  }

  /** What its lines yield: two lines of eleven characters, each with its
      dash at 8, yield their keys with the ids of the two custom emoji. */
  lemma PackLines(l1: Text, k1: Text, l2: Text, k2: Text)
    requires |l1| == 11 && IndexOf(l1, '-') == 8 && LineKey(l1) == Some(k1)
    requires |l2| == 11 && IndexOf(l2, '-') == 8 && LineKey(l2) == Some(k2)
    ensures ReadLines([l1, l2], PackEntities()) == [Found(k1, "id1"), Found(k2, "id2")]
  {
    var e := PackEntities();
    TwoLines(l1, l2, e);
    ReadLineUsesFirstEntity(l1, 0, e, 0);
    assert !InWindow(e[0], 21, 23);
    ReadLineUsesFirstEntity(l2, 12, e, 1);
  }

  /** The second of two lines starts after the first and its line feed. */
  lemma TwoLines(l1: Text, l2: Text, e: seq<Entity>)
    ensures ReadLines([l1, l2], e) == [ReadLine(l1, 0, e), ReadLine(l2, |l1| + 1, e)]
  {
    assert Offset([l1, l2], 1, 1) == |l1| + 1;
  }

  /** The two lines of the test message. */
  lemma PackSplit(text: Text) returns (lines: seq<Text>)
    requires text == ":smile: - a\n:heart: - b"
    ensures lines == Split(text, "\n")
    ensures lines == [":smile:" + " - " + ['a'], ":heart:" + " - " + ['b']]
  {
    var l1, l2 := ":smile:" + " - " + ['a'], ":heart:" + " - " + ['b'];
    assert text == l1 + ['\n'] + l2;
    assert '\n' !in l1 && '\n' !in l2;
    SplitSingle(l2, '\n');
    SplitAfterPiece(l1, '\n', l2);
    lines := [l1, l2];
  }

  /** The map those results build. */
  lemma PackCollect(smile: Text, heart: Text, aliases: map<Text, Text>)
    requires ":smile:" in aliases && aliases[":smile:"] == smile && |smile| > 0
    requires ":heart:" in aliases && aliases[":heart:"] == heart && |heart| > 0
    requires smile != ":smile:" && smile != ":heart:" && smile != heart
    requires heart != ":smile:" && heart != ":heart:"
    ensures Collect([Found(":smile:", "id1"), Found(":heart:", "id2")], aliases, map[])
            == map[":smile:" := "id1", smile := "id1", ":heart:" := "id2", heart := "id2"]
  {
    var results := [Found(":smile:", "id1"), Found(":heart:", "id2")];
    assert IsShortcode(":smile:") && IsShortcode(":heart:");
    var m1 := map[":smile:" := "id1", smile := "id1"];
    assert Record(map[], results[0], aliases) == m1;
    assert Record(m1, results[1], aliases) == m1[":heart:" := "id2"][heart := "id2"];
    assert results[1..][1..] == [];
  }

  /** A line `<key> - <c>` of a seven-character key has its dash at 8 and
      defines that key. */
  lemma PackLineKey(key: Text, c: char)
    requires PackKey(key)
    ensures IndexOf(key + " - " + [c], '-') == 8 && LineKey(key + " - " + [c]) == Some(key)
  {
    var line := key + " - " + [c];
    assert line[..8] == key + " ";
    assert line[8] == '-';
    forall k | 0 <= k < 8 ensures line[k] != '-' {
      if k < 7 { assert line[k] == key[k]; }
    }
    var s := key + " ";
    assert TrimStart(s) == s;
    assert s[..|s| - 1] == key;
    assert TrimEnd(s) == TrimEnd(key) == key;
  }

  lemma {:induction false} AllSkipped(results: seq<LineResult>, aliases: map<Text, Text>, acc: map<Text, Text>)
    requires forall i :: 0 <= i < |results| ==> results[i] == Skip
    ensures Collect(results, aliases, acc) == acc
    decreases |results|
  {
    if |results| > 0 {
      assert forall i :: 0 <= i < |results[1..]| ==> results[1..][i] == results[i + 1];
      AllSkipped(results[1..], aliases, acc);
    }
  }
}
