/** Text helpers shared by the server, the bot and the client model.
    A JavaScript string is modelled as a `seq<char>`, one element per
    Unicode character.  Within the Basic Multilingual Plane that is one
    element per UTF-16 code unit, as in JavaScript; a character beyond it
    (most emoji) is one element here and a surrogate pair there.  Equality,
    concatenation, search, replacement and splitting agree either way;
    lengths and offsets agree for text within the Basic Multilingual
    Plane. */
module Strings {

  type Text = seq<char>

  datatype Option<T> = None | Some(value: T)

  /** No text occurs twice. */
  predicate Distinct(s: seq<Text>) {
    forall i, j :: 0 <= i < j < |s| ==> s[i] != s[j]
  }

  predicate IsPrefix(p: Text, s: Text) {
    |p| <= |s| && s[..|p|] == p
  }

  predicate IsSuffix(p: Text, s: Text) {
    |p| <= |s| && s[|s| - |p|..] == p
  }

  /** `k` occurs somewhere in `s` (a literal, non-regex search). */
  predicate Contains(s: Text, k: Text)
    decreases |s|
  {
    IsPrefix(k, s) || (|s| > 0 && Contains(s[1..], k))
  }

  // ---------------------------------------------------------------------
  // Literal global replacement, and String.prototype.split / Array.join
  // ---------------------------------------------------------------------

  /** Every occurrence of `k` in `s`, found left to right without overlap,
      replaced by `r`: what `s.replace(/escaped k/g, r)` does when `r`
      holds no `$` pattern. */
  function ReplaceAll(s: Text, k: Text, r: Text): Text
    requires |k| > 0
    decreases |s|
  {
    if |s| == 0 then []
    else if IsPrefix(k, s) then r + ReplaceAll(s[|k|..], k, r)
    else [s[0]] + ReplaceAll(s[1..], k, r)
  }

  /** `s.split(k)` for a non-empty separator string `k`. */
  function Split(s: Text, k: Text): (pieces: seq<Text>)
    requires |k| > 0
    ensures |pieces| >= 1
    decreases |s|
  {
    if |s| == 0 then [[]]
    else if IsPrefix(k, s) then [[]] + Split(s[|k|..], k)
    else
      var rest := Split(s[1..], k);
      [[s[0]] + rest[0]] + rest[1..]
  }

  /** A text without the separator character is a single piece. */
  lemma SplitSingle(p: Text, c: char)
    requires c !in p
    ensures Split(p, [c]) == [p]
    decreases |p|
  {
    if |p| > 0 {
      SplitSingle(p[1..], c);
      assert p == [p[0]] + p[1..];
    }
  }

  /** Splitting at a character peels off the text before its first
      occurrence. */
  lemma {:induction false} SplitAfterPiece(p: Text, c: char, rest: Text)
    requires c !in p
    ensures Split(p + [c] + rest, [c]) == [p] + Split(rest, [c])
    decreases |p|
  {
    var s := p + [c] + rest;
    if |p| == 0 {
      assert s == [c] + rest;
      assert IsPrefix([c], s);
      assert s[1..] == rest;
    } else {
      assert s[0] == p[0] && s[0] != c;
      assert !IsPrefix([c], s);
      assert s[1..] == p[1..] + [c] + rest;
      SplitAfterPiece(p[1..], c, rest);
      assert p == [p[0]] + p[1..];
    }
  }

  /** `pieces.join(sep)`. */
  function Join(pieces: seq<Text>, sep: Text): Text
    requires |pieces| >= 1
    decreases |pieces|
  {
    if |pieces| == 1 then pieces[0] else pieces[0] + sep + Join(pieces[1..], sep)
  }

  /** Replacing every occurrence is splitting at the occurrences and
      joining the pieces with the replacement. */
  lemma {:induction false} ReplaceAllIsSplitJoin(s: Text, k: Text, r: Text)
    requires |k| > 0
    ensures ReplaceAll(s, k, r) == Join(Split(s, k), r)
    decreases |s|
  {
    if |s| == 0 {
    } else if IsPrefix(k, s) {
      ReplaceAllIsSplitJoin(s[|k|..], k, r);
      JoinEmptyHead(Split(s[|k|..], k), r);
    } else {
      ReplaceAllIsSplitJoin(s[1..], k, r);
      JoinExtendHead(s[0], Split(s[1..], k), r);
    }
  }

  /** An empty first piece puts the separator first. */
  lemma JoinEmptyHead(t: seq<Text>, r: Text)
    requires |t| >= 1
    ensures Join([[]] + t, r) == r + Join(t, r)
  {
    assert ([[]] + t)[1..] == t;
  }

  /** A character added to the first piece comes first in the join. */
  lemma JoinExtendHead(c: char, t: seq<Text>, r: Text)
    requires |t| >= 1
    ensures Join([[c] + t[0]] + t[1..], r) == [c] + Join(t, r)
  {
    var ps := [[c] + t[0]] + t[1..];
    if |t| > 1 {
      assert ps[1..] == t[1..];
      assert Join(ps, r) == ([c] + t[0]) + r + Join(t[1..], r);
    }
  }

  /** Replacing `k` by itself changes nothing. */
  lemma {:induction false} ReplaceAllSelf(s: Text, k: Text)
    requires |k| > 0
    ensures ReplaceAll(s, k, k) == s
    decreases |s|
  {
    if |s| == 0 {
    } else if IsPrefix(k, s) {
      ReplaceAllSelf(s[|k|..], k);
      assert s == s[..|k|] + s[|k|..];
    } else {
      ReplaceAllSelf(s[1..], k);
      assert s == [s[0]] + s[1..];
    }
  }

  /** Text without any occurrence of `k` is left as it is. */
  lemma {:induction false} ReplaceAllAbsent(s: Text, k: Text, r: Text)
    requires |k| > 0 && !Contains(s, k)
    ensures ReplaceAll(s, k, r) == s
    decreases |s|
  {
    if |s| > 0 {
      ReplaceAllAbsent(s[1..], k, r);
      assert s == [s[0]] + s[1..];
    }
  }

  /** The first piece of a split is a prefix of the input. */
  lemma {:induction false} SplitHeadIsPrefix(s: Text, k: Text)
    requires |k| > 0
    ensures IsPrefix(Split(s, k)[0], s)
    decreases |s|
  {
    if |s| > 0 && !IsPrefix(k, s) {
      SplitHeadIsPrefix(s[1..], k);
    }
  }

  /** Splitting, then joining the pieces with the separator, gives back the
      input, and no piece contains the separator. */
  lemma {:induction false} SplitJoinRoundTrip(s: Text, k: Text)
    requires |k| > 0
    ensures Join(Split(s, k), k) == s
    ensures forall i :: 0 <= i < |Split(s, k)| ==> !Contains(Split(s, k)[i], k)
    decreases |s|
  {
    ReplaceAllIsSplitJoin(s, k, k);
    ReplaceAllSelf(s, k);
    if |s| == 0 {
      assert Split(s, k) == [[]];
      assert !Contains([], k);
    } else if IsPrefix(k, s) {
      SplitJoinRoundTrip(s[|k|..], k);
      var t := Split(s[|k|..], k);
      assert Split(s, k) == [[]] + t;
      assert !Contains([], k);
      forall i | 0 <= i < |Split(s, k)| ensures !Contains(Split(s, k)[i], k) {
        if i > 0 { assert Split(s, k)[i] == t[i - 1]; }
      }
    } else {
      SplitJoinRoundTrip(s[1..], k);
      SplitHeadIsPrefix(s[1..], k);
      var t := Split(s[1..], k);
      var head := [s[0]] + t[0];
      assert Split(s, k) == [head] + t[1..];
      assert head == s[..|head|];
      assert !Contains(head, k) by {
        assert head[1..] == t[0];
        assert !Contains(t[0], k);
        assert |k| <= |head| ==> s[..|k|] == head[..|k|];
      }
      forall i | 0 <= i < |Split(s, k)| ensures !Contains(Split(s, k)[i], k) {
        if i > 0 { assert Split(s, k)[i] == t[i]; }
      }
    }
  }

  /** Where piece `i` starts in `Join(pieces, sep)` when the separator is
      `w` characters long: the running offset of a scan that advances by
      `|piece| + w` per piece. */
  function Offset(pieces: seq<Text>, w: nat, i: nat): nat
    requires i <= |pieces|
  {
    if i == 0 then 0 else Offset(pieces, w, i - 1) + |pieces[i - 1]| + w
  }

  lemma {:induction false} OffsetShift(pieces: seq<Text>, w: nat, i: nat)
    requires 1 <= i <= |pieces|
    ensures Offset(pieces, w, i) == |pieces[0]| + w + Offset(pieces[1..], w, i - 1)
  {
    if i > 1 {
      OffsetShift(pieces, w, i - 1);
      assert pieces[1..][i - 2] == pieces[i - 1];
    }
  }

  lemma SliceOfConcat(a: Text, b: Text, x: nat, y: nat)
    requires x <= y <= |b|
    ensures (a + b)[|a| + x..|a| + y] == b[x..y]
  {
  }

  /** Piece `i` sits at `Offset(pieces, |sep|, i)` in the joined text. */
  lemma {:induction false} JoinPieceAt(pieces: seq<Text>, sep: Text, i: nat)
    requires i < |pieces|
    ensures Offset(pieces, |sep|, i) + |pieces[i]| <= |Join(pieces, sep)|
    ensures Join(pieces, sep)[Offset(pieces, |sep|, i)..Offset(pieces, |sep|, i) + |pieces[i]|] == pieces[i]
    decreases |pieces|
  {
    if i == 0 {
      if |pieces| > 1 {
        assert Join(pieces, sep) == pieces[0] + (sep + Join(pieces[1..], sep));
      }
    } else {
      var tail := pieces[1..];
      JoinPieceAt(tail, sep, i - 1);
      OffsetShift(pieces, |sep|, i);
      var o := Offset(tail, |sep|, i - 1);
      assert tail[i - 1] == pieces[i];
      assert Join(pieces, sep) == (pieces[0] + sep) + Join(tail, sep);
      SliceOfConcat(pieces[0] + sep, Join(tail, sep), o, o + |pieces[i]|);
    }
  }

  /** A separator follows every piece but the last. */
  lemma {:induction false} JoinSeparatorAfter(pieces: seq<Text>, sep: Text, i: nat)
    requires i + 1 < |pieces|
    ensures Offset(pieces, |sep|, i + 1) <= |Join(pieces, sep)|
    ensures Join(pieces, sep)[Offset(pieces, |sep|, i) + |pieces[i]|..Offset(pieces, |sep|, i + 1)] == sep
    decreases |pieces|
  {
    var tail := pieces[1..];
    if i == 0 {
      assert Join(pieces, sep) == (pieces[0] + sep) + Join(tail, sep);
      assert (pieces[0] + sep)[|pieces[0]|..] == sep;
    } else {
      JoinSeparatorAfter(tail, sep, i - 1);
      OffsetShift(pieces, |sep|, i);
      OffsetShift(pieces, |sep|, i + 1);
      var o := Offset(tail, |sep|, i - 1);
      var head := pieces[0] + sep;
      assert tail[i - 1] == pieces[i];
      assert Join(pieces, sep) == head + Join(tail, sep);
      assert Offset(pieces, |sep|, i) + |pieces[i]| == |head| + (o + |pieces[i]|);
      assert Offset(pieces, |sep|, i + 1) == |head| + Offset(tail, |sep|, i);
      SliceOfConcat(head, Join(tail, sep), o + |pieces[i]|, Offset(tail, |sep|, i));
    }
  }

  // ---------------------------------------------------------------------
  // Character classes, trimming, case
  // ---------------------------------------------------------------------

  predicate IsLineTerminator(c: char) {
    c == '\n' || c == '\r' || c == '\U{2028}' || c == '\U{2029}'
  }

  predicate HasLineTerminator(s: Text) {
    exists i :: 0 <= i < |s| && IsLineTerminator(s[i])
  }

  /** The characters `String.prototype.trim` removes (white space and line
      terminators of ECMAScript). */
  predicate IsTrimmable(c: char) {
    c in TrimmableChars
  }

  const TrimmableChars: set<char> :=
    {'\t', '\n', '\U{000B}', '\U{000C}', '\r', ' ', '\U{00A0}', '\U{1680}',
     '\U{2000}', '\U{2001}', '\U{2002}', '\U{2003}', '\U{2004}', '\U{2005}', '\U{2006}',
     '\U{2007}', '\U{2008}', '\U{2009}', '\U{200A}',
     '\U{2028}', '\U{2029}', '\U{202F}', '\U{205F}', '\U{3000}', '\U{FEFF}'}

  /** `s.trimStart()`: the suffix left after the leading trimmable
      characters. */
  function TrimStart(s: Text): (r: Text)
    ensures |r| <= |s| && r == s[|s| - |r|..]
    decreases |s|
  {
    if |s| > 0 && IsTrimmable(s[0]) then TrimStart(s[1..]) else s
  }

  /** `s.trimEnd()`: the prefix left before the trailing trimmable
      characters. */
  function TrimEnd(s: Text): (r: Text)
    ensures |r| <= |s| && r == s[..|r|]
    decreases |s|
  {
    if |s| > 0 && IsTrimmable(s[|s| - 1]) then TrimEnd(s[..|s| - 1]) else s
  }

  /** `s.trim()`. */
  function Trim(s: Text): Text {
    TrimEnd(TrimStart(s))
  }

  /** `TrimStart` removes exactly the leading run of trimmable characters. */
  lemma {:induction false} TrimStartRemovesLeadingRun(s: Text)
    ensures var r := TrimStart(s);
      (|r| > 0 ==> !IsTrimmable(r[0])) && forall i :: 0 <= i < |s| - |r| ==> IsTrimmable(s[i])
    decreases |s|
  {
    if |s| > 0 && IsTrimmable(s[0]) {
      TrimStartRemovesLeadingRun(s[1..]);
      forall i | 0 <= i < |s| - |TrimStart(s)| ensures IsTrimmable(s[i]) {
        if i > 0 {
          assert s[i] == s[1..][i - 1];
        }
      }
    }
  }

  /** `TrimEnd` removes exactly the trailing run of trimmable characters. */
  lemma {:induction false} TrimEndRemovesTrailingRun(s: Text)
    ensures var r := TrimEnd(s);
      (|r| > 0 ==> !IsTrimmable(r[|r| - 1])) && forall i :: |r| <= i < |s| ==> IsTrimmable(s[i])
    decreases |s|
  {
    if |s| > 0 && IsTrimmable(s[|s| - 1]) {
      TrimEndRemovesTrailingRun(s[..|s| - 1]);
      forall i | |TrimEnd(s)| <= i < |s| ensures IsTrimmable(s[i]) {
        if i < |s| - 1 {
          assert s[i] == s[..|s| - 1][i];
        }
      }
    }
  }

  /** A trimmed text is empty exactly when every character is trimmable. */
  lemma TrimEmptyIffBlank(s: Text)
    ensures Trim(s) == [] <==> forall i :: 0 <= i < |s| ==> IsTrimmable(s[i])
  {
    var a := TrimStart(s);
    TrimStartRemovesLeadingRun(s);
    TrimEndRemovesTrailingRun(a);
    if Trim(s) == [] {
      assert a == [];
    } else {
      assert |a| > 0 && !IsTrimmable(a[0]);
      assert a[0] == s[|s| - |a|];
    }
  }

  function LowerAscii(c: char): char {
    if 'A' <= c <= 'Z' then (c as int + 32) as char else c
  }

  /** Lower-casing, restricted to the ASCII letters. */
  function Lower(s: Text): (r: Text)
    ensures |r| == |s| && forall i :: 0 <= i < |s| ==> r[i] == LowerAscii(s[i])
  {
    seq(|s|, i requires 0 <= i < |s| => LowerAscii(s[i]))
  }

  /** Lower-casing a lower-cased text changes nothing. */
  lemma LowerIdempotent(s: Text)
    ensures Lower(Lower(s)) == Lower(s)
  {
    var l := Lower(s);
    forall i | 0 <= i < |l| ensures Lower(l)[i] == l[i] {
      assert l[i] == LowerAscii(s[i]);
    }
  }

  /** `s.toLowerCase().endsWith(suffix)` for a lower-case ASCII suffix. */
  predicate EndsWithIgnoreCase(s: Text, suffix: Text) {
    IsSuffix(suffix, Lower(s))
  }

  /** `s.indexOf(c)`: the first index holding `c`, or -1. */
  function IndexOf(s: Text, c: char): (r: int)
    ensures -1 <= r < |s|
    ensures r == -1 ==> forall k :: 0 <= k < |s| ==> s[k] != c
    ensures r >= 0 ==> s[r] == c && forall k :: 0 <= k < r ==> s[k] != c
  {
    IndexFrom(s, c, 0)
  }

  /** The first index at or after `i` holding `c`, or -1. */
  function IndexFrom(s: Text, c: char, i: nat): (r: int)
    requires i <= |s|
    ensures -1 <= r < |s|
    ensures r == -1 ==> forall k :: i <= k < |s| ==> s[k] != c
    ensures r >= 0 ==> i <= r && s[r] == c && forall k :: i <= k < r ==> s[k] != c
    decreases |s| - i
  {
    if i == |s| then -1
    else if s[i] == c then i
    else IndexFrom(s, c, i + 1)
  }
}
