/** The filter score of `/api/filters/:id/evaluate`: the first match of
    `(\d+(?:\.\d+)?)` in the language model's reply, read as a number, or
    0 when the reply holds no digit.  Numbers are exact fractions here. */
module Score {
  import opened Strings

  predicate IsDigit(c: char) {
    '0' <= c <= '9'
  }

  /** A non-negative fraction `num / den`. */
  datatype Ratio = Ratio(num: nat, den: nat)

  predicate WellFormed(r: Ratio) {
    r.den > 0
  }

  /** `a > b` on the numbers the fractions stand for. */
  predicate Greater(a: Ratio, b: Ratio) {
    a.num * b.den > b.num * a.den
  }

  function Nat(n: nat): Ratio {
    Ratio(n, 1)
  }

  /** The number of digits in the run that starts at `i`. */
  function DigitRun(s: Text, i: nat): (n: nat)
    requires i <= |s|
    ensures i + n <= |s|
    ensures forall k :: i <= k < i + n ==> IsDigit(s[k])
    ensures i + n == |s| || !IsDigit(s[i + n])
    decreases |s| - i
  {
    if i < |s| && IsDigit(s[i]) then 1 + DigitRun(s, i + 1) else 0
  }

  /** The first index at or after `i` that holds a digit, or `|s|`. */
  function FirstDigit(s: Text, i: nat): (r: nat)
    requires i <= |s|
    ensures i <= r <= |s|
    ensures r < |s| ==> IsDigit(s[r])
    ensures forall k :: i <= k < r ==> !IsDigit(s[k])
    decreases |s| - i
  {
    if i == |s| || IsDigit(s[i]) then i else FirstDigit(s, i + 1)
  }

  /** `s[p + n] == '.'` followed by a digit: the optional fraction starts there. */
  predicate FractionAt(s: Text, q: nat) {
    q + 1 < |s| && s[q] == '.' && IsDigit(s[q + 1])
  }

  /** The length of the greedy match of `\d+(?:\.\d+)?` at a digit `p`. */
  function MatchLength(s: Text, p: nat): nat
    requires p < |s| && IsDigit(s[p])
  {
    var d := DigitRun(s, p);
    if FractionAt(s, p + d) then d + 1 + DigitRun(s, p + d + 1) else d
  }

  /** `content.match(/(\d+(?:\.\d+)?)/)`: the matched text, if any. */
  function ScoreMatch(s: Text): Option<Text> {
    var p := FirstDigit(s, 0);
    if p == |s| then None else Some(s[p..p + MatchLength(s, p)])
  }

  /** Digits only. */
  predicate AllDigits(t: Text) {
    forall k :: 0 <= k < |t| ==> IsDigit(t[k])
  }

  /** The texts `\d+(?:\.\d+)?` matches as a whole. */
  predicate IsNumberToken(t: Text) {
    (|t| > 0 && AllDigits(t))
    || exists i :: 0 < i < |t| - 1 && t[i] == '.' && AllDigits(t[..i]) && AllDigits(t[i + 1..])
  }

  /** The value of a digit string. */
  function DigitsValue(t: Text): nat
    requires AllDigits(t)
    decreases |t|
  {
    if |t| == 0 then 0
    else DigitsValue(t[..|t| - 1]) * 10 + (t[|t| - 1] as int - '0' as int)
  }

  function Pow10(n: nat): (r: nat)
    ensures r > 0
  {
    if n == 0 then 1 else 10 * Pow10(n - 1)
  }

  /** `parseFloat` of a matched token, exactly. */
  function TokenValue(t: Text): Ratio
    requires |t| > 0 && IsDigit(t[0])
  {
    var d := DigitRun(t, 0);
    if d < |t| && t[d] == '.' && AllDigitsFrom(t, d + 1) then
      Ratio(DigitsValue(t[..d] + t[d + 1..]), Pow10(|t| - d - 1))
    else if d == |t| then Ratio(DigitsValue(t), 1)
    else Ratio(DigitsValue(t[..d]), 1)
  }

  predicate AllDigitsFrom(t: Text, i: nat)
    requires i <= |t|
  {
    forall k :: i <= k < |t| ==> IsDigit(t[k])
  }

  /** The score the handler answers with: the matched number, or 0. */
  function ReplyScore(content: Text): (r: Ratio)
    ensures WellFormed(r)
  {
    match ScoreMatch(content)
    case None => Nat(0)
    case Some(t) =>
      assert |t| > 0 && IsDigit(t[0]);
      TokenValue(t)
  }

  // ---------------------------------------------------------------------
  // What the match is
  // ---------------------------------------------------------------------

  /** There is no match exactly when the reply holds no digit. */
  lemma NoMatchIffNoDigit(s: Text)
    ensures ScoreMatch(s) == None <==> forall k :: 0 <= k < |s| ==> !IsDigit(s[k])
  {
  }

  /** The match starts at the first digit and is a number token. */
  lemma MatchIsLeftmostToken(s: Text)
    requires ScoreMatch(s).Some?
    ensures var t := ScoreMatch(s).value; var p := FirstDigit(s, 0);
      p + |t| <= |s| && s[p..p + |t|] == t && IsNumberToken(t)
      && forall k :: 0 <= k < p ==> !IsDigit(s[k])
  {
    MatchToken(s, FirstDigit(s, 0));
  }

  /** The greedy match at a digit is a number token. */
  lemma MatchToken(s: Text, p: nat)
    requires p < |s| && IsDigit(s[p])
    ensures IsNumberToken(s[p..p + MatchLength(s, p)])
  {
    var d := DigitRun(s, p);
    DigitSlice(s, p, p + d);
    if FractionAt(s, p + d) {
      var e := DigitRun(s, p + d + 1);
      DigitSlice(s, p + d + 1, p + d + 1 + e);
      FractionToken(s[p..p + d], s[p + d + 1..p + d + 1 + e]);
      SliceAround(s, p, p + d, p + d + 1 + e);
    }
  }

  lemma SliceAround(s: Text, i: nat, m: nat, j: nat)
    requires i <= m < j <= |s|
    ensures s[i..j] == s[i..m] + [s[m]] + s[m + 1..j]
  {
    assert s[i..j] == s[i..m] + s[m..j];
    assert s[m..j] == [s[m]] + s[m + 1..j];
  }

  lemma DigitSlice(s: Text, i: nat, j: nat)
    requires i <= j <= |s|
    requires forall k :: i <= k < j ==> IsDigit(s[k])
    ensures AllDigits(s[i..j])
  {
  }

  /** Digits, a dot and digits make a number token. */
  lemma FractionToken(a: Text, b: Text)
    requires |a| > 0 && |b| > 0 && AllDigits(a) && AllDigits(b)
    ensures IsNumberToken(a + ['.'] + b)
  {
    var t := a + ['.'] + b;
    assert t[..|a|] == a;
    assert t[|a| + 1..] == b;
    assert t[|a|] == '.';
  }

  /** The match is greedy: it cannot be extended by a digit, nor, when it
      has no fraction, by a fraction. */
  lemma MatchIsGreedy(s: Text)
    requires ScoreMatch(s).Some?
    ensures var t := ScoreMatch(s).value; var q := FirstDigit(s, 0) + |t|;
      (q == |s| || !IsDigit(s[q])) && ('.' !in t ==> !FractionAt(s, q))
  {
    var p := FirstDigit(s, 0);
    ScoreMatchAt(s, p);
    var d := DigitRun(s, p);
    var t := s[p..p + MatchLength(s, p)];
    if FractionAt(s, p + d) {
      assert t[d] == s[p + d] == '.';
    } else {
      assert |t| == d;
      assert forall k :: 0 <= k < |t| ==> t[k] == s[p + k];
      assert '.' !in t;
    }
  }

  /** A reply that is a bare integer scores that integer. */
  lemma IntegerReply(s: Text)
    requires |s| > 0 && AllDigits(s)
    ensures ReplyScore(s) == Ratio(DigitsValue(s), 1)
  {
    assert FirstDigit(s, 0) == 0;
    assert DigitRun(s, 0) == |s| by { DigitRunToEnd(s, 0); }
    assert s[0..|s|] == s;
    assert DigitRun(s, 0) == |s|;
  }

  lemma {:induction false} DigitRunToEnd(s: Text, i: nat)
    requires i <= |s| && AllDigitsFrom(s, i)
    ensures DigitRun(s, i) == |s| - i
    decreases |s| - i
  {
    if i < |s| {
      DigitRunToEnd(s, i + 1);
    }
  }

  /** Prose before the first digit does not change the score. */
  lemma LeadingProseIgnored(prose: Text, s: Text)
    requires forall k :: 0 <= k < |prose| ==> !IsDigit(prose[k])
    ensures ReplyScore(prose + s) == ReplyScore(s)
  {
    LeadingProseSameMatch(prose, s);
  }

  lemma LeadingProseSameMatch(prose: Text, s: Text)
    requires forall k :: 0 <= k < |prose| ==> !IsDigit(prose[k])
    ensures ScoreMatch(prose + s) == ScoreMatch(s)
  {
    ShiftFirstDigit(prose, s);
    var p := FirstDigit(s, 0);
    if p < |s| {
      ShiftedMatch(prose, s, p);
      SameMatch(prose + s, |prose| + p, s, p);
    }
  }

  /** A match moved by the prose's length reads the same digits. */
  lemma ShiftedMatch(prose: Text, s: Text, p: nat)
    requires p < |s| && IsDigit(s[p])
    ensures var q, n := |prose| + p, MatchLength(s, p);
      IsDigit((prose + s)[q]) && MatchLength(prose + s, q) == n && (prose + s)[q..q + n] == s[p..p + n]
  {
    ShiftMatchLength(prose, s, p);
    SliceOfConcat(prose, s, p, p + MatchLength(s, p));
  }

  /** Two texts whose first digits start the same match text match alike. */
  lemma SameMatch(a: Text, q: nat, s: Text, p: nat)
    requires q == FirstDigit(a, 0) && q < |a| && p == FirstDigit(s, 0) && p < |s|
    requires MatchLength(a, q) == MatchLength(s, p)
    requires a[q..q + MatchLength(a, q)] == s[p..p + MatchLength(s, p)]
    ensures ScoreMatch(a) == ScoreMatch(s)
  {
    ScoreMatchAt(a, q);
    ScoreMatchAt(s, p);
  }

  /** The match starts at the first digit. */
  lemma ScoreMatchAt(t: Text, q: nat)
    requires q == FirstDigit(t, 0) && q < |t|
    ensures ScoreMatch(t) == Some(t[q..q + MatchLength(t, q)])
  {
  }

  lemma ShiftFirstDigit(prose: Text, s: Text)
    requires forall k :: 0 <= k < |prose| ==> !IsDigit(prose[k])
    ensures FirstDigit(prose + s, 0) == |prose| + FirstDigit(s, 0)
  {
    var a := prose + s;
    var r := |prose| + FirstDigit(s, 0);
    forall k | 0 <= k < r ensures !IsDigit(a[k]) {
      if k < |prose| {
        assert a[k] == prose[k];
      } else {
        assert a[k] == s[k - |prose|];
      }
    }
    if r < |a| {
      assert a[r] == s[r - |prose|];
    }
    FirstDigitUnique(a, r);
  }

  lemma FirstDigitUnique(s: Text, r: nat)
    requires r <= |s| && (r < |s| ==> IsDigit(s[r]))
    requires forall k :: 0 <= k < r ==> !IsDigit(s[k])
    ensures FirstDigit(s, 0) == r
  {
  }

  lemma {:induction false} ShiftDigitRun(prose: Text, s: Text, i: nat)
    requires i <= |s|
    ensures DigitRun(prose + s, |prose| + i) == DigitRun(s, i)
    decreases |s| - i
  {
    if i < |s| {
      assert (prose + s)[|prose| + i] == s[i];
      ShiftDigitRun(prose, s, i + 1);
    }
  }

  lemma ShiftMatchLength(prose: Text, s: Text, p: nat)
    requires p < |s| && IsDigit(s[p])
    ensures (prose + s)[|prose| + p] == s[p]
    ensures MatchLength(prose + s, |prose| + p) == MatchLength(s, p)
  {
    var a := prose + s;
    ShiftDigitRun(prose, s, p);
    var d := DigitRun(s, p);
    if p + d + 1 < |s| {
      assert a[|prose| + p + d] == s[p + d];
      assert a[|prose| + p + d + 1] == s[p + d + 1];
      ShiftDigitRun(prose, s, p + d + 1);
    }
  }

  /** A reply that is `<digits>.<digits>` scores that decimal fraction. */
  lemma FractionReply(a: Text, b: Text)
    requires |a| > 0 && |b| > 0 && AllDigits(a) && AllDigits(b)
    ensures AllDigits(a + b)
    ensures ReplyScore(a + ['.'] + b) == Ratio(DigitsValue(a + b), Pow10(|b|))
  {
    FractionWhollyMatched(a, b);
    FractionValue(a, b);
  }

  lemma FractionWhollyMatched(a: Text, b: Text)
    requires |a| > 0 && |b| > 0 && AllDigits(a) && AllDigits(b)
    ensures ScoreMatch(a + ['.'] + b) == Some(a + ['.'] + b)
  {
    var t := a + ['.'] + b;
    assert t[0] == a[0];
    FirstDigitUnique(t, 0);
    DigitRunStops(t, |a|);
    assert FractionAt(t, |a|) by { assert t[|a| + 1] == b[0]; }
    DigitRunToEnd(t, |a| + 1);
    assert t[0..|t|] == t;
  }

  lemma FractionValue(a: Text, b: Text)
    requires |a| > 0 && |b| > 0 && AllDigits(a) && AllDigits(b)
    ensures |a + ['.'] + b| > 0 && IsDigit((a + ['.'] + b)[0])
    ensures AllDigits(a + b)
    ensures TokenValue(a + ['.'] + b) == Ratio(DigitsValue(a + b), Pow10(|b|))
  {
    var t := a + ['.'] + b;
    assert t[0] == a[0];
    DigitRunStops(t, |a|);
    assert t[..|a|] == a && t[|a| + 1..] == b;
  }

  lemma DigitRunStops(t: Text, n: nat)
    requires n < |t| && !IsDigit(t[n])
    requires forall k :: 0 <= k < n ==> IsDigit(t[k])
    ensures DigitRun(t, 0) == n
  {
    var r := DigitRun(t, 0);
    assert r == |t| || !IsDigit(t[r]);
  }
}
