/** Line-level recognisers of parser.go: the two numbered-line regular
    expressions `^(\d+)\.\s*$` and `^(\d+)\.\s+(.+)$`, written out by hand,
    decimal conversion of the digit group, and the indentation level of a
    bullet line. */
module Lines {
  import opened Results
  import opened Text

  /** RE2's `\d`: an ASCII digit. */
  predicate IsDigit(c: char) {
    '0' <= c <= '9'
  }

  /** RE2's `\s`: space, tab, newline, form feed or carriage return
      (unlike `strings.TrimSpace`, not the vertical tab). */
  predicate IsRegexSpace(c: char) {
    c == ' ' || c == '\t' || c == '\n' || c == '\U{000C}' || c == '\r'
  }

  predicate AllDigits(s: string) {
    forall i :: 0 <= i < |s| ==> IsDigit(s[i])
  }

  predicate AllRegexSpace(s: string) {
    forall i :: 0 <= i < |s| ==> IsRegexSpace(s[i])
  }

  /** The length of the longest prefix of `s` whose characters satisfy `f`. */
  function SpanWhile(s: string, f: char -> bool): (n: nat)
    ensures n <= |s|
    ensures forall i :: 0 <= i < n ==> f(s[i])
    ensures n == |s| || !f(s[n])
  {
    if |s| > 0 && f(s[0]) then 1 + SpanWhile(s[1..], f) else 0
  }

  /** The length of the leading run of digits. */
  function DigitRun(s: string): (n: nat)
    ensures n <= |s| && AllDigits(s[..n])
    ensures n == |s| || !IsDigit(s[n])
  {
    SpanWhile(s, IsDigit)
  }

  /** The length of the leading run of `\s` characters. */
  function RegexSpaceRun(s: string): (n: nat)
    ensures n <= |s| && AllRegexSpace(s[..n])
    ensures n == |s| || !IsRegexSpace(s[n])
  {
    SpanWhile(s, IsRegexSpace)
  }

  /** The decimal value of a run of digits (`strconv.Atoi` on `\d+`). */
  function DigitsValue(d: string): nat
    requires AllDigits(d)
  {
    if |d| == 0 then 0
    else DigitsValue(d[..|d| - 1]) * 10 + (d[|d| - 1] as int - '0' as int)
  }

  /** `^(\d+)\.\s*$` as a statement about splits: digits up to `k`, a dot,
      and only `\s` to the end. */
  ghost predicate EmptyNumberedRegex(t: string) {
    exists k :: 1 <= k < |t| && AllDigits(t[..k]) && t[k] == '.' && AllRegexSpace(t[k + 1..])
  }

  /** In any split whose digit group is followed by a dot, the digit group is
      exactly the leading run of digits. */
  lemma DigitGroupIsRun(t: string, k: int)
    requires 1 <= k < |t| && AllDigits(t[..k]) && t[k] == '.'
    ensures k == DigitRun(t)
  {
  }

  /** The recogniser for `^(\d+)\.\s*$`, a numbered line with no name. */
  function MatchEmptyNumbered(t: string): (b: bool)
    ensures b <==> EmptyNumberedRegex(t)
  {
    var k := DigitRun(t);
    if 1 <= k < |t| && t[k] == '.' then
      var rest := t[k + 1..];
      var ok := RegexSpaceRun(rest) == |rest|;
      assert ok ==> rest[..RegexSpaceRun(rest)] == rest;
      assert !ok ==> !AllRegexSpace(rest) by {
        if !ok { assert !IsRegexSpace(rest[RegexSpaceRun(rest)]); }
      }
      assert EmptyNumberedRegex(t) ==> ok by {
        if EmptyNumberedRegex(t) {
          var k' :| 1 <= k' < |t| && AllDigits(t[..k']) && t[k'] == '.' && AllRegexSpace(t[k' + 1..]);
          DigitGroupIsRun(t, k');
        }
      }
      ok
    else
      assert !EmptyNumberedRegex(t) by {
        if EmptyNumberedRegex(t) {
          var k' :| 1 <= k' < |t| && AllDigits(t[..k']) && t[k'] == '.' && AllRegexSpace(t[k' + 1..]);
          DigitGroupIsRun(t, k');
        }
      }
      false
  }

  /** One way `^(\d+)\.\s+(.+)$` can match `t`: digits before `k`, a dot at
      `k`, one or more `\s` up to `m`, then at least one character other
      than a newline up to the end (RE2's `.` does not match '\n'). */
  ghost predicate NumberedSplit(t: string, k: int, m: int) {
    1 <= k && k + 1 < m < |t| && AllDigits(t[..k]) && t[k] == '.'
    && AllRegexSpace(t[k + 1..m]) && '\n' !in t[m..]
  }

  ghost predicate NumberedRegex(t: string) {
    exists k, m :: NumberedSplit(t, k, m)
  }

  /** What a numbered line yields: its order and its trimmed name. */
  datatype Numbered = Numbered(order: nat, name: string)

  /** Both numbered patterns need a leading digit. */
  lemma NumberedLeadDigit(t: string)
    ensures NumberedRegex(t) ==> |t| > 0 && IsDigit(t[0])
    ensures EmptyNumberedRegex(t) ==> |t| > 0 && IsDigit(t[0])
  {
    if NumberedRegex(t) {
      var k, m :| NumberedSplit(t, k, m);
      assert t[0] == t[..k][0];
    }
    if EmptyNumberedRegex(t) {
      var k :| 1 <= k < |t| && AllDigits(t[..k]) && t[k] == '.' && AllRegexSpace(t[k + 1..]);
      assert t[0] == t[..k][0];
    }
  }

  /** The greedy split the regular expression engine picks: `\s+` takes as
      much as it can while leaving at least one character for `(.+)`. */
  function GreedyNameStart(t: string): (m: nat)
    requires DigitRun(t) < |t|
  {
    var k := DigitRun(t);
    var sp := RegexSpaceRun(t[k + 1..]);
    if k + 1 + sp < |t| - 1 then k + 1 + sp else |t| - 1
  }

  /** Every split of a match uses the digit run, and the greedy split is
      itself a match whenever any split is. */
  lemma GreedySplitMatches(t: string, k: int, m: int)
    requires NumberedSplit(t, k, m)
    ensures k == DigitRun(t)
    ensures m <= GreedyNameStart(t)
    ensures NumberedSplit(t, k, GreedyNameStart(t))
  {
    DigitGroupIsRun(t, k);
    var rest := t[k + 1..];
    var sp := RegexSpaceRun(rest);
    var g := GreedyNameStart(t);
    assert t[k + 1..g] == rest[..g - k - 1];
    assert t[g..] == t[m..][g - m..];
  }

  /** The condition under which the greedy split is a match. */
  predicate GreedyMatches(t: string) {
    var k := DigitRun(t);
    1 <= k < |t| && t[k] == '.' && RegexSpaceRun(t[k + 1..]) >= 1 && k + 2 < |t|
    && '\n' !in t[GreedyNameStart(t)..]
  }

  /** The greedy split matches exactly when the regular expression does. */
  lemma GreedyMatchesIff(t: string)
    ensures GreedyMatches(t) <==> NumberedRegex(t)
  {
    if GreedyMatches(t) {
      var k := DigitRun(t);
      var m := GreedyNameStart(t);
      assert t[k + 1..m] == t[k + 1..][..m - k - 1];
      assert NumberedSplit(t, k, m);
    }
    if NumberedRegex(t) {
      var k', m' :| NumberedSplit(t, k', m');
      GreedySplitMatches(t, k', m');
      assert t[k' + 1..m'][0] == t[k' + 1..][0];
    }
  }

  /** Between the dot and the greedy name start there is only `\s`. */
  lemma GreedySpacesAreSpaces(t: string)
    requires GreedyMatches(t)
    ensures AllRegexSpace(t[DigitRun(t) + 1..GreedyNameStart(t)])
  {
    var k := DigitRun(t);
    var m := GreedyNameStart(t);
    var rest := t[k + 1..];
    var sp := RegexSpaceRun(rest);
    var front := t[k + 1..m];
    assert front == rest[..m - k - 1];
    forall i | 0 <= i < |front| ensures IsRegexSpace(front[i]) {
      assert front[i] == rest[..sp][i];
    }
  }

  /** The greedy name group, trimmed, is the trimmed text after the dot. */
  lemma GreedyName(t: string, k: nat, m: nat)
    requires GreedyMatches(t) && k == DigitRun(t) && m == GreedyNameStart(t)
    ensures k + 1 <= m <= |t|
    ensures TrimSpace(t[m..]) == TrimSpace(t[k + 1..])
  {
    GreedySpacesAreSpaces(t);
    assert t[k + 1..] == t[k + 1..m] + t[m..];
    TrimSkipsSpaces(t[k + 1..], t[k + 1..m], t[m..]);
  }

  /** The recogniser for `^(\d+)\.\s+(.+)$`. On a match it yields the value
      of the digit group and the trimmed text after the dot. */
  function MatchNumbered(t: string): (r: Option<Numbered>)
    ensures r.Some? <==> NumberedRegex(t)
    ensures r.Some? ==> 1 <= DigitRun(t) < |t| && t[DigitRun(t)] == '.'
    ensures r.Some? ==> r.value.order == DigitsValue(t[..DigitRun(t)])
    ensures r.Some? ==> r.value.name == TrimSpace(t[DigitRun(t) + 1..])
  {
    GreedyMatchesIff(t);
    if GreedyMatches(t) then
      var k, m := DigitRun(t), GreedyNameStart(t);
      GreedyName(t, k, m);
      Some(Numbered(DigitsValue(t[..k]), TrimSpace(t[m..])))
    else
      None
  }

  /** `MatchNumbered` on a matching line, with the digit run passed in. */
  lemma MatchNumberedParts(t: string, k: nat)
    requires NumberedRegex(t) && k == DigitRun(t)
    ensures 1 <= k < |t|
    ensures MatchNumbered(t) == Some(Numbered(DigitsValue(t[..k]), TrimSpace(t[k + 1..])))
  {
    var r := MatchNumbered(t);
    assert r.Some?;
  }

  /** When `t` ends in a visible character, so does the text after the dot
      of a numbered line. */
  lemma NumberedNameVisible(t: string, k: nat)
    requires NumberedRegex(t) && k == DigitRun(t) && !IsSpace(t[|t| - 1])
    ensures k + 1 < |t| && !AllSpace(t[k + 1..])
  {
    var k', m :| NumberedSplit(t, k', m);
    DigitGroupIsRun(t, k');
    var rest := t[k + 1..];
    assert rest[|rest| - 1] == t[|t| - 1];
  }

  lemma TrimSkipsSpaces(s: string, sp: string, u: string)
    requires s == sp + u && AllRegexSpace(sp)
    ensures TrimSpace(s) == TrimSpace(u)
  {
    NameSkipsSpaces(sp, u);
  }

  /** Leading `\s` characters do not change the trimmed text. */
  lemma NameSkipsSpaces(sp: string, u: string)
    requires AllRegexSpace(sp)
    ensures TrimSpace(sp + u) == TrimSpace(u)
  {
    LeftTrimSkipsSpaces(sp, u);
  }

  lemma {:induction false} LeftTrimSkipsSpaces(sp: string, u: string)
    requires AllRegexSpace(sp)
    ensures TrimLeft(sp + u) == TrimLeft(u)
    decreases |sp|
  {
    if |sp| > 0 {
      assert (sp + u)[1..] == sp[1..] + u;
      LeftTrimSkipsSpaces(sp[1..], u);
    } else {
      assert sp + u == u;
    }
  }

  /** The number of ' ' characters before the first other character
      (`calculateIndentationLevel`'s loop; a tab stops the count). */
  function LeadingSpaceCount(line: string): (n: nat)
    ensures n <= |line|
    ensures forall i :: 0 <= i < n ==> line[i] == ' '
    ensures n == |line| || line[n] != ' '
  {
    SpanWhile(line, c => c == ' ')
  }

  /** `calculateIndentationLevel`: 1 when the line starts with at least four
      spaces, otherwise 0; no deeper level exists. */
  function IndentationLevel(line: string): (level: int)
    ensures level == 0 || level == 1
    ensures level == 1 <==> |line| >= 4 && line[..4] == "    "
  {
    var spaces := LeadingSpaceCount(line);
    if spaces >= 4 then 1
    else if spaces >= 2 then 0
    else 0
  }
}
