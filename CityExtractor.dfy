/**
 * `extract_city`: the best-effort city name of a weather question.
 *
 * First `re.search(r"(?:in|for)\s+([a-zA-Z\s]+)", text, re.IGNORECASE)`.
 * When it matches, the capture group, stripped and without a trailing run of
 * `?.!,`, is the answer. Otherwise the last token of `text.strip().split()`,
 * without its trailing run of `?.!,`, is the answer, and when there is no
 * token at all the answer is `None`.
 *
 * The regex search is modelled by the backtracking it performs (MatchAt,
 * FindFrom) and specified by the set of all ways the pattern can match
 * (IsMatch): the search returns the leftmost start position and, there, the
 * longest `\s+` and then the longest group.
 */
module CityExtractor {
  import opened Chars
  import opened PyText
  import opened Options

  /** Every character of `t[lo..hi]` is in the class `[a-zA-Z\s]`. */
  predicate LetterOrSpaceBetween(t: string, lo: nat, hi: nat)
    requires lo <= hi <= |t|
  {
    forall j :: lo <= j < hi ==> IsLetter(t[j]) || IsSpace(t[j])
  }

  /** The pattern with the alternative `p` matches `t` from `i`, with
      `\s+` spanning `t[i + |p|..a]` and the group spanning `t[a..b]`. */
  predicate MatchesWith(t: string, i: nat, p: string, a: nat, b: nat) {
    i + |p| < a < b <= |t| && EqualsIgnoreCase(t[i..i + |p|], p)
    && SpaceBetween(t, i + |p|, a) && LetterOrSpaceBetween(t, a, b)
  }

  /** Some way `(?:in|for)\s+([a-zA-Z\s]+)` matches `t` from `i` with the group `t[a..b]`. */
  predicate IsMatch(t: string, i: nat, a: nat, b: nat) {
    MatchesWith(t, i, "in", a, b) || MatchesWith(t, i, "for", a, b)
  }

  /** The match a backtracking engine reports from `i`: the greedy `\s+` is as
      long as possible, and then the greedy group is as long as possible. */
  ghost predicate PreferredAt(t: string, i: nat, a: nat, b: nat) {
    IsMatch(t, i, a, b)
    && forall a': nat, b': nat :: IsMatch(t, i, a', b') ==> a' < a || (a' == a && b' <= b)
  }

  /** A match found by the search: where it starts, and the bounds of its group. */
  datatype Capture = Capture(at: nat, start: nat, end: nat)

  /** The length of the alternative of `(?:in|for)` found at `i`, ignoring case, or 0. */
  function PrepositionAt(t: string, i: nat): (k: nat)
    requires i <= |t|
    ensures k == 0 || k == 2 || k == 3
    ensures (i + 2 <= |t| && EqualsIgnoreCase(t[i..i + 2], "in")) ==> k == 2
    ensures (i + 3 <= |t| && EqualsIgnoreCase(t[i..i + 3], "for")) ==> k == 3
    ensures k == 2 ==> i + 2 <= |t| && EqualsIgnoreCase(t[i..i + 2], "in")
    ensures k == 3 ==> i + 3 <= |t| && EqualsIgnoreCase(t[i..i + 3], "for")
  {
    if i + 2 <= |t| && EqualsIgnoreCase(t[i..i + 2], "in") then
      assert Lower(t[i..i + 2][0]) == 'i';
      assert i + 3 <= |t| ==> Lower(t[i..i + 3][0]) != Lower("for"[0]);
      2
    else if i + 3 <= |t| && EqualsIgnoreCase(t[i..i + 3], "for") then 3
    else 0
  }

  /** Scanning right from `j`: the end of the run of `[a-zA-Z\s]` that starts at `j`. */
  function LetterOrSpaceEnd(t: string, j: nat): (e: nat)
    requires j <= |t|
    ensures j <= e <= |t| && LetterOrSpaceBetween(t, j, e)
    ensures e == |t| || !(IsLetter(t[e]) || IsSpace(t[e]))
    decreases |t| - j
  {
    if j < |t| && (IsLetter(t[j]) || IsSpace(t[j])) then LetterOrSpaceEnd(t, j + 1) else j
  }

  /** What the regex engine does at the start position `i`. After the
      preposition, `\s+` takes the whole whitespace run `t[p..q]`. If a letter
      follows, the group is the run of `[a-zA-Z\s]` from there. Otherwise `\s+`
      gives its last character back to the group, which is possible only when
      the run has at least two characters; the group is then that one
      whitespace character. */
  function MatchAt(t: string, i: nat): (m: Option<Capture>)
    requires i <= |t|
    ensures m.Some? ==> m.value.at == i && m.value.start < m.value.end <= |t|
    ensures m.Some? && IsSpace(t[m.value.start]) ==> m.value.end == m.value.start + 1
  {
    var k := PrepositionAt(t, i);
    if k == 0 then None
    else
      var p := i + k;
      var q := SkipSpace(t, p);
      if p < q < |t| && IsLetter(t[q]) then
        LetterIsNotSpace(t[q]);
        Some(Capture(i, q, LetterOrSpaceEnd(t, q)))
      else if p + 2 <= q then Some(Capture(i, q - 1, q))
      else None
  }

  /** Where any match from `i` can put its group, measured against the
      whitespace run `t[p..q]` that follows the preposition. */
  lemma MatchBounds(t: string, i: nat, a: nat, b: nat)
    requires i <= |t| && IsMatch(t, i, a, b)
    ensures var p := i + PrepositionAt(t, i); var q := SkipSpace(t, p);
      && PrepositionAt(t, i) > 0 && p < a <= q
      && (a == q ==> q < |t| && IsLetter(t[q]) && b <= LetterOrSpaceEnd(t, q))
      && (a == q - 1 && !(q < |t| && IsLetter(t[q])) ==> b == q)
  {
    var w := if MatchesWith(t, i, "in", a, b) then "in" else "for";
    assert MatchesWith(t, i, w, a, b);
    assert PrepositionAt(t, i) == |w|;
  }

  /** MatchAt reports the preferred match at `i`, and reports none exactly
      when the pattern cannot match from `i`. */
  lemma MatchAtIsPreferred(t: string, i: nat)
    requires i <= |t|
    ensures MatchAt(t, i).Some? ==> PreferredAt(t, i, MatchAt(t, i).value.start, MatchAt(t, i).value.end)
    ensures MatchAt(t, i).None? ==> forall a: nat, b: nat :: !IsMatch(t, i, a, b)
  {
    forall a: nat, b: nat | IsMatch(t, i, a, b) {
      MatchBounds(t, i, a, b);
    }
    var k := PrepositionAt(t, i);
    var p := i + k;
    var q := SkipSpace(t, p);
    if k > 0 {
      if p < q < |t| && IsLetter(t[q]) {
        var e := LetterOrSpaceEnd(t, q);
        LetterIsNotSpace(t[q]);
        assert k == 2 ==> MatchesWith(t, i, "in", q, e);
        assert k == 3 ==> MatchesWith(t, i, "for", q, e);
      } else if p + 2 <= q {
        assert k == 2 ==> MatchesWith(t, i, "in", q - 1, q);
        assert k == 3 ==> MatchesWith(t, i, "for", q - 1, q);
      }
    }
  }

  /** `re.search`: the first start position from `i` on where the pattern matches. */
  function FindFrom(t: string, i: nat): (m: Option<Capture>)
    requires i <= |t|
    ensures m.Some? ==> i <= m.value.at <= |t| && MatchAt(t, m.value.at) == m
    ensures m.Some? ==> forall j :: i <= j < m.value.at ==> MatchAt(t, j).None?
    ensures m.None? ==> forall j :: i <= j <= |t| ==> MatchAt(t, j).None?
    decreases |t| - i
  {
    var here := MatchAt(t, i);
    if here.Some? then here
    else if i == |t| then None
    else FindFrom(t, i + 1)
  }

  /** `re.search(r"(?:in|for)\s+([a-zA-Z\s]+)", text, re.IGNORECASE)`. */
  function FindCapture(t: string): (m: Option<Capture>)
    ensures m.Some? ==> m.value.start < m.value.end <= |t|
  {
    FindFrom(t, 0)
  }

  /** The search has the semantics of the regex: it reports the leftmost
      start position where the pattern can match and, there, the match a
      backtracking engine prefers; it reports nothing only when the pattern
      cannot match anywhere. */
  lemma FindCaptureIsLeftmostPreferred(t: string)
    ensures FindCapture(t).Some? ==>
      var c := FindCapture(t).value;
      PreferredAt(t, c.at, c.start, c.end)
      && forall j: nat, a: nat, b: nat :: j < c.at ==> !IsMatch(t, j, a, b)
    ensures FindCapture(t).None? ==> forall j: nat, a: nat, b: nat :: !IsMatch(t, j, a, b)
  {
    var m := FindCapture(t);
    forall j: nat, a: nat, b: nat | IsMatch(t, j, a, b) && (m.Some? ==> j < m.value.at)
      ensures false
    {
      MatchAtIsPreferred(t, j);
    }
    if m.Some? {
      MatchAtIsPreferred(t, m.value.at);
    }
  }

  /** A text in which the search matches is not blank: the match begins with
      the first letter of "in" or "for". */
  lemma MatchedTextIsNotBlank(text: string)
    requires FindCapture(text).Some?
    ensures !AllSpace(text)
  {
    var c := FindCapture(text).value;
    MatchAtIsPreferred(text, c.at);
    var w := if MatchesWith(text, c.at, "in", c.start, c.end) then "in" else "for";
    assert text[c.at..c.at + |w|][0] == text[c.at];
    MatchedLetterIsWordChar(text[c.at], w[0]);
  }

  /** `extract_city`. The city is absent exactly when the text is blank (no
      match, and `split()` finds no token); a city that is present never ends
      in one of `?.!,`. */
  function ExtractCity(text: string): (city: Option<string>)
    ensures city.None? <==> AllSpace(text)
    ensures city.Some? ==> city.value == [] || !IsTrailingPunct(city.value[|city.value| - 1])
  {
    match FindCapture(text)
    case Some(c) =>
      MatchedTextIsNotBlank(text);
      Some(TrimTrailingPunct(Strip(text[c.start..c.end])))
    case None =>
      var tokens := Split(Strip(text));
      SplitEmptyIffBlank(Strip(text));
      if |tokens| > 0 then Some(TrimTrailingPunct(tokens[|tokens| - 1])) else None
  }

  /** A city name as the primary path can produce it: letters and whitespace,
      beginning and ending with a letter. */
  predicate IsLetterPhrase(c: string) {
    c != [] && IsLetter(c[0]) && IsLetter(c[|c| - 1]) && LetterOrSpaceBetween(c, 0, |c|)
  }

  /** Primary path: when the search matches, the city is the stripped group
      and the punctuation trim changes nothing. If the group starts with a
      letter, the city is a non-empty phrase of letters and whitespace without
      whitespace at either end. Otherwise `\s+` gave one whitespace character
      to the group, and the city is the empty string. */
  lemma PrimaryPathCity(text: string)
    requires FindCapture(text).Some?
    ensures var c := FindCapture(text).value;
      && ExtractCity(text) == Some(Strip(text[c.start..c.end]))
      && (IsLetter(text[c.start]) ==> IsLetterPhrase(ExtractCity(text).value))
      && (IsSpace(text[c.start]) ==> ExtractCity(text) == Some([]))
      && (IsLetter(text[c.start]) || IsSpace(text[c.start]))
  {
    var c := FindCapture(text).value;
    MatchAtIsPreferred(text, c.at);
    var g := text[c.start..c.end];
    assert LetterOrSpaceBetween(g, 0, |g|);
    var k := StripIsSlice(g);
    var r := Strip(g);
    assert LetterOrSpaceBetween(r, 0, |r|) by {
      forall j | 0 <= j < |r| ensures IsLetter(r[j]) || IsSpace(r[j]) {
        assert r[j] == g[k + j];
      }
    }
    if IsLetter(text[c.start]) {
      LetterIsNotSpace(g[0]);
      assert r != [];
      assert IsLetter(r[|r| - 1]);
      TrimTrailingPunctNoOp(r);
    } else {
      assert AllSpace(g);
      assert r == [];
    }
  }

  /** Fallback path: with no match and a non-blank text, the city is the last
      whitespace token of the text without its trailing run of `?.!,`. It has
      no whitespace, does not end in one of those characters, and is empty
      when the token consists of them only. */
  lemma FallbackPathCity(text: string)
    requires FindCapture(text).None? && !AllSpace(text)
    ensures ExtractCity(text) == Some(TrimTrailingPunct(LastToken(text)))
    ensures var r := ExtractCity(text).value; var w := LastToken(text);
      && NoSpace(r) && (r == [] || !IsTrailingPunct(r[|r| - 1]))
      && r == w[..|r|] && (forall j :: |r| <= j < |w| ==> IsTrailingPunct(w[j]))
  {
    SplitEmptyIffBlank(Strip(text));
    LastOfSplit(Strip(text));
    LastTokenOfStrip(text);
    var w := LastToken(text);
    var r := TrimTrailingPunct(w);
    assert NoSpace(r) by {
      forall j | 0 <= j < |r| ensures !IsSpace(r[j]) {
        assert r[j] == w[j];
      }
    }
  }

  /** The city is the empty string exactly when the search matched with a
      group that starts with whitespace, or when nothing matched and the last
      token is made of `?.!,` only (for example the token `?!`). */
  lemma EmptyCityCases(text: string)
    ensures ExtractCity(text) == Some([]) <==>
      || (FindCapture(text).Some? && IsSpace(text[FindCapture(text).value.start]))
      || (FindCapture(text).None? && !AllSpace(text)
          && forall j :: 0 <= j < |LastToken(text)| ==> IsTrailingPunct(LastToken(text)[j]))
  {
    if FindCapture(text).Some? {
      PrimaryPathCity(text);
      var c := FindCapture(text).value;
      if IsLetter(text[c.start]) {
        LetterIsNotSpace(text[c.start]);
      }
    } else if !AllSpace(text) {
      FallbackPathCity(text);
    }
  }
}
