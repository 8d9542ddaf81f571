/**
 * The two intent tests of the chatbot, `is_weather_query` and `is_date_query`.
 * Each one is `re.compile(r"\b(k1|k2|...)\b", re.IGNORECASE).search(text)`
 * turned into a boolean. The model computes the search the way the regex
 * engine does: every start position in turn, every alternative in turn, with
 * `\b` checked on both sides. The lemmas show that the search succeeds exactly
 * when some keyword occurs, ignoring case, with no word character right
 * before it and none right after it.
 */
module Classifier {
  import opened Chars

  /** The alternatives of the weather pattern, in the order they are written. */
  const WeatherKeywords: seq<string> :=
    ["weather", "temperature", "forecast", "rain", "snow", "sunny", "cloudy"]

  /** The alternatives of the date pattern, in the order they are written. */
  const DateKeywords: seq<string> := ["today", "date", "day", "time"]

  /** Every alternative is a non-empty word of lower-case letters. */
  predicate KeywordsWellFormed(ks: seq<string>) {
    forall n :: 0 <= n < |ks| ==> IsLowerWord(ks[n])
  }

  /** The regex assertion `\b` at position `i`: a word character on exactly one
      side. Before a word character it holds exactly when no word character
      precedes; after one, exactly when none follows; never in the empty text. */
  function IsBoundary(t: string, i: nat): (b: bool)
    requires i <= |t|
    ensures i < |t| && IsWordChar(t[i]) ==> (b <==> i == 0 || !IsWordChar(t[i - 1]))
    ensures 0 < i && IsWordChar(t[i - 1]) ==> (b <==> i == |t| || !IsWordChar(t[i]))
    ensures t == [] ==> !b
  {
    (i > 0 && IsWordChar(t[i - 1])) != (i < |t| && IsWordChar(t[i]))
  }

  /** `\b` keyword `\b` matches the text at position `i`, ignoring case. */
  predicate KeywordMatchAt(t: string, i: nat, k: string)
    requires i <= |t|
  {
    i + |k| <= |t| && IsBoundary(t, i) && EqualsIgnoreCase(t[i..i + |k|], k) && IsBoundary(t, i + |k|)
  }

  /** The alternation `(k1|k2|...)`, tried in order at the position `i`. */
  function AnyKeywordAt(t: string, i: nat, ks: seq<string>): (found: bool)
    requires i <= |t|
    ensures found <==> exists n :: 0 <= n < |ks| && KeywordMatchAt(t, i, ks[n])
  {
    if ks == [] then false
    else if KeywordMatchAt(t, i, ks[0]) then true
    else
      var found := AnyKeywordAt(t, i, ks[1..]);
      assert forall n :: 1 <= n < |ks| ==> ks[n] == ks[1..][n - 1];
      found
  }

  /** `pattern.search(text)` started at position `i`, turned into a boolean. */
  function SearchFrom(t: string, i: nat, ks: seq<string>): (found: bool)
    requires i <= |t|
    ensures found <==> exists j, n :: i <= j <= |t| && 0 <= n < |ks| && KeywordMatchAt(t, j, ks[n])
    decreases |t| - i
  {
    if AnyKeywordAt(t, i, ks) then true
    else if i == |t| then false
    else SearchFrom(t, i + 1, ks)
  }

  /** The specification: keyword `k` occurs at `i`, ignoring case, with no word
      character immediately before or after it. */
  predicate WholeWordAt(t: string, i: int, k: string) {
    0 <= i && i + |k| <= |t| && EqualsIgnoreCase(t[i..i + |k|], k)
    && (i == 0 || !IsWordChar(t[i - 1]))
    && (i + |k| == |t| || !IsWordChar(t[i + |k|]))
  }

  /** Some keyword of `ks` occurs in the text as a whole word. */
  ghost predicate MentionsWholeWord(t: string, ks: seq<string>) {
    exists i, n :: 0 <= n < |ks| && WholeWordAt(t, i, ks[n])
  }

  /** For a keyword made of letters, `\b` on both sides of a case-insensitive
      occurrence means exactly that no word character touches it. */
  lemma BoundariesAreWholeWord(t: string, i: nat, k: string)
    requires i <= |t| && IsLowerWord(k)
    ensures KeywordMatchAt(t, i, k) <==> WholeWordAt(t, i, k)
  {
    if i + |k| <= |t| && EqualsIgnoreCase(t[i..i + |k|], k) {
      var w := t[i..i + |k|];
      assert w[0] == t[i] && w[|k| - 1] == t[i + |k| - 1];
      MatchedLetterIsWordChar(t[i], k[0]);
      MatchedLetterIsWordChar(t[i + |k| - 1], k[|k| - 1]);
    }
  }

  /** The regex search succeeds exactly when a keyword occurs as a whole word. */
  lemma SearchIsWholeWordMention(t: string, ks: seq<string>)
    requires KeywordsWellFormed(ks)
    ensures SearchFrom(t, 0, ks) <==> MentionsWholeWord(t, ks)
  {
    if SearchFrom(t, 0, ks) {
      var j, n :| 0 <= j <= |t| && 0 <= n < |ks| && KeywordMatchAt(t, j, ks[n]);
      BoundariesAreWholeWord(t, j, ks[n]);
    }
    if MentionsWholeWord(t, ks) {
      var j, n :| 0 <= n < |ks| && WholeWordAt(t, j, ks[n]);
      BoundariesAreWholeWord(t, j, ks[n]);
      assert KeywordMatchAt(t, j, ks[n]);
    }
  }

  lemma WeatherKeywordsWellFormed()
    ensures KeywordsWellFormed(WeatherKeywords)
  {
  }

  lemma DateKeywordsWellFormed()
    ensures KeywordsWellFormed(DateKeywords)
  {
  }

  /** `is_weather_query`. */
  function IsWeatherQuery(t: string): (b: bool)
    ensures b <==> MentionsWholeWord(t, WeatherKeywords)
  {
    WeatherKeywordsWellFormed();
    SearchIsWholeWordMention(t, WeatherKeywords);
    SearchFrom(t, 0, WeatherKeywords)
  }

  /** `is_date_query`. */
  function IsDateQuery(t: string): (b: bool)
    ensures b <==> MentionsWholeWord(t, DateKeywords)
  {
    DateKeywordsWellFormed();
    SearchIsWholeWordMention(t, DateKeywords);
    SearchFrom(t, 0, DateKeywords)
  }

  /** A text made only of word characters mentions a keyword exactly when it
      is that keyword, ignoring case: no keyword is found inside a longer word. */
  lemma SingleWordMentions(t: string, ks: seq<string>)
    requires forall j :: 0 <= j < |t| ==> IsWordChar(t[j])
    ensures MentionsWholeWord(t, ks) <==> exists n :: 0 <= n < |ks| && EqualsIgnoreCase(t, ks[n])
  {
    assert t[0..|t|] == t;
    if MentionsWholeWord(t, ks) {
      var i, n :| 0 <= n < |ks| && WholeWordAt(t, i, ks[n]);
      assert i == 0 && i + |ks[n]| == |t|;
    }
    if exists n :: 0 <= n < |ks| && EqualsIgnoreCase(t, ks[n]) {
      var n :| 0 <= n < |ks| && EqualsIgnoreCase(t, ks[n]);
      assert WholeWordAt(t, 0, ks[n]);
    }
  }

  /** A text that a classifier accepts holds a letter, so it is not blank. */
  lemma MentionHasLetter(t: string, ks: seq<string>)
    requires KeywordsWellFormed(ks) && MentionsWholeWord(t, ks)
    ensures exists j :: 0 <= j < |t| && IsLetter(t[j])
  {
    var i, n :| 0 <= n < |ks| && WholeWordAt(t, i, ks[n]);
    var k := ks[n];
    assert t[i..i + |k|][0] == t[i];
    MatchedLetterIsWordChar(t[i], k[0]);
  }
}
