/**
 * Concrete utterances and what the model says the chatbot does with them.
 * They illustrate the behaviour the general lemmas describe: case-insensitive
 * whole-word keywords, the priority of date questions, and the three ways
 * extract_city can arrive at its answer.
 */
module Examples {
  import opened Options
  import opened Chars
  import opened PyText
  import opened Classifier
  import opened CityExtractor
  import opened DateFormat
  import opened Router

  /** A text none of whose letters begins a keyword mentions none of them. */
  lemma NoKeywordLetter(t: string, ks: seq<string>)
    requires KeywordsWellFormed(ks)
    requires forall j, n :: 0 <= j < |t| && 0 <= n < |ks| ==> Lower(t[j]) != ks[n][0]
    ensures !MentionsWholeWord(t, ks)
  {
  }

  /** Keywords match regardless of case. */
  lemma ShoutedKeywordIsWeather()
    ensures IsWeatherQuery("Will it RAIN?")
  {
    assert WholeWordAt("Will it RAIN?", 8, WeatherKeywords[3]);
  }

  /** `\b` after the keyword: "rainy" and "snowfall" do not mention "rain" or "snow". */
  lemma LongerWordsAreNotWeather(t: string)
    requires t == "rainy" || t == "snowfall"
    ensures !IsWeatherQuery(t)
  {
    SingleWordMentions(t, WeatherKeywords);
  }

  /** `\b` on both sides: "days", "Sunday" and "timer" are not date words. */
  lemma LongerWordsAreNotDates(t: string)
    requires t == "days" || t == "Sunday" || t == "timer"
    ensures !IsDateQuery(t)
  {
    SingleWordMentions(t, DateKeywords);
  }

  /** A question with both kinds of keyword is answered as a date question. */
  lemma DateQuestionWins(today: CalendarDate)
    ensures Chatbot("temperature today in Paris", today) == DateReply(DateMessage(today))
  {
    assert WholeWordAt("temperature today in Paris", 12, DateKeywords[0]);
  }

  /** No preposition starts at a character other than `i` or `f`, ignoring case. */
  lemma NoPrepositionAt(t: string, i: nat)
    requires i < |t| && Lower(t[i]) != 'i' && Lower(t[i]) != 'f'
    ensures PrepositionAt(t, i) == 0
  {
    if i + 2 <= |t| { assert t[i..i + 2][0] == t[i]; }
    if i + 3 <= |t| { assert t[i..i + 3][0] == t[i]; }
  }

  /** Without an `i` or `f` anywhere, the pattern has nowhere to start. */
  lemma NoPrepositionLetter(t: string)
    requires forall j :: 0 <= j < |t| ==> Lower(t[j]) != 'i' && Lower(t[j]) != 'f'
    ensures FindCapture(t).None?
  {
    forall j | 0 <= j <= |t| ensures MatchAt(t, j).None? {
      if j < |t| { NoPrepositionAt(t, j); }
    }
  }

  /** The search from `k` skips the positions before `i` that do not match. */
  lemma {:induction false} FindFromSkips(t: string, k: nat, i: nat)
    requires k <= i <= |t| && MatchAt(t, i).Some?
    requires forall j :: k <= j < i ==> MatchAt(t, j).None?
    ensures FindFrom(t, k) == MatchAt(t, i)
    decreases i - k
  {
    if k < i {
      FindFromSkips(t, k + 1, i);
    }
  }

  /** A text that is already stripped is its own strip. */
  lemma StrippedText(c: string)
    requires |c| > 0 && !IsSpace(c[0]) && !IsSpace(c[|c| - 1])
    ensures Strip(c) == c
  {
    assert SkipSpace(c, 0) == 0;
    assert SkipSpaceBack(c, 0, |c|) == |c|;
  }

  lemma TokyoMatch(t: string)
    requires t == "Weather for Tokyo?"
    ensures MatchAt(t, 8) == Some(Capture(8, 12, 17))
  {
    assert PrepositionAt(t, 8) == 3;
    assert SkipSpace(t, 12) == 12;
    assert SkipSpace(t, 11) == 12;
    assert LetterOrSpaceEnd(t, 17) == 17;
    assert LetterOrSpaceEnd(t, 16) == 17;
    assert LetterOrSpaceEnd(t, 15) == 17;
    assert LetterOrSpaceEnd(t, 14) == 17;
    assert LetterOrSpaceEnd(t, 13) == 17;
    assert LetterOrSpaceEnd(t, 12) == 17;
  }

  lemma TokyoCapture(t: string)
    requires t == "Weather for Tokyo?"
    ensures FindCapture(t) == Some(Capture(8, 12, 17))
  {
    forall j | 0 <= j < 8 ensures MatchAt(t, j).None? { NoPrepositionAt(t, j); }
    TokyoMatch(t);
    FindFromSkips(t, 0, 8);
  }

  /** The primary path: the letters after "for", without the question mark. */
  lemma CityAfterFor(t: string)
    requires t == "Weather for Tokyo?"
    ensures ExtractCity(t) == Some("Tokyo")
  {
    assert t[12..17] == "Tokyo";
    StrippedText(t[12..17]);
    TokyoCapture(t);
    PrimaryPathCity(t);
  }

  lemma OsloMatch(t: string)
    requires t == "rain in Oslo"
    ensures MatchAt(t, 2) == Some(Capture(2, 5, 12))
  {
    assert PrepositionAt(t, 2) == 2;
    assert SkipSpace(t, 5) == 5;
    assert SkipSpace(t, 4) == 5;
    assert LetterOrSpaceEnd(t, 12) == 12;
    assert LetterOrSpaceEnd(t, 11) == 12;
    assert LetterOrSpaceEnd(t, 10) == 12;
    assert LetterOrSpaceEnd(t, 9) == 12;
    assert LetterOrSpaceEnd(t, 8) == 12;
    assert LetterOrSpaceEnd(t, 7) == 12;
    assert LetterOrSpaceEnd(t, 6) == 12;
    assert LetterOrSpaceEnd(t, 5) == 12;
  }

  lemma OsloCapture(t: string)
    requires t == "rain in Oslo"
    ensures FindCapture(t) == Some(Capture(2, 5, 12))
  {
    NoPrepositionAt(t, 0);
    NoPrepositionAt(t, 1);
    OsloMatch(t);
    FindFromSkips(t, 0, 2);
  }

  /** The preposition needs no word boundary: the "in" inside "rain" is the
      leftmost match, and the group runs on through the real preposition. */
  lemma PrepositionInsideWord(t: string)
    requires t == "rain in Oslo"
    ensures ExtractCity(t) == Some("in Oslo")
  {
    assert t[5..12] == "in Oslo";
    StrippedText(t[5..12]);
    OsloCapture(t);
    PrimaryPathCity(t);
  }

  lemma LoneSpaceMatch(t: string)
    requires t == "snow for  ?"
    ensures MatchAt(t, 5) == Some(Capture(5, 9, 10))
  {
    assert PrepositionAt(t, 5) == 3;
    assert SkipSpace(t, 10) == 10;
    assert SkipSpace(t, 9) == 10;
    assert SkipSpace(t, 8) == 10;
  }

  lemma LoneSpaceCapture(t: string)
    requires t == "snow for  ?"
    ensures FindCapture(t) == Some(Capture(5, 9, 10))
  {
    LoneSpaceMatch(t);
    forall j | 0 <= j < 5 ensures MatchAt(t, j).None? { NoPrepositionAt(t, j); }
    FindFromSkips(t, 0, 5);
  }

  /** Two spaces and no letter after "for": `\s+` gives one space back to the
      group, so the city is empty and the chatbot asks for one. */
  lemma WhitespaceGroup(t: string)
    requires t == "snow for  ?"
    ensures ExtractCity(t) == Some([])
  {
    LoneSpaceCapture(t);
    PrimaryPathCity(t);
  }

  lemma WeatherHasNoCapture(t: string)
    requires t == "Oslo weather?"
    ensures FindCapture(t).None?
  {
    NoPrepositionLetter(t);
  }

  lemma TrimmedWeather()
    ensures TrimTrailingPunct("weather?") == "weather"
  {
    assert PunctRunStart("weather?", 8) == 7;
    assert "weather?"[..7] == "weather";
  }

  lemma WeatherIsLastToken()
    ensures LastToken("Oslo weather?") == "weather?"
  {
    var t := "Oslo weather?";
    assert SkipSpaceBack(t, 0, |t|) == |t|;
    assert WordStart(t, 5) == 5;
    assert WordStart(t, 9) == 5;
    assert WordStart(t, |t|) == 5;
    assert t[5..13] == "weather?";
  }

  /** The fallback path: no preposition, so the last word is taken, even when
      it is the keyword itself. */
  lemma FallbackTakesLastWord(t: string)
    requires t == "Oslo weather?"
    ensures ExtractCity(t) == Some("weather")
  {
    WeatherHasNoCapture(t);
    WeatherIsLastToken();
    TrimmedWeather();
    FallbackPathCity(t);
  }

  lemma PunctuationHasNoCapture(t: string)
    requires t == "weather ?!"
    ensures FindCapture(t).None?
  {
    NoPrepositionLetter(t);
  }

  lemma TrimmedPunctuation()
    ensures TrimTrailingPunct("?!") == []
  {
    assert PunctRunStart("?!", 2) == 0;
  }

  lemma PunctuationIsLastToken()
    ensures LastToken("weather ?!") == "?!"
  {
    var t := "weather ?!";
    assert SkipSpaceBack(t, 0, |t|) == |t|;
    assert WordStart(t, 8) == 8;
    assert WordStart(t, 9) == 8;
    assert WordStart(t, |t|) == 8;
    assert t[8..10] == "?!";
  }

  /** A last token made only of punctuation leaves an empty city. */
  lemma PunctuationTokenIsEmpty(t: string)
    requires t == "weather ?!"
    ensures ExtractCity(t) == Some([])
  {
    PunctuationHasNoCapture(t);
    PunctuationIsLastToken();
    TrimmedPunctuation();
    FallbackPathCity(t);
  }

  /** A weather question with a city goes to the weather service. */
  lemma WeatherQuestionCallsService(t: string, today: CalendarDate)
    requires t == "rain in Oslo"
    ensures Chatbot(t, today) == WeatherCall("in Oslo")
  {
    DateKeywordsWellFormed();
    NoKeywordLetter(t, DateKeywords);
    assert WholeWordAt(t, 0, WeatherKeywords[3]);
    PrepositionInsideWord(t);
  }

  /** A weather question whose city comes out empty gets the request for a city. */
  lemma EmptyCityAsksForCity(t: string, today: CalendarDate)
    requires t == "snow for  ?"
    ensures Chatbot(t, today) == Clarification(ClarificationMessage)
  {
    DateKeywordsWellFormed();
    NoKeywordLetter(t, DateKeywords);
    assert WholeWordAt(t, 0, WeatherKeywords[4]);
    WhitespaceGroup(t);
  }

  /** Anything else goes to the language model unchanged. */
  lemma OtherQuestionGoesToModel(t: string, today: CalendarDate)
    requires t == "Hello again"
    ensures Chatbot(t, today) == KnowledgeCall(t)
  {
    DateKeywordsWellFormed();
    WeatherKeywordsWellFormed();
    NoKeywordLetter(t, DateKeywords);
    NoKeywordLetter(t, WeatherKeywords);
  }
}
