# Weather + AI Bot: the intent router of `chatbot.py`

This project models, in Dafny, the part of the Weather + AI Bot that decides
what to do with one utterance. It covers four functions of `chatbot.py`:

- the two keyword classifiers `is_weather_query` and `is_date_query`;
- the city extractor `extract_city`;
- the dispatcher `chatbot`.

It also models `get_current_date`, with the clock reading passed in as a
parameter.

Every piece is pure, so the model is entirely functions and lemmas over
`seq<char>`. The modules follow the structure of the program:

| module | file | models |
|---|---|---|
| `Chars` | Chars.dfy | character classes of the regexes and string methods (ASCII) |
| `PyText` | PyText.dfy | `str.strip()`, `str.split()`, `re.sub(r"[?.!,]*$", "", s)` |
| `Classifier` | Classifier.dfy | `is_weather_query`, `is_date_query` |
| `CityExtractor` | CityExtractor.dfy | `extract_city` and its regex search |
| `DateFormat` | DateFormat.dfy | `get_current_date` |
| `Router` | Router.dfy | `chatbot` |
| `Examples` | Examples.dfy | concrete utterances and what happens to them |
| `Options` | Options.dfy | `None` or a present value |

The regexes are computed as plain scans:

- The classifiers try every start position in turn, and there every
  alternative in turn, with `\b` checked on both sides.
- The search `(?:in|for)\s+([a-zA-Z\s]+)` is computed as the backtracking
  engine performs it. Its specification is the set of every way the pattern
  can match (`CityExtractor.IsMatch`). The search returns the leftmost match.
  At that position it takes the longest `\s+`, and then the longest group.

Each scan is proved equal to its specification. Three behaviours of the code
come out exactly:

- **The preposition is not word-bounded.** In "rain in Oslo", the "in" inside
  "rain" is the leftmost match, so the city is "in Oslo".
- **`\s+` can give a space back.** Say the whitespace after the preposition is
  two or more characters long and no letter follows it. Then `\s+` gives its
  last character to the group. For "snow for  ?" the group is a single space,
  so the city is the empty string and the chatbot asks for a city.
- **The fallback can return the keyword itself.** With no preposition, the
  last token is taken ("Oslo weather?" gives "weather"). A token made only of
  `?.!,` gives the empty string.

The character classes are the ASCII parts of Python's classes:

- whitespace (`\s`, `strip`, `split`) is codes 9–13, 28–31 and 32;
- `\w` is the ASCII letters, the digits and `_`;
- `re.IGNORECASE` is ASCII lower-casing.

`$` in `[?.!,]*$` could also match before a final line feed. That never
matters here: the trim is applied only to stripped text or to a token, and
neither ends in whitespace.

`chatbot.py` does no noise-word filtering and no title-casing of the city.
Its only date pattern is `\b(today|date|day|time)\b`, and it returns the
language model's text without trimming. The model follows `chatbot.py`.
Likewise, `chatbot` asks for a city whenever the city is falsy. That means
`None` or the empty string, and the empty string does occur (see above).

## Model

| member | source | states |
|---|---|---|
| Chars.Lower | chatbot.py:22 | the case folding of `re.IGNORECASE`: an ASCII upper-case letter becomes its lower-case letter, any other character stays as it is |
| PyText.Strip | chatbot.py:32 | `strip()` is empty exactly when the text is blank; otherwise it starts and ends with a non-whitespace character |
| PyText.StripIsSlice | chatbot.py:32 | `strip()` keeps one contiguous slice and drops only whitespace before and after it |
| PyText.Split | chatbot.py:36 | every token of `split()` is non-empty and has no whitespace |
| PyText.SplitEmptyIffBlank | chatbot.py:36-37 | `split()` has no tokens exactly when the text is blank |
| PyText.LastToken | chatbot.py:38 | the right-to-left reference for `tokens[-1]`: it has no whitespace, and it is empty exactly when the text is blank |
| PyText.LastOfSplit | chatbot.py:36-38 | the last token of `split()` is LastToken |
| PyText.LastTokenOfStrip | chatbot.py:36 | stripping before splitting does not change the last token |
| PyText.TrimTrailingPunct | chatbot.py:33 | the trim (also used at line 39) keeps a prefix, drops only `?.!,`, and leaves no `?.!,` at the end, so it removes the maximal trailing run |
| PyText.TrimTrailingPunctNoOp | chatbot.py:33 | text not ending in `?.!,` is unchanged |
| PyText.TrimTrailingPunctIdempotent | chatbot.py:33 | a property of the trim itself: applying it a second time would change nothing (the code applies it once on each path) |
| Classifier.IsBoundary | chatbot.py:22 | `\b` before a word character holds exactly when no word character precedes it, after one exactly when none follows, and never in the empty text |
| Classifier.AnyKeywordAt | chatbot.py:22 | the alternation succeeds at a position exactly when some keyword matches there, ignoring case, with `\b` on both sides |
| Classifier.SearchFrom | chatbot.py:23 | the search succeeds exactly when such a match exists at some position from the start point on |
| Classifier.BoundariesAreWholeWord | chatbot.py:22 | for a keyword of letters, having `\b` on both sides means no word character touches the occurrence |
| Classifier.SearchIsWholeWordMention | chatbot.py:21-27 | the regex search succeeds exactly when some keyword occurs as a whole word, ignoring case |
| Classifier.IsWeatherQuery | chatbot.py:21-23 | true exactly when one of weather/temperature/forecast/rain/snow/sunny/cloudy occurs as a whole word, ignoring case |
| Classifier.IsDateQuery | chatbot.py:25-27 | true exactly when one of today/date/day/time occurs as a whole word, ignoring case |
| Classifier.SingleWordMentions | chatbot.py:22 | a text made only of word characters mentions a keyword exactly when it equals one, ignoring case |
| Classifier.MentionHasLetter | chatbot.py:21-23 | a text a classifier accepts contains a letter |
| CityExtractor.PrepositionAt | chatbot.py:30 | the alternative of `(?:in|for)` at a position, ignoring case: 2 for "in", 3 for "for", 0 for neither, in both directions |
| CityExtractor.LetterOrSpaceEnd | chatbot.py:30 | the greedy `[a-zA-Z\s]+` ends at the first character outside the class |
| CityExtractor.MatchAt | chatbot.py:30 | a match found at a position has a non-empty group inside the text; a group that starts with whitespace is one character long |
| CityExtractor.MatchBounds | chatbot.py:30 | any match at a position fits inside the whitespace run and letter run that MatchAt looks at |
| CityExtractor.MatchAtIsPreferred | chatbot.py:30 | MatchAt returns the match the engine prefers (longest `\s+`, then longest group), and None only when no match exists at that position |
| CityExtractor.FindFrom | chatbot.py:30 | the search returns the first position with a match, and None only when no later position has one |
| CityExtractor.FindCapture | chatbot.py:30 | the group of the match lies inside the text |
| CityExtractor.FindCaptureIsLeftmostPreferred | chatbot.py:30 | `re.search` gives the leftmost match and its preferred group; None means the pattern matches nowhere |
| CityExtractor.MatchedTextIsNotBlank | chatbot.py:30-31 | a text in which the search matches is not blank, since the match begins with a letter of "in" or "for" |
| CityExtractor.ExtractCity | chatbot.py:29-41 | `extract_city` returns None exactly when the text is blank; a city it returns never ends in `?.!,` (PrimaryPathCity and FallbackPathCity say which city it is on each path) |
| CityExtractor.PrimaryPathCity | chatbot.py:30-34 | on a match, the city is the stripped group and the trim does nothing; a group starting with a letter gives a non-empty phrase of letters and whitespace with a letter at each end; a group starting with whitespace gives "" |
| CityExtractor.FallbackPathCity | chatbot.py:35-40 | with no match and a non-blank text, the city is the last token without its trailing run of `?.!,`; it has no whitespace and does not end in `?.!,` |
| CityExtractor.EmptyCityCases | chatbot.py:29-41 | the city is "" exactly when the match's group starts with whitespace, or when there is no match and the last token consists only of `?.!,` |
| DateFormat.WeekdayName | chatbot.py:19 | `%A` is a capitalised name: an upper-case letter, then at least two lower-case letters |
| DateFormat.MonthName | chatbot.py:19 | `%B` is a capitalised name: an upper-case letter, then at least two lower-case letters |
| DateFormat.WeekdayNameRoundTrip | chatbot.py:19 | `%A` names are read back to their weekday and contain no comma |
| DateFormat.MonthNameRoundTrip | chatbot.py:19 | `%B` names are read back to their month and contain no space |
| DateFormat.Pad2RoundTrip | chatbot.py:19 | two zero-padded digits are read back to their number |
| DateFormat.DayDigits | chatbot.py:19 | `%d` has exactly two characters |
| DateFormat.YearDigits | chatbot.py:19 | `%Y` has exactly four characters |
| DateFormat.DateMessage | chatbot.py:17-19 | the reply begins with "Today is " and ends with a full stop |
| DateFormat.DayYearRoundTrip | chatbot.py:19 | the `DD, YYYY` part is read back to its day and year |
| DateFormat.DateText | chatbot.py:19 | the `strftime('%A, %B %d, %Y')` text is read back to its date |
| DateFormat.ParseDateMessageRoundTrip | chatbot.py:17-19 | parsing the reply of `get_current_date` gives back the date it was made from |
| DateFormat.DateMessageInjective | chatbot.py:17-19 | different dates give different replies |
| Router.WeatherQueryHasCity | chatbot.py:67-68 | on the weather branch `extract_city` never returns None |
| Router.Chatbot | chatbot.py:64-74 | a date word always gives the date reply, even when a weather word is present; otherwise a weather word calls the weather service exactly when the city is non-empty, with that city; it gives the fixed clarification exactly when the city is ""; with neither kind of word, the unchanged utterance goes to the language model |
| Examples.ShoutedKeywordIsWeather | chatbot.py:22 | "Will it RAIN?" is a weather question |
| Examples.LongerWordsAreNotWeather | chatbot.py:22 | "rainy" and "snowfall" are not weather questions |
| Examples.LongerWordsAreNotDates | chatbot.py:26 | "days", "Sunday" and "timer" are not date questions |
| Examples.DateQuestionWins | chatbot.py:65-66 | "temperature today in Paris" gets the date reply |
| Examples.CityAfterFor | chatbot.py:30-34 | "Weather for Tokyo?" gives "Tokyo" |
| Examples.PrepositionInsideWord | chatbot.py:30-34 | "rain in Oslo" gives "in Oslo" |
| Examples.WhitespaceGroup | chatbot.py:30-34 | "snow for  ?" gives "" |
| Examples.FallbackTakesLastWord | chatbot.py:36-40 | "Oslo weather?" gives "weather" |
| Examples.PunctuationTokenIsEmpty | chatbot.py:36-40 | "weather ?!" gives "" |
| Examples.WeatherQuestionCallsService | chatbot.py:67-70 | "rain in Oslo" calls the weather service with "in Oslo" |
| Examples.EmptyCityAsksForCity | chatbot.py:67-72 | "snow for  ?" gets the clarification |
| Examples.OtherQuestionGoesToModel | chatbot.py:73-74 | "Hello again" goes to the language model unchanged |

## Left out

- `get_weather` (chatbot.py:43-52): an HTTP request and the formatting of its JSON reply. A `Router.Reply` of `WeatherCall(city)` stands for the call.
- `query_google_ai` (chatbot.py:54-62): a call to a hosted language model. `KnowledgeCall(utterance)` stands for it.
- Reading API keys from the environment and configuring the model client (chatbot.py:9-15) is global set-up outside the routing logic.
- `datetime.now()` (chatbot.py:18): the clock reading is a `DateFormat.CalendarDate` parameter. Whether its weekday matches its calendar date is not checked.
- The console loop (chatbot.py:76-84) is input and output only.
- launch_streamlit_ngrok.py is not part of this model. It starts processes and a network tunnel.
- Unicode: the character classes are ASCII only. Python's `\s`, `\w`, `str.split()` and `re.IGNORECASE` also act on non-ASCII characters (for example U+017F folds to `s`, U+212A folds to `k`, and U+00A0 is whitespace).
- DateFormat.Year: only four-digit years (1000–9999) are modelled. For earlier years, whether `%Y` pads with zeros depends on the platform.
- DateFormat.WeekdayName: the weekday and month names are those of the C/English locale. Other locales give other names.
