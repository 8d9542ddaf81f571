/**
 * `chatbot(user_input)`: the dispatcher that routes one utterance.
 *
 * A date question is answered from the clock; a weather question goes to the
 * weather service with the city extract_city found, or is answered with a
 * request for a city when there is none; anything else goes to the language
 * model. The two services are outside the model: a Reply says which of them
 * is called and with what argument, and the clock reading is a parameter.
 */
module Router {
  import opened Options
  import opened Chars
  import opened PyText
  import opened Classifier
  import opened CityExtractor
  import opened DateFormat

  const ClarificationMessage: string := "Please specify a city for the weather query."

  datatype Reply =
    | DateReply(message: string)        // get_current_date()
    | WeatherCall(city: string)         // get_weather(city)
    | Clarification(message: string)    // the fixed request for a city
    | KnowledgeCall(utterance: string)  // query_google_ai(user_input)

  /** On the weather branch extract_city never returns `None`: the utterance
      holds a keyword, so it is not blank. */
  lemma WeatherQueryHasCity(input: string)
    requires IsWeatherQuery(input)
    ensures ExtractCity(input).Some?
  {
    WeatherKeywordsWellFormed();
    MentionHasLetter(input, WeatherKeywords);
    var j :| 0 <= j < |input| && IsLetter(input[j]);
    LetterIsNotSpace(input[j]);
  }

  /** `chatbot(user_input)`, with the clock reading `today`. */
  function Chatbot(input: string, today: CalendarDate): (r: Reply)
    ensures r.DateReply? <==> MentionsWholeWord(input, DateKeywords)
    ensures r.DateReply? ==> r.message == DateMessage(today)
    ensures r.WeatherCall? <==>
              !MentionsWholeWord(input, DateKeywords) && MentionsWholeWord(input, WeatherKeywords)
              && ExtractCity(input).Some? && ExtractCity(input).value != []
    ensures r.WeatherCall? ==> ExtractCity(input) == Some(r.city) && r.city != []
    ensures r.Clarification? <==>
              !MentionsWholeWord(input, DateKeywords) && MentionsWholeWord(input, WeatherKeywords)
              && ExtractCity(input) == Some([])
    ensures r.Clarification? ==> r.message == ClarificationMessage
    ensures r.KnowledgeCall? <==>
              !MentionsWholeWord(input, DateKeywords) && !MentionsWholeWord(input, WeatherKeywords)
    ensures r.KnowledgeCall? ==> r.utterance == input
  {
    if IsDateQuery(input) then DateReply(DateMessage(today))
    else if IsWeatherQuery(input) then
      WeatherQueryHasCity(input);
      var city := ExtractCity(input);
      if city.Some? && city.value != [] then WeatherCall(city.value) else Clarification(ClarificationMessage)
    else KnowledgeCall(input)
  }
}
