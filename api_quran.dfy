/**
 * The `/quran` router: verse explanation, chapter information and search.
 *
 * Every endpoint here is a function of the Quran API oracle and the
 * text-generation provider. `ExplainVerse` also reports the calls it made,
 * in order, so that what is not asked for can be stated.
 */
module QuranApi {
  import opened Wrappers
  import opened Text
  import opened Schemas
  import Http
  import QuranService
  import OpenAIService

  /** One call an endpoint makes: a request to the Quran API, or a message list sent to the provider. */
  datatype Call = Fetched(request: QuranService.Request) | Prompted(messages: seq<Message>)

  /** An endpoint's outcome together with the calls it made. */
  datatype Handled<T> = Handled(outcome: Http.Outcome<T>, calls: seq<Call>)

  // ---------------------------------------------------------------- POST /quran/explain

  /** `if request.ayah_number:` — a missing (or zero) ayah number asks for the first ayah. */
  function RequestedAyah(ayah: Option<int>): (a: int)
    ensures ayah.None? || ayah == Some(0) ==> a == 1
    ensures ayah.Some? && ayah.value != 0 ==> a == ayah.value
  {
    if ayah.Some? && ayah.value != 0 then ayah.value else 1
  }

  /**
   * A request that passes validation never reaches the `0` fallback: a given
   * ayah number is the one fetched, and no ayah means ayah 1.
   */
  lemma ValidRequestAsksForItsAyah(request: QuranExplainRequest)
    requires ValidQuranExplainRequest(request)
    ensures request.ayahNumber.Some? ==> RequestedAyah(request.ayahNumber) == request.ayahNumber.value >= 1
    ensures request.ayahNumber.None? ==> RequestedAyah(request.ayahNumber) == 1
  {
  }

  function DefaultSurahName(surah: int): string {
    "Surah " + IntToString(surah)
  }

  /** A chapter object without any of the modelled keys, which Python reads as false. */
  predicate EmptyChapter(c: QuranService.Chapter) {
    c == QuranService.Chapter(None, None, None, None, None)
  }

  /** The simple name from the chapter information, or `Surah {n}` when there is none. */
  function SurahName(info: Option<QuranService.Chapter>, surah: int): (name: string)
    ensures info.Some? && !EmptyChapter(info.value) && info.value.nameSimple.Some? ==> name == info.value.nameSimple.value
    ensures info.None? || EmptyChapter(info.value) || info.value.nameSimple.None? ==> name == DefaultSurahName(surah)
  {
    if info.Some? && !EmptyChapter(info.value) then info.value.nameSimple.GetOr(DefaultSurahName(surah))
    else DefaultSurahName(surah)
  }

  function VerseCalls(quran: QuranService.Service, surah: int, ayah: int, translationId: int): (calls: seq<Call>)
    ensures |calls| == |QuranService.VerseRequests(quran, surah, ayah, translationId)|
    ensures forall i | 0 <= i < |calls| :: calls[i] == Fetched(QuranService.VerseRequests(quran, surah, ayah, translationId)[i])
  {
    var sent := QuranService.VerseRequests(quran, surah, ayah, translationId);
    seq(|sent|, i requires 0 <= i < |sent| => Fetched(sent[i]))
  }

  /**
   * `explain_verse`: fetch the verse in the request's language, then ask for
   * the explanation, then fetch the chapter information for the name. A
   * verse that cannot be fetched is a 404, raised before either of the later calls.
   */
  function ExplainVerse(quran: QuranService.Service, provider: OpenAIService.Provider, request: QuranExplainRequest)
    : (r: Handled<QuranResponse>)
    ensures r.calls != [] && r.calls[0].Fetched?
    ensures r.outcome.Failure? ==> r.outcome.error == Http.HttpException(404, "Verse not found")
    ensures r.outcome.Success? ==>
              r.outcome.value.surahNumber == request.surahNumber && r.outcome.value.language == request.language.Code()
  {
    var language := request.language.Code();
    var translationId := QuranService.TranslationId(language);
    var surah := request.surahNumber;
    var ayah := RequestedAyah(request.ayahNumber);
    var verseCalls := VerseCalls(quran, surah, ayah, translationId);
    match QuranService.GetVerse(quran, surah, ayah, translationId)
    case None => Handled(Failure(Http.HttpException(Http.NotFound, "Verse not found")), verseCalls)
    case Some(verse) =>
      var messages := OpenAIService.QuranMessages(verse.arabicText, verse.translation, language);
      var explanation := OpenAIService.ExplainQuranVerse(provider, verse.arabicText, verse.translation, language);
      var info := QuranService.GetSurahInfo(quran, surah);
      Handled(Success(QuranResponse(surah, SurahName(info, surah), Some(verse.ayahNumber), verse.arabicText,
                                    verse.translation, explanation, language)),
              verseCalls + [Prompted(messages), Fetched(QuranService.ChapterInfoRequest(quran, surah))])
  }

  /**
   * A 404 exactly when the verse cannot be fetched; then only the verse
   * requests were made, so neither the provider nor the chapter information
   * was consulted, and the outcome is the same whatever the provider says.
   */
  lemma ExplainVerseNotFound(quran: QuranService.Service, provider: OpenAIService.Provider,
                             other: OpenAIService.Provider, request: QuranExplainRequest)
    ensures var h := ExplainVerse(quran, provider, request);
            var tid := QuranService.TranslationId(request.language.Code());
            var ayah := RequestedAyah(request.ayahNumber);
            && (h.outcome.Failure? <==> QuranService.GetVerse(quran, request.surahNumber, ayah, tid).None?)
            && (h.outcome.Failure? ==>
                  && h.outcome.error == Http.HttpException(404, "Verse not found")
                  && (forall i | 0 <= i < |h.calls| :: h.calls[i].Fetched?)
                  && 1 <= |h.calls| <= 2
                  && ExplainVerse(quran, other, request) == h)
  {
  }

  /**
   * A found verse makes exactly one provider call, after the verse requests
   * and before the chapter-information request, and the response carries
   * the verse's text and translation unchanged, the requested ayah, and the
   * chapter's name.
   */
  lemma ExplainVerseFound(quran: QuranService.Service, provider: OpenAIService.Provider, request: QuranExplainRequest)
    requires ExplainVerse(quran, provider, request).outcome.Success?
    ensures var h := ExplainVerse(quran, provider, request);
            var language := request.language.Code();
            var tid := QuranService.TranslationId(language);
            var ayah := RequestedAyah(request.ayahNumber);
            var verse := QuranService.GetVerse(quran, request.surahNumber, ayah, tid).value;
            var r := h.outcome.value;
            && |h.calls| == 4
            && h.calls[0] == Fetched(QuranService.ArabicRequest(quran, request.surahNumber, ayah))
            && h.calls[1] == Fetched(QuranService.TranslationRequest(quran, request.surahNumber, ayah, tid))
            && h.calls[2] == Prompted(OpenAIService.QuranMessages(verse.arabicText, verse.translation, language))
            && h.calls[3] == Fetched(QuranService.ChapterInfoRequest(quran, request.surahNumber))
            && r.surahNumber == request.surahNumber && r.ayahNumber == Some(ayah)
            && r.arabicText == verse.arabicText && r.translation == verse.translation
            && r.explanation == OpenAIService.ExplainQuranVerse(provider, verse.arabicText, verse.translation, language)
            && r.surahName == SurahName(QuranService.GetSurahInfo(quran, request.surahNumber), request.surahNumber)
            && r.language == language
  {
  }

  /** The translation fetched is the one for the request's language. */
  lemma ExplainVerseTranslation(quran: QuranService.Service, provider: OpenAIService.Provider, request: QuranExplainRequest)
    requires |ExplainVerse(quran, provider, request).calls| == 4
    ensures ExplainVerse(quran, provider, request).calls[1].request.params[0]
            == ("translations", IntToString(QuranService.TranslationId(request.language.Code())))
  {
    assert ExplainVerse(quran, provider, request).outcome.Success?;
  }

  // ---------------------------------------------------------------- GET /quran/surah/{n}

  /**
   * `get_surah_info`: a number outside 1..114 is a 400 before any request;
   * otherwise the chapter information, or a 404 when there is none.
   */
  function SurahInfo(quran: QuranService.Service, surah: int): (h: Handled<QuranService.Chapter>)
    ensures !(1 <= surah <= 114) <==> h.outcome == Failure(Http.HttpException(400, "Invalid Surah number (1-114)"))
    ensures !(1 <= surah <= 114) <==> h.calls == []
    ensures 1 <= surah <= 114 ==> h.calls == [Fetched(QuranService.ChapterInfoRequest(quran, surah))]
    ensures 1 <= surah <= 114 ==>
              var info := QuranService.GetSurahInfo(quran, surah);
              && (h.outcome.Failure? <==> info.None? || EmptyChapter(info.value))
              && (h.outcome.Failure? ==> h.outcome.error == Http.HttpException(404, "Surah not found"))
              && (h.outcome.Success? ==> h.outcome.value == info.value)
  {
    if !(1 <= surah <= 114) then
      Handled(Failure(Http.HttpException(Http.BadRequest, "Invalid Surah number (1-114)")), [])
    else
      var calls := [Fetched(QuranService.ChapterInfoRequest(quran, surah))];
      match QuranService.GetSurahInfo(quran, surah)
      case None => Handled(Failure(Http.HttpException(Http.NotFound, "Surah not found")), calls)
      case Some(info) =>
        if EmptyChapter(info) then Handled(Failure(Http.HttpException(Http.NotFound, "Surah not found")), calls)
        else Handled(Success(info), calls)
  }

  // ---------------------------------------------------------------- GET /quran/search

  datatype SearchResponse = SearchResponse(query: string, results: seq<QuranService.SearchResult>)

  /** The body of `search_quran`'s `try` block: a failed search raises a 500 "Search failed". */
  function SearchBody(quran: QuranService.Service, query: string, language: string): (r: Http.Outcome<SearchResponse>)
    ensures r.Failure? <==> QuranService.SearchQuran(quran, query, language).None?
    ensures r.Failure? ==> r.error == Http.HttpException(500, "Search failed")
    ensures r.Success? ==> r.value == SearchResponse(query, QuranService.SearchQuran(quran, query, language).value)
  {
    match QuranService.SearchQuran(quran, query, language)
    case None => Failure(Http.HttpException(Http.InternalServerError, "Search failed"))
    case Some(results) => Success(SearchResponse(query, results))
  }

  /**
   * `search_quran` as written: the generic handler has no
   * `except HTTPException: raise` before it, so it catches the 500 raised in
   * the block and raises a new 500 whose detail is `500: Search failed`.
   */
  function SearchAsWritten(quran: QuranService.Service, query: string, language: string): (r: Http.Outcome<SearchResponse>)
    ensures QuranService.SearchQuran(quran, query, language).None? ==>
              r == Failure(Http.HttpException(500, "500: Search failed"))
    ensures QuranService.SearchQuran(quran, query, language).Some? ==> r == SearchBody(quran, query, language)
  {
    assert IntToString(500) + ": " + "Search failed" == "500: Search failed" by {
      assert IntToString(500) == "500";
    }
    Http.CatchAll(SearchBody(quran, query, language))
  }

  /** A search API that fails every request: the as-written endpoint reports a doubled status in its detail. */
  lemma SearchFailureDetailIsDoubled(baseUrl: string, query: string, language: string)
    ensures var quran := QuranService.Service(baseUrl, (r: QuranService.Request) => None);
            && SearchAsWritten(quran, query, language).error.detail == "500: Search failed"
            && SearchAsWritten(quran, query, language) != SearchBody(quran, query, language)
  {
  }

  /**
   * `search_quran` with the HTTP exception passed through, as the other
   * endpoints of the router do: a failed search is a 500 whose detail is
   * exactly "Search failed", and a successful one returns the query with the results.
   */
  function Search(quran: QuranService.Service, query: string, language: string): (r: Http.Outcome<SearchResponse>)
    ensures r.Failure? <==> QuranService.SearchQuran(quran, query, language).None?
    ensures r.Failure? ==> r.error.status == 500 && r.error.detail == "Search failed"
    ensures r.Success? ==> r.value.query == query && r.value.results == QuranService.SearchQuran(quran, query, language).value
  {
    SearchBody(quran, query, language)
  }
}
