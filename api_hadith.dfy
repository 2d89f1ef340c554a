/**
 * The `/hadith` router: explanation of a requested hadith, a random hadith
 * with its explanation, and the collection listing.
 *
 * The hadith source and the text-generation provider are as in the
 * services; the endpoints that fetch also return the URLs they requested
 * and the message lists they sent.
 */
module HadithApi {
  import opened Wrappers
  import opened Text
  import opened Schemas
  import Http
  import HadithService
  import OpenAIService

  const Authenticity: string := "Sahih"

  // ---------------------------------------------------------------- POST /hadith/explain

  /** The response for a found hadith: its fields, its text as the translation, and the explanation. */
  function ResponseFor(h: HadithService.HadithRecord, explanation: string, language: string): HadithResponse {
    HadithResponse(h.collection, h.bookNumber, Some(h.hadithNumber), Some(h.arabic), h.text, explanation,
                   Some(Authenticity), language)
  }

  /**
   * `explain_hadith`: a hadith the source cannot supply is a 404 and the
   * provider is not asked; otherwise the record is explained and returned
   * field by field, with the text as the translation and a fixed grading.
   */
  method ExplainHadith(svc: HadithService.Service, provider: OpenAIService.Provider,
                       request: HadithExplainRequest, start: nat)
    returns (r: Http.Outcome<HadithResponse>, tried: seq<string>, prompted: seq<seq<Message>>)
    ensures tried == HadithService.Attempted(svc, request.collection, request.bookNumber, start)
    ensures var found := HadithService.Resolve(svc, request.collection, request.bookNumber, start);
            && (r.Failure? <==> found.None?)
            && (r.Failure? ==> r.error == Http.HttpException(404, "Hadith not found") && prompted == [])
            && (r.Success? ==>
                  var h := found.value;
                  var language := request.language.Code();
                  && prompted == [OpenAIService.HadithMessages(h.text, language)]
                  && r.value.collection == h.collection && r.value.bookNumber == h.bookNumber
                  && r.value.hadithNumber == Some(h.hadithNumber)
                  && r.value.translation == h.text && r.value.arabicText == Some(h.arabic)
                  && r.value.authenticity == Some("Sahih")
                  && r.value.explanation == OpenAIService.ExplainHadith(provider, h.text, language)
                  && r.value.language == language)
  {
    var hadith;
    hadith, tried := HadithService.GetHadith(svc, request.collection, request.bookNumber, start);
    if hadith.None? {
      return Failure(Http.HttpException(Http.NotFound, "Hadith not found")), tried, [];
    }
    var language := request.language.Code();
    var explanation := OpenAIService.ExplainHadith(provider, hadith.value.text, language);
    prompted := [OpenAIService.HadithMessages(hadith.value.text, language)];
    r := Success(ResponseFor(hadith.value, explanation, language));
  }

  /**
   * A request that passes validation has a book number of at least 1, so the
   * resolver only replaces it when it exceeds the collection's book count.
   */
  lemma ValidRequestClampsOnlyAbove(request: HadithExplainRequest, books: int)
    requires ValidHadithExplainRequest(request)
    ensures HadithService.ClampBook(request.bookNumber, books) != request.bookNumber
            <==> request.bookNumber > books && request.bookNumber != 1
  {
  }

  // ---------------------------------------------------------------- GET /hadith/random

  /** The random endpoint's body: the record as fetched, its explanation, and the language asked for. */
  datatype RandomHadithResponse = RandomHadithResponse(hadith: HadithService.HadithRecord, explanation: string, language: string)

  const NotFetchedDetail: string := "Could not fetch hadith"

  /** The error raised when no hadith comes back. */
  const NotFetched: Http.HttpException := Http.HttpException(Http.NotFound, NotFetchedDetail)

  /** What the generic handler turns that error into: a 500 whose detail is `404: Could not fetch hadith`. */
  lemma NotFetchedBecomesServerError()
    ensures Http.AsServerError(NotFetched) == Http.HttpException(500, "404: " + NotFetchedDetail)
  {
    Http.NotFoundAsServerError(NotFetchedDetail);
  }

  /** The body of `get_random_hadith`'s `try` block, given what the service returned. */
  function RandomBody(provider: OpenAIService.Provider, hadith: Option<HadithService.HadithRecord>, language: string)
    : (r: Http.Outcome<RandomHadithResponse>)
    ensures hadith.None? ==> r == Failure(NotFetched) && r.error.status == 404
    ensures hadith.Some? ==>
              r == Success(RandomHadithResponse(hadith.value, OpenAIService.ExplainHadith(provider, hadith.value.text, language), language))
  {
    match hadith
    case None => Failure(NotFetched)
    case Some(h) => Success(RandomHadithResponse(h, OpenAIService.ExplainHadith(provider, h.text, language), language))
  }

  /**
   * `get_random_hadith` as written: the 404 raised when no hadith comes back
   * is caught by the generic handler, so the client sees a 500 whose detail
   * is `404: Could not fetch hadith`.
   */
  method RandomHadithAsWritten(svc: HadithService.Service, provider: OpenAIService.Provider,
                               pick: nat, book: int, start: nat, language: string)
    returns (r: Http.Outcome<RandomHadithResponse>)
    requires HadithService.ValidCollections(svc.collections)
    requires pick < |svc.collections|
    requires 1 <= book <= HadithService.RandomBookLimit(svc.collections[pick].1)
    ensures var found := HadithService.Resolve(svc, svc.collections[pick].0, book, start);
            && (r.Failure? <==> found.None?)
            && (r.Failure? ==> r.error == Http.AsServerError(NotFetched))
            && (r.Success? ==> r == RandomBody(provider, found, language))
  {
    var hadith, _ := HadithService.GetRandomHadith(svc, pick, book, start);
    r := Http.CatchAll(RandomBody(provider, hadith, language));
  }

  /**
   * `get_random_hadith` with the HTTP exception passed through, as
   * `explain_hadith` does: no hadith is a 404 "Could not fetch hadith";
   * otherwise the record, its explanation and the language.
   */
  method RandomHadith(svc: HadithService.Service, provider: OpenAIService.Provider,
                      pick: nat, book: int, start: nat, language: string)
    returns (r: Http.Outcome<RandomHadithResponse>)
    requires HadithService.ValidCollections(svc.collections)
    requires pick < |svc.collections|
    requires 1 <= book <= HadithService.RandomBookLimit(svc.collections[pick].1)
    ensures var found := HadithService.Resolve(svc, svc.collections[pick].0, book, start);
            && (r.Failure? <==> found.None?)
            && (r.Failure? ==> r.error.status == 404 && r.error.detail == "Could not fetch hadith")
            && (r.Success? ==> r.value.hadith == found.value && r.value.language == language
                               && r.value.hadith.collection == svc.collections[pick].1.name
                               && r.value.hadith.bookNumber == book
                               && r.value.explanation == OpenAIService.ExplainHadith(provider, found.value.text, language))
  {
    var hadith, _ := HadithService.GetRandomHadith(svc, pick, book, start);
    r := RandomBody(provider, hadith, language);
  }

  /**
   * A source that answers no request supplies no hadith, for any collection,
   * book and request number: on it the as-written endpoint answers 500 where
   * the corrected one answers 404.
   */
  lemma UnreachableSourceSuppliesNothing(baseUrl: string, collection: string, book: int, start: nat)
    ensures var svc := HadithService.NewService(baseUrl, (n: nat, url: string) => None);
            HadithService.Resolve(svc, collection, book, start).None?
  {
    var svc := HadithService.NewService(baseUrl, (n: nat, url: string) => None);
    match HadithService.Plan(svc, collection, book)
    case None =>
    case Some(p) =>
      assert !HadithService.Hits(p.urls, svc.fetch, start, 0);
      assert !HadithService.Hits(p.urls, svc.fetch, start, 1);
      assert !HadithService.Hits(p.urls, svc.fetch, start, 2);
  }

  // ---------------------------------------------------------------- GET /hadith/collections

  datatype CollectionsResponse = CollectionsResponse(collections: seq<HadithService.CollectionSummary>)

  /**
   * `get_collections`: the service's listing, unchanged, under `collections`:
   * one entry per table entry, in table order, with its id, display name and
   * book count.
   */
  function Collections(svc: HadithService.Service): (r: CollectionsResponse)
    ensures r.collections == HadithService.AvailableCollections(svc)
    ensures |r.collections| == |svc.collections|
    ensures forall i | 0 <= i < |r.collections| ::
              && r.collections[i].id == svc.collections[i].0
              && r.collections[i].name == svc.collections[i].1.name
              && r.collections[i].totalBooks == svc.collections[i].1.books
  {
    CollectionsResponse(HadithService.AvailableCollections(svc))
  }

  /** Every id the listing offers is one `explain_hadith` accepts. */
  lemma ListedCollectionsAreExplainable(svc: HadithService.Service, i: nat, bookNumber: int)
    requires HadithService.ValidCollections(svc.collections)
    requires i < |Collections(svc).collections|
    ensures HadithService.Plan(svc, Collections(svc).collections[i].id, bookNumber).Some?
  {
    HadithService.ListedIdsAreAccepted(svc, Collections(svc).collections[i].id, bookNumber);
  }
}
