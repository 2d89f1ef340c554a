/**
 * The hadith source: a table of six collections, and a resolver that turns a
 * (collection, book) pair into the first hadith of that book by trying up to
 * three edition URLs in order and stopping at the first that answers with a
 * non-empty list of hadiths.
 *
 * The remote API is an oracle `fetch(n, url)`: the parsed JSON body of the
 * `n`-th request the service sends, or `None` when that request fails for
 * any reason (transport error, non-2xx status, a body that is not JSON).
 * Numbering the requests lets the same URL answer differently when it is
 * asked a second time, as a real server may.
 */
module HadithService {
  import opened Wrappers
  import opened Text
  import Assoc

  // ---------------------------------------------------------------- collections

  datatype CollectionInfo = CollectionInfo(name: string, prefix: string, books: int)

  /** The collections the service is built with, in the order it lists them. */
  const Collections: Assoc.Table<CollectionInfo> := [
    ("bukhari", CollectionInfo("Sahih Bukhari", "eng-bukhari", 97)),
    ("muslim", CollectionInfo("Sahih Muslim", "eng-muslim", 56)),
    ("abudawud", CollectionInfo("Sunan Abu Dawud", "eng-abudawud", 43)),
    ("tirmidhi", CollectionInfo("Jami At-Tirmidhi", "eng-tirmidhi", 51)),
    ("nasai", CollectionInfo("Sunan an-Nasa'i", "eng-nasai", 51)),
    ("ibnmajah", CollectionInfo("Sunan Ibn Majah", "eng-ibnmajah", 37))
  ]

  /**
   * The shape of the table the lemmas below rely on: distinct lower-case ids,
   * each collection with at least one book, and each edition prefix `eng-`
   * followed by the id.
   */
  predicate ValidCollections(t: Assoc.Table<CollectionInfo>) {
    && Assoc.UniqueKeys(t)
    && (forall i | 0 <= i < |t| :: Lower(t[i].0) == t[i].0)
    && (forall i | 0 <= i < |t| :: t[i].1.books >= 1)
    && (forall i | 0 <= i < |t| :: t[i].1.prefix == "eng-" + t[i].0)
  }

  lemma CollectionsValid()
    ensures |Collections| == 6 && ValidCollections(Collections)
  {
    var t := Collections;
    assert Assoc.UniqueKeys(t);
    CollectionIdsAreLowerCase();
    CollectionPrefixes();
    assert forall i | 0 <= i < |t| :: t[i].1.books >= 1;
  }

  lemma CollectionIdsAreLowerCase()
    ensures forall i | 0 <= i < |Collections| :: Lower(Collections[i].0) == Collections[i].0
  {
    forall i | 0 <= i < |Collections| ensures Lower(Collections[i].0) == Collections[i].0 {
      LowerOfLowercase(Collections[i].0);
    }
  }

  lemma CollectionPrefixes()
    ensures forall i | 0 <= i < |Collections| :: Collections[i].1.prefix == "eng-" + Collections[i].0
  {
  }

  /** A collection found in a valid table has at least one book, and its prefix is `eng-` and its id. */
  lemma KnownCollection(t: Assoc.Table<CollectionInfo>, key: string, info: CollectionInfo)
    requires ValidCollections(t)
    requires Assoc.Lookup(t, key) == Some(info)
    ensures info.books >= 1 && info.prefix == "eng-" + key
    ensures Lower(key) == key
  {
  }

  // ---------------------------------------------------------------- payloads

  /** The `reference` object of a hadith, e.g. `{"book": 1, "hadith": 1}`. */
  type Reference = map<string, int>

  /** One hadith of a book as the API sends it; every field may be missing. */
  datatype HadithEntry = HadithEntry(
    hadithNumber: Option<int>,
    text: Option<string>,
    arabic: Option<string>,
    reference: Option<Reference>)

  /** The parsed body of a book file: the `hadiths` list, which may be missing. */
  datatype BookPayload = BookPayload(hadiths: Option<seq<HadithEntry>>)

  /** The remote API: the answer to the `n`-th request, sent to `url`. */
  type Fetch = (nat, string) -> Option<BookPayload>

  /** The service: its base URL, its collection table, and the API it talks to. */
  datatype Service = Service(baseUrl: string, collections: Assoc.Table<CollectionInfo>, fetch: Fetch)

  /** A service as constructed: the configured base URL and the six collections. */
  function NewService(baseUrl: string, fetch: Fetch): (svc: Service)
    ensures svc.baseUrl == baseUrl && svc.fetch == fetch
    ensures svc.collections == Collections && ValidCollections(svc.collections)
  {
    CollectionsValid();
    Service(baseUrl, Collections, fetch)
  }

  /** The record `get_hadith` returns. */
  datatype HadithRecord = HadithRecord(
    collection: string,
    bookNumber: int,
    hadithNumber: int,
    text: string,
    arabic: string,
    reference: Reference)

  /** The first hadith of a fetched book: present when the fetch succeeded and listed at least one. */
  function FirstHadith(response: Option<BookPayload>): (h: Option<HadithEntry>)
    ensures h.Some? <==> response.Some? && |response.value.hadiths.GetOr([])| > 0
    ensures h.Some? ==> h.value == response.value.hadiths.value[0]
  {
    match response
    case None => None
    case Some(p) =>
      var hadiths := p.hadiths.GetOr([]);
      if |hadiths| == 0 then None else Some(hadiths[0])
  }

  /** The record built from a hadith, with the defaults for its missing fields. */
  function Normalize(info: CollectionInfo, book: int, h: HadithEntry): (r: HadithRecord)
    ensures r.collection == info.name && r.bookNumber == book
    ensures r.hadithNumber == h.hadithNumber.GetOr(1)
    ensures r.text == h.text.GetOr("") && r.arabic == h.arabic.GetOr("")
    ensures r.reference == h.reference.GetOr(map[])
  {
    HadithRecord(info.name, book, h.hadithNumber.GetOr(1), h.text.GetOr(""), h.arabic.GetOr(""),
                 h.reference.GetOr(map[]))
  }

  // ---------------------------------------------------------------- the fallback plan

  /** A book number outside `1..books` is replaced by book 1. */
  function ClampBook(book: int, books: int): (b: int)
    ensures 1 <= book <= books ==> b == book
    ensures !(1 <= book <= books) ==> b == 1
  {
    if book < 1 || book > books then 1 else book
  }

  /** The URL of one book of one edition. */
  function EditionUrl(baseUrl: string, edition: string, book: int): (url: string)
    ensures StartsWith(url, baseUrl + "/editions/")
    ensures EndsWith(url, "/" + IntToString(book) + ".json")
  {
    var front := baseUrl + "/editions/";
    var back := "/" + IntToString(book) + ".json";
    var url := front + edition + back;
    assert url[..|front|] == front;
    assert url[|url| - |back|..] == back;
    url
  }

  /** Different editions of the same book have different URLs. */
  lemma EditionUrlInjective(baseUrl: string, e1: string, e2: string, book: int)
    requires EditionUrl(baseUrl, e1, book) == EditionUrl(baseUrl, e2, book)
    ensures e1 == e2
  {
    CancelInterpolated(baseUrl + "/editions/", e1, e2, "/" + IntToString(book) + ".json");
  }

  /** The three URLs, in the order they are tried: the table's prefix, the bare id, `eng-` and the id. */
  function CandidateUrls(baseUrl: string, key: string, info: CollectionInfo, book: int): (urls: seq<string>)
    ensures |urls| == 3
  {
    [EditionUrl(baseUrl, info.prefix, book), EditionUrl(baseUrl, key, book), EditionUrl(baseUrl, "eng-" + key, book)]
  }

  /** What `get_hadith` settles on before it sends anything: the collection, the book, the URLs. */
  datatype FallbackPlan = FallbackPlan(info: CollectionInfo, book: int, urls: seq<string>)

  /** The plan for a request; none when the lower-cased collection is not in the table. */
  function Plan(svc: Service, collection: string, bookNumber: int): (p: Option<FallbackPlan>)
    ensures p.None? <==> !Assoc.HasKey(svc.collections, Lower(collection))
    ensures p.Some? ==> |p.value.urls| == 3 && Assoc.Lookup(svc.collections, Lower(collection)) == Some(p.value.info)
    ensures p.Some? ==> p.value.book == ClampBook(bookNumber, p.value.info.books)
  {
    var key := Lower(collection);
    match Assoc.Lookup(svc.collections, key)
    case None => None
    case Some(info) =>
      var b := ClampBook(bookNumber, info.books);
      Some(FallbackPlan(info, b, CandidateUrls(svc.baseUrl, key, info, b)))
  }

  /** The `i`-th URL, sent as request `start + i`, answers with at least one hadith. */
  predicate Hits(urls: seq<string>, fetch: Fetch, start: nat, i: nat)
    requires i < |urls|
  {
    FirstHadith(fetch(start + i, urls[i])).Some?
  }

  /** The first URL from position `i` on that hits, when the URLs are sent in order from request `start`. */
  function FirstHitFrom(urls: seq<string>, fetch: Fetch, start: nat, i: nat): (r: Option<nat>)
    requires i <= |urls|
    ensures r.Some? ==> i <= r.value < |urls| && Hits(urls, fetch, start, r.value)
    ensures forall j | i <= j < |urls| && (r.None? || j < r.value) :: !Hits(urls, fetch, start, j)
    decreases |urls| - i
  {
    if i == |urls| then None
    else if Hits(urls, fetch, start, i) then Some(i)
    else FirstHitFrom(urls, fetch, start, i + 1)
  }

  /**
   * What `get_hadith(collection, bookNumber)` returns when its first request
   * is number `start`: nothing for a collection outside the table; otherwise
   * a record built from a candidate that listed a hadith, carrying the
   * collection's display name and the clamped book number.
   */
  function Resolve(svc: Service, collection: string, bookNumber: int, start: nat): (r: Option<HadithRecord>)
    ensures r.Some? ==> Plan(svc, collection, bookNumber).Some?
    ensures r.Some? ==> var p := Plan(svc, collection, bookNumber).value;
                        && r.value.collection == p.info.name && r.value.bookNumber == p.book
                        && exists i | 0 <= i < |p.urls| :: Hits(p.urls, svc.fetch, start, i)
  {
    match Plan(svc, collection, bookNumber)
    case None => None
    case Some(p) =>
      match FirstHitFrom(p.urls, svc.fetch, start, 0)
      case None => None
      case Some(i) => Some(Normalize(p.info, p.book, FirstHadith(svc.fetch(start + i, p.urls[i])).value))
  }

  /**
   * The URLs `get_hadith(collection, bookNumber)` requests, in order: none for
   * a collection outside the table, otherwise a non-empty prefix of the
   * candidates.
   */
  function Attempted(svc: Service, collection: string, bookNumber: int, start: nat): (r: seq<string>)
    ensures |r| <= 3
    ensures Plan(svc, collection, bookNumber).None? ==> r == []
    ensures Plan(svc, collection, bookNumber).Some? ==>
              r != [] && r == Plan(svc, collection, bookNumber).value.urls[..|r|]
  {
    match Plan(svc, collection, bookNumber)
    case None => []
    case Some(p) =>
      match FirstHitFrom(p.urls, svc.fetch, start, 0)
      case None => p.urls
      case Some(i) => p.urls[..i + 1]
  }

  // ---------------------------------------------------------------- get_hadith

  /**
   * `get_hadith`: lower-cases the collection, rejects one outside the table,
   * clamps the book number, then requests the candidate URLs one after the
   * other until one lists a hadith. Also returns the URLs it requested.
   */
  method GetHadith(svc: Service, collection: string, bookNumber: int, start: nat)
    returns (result: Option<HadithRecord>, tried: seq<string>)
    ensures result == Resolve(svc, collection, bookNumber, start)
    ensures tried == Attempted(svc, collection, bookNumber, start)
  {
    var key := Lower(collection);
    var found := Assoc.Lookup(svc.collections, key);
    if found.None? {
      return None, [];
    }
    var info := found.value;
    var book := bookNumber;
    if book < 1 || book > info.books {
      book := 1;
    }
    var urls := CandidateUrls(svc.baseUrl, key, info, book);
    tried := [];
    var i := 0;
    while i < |urls|
      invariant 0 <= i <= |urls|
      invariant tried == urls[..i]
      invariant FirstHitFrom(urls, svc.fetch, start, 0) == FirstHitFrom(urls, svc.fetch, start, i)
    {
      var url := urls[i];
      tried := tried + [url];
      var response := svc.fetch(start + i, url);
      i := i + 1;
      if response.None? {
        continue;
      }
      var hadiths := response.value.hadiths.GetOr([]);
      if |hadiths| == 0 {
        continue;
      }
      return Some(Normalize(info, book, hadiths[0])), tried;
    }
    return None, tried;
  }

  // ---------------------------------------------------------------- properties of get_hadith

  /** A collection outside the table yields nothing, and no request is sent for it. */
  lemma UnknownCollectionSendsNothing(svc: Service, collection: string, bookNumber: int, start: nat)
    ensures Attempted(svc, collection, bookNumber, start) == []
            <==> !Assoc.HasKey(svc.collections, Lower(collection))
    ensures !Assoc.HasKey(svc.collections, Lower(collection)) ==> Resolve(svc, collection, bookNumber, start).None?
  {
  }

  /** The collection name is case-insensitive. */
  lemma CollectionCaseInsensitive(svc: Service, collection: string, bookNumber: int, start: nat)
    ensures Resolve(svc, collection, bookNumber, start) == Resolve(svc, Lower(collection), bookNumber, start)
    ensures Attempted(svc, collection, bookNumber, start) == Attempted(svc, Lower(collection), bookNumber, start)
  {
    LowerIdempotent(collection);
  }

  /** A book number outside the collection's range behaves exactly as book 1. */
  lemma OutOfRangeBookIsBookOne(svc: Service, collection: string, bookNumber: int, start: nat)
    requires ValidCollections(svc.collections)
    requires Assoc.HasKey(svc.collections, Lower(collection))
    requires !(1 <= bookNumber <= Assoc.Lookup(svc.collections, Lower(collection)).value.books)
    ensures Resolve(svc, collection, bookNumber, start) == Resolve(svc, collection, 1, start)
    ensures Attempted(svc, collection, bookNumber, start) == Attempted(svc, collection, 1, start)
  {
    KnownCollection(svc.collections, Lower(collection), Assoc.Lookup(svc.collections, Lower(collection)).value);
  }

  /** Book 999 of Bukhari, which has 97 books, is served as book 1. */
  lemma BukhariBook999(baseUrl: string, fetch: Fetch, start: nat)
    ensures var svc := NewService(baseUrl, fetch);
            && Resolve(svc, "bukhari", 999, start) == Resolve(svc, "bukhari", 1, start)
            && (Resolve(svc, "bukhari", 999, start).Some? ==> Resolve(svc, "bukhari", 999, start).value.bookNumber == 1)
  {
    var svc := NewService(baseUrl, fetch);
    LowerOfLowercase("bukhari");
    Assoc.LookupEntry(Collections, 0);
    OutOfRangeBookIsBookOne(svc, "bukhari", 999, start);
  }

  /**
   * The candidates for a known collection: all three name the clamped book
   * under the base URL, the first is the `eng-` edition of the lower-cased id
   * and the third is the same URL (the table's prefix is `eng-` and the id),
   * and the second, the bare id's edition, differs from them.
   */
  lemma CandidateShape(svc: Service, collection: string, bookNumber: int)
    requires ValidCollections(svc.collections)
    requires Assoc.HasKey(svc.collections, Lower(collection))
    ensures var p := Plan(svc, collection, bookNumber).value;
            && p.urls[0] == EditionUrl(svc.baseUrl, "eng-" + Lower(collection), p.book)
            && p.urls[0] == p.urls[2] && p.urls[0] != p.urls[1]
            && p.urls[1] == EditionUrl(svc.baseUrl, Lower(collection), p.book)
            && forall i | 0 <= i < 3 ::
                 StartsWith(p.urls[i], svc.baseUrl + "/editions/")
                 && EndsWith(p.urls[i], "/" + IntToString(p.book) + ".json")
  {
    var key := Lower(collection);
    var p := Plan(svc, collection, bookNumber).value;
    KnownCollection(svc.collections, key, p.info);
    assert "eng-" + key != key by {
      assert |"eng-" + key| != |key|;
    }
    if p.urls[0] == p.urls[1] {
      EditionUrlInjective(svc.baseUrl, "eng-" + key, key, p.book);
    }
  }

  /**
   * The attempts stop at the first success: the requests are a prefix of the
   * candidates, every request but the last failed, and the result is built
   * from the last one's first hadith when there is a result, while with no
   * result all three candidates were requested.
   */
  lemma StopsAtFirstHit(svc: Service, collection: string, bookNumber: int, start: nat)
    requires Assoc.HasKey(svc.collections, Lower(collection))
    ensures var p := Plan(svc, collection, bookNumber).value;
            var tried := Attempted(svc, collection, bookNumber, start);
            var result := Resolve(svc, collection, bookNumber, start);
            && 1 <= |tried| <= 3 && tried == p.urls[..|tried|]
            && (forall j | 0 <= j < |tried| - 1 :: !Hits(p.urls, svc.fetch, start, j))
            && (result.None? ==> tried == p.urls && !Hits(p.urls, svc.fetch, start, 2))
            && (result.Some? <==> Hits(p.urls, svc.fetch, start, |tried| - 1))
            && (result.Some? ==>
                  result.value == Normalize(p.info, p.book,
                    FirstHadith(svc.fetch(start + |tried| - 1, tried[|tried| - 1])).value))
  {
  }

  /** When the first candidate lists a hadith, it is the only request sent. */
  lemma FirstCandidateHitIsOnlyRequest(svc: Service, collection: string, bookNumber: int, start: nat)
    requires Assoc.HasKey(svc.collections, Lower(collection))
    requires Hits(Plan(svc, collection, bookNumber).value.urls, svc.fetch, start, 0)
    ensures Attempted(svc, collection, bookNumber, start) == [Plan(svc, collection, bookNumber).value.urls[0]]
    ensures Resolve(svc, collection, bookNumber, start).Some?
  {
  }

  /** The API answers a URL the same way however many requests came before. */
  ghost predicate Deterministic(fetch: Fetch) {
    forall n: nat, m: nat, url: string :: fetch(n, url) == fetch(m, url)
  }

  /**
   * Against an API that answers each URL the same way every time, the third
   * candidate repeats the first and can never succeed where it failed: a
   * result, when there is one, comes from one of the first two requests.
   */
  lemma ThirdCandidateRedundantWhenDeterministic(svc: Service, collection: string, bookNumber: int, start: nat)
    requires ValidCollections(svc.collections)
    requires Deterministic(svc.fetch)
    requires Resolve(svc, collection, bookNumber, start).Some?
    ensures |Attempted(svc, collection, bookNumber, start)| <= 2
  {
    var p := Plan(svc, collection, bookNumber).value;
    CandidateShape(svc, collection, bookNumber);
    assert svc.fetch(start + 0, p.urls[0]) == svc.fetch(start + 2, p.urls[2]);
  }

  /** Against such an API the request number does not matter. */
  lemma ResolveIgnoresStartWhenDeterministic(svc: Service, collection: string, bookNumber: int, s1: nat, s2: nat)
    requires Deterministic(svc.fetch)
    ensures Resolve(svc, collection, bookNumber, s1) == Resolve(svc, collection, bookNumber, s2)
    ensures Attempted(svc, collection, bookNumber, s1) == Attempted(svc, collection, bookNumber, s2)
  {
    match Plan(svc, collection, bookNumber)
    case None =>
    case Some(p) =>
      forall i | 0 <= i < |p.urls| ensures Hits(p.urls, svc.fetch, s1, i) == Hits(p.urls, svc.fetch, s2, i) {
        assert svc.fetch(s1 + i, p.urls[i]) == svc.fetch(s2 + i, p.urls[i]);
      }
      SameHits(p.urls, svc.fetch, s1, s2, 0);
      match FirstHitFrom(p.urls, svc.fetch, s1, 0)
      case None =>
      case Some(i) =>
        assert svc.fetch(s1 + i, p.urls[i]) == svc.fetch(s2 + i, p.urls[i]);
  }

  /** Two request numberings under which the same URLs hit find the same first hit. */
  lemma {:induction false} SameHits(urls: seq<string>, fetch: Fetch, s1: nat, s2: nat, i: nat)
    requires i <= |urls|
    requires forall j | 0 <= j < |urls| :: Hits(urls, fetch, s1, j) == Hits(urls, fetch, s2, j)
    ensures FirstHitFrom(urls, fetch, s1, i) == FirstHitFrom(urls, fetch, s2, i)
    decreases |urls| - i
  {
    if i < |urls| {
      SameHits(urls, fetch, s1, s2, i + 1);
    }
  }

  // ---------------------------------------------------------------- get_available_collections

  datatype CollectionSummary = CollectionSummary(id: string, name: string, totalBooks: int)

  /** `get_available_collections`: one summary per table entry, in table order. */
  function AvailableCollections(svc: Service): (r: seq<CollectionSummary>)
    ensures |r| == |svc.collections|
    ensures forall i | 0 <= i < |r| ::
              r[i] == CollectionSummary(svc.collections[i].0, svc.collections[i].1.name, svc.collections[i].1.books)
  {
    seq(|svc.collections|, i requires 0 <= i < |svc.collections| =>
      CollectionSummary(svc.collections[i].0, svc.collections[i].1.name, svc.collections[i].1.books))
  }

  /** The listed ids are exactly the collections `get_hadith` accepts, under their own spelling. */
  lemma ListedIdsAreAccepted(svc: Service, id: string, bookNumber: int)
    requires ValidCollections(svc.collections)
    ensures (exists i | 0 <= i < |AvailableCollections(svc)| :: AvailableCollections(svc)[i].id == id)
            ==> Plan(svc, id, bookNumber).Some?
    ensures Plan(svc, id, bookNumber).Some?
            ==> exists i | 0 <= i < |AvailableCollections(svc)| :: AvailableCollections(svc)[i].id == Lower(id)
  {
    var listed := AvailableCollections(svc);
    if i :| 0 <= i < |listed| && listed[i].id == id {
      assert svc.collections[i].0 == id;
    }
    if Plan(svc, id, bookNumber).Some? {
      var i :| 0 <= i < |svc.collections| && svc.collections[i].0 == Lower(id);
      assert listed[i].id == Lower(id);
    }
  }

  /** The service as constructed lists the six collections with their book counts. */
  lemma ConstructedListing(baseUrl: string, fetch: Fetch)
    ensures var listed := AvailableCollections(NewService(baseUrl, fetch));
            && |listed| == 6
            && listed[0] == CollectionSummary("bukhari", "Sahih Bukhari", 97)
            && listed[5] == CollectionSummary("ibnmajah", "Sunan Ibn Majah", 37)
  {
  }

  // ---------------------------------------------------------------- get_random_hadith

  /** The largest book `get_random_hadith` draws: ten, or fewer for a shorter collection. */
  function RandomBookLimit(info: CollectionInfo): (n: int)
    ensures n <= 10 && n <= info.books && (n == 10 || n == info.books)
  {
    if info.books < 10 then info.books else 10
  }

  /**
   * `get_random_hadith`, with the random draws as parameters: the table
   * position of the collection and a book number in `1..min(10, books)`.
   * The book drawn is always in range, so it is never clamped.
   */
  method GetRandomHadith(svc: Service, pick: nat, book: int, start: nat)
    returns (result: Option<HadithRecord>, tried: seq<string>)
    requires ValidCollections(svc.collections)
    requires pick < |svc.collections|
    requires 1 <= book <= RandomBookLimit(svc.collections[pick].1)
    ensures result == Resolve(svc, svc.collections[pick].0, book, start)
    ensures tried == Attempted(svc, svc.collections[pick].0, book, start)
    ensures result.Some? ==> result.value.collection == svc.collections[pick].1.name && result.value.bookNumber == book
  {
    var collection := svc.collections[pick].0;
    Assoc.LookupEntry(svc.collections, pick);
    result, tried := GetHadith(svc, collection, book, start);
  }

  // ---------------------------------------------------------------- get_hadith_by_number

  /** The last book `get_hadith_by_number` searches: four, or fewer for a shorter collection. */
  function SearchLimit(info: CollectionInfo): (last: int)
    ensures info.books >= 1 ==> 1 <= last <= info.books && last <= 4
    ensures last == 4 || last == info.books
  {
    (if 5 < info.books + 1 then 5 else info.books + 1) - 1
  }

  /** The outcome is a hadith numbered `n`. */
  predicate IsNumbered(r: Option<HadithRecord>, n: int) {
    r.Some? && r.value.hadithNumber == n
  }

  /** The outcome of `get_hadith` for a book and a first request number: the record, if any, and the URLs requested. */
  type BookQuery = (int, nat) -> (Option<HadithRecord>, seq<string>)

  /** `q` answers each book as `get_hadith` does for the collection. */
  ghost predicate Answers(q: BookQuery, svc: Service, collection: string) {
    forall b: int, s: nat {:trigger q(b, s)} ::
      q(b, s) == (Resolve(svc, collection, b, s), Attempted(svc, collection, b, s))
  }

  /** There is such a query. */
  lemma AnsweringQuery(svc: Service, collection: string) returns (q: BookQuery)
    ensures Answers(q, svc, collection)
  {
    q := (b: int, s: nat) => (Resolve(svc, collection, b, s), Attempted(svc, collection, b, s));
  }

  /**
   * Searching books `book..last` in order for hadith number `n`, the first
   * request being number `start`: the first record numbered `n`, and every
   * URL requested along the way.
   */
  function ScanBooks(q: BookQuery, n: int, start: nat, book: int, last: int)
    : (r: (Option<HadithRecord>, seq<string>))
    ensures r.0.Some? ==> IsNumbered(r.0, n)
    decreases last - book + 1
  {
    if book > last then (None, [])
    else
      var (res, t) := q(book, start);
      if IsNumbered(res, n) then (res, t)
      else
        var rest := ScanBooks(q, n, start + |t|, book + 1, last);
        (rest.0, t + rest.1)
  }

  /**
   * What `get_hadith_by_number` returns and requests: for a collection outside
   * the table nothing and no request, otherwise a record numbered `n`, if any.
   */
  function ByNumber(svc: Service, collection: string, n: int, start: nat): (r: (Option<HadithRecord>, seq<string>))
    ensures !Assoc.HasKey(svc.collections, Lower(collection)) ==> r == (None, [])
    ensures r.0.Some? ==> r.0.value.hadithNumber == n
  {
    match Assoc.Lookup(svc.collections, Lower(collection))
    case None => (None, [])
    case Some(info) =>
      ScanBooks((b: int, s: nat) => (Resolve(svc, collection, b, s), Attempted(svc, collection, b, s)),
                n, start, 1, SearchLimit(info))
  }

  /** Queries that agree everywhere scan alike. */
  lemma {:induction false} ScanSameQuery(q1: BookQuery, q2: BookQuery, n: int, start: nat, book: int, last: int)
    requires forall b: int, s: nat :: q1(b, s) == q2(b, s)
    ensures ScanBooks(q1, n, start, book, last) == ScanBooks(q2, n, start, book, last)
    decreases last - book + 1
  {
    if book <= last {
      ScanSameQuery(q1, q2, n, start + |q1(book, start).1|, book + 1, last);
    }
  }

  /**
   * `get_hadith_by_number`: fetches the first hadith of books 1 to
   * `min(4, books)` in turn and returns the first whose number is `n`.
   */
  method GetHadithByNumber(svc: Service, collection: string, n: int, start: nat)
    returns (result: Option<HadithRecord>, tried: seq<string>)
    ensures (result, tried) == ByNumber(svc, collection, n, start)
  {
    var found := Assoc.Lookup(svc.collections, Lower(collection));
    if found.None? {
      return None, [];
    }
    var last := SearchLimit(found.value);
    ghost var q := AnsweringQuery(svc, collection);
    ghost var total := ScanBooks(q, n, start, 1, last);
    assert ByNumber(svc, collection, n, start) == total by {
      ScanSameQuery((b: int, s: nat) => (Resolve(svc, collection, b, s), Attempted(svc, collection, b, s)),
                    q, n, start, 1, last);
    }
    tried := [];
    var next: nat := start;
    var bookNum := 1;
    assert total.1 == tried + total.1;
    while bookNum <= last
      invariant next == start + |tried|
      invariant total.0 == ScanBooks(q, n, next, bookNum, last).0
      invariant total.1 == tried + ScanBooks(q, n, next, bookNum, last).1
    {
      var r, t := GetHadith(svc, collection, bookNum, next);
      assert q(bookNum, next) == (r, t);
      if r.Some? && r.value.hadithNumber == n {
        return r, tried + t;
      }
      ScanAdvance(q, n, next, bookNum, last, tried, t);
      tried := tried + t;
      next := next + |t|;
      bookNum := bookNum + 1;
    }
    assert tried + [] == tried;
    return None, tried;
  }

  /** Past a book that does not match, the scan goes on from the next book and the next request. */
  lemma ScanAdvance(q: BookQuery, n: int, start: nat, book: int, last: int, tried: seq<string>, t: seq<string>)
    requires book <= last
    requires q(book, start).1 == t
    requires !IsNumbered(q(book, start).0, n)
    ensures var rest := ScanBooks(q, n, start + |t|, book + 1, last);
            && ScanBooks(q, n, start, book, last).0 == rest.0
            && tried + ScanBooks(q, n, start, book, last).1 == (tried + t) + rest.1
  {
    var rest := ScanBooks(q, n, start + |t|, book + 1, last);
    assert tried + (t + rest.1) == (tried + t) + rest.1;
  }

  /** A record the scan returns comes from one of the books scanned, when each book reports itself. */
  lemma {:induction false} ScanBooksRange(q: BookQuery, n: int, start: nat, book: int, last: int)
    requires forall b: int, s: nat | book <= b <= last :: q(b, s).0.Some? ==> q(b, s).0.value.bookNumber == b
    ensures var r := ScanBooks(q, n, start, book, last).0;
            r.Some? ==> book <= r.value.bookNumber <= last
    decreases last - book + 1
  {
    if book <= last {
      ScanBooksRange(q, n, start + |q(book, start).1|, book + 1, last);
    }
  }

  /**
   * A record found by number has that number and comes from book 1 to 4 of
   * the collection; an unknown collection is not searched at all.
   */
  lemma ByNumberFindsTheNumber(svc: Service, collection: string, n: int, start: nat)
    requires ValidCollections(svc.collections)
    ensures var (r, tried) := ByNumber(svc, collection, n, start);
            && (r.Some? ==> r.value.hadithNumber == n && 1 <= r.value.bookNumber <= 4)
            && (!Assoc.HasKey(svc.collections, Lower(collection)) ==> r.None? && tried == [])
  {
    match Assoc.Lookup(svc.collections, Lower(collection))
    case None =>
    case Some(info) =>
      KnownCollection(svc.collections, Lower(collection), info);
      var last := SearchLimit(info);
      var q := AnsweringQuery(svc, collection);
      forall b: int, s: nat | 1 <= b <= last
        ensures q(b, s).0.Some? ==> q(b, s).0.value.bookNumber == b
      {
      }
      ScanBooksRange(q, n, start, 1, last);
      ScanSameQuery((b: int, s: nat) => (Resolve(svc, collection, b, s), Attempted(svc, collection, b, s)),
                    q, n, start, 1, last);
  }

  /** When no book's record depends on the request number, the scan finds nothing exactly when no book matches. */
  lemma {:induction false} ScanNoneIff(q: BookQuery, n: int, start: nat, s: nat, book: int, last: int)
    requires forall b: int, s1: nat, s2: nat :: q(b, s1).0 == q(b, s2).0
    ensures ScanBooks(q, n, s, book, last).0.None?
            <==> forall b | book <= b <= last :: !IsNumbered(q(b, start).0, n)
    decreases last - book + 1
  {
    if book <= last {
      assert q(book, s).0 == q(book, start).0;
      ScanNoneIff(q, n, start, s + |q(book, s).1|, book + 1, last);
    }
  }

  /**
   * When no book's record depends on the request number and each book reports
   * itself, no book scanned before the one returned has a record numbered `n`.
   */
  lemma {:induction false} ScanFirstMatch(q: BookQuery, n: int, start: nat, s: nat, book: int, last: int)
    requires forall b: int, s1: nat, s2: nat :: q(b, s1).0 == q(b, s2).0
    requires forall b: int, s1: nat | book <= b <= last :: q(b, s1).0.Some? ==> q(b, s1).0.value.bookNumber == b
    ensures var r := ScanBooks(q, n, s, book, last).0;
            r.Some? ==> forall b | book <= b < r.value.bookNumber :: !IsNumbered(q(b, start).0, n)
    decreases last - book + 1
  {
    if book <= last && !IsNumbered(q(book, s).0, n) {
      assert q(book, s).0 == q(book, start).0;
      ScanFirstMatch(q, n, start, s + |q(book, s).1|, book + 1, last);
    }
  }

  /**
   * Against a deterministic API, the record found by number is the first
   * match: no earlier book starts with hadith number `n`.
   */
  lemma ByNumberIsFirstMatch(svc: Service, collection: string, n: int, start: nat)
    requires Deterministic(svc.fetch)
    ensures var r := ByNumber(svc, collection, n, start).0;
            r.Some? ==> forall b | 1 <= b < r.value.bookNumber :: !IsNumbered(Resolve(svc, collection, b, start), n)
  {
    match Assoc.Lookup(svc.collections, Lower(collection))
    case None =>
    case Some(info) =>
      var last := SearchLimit(info);
      var q := AnsweringQuery(svc, collection);
      forall b: int, s1: nat, s2: nat ensures q(b, s1).0 == q(b, s2).0 {
        ResolveIgnoresStartWhenDeterministic(svc, collection, b, s1, s2);
      }
      forall b: int, s1: nat | 1 <= b <= last
        ensures q(b, s1).0.Some? ==> q(b, s1).0.value.bookNumber == b
      {
      }
      ScanFirstMatch(q, n, start, start, 1, last);
      ScanSameQuery((b: int, s: nat) => (Resolve(svc, collection, b, s), Attempted(svc, collection, b, s)),
                    q, n, start, 1, last);
      forall b | 1 <= b <= last ensures q(b, start).0 == Resolve(svc, collection, b, start) {
      }
  }

  /**
   * Against a deterministic API, the search finds nothing exactly when no
   * book from 1 to `min(4, books)` starts with hadith number `n`.
   */
  lemma ByNumberNoneIffNoBookMatches(svc: Service, collection: string, n: int, start: nat)
    requires Deterministic(svc.fetch)
    requires Assoc.HasKey(svc.collections, Lower(collection))
    ensures ByNumber(svc, collection, n, start).0.None?
            <==> forall b | 1 <= b <= SearchLimit(Assoc.Lookup(svc.collections, Lower(collection)).value) ::
                   !IsNumbered(Resolve(svc, collection, b, start), n)
  {
    var last := SearchLimit(Assoc.Lookup(svc.collections, Lower(collection)).value);
    var q := AnsweringQuery(svc, collection);
    forall b: int, s1: nat, s2: nat ensures q(b, s1).0 == q(b, s2).0 {
      ResolveIgnoresStartWhenDeterministic(svc, collection, b, s1, s2);
    }
    ScanNoneIff(q, n, start, start, 1, last);
    ScanSameQuery((b: int, s: nat) => (Resolve(svc, collection, b, s), Attempted(svc, collection, b, s)),
                  q, n, start, 1, last);
    assert ByNumber(svc, collection, n, start) == ScanBooks(q, n, start, 1, last);
    forall b | 1 <= b <= last ensures q(b, start).0 == Resolve(svc, collection, b, start) {
    }
  }
}
