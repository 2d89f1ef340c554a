/**
 * The Quran source: verse, chapter, chapter-information and search requests
 * to a REST API, and the shaping of what comes back.
 *
 * The remote API is an oracle `fetch(request)`: the parsed JSON body of a
 * GET request, or `None` when the request fails for any reason (transport
 * error, non-2xx status, a body that is not JSON). No operation here sends
 * the same request twice, so the oracle is not told how many requests came
 * before.
 */
module QuranService {
  import opened Wrappers
  import opened Text
  import Assoc
  import Schemas

  // ---------------------------------------------------------------- payloads

  /** One translation of a verse; `text` may be missing. */
  datatype Translation = Translation(text: Option<string>)

  /** A verse object; every field may be missing. */
  datatype Verse = Verse(verseNumber: Option<int>, textUthmani: Option<string>, translations: Option<seq<Translation>>)

  /** The chapter object, with the fields the callers read or return. */
  datatype Chapter = Chapter(
    id: Option<int>,
    nameSimple: Option<string>,
    nameArabic: Option<string>,
    versesCount: Option<int>,
    revelationPlace: Option<string>)

  /** One search hit. */
  datatype SearchResult = SearchResult(verseKey: Option<string>, text: Option<string>)

  datatype Search = Search(results: Option<seq<SearchResult>>)

  /** A response body: the top-level keys the service reads, each of which may be missing. */
  datatype Body = Body(verse: Option<Verse>, verses: Option<seq<Verse>>, chapter: Option<Chapter>, search: Option<Search>)

  /** A GET request: the URL and the query parameters, rendered as strings, in order. */
  datatype Request = Request(url: string, params: Assoc.Table<string>)

  type Fetch = Request -> Option<Body>

  /** The service: its base URL and the API it talks to. */
  datatype Service = Service(baseUrl: string, fetch: Fetch)

  // ---------------------------------------------------------------- get_translation_id

  const DefaultTranslationId: int := 131

  const TranslationIds: Assoc.Table<int> := [("en", 131), ("ur", 97), ("hi", 122), ("ar", 0), ("bn", 161)]

  /** The translation resource for a language code; any other code gets Sahih International (131). */
  function TranslationId(language: string): (id: int)
    ensures !Assoc.HasKey(TranslationIds, language) ==> id == DefaultTranslationId
    ensures Assoc.HasKey(TranslationIds, language) ==>
              exists i | 0 <= i < |TranslationIds| :: TranslationIds[i] == (language, id)
  {
    Assoc.Get(TranslationIds, language, DefaultTranslationId)
  }

  /** Each of the five request languages has its own resource; Arabic asks for resource 0. */
  lemma TranslationIdPerLanguage(l: Schemas.Language)
    ensures TranslationId(l.Code()) == match l
      case En => 131
      case Ur => 97
      case Hi => 122
      case Ar => 0
      case Bn => 161
  {
    assert Assoc.UniqueKeys(TranslationIds);
    match l
    case En => Assoc.LookupEntry(TranslationIds, 0);
    case Ur => Assoc.LookupEntry(TranslationIds, 1);
    case Hi => Assoc.LookupEntry(TranslationIds, 2);
    case Ar => Assoc.LookupEntry(TranslationIds, 3);
    case Bn => Assoc.LookupEntry(TranslationIds, 4);
  }

  /** The default resource is chosen exactly for `en` and for codes outside the table. */
  lemma TranslationIdDefaultIff(language: string)
    ensures TranslationId(language) == DefaultTranslationId
            <==> language == "en" || !Assoc.HasKey(TranslationIds, language)
  {
    var id := TranslationId(language);
    if Assoc.HasKey(TranslationIds, language) {
      var i :| 0 <= i < |TranslationIds| && TranslationIds[i] == (language, id);
      assert id == DefaultTranslationId <==> i == 0;
    }
  }

  // ---------------------------------------------------------------- verse keys

  /** Reads a verse key back: the integers before and after the first colon. */
  function ParseVerseKey(key: string): Option<(int, int)> {
    match IndexFrom(key, ":", 0)
    case None => None
    case Some(i) =>
      match (ParseInt(key[..i]), ParseInt(key[i + 1..]))
      case (Some(s), Some(a)) => Some((s, a))
      case _ => None
  }

  /** A rendered integer holds no colon. */
  lemma NoColonInInt(n: int, j: int)
    ensures !OccursAt(IntToString(n), ":", j)
  {
    var x := IntToString(n);
    if 0 <= j && j + 1 <= |x| {
      assert x[j..j + 1][0] == x[j];
    }
  }

  /** The verse key `surah:ayah`, which determines both numbers. */
  function VerseKey(surah: int, ayah: int): (key: string)
    ensures ParseVerseKey(key) == Some((surah, ayah))
  {
    var x, y := IntToString(surah), IntToString(ayah);
    var key := x + ":" + y;
    assert key[..|x|] == x;
    assert key[|x| + 1..] == y;
    assert OccursAt(key, ":", |x|) by {
      assert key[|x|..|x| + 1] == ":";
    }
    forall j | 0 <= j < |x| ensures !OccursAt(key, ":", j) {
      NoColonInInt(surah, j);
      assert key[j..j + 1] == x[j..j + 1];
    }
    FirstOccurrence(key, ":", 0, |x|);
    IntToStringRoundTrip(surah);
    IntToStringRoundTrip(ayah);
    key
  }

  /** Different verses have different keys. */
  lemma VerseKeyInjective(s1: int, a1: int, s2: int, a2: int)
    requires VerseKey(s1, a1) == VerseKey(s2, a2)
    ensures s1 == s2 && a1 == a2
  {
  }

  // ---------------------------------------------------------------- get_verse

  /** The record `get_verse` returns. */
  datatype VerseRecord = VerseRecord(verseKey: string, arabicText: string, translation: string, surahNumber: int, ayahNumber: int)

  /** The request for the verse's Uthmani text. */
  function ArabicRequest(svc: Service, surah: int, ayah: int): Request {
    Request(svc.baseUrl + "/verses/by_key/" + VerseKey(surah, ayah), [("fields", "text_uthmani")])
  }

  /** The request for the verse with one translation resource. */
  function TranslationRequest(svc: Service, surah: int, ayah: int, translationId: int): Request {
    Request(svc.baseUrl + "/verses/by_key/" + VerseKey(surah, ayah),
            [("translations", IntToString(translationId)), ("fields", "text_uthmani")])
  }

  /** The translation text of a translation response: the first translation's text, or empty. */
  function FirstTranslation(body: Body): (t: string)
    ensures body.verse.None? || body.verse.value.translations.GetOr([]) == [] ==> t == ""
    ensures body.verse.Some? && body.verse.value.translations.GetOr([]) != [] ==>
              t == body.verse.value.translations.value[0].text.GetOr("")
  {
    var ts := match body.verse case None => [] case Some(v) => v.translations.GetOr([]);
    if ts == [] then "" else ts[0].text.GetOr("")
  }

  /** `get_verse`: the Uthmani text, then the translation; either request failing gives nothing. */
  function GetVerse(svc: Service, surah: int, ayah: int, translationId: int): (r: Option<VerseRecord>)
    ensures r.Some? <==> svc.fetch(ArabicRequest(svc, surah, ayah)).Some?
                         && svc.fetch(TranslationRequest(svc, surah, ayah, translationId)).Some?
    ensures r.Some? ==> r.value.verseKey == VerseKey(surah, ayah)
                        && r.value.surahNumber == surah && r.value.ayahNumber == ayah
  {
    match svc.fetch(ArabicRequest(svc, surah, ayah))
    case None => None
    case Some(arabic) =>
      match svc.fetch(TranslationRequest(svc, surah, ayah, translationId))
      case None => None
      case Some(translated) =>
        var verse := arabic.verse.GetOr(Verse(None, None, None));
        Some(VerseRecord(VerseKey(surah, ayah), verse.textUthmani.GetOr(""), FirstTranslation(translated), surah, ayah))
  }

  /** The requests `get_verse` sends: the translation request only after the first one succeeded. */
  function VerseRequests(svc: Service, surah: int, ayah: int, translationId: int): (sent: seq<Request>)
    ensures 1 <= |sent| <= 2 && sent[0] == ArabicRequest(svc, surah, ayah)
    ensures |sent| == 2 <==> svc.fetch(ArabicRequest(svc, surah, ayah)).Some?
    ensures |sent| == 2 ==> sent[1] == TranslationRequest(svc, surah, ayah, translationId)
  {
    if svc.fetch(ArabicRequest(svc, surah, ayah)).None? then [ArabicRequest(svc, surah, ayah)]
    else [ArabicRequest(svc, surah, ayah), TranslationRequest(svc, surah, ayah, translationId)]
  }

  /**
   * Both requests go to the verse's own URL under the base URL; they differ
   * only in that the second names the translation resource.
   */
  lemma VerseRequestsShape(svc: Service, surah: int, ayah: int, translationId: int)
    ensures var a, t := ArabicRequest(svc, surah, ayah), TranslationRequest(svc, surah, ayah, translationId);
            && a.url == t.url && a.params != t.params
            && EndsWith(a.url, "/verses/by_key/" + VerseKey(surah, ayah))
            && StartsWith(a.url, svc.baseUrl)
            && Assoc.Lookup(t.params, "translations") == Some(IntToString(translationId))
            && Assoc.Lookup(a.params, "translations") == None
  {
    VerseUrl(svc, surah, ayah);
    VerseParams(svc, surah, ayah, translationId);
  }

  lemma VerseUrl(svc: Service, surah: int, ayah: int)
    ensures var a := ArabicRequest(svc, surah, ayah);
            EndsWith(a.url, "/verses/by_key/" + VerseKey(surah, ayah)) && StartsWith(a.url, svc.baseUrl)
  {
    var url := ArabicRequest(svc, surah, ayah).url;
    var tail := "/verses/by_key/" + VerseKey(surah, ayah);
    assert url == svc.baseUrl + tail;
    assert url[..|svc.baseUrl|] == svc.baseUrl;
    assert url[|url| - |tail|..] == tail;
  }

  lemma VerseParams(svc: Service, surah: int, ayah: int, translationId: int)
    ensures var a, t := ArabicRequest(svc, surah, ayah), TranslationRequest(svc, surah, ayah, translationId);
            && a.url == t.url && a.params != t.params
            && Assoc.Lookup(t.params, "translations") == Some(IntToString(translationId))
            && Assoc.Lookup(a.params, "translations") == None
  {
  }

  /** The record carries the Uthmani text (or empty) and the translation response's first translation (or empty). */
  lemma VerseRecordContents(svc: Service, surah: int, ayah: int, translationId: int)
    requires GetVerse(svc, surah, ayah, translationId).Some?
    ensures var r := GetVerse(svc, surah, ayah, translationId).value;
            var arabic := svc.fetch(ArabicRequest(svc, surah, ayah)).value;
            var translated := svc.fetch(TranslationRequest(svc, surah, ayah, translationId)).value;
            && (arabic.verse.None? ==> r.arabicText == "")
            && (arabic.verse.Some? ==> r.arabicText == arabic.verse.value.textUthmani.GetOr(""))
            && r.translation == FirstTranslation(translated)
  {
  }

  // ---------------------------------------------------------------- get_full_surah

  datatype SurahVerse = SurahVerse(ayahNumber: Option<int>, arabicText: string, translation: string)

  datatype SurahRecord = SurahRecord(surahNumber: int, verses: seq<SurahVerse>)

  /**
   * One verse of a chapter response. A missing translation list reads as
   * one empty translation, so the text is empty; a present but empty list
   * has no first element, which fails the whole request.
   */
  function ShapeVerse(v: Verse): (r: Option<SurahVerse>)
    ensures r.None? <==> v.translations == Some([])
    ensures r.Some? ==> r.value.ayahNumber == v.verseNumber && r.value.arabicText == v.textUthmani.GetOr("")
    ensures r.Some? && v.translations.None? ==> r.value.translation == ""
  {
    match v.translations
    case None => Some(SurahVerse(v.verseNumber, v.textUthmani.GetOr(""), ""))
    case Some(ts) =>
      if ts == [] then None
      else Some(SurahVerse(v.verseNumber, v.textUthmani.GetOr(""), ts[0].text.GetOr("")))
  }

  /** All verses shaped in order, or nothing when any one of them cannot be. */
  function ShapeVerses(vs: seq<Verse>): (r: Option<seq<SurahVerse>>)
    ensures r.Some? <==> forall i | 0 <= i < |vs| :: ShapeVerse(vs[i]).Some?
    ensures r.Some? ==> |r.value| == |vs| && forall i | 0 <= i < |vs| :: ShapeVerse(vs[i]) == Some(r.value[i])
    decreases |vs|
  {
    if vs == [] then Some([])
    else
      match (ShapeVerse(vs[0]), ShapeVerses(vs[1..]))
      case (Some(first), Some(rest)) =>
        var r := [first] + rest;
        assert forall i | 1 <= i < |vs| :: vs[i] == vs[1..][i - 1] && r[i] == rest[i - 1];
        Some(r)
      case (None, _) => None
      case (_, None) =>
        assert exists i | 1 <= i < |vs| :: ShapeVerse(vs[i]).None? by {
          var j :| 0 <= j < |vs[1..]| && ShapeVerse(vs[1..][j]).None?;
          assert vs[j + 1] == vs[1..][j];
        }
        None
  }

  /** The chapter request, with one translation resource. */
  function ChapterRequest(svc: Service, surah: int, translationId: int): Request {
    Request(svc.baseUrl + "/verses/by_chapter/" + IntToString(surah),
            [("translations", IntToString(translationId)), ("fields", "text_uthmani")])
  }

  /**
   * `get_full_surah`: every verse of the response, in order, shaped field by
   * field; nothing when the request fails or when any verse has an empty
   * translation list. A response without a verse list gives an empty chapter.
   */
  function GetFullSurah(svc: Service, surah: int, translationId: int): (r: Option<SurahRecord>)
    ensures svc.fetch(ChapterRequest(svc, surah, translationId)).None? ==> r.None?
    ensures r.Some? ==> r.value.surahNumber == surah
    ensures var resp := svc.fetch(ChapterRequest(svc, surah, translationId));
            resp.Some? ==>
              var vs := resp.value.verses.GetOr([]);
              && (r.Some? <==> forall i | 0 <= i < |vs| :: vs[i].translations != Some([]))
              && (r.Some? ==> |r.value.verses| == |vs|
                              && forall i | 0 <= i < |vs| :: ShapeVerse(vs[i]) == Some(r.value.verses[i]))
  {
    match svc.fetch(ChapterRequest(svc, surah, translationId))
    case None => None
    case Some(body) =>
      match ShapeVerses(body.verses.GetOr([]))
      case None => None
      case Some(shaped) => Some(SurahRecord(surah, shaped))
  }

  // ---------------------------------------------------------------- get_surah_info and search_quran

  function ChapterInfoRequest(svc: Service, surah: int): Request {
    Request(svc.baseUrl + "/chapters/" + IntToString(surah), [])
  }

  /** `get_surah_info`: the `chapter` field of the response; nothing when the request fails or the field is missing. */
  function GetSurahInfo(svc: Service, surah: int): (r: Option<Chapter>)
    ensures r.Some? <==> svc.fetch(ChapterInfoRequest(svc, surah)).Some? && svc.fetch(ChapterInfoRequest(svc, surah)).value.chapter.Some?
    ensures r.Some? ==> r == svc.fetch(ChapterInfoRequest(svc, surah)).value.chapter
  {
    match svc.fetch(ChapterInfoRequest(svc, surah))
    case None => None
    case Some(body) => body.chapter
  }

  const SearchSize: string := "10"

  /** The search request: the query and a page size of ten; the language is not sent. */
  function SearchRequest(svc: Service, query: string): Request {
    Request(svc.baseUrl + "/search", [("q", query), ("size", SearchSize)])
  }

  /** `search_quran`: the result list as returned, empty when the response has none; nothing when the request fails. */
  function SearchQuran(svc: Service, query: string, language: string): (r: Option<seq<SearchResult>>)
    ensures r.None? <==> svc.fetch(SearchRequest(svc, query)).None?
    ensures r.Some? ==> var body := svc.fetch(SearchRequest(svc, query)).value;
                        && (body.search.None? || body.search.value.results.None? ==> r.value == [])
                        && (body.search.Some? && body.search.value.results.Some? ==>
                              r.value == body.search.value.results.value)
  {
    match svc.fetch(SearchRequest(svc, query))
    case None => None
    case Some(body) =>
      match body.search
      case None => Some([])
      case Some(search) => Some(search.results.GetOr([]))
  }

  /** The language argument of the search changes nothing. */
  lemma SearchIgnoresLanguage(svc: Service, query: string, l1: string, l2: string)
    ensures SearchQuran(svc, query, l1) == SearchQuran(svc, query, l2)
  {
  }
}
