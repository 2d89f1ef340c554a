# Al Murshid API: a verified model of the request logic

Al Murshid is a FastAPI back end for a Sufi spiritual-guidance app. It serves
Quran verses and hadith with generated explanations, personal advice,
guided meditations and dhikr suggestions. Most of it is glue around remote
services. This project models the logic that decides what those services
are asked for and what the endpoints return, and proves properties of it:

- **HadithService** is the hadith resolver. It works in this order:
  - it lowercases and checks the collection name;
  - it clamps an out-of-range book number to 1;
  - it builds three candidate edition URLs;
  - it tries them in order, stops at the first that yields a non-empty `hadiths` list, and normalises that hadith into a record.

  It also covers the random-book bound, the scan of books 1 to 4 for a hadith number, and the collection listing. `get_hadith` and `get_hadith_by_number` are methods with loops, proved equal to specification functions (`Resolve`, `Attempted`, `ByNumber`).
- **QuranService** covers the translation resource table, verse keys, the verse and chapter records built from the API's responses, chapter information and search.
- **Prompts** holds the system prompt, the per-language reply directive, and the prompt templates with their interpolated fields.
- **OpenAIService** assembles the message list of each of the six generation calls and shapes the result. Each call returns the reply's text or, when the provider raises, a fixed fallback.
- **ElevenLabsService** covers voice, stability and style selection for speech synthesis, result shaping, meditation audio, the voice list and the recommended-speed table.
- **SpiritualApi**, **QuranApi** and **HadithApi** model the three routers: the status codes they raise, the order of their calls, and the fields they copy.
- **Schemas** holds the enums, the request defaults and the field bounds as validity predicates.
- **Wrappers**, **Text**, **Assoc** and **Http** are helper modules:
  - `Option` and `Result`;
  - Python's `lower`, `strip`, `split` and integer formatting;
  - dict literals with `.get(key, default)`;
  - `HTTPException` and the generic `except Exception` handler.

The remote services are not modelled. Each one enters the model as a
parameter with the meaning below.

| oracle | parameter | returns |
|---|---|---|
| hadith API | `HadithService.Fetch`: the number of the request (0, 1, 2, … in the order sent) and the URL | the parsed book, or `None` when the request raised |
| Quran API | `QuranService.Fetch`: the request's URL and query parameters | the parsed body, or `None` |
| chat-completion API | `OpenAIService.Provider`: the message list | the reply, or the text of the error |
| speech API | `ElevenLabsService.Synthesizer`: text, voice, settings, model | the encoded audio, or the error text |

Because the hadith oracle sees the request number, the proofs hold for a
service whose answers change between calls. The random choices of
`get_random_hadith` are parameters, with the bounds the source draws them
from.

## Model

| member | source | states |
|---|---|---|
| HadithService.CollectionsValid | app/services/hadith_service.py:15-46 | the table has six collections with distinct lower-case ids, at least one book each, and the edition prefix `eng-` + id |
| HadithService.KnownCollection | app/services/hadith_service.py:58-62 | a collection found in a valid table has books and the `eng-` prefix, and its key is lower case |
| HadithService.NewService | app/services/hadith_service.py:11-46 | a constructed service has the given base URL and fetch, and the valid six-entry table |
| HadithService.FirstHadith | app/services/hadith_service.py:83-91 | a hadith is taken exactly when the request succeeded and `hadiths` is non-empty, and it is the first one |
| HadithService.Normalize | app/services/hadith_service.py:93-100 | the record holds the display name and the clamped book; the number defaults to 1, text and arabic to empty, reference to `{}` |
| HadithService.ClampBook | app/services/hadith_service.py:65-68 | an in-range book is kept; a book below 1 or above the count becomes 1 |
| HadithService.EditionUrl | app/services/hadith_service.py:71-75 | every candidate starts with `{base}/editions/` and ends with `/{book}.json` |
| HadithService.EditionUrlInjective | app/services/hadith_service.py:71-75 | two candidate URLs for the same book are equal only when their editions are |
| HadithService.CandidateUrls | app/services/hadith_service.py:71-75 | exactly three candidates are built; their editions are pinned by `CandidateShape` |
| HadithService.Plan | app/services/hadith_service.py:56-75 | the plan is absent exactly for a collection whose lowercased name is not in the table; otherwise it has three URLs, the table entry, and the clamped book |
| HadithService.FirstHitFrom | app/services/hadith_service.py:78-103 | the index returned is a candidate that yields a hadith, and no earlier candidate does |
| HadithService.Resolve | app/services/hadith_service.py:48-111 | specification of `get_hadith`'s result: a record only for a known collection, with its display name and the clamped book, and only when some candidate lists a hadith |
| HadithService.Attempted | app/services/hadith_service.py:71-103 | specification of `get_hadith`'s requests: none for an unknown collection, otherwise a non-empty prefix of the three candidates |
| HadithService.GetHadith | app/services/hadith_service.py:48-111 | the loop returns the record of `Resolve` and sends exactly the requests of `Attempted` |
| HadithService.UnknownCollectionSendsNothing | app/services/hadith_service.py:56-60 | no request is sent exactly when the lowercased collection is unknown, and then there is no hadith |
| HadithService.CollectionCaseInsensitive | app/services/hadith_service.py:56 | a collection name and its lower-case form give the same record and the same requests |
| HadithService.OutOfRangeBookIsBookOne | app/services/hadith_service.py:65-68 | an out-of-range book gives the same record and requests as book 1 |
| HadithService.BukhariBook999 | app/services/hadith_service.py:16-17 | on the constructed service, Bukhari book 999 resolves as book 1 does, and its record says book 1 |
| HadithService.CandidateShape | app/services/hadith_service.py:71-75 | the first candidate is the `eng-` edition of the lower-cased id, the third is the same string, the second is the bare id's edition, and all three end in `/{book}.json` |
| HadithService.StopsAtFirstHit | app/services/hadith_service.py:78-107 | the requests sent are a prefix of the candidates; every earlier candidate missed; a record means the last request hit and is its first hadith; no record means all three were tried |
| HadithService.FirstCandidateHitIsOnlyRequest | app/services/hadith_service.py:78-103 | when the first candidate yields a hadith, it is the only request sent |
| HadithService.ThirdCandidateRedundantWhenDeterministic | app/services/hadith_service.py:71-103 | against an API that answers a URL the same way every time, a hadith is found within two requests |
| HadithService.ResolveIgnoresStartWhenDeterministic | app/services/hadith_service.py:78-103 | against such an API, the result and the requests do not depend on how many requests came before |
| HadithService.SameHits | app/services/hadith_service.py:78-103 | candidates that hit alike give the same first hit |
| HadithService.AvailableCollections | app/services/hadith_service.py:129-138 | one `{id, name, total_books}` entry per table entry, in table order |
| HadithService.ListedIdsAreAccepted | app/services/hadith_service.py:129-138 | every listed id is accepted by the resolver, and every accepted name lowercases to a listed id |
| HadithService.ConstructedListing | app/services/hadith_service.py:16-45 | the listing has six entries, from Sahih Bukhari (97 books) to Sunan Ibn Majah (37) |
| HadithService.RandomBookLimit | app/services/hadith_service.py:121 | the random book is at most `min(10, books)` |
| HadithService.GetRandomHadith | app/services/hadith_service.py:113-127 | a random pick resolves like `get_hadith` for the chosen id and book; its record has the display name and the unclamped book |
| HadithService.SearchLimit | app/services/hadith_service.py:155 | the scan covers books `1..min(4, books)` |
| HadithService.AnsweringQuery | app/services/hadith_service.py:155-156 | there is a book query that answers exactly as the resolver does |
| HadithService.ScanBooks | app/services/hadith_service.py:155-158 | a record found by the scan has the requested hadith number |
| HadithService.ScanSameQuery | app/services/hadith_service.py:155-158 | the scan depends only on the query's answers |
| HadithService.ByNumber | app/services/hadith_service.py:140-160 | specification of `get_hadith_by_number`: none and no request for an unknown collection; a record found has the requested number |
| HadithService.GetHadithByNumber | app/services/hadith_service.py:140-160 | the loop returns the record and the requests of the specification `ByNumber` |
| HadithService.ScanAdvance | app/services/hadith_service.py:155-158 | a book without the number passes the scan on, and the requests it sent come before the rest |
| HadithService.ScanBooksRange | app/services/hadith_service.py:155-158 | a record found comes from a book in the scanned range |
| HadithService.ByNumberFindsTheNumber | app/services/hadith_service.py:140-160 | a result has the requested number and a book in 1..4; an unknown collection gives none and sends nothing |
| HadithService.ScanFirstMatch | app/services/hadith_service.py:155-158 | when answers do not depend on the request number, no book scanned before the returned one has the number |
| HadithService.ByNumberIsFirstMatch | app/services/hadith_service.py:150-160 | against a repeatable API, no book from 1 up to the returned one's starts with the requested number: the result is the first match |
| HadithService.ScanNoneIff | app/services/hadith_service.py:155-160 | the scan finds nothing exactly when no book in range has the number |
| HadithService.ByNumberNoneIffNoBookMatches | app/services/hadith_service.py:150-160 | against a repeatable API, no result exactly when no book `1..min(4, books)` yields that hadith number |
| QuranService.TranslationId | app/services/quran_service.py:106-115 | a listed code gets its table entry; any other code gets 131 |
| QuranService.TranslationIdPerLanguage | app/services/quran_service.py:108-114 | en→131, ur→97, hi→122, ar→0, bn→161 |
| QuranService.TranslationIdDefaultIff | app/services/quran_service.py:115 | the default 131 is chosen exactly for `en` and for unlisted codes |
| QuranService.NoColonInInt | app/services/quran_service.py:33 | a rendered integer holds no colon |
| QuranService.VerseKey | app/services/quran_service.py:33 | the key `surah:ayah` parses back to both numbers |
| QuranService.VerseKeyInjective | app/services/quran_service.py:33 | different verses have different keys |
| QuranService.FirstTranslation | app/services/quran_service.py:56-61 | the first translation's text, or empty when the verse or the list is missing or empty |
| QuranService.GetVerse | app/services/quran_service.py:25-68 | a record exactly when both requests succeed; it echoes the key and both numbers |
| QuranService.VerseRequests | app/services/quran_service.py:37-53 | the Arabic request is sent first, and the translation request is sent only when the first succeeded |
| QuranService.VerseRequestsShape | app/services/quran_service.py:37-51 | both requests go to `{base}/verses/by_key/{key}`; only the second names the translation resource |
| QuranService.VerseUrl | app/services/quran_service.py:38 | the verse URL starts with the base URL and ends with the verse key's path |
| QuranService.VerseParams | app/services/quran_service.py:39-50 | the two requests share the URL and differ in that only the second names the translation |
| QuranService.VerseRecordContents | app/services/quran_service.py:55-61 | the Arabic text, or empty, and the first translation, or empty |
| QuranService.ShapeVerse | app/services/quran_service.py:93-97 | fields copied with defaults; a missing list gives an empty translation; a present but empty list fails |
| QuranService.ShapeVerses | app/services/quran_service.py:92-99 | the same length and order as the input, each entry shaped; fails exactly when some verse fails |
| QuranService.GetFullSurah | app/services/quran_service.py:70-104 | a failed request gives none; otherwise one entry per verse, in order, unless some verse has an empty translation list |
| QuranService.GetSurahInfo | app/services/quran_service.py:13-23 | the `chapter` field of the response, absent when the request fails or the field is missing |
| QuranService.SearchQuran | app/services/quran_service.py:117-132 | none exactly when the request fails; present `search.results` are returned unchanged; missing `search` or `results` gives an empty list |
| QuranService.SearchIgnoresLanguage | app/services/quran_service.py:117-128 | the language argument changes nothing |
| Prompts.LanguageInstruction | app/utils/prompts.py:34-43 | a listed code gets its directive, and any other code gets the English one |
| Prompts.InstructionIsEnglishIff | app/utils/prompts.py:43 | the English directive is returned exactly for `en` and for unlisted codes |
| Prompts.InstructionPerCode | app/utils/prompts.py:36-42 | the five fixed directives, one per code |
| Prompts.QuranExplanationPrompt | app/utils/prompts.py:46-59 | the verse follows `Arabic: ` verbatim and the translation follows `Translation: ` on the next line |
| Prompts.HadithExplanationPrompt | app/utils/prompts.py:61-74 | the hadith text follows `Hadith: ` verbatim |
| Prompts.LevelDescription | app/utils/prompts.py:79-85 | the three levels get their phrases; an unknown or missing level gets the bare word `beginner` |
| Prompts.SpiritualAdvicePrompt | app/utils/prompts.py:76-94 | the level description, then `) asks about: ` and the topic verbatim |
| Prompts.UnknownLevelSaysBeginnerLiterally | app/utils/prompts.py:85 | an unknown level's prompt carries the word `beginner` and differs from a beginner's prompt |
| Prompts.MeditationScriptPrompt | app/utils/prompts.py:96-118 | the goal follows `Goal: ` verbatim, and the duration in decimal follows `Duration: ` |
| Prompts.MeditationPromptDeterminesDuration | app/utils/prompts.py:101-102 | two prompts for the same goal are equal only for the same duration |
| OpenAIService.SystemMessageShape | app/services/openai_service.py:24-29 | a system message opens with its role preamble and ends with the language directive |
| OpenAIService.SystemMessagesDiffer | app/services/openai_service.py:82 | system messages whose preambles differ are different messages |
| OpenAIService.LastTurns | app/services/openai_service.py:33 | the last `min(5, n)` turns, in their order |
| OpenAIService.Conversation | app/services/openai_service.py:24-39 | the system message, then the last `min(5, n)` turns in order, then the user message: `2 + min(5, n)` messages |
| OpenAIService.ValidChatRequestEndsTheConversation | app/models/schemas.py:26-29 | for a valid chat request, the last message sent is the user's message of 1 to 1000 characters |
| OpenAIService.OlderTurnsAreForgotten | app/services/openai_service.py:32-33 | turns older than the last five do not reach the provider; no history equals an empty one |
| OpenAIService.ChatOutcome | app/services/openai_service.py:49-65 | success exactly for a reply, with its text and tokens; otherwise the apology, 0 tokens, and the error |
| OpenAIService.ChatWithMurshid | app/services/openai_service.py:15-65 | the list built in place is the conversation, and the result shapes the provider's answer to it |
| OpenAIService.TextOr | app/services/openai_service.py:93-97 | the reply's text, or the fallback on an error |
| OpenAIService.ExplainQuranVerse | app/services/openai_service.py:67-97 | the reply to the Quran scholar's messages, or the fixed fallback |
| OpenAIService.ExplainHadith | app/services/openai_service.py:99-128 | the reply to the hadith scholar's messages, or the fixed fallback |
| OpenAIService.ExplanationRequestsAndFallback | app/services/openai_service.py:79-128 | the two explanations name different scholars, quote their texts verbatim, and fall back to the same sentence |
| OpenAIService.GenerateSpiritualAdvice | app/services/openai_service.py:130-183 | on a reply, its text with the fixed three dhikr and three next steps; on an error, the blessing and empty lists |
| OpenAIService.AdviceListsFixed | app/services/openai_service.py:159-183 | the lists have three entries exactly on success, and are empty together |
| OpenAIService.AdviceUsesChatSystemMessage | app/services/openai_service.py:142-151 | advice is asked under the chat's system message, then a user message |
| OpenAIService.GenerateMeditationScript | app/services/openai_service.py:185-215 | the reply's text, or the fixed opening line |
| OpenAIService.MeditationRequestNamesDuration | app/services/openai_service.py:193-206 | different durations send different messages |
| OpenAIService.GenerateDailyNaseehah | app/services/openai_service.py:217-250 | a reference `Quran/Hadith` is present exactly on success; a failure gives the fixed reminder |
| OpenAIService.NaseehahPromptIsConstant | app/services/openai_service.py:220-233 | the user message is the same for every language; languages with different directives get different message lists |
| ElevenLabsService.VoiceId | app/services/elevenlabs_service.py:47 | a listed style gets its own entry; any other style gets the `calm` entry |
| ElevenLabsService.EveryStyleIsCalmVoice | app/services/elevenlabs_service.py:15-19 | every style, listed or not, gets the calm voice; only the three styles are listed |
| ElevenLabsService.Stability | app/services/elevenlabs_service.py:51 | 0.75 exactly below speed 1.0, 0.60 from 1.0 up |
| ElevenLabsService.StyleExaggeration | app/services/elevenlabs_service.py:56 | 0.3 exactly for `ar` and `ur`, 0.5 otherwise |
| ElevenLabsService.TextToSpeech | app/services/elevenlabs_service.py:21-96 | a success exactly when synthesis succeeds, returning the audio as mp3 and echoing text, speed and language; a failure has the error and no audio |
| ElevenLabsService.SynthesisSettings | app/services/elevenlabs_service.py:61-74 | the request keeps the text and speed, uses the calm voice, similarity 0.75, speaker boost, the multilingual model, and settings inside (0, 1) |
| ElevenLabsService.GenerateMeditationAudio | app/services/elevenlabs_service.py:98-111 | a success exactly when synthesis of the script with the calm voice at speed 0.70 succeeds; it then echoes the script, 0.70 and the language as mp3; otherwise the error |
| ElevenLabsService.MeditationAudioSettings | app/services/elevenlabs_service.py:98-111 | meditation audio is `text_to_speech` with the calm voice, speed 0.70 and stability 0.75 |
| ElevenLabsService.AvailableVoices | app/services/elevenlabs_service.py:113-115 | the style keys in order: calm, wise, gentle |
| ElevenLabsService.ListedVoicesAreKnown | app/services/elevenlabs_service.py:113-115 | every listed style has its own table entry |
| ElevenLabsService.RecommendedSpeed | app/services/elevenlabs_service.py:117-134 | a listed content type gets its table speed, and any other type gets 0.85 |
| ElevenLabsService.RecommendedSpeedBounds | app/services/elevenlabs_service.py:124-134 | speeds lie in 0.70..1.2, and all but `normal` and `fast` get the steadier stability |
| ElevenLabsService.RecommendedSpeedTable | app/services/elevenlabs_service.py:124-132 | the named speeds; quran and meditation share 0.70 |
| SpiritualApi.SpiritualAdvice | app/api/spiritual.py:18-43 | the response copies advice and both lists from the service, and echoes the language |
| SpiritualApi.Steps | app/api/spiritual.py:63 | never more steps than parts; no step is empty; every part that does not clean to nothing is a step |
| SpiritualApi.StepSourceIsTheStep | app/api/spiritual.py:63 | every step is some part, stripped, and not empty |
| SpiritualApi.StepSourcesIncrease | app/api/spiritual.py:63 | later steps come from later parts: order is kept |
| SpiritualApi.NonBlankPartsAreSteps | app/api/spiritual.py:63 | every part that does not strip to nothing becomes a step |
| SpiritualApi.NoStepsOnlyForBlankParts | app/api/spiritual.py:63 | no steps exactly when every part is blank |
| SpiritualApi.StepsAppend | app/api/spiritual.py:63 | the steps of two runs of parts are those of the first run, then those of the second |
| SpiritualApi.MeditationSteps | app/api/spiritual.py:63 | at most one step per blank-line-separated paragraph; every step is non-empty with no whitespace at either end |
| SpiritualApi.StrippedStepsAreTrimmed | app/api/spiritual.py:63 | every step is non-empty, with no whitespace at either end |
| SpiritualApi.SingleParagraphIsOneStep | app/api/spiritual.py:63 | a script without a blank line that is not all whitespace is one step: the stripped script |
| SpiritualApi.Meditation | app/api/spiritual.py:45-82 | the script is the service's; audio is none; the duration and language are echoed; the steps are the script's paragraphs |
| SpiritualApi.ZikrFor | app/api/spiritual.py:94-122 | the lowercased mood's list, or the general list for an unlisted mood |
| SpiritualApi.ZikrSuggestions | app/api/spiritual.py:84-133 | the mood and language as given, the fixed note, and a three-entry list, which is the general list for an unlisted mood |
| SpiritualApi.ZikrIgnoresCase | app/api/spiritual.py:122 | a mood and its lower-case form get the same list |
| SpiritualApi.ListedMoodGetsItsList | app/api/spiritual.py:94-120 | each of the five moods gets its own list |
| SpiritualApi.DefaultMoodIsGeneral | app/api/spiritual.py:85 | the default mood gets the general list, which is also the dhikr the advice service recommends |
| QuranApi.RequestedAyah | app/api/quran.py:29-41 | a missing or zero ayah asks for ayah 1; any other is asked as given |
| QuranApi.SurahName | app/api/quran.py:54-55 | `name_simple` when the information exists and has it, otherwise `Surah {n}` |
| QuranApi.VerseCalls | app/api/quran.py:30-41 | the endpoint's first calls are exactly the verse requests |
| QuranApi.ValidRequestAsksForItsAyah | app/models/schemas.py:46-47 | for a valid request, a given ayah (at least 1) is the one fetched, and no ayah means ayah 1 |
| QuranApi.ExplainVerse | app/api/quran.py:15-71 | the first call fetches the verse; the only error is 404 "Verse not found"; a response echoes the surah number and the language |
| QuranApi.ExplainVerseNotFound | app/api/quran.py:43-44 | a 404 exactly when the verse cannot be fetched; only verse requests were made, so the outcome is the same for any provider |
| QuranApi.ExplainVerseFound | app/api/quran.py:24-65 | four calls in order, namely two verse requests, one provider call and the chapter request; the response copies the verse's texts and the explanation, and carries the name and language |
| QuranApi.ExplainVerseTranslation | app/api/quran.py:26 | the translation fetched is the one for the request's language |
| QuranApi.SurahInfo | app/api/quran.py:73-91 | 400 with no request outside 1..114; 404 when there is no information; otherwise the information itself |
| QuranApi.SearchBody | app/api/quran.py:96-102 | a failed search raises 500 "Search failed"; otherwise the query and the results |
| QuranApi.SearchAsWritten | app/api/quran.py:93-106 | as written, a failed search leaves as 500 `500: Search failed` |
| QuranApi.SearchFailureDetailIsDoubled | app/api/quran.py:99-106 | when the API fails, the as-written endpoint's detail repeats the status and differs from the raised error |
| QuranApi.Search | app/api/quran.py:93-106 | corrected: a failed search is 500 with the detail "Search failed" |
| HadithApi.ExplainHadith | app/api/hadith.py:15-55 | a 404 exactly when no hadith resolves, and then no provider call; otherwise fields copied, text as translation, authenticity `Sahih`, the explanation |
| HadithApi.ValidRequestClampsOnlyAbove | app/models/schemas.py:61 | for a valid request, the book is replaced only when it exceeds the book count |
| HadithApi.NotFetchedBecomesServerError | app/api/hadith.py:63-64 | the generic handler turns the 404 into 500 `404: Could not fetch hadith` |
| HadithApi.RandomBody | app/api/hadith.py:61-75 | no hadith raises 404; otherwise the record, its explanation and the language |
| HadithApi.RandomHadithAsWritten | app/api/hadith.py:57-79 | as written, a missing hadith leaves as 500, the rewritten 404 |
| HadithApi.UnreachableSourceSuppliesNothing | app/api/hadith.py:61-64 | an API that answers nothing gives no hadith, so the as-written endpoint answers 500 |
| HadithApi.RandomHadith | app/api/hadith.py:57-79 | corrected: a missing hadith is 404 "Could not fetch hadith"; otherwise the record of the chosen collection and book, explained |
| HadithApi.Collections | app/api/hadith.py:81-90 | the response is the service's listing unchanged: one entry per collection in order, with its id, name and book count |
| HadithApi.ListedCollectionsAreExplainable | app/api/hadith.py:85-86 | every listed id is accepted by the explain endpoint |
| Http.AsServerError | app/api/hadith.py:77-79 | the new error is a 500 whose detail is exactly the old status, a colon and a space, and the old detail |
| Http.CatchAll | app/api/quran.py:104-106 | a body is passed through, and an error is rewritten as a 500 |
| Http.NotFoundAsServerError | app/api/hadith.py:77-79 | a 404 becomes a 500 with detail `404: ` and the old detail |
| Http.CatchAllRewritesEveryError | app/api/quran.py:104-106 | the rewrite always changes the error, and changes its status unless it was a 500 |
| Schemas.ParseLanguage | app/models/schemas.py:6-12 | the five language codes and nothing else |
| Schemas.LanguageRoundTrip | app/models/schemas.py:6-12 | every language parses back from its code |
| Schemas.ParseVoiceStyle | app/models/schemas.py:18-22 | the three voice styles and nothing else |
| Schemas.VoiceStyleRoundTrip | app/models/schemas.py:18-22 | every voice style parses back from its code |
| Schemas.NewChatRequest | app/models/schemas.py:25-29 | defaults: English, no user, empty history |
| Schemas.NewSpiritualAdviceRequest | app/models/schemas.py:65-68 | defaults: level `beginner`, English |
| Schemas.NewMeditationRequest | app/models/schemas.py:70-73 | defaults: five minutes, English; the default lies in 3..30 |
| Schemas.NewVoiceGenerateRequest | app/models/schemas.py:75-78 | defaults: English, calm; valid exactly when the text has at most 5000 characters |
| Assoc.Keys | app/services/elevenlabs_service.py:115 | the keys in table order |
| Assoc.Lookup | app/services/quran_service.py:115 | absent exactly for an unlisted key; otherwise an entry's value |
| Assoc.Get | app/services/quran_service.py:115 | the default for an unlisted key; otherwise an entry's value |
| Assoc.LookupEntry | app/api/spiritual.py:94-122 | with distinct keys, an entry's key finds that entry's value |
| Text.Lower | app/services/hadith_service.py:56 | same length; each character is lowered on its own: `A`..`Z` become `a`..`z`, every other character is unchanged |
| Text.LowerIdempotent | app/api/spiritual.py:122 | lowercasing twice is lowercasing once |
| Text.Strip | app/api/spiritual.py:63 | the result is a slice of the text with only whitespace outside it; empty exactly for all-whitespace text, and otherwise no whitespace at either end |
| Text.Split | app/api/spiritual.py:63 | at least one part; the parts joined with the separator give the text back; no part holds the separator; each part ends at the leftmost occurrence after it; one part exactly when `find` reports nothing, otherwise the first part ends where `find` reports |
| Text.IntToString | app/services/quran_service.py:33 | decimal digits with a leading `-` exactly for negatives |
| Text.IntToStringRoundTrip | app/services/quran_service.py:33 | a rendered integer parses back to itself |
| Text.IntToStringInjective | app/utils/prompts.py:102 | different integers render differently |

## Left out

- HTTP transport is not modelled. This covers the `httpx` clients, `raise_for_status`, JSON decoding and timeouts; each service call is an oracle that returns the parsed body or `None`.
- The OpenAI and ElevenLabs SDK calls and `base64.b64encode` are not modelled. They are foreign calls; the provider and the synthesizer are parameters, and the synthesizer returns the audio already encoded.
- Model name, temperature and `max_tokens` are not modelled. They are constant arguments of the provider call; only the message list is.
- Logging is not modelled; it has no effect on results.
- `async`/`await` is not modelled. The calls run one after another, and the model treats them as sequential.
- `random.choice`/`random.randint` in `get_random_hadith` are not modelled. The chosen collection and book are parameters, required to lie within the source's bounds.
- The voice router, the prayer-times service, the `/murshid` router (which reads the wall clock), application start-up, configuration and CORS are not part of this model.
- Pydantic validation happens before an endpoint runs. The validity predicates in `Schemas` state the field bounds, but the endpoint models accept any request, as the router code does.
- The `except Exception` branches of `explain_verse`, `get_surah_info`, `explain_hadith`, `get_collections`, `get_spiritual_advice`, `generate_meditation` and `get_zikr_suggestions` are left out. Within this model their bodies cannot raise: the services catch every transport and provider error themselves, and the JSON abstraction below rules out the `null` and wrong-typed fields that could still make a response fail validation in the source.
- The commented-out meditation audio is left out; the meditation endpoint never calls speech synthesis.
- Http.AsServerError: assumes that `str()` of an `HTTPException` is `"{status_code}: {detail}"`. That is the Starlette format, and Starlette is not part of this model.
- Text.Lower: lowercases the ASCII letters A to Z only. The table keys it is compared with are ASCII, but `str.lower` also changes non-ASCII letters, so a non-ASCII name that Python lowercases onto a key is not matched in the model.
- Text.Strip: uses a fixed set of whitespace code points that follows Python's `str.isspace`.
- QuranApi.SurahName: a chapter object that is present but has none of the modelled keys stands for the empty dict that Python reads as false. Other keys of the chapter object are not modelled.
- JSON `null` values and fields of the wrong type are not modelled in any parsed body: hadith books, verses, chapters and search results. A field is either absent or holds a value of its type, so the members below do not capture what the source does with a `null`.
- HadithService.Normalize: for a `null` `text`, `arabic`, `hadithnumber` or `reference` the source copies the `None` into the record, where the model only knows the absent field and its default.
- QuranApi.SurahName: for `"name_simple": null` the source's `.get` returns `None`, response validation fails and the endpoint answers 500; the model only knows the absent key, which gives `Surah {n}`.
- QuranService.SearchQuran: for `"results": null` the source returns `None` and the endpoint answers 500; the model only knows the absent key, which gives `[]`.
- HadithService.GetHadith: models the per-candidate `except Exception: continue` as the fetch oracle returning `None`.
- OpenAIService.ChatWithMurshid: history entries are `Message` values (role and content), whereas the source accepts arbitrary dicts.
- ElevenLabsService.TextToSpeech: the error text is the synthesizer's, standing for `str(e)` of whatever it raised.

## Findings

| source | as written | input that shows it | evidently intended | confidence | as-written member | corrected member |
|---|---|---|---|---|---|---|
| app/api/hadith.py:57-79 | `get_random_hadith` has no `except HTTPException: raise`, so the 404 raised for a missing hadith is caught by the generic handler and leaves as a 500 whose detail is `404: Could not fetch hadith` | a hadith API that fails every request (`HadithApi.UnreachableSourceSuppliesNothing`, then `HadithApi.NotFetchedBecomesServerError`) | a 404 "Could not fetch hadith", as `explain_hadith` passes its 404 through | not executed; high | HadithApi.RandomHadithAsWritten | HadithApi.RandomHadith |
| app/api/quran.py:93-106 | `search_quran` has no `except HTTPException: raise`, so its 500 "Search failed" is caught and re-raised as a 500 whose detail is `500: Search failed` | a Quran API that fails every request (`QuranApi.SearchFailureDetailIsDoubled`) | a 500 whose detail is "Search failed", as the other endpoints of the router pass HTTP errors through | not executed; medium | QuranApi.SearchAsWritten | QuranApi.Search |
