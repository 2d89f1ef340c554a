/**
 * The request and response models of the API: the enums, the request fields
 * with their declared bounds (as validity predicates) and their defaults,
 * and the response records the endpoints build.
 */
module Schemas {
  import opened Wrappers

  // ---------------------------------------------------------------- enums

  /** The five response languages a request may name. */
  datatype Language = En | Ur | Hi | Ar | Bn {
    /** The enum's string value, which is what the services receive. */
    function Code(): string {
      match this
      case En => "en"
      case Ur => "ur"
      case Hi => "hi"
      case Ar => "ar"
      case Bn => "bn"
    }
  }

  /** Request validation of a language field: only the five codes are accepted. */
  function ParseLanguage(code: string): (r: Option<Language>)
    ensures r.Some? ==> r.value.Code() == code
    ensures r.None? ==> code !in {"en", "ur", "hi", "ar", "bn"}
  {
    match code
    case "en" => Some(En)
    case "ur" => Some(Ur)
    case "hi" => Some(Hi)
    case "ar" => Some(Ar)
    case "bn" => Some(Bn)
    case _ => None
  }

  /** Every language is accepted under its own code. */
  lemma LanguageRoundTrip(l: Language)
    ensures ParseLanguage(l.Code()) == Some(l)
  {
  }

  /** The three voice styles of the text-to-speech request. */
  datatype VoiceStyle = Calm | Wise | Gentle {
    function Code(): string {
      match this
      case Calm => "calm"
      case Wise => "wise"
      case Gentle => "gentle"
    }
  }

  function ParseVoiceStyle(code: string): (r: Option<VoiceStyle>)
    ensures r.Some? ==> r.value.Code() == code
    ensures r.None? ==> code !in {"calm", "wise", "gentle"}
  {
    match code
    case "calm" => Some(Calm)
    case "wise" => Some(Wise)
    case "gentle" => Some(Gentle)
    case _ => None
  }

  lemma VoiceStyleRoundTrip(v: VoiceStyle)
    ensures ParseVoiceStyle(v.Code()) == Some(v)
  {
  }

  // ---------------------------------------------------------------- requests

  /** One chat turn, as the chat-completion API takes it: `{"role": ..., "content": ...}`. */
  datatype Message = Message(role: string, content: string)

  datatype ChatRequest = ChatRequest(
    message: string,
    language: Language,
    userId: Option<string>,
    conversationHistory: Option<seq<Message>>)

  /** The message is one to a thousand characters long. */
  predicate ValidChatRequest(r: ChatRequest) {
    1 <= |r.message| <= 1000
  }

  /** A chat request that names only its message gets English and an empty history. */
  function NewChatRequest(message: string): (r: ChatRequest)
    ensures r.message == message && r.language == En
    ensures r.userId == None && r.conversationHistory == Some([])
  {
    ChatRequest(message, En, None, Some([]))
  }

  datatype QuranExplainRequest = QuranExplainRequest(surahNumber: int, ayahNumber: Option<int>, language: Language)

  /** The surah is one of the 114, and a given ayah number is at least 1. */
  predicate ValidQuranExplainRequest(r: QuranExplainRequest) {
    1 <= r.surahNumber <= 114 && (r.ayahNumber.Some? ==> r.ayahNumber.value >= 1)
  }

  datatype HadithExplainRequest = HadithExplainRequest(
    collection: string,
    bookNumber: int,
    hadithNumber: Option<int>,
    language: Language)

  /** The book number is at least 1; the collection is any string. */
  predicate ValidHadithExplainRequest(r: HadithExplainRequest) {
    r.bookNumber >= 1
  }

  const DefaultUserLevel: string := "beginner"

  datatype SpiritualAdviceRequest = SpiritualAdviceRequest(topic: string, userLevel: Option<string>, language: Language)

  /** An advice request that names only its topic is a beginner's, in English. */
  function NewSpiritualAdviceRequest(topic: string): (r: SpiritualAdviceRequest)
    ensures r.topic == topic && r.userLevel == Some("beginner") && r.language == En
  {
    SpiritualAdviceRequest(topic, Some(DefaultUserLevel), En)
  }

  const DefaultMeditationMinutes: int := 5

  datatype MeditationRequest = MeditationRequest(goal: string, durationMinutes: int, language: Language)

  /** A meditation lasts three to thirty minutes. */
  predicate ValidMeditationRequest(r: MeditationRequest) {
    3 <= r.durationMinutes <= 30
  }

  /** A meditation request that names only its goal lasts five minutes, and is valid. */
  function NewMeditationRequest(goal: string): (r: MeditationRequest)
    ensures r.goal == goal && r.durationMinutes == 5 && r.language == En
    ensures ValidMeditationRequest(r)
  {
    MeditationRequest(goal, DefaultMeditationMinutes, En)
  }

  datatype VoiceGenerateRequest = VoiceGenerateRequest(text: string, language: Language, voiceStyle: VoiceStyle)

  /** The text to speak is at most five thousand characters long. */
  predicate ValidVoiceGenerateRequest(r: VoiceGenerateRequest) {
    |r.text| <= 5000
  }

  /** A voice request that names only its text is spoken calmly in English. */
  function NewVoiceGenerateRequest(text: string): (r: VoiceGenerateRequest)
    ensures r.text == text && r.language == En && r.voiceStyle == Calm
    ensures |text| <= 5000 <==> ValidVoiceGenerateRequest(r)
  {
    VoiceGenerateRequest(text, En, Calm)
  }

  // ---------------------------------------------------------------- responses

  datatype QuranResponse = QuranResponse(
    surahNumber: int,
    surahName: string,
    ayahNumber: Option<int>,
    arabicText: string,
    translation: string,
    explanation: string,
    language: string)

  datatype HadithResponse = HadithResponse(
    collection: string,
    bookNumber: int,
    hadithNumber: Option<int>,
    arabicText: Option<string>,
    translation: string,
    explanation: string,
    authenticity: Option<string>,
    language: string)

  datatype SpiritualAdviceResponse = SpiritualAdviceResponse(
    advice: string,
    recommendedZikr: seq<string>,
    nextSteps: seq<string>,
    language: string)

  datatype MeditationResponse = MeditationResponse(
    script: string,
    audioUrl: Option<string>,
    durationMinutes: int,
    steps: seq<string>,
    language: string)
}
