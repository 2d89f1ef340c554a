/**
 * Speech synthesis: which voice and settings a request is synthesised
 * with, and the result shape. The synthesis call itself (and the base64
 * encoding of the audio it returns) is an oracle `synthesize(request)`.
 * Speeds are Python floats, modelled as reals.
 */
module ElevenLabsService {
  import opened Wrappers
  import Assoc

  const CalmVoiceId: string := "21m00Tcm4TlvDq8ikWAM"

  /** The voice for each style; all three currently name the same voice. */
  const VoiceIds: Assoc.Table<string> := [("calm", CalmVoiceId), ("wise", CalmVoiceId), ("gentle", CalmVoiceId)]

  const SynthesisModel: string := "eleven_multilingual_v2"
  const SimilarityBoost: real := 0.75
  const AudioFormat: string := "mp3"
  const DefaultSpeed: real := 0.85
  const MeditationSpeed: real := 0.70

  /** `voice_ids.get(style, voice_ids["calm"])`: a style's own entry, or the calm entry for an unknown style. */
  function VoiceId(style: string): (r: string)
    ensures Assoc.HasKey(VoiceIds, style) ==> Assoc.Lookup(VoiceIds, style) == Some(r)
    ensures !Assoc.HasKey(VoiceIds, style) ==> Assoc.Lookup(VoiceIds, "calm") == Some(r)
  {
    Assoc.Get(VoiceIds, style, Assoc.Get(VoiceIds, "calm", CalmVoiceId))
  }

  /** Every style, known or not, is voiced by the calm voice. */
  lemma EveryStyleIsCalmVoice(style: string)
    ensures VoiceId(style) == CalmVoiceId
    ensures Assoc.HasKey(VoiceIds, style) <==> style in {"calm", "wise", "gentle"}
  {
    assert VoiceIds[0].0 == "calm" && VoiceIds[1].0 == "wise" && VoiceIds[2].0 == "gentle";
    assert Assoc.Get(VoiceIds, "calm", CalmVoiceId) == CalmVoiceId;
  }

  /** Slower speech is given the steadier setting; normal speed and faster are given 0.60. */
  function Stability(speed: real): (s: real)
    ensures speed < 1.0 <==> s == 0.75
    ensures speed >= 1.0 <==> s == 0.60
  {
    if speed < 1.0 then 0.75 else 0.60
  }

  /** Arabic and Urdu are read less expressively than every other language. */
  function StyleExaggeration(language: string): (s: real)
    ensures language == "ar" || language == "ur" <==> s == 0.3
    ensures language != "ar" && language != "ur" <==> s == 0.5
  {
    if language in ["ar", "ur"] then 0.3 else 0.5
  }

  datatype VoiceSettings = VoiceSettings(stability: real, similarityBoost: real, style: real,
                                         useSpeakerBoost: bool, speed: real)

  /** The arguments of one synthesis call. */
  datatype Synthesis = Synthesis(text: string, voiceId: string, settings: VoiceSettings, model: string)

  /** The synthesis call: the encoded audio, or the text of the error it raised. */
  type Synthesizer = Synthesis -> Result<string, string>

  function SynthesisFor(text: string, voiceStyle: string, language: string, speed: real): Synthesis {
    Synthesis(text, VoiceId(voiceStyle),
              VoiceSettings(Stability(speed), SimilarityBoost, StyleExaggeration(language), true, speed),
              SynthesisModel)
  }

  /** The two shapes of the result dict: audio with the echoed request, or an error and no audio. */
  datatype SpeechResult =
    | Spoken(audioBase64: string, audioFormat: string, text: string, speed: real, language: string)
    | SpeechFailed(error: string)
  {
    predicate Success() {
      Spoken?
    }

    function Audio(): Option<string> {
      if Spoken? then Some(audioBase64) else None
    }
  }

  /**
   * `text_to_speech`: synthesises the text with the style's voice and the
   * settings derived from speed and language; a success echoes text, speed
   * and language with the `mp3` format, a failure carries the error and no audio.
   */
  function TextToSpeech(synthesize: Synthesizer, text: string, voiceStyle: string, language: string, speed: real)
    : (r: SpeechResult)
    ensures synthesize(SynthesisFor(text, voiceStyle, language, speed)).Success? <==> r.Success()
    ensures r.Success() ==>
              r == Spoken(synthesize(SynthesisFor(text, voiceStyle, language, speed)).value, AudioFormat, text, speed, language)
    ensures !r.Success() ==>
              r.Audio().None? && r.error == synthesize(SynthesisFor(text, voiceStyle, language, speed)).error
  {
    match synthesize(SynthesisFor(text, voiceStyle, language, speed))
    case Success(audio) => Spoken(audio, AudioFormat, text, speed, language)
    case Failure(e) => SpeechFailed(e)
  }

  /** The settings of every synthesis request: fixed similarity, boost and model, the requested speed. */
  lemma SynthesisSettings(text: string, voiceStyle: string, language: string, speed: real)
    ensures var s := SynthesisFor(text, voiceStyle, language, speed);
            && s.text == text && s.voiceId == CalmVoiceId && s.model == SynthesisModel
            && s.settings.similarityBoost == 0.75 && s.settings.useSpeakerBoost && s.settings.speed == speed
            && 0.0 < s.settings.stability < 1.0 && 0.0 < s.settings.style < 1.0
  {
    EveryStyleIsCalmVoice(voiceStyle);
  }

  /** `generate_meditation_audio`: calm voice at 0.70. */
  function GenerateMeditationAudio(synthesize: Synthesizer, script: string, language: string): (r: SpeechResult)
    ensures var request := SynthesisFor(script, "calm", language, MeditationSpeed);
            && (r.Success() <==> synthesize(request).Success?)
            && (r.Success() ==> r == Spoken(synthesize(request).value, "mp3", script, 0.70, language))
            && (!r.Success() ==> r == SpeechFailed(synthesize(request).error))
  {
    TextToSpeech(synthesize, script, "calm", language, MeditationSpeed)
  }

  /** Meditation audio is requested with the calm voice, the steadier setting and speed 0.70. */
  lemma MeditationAudioSettings(synthesize: Synthesizer, script: string, language: string)
    ensures var s := SynthesisFor(script, "calm", language, MeditationSpeed);
            && s.voiceId == CalmVoiceId && s.settings.stability == 0.75 && s.settings.speed == 0.70
            && GenerateMeditationAudio(synthesize, script, language) == TextToSpeech(synthesize, script, "calm", language, 0.70)
    ensures GenerateMeditationAudio(synthesize, script, language).Success() ==>
              GenerateMeditationAudio(synthesize, script, language).speed == 0.70
  {
    EveryStyleIsCalmVoice("calm");
  }

  /** `get_available_voices`: the style keys in table order. */
  function AvailableVoices(): (r: seq<string>)
    ensures r == ["calm", "wise", "gentle"]
  {
    Assoc.Keys(VoiceIds)
  }

  /** Every listed style has its own entry, so none of them falls back. */
  lemma ListedVoicesAreKnown()
    ensures forall i | 0 <= i < |AvailableVoices()| :: Assoc.HasKey(VoiceIds, AvailableVoices()[i])
  {
    assert forall i | 0 <= i < |VoiceIds| :: Assoc.HasKey(VoiceIds, VoiceIds[i].0);
  }

  const SpeedRecommendations: Assoc.Table<real> := [
    ("quran", 0.70), ("dua", 0.75), ("hadith", 0.80), ("advice", 0.85),
    ("meditation", 0.70), ("normal", 1.0), ("fast", 1.2)
  ]

  /** `get_recommended_speed`: the table's speed, or 0.85 for an unlisted content type. */
  function RecommendedSpeed(contentType: string): (s: real)
    ensures !Assoc.HasKey(SpeedRecommendations, contentType) ==> s == DefaultSpeed
    ensures Assoc.HasKey(SpeedRecommendations, contentType) ==>
              exists i | 0 <= i < |SpeedRecommendations| :: SpeedRecommendations[i] == (contentType, s)
  {
    Assoc.Get(SpeedRecommendations, contentType, DefaultSpeed)
  }

  /**
   * Recommended speeds lie between 0.70 and 1.2, and only `normal` and
   * `fast` reach 1.0, so every other content type is synthesised with the
   * steadier setting.
   */
  lemma RecommendedSpeedBounds(contentType: string)
    ensures 0.70 <= RecommendedSpeed(contentType) <= 1.2
    ensures Stability(RecommendedSpeed(contentType)) == 0.75 <==> contentType != "normal" && contentType != "fast"
  {
    var s := RecommendedSpeed(contentType);
    if Assoc.HasKey(SpeedRecommendations, contentType) {
      var i :| 0 <= i < |SpeedRecommendations| && SpeedRecommendations[i] == (contentType, s);
      assert 0.70 <= s <= 1.2;
      assert s >= 1.0 <==> i == 5 || i == 6;
    } else {
      assert SpeedRecommendations[5].0 == "normal" && SpeedRecommendations[6].0 == "fast";
    }
  }

  /** The named content types get their paces; quran and meditation share the slowest. */
  lemma RecommendedSpeedTable()
    ensures RecommendedSpeed("quran") == RecommendedSpeed("meditation") == MeditationSpeed
    ensures RecommendedSpeed("advice") == DefaultSpeed
    ensures RecommendedSpeed("dua") == 0.75 && RecommendedSpeed("hadith") == 0.80
  {
    assert Assoc.UniqueKeys(SpeedRecommendations);
    Assoc.LookupEntry(SpeedRecommendations, 0);
    Assoc.LookupEntry(SpeedRecommendations, 1);
    Assoc.LookupEntry(SpeedRecommendations, 2);
    Assoc.LookupEntry(SpeedRecommendations, 3);
    Assoc.LookupEntry(SpeedRecommendations, 4);
  }
}
