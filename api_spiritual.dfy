/**
 * The `/spiritual` router: personal advice, a guided meditation split into
 * steps, and dhikr suggestions for a mood.
 *
 * The service calls of the first two endpoints never raise (the services
 * turn provider errors into fixed texts), so their generic error handlers
 * are not reached and the endpoints are total functions of the provider.
 */
module SpiritualApi {
  import opened Wrappers
  import opened Text
  import opened Schemas
  import Assoc
  import OpenAIService

  // ---------------------------------------------------------------- POST /spiritual/advice

  /** `get_spiritual_advice`: the service's advice and lists, and the request's language. */
  function SpiritualAdvice(provider: OpenAIService.Provider, request: SpiritualAdviceRequest): (r: SpiritualAdviceResponse)
    ensures var reply := provider(OpenAIService.AdviceMessages(request.topic, request.userLevel, request.language.Code()));
            && r.language == request.language.Code()
            && (reply.Success? ==> r.advice == reply.value.content
                                   && r.recommendedZikr == OpenAIService.AdviceZikr
                                   && r.nextSteps == OpenAIService.AdviceNextSteps)
            && (reply.Failure? ==> r.advice == OpenAIService.AdviceFallback && r.recommendedZikr == [] && r.nextSteps == [])
  {
    var advice := OpenAIService.GenerateSpiritualAdvice(provider, request.topic, request.userLevel, request.language.Code());
    SpiritualAdviceResponse(advice.advice, advice.recommendedZikr, advice.nextSteps, request.language.Code())
  }

  // ---------------------------------------------------------------- POST /spiritual/meditation

  const ParagraphBreak: string := "\n\n"

  /**
   * `[clean(p) for p in parts if clean(p)]`: each part cleaned, in order,
   * the empty results dropped: no step is empty, and every part that does
   * not clean to nothing is a step. That each step is some part cleaned,
   * in the parts' order, is `StepSourceIsTheStep` and `StepSourcesIncrease`.
   * The endpoint cleans with `strip()`.
   */
  function Steps(parts: seq<string>, clean: string -> string): (r: seq<string>)
    ensures |r| <= |parts|
    ensures forall k | 0 <= k < |r| :: r[k] != []
    ensures forall j {:trigger clean(parts[j])} | 0 <= j < |parts| && clean(parts[j]) != [] :: clean(parts[j]) in r
    decreases |parts|
  {
    if parts == [] then []
    else if clean(parts[0]) == [] then Steps(parts[1..], clean)
    else [clean(parts[0])] + Steps(parts[1..], clean)
  }

  /**
   * The steps of a meditation script: its blank-line-separated paragraphs,
   * stripped, without the empty ones. There are at most as many steps as
   * paragraphs, and every step is non-empty with no whitespace at either end.
   */
  function MeditationSteps(script: string): (r: seq<string>)
    ensures |r| <= |Split(script, ParagraphBreak)|
    ensures forall k | 0 <= k < |r| :: r[k] != [] && !IsSpace(r[k][0]) && !IsSpace(r[k][|r[k]| - 1])
  {
    var parts := Split(script, ParagraphBreak);
    var r := Steps(parts, Strip);
    assert forall k | 0 <= k < |r| :: r[k] != [] && !IsSpace(r[k][0]) && !IsSpace(r[k][|r[k]| - 1]) by {
      forall k | 0 <= k < |r| ensures r[k] != [] && !IsSpace(r[k][0]) && !IsSpace(r[k][|r[k]| - 1]) {
        StrippedStepsAreTrimmed(parts, k);
      }
    }
    r
  }

  /** A part that cleans to nothing contributes no step. */
  lemma StepsSkipBlank(parts: seq<string>, clean: string -> string)
    requires parts != [] && clean(parts[0]) == []
    ensures Steps(parts, clean) == Steps(parts[1..], clean)
  {
  }

  /** Any other part contributes the first step, and the steps of the rest follow it. */
  lemma StepsKeepNonBlank(parts: seq<string>, clean: string -> string)
    requires parts != [] && clean(parts[0]) != []
    ensures |Steps(parts, clean)| == |Steps(parts[1..], clean)| + 1 && Steps(parts, clean)[0] == clean(parts[0])
    ensures forall k | 0 < k < |Steps(parts, clean)| :: Steps(parts, clean)[k] == Steps(parts[1..], clean)[k - 1]
  {
    var x, t := [clean(parts[0])], Steps(parts[1..], clean);
    assert Steps(parts, clean) == x + t;
  }

  /** The index of the part the `k`-th step comes from. */
  function StepSource(parts: seq<string>, clean: string -> string, k: nat): nat
    requires k < |Steps(parts, clean)|
    decreases |parts|
  {
    if clean(parts[0]) == [] then
      StepsSkipBlank(parts, clean);
      StepSource(parts[1..], clean, k) + 1
    else
      StepsKeepNonBlank(parts, clean);
      if k == 0 then 0 else StepSource(parts[1..], clean, k - 1) + 1
  }

  /** The `k`-th step is a part, cleaned, and not empty. */
  lemma {:induction false} StepSourceIsTheStep(parts: seq<string>, clean: string -> string, k: nat)
    requires k < |Steps(parts, clean)|
    ensures StepSource(parts, clean, k) < |parts|
    ensures Steps(parts, clean)[k] == clean(parts[StepSource(parts, clean, k)]) != []
    decreases |parts|
  {
    var rest := parts[1..];
    if clean(parts[0]) == [] {
      StepsSkipBlank(parts, clean);
      StepSourceIsTheStep(rest, clean, k);
      var j := StepSource(rest, clean, k);
      assert rest[j] == parts[j + 1];
    } else {
      StepsKeepNonBlank(parts, clean);
      if k > 0 {
        StepSourceIsTheStep(rest, clean, k - 1);
        var j := StepSource(rest, clean, k - 1);
        assert rest[j] == parts[j + 1];
      }
    }
  }

  /** Later steps come from later parts: the steps keep the order of the parts. */
  lemma {:induction false} StepSourcesIncrease(parts: seq<string>, clean: string -> string, k1: nat, k2: nat)
    requires k1 < k2 < |Steps(parts, clean)|
    ensures StepSource(parts, clean, k1) < StepSource(parts, clean, k2)
    decreases |parts|
  {
    var rest := parts[1..];
    if clean(parts[0]) == [] {
      StepsSkipBlank(parts, clean);
      StepSourcesIncrease(rest, clean, k1, k2);
    } else {
      StepsKeepNonBlank(parts, clean);
      if k1 > 0 {
        StepSourcesIncrease(rest, clean, k1 - 1, k2 - 1);
      }
    }
  }

  /** Every part that does not clean to nothing gives a step. */
  lemma {:induction false} NonBlankPartsAreSteps(parts: seq<string>, clean: string -> string, j: nat)
    requires j < |parts| && clean(parts[j]) != []
    ensures clean(parts[j]) in Steps(parts, clean)
    decreases |parts|
  {
    StepsKeepNonBlankOrSkip(parts, clean);
    if j > 0 {
      assert parts[1..][j - 1] == parts[j];
      NonBlankPartsAreSteps(parts[1..], clean, j - 1);
    }
  }

  /** The steps are those of the first part, if any, followed by those of the rest. */
  lemma StepsKeepNonBlankOrSkip(parts: seq<string>, clean: string -> string)
    requires parts != []
    ensures Steps(parts, clean) == (if clean(parts[0]) == [] then [] else [clean(parts[0])]) + Steps(parts[1..], clean)
  {
  }

  /** No steps exactly when every part cleans to nothing. */
  lemma {:induction false} NoStepsOnlyForBlankParts(parts: seq<string>, clean: string -> string)
    ensures Steps(parts, clean) == [] <==> forall j | 0 <= j < |parts| :: clean(parts[j]) == []
    decreases |parts|
  {
    if parts != [] {
      StepsKeepNonBlankOrSkip(parts, clean);
      NoStepsOnlyForBlankParts(parts[1..], clean);
      assert forall j | 1 <= j < |parts| :: parts[1..][j - 1] == parts[j];
    }
  }

  /** The steps of two runs of parts are those of the first run, then those of the second. */
  lemma {:induction false} StepsAppend(a: seq<string>, b: seq<string>, clean: string -> string)
    ensures Steps(a + b, clean) == Steps(a, clean) + Steps(b, clean)
    decreases |a|
  {
    if a == [] {
      assert a + b == b;
    } else {
      var head := if clean(a[0]) == [] then [] else [clean(a[0])];
      assert (a + b)[0] == a[0];
      assert (a + b)[1..] == a[1..] + b;
      StepsKeepNonBlankOrSkip(a + b, clean);
      StepsKeepNonBlankOrSkip(a, clean);
      StepsAppend(a[1..], b, clean);
      assert head + (Steps(a[1..], clean) + Steps(b, clean)) == (head + Steps(a[1..], clean)) + Steps(b, clean);
    }
  }

  /** Every step of stripped parts is non-empty and has no whitespace at either end. */
  lemma StrippedStepsAreTrimmed(parts: seq<string>, k: nat)
    requires k < |Steps(parts, Strip)|
    ensures var step := Steps(parts, Strip)[k];
            step != [] && !IsSpace(step[0]) && !IsSpace(step[|step| - 1])
  {
    StepSourceIsTheStep(parts, Strip, k);
  }

  /** A script without a blank line that is not all whitespace is a single step: the script, stripped. */
  lemma SingleParagraphIsOneStep(script: string)
    requires forall j :: !OccursAt(script, ParagraphBreak, j)
    requires Strip(script) != []
    ensures MeditationSteps(script) == [Strip(script)]
  {
    NoOccurrence(script, ParagraphBreak, 0);
    assert Split(script, ParagraphBreak) == [script];
  }

  /**
   * `generate_meditation`: the service's script, no audio, the requested
   * duration echoed, and the script's steps.
   */
  function Meditation(provider: OpenAIService.Provider, request: MeditationRequest): (r: MeditationResponse)
    ensures var reply := provider(OpenAIService.MeditationMessages(request.goal, request.durationMinutes, request.language.Code()));
            && (reply.Success? ==> r.script == reply.value.content)
            && (reply.Failure? ==> r.script == OpenAIService.MeditationFallback)
    ensures r.audioUrl == None && r.durationMinutes == request.durationMinutes && r.language == request.language.Code()
    ensures r.steps == MeditationSteps(r.script)
  {
    var language := request.language.Code();
    var script := OpenAIService.GenerateMeditationScript(provider, request.goal, request.durationMinutes, language);
    MeditationResponse(script, None, request.durationMinutes, MeditationSteps(script), language)
  }

  // ---------------------------------------------------------------- GET /spiritual/zikr-suggestions

  const DefaultMood: string := "general"
  const DefaultLanguage: string := "en"
  const ZikrNote: string := "Recite with full presence and sincerity"

  const GeneralZikr: seq<string> := ["SubhanAllah (33 times)", "Alhamdulillah (33 times)", "Allahu Akbar (34 times)"]

  /** The dhikr suggested for each mood. */
  const ZikrMap: Assoc.Table<seq<string>> := [
    ("peaceful", ["SubhanAllah (100 times)", "Alhamdulillah (100 times)", "La ilaha illallah (100 times)"]),
    ("anxious", ["La hawla wa la quwwata illa billah", "Hasbunallahu wa ni'mal wakeel (70 times)",
                 "Ayatul Kursi (3 times)"]),
    ("grateful", ["Alhamdulillah (100 times)", "Shukran lillah (continuous)", "Surah Al-Fatihah (7 times)"]),
    ("repentant", ["Astaghfirullah (100 times)", "Rabbi la tazarni fardan (11 times)", "Durood Sharif (100 times)"]),
    ("general", GeneralZikr)
  ]

  datatype ZikrResponse = ZikrResponse(mood: string, zikrSuggestions: seq<string>, language: string, note: string)

  /** The list for a mood, looked up in lower case; an unlisted mood gets the general list. */
  function ZikrFor(mood: string): (z: seq<string>)
    ensures !Assoc.HasKey(ZikrMap, Lower(mood)) ==> z == GeneralZikr
    ensures Assoc.HasKey(ZikrMap, Lower(mood)) ==> exists i | 0 <= i < |ZikrMap| :: ZikrMap[i] == (Lower(mood), z)
  {
    Assoc.Get(ZikrMap, Lower(mood), GeneralZikr)
  }

  /** `get_zikr_suggestions`: the mood as given, its list, the language as given, and the fixed note. */
  function ZikrSuggestions(mood: string, language: string): (r: ZikrResponse)
    ensures r.mood == mood && r.language == language && r.note == ZikrNote
    ensures |r.zikrSuggestions| == 3
    ensures !Assoc.HasKey(ZikrMap, Lower(mood)) ==> r.zikrSuggestions == GeneralZikr
  {
    ZikrResponse(mood, ZikrFor(mood), language, ZikrNote)
  }

  /** The lookup ignores case: a mood and its lower-case form get the same list. */
  lemma ZikrIgnoresCase(mood: string)
    ensures ZikrSuggestions(Lower(mood), DefaultLanguage).zikrSuggestions == ZikrSuggestions(mood, DefaultLanguage).zikrSuggestions
  {
    LowerIdempotent(mood);
  }

  /** Each listed mood gets its own list. */
  lemma ListedMoodGetsItsList(i: nat)
    requires i < |ZikrMap|
    ensures ZikrFor(ZikrMap[i].0) == ZikrMap[i].1
  {
    assert Assoc.UniqueKeys(ZikrMap);
    var key := ZikrMap[i].0;
    assert forall c | 0 <= c < |key| :: !IsUpper(key[c]);
    LowerOfLowercase(key);
    Assoc.LookupEntry(ZikrMap, i);
  }

  /** The default mood gets the general list, which is also the dhikr the advice endpoint recommends. */
  lemma DefaultMoodIsGeneral()
    ensures ZikrSuggestions(DefaultMood, DefaultLanguage).zikrSuggestions == GeneralZikr == OpenAIService.AdviceZikr
  {
    ListedMoodGetsItsList(4);
  }
}
