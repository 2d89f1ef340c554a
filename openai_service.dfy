/**
 * The text-generation calls: how each one assembles the message list it
 * sends, and what it returns when the provider answers and when it raises.
 *
 * The chat-completion API is an oracle `provider(messages)`: the reply's
 * text and token count, or the text of the error it raised. Model name,
 * temperature and token limits are fixed per call and not modelled.
 */
module OpenAIService {
  import opened Wrappers
  import opened Text
  import Prompts
  import opened Schemas

  /** The part of a reply the service reads: the first choice's text and the total token count. */
  datatype Completion = Completion(content: string, totalTokens: int)

  type Provider = seq<Message> -> Result<Completion, string>

  /** A system message: a preamble that sets the role, then the language directive. */
  function SystemMessage(preamble: string, language: string): Message {
    Message("system", preamble + Prompts.LanguageInstruction(language))
  }

  /**
   * Every system message opens with its preamble and closes with the
   * directive for the requested language, so the reply language is the last
   * thing the provider is told.
   */
  lemma SystemMessageShape(preamble: string, language: string)
    ensures var m := SystemMessage(preamble, language);
            && m.role == "system"
            && StartsWith(m.content, preamble)
            && EndsWith(m.content, Prompts.LanguageInstruction(language))
  {
    var content := SystemMessage(preamble, language).content;
    assert content[..|preamble|] == preamble;
    assert content[|preamble|..] == Prompts.LanguageInstruction(language);
  }

  /** System messages whose preambles differ at a position inside both differ. */
  lemma SystemMessagesDiffer(p1: string, p2: string, k: nat, language: string)
    requires k < |p1| && k < |p2| && p1[k] != p2[k]
    ensures SystemMessage(p1, language) != SystemMessage(p2, language)
  {
    assert SystemMessage(p1, language).content[k] == p1[k];
    assert SystemMessage(p2, language).content[k] == p2[k];
  }

  /** The guide's system message: the system prompt and a blank line before the directive. */
  function MurshidSystemMessage(language: string): Message {
    SystemMessage(Prompts.MurshidSystemPrompt + "\n\n", language)
  }

  function UserMessage(content: string): Message {
    Message("user", content)
  }

  // ---------------------------------------------------------------- chat_with_murshid

  const ChatApology: string :=
    "I apologize, dear seeker. I'm having difficulty responding at the moment. Please try again."

  /** What `chat_with_murshid` returns; `error` is present exactly on failure. */
  datatype ChatResult = ChatResult(response: string, tokensUsed: int, success: bool, error: Option<string>)

  /** The last five turns of a history (`history[-5:]`), in their original order. */
  function LastTurns(history: seq<Message>): (r: seq<Message>)
    ensures |r| == if |history| < 5 then |history| else 5
    ensures r == history[|history| - |r|..]
  {
    if |history| <= 5 then history else history[|history| - 5..]
  }

  /**
   * The message list of a chat: the system message, the last five turns of
   * the history in their order, then the seeker's message, so it holds
   * `2 + min(5, |history|)` messages.
   */
  function Conversation(system: Message, history: Option<seq<Message>>, message: string): (sent: seq<Message>)
    ensures var h := history.GetOr([]);
            var k := if |h| < 5 then |h| else 5;
            && |sent| == k + 2
            && sent[0] == system
            && sent[1..k + 1] == h[|h| - k..]
            && sent[k + 1] == Message("user", message)
  {
    var h := history.GetOr([]);
    var turns := if history.Some? && history.value != [] then LastTurns(history.value) else [];
    assert turns == h[|h| - |turns|..];
    var sent := [system] + turns + [UserMessage(message)];
    assert sent[1..|turns| + 1] == turns;
    sent
  }

  /**
   * For a chat request that passes validation, the provider is always sent
   * a last user turn of one to a thousand characters: the request's message.
   */
  lemma ValidChatRequestEndsTheConversation(request: ChatRequest, language: string)
    requires ValidChatRequest(request)
    ensures var sent := Conversation(MurshidSystemMessage(language), request.conversationHistory, request.message);
            && sent[|sent| - 1] == Message("user", request.message)
            && 1 <= |sent[|sent| - 1].content| <= 1000
  {
  }

  /** Turns older than the last five never reach the provider, and a missing history is an empty one. */
  lemma OlderTurnsAreForgotten(system: Message, older: seq<Message>, recent: seq<Message>, message: string)
    requires |recent| == 5
    ensures Conversation(system, Some(older + recent), message) == Conversation(system, Some(recent), message)
    ensures Conversation(system, None, message) == Conversation(system, Some([]), message)
                                                 == [system, Message("user", message)]
  {
    var h := older + recent;
    assert h[|h| - 5..] == recent;
  }

  /** A reply gives its text and token count; an error gives the fixed apology, no tokens, and the error text. */
  function ChatOutcome(reply: Result<Completion, string>): (r: ChatResult)
    ensures r.success <==> reply.Success?
    ensures r.error.Some? <==> reply.Failure?
    ensures reply.Success? ==> r.response == reply.value.content && r.tokensUsed == reply.value.totalTokens
    ensures reply.Failure? ==> r.response == ChatApology && r.tokensUsed == 0 && r.error == Some(reply.error)
  {
    match reply
    case Success(c) => ChatResult(c.content, c.totalTokens, true, None)
    case Failure(e) => ChatResult(ChatApology, 0, false, Some(e))
  }

  /**
   * `chat_with_murshid`: builds the guide's conversation in place (system
   * message, recent history, seeker's message), sends it, and shapes the
   * outcome. `sent` is the list handed to the provider.
   */
  method ChatWithMurshid(provider: Provider, message: string, language: string, history: Option<seq<Message>>)
    returns (result: ChatResult, sent: seq<Message>)
    ensures sent == Conversation(MurshidSystemMessage(language), history, message)
    ensures result == ChatOutcome(provider(sent))
  {
    var messages := [MurshidSystemMessage(language)];
    if history.Some? && history.value != [] {
      messages := messages + LastTurns(history.value);
    }
    messages := messages + [UserMessage(message)];
    sent := messages;
    var reply := provider(messages);
    if reply.Failure? {
      return ChatResult(ChatApology, 0, false, Some(reply.error)), sent;
    }
    result := ChatResult(reply.value.content, reply.value.totalTokens, true, None);
  }

  // ---------------------------------------------------------------- explanations

  const ExplanationFallback: string := "Unable to provide explanation at this moment. Please try again."

  const QuranScholarRole: string := "You are a Sufi Quranic scholar. "
  const HadithScholarRole: string := "You are a Hadith scholar with Sufi understanding. "

  /** The reply's text, or the fallback when the provider raised. */
  function TextOr(reply: Result<Completion, string>, fallback: string): (r: string)
    ensures reply.Success? ==> r == reply.value.content
    ensures reply.Failure? ==> r == fallback
  {
    match reply
    case Success(c) => c.content
    case Failure(_) => fallback
  }

  function QuranMessages(verse: string, translation: string, language: string): seq<Message> {
    [SystemMessage(QuranScholarRole, language), UserMessage(Prompts.QuranExplanationPrompt(verse, translation))]
  }

  /** `explain_quran_verse`: the reply to the Quran scholar's two messages, or the fallback. */
  function ExplainQuranVerse(provider: Provider, verse: string, translation: string, language: string): (r: string)
    ensures provider(QuranMessages(verse, translation, language)).Failure? ==> r == ExplanationFallback
    ensures provider(QuranMessages(verse, translation, language)).Success? ==>
              r == provider(QuranMessages(verse, translation, language)).value.content
  {
    TextOr(provider(QuranMessages(verse, translation, language)), ExplanationFallback)
  }

  function HadithMessages(hadithText: string, language: string): seq<Message> {
    [SystemMessage(HadithScholarRole, language), UserMessage(Prompts.HadithExplanationPrompt(hadithText))]
  }

  /** `explain_hadith`: the reply to the hadith scholar's two messages, or the fallback. */
  function ExplainHadith(provider: Provider, hadithText: string, language: string): (r: string)
    ensures provider(HadithMessages(hadithText, language)).Failure? ==> r == ExplanationFallback
    ensures provider(HadithMessages(hadithText, language)).Success? ==>
              r == provider(HadithMessages(hadithText, language)).value.content
  {
    TextOr(provider(HadithMessages(hadithText, language)), ExplanationFallback)
  }

  /**
   * The two explanations send a system message that names a different
   * scholar and a user message that quotes the text verbatim; when the
   * provider raises for both, they fall back to the same sentence.
   */
  lemma ExplanationRequestsAndFallback(provider: Provider, verse: string, translation: string, hadithText: string,
                                       language: string)
    ensures var q, h := QuranMessages(verse, translation, language), HadithMessages(hadithText, language);
            && q[0] != h[0]
            && OccursAt(q[1].content, "Arabic: " + verse, |Prompts.QuranPromptHead|)
            && OccursAt(h[1].content, "Hadith: " + hadithText, |Prompts.HadithPromptHead|)
            && (provider(q).Failure? && provider(h).Failure? ==>
                  ExplainQuranVerse(provider, verse, translation, language)
                  == ExplainHadith(provider, hadithText, language))
  {
    assert QuranScholarRole[10] == 'S' && HadithScholarRole[10] == 'H';
    SystemMessagesDiffer(QuranScholarRole, HadithScholarRole, 10, language);
  }

  // ---------------------------------------------------------------- generate_spiritual_advice

  const AdviceFallback: string := "May Allah guide you on your spiritual journey."

  const AdviceZikr: seq<string> := ["SubhanAllah (33 times)", "Alhamdulillah (33 times)", "Allahu Akbar (34 times)"]
  const AdviceNextSteps: seq<string> := ["Maintain regular prayers", "Practice daily dhikr", "Read Quran with reflection"]

  datatype Advice = Advice(advice: string, recommendedZikr: seq<string>, nextSteps: seq<string>)

  function AdviceMessages(topic: string, level: Option<string>, language: string): seq<Message> {
    [MurshidSystemMessage(language), UserMessage(Prompts.SpiritualAdvicePrompt(topic, level))]
  }

  /**
   * `generate_spiritual_advice`: the reply's text with three fixed dhikr and
   * three fixed next steps, whatever the reply says; on an error, the fixed
   * blessing and no lists.
   */
  function GenerateSpiritualAdvice(provider: Provider, topic: string, level: Option<string>, language: string): (r: Advice)
    ensures var reply := provider(AdviceMessages(topic, level, language));
            && (reply.Success? ==> r == Advice(reply.value.content, AdviceZikr, AdviceNextSteps))
            && (reply.Failure? ==> r == Advice(AdviceFallback, [], []))
  {
    match provider(AdviceMessages(topic, level, language))
    case Success(c) => Advice(c.content, AdviceZikr, AdviceNextSteps)
    case Failure(_) => Advice(AdviceFallback, [], [])
  }

  /** The lists are never empty on success and always empty on failure; each has three entries when present. */
  lemma AdviceListsFixed(provider: Provider, topic: string, level: Option<string>, language: string)
    ensures var r := GenerateSpiritualAdvice(provider, topic, level, language);
            && (|r.recommendedZikr| == 3 <==> provider(AdviceMessages(topic, level, language)).Success?)
            && (|r.nextSteps| == 3 <==> provider(AdviceMessages(topic, level, language)).Success?)
            && (r.recommendedZikr == [] <==> r.nextSteps == [])
  {
  }

  /** Advice is asked for under the same system message as the chat. */
  lemma AdviceUsesChatSystemMessage(topic: string, level: Option<string>, language: string)
    ensures AdviceMessages(topic, level, language)[0] == MurshidSystemMessage(language)
    ensures AdviceMessages(topic, level, language)[1].role == "user"
  {
  }

  // ---------------------------------------------------------------- generate_meditation_script

  const MeditationFallback: string := "Begin by taking deep breaths and remembering Allah..."
  const MeditationGuideRole: string := "You are a Sufi meditation guide. "

  function MeditationMessages(goal: string, duration: int, language: string): seq<Message> {
    [SystemMessage(MeditationGuideRole, language), UserMessage(Prompts.MeditationScriptPrompt(goal, duration))]
  }

  /** `generate_meditation_script`: the reply's text, or a fixed opening line. */
  function GenerateMeditationScript(provider: Provider, goal: string, duration: int, language: string): (r: string)
    ensures provider(MeditationMessages(goal, duration, language)).Failure? ==> r == MeditationFallback
    ensures provider(MeditationMessages(goal, duration, language)).Success? ==>
              r == provider(MeditationMessages(goal, duration, language)).value.content
  {
    TextOr(provider(MeditationMessages(goal, duration, language)), MeditationFallback)
  }

  /** Meditation requests for different durations send different prompts. */
  lemma MeditationRequestNamesDuration(goal: string, d1: int, d2: int, language: string)
    requires d1 != d2
    ensures MeditationMessages(goal, d1, language) != MeditationMessages(goal, d2, language)
  {
    if MeditationMessages(goal, d1, language) == MeditationMessages(goal, d2, language) {
      assert MeditationMessages(goal, d1, language)[1] == MeditationMessages(goal, d2, language)[1];
      Prompts.MeditationPromptDeterminesDuration(goal, d1, d2);
    }
  }

  // ---------------------------------------------------------------- generate_daily_naseehah

  const NaseehahFallback: string := "Remember Allah in all that you do."
  const NaseehahGuideRole: string := "You are Al Murshid, a Sufi spiritual guide. "
  const NaseehahReference: string := "Quran/Hadith"

  datatype Naseehah = Naseehah(naseehah: string, reference: Option<string>)

  function NaseehahMessages(language: string): seq<Message> {
    [SystemMessage(NaseehahGuideRole, language), UserMessage(Prompts.DailyNaseehahPrompt)]
  }

  /** `generate_daily_naseehah`: the reply's text with the fixed reference, or a fixed reminder with none. */
  function GenerateDailyNaseehah(provider: Provider, language: string): (r: Naseehah)
    ensures r.reference.Some? <==> provider(NaseehahMessages(language)).Success?
    ensures r.reference.Some? ==> r == Naseehah(provider(NaseehahMessages(language)).value.content, Some(NaseehahReference))
    ensures r.reference.None? ==> r.naseehah == NaseehahFallback
  {
    match provider(NaseehahMessages(language))
    case Success(c) => Naseehah(c.content, Some(NaseehahReference))
    case Failure(_) => Naseehah(NaseehahFallback, None)
  }

  /** Only the system message depends on the language; the request itself is the same every day. */
  lemma NaseehahPromptIsConstant(l1: string, l2: string)
    ensures NaseehahMessages(l1)[1] == NaseehahMessages(l2)[1]
    ensures |NaseehahMessages(l1)| == |NaseehahMessages(l2)| == 2
    ensures Prompts.LanguageInstruction(l1) != Prompts.LanguageInstruction(l2) ==> NaseehahMessages(l1) != NaseehahMessages(l2)
  {
    if Prompts.LanguageInstruction(l1) != Prompts.LanguageInstruction(l2) {
      var c1, c2 := NaseehahMessages(l1)[0].content, NaseehahMessages(l2)[0].content;
      if c1 == c2 {
        var i1, i2 := Prompts.LanguageInstruction(l1), Prompts.LanguageInstruction(l2);
        CancelInterpolated(NaseehahGuideRole, i1, i2, "");
      }
    }
  }
}
