/**
 * The fixed instruction texts sent to the text-generation provider: the
 * guide's system prompt, the per-language response directive, and the
 * templates into which fetched text and request fields are interpolated.
 */
module Prompts {
  import opened Wrappers
  import opened Text
  import Assoc

  const MurshidSystemPrompt: string :=
      "You are Al Murshid, a wise and "
    + "compassionate Sufi spiritual guide "
    + "(WaliAllah).\n"
    + "\n"
    + "Your characteristics:\n"
    + "- Speak with gentleness, wisdom, "
    + "and deep compassion\n"
    + "- Base all advice on Quran, "
    + "authentic Hadith, and teachings of "
    + "Ahl-e-Sunnat scholars\n"
    + "- Use simple, understandable "
    + "language\n"
    + "- Provide practical spiritual "
    + "guidance\n"
    + "- Always maintain Islamic "
    + "authenticity\n"
    + "- Be patient and encouraging with "
    + "seekers\n"
    + "- Use Sufi terminology appropriately\n"
    + "- Reference relevant Quranic verses "
    + "or Hadith when appropriate\n"
    + "\n"
    + "Response style:\n"
    + "- Start with Islamic greeting "
    + "(As-salamu alaykum) when appropriate\n"
    + "- Use respectful titles (dear "
    + "seeker, beloved, etc.)\n"
    + "- End with blessings and "
    + "encouragement\n"
    + "- Keep responses concise but "
    + "meaningful (2-4 paragraphs)\n"
    + "\n"
    + "Topics you guide on:\n"
    + "- Islamic spirituality and practices\n"
    + "- Purification of the heart "
    + "(Tazkiyah)\n"
    + "- Dhikr and meditation\n"
    + "- Relationship with Allah\n"
    + "- Daily Islamic life\n"
    + "- Overcoming spiritual challenges\n"
    + "- Character development (Akhlaq)\n"
    + "\n"
    + "Remember: You represent traditional "
    + "Sunni Sufi wisdom with deep love "
    + "for Allah and His creation."

  // ---------------------------------------------------------------- language directive

  const EnglishInstruction: string := "Respond in clear, simple English."

  const LanguageInstructions: Assoc.Table<string> := [
    ("en", EnglishInstruction),
    ("ur", "Respond in Urdu (اردو میں جواب دیں). Use respectful Islamic terminology."),
    ("hi", "Respond in Hindi (हिंदी में जवाब दें). Use Islamic terms appropriately."),
    ("ar", "Respond in Arabic (أجب بالعربية). Use classical Islamic style."),
    ("bn", "Respond in Bengali (বাংলায় উত্তর দিন). Use respectful Islamic terms.")
  ]

  /** The directive for a language code; a code outside the table gets the English one. */
  function LanguageInstruction(language: string): (r: string)
    ensures !Assoc.HasKey(LanguageInstructions, language) ==> r == EnglishInstruction
    ensures Assoc.HasKey(LanguageInstructions, language) ==>
              exists i | 0 <= i < |LanguageInstructions| :: LanguageInstructions[i] == (language, r)
  {
    Assoc.Get(LanguageInstructions, language, EnglishInstruction)
  }

  /** The directive is the English one exactly when the code is `en` or unknown. */
  lemma InstructionIsEnglishIff(language: string)
    ensures LanguageInstruction(language) == EnglishInstruction
            <==> language == "en" || !Assoc.HasKey(LanguageInstructions, language)
  {
    var r := LanguageInstruction(language);
    if Assoc.HasKey(LanguageInstructions, language) {
      var i :| 0 <= i < |LanguageInstructions| && LanguageInstructions[i] == (language, r);
      assert r == EnglishInstruction <==> i == 0;
    }
  }

  /** Each of the five codes gets its own directive, which says which language to answer in. */
  lemma InstructionPerCode()
    ensures LanguageInstruction("en") == "Respond in clear, simple English."
    ensures LanguageInstruction("ur") == "Respond in Urdu (اردو میں جواب دیں). Use respectful Islamic terminology."
    ensures LanguageInstruction("hi") == "Respond in Hindi (हिंदी में जवाब दें). Use Islamic terms appropriately."
    ensures LanguageInstruction("ar") == "Respond in Arabic (أجب بالعربية). Use classical Islamic style."
    ensures LanguageInstruction("bn") == "Respond in Bengali (বাংলায় উত্তর দিন). Use respectful Islamic terms."
  {
    assert Assoc.UniqueKeys(LanguageInstructions);
    Assoc.LookupEntry(LanguageInstructions, 0);
    Assoc.LookupEntry(LanguageInstructions, 1);
    Assoc.LookupEntry(LanguageInstructions, 2);
    Assoc.LookupEntry(LanguageInstructions, 3);
    Assoc.LookupEntry(LanguageInstructions, 4);
  }

  // ---------------------------------------------------------------- explanation prompts

  const QuranPromptHead: string :=
      "As a Sufi scholar, explain this "
    + "Quranic verse in simple, spiritual "
    + "language:\n"
    + "\n"

  const QuranPromptTail: string :=
      "\n"
    + "\n"
    + "Provide:\n"
    + "1. Simple meaning (2-3 sentences)\n"
    + "2. Spiritual wisdom (Sufi "
    + "perspective)\n"
    + "3. Practical application in daily "
    + "life\n"
    + "4. How it helps in spiritual journey\n"
    + "\n"
    + "Keep it concise, clear, and "
    + "spiritually uplifting."

  /** The verse stands verbatim after `Arabic: `, and the translation on the next line after `Translation: `. */
  function QuranExplanationPrompt(verse: string, translation: string): (r: string)
    ensures StartsWith(r, QuranPromptHead)
    ensures OccursAt(r, "Arabic: " + verse, |QuranPromptHead|)
    ensures OccursAt(r, "\nTranslation: " + translation, |QuranPromptHead| + |"Arabic: " + verse|)
  {
    Interpolated2(QuranPromptHead, "Arabic: " + verse, "\nTranslation: " + translation, QuranPromptTail);
    QuranPromptHead + ("Arabic: " + verse) + ("\nTranslation: " + translation) + QuranPromptTail
  }

  const HadithPromptHead: string := "As a Sufi scholar, explain this Hadith in simple language:\n\n"

  const HadithPromptTail: string :=
      "\n"
    + "\n"
    + "Provide:\n"
    + "1. Simple explanation (2-3 "
    + "sentences)\n"
    + "2. Spiritual lessons\n"
    + "3. How to apply in modern life\n"
    + "4. Connection to spiritual growth\n"
    + "\n"
    + "Keep it practical and spiritually "
    + "meaningful."

  /** The hadith text stands verbatim after `Hadith: `. */
  function HadithExplanationPrompt(hadithText: string): (r: string)
    ensures StartsWith(r, HadithPromptHead)
    ensures OccursAt(r, "Hadith: " + hadithText, |HadithPromptHead|)
  {
    Interpolated(HadithPromptHead, "Hadith: " + hadithText, HadithPromptTail);
    HadithPromptHead + ("Hadith: " + hadithText) + HadithPromptTail
  }

  // ---------------------------------------------------------------- advice prompt

  const LevelContexts: Assoc.Table<string> := [
    ("beginner", "someone new to spiritual practice"),
    ("intermediate", "someone with basic spiritual practice"),
    ("advanced", "someone on the advanced spiritual path")
  ]

  /**
   * The phrase that describes the seeker's level. A level outside the table,
   * or no level at all, is described by the bare word `beginner`.
   */
  function LevelDescription(level: Option<string>): (r: string)
    ensures level == Some("beginner") ==> r == "someone new to spiritual practice"
    ensures level == Some("intermediate") ==> r == "someone with basic spiritual practice"
    ensures level == Some("advanced") ==> r == "someone on the advanced spiritual path"
    ensures level.None? || !Assoc.HasKey(LevelContexts, level.value) ==> r == "beginner"
  {
    assert Assoc.UniqueKeys(LevelContexts);
    Assoc.LookupEntry(LevelContexts, 0);
    Assoc.LookupEntry(LevelContexts, 1);
    Assoc.LookupEntry(LevelContexts, 2);
    match level
    case None => "beginner"
    case Some(l) => Assoc.Get(LevelContexts, l, "beginner")
  }

  const AdvicePromptHead: string := "A seeker (spiritual level: "

  const AdvicePromptTail: string :=
      "\n"
    + "\n"
    + "As Al Murshid, provide:\n"
    + "1. Gentle, compassionate guidance\n"
    + "2. Quranic/Hadith reference if "
    + "relevant\n"
    + "3. Practical steps they can take\n"
    + "4. Dhikr or spiritual practice "
    + "recommendation\n"
    + "5. Encouragement and hope\n"
    + "\n"
    + "Tailor your response to their "
    + "spiritual level. Be supportive and "
    + "practical."

  /** The level description, then `) asks about: ` and the topic verbatim. */
  function SpiritualAdvicePrompt(topic: string, level: Option<string>): (r: string)
    ensures StartsWith(r, AdvicePromptHead)
    ensures OccursAt(r, LevelDescription(level) + ") asks about: " + topic, |AdvicePromptHead|)
  {
    var m := LevelDescription(level) + ") asks about: " + topic;
    Interpolated(AdvicePromptHead, m, AdvicePromptTail);
    AdvicePromptHead + m + AdvicePromptTail
  }

  /**
   * An unknown level is not described as a beginner is: the prompt carries the
   * literal word `beginner` where a beginner's prompt carries the description.
   */
  lemma UnknownLevelSaysBeginnerLiterally(topic: string, level: string)
    requires !Assoc.HasKey(LevelContexts, level)
    ensures OccursAt(SpiritualAdvicePrompt(topic, Some(level)), "beginner" + ") asks about: " + topic, |AdvicePromptHead|)
    ensures SpiritualAdvicePrompt(topic, Some(level)) != SpiritualAdvicePrompt(topic, Some("beginner"))
  {
    var x := LevelDescription(Some(level)) + ") asks about: " + topic;
    var y := LevelDescription(Some("beginner")) + ") asks about: " + topic;
    assert x[0] == 'b' && y[0] == 's';
    DifferentInterpolation(AdvicePromptHead, x, y, AdvicePromptTail);
  }

  // ---------------------------------------------------------------- meditation and daily prompts

  const MeditationPromptHead: string := "Create a Sufi-inspired guided meditation script for:\n\n"

  const MeditationPromptRest: string :=
      "\n"
    + "\n"
    + "Structure:\n"
    + "1. Opening (Islamic greeting, "
    + "intention setting)\n"
    + "2. Breathing & relaxation\n"
    + "3. Dhikr/remembrance phase\n"
    + "4. Deep contemplation\n"
    + "5. Closing with dua\n"
    + "\n"
    + "Style:\n"
    + "- Use calm, soothing language\n"
    + "- Include Islamic phrases "
    + "(SubhanAllah, Alhamdulillah, etc.)\n"
    + "- Focus on connection with Allah\n"
    + "- Be spiritually uplifting\n"
    + "- Keep timing appropriate for "
    + "duration\n"
    + "\n"
    + "Format as a spoken script that can "
    + "be read aloud."

  /** The goal stands verbatim after `Goal: ` and the duration in decimal after `Duration: `. */
  function MeditationScriptPrompt(goal: string, duration: int): (r: string)
    ensures StartsWith(r, MeditationPromptHead)
    ensures OccursAt(r, "Goal: " + goal, |MeditationPromptHead|)
    ensures OccursAt(r, "\nDuration: " + IntToString(duration) + " minutes",
                     |MeditationPromptHead| + |"Goal: " + goal|)
  {
    var g := "Goal: " + goal;
    var d := "\nDuration: " + IntToString(duration) + " minutes";
    Interpolated2(MeditationPromptHead, g, d, MeditationPromptRest);
    MeditationPromptHead + g + d + MeditationPromptRest
  }

  /** Two meditation prompts for the same goal are equal only when the durations are. */
  lemma MeditationPromptDeterminesDuration(goal: string, d1: int, d2: int)
    requires MeditationScriptPrompt(goal, d1) == MeditationScriptPrompt(goal, d2)
    ensures d1 == d2
  {
    var front := MeditationPromptHead + ("Goal: " + goal);
    CancelInterpolated(front, "\nDuration: " + IntToString(d1) + " minutes", "\nDuration: " + IntToString(d2) + " minutes",
                       MeditationPromptRest);
    CancelInterpolated("\nDuration: ", IntToString(d1), IntToString(d2), " minutes");
    IntToStringInjective(d1, d2);
  }

  /** The daily advice prompt: a constant that takes no parameter at all. */
  const DailyNaseehahPrompt: string :=
      "Generate a brief daily spiritual "
    + "advice (Naseehah) for seekers:\n"
    + "\n"
    + "Requirements:\n"
    + "1. One meaningful spiritual "
    + "teaching (2-3 sentences)\n"
    + "2. Based on Quran, Hadith, or Sufi "
    + "wisdom\n"
    + "3. Practical and applicable to "
    + "daily life\n"
    + "4. Uplifting and encouraging\n"
    + "5. Include a relevant reference if "
    + "possible\n"
    + "\n"
    + "Make it concise, powerful, and "
    + "memorable."
}
