/** The stand-in translator of app/services/mock_ai_service.py: a fixed table
    of eight sample words, looked up by the lower-cased input, and a made-up
    record for every other word. The three `random.choice` draws are the
    parameter `picks`; any numbers select some element, and every element can
    be selected. */
module MockAIService {
  import opened Common
  import opened Json

  datatype Sample = Sample(translation: string, partOfSpeech: string, example: string)

  /** The sample table, keyed by lower-case English word. */
  const SampleTranslations: map<string, Sample> := map[
    "happiness" := Sample("ayọ̀", "noun",
      "Happiness is important → Ayọ̀ ṣe pàtàkì"),
    "wisdom" := Sample("ọgbọ́n", "noun",
      "Wisdom comes with age → Ọgbọ́n ńbọ̀ pẹ̀lú ọjọ́"),
    "courage" := Sample("ìyà", "noun",
      "He showed courage → Ó fi ìyà hàn"),
    "friendship" := Sample("ìfẹ́ràn", "noun",
      "Friendship is valuable → Ìfẹ́ràn ṣe pàtàkì"),
    "knowledge" := Sample("ìmọ̀", "noun",
      "Knowledge is power → Ìmọ̀ jẹ́ agbára"),
    "love" := Sample("ifẹ́", "noun",
      "I love you → Mo nífẹ́ rẹ"),
    "peace" := Sample("àlàáfíà", "noun",
      "Peace be with you → Àlàáfíà kí ó bà wá"),
    "hope" := Sample("ìrètí", "noun",
      "Never lose hope → Má ṣe padanu ìrètí")
  ]

  const MockSource: string := "mock_ai"
  const MockModel: string := "mock-gpt-4o"

  /** The four words a made-up translation starts with. */
  const MockPrefixes: seq<string> := ["ọmọ ", "bàbá ", "màmá ", "ọ̀rẹ́ "]

  const MockParts: seq<string> := ["noun", "verb", "adjective", "adverb"]

  /** The three example sentences, each naming the word as given twice. */
  function MockExamples(englishText: string): (r: seq<string>)
    ensures |r| == 3
  {
    [ "I need " + englishText + " → Mo nílò " + englishText,
      "This is " + englishText + " → Èyí jẹ́ " + englishText,
      "Give me " + englishText + " → Fún mi ní " + englishText ]
  }

  /** The outcome of the three `random.choice` calls, as raw draws. */
  datatype Picks = Picks(translation: nat, partOfSpeech: nat, example: nat)

  /** `_generate_mock_translation`: a record for a word outside the table. */
  function GenerateMockTranslation(englishText: string, picks: Picks): (r: Object)
    ensures r.Keys == {"word", "translation", "part_of_speech", "example", "source", "model"}
    ensures r["word"] == JStr(englishText)
    ensures exists i :: 0 <= i < |MockPrefixes| && r["translation"] == JStr(MockPrefixes[i] + Lower(englishText))
    ensures exists i :: 0 <= i < |MockParts| && r["part_of_speech"] == JStr(MockParts[i])
    ensures exists i :: 0 <= i < 3 && r["example"] == JStr(MockExamples(englishText)[i])
    ensures r["source"] == JStr(MockSource) && r["model"] == JStr(MockModel)
  {
    var lowered := Lower(englishText);
    map[
      "word" := JStr(englishText),
      "translation" := JStr(MockPrefixes[picks.translation % |MockPrefixes|] + lowered),
      "part_of_speech" := JStr(MockParts[picks.partOfSpeech % |MockParts|]),
      "example" := JStr(MockExamples(englishText)[picks.example % 3]),
      "source" := JStr(MockSource),
      "model" := JStr(MockModel)]
  }

  /** `translate_to_yoruba` of the mock: a table hit copies the entry under
      the word as given; a miss makes a record up. */
  function TranslateToYoruba(englishText: string, picks: Picks): (r: Object)
    ensures Lower(englishText) in SampleTranslations ==>
      var sample := SampleTranslations[Lower(englishText)];
      && r.Keys == {"word", "translation", "part_of_speech", "example", "source", "model"}
      && r["word"] == JStr(englishText)
      && r["translation"] == JStr(sample.translation)
      && r["part_of_speech"] == JStr(sample.partOfSpeech)
      && r["example"] == JStr(sample.example)
    ensures Lower(englishText) !in SampleTranslations ==> r == GenerateMockTranslation(englishText, picks)
    ensures r["source"] == JStr(MockSource) && r["model"] == JStr(MockModel)
  {
    var word := Lower(englishText);
    if word in SampleTranslations then
      var sample := SampleTranslations[word];
      map[
        "word" := JStr(englishText),
        "translation" := JStr(sample.translation),
        "part_of_speech" := JStr(sample.partOfSpeech),
        "example" := JStr(sample.example),
        "source" := JStr(MockSource),
        "model" := JStr(MockModel)]
    else
      GenerateMockTranslation(englishText, picks)
  }

  /** `is_available` of the mock. */
  function IsAvailable(): (available: bool)
    ensures available
  {
    true
  }

  /** Two spellings that differ only in case get the same answer, apart from
      the `word` field, which echoes each one's own spelling. */
  lemma CaseInsensitiveLookup(a: string, b: string, picks: Picks)
    requires Lower(a) == Lower(b)
    ensures var ra, rb := TranslateToYoruba(a, picks), TranslateToYoruba(b, picks);
      && ra["translation"] == rb["translation"]
      && ra["part_of_speech"] == rb["part_of_speech"]
      && ra["word"] == JStr(a) && rb["word"] == JStr(b)
  {
  }

  /** Every made-up combination is possible: each prefix, part of speech and
      example can be drawn. */
  lemma EveryChoiceReachable(englishText: string, i: nat, j: nat, k: nat)
    requires i < |MockPrefixes| && j < |MockParts| && k < 3
    ensures exists picks: Picks ::
      var r := GenerateMockTranslation(englishText, picks);
      && r["translation"] == JStr(MockPrefixes[i] + Lower(englishText))
      && r["part_of_speech"] == JStr(MockParts[j])
      && r["example"] == JStr(MockExamples(englishText)[k])
  {
    var picks := Picks(i, j, k);
    assert GenerateMockTranslation(englishText, picks)["translation"] == JStr(MockPrefixes[i] + Lower(englishText));
  }

  /** The table holds exactly eight words. */
  lemma SampleKeys()
    ensures SampleTranslations.Keys == {"happiness", "wisdom", "courage", "friendship", "knowledge", "love", "peace", "hope"}
  {
  }

  lemma SampleNouns()
    ensures forall w :: w in SampleTranslations ==> SampleTranslations[w].partOfSpeech == "noun"
  {
  }

  lemma SampleLowercase()
    ensures forall w :: w in SampleTranslations ==> Lower(w) == w
  {
    SampleKeys();
    forall w | w in SampleTranslations
      ensures Lower(w) == w
    {
      LowerOfLowercase(w);
    }
  }
}
