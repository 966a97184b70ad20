/** The OpenAI-backed translator of app/services/ai_translation_service.py.
    The chat-completion call is a parameter (`complete`, from prompt to the
    outcome of the call) and JSON decoding is a `Decoder`; what is modelled is
    everything the service does around them: whether it has a client, the
    prompt, the extraction of the JSON object from the reply, the fallback
    record and the wrapping of errors. */
module AITranslation {
  import opened Common
  import opened Json

  /** The service's two attributes, fixed when it is constructed: whether an
      OpenAI client exists, and the model name it asks for. */
  datatype AITranslationService = AITranslationService(hasClient: bool, model: string)
  {
    /** `is_available`: the service has a client. */
    predicate IsAvailable()
    {
      hasClient
    }
  }

  /** `AITranslationService.__init__`: a client is built exactly when the
      configured API key is present and not the empty string. */
  function NewService(openaiApiKey: Option<string>, aiModel: string): (s: AITranslationService)
    ensures s.IsAvailable() <==> openaiApiKey.Some? && |openaiApiKey.value| > 0
    ensures s.model == aiModel
  {
    AITranslationService(openaiApiKey.Some? && openaiApiKey.value != "", aiModel)
  }

  // ---------------------------------------------------------------------
  // The prompt.

  const PromptHead: string := "Translate \""
  const PromptMiddle: string := "\" from English to Yoruba.\nRespond in this JSON format:\n{\n  \"word\": \""
  const PromptTail: string :=
    "\",\n  \"translation\": \"yoruba_translation_with_tones\",\n  \"part_of_speech\": \"noun/verb/adjective\",\n  \"example\": \"English example → Yoruba example\"\n}"

  /** `_create_translation_prompt`: the instruction, quoting the text twice,
      once in the request and once as the expected `word` field. */
  function CreateTranslationPrompt(englishText: string): (p: string)
    ensures |p| == |PromptHead| + |PromptMiddle| + |PromptTail| + 2 * |englishText|
    ensures p[..|PromptHead|] == PromptHead
    ensures p[|PromptHead|..|PromptHead| + |englishText|] == englishText
  {
    PromptHead + englishText + PromptMiddle + englishText + PromptTail
  }

  /** Different texts are never sent with the same prompt. */
  lemma PromptInjective(a: string, b: string)
    requires CreateTranslationPrompt(a) == CreateTranslationPrompt(b)
    ensures a == b
  {
    var p := CreateTranslationPrompt(a);
    assert |a| == |b|;
    calc {
      a;
      p[|PromptHead|..|PromptHead| + |a|];
      b;
    }
  }

  // ---------------------------------------------------------------------
  // Reading the reply.

  /** Python's `s[i:j]` for indices already inside the string: empty when
      `j` comes before `i`. */
  function Slice(s: string, i: nat, j: nat): (r: string)
    requires i <= |s| && j <= |s|
    ensures i <= j ==> r == s[i..j]
    ensures j < i ==> r == []
  {
    if i <= j then s[i..j] else []
  }

  /** `r` occurs in `s` at position `i`. */
  predicate SpanAt(s: string, r: string, i: int)
  {
    0 <= i && i + |r| <= |s| && s[i..i + |r|] == r
  }

  /** No '{' of `s` comes before any '}' of it. */
  predicate BracesMisordered(s: string)
  {
    forall i, j :: 0 <= i < j < |s| && s[i] == '{' ==> s[j] != '}'
  }

  /** The text handed to the decoder (`ai_response[json_start:json_end]`):
      everything from the first '{' through the last '}', or nothing when the
      last '}' comes before the first '{'. */
  function JsonCandidate(s: string): (r: string)
    requires '{' in s && '}' in s
    ensures r != [] ==> r[0] == '{' && r[|r| - 1] == '}'
    ensures r != [] ==> exists i :: SpanAt(s, r, i) && '{' !in s[..i] && '}' !in s[i + |r|..]
    ensures r == [] <==> BracesMisordered(s)
  {
    var first, last := Find(s, '{'), RFind(s, '}');
    if first <= last then
      assert first < last;
      assert SpanAt(s, s[first..last + 1], first);
      s[first..last + 1]
    else
      assert BracesMisordered(s) by {
        forall i, j | 0 <= i < j < |s| && s[i] == '{'
          ensures s[j] != '}'
        {
          if j > last {
            assert s[last + 1..][j - last - 1] == s[j];
          }
        }
      }
      Slice(s, first, last + 1)
  }

  /** `_create_fallback_response`: the record returned when the reply holds
      no decodable JSON object. */
  function CreateFallbackResponse(svc: AITranslationService, originalText: string): (r: Object)
    ensures r.Keys == {"word", "translation", "part_of_speech", "example", "source", "model"}
    ensures r["word"] == r["translation"] == JStr(originalText)
    ensures r["part_of_speech"] == JStr("noun") && r["example"] == JStr("I need " + originalText)
    ensures r["source"] == JStr("ai_fallback") && r["model"] == JStr(svc.model)
  {
    map[
      "word" := JStr(originalText),
      "translation" := JStr(originalText),
      "part_of_speech" := JStr("noun"),
      "example" := JStr("I need " + originalText),
      "source" := JStr("ai_fallback"),
      "model" := JStr(svc.model)]
  }

  /** `_parse_ai_response`: decode the candidate object of the reply and tag
      it, or fall back. It never fails. */
  function ParseAIResponse(svc: AITranslationService, aiResponse: string, originalText: string, loads: Decoder): (r: Object)
    ensures '{' !in aiResponse || '}' !in aiResponse ==> r == CreateFallbackResponse(svc, originalText)
    ensures '{' in aiResponse && '}' in aiResponse && loads(JsonCandidate(aiResponse)).None? ==>
      r == CreateFallbackResponse(svc, originalText)
    ensures '{' in aiResponse && '}' in aiResponse && loads(JsonCandidate(aiResponse)).Some? ==>
      var data := loads(JsonCandidate(aiResponse)).value;
      && r.Keys == data.Keys + {"source", "model"}
      && r["source"] == JStr("ai") && r["model"] == JStr(svc.model)
      && forall k :: k in data && k != "source" && k != "model" ==> r[k] == data[k]
  {
    var start, end := Find(aiResponse, '{'), RFind(aiResponse, '}') + 1;
    if start != -1 && end != 0 then
      match loads(Slice(aiResponse, start, end))
      case Some(data) => data["source" := JStr("ai")]["model" := JStr(svc.model)]
      case None => CreateFallbackResponse(svc, originalText)
    else
      CreateFallbackResponse(svc, originalText)
  }

  /** When the last '}' precedes the first '{' the slice is empty, which no
      decoder accepts, so the fallback is returned. */
  lemma MisorderedBracesFallBack(svc: AITranslationService, aiResponse: string, originalText: string, loads: Decoder)
    requires '{' in aiResponse && '}' in aiResponse && BracesMisordered(aiResponse)
    ensures ParseAIResponse(svc, aiResponse, originalText, loads) == CreateFallbackResponse(svc, originalText)
  {
    assert JsonCandidate(aiResponse) == [];
  }

  /** Whatever the reply, the result names the configured model and is
      tagged either as decoded or as the fallback. */
  lemma ParseTagsModel(svc: AITranslationService, aiResponse: string, originalText: string, loads: Decoder)
    ensures var r := ParseAIResponse(svc, aiResponse, originalText, loads);
      && "model" in r && r["model"] == JStr(svc.model)
      && "source" in r && r["source"] in {JStr("ai"), JStr("ai_fallback")}
      && (r["source"] == JStr("ai_fallback") ==> r == CreateFallbackResponse(svc, originalText))
  {
    var r := ParseAIResponse(svc, aiResponse, originalText, loads);
    if '{' in aiResponse && '}' in aiResponse && loads(JsonCandidate(aiResponse)).Some? {
      assert r["source"] == JStr("ai");
    }
  }

  // ---------------------------------------------------------------------
  // The call.

  /** What the chat-completion call produced: the message content, a `None`
      content, or an exception with its message. */
  datatype Completion = Content(text: string) | NoContent | CallFailed(message: string)

  /** The two exceptions `translate_to_yoruba` raises, with their messages. */
  datatype AIError = NotInitialized(message: string) | TranslationFailed(message: string)

  const NotInitializedMessage: string := "OpenAI client not initialized. Check API key."
  const FailurePrefix: string := "AI translation failed: "
  /** What `str()` of the AttributeError raised by `None.find` reads. */
  const NoContentMessage: string := "'NoneType' object has no attribute 'find'"

  /** `translate_to_yoruba`: without a client it raises ValueError at once;
      otherwise it sends the prompt and parses the reply, wrapping every
      exception raised on the way in one whose message starts with
      "AI translation failed: ". */
  function TranslateToYoruba(svc: AITranslationService, englishText: string,
                             complete: string -> Completion, loads: Decoder): (r: Result<Object, AIError>)
    ensures !svc.IsAvailable() ==> r == Err(NotInitialized(NotInitializedMessage))
    ensures svc.IsAvailable() && r.Err? ==>
      r.error.TranslationFailed? && |r.error.message| >= |FailurePrefix| &&
      r.error.message[..|FailurePrefix|] == FailurePrefix
    ensures r.Ok? <==> svc.IsAvailable() && complete(CreateTranslationPrompt(englishText)).Content?
    ensures r.Ok? ==>
      r.value == ParseAIResponse(svc, complete(CreateTranslationPrompt(englishText)).text, englishText, loads)
  {
    if !svc.hasClient then Err(NotInitialized(NotInitializedMessage))
    else
      match complete(CreateTranslationPrompt(englishText))
      case Content(text) => Ok(ParseAIResponse(svc, text, englishText, loads))
      case NoContent => Err(TranslationFailed(FailurePrefix + NoContentMessage))
      case CallFailed(message) => Err(TranslationFailed(FailurePrefix + message))
  }
}
