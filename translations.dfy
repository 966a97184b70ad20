/** The translation routes of app/routes/translations.py over the in-memory
    store: the resolver behind `GET /translate` and `POST /translate`, the
    creation and listing of translations, and the AI status report. */
module TranslationRoutes {
  import opened Common
  import opened Json
  import opened Sql
  import opened Http
  import opened Database
  import opened AITranslation

  /** A `TranslationResponse` built from a row, with the `source` tag the
      handler passes along ("database" or "ai"). */
  datatype TranslationOut = TranslationOut(translation: Translation, source: string)

  /** The body of `POST /translate`. */
  datatype TranslationRequest = TranslationRequest(word: string, lang: string, useAi: bool)

  /** The body of `GET /ai/status`. */
  datatype AIStatus = AIStatus(available: bool, model: Option<string>)

  const UnsupportedLanguageDetail: string := "Only Yoruba (yo) translation is supported"
  const UnavailableDetail: string := "AI translation service is not available. Check OpenAI API key."

  function NotFoundDetail(word: string): string
  {
    "Translation for '" + word + "' not found. Try setting use_ai=true for AI translation."
  }

  /** `Translation.english_word.ilike(f"%{word}%")`. */
  predicate MatchesWord(t: Translation, word: string)
  {
    ILike(t.englishWord, "%" + word + "%")
  }

  /** `.first()` of the filtered query: the earliest matching row. */
  function FirstMatch(rows: seq<Translation>, word: string): (r: Option<nat>)
    ensures r.Some? ==> r.value < |rows| && MatchesWord(rows[r.value], word)
    ensures r.Some? ==> forall j :: 0 <= j < r.value ==> !MatchesWord(rows[j], word)
    ensures r.None? ==> forall j :: 0 <= j < |rows| ==> !MatchesWord(rows[j], word)
  {
    if rows == [] then None
    else if MatchesWord(rows[0], word) then Some(0)
    else match FirstMatch(rows[1..], word)
      case None => None
      case Some(k) => Some(k + 1)
  }

  /** Turning the AI result into a stored row:
      `Translation(english_word=ai_result['word'], ...)`, then the commit.
      A missing key raises KeyError (whose text is the quoted key) in
      argument order; then the driver rejects a value it cannot bind (an
      array or object, or an integer too large for 64 bits); then the commit
      fails on a null English or Yoruba word (JSON `null` or `NaN`), both
      columns being NOT NULL. Any other number or boolean is bound as is and
      kept by the string column as its text, which is what the row then
      reads back. */
  function AIRecordFields(aiResult: Object): (r: Result<NewTranslation, string>)
    ensures r.Ok? <==>
      && "word" in aiResult && IsScalar(aiResult["word"])
      && "translation" in aiResult && IsScalar(aiResult["translation"])
      && "part_of_speech" in aiResult && !aiResult["part_of_speech"].JOther?
      && "example" in aiResult && !aiResult["example"].JOther?
    ensures r.Ok? ==>
      && r.value.englishWord == ColumnText(aiResult["word"])
      && r.value.yorubaWord == ColumnText(aiResult["translation"])
      && r.value.partOfSpeech == OptionalText(aiResult["part_of_speech"])
      && r.value.exampleSentence == OptionalText(aiResult["example"])
    ensures "word" !in aiResult ==> r == Err("'word'")
  {
    if "word" !in aiResult then Err("'word'")
    else if "translation" !in aiResult then Err("'translation'")
    else if "part_of_speech" !in aiResult then Err("'part_of_speech'")
    else if "example" !in aiResult then Err("'example'")
    else
      var word, translation := aiResult["word"], aiResult["translation"];
      var partOfSpeech, example := aiResult["part_of_speech"], aiResult["example"];
      if word.JOther? then Err(UnbindableMessage("english_word"))
      else if translation.JOther? then Err(UnbindableMessage("yoruba_word"))
      else if partOfSpeech.JOther? then Err(UnbindableMessage("part_of_speech"))
      else if example.JOther? then Err(UnbindableMessage("example_sentence"))
      else if word.JNull? then Err(NotNullMessage("english_word"))
      else if translation.JNull? then Err(NotNullMessage("yoruba_word"))
      else Result.Ok(NewTranslation(ColumnText(word), ColumnText(translation), OptionalText(partOfSpeech), OptionalText(example)))
  }

  /** A nullable text column's value: a JSON string, or NULL. */
  function OptionalText(v: JValue): Option<string>
  {
    if IsScalar(v) then Some(ColumnText(v)) else None
  }

  function UnbindableMessage(column: string): string
  {
    "unsupported value for translations." + column
  }

  function NotNullMessage(column: string): string
  {
    "NOT NULL constraint failed: translations." + column
  }

  /** What `translate_word` decides, given the store's rows and what the AI
      call and the commit would do. */
  datatype Resolution = FromStore(index: nat) | SaveAI(data: NewTranslation) | Reject(status: nat, detail: string)

  /** The AI branch of `translate_word` (word not in the store, AI asked
      for and available): ask the service, build the row from its answer and
      commit it. Every exception on the way is answered 500 behind the
      handler's prefix. */
  function TryAI(word: string, svc: AITranslationService, complete: string -> Completion, loads: Decoder,
                 commitError: Option<string>): (d: Resolution)
    ensures !d.FromStore?
    ensures d.SaveAI? <==>
      && TranslateToYoruba(svc, word, complete, loads).Ok?
      && AIRecordFields(TranslateToYoruba(svc, word, complete, loads).value).Ok?
      && commitError.None?
    ensures d.SaveAI? ==> Result.Ok(d.data) == AIRecordFields(TranslateToYoruba(svc, word, complete, loads).value)
    ensures d.Reject? ==> d.status == 500 && |d.detail| >= |FailurePrefix| && d.detail[..|FailurePrefix|] == FailurePrefix
  {
    match TranslateToYoruba(svc, word, complete, loads)
    case Err(e) => Reject(500, FailurePrefix + e.message)
    case Ok(aiResult) =>
      match AIRecordFields(aiResult)
      case Err(message) => Reject(500, FailurePrefix + message)
      case Ok(data) =>
        if commitError.Some? then Reject(500, FailurePrefix + commitError.value)
        else SaveAI(data)
  }

  /** The decision procedure of `translate_word`. */
  function Resolve(rows: seq<Translation>, word: string, lang: string, useAi: bool,
                   svc: AITranslationService, complete: string -> Completion, loads: Decoder,
                   commitError: Option<string>): (d: Resolution)
    ensures Lower(lang) != "yo" ==> d == Reject(400, UnsupportedLanguageDetail)
    ensures Lower(lang) == "yo" && FirstMatch(rows, word).Some? ==> d == FromStore(FirstMatch(rows, word).value)
    ensures d.FromStore? ==> d.index < |rows| && MatchesWord(rows[d.index], word)
    ensures Lower(lang) == "yo" && FirstMatch(rows, word).None? && useAi && svc.IsAvailable() ==>
      d == TryAI(word, svc, complete, loads, commitError)
    ensures d.SaveAI? ==> Lower(lang) == "yo" && FirstMatch(rows, word).None? && useAi && svc.IsAvailable()
    ensures Lower(lang) == "yo" && FirstMatch(rows, word).None? && useAi && !svc.IsAvailable() ==>
      d == Reject(503, UnavailableDetail)
    ensures Lower(lang) == "yo" && FirstMatch(rows, word).None? && !useAi ==> d == Reject(404, NotFoundDetail(word))
  {
    if Lower(lang) != "yo" then Reject(400, UnsupportedLanguageDetail)
    else match FirstMatch(rows, word)
      case Some(i) => FromStore(i)
      case None =>
        if useAi && svc.IsAvailable() then TryAI(word, svc, complete, loads, commitError)
        else if useAi then Reject(503, UnavailableDetail)
        else Reject(404, NotFoundDetail(word))
  }

  /** `GET /translate`. `complete` and `loads` stand for the OpenAI call and
      the JSON decoder, `now` for the clock, and `commitError` for the
      database's answer to the commit (the message of its exception, if
      any). */
  method TranslateWord(db: Session, svc: AITranslationService, word: string, lang: string, useAi: bool,
                       complete: string -> Completion, loads: Decoder, now: Timestamp,
                       commitError: Option<string>) returns (resp: Response<TranslationOut>)
    requires db.Valid()
    modifies db
    ensures db.Valid()
    ensures match Resolve(old(db.translations), word, lang, useAi, svc, complete, loads, commitError)
      case FromStore(i) =>
        i < |old(db.translations)| && resp == Success(TranslationOut(old(db.translations)[i], "database"))
        && unchanged(db)
      case SaveAI(data) =>
        && resp == Success(TranslationOut(TranslationRow(data, old(db.nextTranslationId), now), "ai"))
        && db.translations == old(db.translations) + [resp.body.translation]
        && db.nextTranslationId == old(db.nextTranslationId) + 1
        && db.proverbs == old(db.proverbs) && db.nextProverbId == old(db.nextProverbId)
        && db.toneMarkings == old(db.toneMarkings) && db.nextToneMarkingId == old(db.nextToneMarkingId)
      case Reject(status, detail) => resp == HttpError(status, detail) && unchanged(db)
  {
    if Lower(lang) != "yo" {
      return HttpError(400, UnsupportedLanguageDetail);
    }
    var hit := FirstMatch(db.translations, word);
    if hit.Some? {
      return Success(TranslationOut(db.translations[hit.value], "database"));
    }
    if useAi && svc.IsAvailable() {
      var aiResult := TranslateToYoruba(svc, word, complete, loads);
      if aiResult.Err? {
        return HttpError(500, FailurePrefix + aiResult.error.message);
      }
      var fields := AIRecordFields(aiResult.value);
      if fields.Err? {
        return HttpError(500, FailurePrefix + fields.error);
      }
      if commitError.Some? {
        return HttpError(500, FailurePrefix + commitError.value);
      }
      var row := db.AddTranslation(fields.value, now);
      return Success(TranslationOut(row, "ai"));
    }
    if useAi && !svc.IsAvailable() {
      return HttpError(503, UnavailableDetail);
    }
    return HttpError(404, NotFoundDetail(word));
  }

  /** `POST /translate`: the same resolution, with the parameters taken from
      the request body. */
  method TranslateWordPost(db: Session, svc: AITranslationService, request: TranslationRequest,
                           complete: string -> Completion, loads: Decoder, now: Timestamp,
                           commitError: Option<string>) returns (resp: Response<TranslationOut>)
    requires db.Valid()
    modifies db
    ensures db.Valid()
    ensures match Resolve(old(db.translations), request.word, request.lang, request.useAi, svc, complete, loads, commitError)
      case FromStore(i) =>
        i < |old(db.translations)| && resp == Success(TranslationOut(old(db.translations)[i], "database"))
        && unchanged(db)
      case SaveAI(data) =>
        && resp == Success(TranslationOut(TranslationRow(data, old(db.nextTranslationId), now), "ai"))
        && db.translations == old(db.translations) + [resp.body.translation]
        && db.nextTranslationId == old(db.nextTranslationId) + 1
        && db.proverbs == old(db.proverbs) && db.nextProverbId == old(db.nextProverbId)
        && db.toneMarkings == old(db.toneMarkings) && db.nextToneMarkingId == old(db.nextToneMarkingId)
      case Reject(status, detail) => resp == HttpError(status, detail) && unchanged(db)
  {
    resp := TranslateWord(db, svc, request.word, request.lang, request.useAi, complete, loads, now, commitError);
  }

  /** `POST /translations`: the row is stored as given and returned tagged
      "database". */
  method CreateTranslation(db: Session, data: NewTranslation, now: Timestamp) returns (resp: TranslationOut)
    requires db.Valid()
    modifies db
    ensures db.Valid()
    ensures resp == TranslationOut(TranslationRow(data, old(db.nextTranslationId), now), "database")
    ensures db.translations == old(db.translations) + [resp.translation]
    ensures db.nextTranslationId == old(db.nextTranslationId) + 1
    ensures db.proverbs == old(db.proverbs) && db.nextProverbId == old(db.nextProverbId)
    ensures db.toneMarkings == old(db.toneMarkings) && db.nextToneMarkingId == old(db.nextToneMarkingId)
  {
    var row := db.AddTranslation(data, now);
    resp := TranslationOut(row, "database");
  }

  /** `GET /translations`: the page of rows starting at `skip`, at most
      `limit` of them, in store order; out-of-range parameters are refused
      before the query runs. */
  function GetAllTranslations(db: Session, skip: int, limit: int): (r: Response<seq<TranslationOut>>)
    reads db
    ensures r.HttpError? <==> skip < 0 || limit < 1 || limit > 1000
    ensures r.HttpError? ==> r.status == UnprocessableEntity
    ensures r.Success? ==> |r.body| <= limit
    ensures r.Success? && skip <= |db.translations| ==> |r.body| == Min(limit, |db.translations| - skip)
    ensures r.Success? ==> forall k :: 0 <= k < |r.body| ==>
      skip + k < |db.translations| && r.body[k] == TranslationOut(db.translations[skip + k], "database")
  {
    if skip < 0 || limit < 1 || limit > 1000 then HttpError(UnprocessableEntity, ValidationDetail)
    else
      var page := Page(db.translations, skip, limit);
      Success(seq(|page|, k requires 0 <= k < |page| => TranslationOut(page[k], "database")))
  }

  /** `GET /ai/status`: whether the service has a client, and then always
      the name "gpt-4o", whatever model the service was configured with. */
  function GetAIStatus(svc: AITranslationService): (r: AIStatus)
    ensures r.available <==> svc.IsAvailable()
    ensures r.model.Some? <==> svc.IsAvailable()
    ensures r.model.Some? ==> r.model.value == "gpt-4o"
  {
    AIStatus(svc.IsAvailable(), if svc.IsAvailable() then Some("gpt-4o") else None)
  }

  // ---------------------------------------------------------------------
  // Lemmas.

  /** A row appended at the end is found only when no earlier row matches. */
  lemma {:induction false} FirstMatchAppend(rows: seq<Translation>, t: Translation, word: string)
    requires FirstMatch(rows, word).None? && MatchesWord(t, word)
    ensures FirstMatch(rows + [t], word) == Some(|rows|)
  {
    assert (rows + [t])[|rows|] == t;
    assert forall j :: 0 <= j < |rows| ==> (rows + [t])[j] == rows[j];
  }

  /** "Save for future use": after the AI path stores a row whose English
      word contains the query (ignoring ASCII case; the query may hold
      wildcards), the same query is answered from the store, by that row. */
  lemma SavedForFuture(rows: seq<Translation>, word: string, lang: string, useAi: bool,
                       svc: AITranslationService, complete: string -> Completion, loads: Decoder,
                       commitError: Option<string>, id: nat, now: Timestamp,
                       useAi2: bool, complete2: string -> Completion, commitError2: Option<string>)
    requires Resolve(rows, word, lang, useAi, svc, complete, loads, commitError).SaveAI?
    requires ContainsCI(Resolve(rows, word, lang, useAi, svc, complete, loads, commitError).data.englishWord, word)
    ensures var row := TranslationRow(Resolve(rows, word, lang, useAi, svc, complete, loads, commitError).data, id, now);
      Resolve(rows + [row], word, lang, useAi2, svc, complete2, loads, commitError2) == FromStore(|rows|)
  {
    var row := TranslationRow(Resolve(rows, word, lang, useAi, svc, complete, loads, commitError).data, id, now);
    ContainsMatches(row.englishWord, word);
    FirstMatchAppend(rows, row, word);
  }

  /** A reply holding no JSON object still stores a row: the service's
      fallback record. */
  lemma FallbackIsStored(word: string, svc: AITranslationService, complete: string -> Completion, loads: Decoder)
    requires svc.IsAvailable()
    requires complete(CreateTranslationPrompt(word)).Content?
    requires '{' !in complete(CreateTranslationPrompt(word)).text
    ensures TryAI(word, svc, complete, loads, None) == SaveAI(NewTranslation(word, word, Some("noun"), Some("I need " + word)))
  {
    var aiResult := TranslateToYoruba(svc, word, complete, loads);
    assert aiResult == Result.Ok(CreateFallbackResponse(svc, word));
  }

  /** An AI result without a `word` key answers 500 with the KeyError text
      behind the handler's prefix. */
  lemma MissingWordKey(word: string, svc: AITranslationService, complete: string -> Completion, loads: Decoder,
                       commitError: Option<string>)
    requires TranslateToYoruba(svc, word, complete, loads).Ok?
    requires "word" !in TranslateToYoruba(svc, word, complete, loads).value
    ensures TryAI(word, svc, complete, loads, commitError) == Reject(500, FailurePrefix + "'word'")
  {
  }

  /** A failing service call is reported with the service's own prefix
      repeated. */
  lemma FailedCallDetail(word: string, svc: AITranslationService, complete: string -> Completion, loads: Decoder,
                         commitError: Option<string>)
    requires svc.IsAvailable()
    requires complete(CreateTranslationPrompt(word)).CallFailed?
    ensures TryAI(word, svc, complete, loads, commitError) ==
      Reject(500, FailurePrefix + FailurePrefix + complete(CreateTranslationPrompt(word)).message)
  {
    var m := complete(CreateTranslationPrompt(word)).message;
    assert FailurePrefix + (FailurePrefix + m) == FailurePrefix + FailurePrefix + m;
  }
}
