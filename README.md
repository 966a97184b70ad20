# Yoruba language service: a verified model of its core

This project models the core of a small FastAPI service for the Yoruba language
and proves properties of that model in Dafny. It covers seven pieces:

- **Tone marker** (`add_tone_marks`). Thirteen rules, applied in table order.
  Each replaces every whole-word, case-insensitive occurrence of a plain form
  with its toned form. `re.sub` with `\b…\b` is modelled exactly, with ASCII case folding: matching works
  on the input, left to right and without overlap. Matching uses Python's
  notion of a word character, restricted to the ranges Yoruba text uses.
- **AI translation service**: its client flag, the prompt, how the JSON object
  is extracted from the reply, the fallback record, and how errors are
  wrapped. The OpenAI call and `json.loads` are parameters.
- **Mock AI service**: the eight-word sample table and the made-up record for
  any other word. The three random draws are parameters.
- **Translation routes**:
  - the `GET`/`POST /translate` resolver, stated as a decision function
    (`Resolve`) and as a method proved against it;
  - creation and paged listing of translations;
  - the AI status report.
- **Tone-marking routes**: marking a text appends one entry to the audit log;
  the history is a page of that log.
- **Proverb routes**: category filter and paging, the random pick, creation,
  and lookup by id.
- **Seed script** (`init_database`). A guarded bulk insert of ten translations
  and five proverbs, with a single commit or a rollback.

The database is an in-memory `Session` class. It holds one sequence per table,
in insertion order, and one next-id counter per table. SQL's `ilike` is
modelled as SQLite renders it (`lower(a) LIKE lower(b)`, with `%` and `_`).
`OFFSET`/`LIMIT` follow SQLite's reading of negative values.

Files:
- `common.dfy`: options, results, ASCII lower-casing, `str.find`, `str.rfind`.
- `sql.dfy`: `LIKE` matching and paging.
- `database.dfy`: rows and the store.
- `http.dfy`: responses.
- `json.dfy`: decoded JSON values and the decoder type.
- One file per core source file: `tone_service.dfy`, `ai_translation_service.dfy`,
  `mock_ai_service.dfy`, `translations.dfy`, `tone_marking.dfy`, `proverbs.dfy`,
  `init_db.dfy`.

Some behaviour of the code is worth stating up front:
- The resolver tags every AI result `"ai"`, including the service's fallback
  record, whose own `source` key reads `"ai_fallback"`.
- The routes call only the OpenAI-backed service. The mock service is never
  wired into them.
- A timed-out or failed OpenAI call answers 500. Only a missing client answers
  503.
- A lookup that several rows match answers with the first row in store order.

## Model

| member | source | states |
|---|---|---|
| `ToneService.AddToneMarks` | app/services/tone_service.py:9-50 | The loop's result is the 13 rules applied in table order, each to the previous output. Empty text comes back empty. The result has as many characters as the text. |
| `ToneService.SubFrom` | app/services/tone_service.py:43-48 | One `re.sub` pass from a position on. When the replacement is as long as the pattern, the output is as long as the rest of the input. |
| `ToneService.ApplyRules` | app/services/tone_service.py:42-48 | The rules applied as a left fold over the table. A table whose toned forms keep their plain forms' lengths keeps the text's length. |
| `ToneService.Boundary` | app/services/tone_service.py:44 | `\b`: a word character on exactly one side. At the start or end of the text, only the character next to it counts. |
| `ToneService.MatchAt` | app/services/tone_service.py:43-47 | `\bp\b` with IGNORECASE: a boundary, the plain form up to case, and a boundary. |
| `ToneService.RulesKeepLength` | app/services/tone_service.py:25-39 | Every toned form in the table has as many characters as its plain form, so marking never changes a text's length. |
| `ToneService.ApplyRulesNoMatch` | app/services/tone_service.py:42-50 | Text in which no plain form of the table occurs as a whole word comes back identical. |
| `ToneService.SubFromUnchanged` | app/services/tone_service.py:43-48 | One `re.sub` pass copies every position where no match starts. |
| `ToneService.SubFromAfterSeparator` | app/services/tone_service.py:43-48 | Past a non-word character, a substitution pass restarts on the rest of the text as if that rest stood alone. |
| `ToneService.SubFromBeforeSeparator` | app/services/tone_service.py:43-48 | A substitution pass treats the two sides of a non-word character separately and keeps that character. |
| `ToneService.ApplyRulesSplit` | app/services/tone_service.py:42-48 | The whole table treats the two sides of a non-word character separately and keeps that character. |
| `ToneService.SubstituteWord` | app/services/tone_service.py:43-47 | On a single word, a rule replaces the word exactly when it equals the plain form up to case. |
| `ToneService.FirstRuleExtend` | app/services/tone_service.py:42 | Adding a rule at the end of the table matters only to a word that matched no earlier rule. |
| `ToneService.ApplyRulesToWord` | app/services/tone_service.py:42-48 | For a table without chaining, a single word becomes the toned form of the first rule whose plain form it equals up to case. |
| `ToneService.RuleShapeAt` | app/services/tone_service.py:25-39 | Every plain form is lower-case ASCII letters, and every toned form is one word. |
| `ToneService.NoChainingAt` | app/services/tone_service.py:25-39 | No toned form equals, up to case, the plain form of any later rule. |
| `ToneService.RulesWellFormed` | app/services/tone_service.py:25-39 | The table is well formed and has no chaining. |
| `ToneService.MarkWord` | app/services/tone_service.py:25-48 | The table maps one whole word to the toned form of the rule it matches, or leaves it unchanged. |
| `ToneService.MarkMatchedWord` | app/services/tone_service.py:25-48 | A word equal, up to case, to the plain form of rule k and of no earlier rule becomes rule k's toned form. |
| `ToneService.ExampleUpperCase` | app/services/tone_service.py:26 | "OMO" becomes "ọmọ": case is ignored and the fixed toned form is written. |
| `ToneService.ExampleCapitalised` | app/services/tone_service.py:27 | "Baba" becomes "bàbá". |
| `ToneService.ExampleIdentityRule` | app/services/tone_service.py:31 | "Wa" becomes "wa": an identity rule still lower-cases what it matches. |
| `ToneService.ExampleIdentityRuleLower` | app/services/tone_service.py:31 | "wa" stays "wa". |
| `ToneService.ExampleInsideWord` | app/services/tone_service.py:43-44 | "tomo" is unchanged: a plain form inside a longer word is not replaced. |
| `ToneService.ExampleLowerCase` | app/services/tone_service.py:26 | "omo" becomes "ọmọ". |
| `ToneService.ExampleTi` | app/services/tone_service.py:33 | "ti" becomes "tí". |
| `ToneService.ExampleTail` | app/services/tone_service.py:31-33 | "ti wa" becomes "tí wa". |
| `ToneService.ExampleSentence` | app/services/tone_service.py:26-34 | "omo ti wa" becomes "ọmọ tí wa". |
| `ToneService.FirstRule` | app/services/tone_service.py:42-48 | The index of the first rule whose plain form equals the word up to case, or none. |
| `AITranslation.NewService` | app/services/ai_translation_service.py:20-31 | A client exists exactly when the API key is present and non-empty. The model is the configured one. |
| `AITranslation.CreateTranslationPrompt` | app/services/ai_translation_service.py:65-74 | The prompt has the fixed template's length plus twice the text's. It begins with the fixed head followed by the text. |
| `AITranslation.PromptInjective` | app/services/ai_translation_service.py:65-74 | Different texts never produce the same prompt. |
| `AITranslation.Slice` | app/services/ai_translation_service.py:85 | Python slicing: empty when the end comes before the start. |
| `AITranslation.JsonCandidate` | app/services/ai_translation_service.py:81-85 | The decoded text runs from the first '{' through the last '}'. It is empty exactly when no '{' precedes a '}'. |
| `AITranslation.CreateFallbackResponse` | app/services/ai_translation_service.py:96-105 | The fallback has six keys: `word` and `translation` equal to the original, part of speech "noun", example "I need …", source "ai_fallback", and the configured model. |
| `AITranslation.ParseAIResponse` | app/services/ai_translation_service.py:76-94 | A missing brace or a decode failure yields the fallback. A decoded object keeps its other keys and gets `source` "ai" and `model` overwritten. |
| `AITranslation.MisorderedBracesFallBack` | app/services/ai_translation_service.py:82-86 | When the last '}' precedes the first '{', the empty slice fails to decode and the fallback comes back. |
| `AITranslation.ParseTagsModel` | app/services/ai_translation_service.py:76-105 | Every parse result names the configured model and is tagged "ai", or is exactly the fallback. |
| `AITranslation.TranslateToYoruba` | app/services/ai_translation_service.py:34-63 | Without a client, ValueError with the fixed message. With a client, any failure carries the "AI translation failed: " prefix. Success means the call produced content, and the result is its parse. |
| `MockAIService.MockExamples` | app/services/mock_ai_service.py:87-91 | There are three example templates. |
| `MockAIService.GenerateMockTranslation` | app/services/mock_ai_service.py:76-100 | `word` is the input. The translation is one of the four prefixes plus the lower-cased input. The part of speech is one of four, the example one of three templates. Source and model are fixed. |
| `MockAIService.TranslateToYoruba` | app/services/mock_ai_service.py:58-74 | A hit on the lower-cased input copies the table entry under the word as given. A miss makes a record up. Every result is tagged "mock_ai"/"mock-gpt-4o". |
| `MockAIService.IsAvailable` | app/services/mock_ai_service.py:102-104 | The mock is always available. |
| `MockAIService.CaseInsensitiveLookup` | app/services/mock_ai_service.py:60-68 | Inputs equal up to case get the same translation and part of speech. Each keeps its own `word`. |
| `MockAIService.EveryChoiceReachable` | app/services/mock_ai_service.py:79-97 | Every prefix, part of speech and example can be drawn. |
| `MockAIService.SampleKeys` | app/services/mock_ai_service.py:15-56 | The table holds exactly the eight sample words. |
| `MockAIService.SampleNouns` | app/services/mock_ai_service.py:15-56 | Every sample is a noun. |
| `MockAIService.SampleLowercase` | app/services/mock_ai_service.py:15-62 | Every key is already lower-case, so lookup by the lower-cased input can reach it. |
| `Sql.ILike` | app/routes/translations.py:38 | `ilike` as SQLite runs it: '%' matches any run of characters, '_' any one character, and any other character matches itself up to ASCII case. |
| `Common.Lower` | app/routes/translations.py:30 | `str.lower()` on ASCII: the same length, no upper-case letter left, and each character equal to the input's up to case. Non-capitals are kept. |
| `AITranslation.AITranslationService.IsAvailable` | app/services/ai_translation_service.py:107-109 | The service is available exactly when it holds a client. |
| `Sql.ILikeLiteral` | app/routes/translations.py:38 | A pattern part without wildcards consumes exactly its own length, up to case. |
| `Sql.ILikePercent` | app/routes/translations.py:38 | A leading '%' matches when some suffix matches the rest. |
| `Sql.ILikeAnything` | app/routes/translations.py:38 | A lone '%' matches everything. |
| `Sql.ILikeContains` | app/routes/translations.py:38 | For a word without wildcards, `%word%` matches exactly the texts containing the word, ignoring ASCII case. |
| `Sql.ILikeSpelledOut` | app/routes/translations.py:38 | A pattern part matches any text that spells it out up to case, whatever wildcards it holds: '_' matches the character under it and '%' matches itself. |
| `Sql.ContainsMatches` | app/routes/translations.py:38 | Every text containing the word up to ASCII case matches `%word%`, even when the word holds '%' or '_'. |
| `Sql.Page` | app/routes/translations.py:150 | OFFSET/LIMIT: exactly min(limit, rows past the offset) rows, consecutive from the offset, in order. A negative offset counts as 0, and a negative limit means no limit. |
| `Database.Session.constructor` | app/database.py:21-54 | A new database has three empty tables, with ids starting at 1. |
| `Database.Session.AddTranslation` | app/database.py:21-34 | Appends one row with the next id, both timestamp columns taking the single `now`. The other tables are unchanged. |
| `Database.Session.AddProverb` | app/database.py:37-45 | Appends one proverb with the next id. The other tables are unchanged. |
| `Database.Session.AddToneMarking` | app/database.py:48-54 | Appends one log entry with the next id. The other tables are unchanged. |
| `TranslationRoutes.FirstMatch` | app/routes/translations.py:37-39 | The earliest row whose English word matches `%word%`, or none. |
| `TranslationRoutes.AIRecordFields` | app/routes/translations.py:60-68 | The AI result becomes a row exactly when all four keys exist, word and translation are strings, numbers or booleans the driver can bind, and the other two are those or null. Each column holds the value's text. A JSON `NaN` counts as null and an integer too large for 64 bits as unbindable, as the driver treats them. A missing `word` is a KeyError. |
| `TranslationRoutes.TryAI` | app/routes/translations.py:55-87 | A row is saved exactly when the service answers, the answer yields a complete row, and the commit succeeds. The row holds the answer's fields. Every failure is a 500 whose detail starts with "AI translation failed: ". |
| `TranslationRoutes.Resolve` | app/routes/translations.py:19-103 | 400 for a language other than "yo". Otherwise the first matching row if any. Otherwise the AI branch when AI is asked for and available, 503 when asked for but unavailable, and 404 when not asked for. A save happens only on the AI branch. |
| `TranslationRoutes.TranslateWord` | app/routes/translations.py:19-103 | A store hit is returned tagged "database" and nothing changes. A save appends exactly that row, tagged "ai". A rejection changes nothing. |
| `TranslationRoutes.TranslateWordPost` | app/routes/translations.py:106-117 | Same outcome as `GET /translate` on the request's fields. |
| `TranslationRoutes.CreateTranslation` | app/routes/translations.py:120-140 | Appends one row with the given fields and returns it tagged "database". |
| `TranslationRoutes.GetAllTranslations` | app/routes/translations.py:143-164 | 422 exactly when skip < 0 or limit is outside 1..1000. Otherwise the rows from `skip` on, at most `limit`, in order, tagged "database". |
| `TranslationRoutes.GetAIStatus` | app/routes/translations.py:167-173 | Reports availability, and then always "gpt-4o" as the model. |
| `TranslationRoutes.FirstMatchAppend` | app/routes/translations.py:37-39 | A matching row appended after non-matching rows is the first match. |
| `TranslationRoutes.SavedForFuture` | app/routes/translations.py:37-69 | After the AI path stores a row whose word contains the query up to ASCII case, the same query is answered from the store by that row, whatever wildcards the query holds. |
| `TranslationRoutes.FallbackIsStored` | app/routes/translations.py:58-68 | A reply without '{' saves the fallback record's fields: the word twice, "noun", and "I need " + word. |
| `TranslationRoutes.MissingWordKey` | app/routes/translations.py:62-87 | An AI result without `word` answers 500 with the prefix followed by the KeyError text "'word'". |
| `TranslationRoutes.FailedCallDetail` | app/routes/translations.py:56-87 | A failed call answers 500 with the prefix twice, then the call's message: the service has already added the prefix once. |
| `ToneMarkingRoutes.MarkTones` | app/routes/tone_marking.py:12-36 | Returns the text and its marking, and appends exactly one log entry holding both. A failed commit gives 500 and leaves the store unchanged. |
| `ToneMarkingRoutes.GetToneMarkingHistory` | app/routes/tone_marking.py:39-54 | The log from `skip` on (a negative skip counts as 0), exactly min(limit, entries past skip) of them when limit ≥ 0 and all of them otherwise. Oldest first, mapped to (original, tone_marked). |
| `ToneMarkingRoutes.HistoryDefaults` | app/routes/tone_marking.py:41-46 | With the defaults, the history is the oldest min(100, n) entries. |
| `ToneMarkingRoutes.NewestEntryShown` | app/routes/tone_marking.py:18-46 | A text just marked is the entry the history shows right after the earlier ones. |
| `ProverbRoutes.InCategory` | app/routes/proverbs.py:20-23 | Exactly the proverbs whose category equals the filter. |
| `ProverbRoutes.InCategoryAppend` | app/routes/proverbs.py:20-23 | Filtering keeps store order: filtering a concatenation concatenates the filtered parts. |
| `ProverbRoutes.GetAllProverbs` | app/routes/proverbs.py:12-26 | 422 exactly on bad paging. No filter for a missing or empty category. Otherwise the filtered store, paged. Every result is a stored proverb. |
| `ProverbRoutes.GetRandomProverb` | app/routes/proverbs.py:29-42 | 404 exactly when the store is empty. Otherwise a stored proverb. |
| `ProverbRoutes.EveryProverbCanBePicked` | app/routes/proverbs.py:39-40 | Every stored proverb is the answer to some draw. |
| `ProverbRoutes.CreateProverb` | app/routes/proverbs.py:45-55 | Appends exactly one proverb with the given fields and returns it. |
| `ProverbRoutes.FindProverb` | app/routes/proverbs.py:64 | The earliest proverb with the given id, or none. |
| `ProverbRoutes.GetProverb` | app/routes/proverbs.py:58-72 | The proverb with the id. 404 exactly when no proverb has it. |
| `ProverbRoutes.LookupById` | app/routes/proverbs.py:64 | Ids are unique, so looking up a stored proverb's id finds that proverb. |
| `ProverbRoutes.CreatedProverbFound` | app/routes/proverbs.py:51-64 | A proverb just created is found under the id it was given. |
| `InitDb.InitDatabase` | scripts/init_db.py:17-149 | With translations present, nothing changes. A failed commit rolls everything back. Otherwise exactly the 10 seed translations and 5 seed proverbs are appended, in order. |
| `InitDb.AddTranslations` | scripts/init_db.py:130-132 | The loop appends the batch in order with consecutive ids. |
| `InitDb.AddProverbs` | scripts/init_db.py:135-137 | The loop appends the batch in order with consecutive ids. |
| `InitDb.InitDatabaseTwice` | scripts/init_db.py:27-29 | A second run leaves the first run's result unchanged. |
| `InitDb.SeedRowsComplete` | scripts/init_db.py:32-127 | Every seed row fills its NOT NULL columns with non-empty text. |
| `InitDb.SeededLookup` | scripts/init_db.py:33-38 | After seeding, "love" is answered from the store by the first seed row. |
| `Common.Find` | app/services/ai_translation_service.py:81 | `str.find`: the first index of the character, or -1 exactly when it is absent. |
| `Common.RFind` | app/services/ai_translation_service.py:82 | `str.rfind`: the last index of the character, or -1 exactly when it is absent. |

## Left out

- The OpenAI client and the chat-completion call are the parameter `complete`, from prompt to outcome. The model, temperature and token budget sent with it are not modelled.
- `json.loads` is the parameter `loads`. The only assumption made about it is that it rejects the empty text. A decoded number or boolean (`Json.JScalar`) carries the text a string column stores for it as given data; SQLite's rendering of numbers is not modelled.
- TranslationRoutes.AIRecordFields: the decoder decides which JSON numbers the driver cannot store as text. `NaN` is given as `Json.JNull`, so a `NaN` word fails the NOT NULL constraint and a `NaN` part of speech or example is stored as NULL. An integer of 2^63 or more (or below -2^63) is given as `Json.JOther`, so it answers 500 with the model's own message where Python reports "Python int too large to convert to SQLite INTEGER".
- Database error messages are abbreviated to their core ("NOT NULL constraint failed: translations.english_word"). SQLAlchemy adds the statement and parameters. A driver's refusal of an array or object value, or of an integer too large for 64 bits, is given a message of the model's own.
- A commit can fail for reasons outside the data (disk, locks). This is the parameter `commitError` of the operations that catch it: the resolver, `mark_tones` and the seed script. `create_translation` and `create_proverb` do not catch it, and their failure is not modelled.
- Timestamps from `datetime.utcnow` are the parameter `now`. `created_at` and `updated_at` take the same `now`, where the source reads the clock once for each column, microseconds apart. Random draws are the parameters `picks` and `pick`.
- Logging, `print`, table creation (`create_all`), session opening and closing, and `db.refresh` are not modelled.
- FastAPI and pydantic wiring is not modelled: routing, CORS, response serialisation and the constant root, health and config routes.
- `TranslationResponse` has no `source` field, so the served JSON drops the tag. The model keeps the tag the handlers pass.
- app/schemas.py defines no `TranslationRequest`, which app/routes/translations.py imports. As written, that import raises ImportError, so app/routes/translations.py fails to load, and so does app/main.py, which imports it. The model describes the routes as intended. `TranslationRoutes.TranslationRequest` supplies the three fields the handler reads (`word`, `lang`, `use_ai`).
- ToneService.IsWordChar: Python's `\w` is the ASCII letters, digits and '_' plus the Latin letters U+00C0–U+024F (except × and ÷) and U+1E00–U+1EFF. Other Unicode word characters (other scripts, ª, ², µ, ¼…) are not modelled.
- ToneService.AddToneMarks: IGNORECASE is modelled as ASCII case folding. Python also matches U+017F (ſ) with 's', U+212A (K) with 'k', and U+0130 (İ) and U+0131 (ı) with 'i'. So "ſe", "Ko" with the Kelvin sign, or "tı", "nİ", "mı", "sı" would match in Python but not in the model.
- MockAIService.TranslateToYoruba, MockAIService.GenerateMockTranslation: `str.lower()` is modelled on ASCII only. A non-ASCII capital, such as the Kelvin sign in a sample word, lowers in Python but not in the model.
- The language check `lang.lower() != "yo"` is modelled with ASCII lower-casing. This is exact: no non-ASCII character lower-cases to 'y' or 'o'.
- The string columns' declared lengths (`String(100)`, `String(50)`) are not enforced by SQLite and are not modelled.
- The store's natural order is insertion order. SQLite returns rows of a plain table scan in rowid order, which is insertion order here because rows are never deleted.
