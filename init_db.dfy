/** The seed script scripts/init_db.py: on a database without translations
    it adds ten sample translations and five proverbs, committed together; on
    any other database it does nothing. */
module InitDb {
  import opened Common
  import opened Sql
  import opened Database
  import opened AITranslation
  import TranslationRoutes

  const SeedTranslations: seq<NewTranslation> := [
    NewTranslation("love", "ifẹ́", Some("noun"),
      Some("I love you → Mo nífẹ́ rẹ")),
    NewTranslation("hello", "Ẹ káàbọ̀", Some("interjection"),
      Some("Hello, how are you? → Ẹ káàbọ̀, báwo ni?")),
    NewTranslation("thank you", "Ẹ ṣeun", Some("interjection"),
      Some("Thank you very much → Ẹ ṣeun púpọ̀")),
    NewTranslation("water", "omi", Some("noun"),
      Some("I need water → Mo nílò omi")),
    NewTranslation("food", "oúnjẹ", Some("noun"),
      Some("The food is delicious → Oúnjẹ yẹn dùn")),
    NewTranslation("family", "ìdílé", Some("noun"),
      Some("My family is large → Ìdílé mi tóbi")),
    NewTranslation("friend", "ọ̀rẹ́", Some("noun"),
      Some("He is my friend → Ó jẹ́ ọ̀rẹ́ mi")),
    NewTranslation("beautiful", "lẹ́wà", Some("adjective"),
      Some("She is beautiful → Ó lẹ́wà")),
    NewTranslation("good", "dára", Some("adjective"),
      Some("This is good → Èyí dára")),
    NewTranslation("bad", "búburú", Some("adjective"),
      Some("That is bad → Ìyẹn búburú"))
  ]

  const SeedProverbs: seq<NewProverb> := [
    NewProverb("Ìwà l'ẹ̀wà", "Character is beauty",
      Some("A good character is more important than physical appearance."),
      Some("character")),
    NewProverb("Ọmọdé kì í mọ ìgbà", "A child does not know time",
      Some("Children are impatient and don't understand the concept of waiting."),
      Some("patience")),
    NewProverb("Ìbà l'ọba", "Respect is king",
      Some("Respect is the most important virtue and should be shown to all."),
      Some("respect")),
    NewProverb("Ọ̀rọ̀ púpọ̀ ò ní ìdúró", "Many words cannot stand",
      Some("Excessive talking often leads to problems or reveals secrets."),
      Some("wisdom")),
    NewProverb("Ẹni tí kò bá gbọ́n, kò lè gbọ́n", "He who is not wise cannot be wise",
      Some("Some people are naturally foolish and cannot be taught wisdom."),
      Some("wisdom"))
  ]

  /** `init_database`. `commitError` stands for the database's answer to the
      single commit: when it fails the session is rolled back and nothing of
      the seed remains. */
  method InitDatabase(db: Session, now: Timestamp, commitError: Option<string>)
    requires db.Valid()
    modifies db
    ensures db.Valid()
    ensures |old(db.translations)| > 0 || commitError.Some? ==>
      && db.translations == old(db.translations) && db.nextTranslationId == old(db.nextTranslationId)
      && db.proverbs == old(db.proverbs) && db.nextProverbId == old(db.nextProverbId)
      && db.toneMarkings == old(db.toneMarkings) && db.nextToneMarkingId == old(db.nextToneMarkingId)
    ensures |old(db.translations)| == 0 && commitError.None? ==>
      && db.translations == TranslationRows(SeedTranslations, old(db.nextTranslationId), now)
      && db.nextTranslationId == old(db.nextTranslationId) + |SeedTranslations|
      && db.proverbs == old(db.proverbs) + ProverbRows(SeedProverbs, old(db.nextProverbId), now)
      && db.nextProverbId == old(db.nextProverbId) + |SeedProverbs|
      && db.toneMarkings == old(db.toneMarkings) && db.nextToneMarkingId == old(db.nextToneMarkingId)
  {
    if |db.translations| > 0 {
      return;
    }
    var savedTranslations, savedTranslationId := db.translations, db.nextTranslationId;
    var savedProverbs, savedProverbId := db.proverbs, db.nextProverbId;
    AddTranslations(db, SeedTranslations, now);
    AddProverbs(db, SeedProverbs, now);
    if commitError.Some? {
      // db.rollback(): every pending row is discarded.
      db.translations, db.nextTranslationId := savedTranslations, savedTranslationId;
      db.proverbs, db.nextProverbId := savedProverbs, savedProverbId;
    }
  }

  /** The first loop: `db.add(Translation(**trans_data))` for each row of
      the batch, in order. */
  method AddTranslations(db: Session, batch: seq<NewTranslation>, now: Timestamp)
    requires db.Valid()
    modifies db
    ensures db.Valid()
    ensures db.translations == old(db.translations) + TranslationRows(batch, old(db.nextTranslationId), now)
    ensures db.nextTranslationId == old(db.nextTranslationId) + |batch|
    ensures db.proverbs == old(db.proverbs) && db.nextProverbId == old(db.nextProverbId)
    ensures db.toneMarkings == old(db.toneMarkings) && db.nextToneMarkingId == old(db.nextToneMarkingId)
  {
    for i := 0 to |batch|
      invariant db.Valid()
      invariant db.translations == old(db.translations) + TranslationRows(batch[..i], old(db.nextTranslationId), now)
      invariant db.nextTranslationId == old(db.nextTranslationId) + i
      invariant db.proverbs == old(db.proverbs) && db.nextProverbId == old(db.nextProverbId)
      invariant db.toneMarkings == old(db.toneMarkings) && db.nextToneMarkingId == old(db.nextToneMarkingId)
    {
      var row := db.AddTranslation(batch[i], now);
      assert TranslationRows(batch[..i + 1], old(db.nextTranslationId), now)
          == TranslationRows(batch[..i], old(db.nextTranslationId), now) + [row];
    }
    assert batch[..|batch|] == batch;
  }

  /** The second loop: `db.add(Proverb(**prov_data))` for each row of the
      batch, in order. */
  method AddProverbs(db: Session, batch: seq<NewProverb>, now: Timestamp)
    requires db.Valid()
    modifies db
    ensures db.Valid()
    ensures db.proverbs == old(db.proverbs) + ProverbRows(batch, old(db.nextProverbId), now)
    ensures db.nextProverbId == old(db.nextProverbId) + |batch|
    ensures db.translations == old(db.translations) && db.nextTranslationId == old(db.nextTranslationId)
    ensures db.toneMarkings == old(db.toneMarkings) && db.nextToneMarkingId == old(db.nextToneMarkingId)
  {
    for i := 0 to |batch|
      invariant db.Valid()
      invariant db.proverbs == old(db.proverbs) + ProverbRows(batch[..i], old(db.nextProverbId), now)
      invariant db.nextProverbId == old(db.nextProverbId) + i
      invariant db.translations == old(db.translations) && db.nextTranslationId == old(db.nextTranslationId)
      invariant db.toneMarkings == old(db.toneMarkings) && db.nextToneMarkingId == old(db.nextToneMarkingId)
    {
      var row := db.AddProverb(batch[i], now);
      assert ProverbRows(batch[..i + 1], old(db.nextProverbId), now)
          == ProverbRows(batch[..i], old(db.nextProverbId), now) + [row];
    }
    assert batch[..|batch|] == batch;
  }

  /** Running the script a second time changes nothing: the first run left
      translations behind, so the second one stops at its guard. */
  method InitDatabaseTwice(db: Session, now1: Timestamp, now2: Timestamp, commitError2: Option<string>)
    requires db.Valid() && |db.translations| == 0
    modifies db
    ensures db.Valid()
    ensures db.translations == TranslationRows(SeedTranslations, old(db.nextTranslationId), now1)
    ensures db.proverbs == old(db.proverbs) + ProverbRows(SeedProverbs, old(db.nextProverbId), now1)
    ensures db.toneMarkings == old(db.toneMarkings)
  {
    InitDatabase(db, now1, None);
    assert |db.translations| == |SeedTranslations| > 0;
    InitDatabase(db, now2, commitError2);
  }

  /** Every seed row fills the two NOT NULL columns with non-empty text. */
  lemma SeedRowsComplete()
    ensures forall t :: t in SeedTranslations ==> |t.englishWord| > 0 && |t.yorubaWord| > 0
    ensures forall p :: p in SeedProverbs ==> |p.yorubaText| > 0 && |p.englishTranslation| > 0
  {
  }

  /** After seeding an empty store, looking up "love" is answered from the
      store by the first seed row, whether or not AI was asked for. */
  lemma SeededLookup(firstId: nat, now: Timestamp, useAi: bool, svc: AITranslationService,
                     complete: string -> Completion, loads: Json.Decoder, commitError: Option<string>)
    ensures TranslationRoutes.Resolve(TranslationRows(SeedTranslations, firstId, now), "love", "yo", useAi,
                                      svc, complete, loads, commitError)
         == TranslationRoutes.FromStore(0)
  {
    var rows := TranslationRows(SeedTranslations, firstId, now);
    assert rows[0].englishWord == "love";
    EqualCIReflexive("love");
    assert "love"[0..4] == "love";
    assert OccursAt("love", "love", 0);
    ILikeContains("love", "love");
    assert TranslationRoutes.MatchesWord(rows[0], "love");
  }
}
