/** The three tables of app/database.py and the session through which the
    routes read and write them. The relational engine is replaced by an
    in-memory store: each table is a sequence of rows in insertion order, and
    each table has a counter giving the id of its next row. */
module Database {
  import opened Common

  /** `datetime.utcnow()` at insert time, abstracted to a number. */
  type Timestamp = nat

  datatype Translation = Translation(
    id: nat,
    englishWord: string,
    yorubaWord: string,
    partOfSpeech: Option<string>,
    exampleSentence: Option<string>,
    createdAt: Timestamp,
    updatedAt: Timestamp)

  /** The columns a client supplies for a new translation (`TranslationCreate`). */
  datatype NewTranslation = NewTranslation(
    englishWord: string,
    yorubaWord: string,
    partOfSpeech: Option<string>,
    exampleSentence: Option<string>)

  datatype Proverb = Proverb(
    id: nat,
    yorubaText: string,
    englishTranslation: string,
    meaning: Option<string>,
    category: Option<string>,
    createdAt: Timestamp)

  /** The columns a client supplies for a new proverb (`ProverbCreate`). */
  datatype NewProverb = NewProverb(
    yorubaText: string,
    englishTranslation: string,
    meaning: Option<string>,
    category: Option<string>)

  datatype ToneMarking = ToneMarking(
    id: nat,
    originalText: string,
    toneMarkedText: string,
    createdAt: Timestamp)

  /** The row the store creates for `data` when it assigns it `id` at `now`. */
  function TranslationRow(data: NewTranslation, id: nat, now: Timestamp): Translation
  {
    Translation(id, data.englishWord, data.yorubaWord, data.partOfSpeech, data.exampleSentence, now, now)
  }

  function ProverbRow(data: NewProverb, id: nat, now: Timestamp): Proverb
  {
    Proverb(id, data.yorubaText, data.englishTranslation, data.meaning, data.category, now)
  }

  /** The rows a batch of inserts produces, numbered from `firstId` on. */
  function TranslationRows(batch: seq<NewTranslation>, firstId: nat, now: Timestamp): seq<Translation>
  {
    seq(|batch|, k requires 0 <= k < |batch| => TranslationRow(batch[k], firstId + k, now))
  }

  function ProverbRows(batch: seq<NewProverb>, firstId: nat, now: Timestamp): seq<Proverb>
  {
    seq(|batch|, k requires 0 <= k < |batch| => ProverbRow(batch[k], firstId + k, now))
  }

  /** Ids increase along the table and stay below the next id to hand out,
      so every id is unique; a row's creation time never exceeds its update
      time. */
  ghost predicate TranslationIdsValid(rows: seq<Translation>, nextId: nat)
  {
    && (forall i, j :: 0 <= i < j < |rows| ==> rows[i].id < rows[j].id)
    && (forall i :: 0 <= i < |rows| ==> rows[i].id < nextId && rows[i].createdAt <= rows[i].updatedAt)
  }

  ghost predicate ProverbIdsValid(rows: seq<Proverb>, nextId: nat)
  {
    && (forall i, j :: 0 <= i < j < |rows| ==> rows[i].id < rows[j].id)
    && (forall i :: 0 <= i < |rows| ==> rows[i].id < nextId)
  }

  ghost predicate ToneMarkingIdsValid(rows: seq<ToneMarking>, nextId: nat)
  {
    && (forall i, j :: 0 <= i < j < |rows| ==> rows[i].id < rows[j].id)
    && (forall i :: 0 <= i < |rows| ==> rows[i].id < nextId)
  }

  /** The committed contents of the database as a request sees them. */
  class Session {
    var translations: seq<Translation>
    var proverbs: seq<Proverb>
    var toneMarkings: seq<ToneMarking>
    var nextTranslationId: nat
    var nextProverbId: nat
    var nextToneMarkingId: nat

    ghost predicate Valid()
      reads this
    {
      && TranslationIdsValid(translations, nextTranslationId)
      && ProverbIdsValid(proverbs, nextProverbId)
      && ToneMarkingIdsValid(toneMarkings, nextToneMarkingId)
    }

    /** A freshly created database: three empty tables whose ids start at 1. */
    constructor ()
      ensures Valid()
      ensures translations == [] && proverbs == [] && toneMarkings == []
      ensures nextTranslationId == 1 && nextProverbId == 1 && nextToneMarkingId == 1
    {
      translations, proverbs, toneMarkings := [], [], [];
      nextTranslationId, nextProverbId, nextToneMarkingId := 1, 1, 1;
    }

    /** `db.add(Translation(**data))` followed by a successful commit. */
    method AddTranslation(data: NewTranslation, now: Timestamp) returns (t: Translation)
      requires Valid()
      modifies this
      ensures Valid()
      ensures t == TranslationRow(data, old(nextTranslationId), now)
      ensures translations == old(translations) + [t]
      ensures nextTranslationId == old(nextTranslationId) + 1
      ensures proverbs == old(proverbs) && nextProverbId == old(nextProverbId)
      ensures toneMarkings == old(toneMarkings) && nextToneMarkingId == old(nextToneMarkingId)
    {
      t := TranslationRow(data, nextTranslationId, now);
      translations := translations + [t];
      nextTranslationId := nextTranslationId + 1;
    }

    /** `db.add(Proverb(**data))` followed by a successful commit. */
    method AddProverb(data: NewProverb, now: Timestamp) returns (p: Proverb)
      requires Valid()
      modifies this
      ensures Valid()
      ensures p == ProverbRow(data, old(nextProverbId), now)
      ensures proverbs == old(proverbs) + [p]
      ensures nextProverbId == old(nextProverbId) + 1
      ensures translations == old(translations) && nextTranslationId == old(nextTranslationId)
      ensures toneMarkings == old(toneMarkings) && nextToneMarkingId == old(nextToneMarkingId)
    {
      p := ProverbRow(data, nextProverbId, now);
      proverbs := proverbs + [p];
      nextProverbId := nextProverbId + 1;
    }

    /** `db.add(ToneMarking(...))` followed by a successful commit. */
    method AddToneMarking(originalText: string, toneMarkedText: string, now: Timestamp) returns (e: ToneMarking)
      requires Valid()
      modifies this
      ensures Valid()
      ensures e == ToneMarking(old(nextToneMarkingId), originalText, toneMarkedText, now)
      ensures toneMarkings == old(toneMarkings) + [e]
      ensures nextToneMarkingId == old(nextToneMarkingId) + 1
      ensures translations == old(translations) && nextTranslationId == old(nextTranslationId)
      ensures proverbs == old(proverbs) && nextProverbId == old(nextProverbId)
    {
      e := ToneMarking(nextToneMarkingId, originalText, toneMarkedText, now);
      toneMarkings := toneMarkings + [e];
      nextToneMarkingId := nextToneMarkingId + 1;
    }
  }
}
