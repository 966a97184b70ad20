/** The tone-marking routes of app/routes/tone_marking.py: marking a text
    and recording the request in the audit log, and paging through that log. */
module ToneMarkingRoutes {
  import opened Common
  import opened Sql
  import opened Http
  import opened Database
  import opened ToneService

  datatype ToneMarkingResponse = ToneMarkingResponse(original: string, toneMarked: string)

  const ProcessingErrorPrefix: string := "Error processing tone marking: "

  /** The response a log entry is shown as. */
  function EntryResponse(e: ToneMarking): ToneMarkingResponse
  {
    ToneMarkingResponse(e.originalText, e.toneMarkedText)
  }

  /** `POST /tone-mark`: the marked text is returned and one entry holding
      the request and its result is appended to the log; if the commit fails
      (`commitError` carries the database's message) the answer is 500 and
      the log is as before. */
  method MarkTones(db: Session, text: string, now: Timestamp, commitError: Option<string>)
    returns (resp: Response<ToneMarkingResponse>)
    requires db.Valid()
    modifies db
    ensures db.Valid()
    ensures commitError.None? ==>
      && resp == Success(ToneMarkingResponse(text, ApplyRules(text, Rules)))
      && db.toneMarkings == old(db.toneMarkings) + [ToneMarking(old(db.nextToneMarkingId), text, ApplyRules(text, Rules), now)]
      && db.nextToneMarkingId == old(db.nextToneMarkingId) + 1
      && db.translations == old(db.translations) && db.nextTranslationId == old(db.nextTranslationId)
      && db.proverbs == old(db.proverbs) && db.nextProverbId == old(db.nextProverbId)
    ensures commitError.Some? ==>
      resp == HttpError(500, ProcessingErrorPrefix + commitError.value) && unchanged(db)
  {
    var toneMarked := AddToneMarks(text);
    if commitError.Some? {
      return HttpError(500, ProcessingErrorPrefix + commitError.value);
    }
    var entry := db.AddToneMarking(text, toneMarked, now);
    resp := Success(ToneMarkingResponse(text, toneMarked));
  }

  /** `GET /tone-mark/history`: the log from `skip` on, at most `limit`
      entries, oldest first. The two parameters are plain integers, so
      SQLite's reading of negative values applies. */
  function GetToneMarkingHistory(db: Session, skip: int, limit: int): (r: seq<ToneMarkingResponse>)
    reads db
    ensures limit >= 0 ==> |r| <= limit
    ensures limit >= 0 ==> |r| == Min(limit, |db.toneMarkings| - Min(Max(skip, 0), |db.toneMarkings|))
    ensures limit < 0 ==> |r| == |db.toneMarkings| - Min(Max(skip, 0), |db.toneMarkings|)
    ensures forall k :: 0 <= k < |r| ==>
      Max(skip, 0) + k < |db.toneMarkings| && r[k] == EntryResponse(db.toneMarkings[Max(skip, 0) + k])
  {
    var page := Page(db.toneMarkings, skip, limit);
    seq(|page|, k requires 0 <= k < |page| => EntryResponse(page[k]))
  }

  /** With the default parameters the history is the oldest hundred entries,
      or all of them when there are fewer. */
  lemma HistoryDefaults(db: Session)
    ensures var r := GetToneMarkingHistory(db, 0, 100);
      && |r| == Min(100, |db.toneMarkings|)
      && forall k :: 0 <= k < |r| ==> r[k] == EntryResponse(db.toneMarkings[k])
  {
  }

  /** A text just marked is the newest entry of the history: the page that
      starts at the previous length of the log holds exactly that request
      and its marked text. */
  lemma NewestEntryShown(db: Session, previous: seq<ToneMarking>, text: string, id: nat, now: Timestamp, limit: int)
    requires db.toneMarkings == previous + [ToneMarking(id, text, ApplyRules(text, Rules), now)]
    requires limit != 0
    ensures GetToneMarkingHistory(db, |previous|, limit) == [ToneMarkingResponse(text, ApplyRules(text, Rules))]
  {
    var r := GetToneMarkingHistory(db, |previous|, limit);
    assert |r| == 1;
    assert db.toneMarkings[|previous|] == ToneMarking(id, text, ApplyRules(text, Rules), now);
  }
}
