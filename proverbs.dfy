/** The proverb routes of app/routes/proverbs.py over the in-memory store:
    listing with an optional category filter, a random pick, creation and
    lookup by id. */
module ProverbRoutes {
  import opened Common
  import opened Sql
  import opened Http
  import opened Database

  const NoProverbsDetail: string := "No proverbs available"
  const NotFoundDetail: string := "Proverb not found"

  /** `filter(Proverb.category == c)`: the proverbs of category `c`, in store
      order. A proverb without a category never matches (SQL NULL). */
  function InCategory(rows: seq<Proverb>, c: string): (r: seq<Proverb>)
    ensures |r| <= |rows|
    ensures forall p :: p in r <==> p in rows && p.category == Some(c)
  {
    if rows == [] then []
    else
      var rest := InCategory(rows[1..], c);
      assert forall p :: p in rows <==> p == rows[0] || p in rows[1..];
      if rows[0].category == Some(c) then [rows[0]] + rest else rest
  }

  /** Filtering a concatenation filters each part: the filter keeps the
      order of the store. */
  lemma {:induction false} InCategoryAppend(a: seq<Proverb>, b: seq<Proverb>, c: string)
    ensures InCategory(a + b, c) == InCategory(a, c) + InCategory(b, c)
    decreases |a|
  {
    if a == [] {
      assert a + b == b;
    } else {
      assert (a + b)[1..] == a[1..] + b;
      InCategoryAppend(a[1..], b, c);
    }
  }

  /** `GET /proverbs`: the (filtered) store from `skip` on, at most `limit`
      proverbs. A missing or empty category means no filter. */
  function GetAllProverbs(db: Session, skip: int, limit: int, category: Option<string>): (r: Response<seq<Proverb>>)
    reads db
    ensures r.HttpError? <==> skip < 0 || limit < 1 || limit > 1000
    ensures r.HttpError? ==> r.status == UnprocessableEntity
    ensures r.Success? ==> |r.body| <= limit
    ensures r.Success? && (category.None? || category.value == "") ==> r.body == Page(db.proverbs, skip, limit)
    ensures r.Success? && category.Some? && category.value != "" ==>
      r.body == Page(InCategory(db.proverbs, category.value), skip, limit)
    ensures r.Success? ==> forall p :: p in r.body ==>
      p in db.proverbs && (category.Some? && category.value != "" ==> p.category == category)
  {
    if skip < 0 || limit < 1 || limit > 1000 then HttpError(UnprocessableEntity, ValidationDetail)
    else
      var rows := if category.Some? && category.value != "" then InCategory(db.proverbs, category.value) else db.proverbs;
      var page := Page(rows, skip, limit);
      assert forall p :: p in page ==> p in rows;
      Success(page)
  }

  /** `GET /proverbs/random`: `pick` stands for the draw of
      `random.randint(0, total - 1)`, taken modulo the store size. */
  function GetRandomProverb(db: Session, pick: nat): (r: Response<Proverb>)
    reads db
    ensures r.HttpError? <==> |db.proverbs| == 0
    ensures r.HttpError? ==> r == HttpError(404, NoProverbsDetail)
    ensures r.Success? ==> r.body in db.proverbs
  {
    var total := |db.proverbs|;
    if total == 0 then HttpError(404, NoProverbsDetail)
    else
      var page := Page(db.proverbs, pick % total, 1);
      Success(page[0])
  }

  /** Every stored proverb can come out of the random pick. */
  lemma EveryProverbCanBePicked(db: Session, i: nat)
    requires i < |db.proverbs|
    ensures GetRandomProverb(db, i) == Success(db.proverbs[i])
  {
    assert i % |db.proverbs| == i;
  }

  /** `POST /proverbs`: the proverb is stored as given and returned. */
  method CreateProverb(db: Session, data: NewProverb, now: Timestamp) returns (p: Proverb)
    requires db.Valid()
    modifies db
    ensures db.Valid()
    ensures p == ProverbRow(data, old(db.nextProverbId), now)
    ensures db.proverbs == old(db.proverbs) + [p] && db.nextProverbId == old(db.nextProverbId) + 1
    ensures db.translations == old(db.translations) && db.nextTranslationId == old(db.nextTranslationId)
    ensures db.toneMarkings == old(db.toneMarkings) && db.nextToneMarkingId == old(db.nextToneMarkingId)
  {
    p := db.AddProverb(data, now);
  }

  /** The earliest proverb whose id is `id`. */
  function FindProverb(rows: seq<Proverb>, id: int): (r: Option<nat>)
    ensures r.Some? ==> r.value < |rows| && rows[r.value].id == id
    ensures r.Some? ==> forall j :: 0 <= j < r.value ==> rows[j].id != id
    ensures r.None? ==> forall j :: 0 <= j < |rows| ==> rows[j].id != id
  {
    if rows == [] then None
    else if rows[0].id == id then Some(0)
    else match FindProverb(rows[1..], id)
      case None => None
      case Some(k) => Some(k + 1)
  }

  /** `GET /proverbs/{proverb_id}`. */
  function GetProverb(db: Session, proverbId: int): (r: Response<Proverb>)
    reads db
    ensures r.Success? ==> r.body in db.proverbs && r.body.id == proverbId
    ensures r.HttpError? <==> forall j :: 0 <= j < |db.proverbs| ==> db.proverbs[j].id != proverbId
    ensures r.HttpError? ==> r == HttpError(404, NotFoundDetail)
  {
    match FindProverb(db.proverbs, proverbId)
    case Some(i) => Success(db.proverbs[i])
    case None => HttpError(404, NotFoundDetail)
  }

  /** Ids are unique, so a lookup by the id of a stored proverb finds that
      very proverb. */
  lemma LookupById(rows: seq<Proverb>, nextId: nat, i: nat)
    requires ProverbIdsValid(rows, nextId) && i < |rows|
    ensures FindProverb(rows, rows[i].id) == Some(i)
  {
  }

  /** A proverb just created is found again under the id it was given. */
  lemma CreatedProverbFound(rows: seq<Proverb>, nextId: nat, data: NewProverb, now: Timestamp)
    requires ProverbIdsValid(rows, nextId)
    ensures FindProverb(rows + [ProverbRow(data, nextId, now)], nextId) == Some(|rows|)
  {
    var rows' := rows + [ProverbRow(data, nextId, now)];
    assert forall j :: 0 <= j < |rows| ==> rows'[j] == rows[j];
    assert rows'[|rows|].id == nextId;
  }
}
