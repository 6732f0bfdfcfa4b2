/**
 * The request handlers of backend/main.py over the `quizzes` table: POST
 * /generate-quiz (validate, look up by URL, scrape, generate, insert),
 * GET /quizzes and GET /quizzes/{quiz_id}.
 *
 * The URL validator, the scraper, the language model and the JSON codec are
 * parameters (Services). A handler's visible calls are recorded as Effects, so
 * that "nothing is scraped or inserted" can be stated.
 */
module QuizApi {
  import opened Wrappers
  import opened Json
  import opened Schemas
  import opened Database
  import opened HistoryOrder
  import LlmQuizGenerator

  /** HTTPException(400), HTTPException(404), or a 500 from a raised error or a failed response_model. */
  datatype HttpError = BadRequest(detail: string) | NotFound(detail: string) | InternalError

  /** What scrape_wikipedia returns: the article text and the page title, either of which may be None or "". */
  datatype Scraped = Scraped(text: Option<string>, title: Option<string>)

  datatype Services = Services(
    validateUrl: string -> bool,
    scrape: string -> Scraped,
    generator: LlmQuizGenerator.Collaborators,
    json: Codec)

  /** The calls a request makes, in order. */
  datatype Effect = LookupUrl(url: string) | ScrapeUrl(url: string) | GenerateFrom(text: string) | InsertRow(id: int)

  /** The table after a request, the id the database hands out next, and the request's effects. */
  datatype Step = Step(
    response: Result<QuizResponse, HttpError>,
    rows: seq<QuizRow>,
    nextId: int,
    effects: seq<Effect>)

  const InvalidUrl := "Invalid Wikipedia URL"
  const ScrapeFailed := "Failed to scrape Wikipedia article"
  const QuizNotFound := "Quiz not found"
  const UnknownTitle := "Unknown Title"

  /**
   * Every row has a unique id, drawn from 1 up to the next autoincrement value.
   * url and title are never null: they are strings in QuizRow.
   */
  ghost predicate TableInvariant(rows: seq<QuizRow>, nextId: int)
  {
    1 <= nextId
    && (forall i :: 0 <= i < |rows| ==> 1 <= rows[i].id < nextId)
    && (forall i, j :: 0 <= i < j < |rows| ==> rows[i].id != rows[j].id)
  }

  /**
   * Every row's full_quiz_data is the dumped dictionary of some payload, which
   * is how generate_quiz, the only writer of the table, stores it.
   */
  ghost predicate StoresPayloads(rows: seq<QuizRow>, json: Codec)
  {
    forall i :: 0 <= i < |rows| ==> exists p :: rows[i].fullQuizData == Some(json.dumps(PayloadToJson(p)))
  }

  /** No two rows share a URL. */
  ghost predicate UrlsUnique(rows: seq<QuizRow>)
  {
    forall i, j :: 0 <= i < j < |rows| ==> rows[i].url != rows[j].url
  }

  /** `title or "Unknown Title"`. */
  function TitleOrDefault(title: Option<string>): (r: string)
    ensures r != ""
    ensures Truthy(title) ==> r == title.value
    ensures !Truthy(title) ==> r == UnknownTitle
  {
    if Truthy(title) then title.value else UnknownTitle
  }

  /** `query(Quiz).filter(Quiz.url == url).first()`, in table order. */
  function FindByUrl(rows: seq<QuizRow>, url: string): (r: Option<QuizRow>)
    ensures r.None? <==> forall i :: 0 <= i < |rows| ==> rows[i].url != url
    ensures r.Some? ==> exists i :: 0 <= i < |rows| && rows[i] == r.value && rows[i].url == url
                                    && forall k :: 0 <= k < i ==> rows[k].url != url
  {
    if rows == [] then None
    else if rows[0].url == url then Some(rows[0])
    else
      var r := FindByUrl(rows[1..], url);
      assert forall i :: 1 <= i < |rows| ==> rows[i] == rows[1..][i - 1];
      if r.Some? then
        ghost var i :| 0 <= i < |rows[1..]| && rows[1..][i] == r.value && rows[1..][i].url == url
                      && forall k :: 0 <= k < i ==> rows[1..][k].url != url;
        assert rows[i + 1] == r.value && forall k :: 0 <= k < i + 1 ==> rows[k].url != url;
        r
      else r
  }

  /** `query(Quiz).filter(Quiz.id == quiz_id).first()`. */
  function FindById(rows: seq<QuizRow>, id: int): (r: Option<QuizRow>)
    ensures r.None? <==> forall i :: 0 <= i < |rows| ==> rows[i].id != id
    ensures r.Some? ==> r.value in rows && r.value.id == id
  {
    if rows == [] then None
    else if rows[0].id == id then Some(rows[0])
    else
      var r := FindById(rows[1..], id);
      assert forall i :: 1 <= i < |rows| ==> rows[i] == rows[1..][i - 1];
      r
  }

  /**
   * `{"id": id, "url": url, "title": title, **data}` returned through
   * response_model=QuizResponse. Spreading a value that is not a mapping raises,
   * and so does a dictionary the response model rejects; both are a 500.
   * Keys of data override the header keys, as in a Python dict display.
   */
  function Respond(id: int, url: string, title: string, data: Json): (r: Result<QuizResponse, HttpError>)
    ensures r.Ok? <==> data.Obj? && ResponseFromJson(Obj(Header(id, url, title) + data.fields)).Some?
    ensures r.Ok? ==> Some(r.value) == ResponseFromJson(Obj(Header(id, url, title) + data.fields))
    ensures r.Err? ==> r.error == InternalError
  {
    if !data.Obj? then Err(InternalError)
    else match ResponseFromJson(Obj(Header(id, url, title) + data.fields))
      case None => Err(InternalError)
      case Some(resp) => Ok(resp)
  }

  /** A stored row as a response: its header columns spread with get_quiz_data(). */
  function RowResponse(row: QuizRow, json: Codec): (r: Result<QuizResponse, HttpError>)
    ensures GetQuizData(row.fullQuizData, json).None? ==> r == Err(InternalError)
  {
    match GetQuizData(row.fullQuizData, json)
    case None => Err(InternalError)
    case Some(data) => Respond(row.id, row.url, row.title, data)
  }

  /** The row generate_quiz inserts for a scraped article and the payload generated from it. */
  function NewRow(id: int, url: string, scraped: Scraped, p: QuizPayload, json: Codec, now: int): (row: QuizRow)
    requires Truthy(scraped.text)
    ensures row.id == id && row.url == url && row.dateGenerated == now
    ensures row.title == TitleOrDefault(scraped.title) && row.scrapedContent == scraped.text
    ensures row.fullQuizData == Some(json.dumps(PayloadToJson(p)))
  {
    QuizRow(id, url, TitleOrDefault(scraped.title), now, scraped.text, Some(json.dumps(PayloadToJson(p))))
  }

  /**
   * generate_quiz as a function of the table: the response, the new table, the
   * next id, and the calls made. `now` is the clock reading the date default takes.
   */
  function GenerateStep(rows: seq<QuizRow>, nextId: int, url: string, env: Services, now: int): (st: Step)
    ensures !env.validateUrl(url) ==>
      st == Step(Err(BadRequest(InvalidUrl)), rows, nextId, [])
    ensures env.validateUrl(url) && FindByUrl(rows, url).Some? ==>
      st == Step(RowResponse(FindByUrl(rows, url).value, env.json), rows, nextId, [LookupUrl(url)])
    ensures env.validateUrl(url) && FindByUrl(rows, url).None? && !Truthy(env.scrape(url).text) ==>
      st == Step(Err(BadRequest(ScrapeFailed)), rows, nextId, [LookupUrl(url), ScrapeUrl(url)])
    ensures |st.rows| == |rows| + 1 <==> InsertRow(nextId) in st.effects
    ensures st.rows == rows || (|st.rows| == |rows| + 1 && st.rows[..|rows|] == rows && st.nextId == nextId + 1)
    ensures st.rows == rows ==> st.nextId == nextId
  {
    if !env.validateUrl(url) then Step(Err(BadRequest(InvalidUrl)), rows, nextId, [])
    else match FindByUrl(rows, url)
      case Some(existing) => Step(RowResponse(existing, env.json), rows, nextId, [LookupUrl(url)])
      case None =>
        var scraped := env.scrape(url);
        if !Truthy(scraped.text) then
          Step(Err(BadRequest(ScrapeFailed)), rows, nextId, [LookupUrl(url), ScrapeUrl(url)])
        else
          var p := LlmQuizGenerator.GenerateQuiz(scraped.text.value, env.generator, env.json);
          var row := NewRow(nextId, url, scraped, p, env.json, now);
          Step(Respond(nextId, url, row.title, PayloadToJson(p)), rows + [row], nextId + 1,
               [LookupUrl(url), ScrapeUrl(url), GenerateFrom(scraped.text.value), InsertRow(nextId)])
  }

  /** get_quiz_history: every row as a history entry, newest first. */
  function GetQuizHistory(rows: seq<QuizRow>): (r: seq<QuizHistory>)
    ensures |r| == |rows|
  {
    SortQuizzes(seq(|rows|, i requires 0 <= i < |rows| => HistoryEntry(rows[i])), Newest)
  }

  function HistoryEntry(row: QuizRow): (h: QuizHistory)
    ensures h.id == row.id && h.url == row.url && h.title == row.title && h.dateGenerated == row.dateGenerated
  {
    QuizHistory(row.id, row.url, row.title, row.dateGenerated)
  }

  /** get_quiz: 404 for an unknown id, otherwise the row's response. */
  function GetQuiz(rows: seq<QuizRow>, id: int, json: Codec): (r: Result<QuizResponse, HttpError>)
    ensures (forall i :: 0 <= i < |rows| ==> rows[i].id != id) <==> r == Err(NotFound(QuizNotFound))
  {
    match FindById(rows, id)
    case None => Err(NotFound(QuizNotFound))
    case Some(row) =>
      var r := RowResponse(row, json);
      assert r != Err(NotFound(QuizNotFound));
      r
  }

  // ---------------------------------------------------------------- properties

  /** The first row for a URL stays the first after a row is appended. */
  lemma {:induction false} FindByUrlAppend(rows: seq<QuizRow>, row: QuizRow, url: string)
    ensures FindByUrl(rows + [row], url)
         == if FindByUrl(rows, url).Some? then FindByUrl(rows, url)
            else if row.url == url then Some(row) else None
  {
    if rows != [] {
      assert (rows + [row])[1..] == rows[1..] + [row];
      FindByUrlAppend(rows[1..], row, url);
    }
  }

  lemma {:induction false} FindByIdAppend(rows: seq<QuizRow>, row: QuizRow, id: int)
    ensures FindById(rows + [row], id)
         == if FindById(rows, id).Some? then FindById(rows, id)
            else if row.id == id then Some(row) else None
  {
    if rows != [] {
      assert (rows + [row])[1..] == rows[1..] + [row];
      FindByIdAppend(rows[1..], row, id);
    }
  }

  /**
   * A fresh quiz is always answered with its header and payload: the payload's
   * dictionary carries none of the header keys and always passes the response model.
   */
  lemma GeneratedResponse(rows: seq<QuizRow>, nextId: int, url: string, env: Services, now: int)
    requires env.validateUrl(url) && FindByUrl(rows, url).None? && Truthy(env.scrape(url).text)
    ensures var scraped := env.scrape(url);
      var p := LlmQuizGenerator.GenerateQuiz(scraped.text.value, env.generator, env.json);
      var st := GenerateStep(rows, nextId, url, env, now);
      st.response == Ok(WithHeader(nextId, url, TitleOrDefault(scraped.title), p))
      && st.rows == rows + [NewRow(nextId, url, scraped, p, env.json, now)]
      && st.effects == [LookupUrl(url), ScrapeUrl(url), GenerateFrom(scraped.text.value), InsertRow(nextId)]
  {
    var scraped := env.scrape(url);
    var p := LlmQuizGenerator.GenerateQuiz(scraped.text.value, env.generator, env.json);
    ResponseRoundTrip(nextId, url, TitleOrDefault(scraped.title), p);
  }

  /** The inserting path of generate_quiz, as one step. */
  lemma InsertingStep(rows: seq<QuizRow>, nextId: int, url: string, env: Services, now: int)
    requires env.validateUrl(url) && FindByUrl(rows, url).None? && Truthy(env.scrape(url).text)
    ensures var scraped := env.scrape(url);
      var p := LlmQuizGenerator.GenerateQuiz(scraped.text.value, env.generator, env.json);
      GenerateStep(rows, nextId, url, env, now)
      == Step(Respond(nextId, url, TitleOrDefault(scraped.title), PayloadToJson(p)),
              rows + [NewRow(nextId, url, scraped, p, env.json, now)], nextId + 1,
              [LookupUrl(url), ScrapeUrl(url), GenerateFrom(scraped.text.value), InsertRow(nextId)])
  {
  }

  /** generate_quiz keeps ids unique and below the next autoincrement value. */
  lemma GeneratePreservesInvariant(rows: seq<QuizRow>, nextId: int, url: string, env: Services, now: int)
    requires TableInvariant(rows, nextId)
    ensures var st := GenerateStep(rows, nextId, url, env, now);
      TableInvariant(st.rows, st.nextId)
  {
    if env.validateUrl(url) && FindByUrl(rows, url).None? && Truthy(env.scrape(url).text) {
      InsertingStep(rows, nextId, url, env, now);
      var scraped := env.scrape(url);
      var p := LlmQuizGenerator.GenerateQuiz(scraped.text.value, env.generator, env.json);
      InvariantAppend(rows, nextId, NewRow(nextId, url, scraped, p, env.json, now));
    }
  }

  /** Appending a row that carries the next id, and advancing the counter, keeps the invariant. */
  lemma InvariantAppend(rows: seq<QuizRow>, nextId: int, row: QuizRow)
    requires TableInvariant(rows, nextId) && row.id == nextId
    ensures TableInvariant(rows + [row], nextId + 1)
  {
    var rs := rows + [row];
    assert forall i :: 0 <= i < |rows| ==> rs[i] == rows[i];
  }

  /** generate_quiz never inserts a second row for a URL already stored. */
  lemma GeneratePreservesUrlsUnique(rows: seq<QuizRow>, nextId: int, url: string, env: Services, now: int)
    requires UrlsUnique(rows)
    ensures UrlsUnique(GenerateStep(rows, nextId, url, env, now).rows)
  {
    if env.validateUrl(url) && FindByUrl(rows, url).None? && Truthy(env.scrape(url).text) {
      InsertingStep(rows, nextId, url, env, now);
      var st := GenerateStep(rows, nextId, url, env, now);
      assert st.rows[|rows|].url == url;
      assert forall i :: 0 <= i < |rows| ==> st.rows[i] == rows[i];
    }
  }

  /** generate_quiz only ever stores dumped payloads. */
  lemma GeneratePreservesStoredPayloads(rows: seq<QuizRow>, nextId: int, url: string, env: Services, now: int)
    requires StoresPayloads(rows, env.json)
    ensures StoresPayloads(GenerateStep(rows, nextId, url, env, now).rows, env.json)
  {
    if env.validateUrl(url) && FindByUrl(rows, url).None? && Truthy(env.scrape(url).text) {
      InsertingStep(rows, nextId, url, env, now);
      var scraped := env.scrape(url);
      var p := LlmQuizGenerator.GenerateQuiz(scraped.text.value, env.generator, env.json);
      StoresAppend(rows, env.json, NewRow(nextId, url, scraped, p, env.json, now), p);
    }
  }

  lemma StoresAppend(rows: seq<QuizRow>, json: Codec, row: QuizRow, p: QuizPayload)
    requires StoresPayloads(rows, json) && row.fullQuizData == Some(json.dumps(PayloadToJson(p)))
    ensures StoresPayloads(rows + [row], json)
  {
    var rs := rows + [row];
    assert forall i :: 0 <= i < |rows| ==> rs[i] == rows[i];
  }

  /** A row holding a dumped payload is answered with its own header columns and that payload. */
  lemma StoredRowResponse(row: QuizRow, p: QuizPayload, json: Codec)
    requires WellBehaved(json) && row.fullQuizData == Some(json.dumps(PayloadToJson(p)))
    ensures RowResponse(row, json) == Ok(WithHeader(row.id, row.url, row.title, p))
  {
    SetThenGet(PayloadToJson(p), json);
    ResponseRoundTrip(row.id, row.url, row.title, p);
  }

  /**
   * GET /quizzes/{id} on any stored id answers 200 with that row's id, url and
   * title and the payload stored in it.
   */
  lemma GetKnownQuiz(rows: seq<QuizRow>, id: int, json: Codec)
    requires StoresPayloads(rows, json) && WellBehaved(json)
    requires exists i :: 0 <= i < |rows| && rows[i].id == id
    ensures FindById(rows, id).Some?
    ensures var row := FindById(rows, id).value;
      exists p :: row.fullQuizData == Some(json.dumps(PayloadToJson(p)))
                  && GetQuiz(rows, id, json) == Ok(WithHeader(id, row.url, row.title, p))
  {
    var row := FindById(rows, id).value;
    var i :| 0 <= i < |rows| && rows[i] == row;
    var p :| rows[i].fullQuizData == Some(json.dumps(PayloadToJson(p)));
    StoredRowResponse(row, p, json);
  }

  /**
   * Idempotence: once a request for url has succeeded, repeating it returns the
   * same response (even when the stored payload is the fallback) and only looks
   * the URL up: nothing is scraped, generated or inserted.
   */
  lemma GenerateIdempotent(rows: seq<QuizRow>, nextId: int, url: string, env: Services, now: int, later: int)
    requires WellBehaved(env.json)
    requires GenerateStep(rows, nextId, url, env, now).response.Ok?
    ensures var st := GenerateStep(rows, nextId, url, env, now);
      var again := GenerateStep(st.rows, st.nextId, url, env, later);
      again.response == st.response && again.rows == st.rows && again.nextId == st.nextId
      && again.effects == [LookupUrl(url)]
  {
    var st := GenerateStep(rows, nextId, url, env, now);
    match FindByUrl(rows, url)
    case Some(existing) =>
    case None =>
      var scraped := env.scrape(url);
      var p := LlmQuizGenerator.GenerateQuiz(scraped.text.value, env.generator, env.json);
      var row := NewRow(nextId, url, scraped, p, env.json, now);
      FindByUrlAppend(rows, row, url);
      SetThenGet(PayloadToJson(p), env.json);
  }

  /** GET /quizzes/{id} for the id just generated returns what generate returned. */
  lemma GetAfterGenerate(rows: seq<QuizRow>, nextId: int, url: string, env: Services, now: int)
    requires TableInvariant(rows, nextId) && WellBehaved(env.json)
    requires env.validateUrl(url) && FindByUrl(rows, url).None? && Truthy(env.scrape(url).text)
    ensures var st := GenerateStep(rows, nextId, url, env, now);
      GetQuiz(st.rows, nextId, env.json) == st.response
  {
    var scraped := env.scrape(url);
    var p := LlmQuizGenerator.GenerateQuiz(scraped.text.value, env.generator, env.json);
    var row := NewRow(nextId, url, scraped, p, env.json, now);
    FindByIdAppend(rows, row, nextId);
    SetThenGet(PayloadToJson(p), env.json);
  }

  /** get_quiz_history lists every row exactly once, newest first, with only the history columns. */
  lemma HistoryIsNewestFirstPermutation(rows: seq<QuizRow>)
    ensures var r := GetQuizHistory(rows);
      multiset(r) == multiset(seq(|rows|, i requires 0 <= i < |rows| => HistoryEntry(rows[i])))
      && forall i, j :: 0 <= i < j < |r| ==> r[i].dateGenerated >= r[j].dateGenerated
  {
    var entries := seq(|rows|, i requires 0 <= i < |rows| => HistoryEntry(rows[i]));
    SortIsOrderedPermutation(entries, Newest);
    SortByDate(entries);
  }

  /** A row is in the history exactly when it is in the table. */
  lemma HistoryListsEveryRow(rows: seq<QuizRow>, row: QuizRow)
    ensures row in rows ==> HistoryEntry(row) in GetQuizHistory(rows)
    ensures forall h :: h in GetQuizHistory(rows) ==> exists i :: 0 <= i < |rows| && h == HistoryEntry(rows[i])
  {
    var entries := seq(|rows|, i requires 0 <= i < |rows| => HistoryEntry(rows[i]));
    var hist := GetQuizHistory(rows);
    SortIsOrderedPermutation(entries, Newest);
    assert multiset(hist) == multiset(entries);
    if row in rows {
      var i :| 0 <= i < |rows| && rows[i] == row;
      assert entries[i] == HistoryEntry(row);
      assert HistoryEntry(row) in multiset(entries);
    }
    forall h | h in hist
      ensures exists i :: 0 <= i < |rows| && h == HistoryEntry(rows[i])
    {
      assert h in multiset(entries);
      var i :| 0 <= i < |entries| && entries[i] == h;
    }
  }

  /**
   * The quizzes table together with the database's autoincrement counter;
   * generate_quiz is the one handler that changes it.
   */
  class QuizTable {
    var rows: seq<QuizRow>
    var nextId: int

    ghost predicate Valid()
      reads this
    {
      TableInvariant(rows, nextId)
    }

    constructor ()
      ensures Valid() && rows == [] && nextId == 1
    {
      rows := [];
      nextId := 1;
    }

    /**
     * db.add, db.commit and db.refresh: the database assigns the next id, applies
     * the date default when no date was set, and appends the row.
     */
    method Add(q: Quiz, now: int)
      requires Valid() && q.id.None?
      modifies this, q`id, q`dateGenerated
      ensures Valid()
      ensures q.id == Some(old(nextId)) && nextId == old(nextId) + 1
      ensures q.dateGenerated == (if old(q.dateGenerated).None? then Some(now) else old(q.dateGenerated))
      ensures rows == old(rows) + [q.Row()]
    {
      q.id := Some(nextId);
      if q.dateGenerated.None? {
        q.dateGenerated := Some(now);
      }
      rows := rows + [q.Row()];
      nextId := nextId + 1;
    }

    /**
     * The inserting half of generate_quiz: build the ORM object, store the
     * payload dictionary in it, and insert it. The new row's id is returned.
     */
    method InsertQuiz(url: string, scraped: Scraped, p: QuizPayload, json: Codec, now: int) returns (id: int)
      requires Valid() && Truthy(scraped.text)
      modifies this
      ensures Valid() && id == old(nextId) && nextId == old(nextId) + 1
      ensures rows == old(rows) + [NewRow(id, url, scraped, p, json, now)]
    {
      var q := new Quiz(url, TitleOrDefault(scraped.title), scraped.text);
      q.SetQuizData(PayloadToJson(p), json);
      Add(q, now);
      id := q.id.value;
      assert q.Row() == NewRow(id, url, scraped, p, json, now);
    }

    /** POST /generate-quiz; `effects` records the calls made, in order. */
    method GenerateQuiz(url: string, env: Services, now: int) returns (r: Result<QuizResponse, HttpError>, ghost effects: seq<Effect>)
      requires Valid()
      modifies this
      ensures Valid()
      ensures Step(r, rows, nextId, effects) == GenerateStep(old(rows), old(nextId), url, env, now)
    {
      ghost var rows0, nextId0 := rows, nextId;
      if !env.validateUrl(url) {
        return Err(BadRequest(InvalidUrl)), [];
      }
      var existing := FindByUrl(rows, url);
      if existing.Some? {
        return RowResponse(existing.value, env.json), [LookupUrl(url)];
      }
      var scraped := env.scrape(url);
      if !Truthy(scraped.text) {
        return Err(BadRequest(ScrapeFailed)), [LookupUrl(url), ScrapeUrl(url)];
      }
      var p := LlmQuizGenerator.GenerateQuiz(scraped.text.value, env.generator, env.json);
      var id := InsertQuiz(url, scraped, p, env.json, now);
      r := Respond(id, url, TitleOrDefault(scraped.title), PayloadToJson(p));
      effects := [LookupUrl(url), ScrapeUrl(url), GenerateFrom(scraped.text.value), InsertRow(id)];
      InsertingStep(rows0, nextId0, url, env, now);
    }
  }
}
