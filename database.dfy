/**
 * The `quizzes` table of backend/database.py: a stored row as a value, and the
 * ORM object a request handler fills in before it is inserted.
 */
module Database {
  import opened Wrappers
  import opened Json

  /** A row as the database holds it; dates are millisecond timestamps. */
  datatype QuizRow = QuizRow(
    id: int,
    url: string,
    title: string,
    dateGenerated: int,
    scrapedContent: Option<string>,
    fullQuizData: Option<string>)

  /** Python truthiness of an optional text column: unset and "" are both false. */
  predicate Truthy(s: Option<string>)
  {
    s.Some? && s.value != ""
  }

  /**
   * Quiz.get_quiz_data on the full_quiz_data column: an empty mapping when the
   * column is unset or empty, otherwise json.loads of it (None where that raises).
   */
  function GetQuizData(fullQuizData: Option<string>, json: Codec): (r: Option<Json>)
    ensures !Truthy(fullQuizData) ==> r == Some(Obj(map[]))
    ensures Truthy(fullQuizData) ==> r == json.loads(fullQuizData.value)
  {
    if Truthy(fullQuizData) then json.loads(fullQuizData.value) else Some(Obj(map[]))
  }

  /** Reading back what set_quiz_data stored gives the dictionary that was stored. */
  lemma SetThenGet(data: Json, json: Codec)
    requires WellBehaved(json)
    ensures GetQuizData(Some(json.dumps(data)), json) == Some(data)
  {
    assert json.loads(json.dumps(data)) == Some(data) && json.dumps(data) != "";
  }

  /**
   * The ORM object. id and date_generated stay unset until the row is inserted;
   * then the database assigns the id and applies the date default.
   */
  class Quiz {
    var id: Option<int>
    var url: string
    var title: string
    var dateGenerated: Option<int>
    var scrapedContent: Option<string>
    var fullQuizData: Option<string>

    constructor (url: string, title: string, scrapedContent: Option<string>)
      ensures this.url == url && this.title == title && this.scrapedContent == scrapedContent
      ensures id == None && dateGenerated == None && fullQuizData == None
    {
      this.id := None;
      this.url := url;
      this.title := title;
      this.dateGenerated := None;
      this.scrapedContent := scrapedContent;
      this.fullQuizData := None;
    }

    /** Quiz.set_quiz_data: stores json.dumps(data) and touches no other column. */
    method SetQuizData(data: Json, json: Codec)
      modifies this`fullQuizData
      ensures fullQuizData == Some(json.dumps(data))
      ensures WellBehaved(json) ==> GetQuizData(fullQuizData, json) == Some(data)
      ensures id == old(id) && url == old(url) && title == old(title)
      ensures dateGenerated == old(dateGenerated) && scrapedContent == old(scrapedContent)
    {
      fullQuizData := Some(json.dumps(data));
      if WellBehaved(json) {
        SetThenGet(data, json);
      }
    }

    /** The stored row this object stands for, once it has been inserted. */
    function Row(): QuizRow
      reads this
      requires id.Some? && dateGenerated.Some?
    {
      QuizRow(id.value, url, title, dateGenerated.value, scrapedContent, fullQuizData)
    }
  }
}
