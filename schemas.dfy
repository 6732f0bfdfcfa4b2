/**
 * Record shapes of the HTTP API (backend/schemas.py) and of the generator's
 * output, together with their JSON forms: `.dict()` on a payload, and the
 * `response_model` validation FastAPI applies to the dictionary a handler returns.
 */
module Schemas {
  import opened Wrappers
  import opened Json

  datatype QuizQuestion = QuizQuestion(
    question: string,
    options: seq<string>,
    answer: string,
    difficulty: string,
    explanation: string)

  /** The generator's output (QuizOutput): a QuizResponse without id, url and title. */
  datatype QuizPayload = QuizPayload(
    summary: string,
    keyEntities: map<string, seq<string>>,
    sections: seq<string>,
    quiz: seq<QuizQuestion>,
    relatedTopics: seq<string>)

  datatype QuizResponse = QuizResponse(
    id: int,
    url: string,
    title: string,
    summary: string,
    keyEntities: map<string, seq<string>>,
    sections: seq<string>,
    quiz: seq<QuizQuestion>,
    relatedTopics: seq<string>)

  /** One entry of GET /quizzes; dates are millisecond timestamps. */
  datatype QuizHistory = QuizHistory(id: int, url: string, title: string, dateGenerated: int)

  function WithHeader(id: int, url: string, title: string, p: QuizPayload): QuizResponse
  {
    QuizResponse(id, url, title, p.summary, p.keyEntities, p.sections, p.quiz, p.relatedTopics)
  }

  // ---------------------------------------------------------------- encoding

  function StrsToJson(xs: seq<string>): Json
  {
    Arr(seq(|xs|, i requires 0 <= i < |xs| => Str(xs[i])))
  }

  function QuestionToJson(q: QuizQuestion): Json
  {
    Obj(map[
      "question" := Str(q.question),
      "options" := StrsToJson(q.options),
      "answer" := Str(q.answer),
      "difficulty" := Str(q.difficulty),
      "explanation" := Str(q.explanation)])
  }

  function QuestionsToJson(qs: seq<QuizQuestion>): Json
  {
    Arr(seq(|qs|, i requires 0 <= i < |qs| => QuestionToJson(qs[i])))
  }

  function EntitiesToJson(m: map<string, seq<string>>): Json
  {
    Obj(map k | k in m :: StrsToJson(m[k]))
  }

  /** `quiz_data.dict()`: the payload as a dictionary keyed by its field names. */
  function PayloadToJson(p: QuizPayload): Json
  {
    Obj(map[
      "summary" := Str(p.summary),
      "key_entities" := EntitiesToJson(p.keyEntities),
      "sections" := StrsToJson(p.sections),
      "quiz" := QuestionsToJson(p.quiz),
      "related_topics" := StrsToJson(p.relatedTopics)])
  }

  /** The three keys a handler writes before spreading the payload dictionary. */
  function Header(id: int, url: string, title: string): map<string, Json>
  {
    map["id" := Num(id), "url" := Str(url), "title" := Str(title)]
  }

  // ---------------------------------------------------------------- validation

  function StrsFromJson(j: Json): Option<seq<string>>
  {
    if j.Arr? && forall i :: 0 <= i < |j.items| ==> j.items[i].Str? then
      Some(seq(|j.items|, i requires 0 <= i < |j.items| && j.items[i].Str? => j.items[i].s))
    else
      None
  }

  function StrField(m: map<string, Json>, key: string): Option<string>
  {
    if key in m && m[key].Str? then Some(m[key].s) else None
  }

  function StrsField(m: map<string, Json>, key: string): Option<seq<string>>
  {
    if key in m then StrsFromJson(m[key]) else None
  }

  function QuestionFromJson(j: Json): Option<QuizQuestion>
  {
    if !j.Obj? then None
    else
      var m := j.fields;
      match (StrField(m, "question"), StrsField(m, "options"), StrField(m, "answer"),
             StrField(m, "difficulty"), StrField(m, "explanation"))
      case (Some(q), Some(o), Some(a), Some(d), Some(e)) => Some(QuizQuestion(q, o, a, d, e))
      case _ => None
  }

  function QuestionsFromJson(j: Json): Option<seq<QuizQuestion>>
  {
    if j.Arr? && forall i :: 0 <= i < |j.items| ==> QuestionFromJson(j.items[i]).Some? then
      Some(seq(|j.items|, i requires 0 <= i < |j.items| && QuestionFromJson(j.items[i]).Some? =>
        QuestionFromJson(j.items[i]).value))
    else
      None
  }

  function EntitiesFromJson(j: Json): Option<map<string, seq<string>>>
  {
    if j.Obj? && forall k :: k in j.fields ==> StrsFromJson(j.fields[k]).Some? then
      Some(map k | k in j.fields :: StrsFromJson(j.fields[k]).value)
    else
      None
  }

  /**
   * `response_model=QuizResponse`: the returned dictionary is accepted when every
   * field is present with its declared type; other keys are ignored.
   */
  function ResponseFromJson(j: Json): Option<QuizResponse>
  {
    if !j.Obj? || !("id" in j.fields && j.fields["id"].Num?) then None
    else
      var m := j.fields;
      var keyEntities := if "key_entities" in m then EntitiesFromJson(m["key_entities"]) else None;
      var quiz := if "quiz" in m then QuestionsFromJson(m["quiz"]) else None;
      match (StrField(m, "url"), StrField(m, "title"), StrField(m, "summary"), keyEntities,
             StrsField(m, "sections"), quiz, StrsField(m, "related_topics"))
      case (Some(u), Some(t), Some(s), Some(k), Some(sec), Some(q), Some(r)) =>
        Some(QuizResponse(m["id"].n, u, t, s, k, sec, q, r))
      case _ => None
  }

  // ---------------------------------------------------------------- round trips

  lemma StrsRoundTrip(xs: seq<string>)
    ensures StrsFromJson(StrsToJson(xs)) == Some(xs)
  {
    var j := StrsToJson(xs);
    assert forall i :: 0 <= i < |j.items| ==> j.items[i] == Str(xs[i]);
    assert StrsFromJson(j).value == xs;
  }

  lemma QuestionRoundTrip(q: QuizQuestion)
    ensures QuestionFromJson(QuestionToJson(q)) == Some(q)
  {
    StrsRoundTrip(q.options);
  }

  lemma QuestionsRoundTrip(qs: seq<QuizQuestion>)
    ensures QuestionsFromJson(QuestionsToJson(qs)) == Some(qs)
  {
    var j := QuestionsToJson(qs);
    forall i | 0 <= i < |qs|
      ensures QuestionFromJson(j.items[i]) == Some(qs[i])
    {
      QuestionRoundTrip(qs[i]);
    }
    assert QuestionsFromJson(j).value == qs;
  }

  lemma EntitiesRoundTrip(m: map<string, seq<string>>)
    ensures EntitiesFromJson(EntitiesToJson(m)) == Some(m)
  {
    var j := EntitiesToJson(m);
    forall k | k in j.fields
      ensures StrsFromJson(j.fields[k]) == Some(m[k])
    {
      StrsRoundTrip(m[k]);
    }
    assert EntitiesFromJson(j).value == m;
  }

  /**
   * A payload dictionary spread after a header validates to exactly that header
   * and payload: the payload never carries the keys id, url or title.
   */
  lemma ResponseRoundTrip(id: int, url: string, title: string, p: QuizPayload)
    ensures ResponseFromJson(Obj(Header(id, url, title) + PayloadToJson(p).fields))
         == Some(WithHeader(id, url, title, p))
  {
    MergedFields(id, url, title, p);
    ResponseFromFields(Header(id, url, title) + PayloadToJson(p).fields, id, url, title, p);
  }

  /** Any dictionary holding the encoded header and payload fields validates to them. */
  lemma ResponseFromFields(m: map<string, Json>, id: int, url: string, title: string, p: QuizPayload)
    requires "id" in m && m["id"] == Num(id) && "url" in m && m["url"] == Str(url)
      && "title" in m && m["title"] == Str(title) && "summary" in m && m["summary"] == Str(p.summary)
      && "key_entities" in m && m["key_entities"] == EntitiesToJson(p.keyEntities)
      && "sections" in m && m["sections"] == StrsToJson(p.sections)
      && "quiz" in m && m["quiz"] == QuestionsToJson(p.quiz)
      && "related_topics" in m && m["related_topics"] == StrsToJson(p.relatedTopics)
    ensures ResponseFromJson(Obj(m)) == Some(WithHeader(id, url, title, p))
  {
    EntitiesRoundTrip(p.keyEntities);
    StrsRoundTrip(p.sections);
    StrsRoundTrip(p.relatedTopics);
    QuestionsRoundTrip(p.quiz);
  }

  /** The header keys and the payload keys are disjoint, so each keeps its value. */
  lemma MergedFields(id: int, url: string, title: string, p: QuizPayload)
    ensures var m := Header(id, url, title) + PayloadToJson(p).fields;
      "id" in m && m["id"] == Num(id) && "url" in m && m["url"] == Str(url)
      && "title" in m && m["title"] == Str(title) && "summary" in m && m["summary"] == Str(p.summary)
      && "key_entities" in m && m["key_entities"] == EntitiesToJson(p.keyEntities)
      && "sections" in m && m["sections"] == StrsToJson(p.sections)
      && "quiz" in m && m["quiz"] == QuestionsToJson(p.quiz)
      && "related_topics" in m && m["related_topics"] == StrsToJson(p.relatedTopics)
  {
    var h, d := Header(id, url, title), PayloadToJson(p).fields;
    assert d.Keys == {"summary", "key_entities", "sections", "quiz", "related_topics"};
    assert "id" !in d && "url" !in d && "title" !in d;
  }
}
