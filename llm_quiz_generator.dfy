/**
 * QuizGenerator.generate_quiz (backend/llm_quiz_generator.py): the language-model
 * reply is normalised by a chain of string rewrites, parsed at most twice, validated,
 * and any failure along the way is replaced by one fixed fallback payload.
 *
 * The model call, the quote-repair regular expression, json.loads and the
 * QuizOutput validation are collaborators passed in; the rewrites are modelled exactly.
 */
module LlmQuizGenerator {
  import opened Wrappers
  import opened Json
  import opened Schemas
  import opened Seqs

  /** The generator's collaborators. */
  datatype Collaborators = Collaborators(
    // prompt formatting, llm.invoke and reading the reply's content; None where any of it raises
    invoke: string -> Option<string>,
    // the escaping substitution applied before the second parse attempt
    repairQuotes: string -> string,
    // QuizOutput(**data); None where pydantic raises ValidationError
    validate: map<string, Json> -> Option<QuizPayload>)

  /** The exception kinds the two except clauses distinguish. */
  datatype Failure = JsonDecodeError | ValidationError | OtherException

  const LeftQuote: char := '\U{201C}'
  const RightQuote: char := '\U{201D}'
  const JsonFence: string := "```json"
  const Fence: string := "```"

  // ------------------------------------------------------------------ whitespace

  /** Python's str.isspace, which is also what \s matches in a str pattern. */
  predicate IsSpace(c: char)
  {
    var n := c as int;
    (0x09 <= n <= 0x0D) || (0x1C <= n <= 0x20) || n == 0x85 || n == 0xA0 || n == 0x1680
    || (0x2000 <= n <= 0x200A) || n == 0x2028 || n == 0x2029 || n == 0x202F || n == 0x205F
    || n == 0x3000
  }

  /** Every character of s at positions [a, b) is whitespace. */
  ghost predicate SpaceBetween(s: string, a: nat, b: nat)
    requires a <= b <= |s|
  {
    forall k :: a <= k < b ==> IsSpace(s[k])
  }

  /** End of the greedy whitespace run (\s*) that starts at position i. */
  function SkipSpace(s: string, i: nat): (e: nat)
    requires i <= |s|
    decreases |s| - i
    ensures i <= e <= |s| && SpaceBetween(s, i, e)
    ensures e < |s| ==> !IsSpace(s[e])
  {
    if i < |s| && IsSpace(s[i]) then SkipSpace(s, i + 1) else i
  }

  /** Start of the whitespace run that ends at position j, going no lower than lo. */
  function TrimEnd(s: string, lo: nat, j: nat): (e: nat)
    requires lo <= j <= |s|
    decreases j
    ensures lo <= e <= j && SpaceBetween(s, e, j)
    ensures e > lo ==> !IsSpace(s[e - 1])
  {
    if j > lo && IsSpace(s[j - 1]) then TrimEnd(s, lo, j - 1) else j
  }

  /** str.strip(): the text without its leading and trailing whitespace runs. */
  function Strip(s: string): (r: string)
    ensures var i := SkipSpace(s, 0);
      i + |r| <= |s| && r == s[i..i + |r|] && SpaceBetween(s, 0, i) && SpaceBetween(s, i + |r|, |s|)
    ensures r == [] || (!IsSpace(r[0]) && !IsSpace(r[|r| - 1]))
  {
    var i := SkipSpace(s, 0);
    s[i..TrimEnd(s, i, |s|)]
  }

  // ------------------------------------------------------------------ code fence

  predicate HasJsonFence(t: string)
  {
    |t| >= |JsonFence| && t[..|JsonFence|] == JsonFence
  }

  /** The text from position i on is at least a fence long and ends with ```. */
  predicate ClosingFenceAfter(t: string, i: nat)
  {
    i + |Fence| <= |t| && t[|t| - |Fence|..] == Fence
  }

  /**
   * Where the text left after the first alternative ^```json\s* begins: past
   * the tag and the whitespace run after it, or 0 when the tag is absent.
   */
  function FenceStart(t: string): (i: nat)
    ensures i <= |t|
    ensures HasJsonFence(t) ==>
      |JsonFence| <= i && SpaceBetween(t, |JsonFence|, i) && (i < |t| ==> !IsSpace(t[i]))
    ensures !HasJsonFence(t) ==> i == 0
  {
    if HasJsonFence(t) then SkipSpace(t, |JsonFence|) else 0
  }

  /**
   * Line 55's substitution on an already stripped text t: the second alternative
   * \s*```$ matches from the leftmost position at or after FenceStart(t) where
   * only whitespace stands before the final ```.
   */
  function TrimFence(t: string): (r: string)
    ensures var i := FenceStart(t);
      i + |r| <= |t| && r == t[i..i + |r|]
    ensures var i := FenceStart(t);
      !ClosingFenceAfter(t, i) ==> r == t[i..]
    ensures var i := FenceStart(t);
      ClosingFenceAfter(t, i) ==>
        i + |r| <= |t| - |Fence| && SpaceBetween(t, i + |r|, |t| - |Fence|) && (r == [] || !IsSpace(r[|r| - 1]))
  {
    var i := FenceStart(t);
    if ClosingFenceAfter(t, i) then t[i..TrimEnd(t, i, |t| - |Fence|)] else t[i..]
  }

  /**
   * re.sub(r"^```json\s*|\s*```$", "", raw.strip()): the stripped text loses a
   * leading ```json with the whitespace after it, and a trailing ``` with the
   * whitespace before it. The text is stripped, so $ can only match at its end.
   */
  function StripFence(raw: string): (r: string)
    ensures |r| <= |raw|
    ensures r == [] || (!IsSpace(r[0]) && !IsSpace(r[|r| - 1]))
  {
    TrimFence(Strip(raw))
  }

  /** A reply wrapped in a ```json fence, each fence on a line of its own, comes back as the text inside. */
  lemma FencedReplyUnwrapped(x: string)
    requires x == [] || (!IsSpace(x[0]) && !IsSpace(x[|x| - 1]))
    ensures StripFence(JsonFence + "\n" + x + "\n" + Fence) == x
  {
    var t := JsonFence + "\n" + x + "\n" + Fence;
    assert t[0] == '`' && t[|t| - 1] == '`';
    assert Strip(t) == t;
    assert HasJsonFence(t) by { assert t[..|JsonFence|] == JsonFence; }
    assert t[|t| - |Fence|..] == Fence;
    var i := FenceStart(t);
    if x == [] {
      assert i == |JsonFence| + 2;
    } else {
      assert t[|JsonFence| + 1] == x[0];
      assert i == |JsonFence| + 1;
      assert t[|t| - |Fence| - 2] == x[|x| - 1];
    }
    assert t[i..i + |x|] == x;
  }

  /** A leading bare ``` (no json tag) survives, unless it is itself the closing fence. */
  lemma BareFenceKept(t: string)
    requires !HasJsonFence(t) && |t| >= 2 * |Fence| && t[..|Fence|] == Fence
    ensures |TrimFence(t)| >= |Fence| && TrimFence(t)[..|Fence|] == Fence
  {
    assert FenceStart(t) == 0;
    assert t[|Fence| - 1] == '`' && !IsSpace(t[|Fence| - 1]);
    var r := TrimFence(t);
    assert |r| >= |Fence|;
    assert r[..|Fence|] == t[..|Fence|];
  }

  // ------------------------------------------------------------------ replace chain

  /** str.replace of one character by another. */
  function ReplaceChar(s: string, from: char, to: char): (r: string)
    ensures |r| == |s|
    ensures forall k :: 0 <= k < |s| ==> r[k] == (if s[k] == from then to else s[k])
  {
    if s == [] then [] else [if s[0] == from then to else s[0]] + ReplaceChar(s[1..], from, to)
  }

  /** text.replace("\n", " ").replace("“", "\"").replace("”", "\"") */
  /**
   * The replace chain leaves no newline and no curly double quote; each is
   * replaced one for one, so the length and every other character are kept.
   */
  function Flatten(s: string): (r: string)
    ensures |r| == |s|
    ensures forall k :: 0 <= k < |s| ==>
      r[k] == (if s[k] == '\n' then ' ' else if s[k] == LeftQuote || s[k] == RightQuote then '"' else s[k])
    ensures forall k :: 0 <= k < |s| ==> r[k] !in {'\n', LeftQuote, RightQuote}
  {
    ReplaceChar(ReplaceChar(ReplaceChar(s, '\n', ' '), LeftQuote, '"'), RightQuote, '"')
  }

  // ------------------------------------------------------------------ quote substitution

  /** The character class [A-Za-z0-9 ,\.\'“”\-]; it does not contain the straight double quote. */
  predicate InQuoteClass(c: char)
  {
    ('A' <= c <= 'Z') || ('a' <= c <= 'z') || ('0' <= c <= '9')
    || c == ' ' || c == ',' || c == '.' || c == '\'' || c == LeftQuote || c == RightQuote || c == '-'
  }

  /** End of the greedy run of class characters starting at k. */
  function ClassRunEnd(t: string, k: nat): (e: nat)
    requires k <= |t|
    decreases |t| - k
    ensures k <= e <= |t|
    ensures forall m :: k <= m < e ==> InQuoteClass(t[m])
    ensures e < |t| ==> !InQuoteClass(t[e])
  {
    if k < |t| && InQuoteClass(t[k]) then ClassRunEnd(t, k + 1) else k
  }

  /**
   * The end of a match of (?<!\\)"([A-Za-z0-9 ,\.\'“”\-]*)"(?![:,}\]]) starting at p.
   * The class holds no '"', so the closing quote can only follow the greedy run, and
   * backtracking into the run cannot find another one.
   */
  function QuoteMatchEnd(t: string, p: nat): (r: Option<nat>)
    requires p < |t|
    ensures r.Some? ==> p + 2 <= r.value <= |t| && t[p] == '"' && t[r.value - 1] == '"'
  {
    if t[p] == '"' && (p == 0 || t[p - 1] != '\\') then
      var e := ClassRunEnd(t, p + 1);
      if e < |t| && t[e] == '"' && (e + 1 == |t| || t[e + 1] !in {':', ',', '}', ']'}) then Some(e + 1)
      else None
    else None
  }

  /** re.sub(pattern, r'"\1"', t), scanning from position p of the original text. */
  function QuoteSub(t: string, p: nat): (r: string)
    requires p <= |t|
    ensures |r| == |t| - p
    decreases |t| - p
  {
    if p == |t| then []
    else match QuoteMatchEnd(t, p)
      case Some(e) => "\"" + t[p + 1..e - 1] + "\"" + QuoteSub(t, e)
      case None => [t[p]] + QuoteSub(t, p + 1)
  }

  /** Every match "X" is replaced by "X" itself, so the substitution changes nothing. */
  lemma {:induction false} QuoteSubIsIdentity(t: string, p: nat)
    requires p <= |t|
    ensures QuoteSub(t, p) == t[p..]
    decreases |t| - p
  {
    if p < |t| {
      match QuoteMatchEnd(t, p)
      case Some(e) =>
        QuoteSubIsIdentity(t, e);
        RequoteIsIdentity(t, p, e);
      case None =>
        QuoteSubIsIdentity(t, p + 1);
        HeadRest(t, p);
    }
  }

  /** Writing a quoted span back as '"' + its inside + '"' gives the same text. */
  lemma RequoteIsIdentity(t: string, p: nat, e: nat)
    requires p + 2 <= e <= |t| && t[p] == '"' && t[e - 1] == '"'
    ensures "\"" + t[p + 1..e - 1] + "\"" + t[e..] == t[p..]
  {
    SplitAround(t, p, e);
  }

  /** Lines 55-58: the text handed to the first parse attempt. */
  function Normalize(raw: string): (r: string)
    ensures |r| == |StripFence(raw)|
  {
    var flat := Flatten(StripFence(raw));
    QuoteSub(flat, 0)
  }

  lemma NormalizeIsFlattenedFence(raw: string)
    ensures Normalize(raw) == Flatten(StripFence(raw))
    ensures forall k :: 0 <= k < |Normalize(raw)| ==> Normalize(raw)[k] !in {'\n', LeftQuote, RightQuote}
  {
    var flat := Flatten(StripFence(raw));
    QuoteSubIsIdentity(flat, 0);
  }

  // ------------------------------------------------------------------ parsing

  /**
   * Lines 60-64: json.loads on the text, and once more on the repaired text only
   * when the first attempt raises. Returns the parsed value and the attempt count.
   */
  function LoadsWithRepair(text: string, repairQuotes: string -> string, json: Codec): (r: (Option<Json>, nat))
    ensures r.1 == (if json.loads(text).Some? then 1 else 2)
    ensures json.loads(text).Some? ==> r.0 == json.loads(text)
    ensures json.loads(text).None? ==> r.0 == json.loads(repairQuotes(text))
  {
    match json.loads(text)
    case Some(data) => (Some(data), 1)
    case None => (json.loads(repairQuotes(text)), 2)
  }

  /** The try block: a validated payload, or the exception kind that escapes it. */
  function Generate(articleText: string, c: Collaborators, json: Codec): (r: Result<QuizPayload, Failure>)
    ensures r.Ok? ==> exists data :: c.validate(data) == Some(r.value)
    ensures c.invoke(articleText).None? ==> r == Err(OtherException)
    ensures c.invoke(articleText).Some? ==>
      var d := LoadsWithRepair(Normalize(c.invoke(articleText).value), c.repairQuotes, json).0;
      (d.None? ==> r == Err(JsonDecodeError))
      && (d.Some? && !d.value.Obj? ==> r == Err(OtherException))
      && (d.Some? && d.value.Obj? ==>
            (r.Ok? <==> c.validate(d.value.fields).Some?)
            && (r.Ok? ==> Some(r.value) == c.validate(d.value.fields))
            && (r.Err? ==> r.error == ValidationError))
  {
    match c.invoke(articleText)
    case None => Err(OtherException)
    case Some(raw) =>
      var (data, _) := LoadsWithRepair(Normalize(raw), c.repairQuotes, json);
      if data.None? then Err(JsonDecodeError)
      // QuizOutput(**data) on a value that is not a mapping raises TypeError
      else if !data.value.Obj? then Err(OtherException)
      else match c.validate(data.value.fields)
        case None => Err(ValidationError)
        case Some(p) => Ok(p)
  }

  predicate IsFallback(p: QuizPayload)
  {
    p.summary == "Failed to generate summary" && p.keyEntities == map[] && p.sections == []
    && p.quiz == [] && p.relatedTopics == []
  }

  /** The two except clauses: both build the same payload, with no questions. */
  function HandleFailure(f: Failure): (r: QuizPayload)
    ensures IsFallback(r)
  {
    match f
    case JsonDecodeError | ValidationError =>
      QuizPayload("Failed to generate summary", map[], [], [], [])
    case OtherException =>
      QuizPayload("Failed to generate summary", map[], [], [], [])
  }

  lemma FallbackIndependentOfFailure(f: Failure, g: Failure)
    ensures HandleFailure(f) == HandleFailure(g) && |HandleFailure(f).quiz| == 0
  {
  }

  /**
   * QuizGenerator.generate_quiz never raises: it returns what the validator
   * accepted from the parsed, normalised reply, and the fallback whenever the
   * call, the parse or the validation fails.
   */
  function GenerateQuiz(articleText: string, c: Collaborators, json: Codec): (r: QuizPayload)
    ensures IsFallback(r) || exists data :: c.validate(data) == Some(r)
    ensures c.invoke(articleText).None? ==> IsFallback(r)
    ensures Generate(articleText, c, json).Ok? ==> r == Generate(articleText, c, json).value
    ensures Generate(articleText, c, json).Err? ==> IsFallback(r)
    ensures c.invoke(articleText).Some? ==>
      var d := LoadsWithRepair(Normalize(c.invoke(articleText).value), c.repairQuotes, json).0;
      if d.Some? && d.value.Obj? && c.validate(d.value.fields).Some?
      then r == c.validate(d.value.fields).value
      else IsFallback(r)
  {
    match Generate(articleText, c, json)
    case Ok(p) => p
    case Err(f) => HandleFailure(f)
  }
}
