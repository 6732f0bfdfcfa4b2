# AI Wiki Quiz Generator — a verified model of its core

AI Wiki Quiz Generator takes a Wikipedia URL, scrapes the article, and asks a large language model for a summary, key entities, sections, a multiple-choice quiz and related topics. It stores the result in a `quizzes` table keyed by URL and serves it back. A React front end lets the user take a quiz and browse the stored history. This project models the parts with real logic, each in its own module:

- `QuizApi` (`main.dfy`) covers the three request handlers of the FastAPI back end:
  - `POST /generate-quiz` validates the URL, returns the cached row, scrapes, generates and inserts, in that order;
  - `GET /quizzes` and `GET /quizzes/{id}` are lookups.
  - The table is a class holding a sequence of rows and the autoincrement counter. The handler is proved equal to a specification function (`GenerateStep`), which also records the calls made (look-up, scrape, generation, insert). That record makes "nothing was scraped or inserted" a statement.
- `Database` (`database.dfy`) covers the `quizzes` row, the ORM object with `set_quiz_data`, and `get_quiz_data`.
- `Schemas` (`schemas.dfy`) covers the record shapes of the API, the dictionary `.dict()` produces, and the `response_model` validation of a returned dictionary. Its round-trip lemmas show that a payload spread after an `id`/`url`/`title` header always validates to that header and payload.
- `LlmQuizGenerator` (`llm_quiz_generator.dfy`) covers the normalisation of the model's reply and its parsing and fallback:
  - code-fence stripping, newline and curly-quote replacement, and the quote substitution, which is proved to be the identity;
  - at most two parse attempts;
  - validation, and the single fallback payload that every failure turns into.
- `HistoryOrder` (`history_order.dfy`) covers the insertion sort by comparator used for the history. One comparator serves the history tab's `filtered.sort`, and its newest-first key gives the back end's `ORDER BY date_generated DESC`. It holds a functional specification and an in-place array insertion sort proved equal to it.
- `QuizCard` (`quiz_card.dfy`) covers the quiz card:
  - the answer map, the score, submit and retry;
  - a question card's option selection and option marking;
  - the "+n more" entity lists.
- `HistoryTab` (`history_tab.dfy`) covers the history tab:
  - the case-insensitive search filter and the sort selector;
  - the "time ago" labels and the stats counters;
  - the component state, whose displayed list is always the filter and sort of the loaded list.

The URL validator, the scraper, the language model, the quote-repair regular expression, `json.loads`/`json.dumps` and the `QuizOutput` validation are not modelled. They are function-valued parameters (`QuizApi.Services`, `LlmQuizGenerator.Collaborators`, `Json.Codec`). The clock is a parameter `now`, and dates are integer millisecond timestamps.

Some facts about the code modelled, which the model follows as written:
- The fallback payload has an empty question list (backend/llm_quiz_generator.py:71-85).
- `generate_quiz` formats the article text it is given into the prompt as it is (backend/llm_quiz_generator.py:52). Any truncation would be the scraper's, and the scraper is not part of this model.
- Grading is strict equality of the chosen option text with the stored answer (frontend/src/components/EnhancedQuizCard.jsx:182).
- The back end has the three API routes above, plus the root endpoint with its constant message, which is listed under "Left out" (backend/main.py:24-26).
- `GET /quizzes` returns only `id`, `url`, `title` and `date_generated` (backend/main.py:75-83).

## Model

| member | source | states |
|---|---|---|
| Schemas.StrsRoundTrip | backend/schemas.py:7 | a list of strings validates back to itself after `.dict()` |
| Schemas.QuestionRoundTrip | backend/schemas.py:5-10 | a question's dictionary validates back to the same question |
| Schemas.QuestionsRoundTrip | backend/schemas.py:22 | a question list's dictionary validates back to the same list |
| Schemas.EntitiesRoundTrip | backend/schemas.py:20 | a key-entities mapping validates back to the same mapping |
| Schemas.ResponseRoundTrip | backend/schemas.py:15-23 | the header `id`/`url`/`title` followed by a payload's dictionary validates as QuizResponse to exactly that header and payload |
| Schemas.ResponseFromFields | backend/schemas.py:15-23 | any dictionary holding the encoded header and payload fields, whatever else it holds, validates to that header and payload |
| Schemas.MergedFields | backend/main.py:65-70 | spreading the payload dictionary after the header keeps all eight keys with their values, since the payload has no `id`, `url` or `title` key |
| Database.GetQuizData | backend/database.py:34-35 | an unset or empty column gives the empty mapping; otherwise the column is parsed |
| Database.SetThenGet | backend/database.py:31-35 | reading back what `set_quiz_data` stored gives the stored dictionary |
| Database.Quiz.constructor | backend/database.py:21-29 | a new object carries url, title and scraped text, and has no id, date or quiz data yet |
| Database.Quiz.SetQuizData | backend/database.py:31-32 | stores the serialised dictionary, which reads back as that dictionary; every other column is unchanged |
| LlmQuizGenerator.SkipSpace | backend/llm_quiz_generator.py:55 | the greedy `\s*` run from a position: every character in it is whitespace, and the character after it (if any) is not |
| LlmQuizGenerator.TrimEnd | backend/llm_quiz_generator.py:55 | the whitespace run ending at a position, taken as far left as allowed: all whitespace, and the character before it (if any, above the bound) is not |
| LlmQuizGenerator.Strip | backend/llm_quiz_generator.py:55 | `strip()` is a slice of the input with whitespace on both sides removed and none left at either end |
| LlmQuizGenerator.FenceStart | backend/llm_quiz_generator.py:55 | a leading ```` ```json ```` and the whitespace run after it are removed, and nothing is removed when the tag is absent |
| LlmQuizGenerator.TrimFence | backend/llm_quiz_generator.py:55 | the result is the text between the fences, unchanged; a trailing ```` ``` ```` goes with the whitespace run before it, and without one nothing more is removed |
| LlmQuizGenerator.FencedReplyUnwrapped | backend/llm_quiz_generator.py:55 | a reply wrapped in a ```` ```json ```` fence, each fence on its own line, comes back as exactly the text inside |
| LlmQuizGenerator.StripFence | backend/llm_quiz_generator.py:55 | strip followed by the fence substitution never lengthens the reply and leaves no whitespace at either end of what remains |
| LlmQuizGenerator.BareFenceKept | backend/llm_quiz_generator.py:55 | a leading bare ```` ``` ```` without the json tag is not removed |
| LlmQuizGenerator.ReplaceChar | backend/llm_quiz_generator.py:57 | `replace` of one character keeps the length and changes exactly the occurrences |
| LlmQuizGenerator.Flatten | backend/llm_quiz_generator.py:57 | after the replace chain there is no newline or curly double quote; each is replaced one for one and every other character is kept |
| LlmQuizGenerator.ClassRunEnd | backend/llm_quiz_generator.py:58 | the greedy run of the character class ends at the first character outside it |
| LlmQuizGenerator.QuoteMatchEnd | backend/llm_quiz_generator.py:58 | a match opens and closes with a straight double quote and spans at least two characters |
| LlmQuizGenerator.QuoteSub | backend/llm_quiz_generator.py:58 | the substitution from a position yields exactly as many characters as remain from that position |
| LlmQuizGenerator.QuoteSubIsIdentity | backend/llm_quiz_generator.py:58 | the substitution rewrites every match `"X"` to itself, so the text is unchanged |
| LlmQuizGenerator.RequoteIsIdentity | backend/llm_quiz_generator.py:58 | writing a match back as `"` + its group + `"` restores exactly the matched text |
| LlmQuizGenerator.Normalize | backend/llm_quiz_generator.py:55-58 | the text handed to the parser is exactly as long as the stripped, fence-free reply |
| LlmQuizGenerator.NormalizeIsFlattenedFence | backend/llm_quiz_generator.py:55-58 | the text given to the parser is the fence-stripped, flattened reply, and holds no newline or curly quote |
| LlmQuizGenerator.LoadsWithRepair | backend/llm_quiz_generator.py:60-64 | one parse attempt when it succeeds; otherwise exactly one more, on the repaired text, and no further retry |
| LlmQuizGenerator.Generate | backend/llm_quiz_generator.py:51-66 | with d the parse (with at most one repair) of the normalised reply: a failed model call or a d that is not a mapping is an error, no d is a decode error, and a mapping d succeeds exactly when the validator accepts it, with the validator's payload, and otherwise is a validation error |
| LlmQuizGenerator.HandleFailure | backend/llm_quiz_generator.py:70-85 | every exception kind yields the fallback: the failure summary with empty entities, sections, quiz and topics |
| LlmQuizGenerator.FallbackIndependentOfFailure | backend/llm_quiz_generator.py:71-85 | both except clauses build the same payload, and it has zero questions |
| LlmQuizGenerator.GenerateQuiz | backend/llm_quiz_generator.py:50-85 | never raises: the result is the validator's payload for the parsed, normalised reply when there is one, and the fallback whenever the call, the parse or the validation fails |
| HistoryOrder.LexCompare | frontend/src/tabs/EnhancedHistoryTab.jsx:62 | the title comparison is -1, 0 or 1, and 0 exactly for equal titles |
| HistoryOrder.LexCompareAntisymmetric | frontend/src/tabs/EnhancedHistoryTab.jsx:62 | comparing titles in the other order negates the result |
| HistoryOrder.Compare | frontend/src/tabs/EnhancedHistoryTab.jsx:55-66 | 'newest' puts the later date first, 'oldest' the earlier, 'title' is zero exactly for equal titles, and any other key compares everything equal |
| HistoryOrder.CompareAntisymmetric | frontend/src/tabs/EnhancedHistoryTab.jsx:55-66 | if the comparator puts a after b, it puts b before a |
| HistoryOrder.Insert | frontend/src/tabs/EnhancedHistoryTab.jsx:55 | inserting adds exactly that one element, and the result starts with it or with the old head |
| HistoryOrder.InsertOrdered | frontend/src/tabs/EnhancedHistoryTab.jsx:55-66 | insertion keeps a list in comparator order |
| HistoryOrder.SortQuizzes | frontend/src/tabs/EnhancedHistoryTab.jsx:55-66 | sorting keeps the length and the multiset of entries |
| HistoryOrder.SortIsOrderedPermutation | frontend/src/tabs/EnhancedHistoryTab.jsx:55-66 | sorting only reorders (same multiset, same length) and leaves the list in comparator order |
| HistoryOrder.UnrecognizedKeepsOrder | frontend/src/tabs/EnhancedHistoryTab.jsx:63-64 | with an unknown key every pair compares equal and the sort keeps the order |
| HistoryOrder.OrderedByDate | frontend/src/tabs/EnhancedHistoryTab.jsx:57-60 | neighbours in date order give dates monotone over all pairs |
| HistoryOrder.SortByDate | frontend/src/tabs/EnhancedHistoryTab.jsx:57-60 | 'newest' gives dates non-increasing and 'oldest' non-decreasing |
| HistoryOrder.InsertAfter | frontend/src/tabs/EnhancedHistoryTab.jsx:55 | insertion lands after the elements x compares greater than and before the first it does not |
| HistoryOrder.InsertedAt | frontend/src/tabs/EnhancedHistoryTab.jsx:55 | an array whose suffix holds the shifted elements, then x, then the rest, holds exactly the insertion of x into the sorted suffix |
| HistoryOrder.InsertStep | frontend/src/tabs/EnhancedHistoryTab.jsx:55 | shifting a[i] into the suffix after it produces the insertion of a[i] into that suffix and leaves the prefix alone |
| HistoryOrder.ShiftPast | frontend/src/tabs/EnhancedHistoryTab.jsx:55 | the elements after i that a[i] compares greater than move one place left, the rest stay, and the freed slot is before the first element a[i] does not exceed |
| HistoryOrder.SortInPlace | frontend/src/tabs/EnhancedHistoryTab.jsx:55-66 | the array sorted in place equals `SortQuizzes` of its old contents |
| QuizApi.TitleOrDefault | backend/main.py:56 | the stored title is the scraped title, or "Unknown Title" when that is missing or empty; never empty |
| QuizApi.FindByUrl | backend/main.py:36 | no result exactly when no row has the URL; otherwise the first row with it |
| QuizApi.FindById | backend/main.py:87 | no result exactly when no row has the id; otherwise a row with it |
| QuizApi.Respond | backend/main.py:65-70 | a 200 exactly when the data is a mapping and the header spread with it passes the response model, with what the model makes of it; any failure is a 500 |
| QuizApi.RowResponse | backend/main.py:38-43 | stored quiz data that does not parse gives a 500 |
| QuizApi.NewRow | backend/main.py:54-63 | the inserted row holds the request URL, the defaulted title, the scraped text, the clock's date and the serialised payload |
| QuizApi.GenerateStep | backend/main.py:28-70 | an invalid URL gives 400 with no calls and no change; a cached URL gives the stored row after a look-up only; a failed scrape gives 400 with nothing inserted; the table grows by one row exactly when an insert happens, keeping every old row |
| QuizApi.GetQuiz | backend/main.py:85-99 | an unknown id, and only that, gives 404 "Quiz not found" |
| QuizApi.StoredRowResponse | backend/main.py:94-99 | a row holding a dumped payload is answered 200 with its own id, url and title and that payload |
| QuizApi.GetKnownQuiz | backend/main.py:85-99 | when every row holds a dumped payload, any stored id is answered 200 with that row's id, url and title and its stored payload |
| QuizApi.GeneratePreservesStoredPayloads | backend/main.py:54-63 | generate only ever stores a dumped payload in a row |
| QuizApi.StoresAppend | backend/main.py:54-63 | appending a row holding a dumped payload keeps every row holding one |
| QuizApi.FindByUrlAppend | backend/main.py:36 | appending a row does not change which row comes first for a URL already present |
| QuizApi.FindByIdAppend | backend/main.py:87 | appending a row does not change the row found for an id already present |
| QuizApi.GeneratedResponse | backend/main.py:52-70 | a fresh quiz is always answered with its id, URL, title and payload, and exactly one row is appended after scrape and generation |
| QuizApi.GeneratePreservesInvariant | backend/database.py:24 | ids stay unique and below the next autoincrement value |
| QuizApi.InvariantAppend | backend/database.py:24 | appending a row with the next id and advancing the counter keeps ids unique and below the counter |
| QuizApi.GeneratePreservesUrlsUnique | backend/main.py:36-63 | sequential requests never store two rows for one URL |
| QuizApi.GenerateIdempotent | backend/main.py:36-63 | repeating a successful request returns the same response, fallback included, and only looks the URL up |
| QuizApi.GetAfterGenerate | backend/main.py:85-99 | fetching the id just generated returns what the generation returned |
| QuizApi.GetQuizHistory | backend/main.py:72-83 | the history has one entry per row |
| QuizApi.HistoryEntry | backend/main.py:76-81 | a history entry carries the row's id, url, title and date |
| QuizApi.HistoryIsNewestFirstPermutation | backend/main.py:72-83 | the history lists every row exactly once, as id/url/title/date only, newest first |
| QuizApi.HistoryListsEveryRow | backend/main.py:72-83 | an entry is in the history exactly when its row is in the table |
| QuizApi.QuizTable.constructor | backend/database.py:21-24 | an empty table whose first id is 1 |
| QuizApi.QuizTable.Add | backend/main.py:61-63 | the database assigns the next id, applies the date default when no date was set, and appends the row |
| QuizApi.QuizTable.InsertQuiz | backend/main.py:54-63 | building the object, storing the payload and inserting it appends exactly the row for the next id and advances the counter |
| QuizApi.QuizTable.GenerateQuiz | backend/main.py:28-70 | the handler's response, new table, next id and calls are exactly those of GenerateStep, and the table invariant is kept |
| QuizCard.CountCorrect | frontend/src/components/EnhancedQuizCard.jsx:182 | the correct count never exceeds the number of questions |
| QuizCard.CountIsCorrectIndices | frontend/src/components/EnhancedQuizCard.jsx:182 | the count is the number of indices whose recorded answer strictly equals the question's answer |
| QuizCard.AnswerChangesOneIndex | frontend/src/components/EnhancedQuizCard.jsx:177-182 | answering question i changes only whether i counts |
| QuizCard.AnswerCountChange | frontend/src/components/EnhancedQuizCard.jsx:177-182 | answering question i changes the count by i's old and new correctness and nothing else |
| QuizCard.CountAgree | frontend/src/components/EnhancedQuizCard.jsx:182 | two answer maps that agree on every question index give the same count |
| QuizCard.OutOfRangeAnswerIgnored | frontend/src/components/EnhancedQuizCard.jsx:182 | an answer stored under a non-question index never counts |
| QuizCard.RoundedPercentage | frontend/src/components/EnhancedQuizCard.jsx:186 | `Math.round(100·c/t)` as the integer within one half of 100·c/t, rounding halves up, between 0 and 100 |
| QuizCard.CalculateScore | frontend/src/components/EnhancedQuizCard.jsx:181-188 | correct is the number of correctly answered questions; total is the number of questions, not of answers; percentage is the rounded ratio, and NaN (None) exactly when there are no questions |
| QuizCard.ScoreExtremes | frontend/src/components/EnhancedQuizCard.jsx:186 | all correct scores 100 and none correct scores 0 |
| QuizCard.CountExtremes | frontend/src/components/EnhancedQuizCard.jsx:182 | all correct counts every question and none correct counts zero |
| QuizCard.QuizCard.constructor | frontend/src/components/EnhancedQuizCard.jsx:172-175 | a card starts with no answers and not completed |
| QuizCard.QuizCard.HandleAnswer | frontend/src/components/EnhancedQuizCard.jsx:177-179 | sets the answer at one index and leaves every other index's answer as it was |
| QuizCard.QuizCard.SubmitAnswers | frontend/src/components/EnhancedQuizCard.jsx:313 | submitting marks the quiz completed |
| QuizCard.QuizCard.RetryQuiz | frontend/src/components/EnhancedQuizCard.jsx:340-343 | retry clears every answer and sets completed back to false, so nothing counts |
| QuizCard.QuestionCard.constructor | frontend/src/components/EnhancedQuizCard.jsx:72 | a question card starts with nothing selected |
| QuizCard.QuestionCard.HandleOptionSelect | frontend/src/components/EnhancedQuizCard.jsx:75-80 | a click is recorded and reported at this card's index only when answers are hidden and a handler exists; otherwise nothing changes |
| QuizCard.QuestionCard.IsCorrect | frontend/src/components/EnhancedQuizCard.jsx:82 | correct exactly when the selected option is the answer; no selection is never correct |
| QuizCard.QuestionCard.Mark | frontend/src/components/EnhancedQuizCard.jsx:82-112 | highlighted exactly when it is the card's selection; ticked exactly when answers are shown and it is the answer; crossed exactly when answers are shown, it is the selection, and the card's `isCorrect` is false; never both ticked and crossed |
| QuizCard.CardCorrectIsScored | frontend/src/components/EnhancedQuizCard.jsx:82 | while the cards' selections agree with the recorded answers, a card's `isCorrect` holds exactly when `calculateScore` (line 182) counts its question |
| QuizCard.ClickOption | frontend/src/components/EnhancedQuizCard.jsx:352-361 | with the cards wired to handleAnswer, a click keeps each card's highlighted option equal to the parent's recorded answer |
| QuizCard.RetryLeavesStaleSelection | frontend/src/components/EnhancedQuizCard.jsx:340-343 | after select, submit and retry, the card still highlights the old pick while the score counts none |
| QuizCard.RetryClearingSelections | frontend/src/components/EnhancedQuizCard.jsx:340-343 | a retry that also clears the cards' selections leaves selections and recorded answers in agreement |
| QuizCard.MarkOption | frontend/src/components/EnhancedQuizCard.jsx:110-112 | selected, tick and cross each hold exactly under their conditions in the source |
| QuizCard.NeverCorrectAndWrong | frontend/src/components/EnhancedQuizCard.jsx:111-112 | no option is ever marked both correct and wrong |
| QuizCard.StyleOf | frontend/src/components/EnhancedQuizCard.jsx:114-117 | the later style assignments override the earlier ones: selection while hidden, then wrong, then correct |
| QuizCard.StyleWithAnswersShown | frontend/src/components/EnhancedQuizCard.jsx:114-117 | with answers shown, green is exactly the answer, red exactly a wrong pick, and nothing shows as merely selected |
| QuizCard.EntityListView | frontend/src/components/EnhancedQuizCard.jsx:52-61 | at most five items, the first five in order, plus a "+(n-5) more" line exactly when n > 5 |
| HistoryTab.LowerChar | frontend/src/tabs/EnhancedHistoryTab.jsx:50 | upper-case ASCII letters map to lower case and every other character to itself |
| HistoryTab.ToLower | frontend/src/tabs/EnhancedHistoryTab.jsx:50 | lower-casing keeps the length and maps each character |
| HistoryTab.Includes | frontend/src/tabs/EnhancedHistoryTab.jsx:50-51 | the empty term is included in every string, and a term is never included in a shorter string |
| HistoryTab.IncludesIffOccurs | frontend/src/tabs/EnhancedHistoryTab.jsx:50-51 | `includes` holds exactly when the term occurs at some position |
| HistoryTab.Matches | frontend/src/tabs/EnhancedHistoryTab.jsx:49-52 | every quiz matches the empty search term |
| HistoryTab.FilterQuizzes | frontend/src/tabs/EnhancedHistoryTab.jsx:49-52 | the filter keeps each matching quiz as often as it occurs, drops every other one, and keeps the loaded order (the result is a subsequence) |
| HistoryTab.FilterKeepsExactlyMatches | frontend/src/tabs/EnhancedHistoryTab.jsx:49-52 | a quiz is kept exactly when its lowercased title or url contains the lowercased term |
| HistoryTab.EmptyTermKeepsAll | frontend/src/tabs/EnhancedHistoryTab.jsx:49-52 | an empty search term keeps every quiz, in order |
| HistoryTab.ParseSortKey | frontend/src/tabs/EnhancedHistoryTab.jsx:56-65 | any value other than newest, oldest and title falls to the default case |
| HistoryTab.Displayed | frontend/src/tabs/EnhancedHistoryTab.jsx:48-68 | the displayed list holds the same entries as the filtered list |
| HistoryTab.DisplayedIsSortedFilter | frontend/src/tabs/EnhancedHistoryTab.jsx:48-68 | the displayed list is a permutation of the filtered list; 'newest' gives dates non-increasing and 'oldest' non-decreasing |
| HistoryTab.UnknownSortKeepsFilterOrder | frontend/src/tabs/EnhancedHistoryTab.jsx:63-64 | an unrecognised sort value shows the filtered list in its loaded order |
| HistoryTab.GetTimeAgo | frontend/src/tabs/EnhancedHistoryTab.jsx:91-100 | under an hour (future dates included) is "Just now"; h hours for 1 ≤ h < 24; d days for 1 ≤ d < 7; the formatted date from a week on |
| HistoryTab.FutureIsJustNow | frontend/src/tabs/EnhancedHistoryTab.jsx:94-96 | a date in the future reads "Just now" |
| HistoryTab.CountSince | frontend/src/tabs/EnhancedHistoryTab.jsx:136-137 | a counter never exceeds the number of quizzes |
| HistoryTab.CountSinceMonotone | frontend/src/tabs/EnhancedHistoryTab.jsx:136-137 | a later threshold counts no more quizzes |
| HistoryTab.GetStats | frontend/src/tabs/EnhancedHistoryTab.jsx:134-138 | this week ≤ this month ≤ total, and Active equals total |
| HistoryTab.HistoryTab.Stats | frontend/src/tabs/EnhancedHistoryTab.jsx:134-138 | the tiles of the loaded list: this week ≤ this month ≤ total, which is the list's length, and Active equals total |
| HistoryTab.HistoryTab.constructor | frontend/src/tabs/EnhancedHistoryTab.jsx:20-26 | initial state: nothing loaded, loading, empty search, sorted newest first |
| HistoryTab.HistoryTab.FilterAndSortQuizzes | frontend/src/tabs/EnhancedHistoryTab.jsx:48-69 | the stored list is the filter of the loaded quizzes, sorted in place by the selected key |
| HistoryTab.HistoryTab.LoadHistory | frontend/src/tabs/EnhancedHistoryTab.jsx:36-46 | a loaded history replaces the list and a failed load keeps both the list and the displayed list; loading ends either way, and the display is the filter and sort of the list |
| HistoryTab.HistoryTab.SetSearchTerm | frontend/src/tabs/EnhancedHistoryTab.jsx:32-34 | a new search term re-runs the filter and sort and changes nothing else |
| HistoryTab.HistoryTab.SetSortBy | frontend/src/tabs/EnhancedHistoryTab.jsx:32-34 | a new sort value re-runs the filter and sort and changes nothing else |

## Left out

- The FastAPI app object, CORS and the root endpoint (backend/main.py:12-26) are left out: they are configuration and a constant message.
- The SQLAlchemy engine, sessions and transactions (backend/database.py:11-19, 37-44) are left out. A failing commit is not modelled.
- The concurrent check-then-insert race is left out: the model is sequential. Two simultaneous first requests for one URL can both insert, which `QuizApi.GeneratePreservesUrlsUnique` does not cover.
- `scrape_wikipedia` and `validate_wikipedia_url` are parameters. An exception raised by the scraper (a 500) is not modelled; the scraper module is not part of this model.
- The language model call, prompt formatting and reading `.content` from the reply (backend/llm_quiz_generator.py:14-53) are one parameter, `invoke`. It returns None where any of them raises.
- The quote-repair regular expression (backend/llm_quiz_generator.py:63) is a parameter, `repairQuotes`.
- `json.loads`/`json.dumps` are a parameter pair. Only "loads after dumps gives back the value, and dumps never gives the empty string" is assumed of them (`Json.WellBehaved`), and only in lemmas that say so.
- `QuizOutput` validation is a parameter, `validate`, since its model class is not part of this model. `response_model` validation is modelled as exact type checks. pydantic's coercions (a numeric string accepted as an int, for example) are not.
- QuizApi.FindByUrl: `.first()` without ORDER BY has no defined order in SQL. The model takes the first row in insertion order.
- QuizApi.HistoryIsNewestFirstPermutation: the order of rows with equal dates is not defined by `ORDER BY date_generated DESC`. The model uses the insertion sort `SortQuizzes`; no lemma states the order it gives to ties.
- HistoryOrder.LexCompare: `localeCompare` is replaced by comparison of character codes, because locale collation rules are not modelled. Only antisymmetry is proved of it.
- HistoryOrder.SortQuizzes: `Array.prototype.sort` is stable, so entries that compare equal keep their order. Stability is proved only for an unrecognised key (`HistoryOrder.UnrecognizedKeepsOrder`), not for ties under the other keys.
- Json.Json: numbers are integers. A reply or a stored value holding a floating point number cannot be represented.
- HistoryTab.LowerChar: `toLowerCase` is modelled on ASCII letters only. Other Unicode case mappings are not.
- Dates are integer milliseconds. Parsing the naive ISO strings the back end sends is not modelled, nor is the time zone `new Date` reads them in. `formatDate`/`toLocaleDateString` is left as the date it formats (`HistoryTab.FormattedDate`).
- QuizCard.RoundedPercentage: computed exactly on rationals. Floating-point rounding of `c / t * 100` before `Math.round` is not modelled; NaN for an empty quiz is `None`.
- React scheduling is not modelled. The effect that re-runs `filterAndSortQuizzes` after a state change runs at once in the setters, and batched renders are not modelled.
- The card's `activeSection` tabs, the unused `showExplanation` and `userAnswer`, `DifficultyBadge`, animations and CSS classes are left out. Option styles are modelled only as the four cases of `QuizCard.OptionStyle`.
- The order in which `Object.entries` lists entity categories is left out. `QuizCard.EntityListView` is per category.
- `handleViewDetails`, the details modal and `frontend/src/services/api.js` are network I/O. The history tab's load result is a parameter of `LoadHistory`.

## Findings

| source | as written | input that shows it | evidently intended | confidence | as-written member | corrected member |
|---|---|---|---|---|---|---|
| frontend/src/components/EnhancedQuizCard.jsx:340-343 | Retry Quiz clears `userAnswers` and `quizCompleted` but not each question card's own `selectedOption` state, which stays mounted | one question with answer "A", shown with `showAnswers={false}`: click "A", Submit, Retry. "A" is still highlighted as selected while the recorded answers are empty, so submitting again scores 0 | retry also clears the cards' selections, so what is highlighted is what is scored | medium: not executed; the only caller among the files modelled passes `showAnswers={true}`, where selection is disabled | QuizCard.RetryLeavesStaleSelection | QuizCard.RetryClearingSelections |
