/**
 * Answering and scoring in frontend/src/components/EnhancedQuizCard.jsx: the
 * card's answer map keyed by question index, the score computed from it, the
 * submit and retry buttons, a question card's option selection and marking,
 * and the truncated entity lists.
 */
module QuizCard {
  import opened Wrappers
  import opened Schemas

  // ---------------------------------------------------------------- scoring

  /** `userAnswers[index] === q.answer`: an unanswered index is undefined and never equal. */
  predicate IsCorrectAt(quiz: seq<QuizQuestion>, answers: map<int, string>, i: int)
    requires 0 <= i < |quiz|
  {
    i in answers && answers[i] == quiz[i].answer
  }

  /** The indices of the questions answered correctly. */
  ghost function CorrectIndices(quiz: seq<QuizQuestion>, answers: map<int, string>): set<int>
  {
    set i | 0 <= i < |quiz| && i in answers && answers[i] == quiz[i].answer
  }

  /** `quiz.quiz.filter((q, index) => userAnswers[index] === q.answer).length`. */
  function CountCorrect(quiz: seq<QuizQuestion>, answers: map<int, string>): (c: nat)
    ensures c <= |quiz|
  {
    if quiz == [] then 0
    else
      var n := |quiz| - 1;
      CountCorrect(quiz[..n], answers) + (if IsCorrectAt(quiz, answers, n) then 1 else 0)
  }

  /** The filter counts exactly the correctly answered indices. */
  lemma {:induction false} CountIsCorrectIndices(quiz: seq<QuizQuestion>, answers: map<int, string>)
    ensures CountCorrect(quiz, answers) == |CorrectIndices(quiz, answers)|
  {
    if quiz != [] {
      var n := |quiz| - 1;
      CountIsCorrectIndices(quiz[..n], answers);
      var before := CorrectIndices(quiz[..n], answers);
      if IsCorrectAt(quiz, answers, n) {
        assert CorrectIndices(quiz, answers) == before + {n};
      } else {
        assert CorrectIndices(quiz, answers) == before;
      }
    }
  }

  /**
   * Answering question i changes only whether i counts: it stops counting unless
   * the new answer is right, and starts counting when it is.
   */
  lemma AnswerChangesOneIndex(quiz: seq<QuizQuestion>, answers: map<int, string>, i: int, a: string)
    ensures CorrectIndices(quiz, answers[i := a])
         == (CorrectIndices(quiz, answers) - {i})
            + (if 0 <= i < |quiz| && a == quiz[i].answer then {i} else {})
  {
  }

  lemma {:induction false} AnswerCountChange(quiz: seq<QuizQuestion>, answers: map<int, string>, i: int, a: string)
    requires 0 <= i < |quiz|
    ensures CountCorrect(quiz, answers[i := a])
         == CountCorrect(quiz, answers)
            - (if IsCorrectAt(quiz, answers, i) then 1 else 0)
            + (if a == quiz[i].answer then 1 else 0)
  {
    var n := |quiz| - 1;
    var prefix := quiz[..n];
    if i == n {
      CountAgree(prefix, answers[i := a], answers);
    } else {
      AnswerCountChange(prefix, answers, i, a);
      assert IsCorrectAt(prefix, answers, i) == IsCorrectAt(quiz, answers, i);
    }
  }

  /** Two answer maps that agree on every question index score the same. */
  lemma {:induction false} CountAgree(quiz: seq<QuizQuestion>, m1: map<int, string>, m2: map<int, string>)
    requires forall k :: 0 <= k < |quiz| ==> (k in m1 <==> k in m2) && (k in m1 ==> m1[k] == m2[k])
    ensures CountCorrect(quiz, m1) == CountCorrect(quiz, m2)
  {
    if quiz != [] {
      CountAgree(quiz[..|quiz| - 1], m1, m2);
    }
  }

  /** Answers stored under indices that are not questions never count. */
  lemma OutOfRangeAnswerIgnored(quiz: seq<QuizQuestion>, answers: map<int, string>, i: int, a: string)
    requires !(0 <= i < |quiz|)
    ensures CountCorrect(quiz, answers[i := a]) == CountCorrect(quiz, answers)
  {
    CountAgree(quiz, answers[i := a], answers);
  }

  /**
   * Math.round(correct / total * 100) on exact arithmetic: the integer p with
   * p - 1/2 <= 100 * correct / total < p + 1/2.
   */
  function RoundedPercentage(correct: nat, total: nat): (p: int)
    requires 0 < total && correct <= total
    ensures 2 * total * p <= 200 * correct + total < 2 * total * p + 2 * total
    ensures 0 <= p <= 100
  {
    var d, x := 2 * total, 200 * correct + total;
    var p := x / d;
    DivBounds(x, d);
    assert 0 <= p by {
      if p < 0 {
        MulMonotone(d, p, -1);
      }
    }
    assert p <= 100 by {
      if p > 100 {
        MulMonotone(d, 101, p);
      }
    }
    p
  }

  lemma DivBounds(x: int, d: int)
    requires d > 0 && x >= 0
    ensures d * (x / d) <= x < d * (x / d) + d
  {
  }

  lemma MulMonotone(d: int, a: int, b: int)
    requires d > 0 && a <= b
    ensures d * a <= d * b
  {
  }

  /** calculateScore's result; percentage None stands for NaN, which 0 / 0 gives. */
  datatype Score = Score(correct: nat, total: nat, percentage: Option<int>)

  function CalculateScore(quiz: seq<QuizQuestion>, answers: map<int, string>): (s: Score)
    ensures s.correct == |CorrectIndices(quiz, answers)|
    ensures s.total == |quiz| && s.correct <= s.total
    ensures s.total == 0 <==> s.percentage.None?
    ensures s.percentage.Some? ==>
      0 <= s.percentage.value <= 100
      && 2 * s.total * s.percentage.value <= 200 * s.correct + s.total < 2 * s.total * s.percentage.value + 2 * s.total
  {
    var correct := CountCorrect(quiz, answers);
    CountIsCorrectIndices(quiz, answers);
    var total := |quiz|;
    if total == 0 then Score(correct, total, None)
    else Score(correct, total, Some(RoundedPercentage(correct, total)))
  }

  /** Every question answered correctly scores 100; none answered correctly scores 0. */
  lemma ScoreExtremes(quiz: seq<QuizQuestion>, answers: map<int, string>)
    requires quiz != []
    ensures (forall i :: 0 <= i < |quiz| ==> IsCorrectAt(quiz, answers, i))
            ==> CalculateScore(quiz, answers).percentage == Some(100)
    ensures (forall i :: 0 <= i < |quiz| ==> !IsCorrectAt(quiz, answers, i))
            ==> CalculateScore(quiz, answers).percentage == Some(0)
  {
    CountExtremes(quiz, answers);
    var t := |quiz|;
    var s := CalculateScore(quiz, answers);
    var p := s.percentage.value;
    if s.correct == t {
      assert p >= 100 by {
        if p < 100 {
          MulMonotone(2 * t, p, 99);
        }
      }
    }
    if s.correct == 0 {
      assert p <= 0 by {
        if p > 0 {
          MulMonotone(2 * t, 1, p);
        }
      }
    }
  }

  lemma {:induction false} CountExtremes(quiz: seq<QuizQuestion>, answers: map<int, string>)
    ensures (forall i :: 0 <= i < |quiz| ==> IsCorrectAt(quiz, answers, i))
            ==> CountCorrect(quiz, answers) == |quiz|
    ensures (forall i :: 0 <= i < |quiz| ==> !IsCorrectAt(quiz, answers, i))
            ==> CountCorrect(quiz, answers) == 0
  {
    if quiz != [] {
      var n := |quiz| - 1;
      CountExtremes(quiz[..n], answers);
      assert forall i :: 0 <= i < n ==> (IsCorrectAt(quiz[..n], answers, i) <==> IsCorrectAt(quiz, answers, i));
    }
  }

  // ---------------------------------------------------------------- the card

  /**
   * EnhancedQuizCard's state. `showAnswers` is the prop (true unless the card is
   * taken as a quiz); userAnswers and quizCompleted are its useState fields.
   */
  class QuizCard {
    const quiz: seq<QuizQuestion>
    const showAnswers: bool
    var userAnswers: map<int, string>
    var quizCompleted: bool

    constructor (quiz: seq<QuizQuestion>, showAnswers: bool)
      ensures this.quiz == quiz && this.showAnswers == showAnswers
      ensures userAnswers == map[] && !quizCompleted
    {
      this.quiz := quiz;
      this.showAnswers := showAnswers;
      userAnswers := map[];
      quizCompleted := false;
    }

    /** handleAnswer: the previous answers with the one at questionIndex replaced. */
    method HandleAnswer(questionIndex: int, answer: string)
      modifies this`userAnswers
      ensures userAnswers == old(userAnswers)[questionIndex := answer]
      ensures forall i :: i != questionIndex ==>
        (i in userAnswers <==> i in old(userAnswers))
        && (i in userAnswers ==> userAnswers[i] == old(userAnswers)[i])
    {
      userAnswers := userAnswers[questionIndex := answer];
    }

    /** The Submit Answers button. */
    method SubmitAnswers()
      modifies this`quizCompleted
      ensures quizCompleted
    {
      quizCompleted := true;
    }

    /** The Retry Quiz button: no answers, not completed. */
    method RetryQuiz()
      modifies this
      ensures userAnswers == map[] && !quizCompleted
      ensures Score().correct == 0
    {
      quizCompleted := false;
      userAnswers := map[];
    }

    /** calculateScore on the current answers. */
    function Score(): Score
      reads this
    {
      CalculateScore(quiz, userAnswers)
    }

    /** The showAnswers each question card is given: the prop, or a submitted quiz. */
    function QuestionShowsAnswers(): bool
      reads this
    {
      showAnswers || quizCompleted
    }
  }

  /**
   * QuizQuestionCard's state: its question and position, and the option it
   * last recorded (null until one is clicked).
   */
  class QuestionCard {
    const question: QuizQuestion
    const index: int
    var selectedOption: Option<string>

    constructor (question: QuizQuestion, index: int)
      ensures this.question == question && this.index == index && selectedOption == None
    {
      this.question := question;
      this.index := index;
      selectedOption := None;
    }

    /**
     * handleOptionSelect: with answers hidden and a handler present, the click is
     * remembered and reported as the answer at this card's index; otherwise
     * nothing changes.
     */
    method HandleOptionSelect(option: string, showAnswers: bool, onAnswer: QuizCard?)
      modifies this, onAnswer
      ensures !showAnswers && onAnswer != null ==>
        selectedOption == Some(option)
        && onAnswer.userAnswers == old(onAnswer.userAnswers)[index := option]
        && onAnswer.quizCompleted == old(onAnswer.quizCompleted)
      ensures showAnswers || onAnswer == null ==>
        selectedOption == old(selectedOption)
        && (onAnswer != null ==> onAnswer.userAnswers == old(onAnswer.userAnswers)
                                 && onAnswer.quizCompleted == old(onAnswer.quizCompleted))
    {
      if !showAnswers && onAnswer != null {
        selectedOption := Some(option);
        onAnswer.HandleAnswer(index, option);
      }
    }

    /** isCorrect: the selected option is the answer; nothing selected is never correct. */
    function IsCorrect(): (r: bool)
      reads this
      ensures r <==> selectedOption == Some(question.answer)
    {
      SelectionIsAnswer(selectedOption, question.answer)
    }

    /** The marks of one option; the cross is where isCorrect feeds isWrongAnswer. */
    function Mark(option: string, showAnswers: bool): (m: OptionMark)
      reads this
      ensures !(m.correct && m.wrong)
      ensures m.selected <==> selectedOption == Some(option)
      ensures m.wrong <==> showAnswers && selectedOption == Some(option) && !IsCorrect()
      ensures m.correct <==> showAnswers && option == question.answer
    {
      MarkOption(option, selectedOption, question.answer, showAnswers)
    }
  }

  // ---------------------------------------------------------------- wiring

  /**
   * The question cards the quiz section renders: card i is keyed by i and
   * reports to the parent's handleAnswer at index i.
   */
  ghost predicate Rendered(card: QuizCard, cards: seq<QuestionCard>)
    reads cards
  {
    |cards| == |card.quiz|
    && (forall i :: 0 <= i < |cards| ==> cards[i].index == i && cards[i].question == card.quiz[i])
    && (forall i, j :: 0 <= i < j < |cards| ==> cards[i] != cards[j])
  }

  /** Each card's highlighted option is the answer the parent has recorded for it. */
  ghost predicate SelectionsAgree(card: QuizCard, cards: seq<QuestionCard>)
    reads card, cards
  {
    forall i :: 0 <= i < |cards| ==>
      cards[i].selectedOption == if i in card.userAnswers then Some(card.userAnswers[i]) else None
  }

  /**
   * While the cards' selections agree with the recorded answers, a card's
   * isCorrect is exactly whether calculateScore counts its question.
   */
  lemma CardCorrectIsScored(card: QuizCard, cards: seq<QuestionCard>, i: int)
    requires Rendered(card, cards) && SelectionsAgree(card, cards) && 0 <= i < |cards|
    ensures cards[i].IsCorrect() <==> IsCorrectAt(card.quiz, card.userAnswers, i)
  {
  }

  /** A click on an option of card k, wired as at the bottom of the quiz section. */
  method ClickOption(card: QuizCard, cards: seq<QuestionCard>, k: int, option: string)
    requires Rendered(card, cards) && 0 <= k < |cards|
    requires SelectionsAgree(card, cards)
    modifies card, cards[k]
    ensures SelectionsAgree(card, cards)
    ensures card.quizCompleted == old(card.quizCompleted)
    ensures !old(card.QuestionShowsAnswers()) ==> card.userAnswers == old(card.userAnswers)[k := option]
    ensures old(card.QuestionShowsAnswers()) ==> card.userAnswers == old(card.userAnswers)
  {
    cards[k].HandleOptionSelect(option, card.QuestionShowsAnswers(), card);
  }

  /**
   * Retry as written clears the parent's answers but not the cards' own
   * selectedOption: the old pick stays highlighted yet counts for nothing.
   */
  method RetryLeavesStaleSelection() returns (card: QuizCard, cards: seq<QuestionCard>)
    ensures Rendered(card, cards) && |cards| == 1
    ensures !card.QuestionShowsAnswers()
    ensures cards[0].selectedOption == Some(card.quiz[0].answer)
    ensures StyleOf(cards[0].Mark(card.quiz[0].answer, false), false) == SelectedStyle
    ensures card.Score().correct == 0
    ensures !SelectionsAgree(card, cards)
  {
    var q := QuizQuestion("Q", ["A", "B"], "A", "easy", "");
    card := new QuizCard([q], false);
    var qc := new QuestionCard(q, 0);
    cards := [qc];
    ClickOption(card, cards, 0, "A");
    card.SubmitAnswers();
    card.RetryQuiz();
  }

  /** Retry that also clears every card's selection, so selections and answers agree again. */
  method RetryClearingSelections(card: QuizCard, cards: seq<QuestionCard>)
    requires Rendered(card, cards)
    modifies card, cards
    ensures card.userAnswers == map[] && !card.quizCompleted
    ensures forall i :: 0 <= i < |cards| ==> cards[i].selectedOption == None
    ensures SelectionsAgree(card, cards)
  {
    card.RetryQuiz();
    var k := 0;
    while k < |cards|
      invariant 0 <= k <= |cards|
      invariant card.userAnswers == map[] && !card.quizCompleted
      invariant forall i :: 0 <= i < k ==> cards[i].selectedOption == None
    {
      cards[k].selectedOption := None;
      k := k + 1;
    }
  }

  // ---------------------------------------------------------------- option marking

  /** isCorrect's test: an option is selected and it is the answer (strict equality). */
  predicate SelectionIsAnswer(selectedOption: Option<string>, answer: string)
  {
    selectedOption.Some? && selectedOption.value == answer
  }

  /** How one option is drawn: the tick, the cross, and the selection highlight. */
  datatype OptionMark = OptionMark(correct: bool, wrong: bool, selected: bool)

  /** The background the option gets: later assignments in the source override earlier ones. */
  datatype OptionStyle = Plain | CorrectStyle | WrongStyle | SelectedStyle

  function MarkOption(option: string, selectedOption: Option<string>, answer: string, showAnswers: bool): (m: OptionMark)
    ensures m.selected <==> selectedOption == Some(option)
    ensures m.correct <==> showAnswers && option == answer
    ensures m.wrong <==> showAnswers && selectedOption == Some(option) && option != answer
  {
    var isSelected := selectedOption == Some(option);
    var isCorrect := SelectionIsAnswer(selectedOption, answer);
    OptionMark(showAnswers && option == answer, showAnswers && isSelected && !isCorrect, isSelected)
  }

  /** No option is ever both ticked and crossed. */
  lemma NeverCorrectAndWrong(option: string, selectedOption: Option<string>, answer: string, showAnswers: bool)
    ensures var m := MarkOption(option, selectedOption, answer, showAnswers);
      !(m.correct && m.wrong)
  {
  }

  function StyleOf(m: OptionMark, showAnswers: bool): (s: OptionStyle)
    ensures s == SelectedStyle <==> m.selected && !showAnswers
    ensures s == WrongStyle <==> m.wrong && !(m.selected && !showAnswers)
    ensures s == CorrectStyle <==> m.correct && !m.wrong && !(m.selected && !showAnswers)
  {
    if m.selected && !showAnswers then SelectedStyle
    else if m.wrong then WrongStyle
    else if m.correct then CorrectStyle
    else Plain
  }

  /** With answers shown, the style tells the truth: the answer is green, a wrong pick red, nothing highlighted. */
  lemma StyleWithAnswersShown(option: string, selectedOption: Option<string>, answer: string)
    ensures var s := StyleOf(MarkOption(option, selectedOption, answer, true), true);
      (s == CorrectStyle <==> option == answer)
      && (s == WrongStyle <==> selectedOption == Some(option) && option != answer)
      && s != SelectedStyle
  {
  }

  // ---------------------------------------------------------------- entities

  /** One entity category as drawn: the first five items and the "+n more" count. */
  datatype EntityList = EntityList(shown: seq<string>, more: Option<nat>)

  function EntityListView(items: seq<string>): (v: EntityList)
    ensures |v.shown| == if |items| < 5 then |items| else 5
    ensures v.shown == items[..|v.shown|]
    ensures v.more.Some? <==> |items| > 5
    ensures v.more.Some? ==> v.more.value == |items| - 5 && |v.shown| + v.more.value == |items|
  {
    var shown := if |items| <= 5 then items else items[..5];
    EntityList(shown, if |items| > 5 then Some(|items| - 5) else None)
  }
}
