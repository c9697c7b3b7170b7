/**
 * The review quiz (component `Review`): a list of questions is loaded once,
 * then each question is answered by select, reveal and advance, with a score
 * kept across the whole run and a restart that keeps the loaded questions.
 */
module Review {
  import opened Wrappers

  /** One entry of the quiz list: the text, the offered options and the right option. */
  datatype QuizItem = QuizItem(question: string, options: seq<string>, answer: string)

  /**
   * How many locked-in picks match their question: picks[i] is the option
   * revealed for questions[i].
   */
  function Correct(questions: seq<QuizItem>, picks: seq<string>): (n: nat)
    requires |picks| <= |questions|
    ensures n <= |picks|
    decreases picks
  {
    if picks == [] then 0
    else (if picks[0] == questions[0].answer then 1 else 0) + Correct(questions[1..], picks[1..])
  }

  /** Locking in one more pick adds one exactly when that pick is the next question's answer. */
  lemma {:induction false} CorrectSnoc(questions: seq<QuizItem>, picks: seq<string>, pick: string)
    requires |picks| < |questions|
    ensures Correct(questions, picks + [pick])
         == Correct(questions, picks) + (if pick == questions[|picks|].answer then 1 else 0)
    decreases picks
  {
    if picks != [] {
      assert (picks + [pick])[1..] == picks[1..] + [pick];
      CorrectSnoc(questions[1..], picks[1..], pick);
    }
  }

  /** A full score means every pick was right, and conversely. */
  lemma {:induction false} CorrectIsFull(questions: seq<QuizItem>, picks: seq<string>)
    requires |picks| <= |questions|
    ensures Correct(questions, picks) == |picks|
        <==> forall i :: 0 <= i < |picks| ==> picks[i] == questions[i].answer
    decreases picks
  {
    if picks != [] {
      CorrectIsFull(questions[1..], picks[1..]);
      if Correct(questions, picks) == |picks| {
        forall i | 0 <= i < |picks| ensures picks[i] == questions[i].answer {
          if i > 0 { assert picks[1..][i - 1] == picks[i]; }
        }
      } else {
        assert picks[0] != questions[0].answer
            || exists j :: 0 <= j < |picks[1..]| && picks[1..][j] != questions[1..][j].answer;
      }
    }
  }

  /**
   * Width of the progress bar in percent: the share of questions already
   * passed, and 0 while there are no questions. Floating point is modelled
   * by exact reals.
   */
  function ProgressPercent(currentIndex: nat, total: nat): (r: real)
    requires total > 0 ==> currentIndex < total
    ensures total == 0 ==> r == 0.0
    ensures total > 0 ==> r * (total as real) == (currentIndex as real) * 100.0
    ensures 0.0 <= r < 100.0
  {
    if total == 0 then 0.0
    else ((currentIndex as real) / (total as real)) * 100.0
  }

  /** What the component renders: the loading note, the final result, or the current question. */
  datatype Screen =
    | Loading
    | Finished(score: nat, total: nat)
    | Asking(number: nat, total: nat, item: QuizItem)

  class Quiz {
    var questions: seq<QuizItem>
    var currentIndex: nat
    var selectedOption: Option<string>
    var showAnswer: bool
    var score: nat
    var completed: bool
    /** The option locked in by each reveal so far, one per question reached. */
    ghost var picks: seq<string>

    ghost predicate Valid()
      reads this
    {
      (|questions| == 0 ==> currentIndex == 0 && !showAnswer && !completed) &&
      (|questions| > 0 ==> currentIndex < |questions|) &&
      (showAnswer ==> selectedOption.Some?) &&
      (completed ==> showAnswer && currentIndex == |questions| - 1) &&
      |picks| == currentIndex + (if showAnswer then 1 else 0) &&
      (showAnswer ==> picks[currentIndex] == selectedOption.value) &&
      score == Correct(questions, picks)
    }

    /** The score never exceeds the questions passed plus the one just revealed. */
    lemma ScoreBound()
      requires Valid()
      ensures score <= currentIndex + (if showAnswer then 1 else 0)
      ensures score <= |questions|
    {
    }

    /** Mounting: no questions yet, first question, nothing chosen, score 0. */
    constructor ()
      ensures Valid()
      ensures questions == [] && currentIndex == 0 && selectedOption == None
      ensures !showAnswer && score == 0 && !completed && picks == []
    {
      questions, currentIndex, selectedOption := [], 0, None;
      showAnswer, score, completed := false, 0, false;
      picks := [];
    }

    /** The fetched list arrives (an empty list when the fetch failed); nothing else changes. */
    method Load(data: seq<QuizItem>)
      requires Valid() && questions == []
      modifies this
      ensures Valid() && questions == data
      ensures currentIndex == old(currentIndex) && selectedOption == old(selectedOption)
      ensures showAnswer == old(showAnswer) && score == old(score) && completed == old(completed)
      ensures picks == old(picks)
    {
      questions := data;
    }

    /** Choosing an option: before the reveal it replaces the selection, after it nothing happens. */
    method HandleSelect(option: string)
      requires Valid()
      modifies this
      ensures Valid()
      ensures selectedOption == if old(showAnswer) then old(selectedOption) else Some(option)
      ensures questions == old(questions) && currentIndex == old(currentIndex)
      ensures showAnswer == old(showAnswer) && score == old(score) && completed == old(completed)
      ensures picks == old(picks)
    {
      if showAnswer {
        return;
      }
      selectedOption := Some(option);
    }

    /**
     * Checking the answer: ignored when already shown, when nothing is
     * selected or when there is no current question; otherwise shows the
     * answer and adds one to the score exactly when the selection is right.
     */
    method RevealAnswer()
      requires Valid()
      modifies this
      ensures Valid()
      ensures questions == old(questions) && currentIndex == old(currentIndex)
      ensures selectedOption == old(selectedOption) && completed == old(completed)
      ensures old(showAnswer) || old(selectedOption).None? || old(currentIndex) >= |questions| ==>
                showAnswer == old(showAnswer) && score == old(score) && picks == old(picks)
      ensures !old(showAnswer) && old(selectedOption).Some? && old(currentIndex) < |questions| ==>
                showAnswer && picks == old(picks) + [old(selectedOption).value] &&
                score == old(score) + (if selectedOption.value == questions[currentIndex].answer then 1 else 0)
    {
      if showAnswer || selectedOption.None? || currentIndex >= |questions| {
        return;
      }
      CorrectSnoc(questions, picks, selectedOption.value);
      showAnswer := true;
      picks := picks + [selectedOption.value];
      if selectedOption.value == questions[currentIndex].answer {
        score := score + 1;
      }
    }

    /**
     * Moving on (the button is enabled only once the answer is shown): to the
     * next question with a fresh selection, or, on the last one, to the
     * finished state with index and score kept.
     */
    method GoNext()
      requires Valid() && showAnswer
      modifies this
      ensures Valid()
      ensures questions == old(questions) && score == old(score) && picks == old(picks)
      ensures old(currentIndex) + 1 < |questions| ==>
                currentIndex == old(currentIndex) + 1 && selectedOption == None && !showAnswer &&
                completed == old(completed)
      ensures old(currentIndex) + 1 >= |questions| ==>
                completed && currentIndex == old(currentIndex) &&
                selectedOption == old(selectedOption) && showAnswer == old(showAnswer)
    {
      if currentIndex + 1 < |questions| {
        currentIndex := currentIndex + 1;
        selectedOption := None;
        showAnswer := false;
      } else {
        completed := true;
      }
    }

    /** Starting over with the same questions. */
    method Restart()
      requires Valid()
      modifies this
      ensures Valid()
      ensures questions == old(questions)
      ensures currentIndex == 0 && selectedOption == None && !showAnswer && score == 0 && !completed
      ensures picks == []
    {
      currentIndex := 0;
      selectedOption := None;
      showAnswer := false;
      score := 0;
      completed := false;
      picks := [];
    }

    /** Which of the three views is rendered, with what it shows. */
    function View(): (s: Screen)
      reads this
      requires Valid()
      ensures s.Loading? <==> |questions| == 0
      ensures s.Finished? ==> completed && s.total == |questions| && s.score == score <= s.total
      ensures s.Asking? ==> !completed && s.number == currentIndex + 1
                            && 1 <= s.number <= s.total == |questions|
                            && s.item == questions[s.number - 1]
    {
      if |questions| == 0 then Loading
      else if completed then Finished(score, |questions|)
      else Asking(currentIndex + 1, |questions|, questions[currentIndex])
    }
  }

  /**
   * The two-question session: a wrong first pick, a right second pick, and
   * the run ends finished with one point out of two.
   */
  method TwoQuestionSession() returns (score: nat, total: nat, completed: bool)
    ensures score == 1 && total == 2 && completed
  {
    var quiz := new Quiz();
    quiz.Load([QuizItem("Q1", ["A", "B"], "B"), QuizItem("Q2", ["X", "Y"], "X")]);
    quiz.HandleSelect("A");
    quiz.RevealAnswer();
    assert quiz.showAnswer && quiz.score == 0;
    quiz.GoNext();
    assert quiz.currentIndex == 1 && quiz.selectedOption == None;
    quiz.HandleSelect("Y");
    quiz.HandleSelect("X");
    quiz.RevealAnswer();
    quiz.RevealAnswer();
    quiz.GoNext();
    assert quiz.picks == ["A", "X"];
    score, total, completed := quiz.score, |quiz.questions|, quiz.completed;
  }
}
