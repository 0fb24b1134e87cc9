// The timed quiz of screens/SpeedRoundsScreen.tsx: a setup screen offering
// 2-, 5- and 10-second rounds, one question at a time with a countdown, a
// verdict per question, and a final score. The countdown is kept in integer
// tenths of a second; the timers are events.
module SpeedRounds {
  import opened Common
  import opened Content

  datatype GameState = Setup | Playing | Finished

  datatype Feedback = Correct | Incorrect | Unanswered

  /** The render guard: the fallback screen shows for a missing payload, a
      missing `questions` array or an empty one. */
  predicate IsPlayable(data: Option<SpeedRoundsData>)
    ensures data.None? ==> !IsPlayable(data)
    ensures data.Some? && data.value.questions.None? ==> !IsPlayable(data)
    ensures data.Some? && data.value.questions == Some([]) ==> !IsPlayable(data)
    ensures data.Some? && data.value.questions.Some? && data.value.questions.value != [] ==> IsPlayable(data)
  {
    data.Some? && data.value.questions.Some? && |data.value.questions.value| > 0
  }

  /** The round lengths offered on the setup screen. */
  predicate IsOfferedDuration(d: int)
  {
    d == 2 || d == 5 || d == 10
  }

  /** The number of questions answered right. */
  function CorrectCount(verdicts: seq<Feedback>): (n: nat)
    ensures n <= |verdicts|
    ensures n == 0 <==> forall i :: 0 <= i < |verdicts| ==> verdicts[i] != Correct
  {
    if verdicts == [] then 0
    else CorrectCount(verdicts[..|verdicts| - 1]) + (if verdicts[|verdicts| - 1] == Correct then 1 else 0)
  }

  /** The class of an option button. */
  datatype OptionClass = Plain | Green | Red | Dimmed

  /** `getOptionClass(option)`, with the source's selected-option test. */
  function ClassOf(feedback: Option<Feedback>, option: string, correctAnswer: string): (k: OptionClass)
    ensures k == Plain <==> feedback.None?
    ensures k == Green <==> feedback.Some? && option == correctAnswer
    ensures k == Red <==> feedback == Some(Incorrect) && option != correctAnswer
    ensures k == Dimmed <==> feedback.Some? && feedback != Some(Incorrect) && option != correctAnswer
  {
    if feedback.None? then Plain
    else
      var isCorrect := option == correctAnswer;
      var isSelected := Some(option) == (if feedback == Some(Incorrect) then Some(option) else None);
      if isCorrect then Green
      else if isSelected && feedback == Some(Incorrect) then Red
      else Dimmed
  }

  /** "Selected" compares the option with itself, so after a wrong answer
      every wrong option is red, not only the one that was clicked. */
  lemma WrongAnswerReddensEveryWrongOption(options: seq<string>, correctAnswer: string)
    ensures forall o :: o in options && o != correctAnswer ==> ClassOf(Some(Incorrect), o, correctAnswer) == Red
  {
  }

  class Round {
    const questions: seq<SpeedRoundQuestion>
    var gameState: GameState
    var timerDuration: nat
    var currentQuestionIndex: nat
    var timeLeft: nat
    var score: nat
    var feedback: Option<Feedback>
    /** The verdicts of this round, one per question that has one. */
    ghost var verdicts: seq<Feedback>

    /** The index names a question, the countdown stays within the round
        length, and the score counts the right answers among the verdicts,
        which are one per question reached. */
    ghost predicate Valid()
      reads this
    {
      && |questions| > 0
      && currentQuestionIndex < |questions|
      && IsOfferedDuration(timerDuration)
      && timeLeft <= 10 * timerDuration
      && score == CorrectCount(verdicts)
      && |verdicts| <= |questions|
      && (feedback.Some? ==> gameState == Playing)
      && (gameState == Playing ==>
            |verdicts| == currentQuestionIndex + (if feedback.Some? then 1 else 0)
            && (feedback.Some? ==> verdicts[|verdicts| - 1] == feedback.value))
      && (gameState == Finished ==> |verdicts| == |questions|)
    }

    constructor (data: SpeedRoundsData)
      requires IsPlayable(Some(data))
      ensures questions == data.questions.value
      ensures gameState == Setup && timerDuration == 5 && timeLeft == 50
      ensures currentQuestionIndex == 0 && score == 0 && feedback.None?
      ensures Valid()
    {
      questions := data.questions.value;
      gameState, timerDuration, timeLeft := Setup, 5, 50;
      currentQuestionIndex, score, feedback := 0, 0, None;
      verdicts := [];
    }

    /** `startGame(duration)` from one of the setup buttons. */
    method StartGame(duration: nat)
      requires Valid() && IsOfferedDuration(duration)
      modifies this
      ensures Valid()
      ensures gameState == Playing && timerDuration == duration && timeLeft == 10 * duration
      ensures currentQuestionIndex == 0 && score == 0 && feedback.None?
    {
      timerDuration := duration;
      timeLeft := 10 * duration;
      currentQuestionIndex := 0;
      score := 0;
      feedback := None;
      gameState := Playing;
      verdicts := [];
    }

    /** One 100 ms tick of the countdown, which stops at zero. */
    method Tick()
      requires Valid()
      modifies this
      ensures Valid()
      ensures timeLeft == if old(timeLeft) > 0 then old(timeLeft) - 1 else 0
      ensures gameState == old(gameState) && currentQuestionIndex == old(currentQuestionIndex)
      ensures score == old(score) && feedback == old(feedback) && timerDuration == old(timerDuration)
    {
      timeLeft := if timeLeft > 0 then timeLeft - 1 else 0;
    }

    /** The question's time runs out before an answer. */
    method Timeout()
      requires Valid() && gameState == Playing && feedback.None?
      modifies this
      ensures Valid()
      ensures feedback == Some(Unanswered) && score == old(score)
      ensures gameState == old(gameState) && currentQuestionIndex == old(currentQuestionIndex)
      ensures timeLeft == old(timeLeft) && timerDuration == old(timerDuration)
    {
      feedback := Some(Unanswered);
      verdicts := verdicts + [Unanswered];
      assert verdicts[..|verdicts| - 1] == old(verdicts);
    }

    /** `handleAnswerClick(option)`: ignored once the question has a verdict. */
    method AnswerClick(option: string)
      requires Valid() && gameState == Playing
      modifies this
      ensures Valid()
      ensures old(feedback).Some? ==> feedback == old(feedback) && score == old(score)
      ensures old(feedback).None? && option == questions[currentQuestionIndex].correctAnswer ==>
                feedback == Some(Correct) && score == old(score) + 1
      ensures old(feedback).None? && option != questions[currentQuestionIndex].correctAnswer ==>
                feedback == Some(Incorrect) && score == old(score)
      ensures gameState == old(gameState) && currentQuestionIndex == old(currentQuestionIndex)
      ensures timeLeft == old(timeLeft) && timerDuration == old(timerDuration)
    {
      if feedback.Some? {
        return;
      }
      var isCorrect := option == questions[currentQuestionIndex].correctAnswer;
      if isCorrect {
        score := score + 1;
        feedback := Some(Correct);
        verdicts := verdicts + [Correct];
      } else {
        feedback := Some(Incorrect);
        verdicts := verdicts + [Incorrect];
      }
      assert verdicts[..|verdicts| - 1] == old(verdicts);
    }

    /** `handleNextQuestion`, run once the verdict has been shown; a new
        question restarts the countdown. */
    method NextQuestion()
      requires Valid() && feedback.Some?
      modifies this
      ensures Valid()
      ensures feedback.None? && score == old(score) && timerDuration == old(timerDuration)
      ensures old(currentQuestionIndex) < |questions| - 1 ==>
                currentQuestionIndex == old(currentQuestionIndex) + 1 && gameState == Playing
                && timeLeft == 10 * timerDuration
      ensures old(currentQuestionIndex) == |questions| - 1 ==>
                currentQuestionIndex == old(currentQuestionIndex) && gameState == Finished
                && timeLeft == old(timeLeft)
    {
      feedback := None;
      if currentQuestionIndex < |questions| - 1 {
        currentQuestionIndex := currentQuestionIndex + 1;
        timeLeft := 10 * timerDuration;
      } else {
        gameState := Finished;
      }
    }

    /** "Play Again". */
    method PlayAgain()
      requires Valid() && gameState == Finished
      modifies this
      ensures Valid() && gameState == Setup
      ensures score == old(score) && currentQuestionIndex == old(currentQuestionIndex)
      ensures feedback == old(feedback) && timeLeft == old(timeLeft) && timerDuration == old(timerDuration)
    {
      gameState := Setup;
    }
  }

  /** The score never exceeds the number of questions. */
  lemma ScoreAtMostQuestions(r: Round)
    requires r.Valid()
    ensures r.score <= |r.questions|
  {
  }

  /** A finished round scores the number of right answers among exactly one
      verdict per question. */
  lemma FinishedScoreCountsEveryQuestion(r: Round)
    requires r.Valid() && r.gameState == Finished
    ensures |r.verdicts| == |r.questions| && r.score == CorrectCount(r.verdicts)
  {
  }
}
