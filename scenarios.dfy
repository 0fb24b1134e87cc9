// The scenario-and-analogy quiz of screens/ScenariosAndAnalogiesScreen.tsx:
// one challenge at a time, one scored answer each, an explanation, and a
// final score out of the number of challenges.
module Scenarios {
  import opened Common
  import opened Content

  datatype Verdict = Correct | Incorrect

  /** The screen's state: `currentChallengeIndex`, `selectedOption`,
      `feedback`, `score`, `isFinished`. */
  datatype QuizState = QuizState(index: nat, selected: Option<string>, feedback: Option<Verdict>,
                                 score: nat, finished: bool)

  /** The render guard: the fallback screen shows for a missing payload, a
      missing `challenges` array or an empty one. */
  predicate IsPlayable(data: Option<ScenariosAndAnalogiesData>)
    ensures data.None? ==> !IsPlayable(data)
    ensures data.Some? && data.value.challenges.None? ==> !IsPlayable(data)
    ensures data.Some? && data.value.challenges == Some([]) ==> !IsPlayable(data)
    ensures data.Some? && data.value.challenges.Some? && data.value.challenges.value != [] ==> IsPlayable(data)
  {
    data.Some? && data.value.challenges.Some? && |data.value.challenges.value| > 0
  }

  function Initial(): QuizState
  {
    QuizState(0, None, None, 0, false)
  }

  /** `handleOptionClick(option)` on a challenge whose answer is `correctAnswer`:
      ignored once there is feedback, otherwise scored. */
  function Choose(s: QuizState, option: string, correctAnswer: string): (r: QuizState)
    ensures s.feedback.Some? ==> r == s
    ensures s.feedback.None? ==> r.selected == Some(option) && r.index == s.index && r.finished == s.finished
    ensures s.feedback.None? ==> (r.feedback == Some(Correct) <==> option == correctAnswer)
    ensures s.feedback.None? ==> r.feedback.Some? && r.score == s.score + (if option == correctAnswer then 1 else 0)
  {
    if s.feedback.Some? then s
    else if option == correctAnswer then s.(selected := Some(option), feedback := Some(Correct), score := s.score + 1)
    else s.(selected := Some(option), feedback := Some(Incorrect))
  }

  /** `handleNext` for `n` challenges: the next challenge with a clean slate,
      or the end of the quiz on the last one. */
  function Advance(s: QuizState, n: nat): (r: QuizState)
    requires n > 0
    ensures r.score == s.score
    ensures s.index < n - 1 ==> r == QuizState(s.index + 1, None, None, s.score, s.finished)
    ensures s.index >= n - 1 ==> r == s.(finished := true)
  {
    if s.index < n - 1 then s.(index := s.index + 1, selected := None, feedback := None)
    else s.(finished := true)
  }

  /** The label of the button under the explanation. */
  function NextLabel(index: nat, n: nat): (caption: string)
    ensures caption == "Finish" <==> index >= n - 1
  {
    if index < n - 1 then "Next" else "Finish"
  }

  /** The number of challenges from `from` on answered right by `choices`. */
  function RightAnswers(challenges: seq<ChallengeItem>, from: nat, choices: seq<string>): (k: nat)
    requires from + |choices| <= |challenges|
    ensures k <= |choices|
    decreases |choices|
  {
    if choices == [] then 0
    else (if choices[0] == challenges[from].correctAnswer then 1 else 0) + RightAnswers(challenges, from + 1, choices[1..])
  }

  /** Answering challenge after challenge: one option, then Next, per choice. */
  function Play(s: QuizState, challenges: seq<ChallengeItem>, choices: seq<string>): QuizState
    requires |challenges| > 0
    decreases |choices|
  {
    if choices == [] || s.index >= |challenges| then s
    else Play(Advance(Choose(s, choices[0], challenges[s.index].correctAnswer), |challenges|), challenges, choices[1..])
  }

  /** From challenge `i`, answering the remaining challenges finishes the quiz
      and adds exactly the number of right answers to the score. */
  lemma {:induction false} PlayScoresRightAnswers(challenges: seq<ChallengeItem>, i: nat, score: nat, choices: seq<string>)
    requires i < |challenges| && i + |choices| == |challenges|
    ensures var r := Play(QuizState(i, None, None, score, false), challenges, choices);
            r.finished && r.index == |challenges| - 1 && r.score == score + RightAnswers(challenges, i, choices)
    decreases |choices|
  {
    var n := |challenges|;
    var s := Advance(Choose(QuizState(i, None, None, score, false), choices[0], challenges[i].correctAnswer), n);
    var gained := if choices[0] == challenges[i].correctAnswer then 1 else 0;
    assert s.score == score + gained;
    if i < n - 1 {
      assert s == QuizState(i + 1, None, None, score + gained, false);
      PlayScoresRightAnswers(challenges, i + 1, score + gained, choices[1..]);
    } else {
      assert choices[1..] == [];
      assert Play(s, challenges, choices[1..]) == s;
    }
  }

  /** The final score counts the right answers and is at most the number of challenges. */
  lemma FinalScore(challenges: seq<ChallengeItem>, choices: seq<string>)
    requires |challenges| > 0 && |choices| == |challenges|
    ensures var r := Play(Initial(), challenges, choices);
            r.finished && r.score == RightAnswers(challenges, 0, choices) && r.score <= |challenges|
  {
    PlayScoresRightAnswers(challenges, 0, 0, choices);
  }

  /** The class of an option button. */
  datatype OptionClass = Plain | Green | Red | Dimmed

  /** `getOptionClass(option)`. */
  function ClassOf(s: QuizState, option: string, correctAnswer: string): (k: OptionClass)
    ensures k == Plain <==> s.feedback.None?
    ensures k == Green <==> s.feedback.Some? && option == correctAnswer
    ensures k == Red <==> s.feedback == Some(Incorrect) && option != correctAnswer && s.selected == Some(option)
  {
    if s.feedback.None? then Plain
    else if option == correctAnswer then Green
    else if s.selected == Some(option) && s.feedback == Some(Incorrect) then Red
    else Dimmed
  }

  /** After an answer the right option is green, and a wrong pick is the
      one red option. */
  lemma AnswerColours(s: QuizState, option: string, other: string, correctAnswer: string)
    requires s.feedback.None? && other != option
    ensures ClassOf(Choose(s, option, correctAnswer), correctAnswer, correctAnswer) == Green
    ensures option != correctAnswer ==> ClassOf(Choose(s, option, correctAnswer), option, correctAnswer) == Red
    ensures other != correctAnswer ==> ClassOf(Choose(s, option, correctAnswer), other, correctAnswer) == Dimmed
  {
  }

  class Quiz {
    const challenges: seq<ChallengeItem>
    var currentChallengeIndex: nat
    var selectedOption: Option<string>
    var feedback: Option<Verdict>
    var score: nat
    var isFinished: bool

    function State(): QuizState
      reads this
    {
      QuizState(currentChallengeIndex, selectedOption, feedback, score, isFinished)
    }

    /** The index names a challenge, and the score is at most the number of
        challenges answered so far. */
    ghost predicate Valid()
      reads this
    {
      && |challenges| > 0
      && currentChallengeIndex < |challenges|
      && score <= currentChallengeIndex + (if feedback.Some? then 1 else 0)
      && (isFinished ==> feedback.Some?)
    }

    constructor (data: ScenariosAndAnalogiesData)
      requires IsPlayable(Some(data))
      ensures challenges == data.challenges.value && State() == Initial() && Valid()
    {
      challenges := data.challenges.value;
      currentChallengeIndex, selectedOption, feedback, score, isFinished := 0, None, None, 0, false;
    }

    /** A click on one of the current challenge's options. */
    method OptionClick(option: string)
      requires Valid() && !isFinished
      modifies this
      ensures Valid()
      ensures State() == Choose(old(State()), option, challenges[currentChallengeIndex].correctAnswer)
    {
      if feedback.Some? {
        return;
      }
      selectedOption := Some(option);
      if option == challenges[currentChallengeIndex].correctAnswer {
        feedback := Some(Correct);
        score := score + 1;
      } else {
        feedback := Some(Incorrect);
      }
    }

    /** "Next" or "Finish", shown once the challenge is answered. */
    method Next()
      requires Valid() && !isFinished && feedback.Some?
      modifies this
      ensures Valid() && State() == Advance(old(State()), |challenges|)
    {
      if currentChallengeIndex < |challenges| - 1 {
        currentChallengeIndex := currentChallengeIndex + 1;
        selectedOption := None;
        feedback := None;
      } else {
        isFinished := true;
      }
    }
  }

  /** The score shown is never more than the number of challenges. */
  lemma ScoreAtMostChallenges(q: Quiz)
    requires q.Valid()
    ensures q.score <= |q.challenges|
  {
  }
}
