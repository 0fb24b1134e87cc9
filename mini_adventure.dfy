// The companion adventure of screens/MiniAdventureScreen.tsx: the payload is
// checked field by field, then the player goes stage by stage, each click
// answering with the stage's success or failure text.
module MiniAdventure {
  import opened Common
  import opened Content

  /** A stage whose every field has its declared type. */
  datatype Stage = Stage(description: string, companionDialogue: string, question: string,
                         options: seq<string>, correctAnswer: string,
                         successResponse: string, failureResponse: string)

  /** The field checks of `isDataValid` for one array element. */
  predicate IsWellTyped(stage: Option<AdventureStage>)
  {
    && stage.Some?
    && stage.value.description.Some?
    && stage.value.companionDialogue.Some?
    && stage.value.challenge.Some?
    && stage.value.challenge.value.question.Some?
    && stage.value.challenge.value.options.Some?
    && stage.value.challenge.value.correctAnswer.Some?
    && stage.value.successResponse.Some?
    && stage.value.failureResponse.Some?
  }

  /** `isDataValid`: a payload with a non-empty stages array whose every stage is well typed. */
  predicate IsDataValid(data: Option<MiniAdventureData>)
  {
    && data.Some?
    && data.value.stages.Some?
    && |data.value.stages.value| > 0
    && forall i :: 0 <= i < |data.value.stages.value| ==> IsWellTyped(data.value.stages.value[i])
  }

  /** A checked stage as the payload carries it. */
  function Raw(s: Stage): (r: Option<AdventureStage>)
    ensures IsWellTyped(r)
  {
    Some(AdventureStage(Some(s.description), Some(s.companionDialogue),
                        Some(AdventureChallenge(Some(s.question), Some(s.options), Some(s.correctAnswer))),
                        Some(s.successResponse), Some(s.failureResponse)))
  }

  /** The stage a well-typed element stands for. */
  function Typed(stage: Option<AdventureStage>): (r: Stage)
    requires IsWellTyped(stage)
    ensures Raw(r) == stage
  {
    var st := stage.value;
    var c := st.challenge.value;
    Stage(st.description.value, st.companionDialogue.value, c.question.value, c.options.value,
          c.correctAnswer.value, st.successResponse.value, st.failureResponse.value)
  }

  /** Checking a list of elements: the stages, or `None` at the first ill-typed one. */
  function CheckStages(stages: seq<Option<AdventureStage>>): (r: Option<seq<Stage>>)
    ensures r.Some? <==> forall i :: 0 <= i < |stages| ==> IsWellTyped(stages[i])
    ensures r.Some? ==> |r.value| == |stages| && forall i :: 0 <= i < |stages| ==> Raw(r.value[i]) == stages[i]
  {
    if stages == [] then Some([])
    else if !IsWellTyped(stages[0]) then None
    else
      var rest := CheckStages(stages[1..]);
      if rest.None? then
        assert !IsWellTyped(stages[1..][FailingIndex(stages[1..])]);
        None
      else
        Some([Typed(stages[0])] + rest.value)
  }

  /** The index of some ill-typed element. */
  function FailingIndex(stages: seq<Option<AdventureStage>>): (i: nat)
    requires exists i :: 0 <= i < |stages| && !IsWellTyped(stages[i])
    ensures i < |stages| && !IsWellTyped(stages[i])
  {
    if !IsWellTyped(stages[0]) then 0 else 1 + FailingIndex(stages[1..])
  }

  /** The payload as the screen plays it, or `None` for the error state. */
  function Validate(data: Option<MiniAdventureData>): (r: Option<seq<Stage>>)
    ensures r.Some? <==> IsDataValid(data)
    ensures r.Some? ==> |r.value| == |data.value.stages.value| > 0
    ensures r.Some? ==> forall i :: 0 <= i < |r.value| ==> Raw(r.value[i]) == data.value.stages.value[i]
  {
    if data.None? || data.value.stages.None? || |data.value.stages.value| == 0 then None
    else CheckStages(data.value.stages.value)
  }

  /** Checking the payload loses nothing: the stages it yields carry it back. */
  lemma ValidateRoundTrip(stages: seq<Stage>, data: MiniAdventureData)
    requires |stages| > 0
    requires data.stages == Some(seq(|stages|, i requires 0 <= i < |stages| => Raw(stages[i])))
    ensures Validate(Some(data)) == Some(stages)
  {
    var raw := data.stages.value;
    assert forall i :: 0 <= i < |stages| ==> raw[i] == Raw(stages[i]);
    assert IsDataValid(Some(data));
    var r := Validate(Some(data));
    assert |r.value| == |stages|;
    forall i | 0 <= i < |stages|
      ensures r.value[i] == stages[i]
    {
      assert Raw(r.value[i]) == raw[i];
      RawInjective(r.value[i], stages[i]);
    }
    assert r.value == stages;
  }

  lemma RawInjective(a: Stage, b: Stage)
    requires Raw(a) == Raw(b)
    ensures a == b
  {
  }

  // ----- play -----

  datatype Phase = Intro | Playing | Conclusion

  /** The screen's state: `gameState`, `currentStageIndex`, `selectedOption`, `feedback`. */
  datatype AdventureState = AdventureState(phase: Phase, index: nat, selected: Option<string>, feedback: Option<string>)

  /** JavaScript truthiness of the feedback: set and not empty. */
  predicate Locked(s: AdventureState)
  {
    s.feedback.Some? && s.feedback.value != ""
  }

  function Initial(): AdventureState
  {
    AdventureState(Intro, 0, None, None)
  }

  /** `handleOptionClick(option)` on `stage`: ignored while feedback shows,
      otherwise the success text iff the option is the answer. */
  function Choose(s: AdventureState, stage: Stage, option: string): (r: AdventureState)
    ensures Locked(s) ==> r == s
    ensures !Locked(s) ==> r.phase == s.phase && r.index == s.index && r.selected == Some(option)
    ensures !Locked(s) ==> r.feedback == Some(if option == stage.correctAnswer then stage.successResponse else stage.failureResponse)
  {
    if Locked(s) then s
    else if option == stage.correctAnswer then s.(selected := Some(option), feedback := Some(stage.successResponse))
    else s.(selected := Some(option), feedback := Some(stage.failureResponse))
  }

  /** A stage whose response text is empty does not lock the options: the
      player can click again and the later click replaces the earlier one. */
  lemma EmptyResponseDoesNotLock(s: AdventureState, stage: Stage, first: string, second: string)
    requires !Locked(s) && first == stage.correctAnswer && stage.successResponse == ""
    ensures Choose(Choose(s, stage, first), stage, second).selected == Some(second)
  {
  }

  /** A non-empty response locks the stage: later clicks change nothing. */
  lemma ResponseLocks(s: AdventureState, stage: Stage, first: string, second: string)
    requires !Locked(s) && stage.successResponse != "" && stage.failureResponse != ""
    ensures Choose(Choose(s, stage, first), stage, second) == Choose(s, stage, first)
  {
  }

  /** `handleNext` for `n` stages: the next stage with nothing chosen, or the
      conclusion from the last one, which keeps the choice and the feedback. */
  function Advance(s: AdventureState, n: nat): (r: AdventureState)
    requires n > 0
    ensures s.index < n - 1 ==> r == AdventureState(s.phase, s.index + 1, None, None)
    ensures s.index >= n - 1 ==> r == s.(phase := Conclusion)
  {
    if s.index < n - 1 then s.(index := s.index + 1, selected := None, feedback := None)
    else s.(phase := Conclusion)
  }

  /** `handleStartAdventure`. */
  function Start(s: AdventureState): (r: AdventureState)
    ensures r.phase == Playing && r.index == 0 && r.selected.None? && r.feedback.None?
  {
    AdventureState(Playing, 0, None, None)
  }

  /** The class of an option button. */
  datatype OptionClass = Plain | Green | Red | Dimmed

  /** `getOptionClass(option)`. */
  function ClassOf(s: AdventureState, stage: Stage, option: string): (k: OptionClass)
    ensures k == Plain <==> !Locked(s)
    ensures k == Green <==> Locked(s) && option == stage.correctAnswer
    ensures k == Red <==> Locked(s) && option != stage.correctAnswer && s.selected == Some(option)
  {
    if !Locked(s) then Plain
    else if option == stage.correctAnswer then Green
    else if s.selected == Some(option) && option != stage.correctAnswer then Red
    else Dimmed
  }

  /** After a locking answer, the answer is green, a wrong pick is red and
      every other option is dimmed. */
  lemma AnswerColours(s: AdventureState, stage: Stage, option: string, other: string)
    requires !Locked(s) && stage.successResponse != "" && stage.failureResponse != ""
    requires other != option && other != stage.correctAnswer
    ensures ClassOf(Choose(s, stage, option), stage, stage.correctAnswer) == Green
    ensures option != stage.correctAnswer ==> ClassOf(Choose(s, stage, option), stage, option) == Red
    ensures ClassOf(Choose(s, stage, option), stage, other) == Dimmed
  {
  }

  class Adventure {
    const stages: seq<Stage>
    var gameState: Phase
    var currentStageIndex: nat
    var selectedOption: Option<string>
    var feedback: Option<string>

    function State(): AdventureState
      reads this
    {
      AdventureState(gameState, currentStageIndex, selectedOption, feedback)
    }

    /** The index names a stage. */
    ghost predicate Valid()
      reads this
    {
      |stages| > 0 && currentStageIndex < |stages|
    }

    constructor (data: MiniAdventureData)
      requires IsDataValid(Some(data))
      ensures Some(stages) == Validate(Some(data)) && State() == Initial() && Valid()
    {
      stages := Validate(Some(data)).value;
      gameState, currentStageIndex, selectedOption, feedback := Intro, 0, None, None;
    }

    /** "Start Adventure!". */
    method StartAdventure()
      requires Valid() && gameState == Intro
      modifies this
      ensures Valid() && State() == Start(old(State()))
    {
      gameState := Playing;
      currentStageIndex := 0;
      selectedOption := None;
      feedback := None;
    }

    /** A click on one of the current stage's options. */
    method OptionClick(option: string)
      requires Valid() && gameState == Playing
      modifies this
      ensures Valid() && State() == Choose(old(State()), stages[currentStageIndex], option)
    {
      if feedback.Some? && feedback.value != "" {
        return;
      }
      var stage := stages[currentStageIndex];
      selectedOption := Some(option);
      if option == stage.correctAnswer {
        feedback := Some(stage.successResponse);
      } else {
        feedback := Some(stage.failureResponse);
      }
    }

    /** "Next", shown while the feedback is not empty. */
    method Next()
      requires Valid() && gameState == Playing && Locked(State())
      modifies this
      ensures Valid() && State() == Advance(old(State()), |stages|)
    {
      if currentStageIndex < |stages| - 1 {
        currentStageIndex := currentStageIndex + 1;
        selectedOption := None;
        feedback := None;
      } else {
        gameState := Conclusion;
      }
    }
  }
}
