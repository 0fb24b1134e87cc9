// The branching story of screens/StoryBasedChallengeScreen.tsx: an
// introduction, then one node at a time where the first option clicked is
// kept and its feedback shown, then the conclusion.
module Story {
  import opened Common
  import opened Content

  datatype Stage = Intro | Playing | Conclusion

  /** The screen's state: `gameState`, `currentNodeIndex`, `selectedOption`. */
  datatype StoryState = StoryState(stage: Stage, index: nat, selected: Option<StoryOption>)

  /** The render guard: the fallback screen shows for a missing payload, a
      missing `nodes` array or an empty one. */
  predicate IsPlayable(data: Option<StoryBasedChallengeData>)
    ensures data.None? ==> !IsPlayable(data)
    ensures data.Some? && data.value.nodes.None? ==> !IsPlayable(data)
    ensures data.Some? && data.value.nodes == Some([]) ==> !IsPlayable(data)
    ensures data.Some? && data.value.nodes.Some? && data.value.nodes.value != [] ==> IsPlayable(data)
  {
    data.Some? && data.value.nodes.Some? && |data.value.nodes.value| > 0
  }

  function Initial(): StoryState
  {
    StoryState(Intro, 0, None)
  }

  /** `handleStartStory`. */
  function Start(s: StoryState): (r: StoryState)
    ensures r.stage == Playing && r.index == 0 && r.selected.None?
  {
    StoryState(Playing, 0, None)
  }

  /** `handleOptionClick(option)`: the first click of a node wins. */
  function Choose(s: StoryState, option: StoryOption): (r: StoryState)
    ensures r.stage == s.stage && r.index == s.index
    ensures r.selected == if s.selected.Some? then s.selected else Some(option)
  {
    if s.selected.Some? then s else s.(selected := Some(option))
  }

  /** `handleNext` for a story of `n` nodes. */
  function Advance(s: StoryState, n: nat): (r: StoryState)
    requires n > 0
    ensures r.selected.None?
    ensures s.index < n - 1 ==> r.stage == s.stage && r.index == s.index + 1
    ensures s.index >= n - 1 ==> r.stage == Conclusion && r.index == s.index
  {
    if s.index < n - 1 then StoryState(s.stage, s.index + 1, None)
    else StoryState(Conclusion, s.index, None)
  }

  /** Later clicks on the same node change nothing. */
  lemma FirstClickWins(s: StoryState, a: StoryOption, b: StoryOption)
    ensures Choose(Choose(s, a), b) == Choose(s, a)
  {
  }

  /** Answering node after node: one option chosen, then Next, per choice. */
  function Play(s: StoryState, n: nat, choices: seq<StoryOption>): StoryState
    requires n > 0
    decreases |choices|
  {
    if choices == [] then s else Play(Advance(Choose(s, choices[0]), n), n, choices[1..])
  }

  /** From node `i` of a story of `n` nodes, `k` answered nodes lead to node
      `i + k`, or to the conclusion on the last node once `i + k` reaches `n`. */
  lemma {:induction false} PlayVisitsNodesInOrder(n: nat, i: nat, choices: seq<StoryOption>)
    requires i < n && i + |choices| <= n
    ensures var r := Play(StoryState(Playing, i, None), n, choices);
            if i + |choices| < n then r == StoryState(Playing, i + |choices|, None)
            else r == StoryState(Conclusion, n - 1, None)
    decreases |choices|
  {
    if choices != [] {
      var s := Advance(Choose(StoryState(Playing, i, None), choices[0]), n);
      if i < n - 1 {
        assert s == StoryState(Playing, i + 1, None);
        PlayVisitsNodesInOrder(n, i + 1, choices[1..]);
      } else {
        assert |choices| == 1;
        assert Play(s, n, choices[1..]) == s;
      }
    }
  }

  /** Starting the story and answering every node ends in the conclusion. */
  lemma StoryEndsAfterEveryNode(s: StoryState, n: nat, choices: seq<StoryOption>)
    requires n > 0 && |choices| == n
    ensures Play(Start(s), n, choices) == StoryState(Conclusion, n - 1, None)
  {
    PlayVisitsNodesInOrder(n, 0, choices);
  }

  /** The class of an option button. */
  datatype OptionClass = Plain | Green | Red | Dimmed

  /** `getOptionClass(option)`: options are compared with the selection by text. */
  function ClassOf(selected: Option<StoryOption>, option: StoryOption): (k: OptionClass)
    ensures k == Plain <==> selected.None?
    ensures k == Green <==> selected.Some? && selected.value.text == option.text && option.isCorrect
    ensures k == Red <==> selected.Some? && selected.value.text == option.text && !option.isCorrect
  {
    if selected.None? then Plain
    else if selected.value.text == option.text then (if option.isCorrect then Green else Red)
    else Dimmed
  }

  /** The chosen option shows its own correctness, and every other option
      with a different text is dimmed. */
  lemma ChosenOptionColoured(o: StoryOption, other: StoryOption)
    ensures ClassOf(Some(o), o) == if o.isCorrect then Green else Red
    ensures other.text != o.text ==> ClassOf(Some(o), other) == Dimmed
  {
  }

  class StoryScreen {
    const nodes: seq<StoryNode>
    var gameState: Stage
    var currentNodeIndex: nat
    var selectedOption: Option<StoryOption>

    function State(): StoryState
      reads this
    {
      StoryState(gameState, currentNodeIndex, selectedOption)
    }

    /** The index names a node. */
    ghost predicate Valid()
      reads this
    {
      |nodes| > 0 && currentNodeIndex < |nodes|
    }

    constructor (data: StoryBasedChallengeData)
      requires IsPlayable(Some(data))
      ensures nodes == data.nodes.value && State() == Initial() && Valid()
    {
      nodes := data.nodes.value;
      gameState, currentNodeIndex, selectedOption := Intro, 0, None;
    }

    /** "Begin Adventure". */
    method StartStory()
      requires Valid() && gameState == Intro
      modifies this
      ensures Valid() && State() == Start(old(State()))
    {
      gameState := Playing;
      currentNodeIndex := 0;
      selectedOption := None;
    }

    /** A click on one of the current node's options. */
    method OptionClick(option: StoryOption)
      requires Valid() && gameState == Playing && option in nodes[currentNodeIndex].options
      modifies this
      ensures Valid() && State() == Choose(old(State()), option)
    {
      if selectedOption.Some? {
        return;
      }
      selectedOption := Some(option);
    }

    /** "Next", shown once an option is chosen. */
    method Next()
      requires Valid() && gameState == Playing && selectedOption.Some?
      modifies this
      ensures Valid() && State() == Advance(old(State()), |nodes|)
    {
      selectedOption := None;
      if currentNodeIndex < |nodes| - 1 {
        currentNodeIndex := currentNodeIndex + 1;
      } else {
        gameState := Conclusion;
      }
    }
  }
}
