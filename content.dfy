// The shapes of the generated activity payloads (the interfaces exported by
// lib/gemini.ts and the puzzle data read by the puzzle components), the
// avatar record of App.tsx, and the built-in knowledge-tracker payload.
//
// A payload is parsed JSON that the screens re-check structurally before use.
// Where a screen tests a field (`Array.isArray(x)`, `typeof x === 'string'`,
// a truthiness test), the field is an `Option`: `None` stands for a value of
// the wrong type or a missing field; a string is falsy exactly when it is "".
module Content {
  import opened Common

  // ----- App.tsx: the avatar handed between screens -----

  /** The six mascot drawings; the display handle of an avatar. */
  datatype Mascot = UrulaArt | ManawiArt | AshetteArt | RevnantArt | CruxArt | StellaArt

  datatype AvatarData = AvatarData(name: string, component: Mascot, story: string)

  // ----- puzzle payloads (components/puzzles/*.tsx) -----

  datatype CrosswordCell = CrosswordCell(number: Option<int>, letter: Option<string>)

  /** A crossword; a `None` cell is a black square. */
  datatype CrosswordData = CrosswordData(
    title: string,
    size: nat,
    grid: seq<seq<Option<CrosswordCell>>>,
    across: seq<string>,
    down: seq<string>)

  datatype WordSearchData = WordSearchData(title: string, grid: seq<seq<string>>, words: seq<string>)

  datatype BlankQuestion = BlankQuestion(question: string, answer: string)

  datatype FillInTheBlanksData = FillInTheBlanksData(title: string, questions: seq<BlankQuestion>)

  datatype Pair = Pair(term: string, definition: string)

  datatype MatchingData = MatchingData(title: string, pairs: seq<Pair>)

  /** The puzzle set, a parsed JSON object: its own keys in order, the keys
      whose value is truthy, and the four standard entries. */
  datatype PuzzleData = PuzzleData(
    keys: seq<string>,
    truthy: set<string>,
    crossword: Option<CrosswordData>,
    wordSearch: Option<WordSearchData>,
    fillInTheBlanks: Option<FillInTheBlanksData>,
    matching: Option<MatchingData>)

  /** What every JSON object satisfies: distinct keys, truthy keys among them,
      and a standard entry present exactly when its key holds a truthy value. */
  ghost predicate WellFormedPuzzles(p: PuzzleData)
  {
    && NoDuplicates(p.keys)
    && (forall k :: k in p.truthy ==> k in p.keys)
    && (p.crossword.Some? <==> "crossword" in p.truthy)
    && (p.wordSearch.Some? <==> "wordSearch" in p.truthy)
    && (p.fillInTheBlanks.Some? <==> "fillInTheBlanks" in p.truthy)
    && (p.matching.Some? <==> "matching" in p.truthy)
  }

  // ----- lib/gemini.ts payloads -----

  datatype DndItem = DndItem(text: string, category: string)

  datatype DragAndDropGameData = DragAndDropGameData(
    title: string,
    instruction: string,
    categories: Option<seq<string>>,
    items: Option<seq<DndItem>>)

  datatype Mistake = Mistake(incorrectText: string, correctText: string, explanation: string)

  datatype FindTheMistakeData = FindTheMistakeData(
    title: string,
    instruction: string,
    challengeText: string,
    mistakes: Option<seq<Mistake>>)

  datatype SpeedRoundQuestion = SpeedRoundQuestion(questionText: string, options: seq<string>, correctAnswer: string)

  datatype SpeedRoundsData = SpeedRoundsData(
    title: string,
    instruction: string,
    questions: Option<seq<SpeedRoundQuestion>>)

  datatype StoryOption = StoryOption(text: string, isCorrect: bool, feedback: string)

  datatype StoryNode = StoryNode(storyText: string, question: string, options: seq<StoryOption>)

  datatype StoryBasedChallengeData = StoryBasedChallengeData(
    title: string,
    introduction: string,
    nodes: Option<seq<StoryNode>>,
    conclusion: string)

  datatype ChallengeKind = Scenario | Analogy

  datatype ChallengeItem = ChallengeItem(
    kind: ChallengeKind,
    title: string,
    text: string,
    question: string,
    options: seq<string>,
    correctAnswer: string,
    explanation: string)

  datatype ScenariosAndAnalogiesData = ScenariosAndAnalogiesData(title: string, challenges: Option<seq<ChallengeItem>>)

  datatype OutsideTheBoxData = OutsideTheBoxData(
    title: string,
    problemStatement: string,
    hints: Option<seq<string>>,
    solutionExplanation: string)

  /** An adventure challenge as parsed; each field is `None` when it is not of
      the declared type. */
  datatype AdventureChallenge = AdventureChallenge(
    question: Option<string>,
    options: Option<seq<string>>,
    correctAnswer: Option<string>)

  datatype AdventureStage = AdventureStage(
    description: Option<string>,
    companionDialogue: Option<string>,
    challenge: Option<AdventureChallenge>,
    successResponse: Option<string>,
    failureResponse: Option<string>)

  /** A `None` stage is a null (falsy) array element. */
  datatype MiniAdventureData = MiniAdventureData(
    title: string,
    introduction: string,
    stages: Option<seq<Option<AdventureStage>>>,
    conclusion: string)

  datatype ActivitySummary = ActivitySummary(activity: string, skill: string)

  datatype KnowledgeTrackerData = KnowledgeTrackerData(
    title: string,
    overallSummary: string,
    activitySummaries: Option<seq<ActivitySummary>>,
    reflectionPrompts: Option<seq<string>>)

  /** The tracker shown when the notes are blank (`generateDefaultKnowledgeTrackerData`). */
  function DefaultKnowledgeTrackerData(): KnowledgeTrackerData
  {
    KnowledgeTrackerData(
      "Your Learning Journey Awaits",
      DefaultOverallSummary(),
      Some(DefaultActivitySummaries()),
      Some(DefaultReflectionPrompts()))
  }

  function DefaultOverallSummary(): (s: string)
    ensures s != ""
  {
    "This is your personal space " + "to watch your knowledge grow! " + "Start by adding some notes, " +
    "and I'll help you turn them " + "into fun activities " + "and track your progress."
  }

  /** One summary per activity kind. */
  function DefaultActivitySummaries(): (r: seq<ActivitySummary>)
    ensures |r| == 8
  {
    [
      ActivitySummary("Puzzles", "Detail Recall"),
      ActivitySummary("Drag-and-Drop", "Categorization"),
      ActivitySummary("Find the Mistake", "Critical Analysis"),
      ActivitySummary("Speed Rounds", "Quick Recall"),
      ActivitySummary("Story Challenges", "Applied Knowledge"),
      ActivitySummary("Scenarios", "Practical Application"),
      ActivitySummary("Creative Problems", "Lateral Thinking"),
      ActivitySummary("Adventures", "Engaged Learning")
    ]
  }

  function DefaultReflectionPrompts(): (r: seq<string>)
    ensures |r| == 3
  {
    [
      "What was the most interesting thing I learned today?",
      "How can I use this knowledge in a real-life situation?",
      "What concept is still a little fuzzy to me?"
    ]
  }

  /** A generated payload, tagged with the activity it was generated for. */
  datatype Payload =
    | PuzzlesPayload(puzzles: PuzzleData)
    | DragAndDropPayload(dragAndDrop: DragAndDropGameData)
    | FindTheMistakePayload(findTheMistake: FindTheMistakeData)
    | SpeedRoundsPayload(speedRounds: SpeedRoundsData)
    | StoryPayload(story: StoryBasedChallengeData)
    | ScenariosPayload(scenarios: ScenariosAndAnalogiesData)
    | OutsideTheBoxPayload(outsideTheBox: OutsideTheBoxData)
    | MiniAdventurePayload(miniAdventure: MiniAdventureData)
    | KnowledgeTrackerPayload(knowledgeTracker: KnowledgeTrackerData)
}
