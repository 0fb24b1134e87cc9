// The screen navigator of App.tsx: which screen is shown, the chosen avatar,
// and one optional payload slot per activity. The handlers are modelled twice:
// as a pure transition function `Apply` over a state value (the specification),
// and as the methods of the class `Session`, whose fields the handlers assign.
module Session {
  import opened Common
  import opened Content

  datatype Screen =
    | Landing | AvatarSelection | Introduction | Dashboard | FeaturesOverview | CreationHub
    | Puzzles | DragAndDropGame | FindTheMistake | SpeedRounds | StoryBasedChallenge
    | ScenariosAndAnalogies | OutsideTheBox | MiniAdventure | KnowledgeTracker

  /** The nine screens that show a generated activity. */
  predicate IsActivity(s: Screen)
  {
    !(s.Landing? || s.AvatarSelection? || s.Introduction? || s.Dashboard? || s.FeaturesOverview? || s.CreationHub?)
  }

  /** The nine payload slots. */
  datatype Slots = Slots(
    puzzleData: Option<PuzzleData>,
    dragAndDropGameData: Option<DragAndDropGameData>,
    findTheMistakeData: Option<FindTheMistakeData>,
    speedRoundsData: Option<SpeedRoundsData>,
    storyBasedChallengeData: Option<StoryBasedChallengeData>,
    scenariosAndAnalogiesData: Option<ScenariosAndAnalogiesData>,
    outsideTheBoxData: Option<OutsideTheBoxData>,
    miniAdventureData: Option<MiniAdventureData>,
    knowledgeTrackerData: Option<KnowledgeTrackerData>)

  function NoSlots(): Slots
  {
    Slots(None, None, None, None, None, None, None, None, None)
  }

  datatype SessionState = SessionState(screen: Screen, avatar: AvatarData, slots: Slots)

  /** The handlers of App.tsx; the nine `handleXGenerated` handlers are
      `Generated` applied to a payload of kind X. */
  datatype Handler =
    | StartJourney
    | AvatarSelected(avatar: AvatarData)
    | IntroductionComplete
    | DashboardComplete
    | StartCreation
    | Generated(payload: Payload)
    | BackToHub

  /** The activity screen a payload kind is shown on. */
  function ScreenFor(p: Payload): (s: Screen)
    ensures IsActivity(s)
  {
    match p
    case PuzzlesPayload(_) => Puzzles
    case DragAndDropPayload(_) => DragAndDropGame
    case FindTheMistakePayload(_) => FindTheMistake
    case SpeedRoundsPayload(_) => SpeedRounds
    case StoryPayload(_) => StoryBasedChallenge
    case ScenariosPayload(_) => ScenariosAndAnalogies
    case OutsideTheBoxPayload(_) => OutsideTheBox
    case MiniAdventurePayload(_) => MiniAdventure
    case KnowledgeTrackerPayload(_) => KnowledgeTracker
  }

  /** The slots after storing a payload in its own slot. */
  function Store(slots: Slots, p: Payload): Slots
  {
    match p
    case PuzzlesPayload(d) => slots.(puzzleData := Some(d))
    case DragAndDropPayload(d) => slots.(dragAndDropGameData := Some(d))
    case FindTheMistakePayload(d) => slots.(findTheMistakeData := Some(d))
    case SpeedRoundsPayload(d) => slots.(speedRoundsData := Some(d))
    case StoryPayload(d) => slots.(storyBasedChallengeData := Some(d))
    case ScenariosPayload(d) => slots.(scenariosAndAnalogiesData := Some(d))
    case OutsideTheBoxPayload(d) => slots.(outsideTheBoxData := Some(d))
    case MiniAdventurePayload(d) => slots.(miniAdventureData := Some(d))
    case KnowledgeTrackerPayload(d) => slots.(knowledgeTrackerData := Some(d))
  }

  /** The slot that belongs to an activity screen is set. */
  predicate SlotSetFor(slots: Slots, s: Screen)
  {
    match s
    case Puzzles => slots.puzzleData.Some?
    case DragAndDropGame => slots.dragAndDropGameData.Some?
    case FindTheMistake => slots.findTheMistakeData.Some?
    case SpeedRounds => slots.speedRoundsData.Some?
    case StoryBasedChallenge => slots.storyBasedChallengeData.Some?
    case ScenariosAndAnalogies => slots.scenariosAndAnalogiesData.Some?
    case OutsideTheBox => slots.outsideTheBoxData.Some?
    case MiniAdventure => slots.miniAdventureData.Some?
    case KnowledgeTracker => slots.knowledgeTrackerData.Some?
    case _ => false
  }

  function Flag<T>(o: Option<T>): nat { if o.Some? then 1 else 0 }

  /** How many of the nine slots are set. */
  function SlotCount(slots: Slots): nat
  {
    Flag(slots.puzzleData) + Flag(slots.dragAndDropGameData) + Flag(slots.findTheMistakeData)
    + Flag(slots.speedRoundsData) + Flag(slots.storyBasedChallengeData)
    + Flag(slots.scenariosAndAnalogiesData) + Flag(slots.outsideTheBoxData)
    + Flag(slots.miniAdventureData) + Flag(slots.knowledgeTrackerData)
  }

  /** The session as App.tsx creates it (lines 36-48). */
  function Initial(): SessionState
  {
    SessionState(Landing, AvatarData("Ashette", AshetteArt, ""), NoSlots())
  }

  /** What one handler does to the session. */
  function Apply(s: SessionState, h: Handler): SessionState
  {
    match h
    case StartJourney => s.(screen := AvatarSelection)
    case AvatarSelected(a) => s.(avatar := a, screen := Introduction)
    case IntroductionComplete => s.(screen := Dashboard)
    case DashboardComplete => s.(screen := FeaturesOverview)
    case StartCreation => s.(screen := CreationHub)
    case Generated(p) => s.(slots := Store(s.slots, p), screen := ScreenFor(p))
    case BackToHub => s.(slots := NoSlots(), screen := CreationHub)
  }

  // ----- renderScreen -----

  /** The component `renderScreen` returns, with the props that carry state. */
  datatype View =
    | LandingView
    | AvatarSelectionView
    | IntroductionView(avatar: AvatarData)
    | DashboardView(avatar: AvatarData)
    | FeaturesOverviewView(avatar: AvatarData)
    | CreationHubView(avatar: AvatarData)
    | PuzzleView(puzzles: Option<PuzzleData>)
    | DragAndDropGameView(dragAndDrop: Option<DragAndDropGameData>)
    | FindTheMistakeView(findTheMistake: Option<FindTheMistakeData>)
    | SpeedRoundsView(speedRounds: Option<SpeedRoundsData>)
    | StoryBasedChallengeView(story: Option<StoryBasedChallengeData>)
    | ScenariosAndAnalogiesView(scenarios: Option<ScenariosAndAnalogiesData>)
    | OutsideTheBoxView(outsideTheBox: Option<OutsideTheBoxData>)
    | MiniAdventureView(miniAdventure: Option<MiniAdventureData>, companion: AvatarData)
    | KnowledgeTrackerView(knowledgeTracker: Option<KnowledgeTrackerData>)

  function RenderScreen(s: SessionState): View
  {
    match s.screen
    case Landing => LandingView
    case AvatarSelection => AvatarSelectionView
    case Introduction => IntroductionView(s.avatar)
    case Dashboard => DashboardView(s.avatar)
    case FeaturesOverview => FeaturesOverviewView(s.avatar)
    case CreationHub => CreationHubView(s.avatar)
    case Puzzles => PuzzleView(s.slots.puzzleData)
    case DragAndDropGame => DragAndDropGameView(s.slots.dragAndDropGameData)
    case FindTheMistake => FindTheMistakeView(s.slots.findTheMistakeData)
    case SpeedRounds => SpeedRoundsView(s.slots.speedRoundsData)
    case StoryBasedChallenge => StoryBasedChallengeView(s.slots.storyBasedChallengeData)
    case ScenariosAndAnalogies => ScenariosAndAnalogiesView(s.slots.scenariosAndAnalogiesData)
    case OutsideTheBox => OutsideTheBoxView(s.slots.outsideTheBoxData)
    case MiniAdventure => MiniAdventureView(s.slots.miniAdventureData, s.avatar)
    case KnowledgeTracker => KnowledgeTrackerView(s.slots.knowledgeTrackerData)
  }

  /** Whether the rendered component receives the callback `h`: each screen
      hands out only its own callbacks, and only the creation hub gets the
      nine generated callbacks. */
  predicate Wired(v: View, h: Handler)
  {
    match v
    case LandingView => h.StartJourney?
    case AvatarSelectionView => h.AvatarSelected?
    case IntroductionView(_) => h.IntroductionComplete?
    case DashboardView(_) => h.DashboardComplete?
    case FeaturesOverviewView(_) => h.StartCreation?
    case CreationHubView(_) => h.Generated?
    case _ => h.BackToHub?
  }

  /** A user action: the handler runs if the shown screen offers it, otherwise
      nothing happens. */
  function Step(s: SessionState, h: Handler): SessionState
  {
    if Wired(RenderScreen(s), h) then Apply(s, h) else s
  }

  function Run(s: SessionState, hs: seq<Handler>): SessionState
    decreases |hs|
  {
    if hs == [] then s else Run(Step(s, hs[0]), hs[1..])
  }

  /** The invariant of every reachable session: off the activity screens no
      slot is set; on an activity screen exactly one slot is set, its own. */
  predicate Consistent(s: SessionState)
  {
    if IsActivity(s.screen) then SlotCount(s.slots) == 1 && SlotSetFor(s.slots, s.screen)
    else s.slots == NoSlots()
  }

  // ----- properties -----

  /** The session starts on the landing screen with Ashette and no payload. */
  lemma InitialIsConsistent()
    ensures Initial().screen == Landing && Initial().avatar.name == "Ashette"
    ensures SlotCount(Initial().slots) == 0 && Consistent(Initial())
  {
  }

  /** The onboarding chain: landing, avatar selection, introduction, dashboard,
      features overview, creation hub, each step offered by the screen before it;
      only the avatar selection changes the avatar. */
  lemma OnboardingChain(a: AvatarData)
    ensures Run(Initial(), [StartJourney]).screen == AvatarSelection
    ensures Run(Initial(), [StartJourney, AvatarSelected(a)]) == SessionState(Introduction, a, NoSlots())
    ensures Run(Initial(), [StartJourney, AvatarSelected(a), IntroductionComplete, DashboardComplete, StartCreation])
         == SessionState(CreationHub, a, NoSlots())
  {
    var hs := [StartJourney, AvatarSelected(a), IntroductionComplete, DashboardComplete, StartCreation];
    var s1 := Step(Initial(), StartJourney);
    var s2 := Step(s1, AvatarSelected(a));
    var s3 := Step(s2, IntroductionComplete);
    var s4 := Step(s3, DashboardComplete);
    assert Run(Initial(), [StartJourney]) == Run(s1, []);
    assert [StartJourney, AvatarSelected(a)][1..] == [AvatarSelected(a)];
    assert Run(s1, [AvatarSelected(a)]) == Run(s2, []);
    assert hs[1..][1..][1..][1..] == [StartCreation];
    assert Run(Initial(), hs) == Run(s1, hs[1..]) == Run(s2, hs[1..][1..]);
    assert Run(s2, hs[1..][1..]) == Run(s3, hs[1..][1..][1..]) == Run(s4, [StartCreation]);
    assert Run(s4, [StartCreation]) == Run(Step(s4, StartCreation), []);
  }

  /** Only the avatar-selected handler changes the avatar. */
  lemma AvatarChangesOnlyOnSelection(s: SessionState, h: Handler)
    ensures Apply(s, h).avatar != s.avatar ==> h.AvatarSelected?
    ensures h.AvatarSelected? ==> Apply(s, h).avatar == h.avatar && Apply(s, h).screen == Introduction
  {
  }

  /** A generated payload lands in its own slot, moves to its own screen and
      leaves the other eight slots as they were. */
  lemma GeneratedSetsOnlyItsSlot(s: SessionState, p: Payload)
    ensures Apply(s, Generated(p)).screen == ScreenFor(p)
    ensures SlotSetFor(Apply(s, Generated(p)).slots, ScreenFor(p))
    ensures forall q: Payload :: ScreenFor(q) != ScreenFor(p) ==>
              SlotSetFor(Apply(s, Generated(p)).slots, ScreenFor(q)) == SlotSetFor(s.slots, ScreenFor(q))
    ensures Apply(s, Generated(p)).avatar == s.avatar
  {
  }

  /** Back clears every slot and returns to the hub, whatever was set; doing it
      twice is the same as doing it once. */
  lemma BackIsIdempotent(s: SessionState)
    ensures Apply(s, BackToHub) == SessionState(CreationHub, s.avatar, NoSlots())
    ensures Apply(Apply(s, BackToHub), BackToHub) == Apply(s, BackToHub)
  {
  }

  /** One offered action keeps the session consistent. */
  lemma StepKeepsConsistent(s: SessionState, h: Handler)
    requires Consistent(s)
    ensures Consistent(Step(s, h))
  {
    if Wired(RenderScreen(s), h) && h.Generated? {
      assert s.screen == CreationHub;
      assert s.slots == NoSlots();
      match h.payload
      case PuzzlesPayload(_) =>
      case DragAndDropPayload(_) =>
      case FindTheMistakePayload(_) =>
      case SpeedRoundsPayload(_) =>
      case StoryPayload(_) =>
      case ScenariosPayload(_) =>
      case OutsideTheBoxPayload(_) =>
      case MiniAdventurePayload(_) =>
      case KnowledgeTrackerPayload(_) =>
    }
  }

  /** Every session reachable by user actions is consistent: at most one slot
      is ever set, and an activity screen's own slot is set while it is shown. */
  lemma {:induction false} RunKeepsConsistent(s: SessionState, hs: seq<Handler>)
    requires Consistent(s)
    ensures Consistent(Run(s, hs))
    ensures SlotCount(Run(s, hs).slots) <= 1
    decreases |hs|
  {
    if hs != [] {
      StepKeepsConsistent(s, hs[0]);
      RunKeepsConsistent(Step(s, hs[0]), hs[1..]);
    }
  }

  /** In a consistent session an activity screen never receives a null payload,
      so its "missing payload" error state is unreachable. */
  lemma ActivityViewHasPayload(s: SessionState)
    requires Consistent(s) && IsActivity(s.screen)
    ensures match RenderScreen(s)
      case PuzzleView(p) => p.Some?
      case DragAndDropGameView(p) => p.Some?
      case FindTheMistakeView(p) => p.Some?
      case SpeedRoundsView(p) => p.Some?
      case StoryBasedChallengeView(p) => p.Some?
      case ScenariosAndAnalogiesView(p) => p.Some?
      case OutsideTheBoxView(p) => p.Some?
      case MiniAdventureView(p, _) => p.Some?
      case KnowledgeTrackerView(p) => p.Some?
      case _ => false
  {
  }

  // ----- the component's state -----

  class Session {
    var currentScreen: Screen
    var selectedAvatar: AvatarData
    var puzzleData: Option<PuzzleData>
    var dragAndDropGameData: Option<DragAndDropGameData>
    var findTheMistakeData: Option<FindTheMistakeData>
    var speedRoundsData: Option<SpeedRoundsData>
    var storyBasedChallengeData: Option<StoryBasedChallengeData>
    var scenariosAndAnalogiesData: Option<ScenariosAndAnalogiesData>
    var outsideTheBoxData: Option<OutsideTheBoxData>
    var miniAdventureData: Option<MiniAdventureData>
    var knowledgeTrackerData: Option<KnowledgeTrackerData>

    /** The fields as a state value. */
    function State(): SessionState
      reads this
    {
      SessionState(currentScreen, selectedAvatar,
        Slots(puzzleData, dragAndDropGameData, findTheMistakeData, speedRoundsData,
              storyBasedChallengeData, scenariosAndAnalogiesData, outsideTheBoxData,
              miniAdventureData, knowledgeTrackerData))
    }

    constructor ()
      ensures State() == Initial()
    {
      currentScreen := Landing;
      selectedAvatar := AvatarData("Ashette", AshetteArt, "");
      puzzleData, dragAndDropGameData, findTheMistakeData := None, None, None;
      speedRoundsData, storyBasedChallengeData, scenariosAndAnalogiesData := None, None, None;
      outsideTheBoxData, miniAdventureData, knowledgeTrackerData := None, None, None;
    }

    method HandleStartJourney()
      modifies this
      ensures State() == Apply(old(State()), StartJourney)
    {
      currentScreen := AvatarSelection;
    }

    method HandleAvatarSelected(avatar: AvatarData)
      modifies this
      ensures State() == Apply(old(State()), AvatarSelected(avatar))
    {
      selectedAvatar := avatar;
      currentScreen := Introduction;
    }

    method HandleIntroductionComplete()
      modifies this
      ensures State() == Apply(old(State()), IntroductionComplete)
    {
      currentScreen := Dashboard;
    }

    method HandleDashboardComplete()
      modifies this
      ensures State() == Apply(old(State()), DashboardComplete)
    {
      currentScreen := FeaturesOverview;
    }

    method HandleStartCreation()
      modifies this
      ensures State() == Apply(old(State()), StartCreation)
    {
      currentScreen := CreationHub;
    }

    method HandlePuzzlesGenerated(puzzles: PuzzleData)
      modifies this
      ensures State() == Apply(old(State()), Generated(PuzzlesPayload(puzzles)))
    {
      puzzleData := Some(puzzles);
      currentScreen := Puzzles;
    }

    method HandleDragAndDropGameGenerated(gameData: DragAndDropGameData)
      modifies this
      ensures State() == Apply(old(State()), Generated(DragAndDropPayload(gameData)))
    {
      dragAndDropGameData := Some(gameData);
      currentScreen := DragAndDropGame;
    }

    method HandleFindTheMistakeGenerated(gameData: FindTheMistakeData)
      modifies this
      ensures State() == Apply(old(State()), Generated(FindTheMistakePayload(gameData)))
    {
      findTheMistakeData := Some(gameData);
      currentScreen := FindTheMistake;
    }

    method HandleSpeedRoundsGenerated(gameData: SpeedRoundsData)
      modifies this
      ensures State() == Apply(old(State()), Generated(SpeedRoundsPayload(gameData)))
    {
      speedRoundsData := Some(gameData);
      currentScreen := SpeedRounds;
    }

    method HandleStoryBasedChallengeGenerated(gameData: StoryBasedChallengeData)
      modifies this
      ensures State() == Apply(old(State()), Generated(StoryPayload(gameData)))
    {
      storyBasedChallengeData := Some(gameData);
      currentScreen := StoryBasedChallenge;
    }

    method HandleScenariosAndAnalogiesGenerated(gameData: ScenariosAndAnalogiesData)
      modifies this
      ensures State() == Apply(old(State()), Generated(ScenariosPayload(gameData)))
    {
      scenariosAndAnalogiesData := Some(gameData);
      currentScreen := ScenariosAndAnalogies;
    }

    method HandleOutsideTheBoxGenerated(gameData: OutsideTheBoxData)
      modifies this
      ensures State() == Apply(old(State()), Generated(OutsideTheBoxPayload(gameData)))
    {
      outsideTheBoxData := Some(gameData);
      currentScreen := OutsideTheBox;
    }

    method HandleMiniAdventureGenerated(gameData: MiniAdventureData)
      modifies this
      ensures State() == Apply(old(State()), Generated(MiniAdventurePayload(gameData)))
    {
      miniAdventureData := Some(gameData);
      currentScreen := MiniAdventure;
    }

    method HandleKnowledgeTrackerGenerated(gameData: KnowledgeTrackerData)
      modifies this
      ensures State() == Apply(old(State()), Generated(KnowledgeTrackerPayload(gameData)))
    {
      knowledgeTrackerData := Some(gameData);
      currentScreen := KnowledgeTracker;
    }

    method HandleBackToHub()
      modifies this
      ensures State() == Apply(old(State()), BackToHub)
    {
      puzzleData, dragAndDropGameData, findTheMistakeData := None, None, None;
      speedRoundsData, storyBasedChallengeData, scenariosAndAnalogiesData := None, None, None;
      outsideTheBoxData, miniAdventureData, knowledgeTrackerData := None, None, None;
      currentScreen := CreationHub;
    }
  }
}
