# Aurora learning app: a verified model of its navigator and activities

Aurora is a small React learning app. A learner picks a companion avatar and
reads a short greeting. They then paste or upload study notes in the creation
hub, and the hub asks a generator to turn the notes into one of nine
activities: puzzles, drag-and-drop, find-the-mistake, speed rounds, a story
challenge, scenarios and analogies, an outside-the-box problem, a mini
adventure, or a knowledge tracker. Each activity screen is a small state
machine driven by clicks.

This project models in Dafny:

- the session navigator of `App.tsx`: screens, the avatar and the nine
  payload slots;
- the gating of the creation hub: which button may fire, the single loading
  lock, the 5000-character cut and the fallback to the built-in tracker;
- every activity component, each as a class whose fields are the component's
  state and whose methods are its event handlers.

Each class method is proved against a pure transition function or a
specification predicate. The properties the app promises are proved as
lemmas about those functions.

Modules follow the source files:

| module | file |
|---|---|
| `Session` | `App.tsx` |
| `CreationHub` | `screens/CreationHubScreen.tsx` |
| `WordSearch`, `Crossword`, `Matching`, `FillInTheBlanks` | `components/puzzles/*Puzzle.tsx` |
| `PuzzleScreen`, `DragAndDrop`, `FindTheMistake`, `SpeedRounds`, `Story`, `Scenarios`, `MiniAdventure`, `OutsideTheBox`, `Introduction`, `KnowledgeTracker`, `AvatarSelection` | the matching `screens/*.tsx` |
| `Content` | the payload interfaces of `lib/gemini.ts` and the built-in tracker payload |
| `Common` | the JavaScript string operations the screens use: `trim`, `toUpperCase`/`toLowerCase` on ASCII, and `split(' ')`/`join(' ')` |

Timers, randomness and the date are inputs to the model:

- A timer that fires is an event method (`Tick`, `Timeout`, `ClearFlash`).
- `Math.random` is a caller-supplied sequence of draws.
- `new Date()` becomes three parameters: the month length, the weekday of the
  first day, and today's day of the month.

A parsed JSON payload is a datatype. A field that a screen type-checks is
wrapped in an `Option`, where `None` stands for a missing field or one of the
wrong type.

Some behaviour is odd but is what the code does. It is modelled as written
and proved as stated:

- In find-the-mistake, a click on any word hands the handler the index past
  the last word, so no click selects the word clicked; see "## Findings"
  (`FindTheMistake.Challenge.WordClick`).
- In find-the-mistake, the red "wrong word" highlight can never show
  (`FindTheMistake.WrongAttemptNeverRed`).
- A mistake whose text equals an already-found one can never be found
  (`FindTheMistake.DuplicateTextNeverFound`).
- In the mini adventure, an empty response string does not lock the options
  (`MiniAdventure.EmptyResponseDoesNotLock`).
- In speed rounds, a wrong answer makes every wrong option red, not only the
  one clicked (`SpeedRounds.WrongAnswerReddensEveryWrongOption`).
- In drag-and-drop, a category named `unassigned` shares the pool's bucket,
  so the pool starts empty (`DragAndDrop.InitialPlacement`).
- In the crossword, an empty entry counts as correct when the stored letter
  is the empty string (`Crossword.BlankEntryVerdict`).
- In fill-in-the-blanks, an expected answer with leading or trailing spaces
  can never be matched (`FillInTheBlanks.PaddedExpectedNeverCorrect`).
- In the word search, lower-case grid letters never match a word
  (`WordSearch.LowercaseNeverMatches`).
- In the word search, the start cell of a diagonal drag is not highlighted,
  because of the 0/0 slope test (`WordSearch.HighlightMatchesPath`).
- On the puzzle screen, an empty first key falls back to the crossword tab
  (`PuzzleScreen.InitialTab`).

## Model

| member | source | states |
|---|---|---|
| Session.ScreenFor | App.tsx:72-115 | each generated payload leads to an activity screen |
| Session.InitialIsConsistent | App.tsx:36-48 | the session starts on the landing screen with avatar Ashette and no payload slot set, a state the navigator's invariant holds in |
| Session.OnboardingChain | App.tsx:51-70 | landing, avatar selection, introduction, dashboard, features overview and creation hub follow one another, and the chosen avatar is kept |
| Session.AvatarChangesOnlyOnSelection | App.tsx:55-58 | only the avatar-selected handler changes the avatar; it stores the pick and moves to the introduction |
| Session.GeneratedSetsOnlyItsSlot | App.tsx:72-115 | a generated payload goes to its own slot and its own screen; the other eight slots and the avatar are unchanged |
| Session.BackIsIdempotent | App.tsx:117-128 | back lands on the creation hub with all nine slots cleared, and a second back changes nothing |
| Session.StepKeepsConsistent | App.tsx:72-128 | any handler wired to the screen shown keeps the invariant: at most one slot set, and an activity screen's slot is set while it is shown |
| Session.RunKeepsConsistent | App.tsx:130-176 | after any sequence of wired events the invariant holds and at most one payload slot is set |
| Session.ActivityViewHasPayload | App.tsx:155-172 | in a reachable state an activity screen is always rendered with a payload, never a null one |
| Session.Session.constructor | App.tsx:36-48 | the component starts in the initial session state |
| Session.Session.HandleStartJourney | App.tsx:51-53 | moves to avatar selection; nothing else changes |
| Session.Session.HandleAvatarSelected | App.tsx:55-58 | stores the avatar and moves to the introduction |
| Session.Session.HandleIntroductionComplete | App.tsx:60-62 | moves to the dashboard |
| Session.Session.HandleDashboardComplete | App.tsx:64-66 | moves to the features overview |
| Session.Session.HandleStartCreation | App.tsx:68-70 | moves to the creation hub |
| Session.Session.HandlePuzzlesGenerated | App.tsx:72-75 | stores the puzzle set and shows the puzzle screen |
| Session.Session.HandleDragAndDropGameGenerated | App.tsx:77-80 | stores the drag-and-drop game and shows it |
| Session.Session.HandleFindTheMistakeGenerated | App.tsx:82-85 | stores the find-the-mistake game and shows it |
| Session.Session.HandleSpeedRoundsGenerated | App.tsx:87-90 | stores the speed rounds and shows them |
| Session.Session.HandleStoryBasedChallengeGenerated | App.tsx:92-95 | stores the story and shows it |
| Session.Session.HandleScenariosAndAnalogiesGenerated | App.tsx:97-100 | stores the scenarios and shows them |
| Session.Session.HandleOutsideTheBoxGenerated | App.tsx:102-105 | stores the problem and shows it |
| Session.Session.HandleMiniAdventureGenerated | App.tsx:107-110 | stores the adventure and shows it |
| Session.Session.HandleKnowledgeTrackerGenerated | App.tsx:112-115 | stores the tracker data and shows it |
| Session.Session.HandleBackToHub | App.tsx:117-128 | clears all nine slots and returns to the creation hub |
| CreationHub.FeatureOf | screens/CreationHubScreen.tsx:239-265 | an id names at most one feature; an id no feature has is reported as unknown |
| CreationHub.FeatureIdRoundTrip | screens/CreationHubScreen.tsx:5-15 | the nine feature ids are distinct and each one dispatches back to its own feature |
| CreationHub.TruncateNotes | screens/CreationHubScreen.tsx:35-48 | uploaded text keeps its first 5000 characters: it is a prefix of the file, the whole file when short enough, and exactly 5000 characters otherwise |
| CreationHub.Dispatch | screens/CreationHubScreen.tsx:54-265 | a request goes out only when nothing is loading and the notes are not blank, and for the feature clicked; the default tracker is delivered only for tracking with blank notes; an unknown id only alerts |
| CreationHub.DisabledIffIgnored | screens/CreationHubScreen.tsx:318-321 | a feature's button is disabled exactly when a click on it would be ignored |
| CreationHub.LoadingLocksEveryButton | screens/CreationHubScreen.tsx:55 | while a feature loads no click starts another request |
| CreationHub.TrackingFallback | screens/CreationHubScreen.tsx:225-237 | tracking with whitespace-only notes delivers the built-in tracker without a request; otherwise it requests one |
| CreationHub.Resolve | screens/CreationHubScreen.tsx:57-70 | the generated callback fires exactly when the generator answered, with that payload; no answer alerts, a failure alerts with the error |
| CreationHub.Hub.constructor | screens/CreationHubScreen.tsx:31-35 | empty notes, nothing loading |
| CreationHub.Hub.EditNotes | screens/CreationHubScreen.tsx:294-301 | typing replaces the notes and leaves the lock alone |
| CreationHub.Hub.FileLoaded | screens/CreationHubScreen.tsx:37-48 | a loaded file replaces the notes with its truncated text |
| CreationHub.Hub.FeatureClick | screens/CreationHubScreen.tsx:239-265 | a click has the effect the dispatch rule gives, and takes the loading lock exactly when it sends a request |
| CreationHub.Hub.Respond | screens/CreationHubScreen.tsx:57-70 | the response is resolved for the loading feature and the lock is released whatever the outcome |
| Common.TrimStart | screens/CreationHubScreen.tsx:55 | drops exactly the leading whitespace: the result is a suffix, what was dropped is all whitespace, and the result does not start with whitespace |
| Common.TrimEnd | screens/CreationHubScreen.tsx:55 | drops exactly the trailing whitespace, symmetrically |
| Common.BlankIffAllSpace | screens/CreationHubScreen.tsx:55 | notes are blank after trimming exactly when every character is whitespace |
| Common.NotBlank | screens/CreationHubScreen.tsx:55 | one non-whitespace character makes the trimmed text non-empty |
| Common.TrimStartOfSpace | screens/CreationHubScreen.tsx:55 | trimming all-whitespace text leaves nothing |
| Common.TrimStartKeeps | screens/CreationHubScreen.tsx:55 | trimming the start never drops a non-whitespace character |
| Common.TrimEndKeeps | screens/CreationHubScreen.tsx:55 | trimming the end never drops a non-whitespace character |
| Common.TrimPadded | screens/CreationHubScreen.tsx:55 | trimming a text padded with whitespace on both sides returns it, when it neither begins nor ends with whitespace |
| Common.Upper | components/puzzles/WordSearchPuzzle.tsx:19 | upper-cases character by character and keeps the length |
| Common.Lower | components/puzzles/FillInTheBlanksPuzzle.tsx:35 | lower-cases character by character and keeps the length |
| Common.UpperHasNoLowercase | components/puzzles/WordSearchPuzzle.tsx:19 | an upper-cased word has no lower-case letter, and upper-casing twice is upper-casing once |
| Common.SplitSpace | screens/FindTheMistakeScreen.tsx:26 | splitting on single spaces yields at least one token and no token holds a space |
| Common.FirstSpace | screens/FindTheMistakeScreen.tsx:26 | finds the first space of a text that has one |
| Common.JoinSplit | screens/FindTheMistakeScreen.tsx:26 | joining the tokens with single spaces gives back the text |
| Common.SplitJoin | screens/FindTheMistakeScreen.tsx:53 | splitting a space-joined list of space-free words gives back the list |
| Common.FirstSpaceAt | screens/FindTheMistakeScreen.tsx:26 | a space preceded by none is the first space |
| Content.DefaultOverallSummary | lib/gemini.ts:725 | the built-in summary is not empty |
| Content.DefaultActivitySummaries | lib/gemini.ts:726-735 | the built-in tracker lists eight activities |
| Content.DefaultReflectionPrompts | lib/gemini.ts:736-740 | the built-in tracker has three reflection prompts |
| WordSearch.RowSpan | components/puzzles/WordSearchPuzzle.tsx:40-42 | the cells of a horizontal drag: one per column between the ends, in that row, left to right |
| WordSearch.ColumnSpan | components/puzzles/WordSearchPuzzle.tsx:43-45 | the cells of a vertical drag: one per row between the ends, in that column, top to bottom |
| WordSearch.DiagonalLine | components/puzzles/WordSearchPuzzle.tsx:46-55 | a diagonal drag of n steps walks n+1 cells from the start toward the end |
| WordSearch.Path | components/puzzles/WordSearchPuzzle.tsx:36-56 | a diagonal covers start to end with one cell per row, a non-aligned drag covers nothing, and every cell lies in the dragged rectangle |
| WordSearch.ReadSelection | components/puzzles/WordSearchPuzzle.tsx:36-56 | the string read by a drag is the grid letters along its path |
| WordSearch.ReadRow | components/puzzles/WordSearchPuzzle.tsx:40-42 | the `for` loop reads the row's letters left to right |
| WordSearch.ReadColumn | components/puzzles/WordSearchPuzzle.tsx:43-45 | the `for` loop reads the column's letters top to bottom |
| WordSearch.ReadDiagonal | components/puzzles/WordSearchPuzzle.tsx:46-55 | the `while` loop reads one letter per step from the start cell and stops right after the current cell |
| WordSearch.DiagonalSpellLine | components/puzzles/WordSearchPuzzle.tsx:46-55 | the letters read step by step are the letters of the diagonal line's cells, in drag order |
| WordSearch.HighlightMatchesPath | components/puzzles/WordSearchPuzzle.tsx:70-86 | a cell is highlighted exactly when it lies on the dragged path, except the start cell of a diagonal |
| WordSearch.FoundAfter | components/puzzles/WordSearchPuzzle.tsx:58-63 | the forward string is added when it is a new word, else the reversed one when it is, else nothing |
| WordSearch.Reverse | components/puzzles/WordSearchPuzzle.tsx:58 | reverses the selected string |
| WordSearch.LookupKeepsFoundValid | components/puzzles/WordSearchPuzzle.tsx:58-63 | found words only grow, by at most one, stay duplicate-free and stay among the words |
| WordSearch.Normalized | components/puzzles/WordSearchPuzzle.tsx:19 | the target list is the word list upper-cased, word for word |
| WordSearch.LowercaseNeverMatches | components/puzzles/WordSearchPuzzle.tsx:19 | a selection holding a lower-case letter adds no word, forward or reversed |
| WordSearch.PathOfReverseDrag | components/puzzles/WordSearchPuzzle.tsx:36-56 | dragging the other way covers the same row or column, and a diagonal's cells in reverse order |
| WordSearch.Puzzle.constructor | components/puzzles/WordSearchPuzzle.tsx:14-19 | no selection, nothing found, words upper-cased |
| WordSearch.Puzzle.MouseDown | components/puzzles/WordSearchPuzzle.tsx:21-25 | starts a selection at the cell pressed |
| WordSearch.Puzzle.MouseEnter | components/puzzles/WordSearchPuzzle.tsx:27-31 | moves the current cell only while selecting |
| WordSearch.Puzzle.MouseUp | components/puzzles/WordSearchPuzzle.tsx:33-68 | looks the dragged string up when selecting, and always ends the selection |
| WordSearch.QuotientsEqual | components/puzzles/WordSearchPuzzle.tsx:81 | the slope test: for non-zero divisors it holds exactly when the two quotients are equal; 0/0 equals nothing; two zero divisors agree exactly when both numerators have the same sign; one zero divisor never agrees |
| WordSearch.Puzzle.IsCellSelected | components/puzzles/WordSearchPuzzle.tsx:70-86 | while a drag is in progress a cell is highlighted exactly when it lies on the path mouse-up will read, except the start cell of a diagonal; nothing is highlighted otherwise |
| WordSearch.Puzzle.IsStruck | components/puzzles/WordSearchPuzzle.tsx:117 | a listed word is struck through exactly when its upper-cased form was found, so the case it is listed in does not matter |
| Crossword.Filled | components/puzzles/CrosswordPuzzle.tsx:16-18 | a size-by-size matrix holding one value everywhere |
| Crossword.VerdictFor | components/puzzles/CrosswordPuzzle.tsx:39-52 | a cell is correct exactly when its entry equals its letter, incorrect exactly when it differs and is not empty, and a black cell gets no verdict |
| Crossword.BlankEntryVerdict | components/puzzles/CrosswordPuzzle.tsx:43-48 | an empty entry is never incorrect, and is correct only when the stored letter is empty |
| Crossword.CheckGrid | components/puzzles/CrosswordPuzzle.tsx:39-53 | the nested loops fill a size-by-size matrix with each cell's verdict |
| Crossword.FirstLetter | components/puzzles/CrosswordPuzzle.tsx:26-30 | an entry keeps at most one character, the upper-cased first one, and is empty only for empty input |
| Crossword.FeedbackClass | components/puzzles/CrosswordPuzzle.tsx:55-60 | green exactly for correct, red exactly for incorrect, yellow exactly for the active cell without a verdict |
| Crossword.Puzzle.ClassAt | components/puzzles/CrosswordPuzzle.tsx:55-60 | a cell is green exactly when correct, red exactly when incorrect, yellow exactly when active without a verdict |
| Crossword.Puzzle.constructor | components/puzzles/CrosswordPuzzle.tsx:16-18 | entries all empty, no feedback, no active cell |
| Crossword.Puzzle.CellClick | components/puzzles/CrosswordPuzzle.tsx:21-24 | activates the cell and clears all feedback, so the clicked cell shows yellow and every other cell gray; entries unchanged |
| Crossword.Puzzle.InputChange | components/puzzles/CrosswordPuzzle.tsx:26-37 | writes the first letter at that cell only, and moves right exactly when the value is non-empty and the next cell is a white cell in the grid |
| Crossword.Puzzle.CheckAnswers | components/puzzles/CrosswordPuzzle.tsx:39-53 | feedback becomes the verdict matrix of the entries; entries unchanged |
| Matching.Swap | components/puzzles/MatchingPuzzle.tsx:23-25 | exchanges two positions and keeps the rest |
| Matching.SwapPermutes | components/puzzles/MatchingPuzzle.tsx:23-25 | a swap is a permutation |
| Matching.ShuffledPermutes | components/puzzles/MatchingPuzzle.tsx:19-27 | the Fisher-Yates result is a permutation of its input for any draws |
| Matching.ShuffleArray | components/puzzles/MatchingPuzzle.tsx:19-27 | shuffles the array in place into a permutation of its old contents |
| Matching.Shuffled | components/puzzles/MatchingPuzzle.tsx:19-27 | the shuffle loop keeps the length and never touches a position at or past the current index again |
| Matching.TermClicked | components/puzzles/MatchingPuzzle.tsx:50-54 | a matched term is ignored; otherwise it is selected and the wrong-pair flash clears; matches never change |
| Matching.DefinitionClicked | components/puzzles/MatchingPuzzle.tsx:56-68 | ignored without a selection or for a matched definition; otherwise the selection clears and equal ids add a match while different ids only record the wrong pair |
| Matching.ClicksKeepMatchesValid | components/puzzles/MatchingPuzzle.tsx:50-68 | matched ids stay valid pair ids without duplicates |
| Matching.MatchesAtMostPairs | components/puzzles/MatchingPuzzle.tsx:50-68 | there are never more matches than pairs |
| Matching.TermClass | components/puzzles/MatchingPuzzle.tsx:70-75 | a term shows as matched exactly when matched; as selected exactly when unmatched and selected; as wrong exactly when unmatched, unselected and the term of the wrong pair; plain otherwise |
| Matching.DefinitionClass | components/puzzles/MatchingPuzzle.tsx:77-81 | a definition is never shown as selected; it shows as matched exactly when matched, and as wrong exactly when unmatched and the definition of the wrong pair |
| Matching.MatchColoursBothItems | components/puzzles/MatchingPuzzle.tsx:56-81 | a right pair colours both items as matched, a wrong pair colours both as wrong |
| Matching.Indexed | components/puzzles/MatchingPuzzle.tsx:38-39 | items carry their position as id |
| Matching.ShuffledColumn | components/puzzles/MatchingPuzzle.tsx:37-48 | a shuffled column holds exactly the indexed items, each id a valid pair id |
| Matching.Puzzle.constructor | components/puzzles/MatchingPuzzle.tsx:37-48 | both columns shuffled from the pairs, no selection, no matches, no flash |
| Matching.Puzzle.TermClick | components/puzzles/MatchingPuzzle.tsx:50-54 | applies the term-click rule; the columns stay put |
| Matching.Puzzle.DefinitionClick | components/puzzles/MatchingPuzzle.tsx:56-68 | applies the definition-click rule; the columns stay put |
| Matching.Puzzle.ClearFlash | components/puzzles/MatchingPuzzle.tsx:66 | the timer clears the wrong-pair flash |
| Matching.Puzzle.Reset | components/puzzles/MatchingPuzzle.tsx:83-87 | clears selection, matches and flash |
| FillInTheBlanks.Grade | components/puzzles/FillInTheBlanksPuzzle.tsx:35 | correct exactly when the trimmed, lower-cased answer equals the lower-cased expected answer |
| FillInTheBlanks.CheckAll | components/puzzles/FillInTheBlanksPuzzle.tsx:33-41 | one grade per question, never null |
| FillInTheBlanks.PaddedExpectedNeverCorrect | components/puzzles/FillInTheBlanksPuzzle.tsx:35 | an expected answer with outer whitespace is never matched |
| FillInTheBlanks.UpperCaseAnswerCorrect | components/puzzles/FillInTheBlanksPuzzle.tsx:35 | the comparison ignores case: the expected answer in capitals is correct |
| FillInTheBlanks.PaddedCaseVariantCorrect | components/puzzles/FillInTheBlanksPuzzle.tsx:35 | any answer equal to the expected one up to white space around it and ASCII letter case is correct |
| FillInTheBlanks.Puzzle.constructor | components/puzzles/FillInTheBlanksPuzzle.tsx:19-20 | one empty answer and one null verdict per question |
| FillInTheBlanks.Puzzle.AnswerChange | components/puzzles/FillInTheBlanksPuzzle.tsx:22-31 | writes answer i and clears verdict i only |
| FillInTheBlanks.Puzzle.CheckAnswers | components/puzzles/FillInTheBlanksPuzzle.tsx:33-41 | every verdict set from the answers, none null |
| DragAndDrop.InitialItems | screens/DragAndDropGameScreen.tsx:29-33 | items carry their position as id |
| DragAndDrop.IsPlayable | screens/DragAndDropGameScreen.tsx:43-51 | the fallback shows exactly for a missing payload or one without a categories or an items array |
| DragAndDrop.InitialLocations | screens/DragAndDropGameScreen.tsx:27-41 | buckets exist for the pool and each category; every category bucket is empty, and the pool holds every item unless a category shares its name |
| DragAndDrop.BuildLocations | screens/DragAndDropGameScreen.tsx:36-37 | the loop builds the pool holding every item and an empty bucket per category |
| DragAndDrop.Without | screens/DragAndDropGameScreen.tsx:69-71 | removes exactly the items with that id |
| DragAndDrop.DropInto | screens/DragAndDropGameScreen.tsx:62-79 | a drop keeps every bucket, adds the target if missing, puts the item last in the target, and leaves every bucket holding exactly its old items other than those with the dragged id, plus the item in the target |
| DragAndDrop.DropKeepsPlacement | screens/DragAndDropGameScreen.tsx:62-79 | a drop puts the item in the target bucket and only there, moves nothing else, and keeps every item in exactly one bucket |
| DragAndDrop.InitialPlacement | screens/DragAndDropGameScreen.tsx:27-41 | at the start each item is in one bucket, the pool, unless a category is named like the pool, which empties it |
| DragAndDrop.VerdictFor | screens/DragAndDropGameScreen.tsx:81-92 | correct exactly when the bucket is the item's category |
| DragAndDrop.CheckBuckets | screens/DragAndDropGameScreen.tsx:81-92 | every item in a category bucket gets its verdict and pool items get none |
| DragAndDrop.FeedbackClass | screens/DragAndDropGameScreen.tsx:94-98 | green border exactly for correct, red exactly for incorrect |
| DragAndDrop.Game.constructor | screens/DragAndDropGameScreen.tsx:27-43 | a playable payload starts with all items in the pool; any other starts empty |
| DragAndDrop.Game.DragStart | screens/DragAndDropGameScreen.tsx:53-56 | records the dragged item |
| DragAndDrop.Game.Drop | screens/DragAndDropGameScreen.tsx:62-79 | without a dragged item nothing happens; otherwise the item moves to the target and the drag and feedback clear |
| DragAndDrop.Game.CheckAnswers | screens/DragAndDropGameScreen.tsx:81-92 | feedback becomes the check result; placement unchanged |
| FindTheMistake.StripPunct | screens/FindTheMistakeScreen.tsx:53-59 | removes exactly the punctuation characters |
| FindTheMistake.IsPlayable | screens/FindTheMistakeScreen.tsx:16-24 | the fallback shows exactly for a missing payload, an empty challenge text, or a missing or empty mistakes array |
| FindTheMistake.StripPunctDistributes | screens/FindTheMistakeScreen.tsx:53-59 | the removal works character by character: a punctuation mark is dropped, any other character kept, and a concatenation strips to the concatenation of the stripped parts, so order and repeats are kept |
| FindTheMistake.StripPunctIdempotent | screens/FindTheMistakeScreen.tsx:53-59 | stripping twice is stripping once |
| FindTheMistake.InsertSorted | screens/FindTheMistakeScreen.tsx:45-47 | adds an index and keeps the selection strictly ascending |
| FindTheMistake.Remove | screens/FindTheMistakeScreen.tsx:45-47 | removes an index and keeps the order |
| FindTheMistake.Toggle | screens/FindTheMistakeScreen.tsx:45-47 | flips exactly one index and keeps the selection ascending and duplicate-free |
| FindTheMistake.FirstMatch | screens/FindTheMistakeScreen.tsx:55-61 | picks an unfound mistake whose stripped text equals the selection, and reports none only when no unfound mistake matches |
| FindTheMistake.FirstMatchIsFirst | screens/FindTheMistakeScreen.tsx:55-61 | the match is the first unfound matching mistake in payload order |
| FindTheMistake.MatchKeepsTextsDistinct | screens/FindTheMistakeScreen.tsx:55-64 | found mistakes never repeat a text |
| FindTheMistake.DuplicateTextNeverFound | screens/FindTheMistakeScreen.tsx:55-57 | a mistake whose text is already found can never be found |
| FindTheMistake.FoundAt | screens/FindTheMistakeScreen.tsx:82 | finds a found mistake whose text starts the rest of the passage, and none only when no such mistake exists |
| FindTheMistake.FoundAtIsFirst | screens/FindTheMistakeScreen.tsx:82 | the mistake struck is the first found one, in order found, that the rest of the passage starts with |
| FindTheMistake.ScanEnd | screens/FindTheMistakeScreen.tsx:79-113 | the scan's index ends at or past the last word |
| FindTheMistake.RenderText | screens/FindTheMistakeScreen.tsx:77-115 | the scan tiles the words into consecutive segments, each one word or one found mistake, so it terminates; its index ends at `StaleIndex` |
| FindTheMistake.TilesEndAtStaleIndex | screens/FindTheMistakeScreen.tsx:79-113 | a tiling of the words by the scan's segments ends where the scan's index ends |
| FindTheMistake.ScanFromSegment | screens/FindTheMistakeScreen.tsx:79-113 | from any segment of the tiling on, the scan steps segment by segment to the tiling's end |
| FindTheMistake.NoFoundSpanPastText | screens/FindTheMistakeScreen.tsx:33-41 | no found mistake covers an index at or past the end of the text |
| FindTheMistake.SelectionPastTextReadsEmpty | screens/FindTheMistakeScreen.tsx:53 | a selected index past the last word reads as the empty text |
| FindTheMistake.StaleCheckFindsOnlyEmptyMistakes | screens/FindTheMistakeScreen.tsx:50-64 | checking the selection the rendered words make finds only a mistake that strips to the empty text |
| FindTheMistake.ClickOnFirstWordReadsIndexTwo | screens/FindTheMistakeScreen.tsx:79-111 | for the text "a b" every word's handler receives index 2 |
| FindTheMistake.Challenge.constructor | screens/FindTheMistakeScreen.tsx:16-26 | the words are the text split on spaces; nothing selected or found |
| FindTheMistake.Challenge.HandleWordClick | screens/FindTheMistakeScreen.tsx:28-48 | clears the wrong-attempt flag; an index inside a found mistake is ignored; any other index is toggled |
| FindTheMistake.Challenge.WordClick | screens/FindTheMistakeScreen.tsx:79-102 | a click on any rendered word toggles the index past the last word that the scan left behind, and no word's selection changes |
| FindTheMistake.Challenge.ClickWord | screens/FindTheMistakeScreen.tsx:28-48 | with each word passing its own index: that word's selection flips unless it lies in a found mistake, and no other index changes |
| FindTheMistake.Challenge.CheckAnswer | screens/FindTheMistakeScreen.tsx:50-70 | an empty selection does nothing; otherwise the selected words, an index past the text reading as the empty text, are matched: a match is appended or the wrong-attempt flag is set, and the selection clears either way |
| FindTheMistake.Challenge.ClearFlash | screens/FindTheMistakeScreen.tsx:67 | the timer clears the wrong-attempt flag |
| FindTheMistake.Challenge.RevealAnswers | screens/FindTheMistakeScreen.tsx:72-75 | all mistakes found, selection cleared, so all are found |
| FindTheMistake.WrongAttemptNeverRed | screens/FindTheMistakeScreen.tsx:98 | the red class never applies, since a wrong attempt always comes with an empty selection |
| SpeedRounds.CorrectCount | screens/SpeedRoundsScreen.tsx:60-66 | the number of right answers, at most the number of verdicts and zero only without a right one |
| SpeedRounds.IsPlayable | screens/SpeedRoundsScreen.tsx:80-88 | the fallback shows exactly for a missing payload or a missing or empty questions array |
| SpeedRounds.ClassOf | screens/SpeedRoundsScreen.tsx:92-100 | plain before a verdict, then green for the answer, red for every other option after a wrong answer, dimmed otherwise |
| SpeedRounds.WrongAnswerReddensEveryWrongOption | screens/SpeedRoundsScreen.tsx:92-100 | after a wrong answer every wrong option is red, not only the one clicked |
| SpeedRounds.Round.constructor | screens/SpeedRoundsScreen.tsx:13-18 | setup state, five seconds, first question, score zero |
| SpeedRounds.Round.StartGame | screens/SpeedRoundsScreen.tsx:71-78 | plays from the first question with a zero score and the chosen duration |
| SpeedRounds.Round.Tick | screens/SpeedRoundsScreen.tsx:37-39 | the countdown drops a tenth of a second, never below zero; the question, verdict, score and round length are kept |
| SpeedRounds.Round.Timeout | screens/SpeedRoundsScreen.tsx:41-44 | an unanswered question gets the unanswered verdict and no point; the countdown, round length and question are kept |
| SpeedRounds.Round.AnswerClick | screens/SpeedRoundsScreen.tsx:54-69 | ignored once a verdict is shown; a right answer scores one, a wrong one scores nothing; the countdown is frozen where it stood and the round length kept |
| SpeedRounds.Round.NextQuestion | screens/SpeedRoundsScreen.tsx:23-30 | clears the verdict and moves on with a full countdown, or finishes after the last question with the countdown as it stood; score and round length kept |
| SpeedRounds.Round.PlayAgain | screens/SpeedRoundsScreen.tsx:141 | back to setup, keeping the score, question, verdict, countdown and round length |
| SpeedRounds.ScoreAtMostQuestions | screens/SpeedRoundsScreen.tsx:23-66 | the score never exceeds the number of questions |
| SpeedRounds.FinishedScoreCountsEveryQuestion | screens/SpeedRoundsScreen.tsx:23-66 | a finished round has one verdict per question and scores its right ones |
| Story.Start | screens/StoryBasedChallengeScreen.tsx:39-43 | playing from the first node with nothing selected |
| Story.IsPlayable | screens/StoryBasedChallengeScreen.tsx:15-23 | the fallback shows exactly for a missing payload or a missing or empty nodes array |
| Story.Choose | screens/StoryBasedChallengeScreen.tsx:25-28 | the first option chosen is kept; later clicks change nothing |
| Story.Advance | screens/StoryBasedChallengeScreen.tsx:30-37 | clears the selection and moves on, or concludes on the last node |
| Story.FirstClickWins | screens/StoryBasedChallengeScreen.tsx:25-28 | a second click never replaces the first |
| Story.PlayVisitsNodesInOrder | screens/StoryBasedChallengeScreen.tsx:25-37 | answering k nodes moves k nodes on, concluding at the end |
| Story.StoryEndsAfterEveryNode | screens/StoryBasedChallengeScreen.tsx:25-43 | a started story answered node by node ends in the conclusion |
| Story.ClassOf | screens/StoryBasedChallengeScreen.tsx:45-53 | plain before a choice; the chosen option green exactly when correct, red exactly when not |
| Story.ChosenOptionColoured | screens/StoryBasedChallengeScreen.tsx:45-53 | the chosen option shows its correctness and options with another text are dimmed |
| Story.StoryScreen.constructor | screens/StoryBasedChallengeScreen.tsx:11-13 | the intro, first node, nothing selected |
| Story.StoryScreen.StartStory | screens/StoryBasedChallengeScreen.tsx:39-43 | applies the start rule |
| Story.StoryScreen.OptionClick | screens/StoryBasedChallengeScreen.tsx:25-28 | applies the first-click rule |
| Story.StoryScreen.Next | screens/StoryBasedChallengeScreen.tsx:30-37 | applies the advance rule |
| Scenarios.Choose | screens/ScenariosAndAnalogiesScreen.tsx:29-39 | ignored once answered; otherwise the verdict is right exactly for the correct answer, which alone adds one point |
| Scenarios.IsPlayable | screens/ScenariosAndAnalogiesScreen.tsx:17-25 | the fallback shows exactly for a missing payload or a missing or empty challenges array |
| Scenarios.Advance | screens/ScenariosAndAnalogiesScreen.tsx:41-49 | clears and moves on, or finishes on the last challenge; the score is kept |
| Scenarios.NextLabel | screens/ScenariosAndAnalogiesScreen.tsx:111 | the button reads Finish exactly on the last challenge |
| Scenarios.RightAnswers | screens/ScenariosAndAnalogiesScreen.tsx:33-38 | the right answers among the choices, at most one per choice |
| Scenarios.PlayScoresRightAnswers | screens/ScenariosAndAnalogiesScreen.tsx:29-49 | answering the remaining challenges finishes the quiz and adds exactly the right answers |
| Scenarios.FinalScore | screens/ScenariosAndAnalogiesScreen.tsx:72 | the final score counts the right answers and is at most the challenge count |
| Scenarios.ClassOf | screens/ScenariosAndAnalogiesScreen.tsx:51-65 | plain before an answer, green for the correct answer, red only for a wrong pick |
| Scenarios.AnswerColours | screens/ScenariosAndAnalogiesScreen.tsx:51-65 | after a click the right answer is green, a wrong pick red, the others dimmed |
| Scenarios.Quiz.constructor | screens/ScenariosAndAnalogiesScreen.tsx:11-15 | first challenge, score zero, not finished |
| Scenarios.Quiz.OptionClick | screens/ScenariosAndAnalogiesScreen.tsx:29-39 | applies the answer rule for the current challenge |
| Scenarios.Quiz.Next | screens/ScenariosAndAnalogiesScreen.tsx:41-49 | applies the advance rule |
| Scenarios.ScoreAtMostChallenges | screens/ScenariosAndAnalogiesScreen.tsx:33-49 | the score never exceeds the number of challenges |
| MiniAdventure.Raw | screens/MiniAdventureScreen.tsx:26-39 | a typed stage passes the field checks |
| MiniAdventure.Typed | screens/MiniAdventureScreen.tsx:26-39 | a stage passing the checks is read back without loss |
| MiniAdventure.CheckStages | screens/MiniAdventureScreen.tsx:29-37 | gives the stages exactly when every element passes the checks |
| MiniAdventure.Validate | screens/MiniAdventureScreen.tsx:26-39 | accepts exactly the valid payloads, with one stage per element |
| MiniAdventure.ValidateRoundTrip | screens/MiniAdventureScreen.tsx:26-39 | validating a payload built from stages gives those stages back |
| MiniAdventure.RawInjective | screens/MiniAdventureScreen.tsx:26-39 | different stages are different payload elements |
| MiniAdventure.Choose | screens/MiniAdventureScreen.tsx:53-62 | ignored while a response shows; otherwise records the option and shows the success response exactly for the correct answer |
| MiniAdventure.EmptyResponseDoesNotLock | screens/MiniAdventureScreen.tsx:54 | an empty response leaves the options open to another click |
| MiniAdventure.ResponseLocks | screens/MiniAdventureScreen.tsx:54 | a non-empty response ignores any further click |
| MiniAdventure.Advance | screens/MiniAdventureScreen.tsx:64-72 | clears and moves on, or concludes at the last stage |
| MiniAdventure.Start | screens/MiniAdventureScreen.tsx:74-79 | playing from the first stage, nothing selected, no response |
| MiniAdventure.ClassOf | screens/MiniAdventureScreen.tsx:81-95 | plain while open; then green for the correct answer, red for a wrong selection |
| MiniAdventure.AnswerColours | screens/MiniAdventureScreen.tsx:81-95 | after a click with a response the correct option is green, a wrong pick red, the rest dimmed |
| MiniAdventure.Adventure.constructor | screens/MiniAdventureScreen.tsx:21-39 | the validated stages, at the intro |
| MiniAdventure.Adventure.StartAdventure | screens/MiniAdventureScreen.tsx:74-79 | applies the start rule |
| MiniAdventure.Adventure.OptionClick | screens/MiniAdventureScreen.tsx:53-62 | applies the click rule for the current stage |
| MiniAdventure.Adventure.Next | screens/MiniAdventureScreen.tsx:64-72 | applies the advance rule |
| OutsideTheBox.ShownHints | screens/OutsideTheBoxScreen.tsx:50 | the hints shown are a prefix of the hints, as many as revealed |
| OutsideTheBox.IsPlayable | screens/OutsideTheBoxScreen.tsx:22-30 | the fallback shows exactly for a missing payload, an empty problem statement or solution, or a missing hints array |
| OutsideTheBox.RevealHint | screens/OutsideTheBoxScreen.tsx:32-36 | the count grows only below the number of hints and never passes it |
| OutsideTheBox.RevealHintsClamps | screens/OutsideTheBoxScreen.tsx:32-36 | k clicks reveal min(count + k, hints) hints |
| OutsideTheBox.ShownAfterClicks | screens/OutsideTheBoxScreen.tsx:32-50 | after k clicks the first k hints show, or all of them |
| OutsideTheBox.ShownHintsArePrefix | screens/OutsideTheBoxScreen.tsx:50-62 | the shown hints are exactly the first count hints, and the button is disabled exactly when all show |
| OutsideTheBox.Problem.constructor | screens/OutsideTheBoxScreen.tsx:19-22 | no hint revealed, solution hidden |
| OutsideTheBox.Problem.RevealNextHint | screens/OutsideTheBoxScreen.tsx:32-36 | applies the clamped reveal |
| OutsideTheBox.Problem.RevealSolution | screens/OutsideTheBoxScreen.tsx:58-78 | shows the solution and hides the action buttons |
| PuzzleScreen.Available | screens/PuzzleScreen.tsx:18 | the tabs are exactly the keys with truthy values, no more than the keys, duplicate-free |
| PuzzleScreen.AvailableKeepsOrder | screens/PuzzleScreen.tsx:18 | tabs keep the keys' order |
| PuzzleScreen.InitialTab | screens/PuzzleScreen.tsx:19 | the first tab, or the crossword when there is none or the first key is empty |
| PuzzleScreen.Render | screens/PuzzleScreen.tsx:31-44 | each standard tab shows its puzzle or nothing when missing; any other key shows the prompt |
| PuzzleScreen.OfferedTabRendersSomething | screens/PuzzleScreen.tsx:18-44 | a tab that is offered never shows an empty area |
| PuzzleScreen.EmptyPayloadShowsNothing | screens/PuzzleScreen.tsx:18-44 | with no truthy puzzle the crossword tab is active and shows nothing |
| PuzzleScreen.TabName | screens/PuzzleScreen.tsx:46-53 | a name exists exactly for the four kinds |
| PuzzleScreen.TabNamesDistinct | screens/PuzzleScreen.tsx:46-53 | the four kinds have four different names |
| PuzzleScreen.Screen.constructor | screens/PuzzleScreen.tsx:18-19 | the initial tab is active |
| PuzzleScreen.Screen.SelectTab | screens/PuzzleScreen.tsx:65-71 | a tab click makes that tab active |
| Introduction.Messages | screens/IntroductionScreen.tsx:31-34 | two messages; the second names the companion |
| Introduction.NextIndex | screens/IntroductionScreen.tsx:36-38 | Next moves on one message and stays on the last |
| Introduction.FooterFor | screens/IntroductionScreen.tsx:58-71 | the arrow is offered exactly before the last message |
| Introduction.PagesClamp | screens/IntroductionScreen.tsx:36-38 | k presses reach message min(index + k, last) |
| Introduction.LastMessageIsFinal | screens/IntroductionScreen.tsx:36-71 | on the last message Next changes nothing and only the begin button is offered |
| Introduction.Greeting.constructor | screens/IntroductionScreen.tsx:29-34 | starts on the first of the two messages |
| Introduction.Greeting.Next | screens/IntroductionScreen.tsx:36-38 | applies the clamped step |
| KnowledgeTracker.DefaultIsValid | lib/gemini.ts:722-742 | the built-in tracker passes the screen's check, with eight activities and three prompts |
| KnowledgeTracker.IsValid | screens/KnowledgeTrackerScreen.tsx:50-58 | the fallback shows exactly for a missing payload, an empty overall summary, or a missing or empty activity or prompt array |
| KnowledgeTracker.Title | screens/KnowledgeTrackerScreen.tsx:65 | the payload's title, or "Your Learning Journey" exactly when it is empty; never empty |
| KnowledgeTracker.Prompt | screens/KnowledgeTrackerScreen.tsx:76 | the prompt shown is the first of the payload's prompts |
| KnowledgeTracker.Calendar | screens/KnowledgeTrackerScreen.tsx:10-26 | the loop lays out the leading blanks, then days 1 to the month length in order, today's flagged |
| KnowledgeTracker.Highlighted | screens/KnowledgeTrackerScreen.tsx:20-22 | counts the highlighted cells |
| KnowledgeTracker.OneDayHighlighted | screens/KnowledgeTrackerScreen.tsx:18-26 | exactly one cell, today's, is highlighted when today is in the month; none otherwise |
| KnowledgeTracker.HighlightedPrefix | screens/KnowledgeTrackerScreen.tsx:18-26 | among the first k cells today is highlighted once if it is there |
| AvatarSelection.Names | screens/AvatarSelectionScreen.tsx:7-38 | six non-empty, pairwise distinct names |
| AvatarSelection.Arts | screens/AvatarSelectionScreen.tsx:7-38 | six distinct pictures |
| AvatarSelection.Avatars | screens/AvatarSelectionScreen.tsx:7-38 | six companions, each with its own name, picture and story |
| AvatarSelection.OnlyPickedCardHighlighted | screens/AvatarSelectionScreen.tsx:99 | a picked companion's card is the only one highlighted |
| AvatarSelection.ContinueCaption | screens/AvatarSelectionScreen.tsx:117 | the caption names the selection when its name is not empty, and shows an ellipsis without a selection or for an empty name |
| AvatarSelection.Picker.constructor | screens/AvatarSelectionScreen.tsx:67-68 | nothing selected, modal closed |
| AvatarSelection.Picker.SelectAvatar | screens/AvatarSelectionScreen.tsx:70-74 | records the selection and shows its story |
| AvatarSelection.Picker.CloseModal | screens/AvatarSelectionScreen.tsx:76-78 | closes the story and keeps the selection |
| AvatarSelection.Picker.Continue | screens/AvatarSelectionScreen.tsx:80-84 | hands on the selection exactly when there is one, which is when the button is enabled |

## Left out

- The generator calls of `lib/gemini.ts` are left out: the Google GenAI requests, prompts, response schemas and `JSON.parse`. Their results enter the model as a `Response` value (an answer with a payload, no answer, or a failure).
- Timer scheduling is modelled as events: `setTimeout` and `setInterval` become `Tick`, `Timeout`, `NextQuestion` and `ClearFlash`. The cancellation of timers, timer callbacks that read stale state, and overlapping timeouts are not modelled.
- Floating-point time becomes integer tenths of a second: the speed-round countdown `timeLeft` steps by 0.1. `components/GlassyClock.tsx` is not part of this model.
- `Math.random` in `shuffleArray` becomes a sequence of draws that the caller supplies. Only the permutation property is proved, not the distribution.
- Case mapping covers ASCII letters only. `toUpperCase` and `toLowerCase` also map non-ASCII letters, and the model leaves those unchanged.
- Browser APIs enter as values or are left out:
  - `FileReader`: the file's text is a parameter of `CreationHub.Hub.FileLoaded`.
  - `AudioContext`: `playSelectSound` is left out.
  - `new Date()`: the month length, the first weekday and today's date are parameters.
  - The crossword's DOM focus and input refs are left out.
  - Drag events: only the dragged item and the drop target are kept.
- Rendering is reduced to small enumerations of the classes a cell or option can take. JSX, CSS strings, animation and the SVG mascots are left out.
- The landing, dashboard and features-overview screens, the avatar card and story modal components, the back button, the companion icon and the puzzle container are not part of this model. The navigator treats them as screens with their callbacks.
- The reflection text box of the knowledge tracker and the selected-file label of the creation hub are display-only state and are left out.
- The drag-and-drop initialisation effect runs once, in the constructor. Its re-run when the payload changes is not modelled.
- Crossword.Puzzle.InputChange: requires the declared size to be at most the grid's row count. The component indexes `grid[row][col + 1]` and assumes a square grid of that size.
- Crossword.Puzzle.CheckAnswers: requires the declared size to be at most the grid's row count, for the same reason.
- SpeedRounds.Round.NextQuestion: requires a verdict to be shown, because the component only schedules it from the verdict timeout.
- SpeedRounds.Round.Timeout: requires a round in play with no verdict shown, because the effect only fires it then. The model does not tie the timeout to the countdown reaching zero.
- PuzzleScreen.Screen.SelectTab: requires the key to be one of the offered tabs, since only those tabs are rendered as buttons.
- Introduction.Greeting.Next: requires the Next arrow to be offered, since only then is the button shown.
- The event methods of the activity classes require the state in which the component renders the control that fires them. For example, an option click needs a question on screen, Next needs an answer shown, and a mouse-down needs a cell of the grid. Their constructors require a payload that passes the screen's own guard, because otherwise the component renders only its error message.
- CreationHub.Hub.EditNotes: requires at most 5000 characters, which is the textarea's `maxLength`. The model counts Unicode scalar values where `maxLength` counts UTF-16 code units.
- CreationHub.TruncateNotes: keeps the first 5000 Unicode scalar values. `slice(0, 5000)` counts UTF-16 code units, so on text with characters outside the Basic Multilingual Plane it keeps fewer characters and can end in half a surrogate pair. Strings are sequences of `char` here, with no UTF-16 layer.
- Crossword.FirstLetter: takes the first Unicode scalar value. `slice(0, 1)` takes the first UTF-16 code unit, which is half a surrogate pair for a character outside the Basic Multilingual Plane.
- WordSearch.Reverse: reverses Unicode scalar values. `split('')` reverses UTF-16 code units, which swaps the two halves of a surrogate pair.
- CreationHub.Hub.Respond: requires a feature to be loading, since a response only arrives for a request in flight.

## Findings

| source | as written | input that shows it | evidently intended | confidence | as-written member | corrected member |
|---|---|---|---|---|---|---|
| screens/FindTheMistakeScreen.tsx:79-111 | `let i` is declared once before the scan, and every word's `onClick={() => handleWordClick(i)}` reads it after the scan has ended, so every click passes the index past the last word; no word shows as selected, and "Check Answer" compares the empty text | the text "a b" with nothing found: clicking "a" passes 2, not 0 (`FindTheMistake.ClickOnFirstWordReadsIndexTwo`), and only a mistake that strips to the empty text can be found by checking (`FindTheMistake.StaleCheckFindsOnlyEmptyMistakes`) | each word passes its own index, so a click flips that word's selection | not executed | FindTheMistake.Challenge.WordClick | FindTheMistake.Challenge.ClickWord |
