// The puzzle tabs of screens/PuzzleScreen.tsx: one tab per key of the puzzle
// object whose value is truthy, the first of them active at the start, and
// the active tab's puzzle shown below.
module PuzzleScreen {
  import opened Common
  import opened Content

  /** `Object.keys(puzzles).filter(key => puzzles[key])`: the truthy keys in key order. */
  function Available(keys: seq<string>, truthy: set<string>): (r: seq<string>)
    ensures forall k :: k in r <==> k in keys && k in truthy
    ensures |r| <= |keys|
    ensures NoDuplicates(keys) ==> NoDuplicates(r)
  {
    if keys == [] then []
    else
      var rest := Available(keys[1..], truthy);
      if keys[0] in truthy then
        assert NoDuplicates(keys) ==> keys[0] !in keys[1..];
        [keys[0]] + rest
      else rest
  }

  /** `x` occurs in `r` at an earlier position than `y`. */
  ghost predicate Precedes(r: seq<string>, x: string, y: string)
  {
    exists a, b :: 0 <= a < b < |r| && r[a] == x && r[b] == y
  }

  /** A key before another in the input stays before it among the available ones. */
  lemma {:induction false} AvailableKeepsOrder(keys: seq<string>, truthy: set<string>, i: nat, j: nat)
    requires i < j < |keys| && keys[i] in truthy && keys[j] in truthy && NoDuplicates(keys)
    ensures Precedes(Available(keys, truthy), keys[i], keys[j])
    decreases i
  {
    var r := Available(keys, truthy);
    var rest := Available(keys[1..], truthy);
    assert keys[1..][j - 1] == keys[j];
    if i == 0 {
      assert keys[j] in rest;
      var b :| 0 <= b < |rest| && rest[b] == keys[j];
      assert r == [keys[0]] + rest;
      assert r[0] == keys[i] && r[b + 1] == keys[j];
    } else {
      assert keys[1..][i - 1] == keys[i];
      AvailableKeepsOrder(keys[1..], truthy, i - 1, j - 1);
      var a, b :| 0 <= a < b < |rest| && rest[a] == keys[i] && rest[b] == keys[j];
      if keys[0] in truthy {
        assert r == [keys[0]] + rest;
        assert r[a + 1] == keys[i] && r[b + 1] == keys[j];
      } else {
        assert r == rest;
      }
    }
  }

  /** The tabs of a payload, or none without one (`Object.keys({})`). */
  function Tabs(puzzles: Option<PuzzleData>): seq<string>
  {
    if puzzles.None? then [] else Available(puzzles.value.keys, puzzles.value.truthy)
  }

  /** `availablePuzzles[0] || 'crossword'`: the empty string is falsy, so an
      empty first key also falls back to the crossword. */
  function InitialTab(tabs: seq<string>): (t: string)
    ensures t == "crossword" || (tabs != [] && t == tabs[0])
    ensures t == "crossword" <==> tabs == [] || tabs[0] == "" || tabs[0] == "crossword"
  {
    if tabs != [] && tabs[0] != "" then tabs[0] else "crossword"
  }

  /** What `renderActivePuzzle` shows. */
  datatype Shown =
    | CrosswordShown(crossword: CrosswordData)
    | WordSearchShown(wordSearch: WordSearchData)
    | FillInTheBlanksShown(fillInTheBlanks: FillInTheBlanksData)
    | MatchingShown(matching: MatchingData)
    | NothingShown
    | SelectPrompt

  predicate IsStandard(key: string)
  {
    key == "crossword" || key == "wordSearch" || key == "fillInTheBlanks" || key == "matching"
  }

  /** The active tab's puzzle; nothing for a standard kind without one, and
      the "select a puzzle" prompt for any other key. */
  function Render(p: PuzzleData, active: string): (s: Shown)
    ensures s == SelectPrompt <==> !IsStandard(active)
    ensures active == "crossword" ==> s == (if p.crossword.Some? then CrosswordShown(p.crossword.value) else NothingShown)
    ensures active == "wordSearch" ==> s == (if p.wordSearch.Some? then WordSearchShown(p.wordSearch.value) else NothingShown)
    ensures active == "fillInTheBlanks" ==>
              s == (if p.fillInTheBlanks.Some? then FillInTheBlanksShown(p.fillInTheBlanks.value) else NothingShown)
    ensures active == "matching" ==> s == (if p.matching.Some? then MatchingShown(p.matching.value) else NothingShown)
  {
    if active == "crossword" then (if p.crossword.Some? then CrosswordShown(p.crossword.value) else NothingShown)
    else if active == "wordSearch" then (if p.wordSearch.Some? then WordSearchShown(p.wordSearch.value) else NothingShown)
    else if active == "fillInTheBlanks" then
      (if p.fillInTheBlanks.Some? then FillInTheBlanksShown(p.fillInTheBlanks.value) else NothingShown)
    else if active == "matching" then (if p.matching.Some? then MatchingShown(p.matching.value) else NothingShown)
    else SelectPrompt
  }

  /** A tab that is offered never shows an empty area: a standard tab shows
      its puzzle, any other key shows the prompt. */
  lemma OfferedTabRendersSomething(p: PuzzleData, active: string)
    requires WellFormedPuzzles(p) && active in Tabs(Some(p))
    ensures Render(p, active) != NothingShown
  {
  }

  /** With no puzzle at all the crossword tab is active and shows nothing. */
  lemma EmptyPayloadShowsNothing(p: PuzzleData)
    requires WellFormedPuzzles(p) && p.truthy == {}
    ensures InitialTab(Tabs(Some(p))) == "crossword" && Render(p, "crossword") == NothingShown
  {
    NoTruthyNoTabs(p.keys, p.truthy);
  }

  lemma {:induction false} NoTruthyNoTabs(keys: seq<string>, truthy: set<string>)
    requires forall k :: k in keys ==> k !in truthy
    ensures Available(keys, truthy) == []
  {
    if keys != [] {
      assert keys[0] in keys;
      NoTruthyNoTabs(keys[1..], truthy);
    }
  }

  /** `puzzleTypeToName`; `None` is `undefined` for a key outside the four kinds. */
  function TabName(key: string): (name: Option<string>)
    ensures name.Some? <==> IsStandard(key)
  {
    if key == "crossword" then Some("Crossword")
    else if key == "wordSearch" then Some("Word Search")
    else if key == "fillInTheBlanks" then Some("Fill in the Blanks")
    else if key == "matching" then Some("Matching")
    else None
  }

  /** The four kinds have four different names. */
  lemma TabNamesDistinct(a: string, b: string)
    requires IsStandard(a) && IsStandard(b) && TabName(a) == TabName(b)
    ensures a == b
  {
  }

  class Screen {
    const puzzles: Option<PuzzleData>
    var activePuzzle: string

    constructor (p: Option<PuzzleData>)
      ensures puzzles == p && activePuzzle == InitialTab(Tabs(p))
    {
      puzzles := p;
      activePuzzle := InitialTab(Tabs(p));
    }

    /** A click on one of the tabs. */
    method SelectTab(key: string)
      requires puzzles.Some? && key in Tabs(puzzles)
      modifies this
      ensures activePuzzle == key
    {
      activePuzzle := key;
    }

    /** A tab is highlighted when it is the active one. */
    predicate IsActiveTab(key: string)
      reads this
    {
      activePuzzle == key
    }
  }
}
