// The crossword of components/puzzles/CrosswordPuzzle.tsx: a size-by-size
// matrix of one-letter entries, a matching matrix of verdicts filled by
// "check", and the active cell that typing advances along a row.
module Crossword {
  import opened Common
  import opened Content

  datatype Verdict = Correct | Incorrect

  /** The size-by-size matrix holding `x` everywhere. */
  function Filled<T>(size: nat, x: T): (m: seq<seq<T>>)
    ensures |m| == size
    ensures forall r :: 0 <= r < size ==> |m[r]| == size
    ensures forall r, c :: 0 <= r < size && 0 <= c < size ==> m[r][c] == x
  {
    seq(size, _ => seq(size, _ => x))
  }

  /** A matrix with `size` rows of `size` entries. */
  predicate IsSquare<T>(m: seq<seq<T>>, size: nat)
  {
    |m| == size && forall r :: 0 <= r < size ==> |m[r]| == size
  }

  /** `grid[r][c]` where row `r` exists; past the end of a short row it is
      `undefined`, i.e. no cell. */
  function CellAt(grid: seq<seq<Option<CrosswordCell>>>, r: nat, c: int): Option<CrosswordCell>
    requires r < |grid|
  {
    if 0 <= c < |grid[r]| then grid[r][c] else None
  }

  /** The verdict for one entry: none for a black square, `Correct` when the
      entry is the cell's letter, `Incorrect` when it differs and is not empty. */
  function VerdictFor(cell: Option<CrosswordCell>, entry: string): (v: Option<Verdict>)
    ensures v == Some(Correct) <==> cell.Some? && cell.value.letter == Some(entry)
    ensures v == Some(Incorrect) <==> cell.Some? && cell.value.letter != Some(entry) && entry != ""
    ensures cell.None? ==> v.None?
  {
    if cell.None? then None
    else if cell.value.letter == Some(entry) then Some(Correct)
    else if entry != "" then Some(Incorrect)
    else None
  }

  /** An entry left blank is never marked wrong; it is marked right only when
      the cell's letter is itself the empty string. */
  lemma BlankEntryVerdict(cell: Option<CrosswordCell>)
    ensures VerdictFor(cell, "") != Some(Incorrect)
    ensures VerdictFor(cell, "") == Some(Correct) <==> cell.Some? && cell.value.letter == Some("")
  {
  }

  /** The matrix of verdicts that `handleCheckAnswers` builds. */
  predicate IsVerdictMatrix(grid: seq<seq<Option<CrosswordCell>>>, size: nat, input: seq<seq<string>>,
                            fb: seq<seq<Option<Verdict>>>)
    requires size <= |grid| && IsSquare(input, size)
  {
    IsSquare(fb, size)
    && forall r, c :: 0 <= r < size && 0 <= c < size ==> fb[r][c] == VerdictFor(CellAt(grid, r, c), input[r][c])
  }

  /** The nested loops of `handleCheckAnswers`. */
  method CheckGrid(grid: seq<seq<Option<CrosswordCell>>>, size: nat, input: seq<seq<string>>)
    returns (fb: seq<seq<Option<Verdict>>>)
    requires size <= |grid| && IsSquare(input, size)
    ensures IsVerdictMatrix(grid, size, input, fb)
  {
    fb := [];
    var r := 0;
    while r < size
      invariant 0 <= r <= size && |fb| == r
      invariant forall i :: 0 <= i < r ==> |fb[i]| == size
      invariant forall i, c :: 0 <= i < r && 0 <= c < size ==> fb[i][c] == VerdictFor(CellAt(grid, i, c), input[i][c])
    {
      var row: seq<Option<Verdict>> := [];
      var c := 0;
      while c < size
        invariant 0 <= c <= size && |row| == c
        invariant forall j :: 0 <= j < c ==> row[j] == VerdictFor(CellAt(grid, r, j), input[r][j])
      {
        var v: Option<Verdict> := None;
        var cell := CellAt(grid, r, c);
        if cell.Some? {
          if cell.value.letter == Some(input[r][c]) {
            v := Some(Correct);
          } else if input[r][c] != "" {
            v := Some(Incorrect);
          }
        }
        row := row + [v];
        c := c + 1;
      }
      fb := fb + [row];
      r := r + 1;
    }
  }

  /** `value.toUpperCase().slice(0, 1)`. */
  function FirstLetter(value: string): (r: string)
    ensures |r| <= 1
    ensures r == "" <==> value == ""
    ensures r != "" ==> r[0] == UpperChar(value[0])
  {
    if value == "" then "" else [UpperChar(value[0])]
  }

  /** The colour of a cell: a verdict wins over the active highlight. */
  datatype CellClass = Green | Red | Yellow | Gray

  function FeedbackClass(v: Option<Verdict>, active: bool): (k: CellClass)
    ensures k == Green <==> v == Some(Correct)
    ensures k == Red <==> v == Some(Incorrect)
    ensures k == Yellow <==> v.None? && active
  {
    match v
    case Some(Correct) => Green
    case Some(Incorrect) => Red
    case None => if active then Yellow else Gray
  }

  class Puzzle {
    const grid: seq<seq<Option<CrosswordCell>>>
    const size: nat
    var userInput: seq<seq<string>>
    var feedback: seq<seq<Option<Verdict>>>
    var activeCell: Option<(nat, nat)>

    ghost predicate Valid()
      reads this
    {
      IsSquare(userInput, size) && IsSquare(feedback, size)
    }

    constructor (data: CrosswordData)
      ensures grid == data.grid && size == data.size
      ensures userInput == Filled(size, "") && feedback == Filled(size, None) && activeCell == None
      ensures Valid()
    {
      grid, size := data.grid, data.size;
      userInput := Filled(data.size, "");
      feedback := Filled(data.size, None);
      activeCell := None;
    }

    /** Clicking a cell makes it active and clears every verdict: the clicked
        cell then shows yellow and every other cell gray. */
    method CellClick(row: nat, col: nat)
      requires Valid()
      modifies this
      ensures Valid()
      ensures activeCell == Some((row, col)) && feedback == Filled(size, None)
      ensures userInput == old(userInput)
      ensures row < size && col < size ==> ClassAt(row, col) == Yellow
      ensures forall r, c :: 0 <= r < size && 0 <= c < size && (r, c) != (row, col) ==> ClassAt(r, c) == Gray
    {
      activeCell := Some((row, col));
      feedback := Filled(size, None);
    }

    /** Typing into the input of cell (row, col): only the upper-cased first
        character is kept, and a letter moves the active cell one step right
        unless the row ends or the next cell is black. */
    method InputChange(value: string, row: nat, col: nat)
      requires Valid() && row < size && col < size && size <= |grid|
      modifies this
      ensures Valid()
      ensures userInput == old(userInput)[row := old(userInput)[row][col := FirstLetter(value)]]
      ensures feedback == old(feedback)
      ensures activeCell == (if value != "" && col < size - 1 && CellAt(grid, row, col + 1).Some?
                             then Some((row, col + 1)) else old(activeCell))
    {
      var v := FirstLetter(value);
      userInput := userInput[row := userInput[row][col := v]];
      if v != "" && col < size - 1 && CellAt(grid, row, col + 1).Some? {
        activeCell := Some((row, col + 1));
      }
    }

    /** "Check": every verdict is recomputed from the entries, which stay as they are. */
    method CheckAnswers()
      requires Valid() && size <= |grid|
      modifies this
      ensures Valid()
      ensures IsVerdictMatrix(grid, size, userInput, feedback)
      ensures userInput == old(userInput) && activeCell == old(activeCell)
    {
      feedback := CheckGrid(grid, size, userInput);
    }

    /** `getFeedbackClass(row, col)`. */
    function ClassAt(row: nat, col: nat): (k: CellClass)
      requires Valid() && row < size && col < size
      reads this
      ensures k == Green <==> feedback[row][col] == Some(Correct)
      ensures k == Red <==> feedback[row][col] == Some(Incorrect)
      ensures k == Yellow <==> feedback[row][col].None? && activeCell == Some((row, col))
    {
      FeedbackClass(feedback[row][col], activeCell == Some((row, col)))
    }
  }
}
