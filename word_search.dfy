// The word-search puzzle of components/puzzles/WordSearchPuzzle.tsx: a drag
// from a start cell to a current cell selects a straight line of cells, whose
// letters are read off the grid on mouse-up and looked up, forwards and then
// backwards, in the upper-cased word list.
module WordSearch {
  import opened Common
  import opened Content

  datatype Cell = Cell(row: int, col: int)

  /** The cell exists in the (possibly ragged) grid. */
  predicate InGrid(grid: seq<seq<string>>, c: Cell)
  {
    0 <= c.row < |grid| && 0 <= c.col < |grid[c.row]|
  }

  /** `grid[r][c]` as it is concatenated to a string: a position past the end of
      a shorter row reads as "undefined". */
  function At(grid: seq<seq<string>>, c: Cell): string
  {
    if InGrid(grid, c) then grid[c.row][c.col] else "undefined"
  }

  /** The `k`-th value stepping from `a` towards `b`. */
  function Toward(a: int, b: int, k: int): int
  {
    if a < b then a + k else a - k
  }

  /** The drag is a true diagonal: rows differ and both distances are equal. */
  predicate TrueDiagonal(a: Cell, b: Cell)
  {
    a.row != b.row && Abs(b.row - a.row) == Abs(b.col - a.col)
  }

  /** The cells of row `r` from column `lo` to column `hi`, left to right. */
  function RowSpan(r: int, lo: int, hi: int): (p: seq<Cell>)
    requires lo <= hi
    ensures |p| == hi - lo + 1
    ensures forall k :: 0 <= k < |p| ==> p[k].row == r && lo <= p[k].col <= hi
    ensures forall k :: 0 <= k < |p| ==> p[k].col == lo + k
  {
    seq(hi - lo + 1, k => Cell(r, lo + k))
  }

  /** The cells of column `c` from row `lo` to row `hi`, top to bottom. */
  function ColumnSpan(c: int, lo: int, hi: int): (p: seq<Cell>)
    requires lo <= hi
    ensures |p| == hi - lo + 1
    ensures forall k :: 0 <= k < |p| ==> p[k].col == c && lo <= p[k].row <= hi
    ensures forall k :: 0 <= k < |p| ==> p[k].row == lo + k
  {
    seq(hi - lo + 1, k => Cell(lo + k, c))
  }

  /** The `n + 1` cells of the diagonal stepping from `a` towards `b`. */
  function DiagonalLine(a: Cell, b: Cell, n: nat): (p: seq<Cell>)
    ensures |p| == n + 1 && p[0] == a
    ensures forall k :: 0 <= k < |p| ==> p[k] == Cell(Toward(a.row, b.row, k), Toward(a.col, b.col, k))
  {
    seq(n + 1, k => Cell(Toward(a.row, b.row, k), Toward(a.col, b.col, k)))
  }

  /** The cells `handleMouseUp` reads, in reading order: a horizontal or
      vertical span from its lower to its higher end, a diagonal from the start
      cell to the current cell, nothing for any other drag. */
  function Path(a: Cell, b: Cell): (p: seq<Cell>)
    ensures a.row != b.row && a.col != b.col && !TrueDiagonal(a, b) ==> p == []
    ensures TrueDiagonal(a, b) ==> |p| == Abs(b.row - a.row) + 1 && p[0] == a && p[|p| - 1] == b
    ensures forall k :: 0 <= k < |p| ==> Min(a.row, b.row) <= p[k].row <= Max(a.row, b.row)
    ensures forall k :: 0 <= k < |p| ==> Min(a.col, b.col) <= p[k].col <= Max(a.col, b.col)
  {
    if a.row == b.row then RowSpan(a.row, Min(a.col, b.col), Max(a.col, b.col))
    else if a.col == b.col then ColumnSpan(a.col, Min(a.row, b.row), Max(a.row, b.row))
    else if Abs(b.row - a.row) == Abs(b.col - a.col) then DiagonalLine(a, b, Abs(b.row - a.row))
    else []
  }

  /** The letters of a sequence of cells, concatenated in order. */
  function Spell(grid: seq<seq<string>>, cells: seq<Cell>): string
  {
    SpellPrefix(grid, cells, |cells|)
  }

  /** The letters of the first `k` cells. */
  function SpellPrefix(grid: seq<seq<string>>, cells: seq<Cell>, k: nat): string
    requires k <= |cells|
  {
    if k == 0 then "" else SpellPrefix(grid, cells, k - 1) + At(grid, cells[k - 1])
  }

  /** The selection's string, built with the loops of `handleMouseUp`. */
  method ReadSelection(grid: seq<seq<string>>, a: Cell, b: Cell) returns (s: string)
    ensures s == Spell(grid, Path(a, b))
  {
    if a.row == b.row {
      ghost var p := RowSpan(a.row, Min(a.col, b.col), Max(a.col, b.col));
      assert Path(a, b) == p;
      s := ReadRow(grid, a.row, Min(a.col, b.col), Max(a.col, b.col));
    } else if a.col == b.col {
      ghost var p := ColumnSpan(a.col, Min(a.row, b.row), Max(a.row, b.row));
      assert Path(a, b) == p;
      s := ReadColumn(grid, a.col, Min(a.row, b.row), Max(a.row, b.row));
    } else if Abs(b.row - a.row) == Abs(b.col - a.col) {
      ghost var n := Abs(b.row - a.row);
      ghost var p := DiagonalLine(a, b, n);
      assert Path(a, b) == p;
      s := ReadDiagonal(grid, a, b);
      DiagonalSpellLine(grid, a, b, n, n + 1);
      assert s == SpellPrefix(grid, p, |p|);
    } else {
      assert Path(a, b) == [];
      s := "";
    }
  }

  /** The horizontal loop: `for (i = start; i <= end; i++) s += grid[r1][i]`. */
  method ReadRow(grid: seq<seq<string>>, r: int, start: int, end: int) returns (s: string)
    requires start <= end
    ensures s == Spell(grid, RowSpan(r, start, end))
  {
    ghost var p := RowSpan(r, start, end);
    s := "";
    var i := start;
    while i <= end
      invariant start <= i <= end + 1
      invariant s == SpellPrefix(grid, p, i - start)
    {
      assert p[i - start] == Cell(r, i);
      s := s + At(grid, Cell(r, i));
      i := i + 1;
    }
  }

  /** The vertical loop: `for (i = start; i <= end; i++) s += grid[i][c1]`. */
  method ReadColumn(grid: seq<seq<string>>, c: int, start: int, end: int) returns (s: string)
    requires start <= end
    ensures s == Spell(grid, ColumnSpan(c, start, end))
  {
    ghost var p := ColumnSpan(c, start, end);
    s := "";
    var i := start;
    while i <= end
      invariant start <= i <= end + 1
      invariant s == SpellPrefix(grid, p, i - start)
    {
      assert p[i - start] == Cell(i, c);
      s := s + At(grid, Cell(i, c));
      i := i + 1;
    }
  }

  /** The letters of the first `k` cells of the diagonal from `a` towards `b`. */
  function DiagonalSpell(grid: seq<seq<string>>, a: Cell, b: Cell, k: nat): string
  {
    if k == 0 then "" else DiagonalSpell(grid, a, b, k - 1) + At(grid, Cell(Toward(a.row, b.row, k - 1), Toward(a.col, b.col, k - 1)))
  }

  /** Reading the diagonal cell by cell spells the diagonal line. */
  lemma {:induction false} DiagonalSpellLine(grid: seq<seq<string>>, a: Cell, b: Cell, n: nat, k: nat)
    requires k <= n + 1
    ensures DiagonalSpell(grid, a, b, k) == SpellPrefix(grid, DiagonalLine(a, b, n), k)
  {
    if k > 0 {
      DiagonalSpellLine(grid, a, b, n, k - 1);
    }
  }

  /** Stepping from `a`, the current cell `b` is reached after exactly as
      many steps as the rows differ. */
  lemma DiagonalEnd(a: Cell, b: Cell, k: nat)
    requires TrueDiagonal(a, b) && k <= Abs(b.row - a.row)
    ensures Toward(a.row, b.row, k) == b.row && Toward(a.col, b.col, k) == b.col <==> k == Abs(b.row - a.row)
  {
  }

  /** The diagonal loop: step from the start cell until the current cell has been read. */
  method ReadDiagonal(grid: seq<seq<string>>, a: Cell, b: Cell) returns (s: string)
    requires TrueDiagonal(a, b)
    ensures s == DiagonalSpell(grid, a, b, Abs(b.row - a.row) + 1)
  {
    ghost var n := Abs(b.row - a.row);
    var rowStep := if a.row < b.row then 1 else -1;
    var colStep := if a.col < b.col then 1 else -1;
    var r, c := a.row, a.col;
    ghost var k := 0;
    s := "";
    while true
      invariant 0 <= k <= n
      invariant r == Toward(a.row, b.row, k) && c == Toward(a.col, b.col, k)
      invariant s == DiagonalSpell(grid, a, b, k)
      decreases n - k
    {
      s := s + At(grid, Cell(r, c));
      DiagonalEnd(a, b, k);
      if r == b.row && c == b.col {
        assert k == n;
        break;
      }
      r := r + rowStep;
      c := c + colStep;
      k := k + 1;
    }
  }

  /** `isCellSelected`'s test `(row-r1)/(col-c1) === (r2-r1)/(c2-c1)` with
      JavaScript division: x/0 is an infinity of x's sign, 0/0 is NaN and NaN
      equals nothing. */
  predicate QuotientsEqual(a: int, b: int, c: int, d: int)
    ensures b != 0 && d != 0 ==> (QuotientsEqual(a, b, c, d) <==> (a as real) / (b as real) == (c as real) / (d as real))
    ensures a == 0 && b == 0 ==> !QuotientsEqual(a, b, c, d)
    ensures b == 0 && d == 0 && a > 0 ==> (QuotientsEqual(a, b, c, d) <==> c > 0)
    ensures b == 0 && d == 0 && a < 0 ==> (QuotientsEqual(a, b, c, d) <==> c < 0)
    ensures b == 0 && d != 0 ==> !QuotientsEqual(a, b, c, d)
    ensures b != 0 && d == 0 ==> !QuotientsEqual(a, b, c, d)
  {
    if b == 0 && d == 0 then (a > 0 && c > 0) || (a < 0 && c < 0)
    else if b == 0 || d == 0 then false
    else a * d == c * b
  }

  /** `isCellSelected(row, col)` for a selection in progress from `a` to `b`. */
  predicate Highlighted(a: Cell, b: Cell, x: Cell)
  {
    || (a.row == b.row && a.row == x.row && Min(a.col, b.col) <= x.col <= Max(a.col, b.col))
    || (a.col == b.col && a.col == x.col && Min(a.row, b.row) <= x.row <= Max(a.row, b.row))
    || (Abs(b.row - a.row) == Abs(b.col - a.col) && Abs(x.row - a.row) == Abs(x.col - a.col)
        && QuotientsEqual(x.row - a.row, x.col - a.col, b.row - a.row, b.col - a.col)
        && Min(a.row, b.row) <= x.row <= Max(a.row, b.row)
        && Min(a.col, b.col) <= x.col <= Max(a.col, b.col))
  }

  /** The highlighted cells are exactly the cells that mouse-up will read,
      except the start cell of a true diagonal, whose slope test is 0/0. */
  lemma {:induction false} HighlightMatchesPath(a: Cell, b: Cell, x: Cell)
    ensures Highlighted(a, b, x) <==> x in Path(a, b) && !(TrueDiagonal(a, b) && x == a)
  {
    var p := Path(a, b);
    if a.row == b.row {
      if Highlighted(a, b, x) {
        assert p[x.col - Min(a.col, b.col)] == x;
      }
    } else if a.col == b.col {
      if Highlighted(a, b, x) {
        assert p[x.row - Min(a.row, b.row)] == x;
      }
    } else if TrueDiagonal(a, b) {
      if Highlighted(a, b, x) {
        HighlightedOnDiagonal(a, b, x);
      }
      if x in p && x != a {
        var k :| 0 <= k < |p| && p[k] == x;
        DiagonalCellHighlighted(a, b, k);
      }
    }
  }

  lemma HighlightedOnDiagonal(a: Cell, b: Cell, x: Cell)
    requires TrueDiagonal(a, b) && a.col != b.col && Highlighted(a, b, x)
    ensures x in Path(a, b) && x != a
  {
    var k := Abs(x.row - a.row);
    assert x.col - a.col != 0;
    assert x.row == Toward(a.row, b.row, k) && x.col == Toward(a.col, b.col, k);
    assert Path(a, b)[k] == x;
  }

  lemma DiagonalCellHighlighted(a: Cell, b: Cell, k: nat)
    requires TrueDiagonal(a, b) && a.col != b.col && 0 < k <= Abs(b.row - a.row)
    ensures Highlighted(a, b, Path(a, b)[k])
  {
    var n: int := Abs(b.row - a.row);
    var m: int := k;
    var x := Path(a, b)[k];
    var dr, dc := x.row - a.row, x.col - a.col;
    var er, ec := b.row - a.row, b.col - a.col;
    assert dr == (if a.row < b.row then m else -m) && dc == (if a.col < b.col then m else -m);
    assert er == (if a.row < b.row then n else -n) && ec == (if a.col < b.col then n else -n);
    assert m * n == n * m;
    assert dr * ec == er * dc;
  }

  /** The lookup of `handleMouseUp`: the string read is preferred to its reversal;
      either is added only when it is a listed word not yet found. */
  function FoundAfter(words: seq<string>, found: seq<string>, s: string): (r: seq<string>)
    ensures s in words && s !in found ==> r == found + [s]
    ensures !(s in words && s !in found) && Reverse(s) in words && Reverse(s) !in found ==> r == found + [Reverse(s)]
    ensures !(s in words && s !in found) && !(Reverse(s) in words && Reverse(s) !in found) ==> r == found
  {
    if s in words && s !in found then found + [s]
    else if Reverse(s) in words && Reverse(s) !in found then found + [Reverse(s)]
    else found
  }

  /** `selectedString.split('').reverse().join('')`. */
  function Reverse(s: string): (r: string)
    ensures |r| == |s|
    ensures forall i :: 0 <= i < |s| ==> r[i] == s[|s| - 1 - i]
  {
    if s == [] then [] else Reverse(s[1..]) + [s[0]]
  }

  /** The found list holds distinct listed words. */
  predicate FoundValid(words: seq<string>, found: seq<string>)
  {
    NoDuplicates(found) && forall w :: w in found ==> w in words
  }

  /** A lookup keeps the found list valid, only ever extends it, and adds at most one word. */
  lemma LookupKeepsFoundValid(words: seq<string>, found: seq<string>, s: string)
    requires FoundValid(words, found)
    ensures FoundValid(words, FoundAfter(words, found, s))
    ensures found <= FoundAfter(words, found, s)
    ensures |FoundAfter(words, found, s)| <= |found| + 1
  {
  }

  /** The word list as compared: every word upper-cased. */
  function Normalized(words: seq<string>): (r: seq<string>)
    ensures |r| == |words|
    ensures forall i :: 0 <= i < |words| ==> r[i] == Upper(words[i])
  {
    seq(|words|, i requires 0 <= i < |words| => Upper(words[i]))
  }

  /** Grid letters are not upper-cased before the lookup: a selection holding a
      lower-case ASCII letter never matches, read either way. */
  lemma {:induction false} LowercaseNeverMatches(words: seq<string>, found: seq<string>, s: string, i: nat)
    requires i < |s| && IsLowerAscii(s[i])
    ensures FoundAfter(Normalized(words), found, s) == found
  {
    var n := Normalized(words);
    forall w | w in n
      ensures w != s && w != Reverse(s)
    {
      var j :| 0 <= j < |n| && n[j] == w;
      UpperHasNoLowercase(words[j]);
      if |w| == |s| {
        assert w[i] != s[i];
        assert Reverse(s)[|s| - 1 - i] == s[i];
        assert w[|s| - 1 - i] != Reverse(s)[|s| - 1 - i];
      }
    }
  }

  /** Dragging back over a horizontal or vertical line reads the same cells;
      dragging back over a diagonal reads them in the opposite order. */
  lemma {:induction false} PathOfReverseDrag(a: Cell, b: Cell)
    ensures a.row == b.row || a.col == b.col ==> Path(b, a) == Path(a, b)
    ensures TrueDiagonal(a, b) ==> |Path(b, a)| == |Path(a, b)|
    ensures TrueDiagonal(a, b) ==>
              forall k :: 0 <= k < |Path(a, b)| ==> Path(b, a)[k] == Path(a, b)[|Path(a, b)| - 1 - k]
  {
    if TrueDiagonal(a, b) {
      var p, q := Path(a, b), Path(b, a);
      var n := |p| - 1;
      forall k | 0 <= k < |p|
        ensures q[k] == p[n - k]
      {
        assert q[k] == Cell(Toward(b.row, a.row, k), Toward(b.col, a.col, k));
        assert p[n - k] == Cell(Toward(a.row, b.row, n - k), Toward(a.col, b.col, n - k));
      }
    }
  }

  /** The puzzle's interaction state. */
  class Puzzle {
    const grid: seq<seq<string>>
    const normalizedWords: seq<string>
    var isSelecting: bool
    var startCell: Option<Cell>
    var currentCell: Option<Cell>
    var foundWords: seq<string>

    /** A selection is in progress exactly when both cells are set; the found
        list holds distinct listed words. */
    ghost predicate Valid()
      reads this
    {
      && (isSelecting <==> startCell.Some?)
      && (isSelecting <==> currentCell.Some?)
      && FoundValid(normalizedWords, foundWords)
    }

    constructor (data: WordSearchData)
      ensures grid == data.grid && normalizedWords == Normalized(data.words)
      ensures !isSelecting && startCell == None && currentCell == None && foundWords == []
      ensures Valid()
    {
      grid := data.grid;
      normalizedWords := Normalized(data.words);
      isSelecting := false;
      startCell, currentCell := None, None;
      foundWords := [];
    }

    /** Pressing the mouse on a cell of the grid. */
    method MouseDown(row: int, col: int)
      requires Valid() && InGrid(grid, Cell(row, col))
      modifies this
      ensures Valid()
      ensures isSelecting && startCell == Some(Cell(row, col)) && currentCell == Some(Cell(row, col))
      ensures foundWords == old(foundWords)
    {
      isSelecting := true;
      startCell := Some(Cell(row, col));
      currentCell := Some(Cell(row, col));
    }

    /** Moving onto a cell: the current cell follows only during a selection. */
    method MouseEnter(row: int, col: int)
      requires Valid() && InGrid(grid, Cell(row, col))
      modifies this
      ensures Valid()
      ensures isSelecting == old(isSelecting) && startCell == old(startCell)
      ensures currentCell == (if old(isSelecting) then Some(Cell(row, col)) else old(currentCell))
      ensures foundWords == old(foundWords)
    {
      if isSelecting {
        currentCell := Some(Cell(row, col));
      }
    }

    /** Releasing the mouse (or leaving the grid): the line is read and looked
        up, and the selection is cleared. */
    method MouseUp()
      requires Valid()
      modifies this
      ensures Valid()
      ensures !isSelecting && startCell == None && currentCell == None
      ensures old(isSelecting) ==> foundWords == FoundAfter(normalizedWords, old(foundWords),
                Spell(grid, Path(old(startCell).value, old(currentCell).value)))
      ensures !old(isSelecting) ==> foundWords == old(foundWords)
    {
      if !isSelecting || startCell.None? || currentCell.None? {
        return;
      }
      var s := ReadSelection(grid, startCell.value, currentCell.value);
      LookupKeepsFoundValid(normalizedWords, foundWords, s);
      foundWords := FoundAfter(normalizedWords, foundWords, s);
      isSelecting := false;
      startCell := None;
      currentCell := None;
    }

    /** `isCellSelected`. */
    predicate IsCellSelected(row: int, col: int)
      reads this
      ensures IsCellSelected(row, col) <==>
                isSelecting && startCell.Some? && currentCell.Some?
                && Cell(row, col) in Path(startCell.value, currentCell.value)
                && !(TrueDiagonal(startCell.value, currentCell.value) && Cell(row, col) == startCell.value)
    {
      if isSelecting && startCell.Some? && currentCell.Some? then
        HighlightMatchesPath(startCell.value, currentCell.value, Cell(row, col));
        Highlighted(startCell.value, currentCell.value, Cell(row, col))
      else false
    }

    /** A word is struck through in the list when its upper-cased form was
        found; so the strike-through ignores the case the word is listed in. */
    predicate IsStruck(word: string)
      reads this
      ensures IsStruck(word) <==> Upper(word) in foundWords
      ensures IsStruck(word) <==> Upper(Upper(word)) in foundWords
    {
      UpperHasNoLowercase(word);
      Upper(word) in foundWords
    }
  }
}
