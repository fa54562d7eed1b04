/**
 * The declarations of the Sudoku header: the game-state enumeration, the
 * three size constants, the nine-bit set used both for a row of the
 * editability mask and for one completion-tracker entry, and the inclusive
 * range test CheckNumInBounds.
 */
module SudokuTypes {

  /** The lifecycle of a board: exactly three states. */
  datatype GameState = Loading | Unsolved | Solved

  /** Side of the grid (cNUM_ROWS_COLS). */
  const NumRowsCols: nat := 9
  /** Side of a block (cNUM_ROWS_COLS_IN_CELL). */
  const NumRowsColsInCell: nat := 3
  /** Number of tracked units (cNUM_SETS_TO_CHECK): 9 rows, 9 columns, 9 blocks. */
  const NumSetsToCheck: nat := 27

  /**
   * A std::bitset<9>, written as the set of the positions of its 1 bits.
   * In a tracker entry, bit d - 1 stands for digit d.
   */
  type Bits = b: set<nat> | forall i :: i in b ==> i < NumRowsCols witness {}

  /** bitset::all(): every one of the nine bits is set. */
  predicate All(b: Bits)
  {
    forall i :: 0 <= i < NumRowsCols ==> i in b
  }

  /** The only Bits value for which All holds is the full nine-bit set, which has nine members. */
  lemma AllIsFull(b: Bits)
    ensures All(b) <==> b == {0, 1, 2, 3, 4, 5, 6, 7, 8}
    ensures All(b) ==> |b| == NumRowsCols
  {
  }

  /** The size constants describe 9 rows, 9 columns and 9 blocks of 3 x 3 cells. */
  lemma SizeConstants()
    ensures NumRowsColsInCell * NumRowsColsInCell == NumRowsCols
    ensures NumSetsToCheck == 3 * NumRowsCols
  {
  }

  /** The template range test of the header: both endpoints are inside. */
  function CheckNumInBounds(min: int, max: int, num: int): (inside: bool)
    ensures inside ==> min <= max
  {
    num >= min && num <= max
  }

  /** CheckNumInBounds accepts exactly the closed interval [min, max]. */
  lemma CheckNumInBoundsIsClosedInterval(min: int, max: int, num: int)
    ensures CheckNumInBounds(min, max, num) <==> min <= num && num <= max
    ensures min <= max ==> CheckNumInBounds(min, max, min) && CheckNumInBounds(min, max, max)
    ensures !CheckNumInBounds(min, max, max + 1) && !CheckNumInBounds(min, max, min - 1)
  {
  }
}
