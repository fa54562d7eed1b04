/**
 * The board engine of Sudoku.cpp: range validation, the index scheme of the
 * 27 tracker entries, and the class Sudoku whose methods update the grid,
 * the editability mask, the tracker and the game state in place.
 *
 * TrackProgress, SetCell, Load and LoadRowCells are proved equal to pure
 * functions on a Snapshot of the four fields (Track, Place, LoadSpec and
 * LoadRow), whose properties are proved in SudokuProperties and
 * LoadProperties; Clear and SetCanEditCell state their new fields directly.
 */
module SudokuEngine {
  import opened SudokuTypes

  // ------------------------------------------------------------------
  // Validation

  /** The inclusive test 0 <= v <= 9, used for coordinates and digits alike. */
  function CheckCellValue(cellValue: nat): (ok: bool)
    ensures ok <==> cellValue <= NumRowsCols
  {
    CheckNumInBounds(0, NumRowsCols, cellValue)
  }

  /**
   * Accepts a placement when row, column and digit all lie in 0..9. The
   * upper bound 9 is inclusive for the coordinates too.
   */
  function ValidateCellEntry(row: nat, col: nat, num: nat): (ok: bool)
    ensures ok <==> row <= 9 && col <= 9 && num <= 9
  {
    var rowOk := CheckCellValue(row);
    var colOk := CheckCellValue(col);
    var numOk := CheckCellValue(num);
    rowOk && colOk && numOk
  }

  /**
   * The entries on which SetCell has defined behaviour: those that
   * validation rejects, and those it accepts with both coordinates below 9.
   * An accepted row or column of 9 indexes past the end of the mask.
   */
  predicate DefinedEntry(row: nat, col: nat, num: nat)
  {
    ValidateCellEntry(row, col, num) ==> row < NumRowsCols && col < NumRowsCols
  }

  // ------------------------------------------------------------------
  // Index scheme of the tracker: rows | columns | blocks

  function GetCheckerRowIndex(row: nat): (k: nat)
    ensures row < NumRowsCols ==> k < NumRowsCols
  {
    row
  }

  function GetCheckerColumnIndex(col: nat): (k: nat)
    ensures col < NumRowsCols ==> NumRowsCols <= k < 2 * NumRowsCols
  {
    NumRowsCols + col
  }

  function GetCheckerCellIndex(row: nat, col: nat): (k: nat)
    ensures row < NumRowsCols && col < NumRowsCols ==> 2 * NumRowsCols <= k < NumSetsToCheck
  {
    var rowCell := row / NumRowsColsInCell;
    var colCell := col / NumRowsColsInCell;
    NumRowsCols * 2 + rowCell * NumRowsColsInCell + colCell
  }

  /** Tracker entry k is one of the three units that contain cell (row, col). */
  predicate IsUnitOf(k: nat, row: nat, col: nat)
  {
    k == GetCheckerRowIndex(row) || k == GetCheckerColumnIndex(col) || k == GetCheckerCellIndex(row, col)
  }

  /**
   * The decision of TryWriteSep, used when drawing the grid: whether a
   * separator follows row or column n. Nothing is written after the first
   * and the last index; otherwise after every third.
   */
  function WritesSeparator(n: nat): (b: bool)
    ensures n < NumRowsCols ==> (b <==> n == 2 || n == 5)
  {
    if n == 0 then false
    else if n + 1 == NumRowsCols then false
    else (n + 1) % NumRowsColsInCell == 0
  }

  // ------------------------------------------------------------------
  // Abstract state

  /** The values of the four pieces of state of a Sudoku object. */
  datatype Snapshot = Snapshot(
    board: seq<seq<nat>>,
    editable: seq<Bits>,
    checker: seq<Bits>,
    state: GameState)

  /**
   * Nine grid rows of nine cells, nine mask rows and 27 tracker entries.
   * The cell values are not bounded here: every placement keeps them in
   * 0..9 (PlaceKeepsDigitsInRange), but a state need not start that way.
   */
  predicate Shaped(s: Snapshot)
  {
    && |s.board| == NumRowsCols
    && (forall r :: 0 <= r < NumRowsCols ==> |s.board[r]| == NumRowsCols)
    && |s.editable| == NumRowsCols
    && |s.checker| == NumSetsToCheck
  }

  /** The starting board passed to Load: nine rows of nine values. */
  predicate BoardShape(start: seq<seq<nat>>)
  {
    |start| == NumRowsCols && forall r :: 0 <= r < NumRowsCols ==> |start[r]| == NumRowsCols
  }

  /** Every tracker entry has all nine bits set. */
  predicate AllFull(checker: seq<Bits>)
  {
    forall k :: 0 <= k < |checker| ==> All(checker[k])
  }

  /** The state a freshly constructed object holds. */
  function Fresh(): (s: Snapshot)
    ensures Shaped(s)
  {
    Snapshot(
      seq(NumRowsCols, _ => seq(NumRowsCols, _ => 0)),
      seq(NumRowsCols, _ => {}),
      seq(NumSetsToCheck, _ => {}),
      Unsolved)
  }

  /** bitset::set on tracker entry k: that entry gains the bit, every other entry is kept. */
  function SetBit(c: seq<Bits>, k: nat, bit: nat): (c': seq<Bits>)
    requires k < |c| && bit < NumRowsCols
    ensures |c'| == |c| && c'[k] == c[k] + {bit}
    ensures forall i :: 0 <= i < |c| && i != k ==> c'[i] == c[i]
  {
    c[k := c[k] + {bit}]
  }

  /** bitset::reset on tracker entry k: that entry loses the bit, every other entry is kept. */
  function ResetBit(c: seq<Bits>, k: nat, bit: nat): (c': seq<Bits>)
    requires k < |c|
    ensures |c'| == |c| && c'[k] == c[k] - {bit}
    ensures forall i :: 0 <= i < |c| && i != k ==> c'[i] == c[i]
  {
    c[k := c[k] - {bit}]
  }

  /**
   * What TrackProgress does: set bit num - 1 in the three units of the cell
   * for a digit, or reset the bit of the digit the cell held before for a
   * clear, and then promote the state to Solved if every entry is full.
   */
  function Track(s: Snapshot, row: nat, col: nat, num: nat): (t: Snapshot)
    requires Shaped(s) && row < NumRowsCols && col < NumRowsCols && num <= 9
    ensures Shaped(t)
    ensures t.board == s.board && t.editable == s.editable
    ensures t.state == if AllFull(t.checker) then Solved else s.state
  {
    var rk, ck, bk := GetCheckerRowIndex(row), GetCheckerColumnIndex(col), GetCheckerCellIndex(row, col);
    var checker :=
      if num > 0 then
        SetBit(SetBit(SetBit(s.checker, rk, num - 1), ck, num - 1), bk, num - 1)
      else
        var current := s.board[row][col];
        if current > 0 then
          ResetBit(ResetBit(ResetBit(s.checker, rk, current - 1), ck, current - 1), bk, current - 1)
        else
          s.checker;
    s.(checker := checker, state := if AllFull(checker) then Solved else s.state)
  }

  /**
   * What SetCell does, with its result: reject an invalid entry or a locked
   * cell without any change; otherwise track, write the digit, and lock the
   * cell when the state is still Loading and the digit is not 0.
   */
  function Place(s: Snapshot, row: nat, col: nat, num: nat): (r: (Snapshot, bool))
    requires Shaped(s) && DefinedEntry(row, col, num)
    ensures Shaped(r.0)
    ensures r.1 <==> ValidateCellEntry(row, col, num) && col in s.editable[row]
    ensures !r.1 ==> r.0 == s
  {
    if !ValidateCellEntry(row, col, num) then (s, false)
    else if col !in s.editable[row] then (s, false)
    else
      var t := Track(s, row, col, num);
      var written: seq<nat> := t.board[row][col := num];
      var w := t.(board := t.board[row := written]);
      if w.state == Loading && num != 0 then
        (w.(editable := w.editable[row := w.editable[row] - {col}]), true)
      else
        (w, true)
  }

  /** The unlock that precedes each placement of Load. */
  function Unlock(s: Snapshot, r: nat, c: nat): (t: Snapshot)
    requires Shaped(s) && r < NumRowsCols && c < NumRowsCols
    ensures Shaped(t)
  {
    s.(editable := s.editable[r := s.editable[r] + {c}])
  }

  /** One step of Load: unlock cell (r, c), then place its value from the starting board. */
  function LoadCell(s: Snapshot, start: seq<seq<nat>>, r: nat, c: nat): (t: Snapshot)
    requires Shaped(s) && BoardShape(start) && r < NumRowsCols && c < NumRowsCols
    ensures Shaped(t)
  {
    Place(Unlock(s, r, c), r, c, start[r][c]).0
  }

  /** The inner loop of Load: the state after cells (r, 0) .. (r, c - 1), starting from s. */
  function LoadRow(s: Snapshot, start: seq<seq<nat>>, r: nat, c: nat): (t: Snapshot)
    requires Shaped(s) && BoardShape(start) && r < NumRowsCols && c <= NumRowsCols
    ensures Shaped(t)
    decreases c
  {
    if c == 0 then s else LoadCell(LoadRow(s, start, r, c - 1), start, r, c - 1)
  }

  /** The outer loop of Load: the state after rows 0 .. r - 1, starting from s. */
  function LoadRows(s: Snapshot, start: seq<seq<nat>>, r: nat): (t: Snapshot)
    requires Shaped(s) && BoardShape(start) && r <= NumRowsCols
    ensures Shaped(t)
    decreases r
  {
    if r == 0 then s else LoadRow(LoadRows(s, start, r - 1), start, r - 1, NumRowsCols)
  }

  /** What Load does: enter Loading, run both loops over all 81 cells, and end Unsolved. */
  function LoadSpec(s: Snapshot, start: seq<seq<nat>>): (t: Snapshot)
    requires Shaped(s) && BoardShape(start)
    ensures Shaped(t)
    ensures t.state == Unsolved
  {
    LoadRows(s.(state := Loading), start, NumRowsCols).(state := Unsolved)
  }

  // ------------------------------------------------------------------
  // The board object

  class Sudoku {
    var board: seq<seq<nat>>
    var editable: seq<Bits>
    var checker: seq<Bits>
    var gameState: GameState

    function Snap(): (s: Snapshot)
      reads this
    {
      Snapshot(board, editable, checker, gameState)
    }

    ghost predicate Valid()
      reads this
    {
      Shaped(Snap())
    }

    /** A new board: all cells 0 and locked, every tracker entry empty, Unsolved. */
    constructor ()
      ensures Valid() && Snap() == Fresh()
    {
      board := seq(NumRowsCols, _ => seq(NumRowsCols, _ => 0));
      editable := seq(NumRowsCols, _ => {});
      checker := seq(NumSetsToCheck, _ => {});
      gameState := Unsolved;
    }

    /** Replays the starting board through SetCell in Loading mode. */
    method Load(startingBoard: seq<seq<nat>>)
      requires Valid() && BoardShape(startingBoard)
      modifies this
      ensures Snap() == LoadSpec(old(Snap()), startingBoard)
    {
      gameState := Loading;
      ghost var s0 := Snap();
      var r := 0;
      while r < NumRowsCols
        invariant 0 <= r <= NumRowsCols && Valid()
        invariant Snap() == LoadRows(s0, startingBoard, r)
      {
        LoadRowCells(startingBoard, r);
        r := r + 1;
      }
      gameState := Unsolved;
    }

    /** The inner loop of Load over the cells of row r: unlock each cell, then place its value. */
    method LoadRowCells(startingBoard: seq<seq<nat>>, r: nat)
      requires Valid() && BoardShape(startingBoard) && r < NumRowsCols
      modifies this
      ensures Valid() && Snap() == LoadRow(old(Snap()), startingBoard, r, NumRowsCols)
    {
      var c := 0;
      while c < NumRowsCols
        invariant 0 <= c <= NumRowsCols && Valid()
        invariant Snap() == LoadRow(old(Snap()), startingBoard, r, c)
      {
        editable := editable[r := editable[r] + {c}];
        var _ := SetCell(r, c, startingBoard[r][c]);
        c := c + 1;
      }
    }

    /** Empties the three vectors; the game state is kept. */
    method Clear()
      modifies this
      ensures board == [] && editable == [] && checker == []
      ensures gameState == old(gameState)
      ensures !Valid()
    {
      board := [];
      editable := [];
      checker := [];
    }

    /** Updates the tracker for a placement and promotes the state when every entry is full. */
    method TrackProgress(row: nat, col: nat, num: nat)
      requires Valid() && row < NumRowsCols && col < NumRowsCols && num <= 9
      modifies this`checker, this`gameState
      ensures Valid() && Snap() == Track(old(Snap()), row, col, num)
    {
      if num > 0 {
        checker := SetBit(checker, GetCheckerRowIndex(row), num - 1);
        checker := SetBit(checker, GetCheckerColumnIndex(col), num - 1);
        checker := SetBit(checker, GetCheckerCellIndex(row, col), num - 1);
      } else if num == 0 {
        var currentNumAtSpot := board[row][col];
        if currentNumAtSpot > 0 {
          checker := ResetBit(checker, GetCheckerRowIndex(row), currentNumAtSpot - 1);
          checker := ResetBit(checker, GetCheckerColumnIndex(col), currentNumAtSpot - 1);
          checker := ResetBit(checker, GetCheckerCellIndex(row, col), currentNumAtSpot - 1);
        }
      }

      var solved := true;
      var i := 0;
      while i < |checker|
        invariant 0 <= i <= |checker|
        invariant solved
        invariant forall k :: 0 <= k < i ==> All(checker[k])
      {
        solved := solved && All(checker[i]);
        if !solved {
          break;
        }
        i := i + 1;
      }
      assert solved <==> AllFull(checker);

      if solved {
        gameState := GameState.Solved;
      }
    }

    /** Validates, checks editability, tracks, writes, and locks a clue while loading. */
    method SetCell(row: nat, col: nat, num: nat) returns (ok: bool)
      requires Valid() && DefinedEntry(row, col, num)
      modifies this
      ensures Valid() && (Snap(), ok) == Place(old(Snap()), row, col, num)
    {
      if !ValidateCellEntry(row, col, num) {
        return false;
      }
      if !CanEditCell(row, col) {
        return false;
      }
      TrackProgress(row, col, num);
      var written: seq<nat> := board[row][col := num];
      board := board[row := written];
      if gameState == Loading && num != 0 {
        SetCanEditCell(row, col, false);
      }
      return true;
    }

    function Solved(): (b: bool)
      reads this
      ensures b <==> gameState == GameState.Solved
    {
      gameState == GameState.Solved
    }

    function CanEditCell(row: nat, col: nat): (b: bool)
      reads this
      requires Valid() && row < NumRowsCols && col < NumRowsCols
      ensures b <==> col in editable[row]
    {
      col in editable[row]
    }

    method SetCanEditCell(row: nat, col: nat, canEdit: bool)
      requires Valid() && row < NumRowsCols && col < NumRowsCols
      modifies this`editable
      ensures Valid()
      ensures editable == old(editable)[row := if canEdit then old(editable)[row] + {col} else old(editable)[row] - {col}]
    {
      editable := editable[row := if canEdit then editable[row] + {col} else editable[row] - {col}];
    }
  }
}
