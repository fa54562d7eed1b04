/**
 * Properties of one placement (Place, the specification of SetCell) and of
 * the tracker index scheme: what a placement writes, what it leaves alone,
 * how it moves the tracker and the game state, and where the code departs
 * from the "tracker = digits present" reading.
 */
module SudokuProperties {
  import opened SudokuTypes
  import opened SudokuEngine

  // ------------------------------------------------------------------
  // Fresh object and validation

  /** A new object holds an empty, fully locked board with empty tracker entries. */
  lemma FreshIsEmptyAndLocked()
    ensures Fresh().state == Unsolved
    ensures forall r, c :: 0 <= r < NumRowsCols && 0 <= c < NumRowsCols ==>
      Fresh().board[r][c] == 0 && c !in Fresh().editable[r]
    ensures forall k :: 0 <= k < NumSetsToCheck ==> Fresh().checker[k] == {}
  {
  }

  /** Before Load, every in-range placement is refused and changes nothing. */
  lemma FreshRejectsEveryPlacement(row: nat, col: nat, num: nat)
    requires row < NumRowsCols && col < NumRowsCols
    ensures Place(Fresh(), row, col, num) == (Fresh(), false)
  {
    FreshIsEmptyAndLocked();
  }

  /**
   * Validation uses the digit bound for the coordinates too: a row or
   * column of 9 is accepted, and only 10 and above are refused. An accepted
   * coordinate of 9 lies outside the 9 x 9 grid.
   */
  lemma CoordinateNineIsAccepted(num: nat)
    requires num <= 9
    ensures ValidateCellEntry(9, 0, num) && ValidateCellEntry(0, 9, num)
    ensures !ValidateCellEntry(10, 0, num) && !ValidateCellEntry(0, 10, num)
    ensures !DefinedEntry(9, 0, num) && !DefinedEntry(0, 9, num)
  {
  }

  // ------------------------------------------------------------------
  // Index scheme

  /**
   * The three units of an in-grid cell are three distinct tracker entries,
   * one in each band: rows 0..8, columns 9..17, blocks 18..26.
   */
  lemma UnitIndicesDistinct(row: nat, col: nat)
    requires row < NumRowsCols && col < NumRowsCols
    ensures GetCheckerRowIndex(row) == row
    ensures GetCheckerColumnIndex(col) == 9 + col
    ensures GetCheckerCellIndex(row, col) == 18 + (row / 3) * 3 + col / 3
    ensures GetCheckerRowIndex(row) != GetCheckerColumnIndex(col)
    ensures GetCheckerColumnIndex(col) != GetCheckerCellIndex(row, col)
    ensures GetCheckerRowIndex(row) != GetCheckerCellIndex(row, col)
  {
  }

  /** Two in-grid cells share a block entry exactly when they lie in the same 3 x 3 block. */
  lemma SameBlockIndex(r1: nat, c1: nat, r2: nat, c2: nat)
    requires r1 < NumRowsCols && c1 < NumRowsCols && r2 < NumRowsCols && c2 < NumRowsCols
    ensures GetCheckerCellIndex(r1, c1) == GetCheckerCellIndex(r2, c2) <==> r1 / 3 == r2 / 3 && c1 / 3 == c2 / 3
  {
  }

  // ------------------------------------------------------------------
  // One placement

  /** Whether an accepted placement locks its cell: still Loading after tracking, and a digit. */
  predicate Locks(s: Snapshot, row: nat, col: nat, num: nat)
    requires Shaped(s) && row < NumRowsCols && col < NumRowsCols && num <= 9
  {
    Track(s, row, col, num).state == Loading && num != 0
  }

  /**
   * An accepted placement writes num into cell (row, col) and into no other
   * cell, and changes the editability of that cell only, clearing it
   * exactly when the placement locks.
   */
  lemma PlaceWritesOneCell(s: Snapshot, row: nat, col: nat, num: nat)
    requires Shaped(s) && row < NumRowsCols && col < NumRowsCols
    requires Place(s, row, col, num).1
    ensures num <= 9
    ensures forall i, j :: 0 <= i < NumRowsCols && 0 <= j < NumRowsCols ==>
      Place(s, row, col, num).0.board[i][j] == if i == row && j == col then num else s.board[i][j]
    ensures forall i, j :: 0 <= i < NumRowsCols && 0 <= j < NumRowsCols && (i != row || j != col) ==>
      (j in Place(s, row, col, num).0.editable[i] <==> j in s.editable[i])
    ensures col in Place(s, row, col, num).0.editable[row] <==> !Locks(s, row, col, num)
  {
    var t := Place(s, row, col, num).0;
    forall i | 0 <= i < NumRowsCols
      ensures forall j :: 0 <= j < NumRowsCols && (i != row || j != col) ==> (j in t.editable[i] <==> j in s.editable[i])
    {
    }
  }

  /** Outside Loading, a placement never changes editability. */
  lemma PlaceKeepsMaskOutsideLoading(s: Snapshot, row: nat, col: nat, num: nat)
    requires Shaped(s) && DefinedEntry(row, col, num) && s.state != Loading
    ensures Place(s, row, col, num).0.editable == s.editable
  {
  }

  /** The 24 tracker entries that are not units of (row, col) are left alone. */
  lemma PlaceKeepsOtherUnits(s: Snapshot, row: nat, col: nat, num: nat, k: nat)
    requires Shaped(s) && DefinedEntry(row, col, num) && k < NumSetsToCheck && !IsUnitOf(k, row, col)
    ensures Place(s, row, col, num).0.checker[k] == s.checker[k]
  {
  }

  /** An accepted digit 1..9 sets bit num - 1 in each of the three units of the cell. */
  lemma PlaceSetsDigitBit(s: Snapshot, row: nat, col: nat, num: nat, k: nat)
    requires Shaped(s) && row < NumRowsCols && col < NumRowsCols && 1 <= num <= 9
    requires col in s.editable[row] && k < NumSetsToCheck
    ensures Place(s, row, col, num).0.checker[k] == if IsUnitOf(k, row, col) then s.checker[k] + {num - 1} else s.checker[k]
  {
  }

  /**
   * An accepted clear resets, in the three units of the cell, the bit of the
   * digit the cell held before the write; a cell that held 0 leaves the
   * tracker as it was.
   */
  lemma PlaceClearResetsOldBit(s: Snapshot, row: nat, col: nat, k: nat)
    requires Shaped(s) && row < NumRowsCols && col < NumRowsCols
    requires col in s.editable[row] && k < NumSetsToCheck
    ensures var prev := s.board[row][col];
      Place(s, row, col, 0).0.checker[k] ==
        if IsUnitOf(k, row, col) && prev > 0 then s.checker[k] - {prev - 1} else s.checker[k]
  {
  }

  /**
   * Overwriting a digit with another digit does not clear the old digit's
   * bit: a unit can report a digit that no cell of it holds any more.
   */
  lemma PlaceOverwriteKeepsOldBit(s: Snapshot, row: nat, col: nat, num: nat, k: nat)
    requires Shaped(s) && row < NumRowsCols && col < NumRowsCols && 1 <= num <= 9
    requires k < NumSetsToCheck && 0 < s.board[row][col]
    requires s.board[row][col] - 1 in s.checker[k]
    ensures s.board[row][col] - 1 in Place(s, row, col, num).0.checker[k]
    ensures Place(s, row, col, num).1 ==> Place(s, row, col, num).0.board[row][col] == num
  {
  }

  /**
   * Clearing a cell resets its old digit's bit in the row entry even when
   * another cell of that row still holds the same digit.
   */
  lemma ClearForgetsDuplicate(s: Snapshot, row: nat, col: nat, other: nat)
    requires Shaped(s) && row < NumRowsCols && col < NumRowsCols && other < NumRowsCols && other != col
    requires col in s.editable[row] && 0 < s.board[row][col] && s.board[row][other] == s.board[row][col]
    ensures Place(s, row, col, 0).0.board[row][other] == s.board[row][col]
    ensures s.board[row][col] - 1 !in Place(s, row, col, 0).0.checker[GetCheckerRowIndex(row)]
  {
    var t := Place(s, row, col, 0).0;
    assert t.board[row] == s.board[row][col := 0];
  }

  /**
   * After an accepted placement the state is Solved when all 27 entries are
   * full and is otherwise what it was; Solved is never left.
   */
  lemma PlaceState(s: Snapshot, row: nat, col: nat, num: nat)
    requires Shaped(s) && DefinedEntry(row, col, num)
    ensures var (t, ok) := Place(s, row, col, num);
      t.state == if ok && AllFull(t.checker) then Solved else s.state
    ensures s.state == Solved ==> Place(s, row, col, num).0.state == Solved
  {
  }

  /**
   * Repeating a placement changes nothing: the second call is either refused
   * (the first one locked the cell) or leaves grid, mask, tracker and state
   * as the first call left them.
   */
  lemma PlaceIdempotent(s: Snapshot, row: nat, col: nat, num: nat)
    requires Shaped(s) && DefinedEntry(row, col, num)
    ensures var t := Place(s, row, col, num).0;
      Place(t, row, col, num).0 == t
  {
    var (t, ok) := Place(s, row, col, num);
    if ok {
      var (u, ok2) := Place(t, row, col, num);
      if ok2 {
        assert t.board[row][col] == num;
        var tt := Track(t, row, col, num);
        assert tt.checker == t.checker by {
          if num > 0 {
            forall k | 0 <= k < NumSetsToCheck ensures tt.checker[k] == t.checker[k] {
              PlaceSetsDigitBit(s, row, col, num, k);
              PlaceSetsDigitBit(t, row, col, num, k);
            }
          }
        }
        assert t.board[row][col := num] == t.board[row];
      }
    }
  }

  /** Board values stay within 0..9 under every placement. */
  predicate DigitsInRange(s: Snapshot)
    requires Shaped(s)
  {
    forall r, c :: 0 <= r < NumRowsCols && 0 <= c < NumRowsCols ==> s.board[r][c] <= 9
  }

  lemma PlaceKeepsDigitsInRange(s: Snapshot, row: nat, col: nat, num: nat)
    requires Shaped(s) && DefinedEntry(row, col, num) && DigitsInRange(s)
    ensures DigitsInRange(Place(s, row, col, num).0)
  {
    if Place(s, row, col, num).1 {
      PlaceWritesOneCell(s, row, col, num);
    }
  }
}
