/**
 * Properties of Load (LoadSpec): non-clue cells always end editable, and a
 * load into a freshly constructed object leaves exactly the clues locked,
 * the grid equal to the starting board (out-of-range values refused), each
 * tracker entry holding exactly the clues of its unit and the state
 * Unsolved; filling the one blank of a loaded solved grid then solves it.
 *
 * The single exception is cell (8, 8): placing it is the one step at which
 * the tracker can become full during a fresh load, and then TrackProgress
 * has already switched the state to Solved when SetCell tests for Loading,
 * so that clue is left editable.
 */
module LoadProperties {
  import opened SudokuTypes
  import opened SudokuEngine
  import opened SudokuProperties

  /** A clue: a starting value that Load writes and locks. */
  predicate IsClue(v: nat)
  {
    1 <= v <= 9
  }

  /** The value a cell ends up with when v is placed into an empty cell. */
  function Loaded(v: nat): (d: nat)
    ensures d <= 9
    ensures d == v <==> v <= 9
  {
    if v <= 9 then v else 0
  }

  /**
   * Placing v into an editable, empty cell leaves Loaded(v) there: v itself
   * when validation accepts it, and 0 when it refuses a value above 9.
   */
  lemma PlaceIntoEmptyCell(s: Snapshot, r: nat, c: nat, v: nat)
    requires Shaped(s) && r < NumRowsCols && c < NumRowsCols
    requires c in s.editable[r] && s.board[r][c] == 0
    ensures Place(s, r, c, v).0.board[r][c] == Loaded(v)
  {
    if v <= 9 {
      PlaceWritesOneCell(s, r, c, v);
    }
  }

  /** Cell (i, j) comes before cell (r, c) in Load's row-major order. */
  predicate Before(i: nat, j: nat, r: nat, c: nat)
  {
    i < r || (i == r && j < c)
  }

  // ------------------------------------------------------------------
  // Non-clue cells end editable, from any starting state

  /** Every cell of row r before column c, and every cell of an earlier row, holding a non-clue is editable. */
  ghost predicate NonCluesOpen(t: Snapshot, start: seq<seq<nat>>, r: nat, c: nat)
    requires Shaped(t) && BoardShape(start)
  {
    forall i, j :: 0 <= i < NumRowsCols && 0 <= j < NumRowsCols && Before(i, j, r, c) && !IsClue(start[i][j]) ==>
      j in t.editable[i]
  }

  lemma LoadCellOpensNonClue(t: Snapshot, start: seq<seq<nat>>, r: nat, c: nat)
    requires Shaped(t) && BoardShape(start) && r < NumRowsCols && c < NumRowsCols
    requires NonCluesOpen(t, start, r, c)
    ensures NonCluesOpen(LoadCell(t, start, r, c), start, r, c + 1)
  {
    var u := Unlock(t, r, c);
    var v := start[r][c];
    var w := LoadCell(t, start, r, c);
    assert forall i, j :: 0 <= i < NumRowsCols && 0 <= j < NumRowsCols && (i != r || j != c) ==>
      (j in u.editable[i] <==> j in t.editable[i]);
    if Place(u, r, c, v).1 {
      PlaceWritesOneCell(u, r, c, v);
    }
  }

  lemma {:induction false} LoadRowOpensNonClues(t: Snapshot, start: seq<seq<nat>>, r: nat, c: nat)
    requires Shaped(t) && BoardShape(start) && r < NumRowsCols && c <= NumRowsCols
    requires NonCluesOpen(t, start, r, 0)
    ensures NonCluesOpen(LoadRow(t, start, r, c), start, r, c)
  {
    if c > 0 {
      var k: nat := c - 1;
      LoadRowOpensNonClues(t, start, r, k);
      LoadCellOpensNonClue(LoadRow(t, start, r, k), start, r, k);
    }
  }

  /** The end of row k is the start of row r = k + 1. */
  lemma NonCluesOpenNextRow(t: Snapshot, start: seq<seq<nat>>, k: nat, r: nat)
    requires Shaped(t) && BoardShape(start) && r == k + 1
    requires NonCluesOpen(t, start, k, NumRowsCols)
    ensures NonCluesOpen(t, start, r, 0)
  {
    assert forall i, j :: 0 <= j < NumRowsCols ==> (Before(i, j, k, NumRowsCols) <==> Before(i, j, r, 0));
  }

  lemma {:induction false} LoadRowsOpenNonClues(s: Snapshot, start: seq<seq<nat>>, r: nat)
    requires Shaped(s) && BoardShape(start) && r <= NumRowsCols
    ensures NonCluesOpen(LoadRows(s, start, r), start, r, 0)
  {
    if r > 0 {
      var k: nat := r - 1;
      LoadRowsOpenNonClues(s, start, k);
      var t := LoadRows(s, start, k);
      var w := LoadRow(t, start, k, NumRowsCols);
      assert LoadRows(s, start, r) == w;
      LoadRowOpensNonClues(t, start, k, NumRowsCols);
      NonCluesOpenNextRow(w, start, k, r);
    }
  }

  /** Whatever the state before, Load leaves every cell whose starting value is 0 or out of range editable. */
  lemma LoadKeepsNonCluesEditable(s: Snapshot, start: seq<seq<nat>>)
    requires Shaped(s) && BoardShape(start)
    ensures forall i, j :: 0 <= i < NumRowsCols && 0 <= j < NumRowsCols && !IsClue(start[i][j]) ==>
      j in LoadSpec(s, start).editable[i]
  {
    LoadRowsOpenNonClues(s.(state := Loading), start, NumRowsCols);
  }

  // ------------------------------------------------------------------
  // Load into a fresh object

  /**
   * The bits a load into a fresh object has set in tracker entry k just
   * before cell (r, c): bit d - 1 for every clue d already placed in unit k.
   */
  ghost function ClueBits(start: seq<seq<nat>>, k: nat, r: nat, c: nat): (bits: set<nat>)
    requires BoardShape(start)
    ensures forall b :: b in bits ==> b < NumRowsCols
  {
    set i, j | 0 <= i < NumRowsCols && 0 <= j < NumRowsCols && Before(i, j, r, c) && IsUnitOf(k, i, j) && IsClue(start[i][j])
      :: start[i][j] - 1
  }

  /** Moving past cell (r, c) adds its clue, if it is one, to the entries of its units. */
  lemma ClueBitsNext(start: seq<seq<nat>>, k: nat, r: nat, c: nat)
    requires BoardShape(start) && r < NumRowsCols && c < NumRowsCols
    ensures ClueBits(start, k, r, c + 1) ==
      if IsUnitOf(k, r, c) && IsClue(start[r][c]) then ClueBits(start, k, r, c) + {start[r][c] - 1}
      else ClueBits(start, k, r, c)
  {
    forall i: nat, j: nat
      ensures Before(i, j, r, c + 1) <==> Before(i, j, r, c) || (i == r && j == c)
    {
    }
  }

  /** The end of row r and the start of row r + 1 have placed the same clues. */
  lemma ClueBitsNextRow(start: seq<seq<nat>>, k: nat, r: nat)
    requires BoardShape(start)
    ensures ClueBits(start, k, r, NumRowsCols) == ClueBits(start, k, r + 1, 0)
  {
    assert forall i, j :: 0 <= j < NumRowsCols ==> (Before(i, j, r, NumRowsCols) <==> Before(i, j, r + 1, 0));
  }

  /** Every tracker entry holds exactly the clues placed in its unit before cell (r, c). */
  ghost predicate TrackerHoldsClues(t: Snapshot, start: seq<seq<nat>>, r: nat, c: nat)
    requires Shaped(t) && BoardShape(start)
  {
    forall k :: 0 <= k < NumSetsToCheck ==> t.checker[k] == ClueBits(start, k, r, c)
  }

  /**
   * The state of a load into a fresh object just before cell (r, c): cells
   * before it hold their loaded value and are editable exactly when they
   * are not clues, later cells are still 0 and locked, the state is still
   * Loading, and the row-8 tracker entry cannot yet be full.
   */
  ghost predicate FreshLoadAt(t: Snapshot, start: seq<seq<nat>>, r: nat, c: nat)
    requires Shaped(t) && BoardShape(start)
  {
    && t.state == Loading
    && (forall i, j :: 0 <= i < NumRowsCols && 0 <= j < NumRowsCols ==>
          t.board[i][j] == if Before(i, j, r, c) then Loaded(start[i][j]) else 0)
    && (forall i, j :: 0 <= i < NumRowsCols && 0 <= j < NumRowsCols ==>
          (j in t.editable[i] <==> Before(i, j, r, c) && !IsClue(start[i][j])))
    && (r < 8 ==> t.checker[8] == {})
    && (r == 8 ==> |t.checker[8]| <= c)
  }

  /** The tracker after placing v into the empty cell (r, c) is not full, unless (r, c) is the last cell. */
  lemma FreshTrackNotFull(u: Snapshot, start: seq<seq<nat>>, r: nat, c: nat)
    requires Shaped(u) && BoardShape(start) && r < NumRowsCols && c < NumRowsCols && (r < 8 || c < 8)
    requires start[r][c] <= 9 && u.board[r][c] == 0
    requires r < 8 ==> u.checker[8] == {}
    requires r == 8 ==> |u.checker[8]| <= c
    ensures var t := Track(u, r, c, start[r][c]);
      && (r < 8 ==> t.checker[8] == {})
      && (r == 8 ==> |t.checker[8]| <= c + 1)
      && !AllFull(t.checker)
  {
    var t := Track(u, r, c, start[r][c]);
    var v := start[r][c];
    UnitIndicesDistinct(r, c);
    if v > 0 {
      assert t.checker[8] == if r == 8 then u.checker[8] + {v - 1} else u.checker[8];
    } else {
      assert t.checker[8] == u.checker[8];
    }
    if AllFull(t.checker) {
      AllIsFull(t.checker[8]);
      assert false;
    }
  }

  /** Loading cell (r, c), still empty, adds its clue to the entries of its units and changes no other entry. */
  lemma FreshTrackerStep(t: Snapshot, start: seq<seq<nat>>, r: nat, c: nat, k: nat)
    requires Shaped(t) && BoardShape(start) && r < NumRowsCols && c < NumRowsCols && k < NumSetsToCheck
    requires t.board[r][c] == 0 && t.checker[k] == ClueBits(start, k, r, c)
    ensures LoadCell(t, start, r, c).checker[k] == ClueBits(start, k, r, c + 1)
  {
    var u := Unlock(t, r, c);
    var v := start[r][c];
    ClueBitsNext(start, k, r, c);
    if 1 <= v <= 9 {
      PlaceSetsDigitBit(u, r, c, v, k);
    } else if v == 0 {
      PlaceClearResetsOldBit(u, r, c, k);
    }
  }

  /** One step of a fresh load before the last cell keeps FreshLoadAt, one cell further on. */
  lemma FreshLoadCell(t: Snapshot, start: seq<seq<nat>>, r: nat, c: nat)
    requires Shaped(t) && BoardShape(start) && r < NumRowsCols && c < NumRowsCols && (r < 8 || c < 8)
    requires FreshLoadAt(t, start, r, c)
    ensures FreshLoadAt(LoadCell(t, start, r, c), start, r, c + 1)
  {
    var u := Unlock(t, r, c);
    var v := start[r][c];
    var w := LoadCell(t, start, r, c);
    assert forall i, j :: 0 <= i < NumRowsCols && 0 <= j < NumRowsCols && (i != r || j != c) ==>
      (j in u.editable[i] <==> j in t.editable[i]);
    if v <= 9 {
      FreshTrackNotFull(u, start, r, c);
      PlaceWritesOneCell(u, r, c, v);
    }
  }

  lemma {:induction false} FreshLoadRow(t: Snapshot, start: seq<seq<nat>>, r: nat, c: nat)
    requires Shaped(t) && BoardShape(start) && r < NumRowsCols && c <= NumRowsCols && (r < 8 || c <= 8)
    requires FreshLoadAt(t, start, r, 0)
    ensures FreshLoadAt(LoadRow(t, start, r, c), start, r, c)
  {
    if c > 0 {
      var k: nat := c - 1;
      FreshLoadRow(t, start, r, k);
      FreshLoadCell(LoadRow(t, start, r, k), start, r, k);
    }
  }

  /** The end of row k is the start of row r = k + 1. */
  lemma FreshLoadNextRow(t: Snapshot, start: seq<seq<nat>>, k: nat, r: nat)
    requires Shaped(t) && BoardShape(start) && r == k + 1 && r <= 8
    requires FreshLoadAt(t, start, k, NumRowsCols)
    ensures FreshLoadAt(t, start, r, 0)
  {
    assert forall i, j :: 0 <= j < NumRowsCols ==> (Before(i, j, k, NumRowsCols) <==> Before(i, j, r, 0));
  }

  lemma {:induction false} FreshLoadRows(start: seq<seq<nat>>, r: nat)
    requires BoardShape(start) && r <= 8
    ensures FreshLoadAt(LoadRows(Fresh().(state := Loading), start, r), start, r, 0)
  {
    if r == 0 {
      FreshIsEmptyAndLocked();
    } else {
      var k: nat := r - 1;
      FreshLoadRows(start, k);
      var t := LoadRows(Fresh().(state := Loading), start, k);
      var w := LoadRow(t, start, k, NumRowsCols);
      assert LoadRows(Fresh().(state := Loading), start, r) == w;
      FreshLoadRow(t, start, k, NumRowsCols);
      FreshLoadNextRow(w, start, k, r);
    }
  }

  /** Loading the empty cell (r, c) keeps every tracker entry equal to the clues of its unit placed so far. */
  lemma FreshTrackerCell(t: Snapshot, start: seq<seq<nat>>, r: nat, c: nat)
    requires Shaped(t) && BoardShape(start) && r < NumRowsCols && c < NumRowsCols
    requires t.board[r][c] == 0 && TrackerHoldsClues(t, start, r, c)
    ensures TrackerHoldsClues(LoadCell(t, start, r, c), start, r, c + 1)
  {
    forall k | 0 <= k < NumSetsToCheck
      ensures LoadCell(t, start, r, c).checker[k] == ClueBits(start, k, r, c + 1)
    {
      FreshTrackerStep(t, start, r, c, k);
    }
  }

  lemma {:induction false} FreshTrackerRow(t: Snapshot, start: seq<seq<nat>>, r: nat, c: nat)
    requires Shaped(t) && BoardShape(start) && r < NumRowsCols && c <= NumRowsCols
    requires FreshLoadAt(t, start, r, 0) && TrackerHoldsClues(t, start, r, 0)
    ensures TrackerHoldsClues(LoadRow(t, start, r, c), start, r, c)
  {
    if c > 0 {
      var k: nat := c - 1;
      var w := LoadRow(t, start, r, k);
      FreshTrackerRow(t, start, r, k);
      FreshLoadRow(t, start, r, k);
      assert w.board[r][k] == 0;
      FreshTrackerCell(w, start, r, k);
    }
  }

  lemma {:induction false} FreshTrackerRows(start: seq<seq<nat>>, r: nat)
    requires BoardShape(start) && r <= NumRowsCols
    ensures TrackerHoldsClues(LoadRows(Fresh().(state := Loading), start, r), start, r, 0)
  {
    if r == 0 {
      FreshIsEmptyAndLocked();
    } else {
      var k: nat := r - 1;
      FreshTrackerRows(start, k);
      FreshLoadRows(start, k);
      var t := LoadRows(Fresh().(state := Loading), start, k);
      var w := LoadRow(t, start, k, NumRowsCols);
      assert LoadRows(Fresh().(state := Loading), start, r) == w;
      FreshTrackerRow(t, start, k, NumRowsCols);
      forall u | 0 <= u < NumSetsToCheck
        ensures w.checker[u] == ClueBits(start, u, r, 0)
      {
        ClueBitsNextRow(start, u, k);
      }
    }
  }

  /** The bits of tracker entry k after a whole board is loaded: one for every clue of unit k. */
  ghost function ClueDigits(start: seq<seq<nat>>, k: nat): (bits: set<nat>)
    requires BoardShape(start)
    ensures forall i, j :: 0 <= i < NumRowsCols && 0 <= j < NumRowsCols && IsUnitOf(k, i, j) && IsClue(start[i][j]) ==>
      start[i][j] - 1 in bits
    ensures forall b :: b in bits ==>
      exists i, j :: 0 <= i < NumRowsCols && 0 <= j < NumRowsCols && IsUnitOf(k, i, j) && IsClue(start[i][j]) && b == start[i][j] - 1
  {
    ClueBits(start, k, NumRowsCols, 0)
  }

  /** The last step of a fresh load: cell (8, 8) is locked only when the tracker is not full. */
  lemma FreshLoadLastCell(t: Snapshot, start: seq<seq<nat>>)
    requires Shaped(t) && BoardShape(start)
    requires FreshLoadAt(t, start, 8, 8)
    ensures var w := LoadCell(t, start, 8, 8);
      && (forall i, j :: 0 <= i < NumRowsCols && 0 <= j < NumRowsCols ==> w.board[i][j] == Loaded(start[i][j]))
      && (forall i, j :: 0 <= i < NumRowsCols && 0 <= j < NumRowsCols && (i < 8 || j < 8) ==>
            (j in w.editable[i] <==> !IsClue(start[i][j])))
      && (8 in w.editable[8] <==> !IsClue(start[8][8]) || AllFull(w.checker))
  {
    var u := Unlock(t, 8, 8);
    var v := start[8][8];
    assert forall i, j :: 0 <= i < NumRowsCols && 0 <= j < NumRowsCols && (i != 8 || j != 8) ==>
      (j in u.editable[i] <==> j in t.editable[i]);
    if v <= 9 {
      PlaceWritesOneCell(u, 8, 8, v);
      PlaceState(u, 8, 8, v);
    }
  }

  /**
   * Loading a board into a freshly constructed object: every cell holds its
   * starting value (a value above 9 is refused and leaves 0), every clue
   * cell except (8, 8) is locked and every other cell editable, (8, 8) is
   * locked when it is a clue unless the loaded tracker is full, every
   * tracker entry holds exactly the clues of its unit, and the state is
   * Unsolved.
   */
  lemma LoadFromFresh(start: seq<seq<nat>>)
    requires BoardShape(start)
    ensures var t := LoadSpec(Fresh(), start);
      && t.state == Unsolved
      && (forall i, j :: 0 <= i < NumRowsCols && 0 <= j < NumRowsCols ==> t.board[i][j] == Loaded(start[i][j]))
      && (forall i, j :: 0 <= i < NumRowsCols && 0 <= j < NumRowsCols && (i < 8 || j < 8) ==>
            (j in t.editable[i] <==> !IsClue(start[i][j])))
      && (8 in t.editable[8] <==> !IsClue(start[8][8]) || AllFull(t.checker))
      && (forall k :: 0 <= k < NumSetsToCheck ==> t.checker[k] == ClueDigits(start, k))
  {
    var s0 := Fresh().(state := Loading);
    var t8 := LoadRows(s0, start, 8);
    FreshLoadRows(start, 8);
    FreshLoadRow(t8, start, 8, 8);
    FreshLoadLastCell(LoadRow(t8, start, 8, 8), start);
    FreshTrackerRows(start, NumRowsCols);
  }

  // ------------------------------------------------------------------
  // From a loaded puzzle to a solved game

  /** Unit k of a grid holds digit d in some cell. */
  ghost predicate UnitHolds(sol: seq<seq<nat>>, k: nat, d: nat)
    requires BoardShape(sol)
  {
    exists i, j :: 0 <= i < NumRowsCols && 0 <= j < NumRowsCols && IsUnitOf(k, i, j) && sol[i][j] == d
  }

  /** A solved grid: every row, column and block holds each digit 1..9. */
  ghost predicate Complete(sol: seq<seq<nat>>)
    requires BoardShape(sol)
  {
    forall k, d :: 0 <= k < NumSetsToCheck && 1 <= d <= 9 ==> UnitHolds(sol, k, d)
  }

  /**
   * In a solved grid with cell (r0, c0) blanked, every digit of unit k is
   * still a clue of the unit, except the blanked digit in the units of
   * (r0, c0).
   */
  lemma BlankedGridClues(sol: seq<seq<nat>>, r0: nat, c0: nat, k: nat, b: nat)
    requires BoardShape(sol) && Complete(sol) && r0 < NumRowsCols && c0 < NumRowsCols
    requires k < NumSetsToCheck && b < NumRowsCols
    ensures b in ClueDigits(sol[r0 := sol[r0][c0 := 0]], k) || (IsUnitOf(k, r0, c0) && b + 1 == sol[r0][c0])
  {
    var start := sol[r0 := sol[r0][c0 := 0]];
    assert UnitHolds(sol, k, b + 1);
    var i, j :| 0 <= i < NumRowsCols && 0 <= j < NumRowsCols && IsUnitOf(k, i, j) && sol[i][j] == b + 1;
    if i != r0 || j != c0 {
      assert start[i][j] == sol[i][j];
    }
  }

  /**
   * The clues of unit k of a blanked solved grid, together with the blanked
   * digit when k is a unit of the blank, are all nine digits.
   */
  lemma BlankedUnitFull(sol: seq<seq<nat>>, r0: nat, c0: nat, k: nat)
    requires BoardShape(sol) && Complete(sol) && r0 < NumRowsCols && c0 < NumRowsCols
    requires 1 <= sol[r0][c0] <= 9 && k < NumSetsToCheck
    ensures var bits := ClueDigits(sol[r0 := sol[r0][c0 := 0]], k);
      All(if IsUnitOf(k, r0, c0) then bits + {sol[r0][c0] - 1} else bits)
  {
    var bits := ClueDigits(sol[r0 := sol[r0][c0 := 0]], k);
    forall b | 0 <= b < NumRowsCols
      ensures b in bits || (IsUnitOf(k, r0, c0) && b + 1 == sol[r0][c0])
    {
      BlankedGridClues(sol, r0, c0, k, b);
    }
  }

  /**
   * Filling the blank of a loaded, blanked solved grid: the placement is
   * accepted and fills every tracker entry.
   */
  lemma FillingTheBlankFillsTracker(t: Snapshot, sol: seq<seq<nat>>, r0: nat, c0: nat)
    requires BoardShape(sol) && Complete(sol) && r0 < NumRowsCols && c0 < NumRowsCols
    requires 1 <= sol[r0][c0] <= 9
    requires Shaped(t) && c0 in t.editable[r0]
    requires forall k :: 0 <= k < NumSetsToCheck ==> t.checker[k] == ClueDigits(sol[r0 := sol[r0][c0 := 0]], k)
    ensures var (u, ok) := Place(t, r0, c0, sol[r0][c0]);
      ok && u.state == Solved
  {
    var d := sol[r0][c0];
    var u := Place(t, r0, c0, d).0;
    forall k | 0 <= k < NumSetsToCheck
      ensures All(u.checker[k])
    {
      PlaceSetsDigitBit(t, r0, c0, d, k);
      BlankedUnitFull(sol, r0, c0, k);
    }
    PlaceState(t, r0, c0, d);
  }

  /**
   * Load a solved grid with one cell blanked into a fresh object: the game
   * is Unsolved, and placing the missing digit in the blank cell is
   * accepted and makes the game Solved.
   */
  lemma FillingTheLastCellSolves(sol: seq<seq<nat>>, r0: nat, c0: nat)
    requires BoardShape(sol) && Complete(sol) && r0 < NumRowsCols && c0 < NumRowsCols
    requires 1 <= sol[r0][c0] <= 9
    ensures var t := LoadSpec(Fresh(), sol[r0 := sol[r0][c0 := 0]]);
      var (u, ok) := Place(t, r0, c0, sol[r0][c0]);
      t.state == Unsolved && ok && u.state == Solved
  {
    var start := sol[r0 := sol[r0][c0 := 0]];
    assert BoardShape(start);
    LoadFromFresh(start);
    var t := LoadSpec(Fresh(), start);
    assert !IsClue(start[r0][c0]);
    assert c0 in t.editable[r0] by {
      if r0 == 8 && c0 == 8 {
        assert 8 in t.editable[8] <==> !IsClue(start[8][8]) || AllFull(t.checker);
      }
    }
    assert forall k :: 0 <= k < NumSetsToCheck ==> t.checker[k] == ClueDigits(start, k);
    FillingTheBlankFillsTracker(t, sol, r0, c0);
  }
}
