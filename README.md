# ConsoleSudoku board engine in Dafny

This project models the board engine of ConsoleSudoku, a console Sudoku game,
together with the small input layer in front of it.

The engine is the `Sudoku` class. Its state has four parts:

- a 9 x 9 grid of values, where 0 means empty;
- a 9 x 9 editability mask;
- 27 nine-bit "digit present" sets, one per unit: rows are entries 0-8, columns 9-17 and 3 x 3 blocks 18-26;
- a game state that is Loading, Unsolved or Solved.

`SetCell` validates a placement and checks that the cell is editable. It then updates the tracker, writes the cell, and locks the cell if a clue is placed while loading. `Load` replays a starting board through `SetCell` in Loading mode. `TrackProgress` moves the state to Solved once all 27 sets are full.

The input layer comes from `main.cpp`. It checks that a token is a decimal number and reads one token into an out-parameter. It reads the three numbers of a guess and turns the user's 1-based coordinates into the 0-based, unsigned ones that `SetCell` receives.

## Layout

- `sudoku_types.dfy` (module `SudokuTypes`) holds the declarations of `Sudoku.h`:
  - the `GameState` datatype and the three size constants;
  - `Bits`, a nine-bit set written as the set of positions of its 1 bits;
  - `CheckNumInBounds`.
- `sudoku_engine.dfy` (module `SudokuEngine`) holds three things:
  - the pure parts of `Sudoku.cpp`: validation, the tracker index scheme, and the separator rule of the grid drawing;
  - a `Snapshot` datatype of the four state fields, with the functions that specify each state change (`Track`, `Place` and `LoadSpec`);
  - the class `Sudoku`. Its fields are the four pieces of state, and its methods update them in place. `Load`, `LoadRowCells`, `TrackProgress` and `SetCell` are proved equal to `LoadSpec`, `LoadRow`, `Track` and `Place`. `Clear` and `SetCanEditCell` state their new fields directly.
- `sudoku_properties.dfy` (module `SudokuProperties`) holds the properties of one placement.
- `load_properties.dfy` (module `LoadProperties`) holds the properties of `Load`.
- `user_guess.dfy` (module `UserGuess`) holds the model of `main.cpp`.

## Where the code differs from the natural reading

The model follows the code at these points:

- **Fresh objects are locked.** The editability mask of a new object is all zeros, so every `SetCell` before `Load` is refused (`FreshRejectsEveryPlacement`).
- **The coordinate bound is inclusive.** Validation checks row, column and digit against the same inclusive range 0..9. A row or column of 9 therefore passes validation, and the mask access that follows is then out of range. This is undefined behaviour in the source. `SetCell` requires `DefinedEntry`: every entry that validation refuses is still allowed and modelled as a refusal, and only the accepted entries with a coordinate of 9 are excluded (`CoordinateNineIsAccepted`, `GuessValidation`).
- **Overwriting keeps the old bit.** A digit written over another digit does not clear the old digit's bit (`PlaceOverwriteKeepsOldBit`).
- **Clearing can forget a duplicate.** Clearing a cell resets its digit's bit even when another cell of the unit still holds that digit (`ClearForgetsDuplicate`).
- **No digit-presence invariant.** Because of the two points above, "tracker entry k contains d iff some cell of unit k holds d" is not an invariant of the engine, and "Solved implies a valid grid" does not hold. Neither is claimed.
- **Load ends Unsolved.** `Load` sets the state to Unsolved at the end, even when the loaded board is complete.
- **Clues placed once the tracker is full are not locked.** `TrackProgress` runs before the lock test in `SetCell`. If the tracker becomes full while loading, the state is already Solved when `SetCell` tests for Loading, so that clue is not locked. Solved is never left during the load, so no clue placed after it is locked either. In a load into a fresh object this can only happen at the last cell, (8, 8) (`LoadFromFresh`). Re-loading an object whose tracker is already full, such as a finished game, can reach Solved at an earlier cell, and then every later clue stays editable.

A natural reading expects coordinates in 0..8 and a tracker that always holds exactly the digits present. The code does neither, and the model follows the code. The tracker does hold exactly the clues right after a load into a fresh object (`LoadFromFresh`). Later placements can break that.

## Model

| member | source | states |
|---|---|---|
| SudokuTypes.All | Sudoku.cpp:68 | bitset::all(): every one of the nine bits is set; AllIsFull characterises it |
| SudokuTypes.AllIsFull | Sudoku.h:37-38 | a nine-bit set has all bits set exactly when it is {0, ..., 8}, and then it has nine members |
| SudokuTypes.SizeConstants | Sudoku.h:32-34 | the grid side 9 is the block side 3 squared, and the 27 checked sets are three per index: row, column and block |
| SudokuTypes.CheckNumInBounds | Sudoku.h:48-52 | the inclusive range test; a value is accepted only when the range is non-empty |
| SudokuTypes.CheckNumInBoundsIsClosedInterval | Sudoku.h:48-52 | CheckNumInBounds accepts exactly min <= num <= max: both endpoints are inside, and max + 1 and min - 1 are outside |
| SudokuEngine.CheckCellValue | Sudoku.cpp:195-198 | a value passes exactly when it is at most 9, the inclusive grid constant |
| SudokuEngine.ValidateCellEntry | Sudoku.cpp:200-219 | an entry is valid iff row, column and digit each lie in 0..9 inclusive; 9 is accepted for coordinates too |
| SudokuEngine.GetCheckerRowIndex | Sudoku.cpp:221-225 | the row entry of an in-grid row lies in 0..8 |
| SudokuEngine.GetCheckerColumnIndex | Sudoku.cpp:227-231 | the column entry of an in-grid column lies in 9..17 |
| SudokuEngine.GetCheckerCellIndex | Sudoku.cpp:233-243 | the block entry of an in-grid cell lies in 18..26 |
| SudokuEngine.WritesSeparator | Sudoku.cpp:117-135 | for indices 0..8, a separator is drawn after index n exactly when n is 2 or 5 |
| SudokuEngine.Fresh | Sudoku.cpp:11-17 | the initial state has the full shape: 9 rows of 9 cells, 9 mask rows and 27 tracker entries |
| SudokuEngine.SetBit | Sudoku.cpp:45-47 | bitset::set on one tracker entry: that entry gains the bit, the length and every other entry are kept |
| SudokuEngine.ResetBit | Sudoku.cpp:54-56 | bitset::reset on one tracker entry: that entry loses the bit, the length and every other entry are kept |
| SudokuEngine.Track | Sudoku.cpp:40-80 | tracking leaves the grid and the mask alone; the state becomes Solved when every entry is full and otherwise stays as it was |
| SudokuEngine.Place | Sudoku.cpp:82-110 | a placement succeeds iff validation passes and the cell is editable; a refused placement changes nothing |
| SudokuEngine.Unlock | Sudoku.cpp:26 | setting the mask bit of the cell about to be loaded keeps the full shape |
| SudokuEngine.LoadCell | Sudoku.cpp:26-27 | one step of Load: unlock the cell, then place the starting value as SetCell does; the shape is kept |
| SudokuEngine.LoadRow | Sudoku.cpp:24-28 | the first c steps of the column loop over row r, in order; the shape is kept |
| SudokuEngine.LoadRows | Sudoku.cpp:22-29 | the first r rows of the row loop, each a full column loop; the shape is kept |
| SudokuEngine.LoadSpec | Sudoku.cpp:19-31 | the state after Load is Unsolved, whatever the tracker holds |
| SudokuEngine.Sudoku.constructor | Sudoku.cpp:11-17 | a new object holds the initial state Fresh |
| SudokuEngine.Sudoku.Load | Sudoku.cpp:19-31 | the new state is LoadSpec of the old one: enter Loading, unlock and place every cell in row-major order, then end Unsolved |
| SudokuEngine.Sudoku.LoadRowCells | Sudoku.cpp:24-28 | the inner loop of Load: the state after unlocking and placing the nine cells of row r in order |
| SudokuEngine.Sudoku.Clear | Sudoku.cpp:33-38 | the three vectors become empty, the game state is kept, and the object no longer has a usable shape |
| SudokuEngine.Sudoku.TrackProgress | Sudoku.cpp:40-80 | the new state is Track of the old one; the early-exit loop finds "all full" exactly when every entry has all nine bits |
| SudokuEngine.Sudoku.SetCell | Sudoku.cpp:82-110 | the result and the new state are those of Place on the old state |
| SudokuEngine.Sudoku.Solved | Sudoku.cpp:112-115 | true exactly in state Solved |
| SudokuEngine.Sudoku.CanEditCell | Sudoku.cpp:181-186 | true exactly when the cell's mask bit is set |
| SudokuEngine.Sudoku.SetCanEditCell | Sudoku.cpp:188-193 | sets or clears the one mask bit of the cell; every other bit is kept |
| SudokuProperties.FreshIsEmptyAndLocked | Sudoku.cpp:11-17 | after construction every cell is 0 and locked, every tracker entry is empty, and the state is Unsolved |
| SudokuProperties.FreshRejectsEveryPlacement | Sudoku.cpp:91-95 | before Load, every in-range placement is refused and changes nothing |
| SudokuProperties.CoordinateNineIsAccepted | Sudoku.cpp:195-219 | a coordinate of 9 passes validation and 10 does not; an accepted 9 falls outside the grid |
| SudokuProperties.UnitIndicesDistinct | Sudoku.cpp:221-243 | the row, column and block entries of an in-grid cell are row, 9 + col and 18 + (row / 3) * 3 + col / 3, three distinct indices |
| SudokuProperties.SameBlockIndex | Sudoku.cpp:233-243 | two in-grid cells share a block entry iff they lie in the same 3 x 3 block |
| SudokuProperties.PlaceWritesOneCell | Sudoku.cpp:98-109 | an accepted placement writes num into its own cell and no other; only that cell's mask bit may change, and it is cleared exactly when the state is still Loading after tracking and num is not 0 |
| SudokuProperties.PlaceKeepsMaskOutsideLoading | Sudoku.cpp:103-107 | outside Loading a placement never changes the mask |
| SudokuProperties.PlaceKeepsOtherUnits | Sudoku.cpp:40-58 | the 24 tracker entries that are not units of the cell are unchanged |
| SudokuProperties.PlaceSetsDigitBit | Sudoku.cpp:43-48 | an accepted digit d in 1..9 adds bit d - 1 to exactly the three units of the cell |
| SudokuProperties.PlaceClearResetsOldBit | Sudoku.cpp:49-57 | an accepted clear removes the bit of the digit held before the write from the three units; clearing an empty cell leaves the tracker unchanged |
| SudokuProperties.PlaceOverwriteKeepsOldBit | Sudoku.cpp:43-48 | overwriting a digit keeps the old digit's bit in every entry that had it |
| SudokuProperties.ClearForgetsDuplicate | Sudoku.cpp:49-57 | clearing a cell resets the row bit of its digit even though another cell of the row still holds that digit |
| SudokuProperties.PlaceState | Sudoku.cpp:64-79 | after a placement the state is Solved when it was accepted and every entry is full, and otherwise is unchanged; Solved is never left |
| SudokuProperties.PlaceIdempotent | Sudoku.cpp:82-110 | repeating a placement on its own result changes nothing: grid, mask, tracker and state stay as the first call left them |
| SudokuProperties.PlaceKeepsDigitsInRange | Sudoku.cpp:85-101 | grid values stay within 0..9 under every placement |
| LoadProperties.PlaceIntoEmptyCell | Sudoku.cpp:82-110 | placing v into an editable, empty cell leaves v there when validation accepts it (v <= 9) and 0 otherwise |
| LoadProperties.LoadKeepsNonCluesEditable | Sudoku.cpp:19-31 | from any state, every cell whose starting value is 0 or above 9 is editable after Load |
| LoadProperties.FreshTrackNotFull | Sudoku.cpp:64-79 | during a load into a fresh object the tracker cannot be full before the last cell, so the state stays Loading |
| LoadProperties.LoadFromFresh | Sudoku.cpp:19-31 | after a load into a fresh object: each cell holds its starting value, or 0 if that value was above 9; every clue except (8, 8) is locked and every non-clue is editable; (8, 8) holding a clue is locked unless the tracker is full; every tracker entry holds exactly the bits d - 1 of the clues d of its unit; the state is Unsolved |
| LoadProperties.FillingTheBlankFillsTracker | Sudoku.cpp:40-110 | on a state whose tracker holds the clues of a solved grid with one blank, filling the blank with its digit is accepted and fills all 27 entries, so the state becomes Solved |
| LoadProperties.FillingTheLastCellSolves | Sudoku.cpp:19-115 | load a solved grid with one cell blanked into a fresh object: the game is Unsolved, and placing the missing digit there is accepted and makes it Solved |
| UserGuess.FindNonDigit | main.cpp:9 | the position found is the first non-digit, or the length when there is none |
| UserGuess.IsDigit | main.cpp:9 | std::isdigit in the "C" locale: exactly the ten characters '0'..'9' |
| UserGuess.StrIsNumber | main.cpp:7-10 | a token is a number iff it is non-empty and every character is '0'..'9'; so "" is not a number |
| UserGuess.DecimalValue | main.cpp:19 | the std::stoi value of an all-digit token, read in base 10; a token of e digits reads below 10^e |
| UserGuess.ShortTokensFit | main.cpp:19 | a number token of at most nine digits never exceeds the largest int, so std::stoi cannot overflow on it |
| UserGuess.DecimalRoundTrip | main.cpp:19 | the decimal text of any n is a number token, and reading it back gives n |
| UserGuess.LeadingZero | main.cpp:19 | a leading zero does not change the value read |
| UserGuess.TokenStream.constructor | main.cpp:32 | the stream of a line starts at its first token |
| UserGuess.TokenStream.Extract | main.cpp:14-15 | extraction yields the next token and advances, or yields "" once the line is used up |
| UserGuess.ReadInt | main.cpp:12-23 | succeeds iff the next token is a number; on success the out-parameter is that number, on failure it is unchanged; the token is consumed either way |
| UserGuess.GetUserGuess | main.cpp:25-52 | all three reads are attempted; success iff all three tokens are numbers; each out-parameter is updated by its own successful read even when the guess as a whole fails |
| UserGuess.ToBoardIndex | main.cpp:73 | user coordinate u > 0 becomes u - 1, and 0 wraps to 2^64 - 1 |
| UserGuess.GuessValidation | main.cpp:73 | a guess passes validation iff both user coordinates are 1..10 and the digit is 0..9; it reaches undefined behaviour exactly when it passes with a coordinate of 10 |

## Left out

- SudokuEngine.Sudoku.Valid: the class invariant fixes the shape but does not include the 0..9 range of grid values. Every state reached from the constructor keeps that range (`FreshIsEmptyAndLocked`, `PlaceKeepsDigitsInRange`). On a state outside it, the model's `Track` resets a bit that cannot be present, where `bitset::reset` in the source throws `out_of_range`.
- Drawing the grid (`Write`, `WriteNumber`, the output of `TryWriteSep`) uses console colours and standard output. Only the separator decision is modelled, as `WritesSeparator`.
- The diagnostics written to the error stream carry no state. Rejections are modelled only through the boolean result.
- The game loop `RunGameLoop`, screen clearing, and reading a line from standard input are interactive I/O and are not modelled. A line is given to `GetUserGuess` already split at whitespace. Splitting a line into tokens is not modelled.
- UserGuess.ReadInt: a token that is a number above 2^31 - 1 is excluded by the precondition. `std::stoi` throws `out_of_range` for such a token, and exceptions are not modelled.
- SudokuEngine.Sudoku.SetCell: an entry that passes validation with row or column 9 is excluded by the precondition, because the source then indexes outside the mask and the grid. This is undefined behaviour, and the model cannot give it a meaning.
- SudokuEngine.Sudoku.Clear: after `Clear` the object no longer satisfies `Valid()`, so no further operation can be called on it. A re-load after `Clear` is not modelled as working: in the source it throws from `.at()`, and a `SetCell` indexes empty vectors.
- The `assert`s of the source are removed in release builds and are not treated as checks.
- `Load` does not check the shape of its input. The model requires nine rows of nine values.
- The starter puzzle in `SudokuBoards.h` is static data and is not part of this model.
- Board values are unsigned, so the `num < 0` branch of `TrackProgress` cannot be reached. Values are modelled as `nat`, and that branch does not appear.
- SudokuEngine.Sudoku.Load: the inner column loop is written as its own method, `LoadRowCells`, so that each loop is verified on its own. The steps and their order are those of the source.
