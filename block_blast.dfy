/**
 * The Block Blast puzzle: a 10 x 10 grid filled one cell at a time with
 * randomly typed blocks. A turn places one block, sets the game-over flag
 * when no cell is left empty, then clears every full row, paying 5 credits
 * per gold cell and 1 gamecoin per gamecoin cell of a cleared row, scaled
 * by a combo multiplier.
 *
 * The first half of the module is the specification on values (`Grid`,
 * `State`, `ResolveRows`, `Turn`) with its lemmas; the class `Game` at the
 * end holds the grid in an `array2` and is proved to behave as `Turn`.
 */
module BlockBlast {
  import opened Wrappers
  import opened Shared

  /** What a cell holds; `Empty` marks a free cell. */
  datatype BlockType = Empty | Normal | Gold | GameCoin

  /** Side length of the square grid. */
  const GridSize: nat := 10

  /** The types a new block is drawn from, uniformly by index. */
  const BlockTypes: seq<BlockType> := [Normal, Normal, Normal, Gold, GameCoin]

  /** Credits paid for each gold cell of a cleared row. */
  const GoldCredits: nat := 5

  /** Points added to the score for each cleared row. */
  const PointsPerLine: nat := 100

  type Row = seq<BlockType>
  type Grid = seq<Row>

  /** The game state the component keeps between turns. */
  datatype State = State(grid: Grid, score: nat, combo: nat, gameOver: bool)

  /** A new state together with the reward emitted on the way, if any. */
  datatype Outcome = Outcome(state: State, reward: Option<Reward>)

  // ---------------------------------------------------------------------
  // Blocks and grids
  // ---------------------------------------------------------------------

  /**
   * `generateBlock`: the random index floor(random * |BlockTypes|) is the
   * parameter `pick`. A generated block is never empty.
   */
  function GenerateBlock(pick: nat): (t: BlockType)
    requires pick < |BlockTypes|
    ensures t != Empty
    ensures t == Normal <==> pick < 3
    ensures t == Gold <==> pick == 3
    ensures t == GameCoin <==> pick == 4
  {
    BlockTypes[pick]
  }

  predicate IsSquare(g: Grid, n: nat) {
    |g| == n && forall i :: 0 <= i < n ==> |g[i]| == n
  }

  function EmptyRow(n: nat): (r: Row)
    ensures |r| == n && forall j :: 0 <= j < n ==> r[j] == Empty
  {
    seq(n, _ => Empty)
  }

  /** The grid of a new game. */
  function EmptyGrid(n: nat): (g: Grid)
    ensures IsSquare(g, n)
    ensures forall i, j :: 0 <= i < n && 0 <= j < n ==> g[i][j] == Empty
  {
    seq(n, _ => EmptyRow(n))
  }

  /** A row is full when none of its cells is empty. */
  predicate RowFull(row: Row) {
    forall j :: 0 <= j < |row| ==> row[j] != Empty
  }

  predicate HasEmpty(g: Grid) {
    exists i, j :: 0 <= i < |g| && 0 <= j < |g[i]| && g[i][j] == Empty
  }

  /** Number of cells of type `t` in a row. */
  function Count(row: Row, t: BlockType): nat {
    if row == [] then 0
    else Count(row[..|row| - 1], t) + (if row[|row| - 1] == t then 1 else 0)
  }

  /** Number of empty cells in the grid. */
  function EmptyCells(g: Grid): nat {
    if g == [] then 0 else EmptyCells(g[..|g| - 1]) + Count(g[|g| - 1], Empty)
  }

  /** Number of full rows. */
  function FullRows(g: Grid): nat {
    if g == [] then 0
    else FullRows(g[..|g| - 1]) + (if RowFull(g[|g| - 1]) then 1 else 0)
  }

  /** Credits paid by the full rows before the combo multiplier. */
  function BaseCredits(g: Grid): nat {
    if g == [] then 0
    else
      var last := g[|g| - 1];
      BaseCredits(g[..|g| - 1]) + (if RowFull(last) then GoldCredits * Count(last, Gold) else 0)
  }

  /** Gamecoins paid by the full rows. */
  function BaseCoins(g: Grid): nat {
    if g == [] then 0
    else
      var last := g[|g| - 1];
      BaseCoins(g[..|g| - 1]) + (if RowFull(last) then Count(last, GameCoin) else 0)
  }

  function ClearRow(row: Row): (r: Row)
    ensures |r| == |row|
  {
    if RowFull(row) then EmptyRow(|row|) else row
  }

  /** The grid after every full row has been emptied. */
  function ClearFullRows(g: Grid): (r: Grid)
    ensures |r| == |g|
    ensures forall i :: 0 <= i < |g| && RowFull(g[i]) ==> r[i] == EmptyRow(|g[i]|)
    ensures forall i :: 0 <= i < |g| && !RowFull(g[i]) ==> r[i] == g[i]
  {
    seq(|g|, i requires 0 <= i < |g| => ClearRow(g[i]))
  }

  /** The grid with cell (row, col) set to `t`; no other cell changes. */
  function Place(g: Grid, row: nat, col: nat, t: BlockType): (p: Grid)
    requires row < |g| && col < |g[row]|
    ensures |p| == |g| && forall i :: 0 <= i < |g| ==> |p[i]| == |g[i]|
    ensures p[row][col] == t
    ensures forall i, j :: 0 <= i < |g| && 0 <= j < |g[i]| && (i != row || j != col) ==> p[i][j] == g[i][j]
  {
    g[row := g[row][col := t]]
  }

  // ---------------------------------------------------------------------
  // Combo multiplier
  // ---------------------------------------------------------------------

  function RealMin(a: real, b: real): real {
    if a <= b then a else b
  }

  /** The multiplier min(3, 1 + 0.5 * combo) as the component computes it. */
  function RealMultiplier(combo: nat): real {
    RealMin(3.0, 1.0 + (combo as real) * 0.5)
  }

  /**
   * Credits after the combo multiplier, in integers: the multiplier is
   * min(6, 2 + combo) halves. It never lowers the base and at most triples it.
   */
  function ComboCredits(base: nat, combo: nat): (r: nat)
    ensures base <= r <= 3 * base
    ensures combo == 0 ==> r == base
    ensures combo >= 4 ==> r == 3 * base
  {
    base * Min(6, 2 + combo) / 2
  }

  /** The integer multiplier agrees with the floored real product. */
  lemma ComboCreditsIsFlooredProduct(base: nat, combo: nat)
    ensures ComboCredits(base, combo) == ((base as real) * RealMultiplier(combo)).Floor
  {
  }

  // ---------------------------------------------------------------------
  // Row clearing and the turn
  // ---------------------------------------------------------------------

  /**
   * `checkLines`: empties the full rows, pays their rewards scaled by the
   * combo multiplier (gamecoins unscaled), adds 100 points per row and
   * advances the combo; a turn without a full row only resets the combo.
   * A reward is emitted only when something was earned.
   */
  function ResolveRows(s: State): (o: Outcome)
    ensures o.state.gameOver == s.gameOver
    ensures o.state.score >= s.score
    // rows cleared: the full rows are emptied, 100 points each, the combo advances
    ensures FullRows(s.grid) > 0 ==>
              o.state.grid == ClearFullRows(s.grid)
              && o.state.score == s.score + PointsPerLine * FullRows(s.grid)
              && o.state.combo == s.combo + 1
    // ... and the reward is paid exactly when something was earned
    ensures FullRows(s.grid) > 0 && (BaseCredits(s.grid) > 0 || BaseCoins(s.grid) > 0) ==>
              o.reward == Some(Reward(ComboCredits(BaseCredits(s.grid), s.combo), BaseCoins(s.grid)))
    ensures o.reward.Some? ==> 0 < o.reward.value.credits + o.reward.value.gamecoins
    ensures o.reward.Some? ==> BaseCredits(s.grid) <= o.reward.value.credits <= 3 * BaseCredits(s.grid)
    ensures o.reward.Some? ==> o.reward.value.gamecoins == BaseCoins(s.grid)
    // no full row: only the combo is reset, nothing is paid
    ensures FullRows(s.grid) == 0 ==> o == Outcome(s.(combo := 0), None)
  {
    var lines := FullRows(s.grid);
    var credits := ComboCredits(BaseCredits(s.grid), s.combo);
    var coins := BaseCoins(s.grid);
    if lines > 0 then
      Outcome(State(ClearFullRows(s.grid), s.score + PointsPerLine * lines, s.combo + 1, s.gameOver),
              if credits > 0 || coins > 0 then Some(Reward(credits, coins)) else None)
    else
      Outcome(s.(combo := 0), None)
  }

  /**
   * `placeBlock` followed by `checkLines`, in the order the component means
   * them: place the block, set the game-over flag from the new grid, then
   * clear rows of the new grid. (The component's `checkLines` reads the
   * grid captured before the placement; `AsWrittenTurn` models that.)
   */
  function Turn(s: State, row: nat, col: nat, t: BlockType): (o: Outcome)
    requires row < |s.grid| && col < |s.grid[row]|
    ensures s.gameOver || s.grid[row][col] != Empty ==> o == Outcome(s, None)
    ensures s.gameOver ==> o.state.gameOver
    ensures !s.gameOver && s.grid[row][col] == Empty ==>
              o.state.gameOver == !HasEmpty(Place(s.grid, row, col, t))
    ensures o.state.score >= s.score
  {
    if s.grid[row][col] != Empty || s.gameOver then Outcome(s, None)
    else
      var placed := Place(s.grid, row, col, t);
      ResolveRows(State(placed, s.score, s.combo, !HasEmpty(placed)))
  }

  /** `resetGame`. */
  function NewGame(): (s: State)
    ensures IsSquare(s.grid, GridSize)
    ensures forall i, j :: 0 <= i < GridSize && 0 <= j < GridSize ==> s.grid[i][j] == Empty
    ensures s.score == 0 && s.combo == 0 && !s.gameOver
  {
    State(EmptyGrid(GridSize), 0, 0, false)
  }

  // ---------------------------------------------------------------------
  // Lemmas
  // ---------------------------------------------------------------------

  lemma {:induction false} CountPositive(row: Row, t: BlockType)
    ensures Count(row, t) > 0 <==> exists j :: 0 <= j < |row| && row[j] == t
  {
    if row != [] {
      var k := |row| - 1;
      CountPositive(row[..k], t);
      if exists j :: 0 <= j < |row| && row[j] == t {
        var j :| 0 <= j < |row| && row[j] == t;
        if j < k { assert row[..k][j] == t; }
      }
      if exists j :: 0 <= j < k && row[..k][j] == t {
        var j :| 0 <= j < k && row[..k][j] == t;
        assert row[j] == t;
      }
    }
  }

  /** A grid has an empty cell exactly when its empty-cell count is positive. */
  lemma {:induction false} HasEmptyIffEmptyCells(g: Grid)
    ensures HasEmpty(g) <==> EmptyCells(g) > 0
  {
    if g != [] {
      var k := |g| - 1;
      HasEmptyIffEmptyCells(g[..k]);
      CountPositive(g[k], Empty);
      if HasEmpty(g) {
        var i, j :| 0 <= i < |g| && 0 <= j < |g[i]| && g[i][j] == Empty;
        if i < k { assert g[..k][i][j] == Empty; }
      }
      if HasEmpty(g[..k]) {
        var i, j :| 0 <= i < k && 0 <= j < |g[..k][i]| && g[..k][i][j] == Empty;
        assert g[i][j] == Empty;
      }
    }
  }

  lemma {:induction false} CountUpdate(row: Row, c: nat, t: BlockType, e: BlockType)
    requires c < |row|
    ensures Count(row[c := t], e)
            == Count(row, e) - (if row[c] == e then 1 else 0) + (if t == e then 1 else 0)
  {
    var k := |row| - 1;
    if c == k {
      assert row[c := t][..k] == row[..k];
    } else {
      assert row[c := t][..k] == row[..k][c := t];
      CountUpdate(row[..k], c, t, e);
    }
  }

  lemma {:induction false} EmptyCellsUpdate(g: Grid, r: nat, x: Row)
    requires r < |g|
    ensures EmptyCells(g[r := x]) == EmptyCells(g) - Count(g[r], Empty) + Count(x, Empty)
  {
    var k := |g| - 1;
    if r == k {
      assert g[r := x][..k] == g[..k];
    } else {
      assert g[r := x][..k] == g[..k][r := x];
      EmptyCellsUpdate(g[..k], r, x);
    }
  }

  /** A placement into an empty cell uses up exactly one empty cell. */
  lemma PlaceUsesOneEmptyCell(g: Grid, row: nat, col: nat, t: BlockType)
    requires row < |g| && col < |g[row]|
    requires g[row][col] == Empty && t != Empty
    ensures EmptyCells(Place(g, row, col, t)) == EmptyCells(g) - 1
  {
    CountUpdate(g[row], col, t, Empty);
    EmptyCellsUpdate(g, row, g[row][col := t]);
  }

  lemma {:induction false} FullRowsPositive(g: Grid)
    ensures FullRows(g) > 0 <==> exists i :: 0 <= i < |g| && RowFull(g[i])
  {
    if g != [] {
      var k := |g| - 1;
      FullRowsPositive(g[..k]);
      if exists i :: 0 <= i < |g| && RowFull(g[i]) {
        var i :| 0 <= i < |g| && RowFull(g[i]);
        if i < k { assert g[..k][i] == g[i]; }
      }
      if exists i :: 0 <= i < k && RowFull(g[..k][i]) {
        var i :| 0 <= i < k && RowFull(g[..k][i]);
        assert g[..k][i] == g[i];
      }
    }
  }

  /**
   * Row clearing changes the grid exactly when some row is full; a turn
   * without a full row leaves grid and score alone and resets the combo.
   */
  lemma ResolveRowsChangesGridIffFull(s: State)
    requires forall i :: 0 <= i < |s.grid| ==> |s.grid[i]| > 0
    ensures ResolveRows(s).state.grid != s.grid <==> exists i :: 0 <= i < |s.grid| && RowFull(s.grid[i])
    ensures FullRows(s.grid) == 0 ==> ResolveRows(s) == Outcome(s.(combo := 0), None)
  {
    FullRowsPositive(s.grid);
    if exists i :: 0 <= i < |s.grid| && RowFull(s.grid[i]) {
      var i :| 0 <= i < |s.grid| && RowFull(s.grid[i]);
      assert ResolveRows(s).state.grid[i][0] == Empty != s.grid[i][0];
    }
  }

  /** One more row of a prefix adds that row's line and rewards. */
  lemma PrefixStep(g: Grid, i: nat)
    requires i < |g|
    ensures FullRows(g[..i + 1]) == FullRows(g[..i]) + (if RowFull(g[i]) then 1 else 0)
    ensures BaseCredits(g[..i + 1]) == BaseCredits(g[..i]) + (if RowFull(g[i]) then GoldCredits * Count(g[i], Gold) else 0)
    ensures BaseCoins(g[..i + 1]) == BaseCoins(g[..i]) + (if RowFull(g[i]) then Count(g[i], GameCoin) else 0)
  {
    assert g[..i + 1][..i] == g[..i];
  }

  /** Rewards and line counts add up row by row. */
  lemma {:induction false} BaseRewardsAdditive(g1: Grid, g2: Grid)
    ensures FullRows(g1 + g2) == FullRows(g1) + FullRows(g2)
    ensures BaseCredits(g1 + g2) == BaseCredits(g1) + BaseCredits(g2)
    ensures BaseCoins(g1 + g2) == BaseCoins(g1) + BaseCoins(g2)
  {
    if g2 == [] {
      assert g1 + g2 == g1;
    } else {
      var k := |g2| - 1;
      BaseRewardsAdditive(g1, g2[..k]);
      assert (g1 + g2)[..|g1 + g2| - 1] == g1 + g2[..k];
    }
  }

  /** After a cleared or clear-free turn, no row of the grid is full. */
  lemma ResolveRowsLeavesNoFullRow(s: State)
    requires forall i :: 0 <= i < |s.grid| ==> |s.grid[i]| > 0
    ensures forall i :: 0 <= i < |ResolveRows(s).state.grid| ==> !RowFull(ResolveRows(s).state.grid[i])
  {
    FullRowsPositive(s.grid);
    var r := ResolveRows(s).state.grid;
    forall i | 0 <= i < |r| ensures !RowFull(r[i]) {
      if RowFull(s.grid[i]) {
        assert r[i][0] == Empty;
      }
    }
  }

  /** A state a game can be in between turns: square, no full row, not over. */
  predicate Playable(s: State) {
    IsSquare(s.grid, GridSize)
    && (forall i :: 0 <= i < GridSize ==> !RowFull(s.grid[i]))
    && !s.gameOver
  }

  /**
   * In the turn as intended, rows are cleared in the same turn that fills
   * them, so the grid can never be full: every state reached from a new
   * game stays playable and the game-over flag is never set.
   */
  lemma TurnKeepsPlayable(s: State, row: nat, col: nat, t: BlockType)
    requires Playable(s)
    requires row < GridSize && col < GridSize
    ensures Playable(Turn(s, row, col, t).state)
  {
    if s.grid[row][col] == Empty {
      var placed := Place(s.grid, row, col, t);
      var other := if row == 0 then 1 else 0;
      assert !RowFull(s.grid[other]);
      var j :| 0 <= j < GridSize && s.grid[other][j] == Empty;
      assert placed[other][j] == Empty;
      ResolveRowsLeavesNoFullRow(State(placed, s.score, s.combo, !HasEmpty(placed)));
    }
  }

  lemma NewGameIsPlayable()
    ensures Playable(NewGame())
  {
    var g := NewGame().grid;
    forall i | 0 <= i < GridSize ensures !RowFull(g[i]) {
      assert g[i][0] == Empty;
    }
  }

  // ---------------------------------------------------------------------
  // The turn as the component writes it
  // ---------------------------------------------------------------------

  /**
   * `placeBlock` as written: the game-over flag comes from the new grid,
   * but `checkLines` scans the grid captured before the placement and, when
   * it clears something, stores the grid it built from that old copy.
   */
  function AsWrittenTurn(s: State, row: nat, col: nat, t: BlockType): (o: Outcome)
    requires row < |s.grid| && col < |s.grid[row]|
    ensures s.gameOver || s.grid[row][col] != Empty ==> o == Outcome(s, None)
  {
    if s.grid[row][col] != Empty || s.gameOver then Outcome(s, None)
    else
      var placed := Place(s.grid, row, col, t);
      var r := ResolveRows(State(s.grid, s.score, s.combo, !HasEmpty(placed)));
      if FullRows(s.grid) > 0 then r else Outcome(r.state.(grid := placed), r.reward)
  }

  /**
   * As written, the block that completes a row does not clear it: the row
   * stays full and the combo drops to zero, where the intended turn clears
   * the row and scores it.
   */
  lemma AsWrittenLeavesCompletedRow(s: State, row: nat, col: nat, t: BlockType)
    requires Playable(s)
    requires row < GridSize && col < GridSize && t != Empty
    requires s.grid[row][col] == Empty
    requires RowFull(Place(s.grid, row, col, t)[row])
    ensures RowFull(AsWrittenTurn(s, row, col, t).state.grid[row])
    ensures AsWrittenTurn(s, row, col, t).state.combo == 0
    ensures AsWrittenTurn(s, row, col, t).state.score == s.score
    ensures Turn(s, row, col, t).state.grid[row] == EmptyRow(GridSize)
    ensures Turn(s, row, col, t).state.score == s.score + PointsPerLine * FullRows(Place(s.grid, row, col, t))
  {
    FullRowsPositive(s.grid);
    FullRowsPositive(Place(s.grid, row, col, t));
  }

  /**
   * As written, the next placement after that wipes the block it placed:
   * the stale grid with the full row is cleared and stored, dropping the
   * new block, which the intended turn keeps.
   */
  lemma AsWrittenDropsPlacedBlock(s: State, row: nat, col: nat, t: BlockType)
    requires IsSquare(s.grid, GridSize) && !s.gameOver
    requires row < GridSize && col < GridSize && t != Empty
    requires s.grid[row][col] == Empty
    requires exists i :: 0 <= i < GridSize && RowFull(s.grid[i])
    requires !RowFull(Place(s.grid, row, col, t)[row])
    ensures AsWrittenTurn(s, row, col, t).state.grid[row][col] == Empty
    ensures Turn(s, row, col, t).state.grid[row][col] == t
  {
    FullRowsPositive(s.grid);
    assert !RowFull(s.grid[row]);
  }

  // ---------------------------------------------------------------------
  // The component, over a mutable grid
  // ---------------------------------------------------------------------

  /** The component's state: the grid as a 10 x 10 array and three counters. */
  class Game {
    var grid: array2<BlockType>
    var score: nat
    var combo: nat
    var gameOver: bool

    ghost predicate Valid()
      reads this
    {
      grid.Length0 == GridSize && grid.Length1 == GridSize
    }

    /** Row `i` of the grid as a value. */
    ghost function RowAt(i: nat): (r: Row)
      reads this`grid, grid
      requires i < grid.Length0
      ensures |r| == grid.Length1 && forall j :: 0 <= j < grid.Length1 ==> r[j] == grid[i, j]
    {
      var a := grid;
      seq(a.Length1, j requires 0 <= j < a.Length1 reads a => a[i, j])
    }

    /** The grid as a value. */
    ghost function Cells(): (g: Grid)
      reads this`grid, grid
      ensures |g| == grid.Length0
      ensures forall i :: 0 <= i < grid.Length0 ==> g[i] == RowAt(i)
    {
      var a := grid;
      seq(a.Length0, i requires 0 <= i < a.Length0 reads a =>
        seq(a.Length1, j requires 0 <= j < a.Length1 reads a => a[i, j]))
    }

    /** Two grids agree cell by cell only when they are the same value. */
    lemma CellsAre(g: Grid)
      requires Valid() && IsSquare(g, GridSize)
      requires forall i, j :: 0 <= i < GridSize && 0 <= j < GridSize ==> grid[i, j] == g[i][j]
      ensures Cells() == g
    {
      forall i | 0 <= i < GridSize ensures Cells()[i] == g[i] {
        assert RowAt(i) == g[i];
      }
    }

    ghost function Model(): State
      reads this, grid
    {
      State(Cells(), score, combo, gameOver)
    }

    /** The initial state of the component. */
    constructor ()
      ensures Valid() && fresh(grid)
      ensures Model() == NewGame()
    {
      grid := new BlockType[GridSize, GridSize]((i, j) => Empty);
      score, combo, gameOver := 0, 0, false;
      new;
      CellsAre(EmptyGrid(GridSize));
    }

    /** `resetGame`: a fresh empty grid and zeroed counters. */
    method ResetGame()
      modifies this
      ensures Valid() && fresh(grid)
      ensures Model() == NewGame()
    {
      grid := new BlockType[GridSize, GridSize]((i, j) => Empty);
      score, combo, gameOver := 0, 0, false;
      CellsAre(EmptyGrid(GridSize));
    }

    /** The `every` test of one row: stops at the first empty cell. */
    method RowIsFull(i: nat) returns (full: bool)
      requires Valid() && i < GridSize
      ensures full == RowFull(RowAt(i))
    {
      full := true;
      var j := 0;
      while j < GridSize && full
        invariant 0 <= j <= GridSize
        invariant full == forall c :: 0 <= c < j ==> grid[i, c] != Empty
      {
        full := grid[i, j] != Empty;
        j := j + 1;
      }
    }

    /** The `forEach` over a full row that tallies its gold and gamecoin cells. */
    method RowRewards(i: nat) returns (credits: nat, gamecoins: nat)
      requires Valid() && i < GridSize
      ensures credits == GoldCredits * Count(RowAt(i), Gold)
      ensures gamecoins == Count(RowAt(i), GameCoin)
    {
      ghost var row := RowAt(i);
      credits, gamecoins := 0, 0;
      var j := 0;
      while j < GridSize
        invariant 0 <= j <= GridSize
        invariant credits == GoldCredits * Count(row[..j], Gold)
        invariant gamecoins == Count(row[..j], GameCoin)
      {
        assert row[..j + 1][..j] == row[..j];
        if grid[i, j] == Gold { credits := credits + GoldCredits; }
        if grid[i, j] == GameCoin { gamecoins := gamecoins + 1; }
        j := j + 1;
      }
      assert row[..GridSize] == row;
    }

    /** Empties row `i`; every other row is untouched. */
    method EmptyRowAt(i: nat)
      requires Valid() && i < GridSize
      modifies grid
      ensures forall r, c :: 0 <= r < GridSize && 0 <= c < GridSize ==>
                grid[r, c] == if r == i then Empty else old(grid[r, c])
    {
      var j := 0;
      while j < GridSize
        invariant 0 <= j <= GridSize
        invariant forall r, c :: 0 <= r < GridSize && 0 <= c < GridSize ==>
                    grid[r, c] == if r == i && c < j then Empty else old(grid[r, c])
      {
        grid[i, j] := Empty;
        j := j + 1;
      }
    }

    /** The `some` test for a free cell, stopping at the first one. */
    method HasEmptyCell() returns (found: bool)
      requires Valid()
      ensures found == HasEmpty(Cells())
    {
      found := false;
      var i := 0;
      while i < GridSize && !found
        invariant 0 <= i <= GridSize
        invariant found ==> HasEmpty(Cells())
        invariant !found ==> forall r, c :: 0 <= r < i && 0 <= c < GridSize ==> grid[r, c] != Empty
      {
        var j := 0;
        while j < GridSize && !found
          invariant 0 <= j <= GridSize
          invariant found ==> HasEmpty(Cells())
          invariant !found ==> forall c :: 0 <= c < j ==> grid[i, c] != Empty
        {
          if grid[i, j] == Empty {
            found := true;
            assert Cells()[i][j] == Empty;
          }
          j := j + 1;
        }
        i := i + 1;
      }
      if !found {
        assert forall r, c :: 0 <= r < GridSize && 0 <= c < GridSize ==> Cells()[r][c] != Empty;
      }
    }

    /**
     * The row pass of `checkLines`: tallies and empties every full row in
     * place, leaving the other rows untouched.
     */
    method ScanRows() returns (completedLines: nat, creditsEarned: nat, gamecoinsEarned: nat)
      requires Valid()
      modifies grid
      ensures Cells() == ClearFullRows(old(Cells()))
      ensures completedLines == FullRows(old(Cells()))
      ensures creditsEarned == BaseCredits(old(Cells()))
      ensures gamecoinsEarned == BaseCoins(old(Cells()))
    {
      ghost var g0 := Cells();
      assert IsSquare(g0, GridSize);
      completedLines, creditsEarned, gamecoinsEarned := 0, 0, 0;
      var i := 0;
      while i < GridSize
        invariant 0 <= i <= GridSize
        invariant forall r, c :: 0 <= r < GridSize && 0 <= c < GridSize ==>
                    grid[r, c] == if r < i && RowFull(g0[r]) then Empty else g0[r][c]
        invariant completedLines == FullRows(g0[..i])
        invariant creditsEarned == BaseCredits(g0[..i])
        invariant gamecoinsEarned == BaseCoins(g0[..i])
      {
        PrefixStep(g0, i);
        assert RowAt(i) == g0[i];
        var full := RowIsFull(i);
        if full {
          var credits, gamecoins := RowRewards(i);
          creditsEarned := creditsEarned + credits;
          gamecoinsEarned := gamecoinsEarned + gamecoins;
          EmptyRowAt(i);
          completedLines := completedLines + 1;
        }
        i := i + 1;
      }
      assert g0[..GridSize] == g0;
      ghost var cleared := ClearFullRows(g0);
      assert IsSquare(cleared, GridSize);
      assert forall r, c :: 0 <= r < GridSize && 0 <= c < GridSize ==> grid[r, c] == cleared[r][c];
      CellsAre(cleared);
    }

    /** `checkLines`: the row pass, then the multiplier, score and combo. */
    method CheckLines() returns (reward: Option<Reward>)
      requires Valid()
      modifies this, grid
      ensures Valid() && grid == old(grid)
      ensures Outcome(Model(), reward) == ResolveRows(old(Model()))
    {
      ghost var g0 := Cells();
      var completedLines, creditsEarned, gamecoinsEarned := ScanRows();
      creditsEarned := ComboCredits(creditsEarned, combo);
      if completedLines > 0 {
        score := score + completedLines * PointsPerLine;
        combo := combo + 1;
        if creditsEarned > 0 || gamecoinsEarned > 0 {
          reward := Some(Reward(creditsEarned, gamecoinsEarned));
        } else {
          reward := None;
        }
      } else {
        FullRowsPositive(g0);
        assert ClearFullRows(g0) == g0;
        combo := 0;
        reward := None;
      }
    }

    /**
     * `placeBlock` at (row, col) with the block type drawn at index `pick`,
     * in the intended order: place, game-over test on the new grid, then
     * row clearing on the new grid.
     */
    method PlaceBlock(row: nat, col: nat, pick: nat) returns (reward: Option<Reward>)
      requires Valid()
      requires row < GridSize && col < GridSize && pick < |BlockTypes|
      modifies this, grid
      ensures Valid() && grid == old(grid)
      ensures Outcome(Model(), reward) == Turn(old(Model()), row, col, GenerateBlock(pick))
    {
      ghost var s0 := Model();
      if grid[row, col] != Empty || gameOver {
        assert s0.grid[row][col] == grid[row, col];
        return None;
      }
      var newBlock := GenerateBlock(pick);
      ghost var placed := Place(s0.grid, row, col, newBlock);
      grid[row, col] := newBlock;
      CellsAre(placed);
      assert Cells() == placed;
      var hasEmptyCell := HasEmptyCell();
      if !hasEmptyCell {
        gameOver := true;
      }
      assert Cells() == placed;
      assert gameOver == !HasEmpty(placed);
      assert Model() == State(placed, s0.score, s0.combo, !HasEmpty(placed));
      reward := CheckLines();
    }
  }
}
