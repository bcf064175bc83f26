/**
 * Conway's Game of Life (rule B3/S23) on a fixed 40 x 40 board whose edges do
 * not wrap. The board is an `array2<bool>` indexed `[y, x]`, as in the
 * program's global `board[BOARD_H][BOARD_W]`; what a generation step computes is
 * specified by `Step`, a function on the value of the board.
 */
module GameOfLife {

  const WINDOW_W: int := 800
  const WINDOW_H: int := 800
  const SQUARE_SIZE: int := 20
  const BOARD_W: int := WINDOW_W / SQUARE_SIZE
  const BOARD_H: int := WINDOW_H / SQUARE_SIZE

  /** The value of the board: rows indexed by y, each a row of cells indexed by x. */
  type Grid = seq<seq<bool>>

  predicate IsBoard(b: Grid) {
    |b| == BOARD_H && forall y :: 0 <= y < |b| ==> |b[y]| == BOARD_W
  }

  /** `is_valid`: whether (x, y) names a cell of the board. */
  function IsValid(x: int, y: int): (r: bool)
    ensures r <==> 0 <= x < 40 && 0 <= y < 40
  {
    (x >= 0 && x < BOARD_W) && (y >= 0 && y < BOARD_H)
  }

  // ---------------------------------------------------------------------------
  // Specification of one generation

  /**
   * What probe `i` (0 <= i < 9) of the counting loop adds to `alive`: probe i
   * looks at (sx - 1 + i % 3, sy - 1 + i / 3) and counts it when it is on the
   * board, is not the centre, and is alive.
   */
  function Probe(b: Grid, sx: int, sy: int, i: int): nat
    requires IsBoard(b)
  {
    var x := sx - 1 + i % 3;
    var y := sy - 1 + i / 3;
    if IsValid(x, y) && (x != sx || y != sy) && b[y][x] then 1 else 0
  }

  /** The value of `alive` after the first `n` probes of the counting loop. */
  function Alive(b: Grid, sx: int, sy: int, n: nat): nat
    requires IsBoard(b)
  {
    if n == 0 then 0 else Alive(b, sx, sy, n - 1) + Probe(b, sx, sy, n - 1)
  }

  /** Reference definition: 1 for a live cell on the board, 0 for a dead or off-board one. */
  function Live(b: Grid, x: int, y: int): nat
    requires IsBoard(b)
  {
    if IsValid(x, y) && b[y][x] then 1 else 0
  }

  /** Reference definition: the live cells among the eight neighbours of (sx, sy). */
  function Neighbours(b: Grid, sx: int, sy: int): nat
    requires IsBoard(b)
  {
    Live(b, sx - 1, sy - 1) + Live(b, sx, sy - 1) + Live(b, sx + 1, sy - 1) +
    Live(b, sx - 1, sy) + Live(b, sx + 1, sy) +
    Live(b, sx - 1, sy + 1) + Live(b, sx, sy + 1) + Live(b, sx + 1, sy + 1)
  }

  /**
   * Rule B3/S23: a live cell survives iff it has 2 or 3 live neighbours, a dead
   * cell is born iff it has exactly 3.
   */
  function NextCell(b: Grid, sx: int, sy: int): bool
    requires IsBoard(b) && IsValid(sx, sy)
  {
    var alive := Neighbours(b, sx, sy);
    if b[sy][sx] then alive == 2 || alive == 3 else alive == 3
  }

  /** The next generation: every cell computed from the old board only. */
  function Step(b: Grid): (r: Grid)
    requires IsBoard(b)
    ensures IsBoard(r)
  {
    seq(BOARD_H, y requires 0 <= y < BOARD_H => seq(BOARD_W, x requires 0 <= x < BOARD_W => NextCell(b, x, y)))
  }

  // ---------------------------------------------------------------------------
  // Properties of a generation

  /** The nine probes of the counting loop count exactly the eight neighbours on the board. */
  lemma AliveIsNeighbours(b: Grid, sx: int, sy: int)
    requires IsBoard(b)
    ensures Alive(b, sx, sy, 9) == Neighbours(b, sx, sy)
  {
    assert Probe(b, sx, sy, 0) == Live(b, sx - 1, sy - 1);
    assert Probe(b, sx, sy, 1) == Live(b, sx, sy - 1);
    assert Probe(b, sx, sy, 2) == Live(b, sx + 1, sy - 1);
    assert Probe(b, sx, sy, 3) == Live(b, sx - 1, sy);
    assert Probe(b, sx, sy, 4) == 0;
    assert Probe(b, sx, sy, 5) == Live(b, sx + 1, sy);
    assert Probe(b, sx, sy, 6) == Live(b, sx - 1, sy + 1);
    assert Probe(b, sx, sy, 7) == Live(b, sx, sy + 1);
    assert Probe(b, sx, sy, 8) == Live(b, sx + 1, sy + 1);
    assert Alive(b, sx, sy, 1) == Alive(b, sx, sy, 0) + Probe(b, sx, sy, 0);
    assert Alive(b, sx, sy, 2) == Alive(b, sx, sy, 1) + Probe(b, sx, sy, 1);
    assert Alive(b, sx, sy, 3) == Alive(b, sx, sy, 2) + Probe(b, sx, sy, 2);
    assert Alive(b, sx, sy, 4) == Alive(b, sx, sy, 3) + Probe(b, sx, sy, 3);
    assert Alive(b, sx, sy, 5) == Alive(b, sx, sy, 4) + Probe(b, sx, sy, 4);
    assert Alive(b, sx, sy, 6) == Alive(b, sx, sy, 5) + Probe(b, sx, sy, 5);
    assert Alive(b, sx, sy, 7) == Alive(b, sx, sy, 6) + Probe(b, sx, sy, 6);
    assert Alive(b, sx, sy, 8) == Alive(b, sx, sy, 7) + Probe(b, sx, sy, 7);
    assert Alive(b, sx, sy, 9) == Alive(b, sx, sy, 8) + Probe(b, sx, sy, 8);
  }

  /** At most 8 live neighbours; at most 5 on an edge and 3 in a corner, since the board does not wrap. */
  lemma NeighbourBounds(b: Grid, sx: int, sy: int)
    requires IsBoard(b) && IsValid(sx, sy)
    ensures Neighbours(b, sx, sy) <= 8
    ensures (sx == 0 || sx == BOARD_W - 1 || sy == 0 || sy == BOARD_H - 1) ==> Neighbours(b, sx, sy) <= 5
    ensures (sx == 0 || sx == BOARD_W - 1) && (sy == 0 || sy == BOARD_H - 1) ==> Neighbours(b, sx, sy) <= 3
  {
  }

  /** The two boards agree on the on-board cells of the 3 x 3 block around (x, y). */
  predicate SameBlock(b: Grid, b': Grid, x: int, y: int)
    requires IsBoard(b) && IsBoard(b')
  {
    forall y', x' :: y - 1 <= y' <= y + 1 && x - 1 <= x' <= x + 1 && IsValid(x', y') ==> b[y'][x'] == b'[y'][x']
  }

  /**
   * A new cell depends only on the old cells of its 3 x 3 block: cells outside
   * it, and in particular cells on the opposite edge of the board, play no part.
   */
  lemma StepIsLocal(b: Grid, b': Grid, x: int, y: int)
    requires IsBoard(b) && IsBoard(b') && IsValid(x, y)
    requires SameBlock(b, b', x, y)
    ensures Step(b)[y][x] == Step(b')[y][x]
  {
  }

  predicate AllDead(b: Grid)
    requires IsBoard(b)
  {
    forall y, x :: 0 <= y < BOARD_H && 0 <= x < BOARD_W ==> !b[y][x]
  }

  /** An empty board stays empty: no cell is born without live neighbours. */
  lemma StepKeepsEmptyBoard(b: Grid)
    requires IsBoard(b) && AllDead(b)
    ensures AllDead(Step(b))
  {
    forall y, x | 0 <= y < BOARD_H && 0 <= x < BOARD_W
      ensures !Step(b)[y][x]
    {
    }
  }

  // ---------------------------------------------------------------------------
  // The board as the program holds it

  predicate HasBoardShape(a: array2<bool>) {
    a.Length0 == BOARD_H && a.Length1 == BOARD_W
  }

  /** The value held in the board array. */
  ghost function Snapshot(a: array2<bool>): (b: Grid)
    requires HasBoardShape(a)
    reads a
    ensures IsBoard(b)
    ensures forall y, x :: 0 <= y < BOARD_H && 0 <= x < BOARD_W ==> b[y][x] == a[y, x]
  {
    seq(BOARD_H, y requires 0 <= y < BOARD_H reads a =>
      seq(BOARD_W, x requires 0 <= x < BOARD_W reads a => a[y, x]))
  }

  /**
   * `update_board`: fills a separate buffer from the old board in nested loops,
   * counting live neighbours with nine probes per cell, then copies the buffer
   * back over the board.
   */
  method UpdateBoard(board: array2<bool>)
    requires HasBoardShape(board)
    modifies board
    ensures Snapshot(board) == Step(old(Snapshot(board)))
  {
    ghost var b := Snapshot(board);
    var buf := new bool[BOARD_H, BOARD_W]((_, _) => false);
    var sy := 0;
    while sy < BOARD_H
      modifies buf
      invariant 0 <= sy <= BOARD_H
      invariant forall y, x :: 0 <= y < sy && 0 <= x < BOARD_W ==> buf[y, x] == NextCell(b, x, y)
    {
      var sx := 0;
      while sx < BOARD_W
        modifies buf
        invariant 0 <= sx <= BOARD_W
        invariant forall y, x :: 0 <= y <= sy && 0 <= x < BOARD_W && (y < sy || x < sx) ==> buf[y, x] == NextCell(b, x, y)
      {
        var alive := CountAlive(board, b, sx, sy);
        if board[sy, sx] {
          buf[sy, sx] := alive == 2 || alive == 3;
        } else {
          buf[sy, sx] := alive == 3;
        }
        sx := sx + 1;
      }
      sy := sy + 1;
    }
    CopyBoard(board, buf);
    forall y | 0 <= y < BOARD_H
      ensures Snapshot(board)[y] == Step(b)[y]
    {
    }
  }

  /**
   * The inner loop of `update_board`: nine probes over the 3 x 3 block around
   * (sx, sy), adding each on-board cell other than the centre to `alive`.
   */
  method CountAlive(board: array2<bool>, ghost b: Grid, sx: int, sy: int) returns (alive: nat)
    requires HasBoardShape(board) && IsBoard(b)
    requires forall y, x :: 0 <= y < BOARD_H && 0 <= x < BOARD_W ==> board[y, x] == b[y][x]
    ensures alive == Neighbours(b, sx, sy)
  {
    alive := 0;
    var i := 0;
    while i < 9
      invariant 0 <= i <= 9
      invariant alive == Alive(b, sx, sy, i)
    {
      var x := sx - 1 + i % 3;
      var y := sy - 1 + i / 3;
      ghost var next := Alive(b, sx, sy, i + 1);
      assert next == alive + Probe(b, sx, sy, i);
      if IsValid(x, y) && (x != sx || y != sy) {
        assert board[y, x] == b[y][x];
        alive := alive + if board[y, x] then 1 else 0;
      } else {
        assert Probe(b, sx, sy, i) == 0;
      }
      assert alive == next;
      i := i + 1;
    }
    AliveIsNeighbours(b, sx, sy);
  }

  /** `memcpy` of one board array over another of the same shape. */
  method CopyBoard(dst: array2<bool>, src: array2<bool>)
    requires HasBoardShape(dst) && HasBoardShape(src) && dst != src
    modifies dst
    ensures forall y, x :: 0 <= y < BOARD_H && 0 <= x < BOARD_W ==> dst[y, x] == src[y, x]
  {
    var y := 0;
    while y < BOARD_H
      invariant 0 <= y <= BOARD_H
      invariant forall yy, x :: 0 <= yy < y && 0 <= x < BOARD_W ==> dst[yy, x] == src[yy, x]
    {
      var x := 0;
      while x < BOARD_W
        invariant 0 <= x <= BOARD_W
        invariant forall yy, xx :: 0 <= yy < y && 0 <= xx < BOARD_W ==> dst[yy, xx] == src[yy, xx]
        invariant forall xx :: 0 <= xx < x ==> dst[y, xx] == src[y, xx]
      {
        dst[y, x] := src[y, x];
        x := x + 1;
      }
      y := y + 1;
    }
  }

  /**
   * While the simulation is paused, a held left button makes the cell under the
   * pointer alive and a held right button makes it dead; nothing else changes.
   * The pointer is inside the window, so its cell is on the board.
   */
  method PaintUnderPointer(board: array2<bool>, running: bool, mouseX: int, mouseY: int,
                           leftDown: bool, rightDown: bool)
    requires HasBoardShape(board)
    requires 0 <= mouseX < WINDOW_W && 0 <= mouseY < WINDOW_H
    modifies board
    ensures var sx, sy := mouseX / SQUARE_SIZE, mouseY / SQUARE_SIZE;
      IsValid(sx, sy) &&
      forall y, x :: 0 <= y < BOARD_H && 0 <= x < BOARD_W ==>
        board[y, x] == if !running && (x, y) == (sx, sy) && (leftDown || rightDown) then leftDown
                       else old(board[y, x])
  {
    if !running {
      var sx := mouseX / SQUARE_SIZE;
      var sy := mouseY / SQUARE_SIZE;
      if leftDown {
        board[sy, sx] := true;
      } else if rightDown {
        board[sy, sx] := false;
      }
    }
  }
}
