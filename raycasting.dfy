/**
 * The ray caster. A player walks on an 8 x 8 grid of cells; every frame it
 * casts rays that walk the grid lines of the map until they meet a wall, and
 * every wall column is shaded by its distance and textured.
 *
 * Coordinates and angles are `real`; `tan` and `Vector2Rotate` (which stands
 * for `cos` and `sin`) are parameters of the model. Drawing is left out.
 */
module Raycasting {

  import opened Raylib
  import opened Conversions

  const SCREEN_WIDTH: int := 640
  const SCREEN_HEIGHT: int := 640
  const BOARD_W: int := 8
  const BOARD_H: int := 8
  const CELL_SIZE: int := 80  // screenWidth / board_w

  /** The map, indexed `BOARD[x][y]`: 0 is an empty cell, any other value a wall texture. */
  const BOARD: seq<seq<int>> := [
    [1, 1, 1, 1, 1, 1, 1, 1],
    [1, 0, 0, 0, 0, 0, 0, 1],
    [1, 0, 2, 0, 0, 0, 1, 1],
    [1, 2, 2, 0, 0, 0, 0, 1],
    [1, 0, 0, 0, 0, 0, 0, 1],
    [1, 0, 0, 0, 1, 0, 0, 1],
    [1, 0, 1, 0, 0, 0, 0, 1],
    [1, 1, 1, 1, 1, 1, 1, 1]
  ]

  /** A map of the program's shape, indexed `board[x][y]`. */
  predicate IsMap(board: seq<seq<int>>) {
    |board| == BOARD_W && forall x :: 0 <= x < BOARD_W ==> |board[x]| == BOARD_H
  }

  lemma BoardIsMap()
    ensures IsMap(BOARD)
  {
  }

  /** `correct_cell`. */
  predicate CorrectCell(x: int, y: int) {
    (x >= 0 && x < BOARD_W) && (y >= 0 && y < BOARD_H)
  }

  /** `correct_cell` holds exactly for the cells whose entry `board[x][y]` exists. */
  lemma CorrectCellIndexes(board: seq<seq<int>>, x: int, y: int)
    requires IsMap(board)
    ensures CorrectCell(x, y) <==> 0 <= x < |board| && 0 <= y < |board[x]|
  {
  }

  datatype Cell = Cell(x: int, y: int)

  /** A cell holding a wall. */
  predicate Wall(board: seq<seq<int>>, c: Cell)
    requires IsMap(board)
  {
    CorrectCell(c.x, c.y) && board[c.x][c.y] != 0
  }

  /** `int(v / cell_size)`: the cell of a coordinate, truncated toward zero. */
  function CellOf(v: real): int {
    Trunc(v / CELL_SIZE as real)
  }

  // ---------------------------------------------------------------------------
  // Angles

  /** The first loop of `fix_angle`: whole turns are taken off while the angle exceeds `PI`. */
  function WrapDown(a: real): real
    decreases a
  {
    if a > PI then WrapDown(a - 2.0 * PI) else a
  }

  /** How many turns the first loop takes off. */
  function TurnsDown(a: real): nat
    decreases a
  {
    if a > PI then TurnsDown(a - 2.0 * PI) + 1 else 0
  }

  /** The second loop of `fix_angle`: whole turns are added while the angle is below `-PI`. */
  function WrapUp(a: real): real
    decreases -a
  {
    if a < -PI then WrapUp(a + 2.0 * PI) else a
  }

  /** How many turns the second loop adds. */
  function TurnsUp(a: real): nat
    decreases -a
  {
    if a < -PI then TurnsUp(a + 2.0 * PI) + 1 else 0
  }

  /** What `fix_angle` returns. */
  function Normalized(a: real): real {
    WrapUp(WrapDown(a))
  }

  /** The whole turns `fix_angle` adds to its argument (negative when it takes turns off). */
  function Turns(a: real): int {
    TurnsUp(WrapDown(a)) - TurnsDown(a)
  }

  lemma {:induction false} WrapDownSpec(a: real)
    ensures WrapDown(a) <= PI
    ensures a <= PI ==> WrapDown(a) == a
    ensures WrapDown(a) == a - TurnsDown(a) as real * (2.0 * PI)
    decreases a
  {
    if a > PI {
      WrapDownSpec(a - 2.0 * PI);
      var n := TurnsDown(a - 2.0 * PI);
      assert (n + 1) as real * (2.0 * PI) == n as real * (2.0 * PI) + 2.0 * PI;
    }
  }

  lemma {:induction false} WrapUpSpec(a: real)
    requires a <= PI
    ensures -PI <= WrapUp(a) <= PI
    ensures -PI <= a ==> WrapUp(a) == a
    ensures WrapUp(a) == a + TurnsUp(a) as real * (2.0 * PI)
    decreases -a
  {
    if a < -PI {
      WrapUpSpec(a + 2.0 * PI);
      var n := TurnsUp(a + 2.0 * PI);
      assert (n + 1) as real * (2.0 * PI) == n as real * (2.0 * PI) + 2.0 * PI;
    }
  }

  /** `fix_angle` lands in `[-PI, PI]`, moves by whole turns only, and keeps angles already in range. */
  lemma NormalizedSpec(a: real)
    ensures -PI <= Normalized(a) <= PI
    ensures Normalized(a) == a + Turns(a) as real * (2.0 * PI)
    ensures -PI <= a <= PI ==> Normalized(a) == a
  {
    WrapDownSpec(a);
    WrapUpSpec(WrapDown(a));
    var up, down := TurnsUp(WrapDown(a)) as int, TurnsDown(a) as int;
    assert (up - down) as real * (2.0 * PI) == up as real * (2.0 * PI) - down as real * (2.0 * PI);
  }

  /** `fix_angle`. */
  method FixAngle(angle0: real) returns (angle: real)
    ensures angle == Normalized(angle0)
    ensures -PI <= angle <= PI && angle == angle0 + Turns(angle0) as real * (2.0 * PI)
  {
    angle := angle0;
    while angle > PI
      invariant WrapDown(angle) == WrapDown(angle0)
    {
      angle := angle - 2.0 * PI;
    }
    while angle < -PI
      invariant WrapUp(angle) == Normalized(angle0)
      decreases -angle
    {
      angle := angle + 2.0 * PI;
    }
    NormalizedSpec(angle0);
  }

  // ---------------------------------------------------------------------------
  // Casting a ray

  /** `hit_t`. */
  datatype Hit = Hit(pos: Vec, cell: Cell, isHorizontal: bool, angle: real)

  /** The two scans of `cast_ray`: across vertical grid lines (columns) and across horizontal ones (rows). */
  datatype Axis = Vertical | Horizontal

  /** The scan walks towards larger indices: right for the vertical scan, down for the horizontal one. */
  predicate Ahead(axis: Axis, dir: real) {
    if axis == Vertical then -PI / 2.0 < dir < PI / 2.0 else !(-PI < dir && dir < 0.0)
  }

  /**
   * What step `k` of a scan records: the point where the ray from `pos` with
   * direction `dir` and `slope == tan(dir)` crosses the `k`-th grid line, and
   * the cell behind that line.
   */
  function Probe(axis: Axis, pos: Vec, dir: real, slope: real, k: int): Hit
    requires axis == Horizontal ==> slope != 0.0
  {
    var shift := if Ahead(axis, dir) then 1 else 0;
    var kDir := if Ahead(axis, dir) then 1 else -1;
    if axis == Vertical then
      var dx := ((CellOf(pos.x) + shift + k * kDir) * CELL_SIZE) as real - pos.x;
      var hit := Add(Vec(dx, dx * slope), pos);
      Hit(hit, Cell(CellOf(hit.x) + shift - 1, CellOf(hit.y)), false, dir)
    else
      var dy := ((CellOf(pos.y) + shift + k * kDir) * CELL_SIZE) as real - pos.y;
      var hit := Add(Vec(dy / slope, dy), pos);
      Hit(hit, Cell(CellOf(hit.x), CellOf(hit.y) + shift - 1), true, dir)
  }

  /** The coordinate of a cell that the scan along `axis` advances. */
  function Line(axis: Axis, c: Cell): int {
    if axis == Vertical then c.x else c.y
  }

  /** The column or row of the player's own cell. */
  function Start(axis: Axis, pos: Vec): int {
    CellOf(if axis == Vertical then pos.x else pos.y)
  }

  function Extent(axis: Axis): int {
    if axis == Vertical then BOARD_W else BOARD_H
  }

  /** The scan's loop stops on this hit: its cell is off the board or a wall. */
  predicate Stops(board: seq<seq<int>>, h: Hit)
    requires IsMap(board)
  {
    !CorrectCell(h.cell.x, h.cell.y) || board[h.cell.x][h.cell.y] != 0
  }

  /** Step `k` strikes the `k`-th column or row past the player's own, whatever the slope. */
  lemma ProbeLine(axis: Axis, pos: Vec, dir: real, slope: real, k: int)
    requires axis == Horizontal ==> slope != 0.0
    ensures Line(axis, Probe(axis, pos, dir, slope, k).cell) ==
            if Ahead(axis, dir) then Start(axis, pos) + 1 + k else Start(axis, pos) - 1 - k
  {
    var shift := if Ahead(axis, dir) then 1 else 0;
    var kDir := if Ahead(axis, dir) then 1 else -1;
    var n := Start(axis, pos) + shift + k * kDir;
    var h := Probe(axis, pos, dir, slope, k);
    var v := if axis == Vertical then h.pos.x else h.pos.y;
    assert v == (n * CELL_SIZE) as real;
    assert v / CELL_SIZE as real == n as real;
    TruncOfIntegral(n);
  }

  /** How many more lines the scan can cross from step `k` before it leaves the board. */
  function Left(axis: Axis, pos: Vec, dir: real, k: int): int {
    if Ahead(axis, dir) then Extent(axis) - Start(axis, pos) - k else Start(axis, pos) - k
  }

  /** The first step from `k` on at which the scan stops. */
  function StopStep(board: seq<seq<int>>, axis: Axis, pos: Vec, dir: real, slope: real, k: nat): nat
    requires IsMap(board)
    requires axis == Horizontal ==> slope != 0.0
    decreases Left(axis, pos, dir, k)
  {
    if Stops(board, Probe(axis, pos, dir, slope, k)) then k
    else
      ProbeLine(axis, pos, dir, slope, k);
      StopStep(board, axis, pos, dir, slope, k + 1)
  }

  /** The hit one scan of `cast_ray` ends with. */
  function ScanHit(board: seq<seq<int>>, axis: Axis, pos: Vec, dir: real, slope: real): Hit
    requires IsMap(board)
    requires axis == Horizontal ==> slope != 0.0
  {
    Probe(axis, pos, dir, slope, StopStep(board, axis, pos, dir, slope, 0))
  }

  /**
   * A scan stops at the first off-board or wall cell: every cell it probed
   * before was on the board and empty.
   */
  lemma {:induction false} StopStepFirst(board: seq<seq<int>>, axis: Axis, pos: Vec, dir: real, slope: real, k: nat)
    requires IsMap(board)
    requires axis == Horizontal ==> slope != 0.0
    ensures k <= StopStep(board, axis, pos, dir, slope, k)
    ensures Stops(board, Probe(axis, pos, dir, slope, StopStep(board, axis, pos, dir, slope, k)))
    ensures forall i :: k <= i < StopStep(board, axis, pos, dir, slope, k) ==> !Stops(board, Probe(axis, pos, dir, slope, i))
    decreases Left(axis, pos, dir, k)
  {
    if Stops(board, Probe(axis, pos, dir, slope, k)) {
      assert StopStep(board, axis, pos, dir, slope, k) == k;
    } else {
      ProbeLine(axis, pos, dir, slope, k);
      StopStepFirst(board, axis, pos, dir, slope, k + 1);
      var n := StopStep(board, axis, pos, dir, slope, k + 1);
      assert StopStep(board, axis, pos, dir, slope, k) == n;
      forall i | k <= i < n
        ensures !Stops(board, Probe(axis, pos, dir, slope, i))
      {
        if i == k {
          assert !Stops(board, Probe(axis, pos, dir, slope, k));
        }
      }
    }
  }

  /** The step at which a scan from step `k` must stop at the latest: its line has left the board there. */
  function LastStep(axis: Axis, pos: Vec, dir: real): int {
    if Ahead(axis, dir) then Extent(axis) - 1 - Start(axis, pos) else Start(axis, pos)
  }

  lemma {:induction false} StopStepBound(board: seq<seq<int>>, axis: Axis, pos: Vec, dir: real, slope: real, k: nat)
    requires IsMap(board)
    requires axis == Horizontal ==> slope != 0.0
    requires k <= LastStep(axis, pos, dir)
    ensures StopStep(board, axis, pos, dir, slope, k) <= LastStep(axis, pos, dir)
    decreases LastStep(axis, pos, dir) - k
  {
    ProbeLine(axis, pos, dir, slope, k);
    if k < LastStep(axis, pos, dir) {
      StopStepBound(board, axis, pos, dir, slope, k + 1);
    }
  }

  /**
   * From a cell on the board, a scan runs at most `BOARD_W` (or `BOARD_H`)
   * times round its loop, whatever `tan(dir)` is.
   */
  lemma ScanSteps(board: seq<seq<int>>, axis: Axis, pos: Vec, dir: real, slope: real)
    requires IsMap(board)
    requires axis == Horizontal ==> slope != 0.0
    requires 0 <= Start(axis, pos) < Extent(axis)
    ensures StopStep(board, axis, pos, dir, slope, 0) + 1 <= Extent(axis)
  {
    StopStepBound(board, axis, pos, dir, slope, 0);
  }

  /** One of the two `for (int k = 0; ; ++k)` loops of `cast_ray`. */
  method Scan(board: seq<seq<int>>, axis: Axis, pos: Vec, dir: real, slope: real) returns (hit: Hit)
    requires IsMap(board)
    requires axis == Horizontal ==> slope != 0.0
    ensures hit == ScanHit(board, axis, pos, dir, slope)
  {
    var k := 0;
    while true
      invariant 0 <= k && StopStep(board, axis, pos, dir, slope, k) == StopStep(board, axis, pos, dir, slope, 0)
      decreases Left(axis, pos, dir, k)
    {
      hit := Probe(axis, pos, dir, slope, k);
      if !CorrectCell(hit.cell.x, hit.cell.y) {
        break;
      }
      if board[hit.cell.x][hit.cell.y] != 0 {
        break;
      }
      ProbeLine(axis, pos, dir, slope, k);
      k := k + 1;
    }
  }

  /** The selection at the end of `cast_ray`: the horizontal hit only when it is strictly closer. */
  function Closer(pos: Vec, hitH: Hit, hitV: Hit): Hit {
    if LengthSq(Sub(hitH.pos, pos)) < LengthSq(Sub(hitV.pos, pos)) then hitH else hitV
  }

  /** What `cast_ray(pos, dir)` returns, with `tan` standing for the C library's `tan`. */
  function Cast(board: seq<seq<int>>, pos: Vec, dir: real, tan: real -> real): Hit
    requires IsMap(board)
    requires tan(Normalized(dir)) != 0.0
  {
    var d := Normalized(dir);
    Closer(pos, ScanHit(board, Horizontal, pos, d, tan(d)), ScanHit(board, Vertical, pos, d, tan(d)))
  }

  /** `cast_ray`. */
  method CastRay(pos: Vec, dir0: real, tan: real -> real) returns (hit: Hit)
    requires tan(Normalized(dir0)) != 0.0
    ensures hit == Cast(BOARD, pos, dir0, tan)
  {
    var dir := FixAngle(dir0);
    BoardIsMap();
    var hitV := Scan(BOARD, Vertical, pos, dir, tan(dir));
    var hitH := Scan(BOARD, Horizontal, pos, dir, tan(dir));
    if LengthSq(Sub(hitH.pos, pos)) < LengthSq(Sub(hitV.pos, pos)) {
      hit := hitH;
    } else {
      hit := hitV;
    }
  }

  /**
   * The ray's hit is the horizontal scan's exactly when that one is strictly
   * closer (a tie goes to the vertical scan), it is no farther than either
   * scan's hit, it stops on an off-board or wall cell, and it carries the
   * normalised direction.
   */
  lemma CastSpec(board: seq<seq<int>>, pos: Vec, dir: real, tan: real -> real)
    requires IsMap(board)
    requires tan(Normalized(dir)) != 0.0
    ensures var d := Normalized(dir);
            var hitH, hitV := ScanHit(board, Horizontal, pos, d, tan(d)), ScanHit(board, Vertical, pos, d, tan(d));
            var hit := Cast(board, pos, dir, tan);
            (hit.isHorizontal <==> LengthSq(Sub(hitH.pos, pos)) < LengthSq(Sub(hitV.pos, pos))) &&
            LengthSq(Sub(hit.pos, pos)) <= LengthSq(Sub(hitH.pos, pos)) &&
            LengthSq(Sub(hit.pos, pos)) <= LengthSq(Sub(hitV.pos, pos)) &&
            Stops(board, hit) && hit.angle == d && -PI <= hit.angle <= PI
  {
    var d := Normalized(dir);
    NormalizedSpec(dir);
    StopStepFirst(board, Horizontal, pos, d, tan(d), 0);
    StopStepFirst(board, Vertical, pos, d, tan(d), 0);
  }

  // ---------------------------------------------------------------------------
  // Collisions and movement

  /** `check_collision` samples the circle at this many angles, `-PI + i * PI / 4`. */
  const SAMPLES: int := 8

  /** The radius the player is checked with. */
  const PLAYER_RADIUS: real := 15.0

  /** Sample `i` of the circle around `position`; `rotate` stands for `Vector2Rotate`. */
  function SampleCell(position: Vec, radius: real, rotate: (Vec, real) -> Vec, i: int): Cell {
    var check := Add(position, rotate(Vec(radius, 0.0), -PI + i as real * (PI / 4.0)));
    Cell(CellOf(check.x), CellOf(check.y))
  }

  /** `check_collision` reads the board without a bounds check, so every sample must be on it. */
  predicate SamplesOnBoard(position: Vec, radius: real, rotate: (Vec, real) -> Vec) {
    forall i :: 0 <= i < SAMPLES ==> CorrectCell(SampleCell(position, radius, rotate, i).x, SampleCell(position, radius, rotate, i).y)
  }

  /** Some sample of the circle lies in a wall. */
  predicate Collides(board: seq<seq<int>>, position: Vec, radius: real, rotate: (Vec, real) -> Vec)
    requires IsMap(board)
  {
    exists i :: 0 <= i < SAMPLES && Wall(board, SampleCell(position, radius, rotate, i))
  }

  /** `check_collision`: true exactly when one of the eight samples lies in a wall. */
  method CheckCollision(position: Vec, radius: real, rotate: (Vec, real) -> Vec) returns (collides: bool)
    requires SamplesOnBoard(position, radius, rotate)
    ensures collides == Collides(BOARD, position, radius, rotate)
  {
    BoardIsMap();
    var angle := -PI;
    ghost var i := 0;
    while angle < PI
      invariant 0 <= i <= SAMPLES && angle == -PI + i as real * (PI / 4.0)
      invariant forall j :: 0 <= j < i ==> !Wall(BOARD, SampleCell(position, radius, rotate, j))
      decreases SAMPLES - i
    {
      var check := Add(position, rotate(Vec(radius, 0.0), angle));
      var cellX := CellOf(check.x);
      var cellY := CellOf(check.y);
      assert Cell(cellX, cellY) == SampleCell(position, radius, rotate, i);
      if BOARD[cellX][cellY] != 0 {
        return true;
      }
      angle := angle + PI / 4.0;
      i := i + 1;
    }
    return false;
  }

  /** `player_t`. */
  class Player {
    var pos: Vec
    var rotation: real
    var speed: real
    var fov: real
    var raysCount: int

    /** The set-up in `main`: the centre of the map, facing right. */
    constructor()
      ensures pos == Vec((SCREEN_WIDTH / 2) as real, (SCREEN_HEIGHT / 2) as real)
      ensures speed == 100.0 && rotation == 0.0 && fov == 60.0 && raysCount == 240
    {
      pos := Vec((SCREEN_WIDTH / 2) as real, (SCREEN_HEIGHT / 2) as real);
      speed := 100.0;
      rotation := 0.0;
      fov := 60.0;
      raysCount := 240;
    }

    /**
     * The move of one frame: the player steps by `move` and steps back when
     * the new position collides, so it never ends a frame inside a wall it
     * was clear of.
     */
    method Move(move: Vec, rotate: (Vec, real) -> Vec)
      requires SamplesOnBoard(Add(pos, move), PLAYER_RADIUS, rotate)
      modifies this`pos
      ensures pos == if Collides(BOARD, Add(old(pos), move), PLAYER_RADIUS, rotate) then old(pos) else Add(old(pos), move)
      ensures !Collides(BOARD, old(pos), PLAYER_RADIUS, rotate) ==> !Collides(BOARD, pos, PLAYER_RADIUS, rotate)
    {
      pos := Add(pos, move);
      var collides := CheckCollision(pos, PLAYER_RADIUS, rotate);
      if collides {
        pos := Sub(pos, move);
      }
    }
  }

  // ---------------------------------------------------------------------------
  // Shading

  /** `std::clamp(v, lo, hi)`. */
  function Clamp(v: int, lo: int, hi: int): (r: int)
    requires lo <= hi
    ensures lo <= r <= hi
    ensures lo <= v <= hi ==> r == v
    ensures v < lo ==> r == lo
    ensures hi < v ==> r == hi
  {
    if v < lo then lo else if hi < v then hi else v
  }

  /** One colour channel darkened by `shading`: `std::clamp(c - shading, 0, 255)`. */
  function Shade(c: Byte, shading: int): (r: Byte)
    ensures 0 <= shading ==> r <= c
    ensures shading <= 0 ==> c <= r
    ensures 0 <= c - shading <= 255 ==> r == c - shading
    ensures r == 0 <==> c - shading <= 0
    ensures r == 255 <==> 255 <= c - shading
  {
    Clamp(c - shading, 0, 255)
  }

  /** A pixel darkened by `shading`; the alpha channel is left alone. */
  function ShadePixel(p: Color, shading: int): (q: Color)
    ensures q.a == p.a
    ensures 0 <= shading ==> q.r <= p.r && q.g <= p.g && q.b <= p.b
  {
    p.(r := Shade(p.r, shading), g := Shade(p.g, shading), b := Shade(p.b, shading))
  }

  /** The shading of a wall column at distance `dist`: `int(128.0 * dist / 900)`. */
  function WallShading(dist: real): (s: int)
    ensures 0.0 <= dist ==> 0 <= s
    ensures 0.0 <= dist < 900.0 ==> s < 128
  {
    Trunc(128.0 * dist / 900.0)
  }

  /** The shading of floor and ceiling row `row`: `int(1.0 / float(row) * screenHeight * 28)`. */
  function RowShading(row: int): (s: int)
    requires row != 0
    ensures 0 < row ==> 0 <= s <= SCREEN_HEIGHT * 28
    ensures SCREEN_HEIGHT / 2 <= row ==> s <= 56
  {
    Trunc(1.0 / row as real * SCREEN_HEIGHT as real * 28.0)
  }

  // ---------------------------------------------------------------------------
  // Texture indexing

  /** Bitwise `&` of two non-negative integers, bit by bit from the lowest. */
  function BitAnd(a: nat, b: nat): nat
    decreases a
  {
    if a == 0 || b == 0 then 0
    else 2 * BitAnd(a / 2, b / 2) + (if a % 2 == 1 && b % 2 == 1 then 1 else 0)
  }

  function Pow2(e: nat): (p: nat)
    ensures 1 <= p
  {
    if e == 0 then 1 else 2 * Pow2(e - 1)
  }

  /** A mask keeps no more than the mask itself. */
  lemma {:induction false} BitAndBelow(a: nat, b: nat)
    ensures BitAnd(a, b) <= b
    decreases a
  {
    if a != 0 && b != 0 {
      BitAndBelow(a / 2, b / 2);
    }
  }

  /** Masking with `2^e - 1` keeps the low `e` bits, the remainder modulo `2^e`. */
  lemma {:induction false} BitAndLowBits(a: nat, e: nat)
    ensures BitAnd(a, Pow2(e) - 1) == a % Pow2(e)
    decreases e
  {
    if e == 0 {
      assert Pow2(e) == 1;
    } else if a != 0 {
      var p := Pow2(e - 1);
      LowBitsHalve(e);
      BitAndLowBits(a / 2, e - 1);
      ModDouble(a, p);
      calc {
        BitAnd(a, Pow2(e) - 1);
        2 * BitAnd(a / 2, p - 1) + a % 2;
        2 * ((a / 2) % p) + a % 2;
        a % (2 * p);
      }
    }
  }

  /** Halving `2^e - 1` drops its lowest bit, which is set, and leaves `2^(e-1) - 1`. */
  lemma LowBitsHalve(e: nat)
    requires 0 < e
    ensures Pow2(e) == 2 * Pow2(e - 1)
    ensures (Pow2(e) - 1) / 2 == Pow2(e - 1) - 1 && (Pow2(e) - 1) % 2 == 1
  {
  }

  /** The remainder modulo `2p` from the remainder of `a / 2` modulo `p` and the lowest bit. */
  lemma ModDouble(a: nat, p: nat)
    requires 1 <= p
    ensures a % (2 * p) == 2 * ((a / 2) % p) + a % 2
  {
    var q, r := (a / 2) / p, (a / 2) % p;
    assert a / 2 == p * q + r;
    assert a == 2 * (a / 2) + a % 2;
    assert a == (2 * p) * q + (2 * r + a % 2);
    DivModUnique(a, 2 * p, q, 2 * r + a % 2);
  }

  /** `x % p` is the one remainder in `[0, p)` that leaves a multiple of `p`. */
  lemma DivModUnique(x: int, p: int, d: int, m: int)
    requires 1 <= p && x == p * d + m && 0 <= m < p
    ensures x % p == m
  {
    var q := x / p;
    assert x == p * q + x % p;
    assert p * (q - d) == m - x % p;
    if q - d >= 1 {
      MulAtLeast(p, q - d);
    } else if d - q >= 1 {
      MulAtLeast(p, d - q);
    }
  }

  lemma MulAtLeast(p: int, t: int)
    requires 0 <= p && 1 <= t
    ensures p <= p * t
  {
    assert p * t == p + p * (t - 1);
  }

  /** The 32 bits of a C `int`, read as unsigned. */
  function Bits(x: int): nat {
    x % 0x1_0000_0000
  }

  /** `x & (fw - 1)` on a 32-bit `int`. */
  function Mask(x: int, fw: int): int
    requires -0x8000_0000 <= x < 0x8000_0000 && 1 <= fw < 0x8000_0000
  {
    BitAnd(Bits(x), fw - 1)
  }

  /** Whatever `x`, negative ones included, the mask lands in `[0, fw)`. */
  lemma MaskBounds(x: int, fw: int)
    requires -0x8000_0000 <= x < 0x8000_0000 && 1 <= fw < 0x8000_0000
    ensures 0 <= Mask(x, fw) < fw
  {
    BitAndBelow(Bits(x), fw - 1);
  }

  /** For a power-of-two width the mask is the (non-negative) remainder, also for negative `x`. */
  lemma MaskIsModulo(x: int, e: nat)
    requires -0x8000_0000 <= x < 0x8000_0000 && e <= 32 && Pow2(e) < 0x8000_0000
    ensures Mask(x, Pow2(e)) == x % Pow2(e)
  {
    BitAndLowBits(Bits(x), e);
    BitsModulo(x, e);
  }

  /** Reading the 32 bits of `x` as unsigned keeps its remainder modulo `2^e`. */
  lemma BitsModulo(x: int, e: nat)
    requires e <= 32
    ensures Bits(x) % Pow2(e) == x % Pow2(e)
  {
    var p, q := Pow2(e), Pow2(32 - e);
    Pow2Split(e, 32 - e);
    Pow2Of32();
    assert p * q == 0x1_0000_0000;
    ModOfMod(x, p, q);
  }

  lemma {:induction false} Pow2Split(a: nat, b: nat)
    ensures Pow2(a + b) == Pow2(a) * Pow2(b)
    decreases a
  {
    if a > 0 {
      Pow2Split(a - 1, b);
      calc {
        Pow2(a + b);
        2 * Pow2(a - 1 + b);
        2 * (Pow2(a - 1) * Pow2(b));
        (2 * Pow2(a - 1)) * Pow2(b);
        Pow2(a) * Pow2(b);
      }
    }
  }

  lemma Pow2Of32()
    ensures Pow2(32) == 0x1_0000_0000
  {
    assert Pow2(8) == 0x100;
    Pow2Split(8, 8);
    assert Pow2(16) == 0x100 * 0x100 == 0x1_0000;
    Pow2Split(16, 16);
    assert Pow2(32) == 0x1_0000 * 0x1_0000;
  }

  /** Taking a remainder modulo a multiple of `p` first does not change the remainder modulo `p`. */
  lemma ModOfMod(x: int, p: int, q: int)
    requires 1 <= p && 1 <= q
    ensures x % (p * q) % p == x % p
  {
    var r := x % (p * q);
    var d := x / (p * q);
    assert x == (p * q) * d + r;
    assert r == p * (r / p) + r % p;
    assert x == p * (q * d + r / p) + r % p;
    DivModUnique(x, p, q * d + r / p, r % p);
  }

  /** Row `row` and column `col` of a `w` by `w` texture, laid out row by row, lie inside it. */
  lemma IndexBelow(row: int, col: int, w: int)
    requires 0 <= row < w && 0 <= col < w
    ensures 0 <= row * w + col < w * w
  {
    assert row * w <= (w - 1) * w by {
      MulAtLeast(w, 1);
      assert (w - 1) * w - row * w == (w - 1 - row) * w;
    }
  }

  /** `(ty & (fw - 1)) * fw + (tx & (fw - 1))`: the texel looked up for a floor or ceiling point. */
  function TexelIndex(tx: int, ty: int, fw: int): (i: int)
    requires -0x8000_0000 <= tx < 0x8000_0000 && -0x8000_0000 <= ty < 0x8000_0000
    requires 1 <= fw && fw * fw <= 0x8000_0000
    ensures 0 <= i < fw * fw
  {
    var row, col := Mask(ty, fw), Mask(tx, fw);
    MulAtLeast(fw, fw);
    MaskBounds(ty, fw);
    MaskBounds(tx, fw);
    IndexBelow(row, col, fw);
    row * fw + col
  }
}
