/**
 * The map editor's state (`context_t`): the board of texture ids, its size as
 * set by the two spinners, the loaded texture files, and the operations that
 * change or export the board: `reload_board`, the resize driven by the
 * spinners, the cell write of a left click, and `get_map_data`.
 */
module MapEditor {
  import opened Conversions
  import opened MapFormat

  /** The spinners keep either dimension in `1..100`. */
  const SPINNER_MIN := 1
  const SPINNER_MAX := 100

  predicate Rectangular(b: Board) {
    1 <= |b| && forall i :: 0 <= i < |b| ==> |b[i]| == |b[0]|
  }

  predicate Shaped(b: Board, rows: int, cols: int) {
    |b| == rows && forall i :: 0 <= i < |b| ==> |b[i]| == cols
  }

  /**
   * The board `reload_board` builds: `rows` rows of `cols` cells, the cells
   * inside the old board copied, every other cell `-1`.
   */
  function Resized(b: Board, rows: nat, cols: nat): Board
    requires Rectangular(b)
  {
    seq(rows, i => seq(cols, j => if 0 <= i < |b| && 0 <= j < |b[0]| then b[i][j] else -1))
  }

  /** The resized board has the new size; the common region keeps its cells and the rest is empty. */
  lemma ResizedCells(b: Board, rows: nat, cols: nat)
    requires Rectangular(b)
    ensures Shaped(Resized(b, rows, cols), rows, cols)
    ensures forall i, j :: 0 <= i < Min(|b|, rows) && 0 <= j < Min(|b[0]|, cols) ==> Resized(b, rows, cols)[i][j] == b[i][j]
    ensures forall i, j :: 0 <= i < rows && 0 <= j < cols && !(i < |b| && j < |b[0]|) ==> Resized(b, rows, cols)[i][j] == -1
  {
  }

  /** Reloading at the board's own size gives the board back. */
  lemma ResizedSameSize(b: Board)
    requires Rectangular(b)
    ensures Resized(b, |b|, |b[0]|) == b
  {
    var r := Resized(b, |b|, |b[0]|);
    forall i | 0 <= i < |b|
      ensures r[i] == b[i]
    {
    }
  }

  /** Growing a board and shrinking it back to its size restores it. */
  lemma ResizedGrowShrink(b: Board, rows: nat, cols: nat)
    requires Rectangular(b) && |b| <= rows && |b[0]| <= cols
    ensures Rectangular(Resized(b, rows, cols))
    ensures Resized(Resized(b, rows, cols), |b|, |b[0]|) == b
  {
    var g := Resized(b, rows, cols);
    assert |g[0]| == cols;
    var r := Resized(g, |b|, |b[0]|);
    forall i | 0 <= i < |b|
      ensures r[i] == b[i]
    {
    }
  }

  /** A resized board keeps the ids of the old one: no new texture id appears. */
  lemma ResizedCellsIn(b: Board, rows: nat, cols: nat, n: int)
    requires Rectangular(b) && CellsIn(b, n)
    ensures CellsIn(Resized(b, rows, cols), n)
  {
  }

  // ---------------------------------------------------------------------------
  // The pointer's cell

  /**
   * The cell under the pointer as the click handler computes it: the C++
   * conversion `int(v / sq)` truncates toward zero.
   */
  function PointerCellAsWritten(v: real, sq: real): int
    requires sq > 0.0
  {
    Trunc(v / sq)
  }

  /** Truncation sends every position up to one cell before the board's edge to cell 0. */
  lemma TruncatedCellMissesPointer(v: real, sq: real)
    requires sq > 0.0 && -sq < v < 0.0
    ensures var c := PointerCellAsWritten(v, sq); c == 0 && !(c as real * sq <= v)
  {
    QuotientBounds(v, sq);
  }

  /** The quotient by a positive square size keeps the sign of the position, and a position within one square before 0 gives a quotient within one before 0. */
  lemma QuotientBounds(v: real, sq: real)
    requires sq > 0.0
    ensures v < 0.0 ==> v / sq < 0.0
    ensures -sq < v ==> -1.0 < v / sq
  {
  }

  /** Bounds on the quotient by a positive square size are bounds on the position, scaled by the square size. */
  lemma QuotientBetween(v: real, sq: real, lo: real, hi: real)
    requires sq > 0.0 && lo <= v / sq < hi
    ensures lo * sq <= v < hi * sq
  {
  }

  /** The cell under the pointer, rounding down: the cell whose square contains the pointer. */
  function PointerCell(v: real, sq: real): int
    requires sq > 0.0
  {
    (v / sq).Floor
  }

  /** The corrected cell is the one whose square `[c * sq, (c + 1) * sq)` holds the pointer. */
  lemma PointerCellContainsPointer(v: real, sq: real)
    requires sq > 0.0
    ensures PointerCell(v, sq) as real * sq <= v < (PointerCell(v, sq) + 1) as real * sq
  {
    var c := PointerCell(v, sq);
    QuotientBetween(v, sq, c as real, c as real + 1.0);
  }

  /** Both agree on positions on or after the board's edge. */
  lemma PointerCellsAgree(v: real, sq: real)
    requires sq > 0.0 && 0.0 <= v
    ensures PointerCellAsWritten(v, sq) == PointerCell(v, sq)
  {
    assert 0.0 <= v / sq;
  }

  // ---------------------------------------------------------------------------
  // The editor

  class Context {
    var offsetX: real
    var offsetY: real
    var rows: int
    var cols: int
    var board: Board
    var imagesLoaded: int
    var filenames: seq<string>
    var guiEnabled: bool

    /** The board has the spinners' size and holds only `-1` or ids of loaded images. */
    ghost predicate Valid()
      reads this
    {
      SPINNER_MIN <= rows <= SPINNER_MAX && SPINNER_MIN <= cols <= SPINNER_MAX &&
      Shaped(board, rows, cols) && CellsIn(board, imagesLoaded) &&
      imagesLoaded == |filenames|
    }

    /**
     * The set-up in `main`: a 10 by 10 board of empty cells except for two
     * cells holding texture 0, one image per file found, the GUI closed.
     */
    constructor (files: seq<string>)
      requires 1 <= |files|
      ensures Valid()
      ensures rows == 10 && cols == 10 && offsetX == 0.0 && offsetY == 0.0 && !guiEnabled
      ensures filenames == files && imagesLoaded == |files|
      ensures forall i, j :: 0 <= i < 10 && 0 <= j < 10 ==> board[i][j] == if j == 0 && i <= 1 then 0 else -1
    {
      offsetX, offsetY := 0.0, 0.0;
      rows, cols := 10, 10;
      var empty := seq(10, _ => seq(10, _ => -1));
      board := empty[0 := empty[0][0 := 0]][1 := empty[1][0 := 0]];
      imagesLoaded := |files|;
      filenames := files;
      guiEnabled := false;
    }

    /** `reload_board`: rebuild the board at the current size, keeping the common region. */
    method ReloadBoard()
      requires Rectangular(board) && 0 <= rows && 0 <= cols
      modifies this`board
      ensures board == Resized(old(board), rows, cols)
    {
      var newRows, newCols := rows, cols;
      var newBoard := seq(newRows, _ => seq(newCols, _ => -1));
      var maxRow := Min(|board|, rows);
      var maxCol := Min(|board[0]|, cols);
      var i := 0;
      while i < maxRow
        invariant 0 <= i <= maxRow
        invariant Shaped(newBoard, rows, cols)
        invariant forall r, c :: 0 <= r < rows && 0 <= c < cols ==>
          newBoard[r][c] == if r < i && c < maxCol then board[r][c] else -1
      {
        var j := 0;
        while j < maxCol
          invariant 0 <= j <= maxCol
          invariant Shaped(newBoard, rows, cols)
          invariant forall r, c :: 0 <= r < rows && 0 <= c < cols ==>
            newBoard[r][c] == if (r < i || (r == i && c < j)) && c < maxCol then board[r][c] else -1
        {
          newBoard := newBoard[i := newBoard[i][j := board[i][j]]];
          j := j + 1;
        }
        i := i + 1;
      }
      forall r | 0 <= r < rows
        ensures newBoard[r] == Resized(board, rows, cols)[r]
      {
      }
      board := newBoard;
    }

    /**
     * The two spinners in the GUI panel: each dimension is set within `1..100`,
     * and the board is reloaded when either changed.
     */
    method SetBoardSize(newRows: int, newCols: int)
      requires Valid()
      requires SPINNER_MIN <= newRows <= SPINNER_MAX && SPINNER_MIN <= newCols <= SPINNER_MAX
      modifies this`rows, this`cols, this`board
      ensures Valid()
      ensures rows == newRows && cols == newCols
      ensures board == Resized(old(board), newRows, newCols)
    {
      var oldRows, oldCols := rows, cols;
      rows := newRows;
      cols := newCols;
      ResizedCellsIn(board, newRows, newCols, imagesLoaded);
      ResizedCells(board, newRows, newCols);
      if oldRows != rows || oldCols != cols {
        ReloadBoard();
      } else {
        ResizedSameSize(board);
      }
    }

    /**
     * A left press with the GUI closed writes the selected texture id into
     * the cell under the pointer when that cell is on the board; otherwise
     * nothing changes. The cell is found by rounding down (see `PointerCell`).
     */
    method Click(mouseX: real, mouseY: real, sq: real, leftDown: bool, active: int)
      requires Valid() && sq > 0.0
      requires -1 <= active < imagesLoaded
      modifies this`board
      ensures Valid()
      ensures
        var row, col := PointerCell(mouseY - offsetY, sq), PointerCell(mouseX - offsetX, sq);
        if !guiEnabled && leftDown && 0 <= row < rows && 0 <= col < cols
        then board == old(board)[row := old(board)[row][col := active]]
        else board == old(board)
    {
      if !guiEnabled && leftDown {
        var row := PointerCell(mouseY - offsetY, sq);
        var col := PointerCell(mouseX - offsetX, sq);
        if row >= 0 && row < rows && col >= 0 && col < cols {
          board := board[row := board[row][col := active]];
        }
      }
    }

    /** `get_map_data`: the text of the map, as `MapData` describes it. */
    method GetMapData() returns (data: string)
      requires 0 <= imagesLoaded <= |filenames| && CellsIn(board, imagesLoaded)
      ensures data == MapData(rows, cols, board, filenames, imagesLoaded)
    {
      data := IntToString(rows) + " ";
      data := data + IntToString(cols) + " ";
      var used, count, boardString := ScanBoard(board, imagesLoaded);
      data := data + IntToString(count) + "\n";
      var listing := ListUsed(used, filenames, UsedIds(board));
      data := data + listing;
      data := data + boardString;
    }
  }

  /** The ids `used` flags. */
  ghost function Marked(used: seq<bool>): set<int> {
    set k | 0 <= k < |used| && used[k]
  }

  lemma NoneMarked(n: nat)
    ensures Marked(seq(n, _ => false)) == {}
  {
  }

  /** `used` flags exactly the ids in `seen`, and `count` is their number. */
  ghost predicate Tracks(used: seq<bool>, seen: set<int>, count: int) {
    Marked(used) == seen && count == |seen|
  }

  /** Marking cell `j` of row `r`: a texture not yet used is flagged and counted, so `used` and `count` keep in step with the ids seen. */
  method Mark(r: seq<int>, j: nat, used0: seq<bool>, count0: int, ghost seen: set<int>)
    returns (used: seq<bool>, count: int)
    requires j < |r| && (r[j] == -1 || 0 <= r[j] < |used0|)
    requires Tracks(used0, seen + RowIds(r, j), count0)
    ensures |used| == |used0| && Tracks(used, seen + RowIds(r, j + 1), count)
  {
    used, count := used0, count0;
    var cell := r[j];
    ghost var before := seen + RowIds(r, j);
    assert seen + RowIds(r, j + 1) == before + (if cell != -1 then {cell} else {});
    if cell != -1 {
      if !used[cell] {
        used := used[cell := true];
        count := count + 1;
        assert Marked(used) == Marked(used0) + {cell};
      } else {
        assert before + {cell} == before;
      }
    }
  }

  /** One cell of `get_map_data`'s inner loop: marks its id as used and appends its numeral and separator to the row's line. */
  method ScanCell(r: seq<int>, j: nat, used0: seq<bool>, count0: int, text0: string, ghost seen: set<int>)
    returns (used: seq<bool>, count: int, text: string)
    requires j < |r| && (r[j] == -1 || 0 <= r[j] < |used0|)
    requires Tracks(used0, seen + RowIds(r, j), count0) && text0 == Line(Show(r), j)
    ensures |used| == |used0| && Tracks(used, seen + RowIds(r, j + 1), count)
    ensures text == Line(Show(r), j + 1)
  {
    used, count := Mark(r, j, used0, count0, seen);
    var numeral := IntToString(r[j]);
    var sep := if j == |r| - 1 then "\n" else " ";
    LineStep(Show(r), j, text0, numeral, sep);
    text := text0 + numeral + sep;
  }

  /** The outer loop of `get_map_data`: marks the ids used anywhere on the board, counts them, and emits the board's lines. */
  method ScanBoard(b: Board, n: nat) returns (used: seq<bool>, count: int, text: string)
    requires CellsIn(b, n)
    ensures |used| == n && Tracks(used, UsedIds(b), count)
    ensures text == BoardText(b)
  {
    used := seq(n, _ => false);
    count := 0;
    text := "";
    NoneMarked(n);
    var i := 0;
    while i < |b|
      invariant 0 <= i <= |b|
      invariant |used| == n && Tracks(used, BoardIds(b, i), count)
      invariant text == Concat(RowTexts(b)[..i])
    {
      var rowText;
      used, count, rowText := ScanRow(b[i], used, count, BoardIds(b, i));
      ConcatSnoc(RowTexts(b), i, text, rowText);
      text := text + rowText;
      i := i + 1;
    }
    ConcatWhole(RowTexts(b), text);
  }

  /** The inner loop of `get_map_data` over one row: marks the row's ids as used and emits its line. */
  method ScanRow(r: seq<int>, used0: seq<bool>, count0: int, ghost seen: set<int>)
    returns (used: seq<bool>, count: int, text: string)
    requires forall j :: 0 <= j < |r| ==> r[j] == -1 || 0 <= r[j] < |used0|
    requires Tracks(used0, seen, count0)
    ensures |used| == |used0| && Tracks(used, seen + RowIds(r, |r|), count)
    ensures text == RowText(r)
  {
    used, count, text := used0, count0, "";
    assert seen + RowIds(r, 0) == seen;
    var j := 0;
    while j < |r|
      invariant 0 <= j <= |r|
      invariant |used| == |used0| && Tracks(used, seen + RowIds(r, j), count)
      invariant text == Line(Show(r), j)
    {
      used, count, text := ScanCell(r, j, used, count, text, seen);
      j := j + 1;
    }
  }

  /** The second loop of `get_map_data`: one `id filename` line per used id, ascending. */
  method ListUsed(used: seq<bool>, names: seq<string>, ghost seen: set<int>) returns (text: string)
    requires |used| <= |names|
    requires Marked(used) == seen
    ensures text == Listing(IdEntries(IdsBelow(seen, |used|), names))
  {
    text := "";
    var k := 0;
    while k < |used|
      invariant 0 <= k <= |used|
      invariant text == Listing(IdEntries(IdsBelow(seen, k), names))
    {
      var numeral := IntToString(k);
      assert used[k] == (k in seen);
      ListingStep(seen, k, names, text, numeral, used[k]);
      if used[k] {
        text := text + numeral + " ";
        text := text + names[k] + "\n";
      }
      k := k + 1;
    }
  }

  // ---------------------------------------------------------------------------
  // The list view's menu

  /** The number of `;` in `s`. */
  function Semicolons(s: string): nat {
    if s == [] then 0 else Semicolons(s[..|s| - 1]) + if s[|s| - 1] == ';' then 1 else 0
  }

  lemma {:induction false} SemicolonsAppend(a: string, b: string)
    ensures Semicolons(a + b) == Semicolons(a) + Semicolons(b)
    decreases |b|
  {
    if b != [] {
      assert (a + b)[..|a + b| - 1] == a + b[..|b| - 1];
      assert (a + b)[|a + b| - 1] == b[|b| - 1];
      SemicolonsAppend(a, b[..|b| - 1]);
    } else {
      assert a + b == a;
    }
  }

  lemma {:induction false} NoSemicolon(s: string)
    requires ';' !in s
    ensures Semicolons(s) == 0
    decreases |s|
  {
    if s != [] {
      assert s[|s| - 1] in s;
      var p := s[..|s| - 1];
      assert forall i :: 0 <= i < |p| ==> p[i] == s[i];
      NoSemicolon(p);
    }
  }

  /** The items a `;`-separated list offers: one more than its separators. */
  function MenuItems(menu: string): nat {
    Semicolons(menu) + 1
  }

  predicate NoSemicolons(names: seq<string>) {
    forall i :: 0 <= i < |names| ==> ';' !in names[i]
  }

  /** The first `k` file names, each followed by `;` unless its index is `last`. */
  function MenuTo(names: seq<string>, k: nat, last: int): string
    requires k <= |names|
  {
    if k == 0 then "" else MenuTo(names, k - 1, last) + names[k - 1] + (if k - 1 != last then ";" else "")
  }

  /** A separator follows every name but the one at `last`. */
  lemma {:induction false} MenuSemicolons(names: seq<string>, k: nat, last: int)
    requires k <= |names| && NoSemicolons(names)
    ensures Semicolons(MenuTo(names, k, last)) == if 0 <= last < k then k - 1 else k
  {
    if k > 0 {
      MenuSemicolons(names, k - 1, last);
      var prefix, name, sep := MenuTo(names, k - 1, last), names[k - 1], if k - 1 != last then ";" else "";
      SemicolonsAppend(prefix, name);
      SemicolonsAppend(prefix + name, sep);
      NoSemicolon(name);
      assert Semicolons(sep) == if k - 1 != last then 1 else 0;
    }
  }

  /**
   * The menu loop in `main`: every name is followed by `;`, since the test
   * `i != images_loaded` holds for every `i` below `images_loaded`.
   */
  method BuildMenu(names: seq<string>, n: nat) returns (menu: string)
    requires n <= |names|
    ensures menu == MenuTo(names, n, n)
  {
    menu := "";
    var i := 0;
    while i < n
      invariant 0 <= i <= n && menu == MenuTo(names, i, n)
    {
      menu := menu + names[i];
      if i != n {
        menu := menu + ";";
      }
      i := i + 1;
    }
  }

  /** As written, the menu ends in `;` and offers one item more than there are images. */
  lemma MenuHasExtraItem(names: seq<string>, n: nat)
    requires 1 <= n <= |names| && NoSemicolons(names)
    ensures var menu := MenuTo(names, n, n);
      MenuItems(menu) == n + 1 && |menu| >= 1 && menu[|menu| - 1] == ';'
  {
    MenuSemicolons(names, n, n);
  }

  /** `;` between the names, none after the last: the menu the list view is evidently meant to show. */
  function Menu(names: seq<string>, n: nat): string
    requires n <= |names|
  {
    MenuTo(names, n, n - 1)
  }

  /** The corrected menu offers exactly one item per loaded image. */
  lemma MenuItemsPerImage(names: seq<string>, n: nat)
    requires 1 <= n <= |names| && NoSemicolons(names)
    ensures MenuItems(Menu(names, n)) == n
  {
    MenuSemicolons(names, n, n - 1);
  }
}
