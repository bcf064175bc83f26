# Creative-coding demos: verified model of their logic

This project models, in Dafny, the parts of four small raylib demos that are
sequential logic rather than drawing:

- **Game of Life** (`game_of_life.dfy`). `is_valid` and `update_board` are
  modelled on a 40 x 40 `array2<bool>`. `update_board` is proved to compute
  rule B3/S23 from the old board only; the board does not wrap. The paused
  paint of the cell under the pointer is modelled too.
- **Map editor** (`map_editor.dfy`, `map_format.dfy`). The editor's
  `context_t` is a class. It has `reload_board`, the click that writes the
  selected texture id, and `get_map_data`. The exported text is specified by
  `MapData`, and a parser for that text is proved to read every export back.
- **L-systems** (`l_systems.dfy`). This covers the rule table and the
  parallel rewrite loop. It also covers the character interpreter, which
  drives a `Turtle` class and a `states` stack. Rewriting is proved to keep
  brackets balanced and to multiply the number of `F`s by 8. The
  interpreter is proved never to pop an empty stack, and to restore the
  turtle at every `]` and the stack at the end of a frame.
- **Ray caster** (`raycasting.dfy`). Modelled here:
  - `correct_cell` and `fix_angle`;
  - the two grid-line scans of `cast_ray` and its choice between them;
  - `check_collision` and the move/revert step of the player;
  - the colour-shading clamps;
  - the masked floor/ceiling texel index.

Two shared modules hold what the programs take from C++ and raylib:

- `conversions.dfy` holds the C++ `int(x)` truncation, `std::to_string` with its inverse, and `std::min`.
- `raylib.dfy` holds `Vector2`, `Color` and `PI`.

Coordinates and angles are `real`. `tan`, `cosf`/`sinf` (as `Vector2Rotate`
or the turtle's heading) and the L-system colouring function are parameters.

## Model

| member | source | states |
|---|---|---|
| GameOfLife.IsValid | src/game-of-life/main.cpp:16-19 | true exactly when 0 <= x < 40 and 0 <= y < 40 |
| GameOfLife.Step | src/game-of-life/main.cpp:23-42 | the next generation is again a 40 x 40 board |
| GameOfLife.AliveIsNeighbours | src/game-of-life/main.cpp:28-33 | the nine probes of the counting loop count exactly the live on-board cells of the 3 x 3 block, centre excluded |
| GameOfLife.NeighbourBounds | src/game-of-life/main.cpp:28-33 | a cell has at most 8 live neighbours, at most 5 on an edge and at most 3 in a corner |
| GameOfLife.StepIsLocal | src/game-of-life/main.cpp:23-42 | a new cell depends only on the old cells of its 3 x 3 block, so cells across the edge play no part (no wrap) |
| GameOfLife.StepKeepsEmptyBoard | src/game-of-life/main.cpp:23-42 | an all-dead board stays all-dead |
| GameOfLife.UpdateBoard | src/game-of-life/main.cpp:21-43 | afterwards the board holds the B3/S23 successor of the old board, each cell computed from the old board only |
| GameOfLife.CountAlive | src/game-of-life/main.cpp:27-33 | `alive` ends as the number of live neighbours of (sx, sy) |
| GameOfLife.CopyBoard | src/game-of-life/main.cpp:42 | every cell of the destination equals the source's cell |
| GameOfLife.PaintUnderPointer | src/game-of-life/main.cpp:56-63 | while paused, left sets and right clears exactly the cell under the pointer, left taking precedence; no other cell changes, and nothing changes while running |
| MapEditor.ResizedCells | src/raycasting-mapeditor/main.cpp:36-45 | the reloaded board has exactly `rows` rows of `cols` cells; the common region keeps its cells and every other cell is -1 |
| MapEditor.ResizedSameSize | src/raycasting-mapeditor/main.cpp:36-45 | reloading at the board's own size gives the identical board |
| MapEditor.ResizedGrowShrink | src/raycasting-mapeditor/main.cpp:36-45 | growing the board and reloading back to its old size restores it |
| MapEditor.ResizedCellsIn | src/raycasting-mapeditor/main.cpp:36-45 | reloading introduces no texture id other than -1 and those already present |
| MapEditor.TruncatedCellMissesPointer | src/raycasting-mapeditor/main.cpp:161-164 | as written, a pointer less than one square before the board's edge gets cell 0, whose square does not contain it |
| MapEditor.PointerCellContainsPointer | src/raycasting-mapeditor/main.cpp:161-164 | the corrected cell c is the one whose square [c * sq, (c + 1) * sq) contains the pointer |
| MapEditor.PointerCellsAgree | src/raycasting-mapeditor/main.cpp:161-164 | truncation and rounding down agree for positions on or after the board's edge |
| MapEditor.Context.constructor | src/raycasting-mapeditor/main.cpp:96-119 | a 10 x 10 board of -1 except cells (0,0) and (1,0) holding texture 0, offset 0, one image per file, GUI closed |
| MapEditor.Context.ReloadBoard | src/raycasting-mapeditor/main.cpp:33-46 | the new board is the old one resized to the current size (see `ResizedCells`) |
| MapEditor.Context.SetBoardSize | src/raycasting-mapeditor/main.cpp:224-245 | a spinner change within 1..100 sets the size and reloads the board, keeping the editor's invariant |
| MapEditor.Context.Click | src/raycasting-mapeditor/main.cpp:159-170 | with the GUI closed and the left button down, the selected id is written into the cell under the pointer only when that cell is on the board; otherwise the board is unchanged |
| MapEditor.Context.GetMapData | src/raycasting-mapeditor/main.cpp:48-85 | the returned text is `MapData` of the editor's size, board and file names |
| MapEditor.Mark | src/raycasting-mapeditor/main.cpp:62-67 | marking a cell flags and counts its id only the first time, so `used` flags exactly the ids seen and `count` is their number |
| MapEditor.ScanCell | src/raycasting-mapeditor/main.cpp:60-73 | one cell marks its id and appends its numeral with a space, or a newline after the last cell |
| MapEditor.ScanRow | src/raycasting-mapeditor/main.cpp:60-73 | one row marks its ids and emits the row's line |
| MapEditor.ScanBoard | src/raycasting-mapeditor/main.cpp:55-74 | `used` flags exactly the distinct ids on the board, `count` is their number, and the text is the board text |
| MapEditor.ListUsed | src/raycasting-mapeditor/main.cpp:76-81 | one `id filename` line per flagged id, in ascending order |
| MapEditor.MenuSemicolons | src/raycasting-mapeditor/main.cpp:263-269 | a menu built from names without `;` has one `;` per name except the one the test skips |
| MapEditor.BuildMenu | src/raycasting-mapeditor/main.cpp:263-269 | the loop appends every file name followed by `;`, the test `i != images_loaded` never failing inside the loop |
| MapEditor.MenuHasExtraItem | src/raycasting-mapeditor/main.cpp:263-269 | as written, the menu ends in `;` and, split on `;`, offers images_loaded + 1 items |
| MapEditor.MenuItemsPerImage | src/raycasting-mapeditor/main.cpp:263-269 | the corrected menu, with `;` only between names, offers exactly one item per loaded image |
| MapFormat.UsedIdsAreCellIds | src/raycasting-mapeditor/main.cpp:55-67 | the ids the export counts are exactly the distinct cell ids other than -1 |
| MapFormat.UsedIdsBelow | src/raycasting-mapeditor/main.cpp:63-65 | on a board of -1s and ids below `images_loaded`, every used id indexes `used` |
| MapFormat.IdsBelow | src/raycasting-mapeditor/main.cpp:76-77 | every listed id is below the number of loaded images |
| MapFormat.IdsBelowListsIds | src/raycasting-mapeditor/main.cpp:76-81 | the listed ids are strictly ascending, all used, and every used id below the bound is listed |
| MapFormat.IdsBelowCountAll | src/raycasting-mapeditor/main.cpp:75-81 | the header's count equals the number of `id filename` lines |
| MapFormat.ShowReadsBack | src/raycasting-mapeditor/main.cpp:68 | every cell's numeral has no separator and parses back to the cell |
| MapFormat.ParseBoardText | src/raycasting-mapeditor/main.cpp:58-74 | the board text (one line per row, cells separated by single spaces) parses back to the board |
| MapFormat.IdEntriesReadBack | src/raycasting-mapeditor/main.cpp:76-81 | the listing lines parse back to the (id, filename) pairs |
| MapFormat.MapDataRoundTrip | src/raycasting-mapeditor/main.cpp:48-85 | the export parses back to its header (rows, cols), the used ids with their file names in ascending order, and the board |
| Conversions.Min | src/raycasting-mapeditor/main.cpp:37-38 | `std::min` gives the smaller of its two arguments |
| Conversions.Trunc | src/raycasting/main.cpp:65-66 | `int(x)` truncates toward zero: below or at x when x >= 0, above or at x when x < 0, within one of x |
| Conversions.TruncOfIntegral | src/raycasting/main.cpp:88-89 | truncating an integral value gives it back |
| Conversions.DigitValue | src/raycasting-mapeditor/main.cpp:68 | a digit's value is below 10 and gives back the digit |
| Conversions.NatToString | src/raycasting-mapeditor/main.cpp:68 | a natural number's text is a non-empty run of digits without a leading zero |
| Conversions.IntToString | src/raycasting-mapeditor/main.cpp:68 | an integer's text is non-empty, digits with an optional leading minus |
| Conversions.ParseNatToString | src/raycasting-mapeditor/main.cpp:68 | reading a natural number's digits gives the number back |
| Conversions.IntToStringRoundTrip | src/raycasting-mapeditor/main.cpp:52-53 | every integer's text is integer text and reads back as that integer |
| LSystems.Turtle.constructor | src/l-systems/main.cpp:18-19 | the turtle takes the position, thickness and colour, and the heading converted from degrees to radians |
| LSystems.Turtle.Forward | src/l-systems/main.cpp:21-26 | the turtle moves `length` along its heading and one segment from the old to the new position is drawn |
| LSystems.Turtle.Rotate | src/l-systems/main.cpp:28-31 | only the heading changes, by `a` degrees in radians |
| LSystems.Turtle.SetPos | src/l-systems/main.cpp:33-37 | position and heading (degrees to radians) are replaced |
| LSystems.Lookup | src/l-systems/main.cpp:72 | `rules[c]` gives c's rule, or "" when c has none; the table is unchanged when c has a rule, and otherwise gains exactly the entry c -> "" |
| LSystems.RewriteOnce | src/l-systems/main.cpp:70-74 | the inner loop yields one rewrite step of the axiom; every character of the axiom ends up in the table, and the only keys added are characters of the axiom, with empty rules |
| LSystems.Expand | src/l-systems/main.cpp:69-75 | the axiom ends as `iteration` rewrite steps of the start, whatever the default insertions did to the table |
| LSystems.RewriteSameRules | src/l-systems/main.cpp:72 | two tables that give every character the same rule rewrite alike |
| LSystems.RewriteAppend | src/l-systems/main.cpp:69-75 | a rewrite step is the in-order concatenation of the characters' rules: it distributes over concatenation |
| LSystems.SymbolRule | src/l-systems/main.cpp:60-63 | each of `+ - [ ]` has itself as its rule |
| LSystems.SymbolsRewriteToThemselves | src/l-systems/main.cpp:60-63 | a string of `+ - [ ]` rewrites to itself |
| LSystems.UnruledRewriteToEmpty | src/l-systems/main.cpp:72 | characters without a rule rewrite to the empty string |
| LSystems.FRuleCountsF | src/l-systems/main.cpp:59 | the `F` rule holds eight `F`s |
| LSystems.RuleCountsF | src/l-systems/main.cpp:58-64 | every rule other than `F`'s holds no `F` |
| LSystems.RewriteCountsF | src/l-systems/main.cpp:69-75 | a rewrite step multiplies the number of `F`s by 8 |
| LSystems.IterateCountsF | src/l-systems/main.cpp:57-75 | after n steps from "F" the string holds 8^n `F`s |
| LSystems.LowAppend | src/l-systems/main.cpp:102-108 | the stack depth of a concatenation adds up, and its lowest point is the lower of the two parts' |
| LSystems.NoBrackets | src/l-systems/main.cpp:96-101 | a string without brackets leaves the stack depth unchanged throughout |
| LSystems.LevelAppend | src/l-systems/main.cpp:102-108 | two strings that each return to their starting depth without going below it concatenate into one |
| LSystems.WrapBalanced | src/l-systems/main.cpp:102-108 | a balanced string wrapped in `[` `]` is balanced |
| LSystems.FRuleLevel | src/l-systems/main.cpp:59 | the `F` rule is balanced |
| LSystems.RulesRespectBrackets | src/l-systems/main.cpp:58-64 | every rule has the bracket depth of the character it replaces and never dips below it |
| LSystems.RewriteKeepsBrackets | src/l-systems/main.cpp:69-75 | rewriting with such rules keeps the depth and never lowers the lowest point |
| LSystems.IterateBalanced | src/l-systems/main.cpp:57-75 | every iterate of the axiom is balanced: each `]` closes an earlier `[` and every `[` is closed |
| LSystems.ApplyChanges | src/l-systems/main.cpp:86-111 | `+`/`-` change only the heading; `F` changes only position and colour and draws one segment; `[` pushes (pos, angle); `]` restores the top entry and pops it; any other character changes nothing |
| LSystems.RunTo | src/l-systems/main.cpp:84-113 | after any prefix the stack is as deep as its `[`s less its `]`s |
| LSystems.RunAppend | src/l-systems/main.cpp:84-113 | interpreting a concatenation interprets the parts in turn, and the second part's `]`s still find entries |
| LSystems.BalancedKeepsStack | src/l-systems/main.cpp:102-108 | a balanced string leaves the stack as it found it |
| LSystems.BracketRestores | src/l-systems/main.cpp:102-108 | `[` w `]` with w balanced restores the pushed position and heading and the stack |
| LSystems.DrawsPerF | src/l-systems/main.cpp:87-95 | one segment is drawn per `F` |
| LSystems.UnknownIgnored | src/l-systems/main.cpp:110-111 | characters outside `F + - [ ]` change nothing |
| LSystems.Step | src/l-systems/main.cpp:85-112 | one case of the switch acts on the turtle and the stack as `Apply` says |
| LSystems.Interpret | src/l-systems/main.cpp:84-113 | the loop leaves the turtle, stack and drawing as the interpreter specification `Run` says; no `]` meets an empty stack |
| LSystems.Frame | src/l-systems/main.cpp:79-113 | a frame resets the turtle, draws one segment per `F` and leaves the stack as it found it |
| LSystems.Demo | src/l-systems/main.cpp:54-116 | the axiom is the 4th iterate of "F", and every frame draws 8^4 segments with the stack empty between frames |
| Raycasting.BoardIsMap | src/raycasting/main.cpp:14-23 | the map is 8 x 8 |
| Raycasting.CorrectCellIndexes | src/raycasting/main.cpp:48-51 | `correct_cell(x, y)` holds exactly when `board[x][y]` exists |
| Raycasting.WrapDownSpec | src/raycasting/main.cpp:56 | the first loop ends at or below PI, having taken off whole turns, and changes nothing at or below PI |
| Raycasting.WrapUpSpec | src/raycasting/main.cpp:57 | the second loop ends in [-PI, PI], having added whole turns, and changes nothing in range |
| Raycasting.NormalizedSpec | src/raycasting/main.cpp:53-59 | the result lies in [-PI, PI], differs from the input by whole turns, and equals it when it is already in range |
| Raycasting.FixAngle | src/raycasting/main.cpp:53-59 | the loops terminate with the normalised angle, in [-PI, PI] and a whole number of turns from the input |
| Raycasting.ProbeLine | src/raycasting/main.cpp:74-89 | step k strikes column (or row) start + 1 + k when the ray points ahead and start - 1 - k otherwise, whatever tan(dir) is |
| Raycasting.StopStepFirst | src/raycasting/main.cpp:96-99 | a scan stops at the first cell that is off the board or a wall; every cell probed before was on the board and empty |
| Raycasting.StopStepBound | src/raycasting/main.cpp:71-100 | a scan stops at the latest where its line leaves the board |
| Raycasting.ScanSteps | src/raycasting/main.cpp:71-100 | from a cell on the board, each scan loop runs at most 8 times |
| Raycasting.Scan | src/raycasting/main.cpp:103-132 | the scan loop terminates with the hit the scan specification gives |
| Raycasting.CastRay | src/raycasting/main.cpp:61-140 | `cast_ray` returns the hit `Cast` specifies |
| Raycasting.CastSpec | src/raycasting/main.cpp:134-139 | the ray's hit is horizontal exactly when the horizontal hit is strictly closer (ties go to the vertical hit); it is no farther than either hit, it stops on an off-board or wall cell, and it carries the normalised angle |
| Raycasting.CheckCollision | src/raycasting/main.cpp:142-154 | true exactly when one of the 8 samples at -PI + i PI/4 lies in a wall |
| Raycasting.Player.constructor | src/raycasting/main.cpp:161-166 | the player starts in the centre, facing right, speed 100, field of view 60, 240 rays |
| Raycasting.Player.Move | src/raycasting/main.cpp:210-212 | the player moves by `move` unless the new position collides, in which case it is back exactly where it was; a clear player stays clear |
| Raycasting.Clamp | src/raycasting/main.cpp:283 | the result lies in [lo, hi]: it is lo below the range, hi above it, and v inside it |
| Raycasting.Shade | src/raycasting/main.cpp:283-285 | a shaded channel stays in [0, 255], never exceeds the channel for shading >= 0, is exactly c - shading when that is in range, is 0 exactly when c - shading <= 0 and 255 exactly when c - shading >= 255 |
| Raycasting.ShadePixel | src/raycasting/main.cpp:283-285 | shading keeps the alpha channel and darkens each colour channel |
| Raycasting.WallShading | src/raycasting/main.cpp:260 | the wall shading is non-negative for a non-negative distance and below 128 within 900 units |
| Raycasting.RowShading | src/raycasting/main.cpp:301 | the row shading lies in [0, 640 * 28] for positive rows and is at most 56 in the lower half of the screen |
| Raycasting.BitAndBelow | src/raycasting/main.cpp:305 | `a & b` is at most b |
| Raycasting.BitAndLowBits | src/raycasting/main.cpp:305 | masking with 2^e - 1 gives the remainder modulo 2^e |
| Raycasting.BitsModulo | src/raycasting/main.cpp:305 | reading a 32-bit int as unsigned keeps its remainder modulo 2^e |
| Raycasting.MaskBounds | src/raycasting/main.cpp:305 | `x & (fw - 1)` lies in [0, fw) for every 32-bit x, negative ones included |
| Raycasting.MaskIsModulo | src/raycasting/main.cpp:305 | for a power-of-two width the mask is the non-negative remainder of x |
| Raycasting.TexelIndex | src/raycasting/main.cpp:305 | the floor/ceiling texel index lies in [0, fw * fw) for every int tx, ty |

## Left out

- Drawing, windows, timing, keyboard and mouse input, and GUI widgets are left out. They are foreign raylib calls. The turtle's `DrawLineEx` calls are recorded as segments. Mouse positions, button states and spinner values are parameters.
- Floating point is modelled as exact `real` arithmetic, so float rounding is not modelled.
- `tan`, `cosf`, `sinf`, `Vector2Rotate` and the L-system `coloring` are function parameters.
- `Vector2Length` is compared through the squared length; the square root is monotone, so the comparison is the same.
- The frame loops run a given number of frames in `LSystems.Demo`. In the other programs, one frame's step is a method.
- Map editor:
  - The `./resources` directory listing and image loading are left out; the file names are a constructor parameter.
  - Writing the map file is left out.
  - The pan offset update, the zoom keys and the texture resize cache are left out; `sq` is a parameter of the click.
  - The list-view menu string and the preview texture are left out.
- Ray caster:
  - The floor/ceiling back-projection is left out (src/raycasting/main.cpp:293-324), except its texel index and row shading.
  - The per-frame ray fan (lines 246-251) is left out.
  - The wall-column texture lookup and geometry (lines 253-291) are left out, including the unchecked `images[board[...]]` index of an escaped ray.
  - The mouse-driven 2-D steering mode is left out.
  - The mini-map drawing is left out.
- `Raycasting.CheckCollision`: the float loop `angle += PI / 4` is modelled as exactly 8 samples at -PI + i PI/4; float accumulation could add or drop a sample.
- `Raycasting.CheckCollision`: requires every sample to be on the board, because the source indexes `board` without a bounds check.
- `Raycasting.CastRay`: requires `tan(dir) != 0`, since the horizontal scan divides by it. Axis-parallel rays are not special-cased by the source either.
- `Raycasting.CastRay`: casts against the program's own map. The scan lemmas hold for any 8 x 8 map.
- `Raycasting.Mask`: the mask is modelled on integers through `BitAnd` on the 32-bit two's-complement pattern, with `fw` a positive int below 2^31.
- `Raycasting.TexelIndex`: requires `fw * fw` to fit in an `int` (at most 2^31), as it must for the product not to overflow.
- `GameOfLife.PaintUnderPointer`: requires the pointer inside the window, since the source indexes the board without a check.
- `LSystems.Interpret`: requires every `]` to find an entry (`Safe`), since `top`/`pop` on an empty `std::stack` is undefined. `IterateBalanced` shows that the program's own axiom meets this.
- `MapEditor.Context.constructor`: requires at least one file. The initial board holds texture 0, and `get_map_data` indexes `used` by it.
- `MapEditor.Context.Click`: uses the rounded-down cell (see Findings), not the truncated one.
- `MapEditor.Context.Click`: requires the selected item `active` to be -1 or the index of a loaded image. This is an assumption about `GuiListView`, a foreign call whose result the source writes into the board unchecked (src/raycasting-mapeditor/main.cpp:168). The invariant `Valid` (every cell is -1 or a loaded image) and so `GetMapData` rest on it. The menu's trailing `;` (see Findings) suggests it can fail.
- `MapEditor.BuildMenu`: how raygui splits the menu into items is not part of this model; `MenuItems` takes one item per `;`-separated field. File names are assumed to hold no `;`.
- The `include/raylib-ext.hpp` wrappers are not part of this model, beyond the vector operators in `raylib.dfy`.

## Findings

| source | as written | input that shows it | evidently intended | confidence | as-written member | corrected member |
|---|---|---|---|---|---|---|
| src/raycasting-mapeditor/main.cpp:163-164 | `int(mp.y / sq)` and `int(mp.x / sq)` truncate toward zero, so a pointer up to one square above or left of the board gets row or column 0 and passes the bounds check | offset 0, sq = 40, pointer at y = -20: `int(-0.5) == 0`, so a click above the board writes row 0 | the cell whose square contains the pointer (round down), so clicks outside the board change nothing | not executed | MapEditor.TruncatedCellMissesPointer | MapEditor.PointerCellContainsPointer |
| src/raycasting-mapeditor/main.cpp:263-269 | the menu loop appends `;` when `i != images_loaded`, which always holds for `i < images_loaded`, so the menu ends in `;` | two files `a`, `b`: the menu is `a;b;`, three `;`-separated fields, the last empty; selecting it gives `listViewActive == 2`, an id with no image | `;` between names only (`a;b`), one item per image | not executed | MapEditor.MenuHasExtraItem | MapEditor.MenuItemsPerImage |
