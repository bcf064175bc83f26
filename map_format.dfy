/**
 * The text the map editor exports (`context_t::get_map_data`), as functions on
 * values: a header line `rows cols count`, one `id filename` line for every
 * texture id the board uses, in ascending order, and then the board, one line
 * per row with the cells separated by single spaces. A parser for that text
 * is given as well, and the export is proved to be decodable by it.
 */
module MapFormat {
  import opened Conversions

  /** The board: rows of cell ids, `-1` for an empty cell. */
  type Board = seq<seq<int>>

  datatype Option<T> = None | Some(value: T)

  /** Every cell is empty (`-1`) or the id of one of the `n` loaded images. */
  predicate CellsIn(b: Board, n: int) {
    forall i, j :: 0 <= i < |b| && 0 <= j < |b[i]| ==> b[i][j] == -1 || 0 <= b[i][j] < n
  }

  // ---------------------------------------------------------------------------
  // The ids in use

  /** The ids other than -1 among the first `j` cells of a row. */
  function RowIds(r: seq<int>, j: nat): set<int>
    requires j <= |r|
  {
    if j == 0 then {} else RowIds(r, j - 1) + if r[j - 1] != -1 then {r[j - 1]} else {}
  }

  /** The ids other than -1 in the first `i` rows. */
  function BoardIds(b: Board, i: nat): set<int>
    requires i <= |b|
  {
    if i == 0 then {} else BoardIds(b, i - 1) + RowIds(b[i - 1], |b[i - 1]|)
  }

  /** The ids the export marks as used, in the order its loops visit the cells. */
  function UsedIds(b: Board): set<int> {
    BoardIds(b, |b|)
  }

  /** Reference definition: the distinct cell ids other than -1. */
  function CellIds(b: Board): set<int> {
    set i, j | 0 <= i < |b| && 0 <= j < |b[i]| && b[i][j] != -1 :: b[i][j]
  }

  lemma {:induction false} RowIdsMember(r: seq<int>, j: nat, id: int)
    requires j <= |r|
    ensures id in RowIds(r, j) <==> id != -1 && exists k :: 0 <= k < j && r[k] == id
    decreases j
  {
    if j > 0 {
      RowIdsMember(r, j - 1, id);
    }
  }

  lemma {:induction false} BoardIdsMember(b: Board, i: nat, id: int)
    requires i <= |b|
    ensures id in BoardIds(b, i) <==> id != -1 && exists r, k :: 0 <= r < i && 0 <= k < |b[r]| && b[r][k] == id
    decreases i
  {
    if i > 0 {
      BoardIdsMember(b, i - 1, id);
      RowIdsMember(b[i - 1], |b[i - 1]|, id);
      if id in RowIds(b[i - 1], |b[i - 1]|) {
        var k :| 0 <= k < |b[i - 1]| && b[i - 1][k] == id;
        assert 0 <= i - 1 < i && b[i - 1][k] == id;
      }
    }
  }

  /** The ids the export counts are exactly the distinct ids other than -1 on the board. */
  lemma UsedIdsAreCellIds(b: Board)
    ensures UsedIds(b) == CellIds(b)
  {
    forall id | id in UsedIds(b)
      ensures id in CellIds(b)
    {
      BoardIdsMember(b, |b|, id);
    }
    forall id | id in CellIds(b)
      ensures id in UsedIds(b)
    {
      var i, j :| 0 <= i < |b| && 0 <= j < |b[i]| && b[i][j] != -1 && b[i][j] == id;
      BoardIdsMember(b, |b|, id);
    }
  }

  /** On a board whose cells are -1 or below `n`, every used id is an image index below `n`. */
  lemma UsedIdsBelow(b: Board, n: int)
    requires CellsIn(b, n)
    ensures forall id :: id in UsedIds(b) ==> 0 <= id < n
  {
    UsedIdsAreCellIds(b);
  }

  /** The ids of `ids` below `n`, in the order the export's loop over `used` visits them. */
  function IdsBelow(ids: set<int>, n: nat): (r: seq<int>)
    ensures forall k :: 0 <= k < |r| ==> 0 <= r[k] < n
  {
    if n == 0 then [] else IdsBelow(ids, n - 1) + if n - 1 in ids then [n - 1] else []
  }

  /** The listed ids are ascending, all taken from `ids`, and every id of `ids` below `n` is listed. */
  lemma {:induction false} IdsBelowListsIds(ids: set<int>, n: nat)
    ensures forall k :: 0 <= k < |IdsBelow(ids, n)| ==> IdsBelow(ids, n)[k] in ids
    ensures forall k, l :: 0 <= k < l < |IdsBelow(ids, n)| ==> IdsBelow(ids, n)[k] < IdsBelow(ids, n)[l]
    ensures forall x :: x in ids && 0 <= x < n ==> x in IdsBelow(ids, n)
    decreases n
  {
    if n > 0 {
      IdsBelowListsIds(ids, n - 1);
    }
  }

  /** The ids of `ids` in `[0, n)`. */
  function Below(ids: set<int>, n: nat): (r: set<int>)
    ensures forall x :: x in r ==> 0 <= x < n
  {
    if n == 0 then {} else Below(ids, n - 1) + if n - 1 in ids then {n - 1} else {}
  }

  lemma {:induction false} BelowMembers(ids: set<int>, n: nat)
    ensures forall x :: x in Below(ids, n) <==> x in ids && 0 <= x < n
    decreases n
  {
    if n > 0 {
      BelowMembers(ids, n - 1);
    }
  }

  /** Listing the ids ascending lists each of them once. */
  lemma {:induction false} IdsBelowCount(ids: set<int>, n: nat)
    ensures |IdsBelow(ids, n)| == |Below(ids, n)|
    decreases n
  {
    if n > 0 {
      IdsBelowCount(ids, n - 1);
      var before := Below(ids, n - 1);
      assert n - 1 !in before;
      if n - 1 in ids {
        assert Below(ids, n) == before + {n - 1};
      } else {
        assert Below(ids, n) == before;
      }
    }
  }

  /** When every id lies below `n`, the export lists as many ids as the header counts. */
  lemma IdsBelowCountAll(ids: set<int>, n: nat)
    requires forall x :: x in ids ==> 0 <= x < n
    ensures |IdsBelow(ids, n)| == |ids|
  {
    IdsBelowCount(ids, n);
    BelowMembers(ids, n);
    forall x | x in ids
      ensures x in Below(ids, n)
    {
    }
    assert Below(ids, n) == ids;
  }

  // ---------------------------------------------------------------------------
  // The exported text

  /** The separator written after token `k` of a line: a newline after the last one, a space otherwise. */
  function Sep(toks: seq<string>, k: int): string {
    if k == |toks| - 1 then "\n" else " "
  }

  /** The first `j` tokens of a line as the export writes them, in the order its loop appends them. */
  function Line(toks: seq<string>, j: nat): string
    requires j <= |toks|
  {
    if j == 0 then "" else Line(toks, j - 1) + toks[j - 1] + Sep(toks, j - 1)
  }

  /** The decimal texts of a row's cells. */
  function Show(r: seq<int>): (toks: seq<string>)
    ensures |toks| == |r| && forall j :: 0 <= j < |r| ==> toks[j] == IntToString(r[j])
  {
    if r == [] then [] else Show(r[..|r| - 1]) + [IntToString(r[|r| - 1])]
  }

  function RowText(r: seq<int>): string {
    Line(Show(r), |r|)
  }

  /** Strings one after another, appended in order. */
  function Concat(ls: seq<string>): string {
    if ls == [] then "" else Concat(ls[..|ls| - 1]) + ls[|ls| - 1]
  }

  function RowTexts(b: Board): (ls: seq<string>)
    ensures |ls| == |b| && forall i :: 0 <= i < |b| ==> ls[i] == RowText(b[i])
  {
    if b == [] then [] else RowTexts(b[..|b| - 1]) + [RowText(b[|b| - 1])]
  }

  /** The board part of the export: the rows' lines one after another. */
  function BoardText(b: Board): string {
    Concat(RowTexts(b))
  }

  /** An `id filename` line of the export, for already converted id text. */
  function EntryText(e: (string, string)): string {
    e.0 + " " + e.1 + "\n"
  }

  /** The lines of a sequence of entries, in order. */
  function Listing(es: seq<(string, string)>): string {
    if es == [] then "" else Listing(es[..|es| - 1]) + EntryText(es[|es| - 1])
  }

  predicate IdsIn(ids: seq<int>, n: int) {
    forall k :: 0 <= k < |ids| ==> 0 <= ids[k] < n
  }

  /** The `(id text, filename)` entries for the given ids. */
  function IdEntries(ids: seq<int>, names: seq<string>): (es: seq<(string, string)>)
    requires IdsIn(ids, |names|)
    ensures |es| == |ids| && forall k :: 0 <= k < |ids| ==> es[k] == (IntToString(ids[k]), names[ids[k]])
  {
    if ids == [] then [] else IdEntries(ids[..|ids| - 1], names) + [(IntToString(ids[|ids| - 1]), names[ids[|ids| - 1]])]
  }

  function Header(rows: int, cols: int, count: int): string {
    IntToString(rows) + " " + IntToString(cols) + " " + IntToString(count) + "\n"
  }

  /** `get_map_data`: the header, the lines of the used ids below `n` in ascending order, then the board. */
  function MapData(rows: int, cols: int, b: Board, names: seq<string>, n: nat): string
    requires n <= |names|
  {
    Header(rows, cols, |UsedIds(b)|) + Listing(IdEntries(IdsBelow(UsedIds(b), n), names)) + BoardText(b)
  }

  // ---------------------------------------------------------------------------
  // How the export's loops extend the text

  /** Appending the next string to the concatenation of a prefix gives the concatenation of the longer prefix. */
  lemma ConcatSnoc(ls: seq<string>, i: nat, text: string, next: string)
    requires i < |ls| && text == Concat(ls[..i]) && next == ls[i]
    ensures text + next == Concat(ls[..i + 1])
  {
    assert ls[..i + 1][..i] == ls[..i];
  }

  lemma ConcatWhole(ls: seq<string>, text: string)
    requires text == Concat(ls[..|ls|])
    ensures text == Concat(ls)
  {
    assert ls[..|ls|] == ls;
  }

  lemma LineStep(toks: seq<string>, j: nat, text: string, tok: string, sep: string)
    requires j < |toks| && text == Line(toks, j) && tok == toks[j] && sep == Sep(toks, j)
    ensures Line(toks, j + 1) == text + tok + sep
  {
  }

  /** Appending an entry's id, a space, its filename and a newline extends the listing by that entry. */
  lemma ListingSnoc(es: seq<(string, string)>, e: (string, string), text: string)
    requires text == Listing(es)
    ensures text + e.0 + " " + e.1 + "\n" == Listing(es + [e])
  {
    assert (es + [e])[..|es|] == es;
    assert text + e.0 + " " + e.1 + "\n" == text + EntryText(e);
  }

  lemma IdEntriesSnoc(ids: seq<int>, id: int, names: seq<string>)
    requires IdsIn(ids, |names|) && 0 <= id < |names|
    ensures IdsIn(ids + [id], |names|)
    ensures IdEntries(ids + [id], names) == IdEntries(ids, names) + [(IntToString(id), names[id])]
  {
    assert (ids + [id])[..|ids|] == ids;
  }

  /** One step of the export's second loop: id `k` adds its line exactly when it is among `ids`. */
  lemma ListingStep(ids: set<int>, k: nat, names: seq<string>, text: string, numeral: string, listed: bool)
    requires k < |names| && text == Listing(IdEntries(IdsBelow(ids, k), names)) && numeral == IntToString(k)
    requires listed == (k in ids)
    ensures Listing(IdEntries(IdsBelow(ids, k + 1), names)) == if listed then text + numeral + " " + names[k] + "\n" else text
  {
    var before := IdsBelow(ids, k);
    if listed {
      assert IdsBelow(ids, k + 1) == before + [k];
      IdEntriesSnoc(before, k, names);
      ListingSnoc(IdEntries(before, names), (numeral, names[k]), text);
    } else {
      assert IdsBelow(ids, k + 1) == before;
    }
  }

  // ---------------------------------------------------------------------------
  // A reader for the exported text

  datatype MapFile = MapFile(rows: int, cols: int, textures: seq<(int, string)>, board: Board)

  predicate IsSeparator(c: char) {
    c == ' ' || c == '\n'
  }

  predicate NoSeparator(s: string) {
    forall k :: 0 <= k < |s| ==> !IsSeparator(s[k])
  }

  /** The longest prefix of `s` without a space or newline. */
  function Token(s: string): (t: string)
    ensures t <= s && NoSeparator(t)
    ensures |t| < |s| ==> IsSeparator(s[|t|])
  {
    if s == [] || IsSeparator(s[0]) then [] else [s[0]] + Token(s[1..])
  }

  /** The longest prefix of `s` without a newline. */
  function LineText(s: string): (t: string)
    ensures t <= s && '\n' !in t
    ensures |t| < |s| ==> s[|t|] == '\n'
  {
    if s == [] || s[0] == '\n' then [] else [s[0]] + LineText(s[1..])
  }

  /** Reads integers separated by single spaces up to and including a newline. */
  function ParseCells(s: string): (r: Option<(seq<int>, string)>)
    ensures r.Some? ==> |r.value.1| < |s|
    decreases |s|
  {
    var t := Token(s);
    if |t| == |s| || !IsIntText(t) then None
    else if s[|t|] == '\n' then Some(([ParseInt(t)], s[|t| + 1..]))
    else match ParseCells(s[|t| + 1..])
      case None => None
      case Some((cells, rest)) => Some(([ParseInt(t)] + cells, rest))
  }

  /** Reads rows of cells up to the end of the text. */
  function ParseRows(s: string): Option<Board>
    decreases |s|
  {
    if s == [] then Some([])
    else match ParseCells(s)
      case None => None
      case Some((row, rest)) =>
        match ParseRows(rest)
        case None => None
        case Some(rows) => Some([row] + rows)
  }

  /** Reads `count` lines of the form `id filename`. */
  function ParseTextures(s: string, count: nat): Option<(seq<(int, string)>, string)>
    decreases count
  {
    if count == 0 then Some(([], s))
    else
      var t := Token(s);
      if |t| == |s| || s[|t|] != ' ' || !IsIntText(t) then None
      else
        var tail := s[|t| + 1..];
        var name := LineText(tail);
        if |name| == |tail| then None
        else match ParseTextures(tail[|name| + 1..], count - 1)
          case None => None
          case Some((entries, rest)) => Some(([(ParseInt(t), name)] + entries, rest))
  }

  function ParseMap(s: string): Option<MapFile> {
    match ParseCells(s)
    case None => None
    case Some((header, rest)) =>
      if |header| != 3 || header[2] < 0 then None
      else match ParseTextures(rest, header[2])
        case None => None
        case Some((textures, rest')) =>
          match ParseRows(rest')
          case None => None
          case Some(board) => Some(MapFile(header[0], header[1], textures, board))
  }


  // ---------------------------------------------------------------------------
  // The exported text reads back

  lemma IntTextHasNoSeparator(n: int)
    ensures NoSeparator(IntToString(n)) && IsIntText(IntToString(n)) && ParseInt(IntToString(n)) == n
  {
    IntToStringRoundTrip(n);
  }

  lemma {:induction false} TokenOf(t: string, rest: string)
    requires NoSeparator(t)
    requires 1 <= |rest| && IsSeparator(rest[0])
    ensures Token(t + rest) == t
    decreases |t|
  {
    if t == [] {
      assert t + rest == rest;
    } else {
      assert (t + rest)[0] == t[0];
      assert (t + rest)[1..] == t[1..] + rest;
      TokenOf(t[1..], rest);
      assert [t[0]] + t[1..] == t;
    }
  }

  lemma {:induction false} LineTextOf(t: string, rest: string)
    requires '\n' !in t
    requires 1 <= |rest| && rest[0] == '\n'
    ensures LineText(t + rest) == t
    decreases |t|
  {
    if t == [] {
      assert t + rest == rest;
    } else {
      assert (t + rest)[0] == t[0] && t[0] in t;
      assert (t + rest)[1..] == t[1..] + rest;
      assert forall c :: c in t[1..] ==> c in t;
      LineTextOf(t[1..], rest);
      assert [t[0]] + t[1..] == t;
    }
  }

  /** Tokens `k..` of a line, built from the front. */
  function LineFrom(toks: seq<string>, k: nat): string
    requires k <= |toks|
    decreases |toks| - k
  {
    if k == |toks| then "" else toks[k] + Sep(toks, k) + LineFrom(toks, k + 1)
  }

  lemma {:induction false} LineSplit(toks: seq<string>, j: nat)
    requires j <= |toks|
    ensures Line(toks, j) + LineFrom(toks, j) == LineFrom(toks, 0)
    decreases j
  {
    if j > 0 {
      LineSplit(toks, j - 1);
      var a, t, e, rest := Line(toks, j - 1), toks[j - 1], Sep(toks, j - 1), LineFrom(toks, j);
      assert a + t + e + rest == a + (t + e + rest);
    }
  }

  /** Tokens that the reader takes as integers. */
  predicate Numerals(toks: seq<string>) {
    forall k :: 0 <= k < |toks| ==> NoSeparator(toks[k]) && IsIntText(toks[k])
  }

  function Values(toks: seq<string>): (v: seq<int>)
    requires Numerals(toks)
    ensures |v| == |toks|
  {
    if toks == [] then [] else [ParseInt(toks[0])] + Values(toks[1..])
  }

  /** One numeral followed by a separator is read as one cell; after a space, reading goes on. */
  lemma ParseCell(t: string, sep: string, tail: string)
    requires NoSeparator(t) && IsIntText(t) && (sep == " " || sep == "\n")
    ensures ParseCells(t + sep + tail) ==
            if sep == "\n" then Some(([ParseInt(t)], tail))
            else match ParseCells(tail)
              case None => None
              case Some((cells, rest)) => Some(([ParseInt(t)] + cells, rest))
  {
    var s := t + sep + tail;
    assert s == t + (sep + tail);
    TokenOf(t, sep + tail);
    assert s[|t|] == sep[0] && s[|t| + 1..] == tail;
  }

  lemma {:induction false} ParseLineFrom(toks: seq<string>, k: nat, rest: string)
    requires Numerals(toks) && k < |toks|
    ensures ParseCells(LineFrom(toks, k) + rest) == Some((Values(toks[k..]), rest))
    decreases |toks| - k
  {
    var t, sep := toks[k], Sep(toks, k);
    var tail := LineFrom(toks, k + 1) + rest;
    assert LineFrom(toks, k) + rest == t + sep + tail;
    ParseCell(t, sep, tail);
    assert toks[k..][0] == t && toks[k..][1..] == toks[k + 1..];
    assert Values(toks[k..]) == [ParseInt(t)] + Values(toks[k + 1..]);
    if k == |toks| - 1 {
      assert toks[k + 1..] == [] && tail == rest;
      assert Values(toks[k..]) == [ParseInt(t)];
    } else {
      ParseLineFrom(toks, k + 1, rest);
    }
  }

  lemma {:induction false} ValuesAre(toks: seq<string>, r: seq<int>)
    requires Numerals(toks) && |toks| == |r|
    requires forall k :: 0 <= k < |r| ==> ParseInt(toks[k]) == r[k]
    ensures Values(toks) == r
    decreases |r|
  {
    if r != [] {
      ValuesAre(toks[1..], r[1..]);
      assert r == [r[0]] + r[1..];
    }
  }

  /** The decimal texts of the cells are numerals that read back as the cells. */
  lemma ShowReadsBack(r: seq<int>)
    ensures Numerals(Show(r)) && Values(Show(r)) == r
  {
    var toks := Show(r);
    forall j | 0 <= j < |r|
      ensures NoSeparator(toks[j]) && IsIntText(toks[j]) && ParseInt(toks[j]) == r[j]
    {
      IntTextHasNoSeparator(r[j]);
    }
    ValuesAre(toks, r);
  }

  /** A non-empty row's line reads back as the row. */
  lemma ParseRowText(r: seq<int>, rest: string)
    requires 1 <= |r|
    ensures ParseCells(RowText(r) + rest) == Some((r, rest))
  {
    var toks := Show(r);
    ShowReadsBack(r);
    LineSplit(toks, |toks|);
    assert RowText(r) == LineFrom(toks, 0);
    ParseLineFrom(toks, 0, rest);
    assert toks[0..] == toks;
  }

  lemma {:induction false} ConcatCons(ls: seq<string>)
    requires 1 <= |ls|
    ensures Concat(ls) == ls[0] + Concat(ls[1..])
    decreases |ls|
  {
    if |ls| == 1 {
      assert ls[..0] == [] && ls[1..] == [];
    } else {
      var front := ls[..|ls| - 1];
      ConcatCons(front);
      assert front[0] == ls[0];
      assert front[1..] == ls[1..][..|ls| - 2];
      assert ls[1..][|ls| - 2] == ls[|ls| - 1];
    }
  }

  /** Lines that each read back as one row read back, together, as all the rows. */
  lemma {:induction false} ParseConcat(ls: seq<string>, b: Board)
    requires |ls| == |b|
    requires forall i, rest :: 0 <= i < |ls| ==> ParseCells(ls[i] + rest) == Some((b[i], rest))
    ensures ParseRows(Concat(ls)) == Some(b)
    decreases |ls|
  {
    if ls != [] {
      ConcatCons(ls);
      var rest := Concat(ls[1..]);
      assert ParseCells(ls[0] + rest) == Some((b[0], rest));
      assert ls[0] + rest != [];
      forall i, r | 0 <= i < |ls| - 1
        ensures ParseCells(ls[1..][i] + r) == Some((b[1..][i], r))
      {
        assert ls[1..][i] == ls[i + 1] && b[1..][i] == b[i + 1];
      }
      ParseConcat(ls[1..], b[1..]);
      assert [b[0]] + b[1..] == b;
    }
  }

  /** The board's text reads back as the board, provided no row is empty (an empty row prints nothing). */
  lemma ParseBoardText(b: Board)
    requires forall i :: 0 <= i < |b| ==> 1 <= |b[i]|
    ensures ParseRows(BoardText(b)) == Some(b)
  {
    var ls := RowTexts(b);
    forall i, rest | 0 <= i < |ls|
      ensures ParseCells(ls[i] + rest) == Some((b[i], rest))
    {
      ParseRowText(b[i], rest);
    }
    ParseConcat(ls, b);
  }

  lemma LineOfThree(a: string, b: string, c: string)
    ensures Line([a, b, c], 3) == a + " " + b + " " + c + "\n"
  {
    var toks := [a, b, c];
    assert Line(toks, 1) == a + " ";
    assert Line(toks, 2) == a + " " + b + " ";
  }

  /** The header is a line of three cells. */
  lemma HeaderIsRow(rows: int, cols: int, count: int)
    ensures Header(rows, cols, count) == RowText([rows, cols, count])
  {
    var r := [rows, cols, count];
    assert Show(r) == [IntToString(rows), IntToString(cols), IntToString(count)];
    LineOfThree(IntToString(rows), IntToString(cols), IntToString(count));
  }

  lemma {:induction false} ListingCons(es: seq<(string, string)>)
    requires 1 <= |es|
    ensures Listing(es) == EntryText(es[0]) + Listing(es[1..])
    decreases |es|
  {
    if |es| > 1 {
      var front := es[..|es| - 1];
      ListingCons(front);
      assert front[1..] == es[1..][..|es| - 2];
      assert es[1..][|es| - 2] == es[|es| - 1];
    } else {
      assert es[..0] == [] && es[1..] == [];
    }
  }

  /** Entries whose id text is a numeral and whose filename has no newline. */
  predicate Readable(es: seq<(string, string)>) {
    forall k :: 0 <= k < |es| ==> NoSeparator(es[k].0) && IsIntText(es[k].0) && '\n' !in es[k].1
  }

  function ReadEntries(es: seq<(string, string)>): (r: seq<(int, string)>)
    requires Readable(es)
    ensures |r| == |es|
  {
    if es == [] then [] else [(ParseInt(es[0].0), es[0].1)] + ReadEntries(es[1..])
  }

  /** One `id filename` line is read as one entry, and reading goes on after its newline. */
  lemma ParseEntry(key: string, name: string, after: string, count: nat)
    requires NoSeparator(key) && IsIntText(key) && '\n' !in name
    ensures ParseTextures(EntryText((key, name)) + after, count + 1) ==
            match ParseTextures(after, count)
            case None => None
            case Some((entries, rest)) => Some(([(ParseInt(key), name)] + entries, rest))
  {
    var s := EntryText((key, name)) + after;
    assert s == key + (" " + (name + ("\n" + after)));
    TokenOf(key, " " + (name + ("\n" + after)));
    var tail := s[|key| + 1..];
    assert tail == name + ("\n" + after);
    LineTextOf(name, "\n" + after);
    assert tail[|name| + 1..] == after;
  }

  lemma {:induction false} ParseListing(es: seq<(string, string)>, rest: string)
    requires Readable(es)
    ensures ParseTextures(Listing(es) + rest, |es|) == Some((ReadEntries(es), rest))
    decreases |es|
  {
    if es != [] {
      ListingCons(es);
      var after := Listing(es[1..]) + rest;
      assert Listing(es) + rest == EntryText(es[0]) + after;
      ParseEntry(es[0].0, es[0].1, after, |es| - 1);
      ParseListing(es[1..], rest);
    } else {
      assert Listing(es) + rest == rest;
    }
  }

  /** The `(id, filename)` pairs of the given ids. */
  function Entries(ids: seq<int>, names: seq<string>): (e: seq<(int, string)>)
    requires IdsIn(ids, |names|)
    ensures |e| == |ids|
  {
    seq(|ids|, k requires 0 <= k < |ids| => (ids[k], names[ids[k]]))
  }

  lemma {:induction false} ReadEntriesAre(es: seq<(string, string)>, entries: seq<(int, string)>)
    requires Readable(es) && |es| == |entries|
    requires forall k :: 0 <= k < |es| ==> (ParseInt(es[k].0), es[k].1) == entries[k]
    ensures ReadEntries(es) == entries
    decreases |es|
  {
    if es != [] {
      ReadEntriesAre(es[1..], entries[1..]);
      assert entries == [entries[0]] + entries[1..];
    }
  }

  lemma IdEntriesReadBack(ids: seq<int>, names: seq<string>)
    requires IdsIn(ids, |names|)
    requires forall k :: 0 <= k < |ids| ==> '\n' !in names[ids[k]]
    ensures Readable(IdEntries(ids, names)) && ReadEntries(IdEntries(ids, names)) == Entries(ids, names)
  {
    var es := IdEntries(ids, names);
    forall k | 0 <= k < |ids|
      ensures NoSeparator(es[k].0) && IsIntText(es[k].0) && ParseInt(es[k].0) == ids[k]
    {
      IntTextHasNoSeparator(ids[k]);
    }
    ReadEntriesAre(es, Entries(ids, names));
  }

  /** The three parts of the export are read one after the other. */
  lemma ReadParts(head: string, listing: string, board: string, header: seq<int>, entries: seq<(int, string)>, b: Board)
    requires |header| == 3 && header[2] == |entries|
    requires ParseCells(head + (listing + board)) == Some((header, listing + board))
    requires ParseTextures(listing + board, |entries|) == Some((entries, board))
    requires ParseRows(board) == Some(b)
    ensures ParseMap(head + listing + board) == Some(MapFile(header[0], header[1], entries, b))
  {
    assert head + listing + board == head + (listing + board);
  }

  /**
   * The export reads back: the header gives rows, cols and the number of used
   * ids, then come that many `(id, filename)` entries in ascending id order,
   * then the board itself. Filenames must not contain a newline, and no row
   * may be empty.
   */
  lemma MapDataRoundTrip(rows: int, cols: int, b: Board, names: seq<string>, n: nat)
    requires n <= |names| && CellsIn(b, n)
    requires forall i :: 0 <= i < |b| ==> 1 <= |b[i]|
    requires forall id :: 0 <= id < n ==> '\n' !in names[id]
    ensures ParseMap(MapData(rows, cols, b, names, n)) ==
            Some(MapFile(rows, cols, Entries(IdsBelow(UsedIds(b), n), names), b))
  {
    var used := UsedIds(b);
    var ids := IdsBelow(used, n);
    UsedIdsBelow(b, n);
    IdsBelowCountAll(used, n);
    var es := IdEntries(ids, names);
    IdEntriesReadBack(ids, names);
    var header := [rows, cols, |used|];
    var listing, board := Listing(es), BoardText(b);
    HeaderIsRow(rows, cols, |used|);
    ParseRowText(header, listing + board);
    ParseListing(es, board);
    ParseBoardText(b);
    ReadParts(Header(rows, cols, |used|), listing, board, header, Entries(ids, names), b);
  }
}
