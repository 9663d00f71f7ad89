/**
  Board topology of the Ludo board: the colours, the 52-cell shared track, the
  six-cell home paths, the safe squares, the board layout built at load time
  and the per-colour rotation of the track (src/lib/ludo-constants.ts).
*/
module LudoConstants {
  import opened Wrappers
  import opened JsArrays

  datatype Color = Red | Green | Yellow | Blue

  /** The colours in the declaration order of PLAYER_COLORS (and of HOME_PATHS). */
  const AllColors: seq<Color> := [Red, Green, Yellow, Blue]

  /** Position of a colour in AllColors. */
  function ColorRank(c: Color): (r: nat)
    ensures r < |AllColors| && AllColors[r] == c
  {
    match c
    case Red => 0
    case Green => 1
    case Yellow => 2
    case Blue => 3
  }

  /** The string a colour is written as (its key in PLAYER_COLORS). */
  function ColorName(c: Color): (s: string)
    ensures |s| >= 3
  {
    match c
    case Red => "red"
    case Green => "green"
    case Yellow => "yellow"
    case Blue => "blue"
  }

  datatype GridPos = GridPos(row: int, col: int)

  datatype CellType = Base | Path | HomePath | HomeFinish | Center

  /** A cell of the board layout; the optional fields of the source are Options. */
  datatype Cell = Cell(
    id: string,
    kind: CellType,
    row: int,
    col: int,
    span: Option<GridPos>,
    color: Option<Color>,
    isSafe: Option<bool>,
    itemPositions: Option<seq<GridPos>>)

  const TrackLength := 52

  /** The shared circular track, in grid coordinates. */
  const AbsolutePath: seq<GridPos> :=
    // written as four quarters of 13 cells, one per colour's start
    [ GridPos(7, 2), GridPos(7, 3), GridPos(7, 4), GridPos(7, 5), GridPos(7, 6),
      GridPos(6, 7), GridPos(5, 7), GridPos(4, 7), GridPos(3, 7), GridPos(2, 7), GridPos(1, 7),
      GridPos(1, 8),
      GridPos(1, 9) ] +
    [ GridPos(2, 9), GridPos(3, 9), GridPos(4, 9), GridPos(5, 9), GridPos(6, 9),
      GridPos(7, 10), GridPos(7, 11), GridPos(7, 12), GridPos(7, 13), GridPos(7, 14), GridPos(7, 15),
      GridPos(8, 15),
      GridPos(9, 15) ] +
    [ GridPos(9, 14), GridPos(9, 13), GridPos(9, 12), GridPos(9, 11), GridPos(9, 10),
      GridPos(10, 9), GridPos(11, 9), GridPos(12, 9), GridPos(13, 9), GridPos(14, 9), GridPos(15, 9),
      GridPos(15, 8),
      GridPos(15, 7) ] +
    [ GridPos(14, 7), GridPos(13, 7), GridPos(12, 7), GridPos(11, 7), GridPos(10, 7),
      GridPos(9, 6), GridPos(9, 5), GridPos(9, 4), GridPos(9, 3), GridPos(9, 2), GridPos(9, 1),
      GridPos(8, 1),
      GridPos(7, 1) ]

  /** Each colour's private home path, from its entry towards the centre. */
  function HomePaths(c: Color): seq<GridPos> {
    match c
    case Red => [GridPos(8, 2), GridPos(8, 3), GridPos(8, 4), GridPos(8, 5), GridPos(8, 6), GridPos(8, 7)]
    case Green => [GridPos(2, 8), GridPos(3, 8), GridPos(4, 8), GridPos(5, 8), GridPos(6, 8), GridPos(7, 8)]
    case Yellow => [GridPos(8, 14), GridPos(8, 13), GridPos(8, 12), GridPos(8, 11), GridPos(8, 10), GridPos(8, 9)]
    case Blue => [GridPos(14, 8), GridPos(13, 8), GridPos(12, 8), GridPos(11, 8), GridPos(10, 8), GridPos(9, 8)]
  }

  /** The track indices whose cells are safe squares. */
  const SafeIndices: seq<nat> := [0, 8, 13, 21, 26, 34, 39, 47]

  const SafeSquaresGrid: seq<GridPos> := [
    AbsolutePath[0], AbsolutePath[8], AbsolutePath[13], AbsolutePath[21],
    AbsolutePath[26], AbsolutePath[34], AbsolutePath[39], AbsolutePath[47]
  ]

  /** isSafeSquare: false for a missing position, otherwise whether a safe square has its row and column. */
  function IsSafeSquare(gridPos: Option<GridPos>): bool {
    if gridPos.None? then false
    else
      var p := gridPos.value;
      Find(SafeSquaresGrid, (q: GridPos) => q.row == p.row && q.col == p.col).Some?
  }

  // ---------------------------------------------------------------------
  // Track index of a grid cell: an explicit inverse of AbsolutePath, used to
  // show that the track has no repeated cell.

  ghost function TrackIndex(p: GridPos): Option<nat> {
    var r, c := p.row, p.col;
    if r == 7 && 2 <= c <= 6 then Some(c - 2)
    else if c == 7 && 1 <= r <= 6 then Some(5 + (6 - r))
    else if r == 1 && c == 8 then Some(11)
    else if c == 9 && 1 <= r <= 6 then Some(12 + (r - 1))
    else if r == 7 && 10 <= c <= 15 then Some(18 + (c - 10))
    else if r == 8 && c == 15 then Some(24)
    else if r == 9 && 10 <= c <= 15 then Some(25 + (15 - c))
    else if c == 9 && 10 <= r <= 15 then Some(31 + (r - 10))
    else if r == 15 && c == 8 then Some(37)
    else if c == 7 && 10 <= r <= 15 then Some(38 + (15 - r))
    else if r == 9 && 1 <= c <= 6 then Some(44 + (6 - c))
    else if r == 8 && c == 1 then Some(50)
    else if r == 7 && c == 1 then Some(51)
    else None
  }

  lemma TrackIndexOfTrack(i: nat)
    requires i < |AbsolutePath|
    ensures TrackIndex(AbsolutePath[i]) == Some(i)
  {
    // one lemma per quarter of the track keeps each indexing step shallow
    if i < 13 {
      TrackIndexFirstQuarter(i);
    } else if i < 26 {
      TrackIndexSecondQuarter(i);
    } else if i < 39 {
      TrackIndexThirdQuarter(i);
    } else {
      TrackIndexFourthQuarter(i);
    }
  }

  lemma TrackIndexFirstQuarter(i: nat)
    requires i < 13
    ensures TrackIndex(AbsolutePath[i]) == Some(i)
  {
  }

  lemma TrackIndexSecondQuarter(i: nat)
    requires 13 <= i < 26
    ensures TrackIndex(AbsolutePath[i]) == Some(i)
  {
  }

  lemma TrackIndexThirdQuarter(i: nat)
    requires 26 <= i < 39
    ensures TrackIndex(AbsolutePath[i]) == Some(i)
  {
  }

  lemma TrackIndexFourthQuarter(i: nat)
    requires 39 <= i < 52
    ensures TrackIndex(AbsolutePath[i]) == Some(i)
  {
  }

  /** ABSOLUTE_PATH has 52 cells, no two of them equal. */
  lemma AbsolutePathDistinct()
    ensures |AbsolutePath| == TrackLength
    ensures forall i, j :: 0 <= i < j < |AbsolutePath| ==> AbsolutePath[i] != AbsolutePath[j]
  {
    forall i, j | 0 <= i < j < |AbsolutePath| ensures AbsolutePath[i] != AbsolutePath[j] {
      TrackIndexOfTrack(i);
      TrackIndexOfTrack(j);
    }
  }

  // ---------------------------------------------------------------------
  // Safe squares

  /** isSafeSquare holds exactly for a present position equal to the track cell at a safe index. */
  lemma IsSafeSquareSpec(gridPos: Option<GridPos>)
    ensures IsSafeSquare(gridPos) <==>
      gridPos.Some? && exists k :: 0 <= k < |SafeIndices| && AbsolutePath[SafeIndices[k]] == gridPos.value
  {
    if gridPos.Some? {
      var p := gridPos.value;
      if IsSafeSquare(gridPos) {
        var k :| 0 <= k < |SafeSquaresGrid| && SafeSquaresGrid[k].row == p.row && SafeSquaresGrid[k].col == p.col;
        assert AbsolutePath[SafeIndices[k]] == p;
      } else {
        forall k | 0 <= k < |SafeIndices| ensures AbsolutePath[SafeIndices[k]] != p {
          assert SafeSquaresGrid[k] == AbsolutePath[SafeIndices[k]];
        }
      }
    }
  }

  /** A track cell is safe exactly when its index is one of the eight safe indices. */
  lemma IsSafeSquareOnTrack(i: nat)
    requires i < |AbsolutePath|
    ensures IsSafeSquare(Some(AbsolutePath[i])) <==> i in SafeIndices
  {
    IsSafeSquareSpec(Some(AbsolutePath[i]));
    AbsolutePathDistinct();
    if IsSafeSquare(Some(AbsolutePath[i])) {
      var k :| 0 <= k < |SafeIndices| && AbsolutePath[SafeIndices[k]] == AbsolutePath[i];
      assert SafeIndices[k] == i;
    } else {
      forall k | 0 <= k < |SafeIndices| ensures SafeIndices[k] != i { }
    }
  }

  /** START_INDICES: where each colour enters the shared track. */
  function StartIndex(c: Color): (s: nat)
    ensures s == 13 * ColorRank(c)
  {
    match c
    case Red => 0
    case Green => 13
    case Yellow => 26
    case Blue => 39
  }

  /** Each colour's entry cell is a safe square. */
  lemma StartCellIsSafe(c: Color)
    ensures StartIndex(c) < |AbsolutePath|
    ensures IsSafeSquare(Some(AbsolutePath[StartIndex(c)]))
  {
    IsSafeSquareOnTrack(StartIndex(c));
  }

  // ---------------------------------------------------------------------
  // Per-colour paths

  /** Length of a player's logical main path. */
  const PlayerPathLength := 51

  /**
    createPlayerPath: the track rotated to begin at `startIdx`, cut to its first
    51 cells. Cell i of the result is cell (start + i) mod n of the track.
  */
  function CreatePlayerPath(startIdx: nat, path: seq<GridPos>): (r: seq<GridPos>)
    ensures |r| == Min(PlayerPathLength, |path|)
    ensures forall i :: 0 <= i < |r| ==> r[i] == path[(Min(startIdx, |path|) + i) % |path|]
  {
    var mainPath := SliceFrom(path, startIdx) + SliceTo(path, startIdx);
    var r := SliceTo(mainPath, PlayerPathLength);
    forall i | 0 <= i < |r| ensures r[i] == path[(Min(startIdx, |path|) + i) % |path|] {
      RotatedIndex(Min(startIdx, |path|), i, |path|);
    }
    r
  }

  lemma RotatedIndex(s: nat, i: nat, n: nat)
    requires s <= n && i < n
    ensures (s + i) % n == if s + i < n then s + i else s + i - n
  {
  }

  /** PATH_MAP: each colour's logical positions 0..50 on the shared track. */
  function PathMap(c: Color): (r: seq<GridPos>)
    ensures |r| == PlayerPathLength
    ensures forall i :: 0 <= i < |r| ==> r[i] == AbsolutePath[(StartIndex(c) + i) % TrackLength]
  {
    assert |AbsolutePath| == TrackLength && StartIndex(c) < TrackLength;
    CreatePlayerPath(StartIndex(c), AbsolutePath)
  }

  /** The track index that a colour's path leaves out: the cell just before its start. */
  function OmittedIndex(c: Color): (k: nat)
    ensures k < TrackLength
  {
    (StartIndex(c) + PlayerPathLength) % TrackLength
  }

  /**
    A colour's path visits 51 distinct track cells: every track cell except the one
    just before the colour's start.
  */
  lemma PathMapCoversTrack(c: Color)
    ensures forall i, j :: 0 <= i < j < |PathMap(c)| ==> PathMap(c)[i] != PathMap(c)[j]
    ensures forall i :: 0 <= i < |PathMap(c)| ==> PathMap(c)[i] != AbsolutePath[OmittedIndex(c)]
    ensures forall k :: 0 <= k < TrackLength && k != OmittedIndex(c) ==> AbsolutePath[k] in PathMap(c)
  {
    AbsolutePathDistinct();
    var p := PathMap(c);
    forall i, j | 0 <= i < j < |p| ensures p[i] != p[j] {
      PathCellsDiffer(c, i, j);
    }
    forall i | 0 <= i < |p| ensures p[i] != AbsolutePath[OmittedIndex(c)] {
      PathCellsDiffer(c, i, PlayerPathLength);
    }
    forall k | 0 <= k < TrackLength && k != OmittedIndex(c) ensures AbsolutePath[k] in PathMap(c) {
      var i := PathPositionOf(c, k);
    }
  }

  /** Two different logical positions 0..51 of one colour fall on different track indices. */
  lemma PathCellsDiffer(c: Color, i: nat, j: nat)
    requires i < j <= PlayerPathLength
    ensures (StartIndex(c) + i) % TrackLength != (StartIndex(c) + j) % TrackLength
  {
    RotatedIndex(StartIndex(c), i, TrackLength);
    RotatedIndex(StartIndex(c), j, TrackLength);
  }

  /** The logical position at which a colour's path reaches track cell k. */
  lemma PathPositionOf(c: Color, k: nat) returns (i: nat)
    requires k < TrackLength && k != OmittedIndex(c)
    ensures i < |PathMap(c)| && PathMap(c)[i] == AbsolutePath[k]
  {
    var s := StartIndex(c);
    i := if s <= k then k - s else k + TrackLength - s;
    RotatedIndex(s, i, TrackLength);
    RotatedIndex(s, PlayerPathLength, TrackLength);
  }

  /** Every home path has six cells. */
  lemma HomePathsHaveSixCells(c: Color)
    ensures |HomePaths(c)| == 6
  {
  }

  // ---------------------------------------------------------------------
  // Board layout

  /** Decimal digits of n, as a template literal writes a number. */
  function NatToString(n: nat): (s: string)
    ensures |s| >= 1 && forall k :: 0 <= k < |s| ==> '0' <= s[k] <= '9'
    ensures n < 10 ==> s == [(n as int + '0' as int) as char]
  {
    var d := [(n % 10 + '0' as int) as char];
    if n < 10 then d else NatToString(n / 10) + d
  }

  /** Reads back the decimal digits written by NatToString. */
  function ParseDigits(s: string): nat
    requires forall k :: 0 <= k < |s| ==> '0' <= s[k] <= '9'
  {
    if |s| == 0 then 0
    else 10 * ParseDigits(s[..|s| - 1]) + (s[|s| - 1] as int - '0' as int)
  }

  /** NatToString is injective: the digits read back to the number. */
  lemma {:induction false} NatToStringRoundTrip(n: nat)
    ensures ParseDigits(NatToString(n)) == n
  {
    var s := NatToString(n);
    if n >= 10 {
      NatToStringRoundTrip(n / 10);
      assert s[..|s| - 1] == NatToString(n / 10);
    }
  }

  const FixedCells: seq<Cell> := [
    Cell("red-base", Base, 1, 1, Some(GridPos(6, 6)), Some(Red), None,
      Some([GridPos(3, 3), GridPos(3, 4), GridPos(4, 3), GridPos(4, 4)])),
    Cell("green-base", Base, 1, 10, Some(GridPos(6, 6)), Some(Green), None,
      Some([GridPos(3, 12), GridPos(3, 13), GridPos(4, 12), GridPos(4, 13)])),
    Cell("blue-base", Base, 10, 1, Some(GridPos(6, 6)), Some(Blue), None,
      Some([GridPos(12, 3), GridPos(12, 4), GridPos(13, 3), GridPos(13, 4)])),
    Cell("yellow-base", Base, 10, 10, Some(GridPos(6, 6)), Some(Yellow), None,
      Some([GridPos(12, 12), GridPos(12, 13), GridPos(13, 12), GridPos(13, 13)])),
    Cell("home-finish", HomeFinish, 7, 7, Some(GridPos(3, 3)), None, None, None)
  ]

  /** The layout cell pushed for track cell i. */
  function PathCell(i: nat, pos: GridPos): Cell {
    Cell("path-main-" + NatToString(i), Path, pos.row, pos.col, None, None, Some(IsSafeSquare(Some(pos))), None)
  }

  /** The id of the i-th (1-based) home-path cell of a colour. */
  function HomeCellId(c: Color, i: nat): string {
    ColorName(c) + "-h" + NatToString(i)
  }

  /** The layout cell pushed for cell i (0-based) of a colour's home path. */
  function HomeCell(c: Color, i: nat, pos: GridPos): Cell {
    Cell(HomeCellId(c, i + 1), HomePath, pos.row, pos.col, None, Some(c), Some(true), None)
  }

  /** The path cells pushed for a sequence of track cells, one per cell with its index. */
  function PathCellsOf(path: seq<GridPos>): seq<Cell> {
    seq(|path|, i requires 0 <= i < |path| => PathCell(i, path[i]))
  }

  function PathCells(): seq<Cell> {
    PathCellsOf(AbsolutePath)
  }

  /** The home cells pushed for a colour's home path. */
  function HomeCellsFor(c: Color, home: seq<GridPos>): seq<Cell> {
    seq(|home|, i requires 0 <= i < |home| => HomeCell(c, i, home[i]))
  }

  function HomeCells(c: Color): seq<Cell> {
    HomeCellsFor(c, HomePaths(c))
  }

  /** The home-path cells of the given colours, in that order. */
  function HomeCellsOf(cs: seq<Color>): seq<Cell>
    decreases |cs|
  {
    if |cs| == 0 then [] else HomeCellsOf(cs[..|cs| - 1]) + HomeCells(cs[|cs| - 1])
  }

  /** BOARD_LAYOUT as it stands once the module has loaded. */
  function BoardLayout(): seq<Cell> {
    FixedCells + PathCells() + HomeCellsOf(AllColors)
  }

  /** The module-load construction of BOARD_LAYOUT: a push per track cell, then per home-path cell. */
  method BuildBoardLayout() returns (layout: seq<Cell>)
    ensures layout == BoardLayout()
  {
    layout := FixedCells;
    layout := PushPathCells(layout, AbsolutePath);
    ghost var head := layout;
    var n := 0;
    while n < |AllColors|
      invariant 0 <= n <= |AllColors|
      invariant layout == head + HomeCellsOf(AllColors[..n])
    {
      var color := AllColors[n];
      layout := PushHomeCells(layout, color, HomePaths(color));
      assert AllColors[..n + 1][..n] == AllColors[..n];
      n := n + 1;
    }
    assert AllColors[..n] == AllColors;
  }

  /** ABSOLUTE_PATH.forEach: one 'path' cell pushed per track cell. */
  method PushPathCells(prefix: seq<Cell>, path: seq<GridPos>) returns (layout: seq<Cell>)
    ensures layout == prefix + PathCellsOf(path)
  {
    layout := prefix;
    var i := 0;
    while i < |path|
      invariant 0 <= i <= |path|
      invariant layout == prefix + PathCellsOf(path)[..i]
    {
      assert PathCellsOf(path)[..i + 1] == PathCellsOf(path)[..i] + [PathCell(i, path[i])];
      layout := layout + [PathCell(i, path[i])];
      i := i + 1;
    }
    assert PathCellsOf(path)[..i] == PathCellsOf(path);
  }

  /** HOME_PATHS[color].forEach: one 'home-path' cell pushed per cell of the colour's home path. */
  method PushHomeCells(prefix: seq<Cell>, color: Color, home: seq<GridPos>) returns (layout: seq<Cell>)
    ensures layout == prefix + HomeCellsFor(color, home)
  {
    layout := prefix;
    var j := 0;
    while j < |home|
      invariant 0 <= j <= |home|
      invariant layout == prefix + HomeCellsFor(color, home)[..j]
    {
      assert HomeCellsFor(color, home)[..j + 1] == HomeCellsFor(color, home)[..j] + [HomeCell(color, j, home[j])];
      layout := layout + [HomeCell(color, j, home[j])];
      j := j + 1;
    }
    assert HomeCellsFor(color, home)[..j] == HomeCellsFor(color, home);
  }

  /** Position in BOARD_LAYOUT of cell i of colour c's home path. */
  function HomeCellSlot(c: Color, i: nat): nat {
    |FixedCells| + TrackLength + 6 * ColorRank(c) + i
  }

  lemma HomeCellsOfLength(n: nat)
    requires n <= |AllColors|
    ensures |HomeCellsOf(AllColors[..n])| == 6 * n
  {
    if n > 0 {
      assert AllColors[..n][..n - 1] == AllColors[..n - 1];
      HomeCellsOfLength(n - 1);
    }
  }

  lemma HomeCellsOfAt(n: nat, c: Color, i: nat)
    requires n <= |AllColors| && ColorRank(c) < n && i < 6
    ensures |HomeCellsOf(AllColors[..n])| == 6 * n
    ensures HomeCellsOf(AllColors[..n])[6 * ColorRank(c) + i] == HomeCell(c, i, HomePaths(c)[i])
  {
    HomeCellsOfLength(n);
    assert AllColors[..n][..n - 1] == AllColors[..n - 1];
    if ColorRank(c) < n - 1 {
      HomeCellsOfAt(n - 1, c, i);
    } else {
      HomeCellsOfLength(n - 1);
    }
  }

  /** BOARD_LAYOUT starts with the five fixed cells and holds 5 + 52 + 4 * 6 cells. */
  lemma BoardLayoutShape()
    ensures |BoardLayout()| == |FixedCells| + TrackLength + 6 * |AllColors|
    ensures BoardLayout()[..|FixedCells|] == FixedCells
  {
    assert AllColors[..4] == AllColors;
    HomeCellsOfLength(4);
  }

  /** After the fixed cells comes one 'path' cell per track index, safe exactly at the safe indices. */
  lemma BoardLayoutPathCell(i: nat)
    requires i < TrackLength
    ensures |FixedCells| + i < |BoardLayout()|
    ensures BoardLayout()[|FixedCells| + i] ==
      Cell("path-main-" + NatToString(i), Path, AbsolutePath[i].row, AbsolutePath[i].col,
           None, None, Some(i in SafeIndices), None)
  {
    BoardLayoutShape();
    IsSafeSquareOnTrack(i);
    assert BoardLayout()[|FixedCells| + i] == PathCells()[i];
  }

  /** Then six 'home-path' cells per colour, ids colour-h1 .. colour-h6, all marked safe. */
  lemma BoardLayoutHomeCell(c: Color, i: nat)
    requires i < 6
    ensures HomeCellSlot(c, i) < |BoardLayout()|
    ensures BoardLayout()[HomeCellSlot(c, i)] ==
      Cell(HomeCellId(c, i + 1), HomePath, HomePaths(c)[i].row, HomePaths(c)[i].col,
           None, Some(c), Some(true), None)
  {
    BoardLayoutShape();
    assert AllColors[..4] == AllColors;
    HomeCellsOfAt(4, c, i);
    assert BoardLayout()[HomeCellSlot(c, i)] == HomeCellsOf(AllColors)[6 * ColorRank(c) + i];
  }
}
