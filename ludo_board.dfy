/**
  The token layer of the board view (renderTokens in src/components/ludo/LudoBoard.tsx):
  where each token is drawn, whether it is marked movable, and what a click on it asks
  the engine to do.
*/
module LudoBoard {
  import opened Wrappers
  import opened JsArrays
  import opened LudoConstants
  import opened LudoGame

  /** BOARD_LAYOUT.find(c => c.type === 'base' && c.color === color). */
  function FindBaseCell(layout: seq<Cell>, color: Color): Option<Cell> {
    Find(layout, (c: Cell) => c.kind == Base && c.color == Some(color))
  }

  /** BOARD_LAYOUT.find(c => c.id === id). */
  function FindCellById(layout: seq<Cell>, id: string): Option<Cell> {
    Find(layout, (c: Cell) => c.id == id)
  }

  /**
    The grid cell a token at `pos` is drawn on, or None when renderTokens returns
    null for it: its base slot for -1, home-path cell h(pos - 100) for 101..106,
    PATH_MAP for 0..51 (an entry PATH_MAP does not have is not drawn), nothing otherwise.
  */
  function TokenGridPos(color: Color, pos: int, tokenIndex: nat): Option<GridPos> {
    var layout := BoardLayout();
    if pos == -1 then
      match FindBaseCell(layout, color)
      case None => None
      case Some(baseInfo) =>
        if baseInfo.itemPositions.None? then None
        else
          var items := baseInfo.itemPositions.value;
          // items[tokenIndex] is undefined past the end; every base cell has four slots
          if tokenIndex < |items| then Some(items[tokenIndex]) else None
    else if 101 <= pos <= 106 then
      match FindCellById(layout, HomeCellId(color, pos - 100))
      case None => None
      case Some(cell) => Some(GridPos(cell.row, cell.col))
    else if 0 <= pos <= 51 then
      var path := PathMap(color);
      if pos < |path| then Some(GridPos(path[pos].row, path[pos].col)) else None
    else None
  }

  /** The index of a colour's base in the fixed cells (red, green, blue, yellow). */
  function BaseCellIndex(c: Color): (i: nat)
    ensures i < |FixedCells| && FixedCells[i].kind == Base && FixedCells[i].color == Some(c)
  {
    match c
    case Red => 0
    case Green => 1
    case Blue => 2
    case Yellow => 3
  }

  /** The slots of a colour's base: the itemPositions of its fixed cell. */
  function BaseSlots(c: Color): (r: seq<GridPos>)
    ensures |r| == TokensPerPlayer
  {
    FixedCells[BaseCellIndex(c)].itemPositions.value
  }

  /** The base lookup of renderTokens finds the colour's fixed base cell, which has four slots. */
  lemma BaseCellLookup(c: Color)
    ensures FindBaseCell(BoardLayout(), c) == Some(FixedCells[BaseCellIndex(c)])
    ensures FixedCells[BaseCellIndex(c)].itemPositions == Some(BaseSlots(c))
  {
    BoardLayoutShape();
    var layout := BoardLayout();
    var n := BaseCellIndex(c);
    forall k | 0 <= k < n ensures !(layout[k].kind == Base && layout[k].color == Some(c)) {
      assert layout[k] == FixedCells[k];
    }
    assert layout[n] == FixedCells[n];
    FindAt(layout, (cell: Cell) => cell.kind == Base && cell.color == Some(c), n);
  }

  /** Cell ids differ when their characters differ at some index. */
  lemma IdsDiffer(a: string, b: string, k: nat)
    requires k < |a| && k < |b| && a[k] != b[k]
    ensures a != b
  {
  }

  /** The shape of a home-path id: colour name, '-', 'h', one digit. */
  lemma HomeCellIdShape(c: Color, i: nat)
    requires 1 <= i <= 6
    ensures var id, name := HomeCellId(c, i), ColorName(c);
      && |id| == |name| + 3
      && id[..|name|] == name
      && id[|name|] == '-' && id[|name| + 1] == 'h'
      && id[|name| + 2] == (i + '0' as int) as char
  {
  }

  /** No cell before colour c's i-th home-path cell has its id. */
  lemma HomeCellIdFirst(c: Color, i: nat, j: nat)
    requires i < 6 && j < HomeCellSlot(c, i)
    ensures j < |BoardLayout()| && BoardLayout()[j].id != HomeCellId(c, i + 1)
  {
    BoardLayoutShape();
    if j < |FixedCells| {
      assert BoardLayout()[j] == FixedCells[j];
      FixedCellIdDiffers(c, i, j);
    } else if j < |FixedCells| + TrackLength {
      BoardLayoutPathCell(j - |FixedCells|);
      PathCellIdDiffers(c, i, j - |FixedCells|);
    } else {
      var r := (j - |FixedCells| - TrackLength) / 6;
      var i' := (j - |FixedCells| - TrackLength) % 6;
      var c' := AllColors[r];
      assert j == HomeCellSlot(c', i');
      BoardLayoutHomeCell(c', i');
      HomeCellIdsDiffer(c, i, c', i');
    }
  }

  lemma PathCellIdDiffers(c: Color, i: nat, k: nat)
    requires i < 6
    ensures "path-main-" + NatToString(k) != HomeCellId(c, i + 1)
  {
    HomeCellIdShape(c, i + 1);
    IdsDiffer("path-main-" + NatToString(k), HomeCellId(c, i + 1), 0);
  }

  /** Home-path ids of distinct (colour, index) pairs differ. */
  lemma HomeCellIdsDiffer(c: Color, i: nat, c': Color, i': nat)
    requires i < 6 && i' < 6 && (c, i) != (c', i')
    ensures HomeCellId(c', i' + 1) != HomeCellId(c, i + 1)
  {
    HomeCellIdShape(c, i + 1);
    HomeCellIdShape(c', i' + 1);
    if c' == c {
      IdsDiffer(HomeCellId(c', i' + 1), HomeCellId(c, i + 1), |ColorName(c)| + 2);
    } else {
      IdsDiffer(HomeCellId(c', i' + 1), HomeCellId(c, i + 1), 0);
    }
  }

  /** The fixed cells' ids ("<colour>-base", "home-finish") are not home-path ids. */
  lemma FixedCellIdDiffers(c: Color, i: nat, j: nat)
    requires i < 6 && j < |FixedCells|
    ensures FixedCells[j].id != HomeCellId(c, i + 1)
  {
    HomeCellIdShape(c, i + 1);
    var id, other := HomeCellId(c, i + 1), FixedCells[j].id;
    if other[0] == id[0] {
      IdsDiffer(other, id, |ColorName(c)| + 1);
    } else {
      IdsDiffer(other, id, 0);
    }
  }

  lemma HomeCellLookup(c: Color, i: nat)
    requires i < 6
    ensures HomeCellSlot(c, i) < |BoardLayout()|
    ensures FindCellById(BoardLayout(), HomeCellId(c, i + 1)) == Some(BoardLayout()[HomeCellSlot(c, i)])
  {
    BoardLayoutHomeCell(c, i);
    forall j | 0 <= j < HomeCellSlot(c, i) ensures BoardLayout()[j].id != HomeCellId(c, i + 1) {
      HomeCellIdFirst(c, i, j);
    }
    FindAt(BoardLayout(), (cell: Cell) => cell.id == HomeCellId(c, i + 1), HomeCellSlot(c, i));
  }

  /**
    Where renderTokens draws a token, case by case: -1 on its base slot, 101..106
    on home-path cell pos - 100 (so the finished value 106 sits on h6), 0..50 on
    the track cell (start + pos) mod 52, and nothing for 51, below -1, 52..100 or
    above 106.
  */
  lemma TokenGridPosCases(color: Color, pos: int, tokenIndex: nat)
    ensures pos == -1 ==>
      TokenGridPos(color, pos, tokenIndex) == if tokenIndex < TokensPerPlayer then Some(BaseSlots(color)[tokenIndex]) else None
    ensures 101 <= pos <= 106 ==> TokenGridPos(color, pos, tokenIndex) == Some(HomePaths(color)[pos - 101])
    ensures 0 <= pos <= 50 ==>
      TokenGridPos(color, pos, tokenIndex) == Some(AbsolutePath[(StartIndex(color) + pos) % TrackLength])
    ensures (pos < -1 || 51 <= pos <= 100 || pos > 106) ==> TokenGridPos(color, pos, tokenIndex) == None
  {
    if pos == -1 {
      TokenInBase(color, tokenIndex);
    } else if 101 <= pos <= 106 {
      TokenOnHomePath(color, pos, tokenIndex);
    } else if 0 <= pos <= 50 {
      TokenOnTrack(color, pos, tokenIndex);
    }
  }

  lemma TokenInBase(color: Color, tokenIndex: nat)
    ensures TokenGridPos(color, -1, tokenIndex) == if tokenIndex < TokensPerPlayer then Some(BaseSlots(color)[tokenIndex]) else None
  {
    BaseCellLookup(color);
  }

  lemma TokenOnHomePath(color: Color, pos: int, tokenIndex: nat)
    requires 101 <= pos <= 106
    ensures TokenGridPos(color, pos, tokenIndex) == Some(HomePaths(color)[pos - 101])
  {
    HomeCellLookup(color, pos - 101);
    BoardLayoutHomeCell(color, pos - 101);
  }

  lemma TokenOnTrack(color: Color, pos: int, tokenIndex: nat)
    requires 0 <= pos <= 50
    ensures TokenGridPos(color, pos, tokenIndex) == Some(AbsolutePath[(StartIndex(color) + pos) % TrackLength])
  {
  }

  /**
    A token can stop on position 51 (a 6 from 45 lands there, since only
    positions past 51 are sent to the finished value), yet the per-colour path
    has no cell 51, so renderTokens draws nothing for it.
  */
  lemma PositionFiftyOneUndrawn(color: Color, tokenIndex: nat)
    ensures MovedPosition(45, 6) == LastMainPos && ValidPosition(LastMainPos)
    ensures TokenGridPos(color, LastMainPos, tokenIndex) == None
  {
    TokenGridPosCases(color, LastMainPos, tokenIndex);
  }

  /** isMovable: the token's owner is the active player and its index is among movableTokens. */
  predicate IsMovable(owner: Color, tokenIndex: nat, active: Color, movable: seq<nat>) {
    active == owner && tokenIndex in movable
  }

  /** A token is marked movable exactly when it is a movable token of the active player under the current dice. */
  lemma IsMovableSpec(s: GameState, owner: Color, tokenIndex: nat)
    requires ValidState(s)
    ensures var tokens := s.players[ColorRank(owner)].tokens;
      IsMovable(owner, tokenIndex, s.activePlayer, MovableTokens(s.players, s.activePlayer, s.diceValue)) <==>
      && owner == s.activePlayer
      && DiceSet(s.diceValue)
      && tokenIndex < |tokens|
      && (tokens[tokenIndex] == InBase ==> s.diceValue.value == 6)
      && tokens[tokenIndex] != Finished
  {
    var a := ColorRank(s.activePlayer);
    assert s.players[a].id == s.activePlayer;
    assert FindPlayer(s.players, s.activePlayer) == Some(a);
  }

  /** What renderTokens draws for one token: colour, index, grid cell and the movable mark. */
  datatype TokenView = TokenView(owner: Color, tokenIndex: nat, gridPos: GridPos, isMovable: bool)

  /** The map callback of renderTokens for token k: None where it returns null. */
  function TokenEntry(player: Player, k: nat, active: Color, movable: seq<nat>): Option<TokenView>
    requires k < |player.tokens|
  {
    match TokenGridPos(player.id, player.tokens[k], k)
    case None => None
    case Some(g) => Some(TokenView(player.id, k, g, IsMovable(player.id, k, active, movable)))
  }

  /** player.tokens.map(...): one entry per token, in token order. */
  function PlayerTokenViews(player: Player, active: Color, movable: seq<nat>): (r: seq<Option<TokenView>>)
    ensures |r| == |player.tokens|
    ensures forall k :: 0 <= k < |r| ==> r[k] == TokenEntry(player, k, active, movable)
  {
    seq(|player.tokens|, k requires 0 <= k < |player.tokens| => TokenEntry(player, k, active, movable))
  }

  /** renderTokens: players.flatMap over each player's token entries. */
  function RenderTokens(players: seq<Player>, active: Color, movable: seq<nat>): seq<Option<TokenView>> {
    FlatMap(players, (player: Player) => PlayerTokenViews(player, active, movable))
  }

  /**
    With four tokens per player, renderTokens has four entries per player, and
    entry 4 * p + k is the entry of token k of player p.
  */
  lemma RenderTokensAt(players: seq<Player>, active: Color, movable: seq<nat>, p: nat, k: nat)
    requires forall i :: 0 <= i < |players| ==> |players[i].tokens| == TokensPerPlayer
    ensures |RenderTokens(players, active, movable)| == TokensPerPlayer * |players|
    ensures p < |players| && k < TokensPerPlayer ==>
      RenderTokens(players, active, movable)[TokensPerPlayer * p + k] == TokenEntry(players[p], k, active, movable)
  {
    var f := (player: Player) => PlayerTokenViews(player, active, movable);
    FlatMapUniform(players, f, TokensPerPlayer, p, k);
  }

  /**
    onClick of a drawn token calls onTokenMove(tokenIndex) only: whoever owns the
    clicked token, the engine moves the active player's token with that index.
  */
  method TokenClicked(game: Game, view: TokenView)
    requires game.Valid()
    modifies game
    ensures game.Valid()
    ensures game.State() == TokenMove(old(game.State()), view.tokenIndex)
  {
    game.HandleTokenMove(view.tokenIndex);
  }

  /**
    A click on token k of a player who is not active, when k is movable for the
    active player, leaves the clicked player's tokens alone and moves the active
    player's token k.
  */
  lemma ClickMovesActiveToken(s: GameState, owner: Color, k: nat)
    requires ValidState(s) && owner != s.activePlayer && Accepts(s, k)
    ensures var r := TokenMove(s, k);
      && |r.players| == |s.players|
      && r.players[ColorRank(owner)] == s.players[ColorRank(owner)]
      && k < TokensPerPlayer
      && r.players[ColorRank(s.activePlayer)].tokens[k] != s.players[ColorRank(s.activePlayer)].tokens[k]
  {
    TokenMoveChangesOneToken(s, k);
  }
}
